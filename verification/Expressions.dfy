/** Guard expressions as token sequences: the printer, the parser, and what one does to the other's output. */
module Expressions {
  import opened Wrappers

  datatype Op =
    | Unknown
    | Or | And | Add | Sub | Mul | Div
    | Neq | Eq | Gt | Gte | Lt | Lte
    | Function(name: string)

  /** A leaf is a variable (proto.att.index) or a constant, kept as its spelling. */
  datatype Expr = Leaf(text: string) | Oper(op: Op, params: seq<Expr>)

  /**
    * Func(f) stands for the mark and the name that introduce a function call, and Foreign for what no operand begins
    * with: a double quote, or a name that is neither a variable nor a constant.
    */
  datatype Token = Open | Close | Comma | Sign(op: Op) | Func(name: string) | Atom(text: string) | Foreign(text: string)

  predicate NAry(op: Op) {
    op in {Or, And, Add, Sub, Mul, Div}
  }

  predicate Comparison(op: Op) {
    op in {Neq, Eq, Gt, Gte, Lt, Lte}
  }

  // ---- Printer ----

  function Print(e: Expr): seq<Token>
    decreases e, 0
  {
    match e
    case Leaf(text) => [Atom(text)]
    case Oper(Function(f), params) => [Func(f), Open] + PrintParams(Comma, params) + [Close]
    case Oper(op, params) => [Open] + PrintParams(Sign(op), params) + [Close]
  }

  function PrintParams(separator: Token, params: seq<Expr>): seq<Token>
    decreases params, 1
  {
    if params == [] then []
    else if |params| == 1 then Print(params[0])
    else Print(params[0]) + [separator] + PrintParams(separator, params[1..])
  }

  // ---- Parser ----

  /** An operation under construction: the parameters it already has, without the one the parser is inside of. */
  datatype Frame = Frame(op: Op, params: seq<Expr>)

  function AddParam(stack: seq<Frame>, e: Expr): seq<Frame>
    requires stack != []
  {
    var top := stack[|stack| - 1];
    stack[|stack| - 1 := top.(params := top.params + [e])]
  }

  /** What an infix sign makes of the operator found so far; none when the parser halts. */
  function Meets(op: Op, sign: Op): Option<Op> {
    if op == Unknown && (NAry(sign) || Comparison(sign)) then Some(sign)
    else if op == sign && NAry(sign) then Some(sign)
    else None
  }

  /** The whole tree when the text ends here: every open operation becomes the last parameter of the one around it. */
  function Collapse(stack: seq<Frame>): Expr
    requires stack != []
    decreases |stack|
  {
    var top := stack[|stack| - 1];
    var e := Oper(top.op, top.params);
    if |stack| == 1 then e else Collapse(AddParam(stack[..|stack| - 1], e))
  }

  /**
    * What the next token does to the open operations; none when the parser halts. `first` says that an opening
    * parenthesis belongs to the operation that has just been begun. Closing the root is allowed at the end only.
    */
  function Consume(stack: seq<Frame>, first: bool, ts: seq<Token>): (r: Option<seq<Frame>>)
    requires stack != [] && ts != []
    ensures r.Some? ==> r.value != []
  {
    var top := stack[|stack| - 1];
    var below := stack[..|stack| - 1];
    match ts[0]
    case Open => Some(if first then stack else stack + [Frame(Unknown, [])])
    case Close =>
      if below != [] then Some(AddParam(below, Oper(top.op, top.params)))
      else if |ts| == 1 then Some(stack)
      else None
    case Atom(text) => Some(AddParam(stack, Leaf(text)))
    case Func(f) => Some(stack + [Frame(Function(f), [])])
    case Sign(sign) =>
      (match Meets(top.op, sign)
       case None => None
       case Some(op) => Some(below + [top.(op := op)]))
    case Comma => if top.op.Function? && (|ts| == 1 || ts[1] != Close) then Some(stack) else None
    case Foreign(_) => None
  }

  /** Goes on inside the last of the open operations. */
  function Run(stack: seq<Frame>, first: bool, ts: seq<Token>): Option<Expr>
    requires stack != []
    decreases |ts|
  {
    if ts == [] then Some(Collapse(stack))
    else
      match Consume(stack, first, ts)
      case None => None
      case Some(next) => Run(next, ts[0].Func?, ts[1..])
  }

  function Parse(ts: seq<Token>): Option<Expr> {
    Run([Frame(Unknown, [])], true, ts)
  }

  // ---- Parsing what was printed ----

  /** Trees whose text says what they are. */
  predicate WellFormed(e: Expr) {
    e.Oper? ==>
      && (forall p <- e.params :: WellFormed(p))
      && (NAry(e.op) ==> |e.params| >= 2)
      && (Comparison(e.op) ==> |e.params| == 2)
      && (e.op == Unknown ==> |e.params| <= 1)
  }

  /** How a separator changes the operator of the operation that it stands in. */
  function Separate(op: Op, separator: Token): Option<Op> {
    match separator
    case Sign(sign) => Meets(op, sign)
    case Comma => if op.Function? then Some(op) else None
    case _ => None
  }

  /** The tree that comes back when e is printed and parsed; none when the parser refuses the text. */
  function Reread(e: Expr): Option<Expr>
    decreases e, 0
  {
    match e
    case Leaf(_) => Some(e)
    case Oper(op, params) =>
      var start := if op.Function? then op else Unknown;
      match RereadParams(start, if op.Function? then Comma else Sign(op), params)
      case None => None
      case Some(frame) => Some(Oper(frame.op, frame.params))
  }

  function RereadParams(op: Op, separator: Token, params: seq<Expr>): (r: Option<Frame>)
    decreases params, 1
  {
    if params == [] then Some(Frame(op, []))
    else
      match Reread(params[0])
      case None => None
      case Some(p) =>
        if |params| == 1 then Some(Frame(op, [p]))
        else
          match Separate(op, separator)
          case None => None
          case Some(next) =>
            match RereadParams(next, separator, params[1..])
            case None => None
            case Some(frame) => Some(Frame(frame.op, [p] + frame.params))
  }

  /** Running over the text of a tree hands that tree, as reread, to the operation the parser is in. */
  lemma {:induction false} RunPrinted(e: Expr, stack: seq<Frame>, rest: seq<Token>)
    requires stack != []
    ensures Run(stack, false, Print(e) + rest) ==
            if Reread(e).None? then None else Run(AddParam(stack, Reread(e).value), false, rest)
    decreases e, 0
  {
    match e
    case Leaf(text) =>
      var ts := Print(e) + rest;
      assert ts[0] == Atom(text) && ts[1..] == rest;
    case Oper(op, params) =>
      var start := Frame(if op.Function? then op else Unknown, []);
      var separator := if op.Function? then Comma else Sign(op);
      var inside := PrintParams(separator, params) + ([Close] + rest);
      RunToInside(op, params, stack, rest);
      RunPrintedParams(separator, params, stack, start, [Close] + rest);
      match RereadParams(start.op, separator, params)
      case None =>
      case Some(frame) =>
        assert start.params + frame.params == frame.params;
        RunClose(stack, frame, rest);
  }

  /** The opening of an operation begins a frame. */
  lemma RunToInside(op: Op, params: seq<Expr>, stack: seq<Frame>, rest: seq<Token>)
    requires stack != []
    ensures var separator := if op.Function? then Comma else Sign(op);
            var start := Frame(if op.Function? then op else Unknown, []);
            Run(stack, false, Print(Oper(op, params)) + rest) ==
            Run(stack + [start], false, PrintParams(separator, params) + ([Close] + rest))
  {
    var separator := if op.Function? then Comma else Sign(op);
    var ts := Print(Oper(op, params)) + rest;
    var inside := PrintParams(separator, params) + ([Close] + rest);
    if op.Function? {
      assert ts == [Func(op.name), Open] + inside;
      assert ts[1..] == [Open] + inside && ts[1..][1..] == inside;
    } else {
      assert ts == [Open] + inside && ts[1..] == inside;
    }
  }

  lemma RunClose(stack: seq<Frame>, frame: Frame, rest: seq<Token>)
    requires stack != []
    ensures Run(stack + [frame], false, [Close] + rest)
            == Run(AddParam(stack, Oper(frame.op, frame.params)), false, rest)
  {
    var ts := [Close] + rest;
    assert ts[1..] == rest && (stack + [frame])[..|stack|] == stack;
  }

  lemma PrintBegins(e: Expr)
    ensures Print(e) != [] && Print(e)[0] != Close
  {}

  lemma {:induction false} RunPrintedParams(separator: Token, params: seq<Expr>, stack: seq<Frame>, top: Frame,
                                            rest: seq<Token>)
    requires separator == Comma || separator.Sign?
    ensures Run(stack + [top], false, PrintParams(separator, params) + rest) ==
            match RereadParams(top.op, separator, params)
            case None => None
            case Some(frame) => Run(stack + [Frame(frame.op, top.params + frame.params)], false, rest)
    decreases params, 1
  {
    hide Consume, Run, Reread, Print;
    if params == [] {
      assert PrintParams(separator, params) + rest == rest;
      assert top.params + [] == top.params;
    } else if |params| == 1 {
      RunPrinted(params[0], stack + [top], rest);
      if Reread(params[0]).Some? { AddParamTop(stack, top, Reread(params[0]).value); }
    } else {
      var tail := PrintParams(separator, params[1..]) + rest;
      assert PrintParams(separator, params) + rest == Print(params[0]) + ([separator] + tail);
      RunPrinted(params[0], stack + [top], [separator] + tail);
      if Reread(params[0]).Some? {
        var p := Reread(params[0]).value;
        AddParamTop(stack, top, p);
        var mid := Frame(top.op, top.params + [p]);
        PrintBegins(params[1]);
        RunSeparator(stack, mid, separator, tail);
        if Separate(top.op, separator).Some? {
          var next := mid.(op := Separate(top.op, separator).value);
          RunPrintedParams(separator, params[1..], stack, next, rest);
          match RereadParams(next.op, separator, params[1..])
          case None =>
          case Some(frame) => assert top.params + ([p] + frame.params) == next.params + frame.params;
        }
      }
    }
  }

  lemma AddParamTop(stack: seq<Frame>, top: Frame, e: Expr)
    ensures AddParam(stack + [top], e) == stack + [Frame(top.op, top.params + [e])]
  {}

  lemma RunSeparator(stack: seq<Frame>, top: Frame, separator: Token, tail: seq<Token>)
    requires (separator == Comma || separator.Sign?) && tail != [] && tail[0] != Close
    ensures Run(stack + [top], false, [separator] + tail) ==
            match Separate(top.op, separator)
            case None => None
            case Some(op) => Run(stack + [top.(op := op)], false, tail)
  {
    assert ([separator] + tail)[1..] == tail;
    assert forall op :: (stack + [top])[|stack| := top.(op := op)] == stack + [top.(op := op)];
  }

  // ---- Which trees come back unchanged ----

  ghost predicate AllReread(params: seq<Expr>) {
    forall p <- params :: Reread(p) == Some(p)
  }

  /** The operator that a list of parameters ends up with. */
  function Settles(op: Op, separator: Token, n: nat): Option<Op>
  {
    if n <= 1 then Some(op)
    else
      match Separate(op, separator)
      case None => None
      case Some(next) => if separator.Sign? && Comparison(separator.op) && n > 2 then None else Some(next)
  }

  lemma {:induction false} ParamsReread(op: Op, separator: Token, params: seq<Expr>)
    requires separator == Comma || separator.Sign?
    ensures RereadParams(op, separator, params).Some? ==>
              && Settles(op, separator, |params|) == Some(RereadParams(op, separator, params).value.op)
              && (RereadParams(op, separator, params).value.params == params <==> AllReread(params))
    ensures AllReread(params) && Settles(op, separator, |params|).Some? ==> RereadParams(op, separator, params).Some?
    decreases |params|
  {
    hide Reread;
    if |params| > 1 {
      assert params == [params[0]] + params[1..];
      assert AllReread(params) <==> Reread(params[0]) == Some(params[0]) && AllReread(params[1..]);
      if Separate(op, separator).Some? { ParamsReread(Separate(op, separator).value, separator, params[1..]); }
    }
  }

  lemma {:induction false} RereadIff(e: Expr)
    ensures Reread(e) == Some(e) <==> WellFormed(e)
  {
    if e.Oper? {
      forall p <- e.params ensures Reread(p) == Some(p) <==> WellFormed(p) { RereadIff(p); }
      assert AllReread(e.params) <==> forall p <- e.params :: WellFormed(p);
      ParamsReread(if e.op.Function? then e.op else Unknown, if e.op.Function? then Comma else Sign(e.op), e.params);
    }
  }

  /** The parser inverts the printer on exactly the well-formed operations. */
  lemma RoundTripIff(e: Expr)
    requires e.Oper? && !e.op.Function?
    ensures Parse(Print(e)) == Some(e) <==> WellFormed(e)
  {
    var root := [Frame(Unknown, [])];
    var inside := PrintParams(Sign(e.op), e.params) + [Close];
    assert Print(e) == [Open] + inside && Print(e)[1..] == inside;
    assert Parse(Print(e)) == Run(root, false, inside);
    RunRoot(e.op, e.params);
    RereadIff(e);
  }

  lemma CollapseOne(f: Frame)
    ensures Collapse([f]) == Oper(f.op, f.params)
  {}

  /** A leaf or a function call at the top comes back as the only parameter of an operation without operator. */
  lemma TopLevelIff(e: Expr)
    requires e.Leaf? || e.op.Function?
    ensures Parse(Print(e)) == Some(Oper(Unknown, [e])) <==> WellFormed(e)
  {
    var root := [Frame(Unknown, [])];
    RereadIff(e);
    RunPrinted(e, root, []);
    assert Print(e) + [] == Print(e) && Print(e)[0] != Open;
    assert Parse(Print(e)) == Run(root, false, Print(e));
    if Reread(e).Some? {
      var p := Reread(e).value;
      assert root[0].params + [p] == [p] && AddParam(root, p) == [Frame(Unknown, [p])];
      CollapseOne(Frame(Unknown, [p]));
      assert p == e <==> [p] == [e];
    }
  }

  lemma RunRootClose(frame: Frame)
    ensures Run([frame], false, [Close]) == Some(Oper(frame.op, frame.params))
  {
    CollapseOne(frame);
  }

  /** Inside the operation at the top, the closing parenthesis ends the text. */
  lemma RunRoot(op: Op, params: seq<Expr>)
    requires !op.Function?
    ensures Run([Frame(Unknown, [])], false, PrintParams(Sign(op), params) + [Close]) == Reread(Oper(op, params))
  {
    var root := Frame(Unknown, []);
    hide Run, RereadParams;
    RunPrintedParams(Sign(op), params, [], root, [Close]);
    assert [] + [root] == [root];
    match RereadParams(Unknown, Sign(op), params)
    case None =>
    case Some(frame) =>
      assert root.params + frame.params == frame.params;
      assert [] + [frame] == [frame];
      RunRootClose(frame);
  }

  // ---- Whatever the parser accepts ----

  /** The leaves and function names of a tree from left to right. */
  function Words(e: Expr): seq<Token>
    decreases e, 0
  {
    match e
    case Leaf(text) => [Atom(text)]
    case Oper(op, params) => Heading(op) + WordsOf(params)
  }

  function WordsOf(params: seq<Expr>): seq<Token>
    decreases params, 1
  {
    if params == [] then [] else WordsOf(params[..|params| - 1]) + Words(params[|params| - 1])
  }

  function Heading(op: Op): seq<Token> {
    if op.Function? then [Func(op.name)] else []
  }

  function StackWords(stack: seq<Frame>): seq<Token> {
    if stack == [] then []
    else
      var top := stack[|stack| - 1];
      StackWords(stack[..|stack| - 1]) + Heading(top.op) + WordsOf(top.params)
  }

  function WordIn(t: Token): seq<Token> {
    if t.Atom? || t.Func? then [t] else []
  }

  function WordsIn(ts: seq<Token>): seq<Token> {
    if ts == [] then [] else WordIn(ts[0]) + WordsIn(ts[1..])
  }

  lemma AddParamWords(stack: seq<Frame>, e: Expr)
    requires stack != []
    ensures StackWords(AddParam(stack, e)) == StackWords(stack) + Words(e)
  {
    var top := stack[|stack| - 1];
    var params := top.params + [e];
    assert params[..|params| - 1] == top.params;
    assert AddParam(stack, e)[..|stack| - 1] == stack[..|stack| - 1];
  }

  lemma PushWords(stack: seq<Frame>, op: Op)
    ensures StackWords(stack + [Frame(op, [])]) == StackWords(stack) + Heading(op)
  {
    assert (stack + [Frame(op, [])])[..|stack|] == stack;
  }

  lemma PopWords(stack: seq<Frame>)
    requires |stack| > 1
    ensures var top := stack[|stack| - 1];
            StackWords(AddParam(stack[..|stack| - 1], Oper(top.op, top.params))) == StackWords(stack)
  {
    var top := stack[|stack| - 1];
    AddParamWords(stack[..|stack| - 1], Oper(top.op, top.params));
  }

  lemma {:induction false} CollapseWords(stack: seq<Frame>)
    requires stack != []
    ensures Words(Collapse(stack)) == StackWords(stack)
    decreases |stack|
  {
    if |stack| > 1 {
      var top := stack[|stack| - 1];
      PopWords(stack);
      CollapseWords(AddParam(stack[..|stack| - 1], Oper(top.op, top.params)));
    } else {
      assert stack[..0] == [];
    }
  }

  lemma SignWords(stack: seq<Frame>, op: Op)
    requires stack != [] && !op.Function? && !stack[|stack| - 1].op.Function?
    ensures StackWords(stack[..|stack| - 1] + [stack[|stack| - 1].(op := op)]) == StackWords(stack)
  {
    var below, top := stack[..|stack| - 1], stack[|stack| - 1].(op := op);
    assert (below + [top])[..|below|] == below;
  }

  lemma LeafWords(text: string)
    ensures Words(Leaf(text)) == WordIn(Atom(text))
  {}

  lemma MeetsNoFunction(op: Op, sign: Op)
    requires Meets(op, sign).Some?
    ensures !op.Function? && !Meets(op, sign).value.Function?
  {}

  lemma ConsumeWords(stack: seq<Frame>, first: bool, ts: seq<Token>) returns (next: seq<Frame>)
    requires stack != [] && ts != [] && Consume(stack, first, ts).Some?
    ensures next != [] && Consume(stack, first, ts) == Some(next)
    ensures StackWords(next) == StackWords(stack) + WordIn(ts[0])
  {
    next := Consume(stack, first, ts).value;
    hide StackWords, WordsOf, Words, AddParam, Meets;
    match ts[0]
    case Open => PushWords(stack, Unknown);
    case Close => if |stack| > 1 { PopWords(stack); }
    case Atom(text) =>
      LeafWords(text);
      AddParamWords(stack, Leaf(text));
    case Func(f) => PushWords(stack, Function(f));
    case Sign(sign) =>
      MeetsNoFunction(stack[|stack| - 1].op, sign);
      SignWords(stack, next[|stack| - 1].op);
    case Comma =>
    case Foreign(_) =>
  }

  lemma Regroup(a: seq<Token>, b: seq<Token>, c: seq<Token>)
    ensures (a + b) + c == a + (b + c)
  {}

  lemma RunOnce(stack: seq<Frame>, first: bool, ts: seq<Token>)
    requires stack != []
    ensures ts == [] ==> Run(stack, first, ts) == Some(Collapse(stack)) && WordsIn(ts) == []
    ensures ts != [] && Consume(stack, first, ts).None? ==> Run(stack, first, ts) == None
    ensures ts != [] && Consume(stack, first, ts).Some? ==>
              Run(stack, first, ts) == Run(Consume(stack, first, ts).value, ts[0].Func?, ts[1..])
    ensures ts != [] ==> WordsIn(ts) == WordIn(ts[0]) + WordsIn(ts[1..])
  {
    hide Consume;
  }

  lemma {:induction false} RunWords(stack: seq<Frame>, first: bool, ts: seq<Token>) returns (e: Expr)
    requires stack != [] && Run(stack, first, ts).Some?
    ensures Run(stack, first, ts) == Some(e) && Words(e) == StackWords(stack) + WordsIn(ts)
    decreases |ts|
  {
    RunOnce(stack, first, ts);
    hide *;
    if ts == [] {
      CollapseWords(stack);
      e := Collapse(stack);
    } else {
      var next := ConsumeWords(stack, first, ts);
      e := RunWords(next, ts[0].Func?, ts[1..]);
      Regroup(StackWords(stack), WordIn(ts[0]), WordsIn(ts[1..]));
    }
  }

  /** Every accepted text gives a tree with exactly its operands and function names, in its order. */
  lemma ParseKeepsWords(ts: seq<Token>)
    requires Parse(ts).Some?
    ensures Words(Parse(ts).value) == WordsIn(ts)
  {
    var e := RunWords([Frame(Unknown, [])], true, ts);
    assert StackWords([Frame(Unknown, [])]) == [];
  }
}
