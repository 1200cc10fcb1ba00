/**
  * The text that the original prints for an expression. It is meant for generated C code, and the parser reads it
  * back only for some expressions; this module says for which.
  */
module SourceText {
  import opened Wrappers
  import opened Expressions

  /** What the spelling of a leaf stands for; a number is printed in a spelling of its own. */
  datatype Kind = Number(printed: string) | Text | Variable(textual: bool)

  type Kinds = string -> Kind

  function PrintLeaf(kinds: Kinds, text: string): Token {
    match kinds(text)
    case Number(printed) => Atom(printed)
    case Text => Foreign(text)
    case Variable(_) => Foreign(text)
  }

  /** Names without a mark are refused unless they spell a truth value. */
  function Name(f: string): Token {
    if f == "true" || f == "false" then Atom(f) else Foreign(f)
  }

  /** Compared as text: no parameter is a number or a variable that holds one. Operations do not count. */
  predicate AsText(kinds: Kinds, params: seq<Expr>) {
    forall p <- params :: p.Leaf? ==> !kinds(p.text).Number? && kinds(p.text) != Variable(false)
  }

  function SourcePrint(kinds: Kinds, e: Expr): seq<Token>
    decreases e, 0
  {
    match e
    case Leaf(text) => [PrintLeaf(kinds, text)]
    case Oper(op, params) =>
      if Comparison(op) && AsText(kinds, params) then
        [Atom("0"), Sign(op), Foreign("strcmp"), Open] + SourcePrintParams(kinds, Comma, params) + [Close]
      else if op.Function? then [Name(op.name), Open] + SourcePrintParams(kinds, Comma, params) + [Close]
      else [Open] + SourcePrintParams(kinds, Sign(op), params) + [Close]
  }

  function SourcePrintParams(kinds: Kinds, separator: Token, params: seq<Expr>): seq<Token>
    decreases params, 1
  {
    if params == [] then []
    else if |params| == 1 then SourcePrint(kinds, params[0])
    else SourcePrint(kinds, params[0]) + [separator] + SourcePrintParams(kinds, separator, params[1..])
  }

  /** Expressions over numbers that are printed as they are spelled, without functions and comparisons as text. */
  predicate Plain(kinds: Kinds, e: Expr) {
    match e
    case Leaf(text) => kinds(text) == Number(text)
    case Oper(op, params) =>
      && !op.Function? && !(Comparison(op) && AsText(kinds, params))
      && forall p <- params :: Plain(kinds, p)
  }

  // ---- Plain expressions ----

  lemma {:induction false} PlainPrint(kinds: Kinds, e: Expr)
    requires Plain(kinds, e)
    ensures SourcePrint(kinds, e) == Print(e)
    decreases e, 0
  {
    if e.Oper? { PlainPrintParams(kinds, Sign(e.op), e.params); }
  }

  lemma {:induction false} PlainPrintParams(kinds: Kinds, separator: Token, params: seq<Expr>)
    requires forall p <- params :: Plain(kinds, p)
    ensures SourcePrintParams(kinds, separator, params) == PrintParams(separator, params)
    decreases params, 1
  {
    if params != [] {
      PlainPrint(kinds, params[0]);
      if |params| > 1 { PlainPrintParams(kinds, separator, params[1..]); }
    }
  }

  // ---- All others ----

  /** A text with a foreign token is refused. */
  lemma {:induction false} RefusesForeign(stack: seq<Frame>, first: bool, ts: seq<Token>)
    requires stack != [] && exists t <- ts :: t.Foreign?
    ensures Run(stack, first, ts) == None
    decreases |ts|
  {
    if Consume(stack, first, ts).Some? {
      assert ts == [ts[0]] + ts[1..];
      RefusesForeign(Consume(stack, first, ts).value, ts[0].Func?, ts[1..]);
    }
  }

  lemma {:induction false} WordsInSplit(a: seq<Token>, b: seq<Token>)
    ensures WordsIn(a + b) == WordsIn(a) + WordsIn(b)
  {
    if a == [] { assert a + b == b; }
    else {
      assert (a + b)[1..] == a[1..] + b;
      WordsInSplit(a[1..], b);
    }
  }

  lemma {:induction false} WordsOfFirst(params: seq<Expr>)
    requires params != []
    ensures WordsOf(params) == Words(params[0]) + WordsOf(params[1..])
    decreases |params|
  {
    if |params| > 1 {
      var init := params[..|params| - 1];
      WordsOfFirst(init);
      assert params[1..][..|params| - 2] == init[1..];
    }
  }

  /**
    * As many words are printed as the expression has, and the same ones only if it is plain; unless something foreign
    * is.
    */
  ghost predicate Shows(kinds: Kinds, ts: seq<Token>, words: seq<Token>, plain: bool) {
    (exists t <- ts :: t.Foreign?) || (|WordsIn(ts)| == |words| && (WordsIn(ts) == words ==> plain))
  }

  lemma {:induction false} PrintShows(kinds: Kinds, e: Expr)
    ensures Shows(kinds, SourcePrint(kinds, e), Words(e), Plain(kinds, e))
    decreases e, 0
  {
    match e
    case Leaf(text) => LeafShows(kinds, text);
    case Oper(op, params) =>
      var ts := SourcePrint(kinds, e);
      if Comparison(op) && AsText(kinds, params) {
        assert ts[2].Foreign?;
      } else if op.Function? {
        ParamsShow(kinds, Comma, params);
        FunctionShows(kinds, op.name, params);
      } else {
        ParamsShow(kinds, Sign(op), params);
        OperationShows(kinds, op, params);
      }
  }

  /** Words come from what is printed between the parentheses. */
  lemma BracketWords(inner: seq<Token>)
    ensures WordsIn([Open] + inner + [Close]) == WordsIn(inner)
  {
    WordsInSplit([Open] + inner, [Close]);
    WordsInSplit([Open], inner);
    assert [Open][1..] == [] && [Close][1..] == [];
  }

  lemma OperationShows(kinds: Kinds, op: Op, params: seq<Expr>)
    requires !op.Function? && !(Comparison(op) && AsText(kinds, params))
    requires Shows(kinds, SourcePrintParams(kinds, Sign(op), params), WordsOf(params),
                   forall p <- params :: Plain(kinds, p))
    ensures Shows(kinds, SourcePrint(kinds, Oper(op, params)), Words(Oper(op, params)), Plain(kinds, Oper(op, params)))
  {
    var inner := SourcePrintParams(kinds, Sign(op), params);
    var ts := SourcePrint(kinds, Oper(op, params));
    assert ts == [Open] + inner + [Close] && Words(Oper(op, params)) == WordsOf(params);
    hide WordsIn, SourcePrint, SourcePrintParams;
    BracketWords(inner);
    if t :| t in inner && t.Foreign? { assert t in ts; }
  }

  lemma LeafShows(kinds: Kinds, text: string)
    ensures Shows(kinds, SourcePrint(kinds, Leaf(text)), Words(Leaf(text)), Plain(kinds, Leaf(text)))
  {
    var t := PrintLeaf(kinds, text);
    assert [t][1..] == [] && WordsIn([t]) == WordIn(t);
    assert t in [t];
  }

  lemma FunctionShows(kinds: Kinds, f: string, params: seq<Expr>)
    requires Shows(kinds, SourcePrintParams(kinds, Comma, params), WordsOf(params),
                   forall p <- params :: Plain(kinds, p))
    ensures Shows(kinds, SourcePrint(kinds, Oper(Function(f), params)), Words(Oper(Function(f), params)), false)
  {
    var ts := SourcePrint(kinds, Oper(Function(f), params));
    var inner := SourcePrintParams(kinds, Comma, params);
    assert ts == [Name(f), Open] + inner + [Close];
    if t :| t in inner && t.Foreign? {
      assert t in ts;
    } else if Name(f).Foreign? {
      assert ts[0].Foreign?;
    } else {
      WordsInSplit([Name(f), Open] + inner, [Close]);
      WordsInSplit([Name(f), Open], inner);
      assert WordsIn([Name(f), Open]) == [Name(f)] && WordsIn([Close]) == [];
      assert WordsIn(ts)[0] == Name(f) && Words(Oper(Function(f), params))[0] == Func(f);
    }
  }

  lemma {:induction false} ParamsShow(kinds: Kinds, separator: Token, params: seq<Expr>)
    requires separator == Comma || separator.Sign?
    ensures Shows(kinds, SourcePrintParams(kinds, separator, params), WordsOf(params),
                  forall p <- params :: Plain(kinds, p))
    decreases params, 1
  {
    if params != [] {
      PrintShows(kinds, params[0]);
      WordsOfFirst(params);
      if |params| > 1 {
        ParamsShow(kinds, separator, params[1..]);
        JoinShows(kinds, separator, params);
      }
    }
  }

  lemma JoinShows(kinds: Kinds, separator: Token, params: seq<Expr>)
    requires (separator == Comma || separator.Sign?) && |params| > 1
    requires Shows(kinds, SourcePrint(kinds, params[0]), Words(params[0]), Plain(kinds, params[0]))
    requires Shows(kinds, SourcePrintParams(kinds, separator, params[1..]), WordsOf(params[1..]),
                   forall p <- params[1..] :: Plain(kinds, p))
    requires WordsOf(params) == Words(params[0]) + WordsOf(params[1..])
    ensures Shows(kinds, SourcePrintParams(kinds, separator, params), WordsOf(params),
                  forall p <- params :: Plain(kinds, p))
  {
    var a, b := SourcePrint(kinds, params[0]), SourcePrintParams(kinds, separator, params[1..]);
    var ts := SourcePrintParams(kinds, separator, params);
    assert ts == a + [separator] + b && params == [params[0]] + params[1..];
    hide WordsIn, SourcePrint, SourcePrintParams, Words, WordsOf, Plain;
    if t :| t in a && t.Foreign? { assert t in ts; }
    else if t :| t in b && t.Foreign? { assert t in ts; }
    else {
      SeparatorWords(a, separator, b);
      SameParts(WordsIn(a), WordsIn(b), Words(params[0]), WordsOf(params[1..]));
    }
  }

  lemma SeparatorWords(a: seq<Token>, separator: Token, b: seq<Token>)
    requires separator == Comma || separator.Sign?
    ensures WordsIn(a + [separator] + b) == WordsIn(a) + WordsIn(b)
  {
    WordsInSplit(a + [separator], b);
    WordsInSplit(a, [separator]);
    assert [separator][1..] == [];
  }

  lemma SameParts(a: seq<Token>, b: seq<Token>, v: seq<Token>, w: seq<Token>)
    requires |a| == |v| && |b| == |w|
    ensures a + b == v + w <==> a == v && b == w
  {
    if a + b == v + w {
      assert (a + b)[..|a|] == a && (v + w)[..|a|] == v && (a + b)[|a|..] == b && (v + w)[|a|..] == w;
    }
  }

  /**
    * The parser reads an operation back from the text that the original prints for it if and only if the operation is
    * well formed and plain. It refuses variables, texts, function names and comparisons printed as a call of strcmp.
    */
  lemma SourceRoundTripIff(kinds: Kinds, e: Expr)
    requires e.Oper?
    ensures Parse(SourcePrint(kinds, e)) == Some(e) <==> WellFormed(e) && Plain(kinds, e)
  {
    if Plain(kinds, e) {
      PlainPrint(kinds, e);
      RoundTripIff(e);
    } else {
      PrintShows(kinds, e);
      var ts := SourcePrint(kinds, e);
      if exists t <- ts :: t.Foreign? { RefusesForeign([Frame(Unknown, [])], true, ts); }
      else if Parse(ts) == Some(e) { ParseKeepsWords(ts); }
    }
  }
}
