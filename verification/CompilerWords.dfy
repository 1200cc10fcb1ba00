/**
  * What every rule means as a set of sequences of steps, and that its state graph has exactly these sequences on its
  * paths.
  */
module CompilerWords {
  import opened Wrappers
  import opened Rules
  import opened Compiler
  import opened CompilerWellFormed

  // ---- The meaning of trees ----

  datatype End = Satisfied | Violated | Undecided

  /** An event or a timeout, the action that goes with it, and the delay under which it was awaited. */
  datatype Step = Step(event: nat, action: Action, delay: Delay)

  /** Where steps are taken from: the beginning, where each creates an instance, or the wait of an operator. */
  datatype Source = Start | Waiting(delay: Delay)

  function StepFrom(s: Source, event: nat, action: Action): Step {
    match s
    case Start => Step(event, CreateInstance, NoDelay)
    case Waiting(delay) => Step(event, action, delay)
  }

  /** Which sequences of steps bring something to which end. */
  type Language = (seq<Step>, End) -> bool

  /**
    * After the context, the operator waits for `t`; `late` is how it ends without it, and the others map the ends of
    * `t`.
    */
  ghost predicate WaitWord(t: Language, d: Delay, v: seq<Step>, o: End, late: End, pass: End, fail: End, incl: End) {
    || (o == late && v == [Step(TIMEOUT, DoNothing, d)])
    || (o == pass && t(v, Satisfied))
    || (o == fail && t(v, Violated))
    || (o == incl && t(v, Undecided))
  }

  /** The context is satisfied by the first i steps. */
  ghost predicate SplitWord(c: Language, t: Language, d: Delay, w: seq<Step>, o: End, late: End, pass: End, fail: End,
                            incl: End, i: nat) {
    0 < i < |w| && c(w[..i], Satisfied) && WaitWord(t, d, w[i..], o, late, pass, fail, incl)
  }

  /** The context comes first; as long as it is not satisfied the operator is undecided. */
  ghost predicate SequenceWord(c: Language, t: Language, d: Delay, w: seq<Step>, o: End, late: End, pass: End,
                               fail: End, incl: End) {
    || (o == Undecided && (c(w, Violated) || c(w, Undecided)))
    || exists i :: SplitWord(c, t, d, w, o, late, pass, fail, incl, i)
  }

  /** Contexts clone, triggers reset the timer. */
  ghost predicate ThenWord(d: Delay, c: Tree, t: Tree, s: Source, w: seq<Step>, o: End)
    decreases Size(c) + Size(t), 0
  {
    SequenceWord(Meaning(c, CreateInstance, s), Meaning(t, ResetTimer, Waiting(d)), d, w, o, Violated, Satisfied,
                 Violated, Violated)
  }

  /** The end `o` of an operator whose first steps are taken from `s`; `a` is the action asked for from outside. */
  ghost predicate OperWord(op: Operator, d: Delay, c: Tree, t: Tree, a: Action, s: Source, w: seq<Step>, o: End)
    decreases Size(c) + Size(t), 1
  {
    match op
    case Then => ThenWord(d, c, t, s, w, o)
    case And => ThenWord(d, c, t, s, w, o) || ThenWord(d, t, c, s, w, o)
    case Or => Word(c, a, s, w, o) || Word(t, a, s, w, o)
    case Not =>
      SequenceWord(Meaning(c, CreateInstance, s), Meaning(t, a, Waiting(d)), d, w, o, Satisfied, Violated, Satisfied,
                   Violated)
  }

  ghost predicate Word(t: Tree, a: Action, s: Source, w: seq<Step>, o: End)
    decreases Size(t), 2
  {
    match t
    case Event(e) => o == Satisfied && w == [StepFrom(s, e, a)]
    case Oper(op, d, c, g) => OperWord(op, d, c, g, a, s, w, o)
  }

  ghost function Meaning(t: Tree, a: Action, s: Source): Language
    decreases Size(t), 3
  {
    (w: seq<Step>, o: End) => Word(t, a, s, w, o)
  }

  /** A context without the trigger before it violates the rule; after the trigger the context satisfies it. */
  ghost predicate BeforeWord(c: Language, t: Language, c2: Language, d: Delay, w: seq<Step>, o: End) {
    || (o == Violated && (c(w, Satisfied) || c(w, Violated)))
    || (o == Undecided && c(w, Undecided))
    || SequenceWord(t, c2, d, w, o, Undecided, Satisfied, Undecided, Undecided)
  }

  ghost predicate RuleWord(r: Rule, w: seq<Step>, o: End) {
    match r.value
    case Plain(op) => OperWord(op, r.delay, r.context, r.trigger, DoNothing, Start, w, o)
    case Before =>
      BeforeWord(Meaning(r.context, DoNothing, Start), Meaning(r.trigger, CreateInstance, Start),
                 Meaning(r.context, DoNothing, Waiting(r.delay)), r.delay, w, o)
  }

  // ---- Paths of a graph ----

  datatype Hop = Hop(step: Step, target: nat)

  function SourceOf(g: Graph, h: nat): Source
    requires h < |g.states|
  {
    if h == INIT then Start else Waiting(if g.states[h].delay.Some? then g.states[h].delay.value else NoDelay)
  }

  function HopOf(g: Graph, h: nat, e: Edge): Hop
    requires h < |g.states|
  {
    Hop(StepFrom(SourceOf(g, h), e.event, e.action), e.target)
  }

  /** The edges out of a state as the emitted table will have them. */
  function Out(g: Graph, h: nat): (hops: seq<Hop>)
    requires h < |g.states|
    ensures |hops| == |g.states[h].out|
  {
    seq(|g.states[h].out|, j requires 0 <= j < |g.states[h].out| => HopOf(g, h, g.states[h].out[j]))
  }

  /** Along edges from `out`, then through states from `lo` on, the word leads to state x below `lo`. */
  ghost predicate Runs(g: Graph, lo: nat, out: seq<Hop>, w: seq<Step>, x: nat)
    decreases |w|
  {
    w != [] && exists j :: 0 <= j < |out| && Follow(g, lo, out[j], w, x)
  }

  ghost predicate Follow(g: Graph, lo: nat, e: Hop, w: seq<Step>, x: nat)
    requires w != []
    decreases |w|, 0
  {
    && e.step == w[0]
    && if |w| == 1 then e.target == x < lo
       else lo <= e.target < |g.states| && Runs(g, lo, Out(g, e.target), w[1..], x)
  }

  lemma OutSame(g: Graph, r: Graph, h: nat)
    requires h < |g.states| && h < |r.states|
    requires r.states[h].out == g.states[h].out && r.states[h].delay == g.states[h].delay
    ensures Out(r, h) == Out(g, h)
  {}

  lemma RunsAppend(g: Graph, lo: nat, a: seq<Hop>, b: seq<Hop>, w: seq<Step>, x: nat)
    ensures Runs(g, lo, a + b, w, x) <==> Runs(g, lo, a, w, x) || Runs(g, lo, b, w, x)
  {
    if w != [] {
      if Runs(g, lo, a, w, x) {
        var j :| 0 <= j < |a| && Follow(g, lo, a[j], w, x);
        assert (a + b)[j] == a[j];
      }
      if Runs(g, lo, b, w, x) {
        var j :| 0 <= j < |b| && Follow(g, lo, b[j], w, x);
        assert (a + b)[|a| + j] == b[j];
      }
    }
  }

  lemma RunsOne(g: Graph, lo: nat, e: Hop, w: seq<Step>, x: nat)
    requires e.target < lo
    ensures Runs(g, lo, [e], w, x) <==> w == [e.step] && x == e.target
  {
    if w == [e.step] && x == e.target { assert Follow(g, lo, [e][0], w, x); }
  }

  /** All edges in `out` lead below `lo` or to one of the states from..to. */
  ghost predicate Within(out: seq<Hop>, lo: nat, from: nat, to: nat) {
    forall j :: 0 <= j < |out| ==> out[j].target < lo || from <= out[j].target < to
  }

  /** Runs depend only on the states that they can meet. */
  lemma {:induction false} RunsSame(g: Graph, r: Graph, lo: nat, hi: nat, out: seq<Hop>, w: seq<Step>, x: nat)
    requires hi <= |g.states| && hi <= |r.states|
    requires forall h :: lo <= h < hi ==> Out(r, h) == Out(g, h) && Within(Out(g, h), lo, lo, hi)
    requires Within(out, lo, lo, hi)
    ensures Runs(g, lo, out, w, x) <==> Runs(r, lo, out, w, x)
    decreases |w|
  {
    if w != [] {
      forall j | 0 <= j < |out| ensures Follow(g, lo, out[j], w, x) <==> Follow(r, lo, out[j], w, x) {
        if |w| > 1 && lo <= out[j].target {
          RunsSame(g, r, lo, hi, Out(g, out[j].target), w[1..], x);
        }
      }
    }
  }

  /** States that cannot be met may be counted as forbidden. */
  lemma {:induction false} RunsRaise(g: Graph, lo: nat, hi: nat, out: seq<Hop>, w: seq<Step>, x: nat)
    requires lo <= hi <= |g.states| && x < lo
    requires forall h :: hi <= h < |g.states| ==> Within(Out(g, h), lo, hi, |g.states|)
    requires Within(out, lo, hi, |g.states|)
    ensures Runs(g, lo, out, w, x) <==> Runs(g, hi, out, w, x)
    decreases |w|
  {
    if w != [] {
      forall j | 0 <= j < |out| ensures Follow(g, lo, out[j], w, x) <==> Follow(g, hi, out[j], w, x) {
        if |w| > 1 && hi <= out[j].target {
          RunsRaise(g, lo, hi, Out(g, out[j].target), w[1..], x);
        }
      }
    }
  }

  /** The first part of the word leads to state n, the rest goes on from there. */
  ghost predicate Through(g: Graph, n: nat, out: seq<Hop>, w: seq<Step>, x: nat, i: nat)
    requires n < |g.states|
  {
    0 < i < |w| && Runs(g, n + 1, out, w[..i], n) && Runs(g, n, Out(g, n), w[i..], x)
  }

  /** A run either avoids state n or is cut in two where it first meets n. */
  lemma {:induction false} RunsCut(g: Graph, n: nat, out: seq<Hop>, w: seq<Step>, x: nat)
    requires n < |g.states| && x < n
    ensures Runs(g, n, out, w, x) <==> Runs(g, n + 1, out, w, x) || exists i :: Through(g, n, out, w, x, i)
    decreases |w|
  {
    if Runs(g, n, out, w, x) { CutForth(g, n, out, w, x); }
    if Runs(g, n + 1, out, w, x) {
      var j :| 0 <= j < |out| && Follow(g, n + 1, out[j], w, x);
      if |w| > 1 { RunsCut(g, n, Out(g, out[j].target), w[1..], x); }
      assert Follow(g, n, out[j], w, x);
    }
    if exists i :: Through(g, n, out, w, x, i) {
      var i: nat :| Through(g, n, out, w, x, i);
      CutBack(g, n, out, w, x, i);
    }
  }

  lemma {:induction false} CutForth(g: Graph, n: nat, out: seq<Hop>, w: seq<Step>, x: nat)
    requires n < |g.states| && x < n && Runs(g, n, out, w, x)
    ensures Runs(g, n + 1, out, w, x) || exists i :: Through(g, n, out, w, x, i)
    decreases |w|
  {
    var j :| 0 <= j < |out| && Follow(g, n, out[j], w, x);
    var y := out[j].target;
    if |w| == 1 {
      assert Follow(g, n + 1, out[j], w, x);
    } else if y == n {
      assert w[..1] == [w[0]];
      assert Follow(g, n + 1, out[j], w[..1], n);
      assert Through(g, n, out, w, x, 1);
    } else {
      CutForth(g, n, Out(g, y), w[1..], x);
      if Runs(g, n + 1, Out(g, y), w[1..], x) {
        assert Follow(g, n + 1, out[j], w, x);
      } else {
        var i: nat :| Through(g, n, Out(g, y), w[1..], x, i);
        assert w[..i + 1][1..] == w[1..][..i] && w[1..][i..] == w[i + 1..];
        assert Follow(g, n + 1, out[j], w[..i + 1], n);
        assert Through(g, n, out, w, x, i + 1);
      }
    }
  }

  lemma {:induction false} CutBack(g: Graph, n: nat, out: seq<Hop>, w: seq<Step>, x: nat, i: nat)
    requires n < |g.states| && x < n && Through(g, n, out, w, x, i)
    ensures Runs(g, n, out, w, x)
    decreases |w|
  {
    var j :| 0 <= j < |out| && Follow(g, n + 1, out[j], w[..i], n);
    var y := out[j].target;
    if i > 1 {
      assert w[..i][1..] == w[1..][..i - 1] && w[1..][i - 1..] == w[i..];
      assert Through(g, n, Out(g, y), w[1..], x, i - 1);
      CutBack(g, n, Out(g, y), w[1..], x, i - 1);
    }
    assert Follow(g, n, out[j], w, x);
  }

  // ---- What the builders add ----

  /** All edges lead to one of the given ends or to one of the states from..to. */
  ghost predicate Leaving(out: seq<Hop>, ends: set<nat>, from: nat, to: nat) {
    forall j :: 0 <= j < |out| ==> out[j].target in ends || from <= out[j].target < to
  }

  function Added(g: Graph, r: Graph, src: nat): seq<Hop> {
    if src < |g.states| && src < |r.states| && |Out(g, src)| <= |Out(r, src)|
    then Out(r, src)[|Out(g, src)|..] else []
  }

  /**
    * New edges of `src`, and new states, that lead to the ends or stay among the new states; nothing else has
    * changed.
    */
  ghost predicate Grown(g: Graph, r: Graph, src: nat, ends: set<nat>) {
    && src < |g.states| <= |r.states|
    && (forall h :: 0 <= h < |g.states| ==> r.states[h].delay == g.states[h].delay)
    && (forall h :: 0 <= h < |g.states| && h != src ==> Out(r, h) == Out(g, h))
    && Out(r, src) == Out(g, src) + Added(g, r, src)
    && Leaving(Added(g, r, src), ends, |g.states|, |r.states|)
    && (forall h :: |g.states| <= h < |r.states| ==> Leaving(Out(r, h), ends, |g.states|, |r.states|))
  }

  lemma GrownWiden(g: Graph, r: Graph, src: nat, ends: set<nat>, more: set<nat>)
    requires Grown(g, r, src, ends) && ends <= more
    ensures Grown(g, r, src, more)
  {}

  lemma GrownTrans(g: Graph, m: Graph, r: Graph, src: nat, ends: set<nat>)
    requires Grown(g, m, src, ends) && Grown(m, r, src, ends)
    ensures Grown(g, r, src, ends) && Added(g, r, src) == Added(g, m, src) + Added(m, r, src)
  {
    assert Out(r, src) == Out(g, src) + (Added(g, m, src) + Added(m, r, src));
  }

  lemma {:induction false} GenTreeGrows(g: Graph, src: nat, pass: nat, fail: nat, incl: nat, t: Tree, action: Action)
    requires 4 <= |g.states| && src < |g.states|
    ensures Grown(g, GenTree(g, src, pass, fail, incl, t, action), src, {pass, fail, incl})
    decreases Size(t), 1
  {
    match t
    case Event(id) =>
      var r := GenTree(g, src, pass, fail, incl, t, action);
      assert Out(r, src) == Out(g, src) + [HopOf(g, src, Edge(id, action, pass))];
      assert Added(g, r, src) == [HopOf(g, src, Edge(id, action, pass))];
    case Oper(op, d, c, tr) => GenOperGrows(g, src, pass, fail, incl, op, d, c, tr, action);
  }

  lemma {:induction false} GenOperGrows(g: Graph, src: nat, pass: nat, fail: nat, incl: nat,
                                        op: Operator, d: Delay, c: Tree, t: Tree, action: Action)
    requires 4 <= |g.states| && src < |g.states|
    ensures Grown(g, GenOper(g, src, pass, fail, incl, op, d, c, t, action), src, {pass, fail, incl})
    decreases Size(c) + Size(t), 1
  {
    var ends := {pass, fail, incl};
    match op
    case Then => WaitGrows(g, src, pass, fail, fail, incl, d, c, t, fail, ResetTimer, ends);
    case And =>
      var m := GenThen(g, src, pass, fail, incl, d, c, t);
      WaitGrows(g, src, pass, fail, fail, incl, d, c, t, fail, ResetTimer, ends);
      WaitGrows(m, src, pass, fail, fail, incl, d, t, c, fail, ResetTimer, ends);
      GrownTrans(g, m, GenThen(m, src, pass, fail, incl, d, t, c), src, ends);
    case Or =>
      var m := GenTree(g, src, pass, fail, incl, c, action);
      GenTreeGrows(g, src, pass, fail, incl, c, action);
      GenTreeGrows(m, src, pass, fail, incl, t, action);
      GrownTrans(g, m, GenTree(m, src, pass, fail, incl, t, action), src, ends);
    case Not => WaitGrows(g, src, fail, pass, fail, incl, d, c, t, pass, action, ends);
  }

  /** The two stages of GenWait: the context from `src` to the waiting state n, the trigger from there. */
  ghost predicate Stages(g: Graph, g1: Graph, g2: Graph, g3: Graph, r: Graph, src: nat, d: Delay, late: nat,
                         e1: set<nat>, e2: set<nat>) {
    && src < |g.states| && |g1.states| == |g.states| + 1
    && (forall h :: 0 <= h < |g.states| ==> g1.states[h] == g.states[h])
    && g1.states[|g.states|] == MetaState(0, Some(d), [Edge(TIMEOUT, DoNothing, late)]) && |g.states| >= 4
    && Grown(g1, g2, src, e1) && g3 == ListState(g2, |g.states|) && Grown(g3, r, |g.states|, e2)
  }

  lemma WaitStages(g: Graph, src: nat, pass: nat, fail: nat, fail2: nat, incl: nat, d: Delay, c: Tree, t: Tree,
                   late: nat, action: Action)
    returns (g1: Graph, g2: Graph, g3: Graph, r: Graph)
    requires 4 <= |g.states| && src < |g.states|
    ensures r == GenWait(g, src, pass, fail, fail2, incl, d, c, t, late, action)
    ensures Stages(g, g1, g2, g3, r, src, d, late, {|g.states|, incl}, {pass, fail, fail2})
    ensures g2 == GenTree(g1, src, |g.states|, incl, incl, c, CreateInstance)
    ensures r == GenTree(g3, |g.states|, pass, fail, fail2, t, action)
    decreases Size(c) + Size(t), 0, 0
  {
    var n := |g.states|;
    g1 := NewState(g, Some(d), [Edge(TIMEOUT, DoNothing, late)]);
    g2 := GenTree(g1, src, n, incl, incl, c, CreateInstance);
    g3 := ListState(g2, n);
    r := GenTree(g3, n, pass, fail, fail2, t, action);
    GenTreeGrows(g1, src, n, incl, incl, c, CreateInstance);
    GrownWiden(g1, g2, src, {n, incl, incl}, {n, incl});
    GenTreeGrows(g3, n, pass, fail, fail2, t, action);
  }

  lemma {:induction false} WaitGrows(g: Graph, src: nat, pass: nat, fail: nat, fail2: nat, incl: nat,
                                     d: Delay, c: Tree, t: Tree, late: nat, action: Action, ends: set<nat>)
    requires 4 <= |g.states| && src < |g.states| && {pass, fail, fail2, incl, late} <= ends
    ensures Grown(g, GenWait(g, src, pass, fail, fail2, incl, d, c, t, late, action), src, ends)
    decreases Size(c) + Size(t), 0, 1
  {
    var g1, g2, g3, r := WaitStages(g, src, pass, fail, fail2, incl, d, c, t, late, action);
    StagesGrow(g, g1, g2, g3, r, src, d, late, {|g.states|, incl}, {pass, fail, fail2}, ends);
  }

  /** Where the edges of the finished graph come from. */
  lemma StageOuts(g: Graph, g1: Graph, g2: Graph, g3: Graph, r: Graph, src: nat, d: Delay, late: nat, e1: set<nat>,
                  e2: set<nat>)
    requires Stages(g, g1, g2, g3, r, src, d, late, e1, e2)
    ensures |g3.states| == |g2.states| && |g.states| < |g2.states|
    ensures forall h :: 0 <= h < |g.states| && h != src ==> Out(r, h) == Out(g, h)
    ensures forall h :: |g.states| < h < |g2.states| ==> Out(r, h) == Out(g2, h)
    ensures Out(r, src) == Out(g, src) + Added(g1, g2, src)
    ensures Out(r, |g.states|) == [Hop(Step(TIMEOUT, DoNothing, d), late)] + Added(g3, r, |g.states|)
  {
    var n := |g.states|;
    forall h | 0 <= h < n ensures Out(g1, h) == Out(g, h) { OutSame(g, g1, h); }
    forall h | 0 <= h < |g2.states| ensures Out(g3, h) == Out(g2, h) { OutSame(g2, g3, h); }
    assert Out(g1, n) == [Hop(Step(TIMEOUT, DoNothing, d), late)];
  }

  /** In the finished graph the context's edges and states are those of the first stage. */
  lemma StagesGrow(g: Graph, g1: Graph, g2: Graph, g3: Graph, r: Graph, src: nat, d: Delay, late: nat, e1: set<nat>,
                   e2: set<nat>, ends: set<nat>)
    requires Stages(g, g1, g2, g3, r, src, d, late, e1, e2)
    requires e1 <= ends + {|g.states|} && e2 <= ends && late in ends
    ensures Grown(g, r, src, ends) && Added(g, r, src) == Added(g1, g2, src)
    ensures Out(r, |g.states|) == [Hop(Step(TIMEOUT, DoNothing, d), late)] + Added(g3, r, |g.states|)
    ensures forall h :: |g.states| < h < |g2.states| ==> Out(r, h) == Out(g2, h)
    ensures SourceOf(r, |g.states|) == SourceOf(g3, |g.states|) == Waiting(d) && SourceOf(g1, src) == SourceOf(g, src)
  {
    var n := |g.states|;
    StageOuts(g, g1, g2, g3, r, src, d, late, e1, e2);
    assert Added(g, r, src) == Added(g1, g2, src);
    forall h | n <= h < |r.states| ensures Leaving(Out(r, h), ends, n, |r.states|) {
      if n < h < |g2.states| { assert Leaving(Out(g2, h), e1, n + 1, |g2.states|); }
    }
  }

  // ---- Words and paths ----

  /** Which state stands for an end. */
  function Dest(o: End, pass: nat, fail: nat, incl: nat): nat {
    match o case Satisfied => pass case Violated => fail case Undecided => incl
  }

  /** The word leads to an end that state x stands for. */
  ghost predicate Leads(t: Language, w: seq<Step>, pass: nat, fail: nat, incl: nat, x: nat) {
    (x == pass && t(w, Satisfied)) || (x == fail && t(w, Violated)) || (x == incl && t(w, Undecided))
  }

  ghost predicate OperLeads(op: Operator, d: Delay, c: Tree, t: Tree, a: Action, s: Source, w: seq<Step>, pass: nat,
                            fail: nat, incl: nat, x: nat) {
    exists o :: x == Dest(o, pass, fail, incl) && OperWord(op, d, c, t, a, s, w, o)
  }

  ghost predicate TailLeads(t: Language, d: Delay, v: seq<Step>, late: nat, pass: nat, fail: nat, incl: nat, x: nat) {
    (x == late && v == [Step(TIMEOUT, DoNothing, d)]) || Leads(t, v, pass, fail, incl, x)
  }

  ghost predicate SplitLeads(c: Language, t: Language, d: Delay, w: seq<Step>, late: nat, pass: nat, fail: nat,
                             fail2: nat, x: nat, i: nat) {
    0 < i < |w| && c(w[..i], Satisfied) && TailLeads(t, d, w[i..], late, pass, fail, fail2, x)
  }

  /** Where a waiting state takes the words of its context and its trigger. */
  ghost predicate WaitLeads(c: Language, t: Language, d: Delay, w: seq<Step>, incl: nat, late: nat, pass: nat,
                            fail: nat, fail2: nat, x: nat) {
    || (x == incl && (c(w, Violated) || c(w, Undecided)))
    || exists i :: SplitLeads(c, t, d, w, late, pass, fail, fail2, x, i)
  }

  /** One split, seen from the ends and from the states that stand for them. */
  lemma SplitEnds(c: Language, t: Language, d: Delay, w: seq<Step>, pass: nat, fail: nat, incl: nat, late: End, p: End,
                  f: End, u: End, x: nat, i: nat)
    ensures SplitLeads(c, t, d, w, Dest(late, pass, fail, incl), Dest(p, pass, fail, incl), Dest(f, pass, fail, incl),
                       Dest(u, pass, fail, incl), x, i)
        <==> exists o :: x == Dest(o, pass, fail, incl) && SplitWord(c, t, d, w, o, late, p, f, u, i)
  {
    var dl, dp, df, du := Dest(late, pass, fail, incl), Dest(p, pass, fail, incl), Dest(f, pass, fail, incl),
        Dest(u, pass, fail, incl);
    if SplitLeads(c, t, d, w, dl, dp, df, du, x, i) {
      var o := if x == dl && w[i..] == [Step(TIMEOUT, DoNothing, d)] then late
          else if x == dp && t(w[i..], Satisfied) then p
               else if x == df && t(w[i..], Violated) then f else u;
      assert x == Dest(o, pass, fail, incl) && SplitWord(c, t, d, w, o, late, p, f, u, i);
    }
  }

  lemma LeadsToEnd(c: Language, t: Language, d: Delay, w: seq<Step>, pass: nat, fail: nat, incl: nat, late: End, p: End,
                   f: End, u: End, x: nat)
    returns (o: End)
    requires WaitLeads(c, t, d, w, incl, Dest(late, pass, fail, incl), Dest(p, pass, fail, incl),
                       Dest(f, pass, fail, incl),
                       Dest(u, pass, fail, incl), x)
    ensures x == Dest(o, pass, fail, incl) && SequenceWord(c, t, d, w, o, late, p, f, u)
  {
    hide SplitLeads, SplitWord;
    if x == incl && (c(w, Violated) || c(w, Undecided)) {
      o := Undecided;
    } else {
      var i: nat :| SplitLeads(c, t, d, w, Dest(late, pass, fail, incl), Dest(p, pass, fail, incl),
                               Dest(f, pass, fail, incl),
                               Dest(u, pass, fail, incl), x, i);
      SplitEnds(c, t, d, w, pass, fail, incl, late, p, f, u, x, i);
      o :| x == Dest(o, pass, fail, incl) && SplitWord(c, t, d, w, o, late, p, f, u, i);
    }
  }

  lemma EndLeads(c: Language, t: Language, d: Delay, w: seq<Step>, pass: nat, fail: nat, incl: nat, late: End, p: End,
                 f: End, u: End, o: End)
    requires SequenceWord(c, t, d, w, o, late, p, f, u)
    ensures WaitLeads(c, t, d, w, incl, Dest(late, pass, fail, incl), Dest(p, pass, fail, incl),
                      Dest(f, pass, fail, incl),
                      Dest(u, pass, fail, incl), Dest(o, pass, fail, incl))
  {
    hide SplitLeads, SplitWord;
    if !(o == Undecided && (c(w, Violated) || c(w, Undecided))) {
      var i: nat :| SplitWord(c, t, d, w, o, late, p, f, u, i);
      SplitEnds(c, t, d, w, pass, fail, incl, late, p, f, u, Dest(o, pass, fail, incl), i);
    }
  }

  lemma SequenceLeads(c: Language, t: Language, d: Delay, w: seq<Step>, pass: nat, fail: nat, incl: nat, late: End,
                      p: End, f: End, u: End, x: nat)
    ensures WaitLeads(c, t, d, w, incl, Dest(late, pass, fail, incl), Dest(p, pass, fail, incl),
                      Dest(f, pass, fail, incl),
                      Dest(u, pass, fail, incl), x)
        <==> exists o :: x == Dest(o, pass, fail, incl) && SequenceWord(c, t, d, w, o, late, p, f, u)
  {
    hide WaitLeads, SequenceWord;
    if WaitLeads(c, t, d, w, incl, Dest(late, pass, fail, incl), Dest(p, pass, fail, incl), Dest(f, pass, fail, incl),
                 Dest(u, pass, fail, incl), x)
    {
      var o := LeadsToEnd(c, t, d, w, pass, fail, incl, late, p, f, u, x);
    }
    if o :| x == Dest(o, pass, fail, incl) && SequenceWord(c, t, d, w, o, late, p, f, u) {
      EndLeads(c, t, d, w, pass, fail, incl, late, p, f, u, o);
    }
  }

  lemma AndLeads(d: Delay, c: Tree, t: Tree, a: Action, s: Source, w: seq<Step>, pass: nat, fail: nat, incl: nat,
                 x: nat)
    ensures OperLeads(And, d, c, t, a, s, w, pass, fail, incl, x)
        <==> (OperLeads(Then, d, c, t, a, s, w, pass, fail, incl, x)
              || OperLeads(Then, d, t, c, a, s, w, pass, fail, incl, x))
  {
    assert forall o ::
        OperWord(And, d, c, t, a, s, w, o)
        <==> OperWord(Then, d, c, t, a, s, w, o) || OperWord(Then, d, t, c, a, s, w, o);
  }

  lemma LeadsAny(m: Language, w: seq<Step>, pass: nat, fail: nat, incl: nat, x: nat)
    ensures Leads(m, w, pass, fail, incl, x) <==> exists o :: x == Dest(o, pass, fail, incl) && m(w, o)
  {
    if Leads(m, w, pass, fail, incl, x) {
      var o := if x == pass && m(w, Satisfied) then Satisfied else if x == fail && m(w, Violated) then Violated
          else Undecided;
      assert x == Dest(o, pass, fail, incl) && m(w, o);
    }
  }

  lemma OrLeads(d: Delay, c: Tree, t: Tree, a: Action, s: Source, w: seq<Step>, pass: nat, fail: nat, incl: nat, x: nat)
    ensures OperLeads(Or, d, c, t, a, s, w, pass, fail, incl, x)
        <==> Leads(Meaning(c, a, s), w, pass, fail, incl, x) || Leads(Meaning(t, a, s), w, pass, fail, incl, x)
  {
    var m, n := Meaning(c, a, s), Meaning(t, a, s);
    forall o ensures OperWord(Or, d, c, t, a, s, w, o) <==> m(w, o) || n(w, o) {}
    hide Word, OperWord, Meaning, Dest, Leads;
    LeadsAny(m, w, pass, fail, incl, x);
    LeadsAny(n, w, pass, fail, incl, x);
  }

  lemma WordOfOper(op: Operator, c: Tree, t: Tree, d: Delay, a: Action, s: Source, w: seq<Step>, o: End)
    ensures Meaning(Oper(op, d, c, t), a, s)(w, o) <==> OperWord(op, d, c, t, a, s, w, o)
  {
    assert Meaning(Oper(op, d, c, t), a, s)(w, o) == Word(Oper(op, d, c, t), a, s, w, o);
  }

  lemma OneOf(op: Operator, c: Tree, t: Tree, d: Delay, a: Action, s: Source, w: seq<Step>, pass: nat, fail: nat,
              incl: nat, x: nat)
    ensures Leads(Meaning(Oper(op, d, c, t), a, s), w, pass, fail, incl, x)
            <==> OperLeads(op, d, c, t, a, s, w, pass, fail, incl, x)
  {
    var m := Meaning(Oper(op, d, c, t), a, s);
    forall o ensures m(w, o) <==> OperWord(op, d, c, t, a, s, w, o) { WordOfOper(op, c, t, d, a, s, w, o); }
    hide Word, OperWord, Meaning, Dest, Leads;
    LeadsAny(m, w, pass, fail, incl, x);
  }

  lemma {:induction false} GenTreeWords(g: Graph, src: nat, pass: nat, fail: nat, incl: nat, t: Tree, action: Action,
                                        w: seq<Step>, x: nat)
    requires 4 <= |g.states| && src < |g.states| && pass < |g.states| && fail < |g.states| && incl < |g.states|
    requires x < |g.states|
    ensures var r := GenTree(g, src, pass, fail, incl, t, action);
            Runs(r, |g.states|, Added(g, r, src), w, x)
            <==> Leads(Meaning(t, action, SourceOf(g, src)), w, pass, fail, incl, x)
    decreases Size(t), 1, 0
  {
    match t
    case Event(id) =>
      var r := GenTree(g, src, pass, fail, incl, t, action);
      var hop := HopOf(g, src, Edge(id, action, pass));
      assert Out(r, src) == Out(g, src) + [hop];
      assert Added(g, r, src) == [hop];
      RunsOne(r, |g.states|, hop, w, x);
    case Oper(op, d, c, tr) =>
      GenOperWords(g, src, pass, fail, incl, op, d, c, tr, action, w, x);
      OneOf(op, c, tr, d, action, SourceOf(g, src), w, pass, fail, incl, x);
  }

  lemma {:induction false} GenOperWords(g: Graph, src: nat, pass: nat, fail: nat, incl: nat,
                                        op: Operator, d: Delay, c: Tree, t: Tree, action: Action, w: seq<Step>, x: nat)
    requires 4 <= |g.states| && src < |g.states| && pass < |g.states| && fail < |g.states| && incl < |g.states|
    requires x < |g.states|
    ensures var r := GenOper(g, src, pass, fail, incl, op, d, c, t, action);
            Runs(r, |g.states|, Added(g, r, src), w, x)
            <==> OperLeads(op, d, c, t, action, SourceOf(g, src), w, pass, fail, incl, x)
    decreases Size(c) + Size(t), 1, 0
  {
    match op
    case Then => ThenWords(g, src, pass, fail, incl, d, c, t, action, w, x);
    case Not =>
      WaitWords(g, src, fail, pass, fail, incl, d, c, t, pass, action, w, x);
      SequenceLeads(Meaning(c, CreateInstance, SourceOf(g, src)), Meaning(t, action, Waiting(d)), d, w, pass, fail,
                    incl, Satisfied, Violated, Satisfied, Violated, x);
    case And => AndWords(g, src, pass, fail, incl, d, c, t, action, w, x);
    case Or => OrWords(g, src, pass, fail, incl, d, c, t, action, w, x);
  }

  lemma {:induction false} AndWords(g: Graph, src: nat, pass: nat, fail: nat, incl: nat, d: Delay, c: Tree, t: Tree,
                                    action: Action,
                                    w: seq<Step>, x: nat)
    requires 4 <= |g.states| && src < |g.states| && pass < |g.states| && fail < |g.states| && incl < |g.states|
    requires x < |g.states|
    ensures var r := GenThen(GenThen(g, src, pass, fail, incl, d, c, t), src, pass, fail, incl, d, t, c);
            Runs(r, |g.states|, Added(g, r, src), w, x)
            <==> OperLeads(And, d, c, t, action, SourceOf(g, src), w, pass, fail, incl, x)
    decreases Size(c) + Size(t), 0, 3
  {
    var m := GenThen(g, src, pass, fail, incl, d, c, t);
    var r := GenThen(m, src, pass, fail, incl, d, t, c);
    var ends := {pass, fail, incl};
    WaitGrows(g, src, pass, fail, fail, incl, d, c, t, fail, ResetTimer, ends);
    WaitGrows(m, src, pass, fail, fail, incl, d, t, c, fail, ResetTimer, ends);
    assert SourceOf(m, src) == SourceOf(g, src);
    assert Grown(g, m, src, ends) && Grown(m, r, src, ends);
    hide *;
    ThenWords(g, src, pass, fail, incl, d, c, t, action, w, x);
    ThenWords(m, src, pass, fail, incl, d, t, c, action, w, x);
    TwoParts(g, m, r, src, ends, w, x);
    AndLeads(d, c, t, action, SourceOf(g, src), w, pass, fail, incl, x);
  }

  lemma {:induction false} OrWords(g: Graph, src: nat, pass: nat, fail: nat, incl: nat, d: Delay, c: Tree, t: Tree,
                                   action: Action,
                                   w: seq<Step>, x: nat)
    requires 4 <= |g.states| && src < |g.states| && pass < |g.states| && fail < |g.states| && incl < |g.states|
    requires x < |g.states|
    ensures var r := GenTree(GenTree(g, src, pass, fail, incl, c, action), src, pass, fail, incl, t, action);
            Runs(r, |g.states|, Added(g, r, src), w, x)
            <==> OperLeads(Or, d, c, t, action, SourceOf(g, src), w, pass, fail, incl, x)
    decreases Size(c) + Size(t), 0, 3
  {
    var m := GenTree(g, src, pass, fail, incl, c, action);
    var r := GenTree(m, src, pass, fail, incl, t, action);
    var ends := {pass, fail, incl};
    GenTreeGrows(g, src, pass, fail, incl, c, action);
    GenTreeGrows(m, src, pass, fail, incl, t, action);
    assert SourceOf(m, src) == SourceOf(g, src);
    hide *;
    GenTreeWords(g, src, pass, fail, incl, c, action, w, x);
    GenTreeWords(m, src, pass, fail, incl, t, action, w, x);
    TwoParts(g, m, r, src, ends, w, x);
    OrLeads(d, c, t, action, SourceOf(g, src), w, pass, fail, incl, x);
  }

  lemma {:induction false} ThenWords(g: Graph, src: nat, pass: nat, fail: nat, incl: nat, d: Delay, c: Tree, t: Tree,
                                     a: Action, w: seq<Step>, x: nat)
    requires 4 <= |g.states| && src < |g.states| && pass < |g.states| && fail < |g.states| && incl < |g.states|
    requires x < |g.states|
    ensures var r := GenThen(g, src, pass, fail, incl, d, c, t);
            Runs(r, |g.states|, Added(g, r, src), w, x)
            <==> OperLeads(Then, d, c, t, a, SourceOf(g, src), w, pass, fail, incl, x)
    decreases Size(c) + Size(t), 0, 2
  {
    var s := SourceOf(g, src);
    forall o ensures OperWord(Then, d, c, t, a, s, w, o) <==> ThenWord(d, c, t, s, w, o) {}
    WaitWords(g, src, pass, fail, fail, incl, d, c, t, fail, ResetTimer, w, x);
    SequenceLeads(Meaning(c, CreateInstance, SourceOf(g, src)), Meaning(t, ResetTimer, Waiting(d)), d, w, pass, fail,
                  incl, Violated, Satisfied, Violated, Violated, x);
  }

  /** Two builders that start at the same state: a run takes the edges of one or of the other. */
  lemma TwoParts(g: Graph, m: Graph, r: Graph, src: nat, ends: set<nat>, w: seq<Step>, x: nat)
    requires Grown(g, m, src, ends) && Grown(m, r, src, ends) && x < |g.states|
    requires forall e <- ends :: e < |g.states|
    ensures Runs(r, |g.states|, Added(g, r, src), w, x)
        <==> Runs(m, |g.states|, Added(g, m, src), w, x) || Runs(r, |m.states|, Added(m, r, src), w, x)
  {
    var n := |g.states|;
    GrownTrans(g, m, r, src, ends);
    RunsAppend(r, n, Added(g, m, src), Added(m, r, src), w, x);
    RunsSame(m, r, n, |m.states|, Added(g, m, src), w, x);
    RunsRaise(r, n, |m.states|, Added(m, r, src), w, x);
  }

  /** Until it meets the waiting state, a run in the finished graph is one in the graph of the first stage. */
  lemma StageRuns(g: Graph, g1: Graph, g2: Graph, g3: Graph, r: Graph, src: nat, d: Delay, late: nat, e1: set<nat>,
                  e2: set<nat>,
                  w: seq<Step>, x: nat)
    requires Stages(g, g1, g2, g3, r, src, d, late, e1, e2) && forall e <- e1 :: e <= |g.states|
    ensures Runs(r, |g.states| + 1, Added(g1, g2, src), w, x) <==> Runs(g2, |g.states| + 1, Added(g1, g2, src), w, x)
  {
    StagesGrow(g, g1, g2, g3, r, src, d, late, e1, e2, e1 + e2 + {late});
    RunsSame(g2, r, |g.states| + 1, |g2.states|, Added(g1, g2, src), w, x);
  }

  /** The first stage in the finished graph: words of the context, up to the waiting state. */
  lemma {:induction false} ContextWords(g: Graph, g1: Graph, g2: Graph, g3: Graph, r: Graph, src: nat, d: Delay,
                                        late: nat, e2: set<nat>, incl: nat,
                                        c: Tree, w: seq<Step>, x: nat)
    requires Stages(g, g1, g2, g3, r, src, d, late, {|g.states|, incl}, e2) && incl < |g.states| && x <= |g.states|
    requires late < |g.states| && forall e <- e2 :: e < |g.states|
    requires g2 == GenTree(g1, src, |g.states|, incl, incl, c, CreateInstance)
    ensures Runs(r, |g.states| + 1, Added(g1, g2, src), w, x)
            <==> Leads(Meaning(c, CreateInstance, SourceOf(g, src)), w, |g.states|, incl, incl, x)
    decreases Size(c), 2, 0
  {
    var n := |g.states|;
    GenTreeWords(g1, src, n, incl, incl, c, CreateInstance, w, x);
    StageRuns(g, g1, g2, g3, r, src, d, late, {n, incl}, e2, w, x);
  }

  /** The trigger's states are all behind those of the context. */
  lemma TriggerRuns(g: Graph, g1: Graph, g2: Graph, g3: Graph, r: Graph, src: nat, d: Delay, late: nat, e1: set<nat>,
                    e2: set<nat>,
                    v: seq<Step>, x: nat)
    requires Stages(g, g1, g2, g3, r, src, d, late, e1, e2) && x < |g.states| && late < |g.states|
    requires forall e <- e2 :: e < |g.states|
    ensures SourceOf(g3, |g.states|) == Waiting(d)
    ensures Runs(r, |g.states|, Out(r, |g.states|), v, x)
        <==> (v == [Step(TIMEOUT, DoNothing, d)] && x == late) || Runs(r, |g3.states|, Added(g3, r, |g.states|), v, x)
  {
    var n, added, timeout := |g.states|, Added(g3, r, |g.states|), Hop(Step(TIMEOUT, DoNothing, d), late);
    StagesGrow(g, g1, g2, g3, r, src, d, late, e1, e2, e1 + e2 + {late});
    RunsRaise(r, n, |g3.states|, added, v, x);
    hide *;
    RunsAppend(r, n, [timeout], added, v, x);
    RunsOne(r, n, timeout, v, x);
  }

  /** The second stage in the finished graph: from the waiting state, the timeout or words of the trigger. */
  lemma {:induction false} TriggerWords(g: Graph, g1: Graph, g2: Graph, g3: Graph, r: Graph, src: nat, d: Delay,
                                        late: nat, e1: set<nat>,
                                        pass: nat, fail: nat, fail2: nat, t: Tree, action: Action, v: seq<Step>, x: nat)
    requires Stages(g, g1, g2, g3, r, src, d, late, e1, {pass, fail, fail2}) && x < |g.states|
    requires late < |g.states| && pass < |g.states| && fail < |g.states| && fail2 < |g.states|
    requires r == GenTree(g3, |g.states|, pass, fail, fail2, t, action)
    ensures Runs(r, |g.states|, Out(r, |g.states|), v, x)
            <==> TailLeads(Meaning(t, action, Waiting(d)), d, v, late, pass, fail, fail2, x)
    decreases Size(t), 2, 0
  {
    assert 4 <= |g.states| < |g3.states|;
    hide Stages, Grown, Out, Runs, Meaning, Word, GenTree, SourceOf, Added;
    TriggerRuns(g, g1, g2, g3, r, src, d, late, e1, {pass, fail, fail2}, v, x);
    GenTreeWords(g3, |g.states|, pass, fail, fail2, t, action, v, x);
  }

  /** A waiting state cuts words in two: what leads to it is for the context, what leads on for the trigger. */
  lemma CutWords(r: Graph, n: nat, added: seq<Hop>, w: seq<Step>, x: nat, c: Language, t: Language, d: Delay,
                 incl: nat, late: nat, pass: nat, fail: nat, fail2: nat)
    requires n < |r.states| && x < n && incl < n
    requires Runs(r, n + 1, added, w, x) <==> Leads(c, w, n, incl, incl, x)
    requires forall i :: 0 < i < |w| ==> (Runs(r, n + 1, added, w[..i], n) <==> Leads(c, w[..i], n, incl, incl, n))
    requires forall i :: 0 < i < |w| ==>
            (Runs(r, n, Out(r, n), w[i..], x) <==> TailLeads(t, d, w[i..], late, pass, fail, fail2, x))
    ensures Runs(r, n, added, w, x) <==> WaitLeads(c, t, d, w, incl, late, pass, fail, fail2, x)
  {
    RunsCut(r, n, added, w, x);
    hide Runs, Out;
    assert forall i :: Through(r, n, added, w, x, i) <==> SplitLeads(c, t, d, w, late, pass, fail, fail2, x, i);
  }

  lemma WaitSetup(g: Graph, src: nat, pass: nat, fail: nat, fail2: nat, incl: nat, d: Delay, c: Tree, t: Tree,
                  late: nat, action: Action)
    returns (g1: Graph, g2: Graph, g3: Graph, r: Graph)
    requires 4 <= |g.states| && src < |g.states|
    ensures r == GenWait(g, src, pass, fail, fail2, incl, d, c, t, late, action) && |g.states| < |r.states|
    ensures Stages(g, g1, g2, g3, r, src, d, late, {|g.states|, incl}, {pass, fail, fail2})
    ensures src < |g1.states| && g2 == GenTree(g1, src, |g.states|, incl, incl, c, CreateInstance)
    ensures |g.states| < |g3.states| && r == GenTree(g3, |g.states|, pass, fail, fail2, t, action)
    ensures Added(g, r, src) == Added(g1, g2, src)
  {
    g1, g2, g3, r := WaitStages(g, src, pass, fail, fail2, incl, d, c, t, late, action);
    StagesGrow(g, g1, g2, g3, r, src, d, late, {|g.states|, incl}, {pass, fail, fail2},
               {pass, fail, fail2, incl, late});
  }

  lemma {:induction false} WaitWords(g: Graph, src: nat, pass: nat, fail: nat, fail2: nat, incl: nat,
                                     d: Delay, c: Tree, t: Tree, late: nat, action: Action, w: seq<Step>, x: nat)
    requires 4 <= |g.states| && src < |g.states| && pass < |g.states| && fail < |g.states| && fail2 < |g.states|
    requires incl < |g.states| && late < |g.states| && x < |g.states|
    ensures var r := GenWait(g, src, pass, fail, fail2, incl, d, c, t, late, action);
            var cs, ts := Meaning(c, CreateInstance, SourceOf(g, src)), Meaning(t, action, Waiting(d));
            Runs(r, |g.states|, Added(g, r, src), w, x) <==> WaitLeads(cs, ts, d, w, incl, late, pass, fail, fail2, x)
    decreases Size(c) + Size(t), 0, 1
  {
    hide *;
    var n, e2 := |g.states|, {pass, fail, fail2};
    var g1, g2, g3, r := WaitSetup(g, src, pass, fail, fail2, incl, d, c, t, late, action);
    var added := Added(g, r, src);
    ContextWords(g, g1, g2, g3, r, src, d, late, e2, incl, c, w, x);
    forall i | 0 < i < |w|
      ensures Runs(r, n + 1, added, w[..i], n)
              <==> Leads(Meaning(c, CreateInstance, SourceOf(g, src)), w[..i], n, incl, incl, n)
      ensures Runs(r, n, Out(r, n), w[i..], x)
              <==> TailLeads(Meaning(t, action, Waiting(d)), d, w[i..], late, pass, fail, fail2, x)
    {
      ContextWords(g, g1, g2, g3, r, src, d, late, e2, incl, c, w[..i], n);
      TriggerWords(g, g1, g2, g3, r, src, d, late, {n, incl}, pass, fail, fail2, t, action, w[i..], x);
    }
    CutWords(r, n, added, w, x, Meaning(c, CreateInstance, SourceOf(g, src)), Meaning(t, action, Waiting(d)), d,
             incl, late, pass, fail, fail2);
  }

  // ---- BEFORE ----

  /**
    * A context without the trigger leads to `fail`, a trigger to the waiting state, and from there a context to
    * `pass`.
    */
  lemma BeforeStages(g: Graph, src: nat, pass: nat, fail: nat, incl: nat, d: Delay, c: Tree, t: Tree, action: Action)
    returns (g1: Graph, g2: Graph, g3: Graph, g4: Graph, r: Graph)
    requires 4 <= |g.states| && src < |g.states|
    ensures r == GenBefore(g, src, pass, fail, incl, d, c, t, action)
    ensures Grown(g1, g2, src, {|g.states|, fail, incl}) && Grown(g2, g3, src, {|g.states|, fail, incl})
    ensures Stages(g, g1, g3, g4, r, src, d, incl, {|g.states|, fail, incl}, {pass, incl, incl})
    ensures g2 == GenTree(g1, src, fail, fail, incl, c, action)
    ensures g3 == GenTree(g2, src, |g.states|, incl, incl, t, CreateInstance)
    ensures r == GenTree(g4, |g.states|, pass, incl, incl, c, action)
  {
    var n := |g.states|;
    var ends := {n, fail, incl};
    g1 := NewState(g, Some(d), [Edge(TIMEOUT, DoNothing, incl)]);
    g2 := GenTree(g1, src, fail, fail, incl, c, action);
    g3 := GenTree(g2, src, n, incl, incl, t, CreateInstance);
    g4 := ListState(g3, n);
    r := GenTree(g4, n, pass, incl, incl, c, action);
    GenTreeGrows(g1, src, fail, fail, incl, c, action);
    GrownWiden(g1, g2, src, {fail, fail, incl}, ends);
    GenTreeGrows(g2, src, n, incl, incl, t, CreateInstance);
    GrownWiden(g2, g3, src, {n, incl, incl}, ends);
    GrownTrans(g1, g2, g3, src, ends);
    GenTreeGrows(g4, n, pass, incl, incl, c, action);
  }

  ghost predicate BeforeLeads(c: Language, t: Language, c2: Language, d: Delay, w: seq<Step>, pass: nat, fail: nat,
                              incl: nat, x: nat) {
    Leads(c, w, fail, fail, incl, x) || WaitLeads(t, c2, d, w, incl, incl, pass, incl, incl, x)
  }

  lemma BeforeEnds(c: Language, t: Language, c2: Language, d: Delay, w: seq<Step>, pass: nat, fail: nat, incl: nat,
                   x: nat)
    ensures BeforeLeads(c, t, c2, d, w, pass, fail, incl, x)
        <==> exists o :: x == Dest(o, pass, fail, incl) && BeforeWord(c, t, c2, d, w, o)
  {
    SequenceLeads(t, c2, d, w, pass, fail, incl, Undecided, Satisfied, Undecided, Undecided, x);
    hide WaitLeads, SequenceWord;
    if Leads(c, w, fail, fail, incl, x) {
      var o := if x == fail && (c(w, Satisfied) || c(w, Violated)) then Violated else Undecided;
      assert x == Dest(o, pass, fail, incl) && BeforeWord(c, t, c2, d, w, o);
    } else if WaitLeads(t, c2, d, w, incl, incl, pass, incl, incl, x) {
      var o :| x == Dest(o, pass, fail, incl)
          && SequenceWord(t, c2, d, w, o, Undecided, Satisfied, Undecided, Undecided);
      assert x == Dest(o, pass, fail, incl) && BeforeWord(c, t, c2, d, w, o);
    }
  }

  /** What the proof about BEFORE needs of its stages. */
  lemma BeforeSetup(g: Graph, src: nat, pass: nat, fail: nat, incl: nat, d: Delay, c: Tree, t: Tree, action: Action)
    returns (g1: Graph, g2: Graph, g3: Graph, g4: Graph, r: Graph)
    requires 4 <= |g.states| && src < |g.states|
    ensures r == GenBefore(g, src, pass, fail, incl, d, c, t, action) && |g.states| < |r.states|
    ensures |g1.states| == |g.states| + 1 && src < |g2.states| && |g.states| < |g4.states|
    ensures SourceOf(g1, src) == SourceOf(g, src) == SourceOf(g2, src)
    ensures Grown(g1, g2, src, {|g.states|, fail, incl}) && Grown(g2, g3, src, {|g.states|, fail, incl})
    ensures Stages(g, g1, g3, g4, r, src, d, incl, {|g.states|, fail, incl}, {pass, incl, incl})
    ensures g2 == GenTree(g1, src, fail, fail, incl, c, action)
    ensures g3 == GenTree(g2, src, |g.states|, incl, incl, t, CreateInstance)
    ensures r == GenTree(g4, |g.states|, pass, incl, incl, c, action)
    ensures Added(g, r, src) == Added(g1, g3, src)
  {
    g1, g2, g3, g4, r := BeforeStages(g, src, pass, fail, incl, d, c, t, action);
    StagesGrow(g, g1, g3, g4, r, src, d, incl, {|g.states|, fail, incl}, {pass, incl, incl}, {pass, fail, incl});
  }

  /** The edges out of `src` before the waiting state is met: contexts and triggers. */
  lemma FirstWords(g: Graph, g1: Graph, g2: Graph, g3: Graph, g4: Graph, r: Graph, src: nat, s: Source, d: Delay,
                   fail: nat, incl: nat,
                   e2: set<nat>, c: Tree, t: Tree, action: Action, w: seq<Step>, x: nat)
    requires 4 <= |g.states| && |g1.states| == |g.states| + 1 && src < |g.states| && src < |g2.states|
    requires s == SourceOf(g1, src) == SourceOf(g2, src)
    requires Stages(g, g1, g3, g4, r, src, d, incl, {|g.states|, fail, incl}, e2) && forall e <- e2 :: e < |g.states|
    requires Grown(g1, g2, src, {|g.states|, fail, incl}) && Grown(g2, g3, src, {|g.states|, fail, incl})
    requires |g1.states| <= |g2.states| && fail < |g.states| && incl < |g.states| && x <= |g.states|
    requires g2 == GenTree(g1, src, fail, fail, incl, c, action)
    requires g3 == GenTree(g2, src, |g.states|, incl, incl, t, CreateInstance)
    ensures Runs(r, |g.states| + 1, Added(g1, g3, src), w, x)
        <==> (Leads(Meaning(c, action, s), w, fail, fail, incl, x)
              || Leads(Meaning(t, CreateInstance, s), w, |g.states|, incl, incl, x))
  {
    hide *;
    StageRuns(g, g1, g3, g4, r, src, d, incl, {|g.states|, fail, incl}, e2, w, x);
    TwoParts(g1, g2, g3, src, {|g.states|, fail, incl}, w, x);
    GenTreeWords(g1, src, fail, fail, incl, c, action, w, x);
    GenTreeWords(g2, src, |g.states|, incl, incl, t, CreateInstance, w, x);
  }

  /** As CutWords, for a source with two kinds of edges. */
  lemma CutBefore(r: Graph, n: nat, added: seq<Hop>, w: seq<Step>, x: nat, c: Language, t: Language, c2: Language,
                  d: Delay,
                  pass: nat, fail: nat, incl: nat)
    requires n < |r.states| && x < n && incl < n && fail < n
    requires Runs(r, n + 1, added, w, x) <==> Leads(c, w, fail, fail, incl, x) || Leads(t, w, n, incl, incl, x)
    requires forall i :: 0 < i < |w| ==>
               (Runs(r, n + 1, added, w[..i], n)
                <==> Leads(c, w[..i], fail, fail, incl, n) || Leads(t, w[..i], n, incl, incl, n))
    requires forall i :: 0 < i < |w| ==>
            (Runs(r, n, Out(r, n), w[i..], x) <==> TailLeads(c2, d, w[i..], incl, pass, incl, incl, x))
    ensures Runs(r, n, added, w, x) <==> BeforeLeads(c, t, c2, d, w, pass, fail, incl, x)
  {
    RunsCut(r, n, added, w, x);
    hide Runs, Out;
    assert forall i :: Through(r, n, added, w, x, i) <==> SplitLeads(t, c2, d, w, incl, pass, incl, incl, x, i);
  }

  lemma BeforeWords(g: Graph, src: nat, pass: nat, fail: nat, incl: nat, d: Delay, c: Tree, t: Tree, action: Action,
                    w: seq<Step>, x: nat)
    requires 4 <= |g.states| && src < |g.states| && pass < |g.states| && fail < |g.states| && incl < |g.states|
    requires x < |g.states|
    ensures var r, s := GenBefore(g, src, pass, fail, incl, d, c, t, action), SourceOf(g, src);
            Runs(r, |g.states|, Added(g, r, src), w, x) <==>
            BeforeLeads(Meaning(c, action, s), Meaning(t, CreateInstance, s), Meaning(c, action, Waiting(d)), d, w,
                        pass, fail, incl, x)
  {
    hide *;
    var n, s := |g.states|, SourceOf(g, src);
    var g1, g2, g3, g4, r := BeforeSetup(g, src, pass, fail, incl, d, c, t, action);
    var added := Added(g, r, src);
    FirstWords(g, g1, g2, g3, g4, r, src, s, d, fail, incl, {pass, incl, incl}, c, t, action, w, x);
    forall i | 0 < i < |w|
      ensures Runs(r, n + 1, added, w[..i], n)
          <==> (Leads(Meaning(c, action, s), w[..i], fail, fail, incl, n)
                || Leads(Meaning(t, CreateInstance, s), w[..i], n, incl, incl, n))
      ensures Runs(r, n, Out(r, n), w[i..], x)
              <==> TailLeads(Meaning(c, action, Waiting(d)), d, w[i..], incl, pass, incl, incl, x)
    {
      FirstWords(g, g1, g2, g3, g4, r, src, s, d, fail, incl, {pass, incl, incl}, c, t, action, w[..i], n);
      TriggerWords(g, g1, g3, g4, r, src, d, incl, {n, fail, incl}, pass, incl, incl, c, action, w[i..], x);
    }
    CutBefore(r, n, added, w, x, Meaning(c, action, s), Meaning(t, CreateInstance, s), Meaning(c, action, Waiting(d)),
              d, pass, fail, incl);
  }

  // ---- The emitted table ----

  /** The word leads from state h of the table to state x. */
  ghost predicate Path(ms: seq<State>, h: nat, w: seq<Step>, x: nat)
    decreases |w|
  {
    h < |ms| && w != [] && exists j :: 0 <= j < |ms[h].out| && PathBy(ms, ms[h].delay, ms[h].out[j], w, x)
  }

  ghost predicate PathBy(ms: seq<State>, d: Delay, t: Transition, w: seq<Step>, x: nat)
    requires w != []
    decreases |w|, 0
  {
    w[0] == Step(t.event, t.action, d) && if |w| == 1 then t.target == x else Path(ms, t.target, w[1..], x)
  }

  /** In the emitted table every state goes by its index, and nothing else changes. */
  lemma {:induction false} EmitKeepsRuns(g: Graph, h: nat, w: seq<Step>, x: nat)
    requires Partial(g, {}) && h < |g.states| && FinalIndex(x) && g.states[INIT].delay == None
    ensures Path(Emit(g), g.states[h].index, w, x) <==> Runs(g, 4, Out(g, h), w, x)
    decreases |w|
  {
    var ms, k := Emit(g), g.states[h].index;
    assert Listed(g, h) && ms[k] == EmitState(g, h);
    if w != [] {
      forall j | 0 <= j < |g.states[h].out|
        ensures PathBy(ms, ms[k].delay, ms[k].out[j], w, x) <==> Follow(g, 4, Out(g, h)[j], w, x)
      {
        var y := g.states[h].out[j].target;
        assert EdgesOrdered(g, {}, h) && After(g, {}, h, y);
        StateByIndex(g, y, x);
        if |w| > 1 {
          EmitKeepsRuns(g, y, w[1..], x);
          assert EdgesShaped(g, y);
        }
      }
      if Runs(g, 4, Out(g, h), w, x) {
        var j :| 0 <= j < |Out(g, h)| && Follow(g, 4, Out(g, h)[j], w, x);
        assert PathBy(ms, ms[k].delay, ms[k].out[j], w, x);
      }
    }
  }

  lemma StateByIndex(g: Graph, y: nat, x: nat)
    requires Partial(g, {}) && FinalIndex(x)
    requires FinalIndex(y) || Listed(g, y)
    ensures y < |g.states| && (g.states[y].index == x <==> y == x)
  {
    assert g.states[g.list[x]].index == x;
    assert Listed(g, y);
  }

  /** The final state that stands for an end of the rule. */
  function FinalOf(o: End): nat {
    Dest(o, PASS, FAIL, INCL)
  }

  /**
    * The compiler preserves the meaning of every rule: the words on the paths from the initial state to the pass, the
    * fail and the inconclusive state are exactly the sequences that satisfy the rule, violate it, or leave it
    * undecided.
    */
  lemma CompileKeepsWords(r: Rule, w: seq<Step>, o: End)
    requires PositiveIds(r.context) && PositiveIds(r.trigger)
    ensures Path(Compile(r), INIT, w, FinalOf(o)) <==> RuleWord(r, w, o)
  {
    var g, x := Generate(r), FinalOf(o);
    GenerateComplete(r);
    assert g.states[g.list[INIT]].index == INIT;
    EmitKeepsRuns(g, INIT, w, x);
    RootGrows(r);
    match r.value
    case Plain(op) =>
      GenOperWords(EmptyGraph, INIT, PASS, FAIL, INCL, op, r.delay, r.context, r.trigger, DoNothing, w, x);
    case Before =>
      BeforeWords(EmptyGraph, INIT, PASS, FAIL, INCL, r.delay, r.context, r.trigger, DoNothing, w, x);
      BeforeEnds(Meaning(r.context, DoNothing, Start), Meaning(r.trigger, CreateInstance, Start),
                 Meaning(r.context, DoNothing, Waiting(r.delay)), r.delay, w, PASS, FAIL, INCL, x);
  }

  lemma RootGrows(r: Rule)
    ensures Added(EmptyGraph, Generate(r), INIT) == Out(Generate(r), INIT)
  {
    var g := EmptyGraph;
    match r.value
    case Plain(op) => GenOperGrows(g, INIT, PASS, FAIL, INCL, op, r.delay, r.context, r.trigger, DoNothing);
    case Before =>
      var g1, g2, g3, g4, m := BeforeStages(g, INIT, PASS, FAIL, INCL, r.delay, r.context, r.trigger, DoNothing);
      StagesGrow(g, g1, g3, g4, m, INIT, r.delay, INCL, {4, FAIL, INCL}, {PASS, INCL, INCL}, {PASS, FAIL, INCL});
  }
}
