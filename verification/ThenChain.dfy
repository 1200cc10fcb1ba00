/** A rule built from THEN only compiles to a chain that reads its events from left to right. */
module ThenChain {
  import opened Wrappers
  import opened Rules
  import opened Compiler

  /** The action of the transition on each leaf: a context event clones, a trigger event resets the timer. */
  function Acts(t: Tree, a: Action): (r: seq<Action>)
    ensures |r| == |Leaves(t)|
  {
    match t
    case Event(_) => [a]
    case Oper(_, _, c, g) => Acts(c, CreateInstance) + Acts(g, ResetTimer)
  }

  /** Where each operator's timeout leads. */
  function Lates(t: Tree, fail: nat, incl: nat): (r: seq<nat>)
    ensures |r| == |Leaves(t)| - 1
  {
    match t
    case Event(_) => []
    case Oper(_, _, c, g) => Lates(c, incl, incl) + [fail] + Lates(g, fail, fail)
  }

  /** The states created for the operators of `t`, from left to right, when the next fresh state is `n`. */
  function Spine(n: nat, t: Tree): (r: seq<nat>)
    ensures |r| == |Leaves(t)| - 1
    decreases t
  {
    match t
    case Event(_) => []
    case Oper(_, _, c, g) => Spine(n + 1, c) + [n] + Spine(n + |Leaves(c)|, g)
  }

  function SpineOr(sp: seq<nat>, k: nat, pass: nat): nat {
    if k < |sp| then sp[k] else pass
  }

  /** State number k of the spine: its timeout edge, then the edge on the leaf to its right. */
  function SpineState(base: nat, sp: seq<nat>, t: Tree, a: Action, pass: nat, fail: nat, incl: nat, k: nat): MetaState
    requires |sp| == |Leaves(t)| - 1 && k < |sp|
  {
    MetaState(base + k, Some(Delays(t)[k]),
              [Edge(TIMEOUT, DoNothing, Lates(t, fail, incl)[k]),
               Edge(Leaves(t)[k + 1], Acts(t, a)[k + 1], SpineOr(sp, k + 1, pass))])
  }

  predicate SpineAt(r: Graph, lo: nat, base: nat, sp: seq<nat>, t: Tree, a: Action, pass: nat, fail: nat, incl: nat,
                    k: nat)
    requires |sp| == |Leaves(t)| - 1 && k < |sp|
  {
    lo <= sp[k] < |r.states| && r.states[sp[k]] == SpineState(base, sp, t, a, pass, fail, incl, k)
  }

  ghost predicate ThenShape(g: Graph, r: Graph, src: nat, pass: nat, fail: nat, incl: nat, t: Tree, a: Action)
    requires src < |g.states|
  {
    var sp := Spine(|g.states|, t);
    && |r.states| == |g.states| + |sp|
    && r.list == g.list + sp
    && r.index == g.index + |sp|
    && (forall h :: 0 <= h < |g.states| && h != src ==> r.states[h] == g.states[h])
    && r.states[src]
        == g.states[src].(out := g.states[src].out + [Edge(Leaves(t)[0], Acts(t, a)[0], SpineOr(sp, 0, pass))])
    && (forall k :: 0 <= k < |sp| ==> SpineAt(r, |g.states|, g.index, sp, t, a, pass, fail, incl, k))
  }

  lemma {:induction false} GenTreeThen(g: Graph, src: nat, pass: nat, fail: nat, incl: nat, t: Tree, a: Action)
    requires src < |g.states| && OnlyThen(t)
    ensures ThenShape(g, GenTree(g, src, pass, fail, incl, t, a), src, pass, fail, incl, t, a)
    decreases t
  {
    match t
    case Event(id) =>
    case Oper(op, d, c, tr) =>
      var n := |g.states|;
      var g1 := NewState(g, Some(d), [Edge(TIMEOUT, DoNothing, fail)]);
      GenTreeThen(g1, src, n, incl, incl, c, CreateInstance);
      var g2 := GenTree(g1, src, n, incl, incl, c, CreateInstance);
      var g3 := ListState(g2, n);
      GenTreeThen(g3, n, pass, fail, fail, tr, ResetTimer);
      ThenCompose(g, g1, g2, g3, GenTree(g3, n, pass, fail, fail, tr, ResetTimer), src, pass, fail, incl, t, a);
      assert GenTree(g, src, pass, fail, incl, t, a) == GenOper(g, src, pass, fail, incl, op, d, c, tr, a)
          == GenThen(g, src, pass, fail, incl, d, c, tr);
  }

  /** A state of the context's or the trigger's spine is the corresponding state of the whole spine. */
  lemma SpineStateLeft(base: nat, s1: seq<nat>, sp: seq<nat>, t: Tree, a: Action, n: nat, pass: nat, fail: nat,
                       incl: nat, k: nat)
    requires t.Oper? && |s1| == |Leaves(t.context)| - 1 && |sp| == |Leaves(t)| - 1 && k < |s1|
    requires sp[..|s1| + 1] == s1 + [n]
    ensures SpineState(base, s1, t.context, CreateInstance, n, incl, incl, k)
            == SpineState(base, sp, t, a, pass, fail, incl, k)
  {
    assert SpineOr(s1, k + 1, n) == sp[..|s1| + 1][k + 1] == sp[k + 1];
  }

  lemma SpineStateRight(base: nat, s1: seq<nat>, s2: seq<nat>, sp: seq<nat>, t: Tree, a: Action, pass: nat, fail: nat,
                        incl: nat, j: nat)
    requires t.Oper? && |s1| == |Leaves(t.context)| && |s2| == |Leaves(t.trigger)| - 1 && j < |s2|
    requires sp == s1 + s2
    ensures |sp| == |Leaves(t)| - 1
    ensures SpineState(base + |s1|, s2, t.trigger, ResetTimer, pass, fail, fail, j)
            == SpineState(base, sp, t, a, pass, fail, incl, |s1| + j)
  {
    assert SpineOr(s2, j + 1, pass) == SpineOr(sp, |s1| + j + 1, pass);
  }

  lemma ThenCompose(g: Graph, g1: Graph, g2: Graph, g3: Graph, r: Graph,
                    src: nat, pass: nat, fail: nat, incl: nat, t: Tree, a: Action)
    requires src < |g.states| && t.Oper? && t.op == Then
    requires g1 == NewState(g, Some(t.delay), [Edge(TIMEOUT, DoNothing, fail)])
    requires ThenShape(g1, g2, src, |g.states|, incl, incl, t.context, CreateInstance)
    requires g3 == ListState(g2, |g.states|)
    requires ThenShape(g3, r, |g.states|, pass, fail, fail, t.trigger, ResetTimer)
    ensures ThenShape(g, r, src, pass, fail, incl, t, a)
  {
    var n := |g.states|;
    var s1, s2 := Spine(n + 1, t.context), Spine(n + |Leaves(t.context)|, t.trigger);
    var sp := Spine(n, t);
    assert |g3.states| == n + |Leaves(t.context)|;
    assert sp == (s1 + [n]) + s2;
    assert r.list == g.list + sp;
    forall k | 0 <= k < |sp|
      ensures SpineAt(r, n, g.index, sp, t, a, pass, fail, incl, k)
    {
      if k < |s1| {
        ComposeLeft(g, g1, g2, g3, r, src, pass, fail, incl, t, a, k);
      } else if k == |s1| {
        MiddleState(g, g1, g2, g3, r, s2, src, pass, fail, incl, t, a);
        assert SpineOr(sp, k + 1, pass) == SpineOr(s2, 0, pass);
      } else {
        ComposeRight(n, g.index, g3, r, pass, fail, incl, t, a, k - |s1| - 1);
      }
    }
    FirstEdge(g, g1, g2, g3, r, src, pass, fail, incl, t, a);
  }

  lemma ComposeLeft(g: Graph, g1: Graph, g2: Graph, g3: Graph, r: Graph,
                    src: nat, pass: nat, fail: nat, incl: nat, t: Tree, a: Action, k: nat)
    requires src < |g.states| && t.Oper? && t.op == Then
    requires g1 == NewState(g, Some(t.delay), [Edge(TIMEOUT, DoNothing, fail)])
    requires ThenShape(g1, g2, src, |g.states|, incl, incl, t.context, CreateInstance)
    requires g3 == ListState(g2, |g.states|)
    requires ThenShape(g3, r, |g.states|, pass, fail, fail, t.trigger, ResetTimer)
    requires k < |Leaves(t.context)| - 1
    ensures SpineAt(r, |g.states|, g.index, Spine(|g.states|, t), t, a, pass, fail, incl, k)
  {
    var n := |g.states|;
    var s1, sp := Spine(n + 1, t.context), Spine(n, t);
    assert SpineAt(g2, n + 1, g.index, s1, t.context, CreateInstance, n, incl, incl, k);
    assert sp[k] == s1[k] && r.states[sp[k]] == g3.states[s1[k]] == g2.states[s1[k]];
    assert sp[..|s1| + 1] == s1 + [n];
    SpineStateLeft(g.index, s1, sp, t, a, n, pass, fail, incl, k);
  }

  lemma ComposeRight(n: nat, base: nat, g3: Graph, r: Graph, pass: nat, fail: nat, incl: nat, t: Tree, a: Action,
                     j: nat)
    requires t.Oper? && n < |g3.states| == n + |Leaves(t.context)| && g3.index == base + |Leaves(t.context)|
    requires ThenShape(g3, r, n, pass, fail, fail, t.trigger, ResetTimer)
    requires j < |Leaves(t.trigger)| - 1
    ensures SpineAt(r, n, base, Spine(n, t), t, a, pass, fail, incl, |Leaves(t.context)| + j)
  {
    var s1, s2 := Spine(n + 1, t.context) + [n], Spine(n + |Leaves(t.context)|, t.trigger);
    assert SpineAt(r, |g3.states|, g3.index, s2, t.trigger, ResetTimer, pass, fail, fail, j);
    assert Spine(n, t) == s1 + s2;
    assert Spine(n, t)[|s1| + j] == s2[j];
    SpineStateRight(base, s1, s2, s1 + s2, t, a, pass, fail, incl, j);
  }

  lemma FirstEdge(g: Graph, g1: Graph, g2: Graph, g3: Graph, r: Graph,
                  src: nat, pass: nat, fail: nat, incl: nat, t: Tree, a: Action)
    requires src < |g.states| && t.Oper? && t.op == Then
    requires g1 == NewState(g, Some(t.delay), [Edge(TIMEOUT, DoNothing, fail)])
    requires ThenShape(g1, g2, src, |g.states|, incl, incl, t.context, CreateInstance)
    requires g3 == ListState(g2, |g.states|)
    requires ThenShape(g3, r, |g.states|, pass, fail, fail, t.trigger, ResetTimer)
    ensures forall h :: 0 <= h < |g.states| && h != src ==> r.states[h] == g.states[h]
    ensures r.states[src] == g.states[src].(out := g.states[src].out
      + [Edge(Leaves(t)[0], Acts(t, a)[0], SpineOr(Spine(|g.states|, t), 0, pass))])
  {
    var n := |g.states|;
    var s1 := Spine(n + 1, t.context);
    var sp := Spine(n, t);
    assert SpineOr(sp, 0, pass) == SpineOr(s1, 0, n);
    assert Leaves(t)[0] == Leaves(t.context)[0] && Acts(t, a)[0] == Acts(t.context, CreateInstance)[0];
    assert r.states[src] == g3.states[src] == g2.states[src];
  }

  lemma MiddleState(g: Graph, g1: Graph, g2: Graph, g3: Graph, r: Graph, s2: seq<nat>,
                    src: nat, pass: nat, fail: nat, incl: nat, t: Tree, a: Action)
    requires src < |g.states| && t.Oper? && t.op == Then
    requires g1 == NewState(g, Some(t.delay), [Edge(TIMEOUT, DoNothing, fail)])
    requires ThenShape(g1, g2, src, |g.states|, incl, incl, t.context, CreateInstance)
    requires g3 == ListState(g2, |g.states|)
    requires s2 == Spine(|g3.states|, t.trigger)
    requires ThenShape(g3, r, |g.states|, pass, fail, fail, t.trigger, ResetTimer)
    ensures var k := |Leaves(t.context)| - 1;
            r.states[|g.states|] == MetaState(g.index + k, Some(Delays(t)[k]),
              [Edge(TIMEOUT, DoNothing, Lates(t, fail, incl)[k]),
               Edge(Leaves(t)[k + 1], Acts(t, a)[k + 1], SpineOr(s2, 0, pass))])
  {
    var n := |g.states|;
    assert g2.states[n] == g1.states[n];
  }

  // ---- The emitted chain ----

  /** A THEN rule as the runtime sees it: events in order, and between events k and k+1 a delay and a timeout target. */
  datatype Chain = Chain(events: seq<nat>, delays: seq<Delay>, acts: seq<Action>, lates: seq<nat>)

  function Root(r: Rule): Tree {
    Oper(Then, r.delay, r.context, r.trigger)
  }

  predicate ThenRule(r: Rule) {
    r.value == Plain(Then) && OnlyThen(r.context) && OnlyThen(r.trigger)
  }

  function ChainOf(r: Rule): Chain {
    var t := Root(r);
    Chain(Leaves(t), Delays(t), Acts(t, DoNothing), Lates(t, FAIL, INCL))
  }

  /** The state reached after k events: the initial state, then states 4, 5, ..., and the pass state at the end. */
  function Place(n: nat, k: nat): nat {
    if k == 0 then INIT else if k == n then PASS else 3 + k
  }

  predicate ChainShape(ch: Chain) {
    && |ch.events| >= 2
    && |ch.delays| == |ch.lates| == |ch.events| - 1
    && |ch.acts| == |ch.events|
    && (forall k :: 0 <= k < |ch.lates| ==> ch.lates[k] == FAIL || ch.lates[k] == INCL)
  }

  /** The table row after k+1 events: the timeout first, then the next event. */
  predicate ChainRow(ms: seq<State>, ch: Chain, k: nat)
    requires ChainShape(ch) && k < |ch.delays| && 4 + k < |ms|
  {
    ms[4 + k] == State(ch.delays[k], ch.delays[k].IsZero(),
                       [Transition(TIMEOUT, DoNothing, ch.lates[k]),
                        Transition(ch.events[k + 1], ch.acts[k + 1], Place(|ch.events|, k + 2))])
  }

  ghost predicate IsChain(ms: seq<State>, ch: Chain) {
    && ChainShape(ch)
    && |ms| == 4 + |ch.delays|
    && ms[INIT].out == [Transition(ch.events[0], CreateInstance, Place(|ch.events|, 1))]
    && ms[FAIL].out == ms[PASS].out == ms[INCL].out == []
    && (forall k :: 0 <= k < |ch.delays| ==> ChainRow(ms, ch, k))
  }

  lemma {:induction false} LatesFinal(t: Tree, fail: nat, incl: nat)
    requires {fail, incl} <= {FAIL, INCL}
    ensures forall k :: 0 <= k < |Lates(t, fail, incl)| ==> Lates(t, fail, incl)[k] in {FAIL, INCL}
  {
    match t
    case Event(_) =>
    case Oper(_, _, c, g) =>
      assert fail in {fail, incl} && incl in {fail, incl};
      LatesFinal(c, incl, incl);
      LatesFinal(g, fail, fail);
  }

  /** A timeout before the root context is complete is inconclusive, a timeout after it is a failure. */
  lemma {:induction false} LatesConstant(t: Tree, x: nat, k: nat)
    requires k < |Leaves(t)| - 1
    ensures Lates(t, x, x)[k] == x
  {
    match t
    case Event(_) =>
    case Oper(_, _, c, g) =>
      var n := |Leaves(c)|;
      if k < n - 1 { LatesConstant(c, x, k); }
      else if k > n - 1 { LatesConstant(g, x, k - n); }
  }

  lemma LatesOfRule(r: Rule, k: nat)
    requires k < |ChainOf(r).lates|
    ensures ChainOf(r).lates[k] == if k < |Leaves(r.context)| - 1 then INCL else FAIL
  {
    var n := |Leaves(r.context)|;
    if k < n - 1 { LatesConstant(r.context, INCL, k); }
    else if k > n - 1 { LatesConstant(r.trigger, FAIL, k - n); }
  }

  lemma ChainOfShape(r: Rule)
    ensures ChainShape(ChainOf(r))
  {
    LatesFinal(Root(r), FAIL, INCL);
  }

  /** The compiler turns a THEN rule into exactly its chain. */
  lemma CompileThen(r: Rule)
    requires ThenRule(r)
    ensures IsChain(Compile(r), ChainOf(r))
  {
    var t, ch, ms, g := Root(r), ChainOf(r), Compile(r), Generate(r);
    ChainOfShape(r);
    GenTreeThen(EmptyGraph, INIT, PASS, FAIL, INCL, t, DoNothing);
    assert g == GenTree(EmptyGraph, INIT, PASS, FAIL, INCL, t, DoNothing);
    SpineIndices(g, Spine(4, t), t, DoNothing);
    assert forall k :: 0 <= k < 4 ==> g.list[k] == k;
    assert ms[INIT] == EmitState(g, INIT) && ms[FAIL] == EmitState(g, FAIL) && ms[PASS] == EmitState(g, PASS)
        && ms[INCL] == EmitState(g, INCL);
    forall k | 0 <= k < |ch.delays|
      ensures ChainRow(ms, ch, k)
    {
      EmitRow(r, g, k);
    }
  }

  lemma EmitRow(r: Rule, g: Graph, k: nat)
    requires ChainShape(ChainOf(r)) && k < |ChainOf(r).delays|
    requires ThenShape(EmptyGraph, g, INIT, PASS, FAIL, INCL, Root(r), DoNothing)
    ensures 4 + k < |Emit(g)| && ChainRow(Emit(g), ChainOf(r), k)
  {
    var t := Root(r);
    var sp := Spine(4, t);
    SpineIndices(g, sp, t, DoNothing);
    assert g.list[4 + k] == sp[k];
    assert SpineAt(g, 4, 4, sp, t, DoNothing, PASS, FAIL, INCL, k);
    var m := g.states[sp[k]];
    EmitSpineState(g, sp[k], m, Place(|Leaves(t)|, k + 2));
  }

  /** How a state with a timeout edge and one event edge is emitted. */
  lemma EmitSpineState(g: Graph, s: nat, m: MetaState, next: nat)
    requires s < |g.states| && s != INIT && g.states[s] == m && m.delay.Some? && |m.out| == 2
    requires m.out[0].target < 4 <= |g.states| && (forall h :: 0 <= h < 4 ==> g.states[h].index == h)
    requires m.out[1].target < |g.states| && g.states[m.out[1].target].index == next
    ensures EmitState(g, s) == State(m.delay.value, m.delay.value.IsZero(),
                                     [Transition(m.out[0].event, m.out[0].action, m.out[0].target),
                                      Transition(m.out[1].event, m.out[1].action, next)])
  {
    assert EmitState(g, s).out == [EmitEdge(g, m.out[0], false), EmitEdge(g, m.out[1], false)];
  }

  lemma SpineIndices(g: Graph, sp: seq<nat>, t: Tree, a: Action)
    requires sp == Spine(4, t) && ThenShape(EmptyGraph, g, INIT, PASS, FAIL, INCL, t, a)
    ensures forall h :: 0 <= h < 4 ==> g.states[h].index == h
    ensures forall k :: 0 <= k <= |sp| ==>
            SpineOr(sp, k, PASS) < |g.states| && g.states[SpineOr(sp, k, PASS)].index == Place(|sp| + 1, k + 1)
  {
    forall k | 0 <= k <= |sp|
      ensures SpineOr(sp, k, PASS) < |g.states| && g.states[SpineOr(sp, k, PASS)].index == Place(|sp| + 1, k + 1)
    {
      if k < |sp| {
        assert SpineAt(g, 4, 4, sp, t, a, PASS, FAIL, INCL, k);
      }
    }
  }
}
