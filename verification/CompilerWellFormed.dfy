/** Structure of compiled rules, for every tree over THEN, AND, OR and NOT and for a BEFORE root. */
module CompilerWellFormed {
  import opened Wrappers
  import opened Rules
  import opened Compiler

  /** The fail, pass and inconclusive states, which keep their number in the emitted table. */
  predicate FinalIndex(h: nat) {
    h == FAIL || h == PASS || h == INCL
  }

  predicate Listed(g: Graph, h: nat) {
    h < |g.states| && g.states[h].index < |g.list| && g.list[g.states[h].index] == h
  }

  /** Where an edge out of `h` may lead while the states of `pend` still wait for their index. */
  predicate After(g: Graph, pend: set<nat>, h: nat, t: nat) {
    FinalIndex(t)
    || (t in pend && t != h)
    || (Listed(g, h) && Listed(g, t) && g.states[h].index < g.states[t].index)
  }

  /** The outgoing edges of state `h` have the shape its role demands. */
  predicate EdgesShaped(g: Graph, h: nat)
    requires h < |g.states|
  {
    var out := g.states[h].out;
    if FinalIndex(h) then out == []
    else if h == INIT then forall j :: 0 <= j < |out| ==> out[j].event != TIMEOUT
    else out != [] && out[0].event == TIMEOUT && forall j :: 1 <= j < |out| ==> out[j].event != TIMEOUT
  }

  predicate EdgesOrdered(g: Graph, pend: set<nat>, h: nat)
    requires h < |g.states|
  {
    forall j :: 0 <= j < |g.states[h].out| ==> After(g, pend, h, g.states[h].out[j].target)
  }

  /** The invariant of a graph under construction; `pend` holds the states created but not yet listed. */
  ghost predicate Partial(g: Graph, pend: set<nat>) {
    && |g.states| >= 4 && |g.list| >= 4 && g.index == |g.list|
    && g.list[0] == INIT && g.list[1] == FAIL && g.list[2] == PASS && g.list[3] == INCL
    && (forall k :: 0 <= k < |g.list| ==> g.list[k] < |g.states| && g.states[g.list[k]].index == k)
    && (forall h :: h in pend ==> 4 <= h < |g.states| && !Listed(g, h))
    && (forall h :: 0 <= h < |g.states| ==> Listed(g, h) || h in pend)
    && (forall h :: 0 <= h < |g.states| ==> EdgesShaped(g, h) && EdgesOrdered(g, pend, h))
  }

  /** Only the edges of `src` grow; every other old state, and every old place in the list, is kept. */
  ghost predicate Extends(g: Graph, r: Graph, src: nat) {
    && |g.states| <= |r.states|
    && |g.list| <= |r.list| && r.list[..|g.list|] == g.list
    && (forall h :: 0 <= h < |g.states| && h != src ==> r.states[h] == g.states[h])
    && (src < |g.states| ==>
          && r.states[src].index == g.states[src].index
          && r.states[src].delay == g.states[src].delay
          && g.states[src].out <= r.states[src].out)
    && (forall h :: |g.states| <= h < |r.states| ==> |r.states[h].out| >= 2)
  }

  lemma ExtendsTrans(a: Graph, b: Graph, c: Graph, src: nat)
    requires Extends(a, b, src) && Extends(b, c, src) && src < |a.states|
    ensures Extends(a, c, src)
  {
    assert c.list[..|a.list|] == c.list[..|b.list|][..|a.list|];
  }

  predicate Goal(g: Graph, pend: set<nat>, t: nat) {
    FinalIndex(t) || t in pend
  }

  lemma NewStateKeeps(g: Graph, pend: set<nat>, d: Delay, t: nat)
    requires Partial(g, pend) && Goal(g, pend, t)
    ensures var n := |g.states|;
            var r := NewState(g, Some(d), [Edge(TIMEOUT, DoNothing, t)]);
            Partial(r, pend + {n}) && Goal(r, pend + {n}, n) && n !in pend
  {
    var n := |g.states|;
    var r := NewState(g, Some(d), [Edge(TIMEOUT, DoNothing, t)]);
    forall h | 0 <= h < |g.states|
      ensures Listed(r, h) == Listed(g, h) && r.states[h] == g.states[h]
    {}
    assert r.states[n].index == 0 && r.list[0] != n;
    forall h | 0 <= h < |r.states|
      ensures EdgesShaped(r, h) && EdgesOrdered(r, pend + {n}, h)
    {
      if h < n {
        assert EdgesOrdered(g, pend, h);
        forall j | 0 <= j < |r.states[h].out| ensures After(r, pend + {n}, h, r.states[h].out[j].target) {
          assert After(g, pend, h, g.states[h].out[j].target);
        }
      }
    }
  }

  lemma AppendEdgeKeeps(g: Graph, pend: set<nat>, s: nat, e: Edge)
    requires Partial(g, pend) && Listed(g, s) && !FinalIndex(s)
    requires Goal(g, pend, e.target) && e.event != TIMEOUT
    ensures Partial(AppendEdge(g, s, e), pend)
    ensures Extends(g, AppendEdge(g, s, e), s)
  {
    var r := AppendEdge(g, s, e);
    forall h | 0 <= h < |g.states|
      ensures Listed(r, h) == Listed(g, h)
    {}
    forall h | 0 <= h < |r.states|
      ensures EdgesShaped(r, h) && EdgesOrdered(r, pend, h)
    {
      assert EdgesShaped(g, h) && EdgesOrdered(g, pend, h);
      forall j | 0 <= j < |r.states[h].out| ensures After(r, pend, h, r.states[h].out[j].target) {
        if j < |g.states[h].out| {
          assert After(g, pend, h, g.states[h].out[j].target);
        }
      }
    }
  }

  lemma ListStateKeeps(g: Graph, pend: set<nat>, s: nat)
    requires Partial(g, pend + {s}) && s !in pend && 4 <= s < |g.states|
    requires forall h :: h in pend ==> forall j :: 0 <= j < |g.states[h].out| ==> g.states[h].out[j].target != s
    ensures Partial(ListState(g, s), pend) && Listed(ListState(g, s), s)
    ensures forall h :: Listed(g, h) ==> Listed(ListState(g, s), h)
  {
    var r := ListState(g, s);
    assert s in pend + {s};
    forall h | 0 <= h < |g.states| && h != s
      ensures Listed(r, h) == Listed(g, h)
    {}
    assert Listed(r, s);
    forall h | 0 <= h < |r.states|
      ensures Listed(r, h) || h in pend
    {
      assert Listed(g, h) || h in pend + {s};
    }
    forall h | 0 <= h < |r.states|
      ensures EdgesShaped(r, h) && EdgesOrdered(r, pend, h)
    {
      assert EdgesShaped(g, h) && EdgesOrdered(g, pend + {s}, h);
      forall j | 0 <= j < |r.states[h].out| ensures After(r, pend, h, r.states[h].out[j].target) {
        assert After(g, pend + {s}, h, g.states[h].out[j].target);
      }
    }
  }

  /** Every builder keeps the construction invariant and gives its source at least one more edge. */
  lemma {:induction false} GenTreeKeeps(g: Graph, pend: set<nat>, src: nat, pass: nat, fail: nat, incl: nat, t: Tree,
                                        action: Action)
    requires Partial(g, pend) && Listed(g, src) && !FinalIndex(src)
    requires Goal(g, pend, pass) && Goal(g, pend, fail) && Goal(g, pend, incl)
    requires PositiveIds(t)
    ensures var r := GenTree(g, src, pass, fail, incl, t, action);
            Partial(r, pend) && Extends(g, r, src) && |r.states[src].out| > |g.states[src].out| && Listed(r, src)
    decreases Size(t), 1
  {
    match t
    case Event(id) => AppendEdgeKeeps(g, pend, src, Edge(id, action, pass));
    case Oper(op, d, c, tr) => GenOperKeeps(g, pend, src, pass, fail, incl, op, d, c, tr, action);
  }

  lemma {:induction false} GenOperKeeps(g: Graph, pend: set<nat>, src: nat, pass: nat, fail: nat, incl: nat,
                                        op: Operator, d: Delay, c: Tree, t: Tree, action: Action)
    requires Partial(g, pend) && Listed(g, src) && !FinalIndex(src)
    requires Goal(g, pend, pass) && Goal(g, pend, fail) && Goal(g, pend, incl)
    requires PositiveIds(c) && PositiveIds(t)
    ensures var r := GenOper(g, src, pass, fail, incl, op, d, c, t, action);
            Partial(r, pend) && Extends(g, r, src) && |r.states[src].out| > |g.states[src].out| && Listed(r, src)
    decreases Size(c) + Size(t), 1
  {
    match op
    case Then => GenWaitKeeps(g, pend, src, pass, fail, fail, incl, d, c, t, fail, ResetTimer);
    case And =>
      GenWaitKeeps(g, pend, src, pass, fail, fail, incl, d, c, t, fail, ResetTimer);
      var r := GenThen(g, src, pass, fail, incl, d, c, t);
      GenWaitKeeps(r, pend, src, pass, fail, fail, incl, d, t, c, fail, ResetTimer);
      ExtendsTrans(g, r, GenThen(r, src, pass, fail, incl, d, t, c), src);
    case Or =>
      GenTreeKeeps(g, pend, src, pass, fail, incl, c, action);
      var r := GenTree(g, src, pass, fail, incl, c, action);
      GenTreeKeeps(r, pend, src, pass, fail, incl, t, action);
      ExtendsTrans(g, r, GenTree(r, src, pass, fail, incl, t, action), src);
    case Not => GenWaitKeeps(g, pend, src, fail, pass, fail, incl, d, c, t, pass, action);
  }

  /** The common form of THEN and NOT: a new state, the context before it, the trigger after it. */
  function GenWait(g: Graph, src: nat, pass: nat, fail: nat, fail2: nat, incl: nat,
                   d: Delay, c: Tree, t: Tree, late: nat, action: Action): Graph
    requires src < |g.states|
  {
    var n := |g.states|;
    var g1 := NewState(g, Some(d), [Edge(TIMEOUT, DoNothing, late)]);
    var g2 := GenTree(g1, src, n, incl, incl, c, CreateInstance);
    GenTree(ListState(g2, n), n, pass, fail, fail2, t, action)
  }

  lemma {:induction false} GenWaitKeeps(g: Graph, pend: set<nat>, src: nat, pass: nat, fail: nat, fail2: nat, incl: nat,
                                        d: Delay, c: Tree, t: Tree, late: nat, action: Action)
    requires Partial(g, pend) && Listed(g, src) && !FinalIndex(src)
    requires Goal(g, pend, pass) && Goal(g, pend, fail) && Goal(g, pend, fail2) && Goal(g, pend, incl)
    requires Goal(g, pend, late)
    requires PositiveIds(c) && PositiveIds(t)
    ensures var r := GenWait(g, src, pass, fail, fail2, incl, d, c, t, late, action);
            Partial(r, pend) && Extends(g, r, src) && |r.states[src].out| > |g.states[src].out| && Listed(r, src)
    decreases Size(c) + Size(t), 0
  {
    var n := |g.states|;
    var g1 := NewState(g, Some(d), [Edge(TIMEOUT, DoNothing, late)]);
    NewStateKeeps(g, pend, d, late);
    assert Listed(g1, src);
    GenTreeKeeps(g1, pend + {n}, src, n, incl, incl, c, CreateInstance);
    var g2 := GenTree(g1, src, n, incl, incl, c, CreateInstance);
    PendingUntouched(g, pend, g1, g2, src, n);
    ListStateKeeps(g2, pend, n);
    var g3 := ListState(g2, n);
    assert Goal(g3, pend, pass) && Goal(g3, pend, fail) && Goal(g3, pend, fail2);
    GenTreeKeeps(g3, pend, n, pass, fail, fail2, t, action);
    WaitExtends(g, g1, g2, g3, GenTree(g3, n, pass, fail, fail2, t, action), src);
  }

  /** Composes the three growth steps of `GenWait`. */
  lemma WaitExtends(g: Graph, g1: Graph, g2: Graph, g3: Graph, r: Graph, src: nat)
    requires src < |g.states| && Listed(g, src)
    requires |g1.states| == |g.states| + 1 && g1.states[..|g.states|] == g.states && g1.list == g.list
    requires |g1.states[|g.states|].out| == 1
    requires Extends(g1, g2, src) && |g2.states[src].out| > |g1.states[src].out|
    requires g3 == ListState(g2, |g.states|)
    requires Extends(g3, r, |g.states|) && |r.states[|g.states|].out| > |g3.states[|g.states|].out|
    ensures Extends(g, r, src) && |r.states[src].out| > |g.states[src].out| && Listed(r, src)
  {
    var n := |g.states|;
    assert forall h :: 0 <= h < n ==> g1.states[h] == g.states[h];
    assert r.list[..|g.list|] == r.list[..|g3.list|][..|g.list|] == g3.list[..|g.list|] == g2.list[..|g.list|]
        == g.list;
    assert r.states[src] == g2.states[src];
    assert forall h :: n < h < |g3.states| ==> r.states[h] == g2.states[h];
    assert r.list[r.states[src].index] == r.list[..|g.list|][g.states[src].index];
  }

  lemma PendingUntouched(g: Graph, pend: set<nat>, g1: Graph, g2: Graph, src: nat, n: nat)
    requires Partial(g, pend) && Listed(g, src) && n == |g.states|
    requires |g1.states| == n + 1 && (forall h :: 0 <= h < n ==> g1.states[h] == g.states[h])
    requires Extends(g1, g2, src)
    ensures forall h :: h in pend ==> forall j :: 0 <= j < |g2.states[h].out| ==> g2.states[h].out[j].target != n
  {
    forall h, j | h in pend && 0 <= j < |g2.states[h].out|
      ensures g2.states[h].out[j].target != n
    {
      assert g2.states[h] == g.states[h];
      assert EdgesOrdered(g, pend, h);
      assert After(g, pend, h, g.states[h].out[j].target);
    }
  }

  lemma EmptyGraphPartial()
    ensures Partial(EmptyGraph, {})
  {
    forall h | 0 <= h < 4 ensures EmptyGraph.list[h] == h && EmptyGraph.states[h].index == h {}
    forall h | 0 <= h < 4 ensures Listed(EmptyGraph, h) {}
  }

  lemma GenerateComplete(r: Rule)
    requires PositiveIds(r.context) && PositiveIds(r.trigger)
    ensures Partial(Generate(r), {})
    ensures |Generate(r).states[INIT].out| > 0
    ensures forall h :: 4 <= h < |Generate(r).states| ==> |Generate(r).states[h].out| >= 2
    ensures forall h :: 0 <= h < 4 ==> Generate(r).states[h].delay == None
  {
    EmptyGraphPartial();
    assert Listed(EmptyGraph, INIT);
    match r.value
    case Plain(op) =>
      GenOperKeeps(EmptyGraph, {}, INIT, PASS, FAIL, INCL, op, r.delay, r.context, r.trigger, DoNothing);
    case Before =>
      var g := EmptyGraph;
      var n := |g.states|;
      var g1 := NewState(g, Some(r.delay), [Edge(TIMEOUT, DoNothing, INCL)]);
      NewStateKeeps(g, {}, r.delay, INCL);
      assert Listed(g1, INIT);
      GenTreeKeeps(g1, {n}, INIT, FAIL, FAIL, INCL, r.context, DoNothing);
      var g2 := GenTree(g1, INIT, FAIL, FAIL, INCL, r.context, DoNothing);
      GenTreeKeeps(g2, {n}, INIT, n, INCL, INCL, r.trigger, CreateInstance);
      var g3 := GenTree(g2, INIT, n, INCL, INCL, r.trigger, CreateInstance);
      assert {} + {n} == {n};
      ListStateKeeps(g3, {}, n);
      GenTreeKeeps(ListState(g3, n), {}, n, PASS, INCL, INCL, r.context, DoNothing);
  }

  // ---- What this means for the emitted table ----

  /** One row of the emitted table is well formed. */
  predicate RowOk(ms: seq<State>, k: nat)
    requires k < |ms|
  {
    var out := ms[k].out;
    && (FinalIndex(k) <==> out == [])
    && (k == INIT ==> forall j :: 0 <= j < |out| ==> out[j].event != TIMEOUT && out[j].action == CreateInstance)
    && (k >= 4 ==> |out| >= 2 && out[0].event == TIMEOUT && forall j :: 1 <= j < |out| ==> out[j].event != TIMEOUT)
  }

  /** A rank on state indices: the initial state is lowest, the three final states are above all others. */
  function Rank(ms: seq<State>, k: nat): nat
    requires |ms| >= 4
  {
    if FinalIndex(k) then |ms| - 3 else if k == INIT then 0 else k - 3
  }

  predicate RowRanked(ms: seq<State>, k: nat)
    requires k < |ms| && |ms| >= 4
  {
    forall j :: 0 <= j < |ms[k].out| ==>
      ms[k].out[j].target < |ms| && Rank(ms, k) < Rank(ms, ms[k].out[j].target)
  }

  ghost predicate Ranked(ms: seq<State>) {
    |ms| >= 4 && forall k :: 0 <= k < |ms| ==> RowRanked(ms, k)
  }

  ghost predicate WellFormed(ms: seq<State>) {
    && Ranked(ms)
    && (forall k :: 0 <= k < |ms| ==> RowOk(ms, k))
    && (forall k :: 0 <= k < 4 ==> !ms[k].temporary)
  }

  /** The emitted table of every rule is well formed: roles, one leading timeout, closed and ranked edges. */
  lemma CompileWellFormed(r: Rule)
    requires PositiveIds(r.context) && PositiveIds(r.trigger)
    ensures WellFormed(Compile(r))
  {
    GenerateComplete(r);
    var g := Generate(r);
    var ms := Compile(r);
    forall k | 0 <= k < |ms|
      ensures RowRanked(ms, k) && RowOk(ms, k)
    {
      var h := g.list[k];
      assert Listed(g, h) && g.states[h].index == k;
      assert h < 4 || k < 4 ==> h == k by {
        assert forall i :: 0 <= i < 4 ==> g.list[i] == i && g.states[i].index == i;
      }
      assert EdgesShaped(g, h) && EdgesOrdered(g, {}, h);
      forall j | 0 <= j < |ms[k].out|
        ensures ms[k].out[j].target < |ms| && Rank(ms, k) < Rank(ms, ms[k].out[j].target)
      {
        var t := g.states[h].out[j].target;
        assert After(g, {}, h, t);
        assert Listed(g, t) by { if FinalIndex(t) { assert g.list[t] == t; } }
      }
    }
    assert forall k :: 0 <= k < 4 ==> g.list[k] == k;
  }

  predicate Leads(ms: seq<State>, a: nat, b: nat) {
    a < |ms| && exists j :: 0 <= j < |ms[a].out| && ms[a].out[j].target == b
  }

  /** A walk along transitions of the table. */
  ghost predicate Walk(ms: seq<State>, p: seq<nat>) {
    && (forall i :: 0 <= i < |p| ==> p[i] < |ms|)
    && (forall i :: 0 < i < |p| ==> Leads(ms, p[i - 1], p[i]))
  }

  lemma {:induction false} WalkClimbs(ms: seq<State>, p: seq<nat>)
    requires Ranked(ms) && Walk(ms, p) && p != []
    ensures p[0] < |ms| && Rank(ms, p[0]) + |p| - 1 <= Rank(ms, p[|p| - 1]) <= |ms| - 3
    decreases |p|
  {
    if |p| > 1 {
      var q := p[..|p| - 1];
      WalkClimbs(ms, q);
      assert Leads(ms, p[|p| - 2], p[|p| - 1]) && RowRanked(ms, p[|p| - 2]);
    }
  }

  /** No instance ever visits a state twice or makes more moves than there are states: the graph has no cycle. */
  lemma WalksAreShort(r: Rule, p: seq<nat>)
    requires PositiveIds(r.context) && PositiveIds(r.trigger)
    requires Walk(Compile(r), p)
    ensures |p| <= |Compile(r)| - 2
    ensures Distinct(p)
  {
    CompileWellFormed(r);
    var ms := Compile(r);
    if p != [] { WalkClimbs(ms, p); }
    forall i, j | 0 <= i < j < |p| ensures p[i] != p[j] {
      var q := p[i..j + 1];
      forall k | 0 < k < |q| ensures Leads(ms, q[k - 1], q[k]) {
        assert Leads(ms, p[i + k - 1], p[i + k]);
      }
      WalkClimbs(ms, q);
    }
  }
}
