/** The compiler as it is written: recursive builders that grow one shared graph in place. */
module Builder {
  import opened Wrappers
  import opened Rules
  import opened Compiler
  import opened CompilerWellFormed
  import opened CompilerWords

  class GraphBuilder {
    /** The states in creation order; a state is known by its position. */
    var states: seq<MetaState>
    /** The list of states to emit. */
    var list: seq<nat>
    /** The index that the next listed state will get. */
    var index: nat

    function Graph(): Graph
      reads this
    {
      Compiler.Graph(states, list, index)
    }

    constructor ()
      ensures Graph() == EmptyGraph
    {
      states := [MetaState(0, None, []), MetaState(1, None, []), MetaState(2, None, []), MetaState(3, None, [])];
      list := [INIT, FAIL, PASS, INCL];
      index := 4;
    }

    method CreateState(delay: Delay, timeoutTarget: nat) returns (s: nat)
      modifies this
      ensures s == |old(states)| < |states|
      ensures Graph() == NewState(old(Graph()), Some(delay), [Edge(TIMEOUT, DoNothing, timeoutTarget)])
    {
      s := |states|;
      states := states + [MetaState(0, Some(delay), [])];
      states := states[s := states[s].(out := states[s].out + [Edge(TIMEOUT, DoNothing, timeoutTarget)])];
      assert states[s].out == [Edge(TIMEOUT, DoNothing, timeoutTarget)];
      assert states == old(states) + [states[s]];
    }

    method FinishState(s: nat)
      requires s < |states|
      modifies this
      ensures |states| == |old(states)| && index == old(index) + 1 && list == old(list) + [s]
      ensures states[s].index == old(index)
      ensures states[s].delay == old(states[s].delay) && states[s].out == old(states[s].out)
      ensures forall h :: 0 <= h < |states| && h != s ==> states[h] == old(states[h])
    {
      states := states[s := states[s].(index := index)];
      index := index + 1;
      list := list + [s];
    }

    method GenTransitionRule(src: nat, pass: nat, fail: nat, incl: nat, t: Tree, action: Action)
      requires src < |states|
      modifies this
      ensures Graph() == GenTree(old(Graph()), src, pass, fail, incl, t, action)
      decreases Size(t), 1
    {
      match t
      case Event(id) =>
        states := states[src := states[src].(out := states[src].out + [Edge(id, action, pass)])];
      case Oper(op, d, c, g) =>
        GenTransitionOperator(src, pass, fail, incl, op, d, c, g, action);
    }

    method GenTransitionOperator(src: nat, pass: nat, fail: nat, incl: nat, op: Operator, d: Delay, c: Tree, t: Tree,
                                 action: Action)
      requires src < |states|
      modifies this
      ensures Graph() == GenOper(old(Graph()), src, pass, fail, incl, op, d, c, t, action)
      decreases Size(c) + Size(t), 1
    {
      match op {
        case Then => GenTransitionThen(src, pass, fail, incl, d, c, t);
        case And =>
          GenTransitionThen(src, pass, fail, incl, d, c, t);
          GenTransitionThen(src, pass, fail, incl, d, t, c);
        case Or =>
          GenTransitionRule(src, pass, fail, incl, c, action);
          GenTransitionRule(src, pass, fail, incl, t, action);
        case Not => GenTransitionNot(src, pass, fail, incl, d, c, t, action);
      }
    }

    method GenTransitionThen(src: nat, pass: nat, fail: nat, incl: nat, d: Delay, c: Tree, t: Tree)
      requires src < |states|
      modifies this
      ensures Graph() == GenThen(old(Graph()), src, pass, fail, incl, d, c, t)
      decreases Size(c) + Size(t), 0
    {
      var n := CreateState(d, fail);
      GenTransitionRule(src, n, incl, incl, c, CreateInstance);
      ghost var before := Graph();
      FinishState(n);
      assert Graph() == ListState(before, n);
      GenTransitionRule(n, pass, fail, fail, t, ResetTimer);
    }

    method GenTransitionNot(src: nat, pass: nat, fail: nat, incl: nat, d: Delay, c: Tree, t: Tree, action: Action)
      requires src < |states|
      modifies this
      ensures Graph() == GenNot(old(Graph()), src, pass, fail, incl, d, c, t, action)
      decreases Size(c) + Size(t), 0
    {
      var n := CreateState(d, pass);
      GenTransitionRule(src, n, incl, incl, c, CreateInstance);
      ghost var before := Graph();
      FinishState(n);
      assert Graph() == ListState(before, n);
      GenTransitionRule(n, fail, pass, fail, t, action);
    }

    method GenTransitionBefore(src: nat, pass: nat, fail: nat, incl: nat, d: Delay, c: Tree, t: Tree, action: Action)
      requires src < |states|
      modifies this
      ensures Graph() == GenBefore(old(Graph()), src, pass, fail, incl, d, c, t, action)
    {
      var n := CreateState(d, incl);
      GenTransitionRule(src, fail, fail, incl, c, action);
      GenTransitionRule(src, n, incl, incl, t, CreateInstance);
      ghost var before := Graph();
      FinishState(n);
      assert Graph() == ListState(before, n);
      GenTransitionRule(n, pass, incl, incl, c, action);
    }
  }

  /** Builds the graph of a rule and prints its states in list order. */
  method GenFsmStates(r: Rule) returns (table: seq<State>)
    ensures table == Compile(r)
    ensures PositiveIds(r.context) && PositiveIds(r.trigger) ==> WellFormed(table)
    ensures PositiveIds(r.context) && PositiveIds(r.trigger) ==>
              forall w, o :: Path(table, INIT, w, FinalOf(o)) <==> RuleWord(r, w, o)
  {
    var b := new GraphBuilder();
    match r.value {
      case Plain(op) => b.GenTransitionOperator(INIT, PASS, FAIL, INCL, op, r.delay, r.context, r.trigger, DoNothing);
      case Before => b.GenTransitionBefore(INIT, PASS, FAIL, INCL, r.delay, r.context, r.trigger, DoNothing);
    }
    table := [];
    for k := 0 to |b.list|
      invariant table == Emit(b.Graph())[..k]
    {
      table := table + [if b.list[k] < |b.states| then EmitState(b.Graph(), b.list[k]) else State(NoDelay, false, [])];
    }
    if PositiveIds(r.context) && PositiveIds(r.trigger) {
      CompileWellFormed(r);
      forall w, o ensures Path(Compile(r), INIT, w, FinalOf(o)) <==> RuleWord(r, w, o) { CompileKeepsWords(r, w, o); }
    }
  }
}
