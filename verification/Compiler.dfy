/** The meta-model that a rule is compiled into: states with ordered outgoing transitions. */
module Compiler {
  import opened Wrappers
  import opened Rules

  datatype Action = DoNothing | CreateInstance | ResetTimer

  const TIMEOUT: nat := 0

  const INIT: nat := 0
  const FAIL: nat := 1
  const PASS: nat := 2
  const INCL: nat := 3

  /** `target` is the identity of the target state: its position in the order of creation. */
  datatype Edge = Edge(event: nat, action: Action, target: nat)

  datatype MetaState = MetaState(index: nat, delay: Option<Delay>, out: seq<Edge>)

  /** All states in creation order, the list of states that are emitted, and the running index. */
  datatype Graph = Graph(states: seq<MetaState>, list: seq<nat>, index: nat)

  function NewState(g: Graph, delay: Option<Delay>, out: seq<Edge>): Graph {
    g.(states := g.states + [MetaState(0, delay, out)])
  }

  function AppendEdge(g: Graph, s: nat, e: Edge): Graph
    requires s < |g.states|
  {
    g.(states := g.states[s := g.states[s].(out := g.states[s].out + [e])])
  }

  /** Gives state `s` the next index and puts it at the end of the list. */
  function ListState(g: Graph, s: nat): Graph
    requires s < |g.states|
  {
    Graph(g.states[s := g.states[s].(index := g.index)], g.list + [s], g.index + 1)
  }

  function GenTree(g: Graph, src: nat, pass: nat, fail: nat, incl: nat, t: Tree, action: Action): (r: Graph)
    requires src < |g.states|
    ensures |r.states| >= |g.states|
    decreases Size(t), 1
  {
    match t
    case Event(id) => AppendEdge(g, src, Edge(id, action, pass))
    case Oper(op, d, c, tr) => GenOper(g, src, pass, fail, incl, op, d, c, tr, action)
  }

  function GenOper(g: Graph, src: nat, pass: nat, fail: nat, incl: nat,
                   op: Operator, d: Delay, c: Tree, t: Tree, action: Action): (r: Graph)
    requires src < |g.states|
    ensures |r.states| >= |g.states|
    decreases Size(c) + Size(t), 1
  {
    match op
    case Then => GenThen(g, src, pass, fail, incl, d, c, t)
    case And => GenThen(GenThen(g, src, pass, fail, incl, d, c, t), src, pass, fail, incl, d, t, c)
    case Or => GenTree(GenTree(g, src, pass, fail, incl, c, action), src, pass, fail, incl, t, action)
    case Not => GenNot(g, src, pass, fail, incl, d, c, t, action)
  }

  /** The last state of the context is the source of the trigger; without the trigger in time the rule fails. */
  function GenThen(g: Graph, src: nat, pass: nat, fail: nat, incl: nat, d: Delay, c: Tree, t: Tree): (r: Graph)
    requires src < |g.states|
    ensures |r.states| >= |g.states|
    decreases Size(c) + Size(t), 0
  {
    var n := |g.states|;
    var g1 := NewState(g, Some(d), [Edge(TIMEOUT, DoNothing, fail)]);
    var g2 := GenTree(g1, src, n, incl, incl, c, CreateInstance);
    GenTree(ListState(g2, n), n, pass, fail, fail, t, ResetTimer)
  }

  /** As THEN, with the roles of the trigger and of the timeout exchanged. */
  function GenNot(g: Graph, src: nat, pass: nat, fail: nat, incl: nat,
                  d: Delay, c: Tree, t: Tree, action: Action): (r: Graph)
    requires src < |g.states|
    ensures |r.states| >= |g.states|
    decreases Size(c) + Size(t), 0
  {
    var n := |g.states|;
    var g1 := NewState(g, Some(d), [Edge(TIMEOUT, DoNothing, pass)]);
    var g2 := GenTree(g1, src, n, incl, incl, c, CreateInstance);
    GenTree(ListState(g2, n), n, fail, pass, fail, t, action)
  }

  function GenBefore(g: Graph, src: nat, pass: nat, fail: nat, incl: nat,
                     d: Delay, c: Tree, t: Tree, action: Action): (r: Graph)
    requires src < |g.states|
    ensures |r.states| >= |g.states|
  {
    var n := |g.states|;
    var g1 := NewState(g, Some(d), [Edge(TIMEOUT, DoNothing, incl)]);
    var g2 := GenTree(g1, src, fail, fail, incl, c, action);
    var g3 := GenTree(g2, src, n, incl, incl, t, CreateInstance);
    GenTree(ListState(g3, n), n, pass, incl, incl, c, action)
  }

  /** The four predefined states. */
  const EmptyGraph: Graph :=
    Graph([MetaState(0, None, []), MetaState(1, None, []), MetaState(2, None, []), MetaState(3, None, [])],
          [INIT, FAIL, PASS, INCL], 4)

  function Generate(r: Rule): Graph {
    match r.value
    case Plain(op) => GenOper(EmptyGraph, INIT, PASS, FAIL, INCL, op, r.delay, r.context, r.trigger, DoNothing)
    case Before => GenBefore(EmptyGraph, INIT, PASS, FAIL, INCL, r.delay, r.context, r.trigger, DoNothing)
  }

  // ---- The state table that is emitted ----

  /** `target` is now the index of the target state in the emitted table. */
  datatype Transition = Transition(event: nat, action: Action, target: nat)

  datatype State = State(delay: Delay, temporary: bool, out: seq<Transition>)

  const NoDelay := Delay(0, 0, 0, 0)

  function EmitEdge(g: Graph, e: Edge, fromInit: bool): Transition {
    Transition(e.event,
               if fromInit then CreateInstance else e.action,
               if e.target < |g.states| then g.states[e.target].index else 0)
  }

  /** Every transition out of the initial state creates an instance, whatever the builders asked for. */
  function EmitState(g: Graph, s: nat): State
    requires s < |g.states|
  {
    var m := g.states[s];
    State(if m.delay.Some? then m.delay.value else NoDelay,
          m.delay.Some? && m.delay.value.IsZero(),
          seq(|m.out|, k requires 0 <= k < |m.out| => EmitEdge(g, m.out[k], s == INIT)))
  }

  function Emit(g: Graph): seq<State> {
    seq(|g.list|, k requires 0 <= k < |g.list| =>
      if g.list[k] < |g.states| then EmitState(g, g.list[k]) else State(NoDelay, false, []))
  }

  function Compile(r: Rule): seq<State> {
    Emit(Generate(r))
  }
}
