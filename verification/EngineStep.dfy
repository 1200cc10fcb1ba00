/** What one node of a THEN rule does to the engine, in closed form, and that it keeps the invariant. */
module EngineStep {
  import opened Wrappers
  import opened Rules
  import opened Compiler
  import opened ThenChain
  import opened Messages
  import opened FsmRuntime
  import opened ChainSteps
  import opened RuleMeaning
  import opened Engine
  import opened EngineInvariant
  import opened EngineMoves

  lemma ExpectNew(p: Program, ch: Chain, st: EngineState, r: nat, c: nat, next: nat)
    requires ChainProgram(p, ch) && Sized(p, st) && r in st.fsms
    requires 4 <= st.fsms[r].state < 3 + |ch.events| && next == ch.events[Matches(st.fsms[r].state)]
    ensures 0 < next < |st.byEvent|
    ensures Expect(p, st, r, true, c, 0)
         == st.(byEvent := st.byEvent[TIMEOUT := [Node(st.nextAddr, c, 0, r)] + st.byEvent[TIMEOUT]]
                                     [next := [Node(st.nextAddr + 1, c, 1, r)] + st.byEvent[next]],
                nextAddr := st.nextAddr + 2)
  {
    assert ChainRow(p.machine.states, ch, st.fsms[r].state - 4);
    var st1 := st.(byEvent := st.byEvent[TIMEOUT := [Node(st.nextAddr, c, 0, r)] + st.byEvent[TIMEOUT]],
                   nextAddr := st.nextAddr + 1);
    assert Expect(p, st, r, true, c, 0) == Expect(p, st1, r, true, c, 1);
    var st2 := st1.(byEvent := st1.byEvent[next := [Node(st1.nextAddr, c, 1, r)] + st1.byEvent[next]],
                    nextAddr := st1.nextAddr + 1);
    assert Expect(p, st1, r, true, c, 1) == Expect(p, st2, r, true, c, 2) == st2;
  }

  lemma ExpectMoved(p: Program, ch: Chain, st: EngineState, r: nat, c: nat, next: nat)
    requires ChainProgram(p, ch) && Sized(p, st) && r in st.fsms
    requires 4 <= st.fsms[r].state < 3 + |ch.events| && next == ch.events[Matches(st.fsms[r].state)]
    ensures 0 < next < |st.byEvent|
    ensures Expect(p, st, r, false, c, 0)
         == st.(byEvent := st.byEvent[next := [Node(st.nextAddr, c, 1, r)] + st.byEvent[next]],
                nextAddr := st.nextAddr + 1)
  {
    assert ChainRow(p.machine.states, ch, st.fsms[r].state - 4);
    assert Expect(p, st, r, false, c, 0) == Expect(p, st, r, false, c, 1);
    var st2 := st.(byEvent := st.byEvent[next := [Node(st.nextAddr, c, 1, r)] + st.byEvent[next]],
                   nextAddr := st.nextAddr + 1);
    assert Expect(p, st, r, false, c, 1) == Expect(p, st2, r, false, c, 2) == st2;
  }

  /** The node's instance, and an outcome of the given kind for it. */
  ghost predicate CallOk(p: Program, ch: Chain, st: EngineState, e: nat, pos: nat, msg: Message,
                         r: nat, f: Fsm, ms: seq<Message>, o: EventOutcome, move: Move)
  {
    && ChainProgram(p, ch) && Sized(p, st) && e < |st.byEvent| && pos < |st.byEvent[e]|
    && r == st.byEvent[e][pos].fsm && r in st.fsms && f == st.fsms[r]
    && Represents(p.machine, ch, f, ms) && Fits(p.machine, f) && Fits(p.machine, o.fsm) && o.fsm.id == f.id
    && var i := st.byEvent[e][pos].index;
       move == Classify(p.machine, ch, f, |ms|, i, msg)
       && (r == BOOT <==> ms == []) && MoveOk(p.machine, ch, f, ms, i, msg, move, o)
  }

  /** The call that a node makes, and the kind of move that results. */
  ghost predicate Call(p: Program, ch: Chain, st: EngineState, e: nat, pos: nat, msg: Message,
                       r: nat, f: Fsm, ms: seq<Message>, o: EventOutcome, move: Move)
  {
    && CallOk(p, ch, st, e, pos, msg, r, f, ms, o, move)
    && o == HandleEvent(p.machine, st.refs, f, st.byEvent[e][pos].index, msg)
  }

  /** The event that an instance with `k` matches waits for. */
  function NextEvent(ch: Chain, k: nat): nat {
    if k < |ch.events| then ch.events[k] else 0
  }

  /** The step of a node, by kind of move. */
  ghost function ShapeOf(p: Program, ch: Chain, st: EngineState, e: nat, pos: nat, c: nat, k: nat, o: EventOutcome,
                         move: Move): Step
    requires Sized(p, st) && e < |st.byEvent| && pos < |st.byEvent[e]|
    requires Fits(p.machine, o.fsm) && o.fsm.id < |st.byId|
  {
    var r := st.byEvent[e][pos].fsm;
    var t := Touch(st, e, pos, c, o.fsm, o.refs);
    var next := NextEvent(ch, k + 1);
    match move
    case Stay => Done(t, Unknown)
    case Advance => if next < |st.byEvent| then Done(Moved(st, e, pos, o.fsm, next, c, o.refs), Unknown) else Broken
    case Fork => if o.child.Some? && 0 < next < |st.byEvent| then Forked(t, r, o.child.value, next, c) else Broken
    case Late => Verdicted(p, t, r, GetVerdict(p.ruleType, o.res))
    case Pass => Verdicted(p, t, r, GetVerdict(p.ruleType, o.res))
  }

  ghost function Forked(t: EngineState, r: nat, child: Fsm, next: nat, c: nat): Step
    requires 0 < next < |t.byEvent|
  {
    if r != BOOT then if child.id < |t.byId| then Done(Joined(t, child, child.id, next, c), Unknown) else Broken
    else
      match FindPlace(t.byId, t.avail)
      case None => Halted
      case Some(i) => Done(Joined(t.(avail := i), child, i % TWO16, next, c), Unknown)
  }

  ghost function Verdicted(p: Program, t: EngineState, r: nat, v: Verdict): Step
    requires Sized(p, t) && r in t.fsms
  {
    if v == Unknown then Done(DropInstance(p, t, r), Unknown)
    else Done(DropFamily(p, StoreTrace(p, t, r), r), v)
  }

  lemma NodeCall(p: Program, ch: Chain, st: EngineState, seen: set<Message>, e: nat, pos: nat, msg: Message)
    returns (r: nat, f: Fsm, ms: seq<Message>, o: EventOutcome, move: Move)
    requires At(p, ch, st, seen, e, pos, msg)
    ensures Call(p, ch, st, e, pos, msg, r, f, ms, o, move) && ms == MatchedAt(ch, st, r)
    ensures move in {Fork, Advance, Pass} ==> e != TIMEOUT && e == ch.events[|ms|]
    ensures e != TIMEOUT && ms != [] ==> ms[|ms| - 1].counter < msg.counter
  {
    r, f, ms := NodeFacts(p, ch, st, seen, e, pos, msg);
    o := HandleChain(p.machine, ch, st.refs, f, ms, st.byEvent[e][pos].index, msg);
    move := Classify(p.machine, ch, f, |ms|, st.byEvent[e][pos].index, msg);
  }

  lemma NodeShape(p: Program, ch: Chain, st: EngineState, e: nat, pos: nat, msg: Message,
                  r: nat, f: Fsm, ms: seq<Message>, o: EventOutcome, move: Move)
    requires Call(p, ch, st, e, pos, msg, r, f, ms, o, move)
    requires move in {Fork, Advance, Pass} ==> e != TIMEOUT && e == ch.events[|ms|]
    ensures move in {Fork, Advance} ==> |ms| + 1 < |ch.events|
    ensures ProcessNode(p, st, e, pos, msg) == ShapeOf(p, ch, st, e, pos, msg.counter, |ms|, o, move)
  {
    match move
    case Stay =>
    case Late => LateShape(p, ch, st, e, pos, msg, r, f, ms, o);
    case Pass =>
    case Advance => AdvanceShape(p, ch, st, e, pos, msg, r, f, ms, o);
    case Fork => BranchShape(p, ch, st, e, pos, msg, r, f, ms, o);
  }

  lemma LateShape(p: Program, ch: Chain, st: EngineState, e: nat, pos: nat, msg: Message,
                  r: nat, f: Fsm, ms: seq<Message>, o: EventOutcome)
    requires Call(p, ch, st, e, pos, msg, r, f, ms, o, Late)
    ensures ProcessNode(p, st, e, pos, msg) == ShapeOf(p, ch, st, e, pos, msg.counter, |ms|, o, Late)
  {
    assert ch.lates[|ms| - 1] == FAIL || ch.lates[|ms| - 1] == INCL;
  }

  lemma AdvanceShape(p: Program, ch: Chain, st: EngineState, e: nat, pos: nat, msg: Message,
                  r: nat, f: Fsm, ms: seq<Message>, o: EventOutcome)
    requires Call(p, ch, st, e, pos, msg, r, f, ms, o, Advance)
    requires e == ch.events[|ms|]
    ensures |ms| + 1 < |ch.events|
    ensures ProcessNode(p, st, e, pos, msg) == ShapeOf(p, ch, st, e, pos, msg.counter, |ms|, o, Advance)
  {
    var t := Touch(st, e, pos, msg.counter, o.fsm, o.refs);
    var st2 := t.(byEvent := t.byEvent[e := RemoveAt(t.byEvent[e], pos)]);
    assert RemoveAt(t.byEvent[e], pos) == RemoveAt(st.byEvent[e], pos);
    assert st2.byEvent == st.byEvent[e := RemoveAt(st.byEvent[e], pos)];
    ExpectMoved(p, ch, st2, r, msg.counter, ch.events[|ms| + 1]);
  }

  lemma BranchShape(p: Program, ch: Chain, st: EngineState, e: nat, pos: nat, msg: Message,
                  r: nat, f: Fsm, ms: seq<Message>, o: EventOutcome)
    requires Call(p, ch, st, e, pos, msg, r, f, ms, o, Fork)
    ensures |ms| + 1 < |ch.events|
    ensures ProcessNode(p, st, e, pos, msg) == ShapeOf(p, ch, st, e, pos, msg.counter, |ms|, o, Fork)
  {
    TakeInShape(p, ch, Touch(st, e, pos, msg.counter, o.fsm, o.refs), r, o.child.value, msg, |ms|);
  }

  lemma TakeInShape(p: Program, ch: Chain, t: EngineState, r: nat, child: Fsm, msg: Message, k: nat)
    requires ChainProgram(p, ch) && Sized(p, t) && Fits(p.machine, child) && child.id < |t.byId|
    requires child.state == Place(|ch.events|, k + 1) && k + 1 < |ch.events|
    ensures 0 < ch.events[k + 1] < |t.byEvent|
    ensures TakeIn(p, t, r, child, Changed, msg) == Forked(t, r, child, ch.events[k + 1], msg.counter)
  {
    if r != BOOT {
      ForkShape(p, ch, t, child, child.id, msg.counter, k);
    } else if FindPlace(t.byId, t.avail).Some? {
      var i := FindPlace(t.byId, t.avail).value;
      ForkShape(p, ch, t.(avail := i), child, i % TWO16, msg.counter, k);
    }
  }

  lemma ForkShape(p: Program, ch: Chain, t: EngineState, child: Fsm, id: nat, c: nat, k: nat)
    requires ChainProgram(p, ch) && Sized(p, t) && Fits(p.machine, child) && id < |t.byId|
    requires child.state == Place(|ch.events|, k + 1) && k + 1 < |ch.events|
    ensures 0 < ch.events[k + 1] < |t.byEvent|
    ensures Expect(p, Adopt(p, t, child, id), t.nextRef, true, c, 0) == Joined(t, child, id, ch.events[k + 1], c)
  {
    ExpectNew(p, ch, Adopt(p, t, child, id), t.nextRef, c, ch.events[k + 1]);
  }

  // ---- The invariant ----

  /** The nodes behind the cursor stay, and every other node is an old one or has looked at message c. */
  ghost predicate Forward(st: EngineState, u: EngineState, e: nat, pos: nat, c: nat) {
    && |u.byEvent| == |st.byEvent| && e < |st.byEvent| && pos < |st.byEvent[e]|
    && EndsWith(u.byEvent[e], st.byEvent[e][pos + 1..])
    && (forall n :: n in u.byEvent[e] ==> n.counter == c || n in RemoveAt(st.byEvent[e], pos))
    && (forall k, n :: 0 <= k < |st.byEvent| && k != e && n in u.byEvent[k] ==> n.counter == c || n in st.byEvent[k])
  }

  lemma WindowNow(p: Program, ch: Chain, ms: seq<Message>, g: Fsm, now: nat, f: Fsm)
    requires ChainProgram(p, ch) && Represents(p.machine, ch, g, ms) && ms != [] && ms[|ms| - 1].timestamp == now
    requires |ms| > 1 ==> Represents(p.machine, ch, f, ms[..|ms| - 1]) && now <= f.timeMax
    requires InRange(ch, ms[|ms| - 1])
    ensures InTime(g, now)
  {}

  lemma BecomesNewcomer(p: Program, ch: Chain, f: Fsm, ms: seq<Message>, g: Fsm, seen: set<Message>, msg: Message)
    requires ChainProgram(p, ch) && Represents(p.machine, ch, f, ms) && Accepted(p.machine, ch, ms) && Increasing(ms)
    requires forall j :: 0 <= j < |ms| ==> ms[j] in seen && ms[j].counter <= msg.counter
    requires ms != [] ==> ms[|ms| - 1].counter < msg.counter && f.timeMin <= msg.timestamp <= f.timeMax
    requires p.machine.guard(ch.events[|ms|], msg, f.trace)
    requires Represents(p.machine, ch, g, ms + [msg]) && g.id != 0 && msg in seen && InRange(ch, msg)
    ensures Newcomer(p, ch, g, seen, msg) && Matches(g.state) == |ms| + 1
    ensures ms != [] ==> First(ch, g) == ms[0]
    ensures ms == [] ==> First(ch, g) == msg
  {
    var u := ms + [msg];
    MatchedIs(p.machine, ch, g, u);
    AcceptedExtend(p.machine, ch, ms, msg);
    assert Increasing(u) by {
      forall i, j | 0 <= i < j < |u| ensures u[i].counter < u[j].counter {
        assert ms != [] && u[i] == ms[i] && ms[i].counter <= ms[|ms| - 1].counter;
      }
    }
    assert u[..|u| - 1] == ms;
    WindowNow(p, ch, u, g, msg.timestamp, f);
  }
}
