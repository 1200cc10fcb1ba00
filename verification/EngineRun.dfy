/**
  * Whole runs of the engine of a THEN rule: nothing dangles, deadlines are kept, verdicts are sound and never repeat.
  */
module EngineRun {
  import opened Wrappers
  import opened Rules
  import opened Compiler
  import opened ThenChain
  import opened Messages
  import opened FsmRuntime
  import opened ChainSteps
  import opened RuleMeaning
  import opened Engine
  import opened EngineInvariant
  import opened EngineMoves
  import opened EngineStep
  import opened EngineVerdict
  import opened EngineOrigins

  // ---- One node ----

  lemma CompleteSound(p: Program, rule: Rule, ms: seq<Message>, f: Fsm, tr: Trace, msg: Message, seen: set<Message>)
    requires ChainProgram(p, ChainOf(rule)) && |ms| + 1 == |ChainOf(rule).events|
    requires Represents(p.machine, ChainOf(rule), f, ms) && Accepted(p.machine, ChainOf(rule), ms) && Increasing(ms)
    requires forall j :: 0 <= j < |ms| ==> ms[j] in seen && ms[j].counter < msg.counter
    requires msg in seen && forall m :: m in seen ==> InRange(ChainOf(rule), m)
    requires ms != [] && f.timeMin <= msg.timestamp <= f.timeMax
    requires p.machine.guard(ChainOf(rule).events[|ms|], msg, f.trace)
    requires tr == TraceOf(p.machine.size, ChainOf(rule).events, ms + [msg])
    ensures Sound(p, rule, Detected, tr, msg, seen) && Sound(p, rule, Respected, tr, msg, seen)
    ensures tr[ChainOf(rule).events[0]] == Some(ms[0])
  {
    var u := ms + [msg];
    AcceptedExtend(p.machine, ChainOf(rule), ms, msg);
    assert Increasing(u);
    PassSound(p, rule, u, tr, msg, seen);
  }

  lemma EndSound(p: Program, rule: Rule, st: EngineState, seen: set<Message>, e: nat, pos: nat, msg: Message,
                 r: nat, f: Fsm, ms: seq<Message>, o: EventOutcome, move: Move)
    requires CallOk(p, ChainOf(rule), st, e, pos, msg, r, f, ms, o, move) && ms == Matched(ChainOf(rule), f)
    requires move in {Late, Pass}
    requires r != BOOT ==> Live(p, ChainOf(rule), f, seen, msg.counter)
    requires msg in seen && forall m :: m in seen ==> InRange(ChainOf(rule), m)
    requires move == Pass && ms != [] ==> ms[|ms| - 1].counter < msg.counter
    requires GetVerdict(p.ruleType, o.res) != Unknown && (move == Late ==> st.byEvent[e][pos].index == 0)
    ensures r != BOOT && ms != [] && ms == Matched(ChainOf(rule), f)
    ensures Sound(p, rule, GetVerdict(p.ruleType, o.res), o.fsm.trace, msg, seen)
    ensures o.fsm.trace[ChainOf(rule).events[0]] == Some(ms[0])
  {
    var ch := ChainOf(rule);
    assert r != BOOT;
    if move == Pass {
      assert forall j :: 0 <= j < |ms| ==> ms[j].counter <= ms[|ms| - 1].counter;
      CompleteSound(p, rule, ms, f, o.fsm.trace, msg, seen);
    } else {
      LateSound(p, rule, ms, o.fsm.trace, msg, seen);
    }
  }

  /** Only a node of the timeout list can find that a deadline has passed. */
  lemma LateOnTimeout(p: Program, rule: Rule, st: EngineState, seen: set<Message>, e: nat, pos: nat, msg: Message,
                      r: nat, f: Fsm, ms: seq<Message>, o: EventOutcome, settled: set<nat>)
    requires Ready(p, rule, st, seen, e, pos, msg, settled)
    requires CallOk(p, ChainOf(rule), st, e, pos, msg, r, f, ms, o, Late) && ms == MatchedAt(ChainOf(rule), st, r)
    ensures e == TIMEOUT && st.byEvent[e][pos].index == 0
  {
    if e != TIMEOUT {
      DeadlinesKept(p, ChainOf(rule), st, seen, msg.counter, msg.timestamp);
      assert false;
    }
    var _, _, _ := NodeFacts(p, ChainOf(rule), st, seen, e, pos, msg);
  }

  lemma EndTraced(p: Program, rule: Rule, st: EngineState, seen: set<Message>, e: nat, pos: nat, msg: Message,
                  r: nat, f: Fsm, ms: seq<Message>, o: EventOutcome, move: Move, settled: set<nat>)
    requires Ready(p, rule, st, seen, e, pos, msg, settled)
    requires CallOk(p, ChainOf(rule), st, e, pos, msg, r, f, ms, o, move) && ms == MatchedAt(ChainOf(rule), st, r)
    requires move in {Late, Pass}
    requires move == Pass && ms != [] ==> ms[|ms| - 1].counter < msg.counter
    ensures TracedStep(p, rule, ShapeOf(p, ChainOf(rule), st, e, pos, msg.counter, |ms|, o, move), msg, seen, settled)
  {
    var v := GetVerdict(p.ruleType, o.res);
    if v == Unknown {
      DroppedTraced(p, rule, st, seen, e, pos, msg, r, f, o, settled);
    } else {
      if move == Late { LateOnTimeout(p, rule, st, seen, e, pos, msg, r, f, ms, o, settled); }
      EndSound(p, rule, st, seen, e, pos, msg, r, f, ms, o, move);
      FamilySettled(p, rule, st, seen, e, pos, msg, r, f, ms, o, v, settled);
    }
  }

  /** The moves that bring no verdict. */
  lemma MoveTraced(p: Program, rule: Rule, st: EngineState, seen: set<Message>, e: nat, pos: nat, msg: Message,
                   r: nat, f: Fsm, ms: seq<Message>, o: EventOutcome, move: Move, settled: set<nat>)
    requires Ready(p, rule, st, seen, e, pos, msg, settled)
    requires CallOk(p, ChainOf(rule), st, e, pos, msg, r, f, ms, o, move) && ms == MatchedAt(ChainOf(rule), st, r)
    requires move in {Stay, Fork, Advance}
    requires move != Stay ==> e != TIMEOUT && |ms| + 1 < |ChainOf(rule).events| && e == ChainOf(rule).events[|ms|]
    requires move != Stay && ms != [] ==> ms[|ms| - 1].counter < msg.counter
    ensures TracedStep(p, rule, ShapeOf(p, ChainOf(rule), st, e, pos, msg.counter, |ms|, o, move), msg, seen, settled)
  {
    hide Instances, Families, Lists, Fresh, Forked, Settled, Origins, BootFresh, Unsettled;
    match move
    case Stay => StayTraced(ChainOf(rule), st, e, pos, msg.counter, o.fsm, o.refs, settled);
    case Fork => ForkTraced(p, rule, st, seen, e, pos, msg, r, f, ms, o, settled);
    case Advance => AdvanceTraced(p, rule, st, seen, e, pos, msg, r, f, ms, o, settled);
  }

  lemma NodeTraced(p: Program, rule: Rule, st: EngineState, seen: set<Message>, e: nat, pos: nat, msg: Message,
                   settled: set<nat>)
    requires Ready(p, rule, st, seen, e, pos, msg, settled)
    ensures TracedStep(p, rule, ProcessNode(p, st, e, pos, msg), msg, seen, settled)
  {
    hide ProcessNode, ShapeOf, TracedStep, Inv, Traced, Visited;
    var ch := ChainOf(rule);
    var r, f, ms, o, move := NodeCall(p, ch, st, seen, e, pos, msg);
    NodeShape(p, ch, st, e, pos, msg, r, f, ms, o, move);
    if move == Late || move == Pass { EndTraced(p, rule, st, seen, e, pos, msg, r, f, ms, o, move, settled); }
    else { MoveTraced(p, rule, st, seen, e, pos, msg, r, f, ms, o, move, settled); }
  }

  // ---- One list ----

  /** The engine while a message is being processed. */
  ghost predicate Busy(p: Program, rule: Rule, st: EngineState, seen: set<Message>, msg: Message, settled: set<nat>) {
    && ChainShape(ChainOf(rule))
    && Inv(p, ChainOf(rule), st, seen, msg.counter, msg.timestamp) && msg in seen
    && (forall m :: m in seen ==> InRange(ChainOf(rule), m))
    && Traced(ChainOf(rule), st, msg.counter, settled)
  }

  ghost predicate StepOk(p: Program, rule: Rule, s: Step, seen: set<Message>, msg: Message, settled: set<nat>) {
    && ChainShape(ChainOf(rule)) && !s.Broken? && (|seen| < p.maxInstances ==> !s.Halted?)
    && (s.Done? ==> Inv(p, ChainOf(rule), s.engine, seen, msg.counter, msg.timestamp))
    && TracedStep(p, rule, s, msg, seen, settled)
  }

  /** Nodes that are not old have looked at message c. */
  ghost predicate Grown(st: EngineState, u: EngineState, k: nat, c: nat) {
    k < |st.byEvent| && k < |u.byEvent| && forall n :: n in u.byEvent[k] ==> n.counter == c || n in st.byEvent[k]
  }

  lemma NodeOkEnd(p: Program, rule: Rule, st: EngineState, seen: set<Message>, e: nat, pos: nat, msg: Message,
                  settled: set<nat>)
    requires Ready(p, rule, st, seen, e, pos, msg, settled)
    ensures var s := ProcessNode(p, st, e, pos, msg);
            && StepOk(p, rule, s, seen, msg, settled)
            && (s.Done? && s.verdict == Unknown ==> Forward(st, s.engine, e, pos, msg.counter))
  {
    NodeKeeps(p, ChainOf(rule), st, seen, e, pos, msg);
    NodeTraced(p, rule, st, seen, e, pos, msg, settled);
  }

  /** The walk can go on behind the node that has just been processed. */
  lemma WalkOn(ch: Chain, st: EngineState, u: EngineState, e: nat, rest: seq<Node>, c: nat)
    requires e < |st.byEvent| && EndsWith(st.byEvent[e], rest) && rest != []
    requires Visited(st.byEvent[e][..|st.byEvent[e]| - |rest|], c)
    requires Forward(st, u, e, |st.byEvent[e]| - |rest|, c) && ListOk(ch, u, e)
    ensures |u.byEvent| == |st.byEvent| && EndsWith(u.byEvent[e], rest[1..])
    ensures Visited(u.byEvent[e][..|u.byEvent[e]| - |rest[1..]|], c)
    ensures forall k :: 0 <= k < |st.byEvent| && k != e ==> Grown(st, u, k, c)
  {
    var list := st.byEvent[e];
    var pos := |list| - |rest|;
    assert list[pos + 1..] == rest[1..];
    FrontVisited(ch, st, u, e, pos, c);
  }

  lemma NodeOkStep(p: Program, rule: Rule, st: EngineState, seen: set<Message>, e: nat, rest: seq<Node>, msg: Message,
                   settled: set<nat>)
    requires Busy(p, rule, st, seen, msg, settled) && e < |st.byEvent| && EndsWith(st.byEvent[e], rest) && rest != []
    requires Visited(st.byEvent[e][..|st.byEvent[e]| - |rest|], msg.counter) && rest[0].counter != msg.counter
    requires e != TIMEOUT ==> Visited(st.byEvent[TIMEOUT], msg.counter)
    ensures var s := ProcessNode(p, st, e, |st.byEvent[e]| - |rest|, msg);
            && StepOk(p, rule, s, seen, msg, settled)
            && (s.Done? && s.verdict == Unknown ==>
                  && |s.engine.byEvent| == |st.byEvent| && EndsWith(s.engine.byEvent[e], rest[1..])
                  && Visited(s.engine.byEvent[e][..|s.engine.byEvent[e]| - |rest[1..]|], msg.counter)
                  && forall k :: 0 <= k < |st.byEvent| && k != e ==> Grown(st, s.engine, k, msg.counter))
  {
    hide ProcessNode, Visited, Grown, Instances, Families, Fresh, Traced, TracedStep;
    var pos := |st.byEvent[e]| - |rest|;
    assert st.byEvent[e][pos] == rest[0];
    NodeOkEnd(p, rule, st, seen, e, pos, msg, settled);
    var s := ProcessNode(p, st, e, pos, msg);
    if s.Done? && s.verdict == Unknown {
      assert ListOk(ChainOf(rule), s.engine, e);
      WalkOn(ChainOf(rule), st, s.engine, e, rest, msg.counter);
    }
  }

  /** The nodes before the cursor have all looked at the message. */
  lemma FrontVisited(ch: Chain, st: EngineState, u: EngineState, e: nat, pos: nat, c: nat)
    requires Forward(st, u, e, pos, c) && ListOk(ch, u, e)
    requires Visited(st.byEvent[e][..pos], c)
    ensures Visited(u.byEvent[e][..|u.byEvent[e]| - |st.byEvent[e][pos + 1..]|], c)
  {
    var rest, list := st.byEvent[e][pos + 1..], u.byEvent[e];
    var k := |list| - |rest|;
    assert forall n :: n in RemoveAt(st.byEvent[e], pos) ==> n in st.byEvent[e][..pos] || n in rest;
    forall n | n in list[..k] ensures n.counter == c {
      var i :| 0 <= i < k && list[i] == n;
      forall j | 0 <= j < |rest| ensures rest[j] != n {
        assert list[k..][j] == list[k + j];
        assert FsmsOf(list)[i] == n.fsm && FsmsOf(list)[k + j] == rest[j].fsm;
      }
      assert n in list;
    }
  }

  lemma AddressesSuffix(list: seq<Node>, rest: seq<Node>)
    requires EndsWith(list, rest)
    ensures Reaches(list, Addresses(rest))
    ensures rest != [] ==> Addresses(rest)[1..] == Addresses(rest[1..]) && Addresses(rest) != []
  {
    var k := |list| - |rest|;
    forall i | 0 <= i < |rest| ensures Addresses(list)[k..][i] == Addresses(rest)[i] {
      assert list[k..][i] == list[k + i];
    }
    assert Addresses(list)[k..] == Addresses(rest);
  }

  lemma GrownTrans(st: EngineState, t: EngineState, u: EngineState, k: nat, c: nat)
    requires Grown(st, t, k, c) && Grown(t, u, k, c)
    ensures Grown(st, u, k, c)
  {}

  /** All lists but e keep their nodes, except for new ones, which have looked at message c. */
  ghost predicate OthersGrown(st: EngineState, u: EngineState, e: nat, c: nat) {
    |u.byEvent| == |st.byEvent| && forall k :: 0 <= k < |st.byEvent| && k != e ==> Grown(st, u, k, c)
  }

  lemma OthersGrownTrans(st: EngineState, t: EngineState, u: EngineState, e: nat, c: nat)
    requires OthersGrown(st, t, e, c) && OthersGrown(t, u, e, c)
    ensures OthersGrown(st, u, e, c)
  {
    forall k | 0 <= k < |st.byEvent| && k != e ensures Grown(st, u, k, c) { GrownTrans(st, t, u, k, c); }
  }

  lemma StillVisited(st: EngineState, u: EngineState, e: nat, c: nat)
    requires OthersGrown(st, u, e, c) && e != TIMEOUT && TIMEOUT < |st.byEvent| && Visited(st.byEvent[TIMEOUT], c)
    ensures Visited(u.byEvent[TIMEOUT], c)
  {
    assert Grown(st, u, TIMEOUT, c);
  }

  /** A walk over list e that goes on with the nodes `rest`: all nodes before them have looked at message c. */
  ghost predicate Walking(st: EngineState, e: nat, rest: seq<Node>, c: nat) {
    && e < |st.byEvent| && EndsWith(st.byEvent[e], rest) && Visited(st.byEvent[e][..|st.byEvent[e]| - |rest|], c)
    && (e != TIMEOUT ==> Visited(st.byEvent[TIMEOUT], c))
  }

  lemma WalkPast(st: EngineState, e: nat, rest: seq<Node>, c: nat)
    requires Walking(st, e, rest, c) && rest != [] && rest[0].counter == c
    ensures Walking(st, e, rest[1..], c)
  {
    var list := st.byEvent[e];
    var pos := |list| - |rest|;
    assert list[pos + 1..] == rest[1..] && list[pos] == rest[0];
    assert list[..pos + 1] == list[..pos] + [rest[0]];
  }

  lemma NodeWalks(p: Program, rule: Rule, st: EngineState, seen: set<Message>, e: nat, rest: seq<Node>, msg: Message,
                  settled: set<nat>)
    requires Busy(p, rule, st, seen, msg, settled) && Walking(st, e, rest, msg.counter)
    requires rest != [] && rest[0].counter != msg.counter
    ensures var s := ProcessNode(p, st, e, |st.byEvent[e]| - |rest|, msg);
            && StepOk(p, rule, s, seen, msg, settled)
            && (s.Done? && s.verdict == Unknown ==>
                  OthersGrown(st, s.engine, e, msg.counter) && Walking(s.engine, e, rest[1..], msg.counter))
  {
    assert Sized(p, st);
    hide ProcessNode, Busy, Grown, StepOk, Visited;
    NodeOkStep(p, rule, st, seen, e, rest, msg, settled);
    var s := ProcessNode(p, st, e, |st.byEvent[e]| - |rest|, msg);
    if s.Done? && s.verdict == Unknown && e != TIMEOUT { StillVisited(st, s.engine, e, msg.counter); }
  }

  lemma ListStep(p: Program, st: EngineState, e: nat, rest: seq<Node>, msg: Message)
    requires Sized(p, st) && e < |st.byEvent| && EndsWith(st.byEvent[e], rest) && rest != []
    ensures ProcessList(p, st, e, Addresses(rest), msg)
         == if rest[0].counter == msg.counter then ProcessList(p, st, e, Addresses(rest[1..]), msg)
            else var s := ProcessNode(p, st, e, |st.byEvent[e]| - |rest|, msg);
                 if s.Done? && s.verdict == Unknown then ProcessList(p, s.engine, e, Addresses(rest[1..]), msg) else s
  {
    hide ProcessNode;
    AddressesSuffix(st.byEvent[e], rest);
    assert st.byEvent[e][|st.byEvent[e]| - |rest|] == rest[0];
  }

  /** A walk over a list visits every node it saw at the start, and never follows a pointer to a freed node. */
  lemma {:induction false} ListKeeps(p: Program, rule: Rule, st: EngineState, seen: set<Message>, e: nat,
                                     rest: seq<Node>,
                                     msg: Message, settled: set<nat>)
    requires Busy(p, rule, st, seen, msg, settled) && Walking(st, e, rest, msg.counter)
    ensures var s := ProcessList(p, st, e, Addresses(rest), msg);
            && StepOk(p, rule, s, seen, msg, settled)
            && (s.Done? && s.verdict == Unknown ==>
                  Visited(s.engine.byEvent[e], msg.counter) && OthersGrown(st, s.engine, e, msg.counter))
    decreases |rest|
  {
    if rest == [] {
      var list := st.byEvent[e];
      assert list[..|list| - |rest|] == list;
    } else {
      assert Sized(p, st) && e < |st.byEvent| && EndsWith(st.byEvent[e], rest);
      hide ProcessNode, ProcessList, Addresses, Inv, Traced, TracedStep, OthersGrown;
      ListStep(p, st, e, rest, msg);
      if rest[0].counter == msg.counter {
        WalkPast(st, e, rest, msg.counter);
        ListKeeps(p, rule, st, seen, e, rest[1..], msg, settled);
      } else {
        NodeWalks(p, rule, st, seen, e, rest, msg, settled);
        var s := ProcessNode(p, st, e, |st.byEvent[e]| - |rest|, msg);
        if s.Done? && s.verdict == Unknown {
          ListKeeps(p, rule, s.engine, seen, e, rest[1..], msg, settled);
          var u := ProcessList(p, s.engine, e, Addresses(rest[1..]), msg);
          if u.Done? && u.verdict == Unknown { OthersGrownTrans(st, s.engine, u.engine, e, msg.counter); }
        }
      }
    }
  }

  // ---- One message ----

  /** All nodes in the lists of the events before e that the message concerns have looked at it. */
  ghost predicate VisitedBelow(p: Program, st: EngineState, e: nat, msg: Message) {
    forall k :: 0 <= k < e && k < |p.masks| && p.masks[k] <= msg.mask ==>
      k < |st.byEvent| && Visited(st.byEvent[k], msg.counter)
  }

  lemma ListVisited(p: Program, st: EngineState, u: EngineState, e: nat, msg: Message)
    requires VisitedBelow(p, st, e, msg) && e < |st.byEvent| && OthersGrown(st, u, e, msg.counter)
    requires Visited(u.byEvent[e], msg.counter)
    ensures VisitedBelow(p, u, e + 1, msg)
  {
    forall k | 0 <= k < e && k < |p.masks| && p.masks[k] <= msg.mask ensures Visited(u.byEvent[k], msg.counter) {
      assert Grown(st, u, k, msg.counter) && Visited(st.byEvent[k], msg.counter);
    }
  }

  lemma WalkBegins(p: Program, st: EngineState, e: nat, msg: Message)
    requires VisitedBelow(p, st, e, msg) && e < |st.byEvent| && 0 < |p.masks| && p.masks[TIMEOUT] == {}
    ensures Walking(st, e, st.byEvent[e], msg.counter)
  {
    var list := st.byEvent[e];
    assert EndsWith(list, list) && list[..0] == [];
  }

  /** What the walk over the lists from e on comes to. */
  ghost predicate EventsOk(p: Program, rule: Rule, s: Step, seen: set<Message>, msg: Message, settled: set<nat>) {
    && StepOk(p, rule, s, seen, msg, settled)
    && (s.Done? && s.verdict == Unknown ==>
          AllInTime(s.engine, msg.timestamp) && VisitedBelow(p, s.engine, |p.masks|, msg))
  }

  lemma EventsEnd(p: Program, rule: Rule, st: EngineState, seen: set<Message>, e: nat, msg: Message, settled: set<nat>)
    requires Busy(p, rule, st, seen, msg, settled) && VisitedBelow(p, st, e, msg) && e >= |p.masks|
    ensures EventsOk(p, rule, ProcessEvents(p, st, e, msg), seen, msg, settled)
  {
    AllVisited(p, st, e, msg);
    DeadlinesKept(p, ChainOf(rule), st, seen, msg.counter, msg.timestamp);
  }

  lemma NextList(p: Program, rule: Rule, st: EngineState, seen: set<Message>, e: nat, msg: Message, settled: set<nat>)
    requires Busy(p, rule, st, seen, msg, settled) && VisitedBelow(p, st, e, msg) && e < |p.masks|
    requires p.masks[e] <= msg.mask
    ensures var s := ProcessList(p, st, e, Addresses(st.byEvent[e]), msg);
            && StepOk(p, rule, s, seen, msg, settled)
            && (s.Done? && s.verdict == Unknown ==>
                  Busy(p, rule, s.engine, seen, msg, settled) && VisitedBelow(p, s.engine, e + 1, msg))
  {
    assert Sized(p, st) && p.masks[TIMEOUT] == {};
    hide ProcessList, VisitedBelow, OthersGrown, Visited, Inv, Traced;
    WalkBegins(p, st, e, msg);
    ListKeeps(p, rule, st, seen, e, st.byEvent[e], msg, settled);
    var s := ProcessList(p, st, e, Addresses(st.byEvent[e]), msg);
    if s.Done? && s.verdict == Unknown { ListVisited(p, st, s.engine, e, msg); }
  }

  lemma {:induction false} EventsKeep(p: Program, rule: Rule, st: EngineState, seen: set<Message>, e: nat, msg: Message,
                                      settled: set<nat>)
    requires Busy(p, rule, st, seen, msg, settled) && VisitedBelow(p, st, e, msg)
    ensures EventsOk(p, rule, ProcessEvents(p, st, e, msg), seen, msg, settled)
    decreases |p.masks| - e
  {
    assert Sized(p, st);
    hide ProcessList, VisitedBelow, Busy, StepOk;
    if e >= |p.masks| {
      EventsEnd(p, rule, st, seen, e, msg, settled);
    } else if !(p.masks[e] <= msg.mask) {
      SkipsList(p, st, e, msg);
      EventsKeep(p, rule, st, seen, e + 1, msg, settled);
    } else {
      NextList(p, rule, st, seen, e, msg, settled);
      var s := ProcessList(p, st, e, Addresses(st.byEvent[e]), msg);
      if s.Done? && s.verdict == Unknown {
        EventsKeep(p, rule, s.engine, seen, e + 1, msg, settled);
      } else {
        assert ProcessEvents(p, st, e, msg) == s;
      }
    }
  }

  lemma SkipsList(p: Program, st: EngineState, e: nat, msg: Message)
    requires VisitedBelow(p, st, e, msg) && e < |p.masks| && !(p.masks[e] <= msg.mask)
    ensures VisitedBelow(p, st, e + 1, msg)
  {}

  lemma AllVisited(p: Program, st: EngineState, e: nat, msg: Message)
    requires VisitedBelow(p, st, e, msg) && e >= |p.masks| > 0 && p.masks[TIMEOUT] == {}
    ensures VisitedBelow(p, st, |p.masks|, msg) && 0 < |st.byEvent| && Visited(st.byEvent[TIMEOUT], msg.counter)
  {}

  /** The parts of the engine that the invariants speak about. */
  ghost predicate SameShape(st: EngineState, u: EngineState) {
    u.fsms == st.fsms && u.nextRef == st.nextRef && u.byEvent == st.byEvent && u.byId == st.byId && u.avail == st.avail
    && u.stored == st.stored
  }

  lemma SameShapeKeeps(p: Program, ch: Chain, st: EngineState, u: EngineState, seen: set<Message>, c: nat, now: nat)
    requires Inv(p, ch, st, seen, c, now) && SameShape(st, u)
    ensures Inv(p, ch, u, seen, c, now)
  {
    forall i | 0 <= i < |u.byId| ensures FamilyOk(u, i) { assert FamilyOk(st, i); }
    forall k | 0 <= k < |u.byEvent| ensures ListOk(ch, u, k) {
      assert ListOk(ch, st, k);
      forall j | 0 <= j < |u.byEvent[k]|
        ensures NodeOk(ch, u, k, u.byEvent[k][j]) { assert NodeOk(ch, st, k, st.byEvent[k][j]); }
    }
    forall k, j | 0 <= k < |u.byEvent| && 0 <= j < |u.byEvent[k]| ensures NodeFresh(ch, u, k, u.byEvent[k][j], c, now) {
      assert NodeFresh(ch, st, k, st.byEvent[k][j], c, now);
    }
  }

  /** Nothing that the engine holds has looked at a later message yet. */
  lemma NextMessage(p: Program, ch: Chain, st: EngineState, seen: set<Message>, c: nat, now: nat, msg: Message)
    requires Inv(p, ch, st, seen, c, now) && c < msg.counter && Roomy(p, |seen| + 1)
    requires forall m :: m in seen ==> m.counter <= c
    ensures |seen + {msg}| == |seen| + 1
    ensures Inv(p, ch, st, seen + {msg}, msg.counter, msg.timestamp)
    ensures Origins(ch, st) ==> BootFresh(ch, st, msg.counter)
    ensures forall k, n :: 0 <= k < |st.byEvent| && n in st.byEvent[k] ==> n.counter <= c
  {
    forall r | r in st.fsms && r != BOOT
      ensures Live(p, ch, st.fsms[r], seen + {msg}, msg.counter) && Last(ch, st.fsms[r]).counter <= c
      ensures First(ch, st.fsms[r]).counter <= c
    {
      assert Live(p, ch, st.fsms[r], seen, c);
    }
    forall k, j | 0 <= k < |st.byEvent| && 0 <= j < |st.byEvent[k]|
      ensures NodeFresh(ch, st, k, st.byEvent[k][j], msg.counter, msg.timestamp) && st.byEvent[k][j].counter <= c
    {
      assert NodeFresh(ch, st, k, st.byEvent[k][j], c, now);
    }
  }

  /** The engine between two messages. */
  ghost predicate Idle(p: Program, rule: Rule, st: EngineState, seen: set<Message>, c: nat, now: nat,
                       settled: set<nat>) {
    && ChainShape(ChainOf(rule))
    && Inv(p, ChainOf(rule), st, seen, c, now)
    && (forall m :: m in seen ==> InRange(ChainOf(rule), m) && m.counter <= c)
    && Origins(ChainOf(rule), st) && Unsettled(ChainOf(rule), st, settled)
    && (forall d :: d in settled ==> d <= c)
  }

  /** What one message can do to an idle engine. */
  ghost predicate Delivered(p: Program, rule: Rule, s: Step, seen: set<Message>, msg: Message, settled: set<nat>) {
    && ChainShape(ChainOf(rule)) && !s.Broken? && (|seen| < p.maxInstances ==> !s.Halted?)
    && (s.Done? && s.verdict == Unknown ==>
        Idle(p, rule, s.engine, seen, msg.counter, msg.timestamp, settled) && AllInTime(s.engine, msg.timestamp))
    && (s.Done? && s.verdict != Unknown ==>
          && Settled(p, rule, s.engine, s.verdict, msg, seen, settled)
          && Idle(p, rule, s.engine, seen, msg.counter, msg.timestamp,
                  settled + {s.engine.stored[ChainOf(rule).events[0]].value.counter}))
  }

  /** A walk over a list whose nodes have all looked at the message does nothing. */
  lemma {:induction false} SkipVisited(p: Program, st: EngineState, e: nat, rest: seq<Node>, msg: Message)
    requires Sized(p, st) && e < |st.byEvent| && EndsWith(st.byEvent[e], rest) && Visited(st.byEvent[e], msg.counter)
    ensures ProcessList(p, st, e, Addresses(rest), msg) == Done(st, Unknown)
    decreases |rest|
  {
    if rest != [] {
      var list := st.byEvent[e];
      assert list[|list| - |rest|] == rest[0] && list[|list| - |rest| + 1..] == rest[1..];
      ListStep(p, st, e, rest, msg);
      SkipVisited(p, st, e, rest[1..], msg);
    }
  }

  /** The engine after the extra sweep found that there was nothing left to do. */
  function Swept(st: EngineState, msg: Message): EngineState {
    st.(lastCounter := msg.counter, lastTimestamp := msg.timestamp)
  }

  /** What a message does to the lists is all it does: the extra sweep, should it be due, adds nothing. */
  ghost predicate SweepIdle(p: Program, st: EngineState, msg: Message)
    requires Sized(p, st)
  {
    var s, t := ProcessEvents(p, st, 0, msg), Process(p, st, msg);
    t == s || (s.Done? && t == Done(Swept(s.engine, msg), Unknown) && s.verdict == Unknown)
  }

  lemma SweepFinds(p: Program, st: EngineState, msg: Message)
    requires Sized(p, st)
    requires var s := ProcessEvents(p, st, 0, msg);
             s.Done? && s.verdict == Unknown ==> VisitedBelow(p, s.engine, |p.masks|, msg) && p.masks[TIMEOUT] == {}
    ensures SweepIdle(p, st, msg)
  {
    var s := ProcessEvents(p, st, 0, msg);
    if s.Done? && s.verdict == Unknown {
      var list := s.engine.byEvent[TIMEOUT];
      assert list[|list| - |list|..] == list;
      SkipVisited(p, Swept(s.engine, msg), TIMEOUT, list, msg);
    }
  }

  lemma EventsDeliver(p: Program, rule: Rule, st: EngineState, seen: set<Message>, c: nat, now: nat, msg: Message,
                      settled: set<nat>)
    requires Idle(p, rule, st, seen, c, now, settled) && c < msg.counter && InRange(ChainOf(rule), msg)
    requires Roomy(p, |seen| + 1)
    ensures Sized(p, st) && SweepIdle(p, st, msg)
    ensures Delivered(p, rule, ProcessEvents(p, st, 0, msg), seen + {msg}, msg, settled)
  {
    hide Instances, Families, Lists, Fresh, ProcessEvents, ProcessList, SweepIdle, Origins, Unsettled, Sound;
    var ch := ChainOf(rule);
    NextMessage(p, ch, st, seen, c, now, msg);
    EventsKeep(p, rule, st, seen + {msg}, 0, msg, settled);
    SweepFinds(p, st, msg);
    var s := ProcessEvents(p, st, 0, msg);
    if s.Done? && s.verdict != Unknown {
      var first := s.engine.stored[ch.events[0]].value.counter;
      assert Inv(p, ch, s.engine, seen + {msg}, msg.counter, msg.timestamp);
      assert Idle(p, rule, s.engine, seen + {msg}, msg.counter, msg.timestamp, settled + {first});
    }
  }

  lemma ProcessKeeps(p: Program, rule: Rule, st: EngineState, seen: set<Message>, c: nat, now: nat, msg: Message,
                     settled: set<nat>)
    requires Idle(p, rule, st, seen, c, now, settled) && c < msg.counter && InRange(ChainOf(rule), msg)
    requires Roomy(p, |seen| + 1)
    ensures Sized(p, st) && SweepIdle(p, st, msg)
    ensures Delivered(p, rule, Process(p, st, msg), seen + {msg}, msg, settled)
  {
    hide Inv, ProcessEvents, Process, Origins, Unsettled, Settled;
    EventsDeliver(p, rule, st, seen, c, now, msg, settled);
    var s := ProcessEvents(p, st, 0, msg);
    if s.Done? && s.verdict == Unknown {
      IdleSame(p, rule, s.engine, Swept(s.engine, msg), seen + {msg}, msg.counter, msg.timestamp, settled);
    }
  }

  lemma DeliverKeeps(p: Program, rule: Rule, st: EngineState, seen: set<Message>, c: nat, now: nat, msg: Message,
                     settled: set<nat>)
    requires Idle(p, rule, st, seen, c, now, settled) && c < msg.counter && InRange(ChainOf(rule), msg)
    requires Roomy(p, |seen| + 1)
    ensures Sized(p, st)
    ensures Delivered(p, rule, Deliver(p, st, msg), seen + {msg}, msg, settled)
  {
    var ch := ChainOf(rule);
    var st0 := st.(refs := Retain(st.refs, msg));
    IdleSame(p, rule, st, st0, seen, c, now, settled);
    ProcessKeeps(p, rule, st0, seen, c, now, msg, settled);
    var s := Process(p, st0, msg);
    if s.Done? {
      var u := s.engine.(refs := Release(s.engine.refs, msg));
      if s.verdict == Unknown {
        IdleSame(p, rule, s.engine, u, seen + {msg}, msg.counter, msg.timestamp, settled);
      } else {
        IdleSame(p, rule, s.engine, u, seen + {msg}, msg.counter, msg.timestamp,
                 settled + {u.stored[ch.events[0]].value.counter});
      }
    }
  }

  lemma IdleSame(p: Program, rule: Rule, st: EngineState, u: EngineState, seen: set<Message>, c: nat, now: nat,
                 settled: set<nat>)
    requires Idle(p, rule, st, seen, c, now, settled) && SameShape(st, u)
    ensures Idle(p, rule, u, seen, c, now, settled)
  {
    SameShapeKeeps(p, ChainOf(rule), st, u, seen, c, now);
  }

  // ---- The extra sweep over the timeout list ----

  ghost predicate SameSweep(st: EngineState, s: Step) {
    s.Done? ==> s.engine.lastCounter == st.lastCounter && s.engine.lastTimestamp == st.lastTimestamp
  }

  lemma NodeSweep(p: Program, st: EngineState, e: nat, pos: nat, msg: Message)
    requires Sized(p, st) && e < |st.byEvent| && pos < |st.byEvent[e]|
    ensures SameSweep(st, ProcessNode(p, st, e, pos, msg))
  {}

  lemma {:induction false} ListSweep(p: Program, st: EngineState, e: nat, rest: seq<nat>, msg: Message)
    requires Sized(p, st) && e < |st.byEvent|
    ensures SameSweep(st, ProcessList(p, st, e, rest, msg))
    decreases |rest|
  {
    if rest != [] && Reaches(st.byEvent[e], rest) {
      var pos := |st.byEvent[e]| - |rest|;
      if st.byEvent[e][pos].counter == msg.counter {
        ListSweep(p, st, e, rest[1..], msg);
      } else {
        NodeSweep(p, st, e, pos, msg);
        var s := ProcessNode(p, st, e, pos, msg);
        if s.Done? && s.verdict == Unknown { ListSweep(p, s.engine, e, rest[1..], msg); }
      }
    }
  }

  lemma {:induction false} EventsSweep(p: Program, st: EngineState, e: nat, msg: Message) returns (s: Step)
    requires Sized(p, st)
    ensures s == ProcessEvents(p, st, e, msg) && SameSweep(st, s)
    decreases |p.masks| - e
  {
    s := ProcessEvents(p, st, e, msg);
    if e < |p.masks| {
      if !(p.masks[e] <= msg.mask) {
        var _ := EventsSweep(p, st, e + 1, msg);
      } else {
        ListSweep(p, st, e, Addresses(st.byEvent[e]), msg);
        var t := ProcessList(p, st, e, Addresses(st.byEvent[e]), msg);
        if t.Done? && t.verdict == Unknown { var _ := EventsSweep(p, t.engine, e + 1, msg); }
      }
    }
  }

  /** The counter 2^64 - 10 or the timestamp 2^64 - 100000: here the additions in the test before the sweep give 0. */
  predicate Wraps(msg: Message) {
    AddU64(msg.counter, 10) == 0 || AddU64(msg.timestamp, 100000) == 0
  }

  /**
    * For every rule and every run: as long as no message wraps the test before the second sweep over the timeout list,
    * that sweep never takes place; it becomes due with the first message that does.
    */
  lemma {:induction false} SweepNeverRuns(p: Program, msgs: seq<Message>, msg: Message)
    requires ValidMachine(p.machine) && |p.masks| == p.machine.size && p.maxInstances > 0
    requires forall m <- msgs :: !Wraps(m)
    ensures var r := Run(p, msgs);
            r.Running? ==>
              && r.engine.lastCounter == 0 && r.engine.lastTimestamp == 0
              && (SweepDue(r.engine, msg) <==> Wraps(msg))
              && (!Wraps(msg) ==> Process(p, r.engine, msg) == ProcessEvents(p, r.engine, 0, msg))
    decreases |msgs|
  {
    if msgs != [] {
      var k := |msgs| - 1;
      SweepNeverRuns(p, msgs[..k], msgs[k]);
      var r := Run(p, msgs[..k]);
      if r.Running? {
        var st0 := r.engine.(refs := Retain(r.engine.refs, msgs[k]));
        var _ := EventsSweep(p, st0, 0, msgs[k]);
      }
    }
    var r := Run(p, msgs);
    if r.Running? { var _ := EventsSweep(p, r.engine, 0, msg); }
  }

  // ---- Whole runs ----

  /** The engine of a THEN rule without zero delays, with events numbered 1, 2, ... without repeats. */
  ghost predicate WellPosed(p: Program, rule: Rule) {
    && ThenRule(rule) && p.machine.states == Compile(rule)
    && (forall k :: 0 <= k < |Delays(Root(rule))| ==> !Delays(Root(rule))[k].IsZero())
    && Distinct(Leaves(Root(rule)))
    && (forall k :: 0 <= k < |Leaves(Root(rule))| ==> 0 < Leaves(Root(rule))[k] < p.machine.size)
    && |p.masks| == p.machine.size > 0 && p.masks[TIMEOUT] == {}
    && 0 < p.maxInstances
  }

  lemma WellPosedChain(p: Program, rule: Rule)
    requires WellPosed(p, rule)
    ensures ChainProgram(p, ChainOf(rule))
  {
    CompileThen(rule);
    ChainMachineValid(p.machine, ChainOf(rule));
  }

  /** Messages are numbered in order from 1, and their deadlines fit 64 bits. */
  ghost predicate Stream(rule: Rule, msgs: seq<Message>) {
    && (forall i :: 0 <= i < |msgs| ==> msgs[i].counter > 0 && InRange(ChainOf(rule), msgs[i]))
    && Increasing(msgs)
  }

  function Seen(msgs: seq<Message>): set<Message> {
    set m | m in msgs
  }

  function LastCounter(msgs: seq<Message>): nat {
    if msgs == [] then 0 else msgs[|msgs| - 1].counter
  }

  lemma InitIdle(p: Program, rule: Rule)
    requires WellPosed(p, rule) && ChainProgram(p, ChainOf(rule))
    ensures Idle(p, rule, InitEngine(p), {}, 0, 0, {})
  {
    var ch, st := ChainOf(rule), InitEngine(p);
    var e0 := ch.events[0];
    assert p.machine.states[INIT].out == [Transition(e0, CreateInstance, Place(|ch.events|, 1))];
    InitLists(p, ch);
    MatchedIs(p.machine, ch, st.fsms[BOOT], []);
    forall i | 0 <= i < |st.byId| ensures FamilyOk(st, i) {}
    forall k | 0 <= k < |st.byEvent| ensures ListOk(ch, st, k) {
      assert st.byEvent[k] == if k == e0 then [Node(0, 0, 0, BOOT)] else [];
      if k == e0 { assert FsmsOf(st.byEvent[k])[0] == BOOT; }
    }
    assert Inv(p, ch, st, {}, 0, 0);
  }

  lemma InitLists(p: Program, ch: Chain)
    requires ChainProgram(p, ch)
    ensures var st := InitEngine(p);
            && st.fsms == map[BOOT := NewFsm(p.machine)]
            && st.byEvent == seq(p.machine.size, _ => [])[ch.events[0] := [Node(0, 0, 0, BOOT)]]
            && st.nextRef == 1 && st.lastCounter == 0 && st.lastTimestamp == 0
            && st.byId == seq(p.maxInstances, i => if i == 0 then [BOOT] else [])
  {
    var st0 := EngineState(map[BOOT := NewFsm(p.machine)], 1, seq(p.machine.size, _ => []), 0,
                      seq(p.maxInstances, i => if i == 0 then [BOOT] else []), 0,
                      EmptyTrace(p.machine.size), multiset{}, 0, 0);
    var e0 := ch.events[0];
    assert [Node(0, 0, 0, BOOT)] + st0.byEvent[e0] == [Node(0, 0, 0, BOOT)];
    var st1 := st0.(byEvent := st0.byEvent[e0 := [Node(0, 0, 0, BOOT)]], nextAddr := 1);
    assert Expect(p, st0, BOOT, false, 0, 0) == Expect(p, st1, BOOT, false, 0, 1) == st1;
  }

  function LastStamp(msgs: seq<Message>): nat {
    if msgs == [] then 0 else msgs[|msgs| - 1].timestamp
  }

  /** The message that started the family of this alarm. */
  function Starter(rule: Rule, a: Alarm): nat {
    var e := FirstOf(Root(rule));
    if e < |a.trace| && a.trace[e].Some? then a.trace[e].value.counter else 0
  }

  function Starters(rule: Rule, alarms: seq<Alarm>): set<nat> {
    set a | a in alarms :: Starter(rule, a)
  }

  ghost predicate AlarmSound(p: Program, rule: Rule, msgs: seq<Message>, a: Alarm) {
    && ChainShape(ChainOf(rule)) && a.at < |msgs| && a.verdict != Unknown
    && Sound(p, rule, a.verdict, a.trace, msgs[a.at], Seen(msgs[..a.at + 1]))
  }

  ghost predicate OneEach(rule: Rule, alarms: seq<Alarm>) {
    forall i, j :: 0 <= i < j < |alarms| ==> Starter(rule, alarms[i]) != Starter(rule, alarms[j])
  }

  lemma StreamPrefix(rule: Rule, msgs: seq<Message>)
    requires Stream(rule, msgs) && msgs != []
    ensures Stream(rule, msgs[..|msgs| - 1]) && LastCounter(msgs[..|msgs| - 1]) < LastCounter(msgs)
    ensures Seen(msgs) == Seen(msgs[..|msgs| - 1]) + {msgs[|msgs| - 1]}
  {
    assert msgs == msgs[..|msgs| - 1] + [msgs[|msgs| - 1]];
  }

  lemma {:induction false} SeenSize(msgs: seq<Message>)
    ensures |Seen(msgs)| <= |msgs|
  {
    if msgs == [] { assert Seen(msgs) == {}; }
    else {
      SeenSize(msgs[..|msgs| - 1]);
      assert msgs == msgs[..|msgs| - 1] + [msgs[|msgs| - 1]];
      assert Seen(msgs) == Seen(msgs[..|msgs| - 1]) + {msgs[|msgs| - 1]};
    }
  }

  ghost predicate RunOk(p: Program, rule: Rule, msgs: seq<Message>, r: RunState) {
    && (r.Stopped? ==> r.halted && p.maxInstances <= |msgs|)
    && (r.Running? ==>
        Idle(p, rule, r.engine, Seen(msgs), LastCounter(msgs), LastStamp(msgs), Starters(rule, r.alarms)))
    && (forall a :: a in r.alarms ==> AlarmSound(p, rule, msgs, a))
    && OneEach(rule, r.alarms)
  }

  /**
    * Soundness of whole runs. For every THEN rule, every interpretation of its guards and every stream of messages:
    * the engine never follows a dangling pointer; it stops only for want of a place, and not before there are as many
    * messages as places; every verdict is sound; and each message that starts a family leads to at most one verdict.
    */
  lemma {:induction false} RunSound(p: Program, rule: Rule, msgs: seq<Message>)
    requires WellPosed(p, rule) && Stream(rule, msgs) && Roomy(p, |msgs|)
    ensures ChainProgram(p, ChainOf(rule))
    ensures RunOk(p, rule, msgs, Run(p, msgs))
    decreases |msgs|
  {
    WellPosedChain(p, rule);
    if msgs == [] {
      InitIdle(p, rule);
    } else {
      var k := |msgs| - 1;
      StreamPrefix(rule, msgs);
      RunSound(p, rule, msgs[..k]);
      hide RunOk, WellPosed, Stream, ChainProgram;
      FeedOk(p, rule, msgs, Run(p, msgs[..k]));
    }
  }

  /** Alarms stay sound when a message is added. */
  lemma AlarmsStay(p: Program, rule: Rule, msgs: seq<Message>, alarms: seq<Alarm>)
    requires msgs != [] && forall a :: a in alarms ==> AlarmSound(p, rule, msgs[..|msgs| - 1], a)
    ensures forall a :: a in alarms ==> AlarmSound(p, rule, msgs, a)
  {
    hide Sound;
    forall a | a in alarms ensures AlarmSound(p, rule, msgs, a) {
      assert AlarmSound(p, rule, msgs[..|msgs| - 1], a);
      assert msgs[..|msgs| - 1][..a.at + 1] == msgs[..a.at + 1];
    }
  }

  lemma FeedOk(p: Program, rule: Rule, msgs: seq<Message>, r: RunState)
    requires msgs != [] && Stream(rule, msgs) && ChainProgram(p, ChainOf(rule)) && Roomy(p, |msgs|)
    requires r.Running? ==> Sized(p, r.engine)
    requires RunOk(p, rule, msgs[..|msgs| - 1], r)
    ensures RunOk(p, rule, msgs, Feed(p, r, |msgs| - 1, msgs[|msgs| - 1]))
  {
    hide Inv, AlarmSound, Origins, Unsettled, Settled, Deliver, Idle;
    var k := |msgs| - 1;
    AlarmsStay(p, rule, msgs, r.alarms);
    if r.Running? {
      StreamPrefix(rule, msgs);
      SeenSize(msgs[..k]);
      DeliverKeeps(p, rule, r.engine, Seen(msgs[..k]), LastCounter(msgs[..k]), LastStamp(msgs[..k]), msgs[k],
                   Starters(rule, r.alarms));
      var s := Deliver(p, r.engine, msgs[k]);
      if s.Done? && s.verdict != Unknown {
        AlarmAdded(p, rule, msgs, r.alarms, s);
      }
    }
  }

  lemma AlarmAdded(p: Program, rule: Rule, msgs: seq<Message>, alarms: seq<Alarm>, s: Step)
    requires msgs != [] && s.Done? && s.verdict != Unknown && OneEach(rule, alarms)
    requires ChainShape(ChainOf(rule))
    requires Settled(p, rule, s.engine, s.verdict, msgs[|msgs| - 1], Seen(msgs), Starters(rule, alarms))
    ensures var a := Alarm(|msgs| - 1, s.verdict, s.engine.stored);
            && AlarmSound(p, rule, msgs, a) && OneEach(rule, alarms + [a])
            && Starters(rule, alarms + [a])
                == Starters(rule, alarms) + {s.engine.stored[ChainOf(rule).events[0]].value.counter}
  {
    var a := Alarm(|msgs| - 1, s.verdict, s.engine.stored);
    assert msgs[..a.at + 1] == msgs;
    assert FirstOf(Root(rule)) == ChainOf(rule).events[0];
    assert Starter(rule, a) == s.engine.stored[ChainOf(rule).events[0]].value.counter;
    forall i | 0 <= i < |alarms| ensures Starter(rule, alarms[i]) != Starter(rule, a) {
      assert alarms[i] in alarms;
    }
    var more := alarms + [a];
    forall x ensures x in Starters(rule, more) <==> x in Starters(rule, alarms) || x == Starter(rule, a) {
      if x == Starter(rule, a) { assert a in more; }
      if x in Starters(rule, alarms) {
        var b :| b in alarms && Starter(rule, b) == x;
        assert b in more;
      }
    }
  }

  /** After every message that brings no verdict, no instance has outlived its deadline unnoticed. */
  lemma {:induction false} RunInTime(p: Program, rule: Rule, msgs: seq<Message>)
    requires WellPosed(p, rule) && Stream(rule, msgs) && msgs != [] && Roomy(p, |msgs|)
    ensures ChainProgram(p, ChainOf(rule))
    ensures var before, after := Run(p, msgs[..|msgs| - 1]), Run(p, msgs);
            after.Running? && after.alarms == before.alarms ==> AllInTime(after.engine, LastStamp(msgs))
  {
    var k := |msgs| - 1;
    StreamPrefix(rule, msgs);
    RunSound(p, rule, msgs[..k]);
    var r := Run(p, msgs[..k]);
    SeenSize(msgs[..k]);
    hide Inv, Sound, Origins, Unsettled, Settled, Deliver, InTime;
    if r.Running? {
      DeliverKeeps(p, rule, r.engine, Seen(msgs[..k]), LastCounter(msgs[..k]), LastStamp(msgs[..k]), msgs[k],
                   Starters(rule, r.alarms));
    }
  }

  /** What can be run at all. */
  ghost predicate Runnable(p: Program) {
    ValidMachine(p.machine) && |p.masks| == p.machine.size && p.maxInstances > 0
  }

  /** Alarms are never taken back, and a run that has stopped stays so. */
  lemma {:induction false} AlarmsGrow(p: Program, msgs: seq<Message>, k: nat)
    requires Runnable(p) && k <= |msgs|
    ensures Run(p, msgs[..k]).alarms <= Run(p, msgs).alarms
    ensures Run(p, msgs).Running? ==> Run(p, msgs[..k]).Running?
    decreases |msgs|
  {
    hide Deliver, InitEngine;
    if k < |msgs| {
      var last := |msgs| - 1;
      AlarmsGrow(p, msgs[..last], k);
      assert msgs[..last][..k] == msgs[..k];
      assert Run(p, msgs[..last]).alarms <= Feed(p, Run(p, msgs[..last]), last, msgs[last]).alarms;
    } else {
      assert msgs[..k] == msgs;
    }
  }

  /** Even when the second sweep is due, it finds nothing to do: every run would be the same without it. */
  lemma {:induction false} SweepAddsNothing(p: Program, rule: Rule, msgs: seq<Message>)
    requires WellPosed(p, rule) && Stream(rule, msgs) && msgs != [] && Roomy(p, |msgs|)
    ensures ChainProgram(p, ChainOf(rule))
    ensures var r, msg := Run(p, msgs[..|msgs| - 1]), msgs[|msgs| - 1];
            r.Running? ==> SweepIdle(p, r.engine, msg)
  {
    var k := |msgs| - 1;
    StreamPrefix(rule, msgs);
    RunSound(p, rule, msgs[..k]);
    var r := Run(p, msgs[..k]);
    SeenSize(msgs[..k]);
    hide Inv, Sound, Origins, Unsettled, Settled, SweepIdle;
    if r.Running? {
      ProcessKeeps(p, rule, r.engine, Seen(msgs[..k]), LastCounter(msgs[..k]), LastStamp(msgs[..k]), msgs[k],
                   Starters(rule, r.alarms));
    }
  }
}
