/** Families and verdicts: one family per initiating message, at most one verdict per family, and only sound ones. */
module EngineOrigins {
  import opened Wrappers
  import opened Rules
  import opened Compiler
  import opened ThenChain
  import opened Messages
  import opened FsmRuntime
  import opened ChainSteps
  import opened RuleMeaning
  import opened Engine
  import opened EngineInvariant
  import opened EngineMoves
  import opened EngineStep
  import opened EngineVerdict

  /** The messages in `settled` have led to a verdict, all of them before message c. */
  ghost predicate Traced(ch: Chain, st: EngineState, c: nat, settled: set<nat>)
    requires ChainShape(ch)
  {
    && Origins(ch, st) && BootFresh(ch, st, c) && Unsettled(ch, st, settled)
    && forall d :: d in settled ==> d < c
  }

  /** Every instance of `u` is one of `st`, up to its event number. */
  ghost predicate SameInstances(st: EngineState, u: EngineState) {
    u.fsms.Keys <= st.fsms.Keys && forall r :: r in u.fsms ==> SameButEvent(st.fsms[r], u.fsms[r])
  }

  lemma OriginsShrink(ch: Chain, st: EngineState, u: EngineState, settled: set<nat>)
    requires Origins(ch, st) && Unsettled(ch, st, settled) && SameInstances(st, u)
    ensures Origins(ch, u) && Unsettled(ch, u, settled)
  {
    forall r | r in u.fsms ensures First(ch, u.fsms[r]) == First(ch, st.fsms[r]) {
      SameMatched(ch, st.fsms[r], u.fsms[r]);
    }
  }

  /** The bootstrap's nodes of `u` are among those of `st`, or have looked at message c. */
  ghost predicate BootNodes(ch: Chain, st: EngineState, u: EngineState, c: nat)
    requires ChainShape(ch)
  {
    ch.events[0] < |st.byEvent| && ch.events[0] < |u.byEvent|
    && forall n :: n in u.byEvent[ch.events[0]] && n.fsm == BOOT && n.counter != c ==> n in st.byEvent[ch.events[0]]
  }

  lemma BootFreshShrink(ch: Chain, st: EngineState, u: EngineState, c: nat)
    requires ChainShape(ch) && BootFresh(ch, st, c) && SameInstances(st, u) && BootNodes(ch, st, u, c)
    ensures BootFresh(ch, u, c)
  {
    forall r | r in u.fsms ensures First(ch, u.fsms[r]) == First(ch, st.fsms[r]) {
      SameMatched(ch, st.fsms[r], u.fsms[r]);
    }
  }

  /** `u` has one more instance, or one that has moved on; it carries the origin and the identifier of `s`. */
  ghost predicate OneMore(ch: Chain, st: EngineState, u: EngineState, r: nat, s: nat) {
    && r in u.fsms && s in st.fsms && r != BOOT && s != BOOT
    && u.fsms.Keys == st.fsms.Keys + {r} && (r in st.fsms ==> r == s)
    && (forall x :: x in st.fsms && x != r ==> SameButEvent(st.fsms[x], u.fsms[x]))
    && u.fsms[r].id == st.fsms[s].id && First(ch, u.fsms[r]) == First(ch, st.fsms[s])
  }

  lemma OneMoreTraced(ch: Chain, st: EngineState, u: EngineState, r: nat, s: nat, c: nat, settled: set<nat>)
    requires ChainShape(ch) && Traced(ch, st, c, settled) && OneMore(ch, st, u, r, s) && BootNodes(ch, st, u, c)
    ensures Traced(ch, u, c, settled)
  {
    forall x | x in u.fsms && x != r
      ensures x in st.fsms && First(ch, u.fsms[x]) == First(ch, st.fsms[x]) && u.fsms[x].id == st.fsms[x].id {
      SameMatched(ch, st.fsms[x], u.fsms[x]);
    }
    forall x, y | x in u.fsms && y in u.fsms && x != BOOT && y != BOOT
      ensures u.fsms[x].id == u.fsms[y].id <==> First(ch, u.fsms[x]).counter == First(ch, u.fsms[y]).counter
    {
      var x1, y1 := if x == r then s else x, if y == r then s else y;
      assert x1 in st.fsms && y1 in st.fsms;
    }
  }

  /** A new family: an identifier and an origin that no live instance has. */
  lemma NewFamilyTraced(ch: Chain, st: EngineState, u: EngineState, r: nat, c: nat, settled: set<nat>)
    requires ChainShape(ch) && Traced(ch, st, c, settled)
    requires r !in st.fsms && r != BOOT && u.fsms.Keys == st.fsms.Keys + {r}
    requires forall x :: x in st.fsms ==> SameButEvent(st.fsms[x], u.fsms[x])
    requires First(ch, u.fsms[r]).counter == c && forall x :: x in st.fsms ==> st.fsms[x].id != u.fsms[r].id
    requires forall x :: x in st.fsms && x != BOOT ==> First(ch, st.fsms[x]).counter < c
    requires ch.events[0] < |u.byEvent| && forall n :: n in u.byEvent[ch.events[0]] && n.fsm == BOOT ==> n.counter == c
    ensures Traced(ch, u, c, settled)
  {
    forall x | x in st.fsms ensures First(ch, u.fsms[x]) == First(ch, st.fsms[x]) && u.fsms[x].id == st.fsms[x].id {
      SameMatched(ch, st.fsms[x], u.fsms[x]);
    }
  }

  lemma ForwardBootNodes(ch: Chain, st: EngineState, u: EngineState, e: nat, pos: nat, c: nat)
    requires ChainShape(ch) && Forward(st, u, e, pos, c) && ch.events[0] < |st.byEvent|
    ensures BootNodes(ch, st, u, c)
  {
    forall n | n in u.byEvent[ch.events[0]] && n.counter != c ensures n in st.byEvent[ch.events[0]] {
      if e == ch.events[0] {
        assert n in RemoveAt(st.byEvent[e], pos);
      }
    }
  }

  // ---- Verdicts ----

  /** The first n events of the chain have their messages, and the others have none. */
  ghost predicate StoppedAt(ch: Chain, tr: Trace, n: nat) {
    forall i :: 0 <= i < |ch.events| ==> ch.events[i] < |tr| && (tr[ch.events[i]].Some? <==> i < n)
  }

  /** Operator j is in force for event n, and too old by now. */
  ghost predicate RunOut(ch: Chain, tr: Trace, n: nat, j: nat, now: nat)
    requires ChainShape(ch) && 0 < n < |ch.events| && StoppedAt(ch, tr, n)
  {
    Since(ch, n - 1) <= j < n && tr[ch.events[j]].value.timestamp + ch.delays[j].timeMax < now
  }

  /** The trace lacks the next event of the chain, and an operator that this event has to respect has run out. */
  ghost predicate Overdue(ch: Chain, tr: Trace, now: nat)
    requires ChainShape(ch)
  {
    exists n, j :: 0 < n < |ch.events| && StoppedAt(ch, tr, n) && RunOut(ch, tr, n, j, now)
  }

  lemma {:induction false} HeldLeaves(guard: Guard, t: Tree, tr: Trace, before: seq<nat>, k: nat)
    requires Holds(guard, t, tr, before) && k < |Leaves(t)|
    ensures Leaves(t)[k] < |tr| && tr[Leaves(t)[k]].Some?
    decreases t
  {
    if t.Oper? {
      var n := |Leaves(t.context)|;
      if k < n { HeldLeaves(guard, t.context, tr, before, k); }
      else { HeldLeaves(guard, t.trigger, tr, before + Leaves(t.context), k - n); }
    }
  }

  /** A trace that is overdue does not satisfy the rule. */
  lemma OverdueFails(guard: Guard, rule: Rule, tr: Trace, now: nat)
    requires ChainShape(ChainOf(rule)) && Overdue(ChainOf(rule), tr, now)
    ensures !Holds(guard, Root(rule), tr, [])
  {
    var ch := ChainOf(rule);
    var n, j :| 0 < n < |ch.events| && StoppedAt(ch, tr, n) && RunOut(ch, tr, n, j, now);
    if Holds(guard, Root(rule), tr, []) {
      HeldLeaves(guard, Root(rule), tr, [], n);
    }
  }

  /**
    * What a verdict means. Respected and detected: the trace satisfies the whole rule, and this message completed it.
    * Not respected: the trace satisfies the context of the rule and not the rule, because its next event is overdue.
    */
  ghost predicate Sound(p: Program, rule: Rule, v: Verdict, tr: Trace, msg: Message, seen: set<Message>)
    requires ChainShape(ChainOf(rule))
  {
    && |tr| == p.machine.size
    && (forall e :: 0 <= e < |tr| && tr[e].Some? ==> tr[e].value in seen)
    && (v == Detected || v == Respected ==>
          Holds(p.machine.guard, Root(rule), tr, []) && LastOf(Root(rule)) < |tr|
              && tr[LastOf(Root(rule))] == Some(msg))
    && (v == NotRespected ==> Holds(p.machine.guard, rule.context, tr, []) && Overdue(ChainOf(rule), tr, msg.timestamp))
  }

  /** The upper end of the window is set by an operator still in force. */
  lemma {:induction false} WinMaxAttained(ch: Chain, ms: seq<Message>) returns (j: nat)
    requires ChainShape(ch) && 0 < |ms| < |ch.events|
    ensures Since(ch, |ms| - 1) <= j < |ms| && WinMax(ch, ms) == AddU64(ch.delays[j].timeMax, ms[j].timestamp)
    decreases |ms|
  {
    j := |ms| - 1;
    if j > 0 && ch.acts[j] != ResetTimer && WinMax(ch, ms) != AddU64(ch.delays[j].timeMax, ms[j].timestamp) {
      j := WinMaxAttained(ch, ms[..j]);
    }
  }

  lemma SlotsSeen(m: Machine, ch: Chain, ms: seq<Message>, seen: set<Message>, e: nat)
    requires ChainMachine(m, ch) && |ms| <= |ch.events| && e < m.size
    requires forall j :: 0 <= j < |ms| ==> ms[j] in seen
    ensures var tr := TraceOf(m.size, ch.events, ms); tr[e].Some? ==> tr[e].value in seen
  {
    TraceOfAt(m.size, ch.events, ms, e);
    if e in ch.events[..|ms|] {
      var j :| 0 <= j < |ms| && ch.events[j] == e;
    }
  }

  lemma PassSound(p: Program, rule: Rule, ms: seq<Message>, tr: Trace, msg: Message, seen: set<Message>)
    requires ChainProgram(p, ChainOf(rule)) && |ms| == |ChainOf(rule).events|
    requires Accepted(p.machine, ChainOf(rule), ms) && Increasing(ms)
    requires tr == TraceOf(p.machine.size, ChainOf(rule).events, ms) && ms[|ms| - 1] == msg
    requires forall j :: 0 <= j < |ms| ==> ms[j] in seen && InRange(ChainOf(rule), ms[j])
    ensures Sound(p, rule, Detected, tr, msg, seen) && Sound(p, rule, Respected, tr, msg, seen)
    ensures tr[ChainOf(rule).events[0]] == Some(ms[0])
  {
    var ch := ChainOf(rule);
    TraceOfShows(p.machine, ch, ms);
    AcceptedIff(p.machine, rule, ms, tr);
    forall e | 0 <= e < |tr| && tr[e].Some? ensures tr[e].value in seen {
      SlotsSeen(p.machine, ch, ms, seen, e);
    }
    assert tr[ch.events[|ms| - 1]] == Some(ms[|ms| - 1]);
  }

  /** A deadline is noticed on the timeout list first, so the message that reveals it goes into the timeout's slot. */
  lemma LateSound(p: Program, rule: Rule, ms: seq<Message>, tr: Trace, msg: Message, seen: set<Message>)
    requires ChainProgram(p, ChainOf(rule)) && 0 < |ms| < |ChainOf(rule).events|
    requires Accepted(p.machine, ChainOf(rule), ms) && Increasing(ms)
    requires tr == TraceOf(p.machine.size, ChainOf(rule).events, ms)[TIMEOUT := Some(msg)]
    requires forall j :: 0 <= j < |ms| ==> ms[j] in seen && InRange(ChainOf(rule), ms[j])
    requires msg in seen && WinMax(ChainOf(rule), ms) < msg.timestamp && ChainOf(rule).lates[|ms| - 1] == FAIL
    ensures Sound(p, rule, NotRespected, tr, msg, seen)
    ensures tr[ChainOf(rule).events[0]] == Some(ms[0])
  {
    var ch := ChainOf(rule);
    LateShows(p.machine, ch, ms, tr, msg);
    assert Holds(p.machine.guard, rule.context, tr, []) by {
      LatesOfRule(rule, |ms| - 1);
      ContextHolds(p.machine, rule, ms, tr);
    }
    forall i | 0 <= i < |tr| && tr[i].Some? ensures tr[i].value in seen {
      SlotsSeen(p.machine, ch, ms, seen, i);
    }
    var j := WinMaxAttained(ch, ms);
    assert ms[j].timestamp + ch.delays[j].timeMax < msg.timestamp by { InRangeDeadline(ch, ms[j], j); }
    assert RunOut(ch, tr, |ms|, j, msg.timestamp);
  }

  lemma InRangeDeadline(ch: Chain, msg: Message, j: nat)
    requires InRange(ch, msg) && j < |ch.delays|
    ensures AddU64(ch.delays[j].timeMax, msg.timestamp) == msg.timestamp + ch.delays[j].timeMax
  {
    assert msg.timestamp + ch.delays[j].timeMax < TWO64;
  }

  lemma LateShows(m: Machine, ch: Chain, ms: seq<Message>, tr: Trace, msg: Message)
    requires ChainMachine(m, ch) && |ms| < |ch.events| && tr == TraceOf(m.size, ch.events, ms)[TIMEOUT := Some(msg)]
    ensures Shows(m, ch, ms, tr) && StoppedAt(ch, tr, |ms|)
  {
    TraceOfShows(m, ch, ms);
    forall i | |ms| <= i < |ch.events| ensures tr[ch.events[i]] == None {
      TraceOfAt(m.size, ch.events, ms, ch.events[i]);
    }
  }

  // ---- One node ----

  /** A sound verdict on a message that had none before; its family is gone and stays settled. */
  ghost predicate Settled(p: Program, rule: Rule, st: EngineState, v: Verdict, msg: Message, seen: set<Message>,
                          settled: set<nat>)
    requires ChainShape(ChainOf(rule))
  {
    var ch := ChainOf(rule);
    && Sound(p, rule, v, st.stored, msg, seen)
    && ch.events[0] < |st.stored| && st.stored[ch.events[0]].Some?
    && var first := st.stored[ch.events[0]].value.counter;
       first !in settled && first <= msg.counter && Origins(ch, st) && Unsettled(ch, st, settled + {first})
  }

  ghost predicate TracedStep(p: Program, rule: Rule, s: Step, msg: Message, seen: set<Message>, settled: set<nat>)
    requires ChainShape(ChainOf(rule))
  {
    s.Done? ==> if s.verdict == Unknown then Traced(ChainOf(rule), s.engine, msg.counter, settled)
                else Settled(p, rule, s.engine, s.verdict, msg, seen, settled)
  }

  /** All nodes of this list have looked at message c. */
  ghost predicate Visited(list: seq<Node>, c: nat) {
    forall n :: n in list ==> n.counter == c
  }

  /** Every live instance but the bootstrap is in time. */
  ghost predicate AllInTime(st: EngineState, now: nat) {
    forall r :: r in st.fsms && r != BOOT ==> InTime(st.fsms[r], now)
  }

  /** Once every node of the timeout list has looked at the message, no deadline is left unnoticed. */
  lemma DeadlinesKept(p: Program, ch: Chain, st: EngineState, seen: set<Message>, c: nat, now: nat)
    requires Inv(p, ch, st, seen, c, now) && Visited(st.byEvent[TIMEOUT], c)
    ensures AllInTime(st, now)
  {
    forall r | r in st.fsms && r != BOOT ensures InTime(st.fsms[r], now) {
      assert Live(p, ch, st.fsms[r], seen, c);
      assert ListOk(ch, st, TIMEOUT);
      var list := st.byEvent[TIMEOUT];
      var i :| 0 <= i < |list| && FsmsOf(list)[i] == r;
      assert list[i] in list;
      assert NodeFresh(ch, st, TIMEOUT, st.byEvent[TIMEOUT][i], c, now);
    }
  }

  /** The timeout list comes first: any other list is walked when all its nodes have looked at the message. */
  ghost predicate Ready(p: Program, rule: Rule, st: EngineState, seen: set<Message>, e: nat, pos: nat, msg: Message,
                        settled: set<nat>)
  {
    && ChainShape(ChainOf(rule))
    && At(p, ChainOf(rule), st, seen, e, pos, msg) && (forall m :: m in seen ==> InRange(ChainOf(rule), m))
    && (e != TIMEOUT ==> Visited(st.byEvent[TIMEOUT], msg.counter))
    && Traced(ChainOf(rule), st, msg.counter, settled)
  }

  lemma StayTraced(ch: Chain, st: EngineState, e: nat, pos: nat, c: nat, f: Fsm, refs: Refs, settled: set<nat>)
    requires ChainShape(ch) && Traced(ch, st, c, settled) && e < |st.byEvent| && pos < |st.byEvent[e]|
    requires st.byEvent[e][pos].fsm in st.fsms && SameButEvent(st.fsms[st.byEvent[e][pos].fsm], f)
    ensures Traced(ch, Touch(st, e, pos, c, f, refs), c, settled)
  {
    var u := Touch(st, e, pos, c, f, refs);
    TouchForward(st, e, pos, c, f, refs);
    ForwardBootNodes(ch, st, u, e, pos, c);
    OriginsShrink(ch, st, u, settled);
    BootFreshShrink(ch, st, u, c);
  }

  /** A sibling shares the origin and the identifier of the instance it was cloned from. */
  lemma SiblingIsOneMore(ch: Chain, st: EngineState, u: EngineState, r: nat, touched: Fsm, g: Fsm)
    requires r in st.fsms && r != BOOT && st.nextRef !in st.fsms && st.nextRef != BOOT
    requires u.fsms == st.fsms[r := touched][st.nextRef := g] && SameButEvent(st.fsms[r], touched)
    requires g.id == st.fsms[r].id && First(ch, g) == First(ch, st.fsms[r])
    ensures OneMore(ch, st, u, st.nextRef, r)
  {
    hide First;
  }

  lemma ForkTraced(p: Program, rule: Rule, st: EngineState, seen: set<Message>, e: nat, pos: nat, msg: Message,
                   r: nat, f: Fsm, ms: seq<Message>, o: EventOutcome, settled: set<nat>)
    requires Ready(p, rule, st, seen, e, pos, msg, settled)
    requires CallOk(p, ChainOf(rule), st, e, pos, msg, r, f, ms, o, Fork) && ms == MatchedAt(ChainOf(rule), st, r)
    requires e != TIMEOUT && e == ChainOf(rule).events[|ms|] && |ms| + 1 < |ChainOf(rule).events|
    requires ms != [] ==> ms[|ms| - 1].counter < msg.counter
    requires 0 < ChainOf(rule).events[|ms| + 1] < |st.byEvent|
    ensures TracedStep(p, rule,
                       Forked(Touch(st, e, pos, msg.counter, o.fsm, o.refs), r, o.child.value,
                              ChainOf(rule).events[|ms| + 1], msg.counter),
                       msg, seen, settled)
  {
    assert st.nextRef !in st.fsms && st.nextRef != BOOT;
    hide Instances, Families, Lists, Fresh, Traced, Sound, Settled, Forward, First;
    var ch, c := ChainOf(rule), msg.counter;
    var t := Touch(st, e, pos, c, o.fsm, o.refs);
    var next := ch.events[|ms| + 1];
    StayTraced(ch, st, e, pos, c, o.fsm, o.refs, settled);
    TouchForward(st, e, pos, c, o.fsm, o.refs);
    if r != BOOT {
      var g := ForkSibling(p, ch, st, seen, e, pos, msg, r, f, ms, o);
      var u := Joined(t, g, g.id, next, c);
      SameMatched(ch, f, o.fsm);
      JoinForward(st, t, e, pos, g, g.id, next, c);
      ForwardBootNodes(ch, st, u, e, pos, c);
      SiblingIsOneMore(ch, st, u, r, o.fsm, g);
      OneMoreTraced(ch, st, u, st.nextRef, r, c, settled);
    } else if FindPlace(st.byId, st.avail).Some? {
      ForkBootTraced(p, rule, st, seen, e, pos, msg, r, f, ms, o, settled, FindPlace(st.byId, st.avail).value);
    }
  }

  lemma ForkBootTraced(p: Program, rule: Rule, st: EngineState, seen: set<Message>, e: nat, pos: nat, msg: Message,
                       r: nat, f: Fsm, ms: seq<Message>, o: EventOutcome, settled: set<nat>, i: nat)
    requires Ready(p, rule, st, seen, e, pos, msg, settled)
    requires CallOk(p, ChainOf(rule), st, e, pos, msg, r, f, ms, o, Fork) && ms == MatchedAt(ChainOf(rule), st, r)
    requires e != TIMEOUT && e == ChainOf(rule).events[0] && 1 < |ChainOf(rule).events|
    requires r == BOOT && FindPlace(st.byId, st.avail) == Some(i)
    requires 0 < ChainOf(rule).events[1] < |st.byEvent|
    ensures i % TWO16 == i
    ensures var t := Touch(st, e, pos, msg.counter, o.fsm, o.refs).(avail := i);
            Traced(ChainOf(rule), Joined(t, o.child.value, i, ChainOf(rule).events[1], msg.counter), msg.counter,
                   settled)
  {
    hide Families, Fresh, Live, Sound, First, NodeOk;
    var ch, c := ChainOf(rule), msg.counter;
    var t := Touch(st, e, pos, c, o.fsm, o.refs).(avail := i);
    var u := Joined(t, o.child.value, i, ch.events[1], c);
    ForkBoot(p, ch, st, seen, e, pos, msg, r, f, ms, o, i);
    TouchForward(st, e, pos, c, o.fsm, o.refs);
    assert Forward(st, t, e, pos, c);
    JoinForward(st, t, e, pos, o.child.value, i, ch.events[1], c);
    assert ListOk(ch, st, e);
    BootNowVisited(ch, st, u, e, pos, c);
    assert st.byEvent[e][pos] in st.byEvent[ch.events[0]];
    NewFamilyTraced(ch, st, u, st.nextRef, c, settled);
  }

  lemma AdvanceTraced(p: Program, rule: Rule, st: EngineState, seen: set<Message>, e: nat, pos: nat, msg: Message,
                      r: nat, f: Fsm, ms: seq<Message>, o: EventOutcome, settled: set<nat>)
    requires Ready(p, rule, st, seen, e, pos, msg, settled)
    requires CallOk(p, ChainOf(rule), st, e, pos, msg, r, f, ms, o, Advance) && ms == MatchedAt(ChainOf(rule), st, r)
    requires e != TIMEOUT && e == ChainOf(rule).events[|ms|] && |ms| + 1 < |ChainOf(rule).events|
    requires ms != [] ==> ms[|ms| - 1].counter < msg.counter
    requires 0 < ChainOf(rule).events[|ms| + 1] < |st.byEvent|
    ensures Traced(ChainOf(rule), Moved(st, e, pos, o.fsm, ChainOf(rule).events[|ms| + 1], msg.counter, o.refs),
                   msg.counter, settled)
  {
    var ch, c := ChainOf(rule), msg.counter;
    var next := ch.events[|ms| + 1];
    var u := Moved(st, e, pos, o.fsm, next, c, o.refs);
    assert Live(p, ch, f, seen, c);
    BecomesNewcomer(p, ch, f, ms, o.fsm, seen, msg);
    MoveForward(st, e, pos, o.fsm, next, c, o.refs);
    ForwardBootNodes(ch, st, u, e, pos, c);
    OneMoreTraced(ch, st, u, r, r, c, settled);
  }

  lemma DroppedTraced(p: Program, rule: Rule, st: EngineState, seen: set<Message>, e: nat, pos: nat, msg: Message,
                      r: nat, f: Fsm, o: EventOutcome, settled: set<nat>)
    requires Ready(p, rule, st, seen, e, pos, msg, settled)
    requires r == st.byEvent[e][pos].fsm && r in st.fsms && r != BOOT && f == st.fsms[r] && Fits(p.machine, o.fsm)
    requires o.fsm.id == f.id
    ensures Sized(p, Touch(st, e, pos, msg.counter, o.fsm, o.refs))
    ensures Traced(ChainOf(rule), DropInstance(p, Touch(st, e, pos, msg.counter, o.fsm, o.refs), r), msg.counter,
                   settled)
  {
    var ch, c := ChainOf(rule), msg.counter;
    DropInstanceKeeps(p, ch, st, seen, e, pos, msg, o.fsm, o.refs);
    var u := DropInstance(p, Touch(st, e, pos, c, o.fsm, o.refs), r);
    DropForward(ch, st, u, e, pos, c);
    ForwardBootNodes(ch, st, u, e, pos, c);
    OriginsShrink(ch, st, u, settled);
    BootFreshShrink(ch, st, u, c);
  }

  /** Dropping the family of `f` settles the message that started it. */
  lemma FamilySettled(p: Program, rule: Rule, st: EngineState, seen: set<Message>, e: nat, pos: nat, msg: Message,
                      r: nat, f: Fsm, ms: seq<Message>, o: EventOutcome, v: Verdict, settled: set<nat>)
    requires Ready(p, rule, st, seen, e, pos, msg, settled)
    requires r == st.byEvent[e][pos].fsm && r in st.fsms && r != BOOT && f == st.fsms[r] && Fits(p.machine, o.fsm)
    requires o.fsm.id == f.id
    requires ms == Matched(ChainOf(rule), f) && Sound(p, rule, v, o.fsm.trace, msg, seen)
    requires ms != [] && ChainOf(rule).events[0] < |o.fsm.trace| && o.fsm.trace[ChainOf(rule).events[0]] == Some(ms[0])
    ensures Sized(p, Touch(st, e, pos, msg.counter, o.fsm, o.refs))
    ensures Settled(p, rule, DropFamily(p, StoreTrace(p, Touch(st, e, pos, msg.counter, o.fsm, o.refs), r), r), v, msg,
                    seen, settled)
  {
    var ch := ChainOf(rule);
    assert Live(p, ch, f, seen, msg.counter);
    DropFamilyKeeps(p, ch, st, seen, e, pos, msg, o.fsm, o.refs);
    var u := DropFamily(p, StoreTrace(p, Touch(st, e, pos, msg.counter, o.fsm, o.refs), r), r);
    OriginsShrink(ch, st, u, settled);
    assert First(ch, f) == ms[0];
    forall x | x in u.fsms && x != BOOT ensures First(ch, u.fsms[x]).counter != ms[0].counter {
      assert st.fsms[x].id != f.id;
    }
  }
}
