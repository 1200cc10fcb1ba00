/**
  * The process exits when the bootstrap has to start a family and finds no free place. The search begins at the place
  * that the engine remembers, so this can happen although places below are free. This module says when it does.
  */
module EngineHalts {
  import opened Wrappers
  import opened Rules
  import opened Compiler
  import opened ThenChain
  import opened Messages
  import opened FsmRuntime
  import opened RuleMeaning
  import opened Engine
  import opened EngineInvariant
  import opened EngineMoves
  import opened EngineStep
  import opened EngineOrigins
  import opened EngineRun
  import opened EngineComplete
  import opened EngineHerd
  import opened EngineIdentifiers

  /** Every place from the remembered one on is taken. */
  ghost predicate NoPlaceLeft(st: EngineState) {
    forall i :: st.avail <= i < |st.byId| ==> st.byId[i] != []
  }

  // ---- Large tables ----

  /** Place 2^16 is never taken, because identifiers are truncated, and the search never begins behind it. */
  ghost predicate Low(st: EngineState) {
    && TWO16 < |st.byId| && st.avail <= TWO16 && st.byId[TWO16] == []
    && forall r :: r in st.fsms ==> st.fsms[r].id < TWO16
  }

  ghost predicate StepLow(s: Step) {
    !s.Halted? && (s.Done? ==> Low(s.engine))
  }

  lemma FinishLow(p: Program, st: EngineState, r: nat, isNew: bool, res: Result, msg: Message)
    requires Sized(p, st) && Low(st) && r in st.fsms
    ensures StepLow(Finish(p, st, r, isNew, res, msg))
  {
    var t := StoreTrace(p, st, r);
    DropFamilyShape(p, t, r);
    hide Expect, DropFamily, Without, StoreSlots;
  }

  lemma TakeInLow(p: Program, st: EngineState, r: nat, child: Fsm, res: Result, msg: Message)
    requires Sized(p, st) && Low(st) && Fits(p.machine, child) && child.id < TWO16
    ensures StepLow(TakeIn(p, st, r, child, res, msg))
  {
    hide Finish;
    if r == BOOT {
      PlaceUpTo(st.byId, st.avail, TWO16);
      var i := FindPlace(st.byId, st.avail).value;
      FinishLow(p, Adopt(p, st.(avail := i), child, i % TWO16), st.nextRef, true, res, msg);
    } else {
      FinishLow(p, Adopt(p, st, child, child.id), st.nextRef, true, res, msg);
    }
  }

  lemma {:induction false} PlaceUpTo(byId: seq<seq<nat>>, i: nat, b: nat)
    requires i <= b < |byId| && byId[b] == []
    ensures FindPlace(byId, i).Some? && FindPlace(byId, i).value <= b
    decreases b - i
  {
    if byId[i] != [] { PlaceUpTo(byId, i + 1, b); }
  }

  lemma NodeLow(p: Program, st: EngineState, e: nat, pos: nat, msg: Message)
    requires Sized(p, st) && Low(st) && e < |st.byEvent| && pos < |st.byEvent[e]|
    ensures StepLow(ProcessNode(p, st, e, pos, msg))
  {
    hide HandleEvent, Finish, TakeIn;
    var node := st.byEvent[e][pos];
    if node.fsm in st.fsms {
      var list := st.byEvent[e][pos := node.(counter := msg.counter)];
      var o := HandleEvent(p.machine, st.refs, st.fsms[node.fsm], node.index, msg);
      var st1 := st.(byEvent := st.byEvent[e := list], fsms := st.fsms[node.fsm := o.fsm], refs := o.refs);
      if o.child.Some? {
        TakeInLow(p, st1, node.fsm, o.child.value, o.res, msg);
      } else {
        var st2 := if o.res == Changed then st1.(byEvent := st1.byEvent[e := RemoveAt(list, pos)]) else st1;
        FinishLow(p, st2, node.fsm, false, o.res, msg);
      }
    }
  }

  lemma {:induction false} ListLow(p: Program, st: EngineState, e: nat, rest: seq<nat>, msg: Message)
    requires Sized(p, st) && Low(st) && e < |st.byEvent|
    ensures StepLow(ProcessList(p, st, e, rest, msg))
    decreases |rest|
  {
    hide ProcessNode;
    if rest != [] && Engine.Reaches(st.byEvent[e], rest) {
      var pos := |st.byEvent[e]| - |rest|;
      if st.byEvent[e][pos].counter == msg.counter {
        ListLow(p, st, e, rest[1..], msg);
      } else {
        NodeLow(p, st, e, pos, msg);
        var s := ProcessNode(p, st, e, pos, msg);
        if s.Done? && s.verdict == Unknown { ListLow(p, s.engine, e, rest[1..], msg); }
      }
    }
  }

  lemma {:induction false} EventsLow(p: Program, st: EngineState, e: nat, msg: Message)
    requires Sized(p, st) && Low(st)
    ensures StepLow(ProcessEvents(p, st, e, msg))
    decreases |p.masks| - e
  {
    hide ProcessList;
    if e < |p.masks| {
      if !(p.masks[e] <= msg.mask) {
        EventsLow(p, st, e + 1, msg);
      } else {
        ListLow(p, st, e, Addresses(st.byEvent[e]), msg);
        var s := ProcessList(p, st, e, Addresses(st.byEvent[e]), msg);
        if s.Done? && s.verdict == Unknown { EventsLow(p, s.engine, e + 1, msg); }
      }
    }
  }

  lemma DeliverLow(p: Program, st: EngineState, msg: Message)
    requires Sized(p, st) && Low(st)
    ensures StepLow(Deliver(p, st, msg))
  {
    hide ProcessList, ProcessEvents;
    var st0 := st.(refs := Retain(st.refs, msg));
    EventsLow(p, st0, 0, msg);
    var s := ProcessEvents(p, st0, 0, msg);
    if s.Done? && s.verdict == Unknown && SweepDue(s.engine, msg) && p.machine.size > 0 {
      var st1 := s.engine.(lastCounter := msg.counter, lastTimestamp := msg.timestamp);
      ListLow(p, st1, TIMEOUT, Addresses(st1.byEvent[TIMEOUT]), msg);
    }
  }

  /** With more than 2^16 places no run of any rule ever halts. */
  lemma {:induction false} LargeNeverHalts(p: Program, msgs: seq<Message>)
    requires Runnable(p) && TWO16 < p.maxInstances
    ensures var r := Run(p, msgs);
            (r.Running? ==> Low(r.engine)) && (r.Stopped? ==> !r.halted)
    decreases |msgs|
  {
    hide Deliver;
    if msgs != [] {
      var k := |msgs| - 1;
      LargeNeverHalts(p, msgs[..k]);
      var r := Run(p, msgs[..k]);
      if r.Running? { DeliverLow(p, r.engine, msgs[k]); }
    }
  }

  // ---- One message ----

  /** The lists of the events e, e + 1, ... before list `stop`, visited as `ProcessEvents` does. */
  function ProcessBelow(p: Program, st: EngineState, e: nat, stop: nat, msg: Message): (s: Step)
    requires Sized(p, st) && stop <= |p.masks|
    ensures s.Done? ==> Sized(p, s.engine)
    decreases stop - e
  {
    if e >= stop then Done(st, Unknown)
    else if !(p.masks[e] <= msg.mask) then ProcessBelow(p, st, e + 1, stop, msg)
    else
      var s := ProcessList(p, st, e, Addresses(st.byEvent[e]), msg);
      if s.Done? && s.verdict == Unknown then ProcessBelow(p, s.engine, e + 1, stop, msg) else s
  }

  lemma {:induction false} SplitAt(p: Program, st: EngineState, e: nat, stop: nat, msg: Message)
    requires Sized(p, st) && e <= stop <= |p.masks|
    ensures var b := ProcessBelow(p, st, e, stop, msg);
            ProcessEvents(p, st, e, msg)
            == if b.Done? && b.verdict == Unknown then ProcessEvents(p, b.engine, stop, msg) else b
    decreases stop - e
  {
    hide ProcessList;
    if e < stop {
      if !(p.masks[e] <= msg.mask) {
        SplitAt(p, st, e + 1, stop, msg);
      } else {
        var s := ProcessList(p, st, e, Addresses(st.byEvent[e]), msg);
        if s.Done? && s.verdict == Unknown { SplitAt(p, s.engine, e + 1, stop, msg); }
      }
    }
  }

  /** Only the list of the first event has a node of the bootstrap. */
  lemma NotBoot(p: Program, ch: Chain, st: EngineState, seen: set<Message>, c: nat, now: nat, e: nat, pos: nat)
    requires Inv(p, ch, st, seen, c, now) && e < |st.byEvent| && pos < |st.byEvent[e]| && e != ch.events[0]
    ensures st.byEvent[e][pos].fsm != BOOT
  {
    assert ListOk(ch, st, e) && NodeOk(ch, st, e, st.byEvent[e][pos]);
  }

  lemma OnlyBootHalts(p: Program, st: EngineState, e: nat, pos: nat, msg: Message)
    requires Sized(p, st) && e < |st.byEvent| && pos < |st.byEvent[e]|
    ensures ProcessNode(p, st, e, pos, msg) == Halted ==> st.byEvent[e][pos].fsm == BOOT
  {
    hide HandleEvent;
  }

  lemma NodeNotHalted(p: Program, rule: Rule, st: EngineState, seen: set<Message>, e: nat, rest: seq<Node>,
                      msg: Message, settled: set<nat>)
    requires Busy(p, rule, st, seen, msg, settled) && Walking(st, e, rest, msg.counter)
    requires rest != [] && e != ChainOf(rule).events[0]
    ensures Sized(p, st) && ProcessNode(p, st, e, |st.byEvent[e]| - |rest|, msg) != Halted
  {
    hide ProcessNode;
    NotBoot(p, ChainOf(rule), st, seen, msg.counter, msg.timestamp, e, |st.byEvent[e]| - |rest|);
    OnlyBootHalts(p, st, e, |st.byEvent[e]| - |rest|, msg);
  }

  /** One node of another list. */
  lemma NodeRuns(p: Program, rule: Rule, st: EngineState, seen: set<Message>, e: nat, rest: seq<Node>,
                 msg: Message, settled: set<nat>)
    requires Busy(p, rule, st, seen, msg, settled) && Walking(st, e, rest, msg.counter)
    requires rest != [] && rest[0].counter != msg.counter && e != ChainOf(rule).events[0]
    ensures Sized(p, st)
    ensures var s := ProcessNode(p, st, e, |st.byEvent[e]| - |rest|, msg);
            && s != Halted
            && (s.Done? && s.verdict == Unknown ==>
                  Busy(p, rule, s.engine, seen, msg, settled) && Walking(s.engine, e, rest[1..], msg.counter))
  {
    NodeNotHalted(p, rule, st, seen, e, rest, msg, settled);
    hide ProcessNode, Inv, Traced, Walking, OthersGrown;
    NodeWalks(p, rule, st, seen, e, rest, msg, settled);
  }

  lemma {:induction false} ListRuns(p: Program, rule: Rule, st: EngineState, seen: set<Message>, e: nat,
                                    rest: seq<Node>, msg: Message, settled: set<nat>)
    requires Busy(p, rule, st, seen, msg, settled) && Walking(st, e, rest, msg.counter) && e != ChainOf(rule).events[0]
    ensures Sized(p, st) && ProcessList(p, st, e, Addresses(rest), msg) != Halted
    decreases |rest|
  {
    assert Sized(p, st) && e < |st.byEvent| && EndsWith(st.byEvent[e], rest);
    if rest == [] {
      assert ProcessList(p, st, e, Addresses(rest), msg) == Done(st, Unknown);
    } else {
      ListStep(p, st, e, rest, msg);
      hide ProcessNode, ProcessList, Busy, Walking, Addresses, EndsWith;
      if rest[0].counter == msg.counter {
        WalkPast(st, e, rest, msg.counter);
        ListRuns(p, rule, st, seen, e, rest[1..], msg, settled);
      } else {
        NodeRuns(p, rule, st, seen, e, rest, msg, settled);
        var s := ProcessNode(p, st, e, |st.byEvent[e]| - |rest|, msg);
        if s.Done? && s.verdict == Unknown { ListRuns(p, rule, s.engine, seen, e, rest[1..], msg, settled); }
      }
    }
  }

  /** The bootstrap's node waits for its turn. */
  ghost predicate BootWaits(p: Program, rule: Rule, st: EngineState, c: nat)
    requires ChainProgram(p, ChainOf(rule))
  {
    Waits(p, ChainOf(rule), st, BOOT, [], ChainOf(rule).events[0], c)
  }

  ghost function BootGoal(p: Program, rule: Rule, msg: Message): Property
    requires ChainProgram(p, ChainOf(rule))
  {
    (u: EngineState, v: Verdict) => v == Unknown ==> BootWaits(p, rule, u, msg.counter)
  }

  lemma BootUndisturbed(p: Program, rule: Rule, seen: set<Message>, e: nat, msg: Message, settled: set<nat>)
    requires ChainProgram(p, ChainOf(rule)) && e != ChainOf(rule).events[0]
    ensures Preserves(p, rule, seen, e, msg, settled, BootGoal(p, rule, msg))
  {
    var ch := ChainOf(rule);
    var good := BootGoal(p, rule, msg);
    forall st, pos | Ready(p, rule, st, seen, e, pos, msg, settled) && good(st, Unknown)
      ensures GoodAfter(ProcessNode(p, st, e, pos, msg), good)
    {
      var s := ProcessNode(p, st, e, pos, msg);
      NotBoot(p, ch, st, seen, msg.counter, msg.timestamp, e, pos);
      NodeOthers(p, ch, st, seen, e, pos, msg, BOOT);
      hide ProcessNode;
      if s.Done? && s.verdict == Unknown { WaitsOn(p, ch, st, s.engine, BOOT, [], ch.events[0], msg.counter); }
    }
  }

  /** The walk comes to the list of the first event with the bootstrap still waiting, or ends before with a verdict. */
  lemma {:induction false} BelowRuns(p: Program, rule: Rule, st: EngineState, seen: set<Message>, e: nat, msg: Message,
                                     settled: set<nat>)
    requires Busy(p, rule, st, seen, msg, settled) && VisitedBelow(p, st, e, msg) && BootWaits(p, rule, st, msg.counter)
    requires e <= ChainOf(rule).events[0]
    ensures Sized(p, st) && ChainOf(rule).events[0] < |p.masks|
    ensures var b := ProcessBelow(p, st, e, ChainOf(rule).events[0], msg);
            && b != Halted
            && (b.Done? && b.verdict == Unknown ==>
                  && Busy(p, rule, b.engine, seen, msg, settled) && BootWaits(p, rule, b.engine, msg.counter)
                  && VisitedBelow(p, b.engine, ChainOf(rule).events[0], msg))
    decreases ChainOf(rule).events[0] - e
  {
    assert Sized(p, st) && ChainOf(rule).events[0] < |p.masks| && p.masks[TIMEOUT] == {};
    hide ProcessList, VisitedBelow, Busy, Preserves, Addresses, BootWaits;
    if e < ChainOf(rule).events[0] {
      if !(p.masks[e] <= msg.mask) {
        SkipsList(p, st, e, msg);
        BelowRuns(p, rule, st, seen, e + 1, msg, settled);
      } else {
        ListBelow(p, rule, st, seen, e, msg, settled);
        var s := ProcessList(p, st, e, Addresses(st.byEvent[e]), msg);
        if s.Done? && s.verdict == Unknown { BelowRuns(p, rule, s.engine, seen, e + 1, msg, settled); }
        else { assert ProcessBelow(p, st, e, ChainOf(rule).events[0], msg) == s; }
      }
    }
  }

  lemma ListBelow(p: Program, rule: Rule, st: EngineState, seen: set<Message>, e: nat, msg: Message, settled: set<nat>)
    requires Busy(p, rule, st, seen, msg, settled) && VisitedBelow(p, st, e, msg) && BootWaits(p, rule, st, msg.counter)
    requires e < |p.masks| && e != ChainOf(rule).events[0] && p.masks[e] <= msg.mask
    ensures Sized(p, st)
    ensures var s := ProcessList(p, st, e, Addresses(st.byEvent[e]), msg);
            && s != Halted
            && (s.Done? && s.verdict == Unknown ==>
                  && Busy(p, rule, s.engine, seen, msg, settled) && BootWaits(p, rule, s.engine, msg.counter)
                  && VisitedBelow(p, s.engine, e + 1, msg))
  {
    assert Sized(p, st) && p.masks[TIMEOUT] == {};
    hide ProcessList, VisitedBelow, Preserves, Addresses, BootWaits, Walking, Inv, Traced;
    OtherListRuns(p, rule, st, seen, e, msg, settled);
    BootUndisturbed(p, rule, seen, e, msg, settled);
    ListGood(p, rule, st, seen, e, msg, settled, BootGoal(p, rule, msg));
  }

  lemma OtherListRuns(p: Program, rule: Rule, st: EngineState, seen: set<Message>, e: nat, msg: Message,
                      settled: set<nat>)
    requires Busy(p, rule, st, seen, msg, settled) && VisitedBelow(p, st, e, msg) && e < |p.masks|
    requires e != ChainOf(rule).events[0] && p.masks[e] <= msg.mask
    ensures Sized(p, st)
    ensures var s := ProcessList(p, st, e, Addresses(st.byEvent[e]), msg);
            && s != Halted
            && (s.Done? && s.verdict == Unknown ==>
                  Busy(p, rule, s.engine, seen, msg, settled) && VisitedBelow(p, s.engine, e + 1, msg))
  {
    assert Sized(p, st) && p.masks[TIMEOUT] == {};
    hide ProcessList, VisitedBelow, Addresses, Walking, Inv, Traced;
    WalkBegins(p, st, e, msg);
    ListRuns(p, rule, st, seen, e, st.byEvent[e], msg, settled);
    NextList(p, rule, st, seen, e, msg, settled);
  }

  /** Behind the list of the first event nothing halts. */
  lemma {:induction false} AboveRuns(p: Program, rule: Rule, st: EngineState, seen: set<Message>, e: nat, msg: Message,
                                     settled: set<nat>)
    requires Busy(p, rule, st, seen, msg, settled) && VisitedBelow(p, st, e, msg) && e > ChainOf(rule).events[0]
    ensures Sized(p, st) && ProcessEvents(p, st, e, msg) != Halted
    decreases |p.masks| - e
  {
    hide *;
    BusySized(p, rule, st, seen, msg, settled);
    if e >= |p.masks| {
      EventsDone(p, st, e, msg);
    } else {
      EventsStep(p, st, e, msg);
      if !(p.masks[e] <= msg.mask) {
        SkipsList(p, st, e, msg);
        AboveRuns(p, rule, st, seen, e + 1, msg, settled);
      } else {
        OtherListRuns(p, rule, st, seen, e, msg, settled);
        var s := ProcessList(p, st, e, Addresses(st.byEvent[e]), msg);
        if s.Done? && s.verdict == Unknown { AboveRuns(p, rule, s.engine, seen, e + 1, msg, settled); }
      }
    }
  }

  lemma BusySized(p: Program, rule: Rule, st: EngineState, seen: set<Message>, msg: Message, settled: set<nat>)
    requires Busy(p, rule, st, seen, msg, settled)
    ensures Sized(p, st) && |p.masks| == |st.byEvent|
    ensures ChainShape(ChainOf(rule)) && ChainOf(rule).events[0] < |p.masks|
  {}

  lemma EventsDone(p: Program, st: EngineState, e: nat, msg: Message)
    requires Sized(p, st) && e >= |p.masks|
    ensures ProcessEvents(p, st, e, msg) == Done(st, Unknown)
  {}

  lemma EventsStep(p: Program, st: EngineState, e: nat, msg: Message)
    requires Sized(p, st) && e < |p.masks|
    ensures ProcessEvents(p, st, e, msg)
         == if !(p.masks[e] <= msg.mask) then ProcessEvents(p, st, e + 1, msg)
            else var s := ProcessList(p, st, e, Addresses(st.byEvent[e]), msg);
                 if s.Done? && s.verdict == Unknown then ProcessEvents(p, s.engine, e + 1, msg) else s
  {
    hide ProcessList;
  }

  /** Whoever has matched something does not wait for the first event. */
  lemma OnlyBootWaits(p: Program, ch: Chain, f: Fsm, seen: set<Message>, c: nat)
    requires ChainProgram(p, ch) && Live(p, ch, f, seen, c)
    ensures !Wants(ch, f.state, ch.events[0])
  {}

  /** The list of the first event has the bootstrap's node and no other. */
  lemma FirstListIs(p: Program, rule: Rule, st: EngineState, seen: set<Message>, msg: Message, settled: set<nat>)
    requires Busy(p, rule, st, seen, msg, settled) && BootWaits(p, rule, st, msg.counter)
    ensures var e := ChainOf(rule).events[0];
            && e < |st.byEvent| && |st.byEvent[e]| == 1 && st.byEvent[e][0].fsm == BOOT
            && st.byEvent[e][0].counter != msg.counter
  {
    var ch := ChainOf(rule);
    var e := ch.events[0];
    var list := st.byEvent[e];
    assert ListOk(ch, st, e);
    assert |list| > 1 ==> FsmsOf(list)[0] != FsmsOf(list)[1];
    forall r | r in st.fsms && r != BOOT ensures !Wants(ch, st.fsms[r].state, e) {
      OnlyBootWaits(p, ch, st.fsms[r], seen, msg.counter);
    }
    forall i | 0 <= i < |list| ensures list[i].fsm == BOOT { assert NodeOk(ch, st, e, list[i]); }
    var n :| n in list && n.fsm == BOOT && n.counter != msg.counter;
  }

  lemma SingleNode(p: Program, st: EngineState, e: nat, msg: Message)
    requires Sized(p, st) && e < |st.byEvent| && |st.byEvent[e]| == 1 && st.byEvent[e][0].counter != msg.counter
    ensures ProcessList(p, st, e, Addresses(st.byEvent[e]), msg) == ProcessNode(p, st, e, 0, msg)
  {
    var list := st.byEvent[e];
    hide ProcessNode;
    ListStep(p, st, e, list, msg);
    assert Addresses(list[1..]) == [];
  }

  /** The bootstrap halts the process exactly when its guard holds and no place is left. */
  lemma BootHaltsIff(p: Program, rule: Rule, st: EngineState, seen: set<Message>, msg: Message, settled: set<nat>)
    requires Busy(p, rule, st, seen, msg, settled) && BootWaits(p, rule, st, msg.counter)
    ensures Sized(p, st) && ChainOf(rule).events[0] < |st.byEvent|
    ensures ProcessList(p, st, ChainOf(rule).events[0], Addresses(st.byEvent[ChainOf(rule).events[0]]), msg) == Halted
        <==> p.machine.guard(ChainOf(rule).events[0], msg, EmptyTrace(p.machine.size)) && NoPlaceLeft(st)
  {
    var ch := ChainOf(rule);
    var e := ch.events[0];
    FirstListIs(p, rule, st, seen, msg, settled);
    SingleNode(p, st, e, msg);
    assert At(p, ch, st, seen, e, 0, msg);
    var r, f, ms, o, move := NodeCall(p, ch, st, seen, e, 0, msg);
    NodeShape(p, ch, st, e, 0, msg, r, f, ms, o, move);
    NoPlace(st.byId, st.avail);
    assert f.trace == EmptyTrace(p.machine.size);
    hide ProcessNode, ProcessList, Inv, BootWaits;
  }

  /**
    * A message halts the process if and only if the bootstrap has to start a family for it (it has the attributes of
    * the first event, the guard holds, and no list before has brought a verdict), and by then every place from the
    * remembered one on is taken.
    */
  lemma MessageHaltsIff(p: Program, rule: Rule, st: EngineState, seen: set<Message>, c: nat, now: nat, msg: Message,
                        settled: set<nat>)
    requires Idle(p, rule, st, seen, c, now, settled) && c < msg.counter && InRange(ChainOf(rule), msg)
    requires Roomy(p, |seen| + 1)
    ensures Sized(p, st) && ChainOf(rule).events[0] < |p.masks|
    ensures var e := ChainOf(rule).events[0];
            var b := ProcessBelow(p, st.(refs := Retain(st.refs, msg)), 0, e, msg);
            Deliver(p, st, msg) == Halted
            <==> && p.masks[e] <= msg.mask && p.machine.guard(e, msg, EmptyTrace(p.machine.size))
                 && b.Done? && b.verdict == Unknown && NoPlaceLeft(b.engine)
  {
    var ch, st0 := ChainOf(rule), st.(refs := Retain(st.refs, msg));
    var e := ch.events[0];
    BusyNow(p, rule, st, seen, c, now, msg, settled);
    NodeThere(p, ch, st0, seen + {msg}, msg.counter, msg.timestamp, BOOT, [], e, msg.counter);
    BelowRuns(p, rule, st0, seen + {msg}, 0, msg, settled);
    SplitAt(p, st0, 0, e, msg);
    IdleSame(p, rule, st, st0, seen, c, now, settled);
    ProcessKeeps(p, rule, st0, seen, c, now, msg, settled);
    var b := ProcessBelow(p, st0, 0, e, msg);
    if b.Done? && b.verdict == Unknown {
      FirstHaltsIff(p, rule, b.engine, seen + {msg}, msg, settled);
    }
    hide ProcessEvents, ProcessBelow, Idle, Busy, NoPlaceLeft;
  }

  lemma FirstHaltsIff(p: Program, rule: Rule, st: EngineState, seen: set<Message>, msg: Message, settled: set<nat>)
    requires Busy(p, rule, st, seen, msg, settled) && BootWaits(p, rule, st, msg.counter)
    requires VisitedBelow(p, st, ChainOf(rule).events[0], msg)
    ensures Sized(p, st) && ChainOf(rule).events[0] < |p.masks|
    ensures var e := ChainOf(rule).events[0];
            ProcessEvents(p, st, e, msg) == Halted
            <==> p.masks[e] <= msg.mask && p.machine.guard(e, msg, EmptyTrace(p.machine.size)) && NoPlaceLeft(st)
  {
    var e := ChainOf(rule).events[0];
    assert Sized(p, st) && e < |p.masks|;
    hide ProcessList, VisitedBelow, Busy, Addresses, BootWaits, NoPlaceLeft;
    if !(p.masks[e] <= msg.mask) {
      SkipsList(p, st, e, msg);
      AboveRuns(p, rule, st, seen, e + 1, msg, settled);
    } else {
      BootHaltsIff(p, rule, st, seen, msg, settled);
      NextList(p, rule, st, seen, e, msg, settled);
      var s := ProcessList(p, st, e, Addresses(st.byEvent[e]), msg);
      if s.Done? && s.verdict == Unknown { AboveRuns(p, rule, s.engine, seen, e + 1, msg, settled); }
      else { assert ProcessEvents(p, st, e, msg) == s; }
    }
  }

  // ---- Whole runs ----

  /** The crowd fills a table of at most 2^16 places, and the next message halts the process. */
  lemma CrowdHalts(size: nat)
    requires 0 < size <= TWO16
    ensures ChainProgram(FlowProgram(size), FlowChain)
    ensures Run(FlowProgram(size), Knocks(size)) == Stopped(true, [])
  {
    hide Compile, RunStands;
    var h := Crowd(size - 1);
    CrowdRun(size, size - 1);
    forall j | h.avail <= j < size ensures !Free(h, j) { CrowdPlaces(size - 1, j); }
    KnocksSnoc(size);
    RunHalts(size, Knocks(size - 1), [], h, size - 1, size, size);
  }

  /** Among the messages one is that halts the process. */
  ghost predicate Halts(p: Program, msgs: seq<Message>)
    requires Runnable(p)
  {
    Run(p, msgs).Stopped? && Run(p, msgs).halted
  }

  /**
    * No run of a THEN rule with tables of the given size and at most n messages halts, if and only if the size is more
    * than 2^16 or more than n.
    */
  lemma NeverHaltsIff(size: nat, n: nat)
    requires size > 0
    ensures (forall p: Program, rule, msgs ::
               WellPosed(p, rule) && Runnable(p) && p.maxInstances == size && Stream(rule, msgs) && |msgs| <= n
               ==> !Halts(p, msgs))
        <==> size > TWO16 || n < size
  {
    if size > TWO16 || n < size {
      forall p: Program, rule, msgs | WellPosed(p, rule) && Runnable(p) && p.maxInstances == size
          && Stream(rule, msgs) && |msgs| <= n
        ensures !Halts(p, msgs)
      {
        if size > TWO16 { LargeNeverHalts(p, msgs); } else { RunSound(p, rule, msgs); }
      }
    } else {
      FlowPosed(size);
      KnocksStream(size);
      CrowdHalts(size);
      assert |Knocks(size)| <= n;
    }
  }

  // ---- Halting with a free place ----

  /** Two families come and go, the younger one last, and then two more come. */
  const Ebb: seq<Message> := [Knock(1, 1), Knock(2, 2), Hit(3, 1), Hit(4, 2), Knock(5, 5), Knock(6, 6)]

  /** How the herd changes on the way. */
  lemma EbbHerds()
    ensures var k1, k2, k5 := Knock(1, 1), Knock(2, 2), Knock(5, 5);
            var m1, m2 := Member(1, k1, 1), Member(2, k2, 2);
            && Knocked(Newborn, k1, 1) == Herd([m1], true, 1, 2)
            && Knocked(Herd([m1], true, 1, 2), k2, 2) == Herd([m2, m1], true, 2, 3)
            && Dropped(Herd([m2, m1], true, 2, 3), 1) == Herd([m2], true, 1, 3)
            && Dropped(Herd([m2], true, 1, 3), 2) == Herd([], true, 2, 3)
            && Knocked(Herd([], true, 2, 3), k5, 2) == Herd([Member(3, k5, 2)], true, 2, 4)
  {
    var m1, m2 := Member(1, Knock(1, 1), 1), Member(2, Knock(2, 2), 2);
    OthersCons(m2, [m1], 1);
    OthersCons(m1, [], 1);
    OthersCons(m2, [], 2);
    assert [m2] + [m1] == [m2, m1] && [m1] + [] == [m1] && [m2] + [] == [m2];
  }

  lemma OthersCons(m: Member, who: seq<Member>, id: nat)
    ensures Others([m] + who, id) == (if m.id == id then [] else [m]) + Others(who, id)
  {
    assert ([m] + who)[1..] == who;
  }

  /** The first four messages leave the herd empty, and place 2 remembered. */
  lemma EbbRuns() returns (alarms: seq<Alarm>)
    ensures ChainProgram(FlowProgram(3), FlowChain) && RunStands(3, Ebb[..4], alarms, Herd([], true, 2, 3), 4)
  {
    hide Compile, RunStands, Knocked, Dropped, Run;
    RunStarts(3);
    EbbHerds();
    var k1, k2 := Knock(1, 1), Knock(2, 2);
    var m1, m2 := Member(1, k1, 1), Member(2, k2, 2);
    assert [] + [k1] == [k1] && [k1] + [k2] == [k1, k2] && [k1, k2] + [Hit(3, 1)] == [k1, k2, Hit(3, 1)];
    assert [k1, k2, Hit(3, 1)] + [Hit(4, 2)] == Ebb[..4];
    RunKnock(3, [], [], Newborn, 0, 1, 1, 1);
    RunKnock(3, [k1], [], Herd([m1], true, 1, 2), 1, 2, 2, 2);
    var a := RunHit(3, [k1, k2], [], Herd([m2, m1], true, 2, 3), 2, 3, 1, 1);
    assert [] + [a] == [a];
    var b := RunHit(3, [k1, k2, Hit(3, 1)], [a], Herd([m2], true, 1, 3), 3, 4, 2, 0);
    alarms := [a] + [b];
  }

  /** With three places the process halts on the last message, although place 1 is free. */
  lemma HaltsWithFreePlace()
    ensures WellPosed(FlowProgram(3), FlowRule) && Runnable(FlowProgram(3))
    ensures var before := Run(FlowProgram(3), Ebb[..5]);
            before.Running? && |before.engine.byId| == 3 && before.engine.byId[1] == []
    ensures Halts(FlowProgram(3), Ebb)
  {
    FlowPosed(3);
    hide Compile, RunStands, Knocked, Dropped, Run, WellPosed;
    EbbHerds();
    var alarms := EbbRuns();
    var k5 := Knock(5, 5);
    var h := Herd([Member(3, k5, 2)], true, 2, 4);
    assert Ebb[..4] + [k5] == Ebb[..5] && Ebb == Ebb[..5] + [Knock(6, 6)];
    RunKnock(3, Ebb[..4], alarms, Herd([], true, 2, 3), 4, 5, 5, 2);
    RunHalts(3, Ebb[..5], alarms, h, 5, 6, 6);
    PlaceOneFree(h, alarms);
  }

  lemma PlaceOneFree(h: Herd, alarms: seq<Alarm>)
    requires ChainProgram(FlowProgram(3), FlowChain) && h == Herd([Member(3, Knock(5, 5), 2)], true, 2, 4)
    requires RunStands(3, Ebb[..5], alarms, h, 5)
    ensures var r := Run(FlowProgram(3), Ebb[..5]); r.Running? && |r.engine.byId| == 3 && r.engine.byId[1] == []
  {
    hide Compile;
    FreeIff(FlowProgram(3), Run(FlowProgram(3), Ebb[..5]).engine, h, 5, 1);
  }
}
