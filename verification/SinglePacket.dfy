/** The short cut for rules whose two events must be met by one message. */
module SinglePacket {
  import opened Wrappers
  import opened Rules
  import opened Compiler
  import opened CompilerWellFormed
  import opened ThenChain
  import opened Messages
  import opened FsmRuntime
  import opened Engine
  import opened EngineRefs

  /** Two events; the first leads to a temporary state that has only a timeout and one transition to a final state. */
  predicate VerifiesSinglePacket(m: Machine) {
    && |m.states| >= 4 && m.size == 3
    && |m.states[INIT].out| == 1
    && var s := m.states[INIT].out[0].target;
       && s < |m.states| && m.states[s].temporary && |m.states[s].out| == 2
       && FinalIndex(m.states[s].out[1].target)
  }

  function HandleSinglePacket(m: Machine, refs: Refs, f: Fsm, msg: Message): Outcome
    requires VerifiesSinglePacket(m) && |f.trace| == m.size
  {
    var first := m.states[INIT].out[0];
    if !m.guard(first.event, msg, f.trace) then Outcome(refs, f, NoChange)
    else
      var f1 := f.(trace := f.trace[1 := Some(msg)]);
      var refs1 := Retain(Retain(refs, msg), msg);
      var second := m.states[first.target].out[1];
      var target := if m.guard(second.event, msg, f1.trace) then second.target
          else m.states[first.target].out[0].target;
      Outcome(refs1, f1.(trace := f1.trace[2 := Some(msg)]), FinalResult(target))
  }

  /** Back to the initial state; every message in the trace loses a reference. */
  function Reset(refs: Refs, f: Fsm): (Refs, Fsm) {
    (ReleaseAll(refs, f.trace), f.(state := INIT, eventId := 0, trace := EmptyTrace(|f.trace|)))
  }

  datatype SingleStep = SingleStep(fsm: Fsm, stored: Trace, refs: Refs, verdict: Verdict)

  /** Stores the trace of a verdict, then cleans the bootstrap for the next message. */
  function Conclude(p: Program, o: Outcome, stored: Trace): SingleStep
    requires |o.fsm.trace| == |stored|
  {
    var v := GetVerdict(p.ruleType, o.res);
    var refs1 := if v != Unknown then StoreSlots(o.refs, stored, o.fsm.trace) else o.refs;
    var (refs2, f2) := Reset(refs1, o.fsm);
    SingleStep(f2, if v != Unknown then o.fsm.trace else stored, refs2, v)
  }

  /** A message without the attributes of both events is filtered out. */
  function ProcessSinglePacket(p: Program, f: Fsm, stored: Trace, refs: Refs, msg: Message): SingleStep
    requires VerifiesSinglePacket(p.machine) && |f.trace| == |stored| == p.machine.size == |p.masks|
  {
    if !(p.masks[1] <= msg.mask) || !(p.masks[2] <= msg.mask) then SingleStep(f, stored, refs, Unknown)
    else
      var o := HandleSinglePacket(p.machine, refs, f, msg);
      if o.res == NoChange || o.res == ErrArg then SingleStep(o.fsm, stored, o.refs, Unknown)
      else Conclude(p, o, stored)
  }

  // ---- The short cut and the general route ----

  /** The rule "event a THEN event b". */
  function PairRule(d: Delay, a: nat, b: nat): Rule {
    Rule(Plain(Then), d, Event(a), Event(b))
  }

  /** The numbers that two events of one rule can have: no number twice. */
  predicate PairIds(a: nat, b: nat) {
    (a == 1 && b == 2) || (a == 2 && b == 1)
  }

  lemma PairTable(d: Delay, a: nat, b: nat)
    requires PairIds(a, b)
    ensures var ms := Compile(PairRule(d, a, b));
            && |ms| == 5
            && ms[INIT].out == [Transition(a, CreateInstance, 4)] && ms[FAIL].out == ms[PASS].out == ms[INCL].out == []
            && ms[4] == State(d, d.IsZero(), [Transition(TIMEOUT, DoNothing, FAIL), Transition(b, ResetTimer, PASS)])
    ensures ValidMachine(Machine(Compile(PairRule(d, a, b)), (e: nat, msg: Message, tr: Trace) => true, 3))
  {
    var r := PairRule(d, a, b);
    CompileThen(r);
    CompileWellFormed(r);
    var ch := ChainOf(r);
    assert Leaves(Event(a)) == [a] && Leaves(Event(b)) == [b];
    assert Acts(Event(a), CreateInstance) == [CreateInstance] && Acts(Event(b), ResetTimer) == [ResetTimer];
    assert ch.events == [a, b] && ch.delays == [d] && ch.acts == [CreateInstance, ResetTimer] && ch.lates == [FAIL];
    assert ChainRow(Compile(r), ch, 0);
  }

  /** Of all THEN rules the short cut is taken for exactly the pairs without a delay. */
  lemma SinglePacketIff(r: Rule, guard: Guard, size: nat)
    requires ThenRule(r)
    ensures VerifiesSinglePacket(Machine(Compile(r), guard, size))
        <==> size == 3 && r.delay.IsZero() && r.context.Event? && r.trigger.Event?
  {
    CompileThen(r);
    var ch := ChainOf(r);
    assert Delays(Root(r)) == Delays(r.context) + [r.delay] + Delays(r.trigger);
    assert ChainRow(Compile(r), ch, 0);
    if |ch.events| == 2 {
      OneLeaf(r.context);
      OneLeaf(r.trigger);
    }
  }

  lemma OneLeaf(t: Tree)
    ensures |Leaves(t)| == 1 <==> t.Event?
  {}

  /** The THEN rules of two events are the pairs. */
  lemma ShortCutIsPair(r: Rule, guard: Guard, size: nat)
    requires ThenRule(r) && VerifiesSinglePacket(Machine(Compile(r), guard, size))
    ensures size == 3 && r.delay.IsZero() && r.context.Event? && r.trigger.Event?
    ensures r == PairRule(r.delay, r.context.id, r.trigger.id)
  {
    SinglePacketIff(r, guard, size);
  }

  /** The trace of a message that met both events. */
  function BothSlots(msg: Message): Trace {
    [None, Some(msg), Some(msg)]
  }

  /** The history of a message that has met the event of the given slot. */
  function OneSlot(slot: nat, msg: Message): Trace
    requires slot < 3
  {
    EmptyTrace(3)[slot := Some(msg)]
  }

  /** The machine of the pair. */
  ghost function PairMachine(d: Delay, a: nat, b: nat, guard: Guard): (m: Machine)
    requires PairIds(a, b)
    ensures ValidMachine(m)
  {
    PairTable(d, a, b);
    Machine(Compile(PairRule(d, a, b)), guard, 3)
  }

  /** The bootstrap's reaction to a message in the general route. */
  ghost function GeneralOutcome(d: Delay, a: nat, b: nat, guard: Guard, msg: Message): EventOutcome
    requires PairIds(a, b)
  {
    HandleEvent(PairMachine(d, a, b, guard), multiset{}, NewFsm(PairMachine(d, a, b, guard)), 0, msg)
  }

  /**
    * The general route: the bootstrap clones itself into the temporary state, which fires at once. The second guard
    * sees the message in the slot of the first event.
    */
  lemma GeneralRoute(d: Delay, a: nat, b: nat, guard: Guard, msg: Message)
    requires d.IsZero() && PairIds(a, b)
    ensures var o := GeneralOutcome(d, a, b, guard, msg);
            if !guard(a, msg, EmptyTrace(3)) then o.child == None && o.res == NoChange
            else if guard(b, msg, OneSlot(a, msg)) then
              o.child.Some? && o.res == FinalReached && o.child.value.trace == BothSlots(msg)
            else o.child.Some? && o.res == NoChange && o.child.value.state == 4
  {
    PairTable(d, a, b);
    var m, o := PairMachine(d, a, b, guard), GeneralOutcome(d, a, b, guard, msg);
    var f := NewFsm(m).(eventId := a);
    if guard(a, msg, f.trace) {
      var (refs1, f1) := Record(RetainAll(multiset{}, f.trace), f, msg);
      var f2 := f1.(state := 4);
      assert UpdateFsm(m, RetainAll(multiset{}, f.trace), f, 4, CreateInstance, msg) == FireDown(m, refs1, f2, 2, msg);
      assert o.child == Some(FireDown(m, refs1, f2, 2, msg).fsm) && o.res == FireDown(m, refs1, f2, 2, msg).res;
      TemporaryRoute(m, refs1, f2, msg, guard, d, a, b);
    }
  }

  lemma TemporaryRoute(m: Machine, refs: Refs, f: Fsm, msg: Message, guard: Guard, d: Delay, a: nat, b: nat)
    requires d.IsZero() && PairIds(a, b) && m == Machine(Compile(PairRule(d, a, b)), guard, 3) && ValidMachine(m)
    requires Fits(m, f) && f.state == 4 && f.timeMin == 0 && f.trace == OneSlot(a, msg)
    ensures var o := FireDown(m, refs, f, 2, msg);
            if guard(b, msg, f.trace) then o.res == FinalReached && o.fsm.trace == BothSlots(msg)
            else o.res == NoChange && o.fsm.state == 4
  {
    PairTable(d, a, b);
    var e := HandleEvent(m, refs, f, 1, msg);
    var f1 := f.(eventId := b);
    if guard(b, msg, f.trace) {
      var u := UpdateFsm(m, refs, f1, PASS, ResetTimer, msg);
      assert u.fsm.trace == f.trace[b := Some(msg)] && u.res == FinalReached;
      assert f.trace[b := Some(msg)] == BothSlots(msg);
      assert e == EventOutcome(u.refs, u.fsm, None, u.res);
    } else {
      assert e == EventOutcome(refs, f1, None, NoChange);
      assert HandleEvent(m, refs, f1, 0, msg) == EventOutcome(refs, f1, None, NoChange);
      assert FireDown(m, refs, f1, 1, msg) == FireDown(m, refs, f1, 0, msg) == Outcome(refs, f1, NoChange);
    }
  }

  /** The short cut always puts the message into slot 1 before it asks for the second event. */
  lemma ShortRoute(d: Delay, a: nat, b: nat, guard: Guard, msg: Message)
    requires d.IsZero() && PairIds(a, b)
    ensures VerifiesSinglePacket(PairMachine(d, a, b, guard))
    ensures var s := HandleSinglePacket(PairMachine(d, a, b, guard), multiset{}, NewFsm(PairMachine(d, a, b, guard)),
                                        msg);
            if !guard(a, msg, EmptyTrace(3)) then s.res == NoChange
            else s.fsm.trace == BothSlots(msg) && s.res == if guard(b, msg, OneSlot(1, msg)) then FinalReached
                else ErrorReached
  {
    PairTable(d, a, b);
    assert EmptyTrace(3)[1 := Some(msg)][2 := Some(msg)] == BothSlots(msg);
  }

  /**
    * When the verdicts of both routes agree, given what the second guard makes of the message in slot 1, as in the
    * short cut, and in the slot of the first event, as in the general route.
    */
  predicate Agree(ruleType: RuleType, short: bool, general: bool) {
    match ruleType
    case TestRule => short && general
    case SecurityRule => short
    case AttackRule => short == general
    case EvasionRule => short == general
    case ForwardRule => short == general
  }

  /**
    * For every THEN rule that takes the short cut and every message: the short cut passes exactly when the general
    * route does, with the same trace, if and only if the first guard fails or the second one makes the same of both
    * histories; and the verdicts agree if and only if the first guard fails or the histories agree as the type of the
    * rule needs it.
    */
  lemma SinglePacketRefines(r: Rule, guard: Guard, msg: Message, ruleType: RuleType)
    requires ThenRule(r) && VerifiesSinglePacket(Machine(Compile(r), guard, 3))
    requires r.context.Event? && r.trigger.Event? ==> PairIds(r.context.id, r.trigger.id)
    ensures r.context.Event? && r.trigger.Event?
    ensures var a, b := r.context.id, r.trigger.id;
            var o, m := GeneralOutcome(r.delay, a, b, guard, msg), Machine(Compile(r), guard, 3);
            var s := HandleSinglePacket(m, multiset{}, NewFsm(m), msg);
            var first, short, general :=
              guard(a, msg, EmptyTrace(3)), guard(b, msg, OneSlot(1, msg)), guard(b, msg, OneSlot(a, msg));
            && ((s.res == FinalReached <==> o.res == FinalReached) <==> !first || (short <==> general))
            && (s.res == FinalReached && o.res == FinalReached ==>
                  o.child.Some? && o.child.value.trace == s.fsm.trace == BothSlots(msg))
            && (GetVerdict(ruleType, s.res) == GetVerdict(ruleType, o.res)
                <==> !first || Agree(ruleType, short, general))
  {
    ShortCutIsPair(r, guard, 3);
    GeneralRoute(r.delay, r.context.id, r.trigger.id, guard, msg);
    ShortRoute(r.delay, r.context.id, r.trigger.id, guard, msg);
  }

  /** Event 2 comes first, and the guard of event 1 asks for the message of event 2. */
  function Backwards(): Guard {
    (e: nat, msg: Message, tr: Trace) => e == 2 || (|tr| == 3 && tr[2].Some?)
  }

  /** For this rule the general route detects every message, and the short cut, which is taken, none. */
  lemma BackwardsMissed(msg: Message)
    ensures var m := PairMachine(NoDelay, 2, 1, Backwards());
            && VerifiesSinglePacket(m)
            && GetVerdict(AttackRule, GeneralOutcome(NoDelay, 2, 1, Backwards(), msg).res) == Detected
            && GetVerdict(AttackRule, HandleSinglePacket(m, multiset{}, NewFsm(m), msg).res) == Unknown
  {
    GeneralRoute(NoDelay, 2, 1, Backwards(), msg);
    ShortRoute(NoDelay, 2, 1, Backwards(), msg);
  }

  /** What a message makes of the rule in the general route, whose bootstrap waits in the list of event a. */
  ghost function GeneralVerdict(p: Program, d: Delay, a: nat, b: nat, msg: Message): Verdict
    requires PairIds(a, b) && |p.masks| == 3
  {
    if p.masks[a] <= msg.mask then GetVerdict(p.ruleType, GeneralOutcome(d, a, b, p.machine.guard, msg).res)
        else Unknown
  }

  /**
    * The same with the tests for attributes: the short cut needs those of both events, the general route those of the
    * first. A message without some of them is treated alike unless the general route passes on it and reports that.
    */
  lemma ShortCutAgrees(p: Program, r: Rule, stored: Trace, refs: Refs, msg: Message)
    requires ThenRule(r) && p.machine.states == Compile(r) && p.machine.size == 3 && VerifiesSinglePacket(p.machine)
    requires r.context.Event? && r.trigger.Event? ==> PairIds(r.context.id, r.trigger.id)
    requires |p.masks| == |stored| == 3
    ensures r.context.Event? && r.trigger.Event?
    ensures var a, b, guard := r.context.id, r.trigger.id, p.machine.guard;
            var first, short, general :=
              guard(a, msg, EmptyTrace(3)), guard(b, msg, OneSlot(1, msg)), guard(b, msg, OneSlot(a, msg));
            ProcessSinglePacket(p, NewFsm(p.machine), stored, refs, msg).verdict
                == GeneralVerdict(p, r.delay, a, b, msg)
            <==> if p.masks[1] <= msg.mask && p.masks[2] <= msg.mask then !first || Agree(p.ruleType, short, general)
                 else !(p.masks[a] <= msg.mask && first && general && p.ruleType != SecurityRule)
  {
    var guard := p.machine.guard;
    assert p.machine == Machine(Compile(r), guard, 3);
    ShortCutIsPair(r, guard, 3);
    GeneralRoute(r.delay, r.context.id, r.trigger.id, guard, msg);
    ShortAnyRefs(r.delay, r.context.id, r.trigger.id, guard, refs, msg);
  }

  lemma ShortAnyRefs(d: Delay, a: nat, b: nat, guard: Guard, refs: Refs, msg: Message)
    requires d.IsZero() && PairIds(a, b)
    ensures VerifiesSinglePacket(PairMachine(d, a, b, guard))
    ensures var s := HandleSinglePacket(PairMachine(d, a, b, guard), refs, NewFsm(PairMachine(d, a, b, guard)), msg);
            s.res == if !guard(a, msg, EmptyTrace(3)) then NoChange
                     else if guard(b, msg, OneSlot(1, msg)) then FinalReached else ErrorReached
  {
    PairTable(d, a, b);
  }

  // ---- References ----

  lemma BothRetained(rest: Refs, tr: Trace, msg: Message)
    requires tr == EmptyTrace(3)
    ensures Retain(Retain(rest, msg), msg) == rest + Slots(tr[1 := Some(msg)][2 := Some(msg)])
  {
    EmptyTraceSlots(3);
    SlotsUpdate(tr, 1, Some(msg));
    SlotsUpdate(tr[1 := Some(msg)], 2, Some(msg));
  }

  lemma StoreThenReset(refs: Refs, held: Refs, stored: Trace, tr: Trace)
    requires |stored| == |tr| && refs == (held + Slots(stored)) + Slots(tr)
    ensures ReleaseAll(refs, tr) == held + Slots(stored)
    ensures ReleaseAll(StoreSlots(refs, stored, tr), tr) == held + Slots(tr)
  {
    ReleaseAllSlots(held + Slots(stored), tr);
    Swap(held, Slots(stored), Slots(tr));
    StoreSlotsBalance(refs, stored, tr, held + Slots(tr));
    ReleaseAllSlots(held + Slots(tr), tr);
  }

  /** The bootstrap is clean between messages, so the double retain of the short cut is given back in full. */
  lemma SinglePacketBalance(p: Program, f: Fsm, stored: Trace, refs: Refs, held: Refs, msg: Message)
    requires VerifiesSinglePacket(p.machine) && |stored| == 3 && |p.masks| == 3
    requires FinalIndex(p.machine.states[p.machine.states[INIT].out[0].target].out[0].target)
    requires f.trace == EmptyTrace(3) && refs == held + Slots(stored)
    ensures var s := ProcessSinglePacket(p, f, stored, refs, msg);
            s.fsm.trace == EmptyTrace(3) && |s.stored| == 3 && s.refs == held + Slots(s.stored)
  {
    var s := ProcessSinglePacket(p, f, stored, refs, msg);
    var o := HandleSinglePacket(p.machine, refs, f, msg);
    if o.res != NoChange && p.masks[1] <= msg.mask && p.masks[2] <= msg.mask {
      assert s == Conclude(p, o, stored);
      MetBalance(p, f, refs, msg, o);
      ConcludeBalance(p, o, stored, held);
    } else {
      assert s == SingleStep(f, stored, refs, Unknown);
    }
  }

  lemma MetBalance(p: Program, f: Fsm, refs: Refs, msg: Message, o: Outcome)
    requires VerifiesSinglePacket(p.machine) && f.trace == EmptyTrace(3)
    requires o == HandleSinglePacket(p.machine, refs, f, msg) && o.res != NoChange
    ensures |o.fsm.trace| == 3 && o.refs == refs + Slots(o.fsm.trace)
  {
    BothRetained(refs, f.trace, msg);
  }

  lemma ConcludeBalance(p: Program, o: Outcome, stored: Trace, held: Refs)
    requires |o.fsm.trace| == |stored| && o.refs == (held + Slots(stored)) + Slots(o.fsm.trace)
    ensures var s := Conclude(p, o, stored);
            s.fsm.trace == EmptyTrace(|stored|) && |s.stored| == |stored| && s.refs == held + Slots(s.stored)
  {
    StoreThenReset(o.refs, held, stored, o.fsm.trace);
  }
}
