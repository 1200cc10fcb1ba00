/** One machine instance: guarded, timed transitions over the emitted state table. */
module FsmRuntime {
  import opened Wrappers
  import opened Rules
  import opened Compiler
  import opened CompilerWellFormed
  import opened Messages

  /** A guard looks at the message and at the history recorded so far. */
  type Guard = (nat, Message, Trace) -> bool

  /** `size` is the number of trace slots, one more than the number of events. */
  datatype Machine = Machine(states: seq<State>, guard: Guard, size: nat)

  datatype Fsm = Fsm(timeMin: nat, timeMax: nat, id: nat, eventId: nat, state: nat, trace: Trace)

  datatype Result = ErrArg | ErrorReached | Changed | NoChange | FinalReached | InconclusiveReached

  /** What a call leaves behind: counts, the machine itself, and how the call ended. */
  datatype Outcome = Outcome(refs: Refs, fsm: Fsm, res: Result)

  /** As above, with the instance the call may have created. */
  datatype EventOutcome = EventOutcome(refs: Refs, fsm: Fsm, child: Option<Fsm>, res: Result)

  ghost predicate ValidMachine(m: Machine) {
    && Ranked(m.states)
    && m.size > 0
    && forall k, j :: 0 <= k < |m.states| && 0 <= j < |m.states[k].out| ==> m.states[k].out[j].event < m.size
  }

  predicate Fits(m: Machine, f: Fsm) {
    f.state < |m.states| && f.eventId < m.size && |f.trace| == m.size
  }

  function NewFsm(m: Machine): Fsm {
    Fsm(0, 0, 0, 0, INIT, EmptyTrace(m.size))
  }

  function FinalResult(target: nat): Result {
    if target == FAIL then ErrorReached
    else if target == INCL then InconclusiveReached
    else if target == PASS then FinalReached
    else ErrArg
  }

  function Max(a: nat, b: nat): nat { if a > b then a else b }
  function Min(a: nat, b: nat): nat { if a < b then a else b }

  /** The deadline after a move: a fresh window, or its intersection with the current one. */
  function Rearm(f: Fsm, d: Delay, now: nat, reset: bool): Fsm {
    var lo, hi := AddU64(d.timeMin, now), AddU64(d.timeMax, now);
    if reset then f.(timeMin := lo, timeMax := hi)
    else f.(timeMin := Max(f.timeMin, lo), timeMax := Min(f.timeMax, hi))
  }

  /** Puts the message into the slot of the current event; an older message there loses its reference. */
  function Record(refs: Refs, f: Fsm, msg: Message): (Refs, Fsm)
    requires f.eventId < |f.trace|
  {
    var dropped := if f.trace[f.eventId].Some? then Release(refs, f.trace[f.eventId].value) else refs;
    (Retain(dropped, msg), f.(trace := f.trace[f.eventId := Some(msg)]))
  }

  ghost function Room(m: Machine, state: nat): int
    requires |m.states| >= 4
  {
    |m.states| - 3 - Rank(m.states, state)
  }

  /** Frees an instance that nobody asked for. */
  function DropChild(refs: Refs, c: Option<Fsm>): Refs {
    match c
    case None => refs
    case Some(f) => ReleaseAll(refs, f.trace)
  }

  function UpdateFsm(m: Machine, refs: Refs, f: Fsm, target: nat, action: Action, msg: Message): (o: Outcome)
    requires ValidMachine(m) && Fits(m, f) && target < |m.states|
    ensures Fits(m, o.fsm) && o.fsm.id == f.id && Rank(m.states, o.fsm.state) >= Rank(m.states, target)
    decreases Room(m, target), 2, 0
  {
    var (refs1, f1) := Record(refs, f, msg);
    var f2 := f1.(state := target);
    if m.states[target].out == [] then
      Outcome(refs1, f2, FinalResult(target))
    else if m.states[target].temporary then
      FireDown(m, refs1, f2, |m.states[target].out|, msg)
    else
      Outcome(refs1, Rearm(f2, m.states[target].delay, msg.timestamp, action == ResetTimer || f.state == INIT), Changed)
  }

  /** Tries the transitions i-1, ..., 0 against the message until one of them does something. */
  function FireDown(m: Machine, refs: Refs, f: Fsm, i: nat, msg: Message): (o: Outcome)
    requires ValidMachine(m) && Fits(m, f)
    ensures Fits(m, o.fsm) && o.fsm.id == f.id && Rank(m.states, o.fsm.state) >= Rank(m.states, f.state)
    decreases Room(m, f.state), 1, i
  {
    if i == 0 then Outcome(refs, f, NoChange)
    else
      var e := HandleEvent(m, refs, f, i - 1, msg);
      var refs1 := DropChild(e.refs, e.child);
      if e.res != NoChange then Outcome(refs1, e.fsm, e.res)
      else FireDown(m, refs1, e.fsm, i - 1, msg)
  }

  function HandleEvent(m: Machine, refs: Refs, f: Fsm, i: nat, msg: Message): (o: EventOutcome)
    requires ValidMachine(m) && Fits(m, f)
    ensures Fits(m, o.fsm) && o.fsm.id == f.id && Rank(m.states, o.fsm.state) >= Rank(m.states, f.state)
    ensures o.child.Some? ==> Fits(m, o.child.value) && o.child.value.id == f.id
    decreases Room(m, f.state), 0, 0
  {
    var s := m.states[f.state];
    if i >= |s.out| then EventOutcome(refs, f, None, ErrArg)
    else if msg.timestamp < f.timeMin then EventOutcome(refs, f, None, NoChange)
    else
      assert RowRanked(m.states, f.state);
      var t := s.out[i];
      if !s.temporary && f.state != INIT && msg.timestamp > f.timeMax && s.out[0].event == TIMEOUT then
        var late := s.out[0].target;
        var f1 := if m.states[late].out == [] then f.(eventId := t.event) else f;
        var o := UpdateFsm(m, refs, f1, late, s.out[0].action, msg);
        EventOutcome(o.refs, o.fsm, None, o.res)
      else if t.event == TIMEOUT then
        EventOutcome(refs, f, None, NoChange)
      else
        var f1 := f.(eventId := t.event);
        if !m.guard(t.event, msg, f1.trace) then
          EventOutcome(refs, f1, None, NoChange)
        else if t.action == CreateInstance && m.states[t.target].out != [] then
          var o := UpdateFsm(m, RetainAll(refs, f1.trace), f1, t.target, t.action, msg);
          EventOutcome(o.refs, f1, Some(o.fsm), o.res)
        else
          var o := UpdateFsm(m, refs, f1, t.target, t.action, msg);
          EventOutcome(o.refs, o.fsm, None, o.res)
  }

  // ---- Conservation of references ----

  function ChildSlots(c: Option<Fsm>): Refs {
    match c
    case None => multiset{}
    case Some(f) => Slots(f.trace)
  }

  lemma RecordConserves(refs: Refs, rest: Refs, f: Fsm, msg: Message)
    requires f.eventId < |f.trace| && refs == rest + Slots(f.trace)
    ensures var (refs1, f1) := Record(refs, f, msg); refs1 == rest + Slots(f1.trace)
  {
    var i := f.eventId;
    var tr := f.trace;
    SlotsUpdate(tr, i, Some(msg));
    if tr[i].Some? {
      SlotsContain(tr, i);
      ReplaceOne(rest, Slots(tr), Slots(tr[i := Some(msg)]), tr[i].value, msg);
    } else {
      assert Slots(tr[i := Some(msg)]) == Slots(tr) + multiset{msg};
    }
  }

  lemma ReplaceOne(rest: Refs, s: Refs, t: Refs, old_: Message, new_: Message)
    requires old_ in s && t + multiset{old_} == s + multiset{new_}
    ensures Retain(Release(rest + s, old_), new_) == rest + t
  {
    var refs := rest + s;
    assert Release(refs, old_) == refs - multiset{old_};
    assert (refs - multiset{old_}) + multiset{old_} == refs;
    assert (rest + t) + multiset{old_} == rest + (t + multiset{old_});
    assert ((refs - multiset{old_}) + multiset{new_}) + multiset{old_} == (rest + t) + multiset{old_};
    CancelOne(Retain(Release(refs, old_), new_), rest + t, old_);
  }

  lemma CancelOne(a: Refs, b: Refs, x: Message)
    requires a + multiset{x} == b + multiset{x}
    ensures a == b
  {
    assert a == (a + multiset{x}) - multiset{x};
    assert b == (b + multiset{x}) - multiset{x};
  }

  lemma DropChildConserves(refs: Refs, rest: Refs, c: Option<Fsm>)
    requires refs == rest + ChildSlots(c)
    ensures DropChild(refs, c) == rest
  {
    if c.Some? { ReleaseAllSlots(rest, c.value.trace); }
  }

  /** Whatever else is counted, a move keeps the machine's own references and its trace in step. */
  lemma {:induction false} UpdateConserves(m: Machine, refs: Refs, rest: Refs, f: Fsm, target: nat, action: Action,
                                           msg: Message)
    returns (o: Outcome)
    requires ValidMachine(m) && Fits(m, f) && target < |m.states| && refs == rest + Slots(f.trace)
    ensures o == UpdateFsm(m, refs, f, target, action, msg)
    ensures o.refs == rest + Slots(o.fsm.trace)
    decreases Room(m, target), 2, 0
  {
    o := UpdateFsm(m, refs, f, target, action, msg);
    RecordConserves(refs, rest, f, msg);
    var (refs1, f1) := Record(refs, f, msg);
    if m.states[target].out != [] && m.states[target].temporary {
      var _ := FireConserves(m, refs1, rest, f1.(state := target), |m.states[target].out|, msg);
    }
  }

  lemma {:induction false} FireConserves(m: Machine, refs: Refs, rest: Refs, f: Fsm, i: nat, msg: Message)
      returns (o: Outcome)
    requires ValidMachine(m) && Fits(m, f) && refs == rest + Slots(f.trace)
    ensures o == FireDown(m, refs, f, i, msg)
    ensures o.refs == rest + Slots(o.fsm.trace)
    decreases Room(m, f.state), 1, i, 1
  {
    if i > 0 {
      hide FireDown, HandleEvent, AfterTry;
      var e := HandleConserves(m, refs, rest, f, i - 1, msg);
      FireOnce(m, refs, f, i, msg, e);
      o := FireRest(m, rest, f, i, msg, e);
    } else {
      o := FireDown(m, refs, f, i, msg);
    }
  }

  lemma {:induction false} FireRest(m: Machine, rest: Refs, f: Fsm, i: nat, msg: Message, e: EventOutcome)
      returns (o: Outcome)
    requires ValidMachine(m) && i > 0 && Fits(m, e.fsm) && Rank(m.states, e.fsm.state) >= Rank(m.states, f.state)
    requires f.state < |m.states|
    requires e.refs == rest + Slots(e.fsm.trace) + ChildSlots(e.child)
    ensures o == AfterTry(m, i, msg, e) && o.refs == rest + Slots(o.fsm.trace)
    decreases Room(m, f.state), 1, i, 0
  {
    hide FireDown, Slots, DropChild, ChildSlots;
    DropChildConserves(e.refs, rest + Slots(e.fsm.trace), e.child);
    if e.res == NoChange {
      o := FireConserves(m, DropChild(e.refs, e.child), rest, e.fsm, i - 1, msg);
    } else {
      o := AfterTry(m, i, msg, e);
    }
  }

  ghost function AfterTry(m: Machine, i: nat, msg: Message, e: EventOutcome): Outcome
    requires ValidMachine(m) && Fits(m, e.fsm) && i > 0
  {
    if e.res != NoChange then Outcome(DropChild(e.refs, e.child), e.fsm, e.res)
    else FireDown(m, DropChild(e.refs, e.child), e.fsm, i - 1, msg)
  }

  lemma FireOnce(m: Machine, refs: Refs, f: Fsm, i: nat, msg: Message, e: EventOutcome)
    requires ValidMachine(m) && Fits(m, f) && i > 0 && e == HandleEvent(m, refs, f, i - 1, msg)
    ensures FireDown(m, refs, f, i, msg) == AfterTry(m, i, msg, e)
  {}

  /** Handling an event keeps every count equal to the slots that refer to the message, the child's included. */
  lemma {:induction false} HandleConserves(m: Machine, refs: Refs, rest: Refs, f: Fsm, i: nat, msg: Message)
      returns (o: EventOutcome)
    requires ValidMachine(m) && Fits(m, f) && refs == rest + Slots(f.trace)
    ensures o == HandleEvent(m, refs, f, i, msg)
    ensures o.refs == rest + Slots(o.fsm.trace) + ChildSlots(o.child)
    decreases Room(m, f.state), 0, 0
  {
    o := HandleEvent(m, refs, f, i, msg);
    var s := m.states[f.state];
    if i < |s.out| && msg.timestamp >= f.timeMin {
      assert RowRanked(m.states, f.state);
      var t := s.out[i];
      if !s.temporary && f.state != INIT && msg.timestamp > f.timeMax && s.out[0].event == TIMEOUT {
        var late := s.out[0].target;
        var f1 := if m.states[late].out == [] then f.(eventId := t.event) else f;
        var _ := UpdateConserves(m, refs, rest, f1, late, s.out[0].action, msg);
      } else if t.event != TIMEOUT {
        var f1 := f.(eventId := t.event);
        if m.guard(t.event, msg, f1.trace) {
          if t.action == CreateInstance && m.states[t.target].out != [] {
            RetainAllSlots(refs, f1.trace);
            var _ := UpdateConserves(m, RetainAll(refs, f1.trace), refs, f1, t.target, t.action, msg);
          } else {
            var _ := UpdateConserves(m, refs, rest, f1, t.target, t.action, msg);
          }
        }
      }
    }
  }
}
