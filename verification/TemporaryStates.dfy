/** The timeout transitions of temporary states are dead: no run of any machine depends on where they lead. */
module TemporaryStates {
  import opened Wrappers
  import opened Rules
  import opened Compiler
  import opened CompilerWellFormed
  import opened Messages
  import opened FsmRuntime

  /** Rows that differ in nothing but the timeout transitions of a temporary state. */
  predicate SameRow(s: State, t: State) {
    && t.delay == s.delay && t.temporary == s.temporary && |t.out| == |s.out|
    && forall j :: 0 <= j < |s.out| ==>
         t.out[j] == s.out[j] || (s.temporary && t.out[j].event == s.out[j].event == TIMEOUT)
  }

  ghost predicate SameButTimeouts(m: Machine, n: Machine) {
    && ValidMachine(m) && ValidMachine(n) && n.size == m.size && |n.states| == |m.states|
    && (forall e, msg, tr :: n.guard(e, msg, tr) == m.guard(e, msg, tr))
    && forall k :: 0 <= k < |m.states| ==> SameRow(m.states[k], n.states[k])
  }

  /** A temporary state does not react to its timeout transition, however late it is. */
  lemma TimeoutIgnored(m: Machine, refs: Refs, f: Fsm, i: nat, msg: Message)
    requires ValidMachine(m) && Fits(m, f) && m.states[f.state].temporary
    requires i < |m.states[f.state].out| && m.states[f.state].out[i].event == TIMEOUT
    ensures HandleEvent(m, refs, f, i, msg) == EventOutcome(refs, f, None, NoChange)
  {}

  lemma {:induction false} UpdateSame(m: Machine, n: Machine, refs: Refs, f: Fsm, target: nat, action: Action,
                                      msg: Message)
    requires SameButTimeouts(m, n) && Fits(m, f) && target < |m.states|
    ensures UpdateFsm(m, refs, f, target, action, msg) == UpdateFsm(n, refs, f, target, action, msg)
    decreases Room(m, target), 2, 0
  {
    assert SameRow(m.states[target], n.states[target]);
    var (refs1, f1) := Record(refs, f, msg);
    if m.states[target].out != [] && m.states[target].temporary {
      FireSame(m, n, refs1, f1.(state := target), |m.states[target].out|, msg);
    }
  }

  lemma FireNone(m: Machine, refs: Refs, f: Fsm, msg: Message)
    requires ValidMachine(m) && Fits(m, f)
    ensures FireDown(m, refs, f, 0, msg) == Outcome(refs, f, NoChange)
  {}

  lemma {:induction false} FireSame(m: Machine, n: Machine, refs: Refs, f: Fsm, i: nat, msg: Message)
    requires SameButTimeouts(m, n) && Fits(m, f)
    ensures FireDown(m, refs, f, i, msg) == FireDown(n, refs, f, i, msg)
    decreases Room(m, f.state), 1, i, 1
  {
    hide HandleEvent, FireDown, AfterTry, ValidMachine;
    if i == 0 {
      FireNone(m, refs, f, msg);
      FireNone(n, refs, f, msg);
    } else {
      HandleSame(m, n, refs, f, i - 1, msg);
      var e := HandleEvent(m, refs, f, i - 1, msg);
      FireOnce(m, refs, f, i, msg, e);
      FireOnce(n, refs, f, i, msg, e);
      AfterSame(m, n, f, i, msg, e);
    }
  }

  lemma {:induction false} AfterSame(m: Machine, n: Machine, f: Fsm, i: nat, msg: Message, e: EventOutcome)
    requires SameButTimeouts(m, n) && i > 0 && Fits(m, e.fsm) && f.state < |m.states|
    requires Rank(m.states, e.fsm.state) >= Rank(m.states, f.state)
    ensures AfterTry(m, i, msg, e) == AfterTry(n, i, msg, e)
    decreases Room(m, f.state), 1, i, 0
  {
    hide FireDown, DropChild;
    if e.res == NoChange { FireSame(m, n, DropChild(e.refs, e.child), e.fsm, i - 1, msg); }
  }

  /**
    * Redirecting timeout transitions of temporary states, or changing their actions, changes nothing that any instance
    * ever does with any message. So the failure that a rule with delay zero announces for its timeout never comes.
    */
  lemma {:induction false} HandleSame(m: Machine, n: Machine, refs: Refs, f: Fsm, i: nat, msg: Message)
    requires SameButTimeouts(m, n) && Fits(m, f)
    ensures HandleEvent(m, refs, f, i, msg) == HandleEvent(n, refs, f, i, msg)
    decreases Room(m, f.state), 0, 0
  {
    assert SameRow(m.states[f.state], n.states[f.state]);
    assert RowRanked(m.states, f.state);
    var s := m.states[f.state];
    if i < |s.out| && msg.timestamp >= f.timeMin {
      var t := s.out[i];
      if !s.temporary && f.state != INIT && msg.timestamp > f.timeMax && s.out[0].event == TIMEOUT {
        var late := s.out[0].target;
        assert SameRow(m.states[late], n.states[late]);
        var f1 := if m.states[late].out == [] then f.(eventId := t.event) else f;
        UpdateSame(m, n, refs, f1, late, s.out[0].action, msg);
      } else if t.event != TIMEOUT {
        EventSame(m, n, refs, f.(eventId := t.event), t, msg);
      } else if s.temporary {
        TimeoutIgnored(m, refs, f, i, msg);
        TimeoutIgnored(n, refs, f, i, msg);
      }
    }
  }

  lemma {:induction false} EventSame(m: Machine, n: Machine, refs: Refs, f: Fsm, t: Transition, msg: Message)
    requires SameButTimeouts(m, n) && Fits(m, f) && t.target < |m.states|
    ensures m.states[t.target].out == [] <==> n.states[t.target].out == []
    ensures UpdateFsm(m, RetainAll(refs, f.trace), f, t.target, t.action, msg)
            == UpdateFsm(n, RetainAll(refs, f.trace), f, t.target, t.action, msg)
    ensures UpdateFsm(m, refs, f, t.target, t.action, msg) == UpdateFsm(n, refs, f, t.target, t.action, msg)
    decreases Room(m, t.target), 3, 0
  {
    assert SameRow(m.states[t.target], n.states[t.target]);
    UpdateSame(m, n, RetainAll(refs, f.trace), f, t.target, t.action, msg);
    UpdateSame(m, n, refs, f, t.target, t.action, msg);
  }
}
