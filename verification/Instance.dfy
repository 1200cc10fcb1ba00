/** Machine instances as mutable objects that share the reference counts of messages. */
module Instance {
  import opened Wrappers
  import opened Rules
  import opened Compiler
  import opened CompilerWellFormed
  import opened Messages
  import opened FsmRuntime
  import opened SinglePacket

  class Memory {
    var refs: Refs

    method AtomicRetain(m: Message)
      modifies this
      ensures refs[m] == old(refs[m]) + 1 && forall x :: x != m ==> refs[x] == old(refs[x])
    {
      refs := refs + multiset{m};
    }

    method FreeMessage(m: Message)
      modifies this
      ensures m in refs <==> old(refs[m]) > 1
      ensures m in refs ==> refs[m] == old(refs[m]) - 1
      ensures forall x :: x != m ==> refs[x] == old(refs[x])
    {
      if refs[m] <= 1 {
        refs := refs[m := 0];
      } else {
        refs := refs[m := refs[m] - 1];
      }
    }
  }

  class Instance {
    var timeMin: nat
    var timeMax: nat
    var id: nat
    var eventId: nat
    var state: nat
    const trace: array<Option<Message>>

    function View(): Fsm
      reads this, trace
    {
      Fsm(timeMin, timeMax, id, eventId, state, trace[..])
    }

    constructor (m: Machine)
      ensures View() == NewFsm(m) && fresh(trace)
    {
      timeMin, timeMax, id, eventId, state := 0, 0, 0, 0, INIT;
      trace := new Option<Message>[m.size](_ => None);
    }

    /** A copy of `f`; every message in its trace gets one more reference. */
    constructor Clone(f: Instance, mem: Memory)
      modifies mem
      ensures View() == f.View() && fresh(trace)
      ensures mem.refs == RetainAll(old(mem.refs), f.trace[..])
    {
      timeMin, timeMax, id, eventId, state := f.timeMin, f.timeMax, f.id, f.eventId, f.state;
      trace := new Option<Message>[f.trace.Length](_ => None);
      new;
      var n := f.trace.Length;
      for i := 0 to n
        invariant View().(trace := f.trace[..]) == f.View()
        invariant trace.Length == n && trace[..i] == f.trace[..i]
        invariant mem.refs == RetainAll(old(mem.refs), f.trace[..i])
      {
        ghost var before := mem.refs;
        if f.trace[i].Some? {
          mem.AtomicRetain(f.trace[i].value);
          assert mem.refs == Retain(before, f.trace[i].value);
        }
        trace[i] := f.trace[i];
        assert f.trace[..i + 1][..i] == f.trace[..i];
      }
      assert f.trace[..n] == f.trace[..] && trace[..n] == trace[..];
    }

    /** Gives back every message of the trace. */
    method Free(mem: Memory)
      modifies mem
      ensures mem.refs == ReleaseAll(old(mem.refs), trace[..])
    {
      for i := 0 to trace.Length
        invariant mem.refs == ReleaseAll(old(mem.refs), trace[..i])
      {
        ghost var before := mem.refs;
        if trace[i].Some? {
          mem.FreeMessage(trace[i].value);
          assert mem.refs == Release(before, trace[i].value);
        }
        assert trace[..i + 1][..i] == trace[..i];
      }
      assert trace[..trace.Length] == trace[..];
    }

    method Reset(mem: Memory)
      modifies this, trace, mem
      ensures mem.refs == ReleaseAll(old(mem.refs), old(trace[..]))
      ensures View() == old(View()).(state := INIT, eventId := 0, trace := EmptyTrace(trace.Length))
    {
      state := INIT;
      eventId := 0;
      ghost var was := trace[..];
      for i := 0 to trace.Length
        modifies trace, mem
        invariant mem.refs == ReleaseAll(old(mem.refs), was[..i])
        invariant forall k :: 0 <= k < trace.Length ==> trace[k] == if k < i then None else was[k]
      {
        ghost var before := mem.refs;
        if trace[i].Some? {
          mem.FreeMessage(trace[i].value);
          assert mem.refs == Release(before, trace[i].value);
        }
        trace[i] := None;
        assert was[..i + 1][..i] == was[..i];
      }
      assert was[..trace.Length] == was;
      assert trace[..] == EmptyTrace(trace.Length);
    }

    method StoreMessage(mem: Memory, msg: Message)
      requires eventId < trace.Length
      modifies trace, mem
      ensures (mem.refs, View()) == Record(old(mem.refs), old(View()), msg)
    {
      if trace[eventId].Some? {
        mem.FreeMessage(trace[eventId].value);
        assert mem.refs == Release(old(mem.refs), trace[eventId].value);
      }
      ghost var dropped := mem.refs;
      mem.AtomicRetain(msg);
      assert mem.refs == Retain(dropped, msg);
      trace[eventId] := Some(msg);
      assert trace[..] == old(trace[..])[eventId := Some(msg)];
    }

    method UpdateDeadline(delay: Delay, now: nat, reset: bool)
      modifies this
      ensures View() == Rearm(old(View()), delay, now, reset)
    {
      var lo, hi := AddU64(delay.timeMin, now), AddU64(delay.timeMax, now);
      if reset {
        timeMin, timeMax := lo, hi;
      } else {
        if lo > timeMin { timeMin := lo; }
        if hi < timeMax { timeMax := hi; }
      }
    }

    method Update(m: Machine, mem: Memory, target: nat, action: Action, msg: Message) returns (res: Result)
      requires ValidMachine(m) && Fits(m, View()) && target < |m.states|
      modifies this, trace, mem
      ensures Outcome(mem.refs, View(), res) == UpdateFsm(m, old(mem.refs), old(View()), target, action, msg)
      decreases Room(m, target), 2, 0
    {
      StoreMessage(mem, msg);
      var previous := state;
      state := target;
      if m.states[target].out == [] {
        return FinalResult(target);
      }
      if m.states[target].temporary {
        res := FireTransitions(m, mem, |m.states[target].out|, msg);
        return;
      }
      UpdateDeadline(m.states[target].delay, msg.timestamp, action == ResetTimer || previous == INIT);
      res := Changed;
    }

    /** Tries the transitions of a temporary state from the last down to the first. */
    method FireTransitions(m: Machine, mem: Memory, n: nat, msg: Message) returns (res: Result)
      requires ValidMachine(m) && Fits(m, View())
      modifies this, trace, mem
      ensures Outcome(mem.refs, View(), res) == FireDown(m, old(mem.refs), old(View()), n, msg)
      decreases Room(m, state), 1, n
    {
      ghost var refs0, f0 := mem.refs, View();
      for i := n downto 0
        invariant Fits(m, View()) && Rank(m.states, state) >= Rank(m.states, f0.state)
        invariant FireDown(m, mem.refs, View(), i, msg) == FireDown(m, refs0, f0, n, msg)
      {
        var child;
        res, child := Handle(m, mem, i, msg);
        if child != null { child.Free(mem); }
        if res != NoChange { return; }
      }
      res := NoChange;
    }

    method Handle(m: Machine, mem: Memory, i: nat, msg: Message) returns (res: Result, child: Instance?)
      requires ValidMachine(m) && Fits(m, View())
      modifies this, trace, mem
      ensures var o := HandleEvent(m, old(mem.refs), old(View()), i, msg);
              && mem.refs == o.refs && View() == o.fsm && res == o.res
              && (child == null <==> o.child == None)
      ensures child != null ==> fresh(child) && fresh(child.trace)
      ensures child != null ==> Some(child.View()) == HandleEvent(m, old(mem.refs), old(View()), i, msg).child
      decreases Room(m, state), 0, 0
    {
      child := null;
      var s := m.states[state];
      if i >= |s.out| { return ErrArg, null; }
      if msg.timestamp < timeMin { return NoChange, null; }
      var t := s.out[i];
      assert RowRanked(m.states, state);
      if !s.temporary && state != INIT && msg.timestamp > timeMax && s.out[0].event == TIMEOUT {
        var late := s.out[0].target;
        if m.states[late].out == [] { eventId := t.event; }
        res := Update(m, mem, late, s.out[0].action, msg);
        return;
      }
      if t.event == TIMEOUT { return NoChange, null; }
      eventId := t.event;
      if !m.guard(t.event, msg, trace[..]) { return NoChange, null; }
      if t.action == CreateInstance && m.states[t.target].out != [] {
        child := new Instance.Clone(this, mem);
        res := child.Update(m, mem, t.target, t.action, msg);
      } else {
        res := Update(m, mem, t.target, t.action, msg);
      }
    }

    /** The short cut for rules that look at one packet only. */
    method HandlePacket(m: Machine, mem: Memory, msg: Message) returns (res: Result)
      requires VerifiesSinglePacket(m) && trace.Length == m.size
      modifies this, trace, mem
      ensures Outcome(mem.refs, View(), res) == HandleSinglePacket(m, old(mem.refs), old(View()), msg)
    {
      var t := m.states[INIT].out[0];
      if !m.guard(t.event, msg, trace[..]) { return NoChange; }
      mem.AtomicRetain(msg);
      assert mem.refs == Retain(old(mem.refs), msg);
      mem.AtomicRetain(msg);
      assert mem.refs == Retain(Retain(old(mem.refs), msg), msg);
      trace[1] := Some(msg);
      assert trace[..] == old(trace[..])[1 := Some(msg)];
      var second := m.states[t.target].out[1];
      var target := second.target;
      if !m.guard(second.event, msg, trace[..]) { target := m.states[t.target].out[0].target; }
      trace[2] := Some(msg);
      assert trace[..] == old(trace[..])[1 := Some(msg)][2 := Some(msg)];
      res := FinalResult(target);
    }
  }
}
