/** How one instance of a THEN rule moves along its chain. */
module ChainSteps {
  import opened Wrappers
  import opened Rules
  import opened Compiler
  import opened CompilerWellFormed
  import opened ThenChain
  import opened Messages
  import opened FsmRuntime

  /** No operator lets its context and its trigger be the same message. */
  predicate Delayed(ch: Chain) {
    forall k :: 0 <= k < |ch.delays| ==> !ch.delays[k].IsZero()
  }

  /** The machine of a THEN rule without zero delays whose events are numbered without repeats from 1. */
  ghost predicate ChainMachine(m: Machine, ch: Chain) {
    && IsChain(m.states, ch)
    && Delayed(ch)
    && Distinct(ch.events)
    && (forall k :: 0 <= k < |ch.events| ==> 0 < ch.events[k] < m.size)
  }

  lemma ChainMachineValid(m: Machine, ch: Chain)
    requires ChainMachine(m, ch)
    ensures ValidMachine(m)
  {
    forall s | 0 <= s < |m.states|
      ensures RowRanked(m.states, s)
      ensures forall j :: 0 <= j < |m.states[s].out| ==> m.states[s].out[j].event < m.size
    {
      if s >= 4 { assert ChainRow(m.states, ch, s - 4); }
    }
  }

  /** The trace of an instance that has matched `ms` against the first events of the chain. */
  function TraceOf(size: nat, events: seq<nat>, ms: seq<Message>): (r: Trace)
    requires |ms| <= |events| && forall k :: 0 <= k < |events| ==> events[k] < size
    ensures |r| == size
  {
    if ms == [] then EmptyTrace(size)
    else
      var k := |ms| - 1;
      TraceOf(size, events, ms[..k])[events[k] := Some(ms[k])]
  }

  lemma {:induction false} TraceOfAt(size: nat, events: seq<nat>, ms: seq<Message>, e: nat)
    requires |ms| <= |events| && (forall k :: 0 <= k < |events| ==> events[k] < size) && Distinct(events) && e < size
    ensures e !in events[..|ms|] ==> TraceOf(size, events, ms)[e] == None
    ensures forall j :: 0 <= j < |ms| && events[j] == e ==> TraceOf(size, events, ms)[e] == Some(ms[j])
  {
    if ms != [] {
      var k := |ms| - 1;
      TraceOfAt(size, events, ms[..k], e);
      assert events[..|ms|] == events[..k] + [events[k]];
    }
  }

  /** The window in which the next event has to arrive, as the timer rules of the runtime combine it. */
  function WinMin(ch: Chain, ms: seq<Message>): nat
    requires ChainShape(ch) && 0 < |ms| < |ch.events|
  {
    var k := |ms| - 1;
    var lo := AddU64(ch.delays[k].timeMin, ms[k].timestamp);
    if k == 0 || ch.acts[k] == ResetTimer then lo else Max(WinMin(ch, ms[..k]), lo)
  }

  function WinMax(ch: Chain, ms: seq<Message>): nat
    requires ChainShape(ch) && 0 < |ms| < |ch.events|
  {
    var k := |ms| - 1;
    var hi := AddU64(ch.delays[k].timeMax, ms[k].timestamp);
    if k == 0 || ch.acts[k] == ResetTimer then hi else Min(WinMax(ch, ms[..k]), hi)
  }

  /** Message number j was taken by event number j: its guard held on the history, and it came in the window. */
  predicate AcceptAt(m: Machine, ch: Chain, ms: seq<Message>, j: nat)
    requires ChainShape(ch) && (forall k :: 0 <= k < |ch.events| ==> ch.events[k] < m.size)
    requires j < |ms| <= |ch.events|
  {
    && m.guard(ch.events[j], ms[j], TraceOf(m.size, ch.events, ms[..j]))
    && (j > 0 ==> WinMin(ch, ms[..j]) <= ms[j].timestamp <= WinMax(ch, ms[..j]))
  }

  ghost predicate Accepted(m: Machine, ch: Chain, ms: seq<Message>)
    requires ChainShape(ch) && (forall k :: 0 <= k < |ch.events| ==> ch.events[k] < m.size)
    requires |ms| <= |ch.events|
  {
    forall j :: 0 <= j < |ms| ==> AcceptAt(m, ch, ms, j)
  }

  lemma AcceptedExtend(m: Machine, ch: Chain, ms: seq<Message>, msg: Message)
    requires ChainShape(ch) && (forall k :: 0 <= k < |ch.events| ==> ch.events[k] < m.size)
    requires |ms| < |ch.events| && Accepted(m, ch, ms)
    requires m.guard(ch.events[|ms|], msg, TraceOf(m.size, ch.events, ms))
    requires |ms| > 0 ==> WinMin(ch, ms) <= msg.timestamp <= WinMax(ch, ms)
    ensures Accepted(m, ch, ms + [msg])
  {
    var u := ms + [msg];
    forall j | 0 <= j < |u| ensures AcceptAt(m, ch, u, j) {
      if j < |ms| {
        assert AcceptAt(m, ch, ms, j) && u[..j] == ms[..j];
      } else {
        assert u[..j] == ms;
      }
    }
  }

  /** Instance `f` has matched exactly `ms` and waits for the next event. */
  ghost predicate Represents(m: Machine, ch: Chain, f: Fsm, ms: seq<Message>)
    requires ChainShape(ch) && (forall k :: 0 <= k < |ch.events| ==> ch.events[k] < m.size)
  {
    && |ms| < |ch.events|
    && f.state == Place(|ch.events|, |ms|)
    && f.trace == TraceOf(m.size, ch.events, ms)
    && f.eventId < m.size
    && (if ms == [] then f.timeMin == f.timeMax == 0
        else f.timeMin == WinMin(ch, ms) && f.timeMax == WinMax(ch, ms))
  }

  /** What a message makes of an instance. */
  datatype Move = Stay | Late | Fork | Advance | Pass

  function Classify(m: Machine, ch: Chain, f: Fsm, k: nat, i: nat, msg: Message): Move
    requires ChainShape(ch) && k < |ch.events|
  {
    if msg.timestamp < f.timeMin then Stay
    else if k > 0 && msg.timestamp > f.timeMax then Late
    else if k > 0 && i == 0 then Stay
    else if !m.guard(ch.events[k], msg, f.trace) then Stay
    else if k + 1 == |ch.events| then Pass
    else if k == 0 || ch.acts[k] == CreateInstance then Fork
    else Advance
  }

  /** The instance after a call that left it where it was: only the event number may differ. */
  predicate SameButEvent(f: Fsm, g: Fsm) {
    g == f.(eventId := g.eventId)
  }

  ghost predicate MoveOk(m: Machine, ch: Chain, f: Fsm, ms: seq<Message>, i: nat, msg: Message, move: Move,
                         o: EventOutcome)
    requires ChainMachine(m, ch) && |ms| < |ch.events|
    requires |f.trace| == m.size && (move == Late ==> |ms| > 0)
  {
    match move
    case Stay => o.child == None && SameButEvent(f, o.fsm) && o.res == NoChange
    case Late =>
      && o.child == None && o.fsm.id == f.id && o.fsm.state == ch.lates[|ms| - 1]
      && o.fsm.trace == f.trace[(if i == 0 then TIMEOUT else ch.events[|ms|]) := Some(msg)]
      && o.res == FinalResult(ch.lates[|ms| - 1])
    case Fork =>
      && SameButEvent(f, o.fsm) && o.res == Changed
      && o.child.Some? && o.child.value.id == f.id && Represents(m, ch, o.child.value, ms + [msg])
    case Advance =>
      && o.child == None && o.fsm.id == f.id && o.res == Changed
      && Represents(m, ch, o.fsm, ms + [msg])
    case Pass =>
      && o.child == None && o.fsm.id == f.id && o.fsm.state == PASS && o.res == FinalReached
      && o.fsm.trace == TraceOf(m.size, ch.events, ms + [msg])
  }

  /** The transition numbers an instance offers: only the event at the start, then the timeout and the event. */
  predicate Offers(k: nat, i: nat) {
    if k == 0 then i == 0 else i <= 1
  }

  /** The moves that do not lead to a waiting state. */
  lemma HandleEnd(m: Machine, ch: Chain, refs: Refs, f: Fsm, ms: seq<Message>, i: nat, msg: Message)
      returns (o: EventOutcome)
    requires ChainMachine(m, ch) && ValidMachine(m) && Represents(m, ch, f, ms) && Offers(|ms|, i)
    requires Classify(m, ch, f, |ms|, i, msg) !in {Fork, Advance}
    ensures Fits(m, f) && o == HandleEvent(m, refs, f, i, msg)
    ensures MoveOk(m, ch, f, ms, i, msg, Classify(m, ch, f, |ms|, i, msg), o)
  {
    o := HandleEvent(m, refs, f, i, msg);
    var k := |ms|;
    if k > 0 { assert ChainRow(m.states, ch, k - 1); }
    assert (ms + [msg])[..k] == ms;
  }

  /** The moves that wait for one more event. */
  lemma HandleNext(m: Machine, ch: Chain, refs: Refs, f: Fsm, ms: seq<Message>, i: nat, msg: Message)
      returns (o: EventOutcome)
    requires ChainMachine(m, ch) && ValidMachine(m) && Represents(m, ch, f, ms) && Offers(|ms|, i)
    requires Classify(m, ch, f, |ms|, i, msg) in {Fork, Advance}
    ensures Fits(m, f) && o == HandleEvent(m, refs, f, i, msg)
    ensures MoveOk(m, ch, f, ms, i, msg, Classify(m, ch, f, |ms|, i, msg), o)
  {
    o := HandleEvent(m, refs, f, i, msg);
    var k := |ms|;
    if k > 0 { assert ChainRow(m.states, ch, k - 1); }
    assert ChainRow(m.states, ch, k);
    var u := ms + [msg];
    assert u[..k] == ms;
    assert TraceOf(m.size, ch.events, u) == TraceOf(m.size, ch.events, ms)[ch.events[k] := Some(msg)];
    if k > 0 && ch.acts[k] != ResetTimer {
      assert WinMin(ch, u) == Max(WinMin(ch, ms), AddU64(ch.delays[k].timeMin, msg.timestamp));
      assert WinMax(ch, u) == Min(WinMax(ch, ms), AddU64(ch.delays[k].timeMax, msg.timestamp));
    }
  }

  lemma HandleChain(m: Machine, ch: Chain, refs: Refs, f: Fsm, ms: seq<Message>, i: nat, msg: Message)
      returns (o: EventOutcome)
    requires ChainMachine(m, ch) && ValidMachine(m) && Represents(m, ch, f, ms) && Offers(|ms|, i)
    ensures Fits(m, f) && o == HandleEvent(m, refs, f, i, msg)
    ensures MoveOk(m, ch, f, ms, i, msg, Classify(m, ch, f, |ms|, i, msg), o)
  {
    if Classify(m, ch, f, |ms|, i, msg) in {Fork, Advance} { o := HandleNext(m, ch, refs, f, ms, i, msg); }
    else { o := HandleEnd(m, ch, refs, f, ms, i, msg); }
  }
}
