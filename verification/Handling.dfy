/**
  * One handler and its rules: which messages each engine gets. A message that has none of the handler's attributes, or
  * whose flow is ignored because of an earlier verdict, reaches no engine; a rule gets those that have one of its own.
  */
module Handling {
  import opened Wrappers
  import opened Messages
  import opened RuleMeaning
  import opened Engine
  import opened EngineRun
  import opened Dispatch
  import FlowSet

  /** The attributes of all events of a rule. */
  function ProgramMask(p: Program): set<nat> {
    set e, a | 0 <= e < |p.masks| && a in p.masks[e] :: a
  }

  function HandlerMask(ps: seq<Program>): set<nat> {
    if ps == [] then {} else HandlerMask(ps[..|ps| - 1]) + ProgramMask(ps[|ps| - 1])
  }

  /** The messages that have an attribute of the rule. */
  function RuleStream(p: Program, ms: seq<Message>): seq<Message> {
    Wanted(ms, ProgramMask(p))
  }

  ghost predicate AllRunnable(ps: seq<Program>) {
    forall j :: 0 <= j < |ps| ==> Runnable(ps[j])
  }

  /**
    * `streams` holds what each engine has got so far, and `added` the flows that verdicts have put into the set of
    * ignored flows, in order.
    */
  datatype Progress = Progress(streams: seq<seq<Message>>, added: seq<nat>)

  /** The flows of a trace, without repeating the one just added; `last` is that one. */
  function FlowsOf(tr: Trace, last: nat): seq<nat> {
    if tr == [] then []
    else
      match tr[0]
      case None => FlowsOf(tr[1..], last)
      case Some(m) => if m.flow == last then FlowsOf(tr[1..], last) else [m.flow] + FlowsOf(tr[1..], m.flow)
  }

  /** `buffer` is the size of the set of ignored flows; without one, no flow is ignored. */
  predicate Ignored(buffer: Option<nat>, added: seq<nat>, flow: nat) {
    buffer.Some? && var f := FlowSet.Run(buffer.value, added); f.slots != [] && FlowSet.Check(f, flow)
  }

  /** The alarm that one more message brings to an engine. */
  function NewAlarm(p: Program, ms: seq<Message>, m: Message): Option<Alarm>
    requires Runnable(p)
  {
    var before, after := Run(p, ms).alarms, Run(p, ms + [m]).alarms;
    if |after| > |before| then Some(after[|after| - 1]) else None
  }

  /** The flows to be ignored from now on because of the verdict that one more message brings to an engine. */
  function NewFlows(p: Program, buffer: Option<nat>, ms: seq<Message>, m: Message): seq<nat>
    requires Runnable(p)
  {
    var a := NewAlarm(p, ms, m);
    if buffer.Some? && a.Some? then FlowsOf(a.value.trace, FlowSet.EMPTY) else []
  }

  /** Offers the message to the rules i, i + 1, ... */
  function Offer(ps: seq<Program>, buffer: Option<nat>, s: Progress, m: Message, i: nat): (r: Progress)
    requires AllRunnable(ps) && |s.streams| == |ps|
    ensures |r.streams| == |ps|
    decreases |ps| - i
  {
    if i >= |ps| then s
    else if m.mask * ProgramMask(ps[i]) == {} then Offer(ps, buffer, s, m, i + 1)
    else
      var more := NewFlows(ps[i], buffer, s.streams[i], m);
      Offer(ps, buffer, Progress(s.streams[i := s.streams[i] + [m]], s.added + more), m, i + 1)
  }

  /** The handler after these messages. */
  function Handle(ps: seq<Program>, buffer: Option<nat>, ms: seq<Message>): (s: Progress)
    requires AllRunnable(ps)
    ensures |s.streams| == |ps|
  {
    if ms == [] then Progress(seq(|ps|, _ => []), [])
    else
      var s, m := Handle(ps, buffer, ms[..|ms| - 1]), ms[|ms| - 1];
      if m.mask * HandlerMask(ps) == {} || Ignored(buffer, s.added, m.flow) then s
      else Offer(ps, buffer, s, m, 0)
  }

  // ---- What each engine gets ----

  lemma {:induction false} MaskWithin(ps: seq<Program>, j: nat)
    requires j < |ps|
    ensures ProgramMask(ps[j]) <= HandlerMask(ps)
  {
    if j < |ps| - 1 { MaskWithin(ps[..|ps| - 1], j); }
  }

  lemma {:induction false} OfferStreams(ps: seq<Program>, buffer: Option<nat>, s: Progress, m: Message, i: nat, j: nat)
    requires AllRunnable(ps) && |s.streams| == |ps| && j < |ps|
    ensures Offer(ps, buffer, s, m, i).streams[j]
         == if j >= i && m.mask * ProgramMask(ps[j]) != {} then s.streams[j] + [m] else s.streams[j]
    ensures buffer.None? ==> Offer(ps, buffer, s, m, i).added == s.added
    decreases |ps| - i
  {
    hide ProgramMask, NewAlarm, FlowsOf;
    if i < |ps| {
      if m.mask * ProgramMask(ps[i]) == {} {
        OfferStreams(ps, buffer, s, m, i + 1, j);
      } else {
        var more := NewFlows(ps[i], buffer, s.streams[i], m);
        OfferStreams(ps, buffer, Progress(s.streams[i := s.streams[i] + [m]], s.added + more), m, i + 1, j);
      }
    }
  }

  /** What becomes of a message with attributes of one rule only. */
  lemma {:induction false} OfferOne(ps: seq<Program>, buffer: Option<nat>, s: Progress, m: Message, i: nat, j: nat)
    requires AllRunnable(ps) && |s.streams| == |ps| && j < |ps| && m.mask * ProgramMask(ps[j]) != {}
    requires forall k :: 0 <= k < |ps| && k != j ==> m.mask * ProgramMask(ps[k]) == {}
    ensures Offer(ps, buffer, s, m, i)
         == if j < i then s
            else Progress(s.streams[j := s.streams[j] + [m]], s.added + NewFlows(ps[j], buffer, s.streams[j], m))
    decreases |ps| - i
  {
    hide ProgramMask, NewFlows;
    if i < |ps| {
      var more := NewFlows(ps[i], buffer, s.streams[i], m);
      if i == j { OfferOne(ps, buffer, Progress(s.streams[i := s.streams[i] + [m]], s.added + more), m, i + 1, j); }
      else { OfferOne(ps, buffer, s, m, i + 1, j); }
    }
  }

  /**
    * An engine gets a message if and only if it has an attribute of its rule and its flow is not ignored at that
    * time.
    */
  lemma EngineGets(ps: seq<Program>, buffer: Option<nat>, ms: seq<Message>, m: Message, j: nat)
    requires AllRunnable(ps) && j < |ps|
    ensures Handle(ps, buffer, ms + [m]).streams[j]
         == Handle(ps, buffer, ms).streams[j]
            + if m.mask * ProgramMask(ps[j]) != {} && !Ignored(buffer, Handle(ps, buffer, ms).added, m.flow)
                then [m] else []
  {
    assert (ms + [m])[..|ms|] == ms;
    var s := Handle(ps, buffer, ms);
    MaskWithin(ps, j);
    OfferStreams(ps, buffer, s, m, 0, j);
    hide Ignored, ProgramMask, HandlerMask, Offer;
    assert s.streams[j] + [] == s.streams[j];
    if m.mask * HandlerMask(ps) == {} { assert m.mask * ProgramMask(ps[j]) == {}; }
  }

  lemma {:induction false} StreamsGrow(ps: seq<Program>, buffer: Option<nat>, ms: seq<Message>, n: nat, j: nat)
    requires AllRunnable(ps) && j < |ps| && n <= |ms|
    ensures Handle(ps, buffer, ms[..n]).streams[j] <= Handle(ps, buffer, ms).streams[j]
    decreases |ms|
  {
    hide Handle;
    if n < |ms| {
      var init, m := ms[..|ms| - 1], ms[|ms| - 1];
      StreamsGrow(ps, buffer, init, n, j);
      assert init[..n] == ms[..n] && init + [m] == ms;
      EngineGets(ps, buffer, init, m, j);
    } else {
      assert ms[..n] == ms;
    }
  }

  /** Without ignoring, a rule gets every message that has one of its attributes, whoever shares the handler. */
  lemma {:induction false} NothingIgnored(ps: seq<Program>, ms: seq<Message>, j: nat)
    requires AllRunnable(ps) && j < |ps|
    ensures Handle(ps, None, ms).streams[j] == RuleStream(ps[j], ms)
  {
    hide ProgramMask;
    if ms != [] {
      var init, m := ms[..|ms| - 1], ms[|ms| - 1];
      NothingIgnored(ps, init, j);
      assert init + [m] == ms;
      EngineGets(ps, None, init, m, j);
    }
  }

  /** What the dispatcher's test with the handler's mask takes away makes no difference to the handler. */
  lemma {:induction false} FilterTwice(ps: seq<Program>, buffer: Option<nat>, ms: seq<Message>, mask: set<nat>)
    requires AllRunnable(ps) && HandlerMask(ps) <= mask
    ensures Handle(ps, buffer, Wanted(ms, mask)) == Handle(ps, buffer, ms)
  {
    hide Offer, Ignored, HandlerMask;
    if ms != [] {
      var init, m := ms[..|ms| - 1], ms[|ms| - 1];
      FilterTwice(ps, buffer, init, mask);
      var w := Wanted(init, mask);
      if m.mask * mask != {} {
        assert Wanted(ms, mask) == w + [m] && (w + [m])[..|w|] == w;
      } else {
        assert m.mask * HandlerMask(ps) == {};
        assert Wanted(ms, mask) == w;
      }
    }
  }

  /** What an engine gets comes from the handler's messages, in their order. */
  lemma {:induction false} StreamsFrom(ps: seq<Program>, buffer: Option<nat>, ms: seq<Message>, j: nat)
    requires AllRunnable(ps) && j < |ps|
    ensures var r := Handle(ps, buffer, ms).streams[j];
            && |r| <= |ms| && (forall m <- r :: m in ms) && (Increasing(ms) ==> Increasing(r))
  {
    hide ProgramMask, Ignored;
    if ms != [] {
      var init, m := ms[..|ms| - 1], ms[|ms| - 1];
      StreamsFrom(ps, buffer, init, j);
      assert init + [m] == ms;
      EngineGets(ps, buffer, init, m, j);
      hide Handle;
      if Increasing(ms) { LastIsGreatest(init, m); }
    }
  }

  lemma LastIsGreatest(init: seq<Message>, m: Message)
    requires Increasing(init + [m])
    ensures Increasing(init) && forall x <- init :: x.counter < m.counter
  {
    var ms := init + [m];
    forall i | 0 <= i < |init| ensures init[i].counter < m.counter { assert ms[i] == init[i] && ms[|init|] == m; }
    forall i, j | 0 <= i < j < |init| ensures init[i].counter < init[j].counter {
      assert ms[i] == init[i] && ms[j] == init[j];
    }
  }

  // ---- Which flows are ignored ----

  lemma {:induction false} FlowsFrom(tr: Trace, last: nat)
    ensures forall flow <- FlowsOf(tr, last) :: exists m :: Some(m) in tr && m.flow == flow
  {
    if tr != [] {
      assert tr == [tr[0]] + tr[1..];
      match tr[0]
      case None => FlowsFrom(tr[1..], last);
      case Some(m) => FlowsFrom(tr[1..], if m.flow == last then last else m.flow);
    }
  }

  /** A verdict of one of these engines has a message of this flow in its trace. */
  ghost predicate Accused(ps: seq<Program>, streams: seq<seq<Message>>, flow: nat)
    requires AllRunnable(ps) && |streams| == |ps|
  {
    exists j, a, m :: 0 <= j < |ps| && a in Run(ps[j], streams[j]).alarms && Some(m) in a.trace && m.flow == flow
  }

  lemma AccusedLater(ps: seq<Program>, streams: seq<seq<Message>>, j: nat, m: Message, flow: nat)
    requires AllRunnable(ps) && |streams| == |ps| && j < |ps| && Accused(ps, streams, flow)
    ensures Accused(ps, streams[j := streams[j] + [m]], flow)
  {
    hide Run;
    var more := streams[j := streams[j] + [m]];
    assert (streams[j] + [m])[..|streams[j]|] == streams[j];
    AlarmsGrow(ps[j], streams[j] + [m], |streams[j]|);
    var k, a, x :| 0 <= k < |ps| && a in Run(ps[k], streams[k]).alarms && Some(x) in a.trace && x.flow == flow;
    assert a in Run(ps[k], more[k]).alarms;
  }

  ghost predicate AllAccused(ps: seq<Program>, s: Progress)
    requires AllRunnable(ps) && |s.streams| == |ps|
  {
    forall flow <- s.added :: Accused(ps, s.streams, flow)
  }

  lemma {:induction false} OfferAccused(ps: seq<Program>, buffer: Option<nat>, s: Progress, m: Message, i: nat)
    requires AllRunnable(ps) && |s.streams| == |ps| && AllAccused(ps, s)
    ensures AllAccused(ps, Offer(ps, buffer, s, m, i))
    decreases |ps| - i
  {
    hide Accused, ProgramMask, NewFlows, AllAccused;
    if i < |ps| {
      if m.mask * ProgramMask(ps[i]) == {} {
        OfferAccused(ps, buffer, s, m, i + 1);
      } else {
        var more := NewFlows(ps[i], buffer, s.streams[i], m);
        var t := Progress(s.streams[i := s.streams[i] + [m]], s.added + more);
        assert AllAccused(ps, t) by { OneMoreAccused(ps, buffer, s, m, i); }
        OfferAccused(ps, buffer, t, m, i + 1);
      }
    }
  }

  lemma OneMoreAccused(ps: seq<Program>, buffer: Option<nat>, s: Progress, m: Message, i: nat)
    requires AllRunnable(ps) && |s.streams| == |ps| && AllAccused(ps, s) && i < |ps|
    ensures var more := NewFlows(ps[i], buffer, s.streams[i], m);
            AllAccused(ps, Progress(s.streams[i := s.streams[i] + [m]], s.added + more))
  {
    hide Accused, NewFlows;
    var more := NewFlows(ps[i], buffer, s.streams[i], m);
    forall flow <- s.added + more ensures Accused(ps, s.streams[i := s.streams[i] + [m]], flow) {
      if flow in s.added { AccusedLater(ps, s.streams, i, m, flow); }
      else { NewlyAccused(ps, buffer, s.streams, i, m, flow); }
    }
  }

  lemma NewlyAccused(ps: seq<Program>, buffer: Option<nat>, streams: seq<seq<Message>>, i: nat, m: Message, flow: nat)
    requires AllRunnable(ps) && |streams| == |ps| && i < |ps| && flow in NewFlows(ps[i], buffer, streams[i], m)
    ensures Accused(ps, streams[i := streams[i] + [m]], flow)
  {
    hide Run;
    var a := NewAlarm(ps[i], streams[i], m).value;
    FlowsFrom(a.trace, FlowSet.EMPTY);
    assert a in Run(ps[i], streams[i] + [m]).alarms;
  }

  lemma {:induction false} AddedAccused(ps: seq<Program>, buffer: Option<nat>, ms: seq<Message>)
    requires AllRunnable(ps)
    ensures AllAccused(ps, Handle(ps, buffer, ms))
  {
    hide Accused, Offer, Ignored, HandlerMask;
    if ms == [] {
      assert Handle(ps, buffer, ms).added == [];
    } else {
      hide AllAccused;
      AddedAccused(ps, buffer, ms[..|ms| - 1]);
      OfferAccused(ps, buffer, Handle(ps, buffer, ms[..|ms| - 1]), ms[|ms| - 1], 0);
    }
  }

  /** A flow is ignored only if a verdict of this handler has had one of its messages in the trace. */
  lemma IgnoredIsAccused(ps: seq<Program>, size: nat, ms: seq<Message>, flow: nat)
    requires AllRunnable(ps) && size >= 2
    ensures var s := Handle(ps, Some(size), ms);
            Ignored(Some(size), s.added, flow) ==> Accused(ps, s.streams, flow)
  {
    AddedAccused(ps, Some(size), ms);
    FlowSet.CheckIsSound(size, Handle(ps, Some(size), ms).added, flow);
  }

  // ---- Sharing a handler ----

  /** Before each message that the rule wants, both handlers ignore its flow, or none does. */
  ghost predicate SameIgnored(ps: seq<Program>, qs: seq<Program>, buffer: Option<nat>, ms: seq<Message>, p: Program)
    requires AllRunnable(ps) && AllRunnable(qs)
  {
    forall n :: 0 <= n < |ms| && ms[n].mask * ProgramMask(p) != {} ==>
      (Ignored(buffer, Handle(ps, buffer, ms[..n]).added, ms[n].flow)
       <==> Ignored(buffer, Handle(qs, buffer, ms[..n]).added, ms[n].flow))
  }

  ghost predicate SameAt(ps: seq<Program>, qs: seq<Program>, buffer: Option<nat>, ms: seq<Message>, j: nat, k: nat,
                         n: nat)
    requires AllRunnable(ps) && AllRunnable(qs) && j < |ps| && k < |qs| && n <= |ms|
  {
    Handle(ps, buffer, ms[..n]).streams[j] == Handle(qs, buffer, ms[..n]).streams[k]
  }

  lemma SameNext(ps: seq<Program>, qs: seq<Program>, buffer: Option<nat>, ms: seq<Message>, j: nat, k: nat, n: nat)
    requires AllRunnable(ps) && AllRunnable(qs) && j < |ps| && k < |qs| && ps[j] == qs[k] && n < |ms|
    requires SameAt(ps, qs, buffer, ms, j, k, n)
    ensures SameAt(ps, qs, buffer, ms, j, k, n + 1)
        <==> (ms[n].mask * ProgramMask(ps[j]) != {} ==>
                (Ignored(buffer, Handle(ps, buffer, ms[..n]).added, ms[n].flow)
                 <==> Ignored(buffer, Handle(qs, buffer, ms[..n]).added, ms[n].flow)))
  {
    assert ms[..n + 1] == ms[..n] + [ms[n]];
    EngineGets(ps, buffer, ms[..n], ms[n], j);
    EngineGets(qs, buffer, ms[..n], ms[n], k);
    hide Handle, Ignored, ProgramMask;
    var s := Handle(ps, buffer, ms[..n]).streams[j];
    assert s + [] != s + [ms[n]];
  }

  /**
    * A rule that moves to another handler gets the same messages at all times, and so raises the same alarms, if and
    * only if both handlers ignore the same of the messages that it wants.
    */
  lemma {:induction false} SameStreamsIff(ps: seq<Program>, qs: seq<Program>, buffer: Option<nat>, ms: seq<Message>,
                                          j: nat, k: nat)
    requires AllRunnable(ps) && AllRunnable(qs) && j < |ps| && k < |qs| && ps[j] == qs[k]
    ensures (forall n :: 0 <= n <= |ms| ==> SameAt(ps, qs, buffer, ms, j, k, n))
        <==> SameIgnored(ps, qs, buffer, ms, ps[j])
  {
    hide Handle, Ignored, ProgramMask;
    if forall n :: 0 <= n <= |ms| ==> SameAt(ps, qs, buffer, ms, j, k, n) {
      forall n | 0 <= n < |ms| && ms[n].mask * ProgramMask(ps[j]) != {}
        ensures Ignored(buffer, Handle(ps, buffer, ms[..n]).added, ms[n].flow)
           <==> Ignored(buffer, Handle(qs, buffer, ms[..n]).added, ms[n].flow)
      {
        assert SameAt(ps, qs, buffer, ms, j, k, n) && SameAt(ps, qs, buffer, ms, j, k, n + 1);
        SameNext(ps, qs, buffer, ms, j, k, n);
      }
    }
    if SameIgnored(ps, qs, buffer, ms, ps[j]) {
      forall n: nat | n <= |ms| ensures SameAt(ps, qs, buffer, ms, j, k, n) { SameUpTo(ps, qs, buffer, ms, j, k, n); }
    }
  }

  lemma {:induction false} SameUpTo(ps: seq<Program>, qs: seq<Program>, buffer: Option<nat>, ms: seq<Message>,
                                    j: nat, k: nat, n: nat)
    requires AllRunnable(ps) && AllRunnable(qs) && j < |ps| && k < |qs| && ps[j] == qs[k] && n <= |ms|
    requires SameIgnored(ps, qs, buffer, ms, ps[j])
    ensures SameAt(ps, qs, buffer, ms, j, k, n)
  {
    if n == 0 {
      assert ms[..0] == [];
    } else {
      hide Handle, Ignored, ProgramMask, SameAt;
      SameUpTo(ps, qs, buffer, ms, j, k, n - 1);
      SameNext(ps, qs, buffer, ms, j, k, n - 1);
    }
  }
}
