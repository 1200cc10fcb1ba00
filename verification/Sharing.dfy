/** Two rules in one handler that ignores flows: the verdict of one keeps the other from raising an alarm. */
module Sharing {
  import opened Wrappers
  import opened Rules
  import opened Compiler
  import opened ThenChain
  import opened Messages
  import opened FsmRuntime
  import opened ChainSteps
  import opened RuleMeaning
  import opened Engine
  import opened EngineInvariant
  import opened EngineOrigins
  import opened EngineRun
  import opened EngineComplete
  import opened EngineHerd
  import opened Handling
  import FlowSet

  /** The same rule for messages with another attribute. */
  function OtherProgram(): Program {
    FlowProgram(4).(masks := [{}, {1}, {1}])
  }

  const Knock1: Message := Message(3, 0, 7, {1}, 1)

  const Hit1: Message := Message(4, 0, 7, {1}, 2)

  /** Two messages for the first rule, then two for the other one, all of the same flow. */
  const OneFlow: seq<Message> := [Knock(1, 7), Hit(2, 7), Knock1, Hit1]

  lemma OtherPosed()
    ensures WellPosed(OtherProgram(), FlowRule) && ChainProgram(OtherProgram(), FlowChain) && Runnable(OtherProgram())
    ensures Runnable(FlowProgram(4)) && ChainOf(FlowRule) == FlowChain
    ensures ProgramMask(FlowProgram(4)) == {0} && ProgramMask(OtherProgram()) == {1}
  {
    FlowPosed(4);
    hide Compile;
    WellPosedChain(OtherProgram(), FlowRule);
    assert FlowProgram(4).masks[1] == {0} && OtherProgram().masks[1] == {1};
  }

  /** Both rules, on messages of the same flow and time. */
  ghost predicate Similar(p: Program, ms: seq<Message>) {
    && p.machine == FlowProgram(4).machine && p.maxInstances == 4
    && WellPosed(p, FlowRule) && ChainProgram(p, FlowChain) && Runnable(p)
    && Stream(FlowRule, ms) && forall m <- ms :: m.timestamp == 0 && m.flow == 7
  }

  /** An alarm of such a rule shows a message for the second event. */
  lemma AlarmShows(p: Program, ms: seq<Message>, a: Alarm)
    requires Similar(p, ms) && Runnable(p) && a in Run(p, ms).alarms
    ensures a.at < |ms| && |a.trace| == 3 && a.trace[2] == Some(ms[a.at]) && ms[a.at].body == 2
    ensures forall i :: 0 <= i < 3 && a.trace[i].Some? ==> a.trace[i].value.flow == 7
  {
    hide Compile, Run, WellPosed, Stream, ChainProgram;
    RunSound(p, FlowRule, ms);
    OtherPosed();
    hide Sound, RuleMeaning.Holds, Overdue;
    assert AlarmSound(p, FlowRule, ms, a);
    SoundShows(p, a.verdict, a.trace, ms[a.at], Seen(ms[..a.at + 1]));
    forall i | 0 <= i < 3 && a.trace[i].Some? ensures a.trace[i].value.flow == 7 {
      assert a.trace[i].value in ms;
    }
  }

  lemma SoundShows(p: Program, v: Verdict, tr: Trace, msg: Message, seen: set<Message>)
    requires p.machine == FlowProgram(4).machine && ChainOf(FlowRule) == FlowChain && ChainShape(FlowChain)
    requires v != Unknown && Sound(p, FlowRule, v, tr, msg, seen) && msg.timestamp == 0
    ensures |tr| == 3 && tr[2] == Some(msg) && msg.body == 2
    ensures forall e :: 0 <= e < |tr| && tr[e].Some? ==> tr[e].value in seen
  {
    hide Compile, ChainShape;
    assert LastOf(Root(FlowRule)) == 2;
    assert v != NotRespected;
    assert RuleMeaning.Holds(p.machine.guard, Event(2), tr, [] + Leaves(Event(1)));
  }

  lemma FirstSilent(p: Program, buffer: Option<nat>, m: Message)
    requires Similar(p, [m]) && m.body != 2
    ensures Runnable(p) && Run(p, [m]).alarms == [] && NewFlows(p, buffer, [], m) == []
  {
    hide Compile, Run, Similar;
    assert Runnable(p) by { AlsoRunnable(p, [m]); }
    assert [] + [m] == [m];
    if Run(p, [m]).alarms != [] { AlarmShows(p, [m], Run(p, [m]).alarms[0]); }
  }

  lemma AlsoRunnable(p: Program, ms: seq<Message>)
    requires Similar(p, ms)
    ensures Runnable(p)
  {}

  lemma BothSimilar()
    ensures Similar(FlowProgram(4), OneFlow[..1]) && Similar(FlowProgram(4), OneFlow[..2])
    ensures Similar(OtherProgram(), [Knock1]) && Similar(OtherProgram(), [Knock1, Hit1])
  {
    FlowPosed(4);
    OtherPosed();
    hide Compile, WellPosed, ChainProgram;
    assert OneFlow[..1] == [Knock(1, 7)] && OneFlow[..2] == [Knock(1, 7), Hit(2, 7)];
  }

  /** The second message brings an alarm, and its flow is to be ignored. */
  lemma SecondAlarms(size: nat)
    ensures Runnable(FlowProgram(4))
    ensures NewFlows(FlowProgram(4), Some(size), [Knock(1, 7)], Hit(2, 7)) == [7]
  {
    hide Compile, Run, RunStands, Similar;
    var p, k, h, m := FlowProgram(4), Knock(1, 7), Hit(2, 7), Member(1, Knock(1, 7), 1);
    OtherPosed();
    BothSimilar();
    RunStarts(4);
    assert [] + [k] == [k] && OneFlow[..2] == [k, h] == [k] + [h] && OneFlow[..1] == [k];
    RunKnock(4, [], [], Newborn, 0, 1, 7, 1);
    assert Knocked(Newborn, k, 1) == Herd([m], true, 1, 2);
    var a := RunHit(4, [k], [], Herd([m], true, 1, 2), 1, 2, 7, 0);
    assert Run(p, [k, h]).alarms == [a] by { assert [] + [a] == [a]; StandsAlarms(4, [k, h], [a]); }
    FirstSilent(p, None, k);
    AlarmShows(p, [k, h], a);
    OneFlowOnly(a.trace, 0);
    assert NewAlarm(p, [k], h) == Some(a);
  }

  lemma StandsAlarms(size: nat, msgs: seq<Message>, alarms: seq<Alarm>)
    requires size > 0 && ChainProgram(FlowProgram(size), FlowChain) && Runnable(FlowProgram(size))
    requires exists h, c :: RunStands(size, msgs, alarms, h, c)
    ensures Run(FlowProgram(size), msgs).alarms == alarms
  {
    hide Stands, Run;
  }

  lemma {:induction false} OneFlowOnly(tr: Trace, i: nat)
    requires i <= |tr| && forall j :: i <= j < |tr| && tr[j].Some? ==> tr[j].value.flow == 7
    ensures FlowsOf(tr[i..], 7) == []
    ensures FlowsOf(tr[i..], FlowSet.EMPTY) == if exists j :: i <= j < |tr| && tr[j].Some? then [7] else []
    decreases |tr| - i
  {
    if i < |tr| {
      assert tr[i..][1..] == tr[i + 1..];
      OneFlowOnly(tr, i + 1);
    }
  }

  // ---- Sharing a handler ----

  /** After the first two messages, their flow is ignored. */
  lemma FlowIgnored(size: nat, ps: seq<Program>)
    requires size >= 2 && ps == [FlowProgram(4), OtherProgram()] && AllRunnable(ps)
    ensures Handle(ps, Some(size), OneFlow[..2]) == Progress([OneFlow[..2], []], [7])
    ensures Ignored(Some(size), [7], 7)
  {
    hide Compile, Run, Ignored, ProgramMask, HandlerMask, NewFlows;
    OtherPosed();
    BothSimilar();
    var k, h := Knock(1, 7), Hit(2, 7);
    assert OneFlow[..0] == [] && OneFlow[..1] == [k] && OneFlow[..2] == [k, h];
    FirstSilent(ps[0], Some(size), k);
    SecondAlarms(size);
    IgnoredAfter(size);
    assert 0 in k.mask * ProgramMask(ps[0]) && k.mask * ProgramMask(ps[1]) == {};
    assert Handle(ps, Some(size), []) == Progress([[], []], []);
    Alone(ps, size, [], k, 0);
    assert [] + [k] == [k] && [k] + [h] == [k, h];
    assert Handle(ps, Some(size), [k]) == Progress([[k], []], []);
    hide Handle;
    Alone(ps, size, [k], h, 0);
  }

  /** A message that one rule wants, and whose flow is not ignored. */
  lemma Alone(ps: seq<Program>, size: nat, ms: seq<Message>, m: Message, j: nat)
    requires AllRunnable(ps) && j < |ps| && m.mask * ProgramMask(ps[j]) != {}
    requires forall k :: 0 <= k < |ps| && k != j ==> m.mask * ProgramMask(ps[k]) == {}
    requires !Ignored(Some(size), Handle(ps, Some(size), ms).added, m.flow)
    ensures var s := Handle(ps, Some(size), ms);
            Handle(ps, Some(size), ms + [m])
            == Progress(s.streams[j := s.streams[j] + [m]], s.added + NewFlows(ps[j], Some(size), s.streams[j], m))
  {
    hide Ignored, ProgramMask, HandlerMask, NewFlows, Offer;
    assert (ms + [m])[..|ms|] == ms;
    MaskWithin(ps, j);
    OfferOne(ps, Some(size), Handle(ps, Some(size), ms), m, 0, j);
  }

  lemma IgnoredAfter(size: nat)
    requires size >= 2
    ensures Ignored(Some(size), [7], 7) && !Ignored(Some(size), [], 7)
  {
    hide FlowSet.Run, FlowSet.Check;
    FlowSet.CheckIsSound(size, [7], 7);
    FlowSet.CheckIsSound(size, [], 7);
  }

  /** In the shared handler the other rule gets nothing. */
  lemma NothingLeft(size: nat, ps: seq<Program>, n: nat)
    requires size >= 2 && ps == [FlowProgram(4), OtherProgram()] && AllRunnable(ps) && 2 <= n <= 4
    ensures Handle(ps, Some(size), OneFlow[..n]) == Progress([OneFlow[..2], []], [7])
  {
    if n == 2 {
      FlowIgnored(size, ps);
    } else {
      NothingLeft(size, ps, n - 1);
      IgnoredAfter(size);
      assert OneFlow[..n][..n - 1] == OneFlow[..n - 1];
    }
  }

  lemma NotWanted(size: nat, ps: seq<Program>, n: nat)
    requires size >= 2 && AllRunnable(ps) && HandlerMask(ps) == {1} && n <= 2 && |ps| == 1
    ensures Handle(ps, Some(size), OneFlow[..n]) == Progress([[]], [])
  {
    hide HandlerMask;
    if n == 0 {
      assert OneFlow[..0] == [];
    } else {
      NotWanted(size, ps, n - 1);
      assert OneFlow[..n][..n - 1] == OneFlow[..n - 1];
    }
  }

  /** With a handler to itself it gets both of its messages. */
  lemma BothLeft(size: nat, ps: seq<Program>)
    requires size >= 2 && ps == [OtherProgram()] && AllRunnable(ps)
    ensures Handle(ps, Some(size), OneFlow).streams == [[Knock1, Hit1]]
  {
    hide Compile, Run, Ignored, ProgramMask, NewFlows;
    OtherPosed();
    BothSimilar();
    IgnoredAfter(size);
    FirstSilent(ps[0], Some(size), Knock1);
    var start := [Knock(1, 7), Hit(2, 7)];
    assert HandlerMask(ps) == {1} by { assert HandlerMask(ps[..0]) == {}; }
    assert 1 in Knock1.mask * ProgramMask(ps[0]) && 1 in Hit1.mask * ProgramMask(ps[0]);
    hide Handle, HandlerMask;
    NotWanted(size, ps, 2);
    assert OneFlow[..2] == start;
    Alone(ps, size, start, Knock1, 0);
    assert [] + [Knock1] == [Knock1];
    assert Handle(ps, Some(size), start + [Knock1]) == Progress([[Knock1]], []);
    Alone(ps, size, start + [Knock1], Hit1, 0);
    assert start + [Knock1] + [Hit1] == OneFlow && [Knock1] + [Hit1] == [Knock1, Hit1];
  }

  /** The two messages match the other rule, which then raises an alarm. */
  lemma OtherAlarms()
    ensures Runnable(OtherProgram()) && Run(OtherProgram(), [Knock1, Hit1]).alarms != []
  {
    hide Compile, Run;
    OtherPosed();
    BothSimilar();
    var p, msgs, idx := OtherProgram(), [Knock1, Hit1], [0, 1];
    hide WellPosed, Stream, ChainProgram;
    assert idx[..0] == [] && idx[..1] == [0] && Picked(msgs, []) == [] && Picked(msgs, [0]) == [Knock1];
    OtherMeets(p);
    NoMatchMissed(p, FlowRule, msgs, idx);
  }

  lemma OtherMeets(p: Program)
    requires p == OtherProgram() && ChainProgram(p, FlowChain)
    ensures Meets(p, FlowChain, [], Knock1) && Meets(p, FlowChain, [Knock1], Hit1)
  {
    hide Compile;
    assert WinMin(FlowChain, [Knock1]) == 0 && WinMax(FlowChain, [Knock1]) == 1;
    TraceOfAt(3, FlowChain.events, [Knock1], 1);
  }

  /**
    * A handler that ignores the flows of its verdicts does so for all of its rules: a rule that raises an alarm on its
    * own does not get any message when it shares the handler with one that has raised an alarm for the flow before.
    * So the verdicts depend on how rules are divided among the threads.
    */
  lemma SharingHides(size: nat)
    requires size >= 2
    ensures var a, b := FlowProgram(4), OtherProgram();
            && AllRunnable([a, b]) && AllRunnable([b])
            && var shared, own := Handle([a, b], Some(size), OneFlow), Handle([b], Some(size), OneFlow);
            && Run(b, shared.streams[1]).alarms == [] && Run(b, own.streams[0]).alarms != []
  {
    hide Compile, Handle, Run;
    OtherPosed();
    var a, b := FlowProgram(4), OtherProgram();
    NothingLeft(size, [a, b], 4);
    assert OneFlow[..4] == OneFlow;
    BothLeft(size, [b]);
    OtherAlarms();
    assert Run(b, []).alarms == [] by { NoAlarms(b); }
  }

  lemma NoAlarms(p: Program)
    requires Runnable(p)
    ensures Run(p, []).alarms == []
  {
    hide InitEngine;
  }
}
