/** One verdict for each message: a run in which a match gets no alarm of its own. */
module EngineRivals {
  import opened Wrappers
  import opened Rules
  import opened Compiler
  import opened ThenChain
  import opened Messages
  import opened FsmRuntime
  import opened ChainSteps
  import opened Engine
  import opened EngineInvariant
  import opened EngineRun
  import opened EngineComplete
  import opened EngineHerd

  /** Two messages start families of the same flow, and a third completes the match of both. */
  const Rivals: seq<Message> := [Knock(1, 7), Knock(2, 7), Hit(3, 7)]

  lemma RivalsStream()
    ensures Stream(FlowRule, Rivals)
  {
    FlowPosed(4);
  }

  /** The first and the third message match the rule, and the second takes no chance away. */
  lemma FirstMatch()
    ensures MatchIn(FlowProgram(4), FlowRule, Rivals, [0, 2])
  {
    hide Compile;
    var p, idx := FlowProgram(4), [0, 2];
    FlowPosed(4);
    RivalsStream();
    hide WellPosed, Stream, ChainMachine;
    var ms := [Knock(1, 7)];
    assert idx[..0] == [] && idx[..1] == [0] && Picked(Rivals, []) == [] && Picked(Rivals, [0]) == ms;
    MeetsFirst(p);
    MeetsNext(p, ms);
    forall j: nat, i: nat | Between(idx, 3, j, i) ensures Passes(p, FlowChain, Picked(Rivals, idx[..j]), Rivals[i]) {
      assert j == 1 && i == 1;
    }
  }

  lemma MeetsFirst(p: Program)
    requires p == FlowProgram(4) && ChainProgram(p, FlowChain)
    ensures Meets(p, FlowChain, [], Knock(1, 7))
  {
    hide Compile;
  }

  lemma MeetsNext(p: Program, ms: seq<Message>)
    requires p == FlowProgram(4) && ChainProgram(p, FlowChain) && ms == [Knock(1, 7)]
    ensures Meets(p, FlowChain, ms, Hit(3, 7)) && Passes(p, FlowChain, ms, Knock(2, 7))
  {
    hide Compile;
    assert WinMin(FlowChain, ms) == 0 && WinMax(FlowChain, ms) == 1;
    TraceOfAt(3, FlowChain.events, ms, 1);
  }

  /** The only alarm of the run is for the second family, although the first one has a match, too. */
  lemma RivalUnanswered()
    ensures MatchIn(FlowProgram(4), FlowRule, Rivals, [0, 2]) && Runnable(FlowProgram(4))
    ensures var r := Run(FlowProgram(4), Rivals);
            && r.Running? && |r.alarms| == 1
            && !Own(FlowRule, r.alarms[0], Rivals[0]) && Own(FlowRule, r.alarms[0], Rivals[1])
  {
    FirstMatch();
    hide Compile, RunStands, Knocked, Dropped, Run, MatchIn;
    FlowPosed(4);
    RunStarts(4);
    var k1, k2 := Knock(1, 7), Knock(2, 7);
    var m1, m2 := Member(1, k1, 1), Member(2, k2, 2);
    RivalHerds();
    assert [] + [k1] == [k1] && [k1] + [k2] == [k1, k2] && [k1, k2] + [Hit(3, 7)] == Rivals;
    RunKnock(4, [], [], Newborn, 0, 1, 7, 1);
    RunKnock(4, [k1], [], Herd([m1], true, 1, 2), 1, 2, 7, 2);
    var a := RunHit(4, [k1, k2], [], Herd([m2, m1], true, 2, 3), 2, 3, 7, 0);
    assert [] + [a] == [a];
    RivalAlarm(a);
  }

  lemma RivalHerds()
    ensures var m1, m2 := Member(1, Knock(1, 7), 1), Member(2, Knock(2, 7), 2);
            && Knocked(Newborn, Knock(1, 7), 1) == Herd([m1], true, 1, 2)
            && Knocked(Herd([m1], true, 1, 2), Knock(2, 7), 2) == Herd([m2, m1], true, 2, 3)
  {}

  lemma RivalAlarm(a: Alarm)
    requires |a.trace| == 3 && a.trace[1] == Some(Knock(2, 7))
    requires exists h :: ChainProgram(FlowProgram(4), FlowChain) && RunStands(4, Rivals, [a], h, 3)
    ensures ChainProgram(FlowProgram(4), FlowChain) && Runnable(FlowProgram(4))
    ensures var r := Run(FlowProgram(4), Rivals);
            && r.Running? && |r.alarms| == 1
            && !Own(FlowRule, r.alarms[0], Rivals[0]) && Own(FlowRule, r.alarms[0], Rivals[1])
  {
    hide Compile, Stands, Run;
    assert Leaves(Root(FlowRule)) == [1, 2];
  }
}
