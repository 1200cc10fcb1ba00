/**
  * The rings and the engines together: whatever the schedule, a rule sees in its worker the messages that it would
  * see in a single thread, and so raises the same alarms.
  */
module Pipeline {
  import opened Wrappers
  import opened Rules
  import opened Messages
  import opened ThenChain
  import opened RuleMeaning
  import opened Engine
  import opened EngineInvariant
  import opened EngineRun
  import opened Dispatch
  import opened Handling

  /** Worker i has the rules `ps`, and the attributes that it asks for include theirs. */
  ghost predicate Serves(cfg: Config, i: nat, ps: seq<Program>) {
    i < |cfg.handlers| && AllRunnable(ps) && HandlerMask(ps) <= cfg.handlers[i]
  }

  /** What a worker has done so far is what a single thread had done after a prefix of the input. */
  lemma WorkerIsSequential(cfg: Config, schedule: seq<nat>, i: nat, ps: seq<Program>, buffer: Option<nat>)
    returns (n: nat)
    requires cfg.size >= 2 && Serves(cfg, i, ps)
    ensures n <= |cfg.input|
    ensures Handle(ps, buffer, Exec(cfg, schedule).lanes[i].processed) == Handle(ps, buffer, cfg.input[..n])
  {
    hide Exec, Handle, HandlerMask;
    WholeRunDelivery(cfg, schedule, i);
    n := PrefixCut(cfg.input, cfg.handlers[i], Exec(cfg, schedule).lanes[i].processed);
    FilterTwice(ps, buffer, cfg.input[..n], cfg.handlers[i]);
  }

  lemma {:induction false} PrefixCut(ms: seq<Message>, mask: set<nat>, part: seq<Message>) returns (n: nat)
    requires part <= Wanted(ms, mask)
    ensures n <= |ms| && Wanted(ms[..n], mask) == part
  {
    n := |ms|;
    assert ms[..n] == ms;
    if part != Wanted(ms, mask) {
      var init := ms[..|ms| - 1];
      n := PrefixCut(init, mask, part);
      assert init[..n] == ms[..n];
    }
  }

  /**
    * At any time under any schedule, a rule has raised a prefix of the alarms that it would raise in a single thread,
    * also if its handler ignores flows.
    */
  lemma AlarmsAreSequential(cfg: Config, schedule: seq<nat>, i: nat, ps: seq<Program>, buffer: Option<nat>, j: nat)
    requires cfg.size >= 2 && Serves(cfg, i, ps) && j < |ps|
    ensures Run(ps[j], Handle(ps, buffer, Exec(cfg, schedule).lanes[i].processed).streams[j]).alarms
            <= Run(ps[j], Handle(ps, buffer, cfg.input).streams[j]).alarms
  {
    hide Run, Exec, Handle, HandlerMask;
    var n := WorkerIsSequential(cfg, schedule, i, ps, buffer);
    StreamsGrow(ps, buffer, cfg.input, n, j);
    var part, whole := Handle(ps, buffer, cfg.input[..n]).streams[j], Handle(ps, buffer, cfg.input).streams[j];
    assert whole[..|part|] == part;
    AlarmsGrow(ps[j], whole, |part|);
  }

  /**
    * Under every fair schedule, each worker ends in the state of a single thread: its engines have got the same
    * messages and so have given the same verdicts, and it ignores the same flows.
    */
  lemma FairRunSameVerdicts(cfg: Config, schedule: nat -> nat) returns (end: nat)
    requires cfg.size >= 3 && Fair(cfg, schedule)
    ensures AllExited(At(cfg, schedule, end))
    ensures forall i: nat, ps, buffer :: Serves(cfg, i, ps) ==>
              Handle(ps, buffer, At(cfg, schedule, end).lanes[i].processed) == Handle(ps, buffer, cfg.input)
  {
    end := FairRunDelivers(cfg, schedule);
    hide Handle, HandlerMask;
    forall i: nat, ps, buffer | Serves(cfg, i, ps)
      ensures Handle(ps, buffer, At(cfg, schedule, end).lanes[i].processed) == Handle(ps, buffer, cfg.input)
    {
      FilterTwice(ps, buffer, cfg.input, cfg.handlers[i]);
    }
  }

  /**
    * Every alarm that a THEN rule raises in a worker, at any time under any schedule and whatever flows are ignored, is
    * sound and the only one of its family.
    */
  lemma WorkerAlarmsSound(cfg: Config, schedule: seq<nat>, i: nat, ps: seq<Program>, buffer: Option<nat>, j: nat,
                          rule: Rule)
    requires cfg.size >= 2 && Serves(cfg, i, ps) && j < |ps|
    requires WellPosed(ps[j], rule) && Stream(rule, cfg.input) && Roomy(ps[j], |cfg.input|)
    ensures var ms := Handle(ps, buffer, Exec(cfg, schedule).lanes[i].processed).streams[j];
            RunOk(ps[j], rule, ms, Run(ps[j], ms))
  {
    hide Exec, Handle, HandlerMask;
    var n := WorkerIsSequential(cfg, schedule, i, ps, buffer);
    StreamsFrom(ps, buffer, cfg.input[..n], j);
    var ms := Handle(ps, buffer, cfg.input[..n]).streams[j];
    forall k | 0 <= k < |ms| ensures ms[k].counter > 0 && InRange(ChainOf(rule), ms[k]) {
      assert ms[k] in ms && ms[k] in cfg.input;
    }
    RunSound(ps[j], rule, ms);
  }
}
