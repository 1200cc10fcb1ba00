/**
  * Identifiers of families are 16-bit words. A family has one of its own as long as the instance table or the number of
  * messages is small enough, and not otherwise.
  */
module EngineIdentifiers {
  import opened Wrappers
  import opened Rules
  import opened Compiler
  import opened ThenChain
  import opened Messages
  import opened FsmRuntime
  import opened Engine
  import opened EngineInvariant
  import opened EngineRun
  import opened EngineHerd
  import opened RuleMeaning

  /**
    * The bootstrap is there and alone in its family, and two other instances share one exactly if the same message
    * started them.
    */
  ghost predicate OwnFamilies(ch: Chain, st: EngineState) {
    BOOT in st.fsms && Origins(ch, st) && forall r :: r in st.fsms && r != BOOT ==> st.fsms[r].id != st.fsms[BOOT].id
  }

  // ---- A crowd: messages that all start a family, and nothing that ends one ----

  /** n messages of different flows, each of which starts a family. */
  function Knocks(n: nat): seq<Message> {
    seq(n, i requires 0 <= i < n => Knock(i + 1, i + 1))
  }

  lemma KnocksStream(n: nat)
    ensures Stream(FlowRule, Knocks(n))
  {
    FlowPosed(1);
    hide Compile, ChainProgram;
    var ms := Knocks(n);
    assert forall i :: 0 <= i < n ==> ms[i] == Knock(i + 1, i + 1);
    forall i | 0 <= i < n ensures ms[i].counter > 0 && InRange(ChainOf(FlowRule), ms[i]) { KnockInRange(i + 1); }
  }

  lemma KnockInRange(k: nat)
    ensures InRange(FlowChain, Knock(k, k))
  {}

  lemma KnocksSnoc(n: nat)
    requires n > 0
    ensures Knocks(n) == Knocks(n - 1) + [Knock(n, n)]
  {}

  /** The identifier that the family of message k gets: its place, truncated. */
  function IdOf(k: nat): nat {
    if k < TWO16 then k else 0
  }

  function CrowdMember(k: nat): Member {
    Member(k, Knock(k, k), IdOf(k))
  }

  /** The herd after n messages of the crowd: the family of message k has place k, or from 2^16 on the bootstrap's. */
  function Crowd(n: nat): Herd {
    Herd(seq(n, i requires 0 <= i < n => CrowdMember(n - i)), true, Min(n, TWO16), n + 1)
  }

  lemma CrowdGrows(n: nat)
    requires n > 0
    ensures Knocked(Crowd(n - 1), Knock(n, n), Min(n, TWO16)) == Crowd(n)
  {
    var h := Knocked(Crowd(n - 1), Knock(n, n), Min(n, TWO16));
    assert h.who[0] == CrowdMember(n);
    assert forall i :: 0 < i < n ==> h.who[i] == Crowd(n - 1).who[i - 1] == CrowdMember(n - i);
    assert h.who == Crowd(n).who;
  }

  lemma CrowdPlaces(n: nat, i: nat)
    ensures Free(Crowd(n), i) <==> n < i || TWO16 <= i
  {
    var who := Crowd(n).who;
    if 0 < i <= n && i < TWO16 { assert who[n - i] == CrowdMember(i) && who[n - i] in who; }
    forall m <- who ensures m.id <= n && m.id < TWO16 {
      var k :| 0 <= k < n && who[k] == m;
      assert who[k] == CrowdMember(n - k);
    }
  }

  /** As long as there are places, each message of the crowd adds its family. */
  lemma {:induction false} CrowdRun(size: nat, n: nat)
    requires n < size || TWO16 < size
    ensures ChainProgram(FlowProgram(size), FlowChain) && RunStands(size, Knocks(n), [], Crowd(n), n)
  {
    hide Compile, RunStands, Knocked;
    if n == 0 {
      RunStarts(size);
      assert Knocks(0) == [] && Crowd(0) == Newborn;
    } else {
      CrowdRun(size, n - 1);
      var h, i := Crowd(n - 1), Min(n, TWO16);
      CrowdPlaces(n - 1, i);
      forall j | h.avail <= j < i ensures !Free(h, j) { CrowdPlaces(n - 1, j); }
      KnocksSnoc(n);
      CrowdGrows(n);
      hide Crowd, Knocks, Free, ChainProgram;
      RunKnock(size, Knocks(n - 1), [], h, n - 1, n, n, i);
    }
  }

  // ---- The exact bound ----

  ghost predicate Keeps(p: Program, rule: Rule, msgs: seq<Message>)
    requires ValidMachine(p.machine) && |p.masks| == p.machine.size && p.maxInstances > 0
  {
    var r := Run(p, msgs);
    r.Running? ==> OwnFamilies(ChainOf(rule), r.engine)
  }

  lemma RoomyKeeps(p: Program, rule: Rule, msgs: seq<Message>)
    requires WellPosed(p, rule) && Stream(rule, msgs) && Roomy(p, |msgs|)
    ensures ChainProgram(p, ChainOf(rule)) && Keeps(p, rule, msgs)
  {
    RunSound(p, rule, msgs);
    var r := Run(p, msgs);
    if r.Running? {
      var seen, c := Seen(msgs), LastCounter(msgs);
      forall x | x in r.engine.fsms && x != BOOT ensures r.engine.fsms[x].id != 0 {
        assert Live(p, ChainOf(rule), r.engine.fsms[x], seen, c);
      }
    }
  }

  lemma CrowdMatched(p: Program, st: EngineState, n: nat, k: nat)
    requires Stands(p, st, Crowd(n), n) && 0 < k <= n
    ensures k in st.fsms && st.fsms[k].id == IdOf(k) && First(FlowChain, st.fsms[k]) == Knock(k, k)
  {
    assert Crowd(n).who[n - k] == CrowdMember(k) && IsMember(p, st, CrowdMember(k));
    MatchedIs(p.machine, FlowChain, st.fsms[k], [Knock(k, k)]);
  }

  /**
    * One message too many, and a new family gets the identifier of the bootstrap; one more, and two families share
    * it.
    */
  lemma CrowdShares(size: nat)
    requires size > TWO16
    ensures ChainProgram(FlowProgram(size), FlowChain) && !Keeps(FlowProgram(size), FlowRule, Knocks(TWO16))
    ensures var r := Run(FlowProgram(size), Knocks(TWO16 + 1));
            r.Running? && !Origins(FlowChain, r.engine)
  {
    var p := FlowProgram(size);
    FlowPosed(size);
    CrowdRun(size, TWO16);
    CrowdRun(size, TWO16 + 1);
    var st, u := Run(p, Knocks(TWO16)).engine, Run(p, Knocks(TWO16 + 1)).engine;
    CrowdMatched(p, st, TWO16, TWO16);
    CrowdMatched(p, u, TWO16 + 1, TWO16);
    CrowdMatched(p, u, TWO16 + 1, TWO16 + 1);
  }

  /**
    * In every run of every THEN rule with tables of the given size and at most n messages, each family has an
    * identifier of its own, if and only if the table has at most 2^16 places or there are fewer than 2^16 messages.
    * The default configuration has 100000 places.
    */
  lemma OwnFamiliesIff(size: nat, n: nat)
    requires size > 0
    ensures (forall p: Program, rule, msgs ::
               WellPosed(p, rule) && ChainProgram(p, ChainOf(rule)) && p.maxInstances == size && Stream(rule, msgs)
                   && |msgs| <= n
               ==> Keeps(p, rule, msgs))
        <==> size <= TWO16 || n < TWO16
  {
    if size <= TWO16 || n < TWO16 {
      forall p: Program, rule, msgs | WellPosed(p, rule) && ChainProgram(p, ChainOf(rule)) && p.maxInstances == size
          && Stream(rule, msgs) && |msgs| <= n
        ensures Keeps(p, rule, msgs)
      {
        RoomyKeeps(p, rule, msgs);
      }
    } else {
      FlowPosed(size);
      KnocksStream(TWO16);
      CrowdShares(size);
      assert |Knocks(TWO16)| <= n;
    }
  }

  // ---- What a shared identifier leads to ----

  /** The crowd, and a message that completes the match of its last family. */
  function Stampede(): seq<Message> {
    Knocks(TWO16) + [Hit(TWO16 + 1, TWO16)]
  }

  function LateKnocks(n: nat): seq<Message> {
    seq(n, i requires 0 <= i < n => Knock(TWO16 + 2 + i, i))
  }

  /**
    * A verdict on the family that shares the bootstrap's identifier removes the bootstrap as well. From then on no
    * message starts a family, however many come.
    */
  lemma {:induction false} BootstrapLost(size: nat, n: nat) returns (a: Alarm)
    requires size > TWO16
    ensures ChainProgram(FlowProgram(size), FlowChain)
    ensures a.at == TWO16 && a.verdict == Detected && |a.trace| == 3 && a.trace[1] == Some(Knock(TWO16, TWO16))
    ensures RunStands(size, Stampede() + LateKnocks(n), [a], Dropped(Crowd(TWO16), 0), TWO16 + 1 + n)
    ensures !Dropped(Crowd(TWO16), 0).boot
  {
    hide Compile, RunStands;
    if n == 0 {
      CrowdRun(size, TWO16);
      assert Crowd(TWO16).who[0] == CrowdMember(TWO16) && |Knocks(TWO16)| == TWO16;
      a := RunHit(size, Knocks(TWO16), [], Crowd(TWO16), TWO16, TWO16 + 1, TWO16, 0);
      assert Stampede() + LateKnocks(0) == Stampede() && [] + [a] == [a];
    } else {
      a := BootstrapLost(size, n - 1);
      assert LateKnocks(n) == LateKnocks(n - 1) + [Knock(TWO16 + 1 + n, n - 1)];
      assert Stampede() + LateKnocks(n) == Stampede() + LateKnocks(n - 1) + [Knock(TWO16 + 1 + n, n - 1)];
      RunUnheard(size, Stampede() + LateKnocks(n - 1), [a], Dropped(Crowd(TWO16), 0), TWO16 + n, TWO16 + 1 + n, n - 1);
    }
  }
}
