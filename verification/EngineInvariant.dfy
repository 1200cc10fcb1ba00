/** What the engine of a THEN rule keeps true of its instances, families and lists. */
module EngineInvariant {
  import opened Wrappers
  import opened Rules
  import opened Compiler
  import opened ThenChain
  import opened Messages
  import opened FsmRuntime
  import opened ChainSteps
  import opened RuleMeaning
  import opened Engine

  /** The engine of a THEN rule; the timeout needs no attribute. */
  ghost predicate ChainProgram(p: Program, ch: Chain) {
    && ChainMachine(p.machine, ch) && ValidMachine(p.machine)
    && |p.masks| == p.machine.size && p.masks[TIMEOUT] == {}
    && 0 < p.maxInstances
  }

  // ---- Instances ----

  /** How many events an instance in this state has matched. */
  function Matches(state: nat): nat {
    if state < 4 then 0 else state - 3
  }

  const NoMessage := Message(0, 0, 0, {}, 0)

  function Matched(ch: Chain, f: Fsm): (r: seq<Message>)
    ensures |r| == Matches(f.state)
  {
    seq(Matches(f.state), j requires 0 <= j =>
      if j < |ch.events| && ch.events[j] < |f.trace| && f.trace[ch.events[j]].Some?
          then f.trace[ch.events[j]].value else NoMessage)
  }

  lemma MatchedIs(m: Machine, ch: Chain, f: Fsm, ms: seq<Message>)
    requires ChainMachine(m, ch) && Represents(m, ch, f, ms)
    ensures Matched(ch, f) == ms
  {
    TraceOfShows(m, ch, ms);
    var r := Matched(ch, f);
    forall j | 0 <= j < |ms| ensures r[j] == ms[j] {
      assert f.trace[ch.events[j]] == Some(ms[j]);
    }
  }

  /** An instance under way: what it has matched was accepted in order, and comes from the messages seen so far. */
  ghost predicate Live(p: Program, ch: Chain, f: Fsm, seen: set<Message>, c: nat)
    requires ChainProgram(p, ch)
  {
    var ms := Matched(ch, f);
    && ms != [] && Represents(p.machine, ch, f, ms)
    && Accepted(p.machine, ch, ms) && Increasing(ms)
    && (forall j :: 0 <= j < |ms| ==> ms[j] in seen && ms[j].counter <= c)
    && f.id != 0
  }

  function First(ch: Chain, f: Fsm): Message {
    var ms := Matched(ch, f);
    if ms == [] then NoMessage else ms[0]
  }

  function Last(ch: Chain, f: Fsm): Message {
    var ms := Matched(ch, f);
    if ms == [] then NoMessage else ms[|ms| - 1]
  }

  /** The deadline has not passed, or the window has not opened yet. */
  predicate InTime(f: Fsm, now: nat) {
    now <= f.timeMax || now < f.timeMin
  }

  ghost predicate Instances(p: Program, ch: Chain, st: EngineState, seen: set<Message>, c: nat)
    requires ChainProgram(p, ch)
  {
    && BOOT in st.fsms && Represents(p.machine, ch, st.fsms[BOOT], []) && st.fsms[BOOT].id == 0
    && (forall r :: r in st.fsms ==> r < st.nextRef)
    && (forall r :: r in st.fsms && r != BOOT ==> Live(p, ch, st.fsms[r], seen, c))
  }

  // ---- Families ----

  ghost predicate FamilyOk(st: EngineState, i: nat)
    requires i < |st.byId|
  {
    && Distinct(st.byId[i])
    && (forall r :: r in st.byId[i] <==> r in st.fsms && st.fsms[r].id == i)
  }

  ghost predicate Families(st: EngineState) {
    forall i :: 0 <= i < |st.byId| ==> FamilyOk(st, i)
  }

  /** Only the places 0..b have ever been taken. */
  ghost predicate PlacesUsed(st: EngineState, b: int) {
    st.avail <= b && forall i :: 0 <= i < |st.byId| && b < i ==> st.byId[i] == []
  }

  /** Each message takes at most one place more: that of the family it starts when the bootstrap looks at it. */
  ghost predicate Places(ch: Chain, st: EngineState, seen: set<Message>, c: nat)
    requires ChainShape(ch)
  {
    && ch.events[0] < |st.byEvent| && PlacesUsed(st, |seen|)
    && forall n :: n in st.byEvent[ch.events[0]] && n.fsm == BOOT && n.counter != c ==> PlacesUsed(st, |seen| - 1)
  }

  /** So many messages cannot lead to a place beyond the identifiers of 16 bits. */
  predicate Roomy(p: Program, messages: nat) {
    p.maxInstances <= TWO16 || messages < TWO16
  }

  // ---- Lists ----

  /** An instance waits for the timeout unless it is the bootstrap, and for the event after the last one matched. */
  predicate Wants(ch: Chain, state: nat, e: nat) {
    if e == TIMEOUT then state != INIT
    else Matches(state) < |ch.events| && e == ch.events[Matches(state)]
  }

  function IndexFor(state: nat, e: nat): nat {
    if e == TIMEOUT || state == INIT then 0 else 1
  }

  function FsmsOf(list: seq<Node>): (r: seq<nat>)
    ensures |r| == |list|
  {
    seq(|list|, i requires 0 <= i < |list| => list[i].fsm)
  }

  ghost predicate NodeOk(ch: Chain, st: EngineState, e: nat, n: Node) {
    && n.fsm in st.fsms && Wants(ch, st.fsms[n.fsm].state, e)
    && n.index == IndexFor(st.fsms[n.fsm].state, e)
  }

  /** One node, with the right transition, for every instance that waits for the event, and no other node. */
  ghost predicate ListOk(ch: Chain, st: EngineState, e: nat)
    requires e < |st.byEvent|
  {
    var list := st.byEvent[e];
    && (forall i :: 0 <= i < |list| ==> NodeOk(ch, st, e, list[i]))
    && Distinct(FsmsOf(list))
    && (forall r :: r in st.fsms && Wants(ch, st.fsms[r].state, e) ==> r in FsmsOf(list))
  }

  ghost predicate Lists(ch: Chain, st: EngineState) {
    forall e :: 0 <= e < |st.byEvent| ==> ListOk(ch, st, e)
  }

  /**
    * While message number c, sent at time `now`, is being processed: a node that has looked at it belongs to an
    * instance that is in time, and an instance that has consumed it is not offered it again.
    */
  ghost predicate NodeFresh(ch: Chain, st: EngineState, e: nat, n: Node, c: nat, now: nat) {
    && n.counter <= c
    && (n.fsm in st.fsms && n.fsm != BOOT ==>
          && (n.counter == c ==> InTime(st.fsms[n.fsm], now))
          && (e != TIMEOUT && Last(ch, st.fsms[n.fsm]).counter == c ==> n.counter == c))
  }

  ghost predicate Fresh(ch: Chain, st: EngineState, c: nat, now: nat) {
    forall e, i :: 0 <= e < |st.byEvent| && 0 <= i < |st.byEvent[e]| ==> NodeFresh(ch, st, e, st.byEvent[e][i], c, now)
  }

  ghost predicate Inv(p: Program, ch: Chain, st: EngineState, seen: set<Message>, c: nat, now: nat) {
    && ChainProgram(p, ch) && Sized(p, st)
    && Instances(p, ch, st, seen, c) && Families(st) && Lists(ch, st) && Fresh(ch, st, c, now)
    && Places(ch, st, seen, c) && Roomy(p, |seen|)
  }

  // ---- Origins: one family per initiating message ----

  /** Two instances share an identifier exactly when the same message started them. */
  ghost predicate Origins(ch: Chain, st: EngineState) {
    forall r, s :: r in st.fsms && s in st.fsms && r != BOOT && s != BOOT ==>
      (st.fsms[r].id == st.fsms[s].id <==> First(ch, st.fsms[r]).counter == First(ch, st.fsms[s]).counter)
  }

  /** Unless the bootstrap has looked at message c, no instance has been started by it. */
  ghost predicate BootFresh(ch: Chain, st: EngineState, c: nat)
    requires ChainShape(ch)
  {
    ch.events[0] < |st.byEvent|
    && forall n :: n in st.byEvent[ch.events[0]] && n.fsm == BOOT && n.counter != c ==>
         forall r :: r in st.fsms && r != BOOT ==> First(ch, st.fsms[r]).counter < c
  }

  /** No live instance stems from a message that has already led to a verdict. */
  ghost predicate Unsettled(ch: Chain, st: EngineState, done: set<nat>) {
    forall r :: r in st.fsms && r != BOOT ==> First(ch, st.fsms[r]).counter !in done
  }

  // ---- Facts about lists ----

  lemma RemoveAtFsms(list: seq<Node>, pos: nat)
    requires pos < |list| && Distinct(FsmsOf(list))
    ensures Distinct(FsmsOf(RemoveAt(list, pos)))
    ensures forall r :: r in FsmsOf(RemoveAt(list, pos)) <==> r in FsmsOf(list) && r != list[pos].fsm
    ensures forall n :: n in RemoveAt(list, pos) ==> n in list
  {
    var u := RemoveAt(list, pos);
    assert forall i :: 0 <= i < |u| ==> u[i] == list[if i < pos then i else i + 1];
    assert forall i :: 0 <= i < |u| ==> FsmsOf(u)[i] == FsmsOf(list)[if i < pos then i else i + 1];
    forall r | r in FsmsOf(list) && r != list[pos].fsm ensures r in FsmsOf(u) {
      var i :| 0 <= i < |list| && FsmsOf(list)[i] == r;
      assert FsmsOf(u)[if i < pos then i else i - 1] == r;
    }
    forall r | r in FsmsOf(u) ensures r in FsmsOf(list) && r != list[pos].fsm {
      var i :| 0 <= i < |u| && FsmsOf(u)[i] == r;
      var k := if i < pos then i else i + 1;
      assert FsmsOf(list)[k] == r && FsmsOf(list)[pos] == list[pos].fsm;
    }
  }

  lemma FsmsOfCons(n: Node, list: seq<Node>)
    ensures FsmsOf([n] + list) == [n.fsm] + FsmsOf(list)
  {}

  lemma DistinctCons(x: nat, s: seq<nat>)
    ensures Distinct([x] + s) <==> x !in s && Distinct(s)
  {
    var all := [x] + s;
    assert forall i :: 0 <= i < |s| ==> all[i + 1] == s[i];
    if Distinct(all) {
      assert forall i :: 0 < i < |all| ==> all[0] != all[i];
    }
  }

  lemma {:induction false} WithoutFsms(list: seq<Node>, gone: set<nat>)
    requires Distinct(FsmsOf(list))
    ensures Distinct(FsmsOf(Without(list, gone)))
    ensures forall r :: r in FsmsOf(Without(list, gone)) <==> r in FsmsOf(list) && r !in gone
    ensures forall n :: n in Without(list, gone) ==> n in list
  {
    if list != [] {
      var head, tail := list[0], list[1..];
      assert list == [head] + tail;
      var w := Without(tail, gone);
      assert Without(list, gone) == (if head.fsm in gone then w else [head] + w);
      FsmsOfCons(head, tail);
      FsmsOfCons(head, w);
      DistinctCons(head.fsm, FsmsOf(tail));
      DistinctCons(head.fsm, FsmsOf(w));
      hide Distinct, FsmsOf, Without;
      WithoutFsms(tail, gone);
    }
  }

  lemma {:induction false} WithoutConcat(a: seq<Node>, b: seq<Node>, gone: set<nat>)
    ensures Without(a + b, gone) == Without(a, gone) + Without(b, gone)
  {
    if a == [] {
      assert a + b == b;
    } else {
      assert (a + b)[1..] == a[1..] + b;
      WithoutConcat(a[1..], b, gone);
    }
  }

  lemma {:induction false} WithoutNone(a: seq<Node>, gone: set<nat>)
    requires forall n :: n in a ==> n.fsm !in gone
    ensures Without(a, gone) == a
  {
    if a != [] { WithoutNone(a[1..], gone); }
  }

  /** The list behind the cursor is `rest`. */
  ghost predicate EndsWith(list: seq<Node>, rest: seq<Node>) {
    |rest| <= |list| && list[|list| - |rest|..] == rest
  }

  lemma OnlyOnce(list: seq<Node>, pos: nat)
    requires pos < |list| && Distinct(FsmsOf(list))
    ensures forall n :: n in list[pos + 1..] ==> n.fsm != list[pos].fsm
  {
    forall n | n in list[pos + 1..] ensures n.fsm != list[pos].fsm {
      var i :| pos + 1 <= i < |list| && list[i] == n;
      assert FsmsOf(list)[i] == n.fsm && FsmsOf(list)[pos] == list[pos].fsm;
    }
  }

  /** Removing one instance leaves the nodes after its own node where they are. */
  lemma WithoutOne(list: seq<Node>, pos: nat)
    requires pos < |list| && Distinct(FsmsOf(list))
    ensures EndsWith(Without(list, {list[pos].fsm}), list[pos + 1..])
  {
    var gone := {list[pos].fsm};
    var a, b := list[..pos + 1], list[pos + 1..];
    OnlyOnce(list, pos);
    hide FsmsOf, Distinct, Without;
    assert list == a + b;
    WithoutConcat(a, b, gone);
    WithoutNone(b, gone);
    assert (Without(a, gone) + b)[|Without(a, gone)|..] == b;
  }

  lemma {:induction false} RemoveRefSpec(list: seq<nat>, r: nat)
    requires Distinct(list)
    ensures Distinct(RemoveRef(list, r))
    ensures forall x :: x in RemoveRef(list, r) <==> x in list && x != r
  {
    if list != [] {
      var tail := list[1..];
      assert list == [list[0]] + tail;
      assert Distinct(tail) && list[0] !in tail by {
        assert forall i :: 0 <= i < |tail| ==> tail[i] == list[i + 1];
      }
      RemoveRefSpec(tail, r);
    }
  }
}
