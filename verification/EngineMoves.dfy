/** Each way in which a node changes the engine keeps its invariant. */
module EngineMoves {
  import opened Rules
  import opened Compiler
  import opened ThenChain
  import opened Messages
  import opened FsmRuntime
  import opened ChainSteps
  import opened RuleMeaning
  import opened Engine
  import opened EngineInvariant

  /** Node number `pos` of list `e` is about to look at `msg` for the first time. */
  ghost predicate At(p: Program, ch: Chain, st: EngineState, seen: set<Message>, e: nat, pos: nat, msg: Message) {
    && Inv(p, ch, st, seen, msg.counter, msg.timestamp) && msg in seen
    && e < |st.byEvent| && pos < |st.byEvent[e]| && st.byEvent[e][pos].counter != msg.counter
  }

  /** The messages matched by the instance of a node. */
  function MatchedAt(ch: Chain, st: EngineState, r: nat): seq<Message> {
    if r in st.fsms then Matched(ch, st.fsms[r]) else []
  }

  lemma NodeFacts(p: Program, ch: Chain, st: EngineState, seen: set<Message>, e: nat, pos: nat, msg: Message)
    returns (r: nat, f: Fsm, ms: seq<Message>)
    requires At(p, ch, st, seen, e, pos, msg)
    ensures r == st.byEvent[e][pos].fsm && r in st.fsms && f == st.fsms[r] && ms == MatchedAt(ch, st, r)
    ensures Represents(p.machine, ch, f, ms) && Accepted(p.machine, ch, ms) && Increasing(ms)
    ensures forall j :: 0 <= j < |ms| ==> ms[j] in seen && ms[j].counter <= msg.counter
    ensures Offers(|ms|, st.byEvent[e][pos].index)
    ensures r == BOOT <==> ms == []
    ensures r == BOOT <==> f.id == 0
    ensures if e == TIMEOUT then ms != [] && st.byEvent[e][pos].index == 0
            else e == ch.events[|ms|] && st.byEvent[e][pos].index == (if ms == [] then 0 else 1)
    ensures e != TIMEOUT && ms != [] ==> ms[|ms| - 1].counter < msg.counter
  {
    var n := st.byEvent[e][pos];
    r := n.fsm;
    assert ListOk(ch, st, e);
    assert NodeOk(ch, st, e, n);
    f := st.fsms[r];
    ms := Matched(ch, f);
    assert NodeFresh(ch, st, e, n, msg.counter, msg.timestamp);
    if r == BOOT {
      MatchedIs(p.machine, ch, f, []);
    } else {
      assert Live(p, ch, f, seen, msg.counter);
    }
  }

  /** A change that takes no new place and brings no unvisited node of the bootstrap. */
  lemma PlacesKeep(ch: Chain, st: EngineState, u: EngineState, seen: set<Message>, c: nat)
    requires ChainShape(ch) && Places(ch, st, seen, c) && |u.byId| == |st.byId| && ch.events[0] < |u.byEvent|
    requires u.avail == st.avail || (u.avail < |st.byId| && st.byId[u.avail] != [])
    requires forall i :: 0 <= i < |st.byId| && st.byId[i] == [] ==> u.byId[i] == []
    requires forall n :: n in u.byEvent[ch.events[0]] && n.fsm == BOOT && n.counter != c ==>
            n in st.byEvent[ch.events[0]]
    ensures Places(ch, u, seen, c)
  {}

  // ---- Looking without moving ----

  /** The node has looked at message c; its instance may have changed its event number. */
  function Touch(st: EngineState, e: nat, pos: nat, c: nat, f: Fsm, refs: Refs): EngineState
    requires e < |st.byEvent| && pos < |st.byEvent[e]|
  {
    var n := st.byEvent[e][pos];
    st.(byEvent := st.byEvent[e := st.byEvent[e][pos := n.(counter := c)]], fsms := st.fsms[n.fsm := f], refs := refs)
  }

  lemma SameMatched(ch: Chain, f: Fsm, g: Fsm)
    requires SameButEvent(f, g)
    ensures Matched(ch, g) == Matched(ch, f)
  {}

  lemma TouchKeeps(p: Program, ch: Chain, st: EngineState, seen: set<Message>, e: nat, pos: nat, msg: Message, f: Fsm,
                   refs: Refs)
    requires At(p, ch, st, seen, e, pos, msg)
    requires st.byEvent[e][pos].fsm in st.fsms && SameButEvent(st.fsms[st.byEvent[e][pos].fsm], f)
    requires f.eventId < p.machine.size
    requires st.byEvent[e][pos].fsm == BOOT || InTime(f, msg.timestamp)
    ensures Inv(p, ch, Touch(st, e, pos, msg.counter, f, refs), seen, msg.counter, msg.timestamp)
  {
    hide Live, NodeOk, NodeFresh;
    var c := msg.counter;
    var u := Touch(st, e, pos, c, f, refs);
    TouchInstances(p, ch, st, seen, e, pos, c, f, refs);
    forall i | 0 <= i < |u.byId| ensures FamilyOk(u, i) { assert FamilyOk(st, i); }
    forall k | 0 <= k < |u.byEvent| ensures ListOk(ch, u, k) {
      assert ListOk(ch, st, k);
      TouchList(ch, st, e, pos, c, f, refs, k);
    }
    TouchFresh(ch, st, e, pos, c, msg.timestamp, f, refs);
    PlacesKeep(ch, st, u, seen, c);
  }

  lemma TouchInstances(p: Program, ch: Chain, st: EngineState, seen: set<Message>, e: nat, pos: nat, c: nat, f: Fsm,
                       refs: Refs)
    requires ChainProgram(p, ch) && Instances(p, ch, st, seen, c) && f.eventId < p.machine.size
    requires e < |st.byEvent| && pos < |st.byEvent[e]|
    requires st.byEvent[e][pos].fsm in st.fsms && SameButEvent(st.fsms[st.byEvent[e][pos].fsm], f)
    ensures Instances(p, ch, Touch(st, e, pos, c, f, refs), seen, c)
  {
    var r := st.byEvent[e][pos].fsm;
    SameMatched(ch, st.fsms[r], f);
    if r != BOOT { assert Live(p, ch, st.fsms[r], seen, c); }
  }

  lemma TouchFresh(ch: Chain, st: EngineState, e: nat, pos: nat, c: nat, now: nat, f: Fsm, refs: Refs)
    requires e < |st.byEvent| && pos < |st.byEvent[e]| && Fresh(ch, st, c, now)
    requires st.byEvent[e][pos].fsm in st.fsms && SameButEvent(st.fsms[st.byEvent[e][pos].fsm], f)
    requires st.byEvent[e][pos].fsm == BOOT || InTime(f, now)
    ensures Fresh(ch, Touch(st, e, pos, c, f, refs), c, now)
  {
    var u := Touch(st, e, pos, c, f, refs);
    SameMatched(ch, st.fsms[st.byEvent[e][pos].fsm], f);
    forall k, i | 0 <= k < |u.byEvent| && 0 <= i < |u.byEvent[k]|
      ensures NodeFresh(ch, u, k, u.byEvent[k][i], c, now)
    {
      assert NodeFresh(ch, st, k, st.byEvent[k][i], c, now);
    }
  }

  lemma TouchList(ch: Chain, st: EngineState, e: nat, pos: nat, c: nat, f: Fsm, refs: Refs, k: nat)
    requires e < |st.byEvent| && pos < |st.byEvent[e]| && k < |st.byEvent| && ListOk(ch, st, k)
    requires st.byEvent[e][pos].fsm in st.fsms && SameButEvent(st.fsms[st.byEvent[e][pos].fsm], f)
    ensures ListOk(ch, Touch(st, e, pos, c, f, refs), k)
  {
    var u := Touch(st, e, pos, c, f, refs);
    assert FsmsOf(u.byEvent[k]) == FsmsOf(st.byEvent[k]);
    forall i | 0 <= i < |u.byEvent[k]| ensures NodeOk(ch, u, k, u.byEvent[k][i]) {
      assert NodeOk(ch, st, k, st.byEvent[k][i]);
    }
  }

  // ---- A new instance ----

  /** The engine after `child` has joined family `id` and waits for the timeout and for event `next`. */
  function Joined(st: EngineState, child: Fsm, id: nat, next: nat, c: nat): EngineState
    requires id < |st.byId| && 0 < next < |st.byEvent|
  {
    var r := st.nextRef;
    var l0 := [Node(st.nextAddr, c, 0, r)] + st.byEvent[TIMEOUT];
    var l1 := [Node(st.nextAddr + 1, c, 1, r)] + st.byEvent[next];
    st.(fsms := st.fsms[r := child.(id := id)], nextRef := r + 1,
        byId := st.byId[id := [r] + st.byId[id]],
        byEvent := st.byEvent[TIMEOUT := l0][next := l1], nextAddr := st.nextAddr + 2)
  }

  lemma PrependFsms(n: Node, list: seq<Node>)
    requires Distinct(FsmsOf(list)) && n.fsm !in FsmsOf(list)
    ensures Distinct(FsmsOf([n] + list))
    ensures forall r :: r in FsmsOf([n] + list) <==> r == n.fsm || r in FsmsOf(list)
  {
    assert FsmsOf([n] + list) == [n.fsm] + FsmsOf(list);
  }

  lemma NotListed(ch: Chain, st: EngineState, e: nat, r: nat)
    requires e < |st.byEvent| && ListOk(ch, st, e)
    requires r in st.fsms ==> !Wants(ch, st.fsms[r].state, e)
    ensures r !in FsmsOf(st.byEvent[e])
  {
    forall i | 0 <= i < |st.byEvent[e]| ensures FsmsOf(st.byEvent[e])[i] != r {
      assert NodeOk(ch, st, e, st.byEvent[e][i]);
    }
  }

  ghost predicate Newcomer(p: Program, ch: Chain, g: Fsm, seen: set<Message>, msg: Message)
    requires ChainProgram(p, ch)
  {
    Live(p, ch, g, seen, msg.counter) && Last(ch, g).counter == msg.counter && InTime(g, msg.timestamp)
  }

  /** A family that exists, or the one place that this message may take. */
  ghost predicate MayTake(ch: Chain, st: EngineState, seen: set<Message>, c: nat, id: nat)
    requires ChainShape(ch) && id < |st.byId| && ch.events[0] < |st.byEvent|
  {
    st.byId[id] != [] || (id <= |seen| && forall n :: n in st.byEvent[ch.events[0]] && n.fsm == BOOT ==> n.counter == c)
  }

  lemma JoinPlaces(ch: Chain, st: EngineState, seen: set<Message>, child: Fsm, id: nat, next: nat, c: nat)
    requires ChainShape(ch) && Places(ch, st, seen, c) && id < |st.byId| && 0 < next < |st.byEvent|
    requires MayTake(ch, st, seen, c, id) && st.nextRef != BOOT
    ensures Places(ch, Joined(st, child, id, next, c), seen, c)
  {
    var u := Joined(st, child, id, next, c);
    forall n | n in u.byEvent[ch.events[0]] && n.fsm == BOOT && n.counter != c ensures PlacesUsed(u, |seen| - 1) {
      assert n in st.byEvent[ch.events[0]];
    }
  }

  lemma JoinKeeps(p: Program, ch: Chain, st: EngineState, seen: set<Message>, msg: Message, child: Fsm, id: nat,
                  next: nat)
    requires Inv(p, ch, st, seen, msg.counter, msg.timestamp)
    requires 0 < id < |st.byId| && Newcomer(p, ch, child.(id := id), seen, msg)
    requires MayTake(ch, st, seen, msg.counter, id)
    requires next == ch.events[Matches(child.state)]
    ensures 0 < next < |st.byEvent|
    ensures Inv(p, ch, Joined(st, child, id, next, msg.counter), seen, msg.counter, msg.timestamp)
  {
    var c, g, r := msg.counter, child.(id := id), st.nextRef;
    assert Live(p, ch, g, seen, c);
    var u := Joined(st, child, id, next, c);
    WantsOnly(p, ch, g, seen, c, next);
    JoinFamilies(st, u, id, r);
    forall k | 0 <= k < |u.byEvent| ensures ListOk(ch, u, k) {
      assert ListOk(ch, st, k);
      JoinList(ch, st, child, id, next, c, k);
    }
    JoinFresh(ch, st, child, id, next, c, msg.timestamp);
    JoinPlaces(ch, st, seen, child, id, next, c);
  }

  /** A live instance waits for the timeout and for exactly one event. */
  lemma WantsOnly(p: Program, ch: Chain, g: Fsm, seen: set<Message>, c: nat, next: nat)
    requires ChainProgram(p, ch) && Live(p, ch, g, seen, c) && next == ch.events[Matches(g.state)]
    ensures g.state != INIT && 0 < next < p.machine.size
    ensures forall x: nat :: 0 < x ==> (Wants(ch, g.state, x) <==> x == next)
  {}

  lemma JoinFresh(ch: Chain, st: EngineState, child: Fsm, id: nat, next: nat, c: nat, now: nat)
    requires id < |st.byId| && 0 < next < |st.byEvent| && Fresh(ch, st, c, now) && Lists(ch, st)
    requires st.nextRef !in st.fsms && InTime(child.(id := id), now)
    ensures Fresh(ch, Joined(st, child, id, next, c), c, now)
  {
    var u := Joined(st, child, id, next, c);
    forall k, i | 0 <= k < |u.byEvent| && 0 <= i < |u.byEvent[k]|
      ensures NodeFresh(ch, u, k, u.byEvent[k][i], c, now)
    {
      var off := if k == TIMEOUT || k == next then 1 else 0;
      if i >= off {
        assert u.byEvent[k][i] == st.byEvent[k][i - off];
        assert NodeFresh(ch, st, k, st.byEvent[k][i - off], c, now);
        assert ListOk(ch, st, k) && NodeOk(ch, st, k, st.byEvent[k][i - off]);
      }
    }
  }

  lemma JoinFamilies(st: EngineState, u: EngineState, id: nat, r: nat)
    requires Families(st) && id < |st.byId| && r !in st.fsms
    requires u.byId == st.byId[id := [r] + st.byId[id]]
    requires u.fsms.Keys == st.fsms.Keys + {r} && u.fsms[r].id == id
    requires forall x :: x in st.fsms ==> u.fsms[x] == st.fsms[x]
    ensures Families(u)
  {
    forall i | 0 <= i < |u.byId| ensures FamilyOk(u, i) {
      assert FamilyOk(st, i);
      assert r !in st.byId[i];
      forall x ensures x in u.byId[i] <==> x in u.fsms && u.fsms[x].id == i {
        assert x in u.fsms <==> x == r || x in st.fsms;
      }
    }
  }

  lemma JoinList(ch: Chain, st: EngineState, child: Fsm, id: nat, next: nat, c: nat, k: nat)
    requires id < |st.byId| && 0 < next < |st.byEvent| && k < |st.byEvent| && ListOk(ch, st, k)
    requires st.nextRef !in st.fsms && child.state != INIT
    requires forall x: nat :: 0 < x ==> (Wants(ch, child.state, x) <==> x == next)
    ensures ListOk(ch, Joined(st, child, id, next, c), k)
  {
    var r := st.nextRef;
    var u := Joined(st, child, id, next, c);
    NotListed(ch, st, k, r);
    var off := if k == TIMEOUT || k == next then 1 else 0;
    if off == 1 { PrependFsms(u.byEvent[k][0], st.byEvent[k]); }
    assert u.byEvent[k][off..] == st.byEvent[k];
    forall i | 0 <= i < |u.byEvent[k]| ensures NodeOk(ch, u, k, u.byEvent[k][i]) {
      if i >= off {
        assert u.byEvent[k][i] == st.byEvent[k][i - off];
        assert NodeOk(ch, st, k, st.byEvent[k][i - off]);
      }
    }
  }

  // ---- A moved instance ----

  /** The engine after the instance of the node has become `g`: it left list `e` and waits for event `next`. */
  function Moved(st: EngineState, e: nat, pos: nat, g: Fsm, next: nat, c: nat, refs: Refs): EngineState
    requires e < |st.byEvent| && pos < |st.byEvent[e]| && next < |st.byEvent|
  {
    var r := st.byEvent[e][pos].fsm;
    var lists := st.byEvent[e := RemoveAt(st.byEvent[e], pos)];
    st.(fsms := st.fsms[r := g], refs := refs,
        byEvent := lists[next := [Node(st.nextAddr, c, 1, r)] + lists[next]], nextAddr := st.nextAddr + 1)
  }

  lemma MoveKeeps(p: Program, ch: Chain, st: EngineState, seen: set<Message>, e: nat, pos: nat, msg: Message, g: Fsm,
                  next: nat, refs: Refs)
    requires At(p, ch, st, seen, e, pos, msg) && e != TIMEOUT
    requires st.byEvent[e][pos].fsm in st.fsms && st.byEvent[e][pos].fsm != BOOT
    requires Newcomer(p, ch, g, seen, msg) && g.id == st.fsms[st.byEvent[e][pos].fsm].id
    requires Matches(g.state) == Matches(st.fsms[st.byEvent[e][pos].fsm].state) + 1
    requires next == ch.events[Matches(g.state)]
    ensures 0 < next < |st.byEvent| && next != e
    ensures Inv(p, ch, Moved(st, e, pos, g, next, msg.counter, refs), seen, msg.counter, msg.timestamp)
  {
    var c, r := msg.counter, st.byEvent[e][pos].fsm;
    assert Live(p, ch, g, seen, c);
    assert ListOk(ch, st, e) && NodeOk(ch, st, e, st.byEvent[e][pos]);
    var u := Moved(st, e, pos, g, next, c, refs);
    forall i | 0 <= i < |u.byId| ensures FamilyOk(u, i) { assert FamilyOk(st, i); }
    forall k | 0 <= k < |u.byEvent| ensures ListOk(ch, u, k) {
      assert ListOk(ch, st, k);
      MoveList(ch, st, e, pos, g, next, c, refs, k);
    }
    forall k, i | 0 <= k < |u.byEvent| && 0 <= i < |u.byEvent[k]|
      ensures NodeFresh(ch, u, k, u.byEvent[k][i], c, msg.timestamp)
    {
      MoveFresh(p, ch, st, seen, e, pos, msg, g, next, refs, k, i);
    }
    PlacesKeep(ch, st, u, seen, c);
  }

  /** Where a node of the moved lists comes from. */
  function Source(st: EngineState, e: nat, pos: nat, next: nat, k: nat, i: nat): int {
    if k == e && i >= pos then i + 1 else if k == next then i - 1 else i
  }

  lemma MoveFresh(p: Program, ch: Chain, st: EngineState, seen: set<Message>, e: nat, pos: nat, msg: Message,
                  g: Fsm, next: nat, refs: Refs, k: nat, i: nat)
    requires At(p, ch, st, seen, e, pos, msg) && next != e && next < |st.byEvent|
    requires Newcomer(p, ch, g, seen, msg) && st.byEvent[e][pos].fsm in st.fsms && st.byEvent[e][pos].fsm != BOOT
    requires Matches(g.state) == Matches(st.fsms[st.byEvent[e][pos].fsm].state) + 1
    requires next == ch.events[Matches(g.state)] && e != TIMEOUT
    requires var u := Moved(st, e, pos, g, next, msg.counter, refs); k < |u.byEvent| && i < |u.byEvent[k]|
    ensures var u := Moved(st, e, pos, g, next, msg.counter, refs); NodeFresh(ch, u, k, u.byEvent[k][i], msg.counter,
            msg.timestamp)
  {
    hide Live, Represents, Families, Accepted, Increasing, ChainMachine, FamilyOk;
    var u := Moved(st, e, pos, g, next, msg.counter, refs);
    var r := st.byEvent[e][pos].fsm;
    var j := Source(st, e, pos, next, k, i);
    if j >= 0 {
      assert u.byEvent[k][i] == st.byEvent[k][j];
      assert NodeFresh(ch, st, k, st.byEvent[k][j], msg.counter, msg.timestamp);
      assert ListOk(ch, st, k) && NodeOk(ch, st, k, st.byEvent[k][j]);
      assert ListOk(ch, st, e) && NodeOk(ch, st, e, st.byEvent[e][pos]);
      assert FsmsOf(st.byEvent[e])[pos] == r;
      assert k == e ==> FsmsOf(st.byEvent[e])[j] == st.byEvent[k][j].fsm;
      // The only event list with a node of r is the one it has left.
      assert k != TIMEOUT ==> st.byEvent[k][j].fsm != r;
    }
  }

  lemma MoveList(ch: Chain, st: EngineState, e: nat, pos: nat, g: Fsm, next: nat, c: nat, refs: Refs, k: nat)
    requires 0 < e < |st.byEvent| && pos < |st.byEvent[e]| && ListOk(ch, st, e)
    requires 0 < next < |st.byEvent| && next != e && k < |st.byEvent| && ListOk(ch, st, k)
    requires st.byEvent[e][pos].fsm in st.fsms && st.fsms[st.byEvent[e][pos].fsm].state != INIT && g.state != INIT
    requires forall x: nat :: 0 < x ==> (Wants(ch, g.state, x) <==> x == next)
    requires forall x: nat :: 0 < x ==> (Wants(ch, st.fsms[st.byEvent[e][pos].fsm].state, x) <==> x == e)
    ensures ListOk(ch, Moved(st, e, pos, g, next, c, refs), k)
  {
    var r := st.byEvent[e][pos].fsm;
    var u := Moved(st, e, pos, g, next, c, refs);
    if k == e {
      LeaveList(ch, st, e, pos, g, next, c, refs);
    } else {
      if k != TIMEOUT { NotListed(ch, st, k, r); }
      if k == next { PrependFsms(u.byEvent[k][0], st.byEvent[k]); }
      forall i | 0 <= i < |u.byEvent[k]| ensures NodeOk(ch, u, k, u.byEvent[k][i]) {
        var j := Source(st, e, pos, next, k, i);
        if j >= 0 {
          assert NodeOk(ch, st, k, st.byEvent[k][j]);
          assert FsmsOf(st.byEvent[k])[j] == st.byEvent[k][j].fsm;
        }
      }
    }
  }

  lemma LeaveList(ch: Chain, st: EngineState, e: nat, pos: nat, g: Fsm, next: nat, c: nat, refs: Refs)
    requires 0 < e < |st.byEvent| && pos < |st.byEvent[e]| && ListOk(ch, st, e)
    requires 0 < next < |st.byEvent| && next != e
    requires st.byEvent[e][pos].fsm in st.fsms && !Wants(ch, g.state, e)
    ensures ListOk(ch, Moved(st, e, pos, g, next, c, refs), e)
  {
    var u := Moved(st, e, pos, g, next, c, refs);
    RemoveAtFsms(st.byEvent[e], pos);
    forall i | 0 <= i < |u.byEvent[e]| ensures NodeOk(ch, u, e, u.byEvent[e][i]) {
      assert FsmsOf(u.byEvent[e])[i] == u.byEvent[e][i].fsm;
      assert NodeOk(ch, st, e, st.byEvent[e][if i < pos then i else i + 1]);
    }
  }

  // ---- Removed instances ----

  /** The lists after the nodes of all removed instances are gone, whatever their last node has looked at. */
  lemma WithoutTouched(list: seq<Node>, pos: nat, n: Node, gone: set<nat>)
    requires pos < |list| && n.fsm == list[pos].fsm && n.fsm in gone
    ensures Without(list[pos := n], gone) == Without(list, gone)
  {
    var a, b := list[..pos], list[pos + 1..];
    assert list == a + ([list[pos]] + b) && list[pos := n] == a + ([n] + b);
    WithoutConcat(a, [list[pos]] + b, gone);
    WithoutConcat(a, [n] + b, gone);
    assert ([list[pos]] + b)[1..] == b && ([n] + b)[1..] == b;
  }

  lemma RemovedKeeps(p: Program, ch: Chain, st: EngineState, u: EngineState, seen: set<Message>, c: nat, now: nat,
                     gone: set<nat>)
    requires Inv(p, ch, st, seen, c, now) && Sized(p, u) && BOOT !in gone
    requires u.nextRef == st.nextRef && u.byEvent == WithoutAll(st.byEvent, gone) && Families(u)
    requires u.avail == st.avail || (u.avail < |st.byId| && st.byId[u.avail] != [])
    requires forall i :: 0 <= i < |st.byId| && st.byId[i] == [] ==> u.byId[i] == []
    requires forall x :: x in u.fsms <==> x in st.fsms && x !in gone
    requires forall x :: x in u.fsms ==> u.fsms[x] == st.fsms[x]
    ensures Inv(p, ch, u, seen, c, now)
  {
    forall k | 0 <= k < |u.byEvent| ensures ListOk(ch, u, k) {
      assert ListOk(ch, st, k);
      WithoutFsms(st.byEvent[k], gone);
      forall i | 0 <= i < |u.byEvent[k]| ensures NodeOk(ch, u, k, u.byEvent[k][i]) {
        var _ := KeptNode(ch, st, u, gone, k, i);
      }
    }
    forall k, i | 0 <= k < |u.byEvent| && 0 <= i < |u.byEvent[k]|
      ensures NodeFresh(ch, u, k, u.byEvent[k][i], c, now)
    {
      assert ListOk(ch, st, k);
      var j := KeptNode(ch, st, u, gone, k, i);
      assert NodeFresh(ch, st, k, st.byEvent[k][j], c, now);
    }
    var e0 := ch.events[0];
    assert ListOk(ch, st, e0);
    WithoutFsms(st.byEvent[e0], gone);
    PlacesKeep(ch, st, u, seen, c);
  }

  lemma KeptNode(ch: Chain, st: EngineState, u: EngineState, gone: set<nat>, k: nat, i: nat) returns (j: nat)
    requires k < |st.byEvent| && u.byEvent == WithoutAll(st.byEvent, gone) && i < |u.byEvent[k]|
    requires ListOk(ch, st, k)
    requires forall x :: x in u.fsms <==> x in st.fsms && x !in gone
    requires forall x :: x in u.fsms ==> u.fsms[x] == st.fsms[x]
    ensures j < |st.byEvent[k]| && u.byEvent[k][i] == st.byEvent[k][j] && NodeOk(ch, u, k, u.byEvent[k][i])
  {
    WithoutFsms(st.byEvent[k], gone);
    var n := u.byEvent[k][i];
    assert n in u.byEvent[k];
    j :| 0 <= j < |st.byEvent[k]| && st.byEvent[k][j] == n;
    assert NodeOk(ch, st, k, st.byEvent[k][j]);
    assert FsmsOf(u.byEvent[k])[i] == n.fsm;
  }

  lemma DropInstanceKeeps(p: Program, ch: Chain, st: EngineState, seen: set<Message>, e: nat, pos: nat, msg: Message,
                          f: Fsm, refs: Refs)
    requires At(p, ch, st, seen, e, pos, msg)
    requires st.byEvent[e][pos].fsm in st.fsms && st.byEvent[e][pos].fsm != BOOT
    requires f.id == st.fsms[st.byEvent[e][pos].fsm].id && Fits(p.machine, f)
    ensures Sized(p, Touch(st, e, pos, msg.counter, f, refs))
    ensures var u := DropInstance(p, Touch(st, e, pos, msg.counter, f, refs), st.byEvent[e][pos].fsm);
            && Inv(p, ch, u, seen, msg.counter, msg.timestamp)
            && u.byEvent == WithoutAll(st.byEvent, {st.byEvent[e][pos].fsm})
            && u.fsms == st.fsms - {st.byEvent[e][pos].fsm}
  {
    var r := st.byEvent[e][pos].fsm;
    var t := Touch(st, e, pos, msg.counter, f, refs);
    var u := DropInstance(p, t, r);
    WithoutTouched(st.byEvent[e], pos, t.byEvent[e][pos], {r});
    assert u.byEvent == WithoutAll(st.byEvent, {r});
    assert u.fsms == st.fsms - {r};
    assert FamilyOk(st, f.id);
    RemoveRefSpec(st.byId[f.id], r);
    forall i | 0 <= i < |u.byId| ensures FamilyOk(u, i) {
      assert FamilyOk(st, i);
    }
    RemovedKeeps(p, ch, st, u, seen, msg.counter, msg.timestamp, {r});
  }

  lemma DropFamilyKeeps(p: Program, ch: Chain, st: EngineState, seen: set<Message>, e: nat, pos: nat, msg: Message,
                        f: Fsm, refs: Refs)
    requires At(p, ch, st, seen, e, pos, msg)
    requires st.byEvent[e][pos].fsm in st.fsms && st.fsms[st.byEvent[e][pos].fsm].id != 0
    requires f.id == st.fsms[st.byEvent[e][pos].fsm].id && Fits(p.machine, f)
    ensures Sized(p, Touch(st, e, pos, msg.counter, f, refs))
    ensures var r := st.byEvent[e][pos].fsm;
            var u := DropFamily(p, StoreTrace(p, Touch(st, e, pos, msg.counter, f, refs), r), r);
            && Inv(p, ch, u, seen, msg.counter, msg.timestamp)
            && u.stored == f.trace
            && (forall x :: x in u.fsms <==> x in st.fsms && st.fsms[x].id != f.id)
            && (forall x :: x in u.fsms ==> u.fsms[x] == st.fsms[x])
            && u.byEvent == WithoutAll(st.byEvent, FamilyOf(st, f.id))
  {
    hide Live, StoreSlots, FreeInstances, Without, NodeOk, NodeFresh;
    var r := st.byEvent[e][pos].fsm;
    var t := StoreTrace(p, Touch(st, e, pos, msg.counter, f, refs), r);
    var u := DropFamily(p, t, r);
    var gone := FamilyOf(st, f.id);
    DropFamilyShape(p, t, r);
    assert FamilyOf(t, f.id) == gone;
    WithoutTouched(st.byEvent[e], pos, t.byEvent[e][pos], gone);
    assert u.byEvent == WithoutAll(st.byEvent, gone);
    assert FamilyOk(st, f.id);
    assert forall x :: x in u.fsms <==> x in st.fsms && x !in gone;
    forall i | 0 <= i < |u.byId| ensures FamilyOk(u, i) {
      assert FamilyOk(st, i);
    }
    assert st.fsms[BOOT].id == 0;
    RemovedKeeps(p, ch, st, u, seen, msg.counter, msg.timestamp, gone);
  }

  lemma DropFamilyShape(p: Program, t: EngineState, r: nat)
    requires Sized(p, t) && r in t.fsms
    ensures var u, id := DropFamily(p, t, r), t.fsms[r].id;
            && u.byEvent == WithoutAll(t.byEvent, FamilyOf(t, id))
            && u.byId == t.byId[id := []] && u.avail == id && u.nextRef == t.nextRef && u.stored == t.stored
            && (forall x :: x in u.fsms <==> x in t.fsms && x !in t.byId[id])
            && (forall x :: x in u.fsms ==> u.fsms[x] == t.fsms[x])
  {
    FreeInstancesSubset(t.fsms, t.refs, t.byId[t.fsms[r].id]);
  }
}
