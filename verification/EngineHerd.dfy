/**
  * The engine of one rule of two events, message by message. Its instances form a herd, which is enough to follow runs
  * that go wrong: too many families, too few places, or two matches at once.
  */
module EngineHerd {
  import opened Wrappers
  import opened Rules
  import opened Compiler
  import opened ThenChain
  import opened Messages
  import opened FsmRuntime
  import opened ChainSteps
  import opened Engine
  import opened EngineInvariant
  import opened EngineMoves
  import opened EngineStep
  import opened EngineRun

  // ---- The rule and its messages ----

  const FlowRule: Rule := Rule(Plain(Then), Delay(0, 1, 0, 0), Event(1), Event(2))

  const FlowChain: Chain := Chain([1, 2], [Delay(0, 1, 0, 0)], [CreateInstance, ResetTimer], [FAIL])

  /** A message with body 1 starts a family, one with body 2 and the same flow completes it. */
  predicate FlowGuard(e: nat, msg: Message, tr: Trace) {
    if e == 1 then msg.body == 1
    else msg.body == 2 && |tr| > 1 && tr[1].Some? && tr[1].value.flow == msg.flow
  }

  function FlowProgram(size: nat): Program {
    Program(Machine(Compile(FlowRule), (e: nat, msg: Message, tr: Trace) => FlowGuard(e, msg, tr), 3), [{}, {0}, {0}],
            AttackRule, size)
  }

  function Knock(k: nat, flow: nat): Message { Message(k, 0, flow, {0}, 1) }

  function Hit(k: nat, flow: nat): Message { Message(k, 0, flow, {0}, 2) }

  lemma FlowPosed(size: nat)
    requires size > 0
    ensures WellPosed(FlowProgram(size), FlowRule) && ChainOf(FlowRule) == FlowChain
    ensures ChainProgram(FlowProgram(size), FlowChain)
  {
    hide Compile;
    assert Leaves(Root(FlowRule)) == [1, 2] && Delays(Root(FlowRule)) == [Delay(0, 1, 0, 0)];
    assert Acts(Root(FlowRule), DoNothing) == [CreateInstance, ResetTimer];
    assert Lates(Root(FlowRule), FAIL, INCL) == [FAIL];
    WellPosedChain(FlowProgram(size), FlowRule);
  }

  ghost predicate FlowLike(p: Program) {
    && ChainProgram(p, FlowChain) && p.masks == [{}, {0}, {0}] && p.ruleType == AttackRule
    && forall e, msg, tr :: p.machine.guard(e, msg, tr) <==> FlowGuard(e, msg, tr)
  }

  // ---- Herds ----

  /** Instance `ref` was started by `msg` and belongs to family `id`. */
  datatype Member = Member(ref: nat, msg: Message, id: nat)

  /** The instances, youngest first; whether the bootstrap is still there; where the next search begins. */
  datatype Herd = Herd(who: seq<Member>, boot: bool, avail: nat, next: nat)

  function RefsOf(who: seq<Member>): (r: seq<nat>)
    ensures |r| == |who|
  {
    seq(|who|, i requires 0 <= i < |who| => who[i].ref)
  }

  /** The place is not taken. */
  predicate Free(h: Herd, i: nat) {
    (h.boot ==> i != 0) && forall m <- h.who :: m.id != i
  }

  /** The instances of the engine are those of the herd. */
  ghost predicate Roster(p: Program, st: EngineState, h: Herd)
    requires FlowLike(p)
  {
    && st.nextRef == h.next > 0 && st.avail == h.avail
    && (BOOT in st.fsms <==> h.boot)
    && (h.boot ==> Represents(p.machine, FlowChain, st.fsms[BOOT], []) && st.fsms[BOOT].id == 0)
    && (forall i :: 0 <= i < |h.who| ==> IsMember(p, st, h.who[i]) && 0 < h.who[i].ref < h.next)
    && (forall r :: r in st.fsms && r != BOOT ==> r in RefsOf(h.who))
    && Distinct(RefsOf(h.who))
  }

  ghost predicate IsMember(p: Program, st: EngineState, m: Member)
    requires FlowLike(p)
  {
    && m.ref in st.fsms && Represents(p.machine, FlowChain, st.fsms[m.ref], [m.msg]) && st.fsms[m.ref].id == m.id
    && m.msg.timestamp == 0
  }

  ghost predicate Row(list: seq<Node>, refs: seq<nat>, index: nat, c: nat) {
    FsmsOf(list) == refs && forall i :: 0 <= i < |list| ==> list[i].index == index && list[i].counter <= c
  }

  /** The lists hold their nodes in the same order. */
  ghost predicate Rows(st: EngineState, h: Herd, c: nat) {
    && |st.byEvent| == 3
    && Row(st.byEvent[TIMEOUT], RefsOf(h.who), 0, c) && Row(st.byEvent[2], RefsOf(h.who), 1, c)
    && Row(st.byEvent[1], if h.boot then [BOOT] else [], 0, c)
  }

  /** Every place lists the instances with its number. */
  ghost predicate Registry(st: EngineState) {
    forall i, r :: 0 <= i < |st.byId| ==> (r in st.byId[i] <==> r in st.fsms && st.fsms[r].id == i)
  }

  /** The engine stands for the herd, and its nodes have looked at messages up to number c. */
  ghost predicate Stands(p: Program, st: EngineState, h: Herd, c: nat) {
    FlowLike(p) && Sized(p, st) && Roster(p, st, h) && Rows(st, h, c) && Registry(st)
  }

  lemma FreeIff(p: Program, st: EngineState, h: Herd, c: nat, i: nat)
    requires Stands(p, st, h, c) && i < |st.byId|
    ensures st.byId[i] == [] <==> Free(h, i)
  {
    if st.byId[i] != [] {
      var r := st.byId[i][0];
      assert r in st.byId[i] && r in st.fsms;
      if r != BOOT {
        assert r in RefsOf(h.who);
        var k :| 0 <= k < |h.who| && RefsOf(h.who)[k] == r;
        assert IsMember(p, st, h.who[k]) && h.who[k] in h.who;
      }
    }
    if !Free(h, i) {
      if h.boot && i == 0 { assert BOOT in st.byId[0]; }
      else {
        var m :| m in h.who && m.id == i;
        var k :| 0 <= k < |h.who| && h.who[k] == m;
        assert IsMember(p, st, h.who[k]) && m.ref in st.byId[i];
      }
    }
  }

  // ---- Nodes that stay where they are ----

  /** The message does not move the instance of node number `pos` of list e. */
  predicate Calm(h: Herd, e: nat, pos: nat, msg: Message) {
    && e <= 2 && msg.timestamp == 0
    && (e == 1 ==> msg.body != 1)
    && (e == 2 ==> pos < |h.who| && !(msg.body == 2 && h.who[pos].msg.flow == msg.flow))
  }

  lemma MemberCall(p: Program, st: EngineState, h: Herd, c: nat, e: nat, pos: nat, msg: Message)
    returns (r: nat, f: Fsm, ms: seq<Message>, o: EventOutcome, move: Move)
    requires Stands(p, st, h, c) && (e == TIMEOUT || e == 2) && pos < |h.who| && msg.timestamp == 0
    ensures pos < |st.byEvent[e]|
    ensures r == h.who[pos].ref && ms == [h.who[pos].msg]
    ensures Call(p, FlowChain, st, e, pos, msg, r, f, ms, o, move)
    ensures move == if e == 2 && msg.body == 2 && h.who[pos].msg.flow == msg.flow then Pass else Stay
  {
    hide Registry;
    assert FsmsOf(st.byEvent[e])[pos] == RefsOf(h.who)[pos] == h.who[pos].ref;
    var node := st.byEvent[e][pos];
    r := node.fsm;
    assert IsMember(p, st, h.who[pos]);
    f, ms := st.fsms[r], [h.who[pos].msg];
    assert WinMin(FlowChain, ms) == 0 && WinMax(FlowChain, ms) == 1;
    assert f.trace == TraceOf(p.machine.size, FlowChain.events, ms[..0])[1 := Some(ms[0])];
    o := HandleChain(p.machine, FlowChain, st.refs, f, ms, node.index, msg);
    move := Classify(p.machine, FlowChain, f, 1, node.index, msg);
  }

  lemma BootCall(p: Program, st: EngineState, h: Herd, c: nat, msg: Message)
    returns (f: Fsm, o: EventOutcome, move: Move)
    requires Stands(p, st, h, c) && h.boot && msg.timestamp == 0
    ensures |st.byEvent[1]| == 1 && Call(p, FlowChain, st, 1, 0, msg, BOOT, f, [], o, move)
    ensures move == if msg.body == 1 then Fork else Stay
  {
    hide Registry;
    assert FsmsOf(st.byEvent[1])[0] == BOOT;
    f := st.fsms[BOOT];
    o := HandleChain(p.machine, FlowChain, st.refs, f, [], 0, msg);
    move := Classify(p.machine, FlowChain, f, 0, 0, msg);
  }

  lemma SameRepresents(p: Program, f: Fsm, g: Fsm, ms: seq<Message>)
    requires ChainProgram(p, FlowChain) && Represents(p.machine, FlowChain, f, ms) && SameButEvent(f, g)
    requires g.eventId < p.machine.size
    ensures Represents(p.machine, FlowChain, g, ms)
  {}

  lemma TouchRoster(p: Program, st: EngineState, u: EngineState, h: Herd, r: nat, f: Fsm)
    requires FlowLike(p) && Roster(p, st, h) && r in st.fsms && SameButEvent(st.fsms[r], f)
    requires f.eventId < p.machine.size
    requires u.fsms == st.fsms[r := f] && u.nextRef == st.nextRef && u.avail == st.avail
    ensures Roster(p, u, h)
  {
    hide Represents, ChainProgram;
    if r == BOOT { SameRepresents(p, st.fsms[r], f, []); }
    forall i | 0 <= i < |h.who| ensures IsMember(p, u, h.who[i]) {
      assert IsMember(p, st, h.who[i]);
      if h.who[i].ref == r { SameRepresents(p, st.fsms[r], f, [h.who[i].msg]); }
    }
  }

  lemma TouchStands(p: Program, st: EngineState, h: Herd, c: nat, e: nat, pos: nat, d: nat, f: Fsm, refs: Refs)
    requires Stands(p, st, h, c) && e < 3 && pos < |st.byEvent[e]| && d <= c
    requires st.byEvent[e][pos].fsm in st.fsms && SameButEvent(st.fsms[st.byEvent[e][pos].fsm], f)
    requires Fits(p.machine, f)
    ensures Stands(p, Touch(st, e, pos, d, f, refs), h, c)
  {
    var u := Touch(st, e, pos, d, f, refs);
    assert forall x :: x in u.fsms ==> u.fsms[x].id == st.fsms[x].id;
    hide Row, Roster, Registry, ChainProgram, ValidMachine;
    TouchRoster(p, st, u, h, st.byEvent[e][pos].fsm, f);
    TouchRegistry(st, u);
    var refsOf := if e == 1 then if h.boot then [BOOT] else [] else RefsOf(h.who);
    TouchRow(st.byEvent[e], pos, d, refsOf, if e == 2 then 1 else 0, c);
  }

  lemma TouchRegistry(st: EngineState, u: EngineState)
    requires Registry(st) && u.byId == st.byId && u.fsms.Keys == st.fsms.Keys
    requires forall x :: x in u.fsms ==> u.fsms[x].id == st.fsms[x].id
    ensures Registry(u)
  {}

  lemma TouchRow(list: seq<Node>, pos: nat, d: nat, refs: seq<nat>, index: nat, c: nat)
    requires Row(list, refs, index, c) && pos < |list| && d <= c
    ensures Row(list[pos := list[pos].(counter := d)], refs, index, c)
  {
    assert FsmsOf(list[pos := list[pos].(counter := d)]) == FsmsOf(list);
  }

  /** Lists and places are the same, but for list e. */
  ghost predicate OnlyList(st: EngineState, u: EngineState, e: nat) {
    && |u.byEvent| == |st.byEvent| && u.byId == st.byId && u.avail == st.avail
    && forall k :: 0 <= k < |st.byEvent| && k != e ==> u.byEvent[k] == st.byEvent[k]
  }

  lemma OnlyListTrans(st: EngineState, t: EngineState, u: EngineState, e: nat)
    requires OnlyList(st, t, e) && OnlyList(t, u, e)
    ensures OnlyList(st, u, e)
  {}

  lemma CalmNode(p: Program, st: EngineState, h: Herd, c: nat, e: nat, pos: nat, msg: Message) returns (u: EngineState)
    requires Stands(p, st, h, c) && Calm(h, e, pos, msg) && pos < |st.byEvent[e]| && msg.counter <= c
    ensures ProcessNode(p, st, e, pos, msg) == Done(u, Unknown) && Stands(p, u, h, c)
    ensures |u.byEvent| == |st.byEvent| == 3
    ensures |u.byEvent[e]| == |st.byEvent[e]| && u.byEvent[e][pos + 1..] == st.byEvent[e][pos + 1..]
    ensures OnlyList(st, u, e)
  {
    var r, f, ms, o, move;
    assert |FsmsOf(st.byEvent[e])| == |st.byEvent[e]|;
    if e == 1 {
      f, o, move := BootCall(p, st, h, c, msg);
      r, ms := BOOT, [];
    } else {
      r, f, ms, o, move := MemberCall(p, st, h, c, e, pos, msg);
    }
    NodeShape(p, FlowChain, st, e, pos, msg, r, f, ms, o, Stay);
    hide ProcessNode, Stands, Represents, Classify;
    TouchStands(p, st, h, c, e, pos, msg.counter, o.fsm, o.refs);
    u := Touch(st, e, pos, msg.counter, o.fsm, o.refs);
  }

  /** The rest of a list whose nodes all stay calm. */
  ghost predicate CalmRest(st: EngineState, h: Herd, e: nat, rest: seq<Node>, msg: Message) {
    && e < |st.byEvent| && EndsWith(st.byEvent[e], rest)
    && forall i :: |st.byEvent[e]| - |rest| <= i < |st.byEvent[e]| ==> Calm(h, e, i, msg)
  }

  lemma RestFirst(st: EngineState, h: Herd, e: nat, rest: seq<Node>, msg: Message)
    requires CalmRest(st, h, e, rest, msg)
    ensures e < |st.byEvent| && EndsWith(st.byEvent[e], rest)
    ensures rest != [] ==> var pos := |st.byEvent[e]| - |rest|; st.byEvent[e][pos] == rest[0] && Calm(h, e, pos, msg)
  {}

  lemma RestNext(st: EngineState, t: EngineState, h: Herd, e: nat, rest: seq<Node>, msg: Message)
    requires CalmRest(st, h, e, rest, msg) && rest != [] && e < |t.byEvent| && |t.byEvent[e]| == |st.byEvent[e]|
    requires var pos := |st.byEvent[e]| - |rest|; t.byEvent[e][pos + 1..] == st.byEvent[e][pos + 1..]
    ensures CalmRest(t, h, e, rest[1..], msg)
  {
    var list := st.byEvent[e];
    assert list[|list| - |rest|..][1..] == list[|list| - |rest| + 1..];
  }

  lemma {:induction false} CalmWalk(p: Program, st: EngineState, h: Herd, c: nat, e: nat, rest: seq<Node>, msg: Message)
      returns (u: EngineState)
    requires Stands(p, st, h, c) && e <= 2 && CalmRest(st, h, e, rest, msg) && msg.counter <= c
    ensures Sized(p, st) && ProcessList(p, st, e, Addresses(rest), msg) == Done(u, Unknown) && Stands(p, u, h, c)
    ensures |u.byEvent| == 3 && |st.byEvent| == 3
    ensures OnlyList(st, u, e)
    decreases |rest|
  {
    assert Sized(p, st) && |st.byEvent| == 3;
    if rest == [] {
      u := st;
    } else {
      RestFirst(st, h, e, rest, msg);
      ListStep(p, st, e, rest, msg);
      hide Stands, Calm, CalmRest, ProcessNode, ProcessList, Addresses, EndsWith, ValidMachine, Sized, OnlyList;
      if rest[0].counter == msg.counter {
        RestNext(st, st, h, e, rest, msg);
        u := CalmWalk(p, st, h, c, e, rest[1..], msg);
      } else {
        var t := CalmNode(p, st, h, c, e, |st.byEvent[e]| - |rest|, msg);
        RestNext(st, t, h, e, rest, msg);
        u := CalmWalk(p, t, h, c, e, rest[1..], msg);
        OnlyListTrans(st, t, u, e);
      }
    }
  }

  // ---- A new family ----

  /** A family has been started at place i. */
  function Knocked(h: Herd, msg: Message, i: nat): Herd {
    Herd([Member(h.next, msg, i % TWO16)] + h.who, true, i, h.next + 1)
  }

  lemma RowGrows(n: Node, list: seq<Node>, refs: seq<nat>, index: nat, c: nat)
    requires Row(list, refs, index, c) && n.index == index && n.counter <= c
    ensures Row([n] + list, [n.fsm] + refs, index, c)
  {
    FsmsOfCons(n, list);
  }

  lemma JoinStands(p: Program, t: EngineState, h: Herd, c: nat, child: Fsm, i: nat, msg: Message)
    requires Stands(p, t, h, c) && h.boot && Represents(p.machine, FlowChain, child, [msg]) && msg.timestamp == 0
    requires Fits(p.machine, child) && i < |t.byId| && msg.counter <= c
    ensures Stands(p, Joined(t.(avail := i), child, i % TWO16, 2, msg.counter), Knocked(h, msg, i), c)
  {
    var u, g := Joined(t.(avail := i), child, i % TWO16, 2, msg.counter), Knocked(h, msg, i);
    NextFree(p, t, h);
    JoinRegistry(t, u, i % TWO16);
    hide Row, Roster, Registry, ChainProgram, ValidMachine;
    assert RefsOf(g.who) == [h.next] + RefsOf(h.who);
    RowGrows(u.byEvent[TIMEOUT][0], t.byEvent[TIMEOUT], RefsOf(h.who), 0, c);
    RowGrows(u.byEvent[2][0], t.byEvent[2], RefsOf(h.who), 1, c);
    JoinRoster(p, t, h, child, i, msg);
  }

  lemma JoinRegistry(t: EngineState, u: EngineState, id: nat)
    requires Registry(t) && id < |t.byId| && t.nextRef !in t.fsms && t.nextRef in u.fsms && u.fsms[t.nextRef].id == id
    requires u.byId == t.byId[id := [t.nextRef] + t.byId[id]] && u.fsms == t.fsms[t.nextRef := u.fsms[t.nextRef]]
    ensures Registry(u)
  {}

  lemma NextFree(p: Program, t: EngineState, h: Herd)
    requires FlowLike(p) && Roster(p, t, h)
    ensures t.nextRef == h.next && t.nextRef !in t.fsms && forall r :: r in t.fsms ==> r < h.next
  {
    hide Represents, IsMember, ChainProgram;
    forall r | r in t.fsms && r != BOOT ensures r < h.next {
      var k :| 0 <= k < |h.who| && RefsOf(h.who)[k] == r;
      assert h.who[k].ref < h.next;
    }
  }

  lemma JoinRoster(p: Program, t: EngineState, h: Herd, child: Fsm, i: nat, msg: Message)
    requires FlowLike(p) && Roster(p, t, h) && h.boot && Represents(p.machine, FlowChain, child, [msg])
    requires msg.timestamp == 0 && i < |t.byId| && |t.byEvent| == 3
    ensures Roster(p, Joined(t.(avail := i), child, i % TWO16, 2, msg.counter), Knocked(h, msg, i))
  {
    var u, g := Joined(t.(avail := i), child, i % TWO16, 2, msg.counter), Knocked(h, msg, i);
    assert RefsOf(g.who) == [h.next] + RefsOf(h.who);
    assert h.next !in RefsOf(h.who);
    DistinctCons(h.next, RefsOf(h.who));
    hide Represents, ChainProgram;
    assert u.fsms == t.fsms[h.next := child.(id := i % TWO16)];
    IdOnly(p, child, i % TWO16, [msg]);
    assert IsMember(p, u, g.who[0]);
    forall k | 0 < k < |g.who| ensures IsMember(p, u, g.who[k]) { assert IsMember(p, t, h.who[k - 1]); }
  }

  lemma IdOnly(p: Program, f: Fsm, id: nat, ms: seq<Message>)
    requires FlowLike(p) && Represents(p.machine, FlowChain, f, ms)
    ensures Represents(p.machine, FlowChain, f.(id := id), ms)
  {}

  /** The bootstrap starts a family, or halts the process for want of a place. */
  lemma KnockNode(p: Program, st: EngineState, h: Herd, c: nat, msg: Message) returns (s: Step)
    requires Stands(p, st, h, c) && h.boot && msg.body == 1 && msg.timestamp == 0 && msg.counter <= c
    ensures |st.byEvent[1]| == 1 && s == ProcessNode(p, st, 1, 0, msg)
    ensures match FindPlace(st.byId, st.avail)
            case None => s == Halted
            case Some(i) => s.Done? && s.verdict == Unknown && Stands(p, s.engine, Knocked(h, msg, i), c)
  {
    var f, o, move := BootCall(p, st, h, c, msg);
    NodeShape(p, FlowChain, st, 1, 0, msg, BOOT, f, [], o, Fork);
    s := ProcessNode(p, st, 1, 0, msg);
    assert [] + [msg] == [msg];
    hide ProcessNode, Stands, Classify;
    TouchStands(p, st, h, c, 1, 0, msg.counter, o.fsm, o.refs);
    var t := Touch(st, 1, 0, msg.counter, o.fsm, o.refs);
    match FindPlace(st.byId, st.avail)
    case None =>
    case Some(i) => JoinStands(p, t, h, c, o.child.value, i, msg);
  }

  // ---- A match ----

  /** The members of other families. */
  function Others(who: seq<Member>, id: nat): seq<Member> {
    if who == [] then []
    else (if who[0].id == id then [] else [who[0]]) + Others(who[1..], id)
  }

  /** A verdict on family `id` has removed it, and its place is remembered. */
  function Dropped(h: Herd, id: nat): Herd {
    Herd(Others(h.who, id), h.boot && id != 0, id, h.next)
  }

  lemma {:induction false} OthersMembers(who: seq<Member>, id: nat)
    ensures forall m :: m in Others(who, id) <==> m in who && m.id != id
  {
    if who != [] { OthersMembers(who[1..], id); }
  }

  lemma {:induction false} RowShrinks(list: seq<Node>, who: seq<Member>, index: nat, c: nat, gone: set<nat>, id: nat)
    requires Row(list, RefsOf(who), index, c) && forall m <- who :: m.ref in gone <==> m.id == id
    ensures Row(Without(list, gone), RefsOf(Others(who, id)), index, c)
    decreases |who|
  {
    assert |FsmsOf(list)| == |RefsOf(who)|;
    if who != [] {
      assert FsmsOf(list)[0] == RefsOf(who)[0];
      assert FsmsOf(list[1..]) == FsmsOf(list)[1..] && RefsOf(who[1..]) == RefsOf(who)[1..];
      assert forall i :: 0 <= i < |list| - 1 ==> list[1..][i] == list[i + 1];
      RowShrinks(list[1..], who[1..], index, c, gone, id);
      var w := Without(list[1..], gone);
      assert list[0].fsm == who[0].ref && who[0] in who;
      if who[0].id == id {
        assert Without(list, gone) == w && Others(who, id) == Others(who[1..], id);
      } else {
        assert Without(list, gone) == [list[0]] + w && Others(who, id) == [who[0]] + Others(who[1..], id);
        FsmsOfCons(list[0], w);
        assert RefsOf([who[0]] + Others(who[1..], id)) == [who[0].ref] + RefsOf(Others(who[1..], id));
      }
    }
  }

  lemma RefsCons(m: Member, who: seq<Member>)
    ensures RefsOf([m] + who) == [m.ref] + RefsOf(who)
  {}

  lemma RefsIn(who: seq<Member>, r: nat)
    ensures r in RefsOf(who) <==> exists m <- who :: m.ref == r
  {
    if r in RefsOf(who) {
      var k :| 0 <= k < |who| && RefsOf(who)[k] == r;
      assert who[k] in who;
    }
    if m :| m in who && m.ref == r {
      var k :| 0 <= k < |who| && who[k] == m;
      assert RefsOf(who)[k] == r;
    }
  }

  lemma {:induction false} OthersDistinct(who: seq<Member>, id: nat)
    requires Distinct(RefsOf(who))
    ensures Distinct(RefsOf(Others(who, id)))
  {
    if who != [] {
      var m, tail := who[0], who[1..];
      var rest := Others(tail, id);
      assert who == [m] + tail && Others(who, id) == if m.id == id then rest else [m] + rest;
      hide Others, RefsOf, Distinct;
      RefsCons(m, tail);
      DistinctCons(m.ref, RefsOf(tail));
      OthersDistinct(tail, id);
      OthersMembers(tail, id);
      RefsIn(tail, m.ref);
      RefsIn(rest, m.ref);
      RefsCons(m, rest);
      DistinctCons(m.ref, RefsOf(rest));
    }
  }

  lemma DropRoster(p: Program, t: EngineState, u: EngineState, h: Herd, id: nat)
    requires FlowLike(p) && Roster(p, t, h) && u.nextRef == t.nextRef && u.avail == id
    requires forall x :: x in u.fsms <==> x in t.fsms && t.fsms[x].id != id
    requires forall x :: x in u.fsms ==> u.fsms[x] == t.fsms[x]
    ensures Roster(p, u, Dropped(h, id))
  {
    var g := Dropped(h, id);
    OthersMembers(h.who, id);
    OthersDistinct(h.who, id);
    hide Represents, ChainProgram, Distinct, Others;
    forall i | 0 <= i < |g.who| ensures IsMember(p, u, g.who[i]) && 0 < g.who[i].ref < g.next {
      assert g.who[i] in h.who;
      var k :| 0 <= k < |h.who| && h.who[k] == g.who[i];
      assert IsMember(p, t, h.who[k]);
    }
    forall r | r in u.fsms && r != BOOT ensures r in RefsOf(g.who) {
      var k :| 0 <= k < |h.who| && RefsOf(h.who)[k] == r;
      assert IsMember(p, t, h.who[k]) && h.who[k] in g.who;
      RefsIn(g.who, r);
    }
  }

  lemma DropRegistry(t: EngineState, u: EngineState, id: nat)
    requires Registry(t) && id < |t.byId| && u.byId == t.byId[id := []]
    requires forall x :: x in u.fsms <==> x in t.fsms && x !in t.byId[id]
    requires forall x :: x in u.fsms ==> u.fsms[x] == t.fsms[x]
    ensures Registry(u)
  {
    forall i, r | 0 <= i < |u.byId| ensures r in u.byId[i] <==> r in u.fsms && u.fsms[r].id == i {
      assert r in t.byId[i] <==> r in t.fsms && t.fsms[r].id == i;
    }
  }

  lemma DropStands(p: Program, t: EngineState, u: EngineState, h: Herd, c: nat, id: nat)
    requires Stands(p, t, h, c) && Sized(p, u) && id < |t.byId|
    requires u.byEvent == WithoutAll(t.byEvent, FamilyOf(t, id)) && u.byId == t.byId[id := []]
    requires u.nextRef == t.nextRef && u.avail == id
    requires forall x :: x in u.fsms <==> x in t.fsms && x !in t.byId[id]
    requires forall x :: x in u.fsms ==> u.fsms[x] == t.fsms[x]
    ensures Stands(p, u, Dropped(h, id), c)
  {
    var gone := FamilyOf(t, id);
    DropRoster(p, t, u, h, id);
    forall m <- h.who ensures m.ref in gone <==> m.id == id {
      var k :| 0 <= k < |h.who| && h.who[k] == m;
      assert IsMember(p, t, h.who[k]);
    }
    DropRegistry(t, u, id);
    hide Row, Roster, Registry, ChainProgram, ValidMachine;
    RowShrinks(t.byEvent[TIMEOUT], h.who, 0, c, gone, id);
    RowShrinks(t.byEvent[2], h.who, 1, c, gone, id);
    BootRow(p, t, h, c, id);
  }

  lemma BootRow(p: Program, t: EngineState, h: Herd, c: nat, id: nat)
    requires Stands(p, t, h, c)
    ensures Row(Without(t.byEvent[1], FamilyOf(t, id)), if h.boot && id != 0 then [BOOT] else [], 0, c)
  {
    var list, gone := t.byEvent[1], FamilyOf(t, id);
    if h.boot {
      assert FsmsOf(list)[0] == BOOT && |list| == 1 && list[1..] == [];
      assert BOOT in gone <==> id == 0;
      assert Without(list, gone) == if id == 0 then [] else list;
    } else {
      assert |FsmsOf(list)| == 0;
    }
  }

  /** A match brings a verdict on the family, and all of it goes. */
  lemma HitNode(p: Program, st: EngineState, h: Herd, c: nat, j: nat, msg: Message) returns (u: EngineState)
    requires Stands(p, st, h, c) && j < |h.who| && msg.body == 2 && msg.timestamp == 0 && msg.counter <= c
    requires h.who[j].msg.flow == msg.flow
    ensures j < |st.byEvent[2]| && ProcessNode(p, st, 2, j, msg) == Done(u, Detected)
    ensures Stands(p, u, Dropped(h, h.who[j].id), c)
    ensures |u.stored| == 3 && u.stored[1] == Some(h.who[j].msg)
  {
    var r, f, ms, o, move := MemberCall(p, st, h, c, 2, j, msg);
    NodeShape(p, FlowChain, st, 2, j, msg, r, f, ms, o, Pass);
    PassTrace(p, o.fsm.trace, ms, msg);
    assert IsMember(p, st, h.who[j]);
    assert GetVerdict(p.ruleType, o.res) == Detected;
    hide ProcessNode, Classify, Represents;
    var t := StoreTrace(p, Touch(st, 2, j, msg.counter, o.fsm, o.refs), r);
    u := DropFamily(p, t, r);
    DropFamilyShape(p, t, r);
    PassStands(p, st, h, c, j, msg, r, o, u);
  }

  lemma PassTrace(p: Program, tr: Trace, ms: seq<Message>, msg: Message)
    requires FlowLike(p) && |ms| == 1 && tr == TraceOf(p.machine.size, FlowChain.events, ms + [msg])
    ensures |tr| == 3 && tr[1] == Some(ms[0])
  {
    TraceOfAt(p.machine.size, FlowChain.events, ms + [msg], 1);
    assert (ms + [msg])[0] == ms[0];
  }

  /** The instance that has passed counts as it was until its family goes. */
  lemma PassStands(p: Program, st: EngineState, h: Herd, c: nat, j: nat, msg: Message, r: nat, o: EventOutcome,
                   u: EngineState)
    requires Stands(p, st, h, c) && j < |h.who| && j < |st.byEvent[2]| && r == h.who[j].ref == st.byEvent[2][j].fsm
    requires msg.counter <= c && IsMember(p, st, h.who[j]) && o.fsm.id == h.who[j].id && Sized(p, u)
    requires var t, id := Touch(st, 2, j, msg.counter, o.fsm, o.refs), h.who[j].id;
             && u.byEvent == WithoutAll(t.byEvent, FamilyOf(t, id)) && u.byId == t.byId[id := []]
             && u.nextRef == t.nextRef && u.avail == id
             && (forall x :: x in u.fsms <==> x in t.fsms && x !in t.byId[id])
             && (forall x :: x in u.fsms ==> u.fsms[x] == t.fsms[x])
    ensures Stands(p, u, Dropped(h, h.who[j].id), c)
  {
    var id := h.who[j].id;
    var t0 := Touch(st, 2, j, msg.counter, st.fsms[r], o.refs);
    TouchStands(p, st, h, c, 2, j, msg.counter, st.fsms[r], o.refs);
    var t := Touch(st, 2, j, msg.counter, o.fsm, o.refs);
    assert r in t.byId[id] && id < |t0.byId|;
    hide Represents, ChainProgram, Row, Roster, Distinct;
    assert FamilyOf(t, id) == FamilyOf(t0, id);
    DropStands(p, t0, u, h, c, id);
  }

  // ---- One message ----

  lemma StandsSame(p: Program, st: EngineState, u: EngineState, h: Herd, c: nat, d: nat)
    requires Stands(p, st, h, c) && SameShape(st, u) && c <= d
    ensures Stands(p, u, h, d)
  {
    hide Represents, ChainProgram;
    forall i | 0 <= i < |h.who| ensures IsMember(p, u, h.who[i]) { assert IsMember(p, st, h.who[i]); }
  }

  /** No node has looked at message d. */
  lemma Unseen(p: Program, st: EngineState, h: Herd, c: nat, d: nat)
    requires Stands(p, st, h, c) && c < d
    ensures |st.byEvent| == 3 && |st.byEvent[2]| == |h.who| && |st.byEvent[1]| == if h.boot then 1 else 0
    ensures forall k, i :: 1 <= k < 3 && 0 <= i < |st.byEvent[k]| ==> st.byEvent[k][i].counter != d
  {
    assert |FsmsOf(st.byEvent[2])| == |h.who| && |FsmsOf(st.byEvent[1])| == |st.byEvent[1]|;
  }

  lemma OneNode(p: Program, st: EngineState, msg: Message)
    requires Sized(p, st) && |st.byEvent| == 3 && |st.byEvent[1]| == 1 && st.byEvent[1][0].counter != msg.counter
    ensures ProcessList(p, st, 1, Addresses(st.byEvent[1]), msg) == ProcessNode(p, st, 1, 0, msg)
  {
    var list := st.byEvent[1];
    hide ProcessNode;
    ListStep(p, st, 1, list, msg);
    assert Addresses(list[1..]) == [];
  }

  /** What comes of the lists, one after the other. */
  lemma ListByList(p: Program, st: EngineState, msg: Message, a: EngineState)
    requires Sized(p, st) && Sized(p, a) && p.masks == [{}, {0}, {0}] && msg.mask == {0}
    requires ProcessList(p, st, 0, Addresses(st.byEvent[0]), msg) == Done(a, Unknown)
    ensures var s := ProcessList(p, a, 1, Addresses(a.byEvent[1]), msg);
            ProcessEvents(p, st, 0, msg)
            == if s.Done? && s.verdict == Unknown then ProcessList(p, s.engine, 2, Addresses(s.engine.byEvent[2]), msg)
               else s
  {
    hide ProcessList;
    var s := ProcessList(p, a, 1, Addresses(a.byEvent[1]), msg);
    assert ProcessEvents(p, st, 0, msg) == ProcessEvents(p, a, 1, msg);
    if s.Done? && s.verdict == Unknown {
      var t := ProcessList(p, s.engine, 2, Addresses(s.engine.byEvent[2]), msg);
      if t.Done? { assert ProcessEvents(p, t.engine, 3, msg) == Done(t.engine, Unknown); }
      assert ProcessEvents(p, s.engine, 2, msg) == t;
    }
  }

  lemma WholeList(st: EngineState, h: Herd, e: nat, msg: Message)
    requires e < |st.byEvent| && forall i :: 0 <= i < |st.byEvent[e]| ==> Calm(h, e, i, msg)
    ensures CalmRest(st, h, e, st.byEvent[e], msg)
  {
    assert st.byEvent[e][0..] == st.byEvent[e];
  }

  /** The timeouts come first, and none is due. */
  lemma FirstList(p: Program, st: EngineState, h: Herd, c: nat, msg: Message) returns (a: EngineState)
    requires Stands(p, st, h, c) && c < msg.counter && msg.timestamp == 0
    ensures Sized(p, st) && ProcessList(p, st, 0, Addresses(st.byEvent[0]), msg) == Done(a, Unknown)
    ensures Stands(p, a, h, msg.counter) && |a.byEvent| == 3 && |a.byEvent[2]| == |h.who|
    ensures a.byId == st.byId && a.avail == st.avail
    ensures |a.byEvent[1]| == if h.boot then 1 else 0
    ensures forall k, i :: 1 <= k < 3 && 0 <= i < |a.byEvent[k]| ==> a.byEvent[k][i].counter != msg.counter
  {
    StandsSame(p, st, st, h, c, msg.counter);
    Unseen(p, st, h, c, msg.counter);
    WholeList(st, h, TIMEOUT, msg);
    hide Stands;
    a := CalmWalk(p, st, h, msg.counter, TIMEOUT, st.byEvent[TIMEOUT], msg);
  }

  /** After a message without verdict the extra sweep may follow; it finds nothing. */
  lemma AfterLists(p: Program, st: EngineState, h: Herd, msg: Message, d: EngineState) returns (u: EngineState)
    requires Sized(p, st) && ProcessEvents(p, st.(refs := Retain(st.refs, msg)), 0, msg) == Done(d, Unknown)
    requires Stands(p, d, h, msg.counter) && msg.timestamp == 0
    ensures Deliver(p, st, msg) == Done(u, Unknown) && Stands(p, u, h, msg.counter)
  {
    u := d;
    assert |d.byEvent| == 3;
    hide Stands, ProcessEvents, ProcessList;
    if SweepDue(d, msg) {
      StandsSame(p, d, Swept(d, msg), h, msg.counter, msg.counter);
      WholeList(Swept(d, msg), h, TIMEOUT, msg);
      u := CalmWalk(p, Swept(d, msg), h, msg.counter, TIMEOUT, d.byEvent[TIMEOUT], msg);
    }
    StandsSame(p, u, u.(refs := Release(u.refs, msg)), h, msg.counter, msg.counter);
    u := u.(refs := Release(u.refs, msg));
  }

  /** A message that starts a family. */
  lemma KnockDelivered(p: Program, st: EngineState, h: Herd, c: nat, k: nat, flow: nat, i: nat) returns (u: EngineState)
    requires Stands(p, st, h, c) && h.boot && c < k && FindPlace(st.byId, st.avail) == Some(i)
    ensures Deliver(p, st, Knock(k, flow)) == Done(u, Unknown) && Stands(p, u, Knocked(h, Knock(k, flow), i), k)
  {
    var msg, g := Knock(k, flow), Knocked(h, Knock(k, flow), i);
    var st0 := st.(refs := Retain(st.refs, msg));
    StandsSame(p, st, st0, h, c, c);
    var a := FirstList(p, st0, h, c, msg);
    var s := KnockNode(p, a, h, k, msg);
    OneNode(p, a, msg);
    ListByList(p, st0, msg, a);
    var b := s.engine;
    assert |b.byEvent| == 3 && |FsmsOf(b.byEvent[2])| == |g.who|;
    WholeList(b, g, 2, msg);
    hide Stands, ProcessList, ProcessNode, ProcessEvents;
    var d := CalmWalk(p, b, g, k, 2, b.byEvent[2], msg);
    u := AfterLists(p, st, g, msg, d);
  }

  /** A message that would start a family, and finds no place. */
  lemma KnockHalts(p: Program, st: EngineState, h: Herd, c: nat, k: nat, flow: nat)
    requires Stands(p, st, h, c) && h.boot && c < k && FindPlace(st.byId, st.avail) == None
    ensures Deliver(p, st, Knock(k, flow)) == Halted
  {
    var msg := Knock(k, flow);
    var st0 := st.(refs := Retain(st.refs, msg));
    StandsSame(p, st, st0, h, c, c);
    var a := FirstList(p, st0, h, c, msg);
    var s := KnockNode(p, a, h, k, msg);
    OneNode(p, a, msg);
    hide ProcessList, ProcessNode, ProcessEvents;
    ListByList(p, st0, msg, a);
  }

  /** Member j is the first one, the youngest, that the message fits. */
  predicate FirstFit(h: Herd, j: nat, flow: nat) {
    j < |h.who| && h.who[j].msg.flow == flow && forall i :: 0 <= i < j ==> h.who[i].msg.flow != flow
  }

  /** The walk over the members finds the first fit. */
  lemma {:induction false} WalkToHit(p: Program, st: EngineState, h: Herd, c: nat, pos: nat, j: nat, msg: Message)
      returns (u: EngineState)
    requires Stands(p, st, h, c) && pos <= j && FirstFit(h, j, msg.flow) && msg.body == 2 && msg.timestamp == 0
    requires msg.counter <= c && |st.byEvent| == 3 && |st.byEvent[2]| == |h.who|
    requires forall i :: pos <= i < |h.who| ==> st.byEvent[2][i].counter != msg.counter
    ensures Sized(p, st) && ProcessList(p, st, 2, Addresses(st.byEvent[2][pos..]), msg) == Done(u, Detected)
    ensures Stands(p, u, Dropped(h, h.who[j].id), c) && |u.stored| == 3 && u.stored[1] == Some(h.who[j].msg)
    decreases j - pos
  {
    var rest := st.byEvent[2][pos..];
    assert EndsWith(st.byEvent[2], rest) && rest != [];
    assert rest[0] == st.byEvent[2][pos] && rest[1..] == st.byEvent[2][pos + 1..];
    assert Sized(p, st);
    ListStep(p, st, 2, rest, msg);
    hide Stands, ProcessNode, ProcessList, Addresses, Dropped, Sized;
    if pos == j {
      u := HitNode(p, st, h, c, j, msg);
    } else {
      var t := CalmNode(p, st, h, c, 2, pos, msg);
      forall i | pos + 1 <= i < |h.who| ensures t.byEvent[2][i] == st.byEvent[2][i] {
        assert t.byEvent[2][pos + 1..][i - pos - 1] == st.byEvent[2][pos + 1..][i - pos - 1];
      }
      u := WalkToHit(p, t, h, c, pos + 1, j, msg);
    }
  }

  /** A message that completes a match: the youngest member that it fits gets the verdict, and no other. */
  lemma HitDelivered(p: Program, st: EngineState, h: Herd, c: nat, k: nat, flow: nat, j: nat) returns (u: EngineState)
    requires Stands(p, st, h, c) && c < k && FirstFit(h, j, flow)
    ensures Deliver(p, st, Hit(k, flow)) == Done(u, Detected) && Stands(p, u, Dropped(h, h.who[j].id), k)
    ensures |u.stored| == 3 && u.stored[1] == Some(h.who[j].msg)
  {
    var msg := Hit(k, flow);
    var st0 := st.(refs := Retain(st.refs, msg));
    StandsSame(p, st, st0, h, c, c);
    var a := FirstList(p, st0, h, c, msg);
    WholeList(a, h, 1, msg);
    var b := CalmWalk(p, a, h, k, 1, a.byEvent[1], msg);
    ListByList(p, st0, msg, a);
    assert b.byEvent[2][0..] == b.byEvent[2];
    hide Stands, ProcessList, ProcessEvents, Dropped;
    var d := WalkToHit(p, b, h, k, 0, j, msg);
    u := d.(refs := Release(d.refs, msg));
    StandsSame(p, d, u, Dropped(h, h.who[j].id), k, k);
  }

  /** Without the bootstrap no message starts a family any more. */
  lemma KnockUnheard(p: Program, st: EngineState, h: Herd, c: nat, k: nat, flow: nat) returns (u: EngineState)
    requires Stands(p, st, h, c) && !h.boot && c < k
    ensures Deliver(p, st, Knock(k, flow)) == Done(u, Unknown) && Stands(p, u, h, k)
  {
    var msg := Knock(k, flow);
    var st0 := st.(refs := Retain(st.refs, msg));
    StandsSame(p, st, st0, h, c, c);
    var a := FirstList(p, st0, h, c, msg);
    ListByList(p, st0, msg, a);
    assert a.byEvent[1] == [];
    assert ProcessList(p, a, 1, Addresses([]), msg) == Done(a, Unknown);
    WholeList(a, h, 2, msg);
    hide Stands, ProcessList, ProcessEvents;
    var d := CalmWalk(p, a, h, k, 2, a.byEvent[2], msg);
    u := AfterLists(p, st, h, msg, d);
  }

  // ---- Runs ----

  /** Running, with the herd standing for the engine and messages up to number c seen. */
  ghost predicate RunStands(size: nat, msgs: seq<Message>, alarms: seq<Alarm>, h: Herd, c: nat)
    requires size > 0 && ChainProgram(FlowProgram(size), FlowChain)
  {
    var p := FlowProgram(size);
    var r := Run(p, msgs);
    r.Running? && r.alarms == alarms && Stands(p, r.engine, h, c)
  }

  const Newborn: Herd := Herd([], true, 0, 1)

  lemma RunStarts(size: nat)
    requires size > 0
    ensures ChainProgram(FlowProgram(size), FlowChain) && RunStands(size, [], [], Newborn, 0)
  {
    var p := FlowProgram(size);
    FlowPosed(size);
    var st := InitEngine(p);
    InitLists(p, FlowChain);
    assert FsmsOf([Node(0, 0, 0, BOOT)]) == [BOOT];
    assert Distinct(RefsOf([]));
  }

  lemma RunSnoc(p: Program, msgs: seq<Message>, msg: Message)
    requires Runnable(p)
    ensures Run(p, msgs + [msg]) == Feed(p, Run(p, msgs), |msgs|, msg)
  {
    hide Feed, InitEngine;
    assert (msgs + [msg])[..|msgs|] == msgs;
  }

  lemma RunKnock(size: nat, msgs: seq<Message>, alarms: seq<Alarm>, h: Herd, c: nat, k: nat, flow: nat, i: nat)
    requires size > 0 && ChainProgram(FlowProgram(size), FlowChain)
    requires RunStands(size, msgs, alarms, h, c) && h.boot && c < k
    requires h.avail <= i < size && Free(h, i) && forall j :: h.avail <= j < i ==> !Free(h, j)
    ensures RunStands(size, msgs + [Knock(k, flow)], alarms, Knocked(h, Knock(k, flow), i), k)
  {
    hide Compile;
    var p := FlowProgram(size);
    var st := Run(p, msgs).engine;
    forall j | h.avail <= j <= i ensures st.byId[j] == [] <==> Free(h, j) { FreeIff(p, st, h, c, j); }
    NextPlace(st.byId, h.avail, i);
    RunSnoc(p, msgs, Knock(k, flow));
    hide Run, Deliver;
    var u := KnockDelivered(p, st, h, c, k, flow, i);
  }

  lemma {:induction false} NextPlace(byId: seq<seq<nat>>, i: nat, b: nat)
    requires i <= b < |byId| && byId[b] == [] && forall j :: i <= j < b ==> byId[j] != []
    ensures FindPlace(byId, i) == Some(b)
    decreases b - i
  {
    if i < b { NextPlace(byId, i + 1, b); }
  }

  lemma {:induction false} NoPlace(byId: seq<seq<nat>>, i: nat)
    ensures FindPlace(byId, i) == None <==> forall j :: i <= j < |byId| ==> byId[j] != []
    decreases |byId| - i
  {
    if i < |byId| { NoPlace(byId, i + 1); }
  }

  lemma RunHalts(size: nat, msgs: seq<Message>, alarms: seq<Alarm>, h: Herd, c: nat, k: nat, flow: nat)
    requires size > 0 && ChainProgram(FlowProgram(size), FlowChain)
    requires RunStands(size, msgs, alarms, h, c) && h.boot && c < k
    requires forall j :: h.avail <= j < size ==> !Free(h, j)
    ensures Run(FlowProgram(size), msgs + [Knock(k, flow)]) == Stopped(true, alarms)
  {
    hide Compile;
    var p := FlowProgram(size);
    var st := Run(p, msgs).engine;
    forall j | h.avail <= j < size ensures st.byId[j] != [] { FreeIff(p, st, h, c, j); }
    NoPlace(st.byId, h.avail);
    RunSnoc(p, msgs, Knock(k, flow));
    hide Run, Deliver;
    KnockHalts(p, st, h, c, k, flow);
  }

  lemma RunHit(size: nat, msgs: seq<Message>, alarms: seq<Alarm>, h: Herd, c: nat, k: nat, flow: nat, j: nat)
      returns (a: Alarm)
    requires size > 0 && ChainProgram(FlowProgram(size), FlowChain) && RunStands(size, msgs, alarms, h, c) && c < k
    requires FirstFit(h, j, flow)
    ensures a.at == |msgs| && a.verdict == Detected && |a.trace| == 3 && a.trace[1] == Some(h.who[j].msg)
    ensures RunStands(size, msgs + [Hit(k, flow)], alarms + [a], Dropped(h, h.who[j].id), k)
  {
    hide Compile;
    var p := FlowProgram(size);
    var st := Run(p, msgs).engine;
    RunSnoc(p, msgs, Hit(k, flow));
    hide Run, Deliver, Stands;
    var u := HitDelivered(p, st, h, c, k, flow, j);
    a := Alarm(|msgs|, Detected, u.stored);
  }

  lemma RunUnheard(size: nat, msgs: seq<Message>, alarms: seq<Alarm>, h: Herd, c: nat, k: nat, flow: nat)
    requires size > 0 && ChainProgram(FlowProgram(size), FlowChain)
    requires RunStands(size, msgs, alarms, h, c) && !h.boot && c < k
    ensures RunStands(size, msgs + [Knock(k, flow)], alarms, h, k)
  {
    hide Compile;
    var p := FlowProgram(size);
    var st := Run(p, msgs).engine;
    RunSnoc(p, msgs, Knock(k, flow));
    hide Run, Deliver, Stands;
    var u := KnockUnheard(p, st, h, c, k, flow);
  }
}
