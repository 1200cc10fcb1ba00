/** One node keeps the invariant, the origins of families, the reference counts, and gives only sound verdicts. */
module EngineVerdict {
  import opened Wrappers
  import opened Compiler
  import opened ThenChain
  import opened Messages
  import opened FsmRuntime
  import opened ChainSteps
  import opened RuleMeaning
  import opened Engine
  import opened EngineInvariant
  import opened EngineMoves
  import opened EngineStep

  lemma TouchForward(st: EngineState, e: nat, pos: nat, c: nat, f: Fsm, refs: Refs)
    requires e < |st.byEvent| && pos < |st.byEvent[e]|
    ensures Forward(st, Touch(st, e, pos, c, f, refs), e, pos, c)
  {
    var u := Touch(st, e, pos, c, f, refs);
    var list := st.byEvent[e];
    assert u.byEvent[e][pos + 1..] == list[pos + 1..];
    forall n | n in u.byEvent[e] ensures n.counter == c || n in RemoveAt(list, pos) {
      var i :| 0 <= i < |list| && u.byEvent[e][i] == n;
      if i != pos { assert RemoveAt(list, pos)[if i < pos then i else i - 1] == n; }
    }
  }

  lemma JoinForward(st: EngineState, t: EngineState, e: nat, pos: nat, child: Fsm, id: nat, next: nat, c: nat)
    requires Forward(st, t, e, pos, c) && id < |t.byId| && 0 < next < |t.byEvent| && next != e && e != TIMEOUT
    ensures Forward(st, Joined(t, child, id, next, c), e, pos, c)
  {}

  lemma MoveForward(st: EngineState, e: nat, pos: nat, g: Fsm, next: nat, c: nat, refs: Refs)
    requires e < |st.byEvent| && pos < |st.byEvent[e]| && next < |st.byEvent| && next != e
    ensures Forward(st, Moved(st, e, pos, g, next, c, refs), e, pos, c)
  {
    var u := Moved(st, e, pos, g, next, c, refs);
    assert u.byEvent[e] == RemoveAt(st.byEvent[e], pos);
    assert RemoveAt(st.byEvent[e], pos)[pos..] == st.byEvent[e][pos + 1..];
  }

  lemma DropForward(ch: Chain, st: EngineState, u: EngineState, e: nat, pos: nat, c: nat)
    requires e < |st.byEvent| && pos < |st.byEvent[e]| && Lists(ch, st)
    requires u.byEvent == WithoutAll(st.byEvent, {st.byEvent[e][pos].fsm})
    ensures Forward(st, u, e, pos, c)
  {
    var r := st.byEvent[e][pos].fsm;
    assert ListOk(ch, st, e);
    WithoutOne(st.byEvent[e], pos);
    forall n | n in u.byEvent[e] ensures n in RemoveAt(st.byEvent[e], pos) {
      WithoutFsms(st.byEvent[e], {r});
      var i :| 0 <= i < |u.byEvent[e]| && u.byEvent[e][i] == n;
      assert FsmsOf(u.byEvent[e])[i] == n.fsm;
      var j :| 0 <= j < |st.byEvent[e]| && st.byEvent[e][j] == n;
      assert RemoveAt(st.byEvent[e], pos)[if j < pos then j else j - 1] == n;
    }
    forall k, n | 0 <= k < |st.byEvent| && k != e && n in u.byEvent[k] ensures n in st.byEvent[k] {
      assert ListOk(ch, st, k);
      WithoutFsms(st.byEvent[k], {r});
    }
  }

  // ---- The invariant, move by move ----

  ghost predicate Kept(p: Program, ch: Chain, st: EngineState, s: Step, seen: set<Message>, e: nat, pos: nat,
                       msg: Message) {
    && !s.Broken? && (|seen| < p.maxInstances ==> !s.Halted?)
    && (s.Done? ==> Inv(p, ch, s.engine, seen, msg.counter, msg.timestamp))
    && (s.Done? && s.verdict == Unknown ==> Forward(st, s.engine, e, pos, msg.counter))
  }

  lemma ForkKeeps(p: Program, ch: Chain, st: EngineState, seen: set<Message>, e: nat, pos: nat, msg: Message,
                  r: nat, f: Fsm, ms: seq<Message>, o: EventOutcome)
    requires At(p, ch, st, seen, e, pos, msg) && InRange(ch, msg)
    requires CallOk(p, ch, st, e, pos, msg, r, f, ms, o, Fork) && ms == MatchedAt(ch, st, r)
    requires e != TIMEOUT && e == ch.events[|ms|] && |ms| + 1 < |ch.events|
    requires ms != [] ==> ms[|ms| - 1].counter < msg.counter
    ensures Kept(p, ch, st, ShapeOf(p, ch, st, e, pos, msg.counter, |ms|, o, Fork), seen, e, pos, msg)
  {
    hide Inv, Forward, Kept, Forked;
    var t := Touch(st, e, pos, msg.counter, o.fsm, o.refs);
    TouchKeeps(p, ch, st, seen, e, pos, msg, o.fsm, o.refs);
    TouchForward(st, e, pos, msg.counter, o.fsm, o.refs);
    ForkedKeeps(p, ch, st, seen, e, pos, msg, r, f, ms, o, t);
  }

  lemma ForkedKeeps(p: Program, ch: Chain, st: EngineState, seen: set<Message>, e: nat, pos: nat, msg: Message,
                  r: nat, f: Fsm, ms: seq<Message>, o: EventOutcome, t: EngineState)
    requires At(p, ch, st, seen, e, pos, msg) && InRange(ch, msg)
    requires CallOk(p, ch, st, e, pos, msg, r, f, ms, o, Fork) && ms == MatchedAt(ch, st, r)
    requires e != TIMEOUT && e == ch.events[|ms|] && |ms| + 1 < |ch.events|
    requires ms != [] ==> ms[|ms| - 1].counter < msg.counter
    requires t == Touch(st, e, pos, msg.counter, o.fsm, o.refs)
    requires Inv(p, ch, t, seen, msg.counter, msg.timestamp) && Forward(st, t, e, pos, msg.counter)
    ensures 0 < ch.events[|ms| + 1] < |t.byEvent|
    ensures Kept(p, ch, st, Forked(t, r, o.child.value, ch.events[|ms| + 1], msg.counter), seen, e, pos, msg)
  {
    if r != BOOT { SiblingKeeps(p, ch, st, seen, e, pos, msg, r, f, ms, o, t); }
    else { FamilyKeeps(p, ch, st, seen, e, pos, msg, r, f, ms, o, t); }
  }

  /** A clone of a live instance joins its family. */
  lemma SiblingKeeps(p: Program, ch: Chain, st: EngineState, seen: set<Message>, e: nat, pos: nat, msg: Message,
                     r: nat, f: Fsm, ms: seq<Message>, o: EventOutcome, t: EngineState)
    requires At(p, ch, st, seen, e, pos, msg) && InRange(ch, msg) && r != BOOT
    requires CallOk(p, ch, st, e, pos, msg, r, f, ms, o, Fork) && ms == MatchedAt(ch, st, r)
    requires e != TIMEOUT && e == ch.events[|ms|] && |ms| + 1 < |ch.events|
    requires ms != [] ==> ms[|ms| - 1].counter < msg.counter
    requires t == Touch(st, e, pos, msg.counter, o.fsm, o.refs)
    requires Inv(p, ch, t, seen, msg.counter, msg.timestamp) && Forward(st, t, e, pos, msg.counter)
    ensures 0 < ch.events[|ms| + 1] < |t.byEvent|
    ensures Kept(p, ch, st, Forked(t, r, o.child.value, ch.events[|ms| + 1], msg.counter), seen, e, pos, msg)
  {
    var g := ForkSibling(p, ch, st, seen, e, pos, msg, r, f, ms, o);
    assert FamilyOk(t, g.id) && r in t.byId[g.id];
    GrowKeeps(p, ch, st, t, seen, e, pos, msg, g, g.id, ch.events[|ms| + 1]);
    hide Inv, Forward, Joined, Newcomer, Represents;
  }

  /** A clone of the bootstrap starts a family. */
  lemma FamilyKeeps(p: Program, ch: Chain, st: EngineState, seen: set<Message>, e: nat, pos: nat, msg: Message,
                    r: nat, f: Fsm, ms: seq<Message>, o: EventOutcome, t: EngineState)
    requires At(p, ch, st, seen, e, pos, msg) && InRange(ch, msg) && r == BOOT
    requires CallOk(p, ch, st, e, pos, msg, r, f, ms, o, Fork) && ms == MatchedAt(ch, st, r)
    requires e != TIMEOUT && e == ch.events[|ms|] && |ms| + 1 < |ch.events|
    requires t == Touch(st, e, pos, msg.counter, o.fsm, o.refs)
    requires Inv(p, ch, t, seen, msg.counter, msg.timestamp) && Forward(st, t, e, pos, msg.counter)
    ensures 0 < ch.events[|ms| + 1] < |t.byEvent|
    ensures Kept(p, ch, st, Forked(t, r, o.child.value, ch.events[|ms| + 1], msg.counter), seen, e, pos, msg)
  {
    var next := ch.events[|ms| + 1];
    PlaceLeft(p, ch, st, seen, e, pos, msg);
    if FindPlace(st.byId, st.avail).Some? {
      var i := FindPlace(st.byId, st.avail).value;
      ForkBoot(p, ch, st, seen, e, pos, msg, r, f, ms, o, i);
      BootNowVisited(ch, st, t, e, pos, msg.counter);
      InvAvail(p, ch, t, seen, msg, i);
      GrowKeeps(p, ch, st, t.(avail := i), seen, e, pos, msg, o.child.value, i, next);
    }
  }

  /** The bootstrap finds a place as long as there have been fewer messages than there are places. */
  lemma PlaceLeft(p: Program, ch: Chain, st: EngineState, seen: set<Message>, e: nat, pos: nat, msg: Message)
    requires At(p, ch, st, seen, e, pos, msg) && e == ch.events[0] && st.byEvent[e][pos].fsm == BOOT
    ensures |seen| < p.maxInstances ==> FindPlace(st.byId, st.avail).Some?
  {
    assert st.byEvent[e][pos] in st.byEvent[e];
    if |seen| < p.maxInstances { PlaceFound(st.byId, st.avail, |seen|); }
  }

  /** The search fails only if it meets no free place. */
  lemma {:induction false} PlaceFound(byId: seq<seq<nat>>, i: nat, b: nat)
    requires i <= b < |byId| && byId[b] == []
    ensures FindPlace(byId, i).Some?
    decreases b - i
  {
    if byId[i] != [] { PlaceFound(byId, i + 1, b); }
  }

  lemma ForkSibling(p: Program, ch: Chain, st: EngineState, seen: set<Message>, e: nat, pos: nat, msg: Message,
                  r: nat, f: Fsm, ms: seq<Message>, o: EventOutcome) returns (g: Fsm)
    requires At(p, ch, st, seen, e, pos, msg) && InRange(ch, msg)
    requires CallOk(p, ch, st, e, pos, msg, r, f, ms, o, Fork) && ms == MatchedAt(ch, st, r)
    requires e != TIMEOUT && e == ch.events[|ms|] && |ms| + 1 < |ch.events|
    requires ms != [] ==> ms[|ms| - 1].counter < msg.counter
    requires r != BOOT
    ensures o.child == Some(g) && g.id == f.id && g.(id := f.id) == g && 0 < g.id < |st.byId|
    ensures Newcomer(p, ch, g, seen, msg) && Matches(g.state) == |ms| + 1 && First(ch, g) == First(ch, f)
  {
    g := o.child.value;
    assert Live(p, ch, f, seen, msg.counter);
    BecomesNewcomer(p, ch, f, ms, g, seen, msg);
  }

  lemma ForkBoot(p: Program, ch: Chain, st: EngineState, seen: set<Message>, e: nat, pos: nat, msg: Message,
                  r: nat, f: Fsm, ms: seq<Message>, o: EventOutcome, i: nat)
    requires At(p, ch, st, seen, e, pos, msg) && InRange(ch, msg)
    requires CallOk(p, ch, st, e, pos, msg, r, f, ms, o, Fork) && ms == MatchedAt(ch, st, r)
    requires e != TIMEOUT && e == ch.events[|ms|] && |ms| + 1 < |ch.events|
    requires ms != [] ==> ms[|ms| - 1].counter < msg.counter
    requires r == BOOT && i < |st.byId| && st.byId[i] == []
    requires FindPlace(st.byId, st.avail) == Some(i)
    ensures 0 < i <= |seen| && i % TWO16 == i && forall x :: x in st.fsms ==> st.fsms[x].id != i
    ensures var g := o.child.value.(id := i);
            Newcomer(p, ch, g, seen, msg) && Matches(g.state) == 1 && First(ch, g) == msg
  {
    FreeIdPositive(p, ch, st, seen, msg, i);
    FreshPlace(p, ch, st, seen, e, pos, msg, i);
    BecomesNewcomer(p, ch, f, ms, o.child.value.(id := i), seen, msg);
  }

  /** The place found for a new family is at most the number of messages so far, so its number is not truncated. */
  lemma FreshPlace(p: Program, ch: Chain, st: EngineState, seen: set<Message>, e: nat, pos: nat, msg: Message, i: nat)
    requires At(p, ch, st, seen, e, pos, msg) && e == ch.events[0] && st.byEvent[e][pos].fsm == BOOT
    requires FindPlace(st.byId, st.avail) == Some(i)
    ensures i <= |seen| && i % TWO16 == i
  {
    assert st.byEvent[e][pos] in st.byEvent[e];
    PlaceBound(st.byId, st.avail, |seen| - 1);
  }

  lemma {:induction false} PlaceBound(byId: seq<seq<nat>>, i: nat, b: int)
    requires i <= b && forall j :: 0 <= j < |byId| && b < j ==> byId[j] == []
    ensures FindPlace(byId, i).Some? ==> FindPlace(byId, i).value <= b + 1
    decreases |byId| - i
  {
    if i < |byId| && byId[i] != [] && i < b { PlaceBound(byId, i + 1, b); }
  }

  /** The bootstrap has one node in the list of the first event. */
  lemma BootNowVisited(ch: Chain, st: EngineState, t: EngineState, e: nat, pos: nat, c: nat)
    requires ChainShape(ch) && Forward(st, t, e, pos, c) && ListOk(ch, st, e) && st.byEvent[e][pos].fsm == BOOT
    ensures forall n :: n in t.byEvent[e] && n.fsm == BOOT ==> n.counter == c
  {
    RemoveAtFsms(st.byEvent[e], pos);
    var list := RemoveAt(st.byEvent[e], pos);
    forall n | n in list ensures n.fsm != BOOT {
      var i :| 0 <= i < |list| && list[i] == n;
      assert FsmsOf(list)[i] == n.fsm;
    }
  }

  lemma FreeIdPositive(p: Program, ch: Chain, st: EngineState, seen: set<Message>, msg: Message, i: nat)
    requires Inv(p, ch, st, seen, msg.counter, msg.timestamp) && i < |st.byId| && st.byId[i] == []
    ensures i > 0 && forall r :: r in st.fsms ==> st.fsms[r].id != i
  {
    assert FamilyOk(st, 0) && FamilyOk(st, i) && BOOT in st.byId[0];
    assert forall r :: r !in st.byId[i];
  }

  lemma GrowKeeps(p: Program, ch: Chain, st: EngineState, t: EngineState, seen: set<Message>, e: nat, pos: nat,
                  msg: Message,
                  g: Fsm, id: nat, next: nat)
    requires Inv(p, ch, t, seen, msg.counter, msg.timestamp) && Forward(st, t, e, pos, msg.counter)
    requires 0 < id < |t.byId| && Newcomer(p, ch, g.(id := id), seen, msg) && next == ch.events[Matches(g.state)]
    requires next != e && e != TIMEOUT && MayTake(ch, t, seen, msg.counter, id)
    ensures 0 < next < |t.byEvent|
    ensures var u := Joined(t, g, id, next, msg.counter);
            Inv(p, ch, u, seen, msg.counter, msg.timestamp) && Forward(st, u, e, pos, msg.counter)
  {
    JoinKeeps(p, ch, t, seen, msg, g, id, next);
    JoinForward(st, t, e, pos, g, id, next, msg.counter);
  }

  lemma InvAvail(p: Program, ch: Chain, t: EngineState, seen: set<Message>, msg: Message, i: nat)
    requires Inv(p, ch, t, seen, msg.counter, msg.timestamp) && i <= |seen|
    requires forall n :: n in t.byEvent[ch.events[0]] && n.fsm == BOOT ==> n.counter == msg.counter
    ensures Inv(p, ch, t.(avail := i), seen, msg.counter, msg.timestamp)
  {
    var u := t.(avail := i);
    forall k | 0 <= k < |u.byId| ensures FamilyOk(u, k) { assert FamilyOk(t, k); }
    forall k | 0 <= k < |u.byEvent| ensures ListOk(ch, u, k) {
      assert ListOk(ch, t, k);
      forall j | 0 <= j < |u.byEvent[k]|
        ensures NodeOk(ch, u, k, u.byEvent[k][j]) { assert NodeOk(ch, t, k, t.byEvent[k][j]); }
    }
    forall k, j | 0 <= k < |u.byEvent| && 0 <= j < |u.byEvent[k]|
      ensures NodeFresh(ch, u, k, u.byEvent[k][j], msg.counter, msg.timestamp)
    {
      assert NodeFresh(ch, t, k, t.byEvent[k][j], msg.counter, msg.timestamp);
    }
  }

  lemma AdvanceKeeps(p: Program, ch: Chain, st: EngineState, seen: set<Message>, e: nat, pos: nat, msg: Message,
                     r: nat, f: Fsm, ms: seq<Message>, o: EventOutcome)
    requires At(p, ch, st, seen, e, pos, msg) && InRange(ch, msg)
    requires CallOk(p, ch, st, e, pos, msg, r, f, ms, o, Advance) && ms == MatchedAt(ch, st, r)
    requires e != TIMEOUT && e == ch.events[|ms|] && |ms| + 1 < |ch.events|
    requires ms != [] ==> ms[|ms| - 1].counter < msg.counter
    ensures Kept(p, ch, st, ShapeOf(p, ch, st, e, pos, msg.counter, |ms|, o, Advance), seen, e, pos, msg)
  {
    var next := ch.events[|ms| + 1];
    assert Live(p, ch, f, seen, msg.counter);
    hide Families, Lists, Fresh, Places, Live, NodeOk, ListOk;
    BecomesNewcomer(p, ch, f, ms, o.fsm, seen, msg);
    MoveKeeps(p, ch, st, seen, e, pos, msg, o.fsm, next, o.refs);
    MoveForward(st, e, pos, o.fsm, next, msg.counter, o.refs);
  }

  lemma VerdictKeeps(p: Program, ch: Chain, st: EngineState, seen: set<Message>, e: nat, pos: nat, msg: Message,
                     r: nat, f: Fsm, ms: seq<Message>, o: EventOutcome, v: Verdict)
    requires At(p, ch, st, seen, e, pos, msg) && r == st.byEvent[e][pos].fsm && r in st.fsms && r != BOOT
    requires f == st.fsms[r]
    requires Fits(p.machine, o.fsm) && o.fsm.id == f.id
    ensures Sized(p, Touch(st, e, pos, msg.counter, o.fsm, o.refs))
    ensures Kept(p, ch, st, Verdicted(p, Touch(st, e, pos, msg.counter, o.fsm, o.refs), r, v), seen, e, pos, msg)
  {
    DropInstanceKeeps(p, ch, st, seen, e, pos, msg, o.fsm, o.refs);
    assert Live(p, ch, f, seen, msg.counter);
    if v == Unknown {
      DropForward(ch, st, DropInstance(p, Touch(st, e, pos, msg.counter, o.fsm, o.refs), r), e, pos, msg.counter);
    } else {
      DropFamilyKeeps(p, ch, st, seen, e, pos, msg, o.fsm, o.refs);
    }
  }

  /** Whatever a node does, the invariant survives, nothing dangles, and the walk can go on. */
  lemma NodeKeeps(p: Program, ch: Chain, st: EngineState, seen: set<Message>, e: nat, pos: nat, msg: Message)
    requires At(p, ch, st, seen, e, pos, msg) && InRange(ch, msg)
    ensures Kept(p, ch, st, ProcessNode(p, st, e, pos, msg), seen, e, pos, msg)
  {
    var r, f, ms, o, move := NodeCall(p, ch, st, seen, e, pos, msg);
    NodeShape(p, ch, st, e, pos, msg, r, f, ms, o, move);
    match move
    case Stay =>
      TouchKeeps(p, ch, st, seen, e, pos, msg, o.fsm, o.refs);
      TouchForward(st, e, pos, msg.counter, o.fsm, o.refs);
    case Fork => ForkKeeps(p, ch, st, seen, e, pos, msg, r, f, ms, o);
    case Advance => AdvanceKeeps(p, ch, st, seen, e, pos, msg, r, f, ms, o);
    case Late => VerdictKeeps(p, ch, st, seen, e, pos, msg, r, f, ms, o, GetVerdict(p.ruleType, o.res));
    case Pass => VerdictKeeps(p, ch, st, seen, e, pos, msg, r, f, ms, o, GetVerdict(p.ruleType, o.res));
  }
}
