/** Nothing is missed: what completes a rule, or shows that a deadline has passed, brings a verdict. */
module EngineComplete {
  import opened Wrappers
  import opened Rules
  import opened Compiler
  import opened ThenChain
  import opened Messages
  import opened FsmRuntime
  import opened ChainSteps
  import opened RuleMeaning
  import opened Engine
  import opened EngineInvariant
  import opened EngineMoves
  import opened EngineStep
  import opened EngineOrigins
  import opened EngineRun

  /** Some instance has matched exactly `ms`. */
  ghost predicate Has(p: Program, ch: Chain, st: EngineState, ms: seq<Message>)
    requires ChainProgram(p, ch)
  {
    exists r :: r in st.fsms && Represents(p.machine, ch, st.fsms[r], ms)
  }

  // ---- What a node does to the other instances ----

  /** Instance `r` and its nodes are still there. */
  ghost predicate Untouched(st: EngineState, u: EngineState, r: nat) {
    && r in st.fsms && r in u.fsms && u.fsms[r] == st.fsms[r] && |u.byEvent| == |st.byEvent|
    && forall k, n :: 0 <= k < |st.byEvent| && n in st.byEvent[k] && n.fsm == r ==> n in u.byEvent[k]
  }

  lemma {:induction false} WithoutOthers(list: seq<Node>, gone: set<nat>, n: Node)
    requires n in list && n.fsm !in gone
    ensures n in Without(list, gone)
  {
    if list[0] != n { WithoutOthers(list[1..], gone, n); }
  }

  lemma TouchOthers(st: EngineState, e: nat, pos: nat, c: nat, f: Fsm, refs: Refs, r: nat)
    requires e < |st.byEvent| && pos < |st.byEvent[e]| && r in st.fsms && r != st.byEvent[e][pos].fsm
    ensures Untouched(st, Touch(st, e, pos, c, f, refs), r)
  {
    var u := Touch(st, e, pos, c, f, refs);
    forall n | n in st.byEvent[e] && n.fsm == r ensures n in u.byEvent[e] {
      var i :| 0 <= i < |st.byEvent[e]| && st.byEvent[e][i] == n;
      assert u.byEvent[e][i] == n;
    }
  }

  lemma MoveOthers(st: EngineState, e: nat, pos: nat, g: Fsm, next: nat, c: nat, refs: Refs, r: nat)
    requires e < |st.byEvent| && pos < |st.byEvent[e]| && next < |st.byEvent| && r in st.fsms
    requires r != st.byEvent[e][pos].fsm
    ensures Untouched(st, Moved(st, e, pos, g, next, c, refs), r)
  {
    var list := st.byEvent[e];
    forall n | n in list && n.fsm == r ensures n in RemoveAt(list, pos) {
      var i :| 0 <= i < |list| && list[i] == n;
      assert RemoveAt(list, pos)[if i < pos then i else i - 1] == n;
    }
  }

  lemma DropOthers(st: EngineState, u: EngineState, gone: set<nat>, r: nat)
    requires u.byEvent == WithoutAll(st.byEvent, gone) && u.fsms == st.fsms - gone && r in st.fsms && r !in gone
    ensures Untouched(st, u, r)
  {
    forall k, n | 0 <= k < |st.byEvent| && n in st.byEvent[k] && n.fsm == r ensures n in u.byEvent[k] {
      WithoutOthers(st.byEvent[k], gone, n);
    }
  }

  lemma JoinOthers(st: EngineState, child: Fsm, id: nat, next: nat, c: nat, r: nat)
    requires id < |st.byId| && 0 < next < |st.byEvent| && r in st.fsms && r != st.nextRef
    ensures Untouched(st, Joined(st, child, id, next, c), r)
  {}

  lemma UntouchedTrans(st: EngineState, t: EngineState, u: EngineState, r: nat)
    requires Untouched(st, t, r) && Untouched(t, u, r)
    ensures Untouched(st, u, r)
  {}

  lemma ForkOthers(st: EngineState, t: EngineState, r0: nat, child: Fsm, next: nat, c: nat, r: nat)
    requires Untouched(st, t, r) && 0 < next < |t.byEvent| && r != t.nextRef
    ensures Forked(t, r0, child, next, c).Done? ==> Untouched(st, Forked(t, r0, child, next, c).engine, r)
  {
    var s := Forked(t, r0, child, next, c);
    if s.Done? {
      if r0 != BOOT {
        JoinOthers(t, child, child.id, next, c, r);
        UntouchedTrans(st, t, s.engine, r);
      } else {
        var i := FindPlace(t.byId, t.avail).value;
        JoinOthers(t.(avail := i), child, i % TWO16, next, c, r);
        UntouchedTrans(st, t.(avail := i), s.engine, r);
      }
    }
  }

  lemma ShapeOthers(p: Program, ch: Chain, st: EngineState, e: nat, pos: nat, c: nat, k: nat, o: EventOutcome,
                    move: Move, r: nat)
    requires Sized(p, st) && e < |st.byEvent| && pos < |st.byEvent[e]| && Fits(p.machine, o.fsm) && o.fsm.id < |st.byId|
    requires r in st.fsms && r != st.byEvent[e][pos].fsm && r != st.nextRef && move in {Stay, Fork, Advance}
    ensures var s := ShapeOf(p, ch, st, e, pos, c, k, o, move); s.Done? ==> Untouched(st, s.engine, r)
  {
    var t := Touch(st, e, pos, c, o.fsm, o.refs);
    var next := NextEvent(ch, k + 1);
    TouchOthers(st, e, pos, c, o.fsm, o.refs, r);
    hide Untouched, Forked, Sized;
    match move
    case Stay =>
    case Fork => if 0 < next < |st.byEvent|
        && o.child.Some? { ForkOthers(st, t, st.byEvent[e][pos].fsm, o.child.value, next, c, r); }
    case Advance => if next < |st.byEvent| { MoveOthers(st, e, pos, o.fsm, next, c, o.refs, r); }
  }

  /** A node that brings no verdict leaves every other instance and its nodes alone. */
  lemma NodeOthers(p: Program, ch: Chain, st: EngineState, seen: set<Message>, e: nat, pos: nat, msg: Message, r: nat)
    requires At(p, ch, st, seen, e, pos, msg) && r in st.fsms && r != st.byEvent[e][pos].fsm
    ensures var s := ProcessNode(p, st, e, pos, msg);
            s.Done? && s.verdict == Unknown ==> Untouched(st, s.engine, r)
  {
    var r0, f, ms, o, move := NodeCall(p, ch, st, seen, e, pos, msg);
    NodeShape(p, ch, st, e, pos, msg, r0, f, ms, o, move);
    assert r != st.nextRef;
    hide ProcessNode, Inv, Untouched, Represents, Classify;
    if move == Late || move == Pass { EndOthers(p, ch, st, seen, e, pos, msg, o, GetVerdict(p.ruleType, o.res), r); }
    else { ShapeOthers(p, ch, st, e, pos, msg.counter, |ms|, o, move, r); }
  }

  lemma EndOthers(p: Program, ch: Chain, st: EngineState, seen: set<Message>, e: nat, pos: nat, msg: Message,
                  o: EventOutcome, v: Verdict, r: nat)
    requires At(p, ch, st, seen, e, pos, msg) && r in st.fsms && r != st.byEvent[e][pos].fsm
    requires st.byEvent[e][pos].fsm in st.fsms && o.fsm.id == st.fsms[st.byEvent[e][pos].fsm].id
    requires Fits(p.machine, o.fsm)
    requires v == Unknown ==> st.byEvent[e][pos].fsm != BOOT
    ensures var t := Touch(st, e, pos, msg.counter, o.fsm, o.refs);
            && Sized(p, t)
            && var s := Verdicted(p, t, st.byEvent[e][pos].fsm, v);
               s.Done? && s.verdict == Unknown ==> Untouched(st, s.engine, r)
  {
    if v == Unknown {
      DropInstanceKeeps(p, ch, st, seen, e, pos, msg, o.fsm, o.refs);
      var t := Touch(st, e, pos, msg.counter, o.fsm, o.refs);
      DropOthers(st, DropInstance(p, t, st.byEvent[e][pos].fsm), {st.byEvent[e][pos].fsm}, r);
    }
  }

  // ---- What a node does to its own instance ----

  lemma SameRepresents(m: Machine, ch: Chain, f: Fsm, g: Fsm, ms: seq<Message>)
    requires ChainMachine(m, ch) && Represents(m, ch, f, ms) && SameButEvent(f, g) && g.eventId < m.size
    ensures Represents(m, ch, g, ms)
  {}

  /** How the node's instance fares, by kind of move. */
  ghost predicate OwnFares(p: Program, ch: Chain, st: EngineState, e: nat, r: nat, ms: seq<Message>, msg: Message,
                           move: Move, s: Step)
    requires ChainProgram(p, ch)
  {
    match move
    case Stay =>
      && s.Done? && r in s.engine.fsms && Represents(p.machine, ch, s.engine.fsms[r], ms)
      && |s.engine.byEvent| == |st.byEvent| && forall k :: 0 <= k < |st.byEvent| && k != e ==>
          s.engine.byEvent[k] == st.byEvent[k]
    case Fork => s.Done? ==>
        r in s.engine.fsms && Represents(p.machine, ch, s.engine.fsms[r], ms) && Has(p, ch, s.engine, ms + [msg])
    case Advance => s.Done? && Has(p, ch, s.engine, ms + [msg])
    case Late => s.Done? && 0 < |ms| <= |ch.lates|
        && s.verdict == GetVerdict(p.ruleType, FinalResult(ch.lates[|ms| - 1]))
    case Pass => s.Done? && s.verdict == GetVerdict(p.ruleType, FinalReached)
  }

  lemma NodeOwn(p: Program, ch: Chain, st: EngineState, seen: set<Message>, e: nat, pos: nat, msg: Message,
                ms: seq<Message>)
    returns (move: Move)
    requires At(p, ch, st, seen, e, pos, msg)
    requires st.byEvent[e][pos].fsm in st.fsms && Represents(p.machine, ch, st.fsms[st.byEvent[e][pos].fsm], ms)
    ensures move == Classify(p.machine, ch, st.fsms[st.byEvent[e][pos].fsm], |ms|, st.byEvent[e][pos].index, msg)
    ensures OwnFares(p, ch, st, e, st.byEvent[e][pos].fsm, ms, msg, move, ProcessNode(p, st, e, pos, msg))
    ensures if e == TIMEOUT then ms != [] && st.byEvent[e][pos].index == 0
            else e == ch.events[|ms|] && st.byEvent[e][pos].index == (if ms == [] then 0 else 1)
  {
    var r, f, ns, o;
    r, f, ns := NodeFacts(p, ch, st, seen, e, pos, msg);
    r, f, ns, o, move := NodeCall(p, ch, st, seen, e, pos, msg);
    MatchedIs(p.machine, ch, f, ms);
    NodeShape(p, ch, st, e, pos, msg, r, f, ms, o, move);
    OwnCase(p, ch, st, e, pos, msg, r, f, ms, o, move);
  }

  lemma OwnCase(p: Program, ch: Chain, st: EngineState, e: nat, pos: nat, msg: Message,
                r: nat, f: Fsm, ms: seq<Message>, o: EventOutcome, move: Move)
    requires CallOk(p, ch, st, e, pos, msg, r, f, ms, o, move) && r < st.nextRef
    requires move in {Fork, Advance} ==> |ms| + 1 < |ch.events|
    ensures OwnFares(p, ch, st, e, r, ms, msg, move, ShapeOf(p, ch, st, e, pos, msg.counter, |ms|, o, move))
  {
    var s := ShapeOf(p, ch, st, e, pos, msg.counter, |ms|, o, move);
    match move
    case Stay => SameRepresents(p.machine, ch, f, o.fsm, ms);
    case Fork =>
      SameRepresents(p.machine, ch, f, o.fsm, ms);
      if s.Done? { assert Represents(p.machine, ch, s.engine.fsms[st.nextRef], ms + [msg]); }
    case Advance => assert Represents(p.machine, ch, s.engine.fsms[r], ms + [msg]);
    case Late =>
    case Pass =>
  }

  // ---- Walks that keep a property ----

  /** What is to hold of the engine after each step, given the verdict of that step. */
  type Property = (EngineState, Verdict) -> bool

  /** Every node of list e keeps the property. */
  ghost predicate Preserves(p: Program, rule: Rule, seen: set<Message>, e: nat, msg: Message, settled: set<nat>,
                            good: Property) {
    forall st, pos :: Ready(p, rule, st, seen, e, pos, msg, settled) && good(st, Unknown) ==>
        GoodAfter(ProcessNode(p, st, e, pos, msg), good)
  }

  ghost predicate GoodAfter(s: Step, good: Property) {
    s.Done? ==> good(s.engine, s.verdict)
  }

  lemma WalkReady(p: Program, rule: Rule, st: EngineState, seen: set<Message>, e: nat, rest: seq<Node>, msg: Message,
                  settled: set<nat>)
    requires Busy(p, rule, st, seen, msg, settled) && Walking(st, e, rest, msg.counter)
    requires rest != [] && rest[0].counter != msg.counter
    ensures Ready(p, rule, st, seen, e, |st.byEvent[e]| - |rest|, msg, settled)
  {
    assert st.byEvent[e][|st.byEvent[e]| - |rest|] == rest[0];
  }

  /** One node of a walk that keeps a property. */
  lemma NodeWalk(p: Program, rule: Rule, st: EngineState, seen: set<Message>, e: nat, rest: seq<Node>,
                 msg: Message, settled: set<nat>, good: Property)
    requires Busy(p, rule, st, seen, msg, settled) && Walking(st, e, rest, msg.counter)
    requires Preserves(p, rule, seen, e, msg, settled, good) && good(st, Unknown)
    requires rest != [] && rest[0].counter != msg.counter
    ensures var s := ProcessNode(p, st, e, |st.byEvent[e]| - |rest|, msg);
            && GoodAfter(s, good)
            && (s.Done? && s.verdict == Unknown ==>
                  Busy(p, rule, s.engine, seen, msg, settled) && Walking(s.engine, e, rest[1..], msg.counter))
  {
    var pos := |st.byEvent[e]| - |rest|;
    WalkReady(p, rule, st, seen, e, rest, msg, settled);
    assert GoodAfter(ProcessNode(p, st, e, pos, msg), good);
    hide ProcessNode, Inv, Traced, Walking, OthersGrown, Ready, Preserves;
    NodeWalks(p, rule, st, seen, e, rest, msg, settled);
  }

  lemma {:induction false} ListWalk(p: Program, rule: Rule, st: EngineState, seen: set<Message>, e: nat,
                                    rest: seq<Node>,
                                    msg: Message, settled: set<nat>, good: Property)
    requires Busy(p, rule, st, seen, msg, settled) && Walking(st, e, rest, msg.counter)
    requires Preserves(p, rule, seen, e, msg, settled, good) && good(st, Unknown)
    ensures GoodAfter(ProcessList(p, st, e, Addresses(rest), msg), good)
    decreases |rest|
  {
    assert Sized(p, st) && e < |st.byEvent| && EndsWith(st.byEvent[e], rest);
    if rest == [] {
      assert ProcessList(p, st, e, Addresses(rest), msg) == Done(st, Unknown);
    } else {
      ListStep(p, st, e, rest, msg);
      hide ProcessNode, ProcessList, Busy, Walking, Preserves, Addresses, EndsWith;
      if rest[0].counter == msg.counter {
        WalkPast(st, e, rest, msg.counter);
        ListWalk(p, rule, st, seen, e, rest[1..], msg, settled, good);
      } else {
        NodeWalk(p, rule, st, seen, e, rest, msg, settled, good);
        var s := ProcessNode(p, st, e, |st.byEvent[e]| - |rest|, msg);
        if s.Done? && s.verdict == Unknown {
          ListWalk(p, rule, s.engine, seen, e, rest[1..], msg, settled, good);
        }
      }
    }
  }

  /** One list of a walk that keeps a property. */
  lemma ListGood(p: Program, rule: Rule, st: EngineState, seen: set<Message>, e: nat, msg: Message,
                 settled: set<nat>, good: Property)
    requires Busy(p, rule, st, seen, msg, settled) && VisitedBelow(p, st, e, msg) && good(st, Unknown)
    requires e < |p.masks| && p.masks[e] <= msg.mask && Preserves(p, rule, seen, e, msg, settled, good)
    ensures var s := ProcessList(p, st, e, Addresses(st.byEvent[e]), msg);
            && GoodAfter(s, good)
            && (s.Done? && s.verdict == Unknown ==>
                  Busy(p, rule, s.engine, seen, msg, settled) && VisitedBelow(p, s.engine, e + 1, msg))
  {
    assert Sized(p, st) && p.masks[TIMEOUT] == {} && |p.masks| == |st.byEvent|;
    hide ProcessList, VisitedBelow, Busy, StepOk, Preserves, Walking;
    NextList(p, rule, st, seen, e, msg, settled);
    WalkBegins(p, st, e, msg);
    ListWalk(p, rule, st, seen, e, st.byEvent[e], msg, settled, good);
  }

  lemma {:induction false} EventsWalk(p: Program, rule: Rule, st: EngineState, seen: set<Message>, e: nat, msg: Message,
                                      settled: set<nat>, good: Property)
    requires Busy(p, rule, st, seen, msg, settled) && VisitedBelow(p, st, e, msg) && good(st, Unknown)
    requires forall k :: 0 <= k < |p.masks| && p.masks[k] <= msg.mask ==>
            Preserves(p, rule, seen, k, msg, settled, good)
    ensures GoodAfter(ProcessEvents(p, st, e, msg), good)
    decreases |p.masks| - e
  {
    assert Sized(p, st);
    hide ProcessList, VisitedBelow, Busy, Preserves, Addresses;
    if e < |p.masks| {
      if !(p.masks[e] <= msg.mask) {
        SkipsList(p, st, e, msg);
        EventsWalk(p, rule, st, seen, e + 1, msg, settled, good);
      } else {
        ListGood(p, rule, st, seen, e, msg, settled, good);
        var s := ProcessList(p, st, e, Addresses(st.byEvent[e]), msg);
        if s.Done? && s.verdict == Unknown { EventsWalk(p, rule, s.engine, seen, e + 1, msg, settled, good); }
        else { assert ProcessEvents(p, st, e, msg) == s; }
      }
    }
  }

  // ---- One message and one instance ----

  /** The message is the next one for an instance that has matched `ms`: attributes, guard and window. */
  ghost predicate Meets(p: Program, ch: Chain, ms: seq<Message>, msg: Message)
    requires ChainProgram(p, ch)
  {
    && |ms| < |ch.events| && p.masks[ch.events[|ms|]] <= msg.mask
    && p.machine.guard(ch.events[|ms|], msg, TraceOf(p.machine.size, ch.events, ms))
    && (ms != [] ==> WinMin(ch, ms) <= msg.timestamp <= WinMax(ch, ms))
  }

  /** The deadline of an instance that has matched `ms` has passed. */
  ghost predicate TooLate(ch: Chain, ms: seq<Message>, msg: Message)
    requires ChainShape(ch)
  {
    0 < |ms| < |ch.events| && WinMin(ch, ms) <= msg.timestamp && WinMax(ch, ms) < msg.timestamp
  }

  /** An instance that has matched `ms` has not lost its chance: it stays, or leaves a clone behind. */
  ghost predicate Passes(p: Program, ch: Chain, ms: seq<Message>, msg: Message)
    requires ChainProgram(p, ch)
  {
    && 0 < |ms| < |ch.events| && !TooLate(ch, ms, msg)
    && (Meets(p, ch, ms, msg) ==> |ms| + 1 < |ch.events| && ch.acts[|ms|] == CreateInstance)
  }

  /** Instance `r` has matched `ms`, and a node of list e has not looked at message c yet. */
  ghost predicate Waits(p: Program, ch: Chain, st: EngineState, r: nat, ms: seq<Message>, e: nat, c: nat)
    requires ChainProgram(p, ch)
  {
    && r in st.fsms && Represents(p.machine, ch, st.fsms[r], ms)
    && e < |st.byEvent| && exists n :: n in st.byEvent[e] && n.fsm == r && n.counter != c
  }

  ghost predicate Stays(p: Program, ch: Chain, st: EngineState, r: nat, ms: seq<Message>)
    requires ChainProgram(p, ch)
  {
    r in st.fsms && Represents(p.machine, ch, st.fsms[r], ms)
  }

  lemma WaitsOn(p: Program, ch: Chain, st: EngineState, u: EngineState, r: nat, ms: seq<Message>, e: nat, c: nat)
    requires ChainProgram(p, ch) && Waits(p, ch, st, r, ms, e, c) && Untouched(st, u, r)
    ensures Waits(p, ch, u, r, ms, e, c)
  {
    var n :| n in st.byEvent[e] && n.fsm == r && n.counter != c;
    assert n in u.byEvent[e];
  }

  /** A window that is opened, or narrowed, by a message in time is still open at that message. */
  lemma StillOpen(m: Machine, ch: Chain, f: Fsm, ms: seq<Message>, msg: Message)
    requires ChainMachine(m, ch) && InRange(ch, msg) && Represents(m, ch, f, ms + [msg])
    requires ms != [] ==> msg.timestamp <= WinMax(ch, ms)
    ensures msg.timestamp <= f.timeMax
  {
    var us := ms + [msg];
    assert us[|us| - 1] == msg && us[..|us| - 1] == ms;
    InRangeDeadline(ch, msg, |ms|);
    hide AddU64, ChainMachine, TraceOf, InRange;
  }

  /** An instance under way is offered nothing twice, and it is in time when it has just matched the message. */
  lemma JustMatched(p: Program, ch: Chain, st: EngineState, seen: set<Message>, e: nat, pos: nat, msg: Message,
                    ms: seq<Message>)
    requires At(p, ch, st, seen, e, pos, msg) && InRange(ch, msg) && st.byEvent[e][pos].fsm in st.fsms
    requires Represents(p.machine, ch, st.fsms[st.byEvent[e][pos].fsm], ms + [msg])
    requires ms != [] ==> msg.timestamp <= WinMax(ch, ms)
    ensures e == TIMEOUT && Classify(p.machine, ch, st.fsms[st.byEvent[e][pos].fsm], |ms| + 1, 0, msg) == Stay
  {
    var r, f, ns := NodeFacts(p, ch, st, seen, e, pos, msg);
    MatchedIs(p.machine, ch, f, ms + [msg]);
    StillOpen(p.machine, ch, f, ms, msg);
    hide Inv, ChainMachine, Represents, InRange, WinMax, WinMin, Accepted;
  }

  // -- A message that the instance does not consume --

  /** The stored trace is that of a family started by this message. */
  ghost predicate Answers(ch: Chain, u: EngineState, m: Message)
    requires ChainShape(ch)
  {
    && ch.events[0] < |u.stored| && u.stored[ch.events[0]].Some?
    && u.stored[ch.events[0]].value.counter == m.counter
  }

  /** The instance is still there, or the verdict is on its own family. */
  ghost predicate StaysOr(p: Program, ch: Chain, u: EngineState, v: Verdict, r: nat, ms: seq<Message>)
    requires ChainProgram(p, ch)
  {
    Stays(p, ch, u, r, ms) || (v != Unknown && ms != [] && Answers(ch, u, ms[0]))
  }

  /** A verdict removes the family that it is on, and spares every other instance. */
  lemma NodeSpares(p: Program, rule: Rule, st: EngineState, seen: set<Message>, e: nat, pos: nat, msg: Message,
                   settled: set<nat>, r: nat)
    requires Ready(p, rule, st, seen, e, pos, msg, settled) && r in st.fsms && r != BOOT
    ensures var s := ProcessNode(p, st, e, pos, msg);
            s.Done? && s.verdict != Unknown ==>
              || (r in s.engine.fsms && s.engine.fsms[r] == st.fsms[r])
              || Answers(ChainOf(rule), s.engine, First(ChainOf(rule), st.fsms[r]))
  {
    var ch := ChainOf(rule);
    var r0, f, ms, o, move := NodeCall(p, ch, st, seen, e, pos, msg);
    NodeShape(p, ch, st, e, pos, msg, r0, f, ms, o, move);
    hide ProcessNode, ShapeOf, Inv, Traced, Answers, First;
    ShapeVerdict(p, ch, st, e, pos, msg.counter, |ms|, o, move);
    var s := ProcessNode(p, st, e, pos, msg);
    if s.Done? && s.verdict != Unknown { EndSpares(p, rule, st, seen, e, pos, msg, settled, r0, f, ms, o, move, r); }
  }

  /** Only an end brings a verdict, and it drops the family. */
  lemma ShapeVerdict(p: Program, ch: Chain, st: EngineState, e: nat, pos: nat, c: nat, k: nat, o: EventOutcome,
                     move: Move)
    requires Sized(p, st) && e < |st.byEvent| && pos < |st.byEvent[e]| && st.byEvent[e][pos].fsm in st.fsms
    requires Fits(p.machine, o.fsm) && o.fsm.id < |st.byId|
    ensures var s, r := ShapeOf(p, ch, st, e, pos, c, k, o, move), st.byEvent[e][pos].fsm;
            var t := Touch(st, e, pos, c, o.fsm, o.refs);
            s.Done? && s.verdict != Unknown ==>
              && move in {Late, Pass} && GetVerdict(p.ruleType, o.res) != Unknown && Sized(p, t)
              && s.engine == DropFamily(p, StoreTrace(p, t, r), r)
  {}

  lemma EndSpares(p: Program, rule: Rule, st: EngineState, seen: set<Message>, e: nat, pos: nat, msg: Message,
                  settled: set<nat>, r0: nat, f: Fsm, ms: seq<Message>, o: EventOutcome, move: Move, r: nat)
    requires Ready(p, rule, st, seen, e, pos, msg, settled) && r in st.fsms && r != BOOT
    requires CallOk(p, ChainOf(rule), st, e, pos, msg, r0, f, ms, o, move) && ms == MatchedAt(ChainOf(rule), st, r0)
    requires move in {Late, Pass} && GetVerdict(p.ruleType, o.res) != Unknown
    requires move == Pass && ms != [] ==> ms[|ms| - 1].counter < msg.counter
    ensures var t := Touch(st, e, pos, msg.counter, o.fsm, o.refs);
            && Sized(p, t)
            && var u := DropFamily(p, StoreTrace(p, t, r0), r0);
               || (r in u.fsms && u.fsms[r] == st.fsms[r])
               || Answers(ChainOf(rule), u, First(ChainOf(rule), st.fsms[r]))
  {
    var ch := ChainOf(rule);
    if move == Late { LateOnTimeout(p, rule, st, seen, e, pos, msg, r0, f, ms, o, settled); }
    assert r0 != BOOT ==> Live(p, ch, f, seen, msg.counter);
    EndSound(p, rule, st, seen, e, pos, msg, r0, f, ms, o, move);
    assert f.id != 0 && First(ch, f) == ms[0];
    assert Origins(ch, st);
    hide Live, Sound, Represents, ChainMachine;
    DropFamilyKeeps(p, ch, st, seen, e, pos, msg, o.fsm, o.refs);
  }

  lemma StayStep(p: Program, rule: Rule, st: EngineState, seen: set<Message>, e: nat, pos: nat, msg: Message,
                 settled: set<nat>,
                 r: nat, ms: seq<Message>)
    requires Ready(p, rule, st, seen, e, pos, msg, settled) && p.masks[e] <= msg.mask
    requires Stays(p, ChainOf(rule), st, r, ms) && Passes(p, ChainOf(rule), ms, msg)
    ensures var s := ProcessNode(p, st, e, pos, msg);
            s.Done? ==> StaysOr(p, ChainOf(rule), s.engine, s.verdict, r, ms)
  {
    var ch := ChainOf(rule);
    var s := ProcessNode(p, st, e, pos, msg);
    if r == st.byEvent[e][pos].fsm {
      hide ProcessNode, Inv, Traced;
      var move := NodeOwn(p, ch, st, seen, e, pos, msg, ms);
      assert move == Stay || move == Fork;
    } else {
      MatchedIs(p.machine, ch, st.fsms[r], ms);
      assert r != BOOT by { BootMatched(p, ch, st, seen, msg, ms); }
      hide ProcessNode, Inv, Traced;
      NodeOthers(p, ch, st, seen, e, pos, msg, r);
      NodeSpares(p, rule, st, seen, e, pos, msg, settled, r);
    }
  }

  lemma BootMatched(p: Program, ch: Chain, st: EngineState, seen: set<Message>, msg: Message, ms: seq<Message>)
    requires Inv(p, ch, st, seen, msg.counter, msg.timestamp) && ms != []
    ensures BOOT in st.fsms ==> !Represents(p.machine, ch, st.fsms[BOOT], ms)
  {}

  // -- A message that completes, or goes on with, what the instance has matched --

  /** The instance is about to look at the message, or some instance has taken it already. */
  ghost predicate Tracked(p: Program, ch: Chain, st: EngineState, r: nat, ms: seq<Message>, msg: Message)
    requires ChainProgram(p, ch) && |ms| < |ch.events|
  {
    Waits(p, ch, st, r, ms, ch.events[|ms|], msg.counter) || Has(p, ch, st, ms + [msg])
  }

  lemma TakenStep(p: Program, rule: Rule, st: EngineState, seen: set<Message>, e: nat, pos: nat, msg: Message,
                  settled: set<nat>,
                  ms: seq<Message>)
    requires Ready(p, rule, st, seen, e, pos, msg, settled) && InRange(ChainOf(rule), msg)
    requires Has(p, ChainOf(rule), st, ms + [msg]) && (ms != [] ==> msg.timestamp <= WinMax(ChainOf(rule), ms))
    requires |ms| < |ChainOf(rule).events|
    ensures var s := ProcessNode(p, st, e, pos, msg);
            s.Done? && s.verdict == Unknown ==> Has(p, ChainOf(rule), s.engine, ms + [msg])
  {
    var ch := ChainOf(rule);
    var x :| x in st.fsms && Represents(p.machine, ch, st.fsms[x], ms + [msg]);
    hide ProcessNode, Inv, Traced;
    if x == st.byEvent[e][pos].fsm {
      JustMatched(p, ch, st, seen, e, pos, msg, ms);
      var move := NodeOwn(p, ch, st, seen, e, pos, msg, ms + [msg]);
    } else {
      NodeOthers(p, ch, st, seen, e, pos, msg, x);
    }
  }

  lemma WaitStep(p: Program, rule: Rule, st: EngineState, seen: set<Message>, e: nat, pos: nat, msg: Message,
                 settled: set<nat>,
                 r: nat, ms: seq<Message>)
    requires Ready(p, rule, st, seen, e, pos, msg, settled)
    requires Meets(p, ChainOf(rule), ms, msg)
    requires Waits(p, ChainOf(rule), st, r, ms, ChainOf(rule).events[|ms|], msg.counter)
    requires |ms| + 1 == |ChainOf(rule).events| ==> GetVerdict(p.ruleType, FinalReached) != Unknown
    ensures var s := ProcessNode(p, st, e, pos, msg);
            s.Done? && s.verdict == Unknown ==> Tracked(p, ChainOf(rule), s.engine, r, ms, msg)
  {
    var ch := ChainOf(rule);
    var e0 := ch.events[|ms|];
    var s := ProcessNode(p, st, e, pos, msg);
    hide ProcessNode, Inv, Traced;
    if r == st.byEvent[e][pos].fsm {
      var move := NodeOwn(p, ch, st, seen, e, pos, msg, ms);
      if e == TIMEOUT {
        assert move == Stay;
        var n :| n in st.byEvent[e0] && n.fsm == r && n.counter != msg.counter;
        assert n in s.engine.byEvent[e0];
      }
    } else {
      NodeOthers(p, ch, st, seen, e, pos, msg, r);
      if s.Done? && s.verdict == Unknown { WaitsOn(p, ch, st, s.engine, r, ms, e0, msg.counter); }
    }
  }

  // -- A message that comes too late --

  lemma LateStep(p: Program, rule: Rule, st: EngineState, seen: set<Message>, e: nat, pos: nat, msg: Message,
                 settled: set<nat>,
                 r: nat, ms: seq<Message>)
    requires Ready(p, rule, st, seen, e, pos, msg, settled)
    requires TooLate(ChainOf(rule), ms, msg) && Waits(p, ChainOf(rule), st, r, ms, TIMEOUT, msg.counter)
    requires ChainOf(rule).lates[|ms| - 1] == FAIL && GetVerdict(p.ruleType, ErrorReached) != Unknown
    ensures var s := ProcessNode(p, st, e, pos, msg);
            s.Done? && s.verdict == Unknown ==> Waits(p, ChainOf(rule), s.engine, r, ms, TIMEOUT, msg.counter)
  {
    var ch := ChainOf(rule);
    var s := ProcessNode(p, st, e, pos, msg);
    hide ProcessNode, Inv, Traced;
    if r == st.byEvent[e][pos].fsm {
      if e == TIMEOUT { var move := NodeOwn(p, ch, st, seen, e, pos, msg, ms); }
    } else {
      NodeOthers(p, ch, st, seen, e, pos, msg, r);
      if s.Done? && s.verdict == Unknown { WaitsOn(p, ch, st, s.engine, r, ms, TIMEOUT, msg.counter); }
    }
  }

  // ---- One message and the whole engine ----

  lemma BusyNow(p: Program, rule: Rule, st: EngineState, seen: set<Message>, c: nat, now: nat, msg: Message,
                settled: set<nat>)
    requires Idle(p, rule, st, seen, c, now, settled) && c < msg.counter && InRange(ChainOf(rule), msg)
    requires Roomy(p, |seen| + 1)
    ensures Busy(p, rule, st.(refs := Retain(st.refs, msg)), seen + {msg}, msg, settled)
    ensures forall k, n :: 0 <= k < |st.byEvent| && n in st.byEvent[k] ==> n.counter != msg.counter
  {
    var st0 := st.(refs := Retain(st.refs, msg));
    IdleSame(p, rule, st, st0, seen, c, now, settled);
    NextMessage(p, ChainOf(rule), st0, seen, c, now, msg);
  }

  /** Delivering a message does to the instances what the walk over the lists does. */
  lemma DeliverIsWalk(p: Program, rule: Rule, st: EngineState, seen: set<Message>, c: nat, now: nat, msg: Message,
                      settled: set<nat>)
    returns (s: Step)
    requires Idle(p, rule, st, seen, c, now, settled) && c < msg.counter && InRange(ChainOf(rule), msg)
    requires Roomy(p, |seen| + 1)
    ensures Sized(p, st) && s == ProcessEvents(p, st.(refs := Retain(st.refs, msg)), 0, msg)
    ensures s.Done? && s.verdict == Unknown ==> VisitedBelow(p, s.engine, |p.masks|, msg)
    ensures var d := Deliver(p, st, msg);
            d.Done? ==> && s.Done? && s.verdict == d.verdict
                        && d.engine.fsms == s.engine.fsms && d.engine.stored == s.engine.stored
  {
    var st0 := st.(refs := Retain(st.refs, msg));
    BusyNow(p, rule, st, seen, c, now, msg, settled);
    EventsKeep(p, rule, st0, seen + {msg}, 0, msg, settled);
    IdleSame(p, rule, st, st0, seen, c, now, settled);
    ProcessKeeps(p, rule, st0, seen, c, now, msg, settled);
    s := ProcessEvents(p, st0, 0, msg);
  }

  /** Every instance has a node in each list that it waits in. */
  lemma NodeThere(p: Program, ch: Chain, st: EngineState, seen: set<Message>, c: nat, now: nat, r: nat,
                  ms: seq<Message>, e: nat, d: nat)
    requires Inv(p, ch, st, seen, c, now) && Stays(p, ch, st, r, ms) && e < |st.byEvent|
    requires if e == TIMEOUT then ms != [] else e == ch.events[|ms|]
    requires forall k, n :: 0 <= k < |st.byEvent| && n in st.byEvent[k] ==> n.counter != d
    ensures Waits(p, ch, st, r, ms, e, d)
  {
    assert ListOk(ch, st, e) && Wants(ch, st.fsms[r].state, e);
    var i :| 0 <= i < |st.byEvent[e]| && FsmsOf(st.byEvent[e])[i] == r;
    assert st.byEvent[e][i] in st.byEvent[e] && st.byEvent[e][i].fsm == r;
  }

  ghost function StaysGoal(p: Program, ch: Chain, r: nat, ms: seq<Message>): Property
    requires ChainProgram(p, ch)
  {
    (u: EngineState, v: Verdict) => StaysOr(p, ch, u, v, r, ms)
  }

  lemma StaysPreserved(p: Program, rule: Rule, seen: set<Message>, k: nat, msg: Message, settled: set<nat>, r: nat,
                       ms: seq<Message>)
    requires ChainProgram(p, ChainOf(rule)) && k < |p.masks| && p.masks[k] <= msg.mask
    requires Passes(p, ChainOf(rule), ms, msg)
    ensures Preserves(p, rule, seen, k, msg, settled, StaysGoal(p, ChainOf(rule), r, ms))
  {
    var good := StaysGoal(p, ChainOf(rule), r, ms);
    forall u, pos | Ready(p, rule, u, seen, k, pos, msg, settled) && good(u, Unknown)
      ensures GoodAfter(ProcessNode(p, u, k, pos, msg), good)
    {
      StayStep(p, rule, u, seen, k, pos, msg, settled, r, ms);
    }
  }

  /**
    * An instance that the message does not concern, or that only sends a clone ahead, is still there; unless the
    * message has brought a verdict on its own family.
    */
  lemma MessagePassed(p: Program, rule: Rule, st: EngineState, seen: set<Message>, c: nat, now: nat, msg: Message,
                      settled: set<nat>,
                      r: nat, ms: seq<Message>)
    requires Idle(p, rule, st, seen, c, now, settled) && c < msg.counter && InRange(ChainOf(rule), msg)
    requires Roomy(p, |seen| + 1)
    requires Stays(p, ChainOf(rule), st, r, ms) && Passes(p, ChainOf(rule), ms, msg)
    ensures Sized(p, st)
    ensures var s := Deliver(p, st, msg);
            s.Done? ==> StaysOr(p, ChainOf(rule), s.engine, s.verdict, r, ms)
  {
    var ch := ChainOf(rule);
    var good := StaysGoal(p, ch, r, ms);
    var st0 := st.(refs := Retain(st.refs, msg));
    BusyNow(p, rule, st, seen, c, now, msg, settled);
    forall k | 0 <= k < |p.masks| && p.masks[k] <= msg.mask
      ensures Preserves(p, rule, seen + {msg}, k, msg, settled, good) {
      StaysPreserved(p, rule, seen + {msg}, k, msg, settled, r, ms);
    }
    EventsWalk(p, rule, st0, seen + {msg}, 0, msg, settled, good);
    var s := DeliverIsWalk(p, rule, st, seen, c, now, msg, settled);
  }

  ghost function TrackedGoal(p: Program, ch: Chain, r: nat, ms: seq<Message>, msg: Message): Property
    requires ChainProgram(p, ch) && |ms| < |ch.events|
  {
    (u: EngineState, v: Verdict) => v == Unknown ==> Tracked(p, ch, u, r, ms, msg)
  }

  lemma TrackedPreserved(p: Program, rule: Rule, seen: set<Message>, k: nat, msg: Message, settled: set<nat>, r: nat,
                         ms: seq<Message>)
    requires ChainProgram(p, ChainOf(rule)) && Meets(p, ChainOf(rule), ms, msg) && InRange(ChainOf(rule), msg)
    requires |ms| + 1 == |ChainOf(rule).events| ==> GetVerdict(p.ruleType, FinalReached) != Unknown
    ensures Preserves(p, rule, seen, k, msg, settled, TrackedGoal(p, ChainOf(rule), r, ms, msg))
  {
    var ch := ChainOf(rule);
    var good := TrackedGoal(p, ch, r, ms, msg);
    forall u, pos | Ready(p, rule, u, seen, k, pos, msg, settled) && good(u, Unknown)
      ensures GoodAfter(ProcessNode(p, u, k, pos, msg), good)
    {
      assert Tracked(p, ch, u, r, ms, msg);
      if Has(p, ch, u, ms + [msg]) { TakenStep(p, rule, u, seen, k, pos, msg, settled, ms); }
      else { WaitStep(p, rule, u, seen, k, pos, msg, settled, r, ms); }
    }
  }

  /** A message that goes on with what an instance has matched is taken, and one that completes it brings a verdict. */
  lemma MessageTaken(p: Program, rule: Rule, st: EngineState, seen: set<Message>, c: nat, now: nat, msg: Message,
                     settled: set<nat>,
                     r: nat, ms: seq<Message>)
    requires Idle(p, rule, st, seen, c, now, settled) && c < msg.counter && InRange(ChainOf(rule), msg)
    requires Roomy(p, |seen| + 1)
    requires Stays(p, ChainOf(rule), st, r, ms) && Meets(p, ChainOf(rule), ms, msg)
    requires |ms| + 1 == |ChainOf(rule).events| ==> GetVerdict(p.ruleType, FinalReached) != Unknown
    ensures Sized(p, st)
    ensures var s := Deliver(p, st, msg);
            s.Done? && s.verdict == Unknown ==> Has(p, ChainOf(rule), s.engine, ms + [msg])
  {
    var ch := ChainOf(rule);
    var good := TrackedGoal(p, ch, r, ms, msg);
    var st0 := st.(refs := Retain(st.refs, msg));
    BusyNow(p, rule, st, seen, c, now, msg, settled);
    NodeThere(p, ch, st0, seen + {msg}, msg.counter, msg.timestamp, r, ms, ch.events[|ms|], msg.counter);
    assert Tracked(p, ch, st0, r, ms, msg);
    forall k | 0 <= k < |p.masks| && p.masks[k] <= msg.mask
      ensures Preserves(p, rule, seen + {msg}, k, msg, settled, good) {
      TrackedPreserved(p, rule, seen + {msg}, k, msg, settled, r, ms);
    }
    EventsWalk(p, rule, st0, seen + {msg}, 0, msg, settled, good);
    var s := DeliverIsWalk(p, rule, st, seen, c, now, msg, settled);
  }

  ghost function LateGoal(p: Program, ch: Chain, r: nat, ms: seq<Message>, msg: Message): Property
    requires ChainProgram(p, ch)
  {
    (u: EngineState, v: Verdict) => v == Unknown ==> Waits(p, ch, u, r, ms, TIMEOUT, msg.counter)
  }

  lemma LatePreserved(p: Program, rule: Rule, seen: set<Message>, k: nat, msg: Message, settled: set<nat>, r: nat,
                      ms: seq<Message>)
    requires ChainProgram(p, ChainOf(rule)) && TooLate(ChainOf(rule), ms, msg)
    requires ChainOf(rule).lates[|ms| - 1] == FAIL && GetVerdict(p.ruleType, ErrorReached) != Unknown
    ensures Preserves(p, rule, seen, k, msg, settled, LateGoal(p, ChainOf(rule), r, ms, msg))
  {
    var good := LateGoal(p, ChainOf(rule), r, ms, msg);
    forall u, pos | Ready(p, rule, u, seen, k, pos, msg, settled) && good(u, Unknown)
      ensures GoodAfter(ProcessNode(p, u, k, pos, msg), good)
    {
      LateStep(p, rule, u, seen, k, pos, msg, settled, r, ms);
    }
  }

  /** A message that shows that a deadline has passed brings a verdict when the rule reports failures. */
  lemma MessageLate(p: Program, rule: Rule, st: EngineState, seen: set<Message>, c: nat, now: nat, msg: Message,
                    settled: set<nat>,
                    r: nat, ms: seq<Message>)
    requires Idle(p, rule, st, seen, c, now, settled) && c < msg.counter && InRange(ChainOf(rule), msg)
    requires Roomy(p, |seen| + 1)
    requires Stays(p, ChainOf(rule), st, r, ms) && TooLate(ChainOf(rule), ms, msg)
    requires ChainOf(rule).lates[|ms| - 1] == FAIL && GetVerdict(p.ruleType, ErrorReached) != Unknown
    ensures Sized(p, st)
    ensures var s := Deliver(p, st, msg); s.Done? ==> s.verdict != Unknown
  {
    var ch := ChainOf(rule);
    var good := LateGoal(p, ch, r, ms, msg);
    var st0 := st.(refs := Retain(st.refs, msg));
    BusyNow(p, rule, st, seen, c, now, msg, settled);
    NodeThere(p, ch, st0, seen + {msg}, msg.counter, msg.timestamp, r, ms, TIMEOUT, msg.counter);
    forall k | 0 <= k < |p.masks| && p.masks[k] <= msg.mask
      ensures Preserves(p, rule, seen + {msg}, k, msg, settled, good) {
      LatePreserved(p, rule, seen + {msg}, k, msg, settled, r, ms);
    }
    EventsWalk(p, rule, st0, seen + {msg}, 0, msg, settled, good);
    var s := DeliverIsWalk(p, rule, st, seen, c, now, msg, settled);
  }

  // ---- Whole runs ----

  function Picked(msgs: seq<Message>, idx: seq<nat>): (ms: seq<Message>)
    requires forall j :: 0 <= j < |idx| ==> idx[j] < |msgs|
    ensures |ms| == |idx|
  {
    seq(|idx|, j requires 0 <= j < |idx| => msgs[idx[j]])
  }

  ghost predicate Ascending(idx: seq<nat>, n: nat) {
    (forall j, k :: 0 <= j < k < |idx| ==> idx[j] < idx[k]) && forall j :: 0 <= j < |idx| ==> idx[j] < n
  }

  /** Message i comes between pick j - 1 and pick j, or between the last pick and position n. */
  predicate Between(idx: seq<nat>, n: nat, j: nat, i: nat) {
    0 < j <= |idx| && idx[j - 1] < i < if j < |idx| then idx[j] else n
  }

  /**
    * The messages at the places `idx` match the first events of the rule one after the other, and none of the others
    * up to place n takes the chance away: each of them leaves what has been picked so far as it is, or sends a clone
    * ahead.
    */
  ghost predicate Candidate(p: Program, ch: Chain, msgs: seq<Message>, idx: seq<nat>, n: nat)
    requires ChainProgram(p, ch)
  {
    && n <= |msgs| && Ascending(idx, n) && |idx| <= |ch.events|
    && (forall j :: 0 <= j < |idx| ==> Meets(p, ch, Picked(msgs, idx[..j]), msgs[idx[j]]))
    && forall j: nat, i: nat :: Between(idx, n, j, i) ==> Passes(p, ch, Picked(msgs, idx[..j]), msgs[i])
  }

  lemma IdleAt(p: Program, rule: Rule, msgs: seq<Message>, k: nat)
    requires WellPosed(p, rule) && Stream(rule, msgs) && Roomy(p, |msgs|) && k < |msgs|
    ensures ChainProgram(p, ChainOf(rule)) && InRange(ChainOf(rule), msgs[k])
    ensures var r := Run(p, msgs[..k]);
            r.Running? ==> Idle(p, rule, r.engine, Seen(msgs[..k]), LastCounter(msgs[..k]), LastStamp(msgs[..k]),
                                Starters(rule, r.alarms))
    ensures LastCounter(msgs[..k]) < msgs[k].counter && Roomy(p, |Seen(msgs[..k])| + 1)
    ensures Run(p, msgs[..k + 1]) == Feed(p, Run(p, msgs[..k]), k, msgs[k])
  {
    RunSound(p, rule, msgs[..k]);
    SeenSize(msgs[..k]);
    hide Idle, AlarmSound, OneEach, Run, Seen;
    RunNext(p, msgs, k);
  }

  lemma RunNext(p: Program, msgs: seq<Message>, k: nat)
    requires Runnable(p) && k < |msgs|
    ensures Run(p, msgs[..k + 1]) == Feed(p, Run(p, msgs[..k]), k, msgs[k])
  {
    hide Feed, InitEngine;
    assert msgs[..k + 1][..k] == msgs[..k];
  }

  /** A THEN rule whose engine watches a stream that it has room for. */
  ghost predicate Watched(p: Program, rule: Rule, msgs: seq<Message>) {
    && WellPosed(p, rule) && ChainProgram(p, ChainOf(rule)) && Runnable(p)
    && Stream(rule, msgs) && Roomy(p, |msgs|)
  }

  lemma WatchedFacts(p: Program, rule: Rule, msgs: seq<Message>)
    requires Watched(p, rule, msgs)
    ensures ChainProgram(p, ChainOf(rule)) && Runnable(p)
    ensures ValidMachine(p.machine) && |p.masks| == p.machine.size && p.maxInstances > 0
  {}

  /** With more places than messages the engine is still running after all of them. */
  lemma NeverStops(p: Program, rule: Rule, msgs: seq<Message>, n: nat)
    requires Watched(p, rule, msgs) && n <= |msgs|
    ensures n < p.maxInstances ==> Run(p, msgs[..n]).Running?
  {
    if n < p.maxInstances { RunSound(p, rule, msgs[..n]); }
  }

  // -- Candidates --

  lemma CandidateBefore(p: Program, ch: Chain, msgs: seq<Message>, idx: seq<nat>, n: nat)
    requires ChainProgram(p, ch) && Candidate(p, ch, msgs, idx, n) && idx != [] && idx[|idx| - 1] < n - 1
    ensures Candidate(p, ch, msgs, idx, n - 1)
  {
    hide Meets, Passes, Picked, ChainProgram;
    forall j: nat, i: nat | Between(idx, n - 1, j, i) ensures Passes(p, ch, Picked(msgs, idx[..j]), msgs[i]) {
      assert Between(idx, n, j, i);
    }
  }

  lemma CandidateWithout(p: Program, ch: Chain, msgs: seq<Message>, idx: seq<nat>, n: nat)
    requires ChainProgram(p, ch) && Candidate(p, ch, msgs, idx, n) && idx != []
    ensures Candidate(p, ch, msgs, idx[..|idx| - 1], idx[|idx| - 1])
  {
    hide Meets, Passes, Picked, ChainProgram;
    var last := |idx| - 1;
    var init := idx[..last];
    assert forall j :: 0 <= j <= last ==> init[..j] == idx[..j];
    forall j: nat, i: nat | Between(init, idx[last], j, i) ensures Passes(p, ch, Picked(msgs, init[..j]), msgs[i]) {
      assert Between(idx, n, j, i);
    }
  }

  /** What a candidate says about its last pick and about the message after that. */
  lemma PickFacts(p: Program, ch: Chain, msgs: seq<Message>, idx: seq<nat>, n: nat)
    requires ChainProgram(p, ch) && idx != [] && Candidate(p, ch, msgs, idx, n)
    ensures idx[0] <= idx[|idx| - 1] < n <= |msgs|
    ensures Meets(p, ch, Picked(msgs, idx[..|idx| - 1]), msgs[idx[|idx| - 1]])
    ensures Picked(msgs, idx) == Picked(msgs, idx[..|idx| - 1]) + [msgs[idx[|idx| - 1]]]
    ensures Candidate(p, ch, msgs, idx[..|idx| - 1], idx[|idx| - 1])
    ensures idx[|idx| - 1] < n - 1 ==>
            Passes(p, ch, Picked(msgs, idx), msgs[n - 1]) && Candidate(p, ch, msgs, idx, n - 1)
  {
    hide Meets, Passes, Picked, ChainProgram;
    PickedSplit(msgs, idx);
    CandidateWithout(p, ch, msgs, idx, n);
    if idx[|idx| - 1] < n - 1 {
      CandidateBefore(p, ch, msgs, idx, n);
      LastPasses(p, ch, msgs, idx, n);
    }
  }

  lemma PickedSplit(msgs: seq<Message>, idx: seq<nat>)
    requires idx != [] && forall j :: 0 <= j < |idx| ==> idx[j] < |msgs|
    ensures Picked(msgs, idx) == Picked(msgs, idx[..|idx| - 1]) + [msgs[idx[|idx| - 1]]]
  {}

  lemma LastPasses(p: Program, ch: Chain, msgs: seq<Message>, idx: seq<nat>, n: nat)
    requires ChainProgram(p, ch) && idx != [] && Candidate(p, ch, msgs, idx, n) && idx[|idx| - 1] < n - 1
    ensures Passes(p, ch, Picked(msgs, idx), msgs[n - 1])
  {
    hide Meets, Passes, Picked, ChainProgram;
    assert idx[..|idx|] == idx && Between(idx, n, |idx|, n - 1);
  }

  // -- One message of a run --

  /** Message k of a run that goes on behind it. */
  ghost predicate GoesOn(p: Program, rule: Rule, msgs: seq<Message>, k: nat) {
    Watched(p, rule, msgs) && k < |msgs| && Run(p, msgs[..k + 1]).Running?
  }

  lemma RunStep(p: Program, rule: Rule, msgs: seq<Message>, k: nat)
      returns (st: EngineState, settled: set<nat>, v: Verdict, u: EngineState)
    requires GoesOn(p, rule, msgs, k)
    ensures ChainProgram(p, ChainOf(rule)) && Runnable(p)
    ensures Run(p, msgs[..k]).Running? && st == Run(p, msgs[..k]).engine && InRange(ChainOf(rule), msgs[k])
    ensures Idle(p, rule, st, Seen(msgs[..k]), LastCounter(msgs[..k]), LastStamp(msgs[..k]), settled)
    ensures LastCounter(msgs[..k]) < msgs[k].counter && Roomy(p, |Seen(msgs[..k])| + 1)
    ensures Deliver(p, st, msgs[k]) == Done(u, v)
    ensures Run(p, msgs[..k + 1])
         == Running(u, Run(p, msgs[..k]).alarms + if v == Unknown then [] else [Alarm(k, v, u.stored)])
  {
    hide Deliver, Run, Idle, WellPosed, Stream;
    IdleAt(p, rule, msgs, k);
    st, settled := Run(p, msgs[..k]).engine, Starters(rule, Run(p, msgs[..k]).alarms);
    u, v := Deliver(p, st, msgs[k]).engine, Deliver(p, st, msgs[k]).verdict;
    assert Run(p, msgs[..k]).alarms + [] == Run(p, msgs[..k]).alarms;
  }

  /** The alarm is for the family that this message started. */
  ghost predicate Own(rule: Rule, x: Alarm, m: Message) {
    Starter(rule, x) == m.counter
  }

  lemma AnswersOwn(rule: Rule, k: nat, v: Verdict, u: EngineState, m: Message)
    requires ChainShape(ChainOf(rule)) && Answers(ChainOf(rule), u, m)
    ensures Own(rule, Alarm(k, v, u.stored), m)
  {
    assert FirstOf(Root(rule)) == ChainOf(rule).events[0];
  }

  /** A message that takes no chance away: the instance is still there, or its own family gets a verdict. */
  lemma RunPassed(p: Program, rule: Rule, msgs: seq<Message>, k: nat, ms: seq<Message>)
    requires GoesOn(p, rule, msgs, k) && ChainProgram(p, ChainOf(rule)) && Runnable(p) && Run(p, msgs[..k]).Running?
    requires ms != [] && Has(p, ChainOf(rule), Run(p, msgs[..k]).engine, ms) && Passes(p, ChainOf(rule), ms, msgs[k])
    ensures Run(p, msgs[..k + 1]).Running?
    ensures || Has(p, ChainOf(rule), Run(p, msgs[..k + 1]).engine, ms)
            || exists x <- Run(p, msgs[..k + 1]).alarms :: x.at == k && Own(rule, x, ms[0])
  {
    var st, settled, v, u := RunStep(p, rule, msgs, k);
    hide Deliver, Run, Idle, GoesOn, Passes, Represents, ChainProgram, Own;
    var r :| r in st.fsms && Represents(p.machine, ChainOf(rule), st.fsms[r], ms);
    MessagePassed(p, rule, st, Seen(msgs[..k]), LastCounter(msgs[..k]), LastStamp(msgs[..k]), msgs[k], settled, r, ms);
    if !Stays(p, ChainOf(rule), u, r, ms) {
      ShapeOfChain(p, rule, msgs);
      AnswersOwn(rule, k, v, u, ms[0]);
      assert Alarm(k, v, u.stored) in Run(p, msgs[..k + 1]).alarms;
    }
  }

  lemma ShapeOfChain(p: Program, rule: Rule, msgs: seq<Message>)
    ensures ChainShape(ChainOf(rule))
  {
    ChainOfShape(rule);
  }

  /** A message that goes on with the match: it is taken, or brings a verdict; it does when it completes the match. */
  lemma RunTaken(p: Program, rule: Rule, msgs: seq<Message>, k: nat, ms: seq<Message>)
    requires GoesOn(p, rule, msgs, k) && ChainProgram(p, ChainOf(rule)) && Runnable(p) && Run(p, msgs[..k]).Running?
    requires Has(p, ChainOf(rule), Run(p, msgs[..k]).engine, ms) && Meets(p, ChainOf(rule), ms, msgs[k])
    requires |ms| + 1 == |ChainOf(rule).events| ==> GetVerdict(p.ruleType, FinalReached) != Unknown
    ensures Run(p, msgs[..k + 1]).Running?
    ensures || (&& |ms| + 1 < |ChainOf(rule).events|
                && Has(p, ChainOf(rule), Run(p, msgs[..k + 1]).engine, ms + [msgs[k]]))
            || exists x <- Run(p, msgs[..k + 1]).alarms :: x.at == k
  {
    var st, settled, v, u := RunStep(p, rule, msgs, k);
    hide Deliver, Run, Idle, GoesOn, Meets, Represents, ChainProgram;
    var r :| r in st.fsms && Represents(p.machine, ChainOf(rule), st.fsms[r], ms);
    MessageTaken(p, rule, st, Seen(msgs[..k]), LastCounter(msgs[..k]), LastStamp(msgs[..k]), msgs[k], settled, r, ms);
    if v == Unknown { OpenOnly(p, ChainOf(rule), u, ms + [msgs[k]]); }
    else { assert Alarm(k, v, u.stored) in Run(p, msgs[..k + 1]).alarms; }
  }

  /** An instance that has matched everything is gone. */
  lemma OpenOnly(p: Program, ch: Chain, st: EngineState, ms: seq<Message>)
    requires ChainProgram(p, ch) && Has(p, ch, st, ms)
    ensures |ms| < |ch.events|
  {}

  /** A message that shows that a deadline has passed brings a verdict. */
  lemma RunLate(p: Program, rule: Rule, msgs: seq<Message>, k: nat, ms: seq<Message>)
    requires GoesOn(p, rule, msgs, k) && ChainProgram(p, ChainOf(rule)) && Runnable(p) && Run(p, msgs[..k]).Running?
    requires Has(p, ChainOf(rule), Run(p, msgs[..k]).engine, ms) && TooLate(ChainOf(rule), ms, msgs[k])
    requires ChainOf(rule).lates[|ms| - 1] == FAIL && GetVerdict(p.ruleType, ErrorReached) != Unknown
    ensures exists x <- Run(p, msgs[..k + 1]).alarms :: x.at == k
  {
    var st, settled, v, u := RunStep(p, rule, msgs, k);
    hide Deliver, Run, Idle, GoesOn, TooLate, Represents, ChainProgram;
    var r :| r in st.fsms && Represents(p.machine, ChainOf(rule), st.fsms[r], ms);
    MessageLate(p, rule, st, Seen(msgs[..k]), LastCounter(msgs[..k]), LastStamp(msgs[..k]), msgs[k], settled, r, ms);
    assert Alarm(k, v, u.stored) in Run(p, msgs[..k + 1]).alarms;
  }

  // -- Whole matches --

  /**
    * The alarm answers the match: it is for the match's own family, after its first message, or it comes with one of
    * the matched messages.
    */
  ghost predicate Answer(rule: Rule, msgs: seq<Message>, idx: seq<nat>, x: Alarm)
    requires idx != [] && idx[0] < |msgs|
  {
    x.at in idx || (idx[0] <= x.at && Own(rule, x, msgs[idx[0]]))
  }

  ghost predicate Answered(rule: Rule, msgs: seq<Message>, idx: seq<nat>, alarms: seq<Alarm>)
    requires idx != [] && idx[0] < |msgs|
  {
    exists x <- alarms :: Answer(rule, msgs, idx, x)
  }

  lemma AnsweredLater(p: Program, rule: Rule, msgs: seq<Message>, pre: seq<nat>, idx: seq<nat>, k: nat, n: nat)
    requires Runnable(p) && k <= n <= |msgs| && pre != [] && pre <= idx && idx[0] < |msgs|
    requires Answered(rule, msgs, pre, Run(p, msgs[..k]).alarms)
    ensures Answered(rule, msgs, idx, Run(p, msgs[..n]).alarms)
  {
    hide Run, Own;
    assert msgs[..n][..k] == msgs[..k];
    AlarmsGrow(p, msgs[..n], k);
    var x :| x in Run(p, msgs[..k]).alarms && Answer(rule, msgs, pre, x);
    assert x in Run(p, msgs[..n]).alarms && Answer(rule, msgs, idx, x);
  }

  /** Until it is answered, a match is represented by some instance. */
  ghost predicate Pursued(p: Program, rule: Rule, msgs: seq<Message>, idx: seq<nat>, n: nat)
    requires ChainProgram(p, ChainOf(rule)) && Runnable(p) && idx != [] && n <= |msgs|
    requires forall j :: 0 <= j < |idx| ==> idx[j] < |msgs|
  {
    || Answered(rule, msgs, idx, Run(p, msgs[..n]).alarms)
    || (Run(p, msgs[..n]).Running? && Has(p, ChainOf(rule), Run(p, msgs[..n]).engine, Picked(msgs, idx)))
  }

  lemma PassedOn(p: Program, rule: Rule, msgs: seq<Message>, idx: seq<nat>, k: nat)
    requires GoesOn(p, rule, msgs, k) && ChainProgram(p, ChainOf(rule)) && Runnable(p) && idx != []
    requires (forall j :: 0 <= j < |idx| ==> idx[j] < |msgs|) && idx[0] <= k < |msgs|
    requires Pursued(p, rule, msgs, idx, k) && Passes(p, ChainOf(rule), Picked(msgs, idx), msgs[k])
    ensures Pursued(p, rule, msgs, idx, k + 1)
  {
    hide Run, GoesOn, Passes, Has, ChainProgram, Own;
    if Answered(rule, msgs, idx, Run(p, msgs[..k]).alarms) {
      AnsweredLater(p, rule, msgs, idx, idx, k, k + 1);
    } else {
      RunPassed(p, rule, msgs, k, Picked(msgs, idx));
      if x :| x in Run(p, msgs[..k + 1]).alarms && x.at == k && Own(rule, x, Picked(msgs, idx)[0]) {
        assert Answer(rule, msgs, idx, x);
      }
    }
  }

  /** The next match: it is taken, or the pursuit is answered; a complete match is answered. */
  lemma TakenOn(p: Program, rule: Rule, msgs: seq<Message>, idx: seq<nat>, k: nat)
    requires GoesOn(p, rule, msgs, k) && ChainProgram(p, ChainOf(rule)) && Runnable(p) && idx != []
    requires (forall j :: 0 <= j < |idx| ==> idx[j] < |msgs|) && idx[|idx| - 1] == k
    requires Picked(msgs, idx) == Picked(msgs, idx[..|idx| - 1]) + [msgs[k]]
    requires Meets(p, ChainOf(rule), Picked(msgs, idx[..|idx| - 1]), msgs[k])
    requires if |idx| == 1 then Run(p, msgs[..k]).Running? && Has(p, ChainOf(rule), Run(p, msgs[..k]).engine, [])
             else Pursued(p, rule, msgs, idx[..|idx| - 1], k)
    requires |idx| == |ChainOf(rule).events| ==> GetVerdict(p.ruleType, FinalReached) != Unknown
    ensures Pursued(p, rule, msgs, idx, k + 1)
    ensures |idx| == |ChainOf(rule).events| ==> Answered(rule, msgs, idx, Run(p, msgs[..k + 1]).alarms)
  {
    var init := idx[..|idx| - 1];
    hide Run, GoesOn, Meets, Has, ChainProgram, Own;
    if |idx| > 1 && Answered(rule, msgs, init, Run(p, msgs[..k]).alarms) {
      AnsweredLater(p, rule, msgs, init, idx, k, k + 1);
    } else {
      RunTaken(p, rule, msgs, k, Picked(msgs, init));
      if x :| x in Run(p, msgs[..k + 1]).alarms && x.at == k { assert Answer(rule, msgs, idx, x); }
    }
  }

  /** Every candidate is pursued. */
  lemma {:induction false} Pursuit(p: Program, rule: Rule, msgs: seq<Message>, idx: seq<nat>, n: nat)
    requires Watched(p, rule, msgs) && idx != [] && |idx| <= |ChainOf(rule).events|
    requires ChainProgram(p, ChainOf(rule)) && Runnable(p) && Candidate(p, ChainOf(rule), msgs, idx, n)
    requires |idx| == |ChainOf(rule).events| ==>
               n == idx[|idx| - 1] + 1 && GetVerdict(p.ruleType, FinalReached) != Unknown
    requires Run(p, msgs[..n]).Running?
    ensures forall j :: 0 <= j < |idx| ==> idx[j] < |msgs|
    ensures Pursued(p, rule, msgs, idx, n)
    ensures |idx| == |ChainOf(rule).events| ==> Answered(rule, msgs, idx, Run(p, msgs[..n]).alarms)
    decreases n
  {
    hide Run, Watched, Meets, Passes, Has, Pursued, Answered, ChainProgram, Runnable, Picked;
    PickFacts(p, ChainOf(rule), msgs, idx, n);
    var k, init := n - 1, idx[..|idx| - 1];
    RunBefore(p, rule, msgs, k, n);
    if idx[|idx| - 1] < k {
      Pursuit(p, rule, msgs, idx, k);
      PassedOn(p, rule, msgs, idx, k);
    } else {
      if init == [] { BootHas(p, rule, msgs, k); }
      else { Pursuit(p, rule, msgs, init, k); }
      TakenOn(p, rule, msgs, idx, k);
    }
  }

  lemma RunBefore(p: Program, rule: Rule, msgs: seq<Message>, k: nat, n: nat)
    requires Watched(p, rule, msgs) && Runnable(p) && k + 1 == n <= |msgs| && Run(p, msgs[..n]).Running?
    ensures GoesOn(p, rule, msgs, k) && Run(p, msgs[..k]).Running?
  {
    hide Run;
    assert msgs[..n][..k] == msgs[..k];
    AlarmsGrow(p, msgs[..n], k);
  }

  lemma BootHas(p: Program, rule: Rule, msgs: seq<Message>, k: nat)
    requires Watched(p, rule, msgs) && ChainProgram(p, ChainOf(rule)) && Runnable(p) && k < |msgs|
    requires Run(p, msgs[..k]).Running?
    ensures Has(p, ChainOf(rule), Run(p, msgs[..k]).engine, [])
  {
    IdleAt(p, rule, msgs, k);
    var st := Run(p, msgs[..k]).engine;
    assert BOOT in st.fsms && Represents(p.machine, ChainOf(rule), st.fsms[BOOT], []);
  }

  lemma LatesFail(rule: Rule, k: nat)
    requires k < |ChainOf(rule).events| - 1 && k + 1 >= |Leaves(rule.context)|
    ensures k < |ChainOf(rule).lates| && ChainOf(rule).lates[k] == FAIL
  {
    LatesOfRule(rule, k);
  }

  /** The messages at the places `idx` match all events of the rule. */
  ghost predicate MatchIn(p: Program, rule: Rule, msgs: seq<Message>, idx: seq<nat>) {
    && Watched(p, rule, msgs)
    && idx != [] && |idx| == |ChainOf(rule).events| && idx[0] <= idx[|idx| - 1] < |msgs|
    && Candidate(p, ChainOf(rule), msgs, idx, idx[|idx| - 1] + 1)
  }

  /** Message n shows that the event after those matched by the messages at the places `idx` has not come in time. */
  ghost predicate FailureIn(p: Program, rule: Rule, msgs: seq<Message>, idx: seq<nat>, n: nat) {
    && Watched(p, rule, msgs)
    && |Leaves(rule.context)| <= |idx| < |ChainOf(rule).events| && idx[0] <= n < |msgs|
    && Candidate(p, ChainOf(rule), msgs, idx, n) && TooLate(ChainOf(rule), Picked(msgs, idx), msgs[n])
  }

  /** The engine has got as far as message b: it has not halted, or there were fewer messages than places. */
  ghost predicate Reached(p: Program, msgs: seq<Message>, b: nat)
    requires Runnable(p) && b < |msgs|
  {
    b + 1 < p.maxInstances || Run(p, msgs[..b + 1]).Running?
  }

  /** An alarm that answers what the messages at the places `idx` have matched, not after message b. */
  ghost predicate AnswerBy(p: Program, rule: Rule, msgs: seq<Message>, idx: seq<nat>, b: nat)
    requires Runnable(p) && idx != [] && idx[0] < |msgs|
  {
    exists x <- Run(p, msgs).alarms :: x.at <= b && Answer(rule, msgs, idx, x)
  }

  lemma AnswerInTime(p: Program, rule: Rule, msgs: seq<Message>, idx: seq<nat>, b: nat)
    requires Watched(p, rule, msgs) && Runnable(p) && b < |msgs| && idx != [] && idx[0] < |msgs|
    requires Answered(rule, msgs, idx, Run(p, msgs[..b + 1]).alarms)
    ensures AnswerBy(p, rule, msgs, idx, b)
  {
    AlarmPlaces(p, msgs[..b + 1]);
    hide Run, Answer, Watched;
    AlarmsGrow(p, msgs, b + 1);
    var x :| x in Run(p, msgs[..b + 1]).alarms && Answer(rule, msgs, idx, x);
    assert x in Run(p, msgs).alarms && x.at <= b;
  }

  lemma {:induction false} AlarmPlaces(p: Program, msgs: seq<Message>)
    requires Runnable(p)
    ensures forall x <- Run(p, msgs).alarms :: x.at < |msgs|
    decreases |msgs|
  {
    hide Deliver, InitEngine;
    if msgs != [] { AlarmPlaces(p, msgs[..|msgs| - 1]); }
  }

  /**
    * No match is missed. Whenever messages match the events of a THEN rule one after the other, and no other message
    * takes the chance away, a rule that reports matches raises an alarm for the family of the first message by the time
    * of the last; unless one of the matched messages has brought another verdict, for a message brings one only.
    */
  lemma {:induction false} NoMatchMissed(p: Program, rule: Rule, msgs: seq<Message>, idx: seq<nat>)
    requires MatchIn(p, rule, msgs, idx) && GetVerdict(p.ruleType, FinalReached) != Unknown
    requires Reached(p, msgs, idx[|idx| - 1])
    ensures AnswerBy(p, rule, msgs, idx, idx[|idx| - 1])
  {
    hide Run, Candidate, Watched, ChainProgram, ChainOf, Answer, Answered;
    var b := idx[|idx| - 1];
    WatchedFacts(p, rule, msgs);
    NeverStops(p, rule, msgs, b + 1);
    Pursuit(p, rule, msgs, idx, b + 1);
    AnswerInTime(p, rule, msgs, idx, b);
  }

  /**
    * No failure is missed. Whenever messages have matched the context of a THEN rule, or more, and message n shows that
    * the next event has not come in time, a rule that reports failures raises an alarm for the family of the first
    * message by then; unless message n or one of the matched messages has brought another verdict.
    */
  lemma {:induction false} NoFailureMissed(p: Program, rule: Rule, msgs: seq<Message>, idx: seq<nat>, n: nat)
    requires FailureIn(p, rule, msgs, idx, n) && GetVerdict(p.ruleType, ErrorReached) != Unknown
    requires Reached(p, msgs, n)
    ensures AnswerBy(p, rule, msgs, idx + [n], n)
  {
    hide Run, Candidate, Watched, ChainProgram, ChainOf, Answer, Answered, Has, TooLate;
    WatchedFacts(p, rule, msgs);
    LatesFail(rule, |idx| - 1);
    NeverStops(p, rule, msgs, n + 1);
    RunBefore(p, rule, msgs, n, n + 1);
    Pursuit(p, rule, msgs, idx, n);
    LateAnswered(p, rule, msgs, idx, n);
    AnswerInTime(p, rule, msgs, idx + [n], n);
  }

  lemma LateAnswered(p: Program, rule: Rule, msgs: seq<Message>, idx: seq<nat>, n: nat)
    requires GoesOn(p, rule, msgs, n) && ChainProgram(p, ChainOf(rule)) && Runnable(p) && idx != []
    requires (forall j :: 0 <= j < |idx| ==> idx[j] < |msgs|) && n < |msgs| && Pursued(p, rule, msgs, idx, n)
    requires TooLate(ChainOf(rule), Picked(msgs, idx), msgs[n]) && GetVerdict(p.ruleType, ErrorReached) != Unknown
    requires ChainOf(rule).lates[|idx| - 1] == FAIL
    ensures Answered(rule, msgs, idx + [n], Run(p, msgs[..n + 1]).alarms)
  {
    hide Run, GoesOn, TooLate, Has, ChainProgram, Own;
    if Answered(rule, msgs, idx, Run(p, msgs[..n]).alarms) {
      AnsweredLater(p, rule, msgs, idx, idx + [n], n, n + 1);
    } else {
      RunLate(p, rule, msgs, n, Picked(msgs, idx));
      var x :| x in Run(p, msgs[..n + 1]).alarms && x.at == n;
      assert n == (idx + [n])[|idx|] && Answer(rule, msgs, idx + [n], x);
    }
  }
}
