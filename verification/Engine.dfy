/**
  * The verification engine of one rule. Instances and list nodes live on an explicit heap, so that the model can say
  * when a pointer dangles: instances are named by `fsms`, list nodes carry their address.
  */
module Engine {
  import opened Wrappers
  import opened Compiler
  import opened Messages
  import opened FsmRuntime

  datatype RuleType = TestRule | SecurityRule | AttackRule | EvasionRule | ForwardRule

  datatype Verdict = Unknown | Respected | NotRespected | Detected

  /** A compiled rule: its machine, the attributes every event needs, its type, and the size of the instance table. */
  datatype Program = Program(machine: Machine, masks: seq<set<nat>>, ruleType: RuleType, maxInstances: nat)

  /** `fsm` fires transition number `index` on the event of this list; `counter` is the last message it looked at. */
  datatype Node = Node(addr: nat, counter: nat, index: nat, fsm: nat)

  datatype EngineState = EngineState(
    fsms: map<nat, Fsm>, nextRef: nat,
    byEvent: seq<seq<Node>>, nextAddr: nat,
    byId: seq<seq<nat>>, avail: nat,
    stored: Trace, refs: Refs,
    lastCounter: nat, lastTimestamp: nat)

  /**
    * Halted: the process exits, because every place of the instance table from the remembered one on is taken.
    * Broken: a freed node or instance was about to be used.
    */
  datatype Step = Done(engine: EngineState, verdict: Verdict) | Halted | Broken

  const BOOT: nat := 0

  /** Instance identifiers are 16-bit words. */
  const TWO16: nat := 0x1_0000

  ghost predicate Sized(p: Program, st: EngineState) {
    && ValidMachine(p.machine) && |p.masks| == p.machine.size
    && |st.byEvent| == p.machine.size
    && |st.byId| == p.maxInstances
    && |st.stored| == p.machine.size
    && forall r :: r in st.fsms ==> Fits(p.machine, st.fsms[r]) && st.fsms[r].id < |st.byId|
  }

  // ---- Lists ----

  /** Waits for the transitions i, i+1, ... of the current state of instance `r`. */
  function Expect(p: Program, st: EngineState, r: nat, addTimeout: bool, counter: nat, i: nat): (s: EngineState)
    requires Sized(p, st) && r in st.fsms
    ensures Sized(p, s) && s == st.(byEvent := s.byEvent, nextAddr := s.nextAddr)
    decreases |p.machine.states[st.fsms[r].state].out| - i
  {
    var out := p.machine.states[st.fsms[r].state].out;
    if i >= |out| then st
    else if out[i].event == TIMEOUT && !addTimeout then Expect(p, st, r, addTimeout, counter, i + 1)
    else
      var e := out[i].event;
      var node := Node(st.nextAddr, counter, i, r);
      Expect(p, st.(byEvent := st.byEvent[e := [node] + st.byEvent[e]], nextAddr := st.nextAddr + 1),
             r, addTimeout, counter, i + 1)
  }

  function Without(list: seq<Node>, gone: set<nat>): seq<Node> {
    if list == [] then []
    else (if list[0].fsm in gone then [] else [list[0]]) + Without(list[1..], gone)
  }

  function WithoutAll(lists: seq<seq<Node>>, gone: set<nat>): seq<seq<Node>> {
    seq(|lists|, e requires 0 <= e < |lists| => Without(lists[e], gone))
  }

  /** Removes the first occurrence. */
  function RemoveRef(list: seq<nat>, r: nat): seq<nat> {
    if list == [] then []
    else if list[0] == r then list[1..]
    else [list[0]] + RemoveRef(list[1..], r)
  }

  function RemoveAt<T>(list: seq<T>, i: nat): seq<T>
    requires i < |list|
  {
    list[..i] + list[i + 1..]
  }

  // ---- Removing instances ----

  function DropInstance(p: Program, st: EngineState, r: nat): (s: EngineState)
    requires Sized(p, st) && r in st.fsms
    ensures Sized(p, s)
  {
    var id := st.fsms[r].id;
    var left := RemoveRef(st.byId[id], r);
    st.(byEvent := WithoutAll(st.byEvent, {r}),
        byId := st.byId[id := left],
        avail := if left == [] then id else st.avail,
        refs := ReleaseAll(st.refs, st.fsms[r].trace),
        fsms := st.fsms - {r})
  }

  function FreeInstances(fsms: map<nat, Fsm>, refs: Refs, list: seq<nat>): (map<nat, Fsm>, Refs) {
    if list == [] then (fsms, refs)
    else if list[0] !in fsms then FreeInstances(fsms, refs, list[1..])
    else FreeInstances(fsms - {list[0]}, ReleaseAll(refs, fsms[list[0]].trace), list[1..])
  }

  lemma {:induction false} FreeInstancesSubset(fsms: map<nat, Fsm>, refs: Refs, list: seq<nat>)
    ensures var (left, _) := FreeInstances(fsms, refs, list);
            forall r :: r in left ==> r in fsms && r !in list && left[r] == fsms[r]
    ensures var (left, _) := FreeInstances(fsms, refs, list);
            forall r :: r in fsms && r !in list ==> r in left
  {
    if list != [] {
      if list[0] !in fsms { FreeInstancesSubset(fsms, refs, list[1..]); }
      else { FreeInstancesSubset(fsms - {list[0]}, ReleaseAll(refs, fsms[list[0]].trace), list[1..]); }
    }
  }

  ghost function FamilyOf(st: EngineState, id: nat): set<nat> {
    set r | r in st.fsms && st.fsms[r].id == id
  }

  /** Stops the whole family of instance `r`: its nodes, its instances, and its identifier becomes available. */
  function DropFamily(p: Program, st: EngineState, r: nat): (s: EngineState)
    requires Sized(p, st) && r in st.fsms
    ensures Sized(p, s)
  {
    var id := st.fsms[r].id;
    var gone := set x | x in st.fsms && st.fsms[x].id == id;
    FreeInstancesSubset(st.fsms, st.refs, st.byId[id]);
    var (fsms, refs) := FreeInstances(st.fsms, st.refs, st.byId[id]);
    st.(byEvent := WithoutAll(st.byEvent, gone),
        byId := st.byId[id := []],
        avail := id,
        refs := refs,
        fsms := fsms)
  }

  // ---- Verdicts ----

  function GetVerdict(t: RuleType, res: Result): Verdict {
    match t
    case TestRule => if res == ErrorReached then NotRespected else if res == FinalReached then Respected else Unknown
    case SecurityRule => if res == ErrorReached then NotRespected else Unknown
    case AttackRule => if res == FinalReached then Detected else Unknown
    case EvasionRule => if res == FinalReached then Detected else Unknown
    case ForwardRule => if res == FinalReached then Detected else Unknown
  }

  /** Replaces the stored trace slot by slot: the old message is released, then the new one retained. */
  function StoreSlots(refs: Refs, old_: Trace, tr: Trace): Refs
    requires |old_| == |tr|
  {
    if tr == [] then refs
    else
      var k := |tr| - 1;
      var before := StoreSlots(refs, old_[..k], tr[..k]);
      var dropped := if old_[k].Some? then Release(before, old_[k].value) else before;
      if tr[k].Some? then Retain(dropped, tr[k].value) else dropped
  }

  function StoreTrace(p: Program, st: EngineState, r: nat): (s: EngineState)
    requires Sized(p, st) && r in st.fsms
    ensures Sized(p, s)
  {
    var tr := st.fsms[r].trace;
    st.(refs := StoreSlots(st.refs, st.stored, tr), stored := tr)
  }

  // ---- One node ----

  /** The first free place of the instance table, searched from the last known one. */
  function FindPlace(byId: seq<seq<nat>>, i: nat): (r: Option<nat>)
    ensures r.Some? ==> i <= r.value < |byId| && byId[r.value] == []
    decreases |byId| - i
  {
    if i >= |byId| then None
    else if byId[i] == [] then Some(i)
    else FindPlace(byId, i + 1)
  }

  /** What follows the move of instance `r`, which is new or has just left a list. */
  function Finish(p: Program, st: EngineState, r: nat, isNew: bool, res: Result, msg: Message): (s: Step)
    requires Sized(p, st) && r in st.fsms
    ensures s.Done? ==> Sized(p, s.engine)
  {
    match res
    case Changed => Done(Expect(p, st, r, isNew, msg.counter, 0), Unknown)
    case FinalReached =>
      var v := GetVerdict(p.ruleType, res);
      if v == Unknown then Done(DropInstance(p, st, r), Unknown)
      else Done(DropFamily(p, StoreTrace(p, st, r), r), v)
    case ErrorReached =>
      var v := GetVerdict(p.ruleType, res);
      if v == Unknown then Done(DropInstance(p, st, r), Unknown)
      else Done(DropFamily(p, StoreTrace(p, st, r), r), v)
    case InconclusiveReached => Done(DropInstance(p, st, r), Unknown)
    case NoChange => Done(st, Unknown)
    case ErrArg => Done(st, Unknown)
  }

  /** Adds a fresh instance to the family `id`. */
  function Adopt(p: Program, st: EngineState, child: Fsm, id: nat): (s: EngineState)
    requires Sized(p, st) && Fits(p.machine, child) && id < |st.byId|
    ensures Sized(p, s) && st.nextRef in s.fsms
  {
    st.(fsms := st.fsms[st.nextRef := child.(id := id)],
        nextRef := st.nextRef + 1,
        byId := st.byId[id := [st.nextRef] + st.byId[id]])
  }

  /** A child of the bootstrap starts a family of its own, any other child joins the family of its parent `r`. */
  function TakeIn(p: Program, st: EngineState, r: nat, child: Fsm, res: Result, msg: Message): (s: Step)
    requires Sized(p, st) && Fits(p.machine, child) && child.id < |st.byId|
    ensures s.Done? ==> Sized(p, s.engine)
  {
    if r == BOOT then
      match FindPlace(st.byId, st.avail)
      case None => Halted
      case Some(i) => Finish(p, Adopt(p, st.(avail := i), child, i % TWO16), st.nextRef, true, res, msg)
    else
      Finish(p, Adopt(p, st, child, child.id), st.nextRef, true, res, msg)
  }

  /** Lets node number `pos` of the list of event `e` look at the message. */
  function ProcessNode(p: Program, st: EngineState, e: nat, pos: nat, msg: Message): (s: Step)
    requires Sized(p, st) && e < |st.byEvent| && pos < |st.byEvent[e]|
    ensures s.Done? ==> Sized(p, s.engine)
  {
    var node := st.byEvent[e][pos];
    if node.fsm !in st.fsms then Broken
    else
      var list := st.byEvent[e][pos := node.(counter := msg.counter)];
      var o := HandleEvent(p.machine, st.refs, st.fsms[node.fsm], node.index, msg);
      var st1 := st.(byEvent := st.byEvent[e := list], fsms := st.fsms[node.fsm := o.fsm], refs := o.refs);
      if o.child.Some? then
        TakeIn(p, st1, node.fsm, o.child.value, o.res, msg)
      else
        var st2 := if o.res == Changed then st1.(byEvent := st1.byEvent[e := RemoveAt(list, pos)]) else st1;
        Finish(p, st2, node.fsm, false, o.res, msg)
  }

  // ---- One message ----

  function Addresses(list: seq<Node>): seq<nat> {
    seq(|list|, i requires 0 <= i < |list| => list[i].addr)
  }

  /** The saved `next` pointer still leads through exactly these nodes. */
  predicate Reaches(list: seq<Node>, rest: seq<nat>) {
    |rest| <= |list| && Addresses(list)[|list| - |rest|..] == rest
  }

  /** Walks the list of event `e` along the pointers saved before each node is processed. */
  function ProcessList(p: Program, st: EngineState, e: nat, rest: seq<nat>, msg: Message): (s: Step)
    requires Sized(p, st) && e < |st.byEvent|
    ensures s.Done? ==> Sized(p, s.engine)
    decreases |rest|
  {
    if rest == [] then Done(st, Unknown)
    else if !Reaches(st.byEvent[e], rest) then Broken
    else
      var pos := |st.byEvent[e]| - |rest|;
      if st.byEvent[e][pos].counter == msg.counter then ProcessList(p, st, e, rest[1..], msg)
      else
        var s := ProcessNode(p, st, e, pos, msg);
        if s.Done? && s.verdict == Unknown then ProcessList(p, s.engine, e, rest[1..], msg) else s
  }

  /** Visits the lists of the events e, e+1, ... whose attributes the message carries. */
  function ProcessEvents(p: Program, st: EngineState, e: nat, msg: Message): (s: Step)
    requires Sized(p, st)
    ensures s.Done? ==> Sized(p, s.engine)
    decreases |p.masks| - e
  {
    if e >= |p.masks| then Done(st, Unknown)
    else if !(p.masks[e] <= msg.mask) then ProcessEvents(p, st, e + 1, msg)
    else
      var s := ProcessList(p, st, e, Addresses(st.byEvent[e]), msg);
      if s.Done? && s.verdict == Unknown then ProcessEvents(p, s.engine, e + 1, msg) else s
  }

  /** The test before the extra sweep over the timeout list, in 64-bit arithmetic. */
  predicate SweepDue(st: EngineState, msg: Message) {
    !(st.lastCounter < AddU64(msg.counter, 10) && st.lastTimestamp < AddU64(msg.timestamp, 100000))
  }

  function Process(p: Program, st: EngineState, msg: Message): (s: Step)
    requires Sized(p, st)
    ensures s.Done? ==> Sized(p, s.engine)
  {
    var s := ProcessEvents(p, st, 0, msg);
    if !s.Done? || s.verdict != Unknown || !SweepDue(s.engine, msg) || p.machine.size == 0 then s
    else
      var st1 := s.engine.(lastCounter := msg.counter, lastTimestamp := msg.timestamp);
      ProcessList(p, st1, TIMEOUT, Addresses(st1.byEvent[TIMEOUT]), msg)
  }

  /** The caller's reference is given up once the rule has looked at the message. */
  function Deliver(p: Program, st: EngineState, msg: Message): (s: Step)
    requires Sized(p, st)
    ensures s.Done? ==> Sized(p, s.engine)
  {
    var s := Process(p, st.(refs := Retain(st.refs, msg)), msg);
    if s.Done? then Done(s.engine.(refs := Release(s.engine.refs, msg)), s.verdict) else s
  }

  // ---- Whole runs ----

  function InitEngine(p: Program): (st: EngineState)
    requires ValidMachine(p.machine) && |p.masks| == p.machine.size && p.maxInstances > 0
    ensures Sized(p, st)
  {
    var st := EngineState(map[BOOT := NewFsm(p.machine)], 1,
                     seq(p.machine.size, _ => []), 0,
                     seq(p.maxInstances, i => if i == 0 then [BOOT] else []), 0,
                     EmptyTrace(p.machine.size), multiset{}, 0, 0);
    Expect(p, st, BOOT, false, 0, 0)
  }

  /** A verdict, the trace that goes with it, and the number of the message that brought it. */
  datatype Alarm = Alarm(at: nat, verdict: Verdict, trace: Trace)

  datatype RunState = Running(engine: EngineState, alarms: seq<Alarm>) | Stopped(halted: bool, alarms: seq<Alarm>)

  /** Message number k arrives. */
  function Feed(p: Program, r: RunState, k: nat, msg: Message): (n: RunState)
    requires r.Running? ==> Sized(p, r.engine)
    ensures n.Running? ==> Sized(p, n.engine)
  {
    if r.Stopped? then r
    else
      match Deliver(p, r.engine, msg)
      case Done(st, v) => Running(st, if v == Unknown then r.alarms else r.alarms + [Alarm(k, v, st.stored)])
      case Halted => Stopped(true, r.alarms)
      case Broken => Stopped(false, r.alarms)
  }

  function Run(p: Program, msgs: seq<Message>): (r: RunState)
    requires ValidMachine(p.machine) && |p.masks| == p.machine.size && p.maxInstances > 0
    ensures r.Running? ==> Sized(p, r.engine)
  {
    if msgs == [] then Running(InitEngine(p), [])
    else
      var k := |msgs| - 1;
      Feed(p, Run(p, msgs[..k]), k, msgs[k])
  }
}
