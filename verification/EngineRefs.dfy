/**
  * Reference counts over whole runs, for every rule: each message is counted exactly as often as it is referred to.
  */
module EngineRefs {
  import opened Wrappers
  import opened Messages
  import opened FsmRuntime
  import opened Engine

  /** The slots of all live instances named below n. */
  function AllSlots(fsms: map<nat, Fsm>, n: nat): Refs {
    if n == 0 then multiset{}
    else AllSlots(fsms, n - 1) + (if n - 1 in fsms then Slots(fsms[n - 1].trace) else multiset{})
  }

  /** Every count is the number of references: those held outside, those in live traces, those in the stored trace. */
  ghost predicate Balanced(st: EngineState, held: Refs) {
    st.refs == held + AllSlots(st.fsms, st.nextRef) + Slots(st.stored)
  }

  lemma {:induction false} AllSlotsOutside(a: map<nat, Fsm>, b: map<nat, Fsm>, n: nat)
    requires forall r :: 0 <= r < n ==> (r in a <==> r in b) && (r in a ==> a[r].trace == b[r].trace)
    ensures AllSlots(a, n) == AllSlots(b, n)
  {
    if n > 0 { AllSlotsOutside(a, b, n - 1); }
  }

  function SlotsAt(fsms: map<nat, Fsm>, r: nat): Refs {
    if r in fsms then Slots(fsms[r].trace) else multiset{}
  }

  lemma {:induction false} AllSlotsChange(a: map<nat, Fsm>, b: map<nat, Fsm>, r: nat, n: nat)
    requires r < n
    requires forall x :: x != r ==> (x in a <==> x in b) && (x in a ==> a[x].trace == b[x].trace)
    ensures AllSlots(a, n) + SlotsAt(b, r) == AllSlots(b, n) + SlotsAt(a, r)
  {
    assert AllSlots(a, n) == AllSlots(a, n - 1) + SlotsAt(a, n - 1);
    assert AllSlots(b, n) == AllSlots(b, n - 1) + SlotsAt(b, n - 1);
    if r == n - 1 {
      AllSlotsOutside(a, b, n - 1);
      hide AllSlots, SlotsAt;
      Swap(AllSlots(a, n - 1), SlotsAt(a, r), SlotsAt(b, r));
    } else {
      AllSlotsChange(a, b, r, n - 1);
      assert SlotsAt(a, n - 1) == SlotsAt(b, n - 1);
      hide AllSlots, SlotsAt;
      Swap(AllSlots(a, n - 1), SlotsAt(a, n - 1), SlotsAt(b, r));
      Swap(AllSlots(b, n - 1), SlotsAt(b, n - 1), SlotsAt(a, r));
    }
  }

  lemma AllSlotsSplit(fsms: map<nat, Fsm>, r: nat, n: nat)
    requires r < n && r in fsms
    ensures AllSlots(fsms, n) == AllSlots(fsms - {r}, n) + Slots(fsms[r].trace)
  {
    AllSlotsChange(fsms, fsms - {r}, r, n);
  }

  /** Names of instances are handed out in order. */
  ghost predicate Named(st: EngineState) {
    forall r :: r in st.fsms ==> r < st.nextRef
  }

  // ---- Removing and storing ----

  lemma {:induction false} FreeInstancesBalance(fsms: map<nat, Fsm>, refs: Refs, list: seq<nat>, rest: Refs, n: nat)
    requires refs == rest + AllSlots(fsms, n) && forall r :: r in fsms ==> r < n
    ensures var (left, refs1) := FreeInstances(fsms, refs, list); refs1 == rest + AllSlots(left, n)
    decreases |list|
  {
    if list != [] && list[0] in fsms {
      var r := list[0];
      AllSlotsSplit(fsms, r, n);
      assert refs == (rest + AllSlots(fsms - {r}, n)) + Slots(fsms[r].trace);
      ReleaseAllSlots(rest + AllSlots(fsms - {r}, n), fsms[r].trace);
      FreeInstancesBalance(fsms - {r}, ReleaseAll(refs, fsms[r].trace), list[1..], rest, n);
    } else if list != [] {
      FreeInstancesBalance(fsms, refs, list[1..], rest, n);
    }
  }

  lemma ReleaseSlot(rest: Refs, o: Option<Message>)
    ensures (if o.Some? then Release(rest + Slot(o), o.value) else rest + Slot(o)) == rest
  {}

  lemma {:induction false} StoreSlotsBalance(refs: Refs, old_: Trace, tr: Trace, rest: Refs)
    requires |old_| == |tr| && refs == rest + Slots(old_)
    ensures StoreSlots(refs, old_, tr) == rest + Slots(tr)
    decreases |tr|
  {
    if tr != [] {
      var k := |tr| - 1;
      var a, b := Slots(old_[..k]), Slots(tr[..k]);
      assert refs == (rest + Slot(old_[k])) + a by { Swap(rest, a, Slot(old_[k])); }
      StoreSlotsBalance(refs, old_[..k], tr[..k], rest + Slot(old_[k]));
      Swap(rest, Slot(old_[k]), b);
      ReleaseSlot(rest + b, old_[k]);
    }
  }

  lemma DropInstanceBalance(p: Program, st: EngineState, r: nat, held: Refs)
    requires Sized(p, st) && Named(st) && r in st.fsms && Balanced(st, held)
    ensures Balanced(DropInstance(p, st, r), held) && Named(DropInstance(p, st, r))
  {
    AllSlotsSplit(st.fsms, r, st.nextRef);
    var rest := held + AllSlots(st.fsms - {r}, st.nextRef) + Slots(st.stored);
    assert st.refs == rest + Slots(st.fsms[r].trace);
    ReleaseAllSlots(rest, st.fsms[r].trace);
  }

  lemma DropFamilyBalance(p: Program, st: EngineState, r: nat, held: Refs)
    requires Sized(p, st) && Named(st) && r in st.fsms && Balanced(st, held)
    ensures Balanced(DropFamily(p, st, r), held) && Named(DropFamily(p, st, r))
  {
    var list := st.byId[st.fsms[r].id];
    FreeInstancesSubset(st.fsms, st.refs, list);
    assert st.refs == (held + Slots(st.stored)) + AllSlots(st.fsms, st.nextRef);
    FreeInstancesBalance(st.fsms, st.refs, list, held + Slots(st.stored), st.nextRef);
  }

  lemma StoreTraceBalance(p: Program, st: EngineState, r: nat, held: Refs)
    requires Sized(p, st) && Named(st) && r in st.fsms && Balanced(st, held)
    ensures Balanced(StoreTrace(p, st, r), held) && Named(StoreTrace(p, st, r))
  {
    StoreSlotsBalance(st.refs, st.stored, st.fsms[r].trace, held + AllSlots(st.fsms, st.nextRef));
  }

  lemma FinishBalance(p: Program, st: EngineState, r: nat, isNew: bool, res: Result, msg: Message, held: Refs)
    requires Sized(p, st) && Named(st) && r in st.fsms && Balanced(st, held)
    ensures var s := Finish(p, st, r, isNew, res, msg); s.Done? ==> Balanced(s.engine, held) && Named(s.engine)
  {
    DropInstanceBalance(p, st, r, held);
    StoreTraceBalance(p, st, r, held);
    DropFamilyBalance(p, StoreTrace(p, st, r), r, held);
  }

  // ---- Steps ----

  lemma Swap3(h: Refs, x: Refs, s: Refs, t: Refs)
    ensures h + (x + s) + t == h + x + t + s
  {}

  lemma HandleBalance(p: Program, st: EngineState, r: nat, i: nat, msg: Message, held: Refs) returns (o: EventOutcome)
    requires Sized(p, st) && Named(st) && r in st.fsms && Balanced(st, held)
    ensures o == HandleEvent(p.machine, st.refs, st.fsms[r], i, msg)
    ensures o.refs == held + AllSlots(st.fsms[r := o.fsm], st.nextRef) + Slots(st.stored) + ChildSlots(o.child)
  {
    hide HandleEvent, Slots, AllSlots;
    AllSlotsSplit(st.fsms, r, st.nextRef);
    var a, t := AllSlots(st.fsms - {r}, st.nextRef), Slots(st.stored);
    var rest := held + a + t;
    Swap3(held, a, Slots(st.fsms[r].trace), t);
    o := HandleConserves(p.machine, st.refs, rest, st.fsms[r], i, msg);
    AllSlotsSplit(st.fsms[r := o.fsm], r, st.nextRef);
    assert st.fsms[r := o.fsm] - {r} == st.fsms - {r};
    Swap3(held, a, Slots(o.fsm.trace), t);
  }

  lemma AdoptBalance(p: Program, st: EngineState, child: Fsm, id: nat, held: Refs)
    requires Sized(p, st) && Named(st) && Fits(p.machine, child) && id < |st.byId|
    requires st.refs == held + AllSlots(st.fsms, st.nextRef) + Slots(st.stored) + Slots(child.trace)
    ensures Balanced(Adopt(p, st, child, id), held) && Named(Adopt(p, st, child, id))
  {
    var u := Adopt(p, st, child, id);
    AdoptSlots(st.fsms, u.fsms, child.(id := id), st.nextRef);
    Swap3(held, AllSlots(st.fsms, st.nextRef), Slots(child.trace), Slots(st.stored));
  }

  lemma AdoptSlots(a: map<nat, Fsm>, b: map<nat, Fsm>, child: Fsm, n: nat)
    requires n !in a && b == a[n := child]
    ensures AllSlots(b, n + 1) == AllSlots(a, n) + Slots(child.trace)
  {
    AllSlotsOutside(a, b, n);
  }

  /** Every step of a node, of whatever rule, keeps the counts equal to the references. */
  lemma NodeBalance(p: Program, st: EngineState, e: nat, pos: nat, msg: Message, held: Refs)
    requires Sized(p, st) && Named(st) && Balanced(st, held) && e < |st.byEvent| && pos < |st.byEvent[e]|
    ensures var s := ProcessNode(p, st, e, pos, msg); s.Done? ==> Balanced(s.engine, held) && Named(s.engine)
  {
    hide AllSlots, Slots, HandleEvent, TakeIn, Finish;
    var node := st.byEvent[e][pos];
    if node.fsm in st.fsms {
      var list := st.byEvent[e][pos := node.(counter := msg.counter)];
      var o := HandleBalance(p, st, node.fsm, node.index, msg, held);
      var st1 := st.(byEvent := st.byEvent[e := list], fsms := st.fsms[node.fsm := o.fsm], refs := o.refs);
      if o.child.Some? {
        ForkBalance(p, st1, node.fsm, o.child.value, o.res, msg, held);
      } else {
        var st2 := if o.res == Changed then st1.(byEvent := st1.byEvent[e := RemoveAt(list, pos)]) else st1;
        FinishBalance(p, st2, node.fsm, false, o.res, msg, held);
      }
    }
  }

  lemma ForkBalance(p: Program, st: EngineState, r: nat, child: Fsm, res: Result, msg: Message, held: Refs)
    requires Sized(p, st) && Named(st) && Fits(p.machine, child) && child.id < |st.byId|
    requires st.refs == held + AllSlots(st.fsms, st.nextRef) + Slots(st.stored) + Slots(child.trace)
    ensures var s := TakeIn(p, st, r, child, res, msg); s.Done? ==> Balanced(s.engine, held) && Named(s.engine)
  {
    if r != BOOT {
      GrowBalance(p, st, child, child.id, res, msg, held);
    } else if FindPlace(st.byId, st.avail).Some? {
      var i := FindPlace(st.byId, st.avail).value;
      GrowBalance(p, st.(avail := i), child, i % TWO16, res, msg, held);
    }
  }

  lemma GrowBalance(p: Program, st: EngineState, child: Fsm, id: nat, res: Result, msg: Message, held: Refs)
    requires Sized(p, st) && Named(st) && Fits(p.machine, child) && id < |st.byId|
    requires st.refs == held + AllSlots(st.fsms, st.nextRef) + Slots(st.stored) + Slots(child.trace)
    ensures var s := Finish(p, Adopt(p, st, child, id), st.nextRef, true, res, msg);
            s.Done? ==> Balanced(s.engine, held) && Named(s.engine)
  {
    AdoptBalance(p, st, child, id, held);
    FinishBalance(p, Adopt(p, st, child, id), st.nextRef, true, res, msg, held);
  }

  lemma {:induction false} ListBalance(p: Program, st: EngineState, e: nat, rest: seq<nat>, msg: Message, held: Refs)
    requires Sized(p, st) && Named(st) && Balanced(st, held) && e < |st.byEvent|
    ensures var s := ProcessList(p, st, e, rest, msg); s.Done? ==> Balanced(s.engine, held) && Named(s.engine)
    decreases |rest|
  {
    if rest != [] && Reaches(st.byEvent[e], rest) {
      var pos := |st.byEvent[e]| - |rest|;
      if st.byEvent[e][pos].counter == msg.counter {
        ListBalance(p, st, e, rest[1..], msg, held);
      } else {
        NodeBalance(p, st, e, pos, msg, held);
        var s := ProcessNode(p, st, e, pos, msg);
        if s.Done? && s.verdict == Unknown { ListBalance(p, s.engine, e, rest[1..], msg, held); }
      }
    }
  }

  lemma {:induction false} EventsBalance(p: Program, st: EngineState, e: nat, msg: Message, held: Refs)
    requires Sized(p, st) && Named(st) && Balanced(st, held)
    ensures var s := ProcessEvents(p, st, e, msg); s.Done? ==> Balanced(s.engine, held) && Named(s.engine)
    decreases |p.masks| - e
  {
    if e < |p.masks| {
      if !(p.masks[e] <= msg.mask) {
        EventsBalance(p, st, e + 1, msg, held);
      } else {
        ListBalance(p, st, e, Addresses(st.byEvent[e]), msg, held);
        var s := ProcessList(p, st, e, Addresses(st.byEvent[e]), msg);
        if s.Done? && s.verdict == Unknown { EventsBalance(p, s.engine, e + 1, msg, held); }
      }
    }
  }

  lemma DeliverBalance(p: Program, st: EngineState, msg: Message, held: Refs)
    requires Sized(p, st) && Named(st) && Balanced(st, held)
    ensures var s := Deliver(p, st, msg); s.Done? ==> Balanced(s.engine, held) && Named(s.engine)
  {
    hide AllSlots, Slots, ProcessEvents, ProcessList;
    var st0 := st.(refs := Retain(st.refs, msg));
    var with := held + multiset{msg};
    assert Balanced(st0, with);
    EventsBalance(p, st0, 0, msg, with);
    var s := ProcessEvents(p, st0, 0, msg);
    if s.Done? && s.verdict == Unknown && SweepDue(s.engine, msg) {
      var st1 := s.engine.(lastCounter := msg.counter, lastTimestamp := msg.timestamp);
      ListBalance(p, st1, 0, Addresses(st1.byEvent[0]), msg, with);
    }
    var s1 := Process(p, st0, msg);
    if s1.Done? {
      var rest := held + AllSlots(s1.engine.fsms, s1.engine.nextRef) + Slots(s1.engine.stored);
      assert s1.engine.refs == rest + Slot(Some(msg));
      ReleaseSlot(rest, Some(msg));
    }
  }

  lemma InitBalance(p: Program)
    requires ValidMachine(p.machine) && |p.masks| == p.machine.size && p.maxInstances > 0
    ensures Balanced(InitEngine(p), multiset{}) && Named(InitEngine(p))
  {
    EmptyTraceSlots(p.machine.size);
    var st := InitEngine(p);
    assert AllSlots(st.fsms, 1) == AllSlots(st.fsms, 0) + Slots(st.fsms[0].trace);
  }

  /**
    * Over every run of every rule, the count of a message is the number of slots that refer to it; so a message that
    * no live instance and no stored trace refers to has been freed, and no message in use ever is.
    */
  lemma {:induction false} RunConservesReferences(p: Program, msgs: seq<Message>)
    requires ValidMachine(p.machine) && |p.masks| == p.machine.size && p.maxInstances > 0
    ensures var r := Run(p, msgs); r.Running? ==> Balanced(r.engine, multiset{}) && Named(r.engine)
    decreases |msgs|
  {
    if msgs == [] {
      InitBalance(p);
    } else {
      var k := |msgs| - 1;
      RunConservesReferences(p, msgs[..k]);
      var r := Run(p, msgs[..k]);
      if r.Running? { DeliverBalance(p, r.engine, msgs[k], multiset{}); }
    }
  }

  /** In particular a message in a slot of a live instance or of the stored trace is never freed. */
  lemma InUseNotFreed(p: Program, msgs: seq<Message>, msg: Message)
    requires ValidMachine(p.machine) && |p.masks| == p.machine.size && p.maxInstances > 0
    ensures var r := Run(p, msgs);
            r.Running? ==> (msg in r.engine.refs
              <==> (Some(msg) in r.engine.stored
                  || exists x :: x in r.engine.fsms && Some(msg) in r.engine.fsms[x].trace))
  {
    RunConservesReferences(p, msgs);
    var r := Run(p, msgs);
    if r.Running? {
      SlotsMember(r.engine.stored, msg);
      AllSlotsMember(r.engine.fsms, r.engine.nextRef, msg);
    }
  }

  lemma {:induction false} SlotsMember(tr: Trace, msg: Message)
    ensures msg in Slots(tr) <==> Some(msg) in tr
  {
    if tr != [] {
      var k := |tr| - 1;
      SlotsMember(tr[..k], msg);
      assert tr == tr[..k] + [tr[k]];
      assert msg in Slots(tr) <==> msg in Slots(tr[..k]) || msg in Slot(tr[k]);
      assert Some(msg) in tr <==> Some(msg) in tr[..k] || tr[k] == Some(msg);
    }
  }

  lemma {:induction false} AllSlotsMember(fsms: map<nat, Fsm>, n: nat, msg: Message)
    ensures msg in AllSlots(fsms, n) <==> exists x :: 0 <= x < n && x in fsms && Some(msg) in fsms[x].trace
  {
    if n > 0 {
      AllSlotsMember(fsms, n - 1, msg);
      if n - 1 in fsms { SlotsMember(fsms[n - 1].trace, msg); }
    }
  }
}
