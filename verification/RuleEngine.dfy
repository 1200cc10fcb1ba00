/** The engine as an object: lists and tables edited in place, one method for each routine of the engine. */
module RuleEngine {
  import opened Wrappers
  import opened Compiler
  import opened Messages
  import opened FsmRuntime
  import opened Engine
  import opened EngineInvariant

  datatype Outcome = Verdict(verdict: Verdict) | NoMemory | Dangling

  /** How a step of the specification ends, without the state it leaves. */
  function Ending(s: Step): Outcome {
    match s
    case Done(_, v) => Outcome.Verdict(v)
    case Halted => NoMemory
    case Broken => Dangling
  }

  class RuleEngine {
    const p: Program
    var fsms: map<nat, Fsm>
    var nextRef: nat
    var byEvent: seq<seq<Node>>
    var nextAddr: nat
    var byId: seq<seq<nat>>
    var avail: nat
    var stored: Trace
    var refs: Refs
    var lastCounter: nat
    var lastTimestamp: nat

    function State(): EngineState
      reads this
    {
      EngineState(fsms, nextRef, byEvent, nextAddr, byId, avail, stored, refs, lastCounter, lastTimestamp)
    }

    ghost predicate Valid()
      reads this
    {
      Sized(p, State())
    }

    constructor (p: Program)
      requires ValidMachine(p.machine) && |p.masks| == p.machine.size && p.maxInstances > 0
      ensures this.p == p && State() == InitEngine(p)
    {
      this.p := p;
      fsms, nextRef := map[BOOT := NewFsm(p.machine)], 1;
      byEvent, nextAddr := seq(p.machine.size, _ => []), 0;
      byId := seq(p.maxInstances, i => if i == 0 then [BOOT] else []);
      avail := 0;
      stored, refs := EmptyTrace(p.machine.size), multiset{};
      lastCounter, lastTimestamp := 0, 0;
      new;
      SetExpectingEvents(BOOT, false, 0);
    }

    method SetExpectingEvents(r: nat, addTimeout: bool, counter: nat)
      requires Valid() && r in fsms
      modifies this
      ensures State() == Expect(p, old(State()), r, addTimeout, counter, 0)
    {
      var out := p.machine.states[fsms[r].state].out;
      for i := 0 to |out|
        invariant Valid() && fsms == old(fsms)
        invariant Expect(p, State(), r, addTimeout, counter, i) == Expect(p, old(State()), r, addTimeout, counter, 0)
      {
        if out[i].event == TIMEOUT && !addTimeout { continue; }
        var node := Node(nextAddr, counter, i, r);
        byEvent := byEvent[out[i].event := [node] + byEvent[out[i].event]];
        nextAddr := nextAddr + 1;
      }
    }

    /** Walks one list and unlinks every node whose instance is in `gone`. */
    static method Unlink(list: seq<Node>, gone: set<nat>) returns (kept: seq<Node>)
      ensures kept == Without(list, gone)
    {
      kept := [];
      for i := 0 to |list|
        invariant kept == Without(list[..i], gone)
      {
        assert list[..i + 1] == list[..i] + [list[i]];
        WithoutConcat(list[..i], [list[i]], gone);
        if list[i].fsm !in gone { kept := kept + [list[i]]; }
      }
      assert list[..|list|] == list;
    }

    method UnlinkNodes(gone: set<nat>)
      modifies this`byEvent
      ensures byEvent == WithoutAll(old(byEvent), gone)
    {
      for e := 0 to |byEvent|
        invariant |byEvent| == |old(byEvent)|
        invariant forall k :: 0 <= k < |byEvent| ==> byEvent[k] == if k < e then Without(old(byEvent)[k], gone)
                else old(byEvent)[k]
      {
        var kept := Unlink(byEvent[e], gone);
        byEvent := byEvent[e := kept];
      }
    }

    method ResetForInstance(r: nat)
      requires Valid() && r in fsms
      modifies this
      ensures State() == DropInstance(p, old(State()), r)
    {
      var id := fsms[r].id;
      UnlinkNodes({r});
      byId := byId[id := RemoveRef(byId[id], r)];
      if byId[id] == [] { avail := id; }
      refs := ReleaseAll(refs, fsms[r].trace);
      fsms := fsms - {r};
    }

    method ResetForFsm(r: nat)
      requires Valid() && r in fsms
      modifies this
      ensures State() == DropFamily(p, old(State()), r)
    {
      var id := fsms[r].id;
      UnlinkNodes(set x | x in fsms && fsms[x].id == id);
      var list := byId[id];
      while list != []
        invariant State() == old(State()).(byEvent := byEvent, fsms := fsms, refs := refs)
        invariant byEvent == WithoutAll(old(byEvent), set x | x in old(fsms) && old(fsms)[x].id == id)
        invariant FreeInstances(fsms, refs, list) == FreeInstances(old(fsms), old(refs), old(byId)[id])
        decreases |list|
      {
        if list[0] in fsms {
          refs := ReleaseAll(refs, fsms[list[0]].trace);
          fsms := fsms - {list[0]};
        }
        list := list[1..];
      }
      byId := byId[id := []];
      avail := id;
    }

    static lemma StoreSlotsStep(refs: Refs, was: Trace, tr: Trace, i: nat)
      requires i < |tr| == |was|
      ensures var before := StoreSlots(refs, was[..i], tr[..i]);
              var dropped := if was[i].Some? then Release(before, was[i].value) else before;
              StoreSlots(refs, was[..i + 1], tr[..i + 1]) == if tr[i].Some? then Retain(dropped, tr[i].value)
                  else dropped
    {
      assert tr[..i + 1][..i] == tr[..i] && was[..i + 1][..i] == was[..i];
    }

    static lemma StoreNothing(refs: Refs)
      ensures StoreSlots(refs, [], []) == refs
    {}

    static lemma OneMoreSlot(was: Trace, tr: Trace, i: nat)
      requires i < |tr| == |was|
      ensures (tr[..i] + was[i..])[i] == was[i]
      ensures (tr[..i] + was[i..])[i := tr[i]] == tr[..i + 1] + was[i + 1..]
    {}

    method StoreValidExecutionTrace(r: nat)
      requires Valid() && r in fsms
      modifies this
      ensures State() == StoreTrace(p, old(State()), r)
    {
      hide StoreSlots;
      var tr := fsms[r].trace;
      StoreNothing(refs);
      for i := 0 to |tr|
        invariant State() == old(State()).(stored := stored, refs := refs)
        invariant stored == tr[..i] + old(stored)[i..]
        invariant refs == StoreSlots(old(refs), old(stored)[..i], tr[..i])
      {
        StoreSlotsStep(old(refs), old(stored), tr, i);
        OneMoreSlot(old(stored), tr, i);
        if stored[i].Some? { refs := Release(refs, stored[i].value); }
        if tr[i].Some? { refs := Retain(refs, tr[i].value); }
        stored := stored[i := tr[i]];
      }
      assert tr[..|tr|] == tr && old(stored)[..|tr|] == old(stored);
    }

    /** The first free place from `avail` on; it becomes the new starting point of the search. */
    method FindAvailableId() returns (place: Option<nat>)
      requires Valid()
      modifies this`avail
      ensures place == FindPlace(byId, old(avail))
      ensures avail == if place.Some? then place.value else old(avail)
    {
      var i := avail;
      while i < p.maxInstances
        invariant FindPlace(byId, i) == FindPlace(byId, old(avail))
      {
        if byId[i] == [] {
          avail := i;
          return Some(i);
        }
        i := i + 1;
      }
      place := None;
    }

    method FinishNode(r: nat, isNew: bool, res: Result, msg: Message) returns (o: Outcome)
      requires Valid() && r in fsms
      modifies this
      ensures o.Verdict? && Finish(p, old(State()), r, isNew, res, msg) == Step.Done(State(), o.verdict)
    {
      o := Outcome.Verdict(Unknown);
      match res {
        case Changed => SetExpectingEvents(r, isNew, msg.counter);
        case FinalReached =>
          var v := GetVerdict(p.ruleType, res);
          if v == Unknown { ResetForInstance(r); }
          else { StoreValidExecutionTrace(r); ResetForFsm(r); }
          o := Outcome.Verdict(v);
        case ErrorReached =>
          var v := GetVerdict(p.ruleType, res);
          if v == Unknown { ResetForInstance(r); }
          else { StoreValidExecutionTrace(r); ResetForFsm(r); }
          o := Outcome.Verdict(v);
        case InconclusiveReached => ResetForInstance(r);
        case NoChange =>
        case ErrArg =>
      }
    }

    /** What a method leaves, seen as a step of the specification. */
    ghost predicate Leaves(s: Step, o: Outcome)
      reads this
    {
      Ending(s) == o && (s.Done? ==> s.engine == State())
    }

    method AdoptChild(child: Fsm, id: nat) returns (r: nat)
      requires Valid() && Fits(p.machine, child) && id < |byId|
      modifies this
      ensures Valid() && r == old(nextRef) && r in fsms && State() == Adopt(p, old(State()), child, id)
    {
      r := nextRef;
      ghost var s := Adopt(p, State(), child, id);
      fsms, nextRef := fsms[r := child.(id := id)], r + 1;
      byId := byId[id := [r] + byId[id]];
      assert State() == s;
    }

    method TakeInChild(parent: nat, child: Fsm, res: Result, msg: Message) returns (o: Outcome)
      requires Valid() && Fits(p.machine, child) && child.id < |byId|
      modifies this
      ensures Leaves(TakeIn(p, old(State()), parent, child, res, msg), o)
      ensures o.Verdict? ==> Valid()
    {
      var id := child.id;
      if parent == BOOT {
        var place := FindAvailableId();
        if place == None { return NoMemory; }
        id := place.value % TWO16;
      }
      var r := AdoptChild(child, id);
      o := FinishNode(r, true, res, msg);
    }

    method ProcessANode(e: nat, pos: nat, msg: Message) returns (o: Outcome)
      requires Valid() && e < |byEvent| && pos < |byEvent[e]|
      modifies this
      ensures Leaves(ProcessNode(p, old(State()), e, pos, msg), o)
      ensures o.Verdict? ==> Valid()
    {
      var node := byEvent[e][pos];
      if node.fsm !in fsms { return Dangling; }
      byEvent := byEvent[e := byEvent[e][pos := node.(counter := msg.counter)]];
      var h := HandleEvent(p.machine, refs, fsms[node.fsm], node.index, msg);
      fsms, refs := fsms[node.fsm := h.fsm], h.refs;
      if h.child.Some? {
        o := TakeInChild(node.fsm, h.child.value, h.res, msg);
      } else {
        if h.res == Changed { byEvent := byEvent[e := RemoveAt(byEvent[e], pos)]; }
        o := FinishNode(node.fsm, false, h.res, msg);
      }
    }

    /** Follows the list of event `e` from its head, saving each `next` before the node is processed. */
    method ProcessOneList(e: nat, msg: Message) returns (o: Outcome)
      requires Valid() && e < |byEvent|
      modifies this
      ensures Leaves(ProcessList(p, old(State()), e, Addresses(old(byEvent)[e]), msg), o)
      ensures o.Verdict? ==> Valid()
    {
      var rest := Addresses(byEvent[e]);
      while rest != []
        invariant Valid() && e < |byEvent|
        invariant ProcessList(p, State(), e, rest, msg)
                == ProcessList(p, old(State()), e, Addresses(old(byEvent)[e]), msg)
        decreases |rest|
      {
        if !Reaches(byEvent[e], rest) { return Dangling; }
        var pos := |byEvent[e]| - |rest|;
        if byEvent[e][pos].counter != msg.counter {
          o := ProcessANode(e, pos, msg);
          if o != Outcome.Verdict(Unknown) { return; }
        }
        rest := rest[1..];
      }
      o := Outcome.Verdict(Unknown);
    }

    method ProcessMultiPackets(msg: Message) returns (o: Outcome)
      requires Valid()
      modifies this
      ensures Leaves(Process(p, old(State()), msg), o)
      ensures o.Verdict? ==> Valid()
    {
      for e := 0 to |p.masks|
        invariant Valid()
        invariant ProcessEvents(p, State(), e, msg) == ProcessEvents(p, old(State()), 0, msg)
      {
        if p.masks[e] <= msg.mask {
          o := ProcessOneList(e, msg);
          if o != Outcome.Verdict(Unknown) { return; }
        }
      }
      o := Outcome.Verdict(Unknown);
      if SweepDue(State(), msg) && p.machine.size > 0 {
        lastCounter, lastTimestamp := msg.counter, msg.timestamp;
        o := ProcessOneList(TIMEOUT, msg);
      }
    }
  }
}
