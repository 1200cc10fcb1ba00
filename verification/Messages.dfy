/** Messages as the engine sees them, and the multiset of references held on them. */
module Messages {
  import opened Wrappers

  const TWO64: nat := 0x1_0000_0000_0000_0000

  /** Addition on unsigned 64-bit words. */
  function AddU64(a: nat, b: nat): nat {
    (a + b) % TWO64
  }

  /**
    * `mask` is the set of attribute indices whose bit is set in the 64-bit presence word, and `body` stands for the
    * attribute values, which only guards look at.
    */
  datatype Message = Message(counter: nat, timestamp: nat, flow: nat, mask: set<nat>, body: int)

  /** An execution trace: one slot per event, slot 0 belongs to the timeout. */
  type Trace = seq<Option<Message>>

  /** Reference counts: the multiplicity of a message is its count, and a message that is not in here has been freed. */
  type Refs = multiset<Message>

  function Retain(refs: Refs, m: Message): Refs {
    refs + multiset{m}
  }

  /** Frees the message when this was the last reference, otherwise lowers its count. */
  function Release(refs: Refs, m: Message): Refs {
    if refs[m] <= 1 then refs[m := 0] else refs[m := refs[m] - 1]
  }

  function Slot(o: Option<Message>): Refs {
    match o
    case None => multiset{}
    case Some(m) => multiset{m}
  }

  /** Everything a trace holds on to. */
  function Slots(tr: Trace): Refs {
    if tr == [] then multiset{} else Slots(tr[..|tr| - 1]) + Slot(tr[|tr| - 1])
  }

  /** Retains, or releases, every message of a trace in slot order. */
  function RetainAll(refs: Refs, tr: Trace): Refs {
    if tr == [] then refs
    else
      var before := RetainAll(refs, tr[..|tr| - 1]);
      if tr[|tr| - 1].Some? then Retain(before, tr[|tr| - 1].value) else before
  }

  function ReleaseAll(refs: Refs, tr: Trace): Refs {
    if tr == [] then refs
    else
      var before := ReleaseAll(refs, tr[..|tr| - 1]);
      if tr[|tr| - 1].Some? then Release(before, tr[|tr| - 1].value) else before
  }

  lemma {:induction false} RetainAllSlots(refs: Refs, tr: Trace)
    ensures RetainAll(refs, tr) == refs + Slots(tr)
  {
    if tr != [] { RetainAllSlots(refs, tr[..|tr| - 1]); }
  }

  /** Releasing a trace gives back exactly its slots, provided they are all counted. */
  lemma {:induction false} ReleaseAllSlots(rest: Refs, tr: Trace)
    ensures ReleaseAll(rest + Slots(tr), tr) == rest
    decreases |tr|
  {
    if tr != [] {
      var init, last := tr[..|tr| - 1], tr[|tr| - 1];
      assert rest + Slots(tr) == (rest + Slot(last)) + Slots(init);
      ReleaseAllSlots(rest + Slot(last), init);
    }
  }

  lemma Swap(a: Refs, b: Refs, c: Refs)
    ensures (a + b) + c == (a + c) + b
  {}

  lemma {:induction false} SlotsUpdate(tr: Trace, i: nat, o: Option<Message>)
    requires i < |tr|
    ensures Slots(tr[i := o]) + Slot(tr[i]) == Slots(tr) + Slot(o)
  {
    var n := |tr| - 1;
    var u, init := tr[i := o], tr[..n];
    assert Slots(u) == Slots(u[..n]) + Slot(u[n]);
    if i == n {
      assert u[..n] == init;
      Swap(Slots(init), Slot(o), Slot(tr[i]));
    } else {
      assert u[..n] == init[i := o];
      SlotsUpdate(init, i, o);
      Swap(Slots(u[..n]), Slot(tr[n]), Slot(tr[i]));
      Swap(Slots(init), Slot(tr[n]), Slot(o));
    }
  }

  lemma {:induction false} SlotsContain(tr: Trace, i: nat)
    requires i < |tr| && tr[i].Some?
    ensures tr[i].value in Slots(tr)
  {
    if i < |tr| - 1 {
      SlotsContain(tr[..|tr| - 1], i);
    }
  }

  function EmptyTrace(size: nat): (r: Trace)
    ensures |r| == size && forall i :: 0 <= i < size ==> r[i] == None
  {
    seq(size, _ => None)
  }

  lemma {:induction false} EmptyTraceSlots(size: nat)
    ensures Slots(EmptyTrace(size)) == multiset{}
  {
    if size > 0 {
      assert EmptyTrace(size)[..size - 1] == EmptyTrace(size - 1);
      EmptyTraceSlots(size - 1);
    }
  }
}
