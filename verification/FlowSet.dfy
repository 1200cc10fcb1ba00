/** A bounded set of flow ids: a table with linear probing, a queue of slots for eviction, and a filter asked first. */
module FlowSet {
  import opened Wrappers
  import opened Probing
  import Messages

  /** The id that marks an empty slot. */
  const EMPTY: nat := 0xffff_ffff_ffff_ffff

  /** Byte number `pos` of an id, and its value: what the filter remembers. */
  type Mark = (nat, nat)

  /** `queue` holds the slot of each addition that has not been evicted, oldest first. */
  datatype Flows = Flows(slots: seq<nat>, queue: seq<nat>, filter: set<Mark>)

  function Home(id: nat, size: nat): (h: nat)
    requires size > 0
    ensures h < size
  {
    (id * 2654435761 % Messages.TWO64) / 256 % size
  }

  function ByteOf(id: nat, pos: nat): (b: nat)
    ensures b < 256
  {
    if pos == 0 then id % 256 else ByteOf(id / 256, pos - 1)
  }

  function Marks(id: nat): set<Mark> {
    set pos | 0 <= pos < 8 :: (pos, ByteOf(id, pos))
  }

  function Stops(slots: seq<nat>, id: nat): nat -> bool {
    (i: nat) => i < |slots| && (slots[i] == EMPTY || slots[i] == id)
  }

  /** The slot that holds the id, or the empty slot where it would go. */
  function Place(slots: seq<nat>, id: nat): (slot: Option<nat>)
    requires slots != []
    ensures slot.Some? ==> slot.value < |slots| && (slots[slot.value] == EMPTY || slots[slot.value] == id)
  {
    Probe(Stops(slots, id), |slots|, Home(id, |slots|), 0)
  }

  predicate Stored(slots: seq<nat>, id: nat)
    requires slots != []
  {
    id != EMPTY && Place(slots, id).Some? && slots[Place(slots, id).value] == id
  }

  predicate Full(f: Flows) {
    |f.queue| + 1 == |f.slots|
  }

  function EvictionBurst(size: nat): nat {
    if size > 16 then size / 16 else 1
  }

  /** The slot to empty next; `index` is the one emptied before, which C would take again should the queue be empty. */
  function Oldest(f: Flows, index: nat): nat {
    if f.queue == [] then index else f.queue[0]
  }

  function EvictOldest(f: Flows, index: nat): Flows {
    var slot := Oldest(f, index);
    if slot < |f.slots| then
      Flows(f.slots[slot := EMPTY], if f.queue == [] then [] else f.queue[1..], f.filter - Marks(f.slots[slot]))
    else f
  }

  /** Empties n slots in the order of the queue. */
  function Evict(f: Flows, n: nat, index: nat): Flows
    decreases n
  {
    if n == 0 then f else Evict(EvictOldest(f, index), n - 1, Oldest(f, index))
  }

  function MakeRoom(f: Flows): Flows {
    if Full(f) then Evict(f, EvictionBurst(|f.slots|), 0) else f
  }

  function Enter(f: Flows, id: nat): Flows
    requires f.slots != []
  {
    match Place(f.slots, id)
    case None => f
    case Some(i) =>
      Flows(f.slots[i := id], if Full(f) then f.queue else f.queue + [i], f.filter + Marks(id))
  }

  function Add(f: Flows, id: nat): Flows {
    if id == EMPTY || MakeRoom(f).slots == [] then f else Enter(MakeRoom(f), id)
  }

  predicate Check(f: Flows, id: nat)
    requires f.slots != []
  {
    Marks(id) <= f.filter && Stored(f.slots, id)
  }

  /** A new set after a run of additions. */
  function Run(size: nat, ids: seq<nat>): Flows {
    if ids == [] then Flows(seq(size, _ => EMPTY), [], {})
    else Add(Run(size, ids[..|ids| - 1]), ids[|ids| - 1])
  }

  // ---- Every reachable state ----

  /** Occupied slots are queued for eviction. */
  ghost predicate Covered(f: Flows) {
    && |f.queue| < |f.slots|
    && (forall i <- f.queue :: i < |f.slots|)
    && forall i :: 0 <= i < |f.slots| && f.slots[i] != EMPTY ==> i in f.queue
  }

  function Elements(q: seq<nat>): (s: set<nat>)
    ensures |s| <= |q| && forall x :: x in s <==> x in q
  {
    if q == [] then {} else Elements(q[1..]) + {q[0]}
  }

  function Below(n: nat): (s: set<nat>)
    ensures |s| == n && forall x :: x in s <==> 0 <= x < n
  {
    if n == 0 then {} else Below(n - 1) + {n - 1}
  }

  /** A queue shorter than the table leaves an empty slot. */
  lemma SomeEmptySlot(f: Flows) returns (i: nat)
    requires Covered(f)
    ensures i < |f.slots| && f.slots[i] == EMPTY
  {
    var all, queued := Below(|f.slots|), Elements(f.queue);
    var free := all - queued;
    SubsetSize(all * queued, queued);
    assert |free| == |all| - |all * queued|;
    i :| i in free;
  }

  lemma {:induction false} SubsetSize(a: set<nat>, b: set<nat>)
    requires a <= b
    ensures |a| <= |b|
  {
    if a != {} {
      var x :| x in a;
      SubsetSize(a - {x}, b - {x});
    }
  }

  lemma {:induction false} EvictKeeps(f: Flows, n: nat, index: nat)
    requires Covered(f) && n <= |f.queue|
    ensures Covered(Evict(f, n, index)) && |Evict(f, n, index).queue| == |f.queue| - n
    ensures |Evict(f, n, index).slots| == |f.slots|
    ensures forall i :: 0 <= i < |f.slots| ==> Evict(f, n, index).slots[i] in {EMPTY, f.slots[i]}
    decreases n
  {
    if n > 0 {
      var oldest := f.queue[0];
      assert oldest in f.queue;
      var f1 := EvictOldest(f, index);
      assert f.queue == [oldest] + f1.queue;
      assert forall i <- f1.queue :: i in f.queue;
      forall i | 0 <= i < |f1.slots| && f1.slots[i] != EMPTY ensures i in f1.queue {
        assert f.slots[i] != EMPTY && i in f.queue && i != oldest;
      }
      EvictKeeps(f1, n - 1, oldest);
    }
  }

  lemma BurstFits(size: nat)
    requires size >= 2
    ensures 1 <= EvictionBurst(size) < size
  {}

  lemma MakeRoomKeeps(f: Flows)
    requires Covered(f) && |f.slots| >= 2
    ensures Covered(MakeRoom(f)) && !Full(MakeRoom(f)) && |MakeRoom(f).slots| == |f.slots|
    ensures forall i :: 0 <= i < |f.slots| ==> MakeRoom(f).slots[i] in {EMPTY, f.slots[i]}
  {
    if Full(f) {
      BurstFits(|f.slots|);
      EvictKeeps(f, EvictionBurst(|f.slots|), 0);
    }
  }

  /** An addition finds its place, is queued, and can be checked at once. */
  lemma AddSucceeds(f: Flows, id: nat)
    requires Covered(f) && |f.slots| >= 2 && id != EMPTY
    ensures MakeRoom(f).slots != [] && Place(MakeRoom(f).slots, id).Some?
    ensures Covered(Add(f, id)) && |Add(f, id).slots| == |f.slots|
    ensures |Add(f, id).queue| == |MakeRoom(f).queue| + 1
    ensures Check(Add(f, id), id)
    ensures forall i :: 0 <= i < |f.slots| ==> Add(f, id).slots[i] in {EMPTY, f.slots[i], id}
  {
    MakeRoomKeeps(f);
    var room := MakeRoom(f);
    var free := SomeEmptySlot(room);
    var size, home := |f.slots|, Home(id, |f.slots|);
    ProbeFinds(Stops(room.slots, id), size, home, free);
    var slots := Add(f, id).slots;
    ProbeStable(Stops(room.slots, id), Stops(slots, id), size, home, 0);
  }

  lemma {:induction false} AlwaysCovered(size: nat, ids: seq<nat>)
    requires size >= 2
    ensures Covered(Run(size, ids)) && |Run(size, ids).slots| == size
    ensures forall i :: 0 <= i < size ==> Run(size, ids).slots[i] == EMPTY || Run(size, ids).slots[i] in ids
  {
    if ids != [] {
      AlwaysCovered(size, ids[..|ids| - 1]);
      if ids[|ids| - 1] != EMPTY { AddSucceeds(Run(size, ids[..|ids| - 1]), ids[|ids| - 1]); }
    }
  }

  /** After any run: a positive check is right, and the id that was just added is found. */
  lemma CheckIsSound(size: nat, ids: seq<nat>, id: nat)
    requires size >= 2
    ensures |Run(size, ids).slots| == size
    ensures Check(Run(size, ids), id) ==> id in ids && id != EMPTY
    ensures ids != [] && id != EMPTY && id == ids[|ids| - 1] ==> Check(Run(size, ids), id)
  {
    AlwaysCovered(size, ids);
    if ids != [] && id != EMPTY && id == ids[|ids| - 1] {
      AlwaysCovered(size, ids[..|ids| - 1]);
      AddSucceeds(Run(size, ids[..|ids| - 1]), id);
    }
  }

  // ---- Before the first eviction ----

  function Ordinary(ids: seq<nat>): nat {
    if ids == [] then 0 else Ordinary(ids[..|ids| - 1]) + if ids[|ids| - 1] == EMPTY then 0 else 1
  }

  /** Entering an id keeps every other id where it was. */
  lemma EnterKeeps(f: Flows, id: nat, other: nat)
    requires f.slots != [] && Check(f, other) && id != EMPTY
    ensures Enter(f, id).slots != [] && Check(Enter(f, id), other)
  {
    var g := Enter(f, id);
    if other == id { assert g.slots == f.slots; }
    if other != id && Place(f.slots, id).Some? {
      ProbeStable(Stops(f.slots, other), Stops(g.slots, other), |f.slots|, Home(other, |f.slots|), 0);
    }
  }

  /** While fewer ids than slots have been added, the set is exact. */
  lemma {:induction false} ExactBeforeEviction(size: nat, ids: seq<nat>)
    requires size >= 2 && Ordinary(ids) < size
    ensures |Run(size, ids).slots| == size && |Run(size, ids).queue| == Ordinary(ids)
    ensures forall id :: Check(Run(size, ids), id) <==> id in ids && id != EMPTY
  {
    AlwaysCovered(size, ids);
    forall id ensures Check(Run(size, ids), id) ==> id in ids && id != EMPTY { CheckIsSound(size, ids, id); }
    if ids != [] {
      var last, f := ids[|ids| - 1], Run(size, ids[..|ids| - 1]);
      ExactBeforeEviction(size, ids[..|ids| - 1]);
      AlwaysCovered(size, ids[..|ids| - 1]);
      if last != EMPTY { AddSucceeds(f, last); }
      forall id | id in ids && id != EMPTY ensures Check(Run(size, ids), id) {
        if last != EMPTY && id != last { EnterKeeps(f, last, id); }
      }
    }
  }

  /** The addition that fills the last but one place of the queue is the last one without eviction. */
  lemma FirstEviction(size: nat, ids: seq<nat>)
    requires size >= 2 && Ordinary(ids) < size
    ensures Full(Run(size, ids)) <==> Ordinary(ids) == size - 1
  {
    ExactBeforeEviction(size, ids);
  }

  // ---- One addition, exactly ----

  /** The slots that an addition takes from the head of the queue. */
  function Taken(f: Flows): (taken: seq<nat>)
    requires Covered(f) && |f.slots| >= 2
    ensures Within(taken, f.slots)
  {
    BurstFits(|f.slots|);
    assert forall k :: 0 <= k < |f.queue| ==> f.queue[k] in f.queue;
    if Full(f) then f.queue[..EvictionBurst(|f.slots|)] else []
  }

  predicate Within(taken: seq<nat>, slots: seq<nat>) {
    forall k :: 0 <= k < |taken| ==> taken[k] < |slots|
  }

  /** What slot number k of `taken` holds when its turn comes: nothing, when it has been taken before. */
  function ContentAt(slots: seq<nat>, taken: seq<nat>, k: nat): nat
    requires k < |taken| && Within(taken, slots)
  {
    if taken[k] in taken[..k] then EMPTY else slots[taken[k]]
  }

  lemma ContentLater(slots: seq<nat>, taken: seq<nat>, k: nat)
    requires k + 1 < |taken| && Within(taken, slots)
    ensures Within(taken[1..], slots)
    ensures ContentAt(slots, taken, k + 1) == ContentAt(slots[taken[0] := EMPTY], taken[1..], k)
  {
    assert taken[..k + 1] == [taken[0]] + taken[1..][..k];
  }

  ghost predicate Wiped(slots: seq<nat>, taken: seq<nat>, mark: Mark)
    requires Within(taken, slots)
  {
    exists k :: 0 <= k < |taken| && mark in Marks(ContentAt(slots, taken, k))
  }

  lemma WipedStep(slots: seq<nat>, taken: seq<nat>, mark: Mark)
    requires taken != [] && Within(taken, slots)
    ensures Within(taken[1..], slots)
    ensures Wiped(slots, taken, mark)
        <==> mark in Marks(slots[taken[0]]) || Wiped(slots[taken[0] := EMPTY], taken[1..], mark)
  {
    hide Marks;
    assert ContentAt(slots, taken, 0) == slots[taken[0]];
    if Wiped(slots, taken, mark) {
      var k :| 0 <= k < |taken| && mark in Marks(ContentAt(slots, taken, k));
      if k > 0 {
        ContentLater(slots, taken, k - 1);
        assert mark in Marks(ContentAt(slots[taken[0] := EMPTY], taken[1..], k - 1));
      }
    }
    if Wiped(slots[taken[0] := EMPTY], taken[1..], mark) {
      var k :| 0 <= k < |taken| - 1 && mark in Marks(ContentAt(slots[taken[0] := EMPTY], taken[1..], k));
      ContentLater(slots, taken, k);
      assert mark in Marks(ContentAt(slots, taken, k + 1));
    }
  }

  lemma {:induction false} EvictExact(f: Flows, n: nat, index: nat)
    requires n <= |f.queue| && Within(f.queue, f.slots)
    ensures var g, taken := Evict(f, n, index), f.queue[..n];
            && |g.slots| == |f.slots|
            && (forall i :: 0 <= i < |f.slots| ==> g.slots[i] == if i in taken then EMPTY else f.slots[i])
            && forall mark :: mark in g.filter <==> mark in f.filter && !Wiped(f.slots, taken, mark)
    decreases n
  {
    if n > 0 {
      hide Marks, Wiped;
      var f1, q := EvictOldest(f, index), f.queue[0];
      assert f.queue[..n][1..] == f1.queue[..n - 1];
      assert f.queue[..n] == [q] + f1.queue[..n - 1];
      EvictExact(f1, n - 1, q);
      forall mark ensures Wiped(f.slots, f.queue[..n], mark)
                    <==> mark in Marks(f.slots[q]) || Wiped(f1.slots, f1.queue[..n - 1], mark)
      {
        WipedStep(f.slots, f.queue[..n], mark);
      }
    }
  }

  /** Where an addition puts its id. */
  function Target(f: Flows, x: nat): (i: nat)
    requires Covered(f) && |f.slots| >= 2 && x != EMPTY
    ensures i < |f.slots|
  {
    MakeRoomKeeps(f);
    AddSucceeds(f, x);
    Place(MakeRoom(f).slots, x).value
  }

  lemma RoomExact(f: Flows)
    requires Covered(f) && |f.slots| >= 2
    ensures var g, taken := MakeRoom(f), Taken(f);
            && |g.slots| == |f.slots|
            && (forall i :: 0 <= i < |f.slots| ==> g.slots[i] == if i in taken then EMPTY else f.slots[i])
            && forall mark :: mark in g.filter <==> mark in f.filter && !Wiped(f.slots, taken, mark)
  {
    hide Evict, Wiped;
    BurstFits(|f.slots|);
    assert forall k :: 0 <= k < |f.queue| ==> f.queue[k] in f.queue;
    if Full(f) { EvictExact(f, EvictionBurst(|f.slots|), 0); }
    else {
      forall mark ensures !Wiped(f.slots, [], mark) { NoneWiped(f.slots, mark); }
    }
  }

  lemma NoneWiped(slots: seq<nat>, mark: Mark)
    ensures !Wiped(slots, [], mark)
  {}

  lemma AddExact(f: Flows, x: nat)
    requires Covered(f) && |f.slots| >= 2 && x != EMPTY
    ensures var g, t := Add(f, x), Target(f, x);
            && |g.slots| == |f.slots|
            && (t in Taken(f) || f.slots[t] in {EMPTY, x})
            && (forall i :: 0 <= i < |f.slots| ==>
                  g.slots[i] == if i == t then x else if i in Taken(f) then EMPTY else f.slots[i])
            && forall mark :: mark in g.filter
                         <==> mark in Marks(x) || (mark in f.filter && !Wiped(f.slots, Taken(f), mark))
  {
    AddSucceeds(f, x);
    RoomExact(f);
    hide MakeRoom, Taken, Covered, Wiped, Marks;
  }

  /** Slot number c of the probe run of an id. */
  function RunSlot(slots: seq<nat>, id: nat, c: nat): (i: nat)
    requires slots != []
    ensures i < |slots|
  {
    Way(|slots|, Home(id, |slots|), c)
  }

  /** Slot number c of its probe run holds the id, and no slot before it is empty. */
  ghost predicate FoundAt(slots: seq<nat>, id: nat, c: nat)
    requires slots != []
  {
    slots[RunSlot(slots, id, c)] == id && forall d :: 0 <= d < c ==> slots[RunSlot(slots, id, d)] != EMPTY
  }

  lemma StoredIff(slots: seq<nat>, id: nat)
    requires slots != [] && id != EMPTY
    ensures Stored(slots, id) <==> exists c :: 0 <= c < |slots| && FoundAt(slots, id, c)
  {
    hide Home;
    var stops, size, home := Stops(slots, id), |slots|, Home(id, |slots|);
    if Stored(slots, id) {
      var c := ProbeFirst(stops, size, home, 0);
      forall d | 0 <= d < c ensures slots[RunSlot(slots, id, d)] != EMPTY { assert !stops(Way(size, home, d)); }
      assert FoundAt(slots, id, c);
    }
    if c :| 0 <= c < size && FoundAt(slots, id, c) {
      assert stops(RunSlot(slots, id, c));
      ProbeFinds(stops, size, home, RunSlot(slots, id, c));
      var b := ProbeFirst(stops, size, home, 0);
      if c < b { assert false; }
      assert b <= c && slots[RunSlot(slots, id, b)] == id;
    }
  }

  /** A slot that is occupied after x has been added: x goes there, or it was occupied and is not taken. */
  predicate Occupied(f: Flows, x: nat, i: nat)
    requires Covered(f) && |f.slots| >= 2 && x != EMPTY && i < |f.slots|
  {
    i == Target(f, x) || (i !in Taken(f) && f.slots[i] != EMPTY)
  }

  /** Slot number c of its probe run holds the id and is not taken, and no slot before it ends up empty. */
  ghost predicate StaysAt(f: Flows, id: nat, x: nat, c: nat)
    requires Covered(f) && |f.slots| >= 2 && x != EMPTY
  {
    && f.slots[RunSlot(f.slots, id, c)] == id && RunSlot(f.slots, id, c) !in Taken(f)
    && forall d :: 0 <= d < c ==> Occupied(f, x, RunSlot(f.slots, id, d))
  }

  lemma StaysIff(f: Flows, id: nat, x: nat, c: nat)
    requires Covered(f) && |f.slots| >= 2 && x != EMPTY && id != x && id != EMPTY
    ensures |Add(f, x).slots| == |f.slots|
    ensures FoundAt(Add(f, x).slots, id, c) <==> StaysAt(f, id, x, c)
  {
    AddExact(f, x);
    hide Add, Taken, Target, Covered, Home, Wiped;
    var g := Add(f, x);
    forall d: nat ensures RunSlot(g.slots, id, d) == RunSlot(f.slots, id, d) {}
    forall d | 0 <= d < c
      ensures Occupied(f, x, RunSlot(f.slots, id, d)) <==> g.slots[RunSlot(g.slots, id, d)] != EMPTY {}
  }

  /**
    * One addition to any covered state: an id that could be seen before can still be seen if and only if a slot that
    * holds it is not taken and no emptied slot that x does not refill lies before that slot on the probe run, and every
    * mark that the id shares with the content of a taken slot is a mark of x too.
    */
  lemma StaysVisibleIff(f: Flows, id: nat, x: nat)
    requires Covered(f) && |f.slots| >= 2 && x != EMPTY && id != x && Check(f, id)
    ensures |Add(f, x).slots| == |f.slots|
    ensures Check(Add(f, x), id)
        <==> (exists c :: 0 <= c < |f.slots| && StaysAt(f, id, x, c))
             && forall mark <- Marks(id) :: Wiped(f.slots, Taken(f), mark) ==> mark in Marks(x)
  {
    AddExact(f, x);
    assert id != EMPTY;
    StoredIff(Add(f, x).slots, id);
    hide Marks, Wiped, Taken, Stored, Add, Target, Covered, FoundAt, StaysAt;
    forall c: nat ensures FoundAt(Add(f, x).slots, id, c) <==> StaysAt(f, id, x, c) { StaysIff(f, id, x, c); }
  }

  lemma MarkOf(id: nat, mark: Mark)
    ensures mark in Marks(id) <==> mark.0 < 8 && mark.1 == ByteOf(id, mark.0)
  {}

  const BIG: nat := 0x0303_0303_0303_0303

  lemma FirstAdded()
    ensures Run(3, [1]).slots == [EMPTY, 1, EMPTY] && Run(3, [1]).queue == [1]
  {
    hide Marks, Evict, EvictionBurst;
    assert [1][..0] == [] && Home(1, 3) == 1;
    assert Run(3, []).slots == [EMPTY, EMPTY, EMPTY];
  }

  lemma SecondAdded(f: Flows)
    requires f.slots == [EMPTY, 1, EMPTY] && f.queue == [1]
    ensures Add(f, 2).slots == [2, 1, EMPTY] && Add(f, 2).queue == [1, 0]
  {
    hide Marks, Evict, EvictionBurst;
    assert Home(2, 3) == 0 && MakeRoom(f) == f;
  }

  lemma TwoAdded()
    ensures var f := Run(3, [1, 2]);
            f.slots == [2, 1, EMPTY] && f.queue == [1, 0]
  {
    hide Add;
    assert [1, 2][..1] == [1];
    FirstAdded();
    SecondAdded(Run(3, [1]));
  }

  lemma ThirdAdded(f: Flows)
    requires f.slots == [2, 1, EMPTY] && f.queue == [1, 0]
    ensures Add(f, BIG) == Flows([2, EMPTY, BIG], [0, 2], f.filter - Marks(1) + Marks(BIG))
  {
    assert Home(BIG, 3) == 2;
    var room := MakeRoom(f);
    assert room == Evict(f, 1, 0) == EvictOldest(f, 0);
    assert room == Flows([2, EMPTY, EMPTY], [0], f.filter - Marks(1));
  }

  /**
    * After an eviction the set may deny an id that it still stores: removing id 1 from the filter also removes the zero
    * bytes it shares with id 2.
    */
  lemma StoredButDenied()
    ensures var f := Run(3, [1, 2, BIG]);
            f.slots != [] && Stored(f.slots, 2) && !Check(f, 2)
  {
    hide Marks, MakeRoom, Enter;
    TwoAdded();
    assert [1, 2, BIG][..2] == [1, 2];
    var before := Run(3, [1, 2]);
    ThirdAdded(before);
    var f := Run(3, [1, 2, BIG]);
    assert Home(2, 3) == 0;
    var mark := (1, 0);
    assert ByteOf(1, 1) == 0 && ByteOf(2, 1) == 0 && ByteOf(BIG, 1) == 3;
    MarkOf(1, mark);
    MarkOf(2, mark);
    MarkOf(BIG, mark);
  }
}
