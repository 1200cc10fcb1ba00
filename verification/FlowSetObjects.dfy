/** The table, the ring of slot numbers and the byte filter, each updated in place, and the set built from them. */
module FlowSetObjects {
  import opened Wrappers
  import opened Modular
  import opened Probing
  import opened FlowSet

  // ---- Filter ----

  predicate HasBit(b: bv8, j: nat)
    requires j < 8
  {
    b & (1 << j) != 0
  }

  function WithBit(b: bv8, j: nat): bv8
    requires j < 8
  {
    b | (1 << j)
  }

  function WithoutBit(b: bv8, j: nat): bv8
    requires j < 8
  {
    b & !(1 << j)
  }

  lemma OneBit(b: bv8, j: nat, k: nat)
    requires j < 8 && k < 8
    ensures HasBit(WithBit(b, j), k) <==> k == j || HasBit(b, k)
    ensures HasBit(WithoutBit(b, j), k) <==> k != j && HasBit(b, k)
  {
    assert j in {0, 1, 2, 3, 4, 5, 6, 7} && k in {0, 1, 2, 3, 4, 5, 6, 7};
  }

  /** Different marks have different bits. */
  lemma BitsApart(p: nat, v: nat, q: nat, w: nat)
    ensures 32 * p + v / 8 == 32 * q + w / 8 && v % 8 == w % 8 && v < 256 && w < 256 ==> (p, v) == (q, w)
  {}

  class Filter {
    /** For each of the eight byte positions of an id, 256 bits in 32 bytes. */
    const data: array<bv8>

    constructor ()
      ensures Valid() && View() == {} && fresh(data)
    {
      data := new bv8[256](_ => 0);
      new;
      assert forall j | 0 <= j < 8 :: !HasBit(0, j);
    }

    ghost predicate Valid() {
      data.Length == 256
    }

    ghost predicate Has(m: Mark)
      requires Valid()
      reads data
    {
      m.0 < 8 && m.1 < 256 && HasBit(data[32 * m.0 + m.1 / 8], m.1 % 8)
    }

    ghost function View(): set<Mark>
      requires Valid()
      reads data
    {
      set p, v | 0 <= p < 8 && 0 <= v < 256 && Has((p, v)) :: (p, v)
    }

    method SetBit(p: nat, v: nat)
      requires Valid() && p < 8 && v < 256
      modifies data
      ensures View() == old(View()) + {(p, v)}
    {
      var i := 32 * p + v / 8;
      data[i] := WithBit(data[i], v % 8);
      hide HasBit, WithBit;
      forall q, w | 0 <= q < 8 && 0 <= w < 256 ensures Has((q, w)) <==> (q, w) == (p, v) || old(Has((q, w))) {
        BitsApart(p, v, q, w);
        if 32 * q + w / 8 == i { OneBit(old(data[i]), v % 8, w % 8); }
      }
    }

    method ClearBit(p: nat, v: nat)
      requires Valid() && p < 8 && v < 256
      modifies data
      ensures View() == old(View()) - {(p, v)}
    {
      var i := 32 * p + v / 8;
      data[i] := WithoutBit(data[i], v % 8);
      hide HasBit, WithoutBit;
      forall q, w | 0 <= q < 8 && 0 <= w < 256 ensures Has((q, w)) <==> (q, w) != (p, v) && old(Has((q, w))) {
        BitsApart(p, v, q, w);
        if 32 * q + w / 8 == i { OneBit(old(data[i]), v % 8, w % 8); }
      }
    }

    method Add(id: nat)
      requires Valid()
      modifies data
      ensures View() == old(View()) + Marks(id)
    {
      for p := 0 to 8
        invariant View() == old(View()) + MarksBelow(id, p)
      {
        SetBit(p, ByteOf(id, p));
      }
    }

    method Remove(id: nat)
      requires Valid()
      modifies data
      ensures View() == old(View()) - Marks(id)
    {
      for p := 0 to 8
        invariant View() == old(View()) - MarksBelow(id, p)
      {
        ClearBit(p, ByteOf(id, p));
      }
    }

    method Check(id: nat) returns (all: bool)
      requires Valid()
      ensures all <==> Marks(id) <= View()
    {
      for p := 0 to 8
        invariant MarksBelow(id, p) <= View()
      {
        var v := ByteOf(id, p);
        if data[32 * p + v / 8] & (1 << (v % 8)) == 0 {
          assert (p, v) in Marks(id) && (p, v) !in View();
          return false;
        }
        assert Has((p, v));
      }
      all := true;
    }
  }

  ghost function MarksBelow(id: nat, n: nat): set<Mark>
    requires n <= 8
  {
    set p | 0 <= p < n :: (p, ByteOf(id, p))
  }

  // ---- Ring of slot numbers ----

  class SlotRing {
    var head: nat
    var tail: nat
    const buffer: array<nat>
    ghost var queue: seq<nat>

    ghost predicate Valid()
      reads this, buffer
    {
      && |queue| < buffer.Length && tail < buffer.Length
      && head == (tail + |queue|) % buffer.Length
      && forall k :: 0 <= k < |queue| ==> buffer[(tail + k) % buffer.Length] == queue[k]
    }

    constructor (size: nat)
      requires size > 0
      ensures Valid() && queue == [] && buffer.Length == size && fresh(buffer)
    {
      head, tail, queue := 0, 0, [];
      buffer := new nat[size](_ => 0);
    }

    lemma FullTest()
      requires Valid()
      ensures (head + 1) % buffer.Length == tail <==> |queue| + 1 == buffer.Length
    {
      var n := buffer.Length;
      ModPlus(tail + |queue|, 1, n);
      ModFrom(tail, 0, tail, n);
      if |queue| + 1 == n { ModFrom(tail + n, 1, tail, n); }
      else { if (tail + |queue| + 1) % n == tail { ModEqual(tail, tail + |queue| + 1, n); } }
    }

    method IsFull() returns (full: bool)
      requires Valid()
      ensures full <==> |queue| + 1 == buffer.Length
    {
      FullTest();
      full := (head + 1) % buffer.Length == tail;
    }

    method Enqueue(slot: nat) returns (ok: bool)
      requires Valid()
      modifies this, buffer
      ensures Valid() && ok == (|old(queue)| + 1 < buffer.Length)
      ensures queue == if ok then old(queue) + [slot] else old(queue)
    {
      FullTest();
      var n := buffer.Length;
      var next := (head + 1) % n;
      if next == tail { return false; }
      ModPlus(tail + |queue|, 1, n);
      forall k {:trigger queue[k]} | 0 <= k < |queue| ensures (tail + k) % n != head {
        if (tail + k) % n == head { ModEqual(tail + k, tail + |queue|, n); }
      }
      buffer[head] := slot;
      head, queue := next, queue + [slot];
      ok := true;
    }

    method Dequeue(slot: nat) returns (next: nat)
      requires Valid()
      modifies this
      ensures Valid()
      ensures queue == if old(queue) == [] then [] else old(queue)[1..]
      ensures next == if old(queue) == [] then slot else old(queue)[0]
    {
      var n := buffer.Length;
      ModFrom(tail, 0, tail, n);
      if queue != [] && head == tail { ModEqual(tail, tail + |queue|, n); }
      if head == tail { return slot; }
      next := buffer[tail];
      assert buffer[(tail + 0) % n] == queue[0];
      forall k {:trigger queue[k + 1]} | 0 <= k < |queue| - 1 ensures buffer[((tail + 1) % n + k) % n] == queue[k + 1] {
        ModPlus(tail + 1, k, n);
        assert buffer[(tail + (k + 1)) % n] == queue[k + 1];
      }
      ModPlus(tail + 1, |queue| - 1, n);
      tail, queue := (tail + 1) % n, queue[1..];
    }
  }

  // ---- Table ----

  class SlotTable {
    const data: array<nat>

    constructor (size: nat)
      ensures data.Length == size && fresh(data) && forall i :: 0 <= i < size ==> data[i] == EMPTY
    {
      data := new nat[size](_ => EMPTY);
    }

    /** The loop that both operations share. */
    method Search(id: nat) returns (slot: Option<nat>)
      requires data.Length > 0
      ensures slot == Place(data[..], id)
    {
      var n := data.Length;
      var index, counter := Home(id, n), 0;
      ModFrom(index, 0, index, n);
      while data[index] != EMPTY && data[index] != id
        invariant counter < n && index == (Home(id, n) + counter) % n
        invariant Probe(Stops(data[..], id), n, Home(id, n), counter) == Place(data[..], id)
        decreases n - counter
      {
        counter := counter + 1;
        if counter >= n { return None; }
        ModPlus(Home(id, n) + counter - 1, 1, n);
        index := (index + 1) % n;
      }
      slot := Some(index);
    }

    method Add(id: nat) returns (slot: Option<nat>)
      requires data.Length > 0 && id != EMPTY
      modifies data
      ensures slot == old(Place(data[..], id))
      ensures data[..] == if slot.None? then old(data[..]) else old(data[..])[slot.value := id]
    {
      slot := Search(id);
      if slot.Some? { data[slot.value] := id; }
    }

    method Check(id: nat) returns (found: bool)
      requires data.Length > 0
      ensures found <==> Stored(data[..], id)
    {
      if id == EMPTY { return false; }
      var slot := Search(id);
      found := slot.Some? && data[slot.value] == id;
    }

    method EmptySlot(slot: nat)
      modifies data
      ensures data[..] == if slot < data.Length then old(data[..])[slot := EMPTY] else old(data[..])
    {
      if slot < data.Length { data[slot] := EMPTY; }
    }
  }

  // ---- The set ----

  class FlowSetEx {
    const table: SlotTable
    const ring: SlotRing
    const filter: Filter

    ghost predicate Valid()
      reads this, ring, ring.buffer, table.data, filter.data
    {
      && ring.Valid() && filter.Valid() && table.data != ring.buffer
      && (filter.data as object) != table.data && (filter.data as object) != ring.buffer
      && ring.buffer.Length == table.data.Length
      && forall i <- ring.queue :: i < table.data.Length
    }

    ghost function View(): Flows
      requires filter.Valid()
      reads ring, table.data, filter.data
    {
      Flows(table.data[..], ring.queue, filter.View())
    }

    constructor (size: nat)
      requires size >= 2
      ensures Valid() && View() == Run(size, [])
    {
      table := new SlotTable(size);
      ring := new SlotRing(size);
      filter := new Filter();
      new;
      assert table.data[..] == seq(size, _ => EMPTY);
    }

    method EvictOldestInPlace(index: nat) returns (slot: nat)
      requires Valid() && index < table.data.Length
      modifies ring, table.data, filter.data
      ensures Valid() && slot < table.data.Length
      ensures slot == old(Oldest(View(), index)) && View() == old(EvictOldest(View(), index))
    {
      slot := ring.Dequeue(index);
      assert old(ring.queue) != [] ==> slot in old(ring.queue);
      assert forall i <- ring.queue :: i in old(ring.queue);
      var id := table.data[slot];
      filter.Remove(id);
      table.EmptySlot(slot);
    }

    method MakeRoomInPlace()
      requires Valid()
      modifies ring, table.data, filter.data
      ensures Valid() && View() == old(MakeRoom(View()))
    {
      var full := ring.IsFull();
      if !full { return; }
      var size := ring.buffer.Length;
      var index: nat, left: nat := 0, if size > 16 then size / 16 else 1;
      while left > 0
        invariant Valid() && index < table.data.Length
        invariant Evict(View(), left, index) == old(MakeRoom(View()))
      {
        left := left - 1;
        index := EvictOldestInPlace(index);
      }
    }

    method Add(id: nat) returns (ok: bool)
      requires Valid()
      modifies ring, ring.buffer, table.data, filter.data
      ensures Valid() && View() == old(FlowSet.Add(View(), id)) && ok == (id != EMPTY)
    {
      if id == EMPTY { return false; }
      MakeRoomInPlace();
      var slot := table.Add(id);
      if slot.Some? {
        var queued := ring.Enqueue(slot.value);
        filter.Add(id);
      }
      ok := true;
    }

    method Check(id: nat) returns (found: bool)
      requires Valid() && table.data.Length > 0
      ensures found <==> FlowSet.Check(View(), id)
    {
      var maybe := filter.Check(id);
      if !maybe { return false; }
      found := table.Check(id);
    }
  }
}
