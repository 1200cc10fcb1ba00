/** The open-addressing table from 64-bit keys to data, as a map to what was added first for each key. */
module HashTable {
  import opened Wrappers
  import opened Modular
  import opened Probing

  /** Data is an opaque pointer; None is NULL and marks the slot as free. */
  datatype Item = Item(key: nat, data: Option<nat>)

  function Free(items: seq<Item>): nat -> bool {
    (i: nat) => i < |items| && items[i].data.None?
  }

  function Stops(items: seq<Item>, key: nat): nat -> bool {
    (i: nat) => i < |items| && (items[i].data.None? || items[i].key == key)
  }

  function Slot(items: seq<Item>, key: nat): Option<nat>
    requires items != []
  {
    Probe(Free(items), |items|, key % |items|, 0)
  }

  function Add(items: seq<Item>, key: nat, data: Option<nat>): seq<Item>
    requires items != []
  {
    match Slot(items, key)
    case None => items
    case Some(i) => items[i := Item(key, data)]
  }

  function Search(items: seq<Item>, key: nat): Option<nat>
    requires items != []
  {
    match Probe(Stops(items, key), |items|, key % |items|, 0)
    case None => None
    case Some(i) => items[i].data
  }

  function Run(size: nat, adds: seq<Item>): (items: seq<Item>)
    requires size > 0
    ensures |items| == size
  {
    if adds == [] then seq(size, _ => Item(0, None))
    else
      var last := adds[|adds| - 1];
      Add(Run(size, adds[..|adds| - 1]), last.key, last.data)
  }

  /** The additions that got a slot: those with data, until the table is full. */
  function Accepted(size: nat, adds: seq<Item>): (kept: seq<Item>)
    ensures |kept| <= size
  {
    if adds == [] then []
    else
      var before, last := Accepted(size, adds[..|adds| - 1]), adds[|adds| - 1];
      if last.data.Some? && |before| < size then before + [last] else before
  }

  function FirstFor(adds: seq<Item>, key: nat): Option<nat> {
    if adds == [] then None
    else
      var earlier, last := FirstFor(adds[..|adds| - 1], key), adds[|adds| - 1];
      if earlier.None? && last.key == key then last.data else earlier
  }

  // ---- Searches ----

  ghost predicate Holds(items: seq<Item>, key: nat, j: nat) {
    j < |items| && items[j].data.Some? && items[j].key == key
  }

  /** No gap before a stored key: the search for it does not stop early. */
  ghost predicate Findable(items: seq<Item>)
    requires items != []
  {
    forall j: nat :: j < |items| && items[j].data.Some? ==> Search(items, items[j].key).Some?
  }

  lemma AbsentKey(items: seq<Item>, key: nat)
    requires items != [] && Search(items, key).None? && Findable(items)
    ensures forall j: nat :: j < |items| && items[j].data.Some? ==> items[j].key != key
  {}

  /** Taking a free slot for a key leaves the search for every other key as it was. */
  lemma OtherKey(items: seq<Item>, key: nat, data: Option<nat>, other: nat)
    requires items != [] && Findable(items) && other != key
    ensures Search(Add(items, key, data), other) == Search(items, other)
  {
    var after, size, home := Add(items, key, data), |items|, other % |items|;
    if Slot(items, key).Some? {
      var i := Slot(items, key).value;
      if Search(items, other).Some? {
        if data.Some? { ProbeStable(Stops(items, other), Stops(after, other), size, home, 0); }
        else { SameStops(items, after, other); }
      } else {
        AbsentKey(items, other);
        assert forall j: nat :: j < size && after[j].data.Some? ==> after[j].key != other;
      }
    }
  }

  /** NULL data leaves the free slots free. */
  lemma SameStops(items: seq<Item>, after: seq<Item>, key: nat)
    requires items != [] && |after| == |items|
    requires Search(items, key).Some?
    requires forall i :: 0 <= i < |items| ==> after[i] == items[i] || (after[i].data.None? && items[i].data.None?)
    ensures Search(after, key) == Search(items, key)
  {
    ProbeStable(Stops(items, key), Stops(after, key), |items|, key % |items|, 0);
  }

  /** The key itself is found from now on, with the data it had if it had any. */
  lemma SameKey(items: seq<Item>, key: nat, data: Option<nat>)
    requires items != [] && Findable(items)
    requires data.Some? && Slot(items, key).Some?
    ensures Search(Add(items, key, data), key) == if Search(items, key).Some? then Search(items, key) else data
  {
    var after, size, home := Add(items, key, data), |items|, key % |items|;
    var i := Slot(items, key).value;
    if Search(items, key).None? {
      AbsentKey(items, key);
      ProbeFinds(Stops(items, key), size, home, i);
      ProbeStable(Stops(items, key), Free(items), size, home, 0);
      assert Probe(Stops(items, key), size, home, 0) == Some(i);
    }
    ProbeStable(Stops(items, key), Stops(after, key), size, home, 0);
  }

  lemma AddKeepsFindable(items: seq<Item>, key: nat, data: Option<nat>)
    requires items != [] && Findable(items)
    ensures Findable(Add(items, key, data))
  {
    var after := Add(items, key, data);
    forall j: nat | j < |after| && after[j].data.Some? ensures Search(after, after[j].key).Some? {
      if after[j].key != key { OtherKey(items, key, data, after[j].key); }
      else if Slot(items, key).Some? {
        if data.Some? { SameKey(items, key, data); } else { SameStops(items, after, key); }
      }
    }
  }

  // ---- Room ----

  function Occupied(items: seq<Item>): (n: nat)
    ensures n <= |items|
  {
    if items == [] then 0 else Occupied(items[1..]) + if items[0].data.Some? then 1 else 0
  }

  lemma {:induction false} OccupiedUpdate(items: seq<Item>, i: nat, item: Item)
    requires i < |items|
    ensures Occupied(items[i := item]) ==
            Occupied(items) - (if items[i].data.Some? then 1 else 0) + if item.data.Some? then 1 else 0
  {
    if i == 0 { assert items[i := item][1..] == items[1..]; }
    else {
      OccupiedUpdate(items[1..], i - 1, item);
      assert items[i := item][1..] == items[1..][i - 1 := item];
    }
  }

  lemma {:induction false} RoomMeansFree(items: seq<Item>) returns (i: nat)
    requires Occupied(items) < |items|
    ensures i < |items| && items[i].data.None?
  {
    if items[0].data.None? { i := 0; }
    else {
      var j := RoomMeansFree(items[1..]);
      i := j + 1;
    }
  }

  lemma {:induction false} FreeMeansRoom(items: seq<Item>, i: nat)
    requires i < |items| && items[i].data.None?
    ensures Occupied(items) < |items|
  {
    if i > 0 { FreeMeansRoom(items[1..], i - 1); }
  }

  /** An addition fails exactly when every slot is taken. */
  lemma SlotIffRoom(items: seq<Item>, key: nat)
    requires items != []
    ensures Slot(items, key).Some? <==> Occupied(items) < |items|
  {
    if Occupied(items) < |items| {
      var i := RoomMeansFree(items);
      ProbeFinds(Free(items), |items|, key % |items|, i);
    }
    if Slot(items, key).Some? { FreeMeansRoom(items, Slot(items, key).value); }
  }

  lemma {:induction false} NothingOccupied(n: nat)
    ensures Occupied(seq(n, _ => Item(0, None))) == 0
  {
    if n > 0 {
      NothingOccupied(n - 1);
      assert seq(n, _ => Item(0, None))[1..] == seq(n - 1, _ => Item(0, None));
    }
  }

  /**
    * After any additions the table is the map to the first data accepted for each key, and it has as many slots taken
    * as there were accepted additions.
    */
  lemma {:induction false} TableIsMap(size: nat, adds: seq<Item>, key: nat)
    requires size > 0
    ensures Search(Run(size, adds), key) == FirstFor(Accepted(size, adds), key)
    ensures Occupied(Run(size, adds)) == |Accepted(size, adds)|
    ensures Findable(Run(size, adds))
  {
    if adds == [] { NothingOccupied(size); }
    else {
      var before, last := adds[..|adds| - 1], adds[|adds| - 1];
      var items, kept := Run(size, before), Accepted(size, before);
      TableIsMap(size, before, key);
      SlotIffRoom(items, last.key);
      AddKeepsFindable(items, last.key, last.data);
      if Slot(items, last.key).Some? {
        OccupiedUpdate(items, Slot(items, last.key).value, last);
        assert last.data.Some? ==> (kept + [last])[..|kept|] == kept;
        StepIsMap(items, last, key);
      }
    }
  }

  lemma StepIsMap(items: seq<Item>, last: Item, key: nat)
    requires items != [] && Findable(items) && Slot(items, last.key).Some?
    ensures Search(Add(items, last.key, last.data), key) ==
            if last.data.Some? && Search(items, key).None? && last.key == key then last.data else Search(items, key)
  {
    if key != last.key { OtherKey(items, last.key, last.data, key); }
    else if last.data.Some? { SameKey(items, key, last.data); }
    else {
      var after := Add(items, key, None);
      if Search(items, key).Some? { SameStops(items, after, key); }
      else {
        AbsentKey(items, key);
        assert forall j: nat :: j < |after| && after[j].data.Some? ==> after[j].key != key;
      }
    }
  }

  // ---- In place ----

  class Table {
    const items: array<Item>

    constructor (size: nat)
      requires size > 0
      ensures items[..] == Run(size, []) && fresh(items)
    {
      items := new Item[size](_ => Item(0, None));
      new;
      assert items[..] == seq(size, _ => Item(0, None));
    }

    method Insert(key: nat, data: Option<nat>) returns (ok: bool)
      requires items.Length > 0
      modifies items
      ensures items[..] == old(Add(items[..], key, data))
      ensures ok <==> old(Occupied(items[..])) < items.Length
    {
      var n := items.Length;
      var index, counter := key % n, 0;
      ghost var was := items[..];
      SlotIffRoom(was, key);
      ModFrom(index, 0, index, n);
      while items[index].data.Some?
        invariant counter < n && index == (key % n + counter) % n && items[..] == was
        invariant Probe(Free(was), n, key % n, counter) == Slot(was, key)
        decreases n - counter
      {
        counter := counter + 1;
        if counter >= n { return false; }
        ModPlus(key % n + counter - 1, 1, n);
        index := (index + 1) % n;
      }
      items[index] := Item(key, data);
      ok := true;
    }

    method Find(key: nat) returns (data: Option<nat>)
      requires items.Length > 0
      ensures data == Search(items[..], key)
    {
      var n := items.Length;
      var index, counter := key % n, 0;
      ModFrom(index, 0, index, n);
      while items[index].data.Some? && items[index].key != key
        invariant counter < n && index == (key % n + counter) % n
        invariant Probe(Stops(items[..], key), n, key % n, counter) == Probe(Stops(items[..], key), n, key % n, 0)
        decreases n - counter
      {
        counter := counter + 1;
        if counter >= n { return None; }
        ModPlus(key % n + counter - 1, 1, n);
        index := (index + 1) % n;
      }
      data := items[index].data;
    }
  }
}
