/** Linear probing: the search for the first slot that stops it, from a home slot once around the table. */
module Probing {
  import opened Wrappers
  import opened Modular

  function Probe(stops: nat -> bool, size: nat, home: nat, k: nat): (slot: Option<nat>)
    requires size > 0
    ensures slot.Some? ==> slot.value < size && stops(slot.value)
    decreases size - k
  {
    if k >= size then None
    else if stops((home + k) % size) then Some((home + k) % size)
    else Probe(stops, size, home, k + 1)
  }

  lemma {:induction false} NoneStops(stops: nat -> bool, size: nat, home: nat, k: nat, c: nat)
    requires size > 0 && Probe(stops, size, home, k).None? && k <= c < size
    ensures !stops((home + c) % size)
    decreases size - k
  {
    if k < c { NoneStops(stops, size, home, k + 1, c); }
  }

  /** Every slot lies on the way around. */
  lemma Reaches(size: nat, home: nat, i: nat) returns (c: nat)
    requires i < size
    ensures c < size && (home + c) % size == i
  {
    var h := home % size;
    c := if i >= h then i - h else i + size - h;
    ModPlus(home, c, size);
    if i >= h { ModFrom(i, 0, i, size); } else { ModFrom(i + size, 1, i, size); }
  }

  /** A search fails only when no slot stops it. */
  lemma ProbeFinds(stops: nat -> bool, size: nat, home: nat, i: nat)
    requires i < size && stops(i)
    ensures Probe(stops, size, home, 0).Some?
  {
    var c := Reaches(size, home, i);
    if Probe(stops, size, home, 0).None? { NoneStops(stops, size, home, 0, c); }
  }

  /** Fewer stops do not disturb a search that ends at a slot that still stops it. */
  lemma {:induction false} ProbeStable(stops: nat -> bool, fewer: nat -> bool, size: nat, home: nat, k: nat)
    requires size > 0 && Probe(stops, size, home, k).Some?
    requires fewer(Probe(stops, size, home, k).value)
    requires forall i :: 0 <= i < size && fewer(i) ==> stops(i)
    ensures Probe(fewer, size, home, k) == Probe(stops, size, home, k)
    decreases size - k
  {
    if !stops((home + k) % size) { ProbeStable(stops, fewer, size, home, k + 1); }
  }

  /** Slot number k on the way around. */
  function Way(size: nat, home: nat, k: nat): (slot: nat)
    requires size > 0
    ensures slot < size
  {
    (home + k) % size
  }

  /** The search ends at the first slot on its way that stops it. */
  lemma {:induction false} ProbeFirst(stops: nat -> bool, size: nat, home: nat, k: nat) returns (c: nat)
    requires size > 0 && Probe(stops, size, home, k).Some?
    ensures k <= c < size && Probe(stops, size, home, k) == Some(Way(size, home, c))
    ensures forall d :: k <= d < c ==> !stops(Way(size, home, d))
    decreases size - k
  {
    c := k;
    if !stops((home + k) % size) { c := ProbeFirst(stops, size, home, k + 1); }
  }
}
