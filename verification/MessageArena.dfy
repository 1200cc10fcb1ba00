/** How a message stores the data of its elements one behind the other in one buffer. */
module MessageArena {
  import opened Wrappers

  /** In front of the data of an element: count, size and address, as the reference-counting functions expect. */
  const HEADER: nat := 16

  const TCP: nat := 354

  /** Where an element's data begins and how long it is. */
  datatype Element = Element(att: (nat, nat), offset: nat, length: nat)

  datatype Outcome = Continue | Overflow

  /** The values that the numeric flags of TCP have when they are not set count as absent. */
  predicate IsUnsetTcpFlag(att: (nat, nat), numericZero: bool) {
    att.0 == TCP && numericZero && 6 <= att.1 <= 14
  }

  function Bytes(n: nat, k: nat): (b: seq<byte>)
    ensures |b| == k
  {
    if k == 0 then [] else [(n % 256) as byte] + Bytes(n / 256, k - 1)
  }

  function Header(size: nat, address: nat): (b: seq<byte>)
    ensures |b| == HEADER
  {
    Bytes(1, 4) + Bytes(size, 4) + Bytes(address, 8)
  }

  /** The region of an element: its header, its data, and the closing zero. */
  ghost predicate ElementIn(s: seq<byte>, used: nat, e: Element) {
    && HEADER <= e.offset && e.offset + e.length + 1 <= used <= |s|
    && s[e.offset - HEADER..e.offset - 12] == Bytes(1, 4)
    && s[e.offset - 12..e.offset - 8] == Bytes(e.length, 4)
    && s[e.offset + e.length] == 0
  }

  ghost predicate Apart(e: Element, f: Element) {
    e.offset + e.length + 1 + HEADER <= f.offset || f.offset + f.length + 1 + HEADER <= e.offset
  }

  /** Bytes behind the used part do not matter to the elements. */
  lemma ElementStays(s: seq<byte>, t: seq<byte>, used: nat, now: nat, e: Element)
    requires ElementIn(s, used, e) && used <= now <= |t| && |s| == |t| && s[..used] == t[..used]
    ensures ElementIn(t, now, e) && e.offset + e.length + 1 <= used
    ensures t[e.offset..e.offset + e.length] == s[e.offset..e.offset + e.length]
  {
    var size := used;
    assert forall k :: 0 <= k < size ==> s[..size][k] == t[..size][k];
  }

  /** The bytes of one element as they are laid out. */
  function Layout(bytes: seq<byte>, address: nat): seq<byte> {
    Header(|bytes|, address) + bytes + [0]
  }

  lemma SubSlice(s: seq<byte>, at: nat, n: nat, from: nat, to: nat)
    requires from <= to <= n && at + n <= |s|
    ensures s[at..at + n][from..to] == s[at + from..at + to]
  {
    var all := s[at..at + n];
    forall k | 0 <= k < to - from ensures all[from..to][k] == s[at + from..at + to][k] {
      assert all[from + k] == s[at + from + k];
    }
    assert |all[from..to]| == |s[at + from..at + to]|;
  }

  lemma LaidOut(s: seq<byte>, at: nat, att: (nat, nat), bytes: seq<byte>, address: nat)
    requires at + HEADER + |bytes| + 1 <= |s|
    requires s[at..at + HEADER + |bytes| + 1] == Layout(bytes, address)
    ensures var e := Element(att, at + HEADER, |bytes|);
            && ElementIn(s, at + HEADER + |bytes| + 1, e)
            && s[e.offset..e.offset + e.length] == bytes
  {
    var all, n := Layout(bytes, address), HEADER + |bytes| + 1;
    var head := Header(|bytes|, address);
    assert head[..4] == Bytes(1, 4) && head[4..8] == Bytes(|bytes|, 4);
    assert all[..4] == head[..4] && all[4..8] == head[4..8];
    forall k | 0 <= k < |bytes| ensures s[at + HEADER + k] == bytes[k] {
      assert s[at..at + n][HEADER + k] == all[HEADER + k] == (head + bytes)[HEADER + k];
    }
    SubSlice(s, at, n, 0, 4);
    SubSlice(s, at, n, 4, 8);
    assert s[at..at + n][n - 1] == all[n - 1] == 0;
  }

  /** The buffer, how much of it is in use, the elements, and the presence bits. */
  datatype Arena = Arena(data: seq<byte>, used: nat, elements: seq<Option<Element>>, hash: set<nat>)

  /** Presence bits are right, and elements have regions of their own inside the used part. */
  ghost predicate ArenaOk(a: Arena) {
    && a.used <= |a.data|
    && (forall i :: i in a.hash <==> 0 <= i < |a.elements| && a.elements[i].Some?)
    && (forall i :: 0 <= i < |a.elements| && a.elements[i].Some? ==> ElementIn(a.data, a.used, a.elements[i].value))
    && forall i, j :: 0 <= i < j < |a.elements| && a.elements[i].Some? && a.elements[j].Some? ==>
         Apart(a.elements[i].value, a.elements[j].value)
  }

  /** The data that readers of element i get. */
  ghost function Value(a: Arena, i: nat): Option<seq<byte>>
    requires ArenaOk(a) && i < |a.elements|
  {
    if a.elements[i].None? then None
    else
      var e := a.elements[i].value;
      assert ElementIn(a.data, a.used, e);
      Some(a.data[e.offset..e.offset + e.length])
  }

  /** Laying out one element behind the others gives it its data and leaves the data of every other element alone. */
  lemma Stored(a: Arena, b: Arena, i: nat, att: (nat, nat), bytes: seq<byte>, address: nat)
    requires ArenaOk(a) && i < |a.elements| && |b.data| == |a.data|
    requires b.used == a.used + HEADER + |bytes| + 1 <= |b.data|
    requires b.data[..a.used] == a.data[..a.used] && b.data[a.used..b.used] == Layout(bytes, address)
    requires b.elements == a.elements[i := Some(Element(att, a.used + HEADER, |bytes|))] && b.hash == a.hash + {i}
    ensures ArenaOk(b) && Value(b, i) == Some(bytes)
    ensures forall j: nat :: j < |a.elements| && j != i ==> Value(b, j) == Value(a, j)
  {
    hide ElementIn, Layout;
    LaidOut(b.data, a.used, att, bytes, address);
    forall j | 0 <= j < |a.elements| && j != i && a.elements[j].Some?
      ensures ElementIn(b.data, b.used, a.elements[j].value)
      ensures var e := a.elements[j].value;
              e.offset + e.length + 1 <= a.used
              && b.data[e.offset..e.offset + e.length] == a.data[e.offset..e.offset + e.length]
    {
      ElementStays(a.data, b.data, a.used, b.used, a.elements[j].value);
    }
  }

  class MessageData {
    const data: array<byte>
    /** Everything below is in use. */
    var index: nat
    var elements: seq<Option<Element>>
    /** The attributes that have data. */
    var hash: set<nat>

    ghost function View(): Arena
      reads this, data
    {
      Arena(data[..], index, elements, hash)
    }

    constructor (count: nat, length: nat)
      ensures ArenaOk(View()) && |elements| == count && index == 0 && data.Length == length && fresh(data)
      ensures forall i: nat :: i < count ==> Value(View(), i) == None
    {
      data := new byte[length](_ => 0);
      index, hash := 0, {};
      elements := seq(count, _ => None);
    }

    method CopyIn(at: nat, bytes: seq<byte>)
      requires at + |bytes| <= data.Length
      modifies data
      ensures data[at..at + |bytes|] == bytes && data[..at] == old(data[..at])
    {
      for k := 0 to |bytes|
        invariant data[at..at + k] == bytes[..k] && data[..at] == old(data[..at])
      {
        data[at + k] := bytes[k];
      }
      assert bytes[..|bytes|] == bytes;
    }

    /** Lays out one element behind the others. */
    method Store(bytes: seq<byte>, address: nat)
      requires index + HEADER + |bytes| + 1 <= data.Length
      modifies this`index, data
      ensures index == old(index) + HEADER + |bytes| + 1 && data[..][..old(index)] == old(data[..][..index])
      ensures data[..][old(index)..index] == Layout(bytes, address)
    {
      CopyIn(index, Layout(bytes, address));
      index := index + HEADER + |bytes| + 1;
    }

    /**
      * Stores the data of attribute number i. None stands for a NULL pointer, `address` for the pointer that goes
      * into the header. Refused data changes nothing; accepted data is read back exactly, and no other element
      * changes.
      */
    method SetElement(i: nat, att: (nat, nat), bytes: Option<seq<byte>>, length: nat, numericZero: bool, address: nat)
      returns (r: Outcome)
      requires ArenaOk(View()) && i < |elements|
      requires bytes.Some? ==> length == |bytes.value|
      modifies this`index, this`elements, this`hash, data
      ensures ArenaOk(View()) && |elements| == |old(elements)|
      ensures r == Overflow <==> old(index) + length + HEADER + 1 >= data.Length
      ensures var stored := r == Continue && length > 0 && bytes.Some? && !IsUnsetTcpFlag(att, numericZero);
              if stored then Value(View(), i) == bytes && elements[i].value.att == att && hash == old(hash) + {i}
              else View() == old(View())
      ensures forall j: nat :: j < |elements| && j != i ==> Value(View(), j) == old(Value(View(), j))
    {
      if index + length + HEADER + 1 >= data.Length { return Overflow; }
      if length == 0 || bytes.None? { return Continue; }
      if IsUnsetTcpFlag(att, numericZero) { return Continue; }
      ghost var was := View();
      hash := hash + {i};
      elements := elements[i := Some(Element(att, index + HEADER, length))];
      Store(bytes.value, address);
      r := Continue;
      Stored(was, View(), i, att, bytes.value, address);
    }
  }
}
