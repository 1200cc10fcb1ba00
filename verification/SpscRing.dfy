/**
  * The ring itself, updated in place. `Dispatch` interleaves the steps of these operations; here each operation runs on
  * its own and is described by the queue of pending items.
  */
module SpscRing {
  import opened Wrappers
  import opened Modular
  import opened Dispatch

  /** The slots from the tail on hold the oldest pending items, as long as the end of the ring is not passed. */
  lemma {:induction false} PendingSlots(size: nat, l: Lane, n: nat)
    requires RingOk(size, l) && l.taken + n <= |l.sent| && l.tail + n <= size
    ensures l.data[l.tail..l.tail + n] == l.sent[l.taken..l.taken + n]
  {
    if n > 0 {
      PendingSlots(size, l, n - 1);
      CopyReads(size, l, n - 1);
      assert l.data[l.tail..l.tail + n] == l.data[l.tail..l.tail + n - 1] + [l.data[l.tail + n - 1]];
    }
  }

  lemma BurstFits(size: nat, l: Lane, n: nat)
    requires RingOk(size, l) && l.cachedHead != l.tail
    requires n <= if l.cachedHead > l.tail then l.cachedHead - l.tail else size - l.tail
    ensures l.taken + n <= l.seenHead && l.tail + n <= size
  {
    ModAhead(l.taken, l.seenHead, size);
  }

  class Ring {
    var head: nat
    var tail: nat
    var cachedHead: nat
    var cachedTail: nat
    const data: array<Item>

    /** Everything pushed so far, how much of it has been popped, and the positions behind the cached indices. */
    ghost var sent: seq<Item>
    ghost var taken: nat
    ghost var seenHead: nat
    ghost var seenTail: nat

    ghost function View(): Lane
      reads this, data
    {
      Lane(head, tail, cachedHead, cachedTail, data[..], Poll, [], sent, taken, seenHead, seenTail)
    }

    ghost predicate Valid()
      reads this, data
    {
      RingOk(data.Length, View())
    }

    /** The items that wait to be popped, oldest first. */
    ghost function Pending(): seq<Item>
      reads this, data
      requires Valid()
    {
      sent[taken..]
    }

    constructor (size: nat)
      requires size >= 2
      ensures Valid() && Pending() == [] && data.Length == size && fresh(data)
    {
      head, tail, cachedHead, cachedTail := 0, 0, 0, 0;
      data := new Item[size](_ => None);
      sent, taken, seenHead, seenTail := [], 0, 0, 0;
    }

    /** Fails exactly when all but two slots are taken, and then changes nothing that counts. */
    method Push(val: Item) returns (ok: bool)
      requires Valid()
      modifies this, data
      ensures Valid()
      ensures ok <==> |old(Pending())| < data.Length - 2
      ensures Pending() == if ok then old(Pending()) + [val] else old(Pending())
    {
      var h := head;
      FullTest(data.Length, View());
      if (h + 2) % data.Length == cachedTail {
        cachedTail, seenTail := tail, taken;
        FullTest(data.Length, View());
        if (h + 2) % data.Length == cachedTail {
          return false;
        }
      }
      WriteKeeps(data.Length, View(), val);
      ghost var written := View().(data := View().data[head := val]);
      data[h] := val;
      assert View() == written;
      PublishKeeps(data.Length, written, val);
      head, sent := (h + 1) % data.Length, sent + [val];
      ok := true;
    }

    /** Fails exactly when nothing is pending. */
    method Pop() returns (val: Option<Item>)
      requires Valid()
      modifies this
      ensures Valid()
      ensures val.None? <==> old(Pending()) == []
      ensures old(Pending()) == if val.None? then Pending() else [val.value] + Pending()
    {
      var some := Refresh();
      if !some {
        return None;
      }
      val := Some(data[tail]);
      CopyReads(data.Length, View(), 0);
      Advance(1);
    }

    /** memcpy from the slots into the caller's array. */
    method CopyOut(from: nat, n: nat, items: array<Item>)
      requires items != data && from + n <= data.Length && n <= items.Length
      modifies items
      ensures items[..n] == data[from..from + n] && items[n..] == old(items[n..])
    {
      for i := 0 to n
        invariant items[..i] == data[from..from + i] && items[n..] == old(items[n..])
      {
        items[i] := data[from + i];
      }
    }

    /** Refreshes the cached head if it has been reached; true when there is something to read. */
    method Refresh() returns (some: bool)
      requires Valid()
      modifies this`cachedHead, this`seenHead
      ensures Valid()
      ensures some <==> Pending() != []
      ensures some ==> cachedHead != tail
    {
      EmptyTest(data.Length, View());
      if cachedHead == tail {
        cachedHead, seenHead := head, |sent|;
        EmptyTest(data.Length, View());
      }
      some := cachedHead != tail;
    }

    /** Takes some of the oldest pending items, in order; none only when there are none. */
    method PopBurst(length: nat, items: array<Item>) returns (n: nat)
      requires Valid() && items != data && 1 <= length <= items.Length
      modifies this, items
      ensures Valid() && n <= length
      ensures n == 0 <==> old(Pending()) == []
      ensures old(Pending()) == items[..n] + Pending()
      ensures items[n..] == old(items[n..])
    {
      var some := Refresh();
      if !some {
        return 0;
      }
      n := if cachedHead > tail then cachedHead - tail else data.Length - tail;
      n := if n > length then length else n;
      BurstFits(data.Length, View(), n);
      TakeBurst(n, items);
    }

    /** Copies the n oldest items, which do not reach past the end of the ring, and gives their slots back. */
    method TakeBurst(n: nat, items: array<Item>)
      requires Valid() && items != data && n <= items.Length && taken + n <= seenHead && tail + n <= data.Length
      modifies this`tail, this`taken, items
      ensures Valid()
      ensures old(Pending()) == items[..n] + Pending()
      ensures items[n..] == old(items[n..])
    {
      PendingSlots(data.Length, View(), n);
      ghost var burst := data[tail..tail + n];
      assert burst == View().data[tail..tail + n];
      CopyOut(tail, n, items);
      assert View() == old(View());
      hide RingOk;
      Advance(n);
    }

    /** Moves the tail over n items. */
    method Advance(n: nat)
      requires Valid() && taken + n <= seenHead
      modifies this`tail, this`taken
      ensures Valid() && taken == old(taken) + n
      ensures old(Pending()) == old(sent[taken..taken + n]) + Pending()
    {
      TakeKeeps(data.Length, View(), n);
      tail, taken := (tail + n) % data.Length, taken + n;
    }
  }
}
