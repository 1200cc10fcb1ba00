/** The table from byte strings to data: a tree with one child for each byte. */
module ByteTrie {
  import opened Wrappers

  type Key = seq<byte>

  class Node {
    var data: Option<nat>
    const children: array<Node?>

    constructor ()
      ensures data == None && children.Length == 256 && fresh(children)
      ensures forall c :: 0 <= c < 256 ==> children[c] == null
    {
      data := None;
      children := new Node?[256](_ => null);
    }
  }

  /** Every node of the tree under the string that leads to it. */
  type Paths = map<Key, Node>

  ghost predicate PrefixClosed(m: Paths) {
    forall p <- m :: p != [] ==> p[..|p| - 1] in m
  }

  ghost predicate Injective(m: Paths) {
    forall p, q :: p in m && q in m && p != q ==> m[p] != m[q] && m[p].children != m[q].children
  }

  ghost predicate ChildOk(m: Paths, p: Key, c: byte)
    requires p in m && m[p].children.Length == 256
    reads m[p].children
  {
    var child := m[p].children[c as int];
    (child != null <==> p + [c] in m) && (child != null ==> m[p + [c]] == child)
  }

  ghost predicate ChildrenOk(m: Paths, p: Key)
    requires p in m
    reads m[p].children
  {
    m[p].children.Length == 256 && forall c: byte :: ChildOk(m, p, c)
  }

  lemma Longer(p: Key, c: byte, q: Key, d: byte)
    ensures (p + [c])[..|p|] == p
    ensures p + [c] == q + [d] <==> p == q && c == d
  {
    assert (p + [c])[..|p|] == p && (q + [d])[..|q|] == q;
    assert (p + [c])[|p|] == c && (q + [d])[|q|] == d;
  }

  lemma NextPrefix(key: Key, i: nat)
    requires i < |key|
    ensures key[..i + 1] == key[..i] + [key[i]]
  {}

  /** Hanging a node of its own below p keeps the shape of the map. */
  lemma ShapeGrows(m: Paths, p: Key, c: byte, child: Node)
    requires PrefixClosed(m) && Injective(m) && p in m && p + [c] !in m
    requires forall q <- m :: m[q] != child && m[q].children != child.children
    ensures PrefixClosed(m[p + [c] := child]) && Injective(m[p + [c] := child])
    ensures forall d: byte :: p + [c] + [d] !in m
  {
    Longer(p, c, p, c);
    forall d: byte ensures p + [c] + [d] !in m {
      Longer(p + [c], d, p + [c], d);
    }
  }

  /** Below a missing node everything is missing. */
  lemma {:induction false} Missing(m: Paths, key: Key, i: nat)
    requires PrefixClosed(m) && i <= |key| && key[..i] !in m
    ensures key !in m
    decreases |key|
  {
    if i == |key| { assert key[..i] == key; }
    else if key in m {
      assert key[..|key| - 1][..i] == key[..i];
      Missing(m, key[..|key| - 1], i);
    }
  }

  class Table {
    const root: Node
    ghost var paths: Paths

    ghost predicate Valid()
      reads this, set q <- paths :: paths[q].children
    {
      && [] in paths && paths[[]] == root
      && PrefixClosed(paths) && Injective(paths)
      && forall p <- paths :: ChildrenOk(paths, p)
    }

    /** What the table holds for a key. */
    ghost function Get(key: Key): Option<nat>
      reads this, paths.Values
    {
      if key in paths then paths[key].data else None
    }

    constructor ()
      ensures Valid() && fresh(paths.Values) && forall key :: Get(key) == None
    {
      root := new Node();
      new;
      paths := map[[] := root];
    }

    method Search(key: Key) returns (data: Option<nat>)
      requires Valid()
      ensures data == Get(key)
    {
      var item := root;
      for i := 0 to |key|
        invariant key[..i] in paths && paths[key[..i]] == item
      {
        NextPrefix(key, i);
        assert ChildrenOk(paths, key[..i]) && ChildOk(paths, key[..i], key[i]);
        var next := item.children[key[i] as int];
        if next == null {
          Missing(paths, key, i + 1);
          return None;
        }
        item := next;
      }
      assert key[..|key|] == key;
      data := item.data;
    }

    /** Hangs an empty node in. */
    method Link(item: Node, c: byte, child: Node, ghost p: Key)
      requires Valid() && p in paths && paths[p] == item && p + [c] !in paths
      requires child.children.Length == 256 && forall d :: 0 <= d < 256 ==> child.children[d] == null
      requires forall q <- paths :: paths[q] != child && paths[q].children != child.children
      modifies this`paths, item.children
      ensures Valid() && paths == old(paths)[p + [c] := child]
    {
      assert ChildrenOk(paths, p);
      ShapeGrows(paths, p, c, child);
      item.children[c as int] := child;
      ghost var m := old(paths);
      paths := paths[p + [c] := child];
      forall q <- m, d: byte ensures paths[q].children.Length == 256 && ChildOk(paths, q, d) {
        assert old(ChildrenOk(m, q)) && old(ChildOk(m, q, d));
        Longer(q, d, p, c);
      }
      forall d: byte ensures ChildOk(paths, p + [c], d) { Longer(p + [c], d, p, c); }
      forall q <- paths ensures ChildrenOk(paths, q) { assert q in m || q == p + [c]; }
    }

    /** One byte further down, with a new node where there is none yet. */
    method Descend(item: Node, c: byte, ghost p: Key) returns (next: Node)
      requires Valid() && p in paths && paths[p] == item
      modifies this`paths, item.children
      ensures Valid()
      ensures paths == old(paths)[p + [c] := next]
      ensures p + [c] in old(paths) ==> paths == old(paths)
      ensures p + [c] !in old(paths) ==> fresh(next) && fresh(next.children) && next.data == None
    {
      assert ChildrenOk(paths, p) && ChildOk(paths, p, c);
      if item.children[c as int] == null {
        next := new Node();
        Link(item, c, next, p);
      } else {
        next := item.children[c as int];
      }
    }

    /** What walking down a key may add: empty nodes, nothing else. */
    twostate predicate Grown()
      reads this, paths.Values
    {
      && (forall k <- old(paths) :: k in paths && paths[k] == old(paths[k]))
      && forall k <- paths :: k !in old(paths) ==> fresh(paths[k]) && fresh(paths[k].children) && paths[k].data == None
    }

    method WalkDown(key: Key) returns (item: Node)
      requires Valid()
      modifies this`paths, set q <- paths :: paths[q].children
      ensures Valid() && Grown() && key in paths && paths[key] == item
    {
      item := root;
      hide Injective, PrefixClosed, ChildrenOk, ChildOk;
      for i := 0 to |key|
        invariant Valid() && key[..i] in paths && paths[key[..i]] == item
        invariant Grown()
      {
        NextPrefix(key, i);
        item := Descend(item, key[i], key[..i]);
      }
      assert key[..|key|] == key;
    }

    /** Returns what the key had before; an existing value is replaced only when that is asked for. */
    method Add(key: Key, data: Option<nat>, override: bool) returns (before: Option<nat>)
      requires Valid()
      modifies this`paths, paths.Values, set q <- paths :: paths[q].children
      ensures Valid() && before == old(Get(key))
      ensures Get(key) == if override || before == None then data else before
      ensures forall k :: k != key ==> Get(k) == old(Get(k))
      ensures forall k <- paths :: k !in old(paths) ==> fresh(paths[k]) && fresh(paths[k].children)
    {
      var item := WalkDown(key);
      before := item.data;
      if override || item.data == None { item.data := data; }
      assert forall k <- paths :: k != key ==> paths[k] != item;
      assert forall p <- paths :: old(p in paths) ==> paths[p] == old(paths[p]);
    }
  }
}
