/**
  * The parser on mutable nodes: each operation holds the list of its parameters and each node points to its father, the
  * only way back up when a parenthesis closes.
  */
module ExpressionParser {
  import opened Wrappers
  import opened Expressions

  class Node {
    const leaf: bool
    const text: string
    const father: Node?
    var op: Op
    var params: seq<Node>

    constructor (leaf: bool, text: string, op: Op, father: Node?)
      ensures this.leaf == leaf && this.text == text && this.op == op && this.father == father && params == []
    {
      this.leaf, this.text, this.op, this.father, this.params := leaf, text, op, father, [];
    }
  }

  /** What the nodes that the parser has left stand for. */
  type Meaning = map<Node, Expr>

  ghost function Values(m: Meaning, ps: seq<Node>): seq<Expr>
    requires forall p <- ps :: p in m
  {
    seq(|ps|, i requires 0 <= i < |ps| => assert ps[i] in ps; m[ps[i]])
  }

  ghost predicate Children(m: Meaning, n: Node, ps: seq<Node>) {
    forall p <- ps :: p in m && p.father == n
  }

  /** A node stands for its operator applied to what its parameters stand for. */
  ghost predicate Done(m: Meaning, n: Node)
    requires n in m
    reads n
  {
    Children(m, n, n.params) && m[n] == if n.leaf then Leaf(n.text) else Oper(n.op, Values(m, n.params))
  }

  /** A finished tree below the root. */
  ghost predicate Tree(m: Meaning, root: Node)
    reads m.Keys
  {
    root in m && root.father == null && forall n <- m :: Done(m, n)
  }

  /** The parameters of the k-th open operation that the parser has left. */
  ghost function Left(path: seq<Node>, k: nat): seq<Node>
    requires k < |path|
    reads path[k]
  {
    var ps := path[k].params;
    if k + 1 < |path| && ps != [] then ps[..|ps| - 1] else ps
  }

  ghost predicate OpenAt(m: Meaning, path: seq<Node>, k: nat, frame: Frame)
    requires k < |path|
    reads path[k]
  {
    && path[k] !in m && !path[k].leaf
    && (k + 1 < |path| ==> path[k].params == Left(path, k) + [path[k + 1]] && path[k + 1].father == path[k])
    && Children(m, path[k], Left(path, k))
    && frame == Frame(path[k].op, Values(m, Left(path, k)))
  }

  /** `path` leads from the root to the node the parser is in; `stack` is what the specification has in its place. */
  ghost predicate Building(m: Meaning, path: seq<Node>, stack: seq<Frame>)
    reads m.Keys, path
  {
    && path != [] && |stack| == |path|
    && path[0].father == null
    && (forall i, j :: 0 <= i < j < |path| ==> path[i] != path[j])
    && (forall n <- m :: Done(m, n))
    && (forall k :: 0 <= k < |path| ==> OpenAt(m, path, k, stack[k]))
  }

  lemma ValuesGrow(m: Meaning, ps: seq<Node>, n: Node, e: Expr)
    requires n !in m && forall p <- ps :: p in m
    ensures Values(m[n := e], ps) == Values(m, ps)
    ensures Values(m[n := e], ps + [n]) == Values(m, ps) + [e]
  {}

  method AppendLeaf(cur: Node, text: string, ghost m: Meaning, ghost path: seq<Node>, ghost stack: seq<Frame>)
    returns (ghost m1: Meaning)
    requires Building(m, path, stack) && cur == path[|path| - 1]
    modifies cur`params
    ensures Building(m1, path, AddParam(stack, Leaf(text)))
  {
    var leaf := new Node(true, text, Unknown, cur);
    ghost var before, last, above := cur.params, |path| - 1, AddParam(stack, Leaf(text));
    m1 := m[leaf := Leaf(text)];
    assert OpenAt(m, path, last, stack[last]);
    cur.params := cur.params + [leaf];
    ValuesGrow(m, before, leaf, Leaf(text));
    forall n <- m1 ensures Done(m1, n) {
      if n != leaf {
        assert old(Done(m, n));
        ValuesGrow(m, n.params, leaf, Leaf(text));
      }
    }
    forall k | 0 <= k < |path| ensures OpenAt(m1, path, k, above[k]) {
      if k < last {
        assert old(OpenAt(m, path, k, stack[k]));
        ValuesGrow(m, Left(path, k), leaf, Leaf(text));
      }
    }
  }

  method AppendOperation(cur: Node, op: Op, ghost m: Meaning, ghost path: seq<Node>, ghost stack: seq<Frame>)
    returns (child: Node)
    requires Building(m, path, stack) && cur == path[|path| - 1]
    modifies cur`params
    ensures fresh(child)
    ensures Building(m, path + [child], stack + [Frame(op, [])])
  {
    child := new Node(false, "", op, cur);
    ghost var last, longer, above := |path| - 1, path + [child], stack + [Frame(op, [])];
    assert OpenAt(m, path, last, stack[last]);
    cur.params := cur.params + [child];
    forall n <- m ensures Done(m, n) { assert old(Done(m, n)); }
    forall k | 0 <= k < |longer| ensures OpenAt(m, longer, k, above[k]) {
      if k <= last { assert old(OpenAt(m, path, k, stack[k])) && Left(longer, k) == old(Left(path, k)); }
    }
  }

  method SetOperator(cur: Node, op: Op, ghost m: Meaning, ghost path: seq<Node>, ghost stack: seq<Frame>)
    requires Building(m, path, stack) && cur == path[|path| - 1]
    modifies cur`op
    ensures Building(m, path, stack[..|stack| - 1] + [stack[|stack| - 1].(op := op)])
  {
    assert OpenAt(m, path, |path| - 1, stack[|path| - 1]);
    cur.op := op;
    forall n <- m ensures Done(m, n) {
      assert n != cur && old(Done(m, n));
      assert Values(m, n.params) == old(Values(m, n.params));
    }
  }

  /** Going back to the father finishes the node. */
  lemma Leave(m: Meaning, path: seq<Node>, stack: seq<Frame>) returns (m1: Meaning)
    requires Building(m, path, stack)
    ensures var cur, top := path[|path| - 1], stack[|stack| - 1];
            && m1 == m[cur := Oper(top.op, top.params)]
            && (forall n <- m1 :: Done(m1, n))
            && (|path| > 1 ==> cur.father == path[|path| - 2])
            && (|path| > 1 ==>
                Building(m1, path[..|path| - 1], AddParam(stack[..|stack| - 1], Oper(top.op, top.params))))
  {
    var last := |path| - 1;
    var cur, top := path[last], stack[last];
    var e := Oper(top.op, top.params);
    m1 := m[cur := e];
    assert OpenAt(m, path, last, top);
    forall n <- m1 ensures Done(m1, n) {
      ValuesGrow(m, n.params, cur, e);
    }
    if |path| > 1 {
      var shorter, below := path[..last], AddParam(stack[..last], e);
      forall k | 0 <= k < last ensures OpenAt(m1, shorter, k, below[k]) {
        assert OpenAt(m, path, k, stack[k]);
        ValuesGrow(m, Left(path, k), cur, e);
      }
    }
  }

  /** Consumes token number `at`; null when the parser halts on it. */
  method TakeToken(ts: seq<Token>, at: nat, cur: Node, first: bool, ghost m: Meaning, ghost path: seq<Node>,
                   ghost stack: seq<Frame>)
    returns (next: Node?, ghost m1: Meaning, ghost path1: seq<Node>)
    requires at < |ts| && Building(m, path, stack) && cur == path[|path| - 1]
    modifies cur
    ensures next == null <==> Consume(stack, first, ts[at..]).None?
    ensures next != null ==>
              && Building(m1, path1, Consume(stack, first, ts[at..]).value)
              && path1[0] == path[0] && next == path1[|path1| - 1]
              && (next in path || fresh(next)) && forall n <- path1 :: n in path || n == next
  {
    next, m1, path1 := cur, m, path;
    ghost var last := |path| - 1;
    assert OpenAt(m, path, last, stack[last]) && (last > 0 ==> OpenAt(m, path, last - 1, stack[last - 1]));
    match ts[at]
    case Open =>
      if !first {
        next := AppendOperation(cur, Unknown, m, path, stack);
        path1 := path + [next];
      }
    case Close =>
      if cur.father != null {
        next := cur.father;
        m1 := Leave(m, path, stack);
        path1 := path[..last];
      } else if at + 1 < |ts| {
        next := null;
      }
    case Atom(text) => m1 := AppendLeaf(cur, text, m, path, stack);
    case Func(f) =>
      next := AppendOperation(cur, Function(f), m, path, stack);
      path1 := path + [next];
    case Sign(sign) =>
      if Meets(cur.op, sign).None? { next := null; }
      else { SetOperator(cur, Meets(cur.op, sign).value, m, path, stack); }
    case Comma =>
      if !cur.op.Function? || (at + 1 < |ts| && ts[at + 1] == Close) { next := null; }
    case Foreign(_) => next := null;
  }

  /** The parser's whole run; `ok` is false when it halts on an error. */
  method ParseExpression(ts: seq<Token>) returns (ok: bool, root: Node, ghost m: Meaning)
    ensures ok <==> Parse(ts).Some?
    ensures ok ==> Tree(m, root) && m[root] == Parse(ts).value
  {
    root := new Node(false, "", Unknown, null);
    var cur, first := root, true;
    ghost var path, stack := [root], [Frame(Unknown, [])];
    m := map[];
    for at := 0 to |ts|
      invariant Building(m, path, stack) && path[0] == root && cur == path[|path| - 1]
      invariant forall n <- path :: fresh(n)
      invariant Run(stack, first, ts[at..]) == Parse(ts)
    {
      var next;
      ghost var was := path;
      assert cur in path;
      next, m, path := TakeToken(ts, at, cur, first, m, path, stack);
      assert ts[at..][1..] == ts[at + 1..];
      if next == null { return false, root, m; }
      assert forall n <- path :: n in was || n == next;
      stack := Consume(stack, first, ts[at..]).value;
      cur, first := next, ts[at].Func?;
    }
    m := CloseAll(m, path, stack);
    ok := true;
  }

  /** At the end of the text the operations that are still open end as well. */
  lemma {:induction false} CloseAll(m: Meaning, path: seq<Node>, stack: seq<Frame>) returns (m1: Meaning)
    requires Building(m, path, stack)
    ensures Tree(m1, path[0]) && m1[path[0]] == Collapse(stack)
    decreases |path|
  {
    m1 := Leave(m, path, stack);
    if |path| > 1 {
      var top := stack[|stack| - 1];
      m1 := CloseAll(m1, path[..|path| - 1], AddParam(stack[..|stack| - 1], Oper(top.op, top.params)));
    }
  }
}
