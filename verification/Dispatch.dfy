/**
  * One dispatcher and several workers, each with its own ring. Every access to a shared index or slot is one step,
  * and a schedule says whose step comes next; the atomics are sequentially consistent.
  */
module Dispatch {
  import opened Wrappers
  import opened Messages
  import opened Modular

  /** What travels through a ring; None is the NULL message that ends a worker. */
  type Item = Option<Message>

  /** A worker copies at most this many messages at a time. */
  const BURST: nat := 100

  /** `size` slots in each ring; `handlers` is the attribute mask of each worker. */
  datatype Config = Config(size: nat, handlers: seq<set<nat>>, input: seq<Message>)

  datatype WorkerPc =
    | Poll
    | RefreshHead
    | Copy(n: nat, buf: seq<Item>)
    | Work(buf: seq<Item>)
    | Exited
    | Crashed

  /**
    * A ring and its worker. The history variables `sent` (all items ever published), `taken` (how many have been
    * popped), `seenHead` and `seenTail` (the absolute positions behind the cached indices) never influence a step.
    */
  datatype Lane = Lane(head: nat, tail: nat, cachedHead: nat, cachedTail: nat, data: seq<Item>,
                       pc: WorkerPc, processed: seq<Message>,
                       sent: seq<Item>, taken: nat, seenHead: nat, seenTail: nat)

  datatype PushPc = Check | RefreshTail | Write | Publish

  datatype DispatcherPc = Fetch | Pushing(todo: set<nat>, i: nat, push: PushPc)

  /** `d` is the number of the message that the dispatcher is at; the NULL message comes after the last one. */
  datatype System = System(lanes: seq<Lane>, d: nat, pc: DispatcherPc)

  // ---- Steps ----

  predicate Wants(cfg: Config, i: nat, k: nat)
    requires i < |cfg.handlers|
  {
    k >= |cfg.input| || cfg.input[k].mask * cfg.handlers[i] != {}
  }

  function Wanters(cfg: Config, k: nat): set<nat> {
    set i | 0 <= i < |cfg.handlers| && Wants(cfg, i, k)
  }

  function ItemAt(cfg: Config, k: nat): Item {
    if k < |cfg.input| then Some(cfg.input[k]) else None
  }

  function SetLane(s: System, i: nat, l: Lane): System
    requires i < |s.lanes|
  {
    s.(lanes := s.lanes[i := l])
  }

  /** The steps of a push; the result says where the dispatcher goes on, Check meaning at the next ring. */
  function PushStep(l: Lane, push: PushPc, item: Item): (Lane, PushPc)
    requires |l.data| > 0
  {
    var size := |l.data|;
    match push
    case Check => (l, if (l.head + 2) % size == l.cachedTail then RefreshTail else Write)
    case RefreshTail =>
      (l.(cachedTail := l.tail, seenTail := l.taken), if (l.head + 2) % size == l.tail then Check else Write)
    case Write => (if l.head < size then l.(data := l.data[l.head := item]) else l, Publish)
    case Publish => (l.(head := (l.head + 1) % size, sent := l.sent + [item]), Check)
  }

  function DispatchStep(cfg: Config, s: System): System
    requires |s.lanes| == |cfg.handlers| && forall i :: 0 <= i < |s.lanes| ==> |s.lanes[i].data| == cfg.size > 0
  {
    if s.d > |cfg.input| then s
    else
      match s.pc
      case Fetch =>
        var todo := Wanters(cfg, s.d);
        if todo == {} then s.(d := s.d + 1) else s.(pc := Pushing(todo, 0, Check))
      case Pushing(todo, i, push) =>
        if i >= |s.lanes| then
          if todo == {} then s.(d := s.d + 1, pc := Fetch) else s.(pc := Pushing(todo, 0, Check))
        else if i !in todo then s.(pc := Pushing(todo, i + 1, Check))
        else
          var (l, next) := PushStep(s.lanes[i], push, ItemAt(cfg, s.d));
          var pc :=
            if next != Check then Pushing(todo, i, next)
            else if push == Publish then Pushing(todo - {i}, i + 1, Check)
            else Pushing(todo, i + 1, Check);
          SetLane(s, i, l).(pc := pc)
  }

  /** How many items the worker will copy: up to the cached head, the end of the ring, and the burst length. */
  function BurstSize(l: Lane): nat {
    var n := if l.cachedHead > l.tail then l.cachedHead - l.tail else if |l.data| >= l.tail then |l.data| - l.tail
        else 0;
    if n > BURST then BURST else n
  }

  function WorkerStep(l: Lane): Lane
    requires |l.data| > 0
  {
    match l.pc
    case Poll => if l.cachedHead == l.tail then l.(pc := RefreshHead) else l.(pc := Copy(BurstSize(l), []))
    case RefreshHead =>
      var l1 := l.(cachedHead := l.head, seenHead := |l.sent|);
      if l1.cachedHead == l1.tail then l1.(pc := Poll) else l1.(pc := Copy(BurstSize(l1), []))
    case Copy(n, buf) =>
      if |buf| < n && l.tail + |buf| < |l.data| then l.(pc := Copy(n, buf + [l.data[l.tail + |buf|]]))
      else l.(tail := (l.tail + n) % |l.data|, taken := l.taken + n, pc := Work(buf))
    case Work(buf) =>
      if buf == [] then l.(pc := Poll)
      else if |buf| == 1 then
        if buf[0] == None then l.(pc := Exited)
        else l.(processed := l.processed + [buf[0].value], pc := Poll)
      else if buf[0] == None then l.(pc := Crashed)
      else l.(processed := l.processed + [buf[0].value], pc := Work(buf[1..]))
    case Exited => l
    case Crashed => l
  }

  function EmptyLane(size: nat): Lane {
    Lane(0, 0, 0, 0, seq(size, _ => None), Poll, [], [], 0, 0, 0)
  }

  ghost predicate Shaped(cfg: Config, s: System) {
    cfg.size > 0 && |s.lanes| == |cfg.handlers| && forall i :: 0 <= i < |s.lanes| ==> |s.lanes[i].data| == cfg.size
  }

  /** One step of the agent that the schedule names: 0 is the dispatcher, i + 1 is worker i, anything else idles. */
  function Step(cfg: Config, s: System, agent: nat): (r: System)
    requires Shaped(cfg, s)
    ensures Shaped(cfg, r)
  {
    if agent == 0 then DispatchStep(cfg, s)
    else if agent <= |s.lanes| then SetLane(s, agent - 1, WorkerStep(s.lanes[agent - 1]))
    else s
  }

  function Exec(cfg: Config, schedule: seq<nat>): (s: System)
    requires cfg.size > 0
    ensures Shaped(cfg, s)
  {
    if schedule == [] then System(seq(|cfg.handlers|, _ => EmptyLane(cfg.size)), 0, Fetch)
    else Step(cfg, Exec(cfg, schedule[..|schedule| - 1]), schedule[|schedule| - 1])
  }

  // ---- The ring ----

  /**
    * Cached indices are never ahead of the real ones, and every published item that has not been taken is in its
    * slot.
    */
  ghost predicate RingOk(size: nat, l: Lane) {
    && size >= 2 && |l.data| == size
    && l.seenTail <= l.taken <= l.seenHead <= |l.sent| <= l.seenTail + size - 2
    && l.head == |l.sent| % size && l.tail == l.taken % size
    && l.cachedHead == l.seenHead % size && l.cachedTail == l.seenTail % size
    && forall k :: l.taken <= k < |l.sent| ==> l.data[k % size] == l.sent[k]
  }

  /** There is room for one more item even for a producer that only knows the cached tail. */
  predicate Room(size: nat, l: Lane) {
    |l.sent| + 3 <= l.seenTail + size
  }

  lemma FullTest(size: nat, l: Lane)
    requires RingOk(size, l)
    ensures (l.head + 2) % size == l.cachedTail <==> !Room(size, l)
  {
    ModPlus(|l.sent|, 2, size);
    var ahead := |l.sent| + 2;
    if ahead == l.seenTail + size {
      ModPlus(l.seenTail, size, size);
      var q := ModDecompose(l.seenTail, size);
      assert l.seenTail + size == size * (q + 1) + l.seenTail % size;
      ModFrom(l.seenTail + size, q + 1, l.seenTail % size, size);
    } else {
      ModAhead(l.seenTail, ahead, size);
    }
  }

  lemma WriteKeeps(size: nat, l: Lane, item: Item)
    requires RingOk(size, l) && Room(size, l)
    ensures l.head < size && RingOk(size, l.(data := l.data[l.head := item]))
  {
    forall k | l.taken <= k < |l.sent| ensures k % size != l.head {
      if k % size == l.head { ModEqual(k, |l.sent|, size); }
    }
  }

  lemma PublishKeeps(size: nat, l: Lane, item: Item)
    requires RingOk(size, l) && Room(size, l) && l.data[l.head] == item
    ensures RingOk(size, l.(head := (l.head + 1) % size, sent := l.sent + [item]))
  {
    ModPlus(|l.sent|, 1, size);
  }

  /** The worker never copies past the items it knows to be published, nor past the end of the ring. */
  lemma BurstInside(size: nat, l: Lane)
    requires RingOk(size, l) && l.cachedHead != l.tail
    ensures 1 <= BurstSize(l) <= BURST && l.taken + BurstSize(l) <= l.seenHead && l.tail + BurstSize(l) <= size
  {
    ModAhead(l.taken, l.seenHead, size);
  }

  lemma EmptyTest(size: nat, l: Lane)
    requires RingOk(size, l)
    ensures l.cachedHead == l.tail <==> l.seenHead == l.taken
  {
    if l.seenHead > l.taken { ModAhead(l.taken, l.seenHead, size); }
  }

  lemma TakeKeeps(size: nat, l: Lane, n: nat)
    requires RingOk(size, l) && l.taken + n <= l.seenHead
    ensures RingOk(size, l.(tail := (l.tail + n) % size, taken := l.taken + n))
  {
    ModPlus(l.taken, n, size);
  }

  // ---- Workers ----

  function Wrap(ms: seq<Message>): seq<Item> {
    seq(|ms|, k requires 0 <= k < |ms| => Some(ms[k]))
  }

  /** NULL comes last, if at all. */
  ghost predicate NullLast(items: seq<Item>) {
    forall k :: 0 <= k < |items| - 1 ==> items[k].Some?
  }

  /** Everything taken from the ring has been processed in order, or is in the buffer. */
  ghost predicate WorkerOk(size: nat, l: Lane)
    requires RingOk(size, l)
  {
    && NullLast(l.sent)
    && match l.pc
       case Poll => Wrap(l.processed) == l.sent[..l.taken]
       case RefreshHead => Wrap(l.processed) == l.sent[..l.taken] && l.seenHead == l.taken
       case Copy(n, buf) =>
         && Wrap(l.processed) == l.sent[..l.taken]
         && 1 <= n <= BURST && l.taken + n <= l.seenHead && l.tail + n <= size
         && |buf| <= n && buf == l.sent[l.taken..l.taken + |buf|]
       case Work(buf) => buf != [] && Wrap(l.processed) + buf == l.sent[..l.taken]
       case Exited => l.taken == |l.sent| && Wrap(l.processed) + [None] == l.sent
       case Crashed => false
  }

  ghost predicate LaneOk(size: nat, l: Lane) {
    RingOk(size, l) && WorkerOk(size, l)
  }

  lemma WrapAppend(ms: seq<Message>, m: Message)
    ensures Wrap(ms + [m]) == Wrap(ms) + [Some(m)]
  {}

  /** Copying one more slot reads the next pending item. */
  lemma CopyReads(size: nat, l: Lane, k: nat)
    requires RingOk(size, l) && l.taken + k < |l.sent| && l.tail + k < size
    ensures l.data[l.tail + k] == l.sent[l.taken + k]
  {
    ModNoWrap(l.taken, k, size);
    assert (l.taken + k) % size == l.tail + k;
  }

  lemma CopyOneKeeps(size: nat, l: Lane)
    requires LaneOk(size, l) && l.pc.Copy? && |l.pc.buf| < l.pc.n
    ensures LaneOk(size, WorkerStep(l))
  {
    var n, buf := l.pc.n, l.pc.buf;
    var k := l.taken + |buf|;
    CopyReads(size, l, |buf|);
    assert l.sent[l.taken..k + 1] == l.sent[l.taken..k] + [l.sent[k]];
    assert RingOk(size, WorkerStep(l));
  }

  lemma CopyDoneKeeps(size: nat, l: Lane)
    requires LaneOk(size, l) && l.pc.Copy? && |l.pc.buf| == l.pc.n
    ensures LaneOk(size, WorkerStep(l))
  {
    var n, buf := l.pc.n, l.pc.buf;
    TakeKeeps(size, l, n);
    assert l.sent[..l.taken] + l.sent[l.taken..l.taken + n] == l.sent[..l.taken + n];
  }

  lemma WorkKeeps(size: nat, l: Lane)
    requires LaneOk(size, l) && l.pc.Work?
    ensures LaneOk(size, WorkerStep(l))
  {
    var buf := l.pc.buf;
    var k := |l.processed|;
    assert (Wrap(l.processed) + buf)[k] == buf[0] == l.sent[k];
    if |buf| == 1 {
      assert buf == [buf[0]];
      if buf[0] == None {
        assert l.taken == |l.sent|;
      } else {
        WrapAppend(l.processed, buf[0].value);
      }
    } else {
      WrapAppend(l.processed, buf[0].value);
      assert buf == [buf[0]] + buf[1..];
    }
  }

  lemma WorkerKeeps(size: nat, l: Lane)
    requires LaneOk(size, l)
    ensures LaneOk(size, WorkerStep(l)) && WorkerStep(l).sent == l.sent && WorkerStep(l).seenTail == l.seenTail
    ensures WorkerStep(l).head == l.head && WorkerStep(l).data == l.data
  {
    match l.pc
    case Poll =>
      EmptyTest(size, l);
      if l.cachedHead != l.tail { BurstInside(size, l); }
    case RefreshHead =>
      var l1 := l.(cachedHead := l.head, seenHead := |l.sent|);
      assert RingOk(size, l1);
      EmptyTest(size, l1);
      if l1.cachedHead != l1.tail { BurstInside(size, l1); }
    case Copy(n, buf) => if |buf| < n { CopyOneKeeps(size, l); } else { CopyDoneKeeps(size, l); }
    case Work(buf) => WorkKeeps(size, l);
    case Exited =>
    case Crashed =>
  }

  // ---- The whole system ----

  /** The items that go to worker i for the first n messages; number |input| is the closing NULL. */
  function Queue(cfg: Config, i: nat, n: nat): seq<Item>
    requires i < |cfg.handlers|
  {
    if n == 0 then []
    else Queue(cfg, i, n - 1) + if Wants(cfg, i, n - 1) then [ItemAt(cfg, n - 1)] else []
  }

  lemma {:induction false} NoNullBeforeTheEnd(cfg: Config, i: nat, n: nat)
    requires i < |cfg.handlers| && n <= |cfg.input|
    ensures forall k :: 0 <= k < |Queue(cfg, i, n)| ==> Queue(cfg, i, n)[k].Some?
  {
    if n > 0 { NoNullBeforeTheEnd(cfg, i, n - 1); }
  }

  /** How many messages the dispatcher has finished with as far as ring i is concerned. */
  function Served(cfg: Config, s: System, i: nat): nat
    requires i < |cfg.handlers|
  {
    if s.pc.Pushing? && Wants(cfg, i, s.d) && i !in s.pc.todo then s.d + 1 else s.d
  }

  ghost predicate LaneInv(cfg: Config, s: System, i: nat)
    requires Shaped(cfg, s) && i < |s.lanes|
  {
    LaneOk(cfg.size, s.lanes[i]) && s.lanes[i].sent == Queue(cfg, i, Served(cfg, s, i))
  }

  /** What a push in progress relies on. */
  ghost predicate PushOk(size: nat, l: Lane, push: PushPc, item: Item) {
    && (push == Write ==> Room(size, l))
    && (push == Publish ==> Room(size, l) && l.head < |l.data| && l.data[l.head] == item)
  }

  ghost predicate PushInv(cfg: Config, s: System)
    requires Shaped(cfg, s)
  {
    s.pc.Pushing? ==>
      && s.d <= |cfg.input|
      && s.pc.i <= |s.lanes|
      && (forall j <- s.pc.todo :: j < |s.lanes| && Wants(cfg, j, s.d))
      && (s.pc.push != Check ==> s.pc.i in s.pc.todo)
      && (s.pc.push != Check ==> PushOk(cfg.size, s.lanes[s.pc.i], s.pc.push, ItemAt(cfg, s.d)))
  }

  ghost predicate Inv(cfg: Config, s: System) {
    && Shaped(cfg, s) && s.d <= |cfg.input| + 1
    && PushInv(cfg, s)
    && forall i :: 0 <= i < |s.lanes| ==> LaneInv(cfg, s, i)
  }

  lemma WorkerKeepsInv(cfg: Config, s: System, i: nat)
    requires Inv(cfg, s) && i < |s.lanes|
    ensures Inv(cfg, SetLane(s, i, WorkerStep(s.lanes[i])))
  {
    var r := SetLane(s, i, WorkerStep(s.lanes[i]));
    assert LaneInv(cfg, s, i);
    WorkerKeeps(cfg.size, s.lanes[i]);
    assert PushInv(cfg, r);
    forall j | 0 <= j < |r.lanes| ensures LaneInv(cfg, r, j) {
      assert LaneInv(cfg, s, j);
    }
  }

  /** Items that are published behind its back do not disturb a worker that has not met NULL. */
  lemma PublishKeepsLane(size: nat, l: Lane, item: Item)
    requires LaneOk(size, l) && Room(size, l) && l.head < size && l.data[l.head] == item
    requires forall k :: 0 <= k < |l.sent| ==> l.sent[k].Some?
    ensures LaneOk(size, PushStep(l, Publish, item).0)
  {
    PublishKeeps(size, l, item);
    var l1 := PushStep(l, Publish, item).0;
    assert l1.sent[..l.taken] == l.sent[..l.taken];
    assert (Wrap(l.processed) + [None])[|l.processed|] == None;
    if l.pc.Copy? { assert l1.sent[l.taken..l.taken + |l.pc.buf|] == l.sent[l.taken..l.taken + |l.pc.buf|]; }
  }

  lemma PushKeepsLane(size: nat, l: Lane, push: PushPc, item: Item)
    requires LaneOk(size, l) && PushOk(size, l, push, item)
    requires forall k :: 0 <= k < |l.sent| ==> l.sent[k].Some?
    ensures var (l1, next) := PushStep(l, push, item);
            LaneOk(size, l1) && PushOk(size, l1, next, item)
  {
    match push
    case Check => FullTest(size, l);
    case RefreshTail => FullTest(size, l.(cachedTail := l.tail, seenTail := l.taken));
    case Write => WriteKeeps(size, l, item);
    case Publish => PublishKeepsLane(size, l, item);
  }

  lemma PushStepKeeps(cfg: Config, s: System)
    requires Inv(cfg, s) && s.pc.Pushing? && s.pc.i in s.pc.todo
    ensures Inv(cfg, DispatchStep(cfg, s))
  {
    hide LaneOk, Room;
    var i, item := s.pc.i, ItemAt(cfg, s.d);
    var r := DispatchStep(cfg, s);
    assert LaneInv(cfg, s, i);
    NoNullBeforeTheEnd(cfg, i, s.d);
    PushKeepsLane(cfg.size, s.lanes[i], s.pc.push, item);
    forall j | 0 <= j < |r.lanes| ensures LaneInv(cfg, r, j) {
      assert LaneInv(cfg, s, j);
    }
  }

  lemma DispatcherKeepsInv(cfg: Config, s: System)
    requires Inv(cfg, s)
    ensures Inv(cfg, DispatchStep(cfg, s))
  {
    var r := DispatchStep(cfg, s);
    if s.d <= |cfg.input| && s.pc.Pushing? && s.pc.i in s.pc.todo {
      PushStepKeeps(cfg, s);
    } else {
      forall j | 0 <= j < |r.lanes| ensures LaneInv(cfg, r, j) {
        assert LaneInv(cfg, s, j);
        assert j in Wanters(cfg, s.d) <==> Wants(cfg, j, s.d);
      }
    }
  }

  lemma StepKeepsInv(cfg: Config, s: System, agent: nat)
    requires Inv(cfg, s)
    ensures Inv(cfg, Step(cfg, s, agent))
  {
    if agent == 0 { DispatcherKeepsInv(cfg, s); }
    else if agent <= |s.lanes| { WorkerKeepsInv(cfg, s, agent - 1); }
  }

  /** The invariant holds after every schedule. */
  lemma {:induction false} ExecKeepsInv(cfg: Config, schedule: seq<nat>)
    requires cfg.size >= 2
    ensures Inv(cfg, Exec(cfg, schedule))
  {
    if schedule == [] {
      var s := Exec(cfg, []);
      forall i | 0 <= i < |s.lanes| ensures LaneInv(cfg, s, i) {
        assert s.lanes[i] == EmptyLane(cfg.size);
      }
    } else {
      var before := schedule[..|schedule| - 1];
      ExecKeepsInv(cfg, before);
      StepKeepsInv(cfg, Exec(cfg, before), schedule[|schedule| - 1]);
    }
  }

  // ---- Delivery ----

  /** The messages that share an attribute with the worker's handler mask. */
  function Wanted(ms: seq<Message>, handler: set<nat>): seq<Message> {
    if ms == [] then []
    else
      var last := ms[|ms| - 1];
      Wanted(ms[..|ms| - 1], handler) + if last.mask * handler != {} then [last] else []
  }

  lemma {:induction false} QueueIsWanted(cfg: Config, i: nat, n: nat)
    requires i < |cfg.handlers| && n <= |cfg.input|
    ensures Queue(cfg, i, n) == Wrap(Wanted(cfg.input[..n], cfg.handlers[i]))
  {
    if n > 0 {
      QueueIsWanted(cfg, i, n - 1);
      assert cfg.input[..n][..n - 1] == cfg.input[..n - 1];
    }
  }

  lemma WholeQueue(cfg: Config, i: nat)
    requires i < |cfg.handlers|
    ensures Queue(cfg, i, |cfg.input| + 1) == Wrap(Wanted(cfg.input, cfg.handlers[i])) + [None]
  {
    QueueIsWanted(cfg, i, |cfg.input|);
    assert cfg.input[..|cfg.input|] == cfg.input;
  }

  lemma {:induction false} QueueGrows(cfg: Config, i: nat, m: nat, n: nat)
    requires i < |cfg.handlers| && m <= n
    ensures Queue(cfg, i, m) <= Queue(cfg, i, n)
    decreases n - m
  {
    if m < n { QueueGrows(cfg, i, m, n - 1); }
  }

  lemma UnwrapPrefix(ms: seq<Message>, ns: seq<Message>)
    requires Wrap(ms) <= Wrap(ns) + [None]
    ensures ms <= ns
  {
    assert (Wrap(ns) + [None])[|ns|] == None;
    assert forall k :: 0 <= k < |ms| ==> Wrap(ms)[k].Some?;
    forall k | 0 <= k < |ms| ensures ms[k] == ns[k] { assert Wrap(ms)[k] == Wrap(ns)[k]; }
  }

  /** What a worker has processed comes from a prefix of what was published to it. */
  lemma ProcessedPrefix(size: nat, l: Lane)
    requires LaneOk(size, l)
    ensures Wrap(l.processed) <= l.sent
  {
    if l.pc.Work? { assert Wrap(l.processed) <= Wrap(l.processed) + l.pc.buf; }
  }

  /**
    * Whatever the schedule: each worker has processed a prefix of the messages it wants, in order and once each, has
    * never handed NULL to the rules, has its whole share behind it when it exits, and never lags by more than size - 2.
    */
  lemma WholeRunDelivery(cfg: Config, schedule: seq<nat>, i: nat)
    requires cfg.size >= 2 && i < |cfg.handlers|
    ensures var l := Exec(cfg, schedule).lanes[i];
            && l.processed <= Wanted(cfg.input, cfg.handlers[i])
            && l.pc != Crashed
            && (l.pc == Exited ==> l.processed == Wanted(cfg.input, cfg.handlers[i]))
            && l.taken <= |l.sent| <= l.taken + cfg.size - 2
  {
    ExecKeepsInv(cfg, schedule);
    var s := Exec(cfg, schedule);
    assert LaneInv(cfg, s, i);
    var l, whole := s.lanes[i], Wanted(cfg.input, cfg.handlers[i]);
    WholeQueue(cfg, i);
    QueueGrows(cfg, i, Served(cfg, s, i), |cfg.input| + 1);
    ProcessedPrefix(cfg.size, l);
    UnwrapPrefix(l.processed, whole);
    if l.pc == Exited {
      assert (Wrap(l.processed) + [None])[|l.processed|] == None;
      assert forall k :: 0 <= k < |whole| ==> (Wrap(whole) + [None])[k].Some?;
    }
  }

  // ---- Progress ----

  /** A bound on the steps a worker still needs for the items in its ring and its buffer; 0 when it only polls. */
  function LaneLoad(l: Lane): nat {
    var q := if |l.sent| > l.taken then |l.sent| - l.taken else 0;
    match l.pc
    case Poll => 6 * q
    case RefreshHead => if q > 0 then 6 * q - 1 else 0
    case Copy(n, buf) => if 6 * q > 2 + |buf| then 6 * q - 2 - |buf| else 0
    case Work(buf) => 6 * q + |buf|
    case Exited => 0
    case Crashed => 0
  }

  function Load(lanes: seq<Lane>): nat {
    if lanes == [] then 0 else LaneLoad(lanes[0]) + Load(lanes[1..])
  }

  lemma {:induction false} LoadUpdate(lanes: seq<Lane>, i: nat, l: Lane)
    requires i < |lanes|
    ensures Load(lanes[i := l]) == Load(lanes) - LaneLoad(lanes[i]) + LaneLoad(l)
    ensures Load(lanes) >= LaneLoad(lanes[i])
  {
    if i == 0 { assert lanes[i := l][1..] == lanes[1..]; }
    else {
      LoadUpdate(lanes[1..], i - 1, l);
      assert lanes[i := l][1..] == lanes[1..][i - 1 := l];
    }
  }

  lemma {:induction false} SomeLoad(lanes: seq<Lane>) returns (i: nat)
    requires Load(lanes) > 0
    ensures i < |lanes| && LaneLoad(lanes[i]) > 0
  {
    if LaneLoad(lanes[0]) > 0 { i := 0; }
    else {
      var j := SomeLoad(lanes[1..]);
      i := j + 1;
    }
  }

  /** A loaded worker gets closer to the end with every step; an idle one stays idle. */
  lemma WorkerProgress(size: nat, l: Lane)
    requires LaneOk(size, l)
    ensures LaneLoad(l) > 0 ==> LaneLoad(WorkerStep(l)) < LaneLoad(l)
    ensures LaneLoad(l) == 0 ==> LaneLoad(WorkerStep(l)) == 0
  {
    EmptyTest(size, l);
    match l.pc
    case Poll =>
      if l.cachedHead != l.tail { BurstInside(size, l); }
    case RefreshHead =>
      var l1 := l.(cachedHead := l.head, seenHead := |l.sent|);
      EmptyTest(size, l1);
      if l1.cachedHead != l1.tail { BurstInside(size, l1); }
    case _ =>
  }

  lemma LoadZeroMeansDrained(size: nat, l: Lane)
    requires LaneOk(size, l) && LaneLoad(l) == 0
    ensures |l.sent| == l.taken && !l.pc.Work? && !l.pc.Copy?
  {}

  function Left(cfg: Config, s: System): nat {
    if s.d <= |cfg.input| then |cfg.input| + 1 - s.d else 0
  }

  function Waiting(s: System): nat {
    match s.pc
    case Fetch => |s.lanes| + 1
    case Pushing(todo, _, _) => |todo|
  }

  function PushRank(p: PushPc): nat {
    match p case Check => 3 case RefreshTail => 2 case Write => 1 case Publish => 0
  }

  predicate WaitsAhead(todo: set<nat>, i: nat) {
    exists j <- todo :: j >= i
  }

  /** How far an undisturbed dispatcher is from its next publication when every ring is empty. */
  function Distance(s: System): nat {
    var n := |s.lanes|;
    match s.pc
    case Fetch => 0
    case Pushing(todo, i, push) =>
      if Load(s.lanes) > 0 || i > n then 0
      else 4 * (n - i) + PushRank(push) + if WaitsAhead(todo, i) then 0 else 4 * n + 8
  }

  ghost predicate Lower(cfg: Config, r: System, s: System) {
    || Left(cfg, r) < Left(cfg, s)
    || (Left(cfg, r) == Left(cfg, s) &&
        (|| Waiting(r) < Waiting(s)
         || (Waiting(r) == Waiting(s) &&
             (|| Load(r.lanes) < Load(s.lanes)
              || (Load(r.lanes) == Load(s.lanes) && Distance(r) < Distance(s))))))
  }

  ghost predicate SameRank(cfg: Config, r: System, s: System) {
    Left(cfg, r) == Left(cfg, s) && Waiting(r) == Waiting(s) && Load(r.lanes) == Load(s.lanes)
        && Distance(r) == Distance(s)
  }

  /** An agent whose next step lowers the rank: a loaded worker or, when all rings are drained, the dispatcher. */
  predicate Helps(cfg: Config, s: System, agent: nat) {
    if agent == 0 then Load(s.lanes) == 0 && s.d <= |cfg.input|
    else agent <= |s.lanes| && LaneLoad(s.lanes[agent - 1]) > 0
  }

  /** A step lowers the rank, or it leaves rank and helpful agents as they are and was not taken by one of those. */
  ghost predicate Advances(cfg: Config, r: System, s: System, agent: nat) {
    || Lower(cfg, r, s)
    || (SameRank(cfg, r, s) && forall h :: Helps(cfg, s, h) ==> Helps(cfg, r, h) && h != agent)
  }

  lemma WorkerAdvances(cfg: Config, s: System, i: nat)
    requires Inv(cfg, s) && i < |s.lanes|
    ensures Advances(cfg, SetLane(s, i, WorkerStep(s.lanes[i])), s, i + 1)
  {
    var l := s.lanes[i];
    assert LaneInv(cfg, s, i);
    WorkerProgress(cfg.size, l);
    LoadUpdate(s.lanes, i, WorkerStep(l));
  }

  lemma {:induction false} BoundedSet(t: set<nat>, n: nat)
    requires forall j <- t :: j < n
    ensures |t| <= n
  {
    if n > 0 {
      BoundedSet(t - {n - 1}, n - 1);
      if n - 1 !in t { assert t - {n - 1} == t; }
    } else {
      assert t == {};
    }
  }

  /** With its ring drained, a push goes through. */
  lemma DrainedHasRoom(size: nat, l: Lane)
    requires RingOk(size, l) && |l.sent| == l.taken && size >= 3
    ensures (l.head + 2) % size != l.tail
  {
    FullTest(size, l.(cachedTail := l.tail, seenTail := l.taken));
  }

  lemma PushAdvances(cfg: Config, s: System)
    requires Inv(cfg, s) && cfg.size >= 3 && s.pc.Pushing? && s.pc.i in s.pc.todo
    ensures Advances(cfg, DispatchStep(cfg, s), s, 0)
  {
    var r, i := DispatchStep(cfg, s), s.pc.i;
    var l := s.lanes[i];
    assert LaneInv(cfg, s, i);
    LoadUpdate(s.lanes, i, r.lanes[i]);
    if s.pc.push != Publish {
      assert LaneLoad(r.lanes[i]) == LaneLoad(l);
      if Load(s.lanes) == 0 {
        LoadZeroMeansDrained(cfg.size, l);
        DrainedHasRoom(cfg.size, l);
        assert WaitsAhead(s.pc.todo, i);
      }
    }
  }

  lemma DispatcherAdvances(cfg: Config, s: System)
    requires Inv(cfg, s) && cfg.size >= 3
    ensures Advances(cfg, DispatchStep(cfg, s), s, 0)
  {
    if s.d <= |cfg.input| {
      match s.pc
      case Fetch =>
        BoundedSet(Wanters(cfg, s.d), |cfg.handlers|);
      case Pushing(todo, i, push) =>
        if i in todo { PushAdvances(cfg, s); }
        else if i < |s.lanes| { assert WaitsAhead(todo, i) <==> WaitsAhead(todo, i + 1); }
        else if todo != {} {
          var j :| j in todo;
          assert WaitsAhead(todo, 0) && !WaitsAhead(todo, i);
        }
    }
  }

  lemma StepAdvances(cfg: Config, s: System, agent: nat)
    requires Inv(cfg, s) && cfg.size >= 3
    ensures Advances(cfg, Step(cfg, s, agent), s, agent)
  {
    if agent == 0 { DispatcherAdvances(cfg, s); }
    else if agent <= |s.lanes| { WorkerAdvances(cfg, s, agent - 1); }
  }

  ghost predicate AllExited(s: System) {
    forall i :: 0 <= i < |s.lanes| ==> s.lanes[i].pc == Exited
  }

  lemma DrainedAtTheEnd(size: nat, l: Lane)
    requires LaneOk(size, l) && LaneLoad(l) == 0 && |l.sent| > 0 && l.sent[|l.sent| - 1] == None
    ensures l.pc == Exited
  {
    assert forall k :: 0 <= k < |l.processed| ==> Wrap(l.processed)[k].Some?;
    assert l.sent[..|l.sent|] == l.sent;
  }

  /** As long as a worker is running, somebody can bring the end closer. */
  lemma SomeoneHelps(cfg: Config, s: System) returns (h: nat)
    requires Inv(cfg, s) && !AllExited(s)
    ensures Helps(cfg, s, h) && h <= |cfg.handlers|
  {
    if Load(s.lanes) > 0 {
      var i := SomeLoad(s.lanes);
      h := i + 1;
    } else {
      h := 0;
      if s.d > |cfg.input| {
        var i :| 0 <= i < |s.lanes| && s.lanes[i].pc != Exited;
        var l := s.lanes[i];
        assert LaneInv(cfg, s, i);
        LoadUpdate(s.lanes, i, l);
        WholeQueue(cfg, i);
        DrainedAtTheEnd(cfg.size, l);
      }
    }
  }

  ghost predicate Comes(schedule: nat -> nat, agent: nat, from: nat) {
    exists u :: u >= from && schedule(u) == agent
  }

  /** The dispatcher and every worker get a turn again and again. */
  ghost predicate Fair(cfg: Config, schedule: nat -> nat) {
    forall agent: nat, from: nat :: agent <= |cfg.handlers| ==> Comes(schedule, agent, from)
  }

  function Turns(schedule: nat -> nat, t: nat): seq<nat> {
    seq(t, k requires k >= 0 => schedule(k))
  }

  function At(cfg: Config, schedule: nat -> nat, t: nat): System
    requires cfg.size > 0
  {
    Exec(cfg, Turns(schedule, t))
  }

  lemma AtNext(cfg: Config, schedule: nat -> nat, t: nat)
    requires cfg.size > 0
    ensures At(cfg, schedule, t + 1) == Step(cfg, At(cfg, schedule, t), schedule(t))
  {
    var now := Turns(schedule, t + 1);
    assert now[..|now| - 1] == Turns(schedule, t);
  }

  /** Agent h helps now and has its turn at time u. */
  lemma {:induction false} Converges(cfg: Config, schedule: nat -> nat, t: nat, h: nat, u: nat) returns (end: nat)
    requires cfg.size >= 3 && Fair(cfg, schedule)
    requires t <= u && schedule(u) == h && Helps(cfg, At(cfg, schedule, t), h)
    ensures AllExited(At(cfg, schedule, end))
    decreases Left(cfg, At(cfg, schedule, t)), Waiting(At(cfg, schedule, t)), Load(At(cfg, schedule, t).lanes),
              Distance(At(cfg, schedule, t)), u - t
  {
    hide Inv, Step, Exec, AllExited;
    var s, r := At(cfg, schedule, t), At(cfg, schedule, t + 1);
    AtNext(cfg, schedule, t);
    ExecKeepsInv(cfg, Turns(schedule, t));
    ExecKeepsInv(cfg, Turns(schedule, t + 1));
    StepAdvances(cfg, s, schedule(t));
    if !Lower(cfg, r, s) {
      end := Converges(cfg, schedule, t + 1, h, u);
    } else if AllExited(r) {
      end := t + 1;
    } else {
      var h1 := SomeoneHelps(cfg, r);
      assert Comes(schedule, h1, t + 1);
      var u1 :| u1 >= t + 1 && schedule(u1) == h1;
      end := Converges(cfg, schedule, t + 1, h1, u1);
    }
  }

  /** Under every fair schedule all workers come to exit, each with exactly its share of the messages processed. */
  lemma FairRunDelivers(cfg: Config, schedule: nat -> nat) returns (end: nat)
    requires cfg.size >= 3 && Fair(cfg, schedule)
    ensures AllExited(At(cfg, schedule, end))
    ensures forall i :: 0 <= i < |cfg.handlers| ==>
              At(cfg, schedule, end).lanes[i].processed == Wanted(cfg.input, cfg.handlers[i])
  {
    var s := At(cfg, schedule, 0);
    ExecKeepsInv(cfg, Turns(schedule, 0));
    if AllExited(s) { end := 0; }
    else {
      var h := SomeoneHelps(cfg, s);
      assert Comes(schedule, h, 0);
      var u :| u >= 0 && schedule(u) == h;
      end := Converges(cfg, schedule, 0, h, u);
    }
    forall i | 0 <= i < |cfg.handlers|
      ensures At(cfg, schedule, end).lanes[i].processed == Wanted(cfg.input, cfg.handlers[i])
    {
      WholeRunDelivery(cfg, Turns(schedule, end), i);
    }
  }

  /** Nothing has ever been published, and every index is where it began. */
  predicate Stalled(l: Lane) {
    && l.sent == [] && l.taken == 0 && l.processed == [] && l.pc in {Poll, RefreshHead}
    && l.head == l.tail == l.cachedHead == l.cachedTail == 0
  }

  /**
    * One or two slots are too few: the producer keeps two free, so under no schedule is anything published, and no
    * worker processes a message or exits.
    */
  lemma {:induction false} TwoSlotsStall(cfg: Config, schedule: seq<nat>)
    requires 1 <= cfg.size <= 2
    ensures forall i :: 0 <= i < |cfg.handlers| ==> Stalled(Exec(cfg, schedule).lanes[i])
    ensures Exec(cfg, schedule).pc.Pushing? ==> Exec(cfg, schedule).pc.push in {Check, RefreshTail}
  {
    if schedule != [] {
      var before, agent := schedule[..|schedule| - 1], schedule[|schedule| - 1];
      TwoSlotsStall(cfg, before);
      var s := Exec(cfg, before);
      assert cfg.size == 1 || cfg.size == 2;
      if 0 < agent <= |s.lanes| { assert Stalled(s.lanes[agent - 1]); }
      else if agent == 0 && s.pc.Pushing? && s.pc.i < |s.lanes| { assert Stalled(s.lanes[s.pc.i]); }
    }
  }
}
