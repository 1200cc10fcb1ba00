/**
  * Threads that share one reference-counted message. Testing the count and acting on the test are two steps, and so are
  * the load and the store of a plain addition; the count itself is sequentially consistent.
  */
module Release {
  import opened Wrappers

  /** Where a thread is inside a release (`size` references at a time) or a plain, non-atomic addition. */
  datatype Pc = Idle | Decrementing(size: nat) | Freeing(size: nat) | Adding(extra: nat, seen: int)

  datatype Thread = Thread(holds: nat, pc: Pc)

  /** `frees` counts how often the block has been freed; `misused` says that it was touched or freed after that. */
  datatype Block = Block(count: int, frees: nat, misused: bool, threads: seq<Thread>)

  datatype Action =
    | BeginRelease(i: nat, size: nat)
    | FinishRelease(i: nat)
    | Retain(i: nat, extra: nat)
    | BeginAdd(i: nat, extra: nat)
    | FinishAdd(i: nat)
    | Give(i: nat, to: nat, some: nat)

  /** What the callers have to respect: they retain, hand over and release only references that they hold. */
  predicate Enabled(s: Block, a: Action) {
    && a.i < |s.threads|
    && var t := s.threads[a.i];
       match a
       case BeginRelease(_, size) => t.pc == Idle && 1 <= size <= t.holds
       case FinishRelease(_) => t.pc.Decrementing? || t.pc.Freeing?
       case Retain(_, _) => t.pc == Idle && t.holds > 0
       case BeginAdd(i, _) => t.pc == Idle && t.holds > 0 && forall j :: 0 <= j < |s.threads| && j != i ==>
           s.threads[j].holds == 0
       case FinishAdd(_) => t.pc.Adding?
       case Give(i, to, some) => t.pc == Idle && 0 < some <= t.holds && to < |s.threads| && to != i
  }

  function Next(s: Block, a: Action): Block
    requires Enabled(s, a)
  {
    var i := a.i;
    var t := s.threads[i];
    match a
    case BeginRelease(_, size) =>
      Touch(s).(threads := s.threads[i := t.(pc := if s.count <= size then Freeing(size) else Decrementing(size))])
    case FinishRelease(_) =>
      var left := t.(pc := Idle, holds := if t.holds >= t.pc.size then t.holds - t.pc.size else 0);
      if t.pc.Freeing? then Touch(s).(frees := s.frees + 1, threads := s.threads[i := left])
      else Touch(s).(count := s.count - t.pc.size, threads := s.threads[i := left])
    case Retain(_, extra) =>
      Touch(s).(count := s.count + extra, threads := s.threads[i := t.(holds := t.holds + extra)])
    case BeginAdd(_, extra) => Touch(s).(threads := s.threads[i := t.(pc := Adding(extra, s.count))])
    case FinishAdd(_) =>
      Touch(s).(count := t.pc.seen + t.pc.extra,
                threads := s.threads[i := t.(pc := Idle, holds := t.holds + t.pc.extra)])
    case Give(_, to, some) =>
      var u := s.threads[to];
      s.(threads := s.threads[i := t.(holds := t.holds - some)][to := u.(holds := u.holds + some)])
  }

  function Touch(s: Block): Block {
    s.(misused := s.misused || s.frees > 0)
  }

  /** A new message: thread 0 holds the only reference. */
  function Fresh(n: nat): Block
    requires n > 0
  {
    Block(1, 0, false, seq(n, i => if i == 0 then Thread(1, Idle) else Thread(0, Idle)))
  }

  /** The state after a run of actions; none if one of them was not allowed when its turn came. */
  function Execute(n: nat, run: seq<Action>): Option<Block>
    requires n > 0
  {
    if run == [] then Some(Fresh(n))
    else
      match Execute(n, run[..|run| - 1])
      case None => None
      case Some(s) => if Enabled(s, run[|run| - 1]) then Some(Next(s, run[|run| - 1])) else None
  }

  // ---- Holdings ----

  function Held(threads: seq<Thread>): nat {
    if threads == [] then 0 else threads[0].holds + Held(threads[1..])
  }

  lemma {:induction false} HeldUpdate(threads: seq<Thread>, i: nat, t: Thread)
    requires i < |threads|
    ensures Held(threads[i := t]) == Held(threads) - threads[i].holds + t.holds
    ensures Held(threads) >= threads[i].holds
  {
    if i == 0 { assert threads[i := t][1..] == threads[1..]; }
    else {
      HeldUpdate(threads[1..], i - 1, t);
      assert threads[i := t][1..] == threads[1..][i - 1 := t];
    }
  }

  lemma HeldPair(threads: seq<Thread>, i: nat, j: nat)
    requires i < |threads| && j < |threads| && i != j
    ensures Held(threads) >= threads[i].holds + threads[j].holds
  {
    var none := Thread(0, Idle);
    HeldUpdate(threads, i, none);
    HeldUpdate(threads[i := none], j, none);
  }

  lemma {:induction false} NoneHeld(threads: seq<Thread>)
    requires forall i :: 0 <= i < |threads| ==> threads[i].holds == 0
    ensures Held(threads) == 0
  {
    if threads != [] { NoneHeld(threads[1..]); }
  }

  lemma SoleHolder(threads: seq<Thread>, i: nat)
    requires i < |threads|
    ensures Held(threads) == threads[i].holds <==> forall j :: 0 <= j < |threads| && j != i ==> threads[j].holds == 0
  {
    if Held(threads) == threads[i].holds {
      forall j | 0 <= j < |threads| && j != i ensures threads[j].holds == 0 { HeldPair(threads, i, j); }
    }
    if forall j :: 0 <= j < |threads| && j != i ==> threads[j].holds == 0 {
      HeldUpdate(threads, i, Thread(0, Idle));
      NoneHeld(threads[i := Thread(0, Idle)]);
    }
  }

  // ---- Safety ----

  ghost predicate ThreadOk(s: Block, t: Thread) {
    match t.pc
    case Idle => true
    case Decrementing(size) => 1 <= size <= t.holds
    case Freeing(size) => 1 <= size == t.holds == s.count
    case Adding(_, seen) => 1 <= t.holds == seen == s.count
  }

  /** The count is what the threads hold; only a thread that holds everything frees or adds without atomicity. */
  ghost predicate Safe(s: Block) {
    && s.frees <= 1 && !s.misused
    && (s.frees == 0 ==> s.count == Held(s.threads))
    && (s.frees == 1 ==> forall i :: 0 <= i < |s.threads| ==> s.threads[i].holds == 0)
    && forall i :: 0 <= i < |s.threads| ==> ThreadOk(s, s.threads[i])
  }

  lemma OneThreadKeeps(s: Block, a: Action)
    requires Safe(s) && Enabled(s, a) && !a.Give?
    ensures Safe(Next(s, a))
  {
    var r := Next(s, a);
    assert ThreadOk(s, s.threads[a.i]);
    HeldUpdate(s.threads, a.i, r.threads[a.i]);
    SoleHolder(s.threads, a.i);
    forall j | 0 <= j < |r.threads| ensures ThreadOk(r, r.threads[j]) {
      assert ThreadOk(s, s.threads[j]);
      if j != a.i { HeldPair(s.threads, a.i, j); }
    }
  }

  lemma GiveKeeps(s: Block, a: Action)
    requires Safe(s) && Enabled(s, a) && a.Give?
    ensures Safe(Next(s, a))
  {
    var r := Next(s, a);
    HeldUpdate(s.threads, a.i, r.threads[a.i]);
    HeldUpdate(s.threads[a.i := r.threads[a.i]], a.to, r.threads[a.to]);
    forall j | 0 <= j < |r.threads| ensures ThreadOk(r, r.threads[j]) {
      assert ThreadOk(s, s.threads[j]);
      if j != a.i { HeldPair(s.threads, a.i, j); }
    }
  }

  lemma FreshIsSafe(n: nat)
    requires n > 0
    ensures Safe(Fresh(n)) && Held(Fresh(n).threads) == 1
  {
    SoleHolder(Fresh(n).threads, 0);
  }

  /**
    * Under every interleaving the message is freed at most once, never while a thread holds a reference to it, and
    * never touched again; until then its count is exactly the number of references held.
    */
  lemma {:induction false} ReleaseIsSafe(n: nat, run: seq<Action>)
    requires n > 0
    ensures Execute(n, run).Some? ==>
              var s := Execute(n, run).value;
              && s.frees <= 1 && !s.misused
              && (Held(s.threads) > 0 ==> s.frees == 0)
              && (s.frees == 0 ==> s.count == Held(s.threads))
              && Safe(s)
  {
    if run == [] { FreshIsSafe(n); }
    else if Execute(n, run).Some? {
      var a, before := run[|run| - 1], Execute(n, run[..|run| - 1]).value;
      ReleaseIsSafe(n, run[..|run| - 1]);
      if a.Give? { GiveKeeps(before, a); } else { OneThreadKeeps(before, a); }
    }
    if Execute(n, run).Some? && Execute(n, run).value.frees == 1 { NoneHeld(Execute(n, run).value.threads); }
  }

  // ---- Which release frees ----

  predicate Quiet(s: Block) {
    forall i :: 0 <= i < |s.threads| ==> s.threads[i].pc == Idle
  }

  /** The message has been freed, or a thread is on its way to free it. */
  ghost predicate Doomed(s: Block) {
    s.frees == 1 || exists i :: 0 <= i < |s.threads| && s.threads[i].pc.Freeing?
  }

  /** A release begins while all references there are, are the ones that it gives back. */
  predicate TakesLast(s: Block, a: Action) {
    a.BeginRelease? && s.frees == 0 && Held(s.threads) == a.size
  }

  ghost predicate TakenAt(n: nat, run: seq<Action>, k: nat)
    requires n > 0
  {
    k < |run| && Execute(n, run[..k]).Some? && TakesLast(Execute(n, run[..k]).value, run[k])
  }

  /** Some release of the run began with all references there were. */
  ghost predicate LastTaken(n: nat, run: seq<Action>)
    requires n > 0
  {
    exists k :: 0 <= k < |run| && TakenAt(n, run, k)
  }

  lemma DoomedStep(s: Block, a: Action)
    requires Safe(s) && Enabled(s, a)
    ensures Doomed(Next(s, a)) <==> Doomed(s) || TakesLast(s, a)
  {
    var r := Next(s, a);
    assert ThreadOk(s, s.threads[a.i]);
    HeldUpdate(s.threads, a.i, s.threads[a.i]);
    assert forall j :: 0 <= j < |s.threads| && j != a.i ==> r.threads[j].pc == s.threads[j].pc;
    if Doomed(s) && s.frees == 0 {
      var j :| 0 <= j < |s.threads| && s.threads[j].pc.Freeing?;
      assert ThreadOk(s, s.threads[j]);
      if j != a.i { assert r.threads[j].pc.Freeing?; }
    }
    if TakesLast(s, a) { assert r.threads[a.i].pc.Freeing?; }
    if Doomed(r) && r.frees != 1 {
      var j :| 0 <= j < |r.threads| && r.threads[j].pc.Freeing?;
      assert j != a.i ==> s.threads[j].pc.Freeing?;
    }
  }

  lemma TakenSame(n: nat, init: seq<Action>, a: Action, k: nat)
    requires n > 0 && k < |init|
    ensures TakenAt(n, init, k) <==> TakenAt(n, init + [a], k)
  {
    hide Execute, TakesLast;
    assert (init + [a])[..k] == init[..k];
  }

  lemma LastTakenStep(n: nat, init: seq<Action>, a: Action)
    requires n > 0 && Execute(n, init).Some?
    ensures LastTaken(n, init + [a]) <==> LastTaken(n, init) || TakesLast(Execute(n, init).value, a)
  {
    var run := init + [a];
    assert TakenAt(n, run, |init|) <==> TakesLast(Execute(n, init).value, a) by {
      hide Execute, TakesLast;
      assert run[..|init|] == init;
    }
    hide Execute, TakesLast, TakenAt;
    forall k | 0 <= k < |init| ensures TakenAt(n, init, k) <==> TakenAt(n, run, k) { TakenSame(n, init, a, k); }
    if LastTaken(n, init) {
      var k :| 0 <= k < |init| && TakenAt(n, init, k);
      assert TakenAt(n, run, k);
    }
    if LastTaken(n, run) {
      var k :| 0 <= k < |run| && TakenAt(n, run, k);
      assert k < |init| ==> TakenAt(n, init, k);
    }
  }

  /**
    * Under every interleaving the message is freed, or about to be, if and only if some release began while the
    * references it gave back were all that were held: then its test finds the count at most its size.
    */
  lemma {:induction false} FreedIff(n: nat, run: seq<Action>)
    requires n > 0 && Execute(n, run).Some?
    ensures Doomed(Execute(n, run).value) <==> LastTaken(n, run)
  {
    if run != [] {
      var init := run[..|run| - 1];
      LastTakenStep(n, init, run[|run| - 1]);
      assert init + [run[|run| - 1]] == run;
      FreedIff(n, init);
      ReleaseIsSafe(n, init);
      DoomedStep(Execute(n, init).value, run[|run| - 1]);
    }
  }

  /**
    * So a message nobody holds any more, with all threads at rest, has leaked if and only if there was no such
    * release.
    */
  lemma LeakIff(n: nat, run: seq<Action>)
    requires n > 0 && Execute(n, run).Some?
    requires Quiet(Execute(n, run).value) && Held(Execute(n, run).value.threads) == 0
    ensures Execute(n, run).value.frees == 0 <==> !LastTaken(n, run)
    ensures Execute(n, run).value.frees == 1 <==> LastTaken(n, run)
  {
    FreedIff(n, run);
    ReleaseIsSafe(n, run);
  }

  // ---- Leaks ----

  predicate Releasing(t: Thread) {
    t.pc.Decrementing? || t.pc.Freeing?
  }

  /** No release begins while another is between its test and its action. */
  ghost predicate Serial(n: nat, run: seq<Action>)
    requires n > 0
  {
    && Execute(n, run).Some?
    && (run != [] ==> Serial(n, run[..|run| - 1]) && Alone(Execute(n, run[..|run| - 1]).value, run[|run| - 1]))
  }

  ghost predicate Alone(s: Block, a: Action) {
    a.BeginRelease? ==> forall j :: 0 <= j < |s.threads| ==> !Releasing(s.threads[j])
  }

  ghost predicate OneAtATime(s: Block) {
    forall i, j :: 0 <= i < j < |s.threads| ==> !(Releasing(s.threads[i]) && Releasing(s.threads[j]))
  }

  /** A decrement in progress leaves something for a later release to free. */
  ghost predicate NoLeak(s: Block) {
    && (s.frees == 0 ==> Held(s.threads) > 0)
    && forall i :: 0 <= i < |s.threads| && s.threads[i].pc.Decrementing? ==> s.threads[i].pc.size < Held(s.threads)
  }

  /** As long as releases do not overlap, the last one frees the message. */
  lemma {:induction false} SerialReleasesFree(n: nat, run: seq<Action>)
    requires n > 0
    ensures Serial(n, run) ==>
              var s := Execute(n, run).value;
              (s.frees == 1 <==> Held(s.threads) == 0) && OneAtATime(s) && NoLeak(s)
  {
    ReleaseIsSafe(n, run);
    if run == [] { FreshIsSafe(n); }
    else if Serial(n, run) {
      var a, before := run[|run| - 1], run[..|run| - 1];
      SerialReleasesFree(n, before);
      ReleaseIsSafe(n, before);
      if a.Give? { SerialGive(Execute(n, before).value, a); } else { SerialStep(Execute(n, before).value, a); }
    }
  }

  lemma SerialGive(s: Block, a: Action)
    requires Safe(s) && Enabled(s, a) && a.Give? && OneAtATime(s) && NoLeak(s)
    ensures OneAtATime(Next(s, a)) && NoLeak(Next(s, a))
  {
    var r := Next(s, a);
    HeldUpdate(s.threads, a.i, r.threads[a.i]);
    HeldUpdate(s.threads[a.i := r.threads[a.i]], a.to, r.threads[a.to]);
  }

  lemma SerialStep(s: Block, a: Action)
    requires Safe(s) && Enabled(s, a) && !a.Give? && Alone(s, a) && OneAtATime(s) && NoLeak(s)
    ensures OneAtATime(Next(s, a)) && NoLeak(Next(s, a))
  {
    var r := Next(s, a);
    assert ThreadOk(s, s.threads[a.i]);
    HeldUpdate(s.threads, a.i, r.threads[a.i]);
    if a.FinishRelease? { assert forall j :: 0 <= j < |s.threads| && j != a.i ==> !Releasing(s.threads[j]); }
  }

  /** Two releases whose tests both come first: each sees the other's reference, so both decrement and nobody frees. */
  lemma OverlappingReleasesLeak() returns (run: seq<Action>)
    ensures Execute(2, run).Some?
    ensures var s := Execute(2, run).value;
            Held(s.threads) == 0 && s.count == 0 && s.frees == 0
  {
    run := Extend(2, [], Retain(0, 1));
    run := Extend(2, run, Give(0, 1, 1));
    assert Execute(2, run).value.threads == [Thread(1, Idle), Thread(1, Idle)];
    run := Extend(2, run, BeginRelease(0, 1));
    run := Extend(2, run, BeginRelease(1, 1));
    assert Execute(2, run).value.threads == [Thread(1, Decrementing(1)), Thread(1, Decrementing(1))];
    run := Extend(2, run, FinishRelease(0));
    run := Extend(2, run, FinishRelease(1));
    assert Execute(2, run).value.threads == [Thread(0, Idle), Thread(0, Idle)];
    NoneHeld(Execute(2, run).value.threads);
  }

  lemma Extend(n: nat, run: seq<Action>, a: Action) returns (longer: seq<Action>)
    requires n > 0 && Execute(n, run).Some? && Enabled(Execute(n, run).value, a)
    ensures longer == run + [a] && Execute(n, longer) == Some(Next(Execute(n, run).value, a))
  {
    longer := run + [a];
    assert longer[..|longer| - 1] == run;
  }
}
