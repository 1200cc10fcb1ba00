/** What a THEN rule asks of a trace, independently of how it is compiled and run. */
module RuleMeaning {
  import opened Wrappers
  import opened Rules
  import opened Compiler
  import opened ThenChain
  import opened Messages
  import opened FsmRuntime
  import opened ChainSteps

  /** The part of a trace that belongs to the given events. */
  function Restrict(tr: Trace, es: seq<nat>): (r: Trace)
    ensures |r| == |tr|
  {
    seq(|tr|, e requires 0 <= e < |tr| => if e in es then tr[e] else None)
  }

  function FirstOf(t: Tree): nat { Leaves(t)[0] }
  function LastOf(t: Tree): nat { Leaves(t)[|Leaves(t)| - 1] }

  /** The message of event b follows the one of event a, inside the given window. */
  predicate Follows(tr: Trace, a: nat, b: nat, d: Delay) {
    && a < |tr| && b < |tr| && tr[a].Some? && tr[b].Some?
    && tr[a].value.counter < tr[b].value.counter
    && tr[a].value.timestamp + d.timeMin <= tr[b].value.timestamp <= tr[a].value.timestamp + d.timeMax
  }

  /**
    * The trace satisfies the tree: every event has a message whose guard holds on the messages of the events before
    * it, and the first event of each trigger follows the last event of its context within the operator's delay.
    */
  predicate Holds(guard: Guard, t: Tree, tr: Trace, before: seq<nat>) {
    match t
    case Event(e) => e < |tr| && tr[e].Some? && guard(e, tr[e].value, Restrict(tr, before))
    case Oper(_, d, c, g) =>
      && Holds(guard, c, tr, before)
      && Holds(guard, g, tr, before + Leaves(c))
      && Follows(tr, LastOf(c), FirstOf(g), d)
  }

  ghost predicate Increasing(ms: seq<Message>) {
    forall i, j :: 0 <= i < j < |ms| ==> ms[i].counter < ms[j].counter
  }

  /** Deadlines computed from this message stay below 2^64 microseconds. */
  ghost predicate InRange(ch: Chain, msg: Message) {
    forall k :: 0 <= k < |ch.delays| ==>
      msg.timestamp + ch.delays[k].timeMin < TWO64 && msg.timestamp + ch.delays[k].timeMax < TWO64
  }

  /** The trace holds `ms` for the first events of the chain, and whatever else it holds is for later events. */
  ghost predicate Shows(m: Machine, ch: Chain, ms: seq<Message>, tr: Trace)
    requires ChainShape(ch) && (forall k :: 0 <= k < |ch.events| ==> ch.events[k] < m.size)
    requires |ms| <= |ch.events|
  {
    && |tr| == m.size
    && (forall j :: 0 <= j < |ms| ==> tr[ch.events[j]] == Some(ms[j]))
  }

  lemma TraceOfShows(m: Machine, ch: Chain, ms: seq<Message>)
    requires ChainMachine(m, ch) && |ms| <= |ch.events|
    ensures Shows(m, ch, ms, TraceOf(m.size, ch.events, ms))
  {
    forall j | 0 <= j < |ms| ensures TraceOf(m.size, ch.events, ms)[ch.events[j]] == Some(ms[j]) {
      TraceOfAt(m.size, ch.events, ms, ch.events[j]);
    }
  }

  lemma RestrictShows(m: Machine, ch: Chain, ms: seq<Message>, tr: Trace, j: nat)
    requires ChainMachine(m, ch) && |ms| <= |ch.events| && Shows(m, ch, ms, tr) && j <= |ms|
    ensures Restrict(tr, ch.events[..j]) == TraceOf(m.size, ch.events, ms[..j])
  {
    var r, t := Restrict(tr, ch.events[..j]), TraceOf(m.size, ch.events, ms[..j]);
    forall e | 0 <= e < m.size ensures r[e] == t[e] {
      TraceOfAt(m.size, ch.events, ms[..j], e);
      if e in ch.events[..j] {
        var i :| 0 <= i < j && ch.events[i] == e;
        assert ms[..j][i] == ms[i];
      }
    }
  }

  lemma WindowBounds(ch: Chain, ms: seq<Message>)
    requires ChainShape(ch) && 0 < |ms| < |ch.events|
    ensures var k := |ms| - 1;
            AddU64(ch.delays[k].timeMin, ms[k].timestamp) <= WinMin(ch, ms)
            && WinMax(ch, ms) <= AddU64(ch.delays[k].timeMax, ms[k].timestamp)
  {}

  /** The events and delays of `t` are those of the chain from place `o` on. */
  ghost predicate Covers(ch: Chain, t: Tree, o: nat)
    requires ChainShape(ch)
  {
    && o + |Leaves(t)| <= |ch.events|
    && ch.events[o..o + |Leaves(t)|] == Leaves(t)
    && ch.delays[o..o + |Leaves(t)| - 1] == Delays(t)
  }

  lemma CoversSplit(ch: Chain, t: Tree, o: nat) returns (k: nat)
    requires ChainShape(ch) && Covers(ch, t, o) && t.Oper?
    ensures k == o + |Leaves(t.context)| < k + |Leaves(t.trigger)| == o + |Leaves(t)| <= |ch.events|
    ensures Covers(ch, t.context, o) && Covers(ch, t.trigger, k) && ch.delays[k - 1] == t.delay
    ensures LastOf(t.context) == ch.events[k - 1] && FirstOf(t.trigger) == ch.events[k]
    ensures ch.events[..o] + Leaves(t.context) == ch.events[..k]
  {
    var a, b, e := Leaves(t.context), Leaves(t.trigger), o + |Leaves(t)|;
    k := o + |a|;
    SliceSplit(ch.events, o, a, b, k, e);
    assert e == k + |b|;
    DelayParts(ch.delays, o, k, e - 1, Delays(t.context), t.delay, Delays(t.trigger), Delays(t));
  }

  lemma DelayParts(s: seq<Delay>, o: nat, k: nat, e: nat, a: seq<Delay>, x: Delay, b: seq<Delay>, w: seq<Delay>)
    requires o < k <= e <= |s| && |a| == k - 1 - o && |b| == e - k
    requires s[o..e] == w && w == a + [x] + b
    ensures s[o..k - 1] == a && s[k - 1] == x && s[k..e] == b
  {
    forall i | o <= i < e ensures s[i] == w[i - o] { assert s[o..e][i - o] == s[i]; }
    forall i | 0 <= i < |a| ensures s[o..k - 1][i] == a[i] { assert w[i] == a[i]; }
    forall i | 0 <= i < |b| ensures s[k..e][i] == b[i] { assert w[|a| + 1 + i] == b[i]; }
    assert w[|a|] == x;
  }

  lemma SliceSplit<T>(s: seq<T>, o: nat, a: seq<T>, b: seq<T>, k: nat, e: nat)
    requires k == o + |a| && e == k + |b| <= |s| && s[o..e] == a + b
    ensures s[o..k] == a && s[k..e] == b && s[..o] + a == s[..k]
    ensures a != [] ==> s[k - 1] == a[|a| - 1]
    ensures b != [] ==> s[k] == b[0]
  {
    var w := s[o..e];
    assert w[..|a|] == a && w[|a|..] == b;
    assert a != [] ==> w[|a| - 1] == s[k - 1];
    assert b != [] ==> w[|a|] == s[k];
  }

  lemma RuleCovers(r: Rule)
    ensures ChainShape(ChainOf(r)) && Covers(ChainOf(r), Root(r), 0)
    ensures Covers(ChainOf(r), r.context, 0)
  {
    ChainOfShape(r);
    var _ := CoversSplit(ChainOf(r), Root(r), 0);
  }

  /** The hypotheses under which a matched sequence is compared with a trace. */
  ghost predicate Observed(m: Machine, ch: Chain, ms: seq<Message>, tr: Trace) {
    && ChainMachine(m, ch) && |ms| <= |ch.events| && Increasing(ms) && Shows(m, ch, ms, tr)
    && forall j :: 0 <= j < |ms| ==> InRange(ch, ms[j])
  }

  /** A window whose ends have not wrapped around. */
  lemma PlainWindow(d: Delay, t: nat, lo: nat, x: nat, hi: nat)
    requires t + d.timeMin < TWO64 && t + d.timeMax < TWO64
    requires AddU64(d.timeMin, t) <= lo <= x <= hi <= AddU64(d.timeMax, t)
    ensures t + d.timeMin <= x <= t + d.timeMax
  {}

  lemma SameWindow(d: Delay, t: nat)
    requires t + d.timeMin < TWO64 && t + d.timeMax < TWO64
    ensures AddU64(d.timeMin, t) == t + d.timeMin && AddU64(d.timeMax, t) == t + d.timeMax
  {}

  lemma AcceptedFollows(m: Machine, ch: Chain, ms: seq<Message>, tr: Trace, k: nat)
    requires Observed(m, ch, ms, tr) && 0 < k < |ms| && AcceptAt(m, ch, ms, k)
    ensures Follows(tr, ch.events[k - 1], ch.events[k], ch.delays[k - 1])
  {
    var us := ms[..k];
    WindowBounds(ch, us);
    assert InRange(ch, ms[k - 1]);
    hide ChainMachine, WinMin, WinMax, AddU64;
    PlainWindow(ch.delays[k - 1], ms[k - 1].timestamp, WinMin(ch, us), ms[k].timestamp, WinMax(ch, us));
  }

  /** Accepted messages satisfy every subtree whose events they cover. */
  lemma {:induction false} SubtreeHolds(m: Machine, ch: Chain, ms: seq<Message>, tr: Trace, t: Tree, o: nat)
    requires Observed(m, ch, ms, tr) && Accepted(m, ch, ms)
    requires Covers(ch, t, o) && o + |Leaves(t)| <= |ms|
    ensures Holds(m.guard, t, tr, ch.events[..o])
    decreases t
  {
    match t
    case Event(e) =>
      assert AcceptAt(m, ch, ms, o) && e == ch.events[o..o + 1][0] == ch.events[o];
      RestrictShows(m, ch, ms, tr, o);
    case Oper(_, d, c, g) =>
      var k := CoversSplit(ch, t, o);
      SubtreeHolds(m, ch, ms, tr, c, o);
      SubtreeHolds(m, ch, ms, tr, g, k);
      AcceptedFollows(m, ch, ms, tr, k);
  }

  lemma HoldsSplit(guard: Guard, t: Tree, tr: Trace, before: seq<nat>, mid: seq<nat>)
    requires t.Oper? && Holds(guard, t, tr, before) && mid == before + Leaves(t.context)
    ensures Holds(guard, t.context, tr, before) && Holds(guard, t.trigger, tr, mid)
    ensures Follows(tr, LastOf(t.context), FirstOf(t.trigger), t.delay)
  {}

  lemma LeafGives(m: Machine, ch: Chain, ms: seq<Message>, tr: Trace, t: Tree, o: nat)
    requires Observed(m, ch, ms, tr) && t.Event? && Covers(ch, t, o) && o < |ms|
    requires Holds(m.guard, t, tr, ch.events[..o])
    ensures m.guard(ch.events[o], ms[o], TraceOf(m.size, ch.events, ms[..o]))
  {
    assert t.id == ch.events[o..o + 1][0] == ch.events[o];
    RestrictShows(m, ch, ms, tr, o);
  }

  lemma SplitShape(m: Machine, ch: Chain, ms: seq<Message>)
    requires ChainMachine(m, ch) && |ms| <= |ch.events|
    ensures ChainShape(ch) && forall k :: 0 <= k < |ch.events| ==> ch.events[k] < m.size
    ensures |ch.delays| + 1 == |ch.events|
  {}

  /** The guard of event k held, and unless the event comes first it followed its predecessor in time. */
  ghost predicate Good(m: Machine, ch: Chain, ms: seq<Message>, tr: Trace, first: nat, k: nat)
    requires Observed(m, ch, ms, tr) && k < |ms|
  {
    && m.guard(ch.events[k], ms[k], TraceOf(m.size, ch.events, ms[..k]))
    && (k > first ==> Follows(tr, ch.events[k - 1], ch.events[k], ch.delays[k - 1]))
  }

  lemma GoodFrom(m: Machine, ch: Chain, ms: seq<Message>, tr: Trace, o: nat, n: nat, k: nat)
    requires Observed(m, ch, ms, tr) && o < n <= k < |ms| && Good(m, ch, ms, tr, n, k)
    requires Follows(tr, ch.events[n - 1], ch.events[n], ch.delays[n - 1])
    ensures Good(m, ch, ms, tr, o, k)
  {
    hide Follows, TraceOf, Observed;
  }

  /** What a satisfied subtree says about each of its events and about each pair of neighbours. */
  lemma {:induction false} SubtreeGives(m: Machine, ch: Chain, ms: seq<Message>, tr: Trace, t: Tree, o: nat, k: nat)
    requires Observed(m, ch, ms, tr)
    requires Covers(ch, t, o) && o <= k < o + |Leaves(t)| <= |ms|
    requires Holds(m.guard, t, tr, ch.events[..o])
    ensures Good(m, ch, ms, tr, o, k)
    decreases t
  {
    if t.Event? {
      assert |Leaves(t)| == 1;
      LeafGives(m, ch, ms, tr, t, o);
    } else {
      SplitShape(m, ch, ms);
      hide *;
      var n := CoversSplit(ch, t, o);
      HoldsSplit(m.guard, t, tr, ch.events[..o], ch.events[..n]);
      if k < n {
        SubtreeGives(m, ch, ms, tr, t.context, o, k);
      } else {
        SubtreeGives(m, ch, ms, tr, t.trigger, n, k);
        GoodFrom(m, ch, ms, tr, o, n, k);
      }
    }
  }

  /** A chain that has been read past the root context satisfies that context. */
  lemma ContextHolds(m: Machine, r: Rule, ms: seq<Message>, tr: Trace)
    requires Observed(m, ChainOf(r), ms, tr) && |Leaves(r.context)| <= |ms|
    requires Accepted(m, ChainOf(r), ms)
    ensures Holds(m.guard, r.context, tr, [])
  {
    RuleCovers(r);
    assert ChainOf(r).events[..0] == [];
    SubtreeHolds(m, ChainOf(r), ms, tr, r.context, 0);
  }

  // ---- Which windows an event has to respect ----

  /** The operator opened last by a timer reset: its window, and those of all operators opened since, are in force. */
  function Since(ch: Chain, k: nat): (r: nat)
    requires ChainShape(ch) && k < |ch.delays|
    ensures r <= k
  {
    if k == 0 || ch.acts[k] == ResetTimer then k else Since(ch, k - 1)
  }

  predicate InWindowOf(ch: Chain, ms: seq<Message>, j: nat, x: nat)
    requires ChainShape(ch) && j < |ms| < |ch.events|
  {
    AddU64(ch.delays[j].timeMin, ms[j].timestamp) <= x <= AddU64(ch.delays[j].timeMax, ms[j].timestamp)
  }

  /** An event is taken in time if and only if it lies in the window of every operator still in force. */
  lemma {:induction false} WindowMeaning(ch: Chain, ms: seq<Message>, x: nat)
    requires ChainShape(ch) && 0 < |ms| < |ch.events|
    ensures WinMin(ch, ms) <= x <= WinMax(ch, ms)
        <==> forall j :: Since(ch, |ms| - 1) <= j < |ms| ==> InWindowOf(ch, ms, j, x)
    decreases |ms|
  {
    var k := |ms| - 1;
    if k > 0 && ch.acts[k] != ResetTimer {
      var us := ms[..k];
      WindowMeaning(ch, us, x);
      assert forall j :: 0 <= j < k ==> InWindowOf(ch, us, j, x) == InWindowOf(ch, ms, j, x);
      assert Since(ch, k) == Since(ch, k - 1);
      assert InWindowOf(ch, ms, k, x)
          <==> AddU64(ch.delays[k].timeMin, ms[k].timestamp) <= x <= AddU64(ch.delays[k].timeMax, ms[k].timestamp);
    } else {
      assert Since(ch, k) == k;
      assert InWindowOf(ch, ms, k, x) <==> WinMin(ch, ms) <= x <= WinMax(ch, ms);
    }
  }

  /** Event k comes in the window of every operator that was opened before the last one and is still in force. */
  ghost predicate OuterWindows(ch: Chain, ms: seq<Message>, k: nat)
    requires ChainShape(ch) && 0 < k < |ms| <= |ch.events|
  {
    forall j :: Since(ch, k - 1) <= j < k - 1 ==> InWindowOf(ch, ms[..k], j, ms[k].timestamp)
  }

  lemma AcceptedAtIff(m: Machine, ch: Chain, ms: seq<Message>, tr: Trace, k: nat)
    requires Observed(m, ch, ms, tr) && 0 < k < |ms|
    ensures AcceptAt(m, ch, ms, k)
        <==> m.guard(ch.events[k], ms[k], TraceOf(m.size, ch.events, ms[..k]))
             && Follows(tr, ch.events[k - 1], ch.events[k], ch.delays[k - 1]) && OuterWindows(ch, ms, k)
  {
    var us, x := ms[..k], ms[k].timestamp;
    WindowMeaning(ch, us, x);
    assert InRange(ch, ms[k - 1]);
    SameWindow(ch.delays[k - 1], ms[k - 1].timestamp);
    hide AddU64, WinMin, WinMax, ChainMachine;
    assert InWindowOf(ch, us, k - 1, x) <==> Follows(tr, ch.events[k - 1], ch.events[k], ch.delays[k - 1]);
  }

  /**
    * A sequence that covers all events is accepted exactly when its trace satisfies the rule and no window that an
    * enclosing context opened earlier has cut a later one short.
    */
  lemma AcceptedIff(m: Machine, r: Rule, ms: seq<Message>, tr: Trace)
    requires Observed(m, ChainOf(r), ms, tr) && |ms| == |ChainOf(r).events|
    ensures Accepted(m, ChainOf(r), ms)
        <==> Holds(m.guard, Root(r), tr, []) && forall k :: 0 < k < |ms| ==> OuterWindows(ChainOf(r), ms, k)
  {
    var ch := ChainOf(r);
    RuleCovers(r);
    assert ch.events[..0] == [];
    if Accepted(m, ch, ms) {
      SubtreeHolds(m, ch, ms, tr, Root(r), 0);
      forall k | 0 < k < |ms| ensures OuterWindows(ch, ms, k) { AcceptedAtIff(m, ch, ms, tr, k); }
    }
    if Holds(m.guard, Root(r), tr, []) && forall k :: 0 < k < |ms| ==> OuterWindows(ch, ms, k) {
      forall k | 0 <= k < |ms| ensures AcceptAt(m, ch, ms, k) {
        SubtreeGives(m, ch, ms, tr, Root(r), 0, k);
        if k > 0 { AcceptedAtIff(m, ch, ms, tr, k); }
      }
    }
  }

  /** x THEN[0,5] (a THEN[0,10] b): the shortest rule in which one window cuts another short. */
  const Nested: Rule :=
    Rule(Plain(Then), Delay(0, 5, 0, 0), Event(1), Oper(Then, Delay(0, 10, 0, 0), Event(2), Event(3)))

  const NestedMessages: seq<Message> :=
    [Message(1, 0, 0, {}, 0), Message(2, 1, 0, {}, 0), Message(3, 8, 0, {}, 0)]

  /** Satisfying a rule is not enough to be accepted: here b comes 7 after a, but also 8 after x. */
  lemma HoldsButNotAccepted(guard: Guard, m: Machine)
    requires m == Machine(Compile(Nested), guard, 4)
    requires forall e, msg, tr :: guard(e, msg, tr)
    ensures Observed(m, ChainOf(Nested), NestedMessages, TraceOf(4, ChainOf(Nested).events, NestedMessages))
    ensures Holds(guard, Root(Nested), TraceOf(4, ChainOf(Nested).events, NestedMessages), [])
    ensures !Accepted(m, ChainOf(Nested), NestedMessages)
  {
    NestedChain();
    CompileThen(Nested);
    var ch := ChainOf(Nested);
    NestedObserved(m, ch);
    var tr := TraceOf(4, ch.events, NestedMessages);
    assert forall j :: 0 <= j < 3 ==> tr[ch.events[j]] == Some(NestedMessages[j]);
    NestedHolds(guard, tr);
    NestedCut(m, ch, tr);
  }

  lemma NestedObserved(m: Machine, ch: Chain)
    requires ch == Chain([1, 2, 3], [Delay(0, 5, 0, 0), Delay(0, 10, 0, 0)],
                         [CreateInstance, CreateInstance, ResetTimer], [FAIL, FAIL])
    requires IsChain(m.states, ch) && m.size == 4
    ensures Observed(m, ch, NestedMessages, TraceOf(4, ch.events, NestedMessages))
  {
    TraceOfShows(m, ch, NestedMessages);
  }

  lemma NestedHolds(guard: Guard, tr: Trace)
    requires forall e, msg, tr :: guard(e, msg, tr)
    requires |tr| == 4 && tr[1] == Some(NestedMessages[0]) && tr[2] == Some(NestedMessages[1])
    requires tr[3] == Some(NestedMessages[2])
    ensures Holds(guard, Root(Nested), tr, [])
  {
    var inner := Oper(Then, Delay(0, 10, 0, 0), Event(2), Event(3));
    assert FirstOf(inner) == 2 && LastOf(Event(2)) == 2 && FirstOf(Event(3)) == 3 && LastOf(Event(1)) == 1;
    assert Holds(guard, Event(3), tr, [1] + Leaves(Event(2)));
    assert Holds(guard, inner, tr, [1]);
  }

  lemma NestedCut(m: Machine, ch: Chain, tr: Trace)
    requires ch.delays == [Delay(0, 5, 0, 0), Delay(0, 10, 0, 0)]
    requires ch.acts == [CreateInstance, CreateInstance, ResetTimer]
    requires Observed(m, ch, NestedMessages, tr)
    ensures !Accepted(m, ch, NestedMessages)
  {
    AcceptedAtIff(m, ch, NestedMessages, tr, 2);
    assert Since(ch, 1) == 0;
    assert !InWindowOf(ch, NestedMessages[..2], 0, 8);
    assert !AcceptAt(m, ch, NestedMessages, 2);
  }

  lemma NestedChain()
    ensures ChainOf(Nested) == Chain([1, 2, 3], [Delay(0, 5, 0, 0), Delay(0, 10, 0, 0)],
                                     [CreateInstance, CreateInstance, ResetTimer], [FAIL, FAIL])
  {
    var t := Oper(Then, Delay(0, 10, 0, 0), Event(2), Event(3));
    assert Leaves(t) == [2, 3] && Delays(t) == [Delay(0, 10, 0, 0)]
        && Acts(t, ResetTimer) == [CreateInstance, ResetTimer];
    assert Lates(t, FAIL, FAIL) == [FAIL];
  }
}
