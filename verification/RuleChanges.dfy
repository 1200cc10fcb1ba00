/**
  * Adding and removing rules at run time: the global rule set, the indices of the attributes, and a handler that
  * keeps one engine, one counter and one mask for each of its rules.
  */
module RuleChanges {
  import opened Wrappers
  import Rules

  /** Protocol and attribute number. */
  type Att = (nat, nat)

  /** `events` lists the attributes of each event, `excluded` those of them that are left out of the event's mask. */
  datatype RuleInfo = RuleInfo(id: nat, atts: seq<Att>, events: seq<seq<Att>>, excluded: seq<set<Att>>)

  /** One entry of the handler's parallel arrays; the engine is known by the rule that it was created for. */
  datatype Row = Row(rule: RuleInfo, engine: nat, alerts: nat, mask: set<nat>)

  datatype System = System(rules: seq<RuleInfo>, atts: seq<Att>, rows: seq<Row>, mask: set<nat>)

  const MAX_RULES: nat := 100000
  const MAX_ATTS: nat := 64

  // ---- Masks ----

  /** The place of an attribute in the list, and so its bit; the length of the list when it is not registered. */
  function IndexOf(atts: seq<Att>, a: Att): (i: nat)
    ensures i <= |atts|
    ensures a in atts ==> i < |atts| && atts[i] == a
    ensures a !in atts ==> i == |atts|
  {
    if atts == [] then 0 else if atts[0] == a then 0 else 1 + IndexOf(atts[1..], a)
  }

  function EventMask(atts: seq<Att>, r: RuleInfo, e: nat): set<nat>
    requires e < |r.events|
  {
    set p | p in r.events[e] && !(e < |r.excluded| && p in r.excluded[e]) :: IndexOf(atts, p)
  }

  /** The masks of the first n events together. */
  function MaskOf(atts: seq<Att>, r: RuleInfo, n: nat): set<nat>
    requires n <= |r.events|
  {
    if n == 0 then {} else MaskOf(atts, r, n - 1) + EventMask(atts, r, n - 1)
  }

  function RuleMask(atts: seq<Att>, r: RuleInfo): set<nat> {
    MaskOf(atts, r, |r.events|)
  }

  function AllMasks(rows: seq<Row>): set<nat> {
    if rows == [] then {} else AllMasks(rows[..|rows| - 1]) + rows[|rows| - 1].mask
  }

  function NewRow(atts: seq<Att>, r: RuleInfo): Row {
    Row(r, r.id, 0, RuleMask(atts, r))
  }

  // ---- Changes ----

  /** Takes element i out and fills its place with the last one. */
  function SwapOut<T>(s: seq<T>, i: nat): seq<T>
    requires i < |s|
  {
    s[i := s[|s| - 1]][..|s| - 1]
  }

  function FindRule(rules: seq<RuleInfo>, id: nat): (i: nat)
    ensures i <= |rules|
    ensures i < |rules| ==> rules[i].id == id
    ensures i == |rules| ==> forall r <- rules :: r.id != id
  {
    if rules == [] then 0 else if rules[0].id == id then 0 else 1 + FindRule(rules[1..], id)
  }

  function RemoveId(rules: seq<RuleInfo>, id: nat): seq<RuleInfo> {
    var i := FindRule(rules, id);
    if i < |rules| then SwapOut(rules, i) else rules
  }

  function RemoveIds(rules: seq<RuleInfo>, ids: seq<nat>): seq<RuleInfo> {
    if ids == [] then rules else RemoveId(RemoveIds(rules, ids[..|ids| - 1]), ids[|ids| - 1])
  }

  predicate HasId(rules: seq<RuleInfo>, id: nat) {
    exists r <- rules :: r.id == id
  }

  /** The handler's loop: a rule that is no longer global is swapped out, and its place looked at again. */
  function RetainRows(rows: seq<Row>, rules: seq<RuleInfo>, i: nat): seq<Row>
    requires i <= |rows|
    decreases |rows| - i
  {
    if i == |rows| then rows
    else if HasId(rules, rows[i].rule.id) then RetainRows(rows, rules, i + 1)
    else RetainRows(SwapOut(rows, i), rules, i)
  }

  /** The candidates that the ids name and that are not there yet. */
  function Missing(candidates: seq<RuleInfo>, ids: seq<nat>, present: set<nat>): seq<RuleInfo> {
    if candidates == [] then []
    else
      var last := candidates[|candidates| - 1];
      Missing(candidates[..|candidates| - 1], ids, present) +
      if last.id in ids && last.id !in present then [last] else []
  }

  function AddAtts(atts: seq<Att>, more: seq<Att>): seq<Att> {
    if more == [] then atts
    else
      var before, last := AddAtts(atts, more[..|more| - 1]), more[|more| - 1];
      if last in before then before else before + [last]
  }

  function AttsOf(rules: seq<RuleInfo>): seq<Att> {
    if rules == [] then [] else AttsOf(rules[..|rules| - 1]) + rules[|rules| - 1].atts
  }

  function Ids(rules: seq<RuleInfo>): set<nat> {
    set r <- rules :: r.id
  }

  function RowIds(rows: seq<Row>): set<nat> {
    set w <- rows :: w.rule.id
  }

  function NewRows(atts: seq<Att>, rules: seq<RuleInfo>): seq<Row> {
    seq(|rules|, i requires 0 <= i < |rules| => NewRow(atts, rules[i]))
  }

  datatype Change =
    | Remove(ids: seq<nat>)
    | Add(available: seq<RuleInfo>, ids: seq<nat>)
    /** A verdict of the i-th rule is counted. */
    | Alert(i: nat)

  /** None when the program halts because a limit is passed. */
  function Apply(s: System, c: Change): Option<System> {
    match c
    case Remove(ids) =>
      var rules := RemoveIds(s.rules, ids);
      if |rules| == |s.rules| then Some(s)
      else
        var rows := RetainRows(s.rows, rules, 0);
        Some(System(rules, s.atts, rows, if |rows| < |s.rows| then AllMasks(rows) else s.mask))
    case Add(available, ids) =>
      var added := Missing(available, ids, Ids(s.rules));
      if added == [] then Some(s)
      else
        var rules, atts := s.rules + added, AddAtts(s.atts, AttsOf(added));
        if |rules| > MAX_RULES || |atts| > MAX_ATTS then None
        else
          var joining := NewRows(atts, Missing(rules, ids, RowIds(s.rows)));
          Some(System(rules, atts, s.rows + joining, s.mask + AllMasks(joining)))
    case Alert(i) =>
      if i < |s.rows| then Some(s.(rows := s.rows[i := s.rows[i].(alerts := s.rows[i].alerts + 1)])) else Some(s)
  }

  /** The state after initialisation with these rules; `atts` lists their attributes in the order of their bits. */
  function Start(rules: seq<RuleInfo>, atts: seq<Att>): System {
    System(rules, atts, NewRows(atts, rules), AllMasks(NewRows(atts, rules)))
  }

  function Run(s: System, changes: seq<Change>): Option<System> {
    if changes == [] then Some(s)
    else
      match Run(s, changes[..|changes| - 1])
      case None => None
      case Some(t) => Apply(t, changes[|changes| - 1])
  }

  // ---- Sequences with unique keys ----

  ghost predicate UniqueBy<T(!new)>(s: seq<T>, key: T -> nat) {
    forall i, j :: 0 <= i < j < |s| ==> key(s[i]) != key(s[j])
  }

  function RuleKey(): RuleInfo -> nat {
    (r: RuleInfo) => r.id
  }

  function RowKey(): Row -> nat {
    (w: Row) => w.rule.id
  }

  lemma SwapOutMembers<T(!new)>(s: seq<T>, i: nat, key: T -> nat)
    requires i < |s| && UniqueBy(s, key)
    ensures UniqueBy(SwapOut(s, i), key)
    ensures forall x :: x in SwapOut(s, i) <==> x in s && x != s[i]
  {
    var r := SwapOut(s, i);
    forall x | x in s && x != s[i] ensures x in r {
      var k :| 0 <= k < |s| && s[k] == x;
      assert if k == |s| - 1 then r[i] == x else r[k] == x;
    }
  }

  // ---- Removal ----

  lemma {:induction false} RemoveIdsMembers(rules: seq<RuleInfo>, ids: seq<nat>)
    requires UniqueBy(rules, RuleKey())
    ensures UniqueBy(RemoveIds(rules, ids), RuleKey())
    ensures forall r :: r in RemoveIds(rules, ids) <==> r in rules && r.id !in ids
    ensures |RemoveIds(rules, ids)| == |rules| ==> RemoveIds(rules, ids) == rules
    ensures |RemoveIds(rules, ids)| <= |rules|
  {
    if ids != [] {
      var before, id := RemoveIds(rules, ids[..|ids| - 1]), ids[|ids| - 1];
      RemoveIdsMembers(rules, ids[..|ids| - 1]);
      var i := FindRule(before, id);
      if i < |before| {
        SwapOutMembers(before, i, RuleKey());
        SameKeySameRule(before, i);
      }
    }
  }

  lemma SameKeySameRule(rules: seq<RuleInfo>, i: nat)
    requires UniqueBy(rules, RuleKey()) && i < |rules|
    ensures forall r <- rules :: r.id == rules[i].id ==> r == rules[i]
  {
    forall r <- rules | r.id == rules[i].id ensures r == rules[i] {
      var k :| 0 <= k < |rules| && rules[k] == r;
    }
  }

  /** The loop keeps exactly the rows whose rule is still global, each as it was. */
  lemma {:induction false} RetainRowsMembers(rows: seq<Row>, rules: seq<RuleInfo>, i: nat)
    requires UniqueBy(rows, RowKey()) && i <= |rows|
    requires forall k :: 0 <= k < i ==> HasId(rules, rows[k].rule.id)
    ensures UniqueBy(RetainRows(rows, rules, i), RowKey())
    ensures forall w :: w in RetainRows(rows, rules, i) <==> w in rows && HasId(rules, w.rule.id)
    ensures |RetainRows(rows, rules, i)| <= |rows|
    ensures |RetainRows(rows, rules, i)| == |rows| ==> RetainRows(rows, rules, i) == rows
    decreases |rows| - i
  {
    if i < |rows| {
      if HasId(rules, rows[i].rule.id) { RetainRowsMembers(rows, rules, i + 1); }
      else {
        SwapOutMembers(rows, i, RowKey());
        RetainRowsMembers(SwapOut(rows, i), rules, i);
      }
    }
  }

  // ---- Addition ----

  lemma {:induction false} MissingMembers(candidates: seq<RuleInfo>, ids: seq<nat>, present: set<nat>)
    ensures forall r :: r in Missing(candidates, ids, present) <==> r in candidates && r.id in ids && r.id !in present
    ensures UniqueBy(candidates, RuleKey()) ==> UniqueBy(Missing(candidates, ids, present), RuleKey())
  {
    if candidates != [] {
      var last := |candidates| - 1;
      MissingMembers(candidates[..last], ids, present);
      assert candidates == candidates[..last] + [candidates[last]];
      if UniqueBy(candidates, RuleKey()) {
        forall r <- candidates[..last] ensures RuleKey()(r) != RuleKey()(candidates[last]) {
          var k :| 0 <= k < last && candidates[k] == r;
        }
      }
    }
  }

  lemma {:induction false} AddAttsMembers(atts: seq<Att>, more: seq<Att>)
    requires Rules.Distinct(atts)
    ensures Rules.Distinct(AddAtts(atts, more)) && atts <= AddAtts(atts, more)
    ensures forall a :: a in AddAtts(atts, more) <==> a in atts || a in more
  {
    if more != [] {
      AddAttsMembers(atts, more[..|more| - 1]);
      assert more == more[..|more| - 1] + [more[|more| - 1]];
    }
  }

  lemma {:induction false} AttsOfMembers(rules: seq<RuleInfo>)
    ensures forall r <- rules :: forall a <- r.atts :: a in AttsOf(rules)
  {
    if rules != [] {
      AttsOfMembers(rules[..|rules| - 1]);
      assert rules == rules[..|rules| - 1] + [rules[|rules| - 1]];
    }
  }

  // ---- Stable indices ----

  /** Indices of registered attributes are unique and stay what they are when more attributes are appended. */
  lemma {:induction false} IndexStable(atts: seq<Att>, longer: seq<Att>, a: Att)
    requires atts <= longer && a in atts
    ensures IndexOf(longer, a) == IndexOf(atts, a)
  {
    if atts[0] != a { IndexStable(atts[1..], longer[1..], a); }
  }

  /** What rule files guarantee: an event uses attributes of its rule only. */
  predicate Proper(r: RuleInfo) {
    forall e <- r.events :: forall a <- e :: a in r.atts
  }

  predicate Registered(atts: seq<Att>, r: RuleInfo) {
    forall a <- r.atts :: a in atts
  }

  lemma {:induction false} MaskStable(atts: seq<Att>, longer: seq<Att>, r: RuleInfo, n: nat)
    requires atts <= longer && Proper(r) && Registered(atts, r) && n <= |r.events|
    ensures MaskOf(longer, r, n) == MaskOf(atts, r, n)
  {
    if n > 0 {
      MaskStable(atts, longer, r, n - 1);
      forall p <- r.events[n - 1] ensures IndexOf(longer, p) == IndexOf(atts, p) {
        assert r.events[n - 1] in r.events;
        IndexStable(atts, longer, p);
      }
      assert EventMask(longer, r, n - 1) == EventMask(atts, r, n - 1);
    }
  }

  // ---- The invariant ----

  ghost predicate RowOk(atts: seq<Att>, w: Row) {
    w.engine == w.rule.id && w.mask == RuleMask(atts, w.rule)
  }

  ghost predicate RuleOk(atts: seq<Att>, r: RuleInfo) {
    Proper(r) && Registered(atts, r)
  }

  /** The handler verifies exactly the global rules, each with its own engine and mask. */
  ghost predicate SameRules(rules: seq<RuleInfo>, rows: seq<Row>) {
    && (forall w <- rows :: w.rule in rules)
    && forall r <- rules :: r.id in RowIds(rows)
  }

  ghost predicate SystemOk(s: System) {
    && Rules.Distinct(s.atts) && |s.atts| <= MAX_ATTS
    && UniqueBy(s.rules, RuleKey()) && UniqueBy(s.rows, RowKey())
    && (forall r <- s.rules :: RuleOk(s.atts, r))
    && (forall w <- s.rows :: RowOk(s.atts, w))
    && SameRules(s.rules, s.rows)
    && s.mask == AllMasks(s.rows)
  }

  /** The rule files on disk have unique ids. */
  ghost predicate ChangeOk(c: Change) {
    c.Add? ==> UniqueBy(c.available, RuleKey()) && forall r <- c.available :: Proper(r)
  }

  lemma {:induction false} AllMasksMembers(rows: seq<Row>, bit: nat)
    ensures bit in AllMasks(rows) <==> exists w <- rows :: bit in w.mask
  {
    if rows != [] {
      AllMasksMembers(rows[..|rows| - 1], bit);
      assert rows == rows[..|rows| - 1] + [rows[|rows| - 1]];
    }
  }

  lemma {:induction false} AllMasksAppend(rows: seq<Row>, more: seq<Row>)
    ensures AllMasks(rows + more) == AllMasks(rows) + AllMasks(more)
  {
    if more == [] { assert rows + more == rows; }
    else {
      AllMasksAppend(rows, more[..|more| - 1]);
      assert (rows + more)[..|rows + more| - 1] == rows + more[..|more| - 1];
    }
  }

  lemma RemoveKeeps(s: System, ids: seq<nat>)
    requires SystemOk(s)
    ensures SystemOk(Apply(s, Remove(ids)).value)
    ensures var t := Apply(s, Remove(ids)).value;
            forall w :: w in t.rows <==> w in s.rows && w.rule.id !in ids
  {
    var rules := RemoveIds(s.rules, ids);
    RemoveIdsMembers(s.rules, ids);
    RetainRowsMembers(s.rows, rules, 0);
    RemainingRows(s, ids);
  }

  /** In a consistent system the rows to retain are those whose id is not named. */
  lemma RemainingRows(s: System, ids: seq<nat>)
    requires SystemOk(s)
    ensures forall w <- s.rows :: HasId(RemoveIds(s.rules, ids), w.rule.id) <==> w.rule.id !in ids
    ensures forall w <- s.rows :: w.rule.id !in ids ==> w.rule in RemoveIds(s.rules, ids)
  {
    RemoveIdsMembers(s.rules, ids);
  }

  lemma AppendUnique<T(!new)>(s: seq<T>, more: seq<T>, key: T -> nat)
    requires UniqueBy(s, key) && UniqueBy(more, key)
    requires forall x <- s, y <- more :: key(x) != key(y)
    ensures UniqueBy(s + more, key)
  {
    var all := s + more;
    forall i, j | 0 <= i < j < |all| ensures key(all[i]) != key(all[j]) {
      if i < |s| <= j { assert all[i] in s && all[j] in more; }
    }
  }

  lemma NewRowsMembers(atts: seq<Att>, rules: seq<RuleInfo>)
    ensures forall w :: w in NewRows(atts, rules) <==> exists r <- rules :: w == NewRow(atts, r)
    ensures forall r <- rules :: NewRow(atts, r) in NewRows(atts, rules)
    ensures UniqueBy(rules, RuleKey()) ==> UniqueBy(NewRows(atts, rules), RowKey())
  {
    var rows := NewRows(atts, rules);
    forall r <- rules ensures NewRow(atts, r) in rows {
      var i :| 0 <= i < |rules| && rules[i] == r;
      assert rows[i] == NewRow(atts, r);
    }
  }

  /** In a consistent system the handler takes in exactly the rules that have just become global. */
  lemma JoiningRules(s: System, added: seq<RuleInfo>, ids: seq<nat>)
    requires SystemOk(s) && forall r <- added :: r.id in ids && r.id !in Ids(s.rules)
    ensures RowIds(s.rows) == Ids(s.rules)
    ensures forall r :: r in Missing(s.rules + added, ids, RowIds(s.rows)) <==> r in added
  {
    assert forall r <- s.rules :: r.id in Ids(s.rules);
    MissingMembers(s.rules + added, ids, RowIds(s.rows));
  }

  lemma AddKeepsRules(s: System, available: seq<RuleInfo>, ids: seq<nat>)
    requires SystemOk(s) && ChangeOk(Add(available, ids))
    ensures var added := Missing(available, ids, Ids(s.rules));
            var atts := AddAtts(s.atts, AttsOf(added));
            && Rules.Distinct(atts) && s.atts <= atts
            && UniqueBy(s.rules + added, RuleKey())
            && (forall r <- s.rules + added :: RuleOk(atts, r))
            && (forall r <- added :: r.id in ids && r.id !in Ids(s.rules))
  {
    var added := Missing(available, ids, Ids(s.rules));
    MissingMembers(available, ids, Ids(s.rules));
    AddAttsMembers(s.atts, AttsOf(added));
    AttsOfMembers(added);
    AppendUnique(s.rules, added, RuleKey());
  }

  lemma AddKeeps(s: System, available: seq<RuleInfo>, ids: seq<nat>)
    requires SystemOk(s) && ChangeOk(Add(available, ids)) && Apply(s, Add(available, ids)).Some?
    ensures SystemOk(Apply(s, Add(available, ids)).value)
    ensures s.atts <= Apply(s, Add(available, ids)).value.atts && s.rows <= Apply(s, Add(available, ids)).value.rows
  {
    var t := Apply(s, Add(available, ids)).value;
    var added := Missing(available, ids, Ids(s.rules));
    if added != [] {
      AddKeepsRules(s, available, ids);
      JoiningRules(s, added, ids);
      var joining := Missing(t.rules, ids, RowIds(s.rows));
      MissingMembers(t.rules, ids, RowIds(s.rows));
      NewRowsMembers(t.atts, joining);
      var rows := NewRows(t.atts, joining);
      AppendUnique(s.rows, rows, RowKey());
      AllMasksAppend(s.rows, rows);
      forall w <- t.rows ensures RowOk(t.atts, w) && w.rule in t.rules {
        if w in s.rows {
          assert RuleOk(s.atts, w.rule);
          MaskStable(s.atts, t.atts, w.rule, |w.rule.events|);
        }
      }
      forall r <- t.rules ensures r.id in RowIds(t.rows) {
        if r in added { assert NewRow(t.atts, r) in t.rows; }
        else { OldRowRemains(s, t, r); }
      }
    }
  }

  lemma OldRowRemains(s: System, t: System, r: RuleInfo)
    requires SystemOk(s) && r in s.rules && s.rows <= t.rows
    ensures r.id in RowIds(t.rows)
  {
    var w :| w in s.rows && w.rule.id == r.id;
    assert w in t.rows;
  }

  lemma AlertKeeps(s: System, i: nat)
    requires SystemOk(s)
    ensures SystemOk(Apply(s, Alert(i)).value)
  {
    if i < |s.rows| {
      var t := Apply(s, Alert(i)).value;
      assert forall k :: 0 <= k < |s.rows| ==> t.rows[k].(alerts := 0) == s.rows[k].(alerts := 0);
      SameMasks(s.rows, t.rows);
      forall r <- t.rules ensures r.id in RowIds(t.rows) {
        var k :| 0 <= k < |s.rows| && s.rows[k].rule.id == r.id;
        assert t.rows[k] in t.rows;
      }
    }
  }

  lemma {:induction false} SameMasks(rows: seq<Row>, others: seq<Row>)
    requires |rows| == |others| && forall k :: 0 <= k < |rows| ==> others[k].mask == rows[k].mask
    ensures AllMasks(others) == AllMasks(rows)
  {
    if rows != [] { SameMasks(rows[..|rows| - 1], others[..|others| - 1]); }
  }

  lemma ApplyKeeps(s: System, c: Change)
    requires SystemOk(s) && ChangeOk(c) && Apply(s, c).Some?
    ensures SystemOk(Apply(s, c).value) && s.atts <= Apply(s, c).value.atts
  {
    match c
    case Remove(ids) => RemoveKeeps(s, ids);
    case Add(available, ids) => AddKeeps(s, available, ids);
    case Alert(i) => AlertKeeps(s, i);
  }

  /** What the process begins with: unique rule ids, and at most 64 attributes that cover those of the rules. */
  ghost predicate Loadable(rules: seq<RuleInfo>, atts: seq<Att>) {
    && UniqueBy(rules, RuleKey()) && Rules.Distinct(atts) && |atts| <= MAX_ATTS
    && forall r <- rules :: RuleOk(atts, r)
  }

  lemma StartOk(rules: seq<RuleInfo>, atts: seq<Att>)
    requires Loadable(rules, atts)
    ensures SystemOk(Start(rules, atts))
  {
    NewRowsMembers(atts, rules);
    forall r <- rules ensures r.id in RowIds(NewRows(atts, rules)) { assert NewRow(atts, r) in NewRows(atts, rules); }
  }

  lemma {:induction false} ChangesKeep(s: System, changes: seq<Change>)
    requires SystemOk(s) && (forall c <- changes :: ChangeOk(c)) && Run(s, changes).Some?
    ensures SystemOk(Run(s, changes).value)
    ensures s.atts <= Run(s, changes).value.atts
    ensures forall a <- s.atts :: IndexOf(Run(s, changes).value.atts, a) == IndexOf(s.atts, a)
  {
    if changes != [] {
      var before, last := changes[..|changes| - 1], changes[|changes| - 1];
      assert last in changes && forall c <- before :: c in changes;
      ChangesKeep(s, before);
      ApplyKeeps(Run(s, before).value, last);
    }
    forall a <- s.atts ensures IndexOf(Run(s, changes).value.atts, a) == IndexOf(s.atts, a) {
      IndexStable(s.atts, Run(s, changes).value.atts, a);
    }
  }

  /**
    * From initialisation on, over any sequence of changes: unique ids, the handler has exactly the global rules, each
    * with its own engine and with the mask that its attributes give it now, the handler's mask is the union of these,
    * and no attribute's index ever changes.
    */
  lemma AlwaysConsistent(rules: seq<RuleInfo>, atts: seq<Att>, changes: seq<Change>)
    requires Loadable(rules, atts) && (forall c <- changes :: ChangeOk(c)) && Run(Start(rules, atts), changes).Some?
    ensures SystemOk(Run(Start(rules, atts), changes).value)
    ensures forall a <- atts :: IndexOf(Run(Start(rules, atts), changes).value.atts, a) == IndexOf(atts, a)
  {
    StartOk(rules, atts);
    ChangesKeep(Start(rules, atts), changes);
  }

  /** What a row has gathered survives every change that does not take its rule away. */
  lemma RowSurvives(s: System, c: Change, w: Row)
    requires SystemOk(s) && ChangeOk(c) && Apply(s, c).Some? && w in s.rows && !c.Alert?
    ensures w in Apply(s, c).value.rows <==> !(c.Remove? && w.rule.id in c.ids)
  {
    match c
    case Remove(ids) => RemoveKeeps(s, ids);
    case Add(available, ids) => AddKeeps(s, available, ids);
  }

  // ---- Filtering ----

  /**
    * The rules whose engines see a message with this mask: the test with the handler's mask, the test whether the flow
    * of the message is ignored because of an earlier alert, and the test with the mask of each rule.
    */
  function Offered(s: System, message: set<nat>, ignored: bool): set<nat> {
    if message * s.mask == {} then {}
    else if ignored then {}
    else set w | w in s.rows && message * w.mask != {} :: w.rule.id
  }

  /** The test against the handler's mask never hides a message that some rule's own mask would let through. */
  lemma FilterIsExact(s: System, message: set<nat>, ignored: bool)
    requires SystemOk(s)
    ensures Offered(s, message, ignored) == set w | w in s.rows && !ignored && message * w.mask != {} :: w.rule.id
  {
    forall w <- s.rows | message * w.mask != {} ensures message * s.mask != {} {
      var bit :| bit in message * w.mask;
      AllMasksMembers(s.rows, bit);
      assert bit in message * s.mask;
    }
  }

  lemma {:induction false} EventInRule(atts: seq<Att>, r: RuleInfo, e: nat, n: nat)
    requires e < n <= |r.events|
    ensures EventMask(atts, r, e) <= MaskOf(atts, r, n)
  {
    if e < n - 1 { EventInRule(atts, r, e, n - 1); }
  }

  lemma OfferedIff(t: System, message: set<nat>, ignored: bool, r: RuleInfo, e: nat)
    requires SystemOk(t) && r in t.rules && e < |r.events|
    requires EventMask(t.atts, r, e) != {} && EventMask(t.atts, r, e) <= message
    ensures r.id in Offered(t, message, ignored) <==> !ignored
  {
    var w :| w in t.rows && w.rule.id == r.id;
    SameIdSameRule(t.rules, w.rule, r);
    EventInRule(t.atts, r, e, |r.events|);
    var bit :| bit in EventMask(t.atts, r, e);
    assert bit in message * w.mask;
    FilterIsExact(t, message, ignored);
  }

  /**
    * From initialisation on, over any sequence of changes: a message with all attributes of an event that has any
    * reaches the engine of that rule, if and only if its flow is not being ignored.
    */
  lemma NeverFilteredOut(rules: seq<RuleInfo>, atts: seq<Att>, changes: seq<Change>, message: set<nat>, ignored: bool,
                         r: RuleInfo, e: nat)
    requires Loadable(rules, atts) && (forall c <- changes :: ChangeOk(c)) && Run(Start(rules, atts), changes).Some?
    requires r in Run(Start(rules, atts), changes).value.rules && e < |r.events|
    requires var m := EventMask(Run(Start(rules, atts), changes).value.atts, r, e);
             m != {} && m <= message
    ensures r.id in Offered(Run(Start(rules, atts), changes).value, message, ignored) <==> !ignored
  {
    AlwaysConsistent(rules, atts, changes);
    OfferedIff(Run(Start(rules, atts), changes).value, message, ignored, r, e);
  }

  lemma SameIdSameRule(rules: seq<RuleInfo>, a: RuleInfo, b: RuleInfo)
    requires UniqueBy(rules, RuleKey()) && a in rules && b in rules && a.id == b.id
    ensures a == b
  {
    var i :| 0 <= i < |rules| && rules[i] == a;
    SameKeySameRule(rules, i);
  }
}
