/**
  * Sharing the rules out between threads: a thread with a mask gets the rules that its mask names, moved to the front
  * by swaps; the other threads share what remains. Rules are their ids.
  */
module Partition {
  import opened Rules

  /** PastEnd: a handler is registered with one rule more than there are, and reads behind the array. */
  datatype Fate = Fits | PastEnd | Halts

  function Concat(lists: seq<seq<nat>>): seq<nat> {
    if lists == [] then [] else Concat(lists[..|lists| - 1]) + lists[|lists| - 1]
  }

  function Total(lists: seq<seq<nat>>): multiset<nat> {
    if lists == [] then multiset{} else Total(lists[..|lists| - 1]) + multiset(lists[|lists| - 1])
  }

  function Unmasked(masks: seq<seq<nat>>): (n: nat)
    ensures n <= |masks|
  {
    if masks == [] then 0 else Unmasked(masks[..|masks| - 1]) + if masks[|masks| - 1] == [] then 1 else 0
  }

  /** The masks name existing rules, no rule twice. */
  predicate Sensible(rules: seq<nat>, masks: seq<seq<nat>>) {
    Distinct(Concat(masks)) && forall id <- Concat(masks) :: id in rules
  }

  lemma ConcatSnoc(lists: seq<seq<nat>>, l: seq<nat>)
    ensures Concat(lists + [l]) == Concat(lists) + l && Total(lists + [l]) == Total(lists) + multiset(l)
  {
    assert (lists + [l])[..|lists|] == lists;
  }

  lemma {:induction false} ConcatPrefix(lists: seq<seq<nat>>, i: nat)
    requires i <= |lists|
    ensures Concat(lists[..i]) <= Concat(lists)
    decreases |lists|
  {
    if i < |lists| {
      ConcatPrefix(lists[..|lists| - 1], i);
      assert lists[..|lists| - 1][..i] == lists[..i];
    } else {
      assert lists[..i] == lists;
    }
  }

  lemma {:induction false} TotalIsConcat(lists: seq<seq<nat>>)
    ensures Total(lists) == multiset(Concat(lists))
  {
    if lists != [] { TotalIsConcat(lists[..|lists| - 1]); }
  }

  method Swap(rules: array<nat>, i: nat, j: nat)
    requires i < rules.Length && j < rules.Length
    modifies rules
    ensures rules[..] == old(rules[..][i := rules[j]][j := rules[i]])
    ensures multiset(rules[..]) == multiset(old(rules[..]))
  {
    rules[i], rules[j] := rules[j], rules[i];
  }

  /**
    * Moves the named rule to position `at` if it is there or behind; otherwise nothing happens, and nothing is
    * reported.
    */
  method BringForward(rules: array<nat>, at: nat, id: nat)
    requires at < rules.Length
    modifies rules
    ensures multiset(rules[..]) == multiset(old(rules[..]))
    ensures rules[..at] == old(rules[..at])
    ensures id in old(rules[at..]) ==> rules[at] == id
    ensures id !in old(rules[at..]) ==> rules[..] == old(rules[..])
  {
    for k := at to rules.Length
      invariant rules[..] == old(rules[..]) && id !in rules[at..k]
    {
      if rules[k] == id {
        Swap(rules, at, k);
        return;
      }
      assert rules[at..k + 1] == rules[at..k] + [rules[k]];
    }
  }

  /** A sensible id that has not been placed yet is still behind the placed ones. */
  lemma StillBehind(rules: seq<nat>, was: seq<nat>, at: nat, id: nat)
    requires multiset(rules) == multiset(was) && at <= |rules|
    requires id in was && id !in rules[..at]
    ensures id in rules[at..]
  {
    assert rules == rules[..at] + rules[at..];
    assert id in multiset(was);
  }

  /** What becomes of masks that name so many rules in all when there are n. */
  function FateOf(total: nat, n: nat): Fate {
    if total <= n then Fits else if total == n + 1 then PastEnd else Halts
  }

  /**
    * One thread's mask: its rules end up at base, base + 1, ... in the order of the mask. A place behind the last
    * rule is let through, and only the one after it fails the test.
    */
  method PlaceMask(rules: array<nat>, base: nat, mask: seq<nat>) returns (fate: Fate)
    requires base <= rules.Length
    modifies rules
    ensures fate == FateOf(base + |mask|, rules.Length)
    ensures multiset(rules[..]) == multiset(old(rules[..]))
    ensures rules[..][..base] == old(rules[..][..base])
    ensures fate == Fits && Distinct(old(rules[..][..base]) + mask) && (forall id <- mask :: id in old(rules[..]))
            ==> rules[..][base..base + |mask|] == mask
  {
    ghost var good := base + |mask| <= rules.Length && Distinct(rules[..base] + mask)
        && forall id <- mask :: id in rules[..];
    for j := 0 to |mask|
      invariant base + j <= rules.Length + 1
      invariant multiset(rules[..]) == multiset(old(rules[..]))
      invariant rules[..base] == old(rules[..base])
      invariant good ==> rules[base..base + j] == mask[..j]
    {
      if base + j > rules.Length { return Halts; }
      if base + j < rules.Length { PlaceOne(rules, base, mask, j, old(rules[..]), good); }
    }
    fate := if base + |mask| <= rules.Length then Fits else PastEnd;
  }

  method PlaceOne(rules: array<nat>, base: nat, mask: seq<nat>, j: nat, ghost was: seq<nat>, ghost good: bool)
    requires j < |mask| && base + j < rules.Length && multiset(rules[..]) == multiset(was)
    requires good ==> base + |mask| <= rules.Length && Distinct(rules[..base] + mask) && mask[j] in was
    requires good ==> rules[base..base + j] == mask[..j]
    modifies rules
    ensures multiset(rules[..]) == multiset(was) && rules[..base] == old(rules[..base])
    ensures good ==> rules[base..base + j + 1] == mask[..j + 1]
  {
    ghost var before := rules[..];
    if good { NotPlacedYet(before, base, mask, j, was); }
    BringForward(rules, base + j, mask[j]);
    assert rules[..base + j][..base] == rules[..base] && before[..base + j][..base] == before[..base];
    assert rules[..base + j][base..] == rules[base..base + j] && before[..base + j][base..] == before[base..base + j];
    assert rules[base..base + j + 1] == rules[base..base + j] + [rules[base + j]];
    assert mask[..j + 1] == mask[..j] + [mask[j]];
  }

  lemma NotPlacedYet(rules: seq<nat>, base: nat, mask: seq<nat>, j: nat, was: seq<nat>)
    requires multiset(rules) == multiset(was) && j < |mask| && base + |mask| <= |rules|
    requires Distinct(rules[..base] + mask) && rules[base..base + j] == mask[..j] && mask[j] in was
    ensures mask[j] in rules[base + j..]
  {
    var all := rules[..base] + mask;
    forall k | 0 <= k < base + j ensures rules[k] != mask[j] {
      assert all[k] != all[base + j];
      assert k >= base ==> rules[base..base + j][k - base] == mask[k - base];
    }
    StillBehind(rules, was, base + j, mask[j]);
  }

  lemma MulMono(a: nat, b: nat, t: nat)
    requires a <= b
    ensures a * t <= b * t
  {}

  /** n rules are enough for q, and not too many for q + 1, rules for each of t threads. */
  ghost predicate Fair(n: nat, t: nat, q: nat) {
    q * t <= n <= (q + 1) * t
  }

  function Share(n: nat, t: nat): nat
    requires t > 0
  {
    n / t
  }

  lemma FairStart(n: nat, t: nat)
    requires t > 0
    ensures Fair(n, t, Share(n, t))
  {}

  lemma FairEnd(n: nat, q: nat)
    requires Fair(n, 0, q)
    ensures n == 0
  {}

  lemma Quotient(n: nat, t: nat)
    requires t > 0
    ensures (n / t) * t <= n < (n / t) * t + t
  {}

  lemma ShareBounds(n: nat, t: nat, q: nat)
    requires t > 0 && Fair(n, t, q)
    ensures q <= Share(n, t) <= q + 1
  {
    var s := n / t;
    Quotient(n, t);
    assert (s + 1) * t == s * t + t;
    if s < q { MulMono(s + 1, q, t); }
    if s > q + 1 { MulMono(q + 2, s, t); }
  }

  lemma Products(q: nat, t: nat)
    requires t > 0
    ensures (q + 1) * t == q * t + t && q * (t - 1) == q * t - q && (q + 1) * (t - 1) == q * t + t - q - 1
  {}

  /** The step with the products given as numbers: p is q * t and m is s * t. */
  lemma FairStep(n: nat, t: nat, q: nat, s: nat, p: nat, m: nat)
    requires q <= s <= q + 1 && p <= n <= p + t && m <= n < m + t
    requires s == q ==> m == p
    requires s == q + 1 ==> m == p + t
    ensures p - q <= n - s <= p + t - q - 1
  {}

  lemma FairLeft(n: nat, t: nat, q: nat, s: nat)
    requires t > 0 && q <= s <= q + 1 && s * t <= n < s * t + t && Fair(n, t, q)
    ensures s <= n && Fair(n - s, t - 1, q)
  {
    Products(q, t);
    var p, m := q * t, s * t;
    assert s == q + 1 ==> m == p + t;
    FairStep(n, t, q, s, p, m);
  }

  /** Fair shares, given out one after the other, differ by at most one. */
  lemma FairShare(n: nat, t: nat, q: nat)
    requires t > 0 && Fair(n, t, q)
    ensures q <= Share(n, t) <= q + 1 && Share(n, t) <= n
    ensures Fair(n - Share(n, t), t - 1, q)
  {
    ShareBounds(n, t, q);
    Quotient(n, t);
    var s := Share(n, t);
    assert s * t <= n < s * t + t;
    hide Share, Fair;
    FairLeft(n, t, q, s);
  }

  // ---- Distinctness ----

  lemma {:induction false} OccursOnce(ids: seq<nat>)
    requires Distinct(ids)
    ensures forall id :: multiset(ids)[id] <= 1
  {
    if ids != [] {
      var last := |ids| - 1;
      OccursOnce(ids[..last]);
      assert ids == ids[..last] + [ids[last]];
    }
  }

  lemma TwiceCounts(ids: seq<nat>, i: nat, j: nat)
    requires i < j < |ids| && ids[i] == ids[j]
    ensures multiset(ids)[ids[i]] >= 2
  {
    assert ids == ids[..j] + [ids[j]] + ids[j + 1..] && ids[i] in ids[..j];
  }

  /** Masks that come out exactly were sensible. */
  lemma ExactMeansSensible(was: seq<nat>, rules: seq<nat>, masks: seq<seq<nat>>)
    requires Distinct(was) && multiset(rules) == multiset(was)
    requires |Concat(masks)| <= |rules| && Concat(masks) == rules[..|Concat(masks)|]
    ensures Sensible(was, masks)
  {
    OccursOnce(was);
    var ids := Concat(masks);
    forall i, j | 0 <= i < j < |ids| ensures ids[i] != ids[j] {
      if rules[i] == rules[j] { TwiceCounts(rules, i, j); }
    }
    forall id <- ids ensures id in was {
      assert id in multiset(rules);
    }
  }

  lemma PrefixSensible(was: seq<nat>, rules: seq<nat>, masks: seq<seq<nat>>, i: nat)
    requires Sensible(was, masks) && i < |masks| && multiset(rules) == multiset(was)
    ensures Distinct(Concat(masks[..i]) + masks[i]) && forall id <- masks[i] :: id in rules
  {
    ConcatPrefix(masks, i + 1);
    assert masks[..i + 1] == masks[..i] + [masks[i]];
    ConcatSnoc(masks[..i], masks[i]);
    var placed := Concat(masks[..i]) + masks[i];
    assert placed <= Concat(masks);
    forall id <- masks[i] ensures id in rules {
      assert id in placed && id in Concat(masks);
      assert id in multiset(was);
    }
  }

  lemma Cut(s: seq<nat>, a: nat, b: nat)
    requires a <= b <= |s|
    ensures s[..b] == s[..a] + s[a..b] && multiset(s[..b]) == multiset(s[..a]) + multiset(s[a..b])
  {
    assert s[..b] == s[..a] + s[a..b];
  }

  // ---- Masked threads ----

  /** What has been placed for the first i threads, and what that says about the array. */
  ghost predicate Placed(was: seq<nat>, now: seq<nat>, masks: seq<seq<nat>>, i: nat, shares: seq<seq<nat>>)
    requires i <= |masks|
  {
    && multiset(now) == multiset(was)
    && |shares| == i && (forall k :: 0 <= k < i ==> |shares[k]| == |masks[k]|)
    && |Concat(masks[..i])| <= |now| && Concat(shares) == now[..|Concat(masks[..i])|]
    && (Sensible(was, masks) ==> shares == masks[..i])
  }

  lemma PlacedNext(was: seq<nat>, before: seq<nat>, now: seq<nat>, masks: seq<seq<nat>>, i: nat, shares: seq<seq<nat>>)
    requires i < |masks| && Placed(was, before, masks, i, shares)
    requires multiset(now) == multiset(before)
    requires |Concat(masks[..i])| + |masks[i]| <= |now|
    requires now[..|Concat(masks[..i])|] == before[..|Concat(masks[..i])|]
    requires var base := |Concat(masks[..i])|;
             Sensible(was, masks) ==> now[base..base + |masks[i]|] == masks[i]
    ensures var base := |Concat(masks[..i])|;
            Placed(was, now, masks, i + 1, shares + [now[base..base + |masks[i]|]])
    ensures |Concat(masks[..i + 1])| == |Concat(masks[..i])| + |masks[i]|
  {
    var base := |Concat(masks[..i])|;
    var share := now[base..base + |masks[i]|];
    assert masks[..i + 1] == masks[..i] + [masks[i]];
    ConcatSnoc(masks[..i], masks[i]);
    ConcatSnoc(shares, share);
    Cut(now, base, base + |masks[i]|);
  }

  lemma RoomForMask(masks: seq<seq<nat>>, i: nat)
    requires i < |masks|
    ensures |Concat(masks[..i])| + |masks[i]| <= |Concat(masks)|
  {
    assert masks[..i + 1] == masks[..i] + [masks[i]];
    ConcatPrefix(masks, i + 1);
    ConcatSnoc(masks[..i], masks[i]);
  }

  /** The first mask for which there are too few rules decides. */
  function FateOfAll(masks: seq<seq<nat>>, n: nat): Fate {
    if masks == [] then Fits
    else
      var before := FateOfAll(masks[..|masks| - 1], n);
      if before == Fits then FateOf(|Concat(masks)|, n) else before
  }

  lemma {:induction false} FateOfPrefix(masks: seq<seq<nat>>, n: nat, i: nat)
    requires i <= |masks|
    ensures FateOfAll(masks[..i], n) != Fits ==> FateOfAll(masks, n) == FateOfAll(masks[..i], n)
    decreases |masks|
  {
    if i < |masks| {
      FateOfPrefix(masks[..|masks| - 1], n, i);
      assert masks[..|masks| - 1][..i] == masks[..i];
    } else {
      assert masks[..i] == masks;
    }
  }

  /** The original goes on exactly when the masks name at most as many rules as there are. */
  lemma {:induction false} FitsIff(masks: seq<seq<nat>>, n: nat)
    ensures FateOfAll(masks, n) == Fits <==> |Concat(masks)| <= n
  {
    if masks != [] {
      FitsIff(masks[..|masks| - 1], n);
      RoomForMask(masks, |masks| - 1);
    }
  }

  /** Otherwise it halts or reads past its array, depending on how far the first mask that is too long goes. */
  lemma FateIs(masks: seq<seq<nat>>, n: nat, i: nat)
    requires i < |masks| && |Concat(masks[..i])| <= n < |Concat(masks[..i + 1])|
    ensures FateOfAll(masks, n) == if |Concat(masks[..i + 1])| == n + 1 then PastEnd else Halts
  {
    FitsIff(masks[..i], n);
    assert masks[..i + 1][..i] == masks[..i];
    FateOfPrefix(masks, n, i + 1);
  }

  /** One thread of PlaceAll. */
  method PlaceNext(rules: array<nat>, base: nat, masks: seq<seq<nat>>, i: nat, shares: seq<seq<nat>>,
                   ghost was: seq<nat>)
    returns (fate: Fate, more: seq<seq<nat>>)
    requires i < |masks| && base == |Concat(masks[..i])| <= rules.Length
    requires Placed(was, rules[..], masks, i, shares)
    modifies rules
    ensures multiset(rules[..]) == multiset(was)
    ensures |Concat(masks[..i + 1])| == base + |masks[i]| && fate == FateOf(base + |masks[i]|, rules.Length)
    ensures fate == Fits ==> Placed(was, rules[..], masks, i + 1, more)
  {
    ghost var before := rules[..];
    if Sensible(was, masks) { PrefixSensible(was, before, masks, i); }
    assert masks[..i + 1] == masks[..i] + [masks[i]];
    ConcatSnoc(masks[..i], masks[i]);
    fate := PlaceMask(rules, base, masks[i]);
    more := shares;
    if fate == Fits {
      PlacedNext(was, before, rules[..], masks, i, shares);
      more := shares + [rules[..][base..base + |masks[i]|]];
    }
  }

  /**
    * shares[i] is what the mask of thread i gets it, nothing yet for a thread without mask. With unique rule ids this
    * is what all the masks say if and only if they name existing rules and no rule twice; nothing reports the other
    * case.
    */
  method PlaceAll(rules: array<nat>, masks: seq<seq<nat>>) returns (fate: Fate, shares: seq<seq<nat>>)
    modifies rules
    ensures fate == FateOfAll(masks, rules.Length)
    ensures multiset(rules[..]) == multiset(old(rules[..]))
    ensures fate == Fits ==>
              && |Concat(masks)| <= rules.Length && Concat(shares) == rules[..][..|Concat(masks)|]
              && |shares| == |masks| && (forall i :: 0 <= i < |masks| ==> |shares[i]| == |masks[i]|)
    ensures Sensible(old(rules[..]), masks) && fate == Fits ==> shares == masks
    ensures Distinct(old(rules[..])) && fate == Fits && shares == masks ==> Sensible(old(rules[..]), masks)
  {
    fate, shares := Fits, [];
    var base := 0;
    for i := 0 to |masks|
      invariant fate == FateOfAll(masks[..i], rules.Length) == Fits && base == |Concat(masks[..i])| <= rules.Length
      invariant Placed(old(rules[..]), rules[..], masks, i, shares)
    {
      assert masks[..i + 1][..i] == masks[..i];
      fate, shares := PlaceNext(rules, base, masks, i, shares, old(rules[..]));
      if fate != Fits {
        FateOfPrefix(masks, rules.Length, i + 1);
        return;
      }
      base := base + |masks[i]|;
    }
    assert masks[..|masks|] == masks;
    if Distinct(old(rules[..])) && shares == masks { ExactMeansSensible(old(rules[..]), rules[..], masks); }
  }

  // ---- All threads ----

  lemma {:induction false} TotalUpdate(lists: seq<seq<nat>>, i: nat, l: seq<nat>)
    requires i < |lists| && lists[i] == []
    ensures Total(lists[i := l]) == Total(lists) + multiset(l)
  {
    var last := |lists| - 1;
    if i < last {
      TotalUpdate(lists[..last], i, l);
      assert lists[i := l][..last] == lists[..last][i := l];
    } else {
      assert lists[i := l][..last] == lists[..last];
    }
  }

  lemma {:induction false} UnmaskedPrefix(masks: seq<seq<nat>>, i: nat)
    requires i <= |masks|
    ensures Unmasked(masks[..i]) <= Unmasked(masks)
    decreases |masks|
  {
    if i < |masks| {
      UnmaskedPrefix(masks[..|masks| - 1], i);
      assert masks[..|masks| - 1][..i] == masks[..i];
    } else {
      assert masks[..i] == masks;
    }
  }

  lemma UnmaskedNext(masks: seq<seq<nat>>, i: nat)
    requires i < |masks|
    ensures Unmasked(masks[..i + 1]) == Unmasked(masks[..i]) + (if masks[i] == [] then 1 else 0) <= Unmasked(masks)
  {
    assert masks[..i + 1][..i] == masks[..i];
    UnmaskedPrefix(masks, i + 1);
  }

  /** The first i threads have been served; t threads without mask and the rules from `at` on remain. */
  ghost predicate Served(rules: seq<nat>, at: nat, t: nat, q: nat, masks: seq<seq<nat>>, i: nat, shares: seq<seq<nat>>)
    requires i <= |masks|
  {
    && at <= |rules| && |shares| == |masks|
    && t == Unmasked(masks) - Unmasked(masks[..i])
    && Fair(|rules| - at, t, q)
    && Total(shares) == multiset(rules[..at])
    && (forall k :: i <= k < |masks| && masks[k] == [] ==> shares[k] == [])
    && (forall k :: 0 <= k < i && masks[k] == [] ==> q <= |shares[k]| <= q + 1)
  }

  lemma ServedNext(rules: seq<nat>, at: nat, t: nat, q: nat, masks: seq<seq<nat>>, i: nat, shares: seq<seq<nat>>)
    requires i < |masks| && masks[i] == [] && Served(rules, at, t, q, masks, i, shares)
    ensures t > 0
    ensures var size := Share(|rules| - at, t);
            && at + size <= |rules|
            && Served(rules, at + size, t - 1, q, masks, i + 1, shares[i := rules[at..at + size]])
  {
    UnmaskedNext(masks, i);
    FairShare(|rules| - at, t, q);
    var size := Share(|rules| - at, t);
    TotalUpdate(shares, i, rules[at..at + size]);
    Cut(rules, at, at + size);
  }

  /** The shares of the threads without mask, at least one, are cut from what is left behind position `given`. */
  method ShareRest(rules: array<nat>, given: nat, masks: seq<seq<nat>>, placed: seq<seq<nat>>)
      returns (shares: seq<seq<nat>>)
    requires given <= rules.Length && |placed| == |masks| && Total(placed) == multiset(rules[..][..given])
    requires (forall i :: 0 <= i < |masks| && masks[i] == [] ==> placed[i] == []) && Unmasked(masks) > 0
    ensures |shares| == |masks|
    ensures forall i :: 0 <= i < |masks| && masks[i] != [] ==> shares[i] == placed[i]
    ensures Total(shares) == multiset(rules[..])
    ensures forall i, j :: 0 <= i < |masks| && 0 <= j < |masks| && masks[i] == masks[j] == [] ==>
            |shares[i]| <= |shares[j]| + 1
  {
    var all := rules[..];
    shares := placed;
    var at: nat, t: nat := given, Unmasked(masks);
    ghost var q := Share(|all| - given, t);
    FairStart(|all| - given, t);
    for i := 0 to |masks|
      invariant Served(all, at, t, q, masks, i, shares)
      invariant forall k :: 0 <= k < |masks| && masks[k] != [] ==> shares[k] == placed[k]
    {
      at, t, shares := ServeNext(all, at, t, q, masks, i, shares);
    }
    assert masks[..|masks|] == masks;
    FairEnd(|all| - at, q);
    assert all[..|all|] == all;
  }

  /** One thread of ShareRest. */
  method ServeNext(rules: seq<nat>, at: nat, t: nat, ghost q: nat, masks: seq<seq<nat>>, i: nat, shares: seq<seq<nat>>)
    returns (at1: nat, t1: nat, more: seq<seq<nat>>)
    requires i < |masks| && Served(rules, at, t, q, masks, i, shares)
    ensures Served(rules, at1, t1, q, masks, i + 1, more)
    ensures forall k :: 0 <= k < |masks| && masks[k] != [] ==> more[k] == shares[k]
  {
    at1, t1, more := at, t, shares;
    UnmaskedNext(masks, i);
    if masks[i] == [] {
      ServedNext(rules, at, t, q, masks, i, shares);
      var size := Share(|rules| - at, t);
      at1, t1, more := at + size, t - 1, shares[i := rules[at..at + size]];
    }
  }

  lemma {:induction false} NoneUnmasked(masks: seq<seq<nat>>)
    requires Unmasked(masks) == 0
    ensures forall i :: 0 <= i < |masks| ==> masks[i] != []
  {
    if masks != [] { NoneUnmasked(masks[..|masks| - 1]); }
  }

  /** Masks that name existing rules and no rule twice always fit. */
  lemma SensibleFits(rules: seq<nat>, masks: seq<seq<nat>>)
    requires Sensible(rules, masks)
    ensures FateOfAll(masks, |rules|) == Fits
  {
    DistinctWithin(Concat(masks), rules);
    FitsIff(masks, |rules|);
  }

  lemma {:induction false} DistinctWithin(ids: seq<nat>, all: seq<nat>)
    requires Distinct(ids) && forall id <- ids :: id in all
    ensures |ids| <= |all|
  {
    OccursOnce(ids);
    forall id ensures multiset(ids)[id] <= multiset(all)[id] {
      if id in multiset(ids) { assert id in ids && id in multiset(all); }
    }
    assert multiset(ids) <= multiset(all);
    SmallerMultiset(multiset(ids), multiset(all));
  }

  lemma SmallerMultiset(a: multiset<nat>, b: multiset<nat>)
    requires a <= b
    ensures |a| <= |b|
  {
    assert b == a + (b - a);
  }

  /**
    * Whatever the masks name: the original goes on if and only if they do not name more rules than there are; then
    * every rule goes to exactly one thread if there is a thread without mask, the shares of those threads differ by
    * at most one, and sensible masks get what they say.
    */
  method ShareOut(rules: array<nat>, masks: seq<seq<nat>>) returns (fate: Fate, shares: seq<seq<nat>>)
    modifies rules
    ensures fate == FateOfAll(masks, rules.Length)
    ensures multiset(rules[..]) == multiset(old(rules[..]))
    ensures fate == Fits <==> |Concat(masks)| <= rules.Length
    ensures fate == Fits ==>
              && |shares| == |masks|
              && (Unmasked(masks) > 0 ==> Total(shares) == multiset(old(rules[..])))
              && (Unmasked(masks) == 0 ==> Total(shares) == multiset(rules[..][..|Concat(masks)|]))
              && (forall i, j :: 0 <= i < |masks| && 0 <= j < |masks| && masks[i] == masks[j] == []
                    ==> |shares[i]| <= |shares[j]| + 1)
    ensures Sensible(old(rules[..]), masks) ==>
              fate == Fits && forall i :: 0 <= i < |masks| && masks[i] != [] ==> shares[i] == masks[i]
  {
    FitsIff(masks, rules.Length);
    if Sensible(old(rules[..]), masks) { SensibleFits(old(rules[..]), masks); }
    var placed;
    fate, placed := PlaceAll(rules, masks);
    shares := placed;
    if fate != Fits { return; }
    TotalIsConcat(placed);
    if Unmasked(masks) > 0 {
      shares := ShareRest(rules, |Concat(masks)|, masks, placed);
    } else {
      NoneUnmasked(masks);
    }
  }
}
