/** The handler's parallel arrays and the global rule set, edited in place. */
module RuleHandler {
  import opened Wrappers
  import opened RuleChanges

  function Zip(rules: seq<RuleInfo>, engines: seq<nat>, alerts: seq<nat>, masks: seq<set<nat>>): seq<Row>
    requires |engines| == |rules| && |alerts| == |rules| && |masks| == |rules|
  {
    seq(|rules|, i requires 0 <= i < |rules| => Row(rules[i], engines[i], alerts[i], masks[i]))
  }

  /** The search loop that most operations begin with. */
  method Locate(rules: seq<RuleInfo>, id: nat) returns (i: nat)
    ensures i == FindRule(rules, id)
    ensures HasId(rules, id) <==> i < |rules|
  {
    i := 0;
    while i < |rules| && rules[i].id != id
      invariant i <= |rules| && FindRule(rules, id) == i + FindRule(rules[i..], id)
    {
      i := i + 1;
    }
    if i < |rules| { assert rules[i] in rules; }
  }

  class Handler {
    var rules: seq<RuleInfo>
    var engines: seq<nat>
    var alerts: seq<nat>
    var masks: seq<set<nat>>
    /** The handler's own mask. */
    var hash: set<nat>

    predicate Valid()
      reads this
    {
      |engines| == |rules| && |alerts| == |rules| && |masks| == |rules|
    }

    function Rows(): seq<Row>
      requires Valid()
      reads this
    {
      Zip(rules, engines, alerts, masks)
    }

    constructor (chosen: seq<RuleInfo>, atts: seq<Att>)
      ensures Valid() && Rows() == NewRows(atts, chosen) && hash == AllMasks(NewRows(atts, chosen))
    {
      rules, engines, alerts, masks, hash := [], [], [], [], {};
      new;
      for i := 0 to |chosen|
        invariant Valid() && Rows() == NewRows(atts, chosen[..i]) && hash == AllMasks(Rows())
      {
        assert NewRows(atts, chosen[..i + 1]) == NewRows(atts, chosen[..i]) + [NewRow(atts, chosen[i])];
        Append(chosen[i], atts);
      }
      assert chosen[..|chosen|] == chosen;
    }

    /** A new engine, no alert yet, and the mask that the rule's events have with the present indices. */
    method Append(r: RuleInfo, atts: seq<Att>)
      requires Valid()
      modifies this
      ensures Valid() && Rows() == old(Rows()) + [NewRow(atts, r)]
      ensures hash == old(hash) + RuleMask(atts, r)
    {
      var mask: set<nat> := {};
      for k := 0 to |r.events|
        invariant mask == MaskOf(atts, r, k)
      {
        mask := mask + EventMask(atts, r, k);
      }
      rules, engines, alerts, masks := rules + [r], engines + [r.id], alerts + [0], masks + [mask];
      hash := hash + mask;
    }

    method SwapRule(i: nat, j: nat)
      requires Valid() && i < |rules| && j < |rules|
      modifies this`rules, this`engines, this`alerts, this`masks
      ensures Valid() && Rows() == old(Rows()[i := Rows()[j]][j := Rows()[i]])
    {
      if i == j { return; }
      rules := rules[i := rules[j]][j := rules[i]];
      engines := engines[i := engines[j]][j := engines[i]];
      alerts := alerts[i := alerts[j]][j := alerts[i]];
      masks := masks[i := masks[j]][j := masks[i]];
    }

    method DropLast()
      requires Valid() && rules != []
      modifies this`rules, this`engines, this`alerts, this`masks
      ensures Valid() && Rows() == old(Rows()[..|rules| - 1])
    {
      var last := |rules| - 1;
      rules, engines, alerts, masks := rules[..last], engines[..last], alerts[..last], masks[..last];
    }

    /** Keeps the rules that are still global; returns how many it took out. */
    method RemoveRules(global: seq<RuleInfo>) returns (removed: nat)
      requires Valid()
      modifies this
      ensures Valid() && Rows() == RetainRows(old(Rows()), global, 0)
      ensures removed == |old(rules)| - |rules|
      ensures hash == if removed > 0 then AllMasks(Rows()) else old(hash)
    {
      removed := 0;
      var i := 0;
      while i < |rules|
        invariant Valid() && i <= |rules| && removed == |old(rules)| - |rules| && hash == old(hash)
        invariant RetainRows(Rows(), global, i) == RetainRows(old(Rows()), global, 0)
        decreases |rules| - i
      {
        var j := Locate(global, rules[i].id);
        if j < |global| {
          i := i + 1;
        } else {
          ghost var before := Rows();
          SwapRule(i, |rules| - 1);
          DropLast();
          assert Rows() == SwapOut(before, i);
          removed := removed + 1;
        }
      }
      if removed > 0 {
        hash := {};
        for k := 0 to |masks|
          invariant Valid() && Rows() == RetainRows(old(Rows()), global, 0)
          invariant removed == |old(rules)| - |rules| && hash == AllMasks(Rows()[..k])
        {
          assert Rows()[..k + 1][..k] == Rows()[..k];
          hash := hash + masks[k];
        }
        assert Rows()[..|masks|] == Rows();
      }
    }

    /** Takes in the global rules that the ids name and that it does not have. */
    method AddRules(global: seq<RuleInfo>, ids: seq<nat>, atts: seq<Att>) returns (added: nat)
      requires Valid()
      modifies this
      ensures Valid()
      ensures var joining := NewRows(atts, Missing(global, ids, RowIds(old(Rows()))));
              Rows() == old(Rows()) + joining && hash == old(hash) + AllMasks(joining) && added == |joining|
    {
      var chosen := Missing(global, ids, RowIds(Rows()));
      added := |chosen|;
      for i := 0 to |chosen|
        invariant Valid() && Rows() == old(Rows()) + NewRows(atts, chosen[..i])
        invariant hash == old(hash) + AllMasks(NewRows(atts, chosen[..i]))
      {
        assert NewRows(atts, chosen[..i + 1]) == NewRows(atts, chosen[..i]) + [NewRow(atts, chosen[i])];
        Append(chosen[i], atts);
      }
      assert chosen[..|chosen|] == chosen;
    }
  }

  /** The rule set of the process and one handler that follows it. */
  class RuleBase {
    var rules: seq<RuleInfo>
    var atts: seq<Att>
    const handler: Handler

    predicate Valid()
      reads this, handler
    {
      handler.Valid()
    }

    function View(): System
      requires Valid()
      reads this, handler
    {
      System(rules, atts, handler.Rows(), handler.hash)
    }

    constructor (rules: seq<RuleInfo>, atts: seq<Att>)
      ensures Valid() && View() == Start(rules, atts) && fresh(handler)
    {
      this.rules, this.atts := rules, atts;
      handler := new Handler(rules, atts);
    }

    method RemoveRules(ids: seq<nat>) returns (removed: nat)
      requires Valid()
      modifies this, handler
      ensures Valid() && Some(View()) == Apply(old(View()), Remove(ids))
      ensures removed == |old(rules)| - |rules|
    {
      removed := 0;
      for i := 0 to |ids|
        invariant Valid() && handler.Rows() == old(handler.Rows()) && handler.hash == old(handler.hash)
        invariant atts == old(atts) && rules == RemoveIds(old(rules), ids[..i]) && removed == |old(rules)| - |rules|
      {
        assert ids[..i + 1][..i] == ids[..i];
        var j := Locate(rules, ids[i]);
        if j < |rules| {
          rules := rules[j := rules[|rules| - 1]][..|rules| - 1];
          removed := removed + 1;
        }
      }
      assert ids[..|ids|] == ids;
      if removed > 0 {
        var dropped := handler.RemoveRules(rules);
      } else {
        RemoveNone(old(rules), ids);
      }
    }

    method RegisterAtt(a: Att)
      modifies this`atts
      ensures atts == if a in old(atts) then old(atts) else old(atts) + [a]
    {
      if IndexOf(atts, a) == |atts| { atts := atts + [a]; }
    }

    /** False when the process halts because it would pass a limit. */
    method AddRules(available: seq<RuleInfo>, ids: seq<nat>) returns (ok: bool)
      requires Valid()
      modifies this, handler
      ensures Valid()
      ensures ok <==> Apply(old(View()), Add(available, ids)).Some?
      ensures ok ==> Some(View()) == Apply(old(View()), Add(available, ids))
    {
      hide Missing, AttsOf, NewRows, AllMasks;
      var added := Missing(available, ids, Ids(rules));
      if added == [] { return true; }
      if |rules| + |added| > MAX_RULES { return false; }
      var more := AttsOf(added);
      for k := 0 to |more|
        invariant Valid() && handler.Rows() == old(handler.Rows()) && handler.hash == old(handler.hash)
        invariant rules == old(rules) && atts == AddAtts(old(atts), more[..k])
      {
        assert more[..k + 1][..k] == more[..k];
        RegisterAtt(more[k]);
        if |atts| > MAX_ATTS {
          AddAttsGrows(old(atts), more, k + 1);
          return false;
        }
      }
      assert more[..|more|] == more;
      if |atts| > MAX_ATTS { return false; }
      rules := rules + added;
      var joined := handler.AddRules(rules, ids, atts);
      ok := true;
    }
  }

  lemma {:induction false} RemoveNone(rules: seq<RuleInfo>, ids: seq<nat>)
    ensures |RemoveIds(rules, ids)| <= |rules|
    ensures |RemoveIds(rules, ids)| == |rules| ==> RemoveIds(rules, ids) == rules
  {
    if ids != [] { RemoveNone(rules, ids[..|ids| - 1]); }
  }

  lemma {:induction false} AddAttsGrows(atts: seq<Att>, more: seq<Att>, k: nat)
    requires k <= |more|
    ensures |AddAtts(atts, more[..k])| <= |AddAtts(atts, more)|
    decreases |more|
  {
    if k < |more| {
      AddAttsGrows(atts, more[..|more| - 1], k);
      assert more[..|more| - 1][..k] == more[..k];
    } else {
      assert more[..k] == more;
    }
  }
}
