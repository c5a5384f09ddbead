/**
 The order in which new activations are created and changes are reported, said of their fields.
 */
module CandidateOrders {
  import opened AgendaOrder
  import opened AgendaDelta
  import opened AgendaReconcile
  import opened AgendaCandidates

  /** A proper beginning comes first; otherwise the first fact that differs decides, by id and then by version. */
  predicate FactsFirst(l: seq<FactRef>, r: seq<FactRef>) {
    || (l <= r && l != r)
    || exists k :: 0 <= k < |l| && k < |r| && l[..k] == r[..k]
                   && (l[k].id < r[k].id || (l[k].id == r[k].id && l[k].version < r[k].version))
  }

  lemma {:induction false} FactsMeaning(l: seq<FactRef>, r: seq<FactRef>)
    ensures FactsLess(l, r) <==> FactsFirst(l, r)
  {
    if l != [] && r != [] {
      FactsMeaning(l[1..], r[1..]);
      assert l == [l[0]] + l[1..] && r == [r[0]] + r[1..];
      if k :| 0 <= k < |l| && k < |r| && l[..k] == r[..k] && (l[k].id < r[k].id || (l[k].id == r[k].id && l[k].version < r[k].version)) {
        if k > 0 {
          assert l[0] == l[..k][0] && r[0] == r[..k][0];
          assert l[1..][..k - 1] == l[..k][1..] && r[1..][..k - 1] == r[..k][1..];
          assert l[1..][k - 1] == l[k] && r[1..][k - 1] == r[k];
        } else {
          assert l[..0] == r[..0];
        }
      }
      if l[0] == r[0] && FactsFirst(l[1..], r[1..]) { FactsLater(l, r); }
      if l[0].id < r[0].id || (l[0].id == r[0].id && l[0].version < r[0].version) { assert l[..0] == r[..0]; }
    }
  }

  lemma FactsLater(l: seq<FactRef>, r: seq<FactRef>)
    requires l != [] && r != [] && l[0] == r[0] && FactsFirst(l[1..], r[1..])
    ensures FactsFirst(l, r)
  {
    assert l == [l[0]] + l[1..] && r == [r[0]] + r[1..];
    if k :| 0 <= k < |l[1..]| && k < |r[1..]| && l[1..][..k] == r[1..][..k]
            && (l[1..][k].id < r[1..][k].id || (l[1..][k].id == r[1..][k].id && l[1..][k].version < r[1..][k].version)) {
      assert l[..k + 1] == [l[0]] + l[1..][..k] && r[..k + 1] == [r[0]] + r[1..][..k];
      assert l[k + 1] == l[1..][k] && r[k + 1] == r[1..][k];
    }
  }

  /** Declaration first, then the facts, then the rule. */
  predicate CreatedFirst(l: Activation, r: Activation) {
    || l.declarationOrder < r.declarationOrder
    || (l.declarationOrder == r.declarationOrder && FactsFirst(l.facts, r.facts))
    || (l.declarationOrder == r.declarationOrder && l.facts == r.facts && l.rule < r.rule)
  }

  /** After an exchange the new activations are stored in that order, whatever order the candidates came in. */
  lemma NewInOrder(core: Core, rules: Ruleset, was: seq<Activation>, removed: seq<Ruled>, added: seq<Ruled>, h: Handle, k: Handle)
    requires CoreOk(core, rules) && Exchanged(rules, was, core.acts, removed, added) && AllKnown(rules, added)
    requires |was| <= h < k < |core.acts|
    ensures !CreatedFirst(core.acts[k], core.acts[h])
  {
    hide FactsLess, FactsFirst;
    var a, b := core.acts[h], core.acts[k];
    assert !CreatedBefore(rules, b.rule, b.facts, a.rule, a.facts);
    RuleOf(rules, core.acts, |was|, added, h);
    RuleOf(rules, core.acts, |was|, added, k);
    FactsMeaning(b.facts, a.facts);
    FactsOrder(a.facts, b.facts, a.facts);
  }

  lemma RuleOf(rules: Ruleset, acts: seq<Activation>, n: nat, added: seq<Ruled>, h: Handle)
    requires NewFrom(acts, n, added, |added|) && AllKnown(rules, added) && n <= h < |acts|
    ensures acts[h].rule in rules
  {
    var i :| 0 <= i < |added| && Stands(acts[h], added[i].rule, added[i].candidate);
  }

  /** Of two changes of one kind the one listed first was not born later: not in a later epoch, nor with a higher rank in the same one, nor, both alike, stored later. */
  lemma ReportedByBirth(acts: seq<Activation>, changes: seq<Change>, i: nat, j: nat)
    requires ChangesByBirth(acts, changes) && i < j < |changes| && changes[i].Activated? == changes[j].Activated?
    requires changes[i].handle < |acts| && changes[j].handle < |acts|
    ensures var a, b := acts[changes[i].handle], acts[changes[j].handle];
            && a.birthEpoch <= b.birthEpoch
            && (a.birthEpoch == b.birthEpoch ==> a.birthRank <= b.birthRank)
            && (a.birthEpoch == b.birthEpoch && a.birthRank == b.birthRank ==> a.ordinal <= b.ordinal)
  {
    assert !BirthLess(acts, changes[j].handle, changes[i].handle);
  }
}
