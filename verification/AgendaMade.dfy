/**
 What a batch makes of a token for a match the agenda does not know, field by field.
 */
module AgendaMade {
  import opened Options
  import opened AgendaOrder
  import opened AgendaDelta

  predicate SameMatchAs(d: Delta, e: Delta) {
    d.rule == e.rule && d.identity == e.identity && d.facts == e.facts
  }

  /** How many of the tokens from `n` up to `k` are for the match. */
  function Deliveries(ds: seq<Delta>, n: nat, k: nat, d: Delta): nat
    requires k <= |ds|
  {
    if k <= n then 0
    else Deliveries(ds, n, k - 1, d) + (if ds[k - 1].token != 0 && SameMatchAs(ds[k - 1], d) then 1 else 0)
  }

  /** The activation has everything from the token and its rule, waits, and is born in the epoch, if any. */
  predicate Made(a: Activation, d: Delta, r: Rule, epoch: nat, support: nat) {
    && a.rule == d.rule && a.identity == d.identity && a.facts == d.facts && a.tuple == d.tuple
    && a.maxRecency == d.maxRecency && a.totalRecency == d.totalRecency && a.proof == d.proof && a.token == d.token
    && a.moduleName == r.moduleName && a.salience == r.salience && a.declarationOrder == r.declarationOrder
    && a.status == Waiting && a.supportCount == support && a.birthEpoch == epoch
  }

  /** The epoch of a birth: the token's own, or the next one of the agenda, once for the batch; in depth there is none. */
  function BirthOf(core: Core, breadth: bool, d: Delta): nat {
    if !breadth then 0 else if d.birthEpoch != 0 then d.birthEpoch else core.nextEpoch + 1
  }

  predicate Unknown(acts: seq<Activation>, d: Delta) {
    forall h :: 0 <= h < |acts| ==> !(acts[h].rule == d.rule && acts[h].identity == d.identity && acts[h].facts == d.facts)
  }

  lemma {:induction false} RemovalsUnknown(core: Core, rules: Ruleset, ds: seq<Delta>, n: nat, d: Delta)
    requires n <= |ds| && Unknown(core.acts, d)
    ensures Unknown(RemovedAll(core, rules, ds, n).core.acts, d) && RemovedAll(core, rules, ds, n).core.nextEpoch == core.nextEpoch
    ensures |RemovedAll(core, rules, ds, n).core.acts| == |core.acts|
  {
    if n > 0 { RemovalsUnknown(core, rules, ds, n - 1, d); }
  }

  /** The batch has reserved no epoch, or the next one. */
  predicate EpochOnce(core: Core, r: AddResult) {
    if r.births.epoch == 0 then r.core.nextEpoch == core.nextEpoch
    else r.births.epoch == core.nextEpoch + 1 == r.core.nextEpoch
  }

  lemma EpochStays(core: Core, r: AddResult, rules: Ruleset, breadth: bool, e: Delta)
    requires EpochOnce(core, r)
    ensures EpochOnce(core, AddedOne(r.core, r.births, rules, breadth, e))
    ensures |r.core.acts| <= |AddedOne(r.core, r.births, rules, breadth, e).core.acts|
  {
    hide Find;
  }

  lemma UnknownStays(r: AddResult, rules: Ruleset, breadth: bool, e: Delta, d: Delta)
    requires Unknown(r.core.acts, d) && (e.token == 0 || !SameMatchAs(e, d))
    ensures Unknown(AddedOne(r.core, r.births, rules, breadth, e).core.acts, d)
  {
    hide Find;
  }

  lemma MadeNow(core: Core, r: AddResult, rules: Ruleset, breadth: bool, d: Delta)
    requires Unknown(r.core.acts, d) && d.token != 0 && d.rule in rules && EpochOnce(core, r)
    ensures var next := AddedOne(r.core, r.births, rules, breadth, d);
            next.ok && |next.core.acts| == |r.core.acts| + 1 && Made(next.core.acts[|r.core.acts|], d, rules[d.rule], BirthOf(core, breadth, d), 1)
  {
  }

  lemma MadeStays(r: AddResult, rules: Ruleset, breadth: bool, e: Delta, d: Delta, h: Handle, rule: Rule, epoch: nat, support: nat)
    requires h < |r.core.acts| && Made(r.core.acts[h], d, rule, epoch, support)
    requires forall k :: 0 <= k < |r.core.acts| && k != h ==> !(r.core.acts[k].rule == d.rule && r.core.acts[k].identity == d.identity && r.core.acts[k].facts == d.facts)
    requires AddedOne(r.core, r.births, rules, breadth, e).ok
    ensures var next := AddedOne(r.core, r.births, rules, breadth, e);
            && h < |next.core.acts|
            && Made(next.core.acts[h], d, rule, epoch, support + (if e.token != 0 && SameMatchAs(e, d) then 1 else 0))
            && forall k :: 0 <= k < |next.core.acts| && k != h ==>
                 !(next.core.acts[k].rule == d.rule && next.core.acts[k].identity == d.identity && next.core.acts[k].facts == d.facts)
  {
    var f := Find(r.core.acts, e.rule, e.identity, e.facts);
    if f.Some? && f.value != h && SameMatchAs(e, d) { assert false; }
  }

  /** The state after the first `k` additions, of which number `n` is the first for its match. */
  predicate MadeBy(core: Core, rules: Ruleset, breadth: bool, ds: seq<Delta>, n: nat, k: nat, h: Handle)
    requires n < k <= |ds| && ds[n].rule in rules
  {
    var r := AddedAll(core, rules, breadth, ds, k);
    && h < |r.core.acts| && Made(r.core.acts[h], ds[n], rules[ds[n].rule], BirthOf(core, breadth, ds[n]), Deliveries(ds, n, k, ds[n]))
    && forall i :: 0 <= i < |r.core.acts| && i != h ==>
         !(r.core.acts[i].rule == ds[n].rule && r.core.acts[i].identity == ds[n].identity && r.core.acts[i].facts == ds[n].facts)
  }

  lemma {:induction false} AdditionsBefore(core: Core, rules: Ruleset, breadth: bool, ds: seq<Delta>, n: nat, k: nat)
    requires k <= n < |ds| && Unknown(core.acts, ds[n]) && forall i :: 0 <= i < n ==> ds[i].token == 0 || !SameMatchAs(ds[i], ds[n])
    ensures var r := AddedAll(core, rules, breadth, ds, k); Unknown(r.core.acts, ds[n]) && EpochOnce(core, r) && |core.acts| <= |r.core.acts|
  {
    hide AddedOne, Unknown, EpochOnce;
    if k > 0 {
      AdditionsBefore(core, rules, breadth, ds, n, k - 1);
      var r := AddedAll(core, rules, breadth, ds, k - 1);
      UnknownStays(r, rules, breadth, ds[k - 1], ds[n]);
      EpochStays(core, r, rules, breadth, ds[k - 1]);
    } else {
      NoneYet(core, rules, breadth, ds);
    }
  }

  lemma NoneYet(core: Core, rules: Ruleset, breadth: bool, ds: seq<Delta>)
    ensures AddedAll(core, rules, breadth, ds, 0) == AddResult(core, Births(0, []), true) && EpochOnce(core, AddedAll(core, rules, breadth, ds, 0))
  {
  }

  lemma {:induction false} OkBefore(core: Core, rules: Ruleset, breadth: bool, ds: seq<Delta>, k: nat, n: nat)
    requires k <= n <= |ds| && AddedAll(core, rules, breadth, ds, n).ok
    ensures AddedAll(core, rules, breadth, ds, k).ok
    decreases n - k
  {
    hide AddedOne;
    if k < n { OkBefore(core, rules, breadth, ds, k, n - 1); }
  }

  lemma {:induction false} AdditionsAfter(core: Core, rules: Ruleset, breadth: bool, ds: seq<Delta>, n: nat, k: nat) returns (h: Handle)
    requires n < k <= |ds| && ds[n].token != 0 && AddedAll(core, rules, breadth, ds, k).ok
    requires Unknown(core.acts, ds[n]) && forall i :: 0 <= i < n ==> ds[i].token == 0 || !SameMatchAs(ds[i], ds[n])
    ensures ds[n].rule in rules && h >= |core.acts| && MadeBy(core, rules, breadth, ds, n, k, h)
    decreases k
  {
    hide AddedOne, Made, EpochOnce;
    OkBefore(core, rules, breadth, ds, k - 1, k);
    var r := AddedAll(core, rules, breadth, ds, k - 1);
    if k == n + 1 {
      AdditionsBefore(core, rules, breadth, ds, n, n);
      RuleKnown(r, rules, breadth, ds[n]);
      MadeNow(core, r, rules, breadth, ds[n]);
      h := |r.core.acts|;
      KnownOnce(r, rules, breadth, ds[n]);
      assert Deliveries(ds, n, n, ds[n]) == 0;
    } else {
      h := AdditionsAfter(core, rules, breadth, ds, n, k - 1);
      MadeStays(r, rules, breadth, ds[k - 1], ds[n], h, rules[ds[n].rule], BirthOf(core, breadth, ds[n]), Deliveries(ds, n, k - 1, ds[n]));
    }
  }

  lemma RuleKnown(r: AddResult, rules: Ruleset, breadth: bool, d: Delta)
    requires d.token != 0 && AddedOne(r.core, r.births, rules, breadth, d).ok
    ensures d.rule in rules
  {
  }

  lemma KnownOnce(r: AddResult, rules: Ruleset, breadth: bool, d: Delta)
    requires Unknown(r.core.acts, d) && d.token != 0 && d.rule in rules
    ensures var next := AddedOne(r.core, r.births, rules, breadth, d).core.acts;
            forall i :: 0 <= i < |next| && i != |r.core.acts| ==> !(next[i].rule == d.rule && next[i].identity == d.identity && next[i].facts == d.facts)
  {
    hide Find;
    var f := Find(r.core.acts, d.rule, d.identity, d.facts);
  }

  /**
   After a batch, a match that was not known has one activation, which carries what its first token
   carried and what its rule says, waits, has the support of all its tokens, and is born as it should.
   */
  lemma NewMatchMade(core: Core, rules: Ruleset, breadth: bool, removed: seq<Delta>, added: seq<Delta>, n: nat) returns (h: Handle)
    requires Applied(core, rules, breadth, removed, added).ok && n < |added| && added[n].token != 0 && Unknown(core.acts, added[n])
    requires forall i :: 0 <= i < n ==> added[i].token == 0 || !SameMatchAs(added[i], added[n])
    ensures var acts := Applied(core, rules, breadth, removed, added).core.acts;
            && added[n].rule in rules && |core.acts| <= h < |acts|
            && Made(acts[h], added[n], rules[added[n].rule], BirthOf(core, breadth, added[n]), Deliveries(added, n, |added|, added[n]))
            && forall i :: 0 <= i < |acts| && i != h ==>
                 !(acts[i].rule == added[n].rule && acts[i].identity == added[n].identity && acts[i].facts == added[n].facts)
  {
    hide AddedAll, RemovedAll, Deliveries;
    var base := RemovedAll(core, rules, removed, |removed|).core;
    RemovalsUnknown(core, rules, removed, |removed|, added[n]);
    h := AdditionsAfter(base, rules, breadth, added, n, |added|);
    var r := AddedAll(base, rules, breadth, added, |added|);
    RankedFields(r.core.acts, r.births.born);
  }

  lemma RankedFields(acts: seq<Activation>, born: seq<Handle>)
    ensures forall h :: 0 <= h < |acts| ==> Ranked(acts, born)[h] == acts[h].(birthRank := Ranked(acts, born)[h].birthRank)
  {
  }

  // ----- Matches the agenda knows -------------------------------------------------------------

  predicate OnlyOne(acts: seq<Activation>, h: Handle, d: Delta) {
    && h < |acts| && acts[h].rule == d.rule && acts[h].identity == d.identity && acts[h].facts == d.facts
    && forall k :: 0 <= k < |acts| && k != h ==> !(acts[k].rule == d.rule && acts[k].identity == d.identity && acts[k].facts == d.facts)
  }

  /**
   What the tokens of a batch make of a known match: support rises by their number; if it was deactivated it
   waits again, born in the epoch, if any, and on the first token unless it still has one; else it is as it was.
   */
  predicate Raised(a: Activation, b: Activation, token: TokenId, breadth: bool, epoch: nat, support: nat) {
    && SameMatch(a, b) && b.supportCount == a.supportCount + support
    && if a.status.Deactivated? && support > 0
       then b.status == Waiting && b.token == (if a.token == 0 then token else a.token)
            && b.birthEpoch == if breadth then epoch else a.birthEpoch
       else b.status == a.status && b.token == a.token && b.birthEpoch == a.birthEpoch
  }

  /** The state after the first `k` additions, of which number `n` is the first for the match of `h`. */
  predicate RaisedBy(core: Core, rules: Ruleset, breadth: bool, ds: seq<Delta>, n: nat, k: nat, h: Handle)
    requires n < |ds| && k <= |ds| && h < |core.acts|
  {
    var acts := AddedAll(core, rules, breadth, ds, k).core.acts;
    OnlyOne(acts, h, ds[n])
    && Raised(core.acts[h], acts[h], ds[n].token, breadth, BirthOf(core, breadth, ds[n]), Deliveries(ds, n, k, ds[n]))
  }

  lemma RaisedFirst(core: Core, r: AddResult, rules: Ruleset, breadth: bool, d: Delta, h: Handle, a: Activation)
    requires OnlyOne(r.core.acts, h, d) && d.token != 0 && d.rule in rules && EpochOnce(core, r)
    requires Raised(a, r.core.acts[h], d.token, breadth, BirthOf(core, breadth, d), 0)
    ensures var acts := AddedOne(r.core, r.births, rules, breadth, d).core.acts;
            OnlyOne(acts, h, d) && Raised(a, acts[h], d.token, breadth, BirthOf(core, breadth, d), 1)
  {
    var f := Find(r.core.acts, d.rule, d.identity, d.facts);
    assert f == Some(h);
  }

  lemma RaisedAgain(r: AddResult, rules: Ruleset, breadth: bool, e: Delta, d: Delta, h: Handle, a: Activation, token: TokenId, epoch: nat, support: nat)
    requires OnlyOne(r.core.acts, h, d) && Raised(a, r.core.acts[h], token, breadth, epoch, support)
    requires e.token != 0 && SameMatchAs(e, d) ==> support > 0
    requires AddedOne(r.core, r.births, rules, breadth, e).ok
    ensures var acts := AddedOne(r.core, r.births, rules, breadth, e).core.acts;
            OnlyOne(acts, h, d)
            && Raised(a, acts[h], token, breadth, epoch, support + if e.token != 0 && SameMatchAs(e, d) then 1 else 0)
  {
    var f := Find(r.core.acts, e.rule, e.identity, e.facts);
    assert f == Some(h) ==> SameMatchAs(e, d);
    assert f.Some? && SameMatchAs(e, d) ==> f == Some(h);
    assert f.None? ==> !SameMatchAs(e, d);
  }

  lemma {:induction false} RaisedThrough(core: Core, rules: Ruleset, breadth: bool, ds: seq<Delta>, n: nat, k: nat, h: Handle)
    requires n < |ds| && k <= |ds| && ds[n].token != 0 && AddedAll(core, rules, breadth, ds, k).ok
    requires h < |core.acts| && OnlyOne(core.acts, h, ds[n]) && forall i :: 0 <= i < n ==> ds[i].token == 0 || !SameMatchAs(ds[i], ds[n])
    ensures RaisedBy(core, rules, breadth, ds, n, k, h) && EpochOnce(core, AddedAll(core, rules, breadth, ds, k))
    ensures k > n ==> Deliveries(ds, n, k, ds[n]) > 0
  {
    hide AddedOne, Raised, OnlyOne, EpochOnce;
    if k == 0 {
      NoneYet(core, rules, breadth, ds);
      RaisedNone(core.acts[h], ds[n].token, breadth, BirthOf(core, breadth, ds[n]));
    } else {
      OkBefore(core, rules, breadth, ds, k - 1, k);
      RaisedThrough(core, rules, breadth, ds, n, k - 1, h);
      var r := AddedAll(core, rules, breadth, ds, k - 1);
      EpochStays(core, r, rules, breadth, ds[k - 1]);
      if k == n + 1 {
        RuleKnown(r, rules, breadth, ds[n]);
        RaisedFirst(core, r, rules, breadth, ds[n], h, core.acts[h]);
      } else {
        RaisedAgain(r, rules, breadth, ds[k - 1], ds[n], h, core.acts[h], ds[n].token, BirthOf(core, breadth, ds[n]), Deliveries(ds, n, k - 1, ds[n]));
      }
    }
  }

  lemma RaisedNone(a: Activation, token: TokenId, breadth: bool, epoch: nat)
    ensures Raised(a, a, token, breadth, epoch, 0)
  {
  }

  /** After a batch a known match is as the removals left it, raised by all the batch's tokens for it. */
  lemma KnownMatchRaised(core: Core, rules: Ruleset, breadth: bool, removed: seq<Delta>, added: seq<Delta>, n: nat, h: Handle)
    requires Applied(core, rules, breadth, removed, added).ok && n < |added| && added[n].token != 0 && OnlyOne(core.acts, h, added[n])
    requires forall i :: 0 <= i < n ==> added[i].token == 0 || !SameMatchAs(added[i], added[n])
    ensures var left := RemovedAll(core, rules, removed, |removed|).core.acts;
            var acts := Applied(core, rules, breadth, removed, added).core.acts;
            && h < |left| && SameMatch(core.acts[h], left[h]) && OnlyOne(acts, h, added[n])
            && Raised(left[h], acts[h], added[n].token, breadth, BirthOf(core, breadth, added[n]), Deliveries(added, n, |added|, added[n]))
  {
    hide AddedAll, RemovedAll, Deliveries;
    var base := RemovedAll(core, rules, removed, |removed|).core;
    RemovalsKeep(core, rules, removed, |removed|, added[n], h);
    RaisedThrough(base, rules, breadth, added, n, |added|, h);
    var r := AddedAll(base, rules, breadth, added, |added|);
    RankedFields(r.core.acts, r.births.born);
  }

  lemma {:induction false} RemovalsKeep(core: Core, rules: Ruleset, ds: seq<Delta>, n: nat, d: Delta, h: Handle)
    requires n <= |ds| && OnlyOne(core.acts, h, d)
    ensures var left := RemovedAll(core, rules, ds, n).core;
            OnlyOne(left.acts, h, d) && SameMatch(core.acts[h], left.acts[h]) && left.nextEpoch == core.nextEpoch
  {
    if n > 0 { RemovalsKeep(core, rules, ds, n - 1, d, h); }
  }

  // ----- Tokens that go ---------------------------------------------------------------------

  /** The token, or else the match, leads to the activation. */
  predicate LeadsTo(core: Core, rules: Ruleset, d: Delta, h: Handle) {
    && h < |core.acts| && d.token != 0
    && var l := d.token in core.links && core.links[d.token].handle < |core.acts|
                && core.acts[core.links[d.token].handle].ordinal == core.links[d.token].ordinal
                && core.acts[core.links[d.token].handle].rule == d.rule;
       if l then core.links[d.token].handle == h else d.rule in rules && OnlyOne(core.acts, h, d)
  }

  /** One delivery less: the last takes a waiting activation off its token and deactivates it, fired or not. */
  lemma MatchLowered(core: Core, rules: Ruleset, d: Delta, h: Handle)
    requires LeadsTo(core, rules, d, h)
    ensures var next := RemovedOne(core, rules, d).core; var a := core.acts[h];
            && |next.acts| == |core.acts| && (forall k :: 0 <= k < |core.acts| && k != h ==> next.acts[k] == core.acts[k])
            && SameMatch(a, next.acts[h]) && next.acts[h].birthEpoch == a.birthEpoch && next.acts[h].birthRank == a.birthRank
            && next.acts[h].supportCount == (if a.supportCount == 0 then 0 else a.supportCount - 1)
            && next.acts[h].status == (if a.supportCount > 1 then a.status else Deactivated)
            && next.acts[h].token == (if a.supportCount <= 1 && a.status.Waiting? then 0 else a.token)
  {
    if Linked(core, d).None? { assert Find(core.acts, d.rule, d.identity, d.facts) == Some(h); }
  }
}
