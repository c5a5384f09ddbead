/**
 What a batch of token deltas does to the activations, as a function: support counts
 fall and rise, activations are deactivated, re-armed or created, and those born together
 are ranked.
 */
module AgendaDelta {
  import opened Options
  import opened AgendaOrder
  import opened BirthRanks

  datatype Rule = Rule(moduleName: ModuleName, salience: int, declarationOrder: int)

  type Ruleset = map<RuleId, Rule>

  /** A terminal token that appears or disappears, with what its activation is known by. */
  datatype Delta = Delta(
    token: TokenId,
    rule: RuleId,
    identity: Identity,
    facts: seq<FactRef>,
    tuple: seq<BirthEntry>,
    maxRecency: nat,
    totalRecency: nat,
    birthEpoch: nat,
    proof: nat)

  /** The activation a token was last seen to support. */
  datatype Link = Link(handle: Handle, ordinal: nat)

  datatype Core = Core(acts: seq<Activation>, links: map<TokenId, Link>, nextOrdinal: nat, nextEpoch: nat)

  // ----- Finding an activation ----------------------------------------------------------

  predicate Answers(a: Activation, rule: RuleId, identity: Identity, facts: seq<FactRef>) {
    a.rule == rule && a.identity == identity && a.facts == facts
  }

  /** The first activation that answers, scanning from `i`. */
  function FindFrom(acts: seq<Activation>, rule: RuleId, identity: Identity, facts: seq<FactRef>, i: nat): (r: Option<Handle>)
    ensures r.Some? ==> i <= r.value < |acts| && Answers(acts[r.value], rule, identity, facts)
    ensures r.Some? ==> forall k :: i <= k < r.value ==> !Answers(acts[k], rule, identity, facts)
    ensures r.None? ==> forall k :: i <= k < |acts| ==> !Answers(acts[k], rule, identity, facts)
    decreases |acts| - i
  {
    if i >= |acts| then None
    else if Answers(acts[i], rule, identity, facts) then Some(i)
    else FindFrom(acts, rule, identity, facts, i + 1)
  }

  function Find(acts: seq<Activation>, rule: RuleId, identity: Identity, facts: seq<FactRef>): (r: Option<Handle>)
    ensures r.Some? ==> r.value < |acts| && Answers(acts[r.value], rule, identity, facts)
    ensures r.None? ==> forall k :: 0 <= k < |acts| ==> !Answers(acts[k], rule, identity, facts)
  {
    FindFrom(acts, rule, identity, facts, 0)
  }

  /** The linked activation, unless its storage was reused or belongs to another rule. */
  function Linked(core: Core, d: Delta): (r: Option<Handle>)
    ensures r.Some? ==> r.value < |core.acts|
  {
    if d.token !in core.links then None else
    var l := core.links[d.token];
    if l.handle < |core.acts| && core.acts[l.handle].ordinal == l.ordinal && core.acts[l.handle].rule == d.rule
    then Some(l.handle) else None
  }

  // ----- One removal --------------------------------------------------------------------

  /** Support falls by one; without any left, the activation is deactivated. */
  function Unsupported(a: Activation): Activation {
    if a.supportCount > 1 then a.(supportCount := a.supportCount - 1)
    else
      match a.status
      case Waiting => a.(supportCount := 0, status := Deactivated, token := 0)
      case Consumed => a.(supportCount := 0, status := Deactivated)
      case Deactivated => a.(supportCount := 0)
  }

  datatype Result = Result(core: Core, ok: bool)

  function RemovedOne(core: Core, rules: Ruleset, d: Delta): Result {
    if d.token == 0 then Result(core, true) else
    match Linked(core, d)
    case Some(h) => Result(core.(acts := core.acts[h := Unsupported(core.acts[h])], links := core.links - {d.token}), true)
    case None =>
      if d.rule !in rules then Result(core, false) else
      match Find(core.acts, d.rule, d.identity, d.facts)
      case Some(h) => Result(core.(acts := core.acts[h := Unsupported(core.acts[h])]), true)
      case None => Result(core, true)
  }

  /** The first `n` removals, up to the first that names an unknown rule. */
  function RemovedAll(core: Core, rules: Ruleset, ds: seq<Delta>, n: nat): Result
    requires n <= |ds|
  {
    if n == 0 then Result(core, true) else
    var r := RemovedAll(core, rules, ds, n - 1);
    if r.ok then RemovedOne(r.core, rules, ds[n - 1]) else r
  }

  // ----- One addition ---------------------------------------------------------------------

  function Supported(a: Activation): Activation {
    a.(supportCount := a.supportCount + 1)
  }

  /** A deactivated activation waits again, on the new token. */
  function Rearmed(a: Activation, token: TokenId): Activation {
    a.(token := if a.token == 0 then token else a.token, status := Waiting)
  }

  function Created(rule: Rule, d: Delta, ordinal: nat): Activation {
    Activation(ordinal, d.rule, d.identity, d.facts, d.tuple, d.token, 0, 0, rule.moduleName, rule.salience,
               rule.declarationOrder, d.maxRecency, d.totalRecency, 1, Waiting, d.proof)
  }

  /** The epoch reserved by this batch, if any, and the activations born in it so far. */
  datatype Births = Births(epoch: nat, born: seq<Handle>)

  datatype AddResult = AddResult(core: Core, births: Births, ok: bool)

  /** The epoch of a birth: the token's own, or one reserved once for the batch. */
  function EpochFor(core: Core, births: Births, d: Delta): nat {
    if d.birthEpoch != 0 then d.birthEpoch
    else if births.epoch != 0 then births.epoch
    else core.nextEpoch + 1
  }

  /** In breadth, the activation is born now: it gets an epoch, and a rank later. */
  function Born(core: Core, births: Births, breadth: bool, h: Handle, d: Delta): AddResult
    requires h < |core.acts|
  {
    if !breadth then AddResult(core, births, true) else
    var e := EpochFor(core, births, d);
    AddResult(core.(acts := core.acts[h := core.acts[h].(birthEpoch := e, birthRank := 0)],
                    nextEpoch := if d.birthEpoch == 0 && births.epoch == 0 then e else core.nextEpoch),
              Births(if d.birthEpoch == 0 then e else births.epoch, births.born + [h]), true)
  }

  function AddedOne(core: Core, births: Births, rules: Ruleset, breadth: bool, d: Delta): AddResult {
    if d.token == 0 then AddResult(core, births, true)
    else if d.rule !in rules then AddResult(core, births, false)
    else
      match Find(core.acts, d.rule, d.identity, d.facts)
      case Some(h) =>
        var a := Supported(core.acts[h]);
        var linked := core.links[d.token := Link(h, a.ordinal)];
        if a.status.Deactivated?
        then Born(core.(acts := core.acts[h := Rearmed(a, d.token)], links := linked), births, breadth, h, d)
        else AddResult(core.(acts := core.acts[h := a], links := linked), births, true)
      case None =>
        var ordinal := core.nextOrdinal + 1;
        var h := |core.acts|;
        Born(core.(acts := core.acts + [Created(rules[d.rule], d, ordinal)],
                   links := core.links[d.token := Link(h, ordinal)], nextOrdinal := ordinal),
             births, breadth, h, d)
  }

  function AddedAll(core: Core, rules: Ruleset, breadth: bool, ds: seq<Delta>, n: nat): AddResult
    requires n <= |ds|
  {
    if n == 0 then AddResult(core, Births(0, []), true) else
    var r := AddedAll(core, rules, breadth, ds, n - 1);
    if r.ok then AddedOne(r.core, r.births, rules, breadth, ds[n - 1]) else r
  }

  /** A fired activation is consumed and lets go of its token. */
  function Spent(a: Activation): Activation {
    a.(status := Consumed, token := 0)
  }

  // ----- Ranks of the born -----------------------------------------------------------------

  /** Those born in the same epoch that come before `h` in canonical order. */
  ghost function EarlierBorn(acts: seq<Activation>, born: seq<Handle>, h: Handle): set<Handle>
    requires h < |acts|
  {
    set k | k in born && k < |acts| && acts[k].birthEpoch == acts[h].birthEpoch && RecordLess(acts[k], acts[h])
  }

  /** Each of the born gets its place in canonical order among its epoch. */
  ghost function Ranked(acts: seq<Activation>, born: seq<Handle>): (r: seq<Activation>)
    ensures |r| == |acts|
  {
    seq(|acts|, h requires 0 <= h < |acts| =>
      if h in born && acts[h].birthEpoch != 0 then acts[h].(birthRank := 1 + |EarlierBorn(acts, born, h)|) else acts[h])
  }

  /** A whole batch: all removals, then all additions, then the ranks. */
  ghost function Applied(core: Core, rules: Ruleset, breadth: bool, removed: seq<Delta>, added: seq<Delta>): Result {
    var r := RemovedAll(core, rules, removed, |removed|);
    if !r.ok then r else
    var a := AddedAll(r.core, rules, breadth, added, |added|);
    Result(if a.ok then a.core.(acts := Ranked(a.core.acts, a.births.born)) else a.core, a.ok)
  }

  // ----- What every batch keeps ------------------------------------------------------------

  /** Ordinals are positive, grow with storage order and identify activations. */
  ghost predicate OrdinalsOk(core: Core) {
    && (forall h :: 0 <= h < |core.acts| ==> 0 < core.acts[h].ordinal <= core.nextOrdinal)
    && (forall a, b :: 0 <= a < b < |core.acts| ==> core.acts[a].ordinal < core.acts[b].ordinal)
  }

  /** Each activation carries its rule's module, salience and declaration order. */
  predicate Follows(a: Activation, rules: Ruleset) {
    && a.rule in rules && a.moduleName == rules[a.rule].moduleName && a.salience == rules[a.rule].salience
    && a.declarationOrder == rules[a.rule].declarationOrder
  }

  predicate SameAnswer(a: Activation, b: Activation) {
    a.rule == b.rule && a.identity == b.identity && a.facts == b.facts
  }

  /** No two activations stand for the same match. */
  ghost predicate OneEach(acts: seq<Activation>) {
    forall a, b :: 0 <= a < b < |acts| ==> !SameAnswer(acts[a], acts[b])
  }

  ghost predicate CoreOk(core: Core, rules: Ruleset) {
    OrdinalsOk(core) && OneEach(core.acts) && forall h :: 0 <= h < |core.acts| ==> Follows(core.acts[h], rules)
  }

  lemma CoreDistinguished(core: Core, rules: Ruleset)
    requires CoreOk(core, rules)
    ensures Distinguished(core.acts)
  {
  }

  /** Everything an activation is known and ordered by, apart from its birth and its token. */
  predicate SameMatch(a: Activation, b: Activation) {
    && SameAnswer(a, b) && a.ordinal == b.ordinal && a.moduleName == b.moduleName && a.salience == b.salience
    && a.declarationOrder == b.declarationOrder && a.tuple == b.tuple
    && a.maxRecency == b.maxRecency && a.totalRecency == b.totalRecency && a.proof == b.proof
  }

  /** The activations of `x` are those of `y` with other counts, states, births or tokens, and perhaps more. */
  ghost predicate Grows(x: seq<Activation>, y: seq<Activation>) {
    |x| <= |y| && forall h :: 0 <= h < |x| ==> SameMatch(x[h], y[h])
  }

  lemma CoreOkUpdate(core: Core, rules: Ruleset, h: Handle, a: Activation)
    requires CoreOk(core, rules) && h < |core.acts| && SameMatch(core.acts[h], a)
    ensures CoreOk(core.(acts := core.acts[h := a]), rules)
  {
  }

  lemma RemovedOneOk(core: Core, rules: Ruleset, d: Delta)
    requires CoreOk(core, rules)
    ensures CoreOk(RemovedOne(core, rules, d).core, rules)
    ensures Grows(core.acts, RemovedOne(core, rules, d).core.acts)
  {
    hide CoreOk, OrdinalsOk, OneEach;
    var l := Linked(core, d);
    if l.Some? {
      CoreOkLinks(core, core.links - {d.token}, rules);
      CoreOkUpdate(core.(links := core.links - {d.token}), rules, l.value, Unsupported(core.acts[l.value]));
    } else {
      var f := Find(core.acts, d.rule, d.identity, d.facts);
      if f.Some? { CoreOkUpdate(core, rules, f.value, Unsupported(core.acts[f.value])); }
    }
  }

  lemma CoreOkLinks(core: Core, links: map<TokenId, Link>, rules: Ruleset)
    requires CoreOk(core, rules)
    ensures CoreOk(core.(links := links), rules)
  {
  }

  lemma CreatedOk(core: Core, rules: Ruleset, d: Delta)
    requires CoreOk(core, rules) && d.rule in rules && Find(core.acts, d.rule, d.identity, d.facts).None?
    ensures CoreOk(core.(acts := core.acts + [Created(rules[d.rule], d, core.nextOrdinal + 1)], nextOrdinal := core.nextOrdinal + 1), rules)
  {
    forall k | 0 <= k < |core.acts|
      ensures !SameAnswer(core.acts[k], Created(rules[d.rule], d, core.nextOrdinal + 1))
    {
      assert !Answers(core.acts[k], d.rule, d.identity, d.facts);
    }
  }

  lemma BornKeepsCore(core: Core, rules: Ruleset, births: Births, breadth: bool, h: Handle, d: Delta)
    requires CoreOk(core, rules) && h < |core.acts|
    ensures CoreOk(Born(core, births, breadth, h, d).core, rules)
    ensures Grows(core.acts, Born(core, births, breadth, h, d).core.acts)
  {
    hide OneEach;
    var e := EpochFor(core, births, d);
    CoreOkUpdate(core, rules, h, core.acts[h].(birthEpoch := e, birthRank := 0));
  }

  lemma AddedOneOk(core: Core, births: Births, rules: Ruleset, breadth: bool, d: Delta)
    requires CoreOk(core, rules)
    ensures CoreOk(AddedOne(core, births, rules, breadth, d).core, rules)
    ensures Grows(core.acts, AddedOne(core, births, rules, breadth, d).core.acts)
  {
    hide CoreOk, OrdinalsOk, OneEach, Born;
    if d.token != 0 && d.rule in rules {
      var f := Find(core.acts, d.rule, d.identity, d.facts);
      if f.Some? {
        var h, a := f.value, Supported(core.acts[f.value]);
        var c := core.(links := core.links[d.token := Link(h, a.ordinal)]);
        CoreOkLinks(core, c.links, rules);
        if a.status.Deactivated? {
          CoreOkUpdate(c, rules, h, Rearmed(a, d.token));
          BornKeepsCore(c.(acts := c.acts[h := Rearmed(a, d.token)]), rules, births, breadth, h, d);
        } else {
          CoreOkUpdate(c, rules, h, a);
        }
      } else {
        CreatedOk(core, rules, d);
        var c := core.(acts := core.acts + [Created(rules[d.rule], d, core.nextOrdinal + 1)], nextOrdinal := core.nextOrdinal + 1);
        CoreOkLinks(c, core.links[d.token := Link(|core.acts|, core.nextOrdinal + 1)], rules);
        BornKeepsCore(c.(links := core.links[d.token := Link(|core.acts|, core.nextOrdinal + 1)]), rules, births, breadth, |core.acts|, d);
      }
    }
  }

  // ----- The born ------------------------------------------------------------------------

  /** Those born so far wait, have an epoch and are listed once each. */
  ghost predicate BirthsOk(acts: seq<Activation>, born: seq<Handle>) {
    && (forall i :: 0 <= i < |born| ==> born[i] < |acts| && acts[born[i]].status.Waiting? && acts[born[i]].birthEpoch != 0)
    && (forall i, j :: 0 <= i < j < |born| ==> born[i] != born[j])
  }

  lemma BornBirths(core: Core, births: Births, breadth: bool, h: Handle, d: Delta)
    requires BirthsOk(core.acts, births.born) && h < |core.acts| && core.acts[h].status.Waiting? && h !in births.born
    ensures var r := Born(core, births, breadth, h, d); BirthsOk(r.core.acts, r.births.born)
  {
  }

  lemma AddedOneBirths(core: Core, births: Births, rules: Ruleset, breadth: bool, d: Delta)
    requires BirthsOk(core.acts, births.born)
    ensures var r := AddedOne(core, births, rules, breadth, d); BirthsOk(r.core.acts, r.births.born)
  {
    hide Born;
    if d.token != 0 && d.rule in rules {
      var f := Find(core.acts, d.rule, d.identity, d.facts);
      if f.Some? {
        var h, a := f.value, Supported(core.acts[f.value]);
        if a.status.Deactivated? {
          BornBirths(core.(acts := core.acts[h := Rearmed(a, d.token)], links := core.links[d.token := Link(h, a.ordinal)]), births, breadth, h, d);
        }
      } else {
        var ordinal := core.nextOrdinal + 1;
        BornBirths(core.(acts := core.acts + [Created(rules[d.rule], d, ordinal)],
                         links := core.links[d.token := Link(|core.acts|, ordinal)], nextOrdinal := ordinal),
                   births, breadth, |core.acts|, d);
      }
    }
  }

  lemma RankedKeeps(core: Core, rules: Ruleset, born: seq<Handle>)
    requires CoreOk(core, rules)
    ensures CoreOk(core.(acts := Ranked(core.acts, born)), rules)
    ensures forall h :: 0 <= h < |core.acts| ==> Ranked(core.acts, born)[h].status == core.acts[h].status
  {
    hide EarlierBorn;
  }
}
