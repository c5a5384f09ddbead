/**
 Reconciliation: the waiting activations are made to be exactly the candidates the matcher
 supplies, except those already consumed, and the changes are reported.
 */
module AgendaReconcile {
  import opened Sequences
  import opened Sorting
  import opened AgendaOrder
  import opened AgendaBirths
  import opened BirthMeaning
  import opened AgendaDelta
  import opened AgendaQueues
  import opened Agenda
  import opened AgendaView

  /** A match found for a rule. */
  datatype Candidate = Candidate(identity: Identity, facts: seq<FactRef>, tuple: seq<BirthEntry>, maxRecency: nat, totalRecency: nat)

  datatype MatchResult = MatchResult(rule: RuleId, candidates: seq<Candidate>)

  datatype Change = Activated(handle: Handle) | Dropped(handle: Handle)

  predicate Stands(a: Activation, rule: RuleId, c: Candidate) {
    Answers(a, rule, c.identity, c.facts)
  }

  /** Some result supplies the activation's match. */
  ghost predicate Supplied(results: seq<MatchResult>, a: Activation) {
    exists i, j :: 0 <= i < |results| && 0 <= j < |results[i].candidates| && Stands(a, results[i].rule, results[i].candidates[j])
  }

  function FromCandidate(rule: RuleId, r: Rule, c: Candidate): Activation {
    Activation(0, rule, c.identity, c.facts, c.tuple, 0, 0, 0, r.moduleName, r.salience, r.declarationOrder,
               c.maxRecency, c.totalRecency, 1, Waiting, 0)
  }

  /** The same tokens stand behind the activation. */
  predicate SameSupport(a: Activation, b: Activation) {
    a.supportCount == b.supportCount && a.token == b.token
  }

  /** What a candidate's new activation starts with. */
  predicate FreshSupport(a: Activation) {
    a.supportCount == 1 && a.token == 0
  }

  /** What the order of firing reads of the candidate; the candidate brings no proof. */
  predicate Carries(a: Activation, c: Candidate) {
    a.tuple == c.tuple && a.maxRecency == c.maxRecency && a.totalRecency == c.totalRecency && a.proof == 0
  }

  // ----- One candidate -------------------------------------------------------------------

  /** The candidate's activation, found or created, waits unless it was consumed; no other changes. */
  ghost predicate Considered(before: seq<Activation>, after: seq<Activation>, rule: RuleId, c: Candidate, t: Handle) {
    && t < |after| && Stands(after[t], rule, c)
    && |after| == (if t < |before| then |before| else |before| + 1) && t <= |before|
    && (forall h :: 0 <= h < |before| && h != t ==> after[h] == before[h])
    && (t < |before| ==> SameMatch(before[t], after[t]) && SameSupport(before[t], after[t])
                         && after[t].status == (if before[t].status.Deactivated? then Waiting else before[t].status))
    && (t == |before| ==> after[t].status.Waiting? && FreshSupport(after[t]) && Carries(after[t], c))
    && (t < |before| && !before[t].status.Deactivated? ==> after == before)
  }

  /** The candidate's activation waits now and did not before. */
  predicate Woken(before: seq<Activation>, after: seq<Activation>, t: Handle)
    requires t < |after|
  {
    after[t].status.Waiting? && (t < |before| ==> !before[t].status.Waiting?)
  }

  method Consider(a: Agenda, rule: RuleId, c: Candidate, epoch: nat) returns (t: Handle, woken: bool, nextEpoch: nat)
    requires a.Valid() && rule in a.rules
    modifies a`acts, a`queues, a`heapIndex, a`lookup, a`nextOrdinal, a`nextEpoch
    ensures a.Valid() && (old(a.Ordered()) ==> a.Ordered())
    ensures Considered(old(a.acts), a.acts, rule, c, t) && woken == Woken(old(a.acts), a.acts, t)
    ensures !woken || !a.Breadth?() ==> nextEpoch == epoch
    ensures woken && a.Breadth?() ==> nextEpoch != 0 && (epoch != 0 ==> nextEpoch == epoch) && a.acts[t].birthEpoch == nextEpoch
    ensures woken && a.Breadth?() ==> ReservedOnce(old(a.nextEpoch), a.nextEpoch, epoch, nextEpoch)
    ensures !woken || !a.Breadth?() ==> a.nextEpoch == old(a.nextEpoch)
    ensures !a.Breadth?() ==> BirthsKept(old(a.acts), a.acts)
  {
    hide QueuesOk, AllOrdered, LookupOk, Find, Distinguished, CoreOk;
    a.ValidStructure();
    nextEpoch := epoch;
    var existing := a.FindActivation(rule, c.identity, c.facts);
    if existing.None? {
      t, nextEpoch := CreateFor(a, rule, c, epoch);
      woken := true;
      return;
    }
    t := existing.value;
    woken := a.acts[t].status.Deactivated?;
    if woken { nextEpoch := Wake(a, t, epoch); }
  }

  /** The epoch is the next one, reserved now, unless there was one already. */
  predicate ReservedOnce(before: nat, after: nat, epoch: nat, nextEpoch: nat) {
    if epoch == 0 then nextEpoch == before + 1 == after else nextEpoch == epoch && after == before
  }

  method Wake(a: Agenda, t: Handle, epoch: nat) returns (nextEpoch: nat)
    requires a.Valid() && t < |a.acts| && a.acts[t].status.Deactivated?
    modifies a`acts, a`queues, a`heapIndex, a`nextEpoch
    ensures a.Valid() && (old(a.Ordered()) ==> a.Ordered()) && |a.acts| == |old(a.acts)|
    ensures a.acts == old(a.acts)[t := a.acts[t]] && SameMatch(old(a.acts)[t], a.acts[t]) && a.acts[t].status.Waiting?
    ensures SameSupport(old(a.acts)[t], a.acts[t])
    ensures !a.Breadth?() ==> nextEpoch == epoch && a.nextEpoch == old(a.nextEpoch) && SameBirth(old(a.acts)[t], a.acts[t])
    ensures a.Breadth?() ==> nextEpoch != 0 && (epoch != 0 ==> nextEpoch == epoch) && a.acts[t].birthEpoch == nextEpoch
    ensures a.Breadth?() ==> ReservedOnce(old(a.nextEpoch), a.nextEpoch, epoch, nextEpoch)
  {
    hide QueuesOk, AllOrdered, OrderedBut, LookupOk, Find, Distinguished, CoreOk;
    a.ValidStructure();
    nextEpoch := epoch;
    ghost var was, core := a.acts, a.CoreVal();
    a.Put(t, a.acts[t].(status := Waiting));
    if a.Breadth?() { nextEpoch := Bear(a, t, epoch); }
    a.Enqueue(t);
    assert a.acts == was[t := a.acts[t]];
    NowWaiting(was, t, a.acts[t]);
    CoreOkUpdate(core, a.rules, t, a.acts[t]);
    CoreOkEpoch(core.(acts := core.acts[t := a.acts[t]]), a.nextEpoch, a.rules);
  }

  method CreateFor(a: Agenda, rule: RuleId, c: Candidate, epoch: nat) returns (t: Handle, nextEpoch: nat)
    requires a.Valid() && rule in a.rules && Find(a.acts, rule, c.identity, c.facts).None?
    modifies a`acts, a`queues, a`heapIndex, a`lookup, a`nextOrdinal, a`nextEpoch
    ensures a.Valid() && (old(a.Ordered()) ==> a.Ordered())
    ensures t == |old(a.acts)| && |a.acts| == t + 1 && a.acts == old(a.acts) + [a.acts[t]] && Stands(a.acts[t], rule, c) && a.acts[t].status.Waiting?
    ensures FreshSupport(a.acts[t]) && Carries(a.acts[t], c)
    ensures !a.Breadth?() ==> nextEpoch == epoch && a.nextEpoch == old(a.nextEpoch) && a.acts[t].birthEpoch == 0 && a.acts[t].birthRank == 0
    ensures a.Breadth?() ==> nextEpoch != 0 && (epoch != 0 ==> nextEpoch == epoch) && a.acts[t].birthEpoch == nextEpoch
    ensures a.Breadth?() ==> ReservedOnce(old(a.nextEpoch), a.nextEpoch, epoch, nextEpoch)
  {
    hide QueuesOk, AllOrdered, OrderedBut, LookupOk, Find, Distinguished, CoreOk;
    a.ValidStructure();
    nextEpoch := epoch;
    ghost var was, core := a.acts, a.CoreVal();
    StoredOk(core, a.rules, rule, c);
    t := a.Store(FromCandidate(rule, a.rules[rule], c));
    ghost var stored := a.CoreVal();
    assert stored == core.(acts := core.acts + [FromCandidate(rule, a.rules[rule], c).(ordinal := core.nextOrdinal + 1)], nextOrdinal := core.nextOrdinal + 1);
    if a.Breadth?() { nextEpoch := Bear(a, t, epoch); }
    a.Enqueue(t);
    AppendWaiting(was, a.acts[t]);
    assert a.acts == was + [a.acts[t]];
    CoreOkUpdate(stored, a.rules, t, a.acts[t]);
    CoreOkEpoch(stored.(acts := stored.acts[t := a.acts[t]]), a.nextEpoch, a.rules);
  }

  lemma CoreOkEpoch(core: Core, epoch: nat, rules: Ruleset)
    requires CoreOk(core, rules)
    ensures CoreOk(core.(nextEpoch := epoch), rules)
  {
  }

  /** Sets the birth before the activation is queued: its place is not in doubt. */
  method Bear(a: Agenda, t: Handle, epoch: nat) returns (nextEpoch: nat)
    requires a.Structure() && LookupOk(a.acts, a.lookup) && t < |a.acts| && t !in Held(a.heapIndex)
    modifies a`acts, a`nextEpoch
    ensures a.Structure() && LookupOk(a.acts, a.lookup) && (old(a.Ordered()) ==> a.Ordered())
    ensures nextEpoch != 0 && (epoch != 0 ==> nextEpoch == epoch)
    ensures a.nextEpoch == (if epoch == 0 then old(a.nextEpoch) + 1 else old(a.nextEpoch)) && (epoch == 0 ==> nextEpoch == a.nextEpoch)
    ensures a.acts == old(a.acts)[t := old(a.acts)[t].(birthEpoch := nextEpoch, birthRank := 0)]
  {
    hide QueuesOk, AllOrdered, OrderedBut, LookupOk, Distinguished;
    nextEpoch := epoch;
    if nextEpoch == 0 {
      a.nextEpoch := a.nextEpoch + 1;
      nextEpoch := a.nextEpoch;
    }
    a.Put(t, a.acts[t].(birthEpoch := nextEpoch, birthRank := 0));
    if OrderedBut(a.O(), a.acts, a.queues, a.heapIndex, t) {
      NotHeldOrdered(a.O(), a.acts, a.queues, a.heapIndex, t);
    }
  }

  lemma StoredOk(core: Core, rules: Ruleset, rule: RuleId, c: Candidate)
    requires CoreOk(core, rules) && rule in rules && Find(core.acts, rule, c.identity, c.facts).None?
    ensures forall k :: 0 <= k < |core.acts| ==> SameDeclaration(core.acts[k], FromCandidate(rule, rules[rule], c)) && core.acts[k].ordinal <= core.nextOrdinal
    ensures CoreOk(core.(acts := core.acts + [FromCandidate(rule, rules[rule], c).(ordinal := core.nextOrdinal + 1)], nextOrdinal := core.nextOrdinal + 1), rules)
  {
    forall k | 0 <= k < |core.acts|
      ensures !SameAnswer(core.acts[k], FromCandidate(rule, rules[rule], c))
    {
      assert !Answers(core.acts[k], rule, c.identity, c.facts);
    }
  }

  // ----- All the candidates ---------------------------------------------------------------

  /** The places of the candidates already looked at: those of earlier results, and the first `j` of result `i`. */
  ghost predicate Met(results: seq<MatchResult>, i: nat, j: nat, a: Activation) {
    exists k, l :: 0 <= k < |results| && 0 <= l < |results[k].candidates| && (k < i || (k == i && l < j))
                   && Stands(a, results[k].rule, results[k].candidates[l])
  }

  /** Apart from those woken, which were deactivated or are new, every activation is as it was. */
  ghost predicate KeptBut(was: seq<Activation>, acts: seq<Activation>, woken: seq<Handle>) {
    && |was| <= |acts|
    && (forall h :: 0 <= h < |was| ==> SameMatch(was[h], acts[h]))
    && (forall h :: 0 <= h < |was| ==> SameSupport(was[h], acts[h]))
    && (forall h :: 0 <= h < |was| && h !in woken ==> acts[h].status == was[h].status && SameBirth(was[h], acts[h]))
    && (forall h :: |was| <= h < |acts| ==> h in woken && FreshSupport(acts[h]))
    && (forall n :: 0 <= n < |woken| ==> woken[n] < |acts| && acts[woken[n]].status.Waiting? && (woken[n] < |was| ==> was[woken[n]].status.Deactivated?))
    && (forall m, n :: 0 <= m < n < |woken| ==> woken[m] != woken[n])
  }

  /** The activations met so far that wait are those seen, and those woken are among them. */
  ghost predicate SeenOk(acts: seq<Activation>, results: seq<MatchResult>, i: nat, j: nat, seen: set<Handle>, woken: seq<Handle>) {
    && (forall h :: h in seen ==> h < |acts| && acts[h].status.Waiting? && Met(results, i, j, acts[h]))
    && (forall h :: 0 <= h < |acts| && Met(results, i, j, acts[h]) ==> h in seen || acts[h].status.Consumed?)
    && (forall h :: h in woken ==> h in seen)
  }

  /** Every candidate looked at has its activation. */
  ghost predicate AllStored(acts: seq<Activation>, results: seq<MatchResult>, i: nat, j: nat) {
    forall k, l :: 0 <= k < |results| && 0 <= l < |results[k].candidates| && (k < i || (k == i && l < j)) ==>
      Held1(acts, results[k].rule, results[k].candidates[l])
  }

  /** The activation has what the first candidate supplied for its match brings. */
  ghost predicate Brought(results: seq<MatchResult>, a: Activation) {
    exists i, j :: 0 <= i < |results| && 0 <= j < |results[i].candidates| && !Met(results, i, j, a)
                   && Stands(a, results[i].rule, results[i].candidates[j]) && Carries(a, results[i].candidates[j])
  }

  /** From `n` on, every activation has what its candidate brings. */
  ghost predicate AllBrought(acts: seq<Activation>, n: nat, results: seq<MatchResult>) {
    forall h :: n <= h < |acts| ==> Brought(results, acts[h])
  }

  ghost predicate Reconciling(was: seq<Activation>, acts: seq<Activation>, results: seq<MatchResult>, i: nat, j: nat,
                              seen: set<Handle>, woken: seq<Handle>) {
    && KeptBut(was, acts, woken) && SeenOk(acts, results, i, j, seen, woken) && AllStored(acts, results, i, j)
    && AllBrought(acts, |was|, results)
  }

  /** Some activation stands for the candidate. */
  ghost predicate Held1(acts: seq<Activation>, rule: RuleId, c: Candidate) {
    exists h :: 0 <= h < |acts| && Stands(acts[h], rule, c)
  }

  lemma MetNext(results: seq<MatchResult>, i: nat, j: nat, a: Activation)
    requires i < |results| && j < |results[i].candidates|
    ensures Met(results, i, j + 1, a) <==> Met(results, i, j, a) || Stands(a, results[i].rule, results[i].candidates[j])
  {
  }

  lemma KeptNext(was: seq<Activation>, before: seq<Activation>, after: seq<Activation>, rule: RuleId, c: Candidate, woken: seq<Handle>, t: Handle)
    requires KeptBut(was, before, woken) && Considered(before, after, rule, c, t)
    ensures KeptBut(was, after, if Woken(before, after, t) then woken + [t] else woken)
  {
    hide Stands;
    var next := if Woken(before, after, t) then woken + [t] else woken;
    assert forall h :: h in next <==> h in woken || (h == t && Woken(before, after, t));
    assert Woken(before, after, t) ==> t !in woken;
  }

  lemma SeenNext(before: seq<Activation>, after: seq<Activation>, results: seq<MatchResult>, i: nat, j: nat,
                 seen: set<Handle>, woken: seq<Handle>, t: Handle)
    requires i < |results| && j < |results[i].candidates| && OneEach(after)
    requires SeenOk(before, results, i, j, seen, woken) && Considered(before, after, results[i].rule, results[i].candidates[j], t)
    ensures SeenOk(after, results, i, j + 1, if after[t].status.Waiting? then seen + {t} else seen,
                   if Woken(before, after, t) then woken + [t] else woken)
  {
    hide Met, Stands, SameMatch, OneEach;
    forall h | 0 <= h < |after|
      ensures Met(results, i, j + 1, after[h]) <==> Met(results, i, j, after[h]) || h == t
    {
      MetNext(results, i, j, after[h]);
      OnlyOneStands(after, h, t, results[i].rule, results[i].candidates[j]);
    }
    forall h | 0 <= h < |before|
      ensures Met(results, i, j, after[h]) <==> Met(results, i, j, before[h])
    {
      if h == t { MatchAnswers(before[h], after[h]); MetAlike(results, i, j, after[h], before[h]); }
    }
  }

  lemma MatchAnswers(a: Activation, b: Activation)
    requires SameMatch(a, b)
    ensures SameAnswer(a, b) && SameAnswer(b, a)
  {
  }

  lemma StoredNext(before: seq<Activation>, after: seq<Activation>, results: seq<MatchResult>, i: nat, j: nat, t: Handle)
    requires i < |results| && j < |results[i].candidates|
    requires AllStored(before, results, i, j) && Considered(before, after, results[i].rule, results[i].candidates[j], t)
    ensures AllStored(after, results, i, j + 1)
  {
    hide Stands;
    forall k, l | 0 <= k < |results| && 0 <= l < |results[k].candidates| && (k < i || (k == i && l < j + 1))
      ensures Held1(after, results[k].rule, results[k].candidates[l])
    {
      if !(k == i && l == j) {
        assert Held1(before, results[k].rule, results[k].candidates[l]);
        var h :| 0 <= h < |before| && Stands(before[h], results[k].rule, results[k].candidates[l]);
        StandsAlike(before[h], after[h], results[k].rule, results[k].candidates[l]);
      }
    }
  }

  lemma BroughtNext(was: seq<Activation>, before: seq<Activation>, after: seq<Activation>, results: seq<MatchResult>, i: nat, j: nat, t: Handle)
    requires i < |results| && j < |results[i].candidates| && OneEach(after) && |was| <= |before|
    requires AllStored(before, results, i, j) && Considered(before, after, results[i].rule, results[i].candidates[j], t)
    requires AllBrought(before, |was|, results)
    ensures AllBrought(after, |was|, results)
  {
    hide Brought, Stands, OneEach, Met, Carries;
    forall h | |was| <= h < |after|
      ensures Brought(results, after[h])
    {
      if h < |before| {
        BroughtAlike(results, before[h], after[h]);
      } else {
        NotMetBefore(before, after, results, i, j, t);
        BroughtBy(results, i, j, after[t]);
      }
    }
  }

  lemma BroughtBy(results: seq<MatchResult>, i: nat, j: nat, a: Activation)
    requires i < |results| && j < |results[i].candidates| && !Met(results, i, j, a)
    requires Stands(a, results[i].rule, results[i].candidates[j]) && Carries(a, results[i].candidates[j])
    ensures Brought(results, a)
  {
  }

  lemma BroughtAlike(results: seq<MatchResult>, a: Activation, b: Activation)
    requires Brought(results, a) && SameMatch(a, b)
    ensures Brought(results, b)
  {
    hide Met, Stands;
    var i, j :| 0 <= i < |results| && 0 <= j < |results[i].candidates| && !Met(results, i, j, a)
                && Stands(a, results[i].rule, results[i].candidates[j]) && Carries(a, results[i].candidates[j]);
    MatchAnswers(a, b);
    MetAlike(results, i, j, a, b);
    StandsAlike(a, b, results[i].rule, results[i].candidates[j]);
    BroughtBy(results, i, j, b);
  }

  /** A new activation stands for none of the candidates looked at before. */
  lemma NotMetBefore(before: seq<Activation>, after: seq<Activation>, results: seq<MatchResult>, i: nat, j: nat, t: Handle)
    requires i < |results| && j < |results[i].candidates| && OneEach(after) && t == |before|
    requires AllStored(before, results, i, j) && Considered(before, after, results[i].rule, results[i].candidates[j], t)
    ensures !Met(results, i, j, after[t])
  {
    hide Stands, OneEach;
    if Met(results, i, j, after[t]) {
      var k, l :| 0 <= k < |results| && 0 <= l < |results[k].candidates| && (k < i || (k == i && l < j))
                  && Stands(after[t], results[k].rule, results[k].candidates[l]);
      assert Held1(before, results[k].rule, results[k].candidates[l]);
      var h :| 0 <= h < |before| && Stands(before[h], results[k].rule, results[k].candidates[l]);
      OnlyOneStands(after, h, t, results[k].rule, results[k].candidates[l]);
      assert false;
    }
  }

  lemma OnlyOneStands(acts: seq<Activation>, h: Handle, t: Handle, rule: RuleId, c: Candidate)
    requires OneEach(acts) && h < |acts| && t < |acts| && Stands(acts[t], rule, c)
    ensures Stands(acts[h], rule, c) <==> h == t
  {
    if h < t { assert !SameAnswer(acts[h], acts[t]); } else if t < h { assert !SameAnswer(acts[t], acts[h]); }
  }

  lemma MetAlike(results: seq<MatchResult>, i: nat, j: nat, a: Activation, b: Activation)
    requires SameAnswer(a, b)
    ensures Met(results, i, j, a) <==> Met(results, i, j, b)
  {
  }

  lemma StandsAlike(a: Activation, b: Activation, rule: RuleId, c: Candidate)
    requires SameAnswer(a, b) && Stands(a, rule, c)
    ensures Stands(b, rule, c)
  {
  }

  // ----- Dropping what was not supplied -------------------------------------------------------

  /** The waiting activations, queue by queue. */
  method AllPending(a: Agenda) returns (l: seq<Handle>)
    requires a.Structure() && a.Covered()
    ensures (forall i, j :: 0 <= i < j < |l| ==> l[i] != l[j]) && forall h :: h in l <==> h in WaitingOf(a.acts)
  {
    hide QueuesOk, Distinguished;
    l := [];
    var todo := a.queues.Keys;
    while todo != {}
      invariant todo <= a.queues.Keys
      invariant forall i :: 0 <= i < |l| ==> l[i] in WaitingOf(a.acts) && a.acts[l[i]].moduleName !in todo
      invariant forall i, j :: 0 <= i < j < |l| ==> l[i] != l[j]
      invariant forall k :: k in WaitingOf(a.acts) && a.acts[k].moduleName in a.queues && a.acts[k].moduleName !in todo ==> k in l
      decreases todo
    {
      var m :| m in todo;
      todo := todo - {m};
      var more := WaitingIn(a, m);
      l := l + more;
    }
    AllInQueues(a);
  }

  function Withdrawn(a: Activation): Activation {
    a.(status := Deactivated)
  }

  /** Takes every waiting activation that was not seen out of its queue. */
  method DropUnseen(a: Agenda, seen: set<Handle>) returns (dropped: seq<Handle>)
    requires a.Valid() && seen <= WaitingOf(a.acts)
    modifies a`acts, a`queues, a`heapIndex
    ensures a.Valid() && (old(a.Ordered()) ==> a.Ordered()) && WaitingOf(a.acts) == seen
    ensures (forall i, j :: 0 <= i < j < |dropped| ==> dropped[i] != dropped[j])
    ensures forall h :: h in dropped <==> h in old(WaitingOf(a.acts)) && h !in seen
    ensures |a.acts| == |old(a.acts)|
    ensures forall h :: 0 <= h < |a.acts| ==> a.acts[h] == if h in dropped then Withdrawn(old(a.acts)[h]) else old(a.acts)[h]
  {
    hide QueuesOk, AllOrdered, LookupOk, Distinguished, CoreOk;
    a.ValidStructure();
    ghost var was := a.acts;
    var scratch := AllPending(a);
    dropped := [];
    for n := 0 to |scratch|
      invariant a.Valid() && (old(a.Ordered()) ==> a.Ordered()) && |a.acts| == |was|
      invariant forall h :: h in dropped <==> h in scratch[..n] && h !in seen
      invariant forall i, j :: 0 <= i < j < |dropped| ==> dropped[i] != dropped[j]
      invariant forall h :: 0 <= h < |was| ==> a.acts[h] == if h in dropped then Withdrawn(was[h]) else was[h]
    {
      assert scratch[..n + 1] == scratch[..n] + [scratch[n]];
      assert scratch[n] in scratch;
      if scratch[n] !in seen {
        Withdraw(a, scratch[n]);
        dropped := dropped + [scratch[n]];
      }
    }
    assert scratch[..|scratch|] == scratch;
  }

  method Withdraw(a: Agenda, h: Handle)
    requires a.Valid() && h < |a.acts|
    modifies a`acts, a`queues, a`heapIndex
    ensures a.Valid() && (old(a.Ordered()) ==> a.Ordered()) && a.acts == old(a.acts)[h := Withdrawn(old(a.acts)[h])]
  {
    hide QueuesOk, AllOrdered, OrderedBut, LookupOk, Distinguished, CoreOk;
    a.ValidStructure();
    ghost var was, core := a.acts, a.CoreVal();
    var _ := a.Dequeue(h);
    a.Put(h, a.acts[h].(status := Deactivated));
    NotWaiting(was, h, a.acts[h]);
    CoreOkUpdate(core, a.rules, h, a.acts[h]);
  }

  // ----- The whole routine ------------------------------------------------------------------

  predicate BirthLess(acts: seq<Activation>, a: Handle, b: Handle) {
    a < |acts| && b < |acts|
    && if acts[a].birthEpoch != acts[b].birthEpoch then acts[a].birthEpoch < acts[b].birthEpoch
       else if acts[a].birthRank != acts[b].birthRank then acts[a].birthRank < acts[b].birthRank
       else acts[a].ordinal < acts[b].ordinal
  }

  ghost predicate ByBirth(acts: seq<Activation>, l: seq<Handle>) {
    forall i, j :: 0 <= i < j < |l| ==> !BirthLess(acts, l[j], l[i])
  }

  /** Changes of the same kind are listed in order of birth. */
  ghost predicate ChangesByBirth(acts: seq<Activation>, changes: seq<Change>) {
    forall i, j :: 0 <= i < j < |changes| && changes[i].Activated? == changes[j].Activated? ==>
      !BirthLess(acts, changes[j].handle, changes[i].handle)
  }

  /** Orders the changes of one kind by birth, in breadth. */
  method InBirthOrder(a: Agenda, l: seq<Handle>) returns (s: seq<Handle>)
    requires forall h :: h in l ==> h < |a.acts|
    requires forall i, j :: 0 <= i < j < |l| ==> l[i] != l[j]
    ensures (forall i, j :: 0 <= i < j < |s| ==> s[i] != s[j]) && forall h :: h in s <==> h in l
    ensures ByBirth(a.acts, s)
  {
    var acts := a.acts;
    var less := (x: Handle, y: Handle) => BirthLess(acts, x, y);
    assert Orders(less, l);
    SortMembers(less, l);
    SortInOrder(less, l);
    SortDistinct(less, l);
    s := Sort(less, l);
  }

  /** The state and the waiting activations are exactly what the results ask for. */
  ghost predicate Reconciled(was: seq<Activation>, acts: seq<Activation>, results: seq<MatchResult>) {
    && |was| <= |acts|
    && (forall h :: 0 <= h < |was| ==> SameMatch(was[h], acts[h]) && SameSupport(was[h], acts[h]))
    && (forall h :: |was| <= h < |acts| ==> FreshSupport(acts[h])) && AllBrought(acts, |was|, results)
    && (forall h :: 0 <= h < |was| && (was[h].status.Waiting? || !acts[h].status.Waiting?) ==> SameBirth(was[h], acts[h]))
    && (forall h :: 0 <= h < |was| && was[h].status.Consumed? ==> acts[h].status.Consumed?)
    && (forall h :: 0 <= h < |was| && !was[h].status.Consumed? && !acts[h].status.Waiting? ==> acts[h].status.Deactivated?)
    && (forall h :: 0 <= h < |acts| ==>
          (acts[h].status.Waiting? <==> Supplied(results, acts[h]) && !(h < |was| && was[h].status.Consumed?)))
    && (forall i, j :: 0 <= i < |results| && 0 <= j < |results[i].candidates| ==> Held1(acts, results[i].rule, results[i].candidates[j]))
  }

  /** The changes are the difference between the old and the new waiting activations, each once, drops first. */
  ghost predicate ChangesExact(was: seq<Activation>, acts: seq<Activation>, changes: seq<Change>) {
    && (forall h :: Dropped(h) in changes <==> h in WaitingOf(was) && h !in WaitingOf(acts))
    && (forall h :: Activated(h) in changes <==> h in WaitingOf(acts) && h !in WaitingOf(was))
    && (forall i, j :: 0 <= i < j < |changes| ==> changes[i] != changes[j] && !(changes[i].Activated? && changes[j].Dropped?))
  }

  method Reconcile(a: Agenda, results: seq<MatchResult>) returns (changes: seq<Change>, ok: bool)
    requires a.Valid()
    modifies a`acts, a`queues, a`heapIndex, a`lookup, a`nextOrdinal, a`nextEpoch
    ensures a.Valid() && (old(a.Ordered()) ==> a.Ordered())
    ensures ok <==> forall i :: 0 <= i < |results| ==> results[i].rule in a.rules
    ensures ok ==> Reconciled(old(a.acts), a.acts, results) && ChangesExact(old(a.acts), a.acts, changes)
    ensures ok ==> BornNow(old(a.acts), a.acts, a.Breadth?(), old(a.nextEpoch) + 1)
    ensures ok ==> a.nextEpoch == old(a.nextEpoch) + if a.Breadth?() && Risen(old(a.acts), a.acts) != {} then 1 else 0
    ensures ok && a.Breadth?() ==> ChangesByBirth(a.acts, changes)
    ensures !ok ==> changes == []
  {
    hide QueuesOk, AllOrdered, LookupOk, CoreOk, KeptBut, SeenOk, AllStored, AllBrought, Reconciled, ChangesExact, ChangesByBirth, BornNow, Dated;
    ghost var was, first := a.acts, a.nextEpoch;
    var seen: set<Handle> := {};
    var woken: seq<Handle> := [];
    var epoch: nat := 0;
    changes := [];
    ReconcilingStart(was, results);
    DatedStart(a.Breadth?(), was, first);
    for i := 0 to |results|
      invariant a.Valid() && (old(a.Ordered()) ==> a.Ordered())
      invariant forall k :: 0 <= k < i ==> results[k].rule in a.rules
      invariant Reconciling(was, a.acts, results, i, 0, seen, woken) && Dated(a.Breadth?(), was, a.acts, woken, epoch, first, a.nextEpoch)
    {
      if results[i].rule !in a.rules { return [], false; }
      seen, woken, epoch := ConsiderAll(a, was, first, results, i, seen, woken, epoch);
    }
    ok := true;
    changes := Settle(a, was, first, results, seen, woken, epoch);
  }

  /**
   In breadth those woken were born in the epoch reserved for them, the next one; it is reserved as soon
   as any is woken.  In depth no birth changes.
   */
  ghost predicate Dated(breadth: bool, was: seq<Activation>, acts: seq<Activation>, woken: seq<Handle>, epoch: nat, first: nat, now: nat) {
    if breadth
    then OneEpoch(acts, woken, epoch) && if woken == [] then epoch == 0 && now == first else epoch == first + 1 == now
    else BirthsKept(was, acts) && now == first
  }

  lemma DatedStart(breadth: bool, was: seq<Activation>, first: nat)
    ensures Dated(breadth, was, was, [], 0, first, first)
  {
  }

  /** The candidates of one result. */
  method ConsiderAll(a: Agenda, ghost was: seq<Activation>, ghost first: nat, results: seq<MatchResult>, i: nat, seen0: set<Handle>, woken0: seq<Handle>, epoch0: nat)
    returns (seen: set<Handle>, woken: seq<Handle>, epoch: nat)
    requires a.Valid() && i < |results| && results[i].rule in a.rules
    requires Reconciling(was, a.acts, results, i, 0, seen0, woken0) && Dated(a.Breadth?(), was, a.acts, woken0, epoch0, first, a.nextEpoch)
    modifies a`acts, a`queues, a`heapIndex, a`lookup, a`nextOrdinal, a`nextEpoch
    ensures a.Valid() && (old(a.Ordered()) ==> a.Ordered())
    ensures Reconciling(was, a.acts, results, i + 1, 0, seen, woken) && Dated(a.Breadth?(), was, a.acts, woken, epoch, first, a.nextEpoch)
  {
    hide QueuesOk, AllOrdered, LookupOk, KeptBut, SeenOk, AllStored, AllBrought, Considered, OneEach, OrdinalsOk;
    seen, woken, epoch := seen0, woken0, epoch0;
    for j := 0 to |results[i].candidates|
      invariant a.Valid() && (old(a.Ordered()) ==> a.Ordered())
      invariant Reconciling(was, a.acts, results, i, j, seen, woken) && Dated(a.Breadth?(), was, a.acts, woken, epoch, first, a.nextEpoch)
    {
      ghost var before, reserved := a.acts, a.nextEpoch;
      var t, rose, next := Consider(a, results[i].rule, results[i].candidates[j], epoch);
      KeptNext(was, before, a.acts, results[i].rule, results[i].candidates[j], woken, t);
      SeenNext(before, a.acts, results, i, j, seen, woken, t);
      StoredNext(before, a.acts, results, i, j, t);
      WasBefore(was, before, woken);
      BroughtNext(was, before, a.acts, results, i, j, t);
      DatedNext(a.Breadth?(), was, before, a.acts, results[i].rule, results[i].candidates[j], woken, epoch, t, next, first, reserved, a.nextEpoch);
      InsideAfter(before, a.acts, results[i].rule, results[i].candidates[j], t);
      if a.acts[t].status.Waiting? { seen := seen + {t}; }
      if rose { woken := woken + [t]; }
      epoch := next;
    }
    NextResult(was, a.acts, results, i, seen, woken);
  }

  lemma WasBefore(was: seq<Activation>, acts: seq<Activation>, woken: seq<Handle>)
    requires KeptBut(was, acts, woken)
    ensures |was| <= |acts|
  {
    hide SameMatch;
  }

  lemma InsideAfter(before: seq<Activation>, after: seq<Activation>, rule: RuleId, c: Candidate, t: Handle)
    requires Considered(before, after, rule, c, t)
    ensures t < |after|
  {
  }

  lemma DatedNext(breadth: bool, was: seq<Activation>, before: seq<Activation>, after: seq<Activation>, rule: RuleId, c: Candidate,
                  woken: seq<Handle>, epoch: nat, t: Handle, next: nat, first: nat, reserved: nat, now: nat)
    requires Dated(breadth, was, before, woken, epoch, first, reserved) && Considered(before, after, rule, c, t)
    requires !Woken(before, after, t) || !breadth ==> next == epoch && now == reserved
    requires Woken(before, after, t) && breadth ==> ReservedOnce(reserved, now, epoch, next) && after[t].birthEpoch == next
    requires !breadth ==> BirthsKept(before, after)
    ensures Dated(breadth, was, after, if Woken(before, after, t) then woken + [t] else woken, next, first, now)
  {
    hide Stands, SameMatch;
  }

  lemma ReconcilingStart(was: seq<Activation>, results: seq<MatchResult>)
    ensures Reconciling(was, was, results, 0, 0, {}, [])
  {
    hide Stands;
  }

  lemma NextResult(was: seq<Activation>, acts: seq<Activation>, results: seq<MatchResult>, i: nat, seen: set<Handle>, woken: seq<Handle>)
    requires i < |results| && Reconciling(was, acts, results, i, |results[i].candidates|, seen, woken)
    ensures Reconciling(was, acts, results, i + 1, 0, seen, woken)
  {
    hide Stands, KeptBut, Held1, AllBrought;
    assert forall a :: Met(results, i, |results[i].candidates|, a) <==> Met(results, i + 1, 0, a);
  }

  /** Drops what was not seen, ranks what was woken, and reports both. */
  method Settle(a: Agenda, ghost was: seq<Activation>, ghost first: nat, results: seq<MatchResult>, seen: set<Handle>, woken: seq<Handle>, epoch: nat)
    returns (changes: seq<Change>)
    requires a.Valid() && Reconciling(was, a.acts, results, |results|, 0, seen, woken)
    requires Dated(a.Breadth?(), was, a.acts, woken, epoch, first, a.nextEpoch)
    modifies a`acts, a`queues, a`heapIndex
    ensures a.Valid() && (old(a.Ordered()) ==> a.Ordered())
    ensures Reconciled(was, a.acts, results) && ChangesExact(was, a.acts, changes)
    ensures BornNow(was, a.acts, a.Breadth?(), first + 1)
    ensures a.nextEpoch == first + if a.Breadth?() && Risen(was, a.acts) != {} then 1 else 0
    ensures a.Breadth?() ==> ChangesByBirth(a.acts, changes)
  {
    hide QueuesOk, AllOrdered, LookupOk, CoreOk, KeptBut, SeenOk, AllStored, AllBrought, Reconciled, ChangesExact, ChangesByBirth, ByBirth, Ranked, BornNow, Dated, OneEpoch;
    ghost var mid := a.acts;
    DatedMeaning(a.Breadth?(), was, mid, woken, epoch, first, a.nextEpoch);
    SeenWait(mid, results, seen, woken);
    KeptDistinct(was, mid, woken);
    var dropped := DropUnseen(a, seen);
    ghost var done := a.acts;
    DroppedDated(mid, done, woken, epoch, dropped);
    var order, drops := woken, dropped;
    if a.Breadth?() {
      order := RankWoken(a, woken, epoch);
      order := InBirthOrder(a, order);
      drops := InBirthOrder(a, dropped);
    } else {
      RankedNobody(a.acts);
    }
    ghost var ranked := if a.Breadth?() then woken else [];
    ReconciledAt(was, mid, done, a.acts, results, seen, woken, dropped, ranked);
    changes := Report(drops, order);
    ReportMembers(drops, order, changes);
    if a.Breadth?() { ReportByBirth(a.acts, drops, order, changes); }
    ExactAt(was, mid, done, a.acts, seen, woken, dropped, ranked, changes, drops, order, results);
    RisenAre(was, a.acts, changes, order, woken);
    if a.Breadth?() { AllBorn(was, done, a.acts, woken, epoch, first); } else { UnbornStays(was, mid, done, a.acts, dropped, first); }
  }

  lemma DatedMeaning(breadth: bool, was: seq<Activation>, acts: seq<Activation>, woken: seq<Handle>, epoch: nat, first: nat, now: nat)
    requires Dated(breadth, was, acts, woken, epoch, first, now)
    ensures breadth ==> OneEpoch(acts, woken, epoch) && (epoch == 0 <==> woken == []) && (epoch != 0 ==> epoch == first + 1)
    ensures breadth ==> now == first + if woken != [] then 1 else 0
    ensures !breadth ==> BirthsKept(was, acts) && now == first
  {
    hide OneEpoch;
  }

  lemma DroppedDated(mid: seq<Activation>, done: seq<Activation>, woken: seq<Handle>, epoch: nat, dropped: seq<Handle>)
    requires |done| == |mid| && forall h :: 0 <= h < |done| ==> done[h] == if h in dropped then Withdrawn(mid[h]) else mid[h]
    ensures OneEpoch(mid, woken, epoch) ==> OneEpoch(done, woken, epoch)
  {
  }

  lemma RisenAre(was: seq<Activation>, acts: seq<Activation>, changes: seq<Change>, order: seq<Handle>, woken: seq<Handle>)
    requires ChangesExact(was, acts, changes) && (forall h :: h in order <==> h in woken) && forall h :: Activated(h) in changes <==> h in order
    ensures forall h :: h in woken <==> h in Risen(was, acts)
    ensures Risen(was, acts) == {} <==> woken == []
  {
    if woken != [] { assert woken[0] in woken; }
  }

  lemma AllBorn(was: seq<Activation>, done: seq<Activation>, acts: seq<Activation>, woken: seq<Handle>, epoch: nat, first: nat)
    requires acts == Ranked(done, woken) && OneEpoch(done, woken, epoch) && (epoch == 0 <==> woken == []) && (epoch != 0 ==> epoch == first + 1)
    requires (forall h :: h in woken <==> h in Risen(was, acts)) && (Risen(was, acts) == {} <==> woken == [])
    ensures BornNow(was, acts, true, first + 1)
  {
    hide BornFirst, Ranked, OneEpoch;
    if woken != [] { RankedNow(was, done, acts, woken, epoch); }
  }

  lemma UnbornStays(was: seq<Activation>, mid: seq<Activation>, done: seq<Activation>, acts: seq<Activation>, dropped: seq<Handle>, first: nat)
    requires BirthsKept(was, mid) && |done| == |mid| && acts == Ranked(done, [])
    requires forall h :: 0 <= h < |done| ==> done[h] == if h in dropped then Withdrawn(mid[h]) else mid[h]
    ensures BornNow(was, acts, false, first + 1)
  {
    RankedNobody(done);
  }

  lemma SeenWait(acts: seq<Activation>, results: seq<MatchResult>, seen: set<Handle>, woken: seq<Handle>)
    requires SeenOk(acts, results, |results|, 0, seen, woken)
    ensures seen <= WaitingOf(acts) && forall h :: h in woken ==> h in seen
  {
    hide Met;
  }

  lemma KeptDistinct(was: seq<Activation>, acts: seq<Activation>, woken: seq<Handle>)
    requires KeptBut(was, acts, woken)
    ensures forall n :: 0 <= n < |woken| ==> woken[n] < |acts|
    ensures forall m, n :: 0 <= m < n < |woken| ==> woken[m] != woken[n]
  {
  }

  method RankWoken(a: Agenda, woken: seq<Handle>, epoch: nat) returns (order: seq<Handle>)
    requires a.Valid() && OneEpoch(a.acts, woken, epoch) && (epoch == 0 ==> woken == [])
    requires forall m, n :: 0 <= m < n < |woken| ==> woken[m] != woken[n]
    modifies a`acts, a`queues, a`heapIndex
    ensures a.Valid() && (old(a.Ordered()) ==> a.Ordered()) && a.acts == Ranked(old(a.acts), woken)
    ensures (forall i, j :: 0 <= i < j < |order| ==> order[i] != order[j]) && forall h :: h in order <==> h in woken
  {
    hide QueuesOk, AllOrdered, LookupOk, CoreOk, Ranked, OrderedBut;
    a.ValidStructure();
    RankedKeeps(a.CoreVal(), a.rules, woken);
    RankedWaiting(a.acts, woken);
    WokenDistinct(a.CoreVal(), a.rules, woken);
    order := a.AssignCanonicalBirthRanks(epoch, woken, Members(woken));
    SameMultiset(order, woken);
  }

  lemma WokenDistinct(core: Core, rules: Ruleset, woken: seq<Handle>)
    requires CoreOk(core, rules) && forall n :: 0 <= n < |woken| ==> woken[n] < |core.acts|
    requires forall m, n :: 0 <= m < n < |woken| ==> woken[m] != woken[n]
    ensures DistinctBorn(core.acts, woken)
  {
  }

  lemma SameMultiset(a: seq<Handle>, b: seq<Handle>)
    requires multiset(a) == multiset(b) && forall m, n :: 0 <= m < n < |b| ==> b[m] != b[n]
    ensures (forall i, j :: 0 <= i < j < |a| ==> a[i] != a[j]) && forall h :: h in a <==> h in b
  {
    forall h
      ensures h in a <==> h in b
    {
      assert h in a <==> multiset(a)[h] > 0;
      assert h in b <==> multiset(b)[h] > 0;
    }
    forall i, j | 0 <= i < j < |a|
      ensures a[i] != a[j]
    {
      if a[i] == a[j] {
        var _, _ := RepeatedBoth(b, a, i, j);
      }
    }
  }

  /** What was dropped is withdrawn, what was woken is ranked, and nothing else changes. */
  ghost predicate Finished(mid: seq<Activation>, done: seq<Activation>, acts: seq<Activation>, seen: set<Handle>, dropped: seq<Handle>, ranked: seq<Handle>) {
    && |done| == |mid| && WaitingOf(done) == seen && acts == Ranked(done, ranked)
    && (forall h :: h in dropped <==> h in WaitingOf(mid) && h !in seen)
    && forall h :: 0 <= h < |done| ==> done[h] == if h in dropped then Withdrawn(mid[h]) else mid[h]
  }

  lemma FinishedStates(mid: seq<Activation>, done: seq<Activation>, acts: seq<Activation>, seen: set<Handle>, dropped: seq<Handle>, ranked: seq<Handle>)
    requires Finished(mid, done, acts, seen, dropped, ranked)
    ensures |acts| == |mid| && WaitingOf(acts) == seen
    ensures forall h :: 0 <= h < |acts| ==> SameMatch(mid[h], acts[h]) && (mid[h].status.Consumed? <==> acts[h].status.Consumed?)
    ensures forall h :: 0 <= h < |acts| ==> SameSupport(mid[h], acts[h]) && (h !in ranked ==> SameBirth(mid[h], acts[h]))
  {
    hide EarlierBorn;
    RankedWaiting(done, ranked);
  }

  lemma MetAll(results: seq<MatchResult>, a: Activation)
    ensures Met(results, |results|, 0, a) <==> Supplied(results, a)
  {
  }

  lemma ReconciledAt(was: seq<Activation>, mid: seq<Activation>, done: seq<Activation>, acts: seq<Activation>, results: seq<MatchResult>,
                     seen: set<Handle>, woken: seq<Handle>, dropped: seq<Handle>, ranked: seq<Handle>)
    requires Reconciling(was, mid, results, |results|, 0, seen, woken) && Finished(mid, done, acts, seen, dropped, ranked)
    requires forall h :: h in ranked ==> h in woken
    ensures Reconciled(was, acts, results)
  {
    hide Finished, Met, Supplied, Stands, AllStored, Brought;
    FinishedStates(mid, done, acts, seen, dropped, ranked);
    forall h | |was| <= h < |acts|
      ensures Brought(results, acts[h])
    {
      BroughtAlike(results, mid[h], acts[h]);
    }
    forall h | 0 <= h < |acts|
      ensures acts[h].status.Waiting? <==> Supplied(results, acts[h]) && !(h < |was| && was[h].status.Consumed?)
    {
      MetAll(results, mid[h]);
      MetAll(results, acts[h]);
      MetAlike(results, |results|, 0, acts[h], mid[h]);
      assert acts[h].status.Waiting? <==> h in seen by { assert h in WaitingOf(acts) <==> acts[h].status.Waiting?; }
      assert h in woken ==> mid[h].status.Waiting? && (h < |was| ==> was[h].status.Deactivated?);
    }
    forall i, j | 0 <= i < |results| && 0 <= j < |results[i].candidates|
      ensures Held1(acts, results[i].rule, results[i].candidates[j])
    {
      StoredAt(mid, results, i, j);
      var h :| 0 <= h < |mid| && Stands(mid[h], results[i].rule, results[i].candidates[j]);
      StandsAlike(mid[h], acts[h], results[i].rule, results[i].candidates[j]);
    }
  }

  lemma StoredAt(acts: seq<Activation>, results: seq<MatchResult>, i: nat, j: nat)
    requires AllStored(acts, results, |results|, 0) && i < |results| && j < |results[i].candidates|
    ensures Held1(acts, results[i].rule, results[i].candidates[j])
  {
  }

  method Report(drops: seq<Handle>, order: seq<Handle>) returns (changes: seq<Change>)
    ensures |changes| == |drops| + |order|
    ensures forall i :: 0 <= i < |drops| ==> changes[i] == Dropped(drops[i])
    ensures forall i :: 0 <= i < |order| ==> changes[|drops| + i] == Activated(order[i])
  {
    changes := [];
    for i := 0 to |drops|
      invariant |changes| == i && forall k :: 0 <= k < i ==> changes[k] == Dropped(drops[k])
    {
      changes := changes + [Dropped(drops[i])];
    }
    for i := 0 to |order|
      invariant |changes| == |drops| + i
      invariant forall k :: 0 <= k < |drops| ==> changes[k] == Dropped(drops[k])
      invariant forall k :: 0 <= k < i ==> changes[|drops| + k] == Activated(order[k])
    {
      changes := changes + [Activated(order[i])];
    }
  }

  lemma ReportByBirth(acts: seq<Activation>, drops: seq<Handle>, order: seq<Handle>, changes: seq<Change>)
    requires |changes| == |drops| + |order| && ByBirth(acts, drops) && ByBirth(acts, order)
    requires forall i :: 0 <= i < |drops| ==> changes[i] == Dropped(drops[i])
    requires forall i :: 0 <= i < |order| ==> changes[|drops| + i] == Activated(order[i])
    ensures ChangesByBirth(acts, changes)
  {
    hide BirthLess;
    forall i, j | 0 <= i < j < |changes| && changes[i].Activated? == changes[j].Activated?
      ensures !BirthLess(acts, changes[j].handle, changes[i].handle)
    {
      if i >= |drops| { assert changes[|drops| + (i - |drops|)] == Activated(order[i - |drops|]); }
      if j >= |drops| { assert changes[|drops| + (j - |drops|)] == Activated(order[j - |drops|]); }
    }
  }

  lemma ReportMembers(drops: seq<Handle>, order: seq<Handle>, changes: seq<Change>)
    requires |changes| == |drops| + |order|
    requires forall i :: 0 <= i < |drops| ==> changes[i] == Dropped(drops[i])
    requires forall i :: 0 <= i < |order| ==> changes[|drops| + i] == Activated(order[i])
    requires (forall i, j :: 0 <= i < j < |drops| ==> drops[i] != drops[j]) && forall i, j :: 0 <= i < j < |order| ==> order[i] != order[j]
    ensures forall h :: (Dropped(h) in changes <==> h in drops) && (Activated(h) in changes <==> h in order)
    ensures forall i, j :: 0 <= i < j < |changes| ==> changes[i] != changes[j] && !(changes[i].Activated? && changes[j].Dropped?)
  {
    forall c | c in changes
      ensures match c case Dropped(h) => h in drops case Activated(h) => h in order
    {
      var i :| 0 <= i < |changes| && changes[i] == c;
      if i >= |drops| { assert changes[|drops| + (i - |drops|)] == Activated(order[i - |drops|]); }
    }
    forall h | h in order
      ensures Activated(h) in changes
    {
      var i :| 0 <= i < |order| && order[i] == h;
      assert changes[|drops| + i] == Activated(h);
    }
    forall h | h in drops
      ensures Dropped(h) in changes
    {
      var i :| 0 <= i < |drops| && drops[i] == h;
      assert changes[i] == Dropped(h);
    }
    forall i, j | 0 <= i < j < |changes|
      ensures changes[i] != changes[j] && !(changes[i].Activated? && changes[j].Dropped?)
    {
      if i >= |drops| { assert changes[|drops| + (i - |drops|)] == Activated(order[i - |drops|]); }
      if j >= |drops| { assert changes[|drops| + (j - |drops|)] == Activated(order[j - |drops|]); }
    }
  }

  lemma ExactAt(was: seq<Activation>, mid: seq<Activation>, done: seq<Activation>, acts: seq<Activation>, seen: set<Handle>, woken: seq<Handle>,
                dropped: seq<Handle>, ranked: seq<Handle>, changes: seq<Change>, drops: seq<Handle>, order: seq<Handle>, results: seq<MatchResult>)
    requires Reconciling(was, mid, results, |results|, 0, seen, woken) && Finished(mid, done, acts, seen, dropped, ranked)
    requires (forall h :: h in drops <==> h in dropped) && forall h :: h in order <==> h in woken
    requires forall h :: (Dropped(h) in changes <==> h in drops) && (Activated(h) in changes <==> h in order)
    requires forall i, j :: 0 <= i < j < |changes| ==> changes[i] != changes[j] && !(changes[i].Activated? && changes[j].Dropped?)
    ensures ChangesExact(was, acts, changes)
  {
    hide AllStored, AllBrought, Met, SameMatch;
    FinishedStates(mid, done, acts, seen, dropped, ranked);
    hide Ranked;
    forall h
      ensures Dropped(h) in changes <==> h in WaitingOf(was) && h !in WaitingOf(acts)
      ensures Activated(h) in changes <==> h in WaitingOf(acts) && h !in WaitingOf(was)
    {
    }
  }
}
