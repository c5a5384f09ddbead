/**
 Candidates that appear and disappear: those that disappear stop waiting, those never seen before wait.
 A candidate the agenda knows stays as it is, even if it was withdrawn.
 */
module AgendaCandidates {
  import opened Options
  import opened Sorting
  import opened AgendaOrder
  import opened AgendaBirths
  import opened BirthMeaning
  import opened AgendaDelta
  import opened AgendaQueues
  import opened Agenda
  import opened AgendaReconcile

  datatype Ruled = Ruled(rule: RuleId, candidate: Candidate)

  // ----- The order of creation ---------------------------------------------------------------

  /** The first fact that differs decides, by id and then by version; then the shorter list comes first. */
  predicate FactsLess(l: seq<FactRef>, r: seq<FactRef>) {
    if r == [] then false
    else if l == [] then true
    else if l[0].id != r[0].id then l[0].id < r[0].id
    else if l[0].version != r[0].version then l[0].version < r[0].version
    else FactsLess(l[1..], r[1..])
  }

  lemma {:induction false} FactsOrder(a: seq<FactRef>, b: seq<FactRef>, c: seq<FactRef>)
    ensures !(FactsLess(a, b) && FactsLess(b, a))
    ensures a != b ==> FactsLess(a, b) || FactsLess(b, a)
    ensures FactsLess(a, b) && FactsLess(b, c) ==> FactsLess(a, c)
  {
    if a != [] && b != [] {
      assert a == [a[0]] + a[1..] && b == [b[0]] + b[1..];
      FactsOrder(a[1..], b[1..], if c == [] then [] else c[1..]);
    }
  }

  /** Declaration order, then facts, then the rule itself. */
  predicate CreatedBefore(rules: Ruleset, r: RuleId, f: seq<FactRef>, s: RuleId, g: seq<FactRef>) {
    if r in rules && s in rules && rules[r].declarationOrder != rules[s].declarationOrder
    then rules[r].declarationOrder < rules[s].declarationOrder
    else if f != g then FactsLess(f, g)
    else r < s
  }

  predicate CandidateLess(rules: Ruleset, l: Ruled, r: Ruled) {
    CreatedBefore(rules, l.rule, l.candidate.facts, r.rule, r.candidate.facts)
  }

  predicate AllKnown(rules: Ruleset, cs: seq<Ruled>) {
    forall i :: 0 <= i < |cs| ==> cs[i].rule in rules
  }

  ghost predicate InCreationOrder(rules: Ruleset, cs: seq<Ruled>) {
    forall i, j :: 0 <= i < j < |cs| ==> !CandidateLess(rules, cs[j], cs[i])
  }

  /** Sorts the candidates; with unknown rules among them the order may be any. */
  method SortCandidates(rules: Ruleset, cs: seq<Ruled>) returns (s: seq<Ruled>)
    ensures forall c :: c in s <==> c in cs
    ensures AllKnown(rules, s) <==> AllKnown(rules, cs)
    ensures AllKnown(rules, cs) ==> InCreationOrder(rules, s)
  {
    hide CandidateLess;
    var less := (l: Ruled, r: Ruled) => CandidateLess(rules, l, r);
    SortMembers(less, cs);
    s := Sort(less, cs);
    assert forall i :: 0 <= i < |s| ==> s[i] in cs;
    assert forall i :: 0 <= i < |cs| ==> cs[i] in s;
    if AllKnown(rules, cs) {
      forall x, y, z | x in cs && y in cs && z in cs
        ensures !(CandidateLess(rules, x, y) && CandidateLess(rules, y, x))
        ensures !CandidateLess(rules, y, x) && !CandidateLess(rules, z, y) ==> !CandidateLess(rules, z, x)
      {
        CandidateOrder(rules, x, y, z);
      }
      SortInOrder(less, cs);
    }
  }

  lemma CandidateOrder(rules: Ruleset, x: Ruled, y: Ruled, z: Ruled)
    requires x.rule in rules && y.rule in rules && z.rule in rules
    ensures !(CandidateLess(rules, x, y) && CandidateLess(rules, y, x))
    ensures !CandidateLess(rules, y, x) && !CandidateLess(rules, z, y) ==> !CandidateLess(rules, z, x)
  {
    hide FactsLess;
    FactsOrder(x.candidate.facts, y.candidate.facts, z.candidate.facts);
    FactsOrder(y.candidate.facts, z.candidate.facts, x.candidate.facts);
    FactsOrder(z.candidate.facts, x.candidate.facts, y.candidate.facts);
  }

  // ----- What goes -----------------------------------------------------------------------------

  ghost predicate Named(cs: seq<Ruled>, n: nat, a: Activation) {
    exists i :: 0 <= i < n && i < |cs| && Stands(a, cs[i].rule, cs[i].candidate)
  }

  function AfterRemoval(a: Activation, named: bool): Activation {
    if a.status.Waiting? && named then a.(status := Deactivated) else a
  }

  /** What is named and waits is withdrawn; nothing else changes. */
  ghost predicate Withdrew(was: seq<Activation>, acts: seq<Activation>, cs: seq<Ruled>, n: nat, dropped: seq<Handle>) {
    && |acts| == |was|
    && (forall h :: 0 <= h < |was| ==> acts[h] == AfterRemoval(was[h], Named(cs, n, was[h])))
    && (forall h :: h in dropped <==> 0 <= h < |was| && was[h].status.Waiting? && Named(cs, n, was[h]))
    && (forall i, j :: 0 <= i < j < |dropped| ==> dropped[i] != dropped[j])
  }

  method WithdrawAll(a: Agenda, removed: seq<Ruled>) returns (dropped: seq<Handle>)
    requires a.Valid()
    modifies a`acts, a`queues, a`heapIndex
    ensures a.Valid() && (old(a.Ordered()) ==> a.Ordered())
    ensures Withdrew(old(a.acts), a.acts, removed, |removed|, dropped)
  {
    hide QueuesOk, AllOrdered, LookupOk, Distinguished, CoreOk, Find, Named;
    ghost var was := a.acts;
    dropped := [];
    NobodyNamed(was, removed);
    for n := 0 to |removed|
      invariant a.Valid() && (old(a.Ordered()) ==> a.Ordered())
      invariant Withdrew(was, a.acts, removed, n, dropped)
    {
      ghost var before := a.acts;
      var existing := a.FindActivation(removed[n].rule, removed[n].candidate.identity, removed[n].candidate.facts);
      WithdrawNext(a.CoreVal(), a.rules, was, removed, n, dropped, existing);
      if existing.Some? && a.acts[existing.value].status.Waiting? {
        Withdraw(a, existing.value);
        dropped := dropped + [existing.value];
      }
    }
  }

  lemma NobodyNamed(was: seq<Activation>, cs: seq<Ruled>)
    ensures Withdrew(was, was, cs, 0, [])
  {
  }

  lemma WithdrawNext(core: Core, rules: Ruleset, was: seq<Activation>, cs: seq<Ruled>, n: nat, dropped: seq<Handle>, existing: Option<Handle>)
    requires CoreOk(core, rules) && n < |cs| && Withdrew(was, core.acts, cs, n, dropped)
    requires existing == Find(core.acts, cs[n].rule, cs[n].candidate.identity, cs[n].candidate.facts)
    ensures existing.Some? ==> existing.value < |core.acts|
    ensures if existing.Some? && core.acts[existing.value].status.Waiting?
            then Withdrew(was, core.acts[existing.value := Withdrawn(core.acts[existing.value])], cs, n + 1, dropped + [existing.value])
            else Withdrew(was, core.acts, cs, n + 1, dropped)
  {
    hide Stands, Answers;
    NamedNext(core, rules, was, cs, n, dropped, existing);
    hide Named;
    if existing.Some? && core.acts[existing.value].status.Waiting? {
      var next := dropped + [existing.value];
      assert forall h :: h in next <==> h in dropped || h == existing.value;
    }
  }

  lemma NamedNext(core: Core, rules: Ruleset, was: seq<Activation>, cs: seq<Ruled>, n: nat, dropped: seq<Handle>, existing: Option<Handle>)
    requires CoreOk(core, rules) && n < |cs| && Withdrew(was, core.acts, cs, n, dropped)
    requires existing == Find(core.acts, cs[n].rule, cs[n].candidate.identity, cs[n].candidate.facts)
    ensures forall h :: 0 <= h < |was| ==> (Named(cs, n + 1, was[h]) <==> Named(cs, n, was[h]) || existing == Some(h))
  {
    forall h | 0 <= h < |was|
      ensures Named(cs, n + 1, was[h]) <==> Named(cs, n, was[h]) || existing == Some(h)
    {
      if existing.Some? { OnlyOneStands(core.acts, h, existing.value, cs[n].rule, cs[n].candidate); }
      assert Stands(core.acts[h], cs[n].rule, cs[n].candidate) <==> existing == Some(h);
      assert Stands(was[h], cs[n].rule, cs[n].candidate) <==> Stands(core.acts[h], cs[n].rule, cs[n].candidate);
      assert Named(cs, n + 1, was[h]) <==> Named(cs, n, was[h]) || Stands(was[h], cs[n].rule, cs[n].candidate);
    }
  }

  // ----- What comes -----------------------------------------------------------------------------

  /** One of the first `n` candidates is the activation's, and brought what it has. */
  ghost predicate Carried(cs: seq<Ruled>, n: nat, a: Activation) {
    exists i :: 0 <= i < n && i < |cs| && Stands(a, cs[i].rule, cs[i].candidate) && Carries(a, cs[i].candidate)
  }

  /** From `n` on, every activation waits, has what one of the candidates brings, and has the support of one candidate. */
  ghost predicate NewFrom(acts: seq<Activation>, n: nat, cs: seq<Ruled>, k: nat) {
    forall h :: n <= h < |acts| ==> acts[h].status.Waiting? && FreshSupport(acts[h]) && Carried(cs, k, acts[h])
  }

  ghost predicate AllHeld(acts: seq<Activation>, cs: seq<Ruled>, k: nat) {
    forall i :: 0 <= i < k && i < |cs| ==> Held1(acts, cs[i].rule, cs[i].candidate)
  }

  /** From `n` on, activations are stored in the order of creation. */
  ghost predicate StoredInOrder(rules: Ruleset, acts: seq<Activation>, n: nat) {
    forall h, k :: n <= h < k < |acts| ==> !CreatedBefore(rules, acts[k].rule, acts[k].facts, acts[h].rule, acts[h].facts)
  }

  ghost predicate Numbered(created: seq<Handle>, n: nat, m: nat) {
    n <= m && |created| == m - n && forall i :: 0 <= i < |created| ==> created[i] == n + i
  }

  ghost predicate Grown(mid: seq<Activation>, acts: seq<Activation>, cs: seq<Ruled>, k: nat, created: seq<Handle>) {
    mid <= acts && Numbered(created, |mid|, |acts|) && NewFrom(acts, |mid|, cs, k) && AllHeld(acts, cs, k)
  }

  method CreateAll(a: Agenda, cs: seq<Ruled>) returns (created: seq<Handle>, epoch: nat, ok: bool)
    requires a.Valid() && (AllKnown(a.rules, cs) ==> InCreationOrder(a.rules, cs))
    modifies a`acts, a`queues, a`heapIndex, a`lookup, a`nextOrdinal, a`nextEpoch
    ensures a.Valid() && (old(a.Ordered()) ==> a.Ordered())
    ensures ok <==> AllKnown(a.rules, cs)
    ensures ok ==> Grown(old(a.acts), a.acts, cs, |cs|, created) && StoredInOrder(a.rules, a.acts, |old(a.acts)|)
    ensures ok ==> Dated(a.Breadth?(), old(a.acts), a.acts, created, epoch, old(a.nextEpoch), a.nextEpoch)
  {
    hide QueuesOk, AllOrdered, LookupOk, Distinguished, CoreOk, Find, Grown, StoredInOrder, CreatedBefore, Dated, InCreationOrder;
    ghost var mid, first := a.acts, a.nextEpoch;
    created, epoch := [], 0;
    NothingCreated(a.rules, mid, cs);
    DatedStart(a.Breadth?(), mid, first);
    for n := 0 to |cs|
      invariant a.Valid() && (old(a.Ordered()) ==> a.Ordered())
      invariant forall i :: 0 <= i < n ==> cs[i].rule in a.rules
      invariant Grown(mid, a.acts, cs, n, created)
      invariant AllKnown(a.rules, cs) ==> StoredInOrder(a.rules, a.acts, |mid|)
      invariant Dated(a.Breadth?(), mid, a.acts, created, epoch, first, a.nextEpoch)
    {
      if cs[n].rule !in a.rules { return created, epoch, false; }
      ghost var before, reserved := a.acts, a.nextEpoch;
      var existing := a.FindActivation(cs[n].rule, cs[n].candidate.identity, cs[n].candidate.facts);
      if existing.Some? {
        KnownNext(mid, a.acts, cs, n, created, existing.value);
      } else {
        var t, next := CreateFor(a, cs[n].rule, cs[n].candidate, epoch);
        CreatedNext(mid, before, a.acts, cs, n, created);
        if AllKnown(a.rules, cs) { OrderNext(a.rules, mid, before, a.acts, cs, n, created); }
        DatedMore(a.Breadth?(), mid, before, a.acts, created, epoch, next, first, reserved, a.nextEpoch);
        created, epoch := created + [t], next;
      }
    }
    ok := true;
  }

  lemma NothingCreated(rules: Ruleset, mid: seq<Activation>, cs: seq<Ruled>)
    ensures Grown(mid, mid, cs, 0, []) && StoredInOrder(rules, mid, |mid|)
  {
  }

  lemma CarriedMore(cs: seq<Ruled>, n: nat, a: Activation)
    ensures Carried(cs, n, a) ==> Carried(cs, n + 1, a)
  {
  }

  lemma KnownNext(mid: seq<Activation>, acts: seq<Activation>, cs: seq<Ruled>, n: nat, created: seq<Handle>, h: Handle)
    requires Grown(mid, acts, cs, n, created) && n < |cs| && h < |acts| && Stands(acts[h], cs[n].rule, cs[n].candidate)
    ensures Grown(mid, acts, cs, n + 1, created)
  {
    hide Carried, Stands;
    forall k | |mid| <= k < |acts|
      ensures Carried(cs, n + 1, acts[k])
    {
      CarriedMore(cs, n, acts[k]);
    }
    assert Held1(acts, cs[n].rule, cs[n].candidate);
  }

  lemma CreatedNext(mid: seq<Activation>, before: seq<Activation>, acts: seq<Activation>, cs: seq<Ruled>, n: nat, created: seq<Handle>)
    requires Grown(mid, before, cs, n, created) && n < |cs| && |acts| == |before| + 1 && acts[..|before|] == before
    requires var a := acts[|before|]; Stands(a, cs[n].rule, cs[n].candidate) && Carries(a, cs[n].candidate) && a.status.Waiting? && FreshSupport(a)
    ensures Grown(mid, acts, cs, n + 1, created + [|before|])
  {
    NewNext(before, acts, |mid|, cs, n);
    HeldNext(before, acts, cs, n);
    hide Stands, NewFrom, AllHeld;
    assert mid <= acts;
  }

  lemma NewNext(before: seq<Activation>, acts: seq<Activation>, m: nat, cs: seq<Ruled>, n: nat)
    requires NewFrom(before, m, cs, n) && n < |cs| && |acts| == |before| + 1 && acts[..|before|] == before
    requires var a := acts[|before|]; Stands(a, cs[n].rule, cs[n].candidate) && Carries(a, cs[n].candidate) && a.status.Waiting? && FreshSupport(a)
    ensures NewFrom(acts, m, cs, n + 1)
  {
    hide Stands;
    assert Carried(cs, n + 1, acts[|before|]);
    hide Carried;
    forall k | m <= k < |before|
      ensures acts[k] == before[k] && Carried(cs, n + 1, acts[k])
    {
      assert acts[..|before|][k] == before[k];
      CarriedMore(cs, n, before[k]);
    }
  }

  lemma HeldNext(before: seq<Activation>, acts: seq<Activation>, cs: seq<Ruled>, n: nat)
    requires AllHeld(before, cs, n) && n < |cs| && |acts| == |before| + 1 && acts[..|before|] == before
    requires Stands(acts[|before|], cs[n].rule, cs[n].candidate)
    ensures AllHeld(acts, cs, n + 1)
  {
    hide Stands;
    forall i | 0 <= i < n
      ensures Held1(acts, cs[i].rule, cs[i].candidate)
    {
      assert Held1(before, cs[i].rule, cs[i].candidate);
      var h :| 0 <= h < |before| && Stands(before[h], cs[i].rule, cs[i].candidate);
      assert acts[..|before|][h] == before[h];
    }
    assert Held1(acts, cs[n].rule, cs[n].candidate);
  }

  lemma OrderNext(rules: Ruleset, mid: seq<Activation>, before: seq<Activation>, acts: seq<Activation>, cs: seq<Ruled>, n: nat, created: seq<Handle>)
    requires Grown(mid, before, cs, n, created) && n < |cs| && |acts| == |before| + 1 && acts[..|before|] == before
    requires Stands(acts[|before|], cs[n].rule, cs[n].candidate)
    requires InCreationOrder(rules, cs) && StoredInOrder(rules, before, |mid|)
    ensures StoredInOrder(rules, acts, |mid|)
  {
    hide CreatedBefore;
    forall h, k | |mid| <= h < k < |acts|
      ensures !CreatedBefore(rules, acts[k].rule, acts[k].facts, acts[h].rule, acts[h].facts)
    {
      assert acts[h] == before[h];
      if k < |before| {
        assert acts[k] == before[k];
      } else {
        assert Carried(cs, n, before[h]);
        var i :| 0 <= i < n && Stands(before[h], cs[i].rule, cs[i].candidate);
        assert !CandidateLess(rules, cs[n], cs[i]);
      }
    }
  }

  lemma DatedMore(breadth: bool, mid: seq<Activation>, before: seq<Activation>, acts: seq<Activation>, created: seq<Handle>,
                  epoch: nat, next: nat, first: nat, reserved: nat, now: nat)
    requires Dated(breadth, mid, before, created, epoch, first, reserved) && |acts| == |before| + 1 && acts[..|before|] == before
    requires breadth ==> ReservedOnce(reserved, now, epoch, next) && acts[|before|].birthEpoch == next
    requires !breadth ==> now == reserved && acts[|before|].birthEpoch == 0 && acts[|before|].birthRank == 0
    ensures Dated(breadth, mid, acts, created + [|before|], next, first, now)
  {
    assert forall h :: 0 <= h < |before| ==> acts[h] == acts[..|before|][h];
  }

  // ----- The whole exchange ---------------------------------------------------------------------

  /** The old activations but for those withdrawn, and after them, in order of creation, those the agenda did not know. */
  ghost predicate Exchanged(rules: Ruleset, was: seq<Activation>, acts: seq<Activation>, removed: seq<Ruled>, added: seq<Ruled>) {
    && |was| <= |acts|
    && (forall h :: 0 <= h < |was| ==> acts[h] == AfterRemoval(was[h], Named(removed, |removed|, was[h])))
    && NewFrom(acts, |was|, added, |added|) && AllHeld(acts, added, |added|) && StoredInOrder(rules, acts, |was|)
  }

  method ApplyCandidateDeltas(a: Agenda, removed: seq<Ruled>, added: seq<Ruled>) returns (changes: seq<Change>, ok: bool)
    requires a.Valid()
    modifies a`acts, a`queues, a`heapIndex, a`lookup, a`nextOrdinal, a`nextEpoch
    ensures a.Valid() && (old(a.Ordered()) ==> a.Ordered())
    ensures ok <==> AllKnown(a.rules, added)
    ensures ok ==> Exchanged(a.rules, old(a.acts), a.acts, removed, added) && ChangesExact(old(a.acts), a.acts, changes)
    ensures ok ==> BornNow(old(a.acts), a.acts, a.Breadth?(), old(a.nextEpoch) + 1)
    ensures ok ==> a.nextEpoch == old(a.nextEpoch) + if a.Breadth?() && Risen(old(a.acts), a.acts) != {} then 1 else 0
    ensures ok && a.Breadth?() ==> ChangesByBirth(a.acts, changes)
    ensures !ok ==> changes == []
  {
    hide QueuesOk, AllOrdered, LookupOk, Distinguished, CoreOk, Grown, StoredInOrder, InCreationOrder, ChangesExact, ChangesByBirth, ByBirth, Ranked, Withdrew, BornNow, Dated, OneEpoch;
    ghost var was, first := a.acts, a.nextEpoch;
    var dropped := WithdrawAll(a, removed);
    ghost var mid := a.acts;
    var sorted := SortCandidates(a.rules, added);
    var created, epoch;
    created, epoch, ok := CreateAll(a, sorted);
    if !ok { return [], false; }
    ghost var grown := a.acts;
    Handles(was, mid, grown, removed, sorted, dropped, created);
    DatedMeaning(a.Breadth?(), mid, grown, created, epoch, first, a.nextEpoch);
    var order, drops := created, dropped;
    if a.Breadth?() {
      order := RankWoken(a, created, epoch);
      order := InBirthOrder(a, order);
      drops := InBirthOrder(a, dropped);
    }
    Settled(a.rules, was, mid, grown, a.acts, removed, added, sorted, dropped, created);
    changes := Report(drops, order);
    ReportMembers(drops, order, changes);
    if a.Breadth?() { ReportByBirth(a.acts, drops, order, changes); }
    Difference(was, a.acts, dropped, created, drops, order, changes);
    RisenAre(was, a.acts, changes, order, created);
    if a.Breadth?() { AllBorn(was, grown, a.acts, created, epoch, first); } else { WithdrawnUnborn(was, mid, grown, removed, dropped, first); }
  }

  lemma WithdrawnUnborn(was: seq<Activation>, mid: seq<Activation>, grown: seq<Activation>, removed: seq<Ruled>, dropped: seq<Handle>, first: nat)
    requires Withdrew(was, mid, removed, |removed|, dropped) && BirthsKept(mid, grown)
    ensures BornNow(was, grown, false, first + 1)
  {
    hide Named;
  }

  lemma Handles(was: seq<Activation>, mid: seq<Activation>, grown: seq<Activation>, removed: seq<Ruled>, cs: seq<Ruled>,
                dropped: seq<Handle>, created: seq<Handle>)
    requires Withdrew(was, mid, removed, |removed|, dropped) && Grown(mid, grown, cs, |cs|, created)
    ensures |mid| == |was| && forall h :: h in dropped ==> h < |grown|
    ensures forall i, j :: 0 <= i < j < |dropped| ==> dropped[i] != dropped[j]
    ensures forall i, j :: 0 <= i < j < |created| ==> created[i] != created[j]
    ensures forall h :: h in created <==> |was| <= h < |grown|
  {
    hide Named, NewFrom, AllHeld;
    forall h: Handle | |was| <= h < |grown|
      ensures h in created
    {
      assert created[h - |was|] == h;
    }
  }

  lemma CarriedAlike(cs: seq<Ruled>, ds: seq<Ruled>, a: Activation)
    requires (forall c :: c in cs <==> c in ds) && Carried(cs, |cs|, a)
    ensures Carried(ds, |ds|, a)
  {
    var i :| 0 <= i < |cs| && Stands(a, cs[i].rule, cs[i].candidate) && Carries(a, cs[i].candidate);
    assert cs[i] in ds;
    var j :| 0 <= j < |ds| && ds[j] == cs[i];
  }

  /** Ranks change neither support nor states, and the old activations not at all. */
  lemma RankedNew(grown: seq<Activation>, created: seq<Handle>, n: nat)
    requires forall h :: h in created <==> n <= h < |grown|
    ensures var r := Ranked(grown, created);
            && (forall h :: 0 <= h < n && h < |r| ==> r[h] == grown[h])
            && forall h :: 0 <= h < |r| ==> r[h] == grown[h].(birthRank := r[h].birthRank)
  {
    hide EarlierBorn;
  }

  lemma Settled(rules: Ruleset, was: seq<Activation>, mid: seq<Activation>, grown: seq<Activation>, acts: seq<Activation>,
                removed: seq<Ruled>, added: seq<Ruled>, cs: seq<Ruled>, dropped: seq<Handle>, created: seq<Handle>)
    requires Withdrew(was, mid, removed, |removed|, dropped) && Grown(mid, grown, cs, |cs|, created)
    requires StoredInOrder(rules, grown, |was|) && forall c :: c in cs <==> c in added
    requires acts == grown || acts == Ranked(grown, created)
    ensures Exchanged(rules, was, acts, removed, added)
    ensures forall h :: h in dropped <==> h in WaitingOf(was) && h !in WaitingOf(acts)
    ensures forall h :: h in created <==> h in WaitingOf(acts) && h !in WaitingOf(was)
  {
    Handles(was, mid, grown, removed, cs, dropped, created);
    RankedNew(grown, created, |was|);
    hide Ranked, StoredInOrder, NewFrom, AllHeld, Withdrew, Named;
    assert forall h :: 0 <= h < |was| ==> acts[h] == mid[h] by { assert forall h :: 0 <= h < |mid| ==> grown[h] == mid[h]; }
    NewKept(grown, acts, |was|, added, cs);
    HeldKept(grown, acts, added, cs);
    OrderKept(rules, grown, acts, |was|);
    WithdrewStates(was, mid, acts, removed, dropped);
    NewWaiting(was, acts, added, created);
  }

  lemma OrderKept(rules: Ruleset, grown: seq<Activation>, acts: seq<Activation>, n: nat)
    requires |acts| == |grown| && forall h :: 0 <= h < |acts| ==> acts[h] == grown[h].(birthRank := acts[h].birthRank)
    requires StoredInOrder(rules, grown, n)
    ensures StoredInOrder(rules, acts, n)
  {
    hide CreatedBefore;
    forall h, k | n <= h < k < |acts|
      ensures !CreatedBefore(rules, acts[k].rule, acts[k].facts, acts[h].rule, acts[h].facts)
    {
      assert acts[h].facts == grown[h].facts && acts[k].facts == grown[k].facts;
    }
  }

  lemma WithdrewStates(was: seq<Activation>, mid: seq<Activation>, acts: seq<Activation>, removed: seq<Ruled>, dropped: seq<Handle>)
    requires Withdrew(was, mid, removed, |removed|, dropped)
    requires |was| <= |acts| && forall h :: 0 <= h < |was| ==> acts[h] == mid[h]
    ensures forall h :: 0 <= h < |was| ==> acts[h] == AfterRemoval(was[h], Named(removed, |removed|, was[h]))
    ensures forall h :: h in dropped <==> h in WaitingOf(was) && h !in WaitingOf(acts)
    ensures forall h :: 0 <= h < |was| && h in WaitingOf(acts) ==> h in WaitingOf(was)
  {
    hide Named;
  }

  lemma NewWaiting(was: seq<Activation>, acts: seq<Activation>, added: seq<Ruled>, created: seq<Handle>)
    requires |was| <= |acts| && NewFrom(acts, |was|, added, |added|)
    requires forall h :: h in created <==> |was| <= h < |acts|
    requires forall h :: 0 <= h < |was| && h in WaitingOf(acts) ==> h in WaitingOf(was)
    ensures forall h :: h in created <==> h in WaitingOf(acts) && h !in WaitingOf(was)
  {
    hide Carried;
  }

  lemma NewKept(grown: seq<Activation>, acts: seq<Activation>, n: nat, added: seq<Ruled>, cs: seq<Ruled>)
    requires |acts| == |grown| && forall h :: 0 <= h < |acts| ==> acts[h] == grown[h].(birthRank := acts[h].birthRank)
    requires NewFrom(grown, n, cs, |cs|) && forall c :: c in cs <==> c in added
    ensures NewFrom(acts, n, added, |added|)
  {
    forall h | n <= h < |acts|
      ensures acts[h].status.Waiting? && FreshSupport(acts[h]) && Carried(added, |added|, acts[h])
    {
      assert Carried(cs, |cs|, grown[h]);
      assert Carried(cs, |cs|, acts[h]);
      CarriedAlike(cs, added, acts[h]);
    }
  }

  lemma HeldKept(grown: seq<Activation>, acts: seq<Activation>, added: seq<Ruled>, cs: seq<Ruled>)
    requires |acts| == |grown| && forall h :: 0 <= h < |acts| ==> acts[h] == grown[h].(birthRank := acts[h].birthRank)
    requires AllHeld(grown, cs, |cs|) && forall c :: c in cs <==> c in added
    ensures AllHeld(acts, added, |added|)
  {
    forall i | 0 <= i < |added|
      ensures Held1(acts, added[i].rule, added[i].candidate)
    {
      assert added[i] in cs;
      var j :| 0 <= j < |cs| && cs[j] == added[i];
      assert Held1(grown, cs[j].rule, cs[j].candidate);
      var h :| 0 <= h < |grown| && Stands(grown[h], cs[j].rule, cs[j].candidate);
      assert Stands(acts[h], added[i].rule, added[i].candidate);
    }
  }

  lemma Difference(was: seq<Activation>, acts: seq<Activation>, dropped: seq<Handle>, created: seq<Handle>, drops: seq<Handle>, order: seq<Handle>,
                   changes: seq<Change>)
    requires forall h :: h in dropped <==> h in WaitingOf(was) && h !in WaitingOf(acts)
    requires forall h :: h in created <==> h in WaitingOf(acts) && h !in WaitingOf(was)
    requires (forall h :: h in drops <==> h in dropped) && forall h :: h in order <==> h in created
    requires forall h :: (Dropped(h) in changes <==> h in drops) && (Activated(h) in changes <==> h in order)
    requires forall i, j :: 0 <= i < j < |changes| ==> changes[i] != changes[j] && !(changes[i].Activated? && changes[j].Dropped?)
    ensures ChangesExact(was, acts, changes)
  {
  }
}
