/**
 Births out of turn. Two births of one module, salience and epoch leave every queue in order when they
 come in the order of their ranks; when they come the other way round, any queue of three older peers
 loses its order.
 */
module AgendaLimits {
  import opened Sequences
  import opened AgendaOrder
  import opened AgendaHeap
  import opened BirthRanks
  import opened AgendaBirths
  import opened AgendaDelta
  import opened AgendaQueues
  import opened AgendaTidy
  import opened Agenda

  // ----- Two new activations ------------------------------------------------------------------

  /** Two tokens for two matches the agenda does not know, of one module and salience, born in the epoch of the batch. */
  ghost predicate TwoNew(core: Core, rules: Ruleset, d: Delta, e: Delta) {
    && d.token != 0 && e.token != 0 && d.rule in rules && e.rule in rules && d.birthEpoch == e.birthEpoch == 0
    && rules[d.rule].moduleName == rules[e.rule].moduleName && rules[d.rule].salience == rules[e.rule].salience
    && Find(core.acts, d.rule, d.identity, d.facts).None? && Find(core.acts, e.rule, e.identity, e.facts).None?
    && !(d.rule == e.rule && d.identity == e.identity && d.facts == e.facts)
  }

  function FirstNew(core: Core, rules: Ruleset, d: Delta): Activation
    requires d.rule in rules
  {
    Created(rules[d.rule], d, core.nextOrdinal + 1)
  }

  function SecondNew(core: Core, rules: Ruleset, e: Delta): Activation
    requires e.rule in rules
  {
    Created(rules[e.rule], e, core.nextOrdinal + 2)
  }

  function InEpoch(core: Core, a: Activation): Activation {
    a.(birthEpoch := core.nextEpoch + 1)
  }

  /** The token that comes second ranks first. */
  predicate OutOfTurn(core: Core, rules: Ruleset, d: Delta, e: Delta)
    requires d.rule in rules && e.rule in rules
  {
    RecordLess(SecondNew(core, rules, e), FirstNew(core, rules, d))
  }

  lemma TwoAdded(o: Order, core: Core, rules: Ruleset, d: Delta, e: Delta, queues: map<ModuleName, seq<Handle>>)
    requires TwoNew(core, rules, d, e)
    ensures var acts, x, y := core.acts, FirstNew(core, rules, d), SecondNew(core, rules, e);
            var n := |acts|;
            var r := AddedAll(core, rules, true, [d, e], 2);
            && r.ok && r.core.acts == acts + [InEpoch(core, x)] + [InEpoch(core, y)] && r.births.born == [n, n + 1]
            && AddedQueuesAll(o, core, rules, true, [d, e], 2, queues) ==
               Pushed(o, acts + [InEpoch(core, x)] + [y], Pushed(o, acts + [x], queues, n), n + 1)
  {
    hide Pushed;
    var ds := [d, e];
    var acts, x, y := core.acts, FirstNew(core, rules, d), SecondNew(core, rules, e);
    NoneAdded(core, rules, true, ds, o, queues);
    AddedStep(o, core, rules, true, ds, 0, queues);
    AddedStep(o, core, rules, true, ds, 1, queues);
    var r1 := AddedAll(core, rules, true, ds, 1);
    assert (acts + [x])[|acts| := InEpoch(core, x)] == acts + [InEpoch(core, x)];
    assert r1.core.acts == acts + [InEpoch(core, x)] && r1.core.nextOrdinal == core.nextOrdinal + 1 && r1.births == Births(core.nextEpoch + 1, [|acts|]);
    FindAppended(acts, InEpoch(core, x), e.rule, e.identity, e.facts);
    var bcts := r1.core.acts;
    assert (bcts + [y])[|bcts| := InEpoch(core, y)] == bcts + [InEpoch(core, y)];
  }

  lemma FindAppended(acts: seq<Activation>, a: Activation, rule: RuleId, identity: Identity, facts: seq<FactRef>)
    requires Find(acts, rule, identity, facts).None? && !Answers(a, rule, identity, facts)
    ensures Find(acts + [a], rule, identity, facts).None?
  {
    assert forall k :: 0 <= k < |acts| ==> (acts + [a])[k] == acts[k];
    assert (acts + [a])[|acts|] == a;
  }

  // ----- In turn -----------------------------------------------------------------------------------

  lemma InTurnSafe(core: Core, rules: Ruleset, d: Delta, e: Delta, m: ModuleName)
    requires TwoNew(core, rules, d, e) && !OutOfTurn(core, rules, d, e) && Aged(core.acts, rules[d.rule].moduleName, rules[d.rule].salience)
    ensures QueueSafe(core, rules, [], [d, e], m)
  {
    hide Find, RecordLess, AddedAll;
    NoneRemoved(core, rules);
    TwoAdded(Order(Breadth, true), core, rules, d, e, map[]);
    var r := AddedAll(core, rules, true, [d, e], 2);
    var acts, born, n := r.core.acts, r.births.born, |core.acts|;
    var x, y := FirstNew(core, rules, d), SecondNew(core, rules, e);
    assert acts[n] == InEpoch(core, x) && acts[n + 1] == InEpoch(core, y);
    RecordOrder(x, y, x);
    InEpochRecord(core, x, y);
    assert forall h :: h in BornIn(acts, born, m) ==> h == n || h == n + 1;
    hide InEpoch, FirstNew, SecondNew;
    assert Orderly(core.acts, acts, born, m);
  }

  lemma InEpochRecord(core: Core, x: Activation, y: Activation)
    ensures RecordLess(InEpoch(core, x), InEpoch(core, y)) == RecordLess(x, y)
  {
  }

  /** Two births in turn keep any agenda in order. */
  method InTurnKeepsOrder(a: Agenda, d: Delta, e: Delta)
    requires a.Valid() && a.Ordered() && a.Breadth?() && TwoNew(a.CoreVal(), a.rules, d, e) && !OutOfTurn(a.CoreVal(), a.rules, d, e)
    requires Aged(a.acts, a.rules[d.rule].moduleName, a.rules[d.rule].salience)
    modifies a
    ensures a.Valid() && a.Ordered() && |a.acts| == |old(a.acts)| + 2
  {
    hide QueuesOk, CoreOk, LookupOk, Find, OutOfTurn, Aged, QueueSafe, RecordLess, HeapOrdered, AddedAll, RemovedAll, Ranked, BatchQueues;
    ghost var core := a.CoreVal();
    forall m
      ensures QueueSafe(core, a.rules, [], [d, e], m)
    {
      InTurnSafe(core, a.rules, d, e, m);
    }
    TwoAdded(a.O(), core, a.rules, d, e, a.queues);
    NoneRemoved(core, a.rules);
    hide DeltaQueues;
    var ok := a.ApplyTokenDeltas([], [d, e]);
  }

  // ----- Out of turn -------------------------------------------------------------------------------

  /** Three activations of the salience wait in the module, all born before now. */
  ghost predicate ThreePeers(core: Core, queues: map<ModuleName, seq<Handle>>, m: ModuleName, salience: int) {
    && m in queues && |queues[m]| == 4 && QueueOf(core.acts, m, queues[m]) && Distinguished(core.acts)
    && forall i :: 1 <= i < 4 ==> core.acts[queues[m][i]].salience == salience && 0 < core.acts[queues[m][i]].birthEpoch <= core.nextEpoch
  }

  lemma FirstRises(o: Order, acts: seq<Activation>, q: seq<Handle>, x: Handle)
    requires |q| == 4 && Before(o, acts, x, q[2]) && Before(o, acts, x, q[1])
    ensures SiftedUp(o, acts, q + [x], 4) == [q[0], x, q[1], q[3], q[2]]
  {
    hide Before;
    var h := q + [x];
    var h1 := Swapped(h, 4, 2);
    assert h1 == [q[0], q[1], x, q[3], q[2]];
    assert Swapped(h1, 2, 1) == [q[0], x, q[1], q[3], q[2]];
    assert SiftedUp(o, acts, h1, 2) == SiftedUp(o, acts, Swapped(h1, 2, 1), 1);
  }

  lemma SecondRises(o: Order, acts: seq<Activation>, q: seq<Handle>, y: Handle)
    requires |q| == 5 && Before(o, acts, y, q[2]) && Before(o, acts, y, q[1])
    ensures SiftedUp(o, acts, q + [y], 5) == [q[0], y, q[1], q[3], q[4], q[2]]
  {
    hide Before;
    var h := q + [y];
    var h1 := Swapped(h, 5, 2);
    assert h1 == [q[0], q[1], y, q[3], q[4], q[2]];
    assert Swapped(h1, 2, 1) == [q[0], y, q[1], q[3], q[4], q[2]];
    assert SiftedUp(o, acts, h1, 2) == SiftedUp(o, acts, Swapped(h1, 2, 1), 1);
  }

  /** The second birth, ranked first, sinks from the root past the third peer. */
  lemma RootSinks(o: Order, acts: seq<Activation>, q: seq<Handle>)
    requires |q| == 6 && Before(o, acts, q[3], q[2]) && Before(o, acts, q[3], q[1])
    ensures Refitted(o, acts, q, 1) == [q[0], q[3], q[2], q[1], q[4], q[5]]
  {
    hide Before;
    assert FirstChild(o, acts, q, 1) == 3;
    var t := Swapped(q, 1, 3);
    assert t == [q[0], q[3], q[2], q[1], q[4], q[5]];
    assert SiftedDown(o, acts, t, 3) == t;
  }

  /** The first birth then sinks past the first peer, which comes to stand below the third. */
  lemma SecondSinks(o: Order, acts: seq<Activation>, q: seq<Handle>)
    requires |q| == 6 && !Before(o, acts, q[2], q[1]) && Before(o, acts, q[5], q[4]) && Before(o, acts, q[5], q[2])
    ensures Refitted(o, acts, q, 2) == [q[0], q[1], q[5], q[3], q[4], q[2]]
  {
    hide Before;
    assert FirstChild(o, acts, q, 2) == 5;
    var t := Swapped(q, 2, 5);
    assert t == [q[0], q[1], q[5], q[3], q[4], q[2]];
    assert SiftedDown(o, acts, t, 5) == t;
  }

  /** Only the births' own keys have changed. */
  predicate Extends(acts: seq<Activation>, bcts: seq<Activation>, salience: int, first: nat, second: nat) {
    && |bcts| >= |acts| + 1 && acts == bcts[..|acts|]
    && bcts[|acts|].salience == salience && bcts[|acts|].birthEpoch == first
    && (|bcts| > |acts| + 1 ==> bcts[|acts| + 1].salience == salience && bcts[|acts| + 1].birthEpoch == second)
  }

  /** The peers compare as they did, and with the births by epoch. */
  lemma Comparisons(o: Order, acts: seq<Activation>, bcts: seq<Activation>, p: Handle, q: Handle, salience: int, first: nat, second: nat)
    requires o.strategy == Breadth && Extends(acts, bcts, salience, first, second) && p < |acts| && q < |acts|
    requires acts[p].salience == salience
    ensures Before(o, bcts, p, q) == Before(o, acts, p, q)
    ensures first < acts[p].birthEpoch ==> Before(o, bcts, |acts|, p)
    ensures acts[p].birthEpoch < first ==> Before(o, bcts, p, |acts|) && !Before(o, bcts, |acts|, p)
    ensures |bcts| > |acts| + 1 ==>
              && (second < acts[p].birthEpoch ==> Before(o, bcts, |acts| + 1, p))
              && (acts[p].birthEpoch < second ==> Before(o, bcts, p, |acts| + 1) && !Before(o, bcts, |acts| + 1, p))
              && (second < first ==> Before(o, bcts, |acts| + 1, |acts|))
  {
    assert bcts[p] == acts[p] && bcts[q] == acts[q];
  }

  /** The queue of the module once both births stand in it. */
  lemma BothPushed(o: Order, core: Core, rules: Ruleset, d: Delta, e: Delta, queues: map<ModuleName, seq<Handle>>)
    requires o.strategy == Breadth && TwoNew(core, rules, d, e) && ThreePeers(core, queues, rules[d.rule].moduleName, rules[d.rule].salience)
    ensures var acts, m, n := core.acts, rules[d.rule].moduleName, |core.acts|;
            var x, y := FirstNew(core, rules, d), SecondNew(core, rules, e);
            var q := queues[m];
            Pushed(o, acts + [InEpoch(core, x)] + [y], Pushed(o, acts + [x], queues, n), n + 1)
            == queues[m := [q[0], n + 1, n, q[3], q[2], q[1]]]
  {
    hide Before, SiftedUp, Distinguished, Find;
    var acts, m, n, s := core.acts, rules[d.rule].moduleName, |core.acts|, rules[d.rule].salience;
    var x, y := FirstNew(core, rules, d), SecondNew(core, rules, e);
    var q := queues[m];
    var first, second := acts + [x], acts + [InEpoch(core, x)] + [y];
    assert Extends(acts, first, s, 0, 0);
    Comparisons(o, acts, first, q[2], q[1], s, 0, 0);
    Comparisons(o, acts, first, q[1], q[2], s, 0, 0);
    FirstRises(o, first, q, n);
    var q1 := [q[0], n, q[1], q[3], q[2]];
    assert Pushed(o, first, queues, n) == queues[m := q1];
    assert second[..n] == acts && second[n] == InEpoch(core, x) && second[n + 1] == y;
    assert Extends(acts, second, s, core.nextEpoch + 1, 0);
    Comparisons(o, acts, second, q[1], q[2], s, core.nextEpoch + 1, 0);
    SecondRises(o, second, q1, n + 1);
    assert QueueAt(queues[m := q1], m) == q1;
    assert Pushed(o, second, queues[m := q1], n + 1) == queues[m := [q[0], n + 1, n, q[3], q[2], q[1]]];
  }

  lemma SolePlace(q: seq<Handle>, i: nat)
    requires 1 <= i < |q| && forall k :: 1 <= k < |q| && k != i ==> q[k] != q[i]
    ensures PlaceIn(q, q[i]) == i
  {
  }

  /** The second birth ranked first, then the first: the first peer ends below the third. */
  lemma RanksMisplace(o: Order, acts: seq<Activation>, bcts: seq<Activation>, queues: map<ModuleName, seq<Handle>>, m: ModuleName, q: seq<Handle>,
                      salience: int, epoch: nat)
    requires o.strategy == Breadth && Distinguished(acts) && |q| == 4 && QueueOf(acts, m, q) && HeapOrdered(o, acts, q)
    requires forall i :: 1 <= i < 4 ==> acts[q[i]].salience == salience && acts[q[i]].birthEpoch < epoch
    requires |bcts| == |acts| + 2 && Extends(acts, bcts, salience, epoch, epoch)
    requires bcts[|acts|].moduleName == m && bcts[|acts| + 1].moduleName == m
    requires var n := |acts|; m in queues && queues[m] == [q[0], n + 1, n, q[3], q[2], q[1]]
    ensures var n := |acts|; var after := RankSteps(o, bcts, queues, [n + 1, n], 2).1;
            m in after && after[m] == [q[0], q[3], q[1], n + 1, q[2], n] && Before(o, acts, q[1], q[3])
  {
    hide Before, Refitted, Distinguished;
    var n, s := |acts|, [|acts| + 1, |acts|];
    assert Settled(o, acts, q, 2) && Settled(o, acts, q, 3);
    BeforeOrder(o, acts, q[1], q[2], q[3]);
    BeforeOrder(o, acts, q[1], q[3], q[2]);
    var q0, q1, q2 := queues[m], [q[0], q[3], n, n + 1, q[2], q[1]], [q[0], q[3], q[1], n + 1, q[2], n];
    var b1 := bcts[n + 1 := bcts[n + 1].(birthRank := 1)];
    var b2 := b1[n := b1[n].(birthRank := 2)];
    assert b1[..n] == acts && b2[..n] == acts && Extends(acts, b1, salience, epoch, epoch) && Extends(acts, b2, salience, epoch, epoch);
    Comparisons(o, acts, b1, q[3], q[1], salience, epoch, epoch);
    SolePlace(q0, 1);
    RootSinks(o, b1, q0);
    NoSteps(o, bcts, queues, s);
    assert RankSteps(o, bcts, queues, s, 1) == (b1, queues[m := q1]);
    Comparisons(o, acts, b2, q[3], q[1], salience, epoch, epoch);
    Comparisons(o, acts, b2, q[1], q[2], salience, epoch, epoch);
    SolePlace(q1, 2);
    SecondSinks(o, b2, q1);
    assert QueueAt(queues[m := q1], m) == q1;
    assert RankSteps(o, bcts, queues, s, 2) == (b2, queues[m := q1][m := q2]);
  }

  /** What the batch leads to, before any rank. */
  function BothBorn(core: Core, rules: Ruleset, d: Delta, e: Delta): (r: seq<Activation>)
    requires d.rule in rules && e.rule in rules
    ensures |r| == |core.acts| + 2 && r[..|core.acts|] == core.acts
    ensures r[|core.acts|] == InEpoch(core, FirstNew(core, rules, d)) && r[|core.acts| + 1] == InEpoch(core, SecondNew(core, rules, e))
  {
    core.acts + [InEpoch(core, FirstNew(core, rules, d))] + [InEpoch(core, SecondNew(core, rules, e))]
  }

  lemma RankedOutOfTurn(o: Order, core: Core, rules: Ruleset, d: Delta, e: Delta, queues: map<ModuleName, seq<Handle>>, after: map<ModuleName, seq<Handle>>)
    requires o.strategy == Breadth && TwoNew(core, rules, d, e) && OutOfTurn(core, rules, d, e)
    requires ThreePeers(core, queues, rules[d.rule].moduleName, rules[d.rule].salience)
    requires BatchQueues(o, core, rules, true, [d, e], queues, after)
    ensures var n, m := |core.acts|, rules[d.rule].moduleName;
            var q := queues[m];
            after == RankSteps(o, BothBorn(core, rules, d, e), queues[m := [q[0], n + 1, n, q[3], q[2], q[1]]], [n + 1, n], 2).1
  {
    hide Before, Find, AddedAll, AddedQueuesAll, RankSteps, RecordLess, Pushed, Distinguished, RankedQueues, QueueOf;
    TwoAdded(o, core, rules, d, e, queues);
    BothPushed(o, core, rules, d, e, queues);
    var bcts, n := BothBorn(core, rules, d, e), |core.acts|;
    assert OneEpoch(bcts, [n, n + 1], core.nextEpoch + 1);
    InEpochRecord(core, SecondNew(core, rules, e), FirstNew(core, rules, d));
    var q := queues[rules[d.rule].moduleName];
    RankOrderOfTwo(o, bcts, queues[rules[d.rule].moduleName := [q[0], n + 1, n, q[3], q[2], q[1]]], n, n + 1, after);
  }

  /** Two births out of turn take a queue of three older peers out of order. */
  lemma OutOfTurnMisplaces(o: Order, core: Core, rules: Ruleset, d: Delta, e: Delta,
                           queues: map<ModuleName, seq<Handle>>, after: map<ModuleName, seq<Handle>>)
    requires o.strategy == Breadth && TwoNew(core, rules, d, e) && OutOfTurn(core, rules, d, e)
    requires ThreePeers(core, queues, rules[d.rule].moduleName, rules[d.rule].salience)
    requires HeapOrdered(o, core.acts, queues[rules[d.rule].moduleName]) && BatchQueues(o, core, rules, true, [d, e], queues, after)
    ensures var m := rules[d.rule].moduleName;
            m in after && |after[m]| == 6 && after[m][1] < |core.acts| && after[m][2] < |core.acts| && Before(o, core.acts, after[m][2], after[m][1])
  {
    hide Before, HeapOrdered, RankSteps, BatchQueues, Distinguished, Find, OutOfTurn;
    var m, s, n := rules[d.rule].moduleName, rules[d.rule].salience, |core.acts|;
    var q := queues[m];
    RankedOutOfTurn(o, core, rules, d, e, queues, after);
    RanksMisplace(o, core.acts, BothBorn(core, rules, d, e), queues[m := [q[0], n + 1, n, q[3], q[2], q[1]]], m, q, s, core.nextEpoch + 1);
  }

  /** Of two births the one that ranks first is put right first. */
  lemma RankOrderOfTwo(o: Order, acts: seq<Activation>, queues: map<ModuleName, seq<Handle>>, x: Handle, y: Handle, after: map<ModuleName, seq<Handle>>)
    requires x < |acts| && y < |acts| && x != y && RecordBefore(acts, y, x) && RankedQueues(o, acts, queues, [x, y], after)
    ensures after == RankSteps(o, acts, queues, [y, x], 2).1
  {
    hide RankSteps, RecordLess;
    var s :| RankOrder(acts, [x, y], s) && after == RankSteps(o, acts, queues, s, |s|).1;
    assert |s| == |multiset(s)| == 2;
    assert s == [s[0], s[1]] && s[0] in multiset(s) && s[1] in multiset(s);
    assert multiset(s) == multiset{s[0], s[1]} == multiset{x, y};
    RecordOrder(acts[x], acts[y], acts[x]);
    assert RecordBefore(acts, s[0], s[1]);
  }

  // ----- On the agenda --------------------------------------------------------------------------------

  /** Two births out of turn lose the order of any agenda with three older peers. */
  method OutOfTurnLosesOrder(a: Agenda, d: Delta, e: Delta)
    requires a.Valid() && a.Ordered() && a.Breadth?() && TwoNew(a.CoreVal(), a.rules, d, e) && OutOfTurn(a.CoreVal(), a.rules, d, e)
    requires ThreePeers(a.CoreVal(), a.queues, a.rules[d.rule].moduleName, a.rules[d.rule].salience)
    modifies a
    ensures a.Valid() && !a.Ordered()
  {
    hide QueuesOk, CoreOk, LookupOk, Find, OutOfTurn, QueueSafe, RecordLess, HeapOrdered, AddedAll, RemovedAll, Ranked, BatchQueues, Before, TwoNew, ThreePeers;
    ghost var core, o, before := a.CoreVal(), a.O(), a.queues;
    Known(core, a.rules, d, e, before);
    ghost var m := a.rules[d.rule].moduleName;
    TwoAdded(o, core, a.rules, d, e, before);
    NoneRemoved(core, a.rules);
    hide DeltaQueues;
    var ok := a.ApplyTokenDeltas([], [d, e]);
    NothingRemovedQueues(o, core, a.rules, true, [d, e], before, a.queues);
    OutOfTurnMisplaces(o, core, a.rules, d, e, before, a.queues);
    StillMisplaced(o, core, a.rules, d, e, a.acts, a.queues[m]);
  }

  lemma Known(core: Core, rules: Ruleset, d: Delta, e: Delta, queues: map<ModuleName, seq<Handle>>)
    requires TwoNew(core, rules, d, e)
    ensures d.rule in rules && e.rule in rules
    ensures ThreePeers(core, queues, rules[d.rule].moduleName, rules[d.rule].salience) ==> rules[d.rule].moduleName in queues
  {
  }

  lemma StillMisplaced(o: Order, core: Core, rules: Ruleset, d: Delta, e: Delta, acts: seq<Activation>, q: seq<Handle>)
    requires TwoNew(core, rules, d, e) && acts == Ranked(core.acts + [InEpoch(core, FirstNew(core, rules, d))] + [InEpoch(core, SecondNew(core, rules, e))], [|core.acts|, |core.acts| + 1])
    requires |q| == 6 && q[1] < |core.acts| && q[2] < |core.acts| && Before(o, core.acts, q[2], q[1])
    ensures !HeapOrdered(o, acts, q)
  {
    assert acts[q[1]] == core.acts[q[1]] && acts[q[2]] == core.acts[q[2]];
    assert !Settled(o, acts, q, 2);
  }

  // ----- Three older peers ------------------------------------------------------------------------------

  lemma OneApplied(core: Core, rules: Ruleset, d: Delta)
    requires d.token != 0 && d.rule in rules && d.birthEpoch == 0 && Find(core.acts, d.rule, d.identity, d.facts).None?
    requires CoreOk(core, rules)
    ensures var r := Applied(core, rules, true, [], [d]);
            && r.ok && r.core.nextEpoch == core.nextEpoch + 1 && r.core.nextOrdinal == core.nextOrdinal + 1
            && r.core.acts == core.acts + [InEpoch(core, FirstNew(core, rules, d)).(birthRank := 1)]
            && r.core.links == core.links[d.token := Link(|core.acts|, core.nextOrdinal + 1)]
    ensures BornBy(core, rules, true, [], [d]) == [|core.acts|]
  {
    hide Find;
    var o, none := Order(Breadth, true), map[];
    var acts, n, x, ds := core.acts, |core.acts|, FirstNew(core, rules, d), [d];
    NoneRemoved(core, rules);
    NoneAdded(core, rules, true, ds, o, none);
    AddedStep(o, core, rules, true, ds, 0, none);
    assert (acts + [x])[n := InEpoch(core, x)] == acts + [InEpoch(core, x)];
    var bcts := acts + [InEpoch(core, x)];
    assert bcts[n] == InEpoch(core, x);
    assert DistinctBorn(bcts, [n]) && OneEpoch(bcts, [n], core.nextEpoch + 1);
    RankedOne(bcts, [n], core.nextEpoch + 1);
    assert bcts[n := bcts[n].(birthEpoch := core.nextEpoch + 1, birthRank := 1)] == acts + [InEpoch(core, x).(birthRank := 1)];
  }

  /** One more activation, by a batch of its own. */
  method AddPeer(a: Agenda, d: Delta)
    requires a.Valid() && a.Ordered() && a.Breadth?()
    requires d.token != 0 && d.rule in a.rules && d.birthEpoch == 0 && Find(a.acts, d.rule, d.identity, d.facts).None?
    modifies a
    ensures a.Valid() && a.Ordered() && a.nextEpoch == old(a.nextEpoch) + 1 && a.nextOrdinal == old(a.nextOrdinal) + 1
    ensures a.acts == old(a.acts) + [InEpoch(old(a.CoreVal()), FirstNew(old(a.CoreVal()), a.rules, d)).(birthRank := 1)]
    ensures a.links == old(a.links)[d.token := Link(|old(a.acts)|, old(a.nextOrdinal) + 1)]
  {
    hide QueuesOk, LookupOk, Find, HeapOrdered, Applied, QueueSafe, DeltaQueues;
    OneApplied(a.CoreVal(), a.rules, d);
    var ok := a.ApplyTokenDeltas([], [d]);
  }

  /** A token of the rule of `d` for a match unlike the others, told apart by the number of its facts. */
  function PeerOf(d: Delta, token: TokenId, facts: nat): Delta {
    d.(token := token, birthEpoch := 0, facts := seq(facts, i => FactRef(0, 0)))
  }

  /** As many places as there are, after the unused first. */
  lemma CountPlaces(n: nat, places: set<nat>)
    requires 0 !in places && forall i :: 1 <= i < n ==> i in places
    ensures n <= |places| + 1
  {
    var all := places + {0};
    assert Below(n) <= all;
    assert all == Below(n) + (all - Below(n));
  }

  lemma PlaceHeld(acts: seq<Activation>, queues: map<ModuleName, seq<Handle>>, index: seq<nat>, m: ModuleName, h: Handle)
    requires QueuesOk(acts, queues, index) && Held(index) == WaitingOf(acts)
    requires h < |acts| && acts[h].status.Waiting? && acts[h].moduleName == m
    ensures h < |index| && m in queues && 1 <= index[h] < |queues[m]| && queues[m][index[h]] == h
  {
    assert h in WaitingOf(acts);
    HeldLeads(acts, queues, index, h);
  }

  lemma QueueOfThree(acts: seq<Activation>, queues: map<ModuleName, seq<Handle>>, index: seq<nat>, m: ModuleName)
    requires QueuesOk(acts, queues, index) && Held(index) == WaitingOf(acts) && |acts| == 3
    requires forall h :: 0 <= h < 3 ==> acts[h].status.Waiting? && acts[h].moduleName == m
    ensures m in queues && |queues[m]| == 4 && QueueOf(acts, m, queues[m])
  {
    hide QueuesOk, Held, WaitingOf, QueueOf;
    PlaceHeld(acts, queues, index, m, 0);
    PlaceHeld(acts, queues, index, m, 1);
    PlaceHeld(acts, queues, index, m, 2);
    QueueOfAt(acts, queues, index, m);
    var q := queues[m];
    var places := {index[0], index[1], index[2]};
    forall i | 1 <= i < |q|
      ensures i in places
    {
      assert q[i] < 3 && index[q[i]] == i;
    }
    CountPlaces(|q|, places);
  }

  /**
   Whatever two tokens of one module and salience come out of turn: there is an agenda in order, made
   by batches of one token each, that loses its order to them.
   */
  method OutOfTurnNotSafe(rules: Ruleset, inMain: bool, d: Delta, e: Delta) returns (a: Agenda)
    requires d.token != 0 && e.token != 0 && d.rule in rules && e.rule in rules && d.birthEpoch == e.birthEpoch == 0
    requires rules[d.rule].moduleName == rules[e.rule].moduleName && rules[d.rule].salience == rules[e.rule].salience
    requires !(d.rule == e.rule && d.identity == e.identity && d.facts == e.facts)
    requires OutOfTurn(Core([], map[], 0, 0), rules, d, e)
    ensures fresh(a) && a.rules == rules && a.Breadth?() && a.Valid() && !a.Ordered()
  {
    a := WithPeers(rules, inMain, d, e);
    OutOfTurnLosesOrder(a, d, e);
  }

  predicate IsPeer(a: Activation, r: Rule, facts: nat) {
    a.status.Waiting? && a.moduleName == r.moduleName && a.salience == r.salience && |a.facts| > facts
  }

  lemma PeersReady(core: Core, queues: map<ModuleName, seq<Handle>>, index: seq<nat>, rules: Ruleset, d: Delta, e: Delta)
    requires d.token != 0 && e.token != 0 && d.rule in rules && e.rule in rules && d.birthEpoch == e.birthEpoch == 0
    requires rules[d.rule].moduleName == rules[e.rule].moduleName && rules[d.rule].salience == rules[e.rule].salience
    requires !(d.rule == e.rule && d.identity == e.identity && d.facts == e.facts)
    requires QueuesOk(core.acts, queues, index) && Held(index) == WaitingOf(core.acts) && Distinguished(core.acts) && |core.acts| == 3 <= core.nextEpoch
    requires forall h :: 0 <= h < 3 ==> IsPeer(core.acts[h], rules[d.rule], |d.facts| + |e.facts|) && core.acts[h].birthEpoch == h + 1
    ensures TwoNew(core, rules, d, e) && ThreePeers(core, queues, rules[d.rule].moduleName, rules[d.rule].salience)
  {
    QueueOfThree(core.acts, queues, index, rules[d.rule].moduleName);
    hide QueuesOk, Held, WaitingOf, Distinguished;
    var q := queues[rules[d.rule].moduleName];
    assert forall i :: 1 <= i < 4 ==> q[i] < 3;
  }

  method WithPeers(rules: Ruleset, inMain: bool, d: Delta, e: Delta) returns (a: Agenda)
    requires d.token != 0 && e.token != 0 && d.rule in rules && e.rule in rules && d.birthEpoch == e.birthEpoch == 0
    requires rules[d.rule].moduleName == rules[e.rule].moduleName && rules[d.rule].salience == rules[e.rule].salience
    requires !(d.rule == e.rule && d.identity == e.identity && d.facts == e.facts)
    ensures fresh(a) && a.rules == rules && a.Breadth?() && a.Valid() && a.Ordered()
    ensures TwoNew(a.CoreVal(), rules, d, e) && ThreePeers(a.CoreVal(), a.queues, rules[d.rule].moduleName, rules[d.rule].salience)
    ensures OutOfTurn(Core([], map[], 0, 0), rules, d, e) ==> OutOfTurn(a.CoreVal(), rules, d, e)
  {
    hide QueuesOk, LookupOk, HeapOrdered, RecordLess, CoreOk, OutOfTurn, Held, WaitingOf, QueueOf;
    var k := |d.facts| + |e.facts|;
    a := new Agenda(Breadth, rules, inMain);
    AddPeer(a, PeerOf(d, 1, k + 1));
    AddPeer(a, PeerOf(d, 2, k + 2));
    AddPeer(a, PeerOf(d, 3, k + 3));
    assert forall h :: 0 <= h < 3 ==> IsPeer(a.acts[h], rules[d.rule], k) && a.acts[h].birthEpoch == h + 1;
    a.ValidStructure();
    PeersReady(a.CoreVal(), a.queues, a.heapIndex, rules, d, e);
    TurnUnread(Core([], map[], 0, 0), a.CoreVal(), rules, d, e);
  }

  /** Which of two tokens ranks first does not depend on when they come. */
  lemma TurnUnread(core: Core, other: Core, rules: Ruleset, d: Delta, e: Delta)
    requires d.rule in rules && e.rule in rules
    ensures OutOfTurn(core, rules, d, e) == OutOfTurn(other, rules, d, e)
  {
  }
}
