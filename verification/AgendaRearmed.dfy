/**
 Births that come in turn, the later of them re-armed. A new activation is queued before everything of
 its salience; one re-armed is queued where its old birth puts it, and from there the order of ranks
 does not help: an agenda in order can lose its order to two births in the order of their ranks.
 */
module AgendaRearmed {
  import opened Options
  import opened Sequences
  import opened AgendaOrder
  import opened AgendaHeap
  import opened BirthRanks
  import opened AgendaBirths
  import opened AgendaDelta
  import opened AgendaQueues
  import opened AgendaTidy
  import opened Agenda
  import opened AgendaLimits

  // ----- A new activation and one re-armed -------------------------------------------------------

  /** A token for a match the agenda does not know, and one for the match of the deactivated `y`, of the same module and salience. */
  ghost predicate NewAndRearmed(core: Core, rules: Ruleset, d: Delta, e: Delta, y: Handle) {
    && d.token != 0 && e.token != 0 && d.rule in rules && e.rule in rules && d.birthEpoch == e.birthEpoch == 0
    && Find(core.acts, d.rule, d.identity, d.facts).None? && Find(core.acts, e.rule, e.identity, e.facts) == Some(y)
    && !(d.rule == e.rule && d.identity == e.identity && d.facts == e.facts)
    && core.acts[y].status.Deactivated? && core.acts[y].moduleName == rules[d.rule].moduleName
    && core.acts[y].salience == rules[d.rule].salience
  }

  function Armed(core: Core, e: Delta, y: Handle): Activation
    requires y < |core.acts|
  {
    Rearmed(Supported(core.acts[y]), e.token)
  }

  function ArmedBorn(core: Core, e: Delta, y: Handle): Activation
    requires y < |core.acts|
  {
    Armed(core, e, y).(birthEpoch := core.nextEpoch + 1, birthRank := 0)
  }

  /** What is stored when the new activation is queued, when the other is, and when both have been born. */
  function Stage(core: Core, rules: Ruleset, d: Delta, e: Delta, y: Handle, n: nat): (r: seq<Activation>)
    requires d.rule in rules && y < |core.acts|
    ensures |r| == |core.acts| + 1
    ensures forall h :: 0 <= h < |core.acts| && h != y ==> r[h] == core.acts[h]
  {
    var x := FirstNew(core, rules, d);
    if n == 0 then core.acts + [x]
    else if n == 1 then (core.acts + [InEpoch(core, x)])[y := Armed(core, e, y)]
    else (core.acts + [InEpoch(core, x)])[y := ArmedBorn(core, e, y)]
  }

  lemma BothAdded(o: Order, core: Core, rules: Ruleset, d: Delta, e: Delta, y: Handle, queues: map<ModuleName, seq<Handle>>)
    requires NewAndRearmed(core, rules, d, e, y)
    ensures var n, r := |core.acts|, AddedAll(core, rules, true, [d, e], 2);
            && r.ok && r.core.acts == Stage(core, rules, d, e, y, 2) && r.births.born == [n, y]
            && AddedQueuesAll(o, core, rules, true, [d, e], 2, queues) ==
               Pushed(o, Stage(core, rules, d, e, y, 1), Pushed(o, Stage(core, rules, d, e, y, 0), queues, n), y)
  {
    hide Pushed;
    var ds := [d, e];
    var acts, x := core.acts, FirstNew(core, rules, d);
    NoneAdded(core, rules, true, ds, o, queues);
    AddedStep(o, core, rules, true, ds, 0, queues);
    AddedStep(o, core, rules, true, ds, 1, queues);
    var r1 := AddedAll(core, rules, true, ds, 1);
    assert (acts + [x])[|acts| := InEpoch(core, x)] == acts + [InEpoch(core, x)];
    assert r1.core.acts == acts + [InEpoch(core, x)] && r1.core.nextEpoch == core.nextEpoch + 1 && r1.births == Births(core.nextEpoch + 1, [|acts|]);
    FoundStill(acts, InEpoch(core, x), e.rule, e.identity, e.facts);
    var bcts := r1.core.acts;
    assert bcts[y] == acts[y];
    assert bcts[y := Armed(core, e, y)][y := ArmedBorn(core, e, y)] == bcts[y := ArmedBorn(core, e, y)];
  }

  lemma FoundStill(acts: seq<Activation>, a: Activation, rule: RuleId, identity: Identity, facts: seq<FactRef>)
    requires Find(acts, rule, identity, facts).Some?
    ensures Find(acts + [a], rule, identity, facts) == Find(acts, rule, identity, facts)
  {
    var h := Find(acts, rule, identity, facts).value;
    assert forall k :: 0 <= k <= h ==> (acts + [a])[k] == acts[k];
  }

  // ----- The queue, step by step ----------------------------------------------------------------------

  lemma NewRises(o: Order, acts: seq<Activation>, q: seq<Handle>, x: Handle)
    requires |q| == 8 && Before(o, acts, x, q[4]) && Before(o, acts, x, q[2]) && Before(o, acts, x, q[1])
    ensures SiftedUp(o, acts, q + [x], 8) == [q[0], x, q[1], q[3], q[2], q[5], q[6], q[7], q[4]]
  {
    hide Before;
    var h1 := Swapped(q + [x], 8, 4);
    var h2 := Swapped(h1, 4, 2);
    assert h1 == [q[0], q[1], q[2], q[3], x, q[5], q[6], q[7], q[4]] && h2 == [q[0], q[1], x, q[3], q[2], q[5], q[6], q[7], q[4]];
    assert Swapped(h2, 2, 1) == [q[0], x, q[1], q[3], q[2], q[5], q[6], q[7], q[4]];
    assert SiftedUp(o, acts, h1, 4) == SiftedUp(o, acts, h2, 2) == SiftedUp(o, acts, Swapped(h2, 2, 1), 1);
  }

  lemma OldRises(o: Order, acts: seq<Activation>, p: seq<Handle>, y: Handle)
    requires |p| == 9 && Before(o, acts, y, p[4]) && !Before(o, acts, y, p[2])
    ensures SiftedUp(o, acts, p + [y], 9) == [p[0], p[1], p[2], p[3], y, p[5], p[6], p[7], p[8], p[4]]
  {
    hide Before;
    var h := Swapped(p + [y], 9, 4);
    assert h == [p[0], p[1], p[2], p[3], y, p[5], p[6], p[7], p[8], p[4]];
    assert SiftedUp(o, acts, h, 4) == h;
  }

  lemma NewSinks(o: Order, acts: seq<Activation>, h: seq<Handle>)
    requires |h| == 10 && !Before(o, acts, h[3], h[2]) && Before(o, acts, h[2], h[1]) && Before(o, acts, h[5], h[4]) && Before(o, acts, h[5], h[1])
    ensures Refitted(o, acts, h, 1) == [h[0], h[2], h[5], h[3], h[4], h[1], h[6], h[7], h[8], h[9]]
  {
    hide Before;
    var t := Swapped(h, 1, 2);
    assert t == [h[0], h[2], h[1], h[3], h[4], h[5], h[6], h[7], h[8], h[9]];
    assert FirstChild(o, acts, h, 1) == 2 && FirstChild(o, acts, t, 2) == 5;
    var u := Swapped(t, 2, 5);
    assert u == [h[0], h[2], h[5], h[3], h[4], h[1], h[6], h[7], h[8], h[9]];
    assert SiftedDown(o, acts, u, 5) == u;
    assert SiftedDown(o, acts, t, 2) == u;
  }

  lemma OldSinks(o: Order, acts: seq<Activation>, h: seq<Handle>)
    requires |h| == 10 && !Before(o, acts, h[4], h[2]) && Before(o, acts, h[9], h[8]) && Before(o, acts, h[9], h[4])
    ensures Refitted(o, acts, h, 4) == [h[0], h[1], h[2], h[3], h[9], h[5], h[6], h[7], h[8], h[4]]
  {
    hide Before;
    assert FirstChild(o, acts, h, 4) == 9;
    var t := Swapped(h, 4, 9);
    assert t == [h[0], h[1], h[2], h[3], h[9], h[5], h[6], h[7], h[8], h[4]];
    assert SiftedDown(o, acts, t, 9) == t;
  }

  // ----- Seven peers ------------------------------------------------------------------------------------

  /** Seven wait in the module, all born before now; the first is older than the last birth of `y`, and the next on the left is younger. */
  ghost predicate SevenPeers(core: Core, queues: map<ModuleName, seq<Handle>>, m: ModuleName, salience: int, y: Handle) {
    && m in queues && |queues[m]| == 8 && QueueOf(core.acts, m, queues[m]) && Distinguished(core.acts) && y < |core.acts|
    && (forall i :: 1 <= i < 8 ==> queues[m][i] != y && core.acts[queues[m][i]].salience == salience
                                   && 0 < core.acts[queues[m][i]].birthEpoch <= core.nextEpoch)
    && core.acts[queues[m][1]].birthEpoch < core.acts[y].birthEpoch < core.acts[queues[m][2]].birthEpoch
  }

  /** In breadth and among equals in salience the earlier birth comes first. */
  lemma ByBirth(o: Order, acts: seq<Activation>, a: Handle, b: Handle)
    requires o.strategy == Breadth && a < |acts| && b < |acts| && acts[a].salience == acts[b].salience
    requires acts[a].birthEpoch < acts[b].birthEpoch
    ensures Before(o, acts, a, b) && !Before(o, acts, b, a)
  {
  }

  /** Peers compare as they did. */
  lemma PeersAlike(o: Order, acts: seq<Activation>, bcts: seq<Activation>, q: seq<Handle>)
    requires |q| == 8 && forall i :: 1 <= i < 8 ==> q[i] < |acts| && q[i] < |bcts| && acts[q[i]] == bcts[q[i]]
    ensures forall i, j :: 1 <= i < 8 && 1 <= j < 8 ==> Before(o, acts, q[i], q[j]) == Before(o, bcts, q[i], q[j])
  {
  }

  /** The queue of the module once both stand in it. */
  lemma BothQueued(o: Order, core: Core, rules: Ruleset, d: Delta, e: Delta, y: Handle, queues: map<ModuleName, seq<Handle>>)
    requires o.strategy == Breadth && NewAndRearmed(core, rules, d, e, y)
    requires SevenPeers(core, queues, rules[d.rule].moduleName, rules[d.rule].salience, y)
    ensures var m, n := rules[d.rule].moduleName, |core.acts|;
            var q := queues[m];
            Pushed(o, Stage(core, rules, d, e, y, 1), Pushed(o, Stage(core, rules, d, e, y, 0), queues, n), y)
            == queues[m := [q[0], n, q[1], q[3], y, q[5], q[6], q[7], q[4], q[2]]]
  {
    hide Before, SiftedUp, Distinguished, Find, Stage;
    var m, n := rules[d.rule].moduleName, |core.acts|;
    var q := queues[m];
    var first, second := Stage(core, rules, d, e, y, 0), Stage(core, rules, d, e, y, 1);
    StageKeys(core, rules, d, e, y);
    ByBirth(o, first, n, q[4]); ByBirth(o, first, n, q[2]); ByBirth(o, first, n, q[1]);
    NewRises(o, first, q, n);
    var p := [q[0], n, q[1], q[3], q[2], q[5], q[6], q[7], q[4]];
    assert Pushed(o, first, queues, n) == queues[m := p];
    ByBirth(o, second, y, q[2]); ByBirth(o, second, q[1], y);
    OldRises(o, second, p, y);
    assert QueueAt(queues[m := p], m) == p;
    assert queues[m := p][m := [q[0], n, q[1], q[3], y, q[5], q[6], q[7], q[4], q[2]]]
        == queues[m := [q[0], n, q[1], q[3], y, q[5], q[6], q[7], q[4], q[2]]];
  }

  lemma StageKeys(core: Core, rules: Ruleset, d: Delta, e: Delta, y: Handle)
    requires d.rule in rules && y < |core.acts| && core.acts[y].moduleName == rules[d.rule].moduleName && core.acts[y].salience == rules[d.rule].salience
    ensures forall k :: 0 <= k <= 2 ==>
              var r, n := Stage(core, rules, d, e, y, k), |core.acts|;
              && r[n].salience == r[y].salience == rules[d.rule].salience && r[n].moduleName == r[y].moduleName == rules[d.rule].moduleName
              && r[n].birthEpoch == (if k == 0 then 0 else core.nextEpoch + 1)
              && r[y].birthEpoch == (if k == 2 then core.nextEpoch + 1 else core.acts[y].birthEpoch)
  {
  }

  /** The new one ranked first, then the other: the second peer ends below a younger one. */
  lemma RanksMisplaceTwo(o: Order, acts: seq<Activation>, bcts: seq<Activation>, queues: map<ModuleName, seq<Handle>>, m: ModuleName,
                         q: seq<Handle>, x: Handle, y: Handle, salience: int, epoch: nat)
    requires o.strategy == Breadth && Distinguished(acts) && |q| == 8 && QueueOf(acts, m, q) && HeapOrdered(o, acts, q)
    requires x < |bcts| && y < |bcts| && x != y && |acts| <= |bcts| && bcts[x].moduleName == bcts[y].moduleName == m
    requires bcts[x].salience == bcts[y].salience == salience && bcts[x].birthEpoch == bcts[y].birthEpoch == epoch
    requires forall i :: 1 <= i < 8 ==> q[i] != x && q[i] != y && bcts[q[i]] == acts[q[i]] && acts[q[i]].salience == salience && acts[q[i]].birthEpoch < epoch
    requires m in queues && queues[m] == [q[0], x, q[1], q[3], y, q[5], q[6], q[7], q[4], q[2]]
    ensures var after := RankSteps(o, bcts, queues, [x, y], 2).1;
            m in after && after[m] == [q[0], q[1], q[5], q[3], q[2], x, q[6], q[7], q[4], y] && Before(o, acts, q[2], q[5])
  {
    hide Before, Refitted, Distinguished, HeapOrdered;
    var s := [x, y];
    assert Settled(o, acts, q, 3) && Settled(o, acts, q, 4) && Settled(o, acts, q, 5) by { assert HeapOrdered(o, acts, q); HeapSettled(o, acts, q); }
    BeforeOrder(o, acts, q[2], q[5], q[2]);
    BeforeOrder(o, acts, q[2], q[4], q[2]);
    var q0 := queues[m];
    var q1 := [q[0], q[1], q[5], q[3], y, x, q[6], q[7], q[4], q[2]];
    var q2 := [q[0], q[1], q[5], q[3], q[2], x, q[6], q[7], q[4], y];
    var b1 := bcts[x := bcts[x].(birthRank := 1)];
    var b2 := b1[y := b1[y].(birthRank := 2)];
    PeersAlike(o, acts, b1, q);
    PeersAlike(o, acts, b2, q);
    ByBirth(o, b1, q[1], x); ByBirth(o, b1, q[5], x); ByBirth(o, b1, q[5], y);
    SolePlace(q0, 1);
    NewSinks(o, b1, q0);
    NoSteps(o, bcts, queues, s);
    assert RankSteps(o, bcts, queues, s, 1) == (b1, queues[m := q1]);
    ByBirth(o, b2, q[5], y); ByBirth(o, b2, q[2], y);
    SolePlace(q1, 4);
    OldSinks(o, b2, q1);
    assert QueueAt(queues[m := q1], m) == q1;
    assert RankSteps(o, bcts, queues, s, 2) == (b2, queues[m := q1][m := q2]);
  }

  lemma HeapSettled(o: Order, acts: seq<Activation>, q: seq<Handle>)
    requires HeapOrdered(o, acts, q)
    ensures forall j :: 2 <= j < |q| ==> Settled(o, acts, q, j)
  {
  }

  /** Of two births the one that comes first also ranks first. */
  lemma RankedInTurn(o: Order, acts: seq<Activation>, queues: map<ModuleName, seq<Handle>>, x: Handle, y: Handle, after: map<ModuleName, seq<Handle>>)
    requires x < |acts| && y < |acts| && x != y && RecordBefore(acts, x, y) && RankedQueues(o, acts, queues, [x, y], after)
    ensures after == RankSteps(o, acts, queues, [x, y], 2).1
  {
    hide RankSteps, RecordLess;
    assert multiset([x, y]) == multiset([y, x]);
    var s :| RankOrder(acts, [x, y], s) && after == RankSteps(o, acts, queues, s, |s|).1;
    assert RankOrder(acts, [y, x], s);
    RankOrderOfTwo(o, acts, queues, y, x, after);
  }

  /** The two births come in the order of their ranks. */
  ghost predicate ComeInTurn(core: Core, rules: Ruleset, d: Delta, e: Delta, y: Handle)
    requires d.rule in rules && y < |core.acts|
  {
    RecordLess(InEpoch(core, FirstNew(core, rules, d)), ArmedBorn(core, e, y))
  }

  /** A new birth and one re-armed, in the order of their ranks, take a queue of seven such peers out of order. */
  lemma RearmedMisplaces(o: Order, core: Core, rules: Ruleset, d: Delta, e: Delta, y: Handle,
                         queues: map<ModuleName, seq<Handle>>, after: map<ModuleName, seq<Handle>>)
    requires o.strategy == Breadth && NewAndRearmed(core, rules, d, e, y) && ComeInTurn(core, rules, d, e, y)
    requires SevenPeers(core, queues, rules[d.rule].moduleName, rules[d.rule].salience, y)
    requires HeapOrdered(o, core.acts, queues[rules[d.rule].moduleName]) && BatchQueues(o, core, rules, true, [d, e], queues, after)
    ensures var m := rules[d.rule].moduleName;
            var q := queues[m];
            m in after && |after[m]| == 10 && after[m][2] == q[5] && after[m][4] == q[2] && Before(o, core.acts, q[2], q[5])
  {
    hide Before, Find, AddedAll, AddedQueuesAll, RankSteps, RecordLess, Pushed, Distinguished, RankedQueues, HeapOrdered, Stage;
    var m, n, bcts := rules[d.rule].moduleName, |core.acts|, Stage(core, rules, d, e, y, 2);
    BothAdded(o, core, rules, d, e, y, queues);
    BothQueued(o, core, rules, d, e, y, queues);
    StageKeys(core, rules, d, e, y);
    assert OneEpoch(bcts, [n, y], core.nextEpoch + 1);
    StageRecords(core, rules, d, e, y);
    var q := queues[m];
    var pushed := queues[m := [q[0], n, q[1], q[3], y, q[5], q[6], q[7], q[4], q[2]]];
    RankedInTurn(o, bcts, pushed, n, y, after);
    RanksMisplaceTwo(o, core.acts, bcts, pushed, m, q, n, y, rules[d.rule].salience, core.nextEpoch + 1);
  }

  lemma StageRecords(core: Core, rules: Ruleset, d: Delta, e: Delta, y: Handle)
    requires d.rule in rules && y < |core.acts|
    ensures var bcts := Stage(core, rules, d, e, y, 2);
            bcts[|core.acts|] == InEpoch(core, FirstNew(core, rules, d)) && bcts[y] == ArmedBorn(core, e, y)
  {
  }

  // ----- On the agenda ----------------------------------------------------------------------------------

  /** Any ordered agenda with such peers loses its order. */
  method RearmedLosesOrder(a: Agenda, d: Delta, e: Delta, ghost y: Handle)
    requires a.Valid() && a.Ordered() && a.Breadth?()
    requires NewAndRearmed(a.CoreVal(), a.rules, d, e, y) && ComeInTurn(a.CoreVal(), a.rules, d, e, y)
    requires SevenPeers(a.CoreVal(), a.queues, a.rules[d.rule].moduleName, a.rules[d.rule].salience, y)
    modifies a
    ensures a.Valid() && !a.Ordered()
  {
    hide QueuesOk, CoreOk, LookupOk, Find, QueueSafe, RecordLess, HeapOrdered, AddedAll, RemovedAll, Ranked, BatchQueues, DeltaQueues, Before, Stage, Distinguished, QueueOf;
    ghost var core, o, before := a.CoreVal(), a.O(), a.queues;
    ghost var m := a.rules[d.rule].moduleName;
    BothAdded(o, core, a.rules, d, e, y, before);
    NoneRemoved(core, a.rules);
    PeersStored(core, before, m, a.rules[d.rule].salience, y);
    var ok := a.ApplyTokenDeltas([], [d, e]);
    NothingRemovedQueues(o, core, a.rules, true, [d, e], before, a.queues);
    RearmedMisplaces(o, core, a.rules, d, e, y, before, a.queues);
    StillOut(o, core, a.rules, d, e, y, a.acts, a.queues[m]);
  }

  lemma PeersStored(core: Core, queues: map<ModuleName, seq<Handle>>, m: ModuleName, salience: int, y: Handle)
    requires SevenPeers(core, queues, m, salience, y)
    ensures forall i :: 1 <= i < 8 ==> queues[m][i] < |core.acts| && queues[m][i] != y
  {
  }

  lemma StillOut(o: Order, core: Core, rules: Ruleset, d: Delta, e: Delta, y: Handle, acts: seq<Activation>, q: seq<Handle>)
    requires d.rule in rules && y < |core.acts| && acts == Ranked(Stage(core, rules, d, e, y, 2), [|core.acts|, y])
    requires |q| == 10 && q[2] < |core.acts| && q[4] < |core.acts| && q[2] != y && q[4] != y && Before(o, core.acts, q[4], q[2])
    ensures !HeapOrdered(o, acts, q)
  {
    hide Stage;
    assert acts[q[2]] == core.acts[q[2]] && acts[q[4]] == core.acts[q[4]];
    assert !Settled(o, acts, q, 4);
  }

  // ----- Such an agenda -----------------------------------------------------------------------------------

  lemma {:induction false} ImageSize(w: set<Handle>, index: seq<nat>)
    requires forall h :: h in w ==> h < |index|
    requires forall h, k :: h in w && k in w && index[h] == index[k] ==> h == k
    ensures |set h | h in w :: index[h]| == |w|
    decreases |w|
  {
    if w != {} {
      var h :| h in w;
      ImageSize(w - {h}, index);
      assert (set k | k in w :: index[k]) == (set k | k in w - {h} :: index[k]) + {index[h]};
    }
  }

  /** A queue has a place for each of those that wait in its module. */
  lemma QueueSize(acts: seq<Activation>, queues: map<ModuleName, seq<Handle>>, index: seq<nat>, m: ModuleName)
    requires QueuesOk(acts, queues, index) && Held(index) == WaitingOf(acts)
    ensures |QueueAt(queues, m)| == |Waiters(acts, m)| + 1
  {
    hide QueuesOk, Held, WaitingOf, Waiters, QueueAt;
    QueuePlaces(acts, queues, index, m);
    var q, w := QueueAt(queues, m), Waiters(acts, m);
    ImageSize(w, index);
    var places := set h | h in w :: index[h];
    forall i: nat
      ensures i in places <==> 1 <= i < |q|
    {
      if 1 <= i < |q| { assert index[q[i]] == i; }
    }
    PlacesSize(places, |q|);
  }

  lemma PlacesSize(places: set<nat>, n: nat)
    requires n >= 1 && forall i: nat :: i in places <==> 1 <= i < n
    ensures |places| == n - 1
  {
    assert Below(n) == places + {0};
  }

  /** The places of a queue and those that wait in its module lead to each other. */
  lemma QueuePlaces(acts: seq<Activation>, queues: map<ModuleName, seq<Handle>>, index: seq<nat>, m: ModuleName)
    requires QueuesOk(acts, queues, index) && Held(index) == WaitingOf(acts)
    ensures var q, w := QueueAt(queues, m), Waiters(acts, m);
            && |q| >= 1 && (forall h :: h in w ==> h < |index| && 1 <= index[h] < |q| && q[index[h]] == h)
            && forall i :: 1 <= i < |q| ==> q[i] in w && q[i] < |index| && index[q[i]] == i
  {
    hide QueuesOk;
    QueueOfAt(acts, queues, index, m);
    var q, w := QueueAt(queues, m), Waiters(acts, m);
    forall h | h in w
      ensures h < |index| && 1 <= index[h] < |q| && q[index[h]] == h
    {
      PlaceHeld(acts, queues, index, m, h);
    }
    forall i | 1 <= i < |q|
      ensures q[i] in w
    {
      assert q[i] in WaitingOf(acts);
    }
  }

  lemma Withdrawn(core: Core, rules: Ruleset, d: Delta, y: Handle)
    requires d.token != 0 && d.rule in rules && Linked(core, d) == Some(y)
    ensures var r := Applied(core, rules, true, [d], []);
            && r.ok && r.core.acts == core.acts[y := Unsupported(core.acts[y])]
            && r.core.nextEpoch == core.nextEpoch && r.core.nextOrdinal == core.nextOrdinal
    ensures BornBy(core, rules, true, [d], []) == []
  {
    hide Find, Unsupported;
    var none: seq<Delta> := [];
    RemovedSingle(core, rules, [d]);
    var next := RemovedOne(core, rules, d).core;
    NoneAdded(next, rules, true, none, Order(Breadth, true), map[]);
    RankedNobody(next.acts);
  }

  /** The match of the token has no support any more. */
  method Withdraw(a: Agenda, d: Delta, ghost y: Handle)
    requires a.Valid() && a.Ordered() && a.Breadth?() && d.token != 0 && d.rule in a.rules && Linked(a.CoreVal(), d) == Some(y)
    modifies a
    ensures a.Valid() && a.Ordered() && a.nextEpoch == old(a.nextEpoch) && a.nextOrdinal == old(a.nextOrdinal)
    ensures a.acts == old(a.acts)[y := Unsupported(old(a.acts)[y])]
  {
    hide QueuesOk, LookupOk, Find, HeapOrdered, Applied, QueueSafe, DeltaQueues, CoreOk;
    Withdrawn(a.CoreVal(), a.rules, d, y);
    var ok := a.ApplyTokenDeltas([d], []);
  }

  /** The first token's activation ranks first even when it is the younger one. */
  predicate RanksBefore(rules: Ruleset, d: Delta, e: Delta)
    requires d.rule in rules && e.rule in rules
  {
    RecordLess(Created(rules[d.rule], d, 2), Created(rules[e.rule], e, 1))
  }

  /** Were both new, they would come in turn. */
  lemma WouldBeInTurn(core: Core, rules: Ruleset, d: Delta, e: Delta)
    requires d.rule in rules && e.rule in rules && RanksBefore(rules, d, e)
    ensures !OutOfTurn(core, rules, d, e)
  {
    hide TupleLess;
    RecordOrder(Created(rules[d.rule], d, 2), Created(rules[e.rule], e, 1), Created(rules[d.rule], d, 2));
    TupleOrder(d.tuple, e.tuple, d.tuple);
  }

  predicate IsPeerOf(a: Activation, r: Rule, facts: nat, epoch: nat) {
    IsPeer(a, r, facts) && a.birthEpoch == epoch
  }

  /** The match of the token, deactivated after its birth in the second epoch. */
  predicate IsWithdrawn(a: Activation, rules: Ruleset, e: Delta)
    requires e.rule in rules
  {
    var c := Created(rules[e.rule], e, 2);
    a == c.(status := Deactivated, supportCount := 0, token := 0, birthEpoch := 2, birthRank := 1)
  }

  lemma SevenReady(core: Core, queues: map<ModuleName, seq<Handle>>, index: seq<nat>, o: Order, rules: Ruleset, d: Delta, e: Delta)
    requires d.token != 0 && e.token != 0 && d.rule in rules && e.rule in rules && d.birthEpoch == e.birthEpoch == 0 && o.strategy == Breadth
    requires rules[d.rule].moduleName == rules[e.rule].moduleName && rules[d.rule].salience == rules[e.rule].salience
    requires !(d.rule == e.rule && d.identity == e.identity && d.facts == e.facts)
    requires QueuesOk(core.acts, queues, index) && Held(index) == WaitingOf(core.acts) && Distinguished(core.acts) && |core.acts| == 8 <= core.nextEpoch
    requires forall h :: 0 <= h < 8 && h != 1 ==> IsPeerOf(core.acts[h], rules[d.rule], |d.facts| + |e.facts|, h + 1)
    requires IsWithdrawn(core.acts[1], rules, e) && AllOrdered(o, core.acts, queues)
    ensures NewAndRearmed(core, rules, d, e, 1) && SevenPeers(core, queues, rules[d.rule].moduleName, rules[d.rule].salience, 1)
  {
    hide QueuesOk, Held, Distinguished, Before;
    var m := rules[d.rule].moduleName;
    assert Waiters(core.acts, m) == {0, 2, 3, 4, 5, 6, 7};
    QueueSize(core.acts, queues, index, m);
    QueueOfAt(core.acts, queues, index, m);
    var q := queues[m];
    assert q[1] in WaitingOf(core.acts) && q[2] in WaitingOf(core.acts);
    if q[1] != 0 {
      PlaceHeld(core.acts, queues, index, m, 0);
      RootFirst(o, core.acts, q, index[0]);
      ByBirth(o, core.acts, 0, q[1]);
      assert false;
    }
    assert forall i :: 1 <= i < 8 ==> q[i] in WaitingOf(core.acts);
  }

  /**
   Whatever two tokens of one module and salience come in turn: there is an agenda in order, made by
   batches of one token each, that loses its order to them because the later one's match is re-armed.
   */
  method RearmedNotSafe(rules: Ruleset, inMain: bool, d: Delta, e: Delta) returns (a: Agenda)
    requires d.token != 0 && e.token != 0 && d.rule in rules && e.rule in rules && d.birthEpoch == e.birthEpoch == 0
    requires rules[d.rule].moduleName == rules[e.rule].moduleName && rules[d.rule].salience == rules[e.rule].salience
    requires !(d.rule == e.rule && d.identity == e.identity && d.facts == e.facts) && RanksBefore(rules, d, e)
    ensures fresh(a) && a.rules == rules && a.Breadth?() && a.Valid() && !a.Ordered()
  {
    a := WithSevenPeers(rules, inMain, d, e);
    RearmedLosesOrder(a, d, e, 1);
  }

  lemma TurnKept(core: Core, rules: Ruleset, d: Delta, e: Delta)
    requires d.rule in rules && e.rule in rules && RanksBefore(rules, d, e) && |core.acts| > 1 && IsWithdrawn(core.acts[1], rules, e)
    requires core.nextOrdinal >= 2
    ensures ComeInTurn(core, rules, d, e, 1)
  {
    hide TupleLess;
  }

  /** After `n` batches: the match of `e` has come second, and the others are peers. */
  ghost predicate Prepared(core: Core, rules: Ruleset, d: Delta, e: Delta, n: nat)
    requires d.rule in rules && e.rule in rules
  {
    var k := |d.facts| + |e.facts|;
    && |core.acts| == core.nextEpoch == core.nextOrdinal == n >= 2
    && core.acts[1] == Created(rules[e.rule], e, 2).(birthEpoch := 2, birthRank := 1)
    && (forall h :: 0 <= h < n && h != 1 ==> IsPeerOf(core.acts[h], rules[d.rule], k, h + 1) && |core.acts[h].facts| <= k + n)
    && e.token in core.links && core.links[e.token] == Link(1, 2)
  }

  lemma PreparedNext(core: Core, rules: Ruleset, d: Delta, e: Delta, n: nat, p: Delta)
    requires d.rule in rules && e.rule in rules && Prepared(core, rules, d, e, n)
    requires p == PeerOf(d, e.token + n, |d.facts| + |e.facts| + n + 1)
    ensures Find(core.acts, p.rule, p.identity, p.facts).None?
    ensures var a := InEpoch(core, FirstNew(core, rules, p)).(birthRank := 1);
            Prepared(core.(acts := core.acts + [a], links := core.links[p.token := Link(|core.acts|, core.nextOrdinal + 1)],
                           nextOrdinal := core.nextOrdinal + 1, nextEpoch := core.nextEpoch + 1), rules, d, e, n + 1)
  {
  }

  /** Once its token is withdrawn. */
  lemma PreparedLinked(core: Core, rules: Ruleset, d: Delta, e: Delta)
    requires d.rule in rules && e.rule in rules && Prepared(core, rules, d, e, 8)
    ensures Linked(core, e) == Some(1)
    ensures var acts := core.acts[1 := Unsupported(core.acts[1])];
            && |acts| == 8 && IsWithdrawn(acts[1], rules, e)
            && forall h :: 0 <= h < 8 && h != 1 ==> IsPeerOf(acts[h], rules[d.rule], |d.facts| + |e.facts|, h + 1)
  {
  }

  method WithSevenPeers(rules: Ruleset, inMain: bool, d: Delta, e: Delta) returns (a: Agenda)
    requires d.token != 0 && e.token != 0 && d.rule in rules && e.rule in rules && d.birthEpoch == e.birthEpoch == 0
    requires rules[d.rule].moduleName == rules[e.rule].moduleName && rules[d.rule].salience == rules[e.rule].salience
    requires !(d.rule == e.rule && d.identity == e.identity && d.facts == e.facts) && RanksBefore(rules, d, e)
    ensures fresh(a) && a.rules == rules && a.Breadth?() && a.Valid() && a.Ordered()
    ensures NewAndRearmed(a.CoreVal(), rules, d, e, 1) && ComeInTurn(a.CoreVal(), rules, d, e, 1)
    ensures SevenPeers(a.CoreVal(), a.queues, rules[d.rule].moduleName, rules[d.rule].salience, 1)
  {
    hide QueuesOk, LookupOk, HeapOrdered, CoreOk, Held, WaitingOf, QueueOf, RecordLess, NewAndRearmed, SevenPeers, ComeInTurn, IsPeerOf, RanksBefore, Find, Linked;
    a := Preparing(rules, inMain, d, e);
    PreparedLinked(a.CoreVal(), rules, d, e);
    hide Prepared;
    Withdraw(a, e, 1);
    TurnKept(a.CoreVal(), rules, d, e);
    a.ValidStructure();
    SevenReady(a.CoreVal(), a.queues, a.heapIndex, a.O(), rules, d, e);
  }

  method Preparing(rules: Ruleset, inMain: bool, d: Delta, e: Delta) returns (a: Agenda)
    requires d.token != 0 && e.token != 0 && d.rule in rules && e.rule in rules && d.birthEpoch == e.birthEpoch == 0
    ensures fresh(a) && a.rules == rules && a.Breadth?() && a.Valid() && a.Ordered() && Prepared(a.CoreVal(), rules, d, e, 8)
  {
    a := PreparingTwo(rules, inMain, d, e);
    hide QueuesOk, LookupOk, HeapOrdered, CoreOk, Prepared, Find, Agenda.Valid, AllOrdered;
    var n := 2;
    while n < 8
      invariant 2 <= n <= 8 && fresh(a) && a.rules == rules && a.Breadth?() && a.Valid() && a.Ordered()
      invariant Prepared(a.CoreVal(), rules, d, e, n)
    {
      var p := PeerOf(d, e.token + n, |d.facts| + |e.facts| + n + 1);
      PreparedNext(a.CoreVal(), rules, d, e, n, p);
      AddPeer(a, p);
      n := n + 1;
    }
  }

  method PreparingTwo(rules: Ruleset, inMain: bool, d: Delta, e: Delta) returns (a: Agenda)
    requires d.token != 0 && e.token != 0 && d.rule in rules && e.rule in rules && d.birthEpoch == e.birthEpoch == 0
    ensures fresh(a) && a.rules == rules && a.Breadth?() && a.Valid() && a.Ordered() && Prepared(a.CoreVal(), rules, d, e, 2)
  {
    hide QueuesOk, LookupOk, HeapOrdered, CoreOk, AllOrdered;
    a := new Agenda(Breadth, rules, inMain);
    AddPeer(a, PeerOf(d, e.token + 1, |d.facts| + |e.facts| + 1));
    AddPeer(a, e);
  }
}
