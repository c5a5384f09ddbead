/**
 Runs of the agenda as it is: batches and firings in any order on one agenda, with the heaps and the
 focus stack deciding what fires. What holds over runs of the value model holds here.
 */
module AgendaRuns {
  import opened Options
  import opened AgendaOrder
  import opened AgendaDelta
  import opened AgendaQueues
  import opened AgendaRefraction
  import opened AgendaTidy
  import opened Agenda

  lemma {:induction false} RunsSnoc(w: World, rules: Ruleset, breadth: bool, es: seq<Event>, v: World, e: Event)
    requires Runs(w, rules, breadth, es, v) && Enabled(v, rules, breadth, e)
    ensures Runs(w, rules, breadth, es + [e], Step(v, rules, breadth, e))
    decreases |es|
  {
    hide Enabled, Step;
    if es == [] {
      assert [e][1..] == [];
    } else {
      assert (es + [e])[0] == es[0] && (es + [e])[1..] == es[1..] + [e];
      RunsSnoc(Step(w, rules, breadth, es[0]), rules, breadth, es[1..], v, e);
    }
  }

  /** The handle sits at place `i` of the queue of `m`. */
  predicate SitsAt(queues: map<ModuleName, seq<Handle>>, m: ModuleName, i: nat, h: Handle) {
    m in queues && 1 <= i < |queues[m]| && queues[m][i] == h
  }

  /** An activation waits exactly when it sits in a heap, and then in one place of one heap. */
  lemma WaitsInOnePlace(acts: seq<Activation>, queues: map<ModuleName, seq<Handle>>, index: seq<nat>, h: Handle)
    requires QueuesOk(acts, queues, index) && Held(index) == WaitingOf(acts) && h < |acts|
    ensures acts[h].status.Waiting? <==> exists m, i :: SitsAt(queues, m, i, h)
    ensures forall m, i, n, j :: SitsAt(queues, m, i, h) && SitsAt(queues, n, j, h) ==> m == n && i == j
    ensures forall m, i :: SitsAt(queues, m, i, h) ==> acts[h].moduleName == m && index[h] == i
  {
    assert acts[h].status.Waiting? <==> h in WaitingOf(acts);
    if acts[h].status.Waiting? {
      BackPointer(acts, queues, index, h);
      assert SitsAt(queues, acts[h].moduleName, index[h], h);
    }
    forall m, i | SitsAt(queues, m, i, h)
      ensures acts[h].moduleName == m && index[h] == i
    {
      QueueHandles(acts, queues, index, m);
      assert PointsBack(acts, index, m, queues[m], i);
    }
  }

  class Run {
    const agenda: Agenda
    ghost var world: World
    ghost var events: seq<Event>

    /** The events so far lead from the empty world to this one, and the agenda is what they made of it. */
    ghost predicate Valid()
      reads this, agenda
    {
      && agenda.Valid() && agenda.CoreVal() == world.core
      && Runs(START, agenda.rules, agenda.Breadth?(), events, world)
    }

    constructor (s: Strategy, r: Ruleset, inMain: bool)
      ensures Valid() && fresh(agenda) && events == [] && agenda.strategy == s && agenda.rules == r && agenda.allInMain == inMain
    {
      agenda := new Agenda(s, r, inMain);
      world, events := START, [];
    }

    method Apply(removed: seq<Delta>, added: seq<Delta>)
      requires Valid() && Enabled(world, agenda.rules, agenda.Breadth?(), Batch(removed, added))
      modifies this, agenda
      ensures Valid() && events == old(events) + [Batch(removed, added)]
      ensures world == Step(old(world), agenda.rules, agenda.Breadth?(), Batch(removed, added))
    {
      hide Enabled, Step, Applied, Runs, WorldOk;
      ghost var e := Batch(removed, added);
      ghost var rules, breadth := agenda.rules, agenda.Breadth?();
      RunFromStart(rules, breadth, events, world);
      StepOk(world, rules, breadth, e);
      RunsSnoc(START, rules, breadth, events, world, e);
      var _ := agenda.ApplyTokenDeltas(removed, added);
      world, events := Step(world, rules, breadth, e), events + [e];
    }

    /** Fires what the focus stack selects, if anything. */
    method FireNext() returns (fired: Option<Handle>)
      requires Valid()
      modifies this, agenda
      ensures Valid()
      ensures fired.None? ==> world == old(world) && events == old(events)
      ensures fired.Some? ==> events == old(events) + [Fire(fired.value)] && fired.value < |old(world).core.acts|
                              && world == FireStep(old(world), fired.value)
    {
      hide Runs;
      agenda.ValidStructure();
      ghost var rules, breadth := agenda.rules, agenda.Breadth?();
      fired := agenda.FireFocused();
      if fired.Some? {
        RunsSnoc(START, rules, breadth, events, world, Fire(fired.value));
        world, events := FireStep(world, fired.value), events + [Fire(fired.value)];
      }
    }

    /**
     At any time of any run: support is the number of live deliveries, only what has support waits or
     has fired, what waits sits in one place of one heap, and between two firings of an activation
     it lost all support and regained it.
     */
    lemma Kept()
      requires Valid()
      ensures forall h :: 0 <= h < |agenda.acts| ==>
                agenda.acts[h].supportCount == |Backers(world.live, agenda.acts[h])|
                && (agenda.acts[h].status.Deactivated? <==> agenda.acts[h].supportCount == 0)
                && (agenda.acts[h].status.Waiting? <==> exists m, i :: SitsAt(agenda.queues, m, i, h))
      ensures forall h, m, i, n, j :: 0 <= h < |agenda.acts| && SitsAt(agenda.queues, m, i, h) && SitsAt(agenda.queues, n, j, h) ==>
                m == n && i == j
      ensures forall i, j :: 0 <= i < j < |world.log| && world.log[i].Fired? && world.log[j] == world.log[i] ==>
                exists k :: i < k < j && world.log[k] == Rose(world.log[i].handle)
    {
      hide Runs, CoreOk, LookupOk, QueuesOk, Backing, Backers, SitsAt, Refracts, LiveOk, LinksOk;
      RunFromStart(agenda.rules, agenda.Breadth?(), events, world);
      forall h | 0 <= h < |agenda.acts|
        ensures Counted(world.live, agenda.acts[h]) && |Backers(world.live, agenda.acts[h])| == Backing(world.live, agenda.acts[h])
        ensures agenda.acts[h].status.Waiting? <==> exists m, i :: SitsAt(agenda.queues, m, i, h)
      {
        BackersCount(world.live, agenda.acts[h]);
        WaitsInOnePlace(agenda.acts, agenda.queues, agenda.heapIndex, h);
      }
      forall h, m, i, n, j | 0 <= h < |agenda.acts| && SitsAt(agenda.queues, m, i, h) && SitsAt(agenda.queues, n, j, h)
        ensures m == n && i == j
      {
        WaitsInOnePlace(agenda.acts, agenda.queues, agenda.heapIndex, h);
      }
      forall i, j | 0 <= i < j < |world.log| && world.log[i].Fired? && world.log[j] == world.log[i]
        ensures exists k :: i < k < j && world.log[k] == Rose(world.log[i].handle)
      {
        RunsRefract(agenda.rules, agenda.Breadth?(), events, world, i, j);
      }
    }
  }

  lemma RunFromStart(rules: Ruleset, breadth: bool, es: seq<Event>, v: World)
    requires Runs(START, rules, breadth, es, v)
    ensures WorldOk(v, rules)
  {
    hide Runs;
    RunOk(START, rules, breadth, es, v);
  }

  // ----- Births -------------------------------------------------------------------------

  /** Whatever waits has been born. */
  ghost predicate AllAged(acts: seq<Activation>) {
    forall h :: 0 <= h < |acts| && acts[h].status.Waiting? ==> acts[h].birthEpoch > 0
  }

  lemma {:induction false} RemovalsAged(core: Core, rules: Ruleset, ds: seq<Delta>, n: nat)
    requires AllAged(core.acts) && n <= |ds|
    ensures AllAged(RemovedAll(core, rules, ds, n).core.acts)
  {
    if n > 0 { RemovalsAged(core, rules, ds, n - 1); }
  }

  lemma AdditionAged(core: Core, births: Births, rules: Ruleset, d: Delta)
    requires AllAged(core.acts)
    ensures AllAged(AddedOne(core, births, rules, true, d).core.acts)
  {
    hide Find;
    var f := Find(core.acts, d.rule, d.identity, d.facts);
    if f.Some? { assert f.value < |core.acts|; }
  }

  lemma {:induction false} AdditionsAged(core: Core, rules: Ruleset, ds: seq<Delta>, n: nat)
    requires AllAged(core.acts) && n <= |ds|
    ensures AllAged(AddedAll(core, rules, true, ds, n).core.acts)
  {
    hide AddedOne, AllAged;
    if n > 0 {
      AdditionsAged(core, rules, ds, n - 1);
      var r := AddedAll(core, rules, true, ds, n - 1);
      AdditionAged(r.core, r.births, rules, ds[n - 1]);
    }
  }

  lemma RanksAged(acts: seq<Activation>, born: seq<Handle>)
    requires AllAged(acts)
    ensures AllAged(Ranked(acts, born))
  {
  }

  /** In every run in breadth whatever waits has been born, so births in turn are always safe. */
  lemma {:induction false} RunsAged(w: World, rules: Ruleset, es: seq<Event>, v: World)
    requires WorldOk(w, rules) && AllAged(w.core.acts) && Runs(w, rules, true, es, v)
    ensures AllAged(v.core.acts)
    decreases |es|
  {
    hide WorldOk, RemovedAll, AddedAll, Ranked, AfterRemovals, AfterAdditions;
    if es != [] {
      StepOk(w, rules, true, es[0]);
      if es[0].Batch? {
        var r := RemovedAll(w.core, rules, es[0].removed, |es[0].removed|);
        RemovalsAged(w.core, rules, es[0].removed, |es[0].removed|);
        AdditionsAged(r.core, rules, es[0].added, |es[0].added|);
        var a := AddedAll(r.core, rules, true, es[0].added, |es[0].added|);
        RanksAged(a.core.acts, a.births.born);
      }
      RunsAged(Step(w, rules, true, es[0]), rules, es[1..], v);
    }
  }

  lemma RunAged(rules: Ruleset, es: seq<Event>, v: World, m: ModuleName, salience: int)
    requires Runs(START, rules, true, es, v)
    ensures Aged(v.core.acts, m, salience)
  {
    hide Runs;
    RunsAged(START, rules, es, v);
  }
}
