/**
 Filling a new agenda: activations get their birth before they are queued, and all ranks come at the end.
 */
module AgendaInitial {
  import opened Options
  import opened AgendaOrder
  import opened AgendaBirths
  import opened AgendaDelta
  import opened AgendaQueues
  import opened Agenda
  import opened AgendaReconcile

  /** An initial token is born in the epoch of the load, whatever epoch it carries. */
  function Initial(d: Delta): Delta {
    d.(birthEpoch := 0)
  }

  function InitialAll(ds: seq<Delta>): (r: seq<Delta>)
    ensures |r| == |ds|
  {
    seq(|ds|, i requires 0 <= i < |ds| => Initial(ds[i]))
  }

  /** One initial token; `epoch` is the one reserved for the load, if any, and `born` those born so far. */
  method AddInitial(a: Agenda, d: Delta, epoch: nat, ghost born: seq<Handle>) returns (next: nat, ok: bool, ghost nextBorn: seq<Handle>)
    requires a.Valid()
    modifies a`acts, a`queues, a`heapIndex, a`links, a`lookup, a`nextOrdinal, a`nextEpoch
    ensures a.Valid() && (old(a.Ordered()) ==> a.Ordered())
    ensures AddResult(a.CoreVal(), Births(next, nextBorn), ok) == AddedOne(old(a.CoreVal()), Births(epoch, born), a.rules, a.Breadth?(), Initial(d))
  {
    hide QueuesOk, AllOrdered, OrderedBut, LookupOk, Find, Distinguished, CoreOk;
    next, ok, nextBorn := epoch, true, born;
    if d.token == 0 { return; }
    if d.rule !in a.rules { return epoch, false, born; }
    AddedOneOk(a.CoreVal(), Births(epoch, born), a.rules, a.Breadth?(), Initial(d));
    a.ValidStructure();
    var existing := a.FindActivation(d.rule, d.identity, d.facts);
    if existing.Some? {
      next, nextBorn := SupportInitial(a, d, existing.value, epoch, born);
    } else {
      next, nextBorn := CreateInitial(a, d, epoch, born);
    }
  }

  method SupportInitial(a: Agenda, d: Delta, h: Handle, epoch: nat, ghost born: seq<Handle>) returns (next: nat, ghost nextBorn: seq<Handle>)
    requires a.Valid() && d.token != 0 && d.rule in a.rules && Find(a.acts, d.rule, d.identity, d.facts) == Some(h)
    modifies a`acts, a`queues, a`heapIndex, a`links, a`nextEpoch
    ensures a.Valid() && (old(a.Ordered()) ==> a.Ordered())
    ensures AddResult(a.CoreVal(), Births(next, nextBorn), true) == AddedOne(old(a.CoreVal()), Births(epoch, born), a.rules, a.Breadth?(), Initial(d))
  {
    hide QueuesOk, AllOrdered, OrderedBut, LookupOk, Find, Distinguished, CoreOk;
    ghost var was := a.acts;
    AddedOneOk(a.CoreVal(), Births(epoch, born), a.rules, a.Breadth?(), Initial(d));
    a.ValidStructure();
    next, nextBorn := epoch, born;
    a.Put(h, a.acts[h].(supportCount := a.acts[h].supportCount + 1));
    a.links := a.links[d.token := Link(h, a.acts[h].ordinal)];
    if a.acts[h].status.Deactivated? {
      if a.acts[h].token == 0 { a.Put(h, a.acts[h].(token := d.token)); }
      a.Put(h, a.acts[h].(status := Waiting));
      assert a.acts == was[h := Rearmed(Supported(was[h]), d.token)];
      if a.Breadth?() {
        next := Bear(a, h, epoch);
        nextBorn := born + [h];
      }
      a.Enqueue(h);
      NowWaiting(was, h, a.acts[h]);
      assert a.acts == was[h := a.acts[h]];
    } else {
      KeptWaiting(was, h, a.acts[h]);
    }
  }

  method CreateInitial(a: Agenda, d: Delta, epoch: nat, ghost born: seq<Handle>) returns (next: nat, ghost nextBorn: seq<Handle>)
    requires a.Valid() && d.token != 0 && d.rule in a.rules && Find(a.acts, d.rule, d.identity, d.facts).None?
    modifies a`acts, a`queues, a`heapIndex, a`links, a`lookup, a`nextOrdinal, a`nextEpoch
    ensures a.Valid() && (old(a.Ordered()) ==> a.Ordered())
    ensures AddResult(a.CoreVal(), Births(next, nextBorn), true) == AddedOne(old(a.CoreVal()), Births(epoch, born), a.rules, a.Breadth?(), Initial(d))
  {
    hide QueuesOk, AllOrdered, OrderedBut, LookupOk, Find, Distinguished, CoreOk;
    ghost var was := a.acts;
    AddedOneOk(a.CoreVal(), Births(epoch, born), a.rules, a.Breadth?(), Initial(d));
    a.ValidStructure();
    next, nextBorn := epoch, born;
    CreatedFollows(a.CoreVal(), a.rules, d);
    var h := a.Store(Created(a.rules[d.rule], d, 0));
    assert Created(a.rules[d.rule], d, 0) == Created(a.rules[d.rule], Initial(d), 0);
    if a.Breadth?() {
      next := Bear(a, h, epoch);
      nextBorn := born + [h];
    }
    a.Enqueue(h);
    AppendWaiting(was, a.acts[h]);
    assert a.acts == was + [a.acts[h]];
    a.links := a.links[d.token := Link(h, a.acts[h].ordinal)];
  }

  /** Ranks everything that waits and was born in the epoch of the load. */
  method FinishInitial(a: Agenda, epoch: nat, ghost born: seq<Handle>)
    requires a.Valid() && (!a.Breadth?() || epoch == 0 ==> born == [])
    requires forall h :: h in born ==> h < |a.acts|
    requires a.Breadth?() && epoch != 0 ==> forall h :: h in born <==> h in WaitingOf(a.acts) && a.acts[h].birthEpoch == epoch
    modifies a`acts, a`queues, a`heapIndex
    ensures a.Valid() && (old(a.Ordered()) ==> a.Ordered())
    ensures a.CoreVal() == old(a.CoreVal()).(acts := Ranked(old(a.acts), born))
  {
    hide QueuesOk, AllOrdered, OrderedBut, LookupOk, CoreOk, Distinguished, Ranked;
    if !a.Breadth?() || epoch == 0 {
      RankedNobody(a.acts);
      return;
    }
    a.ValidStructure();
    var pending := AllPending(a);
    var initial := [];
    for i := 0 to |pending|
      invariant forall h :: h in initial <==> h in pending[..i] && h < |a.acts| && a.acts[h].birthEpoch == epoch
      invariant forall m, n :: 0 <= m < n < |initial| ==> initial[m] != initial[n]
    {
      assert pending[..i + 1] == pending[..i] + [pending[i]];
      assert pending[i] in pending;
      if a.acts[pending[i]].birthEpoch == epoch { initial := initial + [pending[i]]; }
    }
    assert pending[..|pending|] == pending;
    assert OneEpoch(a.acts, initial, epoch) by { assert forall n :: 0 <= n < |initial| ==> initial[n] in initial; }
    RankedSame(a.acts, initial, born);
    var _ := RankWoken(a, initial, epoch);
  }

  /** While a new agenda is filled, everything waits, and in breadth everything is born in one epoch. */
  ghost predicate Filling(breadth: bool, acts: seq<Activation>, births: Births) {
    && (forall h :: 0 <= h < |acts| ==> acts[h].status.Waiting?)
    && (forall h :: h in births.born ==> h < |acts|)
    && (births.epoch == 0 ==> births.born == [])
    && if breadth then forall h :: 0 <= h < |acts| ==> h in births.born && acts[h].birthEpoch == births.epoch && births.epoch != 0
       else births == Births(0, [])
  }

  lemma FillingNext(core: Core, births: Births, rules: Ruleset, breadth: bool, d: Delta)
    requires Filling(breadth, core.acts, births)
    ensures var r := AddedOne(core, births, rules, breadth, Initial(d)); Filling(breadth, r.core.acts, r.births)
  {
  }

  /** The whole load: what the general routine is specified to do with the tokens, and always in heap order. */
  method Load(a: Agenda, ds: seq<Delta>) returns (ok: bool)
    requires a.Valid() && a.acts == []
    modifies a`acts, a`queues, a`heapIndex, a`links, a`lookup, a`nextOrdinal, a`nextEpoch
    ensures a.Valid() && (old(a.Ordered()) ==> a.Ordered())
    ensures Result(a.CoreVal(), ok) == Applied(old(a.CoreVal()), a.rules, a.Breadth?(), [], InitialAll(ds))
  {
    hide QueuesOk, AllOrdered, OrderedBut, LookupOk, CoreOk, Distinguished, Ranked, AddedOne;
    ghost var core := a.CoreVal();
    var epoch := 0;
    ghost var born := [];
    for n := 0 to |ds|
      invariant a.Valid() && (old(a.Ordered()) ==> a.Ordered())
      invariant AddResult(a.CoreVal(), Births(epoch, born), true) == AddedAll(core, a.rules, a.Breadth?(), InitialAll(ds), n)
      invariant Filling(a.Breadth?(), a.acts, Births(epoch, born))
    {
      FillingNext(a.CoreVal(), Births(epoch, born), a.rules, a.Breadth?(), ds[n]);
      epoch, ok, born := AddInitial(a, ds[n], epoch, born);
      if !ok {
        AdditionsStop(core, a.rules, a.Breadth?(), InitialAll(ds), n + 1, |ds|);
        return;
      }
    }
    FinishInitial(a, epoch, born);
    ok := true;
  }
}
