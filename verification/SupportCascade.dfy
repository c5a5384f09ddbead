/**
 The removal cascade on values.  Taking a support record out may leave a demand fact
 unsupported; that fact then leaves working memory and takes with it every record that
 rests on it.  What a whole cascade removes is the least pair of record ids and facts
 that is closed under these two rules.
 */
module SupportCascade {
  import opened SupportIndexes
  import opened SupportSpec

  // ----- What a cascade must remove ---------------------------------------------------

  /** The fact is a demand, and all the records that support it are among the given ones. */
  ghost predicate Unsupported(records: map<SupportId, Record>, ids: set<SupportId>, d: FactId) {
    && (exists id :: Demands(records, id, d))
    && forall id :: Demands(records, id, d) ==> id in ids
  }

  /** Removing these ids and facts leaves nothing behind that should have gone too. */
  ghost predicate Closed(records: map<SupportId, Record>, facts: set<FactId>, seeds: set<SupportId>,
                         ids: set<SupportId>, gone: set<FactId>) {
    && (forall id :: id in seeds && id in records ==> id in ids)
    && (forall id, f :: f in gone && RestsOn(records, id, f) ==> id in ids)
    && (forall d :: d in facts && Unsupported(records, ids, d) ==> d in gone)
  }

  ghost function RemovedIds(before: State, after: State): set<SupportId> {
    before.records.Keys - after.records.Keys
  }

  /** From `before` to `after` exactly the least closed pair disappears. */
  ghost predicate Cascaded(before: State, facts: set<FactId>, seeds: set<SupportId>, after: State, left: set<FactId>) {
    && after.records == before.records - RemovedIds(before, after)
    && left <= facts
    && Closed(before.records, facts, seeds, RemovedIds(before, after), facts - left)
    && forall ids, gone :: Closed(before.records, facts, seeds, ids, gone) ==>
         RemovedIds(before, after) <= ids && facts - left <= gone
  }

  /** Whatever the order of processing, a cascade has one outcome. */
  lemma CascadeUnique(s: State, facts: set<FactId>, seeds: set<SupportId>, t: State, left: set<FactId>, u: State, rest: set<FactId>)
    requires Cascaded(s, facts, seeds, t, left) && Cascaded(s, facts, seeds, u, rest)
    ensures t.records == u.records && left == rest
  {
    var a, b := RemovedIds(s, t), RemovedIds(s, u);
    assert a == b && facts - left == facts - rest;
    assert left == facts - (facts - left) && rest == facts - (facts - rest);
  }

  /** One cascade after another removes what a single one for both causes would. */
  lemma CascadeCompose(s: State, facts: set<FactId>, a: set<SupportId>, t: State, left: set<FactId>,
                       b: set<SupportId>, u: State, rest: set<FactId>)
    requires Cascaded(s, facts, a, t, left) && Cascaded(t, left, b, u, rest)
    ensures Cascaded(s, facts, a + b, u, rest)
  {
    var d1, d2 := RemovedIds(s, t), RemovedIds(t, u);
    assert RemovedIds(s, u) == d1 + d2;
    assert facts - rest == (facts - left) + (left - rest);
    ComposeClosed(s, facts, a, d1, facts - left, b, d2, left - rest);
    forall ids, gone | Closed(s.records, facts, a + b, ids, gone)
      ensures RemovedIds(s, u) <= ids && facts - rest <= gone
    {
      assert Closed(s.records, facts, a, ids, gone);
      RestrictClosed(s, facts, d1, facts - left, a + b, ids, gone);
      assert Closed(t.records, left, b, ids - d1, gone - (facts - left)) by {
        assert t.records == s.records - d1 && left == facts - (facts - left);
      }
    }
  }

  lemma ComposeClosed(s: State, facts: set<FactId>, a: set<SupportId>, d1: set<SupportId>, f1: set<FactId>,
                      b: set<SupportId>, d2: set<SupportId>, f2: set<FactId>)
    requires Closed(s.records, facts, a, d1, f1) && Closed(s.records - d1, facts - f1, b, d2, f2)
    ensures Closed(s.records, facts, a + b, d1 + d2, f1 + f2)
  {
    var r := s.records - d1;
    forall id, f | f in f1 + f2 && RestsOn(s.records, id, f)
      ensures id in d1 + d2
    {
      if id !in d1 { assert RestsOn(r, id, f); }
    }
    forall d | d in facts && Unsupported(s.records, d1 + d2, d)
      ensures d in f1 + f2
    {
      assert forall id :: Demands(r, id, d) ==> Demands(s.records, id, d);
      if exists id :: Demands(s.records, id, d) && id !in d1 {
        var id :| Demands(s.records, id, d) && id !in d1;
        assert Demands(r, id, d);
        assert Unsupported(r, d2, d);
      } else {
        assert Unsupported(s.records, d1, d);
      }
    }
  }

  lemma RestrictClosed(s: State, facts: set<FactId>, d1: set<SupportId>, f1: set<FactId>, seeds: set<SupportId>,
                       ids: set<SupportId>, gone: set<FactId>)
    requires Closed(s.records, facts, seeds, ids, gone)
    ensures Closed(s.records - d1, facts - f1, seeds, ids - d1, gone - f1) || !(d1 <= ids)
  {
    var r := s.records - d1;
    if d1 <= ids {
      assert forall id, f :: RestsOn(r, id, f) ==> RestsOn(s.records, id, f);
      forall d | d in facts - f1 && Unsupported(r, ids - d1, d)
        ensures d in gone - f1
      {
        var id :| Demands(r, id, d);
        assert Demands(s.records, id, d);
        forall x | Demands(s.records, x, d)
          ensures x in ids
        {
          if x !in d1 { assert Demands(r, x, d); }
        }
      }
    }
  }

  // ----- One step at a time -------------------------------------------------------------

  /** The demand fact that loses its last support with the record, if it is in memory. */
  function Woken(s: State, facts: set<FactId>, id: SupportId): seq<FactId> {
    if id in s.records && Listed(Removed(s, id).byDemand, s.records[id].demand) == [] && s.records[id].demand in facts
    then [s.records[id].demand] else []
  }

  function RemovedAll(s: State, ids: seq<SupportId>): State {
    if ids == [] then s else Removed(RemovedAll(s, ids[..|ids| - 1]), ids[|ids| - 1])
  }

  function WokenAll(s: State, facts: set<FactId>, ids: seq<SupportId>): seq<FactId> {
    if ids == [] then [] else
    WokenAll(s, facts, ids[..|ids| - 1]) + Woken(RemovedAll(s, ids[..|ids| - 1]), facts, ids[|ids| - 1])
  }

  /** Every closed pair removes the record. */
  ghost predicate Forced(before: State, facts: set<FactId>, seeds: set<SupportId>, id: SupportId) {
    forall ids, gone :: Closed(before.records, facts, seeds, ids, gone) && id in before.records ==> id in ids
  }

  /** Every closed pair removes the fact. */
  ghost predicate ForcedFact(before: State, facts: set<FactId>, seeds: set<SupportId>, d: FactId) {
    forall ids, gone :: Closed(before.records, facts, seeds, ids, gone) ==> d in gone
  }

  /**
   A cascade under way: so far only what must go has gone, and what still has to go is
   either queued or among the records in `todo`.
   */
  ghost predicate Underway(before: State, facts: set<FactId>, seeds: set<SupportId>,
                           s: State, left: set<FactId>, queue: seq<FactId>, todo: set<SupportId>) {
    && s.records == before.records - RemovedIds(before, s)
    && left <= facts
    && (forall id :: id in RemovedIds(before, s) ==> Forced(before, facts, seeds, id))
    && (forall f :: f in facts - left ==> ForcedFact(before, facts, seeds, f))
    && (forall f :: f in queue ==> ForcedFact(before, facts, seeds, f))
    && (forall id :: id in seeds && id in s.records ==> id in todo)
    && (forall id, f :: f in facts - left && RestsOn(s.records, id, f) ==> id in todo)
    && (forall d :: d in left && Unsupported(before.records, RemovedIds(before, s), d) ==> d in queue)
  }

  function IdSet(ids: seq<SupportId>): set<SupportId> {
    set id | id in ids
  }

  lemma UnderwayStart(s: State, facts: set<FactId>, seeds: set<SupportId>)
    ensures Underway(s, facts, seeds, s, facts, [], seeds)
  {
    assert RemovedIds(s, s) == {} && s.records - {} == s.records;
  }

  lemma UnderwayDone(before: State, facts: set<FactId>, seeds: set<SupportId>, s: State, left: set<FactId>)
    requires Underway(before, facts, seeds, s, left, [], {})
    ensures Cascaded(before, facts, seeds, s, left)
  {
    var d := RemovedIds(before, s);
    forall id, f | f in facts - left && RestsOn(before.records, id, f)
      ensures id in d
    {
      if id !in d { assert RestsOn(s.records, id, f); }
    }
  }

  /** The demands of the records left after removing one. */
  lemma RemovedDemands(before: State, s: State, id: SupportId, d: FactId)
    requires Consistent(s) && id in s.records && s.records == before.records - RemovedIds(before, s)
    ensures Unsupported(before.records, RemovedIds(before, Removed(s, id)), d) ==>
              (d == s.records[id].demand && Listed(Removed(s, id).byDemand, d) == [])
              || Unsupported(before.records, RemovedIds(before, s), d)
    ensures (d == s.records[id].demand && Listed(Removed(s, id).byDemand, d) == []) ==>
              Unsupported(before.records, RemovedIds(before, Removed(s, id)), d)
  {
    hide Removed;
    RemovedConsistent(s, id);
    var t := Removed(s, id);
    assert RemovedIds(before, t) == RemovedIds(before, s) + {id};
    NoneListed(t, d);
    assert Demands(before.records, id, s.records[id].demand);
    assert forall x :: Demands(t.records, x, d) <==> Demands(before.records, x, d) && x !in RemovedIds(before, t);
  }

  lemma NoneListed(s: State, d: FactId)
    requires Consistent(s)
    ensures Listed(s.byDemand, d) == [] <==> forall x :: !Demands(s.records, x, d)
  {
    assert forall x :: x in Listed(s.byDemand, d) <==> Demands(s.records, x, d);
    if Listed(s.byDemand, d) != [] { assert Listed(s.byDemand, d)[0] in Listed(s.byDemand, d); }
  }

  lemma UnderwayRemove(before: State, facts: set<FactId>, seeds: set<SupportId>,
                       s: State, left: set<FactId>, queue: seq<FactId>, todo: set<SupportId>, id: SupportId)
    requires Consistent(s) && Underway(before, facts, seeds, s, left, queue, todo) && Forced(before, facts, seeds, id)
    ensures Underway(before, facts, seeds, Removed(s, id), left, queue + Woken(s, left, id), todo - {id})
  {
    hide Consistent, Closed, Unsupported;
    RemovedConsistent(s, id);
    var t, woken := Removed(s, id), Woken(s, left, id);
    if id in s.records {
      hide Removed;
      assert RemovedIds(before, t) == RemovedIds(before, s) + {id};
      assert t.records == before.records - RemovedIds(before, t);
      assert forall x, f :: RestsOn(t.records, x, f) ==> RestsOn(s.records, x, f);
      forall f | f in queue + woken
        ensures ForcedFact(before, facts, seeds, f)
      {
        if f in woken {
          RemovedDemands(before, s, id, f);
          UnsupportedForced(before, facts, seeds, t, f);
        }
      }
      forall d | d in left && Unsupported(before.records, RemovedIds(before, t), d)
        ensures d in queue + woken
      {
        RemovedDemands(before, s, id, d);
      }
    } else {
      assert queue + woken == queue;
    }
  }

  /** A fact whose supports are all forced out is forced out. */
  lemma UnsupportedForced(before: State, facts: set<FactId>, seeds: set<SupportId>, t: State, f: FactId)
    requires f in facts && Unsupported(before.records, RemovedIds(before, t), f)
    requires forall id :: id in RemovedIds(before, t) ==> Forced(before, facts, seeds, id)
    ensures ForcedFact(before, facts, seeds, f)
  {
    forall ids, gone | Closed(before.records, facts, seeds, ids, gone)
      ensures f in gone
    {
      assert forall id :: Demands(before.records, id, f) ==> id in ids;
    }
  }

  /** A queued fact leaves memory; the records that rest on it have to go next. */
  lemma UnderwayPop(before: State, facts: set<FactId>, seeds: set<SupportId>,
                    s: State, left: set<FactId>, queue: seq<FactId>)
    requires queue != [] && Underway(before, facts, seeds, s, left, queue, {})
    ensures Underway(before, facts, seeds, s, left - {queue[0]}, queue[1..], set id | id in s.records && RestsOn(s.records, id, queue[0]))
    ensures forall id :: RestsOn(s.records, id, queue[0]) ==> Forced(before, facts, seeds, id)
  {
    hide Unsupported;
    var d := queue[0];
    assert queue == [d] + queue[1..];
    forall id | RestsOn(s.records, id, d)
      ensures Forced(before, facts, seeds, id)
    {
      assert RestsOn(before.records, id, d) && ForcedFact(before, facts, seeds, d);
      forall ids, gone | Closed(before.records, facts, seeds, ids, gone)
        ensures id in ids
      {
      }
    }
  }

  /** Removing a list of records that must all go. */
  lemma {:induction false} UnderwayRemoveAll(before: State, facts: set<FactId>, seeds: set<SupportId>,
                       s: State, left: set<FactId>, queue: seq<FactId>, todo: set<SupportId>, ids: seq<SupportId>)
    requires Consistent(s) && Underway(before, facts, seeds, s, left, queue, todo)
    requires forall id :: id in ids ==> Forced(before, facts, seeds, id)
    ensures Consistent(RemovedAll(s, ids))
    ensures Underway(before, facts, seeds, RemovedAll(s, ids), left, queue + WokenAll(s, left, ids), todo - IdSet(ids))
    decreases |ids|
  {
    hide Consistent, Underway, Removed, Woken, Forced;
    if ids == [] {
      assert todo - IdSet(ids) == todo && queue + WokenAll(s, left, ids) == queue;
    } else {
      var n := |ids| - 1;
      assert ids == ids[..n] + [ids[n]];
      UnderwayRemoveAll(before, facts, seeds, s, left, queue, todo, ids[..n]);
      var t, q := RemovedAll(s, ids[..n]), queue + WokenAll(s, left, ids[..n]);
      UnderwayRemove(before, facts, seeds, t, left, q, todo - IdSet(ids[..n]), ids[n]);
      RemovedConsistent(t, ids[n]);
      assert q + Woken(t, left, ids[n]) == queue + WokenAll(s, left, ids);
      assert todo - IdSet(ids[..n]) - {ids[n]} == todo - IdSet(ids);
    }
  }

  lemma {:induction false} RemovedAllShrinks(s: State, facts: set<FactId>, ids: seq<SupportId>)
    requires Consistent(s)
    ensures Consistent(RemovedAll(s, ids))
    ensures |RemovedAll(s, ids).records| + |WokenAll(s, facts, ids)| <= |s.records|
    decreases |ids|
  {
    hide Consistent, Removed;
    if ids != [] {
      var n := |ids| - 1;
      RemovedAllShrinks(s, facts, ids[..n]);
      var t := RemovedAll(s, ids[..n]);
      RemovedConsistent(t, ids[n]);
      assert (t.records - {ids[n]}).Keys == t.records.Keys - {ids[n]};
      if ids[n] !in t.records { assert t.records - {ids[n]} == t.records; }
    }
  }

  /** What is left to do once everything but the demand's list has let go of the record. */
  lemma DetachDemand(s: State, now: State, facts: set<FactId>, id: SupportId)
    requires id in s.records && now == Removed(s, id).(byDemand := s.byDemand)
    ensures var d := s.records[id].demand; var rest := RemoveId(Listed(s.byDemand, d), id);
            && Removed(s, id) == now.(byDemand := if rest == [] then s.byDemand - {d} else s.byDemand[d := rest])
            && Woken(s, facts, id) == (if rest == [] && d in facts then [d] else [])
  {
    var d := s.records[id].demand;
    var rest := RemoveId(Listed(s.byDemand, d), id);
    assert Listed(RemoveListed(s.byDemand, d, id), d) == rest;
  }

  /** Removing a record nothing else hangs on is a whole cascade. */
  lemma CascadeQuiet(s: State, facts: set<FactId>, id: SupportId)
    requires Consistent(s) && Woken(s, facts, id) == []
    ensures Cascaded(s, facts, {id}, Removed(s, id), facts)
  {
    hide Consistent, Underway, Removed, Woken;
    UnderwayStart(s, facts, {id});
    SeedForced(s, facts, id);
    UnderwayRemove(s, facts, {id}, s, facts, [], {id}, id);
    assert [] + Woken(s, facts, id) == [] && {id} - {id} == {};
    UnderwayDone(s, facts, {id}, Removed(s, id), facts);
  }

  lemma SeedForced(s: State, facts: set<FactId>, id: SupportId)
    ensures Forced(s, facts, {id}, id)
  {
  }

  lemma CascadeNothing(s: State, facts: set<FactId>, id: SupportId)
    requires Consistent(s) && id !in s.records
    ensures Cascaded(s, facts, {id}, s, facts)
  {
    CascadeQuiet(s, facts, id);
  }

  lemma UnderwayAfterFirst(s: State, facts: set<FactId>, id: SupportId)
    requires Consistent(s)
    ensures Underway(s, facts, {id}, Removed(s, id), facts, Woken(s, facts, id), {})
  {
    hide Consistent, Underway, Removed, Woken;
    UnderwayStart(s, facts, {id});
    SeedForced(s, facts, id);
    UnderwayRemove(s, facts, {id}, s, facts, [], {id}, id);
    assert [] + Woken(s, facts, id) == Woken(s, facts, id) && {id} - {id} == {};
  }

  lemma CascadeEmpty(s: State, facts: set<FactId>)
    ensures Cascaded(s, facts, {}, s, facts)
  {
    UnderwayStart(s, facts, {});
    UnderwayDone(s, facts, {}, s, facts);
  }

  lemma WokenNotZero(s: State, facts: set<FactId>, id: SupportId)
    requires Consistent(s)
    ensures 0 !in Woken(s, facts, id)
  {
  }

  lemma {:induction false} WokenAllNotZero(s: State, facts: set<FactId>, ids: seq<SupportId>)
    requires Consistent(s)
    ensures 0 !in WokenAll(s, facts, ids)
    decreases |ids|
  {
    hide Consistent, Removed, Woken;
    if ids != [] {
      var n := |ids| - 1;
      WokenAllNotZero(s, facts, ids[..n]);
      RemovedAllShrinks(s, facts, ids[..n]);
      WokenNotZero(RemovedAll(s, ids[..n]), facts, ids[n]);
    }
  }
}
