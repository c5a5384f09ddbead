/**
 What a removal takes away, said of the records: which go, and which demands.
 */
module SupportMeaning {
  import opened Options
  import opened SupportIndexes
  import opened SupportSpec
  import opened SupportCascade
  import opened SupportRequest
  import opened SupportOwners
  import opened SupportStore

  /** The record names the fact, in that version if one is given. */
  lemma AffectedMeaning(records: map<SupportId, Record>, id: SupportId, f: FactId, version: Option<nat>)
    ensures Affected(records, id, f, version) <==>
              id in records && exists x :: x in records[id].facts && x.id == f && (version.Some? ==> x.version == version.value)
  {
    if version.Some? && id in records && SupportFact(f, version.value) in records[id].facts {
      assert RestsOn(records, id, f);
    }
  }

  /** One of the facts the record rests on is gone. */
  ghost predicate LostFact(r: Record, gone: set<FactId>) {
    exists x :: x in r.facts && x.id in gone
  }

  /** The fact was demanded by some record, and all that demanded it are gone. */
  ghost predicate LostSupport(before: State, after: State, d: FactId) {
    && (exists id :: id in before.records && before.records[id].demand == d)
    && forall id :: id in before.records && before.records[id].demand == d ==> id !in after.records
  }

  /** After a cascade a record is gone exactly if it was named at the start or lost a fact, and a fact exactly if it lost its support. */
  lemma CascadeExact(s: State, facts: set<FactId>, seeds: set<SupportId>, t: State, left: set<FactId>)
    requires Cascaded(s, facts, seeds, t, left)
    ensures forall id :: id in s.records ==> (id !in t.records <==> id in seeds || LostFact(s.records[id], facts - left))
    ensures forall d :: d in facts ==> (d !in left <==> LostSupport(s, t, d))
    ensures left <= facts && forall id :: id in t.records ==> id in s.records && t.records[id] == s.records[id]
  {
    var ids, gone := RemovedIds(s, t), facts - left;
    var ids2 := set id | id in s.records && (id in seeds || LostFact(s.records[id], gone));
    var gone2 := set d | d in facts && Unsupported(s.records, ids, d);
    hide Cascaded, LostFact, LostSupport;
    CascadedClosed(s, facts, seeds, t, left);
    forall id | id in s.records
      ensures LostFact(s.records[id], gone) <==> exists f :: f in gone && RestsOn(s.records, id, f)
    {
      Rests(s.records, id, gone);
    }
    assert ids2 <= ids;
    assert gone2 <= gone;
    OnceMore(s.records, facts, seeds, ids, gone, ids2, gone2);
    CascadedLeast(s, facts, seeds, t, left, ids2, gone2);
    forall d | d in facts
      ensures d !in left <==> LostSupport(s, t, d)
    {
      assert d in gone <==> d in gone2;
      Unsupports(s, t, d);
    }
  }

  lemma CascadedClosed(s: State, facts: set<FactId>, seeds: set<SupportId>, t: State, left: set<FactId>)
    requires Cascaded(s, facts, seeds, t, left)
    ensures Closed(s.records, facts, seeds, RemovedIds(s, t), facts - left)
    ensures left <= facts && forall id :: id in t.records ==> id in s.records && t.records[id] == s.records[id]
  {
    hide Closed;
    assert t.records == s.records - RemovedIds(s, t);
  }

  lemma CascadedLeast(s: State, facts: set<FactId>, seeds: set<SupportId>, t: State, left: set<FactId>, ids: set<SupportId>, gone: set<FactId>)
    requires Cascaded(s, facts, seeds, t, left) && Closed(s.records, facts, seeds, ids, gone)
    ensures RemovedIds(s, t) <= ids && facts - left <= gone
  {
    hide Closed;
  }

  lemma Rests(records: map<SupportId, Record>, id: SupportId, gone: set<FactId>)
    requires id in records
    ensures LostFact(records[id], gone) <==> exists f :: f in gone && RestsOn(records, id, f)
  {
    if f :| f in gone && RestsOn(records, id, f) {
      var x :| x in records[id].facts && x.id == f;
    }
    if x :| x in records[id].facts && x.id in gone { assert RestsOn(records, id, x.id); }
  }

  lemma Unsupports(s: State, t: State, d: FactId)
    ensures Unsupported(s.records, RemovedIds(s, t), d) <==> LostSupport(s, t, d)
  {
    forall id | id in s.records && s.records[id].demand == d
      ensures Demands(s.records, id, d)
    {
    }
  }

  /** One step from a closed pair, into a smaller one, is closed as well. */
  lemma OnceMore(records: map<SupportId, Record>, facts: set<FactId>, seeds: set<SupportId>, ids: set<SupportId>, gone: set<FactId>,
                 ids2: set<SupportId>, gone2: set<FactId>)
    requires ids2 <= ids && gone2 <= gone
    requires forall id :: id in records && (id in seeds || exists f :: f in gone && RestsOn(records, id, f)) ==> id in ids2
    requires forall d :: d in facts && Unsupported(records, ids, d) ==> d in gone2
    ensures Closed(records, facts, seeds, ids2, gone2)
  {
  }

  // ----- Removal by request ---------------------------------------------------------------

  /** The owner holds a record: the request is about that one. */
  predicate Spoken(s: State, owner: Owner) {
    Holds(owner) && owner in s.byOwner
  }

  /** The record a request means is its owner's, or else the one of its template, slots and facts. */
  lemma MeantMeaning(s: State, h: Hashing, q: Request, id: SupportId)
    requires Consistent(s) && Formed(s, h)
    ensures Meant(s, h, q) == Some(id) <==>
              && q.facts != [] && id in s.records
              && if Spoken(s, q.owner) then s.records[id].kind == Owned(q.owner) else q.template != "" && RecordOf(s.records[id], q)
  {
    hide Consistent;
    OwnersIndexed(s);
    if !Spoken(s, q.owner) && q.facts != [] && q.template != "" {
      var k := PlainKind(h, q).value;
      var e := Existing(s, k, q.facts);
      if e.Some? {
        SomeExisting(s, k, q.facts);
        assert FormedRecord(h, s.records[e.value]);
      }
      if id in s.records && RecordOf(s.records[id], q) {
        assert FormedRecord(h, s.records[id]);
        assert Stands(s, k, q.facts, id);
        if e.None? { NoneStands(s, k, q.facts); } else { StandsUnique(s, k, q.facts, id, e.value); }
      }
    }
  }

  /** The only record that rests on the request's one fact. */
  ghost predicate Lone(s: State, q: Request, id: SupportId) {
    && |q.facts| == 1 && id in s.records && NamesIn(s.records[id].facts, q.facts[0].id)
    && forall j :: j in s.records && NamesIn(s.records[j].facts, q.facts[0].id) ==> j == id
  }

  /** A record of the request's template and facts, with as many slots, but not those. */
  predicate OtherSlots(r: Record, q: Request) {
    && r.facts == q.facts
    && match r.kind
       case Inline(k) => k.template == q.template && |k.slots| == |q.slots| && k.slots != q.slots
       case Keyed(k, slots) => k.template == q.template && |slots| == |q.slots| && slots != q.slots
       case Owned(_) => false
  }

  /** A record under an exact key on the request's fact, with as many slots, when the request leaves all of them open. */
  predicate AllOpen(r: Record, q: Request) {
    r.kind.Inline? && r.facts == q.facts && |r.kind.inlineKey.slots| == |q.slots| && forall n :: 0 <= n < |q.slots| ==> q.slots[n] == Missing
  }

  /** What misleads a request: a lone record with other slots, or, without a template, one under an exact key. */
  lemma MisledMeaning(s: State, h: Hashing, q: Request)
    requires Consistent(s) && Formed(s, h)
    ensures Misled(s, q) <==>
              && q.facts != [] && !Spoken(s, q.owner)
              && (|| (exists id :: Lone(s, q, id) && OtherSlots(s.records[id], q))
                  || (q.template == "" && exists id :: id in s.records && AllOpen(s.records[id], q)))
  {
    hide Consistent, OtherSlots, AllOpen;
    if q.facts != [] && !Spoken(s, q.owner) {
      ShortcutMeaning(s, h, q);
      if q.template == "" { RawMeaning(s, h, q); }
      if id :| Lone(s, q, id) && OtherSlots(s.records[id], q) { assert Shortcut(s, q) == Some(id); }
    }
  }

  lemma ShortcutMeaning(s: State, h: Hashing, q: Request)
    requires Consistent(s) && Formed(s, h)
    ensures Shortcut(s, q).Some? ==> q.template != "" && Lone(s, q, Shortcut(s, q).value)
    ensures Shortcut(s, q).Some? && SlotsOf(s.records[Shortcut(s, q).value].kind) != q.slots ==> OtherSlots(s.records[Shortcut(s, q).value], q)
    ensures forall id :: Lone(s, q, id) && OtherSlots(s.records[id], q) ==>
              Shortcut(s, q) == Some(id) && SlotsOf(s.records[id].kind) != q.slots
  {
    hide ByKeyExact, ByDemandExact, InlineExact, OwnersExact, KeyedOnce;
    if |q.facts| == 1 {
      var ids := Listed(s.byFact, q.facts[0].id);
      assert DistinctIds(ids);
      assert forall id :: id in ids <==> id in s.records && NamesIn(s.records[id].facts, q.facts[0].id) by {
        assert forall id :: id in ids <==> RestsOn(s.records, id, q.facts[0].id);
      }
      forall id: SupportId | Lone(s, q, id)
        ensures ids == [id]
      {
        OneListed(ids, id);
      }
      if |ids| == 1 {
        assert ids[0] in ids && forall j :: j in ids ==> j == ids[0];
        assert FormedRecord(h, s.records[ids[0]]);
      }
    }
  }

  lemma OneListed(ids: seq<SupportId>, id: SupportId)
    requires DistinctIds(ids) && id in ids && forall j :: j in ids ==> j == id
    ensures ids == [id]
  {
    assert |ids| > 1 ==> ids[0] != ids[1];
    forall i | 0 <= i < |ids|
      ensures ids[i] == id
    {
      assert ids[i] in ids;
    }
  }

  lemma RawMeaning(s: State, h: Hashing, q: Request)
    requires Consistent(s) && Formed(s, h) && q.facts != [] && q.template == ""
    ensures FindRaw(s, Listed(s.byFact, q.facts[0].id), q).Some? <==> exists id :: id in s.records && AllOpen(s.records[id], q)
  {
    hide ByKeyExact, ByDemandExact, InlineExact, OwnersExact, KeyedOnce;
    var ids := Listed(s.byFact, q.facts[0].id);
    FindRawFound(s, ids, q);
    forall id | id in s.records
      ensures RawMatch(s.records[id], q) <==> AllOpen(s.records[id], q)
    {
      assert FormedRecord(h, s.records[id]);
    }
    forall id | id in s.records && AllOpen(s.records[id], q)
      ensures id in ids
    {
      assert q.facts[0] in s.records[id].facts;
      assert RestsOn(s.records, id, q.facts[0].id);
    }
  }
}
