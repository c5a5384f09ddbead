/**
 Support held by an owner, said of the owner's fields: which requests an owner holds, that owners do
 not share support, and that an owner's support goes when it asks.
 */
module SupportOwners {
  import opened Options
  import opened SupportIndexes
  import opened SupportSpec
  import opened SupportCascade
  import opened SupportRequest

  /** An owner is a node, a plan of it counted from zero, and a token. */
  predicate Holds(o: Owner) {
    o.node != 0 && o.plan >= 0 && o.token != 0
  }

  /** A request with an owner is answered with the owner's record. */
  lemma OwnerAdded(s: State, h: Hashing, demand: FactId, q: Request)
    requires Consistent(s) && Holds(q.owner) && demand != 0 && q.facts != []
    ensures var (t, id) := Added(s, h, demand, q);
            && id > 0 && id in t.records && t.records[id].kind == Owned(q.owner)
            && q.owner in t.byOwner && t.byOwner[q.owner] == id
            && (q.owner in s.byOwner ==> t == s)
            && (q.owner !in s.byOwner ==> id !in s.records && t.records[id] == Record(Owned(q.owner), demand, q.facts))
  {
    hide Consistent, AddListed, AddFacts;
    AddedConsistent(s, h, demand, q);
    AddedRecords(s, h, demand, q);
    var (t, id) := Added(s, h, demand, q);
    OwnersIndexed(s);
    OwnersIndexed(t);
  }

  /** The owner index is exact. */
  lemma OwnersIndexed(s: State)
    requires Consistent(s)
    ensures forall o :: o in s.byOwner ==> s.byOwner[o] in s.records && s.records[s.byOwner[o]].kind == Owned(o)
    ensures forall id :: id in s.records && s.records[id].kind.Owned? ==>
              s.records[id].kind.owner in s.byOwner && s.byOwner[s.records[id].kind.owner] == id
    ensures forall id :: id in s.records ==> id > 0
  {
  }

  predicate HeldAs(s: State, id: SupportId, owner: Owner) {
    id in s.records && s.records[id].kind == Owned(owner)
  }

  /** Different owners never share a record. */
  lemma OwnersApart(s: State, h: Hashing, d: FactId, q: Request, e: FactId, p: Request)
    requires Consistent(s) && Holds(q.owner) && Holds(p.owner) && q.owner != p.owner
    requires d != 0 && e != 0 && q.facts != [] && p.facts != []
    ensures var (t, i) := Added(s, h, d, q); var (u, j) := Added(t, h, e, p);
            i != j && HeldAs(u, i, q.owner) && HeldAs(u, j, p.owner)
  {
    hide Consistent, Added;
    OwnerAdded(s, h, d, q);
    var (t, i) := Added(s, h, d, q);
    AddedConsistent(s, h, d, q);
    OwnerAdded(t, h, e, p);
    AddedKeeps(t, h, e, p);
  }

  lemma AddedKeeps(s: State, h: Hashing, demand: FactId, q: Request)
    requires Consistent(s)
    ensures var t := Added(s, h, demand, q).0; forall id :: id in s.records ==> id in t.records && t.records[id] == s.records[id]
  {
    hide Consistent, AddListed, AddFacts, Existing;
    AllocatedConsistent(s);
  }

  /** A request without an owner is never stored as some owner's. */
  lemma UnownedAdded(s: State, h: Hashing, demand: FactId, q: Request)
    requires Consistent(s) && !Holds(q.owner)
    ensures var (t, id) := Added(s, h, demand, q);
            && (forall o :: (exists i :: i in t.records && t.records[i].kind == Owned(o)) ==> exists i :: i in s.records && s.records[i].kind == Owned(o))
            && (id != 0 ==> id in t.records && !t.records[id].kind.Owned?)
            && (id == 0 <==> demand == 0 || q.facts == [] || q.template == "")
  {
    hide Consistent, AddListed, AddFacts;
    AddedConsistent(s, h, demand, q);
    if Added(s, h, demand, q).1 != 0 { AddedRecords(s, h, demand, q); }
  }

  // ----- Requests without an owner --------------------------------------------------------

  /** The record is of this template, these slots and these facts; small ones are told by an exact key, others by hashes too. */
  predicate RecordOf(r: Record, q: Request) {
    && r.facts == q.facts
    && match r.kind
       case Inline(k) => |q.facts| == 1 && |q.slots| <= 4 && k.template == q.template && k.support == q.facts[0] && k.slots == q.slots
       case Keyed(k, slots) => !(|q.facts| == 1 && |q.slots| <= 4) && k.template == q.template && slots == q.slots
                               && k.supportCount == |q.facts| && k.slotCount == |q.slots|
       case Owned(_) => false
  }

  /** A request without an owner is answered with a record of its template, slots and facts; one that is new is for the demand. */
  lemma UnownedStored(s: State, h: Hashing, demand: FactId, q: Request)
    requires Consistent(s) && Formed(s, h) && !Holds(q.owner) && demand != 0 && q.facts != [] && q.template != ""
    ensures var (t, id) := Added(s, h, demand, q);
            && id != 0 && id in t.records && RecordOf(t.records[id], q)
            && (id in s.records ==> t == s)
            && (id !in s.records ==> t.records == s.records[id := t.records[id]] && t.records[id].demand == demand)
  {
    hide Consistent, AddListed, AddFacts;
    AddedConsistent(s, h, demand, q);
    AddedRecords(s, h, demand, q);
    var e := Existing(s, KindOf(h, q).value, q.facts);
    if e.Some? {
      SomeExisting(s, KindOf(h, q).value, q.facts);
      assert FormedRecord(h, s.records[e.value]);
    } else {
      AllocatedConsistent(s);
    }
  }

  /** Two requests without owners have one answer exactly if they agree in template, slots and facts, whatever they hash to. */
  lemma UnownedApart(s: State, h: Hashing, d: FactId, q: Request, e: FactId, p: Request)
    requires Consistent(s) && Formed(s, h) && !Holds(q.owner) && !Holds(p.owner) && d != 0 && e != 0
    requires q.facts != [] && p.facts != [] && q.template != "" && p.template != ""
    ensures var (t, i) := Added(s, h, d, q); var (u, j) := Added(t, h, e, p);
            i == j <==> q.template == p.template && q.facts == p.facts && q.slots == p.slots
  {
    hide Consistent, Formed, Added;
    UnownedStored(s, h, d, q);
    AddedConsistent(s, h, d, q);
    AddedFormed(s, h, d, q);
    var (t, i) := Added(s, h, d, q);
    UnownedStored(t, h, e, p);
    AddedKeeps(t, h, e, p);
    if q.template == p.template && q.facts == p.facts && q.slots == p.slots {
      AlikeAnswer(s, h, d, q, e, p);
    }
  }

  lemma AlikeAnswer(s: State, h: Hashing, d: FactId, q: Request, e: FactId, p: Request)
    requires Consistent(s) && !Holds(q.owner) && !Holds(p.owner) && d != 0 && e != 0
    requires q.template == p.template && q.facts == p.facts && q.slots == p.slots && q.facts != [] && q.template != ""
    ensures Added(Added(s, h, d, q).0, h, e, p).1 == Added(s, h, d, q).1
  {
    hide Consistent, AddedAs;
    assert KindOf(h, q) == KindOf(h, p);
    assert Added(Added(s, h, d, q).0, h, e, p) == Added(Added(s, h, d, q).0, h, e, q);
    AddedConsistent(s, h, d, q);
    AddedIdempotent(s, h, d, e, q);
  }

  /** In a store whose records are as requests make them, every owner is a node, a plan and a token. */
  lemma OwnersHold(s: State, h: Hashing)
    requires Formed(s, h)
    ensures forall id :: id in s.records && s.records[id].kind.Owned? ==> Holds(s.records[id].kind.owner)
  {
    forall id | id in s.records && s.records[id].kind.Owned?
      ensures Holds(s.records[id].kind.owner)
    {
      assert FormedRecord(h, s.records[id]);
    }
  }

  // ----- Removal for an owner -----------------------------------------------------------------

  /** The records an owner holds. */
  function OwnedBy(records: map<SupportId, Record>, owner: Owner): set<SupportId> {
    if owner.IsZero() then {} else set id | id in records && records[id].kind == Owned(owner)
  }

  /** The record of an owner, if it holds one. */
  function HeldBy(s: State, owner: Owner): Option<SupportId> {
    if !owner.IsZero() && owner in s.byOwner then Some(s.byOwner[owner]) else None
  }

  /** No record of the owner is left. */
  ghost predicate NoneOf(s: State, owner: Owner) {
    forall id :: id in s.records ==> s.records[id].kind != Owned(owner)
  }

  /** A removal for an owner starts from the owner's records, all of them. */
  lemma OwnerSeeds(records: map<SupportId, Record>, owner: Owner)
    ensures Holds(owner) ==> forall id :: id in OwnedBy(records, owner) <==> id in records && records[id].kind == Owned(owner)
    ensures !Holds(owner) ==> OwnedBy(records, owner) == {}
  {
  }

  /** After a cascade from them none is left, and neither is once the one record the index leads to is gone. */
  lemma OwnerGone(s: State, facts: set<FactId>, owner: Owner)
    requires Consistent(s) && Holds(owner)
    ensures forall t, left :: Cascaded(s, facts, OwnedBy(s.records, owner), t, left) ==> NoneOf(t, owner)
    ensures HeldBy(s, owner).None? ==> NoneOf(s, owner)
    ensures HeldBy(s, owner).Some? ==> NoneOf(Removed(s, HeldBy(s, owner).value), owner)
  {
    hide Consistent, RemoveListed, RemoveFacts;
    OwnersIndexed(s);
    OwnerSeeds(s.records, owner);
    forall t, left | Cascaded(s, facts, OwnedBy(s.records, owner), t, left)
      ensures NoneOf(t, owner)
    {
      forall id | id in t.records
        ensures t.records[id].kind != Owned(owner)
      {
        assert id !in RemovedIds(s, t) && id in s.records;
        assert id !in OwnedBy(s.records, owner);
      }
    }
    RemovedConsistent(s, if HeldBy(s, owner).Some? then HeldBy(s, owner).value else 0);
  }
}
