/**
 The demand-support store as values: what a record is, what adding and removing one
 does to every index, and the consistency all of them keep.
 */
module SupportSpec {
  import opened Options
  import opened Sequences
  import opened SupportIndexes

  /** Zero is no fact. */
  type FactId = nat

  datatype SupportFact = SupportFact(id: FactId, version: nat)

  datatype Owner = Owner(node: nat, plan: int, token: nat) {
    predicate IsZero() {
      node == 0 || plan < 0 || token == 0
    }
  }

  datatype SlotKey = Missing | Scalar(kind: nat, bits: nat, text: string) | Signature(signature: string)

  datatype SupportKey = SupportKey(template: string, supportHash: nat, slotHash: nat, supportCount: nat, slotCount: nat)

  datatype InlineKey = InlineKey(template: string, support: SupportFact, slots: seq<SlotKey>)

  datatype InlineEntry = InlineEntry(id: SupportId, demand: FactId, support: SupportFact)

  datatype Request = Request(template: string, facts: seq<SupportFact>, slots: seq<SlotKey>, owner: Owner)

  /** How a record is found again: by hashed key, by exact small key, or by owner. */
  datatype Kind = Keyed(key: SupportKey, slots: seq<SlotKey>) | Inline(inlineKey: InlineKey) | Owned(owner: Owner)

  datatype Record = Record(kind: Kind, demand: FactId, facts: seq<SupportFact>)

  datatype State = State(
    records: map<SupportId, Record>,
    byKey: map<SupportKey, seq<SupportId>>,
    inlineIndex: map<InlineKey, InlineEntry>,
    byOwner: map<Owner, SupportId>,
    byFact: map<FactId, seq<SupportId>>,
    byDemand: map<FactId, seq<SupportId>>,
    free: seq<SupportId>,
    next: nat)

  const EMPTY := State(map[], map[], map[], map[], map[], map[], [], 0)

  const INLINE_LIMIT: nat := 4

  /** Hashes of the supporting facts and of the slots; nothing depends on how good they are. */
  datatype Hashing = Hashing(facts: seq<SupportFact> -> nat, slots: seq<SlotKey> -> nat)

  // ----- Maps of id lists ---------------------------------------------------------

  function Listed<K>(m: map<K, seq<SupportId>>, k: K): seq<SupportId> {
    if k in m then m[k] else []
  }

  function AddListed<K>(m: map<K, seq<SupportId>>, k: K, id: SupportId): map<K, seq<SupportId>> {
    m[k := AddId(Listed(m, k), id)]
  }

  /** A list that becomes empty leaves the map. */
  function RemoveListed<K>(m: map<K, seq<SupportId>>, k: K, id: SupportId): map<K, seq<SupportId>> {
    var l := RemoveId(Listed(m, k), id);
    if l == [] then m - {k} else m[k := l]
  }

  function AddFacts(m: map<FactId, seq<SupportId>>, facts: seq<SupportFact>, id: SupportId): map<FactId, seq<SupportId>> {
    if facts == [] then m else AddListed(AddFacts(m, facts[..|facts| - 1], id), facts[|facts| - 1].id, id)
  }

  function RemoveFacts(m: map<FactId, seq<SupportId>>, facts: seq<SupportFact>, id: SupportId): map<FactId, seq<SupportId>> {
    if facts == [] then m else RemoveListed(RemoveFacts(m, facts[..|facts| - 1], id), facts[|facts| - 1].id, id)
  }

  /** No list is empty, repeats an id, or holds zero. */
  ghost predicate ListsOk<K(!new)>(m: map<K, seq<SupportId>>) {
    forall k :: k in m ==> m[k] != [] && DistinctIds(m[k]) && 0 !in m[k]
  }

  lemma AddListedOk<K(!new)>(m: map<K, seq<SupportId>>, k: K, id: SupportId)
    requires ListsOk(m) && id != 0
    ensures ListsOk(AddListed(m, k, id))
    ensures forall j, x :: x in Listed(AddListed(m, k, id), j) <==> x in Listed(m, j) || (x == id && j == k)
  {
    AddIdIsSetInsert(Listed(m, k), id);
  }

  lemma RemoveListedOk<K(!new)>(m: map<K, seq<SupportId>>, k: K, id: SupportId)
    requires ListsOk(m)
    ensures ListsOk(RemoveListed(m, k, id))
    ensures forall j, x :: x in Listed(RemoveListed(m, k, id), j) <==> x in Listed(m, j) && !(x == id && j == k)
  {
    RemoveIdIsSetRemove(Listed(m, k), id);
    assert forall x :: x in RemoveId(Listed(m, k), id) <==> x in Listed(m, k) && x != id;
  }

  predicate NamesIn(facts: seq<SupportFact>, f: FactId) {
    exists s :: s in facts && s.id == f
  }

  lemma NamesSnoc(facts: seq<SupportFact>, f: FactId)
    requires facts != []
    ensures NamesIn(facts, f) <==> NamesIn(facts[..|facts| - 1], f) || facts[|facts| - 1].id == f
  {
    assert facts == facts[..|facts| - 1] + [facts[|facts| - 1]];
  }

  lemma {:induction false} AddFactsOk(m: map<FactId, seq<SupportId>>, facts: seq<SupportFact>, id: SupportId)
    requires ListsOk(m) && id != 0
    ensures ListsOk(AddFacts(m, facts, id))
    ensures forall f, x :: x in Listed(AddFacts(m, facts, id), f) <==> x in Listed(m, f) || (x == id && NamesIn(facts, f))
    decreases |facts|
  {
    if facts != [] {
      AddFactsOk(m, facts[..|facts| - 1], id);
      AddListedOk(AddFacts(m, facts[..|facts| - 1], id), facts[|facts| - 1].id, id);
      forall f { NamesSnoc(facts, f); }
    }
  }

  lemma {:induction false} RemoveFactsOk(m: map<FactId, seq<SupportId>>, facts: seq<SupportFact>, id: SupportId)
    requires ListsOk(m)
    ensures ListsOk(RemoveFacts(m, facts, id))
    ensures forall f, x :: x in Listed(RemoveFacts(m, facts, id), f) <==> x in Listed(m, f) && !(x == id && NamesIn(facts, f))
    decreases |facts|
  {
    if facts != [] {
      RemoveFactsOk(m, facts[..|facts| - 1], id);
      RemoveListedOk(RemoveFacts(m, facts[..|facts| - 1], id), facts[|facts| - 1].id, id);
      forall f { NamesSnoc(facts, f); }
    }
  }

  // ----- Consistency ----------------------------------------------------------------

  predicate KeyedUnder(records: map<SupportId, Record>, id: SupportId, k: SupportKey) {
    id in records && records[id].kind.Keyed? && records[id].kind.key == k
  }

  predicate RestsOn(records: map<SupportId, Record>, id: SupportId, f: FactId) {
    id in records && NamesIn(records[id].facts, f)
  }

  predicate Demands(records: map<SupportId, Record>, id: SupportId, d: FactId) {
    id in records && records[id].demand == d
  }

  /** Each key lists exactly the live records that carry it. */
  ghost predicate ByKeyExact(records: map<SupportId, Record>, m: map<SupportKey, seq<SupportId>>) {
    ListsOk(m) && forall k, id :: id in Listed(m, k) <==> KeyedUnder(records, id, k)
  }

  /** Each fact lists exactly the live records it supports. */
  ghost predicate ByFactExact(records: map<SupportId, Record>, m: map<FactId, seq<SupportId>>) {
    ListsOk(m) && forall f, id :: id in Listed(m, f) <==> RestsOn(records, id, f)
  }

  /** Each demand lists exactly the live records that support it. */
  ghost predicate ByDemandExact(records: map<SupportId, Record>, m: map<FactId, seq<SupportId>>) {
    ListsOk(m) && forall d, id :: id in Listed(m, d) <==> Demands(records, id, d)
  }

  predicate InlineEntryOf(records: map<SupportId, Record>, k: InlineKey, e: InlineEntry) {
    e.id in records && records[e.id].kind == Inline(k) && records[e.id].demand == e.demand && records[e.id].facts == [e.support]
  }

  /** Each exact key leads to the one live record that carries it. */
  ghost predicate InlineExact(records: map<SupportId, Record>, m: map<InlineKey, InlineEntry>) {
    && (forall k :: k in m ==> InlineEntryOf(records, k, m[k]))
    && (forall id :: id in records && records[id].kind.Inline? ==>
         records[id].kind.inlineKey in m && m[records[id].kind.inlineKey].id == id)
  }

  /** Each owner leads to the one live record it owns. */
  ghost predicate OwnersExact(records: map<SupportId, Record>, m: map<Owner, SupportId>) {
    && (forall o :: o in m ==> m[o] in records && records[m[o]].kind == Owned(o))
    && (forall id :: id in records && records[id].kind.Owned? ==> records[id].kind.owner in m && m[records[id].kind.owner] == id)
  }

  /** Ids come from `1..next`; the free ones are distinct and never live. */
  ghost predicate IdsOk(s: State) {
    && (forall id :: id in s.records ==> 0 < id <= s.next && s.records[id].demand != 0 && s.records[id].facts != [])
    && DistinctIds(s.free)
    && (forall id :: id in s.free ==> 0 < id <= s.next && id !in s.records)
  }

  /** The keyed record stands for the same request: a shared hash is not enough. */
  predicate SameKeyed(r: Record, k: Kind, facts: seq<SupportFact>) {
    r.kind == k && r.facts == facts
  }

  /** No two keyed records stand for the same request. */
  ghost predicate KeyedOnce(records: map<SupportId, Record>) {
    forall i, j :: (i in records && j in records && records[i].kind.Keyed?
                    && SameKeyed(records[j], records[i].kind, records[i].facts)) ==> i == j
  }

  ghost predicate Consistent(s: State) {
    && KeyedOnce(s.records)
    && ByKeyExact(s.records, s.byKey) && ByFactExact(s.records, s.byFact) && ByDemandExact(s.records, s.byDemand)
    && InlineExact(s.records, s.inlineIndex) && OwnersExact(s.records, s.byOwner) && IdsOk(s)
  }

  lemma ByKeyInsert(records: map<SupportId, Record>, m: map<SupportKey, seq<SupportId>>, id: SupportId, r: Record)
    requires ByKeyExact(records, m) && id !in records && id != 0
    ensures ByKeyExact(records[id := r], if r.kind.Keyed? then AddListed(m, r.kind.key, id) else m)
  {
    if r.kind.Keyed? { AddListedOk(m, r.kind.key, id); }
  }

  lemma ByFactInsert(records: map<SupportId, Record>, m: map<FactId, seq<SupportId>>, id: SupportId, r: Record)
    requires ByFactExact(records, m) && id !in records && id != 0
    ensures ByFactExact(records[id := r], AddFacts(m, r.facts, id))
  {
    AddFactsOk(m, r.facts, id);
  }

  lemma ByDemandInsert(records: map<SupportId, Record>, m: map<FactId, seq<SupportId>>, id: SupportId, r: Record)
    requires ByDemandExact(records, m) && id !in records && id != 0
    ensures ByDemandExact(records[id := r], AddListed(m, r.demand, id))
  {
    AddListedOk(m, r.demand, id);
  }

  lemma ByKeyRemove(records: map<SupportId, Record>, m: map<SupportKey, seq<SupportId>>, id: SupportId)
    requires ByKeyExact(records, m) && id in records
    ensures var k := records[id].kind; ByKeyExact(records - {id}, if k.Keyed? then RemoveListed(m, k.key, id) else m)
  {
    if records[id].kind.Keyed? { RemoveListedOk(m, records[id].kind.key, id); }
  }

  lemma ByFactRemove(records: map<SupportId, Record>, m: map<FactId, seq<SupportId>>, id: SupportId)
    requires ByFactExact(records, m) && id in records
    ensures ByFactExact(records - {id}, RemoveFacts(m, records[id].facts, id))
  {
    RemoveFactsOk(m, records[id].facts, id);
  }

  lemma ByDemandRemove(records: map<SupportId, Record>, m: map<FactId, seq<SupportId>>, id: SupportId)
    requires ByDemandExact(records, m) && id in records
    ensures ByDemandExact(records - {id}, RemoveListed(m, records[id].demand, id))
  {
    RemoveListedOk(m, records[id].demand, id);
  }

  // ----- Adding -----------------------------------------------------------------------

  /** A freed id if there is one, else a new one. */
  function FreshId(s: State): SupportId {
    if s.free != [] then s.free[|s.free| - 1] else s.next + 1
  }

  function Allocated(s: State): State {
    if s.free != [] then s.(free := s.free[..|s.free| - 1]) else s.(next := s.next + 1)
  }

  /** Lists the record everywhere it belongs. */
  function Insert(s: State, id: SupportId, r: Record): State {
    s.(records := s.records[id := r],
       byKey := if r.kind.Keyed? then AddListed(s.byKey, r.kind.key, id) else s.byKey,
       inlineIndex := if r.kind.Inline? && r.facts != []
                      then s.inlineIndex[r.kind.inlineKey := InlineEntry(id, r.demand, r.facts[0])] else s.inlineIndex,
       byOwner := if r.kind.Owned? then s.byOwner[r.kind.owner := id] else s.byOwner,
       byFact := AddFacts(s.byFact, r.facts, id),
       byDemand := AddListed(s.byDemand, r.demand, id))
  }

  function KeyOf(h: Hashing, q: Request): SupportKey {
    SupportKey(q.template, h.facts(q.facts), h.slots(q.slots), |q.facts|, |q.slots|)
  }

  function KindOf(h: Hashing, q: Request): Option<Kind> {
    if !q.owner.IsZero() then Some(Owned(q.owner))
    else if q.template == "" then None
    else if |q.facts| == 1 && |q.slots| <= INLINE_LIMIT then Some(Inline(InlineKey(q.template, q.facts[0], q.slots)))
    else Some(Keyed(KeyOf(h, q), q.slots))
  }

  function FindKeyed(s: State, ids: seq<SupportId>, k: Kind, facts: seq<SupportFact>): Option<SupportId> {
    if ids == [] then None
    else if ids[0] in s.records && SameKeyed(s.records[ids[0]], k, facts) then Some(ids[0])
    else FindKeyed(s, ids[1..], k, facts)
  }

  /** The live record that already stands for the request. */
  function Existing(s: State, k: Kind, facts: seq<SupportFact>): Option<SupportId> {
    match k
    case Owned(o) => if o in s.byOwner then Some(s.byOwner[o]) else None
    case Inline(i) => if i in s.inlineIndex then Some(s.inlineIndex[i].id) else None
    case Keyed(key, _) => FindKeyed(s, Listed(s.byKey, key), k, facts)
  }

  /** Stores a record of the given kind unless one already stands for it. */
  function AddedAs(s: State, kind: Kind, demand: FactId, facts: seq<SupportFact>): (State, SupportId) {
    var e := Existing(s, kind, facts);
    if e.Some? then (s, e.value)
    else (Insert(Allocated(s), FreshId(s), Record(kind, demand, facts)), FreshId(s))
  }

  function Added(s: State, h: Hashing, demand: FactId, q: Request): (State, SupportId) {
    if demand == 0 || q.facts == [] || KindOf(h, q).None? then (s, 0)
    else AddedAs(s, KindOf(h, q).value, demand, q.facts)
  }

  lemma AllocatedConsistent(s: State)
    requires Consistent(s)
    ensures Consistent(Allocated(s)) && 0 < FreshId(s) <= Allocated(s).next
    ensures FreshId(s) !in s.records && FreshId(s) !in Allocated(s).free
    ensures Allocated(s).records == s.records
    ensures if s.free == [] then FreshId(s) == s.next + 1 == Allocated(s).next && Allocated(s).free == []
            else s.free == Allocated(s).free + [FreshId(s)] && Allocated(s).next == s.next
  {
    if s.free != [] {
      assert FreshId(s) in s.free;
      assert forall id :: id in Allocated(s).free ==> id in s.free;
    }
  }

  lemma InsertConsistent(s: State, id: SupportId, r: Record)
    requires Consistent(s)
    requires 0 < id <= s.next && id !in s.records && id !in s.free && r.demand != 0 && r.facts != []
    requires r.kind.Inline? ==> |r.facts| == 1 && r.kind.inlineKey !in s.inlineIndex
    requires r.kind.Owned? ==> r.kind.owner !in s.byOwner
    requires r.kind.Keyed? ==> forall i :: i in s.records ==> !SameKeyed(s.records[i], r.kind, r.facts)
    ensures Consistent(Insert(s, id, r)) && Insert(s, id, r).records == s.records[id := r]
  {
    hide ByKeyExact, ByFactExact, ByDemandExact, InlineExact, OwnersExact, AddFacts, AddListed;
    ByKeyInsert(s.records, s.byKey, id, r);
    ByFactInsert(s.records, s.byFact, id, r);
    ByDemandInsert(s.records, s.byDemand, id, r);
    InlineInsert(s, id, r);
    OwnersInsert(s, id, r);
    assert KeyedOnce(s.records[id := r]);
  }

  lemma InlineInsert(s: State, id: SupportId, r: Record)
    requires InlineExact(s.records, s.inlineIndex)
    requires id !in s.records && r.facts != []
    requires r.kind.Inline? ==> |r.facts| == 1 && r.kind.inlineKey !in s.inlineIndex
    ensures var t := Insert(s, id, r); InlineExact(t.records, t.inlineIndex)
  {
    hide AddFacts, AddListed;
    assert |r.facts| == 1 ==> [r.facts[0]] == r.facts;
  }

  lemma OwnersInsert(s: State, id: SupportId, r: Record)
    requires OwnersExact(s.records, s.byOwner) && id !in s.records
    requires r.kind.Owned? ==> r.kind.owner !in s.byOwner
    ensures var t := Insert(s, id, r); OwnersExact(t.records, t.byOwner)
  {
    hide AddFacts, AddListed;
  }

  lemma {:induction false} FindKeyedFound(s: State, ids: seq<SupportId>, k: Kind, facts: seq<SupportFact>)
    ensures var e := FindKeyed(s, ids, k, facts);
            && (e.Some? ==> e.value in ids && e.value in s.records && SameKeyed(s.records[e.value], k, facts))
            && (e.None? ==> forall id :: id in ids && id in s.records ==> !SameKeyed(s.records[id], k, facts))
  {
    if ids != [] {
      FindKeyedFound(s, ids[1..], k, facts);
      assert forall id :: id in ids <==> id == ids[0] || id in ids[1..];
    }
  }

  /** Nothing in the indexes stands for the request. */
  lemma NoneExisting(s: State, k: Kind, facts: seq<SupportFact>)
    requires Consistent(s) && Existing(s, k, facts).None?
    ensures k.Inline? ==> k.inlineKey !in s.inlineIndex
    ensures k.Owned? ==> k.owner !in s.byOwner
    ensures k.Keyed? ==> forall i :: i in s.records ==> !SameKeyed(s.records[i], k, facts)
  {
    if k.Keyed? {
      FindKeyedFound(s, Listed(s.byKey, k.key), k, facts);
      forall i | i in s.records
        ensures !SameKeyed(s.records[i], k, facts)
      {
        assert KeyedUnder(s.records, i, k.key) <==> i in Listed(s.byKey, k.key);
      }
    }
  }

  lemma SomeExisting(s: State, k: Kind, facts: seq<SupportFact>)
    requires Consistent(s) && Existing(s, k, facts).Some?
    ensures var id := Existing(s, k, facts).value;
            id != 0 && Stands(s, k, facts, id)
  {
    if k.Keyed? { FindKeyedFound(s, Listed(s.byKey, k.key), k, facts); }
  }

  /** The record is of the given kind, and a keyed one rests on the given facts. */
  predicate Stands(s: State, k: Kind, facts: seq<SupportFact>, id: SupportId) {
    id in s.records && s.records[id].kind == k && (k.Keyed? ==> s.records[id].facts == facts)
  }

  lemma NoneStands(s: State, k: Kind, facts: seq<SupportFact>)
    requires Consistent(s) && Existing(s, k, facts).None?
    ensures forall i :: !Stands(s, k, facts, i)
  {
    NoneExisting(s, k, facts);
  }

  /** The id stands for the request: its record carries the request's key, exact key or owner. */
  predicate StandsFor(s: State, h: Hashing, q: Request, id: SupportId) {
    id in s.records && KindOf(h, q) == Some(s.records[id].kind)
  }

  /** Adding keeps every index exact, and the id it answers with stands for the request. */
  lemma AddedConsistent(s: State, h: Hashing, demand: FactId, q: Request)
    requires Consistent(s)
    ensures Consistent(Added(s, h, demand, q).0)
    ensures Added(s, h, demand, q).1 == 0 <==> demand == 0 || q.facts == [] || KindOf(h, q).None?
    ensures Added(s, h, demand, q).1 != 0 ==> StandsFor(Added(s, h, demand, q).0, h, q, Added(s, h, demand, q).1)
  {
    hide Consistent, Insert, Existing;
    if demand != 0 && q.facts != [] && KindOf(h, q).Some? {
      var kind := KindOf(h, q).value;
      if Existing(s, kind, q.facts).None? {
        NoneExisting(s, kind, q.facts);
        AllocatedConsistent(s);
        InsertConsistent(Allocated(s), FreshId(s), Record(kind, demand, q.facts));
      } else {
        SomeExisting(s, kind, q.facts);
      }
    }
  }

  /** A support already stored is not stored again; a new one becomes one more record. */
  lemma AddedRecords(s: State, h: Hashing, demand: FactId, q: Request)
    requires Consistent(s) && Added(s, h, demand, q).1 != 0
    ensures var (t, id) := Added(s, h, demand, q);
            if exists i :: Stands(s, KindOf(h, q).value, q.facts, i) then t == s
            else id !in s.records && t.records == s.records[id := Record(KindOf(h, q).value, demand, q.facts)]
  {
    hide Consistent;
    var kind := KindOf(h, q).value;
    if Existing(s, kind, q.facts).None? {
      NoneExisting(s, kind, q.facts);
      NoneStands(s, kind, q.facts);
      AllocatedConsistent(s);
    } else {
      SomeExisting(s, kind, q.facts);
    }
  }

  /** At most one live record stands for a request. */
  lemma StandsUnique(s: State, k: Kind, facts: seq<SupportFact>, i: SupportId, j: SupportId)
    requires Consistent(s) && Stands(s, k, facts, i) && Stands(s, k, facts, j)
    ensures i == j
  {
    if k.Keyed? { assert SameKeyed(s.records[j], s.records[i].kind, s.records[i].facts); }
  }

  /** Asking again for the same support changes nothing and answers with the same id. */
  lemma AddedIdempotent(s: State, h: Hashing, demand: FactId, again: FactId, q: Request)
    requires Consistent(s) && again != 0 && Added(s, h, demand, q).1 != 0
    ensures Added(Added(s, h, demand, q).0, h, again, q) == Added(s, h, demand, q)
  {
    hide Consistent, Insert;
    var (t, id) := Added(s, h, demand, q);
    AddedConsistent(s, h, demand, q);
    AddedConsistent(t, h, again, q);
    AddedRecords(s, h, demand, q);
    AddedRecords(t, h, again, q);
    var kind := KindOf(h, q).value;
    if Existing(s, kind, q.facts).Some? { SomeExisting(s, kind, q.facts); } else { NoneStands(s, kind, q.facts); }
    assert Stands(t, kind, q.facts, id);
    if Existing(t, kind, q.facts).Some? { SomeExisting(t, kind, q.facts); } else { NoneStands(t, kind, q.facts); }
    StandsUnique(t, kind, q.facts, id, Existing(t, kind, q.facts).value);
  }

  // ----- Removing -----------------------------------------------------------------------

  /** Takes a live record out of every index and frees its id. */
  function Removed(s: State, id: SupportId): State {
    if id !in s.records then s else
    var r := s.records[id];
    s.(records := s.records - {id},
       free := s.free + [id],
       byKey := if r.kind.Keyed? then RemoveListed(s.byKey, r.kind.key, id) else s.byKey,
       inlineIndex := if r.kind.Inline? then s.inlineIndex - {r.kind.inlineKey} else s.inlineIndex,
       byOwner := if r.kind.Owned? && r.kind.owner in s.byOwner && s.byOwner[r.kind.owner] == id
                  then s.byOwner - {r.kind.owner} else s.byOwner,
       byFact := RemoveFacts(s.byFact, r.facts, id),
       byDemand := RemoveListed(s.byDemand, r.demand, id))
  }

  lemma RemovedConsistent(s: State, id: SupportId)
    requires Consistent(s)
    ensures Consistent(Removed(s, id)) && Removed(s, id).records == s.records - {id}
  {
    hide ByKeyExact, ByFactExact, ByDemandExact, InlineExact, OwnersExact, RemoveFacts, RemoveListed;
    if id in s.records {
      ByKeyRemove(s.records, s.byKey, id);
      ByFactRemove(s.records, s.byFact, id);
      ByDemandRemove(s.records, s.byDemand, id);
      InlineRemove(s, id);
      OwnersRemove(s, id);
      assert forall x :: x in s.free + [id] <==> x in s.free || x == id;
    } else {
      assert s.records - {id} == s.records;
    }
  }

  lemma InlineRemove(s: State, id: SupportId)
    requires InlineExact(s.records, s.inlineIndex) && id in s.records
    ensures InlineExact(Removed(s, id).records, Removed(s, id).inlineIndex)
  {
    hide RemoveFacts, RemoveListed;
  }

  lemma OwnersRemove(s: State, id: SupportId)
    requires OwnersExact(s.records, s.byOwner) && id in s.records
    ensures OwnersExact(Removed(s, id).records, Removed(s, id).byOwner)
  {
    hide RemoveFacts, RemoveListed;
  }

  /** A fresh record put in and taken out again leaves every index with what it held. */
  lemma AddedThenRemoved(s: State, h: Hashing, demand: FactId, q: Request)
    requires Consistent(s) && Added(s, h, demand, q).0 != s
    ensures SameContents(Removed(Added(s, h, demand, q).0, Added(s, h, demand, q).1), s)
  {
    hide Consistent, Insert, Removed;
    var (t, id) := Added(s, h, demand, q);
    AddedConsistent(s, h, demand, q);
    AddedRecords(s, h, demand, q);
    RemovedConsistent(t, id);
    assert t.records - {id} == s.records;
    ConsistentUnique(Removed(t, id), s);
  }

  /** Two stores with the same records, and index entries that differ at most in order. */
  ghost predicate SameContents(s: State, t: State) {
    && s.records == t.records && s.inlineIndex == t.inlineIndex && s.byOwner == t.byOwner
    && (forall k :: multiset(Listed(s.byKey, k)) == multiset(Listed(t.byKey, k)))
    && (forall f :: multiset(Listed(s.byFact, f)) == multiset(Listed(t.byFact, f)))
    && (forall d :: multiset(Listed(s.byDemand, d)) == multiset(Listed(t.byDemand, d)))
  }

  lemma InlineUnique(records: map<SupportId, Record>, a: map<InlineKey, InlineEntry>, b: map<InlineKey, InlineEntry>)
    requires InlineExact(records, a) && InlineExact(records, b)
    ensures a == b
  {
    assert forall k :: k in a ==> InlineEntryOf(records, k, a[k]);
    assert forall k :: k in b ==> InlineEntryOf(records, k, b[k]);
    assert forall k :: k in a <==> k in b;
    forall k | k in a
      ensures a[k] == b[k]
    {
      assert a[k].id == b[k].id && [a[k].support][0] == [b[k].support][0];
    }
  }

  lemma ByKeyUnique(records: map<SupportId, Record>, a: map<SupportKey, seq<SupportId>>, b: map<SupportKey, seq<SupportId>>)
    requires ByKeyExact(records, a) && ByKeyExact(records, b)
    ensures forall k :: multiset(Listed(a, k)) == multiset(Listed(b, k))
  {
    forall k
      ensures multiset(Listed(a, k)) == multiset(Listed(b, k))
    {
      assert forall x :: x in Listed(a, k) <==> KeyedUnder(records, x, k);
      SameMembersSameLists(Listed(a, k), Listed(b, k));
    }
  }

  lemma ByFactUnique(records: map<SupportId, Record>, a: map<FactId, seq<SupportId>>, b: map<FactId, seq<SupportId>>)
    requires ByFactExact(records, a) && ByFactExact(records, b)
    ensures forall k :: multiset(Listed(a, k)) == multiset(Listed(b, k))
  {
    forall k
      ensures multiset(Listed(a, k)) == multiset(Listed(b, k))
    {
      assert forall x :: x in Listed(a, k) <==> RestsOn(records, x, k);
      SameMembersSameLists(Listed(a, k), Listed(b, k));
    }
  }

  lemma ByDemandUnique(records: map<SupportId, Record>, a: map<FactId, seq<SupportId>>, b: map<FactId, seq<SupportId>>)
    requires ByDemandExact(records, a) && ByDemandExact(records, b)
    ensures forall k :: multiset(Listed(a, k)) == multiset(Listed(b, k))
  {
    forall k
      ensures multiset(Listed(a, k)) == multiset(Listed(b, k))
    {
      assert forall x :: x in Listed(a, k) <==> Demands(records, x, k);
      SameMembersSameLists(Listed(a, k), Listed(b, k));
    }
  }

  /** The indexes are determined by the records, up to the order in their lists. */
  lemma ConsistentUnique(s: State, t: State)
    requires Consistent(s) && Consistent(t) && s.records == t.records
    ensures SameContents(s, t)
  {
    hide ByKeyExact, ByFactExact, ByDemandExact, InlineExact;
    ByKeyUnique(s.records, s.byKey, t.byKey);
    ByFactUnique(s.records, s.byFact, t.byFact);
    ByDemandUnique(s.records, s.byDemand, t.byDemand);
    InlineUnique(s.records, s.inlineIndex, t.inlineIndex);
    assert forall o :: o in s.byOwner <==> o in t.byOwner;
    assert s.byOwner == t.byOwner;
  }

  lemma SameMembersSameLists(a: seq<SupportId>, b: seq<SupportId>)
    requires DistinctIds(a) && DistinctIds(b) && forall x :: x in a <==> x in b
    ensures multiset(a) == multiset(b)
  {
    forall x
      ensures multiset(a)[x] == multiset(b)[x]
    {
      DistinctCount(a, x);
      DistinctCount(b, x);
    }
  }
}
