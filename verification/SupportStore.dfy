/**
 The demand-support store: records by id with reuse of freed ids, probing tables of id
 buckets by key, fact and demand, exact-key and owner indexes, and the re-entrant removal
 cascade driven by a worklist.
 */
module SupportStore {
  import opened Options
  import Sorting
  import opened ProbeTable
  import opened SupportIndexes
  import opened SupportSpec
  import opened SupportCascade
  import opened SupportRequest
  import opened SupportOwners

  // ----- Tables of buckets ------------------------------------------------------------

  ghost predicate BucketsOk<K(!new)>(m: map<K, Bucket>) {
    forall k :: k in m ==> BucketOk(m[k]) && DistinctIds(Ids(m[k]))
  }

  /** The id lists a table of buckets stands for. */
  ghost function ListsOf<K>(m: map<K, Bucket>): map<K, seq<SupportId>> {
    map k | k in m :: Ids(m[k])
  }

  lemma ListsOfSet<K(!new)>(m: map<K, Bucket>, k: K, b: Bucket)
    requires BucketsOk(m) && BucketOk(b) && DistinctIds(Ids(b))
    ensures BucketsOk(m[k := b]) && ListsOf(m[k := b]) == ListsOf(m)[k := Ids(b)]
  {
  }

  lemma ListsOfDelete<K(!new)>(m: map<K, Bucket>, k: K)
    requires BucketsOk(m)
    ensures BucketsOk(m - {k}) && ListsOf(m - {k}) == ListsOf(m) - {k}
  {
  }

  method BucketAt<K(!new)>(t: Table<K, Bucket>, k: K) returns (b: Bucket)
    requires t.Valid() && BucketsOk(t.Contents())
    ensures BucketOk(b) && DistinctIds(Ids(b)) && Ids(b) == Listed(ListsOf(t.Contents()), k)
  {
    var r := t.Get(k);
    b := if r.Some? then r.value else EMPTY_BUCKET;
  }

  method ListAdd<K(!new)>(t: Table<K, Bucket>, k: K, id: SupportId)
    requires t.Valid() && BucketsOk(t.Contents()) && id != 0
    modifies t, t.entries
    ensures t.Valid() && BucketsOk(t.Contents())
    ensures ListsOf(t.Contents()) == AddListed(old(ListsOf(t.Contents())), k, id)
    ensures fresh(t.entries) || t.entries == old(t.entries)
  {
    ghost var before := t.Contents();
    var b := BucketAt(t, k);
    BucketObservers(b, id);
    AddIdIsSetInsert(Ids(b), id);
    var r, _ := BucketAdd(b, id);
    t.Set(k, r);
    ListsOfSet(before, k, r);
  }

  /** Stores what is left of a bucket; an empty one leaves the table. */
  method ListRemove<K(!new)>(t: Table<K, Bucket>, k: K, id: SupportId)
    requires t.Valid() && BucketsOk(t.Contents())
    modifies t, t.entries
    ensures t.Valid() && BucketsOk(t.Contents())
    ensures ListsOf(t.Contents()) == RemoveListed(old(ListsOf(t.Contents())), k, id)
    ensures fresh(t.entries) || t.entries == old(t.entries)
  {
    ghost var before := t.Contents();
    var b := BucketAt(t, k);
    RemoveIdIsSetRemove(Ids(b), id);
    var r, _ := BucketRemove(b, id);
    BucketObservers(r, id);
    if BucketEmpty(r) {
      t.Delete(k);
      ListsOfDelete(before, k);
    } else {
      t.Set(k, r);
      ListsOfSet(before, k, r);
    }
  }

  // ----- Records by id ----------------------------------------------------------------

  /** Position `id - 1` holds the record, if the id is live. */
  predicate HasRecord(records: seq<Option<Record>>, id: SupportId) {
    0 < id <= |records| && records[id - 1].Some?
  }

  function RecordIn(records: seq<Option<Record>>, id: SupportId): Option<Record> {
    if HasRecord(records, id) then records[id - 1] else None
  }

  ghost function RecordsOf(records: seq<Option<Record>>): map<SupportId, Record> {
    map id | 0 < id <= |records| && HasRecord(records, id) :: records[id - 1].value
  }

  /** Grows the list to the id and stores the record. */
  method StoreRecord(records: seq<Option<Record>>, id: SupportId, r: Record) returns (out: seq<Option<Record>>)
    requires id > 0
    ensures RecordsOf(out) == RecordsOf(records)[id := r]
  {
    out := records;
    while |out| < id
      invariant |out| <= id || |out| == |records|
      invariant RecordsOf(out) == RecordsOf(records)
    {
      out := out + [None];
    }
    out := out[id - 1 := Some(r)];
  }

  lemma InRecords(records: seq<Option<Record>>, id: SupportId)
    ensures id in RecordsOf(records) <==> HasRecord(records, id)
  {
  }

  lemma ClearedRecord(records: seq<Option<Record>>, id: SupportId)
    requires HasRecord(records, id)
    ensures RecordsOf(records[id - 1 := None]) == RecordsOf(records) - {id}
  {
  }

  function Merged(a: map<SupportId, Record>, b: map<SupportId, Record>): (r: map<SupportId, Record>)
    ensures forall id :: id in r <==> id in a || id in b
  {
    a + b
  }

  /** Blanks the record in the array that holds it. */
  method WithoutRecord(rs: seq<Option<Record>>, os: seq<Option<Record>>, id: SupportId) returns (rest: seq<Option<Record>>, owned: seq<Option<Record>>)
    requires id in RecordsOf(rs) || id in RecordsOf(os)
    requires id in RecordsOf(rs) ==> id !in RecordsOf(os)
    ensures RecordsOf(rest) == RecordsOf(rs) - {id} && RecordsOf(owned) == RecordsOf(os) - {id}
  {
    hide RecordsOf;
    InRecords(rs, id);
    InRecords(os, id);
    rest, owned := rs, os;
    if HasRecord(rs, id) {
      ClearedRecord(rs, id);
      rest := rs[id - 1 := None];
    } else {
      ClearedRecord(os, id);
      owned := os[id - 1 := None];
    }
  }

  lemma PutRight(a: map<SupportId, Record>, b: map<SupportId, Record>, id: SupportId, r: Record)
    ensures Merged(a, b[id := r]) == Merged(a, b)[id := r]
  {
  }

  lemma PutLeft(a: map<SupportId, Record>, b: map<SupportId, Record>, id: SupportId, r: Record)
    requires id !in b
    ensures Merged(a[id := r], b) == Merged(a, b)[id := r]
  {
  }

  /** Records with an owner are in the second map, the others in the first. */
  ghost predicate SplitByOwner(a: map<SupportId, Record>, b: map<SupportId, Record>) {
    && (forall id :: id in a ==> !a[id].kind.Owned? && id !in b)
    && (forall id :: id in b ==> b[id].kind.Owned?)
  }

  lemma SplitWithout(a: map<SupportId, Record>, b: map<SupportId, Record>, id: SupportId)
    requires SplitByOwner(a, b)
    ensures SplitByOwner(a - {id}, b - {id}) && (id in a ==> id !in b)
  {
  }

  lemma MergedWithout(a: map<SupportId, Record>, b: map<SupportId, Record>, id: SupportId)
    ensures Merged(a - {id}, b - {id}) == Merged(a, b) - {id}
  {
  }

  // ----- Sorting ------------------------------------------------------------------------

  /** The first `i` have been put in order by insertion: before `j` they are as they were, and after it moved up by one. */
  ghost predicate Shifted(less: (SupportId, SupportId) -> bool, was: seq<SupportId>, out: seq<SupportId>, i: nat, j: int) {
    && -1 <= j < i < |was| == |out|
    && (forall k :: 0 <= k <= j ==> out[k] == was[k])
    && (forall k :: j + 1 < k <= i ==> out[k] == was[k - 1] && less(was[i], out[k]))
    && multiset(out[j + 1 := was[i]]) == multiset(was)
  }

  lemma ShiftStarts(less: (SupportId, SupportId) -> bool, s: seq<SupportId>, i: nat)
    requires 0 < i < |s|
    ensures Shifted(less, s, s, i, i - 1)
  {
    assert s[i := s[i]] == s;
  }

  lemma ShiftStep(less: (SupportId, SupportId) -> bool, was: seq<SupportId>, out: seq<SupportId>, i: nat, j: nat)
    requires Shifted(less, was, out, i, j) && less(was[i], out[j])
    ensures Shifted(less, was, out[j + 1 := out[j]], i, j - 1)
  {
    var x, next := was[i], out[j + 1 := out[j]];
    assert multiset(next[j := x]) == multiset(out[j + 1 := x]);
  }

  lemma ShiftEnds(less: (SupportId, SupportId) -> bool, was: seq<SupportId>, out: seq<SupportId>, i: nat, j: int)
    requires Shifted(less, was, out, i, j)
    ensures -1 <= j < i < |was| == |out| && multiset(out[j + 1 := was[i]]) == multiset(was) && (j >= 0 ==> out[j] == was[j])
  {
  }

  lemma InsertedInOrder(less: (SupportId, SupportId) -> bool, was: seq<SupportId>, out: seq<SupportId>, i: nat, j: int)
    requires Shifted(less, was, out, i, j) && (j >= 0 ==> !less(was[i], was[j]))
    requires Sorting.Orders(less, was) && Sorting.InOrder(less, was[..i])
    ensures Sorting.InOrder(less, out[j + 1 := was[i]][..i + 1])
  {
    var x, s := was[i], out[j + 1 := was[i]][..i + 1];
    forall a, b | 0 <= a < b < |s|
      ensures !less(s[b], s[a])
    {
      assert s[a] == (if a <= j then was[..i][a] else if a == j + 1 then x else was[..i][a - 1]);
      assert s[b] == (if b <= j then was[..i][b] else if b == j + 1 then x else was[..i][b - 1]);
      if b == j + 1 && a < j { assert !less(was[..i][j], was[..i][a]); }
    }
  }

  lemma SameOrders(less: (SupportId, SupportId) -> bool, s: seq<SupportId>, t: seq<SupportId>)
    requires multiset(s) == multiset(t) && Sorting.Orders(less, s)
    ensures Sorting.Orders(less, t)
  {
    forall x | x in t
      ensures x in s
    {
      assert x in multiset(t);
    }
  }

  /** Insertion sort: a permutation, whatever the comparison does, and in order if the comparison is one. */
  method SortIds(ids: seq<SupportId>, less: (SupportId, SupportId) -> bool) returns (out: seq<SupportId>)
    ensures multiset(out) == multiset(ids)
    ensures forall id :: id in out <==> id in ids
    ensures Sorting.Orders(less, ids) ==> Sorting.InOrder(less, out)
  {
    hide Sorting.Orders, Sorting.InOrder, Shifted;
    out := ids;
    var i := 1;
    OneInOrder(less, ids);
    while i < |ids|
      invariant i >= 1 && |out| == |ids| && multiset(out) == multiset(ids)
      invariant i <= |ids| || ids == []
      invariant Sorting.Orders(less, ids) ==> Sorting.InOrder(less, out[..if ids == [] then 0 else i])
    {
      var current := out[i];
      var j := i - 1;
      ghost var was := out;
      ShiftStarts(less, out, i);
      while j >= 0 && less(current, out[j])
        invariant -1 <= j < i && |out| == |was| && Shifted(less, was, out, i, j)
      {
        ShiftStep(less, was, out, i, j);
        out := out[j + 1 := out[j]];
        j := j - 1;
      }
      ShiftEnds(less, was, out, i, j);
      if Sorting.Orders(less, ids) {
        SameOrders(less, ids, was);
        InsertedInOrder(less, was, out, i, j);
      }
      out := out[j + 1 := current];
      i := i + 1;
    }
    assert out[..|ids|] == out;
    assert forall id :: id in out <==> id in multiset(out);
  }

  lemma OneInOrder(less: (SupportId, SupportId) -> bool, ids: seq<SupportId>)
    ensures Sorting.InOrder(less, ids[..if ids == [] then 0 else 1])
  {
  }

  // ----- The store -----------------------------------------------------------------------

  /** The facts still to be removed are those from `head` on. */
  datatype Cascade = Cascade(pending: seq<FactId>, head: nat) {
    predicate Ok() { head <= |pending| }

    function Queue(): seq<FactId>
      requires Ok()
    {
      pending[head..]
    }
  }

  const COMPACT_AT: nat := 1024

  class DemandStore {
    const supports: Table<SupportKey, Bucket>
    const byFact: Table<FactId, Bucket>
    const byDemand: Table<FactId, Bucket>
    const inlineSupports: SlotIndex<InlineKey, InlineEntry>
    const supportOwners: SlotIndex<Owner, SupportId>
    /** Records found by key or exact key, and records found by owner. */
    var records: seq<Option<Record>>
    var ownerRecords: seq<Option<Record>>
    var free: seq<SupportId>
    var next: nat
    /** The facts in working memory. */
    var facts: set<FactId>
    /** The removal under way, if any. */
    var cascade: Option<Cascade>
    const hashing: Hashing
    /** Orders the ids taken out together, given their records. */
    const less: (Option<Record>, Option<Record>) -> (SupportId, SupportId) -> bool

    ghost predicate Apart()
      reads byFact, byDemand, supports
    {
      && byFact != byDemand && byFact.entries != byDemand.entries
      && supports.entries as object != byFact.entries as object
      && supports.entries as object != byDemand.entries as object
    }

    ghost function Footprint(): set<object>
      reads byFact, byDemand, supports
    {
      {this, supports, supports.entries, byFact, byFact.entries, byDemand, byDemand.entries, inlineSupports, supportOwners}
    }

    ghost predicate TablesOk()
      reads byFact, byFact.entries, byDemand, byDemand.entries, supports, supports.entries, inlineSupports, supportOwners
    {
      && Apart()
      && supports.Valid() && byFact.Valid() && byDemand.Valid() && inlineSupports.Valid() && supportOwners.Valid()
      && BucketsOk(supports.Contents()) && BucketsOk(byFact.Contents()) && BucketsOk(byDemand.Contents())
    }

    ghost predicate RecordsOk()
      reads `records, `ownerRecords
    {
      SplitByOwner(RecordsOf(records), RecordsOf(ownerRecords))
    }

    ghost predicate Valid()
      reads this, byFact, byFact.entries, byDemand, byDemand.entries, supports, supports.entries, inlineSupports, supportOwners
    {
      && TablesOk() && RecordsOk()
      && (cascade.Some? ==> cascade.value.Ok())
    }

    /** What the store holds. */
    ghost function Abs(): State
      requires Valid()
      reads this, byFact, byFact.entries, byDemand, byDemand.entries, supports, supports.entries, inlineSupports, supportOwners
    {
      State(Merged(RecordsOf(records), RecordsOf(ownerRecords)),
            ListsOf(supports.Contents()), inlineSupports.Contents(), supportOwners.Contents(),
            ListsOf(byFact.Contents()), ListsOf(byDemand.Contents()), free, next)
    }

    constructor (h: Hashing, order: (Option<Record>, Option<Record>) -> (SupportId, SupportId) -> bool)
      ensures Valid() && fresh(Footprint()) && Abs() == EMPTY && facts == {} && cascade == None
      ensures hashing == h
    {
      hide *;
      hashing, less := h, order;
      supports := new Table<SupportKey, Bucket>((k: SupportKey) => k.supportHash + k.slotHash);
      byFact := new Table<FactId, Bucket>((f: FactId) => f);
      byDemand := new Table<FactId, Bucket>((f: FactId) => f);
      inlineSupports := new SlotIndex<InlineKey, InlineEntry>();
      supportOwners := new SlotIndex<Owner, SupportId>();
      records, ownerRecords, free, next := [], [], [], 0;
      facts, cascade := {}, None;
      new;
      EmptyStore();
    }

    lemma EmptyStore()
      requires byFact != byDemand && byFact.entries != byDemand.entries
      requires supports.entries as object != byFact.entries && supports.entries as object != byDemand.entries
      requires supports.Blank() && byFact.Blank() && byDemand.Blank() && inlineSupports.Blank() && supportOwners.Blank()
      requires records == ownerRecords == [] && free == [] && next == 0 && cascade.None?
      ensures Valid() && Abs() == EMPTY
      ensures Footprint() == {this, supports, supports.entries, byFact, byFact.entries, byDemand, byDemand.entries, inlineSupports, supportOwners}
    {
      hide Table.Valid, Table.Contents, SlotIndex.Valid, SlotIndex.Contents;
    }

    // ----- Adding -----------------------------------------------------------------------

    method ReserveReverse()
      requires Valid()
      modifies byFact, byFact.entries, byDemand, byDemand.entries
      ensures Valid() && Abs() == old(Abs()) && fresh(Footprint() - old(Footprint()))
    {
      hide Table.Valid, Table.Contents, SlotIndex.Valid, SlotIndex.Contents;
      byFact.Reserve(4);
      byDemand.Reserve(4);
    }

    /** The last freed id if there is one, else a new one. */
    method NextId() returns (id: SupportId)
      requires Valid() && Consistent(Abs())
      modifies `free, `next
      ensures Valid() && Abs() == Allocated(old(Abs())) && id == FreshId(old(Abs())) && id > 0
    {
      hide TablesOk, Table.Contents, SlotIndex.Contents, Consistent, RecordsOf, ListsOf, Merged;
      AllocatedConsistent(Abs());
      if |free| > 0 {
        id := free[|free| - 1];
        free := free[..|free| - 1];
        return;
      }
      next := next + 1;
      id := next;
    }

    method ListFact(f: FactId, id: SupportId)
      requires Valid() && id > 0
      modifies byFact, byFact.entries
      ensures Valid() && Abs() == old(Abs()).(byFact := AddListed(old(Abs()).byFact, f, id))
      ensures fresh(byFact.entries) || byFact.entries == old(byFact.entries)
    {
      hide Table.Valid, Table.Contents, SlotIndex.Valid, SlotIndex.Contents, BucketsOk, ListsOf, AddListed;
      ListAdd(byFact, f, id);
    }

    method ListFacts(support: seq<SupportFact>, id: SupportId)
      requires Valid() && id > 0
      modifies byFact, byFact.entries
      ensures Valid() && Abs() == old(Abs()).(byFact := AddFacts(old(Abs()).byFact, support, id))
      ensures fresh(byFact.entries) || byFact.entries == old(byFact.entries)
    {
      hide TablesOk, RecordsOk, AddListed;
      ghost var before := Abs();
      assert support[..0] == [];
      for i := 0 to |support|
        invariant Valid() && Abs() == before.(byFact := AddFacts(before.byFact, support[..i], id))
        invariant fresh(byFact.entries) || byFact.entries == old(byFact.entries)
      {
        ListFact(support[i].id, id);
        assert support[..i + 1][..i] == support[..i];
      }
      assert support[..|support|] == support;
    }

    method ListDemand(d: FactId, id: SupportId)
      requires Valid() && id > 0
      modifies byDemand, byDemand.entries
      ensures Valid() && Abs() == old(Abs()).(byDemand := AddListed(old(Abs()).byDemand, d, id))
      ensures fresh(byDemand.entries) || byDemand.entries == old(byDemand.entries)
    {
      hide Table.Valid, Table.Contents, SlotIndex.Valid, SlotIndex.Contents, BucketsOk, ListsOf, AddListed;
      ListAdd(byDemand, d, id);
    }

    method ReserveSupports()
      requires Valid()
      modifies supports, supports.entries
      ensures Valid() && Abs() == old(Abs()) && fresh(Footprint() - old(Footprint()))
    {
      hide Table.Valid, Table.Contents, SlotIndex.Valid, SlotIndex.Contents, RecordsOf, Merged;
      supports.Reserve(4);
    }

    method KeyBucket(key: SupportKey) returns (b: Bucket)
      requires Valid()
      ensures Ids(b) == Listed(Abs().byKey, key)
    {
      b := BucketAt(supports, key);
    }

    method ListKey(key: SupportKey, id: SupportId)
      requires Valid() && id > 0
      modifies supports, supports.entries
      ensures Valid() && Abs() == old(Abs()).(byKey := AddListed(old(Abs()).byKey, key, id))
      ensures fresh(supports.entries) || supports.entries == old(supports.entries)
    {
      hide Table.Valid, Table.Contents, SlotIndex.Valid, SlotIndex.Contents, BucketsOk, ListsOf, AddListed, RecordsOf, Merged;
      ListAdd(supports, key, id);
    }

    method OwnedId(owner: Owner) returns (r: Option<SupportId>)
      requires Valid()
      ensures r == if owner in Abs().byOwner then Some(Abs().byOwner[owner]) else None
    {
      hide SlotIndex.Contents;
      r := supportOwners.Get(owner);
    }

    method SetOwner(owner: Owner, id: SupportId)
      requires Valid()
      modifies supportOwners
      ensures Valid() && Abs() == old(Abs()).(byOwner := old(Abs()).byOwner[owner := id])
    {
      hide Table.Valid, Table.Contents, SlotIndex.Valid, SlotIndex.Contents, BucketsOk, ListsOf, RecordsOf, Merged;
      supportOwners.Set(owner, id);
    }

    method InlineAt(key: InlineKey) returns (r: Option<InlineEntry>)
      requires Valid()
      ensures r == if key in Abs().inlineIndex then Some(Abs().inlineIndex[key]) else None
    {
      hide SlotIndex.Contents;
      r := inlineSupports.Get(key);
    }

    method SetInline(key: InlineKey, e: InlineEntry)
      requires Valid()
      modifies inlineSupports
      ensures Valid() && Abs() == old(Abs()).(inlineIndex := old(Abs()).inlineIndex[key := e])
    {
      hide Table.Valid, Table.Contents, SlotIndex.Valid, SlotIndex.Contents, BucketsOk, ListsOf, RecordsOf, Merged;
      inlineSupports.Set(key, e);
    }

    method PutRecord(id: SupportId, r: Record)
      requires Valid() && id > 0 && id !in Abs().records
      modifies `records, `ownerRecords
      ensures Valid() && Abs() == old(Abs()).(records := old(Abs()).records[id := r])
    {
      hide TablesOk, Table.Contents, SlotIndex.Contents, ListsOf, Merged, RecordsOf;
      ghost var a, b := RecordsOf(records), RecordsOf(ownerRecords);
      assert id !in a && id !in b;
      if r.kind.Owned? {
        ownerRecords := StoreRecord(ownerRecords, id, r);
        PutRight(a, b, id, r);
      } else {
        records := StoreRecord(records, id, r);
        PutLeft(a, b, id, r);
      }
    }

    /** Stores a new record under a fresh id and lists it under its facts and its demand. */
    method StoreNew(r: Record) returns (id: SupportId)
      requires Valid() && Consistent(Abs())
      modifies this, byFact, byFact.entries, byDemand, byDemand.entries
      ensures Valid() && id == FreshId(old(Abs())) && id > 0
      ensures var s := Allocated(old(Abs()));
              Abs() == s.(records := s.records[id := r], byFact := AddFacts(s.byFact, r.facts, id),
                          byDemand := AddListed(s.byDemand, r.demand, id))
      ensures fresh(Footprint() - old(Footprint()))
      ensures facts == old(facts) && cascade == old(cascade)
    {
      hide Valid, Abs, AddListed, AddFacts, Consistent, Allocated, FreshId;
      AllocatedConsistent(Abs());
      id := NextId();
      PutRecord(id, r);
      ListFacts(r.facts, id);
      ListDemand(r.demand, id);
    }

    /** The first id of the list whose record stands for the request. */
    method FindId(ids: seq<SupportId>, kind: Kind, support: seq<SupportFact>) returns (found: Option<SupportId>)
      requires Valid() && kind.Keyed?
      ensures found == FindKeyed(Abs(), ids, kind, support)
    {
      found := None;
      assert ids[0..] == ids;
      for i := 0 to |ids|
        invariant found.None? ==> FindKeyed(Abs(), ids[i..], kind, support) == FindKeyed(Abs(), ids, kind, support)
        invariant found.Some? ==> found == FindKeyed(Abs(), ids, kind, support)
      {
        assert ids[i..][0] == ids[i] && ids[i..][1..] == ids[i + 1..];
        PlainRecord(ids[i]);
        var r := RecordIn(records, ids[i]);
        if found.None? && r.Some? && SameKeyed(r.value, kind, support) { found := Some(ids[i]); }
      }
    }

    /** A record that is not owned is found among the first records. */
    lemma PlainRecord(id: SupportId)
      requires Valid()
      ensures RecordIn(records, id).Some? ==> id in Abs().records && Abs().records[id] == RecordIn(records, id).value
                                              && !Abs().records[id].kind.Owned?
      ensures RecordIn(records, id).None? && id in Abs().records ==> Abs().records[id].kind.Owned?
      ensures RecordIn(ownerRecords, id).Some? ==> id in Abs().records && Abs().records[id] == RecordIn(ownerRecords, id).value
                                                   && Abs().records[id].kind.Owned?
      ensures RecordIn(ownerRecords, id).None? && RecordIn(records, id).None? ==> id !in Abs().records
    {
      hide TablesOk, ListsOf, Table.Contents, SlotIndex.Contents;
    }

    /** Records that the demand fact is supported as requested, unless that is already stored. */
    method AddSupport(demand: FactId, q: Request) returns (id: SupportId)
      requires Valid() && Consistent(Abs())
      modifies Footprint()
      ensures Valid() && Consistent(Abs()) && fresh(Footprint() - old(Footprint()))
      ensures (Abs(), id) == Added(old(Abs()), hashing, demand, q)
      ensures facts == old(facts) && cascade == old(cascade)
      ensures Holds(q.owner) && demand != 0 && q.facts != [] ==>
                id in Abs().records && Abs().records[id].kind == Owned(q.owner) && q.owner in Abs().byOwner && Abs().byOwner[q.owner] == id
    {
      hide Valid, Abs, Consistent, AddListed, AddFacts, Allocated, FreshId, FindKeyed;
      AddedConsistent(Abs(), hashing, demand, q);
      if Holds(q.owner) && demand != 0 && q.facts != [] { OwnerAdded(Abs(), hashing, demand, q); }
      if demand == 0 || |q.facts| == 0 { return 0; }
      if !q.owner.IsZero() {
        id := AddOwnerSupport(demand, q);
        return;
      }
      if q.template != "" && |q.facts| == 1 && |q.slots| <= INLINE_LIMIT {
        id := AddInlineSupport(demand, q, InlineKey(q.template, q.facts[0], q.slots));
        return;
      }
      if q.template == "" { return 0; }
      id := AddKeyedSupport(demand, q, KeyOf(hashing, q));
    }

    method AddKeyedSupport(demand: FactId, q: Request, key: SupportKey) returns (id: SupportId)
      requires Valid() && Consistent(Abs())
      modifies Footprint()
      ensures Valid() && fresh(Footprint() - old(Footprint()))
      ensures (Abs(), id) == AddedAs(old(Abs()), Keyed(key, q.slots), demand, q.facts)
      ensures facts == old(facts) && cascade == old(cascade)
    {
      hide Valid, Abs, Consistent, Insert, Allocated, FreshId, FindKeyed;
      var found := KeyedId(key, q);
      if found.Some? { return found.value; }
      id := StoreKeyed(demand, q, key);
    }

    /** Makes room, and looks the support up in full in the bucket of its key. */
    method KeyedId(key: SupportKey, q: Request) returns (found: Option<SupportId>)
      requires Valid() && Consistent(Abs())
      modifies supports, supports.entries, byFact, byFact.entries, byDemand, byDemand.entries
      ensures Valid() && Abs() == old(Abs()) && fresh(Footprint() - old(Footprint()))
      ensures found == Existing(Abs(), Keyed(key, q.slots), q.facts)
    {
      hide Valid, Abs, Consistent, FindKeyed;
      ReserveSupports();
      ReserveReverse();
      var bucket := KeyBucket(key);
      found := FindId(Ids(bucket), Keyed(key, q.slots), q.facts);
    }

    /** A new record, listed under its key as well. */
    method StoreKeyed(demand: FactId, q: Request, key: SupportKey) returns (id: SupportId)
      requires Valid() && Consistent(Abs())
      modifies this, byFact, byFact.entries, byDemand, byDemand.entries, supports, supports.entries
      ensures Valid() && fresh(Footprint() - old(Footprint()))
      ensures id == FreshId(old(Abs())) && Abs() == Insert(Allocated(old(Abs())), id, Record(Keyed(key, q.slots), demand, q.facts))
      ensures facts == old(facts) && cascade == old(cascade)
    {
      hide Valid, Abs, Consistent, AddListed, AddFacts, Allocated, FreshId;
      id := StoreNew(Record(Keyed(key, q.slots), demand, q.facts));
      ListKey(key, id);
    }

    method AddOwnerSupport(demand: FactId, q: Request) returns (id: SupportId)
      requires Valid() && Consistent(Abs())
      modifies Footprint()
      ensures Valid() && fresh(Footprint() - old(Footprint()))
      ensures (Abs(), id) == AddedAs(old(Abs()), Owned(q.owner), demand, q.facts)
      ensures facts == old(facts) && cascade == old(cascade)
    {
      hide Valid, Abs, Consistent, AddListed, AddFacts, Allocated, FreshId, FindKeyed;
      var existing := OwnedId(q.owner);
      if existing.Some? { return existing.value; }
      ReserveReverse();
      id := StoreNew(Record(Owned(q.owner), demand, q.facts));
      SetOwner(q.owner, id);
    }

    method AddInlineSupport(demand: FactId, q: Request, key: InlineKey) returns (id: SupportId)
      requires Valid() && Consistent(Abs()) && q.facts == [key.support]
      modifies Footprint()
      ensures Valid() && fresh(Footprint() - old(Footprint()))
      ensures (Abs(), id) == AddedAs(old(Abs()), Inline(key), demand, q.facts)
      ensures facts == old(facts) && cascade == old(cascade)
    {
      hide Valid, Abs, Consistent, AddListed, AddFacts, Allocated, FreshId, FindKeyed;
      var existing := InlineAt(key);
      if existing.Some? { return existing.value.id; }
      ReserveReverse();
      id := StoreNew(Record(Inline(key), demand, q.facts));
      SetInline(key, InlineEntry(id, demand, key.support));
    }

    // ----- Taking records out --------------------------------------------------------

    method UnlistFact(f: FactId, id: SupportId)
      requires Valid()
      modifies byFact, byFact.entries
      ensures Valid() && Abs() == old(Abs()).(byFact := RemoveListed(old(Abs()).byFact, f, id))
      ensures fresh(byFact.entries) || byFact.entries == old(byFact.entries)
    {
      hide Table.Valid, Table.Contents, SlotIndex.Valid, SlotIndex.Contents, BucketsOk, ListsOf, RemoveListed, RecordsOf, Merged;
      ListRemove(byFact, f, id);
    }

    method UnlistFacts(support: seq<SupportFact>, id: SupportId)
      requires Valid()
      modifies byFact, byFact.entries
      ensures Valid() && Abs() == old(Abs()).(byFact := RemoveFacts(old(Abs()).byFact, support, id))
      ensures fresh(byFact.entries) || byFact.entries == old(byFact.entries)
    {
      hide Valid, Abs, RemoveListed;
      ghost var before := Abs();
      assert support[..0] == [];
      for i := 0 to |support|
        invariant Valid() && Abs() == before.(byFact := RemoveFacts(before.byFact, support[..i], id))
        invariant fresh(byFact.entries) || byFact.entries == old(byFact.entries)
      {
        UnlistFact(support[i].id, id);
        assert support[..i + 1][..i] == support[..i];
      }
      assert support[..|support|] == support;
    }

    method UnlistKey(key: SupportKey, id: SupportId)
      requires Valid()
      modifies supports, supports.entries
      ensures Valid() && Abs() == old(Abs()).(byKey := RemoveListed(old(Abs()).byKey, key, id))
      ensures fresh(supports.entries) || supports.entries == old(supports.entries)
    {
      hide Table.Valid, Table.Contents, SlotIndex.Valid, SlotIndex.Contents, BucketsOk, ListsOf, RemoveListed, RecordsOf, Merged;
      ListRemove(supports, key, id);
    }

    method DeleteInline(key: InlineKey)
      requires Valid()
      modifies inlineSupports
      ensures Valid() && Abs() == old(Abs()).(inlineIndex := old(Abs()).inlineIndex - {key})
    {
      hide Table.Valid, Table.Contents, SlotIndex.Valid, SlotIndex.Contents, BucketsOk, ListsOf, RecordsOf, Merged;
      inlineSupports.Delete(key);
    }

    method DeleteOwner(owner: Owner, id: SupportId)
      requires Valid()
      modifies supportOwners
      ensures Valid()
      ensures var was := old(Abs()).byOwner;
              Abs() == old(Abs()).(byOwner := if owner in was && was[owner] == id then was - {owner} else was)
    {
      hide Table.Valid, Table.Contents, SlotIndex.Valid, SlotIndex.Contents, BucketsOk, ListsOf, RecordsOf, Merged;
      supportOwners.DeleteIfEqual(owner, id);
    }

    /** Forgets a live record and frees its id. */
    method ClearRecord(id: SupportId)
      requires Valid() && id in Abs().records
      modifies `records, `ownerRecords, `free
      ensures Valid()
      ensures Abs() == old(Abs()).(records := old(Abs()).records - {id}, free := old(Abs()).free + [id])
    {
      hide TablesOk, Consistent, Table.Valid, SlotIndex.Valid, BucketsOk, HasRecord, Table.Contents, SlotIndex.Contents, ListsOf, RecordsOf, Merged, SplitByOwner;
      PlainRecord(id);
      ghost var a, b := RecordsOf(records), RecordsOf(ownerRecords);
      SplitWithout(a, b, id);
      records, ownerRecords := WithoutRecord(records, ownerRecords, id);
      MergedWithout(a, b, id);
      free := free + [id];
    }

    method DemandBucket(d: FactId) returns (b: Bucket)
      requires Valid()
      ensures BucketOk(b) && DistinctIds(Ids(b)) && Ids(b) == Listed(Abs().byDemand, d)
    {
      b := BucketAt(byDemand, d);
    }

    method SetDemandBucket(d: FactId, b: Bucket)
      requires Valid() && BucketOk(b) && DistinctIds(Ids(b))
      modifies byDemand, byDemand.entries
      ensures Valid() && Abs() == old(Abs()).(byDemand := old(Abs()).byDemand[d := Ids(b)])
      ensures fresh(byDemand.entries) || byDemand.entries == old(byDemand.entries)
    {
      hide Table.Valid, Table.Contents, SlotIndex.Valid, SlotIndex.Contents, BucketsOk, ListsOf, RecordsOf, Merged;
      ListsOfSet(byDemand.Contents(), d, b);
      byDemand.Set(d, b);
    }

    method DeleteDemandBucket(d: FactId)
      requires Valid()
      modifies byDemand, byDemand.entries
      ensures Valid() && Abs() == old(Abs()).(byDemand := old(Abs()).byDemand - {d})
      ensures fresh(byDemand.entries) || byDemand.entries == old(byDemand.entries)
    {
      hide Table.Valid, Table.Contents, SlotIndex.Valid, SlotIndex.Contents, BucketsOk, ListsOf, RecordsOf, Merged;
      ListsOfDelete(byDemand.Contents(), d);
      byDemand.Delete(d);
    }

    // ----- The removal cascade ----------------------------------------------------------

    /** What is still queued, when a cascade is under way. */
    ghost function Queue(): seq<FactId>
      reads `cascade
    {
      if cascade.Some? && cascade.value.Ok() then cascade.value.Queue() else []
    }

    /** Removes a record; a demand fact that loses its last support goes too, at once or, inside a cascade, later. */
    method RemoveId(id: SupportId)
      requires Valid() && Consistent(Abs())
      modifies Footprint()
      ensures Valid() && Consistent(Abs()) && fresh(Footprint() - old(Footprint()))
      ensures cascade.Some? == old(cascade).Some?
      ensures cascade.Some? ==>
                && Abs() == Removed(old(Abs()), id) && facts == old(facts)
                && Queue() == old(Queue()) + Woken(old(Abs()), old(facts), id)
      ensures cascade.None? ==> Cascaded(old(Abs()), old(facts), {id}, Abs(), facts)
      decreases if cascade.Some? then 0 else 1, 4
    {
      hide Valid, Abs, Queue, Consistent, RemoveFacts, RemoveListed, Cascaded;
      RemovedConsistent(Abs(), id);
      PlainRecord(id);
      var r := RecordIn(records, id);
      if r.None? {
        var o := RecordIn(ownerRecords, id);
        if o.Some? {
          RemoveOwned(id, o.value);
        } else if cascade.None? {
          CascadeNothing(Abs(), facts, id);
        }
        return;
      }
      ghost var before := Abs();
      ClearRecord(id);
      if r.value.kind.Inline? {
        DeleteInline(r.value.kind.inlineKey);
      } else {
        UnlistKey(r.value.kind.key, id);
      }
      UnlistFacts(r.value.facts, id);
      RemoveFromDemand(r.value.demand, id, before);
    }

    method RemoveOwned(id: SupportId, r: Record)
      requires Valid() && Consistent(Abs()) && id in Abs().records && Abs().records[id] == r && r.kind.Owned?
      modifies Footprint()
      ensures Valid() && Consistent(Abs()) && fresh(Footprint() - old(Footprint()))
      ensures cascade.Some? == old(cascade).Some?
      ensures cascade.Some? ==>
                && Abs() == Removed(old(Abs()), id) && facts == old(facts)
                && Queue() == old(Queue()) + Woken(old(Abs()), old(facts), id)
      ensures cascade.None? ==> Cascaded(old(Abs()), old(facts), {id}, Abs(), facts)
      decreases if cascade.Some? then 0 else 1, 3
    {
      hide Valid, Abs, Queue, Consistent, RemoveFacts, RemoveListed, Cascaded;
      ghost var before := Abs();
      UnlistFacts(r.facts, id);
      DeleteOwner(r.kind.owner, id);
      ClearRecord(id);
      RemoveOwnedFromDemand(r.demand, id, before);
    }

    /** Everything but the demand's list has let go of the record. */
    ghost predicate Detached(before: State, d: FactId, id: SupportId)
      requires Valid()
      reads this, byFact, byFact.entries, byDemand, byDemand.entries, supports, supports.entries, inlineSupports, supportOwners
    {
      && Consistent(before) && id in before.records && before.records[id].demand == d
      && Abs() == Removed(before, id).(byDemand := before.byDemand)
    }

    /** The common case first: the record was the demand's only support. */
    method RemoveOwnedFromDemand(d: FactId, id: SupportId, ghost before: State)
      requires Valid() && Detached(before, d, id)
      modifies Footprint()
      ensures Valid() && Consistent(Abs()) && fresh(Footprint() - old(Footprint()))
      ensures cascade.Some? == old(cascade).Some?
      ensures cascade.Some? ==>
                && Abs() == Removed(before, id) && facts == old(facts)
                && Queue() == old(Queue()) + Woken(before, old(facts), id)
      ensures cascade.None? ==> Cascaded(before, old(facts), {id}, Abs(), facts)
      decreases if cascade.Some? then 0 else 1, 2
    {
      hide Valid, Abs, Queue, Consistent, Cascaded, Removed, Woken, SupportIndexes.RemoveId;
      RemovedConsistent(before, id);
      DetachDemand(before, Abs(), facts, id);
      var bucket := DemandBucket(d);
      BucketObservers(bucket, id);
      var single := BucketSingle(bucket);
      if single != Some(id) {
        RemoveFromDemand(d, id, before);
        return;
      }
      RemoveOnly(Ids(bucket), id);
      DeleteDemandBucket(d);
      if d !in facts {
        if cascade.None? { CascadeQuiet(before, facts, id); }
        return;
      }
      RemoveFactAndDependents(d, id, before);
    }

    method RemoveFromDemand(d: FactId, id: SupportId, ghost before: State)
      requires Valid() && Detached(before, d, id)
      modifies Footprint()
      ensures Valid() && Consistent(Abs()) && fresh(Footprint() - old(Footprint()))
      ensures cascade.Some? == old(cascade).Some?
      ensures cascade.Some? ==>
                && Abs() == Removed(before, id) && facts == old(facts)
                && Queue() == old(Queue()) + Woken(before, old(facts), id)
      ensures cascade.None? ==> Cascaded(before, old(facts), {id}, Abs(), facts)
      decreases if cascade.Some? then 0 else 1, 1
    {
      hide Valid, Abs, Queue, Consistent, Cascaded, Removed, Woken, SupportIndexes.RemoveId;
      RemovedConsistent(before, id);
      DetachDemand(before, Abs(), facts, id);
      var bucket := DemandBucket(d);
      RemoveIdIsSetRemove(Ids(bucket), id);
      var rest, _ := BucketRemove(bucket, id);
      BucketObservers(rest, id);
      if !BucketEmpty(rest) {
        SetDemandBucket(d, rest);
        if cascade.None? { CascadeQuiet(before, facts, id); }
        return;
      }
      DeleteDemandBucket(d);
      if d !in facts {
        if cascade.None? { CascadeQuiet(before, facts, id); }
        return;
      }
      RemoveFactAndDependents(d, id, before);
    }

    method Enqueue(d: FactId)
      requires Valid() && cascade.Some?
      modifies `cascade
      ensures Valid() && Abs() == old(Abs()) && cascade.Some? && Queue() == old(Queue()) + [d]
    {
      hide TablesOk, RecordsOk, RecordsOf, Merged, ListsOf, Table.Contents, SlotIndex.Contents;
      cascade := Some(cascade.value.(pending := cascade.value.pending + [d]));
    }

    method Begin(d: FactId)
      requires Valid()
      modifies `cascade
      ensures Valid() && Abs() == old(Abs()) && cascade.Some? && Queue() == [d]
    {
      hide TablesOk, RecordsOk, RecordsOf, Merged, ListsOf, Table.Contents, SlotIndex.Contents;
      cascade := Some(Cascade([d], 0));
    }

    /** Takes the next fact and blanks its place. */
    method Dequeue() returns (f: FactId)
      requires Valid() && cascade.Some? && cascade.value.head < |cascade.value.pending|
      modifies `cascade
      ensures Valid() && Abs() == old(Abs()) && cascade.Some? && [f] + Queue() == old(Queue())
    {
      hide TablesOk, RecordsOk, RecordsOf, Merged, ListsOf, Table.Contents, SlotIndex.Contents;
      var c := cascade.value;
      f := c.pending[c.head];
      cascade := Some(Cascade(c.pending[c.head := 0], c.head + 1));
    }

    /** Drops the places already passed once they are many; what is queued stays. */
    method Compact()
      requires Valid() && cascade.Some?
      modifies `cascade
      ensures Valid() && Abs() == old(Abs()) && cascade.Some? && Queue() == old(Queue())
    {
      hide TablesOk, RecordsOk, RecordsOf, Merged, ListsOf, Table.Contents, SlotIndex.Contents;
      var c := cascade.value;
      if c.head >= COMPACT_AT && c.head * 2 >= |c.pending| {
        cascade := Some(Cascade(c.pending[c.head..], 0));
      }
    }

    method End()
      requires Valid()
      modifies `cascade
      ensures Valid() && Abs() == old(Abs()) && cascade.None?
    {
      hide TablesOk, RecordsOk, RecordsOf, Merged, ListsOf, Table.Contents, SlotIndex.Contents;
      cascade := None;
    }

    lemma QueueEmpty()
      requires Valid() && cascade.Some?
      ensures cascade.value.head < |cascade.value.pending| <==> Queue() != []
    {
    }

    method EnterMemory(f: FactId)
      requires Valid()
      modifies `facts
      ensures Valid() && Abs() == old(Abs()) && facts == old(facts) + {f} && cascade == old(cascade)
    {
      facts := facts + {f};
    }

    method LeaveMemory(f: FactId)
      requires Valid()
      modifies `facts
      ensures Valid() && Abs() == old(Abs()) && Queue() == old(Queue()) && facts == old(facts) - {f}
    {
      hide TablesOk, RecordsOk, RecordsOf, Merged, ListsOf, Table.Contents, SlotIndex.Contents;
      facts := facts - {f};
    }

    /** Queues the fact in the cascade under way, or runs a new cascade to its end. */
    method RemoveFactAndDependents(d: FactId, ghost id: SupportId, ghost before: State)
      requires Valid() && Consistent(before) && Consistent(Abs()) && Abs() == Removed(before, id) && Woken(before, facts, id) == [d]
      modifies Footprint()
      ensures Valid() && Consistent(Abs()) && fresh(Footprint() - old(Footprint()))
      ensures cascade.Some? == old(cascade).Some?
      ensures cascade.Some? ==> Abs() == Removed(before, id) && facts == old(facts) && Queue() == old(Queue()) + [d]
      ensures cascade.None? ==> Cascaded(before, old(facts), {id}, Abs(), facts)
      decreases if cascade.Some? then 0 else 1, 0
    {
      hide Valid, Abs, Queue, Consistent, Cascaded, Underway, Removed, Woken;
      if cascade.Some? {
        Enqueue(d);
        return;
      }
      ghost var was := facts;
      UnderwayAfterFirst(before, facts, id);
      WokenNotZero(before, facts, id);
      Begin(d);
      QueueEmpty();
      while cascade.value.head < |cascade.value.pending|
        invariant Valid() && Consistent(Abs()) && fresh(Footprint() - old(Footprint()))
        invariant cascade.Some? && Underway(before, was, {id}, Abs(), facts, Queue(), {}) && 0 !in Queue()
        invariant cascade.value.head < |cascade.value.pending| <==> Queue() != []
        decreases 2 * |Abs().records| + |Queue()|
      {
        RemoveNext(before, was, {id});
        QueueEmpty();
      }
      UnderwayDone(before, was, {id}, Abs(), facts);
      End();
    }

    /** Takes the next fact out of memory and removes every record that rests on it; then tidies the queue. */
    method RemoveNext(ghost before: State, ghost was: set<FactId>, ghost seeds: set<SupportId>)
      requires Valid() && Consistent(Abs()) && cascade.Some? && cascade.value.head < |cascade.value.pending|
      requires Underway(before, was, seeds, Abs(), facts, Queue(), {}) && 0 !in Queue()
      modifies Footprint()
      ensures Valid() && Consistent(Abs()) && cascade.Some? && fresh(Footprint() - old(Footprint()))
      ensures Underway(before, was, seeds, Abs(), facts, Queue(), {}) && 0 !in Queue()
      ensures 2 * |Abs().records| + |Queue()| < old(2 * |Abs().records| + |Queue()|)
      decreases 0, 7
    {
      hide Valid, Abs, Queue, Consistent, Cascaded, Underway, Removed, Woken;
      QueueEmpty();
      ghost var s, left, queue := Abs(), facts, Queue();
      UnderwayPop(before, was, seeds, s, left, queue);
      var f := Dequeue();
      assert f == queue[0] && Queue() == queue[1..];
      var ids := RemoveFactNow(f);
      ghost var todo := set id | id in s.records && RestsOn(s.records, id, f);
      UnderwayRemoveAll(before, was, seeds, s, left - {f}, queue[1..], todo, ids);
      assert todo - IdSet(ids) == {};
      RemovedAllShrinks(s, left - {f}, ids);
      WokenAllNotZero(s, left - {f}, ids);
      Compact();
    }

    method RemoveFactNow(f: FactId) returns (ghost ids: seq<SupportId>)
      requires Valid() && Consistent(Abs()) && cascade.Some? && f != 0
      modifies Footprint()
      ensures Valid() && Consistent(Abs()) && cascade.Some? && fresh(Footprint() - old(Footprint()))
      ensures facts == old(facts) - {f}
      ensures forall id :: id in ids <==> RestsOn(old(Abs()).records, id, f)
      ensures Abs() == RemovedAll(old(Abs()), ids) && Queue() == old(Queue()) + WokenAll(old(Abs()), facts, ids)
      decreases 0, 6
    {
      hide Valid, Abs, Queue, Consistent, Cascaded, Underway, Removed, Woken;
      if f in facts { LeaveMemory(f); }
      assert facts == old(facts) - {f};
      ids := RemoveSupportsForFact(f, None);
      AffectedByAnyVersion(old(Abs()).records, f);
    }

    /** Removes every record that rests on the fact, or on that version of it. */
    method RemoveSupportsForFact(f: FactId, version: Option<nat>) returns (ghost ids: seq<SupportId>)
      requires Valid() && Consistent(Abs())
      modifies Footprint()
      ensures Valid() && Consistent(Abs()) && fresh(Footprint() - old(Footprint()))
      ensures cascade.Some? == old(cascade).Some?
      ensures forall id :: id in ids <==> f != 0 && Affected(old(Abs()).records, id, f, version)
      ensures cascade.Some? ==>
                && Abs() == RemovedAll(old(Abs()), ids) && facts == old(facts)
                && Queue() == old(Queue()) + WokenAll(old(Abs()), facts, ids)
      ensures cascade.None? ==> Cascaded(old(Abs()), old(facts), IdSet(ids), Abs(), facts)
      decreases if cascade.Some? then 0 else 1, 5
    {
      hide Valid, Abs, Queue, Consistent, Cascaded, Underway, Removed, Woken, Affected, RemovedAll, WokenAll, IdSet, Sorting.Orders, Sorting.InOrder, Comparison;
      var found := AffectedIds(f, version);
      var order := SortIds(found, Comparison());
      ids := order;
      ghost var before, was, queue := Abs(), facts, Queue();
      if cascade.None? { CascadeEmpty(before, was); }
      NothingRemoved(before, was, order);
      assert queue + [] == queue;
      for i := 0 to |order|
        invariant Valid() && Consistent(Abs()) && fresh(Footprint() - old(Footprint()))
        invariant cascade.Some? == old(cascade).Some?
        invariant cascade.Some? ==>
                    && Abs() == RemovedAll(before, order[..i]) && facts == was
                    && Queue() == queue + WokenAll(before, was, order[..i])
        invariant cascade.None? ==> Cascaded(before, was, IdSet(order[..i]), Abs(), facts)
      {
        ghost var s, left := Abs(), facts;
        RemoveId(order[i]);
        NextRemoved(before, was, order, i);
        if cascade.None? {
          CascadeCompose(before, was, IdSet(order[..i]), s, left, {order[i]}, Abs(), facts);
        } else {
          assert queue + (WokenAll(before, was, order[..i]) + Woken(s, was, order[i])) == queue + WokenAll(before, was, order[..i]) + Woken(s, was, order[i]);
        }
      }
      assert order[..|order|] == order;
    }

    lemma NothingRemoved(s: State, was: set<FactId>, ids: seq<SupportId>)
      ensures RemovedAll(s, ids[..0]) == s && WokenAll(s, was, ids[..0]) == [] && IdSet(ids[..0]) == {}
    {
    }

    lemma NextRemoved(s: State, was: set<FactId>, ids: seq<SupportId>, i: nat)
      requires i < |ids|
      ensures RemovedAll(s, ids[..i + 1]) == Removed(RemovedAll(s, ids[..i]), ids[i])
      ensures WokenAll(s, was, ids[..i + 1]) == WokenAll(s, was, ids[..i]) + Woken(RemovedAll(s, ids[..i]), was, ids[i])
      ensures IdSet(ids[..i + 1]) == IdSet(ids[..i]) + {ids[i]}
    {
      hide Removed, Woken;
      assert ids[..i + 1][..i] == ids[..i] && ids[..i + 1] == ids[..i] + [ids[i]];
    }

    function Comparison(): (SupportId, SupportId) -> bool
      reads this
    {
      var order, rs, os := less, records, ownerRecords;
      (a: SupportId, b: SupportId) => order(EitherRecord(rs, os, a), EitherRecord(rs, os, b))(a, b)
    }

    /** A snapshot of the ids to remove: the cascade changes the list they come from. */
    method AffectedIds(f: FactId, version: Option<nat>) returns (ids: seq<SupportId>)
      requires Valid() && Consistent(Abs())
      ensures forall id :: id in ids <==> f != 0 && Affected(Abs().records, id, f, version)
    {
      hide Valid, Abs, Consistent, Affected, RestsOn, HasVersion, EitherRecord;
      ids := [];
      if f == 0 { return; }
      ghost var s := Abs();
      var bucket := FactBucket(f);
      var listed := Ids(bucket);
      for i := 0 to |listed|
        invariant forall id :: id in ids <==> id in listed[..i] && Affected(s.records, id, f, version)
      {
        var r := EitherRecord(records, ownerRecords, listed[i]);
        ListedRest(s, f, listed[i]);
        StoredRecord(listed[i]);
        AffectedIf(s.records, listed[i], f, version);
        if r.Some? && (version.None? || HasVersion(r.value.facts, f, version.value)) { ids := ids + [listed[i]]; }
        assert listed[..i + 1] == listed[..i] + [listed[i]];
      }
      assert listed[..|listed|] == listed;
      forall id
        ensures Affected(s.records, id, f, version) ==> id in listed
      {
        ListedRest(s, f, id);
        AffectedRests(s.records, id, f, version);
      }
    }

    lemma StoredRecord(id: SupportId)
      requires Valid()
      ensures EitherRecord(records, ownerRecords, id) == if id in Abs().records then Some(Abs().records[id]) else None
    {
      PlainRecord(id);
    }

    method FactBucket(f: FactId) returns (b: Bucket)
      requires Valid()
      ensures Ids(b) == Listed(Abs().byFact, f)
    {
      b := BucketAt(byFact, f);
    }

    // ----- Entry points --------------------------------------------------------------------

    /** Removes the record an owner holds, with all that follows. */
    method RemoveForOwner(owner: Owner)
      requires Valid() && Consistent(Abs())
      modifies Footprint()
      ensures Valid() && Consistent(Abs()) && fresh(Footprint() - old(Footprint()))
      ensures cascade.Some? == old(cascade).Some?
      ensures cascade.Some? ==>
                && Abs() == Without(old(Abs()), HeldBy(old(Abs()), owner)) && facts == old(facts)
                && Queue() == old(Queue()) + WokenWithout(old(Abs()), facts, HeldBy(old(Abs()), owner))
      ensures cascade.None? ==> Cascaded(old(Abs()), old(facts), OwnedBy(old(Abs()).records, owner), Abs(), facts)
      ensures Holds(owner) ==> NoneOf(Abs(), owner)
    {
      hide Valid, Abs, Queue, Consistent, Cascaded, Underway, Removed, Woken, NoneOf;
      if Holds(owner) { OwnerGone(Abs(), facts, owner); }
      if owner.IsZero() {
        if cascade.None? { CascadeEmpty(Abs(), facts); }
        return;
      }
      var id := OwnedId(owner);
      OwnerHolds(Abs(), owner);
      if id.None? {
        if cascade.None? { CascadeEmpty(Abs(), facts); }
        return;
      }
      var r := RecordIn(ownerRecords, id.value);
      if r.Some? {
        PlainRecord(id.value);
        RemoveOwned(id.value, r.value);
      } else {
        RemoveId(id.value);
      }
    }

    /** The first record of the fact that matches the request as stored. */
    method FindByRequest(q: Request) returns (found: Option<SupportId>)
      requires Valid() && q.facts != []
      ensures found == FindRaw(Abs(), Listed(Abs().byFact, q.facts[0].id), q)
    {
      hide Valid, Abs, RawMatch, FindRaw;
      var bucket := FactBucket(q.facts[0].id);
      var ids := Ids(bucket);
      found := None;
      assert ids[0..] == ids;
      for i := 0 to |ids|
        invariant found.None? ==> FindRaw(Abs(), ids[i..], q) == FindRaw(Abs(), ids, q)
        invariant found.Some? ==> found == FindRaw(Abs(), ids, q)
      {
        FindRawStep(Abs(), ids, i, q);
        PlainRecord(ids[i]);
        NotOwnedRaw(Abs(), ids[i], q);
        var r := RecordIn(records, ids[i]);
        if found.None? && r.Some? && RawMatch(r.value, q) { found := Some(ids[i]); }
      }
      if found.None? { NothingRaw(Abs(), ids[|ids|..], q); }
    }

    method SingleForRequest(q: Request) returns (found: Option<SupportId>)
      requires Valid()
      ensures found == Shortcut(Abs(), q)
    {
      hide Valid, Abs;
      if |q.facts| != 1 { return None; }
      var bucket := FactBucket(q.facts[0].id);
      var ids := Ids(bucket);
      if |ids| != 1 { return None; }
      PlainRecord(ids[0]);
      var r := RecordIn(records, ids[0]);
      if r.None? || !LooksRight(r.value, q) { return None; }
      found := Some(ids[0]);
    }

    /** The lookups that compare everything: by exact key, among the fact's records, by hashed key. */
    method SlowForRequest(q: Request) returns (target: Option<SupportId>)
      requires Valid() && q.facts != []
      ensures target == SlowTarget(Abs(), hashing, q)
    {
      hide Valid, Abs, FindKeyed, FindRaw;
      if q.template != "" && |q.facts| == 1 && |q.slots| <= INLINE_LIMIT {
        var entry := InlineAt(InlineKey(q.template, q.facts[0], q.slots));
        if entry.Some? { return Some(entry.value.id); }
      }
      target := FindByRequest(q);
      if target.Some? || q.template == "" { return; }
      var bucket := KeyBucket(KeyOf(hashing, q));
      target := FindId(Ids(bucket), Keyed(KeyOf(hashing, q), q.slots), q.facts);
    }

    method TargetOf(q: Request) returns (target: Option<SupportId>)
      requires Valid()
      ensures target == RequestTarget(Abs(), hashing, q)
    {
      hide Valid, Abs, SlowTarget, Shortcut;
      if |q.facts| == 0 { return None; }
      if !q.owner.IsZero() {
        target := OwnedId(q.owner);
        if target.Some? { return; }
      }
      target := SingleForRequest(q);
      if target.Some? { return; }
      target := SlowForRequest(q);
    }

    /** Removes the record the request leads to, with all that follows. */
    method RemoveForRequest(q: Request)
      requires Valid() && Consistent(Abs())
      modifies Footprint()
      ensures Valid() && Consistent(Abs()) && fresh(Footprint() - old(Footprint()))
      ensures cascade.Some? == old(cascade).Some?
      ensures cascade.Some? ==>
                && Abs() == Without(old(Abs()), RequestTarget(old(Abs()), hashing, q)) && facts == old(facts)
                && Queue() == old(Queue()) + WokenWithout(old(Abs()), facts, RequestTarget(old(Abs()), hashing, q))
      ensures cascade.None? ==>
                Cascaded(old(Abs()), old(facts), Chosen(RequestTarget(old(Abs()), hashing, q)), Abs(), facts)
    {
      hide Valid, Abs, Queue, Consistent, Cascaded, Underway, Removed, Woken, RequestTarget;
      var target := TargetOf(q);
      if target.None? {
        if cascade.None? { CascadeEmpty(Abs(), facts); }
        return;
      }
      RemoveId(target.value);
    }

    /** A fact leaves working memory together with everything that rested on it. */
    method Retract(f: FactId)
      requires Valid() && Consistent(Abs()) && cascade.None? && f != 0
      modifies Footprint()
      ensures Valid() && Consistent(Abs()) && cascade.None? && fresh(Footprint() - old(Footprint()))
      ensures Cascaded(old(Abs()), old(facts) - {f}, Resting(old(Abs()).records, f), Abs(), facts)
    {
      hide Valid, Abs, Queue, Consistent, Cascaded, Underway, Removed, Woken;
      LeaveMemory(f);
      var ids := RemoveSupportsForFact(f, None);
      AffectedByAnyVersion(old(Abs()).records, f);
      assert IdSet(ids) == Resting(old(Abs()).records, f);
    }

    method ClearForward()
      requires Valid()
      modifies supports, supports.entries, inlineSupports, supportOwners
      ensures Valid() && Abs() == old(Abs()).(byKey := map[], inlineIndex := map[], byOwner := map[])
      ensures supports.entries == old(supports.entries)
    {
      hide Table.Valid, Table.Contents, SlotIndex.Valid, SlotIndex.Contents, RecordsOf, Merged;
      supports.Clear();
      inlineSupports.Clear();
      supportOwners.Clear();
    }

    method ClearReverse()
      requires Valid()
      modifies byFact, byFact.entries, byDemand, byDemand.entries
      ensures Valid() && Abs() == old(Abs()).(byFact := map[], byDemand := map[])
      ensures byFact.entries == old(byFact.entries) && byDemand.entries == old(byDemand.entries)
    {
      hide Table.Valid, Table.Contents, SlotIndex.Valid, SlotIndex.Contents, RecordsOf, Merged;
      byFact.Clear();
      byDemand.Clear();
    }

    lemma NoRecords()
      ensures RecordsOf([]) == map[] && Merged(map[], map[]) == map[] && SplitByOwner(map[], map[])
    {
    }

    method ForgetRecords()
      requires Valid()
      modifies `records, `ownerRecords, `free, `next
      ensures Valid() && Abs() == old(Abs()).(records := map[], free := [], next := 0)
    {
      hide TablesOk, ListsOf, Table.Valid, SlotIndex.Valid, BucketsOk, Table.Contents, SlotIndex.Contents, RecordsOf, Merged, SplitByOwner;
      NoRecords();
      records, ownerRecords := [], [];
      next, free := 0, [];
    }

    method Clear()
      requires Valid()
      modifies Footprint()
      ensures Valid() && Abs() == EMPTY && facts == old(facts) && cascade == old(cascade)
      ensures fresh(Footprint() - old(Footprint()))
    {
      hide Valid, Abs;
      ClearForward();
      ForgetRecords();
      ClearReverse();
    }
  }

  function Chosen(target: Option<SupportId>): set<SupportId> {
    if target.Some? then {target.value} else {}
  }

  function Without(s: State, target: Option<SupportId>): State {
    if target.Some? then Removed(s, target.value) else s
  }

  function WokenWithout(s: State, facts: set<FactId>, target: Option<SupportId>): seq<FactId> {
    if target.Some? then Woken(s, facts, target.value) else []
  }

  lemma NothingRaw(s: State, ids: seq<SupportId>, q: Request)
    requires ids == []
    ensures FindRaw(s, ids, q) == None
  {
  }

  lemma NotOwnedRaw(s: State, id: SupportId, q: Request)
    ensures id in s.records && s.records[id].kind.Owned? ==> !RawMatch(s.records[id], q)
  {
  }

  function EitherRecord(rs: seq<Option<Record>>, os: seq<Option<Record>>, id: SupportId): Option<Record> {
    if RecordIn(rs, id).Some? then RecordIn(rs, id) else RecordIn(os, id)
  }

  predicate HasVersion(support: seq<SupportFact>, f: FactId, version: nat) {
    SupportFact(f, version) in support
  }

  /** The record rests on the fact, and on that version of it if one is given. */
  predicate Affected(records: map<SupportId, Record>, id: SupportId, f: FactId, version: Option<nat>) {
    RestsOn(records, id, f) && (version.None? || HasVersion(records[id].facts, f, version.value))
  }

  function Resting(records: map<SupportId, Record>, f: FactId): set<SupportId> {
    set id | id in records && RestsOn(records, id, f)
  }

  lemma AffectedIf(records: map<SupportId, Record>, id: SupportId, f: FactId, version: Option<nat>)
    requires RestsOn(records, id, f)
    ensures id in records
    ensures Affected(records, id, f, version) <==> version.None? || HasVersion(records[id].facts, f, version.value)
  {
  }

  lemma AffectedRests(records: map<SupportId, Record>, id: SupportId, f: FactId, version: Option<nat>)
    ensures Affected(records, id, f, version) ==> RestsOn(records, id, f)
  {
  }

  lemma AffectedByAnyVersion(records: map<SupportId, Record>, f: FactId)
    ensures forall id :: Affected(records, id, f, None) <==> RestsOn(records, id, f)
  {
  }

  lemma ListedRest(s: State, f: FactId, id: SupportId)
    requires Consistent(s)
    ensures id in Listed(s.byFact, f) <==> RestsOn(s.records, id, f)
  {
  }

  lemma OwnerHolds(s: State, owner: Owner)
    requires Consistent(s) && !owner.IsZero()
    ensures OwnedBy(s.records, owner) == if owner in s.byOwner then {s.byOwner[owner]} else {}
    ensures owner in s.byOwner ==> s.byOwner[owner] in s.records
  {
  }
}
