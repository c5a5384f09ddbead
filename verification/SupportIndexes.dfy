/**
 The small containers of the demand-support store: a bucket of ids with two inline
 slots and an overflow list, and an index with two inline pairs and an overflow map.
 */
module SupportIndexes {
  import opened Options

  /** Zero is no id. */
  type SupportId = nat

  // ----- Lists of ids -----------------------------------------------------------

  ghost predicate DistinctIds(ids: seq<SupportId>) {
    forall i, j :: 0 <= i < j < |ids| ==> ids[i] != ids[j]
  }

  function AddId(ids: seq<SupportId>, id: SupportId): seq<SupportId> {
    if id == 0 || id in ids then ids else ids + [id]
  }

  /** Removes the first occurrence. */
  function RemoveId(ids: seq<SupportId>, id: SupportId): seq<SupportId> {
    if ids == [] then []
    else if ids[0] == id then ids[1..]
    else [ids[0]] + RemoveId(ids[1..], id)
  }

  /** A duplicate-free list without zero stays one, and holds what a set would. */
  lemma AddIdIsSetInsert(ids: seq<SupportId>, id: SupportId)
    requires DistinctIds(ids) && 0 !in ids
    ensures DistinctIds(AddId(ids, id)) && 0 !in AddId(ids, id)
    ensures forall x :: x in AddId(ids, id) <==> x in ids || (x == id && id != 0)
  {
  }

  lemma {:induction false} RemoveIdIsSetRemove(ids: seq<SupportId>, id: SupportId)
    requires DistinctIds(ids)
    ensures DistinctIds(RemoveId(ids, id))
    ensures forall x :: x in RemoveId(ids, id) <==> x in ids && x != id
  {
    if ids != [] {
      assert DistinctIds(ids[1..]);
      assert forall x :: x in ids <==> x == ids[0] || x in ids[1..];
      RemoveIdIsSetRemove(ids[1..], id);
      assert ids[0] !in ids[1..];
      if ids[0] != id {
        assert ids[0] !in RemoveId(ids[1..], id);
      }
    }
  }

  lemma {:induction false} RemoveIdAbsent(ids: seq<SupportId>, id: SupportId)
    requires id !in ids
    ensures RemoveId(ids, id) == ids
  {
    if ids != [] { RemoveIdAbsent(ids[1..], id); }
  }

  lemma {:induction false} RemoveIdAt(ids: seq<SupportId>, i: nat)
    requires i < |ids| && ids[i] !in ids[..i]
    ensures RemoveId(ids, ids[i]) == ids[..i] + ids[i + 1..]
  {
    if i > 0 {
      assert ids[0] in ids[..i];
      assert ids[1..][..i - 1] == ids[..i][1..];
      RemoveIdAt(ids[1..], i - 1);
    }
  }

  lemma RemoveOnly(ids: seq<SupportId>, id: SupportId)
    requires |ids| == 1 && ids[0] == id
    ensures RemoveId(ids, id) == []
  {
  }

  // ----- Buckets ------------------------------------------------------------------

  datatype Bucket = Bucket(first: SupportId, second: SupportId, overflow: seq<SupportId>)

  const EMPTY_BUCKET := Bucket(0, 0, [])

  /** Slots fill in order: no second without a first, no overflow without a second. */
  predicate BucketOk(b: Bucket) {
    && (b.first == 0 ==> b.second == 0)
    && (b.second == 0 ==> b.overflow == [])
    && 0 !in b.overflow
  }

  function Ids(b: Bucket): seq<SupportId> {
    (if b.first != 0 then [b.first] else []) + (if b.second != 0 then [b.second] else []) + b.overflow
  }

  predicate BucketEmpty(b: Bucket) {
    b.first == 0 && b.second == 0 && b.overflow == []
  }

  predicate BucketContains(b: Bucket, id: SupportId) {
    id != 0 && (b.first == id || b.second == id || id in b.overflow)
  }

  function BucketSingle(b: Bucket): Option<SupportId> {
    if b.first == 0 || b.second != 0 || b.overflow != [] then None else Some(b.first)
  }

  lemma BucketObservers(b: Bucket, id: SupportId)
    requires BucketOk(b)
    ensures BucketEmpty(b) <==> Ids(b) == []
    ensures BucketContains(b, id) <==> id in Ids(b)
    ensures 0 !in Ids(b)
    ensures BucketSingle(b) == if |Ids(b)| == 1 then Some(Ids(b)[0]) else None
  {
  }

  /** Adds the id unless it is zero or present. */
  method BucketAdd(b: Bucket, id: SupportId) returns (r: Bucket, added: bool)
    requires BucketOk(b)
    ensures BucketOk(r) && Ids(r) == AddId(Ids(b), id)
    ensures added <==> id != 0 && id !in Ids(b)
  {
    BucketObservers(b, id);
    if id == 0 || BucketContains(b, id) { return b, false; }
    if b.first == 0 {
      r := b.(first := id);
    } else if b.second == 0 {
      r := b.(second := id);
    } else {
      r := b.(overflow := b.overflow + [id]);
      assert Ids(r) == Ids(b) + [id];
    }
    added := true;
  }

  /** Moves the head of the overflow list into a free second slot. */
  method PromoteOverflow(b: Bucket) returns (r: Bucket)
    requires b.second == 0 && 0 !in b.overflow && (b.first == 0 ==> b.overflow == [])
    ensures BucketOk(r) && r.first == b.first && Ids(r) == Ids(b)
  {
    if b.second != 0 || |b.overflow| == 0 { return b; }
    r := b.(second := b.overflow[0], overflow := b.overflow[1..]);
    assert b.overflow == [b.overflow[0]] + b.overflow[1..];
    assert Ids(r) == Ids(b);
  }

  method BucketRemove(b: Bucket, id: SupportId) returns (r: Bucket, removed: bool)
    requires BucketOk(b) && DistinctIds(Ids(b))
    ensures BucketOk(r) && Ids(r) == RemoveId(Ids(b), id)
    ensures removed <==> id in Ids(b)
  {
    BucketObservers(b, id);
    ghost var ids := Ids(b);
    if id == 0 {
      RemoveIdAbsent(ids, id);
      return b, false;
    }
    if id == b.first {
      assert ids[0] == id;
      if b.second == 0 {
        assert ids[1..] == [];
        return Bucket(0, 0, []), true;
      }
      assert ids[1..] == Ids(Bucket(b.second, 0, b.overflow));
      r := PromoteOverflow(Bucket(b.second, 0, b.overflow));
      return r, true;
    }
    if id == b.second {
      assert ids[0] == b.first && ids[1] == id;
      RemoveIdAt(ids, 1);
      assert ids[..1] + ids[2..] == [b.first] + b.overflow;
      r := PromoteOverflow(Bucket(b.first, 0, b.overflow));
      return r, true;
    }
    for i := 0 to |b.overflow|
      invariant id !in b.overflow[..i]
    {
      if b.overflow[i] == id {
        RemoveOverflow(b, i);
        return b.(overflow := b.overflow[..i] + b.overflow[i + 1..]), true;
      }
      assert b.overflow[..i + 1] == b.overflow[..i] + [b.overflow[i]];
    }
    assert b.overflow[..|b.overflow|] == b.overflow;
    RemoveIdAbsent(ids, id);
    r, removed := b, false;
  }

  lemma RemoveOverflow(b: Bucket, i: nat)
    requires BucketOk(b) && i < |b.overflow| && b.first != 0 && b.second != 0
    requires b.overflow[i] !in [b.first, b.second] + b.overflow[..i]
    ensures Ids(b.(overflow := b.overflow[..i] + b.overflow[i + 1..])) == RemoveId(Ids(b), b.overflow[i])
    ensures 0 !in b.overflow[..i] + b.overflow[i + 1..] && b.overflow[i] in Ids(b)
  {
    var ids := Ids(b);
    assert ids == [b.first, b.second] + b.overflow;
    assert ids[i + 2] == b.overflow[i] && ids[..i + 2] == [b.first, b.second] + b.overflow[..i];
    RemoveIdAt(ids, i + 2);
    assert ids[i + 3..] == b.overflow[i + 1..];
  }

  // ----- Two-slot indexes ------------------------------------------------------------

  datatype Entry<K, E> = Entry(key: K, value: E)

  /** The map of two inline pairs and the rest. */
  ghost function PairsOf<K, E>(first: Option<Entry<K, E>>, second: Option<Entry<K, E>>, overflow: map<K, E>): map<K, E> {
    overflow
    + (if second.Some? then map[second.value.key := second.value.value] else map[])
    + (if first.Some? then map[first.value.key := first.value.value] else map[])
  }

  ghost predicate KeysApart<K, E>(first: Option<Entry<K, E>>, second: Option<Entry<K, E>>, overflow: map<K, E>) {
    && (first.Some? && second.Some? ==> first.value.key != second.value.key)
    && (first.Some? ==> first.value.key !in overflow)
    && (second.Some? ==> second.value.key !in overflow)
  }

  lemma PairAt<K, E>(first: Option<Entry<K, E>>, second: Option<Entry<K, E>>, overflow: map<K, E>, key: K)
    requires KeysApart(first, second, overflow)
    ensures var m := PairsOf(first, second, overflow);
            if first.Some? && first.value.key == key then key in m && m[key] == first.value.value
            else if second.Some? && second.value.key == key then key in m && m[key] == second.value.value
            else if key in overflow then key in m && m[key] == overflow[key]
            else key !in m
  {
  }

  /** Taking a pair out of its place takes its key out of the map. */
  lemma PairsWithout<K, E>(first: Option<Entry<K, E>>, second: Option<Entry<K, E>>, overflow: map<K, E>, key: K)
    requires KeysApart(first, second, overflow)
    ensures var m := PairsOf(first, second, overflow) - {key};
            if first.Some? && first.value.key == key then PairsOf(second, None, overflow) == m
            else if second.Some? && second.value.key == key then PairsOf(first, None, overflow) == m
            else PairsOf(first, second, overflow - {key}) == m
  {
    var m := PairsOf(first, second, overflow) - {key};
    if first.Some? && first.value.key == key {
      assert PairsOf(second, None, overflow) == m;
    } else if second.Some? && second.value.key == key {
      assert PairsOf(first, None, overflow) == m;
    } else {
      assert PairsOf(first, second, overflow - {key}) == m;
    }
  }

  /** An index that keeps two pairs inline and the rest in a map. */
  class SlotIndex<K(==), E(==)> {
    var first: Option<Entry<K, E>>
    var second: Option<Entry<K, E>>
    var overflow: map<K, E>

    ghost predicate Valid()
      reads this
    {
      && (first.None? ==> second.None?)
      && (second.None? ==> overflow == map[])
      && KeysApart(first, second, overflow)
    }

    /** The finite map the index stands for. */
    ghost function Contents(): map<K, E>
      reads this
    {
      PairsOf(first, second, overflow)
    }

    ghost predicate Blank()
      reads this
    {
      Valid() && Contents() == map[]
    }

    constructor ()
      ensures Blank()
    {
      first, second, overflow := None, None, map[];
    }

    method Get(key: K) returns (r: Option<E>)
      requires Valid()
      ensures r == if key in Contents() then Some(Contents()[key]) else None
    {
      if first.Some? && first.value.key == key { return Some(first.value.value); }
      if second.Some? && second.value.key == key { return Some(second.value.value); }
      r := if key in overflow then Some(overflow[key]) else None;
    }

    method Set(key: K, value: E)
      requires Valid()
      modifies this
      ensures Valid() && Contents() == old(Contents())[key := value]
    {
      if first.None? {
        first := Some(Entry(key, value));
      } else if first.value.key == key {
        first := Some(Entry(key, value));
      } else if second.None? {
        second := Some(Entry(key, value));
      } else if second.value.key == key {
        second := Some(Entry(key, value));
      } else {
        overflow := overflow[key := value];
      }
    }

    /** Moves an arbitrary overflow pair into a free second slot. */
    method PromoteOverflow()
      requires second.None? && (first.None? ==> overflow == map[])
      requires first.Some? ==> first.value.key !in overflow
      modifies this`second, this`overflow
      ensures Valid() && Contents() == old(Contents())
    {
      if second.Some? || overflow == map[] { return; }
      var key :| key in overflow;
      second := Some(Entry(key, overflow[key]));
      overflow := overflow - {key};
    }

    /** Removes the key, whatever it maps to. */
    method Delete(key: K)
      requires Valid()
      modifies this
      ensures Valid() && Contents() == old(Contents()) - {key}
    {
      hide PairsOf;
      PairsWithout(first, second, overflow, key);
      if first.Some? && first.value.key == key {
        first := second;
        second := None;
        PromoteOverflow();
        return;
      }
      if second.Some? && second.value.key == key {
        second := None;
        PromoteOverflow();
        return;
      }
      overflow := overflow - {key};
    }

    /** Removes the key only while it maps to the given value. */
    method DeleteIfEqual(key: K, value: E)
      requires Valid()
      modifies this
      ensures Valid()
      ensures var was := old(Contents());
              Contents() == if key in was && was[key] == value then was - {key} else was
    {
      hide PairsOf;
      PairAt(first, second, overflow, key);
      PairsWithout(first, second, overflow, key);
      if first.Some? && first.value.value == value && first.value.key == key {
        first := second;
        second := None;
        PromoteOverflow();
        return;
      }
      if second.Some? && second.value.value == value && second.value.key == key {
        second := None;
        PromoteOverflow();
        return;
      }
      if key in overflow && overflow[key] == value { overflow := overflow - {key}; }
    }

    method Clear()
      modifies this
      ensures Valid() && Contents() == map[]
    {
      first, second, overflow := None, None, map[];
    }
  }
}
