/**
 The open-addressing table behind the demand-support indexes: linear probing with
 tombstones over a power-of-two array.  Masking a hash by `length - 1` is the
 remainder by the length.
 */
module ProbeTable {
  import opened Options
  import opened Sequences

  datatype Slot<+K, +V> = Empty | Full(key: K, value: V) | Deleted

  // ----- Sizes ------------------------------------------------------------------

  predicate IsPowerOfTwo(n: nat)
  {
    n == 1 || (n > 1 && n % 2 == 0 && IsPowerOfTwo(n / 2))
  }

  function DoubledTo(out: nat, value: nat): nat
    requires out > 0
    decreases value - out
  {
    if out < value then DoubledTo(2 * out, value) else out
  }

  function PowerOfTwo(value: int): nat {
    if value <= 8 then 8 else DoubledTo(1, value)
  }

  lemma {:induction false} DoubledToPower(out: nat, value: nat)
    requires out > 0 && IsPowerOfTwo(out)
    ensures IsPowerOfTwo(DoubledTo(out, value)) && DoubledTo(out, value) >= value
    ensures out < value ==> DoubledTo(out, value) < 2 * value
    decreases value - out
  {
    if out < value {
      assert (2 * out) % 2 == 0 && (2 * out) / 2 == out;
      DoubledToPower(2 * out, value);
    }
  }

  /** The least power of two that is at least 8 and at least the value. */
  lemma PowerOfTwoLeast(value: int)
    ensures IsPowerOfTwo(PowerOfTwo(value)) && PowerOfTwo(value) >= 8 && PowerOfTwo(value) >= value
    ensures value > 8 ==> PowerOfTwo(value) < 2 * value
  {
    if value > 8 {
      DoubledToPower(1, value);
    } else {
      assert IsPowerOfTwo(1) && IsPowerOfTwo(2) && IsPowerOfTwo(4) && IsPowerOfTwo(8);
    }
  }

  lemma {:induction false} PowersDouble(a: nat, b: nat)
    requires IsPowerOfTwo(a) && IsPowerOfTwo(b) && a < b
    ensures b >= 2 * a
  {
    if a > 1 { PowersDouble(a / 2, b / 2); }
  }

  method PowerOfTwoMethod(value: int) returns (out: nat)
    ensures out == PowerOfTwo(value)
  {
    if value <= 8 { return 8; }
    out := 1;
    while out < value
      invariant out > 0
      invariant DoubledTo(out, value) == PowerOfTwo(value)
    {
      out := out * 2;
    }
  }

  function SlotCapacity(capacity: int): nat {
    if capacity <= 0 then 0 else PowerOfTwo(if capacity * 2 > 8 then capacity * 2 else 8)
  }

  predicate NeedsGrow(used: nat, slots: nat) {
    slots == 0 || used * 4 >= slots * 3
  }

  // ----- Probe sequences ----------------------------------------------------------

  /** The slot `d` steps after `home` in a cyclic array of `n` slots. */
  function At(home: nat, d: nat, n: nat): (i: nat)
    requires home < n && d < n
    ensures i < n
  {
    if home + d < n then home + d else home + d - n
  }

  function Distance(home: nat, i: nat, n: nat): (d: nat)
    requires home < n && i < n
    ensures d < n && At(home, d, n) == i
  {
    if i >= home then i - home else i - home + n
  }

  lemma NextSlot(home: nat, d: nat, n: nat)
    requires home < n && d + 1 < n
    ensures (At(home, d, n) + 1) % n == At(home, d + 1, n)
  {
    var i := At(home, d, n);
    if i + 1 == n {
      assert (i + 1) % n == 0;
    } else {
      assert (i + 1) % n == i + 1;
    }
  }

  /** Every slot strictly before `i` on the path from `home` is occupied or a tombstone. */
  ghost predicate PathFilled<K, V>(s: seq<Slot<K, V>>, home: nat, i: nat)
    requires home < |s| && i < |s|
  {
    forall d :: 0 <= d < Distance(home, i, |s|) ==> !s[At(home, d, |s|)].Empty?
  }

  /** A filled path to an occupied slot ends before it could meet an empty slot. */
  lemma PathReaches<K, V>(s: seq<Slot<K, V>>, home: nat, p: nat, d: nat)
    requires home < |s| && p < |s| && d < |s|
    requires PathFilled(s, home, p) && !s[p].Empty? && s[At(home, d, |s|)].Empty?
    ensures Distance(home, p, |s|) < d
  {
  }

  // ----- Counting ------------------------------------------------------------------

  ghost predicate Distinct(s: seq<nat>) {
    forall i, j :: 0 <= i < j < |s| ==> s[i] != s[j]
  }

  ghost function Members(s: seq<nat>): (r: set<nat>)
    ensures |r| <= |s| && forall i :: i in s <==> i in r
  {
    if s == [] then {} else
    assert forall i :: i in s <==> i in s[..|s| - 1] || i == s[|s| - 1];
    Members(s[..|s| - 1]) + {s[|s| - 1]}
  }

  lemma SubsetSize<T>(a: set<T>, b: set<T>)
    requires a <= b
    ensures |a| <= |b|
  {
    assert b == a + (b - a);
  }

  /** Fewer touched slots than slots leaves one untouched. */
  lemma SomeUntouched(touched: seq<nat>, n: nat) returns (i: nat)
    requires |touched| < n
    ensures i < n && i !in touched
  {
    if Below(n) <= Members(touched) { SubsetSize(Below(n), Members(touched)); }
    i :| i in Below(n) && i !in Members(touched);
  }

  // ----- Invariants on the slots --------------------------------------------------------

  /** `touched` lists exactly the slots that are not empty. */
  ghost predicate TouchedOk<K, V>(s: seq<Slot<K, V>>, touched: seq<nat>) {
    Distinct(touched) && forall i :: i in touched <==> 0 <= i < |s| && !s[i].Empty?
  }

  /** The key sits at its position, which its probe path reaches. */
  ghost predicate HoldsIn<K, V>(s: seq<Slot<K, V>>, hash: K -> nat, position: map<K, nat>, k: K)
    requires k in position
  {
    && position[k] < |s| && s[position[k]].Full? && s[position[k]].key == k
    && PathFilled(s, hash(k) % |s|, position[k])
  }

  /** Each stored key sits in exactly one slot, and every full slot is a stored key's. */
  ghost predicate PositionOk<K, V>(s: seq<Slot<K, V>>, hash: K -> nat, position: map<K, nat>) {
    && (forall k :: k in position ==> HoldsIn(s, hash, position, k))
    && (forall i :: 0 <= i < |s| && s[i].Full? ==> s[i].key in position && position[s[i].key] == i)
  }

  ghost function ContentsOf<K, V>(s: seq<Slot<K, V>>, hash: K -> nat, position: map<K, nat>): map<K, V>
    requires PositionOk(s, hash, position)
  {
    map k | k in position :: (assert HoldsIn(s, hash, position, k); s[position[k]].value)
  }

  lemma TouchedFill<K, V>(s: seq<Slot<K, V>>, touched: seq<nat>, i: nat, x: Slot<K, V>)
    requires TouchedOk(s, touched) && i < |s| && !x.Empty?
    ensures TouchedOk(s[i := x], if s[i].Empty? then touched + [i] else touched)
  {
    if s[i].Empty? {
      assert forall j :: j in touched + [i] <==> j in touched || j == i;
    }
  }

  lemma PositionFill<K, V>(s: seq<Slot<K, V>>, hash: K -> nat, position: map<K, nat>, i: nat, k: K, v: V)
    requires PositionOk(s, hash, position) && i < |s| && PathFilled(s, hash(k) % |s|, i)
    requires if s[i].Full? then s[i].key == k else k !in position
    ensures PositionOk(s[i := Full(k, v)], hash, position[k := i])
    ensures ContentsOf(s[i := Full(k, v)], hash, position[k := i]) == ContentsOf(s, hash, position)[k := v]
  {
    var t, after := s[i := Full(k, v)], position[k := i];
    forall x | x in after
      ensures HoldsIn(t, hash, after, x)
    {
      assert x in position ==> HoldsIn(s, hash, position, x);
    }
  }

  lemma PositionDelete<K, V>(s: seq<Slot<K, V>>, hash: K -> nat, position: map<K, nat>, k: K)
    requires PositionOk(s, hash, position) && k in position && position[k] < |s|
    ensures PositionOk(s[position[k] := Deleted], hash, position - {k})
    ensures ContentsOf(s[position[k] := Deleted], hash, position - {k}) == ContentsOf(s, hash, position) - {k}
  {
    var t, after := s[position[k] := Deleted], position - {k};
    forall x | x in after
      ensures HoldsIn(t, hash, after, x)
    {
      assert HoldsIn(s, hash, position, x) && HoldsIn(s, hash, position, k);
    }
  }

  /** The stored pairs found in the first `i` slots. */
  lemma StoredSomewhere<K, V>(s: seq<Slot<K, V>>, hash: K -> nat, position: map<K, nat>)
    requires PositionOk(s, hash, position)
    ensures position != map[] ==> |s| > 0
  {
    if k :| k in position { assert HoldsIn(s, hash, position, k); }
  }

  lemma NothingStored<K, V>(s: seq<Slot<K, V>>, hash: K -> nat, position: map<K, nat>, k: K)
    requires PositionOk(s, hash, position) && k !in position
    ensures ContentsOf(s, hash, position) - {k} == ContentsOf(s, hash, position)
  {
  }

  /** A tombstone keeps every path filled and no slot changes between touched and empty. */
  lemma DeleteAt<K, V>(s: seq<Slot<K, V>>, hash: K -> nat, position: map<K, nat>, touched: seq<nat>, k: K)
    requires PositionOk(s, hash, position) && TouchedOk(s, touched) && k in position
    ensures position[k] < |s| && PositionOk(s[position[k] := Deleted], hash, position - {k}) && TouchedOk(s[position[k] := Deleted], touched)
    ensures ContentsOf(s[position[k] := Deleted], hash, position - {k}) == ContentsOf(s, hash, position) - {k}
    ensures |position - {k}| == |position| - 1
  {
    assert HoldsIn(s, hash, position, k);
    PositionDelete(s, hash, position, k);
    assert (position - {k}).Keys == position.Keys - {k};
    assert |position| == |position.Keys| && |position - {k}| == |(position - {k}).Keys|;
  }

  lemma FillCounts<K, V>(s: seq<Slot<K, V>>, hash: K -> nat, position: map<K, nat>, i: nat, k: K)
    requires PositionOk(s, hash, position) && i < |s|
    requires if s[i].Full? then s[i].key == k else k !in position
    ensures |position[k := i]| == |position| + if s[i].Full? then 0 else 1
  {
    assert position[k := i].Keys == position.Keys + {k};
    assert |position| == |position.Keys| && |position[k := i]| == |position[k := i].Keys|;
  }

  ghost function ContentsBelow<K, V>(s: seq<Slot<K, V>>, hash: K -> nat, position: map<K, nat>, i: nat): map<K, V>
    requires PositionOk(s, hash, position)
  {
    map k | k in position && position[k] < i :: ContentsOf(s, hash, position)[k]
  }

  lemma ContentsStep<K, V>(s: seq<Slot<K, V>>, hash: K -> nat, position: map<K, nat>, i: nat)
    requires PositionOk(s, hash, position) && i < |s|
    ensures ContentsBelow(s, hash, position, i + 1) ==
            if s[i].Full? then ContentsBelow(s, hash, position, i)[s[i].key := s[i].value]
            else ContentsBelow(s, hash, position, i)
  {
    assert forall k :: k in position ==> HoldsIn(s, hash, position, k);
  }

  lemma ContentsAll<K, V>(s: seq<Slot<K, V>>, hash: K -> nat, position: map<K, nat>)
    requires PositionOk(s, hash, position)
    ensures ContentsBelow(s, hash, position, 0) == map[]
    ensures ContentsBelow(s, hash, position, |s|) == ContentsOf(s, hash, position)
  {
    assert forall k :: k in position ==> HoldsIn(s, hash, position, k);
  }

  // ----- What a probe meets --------------------------------------------------------------

  /** A probe that meets an empty slot has not missed the key. */
  lemma EmptyEnds<K, V>(s: seq<Slot<K, V>>, hash: K -> nat, position: map<K, nat>, k: K, d: nat)
    requires PositionOk(s, hash, position) && d < |s| && s[At(hash(k) % |s|, d, |s|)].Empty?
    requires forall e :: 0 <= e < d ==> k in position ==> position[k] != At(hash(k) % |s|, e, |s|)
    ensures k !in position
  {
    if k in position {
      assert HoldsIn(s, hash, position, k);
      PathReaches(s, hash(k) % |s|, position[k], d);
    }
  }

  lemma FullHolds<K, V>(s: seq<Slot<K, V>>, hash: K -> nat, position: map<K, nat>, i: nat)
    requires PositionOk(s, hash, position) && i < |s| && s[i].Full?
    ensures s[i].key in position && position[s[i].key] == i
  {
  }

  /** A slot without the key is not the key's. */
  lemma SlotOfOther<K, V>(s: seq<Slot<K, V>>, hash: K -> nat, position: map<K, nat>, k: K, i: nat)
    requires PositionOk(s, hash, position) && i < |s| && !(s[i].Full? && s[i].key == k)
    ensures k in position ==> position[k] != i
  {
    assert k in position ==> HoldsIn(s, hash, position, k);
  }

  lemma FilledSoFar<K, V>(s: seq<Slot<K, V>>, home: nat, d: nat)
    requires home < |s| && d < |s| && forall e :: 0 <= e < d ==> !s[At(home, e, |s|)].Empty?
    ensures PathFilled(s, home, At(home, d, |s|))
  {
    assert Distance(home, At(home, d, |s|), |s|) == d;
  }

  // ----- The table --------------------------------------------------------------------

  class Table<K(==), V> {
    var entries: array<Slot<K, V>>
    var touched: seq<nat>
    var count: nat
    var used: nat
    const hash: K -> nat
    /** Where each stored key sits. */
    ghost var position: map<K, nat>

    ghost predicate Valid()
      reads this, entries
    {
      && (entries.Length == 0 || IsPowerOfTwo(entries.Length))
      && (entries.Length > 0 ==> used * 4 < entries.Length * 3)
      && used == |touched| && TouchedOk(entries[..], touched)
      && count == |position| && PositionOk(entries[..], hash, position)
    }

    /** The finite map the table stands for. */
    ghost function Contents(): map<K, V>
      requires Valid()
      reads this, entries
    {
      ContentsOf(entries[..], hash, position)
    }

    ghost predicate Blank()
      reads this, entries
    {
      Valid() && Contents() == map[]
    }

    constructor (h: K -> nat)
      ensures Blank() && fresh(entries) && hash == h
    {
      hash := h;
      entries := new Slot<K, V>[0];
      touched := [];
      count, used := 0, 0;
      position := map[];
    }

    method IsEmpty() returns (r: bool)
      requires Valid()
      ensures r <==> Contents() == map[]
    {
      r := count == 0;
      assert position.Keys == Contents().Keys;
      assert |position| == |position.Keys|;
    }

    /** Follows the probe path to the key or to the first empty slot. */
    method Find(key: K) returns (index: nat, ok: bool)
      requires Valid() && entries.Length > 0
      ensures ok == (key in position)
      ensures ok ==> index == position[key]
    {
      var n := entries.Length;
      ghost var home := hash(key) % n;
      ghost var hole := SomeUntouched(touched, n);
      assert entries[hole].Empty?;
      hide TouchedOk, IsPowerOfTwo, PositionOk, PathFilled;
      index := hash(key) % n;
      ghost var d: nat := 0;
      while true
        invariant d <= Distance(home, hole, n) && index == At(home, d, n)
        invariant forall e :: 0 <= e < d ==> !entries[At(home, e, n)].Empty?
        invariant forall e :: 0 <= e < d ==> key in position ==> position[key] != At(home, e, n)
        decreases n - d
      {
        if entries[index].Empty? {
          EmptyEnds(entries[..], hash, position, key, d);
          return 0, false;
        }
        if entries[index].Full? && entries[index].key == key {
          FullHolds(entries[..], hash, position, index);
          return index, true;
        }
        SlotOfOther(entries[..], hash, position, key, index);
        NextSlot(home, d, n);
        index := (index + 1) % n;
        d := d + 1;
      }
    }

    /** Like `Find`, but when the key is absent yields the slot to put it in. */
    method FindInsert(key: K) returns (index: nat, ok: bool)
      requires Valid() && entries.Length > 0
      ensures ok == (key in position)
      ensures ok ==> index == position[key]
      ensures !ok ==> index < entries.Length && !entries[index].Full?
                      && PathFilled(entries[..], hash(key) % entries.Length, index)
    {
      var n := entries.Length;
      ghost var home := hash(key) % n;
      ghost var hole := SomeUntouched(touched, n);
      assert entries[hole].Empty?;
      hide TouchedOk, IsPowerOfTwo, PositionOk, PathFilled;
      index := hash(key) % n;
      ghost var d: nat := 0;
      var firstDeleted: Option<nat> := None;
      while true
        invariant d <= Distance(home, hole, n) && index == At(home, d, n)
        invariant forall e :: 0 <= e < d ==> !entries[At(home, e, n)].Empty?
        invariant forall e :: 0 <= e < d ==> key in position ==> position[key] != At(home, e, n)
        invariant firstDeleted.Some? ==> firstDeleted.value < n && entries[firstDeleted.value].Deleted?
                                         && PathFilled(entries[..], home, firstDeleted.value)
        decreases n - d
      {
        match entries[index] {
          case Empty =>
            EmptyEnds(entries[..], hash, position, key, d);
            FilledSoFar(entries[..], home, d);
            if firstDeleted.Some? { return firstDeleted.value, false; }
            return index, false;
          case Deleted =>
            FilledSoFar(entries[..], home, d);
            if firstDeleted.None? { firstDeleted := Some(index); }
          case Full(k, _) =>
            if k == key {
              FullHolds(entries[..], hash, position, index);
              return index, true;
            }
        }
        SlotOfOther(entries[..], hash, position, key, index);
        NextSlot(home, d, n);
        index := (index + 1) % n;
        d := d + 1;
      }
    }

    method Get(key: K) returns (r: Option<V>)
      requires Valid()
      ensures r == if key in Contents() then Some(Contents()[key]) else None
    {
      if count == 0 || entries.Length == 0 {
        assert |position.Keys| == |position| == 0;
        return None;
      }
      var index, ok := Find(key);
      if !ok { return None; }
      assert HoldsIn(entries[..], hash, position, key);
      r := Some(entries[index].value);
    }

    /** Puts the pair into a slot on the key's probe path that holds no other key. */
    method Fill(index: nat, key: K, value: V)
      requires Valid() && index < entries.Length && PathFilled(entries[..], hash(key) % entries.Length, index)
      requires if entries[index].Full? then entries[index].key == key else key !in position
      requires !NeedsGrow(used + 1, entries.Length)
      modifies this`touched, this`count, this`used, this`position, entries
      ensures Valid() && Contents() == old(Contents())[key := value]
      ensures used <= old(used) + 1
    {
      hide PositionOk, TouchedOk, IsPowerOfTwo, ContentsOf, PathFilled;
      TouchedFill(entries[..], touched, index, Full(key, value));
      PositionFill(entries[..], hash, position, index, key, value);
      FillCounts(entries[..], hash, position, index, key);
      if !entries[index].Full? {
        if entries[index].Empty? {
          touched := touched + [index];
          used := used + 1;
        }
        count := count + 1;
      }
      entries[index] := Full(key, value);
      position := position[key := index];
      assert entries[..] == old(entries[..])[index := Full(key, value)];
    }

    method Delete(key: K)
      requires Valid()
      modifies this`count, this`position, entries
      ensures Valid() && Contents() == old(Contents()) - {key}
    {
      hide PositionOk, TouchedOk, IsPowerOfTwo, ContentsOf;
      StoredSomewhere(entries[..], hash, position);
      if count == 0 {
        assert position == map[];
        NothingStored(entries[..], hash, position, key);
        return;
      }
      var index, ok := Find(key);
      if !ok {
        NothingStored(entries[..], hash, position, key);
        return;
      }
      DeleteAt(entries[..], hash, position, touched, key);
      entries[index] := Deleted;
      count := count - 1;
      position := position - {key};
      assert entries[..] == old(entries[..])[index := Deleted];
    }

    method Set(key: K, value: V)
      requires Valid()
      modifies this, entries
      ensures Valid() && Contents() == old(Contents())[key := value]
      ensures fresh(entries) || entries == old(entries)
      ensures !old(NeedsGrow(used + 1, entries.Length)) ==> entries == old(entries) && used <= old(used) + 1
      ensures if old(entries.Length == 0 || 4 * (used + 1) >= 3 * entries.Length)
              then entries.Length == PowerOfTwo(if 2 * old(entries.Length) > 8 then 2 * old(entries.Length) else 8)
              else entries == old(entries)
      decreases if NeedsGrow(used + 1, entries.Length) then 3 else 0
    {
      if NeedsGrow(used + 1, entries.Length) {
        PowerOfTwoLeast(if entries.Length * 2 > 8 then entries.Length * 2 else 8);
        Rehash(if entries.Length * 2 > 8 then entries.Length * 2 else 8);
      }
      var index, ok := FindInsert(key);
      assert ok ==> HoldsIn(entries[..], hash, position, key);
      Fill(index, key, value);
    }

    /** Rebuilds the table with room to spare: no insertion on the way grows it again. */
    method Rehash(slotCapacity: nat)
      requires Valid()
      requires var n := PowerOfTwo(slotCapacity); n >= 2 * entries.Length || (n <= entries.Length && used == count)
      modifies this, entries
      ensures Valid() && Contents() == old(Contents())
      ensures fresh(entries) || entries == old(entries)
      ensures PowerOfTwo(slotCapacity) >= 2 * old(entries.Length) ==>
                entries.Length == PowerOfTwo(slotCapacity) && !NeedsGrow(used + 1, entries.Length)
      decreases 2
    {
      var capacity := PowerOfTwoMethod(slotCapacity);
      PowerOfTwoLeast(slotCapacity);
      if capacity <= entries.Length && used == count { return; }
      var former := entries;
      ghost var s, at := entries[..], position;
      Renew(capacity);
      Refill(former, s, at);
    }

    /** Inserts the full slots of the former array one by one. */
    method Refill(former: array<Slot<K, V>>, ghost s: seq<Slot<K, V>>, ghost at: map<K, nat>)
      requires Valid() && position == map[] && Contents() == map[] && used == 0
      requires former != entries && former[..] == s && PositionOk(s, hash, at)
      requires entries.Length >= 8 && entries.Length >= 2 * former.Length
      modifies this, entries
      ensures Valid() && Contents() == ContentsOf(s, hash, at)
      ensures entries == old(entries) && used <= former.Length
      decreases 1
    {
      ContentsAll(s, hash, at);
      for i := 0 to former.Length
        invariant Valid() && entries == old(entries) && used <= i
        invariant former[..] == s
        invariant Contents() == ContentsBelow(s, hash, at, i)
      {
        ContentsStep(s, hash, at, i);
        assert former[i] == s[i];
        if former[i].Full? {
          Set(former[i].key, former[i].value);
        }
      }
    }

    method Renew(capacity: nat)
      requires IsPowerOfTwo(capacity) && capacity > 0
      modifies this
      ensures Valid() && fresh(entries) && entries.Length == capacity && used == 0
      ensures position == map[] && Contents() == map[]
    {
      entries := new Slot<K, V>[capacity](_ => Empty);
      touched := [];
      count, used := 0, 0;
      position := map[];
    }

    method Reserve(capacity: int)
      requires Valid()
      modifies this, entries
      ensures Valid() && Contents() == old(Contents())
      ensures fresh(entries) || entries == old(entries)
      ensures entries.Length >= SlotCapacity(capacity)
    {
      if capacity <= 0 { return; }
      var slotCapacity := SlotCapacity(capacity);
      if slotCapacity <= entries.Length { return; }
      PowerOfTwoLeast(if capacity * 2 > 8 then capacity * 2 else 8);
      PowerOfTwoFixed(slotCapacity);
      if entries.Length > 0 { PowersDouble(entries.Length, slotCapacity); }
      Rehash(slotCapacity);
    }

    /** Empties the touched slots, which are all that are not empty. */
    method WipeTouched()
      requires TouchedOk(entries[..], touched)
      modifies entries
      ensures forall i :: 0 <= i < entries.Length ==> entries[i].Empty?
    {
      ghost var s := entries[..];
      assert forall k :: 0 <= k < |touched| ==> touched[k] in touched;
      for t := 0 to |touched|
        invariant forall k :: 0 <= k < t ==> touched[k] < entries.Length && entries[touched[k]].Empty?
        invariant forall i :: 0 <= i < entries.Length && !entries[i].Empty? ==> !s[i].Empty?
      {
        entries[touched[t]] := Empty;
      }
    }

    method Clear()
      requires Valid()
      modifies this`touched, this`count, this`used, this`position, entries
      ensures Valid() && Contents() == map[]
    {
      if entries.Length == 0 {
        assert position.Keys == {};
        return;
      }
      WipeTouched();
      touched := [];
      count, used := 0, 0;
      position := map[];
    }
  }

  lemma {:induction false} DoubledToFixed(out: nat, value: nat)
    requires out > 0 && IsPowerOfTwo(out) && IsPowerOfTwo(value) && out <= value
    ensures DoubledTo(out, value) == value
    decreases value - out
  {
    if out < value {
      PowersDouble(out, value);
      assert (2 * out) % 2 == 0 && (2 * out) / 2 == out;
      DoubledToFixed(2 * out, value);
    }
  }

  lemma PowerOfTwoFixed(n: nat)
    requires IsPowerOfTwo(n) && n >= 8
    ensures PowerOfTwo(n) == n
  {
    DoubledToFixed(1, n);
  }
}
