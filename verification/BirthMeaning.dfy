/**
 The canonical order of births, said of what the activations carry: declaration first, then the tuples
 entry by entry, then hashes, rule and age; and the ranks, which follow it.
 */
module BirthMeaning {
  import opened Texts
  import opened AgendaOrder
  import opened BirthRanks
  import opened AgendaBirths
  import opened AgendaDelta
  import opened AgendaQueues

  // ----- Entries and tuples -------------------------------------------------------------

  /** The first of condition, slot, names, fact, version and value that differs decides; no value comes first. */
  predicate EntryFirst(l: BirthEntry, r: BirthEntry) {
    || l.conditionOrder < r.conditionOrder
    || (l.conditionOrder == r.conditionOrder && l.bindingSlot < r.bindingSlot)
    || (l.conditionOrder == r.conditionOrder && l.bindingSlot == r.bindingSlot && Earlier(l.binding, r.binding))
    || (l.conditionOrder == r.conditionOrder && l.bindingSlot == r.bindingSlot && l.binding == r.binding && Earlier(l.conditionID, r.conditionID))
    || (l.conditionOrder == r.conditionOrder && l.bindingSlot == r.bindingSlot && l.binding == r.binding && l.conditionID == r.conditionID
        && (|| l.fact.generation < r.fact.generation
            || (l.fact.generation == r.fact.generation && l.fact.sequence < r.fact.sequence)
            || (l.fact == r.fact && l.version < r.version)
            || (l.fact == r.fact && l.version == r.version && !l.hasValue && r.hasValue)
            || (l.fact == r.fact && l.version == r.version && l.hasValue == r.hasValue && Earlier(l.valueKey, r.valueKey))))
  }

  lemma EntryMeaning(l: BirthEntry, r: BirthEntry)
    ensures EntryLess(l, r) <==> EntryFirst(l, r)
  {
    hide TextLess, Earlier;
    TextLessMeaning(l.binding, r.binding);
    TextLessMeaning(l.conditionID, r.conditionID);
    TextLessMeaning(l.valueKey, r.valueKey);
  }

  /** A proper beginning comes first; otherwise the first entry that differs decides. */
  predicate TupleFirst(l: seq<BirthEntry>, r: seq<BirthEntry>) {
    (l <= r && l != r) || exists k :: 0 <= k < |l| && k < |r| && l[..k] == r[..k] && EntryFirst(l[k], r[k])
  }

  lemma {:induction false} TupleMeaning(l: seq<BirthEntry>, r: seq<BirthEntry>)
    ensures TupleLess(l, r) <==> TupleFirst(l, r)
  {
    hide EntryLess, EntryFirst;
    if l != [] && r != [] {
      EntryMeaning(l[0], r[0]);
      EntryMeaning(r[0], l[0]);
      EntryOrder(l[0], r[0], l[0]);
      TupleMeaning(l[1..], r[1..]);
      assert l == [l[0]] + l[1..] && r == [r[0]] + r[1..];
      if k :| 0 <= k < |l| && k < |r| && l[..k] == r[..k] && EntryFirst(l[k], r[k]) {
        if k > 0 {
          assert l[0] == l[..k][0] && r[0] == r[..k][0];
          assert l[1..][..k - 1] == l[..k][1..] && r[1..][..k - 1] == r[..k][1..];
          assert l[1..][k - 1] == l[k] && r[1..][k - 1] == r[k];
        }
      }
      if l[0] == r[0] && TupleFirst(l[1..], r[1..]) { TailsFirst(l, r); }
      if EntryFirst(l[0], r[0]) { assert l[..0] == r[..0]; }
    }
  }

  lemma TailsFirst(l: seq<BirthEntry>, r: seq<BirthEntry>)
    requires l != [] && r != [] && l[0] == r[0] && TupleFirst(l[1..], r[1..])
    ensures TupleFirst(l, r)
  {
    hide EntryFirst;
    assert l == [l[0]] + l[1..] && r == [r[0]] + r[1..];
    if k :| 0 <= k < |l[1..]| && k < |r[1..]| && l[1..][..k] == r[1..][..k] && EntryFirst(l[1..][k], r[1..][k]) {
      assert l[..k + 1] == [l[0]] + l[1..][..k] && r[..k + 1] == [r[0]] + r[1..][..k];
      assert l[k + 1] == l[1..][k] && r[k + 1] == r[1..][k];
    }
  }

  // ----- Activations ------------------------------------------------------------------------

  predicate BornFirst(l: Activation, r: Activation) {
    || l.declarationOrder < r.declarationOrder
    || (l.declarationOrder == r.declarationOrder && TupleFirst(l.tuple, r.tuple))
    || (l.declarationOrder == r.declarationOrder && l.tuple == r.tuple
        && (|| l.identity.scopeHash < r.identity.scopeHash
            || (l.identity.scopeHash == r.identity.scopeHash && l.identity.hash < r.identity.hash)
            || (l.identity == r.identity && l.rule < r.rule)
            || (l.identity == r.identity && l.rule == r.rule && l.ordinal < r.ordinal)))
  }

  lemma RecordMeaning(l: Activation, r: Activation)
    ensures RecordLess(l, r) <==> BornFirst(l, r)
  {
    hide TupleLess, TupleFirst;
    TupleMeaning(l.tuple, r.tuple);
    TupleOrder(l.tuple, r.tuple, l.tuple);
  }

  /** Of two activations born in one epoch the one that comes first has the lower rank. */
  lemma RanksFollow(acts: seq<Activation>, born: seq<Handle>, epoch: nat, h: Handle, k: Handle)
    requires DistinctBorn(acts, born) && OneEpoch(acts, born, epoch) && epoch != 0 && h in born && k in born
    ensures h < |acts| && k < |acts|
    ensures Ranked(acts, born)[h].birthRank < Ranked(acts, born)[k].birthRank <==> BornFirst(acts[h], acts[k])
  {
    hide RecordLess, BornFirst;
    RecordMeaning(acts[h], acts[k]);
    var a, b := EarlierBorn(acts, born, h), EarlierBorn(acts, born, k);
    RecordOrder(acts[h], acts[k], acts[h]);
    RecordOrder(acts[h], acts[h], acts[h]);
    RecordOrder(acts[k], acts[k], acts[k]);
    if RecordLess(acts[h], acts[k]) {
      EarlierGrows(acts, born, h, k);
    } else if h != k {
      BornDiffer(acts, born, h, k);
      EarlierGrows(acts, born, k, h);
    }
  }

  // ----- Those that begin to wait ------------------------------------------------------------

  function Risen(was: seq<Activation>, acts: seq<Activation>): set<Handle> {
    WaitingOf(acts) - WaitingOf(was)
  }

  /** In breadth, what begins to wait is born in the epoch, and ranks behind those that come first; in depth births stay as they are. */
  ghost predicate BornNow(was: seq<Activation>, acts: seq<Activation>, breadth: bool, epoch: nat) {
    if breadth
    then forall h :: h in Risen(was, acts) ==>
           acts[h].birthEpoch == epoch && acts[h].birthRank == 1 + |set k | k in Risen(was, acts) && BornFirst(acts[k], acts[h])|
    else BirthsKept(was, acts)
  }

  ghost predicate BirthsKept(was: seq<Activation>, acts: seq<Activation>) {
    && |was| <= |acts|
    && (forall h :: 0 <= h < |was| ==> acts[h].birthEpoch == was[h].birthEpoch && acts[h].birthRank == was[h].birthRank)
    && (forall h :: |was| <= h < |acts| ==> acts[h].birthEpoch == 0 && acts[h].birthRank == 0)
  }

  lemma RankedNow(was: seq<Activation>, done: seq<Activation>, acts: seq<Activation>, born: seq<Handle>, epoch: nat)
    requires acts == Ranked(done, born) && OneEpoch(done, born, epoch) && epoch != 0
    requires forall h :: h in born <==> h in Risen(was, acts)
    ensures BornNow(was, acts, true, epoch)
  {
    hide BornFirst, RecordLess;
    forall h | h in Risen(was, acts)
      ensures acts[h].birthEpoch == epoch && acts[h].birthRank == 1 + |set k | k in Risen(was, acts) && BornFirst(acts[k], acts[h])|
    {
      forall k | k in born
        ensures RecordLess(done[k], done[h]) <==> BornFirst(acts[k], acts[h])
      {
        RecordMeaning(done[k], done[h]);
        SameRecord(done[k], acts[k], done[h], acts[h]);
      }
      assert EarlierBorn(done, born, h) == set k | k in Risen(was, acts) && BornFirst(acts[k], acts[h]);
    }
  }

  lemma SameRecord(a: Activation, b: Activation, c: Activation, d: Activation)
    requires b == a.(birthRank := b.birthRank) && d == c.(birthRank := d.birthRank)
    ensures BornFirst(a, c) <==> BornFirst(b, d)
  {
  }

  lemma BornDiffer(acts: seq<Activation>, born: seq<Handle>, h: Handle, k: Handle)
    requires DistinctBorn(acts, born) && h in born && k in born && h != k
    ensures h < |acts| && k < |acts| && (RecordLess(acts[h], acts[k]) || RecordLess(acts[k], acts[h]))
  {
    RecordOrder(acts[h], acts[k], acts[h]);
  }

  lemma EarlierGrows(acts: seq<Activation>, born: seq<Handle>, h: Handle, k: Handle)
    requires h < |acts| && k < |acts| && h in born && acts[h].birthEpoch == acts[k].birthEpoch && RecordLess(acts[h], acts[k])
    ensures |EarlierBorn(acts, born, h)| < |EarlierBorn(acts, born, k)|
  {
    hide RecordLess;
    var a, b := EarlierBorn(acts, born, h), EarlierBorn(acts, born, k);
    forall x | x in a
      ensures x in b
    {
      RecordOrder(acts[x], acts[h], acts[k]);
    }
    RecordOrder(acts[h], acts[h], acts[h]);
    assert h in b && h !in a;
    assert a <= b - {h};
    assert |b - {h}| == |b| - 1;
    Smaller(a, b - {h});
  }

  lemma Smaller(a: set<Handle>, b: set<Handle>)
    requires a <= b
    ensures |a| <= |b|
  {
    assert b == a + (b - a);
  }
}
