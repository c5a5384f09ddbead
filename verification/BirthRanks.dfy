/**
 Canonical birth ranks: activations born together rank by their authored tuples, whatever
 order they were inserted in.
 */
module BirthRanks {
  import opened AgendaOrder
  import opened Texts

  // ----- Tuples ---------------------------------------------------------------------------

  predicate FactIdLess(l: FactKey, r: FactKey) {
    l.generation < r.generation || (l.generation == r.generation && l.sequence < r.sequence)
  }

  predicate EntryLess(l: BirthEntry, r: BirthEntry) {
    if l.conditionOrder != r.conditionOrder then l.conditionOrder < r.conditionOrder
    else if l.bindingSlot != r.bindingSlot then l.bindingSlot < r.bindingSlot
    else if l.binding != r.binding then TextLess(l.binding, r.binding)
    else if l.conditionID != r.conditionID then TextLess(l.conditionID, r.conditionID)
    else if l.fact != r.fact then FactIdLess(l.fact, r.fact)
    else if l.version != r.version then l.version < r.version
    else if l.hasValue != r.hasValue then !l.hasValue
    else TextLess(l.valueKey, r.valueKey)
  }

  lemma EntryOrder(a: BirthEntry, b: BirthEntry, c: BirthEntry)
    ensures !(EntryLess(a, b) && EntryLess(b, a))
    ensures a != b ==> EntryLess(a, b) || EntryLess(b, a)
    ensures EntryLess(a, b) && EntryLess(b, c) ==> EntryLess(a, c)
  {
    hide TextLess;
    TextOrder(a.binding, b.binding, c.binding);
    TextOrder(a.conditionID, b.conditionID, c.conditionID);
    TextOrder(a.valueKey, b.valueKey, c.valueKey);
  }

  /** The first entry that differs decides; then the shorter tuple comes first. */
  predicate TupleLess(l: seq<BirthEntry>, r: seq<BirthEntry>) {
    if r == [] then false
    else if l == [] then true
    else if EntryLess(l[0], r[0]) then true
    else if EntryLess(r[0], l[0]) then false
    else TupleLess(l[1..], r[1..])
  }

  lemma {:induction false} TupleOrder(a: seq<BirthEntry>, b: seq<BirthEntry>, c: seq<BirthEntry>)
    ensures !(TupleLess(a, b) && TupleLess(b, a))
    ensures a != b ==> TupleLess(a, b) || TupleLess(b, a)
    ensures TupleLess(a, b) && TupleLess(b, c) ==> TupleLess(a, c)
  {
    hide EntryLess;
    if a != [] && b != [] {
      assert a == [a[0]] + a[1..] && b == [b[0]] + b[1..];
      EntryOrder(a[0], b[0], a[0]);
      TupleOrder(a[1..], b[1..], if c == [] then [] else c[1..]);
      if c != [] {
        EntryOrder(a[0], b[0], c[0]);
        EntryOrder(b[0], c[0], a[0]);
        EntryOrder(c[0], a[0], b[0]);
      }
    }
  }

  /** Canonical order of activations born in one epoch; the ordinal breaks ties. */
  predicate RecordLess(l: Activation, r: Activation) {
    if l.declarationOrder != r.declarationOrder then l.declarationOrder < r.declarationOrder
    else if l.tuple != r.tuple then TupleLess(l.tuple, r.tuple)
    else if l.identity.scopeHash != r.identity.scopeHash then l.identity.scopeHash < r.identity.scopeHash
    else if l.identity.hash != r.identity.hash then l.identity.hash < r.identity.hash
    else if l.rule != r.rule then l.rule < r.rule
    else l.ordinal < r.ordinal
  }

  lemma RecordOrder(a: Activation, b: Activation, c: Activation)
    ensures !(RecordLess(a, b) && RecordLess(b, a))
    ensures a.ordinal != b.ordinal ==> RecordLess(a, b) || RecordLess(b, a)
    ensures RecordLess(a, b) && RecordLess(b, c) ==> RecordLess(a, c)
    ensures !RecordLess(b, a) && !RecordLess(c, b) ==> !RecordLess(c, a)
  {
    hide TupleLess;
    TupleOrder(a.tuple, b.tuple, c.tuple);
    TupleOrder(c.tuple, b.tuple, a.tuple);
    TupleOrder(b.tuple, a.tuple, c.tuple);
    TupleOrder(a.tuple, c.tuple, b.tuple);
  }
}
