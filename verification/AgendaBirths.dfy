/**
 The ranks of activations born together: what sorting by the canonical order assigns,
 that the ranks are 1 to n, and that they do not depend on the order of insertion.
 */
module AgendaBirths {
  import opened Sorting
  import opened AgendaOrder
  import opened BirthRanks
  import opened AgendaDelta

  predicate RecordBefore(acts: seq<Activation>, a: Handle, b: Handle) {
    a < |acts| && b < |acts| && RecordLess(acts[a], acts[b])
  }

  /** Distinct handles of activations with distinct ordinals. */
  ghost predicate DistinctBorn(acts: seq<Activation>, born: seq<Handle>) {
    && (forall i :: 0 <= i < |born| ==> born[i] < |acts|)
    && (forall i, j :: 0 <= i < j < |born| ==> born[i] != born[j] && acts[born[i]].ordinal != acts[born[j]].ordinal)
  }

  ghost predicate OneEpoch(acts: seq<Activation>, born: seq<Handle>, epoch: nat) {
    forall i :: 0 <= i < |born| ==> born[i] < |acts| && acts[born[i]].birthEpoch == epoch
  }

  function Members(s: seq<Handle>): set<Handle> {
    set h | h in s
  }

  lemma {:induction false} DistinctSize(s: seq<Handle>)
    requires forall i, j :: 0 <= i < j < |s| ==> s[i] != s[j]
    ensures |Members(s)| == |s|
  {
    if s != [] {
      var n := |s| - 1;
      DistinctSize(s[..n]);
      assert s == s[..n] + [s[n]];
      assert Members(s) == Members(s[..n]) + {s[n]};
    }
  }

  lemma RecordOrders(acts: seq<Activation>, born: seq<Handle>)
    requires forall i :: 0 <= i < |born| ==> born[i] < |acts|
    ensures Orders((a: Handle, b: Handle) => RecordBefore(acts, a, b), born)
  {
    hide RecordLess;
    forall x, y, z | x in born && y in born && z in born
      ensures !(RecordBefore(acts, x, y) && RecordBefore(acts, y, x))
      ensures !RecordBefore(acts, y, x) && !RecordBefore(acts, z, y) ==> !RecordBefore(acts, z, x)
    {
      RecordOrder(acts[x], acts[y], acts[z]);
    }
  }

  /** In a sorted list exactly those at earlier places come before. */
  lemma SortedPlace(acts: seq<Activation>, s: seq<Handle>, epoch: nat, i: nat)
    requires DistinctBorn(acts, s) && OneEpoch(acts, s, epoch) && i < |s|
    requires forall j, k :: 0 <= j < k < |s| ==> !RecordBefore(acts, s[k], s[j])
    ensures EarlierBorn(acts, s, s[i]) == Members(s[..i]) && |EarlierBorn(acts, s, s[i])| == i
  {
    hide RecordLess;
    var e := EarlierBorn(acts, s, s[i]);
    forall h | h in Members(s[..i])
      ensures h in e
    {
      var j :| 0 <= j < i && s[j] == h;
      RecordOrder(acts[s[j]], acts[s[i]], acts[s[i]]);
      assert !RecordBefore(acts, s[i], s[j]);
    }
    forall h | h in e
      ensures h in Members(s[..i])
    {
      var j :| 0 <= j < |s| && s[j] == h;
      RecordOrder(acts[s[i]], acts[s[i]], acts[s[i]]);
      assert j > i ==> !RecordBefore(acts, s[j], s[i]);
      assert s[j] in s[..i];
    }
    DistinctSize(s[..i]);
  }

  /** Only membership among the born matters. */
  lemma EarlierSame(acts: seq<Activation>, a: seq<Handle>, b: seq<Handle>, h: Handle)
    requires h < |acts| && forall k :: k in a <==> k in b
    ensures EarlierBorn(acts, a, h) == EarlierBorn(acts, b, h)
  {
    hide RecordLess;
  }

  lemma RankedSame(acts: seq<Activation>, a: seq<Handle>, b: seq<Handle>)
    requires forall k :: k in a <==> k in b
    ensures Ranked(acts, a) == Ranked(acts, b)
  {
    hide EarlierBorn;
    forall h | 0 <= h < |acts|
      ensures Ranked(acts, a)[h] == Ranked(acts, b)[h]
    {
      EarlierSame(acts, a, b, h);
    }
  }

  /** The activations as they are once the first `n` of the sorted list have their ranks. */
  ghost predicate RankedSoFar(acts: seq<Activation>, s: seq<Handle>, n: nat, now: seq<Activation>)
    requires n <= |s| && forall i :: 0 <= i < |s| ==> s[i] < |acts|
  {
    && |now| == |acts|
    && (forall i :: 0 <= i < n ==> now[s[i]] == acts[s[i]].(birthRank := i + 1))
    && (forall h :: 0 <= h < |acts| && h !in s[..n] ==> now[h] == acts[h])
  }

  lemma RankedNext(acts: seq<Activation>, s: seq<Handle>, n: nat, now: seq<Activation>)
    requires DistinctBorn(acts, s) && n < |s| && RankedSoFar(acts, s, n, now)
    ensures now[s[n]] == acts[s[n]] && RankedSoFar(acts, s, n + 1, now[s[n] := acts[s[n]].(birthRank := n + 1)])
  {
    assert s[n] !in s[..n];
    assert s[..n + 1] == s[..n] + [s[n]];
  }

  /** Numbering the sorted list is ranking. */
  lemma RankedAll(acts: seq<Activation>, s: seq<Handle>, epoch: nat, now: seq<Activation>)
    requires DistinctBorn(acts, s) && OneEpoch(acts, s, epoch) && epoch != 0 && RankedSoFar(acts, s, |s|, now)
    requires forall j, k :: 0 <= j < k < |s| ==> !RecordBefore(acts, s[k], s[j])
    ensures now == Ranked(acts, s)
  {
    hide RecordLess, EarlierBorn;
    assert s[..|s|] == s;
    forall h | 0 <= h < |acts|
      ensures now[h] == Ranked(acts, s)[h]
    {
      if h in s {
        var i :| 0 <= i < |s| && s[i] == h;
        SortedPlace(acts, s, epoch, i);
      }
    }
  }

  /** Ranking two groups born in different epochs is ranking all of them. */
  lemma RankedGroups(acts: seq<Activation>, a: seq<Handle>, b: seq<Handle>)
    requires forall h, k :: h in a && k in b && h < |acts| && k < |acts| ==> acts[h].birthEpoch != acts[k].birthEpoch
    ensures Ranked(Ranked(acts, a), b) == Ranked(acts, a + b)
  {
    hide RecordLess;
    var mid := Ranked(acts, a);
    forall h | 0 <= h < |acts|
      ensures Ranked(mid, b)[h] == Ranked(acts, a + b)[h]
    {
      if h in b {
        assert EarlierBorn(mid, b, h) == EarlierBorn(acts, a + b, h);
      } else if h in a {
        assert EarlierBorn(acts, a, h) == EarlierBorn(acts, a + b, h);
      }
    }
  }

  // ----- What the ranks are -----------------------------------------------------------------

  /** Those born in one epoch get the ranks 1 to n, one each. */
  lemma RanksOneToN(acts: seq<Activation>, born: seq<Handle>, epoch: nat)
    requires DistinctBorn(acts, born) && OneEpoch(acts, born, epoch) && epoch != 0
    ensures forall i :: 0 <= i < |born| ==> 1 <= Ranked(acts, born)[born[i]].birthRank <= |born|
    ensures forall i, j :: 0 <= i < j < |born| ==> Ranked(acts, born)[born[i]].birthRank != Ranked(acts, born)[born[j]].birthRank
  {
    hide RecordLess, EarlierBorn;
    forall i | 0 <= i < |born|
      ensures 1 <= Ranked(acts, born)[born[i]].birthRank <= |born|
    {
      EarlierBounded(acts, born, born[i]);
    }
    forall i, j | 0 <= i < j < |born|
      ensures Ranked(acts, born)[born[i]].birthRank != Ranked(acts, born)[born[j]].birthRank
    {
      RecordOrder(acts[born[i]], acts[born[j]], acts[born[i]]);
      if RecordLess(acts[born[i]], acts[born[j]]) {
        EarlierGrows(acts, born, epoch, born[i], born[j]);
      } else {
        EarlierGrows(acts, born, epoch, born[j], born[i]);
      }
    }
  }

  lemma EarlierBounded(acts: seq<Activation>, born: seq<Handle>, h: Handle)
    requires DistinctBorn(acts, born) && h in born && h < |acts|
    ensures |EarlierBorn(acts, born, h)| < |born|
  {
    hide RecordLess;
    RecordOrder(acts[h], acts[h], acts[h]);
    var e := EarlierBorn(acts, born, h);
    assert e < Members(born) by { assert h in Members(born) && h !in e; }
    DistinctSize(born);
    Smaller(e, Members(born));
  }

  lemma Smaller<T>(a: set<T>, b: set<T>)
    requires a < b
    ensures |a| < |b|
  {
    assert b == a + (b - a);
    assert b - a != {};
  }

  lemma EarlierGrows(acts: seq<Activation>, born: seq<Handle>, epoch: nat, h: Handle, k: Handle)
    requires DistinctBorn(acts, born) && OneEpoch(acts, born, epoch) && h in born && k in born && RecordLess(acts[h], acts[k])
    ensures |EarlierBorn(acts, born, h)| < |EarlierBorn(acts, born, k)|
  {
    hide RecordLess;
    var a, b := EarlierBorn(acts, born, h), EarlierBorn(acts, born, k);
    forall x | x in a
      ensures x in b
    {
      RecordOrder(acts[x], acts[h], acts[k]);
    }
    RecordOrder(acts[h], acts[h], acts[h]);
    assert h in b && h !in a;
    Smaller(a, b);
  }

  /** What the canonical order looks at before the ordinal. */
  datatype Record = Record(declarationOrder: int, tuple: seq<BirthEntry>, identity: Identity, rule: RuleId)

  function RecordOf(a: Activation): Record {
    Record(a.declarationOrder, a.tuple, a.identity, a.rule)
  }

  predicate RecordOfLess(l: Record, r: Record) {
    if l.declarationOrder != r.declarationOrder then l.declarationOrder < r.declarationOrder
    else if l.tuple != r.tuple then TupleLess(l.tuple, r.tuple)
    else if l.identity.scopeHash != r.identity.scopeHash then l.identity.scopeHash < r.identity.scopeHash
    else if l.identity.hash != r.identity.hash then l.identity.hash < r.identity.hash
    else l.rule < r.rule
  }

  ghost function RecordsOf(acts: seq<Activation>, born: seq<Handle>): set<Record> {
    set h | h in born && h < |acts| :: RecordOf(acts[h])
  }

  function RecordsBefore(records: set<Record>, r: Record): set<Record> {
    set x | x in records && RecordOfLess(x, r)
  }

  /** Records that differ before the ordinal tie-break. */
  ghost predicate Told(acts: seq<Activation>, born: seq<Handle>) {
    && (forall i :: 0 <= i < |born| ==> born[i] < |acts|)
    && (forall h, k :: h in born && k in born && h != k ==> RecordOf(acts[h]) != RecordOf(acts[k]))
  }

  lemma {:induction false} ImageSize(acts: seq<Activation>, s: set<Handle>)
    requires forall h :: h in s ==> h < |acts|
    requires forall h, k :: h in s && k in s && h != k ==> RecordOf(acts[h]) != RecordOf(acts[k])
    ensures |set h | h in s :: RecordOf(acts[h])| == |s|
    decreases |s|
  {
    if s != {} {
      var x :| x in s;
      ImageSize(acts, s - {x});
      assert (set h | h in s :: RecordOf(acts[h])) == (set h | h in s - {x} :: RecordOf(acts[h])) + {RecordOf(acts[x])};
    }
  }

  lemma EarlierRecords(acts: seq<Activation>, born: seq<Handle>, epoch: nat, h: Handle)
    requires Told(acts, born) && OneEpoch(acts, born, epoch) && h in born && h < |acts|
    ensures |EarlierBorn(acts, born, h)| == |RecordsBefore(RecordsOf(acts, born), RecordOf(acts[h]))|
  {
    var e := EarlierBorn(acts, born, h);
    forall k | k in born && k < |acts|
      ensures k in e <==> RecordOfLess(RecordOf(acts[k]), RecordOf(acts[h]))
    {
      if k == h { TupleOrder(acts[h].tuple, acts[h].tuple, acts[h].tuple); RecordOrder(acts[h], acts[h], acts[h]); }
    }
    hide RecordLess, RecordOfLess, EarlierBorn;
    ImageSize(acts, e);
    var image, before := set k | k in e :: RecordOf(acts[k]), RecordsBefore(RecordsOf(acts, born), RecordOf(acts[h]));
    forall r | r in before
      ensures r in image
    {
      var k :| k in born && k < |acts| && RecordOf(acts[k]) == r;
      assert k in e;
    }
    assert image == before;
  }

  /** The ranks do not depend on the order of insertion, when the records differ before the tie-break. */
  lemma RanksCanonical(acts: seq<Activation>, born: seq<Handle>, epoch: nat, others: seq<Activation>, again: seq<Handle>, later: nat, h: Handle, k: Handle)
    requires Told(acts, born) && OneEpoch(acts, born, epoch) && epoch != 0
    requires Told(others, again) && OneEpoch(others, again, later) && later != 0
    requires RecordsOf(acts, born) == RecordsOf(others, again)
    requires h in born && h < |acts| && k in again && k < |others| && RecordOf(acts[h]) == RecordOf(others[k])
    ensures Ranked(acts, born)[h].birthRank == Ranked(others, again)[k].birthRank
  {
    hide RecordsBefore, RecordsOf, EarlierBorn;
    EarlierRecords(acts, born, epoch, h);
    EarlierRecords(others, again, later, k);
    InBorn(acts, born, h);
    InBorn(others, again, k);
  }

  lemma InBorn(acts: seq<Activation>, born: seq<Handle>, h: Handle)
    requires h in born && h < |acts| && acts[h].birthEpoch != 0
    ensures Ranked(acts, born)[h].birthRank == 1 + |EarlierBorn(acts, born, h)|
  {
  }
}
