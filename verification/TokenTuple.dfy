/**
 Reading the tuple of matched facts off a token's chain of rows, in authored slot order:
 with a 64-bit mask for small rules and an array of flags for large ones.
 */
module TokenTuple {
  import opened Options
  import opened Sequences
  import opened AgendaOrder

  /** A row of the chain: whether it resolves to a match, the slot it fills (negative for none), and its fact. */
  datatype Row = Row(resolves: bool, slot: int, fact: FactRef)

  // ----- What a tuple is -------------------------------------------------------------------

  predicate RowFits(n: nat, r: Row) {
    r.resolves && r.slot < n
  }

  predicate Fills(rows: seq<Row>, s: nat) {
    exists i :: 0 <= i < |rows| && rows[i].slot == s
  }

  /** Every row resolves, no slot is filled twice or beyond the rule, and every slot is filled. */
  predicate WellFilled(n: nat, rows: seq<Row>) {
    && (forall i :: 0 <= i < |rows| ==> RowFits(n, rows[i]))
    && (forall i, j :: 0 <= i < j < |rows| && rows[i].slot >= 0 ==> rows[i].slot != rows[j].slot)
    && (forall s :: 0 <= s < n ==> Fills(rows, s))
  }

  /** The facts of the rows, each at its slot. */
  predicate TupleOf(n: nat, rows: seq<Row>, t: seq<FactRef>) {
    |t| == n && forall i :: 0 <= i < |rows| && 0 <= rows[i].slot < n ==> t[rows[i].slot] == rows[i].fact
  }

  // ----- Masks ------------------------------------------------------------------------------

  /** The bit of weight `2^s`. */
  predicate BitAt(x: nat, s: nat) {
    if s == 0 then x % 2 == 1 else BitAt(x / 2, s - 1)
  }

  /** The word with that bit set. */
  function WithBit(x: nat, s: nat): nat {
    if s == 0 then x - x % 2 + 1 else 2 * WithBit(x / 2, s - 1) + x % 2
  }

  function Pow2(n: nat): nat {
    if n == 0 then 1 else 2 * Pow2(n - 1)
  }

  lemma {:induction false} BitOfWithBit(x: nat, s: nat, t: nat)
    ensures BitAt(WithBit(x, s), t) <==> BitAt(x, t) || s == t
  {
    if s == 0 {
      Halves(x / 2, 1);
      Halves(x / 2, x % 2);
      assert WithBit(x, 0) == 2 * (x / 2) + 1;
    } else {
      Halves(WithBit(x / 2, s - 1), x % 2);
      if t > 0 { BitOfWithBit(x / 2, s - 1, t - 1); }
    }
  }

  lemma Halves(w: nat, b: nat)
    requires b < 2
    ensures (2 * w + b) / 2 == w && (2 * w + b) % 2 == b
  {
  }

  lemma {:induction false} BitOfZero(t: nat)
    ensures !BitAt(0, t)
  {
    if t > 0 { BitOfZero(t - 1); }
  }

  lemma {:induction false} BitOfOnes(n: nat, t: nat)
    ensures Pow2(n) >= 1 && (BitAt(Pow2(n) - 1, t) <==> t < n)
  {
    if n == 0 {
      BitOfZero(t);
    } else {
      BitOfOnes(n - 1, if t == 0 then 0 else t - 1);
      assert (Pow2(n) - 1) / 2 == Pow2(n - 1) - 1;
    }
  }

  /** A word is known by its bits. */
  lemma {:induction false} SameBits(x: nat, y: nat)
    requires forall t :: 0 <= t ==> BitAt(x, t) == BitAt(y, t)
    ensures x == y
    decreases x + y
  {
    assert BitAt(x, 0) == BitAt(y, 0);
    if x + y > 0 {
      forall t | 0 <= t
        ensures BitAt(x / 2, t) == BitAt(y / 2, t)
      {
        assert BitAt(x, t + 1) == BitAt(y, t + 1);
      }
      SameBits(x / 2, y / 2);
    }
  }

  ghost predicate HasBits(x: nat, n: nat) {
    forall t: nat :: BitAt(x, t) == (t < n)
  }

  /** The word of `n` ones is the one with exactly the first `n` bits. */
  lemma Ones(n: nat, x: nat)
    ensures Pow2(n) >= 1
    ensures x == Pow2(n) - 1 <==> HasBits(x, n)
  {
    BitOfOnes(n, 0);
    var y: nat := Pow2(n) - 1;
    forall t: nat
      ensures BitAt(y, t) <==> t < n
    {
      BitOfOnes(n, t);
    }
    if HasBits(x, n) { SameBits(x, y); }
  }

  // ----- Reading the chain --------------------------------------------------------------------

  /** The slots filled by the first `k` rows are those marked, and their facts are in place. */
  ghost predicate ReadSoFar(n: nat, rows: seq<Row>, k: nat, marked: set<nat>, t: seq<FactRef>)
    requires k <= |rows|
  {
    && |t| == n
    && (forall i :: 0 <= i < k ==> RowFits(n, rows[i]))
    && (forall i, j :: 0 <= i < j < k && rows[i].slot >= 0 ==> rows[i].slot != rows[j].slot)
    && (forall s: nat :: s in marked <==> exists i :: 0 <= i < k && rows[i].slot == s)
    && (forall i :: 0 <= i < k && rows[i].slot >= 0 ==> t[rows[i].slot] == rows[i].fact)
  }

  lemma ReadNothing(n: nat, rows: seq<Row>, t: seq<FactRef>)
    requires |t| == n
    ensures ReadSoFar(n, rows, 0, {}, t)
  {
  }

  lemma Misfit(n: nat, rows: seq<Row>, k: nat)
    requires k < |rows| && !RowFits(n, rows[k])
    ensures !WellFilled(n, rows)
  {
  }

  /** A filled slot met again spoils the whole chain. */
  lemma Repeated(n: nat, rows: seq<Row>, k: nat, marked: set<nat>, t: seq<FactRef>)
    requires k < |rows| && ReadSoFar(n, rows, k, marked, t) && rows[k].slot >= 0 && rows[k].slot in marked
    ensures !WellFilled(n, rows)
  {
    assert exists i :: 0 <= i < k && rows[i].slot == rows[k].slot;
    var i :| 0 <= i < k && rows[i].slot == rows[k].slot;
  }

  lemma ReadNext(n: nat, rows: seq<Row>, k: nat, marked: set<nat>, t: seq<FactRef>)
    requires k < |rows| && ReadSoFar(n, rows, k, marked, t) && RowFits(n, rows[k])
    requires rows[k].slot >= 0 ==> rows[k].slot !in marked
    ensures |t| == n
    ensures rows[k].slot < 0 ==> ReadSoFar(n, rows, k + 1, marked, t)
    ensures rows[k].slot >= 0 ==> ReadSoFar(n, rows, k + 1, marked + {rows[k].slot}, t[rows[k].slot := rows[k].fact])
  {
    var s := rows[k].slot;
    if s >= 0 {
      forall i | 0 <= i < k && rows[i].slot >= 0
        ensures rows[i].slot != s
      {
        assert rows[i].slot in marked;
      }
    }
  }

  lemma ReadDone(n: nat, rows: seq<Row>, marked: set<nat>, t: seq<FactRef>)
    requires ReadSoFar(n, rows, |rows|, marked, t)
    ensures WellFilled(n, rows) <==> forall s :: 0 <= s < n ==> s in marked
    ensures TupleOf(n, rows, t)
    ensures forall s :: s in marked ==> s < n
  {
    if forall s :: 0 <= s < n ==> s in marked {
      forall s | 0 <= s < n
        ensures Fills(rows, s)
      {
        assert s in marked;
      }
    }
    if WellFilled(n, rows) {
      forall s | 0 <= s < n
        ensures s in marked
      {
        assert Fills(rows, s);
      }
    }
  }

  const NO_FACT := FactRef(0, 0)

  /** For rules of at most 64 conditions: one bit of a word per slot. */
  method TupleByMask(n: nat, rows: seq<Row>) returns (r: Option<seq<FactRef>>)
    requires n <= 64
    ensures r.Some? <==> WellFilled(n, rows)
    ensures r.Some? ==> TupleOf(n, rows, r.value)
  {
    hide ReadSoFar, WellFilled, TupleOf;
    var t := seq(n, _ => NO_FACT);
    ReadNothing(n, rows, t);
    var seen: nat := 0;
    ghost var marked: set<nat> := {};
    forall s: nat { BitOfZero(s); }
    for k := 0 to |rows|
      invariant ReadSoFar(n, rows, k, marked, t)
      invariant forall s: nat :: BitAt(seen, s) <==> s in marked
    {
      if !rows[k].resolves || rows[k].slot >= n {
        Misfit(n, rows, k);
        return None;
      }
      var slot := rows[k].slot;
      if slot < 0 {
        ReadNext(n, rows, k, marked, t);
        continue;
      }
      if BitAt(seen, slot) {
        Repeated(n, rows, k, marked, t);
        return None;
      }
      ReadNext(n, rows, k, marked, t);
      forall s: nat { BitOfWithBit(seen, slot, s); }
      seen := WithBit(seen, slot);
      marked := marked + {slot};
      t := t[slot := rows[k].fact];
    }
    ReadDone(n, rows, marked, t);
    Ones(n, seen);
    if seen != Pow2(n) - 1 { return None; }
    r := Some(t);
  }

  /** For larger rules: one flag per slot, and a count. */
  method TupleByFlags(n: nat, rows: seq<Row>) returns (r: Option<seq<FactRef>>)
    ensures r.Some? <==> WellFilled(n, rows)
    ensures r.Some? ==> TupleOf(n, rows, r.value)
  {
    hide ReadSoFar, WellFilled, TupleOf;
    var t := seq(n, _ => NO_FACT);
    ReadNothing(n, rows, t);
    var seen := seq(n, _ => false);
    var seenCount: nat := 0;
    ghost var marked: set<nat> := {};
    for k := 0 to |rows|
      invariant ReadSoFar(n, rows, k, marked, t)
      invariant |seen| == n && (forall s :: 0 <= s < n ==> (seen[s] <==> s in marked))
      invariant seenCount == |marked|
    {
      if !rows[k].resolves || rows[k].slot >= n {
        Misfit(n, rows, k);
        return None;
      }
      var slot := rows[k].slot;
      if slot < 0 {
        ReadNext(n, rows, k, marked, t);
        continue;
      }
      if seen[slot] {
        Repeated(n, rows, k, marked, t);
        return None;
      }
      ReadNext(n, rows, k, marked, t);
      seen := seen[slot := true];
      seenCount := seenCount + 1;
      marked := marked + {slot};
      t := t[slot := rows[k].fact];
    }
    ReadDone(n, rows, marked, t);
    AllMarked(n, marked);
    if seenCount != n { return None; }
    r := Some(t);
  }

  lemma AllMarked(n: nat, marked: set<nat>)
    requires forall s :: s in marked ==> s < n
    ensures |marked| == n <==> forall s :: 0 <= s < n ==> s in marked
  {
    assert marked <= Below(n);
    assert Below(n) == marked + (Below(n) - marked);
    if |marked| == n { assert Below(n) - marked == {}; }
  }

  /** The tuple of a token, if it has rows and the rule conditions. */
  method TerminalTokenFactTuple(n: nat, rows: seq<Row>) returns (r: Option<seq<FactRef>>)
    ensures r.Some? <==> n > 0 && rows != [] && WellFilled(n, rows)
    ensures r.Some? ==> TupleOf(n, rows, r.value)
  {
    if |rows| == 0 || n == 0 { return None; }
    if n <= 64 {
      r := TupleByMask(n, rows);
    } else {
      r := TupleByFlags(n, rows);
    }
  }

  // ----- The order of the rows does not matter ---------------------------------------------------

  lemma MemberOf(a: seq<Row>, b: seq<Row>, i: nat)
    requires multiset(a) == multiset(b) && i < |a|
    ensures a[i] in b
  {
    assert a[i] in multiset(a);
  }

  /** Two chains with the same rows are well filled together, and give the same tuple. */
  lemma TupleOrderIrrelevant(n: nat, a: seq<Row>, b: seq<Row>, s: seq<FactRef>, t: seq<FactRef>)
    requires multiset(a) == multiset(b)
    ensures WellFilled(n, a) ==> WellFilled(n, b)
    ensures WellFilled(n, a) && TupleOf(n, a, s) && TupleOf(n, b, t) ==> s == t
  {
    if WellFilled(n, a) {
      forall i | 0 <= i < |b|
        ensures RowFits(n, b[i])
      {
        MemberOf(b, a, i);
      }
      forall i, j | 0 <= i < j < |b| && b[i].slot >= 0
        ensures b[i].slot != b[j].slot
      {
        MemberOf(b, a, i);
        MemberOf(b, a, j);
        if b[i] == b[j] {
          var _, _ := RepeatedBoth(a, b, i, j);
        }
      }
      forall q | 0 <= q < n
        ensures Fills(b, q)
        ensures TupleOf(n, a, s) && TupleOf(n, b, t) ==> s[q] == t[q]
      {
        assert Fills(a, q);
        var i :| 0 <= i < |a| && a[i].slot == q;
        MemberOf(a, b, i);
        var j :| 0 <= j < |b| && b[j] == a[i];
      }
    }
  }
}
