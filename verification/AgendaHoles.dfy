/**
 Heaps in breadth order with several handles out of place: births wait for their ranks where they
 were queued, and are sunk one by one. Which of them may stand above which decides whether every
 repair finds what it needs.
 */
module AgendaHoles {
  import opened AgendaOrder
  import opened AgendaHeap
  import opened BirthRanks
  import opened AgendaBirths

  // ----- Places above each other ----------------------------------------------------------

  /** Place `i` is a proper ancestor of place `j`. */
  predicate Above(i: int, j: int)
    decreases j
  {
    1 <= i < j && (j / 2 == i || Above(i, j / 2))
  }

  lemma {:induction false} AboveTransitive(i: nat, j: nat, k: nat)
    requires Above(i, j) && Above(j, k)
    ensures Above(i, k)
    decreases k
  {
    if k / 2 != j { AboveTransitive(i, j, k / 2); }
  }

  /** What is below `p` is a child of `p` or below one. */
  lemma {:induction false} BelowChild(p: nat, q: nat)
    requires Above(p, q)
    ensures q == 2 * p || q == 2 * p + 1 || Above(2 * p, q) || Above(2 * p + 1, q)
    decreases q
  {
    if q / 2 != p { BelowChild(p, q / 2); }
  }

  // ----- Heap order with births pending ------------------------------------------------------

  predicate SameSalience(acts: seq<Activation>, a: Handle, b: Handle) {
    a < |acts| && b < |acts| && acts[a].salience == acts[b].salience
  }

  predicate NoHigher(acts: seq<Activation>, d: Handle, a: Handle) {
    a < |acts| && d < |acts| && acts[d].salience <= acts[a].salience
  }

  /**
   `a` may stand above `d`: in order, if `a` is in place; a birth pending may stand above anything of
   no higher salience, and above another birth of the same salience only if that ranks earlier.
   */
  predicate MayStand(o: Order, acts: seq<Activation>, pending: set<Handle>, a: Handle, d: Handle) {
    if a !in pending then !Before(o, acts, d, a)
    else NoHigher(acts, d, a) && (d in pending && SameSalience(acts, d, a) ==> RecordBefore(acts, d, a))
  }

  ghost predicate Loose(o: Order, acts: seq<Activation>, h: seq<Handle>, pending: set<Handle>) {
    forall i, j :: Above(i, j) && j < |h| ==> MayStand(o, acts, pending, h[i], h[j])
  }

  lemma BreadthSalience(o: Order, acts: seq<Activation>, a: Handle, b: Handle)
    requires o.strategy == Breadth && a < |acts| && b < |acts|
    ensures Before(o, acts, a, b) ==> NoHigher(acts, b, a)
    ensures !Before(o, acts, b, a) ==> NoHigher(acts, b, a)
    ensures NoHigher(acts, b, a) && !SameSalience(acts, a, b) ==> !Before(o, acts, b, a)
  {
  }

  /** Heap order is the same said of parents and of all ancestors. */
  lemma OrderedLoose(o: Order, acts: seq<Activation>, h: seq<Handle>)
    requires Distinguished(acts) && HandlesIn(acts, h)
    ensures HeapOrdered(o, acts, h) <==> Loose(o, acts, h, {})
  {
    hide Before, Distinguished;
    if HeapOrdered(o, acts, h) {
      forall i, j | Above(i, j) && j < |h|
        ensures !Before(o, acts, h[j], h[i])
      {
        AncestorFirst(o, acts, h, i, j);
      }
    }
    if Loose(o, acts, h, {}) {
      forall j | 2 <= j < |h|
        ensures Settled(o, acts, h, j)
      {
        assert Above(j / 2, j);
      }
    }
  }

  lemma {:induction false} AncestorFirst(o: Order, acts: seq<Activation>, h: seq<Handle>, i: nat, j: nat)
    requires Distinguished(acts) && HandlesIn(acts, h) && HeapOrdered(o, acts, h) && Above(i, j) && j < |h|
    ensures !Before(o, acts, h[j], h[i])
    decreases j
  {
    hide Before, Distinguished;
    assert Settled(o, acts, h, j);
    if j / 2 != i {
      AncestorFirst(o, acts, h, i, j / 2);
      BeforeOrder(o, acts, h[i], h[j / 2], h[j]);
    }
  }

  // ----- A birth is queued ------------------------------------------------------------------

  /** Some other birth pending has the salience of `x`. */
  ghost predicate Contested(acts: seq<Activation>, pending: set<Handle>, x: Handle) {
    exists z :: z in pending && z != x && SameSalience(acts, z, x)
  }

  /**
   Among the handles `hs` nothing of the salience of `x` spoils its rise: births pending rank earlier,
   and if there are any, `x` comes before everything of its salience.
   */
  ghost predicate Leads(o: Order, acts: seq<Activation>, hs: set<Handle>, pending: set<Handle>, x: Handle) {
    forall y :: y in hs && y != x && SameSalience(acts, y, x) ==>
      && (y in pending ==> RecordBefore(acts, y, x))
      && (Contested(acts, pending, x) ==> Before(o, acts, x, y))
  }

  /** Loose but for `x` at place `i`, which has nothing of higher salience below it. */
  ghost predicate LooseRising(o: Order, acts: seq<Activation>, h: seq<Handle>, pending: set<Handle>, i: nat)
    requires i < |h|
  {
    && (forall a, b :: Above(a, b) && b < |h| && a != i && b != i ==> MayStand(o, acts, pending, h[a], h[b]))
    && (forall b :: Above(i, b) && b < |h| ==> NoHigher(acts, h[b], h[i]))
  }

  /** The handles of a heap are among `hs`, and `x` is at `i` only. */
  predicate Sole(acts: seq<Activation>, h: seq<Handle>, hs: set<Handle>, i: nat)
    requires i < |h|
  {
    forall k :: 1 <= k < |h| ==> h[k] in hs && h[k] < |acts| && (h[k] == h[i] ==> k == i)
  }

  lemma LooseRiseStep(o: Order, acts: seq<Activation>, h: seq<Handle>, hs: set<Handle>, pending: set<Handle>, i: nat)
    requires o.strategy == Breadth && Distinguished(acts) && 1 < i < |h| && Sole(acts, h, hs, i)
    requires LooseRising(o, acts, h, pending, i) && Before(o, acts, h[i], h[i / 2])
    ensures LooseRising(o, acts, Swapped(h, i, i / 2), pending, i / 2) && Sole(acts, Swapped(h, i, i / 2), hs, i / 2)
  {
    hide Before, Distinguished, RecordBefore;
    var p, t := i / 2, Swapped(h, i, i / 2);
    var x, y := h[i], h[p];
    assert Above(p, i);
    BreadthSalience(o, acts, x, y);
    forall a, b | Above(a, b) && b < |t| && a != p && b != p
      ensures MayStand(o, acts, pending, t[a], t[b])
    {
      if b == i { assert Above(a, p); }
      if a == i { AboveTransitive(p, i, b); }
    }
    forall b | Above(p, b) && b < |t|
      ensures NoHigher(acts, t[b], x)
    {
      if b != i {
        assert t[b] == h[b];
        if !Above(i, b) {
          assert MayStand(o, acts, pending, y, h[b]);
          BreadthSalience(o, acts, y, h[b]);
        }
      }
    }
  }

  lemma LooseRiseDone(o: Order, acts: seq<Activation>, h: seq<Handle>, hs: set<Handle>, pending: set<Handle>, i: nat)
    requires o.strategy == Breadth && Distinguished(acts) && 1 <= i < |h| && Sole(acts, h, hs, i)
    requires LooseRising(o, acts, h, pending, i) && Leads(o, acts, hs, pending, h[i]) && h[i] !in pending && pending <= hs
    requires i == 1 || !Before(o, acts, h[i], h[i / 2])
    ensures Loose(o, acts, h, pending + {h[i]})
  {
    hide Before, Distinguished, RecordBefore;
    var x, more := h[i], pending + {h[i]};
    forall a, b | Above(a, b) && b < |h|
      ensures MayStand(o, acts, more, h[a], h[b])
    {
      if a == i {
      } else if b == i {
        StopsBelow(o, acts, h, hs, pending, i, a);
      }
    }
  }

  /** Where `x` stops, everything above it may stand there. */
  lemma StopsBelow(o: Order, acts: seq<Activation>, h: seq<Handle>, hs: set<Handle>, pending: set<Handle>, i: nat, a: nat)
    requires o.strategy == Breadth && Distinguished(acts) && 1 <= i < |h| && Sole(acts, h, hs, i)
    requires LooseRising(o, acts, h, pending, i) && Leads(o, acts, hs, pending, h[i]) && h[i] !in pending && pending <= hs
    requires i == 1 || !Before(o, acts, h[i], h[i / 2])
    requires Above(a, i)
    ensures if h[a] !in pending then !Before(o, acts, h[i], h[a]) else NoHigher(acts, h[i], h[a]) && !SameSalience(acts, h[i], h[a])
  {
    hide Before, Distinguished, RecordBefore;
    var x, p := h[i], i / 2;
    BreadthSalience(o, acts, h[p], x);
    assert h[p] in hs && h[a] in hs;
    assert h[a] in pending && SameSalience(acts, h[a], x) ==> Contested(acts, pending, x);
    assert h[p] in pending && SameSalience(acts, h[p], x) ==> Contested(acts, pending, x);
    if a != p {
      assert Above(a, p) && MayStand(o, acts, pending, h[a], h[p]);
      BreadthSalience(o, acts, h[a], h[p]);
      BreadthSalience(o, acts, h[a], x);
      BeforeOrder(o, acts, h[a], h[p], x);
    }
  }

  /** A birth that leads its salience leaves the heap loose where it comes to rest, itself pending. */
  lemma {:induction false} LooseRises(o: Order, acts: seq<Activation>, h: seq<Handle>, hs: set<Handle>, pending: set<Handle>, i: nat)
    requires o.strategy == Breadth && Distinguished(acts) && 1 <= i < |h| && Sole(acts, h, hs, i)
    requires LooseRising(o, acts, h, pending, i) && Leads(o, acts, hs, pending, h[i]) && h[i] !in pending && pending <= hs
    ensures Loose(o, acts, SiftedUp(o, acts, h, i), pending + {h[i]})
    decreases i
  {
    hide Before, Distinguished, Loose, LooseRising, Leads, Sole;
    if i > 1 && Before(o, acts, h[i], h[i / 2]) {
      LooseRiseStep(o, acts, h, hs, pending, i);
      LooseRises(o, acts, Swapped(h, i, i / 2), hs, pending, i / 2);
    } else {
      LooseRiseDone(o, acts, h, hs, pending, i);
    }
  }

  /** A birth queued at the end of a loose heap. */
  lemma LoosePushed(o: Order, acts: seq<Activation>, q: seq<Handle>, hs: set<Handle>, pending: set<Handle>, x: Handle)
    requires o.strategy == Breadth && Distinguished(acts) && |q| >= 1 && x < |acts| && x !in pending && pending <= hs
    requires forall k :: 1 <= k < |q| ==> q[k] in hs && q[k] < |acts| && q[k] != x
    requires Loose(o, acts, q, pending) && x in hs && Leads(o, acts, hs, pending, x)
    ensures Loose(o, acts, SiftedUp(o, acts, q + [x], |q|), pending + {x})
  {
    hide Before, Distinguished, Leads, MayStand;
    var h := q + [x];
    assert h[|q|] == x;
    assert LooseRising(o, acts, h, pending, |q|) by {
      forall b | Above(|q|, b) && b < |h|
        ensures false
      {
      }
    }
    LooseRises(o, acts, h, hs, pending, |q|);
  }

  // ----- A birth gets its rank -----------------------------------------------------------------

  /** Births pending have no rank yet, those of one salience share an epoch, and `x` ranks before those of its own. */
  ghost predicate RanksFirst(acts: seq<Activation>, pending: set<Handle>, x: Handle) {
    forall y :: y in pending && y != x && SameSalience(acts, y, x) ==>
      RecordBefore(acts, x, y) && acts[y].birthEpoch == acts[x].birthEpoch && acts[y].birthRank == 0
  }

  /** A birth later in its salience than all that is pending of it sinks; it is never above its parent. */
  lemma NeverRises(o: Order, acts: seq<Activation>, h: seq<Handle>, pending: set<Handle>, i: nat)
    requires o.strategy == Breadth && Distinguished(acts) && HandlesIn(acts, h) && 1 < i < |h| && h[i] in pending
    requires Loose(o, acts, h, pending) && RanksFirst(acts, pending, h[i]) && acts[h[i]].birthRank > 0 && h[i / 2] != h[i]
    ensures !Before(o, acts, h[i], h[i / 2])
  {
    hide Distinguished, RecordBefore;
    assert Above(i / 2, i);
    assert MayStand(o, acts, pending, h[i / 2], h[i]);
  }

  /** What is pending of the salience of `x` is not below it. */
  lemma NoneBelow(o: Order, acts: seq<Activation>, h: seq<Handle>, pending: set<Handle>, i: nat, j: nat)
    requires Distinguished(acts) && HandlesIn(acts, h) && Above(i, j) && j < |h| && h[i] in pending && h[j] != h[i]
    requires Loose(o, acts, h, pending) && RanksFirst(acts, pending, h[i])
    ensures h[j] in pending ==> !SameSalience(acts, h[j], h[i])
  {
    assert MayStand(o, acts, pending, h[i], h[j]);
    RecordOrder(acts[h[i]], acts[h[j]], acts[h[i]]);
  }

  lemma LooseSinkStep(o: Order, acts: seq<Activation>, h: seq<Handle>, hs: set<Handle>, pending: set<Handle>, i: nat)
    requires o.strategy == Breadth && Distinguished(acts) && 1 <= i && 2 * i < |h| && Sole(acts, h, hs, i)
    requires Loose(o, acts, h, pending) && h[i] in pending && RanksFirst(acts, pending, h[i])
    requires Before(o, acts, h[FirstChild(o, acts, h, i)], h[i])
    ensures var c := FirstChild(o, acts, h, i); Loose(o, acts, Swapped(h, i, c), pending) && Sole(acts, Swapped(h, i, c), hs, c)
  {
    hide Before, Distinguished, RecordBefore, RanksFirst;
    var c := FirstChild(o, acts, h, i);
    var t, x, y := Swapped(h, i, c), h[i], h[c];
    assert Above(i, c);
    ChildInPlace(o, acts, h, hs, pending, i);
    forall a, b | Above(a, b) && b < |t|
      ensures MayStand(o, acts, pending, t[a], t[b])
    {
      if b == i {
        AboveTransitive(a, i, c);
      } else if b == c {
        if a == i { BeforeOrder(o, acts, y, x, y); }
      } else if a == c {
        AboveTransitive(i, c, b);
      } else if a == i {
        BelowFirstChild(o, acts, h, hs, pending, i, b);
      }
    }
  }

  /** The child that comes before a birth being sunk is in place. */
  lemma ChildInPlace(o: Order, acts: seq<Activation>, h: seq<Handle>, hs: set<Handle>, pending: set<Handle>, i: nat)
    requires o.strategy == Breadth && Distinguished(acts) && 1 <= i && 2 * i < |h| && Sole(acts, h, hs, i)
    requires Loose(o, acts, h, pending) && h[i] in pending && RanksFirst(acts, pending, h[i])
    requires Before(o, acts, h[FirstChild(o, acts, h, i)], h[i])
    ensures h[FirstChild(o, acts, h, i)] !in pending && SameSalience(acts, h[FirstChild(o, acts, h, i)], h[i])
  {
    hide Before, Distinguished, RecordBefore, RanksFirst;
    var c := FirstChild(o, acts, h, i);
    assert Above(i, c);
    assert MayStand(o, acts, pending, h[i], h[c]);
    BreadthSalience(o, acts, h[c], h[i]);
    NoneBelow(o, acts, h, pending, i, c);
  }

  /** Nothing below a birth being sunk comes before its first child. */
  lemma BelowFirstChild(o: Order, acts: seq<Activation>, h: seq<Handle>, hs: set<Handle>, pending: set<Handle>, i: nat, b: nat)
    requires o.strategy == Breadth && Distinguished(acts) && 1 <= i && 2 * i < |h| && Sole(acts, h, hs, i)
    requires Loose(o, acts, h, pending) && h[i] in pending && RanksFirst(acts, pending, h[i])
    requires Before(o, acts, h[FirstChild(o, acts, h, i)], h[i])
    requires Above(i, b) && b < |h| && b != FirstChild(o, acts, h, i)
    ensures !Before(o, acts, h[b], h[FirstChild(o, acts, h, i)])
  {
    hide Before, Distinguished, RecordBefore, RanksFirst;
    var c := FirstChild(o, acts, h, i);
    var y := h[c];
    ChildInPlace(o, acts, h, hs, pending, i);
    assert Above(i, c);
    if Above(c, b) {
      assert MayStand(o, acts, pending, y, h[b]);
    } else {
      BelowChild(i, b);
      var d := if c == 2 * i then 2 * i + 1 else 2 * i;
      assert d < |h| && Above(i, d) && (b == d || Above(d, b));
      BeforeOrder(o, acts, h[2 * i], h[2 * i + 1], h[2 * i]);
      assert !Before(o, acts, h[d], y);
      if b != d { BelowAfter(o, acts, h, hs, pending, i, d, b, y); }
    }
  }

  /** If the child `d` does not come before `y`, of the salience of the birth, nothing below it does. */
  lemma BelowAfter(o: Order, acts: seq<Activation>, h: seq<Handle>, hs: set<Handle>, pending: set<Handle>, i: nat, d: nat, b: nat, y: Handle)
    requires o.strategy == Breadth && Distinguished(acts) && 1 <= i < |h| && Sole(acts, h, hs, i)
    requires Loose(o, acts, h, pending) && h[i] in pending && RanksFirst(acts, pending, h[i])
    requires Above(i, d) && Above(d, b) && b < |h| && SameSalience(acts, y, h[i]) && !Before(o, acts, h[d], y)
    ensures !Before(o, acts, h[b], y)
  {
    hide Before, Distinguished, RecordBefore, RanksFirst;
    assert MayStand(o, acts, pending, h[d], h[b]) && MayStand(o, acts, pending, h[i], h[d]);
    if h[d] !in pending {
      BeforeOrder(o, acts, y, h[d], h[b]);
    } else {
      NoneBelow(o, acts, h, pending, i, d);
      BreadthSalience(o, acts, y, h[b]);
    }
  }

  lemma LooseSinkDone(o: Order, acts: seq<Activation>, h: seq<Handle>, hs: set<Handle>, pending: set<Handle>, i: nat)
    requires o.strategy == Breadth && Distinguished(acts) && 1 <= i < |h| && Sole(acts, h, hs, i)
    requires Loose(o, acts, h, pending) && h[i] in pending && RanksFirst(acts, pending, h[i])
    requires 2 * i >= |h| || !Before(o, acts, h[FirstChild(o, acts, h, i)], h[i])
    ensures Loose(o, acts, h, pending - {h[i]})
  {
    hide Before, Distinguished, RecordBefore, RanksFirst;
    var x, less := h[i], pending - {h[i]};
    forall a, b | Above(a, b) && b < |h|
      ensures MayStand(o, acts, less, h[a], h[b])
    {
      assert MayStand(o, acts, pending, h[a], h[b]);
      if a == i {
        BelowChild(i, b);
        assert 2 * i < |h| by { if 2 * i >= |h| { AboveTwice(i, b); } }
        var d := if b == 2 * i || Above(2 * i, b) then 2 * i else 2 * i + 1;
        if d == 2 * i + 1 && b != d { AboveTwice(d, b); }
        assert Above(i, d);
        var c := FirstChild(o, acts, h, i);
        BeforeOrder(o, acts, h[c], h[d], h[c]);
        BeforeOrder(o, acts, x, h[c], h[d]);
        if b != d { BelowAfter(o, acts, h, hs, pending, i, d, b, x); }
      }
    }
  }

  lemma {:induction false} AboveTwice(i: nat, j: nat)
    requires Above(i, j)
    ensures j >= 2 * i && j > i
    decreases j
  {
    if j / 2 != i { AboveTwice(i, j / 2); }
  }

  lemma {:induction false} LooseSinks(o: Order, acts: seq<Activation>, h: seq<Handle>, hs: set<Handle>, pending: set<Handle>, i: nat)
    requires o.strategy == Breadth && Distinguished(acts) && 1 <= i < |h| && Sole(acts, h, hs, i)
    requires Loose(o, acts, h, pending) && h[i] in pending && RanksFirst(acts, pending, h[i])
    ensures Loose(o, acts, SiftedDown(o, acts, h, i), pending - {h[i]})
    decreases |h| - i
  {
    hide Before, Distinguished, Loose, Sole, RanksFirst;
    if 2 * i < |h| && Before(o, acts, h[FirstChild(o, acts, h, i)], h[i]) {
      var c := FirstChild(o, acts, h, i);
      LooseSinkStep(o, acts, h, hs, pending, i);
      LooseSinks(o, acts, Swapped(h, i, c), hs, pending, c);
    } else {
      LooseSinkDone(o, acts, h, hs, pending, i);
    }
  }

  /** The repair of the birth that ranks first of its salience leaves it in place. */
  lemma LooseRefitted(o: Order, acts: seq<Activation>, h: seq<Handle>, hs: set<Handle>, pending: set<Handle>, i: nat)
    requires o.strategy == Breadth && Distinguished(acts) && 1 <= i < |h| && Sole(acts, h, hs, i)
    requires Loose(o, acts, h, pending) && h[i] in pending && RanksFirst(acts, pending, h[i]) && acts[h[i]].birthRank > 0
    ensures Loose(o, acts, Refitted(o, acts, h, i), pending - {h[i]})
  {
    hide Before, Distinguished, Loose, RanksFirst;
    if i > 1 { NeverRises(o, acts, h, pending, i); }
    LooseSinks(o, acts, h, hs, pending, i);
  }

  // ----- Keys that grow ---------------------------------------------------------------------------

  /** The activation now comes later among its salience, and nothing else about its place changes. */
  predicate Falls(a: Activation, b: Activation) {
    && b == a.(birthEpoch := b.birthEpoch, birthRank := b.birthRank)
    && (a.birthEpoch < b.birthEpoch || (a.birthEpoch == b.birthEpoch && a.birthRank <= b.birthRank))
  }

  /** A birth pending may grow. */
  lemma LooseFalls(o: Order, acts: seq<Activation>, h: seq<Handle>, pending: set<Handle>, x: Handle, a: Activation)
    requires o.strategy == Breadth && HandlesIn(acts, h) && x < |acts| && x in pending && Falls(acts[x], a)
    requires Loose(o, acts, h, pending)
    ensures Loose(o, acts[x := a], h, pending)
  {
    forall i, j | Above(i, j) && j < |h|
      ensures MayStand(o, acts[x := a], pending, h[i], h[j])
    {
      assert MayStand(o, acts, pending, h[i], h[j]);
    }
  }
}
