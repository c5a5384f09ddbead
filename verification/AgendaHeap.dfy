/**
 Binary heaps of handles, rooted at position 1: position 0 holds nothing, and the
 children of position `i` are `2i` and `2i + 1`.
 */
module AgendaHeap {
  import opened AgendaOrder

  /** The handle at `j` does not come before its parent. */
  predicate Settled(o: Order, acts: seq<Activation>, h: seq<Handle>, j: nat)
    requires j < |h|
  {
    j < 2 || !Before(o, acts, h[j], h[j / 2])
  }

  ghost predicate HeapOrdered(o: Order, acts: seq<Activation>, h: seq<Handle>) {
    forall j :: 2 <= j < |h| ==> Settled(o, acts, h, j)
  }

  /** Children of `i` do not come before the parent of `i`. */
  ghost predicate Bridged(o: Order, acts: seq<Activation>, h: seq<Handle>, i: nat)
    requires i < |h|
  {
    forall j :: 2 <= j < |h| && j / 2 == i && i >= 2 ==> !Before(o, acts, h[j], h[i / 2])
  }

  /** In heap order but for the handle at `i`, which may belong higher or lower. */
  ghost predicate Hole(o: Order, acts: seq<Activation>, h: seq<Handle>, i: nat)
    requires i < |h|
  {
    && (forall j :: 2 <= j < |h| && j != i && j / 2 != i ==> Settled(o, acts, h, j))
    && Bridged(o, acts, h, i)
  }

  /** The handle at `i` may only belong higher. */
  ghost predicate Rising(o: Order, acts: seq<Activation>, h: seq<Handle>, i: nat)
    requires i < |h|
  {
    && (forall j :: 2 <= j < |h| && j != i ==> Settled(o, acts, h, j))
    && Bridged(o, acts, h, i)
  }

  /** The handle at `i` may only belong lower. */
  ghost predicate Sinking(o: Order, acts: seq<Activation>, h: seq<Handle>, i: nat)
    requires i < |h|
  {
    && (forall j :: 2 <= j < |h| && j / 2 != i ==> Settled(o, acts, h, j))
    && Bridged(o, acts, h, i)
  }

  function Swapped(h: seq<Handle>, i: nat, j: nat): (r: seq<Handle>)
    requires i < |h| && j < |h|
    ensures |r| == |h|
  {
    h[i := h[j]][j := h[i]]
  }

  ghost predicate HandlesIn(acts: seq<Activation>, h: seq<Handle>) {
    forall j :: 1 <= j < |h| ==> h[j] < |acts|
  }

  lemma RiseStep(o: Order, acts: seq<Activation>, h: seq<Handle>, i: nat)
    requires Distinguished(acts) && HandlesIn(acts, h) && 1 < i < |h|
    requires Rising(o, acts, h, i) && Before(o, acts, h[i], h[i / 2])
    ensures Rising(o, acts, Swapped(h, i, i / 2), i / 2)
  {
    hide Before, Distinguished;
    var p, t := i / 2, Swapped(h, i, i / 2);
    forall j | 2 <= j < |t| && j != p
      ensures Settled(o, acts, t, j)
    {
      assert Settled(o, acts, h, j) || j == i;
      if j == i {
        BeforeOrder(o, acts, h[i], h[p], h[i]);
      } else if j / 2 == p {
        BeforeOrder(o, acts, h[i], h[p], h[j]);
      }
    }
    forall j | 2 <= j < |t| && j / 2 == p && p >= 2
      ensures !Before(o, acts, t[j], t[p / 2])
    {
      assert Settled(o, acts, h, p);
      if j != i {
        assert Settled(o, acts, h, j);
        BeforeOrder(o, acts, h[p / 2], h[p], h[j]);
      }
    }
  }

  lemma RiseDone(o: Order, acts: seq<Activation>, h: seq<Handle>, i: nat)
    requires i < |h| && Rising(o, acts, h, i) && Settled(o, acts, h, i)
    ensures HeapOrdered(o, acts, h)
  {
  }

  /** The child of `i` that comes first. */
  function FirstChild(o: Order, acts: seq<Activation>, h: seq<Handle>, i: nat): nat
    requires 2 * i < |h|
  {
    if 2 * i + 1 < |h| && Before(o, acts, h[2 * i + 1], h[2 * i]) then 2 * i + 1 else 2 * i
  }

  lemma SinkStep(o: Order, acts: seq<Activation>, h: seq<Handle>, i: nat)
    requires Distinguished(acts) && HandlesIn(acts, h) && 1 <= i && 2 * i < |h|
    requires Sinking(o, acts, h, i) && Before(o, acts, h[FirstChild(o, acts, h, i)], h[i])
    ensures Sinking(o, acts, Swapped(h, i, FirstChild(o, acts, h, i)), FirstChild(o, acts, h, i))
  {
    hide Before, Distinguished;
    var c := FirstChild(o, acts, h, i);
    var t := Swapped(h, i, c);
    assert c / 2 == i && c != i;
    forall j | 2 <= j < |t| && j / 2 != c
      ensures Settled(o, acts, t, j)
    {
      if j == i {
        assert !Before(o, acts, h[c], h[i / 2]);
      } else if j == c {
        BeforeOrder(o, acts, h[c], h[i], h[c]);
      } else if j / 2 == i {
        assert j == 2 * i || j == 2 * i + 1;
        BeforeOrder(o, acts, h[2 * i], h[2 * i + 1], h[2 * i]);
      } else {
        assert Settled(o, acts, h, j);
      }
    }
    forall j | 2 <= j < |t| && j / 2 == c && c >= 2
      ensures !Before(o, acts, t[j], t[c / 2])
    {
      assert Settled(o, acts, h, j);
    }
  }

  lemma SinkDone(o: Order, acts: seq<Activation>, h: seq<Handle>, i: nat)
    requires Distinguished(acts) && HandlesIn(acts, h) && 1 <= i < |h| && Sinking(o, acts, h, i)
    requires 2 * i >= |h| || !Before(o, acts, h[FirstChild(o, acts, h, i)], h[i])
    ensures HeapOrdered(o, acts, h)
  {
    hide Before, Distinguished;
    forall j | 2 <= j < |h|
      ensures Settled(o, acts, h, j)
    {
      if j / 2 == i {
        assert j == 2 * i || j == 2 * i + 1;
        var c := FirstChild(o, acts, h, i);
        if j != c {
          BeforeOrder(o, acts, h[2 * i], h[2 * i + 1], h[2 * i]);
          BeforeOrder(o, acts, h[i], h[c], h[j]);
        }
      }
    }
  }

  /** A displaced handle rises if it comes before its parent, and sinks otherwise. */
  lemma HoleTurns(o: Order, acts: seq<Activation>, h: seq<Handle>, i: nat)
    requires Distinguished(acts) && HandlesIn(acts, h) && 1 <= i < |h| && Hole(o, acts, h, i)
    ensures if i > 1 && Before(o, acts, h[i], h[i / 2]) then Rising(o, acts, h, i) else Sinking(o, acts, h, i)
  {
    hide Before, Distinguished;
    if i > 1 && Before(o, acts, h[i], h[i / 2]) {
      forall j | 2 <= j < |h| && j != i
        ensures Settled(o, acts, h, j)
      {
        if j / 2 == i {
          BeforeOrder(o, acts, h[i], h[i / 2], h[i]);
          BeforeOrder(o, acts, h[i], h[i / 2], h[j]);
        }
      }
    } else {
      forall j | 2 <= j < |h| && j / 2 != i
        ensures Settled(o, acts, h, j)
      {
        if j == i { assert i == 1 || !Before(o, acts, h[i], h[i / 2]); }
      }
    }
  }

  /** Replacing the handle at `i` by another leaves at most that place in doubt. */
  lemma ReplacedHandle(o: Order, acts: seq<Activation>, h: seq<Handle>, i: nat, x: Handle)
    requires Distinguished(acts) && HandlesIn(acts, h) && 1 <= i < |h| && HeapOrdered(o, acts, h)
    ensures Hole(o, acts, h[i := x], i)
  {
    hide Before, Distinguished;
    var t := h[i := x];
    forall j | 2 <= j < |t| && j != i && j / 2 != i
      ensures Settled(o, acts, t, j)
    {
      assert Settled(o, acts, h, j);
    }
    forall j | 2 <= j < |t| && j / 2 == i && i >= 2
      ensures !Before(o, acts, t[j], t[i / 2])
    {
      assert Settled(o, acts, h, j) && Settled(o, acts, h, i);
      BeforeOrder(o, acts, h[i / 2], h[i], h[j]);
    }
  }

  lemma PrefixOrdered(o: Order, acts: seq<Activation>, h: seq<Handle>, n: nat)
    requires n <= |h| && HeapOrdered(o, acts, h)
    ensures HeapOrdered(o, acts, h[..n])
  {
    hide Before;
    forall j | 2 <= j < n
      ensures Settled(o, acts, h[..n], j)
    {
      assert Settled(o, acts, h, j);
    }
  }

  /** A handle added at the end may only belong higher. */
  lemma AppendedRises(o: Order, acts: seq<Activation>, h: seq<Handle>, x: Handle)
    requires HeapOrdered(o, acts, h) && |h| >= 1
    ensures Rising(o, acts, h + [x], |h|)
  {
    hide Before;
    forall j | 2 <= j < |h|
      ensures Settled(o, acts, h + [x], j)
    {
      assert Settled(o, acts, h, j);
    }
  }

  /** Nothing comes before the root. */
  lemma {:induction false} RootFirst(o: Order, acts: seq<Activation>, h: seq<Handle>, k: nat)
    requires Distinguished(acts) && HandlesIn(acts, h) && HeapOrdered(o, acts, h) && 1 <= k < |h|
    ensures !Before(o, acts, h[k], h[1])
  {
    hide Before, Distinguished;
    if k >= 2 {
      assert Settled(o, acts, h, k);
      RootFirst(o, acts, h, k / 2);
      BeforeOrder(o, acts, h[1], h[k / 2], h[k]);
    } else {
      BeforeOrder(o, acts, h[1], h[1], h[1]);
    }
  }

  // ----- Where the sifts end -----------------------------------------------------------------

  /** The heap once the handle at `i` has risen as far as it belongs. */
  function SiftedUp(o: Order, acts: seq<Activation>, h: seq<Handle>, i: nat): (r: seq<Handle>)
    requires i < |h|
    ensures |r| == |h|
    decreases i
  {
    if i > 1 && Before(o, acts, h[i], h[i / 2]) then SiftedUp(o, acts, Swapped(h, i, i / 2), i / 2) else h
  }

  /** The heap once the handle at `i` has sunk as far as it belongs. */
  function SiftedDown(o: Order, acts: seq<Activation>, h: seq<Handle>, i: nat): (r: seq<Handle>)
    requires 1 <= i < |h|
    ensures |r| == |h|
    decreases |h| - i
  {
    if 2 * i < |h| && Before(o, acts, h[FirstChild(o, acts, h, i)], h[i])
    then SiftedDown(o, acts, Swapped(h, i, FirstChild(o, acts, h, i)), FirstChild(o, acts, h, i)) else h
  }

  lemma SiftedDownStep(o: Order, acts: seq<Activation>, h: seq<Handle>, i: nat)
    requires 1 <= i < |h|
    ensures 2 * i >= |h| ==> SiftedDown(o, acts, h, i) == h
    ensures 2 * i < |h| ==>
              var c := FirstChild(o, acts, h, i);
              SiftedDown(o, acts, h, i) == if Before(o, acts, h[c], h[i]) then SiftedDown(o, acts, Swapped(h, i, c), c) else h
  {
  }

  function Refitted(o: Order, acts: seq<Activation>, h: seq<Handle>, i: nat): (r: seq<Handle>)
    requires 1 <= i < |h|
    ensures |r| == |h|
  {
    if i > 1 && Before(o, acts, h[i], h[i / 2]) then SiftedUp(o, acts, h, i) else SiftedDown(o, acts, h, i)
  }

  /** The heap without the handle at `i`: the last one takes its place and is settled there. */
  function WithoutPlace(o: Order, acts: seq<Activation>, h: seq<Handle>, i: nat): (r: seq<Handle>)
    requires 1 <= i < |h|
    ensures |r| == |h| - 1
  {
    var last := |h| - 1;
    var t := Swapped(h, i, last)[..last];
    if i < last then Refitted(o, acts, t, i) else t
  }

  function QueueAt(queues: map<ModuleName, seq<Handle>>, m: ModuleName): seq<Handle> {
    if m in queues then queues[m] else [0]
  }
}
