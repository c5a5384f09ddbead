/**
 What planning does to the order of a branch: it is a permutation that keeps
 every dependency defined before its use, keeps the immovable conditions in
 their authored order, and lets a movable condition cross only negations that
 do not use its bindings.
 */
module BranchOrder {
  import opened BranchSyntax
  import opened BranchPlanner

  /** Nodes as the branch was written: numbered, and scoped left to right. */
  ghost predicate Authored(nodes: seq<Node>) {
    forall i :: 0 <= i < |nodes| ==>
      && nodes[i].order == i
      && (InSegment(nodes[i]) <==> nodes[i].movable)
      && (nodes[i].movable ==> nodes[i].hardDeps <= DefinesOf(nodes[..i]))
      && (IsNegation(nodes[i]) ==> nodes[i].dependsOn <= DefinesOf(nodes[..i]))
  }

  predicate Pinned(n: Node) {
    !n.movable && !IsNegation(n)
  }

  /** Everything the node at `k` needs is defined before it; a pinned node sees the same nodes. */
  ghost predicate SoundAt(nodes: seq<Node>, r: seq<Node>, k: nat)
    requires k < |r|
  {
    && (Pinned(r[k]) ==> r[k].order <= |nodes| && multiset(r[..k]) == multiset(nodes[..r[k].order]))
    && (r[k].movable ==> r[k].hardDeps <= DefinesOf(r[..k]))
    && (IsNegation(r[k]) ==> r[k].dependsOn <= DefinesOf(r[..k]))
  }

  /** Two nodes in planned order `x`, `y` were authored in that order, or `y` crossed a negation. */
  ghost predicate SoundPair(x: Node, y: Node) {
    && (!x.movable && !y.movable ==> x.order < y.order)
    && (x.movable != y.movable && x.order > y.order ==> MayCross(y, x))
  }

  /** The guarantees of a planned order `r` of the authored nodes. */
  ghost predicate Sound(nodes: seq<Node>, r: seq<Node>) {
    && multiset(r) == multiset(nodes)
    && (forall k :: 0 <= k < |r| ==> SoundAt(nodes, r, k))
    && (forall a, b :: 0 <= a < b < |r| ==> SoundPair(r[a], r[b]))
  }

  /** A movable payload that was authored before a negation and now follows it. */
  predicate MayCross(payload: Node, negation: Node) {
    payload.movable && IsNegation(negation) && payload.defines * negation.dependsOn == {}
  }

  // ----- Sets of defined names --------------------------------------------------

  lemma {:induction false} DefinesOfIn(nodes: seq<Node>, n: Name)
    ensures n in DefinesOf(nodes) <==> exists x :: x in nodes && n in x.defines
  {
    if nodes != [] {
      DefinesOfIn(nodes[1..], n);
      assert nodes == [nodes[0]] + nodes[1..];
    }
  }

  lemma DefinesOfMonotone(a: seq<Node>, b: seq<Node>)
    requires forall x :: x in a ==> x in b
    ensures DefinesOf(a) <= DefinesOf(b)
  {
    forall n | n in DefinesOf(a)
      ensures n in DefinesOf(b)
    {
      DefinesOfIn(a, n);
      DefinesOfIn(b, n);
    }
  }

  lemma DefinesOfConcat(a: seq<Node>, b: seq<Node>)
    ensures DefinesOf(a + b) == DefinesOf(a) + DefinesOf(b)
  {
    forall n
      ensures n in DefinesOf(a + b) <==> n in DefinesOf(a) + DefinesOf(b)
    {
      DefinesOfIn(a, n);
      DefinesOfIn(b, n);
      DefinesOfIn(a + b, n);
    }
  }

  lemma SameMembers<T>(a: seq<T>, b: seq<T>)
    requires multiset(a) == multiset(b)
    ensures forall x :: x in a <==> x in b
    ensures |a| == |b|
  {
    forall x
      ensures x in a <==> x in b
    {
      assert x in a <==> x in multiset(a);
      assert x in b <==> x in multiset(b);
    }
    assert |a| == |multiset(a)| && |b| == |multiset(b)|;
  }

  lemma SameDefines(a: seq<Node>, b: seq<Node>)
    requires multiset(a) == multiset(b)
    ensures DefinesOf(a) == DefinesOf(b)
  {
    SameMembers(a, b);
    DefinesOfMonotone(a, b);
    DefinesOfMonotone(b, a);
  }

  // ----- One segment ---------------------------------------------------------------

  lemma WithoutMultiset<T>(s: seq<T>, k: nat)
    requires k < |s|
    ensures multiset([s[k]] + Without(s, k)) == multiset(s)
  {
    assert s == s[..k] + [s[k]] + s[k + 1..];
  }

  /** Each node's hard dependencies lie in `defined` or earlier in the list. */
  ghost predicate ScopedFrom(nodes: seq<Node>, defined: set<Name>) {
    forall i :: 0 <= i < |nodes| ==> nodes[i].hardDeps <= defined + DefinesOf(nodes[..i])
  }

  /** The selected node's hard dependencies are already defined. */
  lemma SelectedIsScoped(ctx: Context, nodes: seq<Node>, defined: set<Name>)
    requires nodes != [] && ScopedFrom(nodes, defined)
    ensures nodes[Selected(ctx, nodes, defined)].hardDeps <= defined
  {
    var k := Selected(ctx, nodes, defined);
    DefinesOfMonotone(nodes[..k], nodes);
    assert nodes[..0] == [];
  }

  lemma WithoutScoped(nodes: seq<Node>, k: nat, defined: set<Name>)
    requires k < |nodes| && ScopedFrom(nodes, defined)
    ensures ScopedFrom(Without(nodes, k), defined + nodes[k].defines)
  {
    var rest := Without(nodes, k);
    forall i | 0 <= i < |rest|
      ensures rest[i].hardDeps <= defined + nodes[k].defines + DefinesOf(rest[..i])
    {
      if i < k {
        assert rest[..i] == nodes[..i];
      } else {
        assert nodes[..i + 1] == nodes[..k] + [nodes[k]] + nodes[k + 1..i + 1];
        assert rest[..i] == nodes[..k] + nodes[k + 1..i + 1];
        DefinesOfConcat(nodes[..k] + [nodes[k]], nodes[k + 1..i + 1]);
        DefinesOfConcat(nodes[..k], [nodes[k]]);
        DefinesOfConcat(nodes[..k], nodes[k + 1..i + 1]);
        assert DefinesOf([nodes[k]]) == nodes[k].defines;
        assert rest[i] == nodes[i + 1];
      }
    }
  }

  lemma ConsScoped(x: Node, tail: seq<Node>, defined: set<Name>)
    requires x.hardDeps <= defined && ScopedFrom(tail, defined + x.defines)
    ensures ScopedFrom([x] + tail, defined)
  {
    var r := [x] + tail;
    forall i | 0 <= i < |r|
      ensures r[i].hardDeps <= defined + DefinesOf(r[..i])
    {
      if i > 0 {
        assert r[..i] == [x] + tail[..i - 1];
        assert r[i] == tail[i - 1];
      }
    }
  }

  /** Greedy selection permutes a scoped segment into a scoped order. */
  lemma {:induction false} SegmentOrderSound(ctx: Context, nodes: seq<Node>, defined: set<Name>)
    requires ScopedFrom(nodes, defined)
    ensures multiset(SegmentOrder(ctx, nodes, defined)) == multiset(nodes)
    ensures ScopedFrom(SegmentOrder(ctx, nodes, defined), defined)
    decreases |nodes|
  {
    if nodes != [] {
      var k := Selected(ctx, nodes, defined);
      var x, rest := nodes[k], Without(nodes, k);
      SelectedIsScoped(ctx, nodes, defined);
      WithoutScoped(nodes, k, defined);
      SegmentOrderSound(ctx, rest, defined + x.defines);
      var tail := SegmentOrder(ctx, rest, defined + x.defines);
      ConsScoped(x, tail, defined);
      WithoutMultiset(nodes, k);
      assert SegmentOrder(ctx, nodes, defined) == [x] + tail;
    }
  }

  // ----- All segments ----------------------------------------------------------------

  /** Outside a segment position `k` is untouched; inside, dependencies come first. */
  ghost predicate Placed(p: seq<Node>, r: seq<Node>, k: nat)
    requires k < |p| == |r|
  {
    && InSegment(r[k]) == InSegment(p[k])
    && (!InSegment(p[k]) ==> r[k] == p[k] && multiset(r[..k]) == multiset(p[..k]))
    && (InSegment(r[k]) ==> r[k].hardDeps <= DefinesOf(r[..k]))
  }

  /** `r` permutes `p` inside its segments: what is not in a segment stays in place. */
  ghost predicate Arranged(p: seq<Node>, r: seq<Node>) {
    multiset(r) == multiset(p) && |r| == |p| && forall k :: 0 <= k < |p| ==> Placed(p, r, k)
  }

  lemma ArrangedConcat(p: seq<Node>, out: seq<Node>, segment: seq<Node>, ordered: seq<Node>)
    requires Arranged(p, out)
    requires multiset(ordered) == multiset(segment) && ScopedFrom(ordered, DefinesOf(out))
    requires forall i :: 0 <= i < |segment| ==> InSegment(segment[i])
    ensures Arranged(p + segment, out + ordered)
  {
    SameMembers(ordered, segment);
    var q: seq<Node>, r: seq<Node> := p + segment, out + ordered;
    forall k | 0 <= k < |q|
      ensures Placed(q, r, k)
    {
      if k < |p| {
        assert Placed(p, out, k);
        assert r[..k] == out[..k] && q[..k] == p[..k];
      } else {
        assert ordered[k - |p|] in segment;
        assert r[..k] == out + ordered[..k - |p|];
        DefinesOfConcat(out, ordered[..k - |p|]);
      }
    }
  }

  lemma ScopedAfter(p: seq<Node>, out: seq<Node>, segment: seq<Node>)
    requires multiset(p) == multiset(out)
    requires forall i :: 0 <= i < |segment| ==> segment[i].hardDeps <= DefinesOf(p + segment[..i])
    ensures ScopedFrom(segment, DefinesOf(out))
  {
    SameDefines(out, p);
    forall i | 0 <= i < |segment|
      ensures segment[i].hardDeps <= DefinesOf(out) + DefinesOf(segment[..i])
    {
      DefinesOfConcat(p, segment[..i]);
    }
  }

  lemma ArrangedAppend(p: seq<Node>, r: seq<Node>, n: Node)
    requires Arranged(p, r) && !InSegment(n)
    ensures Arranged(p + [n], r + [n])
  {
    var q: seq<Node>, s: seq<Node> := p + [n], r + [n];
    forall k | 0 <= k < |q|
      ensures Placed(q, s, k)
    {
      assert q[..k] == (if k < |p| then p[..k] else p) && s[..k] == (if k < |p| then r[..k] else r);
      assert k < |p| ==> Placed(p, r, k);
    }
  }

  /** The loop state: `out` arranges a prefix, `segment` is the pending rest of the first `i` nodes. */
  ghost predicate Pending(nodes: seq<Node>, i: nat, out: seq<Node>, segment: seq<Node>) {
    && i <= |nodes| && |out| + |segment| == i && segment == nodes[|out|..i]
    && (forall k :: 0 <= k < |segment| ==> InSegment(segment[k]))
    && Arranged(nodes[..|out|], out)
  }

  lemma SlicesMeet(nodes: seq<Node>, i: nat, j: nat)
    requires i <= j <= |nodes|
    ensures nodes[..i] + nodes[i..j] == nodes[..j]
  {
  }

  lemma Flushed(ctx: Context, nodes: seq<Node>, i: nat, out: seq<Node>, segment: seq<Node>)
    requires Authored(nodes) && Pending(nodes, i, out, segment)
    ensures Arranged(nodes[..i], out + SegmentOrder(ctx, segment, DefinesOf(out)))
  {
    hide Placed, DefinesOf, Selected;
    var p := nodes[..|out|];
    SlicesMeet(nodes, |out|, i);
    forall j | 0 <= j < |segment|
      ensures segment[j].hardDeps <= DefinesOf(p + segment[..j])
    {
      SlicesMeet(nodes, |out|, |out| + j);
      assert segment[..j] == nodes[|out|..|out| + j];
      assert segment[j] == nodes[|out| + j];
    }
    assert Arranged(p, out);
    ScopedAfter(p, out, segment);
    SegmentOrderSound(ctx, segment, DefinesOf(out));
    ArrangedConcat(p, out, segment, SegmentOrder(ctx, segment, DefinesOf(out)));
  }

  lemma PendingGrows(nodes: seq<Node>, i: nat, out: seq<Node>, segment: seq<Node>)
    requires Pending(nodes, i, out, segment) && i < |nodes| && InSegment(nodes[i])
    ensures Pending(nodes, i + 1, out, segment + [nodes[i]])
  {
    assert nodes[|out|..i + 1] == segment + [nodes[i]];
  }

  lemma FlushedAppend(nodes: seq<Node>, i: nat, planned: seq<Node>)
    requires i < |nodes| && !InSegment(nodes[i]) && Arranged(nodes[..i], planned)
    ensures Pending(nodes, i + 1, planned + [nodes[i]], [])
  {
    ArrangedAppend(nodes[..i], planned, nodes[i]);
    assert nodes[..i] + [nodes[i]] == nodes[..i + 1];
    assert |planned| == i;
  }

  lemma SegmentedStep(ctx: Context, nodes: seq<Node>, i: nat, out: seq<Node>, segment: seq<Node>)
    requires i < |nodes|
    ensures Segmented(ctx, nodes[i..], out, segment) ==
            if InSegment(nodes[i]) then Segmented(ctx, nodes[i + 1..], out, segment + [nodes[i]])
            else Segmented(ctx, nodes[i + 1..], out + SegmentOrder(ctx, segment, DefinesOf(out)) + [nodes[i]], [])
  {
    assert nodes[i..][0] == nodes[i] && nodes[i..][1..] == nodes[i + 1..];
  }

  lemma {:induction false} SegmentedArranged(ctx: Context, nodes: seq<Node>, i: nat, out: seq<Node>, segment: seq<Node>)
    requires Authored(nodes) && Pending(nodes, i, out, segment)
    ensures Arranged(nodes, Segmented(ctx, nodes[i..], out, segment))
    decreases |nodes| - i
  {
    hide Arranged, Placed, Authored, DefinesOf, Selected;
    if i == |nodes| {
      Flushed(ctx, nodes, i, out, segment);
      assert nodes[..i] == nodes;
    } else if InSegment(nodes[i]) {
      PendingGrows(nodes, i, out, segment);
      SegmentedArranged(ctx, nodes, i + 1, out, segment + [nodes[i]]);
      SegmentedStep(ctx, nodes, i, out, segment);
    } else {
      Flushed(ctx, nodes, i, out, segment);
      var planned := out + SegmentOrder(ctx, segment, DefinesOf(out));
      FlushedAppend(nodes, i, planned);
      SegmentedArranged(ctx, nodes, i + 1, planned + [nodes[i]], []);
      SegmentedStep(ctx, nodes, i, out, segment);
    }
  }

  /** A node of a permutation is an authored node. */
  lemma AuthoredNode(nodes: seq<Node>, r: seq<Node>, k: nat)
    requires Authored(nodes) && multiset(r) == multiset(nodes) && k < |r|
    ensures r[k].order < |nodes| && r[k] == nodes[r[k].order]
  {
    SameMembers(r, nodes);
    assert r[k] in nodes;
    var i :| 0 <= i < |nodes| && nodes[i] == r[k];
  }

  lemma SuffixMultiset(p: seq<Node>, r: seq<Node>, z: Node, s: seq<Node>, t: seq<Node>)
    requires multiset(p) == multiset(r) && multiset(p + [z] + s) == multiset(r + [z] + t)
    ensures multiset(s) == multiset(t)
  {
    assert multiset(s) == multiset(p + [z] + s) - multiset(p) - multiset{z};
    assert multiset(t) == multiset(r + [z] + t) - multiset(r) - multiset{z};
  }

  /** An immovable node stays in place, with the same nodes before and after it. */
  lemma ArrangedPlace(nodes: seq<Node>, r: seq<Node>, k: nat)
    requires Authored(nodes) && Arranged(nodes, r) && k < |r| && !r[k].movable
    ensures r[k] == nodes[k] && multiset(r[..k]) == multiset(nodes[..k]) && DefinesOf(r[..k]) == DefinesOf(nodes[..k])
    ensures forall a :: 0 <= a < k ==> r[a].order < k
    ensures forall b :: k < b < |r| ==> r[b].order > k
  {
    assert r[k] == nodes[k] && multiset(r[..k]) == multiset(nodes[..k]) by {
      AuthoredNode(nodes, r, k);
      assert Placed(nodes, r, k);
    }
    SameDefines(r[..k], nodes[..k]);
    BeforePlace(nodes, r, k);
    AfterPlace(nodes, r, k);
  }

  lemma BeforePlace(nodes: seq<Node>, r: seq<Node>, k: nat)
    requires Authored(nodes) && k <= |r| && k <= |nodes| && multiset(r[..k]) == multiset(nodes[..k])
    ensures forall a :: 0 <= a < k ==> r[a].order < k
  {
    forall a | 0 <= a < k
      ensures r[a].order < k
    {
      SameMembers(r[..k], nodes[..k]);
      assert r[a] in r[..k];
    }
  }

  lemma AfterPlace(nodes: seq<Node>, r: seq<Node>, k: nat)
    requires Authored(nodes) && multiset(r) == multiset(nodes) && k < |r| && k < |nodes| && r[k] == nodes[k]
    requires multiset(r[..k]) == multiset(nodes[..k])
    ensures forall b :: k < b < |r| ==> r[b].order > k
  {
    assert r == r[..k] + [r[k]] + r[k + 1..] && nodes == nodes[..k] + [nodes[k]] + nodes[k + 1..];
    SuffixMultiset(r[..k], nodes[..k], r[k], r[k + 1..], nodes[k + 1..]);
    forall b | k < b < |r|
      ensures r[b].order > k
    {
      SameMembers(r[k + 1..], nodes[k + 1..]);
      assert r[b] in r[k + 1..];
    }
  }

  lemma ArrangedSound(nodes: seq<Node>, r: seq<Node>)
    requires Authored(nodes) && Arranged(nodes, r)
    ensures Sound(nodes, r)
  {
    forall k | 0 <= k < |r|
      ensures SoundAt(nodes, r, k)
    {
      AuthoredNode(nodes, r, k);
      assert Placed(nodes, r, k);
      if !r[k].movable { ArrangedPlace(nodes, r, k); }
    }
    forall a, b | 0 <= a < b < |r|
      ensures SoundPair(r[a], r[b])
    {
      if !r[a].movable { AuthoredNode(nodes, r, a); ArrangedPlace(nodes, r, a); }
      if !r[b].movable { AuthoredNode(nodes, r, b); ArrangedPlace(nodes, r, b); }
    }
  }

  // ----- Deferral -----------------------------------------------------------------------

  lemma RotateMultiset(s: seq<Node>, a: nat, b: nat, c: nat)
    requires a <= b <= c <= |s|
    ensures multiset(Rotate(s, a, b, c)) == multiset(s)
  {
    FourParts(s, a, b, c);
    SwappedParts(s[..a], s[a..b], s[b..c], s[c..]);
  }

  lemma FourParts<T>(s: seq<T>, a: nat, b: nat, c: nat)
    requires a <= b <= c <= |s|
    ensures s == s[..a] + s[a..b] + s[b..c] + s[c..]
  {
    assert s[..a] + s[a..b] == s[..b] && s[..b] + s[b..c] == s[..c];
  }

  lemma SwappedParts<T>(p: seq<T>, q: seq<T>, r: seq<T>, t: seq<T>)
    ensures multiset(p + r + q + t) == multiset(p + q + r + t)
  {
  }

  /** Where position `k` of the rotated list came from. */
  function Origin(k: nat, a: nat, b: nat, c: nat): nat
    requires a <= b <= c
  {
    if a <= k < a + (c - b) then k + (b - a)
    else if a + (c - b) <= k < c then k - (c - b)
    else k
  }

  lemma RotatePrefix(s: seq<Node>, a: nat, b: nat, c: nat, k: nat)
    requires a <= b <= c <= |s| && k < |s|
    ensures Origin(k, a, b, c) < |s| && Rotate(s, a, b, c)[k] == s[Origin(k, a, b, c)]
    ensures k < a || c <= k ==> multiset(Rotate(s, a, b, c)[..k]) == multiset(s[..k])
    ensures a <= k < a + (c - b) ==> DefinesOf(s[..a]) <= DefinesOf(Rotate(s, a, b, c)[..k])
    ensures a + (c - b) <= k < c ==> DefinesOf(s[..Origin(k, a, b, c)]) <= DefinesOf(Rotate(s, a, b, c)[..k])
  {
    hide DefinesOf, Rotate;
    var r, o := Rotate(s, a, b, c), Origin(k, a, b, c);
    RotateTake(s, a, b, c, k);
    if k < a {
    } else if k < a + (c - b) {
      DefinesOfConcat(s[..a], s[b..o]);
    } else if k < c {
      assert s[..o] == s[..a] + s[a..o];
      DefinesOfMonotone(s[..o], r[..k]);
    } else {
      SplitThrice(s, a, b, c, k);
    }
  }

  lemma SplitThrice(s: seq<Node>, a: nat, b: nat, c: nat, k: nat)
    requires a <= b <= c <= k <= |s|
    ensures multiset(s[..k]) == multiset(s[..a] + s[b..c] + s[a..b] + s[c..k])
  {
    assert s[..k] == s[..a] + s[a..b] + s[b..c] + s[c..k];
  }

  lemma RotateTake(s: seq<Node>, a: nat, b: nat, c: nat, k: nat)
    requires a <= b <= c <= |s| && k < |s|
    ensures Origin(k, a, b, c) < |s| && Rotate(s, a, b, c)[k] == s[Origin(k, a, b, c)]
    ensures var o := Origin(k, a, b, c);
            Rotate(s, a, b, c)[..k] ==
            if k < a then s[..k]
            else if k < a + (c - b) then s[..a] + s[b..o]
            else if k < c then s[..a] + s[b..c] + s[a..o]
            else s[..a] + s[b..c] + s[a..b] + s[c..k]
  {
    var p, q, t, u := s[..a], s[b..c], s[a..b], s[c..];
    var r, o := p + q + t + u, Origin(k, a, b, c);
    assert Rotate(s, a, b, c) == r;
    if k < a {
      assert r[..k] == p[..k] == s[..k];
    } else if k < a + (c - b) {
      assert q[..k - a] == s[b..o];
      assert r[..k] == p + q[..k - a];
    } else if k < c {
      assert t[..o - a] == s[a..o];
      assert r[..k] == p + q + t[..o - a];
    } else {
      assert u[..k - c] == s[c..k];
      assert r[..k] == p + q + t + u[..k - c];
    }
  }

  lemma RotateSound(nodes: seq<Node>, s: seq<Node>, a: nat, b: nat, c: nat)
    requires Sound(nodes, s)
    requires a <= b <= c <= |s|
    requires forall k :: b <= k < c ==> IsNegation(s[k])
    requires forall k :: a <= k < b ==> CanCross(s, k, b, c)
    requires forall k :: 0 <= k < |s| ==> !(s[k].movable && IsNegation(s[k]))
    ensures Sound(nodes, Rotate(s, a, b, c))
  {
    var r := Rotate(s, a, b, c);
    RotateMultiset(s, a, b, c);
    forall k | 0 <= k < |r|
      ensures SoundAt(nodes, r, k)
    {
      RotatePrefix(s, a, b, c, k);
      var o := Origin(k, a, b, c);
      assert SoundAt(nodes, s, o);
      if k < a || c <= k {
        SameDefines(r[..k], s[..k]);
      } else if k < a + (c - b) {
        assert b <= o < c && IsNegation(s[o]);
        if a < b {
          assert CanCross(s, a, b, c);
        } else {
          assert r == s;
        }
      } else {
        assert CanCross(s, o, b, c);
      }
    }
    forall i, j | 0 <= i < j < |r|
      ensures SoundPair(r[i], r[j])
    {
      RotatePrefix(s, a, b, c, i);
      RotatePrefix(s, a, b, c, j);
      var oi, oj := Origin(i, a, b, c), Origin(j, a, b, c);
      if oi > oj {
        assert CanCross(s, oj, b, c);
        assert b <= oi < c;
      } else {
        assert SoundPair(s[oi], s[oj]);
      }
    }
  }

  lemma {:induction false} DeferredSound(nodes: seq<Node>, s: seq<Node>, start: nat)
    requires Authored(nodes) && Sound(nodes, s)
    ensures Sound(nodes, Deferred(s, start))
    decreases |s| - start
  {
    if start < |s| {
      if !IsNegation(s[start]) {
        DeferredSound(nodes, s, start + 1);
      } else {
        var end := NegationEnd(s, start + 1);
        var from := PayloadStart(s, start, start, end);
        forall k | 0 <= k < |s|
          ensures !(s[k].movable && IsNegation(s[k]))
        {
          AuthoredNode(nodes, s, k);
        }
        RotateSound(nodes, s, from, start, end);
        DeferredSound(nodes, Rotate(s, from, start, end), end);
      }
    }
  }

  /** Every planned order is sound. */
  lemma PlannedOrderSound(ir: PlanIR)
    requires Authored(ir.nodes)
    ensures Sound(ir.nodes, PlannedOrder(ir))
  {
    var nodes := ir.nodes;
    if ir.reorder && |nodes| >= 2 {
      assert Arranged(nodes[..0], []);
      SegmentedArranged(ir.context, nodes, 0, [], []);
      assert nodes[0..] == nodes;
      ArrangedSound(nodes, Segmented(ir.context, nodes, [], []));
      DeferredSound(nodes, Segmented(ir.context, nodes, [], []), 0);
    } else {
      assert Arranged(nodes, nodes);
      ArrangedSound(nodes, nodes);
    }
  }
}
