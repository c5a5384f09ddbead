/**
 Which payloads are deferred past a run of negations, said of the nodes alone: a payload stays behind
 the negations exactly when it, and everything between it and them, may wait.
 */
module BranchDeferral {
  import opened Options
  import Sequences
  import opened BranchSyntax
  import opened BranchPlanner
  import opened BranchOrder

  // ----- Who may wait ---------------------------------------------------------------

  /** Some node before place `k` defines the name. */
  ghost predicate DefinedBefore(nodes: seq<Node>, k: nat, name: Name)
    requires k <= |nodes|
  {
    exists i :: 0 <= i < k && name in nodes[i].defines
  }

  /** A visible match that is not negated, has names and is not the trigger of a query. */
  predicate Anchors(n: Node) {
    n.cond.Match? && n.cond.visible && !n.cond.negated && n.defines != {} && n.cond.spec.binding != "__gess_query_trigger"
  }

  /**
   The node at `k` is a movable visible match with names, not the trigger of a query; no other node
   depends on its names; it and the negations depend on what is defined before it; and a positive
   visible match stands before it.
   */
  ghost predicate MayWait(nodes: seq<Node>, k: nat, negs: seq<Node>)
    requires k < |nodes|
  {
    var p := nodes[k];
    && p.movable && p.barrier == NoBarrier && p.cond.Match? && p.cond.visible
    && p.defines != {} && p.cond.spec.binding != "__gess_query_trigger"
    && (forall i, name :: 0 <= i < |nodes| && i != k && name in p.defines ==> name !in nodes[i].dependsOn)
    && (forall name :: name in p.dependsOn ==> DefinedBefore(nodes, k, name))
    && (forall n, name :: n in negs && name in n.dependsOn ==> DefinedBefore(nodes, k, name))
    && exists i :: 0 <= i < k && Anchors(nodes[i])
  }

  /** The payload and all that stands between it and the negations may wait. */
  ghost predicate AllWait(pre: seq<Node>, p: Node, mid: seq<Node>, negs: seq<Node>, post: seq<Node>) {
    var nodes := pre + [p] + mid + negs + post;
    forall k :: |pre| <= k <= |pre| + |mid| ==> MayWait(nodes, k, negs)
  }

  /** The first run of negations, whole, with nothing negated before it. */
  predicate FirstRun(before: seq<Node>, negs: seq<Node>, post: seq<Node>) {
    && (forall n :: n in before ==> n.barrier != NegationBarrier)
    && negs != [] && (forall n :: n in negs ==> n.barrier == NegationBarrier)
    && (post == [] || post[0].barrier != NegationBarrier)
  }

  predicate OrdersDiffer(nodes: seq<Node>) {
    forall i, j :: 0 <= i < j < |nodes| ==> nodes[i].order != nodes[j].order
  }

  // ----- The planner's test is this one --------------------------------------------------

  lemma DefinedNames(nodes: seq<Node>, k: nat, name: Name)
    requires k <= |nodes|
    ensures name in DefinesOf(nodes[..k]) <==> DefinedBefore(nodes, k, name)
  {
    DefinesOfIn(nodes[..k], name);
    if x :| x in nodes[..k] && name in x.defines {
      var i :| 0 <= i < k && nodes[i] == x;
    }
    if i :| 0 <= i < k && name in nodes[i].defines { assert nodes[..k][i] == nodes[i]; }
  }

  lemma CrossesIfWaits(nodes: seq<Node>, k: nat, b: nat, c: nat)
    requires k < b <= c <= |nodes|
    ensures CanCross(nodes, k, b, c) <==> MayWait(nodes, k, nodes[b..c])
  {
    hide DefinesOf, DefinedBefore;
    forall name
      ensures name in DefinesOf(nodes[..k]) <==> DefinedBefore(nodes, k, name)
    {
      DefinedNames(nodes, k, name);
    }
    NegationsRead(nodes, k, b, c);
    AnchorBefore(nodes, k);
    OthersRead(nodes, k);
  }

  lemma NegationsRead(nodes: seq<Node>, k: nat, b: nat, c: nat)
    requires k < b <= c <= |nodes|
    ensures (forall i :: b <= i < c ==> nodes[i].dependsOn <= DefinesOf(nodes[..k]))
            <==> forall n, name :: n in nodes[b..c] && name in n.dependsOn ==> name in DefinesOf(nodes[..k])
  {
    hide DefinesOf;
    assert forall i :: b <= i < c ==> nodes[b..c][i - b] == nodes[i];
    if forall n, name :: n in nodes[b..c] && name in n.dependsOn ==> name in DefinesOf(nodes[..k]) {
      forall i | b <= i < c
        ensures nodes[i].dependsOn <= DefinesOf(nodes[..k])
      {
        assert nodes[i] in nodes[b..c];
      }
    }
  }

  lemma AnchorBefore(nodes: seq<Node>, k: nat)
    requires k <= |nodes|
    ensures (exists n :: n in nodes[..k] && PositiveAnchor(n)) <==> exists i :: 0 <= i < k && Anchors(nodes[i])
  {
    if n :| n in nodes[..k] && PositiveAnchor(n) {
      var i :| 0 <= i < k && nodes[i] == n;
      assert Anchors(nodes[i]);
    }
    if i :| 0 <= i < k && Anchors(nodes[i]) {
      assert nodes[..k][i] == nodes[i] && PositiveAnchor(nodes[i]);
    }
  }

  lemma OthersRead(nodes: seq<Node>, k: nat)
    requires k < |nodes|
    ensures (forall i :: 0 <= i < |nodes| && i != k ==> nodes[k].defines * nodes[i].dependsOn == {})
            <==> forall i, name :: 0 <= i < |nodes| && i != k && name in nodes[k].defines ==> name !in nodes[i].dependsOn
  {
    forall i | 0 <= i < |nodes|
      ensures nodes[k].defines * nodes[i].dependsOn == {} <==> forall name :: name in nodes[k].defines ==> name !in nodes[i].dependsOn
    {
      if name :| name in nodes[k].defines && name in nodes[i].dependsOn { assert name in nodes[k].defines * nodes[i].dependsOn; }
    }
  }

  // ----- One run --------------------------------------------------------------------------

  /** What stands up to a negation already passed is not touched any more. */
  lemma {:induction false} DeferredKeeps(s: seq<Node>, start: nat, i: nat)
    requires i < start && i < |s| && IsNegation(s[i])
    ensures |Deferred(s, start)| == |s| && Deferred(s, start)[..i + 1] == s[..i + 1]
    decreases |s| - start
  {
    hide CanCross;
    if start < |s| {
      if !IsNegation(s[start]) {
        DeferredKeeps(s, start + 1, i);
      } else {
        var end := NegationEnd(s, start + 1);
        var from := PayloadStart(s, start, start, end);
        if from <= i {
          assert CanCross(s, i, start, end);
          NegationStays(s, i, start, end);
        }
        var r := Rotate(s, from, start, end);
        assert r[..i + 1] == s[..i + 1] && r[i] == r[..i + 1][i] == s[i];
        DeferredKeeps(r, end, i);
      }
    }
  }

  lemma NegationStays(s: seq<Node>, i: nat, b: nat, c: nat)
    requires i < b <= c <= |s| && CanCross(s, i, b, c)
    ensures !IsNegation(s[i])
  {
  }

  lemma {:induction false} SkipsTo(nodes: seq<Node>, from: nat, start: nat)
    requires from <= start <= |nodes| && forall k :: from <= k < start ==> !IsNegation(nodes[k])
    ensures Deferred(nodes, from) == Deferred(nodes, start)
    decreases start - from
  {
    if from < start { SkipsTo(nodes, from + 1, start); }
  }

  lemma {:induction false} RunEnds(nodes: seq<Node>, i: nat, end: nat)
    requires i <= end <= |nodes| && (forall k :: i <= k < end ==> IsNegation(nodes[k]))
    requires end == |nodes| || !IsNegation(nodes[end])
    ensures NegationEnd(nodes, i) == end
    decreases end - i
  {
    if i < end { RunEnds(nodes, i + 1, end); }
  }

  /** The beginning of the outcome: what stays in front, then the negations. */
  lemma FirstRunMoves(before: seq<Node>, negs: seq<Node>, post: seq<Node>)
    requires FirstRun(before, negs, post)
    ensures var nodes, b := before + negs + post, |before|;
            var a := PayloadStart(nodes, b, b, b + |negs|);
            |Deferred(nodes, 0)| == |nodes| && Deferred(nodes, 0)[..a + |negs|] == before[..a] + negs
  {
    hide CanCross, Rotate, Deferred, NegationEnd, FirstRun, IsNegation;
    var nodes, b, c := before + negs + post, |before|, |before| + |negs|;
    var a := PayloadStart(nodes, b, b, c);
    RunPlaces(before, negs, post);
    SkipsTo(nodes, 0, b);
    RunEnds(nodes, b + 1, c);
    var r := Rotate(nodes, a, b, c);
    DeferredRun(nodes, b, c);
    RotatedStart(nodes, a, b, c);
    var i := a + |negs| - 1;
    assert r[i] == r[..i + 1][i] == negs[|negs| - 1] == nodes[c - 1];
    DeferredKeeps(r, c, i);
  }

  lemma RunPlaces(before: seq<Node>, negs: seq<Node>, post: seq<Node>)
    requires FirstRun(before, negs, post)
    ensures var nodes, b, c := before + negs + post, |before|, |before| + |negs|;
            && (forall k :: 0 <= k < b ==> !IsNegation(nodes[k])) && (forall k :: b <= k < c ==> IsNegation(nodes[k]))
            && (c < |nodes| ==> !IsNegation(nodes[c])) && |negs| > 0 && (forall n, k :: n in negs && 0 <= k < b ==> n != before[k])
            && nodes[b..c] == negs && nodes[c - 1] == negs[|negs| - 1] && forall k :: 0 <= k <= b ==> nodes[..k] == before[..k]
  {
    var nodes, b := before + negs + post, |before|;
    forall k | 0 <= k < b
      ensures !IsNegation(nodes[k])
    {
      assert before[k] in before;
    }
    forall k | b <= k < b + |negs|
      ensures IsNegation(nodes[k])
    {
      assert negs[k - b] in negs;
    }
  }

  lemma DeferredRun(nodes: seq<Node>, b: nat, c: nat)
    requires b < c <= |nodes| && IsNegation(nodes[b]) && NegationEnd(nodes, b + 1) == c
    ensures Deferred(nodes, b) == Deferred(Rotate(nodes, PayloadStart(nodes, b, b, c), b, c), c)
  {
    hide CanCross, Rotate;
  }

  lemma RotatedStart(s: seq<Node>, a: nat, b: nat, c: nat)
    requires a <= b <= c <= |s|
    ensures Rotate(s, a, b, c)[..a + (c - b)] == s[..a] + s[b..c]
  {
    assert Rotate(s, a, b, c) == (s[..a] + s[b..c]) + (s[a..b] + s[c..]);
  }

  // ----- Exactly who is deferred ---------------------------------------------------------------

  /** Everything of `negs` stands before `p`, or everything after. */
  ghost predicate Behind(out: seq<Node>, p: Node, negs: seq<Node>) {
    forall i, j :: 0 <= i < |out| && 0 <= j < |out| && out[i] in negs && out[j] == p ==> i < j
  }

  ghost predicate Ahead(out: seq<Node>, p: Node, negs: seq<Node>) {
    forall i, j :: 0 <= i < |out| && 0 <= j < |out| && out[i] in negs && out[j] == p ==> j < i
  }

  lemma OrdersKept(s: seq<Node>, t: seq<Node>)
    requires OrdersDiffer(s) && multiset(s) == multiset(t)
    ensures OrdersDiffer(t)
  {
    forall i, j | 0 <= i < j < |t|
      ensures t[i].order != t[j].order
    {
      SameMembers(s, t);
      assert t[i] in t && t[j] in t;
      var k :| 0 <= k < |s| && s[k] == t[i];
      var l :| 0 <= l < |s| && s[l] == t[j];
      if k == l {
        var _, _ := Sequences.RepeatedBoth(s, t, i, j);
      }
    }
  }

  lemma {:induction false} DeferredPermutes(s: seq<Node>, start: nat)
    ensures multiset(Deferred(s, start)) == multiset(s)
    decreases |s| - start
  {
    hide CanCross, Rotate;
    if start < |s| {
      if !IsNegation(s[start]) {
        DeferredPermutes(s, start + 1);
      } else {
        var end := NegationEnd(s, start + 1);
        var from := PayloadStart(s, start, start, end);
        RotateMultiset(s, from, start, end);
        DeferredPermutes(Rotate(s, from, start, end), end);
      }
    }
  }

  /**
   A node before the first run of negations ends up behind it if it and all between may wait, and
   stays ahead of it otherwise.
   */
  lemma DeferralExact(pre: seq<Node>, p: Node, mid: seq<Node>, negs: seq<Node>, post: seq<Node>)
    requires FirstRun(pre + [p] + mid, negs, post) && OrdersDiffer(pre + [p] + mid + negs + post)
    ensures var out := Deferred(pre + [p] + mid + negs + post, 0);
            && multiset(out) == multiset(pre + [p] + mid + negs + post)
            && if AllWait(pre, p, mid, negs, post) then Behind(out, p, negs) else Ahead(out, p, negs)
  {
    hide CanCross, Deferred, MayWait, FirstRun, OrdersDiffer;
    var before := pre + [p] + mid;
    var nodes, b := before + negs + post, |before|;
    assert pre + [p] + mid + negs + post == nodes;
    var a := PayloadStart(nodes, b, b, b + |negs|);
    FirstRunMoves(before, negs, post);
    DeferredPermutes(nodes, 0);
    OrdersKept(nodes, Deferred(nodes, 0));
    RunPlaces(before, negs, post);
    forall k | 0 <= k < b
      ensures CanCross(nodes, k, b, b + |negs|) <==> MayWait(nodes, k, negs)
    {
      CrossesIfWaits(nodes, k, b, b + |negs|);
    }
    if a <= |pre| {
      BehindIf(before, negs, nodes, Deferred(nodes, 0), a, |pre|);
    } else {
      assert !MayWait(nodes, a - 1, negs);
      AheadIf(before, negs, Deferred(nodes, 0), a, |pre|);
    }
  }

  lemma BehindIf(before: seq<Node>, negs: seq<Node>, nodes: seq<Node>, out: seq<Node>, a: nat, k: nat)
    requires a <= k < |before| && a + |negs| <= |out| && out[..a + |negs|] == before[..a] + negs && OrdersDiffer(out) && OrdersDiffer(nodes)
    requires |before| <= |nodes| && nodes[..|before|] == before && forall n :: n in negs ==> n != before[k]
    ensures Behind(out, before[k], negs)
  {
    forall i, j | 0 <= i < |out| && 0 <= j < |out| && out[i] in negs && out[j] == before[k]
      ensures i < j
    {
      var m :| 0 <= m < |negs| && negs[m] == out[i];
      assert out[..a + |negs|][a + m] == negs[m] == out[a + m];
      assert i == a + m;
      if j < a + |negs| { NotInStart(before, negs, nodes, out, a, k, j); }
    }
  }

  lemma NotInStart(before: seq<Node>, negs: seq<Node>, nodes: seq<Node>, out: seq<Node>, a: nat, k: nat, j: nat)
    requires a <= k < |before| && a + |negs| <= |out| && out[..a + |negs|] == before[..a] + negs && OrdersDiffer(nodes)
    requires |before| <= |nodes| && nodes[..|before|] == before && forall n :: n in negs ==> n != before[k]
    requires j < a + |negs|
    ensures out[j] != before[k]
  {
    assert out[j] == out[..a + |negs|][j] == (before[..a] + negs)[j];
    if j < a {
      assert nodes[j] == nodes[..|before|][j] == before[j] && nodes[k] == nodes[..|before|][k] == before[k];
    } else {
      assert out[j] == negs[j - a] && negs[j - a] in negs;
    }
  }

  lemma AheadIf(before: seq<Node>, negs: seq<Node>, out: seq<Node>, a: nat, k: nat)
    requires k < a <= |before| && a + |negs| <= |out| && out[..a + |negs|] == before[..a] + negs && OrdersDiffer(out)
    ensures Ahead(out, before[k], negs)
  {
    forall i, j | 0 <= i < |out| && 0 <= j < |out| && out[i] in negs && out[j] == before[k]
      ensures j < i
    {
      var m :| 0 <= m < |negs| && negs[m] == out[i];
      assert out[..a + |negs|][a + m] == negs[m];
      assert out[..a + |negs|][k] == before[k];
      assert i == a + m && j == k;
    }
  }

  // ----- The whole planner -----------------------------------------------------------------------

  /** Where a node of the list came from, if the ends were only rearranged. */
  lemma SamePlace(pre: seq<Node>, pre': seq<Node>, middle: seq<Node>, post: seq<Node>, post': seq<Node>, k: nat) returns (i: nat)
    requires multiset(pre) == multiset(pre') && multiset(post) == multiset(post') && k < |pre + middle + post|
    ensures i < |pre' + middle + post'| && (pre' + middle + post')[i] == (pre + middle + post)[k]
    ensures |pre'| == |pre| && (i < |pre| <==> k < |pre|) && (|pre| <= k < |pre| + |middle| || |pre| <= i < |pre| + |middle| ==> i == k)
  {
    SameMembers(pre, pre');
    SameMembers(post, post');
    if k < |pre| {
      assert pre[k] in pre';
      i :| 0 <= i < |pre'| && pre'[i] == pre[k];
    } else if k < |pre| + |middle| {
      i := k;
    } else {
      var l := k - |pre| - |middle|;
      assert post[l] in post';
      var j :| 0 <= j < |post'| && post'[j] == post[l];
      i := |pre| + |middle| + j;
    }
  }

  /** The order of what is before and of what is after does not matter. */
  lemma WaitsAlike(pre: seq<Node>, pre': seq<Node>, middle: seq<Node>, negs: seq<Node>, post: seq<Node>, post': seq<Node>, k: nat)
    requires multiset(pre) == multiset(pre') && multiset(post) == multiset(post') && |pre| <= k < |pre| + |middle|
    ensures k < |pre' + middle + post'|
    ensures MayWait(pre + middle + post, k, negs) ==> MayWait(pre' + middle + post', k, negs)
  {
    var s, t := pre + middle + post, pre' + middle + post';
    var k' := SamePlace(pre, pre', middle, post, post', k);
    if MayWait(s, k, negs) {
      var p := s[k];
      forall i, name | 0 <= i < |t| && i != k && name in p.defines
        ensures name !in t[i].dependsOn
      {
        var j := SamePlace(pre', pre, middle, post', post, i);
        assert j != k;
      }
      forall name | DefinedBefore(s, k, name)
        ensures DefinedBefore(t, k, name)
      {
        var i :| 0 <= i < k && name in s[i].defines;
        var j := SamePlace(pre, pre', middle, post, post', i);
      }
      var a :| 0 <= a < k && Anchors(s[a]);
      var b := SamePlace(pre, pre', middle, post, post', a);
      assert Anchors(t[b]);
    }
  }

  lemma AllWaitAlike(pre: seq<Node>, pre': seq<Node>, p: Node, mid: seq<Node>, negs: seq<Node>, post: seq<Node>, post': seq<Node>)
    requires multiset(pre) == multiset(pre') && multiset(post) == multiset(post')
    ensures AllWait(pre, p, mid, negs, post) <==> AllWait(pre', p, mid, negs, post')
  {
    hide MayWait;
    var middle := [p] + mid + negs;
    assert pre + [p] + mid + negs + post == pre + middle + post && pre' + [p] + mid + negs + post' == pre' + middle + post';
    SameMembers(pre, pre');
    SameMembers(post, post');
    forall k | |pre| <= k <= |pre| + |mid|
      ensures MayWait(pre + middle + post, k, negs) <==> MayWait(pre' + middle + post', k, negs)
    {
      WaitsAlike(pre, pre', middle, negs, post, post', k);
      WaitsAlike(pre', pre, middle, negs, post', post, k);
    }
  }

  /** Planned and pending nodes after the first of two parts. */
  ghost function After(ctx: Context, nodes: seq<Node>, out: seq<Node>, segment: seq<Node>): (r: (seq<Node>, seq<Node>))
    decreases |nodes|
  {
    if nodes == [] then (out, segment)
    else if InSegment(nodes[0]) then After(ctx, nodes[1..], out, segment + [nodes[0]])
    else After(ctx, nodes[1..], out + SegmentOrder(ctx, segment, DefinesOf(out)) + [nodes[0]], [])
  }

  lemma {:induction false} SegmentedSplit(ctx: Context, a: seq<Node>, b: seq<Node>, out: seq<Node>, segment: seq<Node>)
    ensures var (o, s) := After(ctx, a, out, segment); Segmented(ctx, a + b, out, segment) == Segmented(ctx, b, o, s)
    decreases |a|
  {
    hide SegmentOrder;
    if a == [] {
      assert a + b == b;
    } else {
      assert (a + b)[0] == a[0] && (a + b)[1..] == a[1..] + b;
      if InSegment(a[0]) {
        SegmentedSplit(ctx, a[1..], b, out, segment + [a[0]]);
      } else {
        SegmentedSplit(ctx, a[1..], b, out + SegmentOrder(ctx, segment, DefinesOf(out)) + [a[0]], []);
      }
    }
  }

  /** A part that ends in a node outside of segments leaves nothing pending. */
  lemma {:induction false} AfterFlushed(ctx: Context, a: seq<Node>, out: seq<Node>, segment: seq<Node>)
    requires if a == [] then segment == [] else !InSegment(a[|a| - 1])
    ensures After(ctx, a, out, segment) == (Segmented(ctx, a, out, segment), [])
    decreases |a|
  {
    if a == [] {
      assert out + [] == out;
    } else if InSegment(a[0]) {
      assert a[1..] != [];
      AfterFlushed(ctx, a[1..], out, segment + [a[0]]);
    } else {
      AfterFlushed(ctx, a[1..], out + SegmentOrder(ctx, segment, DefinesOf(out)) + [a[0]], []);
    }
  }

  lemma {:induction false} AfterSegment(ctx: Context, a: seq<Node>, out: seq<Node>, segment: seq<Node>)
    requires forall n :: n in a ==> InSegment(n)
    ensures After(ctx, a, out, segment) == (out, segment + a)
    decreases |a|
  {
    if a == [] {
      assert segment + a == segment;
    } else {
      AfterSegment(ctx, a[1..], out, segment + [a[0]]);
      assert segment + [a[0]] + a[1..] == segment + a;
    }
  }

  lemma {:induction false} AfterRun(ctx: Context, a: seq<Node>, out: seq<Node>)
    requires forall n :: n in a ==> !InSegment(n)
    ensures After(ctx, a, out, []) == (out + a, [])
    decreases |a|
  {
    if a == [] {
      assert out + a == out;
    } else {
      assert out + [] + [a[0]] == out + [a[0]];
      AfterRun(ctx, a[1..], out + [a[0]]);
      assert out + [a[0]] + a[1..] == out + a;
    }
  }

  lemma {:induction false} OrderPermutes(ctx: Context, segment: seq<Node>, defined: set<Name>)
    ensures multiset(SegmentOrder(ctx, segment, defined)) == multiset(segment)
    decreases |segment|
  {
    if segment != [] {
      var k := Selected(ctx, segment, defined);
      OrderPermutes(ctx, Without(segment, k), defined + segment[k].defines);
      WithoutMultiset(segment, k);
    }
  }

  lemma PlannedPart(ctx: Context, segment: seq<Node>, out: seq<Node>)
    requires forall n :: n in segment ==> InSegment(n)
    ensures var planned := SegmentOrder(ctx, segment, DefinesOf(out));
            && multiset(planned) == multiset(segment) && (planned == [] <==> segment == [])
            && (planned != [] ==> planned[0].barrier != NegationBarrier)
  {
    hide SegmentOrder;
    var planned := SegmentOrder(ctx, segment, DefinesOf(out));
    OrderPermutes(ctx, segment, DefinesOf(out));
    SameMembers(planned, segment);
    if planned != [] { assert planned[0] in segment; }
  }

  lemma AddedMembers(planned: seq<Node>, segment: seq<Node>, n: Node, rest: seq<Node>, tail: seq<Node>)
    requires multiset(planned) == multiset(segment) && multiset(rest) == multiset(tail)
    ensures multiset(planned + [n] + rest) == multiset(segment + ([n] + tail))
  {
  }

  lemma SegmentedHead(ctx: Context, nodes: seq<Node>, out: seq<Node>, segment: seq<Node>)
    ensures nodes == [] ==> Segmented(ctx, nodes, out, segment) == out + SegmentOrder(ctx, segment, DefinesOf(out))
    ensures nodes != [] && InSegment(nodes[0]) ==> Segmented(ctx, nodes, out, segment) == Segmented(ctx, nodes[1..], out, segment + [nodes[0]])
    ensures nodes != [] && !InSegment(nodes[0]) ==>
              Segmented(ctx, nodes, out, segment) ==
              Segmented(ctx, nodes[1..], out + SegmentOrder(ctx, segment, DefinesOf(out)) + [nodes[0]], [])
  {
  }

  lemma Joined(a: seq<Node>, b: seq<Node>, c: seq<Node>, d: seq<Node>)
    ensures a + b + c + d == a + (b + c + d)
  {
  }

  lemma Headed(nodes: seq<Node>, segment: seq<Node>)
    requires nodes != []
    ensures segment + [nodes[0]] + nodes[1..] == segment + nodes && [nodes[0]] + nodes[1..] == nodes
  {
  }

  /** What is planned is added at the end, in some order, beginning outside of negations if the rest does. */
  lemma {:induction false} SegmentedAdds(ctx: Context, nodes: seq<Node>, out: seq<Node>, segment: seq<Node>) returns (more: seq<Node>)
    requires forall n :: n in segment ==> InSegment(n)
    ensures Segmented(ctx, nodes, out, segment) == out + more && multiset(more) == multiset(segment + nodes)
    ensures segment != [] || (nodes != [] && nodes[0].barrier != NegationBarrier) ==> more == [] || more[0].barrier != NegationBarrier
    decreases |nodes|
  {
    hide SegmentOrder, DefinesOf, Segmented;
    var planned := SegmentOrder(ctx, segment, DefinesOf(out));
    PlannedPart(ctx, segment, out);
    SegmentedHead(ctx, nodes, out, segment);
    if nodes == [] {
      more := planned;
      assert segment + nodes == segment;
    } else if InSegment(nodes[0]) {
      more := SegmentedAdds(ctx, nodes[1..], out, segment + [nodes[0]]);
      Headed(nodes, segment);
    } else {
      var rest := SegmentedAdds(ctx, nodes[1..], out + planned + [nodes[0]], []);
      more := planned + [nodes[0]] + rest;
      Joined(out, planned, [nodes[0]], rest);
      assert [] + nodes[1..] == nodes[1..];
      Headed(nodes, segment);
      AddedMembers(planned, segment, nodes[0], rest, nodes[1..]);
    }
  }

  /** A run of negations behind a segment that nothing negated precedes. */
  predicate Laid(nodes: seq<Node>, pre: seq<Node>, segment: seq<Node>, negs: seq<Node>, post: seq<Node>) {
    && nodes == pre + segment + negs + post && OrdersDiffer(nodes)
    && (pre == [] || !InSegment(pre[|pre| - 1])) && (forall n :: n in segment ==> InSegment(n))
    && FirstRun(pre + segment, negs, post) && forall n :: n in negs ==> !n.movable
  }

  lemma Handed(ctx: Context, nodes: seq<Node>, pre: seq<Node>, segment: seq<Node>, negs: seq<Node>, post: seq<Node>) returns (rest: seq<Node>)
    requires Laid(nodes, pre, segment, negs, post)
    ensures var start := Segmented(ctx, pre, [], []);
            && Segmented(ctx, nodes, [], []) == start + SegmentOrder(ctx, segment, DefinesOf(start)) + negs + rest
            && multiset(start) == multiset(pre) && multiset(rest) == multiset(post)
            && (rest == [] || rest[0].barrier != NegationBarrier)
  {
    hide SegmentOrder, DefinesOf, OrdersDiffer, Segmented, After;
    var start := Segmented(ctx, pre, [], []);
    var first := SegmentedAdds(ctx, pre, [], []);
    assert [] + first == first && [] + pre == pre;
    var planned := SegmentOrder(ctx, segment, DefinesOf(start));
    var tail := negs + post;
    assert nodes == pre + (segment + tail);
    SegmentedSplit(ctx, pre, segment + tail, [], []);
    AfterFlushed(ctx, pre, [], []);
    SegmentedSplit(ctx, segment, tail, start, []);
    AfterSegment(ctx, segment, start, []);
    assert [] + segment == segment;
    rest := RunAdds(ctx, negs, post, start, segment);
  }

  lemma RunAdds(ctx: Context, negs: seq<Node>, post: seq<Node>, out: seq<Node>, segment: seq<Node>) returns (rest: seq<Node>)
    requires negs != [] && (forall n :: n in negs ==> !InSegment(n)) && (post == [] || post[0].barrier != NegationBarrier)
    ensures Segmented(ctx, negs + post, out, segment) == out + SegmentOrder(ctx, segment, DefinesOf(out)) + negs + rest
    ensures multiset(rest) == multiset(post) && (rest == [] || rest[0].barrier != NegationBarrier)
  {
    hide SegmentOrder, DefinesOf, Segmented, After, InSegment;
    var planned := SegmentOrder(ctx, segment, DefinesOf(out));
    var next := out + planned + [negs[0]];
    Headed(negs, []);
    assert (negs + post)[0] == negs[0] && (negs + post)[1..] == negs[1..] + post && negs[0] in negs;
    SegmentedHead(ctx, negs + post, out, segment);
    SegmentedSplit(ctx, negs[1..], post, next, []);
    AfterRun(ctx, negs[1..], next);
    rest := SegmentedAdds(ctx, post, next + negs[1..], []);
    assert [] + post == post;
    assert next + negs[1..] == out + planned + negs;
    if post == [] { assert |multiset(rest)| == 0; }
  }

  /**
   In the plan a node of the segment before the first run of negations ends up behind it if it, and
   all that is selected after it, may wait, and stays ahead of it otherwise.
   */
  lemma PlannedDeferralExact(ir: PlanIR, pre: seq<Node>, segment: seq<Node>, negs: seq<Node>, post: seq<Node>, front: seq<Node>, p: Node, mid: seq<Node>)
    requires ir.reorder && |ir.nodes| >= 2 && Laid(ir.nodes, pre, segment, negs, post)
    requires SegmentOrder(ir.context, segment, DefinesOf(Segmented(ir.context, pre, [], []))) == front + [p] + mid
    ensures if AllWait(pre + front, p, mid, negs, post) then Behind(PlannedOrder(ir), p, negs) else Ahead(PlannedOrder(ir), p, negs)
  {
    hide SegmentOrder, Segmented, Deferred, AllWait, DefinesOf, PlannedOrder, Laid, Behind, Ahead;
    var start := Segmented(ir.context, pre, [], []);
    var rest := Handed(ir.context, ir.nodes, pre, segment, negs, post);
    OrderPermutes(ir.context, segment, DefinesOf(start));
    var arranged := start + (front + [p] + mid) + negs + rest;
    PlannedHands(ir, arranged);
    HandedDeferral(ir.nodes, pre, segment, negs, post, start, front, p, mid, rest);
  }

  lemma PlannedHands(ir: PlanIR, arranged: seq<Node>)
    requires ir.reorder && |ir.nodes| >= 2 && Segmented(ir.context, ir.nodes, [], []) == arranged
    ensures PlannedOrder(ir) == Deferred(arranged, 0)
  {
    hide Segmented, Deferred;
  }

  lemma HandedDeferral(nodes: seq<Node>, pre: seq<Node>, segment: seq<Node>, negs: seq<Node>, post: seq<Node>,
                       start: seq<Node>, front: seq<Node>, p: Node, mid: seq<Node>, rest: seq<Node>)
    requires Laid(nodes, pre, segment, negs, post) && multiset(start) == multiset(pre) && multiset(front + [p] + mid) == multiset(segment)
    requires multiset(rest) == multiset(post) && (rest == [] || rest[0].barrier != NegationBarrier)
    ensures var out := Deferred(start + (front + [p] + mid) + negs + rest, 0);
            if AllWait(pre + front, p, mid, negs, post) then Behind(out, p, negs) else Ahead(out, p, negs)
  {
    hide Deferred, AllWait, OrdersDiffer, FirstRun, Behind, Ahead;
    assert start + (front + [p] + mid) == start + front + [p] + mid;
    ArrangedMembers(nodes, pre, segment, negs, post, start, front + [p] + mid, rest);
    OrdersKept(nodes, start + front + [p] + mid + negs + rest);
    DeferralExact(start + front, p, mid, negs, rest);
    assert multiset(start + front) == multiset(pre + front);
    AllWaitAlike(start + front, pre + front, p, mid, negs, rest, post);
  }

  lemma ArrangedMembers(nodes: seq<Node>, pre: seq<Node>, segment: seq<Node>, negs: seq<Node>, post: seq<Node>,
                        start: seq<Node>, planned: seq<Node>, rest: seq<Node>)
    requires Laid(nodes, pre, segment, negs, post) && multiset(start) == multiset(pre) && multiset(planned) == multiset(segment)
    requires multiset(rest) == multiset(post) && (rest == [] || rest[0].barrier != NegationBarrier)
    ensures multiset(start + planned + negs + rest) == multiset(nodes) && FirstRun(start + planned, negs, rest)
  {
    SameMembers(start + planned, pre + segment);
  }

  /** A payload alone in its segment, which is put behind the negations exactly when it may wait. */
  lemma PlannedAlone(ir: PlanIR, pre: seq<Node>, p: Node, negs: seq<Node>, post: seq<Node>)
    requires ir.reorder && |ir.nodes| >= 2 && Laid(ir.nodes, pre, [p], negs, post)
    ensures if MayWait(ir.nodes, |pre|, negs) then Behind(PlannedOrder(ir), p, negs) else Ahead(PlannedOrder(ir), p, negs)
  {
    hide MayWait, Laid;
    var defined := DefinesOf(Segmented(ir.context, pre, [], []));
    OrderOne(ir.context, p, defined);
    assert [] + [p] + [] == [p] && pre + [] == pre && pre + [p] + [] + negs + post == pre + [p] + negs + post;
    LaidNodes(ir.nodes, pre, [p], negs, post);
    PlannedDeferralExact(ir, pre, [p], negs, post, [], p, []);
  }

  lemma LaidNodes(nodes: seq<Node>, pre: seq<Node>, segment: seq<Node>, negs: seq<Node>, post: seq<Node>)
    requires Laid(nodes, pre, segment, negs, post)
    ensures nodes == pre + segment + negs + post
  {
  }

  lemma OrderOne(ctx: Context, p: Node, defined: set<Name>)
    ensures SegmentOrder(ctx, [p], defined) == [p]
  {
    var k := Selected(ctx, [p], defined);
    assert k == 0 && Without([p], 0) == [];
  }

  // ----- A branch --------------------------------------------------------------------------------

  /** A match with a constraint, a plain match, and a negation joined to the first. */
  function PayloadBranch(): seq<Condition> {
    [ Match(MatchSpec("a", Some("t"), [FieldConstraint("x", Eq, Const(Null))], [], [], [], false), true, false),
      Match(MatchSpec("p", Some("u"), [], [], [], [], false), true, false),
      Match(MatchSpec("n", Some("v"), [], [], [Join("x", Eq, "a", "x")], [], false), false, true) ]
  }

  lemma PayloadNodes()
    ensures var cs := PayloadBranch(); var nodes := StrippedNodes(cs);
            && |nodes| == 3 && nodes[0].hardDeps == nodes[1].hardDeps == {} && nodes[0].dependsOn == nodes[1].dependsOn == {}
            && nodes[0].defines == {"a"} && nodes[1].defines == {"p"} && nodes[2].defines == {} && nodes[2].dependsOn == {"a"}
            && SelectivityScore(nodes[0].cond) == 890 && SelectivityScore(nodes[1].cond) == 990
  {
    var cs := PayloadBranch();
    assert ConstraintNames(cs[0].spec.constraints) == {} && ConstraintScore(cs[0].spec.constraints) == -100;
    assert JoinNames(cs[2].spec.joins) == {"a"};
  }

  lemma PayloadSegment(ctx: Context, n0: Node, n1: Node)
    requires n0.hardDeps == n1.hardDeps == {} && n0.order < n1.order && !n0.isVolatile && !n1.isVolatile && ctx.profile.None?
    requires SelectivityScore(n0.cond) < SelectivityScore(n1.cond)
    ensures SegmentOrder(ctx, [n0, n1], {}) == [n0, n1]
  {
    var nodes := [n0, n1];
    assert ReadyBelow(nodes, {}, 1) == [0] && ReadyBelow(nodes, {}, 2) == [0, 1];
    var cs: seq<nat> := [0, 1];
    assert Candidates(ctx, nodes, {}) == (cs, false);
    assert !Prefers(ctx, nodes, {}, false, n1, n0);
    assert Best(ctx, nodes, {}, false, cs, 1) == 0;
    assert Selected(ctx, nodes, {}) == 0;
    assert Without(nodes, 0) == [n1];
    OrderOne(ctx, n1, {} + n0.defines);
    assert SegmentOrder(ctx, nodes, {}) == [n0] + [n1];
  }

  /** Three nodes like these, whatever they match. */
  predicate LikePayload(n0: Node, n1: Node, n2: Node) {
    && n0.order == 0 && n1.order == 1 && n2.order == 2 && InSegment(n0) && InSegment(n1) && !n2.movable && n2.barrier == NegationBarrier
    && n0.defines == {"a"} && n1.defines == {"p"} && n0.dependsOn == n1.dependsOn == {} && n2.dependsOn == {"a"}
    && Anchors(n0) && Anchors(n1)
  }

  lemma PayloadWaits(n0: Node, n1: Node, n2: Node)
    requires LikePayload(n0, n1, n2)
    ensures AllWait([n0], n1, [], [n2], [])
  {
    var nodes := [n0] + [n1] + [] + [n2] + [];
    assert nodes == [n0, n1, n2];
    assert DefinedBefore(nodes, 1, "a") by { assert "a" in nodes[0].defines; }
    assert Anchors(nodes[0]);
    assert MayWait(nodes, 1, [n2]);
  }

  lemma PayloadLaid(n0: Node, n1: Node, n2: Node)
    requires LikePayload(n0, n1, n2)
    ensures Laid([n0, n1, n2], [], [n0, n1], [n2], [])
  {
    assert [] + [n0, n1] + [n2] + [] == [n0, n1, n2];
  }

  lemma PayloadBehind(ir: PlanIR, n0: Node, n1: Node, n2: Node)
    requires ir.reorder && ir.nodes == [n0, n1, n2] && LikePayload(n0, n1, n2)
    requires SegmentOrder(ir.context, [n0, n1], {}) == [n0, n1]
    ensures Behind(PlannedOrder(ir), n1, [n2])
  {
    hide AllWait, PlannedOrder, Behind, Ahead, Laid, SegmentOrder;
    var none: seq<Node> := [];
    PayloadWaits(n0, n1, n2);
    PayloadLaid(n0, n1, n2);
    NothingSegmented(ir.context);
    assert [n0] + [n1] + none == [n0, n1] && none + [n0] == [n0];
    PlannedDeferralExact(ir, none, [n0, n1], [n2], none, [n0], n1, none);
  }

  lemma NothingSegmented(ctx: Context)
    ensures Segmented(ctx, [], [], []) == []
  {
  }

  /** The plain match, on which nothing depends, is planned behind the negation. */
  lemma PayloadDeferred()
    ensures var ir := ReorderedIR(PayloadBranch(), None); Behind(PlannedOrder(ir), ir.nodes[1], [ir.nodes[2]])
  {
    hide PlannedOrder, Behind, SegmentOrder, SelectivityScore;
    var ir := ReorderedIR(PayloadBranch(), None);
    var nodes := ir.nodes;
    PayloadNodes();
    assert nodes == [nodes[0], nodes[1], nodes[2]];
    PayloadSegment(ir.context, nodes[0], nodes[1]);
    PayloadBehind(ir, nodes[0], nodes[1], nodes[2]);
  }
}
