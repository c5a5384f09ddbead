/**
 How a plan reads a branch: a join that has been moved off the condition it was written on refers to
 the fact of its other side.  The planned branch has the matches of the branch so read.
 */
module BranchReading {
  import opened Sequences
  import opened BranchSyntax
  import opened BranchSemantics
  import opened BranchPlanner
  import opened BranchOrder
  import opened BranchMeaning

  /** The join as it will read: once swapped, it names the fact of the condition that defines the name it was written with. */
  function ReadJoin(r: seq<Node>, b: Name, j: Join): Join {
    var o := IndexOf(r, j.refBinding);
    if SidesKept(r, b, j) || o.None? then j else j.(refBinding := Label(r[o.value].cond))
  }

  function ReadJoins(r: seq<Node>, b: Name, js: seq<Join>): (s: seq<Join>)
    ensures |s| == |js| && forall k :: 0 <= k < |js| ==> s[k] == ReadJoin(r, b, js[k])
  {
    if js == [] then [] else [ReadJoin(r, b, js[0])] + ReadJoins(r, b, js[1..])
  }

  function ReadCondition(r: seq<Node>, c: Condition): Condition {
    if c.Match? && c.visible then WithJoins(c, ReadJoins(r, c.spec.binding, c.spec.joins)) else c
  }

  /** The authored branch with the swapped joins of its visible matches as the plan reads them. */
  function AsRead(cs: seq<Condition>, r: seq<Node>): (ds: seq<Condition>)
    ensures |ds| == |cs|
  {
    seq(|cs|, i requires 0 <= i < |cs| => ReadCondition(r, cs[i]))
  }

  /** A hidden positive match has been swapped with what it is joined to. */
  ghost predicate SwapsHidden(cs: seq<Condition>, r: seq<Node>) {
    exists i, j :: 0 <= i < |cs| && Fragile(cs, i, j) && !cs[i].visible && !SidesKept(r, cs[i].spec.binding, j)
  }

  // ----- The branch so read is well scoped -------------------------------------------------

  lemma ReadShape(r: seq<Node>, c: Condition)
    ensures var d := ReadCondition(r, c); Defines(d) == Defines(c) && Labels(d) == Labels(c) && Strip(d) == Strip(c)
    ensures WellFormed(c) ==> WellFormed(ReadCondition(r, c))
  {
  }

  lemma {:induction false} ReadDefines(cs: seq<Condition>, r: seq<Node>, i: nat)
    requires i <= |cs|
    ensures DefinesAll(AsRead(cs, r)[..i]) == DefinesAll(cs[..i])
  {
    hide ReadCondition, Defines;
    if i > 0 {
      ReadDefines(cs, r, i - 1);
      var ds := AsRead(cs, r);
      assert ds[..i] == ds[..i - 1] + [ds[i - 1]] && cs[..i] == cs[..i - 1] + [cs[i - 1]];
      DefinesAllConcat(ds[..i - 1], [ds[i - 1]]);
      DefinesAllConcat(cs[..i - 1], [cs[i - 1]]);
      ReadShape(r, cs[i - 1]);
    }
  }

  /** A swapped join of a visible match names the fact of an earlier visible match. */
  lemma ReadOwner(cs: seq<Condition>, r: seq<Node>, i: nat, j: Join) returns (h: nat)
    requires Plans(cs, r) && i < |cs| && cs[i].Match? && cs[i].visible && j in cs[i].spec.joins
    ensures h < i && j.refBinding in Defines(cs[h])
    ensures var d := ReadJoin(r, cs[i].spec.binding, j);
            && d == j.(refBinding := d.refBinding) && d.refBinding in Defines(cs[h]) && d.refBinding != "" && Invert(d.op).Some?
            && IndexOf(r, d.refBinding) == IndexOf(r, j.refBinding)
            && IndexOf(r, cs[i].spec.binding).Some? && IndexOf(r, j.refBinding).Some?
            && IndexOf(r, cs[i].spec.binding) != IndexOf(r, j.refBinding)
            && (!SidesKept(r, cs[i].spec.binding, j) ==> cs[h].Match? && cs[h].visible && cs[h].spec.binding == d.refBinding)
            && (SidesKept(r, cs[i].spec.binding, j) ==> d == j)
  {
    hide IndexOf, Sound;
    var kl, kr;
    kl, kr, h := JoinSides(cs, r, i, j);
    assert WellScopedAt(cs, h);
    if !SidesKept(r, cs[i].spec.binding, j) {
      PlanNode(cs, r, kr);
      PlanIndex(cs, r, kr, cs[h].spec.binding);
    }
  }

  lemma {:induction false} JoinNamesAll(js: seq<Join>, names: set<Name>)
    requires forall j :: j in js ==> j.refBinding in names
    ensures JoinNames(js) <= names
  {
    if js != [] { JoinNamesAll(js[1..], names); }
  }

  /** The joins apart, a match names what it named. */
  lemma ReadNames(cs: seq<Condition>, r: seq<Node>, i: nat)
    requires Plans(cs, r) && i < |cs| && cs[i].Match? && cs[i].visible
    ensures ScopedMatch(ReadCondition(r, cs[i]), AsRead(cs, r)[..i])
  {
    hide IndexOf, Sound;
    var d := ReadCondition(r, cs[i]);
    assert WellScopedAt(cs, i);
    ReadDefines(cs, r, i);
    forall j | j in d.spec.joins
      ensures j.refBinding in DefinesAll(cs[..i]) && j.refBinding != "" && Invert(j.op).Some?
    {
      var k :| 0 <= k < |d.spec.joins| && d.spec.joins[k] == j;
      var h := ReadOwner(cs, r, i, cs[i].spec.joins[k]);
      DefinesAllIn(cs, i, h, j.refBinding);
    }
    JoinNamesAll(d.spec.joins, DefinesAll(cs[..i]));
  }

  lemma {:induction false} DefinesAllIn(cs: seq<Condition>, i: nat, h: nat, n: Name)
    requires h < i <= |cs| && n in Defines(cs[h])
    ensures n in DefinesAll(cs[..i])
  {
    assert cs[..i] == cs[..h] + ([cs[h]] + cs[h + 1..i]);
    DefinesAllConcat(cs[..h], [cs[h]] + cs[h + 1..i]);
    DefinesAllConcat([cs[h]], cs[h + 1..i]);
  }

  lemma ReadScoped(cs: seq<Condition>, r: seq<Node>)
    requires Plans(cs, r)
    ensures WellScoped(AsRead(cs, r))
  {
    hide IndexOf, Sound, ReadCondition;
    var ds := AsRead(cs, r);
    forall i | 0 <= i < |ds|
      ensures WellScopedAt(ds, i)
    {
      assert WellScopedAt(cs, i);
      ReadShape(r, cs[i]);
      ReadKind(r, cs[i]);
      ReadDefines(cs, r, i);
      if cs[i].Match? && cs[i].visible { ReadNames(cs, r, i); }
    }
    forall i, j | 0 <= i < j < |ds|
      ensures Labels(ds[i]) !! Labels(ds[j])
    {
      ReadShape(r, cs[i]);
      ReadShape(r, cs[j]);
    }
  }

  lemma ReadKind(r: seq<Node>, c: Condition)
    ensures ReadCondition(r, c).Match? == c.Match?
    ensures c.Match? ==> ReadCondition(r, c) == c.(spec := c.spec.(joins := ReadCondition(r, c).spec.joins))
    ensures !(c.Match? && c.visible) ==> ReadCondition(r, c) == c
  {
  }

  // ----- The same order plans it -------------------------------------------------------------

  /** The node of the condition as it is read. */
  function ReadNode(ds: seq<Condition>, n: Node): Node {
    if n.order < |ds| then NewStrippedNode(ds[n.order], n.order) else n
  }

  function ReadPlan(cs: seq<Condition>, r: seq<Node>): (s: seq<Node>)
    ensures |s| == |r|
  {
    var ds := AsRead(cs, r);
    Mapped((n: Node) => ReadNode(ds, n), r)
  }

  /** Only what a visible match depends on is read differently. */
  lemma ReadAlike(cs: seq<Condition>, r: seq<Node>, i: nat)
    requires WellScoped(cs) && i < |cs|
    ensures var n, d := NewStrippedNode(cs[i], i), ReadNode(AsRead(cs, r), NewStrippedNode(cs[i], i));
            d == n.(dependsOn := d.dependsOn)
    ensures ReadNode(AsRead(cs, r), NewStrippedNode(cs[i], i)) == StrippedNodes(AsRead(cs, r))[i]
    ensures IsNegation(NewStrippedNode(cs[i], i)) ==> ReadNode(AsRead(cs, r), NewStrippedNode(cs[i], i)) == NewStrippedNode(cs[i], i)
  {
    hide IndexOf, ReadCondition;
    assert WellScopedAt(cs, i);
    ReadKind(r, cs[i]);
    ReadShape(r, cs[i]);
  }

  lemma ReadPlanNode(cs: seq<Condition>, r: seq<Node>, k: nat)
    requires Plans(cs, r) && k < |r|
    ensures var n, d := r[k], ReadPlan(cs, r)[k];
            && d == n.(dependsOn := d.dependsOn) && (IsNegation(n) ==> d == n)
            && Pinned(d) == Pinned(n) && LabelsOf(d) == LabelsOf(n) && n.order < |cs|
  {
    hide IndexOf, Sound, ReadNode, Mapped;
    PlanNode(cs, r, k);
    ReadAlike(cs, r, r[k].order);
    var ds := AsRead(cs, r);
    MappedAt((n: Node) => ReadNode(ds, n), r, k);
  }

  lemma {:induction false} SameDefinesOf(a: seq<Node>, b: seq<Node>)
    requires |a| == |b| && forall k :: 0 <= k < |a| ==> a[k].defines == b[k].defines
    ensures DefinesOf(a) == DefinesOf(b)
  {
    if a != [] { SameDefinesOf(a[1..], b[1..]); }
  }

  lemma ReadPlanPrefix(cs: seq<Condition>, r: seq<Node>, k: nat)
    requires Plans(cs, r) && k <= |r|
    ensures DefinesOf(ReadPlan(cs, r)[..k]) == DefinesOf(r[..k])
  {
    hide IndexOf, Plans, ReadPlan;
    var s := ReadPlan(cs, r);
    forall i | 0 <= i < k
      ensures s[..k][i].defines == r[..k][i].defines
    {
      ReadPlanNode(cs, r, i);
    }
    SameDefinesOf(s[..k], r[..k]);
  }

  lemma ReadNodesPrefix(cs: seq<Condition>, r: seq<Node>, i: nat)
    requires WellScoped(cs) && i <= |cs|
    ensures var ds := AsRead(cs, r); Mapped((n: Node) => ReadNode(ds, n), StrippedNodes(cs)[..i]) == StrippedNodes(ds)[..i]
  {
    hide IndexOf, AsRead, ReadNode, NewStrippedNode, WellScoped, Mapped;
    var ds := AsRead(cs, r);
    var f := (n: Node) => ReadNode(ds, n);
    forall h | 0 <= h < i
      ensures Mapped(f, StrippedNodes(cs)[..i])[h] == StrippedNodes(ds)[..i][h]
    {
      ReadAlike(cs, r, h);
      MappedAt(f, StrippedNodes(cs)[..i], h);
    }
  }

  /** What is before a place of the plan, or all of it, is what it was. */
  lemma ReadPlanMultiset(cs: seq<Condition>, r: seq<Node>, k: nat, i: nat)
    requires WellScoped(cs) && k <= |r| && i <= |cs| && multiset(r[..k]) == multiset(StrippedNodes(cs)[..i])
    ensures multiset(ReadPlan(cs, r)[..k]) == multiset(StrippedNodes(AsRead(cs, r))[..i])
  {
    hide IndexOf, AsRead, ReadNode, NewStrippedNode, WellScoped;
    var ds := AsRead(cs, r);
    var f := (n: Node) => ReadNode(ds, n);
    MappedPermutes(f, r[..k], StrippedNodes(cs)[..i]);
    ReadNodesPrefix(cs, r, i);
    MappedConcat(f, r[..k], r[k..]);
    assert r == r[..k] + r[k..];
    assert ReadPlan(cs, r)[..k] == Mapped(f, r[..k]);
  }

  lemma ReadSound(cs: seq<Condition>, r: seq<Node>)
    requires Plans(cs, r)
    ensures Plans(AsRead(cs, r), ReadPlan(cs, r))
  {
    hide IndexOf, AsRead, ReadPlan, WellScoped;
    var s, ds := ReadPlan(cs, r), AsRead(cs, r);
    ReadScoped(cs, r);
    StrippedAuthored(ds);
    var nodes, read := StrippedNodes(cs), StrippedNodes(ds);
    assert r[..|r|] == r && nodes[..|cs|] == nodes;
    SameMembers(r, nodes);
    ReadPlanMultiset(cs, r, |r|, |cs|);
    assert s[..|r|] == s && read[..|cs|] == read;
    forall k | 0 <= k < |s|
      ensures SoundAt(read, s, k)
    {
      ReadPlanNode(cs, r, k);
      ReadPlanPrefix(cs, r, k);
      assert SoundAt(nodes, r, k);
      if Pinned(r[k]) { ReadPlanMultiset(cs, r, k, r[k].order); }
    }
    forall a, b | 0 <= a < b < |s|
      ensures SoundPair(s[a], s[b])
    {
      ReadPlanNode(cs, r, a);
      ReadPlanNode(cs, r, b);
      assert SoundPair(r[a], r[b]);
    }
  }

  // ----- The joins are attached as they were ----------------------------------------------------

  lemma {:induction false} SameIndex(r: seq<Node>, s: seq<Node>, n: Name)
    requires |r| == |s| && forall k :: 0 <= k < |r| ==> LabelsOf(r[k]) == LabelsOf(s[k])
    ensures IndexOf(r, n) == IndexOf(s, n)
  {
    hide LabelsOf;
    if r != [] { SameIndex(r[..|r| - 1], s[..|s| - 1], n); }
  }

  lemma ReadIndex(cs: seq<Condition>, r: seq<Node>, n: Name)
    requires Plans(cs, r)
    ensures IndexOf(ReadPlan(cs, r), n) == IndexOf(r, n)
  {
    hide IndexOf, Plans, ReadPlan, LabelsOf;
    var s := ReadPlan(cs, r);
    forall k | 0 <= k < |r|
      ensures LabelsOf(r[k]) == LabelsOf(s[k])
    {
      ReadPlanNode(cs, r, k);
    }
    SameIndex(r, s, n);
  }

  /** Both lists are attached alike, join by join. */
  ghost predicate AttachedAlike(r: seq<Node>, js: seq<PlanJoin>, s: seq<Node>, ks: seq<PlanJoin>) {
    |js| == |ks| && forall n :: 0 <= n < |js| ==> Attach(r, js[n]) == Attach(s, ks[n])
  }

  lemma {:induction false} SameAttached(r: seq<Node>, js: seq<PlanJoin>, s: seq<Node>, ks: seq<PlanJoin>, k: nat)
    requires AttachedAlike(r, js, s, ks)
    ensures AttachedTo(r, js, k) == AttachedTo(s, ks, k)
  {
    hide Attach;
    if js != [] { SameAttached(r, js[..|js| - 1], s, ks[..|ks| - 1], k); }
  }

  /** A join of a visible match is attached in the same place and with the same sides, read or not. */
  lemma ReadAttach(cs: seq<Condition>, r: seq<Node>, i: nat, j: Join)
    requires Plans(cs, r) && i < |cs| && cs[i].Match? && cs[i].visible && j in cs[i].spec.joins
    ensures var b, d := cs[i].spec.binding, ReadJoin(r, cs[i].spec.binding, j);
            Attach(r, PlanJoin(b, j.path, j.op, j.refBinding, j.refPath)) ==
            Attach(ReadPlan(cs, r), PlanJoin(b, d.path, d.op, d.refBinding, d.refPath))
  {
    hide IndexOf, Plans, ReadPlan, ReadJoin;
    var b, d := cs[i].spec.binding, ReadJoin(r, cs[i].spec.binding, j);
    var h := ReadOwner(cs, r, i, j);
    ReadIndex(cs, r, b);
    ReadIndex(cs, r, d.refBinding);
  }

  lemma SameAttach(cs: seq<Condition>, r: seq<Node>, pj: PlanJoin)
    requires Plans(cs, r)
    ensures Attach(r, pj) == Attach(ReadPlan(cs, r), pj)
  {
    hide IndexOf, Plans, ReadPlan;
    ReadIndex(cs, r, pj.left);
    ReadIndex(cs, r, pj.right);
  }

  lemma {:induction false} ReadJoinsAlike(cs: seq<Condition>, r: seq<Node>, i: nat, js: seq<Join>)
    requires Plans(cs, r) && i < |cs| && cs[i].Match? && cs[i].visible && forall j :: j in js ==> j in cs[i].spec.joins
    ensures var b := cs[i].spec.binding;
            AttachedAlike(r, PlanJoinsOf(b, js), ReadPlan(cs, r), PlanJoinsOf(b, ReadJoins(r, b, js)))
  {
    hide Plans, Attach, IndexOf, ReadPlan, ReadJoin;
    if js != [] {
      var h := ReadOwner(cs, r, i, js[0]);
      var _, _, _ := JoinSides(cs, r, i, js[0]);
      ReadAttach(cs, r, i, js[0]);
      ReadJoinsAlike(cs, r, i, js[1..]);
      assert ReadJoins(r, cs[i].spec.binding, js)[1..] == ReadJoins(r, cs[i].spec.binding, js[1..]);
    }
  }

  lemma ReadExtracted(cs: seq<Condition>, r: seq<Node>, i: nat)
    requires Plans(cs, r) && i < |cs|
    ensures AttachedAlike(r, ExtractedFrom(cs[i]), ReadPlan(cs, r), ExtractedFrom(AsRead(cs, r)[i]))
  {
    hide Plans, Attach, IndexOf, ReadPlan, ReadJoins, PlanJoinsOf;
    if cs[i].Match? && cs[i].visible {
      ReadJoinsAlike(cs, r, i, cs[i].spec.joins);
    } else {
      forall pj
        ensures Attach(r, pj) == Attach(ReadPlan(cs, r), pj)
      {
        SameAttach(cs, r, pj);
      }
    }
  }

  lemma {:induction false} ReadAllExtracted(cs: seq<Condition>, r: seq<Node>, i: nat)
    requires Plans(cs, r) && i <= |cs|
    ensures AttachedAlike(r, Extracted(cs[i..]), ReadPlan(cs, r), Extracted(AsRead(cs, r)[i..]))
    decreases |cs| - i
  {
    hide Plans, Attach, ExtractedFrom, ReadPlan, AsRead;
    if i < |cs| {
      ReadExtracted(cs, r, i);
      ReadAllExtracted(cs, r, i + 1);
      assert cs[i..][1..] == cs[i + 1..] && AsRead(cs, r)[i..][1..] == AsRead(cs, r)[i + 1..];
    }
  }

  /** The plan of the branch as read is the plan of the branch as authored. */
  lemma ReadReattached(cs: seq<Condition>, r: seq<Node>)
    requires Plans(cs, r)
    ensures Reattached(r, Extracted(cs)) == Reattached(ReadPlan(cs, r), Extracted(AsRead(cs, r)))
  {
    hide Plans, AttachedTo, Extracted, ReadPlan, AsRead;
    var s, ds := ReadPlan(cs, r), AsRead(cs, r);
    ReadAllExtracted(cs, r, 0);
    assert cs[0..] == cs && ds[0..] == ds;
    forall k | 0 <= k < |r|
      ensures Reattached(r, Extracted(cs))[k] == Reattached(s, Extracted(ds))[k]
    {
      ReadPlanNode(cs, r, k);
      SameAttached(r, Extracted(cs), s, Extracted(ds), k);
    }
  }

  /** As it is read, only hidden matches can have been swapped with what they may not be swapped with. */
  lemma ReadKeepsSides(cs: seq<Condition>, r: seq<Node>)
    requires Plans(cs, r) && !SwapsHidden(cs, r)
    ensures KeepsSides(AsRead(cs, r), ReadPlan(cs, r))
  {
    hide IndexOf, Plans, ReadPlan;
    var s, ds := ReadPlan(cs, r), AsRead(cs, r);
    forall i, j | 0 <= i < |ds| && Fragile(ds, i, j)
      ensures SidesKept(s, ds[i].spec.binding, j)
    {
      ReadIndex(cs, r, ds[i].spec.binding);
      ReadIndex(cs, r, j.refBinding);
      if cs[i].visible {
        var k :| 0 <= k < |cs[i].spec.joins| && ReadJoin(r, cs[i].spec.binding, cs[i].spec.joins[k]) == j;
        var h := ReadOwner(cs, r, i, cs[i].spec.joins[k]);
        assert ds[..i][h] == ReadCondition(r, cs[h]);
      } else {
        assert Fragile(cs, i, j);
      }
    }
  }

  /**
   What the planned branch matches, whatever the plan swaps: exactly what the authored branch would,
   were its swapped joins written on the facts they are read from.
   */
  lemma PlannedAsRead(w: World, cs: seq<Condition>, r: seq<Node>)
    requires Plans(cs, r) && !SwapsHidden(cs, r)
    ensures Matches(w, Reattached(r, Extracted(cs)), map[]) == Matches(w, AsRead(cs, r), map[])
  {
    hide Plans, Matches, Reattached, AsRead, ReadPlan;
    ReadSound(cs, r);
    ReadReattached(cs, r);
    ReadKeepsSides(cs, r);
    SoundOrderPreservesMatches(w, AsRead(cs, r), ReadPlan(cs, r));
  }
}
