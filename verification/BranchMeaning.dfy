/**
 Planning preserves meaning: for every well-scoped branch and every world, the
 planned branch has exactly the complete matches of the branch as authored.
 */
module BranchMeaning {
  import opened Options
  import opened Sequences
  import opened BranchSyntax
  import opened BranchSemantics
  import opened BranchPlanner
  import opened BranchOrder

  // ----- Hypotheses ------------------------------------------------------------

  /** Names that stand for a matched fact, not for a captured or computed value. */
  predicate FactBinding(cs: seq<Condition>, b: Name) {
    exists i :: 0 <= i < |cs| && cs[i].Match? && cs[i].visible && cs[i].spec.binding == b
  }

  /** What the compiler checks of a match: it and its joins name earlier bindings. */
  predicate ScopedMatch(c: Condition, before: seq<Condition>)
    requires c.Match?
  {
    SpecNames(c.spec) <= DefinesAll(before) && forall j :: j in c.spec.joins ==> j.refBinding != "" && Invert(j.op).Some?
  }

  predicate WellScopedAt(cs: seq<Condition>, i: nat)
    requires i < |cs|
  {
    WellFormed(cs[i]) && (cs[i].Match? ==> ScopedMatch(cs[i], cs[..i]))
  }

  /** The branch is scoped left to right and no two conditions share a name. */
  predicate WellScoped(cs: seq<Condition>) {
    && (forall i :: 0 <= i < |cs| ==> WellScopedAt(cs, i))
    && (forall i, j :: 0 <= i < j < |cs| ==> Labels(cs[i]) !! Labels(cs[j]))
  }

  // ----- The authored nodes -------------------------------------------------------

  lemma {:induction false} StrippedDefines(cs: seq<Condition>, i: nat)
    requires i <= |cs|
    ensures DefinesOf(StrippedNodes(cs)[..i]) == DefinesAll(cs[..i])
  {
    hide HardDeps, DependsOn, Defines;
    var nodes := StrippedNodes(cs);
    if i > 0 {
      StrippedDefines(cs, i - 1);
      assert nodes[..i] == nodes[..i - 1] + [nodes[i - 1]] && cs[..i] == cs[..i - 1] + [cs[i - 1]];
      DefinesOfConcat(nodes[..i - 1], [nodes[i - 1]]);
      DefinesAllConcat(cs[..i - 1], [cs[i - 1]]);
    }
  }

  lemma {:induction false} DefinesAllConcat(a: seq<Condition>, b: seq<Condition>)
    ensures DefinesAll(a + b) == DefinesAll(a) + DefinesAll(b)
  {
    if a == [] {
      assert a + b == b;
    } else {
      DefinesAllConcat(a[1..], b);
      assert (a + b)[1..] == a[1..] + b;
    }
  }

  lemma StrippedAuthored(cs: seq<Condition>)
    requires WellScoped(cs)
    ensures Authored(StrippedNodes(cs))
  {
    forall i | 0 <= i < |cs|
      ensures DefinesOf(StrippedNodes(cs)[..i]) == DefinesAll(cs[..i]) && WellScopedAt(cs, i)
    {
      StrippedDefines(cs, i);
    }
  }

  /** A planned order of the branch: the nodes permuted, with their guarantees. */
  ghost predicate Plans(cs: seq<Condition>, r: seq<Node>) {
    WellScoped(cs) && Authored(StrippedNodes(cs)) && Sound(StrippedNodes(cs), r)
  }

  /** Position `k` of the plan holds the authored condition number `r[k].order`. */
  lemma PlanNode(cs: seq<Condition>, r: seq<Node>, k: nat)
    requires Plans(cs, r) && k < |r|
    ensures r[k].order < |cs| && r[k] == NewStrippedNode(cs[r[k].order], r[k].order)
  {
    AuthoredNode(StrippedNodes(cs), r, k);
  }

  lemma PlanPosition(cs: seq<Condition>, r: seq<Node>, i: nat) returns (k: nat)
    requires Plans(cs, r) && i < |cs|
    ensures k < |r| && r[k] == NewStrippedNode(cs[i], i)
  {
    var nodes := StrippedNodes(cs);
    SameMembers(r, nodes);
    assert nodes[i] in nodes;
    k :| 0 <= k < |r| && r[k] == nodes[i];
  }

  lemma {:induction false} CountOnce(nodes: seq<Node>, i: nat)
    requires forall a, b :: 0 <= a < b < |nodes| ==> nodes[a].order < nodes[b].order
    requires i < |nodes|
    ensures multiset(nodes)[nodes[i]] == 1
  {
    assert nodes == nodes[..i] + [nodes[i]] + nodes[i + 1..];
    assert nodes[i] !in nodes[..i] && nodes[i] !in nodes[i + 1..];
  }

  /** The plan holds no condition twice. */
  lemma PlanDistinct(cs: seq<Condition>, r: seq<Node>, a: nat, b: nat)
    requires Plans(cs, r) && a < b < |r|
    ensures r[a].order != r[b].order
  {
    PlanNode(cs, r, a);
    PlanNode(cs, r, b);
    CountOnce(StrippedNodes(cs), r[a].order);
    if r[a] == r[b] { RepeatedCount(r, a, b); }
  }

  lemma SameOwner(cs: seq<Condition>, i: nat, j: nat, n: Name)
    requires WellScoped(cs) && i < |cs| && j < |cs| && n in Labels(cs[i]) && n in Labels(cs[j])
    ensures i == j
  {
  }

  lemma PlanLabels(cs: seq<Condition>, r: seq<Node>, k: nat)
    requires Plans(cs, r) && k < |r|
    ensures r[k].order < |cs| && LabelsOf(r[k]) == Labels(cs[r[k].order])
  {
    PlanNode(cs, r, k);
  }

  /** Names identify positions of the plan. */
  lemma PlanIndex(cs: seq<Condition>, r: seq<Node>, k: nat, n: Name)
    requires Plans(cs, r) && k < |r| && n in LabelsOf(r[k])
    ensures IndexOf(r, n) == Some(k)
  {
    PlanLabels(cs, r, k);
    var i := IndexOf(r, n).value;
    PlanLabels(cs, r, i);
    SameOwner(cs, r[i].order, r[k].order, n);
    if i < k {
      PlanDistinct(cs, r, i, k);
    } else if k < i {
      PlanDistinct(cs, r, k, i);
    }
  }

  // ----- Joins as facts about a complete match --------------------------------------

  /** The join, authored on `b`, holds of the complete match. */
  function JoinOn(m: Env, b: Name, j: Join): bool {
    JoinRel(j.op, BoundField(m, b, j.path), BoundField(m, j.refBinding, j.refPath))
  }

  lemma InvertedRel(op: Op, l: Option<Value>, r: Option<Value>)
    requires Invert(op).Some?
    ensures JoinRel(op, l, r) == JoinRel(Invert(op).value, r, l)
  {
  }

  lemma {:induction false} PlanJoinsOfIn(b: Name, js: seq<Join>, pj: PlanJoin)
    ensures pj in PlanJoinsOf(b, js) <==>
            exists j :: j in js && b != "" && j.refBinding != "" && pj == PlanJoin(b, j.path, j.op, j.refBinding, j.refPath)
  {
    if js != [] {
      PlanJoinsOfIn(b, js[1..], pj);
      assert js == [js[0]] + js[1..];
    }
  }

  lemma {:induction false} ExtractedIn(cs: seq<Condition>, pj: PlanJoin)
    ensures pj in Extracted(cs) <==> exists i :: 0 <= i < |cs| && pj in ExtractedFrom(cs[i])
  {
    if cs != [] {
      ExtractedIn(cs[1..], pj);
      if pj in Extracted(cs[1..]) {
        var i :| 0 <= i < |cs[1..]| && pj in ExtractedFrom(cs[1..][i]);
        assert pj in ExtractedFrom(cs[i + 1]);
      }
      if exists i :: 0 <= i < |cs| && pj in ExtractedFrom(cs[i]) {
        var i :| 0 <= i < |cs| && pj in ExtractedFrom(cs[i]);
        if i > 0 { assert cs[1..][i - 1] == cs[i]; }
      }
    }
  }

  lemma {:induction false} AttachedToIn(r: seq<Node>, js: seq<PlanJoin>, k: nat, j: Join)
    ensures j in AttachedTo(r, js, k) <==> exists pj :: pj in js && Attach(r, pj) == Some(Attachment(k, j))
  {
    hide Attach;
    if js != [] {
      var n := |js| - 1;
      AttachedToIn(r, js[..n], k, j);
      assert js == js[..n] + [js[n]];
    }
  }

  /** The condition that defines the name a join refers to. */
  lemma JoinOwner(cs: seq<Condition>, i: nat, j: Join) returns (h: nat)
    requires WellScoped(cs) && i < |cs| && cs[i].Match? && j in cs[i].spec.joins
    ensures h < i && j.refBinding in Defines(cs[h])
    ensures cs[h].Match? ==> cs[h].visible && cs[h].spec.binding != ""
    ensures FactBinding(cs[..i], j.refBinding) ==> cs[h].Match? && cs[h].spec.binding == j.refBinding
  {
    assert WellScopedAt(cs, i);
    JoinNamesIn(cs[i].spec.joins, j);
    h := DefinesAllWitness(cs[..i], j.refBinding);
    assert WellScopedAt(cs, h);
    if FactBinding(cs[..i], j.refBinding) {
      var k :| 0 <= k < |cs[..i]| && cs[..i][k].Match? && cs[..i][k].visible && cs[..i][k].spec.binding == j.refBinding;
      assert WellScopedAt(cs, k);
      SameOwner(cs, h, k, j.refBinding);
    }
  }

  /** A join of the branch: where it was written, and where its two sides are planned. */
  lemma JoinSides(cs: seq<Condition>, r: seq<Node>, i: nat, j: Join) returns (kl: nat, kr: nat, h: nat)
    requires Plans(cs, r) && i < |cs| && cs[i].Match? && j in cs[i].spec.joins
    ensures kl < |r| && kr < |r| && kl != kr
    ensures r[kl].order == i && IndexOf(r, cs[i].spec.binding) == Some(kl)
    ensures h < i && r[kr].order == h && j.refBinding in Defines(cs[h]) && IndexOf(r, j.refBinding) == Some(kr)
    ensures FactBinding(cs[..i], j.refBinding) ==> cs[h].Match? && cs[h].spec.binding == j.refBinding
    ensures kl < kr ==> !cs[i].negated && cs[h].Match? && cs[h].visible
    ensures Invert(j.op).Some? && j.refBinding != "" && cs[i].spec.binding != ""
  {
    assert WellScopedAt(cs, i);
    h := JoinOwner(cs, i, j);
    kl := PlanPosition(cs, r, i);
    kr := PlanPosition(cs, r, h);
    assert j.refBinding in r[kr].defines;
    PlanIndex(cs, r, kl, cs[i].spec.binding);
    PlanIndex(cs, r, kr, j.refBinding);
    if kl < kr { assert SoundPair(r[kl], r[kr]); }
    if cs[i].negated {
      assert SoundAt(StrippedNodes(cs), r, kl);
      JoinNamesIn(cs[i].spec.joins, j);
      assert j.refBinding in r[kl].dependsOn;
      DefinesOfIn(r[..kl], j.refBinding);
      var x :| x in r[..kl] && j.refBinding in x.defines;
      var k :| 0 <= k < kl && r[k] == x;
      PlanIndex(cs, r, k, j.refBinding);
    }
  }

  /** A join that may not move: a visible match joined to something else than a fact, or a hidden match that is no negation. */
  predicate Fragile(cs: seq<Condition>, i: nat, j: Join)
    requires i < |cs|
  {
    && cs[i].Match? && j in cs[i].spec.joins
    && if cs[i].visible then !FactBinding(cs[..i], j.refBinding) else !cs[i].negated
  }

  /** What a join written on `b` refers to still comes before `b`. */
  predicate SidesKept(r: seq<Node>, b: Name, j: Join) {
    var l, o := IndexOf(r, b), IndexOf(r, j.refBinding);
    l.Some? && o.Some? && o.value < l.value
  }

  /** The plan swaps the sides of no join that may not move. */
  ghost predicate KeepsSides(cs: seq<Condition>, r: seq<Node>) {
    forall i, j :: 0 <= i < |cs| && Fragile(cs, i, j) ==> SidesKept(r, cs[i].spec.binding, j)
  }

  /** Joins on facts by visible matches and negations may move anywhere. */
  lemma FactJoinsMove(cs: seq<Condition>, r: seq<Node>)
    requires forall i, j :: 0 <= i < |cs| && cs[i].Match? && j in cs[i].spec.joins ==>
               if cs[i].visible then FactBinding(cs[..i], j.refBinding) else cs[i].negated
    ensures KeepsSides(cs, r)
  {
  }

  /** Each authored join is re-attached to its later side, saying the same of a match. */
  lemma JoinAttached(cs: seq<Condition>, r: seq<Node>, i: nat, j: Join, m: Env) returns (k: nat, moved: Join)
    requires Plans(cs, r) && KeepsSides(cs, r) && i < |cs| && cs[i].Match? && j in cs[i].spec.joins
    ensures k < |r| && r[k].order < |cs| && cs[r[k].order].Match?
    ensures moved in AttachedTo(r, Extracted(cs), k)
    ensures JoinOn(m, cs[i].spec.binding, j) == JoinOn(m, cs[r[k].order].spec.binding, moved)
    ensures !cs[i].visible ==> r[k].order == i && moved == j
    ensures cs[i].visible ==> cs[r[k].order].visible
  {
    assert WellScopedAt(cs, i);
    var kl, kr, h := JoinSides(cs, r, i, j);
    if kl < kr { assert !Fragile(cs, i, j) by { assert !SidesKept(r, cs[i].spec.binding, j); } }
    var pj := PlanJoin(cs[i].spec.binding, j.path, j.op, j.refBinding, j.refPath);
    PlanJoinsOfIn(cs[i].spec.binding, cs[i].spec.joins, pj);
    assert pj in ExtractedFrom(cs[i]);
    ExtractedIn(cs, pj);
    if kl > kr {
      k, moved := kl, j;
    } else {
      k, moved := kr, Join(j.refPath, Invert(j.op).value, cs[i].spec.binding, j.path);
      InvertedRel(j.op, BoundField(m, cs[i].spec.binding, j.path), BoundField(m, j.refBinding, j.refPath));
    }
    assert Attach(r, pj) == Some(Attachment(k, moved));
    AttachedToIn(r, Extracted(cs), k, moved);
  }

  /** Each re-attached join comes from an authored join and refers to an earlier condition. */
  lemma AttachedFrom(cs: seq<Condition>, r: seq<Node>, k: nat, moved: Join, m: Env) returns (i: nat, j: Join)
    requires Plans(cs, r) && KeepsSides(cs, r) && k < |r| && moved in AttachedTo(r, Extracted(cs), k)
    ensures r[k].order < |cs| && cs[r[k].order].Match?
    ensures i < |cs| && cs[i].Match? && j in cs[i].spec.joins
    ensures JoinOn(m, cs[i].spec.binding, j) == JoinOn(m, cs[r[k].order].spec.binding, moved)
    ensures moved.refBinding in DefinesOf(r[..k])
    ensures !cs[i].visible || !cs[r[k].order].visible ==> i == r[k].order && moved == j
  {
    hide AttachedTo, Extracted, DefinesOf, LabelsOf, Sound;
    AttachedToIn(r, Extracted(cs), k, moved);
    var pj :| pj in Extracted(cs) && Attach(r, pj) == Some(Attachment(k, moved));
    ExtractedIn(cs, pj);
    i :| 0 <= i < |cs| && pj in ExtractedFrom(cs[i]);
    PlanJoinsOfIn(cs[i].spec.binding, cs[i].spec.joins, pj);
    j :| j in cs[i].spec.joins && pj == PlanJoin(cs[i].spec.binding, j.path, j.op, j.refBinding, j.refPath);
    var kl, kr, h := JoinSides(cs, r, i, j);
    assert WellScopedAt(cs, i) && WellScopedAt(cs, h);
    if kl < kr { assert !Fragile(cs, i, j) by { assert !SidesKept(r, cs[i].spec.binding, j); } }
    PlanNode(cs, r, k);
    if kl > kr {
      assert moved == j && k == kl;
      assert r[kr] in r[..k];
      PlanNode(cs, r, kr);
      DefinesOfIn(r[..k], moved.refBinding);
    } else {
      assert k == kr;
      InvertedRel(j.op, BoundField(m, cs[i].spec.binding, j.path), BoundField(m, j.refBinding, j.refPath));
      assert r[kl] in r[..k];
      PlanNode(cs, r, kl);
      DefinesOfIn(r[..k], moved.refBinding);
    }
  }

  // ----- Separating the joins of a visible match ---------------------------------------

  lemma JoinHoldsOn(s: MatchSpec, f: Fact, m: Env, before: set<Name>, j: Join)
    requires s.binding != "" && s.binding in m && m[s.binding] == FactRef(f)
    requires j.refBinding in before
    ensures JoinHolds(j, f, Restrict(m, before)) == JoinOn(m, s.binding, j)
  {
  }

  /** A visible match fits with its joins when it fits without them and they hold of the match. */
  lemma FitsSplit(w: World, s: MatchSpec, m: Env, before: set<Name>)
    requires WellFormed(Match(s, true, false))
    requires forall j :: j in s.joins ==> j.refBinding in before
    ensures Fits(w, Match(s, true, false), m, before) <==>
            Fits(w, Match(s.(joins := []), true, false), m, before) && forall j :: j in s.joins ==> JoinOn(m, s.binding, j)
  {
    var d, env, bare := Restrict(m, SpecDefines(s)), Restrict(m, before), s.(joins := []);
    forall f | f in w.facts && d == Extension(s, f)
      ensures Accepts(w, s, f, env) <==> Accepts(w, bare, f, env) && forall j :: j in s.joins ==> JoinOn(m, s.binding, j)
    {
      assert d[s.binding] == FactRef(f);
      forall j | j in s.joins
        ensures JoinHolds(j, f, env) == JoinOn(m, s.binding, j)
      {
        JoinHoldsOn(s, f, m, before, j);
      }
    }
    assert forall f :: Extension(s, f) == Extension(bare, f);
    if d in MatchExtensions(w, s, env) {
      var f :| f in w.facts && Accepts(w, s, f, env) && d == Extension(s, f);
      assert Accepts(w, bare, f, env);
      assert d in MatchExtensions(w, bare, env);
    }
    if d in MatchExtensions(w, bare, env) && forall j :: j in s.joins ==> JoinOn(m, s.binding, j) {
      var f :| f in w.facts && Accepts(w, bare, f, env) && d == Extension(bare, f);
      assert Accepts(w, s, f, env);
      assert d in MatchExtensions(w, s, env);
    }
  }

  // ----- One condition, authored and planned ------------------------------------------

  ghost function Before(cs: seq<Condition>, i: nat): set<Name>
    requires i <= |cs|
  {
    DefinesAll(cs[..i])
  }

  function PlannedCondition(cs: seq<Condition>, r: seq<Node>, k: nat): Condition
    requires k < |r|
  {
    AddJoins(r[k].cond, AttachedTo(r, Extracted(cs), k))
  }

  lemma PlannedShape(cs: seq<Condition>, r: seq<Node>, k: nat)
    requires Plans(cs, r) && k < |r|
    ensures r[k].order < |cs|
    ensures PlannedCondition(cs, r, k) == WithJoins(cs[r[k].order], AttachedTo(r, Extracted(cs), k))
    ensures Defines(PlannedCondition(cs, r, k)) == Defines(cs[r[k].order]) == r[k].defines
  {
    PlanNode(cs, r, k);
    assert forall js: seq<Join> :: [] + js == js;
  }

  /** A pinned condition sees exactly the bindings it saw as authored. */
  lemma PinnedBefore(cs: seq<Condition>, r: seq<Node>, k: nat)
    requires Plans(cs, r) && k < |r| && Pinned(r[k])
    ensures r[k].order < |cs| && DefinesOf(r[..k]) == Before(cs, r[k].order)
  {
    PlanNode(cs, r, k);
    assert SoundAt(StrippedNodes(cs), r, k);
    SameDefines(r[..k], StrippedNodes(cs)[..r[k].order]);
    StrippedDefines(cs, r[k].order);
  }

  lemma FitsLocal(w: World, c: Condition, m: Env, b1: set<Name>, b2: set<Name>)
    requires c.Match? && WellFormed(c)
    requires SpecHardNames(c.spec) + JoinNames(c.spec.joins) <= b1 * b2
    ensures Fits(w, c, m, b1) == Fits(w, c, m, b2)
  {
    MatchLocal(w, c, Restrict(m, b1), Restrict(m, b2));
  }

  /** Without its joins, a positive match fits in the plan exactly when it did as authored. */
  lemma StrippedFits(w: World, cs: seq<Condition>, r: seq<Node>, k: nat, m: Env)
    requires Plans(cs, r) && k < |r| && r[k].order < |cs|
    requires cs[r[k].order].Match? && !cs[r[k].order].negated
    ensures Fits(w, Strip(cs[r[k].order]), m, Before(cs, r[k].order)) == Fits(w, Strip(cs[r[k].order]), m, DefinesOf(r[..k]))
  {
    PlanNode(cs, r, k);
    assert WellScopedAt(cs, r[k].order);
    if r[k].movable {
      assert SoundAt(StrippedNodes(cs), r, k);
      FitsLocal(w, Strip(cs[r[k].order]), m, Before(cs, r[k].order), DefinesOf(r[..k]));
    } else {
      PinnedBefore(cs, r, k);
    }
  }

  lemma SameJoinsSameFit(w: World, c: Condition, js: seq<Join>, m: Env, before: set<Name>)
    requires c.Match? && forall j :: j in js <==> j in c.spec.joins
    requires !c.visible
    ensures Fits(w, WithJoins(c, js), m, before) == Fits(w, c, m, before)
  {
    var env, other := Restrict(m, before), c.spec.(joins := js);
    assert forall f :: Accepts(w, other, f, env) == Accepts(w, c.spec, f, env);
    assert MatchExtensions(w, other, env) == {} <==> MatchExtensions(w, c.spec, env) == {} by {
      forall f | f in w.facts
        ensures Accepts(w, other, f, env) ==> Extension(other, f) in MatchExtensions(w, other, env)
        ensures Accepts(w, c.spec, f, env) ==> Extension(c.spec, f) in MatchExtensions(w, c.spec, env)
      {
      }
    }
  }

  /** A negation, or any hidden match, keeps exactly its own joins. */
  lemma HiddenKeepsJoins(cs: seq<Condition>, r: seq<Node>, k: nat, j: Join)
    requires Plans(cs, r) && KeepsSides(cs, r) && k < |r| && r[k].order < |cs|
    requires cs[r[k].order].Match? && !cs[r[k].order].visible
    ensures j in AttachedTo(r, Extracted(cs), k) <==> j in cs[r[k].order].spec.joins
  {
    hide Plans, KeepsSides, AttachedTo, JoinOn, DefinesOf, Extracted;
    if j in AttachedTo(r, Extracted(cs), k) {
      var i, j' := AttachedFrom(cs, r, k, j, map[]);
    }
    if j in cs[r[k].order].spec.joins {
      var k', moved := JoinAttached(cs, r, r[k].order, j, map[]);
      if k < k' { PlanDistinct(cs, r, k, k'); } else if k' < k { PlanDistinct(cs, r, k', k); }
    }
  }

  /** What a hidden match reads is bound before it in the plan, as it was. */
  lemma HiddenScoped(cs: seq<Condition>, r: seq<Node>, k: nat)
    requires Plans(cs, r) && KeepsSides(cs, r) && k < |r| && r[k].order < |cs|
    requires cs[r[k].order].Match? && !cs[r[k].order].visible
    ensures var s := cs[r[k].order].spec; SpecHardNames(s) + JoinNames(s.joins) <= Before(cs, r[k].order) * DefinesOf(r[..k])
  {
    var c := cs[r[k].order];
    PlanNode(cs, r, k);
    assert WellScopedAt(cs, r[k].order);
    assert SoundAt(StrippedNodes(cs), r, k);
    if Pinned(r[k]) {
      PinnedBefore(cs, r, k);
    } else {
      forall n | n in JoinNames(c.spec.joins)
        ensures n in DefinesOf(r[..k])
      {
        var j := JoinNamed(c.spec.joins, n);
        HiddenKeepsJoins(cs, r, k, j);
        var _, _ := AttachedFrom(cs, r, k, j, map[]);
      }
    }
  }

  lemma {:induction false} JoinNamed(js: seq<Join>, n: Name) returns (j: Join)
    requires n in JoinNames(js)
    ensures j in js && j.refBinding == n
  {
    if n == js[0].refBinding { j := js[0]; } else { j := JoinNamed(js[1..], n); }
  }

  lemma HiddenFits(w: World, cs: seq<Condition>, r: seq<Node>, k: nat, m: Env)
    requires Plans(cs, r) && KeepsSides(cs, r) && k < |r| && r[k].order < |cs|
    requires cs[r[k].order].Match? && !cs[r[k].order].visible
    ensures Fits(w, PlannedCondition(cs, r, k), m, DefinesOf(r[..k])) == Fits(w, cs[r[k].order], m, Before(cs, r[k].order))
  {
    var c := cs[r[k].order];
    PlannedShape(cs, r, k);
    HiddenScoped(cs, r, k);
    assert WellScopedAt(cs, r[k].order);
    forall j
      ensures j in AttachedTo(r, Extracted(cs), k) <==> j in c.spec.joins
    {
      HiddenKeepsJoins(cs, r, k, j);
    }
    SameJoinsSameFit(w, c, AttachedTo(r, Extracted(cs), k), m, DefinesOf(r[..k]));
    FitsLocal(w, c, m, Before(cs, r[k].order), DefinesOf(r[..k]));
  }

  /** Tests, aggregates, quantifiers, negations and hidden matches fit alike. */
  lemma OtherFits(w: World, cs: seq<Condition>, r: seq<Node>, k: nat, m: Env)
    requires Plans(cs, r) && KeepsSides(cs, r) && k < |r| && r[k].order < |cs|
    requires var c := cs[r[k].order]; !(c.Match? && c.visible)
    ensures Fits(w, PlannedCondition(cs, r, k), m, DefinesOf(r[..k])) == Fits(w, cs[r[k].order], m, Before(cs, r[k].order))
  {
    var c := cs[r[k].order];
    PlanNode(cs, r, k);
    PlannedShape(cs, r, k);
    assert WellScopedAt(cs, r[k].order);
    if !c.Match? {
      PinnedBefore(cs, r, k);
    } else {
      HiddenFits(w, cs, r, k, m);
    }
  }

  ghost predicate AuthoredFits(w: World, cs: seq<Condition>, m: Env) {
    forall i :: 0 <= i < |cs| ==> Fits(w, cs[i], m, Before(cs, i))
  }

  ghost predicate PlannedFits(w: World, cs: seq<Condition>, r: seq<Node>, m: Env) {
    forall k :: 0 <= k < |r| ==> Fits(w, PlannedCondition(cs, r, k), m, DefinesOf(r[..k]))
  }

  lemma AuthoredSplit(w: World, cs: seq<Condition>, i: nat, m: Env)
    requires WellScoped(cs) && i < |cs| && cs[i].Match? && cs[i].visible
    ensures Fits(w, cs[i], m, Before(cs, i)) <==>
            Fits(w, Strip(cs[i]), m, Before(cs, i)) && forall j :: j in cs[i].spec.joins ==> JoinOn(m, cs[i].spec.binding, j)
  {
    assert WellScopedAt(cs, i);
    forall j | j in cs[i].spec.joins
      ensures j.refBinding in Before(cs, i)
    {
      JoinNamesIn(cs[i].spec.joins, j);
    }
    FitsSplit(w, cs[i].spec, m, Before(cs, i));
  }

  lemma PlannedSplit(w: World, cs: seq<Condition>, r: seq<Node>, k: nat, m: Env)
    requires Plans(cs, r) && KeepsSides(cs, r) && k < |r| && r[k].order < |cs|
    requires cs[r[k].order].Match? && cs[r[k].order].visible
    ensures Fits(w, PlannedCondition(cs, r, k), m, DefinesOf(r[..k])) <==>
            && Fits(w, Strip(cs[r[k].order]), m, DefinesOf(r[..k]))
            && forall j :: j in AttachedTo(r, Extracted(cs), k) ==> JoinOn(m, cs[r[k].order].spec.binding, j)
  {
    var c, js := cs[r[k].order], AttachedTo(r, Extracted(cs), k);
    PlannedShape(cs, r, k);
    assert WellScopedAt(cs, r[k].order);
    forall j | j in js
      ensures j.refBinding in DefinesOf(r[..k])
    {
      var i, j' := AttachedFrom(cs, r, k, j, m);
    }
    FitsSplit(w, c.spec.(joins := js), m, DefinesOf(r[..k]));
  }

  lemma AuthoredToPlanned(w: World, cs: seq<Condition>, r: seq<Node>, m: Env, k: nat)
    requires Plans(cs, r) && KeepsSides(cs, r) && k < |r| && AuthoredFits(w, cs, m)
    ensures Fits(w, PlannedCondition(cs, r, k), m, DefinesOf(r[..k]))
  {
    PlanNode(cs, r, k);
    var o := r[k].order;
    assert Fits(w, cs[o], m, Before(cs, o)) && WellScopedAt(cs, o);
    if cs[o].Match? && cs[o].visible {
      AuthoredSplit(w, cs, o, m);
      StrippedFits(w, cs, r, k, m);
      forall j | j in AttachedTo(r, Extracted(cs), k)
        ensures JoinOn(m, cs[o].spec.binding, j)
      {
        var i, j' := AttachedFrom(cs, r, k, j, m);
        assert Fits(w, cs[i], m, Before(cs, i)) && WellScopedAt(cs, i);
        AuthoredSplit(w, cs, i, m);
      }
      PlannedSplit(w, cs, r, k, m);
    } else {
      OtherFits(w, cs, r, k, m);
    }
  }

  lemma PlannedToAuthored(w: World, cs: seq<Condition>, r: seq<Node>, m: Env, i: nat)
    requires Plans(cs, r) && KeepsSides(cs, r) && i < |cs| && PlannedFits(w, cs, r, m)
    ensures Fits(w, cs[i], m, Before(cs, i))
  {
    var k := PlanPosition(cs, r, i);
    assert Fits(w, PlannedCondition(cs, r, k), m, DefinesOf(r[..k])) && WellScopedAt(cs, i);
    if cs[i].Match? && cs[i].visible {
      PlannedSplit(w, cs, r, k, m);
      StrippedFits(w, cs, r, k, m);
      forall j | j in cs[i].spec.joins
        ensures JoinOn(m, cs[i].spec.binding, j)
      {
        var k', moved := JoinAttached(cs, r, i, j, m);
        assert Fits(w, PlannedCondition(cs, r, k'), m, DefinesOf(r[..k']));
        PlannedSplit(w, cs, r, k', m);
      }
      AuthoredSplit(w, cs, i, m);
    } else {
      OtherFits(w, cs, r, k, m);
    }
  }

  // ----- The whole branch ----------------------------------------------------------------

  lemma SnocDefines(a: seq<Condition>, c: Condition, b: seq<Node>, n: Node)
    requires DefinesAll(a) == DefinesOf(b) && Defines(c) == n.defines
    ensures DefinesAll(a + [c]) == DefinesOf(b + [n])
  {
    DefinesAllConcat(a, [c]);
    DefinesOfConcat(b, [n]);
  }

  lemma {:induction false} AlignedDefines(ps: seq<Condition>, r: seq<Node>, k: nat)
    requires |ps| == |r| && k <= |r|
    requires forall i :: 0 <= i < |r| ==> Defines(ps[i]) == r[i].defines
    ensures DefinesAll(ps[..k]) == DefinesOf(r[..k])
  {
    if k > 0 {
      AlignedDefines(ps, r, k - 1);
      SnocDefines(ps[..k - 1], ps[k - 1], r[..k - 1], r[k - 1]);
      assert ps[..k] == ps[..k - 1] + [ps[k - 1]] && r[..k] == r[..k - 1] + [r[k - 1]];
    }
  }

  lemma PlannedDefines(cs: seq<Condition>, r: seq<Node>, k: nat)
    requires Plans(cs, r) && k <= |r|
    ensures DefinesAll(Reattached(r, Extracted(cs))[..k]) == DefinesOf(r[..k])
  {
    var ps := Reattached(r, Extracted(cs));
    forall i | 0 <= i < |r|
      ensures Defines(ps[i]) == r[i].defines
    {
      PlannedShape(cs, r, i);
      assert ps[i] == PlannedCondition(cs, r, i);
    }
    AlignedDefines(ps, r, k);
  }

  lemma PlannedDisjoint(cs: seq<Condition>, r: seq<Node>)
    requires Plans(cs, r)
    ensures Disjoint(cs) && Disjoint(Reattached(r, Extracted(cs)))
    ensures forall c :: c in cs ==> WellFormed(c)
    ensures forall c :: c in Reattached(r, Extracted(cs)) ==> WellFormed(c)
  {
    var ps := Reattached(r, Extracted(cs));
    forall i | 0 <= i < |cs|
      ensures WellFormed(cs[i]) && Defines(cs[i]) <= Labels(cs[i])
    {
      assert WellScopedAt(cs, i);
    }
    forall k | 0 <= k < |ps|
      ensures r[k].order < |cs| && Defines(ps[k]) == Defines(cs[r[k].order]) && WellFormed(ps[k])
    {
      PlannedShape(cs, r, k);
      assert ps[k] == PlannedCondition(cs, r, k);
    }
    forall a, b | 0 <= a < b < |ps|
      ensures Defines(ps[a]) !! Defines(ps[b])
    {
      PlanDistinct(cs, r, a, b);
      if r[a].order < r[b].order {
        assert Labels(cs[r[a].order]) !! Labels(cs[r[b].order]);
      } else {
        assert Labels(cs[r[b].order]) !! Labels(cs[r[a].order]);
      }
    }
  }

  lemma PlannedFitsAll(w: World, cs: seq<Condition>, r: seq<Node>, m: Env)
    requires Plans(cs, r)
    ensures FitsAll(w, cs, m, {}) <==> AuthoredFits(w, cs, m)
    ensures FitsAll(w, Reattached(r, Extracted(cs)), m, {}) <==> PlannedFits(w, cs, r, m)
  {
    var ps := Reattached(r, Extracted(cs));
    assert forall i :: 0 <= i < |cs| ==> {} + DefinesAll(cs[..i]) == Before(cs, i);
    forall k | 0 <= k < |r|
      ensures {} + DefinesAll(ps[..k]) == DefinesOf(r[..k]) && ps[k] == PlannedCondition(cs, r, k)
    {
      PlannedDefines(cs, r, k);
    }
  }

  lemma SameDefinesAll(cs: seq<Condition>, r: seq<Node>)
    requires Plans(cs, r)
    ensures DefinesAll(Reattached(r, Extracted(cs))) == DefinesAll(cs)
  {
    PlannedDefines(cs, r, |r|);
    StrippedDefines(cs, |cs|);
    SameDefines(r, StrippedNodes(cs));
    var ps := Reattached(r, Extracted(cs));
    assert ps[..|r|] == ps && r[..|r|] == r && cs[..|cs|] == cs && StrippedNodes(cs)[..|cs|] == StrippedNodes(cs);
  }

  /** Any sound order that swaps no fragile join, with the joins re-attached, has the authored complete matches. */
  lemma SoundOrderPreservesMatches(w: World, cs: seq<Condition>, r: seq<Node>)
    requires Plans(cs, r) && KeepsSides(cs, r)
    ensures Matches(w, Reattached(r, Extracted(cs)), map[]) == Matches(w, cs, map[])
  {
    var ps := Reattached(r, Extracted(cs));
    var none: Env := map[];
    assert none.Keys == {};
    PlannedDisjoint(cs, r);
    SameDefinesAll(cs, r);
    forall m: Env
      ensures m in Matches(w, ps, map[]) <==> m in Matches(w, cs, map[])
    {
      MatchesAsConjunction(w, ps, map[], m);
      MatchesAsConjunction(w, cs, map[], m);
      PlannedFitsAll(w, cs, r, m);
      if AuthoredFits(w, cs, m) {
        forall k | 0 <= k < |r|
          ensures Fits(w, PlannedCondition(cs, r, k), m, DefinesOf(r[..k]))
        {
          AuthoredToPlanned(w, cs, r, m, k);
        }
      }
      if PlannedFits(w, cs, r, m) {
        forall i | 0 <= i < |cs|
          ensures Fits(w, cs[i], m, Before(cs, i))
        {
          PlannedToAuthored(w, cs, r, m, i);
        }
      }
    }
  }

  /** Planning preserves meaning, whatever the profile. */
  lemma PlanningPreservesMatches(w: World, cs: seq<Condition>, profile: Option<map<Name, real>>)
    requires WellScoped(cs) && KeepsSides(cs, PlannedOrder(ReorderedIR(cs, profile)))
    ensures Matches(w, Normalized(ReorderedIR(cs, profile)), map[]) == Matches(w, cs, map[])
  {
    StrippedAuthored(cs);
    PlannedOrderSound(ReorderedIR(cs, profile));
    SoundOrderPreservesMatches(w, cs, PlannedOrder(ReorderedIR(cs, profile)));
  }

  /** The planner as it is run: the planned branch matches what the authored one does. */
  method PlanBranch(cs: seq<Condition>, profile: Option<map<Name, real>>, ghost w: World) returns (out: seq<Condition>)
    ensures out == Normalized(ReorderedIR(cs, profile))
    ensures WellScoped(cs) && KeepsSides(cs, PlannedOrder(ReorderedIR(cs, profile))) ==> Matches(w, out, map[]) == Matches(w, cs, map[])
  {
    var ir := NewReorderedIR(cs, profile);
    out := NormalizedConditions(ir);
    if WellScoped(cs) && KeepsSides(cs, PlannedOrder(ReorderedIR(cs, profile))) { PlanningPreservesMatches(w, cs, profile); }
  }

  /** Without reordering the branch comes back as written. */
  lemma AuthoredOrderKept(cs: seq<Condition>)
    ensures Normalized(AuthoredIR(cs)) == cs
  {
    assert forall c: Condition :: c.Match? ==> c.spec.joins + [] == c.spec.joins;
  }
}
