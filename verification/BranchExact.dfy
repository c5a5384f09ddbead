/**
 Exactly when planning preserves the matches of a branch with fragile joins, and what the planned
 branch matches when it swaps some of them.
 */
module BranchExact {
  import opened Options
  import opened BranchSyntax
  import opened BranchSemantics
  import opened BranchPlanner
  import opened BranchOrder
  import opened BranchMeaning
  import opened BranchReading

  // ----- Captured and computed values ------------------------------------------------

  lemma {:induction false} CapturedValues(ps: seq<ListPattern>, f: Fact, n: Name)
    requires n in Captures(ps, f)
    ensures Captures(ps, f)[n].ValueRef?
  {
    if ps != [] && n in Captures(ps[1..], f) { CapturedValues(ps[1..], f, n); }
  }

  lemma {:induction false} AggregateValues(w: World, specs: seq<AggregateSpec>, matches: set<Env>, env: Env, n: Name)
    requires AggregateResult(w, specs, matches, env).Some? && n in AggregateResult(w, specs, matches, env).value
    ensures AggregateResult(w, specs, matches, env).value[n].ValueRef?
  {
    if specs != [] && n in AggregateResult(w, specs[1..], matches, env).value { AggregateValues(w, specs[1..], matches, env, n); }
  }

  /** Every name a condition binds, but for the fact it matches, is bound to a value. */
  lemma BoundToValue(w: World, c: Condition, env: Env, d: Env, n: Name)
    requires WellFormed(c) && d in Extensions(w, c, env) && n in Defines(c)
    requires c.Match? ==> n != c.spec.binding
    ensures n in d && d[n].ValueRef?
  {
    ExtensionKeys(w, c, env, d);
    match c
    case Match(s, _, _) =>
      var f :| f in w.facts && Accepts(w, s, f, env) && d == Extension(s, f);
      CapturedValues(s.patterns, f, n);
    case Aggregate(input, specs) =>
      AggregateValues(w, specs, InputMatches(w, input, env), env, n);
    case _ =>
  }

  // ----- Joins that never hold -------------------------------------------------------

  /** A visible match joined to anything but a fact has no match as authored. */
  lemma CapturedNeverMatches(w: World, cs: seq<Condition>, i: nat, j: Join)
    requires WellScoped(cs) && i < |cs| && cs[i].Match? && cs[i].visible && j in cs[i].spec.joins
    requires !FactBinding(cs[..i], j.refBinding)
    ensures Matches(w, cs, map[]) == {}
  {
    var h := JoinOwner(cs, i, j);
    if cs[h].Match? { assert cs[..i][h] == cs[h]; }
    StrippedAuthored(cs);
    SoundAsAuthored(cs);
    forall m | m in Matches(w, cs, map[])
      ensures false
    {
      AuthoredFitsOf(w, cs, m);
      assert Fits(w, cs[i], m, Before(cs, i)) && Fits(w, cs[h], m, Before(cs, h)) && WellScopedAt(cs, h);
      BoundToValue(w, cs[h], Restrict(m, Before(cs, h)), Restrict(m, Defines(cs[h])), j.refBinding);
      assert !JoinOn(m, cs[i].spec.binding, j);
      AuthoredSplit(w, cs, i, m);
    }
  }

  lemma SoundAsAuthored(cs: seq<Condition>)
    requires WellScoped(cs) && Authored(StrippedNodes(cs))
    ensures Plans(cs, StrippedNodes(cs))
  {
  }

  lemma AuthoredFitsOf(w: World, cs: seq<Condition>, m: Env)
    requires Plans(cs, StrippedNodes(cs)) && m in Matches(w, cs, map[])
    ensures AuthoredFits(w, cs, m)
  {
    var none: Env := map[];
    assert none.Keys == {};
    PlannedDisjoint(cs, StrippedNodes(cs));
    MatchesAsConjunction(w, cs, map[], m);
    PlannedFitsAll(w, cs, StrippedNodes(cs), m);
  }

  /**
   Once a hidden match has been swapped with what it was joined to, the planned branch has no match.
   The compiler does not get so far: it refuses the branch, which names a match that binds nothing.
   */
  lemma SwappedHiddenNeverMatches(w: World, cs: seq<Condition>, r: seq<Node>, i: nat, j: Join)
    requires Plans(cs, r) && i < |cs| && cs[i].Match? && !cs[i].visible && !cs[i].negated && j in cs[i].spec.joins
    requires !SidesKept(r, cs[i].spec.binding, j)
    ensures Matches(w, Reattached(r, Extracted(cs)), map[]) == {}
  {
    hide WellScoped, Sound, AttachedTo, Extracted, Matches, Reattached, Fits, IndexOf;
    var kl, kr, h := JoinSides(cs, r, i, j);
    var moved := Join(j.refPath, Invert(j.op).value, cs[i].spec.binding, j.path);
    OwnerPlain(cs, h);
    MovedTo(cs, r, i, j, kl, kr);
    HiddenUnbound(cs, r, i, kr);
    PlannedShape(cs, r, kr);
    forall m | m in Matches(w, Reattached(r, Extracted(cs)), map[])
      ensures false
    {
      PlannedFitsOf(w, cs, r, m);
      UnboundJoinFails(w, PlannedCondition(cs, r, kr), moved, m, DefinesOf(r[..kr]));
    }
  }

  /** Every join names what an earlier condition defines; the compiler refuses a branch in which one does not. */
  ghost predicate Compiles(cs: seq<Condition>) {
    forall i, j :: 0 <= i < |cs| && cs[i].Match? && j in cs[i].spec.joins ==> j.refBinding in DefinesAll(cs[..i])
  }

  lemma ScopedCompiles(cs: seq<Condition>)
    requires WellScoped(cs)
    ensures Compiles(cs)
  {
    forall i, j | 0 <= i < |cs| && cs[i].Match? && j in cs[i].spec.joins
      ensures j.refBinding in DefinesAll(cs[..i])
    {
      assert WellScopedAt(cs, i);
      JoinNamesIn(cs[i].spec.joins, j);
    }
  }

  lemma {:induction false} PlannedDefines(cs: seq<Condition>, r: seq<Node>, k: nat)
    requires Plans(cs, r) && k <= |r|
    ensures DefinesAll(Reattached(r, Extracted(cs))[..k]) == DefinesOf(r[..k])
  {
    hide Plans, AttachedTo, Extracted, Defines;
    if k > 0 {
      PlannedDefines(cs, r, k - 1);
      var ps := Reattached(r, Extracted(cs));
      assert ps[..k] == ps[..k - 1] + [ps[k - 1]] && r[..k] == r[..k - 1] + [r[k - 1]];
      DefinesAllConcat(ps[..k - 1], [ps[k - 1]]);
      DefinesOfConcat(r[..k - 1], [r[k - 1]]);
      PlannedShape(cs, r, k - 1);
    }
  }

  /** The plan compiles unless it swaps a hidden match: the moved join then names a match that binds nothing. */
  lemma PlannedCompiles(cs: seq<Condition>, r: seq<Node>)
    requires Plans(cs, r)
    ensures Compiles(Reattached(r, Extracted(cs))) <==> !SwapsHidden(cs, r)
  {
    if SwapsHidden(cs, r) {
      var i, j :| 0 <= i < |cs| && Fragile(cs, i, j) && !cs[i].visible && !SidesKept(r, cs[i].spec.binding, j);
      SwappedHiddenRefused(cs, r, i, j);
    } else {
      OthersCompile(cs, r);
    }
  }

  lemma SwappedHiddenRefused(cs: seq<Condition>, r: seq<Node>, i: nat, j: Join)
    requires Plans(cs, r) && i < |cs| && cs[i].Match? && !cs[i].visible && !cs[i].negated && j in cs[i].spec.joins
    requires !SidesKept(r, cs[i].spec.binding, j)
    ensures !Compiles(Reattached(r, Extracted(cs)))
  {
    hide WellScoped, Sound, AttachedTo, Extracted, IndexOf;
    var kl, kr, h := JoinSides(cs, r, i, j);
    var moved := Join(j.refPath, Invert(j.op).value, cs[i].spec.binding, j.path);
    MovedTo(cs, r, i, j, kl, kr);
    HiddenUnbound(cs, r, i, kr);
    PlannedShape(cs, r, kr);
    PlannedDefines(cs, r, kr);
    assert Reattached(r, Extracted(cs))[kr] == PlannedCondition(cs, r, kr);
  }

  lemma OthersCompile(cs: seq<Condition>, r: seq<Node>)
    requires Plans(cs, r) && !SwapsHidden(cs, r)
    ensures Compiles(Reattached(r, Extracted(cs)))
  {
    hide Plans, AttachedTo, Extracted, AsRead, ReadPlan, Defines, Reattached;
    var s, ds := ReadPlan(cs, r), AsRead(cs, r);
    ReadSound(cs, r);
    ReadKeepsSides(cs, r);
    ReadReattached(cs, r);
    KeptCompile(ds, s);
  }

  lemma KeptCompile(cs: seq<Condition>, r: seq<Node>)
    requires Plans(cs, r) && KeepsSides(cs, r)
    ensures Compiles(Reattached(r, Extracted(cs)))
  {
    hide Plans, AttachedTo, Extracted, Defines, KeepsSides;
    var ps := Reattached(r, Extracted(cs));
    forall k, j | 0 <= k < |ps| && ps[k].Match? && j in ps[k].spec.joins
      ensures j.refBinding in DefinesAll(ps[..k])
    {
      PlannedShape(cs, r, k);
      assert ps[k] == PlannedCondition(cs, r, k);
      PlannedDefines(cs, r, k);
      var i, authored := AttachedFrom(cs, r, k, j, map[]);
    }
  }

  /** A match joined to a name that nothing before it binds never fits. */
  lemma UnboundJoinFails(w: World, c: Condition, j: Join, m: Env, before: set<Name>)
    requires c.Match? && c.visible && !c.negated && j in c.spec.joins && j.refBinding !in before
    ensures !Fits(w, c, m, before)
  {
    var env := Restrict(m, before);
    forall f | f in w.facts
      ensures !Accepts(w, c.spec, f, env)
    {
      assert !JoinHolds(j, f, env);
    }
  }

  lemma OwnerPlain(cs: seq<Condition>, h: nat)
    requires WellScoped(cs) && h < |cs| && cs[h].Match? && cs[h].visible
    ensures !cs[h].negated
  {
    assert WellScopedAt(cs, h);
  }

  lemma MovedTo(cs: seq<Condition>, r: seq<Node>, i: nat, j: Join, kl: nat, kr: nat)
    requires Plans(cs, r) && i < |cs| && cs[i].Match? && j in cs[i].spec.joins && Invert(j.op).Some?
    requires j.refBinding != "" && cs[i].spec.binding != "" && kl < kr < |r|
    requires IndexOf(r, cs[i].spec.binding) == Some(kl) && IndexOf(r, j.refBinding) == Some(kr)
    ensures Join(j.refPath, Invert(j.op).value, cs[i].spec.binding, j.path) in AttachedTo(r, Extracted(cs), kr)
  {
    hide AttachedTo, Extracted;
    var pj := PlanJoin(cs[i].spec.binding, j.path, j.op, j.refBinding, j.refPath);
    PlanJoinsOfIn(cs[i].spec.binding, cs[i].spec.joins, pj);
    assert pj in ExtractedFrom(cs[i]);
    ExtractedIn(cs, pj);
    AttachedToIn(r, Extracted(cs), kr, Join(j.refPath, Invert(j.op).value, cs[i].spec.binding, j.path));
  }

  /** No condition binds the name of a hidden match. */
  lemma HiddenUnbound(cs: seq<Condition>, r: seq<Node>, i: nat, k: nat)
    requires Plans(cs, r) && i < |cs| && cs[i].Match? && !cs[i].visible && k <= |r|
    ensures cs[i].spec.binding !in DefinesOf(r[..k])
  {
    var b := cs[i].spec.binding;
    assert WellScopedAt(cs, i);
    DefinesOfIn(r[..k], b);
    if x :| x in r[..k] && b in x.defines {
      var a :| 0 <= a < k && r[a] == x;
      PlanLabels(cs, r, a);
      SameOwner(cs, i, r[a].order, b);
      PlanNode(cs, r, a);
    }
  }

  lemma PlannedFitsOf(w: World, cs: seq<Condition>, r: seq<Node>, m: Env)
    requires Plans(cs, r) && m in Matches(w, Reattached(r, Extracted(cs)), map[])
    ensures PlannedFits(w, cs, r, m)
  {
    var none: Env := map[];
    assert none.Keys == {};
    PlannedDisjoint(cs, r);
    MatchesAsConjunction(w, Reattached(r, Extracted(cs)), map[], m);
    PlannedFitsAll(w, cs, r, m);
  }

  // ----- The exact condition -----------------------------------------------------------

  /**
   With a swapped join of a hidden match the planned branch does not compile, and would have no match;
   without one it compiles and matches what the branch does as it is read.  So planning preserves the matches exactly when it swaps no fragile
   join, or the authored branch has no match either, in the first case, or the branch as read has
   none, in the second, where the authored branch never has any.
   */
  lemma PlanningExact(w: World, cs: seq<Condition>, profile: Option<map<Name, real>>)
    requires WellScoped(cs)
    ensures Compiles(cs) && (Compiles(Normalized(ReorderedIR(cs, profile))) <==> !SwapsHidden(cs, PlannedOrder(ReorderedIR(cs, profile))))
    ensures var r, planned := PlannedOrder(ReorderedIR(cs, profile)), Matches(w, Normalized(ReorderedIR(cs, profile)), map[]);
            && planned == (if SwapsHidden(cs, r) then {} else Matches(w, AsRead(cs, r), map[]))
            && (planned == Matches(w, cs, map[]) <==>
                  KeepsSides(cs, r) || (if SwapsHidden(cs, r) then Matches(w, cs, map[]) == {} else Matches(w, AsRead(cs, r), map[]) == {}))
    ensures var r := PlannedOrder(ReorderedIR(cs, profile));
            forall i, j :: 0 <= i < |cs| && Fragile(cs, i, j) && !SidesKept(r, cs[i].spec.binding, j) ==>
              if cs[i].visible then Matches(w, cs, map[]) == {} else Matches(w, Normalized(ReorderedIR(cs, profile)), map[]) == {}
  {
    hide Matches, PlannedOrder, WellScoped, Reattached, AsRead, SidesKept, Compiles;
    var r := PlannedOrder(ReorderedIR(cs, profile));
    StrippedAuthored(cs);
    PlannedOrderSound(ReorderedIR(cs, profile));
    ScopedCompiles(cs);
    PlannedCompiles(cs, r);
    forall i, j | 0 <= i < |cs| && Fragile(cs, i, j) && !SidesKept(r, cs[i].spec.binding, j)
      ensures if cs[i].visible then Matches(w, cs, map[]) == {} else Matches(w, Normalized(ReorderedIR(cs, profile)), map[]) == {}
    {
      if cs[i].visible {
        CapturedNeverMatches(w, cs, i, j);
      } else {
        SwappedHiddenNeverMatches(w, cs, r, i, j);
      }
    }
    if !SwapsHidden(cs, r) { PlannedAsRead(w, cs, r); }
    if KeepsSides(cs, r) { PlanningPreservesMatches(w, cs, profile); }
  }
}
