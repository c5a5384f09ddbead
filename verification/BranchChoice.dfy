/**
 What the planner weighs when it chooses the next condition, said of joins, constraints and names
 alone, and which conditions it never moves.
 */
module BranchChoice {
  import opened Options
  import Sequences
  import opened BranchSyntax
  import opened BranchPlanner
  import opened BranchOrder
  import opened BranchMeaning

  // ----- Join strength ------------------------------------------------------------------

  /** The join touches the name on one side, and its other side is defined. */
  predicate Connects(j: PlanJoin, b: Name, defined: set<Name>) {
    if j.left == b then j.right in defined else j.right == b && j.left in defined
  }

  /** Names of the node and joins that connect them, equalities or all others. */
  function Connections(names: set<Name>, js: seq<PlanJoin>, defined: set<Name>, equal: bool): set<(Name, nat)> {
    set b, i: nat | b in names && i < |js| && Connects(js[i], b, defined) && (js[i].op == Eq) == equal :: (b, i)
  }

  /** The joins from `from` on that connect the name, equalities or all others. */
  function JoinPlaces(b: Name, js: seq<PlanJoin>, defined: set<Name>, equal: bool, from: nat): set<nat> {
    set i: nat | from <= i < |js| && Connects(js[i], b, defined) && (js[i].op == Eq) == equal
  }

  lemma JoinPlacesStep(b: Name, js: seq<PlanJoin>, defined: set<Name>, equal: bool, from: nat)
    requires from < |js|
    ensures |JoinPlaces(b, js, defined, equal, from)| ==
            |JoinPlaces(b, js, defined, equal, from + 1)| + (if Connects(js[from], b, defined) && (js[from].op == Eq) == equal then 1 else 0)
  {
    var more, less := JoinPlaces(b, js, defined, equal, from), JoinPlaces(b, js, defined, equal, from + 1);
    assert more == if Connects(js[from], b, defined) && (js[from].op == Eq) == equal then less + {from} else less;
  }

  lemma {:induction false} OneNameCounts(b: Name, js: seq<PlanJoin>, defined: set<Name>, from: nat)
    requires from <= |js|
    ensures BindingStrength(b, js[from..], defined) == 2 * |JoinPlaces(b, js, defined, true, from)| + |JoinPlaces(b, js, defined, false, from)|
    decreases |js| - from
  {
    if from == |js| {
      assert JoinPlaces(b, js, defined, true, from) == {} && JoinPlaces(b, js, defined, false, from) == {};
    } else {
      OneNameCounts(b, js, defined, from + 1);
      JoinPlacesStep(b, js, defined, true, from);
      JoinPlacesStep(b, js, defined, false, from);
      assert js[from..][0] == js[from] && js[from..][1..] == js[from + 1..];
    }
  }

  lemma PairsOfOne(b: Name, js: seq<PlanJoin>, defined: set<Name>, equal: bool)
    ensures |Connections({b}, js, defined, equal)| == |JoinPlaces(b, js, defined, equal, 0)|
  {
    var s := JoinPlaces(b, js, defined, equal, 0);
    TaggedSize(b, s);
    assert Connections({b}, js, defined, equal) == Tagged(b, s);
  }

  function Tagged(b: Name, s: set<nat>): set<(Name, nat)> {
    set i | i in s :: (b, i)
  }

  lemma {:induction false} TaggedSize(b: Name, s: set<nat>)
    ensures |Tagged(b, s)| == |s|
    decreases |s|
  {
    if s != {} {
      var x :| x in s;
      TaggedSize(b, s - {x});
      assert Tagged(b, s) == Tagged(b, s - {x}) + {(b, x)} && (b, x) !in Tagged(b, s - {x});
    }
  }

  lemma {:induction false} NamesCount(names: set<Name>, js: seq<PlanJoin>, defined: set<Name>)
    ensures StrengthSum(names, js, defined) == 2 * |Connections(names, js, defined, true)| + |Connections(names, js, defined, false)|
    decreases |names|
  {
    hide Connects;
    if names == {} {
      assert Connections(names, js, defined, true) == {} && Connections(names, js, defined, false) == {};
    } else {
      var b :| b in names;
      StrengthSumSplit(names, b, js, defined);
      NamesCount(names - {b}, js, defined);
      OneNameCounts(b, js, defined, 0);
      assert js[0..] == js;
      PairsOfOne(b, js, defined, true);
      PairsOfOne(b, js, defined, false);
      ConnectionsSplit(names, b, js, defined, true);
      ConnectionsSplit(names, b, js, defined, false);
    }
  }

  lemma ConnectionsSplit(names: set<Name>, b: Name, js: seq<PlanJoin>, defined: set<Name>, equal: bool)
    requires b in names
    ensures |Connections(names, js, defined, equal)| == |Connections(names - {b}, js, defined, equal)| + |Connections({b}, js, defined, equal)|
  {
    var r, s := Connections(names - {b}, js, defined, equal), Connections({b}, js, defined, equal);
    assert Connections(names, js, defined, equal) == r + s && r !! s;
  }

  /** Two for each equality that connects a name of the node to what is defined, one for each other join; nothing at the start. */
  lemma StrengthMeaning(n: Node, js: seq<PlanJoin>, defined: set<Name>)
    ensures Strength(n, js, defined) ==
            if defined == {} then 0
            else 2 * |Connections(n.defines, js, defined, true)| + |Connections(n.defines, js, defined, false)|
  {
    NamesCount(n.defines, js, defined);
  }

  // ----- Selectivity -------------------------------------------------------------------------

  /** The constraints from `from` on, equalities or all others. */
  function ConstraintPlaces(cs: seq<FieldConstraint>, equal: bool, from: nat): set<nat> {
    set i: nat | from <= i < |cs| && (cs[i].op == Eq) == equal
  }

  lemma ConstraintPlacesStep(cs: seq<FieldConstraint>, equal: bool, from: nat)
    requires from < |cs|
    ensures |ConstraintPlaces(cs, equal, from)| == |ConstraintPlaces(cs, equal, from + 1)| + (if (cs[from].op == Eq) == equal then 1 else 0)
  {
    var more, less := ConstraintPlaces(cs, equal, from), ConstraintPlaces(cs, equal, from + 1);
    assert more == if (cs[from].op == Eq) == equal then less + {from} else less;
  }

  lemma {:induction false} ConstraintsCount(cs: seq<FieldConstraint>, from: nat)
    requires from <= |cs|
    ensures ConstraintScore(cs[from..]) == -100 * |ConstraintPlaces(cs, true, from)| - 25 * |ConstraintPlaces(cs, false, from)|
    decreases |cs| - from
  {
    if from == |cs| {
      assert ConstraintPlaces(cs, true, from) == {} && ConstraintPlaces(cs, false, from) == {};
    } else {
      ConstraintsCount(cs, from + 1);
      ConstraintPlacesStep(cs, true, from);
      ConstraintPlacesStep(cs, false, from);
      assert cs[from..][0] == cs[from] && cs[from..][1..] == cs[from + 1..];
    }
  }

  /** A lower score is tried first: equalities count most, then other constraints and patterns, then the target; predicates count against. */
  lemma ScoreMeaning(s: MatchSpec, visible: bool, negated: bool)
    ensures SelectivityScore(Match(s, visible, negated)) ==
            1000 - (if s.target != None then 10 else 0)
            - 100 * |ConstraintPlaces(s.constraints, true, 0)| - 25 * |ConstraintPlaces(s.constraints, false, 0)|
            - 25 * |s.patterns| + 10 * |s.predicates|
  {
    ConstraintsCount(s.constraints, 0);
    assert s.constraints[0..] == s.constraints;
  }

  // ----- Readiness -----------------------------------------------------------------------------

  /** A node is ready if everything it needs is defined, or is defined by no node still to come. */
  lemma ReadyMeaning(n: Node, remaining: seq<Node>, defined: set<Name>)
    ensures Ready(n, remaining, defined) <==>
            forall name :: name in n.hardDeps ==> name in defined || forall o :: o in remaining ==> name !in o.defines
  {
    hide DefinesOf;
    forall name
      ensures name in DefinesOf(remaining) <==> exists o :: o in remaining && name in o.defines
    {
      DefinesOfIn(remaining, name);
    }
    assert n.hardDeps * DefinesOf(remaining) <= defined <==>
           forall name :: name in n.hardDeps ==> name in DefinesOf(remaining) ==> name in defined by {
      forall name | n.hardDeps * DefinesOf(remaining) <= defined && name in n.hardDeps && name in DefinesOf(remaining)
        ensures name in defined
      {
        assert name in n.hardDeps * DefinesOf(remaining);
      }
    }
  }

  /** A node feeds the others if one of them depends on a name of it. */
  lemma FeedsMeaning(n: Node, remaining: seq<Node>)
    ensures FeedsRemaining(n, remaining) <==>
            exists o, name :: o in remaining && o.order != n.order && name in n.defines && name in o.dependsOn
  {
    if o :| o in remaining && o.order != n.order && n.defines * o.dependsOn != {} {
      var name :| name in n.defines * o.dependsOn;
    }
    if o, name :| o in remaining && o.order != n.order && name in n.defines && name in o.dependsOn {
      assert name in n.defines * o.dependsOn;
    }
  }

  /** The measured fanout of the node's name, if there is one and it is not negative. */
  lemma FanoutMeaning(ctx: Context, n: Node, x: real)
    ensures Fanout(ctx, n) == Some(x) <==>
            && n.cond.Match? && n.cond.spec.binding != "" && ctx.profile.Some?
            && n.cond.spec.binding in ctx.profile.value && ctx.profile.value[n.cond.spec.binding] == x && x >= 0.0
  {
  }

  /** Every join written on a name of the node refers to something defined. */
  predicate JoinsDefined(n: Node, js: seq<PlanJoin>, defined: set<Name>) {
    forall i, name :: 0 <= i < |js| && name in n.defines && js[i].left == name ==> js[i].right in defined
  }

  lemma ProfileReadyMeaning(n: Node, js: seq<PlanJoin>, defined: set<Name>)
    ensures ProfileReady(n, js, defined) <==> JoinsDefined(n, js, defined)
  {
    if JoinsDefined(n, js, defined) {
      forall j | j in js && j.left in n.defines
        ensures j.right in defined
      {
        var i :| 0 <= i < |js| && js[i] == j;
      }
    }
  }

  lemma {:induction false} NarrowedMembers(ctx: Context, nodes: seq<Node>, defined: set<Name>, ready: seq<nat>, n: nat)
    requires n <= |ready| && forall i :: i in ready ==> i < |nodes|
    ensures forall i :: i in ProfileReadyOf(ctx, nodes, defined, ready, n) <==> i in ready[..n] && i < |nodes| && ProfileReady(nodes[i], ctx.joins, defined)
  {
    hide ProfileReady;
    if n > 0 {
      NarrowedMembers(ctx, nodes, defined, ready, n - 1);
      assert ready[..n] == ready[..n - 1] + [ready[n - 1]] && ready[n - 1] in ready;
    }
  }

  /**
   The candidates are the ready nodes; with a profile that knows every one of them, only those whose
   joins are defined, if there is any.
   */
  lemma CandidatesMeaning(ctx: Context, nodes: seq<Node>, defined: set<Name>)
    ensures var (cs, profiled) := Candidates(ctx, nodes, defined);
            var measured := ctx.profile != None && forall i :: 0 <= i < |nodes| && Ready(nodes[i], nodes, defined) ==> Fanout(ctx, nodes[i]) != None;
            && (profiled <==> measured && exists i :: 0 <= i < |nodes| && Ready(nodes[i], nodes, defined) && JoinsDefined(nodes[i], ctx.joins, defined))
            && forall i :: i in cs <==> 0 <= i < |nodes| && Ready(nodes[i], nodes, defined) && (profiled ==> JoinsDefined(nodes[i], ctx.joins, defined))
  {
    hide Ready, Fanout, JoinsDefined, ProfileReady;
    var ready := ReadyIndexes(nodes, defined);
    var narrowed := ProfileReadyOf(ctx, nodes, defined, ready, |ready|);
    NarrowedMembers(ctx, nodes, defined, ready, |ready|);
    assert ready[..|ready|] == ready;
    forall i | 0 <= i < |nodes|
      ensures ProfileReady(nodes[i], ctx.joins, defined) <==> JoinsDefined(nodes[i], ctx.joins, defined)
    {
      ProfileReadyMeaning(nodes[i], ctx.joins, defined);
    }
    assert narrowed != [] <==> exists i :: i in narrowed by { if narrowed != [] { assert narrowed[0] in narrowed; } }
  }

  // ----- What never moves -------------------------------------------------------------------------

  /** Only positive matches move, and not the trigger of a query. */
  predicate Moves(c: Condition) {
    c.Match? && !c.negated && c.spec.binding != "__gess_query_trigger"
  }

  lemma NodeMoves(c: Condition, order: nat)
    ensures NewStrippedNode(c, order).movable <==> Moves(c)
    ensures NewStrippedNode(c, order).barrier == NegationBarrier <==> c.Match? && c.negated
    ensures NewStrippedNode(c, order).barrier == AggregateBarrier <==> c.Aggregate? || c.HigherOrder?
  {
  }

  /** A test, an aggregate, a quantifier and the trigger keep their places, with the same conditions before them. */
  lemma ImmovableStays(cs: seq<Condition>, profile: Option<map<Name, real>>, i: nat)
    requires WellScoped(cs) && i < |cs| && !Moves(cs[i]) && !(cs[i].Match? && cs[i].negated)
    ensures var r := PlannedOrder(ReorderedIR(cs, profile));
            |r| == |cs| && r[i].order == i && forall k :: 0 <= k < i ==> r[k].order < i
  {
    hide PlannedOrder, WellScoped;
    var ir := ReorderedIR(cs, profile);
    var nodes, r := StrippedNodes(cs), PlannedOrder(ir);
    StrippedAuthored(cs);
    PlannedOrderSound(ir);
    SameMembers(r, nodes);
    assert nodes[i] in nodes;
    var k :| 0 <= k < |r| && r[k] == nodes[i];
    NodeMoves(cs[i], i);
    assert Pinned(r[k]) && SoundAt(nodes, r, k);
    assert |multiset(r[..k])| == k && |multiset(nodes[..i])| == i;
    BeforePlace(nodes, r, i);
  }
}
