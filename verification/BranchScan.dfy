/**
 Which candidate the scan settles on. The preference is a tournament but not an order: a stable feeder
 beats every volatile match, whatever else decides otherwise. The scan finds an unbeaten candidate if
 there is one, and there is none in exactly one constellation.
 */
module BranchScan {
  import opened BranchSyntax
  import opened BranchPlanner

  /** What a selection is made from; two candidates are never the same authored condition. */
  datatype Choice = Choice(ctx: Context, nodes: seq<Node>, defined: set<Name>, profiled: bool, candidates: seq<nat>) {
    predicate Ok() {
      && (forall i :: i in candidates ==> i < |nodes|)
      && (forall i, j :: i in candidates && j in candidates && i != j ==> nodes[i].order != nodes[j].order)
    }

    /** Candidate `i` beats candidate `j`. */
    ghost predicate Beats(i: nat, j: nat)
      requires i < |nodes| && j < |nodes|
    {
      Prefers(ctx, nodes, defined, profiled, nodes[i], nodes[j])
    }

    /** Where the scan ends. */
    ghost function Settled(): (r: nat)
      requires Ok() && candidates != []
      ensures r in candidates
    {
      Best(ctx, nodes, defined, profiled, candidates, |candidates|)
    }

    ghost predicate Unbeaten(j: nat)
      requires Ok() && j in candidates
    {
      forall i :: i in candidates ==> !Beats(i, j)
    }

    /** Selectivity decides, then fanout if the profile is used, then the authored order. */
    predicate Precedes(i: nat, j: nat)
      requires i < |nodes| && j < |nodes|
    {
      var x, y := nodes[i], nodes[j];
      if SelectivityScore(x.cond) != SelectivityScore(y.cond) then SelectivityScore(x.cond) < SelectivityScore(y.cond)
      else if profiled && FanoutOrZero(ctx, x) != FanoutOrZero(ctx, y) then FanoutOrZero(ctx, x) < FanoutOrZero(ctx, y)
      else x.order < y.order
    }

    ghost function StrengthOf(i: nat): nat
      requires i < |nodes|
    {
      Strength(nodes[i], ctx.joins, defined)
    }

    ghost predicate Strongest(i: nat)
      requires Ok()
    {
      i in candidates && forall j :: j in candidates ==> StrengthOf(j) <= StrengthOf(i)
    }

    predicate Volatile(i: nat)
      requires i < |nodes|
    {
      nodes[i].isVolatile
    }

    predicate StableFeeder(i: nat)
      requires i < |nodes|
    {
      !nodes[i].isVolatile && FeedsRemaining(nodes[i], nodes)
    }

    /** The first of the strongest candidates is volatile. */
    ghost predicate VolatileFirst(v: nat)
      requires Ok()
    {
      Strongest(v) && Volatile(v) && forall i :: Strongest(i) ==> !Precedes(i, v)
    }

    /** Among the strongest candidates, `f` is the first stable feeder. */
    ghost predicate FirstFeeder(f: nat)
      requires Ok()
    {
      Strongest(f) && StableFeeder(f) && forall i :: Strongest(i) && StableFeeder(i) ==> !Precedes(i, f)
    }

    /** Neither volatile nor a stable feeder, and before the feeder. */
    ghost predicate Bystander(b: nat, f: nat)
      requires Ok() && f < |nodes|
    {
      Strongest(b) && !Volatile(b) && !StableFeeder(b) && Precedes(b, f)
    }

    /**
     Among the strongest candidates the first is volatile, there is a stable feeder, and a bystander
     comes before the first of those: the feeder beats the volatile match, which beats the bystander,
     which beats the feeder.
     */
    ghost predicate GoesRound()
      requires Ok()
    {
      exists v, f, b :: VolatileFirst(v) && FirstFeeder(f) && Bystander(b, f)
    }
  }

  // ----- The comparison without volatility ---------------------------------------------

  lemma PrecedesOrder(c: Choice, i: nat, j: nat, k: nat)
    requires c.Ok() && i in c.candidates && j in c.candidates && k in c.candidates
    ensures !c.Precedes(i, i) && !(c.Precedes(i, j) && c.Precedes(j, i))
    ensures i != j ==> c.Precedes(i, j) || c.Precedes(j, i)
    ensures c.Precedes(i, j) && !c.Precedes(k, j) ==> c.Precedes(i, k)
    ensures !c.Precedes(j, i) && !c.Precedes(k, j) ==> !c.Precedes(k, i)
  {
  }

  /** What it takes to beat a candidate, case by case. */
  lemma BeatsCases(c: Choice, i: nat, j: nat)
    requires c.Ok() && i in c.candidates && j in c.candidates
    ensures c.StrengthOf(i) != c.StrengthOf(j) ==> (c.Beats(i, j) <==> c.StrengthOf(i) > c.StrengthOf(j))
    ensures c.StrengthOf(i) == c.StrengthOf(j) ==>
              (c.Beats(i, j) <==> if c.StableFeeder(i) && c.Volatile(j) then true
                                  else if c.Volatile(i) && c.StableFeeder(j) then false
                                  else c.Precedes(i, j))
  {
  }

  lemma BeatsOneWay(c: Choice, i: nat, j: nat)
    requires c.Ok() && i in c.candidates && j in c.candidates
    ensures !(c.Beats(i, j) && c.Beats(j, i))
    ensures i != j ==> c.Beats(i, j) || c.Beats(j, i)
  {
    BeatsCases(c, i, j);
    BeatsCases(c, j, i);
    PrecedesOrder(c, i, j, i);
  }

  /** Any list of candidates has a first one. */
  lemma {:induction false} FirstExists(c: Choice, l: seq<nat>) returns (f: nat)
    requires c.Ok() && l != [] && forall i :: i in l ==> i in c.candidates
    ensures f in l && forall i :: i in l ==> !c.Precedes(i, f)
  {
    assert l[0] in l;
    if |l| == 1 {
      f := l[0];
      PrecedesOrder(c, f, f, f);
    } else {
      assert l == [l[0]] + l[1..];
      var g := FirstExists(c, l[1..]);
      f := if c.Precedes(l[0], g) then l[0] else g;
      forall i | i in l
        ensures !c.Precedes(i, f)
      {
        PrecedesOrder(c, f, g, i);
        PrecedesOrder(c, l[0], g, i);
        PrecedesOrder(c, l[0], l[0], g);
      }
    }
  }

  /** Some candidate is as strong as any. */
  lemma {:induction false} StrongestExists(c: Choice, n: nat) returns (s: nat)
    requires c.Ok() && 0 < n <= |c.candidates|
    ensures s in c.candidates && forall k :: 0 <= k < n ==> c.candidates[k] in c.candidates && c.StrengthOf(c.candidates[k]) <= c.StrengthOf(s)
  {
    assert c.candidates[n - 1] in c.candidates;
    s := c.candidates[n - 1];
    if n > 1 {
      var t := StrongestExists(c, n - 1);
      if c.StrengthOf(t) > c.StrengthOf(s) { s := t; }
    }
  }

  /** The candidates that satisfy the property, in their order. */
  ghost function Those(l: seq<nat>, p: nat -> bool): (r: seq<nat>)
    ensures forall i :: i in r <==> i in l && p(i)
  {
    if l == [] then [] else
    assert forall i :: i in l <==> i == l[0] || i in l[1..];
    (if p(l[0]) then [l[0]] else []) + Those(l[1..], p)
  }

  // ----- The scan finds an unbeaten candidate if there is one -----------------------------

  lemma {:induction false} ScanFindsUnbeaten(c: Choice, p: nat, n: nat)
    requires c.Ok() && p < n <= |c.candidates| && c.candidates[p] in c.candidates && c.Unbeaten(c.candidates[p])
    ensures Best(c.ctx, c.nodes, c.defined, c.profiled, c.candidates, n) == c.candidates[p]
  {
    var u, last := c.candidates[p], c.candidates[n - 1];
    assert last in c.candidates;
    if n > 1 {
      var b := Best(c.ctx, c.nodes, c.defined, c.profiled, c.candidates, n - 1);
      if p == n - 1 {
        BeatsOneWay(c, u, b);
      } else {
        ScanFindsUnbeaten(c, p, n - 1);
        assert !c.Beats(last, u);
      }
    }
  }

  // ----- When there is none ---------------------------------------------------------------

  lemma RoundBeatsAll(c: Choice, v: nat, f: nat, b: nat, x: nat)
    requires c.Ok() && c.VolatileFirst(v) && c.FirstFeeder(f) && c.Bystander(b, f) && x in c.candidates
    ensures !c.Unbeaten(x)
  {
    BeatsCases(c, v, x);
    BeatsCases(c, f, x);
    BeatsCases(c, b, x);
    if c.StrengthOf(x) == c.StrengthOf(v) {
      assert c.Strongest(x);
      if !c.Volatile(x) && c.StableFeeder(x) {
        PrecedesOrder(c, b, f, x);
      } else if !c.Volatile(x) {
        PrecedesOrder(c, v, x, x);
      }
    }
  }

  lemma FirstStrongest(c: Choice) returns (v: nat)
    requires c.Ok() && c.candidates != []
    ensures c.Strongest(v) && forall i :: c.Strongest(i) ==> !c.Precedes(i, v)
  {
    hide Choice.Precedes, Choice.StrengthOf;
    var s := StrongestExists(c, |c.candidates|);
    assert c.Strongest(s);
    var strongest := Those(c.candidates, (i: nat) => i in c.candidates && c.Ok() && c.Strongest(i));
    assert s in strongest;
    v := FirstExists(c, strongest);
  }

  lemma FirstOfFeeders(c: Choice, s: nat) returns (f: nat)
    requires c.Ok() && c.Strongest(s) && c.StableFeeder(s)
    ensures c.FirstFeeder(f)
  {
    hide Choice.Precedes, Choice.StrengthOf, FeedsRemaining;
    var feeders := Those(c.candidates, (i: nat) => i in c.candidates && c.Ok() && c.Strongest(i) && c.StableFeeder(i));
    assert s in feeders;
    f := FirstExists(c, feeders);
  }

  /** Without the constellation some candidate is unbeaten. */
  lemma OtherwiseUnbeaten(c: Choice) returns (u: nat)
    requires c.Ok() && c.candidates != [] && !c.GoesRound()
    ensures u in c.candidates && c.Unbeaten(u)
  {
    hide Choice.Precedes, Choice.Beats, Choice.StrengthOf, Choice.StableFeeder, Choice.Unbeaten;
    var v := FirstStrongest(c);
    if s :| c.Volatile(v) && c.Strongest(s) && c.StableFeeder(s) {
      u := FirstOfFeeders(c, s);
      assert c.VolatileFirst(v);
      FeederUnbeaten(c, u);
    } else {
      u := v;
      FirstUnbeaten(c, v);
    }
  }

  /** The first of the strongest is unbeaten, unless it is volatile and there is a stable feeder. */
  lemma FirstUnbeaten(c: Choice, v: nat)
    requires c.Ok() && c.Strongest(v) && forall i :: c.Strongest(i) ==> !c.Precedes(i, v)
    requires c.Volatile(v) ==> forall i :: c.Strongest(i) ==> !c.StableFeeder(i)
    ensures c.Unbeaten(v)
  {
    hide Choice.Precedes, Choice.Beats, Choice.StrengthOf, FeedsRemaining;
    forall i | i in c.candidates
      ensures !c.Beats(i, v)
    {
      BeatsCases(c, i, v);
      StrongestAlike(c, i, v);
    }
  }

  /** The first stable feeder is unbeaten if no bystander comes before it. */
  lemma FeederUnbeaten(c: Choice, f: nat)
    requires c.Ok() && c.FirstFeeder(f) && forall b :: !c.Bystander(b, f)
    ensures c.Unbeaten(f)
  {
    hide Choice.Precedes, Choice.Beats, Choice.StrengthOf, FeedsRemaining;
    forall i | i in c.candidates
      ensures !c.Beats(i, f)
    {
      BeatsCases(c, i, f);
      StrongestAlike(c, i, f);
      assert !c.Bystander(i, f);
    }
  }

  lemma StrongestAlike(c: Choice, i: nat, u: nat)
    requires c.Ok() && i in c.candidates && c.Strongest(u)
    ensures c.StrengthOf(i) <= c.StrengthOf(u)
    ensures c.StrengthOf(i) == c.StrengthOf(u) ==> c.Strongest(i)
  {
  }

  /** The scan settles on a candidate that another beats exactly when the preference goes round. */
  lemma ScanExact(c: Choice)
    requires c.Ok() && c.candidates != []
    ensures c.Unbeaten(c.Settled()) <==> !c.GoesRound()
    ensures c.Unbeaten(c.Settled()) <==> exists u :: u in c.candidates && c.Unbeaten(u)
  {
    hide Choice.Unbeaten, Choice.GoesRound, Choice.Settled, Choice.Beats;
    if c.GoesRound() {
      forall x | x in c.candidates
        ensures !c.Unbeaten(x)
      {
        RoundBeatsEvery(c, x);
      }
    } else {
      var u := OtherwiseUnbeaten(c);
      SettlesOnUnbeaten(c, u);
    }
  }

  lemma RoundBeatsEvery(c: Choice, x: nat)
    requires c.Ok() && c.GoesRound() && x in c.candidates
    ensures !c.Unbeaten(x)
  {
    hide Choice.StrengthOf, Choice.Precedes, Choice.Beats, Choice.StableFeeder;
    var v, f, b :| c.VolatileFirst(v) && c.FirstFeeder(f) && c.Bystander(b, f);
    RoundBeatsAll(c, v, f, b, x);
  }

  lemma SettlesOnUnbeaten(c: Choice, u: nat)
    requires c.Ok() && u in c.candidates && c.Unbeaten(u)
    ensures c.Settled() == u
  {
    hide Choice.Unbeaten, Choice.Beats, Best;
    var p :| 0 <= p < |c.candidates| && c.candidates[p] == u;
    ScanFindsUnbeaten(c, p, |c.candidates|);
  }

  /** In particular, candidates that agree on volatility never go round. */
  lemma AlikeUnbeaten(c: Choice)
    requires c.Ok() && c.candidates != []
    requires forall i, j :: i in c.candidates && j in c.candidates ==> c.Volatile(i) == c.Volatile(j)
    ensures c.Unbeaten(c.Settled())
  {
    ScanExact(c);
  }

  /** The selection of a segment: the node selected is unbeaten among the candidates exactly when the preference does not go round. */
  lemma SelectionExact(ctx: Context, nodes: seq<Node>, defined: set<Name>)
    requires nodes != [] && forall i, j :: 0 <= i < j < |nodes| ==> nodes[i].order != nodes[j].order
    requires Candidates(ctx, nodes, defined).0 != []
    ensures var (cs, profiled) := Candidates(ctx, nodes, defined);
            var c := Choice(ctx, nodes, defined, profiled, cs);
            c.Ok() && Selected(ctx, nodes, defined) in cs && (c.Unbeaten(Selected(ctx, nodes, defined)) <==> !c.GoesRound())
  {
    hide Choice.Unbeaten, Choice.GoesRound, Best, Candidates, Ready;
    var (cs, profiled) := Candidates(ctx, nodes, defined);
    ScanExact(Choice(ctx, nodes, defined, profiled, cs));
  }
}
