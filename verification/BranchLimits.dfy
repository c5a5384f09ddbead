/**
 Where planning stops short.  A join may name a captured list segment; once the
 two conditions swap, the inverted join reads the capturing fact instead.  And
 the preference between ready conditions is not an order when some of them are
 volatile, so the scan then keeps a condition that another one beats.
 */
module BranchLimits {
  import opened Options
  import opened BranchSyntax
  import opened BranchSemantics
  import opened BranchPlanner
  import opened BranchMeaning

  // ----- Joins on captured values ------------------------------------------------

  /** The join as it reads on the condition that owns the referenced name. */
  function Inverted(j: Join, b: Name): Join
    requires Invert(j.op).Some?
  {
    Join(j.refPath, Invert(j.op).value, b, j.path)
  }

  /** A match in which every name other than the owner itself is a captured value. */
  predicate Captures(m: Env, owner: Name, n: Name) {
    n != owner ==> n in m && m[n].ValueRef?
  }

  /** A value related to zero by the operator. */
  function Partner(op: Op): real {
    match op
    case Eq => 0.0
    case Le => 0.0
    case Ge => 0.0
    case Gt => -1.0
    case _ => 1.0
  }

  /** Moving a join to the owner of the name it references is exact just when the name is the owner's fact. */
  lemma InversionExact(b: Name, owner: Name, j: Join)
    requires b != "" && owner != "" && j.refBinding != "" && b != owner && b != j.refBinding
    requires Invert(j.op).Some?
    ensures (forall m: Env :: Captures(m, owner, j.refBinding) ==> JoinOn(m, b, j) == JoinOn(m, owner, Inverted(j, b)))
            <==> j.refBinding == owner
  {
    if j.refBinding == owner {
      forall m: Env
        ensures JoinOn(m, b, j) == JoinOn(m, owner, Inverted(j, b))
      {
        InvertedRel(j.op, BoundField(m, b, j.path), BoundField(m, owner, j.refPath));
      }
    } else {
      var left := Fact(0, "l", map[j.path := Num(0.0)]);
      var right := Fact(1, "r", map[j.refPath := Num(Partner(j.op))]);
      var m: Env := map[b := FactRef(left), owner := FactRef(right), j.refBinding := ValueRef(Null)];
      assert Captures(m, owner, j.refBinding);
      assert !JoinOn(m, b, j) && JoinOn(m, owner, Inverted(j, b));
    }
  }

  /** `b` captures the list `s`; `a`, more selective, is joined to `s`. */
  function CapturingMatch(joins: seq<Join>): Condition {
    Match(MatchSpec("b", Some("b"), [], [ListPattern("items", [Segment("s")])], joins, [], false), true, false)
  }

  function JoinedMatch(joins: seq<Join>): Condition {
    Match(MatchSpec("a", Some("a"), [FieldConstraint("k", Eq, Const(Null))], [], joins, [], false), true, false)
  }

  function SegmentBranch(): seq<Condition> {
    [CapturingMatch([]), JoinedMatch([Join("x", Eq, "s", "x")])]
  }

  function PlannedSegmentBranch(): seq<Condition> {
    [JoinedMatch([]), CapturingMatch([Join("x", Eq, "a", "x")])]
  }

  lemma PlanTwo(ctx: Context, n0: Node, n1: Node)
    requires n0.hardDeps == n1.hardDeps == {} && InSegment(n0) && InSegment(n1) && ctx.profile.None?
    requires Prefers(ctx, [n0, n1], {}, false, n1, n0)
    ensures PlannedOrder(PlanIR([n0, n1], ctx, true)) == [n1, n0]
  {
    hide Prefers, Segmented, Deferred;
    OrderTwo(ctx, n0, n1);
    SegmentTwo(ctx, n0, n1);
    DeferNothing(n0, n1);
  }

  lemma OrderTwo(ctx: Context, n0: Node, n1: Node)
    requires n0.hardDeps == n1.hardDeps == {} && ctx.profile.None?
    requires Prefers(ctx, [n0, n1], {}, false, n1, n0)
    ensures SegmentOrder(ctx, [n0, n1], {}) == [n1, n0]
  {
    hide Prefers;
    var nodes := [n0, n1];
    assert ReadyBelow(nodes, {}, 1) == [0];
    assert ReadyBelow(nodes, {}, 2) == [0, 1];
    var cs: seq<nat> := [0, 1];
    assert Candidates(ctx, nodes, {}) == (cs, false);
    assert Best(ctx, nodes, {}, false, cs, 1) == 0;
    assert Selected(ctx, nodes, {}) == 1;
    assert Without(nodes, 1) == [n0];
    assert Selected(ctx, [n0], n1.defines) == 0;
    assert Without([n0], 0) == [];
    assert SegmentOrder(ctx, [n0], {} + n1.defines) == [n0];
    assert SegmentOrder(ctx, nodes, {}) == [n1] + [n0];
  }

  lemma SegmentTwo(ctx: Context, n0: Node, n1: Node)
    requires InSegment(n0) && InSegment(n1) && SegmentOrder(ctx, [n0, n1], {}) == [n1, n0]
    ensures Segmented(ctx, [n0, n1], [], []) == [n1, n0]
  {
    hide SegmentOrder;
    var nodes := [n0, n1];
    assert nodes[1..] == [n1] && [n1][1..] == [];
    var none: seq<Node> := [];
    assert Segmented(ctx, none, none, nodes) == none + [n1, n0] == [n1, n0];
    assert none + [n0] == [n0] && [n0] + [n1] == nodes;
    assert Segmented(ctx, [n1], none, [n0]) == Segmented(ctx, none, none, nodes);
    assert Segmented(ctx, nodes, none, none) == Segmented(ctx, [n1], none, [n0]);
  }

  lemma DeferNothing(n0: Node, n1: Node)
    requires InSegment(n0) && InSegment(n1)
    ensures Deferred([n1, n0], 0) == [n1, n0]
  {
    assert Deferred([n1, n0], 2) == [n1, n0];
    assert Deferred([n1, n0], 1) == [n1, n0];
  }

  function SegmentNode(i: nat): Node
    requires i < 2
  {
    NewStrippedNode(SegmentBranch()[i], i)
  }

  const SEGMENT_JOIN := PlanJoin("a", "x", Eq, "s", "x")

  lemma SegmentIR()
    ensures ReorderedIR(SegmentBranch(), None) == PlanIR([SegmentNode(0), SegmentNode(1)], Context([SEGMENT_JOIN], None), true)
  {
    var cs := SegmentBranch();
    assert ExtractedFrom(cs[0]) == [] && ExtractedFrom(cs[1]) == [SEGMENT_JOIN];
    assert cs[1..] == [cs[1]] && cs[1..][1..] == [];
    assert Extracted(cs) == [SEGMENT_JOIN];
    assert StrippedNodes(cs) == [SegmentNode(0), SegmentNode(1)];
  }

  lemma SegmentNodeFacts()
    ensures SegmentNode(0).hardDeps == SegmentNode(1).hardDeps == {}
    ensures SegmentNode(0).defines == {"b", "s"} && SegmentNode(1).defines == {"a"}
    ensures SelectivityScore(SegmentNode(0).cond) == 965 && SelectivityScore(SegmentNode(1).cond) == 890
  {
    var cs := SegmentBranch();
    assert ConstraintNames(cs[1].spec.constraints) == {} && ConstraintScore(cs[1].spec.constraints) == -100;
    assert SegmentNames(cs[0].spec.patterns[0].elements) == {"s"};
    assert cs[0].spec.constraints == [] && ConstraintScore(cs[0].spec.constraints) == 0;
  }

  lemma AttachedOne(r: seq<Node>, pj: PlanJoin, k: nat)
    ensures AttachedTo(r, [pj], k) == if Attach(r, pj).Some? && Attach(r, pj).value.index == k then [Attach(r, pj).value.join] else []
  {
    hide Attach;
    var none: seq<PlanJoin> := [];
    assert [pj][..0] == none && AttachedTo(r, none, k) == [];
  }

  lemma SegmentAttachments()
    ensures Reattached([SegmentNode(1), SegmentNode(0)], [SEGMENT_JOIN]) == PlannedSegmentBranch()
  {
    SegmentNodeFacts();
    var r := [SegmentNode(1), SegmentNode(0)];
    assert r[..1] == [r[0]];
    assert IndexOf([r[0]], "a") == Some(0);
    assert IndexOf(r, "a") == Some(0) && IndexOf(r, "s") == Some(1);
    var moved := Join("x", Eq, "a", "x");
    assert Attach(r, SEGMENT_JOIN) == Some(Attachment(1, moved));
    AttachedOne(r, SEGMENT_JOIN, 0);
    AttachedOne(r, SEGMENT_JOIN, 1);
  }

  lemma SegmentPlan()
    ensures Normalized(ReorderedIR(SegmentBranch(), None)) == PlannedSegmentBranch()
  {
    SegmentIR();
    SegmentNodeFacts();
    PlanTwo(Context([SEGMENT_JOIN], None), SegmentNode(0), SegmentNode(1));
    SegmentAttachments();
  }

  const FACT_A := Fact(1, "a", map["k" := Null, "x" := Num(1.0)])
  const FACT_B := Fact(2, "b", map["items" := List([]), "x" := Num(1.0)])

  lemma SegmentWellScoped()
    ensures WellScoped(SegmentBranch())
  {
    var cs := SegmentBranch();
    assert cs[..0] == [] && cs[..1] == [cs[0]];
    assert SpecNames(cs[0].spec) == {} && SpecNames(cs[1].spec) == {"s"};
    assert Defines(cs[0]) == {"b", "s"};
    assert DefinesAll(cs[..1]) == {"b", "s"};
    assert WellScopedAt(cs, 0) && WellScopedAt(cs, 1);
  }

  /** A join on a captured value never holds as authored, yet the planned branch matches. */
  lemma SegmentJoinNotPreserved(w: World)
    requires w.facts == {FACT_A, FACT_B}
    ensures WellScoped(SegmentBranch())
    ensures Matches(w, SegmentBranch(), map[]) == {}
    ensures Matches(w, Normalized(ReorderedIR(SegmentBranch(), None)), map[]) != {}
  {
    SegmentWellScoped();
    AuthoredSegmentMatches(w);
    SegmentPlan();
    PlannedSegmentMatches(w);
  }

  lemma AuthoredSegmentMatches(w: World)
    ensures Matches(w, SegmentBranch(), map[]) == {}
  {
    var cs := SegmentBranch();
    assert cs[1..] == [cs[1]];
    forall d: Env | d in Extensions(w, cs[0], map[])
      ensures Matches(w, [cs[1]], map[] + d) == {}
    {
      var f :| f in w.facts && d == Extension(cs[0].spec, f);
      assert d["s"].ValueRef?;
      assert MatchExtensions(w, cs[1].spec, map[] + d) == {} by {
        forall g | g in w.facts
          ensures !Accepts(w, cs[1].spec, g, map[] + d)
        {
          var j := Join("x", Eq, "s", "x");
          assert j in cs[1].spec.joins && !JoinHolds(j, g, map[] + d);
        }
      }
    }
  }

  lemma PlannedSegmentMatches(w: World)
    requires FACT_A in w.facts && FACT_B in w.facts
    ensures Matches(w, PlannedSegmentBranch(), map[]) != {}
  {
    var ps := PlannedSegmentBranch();
    var none: Env := map[];
    var d0, d1 := Extension(ps[0].spec, FACT_A), Extension(ps[1].spec, FACT_B);
    assert ConstraintHolds(w, FieldConstraint("k", Eq, Const(Null)), FACT_A, none);
    assert Accepts(w, ps[0].spec, FACT_A, none);
    assert d0 in Extensions(w, ps[0], none);
    var e := none + d0;
    assert e["a"] == FactRef(FACT_A);
    var p := ps[1].spec.patterns[0];
    assert VariableIndex(p.elements) == 0;
    assert PatternHolds(w, p, FACT_B, e);
    assert JoinHolds(ps[1].spec.joins[0], FACT_B, e);
    assert Accepts(w, ps[1].spec, FACT_B, e);
    assert d1 in Extensions(w, ps[1], e);
    assert ps[1..] == [ps[1]] && [ps[1]][1..] == [];
    assert e + d1 in Matches(w, [], e + d1);
    assert e + d1 in Matches(w, [ps[1]], e);
    assert e + d1 in Matches(w, ps, none);
  }

  // ----- Choosing between ready conditions --------------------------------------------

  /** With volatility out of the way, preference is a strict order over distinct authored positions. */
  lemma PrefersTransitive(ctx: Context, nodes: seq<Node>, defined: set<Name>, profiled: bool, x: Node, y: Node, z: Node)
    requires x.isVolatile == y.isVolatile == z.isVolatile
    requires !Prefers(ctx, nodes, defined, profiled, y, x) && !Prefers(ctx, nodes, defined, profiled, z, y)
    ensures !Prefers(ctx, nodes, defined, profiled, z, x)
  {
  }

  function PlainMatch(binding: Name, constraints: seq<FieldConstraint>, joins: seq<Join>, isVolatile: bool): Condition {
    Match(MatchSpec(binding, Some(binding), constraints, [], joins, [], isVolatile), true, false)
  }

  /** A feeder, a bystander and a volatile match joined to the feeder. */
  function VolatileBranch(): seq<Condition> {
    [ PlainMatch("f", [], [], false),
      PlainMatch("n", [FieldConstraint("x", Ne, Const(Null))], [], false),
      PlainMatch("v", [FieldConstraint("x", Eq, Const(Null))], [Join("x", Eq, "f", "x")], true) ]
  }

  lemma ScanThree(ctx: Context, nodes: seq<Node>)
    requires |nodes| == 3 && ctx.profile.None?
    requires nodes[0].hardDeps == nodes[1].hardDeps == nodes[2].hardDeps == {}
    requires Prefers(ctx, nodes, {}, false, nodes[1], nodes[0]) && Prefers(ctx, nodes, {}, false, nodes[2], nodes[1])
    ensures Selected(ctx, nodes, {}) == 2
  {
    assert ReadyBelow(nodes, {}, 1) == [0];
    assert ReadyBelow(nodes, {}, 2) == [0, 1];
    assert ReadyBelow(nodes, {}, 3) == [0, 1, 2];
    var cs: seq<nat> := [0, 1, 2];
    assert Candidates(ctx, nodes, {}) == (cs, false);
    assert Best(ctx, nodes, {}, false, cs, 1) == 0;
    assert Best(ctx, nodes, {}, false, cs, 2) == 1;
    assert Best(ctx, nodes, {}, false, cs, 3) == 2;
  }

  function VolatileNodes(): seq<Node> {
    var b := VolatileBranch();
    [NewStrippedNode(b[0], 0), NewStrippedNode(b[1], 1), NewStrippedNode(b[2], 2)]
  }

  lemma VolatileNodeFacts()
    ensures var nodes := VolatileNodes();
            && nodes[0].hardDeps == nodes[1].hardDeps == nodes[2].hardDeps == {}
            && nodes[0].defines == {"f"} && nodes[2].dependsOn == {"f"}
            && SelectivityScore(nodes[0].cond) == 990
            && SelectivityScore(nodes[1].cond) == 965
            && SelectivityScore(nodes[2].cond) == 890
  {
    var b := VolatileBranch();
    assert ConstraintNames(b[1].spec.constraints) == {} && ConstraintNames(b[2].spec.constraints) == {};
    assert JoinNames(b[2].spec.joins) == {"f"};
    assert ConstraintScore(b[1].spec.constraints) == -25 && ConstraintScore(b[2].spec.constraints) == -100;
  }

  /** Otherwise the scan can settle on a volatile match although the feeder it should wait for beats it. */
  lemma VolatileScanNotBest(ctx: Context)
    requires ctx.profile.None?
    ensures var nodes := VolatileNodes();
            && Selected(ctx, nodes, {}) == 2
            && Prefers(ctx, nodes, {}, false, nodes[0], nodes[2])
            && Prefers(ctx, nodes, {}, false, nodes[1], nodes[0])
            && Prefers(ctx, nodes, {}, false, nodes[2], nodes[1])
  {
    var nodes := VolatileNodes();
    VolatileNodeFacts();
    assert "f" in nodes[0].defines * nodes[2].dependsOn;
    assert nodes[2] in nodes && nodes[2].order != nodes[0].order;
    assert FeedsRemaining(nodes[0], nodes);
    ScanThree(ctx, nodes);
  }
}
