/**
 The branch planner: greedy selection inside segments of movable conditions,
 deferral of independent payloads past runs of negations, and re-attachment of
 the stripped joins to whichever side comes later.
 */
module BranchPlanner {
  import opened Options
  import opened BranchSyntax

  const QUERY_TRIGGER: Name := "__gess_query_trigger"

  datatype Barrier = NoBarrier | NegationBarrier | AggregateBarrier

  datatype Node = Node(
    cond: Condition,
    order: nat,
    defines: set<Name>,
    dependsOn: set<Name>,
    hardDeps: set<Name>,
    movable: bool,
    isVolatile: bool,
    barrier: Barrier)

  datatype PlanJoin = PlanJoin(left: Name, leftPath: Path, op: Op, right: Name, rightPath: Path)

  /** What selection consults: the extracted joins and the measured fanouts, if any. */
  datatype Context = Context(joins: seq<PlanJoin>, profile: Option<map<Name, real>>)

  datatype PlanIR = PlanIR(nodes: seq<Node>, context: Context, reorder: bool)

  // ----- Nodes and joins --------------------------------------------------------

  predicate Movable(c: Condition) {
    c.Match? && !c.negated && c.spec.binding != QUERY_TRIGGER
  }

  function BarrierOf(c: Condition): Barrier {
    if c.Aggregate? || c.HigherOrder? then AggregateBarrier
    else if c.Match? && c.negated then NegationBarrier
    else NoBarrier
  }

  function NewNode(c: Condition, order: nat): Node {
    Node(c, order, Defines(c), DependsOn(c), HardDeps(c), Movable(c), c.Match? && c.spec.isVolatile, BarrierOf(c))
  }

  /** The same node with its joins taken out; its dependencies still count them. */
  function NewStrippedNode(c: Condition, order: nat): Node {
    NewNode(c, order).(cond := Strip(c))
  }

  /** Joins that name no binding are dropped. */
  function PlanJoinsOf(binding: Name, js: seq<Join>): seq<PlanJoin> {
    if js == [] then [] else
    var j := js[0];
    (if binding == "" || j.refBinding == "" then [] else [PlanJoin(binding, j.path, j.op, j.refBinding, j.refPath)])
    + PlanJoinsOf(binding, js[1..])
  }

  function ExtractedFrom(c: Condition): seq<PlanJoin> {
    if c.Match? then PlanJoinsOf(c.spec.binding, c.spec.joins) else []
  }

  function Extracted(cs: seq<Condition>): seq<PlanJoin> {
    if cs == [] then [] else ExtractedFrom(cs[0]) + Extracted(cs[1..])
  }

  function StrippedNodes(cs: seq<Condition>): (nodes: seq<Node>) {
    seq(|cs|, i requires 0 <= i < |cs| => NewStrippedNode(cs[i], i))
  }

  function DefinesOf(nodes: seq<Node>): set<Name> {
    if nodes == [] then {} else nodes[0].defines + DefinesOf(nodes[1..])
  }

  function Invert(op: Op): Option<Op> {
    match op
    case Eq => Some(Eq)
    case Ne => Some(Ne)
    case Lt => Some(Gt)
    case Le => Some(Ge)
    case Gt => Some(Lt)
    case Ge => Some(Le)
    case _ => None
  }

  // ----- Selection ----------------------------------------------------------------

  /** No unmet hard dependency is still to be defined by a remaining node. */
  predicate Ready(node: Node, remaining: seq<Node>, defined: set<Name>) {
    node.hardDeps * DefinesOf(remaining) <= defined
  }

  function JoinWeight(j: PlanJoin): nat {
    if j.op.Eq? then 2 else 1
  }

  function BindingStrength(b: Name, js: seq<PlanJoin>, defined: set<Name>): nat {
    if js == [] then 0 else
    var j := js[0];
    var connected := if j.left == b then j.right in defined else j.right == b && j.left in defined;
    (if connected then JoinWeight(j) else 0) + BindingStrength(b, js[1..], defined)
  }

  ghost function StrengthSum(bs: set<Name>, js: seq<PlanJoin>, defined: set<Name>): nat {
    if bs == {} then 0 else
    var b :| b in bs;
    BindingStrength(b, js, defined) + StrengthSum(bs - {b}, js, defined)
  }

  ghost function Strength(node: Node, js: seq<PlanJoin>, defined: set<Name>): nat {
    if defined == {} then 0 else StrengthSum(node.defines, js, defined)
  }

  function ConstraintScore(cs: seq<FieldConstraint>): int {
    if cs == [] then 0 else (if cs[0].op.Eq? then -100 else -25) + ConstraintScore(cs[1..])
  }

  function SelectivityScore(c: Condition): int {
    if c.Test? then 1010
    else if !c.Match? then 1000
    else
      1000 - (if c.spec.target.Some? then 10 else 0) + ConstraintScore(c.spec.constraints)
      - |c.spec.patterns| * 25 + |c.spec.predicates| * 10
  }

  predicate NodeLess(l: Node, r: Node) {
    var a, b := SelectivityScore(l.cond), SelectivityScore(r.cond);
    if a != b then a < b else l.order < r.order
  }

  predicate FeedsRemaining(node: Node, remaining: seq<Node>) {
    exists other :: other in remaining && other.order != node.order && node.defines * other.dependsOn != {}
  }

  function Fanout(ctx: Context, node: Node): Option<real> {
    var b := Label(node.cond);
    if ctx.profile.Some? && b != "" && b in ctx.profile.value && ctx.profile.value[b] >= 0.0
    then Some(ctx.profile.value[b])
    else None
  }

  function FanoutOrZero(ctx: Context, node: Node): real {
    var f := Fanout(ctx, node);
    if f.Some? then f.value else 0.0
  }

  /** Every join authored on the node's bindings already has its other side. */
  predicate ProfileReady(node: Node, js: seq<PlanJoin>, defined: set<Name>) {
    forall j :: j in js && j.left in node.defines ==> j.right in defined
  }

  /** Positions of the ready nodes among the first `n`, in increasing order. */
  function ReadyBelow(nodes: seq<Node>, defined: set<Name>, n: nat): (r: seq<nat>)
    requires n <= |nodes|
    ensures forall i :: i in r <==> 0 <= i < n && Ready(nodes[i], nodes, defined)
  {
    if n == 0 then []
    else ReadyBelow(nodes, defined, n - 1) + (if Ready(nodes[n - 1], nodes, defined) then [n - 1] else [])
  }

  /** The profile-ready positions among the first `n` of `ready`. */
  function ProfileReadyOf(ctx: Context, nodes: seq<Node>, defined: set<Name>, ready: seq<nat>, n: nat): (r: seq<nat>)
    requires n <= |ready|
    requires forall i :: i in ready ==> i < |nodes|
    ensures forall i :: i in r ==> i in ready
    ensures |r| <= n
  {
    if n == 0 then [] else
    var rest := ProfileReadyOf(ctx, nodes, defined, ready, n - 1);
    assert ready[n - 1] in ready;
    rest + (if ProfileReady(nodes[ready[n - 1]], ctx.joins, defined) then [ready[n - 1]] else [])
  }

  function ReadyIndexes(nodes: seq<Node>, defined: set<Name>): (r: seq<nat>)
    ensures forall i :: i in r <==> 0 <= i < |nodes| && Ready(nodes[i], nodes, defined)
  {
    ReadyBelow(nodes, defined, |nodes|)
  }

  /** The profile is consulted only when it covers every ready node. */
  predicate Covered(ctx: Context, nodes: seq<Node>, ready: seq<nat>)
    requires forall i :: i in ready ==> i < |nodes|
  {
    ctx.profile.Some? && forall i :: i in ready ==> Fanout(ctx, nodes[i]).Some?
  }

  /** The candidate positions, and whether the profile decides between them. */
  function Candidates(ctx: Context, nodes: seq<Node>, defined: set<Name>): (r: (seq<nat>, bool))
    ensures forall i :: i in r.0 ==> i < |nodes| && Ready(nodes[i], nodes, defined)
    ensures r.0 == [] ==> forall i :: 0 <= i < |nodes| ==> !Ready(nodes[i], nodes, defined)
  {
    var ready := ReadyIndexes(nodes, defined);
    var narrowed := ProfileReadyOf(ctx, nodes, defined, ready, |ready|);
    if Covered(ctx, nodes, ready) && narrowed != [] then (narrowed, true)
    else
      assert forall i :: 0 <= i < |nodes| && Ready(nodes[i], nodes, defined) ==> i in ready;
      (ready, false)
  }

  /** Whether selection gives up the best node so far for `node`. */
  ghost predicate Prefers(ctx: Context, nodes: seq<Node>, defined: set<Name>, profiled: bool, node: Node, best: Node) {
    var s, t := Strength(node, ctx.joins, defined), Strength(best, ctx.joins, defined);
    var stable, bestStable := !node.isVolatile && FeedsRemaining(node, nodes), !best.isVolatile && FeedsRemaining(best, nodes);
    if s != t then s > t
    else if node.isVolatile != best.isVolatile && stable != bestStable then stable
    else if profiled && SelectivityScore(node.cond) == SelectivityScore(best.cond) && FanoutOrZero(ctx, node) != FanoutOrZero(ctx, best)
    then FanoutOrZero(ctx, node) < FanoutOrZero(ctx, best)
    else NodeLess(node, best)
  }

  /** Scanning the first `n` candidates left to right, keeping the preferred one. */
  ghost function Best(ctx: Context, nodes: seq<Node>, defined: set<Name>, profiled: bool, candidates: seq<nat>, n: nat): (r: nat)
    requires 0 < n <= |candidates|
    requires forall i :: i in candidates ==> i < |nodes|
    ensures r in candidates
  {
    if n == 1 then candidates[0] else
    var b, c := Best(ctx, nodes, defined, profiled, candidates, n - 1), candidates[n - 1];
    assert c in candidates;
    if Prefers(ctx, nodes, defined, profiled, nodes[c], nodes[b]) then c else b
  }

  ghost function Selected(ctx: Context, nodes: seq<Node>, defined: set<Name>): (r: nat)
    requires nodes != []
    ensures r < |nodes|
    ensures Ready(nodes[r], nodes, defined) || (r == 0 && forall i :: 0 <= i < |nodes| ==> !Ready(nodes[i], nodes, defined))
  {
    var (cs, profiled) := Candidates(ctx, nodes, defined);
    if cs == [] then 0 else Best(ctx, nodes, defined, profiled, cs, |cs|)
  }

  // ----- The planned order as a function ------------------------------------------

  function Without<T>(s: seq<T>, i: nat): seq<T>
    requires i < |s|
  {
    s[..i] + s[i + 1..]
  }

  ghost function SegmentOrder(ctx: Context, remaining: seq<Node>, defined: set<Name>): seq<Node>
    decreases |remaining|
  {
    if remaining == [] then [] else
    var k := Selected(ctx, remaining, defined);
    [remaining[k]] + SegmentOrder(ctx, Without(remaining, k), defined + remaining[k].defines)
  }

  predicate InSegment(n: Node) {
    n.movable && n.barrier.NoBarrier?
  }

  ghost function Segmented(ctx: Context, nodes: seq<Node>, out: seq<Node>, segment: seq<Node>): seq<Node>
    decreases |nodes|
  {
    if nodes == [] then out + SegmentOrder(ctx, segment, DefinesOf(out))
    else if InSegment(nodes[0]) then Segmented(ctx, nodes[1..], out, segment + [nodes[0]])
    else Segmented(ctx, nodes[1..], out + SegmentOrder(ctx, segment, DefinesOf(out)) + [nodes[0]], [])
  }

  predicate IndependentPayload(n: Node) {
    && n.movable && n.barrier.NoBarrier? && n.cond.Match? && n.cond.visible
    && n.defines != {} && n.cond.spec.binding != QUERY_TRIGGER
  }

  predicate PositiveAnchor(n: Node) {
    && n.cond.Match? && n.cond.visible && n.defines != {} && !n.cond.negated
    && n.cond.spec.binding != QUERY_TRIGGER
  }

  predicate CanCross(nodes: seq<Node>, candidate: nat, negStart: nat, negEnd: nat)
    requires candidate < negStart <= negEnd <= |nodes|
  {
    var c := nodes[candidate];
    var defined := DefinesOf(nodes[..candidate]);
    && IndependentPayload(c)
    && (forall i :: 0 <= i < |nodes| && i != candidate ==> c.defines * nodes[i].dependsOn == {})
    && c.dependsOn <= defined
    && (forall i :: negStart <= i < negEnd ==> c.defines * nodes[i].dependsOn == {} && nodes[i].dependsOn <= defined)
    && exists n :: n in nodes[..candidate] && PositiveAnchor(n)
  }

  predicate IsNegation(n: Node) {
    n.barrier.NegationBarrier?
  }

  /** End of the run of negations that continues at `i`. */
  function NegationEnd(nodes: seq<Node>, i: nat): (r: nat)
    requires i <= |nodes|
    ensures i <= r <= |nodes|
    ensures forall k :: i <= k < r ==> IsNegation(nodes[k])
    ensures r < |nodes| ==> !IsNegation(nodes[r])
    decreases |nodes| - i
  {
    if i < |nodes| && IsNegation(nodes[i]) then NegationEnd(nodes, i + 1) else i
  }

  /** Start of the run of payloads before `negStart` that may cross the negations. */
  function PayloadStart(nodes: seq<Node>, from: nat, negStart: nat, negEnd: nat): (r: nat)
    requires from <= negStart <= negEnd <= |nodes|
    ensures r <= from
    ensures forall k :: r <= k < from ==> CanCross(nodes, k, negStart, negEnd)
    ensures r > 0 ==> !CanCross(nodes, r - 1, negStart, negEnd)
  {
    if from > 0 && CanCross(nodes, from - 1, negStart, negEnd)
    then PayloadStart(nodes, from - 1, negStart, negEnd)
    else from
  }

  /** Swaps the adjacent blocks `[a, b)` and `[b, c)`. */
  function Rotate<T>(s: seq<T>, a: nat, b: nat, c: nat): (r: seq<T>)
    requires a <= b <= c <= |s|
    ensures |r| == |s|
  {
    s[..a] + s[b..c] + s[a..b] + s[c..]
  }

  function Deferred(nodes: seq<Node>, start: nat): seq<Node>
    decreases |nodes| - start
  {
    if start >= |nodes| then nodes
    else if !IsNegation(nodes[start]) then Deferred(nodes, start + 1)
    else
      var end := NegationEnd(nodes, start + 1);
      Deferred(Rotate(nodes, PayloadStart(nodes, start, start, end), start, end), end)
  }

  ghost function PlannedOrder(ir: PlanIR): seq<Node> {
    if !ir.reorder || |ir.nodes| < 2 then ir.nodes
    else Deferred(Segmented(ir.context, ir.nodes, [], []), 0)
  }

  // ----- Re-attaching joins --------------------------------------------------------

  /** The last node addressed by the name. */
  function IndexOf(nodes: seq<Node>, name: Name): (r: Option<nat>)
    ensures r.Some? ==> r.value < |nodes| && name in LabelsOf(nodes[r.value])
    ensures r.Some? ==> forall k :: r.value < k < |nodes| ==> name !in LabelsOf(nodes[k])
    ensures r.None? ==> forall k :: 0 <= k < |nodes| ==> name !in LabelsOf(nodes[k])
  {
    if nodes == [] then None else
    var n := |nodes| - 1;
    if name in LabelsOf(nodes[n]) then Some(n) else IndexOf(nodes[..n], name)
  }

  function LabelsOf(n: Node): set<Name> {
    Named(Label(n.cond)) + n.defines
  }

  datatype Attachment = Attachment(index: nat, join: Join)

  /** Where a join lands and how it reads there; the operator flips with the sides. */
  function Attach(nodes: seq<Node>, j: PlanJoin): (r: Option<Attachment>)
    ensures r.Some? ==> r.value.index < |nodes|
  {
    var l, r := IndexOf(nodes, j.left), IndexOf(nodes, j.right);
    if l.None? || r.None? || l.value == r.value then None
    else if l.value > r.value then Some(Attachment(l.value, Join(j.leftPath, j.op, j.right, j.rightPath)))
    else
      var inverted := Invert(j.op);
      if inverted.None? then None
      else Some(Attachment(r.value, Join(j.rightPath, inverted.value, j.left, j.leftPath)))
  }

  function AttachedTo(nodes: seq<Node>, joins: seq<PlanJoin>, k: nat): seq<Join> {
    if joins == [] then [] else
    var n := |joins| - 1;
    var a := Attach(nodes, joins[n]);
    AttachedTo(nodes, joins[..n], k) + (if a.Some? && a.value.index == k then [a.value.join] else [])
  }

  function AddJoins(c: Condition, js: seq<Join>): Condition {
    if c.Match? then WithJoins(c, c.spec.joins + js) else c
  }

  function Reattached(nodes: seq<Node>, joins: seq<PlanJoin>): (r: seq<Condition>) {
    seq(|nodes|, k requires 0 <= k < |nodes| => AddJoins(nodes[k].cond, AttachedTo(nodes, joins, k)))
  }

  ghost function Normalized(ir: PlanIR): seq<Condition> {
    Reattached(PlannedOrder(ir), ir.context.joins)
  }

  function AuthoredIR(cs: seq<Condition>): PlanIR {
    PlanIR(seq(|cs|, i requires 0 <= i < |cs| => NewNode(cs[i], i)), Context([], None), false)
  }

  function ReorderedIR(cs: seq<Condition>, profile: Option<map<Name, real>>): PlanIR {
    PlanIR(StrippedNodes(cs), Context(Extracted(cs), profile), true)
  }

  // ----- The planner's loops --------------------------------------------------------

  lemma {:induction false} StrengthSumSplit(bs: set<Name>, b: Name, js: seq<PlanJoin>, defined: set<Name>)
    requires b in bs
    ensures StrengthSum(bs, js, defined) == BindingStrength(b, js, defined) + StrengthSum(bs - {b}, js, defined)
    decreases bs
  {
    var c :| c in bs && StrengthSum(bs, js, defined) == BindingStrength(c, js, defined) + StrengthSum(bs - {c}, js, defined);
    if c != b {
      StrengthSumSplit(bs - {c}, b, js, defined);
      StrengthSumSplit(bs - {b}, c, js, defined);
      assert bs - {c} - {b} == bs - {b} - {c};
    }
  }

  method JoinStrengthToDefined(node: Node, joins: seq<PlanJoin>, defined: set<Name>) returns (strength: nat)
    ensures strength == Strength(node, joins, defined)
  {
    if defined == {} { return 0; }
    strength := 0;
    var rest := node.defines;
    while rest != {}
      invariant strength + StrengthSum(rest, joins, defined) == StrengthSum(node.defines, joins, defined)
      decreases rest
    {
      var b :| b in rest;
      StrengthSumSplit(rest, b, joins, defined);
      var s := BindingStrengthToDefined(b, joins, defined);
      strength := strength + s;
      rest := rest - {b};
    }
  }

  lemma {:induction false} BindingStrengthSnoc(b: Name, js: seq<PlanJoin>, i: nat, defined: set<Name>)
    requires i < |js|
    ensures BindingStrength(b, js[..i + 1], defined) ==
            BindingStrength(b, js[..i], defined) + BindingStrength(b, [js[i]], defined)
    decreases i
  {
    if i == 0 {
      assert js[..1] == [js[0]];
    } else {
      BindingStrengthSnoc(b, js[1..], i - 1, defined);
      assert js[..i + 1][1..] == js[1..][..i] && js[..i][1..] == js[1..][..i - 1];
    }
  }

  method BindingStrengthToDefined(b: Name, joins: seq<PlanJoin>, defined: set<Name>) returns (strength: nat)
    ensures strength == BindingStrength(b, joins, defined)
  {
    strength := 0;
    for i := 0 to |joins|
      invariant strength == BindingStrength(b, joins[..i], defined)
    {
      var j := joins[i];
      var connected := if j.left == b then j.right in defined else j.right == b && j.left in defined;
      BindingStrengthSnoc(b, joins, i, defined);
      if connected {
        strength := strength + (if j.op.Eq? then 2 else 1);
      }
    }
    assert joins[..|joins|] == joins;
  }

  /** The ready positions, narrowed by the profile when it covers all of them. */
  method ReadyCandidates(ctx: Context, nodes: seq<Node>, defined: set<Name>) returns (ready: seq<nat>, useProfile: bool)
    ensures (ready, useProfile) == Candidates(ctx, nodes, defined)
  {
    hide Ready, Fanout, ProfileReady;
    ready := [];
    for i := 0 to |nodes|
      invariant ready == ReadyBelow(nodes, defined, i)
    {
      if Ready(nodes[i], nodes, defined) { ready := ready + [i]; }
    }
    if |ready| == 0 { return [], false; }
    useProfile := ctx.profile.Some?;
    if useProfile {
      var profileReady: seq<nat>;
      useProfile, profileReady := ProfileNarrowed(ctx, nodes, defined, ready);
      if useProfile && |profileReady| > 0 {
        ready := profileReady;
      } else {
        useProfile := false;
      }
    }
  }

  /** Scans the ready positions; the first one the profile misses ends the scan. */
  method ProfileNarrowed(ctx: Context, nodes: seq<Node>, defined: set<Name>, ready: seq<nat>)
    returns (covered: bool, profileReady: seq<nat>)
    requires ctx.profile.Some? && forall i :: i in ready ==> i < |nodes|
    ensures covered == Covered(ctx, nodes, ready)
    ensures covered ==> profileReady == ProfileReadyOf(ctx, nodes, defined, ready, |ready|)
  {
    hide Fanout, ProfileReady;
    covered, profileReady := true, [];
    for r := 0 to |ready|
      invariant forall k :: 0 <= k < r ==> ready[k] in ready && Fanout(ctx, nodes[ready[k]]).Some?
      invariant profileReady == ProfileReadyOf(ctx, nodes, defined, ready, r)
      invariant covered
    {
      assert ready[r] in ready;
      if Fanout(ctx, nodes[ready[r]]).None? { return false, profileReady; }
      if ProfileReady(nodes[ready[r]], ctx.joins, defined) { profileReady := profileReady + [ready[r]]; }
    }
  }

  /** One comparison of the scan, given both join strengths. */
  method Challenge(ctx: Context, nodes: seq<Node>, ghost defined: set<Name>, useProfile: bool,
                   node: Node, strength: nat, best: Node, bestStrength: nat) returns (wins: bool)
    requires strength == Strength(node, ctx.joins, defined) && bestStrength == Strength(best, ctx.joins, defined)
    ensures wins == Prefers(ctx, nodes, defined, useProfile, node, best)
  {
    if strength != bestStrength { return strength > bestStrength; }
    if node.isVolatile != best.isVolatile {
      var stable := !node.isVolatile && FeedsRemaining(node, nodes);
      var bestStable := !best.isVolatile && FeedsRemaining(best, nodes);
      if stable != bestStable { return stable; }
    }
    if useProfile {
      var fanout, bestFanout := FanoutOrZero(ctx, node), FanoutOrZero(ctx, best);
      if SelectivityScore(node.cond) == SelectivityScore(best.cond) && fanout != bestFanout {
        return fanout < bestFanout;
      }
    }
    wins := NodeLess(node, best);
  }

  method SelectNext(ctx: Context, nodes: seq<Node>, defined: set<Name>) returns (best: nat)
    requires nodes != []
    ensures best == Selected(ctx, nodes, defined)
  {
    var ready, useProfile := ReadyCandidates(ctx, nodes, defined);
    if |ready| == 0 { return 0; }
    best := ready[0];
    assert best in ready;
    var bestStrength := JoinStrengthToDefined(nodes[best], ctx.joins, defined);
    for r := 1 to |ready|
      invariant best == Best(ctx, nodes, defined, useProfile, ready, r)
      invariant bestStrength == Strength(nodes[best], ctx.joins, defined)
    {
      var i := ready[r];
      assert i in ready;
      var strength := JoinStrengthToDefined(nodes[i], ctx.joins, defined);
      var wins := Challenge(ctx, nodes, defined, useProfile, nodes[i], strength, nodes[best], bestStrength);
      if wins { best, bestStrength := i, strength; }
    }
  }

  method PlanSegment(ctx: Context, segment: seq<Node>, prior: seq<Node>) returns (out: seq<Node>)
    ensures out == SegmentOrder(ctx, segment, DefinesOf(prior))
  {
    hide Selected, DefinesOf;
    if |segment| < 2 {
      assert |segment| == 1 ==> Without(segment, 0) == [];
      return segment;
    }
    var defined := DefinesOf(prior);
    var remaining := segment;
    out := [];
    while |remaining| > 0
      invariant out + SegmentOrder(ctx, remaining, defined) == SegmentOrder(ctx, segment, DefinesOf(prior))
      decreases |remaining|
    {
      var k := SelectNext(ctx, remaining, defined);
      out := out + [remaining[k]];
      defined := defined + remaining[k].defines;
      remaining := remaining[..k] + remaining[k + 1..];
    }
  }

  method PlannedNodes(ir: PlanIR) returns (out: seq<Node>)
    ensures out == PlannedOrder(ir)
  {
    if !ir.reorder || |ir.nodes| < 2 { return ir.nodes; }
    out := [];
    var segment: seq<Node> := [];
    for i := 0 to |ir.nodes|
      invariant Segmented(ir.context, ir.nodes[i..], out, segment) == Segmented(ir.context, ir.nodes, [], [])
    {
      var node := ir.nodes[i];
      assert ir.nodes[i..][0] == node && ir.nodes[i..][1..] == ir.nodes[i + 1..];
      if node.movable && node.barrier.NoBarrier? {
        segment := segment + [node];
        continue;
      }
      var planned := PlanSegment(ir.context, segment, out);
      out := out + planned;
      segment := [];
      out := out + [node];
    }
    var planned := PlanSegment(ir.context, segment, out);
    out := DeferIndependentPayloads(out + planned);
  }

  lemma RotateNothing(nodes: seq<Node>, a: nat, c: nat)
    requires a <= c <= |nodes|
    ensures Rotate(nodes, a, a, c) == nodes
  {
  }

  method DeferIndependentPayloads(nodes: seq<Node>) returns (out: seq<Node>)
    ensures out == Deferred(nodes, 0)
  {
    hide CanCross, IsNegation, Rotate;
    out := nodes;
    var negStart: nat := 0;
    while negStart < |out|
      invariant Deferred(out, negStart) == Deferred(nodes, 0)
      decreases |out| - negStart
    {
      if !IsNegation(out[negStart]) {
        negStart := negStart + 1;
        continue;
      }
      var negEnd := negStart + 1;
      while negEnd < |out| && IsNegation(out[negEnd])
        invariant negStart < negEnd <= |out|
        invariant NegationEnd(out, negEnd) == NegationEnd(out, negStart + 1)
      {
        negEnd := negEnd + 1;
      }
      var payloadStart := negStart;
      while payloadStart > 0 && CanCross(out, payloadStart - 1, negStart, negEnd)
        invariant payloadStart <= negStart
        invariant PayloadStart(out, payloadStart, negStart, negEnd) == PayloadStart(out, negStart, negStart, negEnd)
      {
        payloadStart := payloadStart - 1;
      }
      RotateNothing(out, negStart, negEnd);
      if payloadStart < negStart {
        out := Rotate(out, payloadStart, negStart, negEnd);
      }
      negStart := negEnd;
    }
  }

  method BindingIndexes(nodes: seq<Node>) returns (indexes: map<Name, nat>)
    ensures forall n :: IndexOf(nodes, n) == if n in indexes then Some(indexes[n]) else None
  {
    indexes := map[];
    for i := 0 to |nodes|
      invariant forall n :: IndexOf(nodes[..i], n) == if n in indexes then Some(indexes[n]) else None
    {
      if Label(nodes[i].cond) != "" { indexes := indexes[Label(nodes[i].cond) := i]; }
      indexes := indexes + (map b | b in nodes[i].defines :: i);
      assert nodes[..i + 1][..i] == nodes[..i];
    }
    assert nodes[..|nodes|] == nodes;
  }

  /** `out` carries the first `n` joins, each where it belongs. */
  ghost predicate Carries(nodes: seq<Node>, joins: seq<PlanJoin>, n: nat, out: seq<Condition>)
    requires n <= |joins|
  {
    && |out| == |nodes|
    && forall k :: 0 <= k < |nodes| ==> out[k] == AddJoins(nodes[k].cond, AttachedTo(nodes, joins[..n], k))
  }

  lemma CarriesNext(nodes: seq<Node>, joins: seq<PlanJoin>, n: nat, out: seq<Condition>)
    requires n < |joins| && Carries(nodes, joins, n, out)
    ensures var a := Attach(nodes, joins[n]);
            Carries(nodes, joins, n + 1,
                    if a.None? then out else out[a.value.index := AddJoins(out[a.value.index], [a.value.join])])
  {
    hide Attach, AttachedTo, AddJoins;
    var a := Attach(nodes, joins[n]);
    forall k | 0 <= k < |nodes|
      ensures AddJoins(nodes[k].cond, AttachedTo(nodes, joins[..n + 1], k)) ==
              if a.Some? && a.value.index == k then AddJoins(out[k], [a.value.join]) else out[k]
    {
      AttachedNext(nodes, joins, n, k);
      if a.Some? { AddJoinsTwice(nodes[k].cond, AttachedTo(nodes, joins[..n], k), [a.value.join]); }
    }
  }

  lemma AttachedNext(nodes: seq<Node>, joins: seq<PlanJoin>, n: nat, k: nat)
    requires n < |joins|
    ensures var a := Attach(nodes, joins[n]);
            AttachedTo(nodes, joins[..n + 1], k) ==
            if a.Some? && a.value.index == k then AttachedTo(nodes, joins[..n], k) + [a.value.join] else AttachedTo(nodes, joins[..n], k)
  {
    hide Attach;
    assert joins[..n + 1][..n] == joins[..n];
  }

  lemma AddJoinsTwice(c: Condition, js: seq<Join>, more: seq<Join>)
    ensures AddJoins(AddJoins(c, js), more) == AddJoins(c, js + more)
  {
    if c.Match? { assert c.spec.joins + js + more == c.spec.joins + (js + more); }
  }

  lemma CarriesNone(nodes: seq<Node>, joins: seq<PlanJoin>, out: seq<Condition>)
    requires |out| == |nodes| && forall k :: 0 <= k < |nodes| ==> out[k] == nodes[k].cond
    ensures Carries(nodes, joins, 0, out)
  {
    assert forall c: Condition :: c.Match? ==> c.spec.joins + [] == c.spec.joins;
  }

  lemma CarriesAll(nodes: seq<Node>, joins: seq<PlanJoin>, out: seq<Condition>)
    requires Carries(nodes, joins, |joins|, out)
    ensures out == Reattached(nodes, joins)
  {
    hide AttachedTo, AddJoins;
    assert joins[..|joins|] == joins;
  }

  /** Plans the branch and re-attaches every extracted join. */
  method NormalizedConditions(ir: PlanIR) returns (out: seq<Condition>)
    ensures out == Normalized(ir)
  {
    hide AttachedTo, IndexOf, PlannedOrder, LabelsOf;
    var nodes := PlannedNodes(ir);
    var indexes := BindingIndexes(nodes);
    var joins := ir.context.joins;
    out := seq(|nodes|, i requires 0 <= i < |nodes| => nodes[i].cond);
    CarriesNone(nodes, joins, out);
    for n := 0 to |joins|
      invariant Carries(nodes, joins, n, out)
    {
      var j := joins[n];
      CarriesNext(nodes, joins, n, out);
      assert IndexOf(nodes, j.left) == if j.left in indexes then Some(indexes[j.left]) else None;
      assert IndexOf(nodes, j.right) == if j.right in indexes then Some(indexes[j.right]) else None;
      if j.left !in indexes || j.right !in indexes || indexes[j.left] == indexes[j.right] { continue; }
      var l, r := indexes[j.left], indexes[j.right];
      if l > r {
        out := out[l := AddJoins(out[l], [Join(j.leftPath, j.op, j.right, j.rightPath)])];
        continue;
      }
      var inverted := Invert(j.op);
      if inverted.None? { continue; }
      out := out[r := AddJoins(out[r], [Join(j.rightPath, inverted.value, j.left, j.leftPath)])];
    }
    CarriesAll(nodes, joins, out);
  }

  lemma Associative<T>(a: seq<T>, b: seq<T>, c: seq<T>)
    ensures a + (b + c) == a + b + c
  {
  }

  lemma {:induction false} ExtractedSnoc(cs: seq<Condition>, c: Condition)
    ensures Extracted(cs + [c]) == Extracted(cs) + ExtractedFrom(c)
  {
    if cs == [] {
      assert [] + [c] == [c] && Extracted([]) == [] && ExtractedFrom(c) + [] == ExtractedFrom(c);
    } else {
      hide ExtractedFrom;
      ExtractedSnoc(cs[1..], c);
      assert (cs + [c])[1..] == cs[1..] + [c] && (cs + [c])[0] == cs[0];
      Associative(ExtractedFrom(cs[0]), Extracted(cs[1..]), ExtractedFrom(c));
    }
  }

  lemma {:induction false} PlanJoinsSnoc(b: Name, js: seq<Join>, j: Join)
    ensures PlanJoinsOf(b, js + [j]) == PlanJoinsOf(b, js) + PlanJoinsOf(b, [j])
  {
    if js == [] {
      assert [] + [j] == [j];
    } else {
      PlanJoinsSnoc(b, js[1..], j);
      assert (js + [j])[1..] == js[1..] + [j] && (js + [j])[0] == js[0];
      Associative(PlanJoinsOf(b, [js[0]]), PlanJoinsOf(b, js[1..]), PlanJoinsOf(b, [j]));
    }
  }

  /** Takes the joins out of a node; aggregates, quantifiers and tests have none to take. */
  method ExtractJoins(node: Node) returns (stripped: Node, joins: seq<PlanJoin>)
    ensures stripped == node.(cond := Strip(node.cond))
    ensures joins == ExtractedFrom(node.cond)
  {
    if !node.cond.Match? || |node.cond.spec.joins| == 0 { return node, []; }
    joins := [];
    var binding, js := node.cond.spec.binding, node.cond.spec.joins;
    for i := 0 to |js|
      invariant joins == PlanJoinsOf(binding, js[..i])
    {
      var j := js[i];
      PlanJoinsSnoc(binding, js[..i], j);
      assert js[..i + 1] == js[..i] + [j];
      if binding == "" || j.refBinding == "" { continue; }
      joins := joins + [PlanJoin(binding, j.path, j.op, j.refBinding, j.refPath)];
    }
    assert js[..|js|] == js;
    stripped := node.(cond := node.cond.(spec := node.cond.spec.(joins := [])));
  }

  method NewReorderedIR(cs: seq<Condition>, profile: Option<map<Name, real>>) returns (ir: PlanIR)
    ensures ir == ReorderedIR(cs, profile)
  {
    hide HardDeps, DependsOn, Defines, BarrierOf, Movable, ExtractedFrom, Strip;
    var nodes: seq<Node> := seq(|cs|, i requires 0 <= i < |cs| => NewNode(cs[i], i));
    var joins: seq<PlanJoin> := [];
    for i := 0 to |cs|
      invariant |nodes| == |cs|
      invariant forall k :: 0 <= k < i ==> nodes[k] == NewStrippedNode(cs[k], k)
      invariant forall k :: i <= k < |cs| ==> nodes[k] == NewNode(cs[k], k)
      invariant joins == Extracted(cs[..i])
    {
      var stripped, own := ExtractJoins(nodes[i]);
      nodes := nodes[i := stripped];
      ExtractedSnoc(cs[..i], cs[i]);
      assert cs[..i + 1] == cs[..i] + [cs[i]];
      joins := joins + own;
    }
    assert cs[..|cs|] == cs;
    ir := PlanIR(nodes, Context(joins, profile), true);
  }
}
