/** Option values shared by every module of the project. */
module Options {
  datatype Option<+T> = None | Some(value: T)
}

/**
 The abstract syntax of one conjunctive branch: values, expressions, match
 specifications and conditions, with the collectors that name the bindings a
 condition defines and depends on.  Binding names are taken already trimmed.
 */
module BranchSyntax {
  import opened Options

  type Name = string
  type Path = string

  datatype Value =
    | Null
    | Bool(b: bool)
    | Num(n: real)
    | Str(s: string)
    | List(items: seq<Value>)
    | Dict(entries: map<string, Value>)

  datatype Op = Eq | Ne | Lt | Le | Gt | Ge | Exists | In

  datatype Connective = And | Or | Not

  datatype Expr =
    | Const(value: Value)
    | CurrentField(path: Path)
    | HasPath(path: Path)
    | BindingField(binding: Name, path: Path)
    | BindingValue(binding: Name)
    | Param(name: string)
    | Global(name: string)
    | Call(function_: string, args: seq<Expr>)
    | Compare(op: Op, left: Expr, right: Expr)
    | Boolean(connective: Connective, operands: seq<Expr>)

  /** A literal constraint value is a `Const` right-hand side. */
  datatype FieldConstraint = FieldConstraint(path: Path, op: Op, rhs: Expr)

  datatype Element = ValueElement(e: Expr) | Wildcard | Segment(binding: Name) | RestWildcard

  datatype ListPattern = ListPattern(path: Path, elements: seq<Element>)

  /** Compares the matched fact's `path` with `refPath` of an earlier binding. */
  datatype Join = Join(path: Path, op: Op, refBinding: Name, refPath: Path)

  datatype MatchSpec = MatchSpec(
    binding: Name,
    target: Option<string>,
    constraints: seq<FieldConstraint>,
    patterns: seq<ListPattern>,
    joins: seq<Join>,
    predicates: seq<Expr>,
    isVolatile: bool)

  datatype AggregateKind = Count | Sum | Min | Max | Collect

  datatype AggregateSpec = AggregateSpec(kind: AggregateKind, expr: Option<Expr>, binding: Name)

  datatype Quantifier = ExistsKind | ForallKind

  /** The structural input of a higher-order condition. */
  datatype Tree =
    | MatchTree(spec: MatchSpec)
    | AndTree(children: seq<Tree>)
    | OrTree(children: seq<Tree>)
    | NotTree(child: Tree)
    | TestTree(test: Expr)
    | QuantifiedTree(kind: Quantifier, input: Tree, requirement: Tree)

  datatype Condition =
    | Match(spec: MatchSpec, visible: bool, negated: bool)
    | Test(test: Expr)
    | Aggregate(input: seq<MatchSpec>, specs: seq<AggregateSpec>)
    | HigherOrder(kind: Quantifier, domain: Tree, requirement: Tree)

  // ----- Collectors ---------------------------------------------------------

  /** Empty names are never bindings. */
  function Named(n: Name): set<Name> {
    if n == "" then {} else {n}
  }

  function ExprNames(e: Expr): set<Name>
    decreases e, 1
  {
    match e
    case BindingField(b, _) => Named(b)
    case BindingValue(b) => Named(b)
    case Call(_, args) => ExprsNames(args)
    case Compare(_, l, r) => ExprNames(l) + ExprNames(r)
    case Boolean(_, operands) => ExprsNames(operands)
    case _ => {}
  }

  function ExprsNames(es: seq<Expr>): set<Name>
    decreases es, 0
  {
    if es == [] then {} else ExprNames(es[0]) + ExprsNames(es[1..])
  }

  function ConstraintNames(cs: seq<FieldConstraint>): set<Name> {
    if cs == [] then {} else ExprNames(cs[0].rhs) + ConstraintNames(cs[1..])
  }

  function JoinNames(js: seq<Join>): set<Name> {
    if js == [] then {} else Named(js[0].refBinding) + JoinNames(js[1..])
  }

  function ElementNames(es: seq<Element>): set<Name> {
    if es == [] then {}
    else (if es[0].ValueElement? then ExprNames(es[0].e) else {}) + ElementNames(es[1..])
  }

  function PatternNames(ps: seq<ListPattern>): set<Name> {
    if ps == [] then {} else ElementNames(ps[0].elements) + PatternNames(ps[1..])
  }

  function SegmentNames(es: seq<Element>): set<Name> {
    if es == [] then {}
    else (if es[0].Segment? then Named(es[0].binding) else {}) + SegmentNames(es[1..])
  }

  function PatternSegments(ps: seq<ListPattern>): set<Name> {
    if ps == [] then {} else SegmentNames(ps[0].elements) + PatternSegments(ps[1..])
  }

  /** Names read by computed constraint values and predicates. */
  function SpecHardNames(s: MatchSpec): set<Name> {
    ConstraintNames(s.constraints) + ExprsNames(s.predicates)
  }

  function SpecNames(s: MatchSpec): set<Name> {
    JoinNames(s.joins) + SpecHardNames(s) + PatternNames(s.patterns)
  }

  function SpecDefines(s: MatchSpec): set<Name> {
    Named(s.binding) + PatternSegments(s.patterns)
  }

  function SpecsNames(ss: seq<MatchSpec>): set<Name> {
    if ss == [] then {} else SpecNames(ss[0]) + SpecsNames(ss[1..])
  }

  function AggregateNames(specs: seq<AggregateSpec>): set<Name> {
    if specs == [] then {}
    else (if specs[0].expr.Some? then ExprNames(specs[0].expr.value) else {}) + AggregateNames(specs[1..])
  }

  function AggregateBindings(specs: seq<AggregateSpec>): set<Name> {
    if specs == [] then {} else Named(specs[0].binding) + AggregateBindings(specs[1..])
  }

  /** Tests and nested quantifiers contribute nothing, as in the source. */
  function TreeNames(t: Tree): set<Name>
    decreases t, 1
  {
    match t
    case MatchTree(s) => SpecNames(s)
    case AndTree(ts) => TreesNames(ts)
    case OrTree(ts) => TreesNames(ts)
    case NotTree(c) => TreeNames(c)
    case _ => {}
  }

  function TreesNames(ts: seq<Tree>): set<Name>
    decreases ts, 0
  {
    if ts == [] then {} else TreeNames(ts[0]) + TreesNames(ts[1..])
  }

  function TreeDefines(t: Tree): set<Name>
    decreases t, 1
  {
    match t
    case MatchTree(s) => SpecDefines(s)
    case AndTree(ts) => TreesDefines(ts)
    case _ => {}
  }

  function TreesDefines(ts: seq<Tree>): set<Name>
    decreases ts, 0
  {
    if ts == [] then {} else TreeDefines(ts[0]) + TreesDefines(ts[1..])
  }

  /** The bindings later conditions may refer to. */
  function Defines(c: Condition): set<Name> {
    match c
    case Match(s, visible, _) => if visible then SpecDefines(s) else {}
    case Aggregate(_, specs) => AggregateBindings(specs)
    case _ => {}
  }

  function DependsOn(c: Condition): set<Name> {
    match c
    case Match(s, _, _) => SpecNames(s)
    case Test(e) => ExprNames(e)
    case Aggregate(input, specs) => SpecsNames(input) + AggregateNames(specs)
    case HigherOrder(kind, domain, requirement) =>
      TreeNames(domain) + (if kind.ForallKind? then TreeNames(requirement) else {}) - TreeDefines(domain)
  }

  function HardDeps(c: Condition): set<Name> {
    if c.Match? then SpecHardNames(c.spec) else DependsOn(c)
  }

  /** The name a condition is addressed by when joins are re-attached. */
  function Label(c: Condition): Name {
    if c.Match? then c.spec.binding else ""
  }

  function Labels(c: Condition): set<Name> {
    Named(Label(c)) + Defines(c)
  }

  /** The condition without its join constraints. */
  function Strip(c: Condition): Condition {
    if c.Match? then c.(spec := c.spec.(joins := [])) else c
  }

  function WithJoins(c: Condition, js: seq<Join>): Condition {
    if c.Match? then c.(spec := c.spec.(joins := js)) else c
  }
}
