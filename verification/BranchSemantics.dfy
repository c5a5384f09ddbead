/**
 What a branch means.  A branch is evaluated left to right: every condition maps
 the bindings made so far to the set of extensions it allows, and the complete
 matches are the environments reached at the end.  An expression that fails to
 evaluate has no value, and a condition that needs its value does not hold.
 */
module BranchSemantics {
  import opened Options
  import opened Texts
  import opened BranchSyntax

  datatype Fact = Fact(id: nat, target: string, fields: map<Path, Value>)

  /** What a binding stands for: a matched fact, or a captured or computed value. */
  datatype Bound = FactRef(fact: Fact) | ValueRef(value: Value)

  type Env = map<Name, Bound>

  /** Working memory, globals, arguments and the meaning of functions and aggregates. */
  datatype World = World(
    facts: set<Fact>,
    globals: map<string, Value>,
    params: map<string, Value>,
    call: (string, seq<Value>) -> Option<Value>,
    fold: (AggregateKind, map<Env, Option<Value>>) -> Option<Value>)

  // ----- Values -------------------------------------------------------------

  function Kind(v: Value): nat {
    match v
    case Null => 0
    case Bool(_) => 1
    case Num(_) => 2
    case Str(_) => 3
    case List(_) => 4
    case Dict(_) => 5
  }

  /** A join holds only between present, comparable values. */
  function JoinRel(op: Op, l: Option<Value>, r: Option<Value>): bool {
    if l.None? || r.None? then false else
    var a, b := l.value, r.value;
    match op
    case Eq => Kind(a) == Kind(b) && a == b
    case Ne => Kind(a) == Kind(b) && a != b
    case Lt => a.Num? && b.Num? && a.n < b.n
    case Le => a.Num? && b.Num? && a.n <= b.n
    case Gt => a.Num? && b.Num? && a.n > b.n
    case Ge => a.Num? && b.Num? && a.n >= b.n
    case _ => false
  }

  /** Comparison in expressions and constraints; no result for incomparable operands. */
  function CompareValues(op: Op, a: Value, b: Value): Option<bool> {
    match op
    case Eq => if Kind(a) == Kind(b) then Some(a == b) else None
    case Ne => if Kind(a) == Kind(b) then Some(a != b) else None
    case In => if b.List? then Some(a in b.items) else None
    case Exists => None
    case _ =>
      if a.Num? && b.Num? then Some(Ordered(op, a.n < b.n, a.n == b.n))
      else if a.Str? && b.Str? then Some(Ordered(op, TextLess(a.s, b.s), a.s == b.s))
      else None
  }

  function Ordered(op: Op, less: bool, equal: bool): bool {
    (op.Lt? && less) || (op.Le? && (less || equal)) || (op.Gt? && !less && !equal) || (op.Ge? && !less)
  }

  // ----- Expressions --------------------------------------------------------

  function FieldOf(f: Fact, p: Path): Option<Value> {
    if p in f.fields then Some(f.fields[p]) else None
  }

  /** A binding that stands for a value has no fields. */
  function BoundField(env: Env, b: Name, p: Path): Option<Value> {
    if b != "" && b in env && env[b].FactRef? then FieldOf(env[b].fact, p) else None
  }

  function Eval(w: World, e: Expr, current: Option<Fact>, env: Env): Option<Value>
    decreases e, 1
  {
    match e
    case Const(v) => Some(v)
    case CurrentField(p) => if current.Some? then FieldOf(current.value, p) else None
    case HasPath(p) => if current.Some? then Some(Bool(p in current.value.fields)) else None
    case BindingField(b, p) => BoundField(env, b, p)
    case BindingValue(b) => if b != "" && b in env && env[b].ValueRef? then Some(env[b].value) else None
    case Param(n) => if n in w.params then Some(w.params[n]) else None
    case Global(n) => if n in w.globals then Some(w.globals[n]) else None
    case Call(fn, args) =>
      var vs := EvalAll(w, args, current, env);
      if vs.Some? then w.call(fn, vs.value) else None
    case Compare(op, l, r) =>
      var a, b := Eval(w, l, current, env), Eval(w, r, current, env);
      if a.None? || b.None? then None else
      var t := CompareValues(op, a.value, b.value);
      if t.Some? then Some(Bool(t.value)) else None
    case Boolean(And, es) => if es == [] then None else EvalUntil(w, es, current, env, false)
    case Boolean(Or, es) => if es == [] then None else EvalUntil(w, es, current, env, true)
    case Boolean(Not, es) =>
      if |es| != 1 then None else
      var a := Eval(w, es[0], current, env);
      if a.Some? && a.value.Bool? then Some(Bool(!a.value.b)) else None
  }

  function EvalAll(w: World, es: seq<Expr>, current: Option<Fact>, env: Env): Option<seq<Value>>
    decreases es, 0
  {
    if es == [] then Some([]) else
    var a := Eval(w, es[0], current, env);
    if a.None? then None else
    var rest := EvalAll(w, es[1..], current, env);
    if rest.None? then None else Some([a.value] + rest.value)
  }

  /** Short-circuit evaluation: stops at the first operand equal to `stop`. */
  function EvalUntil(w: World, es: seq<Expr>, current: Option<Fact>, env: Env, stop: bool): Option<Value>
    decreases es, 0
  {
    if es == [] then Some(Bool(!stop)) else
    var a := Eval(w, es[0], current, env);
    if a.None? || !a.value.Bool? then None
    else if a.value.b == stop then Some(Bool(stop))
    else EvalUntil(w, es[1..], current, env, stop)
  }

  function True(v: Option<Value>): bool {
    v == Some(Bool(true))
  }

  // ----- One fact against one match specification ----------------------------

  function ConstraintHolds(w: World, c: FieldConstraint, f: Fact, env: Env): bool {
    if c.op.Exists? then c.path in f.fields
    else if c.path !in f.fields then false else
    var r := Eval(w, c.rhs, Some(f), env);
    r.Some? && CompareValues(c.op, f.fields[c.path], r.value) == Some(true)
  }

  predicate IsVariable(e: Element) {
    e.Segment? || e.RestWildcard?
  }

  /** Index of the last variable-length element, or -1. */
  function VariableIndex(es: seq<Element>): (i: int)
    ensures -1 <= i < |es|
    ensures i >= 0 ==> IsVariable(es[i])
    ensures forall k :: i < k < |es| ==> !IsVariable(es[k])
  {
    if es == [] then -1
    else if IsVariable(es[|es| - 1]) then |es| - 1
    else VariableIndex(es[..|es| - 1])
  }

  function ElementMatches(w: World, e: Element, item: Value, f: Fact, env: Env): bool {
    match e
    case ValueElement(x) => Eval(w, x, Some(f), env) == Some(item)
    case Wildcard => true
    case _ => false
  }

  ghost predicate ItemsMatch(w: World, es: seq<Element>, items: seq<Value>, f: Fact, env: Env) {
    var v := VariableIndex(es);
    if v < 0 then
      |items| == |es| && forall i :: 0 <= i < |es| ==> ElementMatches(w, es[i], items[i], f, env)
    else
      && |items| >= |es| - 1
      && (forall i :: 0 <= i < v ==> ElementMatches(w, es[i], items[i], f, env))
      && (forall i :: v < i < |es| ==> ElementMatches(w, es[i], items[|items| - |es| + i], f, env))
  }

  ghost predicate PatternHolds(w: World, p: ListPattern, f: Fact, env: Env) {
    p.path in f.fields && f.fields[p.path].List? && ItemsMatch(w, p.elements, f.fields[p.path].items, f, env)
  }

  function JoinHolds(j: Join, f: Fact, env: Env): bool {
    JoinRel(j.op, FieldOf(f, j.path), BoundField(env, j.refBinding, j.refPath))
  }

  ghost predicate AcceptsLocal(w: World, s: MatchSpec, f: Fact, env: Env) {
    && s.target == Some(f.target)
    && (forall c :: c in s.constraints ==> ConstraintHolds(w, c, f, env))
    && (forall p :: p in s.patterns ==> PatternHolds(w, p, f, env))
    && (forall e :: e in s.predicates ==> True(Eval(w, e, Some(f), env)))
  }

  ghost predicate Accepts(w: World, s: MatchSpec, f: Fact, env: Env) {
    AcceptsLocal(w, s, f, env) && forall j :: j in s.joins ==> JoinHolds(j, f, env)
  }

  /** The slice of the list captured by the variable-length element. */
  function Captured(p: ListPattern, f: Fact): Value {
    var v := VariableIndex(p.elements);
    if v >= 0 && p.path in f.fields && f.fields[p.path].List? && |f.fields[p.path].items| >= |p.elements| - 1 then
      var items := f.fields[p.path].items;
      List(items[v..|items| - (|p.elements| - 1 - v)])
    else List([])
  }

  function Captures(ps: seq<ListPattern>, f: Fact): Env {
    if ps == [] then map[] else
    var v := VariableIndex(ps[0].elements);
    var rest := Captures(ps[1..], f);
    if v >= 0 && ps[0].elements[v].Segment? && ps[0].elements[v].binding != ""
    then rest[ps[0].elements[v].binding := ValueRef(Captured(ps[0], f))]
    else rest
  }

  /** The bindings a visible match makes for a fact. */
  function Extension(s: MatchSpec, f: Fact): Env {
    Captures(s.patterns, f)[s.binding := FactRef(f)]
  }

  ghost function MatchExtensions(w: World, s: MatchSpec, env: Env): set<Env> {
    set f | f in w.facts && Accepts(w, s, f, env) :: Extension(s, f)
  }

  // ----- Conditions and branches ---------------------------------------------

  /** Local matches of the conjunction an aggregate ranges over. */
  ghost function InputMatches(w: World, ss: seq<MatchSpec>, env: Env): set<Env> {
    if ss == [] then {map[]} else
    set d, m | d in MatchExtensions(w, ss[0], env) && m in InputMatches(w, ss[1..], env + d) :: d + m
  }

  ghost function Folded(w: World, spec: AggregateSpec, matches: set<Env>, env: Env): Option<Value> {
    w.fold(spec.kind, map m | m in matches :: if spec.expr.Some? then Eval(w, spec.expr.value, None, env + m) else None)
  }

  ghost function AggregateResult(w: World, specs: seq<AggregateSpec>, matches: set<Env>, env: Env): Option<Env> {
    if specs == [] then Some(map[]) else
    var v := Folded(w, specs[0], matches, env);
    var rest := AggregateResult(w, specs[1..], matches, env);
    if v.None? || rest.None? then None
    else if specs[0].binding == "" then rest
    else Some(rest.value[specs[0].binding := ValueRef(v.value)])
  }

  ghost function TreeMatches(w: World, t: Tree, env: Env): set<Env>
    decreases t, 1
  {
    match t
    case MatchTree(s) => MatchExtensions(w, s, env)
    case AndTree(ts) => SequenceMatches(w, ts, env)
    case OrTree(ts) => AlternativeMatches(w, ts, env)
    case NotTree(c) => if TreeMatches(w, c, env) == {} then {map[]} else {}
    case TestTree(e) => if True(Eval(w, e, None, env)) then {map[]} else {}
    case QuantifiedTree(kind, input, requirement) =>
      var ms := TreeMatches(w, input, env);
      if (if kind.ExistsKind? then ms != {} else forall m :: m in ms ==> TreeMatches(w, requirement, env + m) != {})
      then {map[]} else {}
  }

  ghost function SequenceMatches(w: World, ts: seq<Tree>, env: Env): set<Env>
    decreases ts, 0
  {
    if ts == [] then {map[]} else
    set d, m | d in TreeMatches(w, ts[0], env) && m in SequenceMatches(w, ts[1..], env + d) :: d + m
  }

  ghost function AlternativeMatches(w: World, ts: seq<Tree>, env: Env): set<Env>
    decreases ts, 0
  {
    if ts == [] then {} else TreeMatches(w, ts[0], env) + AlternativeMatches(w, ts[1..], env)
  }

  /** The extensions of `env` one condition allows. */
  ghost function Extensions(w: World, c: Condition, env: Env): set<Env> {
    match c
    case Match(s, visible, negated) =>
      if visible && !negated then MatchExtensions(w, s, env)
      else if (MatchExtensions(w, s, env) == {}) == negated then {map[]}
      else {}
    case Test(e) => if True(Eval(w, e, None, env)) then {map[]} else {}
    case Aggregate(input, specs) =>
      var r := AggregateResult(w, specs, InputMatches(w, input, env), env);
      if r.Some? then {r.value} else {}
    case HigherOrder(kind, domain, requirement) =>
      TreeMatches(w, QuantifiedTree(kind, domain, requirement), env)
  }

  /** The complete matches of a branch that extend `env`. */
  ghost function Matches(w: World, cs: seq<Condition>, env: Env): set<Env> {
    if cs == [] then {env} else
    set d, m | d in Extensions(w, cs[0], env) && m in Matches(w, cs[1..], env + d) :: m
  }

  // ----- Well-formed conditions -----------------------------------------------

  /** At most one variable-length element, and constants for the others. */
  predicate WellFormedPattern(p: ListPattern) {
    && (forall i, j :: 0 <= i < j < |p.elements| ==> !IsVariable(p.elements[i]) || !IsVariable(p.elements[j]))
    && (forall e :: e in p.elements && e.ValueElement? ==> e.e.Const?)
  }

  predicate WellFormed(c: Condition) {
    match c
    case Match(s, visible, negated) =>
      && s.binding != ""
      && (forall p :: p in s.patterns ==> WellFormedPattern(p))
      && s.binding !in PatternSegments(s.patterns)
      && (negated ==> !visible)
    case HigherOrder(_, _, _) => true
    case _ => true
  }

  lemma {:induction false} SegmentsOfPattern(es: seq<Element>)
    requires forall i, j :: 0 <= i < j < |es| ==> !IsVariable(es[i]) || !IsVariable(es[j])
    ensures SegmentNames(es) == (var v := VariableIndex(es); if v >= 0 && es[v].Segment? then Named(es[v].binding) else {})
  {
    if es != [] {
      var v := VariableIndex(es);
      assert forall i, j :: 0 <= i < j < |es[1..]| ==> es[1..][i] == es[i + 1] && es[1..][j] == es[j + 1];
      SegmentsOfPattern(es[1..]);
      var u := VariableIndex(es[1..]);
      if v > 0 {
        assert es[1..][v - 1] == es[v];
        assert u == v - 1;
      } else {
        assert forall k :: 0 <= k < |es[1..]| ==> !IsVariable(es[1..][k]);
      }
    }
  }

  lemma {:induction false} CapturesKeys(ps: seq<ListPattern>, f: Fact)
    requires forall p :: p in ps ==> WellFormedPattern(p)
    ensures Captures(ps, f).Keys == PatternSegments(ps)
  {
    if ps != [] {
      assert ps[0] in ps;
      SegmentsOfPattern(ps[0].elements);
      CapturesKeys(ps[1..], f);
    }
  }

  lemma {:induction false} AggregateKeys(w: World, specs: seq<AggregateSpec>, matches: set<Env>, env: Env)
    ensures var r := AggregateResult(w, specs, matches, env); r.Some? ==> r.value.Keys == AggregateBindings(specs)
  {
    if specs != [] { AggregateKeys(w, specs[1..], matches, env); }
  }

  /** An extension binds exactly what the condition defines. */
  lemma ExtensionKeys(w: World, c: Condition, env: Env, d: Env)
    requires WellFormed(c)
    requires d in Extensions(w, c, env)
    ensures d.Keys == Defines(c)
  {
    match c
    case Match(s, visible, negated) =>
      if visible && !negated {
        var f :| f in w.facts && Accepts(w, s, f, env) && d == Extension(s, f);
        CapturesKeys(s.patterns, f);
      }
    case Test(_) =>
    case Aggregate(input, specs) =>
      AggregateKeys(w, specs, InputMatches(w, input, env), env);
    case HigherOrder(_, _, _) =>
  }

  // ----- Locality -------------------------------------------------------------

  predicate Agree(e1: Env, e2: Env, names: set<Name>) {
    forall n :: n in names ==> (n in e1 <==> n in e2) && (n in e1 ==> e1[n] == e2[n])
  }

  /** An expression reads only the bindings its collector reports. */
  lemma {:induction false} EvalLocal(w: World, e: Expr, current: Option<Fact>, e1: Env, e2: Env)
    requires Agree(e1, e2, ExprNames(e))
    ensures Eval(w, e, current, e1) == Eval(w, e, current, e2)
    decreases e, 1
  {
    match e
    case Call(_, args) => EvalAllLocal(w, args, current, e1, e2);
    case Compare(_, l, r) =>
      EvalLocal(w, l, current, e1, e2);
      EvalLocal(w, r, current, e1, e2);
    case Boolean(c, es) =>
      EvalUntilLocal(w, es, current, e1, e2, c.Or?);
      if |es| == 1 { EvalLocal(w, es[0], current, e1, e2); }
    case BindingField(b, _) => if b != "" { assert b in ExprNames(e); }
    case BindingValue(b) => if b != "" { assert b in ExprNames(e); }
    case _ =>
  }

  lemma {:induction false} EvalAllLocal(w: World, es: seq<Expr>, current: Option<Fact>, e1: Env, e2: Env)
    requires Agree(e1, e2, ExprsNames(es))
    ensures EvalAll(w, es, current, e1) == EvalAll(w, es, current, e2)
    decreases es, 0
  {
    if es != [] {
      EvalLocal(w, es[0], current, e1, e2);
      EvalAllLocal(w, es[1..], current, e1, e2);
    }
  }

  lemma {:induction false} EvalUntilLocal(w: World, es: seq<Expr>, current: Option<Fact>, e1: Env, e2: Env, stop: bool)
    requires Agree(e1, e2, ExprsNames(es))
    ensures EvalUntil(w, es, current, e1, stop) == EvalUntil(w, es, current, e2, stop)
    decreases es, 0
  {
    if es != [] {
      EvalLocal(w, es[0], current, e1, e2);
      EvalUntilLocal(w, es[1..], current, e1, e2, stop);
    }
  }

  lemma {:induction false} ExprNamesIn(es: seq<Expr>, e: Expr)
    requires e in es
    ensures ExprNames(e) <= ExprsNames(es)
  {
    if e != es[0] { ExprNamesIn(es[1..], e); }
  }

  lemma {:induction false} ConstraintNamesIn(cs: seq<FieldConstraint>, c: FieldConstraint)
    requires c in cs
    ensures ExprNames(c.rhs) <= ConstraintNames(cs)
  {
    if c != cs[0] { ConstraintNamesIn(cs[1..], c); }
  }

  lemma {:induction false} JoinNamesIn(js: seq<Join>, j: Join)
    requires j in js
    ensures Named(j.refBinding) <= JoinNames(js)
  {
    if j != js[0] { JoinNamesIn(js[1..], j); }
  }

  /** A constant pattern reads no binding. */
  lemma PatternLocal(w: World, p: ListPattern, f: Fact, e1: Env, e2: Env)
    requires WellFormedPattern(p)
    ensures PatternHolds(w, p, f, e1) == PatternHolds(w, p, f, e2)
  {
    assert forall i, v :: 0 <= i < |p.elements| ==>
      (p.elements[i] in p.elements && ElementMatches(w, p.elements[i], v, f, e1) == ElementMatches(w, p.elements[i], v, f, e2));
  }

  lemma AcceptsLocalLocal(w: World, s: MatchSpec, f: Fact, e1: Env, e2: Env)
    requires forall p :: p in s.patterns ==> WellFormedPattern(p)
    requires Agree(e1, e2, SpecHardNames(s))
    ensures AcceptsLocal(w, s, f, e1) == AcceptsLocal(w, s, f, e2)
  {
    forall c | c in s.constraints
      ensures ConstraintHolds(w, c, f, e1) == ConstraintHolds(w, c, f, e2)
    {
      ConstraintNamesIn(s.constraints, c);
      EvalLocal(w, c.rhs, Some(f), e1, e2);
    }
    forall e | e in s.predicates
      ensures Eval(w, e, Some(f), e1) == Eval(w, e, Some(f), e2)
    {
      ExprNamesIn(s.predicates, e);
      EvalLocal(w, e, Some(f), e1, e2);
    }
    forall p | p in s.patterns
      ensures PatternHolds(w, p, f, e1) == PatternHolds(w, p, f, e2)
    {
      PatternLocal(w, p, f, e1, e2);
    }
  }

  /** Matching one fact depends only on the bindings the match names. */
  lemma AcceptsDependsOnNames(w: World, s: MatchSpec, f: Fact, e1: Env, e2: Env)
    requires forall p :: p in s.patterns ==> WellFormedPattern(p)
    requires Agree(e1, e2, SpecHardNames(s) + JoinNames(s.joins))
    ensures Accepts(w, s, f, e1) == Accepts(w, s, f, e2)
  {
    AcceptsLocalLocal(w, s, f, e1, e2);
    forall j | j in s.joins
      ensures JoinHolds(j, f, e1) == JoinHolds(j, f, e2)
    {
      JoinNamesIn(s.joins, j);
      if j.refBinding != "" { assert j.refBinding in JoinNames(s.joins); }
    }
  }

  lemma MatchLocal(w: World, c: Condition, e1: Env, e2: Env)
    requires c.Match? && WellFormed(c)
    requires Agree(e1, e2, SpecHardNames(c.spec) + JoinNames(c.spec.joins))
    ensures Extensions(w, c, e1) == Extensions(w, c, e2)
  {
    forall f | f in w.facts
      ensures Accepts(w, c.spec, f, e1) == Accepts(w, c.spec, f, e2)
    {
      AcceptsDependsOnNames(w, c.spec, f, e1, e2);
    }
    assert MatchExtensions(w, c.spec, e1) == MatchExtensions(w, c.spec, e2);
  }

  // ----- Complete matches as a conjunction --------------------------------------

  function Restrict(m: Env, names: set<Name>): Env {
    map n | n in m && n in names :: m[n]
  }

  function DefinesAll(cs: seq<Condition>): set<Name> {
    if cs == [] then {} else Defines(cs[0]) + DefinesAll(cs[1..])
  }

  /** Given what is bound `before` it, the condition allows what `m` binds for it. */
  ghost predicate Fits(w: World, c: Condition, m: Env, before: set<Name>) {
    Restrict(m, Defines(c)) in Extensions(w, c, Restrict(m, before))
  }

  ghost predicate Disjoint(cs: seq<Condition>) {
    forall i, j :: 0 <= i < j < |cs| ==> Defines(cs[i]) !! Defines(cs[j])
  }

  lemma {:induction false} DefinesAllWitness(cs: seq<Condition>, n: Name) returns (i: nat)
    requires n in DefinesAll(cs)
    ensures i < |cs| && n in Defines(cs[i])
  {
    if n in Defines(cs[0]) {
      i := 0;
    } else {
      i := DefinesAllWitness(cs[1..], n);
      i := i + 1;
    }
  }

  ghost predicate FitsAll(w: World, cs: seq<Condition>, m: Env, before: set<Name>) {
    forall i :: 0 <= i < |cs| ==> Fits(w, cs[i], m, before + DefinesAll(cs[..i]))
  }

  lemma FitsAllCons(w: World, cs: seq<Condition>, m: Env, before: set<Name>)
    requires cs != []
    ensures FitsAll(w, cs, m, before) <==>
            Fits(w, cs[0], m, before) && FitsAll(w, cs[1..], m, before + Defines(cs[0]))
  {
    assert before + DefinesAll(cs[..0]) == before;
    forall i | 0 < i < |cs|
      ensures before + DefinesAll(cs[..i]) == before + Defines(cs[0]) + DefinesAll(cs[1..][..i - 1])
      ensures cs[1..][i - 1] == cs[i]
    {
      assert cs[..i][1..] == cs[1..][..i - 1];
    }
    if FitsAll(w, cs, m, before) {
      assert Fits(w, cs[0], m, before + DefinesAll(cs[..0]));
      forall i | 0 <= i < |cs[1..]|
        ensures Fits(w, cs[1..][i], m, before + Defines(cs[0]) + DefinesAll(cs[1..][..i]))
      {
        assert Fits(w, cs[i + 1], m, before + DefinesAll(cs[..i + 1]));
      }
    }
    if Fits(w, cs[0], m, before) && FitsAll(w, cs[1..], m, before + Defines(cs[0])) {
      forall i | 0 <= i < |cs|
        ensures Fits(w, cs[i], m, before + DefinesAll(cs[..i]))
      {
        if i > 0 { assert Fits(w, cs[1..][i - 1], m, before + Defines(cs[0]) + DefinesAll(cs[1..][..i - 1])); }
      }
    }
  }

  lemma RestrictUnion(m: Env, e: Env, d: Env)
    requires e.Keys !! d.Keys
    ensures Restrict(m, (e + d).Keys) == e + d <==> Restrict(m, e.Keys) == e && Restrict(m, d.Keys) == d
  {
    if Restrict(m, (e + d).Keys) == e + d {
      assert forall n :: n in e + d ==> n in Restrict(m, (e + d).Keys) && m[n] == (e + d)[n];
      assert forall n :: n in e ==> (e + d)[n] == e[n];
    }
    if Restrict(m, e.Keys) == e && Restrict(m, d.Keys) == d {
      assert forall n :: n in e ==> n in Restrict(m, e.Keys) && m[n] == e[n];
      assert forall n :: n in d ==> n in Restrict(m, d.Keys) && m[n] == d[n];
    }
  }

  lemma HeadDisjoint(cs: seq<Condition>)
    requires cs != [] && Disjoint(cs)
    ensures Disjoint(cs[1..]) && Defines(cs[0]) !! DefinesAll(cs[1..])
  {
    forall i, j | 0 <= i < j < |cs[1..]|
      ensures Defines(cs[1..][i]) !! Defines(cs[1..][j])
    {
      assert Defines(cs[i + 1]) !! Defines(cs[j + 1]);
    }
    forall n | n in DefinesAll(cs[1..])
      ensures n !in Defines(cs[0])
    {
      var i := DefinesAllWitness(cs[1..], n);
      assert Defines(cs[0]) !! Defines(cs[i + 1]);
    }
  }

  ghost predicate IsMatch(w: World, cs: seq<Condition>, env: Env, m: Env) {
    m.Keys == env.Keys + DefinesAll(cs) && Restrict(m, env.Keys) == env && FitsAll(w, cs, m, env.Keys)
  }

  /** Peeling the first condition off a complete match. */
  lemma IsMatchCons(w: World, cs: seq<Condition>, env: Env, m: Env, d: Env)
    requires cs != [] && Disjoint(cs) && env.Keys !! DefinesAll(cs)
    requires d.Keys == Defines(cs[0])
    ensures IsMatch(w, cs, env, m) && d == Restrict(m, Defines(cs[0])) <==>
            d in Extensions(w, cs[0], env) && IsMatch(w, cs[1..], env + d, m)
  {
    FitsAllCons(w, cs, m, env.Keys);
    HeadDisjoint(cs);
    RestrictUnion(m, env, d);
    assert (env + d).Keys == env.Keys + Defines(cs[0]);
  }

  /**
   The complete matches are exactly the environments over all the defined names
   that every condition fits, given the names defined before it.
   */
  lemma {:induction false} MatchesAsConjunction(w: World, cs: seq<Condition>, env: Env, m: Env)
    requires forall c :: c in cs ==> WellFormed(c)
    requires Disjoint(cs)
    requires env.Keys !! DefinesAll(cs)
    ensures m in Matches(w, cs, env) <==> IsMatch(w, cs, env, m)
    decreases |cs|
  {
    if cs == [] {
      assert m.Keys == env.Keys ==> Restrict(m, env.Keys) == m;
    } else {
      HeadDisjoint(cs);
      assert cs[0] in cs;
      if m in Matches(w, cs, env) {
        var d :| d in Extensions(w, cs[0], env) && m in Matches(w, cs[1..], env + d);
        ExtensionKeys(w, cs[0], env, d);
        MatchesAsConjunction(w, cs[1..], env + d, m);
        IsMatchCons(w, cs, env, m, d);
      }
      if IsMatch(w, cs, env, m) {
        var d := Restrict(m, Defines(cs[0]));
        assert d.Keys == Defines(cs[0]);
        IsMatchCons(w, cs, env, m, d);
        MatchesAsConjunction(w, cs[1..], env + d, m);
      }
    }
  }
}
