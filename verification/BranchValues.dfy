/**
 What conditions say of values: joins and comparisons, list patterns and what they capture, and the
 connectives, which stop at the first operand that decides.
 */
module BranchValues {
  import opened Options
  import opened Texts
  import opened BranchSyntax
  import opened BranchSemantics

  // ----- Comparing --------------------------------------------------------------------

  /** Numbers join by their order. */
  lemma JoinOnNumbers(op: Op, x: real, y: real)
    ensures JoinRel(op, Some(Num(x)), Some(Num(y))) ==
            match op
            case Eq => x == y
            case Ne => x != y
            case Lt => x < y
            case Le => x < y || x == y
            case Gt => y < x
            case Ge => y < x || x == y
            case _ => false
  {
  }

  predicate SameKind(a: Value, b: Value) {
    (a.Null? && b.Null?) || (a.Bool? && b.Bool?) || (a.Num? && b.Num?) || (a.Str? && b.Str?) || (a.List? && b.List?) || (a.Dict? && b.Dict?)
  }

  /** Other values join by equality within their kind, and only so; without a value nothing joins. */
  lemma JoinOnOthers(op: Op, a: Value, b: Value)
    requires !(a.Num? && b.Num?)
    ensures JoinRel(op, Some(a), Some(b)) ==> op.Eq? || op.Ne?
    ensures JoinRel(Eq, Some(a), Some(b)) <==> a == b
    ensures JoinRel(Ne, Some(a), Some(b)) <==> a != b && SameKind(a, b)
    ensures !JoinRel(op, None, Some(a)) && !JoinRel(op, Some(a), None) && !JoinRel(op, None, None)
  {
  }

  /** Texts compare in dictionary order. */
  lemma CompareTexts(s: string, t: string)
    ensures CompareValues(Lt, Str(s), Str(t)) == Some(Earlier(s, t)) && CompareValues(Gt, Str(s), Str(t)) == Some(Earlier(t, s))
    ensures CompareValues(Le, Str(s), Str(t)) == Some(!Earlier(t, s)) && CompareValues(Ge, Str(s), Str(t)) == Some(!Earlier(s, t))
  {
    hide Earlier, TextLess;
    TextLessMeaning(s, t);
    TextLessMeaning(t, s);
    TextOrder(s, t, s);
  }

  /** Numbers compare as they join. */
  lemma CompareNumbers(op: Op, x: real, y: real)
    requires !op.Exists? && !op.In?
    ensures CompareValues(op, Num(x), Num(y)) == Some(JoinRel(op, Some(Num(x)), Some(Num(y))))
  {
  }

  // ----- List patterns -------------------------------------------------------------------

  /** Each element matches the item in its place. */
  ghost predicate EachMatches(w: World, es: seq<Element>, items: seq<Value>, f: Fact, env: Env) {
    |es| == |items| && forall i :: 0 <= i < |es| ==> ElementMatches(w, es[i], items[i], f, env)
  }

  /** The list is a beginning for the elements before `v`, something between, and an end for those after it. */
  ghost predicate Parted(w: World, es: seq<Element>, v: nat, a: seq<Value>, b: seq<Value>, c: seq<Value>, items: seq<Value>, f: Fact, env: Env)
    requires v < |es|
  {
    items == a + b + c && EachMatches(w, es[..v], a, f, env) && EachMatches(w, es[v + 1..], c, f, env)
  }

  /** A pattern without an element of variable length fits a list item by item. */
  lemma FixedPattern(w: World, p: ListPattern, f: Fact, env: Env)
    requires forall i :: 0 <= i < |p.elements| ==> !IsVariable(p.elements[i])
    ensures PatternHolds(w, p, f, env) <==> p.path in f.fields && f.fields[p.path].List? && EachMatches(w, p.elements, f.fields[p.path].items, f, env)
  {
  }

  /** One with such an element fits a beginning and an end of the list, and captures what lies between, perhaps nothing. */
  lemma VariablePattern(w: World, p: ListPattern, f: Fact, env: Env, v: nat)
    requires v < |p.elements| && IsVariable(p.elements[v]) && forall i :: 0 <= i < |p.elements| && i != v ==> !IsVariable(p.elements[i])
    ensures PatternHolds(w, p, f, env) <==>
              && p.path in f.fields && f.fields[p.path].List?
              && exists a, b, c :: Parted(w, p.elements, v, a, b, c, f.fields[p.path].items, f, env)
    ensures p.path in f.fields ==> forall a, b, c :: f.fields[p.path] == List(a + b + c) && |a| == v && |c| == |p.elements| - v - 1 ==>
              Captured(p, f) == List(b)
  {
    assert VariableIndex(p.elements) == v;
    if p.path in f.fields && f.fields[p.path].List? {
      var items := f.fields[p.path].items;
      if PatternHolds(w, p, f, env) { var _, _, _ := Splits(w, p.elements, items, f, env, v); }
      if a, b, c :| Parted(w, p.elements, v, a, b, c, items, f, env) {
        Joins(w, p.elements, a, b, c, items, f, env, v);
      }
      forall a, b, c | items == a + b + c && |a| == v && |c| == |p.elements| - v - 1
        ensures Captured(p, f) == List(b)
      {
        assert (a + b + c)[|a|..|a| + |b|] == b;
      }
    }
  }

  /** The elements from `from` to `to` match the items some way off. */
  ghost predicate RunFits(w: World, es: seq<Element>, from: nat, to: nat, items: seq<Value>, shift: int, f: Fact, env: Env)
    requires from <= to <= |es| && 0 <= shift + from && shift + to <= |items|
  {
    forall i :: from <= i < to ==> ElementMatches(w, es[i], items[shift + i], f, env)
  }

  lemma RunMatches(w: World, es: seq<Element>, from: nat, to: nat, items: seq<Value>, shift: int, f: Fact, env: Env)
    requires from <= to <= |es| && 0 <= shift + from && shift + to <= |items|
    ensures EachMatches(w, es[from..to], items[shift + from..shift + to], f, env) <==> RunFits(w, es, from, to, items, shift, f, env)
  {
    hide ElementMatches;
    var run, part := es[from..to], items[shift + from..shift + to];
    assert forall i :: 0 <= i < |run| ==> run[i] == es[from + i] && part[i] == items[shift + (from + i)];
    if EachMatches(w, run, part, f, env) {
      forall i | from <= i < to
        ensures ElementMatches(w, es[i], items[shift + i], f, env)
      {
        assert ElementMatches(w, run[i - from], part[i - from], f, env);
      }
    }
  }

  lemma RunsAround(w: World, es: seq<Element>, items: seq<Value>, f: Fact, env: Env, v: nat)
    requires v < |es| && VariableIndex(es) == v
    ensures ItemsMatch(w, es, items, f, env) <==>
              |items| >= |es| - 1 && RunFits(w, es, 0, v, items, 0, f, env) && RunFits(w, es, v + 1, |es|, items, |items| - |es|, f, env)
  {
    hide ElementMatches, VariableIndex;
  }

  /** Fitting around the variable element is fitting a beginning and an end. */
  lemma AroundVariable(w: World, es: seq<Element>, items: seq<Value>, f: Fact, env: Env, v: nat)
    requires v < |es| && VariableIndex(es) == v
    ensures ItemsMatch(w, es, items, f, env) <==>
              && |items| >= |es| - 1 && EachMatches(w, es[..v], items[..v], f, env)
              && EachMatches(w, es[v + 1..], items[|items| - |es| + (v + 1)..], f, env)
  {
    hide EachMatches, VariableIndex, ItemsMatch, RunFits;
    RunsAround(w, es, items, f, env, v);
    Ends(es, 0, v);
    Ends(es, v + 1, |es|);
    if |items| >= |es| - 1 {
      RunMatches(w, es, 0, v, items, 0, f, env);
      RunMatches(w, es, v + 1, |es|, items, |items| - |es|, f, env);
      Ends(items, 0, v);
      Ends(items, |items| - |es| + (v + 1), |items|);
    }
  }

  lemma Ends<T>(s: seq<T>, from: nat, to: nat)
    requires from <= to <= |s|
    ensures from == 0 ==> s[from..to] == s[..to]
    ensures to == |s| ==> s[from..to] == s[from..]
  {
  }

  lemma ThreeParts<T>(s: seq<T>, a: seq<T>, b: seq<T>, c: seq<T>)
    requires s == a + b + c
    ensures s[..|a|] == a && s[|s| - |c|..] == c
  {
  }

  lemma Splits(w: World, es: seq<Element>, items: seq<Value>, f: Fact, env: Env, v: nat)
    returns (a: seq<Value>, b: seq<Value>, c: seq<Value>)
    requires v < |es| && VariableIndex(es) == v && ItemsMatch(w, es, items, f, env)
    ensures Parted(w, es, v, a, b, c, items, f, env)
  {
    AroundVariable(w, es, items, f, env, v);
    hide EachMatches, VariableIndex, ItemsMatch;
    var last := |items| - |es| + (v + 1);
    a, b, c := items[..v], items[v..last], items[last..];
    assert items == a + b + c;
  }

  lemma Joins(w: World, es: seq<Element>, a: seq<Value>, b: seq<Value>, c: seq<Value>, items: seq<Value>, f: Fact, env: Env, v: nat)
    requires v < |es| && VariableIndex(es) == v && Parted(w, es, v, a, b, c, items, f, env)
    ensures ItemsMatch(w, es, items, f, env)
  {
    assert |a| == v && |c| == |es| - v - 1;
    hide EachMatches, VariableIndex, ItemsMatch;
    ThreeParts(items, a, b, c);
    assert |items| - |es| + (v + 1) == |items| - |c|;
    AroundVariable(w, es, items, f, env, v);
  }

  // ----- Connectives ----------------------------------------------------------------------

  predicate Says(w: World, e: Expr, current: Option<Fact>, env: Env, b: bool) {
    Eval(w, e, current, env) == Some(Bool(b))
  }

  /** The value is `stop` if some operand is and those before it are not, and its opposite if all are its opposite; else there is none. */
  lemma {:induction false} UntilMeaning(w: World, es: seq<Expr>, current: Option<Fact>, env: Env, stop: bool)
    ensures EvalUntil(w, es, current, env, stop) == Some(Bool(stop)) <==>
              exists i :: 0 <= i < |es| && Says(w, es[i], current, env, stop) && forall k :: 0 <= k < i ==> Says(w, es[k], current, env, !stop)
    ensures EvalUntil(w, es, current, env, stop) == Some(Bool(!stop)) <==> forall i :: 0 <= i < |es| ==> Says(w, es[i], current, env, !stop)
    ensures var r := EvalUntil(w, es, current, env, stop); r.Some? ==> r.value.Bool?
  {
    hide Eval;
    if es != [] {
      UntilMeaning(w, es[1..], current, env, stop);
      if Says(w, es[0], current, env, !stop) { Tails(w, es, current, env, stop); }
      if i :| 0 <= i < |es| && Says(w, es[i], current, env, stop) && forall k :: 0 <= k < i ==> Says(w, es[k], current, env, !stop) {
        if i > 0 { assert Says(w, es[0], current, env, !stop); }
      }
    }
  }

  lemma Tails(w: World, es: seq<Expr>, current: Option<Fact>, env: Env, stop: bool)
    requires es != [] && Says(w, es[0], current, env, !stop)
    ensures (exists i :: 0 <= i < |es[1..]| && Says(w, es[1..][i], current, env, stop) && forall k :: 0 <= k < i ==> Says(w, es[1..][k], current, env, !stop)) <==>
              exists i :: 0 <= i < |es| && Says(w, es[i], current, env, stop) && forall k :: 0 <= k < i ==> Says(w, es[k], current, env, !stop)
    ensures (forall i :: 0 <= i < |es[1..]| ==> Says(w, es[1..][i], current, env, !stop)) <==> forall i :: 0 <= i < |es| ==> Says(w, es[i], current, env, !stop)
  {
    hide Eval;
    if i :| 0 <= i < |es[1..]| && Says(w, es[1..][i], current, env, stop) && forall k :: 0 <= k < i ==> Says(w, es[1..][k], current, env, !stop) {
      forall k | 0 <= k < i + 1
        ensures Says(w, es[k], current, env, !stop)
      {
        if k > 0 { assert es[k] == es[1..][k - 1]; }
      }
      assert Says(w, es[i + 1], current, env, stop);
    }
    if i :| 0 <= i < |es| && Says(w, es[i], current, env, stop) && forall k :: 0 <= k < i ==> Says(w, es[k], current, env, !stop) {
      assert i > 0;
      assert es[1..][i - 1] == es[i];
      assert forall k :: 0 <= k < i - 1 ==> es[1..][k] == es[k + 1];
    }
    if forall i :: 0 <= i < |es[1..]| ==> Says(w, es[1..][i], current, env, !stop) {
      forall i | 0 <= i < |es|
        ensures Says(w, es[i], current, env, !stop)
      {
        if i > 0 { assert es[i] == es[1..][i - 1]; }
      }
    }
  }

  /** A conjunction is true if all operands are, false if one is and all before it are true; a disjunction the other way round. */
  lemma ConnectiveMeaning(w: World, es: seq<Expr>, current: Option<Fact>, env: Env)
    ensures Says(w, Boolean(And, es), current, env, true) <==> es != [] && forall i :: 0 <= i < |es| ==> Says(w, es[i], current, env, true)
    ensures Says(w, Boolean(And, es), current, env, false) <==>
              exists i :: 0 <= i < |es| && Says(w, es[i], current, env, false) && forall k :: 0 <= k < i ==> Says(w, es[k], current, env, true)
    ensures Says(w, Boolean(Or, es), current, env, true) <==>
              exists i :: 0 <= i < |es| && Says(w, es[i], current, env, true) && forall k :: 0 <= k < i ==> Says(w, es[k], current, env, false)
    ensures Says(w, Boolean(Or, es), current, env, false) <==> es != [] && forall i :: 0 <= i < |es| ==> Says(w, es[i], current, env, false)
  {
    UntilMeaning(w, es, current, env, false);
    UntilMeaning(w, es, current, env, true);
    assert Eval(w, Boolean(And, es), current, env) == if es == [] then None else EvalUntil(w, es, current, env, false);
    assert Eval(w, Boolean(Or, es), current, env) == if es == [] then None else EvalUntil(w, es, current, env, true);
  }

  // ----- Matches and negations -----------------------------------------------------------------

  /** A negation lets the bindings through exactly if no fact is accepted; a hidden match exactly if some fact is; neither binds. */
  lemma HiddenMeaning(w: World, s: MatchSpec, env: Env)
    ensures forall d :: d in Extensions(w, Match(s, false, true), env) <==> d == map[] && forall f :: f in w.facts ==> !Accepts(w, s, f, env)
    ensures forall d :: d in Extensions(w, Match(s, false, false), env) <==> d == map[] && exists f :: f in w.facts && Accepts(w, s, f, env)
  {
    hide Accepts, Extension;
    if f :| f in w.facts && Accepts(w, s, f, env) { assert Extension(s, f) in MatchExtensions(w, s, env); }
  }

  /** A visible match binds its name to each fact it accepts. */
  lemma VisibleMeaning(w: World, s: MatchSpec, env: Env)
    requires s.binding !in PatternSegments(s.patterns) && forall p :: p in s.patterns ==> WellFormedPattern(p)
    ensures forall f :: f in w.facts && Accepts(w, s, f, env) ==>
              exists d: Env :: d in Extensions(w, Match(s, true, false), env) && s.binding in d && d[s.binding] == FactRef(f)
    ensures forall d: Env :: d in Extensions(w, Match(s, true, false), env) ==>
              s.binding in d && d[s.binding].FactRef? && d[s.binding].fact in w.facts && Accepts(w, s, d[s.binding].fact, env)
  {
    hide Accepts;
    forall f | f in w.facts && Accepts(w, s, f, env)
      ensures exists d: Env :: d in Extensions(w, Match(s, true, false), env) && s.binding in d && d[s.binding] == FactRef(f)
    {
      var d := Extension(s, f);
      assert d in Extensions(w, Match(s, true, false), env) && s.binding in d;
    }
  }
}
