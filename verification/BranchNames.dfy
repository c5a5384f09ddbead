/**
 Which names a condition reads and which it defines, said of its parts.
 */
module BranchNames {
  import opened BranchSyntax
  import opened BranchPlanner

  /** The name occurs in the expression as that of a binding. */
  predicate Mentions(e: Expr, name: Name)
    decreases e
  {
    match e
    case BindingField(b, _) => b == name && name != ""
    case BindingValue(b) => b == name && name != ""
    case Call(_, args) => exists i :: 0 <= i < |args| && Mentions(args[i], name)
    case Compare(_, l, r) => Mentions(l, name) || Mentions(r, name)
    case Boolean(_, operands) => exists i :: 0 <= i < |operands| && Mentions(operands[i], name)
    case _ => false
  }

  lemma {:induction false} ExprMeaning(e: Expr, name: Name)
    ensures name in ExprNames(e) <==> Mentions(e, name)
    decreases e, 1
  {
    match e
    case Call(_, args) => ExprsMeaning(args, name);
    case Boolean(_, operands) => ExprsMeaning(operands, name);
    case Compare(_, l, r) =>
      ExprMeaning(l, name);
      ExprMeaning(r, name);
    case _ =>
  }

  lemma {:induction false} ExprsMeaning(es: seq<Expr>, name: Name)
    ensures name in ExprsNames(es) <==> exists i :: 0 <= i < |es| && Mentions(es[i], name)
    decreases es, 0
  {
    hide Mentions;
    if es != [] {
      ExprMeaning(es[0], name);
      ExprsMeaning(es[1..], name);
      if i :| 0 <= i < |es| && Mentions(es[i], name) {
        if i > 0 { assert es[1..][i - 1] == es[i]; }
      }
      if i :| 0 <= i < |es[1..]| && Mentions(es[1..][i], name) { assert Mentions(es[i + 1], name); }
    }
  }

  lemma {:induction false} ConstraintsMeaning(cs: seq<FieldConstraint>, name: Name)
    ensures name in ConstraintNames(cs) <==> exists i :: 0 <= i < |cs| && Mentions(cs[i].rhs, name)
  {
    hide Mentions;
    if cs != [] {
      ExprMeaning(cs[0].rhs, name);
      ConstraintsMeaning(cs[1..], name);
      if i :| 0 <= i < |cs| && Mentions(cs[i].rhs, name) {
        if i > 0 { assert cs[1..][i - 1] == cs[i]; }
      }
      if i :| 0 <= i < |cs[1..]| && Mentions(cs[1..][i].rhs, name) { assert Mentions(cs[i + 1].rhs, name); }
    }
  }

  lemma {:induction false} JoinsMeaning(js: seq<Join>, name: Name)
    ensures name in JoinNames(js) <==> name != "" && exists i :: 0 <= i < |js| && js[i].refBinding == name
  {
    if js != [] {
      JoinsMeaning(js[1..], name);
      if i :| 0 <= i < |js| && js[i].refBinding == name {
        if i > 0 { assert js[1..][i - 1] == js[i]; }
      }
      if i :| 0 <= i < |js[1..]| && js[1..][i].refBinding == name { assert js[i + 1].refBinding == name; }
    }
  }

  predicate ReadBy(e: Element, name: Name) {
    e.ValueElement? && Mentions(e.e, name)
  }

  lemma {:induction false} ElementsMeaning(es: seq<Element>, name: Name)
    ensures name in ElementNames(es) <==> exists i :: 0 <= i < |es| && ReadBy(es[i], name)
    ensures name in SegmentNames(es) <==> name != "" && exists i :: 0 <= i < |es| && es[i] == Segment(name)
  {
    hide Mentions;
    if es != [] {
      if es[0].ValueElement? { ExprMeaning(es[0].e, name); }
      ElementsMeaning(es[1..], name);
      if i :| 0 <= i < |es| && ReadBy(es[i], name) {
        if i > 0 { assert es[1..][i - 1] == es[i]; }
      }
      if i :| 0 <= i < |es[1..]| && ReadBy(es[1..][i], name) { assert ReadBy(es[i + 1], name); }
      if i :| 0 <= i < |es| && es[i] == Segment(name) {
        if i > 0 { assert es[1..][i - 1] == es[i]; }
      }
      if i :| 0 <= i < |es[1..]| && es[1..][i] == Segment(name) { assert es[i + 1] == Segment(name); }
    }
  }

  predicate PatternReads(p: ListPattern, name: Name) {
    exists i :: 0 <= i < |p.elements| && ReadBy(p.elements[i], name)
  }

  predicate PatternBinds(p: ListPattern, name: Name) {
    exists i :: 0 <= i < |p.elements| && p.elements[i] == Segment(name)
  }

  lemma {:induction false} PatternsMeaning(ps: seq<ListPattern>, name: Name)
    ensures name in PatternNames(ps) <==> exists i :: 0 <= i < |ps| && PatternReads(ps[i], name)
    ensures name in PatternSegments(ps) <==> name != "" && exists i :: 0 <= i < |ps| && PatternBinds(ps[i], name)
  {
    hide ReadBy;
    if ps != [] {
      ElementsMeaning(ps[0].elements, name);
      hide PatternReads, PatternBinds;
      PatternsMeaning(ps[1..], name);
      if i :| 0 <= i < |ps| && PatternReads(ps[i], name) {
        if i > 0 { assert ps[1..][i - 1] == ps[i]; }
      }
      if i :| 0 <= i < |ps[1..]| && PatternReads(ps[1..][i], name) { assert PatternReads(ps[i + 1], name); }
      if i :| 0 <= i < |ps| && PatternBinds(ps[i], name) {
        if i > 0 { assert ps[1..][i - 1] == ps[i]; }
      }
      if i :| 0 <= i < |ps[1..]| && PatternBinds(ps[1..][i], name) { assert PatternBinds(ps[i + 1], name); }
    }
  }

  // ----- The nodes of the plan -----------------------------------------------------------

  /** A computed value of a constraint, or a predicate, reads the name. */
  predicate Computes(s: MatchSpec, name: Name) {
    (exists i :: 0 <= i < |s.constraints| && Mentions(s.constraints[i].rhs, name)) || exists i :: 0 <= i < |s.predicates| && Mentions(s.predicates[i], name)
  }

  predicate Joined(s: MatchSpec, name: Name) {
    name != "" && exists i :: 0 <= i < |s.joins| && s.joins[i].refBinding == name
  }

  /**
   A match needs what its constraints and predicates compute with; it depends, besides, on what its joins
   and patterns name; and it defines its own name and those of its segments, if it is visible.
   */
  lemma MatchNames(s: MatchSpec, visible: bool, negated: bool, order: nat, name: Name)
    ensures var n := NewStrippedNode(Match(s, visible, negated), order);
            && (name in n.hardDeps <==> Computes(s, name))
            && (name in n.dependsOn <==> Computes(s, name) || Joined(s, name) || exists i :: 0 <= i < |s.patterns| && PatternReads(s.patterns[i], name))
            && (name in n.defines <==>
                  visible && name != "" && (name == s.binding || exists i :: 0 <= i < |s.patterns| && PatternBinds(s.patterns[i], name)))
  {
    hide Mentions, PatternReads, PatternBinds;
    ConstraintsMeaning(s.constraints, name);
    ExprsMeaning(s.predicates, name);
    JoinsMeaning(s.joins, name);
    PatternsMeaning(s.patterns, name);
  }

  /** A test depends on what it reads, all of it needed, and defines nothing. */
  lemma TestNames(e: Expr, order: nat, name: Name)
    ensures var n := NewStrippedNode(Test(e), order);
            (name in n.hardDeps <==> Mentions(e, name)) && n.dependsOn == n.hardDeps && n.defines == {}
  {
    ExprMeaning(e, name);
  }

  lemma {:induction false} SpecsMeaning(ss: seq<MatchSpec>, name: Name)
    ensures name in SpecsNames(ss) <==> exists i :: 0 <= i < |ss| && name in SpecNames(ss[i])
  {
    hide SpecNames;
    if ss != [] {
      SpecsMeaning(ss[1..], name);
      if i :| 0 <= i < |ss| && name in SpecNames(ss[i]) {
        if i > 0 { assert ss[1..][i - 1] == ss[i]; }
      }
      if i :| 0 <= i < |ss[1..]| && name in SpecNames(ss[1..][i]) { assert name in SpecNames(ss[i + 1]); }
    }
  }

  predicate Folds(s: AggregateSpec, name: Name) {
    s.expr.Some? && Mentions(s.expr.value, name)
  }

  lemma {:induction false} FoldsMeaning(specs: seq<AggregateSpec>, name: Name)
    ensures name in AggregateNames(specs) <==> exists i :: 0 <= i < |specs| && Folds(specs[i], name)
    ensures name in AggregateBindings(specs) <==> name != "" && exists i :: 0 <= i < |specs| && specs[i].binding == name
  {
    hide Mentions;
    if specs != [] {
      if specs[0].expr.Some? { ExprMeaning(specs[0].expr.value, name); }
      FoldsMeaning(specs[1..], name);
      if i :| 0 <= i < |specs| && Folds(specs[i], name) {
        if i > 0 { assert specs[1..][i - 1] == specs[i]; }
      }
      if i :| 0 <= i < |specs[1..]| && Folds(specs[1..][i], name) { assert Folds(specs[i + 1], name); }
      if i :| 0 <= i < |specs| && specs[i].binding == name {
        if i > 0 { assert specs[1..][i - 1] == specs[i]; }
      }
      if i :| 0 <= i < |specs[1..]| && specs[1..][i].binding == name { assert specs[i + 1].binding == name; }
    }
  }

  /** An aggregate depends on what its inputs depend on and its folds read, all of it needed, and defines its results. */
  lemma AggregateNodeNames(input: seq<MatchSpec>, specs: seq<AggregateSpec>, order: nat, name: Name)
    ensures var n := NewStrippedNode(Aggregate(input, specs), order);
            && (name in n.hardDeps <==> (exists i :: 0 <= i < |input| && name in DependsOn(Match(input[i], true, false)))
                                        || exists i :: 0 <= i < |specs| && Folds(specs[i], name))
            && n.dependsOn == n.hardDeps
            && (name in n.defines <==> name != "" && exists i :: 0 <= i < |specs| && specs[i].binding == name)
  {
    hide SpecNames, Folds;
    SpecsMeaning(input, name);
    FoldsMeaning(specs, name);
    forall i | 0 <= i < |input|
      ensures name in SpecNames(input[i]) <==> name in DependsOn(Match(input[i], true, false))
    {
    }
  }

  // ----- Quantifiers -----------------------------------------------------------------------

  /** A match in the tree reads the name; tests and quantifiers inside it are not looked at. */
  predicate TreeReads(t: Tree, name: Name)
    decreases t
  {
    match t
    case MatchTree(s) => name in DependsOn(Match(s, true, false))
    case AndTree(ts) => exists i :: 0 <= i < |ts| && TreeReads(ts[i], name)
    case OrTree(ts) => exists i :: 0 <= i < |ts| && TreeReads(ts[i], name)
    case NotTree(c) => TreeReads(c, name)
    case _ => false
  }

  /** A match of the tree, on its own or in a conjunction, defines the name. */
  predicate TreeBinds(t: Tree, name: Name)
    decreases t
  {
    match t
    case MatchTree(s) => name in Defines(Match(s, true, false))
    case AndTree(ts) => exists i :: 0 <= i < |ts| && TreeBinds(ts[i], name)
    case _ => false
  }

  lemma {:induction false} TreeMeaning(t: Tree, name: Name)
    ensures name in TreeNames(t) <==> TreeReads(t, name)
    ensures name in TreeDefines(t) <==> TreeBinds(t, name)
    decreases t, 1
  {
    match t
    case AndTree(ts) => TreesMeaning(ts, name);
    case OrTree(ts) => TreesMeaning(ts, name);
    case NotTree(c) => TreeMeaning(c, name);
    case _ =>
  }

  lemma {:induction false} TreesMeaning(ts: seq<Tree>, name: Name)
    ensures name in TreesNames(ts) <==> exists i :: 0 <= i < |ts| && TreeReads(ts[i], name)
    ensures name in TreesDefines(ts) <==> exists i :: 0 <= i < |ts| && TreeBinds(ts[i], name)
    decreases ts, 0
  {
    hide TreeReads, TreeBinds;
    if ts != [] {
      TreeMeaning(ts[0], name);
      TreesMeaning(ts[1..], name);
      if i :| 0 <= i < |ts| && TreeReads(ts[i], name) {
        if i > 0 { assert ts[1..][i - 1] == ts[i]; }
      }
      if i :| 0 <= i < |ts[1..]| && TreeReads(ts[1..][i], name) { assert TreeReads(ts[i + 1], name); }
      if i :| 0 <= i < |ts| && TreeBinds(ts[i], name) {
        if i > 0 { assert ts[1..][i - 1] == ts[i]; }
      }
      if i :| 0 <= i < |ts[1..]| && TreeBinds(ts[1..][i], name) { assert TreeBinds(ts[i + 1], name); }
    }
  }

  /** A quantifier depends on what its domain, and a universal one's requirement, read, but for what the domain defines. */
  lemma QuantifierNames(kind: Quantifier, domain: Tree, requirement: Tree, order: nat, name: Name)
    ensures var n := NewStrippedNode(HigherOrder(kind, domain, requirement), order);
            && (name in n.hardDeps <==> (TreeReads(domain, name) || (kind == ForallKind && TreeReads(requirement, name))) && !TreeBinds(domain, name))
            && n.dependsOn == n.hardDeps && n.defines == {}
  {
    hide TreeReads, TreeBinds;
    TreeMeaning(domain, name);
    TreeMeaning(requirement, name);
  }
}
