/**
 The order in which waiting activations fire, as a function of the activations and the
 focus stack alone, and sorted lists of activations.
 */
module AgendaFiring {
  import opened AgendaOrder

  /** Different activations have different ordinals, and rules keep their place in declaration order. */
  ghost predicate Apart(s: set<Activation>) {
    forall a, b :: a in s && b in s ==> SameDeclaration(a, b) && (a != b ==> a.ordinal != b.ordinal)
  }

  ghost predicate IsFirst(o: Order, s: set<Activation>, a: Activation) {
    a in s && forall b :: b in s ==> !Less(o, b, a)
  }

  lemma FirstUnique(o: Order, s: set<Activation>, a: Activation, b: Activation)
    requires Apart(s) && IsFirst(o, s, a) && IsFirst(o, s, b)
    ensures a == b
  {
    if a != b { LessTotal(o, a, b); }
  }

  lemma {:induction false} FirstExists(o: Order, s: set<Activation>)
    requires Apart(s) && s != {}
    ensures exists a :: IsFirst(o, s, a)
    decreases |s|
  {
    hide Less;
    var x :| x in s;
    if s == {x} {
      LessAsymmetric(o, x, x);
      assert IsFirst(o, s, x);
    } else {
      var rest := s - {x};
      assert exists y :: y in s && y != x;
      FirstExists(o, rest);
      var b :| IsFirst(o, rest, b);
      var a := if Less(o, x, b) then x else b;
      forall y | y in s
        ensures !Less(o, y, a)
      {
        LessAsymmetric(o, x, x);
        LessAsymmetric(o, x, b);
        LessTransitive(o, x, b, y);
      }
      assert IsFirst(o, s, a);
    }
  }

  ghost function First(o: Order, s: set<Activation>): (a: Activation)
    requires Apart(s) && s != {}
    ensures IsFirst(o, s, a)
  {
    FirstExists(o, s);
    var a :| IsFirst(o, s, a);
    a
  }

  function InModule(s: set<Activation>, m: ModuleName): set<Activation> {
    set a | a in s && a.moduleName == m
  }

  function FocusOf(stack: seq<ModuleName>): ModuleName {
    if stack == [] || stack[|stack| - 1] == "" then MAIN else stack[|stack| - 1]
  }

  datatype Firing = Idle | Fires(activation: Activation, stack: seq<ModuleName>)

  /**
   What fires next: the first activation of the focused module, dropping the top of the
   focus stack while that module has none; or, when every rule is in MAIN and MAIN is in
   focus, the first of all.
   */
  ghost function Next(o: Order, s: set<Activation>, stack: seq<ModuleName>, allInMain: bool): (r: Firing)
    requires Apart(s)
    ensures r.Fires? ==> r.activation in s
  {
    var m := FocusOf(stack);
    var here := if m == MAIN && allInMain then s else InModule(s, m);
    if here != {} then Fires(First(o, here), stack)
    else if (m == MAIN && allInMain) || stack == [] then Idle
    else Next(o, s, stack[..|stack| - 1], allInMain)
  }

  /** Firing until nothing more fires, when nothing else changes. */
  ghost function FiringSequence(o: Order, s: set<Activation>, stack: seq<ModuleName>, allInMain: bool): seq<Activation>
    requires Apart(s)
    decreases |s|
  {
    var next := Next(o, s, stack, allInMain);
    if next.Idle? then []
    else [next.activation] + FiringSequence(o, s - {next.activation}, next.stack, allInMain)
  }

  // ----- Sorted lists ----------------------------------------------------------------------

  ghost predicate Sorted(o: Order, l: seq<Activation>) {
    forall i, j :: 0 <= i < j < |l| ==> !Less(o, l[j], l[i])
  }

  ghost predicate Distinct(l: seq<Activation>) {
    forall i, j :: 0 <= i < j < |l| ==> l[i] != l[j]
  }

  ghost function SetOf(l: seq<Activation>): set<Activation> {
    set a | a in l
  }

  /** The head of a sorted list fires first. */
  lemma SortedHead(o: Order, l: seq<Activation>)
    requires Sorted(o, l) && l != []
    ensures IsFirst(o, SetOf(l), l[0])
  {
    LessAsymmetric(o, l[0], l[0]);
  }

  /** A set of activations has one sorted list without repetitions. */
  lemma {:induction false} SortedUnique(o: Order, k: seq<Activation>, l: seq<Activation>)
    requires Apart(SetOf(k)) && SetOf(k) == SetOf(l) && Sorted(o, k) && Sorted(o, l) && Distinct(k) && Distinct(l)
    ensures k == l
    decreases |k|
  {
    hide Less;
    if k == [] {
      EmptySetOf(k);
      EmptySetOf(l);
    } else {
      EmptySetOf(k);
      EmptySetOf(l);
      SortedHead(o, k);
      SortedHead(o, l);
      FirstUnique(o, SetOf(k), k[0], l[0]);
      DistinctTail(k);
      DistinctTail(l);
      assert SetOf(k[1..]) == SetOf(l[1..]);
      SortedUnique(o, k[1..], l[1..]);
      assert k == [k[0]] + k[1..] && l == [l[0]] + l[1..];
    }
  }

  lemma EmptySetOf(l: seq<Activation>)
    ensures SetOf(l) == {} <==> l == []
  {
    if l != [] { assert l[0] in SetOf(l); }
  }

  lemma DistinctTail(l: seq<Activation>)
    requires Distinct(l) && l != []
    ensures SetOf(l[1..]) == SetOf(l) - {l[0]} && Distinct(l[1..])
  {
    assert forall a :: a in l <==> a == l[0] || a in l[1..];
  }

  /** Firing the waiting activations of one module alone yields them sorted. */
  lemma {:induction false} FiringSorted(o: Order, s: set<Activation>)
    requires Apart(s)
    ensures var l := FiringSequence(o, s, [], true);
            Sorted(o, l) && Distinct(l) && SetOf(l) == s
    decreases |s|
  {
    hide Less;
    if s != {} {
      var a := First(o, s);
      assert Next(o, s, [], true) == Fires(a, []);
      FiringSorted(o, s - {a});
      var rest := FiringSequence(o, s - {a}, [], true);
      FirstPrepended(o, s, a, rest);
    }
  }

  lemma FirstPrepended(o: Order, s: set<Activation>, a: Activation, rest: seq<Activation>)
    requires IsFirst(o, s, a) && Sorted(o, rest) && Distinct(rest) && SetOf(rest) == s - {a}
    ensures Sorted(o, [a] + rest) && Distinct([a] + rest) && SetOf([a] + rest) == s
  {
    hide Less;
    var l := [a] + rest;
    forall j | 0 < j < |l|
      ensures l[j] != a && !Less(o, l[j], a)
    {
      assert rest[j - 1] in SetOf(rest);
    }
    assert SetOf(l) == SetOf(rest) + {a};
  }
}
