/**
 What fires next, said of the fields of the activations alone: salience first, then, in depth, how
 recent the facts are, and in breadth how early the activation was born.
 */
module AgendaChoice {
  import opened AgendaOrder
  import opened AgendaFiring

  // ----- Two activations ------------------------------------------------------------------

  /** Among equals in salience and recency: earlier declaration, then hashes, then age. */
  predicate NotLaterDeclared(ranked: bool, a: Activation, b: Activation) {
    && (ranked && a.rule != b.rule ==> a.declarationOrder <= b.declarationOrder)
    && (!ranked || a.rule == b.rule || a.declarationOrder == b.declarationOrder ==>
          && a.identity.scopeHash <= b.identity.scopeHash
          && (a.identity.scopeHash == b.identity.scopeHash ==> a.identity.hash <= b.identity.hash)
          && (a.identity == b.identity ==> a.ordinal <= b.ordinal))
  }

  /** The higher salience; among equals the more recent facts, by their latest and then all together. */
  predicate NotLaterInDepth(ranked: bool, a: Activation, b: Activation) {
    && b.salience <= a.salience
    && (b.salience == a.salience ==> b.maxRecency <= a.maxRecency)
    && (b.salience == a.salience && b.maxRecency == a.maxRecency ==> b.totalRecency <= a.totalRecency)
    && (b.salience == a.salience && b.maxRecency == a.maxRecency && b.totalRecency == a.totalRecency ==> NotLaterDeclared(ranked, a, b))
  }

  /** The higher salience; among equals the earlier epoch, and within it the lower rank. */
  predicate NotLaterInBreadth(a: Activation, b: Activation) {
    && b.salience <= a.salience
    && (b.salience == a.salience ==> a.birthEpoch <= b.birthEpoch)
    && (b.salience == a.salience && b.birthEpoch == a.birthEpoch ==> a.birthRank <= b.birthRank)
    && (b.salience == a.salience && b.birthEpoch == a.birthEpoch && b.birthRank == a.birthRank ==> a.ordinal <= b.ordinal)
  }

  predicate NotLater(o: Order, a: Activation, b: Activation) {
    if o.strategy == Depth then NotLaterInDepth(o.ranked, a, b) else NotLaterInBreadth(a, b)
  }

  /** Not to come after is this, and nothing else. */
  lemma LessMeaning(o: Order, a: Activation, b: Activation)
    ensures !Less(o, b, a) <==> NotLater(o, a, b)
  {
  }

  // ----- Among those that wait ----------------------------------------------------------------

  /** Nothing that waits in the module comes before `h`. */
  ghost predicate LeadsModule(o: Order, acts: seq<Activation>, h: Handle, m: ModuleName) {
    h < |acts| && forall k :: 0 <= k < |acts| && acts[k].status == Waiting && acts[k].moduleName == m ==> NotLater(o, acts[h], acts[k])
  }

  ghost predicate LeadsAll(o: Order, acts: seq<Activation>, h: Handle) {
    h < |acts| && forall k :: 0 <= k < |acts| && acts[k].status == Waiting ==> NotLater(o, acts[h], acts[k])
  }

  lemma LeadsIfFirst(o: Order, acts: seq<Activation>, h: Handle, m: ModuleName)
    requires h < |acts|
    ensures (forall k :: 0 <= k < |acts| && acts[k].status == Waiting && acts[k].moduleName == m ==> !Before(o, acts, k, h)) <==> LeadsModule(o, acts, h, m)
    ensures (forall k :: 0 <= k < |acts| && acts[k].status == Waiting ==> !Before(o, acts, k, h)) <==> LeadsAll(o, acts, h)
  {
    hide Less, NotLater;
    forall k | 0 <= k < |acts|
      ensures !Before(o, acts, k, h) <==> NotLater(o, acts[h], acts[k])
    {
      LessMeaning(o, acts[h], acts[k]);
    }
  }

  // ----- The module in focus -----------------------------------------------------------------------

  /** The module on top of the first `n` of the stack; with none, or one without a name, it is MAIN. */
  predicate OnTop(stack: seq<ModuleName>, n: nat, m: ModuleName)
    requires n <= |stack|
  {
    if n > 0 && stack[n - 1] != "" then m == stack[n - 1] else m == "MAIN"
  }

  /** Nothing waits in the module on top of the first `n`. */
  ghost predicate NothingOnTop(s: set<Activation>, stack: seq<ModuleName>, n: nat)
    requires n <= |stack|
  {
    forall b :: b in s ==> !OnTop(stack, n, b.moduleName)
  }

  /**
   Modules are dropped from the stack only while nothing waits in them; what fires leads its module,
   the one then on top, or everything if all rules are in MAIN and MAIN is on top.
   */
  ghost predicate Chosen(o: Order, s: set<Activation>, stack: seq<ModuleName>, allInMain: bool, a: Activation, left: seq<ModuleName>) {
    && left <= stack && a in s
    && (forall n :: |left| < n <= |stack| ==> NothingOnTop(s, stack, n))
    && if allInMain && OnTop(stack, |left|, "MAIN") then forall b :: b in s ==> NotLater(o, a, b)
       else OnTop(stack, |left|, a.moduleName) && forall b :: b in s && b.moduleName == a.moduleName ==> NotLater(o, a, b)
  }

  lemma FirstLeads(o: Order, s: set<Activation>, a: Activation)
    requires IsFirst(o, s, a)
    ensures forall b :: b in s ==> NotLater(o, a, b)
  {
    hide Less, NotLater;
    forall b | b in s
      ensures NotLater(o, a, b)
    {
      LessMeaning(o, a, b);
    }
  }

  lemma TopIsFocus(stack: seq<ModuleName>)
    ensures forall m :: OnTop(stack, |stack|, m) <==> m == FocusOf(stack)
  {
  }

  lemma TopBelow(stack: seq<ModuleName>, n: nat)
    requires n < |stack|
    ensures forall m :: OnTop(stack[..|stack| - 1], n, m) == OnTop(stack, n, m)
  {
  }

  /** The firing rule, in these words. */
  lemma {:induction false} NextMeaning(o: Order, s: set<Activation>, stack: seq<ModuleName>, allInMain: bool)
    requires Apart(s)
    ensures var r := Next(o, s, stack, allInMain);
            match r
            case Fires(a, left) => Chosen(o, s, stack, allInMain, a, left)
            case Idle => forall n :: 0 <= n <= |stack| ==> NothingOnTop(s, stack, n)
    decreases |stack|
  {
    hide NotLater, Less, IsFirst, OnTop;
    var m := FocusOf(stack);
    var here := if m == MAIN && allInMain then s else InModule(s, m);
    TopIsFocus(stack);
    if here != {} {
      HereLeads(o, s, stack, allInMain, here);
    } else {
      HereEmpty(s, stack, allInMain);
      if !((m == MAIN && allInMain) || stack == []) {
        var rest := stack[..|stack| - 1];
        NextMeaning(o, s, rest, allInMain);
        forall n | 0 <= n <= |rest|
          ensures NothingOnTop(s, rest, n) <==> NothingOnTop(s, stack, n)
        {
          TopBelow(stack, n);
        }
        assert forall k: nat :: k < |stack| ==> OnTop(rest, k, "MAIN") == OnTop(stack, k, "MAIN") by {
          forall k: nat | k < |stack|
            ensures OnTop(rest, k, "MAIN") == OnTop(stack, k, "MAIN")
          {
            TopBelow(stack, k);
          }
        }
        var r := Next(o, s, rest, allInMain);
        if r.Fires? { TopBelow(stack, |r.stack|); }
      }
    }
  }

  lemma HereLeads(o: Order, s: set<Activation>, stack: seq<ModuleName>, allInMain: bool, here: set<Activation>)
    requires Apart(s) && here == (if FocusOf(stack) == MAIN && allInMain then s else InModule(s, FocusOf(stack))) && here != {}
    ensures Chosen(o, s, stack, allInMain, First(o, here), stack)
  {
    hide NotLater, Less, IsFirst;
    TopIsFocus(stack);
    FirstLeads(o, here, First(o, here));
    assert First(o, here) in here by { FirstIn(o, here); }
  }

  lemma FirstIn(o: Order, s: set<Activation>)
    requires Apart(s) && s != {}
    ensures First(o, s) in s
  {
  }

  lemma HereEmpty(s: set<Activation>, stack: seq<ModuleName>, allInMain: bool)
    requires (if FocusOf(stack) == MAIN && allInMain then s else InModule(s, FocusOf(stack))) == {}
    ensures NothingOnTop(s, stack, |stack|)
    ensures FocusOf(stack) == MAIN && allInMain ==> s == {}
  {
    TopIsFocus(stack);
    forall b | b in s
      ensures !OnTop(stack, |stack|, b.moduleName)
    {
      assert b !in InModule(s, FocusOf(stack));
    }
  }
}
