/**
 The read-only preview of the agenda: the waiting activations in the order in which they
 would fire if nothing else changed.
 */
module AgendaView {
  import opened Options
  import opened Sequences
  import opened Sorting
  import opened AgendaOrder
  import opened AgendaFiring
  import opened AgendaDelta
  import opened AgendaQueues
  import opened Agenda

  /** Each list holds the waiting activations of its module, sorted and once each. */
  ghost predicate ViewOk(o: Order, acts: seq<Activation>, view: map<ModuleName, seq<Handle>>) {
    && (forall m :: m in view ==> ListOk(o, acts, m, view[m]))
    && (forall k :: k in WaitingOf(acts) ==> acts[k].moduleName in view && k in view[acts[k].moduleName])
  }

  ghost predicate ListOk(o: Order, acts: seq<Activation>, m: ModuleName, l: seq<Handle>) {
    && (forall i :: 0 <= i < |l| ==> l[i] in WaitingOf(acts) && acts[l[i]].moduleName == m)
    && (forall i, j :: 0 <= i < j < |l| ==> l[i] != l[j] && !Before(o, acts, l[j], l[i]))
  }

  lemma HandlesOrder(o: Order, acts: seq<Activation>, l: seq<Handle>)
    requires Distinguished(acts) && forall i :: 0 <= i < |l| ==> l[i] < |acts|
    ensures Orders((a: Handle, b: Handle) => Before(o, acts, a, b), l)
  {
    hide Distinguished, Less;
    forall x, y, z | x in l && y in l && z in l
      ensures !(Before(o, acts, x, y) && Before(o, acts, y, x))
      ensures !Before(o, acts, y, x) && !Before(o, acts, z, y) ==> !Before(o, acts, z, x)
    {
      BeforeOrder(o, acts, x, y, z);
    }
  }

  lemma {:induction false} SortDistinct(less: (Handle, Handle) -> bool, l: seq<Handle>)
    requires forall i, j :: 0 <= i < j < |l| ==> l[i] != l[j]
    ensures forall i, j :: 0 <= i < j < |Sort(less, l)| ==> Sort(less, l)[i] != Sort(less, l)[j]
  {
    SortMembers(less, l);
    var s := Sort(less, l);
    forall i, j | 0 <= i < j < |s|
      ensures s[i] != s[j]
    {
      if s[i] == s[j] {
        var _, _ := RepeatedBoth(l, s, i, j);
      }
    }
  }

  /** Sorts distinct handles by the order in force. */
  method SortHandles(o: Order, acts: seq<Activation>, l: seq<Handle>) returns (s: seq<Handle>)
    requires Distinguished(acts) && forall i :: 0 <= i < |l| ==> l[i] < |acts|
    requires forall i, j :: 0 <= i < j < |l| ==> l[i] != l[j]
    ensures forall h :: h in s <==> h in l
    ensures forall i, j :: 0 <= i < j < |s| ==> s[i] != s[j] && !Before(o, acts, s[j], s[i])
  {
    hide Distinguished, Before;
    var less := (x: Handle, y: Handle) => Before(o, acts, x, y);
    SortMembers(less, l);
    HandlesOrder(o, acts, l);
    SortInOrder(less, l);
    SortDistinct(less, l);
    s := Sort(less, l);
    assert forall i, j :: 0 <= i < j < |s| ==> !less(s[j], s[i]);
  }

  lemma ListSorted(o: Order, acts: seq<Activation>, m: ModuleName, l: seq<Handle>, s: seq<Handle>)
    requires forall i :: 0 <= i < |l| ==> l[i] in WaitingOf(acts) && acts[l[i]].moduleName == m
    requires forall h :: h in s <==> h in l
    requires forall i, j :: 0 <= i < j < |s| ==> s[i] != s[j] && !Before(o, acts, s[j], s[i])
    ensures ListOk(o, acts, m, s)
  {
    hide Before;
    forall i | 0 <= i < |s|
      ensures s[i] in WaitingOf(acts) && acts[s[i]].moduleName == m
    {
      assert s[i] in l;
    }
  }

  method PendingByModule(a: Agenda) returns (out: map<ModuleName, seq<Handle>>)
    requires a.Structure() && a.Covered()
    ensures ViewOk(a.O(), a.acts, out)
  {
    hide QueuesOk, Distinguished, Before;
    out := map[];
    var todo := a.queues.Keys;
    while todo != {}
      invariant todo <= a.queues.Keys
      invariant forall m :: m in out ==> m in a.queues && m !in todo && ListOk(a.O(), a.acts, m, out[m])
      invariant forall k :: k in WaitingOf(a.acts) && a.acts[k].moduleName in a.queues && a.acts[k].moduleName !in todo ==>
                  a.acts[k].moduleName in out && k in out[a.acts[k].moduleName]
      decreases todo
    {
      var m :| m in todo;
      todo := todo - {m};
      var listed := WaitingIn(a, m);
      if |listed| == 0 { continue; }
      var sorted := SortHandles(a.O(), a.acts, listed);
      ListSorted(a.O(), a.acts, m, listed, sorted);
      out := out[m := sorted];
    }
    AllInQueues(a);
  }

  /** The waiting activations of one queue, in heap order of storage. */
  method WaitingIn(a: Agenda, m: ModuleName) returns (l: seq<Handle>)
    requires a.Structure() && a.Covered() && m in a.queues
    ensures forall i :: 0 <= i < |l| ==> l[i] in WaitingOf(a.acts) && a.acts[l[i]].moduleName == m
    ensures forall i, j :: 0 <= i < j < |l| ==> l[i] != l[j]
    ensures forall k :: k in WaitingOf(a.acts) && a.acts[k].moduleName == m ==> k in l
  {
    hide QueuesOk, Distinguished;
    QueueHandles(a.acts, a.queues, a.heapIndex, m);
    l := [];
    var q := a.queues[m];
    for i := 1 to |q|
      invariant forall j :: 0 <= j < |l| ==> l[j] in WaitingOf(a.acts) && a.acts[l[j]].moduleName == m && a.heapIndex[l[j]] < i
      invariant forall j, k :: 0 <= j < k < |l| ==> l[j] != l[k]
      invariant forall j :: 1 <= j < i && a.acts[q[j]].status.Waiting? ==> q[j] in l
    {
      assert PointsBack(a.acts, a.heapIndex, m, q, i);
      if a.acts[q[i]].status.Waiting? { l := l + [q[i]]; }
    }
    forall k | k in WaitingOf(a.acts) && a.acts[k].moduleName == m
      ensures k in l
    {
      BackPointer(a.acts, a.queues, a.heapIndex, k);
    }
  }

  lemma AllInQueues(a: Agenda)
    requires a.Structure() && a.Covered()
    ensures forall k :: k in WaitingOf(a.acts) ==> a.acts[k].moduleName in a.queues
  {
    hide QueuesOk, Distinguished;
    forall k | k in WaitingOf(a.acts)
      ensures a.acts[k].moduleName in a.queues
    {
      IndexLength(a.acts, a.queues, a.heapIndex);
      BackPointer(a.acts, a.queues, a.heapIndex, k);
    }
  }

  // ----- Focus order --------------------------------------------------------------------

  /** How many of a module's list have been taken. */
  function TakenOf(indexes: map<ModuleName, nat>, m: ModuleName): nat {
    if m in indexes then indexes[m] else 0
  }

  /** The activation at a position of a module's list is still to be taken. */
  predicate Left(acts: seq<Activation>, view: map<ModuleName, seq<Handle>>, indexes: map<ModuleName, nat>, m: ModuleName, i: nat) {
    m in view && TakenOf(indexes, m) <= i < |view[m]| && view[m][i] < |acts|
  }

  ghost function Rest(acts: seq<Activation>, view: map<ModuleName, seq<Handle>>, indexes: map<ModuleName, nat>): set<Activation> {
    set m, i | m in view && 0 <= i < |view[m]| && Left(acts, view, indexes, m, i) :: acts[view[m][i]]
  }

  function Named(acts: seq<Activation>, hs: seq<Handle>): seq<Activation>
    requires forall i :: 0 <= i < |hs| ==> hs[i] < |acts|
  {
    seq(|hs|, i requires 0 <= i < |hs| => acts[hs[i]])
  }

  lemma RestAll(o: Order, acts: seq<Activation>, view: map<ModuleName, seq<Handle>>)
    requires ViewOk(o, acts, view)
    ensures Rest(acts, view, map[]) == Pending(acts)
  {
    hide Before;
    var r := Rest(acts, view, map[]);
    forall a | a in Pending(acts)
      ensures a in r
    {
      var k :| k in WaitingOf(acts) && acts[k] == a;
      var m := acts[k].moduleName;
      var i :| 0 <= i < |view[m]| && view[m][i] == k;
      assert Left(acts, view, map[], m, i);
    }
    forall a | a in r
      ensures a in Pending(acts)
    {
      var m, i :| m in view && 0 <= i < |view[m]| && Left(acts, view, map[], m, i) && acts[view[m][i]] == a;
      assert ListOk(o, acts, m, view[m]);
    }
  }

  lemma RestApart(o: Order, acts: seq<Activation>, view: map<ModuleName, seq<Handle>>, indexes: map<ModuleName, nat>)
    requires ViewOk(o, acts, view) && Distinguished(acts)
    ensures Apart(Rest(acts, view, indexes)) && Rest(acts, view, indexes) <= Pending(acts)
  {
    hide Before;
    PendingApart(acts);
    forall a | a in Rest(acts, view, indexes)
      ensures a in Pending(acts)
    {
      var m, i :| m in view && 0 <= i < |view[m]| && Left(acts, view, indexes, m, i) && acts[view[m][i]] == a;
      assert ListOk(o, acts, m, view[m]);
    }
  }

  /** The next of a module's list is the first of the module among those left. */
  lemma HeadLeft(o: Order, acts: seq<Activation>, view: map<ModuleName, seq<Handle>>, indexes: map<ModuleName, nat>, m: ModuleName)
    requires ViewOk(o, acts, view) && Distinguished(acts) && m in view && TakenOf(indexes, m) < |view[m]|
    ensures view[m][TakenOf(indexes, m)] < |acts|
    ensures IsFirst(o, InModule(Rest(acts, view, indexes), m), acts[view[m][TakenOf(indexes, m)]])
  {
    hide Less, Distinguished;
    var n := TakenOf(indexes, m);
    assert ListOk(o, acts, m, view[m]);
    assert Left(acts, view, indexes, m, n);
    var a := acts[view[m][n]];
    assert a in Rest(acts, view, indexes);
    forall b | b in InModule(Rest(acts, view, indexes), m)
      ensures !Less(o, b, a)
    {
      var k, i :| k in view && 0 <= i < |view[k]| && Left(acts, view, indexes, k, i) && acts[view[k][i]] == b;
      assert ListOk(o, acts, k, view[k]);
      if i == n { BeforeOrder(o, acts, view[m][n], view[m][n], view[m][n]); } else { assert !Before(o, acts, view[m][i], view[m][n]); }
    }
  }

  /** Nothing is left of a module whose list is used up. */
  lemma NoneLeft(o: Order, acts: seq<Activation>, view: map<ModuleName, seq<Handle>>, indexes: map<ModuleName, nat>, m: ModuleName)
    requires ViewOk(o, acts, view) && (m in view ==> TakenOf(indexes, m) >= |view[m]|)
    ensures InModule(Rest(acts, view, indexes), m) == {}
  {
    hide Before;
    forall b | b in Rest(acts, view, indexes)
      ensures b.moduleName != m
    {
      var k, i :| k in view && 0 <= i < |view[k]| && Left(acts, view, indexes, k, i) && acts[view[k][i]] == b;
      assert ListOk(o, acts, k, view[k]);
    }
  }

  /** No two places of the lists hold the same activation. */
  lemma ListedOnce(o: Order, acts: seq<Activation>, view: map<ModuleName, seq<Handle>>, k: ModuleName, i: nat, m: ModuleName, n: nat)
    requires ViewOk(o, acts, view) && Distinguished(acts) && k in view && i < |view[k]| && m in view && n < |view[m]|
    ensures view[k][i] < |acts| && view[m][n] < |acts| && (acts[view[k][i]] == acts[view[m][n]] ==> k == m && i == n)
  {
    hide Before;
    assert ListOk(o, acts, k, view[k]) && ListOk(o, acts, m, view[m]);
  }

  /** Taking the next of a module's list leaves all the others. */
  lemma TakeOne(o: Order, acts: seq<Activation>, view: map<ModuleName, seq<Handle>>, indexes: map<ModuleName, nat>, m: ModuleName)
    requires ViewOk(o, acts, view) && Distinguished(acts) && m in view && TakenOf(indexes, m) < |view[m]|
    ensures view[m][TakenOf(indexes, m)] < |acts| && acts[view[m][TakenOf(indexes, m)]] in Rest(acts, view, indexes)
    ensures Rest(acts, view, indexes[m := TakenOf(indexes, m) + 1]) == Rest(acts, view, indexes) - {acts[view[m][TakenOf(indexes, m)]]}
  {
    hide ViewOk, Distinguished;
    var n := TakenOf(indexes, m);
    var more := indexes[m := n + 1];
    ListedOnce(o, acts, view, m, n, m, n);
    assert Left(acts, view, indexes, m, n);
    var a := acts[view[m][n]];
    var r, s := Rest(acts, view, indexes), Rest(acts, view, more);
    forall b | b in s
      ensures b in r - {a}
    {
      var k, i :| k in view && 0 <= i < |view[k]| && Left(acts, view, more, k, i) && acts[view[k][i]] == b;
      assert Left(acts, view, indexes, k, i);
      ListedOnce(o, acts, view, k, i, m, n);
    }
    forall b | b in r - {a}
      ensures b in s
    {
      var k, i :| k in view && 0 <= i < |view[k]| && Left(acts, view, indexes, k, i) && acts[view[k][i]] == b;
      assert Left(acts, view, more, k, i);
    }
  }

  /** The module whose next activation comes first of all that are left. */
  method NextPendingAcrossModules(o: Order, acts: seq<Activation>, view: map<ModuleName, seq<Handle>>, indexes: map<ModuleName, nat>)
    returns (best: Option<ModuleName>)
    requires ViewOk(o, acts, view) && Distinguished(acts)
    ensures best.None? ==> Rest(acts, view, indexes) == {}
    ensures best.Some? ==>
              && best.value in view && TakenOf(indexes, best.value) < |view[best.value]|
              && view[best.value][TakenOf(indexes, best.value)] < |acts|
              && IsFirst(o, Rest(acts, view, indexes), acts[view[best.value][TakenOf(indexes, best.value)]])
  {
    hide Distinguished, Less, ViewOk, ListOk;
    best := None;
    ghost var seen: set<Activation> := {};
    var todo := view.Keys;
    RestInView(o, acts, view, indexes);
    while todo != {}
      invariant todo <= view.Keys
      invariant forall b :: b in Rest(acts, view, indexes) ==> b.moduleName in todo || b in seen
      invariant best.None? ==> seen == {}
      invariant best.Some? ==> BestOf(o, acts, view, indexes, best.value, seen)
      decreases todo
    {
      var m :| m in todo;
      todo := todo - {m};
      var n := TakenOf(indexes, m);
      assert forall b :: b in Rest(acts, view, indexes) && b.moduleName == m ==> b in InModule(Rest(acts, view, indexes), m);
      if n >= |view[m]| {
        NoneLeft(o, acts, view, indexes, m);
        continue;
      }
      HeadLeft(o, acts, view, indexes, m);
      RestApart(o, acts, view, indexes);
      var a := acts[view[m][n]];
      if best.None? || Before(o, acts, view[m][n], view[best.value][TakenOf(indexes, best.value)]) {
        NewBest(o, acts, view, indexes, best, m, seen);
        best := Some(m);
      } else {
        KeptBest(o, acts, view, indexes, best.value, m, seen);
      }
      seen := seen + InModule(Rest(acts, view, indexes), m);
    }
    RestApart(o, acts, view, indexes);
  }

  /** Of the activations seen so far, the next of the module's list comes first. */
  ghost predicate BestOf(o: Order, acts: seq<Activation>, view: map<ModuleName, seq<Handle>>, indexes: map<ModuleName, nat>,
                         m: ModuleName, seen: set<Activation>) {
    && m in view && TakenOf(indexes, m) < |view[m]| && view[m][TakenOf(indexes, m)] < |acts|
    && seen <= Rest(acts, view, indexes) && IsFirst(o, seen, acts[view[m][TakenOf(indexes, m)]])
  }

  lemma NewBest(o: Order, acts: seq<Activation>, view: map<ModuleName, seq<Handle>>, indexes: map<ModuleName, nat>,
                best: Option<ModuleName>, m: ModuleName, seen: set<Activation>)
    requires ViewOk(o, acts, view) && Distinguished(acts) && m in view && TakenOf(indexes, m) < |view[m]|
    requires view[m][TakenOf(indexes, m)] < |acts|
    requires if best.None? then seen == {} else
               && BestOf(o, acts, view, indexes, best.value, seen)
               && Before(o, acts, view[m][TakenOf(indexes, m)], view[best.value][TakenOf(indexes, best.value)])
    ensures BestOf(o, acts, view, indexes, m, seen + InModule(Rest(acts, view, indexes), m))
  {
    hide Less, Distinguished, ViewOk;
    HeadLeft(o, acts, view, indexes, m);
    RestApart(o, acts, view, indexes);
    var a := acts[view[m][TakenOf(indexes, m)]];
    forall b | b in seen
      ensures !Less(o, b, a)
    {
      var c := acts[view[best.value][TakenOf(indexes, best.value)]];
      LessAsymmetric(o, a, c);
      LessTransitive(o, a, c, b);
    }
  }

  lemma KeptBest(o: Order, acts: seq<Activation>, view: map<ModuleName, seq<Handle>>, indexes: map<ModuleName, nat>,
                 b: ModuleName, m: ModuleName, seen: set<Activation>)
    requires ViewOk(o, acts, view) && Distinguished(acts) && m in view && TakenOf(indexes, m) < |view[m]|
    requires view[m][TakenOf(indexes, m)] < |acts|
    requires BestOf(o, acts, view, indexes, b, seen)
    requires !Before(o, acts, view[m][TakenOf(indexes, m)], view[b][TakenOf(indexes, b)])
    ensures BestOf(o, acts, view, indexes, b, seen + InModule(Rest(acts, view, indexes), m))
  {
    hide Less, Distinguished, ViewOk;
    HeadLeft(o, acts, view, indexes, m);
    RestApart(o, acts, view, indexes);
    var a, c := acts[view[m][TakenOf(indexes, m)]], acts[view[b][TakenOf(indexes, b)]];
    forall x | x in InModule(Rest(acts, view, indexes), m)
      ensures !Less(o, x, c)
    {
      LessTransitive(o, c, a, x);
    }
  }

  lemma RestInView(o: Order, acts: seq<Activation>, view: map<ModuleName, seq<Handle>>, indexes: map<ModuleName, nat>)
    requires ViewOk(o, acts, view)
    ensures forall b :: b in Rest(acts, view, indexes) ==> b.moduleName in view
  {
    hide Before;
    forall b | b in Rest(acts, view, indexes)
      ensures b.moduleName in view
    {
      var k, i :| k in view && 0 <= i < |view[k]| && Left(acts, view, indexes, k, i) && acts[view[k][i]] == b;
      assert ListOk(o, acts, k, view[k]);
    }
  }

  /** The whole firing sequence, read off the sorted lists without firing anything. */
  method ActivationsInFocusOrder(a: Agenda, view: map<ModuleName, seq<Handle>>, focusStack: seq<ModuleName>) returns (out: seq<Handle>)
    requires a.Structure() && ViewOk(a.O(), a.acts, view)
    ensures Apart(Pending(a.acts)) && forall i :: 0 <= i < |out| ==> out[i] < |a.acts|
    ensures Named(a.acts, out) == FiringSequence(a.O(), Pending(a.acts), focusStack, a.allInMain)
  {
    hide QueuesOk, Distinguished, Less, ViewOk, Next, FiringSequence, Rest, Named;
    var o, acts := a.O(), a.acts;
    PendingApart(acts);
    RestAll(o, acts, view);
    var indexes: map<ModuleName, nat> := map[];
    var stack := focusStack;
    out := [];
    assert Named(acts, out) == [] by { NamedNone(acts, out); }
    while true
      invariant forall i :: 0 <= i < |out| ==> out[i] < |acts|
      invariant Apart(Rest(acts, view, indexes))
      invariant Named(acts, out) + FiringSequence(o, Rest(acts, view, indexes), stack, a.allInMain)
             == FiringSequence(o, Pending(acts), focusStack, a.allInMain)
      decreases |Rest(acts, view, indexes)|, |stack|
    {
      var m := FocusOf(stack);
      ghost var rest := Rest(acts, view, indexes);
      if m == MAIN && a.allInMain {
        var best := NextPendingAcrossModules(o, acts, view, indexes);
        if best.None? {
          IdleEnds(o, rest, stack, a.allInMain);
          return;
        }
        Advance(o, acts, view, indexes, best.value, stack, a.allInMain, out);
        out := out + [view[best.value][TakenOf(indexes, best.value)]];
        indexes := indexes[best.value := TakenOf(indexes, best.value) + 1];
        continue;
      }
      if m in view && TakenOf(indexes, m) < |view[m]| {
        HeadLeft(o, acts, view, indexes, m);
        Advance(o, acts, view, indexes, m, stack, a.allInMain, out);
        out := out + [view[m][TakenOf(indexes, m)]];
        indexes := indexes[m := TakenOf(indexes, m) + 1];
        continue;
      }
      NoneLeft(o, acts, view, indexes, m);
      if |stack| == 0 {
        IdleEnds(o, rest, stack, a.allInMain);
        return;
      }
      DropFocus(o, rest, stack, a.allInMain);
      stack := stack[..|stack| - 1];
    }
  }

  /** Taking the first activation in focus moves it from what is left to what is out. */
  lemma Advance(o: Order, acts: seq<Activation>, view: map<ModuleName, seq<Handle>>, indexes: map<ModuleName, nat>,
                m: ModuleName, stack: seq<ModuleName>, allInMain: bool, out: seq<Handle>)
    requires ViewOk(o, acts, view) && Distinguished(acts) && m in view && TakenOf(indexes, m) < |view[m]|
    requires (forall i :: 0 <= i < |out| ==> out[i] < |acts|) && view[m][TakenOf(indexes, m)] < |acts|
    requires Apart(Rest(acts, view, indexes))
    requires IsFirst(o, InFocus(Rest(acts, view, indexes), stack, allInMain), acts[view[m][TakenOf(indexes, m)]])
    ensures var more := indexes[m := TakenOf(indexes, m) + 1];
            && Apart(Rest(acts, view, more)) && |Rest(acts, view, more)| < |Rest(acts, view, indexes)|
            && Named(acts, out + [view[m][TakenOf(indexes, m)]]) + FiringSequence(o, Rest(acts, view, more), stack, allInMain)
            == Named(acts, out) + FiringSequence(o, Rest(acts, view, indexes), stack, allInMain)
  {
    hide Distinguished, Less, ViewOk, Next, FiringSequence, Rest;
    var h, rest := view[m][TakenOf(indexes, m)], Rest(acts, view, indexes);
    FiresHead(o, rest, stack, allInMain, acts[h]);
    TakeOne(o, acts, view, indexes, m);
    NamedSnoc(acts, out, h);
  }

  lemma NamedNone(acts: seq<Activation>, hs: seq<Handle>)
    requires hs == []
    ensures Named(acts, hs) == []
  {
  }

  lemma NamedSnoc(acts: seq<Activation>, hs: seq<Handle>, h: Handle)
    requires (forall i :: 0 <= i < |hs| ==> hs[i] < |acts|) && h < |acts|
    ensures Named(acts, hs + [h]) == Named(acts, hs) + [acts[h]]
  {
  }

  /** What is in focus: one module, or everything. */
  function InFocus(s: set<Activation>, stack: seq<ModuleName>, allInMain: bool): set<Activation> {
    if FocusOf(stack) == MAIN && allInMain then s else InModule(s, FocusOf(stack))
  }

  lemma IdleEnds(o: Order, s: set<Activation>, stack: seq<ModuleName>, allInMain: bool)
    requires Apart(s) && InFocus(s, stack, allInMain) == {} && (stack == [] || (FocusOf(stack) == MAIN && allInMain))
    ensures FiringSequence(o, s, stack, allInMain) == []
  {
  }

  lemma FiresHead(o: Order, s: set<Activation>, stack: seq<ModuleName>, allInMain: bool, a: Activation)
    requires Apart(s) && IsFirst(o, InFocus(s, stack, allInMain), a)
    ensures FiringSequence(o, s, stack, allInMain) == [a] + FiringSequence(o, s - {a}, stack, allInMain)
  {
    hide Less;
    FirstUnique(o, InFocus(s, stack, allInMain), a, First(o, InFocus(s, stack, allInMain)));
  }

  lemma DropFocus(o: Order, s: set<Activation>, stack: seq<ModuleName>, allInMain: bool)
    requires Apart(s) && InFocus(s, stack, allInMain) == {} && stack != [] && !(FocusOf(stack) == MAIN && allInMain)
    ensures FiringSequence(o, s, stack, allInMain) == FiringSequence(o, s, stack[..|stack| - 1], allInMain)
  {
  }

  /** The preview as a reader gets it: the lists are gathered and then read in focus order. */
  method Preview(a: Agenda) returns (out: seq<Handle>)
    requires a.Structure() && a.Covered()
    ensures Apart(Pending(a.acts)) && forall i :: 0 <= i < |out| ==> out[i] < |a.acts|
    ensures Named(a.acts, out) == FiringSequence(a.O(), Pending(a.acts), a.focus, a.allInMain)
  {
    hide QueuesOk, Distinguished, Less, ViewOk, Next, FiringSequence;
    var view := PendingByModule(a);
    out := ActivationsInFocusOrder(a, view, a.focus);
  }

  lemma FiringStep(o: Order, s: set<Activation>, stack: seq<ModuleName>, allInMain: bool)
    requires Apart(s)
    ensures var next := Next(o, s, stack, allInMain);
            FiringSequence(o, s, stack, allInMain) ==
            if next.Idle? then [] else [next.activation] + FiringSequence(o, s - {next.activation}, next.stack, allInMain)
  {
  }

  /** Firing until nothing more fires does what the preview said. */
  method FireAll(a: Agenda) returns (out: seq<Activation>)
    requires a.Structure() && a.Covered() && a.Ordered()
    modifies a
    ensures a.Structure() && a.Covered() && a.Ordered() && (old(a.Valid()) ==> a.Valid())
    ensures Apart(Pending(old(a.acts)))
    ensures out == FiringSequence(a.O(), Pending(old(a.acts)), old(a.focus), a.allInMain)
  {
    hide QueuesOk, Distinguished, AllOrdered, Less, Next, FiringSequence, Pending, FiredFrom, WaitingOf, CoreOk, LookupOk;
    PendingApart(a.acts);
    out := [];
    while true
      invariant a.Structure() && a.Covered() && a.Ordered() && Apart(Pending(a.acts)) && (old(a.Valid()) ==> a.Valid())
      invariant out + FiringSequence(a.O(), Pending(a.acts), a.focus, a.allInMain)
             == FiringSequence(a.O(), Pending(old(a.acts)), old(a.focus), a.allInMain)
      decreases |Pending(a.acts)|
    {
      var before := a.acts;
      FiringStep(a.O(), Pending(a.acts), a.focus, a.allInMain);
      var fired := a.FireFocused();
      if fired.None? { return; }
      PendingApart(a.acts);
      out := out + [before[fired.value]];
    }
  }
}
