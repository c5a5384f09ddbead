/**
 The agenda: activations in storage order, one binary heap of waiting activations per
 module with back-pointers, a lookup index, and the token links.  A pointer to an
 activation is its place in storage.
 */
module Agenda {
  import opened Options
  import opened Sequences
  import opened Sorting
  import opened AgendaOrder
  import opened AgendaHeap
  import opened AgendaFiring
  import opened AgendaChoice
  import opened BirthRanks
  import opened AgendaBirths
  import opened AgendaDelta
  import opened AgendaQueues
  import opened AgendaTidy

  class Agenda {
    const strategy: Strategy
    const rules: Ruleset
    const allInMain: bool
    var acts: seq<Activation>
    /** Each activation's place in its module's heap; zero when it is in none. */
    var heapIndex: seq<nat>
    var queues: map<ModuleName, seq<Handle>>
    var lookup: map<LookupKey, LookupBucket>
    var links: map<TokenId, Link>
    var nextOrdinal: nat
    var nextEpoch: nat
    var focus: seq<ModuleName>

    function O(): Order {
      Order(strategy, true)
    }

    predicate Breadth?() {
      strategy == Breadth
    }

    ghost predicate Structure()
      reads `acts, `queues, `heapIndex
    {
      QueuesOk(acts, queues, heapIndex) && Distinguished(acts)
    }

    /** Every queue is in heap order. */
    ghost predicate Ordered()
      reads `acts, `queues
    {
      AllOrdered(O(), acts, queues)
    }

    // ----- Heaps ------------------------------------------------------------------------

    method Swap(m: ModuleName, i: nat, j: nat)
      requires Structure() && m in queues && 1 <= i < |queues[m]| && 1 <= j < |queues[m]|
      modifies `queues, `heapIndex
      ensures Structure() && Held(heapIndex) == old(Held(heapIndex))
      ensures queues == old(queues)[m := Swapped(old(queues[m]), i, j)]
    {
      SwapQueues(acts, queues, heapIndex, m, i, j);
      var q := queues[m];
      queues := queues[m := q[i := q[j]][j := q[i]]];
      heapIndex := heapIndex[q[j] := i][q[i] := j];
    }

    /** Only the queue of `m` changes, and only in arrangement. */
    twostate predicate Rearranged(m: ModuleName)
      reads this
    {
      && m in old(queues) && m in queues && queues == old(queues)[m := queues[m]]
      && |queues[m]| == |old(queues[m])| && Held(heapIndex) == old(Held(heapIndex))
    }

    method SiftUp(m: ModuleName, start: nat)
      requires Structure() && m in queues && 1 <= start < |queues[m]|
      modifies `queues, `heapIndex
      ensures Structure() && Rearranged(m)
      ensures queues[m] == SiftedUp(O(), acts, old(queues[m]), start)
      ensures old(Rising(O(), acts, queues[m], start)) ==> HeapOrdered(O(), acts, queues[m])
    {
      hide QueuesOk, Distinguished, Before;
      var index := start;
      assert queues == queues[m := queues[m]];
      while index > 1
        invariant Structure() && Rearranged(m) && 1 <= index < |queues[m]|
        invariant SiftedUp(O(), acts, queues[m], index) == SiftedUp(O(), acts, old(queues[m]), start)
        invariant old(Rising(O(), acts, queues[m], start)) ==> Rising(O(), acts, queues[m], index)
      {
        var parent := index / 2;
        if !Before(O(), acts, queues[m][index], queues[m][parent]) {
          if Rising(O(), acts, queues[m], index) { RiseDone(O(), acts, queues[m], index); }
          return;
        }
        if Rising(O(), acts, queues[m], index) {
          QueueHandles(acts, queues, heapIndex, m);
          RiseStep(O(), acts, queues[m], index);
        }
        Swap(m, index, parent);
        index := parent;
      }
      if Rising(O(), acts, queues[m], index) { RiseDone(O(), acts, queues[m], index); }
    }

    method SiftDown(m: ModuleName, start: nat)
      requires Structure() && m in queues && 1 <= start < |queues[m]|
      modifies `queues, `heapIndex
      ensures Structure() && Rearranged(m)
      ensures queues[m] == SiftedDown(O(), acts, old(queues[m]), start)
      ensures old(Sinking(O(), acts, queues[m], start)) ==> HeapOrdered(O(), acts, queues[m])
    {
      hide QueuesOk, Distinguished, Before, Sinking, SiftedDown;
      var index := start;
      assert queues == queues[m := queues[m]];
      while true
        invariant Structure() && Rearranged(m) && 1 <= index < |queues[m]|
        invariant SiftedDown(O(), acts, queues[m], index) == SiftedDown(O(), acts, old(queues[m]), start)
        invariant old(Sinking(O(), acts, queues[m], start)) ==> Sinking(O(), acts, queues[m], index)
        decreases |queues[m]| - index
      {
        QueueHandles(acts, queues, heapIndex, m);
        SiftedDownStep(O(), acts, queues[m], index);
        var left := index * 2;
        if left >= |queues[m]| {
          if Sinking(O(), acts, queues[m], index) { SinkDone(O(), acts, queues[m], index); }
          return;
        }
        var child := left;
        var right := left + 1;
        if right < |queues[m]| && Before(O(), acts, queues[m][right], queues[m][left]) { child := right; }
        assert child == FirstChild(O(), acts, queues[m], index);
        if !Before(O(), acts, queues[m][child], queues[m][index]) {
          if Sinking(O(), acts, queues[m], index) { SinkDone(O(), acts, queues[m], index); }
          return;
        }
        if Sinking(O(), acts, queues[m], index) { SinkStep(O(), acts, queues[m], index); }
        Swap(m, index, child);
        index := child;
      }
    }

    /** Moves the handle at `i` to where it belongs, whichever way that is. */
    method Settle(m: ModuleName, i: nat)
      requires Structure() && m in queues && 1 <= i < |queues[m]|
      modifies `queues, `heapIndex
      ensures Structure() && Rearranged(m)
      ensures queues[m] == Refitted(O(), acts, old(queues[m]), i)
      ensures old(Hole(O(), acts, queues[m], i)) ==> HeapOrdered(O(), acts, queues[m])
    {
      hide QueuesOk, Distinguished, Before, Hole, Rising, Sinking, SiftedUp, SiftedDown;
      QueueHandles(acts, queues, heapIndex, m);
      if Hole(O(), acts, queues[m], i) { HoleTurns(O(), acts, queues[m], i); }
      if i > 1 && Before(O(), acts, queues[m][i], queues[m][i / 2]) {
        SiftUp(m, i);
      } else {
        SiftDown(m, i);
      }
    }

    /** Puts a waiting activation into its module's queue, opening the queue if need be. */
    method Enqueue(h: Handle)
      requires Structure() && h < |acts|
      modifies `queues, `heapIndex
      ensures Structure()
      ensures Held(heapIndex) == old(Held(heapIndex)) + (if acts[h].status.Waiting? then {h} else {})
      ensures acts[h].status.Waiting? && h !in old(Held(heapIndex)) ==>
                var m, q := acts[h].moduleName, QueueAt(old(queues), acts[h].moduleName);
                queues == old(queues)[m := SiftedUp(O(), acts, q + [h], |q|)]
      ensures old(Ordered()) ==> Ordered()
    {
      hide QueuesOk, Distinguished, Before, HeapOrdered, SiftedUp;
      if !acts[h].status.Waiting? { return; }
      var m := acts[h].moduleName;
      if m !in queues {
        OpenQueue(acts, queues, heapIndex, m);
        EmptyHeap(O(), acts);
        queues := queues[m := [0]];
      }
      IndexLength(acts, queues, heapIndex);
      if heapIndex[h] > 0 { return; }
      QueueHandles(acts, queues, heapIndex, m);
      AppendQueues(acts, queues, heapIndex, h);
      if HeapOrdered(O(), acts, queues[m]) { AppendedRises(O(), acts, queues[m], h); }
      heapIndex := heapIndex[h := |queues[m]|];
      queues := queues[m := queues[m] + [h]];
      SiftUp(m, |queues[m]| - 1);
    }

    /** Swaps the last handle into the place, drops the end, and settles what was moved. */
    method RemoveAt(m: ModuleName, i: nat)
      requires Structure() && m in queues && 1 <= i < |queues[m]|
      modifies `queues, `heapIndex
      ensures Structure() && m in queues
      ensures Held(heapIndex) == old(Held(heapIndex)) - {old(queues[m][i])}
      ensures queues == old(queues)[m := WithoutPlace(O(), acts, old(queues[m]), i)]
      ensures old(Ordered()) ==> Ordered()
    {
      hide QueuesOk, Distinguished, Before, HeapOrdered, Hole, Refitted;
      ghost var q := queues[m];
      var last := |queues[m]| - 1;
      var removed := queues[m][i];
      QueueHandles(acts, queues, heapIndex, m);
      RemovalHole(O(), acts, q, i);
      if i != last { Swap(m, i, last); }
      TruncateQueues(acts, queues, heapIndex, m);
      queues := queues[m := queues[m][..last]];
      heapIndex := heapIndex[removed := 0];
      assert queues[m] == Swapped(q, i, last)[..last];
      if i < |queues[m]| { Settle(m, i); }
    }

    /** Takes an activation out of its queue, and closes the queue if that empties it. */
    method Dequeue(h: Handle) returns (removed: bool)
      requires Structure() && h < |acts|
      modifies `queues, `heapIndex
      ensures Structure()
      ensures removed == (h in old(Held(heapIndex))) && Held(heapIndex) == old(Held(heapIndex)) - {h}
      ensures queues == if removed then Dropped(O(), acts, old(queues), h) else old(queues)
      ensures old(Ordered()) ==> Ordered()
    {
      hide QueuesOk, Distinguished, HeapOrdered, Refitted, WithoutPlace;
      IndexLength(acts, queues, heapIndex);
      if heapIndex[h] == 0 { return false; }
      var m := acts[h].moduleName;
      BackPointer(acts, queues, heapIndex, h);
      PlaceHeldAt(acts, queues, heapIndex, h);
      RemoveAt(m, heapIndex[h]);
      if |queues[m]| == 1 {
        CloseQueue(acts, queues, heapIndex, m);
        queues := queues - {m};
      }
      removed := true;
    }

    /** Restores heap order after the activation's own place in it changed. */
    method Fix(h: Handle)
      requires Structure() && h < |acts|
      modifies `queues, `heapIndex
      ensures Structure() && Held(heapIndex) == old(Held(heapIndex))
      ensures h in old(Held(heapIndex)) ==>
                var m, i := acts[h].moduleName, old(heapIndex)[h];
                && m in old(queues) && 1 <= i < |old(queues)[m]|
                && queues == old(queues)[m := Refitted(O(), acts, old(queues)[m], i)]
      ensures old(OrderedBut(O(), acts, queues, heapIndex, h)) ==> Ordered()
    {
      hide QueuesOk, Distinguished, HeapOrdered, Hole, Refitted;
      IndexLength(acts, queues, heapIndex);
      if heapIndex[h] == 0 { return; }
      BackPointer(acts, queues, heapIndex, h);
      Settle(acts[h].moduleName, heapIndex[h]);
    }

    // ----- Firing -----------------------------------------------------------------------

    /** Takes the root of a queue. */
    method Pop(m: ModuleName) returns (h: Handle)
      requires Structure() && m in queues && |queues[m]| > 1
      modifies `queues, `heapIndex
      ensures Structure() && h < |acts| && h in old(Held(heapIndex)) && acts[h].moduleName == m
      ensures h == old(queues[m][1]) && OthersKept(m)
      ensures Held(heapIndex) == old(Held(heapIndex)) - {h}
      ensures old(Ordered()) ==> Ordered()
      ensures old(Ordered()) ==> forall k :: k in old(Held(heapIndex)) && acts[k].moduleName == m ==> !Before(O(), acts, k, h)
    {
      hide QueuesOk, Distinguished, HeapOrdered, Before;
      h := queues[m][1];
      QueueHandles(acts, queues, heapIndex, m);
      assert PointsBack(acts, heapIndex, m, queues[m], 1);
      if Ordered() { HeadFirst(O(), acts, queues, heapIndex, m); }
      RemoveAt(m, 1);
      if |queues[m]| == 1 {
        CloseQueue(acts, queues, heapIndex, m);
        queues := queues - {m};
      }
    }

    /** No queue but that of `m` changes. */
    twostate predicate OthersKept(m: ModuleName)
      reads `queues
    {
      forall n :: n != m ==> (n in queues <==> n in old(queues)) && (n in queues ==> queues[n] == old(queues)[n])
    }

    /** Every waiting activation is in its queue. */
    ghost predicate Covered()
      reads `acts, `heapIndex
    {
      WaitingOf(acts) <= Held(heapIndex)
    }

    /** What is stored is in order: ordinals, one activation for each match, and the lookup index. */
    ghost predicate Stored()
      reads `acts, `links, `nextOrdinal, `nextEpoch, `lookup
    {
      CoreOk(CoreVal(), rules) && LookupOk(acts, lookup)
    }

    /** The activation fires: it is consumed and lets go of its token. */
    method Consume(h: Handle)
      requires Structure() && h < |acts| && h !in Held(heapIndex) && WaitingOf(acts) <= Held(heapIndex) + {h}
      modifies `acts
      ensures Structure() && Covered() && acts == old(acts)[h := Spent(old(acts)[h])]
      ensures old(Ordered()) ==> Ordered()
      ensures old(Stored()) ==> Stored()
    {
      hide QueuesOk, HeapOrdered, Hole, Before, CoreOk, LookupOk;
      ghost var was := acts;
      acts := acts[h := acts[h].(status := Consumed, token := 0)];
      SameModules(was, acts, queues, heapIndex);
      SpentWaiting(was, h);
      if AllOrdered(O(), was, queues) { UnheldUpdate(O(), was, queues, heapIndex, h, Spent(was[h])); }
      if old(Stored()) {
        CoreOkUpdate(old(CoreVal()), rules, h, Spent(was[h]));
        LookupSame(was, acts, lookup);
      }
    }

    /** Fires the first waiting activation of a module, passing over any that wait no more. */
    method FireForModule(m: ModuleName) returns (fired: Option<Handle>)
      requires Structure() && Covered()
      modifies `acts, `queues, `heapIndex
      ensures Structure() && Covered()
      ensures old(Ordered()) ==> Ordered()
      ensures old(Held(heapIndex) == WaitingOf(acts)) ==> Held(heapIndex) == WaitingOf(acts)
      ensures fired.None? ==> acts == old(acts) && forall k :: k in WaitingOf(acts) ==> acts[k].moduleName != m
      ensures fired.Some? ==> FiredFrom(old(acts), m, fired.value, acts)
      ensures fired.Some? && old(Ordered()) ==> forall k :: k in WaitingOf(old(acts)) && old(acts)[k].moduleName == m ==> !Before(O(), old(acts), k, fired.value)
      ensures fired.Some? && old(Ordered()) ==> LeadsModule(O(), old(acts), fired.value, m)
      ensures old(Valid()) ==> Valid()
    {
      hide QueuesOk, Distinguished, HeapOrdered, Before, CoreOk, LookupOk, LeadsModule, LeadsAll;
      while m in queues && |queues[m]| > 1
        invariant Structure() && Covered() && acts == old(acts) && (old(Ordered()) ==> Ordered())
        invariant old(Held(heapIndex) == WaitingOf(acts)) ==> Held(heapIndex) == WaitingOf(acts)
        decreases Held(heapIndex)
      {
        var h := Pop(m);
        if acts[h].status.Waiting? {
          SpentWaiting(acts, h);
          LeadsIfFirst(O(), acts, h, m);
          Consume(h);
          return Some(h);
        }
      }
      NoneHeld(acts, queues, heapIndex, m);
      fired := None;
    }

    /** Passes over the roots of a queue that wait no more. */
    method DropStale(m: ModuleName)
      requires Structure() && Covered()
      modifies `queues, `heapIndex
      ensures Structure() && Covered() && (old(Ordered()) ==> Ordered())
      ensures Held(heapIndex) <= old(Held(heapIndex)) && OthersKept(m)
      ensures m in queues ==> |queues[m]| >= 1
      ensures m in queues && |queues[m]| > 1 ==> queues[m][1] < |acts| && acts[queues[m][1]].status.Waiting? && acts[queues[m][1]].moduleName == m
    {
      hide QueuesOk, Distinguished, HeapOrdered, Before;
      while m in queues && |queues[m]| > 1
        invariant Structure() && Covered() && (old(Ordered()) ==> Ordered())
        invariant Held(heapIndex) <= old(Held(heapIndex)) && OthersKept(m)
        decreases Held(heapIndex)
      {
        RootInside(acts, queues, heapIndex, m);
        if acts[queues[m][1]].status.Waiting? { return; }
        var h := Pop(m);
      }
      if m in queues { QueueHandles(acts, queues, heapIndex, m); }
    }

    /** The queue whose root comes first of all, once stale roots are passed over. */
    method NextQueue() returns (best: Option<ModuleName>)
      requires Structure() && Covered()
      modifies `queues, `heapIndex
      ensures Structure() && Covered() && (old(Ordered()) ==> Ordered())
      ensures Held(heapIndex) <= old(Held(heapIndex))
      ensures best.None? ==> WaitingOf(acts) == {}
      ensures best.Some? ==>
                && best.value in queues && |queues[best.value]| > 1
                && queues[best.value][1] in WaitingOf(acts) && acts[queues[best.value][1]].moduleName == best.value
      ensures best.Some? && old(Ordered()) ==> forall k :: k in WaitingOf(acts) ==> !Before(O(), acts, k, queues[best.value][1])
    {
      hide QueuesOk, Distinguished, HeapOrdered, Before;
      var todo := queues.Keys;
      best := None;
      ghost var seen: map<ModuleName, Handle> := map[];
      while todo != {}
        invariant Structure() && Covered() && (old(Ordered()) ==> Ordered())
        invariant Held(heapIndex) <= old(Held(heapIndex))
        invariant forall m :: m in queues ==> m in todo || m in seen
        invariant forall m :: m in seen ==> m !in todo && IsRoot(acts, queues, m, seen[m])
        invariant best.None? ==> seen == map[]
        invariant best.Some? ==> best.value in seen && forall m :: m in seen ==> !Before(O(), acts, seen[m], seen[best.value])
        decreases todo
      {
        var m :| m in todo;
        DropStale(m);
        todo := todo - {m};
        if m !in queues || |queues[m]| <= 1 {
          if m in queues {
            CloseQueue(acts, queues, heapIndex, m);
            queues := queues - {m};
          }
          continue;
        }
        var h := queues[m][1];
        if best.None? || Before(O(), acts, h, queues[best.value][1]) {
          BestChanges(O(), acts, seen, best, m, h);
          best := Some(m);
        }
        seen := seen[m := h];
      }
      if Ordered() { RootsFirst(O(), acts, queues, heapIndex, seen, best); }
      RootsCover(acts, queues, heapIndex, seen);
    }

    /** Fires the first waiting activation of all. */
    method FireAny() returns (fired: Option<Handle>)
      requires Structure() && Covered()
      modifies `acts, `queues, `heapIndex
      ensures Structure() && Covered()
      ensures old(Ordered()) ==> Ordered()
      ensures old(Held(heapIndex) == WaitingOf(acts)) ==> Held(heapIndex) == WaitingOf(acts)
      ensures fired.None? ==> acts == old(acts) && WaitingOf(acts) == {}
      ensures fired.Some? ==> fired.value < |old(acts)| && FiredFrom(old(acts), old(acts)[fired.value].moduleName, fired.value, acts)
      ensures fired.Some? && old(Ordered()) ==> forall k :: k in WaitingOf(old(acts)) ==> !Before(O(), old(acts), k, fired.value)
      ensures fired.Some? && old(Ordered()) ==> LeadsAll(O(), old(acts), fired.value)
      ensures old(Valid()) ==> Valid()
    {
      hide QueuesOk, Distinguished, HeapOrdered, Before, CoreOk, LookupOk, LeadsModule, LeadsAll;
      var best := NextQueue();
      if best.None? { return None; }
      var h := Pop(best.value);
      SpentWaiting(acts, h);
      LeadsIfFirst(O(), acts, h, best.value);
      Consume(h);
      fired := Some(h);
    }

    /**
     Fires what the focus stack selects, dropping the top of the stack while its module has
     nothing to fire.
     */
    method FireFocused() returns (fired: Option<Handle>)
      requires Structure() && Covered()
      modifies `acts, `queues, `heapIndex, `focus
      ensures Structure() && Covered() && (old(Ordered()) ==> Ordered())
      ensures old(Held(heapIndex) == WaitingOf(acts)) ==> Held(heapIndex) == WaitingOf(acts)
      ensures old(Valid()) ==> Valid()
      ensures Apart(Pending(old(acts)))
      ensures var next := Next(O(), Pending(old(acts)), old(focus), allInMain);
              && (fired.None? <==> next.Idle?)
              && (fired.None? ==> acts == old(acts))
              && (fired.Some? ==>
                    && fired.value < |old(acts)| && FiredFrom(old(acts), old(acts)[fired.value].moduleName, fired.value, acts)
                    && next.stack == focus
                    && (old(Ordered()) ==> next.activation == old(acts)[fired.value])
                    && Pending(acts) == Pending(old(acts)) - {old(acts)[fired.value]})
      ensures fired.Some? && old(Ordered()) ==> Chosen(O(), Pending(old(acts)), old(focus), allInMain, old(acts)[fired.value], focus)
      ensures fired.None? ==> forall n :: 0 <= n <= |old(focus)| ==> NothingOnTop(Pending(acts), old(focus), n)
    {
      hide QueuesOk, Distinguished, AllOrdered, Before, Less, CoreOk, LookupOk, Held, Chosen, NothingOnTop, LeadsModule, LeadsAll, IsFirst, Apart;
      PendingApart(acts);
      ghost var p := Pending(acts);
      NextMeaning(O(), p, focus, allInMain);
      while true
        invariant Structure() && Covered() && (old(Ordered()) ==> Ordered()) && (old(Valid()) ==> Valid()) && acts == old(acts)
        invariant old(Held(heapIndex) == WaitingOf(acts)) ==> Held(heapIndex) == WaitingOf(acts)
        invariant Next(O(), p, focus, allInMain) == Next(O(), p, old(focus), allInMain)
        decreases |focus|
      {
        var m := FocusOf(focus);
        if m == MAIN && allInMain {
          fired := FireAny();
          if fired.Some? {
            assert old(acts)[fired.value] in p;
            if old(Ordered()) { PendingFirst(O(), old(acts), fired.value); }
            PendingSpent(old(acts), fired.value);
          }
          return;
        }
        fired := FireForModule(m);
        if fired.Some? {
          assert old(acts)[fired.value] in InModule(p, m);
          if old(Ordered()) { PendingFirstIn(O(), old(acts), m, fired.value); }
          PendingSpent(old(acts), fired.value);
          return;
        }
        assert InModule(p, m) == {};
        if |focus| == 0 { return; }
        focus := focus[..|focus| - 1];
      }
    }

    // ----- Storage ------------------------------------------------------------------------

    ghost function CoreVal(): Core
      reads `acts, `links, `nextOrdinal, `nextEpoch
    {
      Core(acts, links, nextOrdinal, nextEpoch)
    }

    /** Exactly the waiting activations are queued, and the lookup index agrees with a scan. */
    ghost predicate Valid()
      reads this
    {
      && QueuesOk(acts, queues, heapIndex) && CoreOk(CoreVal(), rules)
      && Held(heapIndex) == WaitingOf(acts) && LookupOk(acts, lookup)
    }

    lemma ValidStructure()
      requires Valid()
      ensures Structure() && Covered() && LookupOk(acts, lookup)
    {
      CoreDistinguished(CoreVal(), rules);
    }

    constructor (s: Strategy, r: Ruleset, inMain: bool)
      ensures Valid() && Ordered() && CoreVal() == Core([], map[], 0, 0) && focus == []
      ensures strategy == s && rules == r && allInMain == inMain
    {
      strategy, rules, allInMain := s, r, inMain;
      acts, heapIndex, queues, lookup, links := [], [], map[], map[], map[];
      nextOrdinal, nextEpoch, focus := 0, 0, [];
    }

    /** Writes fields of one activation that do not say which match it stands for. */
    method Put(h: Handle, a: Activation)
      requires Structure() && LookupOk(acts, lookup) && h < |acts| && SameMatch(acts[h], a)
      modifies `acts
      ensures Structure() && LookupOk(acts, lookup) && acts == old(acts)[h := a]
      ensures SameBirth(old(acts)[h], a) && old(Ordered()) ==> Ordered()
      ensures SameBirth(old(acts)[h], a) ==> forall b :: 0 <= b < |acts| && old(OrderedBut(O(), acts, queues, heapIndex, b)) ==>
                OrderedBut(O(), acts, queues, heapIndex, b)
      ensures old(OrderedBut(O(), acts, queues, heapIndex, h)) ==> OrderedBut(O(), acts, queues, heapIndex, h)
      ensures old(Ordered()) ==> OrderedBut(O(), acts, queues, heapIndex, h)
    {
      hide QueuesOk, AllOrdered, OrderedBut, Before, LookupOk;
      ghost var was := acts;
      if AllOrdered(O(), was, queues) { OrderedHole(O(), was, queues, heapIndex, h); }
      acts := acts[h := a];
      SameModules(was, acts, queues, heapIndex);
      LookupSame(was, acts, lookup);
      if OrderedBut(O(), was, queues, heapIndex, h) { UpdateOrdered(O(), was, queues, heapIndex, h, a); }
      if SameBirth(was[h], a) {
        SameRanks(O(), was, acts, queues);
        forall b | 0 <= b < |acts| && OrderedBut(O(), was, queues, heapIndex, b)
          ensures OrderedBut(O(), acts, queues, heapIndex, b)
        {
          SameRanksBut(O(), was, acts, queues, heapIndex, b);
        }
      }
    }

    /** The handle of the activation for a match, found through the lookup index. */
    method FindActivation(rule: RuleId, identity: Identity, facts: seq<FactRef>) returns (found: Option<Handle>)
      requires LookupOk(acts, lookup)
      ensures found == Find(acts, rule, identity, facts)
    {
      hide LookupOk, Find, Answers, HandlesOf, BucketAt;
      LookupFinds(acts, lookup, rule, identity, facts);
      var bucket := BucketAt(lookup, LookupKey(rule, identity));
      var l := HandlesOf(bucket);
      assert l[0..] == l;
      for i := 0 to |l|
        invariant FirstAnswer(acts, l[i..], rule, identity, facts) == Find(acts, rule, identity, facts)
      {
        assert l[i..][0] == l[i] && l[i..][1..] == l[i + 1..];
        if Answers(acts[l[i]], rule, identity, facts) { return Some(l[i]); }
      }
      found := None;
    }

    /** Stores a new activation under the next ordinal. */
    method Store(a: Activation) returns (h: Handle)
      requires Structure() && LookupOk(acts, lookup)
      requires forall k :: 0 <= k < |acts| ==> SameDeclaration(acts[k], a) && acts[k].ordinal <= nextOrdinal
      modifies `acts, `heapIndex, `lookup, `nextOrdinal
      ensures Structure() && LookupOk(acts, lookup) && h == |old(acts)|
      ensures nextOrdinal == old(nextOrdinal) + 1 && acts == old(acts) + [a.(ordinal := nextOrdinal)]
      ensures Held(heapIndex) == old(Held(heapIndex)) && (old(Ordered()) ==> Ordered())
    {
      hide QueuesOk, AllOrdered, LookupOk;
      nextOrdinal := nextOrdinal + 1;
      h := StoreRef(a.(ordinal := nextOrdinal));
    }

    /** Appends an activation and lists it in the lookup index. */
    method StoreRef(stored: Activation) returns (h: Handle)
      requires Structure() && LookupOk(acts, lookup) && Distinguished(acts + [stored])
      modifies `acts, `heapIndex, `lookup
      ensures Structure() && LookupOk(acts, lookup) && h == |old(acts)| && acts == old(acts) + [stored]
      ensures Held(heapIndex) == old(Held(heapIndex)) && (old(Ordered()) ==> Ordered())
    {
      hide QueuesOk, AllOrdered, LookupOk, Distinguished;
      h := |acts|;
      StoreQueues(acts, queues, heapIndex, stored);
      if AllOrdered(O(), acts, queues) { StoreOrdered(O(), acts, queues, heapIndex, stored); }
      LookupStore(acts, lookup, stored);
      acts := acts + [stored];
      heapIndex := heapIndex + [0];
      var key := LookupKey(stored.rule, stored.identity);
      var bucket := BucketAt(lookup, key);
      if bucket.first.None? && |bucket.rest| == 0 {
        bucket := LookupBucket(Some(h), []);
      } else {
        bucket := LookupBucket(bucket.first, bucket.rest + [h]);
      }
      lookup := lookup[key := bucket];
    }

    // ----- Token deltas -----------------------------------------------------------------

    /** In heap order, but for the place of the one activation born so far, or of any once there are more. */
    ghost predicate Nearly(born: seq<Handle>)
      reads `acts, `queues, `heapIndex
    {
      if |born| == 0 then Ordered()
      else if |born| == 1 then QueuesOk(acts, queues, heapIndex) && born[0] < |acts| && OrderedBut(O(), acts, queues, heapIndex, born[0])
      else true
    }

    /** Resolves and clears the link of a token, unless it leads to storage reused since. */
    method TakeLinked(d: Delta) returns (h: Option<Handle>)
      modifies `links
      ensures h == old(Linked(CoreVal(), d))
      ensures links == if h.Some? then old(links) - {d.token} else old(links)
    {
      h := None;
      if d.token in links {
        var l := links[d.token];
        if l.handle < |acts| && acts[l.handle].ordinal == l.ordinal && acts[l.handle].rule == d.rule {
          links := links - {d.token};
          h := Some(l.handle);
        }
      }
    }

    /** One less token behind the activation; without any, it waits no more and can fire no more. */
    method Unsupport(h: Handle)
      requires Valid() && h < |acts|
      modifies `acts, `queues, `heapIndex
      ensures Valid() && acts == old(acts)[h := Unsupported(old(acts)[h])]
      ensures queues == UnsupportedQueues(O(), old(acts), old(queues), h)
      ensures old(Ordered()) ==> Ordered()
    {
      hide QueuesOk, AllOrdered, OrderedBut, CoreOk, LookupOk, Distinguished, Dropped;
      ghost var was, core := acts, CoreVal();
      ValidStructure();
      CoreOkUpdate(core, rules, h, Unsupported(was[h]));
      var deactivate := acts[h].supportCount <= 1;
      Put(h, acts[h].(supportCount := if deactivate then 0 else acts[h].supportCount - 1));
      if !deactivate || !acts[h].status.Waiting? {
        if deactivate && acts[h].status.Consumed? {
          Put(h, acts[h].(status := Deactivated));
        }
        assert acts == was[h := Unsupported(was[h])];
        KeptWaiting(was, h, acts[h]);
        return;
      }
      var _ := Dequeue(h);
      Put(h, acts[h].(status := Deactivated));
      Put(h, acts[h].(token := 0));
      assert acts == was[h := Unsupported(was[h])];
      NotWaiting(was, h, acts[h]);
    }

    /** A token goes away. */
    method RemoveToken(d: Delta) returns (ok: bool)
      requires Valid()
      modifies `acts, `queues, `heapIndex, `links
      ensures Valid() && Result(CoreVal(), ok) == RemovedOne(old(CoreVal()), rules, d)
      ensures queues == RemovedQueues(O(), old(CoreVal()), rules, d, old(queues))
      ensures old(Ordered()) ==> Ordered()
    {
      hide QueuesOk, AllOrdered, CoreOk, LookupOk, Find, UnsupportedQueues;
      if d.token == 0 { return true; }
      ghost var core := CoreVal();
      RemovedOneOk(core, rules, d);
      CoreOkLinks(core, links - {d.token}, rules);
      var existing := TakeLinked(d);
      if existing.None? {
        if d.rule !in rules { return false; }
        existing := FindActivation(d.rule, d.identity, d.facts);
        if existing.None? { return true; }
      }
      Unsupport(existing.value);
      ok := true;
    }

    /** The activation is born in the token's epoch, or in one reserved for the batch. */
    method SetBirth(h: Handle, d: Delta, births: Births) returns (next: Births)
      requires Structure() && LookupOk(acts, lookup) && h < |acts|
      modifies `acts, `nextEpoch
      ensures Structure() && LookupOk(acts, lookup)
      ensures AddResult(CoreVal(), next, true) == Born(old(CoreVal()), births, true, h, d)
      ensures next.born == births.born + [h]
      ensures old(Ordered()) ==> OrderedBut(O(), acts, queues, heapIndex, h)
    {
      hide QueuesOk, AllOrdered, OrderedBut, LookupOk;
      var epoch, reserved := d.birthEpoch, births.epoch;
      if epoch == 0 {
        if reserved == 0 {
          nextEpoch := nextEpoch + 1;
          reserved := nextEpoch;
        }
        epoch := reserved;
      }
      Put(h, acts[h].(birthEpoch := epoch, birthRank := 0));
      next := Births(reserved, births.born + [h]);
    }

    /** A token comes: it adds to its activation's support, re-arms it, or creates it. */
    method AddToken(d: Delta, births: Births) returns (next: Births, ok: bool)
      requires Valid() && (Breadth?() || births.born == [])
      modifies this`acts, `queues, `heapIndex, `links, `lookup, `nextOrdinal, `nextEpoch
      ensures Valid() && AddResult(CoreVal(), next, ok) == AddedOne(old(CoreVal()), births, rules, Breadth?(), d)
      ensures queues == AddedQueues(O(), old(CoreVal()), rules, d, old(queues))
      ensures old(Nearly(births.born)) ==> Nearly(next.born)
      ensures births.born <= next.born
    {
      hide QueuesOk, AllOrdered, OrderedBut, CoreOk, LookupOk, Find;
      next, ok := births, true;
      if d.token == 0 { return; }
      if d.rule !in rules { return births, false; }
      AddedOneOk(CoreVal(), births, rules, Breadth?(), d);
      ValidStructure();
      var existing := FindActivation(d.rule, d.identity, d.facts);
      if existing.Some? {
        next := SupportExisting(d, existing.value, births);
      } else {
        next := CreateActivation(d, births);
      }
    }

    /** A deactivated activation waits again, on the token if it has none. */
    method Rearm(h: Handle, token: TokenId)
      requires Structure() && LookupOk(acts, lookup) && h < |acts| && acts[h].status.Deactivated? && h !in Held(heapIndex)
      modifies `acts, `queues, `heapIndex
      ensures Structure() && LookupOk(acts, lookup) && acts == old(acts)[h := Rearmed(old(acts)[h], token)]
      ensures Held(heapIndex) == old(Held(heapIndex)) + {h} && queues == Pushed(O(), acts, old(queues), h)
      ensures old(Ordered()) ==> Ordered()
    {
      hide QueuesOk, AllOrdered, OrderedBut, LookupOk, Distinguished, SiftedUp;
      ghost var was := acts;
      if acts[h].token == 0 { Put(h, acts[h].(token := token)); }
      Put(h, acts[h].(status := Waiting));
      assert acts == was[h := Rearmed(was[h], token)];
      Enqueue(h);
    }

    method SupportExisting(d: Delta, h: Handle, births: Births) returns (next: Births)
      requires Valid() && (Breadth?() || births.born == []) && d.token != 0 && d.rule in rules
      requires Find(acts, d.rule, d.identity, d.facts) == Some(h)
      modifies this`acts, `queues, `heapIndex, `links, `nextEpoch
      ensures Valid() && AddResult(CoreVal(), next, true) == AddedOne(old(CoreVal()), births, rules, Breadth?(), d)
      ensures queues == AddedQueues(O(), old(CoreVal()), rules, d, old(queues))
      ensures old(Nearly(births.born)) ==> Nearly(next.born)
      ensures births.born <= next.born
    {
      hide QueuesOk, AllOrdered, OrderedBut, CoreOk, LookupOk, Find, Distinguished;
      ghost var was := acts;
      AddedOneOk(CoreVal(), births, rules, Breadth?(), d);
      ValidStructure();
      next := births;
      Put(h, acts[h].(supportCount := acts[h].supportCount + 1));
      links := links[d.token := Link(h, acts[h].ordinal)];
      if acts[h].status.Deactivated? {
        Rearm(h, d.token);
        NowWaiting(was, h, acts[h]);
        assert acts == was[h := Rearmed(Supported(was[h]), d.token)];
        if Breadth?() {
          next := SetBirth(h, d, births);
          NowWaiting(was, h, acts[h]);
          assert acts == was[h := acts[h]];
        }
      } else {
        KeptWaiting(was, h, acts[h]);
      }
    }

    method CreateActivation(d: Delta, births: Births) returns (next: Births)
      requires Valid() && (Breadth?() || births.born == []) && d.token != 0 && d.rule in rules
      requires Find(acts, d.rule, d.identity, d.facts).None?
      modifies this`acts, `queues, `heapIndex, `links, `lookup, `nextOrdinal, `nextEpoch
      ensures Valid() && AddResult(CoreVal(), next, true) == AddedOne(old(CoreVal()), births, rules, Breadth?(), d)
      ensures queues == AddedQueues(O(), old(CoreVal()), rules, d, old(queues))
      ensures old(Nearly(births.born)) ==> Nearly(next.born)
      ensures births.born <= next.born
    {
      hide QueuesOk, AllOrdered, OrderedBut, CoreOk, LookupOk, Find, Distinguished;
      ghost var was := acts;
      AddedOneOk(CoreVal(), births, rules, Breadth?(), d);
      ValidStructure();
      next := births;
      CreatedFollows(CoreVal(), rules, d);
      var h := Store(Created(rules[d.rule], d, 0));
      Enqueue(h);
      AppendWaiting(was, acts[h]);
      if Breadth?() {
        next := SetBirth(h, d, births);
        AppendWaiting(was, acts[h]);
        assert acts == was + [acts[h]];
      }
      links := links[d.token := Link(h, acts[h].ordinal)];
    }

    // ----- Birth ranks ---------------------------------------------------------------------

    /** At most one handle of the module's queue is out of place, the one of `rest`. */
    ghost predicate SingleFor(rest: set<Handle>, m: ModuleName)
      reads `acts, `queues
    {
      SingleIn(O(), acts, queues, rest, m)
    }

    /** The handles out of place in the module's queue are of `rest`, and stand so that ranking them in order puts them right. */
    ghost predicate SeveralFor(rest: set<Handle>, m: ModuleName)
      reads `acts, `queues
    {
      SeveralIn(O(), acts, queues, rest, m)
    }

    /** What is out of place in each queue is less by `born`. */
    twostate predicate Settles(rest: set<Handle>, born: set<Handle>)
      reads `acts, `queues
    {
      && (forall m :: old(SingleFor(rest, m)) ==> SingleFor(rest - born, m))
      && (forall m :: Breadth?() && old(SeveralFor(rest, m)) ==> SeveralFor(rest - born, m))
    }

    /** The activation waits, is of `rest`, and is the first of its epoch there. */
    ghost predicate RanksNext(h: Handle, epoch: nat, rest: set<Handle>)
      reads `acts
    {
      h in rest && h in WaitingOf(acts) && acts[h].birthEpoch == epoch && FirstOfEpoch(acts, rest, h)
    }

    /** Gives one activation its rank and moves it to where it now belongs. */
    method SetRank(h: Handle, epoch: nat, rank: nat, ghost rest: set<Handle>)
      requires Structure() && LookupOk(acts, lookup) && Held(heapIndex) == WaitingOf(acts) && h < |acts|
      modifies `acts, `queues, `heapIndex
      ensures Structure() && LookupOk(acts, lookup) && Held(heapIndex) == WaitingOf(acts)
      ensures acts == old(acts)[h := old(acts)[h].(birthEpoch := epoch, birthRank := rank)]
      ensures h in old(Held(heapIndex)) ==> queues == Refit(O(), acts, old(queues), old(heapIndex), h)
      ensures old(OrderedBut(O(), acts, queues, heapIndex, h)) ==> Ordered()
      ensures old(Ordered()) ==> Ordered()
      ensures rank > 0 && old(RanksNext(h, epoch, rest)) ==> Settles(rest, {h})
    {
      hide QueuesOk, AllOrdered, OrderedBut, LookupOk, Distinguished, SingleIn, SeveralIn, FirstOfEpoch;
      ghost var was, ready := acts, rank > 0 && RanksNext(h, epoch, rest);
      IndexLength(acts, queues, heapIndex);
      Put(h, acts[h].(birthEpoch := epoch, birthRank := rank));
      KeptWaiting(was, h, acts[h]);
      if acts[h].status.Waiting? {
        Fix(h);
      } else if OrderedBut(O(), acts, queues, heapIndex, h) {
        NotHeldOrdered(O(), acts, queues, heapIndex, h);
      }
      if ready { RankSettles(O(), was, h, acts, old(queues), old(heapIndex), queues, rest); }
    }

    /** Ranks those born in one epoch by their authored tuples; yields them in that order. */
    method AssignCanonicalBirthRanks(epoch: nat, born: seq<Handle>, ghost rest: set<Handle>) returns (sorted: seq<Handle>)
      requires Structure() && LookupOk(acts, lookup) && Held(heapIndex) == WaitingOf(acts)
      requires DistinctBorn(acts, born) && OneEpoch(acts, born, epoch)
      modifies `acts, `queues, `heapIndex
      ensures Structure() && LookupOk(acts, lookup) && Held(heapIndex) == WaitingOf(acts)
      ensures acts == Ranked(old(acts), born) && multiset(sorted) == multiset(born)
      ensures old(Ordered()) ==> Ordered()
      ensures |born| == 1 && epoch != 0 && old(OrderedBut(O(), acts, queues, heapIndex, born[0])) ==> Ordered()
      ensures epoch != 0 && old(RankGroup(acts, born, epoch, rest)) ==>
                Settles(rest, Members(born)) && RankedQueues(O(), old(acts), old(queues), born, queues)
    {
      hide QueuesOk, AllOrdered, OrderedBut, LookupOk, Distinguished, RecordLess, SingleIn, SeveralIn, RankedQueues, Ranked, RankGroup, Refit, RankSteps, EarlierBorn, FirstOfEpoch;
      sorted := born;
      if epoch == 0 || |born| == 0 {
        NoneRanked(acts, born, epoch);
        if |born| == 0 { NobodyRanked(O(), acts, queues, born, rest); }
        return;
      }
      ghost var was, ready := acts, RankGroup(acts, born, epoch, rest);
      if |born| == 1 {
        if ready { OneRanks(O(), acts, queues, heapIndex, born, epoch, rest); }
        SetRank(born[0], epoch, 1, rest);
        RankedOne(was, born, epoch);
        return;
      }
      sorted := SortBorn(acts, born);
      SortedBorn(was, born, sorted, epoch);
      SortedGroup(acts, born, sorted, epoch, rest);
      RankSorted(epoch, sorted, rest);
      RankedSame(was, sorted, born);
      if ready { SortedRanked(O(), was, old(queues), born, sorted, queues); }
    }

    /** Numbers the sorted births, each to its place. */
    method RankSorted(epoch: nat, sorted: seq<Handle>, ghost rest: set<Handle>)
      requires Structure() && LookupOk(acts, lookup) && Held(heapIndex) == WaitingOf(acts)
      requires DistinctBorn(acts, sorted) && OneEpoch(acts, sorted, epoch) && epoch != 0
      requires forall j, k :: 0 <= j < k < |sorted| ==> !RecordBefore(acts, sorted[k], sorted[j])
      modifies `acts, `queues, `heapIndex
      ensures Structure() && LookupOk(acts, lookup) && Held(heapIndex) == WaitingOf(acts)
      ensures acts == Ranked(old(acts), sorted)
      ensures old(Ordered()) ==> Ordered()
      ensures old(RankGroup(acts, sorted, epoch, rest)) ==>
                Settles(rest, Members(sorted)) && queues == RankSteps(O(), old(acts), old(queues), sorted, |sorted|).1
    {
      hide QueuesOk, AllOrdered, OrderedBut, LookupOk, Distinguished, RecordLess, SingleIn, SeveralIn, Ranked, FirstOfEpoch, Refit, RankSteps;
      ghost var was, ready := acts, RankGroup(acts, sorted, epoch, rest);
      assert rest - Members([]) == rest && sorted[..0] == [];
      NoSteps(O(), was, queues, sorted);
      for i := 0 to |sorted|
        invariant Structure() && LookupOk(acts, lookup) && Held(heapIndex) == WaitingOf(acts) && WaitingOf(acts) == WaitingOf(was)
        invariant RankedSoFar(was, sorted, i, acts)
        invariant old(Ordered()) ==> Ordered()
        invariant ready ==> forall m :: old(SingleFor(rest, m)) ==> SingleFor(rest - Members(sorted[..i]), m)
        invariant ready ==> forall m :: Breadth?() && old(SeveralFor(rest, m)) ==> SeveralFor(rest - Members(sorted[..i]), m)
        invariant ready ==> (acts, queues) == RankSteps(O(), was, old(queues), sorted, i)
      {
        ghost var left := rest - Members(sorted[..i]);
        RankedNext(was, sorted, i, acts);
        if ready {
          NextReady(was, acts, sorted, i, rest, epoch);
          StepNext(O(), was, old(queues), sorted, i, acts, queues, heapIndex);
        }
        SetRank(sorted[i], epoch, i + 1, left);
        MembersNext(sorted, i, rest);
      }
      assert sorted[..|sorted|] == sorted;
      RankedAll(was, sorted, epoch, acts);
    }

    /** Ranks the only birth of a batch. */
    method RankAlone(born: seq<Handle>)
      requires Structure() && LookupOk(acts, lookup) && Held(heapIndex) == WaitingOf(acts) && DistinctBorn(acts, born)
      requires |born| == 1
      modifies `acts, `queues, `heapIndex
      ensures Structure() && LookupOk(acts, lookup) && Held(heapIndex) == WaitingOf(acts)
      ensures acts == Ranked(old(acts), born)
      ensures old(Ordered()) ==> Ordered()
      ensures old(acts)[born[0]].birthEpoch != 0 && old(OrderedBut(O(), acts, queues, heapIndex, born[0])) ==> Ordered()
      ensures old(BornWaiting(acts, born)) ==> Settles(Members(born), Members(born)) && RankedQueues(O(), old(acts), old(queues), born, queues)
    {
      hide QueuesOk, AllOrdered, OrderedBut, LookupOk, Distinguished, RecordLess, SingleIn, SeveralIn, RankedQueues;
      if acts[born[0]].birthEpoch == 0 {
        assert acts == Ranked(acts, born);
        return;
      }
      ghost var was, epoch := acts, acts[born[0]].birthEpoch;
      if BornWaiting(acts, born) { OneRanks(O(), acts, queues, heapIndex, born, epoch, Members(born)); }
      SetRank(born[0], acts[born[0]].birthEpoch, 1, Members(born));
      RankedOne(was, born, epoch);
    }

    /** Ranks each epoch's births on their own. */
    method AssignCanonicalBirthRanksByEpoch(born: seq<Handle>)
      requires Structure() && LookupOk(acts, lookup) && Held(heapIndex) == WaitingOf(acts) && DistinctBorn(acts, born)
      modifies `acts, `queues, `heapIndex
      ensures Structure() && LookupOk(acts, lookup) && Held(heapIndex) == WaitingOf(acts)
      ensures acts == Ranked(old(acts), born)
      ensures old(Ordered()) ==> Ordered()
      ensures |born| == 1 && old(acts)[born[0]].birthEpoch != 0 && old(OrderedBut(O(), acts, queues, heapIndex, born[0])) ==> Ordered()
      ensures born == [] ==> queues == old(queues)
      ensures old(BornWaiting(acts, born)) ==> Settles(Members(born), Members(born))
      ensures old(BornWaiting(acts, born)) && born != [] && (exists epoch :: OneEpoch(old(acts), born, epoch)) ==>
                RankedQueues(O(), old(acts), old(queues), born, queues)
    {
      hide QueuesOk, AllOrdered, OrderedBut, LookupOk, Distinguished, RecordLess, Ranked, DistinctBorn, SingleIn, SeveralIn, RankedQueues, OneEpoch, BornWaiting;
      ghost var was, before, all, ready := acts, queues, Members(born), BornWaiting(acts, born);
      if |born| == 0 {
        RankedNobody(was);
        assert all == {} && all - all == all;
        return;
      }
      if |born| == 1 {
        RankAlone(born);
        return;
      }
      var peers := SortByEpoch(acts, born);
      PermutedBorn(was, born, peers);
      SameBirths(was, born, peers);
      var start := 0;
      RankedNobody(was);
      assert peers[..0] == [] && all - Members([]) == all;
      while start < |peers|
        invariant 0 <= start <= |peers|
        invariant Structure() && LookupOk(acts, lookup) && Held(heapIndex) == WaitingOf(acts) && WaitingOf(acts) == WaitingOf(was)
        invariant acts == Ranked(was, peers[..start]) && EpochsApart(was, peers, start)
        invariant old(Ordered()) ==> Ordered()
        invariant ready ==> forall m :: old(SingleFor(all, m)) ==> SingleFor(all - Members(peers[..start]), m)
        invariant ready ==> forall m :: Breadth?() && old(SeveralFor(all, m)) ==> SeveralFor(all - Members(peers[..start]), m)
        invariant start == 0 ==> queues == before
        invariant ready && start > 0 && (exists epoch :: OneEpoch(was, peers, epoch)) ==>
                    start == |peers| && RankedQueues(O(), was, before, peers, queues)
      {
        start := RankNextEpoch(was, peers, start);
      }
      assert peers[..|peers|] == peers;
      RankedSame(was, peers, born);
      if RankedQueues(O(), was, before, peers, queues) { RankedPermuted(O(), was, before, peers, born, queues); }
    }

    /** Ranks the run of equal epochs that starts at a place of the list sorted by epoch. */
    method RankNextEpoch(ghost was: seq<Activation>, peers: seq<Handle>, start: nat) returns (end: nat)
      requires Structure() && LookupOk(acts, lookup) && Held(heapIndex) == WaitingOf(acts)
      requires DistinctBorn(was, peers) && EpochsSorted(was, peers) && start < |peers|
      requires acts == Ranked(was, peers[..start]) && EpochsApart(was, peers, start)
      modifies `acts, `queues, `heapIndex
      ensures Structure() && LookupOk(acts, lookup) && Held(heapIndex) == WaitingOf(acts) && WaitingOf(acts) == WaitingOf(old(acts))
      ensures start < end <= |peers| && acts == Ranked(was, peers[..end]) && EpochsApart(was, peers, end)
      ensures old(Ordered()) ==> Ordered()
      ensures BornWaiting(was, peers) && WaitingOf(was) == WaitingOf(old(acts)) ==>
                var all := Members(peers);
                && (forall m :: old(SingleFor(all - Members(peers[..start]), m)) ==> SingleFor(all - Members(peers[..end]), m))
                && (forall m :: Breadth?() && old(SeveralFor(all - Members(peers[..start]), m)) ==> SeveralFor(all - Members(peers[..end]), m))
                && ((exists epoch :: OneEpoch(was, peers, epoch)) ==> end == |peers|)
                && (start == 0 && end == |peers| ==> RankedQueues(O(), was, old(queues), peers, queues))
    {
      hide QueuesOk, AllOrdered, OrderedBut, LookupOk, Distinguished, RecordLess, Ranked, SingleIn, SeveralIn, RankedQueues, OneEpoch, RankGroup, EpochsApart, BornWaiting;
      RankedEpochs(was, peers[..start]);
      var epoch := acts[peers[start]].birthEpoch;
      end := start + 1;
      if epoch == 0 {
        RankedSkip(was, peers, start);
        NotBornWaiting(was, peers, start);
        return;
      }
      while end < |peers| && acts[peers[end]].birthEpoch == epoch
        invariant start < end <= |peers|
        invariant forall k :: start <= k < end ==> was[peers[k]].birthEpoch == epoch
      {
        end := end + 1;
      }
      ghost var before, group, left := acts, peers[start..end], Members(peers) - Members(peers[..start]);
      GroupOk(was, acts, peers, start, end, epoch);
      if BornWaiting(was, peers) && WaitingOf(was) == WaitingOf(acts) { GroupEpoch(was, acts, peers, start, end, epoch); }
      var _ := AssignCanonicalBirthRanks(epoch, peers[start..end], left);
      GroupRanked(was, before, peers, start, end, epoch);
    }

    // ----- Batches --------------------------------------------------------------------------

    method RemoveTokens(removed: seq<Delta>) returns (ok: bool)
      requires Valid()
      modifies `acts, `queues, `heapIndex, `links
      ensures Valid() && Result(CoreVal(), ok) == RemovedAll(old(CoreVal()), rules, removed, |removed|)
      ensures old(Ordered()) ==> Ordered()
      ensures ok ==> queues == RemovedQueuesAll(O(), old(CoreVal()), rules, removed, |removed|, old(queues))
    {
      hide Valid, AllOrdered, RemovedOne, RemovedQueues;
      ok := true;
      for n := 0 to |removed|
        invariant Valid() && ok && Result(CoreVal(), true) == RemovedAll(old(CoreVal()), rules, removed, n)
        invariant queues == RemovedQueuesAll(O(), old(CoreVal()), rules, removed, n, old(queues))
        invariant old(Ordered()) ==> Ordered()
      {
        ok := RemoveToken(removed[n]);
        if !ok {
          RemovalsStop(old(CoreVal()), rules, removed, n + 1, |removed|);
          return;
        }
      }
    }

    /** One addition of a batch, and how far from order it leaves each queue. */
    method AddNext(d: Delta, births: Births, ghost base: seq<Activation>) returns (next: Births, ok: bool)
      requires Valid() && BirthsOk(acts, births.born) && (Breadth?() || births.born == [])
      modifies this`acts, `queues, `heapIndex, `links, `lookup, `nextOrdinal, `nextEpoch
      ensures Valid() && AddResult(CoreVal(), next, ok) == AddedOne(old(CoreVal()), births, rules, Breadth?(), d)
      ensures queues == AddedQueues(O(), old(CoreVal()), rules, d, old(queues))
      ensures old(Nearly(births.born)) ==> Nearly(next.born)
      ensures ok ==> BirthsOk(acts, next.born) && (Breadth?() || next.born == [])
      ensures Breadth?() && ok && Kept(base, old(acts), births.born) ==>
                && Kept(base, acts, next.born)
                && forall m :: old(Tidy(O(), base, acts, queues, births.born, m)) ==> Tidy(O(), base, acts, queues, next.born, m)
    {
      hide QueuesOk, AllOrdered, OrderedBut, CoreOk, LookupOk, AddedOne, AddedQueues, Nearly, Tidy, Kept, BirthsOk;
      ghost var core := CoreVal();
      AddedOneBirths(core, births, rules, Breadth?(), d);
      NoBirthsInDepth(core, births, rules, d);
      next, ok := AddToken(d, births);
      if Breadth?() && ok && Kept(base, core.acts, births.born) {
        AllTidy(O(), base, core, births, rules, d, old(queues), old(heapIndex), queues, heapIndex);
      }
    }

    /** The general routine: every removal, then every addition, then the ranks of the born. */
    method ApplyTokenDeltas(removed: seq<Delta>, added: seq<Delta>) returns (ok: bool)
      requires Valid()
      modifies this`acts, `queues, `heapIndex, `links, `lookup, `nextOrdinal, `nextEpoch
      ensures Valid() && Result(CoreVal(), ok) == Applied(old(CoreVal()), rules, Breadth?(), removed, added)
      ensures ok && old(Ordered()) && |BornBy(old(CoreVal()), rules, Breadth?(), removed, added)| <= 1 ==> Ordered()
      ensures ok && old(Ordered()) && Breadth?() ==>
                forall m :: m in queues && QueueSafe(old(CoreVal()), rules, removed, added, m) ==> HeapOrdered(O(), acts, queues[m])
      ensures ok ==> DeltaQueues(O(), old(CoreVal()), rules, Breadth?(), removed, added, old(queues), queues)
    {
      hide Valid, AllOrdered, OrderedBut, RemovedAll, AddedAll, AddedOne, Ranked, AddedQueues, AddedQueuesAll, Tidy, Kept, QueueSafe, BirthsOk, RankedQueues, HeapOrdered;
      ok := RemoveTokens(removed);
      if !ok { return; }
      ghost var core, base, before := CoreVal(), acts, queues;
      var births := Births(0, []);
      NothingBorn(core.acts);
      NoneAdded(core, rules, Breadth?(), added, O(), before);
      AllStart(base);
      NoneRemoved(old(CoreVal()), rules);
      for n := 0 to |added|
        invariant Valid() && AddResult(CoreVal(), births, true) == AddedAll(core, rules, Breadth?(), added, n)
        invariant BirthsOk(acts, births.born) && (Breadth?() || births.born == [])
        invariant old(Ordered()) ==> Nearly(births.born)
        invariant Breadth?() ==> Kept(base, acts, births.born)
        invariant Breadth?() && old(Ordered()) ==> forall m :: Tidy(O(), base, acts, queues, births.born, m)
        invariant queues == AddedQueuesAll(O(), core, rules, Breadth?(), added, n, before)
      {
        AddedStep(O(), core, rules, Breadth?(), added, n, before);
        births, ok := AddNext(added[n], births, base);
        if !ok {
          AdditionsStop(core, rules, Breadth?(), added, n + 1, |added|);
          return;
        }
      }
      ghost var r, pushed := AddResult(CoreVal(), births, true), queues;
      RankBorn(births.born);
      if old(Ordered()) && Breadth?() {
        forall m | m in queues && QueueSafe(old(CoreVal()), rules, removed, added, m)
          ensures HeapOrdered(O(), acts, queues[m])
        {
          SafeTidy(O(), old(CoreVal()), rules, removed, added, core, r, pushed, m);
          QueueSettled(m);
        }
      }
    }

    /** A queue with nothing left out of place is in heap order. */
    lemma QueueSettled(m: ModuleName)
      requires Valid() && m in queues && (SingleFor({}, m) || SeveralFor({}, m))
      ensures HeapOrdered(O(), acts, queues[m])
    {
      hide SingleIn, SeveralIn, HeapOrdered;
      ValidStructure();
      QueueOfAt(acts, queues, heapIndex, m);
      TidyDone(O(), acts, queues, m);
    }

    /** Before any addition every queue in order is tidy. */
    lemma AllStart(base: seq<Activation>)
      requires Valid() && base == acts
      ensures Kept(base, acts, [])
      ensures Ordered() ==> forall m :: Tidy(O(), base, acts, queues, [], m)
    {
      hide Tidy, Kept, HeapOrdered;
      ValidStructure();
      forall m
        ensures Ordered() ==> Tidy(O(), base, acts, queues, [], m)
      {
        QueueOfAt(acts, queues, heapIndex, m);
        EmptyHeap(O(), acts);
        if HeapOrdered(O(), acts, QueueAt(queues, m)) { TidyStart(O(), base, queues, m); }
      }
      KeptStart(base);
    }

    /** Ranks the born of a batch, by epoch; there are none in depth. */
    method RankBorn(born: seq<Handle>)
      requires Valid() && BirthsOk(acts, born) && (Breadth?() || born == [])
      modifies `acts, `queues, `heapIndex
      ensures Valid() && CoreVal() == old(CoreVal()).(acts := Ranked(old(acts), born))
      ensures |born| <= 1 && old(Nearly(born)) ==> Ordered()
      ensures forall m :: old(SingleFor(Members(born), m)) ==> SingleFor({}, m)
      ensures forall m :: Breadth?() && old(SeveralFor(Members(born), m)) ==> SeveralFor({}, m)
      ensures born == [] ==> queues == old(queues)
      ensures born != [] && (exists epoch :: OneEpoch(old(acts), born, epoch)) ==> RankedQueues(O(), old(acts), old(queues), born, queues)
    {
      hide QueuesOk, AllOrdered, OrderedBut, LookupOk, CoreOk, Distinguished, Ranked, SingleIn, SeveralIn, RankedQueues, BornWaiting;
      RankedKeeps(CoreVal(), rules, born);
      RankedWaiting(acts, born);
      BirthsWait(acts, born);
      assert Members(born) - Members(born) == {};
      if Breadth?() {
        ValidStructure();
        BirthsDistinct(CoreVal(), rules, born);
        AssignCanonicalBirthRanksByEpoch(born);
      } else {
        RankedNobody(acts);
        assert Members(born) == {};
      }
    }

    /** The removal of the fast path: the same three cases, told apart by state first. */
    method UnsupportSingle(h: Handle)
      requires Valid() && h < |acts|
      modifies `acts, `queues, `heapIndex
      ensures Valid() && acts == old(acts)[h := Unsupported(old(acts)[h])]
      ensures queues == UnsupportedQueues(O(), old(acts), old(queues), h)
      ensures old(Ordered()) ==> Ordered()
    {
      hide QueuesOk, AllOrdered, OrderedBut, CoreOk, LookupOk, Distinguished, Dropped;
      ghost var was, core := acts, CoreVal();
      ValidStructure();
      CoreOkUpdate(core, rules, h, Unsupported(was[h]));
      var deactivate := acts[h].supportCount <= 1;
      Put(h, acts[h].(supportCount := if deactivate then 0 else acts[h].supportCount - 1));
      if deactivate {
        match acts[h].status {
          case Waiting =>
            var _ := Dequeue(h);
            Put(h, acts[h].(status := Deactivated));
            Put(h, acts[h].(token := 0));
            NotWaiting(was, h, acts[h]);
          case Consumed =>
            Put(h, acts[h].(status := Deactivated));
            KeptWaiting(was, h, acts[h]);
          case Deactivated =>
            KeptWaiting(was, h, acts[h]);
        }
      } else {
        KeptWaiting(was, h, acts[h]);
      }
      assert acts == was[h := Unsupported(was[h])];
    }

    /** The fast path for at most one removal and one addition. */
    method ApplySingleTokenDeltas(removed: seq<Delta>, added: seq<Delta>) returns (ok: bool)
      requires Valid() && |removed| <= 1 && |added| <= 1
      modifies this`acts, `queues, `heapIndex, `links, `lookup, `nextOrdinal, `nextEpoch
      ensures Valid() && Result(CoreVal(), ok) == Applied(old(CoreVal()), rules, Breadth?(), removed, added)
      ensures ok && old(Ordered()) ==> Ordered()
      ensures ok ==> DeltaQueues(O(), old(CoreVal()), rules, Breadth?(), removed, added, old(queues), queues)
    {
      hide QueuesOk, CoreOk, LookupOk, AllOrdered, OrderedBut, Find, RemovedOne, AddedOne, AddedQueues, RemovedQueues, Ranked, RankedQueues, BatchQueues;
      ghost var before, queuesBefore := CoreVal(), queues;
      if |removed| == 1 {
        ok := RemoveSingle(removed[0]);
        RemovedSingle(before, rules, removed);
        RemovedSingleQueues(O(), before, rules, removed, queuesBefore);
        if !ok { return; }
      } else {
        assert removed == [];
      }
      ghost var core := CoreVal();
      if |added| != 1 {
        assert added == [];
        NoneAdded(core, rules, Breadth?(), added, O(), queues);
        NoneQueued(O(), core, rules, Breadth?(), added, queues);
        RankedNobody(acts);
        return true;
      }
      AddedSingle(core, rules, Breadth?(), added);
      SingleBatch(O(), core, rules, Breadth?(), added, queues);
      ok := AddSingle(added[0]);
    }

    /** The addition of the fast path: what is born gets its rank at once, and a new activation its link after that. */
    method AddSingle(d: Delta) returns (ok: bool)
      requires Valid()
      modifies this`acts, `queues, `heapIndex, `links, `lookup, `nextOrdinal, `nextEpoch
      ensures Valid() && Result(CoreVal(), ok) == AddedRanked(old(CoreVal()), rules, Breadth?(), d)
      ensures SingleQueues(O(), old(CoreVal()), rules, Breadth?(), d, old(queues), queues)
      ensures old(Ordered()) ==> Ordered()
    {
      hide QueuesOk, CoreOk, LookupOk, AllOrdered, Find, Ranked, RankedQueues;
      if d.token == 0 {
        RankedNobody(acts);
        return true;
      }
      if d.rule !in rules { return false; }
      ValidStructure();
      var existing := FindActivation(d.rule, d.identity, d.facts);
      if existing.Some? {
        SupportSingle(d, existing.value);
      } else {
        CreateSingle(d);
      }
      ok := true;
    }

    method SupportSingle(d: Delta, h: Handle)
      requires Valid() && d.token != 0 && d.rule in rules && Find(acts, d.rule, d.identity, d.facts) == Some(h)
      modifies this`acts, `queues, `heapIndex, `links, `nextEpoch
      ensures Valid() && Result(CoreVal(), true) == AddedRanked(old(CoreVal()), rules, Breadth?(), d)
      ensures SingleQueues(O(), old(CoreVal()), rules, Breadth?(), d, old(queues), queues)
      ensures old(Ordered()) ==> Ordered()
    {
      hide QueuesOk, AllOrdered, OrderedBut, CoreOk, LookupOk, Find, Distinguished, Ranked, RankedQueues, SiftedUp;
      ghost var was, core := acts, CoreVal();
      AddedRankedOk(core, rules, Breadth?(), d);
      ValidStructure();
      Put(h, acts[h].(supportCount := acts[h].supportCount + 1));
      links := links[d.token := Link(h, acts[h].ordinal)];
      if acts[h].status.Deactivated? {
        Rearm(h, d.token);
        NowWaiting(was, h, acts[h]);
        assert acts == was[h := Rearmed(Supported(was[h]), d.token)];
        assert AddedOne(core, Births(0, []), rules, Breadth?(), d) == Born(CoreVal(), Births(0, []), Breadth?(), h, d);
        if Breadth?() {
          BornAlone(CoreVal(), h, d);
          BirthNow(h, d);
        } else {
          RankedNobody(acts);
        }
      } else {
        KeptWaiting(was, h, acts[h]);
        RankedNobody(acts);
      }
    }

    method CreateSingle(d: Delta)
      requires Valid() && d.token != 0 && d.rule in rules && Find(acts, d.rule, d.identity, d.facts).None?
      modifies this`acts, `queues, `heapIndex, `links, `lookup, `nextOrdinal, `nextEpoch
      ensures Valid() && Result(CoreVal(), true) == AddedRanked(old(CoreVal()), rules, Breadth?(), d)
      ensures SingleQueues(O(), old(CoreVal()), rules, Breadth?(), d, old(queues), queues)
      ensures old(Ordered()) ==> Ordered()
    {
      hide QueuesOk, AllOrdered, OrderedBut, CoreOk, LookupOk, Find, Distinguished, Ranked, RankedQueues, SiftedUp;
      ghost var was, core := acts, CoreVal();
      AddedRankedOk(core, rules, Breadth?(), d);
      CreatedFollows(core, rules, d);
      CreatedOk(core, rules, d);
      ValidStructure();
      var h := Store(Created(rules[d.rule], d, 0));
      Enqueue(h);
      AppendWaiting(was, acts[h]);
      assert acts == was + [Created(rules[d.rule], d, nextOrdinal)];
      ghost var linked := CoreVal().(links := links[d.token := Link(h, acts[h].ordinal)]);
      assert AddedOne(core, Births(0, []), rules, Breadth?(), d) == Born(linked, Births(0, []), Breadth?(), h, d);
      if Breadth?() {
        BornAlone(linked, h, d);
        BirthNow(h, d);
      } else {
        RankedNobody(acts);
      }
      links := links[d.token := Link(h, acts[h].ordinal)];
    }

    /** The waiting activation is born and ranked: the only birth of its batch. */
    method BirthNow(h: Handle, d: Delta)
      requires Structure() && LookupOk(acts, lookup) && Held(heapIndex) == WaitingOf(acts) && h < |acts|
      modifies `acts, `queues, `heapIndex, `nextEpoch
      ensures Structure() && LookupOk(acts, lookup) && Held(heapIndex) == WaitingOf(acts)
      ensures var r := Born(old(CoreVal()), Births(0, []), true, h, d);
              && CoreVal() == r.core.(acts := Ranked(r.core.acts, [h])) && acts[h].ordinal == old(acts)[h].ordinal
              && (old(acts)[h].status.Waiting? ==> RankedQueues(O(), r.core.acts, old(queues), [h], queues))
      ensures old(Ordered()) ==> Ordered()
    {
      hide QueuesOk, AllOrdered, OrderedBut, LookupOk, Distinguished, Ranked, RankedQueues;
      ghost var was := acts;
      var births := SetBirth(h, d, Births(0, []));
      KeptWaiting(was, h, acts[h]);
      assert acts == was[h := acts[h]];
      assert DistinctBorn(acts, [h]) && OneEpoch(acts, [h], acts[h].birthEpoch);
      RankedEpochs(acts, [h]);
      var _ := AssignCanonicalBirthRanks(acts[h].birthEpoch, [h], {h});
    }

    method RemoveSingle(d: Delta) returns (ok: bool)
      requires Valid()
      modifies `acts, `queues, `heapIndex, `links
      ensures Valid() && Result(CoreVal(), ok) == RemovedOne(old(CoreVal()), rules, d)
      ensures queues == RemovedQueues(O(), old(CoreVal()), rules, d, old(queues))
      ensures old(Ordered()) ==> Ordered()
    {
      hide QueuesOk, AllOrdered, CoreOk, LookupOk, Find, UnsupportedQueues;
      ghost var core := CoreVal();
      RemovedOneOk(core, rules, d);
      CoreOkLinks(core, links - {d.token}, rules);
      if d.token != 0 {
        var existing := TakeLinked(d);
        if existing.None? {
          if d.rule !in rules { return false; }
          existing := FindActivation(d.rule, d.identity, d.facts);
        }
        if existing.Some? { UnsupportSingle(existing.value); }
      }
      ok := true;
    }
  }

  lemma EmptyHeap(o: Order, acts: seq<Activation>)
    ensures HeapOrdered(o, acts, [0])
  {
  }

  lemma IndexLength(acts: seq<Activation>, queues: map<ModuleName, seq<Handle>>, index: seq<nat>)
    requires QueuesOk(acts, queues, index)
    ensures |index| == |acts|
  {
  }

  lemma BackPointer(acts: seq<Activation>, queues: map<ModuleName, seq<Handle>>, index: seq<nat>, h: Handle)
    requires QueuesOk(acts, queues, index) && h < |acts| && h < |index| && index[h] > 0
    ensures acts[h].moduleName in queues && index[h] < |queues[acts[h].moduleName]| && queues[acts[h].moduleName][index[h]] == h
  {
    assert LeadsTo(acts, queues, index, h);
  }

  /** Once the last handle has taken the removed one's place, only that place is in doubt. */
  lemma RemovalHole(o: Order, acts: seq<Activation>, q: seq<Handle>, i: nat)
    requires Distinguished(acts) && HandlesIn(acts, q) && 1 <= i < |q|
    ensures var last := |q| - 1; var t := Swapped(q, i, last)[..last];
            HeapOrdered(o, acts, q) ==> if i < last then Hole(o, acts, t, i) else HeapOrdered(o, acts, t)
  {
    hide Distinguished, HeapOrdered, Hole, Before;
    var last := |q| - 1;
    if HeapOrdered(o, acts, q) {
      PrefixOrdered(o, acts, q, last);
      if i < last {
        assert HandlesIn(acts, q[..last]);
        ReplacedHandle(o, acts, q[..last], i, q[last]);
        assert Swapped(q, i, last)[..last] == q[..last][i := q[last]];
      } else {
        assert Swapped(q, i, last)[..last] == q[..last];
      }
    }
  }

  /** Nothing in the module comes before the root of its queue. */
  lemma HeadFirst(o: Order, acts: seq<Activation>, queues: map<ModuleName, seq<Handle>>, index: seq<nat>, m: ModuleName)
    requires QueuesOk(acts, queues, index) && Distinguished(acts) && AllOrdered(o, acts, queues)
    requires m in queues && |queues[m]| > 1
    ensures forall k :: k in Held(index) && acts[k].moduleName == m ==> !Before(o, acts, k, queues[m][1])
  {
    QueueHandles(acts, queues, index, m);
    forall k | k in Held(index) && acts[k].moduleName == m
      ensures !Before(o, acts, k, queues[m][1])
    {
      assert LeadsTo(acts, queues, index, k);
      RootFirst(o, acts, queues[m], index[k]);
    }
  }

  /** A waiting activation of the module was consumed, and nothing else changed. */
  predicate FiredFrom(before: seq<Activation>, m: ModuleName, h: Handle, after: seq<Activation>) {
    && h < |before| && before[h].status.Waiting? && before[h].moduleName == m
    && after == before[h := before[h].(status := Consumed, token := 0)]
  }

  lemma SpentWaiting(acts: seq<Activation>, h: Handle)
    requires h < |acts|
    ensures WaitingOf(acts[h := Spent(acts[h])]) == WaitingOf(acts) - {h}
  {
  }

  lemma RootInside(acts: seq<Activation>, queues: map<ModuleName, seq<Handle>>, index: seq<nat>, m: ModuleName)
    requires QueuesOk(acts, queues, index) && m in queues && |queues[m]| > 1
    ensures queues[m][1] < |acts| && acts[queues[m][1]].moduleName == m && queues[m][1] in Held(index)
  {
    QueueHandles(acts, queues, index, m);
    assert PointsBack(acts, index, m, queues[m], 1);
  }

  /** An empty or missing queue means nothing of the module is held. */
  lemma NoneHeld(acts: seq<Activation>, queues: map<ModuleName, seq<Handle>>, index: seq<nat>, m: ModuleName)
    requires QueuesOk(acts, queues, index) && (m in queues ==> |queues[m]| <= 1)
    ensures forall k :: k in Held(index) ==> acts[k].moduleName != m
  {
    forall k | k in Held(index)
      ensures acts[k].moduleName != m
    {
      assert LeadsTo(acts, queues, index, k);
    }
  }

  /** Changing an activation that is in no queue disturbs none. */
  lemma UnheldUpdate(o: Order, acts: seq<Activation>, queues: map<ModuleName, seq<Handle>>, index: seq<nat>, h: Handle, a: Activation)
    requires QueuesOk(acts, queues, index) && Distinguished(acts) && h < |acts| && h !in Held(index)
    requires AllOrdered(o, acts, queues) && a.moduleName == acts[h].moduleName
    ensures AllOrdered(o, acts[h := a], queues)
  {
    hide Distinguished, HeapOrdered, Hole, Less;
    OrderedHole(o, acts, queues, index, h);
    UpdateOrdered(o, acts, queues, index, h, a);
  }

  /** The queue is not empty, and its root is the given waiting activation of the module. */
  predicate IsRoot(acts: seq<Activation>, queues: map<ModuleName, seq<Handle>>, m: ModuleName, h: Handle) {
    m in queues && |queues[m]| > 1 && queues[m][1] == h && h < |acts| && acts[h].status.Waiting? && acts[h].moduleName == m
  }

  lemma BestChanges(o: Order, acts: seq<Activation>, seen: map<ModuleName, Handle>, best: Option<ModuleName>, m: ModuleName, h: Handle)
    requires Distinguished(acts) && h < |acts| && (forall n :: n in seen ==> seen[n] < |acts|)
    requires best.None? ==> seen == map[]
    requires best.Some? ==> best.value in seen && Before(o, acts, h, seen[best.value])
                            && forall n :: n in seen ==> !Before(o, acts, seen[n], seen[best.value])
    ensures !Before(o, acts, h, h) && forall n :: n in seen ==> !Before(o, acts, seen[n], h)
  {
    hide Distinguished, Before;
    BeforeOrder(o, acts, h, h, h);
    forall n | n in seen
      ensures !Before(o, acts, seen[n], h)
    {
      BeforeOrder(o, acts, h, seen[best.value], seen[n]);
    }
  }

  /** The first of the roots is the first of all. */
  lemma RootsFirst(o: Order, acts: seq<Activation>, queues: map<ModuleName, seq<Handle>>, index: seq<nat>,
                   seen: map<ModuleName, Handle>, best: Option<ModuleName>)
    requires QueuesOk(acts, queues, index) && Distinguished(acts) && AllOrdered(o, acts, queues) && WaitingOf(acts) <= Held(index)
    requires forall m :: m in queues ==> m in seen
    requires forall m :: m in seen ==> IsRoot(acts, queues, m, seen[m])
    requires best.Some? ==> best.value in seen && forall m :: m in seen ==> !Before(o, acts, seen[m], seen[best.value])
    ensures best.Some? ==> forall k :: k in WaitingOf(acts) ==> !Before(o, acts, k, seen[best.value])
  {
    hide Distinguished, Before, HeapOrdered;
    if best.Some? {
      forall k | k in WaitingOf(acts)
        ensures !Before(o, acts, k, seen[best.value])
      {
        assert LeadsTo(acts, queues, index, k);
        var m := acts[k].moduleName;
        assert IsRoot(acts, queues, m, seen[m]);
        HeadFirst(o, acts, queues, index, m);
        BeforeOrder(o, acts, seen[best.value], seen[m], k);
      }
    }
  }

  lemma RootsCover(acts: seq<Activation>, queues: map<ModuleName, seq<Handle>>, index: seq<nat>, seen: map<ModuleName, Handle>)
    requires QueuesOk(acts, queues, index) && WaitingOf(acts) <= Held(index) && forall m :: m in queues ==> m in seen
    ensures forall k :: k in WaitingOf(acts) ==> acts[k].moduleName in seen
  {
    forall k | k in WaitingOf(acts)
      ensures acts[k].moduleName in seen
    {
      assert LeadsTo(acts, queues, index, k);
    }
  }

  /** The waiting activations. */
  function Pending(acts: seq<Activation>): set<Activation> {
    set h | h in WaitingOf(acts) :: acts[h]
  }

  lemma PendingApart(acts: seq<Activation>)
    requires Distinguished(acts)
    ensures Apart(Pending(acts))
  {
  }

  lemma PendingFirstIn(o: Order, acts: seq<Activation>, m: ModuleName, h: Handle)
    requires Distinguished(acts) && h in WaitingOf(acts) && acts[h].moduleName == m
    requires forall k :: k in WaitingOf(acts) && acts[k].moduleName == m ==> !Before(o, acts, k, h)
    ensures Apart(InModule(Pending(acts), m)) && InModule(Pending(acts), m) != {} && First(o, InModule(Pending(acts), m)) == acts[h]
  {
    hide Less;
    var s := InModule(Pending(acts), m);
    assert acts[h] in s;
    assert IsFirst(o, s, acts[h]);
    FirstUnique(o, s, acts[h], First(o, s));
  }

  lemma PendingFirst(o: Order, acts: seq<Activation>, h: Handle)
    requires Distinguished(acts) && h in WaitingOf(acts)
    requires forall k :: k in WaitingOf(acts) ==> !Before(o, acts, k, h)
    ensures Apart(Pending(acts)) && Pending(acts) != {} && First(o, Pending(acts)) == acts[h]
  {
    hide Less;
    PendingApart(acts);
    assert acts[h] in Pending(acts);
    assert IsFirst(o, Pending(acts), acts[h]);
    FirstUnique(o, Pending(acts), acts[h], First(o, Pending(acts)));
  }

  lemma PendingSpent(acts: seq<Activation>, h: Handle)
    requires Distinguished(acts) && h in WaitingOf(acts)
    ensures Pending(acts[h := Spent(acts[h])]) == Pending(acts) - {acts[h]}
  {
    SpentWaiting(acts, h);
    var after := acts[h := Spent(acts[h])];
    forall k | k in WaitingOf(acts) && k != h
      ensures acts[k] != acts[h] && k in WaitingOf(after)
    {
    }
  }

  predicate SameBirth(a: Activation, b: Activation) {
    a.birthEpoch == b.birthEpoch && a.birthRank == b.birthRank
  }

  /** Fields that decide no order can change anywhere. */
  lemma SameRanks(o: Order, acts: seq<Activation>, bcts: seq<Activation>, queues: map<ModuleName, seq<Handle>>)
    requires |acts| == |bcts| && forall h :: 0 <= h < |acts| ==> SameMatch(acts[h], bcts[h]) && SameBirth(acts[h], bcts[h])
    ensures AllOrdered(o, acts, queues) ==> AllOrdered(o, bcts, queues)
  {
    forall a, b
      ensures Before(o, acts, a, b) == Before(o, bcts, a, b)
    {
    }
    hide Before;
    if AllOrdered(o, acts, queues) {
      forall m, j | m in queues && 2 <= j < |queues[m]|
        ensures Settled(o, bcts, queues[m], j)
      {
        assert Settled(o, acts, queues[m], j);
      }
    }
  }

  lemma SameRanksBut(o: Order, acts: seq<Activation>, bcts: seq<Activation>, queues: map<ModuleName, seq<Handle>>, index: seq<nat>, h: Handle)
    requires QueuesOk(acts, queues, index) && QueuesOk(bcts, queues, index) && h < |acts|
    requires |acts| == |bcts| && forall k :: 0 <= k < |acts| ==> SameMatch(acts[k], bcts[k]) && SameBirth(acts[k], bcts[k])
    requires OrderedBut(o, acts, queues, index, h)
    ensures OrderedBut(o, bcts, queues, index, h)
  {
    forall a, b
      ensures Before(o, acts, a, b) == Before(o, bcts, a, b)
    {
    }
    hide Before, QueuesOk;
    forall m | m in queues
      ensures if bcts[h].moduleName == m && index[h] > 0 then (BackPointer(bcts, queues, index, h); Hole(o, bcts, queues[m], index[h]))
              else HeapOrdered(o, bcts, queues[m])
    {
      if bcts[h].moduleName == m && index[h] > 0 {
        BackPointer(bcts, queues, index, h);
        SameHole(o, acts, bcts, queues[m], index[h]);
      } else {
        forall j | 2 <= j < |queues[m]|
          ensures Settled(o, bcts, queues[m], j)
        {
          assert Settled(o, acts, queues[m], j);
        }
      }
    }
  }

  lemma SameHole(o: Order, acts: seq<Activation>, bcts: seq<Activation>, q: seq<Handle>, i: nat)
    requires i < |q| && Hole(o, acts, q, i) && forall a, b :: Before(o, acts, a, b) == Before(o, bcts, a, b)
    ensures Hole(o, bcts, q, i)
  {
    hide Before;
    forall j | 2 <= j < |q| && j != i && j / 2 != i
      ensures Settled(o, bcts, q, j)
    {
      assert Settled(o, acts, q, j);
    }
  }

  lemma KeptWaiting(acts: seq<Activation>, h: Handle, a: Activation)
    requires h < |acts| && (a.status.Waiting? <==> acts[h].status.Waiting?)
    ensures WaitingOf(acts[h := a]) == WaitingOf(acts)
  {
  }

  lemma NotWaiting(acts: seq<Activation>, h: Handle, a: Activation)
    requires h < |acts| && !a.status.Waiting?
    ensures WaitingOf(acts[h := a]) == WaitingOf(acts) - {h}
  {
  }

  lemma NowWaiting(acts: seq<Activation>, h: Handle, a: Activation)
    requires h < |acts| && a.status.Waiting?
    ensures WaitingOf(acts[h := a]) == WaitingOf(acts) + {h}
  {
  }

  lemma AppendWaiting(acts: seq<Activation>, a: Activation)
    requires a.status.Waiting?
    ensures WaitingOf(acts + [a]) == WaitingOf(acts) + {|acts|}
  {
  }

  lemma NotHeldOrdered(o: Order, acts: seq<Activation>, queues: map<ModuleName, seq<Handle>>, index: seq<nat>, h: Handle)
    requires QueuesOk(acts, queues, index) && h < |acts| && h !in Held(index) && OrderedBut(o, acts, queues, index, h)
    ensures AllOrdered(o, acts, queues)
  {
    hide HeapOrdered, Hole;
  }

  method SortBorn(acts: seq<Activation>, born: seq<Handle>) returns (s: seq<Handle>)
    requires forall i :: 0 <= i < |born| ==> born[i] < |acts|
    ensures multiset(s) == multiset(born) && forall h :: h in s <==> h in born
    ensures forall j, k :: 0 <= j < k < |s| ==> !RecordBefore(acts, s[k], s[j])
  {
    hide RecordBefore;
    var less := (a: Handle, b: Handle) => RecordBefore(acts, a, b);
    SortMembers(less, born);
    RecordOrders(acts, born);
    SortInOrder(less, born);
    s := Sort(less, born);
    assert forall i, j :: 0 <= i < j < |s| ==> !less(s[j], s[i]);
  }

  method SortByEpoch(acts: seq<Activation>, born: seq<Handle>) returns (s: seq<Handle>)
    requires DistinctBorn(acts, born)
    ensures multiset(s) == multiset(born) && forall h :: h in s <==> h in born
    ensures EpochsSorted(acts, s)
  {
    var less := (a: Handle, b: Handle) => a < |acts| && b < |acts| && acts[a].birthEpoch < acts[b].birthEpoch;
    SortMembers(less, born);
    SortInOrder(less, born);
    s := Sort(less, born);
    assert forall i, j :: 0 <= i < j < |s| ==> s[i] in born && s[j] in born && !less(s[j], s[i]);
  }

  lemma PermutedBorn(acts: seq<Activation>, born: seq<Handle>, s: seq<Handle>)
    requires DistinctBorn(acts, born) && multiset(s) == multiset(born) && forall h :: h in s <==> h in born
    ensures DistinctBorn(acts, s)
  {
    forall i | 0 <= i < |s|
      ensures s[i] < |acts|
    {
      assert s[i] in born;
    }
    forall i, j | 0 <= i < j < |s|
      ensures s[i] != s[j] && acts[s[i]].ordinal != acts[s[j]].ordinal
    {
      if s[i] == s[j] {
        var _, _ := RepeatedBoth(born, s, i, j);
      }
      assert s[i] in born && s[j] in born;
    }
  }

  lemma SortedBorn(acts: seq<Activation>, born: seq<Handle>, s: seq<Handle>, epoch: nat)
    requires DistinctBorn(acts, born) && OneEpoch(acts, born, epoch) && multiset(s) == multiset(born) && forall h :: h in s <==> h in born
    ensures DistinctBorn(acts, s) && OneEpoch(acts, s, epoch)
  {
    PermutedBorn(acts, born, s);
    forall i | 0 <= i < |s|
      ensures acts[s[i]].birthEpoch == epoch
    {
      assert s[i] in born;
    }
  }

  lemma RankedOne(acts: seq<Activation>, born: seq<Handle>, epoch: nat)
    requires DistinctBorn(acts, born) && |born| == 1 && OneEpoch(acts, born, epoch) && epoch != 0
    ensures Ranked(acts, born) == acts[born[0] := acts[born[0]].(birthEpoch := epoch, birthRank := 1)]
  {
    RecordOrder(acts[born[0]], acts[born[0]], acts[born[0]]);
    hide RecordLess;
    assert EarlierBorn(acts, born, born[0]) == {};
  }

  lemma RankedNobody(acts: seq<Activation>)
    ensures acts == Ranked(acts, [])
  {
  }

  /** From `n` on, epochs are later than before `n`. */
  ghost predicate EpochsApart(acts: seq<Activation>, peers: seq<Handle>, n: nat)
    requires n <= |peers|
  {
    forall i, j :: 0 <= i < n <= j < |peers| && peers[i] < |acts| && peers[j] < |acts| ==>
      acts[peers[i]].birthEpoch == 0 || acts[peers[i]].birthEpoch < acts[peers[j]].birthEpoch
  }

  lemma GroupsApart(acts: seq<Activation>, peers: seq<Handle>, start: nat, end: nat, epoch: nat)
    requires DistinctBorn(acts, peers) && EpochsSorted(acts, peers) && start < end <= |peers| && epoch != 0
    requires EpochsApart(acts, peers, start)
    requires forall k :: start <= k < end ==> acts[peers[k]].birthEpoch == epoch
    requires end < |peers| ==> acts[peers[end]].birthEpoch != epoch
    ensures EpochsApart(acts, peers, end)
    ensures forall h, k :: h in peers[..start] && k in peers[start..end] && h < |acts| && k < |acts| ==> acts[h].birthEpoch != acts[k].birthEpoch
  {
    forall i, j | 0 <= i < end <= j < |peers|
      ensures acts[peers[i]].birthEpoch == 0 || acts[peers[i]].birthEpoch < acts[peers[j]].birthEpoch
    {
      assert acts[peers[end - 1]].birthEpoch < acts[peers[end]].birthEpoch;
      if end < j { assert acts[peers[end]].birthEpoch <= acts[peers[j]].birthEpoch; }
      if i < end - 1 { assert acts[peers[i]].birthEpoch <= acts[peers[end - 1]].birthEpoch; }
    }
  }

  lemma RankedEpochs(acts: seq<Activation>, born: seq<Handle>)
    ensures forall h :: 0 <= h < |acts| ==> SameMatch(Ranked(acts, born)[h], acts[h]) && Ranked(acts, born)[h].birthEpoch == acts[h].birthEpoch
  {
    hide EarlierBorn;
  }

  lemma RankedSkip(acts: seq<Activation>, peers: seq<Handle>, n: nat)
    requires DistinctBorn(acts, peers) && n < |peers| && acts[peers[n]].birthEpoch == 0 && EpochsApart(acts, peers, n)
    ensures Ranked(acts, peers[..n + 1]) == Ranked(acts, peers[..n]) && EpochsApart(acts, peers, n + 1)
  {
    assert peers[..n + 1] == peers[..n] + [peers[n]];
    hide RecordLess;
    forall h | 0 <= h < |acts| && acts[h].birthEpoch != 0
      ensures EarlierBorn(acts, peers[..n + 1], h) == EarlierBorn(acts, peers[..n], h)
    {
    }
    hide EarlierBorn;
  }

  lemma NotBornWaiting(was: seq<Activation>, peers: seq<Handle>, i: nat)
    requires i < |peers| && peers[i] < |was| && was[peers[i]].birthEpoch == 0
    ensures !BornWaiting(was, peers)
  {
    assert peers[i] in peers;
  }

  /** A group ranked after the groups before it. */
  lemma GroupRanked(was: seq<Activation>, before: seq<Activation>, peers: seq<Handle>, start: nat, end: nat, epoch: nat)
    requires DistinctBorn(was, peers) && EpochsSorted(was, peers) && start < end <= |peers| && epoch != 0
    requires before == Ranked(was, peers[..start]) && EpochsApart(was, peers, start)
    requires forall k :: start <= k < end ==> was[peers[k]].birthEpoch == epoch
    requires end < |peers| ==> was[peers[end]].birthEpoch != epoch
    ensures Ranked(before, peers[start..end]) == Ranked(was, peers[..end]) && EpochsApart(was, peers, end)
    ensures WaitingOf(Ranked(before, peers[start..end])) == WaitingOf(before)
    ensures var all := Members(peers); all - Members(peers[..start]) - Members(peers[start..end]) == all - Members(peers[..end])
    ensures start == 0 && end == |peers| ==> before == was && peers[start..end] == peers
  {
    GroupsApart(was, peers, start, end, epoch);
    hide Ranked, EpochsSorted, EpochsApart, DistinctBorn, EarlierBorn, WaitingOf;
    assert peers[..end] == peers[..start] + peers[start..end];
    RankedGroups(was, peers[..start], peers[start..end]);
    GroupMembers(peers, start, end);
    RankedWaiting(before, peers[start..end]);
    WholeGroup(was, peers, start, end);
  }

  lemma WholeGroup(was: seq<Activation>, peers: seq<Handle>, start: nat, end: nat)
    requires start <= end <= |peers|
    ensures start == 0 && end == |peers| ==> Ranked(was, peers[..start]) == was && peers[start..end] == peers
  {
    if start == 0 {
      RankedNobody(was);
      assert peers[..0] == [];
    }
  }

  lemma GroupOk(acts: seq<Activation>, now: seq<Activation>, peers: seq<Handle>, start: nat, end: nat, epoch: nat)
    requires DistinctBorn(acts, peers) && start < end <= |peers| && |now| == |acts|
    requires forall h :: 0 <= h < |acts| ==> SameMatch(now[h], acts[h]) && now[h].birthEpoch == acts[h].birthEpoch
    requires forall k :: start <= k < end ==> acts[peers[k]].birthEpoch == epoch
    ensures DistinctBorn(now, peers[start..end]) && OneEpoch(now, peers[start..end], epoch)
  {
  }

  /** Those a batch brings to life, in order of birth. */
  function BornBy(core: Core, rules: Ruleset, breadth: bool, removed: seq<Delta>, added: seq<Delta>): seq<Handle> {
    AddedAll(RemovedAll(core, rules, removed, |removed|).core, rules, breadth, added, |added|).births.born
  }

  lemma {:induction false} RemovalsStop(core: Core, rules: Ruleset, ds: seq<Delta>, n: nat, m: nat)
    requires n <= m <= |ds| && !RemovedAll(core, rules, ds, n).ok
    ensures RemovedAll(core, rules, ds, m) == RemovedAll(core, rules, ds, n)
  {
    if n < m { RemovalsStop(core, rules, ds, n, m - 1); }
  }

  lemma {:induction false} AdditionsStop(core: Core, rules: Ruleset, breadth: bool, ds: seq<Delta>, n: nat, m: nat)
    requires n <= m <= |ds| && !AddedAll(core, rules, breadth, ds, n).ok
    ensures AddedAll(core, rules, breadth, ds, m) == AddedAll(core, rules, breadth, ds, n)
  {
    if n < m { AdditionsStop(core, rules, breadth, ds, n, m - 1); }
  }

  lemma NothingBorn(acts: seq<Activation>)
    ensures BirthsOk(acts, [])
  {
  }

  lemma CreatedFollows(core: Core, rules: Ruleset, d: Delta)
    requires CoreOk(core, rules) && d.rule in rules
    ensures forall k :: 0 <= k < |core.acts| ==>
              SameDeclaration(core.acts[k], Created(rules[d.rule], d, 0)) && core.acts[k].ordinal <= core.nextOrdinal
  {
  }

  lemma NoBirthsInDepth(core: Core, births: Births, rules: Ruleset, d: Delta)
    ensures AddedOne(core, births, rules, false, d).births == births
  {
  }

  lemma RankedWaiting(acts: seq<Activation>, born: seq<Handle>)
    ensures WaitingOf(Ranked(acts, born)) == WaitingOf(acts)
    ensures forall h :: 0 <= h < |acts| ==> KeyOf(Ranked(acts, born)[h]) == KeyOf(acts[h])
  {
    hide EarlierBorn;
  }

  lemma BirthsDistinct(core: Core, rules: Ruleset, born: seq<Handle>)
    requires CoreOk(core, rules) && BirthsOk(core.acts, born)
    ensures DistinctBorn(core.acts, born)
    ensures |born| == 1 ==> OneEpoch(core.acts, born, core.acts[born[0]].birthEpoch)
  {
  }

  lemma RemovedSingle(core: Core, rules: Ruleset, ds: seq<Delta>)
    requires |ds| == 1
    ensures RemovedAll(core, rules, ds, 1) == RemovedOne(core, rules, ds[0])
  {
    assert RemovedAll(core, rules, ds, 0) == Result(core, true);
  }

  /** One addition by itself, with the rank of what is born. */
  ghost function AddedRanked(core: Core, rules: Ruleset, breadth: bool, d: Delta): Result {
    var r := AddedOne(core, Births(0, []), rules, breadth, d);
    Result(if r.ok then r.core.(acts := Ranked(r.core.acts, r.births.born)) else r.core, r.ok)
  }

  /** The queues after an addition that is ranked at once. */
  ghost predicate SingleQueues(o: Order, core: Core, rules: Ruleset, breadth: bool, d: Delta,
                               queues: map<ModuleName, seq<Handle>>, after: map<ModuleName, seq<Handle>>) {
    var r, pushed := AddedOne(core, Births(0, []), rules, breadth, d), AddedQueues(o, core, rules, d, queues);
    if r.births.born == [] then after == pushed else RankedQueues(o, r.core.acts, pushed, r.births.born, after)
  }

  /** They are those of the batch that holds only this addition. */
  lemma SingleBatch(o: Order, core: Core, rules: Ruleset, breadth: bool, ds: seq<Delta>, queues: map<ModuleName, seq<Handle>>)
    requires |ds| == 1
    ensures forall after :: SingleQueues(o, core, rules, breadth, ds[0], queues, after) ==> BatchQueues(o, core, rules, breadth, ds, queues, after)
  {
    hide AddedOne, AddedQueues, RankedQueues;
    AddedSingle(core, rules, breadth, ds);
    assert AddedQueuesAll(o, core, rules, breadth, ds, 0, queues) == queues;
  }

  lemma BornAlone(core: Core, h: Handle, d: Delta)
    requires h < |core.acts|
    ensures var r := Born(core, Births(0, []), true, h, d); r.ok && r.births.born == [h] && r.core.links == core.links && |r.core.acts| == |core.acts|
  {
  }

  lemma AddedRankedOk(core: Core, rules: Ruleset, breadth: bool, d: Delta)
    requires CoreOk(core, rules)
    ensures CoreOk(AddedRanked(core, rules, breadth, d).core, rules)
  {
    hide CoreOk, AddedOne, Ranked;
    var r := AddedOne(core, Births(0, []), rules, breadth, d);
    AddedOneOk(core, Births(0, []), rules, breadth, d);
    RankedKeeps(r.core, rules, r.births.born);
  }

  lemma RemovedSingleQueues(o: Order, core: Core, rules: Ruleset, ds: seq<Delta>, queues: map<ModuleName, seq<Handle>>)
    requires |ds| == 1
    ensures RemovedQueuesAll(o, core, rules, ds, 1, queues) == RemovedQueues(o, core, rules, ds[0], queues)
  {
    hide RemovedQueues;
    assert RemovedAll(core, rules, ds, 0) == Result(core, true);
    assert RemovedQueuesAll(o, core, rules, ds, 0, queues) == queues;
  }

  lemma NoneQueued(o: Order, core: Core, rules: Ruleset, breadth: bool, ds: seq<Delta>, queues: map<ModuleName, seq<Handle>>)
    requires ds == []
    ensures BatchQueues(o, core, rules, breadth, ds, queues, queues)
  {
  }

  lemma AddedSingle(core: Core, rules: Ruleset, breadth: bool, ds: seq<Delta>)
    requires |ds| == 1
    ensures AddedAll(core, rules, breadth, ds, 1) == AddedOne(core, Births(0, []), rules, breadth, ds[0])
  {
    assert AddedAll(core, rules, breadth, ds, 0) == AddResult(core, Births(0, []), true);
  }
}
