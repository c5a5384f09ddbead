/**
 The module queues with their back-pointers, and the lookup index, on values.
 */
module AgendaQueues {
  import opened Options
  import opened AgendaOrder
  import opened AgendaHeap
  import opened AgendaDelta

  // ----- Queues and back-pointers ----------------------------------------------------------

  /** The handle at position `i` of the module's queue is an activation of the module, and points back. */
  predicate PointsBack(acts: seq<Activation>, index: seq<nat>, m: ModuleName, q: seq<Handle>, i: nat)
    requires i < |q|
  {
    q[i] < |acts| && q[i] < |index| && acts[q[i]].moduleName == m && index[q[i]] == i
  }

  ghost predicate QueueOk(acts: seq<Activation>, index: seq<nat>, m: ModuleName, q: seq<Handle>) {
    |q| >= 1 && forall i :: 1 <= i < |q| ==> PointsBack(acts, index, m, q, i)
  }

  /** A back-pointer leads to the handle's place in its module's queue; zero means it is in none. */
  predicate LeadsTo(acts: seq<Activation>, queues: map<ModuleName, seq<Handle>>, index: seq<nat>, h: Handle)
    requires h < |acts| && h < |index|
  {
    index[h] > 0 ==>
      && acts[h].moduleName in queues && index[h] < |queues[acts[h].moduleName]|
      && queues[acts[h].moduleName][index[h]] == h
  }

  ghost predicate QueuesOk(acts: seq<Activation>, queues: map<ModuleName, seq<Handle>>, index: seq<nat>) {
    && |index| == |acts|
    && (forall m :: m in queues ==> QueueOk(acts, index, m, queues[m]))
    && (forall h :: 0 <= h < |index| ==> LeadsTo(acts, queues, index, h))
  }

  /** The handles in some queue. */
  function Held(index: seq<nat>): set<Handle> {
    set h | 0 <= h < |index| && index[h] > 0
  }

  function WaitingOf(acts: seq<Activation>): set<Handle> {
    set h | 0 <= h < |acts| && acts[h].status.Waiting?
  }

  ghost predicate AllOrdered(o: Order, acts: seq<Activation>, queues: map<ModuleName, seq<Handle>>) {
    forall m :: m in queues ==> HeapOrdered(o, acts, queues[m])
  }

  /** Every queue is in heap order, but for the place of `h`. */
  ghost predicate OrderedBut(o: Order, acts: seq<Activation>, queues: map<ModuleName, seq<Handle>>, index: seq<nat>, h: Handle)
    requires QueuesOk(acts, queues, index) && h < |acts|
  {
    forall m :: m in queues ==>
      if acts[h].moduleName == m && index[h] > 0 then (assert LeadsTo(acts, queues, index, h); Hole(o, acts, queues[m], index[h]))
      else HeapOrdered(o, acts, queues[m])
  }

  lemma QueueHandles(acts: seq<Activation>, queues: map<ModuleName, seq<Handle>>, index: seq<nat>, m: ModuleName)
    requires QueuesOk(acts, queues, index) && m in queues
    ensures |queues[m]| >= 1 && HandlesIn(acts, queues[m])
    ensures forall i :: 1 <= i < |queues[m]| ==> PointsBack(acts, index, m, queues[m], i)
  {
    assert QueueOk(acts, index, m, queues[m]);
    forall i | 1 <= i < |queues[m]|
      ensures queues[m][i] < |acts|
    {
      assert PointsBack(acts, index, m, queues[m], i);
    }
  }

  lemma SwapQueues(acts: seq<Activation>, queues: map<ModuleName, seq<Handle>>, index: seq<nat>, m: ModuleName, i: nat, j: nat)
    requires QueuesOk(acts, queues, index) && m in queues && 1 <= i < |queues[m]| && 1 <= j < |queues[m]|
    ensures var q := queues[m];
            && q[i] < |index| && q[j] < |index|
            && QueuesOk(acts, queues[m := Swapped(q, i, j)], index[q[j] := i][q[i] := j])
            && Held(index[q[j] := i][q[i] := j]) == Held(index)
  {
    var q := queues[m];
    assert QueueOk(acts, index, m, q);
    assert PointsBack(acts, index, m, q, i) && PointsBack(acts, index, m, q, j);
    var moved := index[q[j] := i][q[i] := j];
    var next := queues[m := Swapped(q, i, j)];
    forall n, k | n in next && 1 <= k < |next[n]|
      ensures PointsBack(acts, moved, n, next[n], k)
    {
      assert QueueOk(acts, index, n, queues[n]);
      assert PointsBack(acts, index, n, queues[n], k);
    }
    forall h | 0 <= h < |moved|
      ensures LeadsTo(acts, next, moved, h)
    {
      assert LeadsTo(acts, queues, index, h);
    }
  }

  lemma AppendQueues(acts: seq<Activation>, queues: map<ModuleName, seq<Handle>>, index: seq<nat>, h: Handle)
    requires QueuesOk(acts, queues, index) && h < |acts| && index[h] == 0
    requires acts[h].moduleName in queues
    ensures var m := acts[h].moduleName; var q := queues[m];
            QueuesOk(acts, queues[m := q + [h]], index[h := |q|]) && |q| >= 1 && Held(index[h := |q|]) == Held(index) + {h}
  {
    var m, q := acts[h].moduleName, queues[acts[h].moduleName];
    assert QueueOk(acts, index, m, q);
    var moved := index[h := |q|];
    var next := queues[m := q + [h]];
    forall n, k | n in next && 1 <= k < |next[n]|
      ensures PointsBack(acts, moved, n, next[n], k)
    {
      assert QueueOk(acts, index, n, queues[n]);
      assert k < |queues[n]| ==> PointsBack(acts, index, n, queues[n], k);
    }
    forall g | 0 <= g < |moved|
      ensures LeadsTo(acts, next, moved, g)
    {
      assert LeadsTo(acts, queues, index, g);
    }
  }

  lemma TruncateQueues(acts: seq<Activation>, queues: map<ModuleName, seq<Handle>>, index: seq<nat>, m: ModuleName)
    requires QueuesOk(acts, queues, index) && m in queues && |queues[m]| >= 2
    ensures var q := queues[m]; var last := |q| - 1;
            && q[last] < |index|
            && QueuesOk(acts, queues[m := q[..last]], index[q[last] := 0])
            && Held(index[q[last] := 0]) == Held(index) - {q[last]}
  {
    var q := queues[m];
    var last := |q| - 1;
    assert QueueOk(acts, index, m, q);
    assert PointsBack(acts, index, m, q, last);
    var moved := index[q[last] := 0];
    var next := queues[m := q[..last]];
    forall n, k | n in next && 1 <= k < |next[n]|
      ensures PointsBack(acts, moved, n, next[n], k)
    {
      assert QueueOk(acts, index, n, queues[n]);
      assert PointsBack(acts, index, n, queues[n], k);
    }
    forall g | 0 <= g < |moved|
      ensures LeadsTo(acts, next, moved, g)
    {
      assert LeadsTo(acts, queues, index, g);
    }
  }

  lemma OpenQueue(acts: seq<Activation>, queues: map<ModuleName, seq<Handle>>, index: seq<nat>, m: ModuleName)
    requires QueuesOk(acts, queues, index) && m !in queues
    ensures QueuesOk(acts, queues[m := [0]], index)
  {
    var next := queues[m := [0]];
    assert forall n :: n in queues ==> QueueOk(acts, index, n, queues[n]);
    forall h | 0 <= h < |index|
      ensures LeadsTo(acts, next, index, h)
    {
      assert LeadsTo(acts, queues, index, h);
    }
  }

  lemma CloseQueue(acts: seq<Activation>, queues: map<ModuleName, seq<Handle>>, index: seq<nat>, m: ModuleName)
    requires QueuesOk(acts, queues, index) && m in queues && |queues[m]| == 1
    ensures QueuesOk(acts, queues - {m}, index)
  {
    var next := queues - {m};
    assert forall n :: n in queues ==> QueueOk(acts, index, n, queues[n]);
    forall h | 0 <= h < |index|
      ensures LeadsTo(acts, next, index, h)
    {
      assert LeadsTo(acts, queues, index, h);
    }
  }

  /** The queues depend only on which module each activation belongs to. */
  lemma SameModules(acts: seq<Activation>, bcts: seq<Activation>, queues: map<ModuleName, seq<Handle>>, index: seq<nat>)
    requires QueuesOk(acts, queues, index) && |acts| == |bcts|
    requires forall h :: 0 <= h < |acts| ==> acts[h].moduleName == bcts[h].moduleName
    ensures QueuesOk(bcts, queues, index)
  {
    forall m | m in queues
      ensures QueueOk(bcts, index, m, queues[m])
    {
      QueueHandles(acts, queues, index, m);
      forall i | 1 <= i < |queues[m]|
        ensures PointsBack(bcts, index, m, queues[m], i)
      {
        assert PointsBack(acts, index, m, queues[m], i);
      }
    }
    forall h | 0 <= h < |index|
      ensures LeadsTo(bcts, queues, index, h)
    {
      assert LeadsTo(acts, queues, index, h);
    }
  }

  /** A new activation is in no queue yet. */
  lemma StoreQueues(acts: seq<Activation>, queues: map<ModuleName, seq<Handle>>, index: seq<nat>, a: Activation)
    requires QueuesOk(acts, queues, index)
    ensures QueuesOk(acts + [a], queues, index + [0]) && Held(index + [0]) == Held(index)
  {
    forall m | m in queues
      ensures QueueOk(acts + [a], index + [0], m, queues[m])
    {
      QueueHandles(acts, queues, index, m);
      forall i | 1 <= i < |queues[m]|
        ensures PointsBack(acts + [a], index + [0], m, queues[m], i)
      {
        assert PointsBack(acts, index, m, queues[m], i);
      }
    }
    forall h | 0 <= h < |index + [0]|
      ensures LeadsTo(acts + [a], queues, index + [0], h)
    {
      assert h < |index| ==> LeadsTo(acts, queues, index, h);
    }
  }

  lemma StoreOrdered(o: Order, acts: seq<Activation>, queues: map<ModuleName, seq<Handle>>, index: seq<nat>, a: Activation)
    requires QueuesOk(acts, queues, index) && AllOrdered(o, acts, queues)
    ensures AllOrdered(o, acts + [a], queues)
  {
    hide Less;
    forall m | m in queues
      ensures HeapOrdered(o, acts + [a], queues[m])
    {
      QueueHandles(acts, queues, index, m);
      forall j | 2 <= j < |queues[m]|
        ensures Settled(o, acts + [a], queues[m], j)
      {
        assert Settled(o, acts, queues[m], j);
        assert PointsBack(acts, index, m, queues[m], j) && PointsBack(acts, index, m, queues[m], j / 2);
      }
    }
  }

  /** Changing one activation leaves at most its own place in doubt. */
  lemma UpdateOrdered(o: Order, acts: seq<Activation>, queues: map<ModuleName, seq<Handle>>, index: seq<nat>, h: Handle, a: Activation)
    requires QueuesOk(acts, queues, index) && h < |acts| && Distinguished(acts) && a.moduleName == acts[h].moduleName
    requires OrderedBut(o, acts, queues, index, h)
    ensures QueuesOk(acts[h := a], queues, index) && OrderedBut(o, acts[h := a], queues, index, h)
  {
    hide Less, Distinguished;
    var bcts := acts[h := a];
    SameModules(acts, bcts, queues, index);
    forall m | m in queues
      ensures if acts[h].moduleName == m && index[h] > 0 then LeadsTo(acts, queues, index, h) && Hole(o, bcts, queues[m], index[h])
              else HeapOrdered(o, bcts, queues[m])
    {
      QueueHandles(acts, queues, index, m);
      var q := queues[m];
      assert LeadsTo(acts, queues, index, h);
      assert forall j :: 1 <= j < |q| && q[j] == h ==> PointsBack(acts, index, m, q, j);
      forall j, k | 1 <= j < |q| && 1 <= k < |q| && q[j] != h && q[k] != h
        ensures Before(o, bcts, q[j], q[k]) == Before(o, acts, q[j], q[k])
      {
      }
      if acts[h].moduleName == m && index[h] > 0 {
        UpdateHole(o, acts, q, index[h], a);
      } else {
        forall j | 2 <= j < |q|
          ensures Settled(o, bcts, q, j)
        {
          assert Settled(o, acts, q, j) && PointsBack(acts, index, m, q, j) && PointsBack(acts, index, m, q, j / 2);
        }
      }
    }
  }

  lemma UpdateHole(o: Order, acts: seq<Activation>, q: seq<Handle>, i: nat, a: Activation)
    requires 1 <= i < |q| && HandlesIn(acts, q) && Hole(o, acts, q, i)
    requires forall j :: 1 <= j < |q| && j != i ==> q[j] != q[i]
    ensures Hole(o, acts[q[i] := a], q, i)
  {
    hide Less;
    var bcts := acts[q[i] := a];
    forall j | 2 <= j < |q| && j != i && j / 2 != i
      ensures Settled(o, bcts, q, j)
    {
      assert Settled(o, acts, q, j);
    }
  }

  /** Heap order throughout is heap order but for any one place. */
  lemma OrderedHole(o: Order, acts: seq<Activation>, queues: map<ModuleName, seq<Handle>>, index: seq<nat>, h: Handle)
    requires QueuesOk(acts, queues, index) && h < |acts| && Distinguished(acts) && AllOrdered(o, acts, queues)
    ensures OrderedBut(o, acts, queues, index, h)
  {
    hide Before, Distinguished;
    var m := acts[h].moduleName;
    assert LeadsTo(acts, queues, index, h);
    if m in queues && index[h] > 0 {
      QueueHandles(acts, queues, index, m);
      ReplacedHandle(o, acts, queues[m], index[h], h);
      assert queues[m][index[h] := h] == queues[m];
    }
  }

  // ----- The lookup index ----------------------------------------------------------------

  datatype LookupKey = LookupKey(rule: RuleId, identity: Identity)

  datatype LookupBucket = LookupBucket(first: Option<Handle>, rest: seq<Handle>)

  const NO_BUCKET := LookupBucket(None, [])

  function KeyOf(a: Activation): LookupKey {
    LookupKey(a.rule, a.identity)
  }

  function HandlesOf(b: LookupBucket): seq<Handle> {
    (if b.first.Some? then [b.first.value] else []) + b.rest
  }

  function BucketAt(lookup: map<LookupKey, LookupBucket>, k: LookupKey): LookupBucket {
    if k in lookup then lookup[k] else NO_BUCKET
  }

  /** The handles of the key among the first `n`, in storage order. */
  function Keyed(acts: seq<Activation>, k: LookupKey, n: nat): (r: seq<Handle>)
    requires n <= |acts|
    ensures forall i :: 0 <= i < |r| ==> r[i] < n && KeyOf(acts[r[i]]) == k
  {
    if n == 0 then [] else Keyed(acts, k, n - 1) + (if KeyOf(acts[n - 1]) == k then [n - 1] else [])
  }

  /** The index lists under each key what a scan of the storage would. */
  ghost predicate LookupOk(acts: seq<Activation>, lookup: map<LookupKey, LookupBucket>) {
    forall k :: HandlesOf(BucketAt(lookup, k)) == Keyed(acts, k, |acts|) && (BucketAt(lookup, k).first.None? ==> BucketAt(lookup, k).rest == [])
  }

  lemma {:induction false} KeyedSame(acts: seq<Activation>, bcts: seq<Activation>, k: LookupKey, n: nat)
    requires n <= |acts| && n <= |bcts| && forall h :: 0 <= h < n ==> KeyOf(acts[h]) == KeyOf(bcts[h])
    ensures Keyed(acts, k, n) == Keyed(bcts, k, n)
  {
    if n > 0 { KeyedSame(acts, bcts, k, n - 1); }
  }

  lemma LookupSame(acts: seq<Activation>, bcts: seq<Activation>, lookup: map<LookupKey, LookupBucket>)
    requires LookupOk(acts, lookup) && |acts| == |bcts| && forall h :: 0 <= h < |acts| ==> KeyOf(acts[h]) == KeyOf(bcts[h])
    ensures LookupOk(bcts, lookup)
  {
    forall k { KeyedSame(acts, bcts, k, |acts|); }
  }

  function Extended(b: LookupBucket, h: Handle): LookupBucket {
    if b.first.None? && b.rest == [] then LookupBucket(Some(h), []) else LookupBucket(b.first, b.rest + [h])
  }

  lemma ExtendedHandles(b: LookupBucket, h: Handle)
    requires b.first.None? ==> b.rest == []
    ensures HandlesOf(Extended(b, h)) == HandlesOf(b) + [h] && Extended(b, h).first.Some?
  {
  }

  lemma KeyedStore(acts: seq<Activation>, a: Activation, k: LookupKey)
    ensures Keyed(acts + [a], k, |acts| + 1) ==
            if KeyOf(a) == k then Keyed(acts, k, |acts|) + [|acts|] else Keyed(acts, k, |acts|)
  {
    KeyedSame(acts + [a], acts, k, |acts|);
  }

  lemma LookupStore(acts: seq<Activation>, lookup: map<LookupKey, LookupBucket>, a: Activation)
    requires LookupOk(acts, lookup)
    ensures LookupOk(acts + [a], lookup[KeyOf(a) := Extended(BucketAt(lookup, KeyOf(a)), |acts|)])
  {
    hide HandlesOf, Extended, Keyed;
    var b := BucketAt(lookup, KeyOf(a));
    assert HandlesOf(b) == Keyed(acts, KeyOf(a), |acts|);
    ExtendedHandles(b, |acts|);
    var more := lookup[KeyOf(a) := Extended(b, |acts|)];
    forall k
      ensures HandlesOf(BucketAt(more, k)) == Keyed(acts + [a], k, |acts| + 1) && (BucketAt(more, k).first.None? ==> BucketAt(more, k).rest == [])
    {
      KeyedStore(acts, a, k);
      assert HandlesOf(BucketAt(lookup, k)) == Keyed(acts, k, |acts|);
    }
  }

  function FirstAnswer(acts: seq<Activation>, l: seq<Handle>, rule: RuleId, identity: Identity, facts: seq<FactRef>): Option<Handle>
    requires forall i :: 0 <= i < |l| ==> l[i] < |acts|
  {
    if l == [] then None
    else if Answers(acts[l[0]], rule, identity, facts) then Some(l[0])
    else FirstAnswer(acts, l[1..], rule, identity, facts)
  }

  lemma {:induction false} FirstAnswerConcat(acts: seq<Activation>, l: seq<Handle>, h: Handle, rule: RuleId, identity: Identity, facts: seq<FactRef>)
    requires (forall i :: 0 <= i < |l| ==> l[i] < |acts|) && h < |acts|
    ensures FirstAnswer(acts, l + [h], rule, identity, facts) ==
            if FirstAnswer(acts, l, rule, identity, facts).Some? then FirstAnswer(acts, l, rule, identity, facts)
            else if Answers(acts[h], rule, identity, facts) then Some(h) else None
  {
    if l == [] {
      assert [] + [h] == [h];
    } else {
      FirstAnswerConcat(acts, l[1..], h, rule, identity, facts);
      assert (l + [h])[1..] == l[1..] + [h];
    }
  }

  /** Looking under the key finds what a scan of the storage finds. */
  lemma {:induction false} KeyedAnswer(acts: seq<Activation>, rule: RuleId, identity: Identity, facts: seq<FactRef>, n: nat)
    requires n <= |acts|
    ensures var r := FirstAnswer(acts, Keyed(acts, LookupKey(rule, identity), n), rule, identity, facts);
            && (r.Some? ==> r.value < n && Answers(acts[r.value], rule, identity, facts)
                            && forall k :: 0 <= k < r.value ==> !Answers(acts[k], rule, identity, facts))
            && (r.None? ==> forall k :: 0 <= k < n ==> !Answers(acts[k], rule, identity, facts))
  {
    if n > 0 {
      var key := LookupKey(rule, identity);
      KeyedAnswer(acts, rule, identity, facts, n - 1);
      if KeyOf(acts[n - 1]) == key {
        FirstAnswerConcat(acts, Keyed(acts, key, n - 1), n - 1, rule, identity, facts);
      } else {
        assert Keyed(acts, key, n) == Keyed(acts, key, n - 1);
      }
    }
  }

  lemma LookupFinds(acts: seq<Activation>, lookup: map<LookupKey, LookupBucket>, rule: RuleId, identity: Identity, facts: seq<FactRef>)
    requires LookupOk(acts, lookup)
    ensures var l := HandlesOf(BucketAt(lookup, LookupKey(rule, identity)));
            && (forall i :: 0 <= i < |l| ==> l[i] < |acts|)
            && FirstAnswer(acts, l, rule, identity, facts) == Find(acts, rule, identity, facts)
  {
    KeyedAnswer(acts, rule, identity, facts, |acts|);
    assert HandlesOf(BucketAt(lookup, LookupKey(rule, identity))) == Keyed(acts, LookupKey(rule, identity), |acts|);
  }
}
