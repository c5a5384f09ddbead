/**
 What a batch does to one module's queue, on values: how far from heap order it is while births are
 pending, and that the ranks put it right.
 */
module AgendaTidy {
  import opened Options
  import opened AgendaOrder
  import opened AgendaHeap
  import opened BirthRanks
  import opened AgendaDelta
  import opened AgendaBirths
  import opened AgendaQueues
  import opened AgendaHoles

  // ----- The queue's steps --------------------------------------------------------------------

  /** The queues once a waiting activation has been queued. */
  function Pushed(o: Order, acts: seq<Activation>, queues: map<ModuleName, seq<Handle>>, h: Handle): map<ModuleName, seq<Handle>>
    requires h < |acts|
  {
    var q := QueueAt(queues, acts[h].moduleName);
    queues[acts[h].moduleName := SiftedUp(o, acts, q + [h], |q|)]
  }

  /** The queues once a token has come: an activation is queued if it is created or re-armed, before it gets its birth. */
  function AddedQueues(o: Order, core: Core, rules: Ruleset, d: Delta, queues: map<ModuleName, seq<Handle>>): map<ModuleName, seq<Handle>> {
    if d.token == 0 || d.rule !in rules then queues else
    match Find(core.acts, d.rule, d.identity, d.facts)
    case Some(h) =>
      if core.acts[h].status.Deactivated?
      then Pushed(o, core.acts[h := Rearmed(Supported(core.acts[h]), d.token)], queues, h) else queues
    case None => Pushed(o, core.acts + [Created(rules[d.rule], d, core.nextOrdinal + 1)], queues, |core.acts|)
  }

  /** The queues once an activation's place has been put right. */
  function Refit(o: Order, acts: seq<Activation>, queues: map<ModuleName, seq<Handle>>, index: seq<nat>, h: Handle): map<ModuleName, seq<Handle>>
    requires h < |acts|
  {
    var m := acts[h].moduleName;
    if h < |index| && m in queues && 1 <= index[h] < |queues[m]|
    then queues[m := Refitted(o, acts, queues[m], index[h])] else queues
  }

  // ----- Single holes ------------------------------------------------------------------------

  lemma {:induction false} RisesOrdered(o: Order, acts: seq<Activation>, h: seq<Handle>, i: nat)
    requires Distinguished(acts) && HandlesIn(acts, h) && 1 <= i < |h| && Rising(o, acts, h, i)
    ensures HeapOrdered(o, acts, SiftedUp(o, acts, h, i))
    decreases i
  {
    hide Distinguished, Before, Rising;
    if i > 1 && Before(o, acts, h[i], h[i / 2]) {
      RiseStep(o, acts, h, i);
      RisesOrdered(o, acts, Swapped(h, i, i / 2), i / 2);
    } else {
      RiseDone(o, acts, h, i);
    }
  }

  lemma {:induction false} SinksOrdered(o: Order, acts: seq<Activation>, h: seq<Handle>, i: nat)
    requires Distinguished(acts) && HandlesIn(acts, h) && 1 <= i < |h| && Sinking(o, acts, h, i)
    ensures HeapOrdered(o, acts, SiftedDown(o, acts, h, i))
    decreases |h| - i
  {
    hide Distinguished, Before, Sinking;
    if 2 * i < |h| && Before(o, acts, h[FirstChild(o, acts, h, i)], h[i]) {
      SinkStep(o, acts, h, i);
      SinksOrdered(o, acts, Swapped(h, i, FirstChild(o, acts, h, i)), FirstChild(o, acts, h, i));
    } else {
      SinkDone(o, acts, h, i);
    }
  }

  lemma RefittedOrdered(o: Order, acts: seq<Activation>, h: seq<Handle>, i: nat)
    requires Distinguished(acts) && HandlesIn(acts, h) && 1 <= i < |h| && Hole(o, acts, h, i)
    ensures HeapOrdered(o, acts, Refitted(o, acts, h, i))
  {
    hide Distinguished, Before, Rising, Sinking, HeapOrdered, Hole;
    HoleTurns(o, acts, h, i);
    if i > 1 && Before(o, acts, h[i], h[i / 2]) { RisesOrdered(o, acts, h, i); } else { SinksOrdered(o, acts, h, i); }
  }

  lemma PushedOrdered(o: Order, acts: seq<Activation>, q: seq<Handle>, x: Handle)
    requires Distinguished(acts) && HandlesIn(acts, q) && |q| >= 1 && x < |acts| && HeapOrdered(o, acts, q)
    ensures HeapOrdered(o, acts, SiftedUp(o, acts, q + [x], |q|))
  {
    hide Distinguished, Before, Rising, HeapOrdered;
    AppendedRises(o, acts, q, x);
    RisesOrdered(o, acts, q + [x], |q|);
  }

  // ----- How far from order ----------------------------------------------------------------------

  /** At most one handle of the queue is out of place: the one birth pending, if any. */
  ghost predicate Single(o: Order, acts: seq<Activation>, q: seq<Handle>, pending: set<Handle>) {
    || (pending == {} && HeapOrdered(o, acts, q))
    || exists i :: 1 <= i < |q| && pending == {q[i]} && Hole(o, acts, q, i)
  }

  /** Several births may be pending: none has its rank, and those of one salience share an epoch. */
  ghost predicate Several(o: Order, acts: seq<Activation>, q: seq<Handle>, pending: set<Handle>) {
    && Loose(o, acts, q, pending) && (forall y :: y in pending ==> y < |acts| && acts[y].birthRank == 0)
    && forall y, z :: y in pending && z in pending && SameSalience(acts, y, z) ==> acts[y].birthEpoch == acts[z].birthEpoch
  }

  /** A queue of the module: each handle sits in one place. */
  ghost predicate QueueOf(acts: seq<Activation>, m: ModuleName, q: seq<Handle>) {
    && |q| >= 1 && (forall i :: 1 <= i < |q| ==> q[i] < |acts| && acts[q[i]].moduleName == m)
    && forall i, j :: 1 <= i < |q| && 1 <= j < |q| && q[i] == q[j] ==> i == j
  }

  lemma QueueOfAt(acts: seq<Activation>, queues: map<ModuleName, seq<Handle>>, index: seq<nat>, m: ModuleName)
    requires QueuesOk(acts, queues, index)
    ensures QueueOf(acts, m, QueueAt(queues, m)) && HandlesIn(acts, QueueAt(queues, m))
    ensures forall i :: 1 <= i < |QueueAt(queues, m)| ==> QueueAt(queues, m)[i] in Held(index) && index[QueueAt(queues, m)[i]] == i
  {
    if m in queues {
      QueueHandles(acts, queues, index, m);
      var q := queues[m];
      forall i | 1 <= i < |q|
        ensures q[i] < |acts| && q[i] < |index| && acts[q[i]].moduleName == m && index[q[i]] == i
      {
        assert PointsBack(acts, index, m, q, i);
      }
    }
  }

  /** Activations that come before the same others. */
  predicate Alike(a: Activation, b: Activation) {
    a == b.(supportCount := a.supportCount, status := a.status, token := a.token, proof := a.proof)
  }

  /** Nothing in the queue has changed in what decides its order. */
  ghost predicate AlikeIn(acts: seq<Activation>, bcts: seq<Activation>, q: seq<Handle>) {
    |acts| <= |bcts| && forall i :: 1 <= i < |q| ==> q[i] < |acts| && Alike(acts[q[i]], bcts[q[i]])
  }

  lemma AlikeBefore(o: Order, acts: seq<Activation>, bcts: seq<Activation>, q: seq<Handle>)
    requires AlikeIn(acts, bcts, q)
    ensures forall i, j :: 1 <= i < |q| && 1 <= j < |q| ==> Before(o, acts, q[i], q[j]) == Before(o, bcts, q[i], q[j])
    ensures forall i, j :: 1 <= i < |q| && 1 <= j < |q| ==> RecordBefore(acts, q[i], q[j]) == RecordBefore(bcts, q[i], q[j])
  {
  }

  lemma SingleAlike(o: Order, acts: seq<Activation>, bcts: seq<Activation>, q: seq<Handle>, pending: set<Handle>)
    requires AlikeIn(acts, bcts, q) && Single(o, acts, q, pending)
    ensures Single(o, bcts, q, pending)
  {
    AlikeBefore(o, acts, bcts, q);
    hide Before;
    if pending == {} && HeapOrdered(o, acts, q) {
      forall j | 2 <= j < |q|
        ensures Settled(o, bcts, q, j)
      {
        assert Settled(o, acts, q, j);
      }
    } else {
      var i :| 1 <= i < |q| && pending == {q[i]} && Hole(o, acts, q, i);
      HoleAlike(o, acts, bcts, q, i);
    }
  }

  lemma HoleAlike(o: Order, acts: seq<Activation>, bcts: seq<Activation>, q: seq<Handle>, i: nat)
    requires AlikeIn(acts, bcts, q) && 1 <= i < |q| && Hole(o, acts, q, i)
    ensures Hole(o, bcts, q, i)
  {
    AlikeBefore(o, acts, bcts, q);
    hide Before;
    forall j | 2 <= j < |q| && j != i && j / 2 != i
      ensures Settled(o, bcts, q, j)
    {
      assert Settled(o, acts, q, j);
    }
  }

  lemma SeveralAlike(o: Order, acts: seq<Activation>, bcts: seq<Activation>, q: seq<Handle>, pending: set<Handle>)
    requires AlikeIn(acts, bcts, q) && Several(o, acts, q, pending)
    requires forall y :: y in pending ==> y < |acts| && Alike(acts[y], bcts[y])
    ensures Several(o, bcts, q, pending)
  {
    AlikeBefore(o, acts, bcts, q);
    hide Before, RecordBefore;
    forall i, j | Above(i, j) && j < |q|
      ensures MayStand(o, bcts, pending, q[i], q[j])
    {
      assert MayStand(o, acts, pending, q[i], q[j]);
    }
  }

  // ----- A birth -----------------------------------------------------------------------------------

  /** One hole: the birth just queued, once its key has changed. */
  lemma SinglePushed(o: Order, acts: seq<Activation>, q: seq<Handle>, x: Handle, a: Activation, m: ModuleName)
    requires Distinguished(acts) && QueueOf(acts, m, q) && HandlesIn(acts, q) && HeapOrdered(o, acts, q) && x < |acts|
    requires Distinguished(acts[x := a])
    requires var r := SiftedUp(o, acts, q + [x], |q|); QueueOf(acts, m, r) && HandlesIn(acts, r) && x in r[1..]
    ensures Single(o, acts[x := a], SiftedUp(o, acts, q + [x], |q|), {x})
  {
    hide Distinguished, Before, HeapOrdered, Hole, SiftedUp;
    var r := SiftedUp(o, acts, q + [x], |q|);
    PushedOrdered(o, acts, q, x);
    var k :| 0 <= k < |r[1..]| && r[1..][k] == x;
    assert r[k + 1] == x;
    ReplacedHandle(o, acts, r, k + 1, x);
    assert r[k + 1 := x] == r;
    UpdateHole(o, acts, r, k + 1, a);
  }

  /** The waiting activations of a module. */
  function Waiters(acts: seq<Activation>, m: ModuleName): set<Handle> {
    set h | 0 <= h < |acts| && acts[h].status.Waiting? && acts[h].moduleName == m
  }

  /** Several births: one more, which falls where it is. */
  lemma SeveralPushed(o: Order, acts: seq<Activation>, q: seq<Handle>, pending: set<Handle>, x: Handle, a: Activation, m: ModuleName)
    requires o.strategy == Breadth && Distinguished(acts) && QueueOf(acts, m, q) && HandlesIn(acts, q) && x < |acts|
    requires Several(o, acts, q, pending) && pending <= Waiters(acts, m) && x !in pending && x in Waiters(acts, m) && x !in q[1..]
    requires forall i :: 1 <= i < |q| ==> q[i] in Waiters(acts, m)
    requires Leads(o, acts, Waiters(acts, m), pending, x) && Falls(acts[x], a) && a.birthRank == 0
    requires forall y :: y in pending && SameSalience(acts, y, x) ==> acts[y].birthEpoch == a.birthEpoch
    requires HandlesIn(acts, SiftedUp(o, acts, q + [x], |q|))
    ensures Several(o, acts[x := a], SiftedUp(o, acts, q + [x], |q|), pending + {x})
  {
    hide Distinguished, Before, Leads, SiftedUp, MayStand;
    assert forall k :: 1 <= k < |q| ==> q[k] != x by {
      assert forall k :: 1 <= k < |q| ==> q[1..][k - 1] == q[k];
    }
    LoosePushed(o, acts, q, Waiters(acts, m), pending, x);
    LooseFalls(o, acts, SiftedUp(o, acts, q + [x], |q|), pending + {x}, x, a);
  }

  // ----- A rank ------------------------------------------------------------------------------------

  lemma SingleRanked(o: Order, acts: seq<Activation>, q: seq<Handle>, m: ModuleName, i: nat, a: Activation)
    requires QueueOf(acts, m, q) && HandlesIn(acts, q) && 1 <= i < |q| && Single(o, acts, q, {q[i]})
    requires Distinguished(acts[q[i] := a])
    ensures Single(o, acts[q[i] := a], Refitted(o, acts[q[i] := a], q, i), {})
  {
    hide Distinguished, Before, HeapOrdered, Hole, Refitted;
    var x := q[i];
    assert {x} != {} by { assert x in {x}; }
    var j :| 1 <= j < |q| && {x} == {q[j]} && Hole(o, acts, q, j);
    assert q[j] in {x};
    UpdateHole(o, acts, q, i, a);
    RefittedOrdered(o, acts[x := a], q, i);
  }

  lemma SeveralRanked(o: Order, acts: seq<Activation>, q: seq<Handle>, pending: set<Handle>, m: ModuleName, i: nat, a: Activation)
    requires o.strategy == Breadth && QueueOf(acts, m, q) && HandlesIn(acts, q) && 1 <= i < |q| && Several(o, acts, q, pending) && q[i] in pending
    requires Distinguished(acts[q[i] := a]) && a == acts[q[i]].(birthRank := a.birthRank) && a.birthRank > 0
    requires forall y :: y in pending && y != q[i] && SameSalience(acts, y, q[i]) ==> RecordBefore(acts, q[i], y)
    ensures Several(o, acts[q[i] := a], Refitted(o, acts[q[i] := a], q, i), pending - {q[i]})
  {
    hide Distinguished, Before, Refitted, MayStand, RecordLess;
    var x, bcts := q[i], acts[q[i] := a];
    LooseFalls(o, acts, q, pending, x, a);
    var hs := set k | 1 <= k < |q| :: q[k];
    assert Sole(bcts, q, hs, i);
    assert forall y :: y in pending && y != x ==> RecordBefore(bcts, x, y) == RecordBefore(acts, x, y) by {
      RankUnread(acts, x, a);
    }
    LooseRefitted(o, bcts, q, hs, pending, i);
  }

  /** The canonical order does not read ranks. */
  lemma RankUnread(acts: seq<Activation>, x: Handle, a: Activation)
    requires x < |acts| && a == acts[x].(birthEpoch := a.birthEpoch, birthRank := a.birthRank)
    ensures forall y, z :: RecordBefore(acts[x := a], y, z) == RecordBefore(acts, y, z)
  {
  }

  // ----- Births of a batch ------------------------------------------------------------------------

  /** The births of a module. */
  function BornIn(acts: seq<Activation>, born: seq<Handle>, m: ModuleName): set<Handle> {
    set h | h in born && h < |acts| && acts[h].moduleName == m
  }

  ghost predicate AtMostOne(acts: seq<Activation>, born: seq<Handle>, m: ModuleName) {
    forall h, k :: h in BornIn(acts, born, m) && k in BornIn(acts, born, m) ==> h == k
  }

  /** The epoch an activation was queued with: that of its last birth, or none if it is new. */
  function QueuedEpoch(base: seq<Activation>, h: Handle): nat {
    if h < |base| then base[h].birthEpoch else 0
  }

  /** What waits in the module with that salience has been born. */
  ghost predicate Aged(base: seq<Activation>, m: ModuleName, salience: int) {
    forall h :: 0 <= h < |base| && base[h].status.Waiting? && base[h].moduleName == m && base[h].salience == salience ==> base[h].birthEpoch > 0
  }

  /** Of two births of one module and salience the later is new, of the same epoch, and ranks later. */
  ghost predicate InTurn(base: seq<Activation>, acts: seq<Activation>, m: ModuleName, h: Handle, k: Handle) {
    SameSalience(acts, h, k) ==>
      k >= |base| && acts[h].birthEpoch == acts[k].birthEpoch && RecordBefore(acts, h, k) && Aged(base, m, acts[k].salience)
  }

  /**
   The births of a module come in an order that its queue can take: each gets an epoch later than it
   was queued with, and those of one salience come in the order of their ranks. `base` is what the
   additions began with, `acts` what they led to.
   */
  ghost predicate Orderly(base: seq<Activation>, acts: seq<Activation>, born: seq<Handle>, m: ModuleName) {
    && (forall h :: h in BornIn(acts, born, m) ==> QueuedEpoch(base, h) < acts[h].birthEpoch)
    && forall i, j :: 0 <= i < j < |born| && born[i] in BornIn(acts, born, m) && born[j] in BornIn(acts, born, m) ==>
         InTurn(base, acts, m, born[i], born[j])
  }

  /** What is not born in the batch is as it was, and what is new is born in it. */
  ghost predicate Kept(base: seq<Activation>, acts: seq<Activation>, born: seq<Handle>) {
    && |base| <= |acts|
    && (forall h :: 0 <= h < |base| && h !in born ==> Alike(base[h], acts[h]) && (acts[h].status.Waiting? ==> base[h].status.Waiting?))
    && (forall h :: |base| <= h < |acts| ==> h in born)
  }

  /** `x` has been made to wait: it is new, or was deactivated. */
  predicate MadeToWait(acts: seq<Activation>, bcts: seq<Activation>, x: Handle) {
    && x < |bcts| && bcts[x].status.Waiting?
    && if x == |acts| then bcts == acts + [bcts[x]] && bcts[x].birthEpoch == bcts[x].birthRank == 0
       else x < |acts| && acts[x].status.Deactivated? && Alike(acts[x], bcts[x]) && bcts == acts[x := bcts[x]]
  }

  function Reborn(acts: seq<Activation>, x: Handle, epoch: nat): (r: seq<Activation>)
    requires x < |acts|
    ensures |r| == |acts|
  {
    acts[x := acts[x].(birthEpoch := epoch, birthRank := 0)]
  }

  lemma BornInNext(acts: seq<Activation>, bcts: seq<Activation>, born: seq<Handle>, x: Handle, epoch: nat, m: ModuleName)
    requires MadeToWait(acts, bcts, x) && x !in born && forall h :: h in born ==> h < |acts|
    ensures BornIn(Reborn(bcts, x, epoch), born + [x], m) == BornIn(acts, born, m) + if bcts[x].moduleName == m then {x} else {}
  {
    assert forall h :: h in born + [x] <==> h in born || h == x;
  }

  lemma OrderlyBefore(base: seq<Activation>, acts: seq<Activation>, bcts: seq<Activation>, born: seq<Handle>, x: Handle, epoch: nat, m: ModuleName)
    requires MadeToWait(acts, bcts, x) && x !in born && forall h :: h in born ==> h < |acts|
    requires Orderly(base, Reborn(bcts, x, epoch), born + [x], m)
    ensures Orderly(base, acts, born, m)
    ensures bcts[x].moduleName == m ==> QueuedEpoch(base, x) < epoch
    ensures bcts[x].moduleName == m ==> forall y :: y in BornIn(acts, born, m) ==> InTurn(base, Reborn(bcts, x, epoch), m, y, x)
  {
    hide RecordLess;
    var ccts, more := Reborn(bcts, x, epoch), born + [x];
    BornInNext(acts, bcts, born, x, epoch, m);
    assert forall h :: h in born ==> ccts[h] == acts[h];
    forall i, j | 0 <= i < j < |born| && born[i] in BornIn(acts, born, m) && born[j] in BornIn(acts, born, m)
      ensures InTurn(base, acts, m, born[i], born[j])
    {
      assert more[i] == born[i] && more[j] == born[j];
      assert InTurn(base, ccts, m, more[i], more[j]);
    }
    if bcts[x].moduleName == m {
      assert x in BornIn(ccts, more, m);
      forall y | y in BornIn(acts, born, m)
        ensures InTurn(base, ccts, m, y, x)
      {
        var i :| 0 <= i < |born| && born[i] == y;
        assert more[i] == y && more[|born|] == x;
      }
    }
  }

  /** A birth that comes in turn leads its salience. */
  lemma InTurnLeads(o: Order, base: seq<Activation>, acts: seq<Activation>, bcts: seq<Activation>, born: seq<Handle>, x: Handle, epoch: nat, m: ModuleName)
    requires o.strategy == Breadth && MadeToWait(acts, bcts, x) && x !in born && bcts[x].moduleName == m && epoch > 0
    requires BirthsOk(acts, born) && Kept(base, acts, born)
    requires forall y :: y in BornIn(acts, born, m) ==> InTurn(base, Reborn(bcts, x, epoch), m, y, x)
    ensures Leads(o, bcts, Waiters(bcts, m), BornIn(acts, born, m), x)
  {
    hide RecordLess;
    var pending, ccts := BornIn(acts, born, m), Reborn(bcts, x, epoch);
    RankUnread(bcts, x, ccts[x]);
    forall y | y in Waiters(bcts, m) && y != x && SameSalience(bcts, y, x)
      ensures y in pending ==> RecordBefore(bcts, y, x)
      ensures Contested(bcts, pending, x) ==> Before(o, bcts, x, y)
    {
      assert bcts[y] == acts[y] && ccts[y] == acts[y] && y < |acts|;
      if y in pending { assert InTurn(base, ccts, m, y, x) && SameSalience(ccts, y, x); }
      if Contested(bcts, pending, x) {
        var z :| z in pending && z != x && SameSalience(bcts, z, x);
        assert InTurn(base, ccts, m, z, x) && SameSalience(ccts, z, x);
        assert x == |acts|;
        if y in born {
          assert y in pending;
        } else {
          assert Alike(base[y], acts[y]) && base[y].status.Waiting?;
        }
      }
    }
  }

  lemma KeptNext(base: seq<Activation>, acts: seq<Activation>, bcts: seq<Activation>, born: seq<Handle>, x: Handle, epoch: nat)
    requires MadeToWait(acts, bcts, x) && Kept(base, acts, born)
    ensures Kept(base, Reborn(bcts, x, epoch), born + [x])
  {
    assert forall h :: h in born + [x] <==> h in born || h == x;
  }

  /** The state of the queues around a birth. */
  ghost predicate AroundBirth(o: Order, acts: seq<Activation>, bcts: seq<Activation>, x: Handle, epoch: nat,
                              queues: map<ModuleName, seq<Handle>>, index: seq<nat>, after: map<ModuleName, seq<Handle>>, next: seq<nat>) {
    && MadeToWait(acts, bcts, x) && Distinguished(acts) && Distinguished(bcts) && Distinguished(Reborn(bcts, x, epoch))
    && QueuesOk(acts, queues, index) && Held(index) == WaitingOf(acts)
    && after == Pushed(o, bcts, queues, x)
    && QueuesOk(Reborn(bcts, x, epoch), after, next) && Held(next) == WaitingOf(Reborn(bcts, x, epoch))
  }

  lemma HeldLeads(acts: seq<Activation>, queues: map<ModuleName, seq<Handle>>, index: seq<nat>, x: Handle)
    requires QueuesOk(acts, queues, index) && x in Held(index)
    ensures x < |acts| && x < |index| && LeadsTo(acts, queues, index, x)
  {
  }

  lemma NotQueued(o: Order, acts: seq<Activation>, bcts: seq<Activation>, x: Handle, epoch: nat,
                  queues: map<ModuleName, seq<Handle>>, index: seq<nat>, after: map<ModuleName, seq<Handle>>, next: seq<nat>, m: ModuleName)
    requires AroundBirth(o, acts, bcts, x, epoch, queues, index, after, next)
    ensures var q := QueueAt(queues, m);
            && QueueOf(acts, m, q) && HandlesIn(acts, q) && x !in q[1..] && QueueOf(bcts, m, q) && HandlesIn(bcts, q)
            && AlikeIn(acts, bcts, q) && AlikeIn(acts, Reborn(bcts, x, epoch), q)
            && (forall i :: 1 <= i < |q| ==> q[i] in Waiters(acts, m) && q[i] in Waiters(bcts, m))
  {
    hide Distinguished, SiftedUp, Pushed, QueuesOk;
    QueueOfAt(acts, queues, index, m);
    var q := QueueAt(queues, m);
    forall i | 1 <= i < |q|
      ensures q[i] != x && q[i] in Waiters(acts, m) && bcts[q[i]] == acts[q[i]] && q[1..][i - 1] == q[i]
    {
      assert q[i] in WaitingOf(acts);
    }
  }

  lemma NowQueued(o: Order, acts: seq<Activation>, bcts: seq<Activation>, x: Handle, epoch: nat,
                  queues: map<ModuleName, seq<Handle>>, index: seq<nat>, after: map<ModuleName, seq<Handle>>, next: seq<nat>, m: ModuleName)
    requires AroundBirth(o, acts, bcts, x, epoch, queues, index, after, next)
    ensures bcts[x].moduleName != m ==> QueueAt(after, m) == QueueAt(queues, m)
    ensures bcts[x].moduleName == m ==>
              var q, r := QueueAt(queues, m), QueueAt(after, m);
              && r == SiftedUp(o, bcts, q + [x], |q|) && x in r[1..]
              && QueueOf(Reborn(bcts, x, epoch), m, r) && QueueOf(bcts, m, r) && HandlesIn(bcts, r)
  {
    hide Distinguished, SiftedUp, QueuesOk;
    QueueOfAt(Reborn(bcts, x, epoch), after, next, m);
    if bcts[x].moduleName == m {
      assert x in Held(next);
      HeldLeads(Reborn(bcts, x, epoch), after, next, x);
      assert QueueAt(after, m)[1..][next[x] - 1] == x;
    }
  }

  /** A birth leaves at most itself out of place, if no other of its module is pending. */
  lemma SingleBirth(o: Order, acts: seq<Activation>, bcts: seq<Activation>, x: Handle, epoch: nat,
                    queues: map<ModuleName, seq<Handle>>, index: seq<nat>, after: map<ModuleName, seq<Handle>>, next: seq<nat>,
                    born: seq<Handle>, m: ModuleName)
    requires AroundBirth(o, acts, bcts, x, epoch, queues, index, after, next) && x !in born && BirthsOk(acts, born)
    requires AtMostOne(acts, born, m) ==> Single(o, acts, QueueAt(queues, m), BornIn(acts, born, m))
    ensures var ccts := Reborn(bcts, x, epoch);
            AtMostOne(ccts, born + [x], m) ==> Single(o, ccts, QueueAt(after, m), BornIn(ccts, born + [x], m))
  {
    hide Distinguished, SiftedUp, QueuesOk, QueueOf, HandlesIn, AlikeIn, Single, Pushed;
    var ccts, q := Reborn(bcts, x, epoch), QueueAt(queues, m);
    BornInNext(acts, bcts, born, x, epoch, m);
    NotQueued(o, acts, bcts, x, epoch, queues, index, after, next, m);
    NowQueued(o, acts, bcts, x, epoch, queues, index, after, next, m);
    if AtMostOne(ccts, born + [x], m) {
      var pending := BornIn(acts, born, m);
      if bcts[x].moduleName == m {
        assert x in BornIn(ccts, born + [x], m) && forall h :: h in pending ==> h in BornIn(ccts, born + [x], m);
        assert pending == {};
        SingleAlike(o, acts, bcts, q, {});
        NoneOut(o, bcts, q);
        assert BornIn(ccts, born + [x], m) == {x} && bcts[x := ccts[x]] == ccts;
        SinglePushed(o, bcts, q, x, ccts[x], m);
      } else {
        assert BornIn(ccts, born + [x], m) == pending;
        SingleAlike(o, acts, ccts, q, pending);
      }
    }
  }

  lemma NoneOut(o: Order, acts: seq<Activation>, q: seq<Handle>)
    ensures Single(o, acts, q, {}) <==> HeapOrdered(o, acts, q)
  {
    assert forall i :: 1 <= i < |q| ==> q[i] in {q[i]};
  }

  /** A birth that comes in turn leaves the queue loose. */
  lemma SeveralBirth(o: Order, base: seq<Activation>, acts: seq<Activation>, bcts: seq<Activation>, x: Handle, epoch: nat,
                     queues: map<ModuleName, seq<Handle>>, index: seq<nat>, after: map<ModuleName, seq<Handle>>, next: seq<nat>,
                     born: seq<Handle>, m: ModuleName)
    requires o.strategy == Breadth && epoch > 0
    requires AroundBirth(o, acts, bcts, x, epoch, queues, index, after, next) && x !in born && BirthsOk(acts, born) && Kept(base, acts, born)
    requires Orderly(base, acts, born, m) ==> Several(o, acts, QueueAt(queues, m), BornIn(acts, born, m))
    ensures var ccts := Reborn(bcts, x, epoch);
            Orderly(base, ccts, born + [x], m) ==> Several(o, ccts, QueueAt(after, m), BornIn(ccts, born + [x], m))
  {
    hide Distinguished, SiftedUp, QueuesOk, Several, Pushed, RecordBefore;
    var ccts, q := Reborn(bcts, x, epoch), QueueAt(queues, m);
    BornInNext(acts, bcts, born, x, epoch, m);
    NotQueued(o, acts, bcts, x, epoch, queues, index, after, next, m);
    NowQueued(o, acts, bcts, x, epoch, queues, index, after, next, m);
    if Orderly(base, ccts, born + [x], m) {
      OrderlyBefore(base, acts, bcts, born, x, epoch, m);
      hide Orderly, QueueOf, HandlesIn, AlikeIn;
      var pending := BornIn(acts, born, m);
      assert forall y :: y in pending ==> acts[y] == bcts[y] == ccts[y];
      if bcts[x].moduleName == m {
        InTurnLeads(o, base, acts, bcts, born, x, epoch, m);
        FallsReborn(base, acts, bcts, born, x, epoch);
        SeveralAlike(o, acts, bcts, q, pending);
        forall y | y in pending && SameSalience(bcts, y, x)
          ensures bcts[y].birthEpoch == epoch
        {
          assert InTurn(base, ccts, m, y, x) && SameSalience(ccts, y, x);
        }
        assert bcts[x := ccts[x]] == ccts;
        SeveralPushed(o, bcts, q, pending, x, ccts[x], m);
      } else {
        assert BornIn(ccts, born + [x], m) == pending;
        SeveralAlike(o, acts, ccts, q, pending);
      }
    }
  }

  lemma FallsReborn(base: seq<Activation>, acts: seq<Activation>, bcts: seq<Activation>, born: seq<Handle>, x: Handle, epoch: nat)
    requires MadeToWait(acts, bcts, x) && Kept(base, acts, born) && x !in born && QueuedEpoch(base, x) < epoch
    ensures Falls(bcts[x], Reborn(bcts, x, epoch)[x])
  {
    if x < |base| { assert Alike(base[x], acts[x]); }
  }

  // ----- One addition ------------------------------------------------------------------------------

  /** How far from order the queue of a module is while the births `born` are pending. */
  ghost predicate Tidy(o: Order, base: seq<Activation>, acts: seq<Activation>, queues: map<ModuleName, seq<Handle>>, born: seq<Handle>, m: ModuleName) {
    && (AtMostOne(acts, born, m) ==> Single(o, acts, QueueAt(queues, m), BornIn(acts, born, m)))
    && (Orderly(base, acts, born, m) ==> Several(o, acts, QueueAt(queues, m), BornIn(acts, born, m)))
  }

  /** Nothing is born: queues and keys stay. */
  lemma TidyAlike(o: Order, base: seq<Activation>, acts: seq<Activation>, bcts: seq<Activation>, queues: map<ModuleName, seq<Handle>>, index: seq<nat>,
                  born: seq<Handle>, m: ModuleName)
    requires |acts| == |bcts| && (forall h :: 0 <= h < |acts| ==> Alike(acts[h], bcts[h])) && (forall h :: h in born ==> h < |acts|)
    requires QueuesOk(acts, queues, index) && Tidy(o, base, acts, queues, born, m)
    ensures Tidy(o, base, bcts, queues, born, m)
  {
    hide QueuesOk, Several, Single, Orderly, AtMostOne;
    QueueOfAt(acts, queues, index, m);
    var q := QueueAt(queues, m);
    assert BornIn(bcts, born, m) == BornIn(acts, born, m);
    AtMostOneAlike(acts, bcts, born, m);
    OrderlyAlike(base, acts, bcts, born, m);
    if AtMostOne(acts, born, m) { SingleAlike(o, acts, bcts, q, BornIn(acts, born, m)); }
    if Orderly(base, acts, born, m) { SeveralAlike(o, acts, bcts, q, BornIn(acts, born, m)); }
  }

  lemma AtMostOneAlike(acts: seq<Activation>, bcts: seq<Activation>, born: seq<Handle>, m: ModuleName)
    requires BornIn(bcts, born, m) == BornIn(acts, born, m)
    ensures AtMostOne(acts, born, m) == AtMostOne(bcts, born, m)
  {
  }

  lemma OrderlyAlike(base: seq<Activation>, acts: seq<Activation>, bcts: seq<Activation>, born: seq<Handle>, m: ModuleName)
    requires |acts| == |bcts| && forall h :: 0 <= h < |acts| ==> Alike(acts[h], bcts[h])
    requires BornIn(bcts, born, m) == BornIn(acts, born, m)
    ensures Orderly(base, acts, born, m) == Orderly(base, bcts, born, m)
  {
    forall h: Handle, k: Handle
      ensures InTurn(base, acts, m, h, k) == InTurn(base, bcts, m, h, k)
    {
      InTurnAlike(base, acts, bcts, m, h, k);
    }
    hide InTurn;
  }

  lemma InTurnAlike(base: seq<Activation>, acts: seq<Activation>, bcts: seq<Activation>, m: ModuleName, h: Handle, k: Handle)
    requires |acts| == |bcts| && forall h :: 0 <= h < |acts| ==> Alike(acts[h], bcts[h])
    ensures InTurn(base, acts, m, h, k) == InTurn(base, bcts, m, h, k)
  {
    if h < |acts| && k < |acts| { assert Alike(acts[h], bcts[h]) && Alike(acts[k], bcts[k]); }
  }

  lemma KeptAlike(base: seq<Activation>, acts: seq<Activation>, bcts: seq<Activation>, born: seq<Handle>)
    requires |acts| == |bcts| && (forall h :: 0 <= h < |acts| ==> Alike(acts[h], bcts[h]) && acts[h].status == bcts[h].status)
    requires Kept(base, acts, born)
    ensures Kept(base, bcts, born)
  {
  }

  /** A birth keeps what is said of the queue. */
  lemma TidyBirth(o: Order, base: seq<Activation>, acts: seq<Activation>, bcts: seq<Activation>, x: Handle, epoch: nat,
                  queues: map<ModuleName, seq<Handle>>, index: seq<nat>, after: map<ModuleName, seq<Handle>>, next: seq<nat>,
                  born: seq<Handle>, m: ModuleName)
    requires o.strategy == Breadth && epoch > 0
    requires AroundBirth(o, acts, bcts, x, epoch, queues, index, after, next) && x !in born && BirthsOk(acts, born) && Kept(base, acts, born)
    requires Tidy(o, base, acts, queues, born, m)
    ensures Tidy(o, base, Reborn(bcts, x, epoch), after, born + [x], m)
  {
    hide AroundBirth, Several, Single, Orderly, AtMostOne, BirthsOk, Kept;
    SingleBirth(o, acts, bcts, x, epoch, queues, index, after, next, born, m);
    SeveralBirth(o, base, acts, bcts, x, epoch, queues, index, after, next, born, m);
  }

  /** The queues and back-pointers of an agenda in good order. */
  ghost predicate Queued(acts: seq<Activation>, queues: map<ModuleName, seq<Handle>>, index: seq<nat>) {
    QueuesOk(acts, queues, index) && Held(index) == WaitingOf(acts)
  }

  lemma AddedTidy(o: Order, base: seq<Activation>, core: Core, births: Births, rules: Ruleset, d: Delta,
                  queues: map<ModuleName, seq<Handle>>, index: seq<nat>, after: map<ModuleName, seq<Handle>>, next: seq<nat>, m: ModuleName)
    requires o.strategy == Breadth && CoreOk(core, rules) && BirthsOk(core.acts, births.born) && Kept(base, core.acts, births.born)
    requires var r := AddedOne(core, births, rules, true, d);
             r.ok && CoreOk(r.core, rules) && Queued(core.acts, queues, index) && Queued(r.core.acts, after, next)
    requires after == AddedQueues(o, core, rules, d, queues)
    requires Tidy(o, base, core.acts, queues, births.born, m)
    ensures var r := AddedOne(core, births, rules, true, d);
            Kept(base, r.core.acts, r.births.born) && Tidy(o, base, r.core.acts, after, r.births.born, m)
  {
    hide QueuesOk, CoreOk, Tidy, Kept, Find, Pushed;
    var r := AddedOne(core, births, rules, true, d);
    if d.token != 0 {
      var f := Find(core.acts, d.rule, d.identity, d.facts);
      var acts, x, epoch := core.acts, if f.Some? then f.value else |core.acts|, EpochFor(core, births, d);
      if f.Some? && !acts[x].status.Deactivated? {
        KeptAlike(base, acts, r.core.acts, births.born);
        TidyAlike(o, base, acts, r.core.acts, queues, index, births.born, m);
      } else {
        var bcts := if f.Some? then acts[x := Rearmed(Supported(acts[x]), d.token)] else acts + [Created(rules[d.rule], d, core.nextOrdinal + 1)];
        assert MadeToWait(acts, bcts, x) && r.core.acts == Reborn(bcts, x, epoch) && r.births.born == births.born + [x];
        assert x !in births.born;
        BirthDistinguished(core, r.core, rules, bcts, x, epoch);
        KeptNext(base, acts, bcts, births.born, x, epoch);
        TidyBirth(o, base, acts, bcts, x, epoch, queues, index, after, next, births.born, m);
      }
    }
  }

  predicate SameRule(a: Activation, b: Activation) {
    a.rule == b.rule && a.declarationOrder == b.declarationOrder
  }

  lemma BirthDistinguished(core: Core, next: Core, rules: Ruleset, bcts: seq<Activation>, x: Handle, epoch: nat)
    requires CoreOk(core, rules) && CoreOk(next, rules) && MadeToWait(core.acts, bcts, x) && next.acts == Reborn(bcts, x, epoch)
    ensures Distinguished(core.acts) && Distinguished(bcts) && Distinguished(next.acts)
  {
    CoreDistinguished(core, rules);
    CoreDistinguished(next, rules);
    assert forall h :: 0 <= h < |bcts| ==> bcts[h].ordinal == next.acts[h].ordinal && SameRule(bcts[h], next.acts[h]);
  }

  // ----- The ranks ----------------------------------------------------------------------------------

  function SetIn(acts: seq<Activation>, rest: set<Handle>, m: ModuleName): set<Handle> {
    set h | h in rest && h < |acts| && acts[h].moduleName == m
  }

  /** At most one handle of the module's queue is out of place, the one of `rest`. */
  ghost predicate SingleIn(o: Order, acts: seq<Activation>, queues: map<ModuleName, seq<Handle>>, rest: set<Handle>, m: ModuleName) {
    Single(o, acts, QueueAt(queues, m), SetIn(acts, rest, m))
  }

  ghost predicate SeveralIn(o: Order, acts: seq<Activation>, queues: map<ModuleName, seq<Handle>>, rest: set<Handle>, m: ModuleName) {
    Several(o, acts, QueueAt(queues, m), SetIn(acts, rest, m))
  }

  /** Among those still without rank, `h` is first of its epoch. */
  ghost predicate FirstOfEpoch(acts: seq<Activation>, rest: set<Handle>, h: Handle) {
    forall y :: y in rest && y != h && y < |acts| && h < |acts| && acts[y].birthEpoch == acts[h].birthEpoch ==> RecordBefore(acts, h, y)
  }

  /** An activation has got its rank and its place has been put right. */
  ghost predicate RankGiven(o: Order, acts: seq<Activation>, h: Handle, bcts: seq<Activation>,
                            queues: map<ModuleName, seq<Handle>>, index: seq<nat>, after: map<ModuleName, seq<Handle>>) {
    && h < |acts| == |bcts| && bcts == acts[h := acts[h].(birthRank := bcts[h].birthRank)] && bcts[h].birthRank > 0
    && Distinguished(bcts) && QueuesOk(acts, queues, index) && h in Held(index) && after == Refit(o, bcts, queues, index, h)
  }

  lemma RankPlace(o: Order, acts: seq<Activation>, h: Handle, bcts: seq<Activation>, queues: map<ModuleName, seq<Handle>>, index: seq<nat>,
                  after: map<ModuleName, seq<Handle>>, m: ModuleName)
    requires RankGiven(o, acts, h, bcts, queues, index, after)
    ensures var q := QueueAt(queues, m); QueueOf(acts, m, q) && HandlesIn(acts, q)
    ensures acts[h].moduleName == m ==>
              var q, i := QueueAt(queues, m), index[h];
              1 <= i < |q| && q[i] == h && QueueAt(after, m) == Refitted(o, bcts, q, i)
    ensures acts[h].moduleName != m ==> QueueAt(after, m) == QueueAt(queues, m) && AlikeIn(acts, bcts, QueueAt(queues, m))
  {
    hide Distinguished, Refitted;
    QueueOfAt(acts, queues, index, m);
    HeldLeads(acts, queues, index, h);
  }

  lemma SetInLess(acts: seq<Activation>, bcts: seq<Activation>, h: Handle, rest: set<Handle>, m: ModuleName)
    requires h in rest && h < |acts| == |bcts| && bcts == acts[h := acts[h].(birthRank := bcts[h].birthRank)]
    ensures SetIn(bcts, rest - {h}, m) == SetIn(acts, rest, m) - {h}
    ensures acts[h].moduleName == m <==> h in SetIn(acts, rest, m)
  {
  }

  lemma SingleRankStep(o: Order, acts: seq<Activation>, h: Handle, bcts: seq<Activation>, queues: map<ModuleName, seq<Handle>>, index: seq<nat>,
                       after: map<ModuleName, seq<Handle>>, rest: set<Handle>, m: ModuleName)
    requires RankGiven(o, acts, h, bcts, queues, index, after) && h in rest && SingleIn(o, acts, queues, rest, m)
    ensures SingleIn(o, bcts, after, rest - {h}, m)
  {
    hide Distinguished, Refitted, Single, QueuesOk, Refit;
    RankPlace(o, acts, h, bcts, queues, index, after, m);
    SetInLess(acts, bcts, h, rest, m);
    var q, pending := QueueAt(queues, m), SetIn(acts, rest, m);
    if acts[h].moduleName == m {
      OnlyOne(o, acts, q, pending, h);
      assert pending - {h} == {};
      SingleRanked(o, acts, q, m, index[h], bcts[h]);
    } else {
      assert pending - {h} == pending;
      SingleAlike(o, acts, bcts, q, pending);
    }
  }

  lemma OnlyOne(o: Order, acts: seq<Activation>, q: seq<Handle>, pending: set<Handle>, h: Handle)
    requires Single(o, acts, q, pending) && h in pending
    ensures pending == {h}
  {
  }

  lemma SeveralRankStep(o: Order, acts: seq<Activation>, h: Handle, bcts: seq<Activation>, queues: map<ModuleName, seq<Handle>>, index: seq<nat>,
                        after: map<ModuleName, seq<Handle>>, rest: set<Handle>, m: ModuleName)
    requires o.strategy == Breadth && RankGiven(o, acts, h, bcts, queues, index, after) && h in rest && SeveralIn(o, acts, queues, rest, m)
    requires FirstOfEpoch(acts, rest, h)
    ensures SeveralIn(o, bcts, after, rest - {h}, m)
  {
    hide Distinguished, Refitted, Several, QueuesOk, Refit, RecordBefore;
    RankPlace(o, acts, h, bcts, queues, index, after, m);
    SetInLess(acts, bcts, h, rest, m);
    var q, pending := QueueAt(queues, m), SetIn(acts, rest, m);
    if acts[h].moduleName == m {
      OneEpochEach(o, acts, q, pending);
      SeveralRanked(o, acts, q, pending, m, index[h], bcts[h]);
    } else {
      assert pending - {h} == pending;
      SeveralAlike(o, acts, bcts, q, pending);
    }
  }

  lemma OneEpochEach(o: Order, acts: seq<Activation>, q: seq<Handle>, pending: set<Handle>)
    requires Several(o, acts, q, pending)
    ensures forall y, z :: y in pending && z in pending && SameSalience(acts, y, z) ==> acts[y].birthEpoch == acts[z].birthEpoch
  {
  }

  /** With nothing pending the queue is in heap order. */
  lemma TidyDone(o: Order, acts: seq<Activation>, queues: map<ModuleName, seq<Handle>>, m: ModuleName)
    requires Distinguished(acts) && HandlesIn(acts, QueueAt(queues, m))
    ensures SingleIn(o, acts, queues, {}, m) ==> HeapOrdered(o, acts, QueueAt(queues, m))
    ensures SeveralIn(o, acts, queues, {}, m) ==> HeapOrdered(o, acts, QueueAt(queues, m))
  {
    hide Distinguished, Loose, HeapOrdered, Before;
    assert SetIn(acts, {}, m) == {};
    NoneOut(o, acts, QueueAt(queues, m));
    OrderedLoose(o, acts, QueueAt(queues, m));
  }

  /** Before a batch nothing is pending. */
  lemma TidyStart(o: Order, base: seq<Activation>, queues: map<ModuleName, seq<Handle>>, m: ModuleName)
    requires Distinguished(base) && HandlesIn(base, QueueAt(queues, m)) && HeapOrdered(o, base, QueueAt(queues, m))
    ensures Tidy(o, base, base, queues, [], m) && Kept(base, base, [])
  {
    hide Distinguished, Loose, HeapOrdered, Before;
    assert BornIn(base, [], m) == {};
    NoneOut(o, base, QueueAt(queues, m));
    OrderedLoose(o, base, QueueAt(queues, m));
  }

  // ----- All the steps of a ranking ------------------------------------------------------------------

  /** Where the handle sits; zero if nowhere. */
  function PlaceIn(q: seq<Handle>, h: Handle): (i: nat)
    ensures i > 0 ==> i < |q| && q[i] == h
    ensures i == 0 ==> forall k :: 1 <= k < |q| ==> q[k] != h
  {
    if |q| <= 1 then 0 else if q[|q| - 1] == h then |q| - 1 else PlaceIn(q[..|q| - 1], h)
  }

  /** Rank after rank, each followed by the repair of its activation's place. */
  function RankSteps(o: Order, acts: seq<Activation>, queues: map<ModuleName, seq<Handle>>, s: seq<Handle>, n: nat)
    : (r: (seq<Activation>, map<ModuleName, seq<Handle>>))
    requires n <= |s| && forall i :: 0 <= i < |s| ==> s[i] < |acts|
    ensures |r.0| == |acts|
  {
    if n == 0 then (acts, queues) else
    var (a, qs) := RankSteps(o, acts, queues, s, n - 1);
    var h := s[n - 1];
    var b := a[h := a[h].(birthRank := n)];
    var m := b[h].moduleName;
    var i := PlaceIn(QueueAt(qs, m), h);
    (b, if i > 0 then qs[m := Refitted(o, b, QueueAt(qs, m), i)] else qs)
  }

  /** The births in the order of their ranks. */
  ghost predicate RankOrder(acts: seq<Activation>, born: seq<Handle>, s: seq<Handle>) {
    && multiset(s) == multiset(born) && (forall i :: 0 <= i < |s| ==> s[i] < |acts|)
    && forall i, j :: 0 <= i < j < |s| ==> RecordBefore(acts, s[i], s[j])
  }

  /** The queues after births of one epoch have been ranked. */
  ghost predicate RankedQueues(o: Order, acts: seq<Activation>, queues: map<ModuleName, seq<Handle>>, born: seq<Handle>, after: map<ModuleName, seq<Handle>>) {
    exists s :: RankOrder(acts, born, s) && after == RankSteps(o, acts, queues, s, |s|).1
  }

  lemma RefitFound(o: Order, acts: seq<Activation>, queues: map<ModuleName, seq<Handle>>, index: seq<nat>, h: Handle, a: Activation)
    requires QueuesOk(acts, queues, index) && h in Held(index) && h < |acts| && a.moduleName == acts[h].moduleName
    ensures var m, bcts := acts[h].moduleName, acts[h := a];
            var i := PlaceIn(QueueAt(queues, m), h);
            i > 0 && Refit(o, bcts, queues, index, h) == queues[m := Refitted(o, bcts, QueueAt(queues, m), i)]
  {
    hide Refitted, QueuesOk;
    HeldLeads(acts, queues, index, h);
    QueueOfAt(acts, queues, index, acts[h].moduleName);
  }

  /** In a list sorted by rank, each is first of its epoch among those still to come. */
  lemma FirstOfRest(was: seq<Activation>, now: seq<Activation>, s: seq<Handle>, n: nat, rest: set<Handle>, epoch: nat)
    requires DistinctBorn(was, s) && OneEpoch(was, s, epoch) && n < |s| && RankedSoFar(was, s, n, now)
    requires forall j, k :: 0 <= j < k < |s| ==> !RecordBefore(was, s[k], s[j])
    requires forall y :: y in rest && y !in s && y < |was| ==> was[y].birthEpoch != epoch
    ensures s[n] in rest ==> FirstOfEpoch(now, rest - Members(s[..n]), s[n])
  {
    hide RecordLess;
    assert |now| == |was| && forall h :: 0 <= h < |now| ==> now[h] == was[h].(birthRank := now[h].birthRank);
    forall y | y in rest - Members(s[..n]) && y != s[n] && y < |now| && now[y].birthEpoch == now[s[n]].birthEpoch
      ensures RecordBefore(now, s[n], y)
    {
      var k :| 0 <= k < |s| && s[k] == y;
      assert forall j :: 0 <= j < n ==> s[j] in s[..n];
      assert k >= n;
      RecordOrder(was[s[n]], was[y], was[y]);
      RankLess(was[s[n]], now[s[n]], was[y], now[y]);
    }
  }

  lemma RankLess(a: Activation, a': Activation, b: Activation, b': Activation)
    requires a' == a.(birthRank := a'.birthRank) && b' == b.(birthRank := b'.birthRank)
    ensures RecordLess(a, b) == RecordLess(a', b')
  {
  }

  /** Those born wait and have an epoch. */
  ghost predicate BornWaiting(acts: seq<Activation>, born: seq<Handle>) {
    forall h :: h in born ==> h in WaitingOf(acts) && acts[h].birthEpoch != 0
  }

  /** What giving a rank settles, module by module. */
  lemma RankSettles(o: Order, was: seq<Activation>, h: Handle, acts: seq<Activation>, before: map<ModuleName, seq<Handle>>, index: seq<nat>,
                    after: map<ModuleName, seq<Handle>>, rest: set<Handle>)
    requires RankGiven(o, was, h, acts, before, index, after) && h in rest && FirstOfEpoch(was, rest, h)
    ensures forall m :: SingleIn(o, was, before, rest, m) ==> SingleIn(o, acts, after, rest - {h}, m)
    ensures forall m :: o.strategy == Breadth && SeveralIn(o, was, before, rest, m) ==> SeveralIn(o, acts, after, rest - {h}, m)
  {
    hide RankGiven, FirstOfEpoch, SingleIn, SeveralIn;
    forall m
      ensures SingleIn(o, was, before, rest, m) ==> SingleIn(o, acts, after, rest - {h}, m)
      ensures o.strategy == Breadth && SeveralIn(o, was, before, rest, m) ==> SeveralIn(o, acts, after, rest - {h}, m)
    {
      if SingleIn(o, was, before, rest, m) { SingleRankStep(o, was, h, acts, before, index, after, rest, m); }
      if o.strategy == Breadth && SeveralIn(o, was, before, rest, m) { SeveralRankStep(o, was, h, acts, before, index, after, rest, m); }
    }
  }

  ghost predicate EpochsSorted(acts: seq<Activation>, s: seq<Handle>) {
    forall j, k :: 0 <= j < k < |s| ==> s[j] < |acts| && s[k] < |acts| && acts[s[j]].birthEpoch <= acts[s[k]].birthEpoch
  }

  /** Those born wait and are of `rest`, and nothing else of `rest` is of their epoch. */
  ghost predicate RankGroup(acts: seq<Activation>, born: seq<Handle>, epoch: nat, rest: set<Handle>) {
    && Members(born) <= rest && (forall h :: h in born ==> h in WaitingOf(acts))
    && forall y :: y in rest && y !in born && y < |acts| ==> acts[y].birthEpoch != epoch
  }

  lemma NobodyRanked(o: Order, acts: seq<Activation>, queues: map<ModuleName, seq<Handle>>, born: seq<Handle>, rest: set<Handle>)
    requires born == []
    ensures rest - Members(born) == rest && RankedQueues(o, acts, queues, born, queues)
  {
    var none: seq<Handle> := [];
    assert RankOrder(acts, born, none) && RankSteps(o, acts, queues, none, 0).1 == queues;
  }

  lemma OneRanks(o: Order, acts: seq<Activation>, queues: map<ModuleName, seq<Handle>>, index: seq<nat>, born: seq<Handle>, epoch: nat, rest: set<Handle>)
    requires |born| == 1 && OneEpoch(acts, born, epoch) && RankGroup(acts, born, epoch, rest)
    requires QueuesOk(acts, queues, index) && Held(index) == WaitingOf(acts)
    ensures born[0] in rest && born[0] in WaitingOf(acts) && FirstOfEpoch(acts, rest, born[0]) && Members(born) == {born[0]}
    ensures RankedQueues(o, acts, queues, born, Refit(o, acts[born[0] := acts[born[0]].(birthEpoch := epoch, birthRank := 1)], queues, index, born[0]))
  {
    hide QueuesOk, Refit, RecordBefore;
    var h := born[0];
    assert h in born;
    assert born == [h];
    RefitFound(o, acts, queues, index, h, acts[h].(birthRank := 1));
    assert acts[h].(birthEpoch := epoch, birthRank := 1) == acts[h].(birthRank := 1);
    assert RankSteps(o, acts, queues, born, 0) == (acts, queues);
    assert RankOrder(acts, born, born);
  }

  lemma NoSteps(o: Order, acts: seq<Activation>, queues: map<ModuleName, seq<Handle>>, s: seq<Handle>)
    requires forall i :: 0 <= i < |s| ==> s[i] < |acts|
    ensures RankSteps(o, acts, queues, s, 0) == (acts, queues)
  {
  }

  lemma NextReady(was: seq<Activation>, now: seq<Activation>, s: seq<Handle>, i: nat, rest: set<Handle>, epoch: nat)
    requires DistinctBorn(was, s) && OneEpoch(was, s, epoch) && i < |s| && RankedSoFar(was, s, i, now)
    requires forall j, k :: 0 <= j < k < |s| ==> !RecordBefore(was, s[k], s[j])
    requires RankGroup(was, s, epoch, rest) && WaitingOf(now) == WaitingOf(was)
    ensures s[i] in rest - Members(s[..i]) && s[i] in WaitingOf(now) && now[s[i]].birthEpoch == epoch
    ensures FirstOfEpoch(now, rest - Members(s[..i]), s[i])
  {
    hide RecordBefore, FirstOfEpoch;
    assert s[i] in s && s[i] !in s[..i];
    FirstOfRest(was, now, s, i, rest, epoch);
  }

  lemma StepNext(o: Order, was: seq<Activation>, before: map<ModuleName, seq<Handle>>, s: seq<Handle>, i: nat,
                 acts: seq<Activation>, queues: map<ModuleName, seq<Handle>>, index: seq<nat>)
    requires i < |s| && (forall k :: 0 <= k < |s| ==> s[k] < |was|) && (acts, queues) == RankSteps(o, was, before, s, i)
    requires QueuesOk(acts, queues, index) && s[i] in Held(index)
    ensures var bcts := acts[s[i] := acts[s[i]].(birthRank := i + 1)];
            RankSteps(o, was, before, s, i + 1) == (bcts, Refit(o, bcts, queues, index, s[i]))
  {
    hide QueuesOk, Refit, Refitted;
    RefitFound(o, acts, queues, index, s[i], acts[s[i]].(birthRank := i + 1));
  }

  lemma MembersNext(s: seq<Handle>, i: nat, rest: set<Handle>)
    requires i < |s|
    ensures rest - Members(s[..i]) - {s[i]} == rest - Members(s[..i + 1])
  {
    assert s[..i + 1] == s[..i] + [s[i]];
  }

  lemma SortedRanked(o: Order, was: seq<Activation>, before: map<ModuleName, seq<Handle>>, born: seq<Handle>, s: seq<Handle>, after: map<ModuleName, seq<Handle>>)
    requires DistinctBorn(was, s) && multiset(s) == multiset(born) && after == RankSteps(o, was, before, s, |s|).1
    requires forall j, k :: 0 <= j < k < |s| ==> !RecordBefore(was, s[k], s[j])
    ensures RankedQueues(o, was, before, born, after)
  {
    hide RankSteps, RecordLess;
    forall i, j | 0 <= i < j < |s|
      ensures RecordBefore(was, s[i], s[j])
    {
      RecordOrder(was[s[i]], was[s[j]], was[s[i]]);
    }
    assert RankOrder(was, born, s);
  }

  lemma SameBirths(was: seq<Activation>, born: seq<Handle>, peers: seq<Handle>)
    requires forall h :: h in peers <==> h in born
    ensures Members(peers) == Members(born) && BornWaiting(was, peers) == BornWaiting(was, born)
    ensures forall epoch :: OneEpoch(was, peers, epoch) <==> OneEpoch(was, born, epoch)
  {
    assert forall i :: 0 <= i < |born| ==> born[i] in peers;
    assert forall i :: 0 <= i < |peers| ==> peers[i] in born;
    forall epoch
      ensures OneEpoch(was, peers, epoch) <==> OneEpoch(was, born, epoch)
    {
      OneEpochMembers(was, born, epoch);
      OneEpochMembers(was, peers, epoch);
    }
  }

  lemma OneEpochMembers(acts: seq<Activation>, born: seq<Handle>, epoch: nat)
    ensures OneEpoch(acts, born, epoch) <==> forall h :: h in born ==> h < |acts| && acts[h].birthEpoch == epoch
  {
    assert forall i :: 0 <= i < |born| ==> born[i] in born;
  }

  lemma RankedPermuted(o: Order, was: seq<Activation>, before: map<ModuleName, seq<Handle>>, peers: seq<Handle>, born: seq<Handle>, after: map<ModuleName, seq<Handle>>)
    requires RankedQueues(o, was, before, peers, after) && multiset(peers) == multiset(born)
    ensures RankedQueues(o, was, before, born, after)
  {
    hide RankSteps, RecordBefore;
    var s :| RankOrder(was, peers, s) && after == RankSteps(o, was, before, s, |s|).1;
    assert RankOrder(was, born, s);
  }

  lemma GroupEpoch(was: seq<Activation>, now: seq<Activation>, peers: seq<Handle>, start: nat, end: nat, epoch: nat)
    requires DistinctBorn(was, peers) && EpochsSorted(was, peers) && start < end <= |peers| && |now| == |was|
    requires (forall k :: start <= k < end ==> was[peers[k]].birthEpoch == epoch) && (end < |peers| ==> was[peers[end]].birthEpoch != epoch)
    requires forall h :: 0 <= h < |was| ==> now[h].birthEpoch == was[h].birthEpoch
    requires BornWaiting(was, peers) && WaitingOf(now) == WaitingOf(was) && (forall h :: h in peers ==> h < |was|)
    ensures RankGroup(now, peers[start..end], epoch, Members(peers) - Members(peers[..start]))
    ensures (exists e :: OneEpoch(was, peers, e)) ==> end == |peers|
  {
    hide WaitingOf, OneEpoch, DistinctBorn;
    var group, rest := peers[start..end], Members(peers) - Members(peers[..start]);
    forall h | h in group
      ensures h in rest && h in WaitingOf(now)
    {
      var k :| start <= k < end && peers[k] == h;
      LaterPlace(was, peers, start, k);
    }
    forall y | y in rest && y !in group && y < |now|
      ensures now[y].birthEpoch != epoch
    {
      var k := PlaceOfRest(peers, start, end, y);
      assert k > end ==> was[peers[end]].birthEpoch <= was[peers[k]].birthEpoch;
      assert k > start ==> was[peers[start]].birthEpoch <= was[peers[end]].birthEpoch;
    }
    if end < |peers| { TwoEpochs(was, peers, start, end); }
  }

  lemma LaterPlace(acts: seq<Activation>, peers: seq<Handle>, start: nat, k: nat)
    requires DistinctBorn(acts, peers) && start <= k < |peers|
    ensures peers[k] in peers && peers[k] !in peers[..start]
  {
  }

  lemma PlaceOfRest(peers: seq<Handle>, start: nat, end: nat, y: Handle) returns (k: nat)
    requires start <= end <= |peers| && y in peers && y !in peers[..start] && y !in peers[start..end]
    ensures end <= k < |peers| && peers[k] == y
  {
    assert peers == peers[..start] + peers[start..end] + peers[end..];
    var j :| 0 <= j < |peers[end..]| && peers[end..][j] == y;
    k := end + j;
  }

  lemma TwoEpochs(acts: seq<Activation>, peers: seq<Handle>, i: nat, j: nat)
    requires i < |peers| && j < |peers| && peers[i] < |acts| && peers[j] < |acts|
    requires acts[peers[i]].birthEpoch != acts[peers[j]].birthEpoch
    ensures !exists e :: OneEpoch(acts, peers, e)
  {
  }

  lemma GroupMembers(peers: seq<Handle>, start: nat, end: nat)
    requires start <= end <= |peers|
    ensures var all := Members(peers); all - Members(peers[..start]) - Members(peers[start..end]) == all - Members(peers[..end])
  {
    assert peers[..end] == peers[..start] + peers[start..end];
  }

  lemma NoneRanked(acts: seq<Activation>, born: seq<Handle>, epoch: nat)
    requires OneEpoch(acts, born, epoch) && (epoch == 0 || born == [])
    ensures acts == Ranked(acts, born)
  {
  }

  lemma SortedGroup(acts: seq<Activation>, born: seq<Handle>, s: seq<Handle>, epoch: nat, rest: set<Handle>)
    requires forall h :: h in s <==> h in born
    ensures Members(s) == Members(born) && RankGroup(acts, s, epoch, rest) == RankGroup(acts, born, epoch, rest)
  {
  }

  // ----- Removals -----------------------------------------------------------------------------------

  /** The queues without the activation; an empty one is closed. */
  function Dropped(o: Order, acts: seq<Activation>, queues: map<ModuleName, seq<Handle>>, h: Handle): map<ModuleName, seq<Handle>>
    requires h < |acts|
  {
    var m := acts[h].moduleName;
    var i := PlaceIn(QueueAt(queues, m), h);
    if i == 0 then queues
    else if |QueueAt(queues, m)| == 2 then queues - {m}
    else queues[m := WithoutPlace(o, acts, QueueAt(queues, m), i)]
  }

  /** The back-pointer is the place. */
  lemma PlaceHeldAt(acts: seq<Activation>, queues: map<ModuleName, seq<Handle>>, index: seq<nat>, h: Handle)
    requires QueuesOk(acts, queues, index) && h in Held(index)
    ensures h < |acts| && acts[h].moduleName in queues && PlaceIn(QueueAt(queues, acts[h].moduleName), h) == index[h] > 0
  {
    HeldLeads(acts, queues, index, h);
    QueueOfAt(acts, queues, index, acts[h].moduleName);
  }

  /** The queues once the activation has lost a token: it leaves if that was its last and it waits. */
  function UnsupportedQueues(o: Order, acts: seq<Activation>, queues: map<ModuleName, seq<Handle>>, h: Handle): map<ModuleName, seq<Handle>>
    requires h < |acts|
  {
    if acts[h].supportCount <= 1 && acts[h].status.Waiting?
    then Dropped(o, acts[h := acts[h].(supportCount := 0)], queues, h) else queues
  }

  function RemovedQueues(o: Order, core: Core, rules: Ruleset, d: Delta, queues: map<ModuleName, seq<Handle>>): map<ModuleName, seq<Handle>> {
    if d.token == 0 then queues else
    match Linked(core, d)
    case Some(h) => UnsupportedQueues(o, core.acts, queues, h)
    case None =>
      if d.rule !in rules then queues else
      match Find(core.acts, d.rule, d.identity, d.facts)
      case Some(h) => UnsupportedQueues(o, core.acts, queues, h)
      case None => queues
  }

  /** The queues once the first `n` tokens have gone. */
  function RemovedQueuesAll(o: Order, core: Core, rules: Ruleset, ds: seq<Delta>, n: nat, queues: map<ModuleName, seq<Handle>>)
    : map<ModuleName, seq<Handle>>
    requires n <= |ds|
  {
    if n == 0 then queues
    else RemovedQueues(o, RemovedAll(core, rules, ds, n - 1).core, rules, ds[n - 1], RemovedQueuesAll(o, core, rules, ds, n - 1, queues))
  }

  // ----- A whole batch -----------------------------------------------------------------------------

  /** The queues once the first `n` tokens have come. */
  function AddedQueuesAll(o: Order, core: Core, rules: Ruleset, breadth: bool, ds: seq<Delta>, n: nat, queues: map<ModuleName, seq<Handle>>)
    : map<ModuleName, seq<Handle>>
    requires n <= |ds|
  {
    if n == 0 then queues
    else AddedQueues(o, AddedAll(core, rules, breadth, ds, n - 1).core, rules, ds[n - 1], AddedQueuesAll(o, core, rules, breadth, ds, n - 1, queues))
  }

  /**
   The batch cannot take the module's queue out of order: at most one activation of the module is
   born in it, or its births come in the order of their ranks.
   */
  ghost predicate QueueSafe(core: Core, rules: Ruleset, removed: seq<Delta>, added: seq<Delta>, m: ModuleName) {
    var base := RemovedAll(core, rules, removed, |removed|).core;
    var r := AddedAll(base, rules, true, added, |added|);
    AtMostOne(r.core.acts, r.births.born, m) || Orderly(base.acts, r.core.acts, r.births.born, m)
  }

  lemma AllTidy(o: Order, base: seq<Activation>, core: Core, births: Births, rules: Ruleset, d: Delta,
                queues: map<ModuleName, seq<Handle>>, index: seq<nat>, after: map<ModuleName, seq<Handle>>, next: seq<nat>)
    requires o.strategy == Breadth && CoreOk(core, rules) && BirthsOk(core.acts, births.born) && Kept(base, core.acts, births.born)
    requires var r := AddedOne(core, births, rules, true, d);
             r.ok && CoreOk(r.core, rules) && Queued(core.acts, queues, index) && Queued(r.core.acts, after, next)
    requires after == AddedQueues(o, core, rules, d, queues)
    ensures var r := AddedOne(core, births, rules, true, d);
            forall m :: Tidy(o, base, core.acts, queues, births.born, m) ==> Tidy(o, base, r.core.acts, after, r.births.born, m)
    ensures var r := AddedOne(core, births, rules, true, d); Kept(base, r.core.acts, r.births.born)
  {
    hide QueuesOk, CoreOk, Tidy, Kept, AddedOne, AddedQueues, Queued, BirthsOk;
    AddedKept(o, base, core, births, rules, d, queues, index);
    forall m | Tidy(o, base, core.acts, queues, births.born, m)
      ensures var r := AddedOne(core, births, rules, true, d); Tidy(o, base, r.core.acts, after, r.births.born, m)
    {
      AddedTidy(o, base, core, births, rules, d, queues, index, after, next, m);
    }
  }

  lemma AddedKept(o: Order, base: seq<Activation>, core: Core, births: Births, rules: Ruleset, d: Delta, queues: map<ModuleName, seq<Handle>>, index: seq<nat>)
    requires Kept(base, core.acts, births.born)
    ensures var r := AddedOne(core, births, rules, true, d); Kept(base, r.core.acts, r.births.born)
  {
    hide Find;
    var r := AddedOne(core, births, rules, true, d);
    if d.token != 0 && d.rule in rules {
      var f := Find(core.acts, d.rule, d.identity, d.facts);
      var acts, x, epoch := core.acts, if f.Some? then f.value else |core.acts|, EpochFor(core, births, d);
      if f.Some? && !acts[x].status.Deactivated? {
        KeptAlike(base, acts, r.core.acts, births.born);
      } else {
        var bcts := if f.Some? then acts[x := Rearmed(Supported(acts[x]), d.token)] else acts + [Created(rules[d.rule], d, core.nextOrdinal + 1)];
        KeptNext(base, acts, bcts, births.born, x, epoch);
      }
    }
  }

  /** What remains to be ranked is all that was born. */
  lemma TidyBorn(o: Order, base: seq<Activation>, acts: seq<Activation>, queues: map<ModuleName, seq<Handle>>, born: seq<Handle>, m: ModuleName)
    requires Tidy(o, base, acts, queues, born, m)
    ensures AtMostOne(acts, born, m) ==> SingleIn(o, acts, queues, Members(born), m)
    ensures Orderly(base, acts, born, m) ==> SeveralIn(o, acts, queues, Members(born), m)
  {
    hide Single, Several, AtMostOne, Orderly;
    assert SetIn(acts, Members(born), m) == BornIn(acts, born, m);
  }

  lemma BirthsWait(acts: seq<Activation>, born: seq<Handle>)
    requires BirthsOk(acts, born)
    ensures BornWaiting(acts, born)
  {
  }

  /** The queues after the additions of a batch, if its births share an epoch. */
  ghost predicate BatchQueues(o: Order, core: Core, rules: Ruleset, breadth: bool, added: seq<Delta>,
                              queues: map<ModuleName, seq<Handle>>, after: map<ModuleName, seq<Handle>>) {
    var r, pushed := AddedAll(core, rules, breadth, added, |added|), AddedQueuesAll(o, core, rules, breadth, added, |added|, queues);
    && (r.births.born == [] ==> after == pushed)
    && (r.births.born != [] && (exists epoch :: OneEpoch(r.core.acts, r.births.born, epoch)) ==>
          RankedQueues(o, r.core.acts, pushed, r.births.born, after))
  }

  /** The queues after a batch, its removals first. */
  ghost predicate DeltaQueues(o: Order, core: Core, rules: Ruleset, breadth: bool, removed: seq<Delta>, added: seq<Delta>,
                              queues: map<ModuleName, seq<Handle>>, after: map<ModuleName, seq<Handle>>) {
    BatchQueues(o, RemovedAll(core, rules, removed, |removed|).core, rules, breadth, added,
                RemovedQueuesAll(o, core, rules, removed, |removed|, queues), after)
  }

  lemma NothingRemovedQueues(o: Order, core: Core, rules: Ruleset, breadth: bool, added: seq<Delta>,
                             queues: map<ModuleName, seq<Handle>>, after: map<ModuleName, seq<Handle>>)
    ensures DeltaQueues(o, core, rules, breadth, [], added, queues, after) == BatchQueues(o, core, rules, breadth, added, queues, after)
  {
    hide BatchQueues;
  }

  lemma SafeTidy(o: Order, before: Core, rules: Ruleset, removed: seq<Delta>, added: seq<Delta>, core: Core, r: AddResult,
                 queues: map<ModuleName, seq<Handle>>, m: ModuleName)
    requires RemovedAll(before, rules, removed, |removed|) == Result(core, true) && AddedAll(core, rules, true, added, |added|) == r
    requires Tidy(o, core.acts, r.core.acts, queues, r.births.born, m) && QueueSafe(before, rules, removed, added, m)
    ensures var all := Members(r.births.born); SingleIn(o, r.core.acts, queues, all, m) || SeveralIn(o, r.core.acts, queues, all, m)
  {
    hide RemovedAll, AddedAll, Tidy, SingleIn, SeveralIn, AtMostOne, Orderly;
    TidyBorn(o, core.acts, r.core.acts, queues, r.births.born, m);
  }

  lemma AddedStep(o: Order, core: Core, rules: Ruleset, breadth: bool, ds: seq<Delta>, n: nat, queues: map<ModuleName, seq<Handle>>)
    requires n < |ds|
    ensures AddedQueuesAll(o, core, rules, breadth, ds, n + 1, queues) ==
            AddedQueues(o, AddedAll(core, rules, breadth, ds, n).core, rules, ds[n], AddedQueuesAll(o, core, rules, breadth, ds, n, queues))
    ensures AddedAll(core, rules, breadth, ds, n).ok ==>
              var r := AddedAll(core, rules, breadth, ds, n);
              AddedAll(core, rules, breadth, ds, n + 1) == AddedOne(r.core, r.births, rules, breadth, ds[n])
  {
  }

  lemma KeptStart(base: seq<Activation>)
    ensures Kept(base, base, [])
  {
  }

  lemma NoneAdded(core: Core, rules: Ruleset, breadth: bool, ds: seq<Delta>, o: Order, queues: map<ModuleName, seq<Handle>>)
    ensures AddedAll(core, rules, breadth, ds, 0) == AddResult(core, Births(0, []), true)
    ensures AddedQueuesAll(o, core, rules, breadth, ds, 0, queues) == queues
  {
  }

  lemma NoneRemoved(core: Core, rules: Ruleset)
    ensures RemovedAll(core, rules, [], 0) == Result(core, true)
  {
  }
}
