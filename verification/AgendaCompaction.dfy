/**
 Storage compaction: consumed and deactivated activations are dropped; the others move to
 new places, and the queues, the lookup index and the token links are rebuilt over them.
 */
module AgendaCompaction {
  import opened AgendaOrder
  import opened AgendaFiring
  import opened AgendaDelta
  import opened AgendaQueues
  import opened Agenda

  const RETIRED_FLOOR: nat := 64

  /** The waiting ones among the first `n`, in storage order. */
  function Survivors(acts: seq<Activation>, n: nat): seq<Activation>
    requires n <= |acts|
  {
    if n == 0 then []
    else Survivors(acts, n - 1) + (if acts[n - 1].status.Waiting? then [acts[n - 1]] else [])
  }

  /** Where a survivor came from. */
  lemma {:induction false} SurvivorAt(acts: seq<Activation>, n: nat, i: nat) returns (k: nat)
    requires n <= |acts| && i < |Survivors(acts, n)|
    ensures k < n && acts[k] == Survivors(acts, n)[i] && acts[k].status.Waiting?
  {
    if i < |Survivors(acts, n - 1)| {
      k := SurvivorAt(acts, n - 1, i);
    } else {
      k := n - 1;
    }
  }

  lemma {:induction false} SurvivorOf(acts: seq<Activation>, n: nat, k: nat)
    requires k < n <= |acts| && acts[k].status.Waiting?
    ensures acts[k] in Survivors(acts, n)
  {
    if k < n - 1 { SurvivorOf(acts, n - 1, k); }
  }

  lemma {:induction false} SurvivorsOk(core: Core, rules: Ruleset, n: nat)
    requires CoreOk(core, rules) && n <= |core.acts|
    ensures CoreOk(core.(acts := Survivors(core.acts, n)), rules)
  {
    hide CoreOk, OrdinalsOk, OneEach, Follows;
    if n == 0 {
      NoneOk(core, rules);
    } else {
      SurvivorsOk(core, rules, n - 1);
      var s, a := Survivors(core.acts, n - 1), core.acts[n - 1];
      if a.status.Waiting? {
        forall i | 0 <= i < |s|
          ensures s[i].ordinal < a.ordinal && !SameAnswer(s[i], a)
        {
          var k := SurvivorAt(core.acts, n - 1, i);
          EarlierApart(core, rules, k, n - 1);
        }
        OneMoreOk(core, rules, n - 1, s);
      } else {
        assert s + [] == s;
      }
    }
  }

  lemma NoneOk(core: Core, rules: Ruleset)
    ensures CoreOk(core.(acts := []), rules)
  {
  }

  lemma EarlierApart(core: Core, rules: Ruleset, k: nat, n: nat)
    requires CoreOk(core, rules) && k < n < |core.acts|
    ensures core.acts[k].ordinal < core.acts[n].ordinal && !SameAnswer(core.acts[k], core.acts[n])
  {
  }

  lemma OneMoreOk(core: Core, rules: Ruleset, n: nat, s: seq<Activation>)
    requires CoreOk(core, rules) && n < |core.acts| && CoreOk(core.(acts := s), rules)
    requires forall i :: 0 <= i < |s| ==> s[i].ordinal < core.acts[n].ordinal && !SameAnswer(s[i], core.acts[n])
    ensures CoreOk(core.(acts := s + [core.acts[n]]), rules)
  {
  }

  ghost predicate AllWait(acts: seq<Activation>) {
    forall h :: 0 <= h < |acts| ==> acts[h].status.Waiting?
  }

  /** As values, the waiting activations are the ones they were. */
  lemma SurvivorsPending(acts: seq<Activation>)
    ensures Pending(Survivors(acts, |acts|)) == Pending(acts) && AllWait(Survivors(acts, |acts|))
  {
    hide Survivors, Pending, WaitingOf;
    var s := Survivors(acts, |acts|);
    forall i | 0 <= i < |s|
      ensures s[i].status.Waiting?
    {
      var k := SurvivorAt(acts, |acts|, i);
    }
    forall a
      ensures a in Pending(s) <==> a in Pending(acts)
    {
      InPending(s, a);
      InPending(acts, a);
      if a in s && a.status.Waiting? {
        var i :| 0 <= i < |s| && s[i] == a;
        var k := SurvivorAt(acts, |acts|, i);
      }
      if a in acts && a.status.Waiting? {
        var k :| 0 <= k < |acts| && acts[k] == a;
        SurvivorOf(acts, |acts|, k);
      }
    }
  }

  /** A match that has fired, or lost all support, is not known any more: its next token makes a new activation. */
  lemma RetiredForgotten(core: Core, rules: Ruleset, h: Handle)
    requires CoreOk(core, rules) && h < |core.acts| && !core.acts[h].status.Waiting?
    ensures var a := core.acts[h]; Find(Survivors(core.acts, |core.acts|), a.rule, a.identity, a.facts).None?
  {
    hide Survivors, CoreOk;
    var a, s := core.acts[h], Survivors(core.acts, |core.acts|);
    forall i | 0 <= i < |s|
      ensures !Answers(s[i], a.rule, a.identity, a.facts)
    {
      var k := SurvivorAt(core.acts, |core.acts|, i);
      if k < h { EarlierApart(core, rules, k, h); } else { EarlierApart(core, rules, h, k); }
    }
  }

  lemma InPending(acts: seq<Activation>, a: Activation)
    ensures a in Pending(acts) <==> a in acts && a.status.Waiting?
  {
    if a in acts && a.status.Waiting? {
      var k :| 0 <= k < |acts| && acts[k] == a;
      assert k in WaitingOf(acts);
    }
  }

  /** No activation stored after `h` has its token. */
  predicate LastWithToken(acts: seq<Activation>, h: nat)
    requires h < |acts|
  {
    forall k :: h < k < |acts| ==> acts[k].token != acts[h].token
  }

  /** Every token of an activation is linked, and leads to where the last one with that token is now. */
  ghost predicate Relinked(acts: seq<Activation>, links: map<TokenId, Link>) {
    forall h :: 0 <= h < |acts| && acts[h].token != 0 ==>
      && acts[h].token in links
      && (LastWithToken(acts, h) ==> links[acts[h].token] == Link(h, acts[h].ordinal))
  }

  lemma RelinkedNext(acts: seq<Activation>, links: map<TokenId, Link>, x: Activation)
    requires Relinked(acts, links)
    ensures var next := if x.token != 0 then links[x.token := Link(|acts|, x.ordinal)] else links; Relinked(acts + [x], next)
  {
    var all := acts + [x];
    forall h | 0 <= h < |acts| && LastWithToken(all, h)
      ensures LastWithToken(acts, h) && x.token != acts[h].token
    {
      assert all[|acts|] == x;
      assert forall k :: h < k < |acts| ==> all[k] == acts[k];
    }
  }

  /** Keeps exactly the waiting activations, whatever state the queues' order was in. */
  method CompactStorage(a: Agenda)
    requires a.Valid()
    modifies a`acts, a`queues, a`heapIndex, a`lookup, a`links
    ensures a.Valid() && a.Ordered()
    ensures a.acts == Survivors(old(a.acts), |old(a.acts)|) && Pending(a.acts) == Pending(old(a.acts))
    ensures Relinked(a.acts, a.links)
  {
    hide QueuesOk, LookupOk, CoreOk, AllOrdered, Distinguished;
    if |a.acts| == 0 {
      NothingOrdered(a);
      return;
    }
    var former := a.acts;
    ghost var core := a.CoreVal();
    SurvivorsPending(former);
    Empty(a);
    for i := 0 to |former|
      invariant a.Structure() && a.Ordered() && LookupOk(a.acts, a.lookup) && a.acts == Survivors(former, i)
      invariant Held(a.heapIndex) == WaitingOf(a.acts)
      invariant Relinked(a.acts, a.links)
    {
      if !former[i].status.Waiting? {
        assert Survivors(former, i + 1) == Survivors(former, i) + [];
        continue;
      }
      SurvivorsOk(core, a.rules, i + 1);
      CoreDistinguished(core.(acts := Survivors(former, i + 1)), a.rules);
      Retain(a, former[i]);
    }
    SurvivorsOk(core, a.rules, |former|);
    CoreOkLinks(core.(acts := a.acts), a.links, a.rules);
  }

  method Empty(a: Agenda)
    modifies a`acts, a`queues, a`heapIndex, a`lookup
    ensures a.Structure() && a.Ordered() && LookupOk(a.acts, a.lookup) && a.acts == [] && Held(a.heapIndex) == {}
  {
    a.lookup := map[];
    a.acts := [];
    a.queues := map[];
    a.heapIndex := [];
  }

  lemma NothingOrdered(a: Agenda)
    requires a.Valid() && a.acts == []
    ensures a.Ordered()
  {
    forall m | m in a.queues
      ensures |a.queues[m]| <= 1
    {
      if |a.queues[m]| > 1 { RootInside(a.acts, a.queues, a.heapIndex, m); }
    }
  }

  /** Moves one waiting activation to the end of the new storage. */
  method Retain(a: Agenda, x: Activation)
    requires a.Structure() && a.Ordered() && LookupOk(a.acts, a.lookup) && x.status.Waiting?
    requires Held(a.heapIndex) == WaitingOf(a.acts)
    requires Distinguished(a.acts + [x]) && Relinked(a.acts, a.links)
    modifies a`acts, a`queues, a`heapIndex, a`lookup, a`links
    ensures a.Structure() && a.Ordered() && LookupOk(a.acts, a.lookup) && a.acts == old(a.acts) + [x]
    ensures Held(a.heapIndex) == WaitingOf(a.acts)
    ensures Relinked(a.acts, a.links)
  {
    hide QueuesOk, AllOrdered, LookupOk, Distinguished, Relinked;
    ghost var was := a.acts;
    RelinkedNext(a.acts, a.links, x);
    var h := a.StoreRef(x);
    a.Enqueue(h);
    AppendWaiting(was, x);
    if a.acts[h].token != 0 { a.links := a.links[a.acts[h].token := Link(h, a.acts[h].ordinal)]; }
  }

  /** Compacts when more than 64 activations are retired, and more than four for each that waits; else leaves all as it is. */
  method MaybeCompact(a: Agenda, pending: nat)
    requires a.Valid() && pending == |WaitingOf(a.acts)|
    modifies a`acts, a`queues, a`heapIndex, a`lookup, a`links
    ensures a.Valid() && (old(a.Ordered()) ==> a.Ordered())
    ensures Pending(a.acts) == Pending(old(a.acts))
    ensures var retired := |old(a.acts)| - pending;
            if retired > 64 && retired > 4 * pending
            then a.acts == Survivors(old(a.acts), |old(a.acts)|) && a.Ordered() && Relinked(a.acts, a.links)
            else unchanged(a)
  {
    hide QueuesOk, AllOrdered, LookupOk, CoreOk;
    var retired := |a.acts| - pending;
    if retired <= (if RETIRED_FLOOR > 4 * pending then RETIRED_FLOOR else 4 * pending) { return; }
    CompactStorage(a);
  }

  /** Compaction changes nothing about what fires, and when. */
  lemma CompactionKeepsFiring(core: Core, rules: Ruleset, o: Order, stack: seq<ModuleName>, allInMain: bool)
    requires CoreOk(core, rules)
    ensures Apart(Pending(core.acts)) && Apart(Pending(Survivors(core.acts, |core.acts|)))
    ensures FiringSequence(o, Pending(Survivors(core.acts, |core.acts|)), stack, allInMain)
         == FiringSequence(o, Pending(core.acts), stack, allInMain)
    ensures CoreOk(core.(acts := Survivors(core.acts, |core.acts|)), rules)
  {
    SurvivorsOk(core, rules, |core.acts|);
    SurvivorsPending(core.acts);
    CoreDistinguished(core, rules);
    PendingApart(core.acts);
  }
}
