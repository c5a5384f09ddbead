/**
 Runs of the demand store as it is: facts asserted and retracted, supports added and removed, in any
 order on one store.  What is said of reachable states holds of it after every operation.
 */
module SupportRuns {
  import opened Options
  import opened SupportIndexes
  import opened SupportSpec
  import opened SupportCascade
  import opened SupportRequest
  import opened SupportOwners
  import opened SupportStore

  datatype Operation =
    | Assert(fact: FactId)
    | Add(demand: FactId, request: Request)
    | RemoveRequest(request: Request)
    | RemoveOwner(owner: Owner)
    | RemoveFor(fact: FactId, version: Option<nat>)
    | Retract(fact: FactId)
    | ClearAll

  /** No cascade is running, the indexes are exact, and the records are as requests make them. */
  ghost predicate Settled(d: DemandStore)
    reads d, d.Footprint()
  {
    d.Valid() && d.cascade.None? && Consistent(d.Abs()) && Formed(d.Abs(), d.hashing)
  }

  /** The records that the fact, or that version of it, supports. */
  ghost function AffectedBy(records: map<SupportId, Record>, f: FactId, version: Option<nat>): set<SupportId> {
    set id | id in records && f != 0 && Affected(records, id, f, version)
  }

  /** What the operation makes of a store and of the facts in working memory. */
  ghost predicate Performs(h: Hashing, op: Operation, s: State, facts: set<FactId>, t: State, left: set<FactId>) {
    match op
    case Assert(f) => t == s && left == (if f == 0 then facts else facts + {f})
    case Add(demand, q) => t == Added(s, h, demand, q).0 && left == facts
    case RemoveRequest(q) => Cascaded(s, facts, Chosen(RequestTarget(s, h, q)), t, left)
    case RemoveOwner(owner) => Cascaded(s, facts, OwnedBy(s.records, owner), t, left)
    case RemoveFor(f, version) => Cascaded(s, facts, AffectedBy(s.records, f, version), t, left)
    case Retract(f) => if f == 0 then t == s && left == facts else Cascaded(s, facts - {f}, Resting(s.records, f), t, left)
    case ClearAll => t == EMPTY && left == facts
  }

  /** No operation leaves a record that a request would not make. */
  lemma PerformsFormed(h: Hashing, op: Operation, s: State, facts: set<FactId>, t: State, left: set<FactId>)
    requires Formed(s, h) && Performs(h, op, s, facts, t, left)
    ensures Formed(t, h)
  {
    hide Formed, Added, Cascaded;
    match op
    case Assert(_) =>
    case Add(demand, q) => AddedFormed(s, h, demand, q);
    case RemoveRequest(q) => CascadedFormed(h, s, facts, Chosen(RequestTarget(s, h, q)), t, left);
    case RemoveOwner(owner) => CascadedFormed(h, s, facts, OwnedBy(s.records, owner), t, left);
    case RemoveFor(f, version) => CascadedFormed(h, s, facts, AffectedBy(s.records, f, version), t, left);
    case Retract(f) => if f != 0 { CascadedFormed(h, s, facts - {f}, Resting(s.records, f), t, left); }
    case ClearAll => NothingFormed(h);
  }

  lemma NothingFormed(h: Hashing)
    ensures Formed(EMPTY, h)
  {
  }

  /** A removal by request removes what the request means, and what that forces, unless the request is misled. */
  lemma RequestRemoves(h: Hashing, q: Request, s: State, facts: set<FactId>, t: State, left: set<FactId>)
    requires Consistent(s) && Formed(s, h) && Performs(h, RemoveRequest(q), s, facts, t, left)
    ensures !Misled(s, q) ==> Cascaded(s, facts, Chosen(Meant(s, h, q)), t, left)
  {
    hide Consistent, Formed, RequestTarget, Meant, Misled, Cascaded;
    RequestExact(s, h, q);
  }

  method Perform(d: DemandStore, op: Operation)
    requires Settled(d)
    modifies d.Footprint()
    ensures Settled(d) && fresh(d.Footprint() - old(d.Footprint()))
    ensures Performs(d.hashing, op, old(d.Abs()), old(d.facts), d.Abs(), d.facts)
  {
    hide DemandStore.Valid, DemandStore.Abs, Consistent, Formed, Added, Cascaded, RequestTarget, Affected;
    ghost var s, facts := d.Abs(), d.facts;
    match op {
      case Assert(f) =>
        if f != 0 { d.EnterMemory(f); }
      case Add(demand, q) =>
        var _ := d.AddSupport(demand, q);
      case RemoveRequest(q) =>
        d.RemoveForRequest(q);
      case RemoveOwner(owner) =>
        d.RemoveForOwner(owner);
      case RemoveFor(f, version) =>
        ghost var ids := d.RemoveSupportsForFact(f, version);
        AffectedIn(s.records, f, version);
        assert IdSet(ids) == AffectedBy(s.records, f, version);
      case Retract(f) =>
        if f != 0 { d.Retract(f); }
      case ClearAll =>
        d.Clear();
        EmptyConsistent();
    }
    PerformsFormed(d.hashing, op, s, facts, d.Abs(), d.facts);
  }

  datatype Moment = Moment(state: State, facts: set<FactId>)

  /** A run: each moment comes from the one before by its operation. */
  ghost predicate Follows(h: Hashing, ops: seq<Operation>, run: seq<Moment>) {
    |run| == |ops| + 1
    && forall i :: 0 <= i < |ops| ==> Performs(h, ops[i], run[i].state, run[i].facts, run[i + 1].state, run[i + 1].facts)
  }

  lemma FollowsNext(h: Hashing, ops: seq<Operation>, run: seq<Moment>, op: Operation, m: Moment)
    requires Follows(h, ops, run) && Performs(h, op, run[|ops|].state, run[|ops|].facts, m.state, m.facts)
    ensures Follows(h, ops + [op], run + [m])
  {
    hide Performs;
  }

  /** Any operations in any order: the store goes through a run, and is settled after it. */
  method PerformAll(d: DemandStore, ops: seq<Operation>) returns (ghost run: seq<Moment>)
    requires Settled(d)
    modifies d.Footprint()
    ensures Settled(d) && fresh(d.Footprint() - old(d.Footprint()))
    ensures Follows(d.hashing, ops, run)
    ensures run[0] == Moment(old(d.Abs()), old(d.facts)) && run[|ops|] == Moment(d.Abs(), d.facts)
  {
    hide DemandStore.Valid, DemandStore.Abs, Consistent, Formed, Performs, Follows;
    run := [Moment(d.Abs(), d.facts)];
    assert ops[..0] == [];
    StartsRun(d.hashing, run[0]);
    for i := 0 to |ops|
      invariant Settled(d) && fresh(d.Footprint() - old(d.Footprint())) && |run| == i + 1
      invariant Follows(d.hashing, ops[..i], run)
      invariant run[0] == Moment(old(d.Abs()), old(d.facts)) && run[i] == Moment(d.Abs(), d.facts)
    {
      Perform(d, ops[i]);
      FollowsNext(d.hashing, ops[..i], run, ops[i], Moment(d.Abs(), d.facts));
      assert ops[..i + 1] == ops[..i] + [ops[i]];
      run := run + [Moment(d.Abs(), d.facts)];
    }
    assert ops[..|ops|] == ops;
  }

  lemma StartsRun(h: Hashing, m: Moment)
    ensures Follows(h, [], [m])
  {
  }

  lemma AffectedIn(records: map<SupportId, Record>, f: FactId, version: Option<nat>)
    ensures forall id :: Affected(records, id, f, version) ==> id in records
  {
  }
}
