/**
 Which record a request to remove support takes out.  Before the exact lookups a shortcut
 looks only at the template, the fact and the number of slots.
 */
module SupportRequest {
  import opened Options
  import opened SupportIndexes
  import opened SupportSpec
  import opened SupportCascade

  // ----- Records as requests make them ------------------------------------------------------

  /** Small single-fact records carry their exact key; the others the hashed key of what they rest on. */
  predicate FormedRecord(h: Hashing, r: Record) {
    match r.kind
    case Owned(o) => !o.IsZero()
    case Inline(k) => k.template != "" && |k.slots| <= INLINE_LIMIT && r.facts == [k.support]
    case Keyed(k, slots) =>
      && k == SupportKey(k.template, h.facts(r.facts), h.slots(slots), |r.facts|, |slots|)
      && k.template != "" && !(|r.facts| == 1 && |slots| <= INLINE_LIMIT)
  }

  ghost predicate Formed(s: State, h: Hashing) {
    forall id :: id in s.records ==> FormedRecord(h, s.records[id])
  }

  /** Adding keeps the records as requests make them. */
  lemma AddedFormed(s: State, h: Hashing, demand: FactId, q: Request)
    requires Formed(s, h)
    ensures Formed(Added(s, h, demand, q).0, h)
  {
    hide AddListed, AddFacts, Existing;
  }

  /** One thing that happens to a store: a support is added, records are removed one after another, or everything is cleared. */
  ghost predicate Happens(h: Hashing, s: State, t: State) {
    || (exists demand, q :: t == Added(s, h, demand, q).0)
    || (exists ids :: t == RemovedAll(s, ids))
    || t == EMPTY
  }

  /** The states a store goes through, from the empty one. */
  ghost predicate History(h: Hashing, states: seq<State>) {
    && states != [] && states[0] == EMPTY
    && forall i :: 0 < i < |states| ==> Happens(h, states[i - 1], states[i])
  }

  lemma CascadedFormed(h: Hashing, s: State, facts: set<FactId>, seeds: set<SupportId>, t: State, left: set<FactId>)
    requires Formed(s, h) && Cascaded(s, facts, seeds, t, left)
    ensures Formed(t, h)
  {
  }

  lemma {:induction false} RemovedAllFormed(h: Hashing, s: State, ids: seq<SupportId>)
    requires Consistent(s) && Formed(s, h)
    ensures Consistent(RemovedAll(s, ids)) && Formed(RemovedAll(s, ids), h)
    decreases |ids|
  {
    hide Consistent, RemoveFacts, RemoveListed;
    if ids != [] {
      var n := |ids| - 1;
      RemovedAllFormed(h, s, ids[..n]);
      RemovedConsistent(RemovedAll(s, ids[..n]), ids[n]);
    }
  }

  /** Every state a store can reach is consistent, and its records are as requests make them. */
  lemma {:induction false} ReachableFormed(h: Hashing, states: seq<State>, i: nat)
    requires History(h, states) && i < |states|
    ensures Consistent(states[i]) && Formed(states[i], h)
  {
    hide Consistent, Added, RemovedAll;
    if i == 0 {
      EmptyConsistent();
    } else {
      ReachableFormed(h, states, i - 1);
      var s, t := states[i - 1], states[i];
      assert Happens(h, s, t);
      if demand, q :| t == Added(s, h, demand, q).0 {
        AddedConsistent(s, h, demand, q);
        AddedFormed(s, h, demand, q);
      } else if ids :| t == RemovedAll(s, ids) {
        RemovedAllFormed(h, s, ids);
      } else {
        EmptyConsistent();
      }
    }
  }

  // ----- The choice ---------------------------------------------------------------------------

  function SlotsOf(k: Kind): seq<SlotKey> {
    match k
    case Inline(i) => i.slots
    case Keyed(_, slots) => slots
    case Owned(_) => []
  }

  function TemplateOf(k: Kind): string {
    match k
    case Inline(i) => i.template
    case Keyed(key, _) => key.template
    case Owned(_) => ""
  }

  /** The guard of the shortcut: a lone record on the fact, with the template and as many slots. */
  predicate LooksRight(r: Record, q: Request) {
    && !r.kind.Owned? && r.facts == q.facts && TemplateOf(r.kind) == q.template && |SlotsOf(r.kind)| == |q.slots|
  }

  function Shortcut(s: State, q: Request): Option<SupportId> {
    if |q.facts| != 1 then None else
    var ids := Listed(s.byFact, q.facts[0].id);
    if |ids| == 1 && ids[0] in s.records && LooksRight(s.records[ids[0]], q) then Some(ids[0]) else None
  }

  /** A record found by its exact key keeps neither template nor slots beside that key. */
  function StoredTemplate(k: Kind): string {
    if k.Keyed? then k.key.template else ""
  }

  predicate StoredSlots(k: Kind, slots: seq<SlotKey>) {
    match k
    case Keyed(_, own) => own == slots
    case Inline(i) => |i.slots| == |slots| && forall n :: 0 <= n < |slots| ==> slots[n] == Missing
    case Owned(_) => false
  }

  predicate RawMatch(r: Record, q: Request) {
    !r.kind.Owned? && StoredTemplate(r.kind) == q.template && r.facts == q.facts && StoredSlots(r.kind, q.slots)
  }

  function FindRaw(s: State, ids: seq<SupportId>, q: Request): Option<SupportId> {
    if ids == [] then None
    else if ids[0] in s.records && RawMatch(s.records[ids[0]], q) then Some(ids[0])
    else FindRaw(s, ids[1..], q)
  }

  lemma FindRawStep(s: State, ids: seq<SupportId>, i: nat, q: Request)
    requires i < |ids|
    ensures FindRaw(s, ids[i..], q) ==
            if ids[i] in s.records && RawMatch(s.records[ids[i]], q) then Some(ids[i]) else FindRaw(s, ids[i + 1..], q)
  {
    hide RawMatch;
    assert ids[i..][0] == ids[i] && ids[i..][1..] == ids[i + 1..];
  }

  /** The record standing for the request, leaving its owner aside. */
  function PlainKind(h: Hashing, q: Request): Option<Kind> {
    if q.template == "" then None
    else if |q.facts| == 1 && |q.slots| <= INLINE_LIMIT then Some(Inline(InlineKey(q.template, q.facts[0], q.slots)))
    else Some(Keyed(KeyOf(h, q), q.slots))
  }

  function ExactTarget(s: State, h: Hashing, q: Request): Option<SupportId> {
    if PlainKind(h, q).None? then None else Existing(s, PlainKind(h, q).value, q.facts)
  }

  /** The lookups after the shortcut: by exact key, by scanning the fact's records, by hashed key. */
  function SlowTarget(s: State, h: Hashing, q: Request): Option<SupportId>
    requires q.facts != []
  {
    var inline := InlineKey(q.template, q.facts[0], q.slots);
    if q.template != "" && |q.facts| == 1 && |q.slots| <= INLINE_LIMIT && inline in s.inlineIndex then Some(s.inlineIndex[inline].id)
    else
      var raw := FindRaw(s, Listed(s.byFact, q.facts[0].id), q);
      if raw.Some? then raw
      else if q.template == "" then None
      else FindKeyed(s, Listed(s.byKey, KeyOf(h, q)), Keyed(KeyOf(h, q), q.slots), q.facts)
  }

  /** The record that a request takes out. */
  function RequestTarget(s: State, h: Hashing, q: Request): Option<SupportId> {
    if q.facts == [] then None
    else if !q.owner.IsZero() && q.owner in s.byOwner then Some(s.byOwner[q.owner])
    else if Shortcut(s, q).Some? then Shortcut(s, q)
    else SlowTarget(s, h, q)
  }

  // ----- When the choice is right -----------------------------------------------------------------

  /** The record the request means: its owner's, or else the one for its template, facts and slots. */
  function Meant(s: State, h: Hashing, q: Request): Option<SupportId> {
    if q.facts == [] then None
    else if !q.owner.IsZero() && q.owner in s.byOwner then Some(s.byOwner[q.owner])
    else ExactTarget(s, h, q)
  }

  /** The shortcut fires on a record with other slots, or a request without a template matches one raw. */
  predicate Misled(s: State, q: Request) {
    && q.facts != [] && (q.owner.IsZero() || q.owner !in s.byOwner)
    && if Shortcut(s, q).Some? then SlotsOf(s.records[Shortcut(s, q).value].kind) != q.slots
       else q.template == "" && FindRaw(s, Listed(s.byFact, q.facts[0].id), q).Some?
  }

  lemma {:induction false} FindRawFound(s: State, ids: seq<SupportId>, q: Request)
    ensures var r := FindRaw(s, ids, q);
            && (r.Some? ==> r.value in ids && r.value in s.records && RawMatch(s.records[r.value], q))
            && (r.None? ==> forall id :: id in ids && id in s.records ==> !RawMatch(s.records[id], q))
  {
    if ids != [] {
      FindRawFound(s, ids[1..], q);
      assert forall id :: id in ids <==> id == ids[0] || id in ids[1..];
    }
  }

  /** A record on the request's template, facts and slots is the one the request means. */
  lemma RightSlots(s: State, h: Hashing, q: Request, id: SupportId)
    requires Consistent(s) && Formed(s, h) && q.template != ""
    requires id in s.records && LooksRight(s.records[id], q) && SlotsOf(s.records[id].kind) == q.slots
    ensures ExactTarget(s, h, q) == Some(id)
  {
    hide Consistent, Existing;
    var r := s.records[id];
    assert FormedRecord(h, r);
    assert Some(r.kind) == PlainKind(h, q);
    assert Stands(s, r.kind, q.facts, id);
    if Existing(s, r.kind, q.facts).None? {
      NoneStands(s, r.kind, q.facts);
    } else {
      SomeExisting(s, r.kind, q.facts);
      StandsUnique(s, r.kind, q.facts, id, Existing(s, r.kind, q.facts).value);
    }
  }

  /** A record with other slots is never the one the request means. */
  lemma WrongSlots(s: State, h: Hashing, q: Request, id: SupportId)
    requires Consistent(s) && id in s.records && SlotsOf(s.records[id].kind) != q.slots
    ensures ExactTarget(s, h, q) != Some(id)
  {
    hide Consistent, Existing;
    if PlainKind(h, q).Some? && Existing(s, PlainKind(h, q).value, q.facts).Some? {
      SomeExisting(s, PlainKind(h, q).value, q.facts);
    }
  }

  /** Without the shortcut the lookups are exact, for a request that names a template. */
  lemma SlowExact(s: State, h: Hashing, q: Request)
    requires Consistent(s) && Formed(s, h) && q.facts != [] && q.template != ""
    ensures SlowTarget(s, h, q) == ExactTarget(s, h, q)
  {
    hide Consistent;
    var ids := Listed(s.byFact, q.facts[0].id);
    var raw := FindRaw(s, ids, q);
    FindRawFound(s, ids, q);
    if raw.Some? {
      RawIsRight(s, h, q, raw.value);
      RightSlots(s, h, q, raw.value);
    } else if |q.facts| == 1 && |q.slots| <= INLINE_LIMIT {
      NoSmallKeyed(s, h, q);
    }
  }

  lemma RawIsRight(s: State, h: Hashing, q: Request, id: SupportId)
    requires Formed(s, h) && id in s.records && RawMatch(s.records[id], q) && q.template != ""
    ensures LooksRight(s.records[id], q) && SlotsOf(s.records[id].kind) == q.slots
  {
  }

  /** Small requests have no record under a hashed key. */
  lemma NoSmallKeyed(s: State, h: Hashing, q: Request)
    requires Formed(s, h) && |q.facts| == 1 && |q.slots| <= INLINE_LIMIT
    ensures FindKeyed(s, Listed(s.byKey, KeyOf(h, q)), Keyed(KeyOf(h, q), q.slots), q.facts).None?
  {
    var k := Keyed(KeyOf(h, q), q.slots);
    assert forall id :: id in s.records && SameKeyed(s.records[id], k, q.facts) ==> !FormedRecord(h, s.records[id]);
    FindKeyedFound(s, Listed(s.byKey, KeyOf(h, q)), k, q.facts);
  }

  /** A request takes out the record it means exactly when it is not misled. */
  lemma RequestExact(s: State, h: Hashing, q: Request)
    requires Consistent(s) && Formed(s, h)
    ensures RequestTarget(s, h, q) == Meant(s, h, q) <==> !Misled(s, q)
  {
    hide Consistent, SlowTarget, ExactTarget;
    if q.facts != [] && (q.owner.IsZero() || q.owner !in s.byOwner) {
      var short := Shortcut(s, q);
      if short.Some? {
        assert FormedRecord(h, s.records[short.value]);
        if SlotsOf(s.records[short.value].kind) == q.slots {
          RightSlots(s, h, q, short.value);
        } else {
          WrongSlots(s, h, q, short.value);
        }
      } else if q.template != "" {
        SlowExact(s, h, q);
      } else {
        NoTemplate(s, h, q);
      }
    }
  }

  /** In every state a store can reach. */
  lemma ReachableExact(h: Hashing, states: seq<State>, i: nat, q: Request)
    requires History(h, states) && i < |states|
    ensures RequestTarget(states[i], h, q) == Meant(states[i], h, q) <==> !Misled(states[i], q)
  {
    hide Consistent, Formed, RequestTarget, Meant, Misled;
    ReachableFormed(h, states, i);
    RequestExact(states[i], h, q);
  }

  lemma NoTemplate(s: State, h: Hashing, q: Request)
    requires q.facts != [] && q.template == ""
    ensures ExactTarget(s, h, q).None? && SlowTarget(s, h, q) == FindRaw(s, Listed(s.byFact, q.facts[0].id), q)
  {
  }

  // ----- A request that is misled -----------------------------------------------------------------

  /** Support stored for one slot value is taken out by a request for another. */
  lemma ShortcutTakesAnother(h: Hashing)
    ensures var owner, f := Owner(0, 0, 0), SupportFact(1, 1);
            var stored, asked := Request("t", [f], [Scalar(1, 1, "")], owner), Request("t", [f], [Scalar(1, 2, "")], owner);
            var (s, id) := Added(EMPTY, h, 7, stored);
            && Consistent(s) && Misled(s, asked)
            && RequestTarget(s, h, asked) == Some(id) && Meant(s, h, asked) == None
  {
    var owner, f := Owner(0, 0, 0), SupportFact(1, 1);
    var stored, asked := Request("t", [f], [Scalar(1, 1, "")], owner), Request("t", [f], [Scalar(1, 2, "")], owner);
    EmptyConsistent();
    AddedConsistent(EMPTY, h, 7, stored);
    var (s, id) := Added(EMPTY, h, 7, stored);
    OneAdded(h, stored);
    assert Shortcut(s, asked) == Some(1);
    assert InlineKey("t", f, [Scalar(1, 2, "")]) != InlineKey("t", f, [Scalar(1, 1, "")]);
  }

  lemma EmptyConsistent()
    ensures Consistent(EMPTY)
  {
  }

  /** What the store holds after one small request. */
  lemma OneAdded(h: Hashing, q: Request)
    requires q.owner.IsZero() && q.template != "" && |q.facts| == 1 && |q.slots| <= INLINE_LIMIT
    ensures var k := InlineKey(q.template, q.facts[0], q.slots);
            var (s, id) := Added(EMPTY, h, 7, q);
            && id == 1 && s.records == map[1 := Record(Inline(k), 7, q.facts)] && s.byOwner == map[]
            && s.inlineIndex == map[k := InlineEntry(1, 7, q.facts[0])] && Listed(s.byFact, q.facts[0].id) == [1]
  {
    assert q.facts[..0] == [];
    assert AddFacts(map[], q.facts, 1) == AddListed(map[], q.facts[0].id, 1);
  }
}
