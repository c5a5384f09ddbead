/**
 Refraction over whole runs of token batches and firings: an activation's support count
 is the number of live deliveries behind it, it is deactivated exactly when there are none,
 and it fires at most once each time its support rises from nothing.  One token may be
 delivered to several rules, and several times to one rule.
 */
module AgendaRefraction {
  import opened Options
  import opened AgendaOrder
  import opened AgendaDelta

  /** What happened to an activation: its support rose from nothing, or it fired. */
  datatype Entry = Rose(handle: Handle) | Fired(handle: Handle)

  /** `live` lists the tokens delivered and not yet withdrawn, one entry for each delivery. */
  datatype World = World(core: Core, live: seq<Delta>, log: seq<Entry>)

  const START := World(Core([], map[], 0, 0), [], [])

  datatype Event = Batch(removed: seq<Delta>, added: seq<Delta>) | Fire(handle: Handle)

  // ----- What a run keeps -------------------------------------------------------------

  predicate Backs(d: Delta, a: Activation) {
    Answers(a, d.rule, d.identity, d.facts)
  }

  /** How many of the live deliveries are for the activation's match. */
  function Backing(live: seq<Delta>, a: Activation): nat {
    if live == [] then 0
    else Backing(live[..|live| - 1], a) + (if Backs(live[|live| - 1], a) then 1 else 0)
  }

  /** The deliveries for the activation's match, by their places. */
  function Backers(live: seq<Delta>, a: Activation): set<nat> {
    set i: nat | i < |live| && Backs(live[i], a)
  }

  predicate SameMatchOf(d: Delta, e: Delta) {
    d.rule == e.rule && d.identity == e.identity && d.facts == e.facts
  }

  predicate SameDelivery(d: Delta, e: Delta) {
    d.token == e.token && SameMatchOf(d, e)
  }

  /** What is left once one such delivery has been withdrawn. */
  function Without(live: seq<Delta>, d: Delta): seq<Delta> {
    if live == [] then []
    else if SameDelivery(live[|live| - 1], d) then live[..|live| - 1]
    else Without(live[..|live| - 1], d) + [live[|live| - 1]]
  }

  function LastAbout(log: seq<Entry>, h: Handle): Option<Entry> {
    if log == [] then None
    else if log[|log| - 1].handle == h then Some(log[|log| - 1])
    else LastAbout(log[..|log| - 1], h)
  }

  /** The latest thing before each firing was that the activation's support rose from nothing. */
  ghost predicate Refracts(log: seq<Entry>) {
    forall j :: 0 <= j < |log| && log[j].Fired? ==> LastAbout(log[..j], log[j].handle) == Some(Rose(log[j].handle))
  }

  /** The count is the number of live deliveries, and decides whether the activation is deactivated. */
  predicate Counted(live: seq<Delta>, a: Activation) {
    a.supportCount == Backing(live, a) && (a.status.Deactivated? <==> a.supportCount == 0)
  }

  /** Some activation stands for the match of the delivery. */
  ghost predicate Answered(acts: seq<Activation>, d: Delta) {
    d.token != 0 && exists h :: 0 <= h < |acts| && Backs(d, acts[h])
  }

  /** The link leads to the activation of a live delivery of its token, perhaps one of several. */
  ghost predicate LinkOk(core: Core, live: seq<Delta>, t: TokenId)
    requires t in core.links
  {
    var l := core.links[t];
    && l.handle < |core.acts| && core.acts[l.handle].ordinal == l.ordinal
    && exists i :: 0 <= i < |live| && live[i].token == t && Backs(live[i], core.acts[l.handle])
  }

  /** A rule makes one match of a token, however often it is delivered. */
  predicate Agree(d: Delta, e: Delta) {
    d.token == e.token && d.rule == e.rule ==> SameMatchOf(d, e)
  }

  ghost predicate AllCounted(acts: seq<Activation>, live: seq<Delta>) {
    forall h :: 0 <= h < |acts| ==> Counted(live, acts[h])
  }

  ghost predicate LiveOk(acts: seq<Activation>, live: seq<Delta>) {
    && (forall i :: 0 <= i < |live| ==> Answered(acts, live[i]))
    && (forall i, j :: 0 <= i < |live| && 0 <= j < |live| ==> Agree(live[i], live[j]))
  }

  ghost predicate LinksOk(core: Core, live: seq<Delta>) {
    forall t :: t in core.links ==> LinkOk(core, live, t)
  }

  ghost predicate LogOk(acts: seq<Activation>, log: seq<Entry>) {
    && Refracts(log)
    && (forall h :: 0 <= h < |acts| && acts[h].status.Waiting? ==> LastAbout(log, h) == Some(Rose(h)))
    && (forall e :: e in log ==> e.handle < |acts|)
  }

  ghost predicate WorldOk(w: World, rules: Ruleset) {
    && CoreOk(w.core, rules) && AllCounted(w.core.acts, w.live) && LiveOk(w.core.acts, w.live)
    && LinksOk(w.core, w.live) && LogOk(w.core.acts, w.log)
  }

  // ----- Steps ---------------------------------------------------------------------------

  /** A token that goes away has been delivered so, and not withdrawn since. */
  predicate CanRemove(live: seq<Delta>, d: Delta) {
    exists i :: 0 <= i < |live| && SameDelivery(live[i], d)
  }

  function RemoveStep(w: World, rules: Ruleset, d: Delta): World {
    World(RemovedOne(w.core, rules, d).core, Without(w.live, d), w.log)
  }

  /** A token comes to a known rule, perhaps as before, and perhaps as to other rules. */
  predicate CanAdd(live: seq<Delta>, rules: Ruleset, d: Delta) {
    d.token != 0 && d.rule in rules && forall i :: 0 <= i < |live| ==> Agree(live[i], d)
  }

  /** Where the token's activation is, or will be. */
  function Target(core: Core, d: Delta): Handle {
    var f := Find(core.acts, d.rule, d.identity, d.facts);
    if f.Some? then f.value else |core.acts|
  }

  ghost function AddStep(w: World, births: Births, rules: Ruleset, breadth: bool, d: Delta): World {
    World(AddedOne(w.core, births, rules, breadth, d).core, w.live + [d],
          if AlreadyBacked(w.live, d) then w.log else w.log + [Rose(Target(w.core, d))])
  }

  function FireStep(w: World, h: Handle): World
    requires h < |w.core.acts|
  {
    w.(core := w.core.(acts := w.core.acts[h := Spent(w.core.acts[h])]), log := w.log + [Fired(h)])
  }

  lemma {:induction false} BackingAlike(live: seq<Delta>, a: Activation, b: Activation)
    requires SameAnswer(a, b)
    ensures Backing(live, a) == Backing(live, b)
  {
    if live != [] { BackingAlike(live[..|live| - 1], a, b); }
  }

  lemma {:induction false} BackersCount(live: seq<Delta>, a: Activation)
    ensures |Backers(live, a)| == Backing(live, a)
  {
    if live != [] {
      var n := |live| - 1;
      BackersCount(live[..n], a);
      assert Backers(live, a) == if Backs(live[n], a) then Backers(live[..n], a) + {n} else Backers(live[..n], a);
    }
  }

  lemma {:induction false} BackingSome(live: seq<Delta>, a: Activation)
    ensures Backing(live, a) > 0 <==> exists i :: 0 <= i < |live| && Backs(live[i], a)
  {
    if live != [] {
      var n := |live| - 1;
      BackingSome(live[..n], a);
      if i :| 0 <= i < n && Backs(live[i], a) { assert live[..n][i] == live[i]; }
    }
  }

  /** Tokens are linked to the one activation they answer to. */
  lemma LeadsUnique(core: Core, rules: Ruleset, h: Handle, k: Handle, d: Delta)
    requires CoreOk(core, rules) && h < |core.acts| && k < |core.acts| && Backs(d, core.acts[h]) && Backs(d, core.acts[k])
    ensures h == k
  {
    if h < k { assert SameAnswer(core.acts[h], core.acts[k]); } else if k < h { assert SameAnswer(core.acts[k], core.acts[h]); }
  }

  /** What is left are other deliveries, and all of those for other matches or of other tokens. */
  lemma {:induction false} WithoutMembers(live: seq<Delta>, d: Delta, e: Delta)
    ensures e in Without(live, d) ==> e in live
    ensures e in live && !SameDelivery(e, d) ==> e in Without(live, d)
  {
    if live != [] {
      var n := |live| - 1;
      WithoutMembers(live[..n], d, e);
      assert live == live[..n] + [live[n]];
    }
  }

  lemma {:induction false} BackingWithout(live: seq<Delta>, d: Delta, a: Activation)
    requires CanRemove(live, d)
    ensures Backing(Without(live, d), a) == Backing(live, a) - (if Backs(d, a) then 1 else 0)
  {
    var n := |live| - 1;
    if !SameDelivery(live[n], d) {
      var i :| 0 <= i < |live| && SameDelivery(live[i], d);
      assert live[..n][i] == live[i];
      BackingWithout(live[..n], d, a);
      assert (Without(live[..n], d) + [live[n]])[..|Without(live[..n], d)|] == Without(live[..n], d);
    }
  }

  lemma BackingWith(live: seq<Delta>, d: Delta, a: Activation)
    ensures Backing(live + [d], a) == Backing(live, a) + (if Backs(d, a) then 1 else 0)
  {
    assert (live + [d])[..|live|] == live;
  }

  lemma UnsupportedCounted(live: seq<Delta>, d: Delta, a: Activation)
    requires CanRemove(live, d) && Counted(live, a) && Backs(d, a)
    ensures Counted(Without(live, d), Unsupported(a))
  {
    hide Backing, Without;
    BackingWithout(live, d, a);
    BackingAlike(Without(live, d), a, Unsupported(a));
  }

  /** A removal finds the activation of its match: by its link, if that is of the same rule, and otherwise by what the match is known by. */
  lemma RemovalFinds(w: World, rules: Ruleset, d: Delta) returns (h: Handle)
    requires WorldOk(w, rules) && CanRemove(w.live, d)
    ensures h < |w.core.acts| && Backs(d, w.core.acts[h]) && d.token != 0
    ensures Linked(w.core, d).Some? ==> Linked(w.core, d) == Some(h)
    ensures Linked(w.core, d).None? ==> d.rule in rules && Find(w.core.acts, d.rule, d.identity, d.facts) == Some(h)
  {
    hide OrdinalsOk, OneEach, AllCounted, LogOk, Follows;
    var i :| 0 <= i < |w.live| && SameDelivery(w.live[i], d);
    assert Answered(w.core.acts, w.live[i]);
    if Linked(w.core, d).Some? {
      h := Linked(w.core, d).value;
      assert LinkOk(w.core, w.live, d.token);
      var j :| 0 <= j < |w.live| && w.live[j].token == d.token && Backs(w.live[j], w.core.acts[h]);
      assert Agree(w.live[i], w.live[j]);
    } else {
      var k :| 0 <= k < |w.core.acts| && Backs(w.live[i], w.core.acts[k]);
      assert Follows(w.core.acts[k], rules);
      RuleKnown(w.core, rules, k);
      h := Find(w.core.acts, d.rule, d.identity, d.facts).value;
    }
  }

  lemma RuleKnown(core: Core, rules: Ruleset, h: Handle)
    requires CoreOk(core, rules) && h < |core.acts|
    ensures core.acts[h].rule in rules
  {
  }

  lemma RemoveStepOk(w: World, rules: Ruleset, d: Delta)
    requires WorldOk(w, rules) && CanRemove(w.live, d)
    ensures RemovedOne(w.core, rules, d).ok && WorldOk(RemoveStep(w, rules, d), rules)
  {
    hide CoreOk, Refracts, Backing, Without, LastAbout, LinkOk, Answered;
    RemovedOneOk(w.core, rules, d);
    var v := RemoveStep(w, rules, d);
    var h := RemovalFinds(w, rules, d);
    var a := w.core.acts[h];
    UnsupportedCounted(w.live, d, a);
    forall k | 0 <= k < |v.core.acts|
      ensures Counted(v.live, v.core.acts[k])
    {
      if k != h {
        if Backs(d, w.core.acts[k]) { LeadsUnique(w.core, rules, h, k, d); }
        BackingWithout(w.live, d, w.core.acts[k]);
        assert Counted(w.live, w.core.acts[k]);
      }
    }
    LiveWithout(w, v, d);
    forall t | t in v.core.links
      ensures LinkOk(v.core, v.live, t)
    {
      assert LinkOk(w.core, w.live, t);
      LinkStays(w, v, d, t);
    }
  }

  /** Activations keep what they stand for, so what was answered is. */
  lemma AnsweredAlike(acts: seq<Activation>, next: seq<Activation>, d: Delta)
    requires |acts| <= |next| && (forall h :: 0 <= h < |acts| ==> SameAnswer(acts[h], next[h]))
    ensures Answered(acts, d) ==> Answered(next, d)
  {
    if Answered(acts, d) {
      var h :| 0 <= h < |acts| && Backs(d, acts[h]);
      assert Backs(d, next[h]);
    }
  }

  lemma LiveWithout(w: World, v: World, d: Delta)
    requires LiveOk(w.core.acts, w.live) && v.live == Without(w.live, d) && |w.core.acts| == |v.core.acts|
    requires forall h :: 0 <= h < |w.core.acts| ==> SameAnswer(w.core.acts[h], v.core.acts[h])
    ensures LiveOk(v.core.acts, v.live)
  {
    hide Without, Answered;
    forall i | 0 <= i < |v.live|
      ensures v.live[i] in w.live && Answered(v.core.acts, v.live[i])
    {
      WithoutMembers(w.live, d, v.live[i]);
      AnsweredAlike(w.core.acts, v.core.acts, v.live[i]);
    }
    assert forall x, y :: x in w.live && y in w.live ==> Agree(x, y);
  }

  /** A link that a removal leaves is that of another token, or leads to another rule. */
  lemma LinkStays(w: World, v: World, d: Delta, t: TokenId)
    requires t in w.core.links && LinkOk(w.core, w.live, t) && v.live == Without(w.live, d)
    requires t in v.core.links && v.core.links[t] == w.core.links[t]
    requires |v.core.acts| == |w.core.acts|
    requires forall h :: 0 <= h < |w.core.acts| ==> SameAnswer(w.core.acts[h], v.core.acts[h]) && w.core.acts[h].ordinal == v.core.acts[h].ordinal
    requires t == d.token ==> Linked(w.core, d).None?
    ensures LinkOk(v.core, v.live, t)
  {
    var l := w.core.links[t];
    var i :| 0 <= i < |w.live| && w.live[i].token == t && Backs(w.live[i], w.core.acts[l.handle]);
    WithoutMembers(w.live, d, w.live[i]);
    var j :| 0 <= j < |v.live| && v.live[j] == w.live[i];
    assert Backs(v.live[j], v.core.acts[l.handle]);
  }

  lemma FireStepOk(w: World, rules: Ruleset, h: Handle)
    requires WorldOk(w, rules) && h < |w.core.acts| && w.core.acts[h].status.Waiting?
    ensures WorldOk(FireStep(w, h), rules)
  {
    hide CoreOk, Backing, LastAbout, LinkOk, Answered;
    var v, a := FireStep(w, h), w.core.acts[h];
    CoreOkUpdate(w.core, rules, h, Spent(a));
    BackingAlike(w.live, a, Spent(a));
    assert Counted(w.live, a);
    TokensAlike(w, v);
    LogGrows(w.core.acts, w.log, v.core.acts, Fired(h));
  }

  /** Deliveries and links that stay are as good as they were. */
  lemma TokensAlike(w: World, v: World)
    requires LiveOk(w.core.acts, w.live) && LinksOk(w.core, w.live) && v.live == w.live && v.core.links == w.core.links
    requires |v.core.acts| == |w.core.acts|
    requires forall h :: 0 <= h < |w.core.acts| ==> SameAnswer(w.core.acts[h], v.core.acts[h]) && w.core.acts[h].ordinal == v.core.acts[h].ordinal
    ensures LiveOk(v.core.acts, v.live) && LinksOk(v.core, v.live)
  {
    forall i | 0 <= i < |v.live|
      ensures Answered(v.core.acts, v.live[i])
    {
      AnsweredAlike(w.core.acts, v.core.acts, w.live[i]);
    }
    forall t | t in v.core.links
      ensures LinkOk(v.core, v.live, t)
    {
      assert LinkOk(w.core, w.live, t);
    }
  }

  /** Logging one more entry keeps the log in order. */
  lemma LogGrows(acts: seq<Activation>, log: seq<Entry>, next: seq<Activation>, e: Entry)
    requires LogOk(acts, log) && |acts| <= |next| && e.handle < |next|
    requires e.Fired? ==> e.handle < |acts| && acts[e.handle].status.Waiting? && !next[e.handle].status.Waiting?
    requires forall k :: 0 <= k < |next| && next[k].status.Waiting? && k != e.handle ==> k < |acts| && acts[k].status.Waiting?
    ensures LogOk(next, log + [e])
  {
    var more := log + [e];
    forall j | 0 <= j < |more| && more[j].Fired?
      ensures LastAbout(more[..j], more[j].handle) == Some(Rose(more[j].handle))
    {
      assert more[..j] == log[..j];
      if j == |log| { assert log[..j] == log; }
    }
    assert more[..|log|] == log;
  }

  /** The same activations in the same states; their births and tokens may differ. */
  ghost predicate Alike(x: seq<Activation>, y: seq<Activation>) {
    && |x| == |y|
    && forall h :: 0 <= h < |x| ==> SameMatch(x[h], y[h]) && x[h].supportCount == y[h].supportCount && x[h].status == y[h].status
  }

  lemma AlikeOk(w: World, v: World, rules: Ruleset)
    requires WorldOk(w, rules) && CoreOk(v.core, rules) && Alike(w.core.acts, v.core.acts)
    requires v.core.links == w.core.links && v.live == w.live && v.log == w.log
    ensures WorldOk(v, rules)
  {
    hide CoreOk, Backing, LastAbout, Refracts, LiveOk, LinksOk;
    forall h | 0 <= h < |v.core.acts|
      ensures Counted(v.live, v.core.acts[h])
    {
      assert Counted(w.live, w.core.acts[h]);
      BackingAlike(w.live, w.core.acts[h], v.core.acts[h]);
    }
    TokensAlike(w, v);
  }

  // ----- Additions -----------------------------------------------------------------------

  ghost predicate AlreadyBacked(live: seq<Delta>, d: Delta) {
    exists i :: 0 <= i < |live| && SameMatchOf(live[i], d)
  }

  /** The activation the token answers to has live deliveries exactly when it is not deactivated. */
  lemma BackedIffActive(live: seq<Delta>, a: Activation, d: Delta)
    requires Counted(live, a) && Backs(d, a)
    ensures AlreadyBacked(live, d) <==> !a.status.Deactivated?
  {
    BackingSome(live, a);
    if i :| 0 <= i < |live| && Backs(live[i], a) { assert SameMatchOf(live[i], d); }
    if i :| 0 <= i < |live| && SameMatchOf(live[i], d) { assert Backs(live[i], a); }
  }

  lemma SupportedCounted(live: seq<Delta>, d: Delta, a: Activation, b: Activation)
    requires Counted(live, a) && Backs(d, a) && SameAnswer(a, b)
    requires b.supportCount == a.supportCount + 1 && !b.status.Deactivated?
    ensures Counted(live + [d], b)
  {
    hide Backing;
    BackingWith(live, d, a);
    BackingAlike(live + [d], a, b);
  }

  /** One more delivery, linked to the activation it answers to, which is known or new. */
  lemma TokensGrow(w: World, v: World, d: Delta, h: Handle)
    requires LiveOk(w.core.acts, w.live) && LinksOk(w.core, w.live) && v.live == w.live + [d] && d.token != 0
    requires forall i :: 0 <= i < |w.live| ==> Agree(w.live[i], d)
    requires |w.core.acts| <= |v.core.acts| && h < |v.core.acts| && Backs(d, v.core.acts[h])
    requires forall k :: 0 <= k < |w.core.acts| ==> SameAnswer(w.core.acts[k], v.core.acts[k]) && w.core.acts[k].ordinal == v.core.acts[k].ordinal
    requires v.core.links == w.core.links[d.token := Link(h, v.core.acts[h].ordinal)]
    ensures LiveOk(v.core.acts, v.live) && LinksOk(v.core, v.live)
  {
    var n := |w.live|;
    forall i | 0 <= i < |v.live|
      ensures Answered(v.core.acts, v.live[i])
    {
      if i < n { AnsweredAlike(w.core.acts, v.core.acts, w.live[i]); }
    }
    forall t | t in v.core.links
      ensures LinkOk(v.core, v.live, t)
    {
      if t == d.token {
        assert v.live[n] == d;
      } else {
        assert LinkOk(w.core, w.live, t);
        var l := w.core.links[t];
        var i :| 0 <= i < |w.live| && w.live[i].token == t && Backs(w.live[i], w.core.acts[l.handle]);
        assert v.live[i] == w.live[i] && Backs(v.live[i], v.core.acts[l.handle]);
      }
    }
    forall i, j | 0 <= i < |v.live| && 0 <= j < |v.live|
      ensures Agree(v.live[i], v.live[j])
    {
      if i < n && j < n {
        assert Agree(w.live[i], w.live[j]);
      } else if i < n {
        assert Agree(w.live[i], d);
      } else if j < n {
        assert Agree(w.live[j], d);
      }
    }
  }

  /** A token that finds its activation adds to its support, and re-arms it if it had none. */
  lemma JoinOk(w: World, rules: Ruleset, d: Delta, h: Handle, b: Activation, links: map<TokenId, Link>)
    requires WorldOk(w, rules) && CanAdd(w.live, rules, d) && h < |w.core.acts| && Backs(d, w.core.acts[h])
    requires var a := w.core.acts[h];
             && SameMatch(a, b) && b.supportCount == a.supportCount + 1
             && b.status == (if a.status.Deactivated? then Waiting else a.status)
             && links == w.core.links[d.token := Link(h, a.ordinal)]
    ensures WorldOk(World(w.core.(acts := w.core.acts[h := b], links := links), w.live + [d],
                          if AlreadyBacked(w.live, d) then w.log else w.log + [Rose(h)]), rules)
  {
    hide CoreOk, Backing, LastAbout, AlreadyBacked, LiveOk, LinksOk;
    var a, acts, live := w.core.acts[h], w.core.acts[h := b], w.live + [d];
    var core := w.core.(acts := acts, links := links);
    CoreOkUpdate(w.core, rules, h, b);
    CoreOkLinks(w.core.(acts := acts), links, rules);
    BackedIffActive(w.live, a, d);
    SupportedCounted(w.live, d, a, b);
    forall k | 0 <= k < |acts|
      ensures Counted(live, acts[k])
    {
      if k != h {
        if Backs(d, w.core.acts[k]) { LeadsUnique(w.core, rules, h, k, d); }
        BackingWith(w.live, d, w.core.acts[k]);
        assert Counted(w.live, w.core.acts[k]);
      }
    }
    TokensGrow(w, World(core, live, w.log), d, h);
    if !AlreadyBacked(w.live, d) {
      LogGrows(w.core.acts, w.log, acts, Rose(h));
    }
  }

  lemma NobodyBacks(w: World, rules: Ruleset, d: Delta)
    requires WorldOk(w, rules) && Find(w.core.acts, d.rule, d.identity, d.facts).None?
    ensures !AlreadyBacked(w.live, d)
  {
    hide CoreOk, AllCounted, LogOk, LinksOk;
    forall i | 0 <= i < |w.live|
      ensures !SameMatchOf(w.live[i], d)
    {
      assert Answered(w.core.acts, w.live[i]);
      var h :| 0 <= h < |w.core.acts| && Backs(w.live[i], w.core.acts[h]);
      assert !Answers(w.core.acts[h], d.rule, d.identity, d.facts);
    }
  }

  /** A token that finds none creates an activation that waits. */
  lemma CreateOk(w: World, rules: Ruleset, d: Delta)
    requires WorldOk(w, rules) && CanAdd(w.live, rules, d) && Find(w.core.acts, d.rule, d.identity, d.facts).None?
    ensures var ordinal := w.core.nextOrdinal + 1;
            WorldOk(World(w.core.(acts := w.core.acts + [Created(rules[d.rule], d, ordinal)],
                                  links := w.core.links[d.token := Link(|w.core.acts|, ordinal)], nextOrdinal := ordinal),
                          w.live + [d], w.log + [Rose(|w.core.acts|)]), rules)
  {
    hide CoreOk, Backing, LastAbout, AlreadyBacked, LiveOk, LinksOk;
    var ordinal, n, live := w.core.nextOrdinal + 1, |w.core.acts|, w.live + [d];
    var a := Created(rules[d.rule], d, ordinal);
    var acts := w.core.acts + [a];
    var core := w.core.(acts := acts, links := w.core.links[d.token := Link(n, ordinal)], nextOrdinal := ordinal);
    CreatedOk(w.core, rules, d);
    CoreOkLinks(w.core.(acts := acts, nextOrdinal := ordinal), core.links, rules);
    NobodyBacks(w, rules, d);
    NewlyCounted(w.live, d, a);
    forall k | 0 <= k < |acts|
      ensures Counted(live, acts[k])
    {
      if k != n {
        assert !Answers(w.core.acts[k], d.rule, d.identity, d.facts);
        BackingWith(w.live, d, w.core.acts[k]);
        assert Counted(w.live, w.core.acts[k]);
      }
    }
    TokensGrow(w, World(core, live, w.log), d, n);
    LogGrows(w.core.acts, w.log, acts, Rose(n));
  }

  lemma NewlyCounted(live: seq<Delta>, d: Delta, a: Activation)
    requires !AlreadyBacked(live, d) && Backs(d, a) && a.supportCount == 1 && a.status.Waiting?
    ensures Counted(live + [d], a)
  {
    hide Backing;
    BackingWith(live, d, a);
    BackingSome(live, a);
    forall i | 0 <= i < |live|
      ensures !Backs(live[i], a)
    {
      assert !SameMatchOf(live[i], d);
    }
  }

  lemma BornAlike(core: Core, rules: Ruleset, births: Births, breadth: bool, h: Handle, d: Delta)
    requires CoreOk(core, rules) && h < |core.acts|
    ensures var r := Born(core, births, breadth, h, d);
            r.ok && CoreOk(r.core, rules) && Alike(core.acts, r.core.acts) && r.core.links == core.links
  {
    hide CoreOk;
    BornKeepsCore(core, rules, births, breadth, h, d);
  }

  lemma AddStepOk(w: World, births: Births, rules: Ruleset, breadth: bool, d: Delta)
    requires WorldOk(w, rules) && CanAdd(w.live, rules, d)
    ensures AddedOne(w.core, births, rules, breadth, d).ok && WorldOk(AddStep(w, births, rules, breadth, d), rules)
  {
    hide WorldOk, Born, Created, AlreadyBacked;
    var v := AddStep(w, births, rules, breadth, d);
    var f := Find(w.core.acts, d.rule, d.identity, d.facts);
    WorldCore(w, rules);
    if f.Some? {
      var h, a := f.value, Supported(w.core.acts[f.value]);
      var b := if a.status.Deactivated? then Rearmed(a, d.token) else a;
      var links := w.core.links[d.token := Link(h, a.ordinal)];
      BackedIfFound(w, rules, d, h);
      JoinOk(w, rules, d, h, b, links);
      var u := World(w.core.(acts := w.core.acts[h := b], links := links), v.live, v.log);
      WorldCore(u, rules);
      if a.status.Deactivated? {
        BornAlike(u.core, rules, births, breadth, h, d);
        AlikeOk(u, v, rules);
      }
    } else {
      NobodyBacks(w, rules, d);
      CreateOk(w, rules, d);
      var ordinal := w.core.nextOrdinal + 1;
      var u := World(w.core.(acts := w.core.acts + [Created(rules[d.rule], d, ordinal)],
                             links := w.core.links[d.token := Link(|w.core.acts|, ordinal)], nextOrdinal := ordinal), v.live, v.log);
      WorldCore(u, rules);
      BornAlike(u.core, rules, births, breadth, |w.core.acts|, d);
      AlikeOk(u, v, rules);
    }
  }

  lemma AddStepCore(w: World, births: Births, rules: Ruleset, breadth: bool, d: Delta)
    ensures AddStep(w, births, rules, breadth, d).core == AddedOne(w.core, births, rules, breadth, d).core
  {
    hide AddedOne;
  }

  lemma WorldCore(w: World, rules: Ruleset)
    requires WorldOk(w, rules)
    ensures CoreOk(w.core, rules)
  {
  }

  lemma BackedIfFound(w: World, rules: Ruleset, d: Delta, h: Handle)
    requires WorldOk(w, rules) && h < |w.core.acts| && Backs(d, w.core.acts[h])
    ensures AlreadyBacked(w.live, d) <==> !w.core.acts[h].status.Deactivated?
  {
    BackedIffActive(w.live, w.core.acts[h], d);
  }

  // ----- Whole batches and whole runs ------------------------------------------------------

  function AfterRemovals(w: World, rules: Ruleset, ds: seq<Delta>, n: nat): World
    requires n <= |ds|
  {
    if n == 0 then w else RemoveStep(AfterRemovals(w, rules, ds, n - 1), rules, ds[n - 1])
  }

  ghost function AfterAdditions(w: World, rules: Ruleset, breadth: bool, ds: seq<Delta>, n: nat): World
    requires n <= |ds|
  {
    if n == 0 then w else
    AddStep(AfterAdditions(w, rules, breadth, ds, n - 1), AddedAll(w.core, rules, breadth, ds, n - 1).births, rules, breadth, ds[n - 1])
  }

  /** Each delivery withdrawn is live just then, and each that comes agrees with the others of its token. */
  ghost predicate Enabled(w: World, rules: Ruleset, breadth: bool, e: Event) {
    match e
    case Batch(removed, added) =>
      && (forall n :: 0 <= n < |removed| ==> CanRemove(AfterRemovals(w, rules, removed, n).live, removed[n]))
      && var u := AfterRemovals(w, rules, removed, |removed|);
         forall n :: 0 <= n < |added| ==> CanAdd(AfterAdditions(u, rules, breadth, added, n).live, rules, added[n])
    case Fire(h) => h < |w.core.acts| && w.core.acts[h].status.Waiting?
  }

  ghost function Step(w: World, rules: Ruleset, breadth: bool, e: Event): World
    requires Enabled(w, rules, breadth, e)
  {
    match e
    case Batch(removed, added) =>
      var u := AfterRemovals(w, rules, removed, |removed|);
      var v := AfterAdditions(u, rules, breadth, added, |added|);
      v.(core := v.core.(acts := Ranked(v.core.acts, AddedAll(u.core, rules, breadth, added, |added|).births.born)))
    case Fire(h) => FireStep(w, h)
  }

  lemma {:induction false} AfterRemovalsOk(w: World, rules: Ruleset, ds: seq<Delta>, n: nat)
    requires WorldOk(w, rules) && n <= |ds|
    requires forall i :: 0 <= i < n ==> CanRemove(AfterRemovals(w, rules, ds, i).live, ds[i])
    ensures WorldOk(AfterRemovals(w, rules, ds, n), rules)
    ensures RemovedAll(w.core, rules, ds, n) == Result(AfterRemovals(w, rules, ds, n).core, true)
  {
    hide WorldOk, CanRemove, RemovedOne;
    if n > 0 {
      AfterRemovalsOk(w, rules, ds, n - 1);
      RemoveStepOk(AfterRemovals(w, rules, ds, n - 1), rules, ds[n - 1]);
    }
  }

  lemma {:induction false} AfterAdditionsOk(w: World, rules: Ruleset, breadth: bool, ds: seq<Delta>, n: nat)
    requires WorldOk(w, rules) && n <= |ds|
    requires forall i :: 0 <= i < n ==> CanAdd(AfterAdditions(w, rules, breadth, ds, i).live, rules, ds[i])
    ensures WorldOk(AfterAdditions(w, rules, breadth, ds, n), rules)
    ensures AddedAll(w.core, rules, breadth, ds, n).ok
    ensures AddedAll(w.core, rules, breadth, ds, n).core == AfterAdditions(w, rules, breadth, ds, n).core
  {
    hide WorldOk, CanAdd, AddedOne, AddStep;
    if n > 0 {
      AfterAdditionsOk(w, rules, breadth, ds, n - 1);
      var u, births := AfterAdditions(w, rules, breadth, ds, n - 1), AddedAll(w.core, rules, breadth, ds, n - 1).births;
      AddStepOk(u, births, rules, breadth, ds[n - 1]);
      AddStepCore(u, births, rules, breadth, ds[n - 1]);
    }
  }

  lemma RankedAlike(core: Core, rules: Ruleset, born: seq<Handle>)
    requires CoreOk(core, rules)
    ensures Alike(core.acts, Ranked(core.acts, born)) && CoreOk(core.(acts := Ranked(core.acts, born)), rules)
  {
  }

  /** Every step keeps the counts, the states and the log in order, and does to the agenda what the batch does. */
  lemma StepOk(w: World, rules: Ruleset, breadth: bool, e: Event)
    requires WorldOk(w, rules) && Enabled(w, rules, breadth, e)
    ensures WorldOk(Step(w, rules, breadth, e), rules)
    ensures e.Batch? ==> Applied(w.core, rules, breadth, e.removed, e.added) == Result(Step(w, rules, breadth, e).core, true)
  {
    hide WorldOk;
    match e
    case Fire(h) => FireStepOk(w, rules, h);
    case Batch(removed, added) =>
      hide AfterRemovals, AfterAdditions, RemovedAll, AddedAll, Ranked;
      AfterRemovalsOk(w, rules, removed, |removed|);
      var u := AfterRemovals(w, rules, removed, |removed|);
      AfterAdditionsOk(u, rules, breadth, added, |added|);
      var v := AfterAdditions(u, rules, breadth, added, |added|);
      WorldCore(v, rules);
      RankedAlike(v.core, rules, AddedAll(u.core, rules, breadth, added, |added|).births.born);
      AlikeOk(v, Step(w, rules, breadth, e), rules);
  }

  /** The events happen one after another from `w` and end in `v`. */
  ghost predicate Runs(w: World, rules: Ruleset, breadth: bool, es: seq<Event>, v: World)
    decreases |es|
  {
    if es == [] then v == w
    else Enabled(w, rules, breadth, es[0]) && Runs(Step(w, rules, breadth, es[0]), rules, breadth, es[1..], v)
  }

  lemma {:induction false} RunOk(w: World, rules: Ruleset, breadth: bool, es: seq<Event>, v: World)
    requires WorldOk(w, rules) && Runs(w, rules, breadth, es, v)
    ensures WorldOk(v, rules)
    decreases |es|
  {
    hide WorldOk, Enabled, Step;
    if es != [] {
      StepOk(w, rules, breadth, es[0]);
      RunOk(Step(w, rules, breadth, es[0]), rules, breadth, es[1..], v);
    }
  }

  /** In every run, support is the number of live deliveries, and only what has support waits or has fired. */
  lemma RunsCountSupport(rules: Ruleset, breadth: bool, es: seq<Event>, v: World, h: Handle)
    requires Runs(START, rules, breadth, es, v) && h < |v.core.acts|
    ensures v.core.acts[h].supportCount == |Backers(v.live, v.core.acts[h])|
    ensures v.core.acts[h].status.Deactivated? <==> forall i :: 0 <= i < |v.live| ==> !Backs(v.live[i], v.core.acts[h])
  {
    hide Enabled, Step;
    RunOk(START, rules, breadth, es, v);
    var a := v.core.acts[h];
    assert Counted(v.live, a);
    BackersCount(v.live, a);
    BackingSome(v.live, a);
  }

  // ----- One token for several rules ---------------------------------------------------------

  /** A token delivered to two rules at once is no special case of a run. */
  lemma SharedTokenEnabled(rules: Ruleset, breadth: bool, d: Delta, other: RuleId)
    requires d.token != 0 && d.rule in rules && other in rules
    ensures Enabled(START, rules, breadth, Batch([], [d, d.(rule := other)]))
  {
    var e := d.(rule := other);
    var one := AfterAdditions(START, rules, breadth, [d, e], 0);
    assert AfterAdditions(START, rules, breadth, [d, e], 1).live == one.live + [d] == [d];
  }

  /** The link then leads to the later rule only, and the earlier one's withdrawal has to look its match up. */
  lemma SharedTokenFallsBack(rules: Ruleset, breadth: bool, d: Delta, other: RuleId)
    requires d.token != 0 && d.rule in rules && other in rules && other != d.rule
    requires Enabled(START, rules, breadth, Batch([], [d, d.(rule := other)]))
    ensures var v, e := Step(START, rules, breadth, Batch([], [d, d.(rule := other)])), d.(rule := other);
            && CanRemove(v.live, d) && Linked(v.core, d).None? && Find(v.core.acts, d.rule, d.identity, d.facts) == Some(0)
            && CanRemove(v.live, e) && Linked(v.core, e) == Some(1)
  {
    var e := d.(rule := other);
    var v := Step(START, rules, breadth, Batch([], [d, e]));
    var one := AfterAdditions(START, rules, breadth, [d, e], 1);
    assert v.live == one.live + [e] && one.live == [d];
    assert v.live[0] == d && v.live[1] == e;
  }

  /** In every run, an activation that fires twice lost all support and regained it in between. */
  lemma RunsRefract(rules: Ruleset, breadth: bool, es: seq<Event>, v: World, i: nat, j: nat)
    requires Runs(START, rules, breadth, es, v)
    requires i < j < |v.log| && v.log[i].Fired? && v.log[j] == v.log[i]
    ensures exists k :: i < k < j && v.log[k] == Rose(v.log[i].handle)
  {
    hide Enabled, Step;
    RunOk(START, rules, breadth, es, v);
    assert LastAbout(v.log[..j], v.log[j].handle) == Some(Rose(v.log[j].handle));
    LastAboutAfter(v.log[..j], v.log[j].handle, i);
  }

  lemma {:induction false} LastAboutAfter(log: seq<Entry>, h: Handle, i: nat)
    requires i < |log| && log[i] == Fired(h) && LastAbout(log, h) == Some(Rose(h))
    ensures exists k :: i < k < |log| && log[k] == Rose(h)
  {
    var n := |log| - 1;
    if log[n].handle != h {
      LastAboutAfter(log[..n], h, i);
      var k :| i < k < n && log[..n][k] == Rose(h);
      assert log[k] == Rose(h);
    }
  }
}
