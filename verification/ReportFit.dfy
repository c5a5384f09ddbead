/**
 Fitting a run report into its byte limit: trimming one part at a time, in a fixed order,
 while every rule of the report keeps holding.
 */
module ReportFit {
  import opened Options
  import opened Sequences
  import opened Sorting
  import opened Utf8

  // ----- Reports ----------------------------------------------------------------------------

  datatype Availability = Available | Omitted | Unsupported

  datatype Status = Status(availability: Availability, reason: string)

  /**
   One entry of a section: what must not repeat, a second name that must not repeat either if
   entries of its kind have one (a firing has its sequence and its activation), what it is
   sorted by, and whether its own fields are in order.
   */
  datatype Item = Item(id: string, alias: Option<string>, rank: nat, wellFormed: bool)

  datatype Section = Section(status: Status, limit: int, total: int, totalKnown: bool, returned: int, truncated: bool, items: seq<Item>)

  datatype Query = Query(name: string, maxRows: int, rows: Section)

  datatype Output = Output(status: Status, limitBytes: int, totalBytes: int, totalKnown: bool, returnedBytes: int, truncated: bool, text: seq<Byte>)

  datatype Limits = Limits(
    runFacts: int, runFirings: int,
    facts: int, firings: int, events: int, queryRows: int, diagnostics: int, counters: int, checks: int, references: int,
    outputBytes: int, reportBytes: int)

  /** `headerOk` stands for the rules about fields that trimming does not touch. */
  datatype Report = Report(
    headerOk: bool, limits: Limits, fired: int,
    references: Section, diagnostics: Section, counters: Section, checks: Section, events: Section, facts: Section, firings: Section,
    queries: seq<Query>, output: Output)

  // ----- Rules --------------------------------------------------------------------------------

  const MAX_SAFE: int := 0x1F_FFFF_FFFF_FFFF

  predicate SafeCount(n: int) {
    0 <= n <= MAX_SAFE
  }

  predicate StatusOk(s: Status) {
    s.availability.Available? <==> s.reason == ""
  }

  predicate CollectionOk(c: Section, applied: int) {
    && StatusOk(c.status) && c.limit == applied
    && if c.status.availability.Available? then
         && c.totalKnown && SafeCount(c.total) && SafeCount(c.returned)
         && c.returned == |c.items| && c.returned <= c.total && c.returned <= c.limit
         && c.truncated == (c.returned < c.total)
       else
         !c.totalKnown && c.total == 0 && c.returned == 0 && |c.items| == 0 && !c.truncated
  }

  predicate ItemsOk(items: seq<Item>) {
    && (forall i :: 0 <= i < |items| ==> items[i].wellFormed)
    && (forall i, j :: 0 <= i < j < |items| ==> items[i].id != items[j].id)
    && (forall i, j :: 0 <= i < j < |items| && items[i].alias.Some? ==> items[i].alias != items[j].alias)
  }

  predicate RowsOk(items: seq<Item>) {
    forall i :: 0 <= i < |items| ==> items[i].wellFormed
  }

  predicate OutputOk(o: Output, applied: int) {
    && StatusOk(o.status) && o.limitBytes == applied && Valid(o.text)
    && if o.status.availability.Available? then
         && o.totalKnown && SafeCount(o.totalBytes) && SafeCount(o.returnedBytes)
         && o.returnedBytes == |o.text| && o.returnedBytes <= o.totalBytes && o.returnedBytes <= o.limitBytes
         && o.truncated == (o.returnedBytes < o.totalBytes)
       else
         !o.totalKnown && o.totalBytes == 0 && o.returnedBytes == 0 && !o.truncated && o.text == []
  }

  predicate QueryOk(q: Query, applied: int) {
    q.name != "" && 0 < q.maxRows <= MAX_SAFE && q.maxRows <= applied && CollectionOk(q.rows, q.maxRows) && RowsOk(q.rows.items)
  }

  predicate SectionOk(c: Section, applied: int) {
    CollectionOk(c, applied) && ItemsOk(c.items)
  }

  predicate ReportOk(r: Report) {
    && r.headerOk && 0 < r.limits.reportBytes
    && OutputOk(r.output, r.limits.outputBytes)
    && SectionOk(r.facts, r.limits.facts)
    && (r.facts.status.availability.Available? ==> r.facts.total <= r.limits.runFacts)
    && SectionOk(r.firings, r.limits.firings)
    && (r.firings.status.availability.Available? ==> r.fired == r.firings.total)
    && r.fired <= r.limits.runFirings
    && SectionOk(r.events, r.limits.events)
    && (forall i :: 0 <= i < |r.queries| ==> QueryOk(r.queries[i], r.limits.queryRows))
    && (forall i, j :: 0 <= i < j < |r.queries| ==> r.queries[i].name != r.queries[j].name)
    && SectionOk(r.diagnostics, r.limits.diagnostics)
    && SectionOk(r.counters, r.limits.counters)
    && SectionOk(r.checks, r.limits.checks)
    && SectionOk(r.references, r.limits.references)
  }

  /** A valid section that is available is its items under its limit, out of a total; one that is not is empty, with a reason. */
  lemma CollectionMeaning(c: Section, applied: int)
    ensures CollectionOk(c, applied) <==>
              if c.status.availability == Available
              then c == Section(Status(Available, ""), applied, c.total, true, |c.items|, |c.items| < c.total, c.items)
                   && |c.items| <= c.total <= 9007199254740991 && |c.items| <= applied
              else c == Section(c.status, applied, 0, false, 0, false, []) && c.status.reason != ""
  {
  }

  lemma OutputMeaning(o: Output, applied: int)
    ensures OutputOk(o, applied) <==>
              if o.status.availability == Available
              then o == Output(Status(Available, ""), applied, o.totalBytes, true, |o.text|, |o.text| < o.totalBytes, o.text)
                   && Valid(o.text) && |o.text| <= o.totalBytes <= 9007199254740991 && |o.text| <= applied
              else o == Output(o.status, applied, 0, false, 0, false, []) && o.status.reason != ""
  {
  }

  /** Two entries that share what must not repeat, or one that is not in order itself. */
  predicate ItemFault(items: seq<Item>) {
    || (exists i :: 0 <= i < |items| && !items[i].wellFormed)
    || (exists i, j :: 0 <= i < |items| && 0 <= j < |items| && i != j && items[i].id == items[j].id)
    || (exists i, j :: 0 <= i < |items| && 0 <= j < |items| && i != j && items[i].alias.Some? && items[j].alias.Some?
                       && items[i].alias.value == items[j].alias.value)
  }

  /** A query without a name, with no rows allowed or more than the report allows, or with faulty rows. */
  predicate QueryFault(q: Query, applied: int) {
    || q.name == "" || q.maxRows <= 0 || q.maxRows > MAX_SAFE || q.maxRows > applied
    || !CollectionOk(q.rows, q.maxRows) || exists i :: 0 <= i < |q.rows.items| && !q.rows.items[i].wellFormed
  }

  /** More firings than the run may have, or a number that is not the section's; more facts than the run may have; two queries of one name. */
  predicate RunFault(r: Report) {
    || r.fired > r.limits.runFirings
    || (r.firings.status.availability == Available && r.fired != r.firings.total)
    || (r.facts.status.availability == Available && r.facts.total > r.limits.runFacts)
    || exists i, j :: 0 <= i < |r.queries| && 0 <= j < |r.queries| && i != j && r.queries[i].name == r.queries[j].name
  }

  lemma ItemFaults(items: seq<Item>)
    ensures ItemsOk(items) <==> !ItemFault(items)
  {
  }

  /** A report is refused for these faults and no others. */
  lemma RefusedForFaults(r: Report)
    ensures !ReportOk(r) <==>
              || !r.headerOk || r.limits.reportBytes <= 0 || RunFault(r) || !OutputOk(r.output, r.limits.outputBytes)
              || (exists c, n :: (c, n) in SectionsAndLimits(r) && (!CollectionOk(c, n) || ItemFault(c.items)))
              || (exists i :: 0 <= i < |r.queries| && QueryFault(r.queries[i], r.limits.queryRows))
  {
    hide CollectionOk, ItemsOk, ItemFault, OutputOk;
    forall c, n | (c, n) in SectionsAndLimits(r)
      ensures SectionOk(c, n) <==> CollectionOk(c, n) && !ItemFault(c.items)
    {
      ItemFaults(c.items);
    }
    forall i | 0 <= i < |r.queries|
      ensures QueryOk(r.queries[i], r.limits.queryRows) <==> !QueryFault(r.queries[i], r.limits.queryRows)
    {
    }
  }

  function SectionsAndLimits(r: Report): set<(Section, int)> {
    {(r.references, r.limits.references), (r.diagnostics, r.limits.diagnostics), (r.counters, r.limits.counters), (r.checks, r.limits.checks),
     (r.events, r.limits.events), (r.facts, r.limits.facts), (r.firings, r.limits.firings)}
  }

  // ----- Normalizing ---------------------------------------------------------------------------

  predicate RankLess(a: Item, b: Item) {
    a.rank < b.rank
  }

  function SortItems(items: seq<Item>): seq<Item> {
    Sort((a: Item, b: Item) => RankLess(a, b), items)
  }

  function SortSection(c: Section): Section {
    c.(items := SortItems(c.items))
  }

  function SortQuery(q: Query): Query {
    q.(rows := SortSection(q.rows))
  }

  function Sorted(r: Report): Report {
    r.(references := SortSection(r.references), diagnostics := SortSection(r.diagnostics), counters := SortSection(r.counters),
       checks := SortSection(r.checks), events := SortSection(r.events), facts := SortSection(r.facts), firings := SortSection(r.firings),
       queries := seq(|r.queries|, i requires 0 <= i < |r.queries| => SortQuery(r.queries[i])))
  }

  /** A valid report with every section in its canonical order. */
  function Normalize(r: Report): Option<Report> {
    if ReportOk(r) then Some(Sorted(r)) else None
  }

  predicate Ascending(items: seq<Item>) {
    forall i, j :: 0 <= i < j < |items| ==> items[i].rank <= items[j].rank
  }

  lemma SortedItems(items: seq<Item>)
    ensures Ascending(SortItems(items)) && multiset(SortItems(items)) == multiset(items) && |SortItems(items)| == |items|
    ensures ItemsOk(items) ==> ItemsOk(SortItems(items))
    ensures RowsOk(items) ==> RowsOk(SortItems(items))
  {
    var less := (a: Item, b: Item) => RankLess(a, b);
    SortMembers(less, items);
    SortInOrder(less, items);
    var s := Sort(less, items);
    assert forall i, j :: 0 <= i < j < |s| ==> !less(s[j], s[i]);
    assert |multiset(s)| == |s| && |multiset(items)| == |items|;
    assert forall i :: 0 <= i < |s| ==> s[i] in items;
    if ItemsOk(items) { PermutedIds(items, s); }
  }

  lemma PermutedIds(items: seq<Item>, s: seq<Item>)
    requires ItemsOk(items) && multiset(s) == multiset(items) && forall i :: 0 <= i < |s| ==> s[i] in items
    ensures ItemsOk(s)
  {
    forall i, j | 0 <= i < j < |s|
      ensures s[i].id != s[j].id && (s[i].alias.Some? ==> s[i].alias != s[j].alias)
    {
      if s[i] == s[j] {
        var _, _ := RepeatedBoth(items, s, i, j);
      }
      var k :| 0 <= k < |items| && items[k] == s[i];
      var l :| 0 <= l < |items| && items[l] == s[j];
    }
  }

  lemma {:induction false} AscendingSorted(items: seq<Item>)
    requires Ascending(items)
    ensures SortItems(items) == items
  {
    if items != [] {
      AscendingSorted(items[1..]);
      assert items == [items[0]] + items[1..];
      if items[1..] != [] { assert !RankLess(items[1..][0], items[0]); }
    }
  }

  /** Valid and in canonical order. */
  predicate Normal(r: Report) {
    && ReportOk(r)
    && Ascending(r.references.items) && Ascending(r.diagnostics.items) && Ascending(r.counters.items) && Ascending(r.checks.items)
    && Ascending(r.events.items) && Ascending(r.facts.items) && Ascending(r.firings.items)
    && forall i :: 0 <= i < |r.queries| ==> Ascending(r.queries[i].rows.items)
  }

  lemma SortedSectionOk(c: Section, applied: int)
    requires CollectionOk(c, applied)
    ensures CollectionOk(SortSection(c), applied) && Ascending(SortSection(c).items)
    ensures ItemsOk(c.items) ==> ItemsOk(SortSection(c).items)
    ensures RowsOk(c.items) ==> RowsOk(SortSection(c).items)
  {
    SortedItems(c.items);
  }

  /** Normalizing a valid report yields a normal one. */
  lemma NormalizeNormal(r: Report)
    requires ReportOk(r)
    ensures Normal(Sorted(r))
  {
    hide SortSection, CollectionOk, ItemsOk, RowsOk, Ascending, OutputOk;
    SortedSectionFields(r.references); SortedSectionOk(r.references, r.limits.references);
    SortedSectionFields(r.diagnostics); SortedSectionOk(r.diagnostics, r.limits.diagnostics);
    SortedSectionFields(r.counters); SortedSectionOk(r.counters, r.limits.counters);
    SortedSectionFields(r.checks); SortedSectionOk(r.checks, r.limits.checks);
    SortedSectionFields(r.events); SortedSectionOk(r.events, r.limits.events);
    SortedSectionFields(r.facts); SortedSectionOk(r.facts, r.limits.facts);
    SortedSectionFields(r.firings); SortedSectionOk(r.firings, r.limits.firings);
    forall i | 0 <= i < |r.queries|
      ensures QueryOk(SortQuery(r.queries[i]), r.limits.queryRows) && Ascending(SortQuery(r.queries[i]).rows.items)
    {
      SortedSectionOk(r.queries[i].rows, r.queries[i].maxRows);
    }
  }

  lemma SortedSectionFields(c: Section)
    ensures SortSection(c).status == c.status && SortSection(c).total == c.total
  {
  }

  /** A normal report is its own normal form. */
  lemma NormalFixed(r: Report)
    requires Normal(r)
    ensures Normalize(r) == Some(r)
  {
    hide ReportOk, Ascending, SortItems;
    AscendingSorted(r.references.items);
    AscendingSorted(r.diagnostics.items);
    AscendingSorted(r.counters.items);
    AscendingSorted(r.checks.items);
    AscendingSorted(r.events.items);
    AscendingSorted(r.facts.items);
    AscendingSorted(r.firings.items);
    forall i | 0 <= i < |r.queries|
      ensures SortQuery(r.queries[i]) == r.queries[i]
    {
      AscendingSorted(r.queries[i].rows.items);
    }
    assert Sorted(r).queries == r.queries;
  }

  // ----- The parts, in trim order ----------------------------------------------------------------

  /** The sections in the order in which they are trimmed; the queries from last to first. */
  function Sections(r: Report): (s: seq<Section>)
    ensures |s| == 7 + |r.queries|
  {
    [r.references, r.diagnostics, r.counters, r.checks, r.events, r.facts, r.firings]
    + seq(|r.queries|, i requires 0 <= i < |r.queries| => r.queries[|r.queries| - 1 - i].rows)
  }

  function WithSection(r: Report, p: nat, c: Section): Report
    requires p < 7 + |r.queries|
  {
    if p == 0 then r.(references := c)
    else if p == 1 then r.(diagnostics := c)
    else if p == 2 then r.(counters := c)
    else if p == 3 then r.(checks := c)
    else if p == 4 then r.(events := c)
    else if p == 5 then r.(facts := c)
    else if p == 6 then r.(firings := c)
    else var i := |r.queries| - 1 - (p - 7); r.(queries := r.queries[i := r.queries[i].(rows := c)])
  }

  lemma SectionsUpdate(r: Report, p: nat, c: Section)
    requires p < 7 + |r.queries|
    ensures Sections(WithSection(r, p, c)) == Sections(r)[p := c]
    ensures WithSection(r, p, c).output == r.output && WithSection(r, p, c).limits == r.limits && |WithSection(r, p, c).queries| == |r.queries|
  {
  }

  /** The section without its last item; the total stays, and says that something is missing. */
  function Shorter(c: Section): Section
    requires c.items != []
  {
    c.(items := c.items[..|c.items| - 1], returned := |c.items| - 1, truncated := |c.items| - 1 < c.total)
  }

  function CutPlace(text: seq<Byte>, excess: int): nat {
    var cut := if excess > 1 then excess else 1;
    if |text| > cut then |text| - cut else 0
  }

  /** The output cut back by the excess, and further to the end of a character. */
  function ShorterOutput(o: Output, excess: int): Output {
    var keep := CutBefore(o.text, CutPlace(o.text, excess));
    o.(text := o.text[..keep], returnedBytes := keep, truncated := keep < o.totalBytes)
  }

  /** The first part with anything left: a section, or after all of them the output text. */
  function FirstFrom(r: Report, p: nat): (q: nat)
    requires p <= |Sections(r)|
    ensures p <= q <= |Sections(r)|
    ensures forall k :: p <= k < q ==> Sections(r)[k].items == []
    ensures q < |Sections(r)| ==> Sections(r)[q].items != []
    decreases |Sections(r)| - p
  {
    if p < |Sections(r)| && Sections(r)[p].items == [] then FirstFrom(r, p + 1) else p
  }

  predicate NothingLeft(r: Report) {
    r.output.text == [] && forall k :: 0 <= k < |Sections(r)| ==> Sections(r)[k].items == []
  }

  /** The report with its first non-empty part trimmed once. */
  function TrimmedOnce(r: Report, excess: int): Report
    requires !NothingLeft(r)
  {
    var p := FirstFrom(r, 0);
    if p < |Sections(r)| then WithSection(r, p, Shorter(Sections(r)[p]))
    else r.(output := ShorterOutput(r.output, excess))
  }

  // ----- What trimming keeps ------------------------------------------------------------------------

  lemma ShorterOk(c: Section, applied: int)
    requires CollectionOk(c, applied) && c.items != []
    ensures CollectionOk(Shorter(c), applied)
    ensures ItemsOk(c.items) ==> ItemsOk(Shorter(c).items)
    ensures RowsOk(c.items) ==> RowsOk(Shorter(c).items)
    ensures Ascending(c.items) ==> Ascending(Shorter(c).items)
    ensures Shorter(c).total == c.total && Shorter(c).status == c.status
  {
  }

  lemma ShorterOutputOk(o: Output, applied: int, excess: int)
    requires OutputOk(o, applied) && o.text != []
    ensures OutputOk(ShorterOutput(o, excess), applied)
    ensures |ShorterOutput(o, excess).text| < |o.text| && ShorterOutput(o, excess).text <= o.text
  {
  }

  /** Every rule and the canonical order survive a trim. */
  lemma TrimKeepsNormal(r: Report, excess: int)
    requires Normal(r) && !NothingLeft(r)
    ensures Normal(TrimmedOnce(r, excess))
  {
    hide CollectionOk, ItemsOk, RowsOk, Ascending, OutputOk, StatusOk;
    var p := FirstFrom(r, 0);
    if p < |Sections(r)| {
      TrimSectionNormal(r, p);
    } else {
      ShorterOutputOk(r.output, r.limits.outputBytes, excess);
    }
  }

  lemma TrimSectionNormal(r: Report, p: nat)
    requires Normal(r) && p < |Sections(r)| && Sections(r)[p].items != []
    ensures Normal(WithSection(r, p, Shorter(Sections(r)[p])))
  {
    hide CollectionOk, ItemsOk, RowsOk, Ascending, OutputOk, StatusOk, Shorter;
    if p == 0 { ShorterOk(r.references, r.limits.references); }
    else if p == 1 { ShorterOk(r.diagnostics, r.limits.diagnostics); }
    else if p == 2 { ShorterOk(r.counters, r.limits.counters); }
    else if p == 3 { ShorterOk(r.checks, r.limits.checks); }
    else if p == 4 { ShorterOk(r.events, r.limits.events); }
    else if p == 5 { ShorterOk(r.facts, r.limits.facts); }
    else if p == 6 { ShorterOk(r.firings, r.limits.firings); }
    else {
      var i := |r.queries| - 1 - (p - 7);
      ShorterOk(r.queries[i].rows, r.queries[i].maxRows);
      var next := WithSection(r, p, Shorter(r.queries[i].rows));
      forall k | 0 <= k < |next.queries|
        ensures QueryOk(next.queries[k], next.limits.queryRows) && Ascending(next.queries[k].rows.items)
      {
        assert QueryOk(r.queries[k], r.limits.queryRows);
      }
    }
  }

  // ----- How much is left ------------------------------------------------------------------------------

  function ItemCount(s: seq<Section>): nat {
    if s == [] then 0 else |s[0].items| + ItemCount(s[1..])
  }

  function Weight(r: Report): nat {
    ItemCount(Sections(r)) + |r.output.text|
  }

  lemma {:induction false} ItemCountUpdate(s: seq<Section>, p: nat, c: Section)
    requires p < |s|
    ensures ItemCount(s[p := c]) + |s[p].items| == ItemCount(s) + |c.items|
  {
    if p > 0 {
      ItemCountUpdate(s[1..], p - 1, c);
      assert s[p := c][1..] == s[1..][p - 1 := c];
    } else {
      assert s[p := c][1..] == s[1..];
    }
  }

  lemma TrimLightens(r: Report, excess: int)
    requires Normal(r) && !NothingLeft(r)
    ensures Weight(TrimmedOnce(r, excess)) < Weight(r)
  {
    hide Normal, ItemCount;
    var p := FirstFrom(r, 0);
    if p < |Sections(r)| {
      SectionsUpdate(r, p, Shorter(Sections(r)[p]));
      ItemCountUpdate(Sections(r), p, Shorter(Sections(r)[p]));
    } else {
      NormalOutput(r);
      ShorterOutputOk(r.output, r.limits.outputBytes, excess);
      assert Sections(TrimmedOnce(r, excess)) == Sections(r);
    }
  }

  lemma NormalOutput(r: Report)
    requires Normal(r)
    ensures OutputOk(r.output, r.limits.outputBytes)
  {
  }

  // ----- Where a trimmed report comes from ---------------------------------------------------------------

  /** The same section, perhaps with fewer items at its end. */
  predicate PrefixSection(c: Section, d: Section) {
    d.status == c.status && d.limit == c.limit && d.total == c.total && d.totalKnown == c.totalKnown && d.items <= c.items
  }

  /** Everything but items, text and the counts that follow them is as it was. */
  predicate SameFrame(r: Report, t: Report) {
    && t.headerOk == r.headerOk && t.limits == r.limits && t.fired == r.fired && |t.queries| == |r.queries|
    && (forall i :: 0 <= i < |r.queries| ==> t.queries[i].name == r.queries[i].name && t.queries[i].maxRows == r.queries[i].maxRows)
    && t.output.status == r.output.status && t.output.limitBytes == r.output.limitBytes
    && t.output.totalBytes == r.output.totalBytes && t.output.totalKnown == r.output.totalKnown
  }

  predicate EmptyBefore(r: Report, p: nat)
    requires p <= |Sections(r)|
  {
    forall k :: 0 <= k < p ==> Sections(r)[k].items == []
  }

  /** A part has lost something only if every part before it in trim order is empty. */
  predicate TrimmedFrom(r: Report, t: Report) {
    && SameFrame(r, t)
    && (forall p :: 0 <= p < |Sections(r)| ==> PrefixSection(Sections(r)[p], Sections(t)[p]))
    && (forall p :: 0 <= p < |Sections(r)| && Sections(t)[p] != Sections(r)[p] ==> EmptyBefore(t, p))
    && t.output.text <= r.output.text
    && (t.output != r.output ==> EmptyBefore(t, |Sections(t)|))
  }

  lemma TrimmedFromSelf(r: Report)
    ensures TrimmedFrom(r, r)
  {
  }

  lemma FrameUpdate(r: Report, p: nat, c: Section)
    requires p < |Sections(r)|
    ensures SameFrame(r, WithSection(r, p, c))
  {
  }

  lemma TrimStays(r: Report, t: Report, excess: int)
    requires TrimmedFrom(r, t) && Normal(t) && !NothingLeft(t)
    ensures TrimmedFrom(r, TrimmedOnce(t, excess))
  {
    hide Normal, Sections, WithSection;
    var p := FirstFrom(t, 0);
    var u := TrimmedOnce(t, excess);
    if p < |Sections(t)| {
      var c := Shorter(Sections(t)[p]);
      SectionsUpdate(t, p, c);
      FrameUpdate(t, p, c);
      assert Sections(u) == Sections(t)[p := c];
      forall q | 0 <= q < |Sections(r)|
        ensures PrefixSection(Sections(r)[q], Sections(u)[q])
        ensures Sections(u)[q] != Sections(r)[q] ==> EmptyBefore(u, q)
      {
        assert PrefixSection(Sections(r)[q], Sections(t)[q]);
        assert q > p ==> Sections(t)[p].items != [] && Sections(t)[q] == Sections(r)[q];
      }
      assert t.output != r.output ==> EmptyBefore(t, |Sections(t)|);
    } else {
      NormalOutput(t);
      ShorterOutputOk(t.output, t.limits.outputBytes, excess);
      OutputOnly(t, u.output);
    }
  }

  lemma OutputOnly(r: Report, o: Output)
    ensures Sections(r.(output := o)) == Sections(r)
  {
  }

  // ----- Trimming and fitting ------------------------------------------------------------------------------

  method TrimSection(c: Section) returns (out: Section, trimmed: bool)
    ensures trimmed <==> c.items != []
    ensures out == if trimmed then Shorter(c) else c
  {
    if |c.items| == 0 { return c, false; }
    var items := c.items[..|c.items| - 1];
    out := c.(items := items, returned := |items|, truncated := |items| < c.total);
    trimmed := true;
  }

  /** Trims the first part that has anything left. */
  method TrimRunReport(report: Report, excess: int) returns (out: Report, trimmed: bool)
    ensures trimmed <==> !NothingLeft(report)
    ensures trimmed ==> out == TrimmedOnce(report, excess) && OneTrim(report, excess, out)
  {
    hide Sections, NothingLeft, TrimmedOnce, Shorter, OneTrim;
    if !NothingLeft(report) { TrimIsOne(report, excess); }
    FixedSections(report);
    var c;
    c, trimmed := TrimSection(report.references);
    if trimmed { TrimsAt(report, 0, excess); return report.(references := c), true; }
    c, trimmed := TrimSection(report.diagnostics);
    if trimmed { TrimsAt(report, 1, excess); return report.(diagnostics := c), true; }
    c, trimmed := TrimSection(report.counters);
    if trimmed { TrimsAt(report, 2, excess); return report.(counters := c), true; }
    c, trimmed := TrimSection(report.checks);
    if trimmed { TrimsAt(report, 3, excess); return report.(checks := c), true; }
    c, trimmed := TrimSection(report.events);
    if trimmed { TrimsAt(report, 4, excess); return report.(events := c), true; }
    c, trimmed := TrimSection(report.facts);
    if trimmed { TrimsAt(report, 5, excess); return report.(facts := c), true; }
    c, trimmed := TrimSection(report.firings);
    if trimmed { TrimsAt(report, 6, excess); return report.(firings := c), true; }
    assert EmptyBefore(report, 7);
    for i := |report.queries| downto 0
      invariant EmptyBefore(report, 7 + (|report.queries| - i))
    {
      c, trimmed := TrimSection(report.queries[i].rows);
      QuerySection(report, i);
      if trimmed {
        TrimsAt(report, 7 + (|report.queries| - 1 - i), excess);
        return report.(queries := report.queries[i := report.queries[i].(rows := c)]), true;
      }
    }
    TrimsOutput(report, excess);
    if report.output.text != [] {
      var text := report.output.text;
      var cut := if excess > 1 then excess else 1;
      var keep := Cut(text, if |text| > cut then |text| - cut else 0);
      out := report.(output := report.output.(text := text[..keep], returnedBytes := keep, truncated := keep < report.output.totalBytes));
      return out, true;
    }
    out, trimmed := report, false;
  }

  lemma FixedSections(r: Report)
    ensures var s := Sections(r);
            && s[0] == r.references && s[1] == r.diagnostics && s[2] == r.counters && s[3] == r.checks
            && s[4] == r.events && s[5] == r.facts && s[6] == r.firings
  {
  }

  lemma QuerySection(r: Report, i: nat)
    requires i < |r.queries|
    ensures Sections(r)[7 + (|r.queries| - 1 - i)] == r.queries[i].rows
  {
  }

  lemma {:induction false} FirstIs(r: Report, p: nat, from: nat)
    requires from <= p <= |Sections(r)| && EmptyBefore(r, p) && (p < |Sections(r)| ==> Sections(r)[p].items != [])
    ensures FirstFrom(r, from) == p
    decreases p - from
  {
    hide Sections;
    if from < p { FirstIs(r, p, from + 1); }
  }

  /** The first section with anything left is the one that is trimmed. */
  lemma TrimsAt(r: Report, p: nat, excess: int)
    requires p < |Sections(r)| && EmptyBefore(r, p) && Sections(r)[p].items != []
    ensures !NothingLeft(r) && TrimmedOnce(r, excess) == WithSection(r, p, Shorter(Sections(r)[p]))
  {
    hide Sections, WithSection, Shorter;
    FirstIs(r, p, 0);
  }

  lemma TrimsOutput(r: Report, excess: int)
    requires EmptyBefore(r, |Sections(r)|)
    ensures NothingLeft(r) <==> r.output.text == []
    ensures r.output.text != [] ==> TrimmedOnce(r, excess) == r.(output := ShorterOutput(r.output, excess))
  {
    hide Sections, WithSection, Shorter, ShorterOutput;
    FirstIs(r, |Sections(r)|, 0);
  }

  // ----- What one trim takes, part by part ---------------------------------------------------------------

  /** The section has lost its last item and nothing else, and says so. */
  predicate LastGone(c: Section, d: Section) {
    && c.items != [] && |d.items| == |c.items| - 1 && (forall i :: 0 <= i < |d.items| ==> d.items[i] == c.items[i])
    && d.status == c.status && d.limit == c.limit && d.total == c.total && d.totalKnown == c.totalKnown
    && d.returned == |c.items| - 1 && (d.truncated <==> |c.items| - 1 < c.total)
  }

  /** The longest valid start of the text that leaves out at least the excess, and at least one byte. */
  predicate KeptText(text: seq<Byte>, excess: int, kept: seq<Byte>) {
    var most := if excess > 1 then |text| - excess else |text| - 1;
    && kept <= text && Valid(kept) && |kept| <= (if most > 0 then most else 0)
    && forall j :: |kept| < j <= most ==> !Valid(text[..j])
  }

  predicate OutputCut(o: Output, excess: int, p: Output) {
    && KeptText(o.text, excess, p.text)
    && p == o.(text := p.text, returnedBytes := |p.text|, truncated := |p.text| < o.totalBytes)
  }

  predicate QueryRowsGone(r: Report, t: Report) {
    exists i :: 0 <= i < |r.queries| && RowsGoneAt(r, t, i)
  }

  /** The rows of query `i` have lost their last, and those of the queries after it were empty. */
  predicate RowsGoneAt(r: Report, t: Report, i: nat)
    requires i < |r.queries|
  {
    && |t.queries| == |r.queries| && LastGone(r.queries[i].rows, t.queries[i].rows)
    && t == r.(queries := r.queries[i := r.queries[i].(rows := t.queries[i].rows)])
    && forall j :: i < j < |r.queries| ==> r.queries[j].rows.items == []
  }

  /** References go first, then diagnostics, counters, checks, events, facts, firings, query rows from the last query on, and output. */
  predicate OneTrim(r: Report, excess: int, t: Report) {
    if r.references.items != [] then LastGone(r.references, t.references) && t == r.(references := t.references)
    else if r.diagnostics.items != [] then LastGone(r.diagnostics, t.diagnostics) && t == r.(diagnostics := t.diagnostics)
    else if r.counters.items != [] then LastGone(r.counters, t.counters) && t == r.(counters := t.counters)
    else if r.checks.items != [] then LastGone(r.checks, t.checks) && t == r.(checks := t.checks)
    else if r.events.items != [] then LastGone(r.events, t.events) && t == r.(events := t.events)
    else if r.facts.items != [] then LastGone(r.facts, t.facts) && t == r.(facts := t.facts)
    else if r.firings.items != [] then LastGone(r.firings, t.firings) && t == r.(firings := t.firings)
    else if exists i :: 0 <= i < |r.queries| && r.queries[i].rows.items != [] then QueryRowsGone(r, t)
    else r.output.text != [] && OutputCut(r.output, excess, t.output) && t == r.(output := t.output)
  }

  lemma ShorterLoses(c: Section)
    requires c.items != []
    ensures LastGone(c, Shorter(c))
  {
  }

  lemma ShorterOutputKeeps(o: Output, excess: int)
    ensures OutputCut(o, excess, ShorterOutput(o, excess))
  {
  }

  /** Output cut so loses the excess, or all there is, and hardly more. */
  lemma KeptLoses(text: seq<Byte>, excess: int, kept: seq<Byte>)
    requires Valid(text) && KeptText(text, excess, kept)
    ensures var least := if excess > 1 then excess else 1;
            |text| - |kept| >= (if least < |text| then least else |text|) && |text| - |kept| < least + 4
  {
    var most := if excess > 1 then |text| - excess else |text| - 1;
    if most > 0 { var c := CutNearby(text, most); }
  }

  /** A trim is this, and nothing else. */
  lemma TrimIsOne(r: Report, excess: int)
    requires !NothingLeft(r)
    ensures OneTrim(r, excess, TrimmedOnce(r, excess))
  {
    hide LastGone, OutputCut, Shorter, ShorterOutput, Sections, WithSection, OneTrim, FirstFrom;
    FixedSections(r);
    var p := FirstFrom(r, 0);
    if p < 7 {
      FixedIsOne(r, p, excess);
    } else if p < |Sections(r)| {
      QueryIsOne(r, p, excess);
    } else {
      OutputIsOne(r, excess);
    }
  }

  lemma FixedIsOne(r: Report, p: nat, excess: int)
    requires p < 7 && (forall k :: 0 <= k < p ==> Sections(r)[k].items == []) && Sections(r)[p].items != []
    ensures OneTrim(r, excess, WithSection(r, p, Shorter(Sections(r)[p])))
  {
    hide LastGone, Shorter, QueryRowsGone, OutputCut, Sections;
    FixedSections(r);
    ShorterLoses(Sections(r)[p]);
    assert p > 0 ==> Sections(r)[0].items == [];
    assert p > 1 ==> Sections(r)[1].items == [];
    assert p > 2 ==> Sections(r)[2].items == [];
    assert p > 3 ==> Sections(r)[3].items == [];
    assert p > 4 ==> Sections(r)[4].items == [];
    assert p > 5 ==> Sections(r)[5].items == [];
  }

  lemma QueryIsOne(r: Report, p: nat, excess: int)
    requires 7 <= p < |Sections(r)| && (forall k :: 0 <= k < p ==> Sections(r)[k].items == []) && Sections(r)[p].items != []
    ensures OneTrim(r, excess, WithSection(r, p, Shorter(Sections(r)[p])))
  {
    hide LastGone, Shorter, OutputCut, Sections;
    FixedSections(r);
    FixedEmpty(r, p);
    ShorterLoses(Sections(r)[p]);
    var i := |r.queries| - 1 - (p - 7);
    QuerySection(r, i);
    forall j | i < j < |r.queries|
      ensures r.queries[j].rows.items == []
    {
      QuerySection(r, j);
    }
    assert RowsGoneAt(r, WithSection(r, p, Shorter(Sections(r)[p])), i);
  }

  lemma FixedEmpty(r: Report, p: nat)
    requires 7 <= p <= |Sections(r)| && forall k :: 0 <= k < p ==> Sections(r)[k].items == []
    ensures r.references.items == [] && r.diagnostics.items == [] && r.counters.items == [] && r.checks.items == []
    ensures r.events.items == [] && r.facts.items == [] && r.firings.items == []
  {
    hide Sections;
    FixedSections(r);
    assert forall k :: 0 <= k < 7 ==> Sections(r)[k].items == [];
  }

  lemma OutputIsOne(r: Report, excess: int)
    requires EmptyBefore(r, |Sections(r)|) && r.output.text != []
    ensures OneTrim(r, excess, r.(output := ShorterOutput(r.output, excess)))
  {
    hide LastGone, OutputCut, ShorterOutput, Sections, QueryRowsGone;
    FixedEmpty(r, |Sections(r)|);
    forall i | 0 <= i < |r.queries|
      ensures r.queries[i].rows.items == []
    {
      QuerySection(r, i);
    }
    ShorterOutputKeeps(r.output, excess);
  }

  datatype FitResult = Fits(report: Report) | Invalid | TooLarge(size: int, limit: int)

  /** The normal form with everything taken out that trimming can take out. */
  predicate Emptied(r: Report, e: Report) {
    TrimmedFrom(r, e) && NothingLeft(e)
  }

  /** The report after `n` trims, each by what the one before was too large. */
  ghost function Trims(r: Report, size: Report -> nat, n: nat): Report {
    if n == 0 then r else
    var t := Trims(r, size, n - 1);
    if NothingLeft(t) then t else TrimmedOnce(t, size(t) - r.limits.reportBytes)
  }

  /** `t` is what `n` trims leave, and after fewer the report was still too large. */
  ghost predicate TrimmedTo(r: Report, size: Report -> nat, n: nat, t: Report) {
    t == Trims(r, size, n) && forall k: nat :: k < n ==> size(Trims(r, size, k)) > r.limits.reportBytes
  }

  /** Every trim on the way takes what one trim takes, by what the report was too large just then. */
  ghost predicate StepByStep(r: Report, size: Report -> nat, n: nat) {
    forall k: nat :: k < n ==> OneTrim(Trims(r, size, k), size(Trims(r, size, k)) - r.limits.reportBytes, Trims(r, size, k + 1))
  }

  lemma StepsNext(r: Report, size: Report -> nat, n: nat)
    requires StepByStep(r, size, n) && !NothingLeft(Trims(r, size, n))
    ensures StepByStep(r, size, n + 1)
  {
    hide OneTrim, NothingLeft, TrimmedOnce;
    TrimIsOne(Trims(r, size, n), size(Trims(r, size, n)) - r.limits.reportBytes);
  }

  lemma TrimNext(r: Report, size: Report -> nat, n: nat, t: Report)
    requires TrimmedTo(r, size, n, t) && !NothingLeft(t) && size(t) > r.limits.reportBytes
    ensures TrimmedTo(r, size, n + 1, TrimmedOnce(t, size(t) - r.limits.reportBytes))
  {
    hide TrimmedOnce, NothingLeft;
  }

  lemma TrimmedAt(r: Report, size: Report -> nat, n: nat, t: Report)
    requires TrimmedTo(r, size, n, t)
    ensures t == Trims(r, size, n)
  {
  }

  /** If the report fits before any trim, none is made. */
  lemma FitsAtOnce(r: Report, size: Report -> nat, n: nat, t: Report)
    requires TrimmedTo(r, size, n, t)
    ensures size(r) <= r.limits.reportBytes ==> t == r
  {
    assert Trims(r, size, 0) == r;
  }

  /**
   Normalizes, measures and trims until the report fits or nothing is left to trim.  The
   encoded size may be any function of the report.  No trim is made that the limit does not ask for.
   */
  method FitRunReport(report: Report, size: Report -> nat) returns (r: FitResult)
    ensures r.Invalid? <==> !ReportOk(report)
    ensures r.Fits? ==> Normal(r.report) && size(r.report) <= report.limits.reportBytes && TrimmedFrom(Sorted(report), r.report)
    ensures r.Fits? ==> exists n :: TrimmedTo(Sorted(report), size, n, r.report) && StepByStep(Sorted(report), size, n)
    ensures r.TooLarge? ==> exists e, n :: Emptied(Sorted(report), e) && TrimmedTo(Sorted(report), size, n, e) && Normal(e)
                                           && StepByStep(Sorted(report), size, n) && size(e) == r.size > report.limits.reportBytes == r.limit
    ensures ReportOk(report) && size(Sorted(report)) <= report.limits.reportBytes ==> r == Fits(Sorted(report))
  {
    hide UnderTrim, Normal, ReportOk, TrimmedFrom, Sorted, Weight, NothingLeft, TrimmedOnce, TrimmedTo, StepByStep;
    var current := report;
    ghost var n := 0;
    if ReportOk(report) { Started(report, size); }
    while true
      invariant if ReportOk(report) then UnderTrim(report, size, n, current) else current == report
      decreases Weight(Sorted(current))
    {
      if ReportOk(report) { Underway(report, size, n, current); }
      var normalized := Normalize(current);
      if normalized.None? { return Invalid; }
      var bytes := size(normalized.value);
      if bytes <= normalized.value.limits.reportBytes { return Fits(normalized.value); }
      var excess := bytes - normalized.value.limits.reportBytes;
      var trimmed: bool;
      current, trimmed := TrimRunReport(normalized.value, excess);
      if !trimmed {
        assert Emptied(Sorted(report), normalized.value) && TrimmedTo(Sorted(report), size, n, normalized.value) && StepByStep(Sorted(report), size, n);
        return TooLarge(bytes, normalized.value.limits.reportBytes);
      }
      OneMoreTrim(report, size, n, normalized.value, current);
      n := n + 1;
    }
  }

  /** The normal form of the current report comes from that of the first by `n` trims, each of them needed. */
  ghost predicate UnderTrim(report: Report, size: Report -> nat, n: nat, current: Report) {
    && ReportOk(current) && Normal(Sorted(current)) && TrimmedFrom(Sorted(report), Sorted(current))
    && TrimmedTo(Sorted(report), size, n, Sorted(current)) && StepByStep(Sorted(report), size, n)
  }

  lemma Started(report: Report, size: Report -> nat)
    requires ReportOk(report)
    ensures UnderTrim(report, size, 0, report)
  {
    hide Sorted, TrimmedFrom, Normal, ReportOk;
    NormalizeNormal(report);
    TrimmedFromSelf(Sorted(report));
  }

  lemma Underway(report: Report, size: Report -> nat, n: nat, current: Report)
    requires UnderTrim(report, size, n, current)
    ensures ReportOk(current) && Normal(Sorted(current)) && TrimmedFrom(Sorted(report), Sorted(current))
    ensures TrimmedTo(Sorted(report), size, n, Sorted(current)) && StepByStep(Sorted(report), size, n) && Sorted(current).limits == report.limits
    ensures size(Sorted(report)) <= report.limits.reportBytes ==> Sorted(current) == Sorted(report)
  {
    hide ReportOk, Normal, TrimmedTo, StepByStep;
    FitsAtOnce(Sorted(report), size, n, Sorted(current));
  }

  lemma OneMoreTrim(report: Report, size: Report -> nat, n: nat, t: Report, next: Report)
    requires Normal(t) && TrimmedFrom(Sorted(report), t) && TrimmedTo(Sorted(report), size, n, t) && StepByStep(Sorted(report), size, n) && !NothingLeft(t)
    requires size(t) > t.limits.reportBytes == report.limits.reportBytes && next == TrimmedOnce(t, size(t) - t.limits.reportBytes)
    ensures UnderTrim(report, size, n + 1, next) && Weight(Sorted(next)) < Weight(t)
  {
    hide Normal, ReportOk, TrimmedFrom, Weight, NothingLeft, TrimmedOnce, TrimmedTo, StepByStep, SortSection, SortQuery;
    var excess := size(t) - t.limits.reportBytes;
    TrimKeepsNormal(t, excess);
    TrimLightens(t, excess);
    TrimStays(Sorted(report), t, excess);
    TrimNext(Sorted(report), size, n, t);
    TrimmedAt(Sorted(report), size, n, t);
    StepsNext(Sorted(report), size, n);
    NormalSorted(next);
  }

  lemma NormalSorted(r: Report)
    requires Normal(r)
    ensures ReportOk(r) && Sorted(r) == r
  {
    NormalFixed(r);
  }
}
