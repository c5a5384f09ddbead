# Verified model of the rules engine's core

The repository is a forward- and backward-chaining rules engine on a Rete network. This project models
four of its parts in Dafny and proves what they are for:

- **Branch planner** (`BranchSyntax`, `BranchSemantics`, `BranchPlanner`, `BranchOrder`, `BranchMeaning`, `BranchReading`,
  `BranchExact`, `BranchScan`, `BranchLimits`, `BranchDeferral`, `BranchChoice`, `BranchNames`,
  `BranchValues`).
  The conditions of one branch are reordered greedily between barriers, payloads are rotated past negations, and every
  join is moved to whichever side now comes later. Branches have a meaning of their own, the set of complete matches over
  a set of facts, and the main theorem says when planning does not change it, and what it changes otherwise.
- **Demand support** (`ProbeTable`, `SupportIndexes`, `SupportSpec`, `SupportCascade`, `SupportRequest`, `SupportStore`,
  `SupportRuns`, `SupportOwners`, `SupportMeaning`). Records say which facts a demanded fact rests on. They are found
  through four cross-indexes kept in hand-written tables, and a worklist removes, with a record or a fact, all that no
  longer has support. The class `DemandStore` is proved against a state of plain maps; on that state the indexes are shown
  to be exact, and a removal to take out the least set closed under losing support, whatever the order of processing.
- **Agenda** (`AgendaOrder`, `AgendaHeap`, `AgendaQueues`, `Agenda`, `AgendaDelta`, `AgendaFiring`, `AgendaRefraction`,
  `AgendaBirths`, `BirthRanks`, `AgendaHoles`, `AgendaTidy`, `AgendaRuns`, `AgendaView`, `AgendaReconcile`,
  `AgendaCandidates`, `AgendaInitial`, `AgendaCompaction`, `AgendaLimits`, `AgendaRearmed`, `AgendaChoice`, `AgendaMade`,
  `BirthMeaning`, `CandidateOrders`, `TokenTuple`).
  One binary heap for each module with back-pointers, a lookup index, support counts, birth ranks, compaction, and a preview.
  The class `Agenda` is proved against two independent descriptions: what fires next, as a function of the *set* of
  waiting activations, and what a batch of token changes does to each activation. Over whole runs of batches and firings
  an activation fires again only after its support fell to zero and rose, with one token delivered to any number of
  rules; the class `Run` carries this to the heaps.
- **Value codec and report fitter** (`ValueJson`, `ValueText`, `ValueCanon`, `ValueShapes`, `ReportFit`, `Utf8`,
  `Utf8Scalars`). Kind-tagged JSON with a strict reader, and a loop that trims a report until it fits while every rule of
  the report holds. Valid text is UTF-8 as in section 4 of RFC 3629.

`Sequences`, `Sorting` and `Texts` hold what several parts share: repetitions and permutations of sequences, stable sorting by
any comparison, and dictionary order. Each `.dfy` file holds the module of its name; `BranchSyntax.dfy` also holds
`Options`. `dafny verify dfyconfig.toml` checks everything.

What is specified by a function is also said without it. The orders, scores, kinds, numerals, cuts and choices that methods
and specifications share are each characterized over plain fields: `BranchDeferral`, `BranchChoice` and `BranchNames` for the
planner, `BranchValues` for the meaning of branches, `SupportOwners` and `SupportMeaning` for the store, `AgendaChoice`,
`AgendaMade`, `BirthMeaning` and `CandidateOrders` for the agenda, `ValueCanon` and `ValueShapes` for the codec.

What a caller must provide is stated where it is used. A branch is *well scoped* (`BranchMeaning.WellScoped`) when
matches and their joins name only earlier conditions, names are unique, join operators can be inverted, and list elements
are constants. An agenda needs one declaration order for each rule revision; this follows from taking it from the rule.

Some properties one would expect do not hold. The code is modelled as it is, and the project says when they do hold:

- Planning does not always keep the matches. A join moved off the match it was written on is read as a join on a field of
  the other side, which is wrong if that side captured a value (`BranchLimits.SegmentJoinNotPreserved`), or if the match is
  hidden. With a hidden match swapped the compiler refuses the planned branch, although it accepts the authored one;
  otherwise the planned branch has the matches of the branch as the plan reads it (`BranchReading.AsRead`), and
  `BranchExact.PlanningExact` says when that is no change.
- The preference between candidates is not an order once volatile matches are among them
  (`BranchLimits.VolatileScanNotBest`). The scan selects a candidate that no other beats if and only if there is one,
  and that is so unless a volatile match, a stable feeder and a bystander stand in one particular way
  (`BranchScan.ScanExact`).
- Removal by request may take out a record for other slot values. It is exact if and only if the request is not misled
  (`SupportRequest.RequestExact`, `SupportRequest.ShortcutTakesAnother`).
- In breadth, a batch can leave a module's heap out of order. It does not if at most one activation of that module is
  born, or if those born come in the order of their ranks (`Agenda.Agenda.ApplyTokenDeltas`, with `AgendaTidy.QueueSafe`
  as the condition). Two new activations out of turn do, in every agenda where three older peers wait, and such an agenda
  exists for any two tokens (`AgendaLimits.OutOfTurnLosesOrder`, `AgendaLimits.OutOfTurnNotSafe`). So can two in turn if
  the later match is re-armed (`AgendaRearmed.RearmedNotSafe`). In depth, on the
  single-delta path, in `reconcile`, with candidate deltas and while a new agenda is filled order is never lost.

## Model

| member | source | states |
|---|---|---|
| BranchMeaning.PlanningPreservesMatches | internal/engine/branch_planning.go:140-184 | For every well-scoped branch, fact set and profile, joins on captured values and joins of hidden matches included, the complete matches of the planned branch (reordered, payloads deferred, joins re-attached and possibly inverted) are exactly those of the authored one, provided the plan swaps the sides of no join on a captured value and of none of a hidden positive match |
| BranchExact.PlanningExact | internal/engine/branch_planning.go:140-184 | For every well-scoped branch: it compiles as authored, and as planned if and only if the plan swaps no join of a hidden positive match; then it matches exactly what the branch does as it is read, and otherwise it would match nothing; so planning preserves the matches if and only if it swaps no fragile join, or the authored branch has no match in the first case and the branch as read has none in the second; which branch a swap empties is said for each kind |
| BranchReading.PlannedAsRead | internal/engine/branch_planning.go:140-184 | The planned branch, in any sound order that swaps no hidden match, has exactly the matches of the authored branch whose swapped joins are written on the facts they are read from |
| BranchReading.ReadOwner | internal/engine/branch_planning.go:153-182 | A join is read differently only if its sides were swapped, and then it names the fact of the earlier visible match that captured the value |
| BranchReading.ReadReattached | internal/engine/branch_planning.go:140-184 | The branch as read has the same plan as the authored one, join by join |
| BranchReading.ReadSound | internal/engine/branch_planning.go:140-184 | The branch as read is well scoped, and the same order is sound for it |
| BranchMeaning.FactJoinsMove | internal/engine/branch_planning.go:153-182 | A branch whose joins are those of visible matches on facts and those of negations is planned exactly in any order |
| BranchExact.CapturedNeverMatches | internal/engine/branch_planning.go:153-182 | A branch in which a visible match is joined to anything but a fact has no match as authored, so that a swap can only add matches |
| BranchExact.SwappedHiddenNeverMatches | internal/engine/branch_planning.go:153-182 | Once a hidden positive match has been swapped with what it was joined to, the planned branch, read as a branch, has no match; the compiler refuses it before |
| BranchExact.PlannedCompiles | internal/engine/join.go:262-272 | The joins of a plan name what earlier conditions bind, as the compiler demands, if and only if the plan swaps no join of a hidden positive match |
| BranchExact.SwappedHiddenRefused | internal/engine/join.go:262-272 | A plan that swaps one is refused: the moved join names a match that binds nothing |
| BranchMeaning.SoundOrderPreservesMatches | internal/engine/branch_planning.go:153-182 | The same for any order that keeps pinned conditions, hard dependencies and negations in place: nothing depends on which sound order is picked |
| BranchMeaning.PlanBranch | internal/engine/branch_planning.go:140-184 | The planner as a method: its result is the specified plan, and keeps the matches of every well-scoped branch whose fragile joins keep their sides |
| BranchMeaning.AuthoredOrderKept | internal/engine/branch_planning.go:140-152 | A branch planned without reordering comes back as written |
| BranchMeaning.JoinAttached | internal/engine/branch_planning.go:153-182 | Every authored join lands on exactly one side and says of any match what it said as authored; a negation keeps its own joins |
| BranchMeaning.AttachedFrom | internal/engine/branch_planning.go:153-182 | Conversely, every re-attached join comes from an authored one, says the same, and refers to a condition placed earlier |
| BranchMeaning.JoinSides | internal/engine/branch_planning.go:153-158 | The two sides of an authored join have distinct places in the plan, and its operator can be inverted |
| BranchMeaning.HiddenKeepsJoins | internal/engine/branch_planning.go:317-344 | After extraction and re-attachment a negation, or any other hidden match, holds exactly its authored joins |
| BranchMeaning.StrippedAuthored | internal/engine/branch_planning.go:70-94 | The stripped nodes of a well-scoped branch number the conditions in order and meet what the planner relies on |
| BranchMeaning.PlanIndex | internal/engine/branch_planning.go:143-152 | A name addresses one position of the plan only |
| BranchLimits.InversionExact | internal/engine/query.go:747-770 | About one join alone, over all environments: reading it on the owner of the name it refers to, with the operator inverted, says the same if and only if the name is the owner's own fact rather than a value it captured |
| BranchLimits.SegmentJoinNotPreserved | internal/engine/branch_planning.go:153-182 | A well-scoped branch that joins on a captured list segment has no match as authored and one as planned: the instance of a swap |
| BranchLimits.PrefersTransitive | internal/engine/branch_planning.go:488-569 | Among nodes alike in volatility, the preference between candidates is transitive |
| BranchScan.ScanExact | internal/engine/branch_planning.go:488-569 | The scan settles on a candidate that no other beats if and only if some candidate is unbeaten, and that holds if and only if not: among the strongest the first by selectivity, fanout and order is volatile, some candidate is a stable feeder, and one that is neither comes before the first of those |
| BranchScan.SelectionExact | internal/engine/branch_planning.go:488-569 | The same of the node selected from a segment |
| BranchScan.ScanFindsUnbeaten | internal/engine/branch_planning.go:518-569 | A candidate that no other beats is found wherever it stands |
| BranchScan.RoundBeatsAll | internal/engine/branch_planning.go:521-567 | In that constellation every candidate is beaten |
| BranchScan.BeatsCases | internal/engine/branch_planning.go:521-567 | What it takes to beat a candidate: strength first; then a stable feeder beats a volatile match; then selectivity, fanout and order |
| BranchScan.AlikeUnbeaten | internal/engine/branch_planning.go:488-569 | Candidates that agree on volatility never go round |
| BranchLimits.VolatileScanNotBest | internal/engine/branch_planning.go:488-569 | With a volatile candidate the preference can go round in a circle, and the scan settles on a node that another beats |
| BranchOrder.PlannedOrderSound | internal/engine/branch_planning.go:346-363 | The planned order is a permutation in which hard dependencies come first, immovable nodes keep their order, and a movable node passes only negations that do not use its names |
| BranchOrder.SegmentOrderSound | internal/engine/branch_planning.go:462-486 | Greedy selection permutes a scoped segment into an order that is scoped again |
| BranchOrder.SelectedIsScoped | internal/engine/branch_planning.go:488-513 | The selected node has all its hard dependencies defined |
| BranchOrder.DeferredSound | internal/engine/branch_planning.go:365-390 | Deferring payloads past negations keeps the order sound |
| BranchOrder.RotateSound | internal/engine/branch_planning.go:377-387 | One rotation of payloads past a run of negations keeps the order sound, in particular every name a negation reads stays defined before it |
| BranchPlanner.PlannedNodes | internal/engine/branch_planning.go:346-363 | Segments are flushed at every barrier, then payloads deferred: the specified order, which `BranchDeferral.PlannedDeferralExact` describes |
| BranchPlanner.PlanSegment | internal/engine/branch_planning.go:462-486 | Repeated selection yields the specified segment order |
| BranchPlanner.SelectNext | internal/engine/branch_planning.go:488-569 | The scan over the candidates selects the specified position |
| BranchPlanner.ReadyCandidates | internal/engine/branch_planning.go:489-516 | The candidates are the ready nodes, narrowed by the profile when it covers all of them |
| BranchPlanner.ProfileNarrowed | internal/engine/branch_planning.go:499-516 | The profile decides only if it knows every ready node, and then keeps those whose joins are all defined, if any |
| BranchPlanner.JoinStrengthToDefined | internal/engine/branch_planning.go:615-624 | The strength is the sum over the names the node defines, in any order |
| BranchPlanner.BindingStrengthToDefined | internal/engine/branch_planning.go:626-649 | The strength of one name counts its connections to what is defined, equalities twice |
| BranchChoice.StrengthMeaning | internal/engine/branch_planning.go:615-649 | The strength is two for each equality and one for each other join that connects a name of the node to a defined one, and zero at the start |
| BranchChoice.ScoreMeaning | internal/engine/branch_planning.go:660-679 | The score counts 100 for an equality, 25 for any other constraint and for a pattern, 10 for a target, and 10 the other way for a predicate |
| BranchChoice.ReadyMeaning | internal/engine/branch_planning.go:596-613 | A node is ready if each of its hard dependencies is defined or is defined by nothing still to come |
| BranchChoice.FeedsMeaning | internal/engine/branch_planning.go:571-581 | A node feeds the rest if another node depends on a name it defines |
| BranchChoice.FanoutMeaning | internal/engine/branch_planning.go:30-46 | The fanout is the measured one of the node's name, if it is not negative |
| BranchChoice.CandidatesMeaning | internal/engine/branch_planning.go:488-530 | The candidates are the ready nodes; with every one of them measured, and some with all joins to defined names, only the latter |
| BranchChoice.ImmovableStays | internal/engine/branch_planning.go:346-363 | Tests, aggregates, quantifiers and the query trigger keep their places, with the same conditions before them |
| BranchPlanner.DeferIndependentPayloads | internal/engine/branch_planning.go:365-390 | The in-place rotations yield the specified order, which `BranchDeferral.DeferralExact` describes |
| BranchDeferral.DeferralExact | internal/engine/branch_planning.go:365-390 | Over node fields alone: a node before the first run of negations ends up behind all of them if it and everything between it and them is a movable visible match with names, no query trigger, on which no other node depends, after a positive visible match with names, and it and the negations depend only on what is defined before; otherwise it stays ahead of all of them |
| BranchDeferral.PlannedDeferralExact | internal/engine/branch_planning.go:346-390 | The same of the plan, for each node of the segment before the first run of negations, wherever greedy selection puts it |
| BranchDeferral.PlannedAlone | internal/engine/branch_planning.go:346-390 | A payload alone in its segment is planned behind the negations if and only if it may wait |
| BranchDeferral.PayloadDeferred | internal/engine/branch_planning.go:365-390 | The instance: a match on t, a plain match on u and a negation joined to the first are planned with the plain match last |
| BranchPlanner.NegationEnd | internal/engine/branch_planning.go:372-375 | Exactly the run of negations that starts here |
| BranchPlanner.PayloadStart | internal/engine/branch_planning.go:377-380 | The longest run of payloads before the negations each of which may cross them; who may is `BranchDeferral.MayWait` |
| BranchPlanner.BindingIndexes | internal/engine/branch_planning.go:143-152 | The index map finds, for each name, the last node addressed by it |
| BranchPlanner.NormalizedConditions | internal/engine/branch_planning.go:140-184 | The loop over the joins yields the specified re-attachment |
| BranchPlanner.ExtractJoins | internal/engine/branch_planning.go:317-344 | Exactly the joins with names on both sides are taken out, and the condition loses all of them |
| BranchPlanner.NewReorderedIR | internal/engine/branch_planning.go:85-94 | Every condition becomes a stripped node in order, and all extracted joins are collected in order |
| BranchSemantics.MatchesAsConjunction | internal/engine/branch_planning.go:119-138 | Matching left to right yields exactly the environments that every condition fits given the names before it |
| BranchSemantics.ExtensionKeys | internal/engine/branch_planning.go:718-743 | A condition binds exactly the names it is said to define |
| BranchSemantics.AcceptsDependsOnNames | internal/engine/branch_planning.go:766-788 | Whether a match accepts a fact depends only on the names its hard dependencies and joins list |
| BranchSemantics.EvalLocal | internal/engine/branch_planning.go:916-960 | The value of an expression depends only on the names the collector reports for it |
| BranchNames.MatchNames | internal/engine/branch_planning.go:718-790 | A match needs the names its computed constraints and predicates mention; it depends, besides, on those of its joins and patterns; and it defines its own and those of its segments if it is visible |
| BranchNames.TestNames | internal/engine/branch_planning.go:718-790 | A test needs all the names it mentions and defines none |
| BranchNames.AggregateNodeNames | internal/engine/branch_planning.go:718-790 | An aggregate needs what its inputs depend on and its folds mention, and defines its results |
| BranchNames.QuantifierNames | internal/engine/branch_planning.go:718-790 | A quantifier needs what the matches of its domain, and of the requirement if it is universal, depend on, except what the domain defines |
| BranchValues.JoinOnNumbers | internal/engine/join.go:95-117 | Numbers join by their order, under each operator |
| BranchValues.JoinOnOthers | internal/engine/join.go:95-117 | Other values join by equality within their kind and by nothing else; a missing value joins nothing |
| BranchValues.CompareTexts | internal/engine/expression.go:1359-1374 | Texts compare in dictionary order |
| BranchValues.CompareNumbers | internal/engine/expression.go:1359-1374 | Numbers compare as they join |
| BranchValues.FixedPattern | internal/engine/list_pattern.go:246-307 | A pattern of fixed length fits a list item by item |
| BranchValues.VariablePattern | internal/engine/list_pattern.go:246-319 | A pattern with one element of variable length fits exactly the lists that split into a beginning, a middle and an end, the outer parts item by item, and captures the middle |
| BranchValues.ConnectiveMeaning | internal/engine/expression.go:1382-1428 | A conjunction is true if all operands are, and false if one is and all before it are true; a disjunction the other way round; otherwise neither has a value |
| BranchValues.VisibleMeaning | internal/engine/branch_planning.go:119-138 | A visible match binds its name to each fact it accepts, and to no other |
| BranchValues.HiddenMeaning | internal/engine/branch_planning.go:119-138 | A negation lets the bindings through exactly if no fact is accepted, another hidden match exactly if some fact is, and neither binds anything |
| ProbeTable.Table.constructor | internal/engine/backchain_demand_support_table.go:15-20 | A new table is empty and may have no slots at all |
| ProbeTable.Table.Find | internal/engine/backchain_demand_support_table.go:95-108 | Probing ends, and finds exactly the keys that are stored |
| ProbeTable.Table.FindInsert | internal/engine/backchain_demand_support_table.go:110-133 | Probing ends at the key, or else at a free slot that later probes for the key will reach |
| ProbeTable.Table.Get | internal/engine/backchain_demand_support_table.go:37-46 | Looks the key up in the map the table stands for |
| ProbeTable.Table.Set | internal/engine/backchain_demand_support_table.go:48-66 | Updates the map the table stands for, growing exactly when three quarters would be used, to twice the slots and at least eight; growth on the way to an insertion never nests |
| ProbeTable.Table.Fill | internal/engine/backchain_demand_support_table.go:48-66 | Filling a slot on the key's path adds the pair and keeps the touched list exact |
| ProbeTable.Table.Delete | internal/engine/backchain_demand_support_table.go:68-78 | Leaves a tombstone, and removes exactly that key from the map |
| ProbeTable.Table.Clear | internal/engine/backchain_demand_support_table.go:80-93 | Emptying the touched slots empties the table |
| ProbeTable.Table.WipeTouched | internal/engine/backchain_demand_support_table.go:80-93 | The touched slots are all that are not empty |
| ProbeTable.Table.Reserve | internal/engine/backchain_demand_support_table.go:22-31 | Makes room and keeps the map |
| ProbeTable.Table.Rehash | internal/engine/backchain_demand_support_table.go:135-150 | Rebuilding keeps the map, and leaves room so that no insertion grows the table again |
| ProbeTable.Table.Refill | internal/engine/backchain_demand_support_table.go:135-150 | Reinserting the full slots restores the map without growing |
| ProbeTable.Table.IsEmpty | internal/engine/backchain_demand_support_table.go:33-35 | Tells whether the map is empty |
| ProbeTable.PowerOfTwoLeast | internal/engine/backchain_demand_support_table.go:306-315 | The capacity is the least power of two that is at least eight and at least the value |
| ProbeTable.PowerOfTwoMethod | internal/engine/backchain_demand_support_table.go:306-315 | The doubling loop computes it |
| ProbeTable.SomeUntouched | internal/engine/backchain_demand_support_table.go:95-108 | Fewer touched slots than slots leaves an empty one, which is why probing ends |
| ProbeTable.PathReaches | internal/engine/backchain_demand_support_table.go:95-108 | A key whose path is filled is met before any empty slot |
| ProbeTable.EmptyEnds | internal/engine/backchain_demand_support_table.go:95-108 | An empty slot on a key's path means that the key is not stored |
| ProbeTable.DeleteAt | internal/engine/backchain_demand_support_table.go:68-78 | A tombstone keeps every other key's path |
| SupportIndexes.BucketAdd | internal/engine/backchain_demand_support.go:1194-1207 | Adds the id at the end of the list the bucket stands for, unless it is zero or listed |
| SupportIndexes.BucketRemove | internal/engine/backchain_demand_support.go:1209-1233 | Removes the id wherever it sits, keeping the order of the others through every promotion |
| SupportIndexes.PromoteOverflow | internal/engine/backchain_demand_support.go:1235-1243 | Moving the head of the overflow into the second slot changes no contents |
| SupportIndexes.BucketObservers | internal/engine/backchain_demand_support.go:1173-1192 | Emptiness, membership and the single id agree with the list |
| SupportIndexes.AddIdIsSetInsert | internal/engine/backchain_demand_support.go:1194-1207 | Adding keeps the list free of repetitions and of zero, and adds one element |
| SupportIndexes.RemoveIdIsSetRemove | internal/engine/backchain_demand_support.go:1209-1233 | Removing keeps the list free of repetitions and takes out one element |
| SupportIndexes.SlotIndex.Get | internal/engine/backchain_demand_support.go:850-865 | Looks the key up in the map the index stands for |
| SupportIndexes.SlotIndex.Set | internal/engine/backchain_demand_support.go:867-893 | Updates the map through all placements between first, second and overflow |
| SupportIndexes.SlotIndex.Delete | internal/engine/backchain_demand_support.go:895-916 | Removes exactly the key, with promotion |
| SupportIndexes.SlotIndex.DeleteIfEqual | internal/engine/backchain_demand_support.go:986-1009 | Removes the key only while it leads to the given id |
| SupportIndexes.SlotIndex.PromoteOverflow | internal/engine/backchain_demand_support.go:918-928 | Promotion of an arbitrary overflow pair changes no contents |
| SupportIndexes.SlotIndex.Clear | internal/engine/backchain_demand_support.go:930-939 | Empties the index |
| SupportSpec.AddedConsistent | internal/engine/backchain_demand_support.go:126-216 | Every addition keeps all the indexes exact, and answers with an id that stands for the request or with zero exactly when the request cannot be stored |
| SupportSpec.AddedRecords | internal/engine/backchain_demand_support.go:126-216 | A support that is stored already changes nothing; otherwise exactly one record under an id not live before is added |
| SupportSpec.AddedIdempotent | internal/engine/backchain_demand_support.go:126-216 | Asking again for a stored support answers with the same id and changes nothing |
| SupportOwners.OwnerAdded | internal/engine/backchain_demand_support.go:126-185 | A request whose owner has a node, a plan counted from zero and a token is answered with the record of that owner, to which the owner index leads |
| SupportOwners.OwnersApart | internal/engine/backchain_demand_support.go:163-185 | Two different such owners never share a record |
| SupportOwners.UnownedAdded | internal/engine/backchain_demand_support.go:728-730 | Without a node, a plan or a token no record of any owner is stored, and the request is refused only for want of a demand, facts or a template |
| SupportOwners.UnownedStored | internal/engine/backchain_demand_support.go:126-216 | A request without an owner is answered with a record of its template, slots and facts, under an exact key if it has one fact and at most four slots |
| SupportOwners.UnownedApart | internal/engine/backchain_demand_support.go:126-216 | Two requests without owners have one answer if and only if they agree in template, slots and facts, whatever they hash to |
| SupportOwners.OwnersHold | internal/engine/backchain_demand_support.go:163-185 | In a store whose records are as requests make them every owner has a node, a plan counted from zero and a token |
| SupportOwners.OwnerSeeds | internal/engine/backchain_demand_support.go:251-263 | The removal for an owner starts from exactly the records of that owner |
| SupportOwners.OwnerGone | internal/engine/backchain_demand_support.go:251-263 | After it none is left, in a cascade or alone |
| SupportSpec.StandsUnique | internal/engine/backchain_demand_support.go:546-559 | At most one live record stands for a request, even when keys collide |
| SupportSpec.RemovedConsistent | internal/engine/backchain_demand_support.go:408-432 | Removing a record keeps all the indexes exact and removes no other record |
| SupportSpec.AddedThenRemoved | internal/engine/backchain_demand_support.go:408-432 | A record put in and taken out again leaves every index with what it held |
| SupportSpec.ConsistentUnique | internal/engine/backchain_demand_support.go:504-522 | The records determine every index, up to the order inside the lists |
| SupportSpec.AllocatedConsistent | internal/engine/session_backchain_store.go:54-66 | The next id is the one freed last, or else a new one; it is positive and neither live nor free, and reserving it keeps the store consistent |
| SupportSpec.InsertConsistent | internal/engine/backchain_demand_support.go:145-160 | A new record listed under its key, inline key or owner, its facts and its demand keeps all the indexes exact |
| SupportSpec.NoneExisting | internal/engine/backchain_demand_support.go:546-559 | Only a support stored nowhere is reported missing |
| SupportSpec.SomeExisting | internal/engine/backchain_demand_support.go:546-559 | What the indexes report stands for the request |
| SupportSpec.FindKeyedFound | internal/engine/backchain_demand_support.go:546-559 | The scan of a bucket compares keys, slots and facts in full |
| SupportCascade.CascadeUnique | internal/engine/backchain_demand_support.go:352-387 | The least closed pair of removed records and removed facts is unique: every processing order ends in the same records and facts |
| SupportMeaning.CascadeExact | internal/engine/backchain_demand_support.go:352-502 | After a cascade a record is gone if and only if it was named at the start or one of its facts is gone, and a fact if and only if it was demanded and all that demanded it is gone |
| SupportMeaning.AffectedMeaning | internal/engine/backchain_demand_support.go:352-377 | A fact affects the records that name it, in the given version if there is one |
| SupportCascade.CascadeCompose | internal/engine/backchain_demand_support.go:408-502 | Two cascades one after the other are one cascade of both starts |
| SupportCascade.UnderwayDone | internal/engine/backchain_demand_support.go:456-486 | A worklist run that has nothing queued has removed exactly the least closed pair |
| SupportCascade.UnderwayRemove | internal/engine/backchain_demand_support.go:408-454 | Removing one forced record inside a run queues its demand exactly when it loses its last support, and keeps the run sound and complete |
| SupportCascade.UnderwayPop | internal/engine/backchain_demand_support.go:469-476 | Taking the next fact leaves only records that rest on it to be removed, all of them forced |
| SupportCascade.UnderwayRemoveAll | internal/engine/backchain_demand_support.go:352-387 | Removing a whole snapshot of forced records keeps the run sound and complete |
| SupportCascade.RemovedAllShrinks | internal/engine/backchain_demand_support.go:469-484 | Each removal queues no more facts than it removes records: why the cascade ends |
| SupportCascade.RemovedDemands | internal/engine/backchain_demand_support.go:434-454 | A demand loses its last support exactly when the record removed was the last on its list |
| SupportRequest.RequestExact | internal/engine/backchain_demand_support.go:218-249 | Removal by request takes out the record the request means if and only if the request is not misled: the shortcut record has the same slot values, or, without one, the request names a template or nothing matches it raw |
| SupportRequest.ReachableExact | internal/engine/backchain_demand_support.go:218-249 | The same in every state a store can reach by additions, removals of records one after another, and clearing |
| SupportMeaning.MeantMeaning | internal/engine/backchain_demand_support.go:218-249 | Over the records: the one a request means is its owner's, if that holds one, or else the one of its template, slots and facts |
| SupportMeaning.MisledMeaning | internal/engine/backchain_demand_support.go:218-249 | Over the records: without an owner's record, a request is misled if and only if the only record on its one fact has its template and as many slots but other ones, or it names no template, leaves every slot open, and a record under an exact key has its facts and as many slots |
| SupportRequest.ReachableFormed | internal/engine/backchain_demand_support.go:111-161 | Every state a store can reach is consistent, and its records have the form in which requests make them |
| SupportRuns.Perform | internal/engine/backchain_demand_support.go:125-377 | Any operation on a settled store, between cascades, does what is said of its state and leaves the store settled: indexes exact, records as requests make them, no cascade running |
| SupportRuns.PerformAll | internal/engine/backchain_demand_support.go:125-377 | Any operations in any order, facts coming and going among them: the store goes through a run of such states and is settled after it |
| SupportRuns.RequestRemoves | internal/engine/backchain_demand_support.go:218-249 | A removal by request on a settled store removes the record the request means and whatever that forces, unless the request is misled |
| SupportRuns.PerformsFormed | internal/engine/backchain_demand_support.go:685-726 | No operation leaves a record that a request would not make |
| SupportRequest.ShortcutTakesAnother | internal/engine/backchain_demand_support.go:301-328 | Support stored for one slot value is taken out by a request for another value of the slot |
| SupportRequest.SlowExact | internal/engine/backchain_demand_support.go:231-248 | Without the shortcut the lookups are exact for a request that names a template |
| SupportRequest.RightSlots | internal/engine/backchain_demand_support.go:301-328 | A shortcut record with the same slot values is the record meant |
| SupportRequest.WrongSlots | internal/engine/backchain_demand_support.go:301-328 | One with other slot values is never the record meant |
| SupportRequest.FindRawFound | internal/engine/backchain_demand_support.go:561-578 | The raw scan finds a record exactly when one matches as stored |
| SupportRequest.AddedFormed | internal/engine/backchain_demand_support.go:685-726 | Records keep the form in which requests make them |
| SupportStore.DemandStore.constructor | internal/engine/session_backchain_store.go:25-27 | A new store stands for the empty state |
| SupportStore.DemandStore.AddSupport | internal/engine/backchain_demand_support.go:126-161 | The state and the id are those specified, and the state stays consistent; an owner with a node, a plan counted from zero and a token gets its own record, and the owner index leads to it |
| SupportStore.DemandStore.AddKeyedSupport | internal/engine/backchain_demand_support.go:136-161 | The same for supports under a hashed key |
| SupportStore.DemandStore.AddOwnerSupport | internal/engine/backchain_demand_support.go:163-185 | The same for supports held by an owner |
| SupportStore.DemandStore.AddInlineSupport | internal/engine/backchain_demand_support.go:187-216 | The same for supports under an inline key |
| SupportStore.DemandStore.NextId | internal/engine/session_backchain_store.go:54-66 | The last freed id, or a new one |
| SupportStore.DemandStore.StoreNew | internal/engine/backchain_demand_support.go:145-160 | A fresh record listed under its facts and its demand |
| SupportStore.DemandStore.RemoveId | internal/engine/backchain_demand_support.go:408-432 | Inside a cascade: the record is removed and its demand queued when it was the last support; otherwise the whole least closed pair goes |
| SupportStore.DemandStore.RemoveOwned | internal/engine/backchain_demand_support.go:265-279 | The same for a record held by an owner, with removal from the owner index only while it leads to this id |
| SupportStore.DemandStore.RemoveOwnedFromDemand | internal/engine/backchain_demand_support.go:281-299 | The one-support case agrees with the general one |
| SupportStore.DemandStore.RemoveFromDemand | internal/engine/backchain_demand_support.go:434-454 | The last support removed wakes the demand |
| SupportStore.DemandStore.RemoveFactAndDependents | internal/engine/backchain_demand_support.go:456-486 | Queues inside a cascade; otherwise runs one to its end, removing exactly the least closed pair |
| SupportStore.DemandStore.RemoveNext | internal/engine/backchain_demand_support.go:469-484 | One turn of the worklist, compaction included, keeps the run and lessens twice the records plus the queue |
| SupportStore.DemandStore.RemoveFactNow | internal/engine/backchain_demand_support.go:488-502 | The fact leaves working memory and every record that rests on it is removed |
| SupportStore.DemandStore.Compact | internal/engine/backchain_demand_support.go:478-483 | Dropping the places already passed changes nothing that is queued |
| SupportStore.DemandStore.Dequeue | internal/engine/backchain_demand_support.go:470-472 | Takes the facts in the order in which they were queued |
| SupportStore.DemandStore.RemoveSupportsForFact | internal/engine/backchain_demand_support.go:352-387 | Removes exactly the records that rest on the fact, or on that version of it, and whatever that forces |
| SupportStore.DemandStore.AffectedIds | internal/engine/backchain_demand_support.go:357-377 | The snapshot holds exactly the records affected |
| SupportStore.SortIds | internal/engine/backchain_demand_support.go:389-399 | A permutation, whatever the comparison does, and in order if the comparison orders the ids |
| SupportStore.DemandStore.RemoveForOwner | internal/engine/backchain_demand_support.go:251-263 | Removes exactly the owner's record and whatever that forces; no record of the owner is left |
| SupportStore.DemandStore.RemoveForRequest | internal/engine/backchain_demand_support.go:218-249 | Removes the record the lookups lead to and whatever that forces |
| SupportStore.DemandStore.TargetOf | internal/engine/backchain_demand_support.go:218-249 | The lookups in their order: owner, shortcut, inline key, raw scan, hashed key |
| SupportStore.DemandStore.SingleForRequest | internal/engine/backchain_demand_support.go:301-328 | The shortcut as it is: template and slot count, not slot values |
| SupportStore.DemandStore.FindByRequest | internal/engine/backchain_demand_support.go:561-578 | The raw scan in list order |
| SupportStore.DemandStore.Retract | internal/engine/backchain_demand_support.go:344-346 | A fact that leaves takes with it exactly what the least closed pair from the records resting on it holds |
| SupportStore.DemandStore.ClearRecord | internal/engine/backchain_demand_support.go:617-627 | Forgets the record and frees its id |
| SupportStore.WithoutRecord | internal/engine/backchain_demand_support.go:617-676 | Only the record of that id is blanked, in the array that holds it |
| SupportStore.DemandStore.UnlistFacts | internal/engine/backchain_demand_support.go:514-522 | The record leaves the list of each of its facts |
| SupportStore.DemandStore.DeleteOwner | internal/engine/backchain_demand_support.go:746-751 | An owner that meanwhile holds another record keeps it |
| SupportStore.DemandStore.Clear | internal/engine/session_backchain_store.go:36-52 | Everything is emptied and ids start over |
| AgendaOrder.LessTransitive | internal/engine/agenda.go:2196-2264 | Both firing orders are transitive, and so is not coming after, when a rule revision has one declaration order |
| AgendaOrder.LessTotal | internal/engine/agenda.go:2196-2264 | Different ordinals are never tied |
| AgendaOrder.LessAsymmetric | internal/engine/agenda.go:2196-2264 | Nothing comes both before and after another |
| AgendaChoice.LessMeaning | internal/engine/agenda.go:2196-2264 | Not to come after is, over the fields: in depth a higher salience, then greater latest and total recency, then declaration, hashes and ordinal; in breadth salience, epoch, rank and ordinal |
| AgendaChoice.NextMeaning | internal/engine/focus.go:304-322 | What fires leads its module over those fields, and modules leave the focus only while nothing waits in them; nothing fires only if nothing waits in any module of the stack |
| AgendaOrder.DeclarationsMustAgree | internal/engine/agenda.go:2196-2231 | With one revision at two declaration orders the depth order has a cycle of three |
| AgendaHeap.RiseStep | internal/engine/agenda.go:441-450 | A swap with the parent moves the only misplaced handle up |
| AgendaHeap.SinkStep | internal/engine/agenda.go:452-469 | A swap with the first child moves the only misplaced handle down |
| AgendaHeap.RiseDone | internal/engine/agenda.go:441-450 | A handle that need rise no further leaves a heap |
| AgendaHeap.SinkDone | internal/engine/agenda.go:452-469 | A handle that need sink no further leaves a heap |
| AgendaHeap.HoleTurns | internal/engine/agenda.go:406-416 | A changed key is repaired by going one way only |
| AgendaHeap.RootFirst | internal/engine/agenda.go:378-385 | Nothing comes before the root of a heap |
| Agenda.Agenda.Swap | internal/engine/agenda.go:471-479 | Back-pointers follow the handles |
| Agenda.Agenda.SiftUp | internal/engine/agenda.go:441-450 | Restores heap order if only that handle may belong higher |
| Agenda.Agenda.SiftDown | internal/engine/agenda.go:452-469 | Restores heap order if only that handle may belong lower |
| Agenda.Agenda.Enqueue | internal/engine/agenda.go:871-879 | Only a waiting activation is queued; heap order, back-pointers and contents are kept, and the place is that of pushing and rising |
| Agenda.Agenda.RemoveAt | internal/engine/agenda.go:418-439 | Exactly that handle leaves; heap order and back-pointers are kept, and the heap left is that of moving the last handle into its place and settling it |
| Agenda.Agenda.Dequeue | internal/engine/agenda.go:881-894 | Exactly that activation leaves its queue, which closes when empty |
| Agenda.Agenda.Fix | internal/engine/agenda.go:406-416 | After one key changed, heap order is restored, and no contents change |
| Agenda.Agenda.Pop | internal/engine/agenda.go:378-385 | The handle taken comes first of its queue, and the rest stays a heap |
| Agenda.Agenda.FireForModule | internal/engine/agenda.go:1752-1775 | Fires the first waiting activation of the module, or finds there is none, and keeps everything batches require; over the fields, nothing that waits in the module comes before what fires |
| Agenda.Agenda.NextQueue | internal/engine/agenda.go:1799-1824 | The queue whose root comes before every waiting activation |
| Agenda.Agenda.FireAny | internal/engine/agenda.go:1729-1750 | Fires the first waiting activation of all, and keeps everything batches require; over the fields, nothing that waits comes before what fires |
| Agenda.Agenda.FireFocused | internal/engine/focus.go:304-322 | What fires, and the focus stack left, are what the firing rule says of the waiting activations as a set, and what `AgendaChoice.Chosen` says of their fields; what fired is consumed and lets go of its token; everything batches require is kept |
| AgendaFiring.FiringSorted | internal/engine/agenda.go:1729-1750 | Draining one queue fires the waiting activations sorted, each once |
| AgendaFiring.SortedUnique | internal/engine/agenda.go:2233-2264 | A set of activations has one sorted order |
| Agenda.Agenda.FindActivation | internal/engine/agenda.go:2655-2702 | The lookup index finds what a scan of the storage finds first |
| AgendaQueues.LookupFinds | internal/engine/agenda.go:2975-2991 | Agreement of the lookup index with a scan of the storage |
| Agenda.Agenda.Store | internal/engine/agenda.go:2790-2833 | Appends under the next ordinal and keeps the index exact |
| Agenda.Agenda.TakeLinked | internal/engine/rete_beta.go:95-113 | A link is used once, and only while storage and rule still agree |
| Agenda.Agenda.Unsupport | internal/engine/agenda.go:1365-1387 | One token less; without any, the activation waits no more |
| Agenda.Agenda.RemoveToken | internal/engine/agenda.go:1347-1387 | A removal does what is specified for it |
| Agenda.Agenda.AddToken | internal/engine/agenda.go:1395-1460 | An addition does what is specified for it |
| Agenda.Agenda.ApplyTokenDeltas | internal/engine/agenda.go:1321-1494 | The general routine does the specified batch; the heap of a module stays in order when at most one activation of the module is born, or its births come in the order of their ranks; the heaps left are exactly those of the specified removals, pushes and repairs, if the births share an epoch |
| Agenda.Agenda.ApplySingleTokenDeltas | internal/engine/agenda.go:1229-1319 | The fast path, with its own removal and addition, does the very batch the general routine is specified by, under both strategies, keeps heap order, and leaves the heaps the general routine is specified to leave |
| AgendaMade.NewMatchMade | internal/engine/agenda.go:1386-1455 | After a batch a match not known before has one activation, with the facts, tuple, recencies, token and proof of its first token and the module, salience and declaration of its rule; it waits, its support is the number of its tokens, and it is born in the token's epoch or the batch's |
| AgendaMade.KnownMatchRaised | internal/engine/agenda.go:1386-1455 | After a batch a known match is as the removals left it, with support raised by the number of its tokens; if it had none it waits again, newly born, on the first token unless it kept one |
| AgendaMade.MatchLowered | internal/engine/agenda.go:1340-1384 | A removal lowers the support of one activation by one and deactivates it with the last; if it waited, it lets go of its token; no other changes |
| Agenda.Agenda.AddSingle | internal/engine/agenda.go:1271-1318 | Its addition ranks at once and links after ranking, and yet does what the general routine specifies for an addition followed by ranking |
| Agenda.Agenda.CreateSingle | internal/engine/agenda.go:1298-1318 | A new activation, ranked before it is linked, and heap order kept |
| Agenda.Agenda.SupportSingle | internal/engine/agenda.go:1280-1297 | A known activation, linked first, and re-armed and ranked if nothing backed it |
| Agenda.Agenda.BirthNow | internal/engine/agenda.go:1309-1316 | Birth and rank given to a queued activation leave a heap in order in order |
| AgendaTidy.AddedTidy | internal/engine/agenda.go:1395-1460 | While additions are under way the heap of each module stays as near to order as its pending births allow: one misplaced handle if there is one birth, a loose heap if the births come in turn |
| AgendaTidy.SingleRankStep | internal/engine/agenda.go:2559-2569 | Ranking and repairing the one birth of a module leaves nothing out of place |
| AgendaTidy.SeveralRankStep | internal/engine/agenda.go:2570-2587 | Ranking and repairing the first of several births of a module leaves the heap loose in the others only |
| AgendaTidy.TidyDone | internal/engine/agenda.go:2559-2628 | With no birth left to rank the heap is in order |
| AgendaHoles.OrderedLoose | internal/engine/agenda.go:366-469 | Heap order, said of parents, is looseness with nothing pending, said of all ancestors |
| AgendaHoles.LoosePushed | internal/engine/agenda.go:366-376 | Pushing one more birth leaves the heap loose, if it leads those pending |
| AgendaHoles.LooseRefitted | internal/engine/agenda.go:406-416 | Repairing the birth that ranks first of those pending puts it in place and disturbs no other |
| Agenda.Agenda.SetRank | internal/engine/agenda.go:2559-2569 | One rank set and one repair: the exact heap that results, and one pending birth less |
| Agenda.Agenda.RankSorted | internal/engine/agenda.go:2578-2587 | The loop over sorted births: all ranks, the exact heaps, and nothing of the group left pending |
| AgendaLimits.InTurnKeepsOrder | internal/engine/agenda.go:1321-1494 | Two new activations of one module and salience that come in the order of their ranks keep any agenda in order where what waits with that salience has been born |
| AgendaLimits.OutOfTurnLosesOrder | internal/engine/agenda.go:1321-1494 | Two that come out of turn take every agenda out of order in which three older peers wait, run through the general routine itself |
| AgendaLimits.OutOfTurnNotSafe | internal/engine/agenda.go:1321-1494 | For any two tokens out of turn there is an agenda, filled by batches of one token, that is in order before their batch and not after |
| AgendaLimits.OutOfTurnMisplaces | internal/engine/agenda.go:1412-1450 | The same of the queues as values: the specified pushes, ranks and repairs leave a later peer above an earlier one |
| AgendaLimits.InTurnSafe | internal/engine/agenda.go:1321-1494 | Coming in the order of ranks is what the general routine asks of a module's births |
| AgendaRearmed.RearmedNotSafe | internal/engine/agenda.go:1321-1494 | For any two tokens in turn there is an agenda, filled by batches of one token, that is in order before their batch and not after, because the later match is re-armed: that later births be new is needed |
| AgendaRearmed.RearmedLosesOrder | internal/engine/agenda.go:1321-1494 | Every ordered agenda loses its order in which seven peers wait, the first older and the second younger than the last birth of the match re-armed |
| AgendaRearmed.RearmedMisplaces | internal/engine/agenda.go:1395-1450 | The same of the queues as values |
| AgendaRearmed.WouldBeInTurn | internal/engine/agenda.go:2559-2587 | Were both matches new, the same tokens would keep order |
| AgendaRearmed.QueueSize | internal/engine/agenda.go:360-376 | A queue has a place for each of those that wait in its module |
| AgendaRefraction.RunsCountSupport | internal/engine/agenda.go:186-207 | In every run of batches and firings, one token delivered to several rules or several times to one rule included, the support count is the number of live deliveries, and an activation is deactivated exactly when it has none |
| AgendaRefraction.SharedTokenEnabled | internal/engine/rete_graph_beta.go:3718-3725 | A batch that delivers one token to two known rules is a batch of a run |
| AgendaRefraction.SharedTokenFallsBack | internal/engine/rete_beta.go:95-113 | After it the link leads to the later rule only, and the withdrawal from the earlier one finds its activation by what the match is known by |
| AgendaRefraction.RemovalFinds | internal/engine/agenda.go:1350-1363 | In every run a removal finds the activation of its match, by a link of the same rule or else by lookup |
| AgendaRefraction.RunsRefract | internal/engine/agenda.go:1321-1494 | In every run, shared tokens included, between two firings of one activation its support fell to zero and rose again |
| AgendaRuns.Run.Kept | internal/engine/agenda.go:1229-1824 | At any time of any run of batches and firings on one agenda: support counts live deliveries, an activation waits exactly when it sits in a heap, and then in one place of one heap, and between two of its firings it lost all support and regained it |
| AgendaRuns.Run.Apply | internal/engine/agenda.go:1321-1494 | A batch on the agenda is a batch of the run |
| AgendaRuns.Run.FireNext | internal/engine/focus.go:304-322 | A firing on the agenda, by heaps and focus, is a firing of the run |
| AgendaRuns.WaitsInOnePlace | internal/engine/agenda.go:360-479 | An activation waits exactly when it sits in a heap, in one place of its own module's heap |
| AgendaRuns.RunAged | internal/engine/agenda.go:1395-1460 | In every run in breadth whatever waits has been born, which is all that births in turn ask of the others |
| AgendaRefraction.StepOk | internal/engine/agenda.go:1321-1494 | Every batch and every firing keeps counts, states, links and the log in order, and the batch is the one the agenda applies |
| AgendaRefraction.RemoveStepOk | internal/engine/agenda.go:1347-1387 | The withdrawal of a live delivery keeps them, whatever its token is linked to |
| AgendaRefraction.AddStepOk | internal/engine/agenda.go:1395-1460 | A delivery, of a new token or of one delivered before, keeps them and logs a rise exactly when nothing backed the match |
| AgendaRefraction.FireStepOk | internal/engine/agenda.go:1729-1775 | A firing keeps them |
| AgendaDelta.RemovedOneOk | internal/engine/agenda.go:1347-1387 | A removal keeps ordinals, one activation for each match, and everything that says which match it is |
| AgendaDelta.AddedOneOk | internal/engine/agenda.go:1395-1460 | So does an addition |
| Agenda.Agenda.AssignCanonicalBirthRanks | internal/engine/agenda.go:2559-2587 | The births of one epoch get their canonical ranks; a heap in order stays in order |
| Agenda.Agenda.AssignCanonicalBirthRanksByEpoch | internal/engine/agenda.go:2589-2628 | The same for births of several epochs, each on its own |
| AgendaBirths.RanksOneToN | internal/engine/agenda.go:2559-2587 | The ranks of one epoch are one to n, one each |
| AgendaBirths.RanksCanonical | internal/engine/agenda.go:2506-2587 | The ranks do not depend on the order of insertion, nor on ordinals or storage, when the records differ before the ordinal |
| AgendaBirths.RankedAll | internal/engine/agenda.go:2559-2587 | Numbering the sorted births is giving each one more than those before it |
| AgendaBirths.RankedGroups | internal/engine/agenda.go:2589-2628 | Ranking epoch by epoch is ranking all at once |
| BirthRanks.RecordOrder | internal/engine/agenda.go:2506-2536 | Birth records are totally ordered when ordinals differ |
| BirthRanks.EntryOrder | internal/engine/agenda.go:2337-2360 | Birth entries are totally ordered |
| BirthRanks.TupleOrder | internal/engine/agenda.go:2506-2536 | Tuples are totally ordered, entry by entry, a prefix first |
| BirthMeaning.EntryMeaning | internal/engine/agenda.go:2337-2360 | Over the fields of two entries: condition, slot, names, fact, version, a value missing before one present, and value, the first difference deciding |
| BirthMeaning.TupleMeaning | internal/engine/agenda.go:2506-2536 | A proper beginning comes first, and otherwise the first entry that differs decides |
| BirthMeaning.RecordMeaning | internal/engine/agenda.go:2506-2536 | Declaration, then tuples, hashes, rule and ordinal |
| BirthMeaning.RanksFollow | internal/engine/agenda.go:2559-2587 | Of two activations born in one epoch the one that comes first over these fields has the lower rank |
| TokenTuple.TupleByMask | internal/engine/agenda.go:3387-3421 | With a 64-bit mask: succeeds exactly when every row resolves and each slot is filled once, with the facts in slot order |
| TokenTuple.TupleByFlags | internal/engine/agenda.go:3423-3449 | The same with an array of flags and a count |
| TokenTuple.TerminalTokenFactTuple | internal/engine/agenda.go:3380-3450 | Both forms meet one specification |
| TokenTuple.TupleOrderIrrelevant | internal/engine/agenda.go:3380-3450 | The outcome depends only on which rows the chain has, not on their order |
| TokenTuple.Ones | internal/engine/agenda.go:3413-3419 | The word of n ones is the only one whose bits are exactly the first n |
| AgendaView.PendingByModule | internal/engine/agenda_view.go:178-203 | Each module is listed with exactly its waiting activations, sorted |
| AgendaView.ActivationsInFocusOrder | internal/engine/agenda_view.go:205-238 | Reading the lists in focus order yields the firing sequence of the waiting activations |
| AgendaView.NextPendingAcrossModules | internal/engine/agenda_view.go:240-255 | The list whose head comes before everything left |
| AgendaView.Preview | internal/engine/agenda_view.go:126-153 | From any agenda in good order the preview is the firing sequence, and nothing is changed |
| AgendaView.FireAll | internal/engine/focus.go:304-322 | Firing until nothing more fires, popping heaps and dropping focus, yields that same firing sequence |
| AgendaReconcile.Reconcile | internal/engine/agenda.go:937-1057 | Afterwards exactly the supplied candidates that were not consumed wait, nothing else about other activations changes, the changes are the difference of the waiting sets, each once, drops first and in breadth by birth; fails exactly on an unknown rule; new activations have the tuple and recencies of the first candidate for their match; in breadth all that begins to wait is born in the next epoch, with canonical ranks, and in depth no birth changes |
| AgendaReconcile.Consider | internal/engine/agenda.go:985-1021 | A candidate's activation waits afterwards unless it was consumed, and no other changes |
| AgendaReconcile.DropUnseen | internal/engine/agenda.go:1026-1037 | Exactly the waiting activations that were not seen are withdrawn |
| AgendaReconcile.Bear | internal/engine/agenda.go:2318-2324 | The birth is set before queuing, so heap order is not at stake |
| AgendaCandidates.ApplyCandidateDeltas | internal/engine/agenda.go:1059-1146 | Exactly the waiting activations named for removal are withdrawn; candidates the agenda knows stay as they are, even withdrawn ones; the others wait, stored in candidate order; the changes are the difference of the waiting sets; heap order is kept; fails exactly on an unknown rule; the new ones have the tuple and recencies of a candidate for their match, and births are as in reconciliation |
| AgendaCandidates.WithdrawAll | internal/engine/agenda.go:1072-1086 | Only what is named and waits is withdrawn |
| AgendaCandidates.CreateAll | internal/engine/agenda.go:1098-1125 | One new activation for each candidate not known yet, all born in one epoch |
| AgendaCandidates.SortCandidates | internal/engine/agenda.go:1565-1572 | The same candidates, by declaration order, facts and rule |
| AgendaCandidates.CandidateOrder | internal/engine/agenda.go:1540-1563 | Among known rules the comparison is an order |
| AgendaCandidates.FactsOrder | internal/engine/agenda.go:1548-1557 | Lists of facts are totally ordered |
| CandidateOrders.FactsMeaning | internal/engine/agenda.go:1548-1557 | A proper beginning comes first, and otherwise the first fact that differs decides, by id and then by version |
| CandidateOrders.NewInOrder | internal/engine/agenda.go:1540-1572 | After an exchange the new activations are stored by declaration, facts and rule, whatever order the candidates came in |
| CandidateOrders.ReportedByBirth | internal/engine/agenda.go:2266-2285 | Of two changes of one kind the one listed first has no later epoch, no higher rank within it, and no later ordinal |
| AgendaInitial.AddInitial | internal/engine/agenda.go:1161-1206 | An initial token does what the general routine specifies for one born in the epoch of the load, and keeps heap order, since the birth is set before queuing |
| AgendaInitial.FinishInitial | internal/engine/agenda.go:1208-1227 | Ranks exactly those born in the load |
| AgendaInitial.Load | internal/engine/agenda.go:1161-1227 | Filling a new agenda does the batch the general routine is specified by, and ends in heap order with any number of births |
| AgendaCompaction.CompactStorage | internal/engine/agenda.go:2909-2948 | Exactly the waiting activations survive, in order and with their ordinals; index, back-pointers and links lead to them, and queues are in order whatever they were |
| AgendaCompaction.MaybeCompact | internal/engine/agenda.go:2893-2903 | Compacts if and only if more than 64 activations are retired, and more than four for each that waits; otherwise nothing changes at all; either way the waiting activations are the same |
| AgendaCompaction.CompactionKeepsFiring | internal/engine/agenda.go:2909-2948 | The firing sequence is the same before and after, for every order and focus stack |
| AgendaCompaction.RetiredForgotten | internal/engine/agenda.go:2925-2939 | A match that does not wait is forgotten: its next token makes a new activation |
| AgendaCompaction.SurvivorsPending | internal/engine/agenda.go:2909-2948 | The survivors are the waiting activations, and all of them wait |
| ValueJson.RoundTrip | scenario/value_json.go:101-189 | Every value that has an encoding is read back from it |
| ValueJson.EncodeDefined | scenario/value_json.go:121-131 | Exactly the values without infinite or undefined floats have an encoding |
| ValueJson.Canonical | scenario/value_json.go:293-419 | Any tree without repeated members that is accepted is the encoding of what it was read as, up to the order of members |
| ValueJson.FormatIntParses | scenario/value_json.go:113-120 | The decimal text of every 64-bit integer parses to it; what the text is says `ValueCanon.IntText` |
| ValueCanon.IntText | scenario/value_json.go:113-120 | A minus exactly before negative numbers, then the characters 0 to 9 without a leading zero, whose positional sum is the number |
| ValueCanon.IntRead | scenario/value_json.go:328-332 | What is read: an optional sign and such characters, in the range of 64 bits, worth their positional sum |
| ValueCanon.MapText | scenario/value_json.go:158-184 | An encoded map lists its keys, each once and in dictionary order, with the encoding of what each leads to |
| ValueCanon.KindText | scenario/value_json.go:101-157 | Every other kind is encoded under its name with its payload, the items of a list in their order |
| ValueShapes.LeafShape | scenario/value_json.go:101-144 | The text of a value without parts, character by character |
| ValueShapes.ListShape | scenario/value_json.go:145-157 | The text of a list: the texts of its items with commas between, in brackets under its kind |
| ValueShapes.MapShape | scenario/value_json.go:158-184 | The text of a map: its keys in dictionary order, each with the text of what it leads to |
| ValueJson.IncreasingUnique | scenario/value_json.go:163-170 | Strictly rising keys are the sorted keys |
| ValueJson.SortedKeysOk | scenario/value_json.go:163-170 | The sorted keys are exactly the keys |
| ValueJson.DecodedEntries | scenario/value_json.go:377-415 | Accepted entries have strictly rising keys, which are the keys of the map |
| ValueJson.AcceptedMembers | scenario/value_json.go:293-419 | An accepted object has exactly the members its kind asks for |
| ValueText.AppendValue | scenario/value_json.go:101-189 | What is written is the text of the specified tree, which `ValueShapes` spells out; it fails exactly where there is none |
| ValueText.AppendItems | scenario/value_json.go:143-157 | Items are written in order with commas between them |
| ValueText.AppendEntries | scenario/value_json.go:171-184 | Entries are written in the order of the keys |
| ValueText.SortKeys | scenario/value_json.go:163-170 | Keys gathered in any order come out as the sorted keys, in the order of `Texts.TextLessMeaning` |
| Texts.TextLessMeaning | scenario/value_json.go:168-169 | One text comes before another if it is a proper beginning, or is less at the first place where they differ |
| ValueText.DecodeEnvelope | scenario/value_json.go:293-419 | The reader accepts and yields exactly what the specification does; what it takes for an integer is `ValueCanon.IntRead` |
| ValueText.DecodeMap | scenario/value_json.go:377-415 | A map is accepted only with strictly rising keys |
| ValueText.DecodeList | scenario/value_json.go:356-376 | A list is accepted only if every item is |
| ValueText.ObjectMember | scenario/value_json.go:421-428 | The first member of the name |
| ValueText.RequireObjectMembers | scenario/value_json.go:430-446 | No unknown member, and none missing |
| ReportFit.FitRunReport | scenario/report.go:451-469 | Ends; fails as invalid exactly for an invalid report; returns a valid report in canonical order within the limit, or fails with every part empty and still too large; what it returns comes from the normal form by trims each of which was needed, so that a report that fits comes back untrimmed; each trim takes one item, or cuts the output to the longest valid beginning the excess allows |
| ReportFit.TrimRunReport | scenario/report.go:471-492 | Trims the first part in trim order that has anything left, and reports failure exactly when there is none; what is trimmed, and by how much, is as `ReportFit.TrimIsOne` says |
| ReportFit.TrimIsOne | scenario/report.go:471-492 | What a trim does, in bytes: with only output left, the text kept is the longest valid beginning of at most the length less the excess, or less one; otherwise one item goes from the first part that has any |
| ReportFit.KeptLoses | scenario/report.go:480-489 | A cut loses at least the excess, or the whole text, and fewer than four bytes more |
| ReportFit.TrimKeepsNormal | scenario/report.go:471-492 | Every rule for collections, queries and output, and the canonical order, survive a trim |
| ReportFit.TrimStays | scenario/report.go:471-492 | A part loses something only while every part before it in trim order is empty |
| ReportFit.TrimLightens | scenario/report.go:471-492 | Each trim takes away at least one item or byte |
| ReportFit.NormalizeNormal | scenario/artifact_validation.go:171-280 | Normalizing a valid report yields a valid report in canonical order |
| ReportFit.NormalFixed | scenario/artifact_validation.go:171-280 | Normalizing a normal report changes nothing |
| ReportFit.CollectionMeaning | scenario/artifact_validation.go:633-665 | A valid section that is available is determined by its items, its limit and a total: at most the limit and the total of them, marked cut short exactly if some are missing; one that is not is empty and says why |
| ReportFit.RefusedForFaults | scenario/artifact_validation.go:171-280 | A report is refused if and only if it has one of the faults listed: a part that breaks its rules, an entry or query that repeats, or a run that fired or holds more than it may, or other than its section says |
| ReportFit.OutputMeaning | scenario/artifact_validation.go:579-614 | The same of the output, in bytes of valid UTF-8 |
| ReportFit.ShorterOk | scenario/artifact_validation.go:633-665 | A collection stays valid without its last item |
| ReportFit.ShorterOutputOk | scenario/artifact_validation.go:579-614 | Output cut at a character stays valid and gets shorter |
| ReportFit.SortedItems | scenario/artifact_validation.go:681-782 | Sorting keeps items and their rules |
| Utf8.Cut | scenario/report.go:480-489 | The longest valid start that is no longer than asked for |
| Utf8.CutLosesLittle | scenario/report.go:480-489 | Backing up to a character costs at most three bytes |
| Utf8Scalars.ValidMeaning | scenario/report.go:480-489 | A text is valid if and only if it is the encoding of some scalar values, each in one to four bytes as its size asks |
| Utf8.CutBefore | scenario/report.go:480-489 | What is kept is valid UTF-8, and no longer start is |

## Left out

- BranchMeaning.PlanningPreservesMatches: assumes that list elements are constants, which the compiler enforces, and that the plan swaps no join on a captured value and none of a hidden positive match; `BranchExact.PlanningExact` says what the planned branch matches otherwise.
- Agenda.Agenda.ApplyTokenDeltas: claims heap order only for modules in which at most one activation is born or the births come in the order of their ranks, the later ones being new; contents, back-pointers and the state of every activation are claimed for every batch. For two new activations of one salience and epoch this decides the matter (`AgendaLimits.InTurnKeepsOrder`, `AgendaLimits.OutOfTurnNotSafe`), and later births that are re-armed cannot be let in (`AgendaRearmed.RearmedNotSafe`); for births out of turn in general, whether a given heap survives depends on every key along the paths taken.
- BranchExact.SwappedHiddenNeverMatches: reads as a branch what the source never runs: a plan whose join names a hidden match gets no binding slot and is refused with an error (`BranchExact.PlannedCompiles`). What else the compiler checks of a plan, such as the fields of templates, is not modelled.
- AgendaRefraction.RunsCountSupport: a run takes it that a rule makes one match of a token however often it is delivered, as the match is computed from both, and that only what was delivered is withdrawn; a run has no compaction in it, which forgets what does not wait (`AgendaCompaction.RetiredForgotten`), so that support and firings are then counted anew.
- BranchOrder.PlannedOrderSound: says nothing of how good the selected order is.
- SupportStore.SortIds: claims order only where the comparison is one, because for mixed record kinds it falls back to ids and is not transitive; how records of one kind compare is a parameter.
- SupportRequest.RequestExact: takes as meant that a request whose owner holds nothing is looked up as a request without owner, as the code does.
- ValueJson.RoundTrip: assumes that the shortest text of a finite double parses to that double; how doubles are written is not modelled.
- ReportFit.FitRunReport: the encoded size is any function of the report, and the fields of single items enter as one flag, one or two identities and a sort key; the rules for identifiers, paths, digests and header fields are one flag that trimming does not touch.
- Names and paths are taken as already trimmed and normalized.
- Integers and floats of conditions are merged into reals, and an expression that fails to evaluate has no value; fanouts that are not numbers are not modelled.
- Wrap-around of 64-bit ids, ordinals, birth epochs and generations; ids and epochs grow without bound.
- Rete propagation: a removed demand fact just leaves working memory, and propagation errors do not occur. The agenda change lists merged along the way are not modelled.
- Hashes are arbitrary functions; nothing depends on their quality.
- The two probing tables have the same code and are modelled once over any key and value; the inline and owner indexes share one class in the same way, the one with plain and the other with conditional removal. The eight trim functions are one.
- Creation of an activation from a token cannot fail; contexts and cancellation, payload pools, scratch slices, change snapshots on the token path and observers are not modelled.
- The ruleset is fixed for the life of an agenda; the revision of every stored activation is known.
- Activations are positions of one storage sequence in place of pointers into two row arenas, so aliasing between a stored row and its recycled copy appears only through links that are checked against ordinals.
- `applyTerminalTokenUpdates`, purging of rule revisions, forked clones and firing for one query proof: each repeats steps modelled here.
- The rules by which birth tuples are read off a token, beyond their order.
- JSON tokenizing, string escapes and the check that strings are valid UTF-8: the reader starts from a parsed tree, and quoting is any function that leaves letters, digits, signs and points alone. Where the decoder words its errors is not modelled, only that it fails.
- Public wrappers, clone functions, the command line, the REPL, scenario source resolution, clocks and locks.
