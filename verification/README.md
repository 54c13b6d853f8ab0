# Indexterity: a Dafny model of the index analysis, the tunnel and the audit gate

Indexterity watches a database cluster, proposes indexes to build, fold together,
re-order, hide and drop, and reaches private networks through a tunnel that dials only
what the api allows. This project models the code that makes those decisions and proves
what it promises.

- **Order and coverage.** `Documents` gives indexes a meaning: documents sorted by keys,
  read forward or backward. `Redundancy` and `Recommend` decide when one index stands in
  for another; `Esr`, `Serving` and `Reorder` decide which keys a query wants, whether an
  index serves it, and how to turn an index's directions around.
- **Recommending indexes.** `Collection`, `Wants`, `Leads`, `FoldLoop`, `Consolidation`
  and `Creates` follow `recommendCreates` from query shapes to candidates; `FoldMeaning`
  and `FoldExamples` say what folding one want into another does to its query, `Answers`
  and `AnswerExamples` whether a candidate answers the shapes it is credited to.
- **Evidence over time.** `Runs`, `Activity`, `Usage`, `Classify`, `ObserveDays`,
  `Observed`, `LatencyChart` and `ChangeWindow` work on run-length readings: one stored
  row stands for many collects.
- **The tunnel.** `PendingDials` holds the two mutable tables as classes; `Tunnel` is a
  state machine over every interleaving of callers, peerings and control streams.
- **The audit gate.** `AuditGate` is the worklist walk over a lockfile.

Code that loops or mutates is modelled by methods and classes, each proved equal to a
function on values; the theorems are about those functions. Times are real milliseconds
and rates are real numbers. Every lemma switches automatic induction off, so each
inductive proof is the one written down.

Some promises turned out not to hold of the code. Each has an input that shows it, and
where the condition is marked exact it is an if-and-only-if over every input:

- A comment in `apps/api/src/analysis/workload.ts:580-583` says everything folded into a
  want keeps leading it. That holds for direct folds without a sort. Through any number of
  folds it holds exactly when, at the last fold into the survivor, the survivor's lead
  began with none but the want's own fields and the first fresh names brought completed
  them (`Consolidation.ChainFoldLeads`, in documents `FoldMeaning.ChainFoldExactly`;
  `FoldExamples.IndirectFoldFails` is a family where it fails). For a want whose sort is
  served from the wider equality block, the exact condition is on the lead it met
  (`Consolidation.SortedFoldLeads`, `FoldMeaning.SortedFoldExactly`,
  `FoldExamples.SortedFoldFails`). `FoldMeaning.ChainSortExactly` gives the exact
  condition for matches and sort together, through any number of folds.
- `apps/api/src/analysis/workload.ts:107-108` calls `sourceShapes` the shapes a candidate
  answers. Answering here means that the index holds every document the query can match,
  keeps the matches of any binding together and presents them in the query's sort. Shapes
  join a want by keys alone, so one may bind fewer fields than the want it joined, fix
  other constants, leave its own constant to a filter that is not there, or sort by what
  the lead has broken up (`AnswerExamples.JoinedMayBeScattered`, `JoinedMayBeForeign`,
  `JoinedMayBeUnfixed`, `JoinedMayBeUnordered`). The shape a candidate was first wanted for
  is always answered (`Answers.SurvivorAnswersOwn`). Exact conditions:
  `Answers.CandidateAnswersExactly` on the candidate's keys and filter,
  `Answers.JoinedAnsweredExactly` for shapes that joined a survivor, and
  `Answers.FoldedAnsweredExactly` and `Answers.FoldedOwnAnsweredExactly` for those of a
  folded want.
- The index that covers a redundant one may be called unused by the same list
  (`Recommend.CoverMayBeUnused`). `Recommend.CoverStaysExactly` says exactly when some
  cover is left alone.
- The lockfile walk can miss a workspace behind a link to a link, depending on the order
  dependencies are written in (`AuditGate.LinkToLinkMissed`, `AuditGate.LinkToLinkFound`).
  It is exact when no resolved link leads to another resolved link
  (`AuditGate.ReachableExactly`). That condition is sufficient and not necessary: the
  second of those lockfiles breaks it and is walked right.

## Model

| member | source | states |
|---|---|---|
| `Redundancy.ComputeCoversKeyOrder` | apps/api/src/analysis/redundancy.ts:85-96 | the loop over paired keys returns what the key-order predicate says |
| `Redundancy.CoversSound` | apps/api/src/analysis/redundancy.ts:85-108 | one walk direction, fixed by the keys alone, presents every list of documents in the covered order |
| `Redundancy.CoversKeyOrderExact` | apps/api/src/analysis/redundancy.ts:85-96 | covering key order holds if and only if every list of documents in the wider index's order is in the narrower one's, forward or backward |
| `Redundancy.RedundantPrefixTransitive` | apps/api/src/analysis/redundancy.ts:120-131 | coverage chains through options, included columns and key order |
| `Recommend.RecommendForCollection` | apps/api/src/analysis/recommend.ts:94-252 | the four passes, with the sets of names the later ones consult, give the specified candidates in order |
| `Recommend.RedundantDropsAreSafe` | apps/api/src/analysis/recommend.ts:94-252 | dropping every redundant index of a pass at once leaves each covered by one that is neither pending removal nor redundant |
| `Recommend.RedundantDropsKeepOrders` | apps/api/src/analysis/recommend.ts:94-252 | the same in documents: a surviving index presents every order a dropped one did |
| `Recommend.OneFindingEach` | apps/api/src/analysis/recommend.ts:94-252 | no index is proposed twice in a pass |
| `Recommend.DropsExactly` | apps/api/src/analysis/recommend.ts:94-252 | the list proposes to drop an index if and only if it is redundant or unused |
| `Recommend.CoverStaysExactly` | apps/api/src/analysis/recommend.ts:94-252 | some cover of a redundant index is named for no drop if and only if some cover that is not redundant is protected or does not look dead |
| `Recommend.CoverMayBeUnused` | apps/api/src/analysis/recommend.ts:94-252 | two idle indexes, one a prefix of the other, are both dropped by one list |
| `Esr.ComputeEsrKeys` | apps/api/src/analysis/workload.ts:53-72 | the three loops with their set of emitted fields give the specified keys |
| `Esr.RangeOrderIrrelevant` | apps/api/src/analysis/workload.ts:53-72 | the order range fields were recorded in never reaches the keys |
| `Esr.EsrLaid` | apps/api/src/analysis/workload.ts:53-91 | the keys are an equality, a sort and a range block, in that order, each field once, and every range field is among them |
| `Esr.SortBlockOrders` | apps/api/src/analysis/workload.ts:53-91 | among documents that agree on the equality fields, the sort block orders exactly as the shape's whole sort does |
| `Serving.ServesWantMeaning` | apps/api/src/analysis/workload.ts:175-226 | an index accepted block for block keeps every binding's matches together, one fixed walk presents them in the shape's sort order, and every range field is a key |
| `Serving.EqualFieldsMeaning` | apps/api/src/analysis/workload.ts:175-196 | one accepted on exactly the wanted fields, directions aside, keeps the matches together and holds every range field |
| `Serving.BoundOrderExactly` | apps/api/src/analysis/workload.ts:206-217 | behind a bound lead, matches come out in a sort whatever the data if and only if the next keys are that sort, as it stands or reversed throughout |
| `Reorder.ComputeOrderingPositions` | apps/api/src/analysis/reorder.ts:54-73 | the two loops report exactly the positions of the sort block |
| `Reorder.ServesShapeOrderExact` | apps/api/src/analysis/reorder.ts:54-83 | for an index on the shape's own fields, the test passes if and only if the matches come out in sort order whatever the data |
| `Reorder.TargetOptimal` | apps/api/src/analysis/reorder.ts:146-168 | the target keeps the fields, serves the shape, and no serving assignment of directions changes fewer keys |
| `Reorder.ReorderableIsUnique` | apps/api/src/analysis/reorder.ts:103-119 | what is left after the exclusions is a unique index |
| `Reorder.RecommendReorder` | apps/api/src/analysis/reorder.ts:181-242 | the loop returns one proposal for each index that earns one |
| `Reorder.ReorderAllSound` | apps/api/src/analysis/reorder.ts:181-242 | every proposal is for a listed, unpinned index, keeps its field sequence, serves its busiest blocked shape with the fewest changes, and leaves served every recurring same-field shape that was |
| `Reorder.ReorderKeepsOrders` | apps/api/src/analysis/reorder.ts:181-242 | whatever the data, a recurring shape the original could walk can be walked on the replacement |
| `Wants.FoldKeeps` | apps/api/src/analysis/workload.ts:574-594 | folding keeps a want laid out by its blocks and only appends to its lead |
| `Wants.LeadWithPermutes` | apps/api/src/analysis/workload.ts:319-326 | leading with the folded fields permutes the keys, moves only the equality block, and starts with the lead |
| `Leads.LeadingExactly` | apps/api/src/analysis/workload.ts:584-591 | names among a lead and what is appended come first if and only if the lead began with none but them and the first fresh names complete them |
| `Leads.SortedLeadingSurvives` | apps/api/src/analysis/workload.ts:584-591 | the same for equality fields followed by a sort, with its exact condition |
| `FoldLoop.Loop` | apps/api/src/analysis/workload.ts:565-598 | the consolidation loop, each item replaced at its place, runs the specified turns |
| `Consolidation.ConsolidateLoop` | apps/api/src/analysis/workload.ts:565-598 | the loop over wants gives the specified survivors and folds |
| `Consolidation.SortPermutes` | apps/api/src/analysis/workload.ts:567 | sorting the wants loses and invents none |
| `Consolidation.SortNarrowest` | apps/api/src/analysis/workload.ts:567 | narrowest first, and stable |
| `Consolidation.ConsolidateKeeps` | apps/api/src/analysis/workload.ts:565-598 | every turn keeps every want well formed and its own question unchanged |
| `Consolidation.DirectFoldLeads` | apps/api/src/analysis/workload.ts:569-598 | a directly folded want's equality fields are exactly the first fields of the survivor's final keys |
| `Consolidation.ChainFoldLeads` | apps/api/src/analysis/workload.ts:569-598 | through any number of folds, names a want binds lead the survivor if and only if the last fold completed them |
| `Consolidation.SortedFoldLeads` | apps/api/src/analysis/workload.ts:307-313 | a sort served from equality follows its fields in the final keys if and only if the lead it met allowed it |
| `Consolidation.SurvivorsIrreducible` | apps/api/src/analysis/workload.ts:569-598 | no survivor could be folded into any later want under the final leads |
| `Consolidation.ConsolidateConserves` | apps/api/src/analysis/workload.ts:574-594 | folding loses no source shape and no count |
| `FoldMeaning.ContiguousExactly` | apps/api/src/analysis/workload.ts:241-268 | a query's matches stay together in an index whatever the data if and only if its equality fields are the index's first |
| `FoldMeaning.ServedExactly` | apps/api/src/analysis/workload.ts:241-268 | matches stay together and come out in a sort whatever the data if and only if the index begins with the equality fields and then the sort |
| `FoldMeaning.DirectFoldStaysOnIndex` | apps/api/src/analysis/workload.ts:241-326 | a directly folded want whose sort is not served from equality keeps its matches contiguous in the surviving index and in its sort, whatever the data |
| `FoldMeaning.ChainFoldExactly` | apps/api/src/analysis/workload.ts:241-326 | through any number of folds, the matches are contiguous in the survivor whatever the data if and only if the last fold completed the fields |
| `FoldMeaning.SortedFoldExactly` | apps/api/src/analysis/workload.ts:300-313 | a want whose sort is served from equality keeps its matches contiguous and in order, whatever the data, if and only if the lead it met allowed it |
| `FoldMeaning.ChainSortExactly` | apps/api/src/analysis/workload.ts:241-326 | through any number of folds, a want's matches stay contiguous and in its sort if and only if that sort is still at the head of the survivor's or the last fold put fields and sort first |
| `FoldExamples.IndirectFoldFails` | apps/api/src/analysis/workload.ts:569-598 | a family of three-field chains whose intermediate fold scatters a folded query |
| `FoldExamples.SortedFoldFails` | apps/api/src/analysis/workload.ts:569-598 | a family where a sort-carrying direct fold loses its query |
| `Collection.CollectLoop` | apps/api/src/analysis/workload.ts:471-563 | the loop with its map from keys to wants gives the specified wants and declines |
| `Collection.CollectConserves` | apps/api/src/analysis/workload.ts:471-563 | every finding is declined or stands behind a want, exactly once |
| `Collection.RecollectDeclines` | apps/api/src/analysis/workload.ts:471-563 | a want's own shape is declined the next time if something serves it then |
| `Collection.RecollectExactly` | apps/api/src/analysis/workload.ts:471-563 | with one more index, the next collection declines a want's own shape as served if and only if that index serves the want |
| `Creates.RecommendCreates` | apps/api/src/analysis/workload.ts:471-683 | collect, sort, fold and emit give the specified candidates and declines |
| `Creates.CreatesConserve` | apps/api/src/analysis/workload.ts:471-683 | every scanning or sorting shape is declined or credited to a candidate, exactly once, and no other is |
| `Creates.CountsConserve` | apps/api/src/analysis/workload.ts:574-617 | the survivors' counts add up to the counts of the shapes wants are named for |
| `Creates.CandidateHonest` | apps/api/src/analysis/workload.ts:600-683 | a candidate is credited to real shapes, scans exactly when one of them does, and retires only compatible indexes it replaces |
| `Answers.FrontLeads` | apps/api/src/analysis/workload.ts:319-326 | the first fields a want asked for are still first in its final keys if and only if its lead begins with none but them |
| `Answers.HoldsExactly` | apps/api/src/analysis/workload.ts:502-522 | a partial index holds every document a query can match if and only if its filter says no more than the query's constants |
| `Answers.CollectAsked` | apps/api/src/analysis/workload.ts:523-531 | every shape behind a want asked for exactly its keys |
| `Answers.KeysAnswerExactly` | apps/api/src/analysis/workload.ts:107-117 | an index answers a shape if and only if its filter says no more than the shape's constants and its keys begin with the equality fields the filter leaves and then the sort |
| `Answers.CandidateAnswersExactly` | apps/api/src/analysis/workload.ts:107-117 | the same of every candidate and every shape |
| `Answers.JoinedAnsweredExactly` | apps/api/src/analysis/workload.ts:502-531 | a shape behind a survivor is answered if and only if it asked for the same filter, the final lead begins with none but what it binds, and past that the lead and its sort agree as far as both go |
| `Answers.SurvivorAnswersOwn` | apps/api/src/analysis/workload.ts:107-117 | the shape a survivor was first wanted for is always answered |
| `Answers.FoldedAnsweredExactly` | apps/api/src/analysis/workload.ts:569-598 | a survivor that had a want folded into it answers a shape if and only if its lead and then its other keys begin with what the shape binds and then its sort |
| `Answers.FoldedOwnAnsweredExactly` | apps/api/src/analysis/workload.ts:569-598 | the shape a folded want was first wanted for is answered, through any number of folds, if and only if its sort is still at the head of the survivor's or the last fold put fields and sort first |
| `AnswerExamples.JoinedMayBeScattered` | apps/api/src/analysis/workload.ts:523-531 | a family of three shapes where a joined one is credited to a candidate that scatters its matches |
| `AnswerExamples.JoinedMayBeForeign` | apps/api/src/analysis/workload.ts:523-531 | a family of two shapes where one is credited to a partial index holding none of its documents |
| `AnswerExamples.JoinedMayBeUnfixed` | apps/api/src/analysis/workload.ts:502-531 | a family of two shapes where one leaves its constant to a filter the candidate does not have, and its matches are scattered |
| `AnswerExamples.JoinedMayBeUnordered` | apps/api/src/analysis/workload.ts:523-531 | a family of three shapes where a joined one keeps its matches together and not in its sort |
| `Creates.RerunDeclinesSurvivor` | apps/api/src/analysis/workload.ts:471-683 | with the proposed index built, a second run declines the survivor's own shape because the index exists |
| `Creates.FoldedServedExactly` | apps/api/src/analysis/workload.ts:175-226 | the survivor's index serves a directly folded want without a range if and only if the lead it met allowed its sort |
| `Creates.RerunFoldedExactly` | apps/api/src/analysis/workload.ts:471-563 | collected again with that index, such a want's own shape is declined as served if and only if that is so |
| `Creates.RerunDeclinesFolded` | apps/api/src/analysis/workload.ts:471-683 | and then the whole second run declines it |
| `Runs.SortedRunsAscends` | apps/api/src/analysis/types.ts:119-121 | rows come out oldest first |
| `Runs.SortedRunsPermutes` | apps/api/src/analysis/types.ts:119-121 | and are the same rows |
| `Runs.ObservationGapsLoop` | apps/api/src/analysis/types.ts:143-159 | the loop lists the interior gaps and the gaps between, in order |
| `Runs.MedianLoop` | apps/api/src/analysis/types.ts:168-186 | the weighted walk returns the specified median |
| `Runs.MedianIsPlain` | apps/api/src/analysis/types.ts:168-186 | the weighted median is the ordinary median of the gaps written out in full |
| `Runs.MedianRunLength` | apps/api/src/analysis/types.ts:143-186 | writing every run out as the readings it stands for does not move the median |
| `Activity.FoldActivityLoop` | apps/api/src/analysis/activity.ts:123-145 | the loop adds up the capped credit of each interval that was read |
| `Activity.ActivityRunLength` | apps/api/src/analysis/activity.ts:123-145 | active time is the same whether runs are stored or written out |
| `Usage.ActivityLoop` | apps/api/src/analysis/usage.ts:62-90 | the loop adds each member's activity, restarts counted in full |
| `Usage.RestartedLoop` | apps/api/src/analysis/usage.ts:177-195 | the loop says whether any member's counters restarted |
| `Usage.FullIsBetweenNothing` | apps/api/src/analysis/usage.ts:162-170 | activity in full is activity against nothing |
| `Usage.UsageSeriesLoop` | apps/api/src/analysis/usage.ts:98-155 | the loop gives the specified series |
| `Usage.SeriesTotal` | apps/api/src/analysis/usage.ts:98-155 | splitting rows into moments keeps the number of collects |
| `Usage.ColumnsRefineCounters` | apps/api/src/jobs/collect.ts:338-361 | on every window, wherever the stored columns begin, they answer what the raw counters would |
| `Usage.QuietIsZero` | apps/api/src/analysis/usage.ts:62-170 | nothing ever moved exactly when every counter of every retained row is zero |
| `Classify.CounterEpochsLoop` | apps/api/src/analysis/classify.ts:133-167 | the loop gives the specified epochs |
| `Classify.EpochsSplit` | apps/api/src/analysis/classify.ts:133-167 | splitting a history at a restart gives each part the epochs it has on its own |
| `Classify.EpochsAccountForTime` | apps/api/src/analysis/classify.ts:133-175 | epochs are ordered, disjoint and within the history, and their sum never exceeds it |
| `Classify.FoldUsageLoop` | apps/api/src/analysis/classify.ts:294-345 | the two loops give the specified fold |
| `Classify.ColumnsInOrder` | apps/api/src/analysis/classify.ts:294-345 | read oldest first, ties included, the whole fold is the same from stored columns as from raw counters |
| `Classify.FoldColumnsRefineCounters` | apps/api/src/analysis/classify.ts:294-345 | and so it is in whatever order rows that began at different times are read back |
| `Classify.PrefilterIsHarmless` | apps/api/src/analysis/classify.ts:378-450 | dropping blind windows shorter than the tolerance changes no trust verdict |
| `Classify.ClassMeaning` | apps/api/src/analysis/classify.ts:493-522 | in whatever order the history comes, flat zero, continuous and alive each hold exactly when the raw counters say so |
| `ObserveDays.WindowBounded` | apps/api/src/analysis/observe.ts:114-237 | the observe window lies between the week or policy floor and the ninety-day or policy cap |
| `ObserveDays.CycleFits` | apps/api/src/analysis/observe.ts:136-145 | for every gap between sightings, the window holds two of it or is as long as any ever is |
| `ObserveDays.WindowRunLength` | apps/api/src/analysis/observe.ts:114-237 | the window is the same whether the history's runs are stored or written out |
| `Observed.OutagesLoop` | apps/api/src/analysis/own-outage.ts:25-39 | the loop lists the gaps between stretches of ticks longer than two hours |
| `Observed.OutagesAreApart` | apps/api/src/analysis/own-outage.ts:25-39 | outages are ordered and disjoint |
| `Observed.OutageWithin` | apps/api/src/analysis/own-outage.ts:51-57 | outage time in a stretch never exceeds the stretch |
| `Observed.WindowsLoop` | apps/api/src/analysis/observed.ts:109-121 | the loop keeps exactly the windows no reset ate |
| `Observed.AverageLoop` | apps/api/src/analysis/observed.ts:127-135 | the loop divides the summed latency by the summed operations |
| `Observed.NoEarlyVerdict` | apps/api/src/analysis/observed.ts:171-211 | anything but incomplete is said only once the last reading's start, less the change moment and our outages in between, is at least the observe window |
| `Observed.WatchedStaysWatched` | apps/api/src/analysis/observed.ts:171-191 | a later reading never takes observed time away, nor makes a complete window incomplete |
| `Observed.ElapsedAccounted` | apps/api/src/analysis/observed.ts:99-121 | elapsed time is time in runs, drawable windows and windows a reset landed in, exactly |
| `Observed.CanFinishExactly` | apps/api/src/analysis/observed.ts:282-298 | for any positive window, it can finish if and only if drawable time is a third of elapsed time |
| `Observed.CompleteBeforeOutstayed` | apps/api/src/analysis/observed.ts:213-240 | while readings keep the share a proposal asks for and we were running throughout, the window is complete by the time it could be outstayed |
| `Observed.DrawableWithin` | apps/api/src/analysis/observed.ts:264-280 | drawable time never exceeds elapsed time |
| `LatencyChart.LatencyPointsLoop` | apps/api/src/analysis/latency.ts:67-93 | the loop gives the specified points, a gap at the end of each run |
| `LatencyChart.GapLoop` | apps/api/src/analysis/latency.ts:116-135 | no reason where a pair is drawable, else a reset if any counter fell, else no operations |
| `LatencyChart.SummarizeLoop` | apps/api/src/analysis/latency.ts:182-217 | the loop gives the specified trend |
| `LatencyChart.ChartIsMeasured` | apps/api/src/analysis/latency.ts:47-93 | the chart draws exactly the windows the trend measures, in order |
| `LatencyChart.ReadersAgree` | apps/api/src/analysis/latency.ts:47-298 | a gap is explained exactly when the chart draws, the ranking counts and the trend reports nothing, and the trend's ends are the chart's |
| `LatencyChart.NoOpsMeansNone` | apps/api/src/analysis/latency.ts:102-135 | where no operations is the reason, the counter stood still between every two readings |
| `ChangeWindow.MeasureInCell` | apps/api/src/analysis/window.ts:91-137 | inside one six-hour cell its own slot takes all the time and the others none |
| `ChangeWindow.CreditSpan` | apps/api/src/analysis/window.ts:121-137 | in place, each slot gains the time of the stretch that lies in it, and that share of the traffic, as far as the step cap reaches |
| `ChangeWindow.CreditConserves` | apps/api/src/analysis/window.ts:121-137 | no traffic is lost if and only if the stretch ends within the cells the walk may take |
| `ChangeWindow.TallyNamespace` | apps/api/src/analysis/window.ts:140-160 | the loop credits each run and each gap that counts |
| `ChangeWindow.TallyConserves` | apps/api/src/analysis/window.ts:140-160 | the four slots together hold exactly the traffic of the gaps that counted |
| `ChangeWindow.HoursWithin` | apps/api/src/analysis/window.ts:140-160 | a slot is credited no more of a history than the history holds of it |
| `ChangeWindow.InferChangeWindow` | apps/api/src/analysis/window.ts:179-223 | a window is named if and only if every slot was watched eighteen hours and some slot is genuinely quiet, and it is the first quietest |
| `ChangeWindow.InferredNeedsThreeDays` | apps/api/src/analysis/window.ts:179-223 | never from less than seventy-two hours of history in all, or fifty-four of one namespace |
| `ChangeWindow.InferredIsItsSlot` | apps/api/src/analysis/window.ts:10-19 | an inferred window lets through exactly the six hours of the quietest slot, midnight included |
| `PendingDials.FormatRoundTrip` | apps/tunnel/socks.go:81-91 | a formatted id reads back as its number |
| `PendingDials.AllowsExactly` | apps/tunnel/main.go:301-325 | a verdict allows an address if and only if it came from an allowance of that readable address |
| `PendingDials.Verdicts.Open` | apps/tunnel/socks.go:81-91 | the next id, a fresh empty channel under it, nobody else touched |
| `PendingDials.Verdicts.Close` | apps/tunnel/socks.go:93-97 | the id, and nothing else, leaves the table |
| `PendingDials.Verdicts.Deliver` | apps/tunnel/socks.go:102-114 | found exactly when somebody waits; the waiter leaves the table and its empty channel alone gets the answer |
| `PendingDials.Dispatch` | apps/tunnel/main.go:301-325 | the waiter gets the verdict of the command, and the api hears of an unreadable address or of nobody waiting |
| `PendingDials.Registry.Add` | apps/tunnel/peering.go:74-102 | registers under the credentials unless they are held; never replaces a peering |
| `PendingDials.Registry.Remove` | apps/tunnel/peering.go:104-108 | exactly the peering's own entry leaves |
| `PendingDials.Registry.Authenticate` | apps/tunnel/peering.go:116-127 | the peering whose username and password both match, or none |
| `PendingDials.RegistryRoundTrip` | apps/tunnel/peering.go:74-133 | adding then removing changes nothing; in between the count is one more and only the peering's own credentials select it |
| `Tunnel.StepKeeps` | apps/tunnel/socks.go:182-246 | every step of every actor keeps the protocol invariant |
| `Tunnel.SendNeverBlocks` | apps/tunnel/socks.go:102-114 | in every run, an answer taken off the table can be sent at once: its channel is empty |
| `Tunnel.OneAnswer` | apps/tunnel/socks.go:70-114 | in every run, a connection is sent at most one answer |
| `Tunnel.DialsAreAuthorised` | apps/tunnel/socks.go:182-246 | in every run, a dial was preceded in order by the caller presenting that peering's credentials, an id issued there, and that peering's own allowance of that address for that id |
| `Tunnel.SilenceNeverDials` | apps/tunnel/socks.go:392-413 | in every run, a connection that timed out, was cancelled or could not ask never dials, and none dials twice |
| `Tunnel.AllowanceUsedOnce` | apps/tunnel/socks.go:102-114 | in every run, two dials have two different commands behind them, each an allowance of the address dialled |
| `Tunnel.RegisteredIsUp` | apps/tunnel/server.go:136-153 | in every run, whoever can be authenticated into is still registered under those credentials, its device not yet closing |
| `Tunnel.IdsRepeatExactly` | apps/tunnel/socks.go:81-91 | in every run, two ids of a peering are equal if and only if a multiple of 2^64 were issued between them |
| `AuditGate.JoinSplit` | scripts/audit-gate.ts:172-180 | joining a split path gives the path back |
| `AuditGate.ResolveDep` | scripts/audit-gate.ts:172-180 | the countdown loop finds the copy under the nearest ancestor, or none if no ancestor has one |
| `AuditGate.WalkLoop` | scripts/audit-gate.ts:193-223 | the worklist ends on any lockfile, with the specified set |
| `AuditGate.ReachableExactly` | scripts/audit-gate.ts:172-223 | when no resolved link leads to another resolved link, a path is returned if and only if a chain of dependencies from a workspace leads to it |
| `AuditGate.LeastClosed` | scripts/audit-gate.ts:193-223 | when no resolved link leads to a link, the result is closed under resolution, links and dependencies, and inside every such set |
| `AuditGate.LinkToLinkMissed` | scripts/audit-gate.ts:184-223 | with a link to a link, a reachable workspace can be missed |
| `AuditGate.LinkToLinkFound` | scripts/audit-gate.ts:184-223 | with the same dependencies written in the other order the walk is exact, unsettled links and all |

## Left out

- Rationale texts, reasons for people, scores and their logarithms: strings and presentation.
- `sortOrderAdvisories`, `recommendNarrowing`, `notWorthBuilding`, `isCoveredBy` and `readsAround`.
- Creates.RerunDeclinesFolded: speaks of wants without a range folded directly; for the others `Collection.RecollectExactly` gives the exact condition on the built index.
- Creates.FoldedServedExactly: leaves out wants with a range, since a range field may be served from any block of the survivor.
- Creates.RerunFoldedExactly: leaves out wants with a range in the same way.
- Collection.CollectLoop: the map is by the list of keys, where the source joins it into a string that field names holding commas and colons could confuse.
- Observed.CompleteBeforeOutstayed: speaks of stretches that begin with a change at their first reading and have no outage of ours; a window cut by one loses more than the outage.
- Redundancy.CoversKeyOrderExact: states exactness for ordered keys on distinct fields; text, geo and hashed keys have no document order here.
- Recommend.RecommendForCollection: candidates carry no score, size or rationale.
- Recommend.RedundantDropsKeepOrders: speaks of dropped indexes whose keys are all ordered, as only those have a document order.
- Serving.EqualFieldsMeaning: speaks of ordered keys; an index with a text or hashed key is accepted on equal fields, too, and has no document order here.
- Serving.ServesWantMeaning: speaks of unfiltered indexes; a partial filter is compared for equality, not interpreted.
- Identity of want objects: wants are values addressed by their position, so updates through aliases are updates at a position.
- Run histories: theorems about written-out runs and about elapsed time take the runs of one series not to overlap, and a row of one observation to be a point.
- Observed.NoEarlyVerdict: takes a positive observe window, as the settings schema requires, and stretches of ticks that do not overlap.
- Floating point: rates and averages are exact reals, so rounding is not modelled; unparseable dates are left out.
- The SQL twins of the folds, the jobs that call the analysis, and the stored-spec parser.
- Client-name matching: whether a client is worth indexing for is a field of the shape's clients.
- WireGuard, the network stack, sockets, JSON decoding and SOCKS5 byte parsing: abstract steps of the tunnel, and allowed addresses arrive parsed or unreadable.
- Credential randomness and constant-time comparison: credentials are parameters and comparison is equality.
- Liveness of the tunnel: nothing is said about when a waiting caller is answered, only that a send is never blocked.
- The advisory half of the audit gate: reports, severities and accepted exceptions.
