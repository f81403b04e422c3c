# The deterministic engine of a Japan trip planner, modelled and verified

The planner's language model explains numbers; it never produces them. What produces them is a
deterministic engine: an itinerary is costed and graded by rules, structurally revised, and a
revision is offered only if it is really better; regions are scored by a fixed rubric; evidence is
retrieved by two rankings, fused, deduplicated and packed into a budget. Under it sit a few small
stateful structures: a bounded cache, a request limiter, a circuit breaker, a store of chunks whose
embeddings may come later, and time-ordered identifiers. This project models that engine in Dafny
and proves what it keeps over all inputs and over whole runs.

`dafny verify dfyconfig.toml` checks everything.

| files | models |
|---|---|
| `Route`, `RouteRules`, `RouteHealth`, `RuleThresholds`, `StayLength` | itineraries, the travel load, eleven rules and the grade; monotonicity of the whole engine, every rule in whole minutes and counts, and exactly when a longer stay is safe |
| `Redistribution`, `Dropping`, `DroppingLaws` | dropping stops and handing out the freed nights; conservation, and fairness at every level |
| `Consolidation`, `ConsolidationLaws`, `BurdenLaws` | folding runs of single nights into one base; who is picked as a base and for a freed night |
| `Revision`, `RevisionLaws`, `RevisionCompleteness`, `Choice` | generating candidates, exactly which ones are considered and offered, and choosing one that provably saves time |
| `Cache`, `RateLimit`, `Resilience` | the LRU and expiry cache, the limiter in both forms, the breaker with its retry loop |
| `Metrics` | NDCG with a designated primary source |
| `Fusion`, `FusionLaws`, `FusionScores`, `Hybrid` | reciprocal rank fusion and hybrid retrieval |
| `Context`, `ContextLaws` | quarantine, near-duplicates and the token budget |
| `Embeddings`, `EmbeddingLaws` | batched embedding through the cache |
| `Scoring`, `ScoringLaws`, `Rubric` | the region rubric and its ranking |
| `Ingest`, `IngestLaws` | ingestion with deferred embedding |
| `Ids` | fixed-width, time-prefixed identifiers |
| `Enums`, `Wrappers`, `Subsequences`, `Sorting`, `Rounding` | shared vocabulary: the traveller's pace, options, ordered sub-lists, stable sorting, rounding to a number of decimals |

Code that changes things in place is a class or a method with loops, proved against a
specification function; the laws are then lemmas about that function. Code that only computes is a
function.

## Where the code and its documentation part

The model follows the code. Each of these is a lemma.

- Identifiers promise creation order. Eight base-32 digits hold 2^40 milliseconds, and what follows
  them is random: an id sorts before another whatever is drawn if and only if its millisecond, modulo
  2^40, is the earlier one (`Ids.ClockAloneDecidesIff`, `Ids.IdsFollowTheClock`). So within one such era
  ids sort by millisecond (`Ids.SameEraSortsByTime`), those of one millisecond, as drawn for the chunks of
  one document, sort at random (`Ids.SameMillisecondSortsAtRandom`), and the order starts over at the
  next era (`Ids.NextEraStartsOver`).
- The comment on generating revisions speaks of the three stops with the highest saving; the code takes
  four (`Revision.TopSavesMost`). It also says that all single and pair drops among them are offered. The
  single ones are (`RevisionCompleteness.SingleDropsAreOffered`); everything considered is if and only if at
  most eight plans are different (`RevisionCompleteness.AllOfferedIff`). On a route of differently named
  stops, four or more of which may go, there is room for four of the six pairs and for neither the fold nor
  the reorder (`RevisionCompleteness.LongRoutesAreOfferedDropsOnly`).
- NDCG is within 1 for a question if and only if its primary source is relevant or absent, or there is
  nothing to find (`Metrics.BoundedIffPrimaryIsRelevant`), and within 1 for a result if and only if no id is repeated
  within the cut-off (`Metrics.BoundedIffNoRepeats`).
- The fixed-window limiter keeps its limit in an interval if and only if the interval lies in one
  fixed window (`RateLimit.IntervalIsSafeIffInOneWindow`). No interval one window long does
  (`RateLimit.WindowLongIntervalsOverrun`); there twice the limit is reached, and never more
  (`RateLimit.FixedWindowDoublesTheLimit`). Refused requests count in it as well
  (`RateLimit.FixedAdmitsIff`), so one oversized request shuts out the rest of its window
  (`RateLimit.OversizeLocksOut`).
- The breaker probes after its cooldown, except that a success later in the very call that tripped it
  closes it at once (`Resilience.SuccessSkipsTheCooldown`). The cooldown is respected in every run if and
  only if a call makes at most one attempt (`Resilience.CooldownIsRespectedIff`);
  `Resilience.CallsWaitForCooldown` says exactly when a call has to wait. Being open means having reached the
  threshold only when the threshold is at least one (`Resilience.OpenMeansThresholdReached`).
- A longer stay can worsen a route's grade, but only as a first stay of one to five nights at a stop
  passed through until then (`StayLength.LengtheningIsSafeIff`).
- Elimination caps a region's score at 38 and its label, but not its rank: no eliminated region can
  come before a given one if and only if that one scores above 38, or scores 38 under the empty code
  (`ScoringLaws.NoEliminatedAheadIff`). Profiles published within the limits of their fields add one
  more reason, that the trip eliminates nothing: it has fourteen nights or more, does not rule out a
  car and needs no step-free access (`ScoringLaws.NoPublishedEliminatedAheadIff`).
- The ideal stay gets full marks if and only if it is longer than the minimum stay
  (`ScoringLaws.IdealNightsGetFullMarks`), and the marks rise up to it and fall after it if and only if it
  is that, or equals the minimum stay and no longer one is useful (`ScoringLaws.NightsFitIsUnimodal`).
- Ingesting unchanged content is free unless the source is new and its address is the empty string:
  such a source is recorded but never found again (`IngestLaws.IngestingAgainIsFree`).
- Owing vectors and being pending are not the same. As long as every document has text, a source is
  pending if and only if it owes a vector and is not marked changed
  (`IngestLaws.PendingIffOwingUnchanged`). A document without text can leave an active source with
  the vectorless chunks of an earlier one (`IngestLaws.EmptyDocumentHidesDebt`), exactly when it marks
  active a source that owes (`IngestLaws.PersistPaysUpIff`). Embedding passes go by chunk, so they
  fill these all the same (`IngestLaws.BacklogDrains`).

## Assumptions

- Stops of a route have different order numbers, as the route service guarantees
  (`backend/src/jst_api/services/route_service.py:106-120`). Nothing else is assumed of a route, and
  nights handed out are not capped, as the code does not cap them.
- Floating-point numbers are exact reals, and `round` is nearest with ties to even. A chosen revision
  therefore saves at least 0.05 hours plus 0.35 per dropped stop for every night; at the boundary,
  floating-point comparison of values a hundredth apart leaves only the next lower hundredth, 0.04.
- Clocks, outcomes of outside calls, distances between places, the embedding of one text, cache keys,
  tokenising, injection scanning and chunking are inputs. The cache keys of the texts at hand are
  assumed not to collide in a way that matters: equal keys mean equal embeddings.
- Dense and keyword results are freshly built documents ranked one, two, three, as the evidence
  repository builds them (`backend/src/jst_api/db/repositories/evidence_repo.py:182-184`). They need
  not be free of repetition.
- Evidence ids are not empty.
- Region profiles have ratings in [0, 1], hours that are not negative and at least one gateway; their
  upper limits (`backend/src/jst_api/domain/region.py:25,58-60`) are assumed only where stated. Likewise
  the limit of 3000 minutes on a hop (`backend/src/jst_api/domain/route.py:51`).

## Model

| member | source | states |
|---|---|---|
| Choice.RevisionsAreImprovements | backend/src/jst_api/domain/revision.py:235-329 | End to end: any offered candidate, costed as a route with its nights and preferred to the original, has the original number of nights, strictly less transit in minutes, at least 0.05 + 0.35 per dropped stop fewer unrounded hours per night, and drops at most half of the droppable stops |
| Choice.ChosenRevisionSavesTime | backend/src/jst_api/domain/revision.py:307-329 | The same saving for any sound candidate that beats the margin, although both loads it compares were rounded to hundredths |
| Choice.ObjectiveIsExact | backend/src/jst_api/domain/revision.py:307-314 | Rounding the objective to four places loses nothing: it is the rounded load plus the drop penalty exactly |
| Choice.MarginInHundredths | backend/src/jst_api/domain/revision.py:317-329 | Beating the 0.05 margin on loads rounded to hundredths forces an unrounded saving of at least the margin plus the penalties |
| Choice.BetterPlanSavesTime | backend/src/jst_api/domain/revision.py:317-329 | A sound plan, costed with its own nights, that beats the margin keeps the nights and saves the required hours per night |
| Choice.ScoreCandidate | backend/src/jst_api/domain/revision.py:307-314 | An uncosted candidate scores infinity and keeps its stored objective; any other stores and returns its objective |
| Choice.LeastCandidate | backend/src/jst_api/domain/revision.py:324 | One pass scores every candidate and returns one of them that is least by objective, then dropped stops, then strategy |
| Choice.ChooseBest | backend/src/jst_api/domain/revision.py:317-329 | Returns a costed candidate that beats the margin and is least among all costed ones, and nothing exactly when no candidate beats the margin |
| Choice.PreferredIff | backend/src/jst_api/domain/revision.py:307-329 | A costed candidate beats the route as it stands if and only if its load in whole hundredths of an hour a night, plus thirty-five for each dropped stop, comes to more than five less |
| Choice.LeadsIff | backend/src/jst_api/domain/revision.py:324 | One candidate leads another with a lower objective, or else fewer dropped stops, or else the strategy name that is smaller at the first difference |
| RevisionLaws.CandidatesAreSound | backend/src/jst_api/domain/revision.py:235-300 | Every candidate offered keeps nights, first and last stop, invents no stop, drops at most half of the interior overnight stops, has as many stops as nights and at least two; drops and folds add no change of bed and no one-night stay; reorders are permutations; at most eight, pairwise different |
| RevisionCompleteness.ConsideredIff | backend/src/jst_api/domain/revision.py:243-289 | Exactly these are considered: each top stop dropped alone if one may go, any two of them if two may, each leaving two stops; the fold within the limit; and on a backtracking route the reorder if it changes the order |
| RevisionCompleteness.SingleDropsAreOffered | backend/src/jst_api/domain/revision.py:251-258 | Dropping any one of the stops that save most, if it leaves two stops, is always among those offered |
| RevisionCompleteness.EarlyIsOffered | backend/src/jst_api/domain/revision.py:291-300 | Each of the first eight candidates considered has its plan offered, whatever follows |
| RevisionCompleteness.AllOfferedIff | backend/src/jst_api/domain/revision.py:291-300 | Every plan considered is offered if and only if at most eight of them are different |
| RevisionCompleteness.LongRoutesAreOfferedDropsOnly | backend/src/jst_api/domain/revision.py:243-300 | With four stops or more that may go, all named differently, the eight offered are the four single drops and the first four pairs, so the fold and the reorder never are |
| RevisionLaws.DropIsSound | backend/src/jst_api/domain/revision.py:134-164 | A drop within the half limit is such a plan |
| RevisionLaws.SomeStopSurvives | backend/src/jst_api/domain/revision.py:130-131 | Dropping at most half of the interior overnight stops always leaves one of them |
| RevisionLaws.ConsolidationIsSound | backend/src/jst_api/domain/revision.py:274-280 | The fold, when offered, is such a plan |
| RevisionLaws.ReorderIsSound | backend/src/jst_api/domain/revision.py:282-289 | The reorder, when offered, is such a plan |
| RevisionLaws.ReorderPermutes | backend/src/jst_api/domain/revision.py:206-232 | Nearest-neighbour order visits every stop once, with the endpoints pinned |
| RevisionLaws.AlwaysToTheNearest | backend/src/jst_api/domain/revision.py:218-227 | At every point the next stop is as near to the last one as any still to be visited |
| RevisionLaws.UniqueRepresentsAll | backend/src/jst_api/domain/revision.py:291-300 | Removing duplicates loses no plan: every candidate has an equal one among those left |
| RevisionLaws.UniqueHasNoDuplicates | backend/src/jst_api/domain/revision.py:291-300 | No two candidates left have the same stops and nights |
| Revision.GenerateCandidates | backend/src/jst_api/domain/revision.py:235-300 | Single drops, pair drops, fold and reorder in that order, without duplicates, cut at eight |
| Revision.ReorderForEfficiency | backend/src/jst_api/domain/revision.py:206-232 | Offered exactly when there are four stops or more, all are located and the order changes; then always on to the nearest stop not yet visited |
| Revision.NearestNeighbour | backend/src/jst_api/domain/revision.py:220-227 | The loop always goes on to the first nearest remaining stop |
| Revision.Deduplicate | backend/src/jst_api/domain/revision.py:291-300 | Keeps the first candidate of each group with equal stops and nights |
| Revision.OfferPairDrops | backend/src/jst_api/domain/revision.py:260-272 | One candidate for every pair of the top stops that leaves two stops or more |
| Revision.TopIsDroppable | backend/src/jst_api/domain/revision.py:247-249 | Every stop ranked for dropping is an interior overnight stop |
| Revision.TopSavesMost | backend/src/jst_api/domain/revision.py:243-249 | A droppable stop is left out only when four are taken, and saves no more than any of those taken |
| Revision.HalfMayGo | backend/src/jst_api/domain/revision.py:130-131 | At most half of the interior overnight stops may go, rounded down |
| Revision.SavingInMinutes | backend/src/jst_api/domain/revision.py:116-122 | A drop saves the minutes of the hops at the stop less the bypass: 35 minutes, and a minute a kilometre up to 120 km, a half up to 600, two fifths beyond |
| Revision.TouchingWithout | backend/src/jst_api/domain/revision.py:111-114 | Every hop to or from the stop counts once with all its minutes, and no other hop counts |
| Dropping.DropStops | backend/src/jst_api/domain/revision.py:134-164 | Nothing when fewer than two stops would remain; otherwise the kept stops with the freed nights handed out, and the names dropped |
| Dropping.Redistribute | backend/src/jst_api/domain/revision.py:152-162 | For any cost of reaching a stop, each freed night goes to the recipient with the fewest nights at that moment, cheapest to reach and then earliest among equals |
| BurdenLaws.NextNightGoesTo | backend/src/jst_api/domain/revision.py:157-161 | Against every other recipient the one picked has fewer nights, or as many at a smaller burden, or the same of both and comes earlier |
| BurdenLaws.RecipientsIff | backend/src/jst_api/domain/revision.py:149-151 | The recipients are exactly the kept overnight stops that are neither end of the route, or all kept overnight stops when there is no such stop |
| BurdenLaws.DropConservesIff | backend/src/jst_api/domain/revision.py:134-164 | Any drop whatever keeps the total number of nights if and only if some overnight stop is kept or no night is freed |
| BurdenLaws.BurdenIsShared | backend/src/jst_api/domain/revision.py:88-96 | The burden is the hours of the first hop in and the first hop out, shared by the nights of the stop |
| BurdenLaws.ArrivalIs | backend/src/jst_api/domain/revision.py:93 | The hop in is the first that arrives at the stop, and none counts nought |
| BurdenLaws.DepartureIs | backend/src/jst_api/domain/revision.py:94 | The hop out is the first that leaves the stop, and none counts nought |
| Dropping.Partition | backend/src/jst_api/domain/revision.py:136-138 | Splits the stops, in order, into kept and dropped |
| DroppingLaws.DropConservesNights | backend/src/jst_api/domain/revision.py:134-164 | Whenever some droppable stop stays, a drop keeps the total number of nights |
| DroppingLaws.DropIsMaxMinFair | backend/src/jst_api/domain/revision.py:149-162 | No other way of handing the freed nights to the same recipients leaves a longer shortest stay |
| DroppingLaws.DropIsFairAtEveryLevel | backend/src/jst_api/domain/revision.py:149-162 | For every length t, no other way of handing the freed nights to the same recipients adds up to more when each stay is counted up to t only |
| DroppingLaws.DropKeepsEndpoints | backend/src/jst_api/domain/revision.py:143-150 | First and last stop stay, with exactly their nights |
| DroppingLaws.DropAddsNoChurn | backend/src/jst_api/domain/revision.py:134-164 | A drop never adds a change of bed or a one-night stay |
| DroppingLaws.HandOutConserves | backend/src/jst_api/domain/revision.py:155-162 | Every night handed out lands on exactly one stop |
| DroppingLaws.HandOutOnlyTo | backend/src/jst_api/domain/revision.py:155-162 | Nobody loses a night, and stops that are not recipients gain none |
| DroppingLaws.HandOutIsFair | backend/src/jst_api/domain/revision.py:155-162 | At every point a stop that has been topped up is at most one night above every recipient |
| DroppingLaws.InteriorRecipients | backend/src/jst_api/domain/revision.py:149-150 | When some droppable stop stays, the recipients are interior overnight stops and there is at least one |
| Redistribution.BalancedIsMaxMin | backend/src/jst_api/domain/revision.py:152-162 | In particular such levels maximise the least one |
| Redistribution.BalancedIsFairAtEveryLevel | backend/src/jst_api/domain/revision.py:152-162 | Levels in which whoever was topped up is at most one above everybody have, at every cut t, the largest sum of levels counted up to t among all distributions of the same nights |
| Consolidation.ConsolidateOneNighters | backend/src/jst_api/domain/revision.py:167-203 | Four empty lists when there is no run; otherwise the folded stops and nights, the names dropped and the names of the bases |
| Consolidation.FindRuns | backend/src/jst_api/domain/revision.py:170-180 | The loop finds the maximal runs of two or more interior single nights, in order |
| Consolidation.RunsAreMaximal | backend/src/jst_api/domain/revision.py:170-180 | What is found are maximal runs of at least two, disjoint and in order |
| Consolidation.RunsAreComplete | backend/src/jst_api/domain/revision.py:170-180 | Every maximal run of at least two is found |
| Consolidation.FoldRun | backend/src/jst_api/domain/revision.py:188-194 | Drops exactly the other stops of the run and adds one night to the base for each |
| Consolidation.FoldRuns | backend/src/jst_api/domain/revision.py:185-194 | After the loop every stop of a run but its base is dropped, and each base has the extra nights of its run |
| BurdenLaws.BaseIsCheapest | backend/src/jst_api/domain/revision.py:186-188 | The base of a run has the least burden of the run, and is the first that does |
| BurdenLaws.FoldedAwayIff | backend/src/jst_api/domain/revision.py:188-200 | A stop is reported as dropped if and only if it is in a folded run and not its base |
| BurdenLaws.MergedAre | backend/src/jst_api/domain/revision.py:185-203 | The names reported as merged are those of the bases, run by run |
| ConsolidationLaws.FoldingConservesNights | backend/src/jst_api/domain/revision.py:167-203 | Folding keeps the total number of nights |
| ConsolidationLaws.FoldingKeepsEndpoints | backend/src/jst_api/domain/revision.py:167-203 | First and last stop are untouched, and two stops or more stay two or more |
| ConsolidationLaws.RunBecomesOneStop | backend/src/jst_api/domain/revision.py:188-201 | Each maximal run becomes one of its own stops, holding all its nights |
| ConsolidationLaws.OtherStopsAreUnchanged | backend/src/jst_api/domain/revision.py:196-201 | A stop outside every run is kept with its nights |
| ConsolidationLaws.FoldingAddsNoChurn | backend/src/jst_api/domain/revision.py:167-203 | Folding never adds a change of bed or a one-night stay |
| ConsolidationLaws.OnePassIsEnough | backend/src/jst_api/domain/revision.py:167-203 | The folded route has no run left to fold |
| Cache.CapacityInclusion | backend/src/jst_api/core/cache.py:53-81 | On the same timed operations a cache with the larger capacity holds every entry the smaller one holds, in the same recency order, exceeds it by no more than the capacity gap, has hit at least as often, and answers whatever the smaller one answers with the same value |
| Cache.AgreesWithUnboundedMap | backend/src/jst_api/core/cache.py:45-85 | Every hit returns the latest value set for the key, neither deleted since nor expired; the size bound holds after every run; hits plus misses counts the reads |
| Cache.HitIsTheLastSet | backend/src/jst_api/core/cache.py:53-81 | Every hit, read off the operations alone: some set of the key gave this value, nothing after it set, deleted or cleared the key, and its own time-to-live, or the default for none or nought, has not passed |
| Cache.SetIsAnswered | backend/src/jst_api/core/cache.py:68-73 | With room for an entry, what is set is answered up to and including the instant its time-to-live ends, and not after |
| Cache.SetByDefault | backend/src/jst_api/core/cache.py:68-73 | Without a time-to-live, or with nought, the same with the default |
| Cache.HitsAreAnswers | backend/src/jst_api/core/cache.py:53-66 | Over any run hits count exactly the reads that were answered and misses the others |
| Cache.RecentEntrySurvives | backend/src/jst_api/core/cache.py:53-73 | An entry just set or read still answers, until it expires, after any run that leaves its key alone and sets or hits fewer distinct other keys than the capacity |
| Cache.EvictionIsStackDistance | backend/src/jst_api/core/cache.py:53-73 | Without deletions and expiries an entry is still there if and only if fewer distinct other keys than the capacity were used since |
| Cache.RunKeepsShape | backend/src/jst_api/core/cache.py:45-81 | Over any run keys stay unique and the size stays within the capacity |
| Cache.StepKeepsInclusion | backend/src/jst_api/core/cache.py:53-81 | Each single operation keeps the inclusion between two capacities |
| Cache.InMemoryCache.constructor | backend/src/jst_api/core/cache.py:45-51 | Starts empty, with both counters at zero |
| Cache.InMemoryCache.Get | backend/src/jst_api/core/cache.py:53-66 | Misses on an absent or expired key, deleting the expired entry; otherwise returns the value, moves the key to the recent end and counts a hit |
| Cache.InMemoryCache.Set | backend/src/jst_api/core/cache.py:68-73 | Stores at the recent end, to expire after the time-to-live given, or after the default when none or nought is given; then evicts |
| Cache.InMemoryCache.EvictOldest | backend/src/jst_api/core/cache.py:72-73 | The loop drops the least recently used entries until the bound holds |
| Cache.InMemoryCache.Delete | backend/src/jst_api/core/cache.py:75-77 | Removes the key, if present, and nothing else |
| Cache.InMemoryCache.Clear | backend/src/jst_api/core/cache.py:79-81 | Empties the cache and keeps the counters |
| Route.AccommodationChanges | backend/src/jst_api/domain/route.py:94-105 | The loop counts how often two consecutive overnight stays have different beds |
| RuleThresholds.LoadIs | backend/src/jst_api/domain/route.py:149-168 | Every field of the travel load against the route: counts exactly, hours to a hundredth, the share and the detour to their own places |
| RuleThresholds.DominatedInMinutes | backend/src/jst_api/domain/route.py:149-168 | Dominated by travel if and only if thirteen times the minutes in transit exceed 4200 a night, without rounding |
| RuleThresholds.LongestIs | backend/src/jst_api/domain/route.py:149-168 | The longest hop is one of the hops and none is longer |
| RouteHealth.HealthIsMonotone | backend/src/jst_api/domain/route_rules.py:101-484 | Slowing hops and shortening stays, none of them to nothing, never improves the grade and never removes a critical issue, across every rule, the load with its roundings and the grading |
| RouteHealth.RuleNoBetter | backend/src/jst_api/domain/route_rules.py:101-463 | Rule by rule: the harder trip has at least as many critical issues, and at least as many critical or warning issues |
| RouteHealth.HealthyIffEveryRuleIsQuiet | backend/src/jst_api/domain/route_rules.py:466-484 | The grade is healthy if and only if no registered rule reports a warning or worse |
| RouteHealth.GradeMeans | backend/src/jst_api/domain/route_rules.py:475-484 | For any list of issues: high risk if and only if two of them are critical, healthy if and only if none is critical or a warning |
| RuleThresholds.ReportedIff | backend/src/jst_api/domain/route_rules.py:466-472 | An issue is reported if and only if one of the eleven rules raises it |
| RuleThresholds.ChurnInCounts | backend/src/jst_api/domain/route_rules.py:147-180 | Changes of bed, in counts: silent up to two single nights and three changes in five nights, critical from five single nights on, a warning between |
| RuleThresholds.BacktrackingInKilometres | backend/src/jst_api/domain/route_rules.py:185-207 | Doubling back: a warning if and only if three stops are located, the ends are 25 km apart and the path is over 1.6005 times that |
| RuleThresholds.DepartureInFull | backend/src/jst_api/domain/route_rules.py:212-241 | The last hop before a departure city: a warning from 300 minutes on, critical from 390 |
| RuleThresholds.CarInCounts | backend/src/jst_api/domain/route_rules.py:246-269 | Critical if and only if the trip is by public transport only and the load counts a hop that needs a car |
| RuleThresholds.ConnectionInMinutes | backend/src/jst_api/domain/route_rules.py:274-317 | Leaving at ten, the last local departure must be 45 minutes after the stages before it; less is a warning, a missed one critical |
| RuleThresholds.ShareInMinutes | backend/src/jst_api/domain/route_rules.py:322-346 | Time in transit in whole minutes: a warning over 35.005 per cent of the usable time, critical over 45.005, the rounding to four places included |
| RuleThresholds.PaceInMinutes | backend/src/jst_api/domain/route_rules.py:351-379 | Pace: a warning over 120.3, 180.3 or 270.3 minutes in transit a night, the rounding to hundredths of an hour included |
| RuleThresholds.EfficientInMinutes | backend/src/jst_api/domain/route_rules.py:414-424 | A hop is praised if and only if it takes 180 minutes at most, has at most one change and ends in a night |
| RuleThresholds.PraiseIsCapped | backend/src/jst_api/domain/route_rules.py:414-437 | At most four hops are praised, the first ones |
| RuleThresholds.BurdenReports | backend/src/jst_api/domain/route_rules.py:101-142 | Hop by hop, by its minutes and the nights at its end: the limits of the burden rule |
| RuleThresholds.PerSegmentReports | backend/src/jst_api/domain/route_rules.py:101-142 | A rule that goes hop by hop reports one issue, with its severity, for each hop it objects to, in travel order |
| StayLength.LengtheningIsSafeIff | backend/src/jst_api/domain/route_rules.py:101-484 | For n < m, making a stay of n nights one of m never worsens the grade, on any route, stop and trip with hops within the limit of 3000 minutes, if and only if n is not nought or m is at least six |
| StayLength.FirstNightCanHurt | backend/src/jst_api/domain/route_rules.py:101-144 | For each of one to five nights, a route is healthy while it passes through a stop and no longer is with that many nights there |
| StayLength.LongFirstStayIsSafe | backend/src/jst_api/domain/route_rules.py:101-484 | A first stay of six nights or more never worsens the grade: no hop is too long for it, and it absorbs the two changes of bed it can add |
| StayLength.LongerStayIsSafe | backend/src/jst_api/domain/route_rules.py:101-484 | Lengthening a stay that already has a night never worsens the grade, however long the hops |
| StayLength.ChurnAbsorbed | backend/src/jst_api/domain/route_rules.py:148-182 | Two changes of bed more over at least six nights more never make the churn rule more severe |
| RouteHealth.RoundedHoursThreshold | backend/src/jst_api/domain/route_rules.py:101-144 | Rounding hours to hundredths never moves a threshold that is a whole number of hundredths |
| RouteHealth.BurdenInMinutes | backend/src/jst_api/domain/route_rules.py:101-144 | The travel-burden rule in raw minutes: three and four hours for a single night, more than ten hours per further night otherwise |
| RouteHealth.DepartureInMinutes | backend/src/jst_api/domain/route_rules.py:212-243 | The departure rule in raw minutes: warning from 300, critical from 390 |
| RouteHealth.HarderRouteLoad | backend/src/jst_api/domain/route_rules.py:101-463 | A harder trip has at least the transit hours, the hours per night and the transit share, and no less churn |
| RouteRules.JudgeSegments | backend/src/jst_api/domain/route_rules.py:101-144 | The loop of the per-segment rules reports one issue for each segment the rule objects to, in travel order |
| RouteRules.RunRules | backend/src/jst_api/domain/route_rules.py:466-472 | All rules in registration order over one travel load, and that load |
| Metrics.NdcgIsBounded | evals/runners/common.py:60-79 | For duplicate-free results and a primary source that is relevant or absent, 0 <= DCG <= ideal DCG and NDCG is in [0, 1], for any positive non-increasing discount |
| Metrics.NdcgIsOneIffIdeal | evals/runners/common.py:60-79 | With a strictly falling discount NDCG is 1 if and only if the gains found are the ideal ones in order |
| Metrics.FirstResultScores | evals/runners/common.py:60-79 | At a cut-off of one a list scores one for the primary source first, a half for another relevant one, and nothing otherwise |
| Metrics.NdcgIsShare | evals/runners/common.py:73-79 | When there is something to find, NDCG times the ideal discounted gain, which is positive, is the discounted gain found |
| Metrics.GainCountsAtItsPlace | evals/runners/common.py:74-78 | Each gain enters the sum with the discount of its own place |
| Metrics.BoundedIffPrimaryIsRelevant | evals/runners/common.py:60-79 | For a question, NDCG is within 1 for all duplicate-free lists if and only if the primary source is relevant or absent, or nothing is relevant, or the cut-off is nought |
| Metrics.StrayPrimaryScoresAboveOne | evals/runners/common.py:71-79 | A primary source outside the relevant set, retrieved first, scores above 1 |
| Metrics.RepeatedResultScoresAboveOne | evals/runners/common.py:60-79 | Any result that repeats an id within the cut-off scores above 1 for the question to which exactly its own ids are relevant |
| Metrics.BoundedIffNoRepeats | evals/runners/common.py:60-79 | For a given result NDCG stays within 1 for all questions whose primary source is relevant or absent if and only if no id is repeated within the cut-off |
| Metrics.NdcgIgnoresListingOrder | evals/runners/common.py:76-79 | NDCG does not depend on the order in which the relevant set is iterated |
| Metrics.TopGainsAreBest | evals/runners/common.py:77-78 | No j distinct items gain more than the j best relevant ones |
| Metrics.SurplusByParts | evals/runners/common.py:76-79 | Summation by parts: prefix domination carries over to every discounted sum |
| Fusion.ReciprocalRankFusion | backend/src/jst_api/knowledge/fusion.py:30-56 | The accumulating loops and the sort return each id with the sum of its shares, its ranks and its contributions, best first |
| Fusion.AccumulateList | backend/src/jst_api/knowledge/fusion.py:43-50 | After each list the dictionary holds exactly the ids seen, each with the entry the reference sum gives it |
| FusionScores.ResultsAreAccounted | backend/src/jst_api/knowledge/fusion.py:43-50 | Every result carries a contribution for exactly the retrievers that ranked it, each equal to the weight, or one without a weight, over k plus the rank |
| FusionScores.ResultsAreOrdered | backend/src/jst_api/knowledge/fusion.py:53-56 | Of two results the earlier has the higher score, or else the better single rank, or else the id that is smaller at the first difference |
| FusionScores.AgreementOutscoresIff | backend/src/jst_api/knowledge/fusion.py:43-50 | With equal positive weights, ranks in two lists outscore one rank in one of them if and only if the fractions, cleared, say so |
| FusionScores.AgreementBeatsOneRank | backend/src/jst_api/knowledge/fusion.py:30-56 | A document at rank r of both lists comes before one at rank t of one alone if k + r is less than twice k + t, and after it if it is more |
| FusionLaws.FuseIsDistinctUnion | backend/src/jst_api/knowledge/fusion.py:30-56 | The result is the duplicate-free union of the lists, sorted, each id with its own score, ranks and contributions |
| FusionLaws.ScoreIsSumOfContributions | backend/src/jst_api/knowledge/fusion.py:43-50 | For duplicate-free lists the score is the sum of the contributions reported with it |
| FusionLaws.FuseIgnoresRetrieverOrder | backend/src/jst_api/knowledge/fusion.py:36-56 | The result does not depend on the order in which the retrievers are listed |
| FusionLaws.BetterEverywhereComesFirst | backend/src/jst_api/knowledge/fusion.py:30-56 | A document that every retriever returning e ranks above e comes out before e, for any non-negative weights |
| FusionLaws.RaisingNeverLowers | backend/src/jst_api/knowledge/fusion.py:30-56 | Raising a document one place in one list never lowers its place in the result |
| Hybrid.Retrieve | backend/src/jst_api/knowledge/retrievers.py:182-218 | The best min(k, n) of the n fused ids come back in fused order, each as one of the retrieved documents carrying the rank either retriever gave it (absent if it did not return it), the rounded score, the fused ranks and the hybrid mark |
| Hybrid.MergeAll | backend/src/jst_api/knowledge/retrievers.py:188-201 | One document per id, the first one, with the latest rank each retriever reported |
| Hybrid.Document.MergeProvenance | backend/src/jst_api/knowledge/retrievers.py:194-201 | Takes over the other copy's ranks where it has them, and keeps its own otherwise |
| Hybrid.Collect | backend/src/jst_api/knowledge/retrievers.py:210-218 | In fused order every one of the best k ids yields its own document: the skip for a missing document never happens |
| Hybrid.FusedIsTheUnion | backend/src/jst_api/knowledge/retrievers.py:188-208 | The fused list has as many entries as the two retrievers returned distinct ids, and names exactly those |
| Hybrid.FusedIdsAreKnown | backend/src/jst_api/knowledge/retrievers.py:203-213 | Every fused id was returned by a retriever, and no id is fused twice |
| Hybrid.RankIffReturned | backend/src/jst_api/knowledge/retrievers.py:188-201 | A rank is present if and only if that retriever returned the id, and is its place in that list |
| Hybrid.ProvenanceAgrees | backend/src/jst_api/knowledge/retrievers.py:210-217 | The fused ranks name only the two retrievers and agree with the two rank fields |
| ContextLaws.EveryDocumentIsAccountedFor | backend/src/jst_api/knowledge/context.py:104-157 | Quarantined, duplicate, over budget and included together are exactly the documents given, each once |
| ContextLaws.IncludedIsTheLongestFit | backend/src/jst_api/knowledge/context.py:132-155 | What is included is a prefix of the deduplicated list, is what the block renders, fits the budget unless it is a single block, is empty only if nothing was left to include, and any longer prefix exceeds the budget |
| ContextLaws.LargerBudgetExtends | backend/src/jst_api/knowledge/context.py:132-155 | A larger budget only extends the included prefix |
| ContextLaws.KeptIsApart | backend/src/jst_api/knowledge/context.py:86-101 | No kept document is near an earlier kept one |
| ContextLaws.KeptIsSubseq | backend/src/jst_api/knowledge/context.py:86-101 | Deduplication only deletes and keeps the order |
| ContextLaws.DropsAreJustified | backend/src/jst_api/knowledge/context.py:92-98 | Every recorded duplicate was near the kept, higher-ranked document it names |
| ContextLaws.KeptWhenApart | backend/src/jst_api/knowledge/context.py:90-100 | A document is kept if and only if no document kept before it is near it |
| ContextLaws.DeduplicationIsIdempotent | backend/src/jst_api/knowledge/context.py:86-101 | Deduplicating again changes nothing and drops nothing |
| ContextLaws.NearIsSymmetric | backend/src/jst_api/knowledge/context.py:50-53 | Being near does not depend on which of the two documents came first |
| ContextLaws.NearIff | backend/src/jst_api/knowledge/context.py:49-53 | Two documents are near if and only if neither is empty and at least 82 in 100 of the windows of either are windows of both |
| ContextLaws.ShinglesAre | backend/src/jst_api/knowledge/context.py:42-46 | The windows are exactly the runs of five tokens, or the whole of a shorter text |
| ContextLaws.SameTextIsNear | backend/src/jst_api/knowledge/context.py:42-53 | Documents with the same tokens, at least one, are near |
| ContextLaws.EvidenceDoesNotRepeat | backend/src/jst_api/knowledge/context.py:86-157 | No two documents of the assembled evidence have the same tokens, unless they have none |
| ContextLaws.EvidenceIsScreened | backend/src/jst_api/knowledge/context.py:113-130 | All evidence is of the documents given, not hostile, as it came or neutralised and flagged if suspicious |
| ContextLaws.QuarantinedIff | backend/src/jst_api/knowledge/context.py:114-123 | The quarantine record holds exactly the hostile documents with the rules they matched |
| ContextLaws.NoticeIff | backend/src/jst_api/knowledge/context.py:132-157 | There is no evidence if and only if every document given is hostile |
| ContextLaws.JoinedConcat | backend/src/jst_api/knowledge/context.py:156 | Blocks are set apart by one blank line |
| ContextLaws.EstimateTracksLength | backend/src/jst_api/knowledge/context.py:38-39 | The token estimate of what is rendered is a token per four characters, up to a token a block above and three characters a block below |
| Context.AssembleEvidenceContext | backend/src/jst_api/knowledge/context.py:104-157 | Quarantine, deduplication and filling to the budget, with the audit of each, and the fenced block: the rendered evidence, or the notice that there is none |
| Context.Deduplicate | backend/src/jst_api/knowledge/context.py:86-101 | For any nearness, the kept documents and the pairs (dropped, kept) of the reference definition |
| Context.FindDuplicate | backend/src/jst_api/knowledge/context.py:92-95 | The first kept document near this one, if any |
| Context.Quarantine | backend/src/jst_api/knowledge/context.py:113-128 | Quarantined documents are recorded with their rules and removed; suspicious ones are neutralised and flagged |
| Context.FillToBudget | backend/src/jst_api/knowledge/context.py:135-154 | Stops at the first block that would not fit after at least one, having used the cost of what it took, and keeps those blocks in order |
| Resilience.BreakerTracksHistory | backend/src/jst_api/core/resilience.py:45-132 | After any run of calls the breaker holds exactly the failures in a row since the last success or cooldown, and has been open since the last of them if they reached the threshold |
| Resilience.OpenMeansThresholdReached | backend/src/jst_api/core/resilience.py:65-73 | Open and threshold reached are the same after every run if the threshold is at least 1, and differ from the start otherwise |
| Resilience.CallsWaitForCooldown | backend/src/jst_api/core/resilience.py:55-63 | A call is refused if and only if the failures in a row have reached the threshold and less than a cooldown has passed since the last of them |
| Resilience.FailuresAreAmortised | backend/src/jst_api/core/resilience.py:76-132 | At every point of every run at most threshold - 1 + max_attempts attempts have failed in a row |
| Resilience.AmortisedBoundIsReached | backend/src/jst_api/core/resilience.py:76-132 | That bound is reached: some run ends with exactly so many failures in a row |
| Resilience.TriesBounded | backend/src/jst_api/core/resilience.py:92-128 | A call makes at most max_attempts attempts |
| Resilience.SuccessSkipsTheCooldown | backend/src/jst_api/core/resilience.py:65-67 | With two attempts or more and a positive cooldown, a success inside the call that opened the breaker closes it on the spot: in some run with a forward clock the next call gets through at the instant of the opening |
| Resilience.CooldownIsRespectedIff | backend/src/jst_api/core/resilience.py:55-132 | For a positive cooldown and forward starts, no call in any run gets through within a cooldown of an opening if and only if a call makes at most one attempt |
| Resilience.CallWithResilience | backend/src/jst_api/core/resilience.py:76-132 | Refused without an attempt while open; otherwise retries transient failures up to the limit, returns the reply of the last attempt made, and leaves the breaker as recording those attempts leaves it; a cancelled attempt ends the call and records nothing |
| Resilience.AttemptsMade | backend/src/jst_api/core/resilience.py:92-128 | An attempt is followed by another if and only if it timed out or failed transiently and attempts are left |
| Resilience.ReplyIs | backend/src/jst_api/core/resilience.py:92-132 | The caller sees what the last attempt came to; a timeout or a transient failure only when it was the last allowed |
| Resilience.CallLeaves | backend/src/jst_api/core/resilience.py:65-128 | A call that gets through leaves the breaker closed after a success, one failure more for each failed attempt otherwise, and none for a cancelled one; it is open since the last failure if they reach the threshold |
| Resilience.CircuitBreaker.IsOpen | backend/src/jst_api/core/resilience.py:55-63 | Reading it closes a breaker whose cooldown is over and forgets its failures |
| Resilience.CircuitBreaker.RecordSuccess | backend/src/jst_api/core/resilience.py:65-67 | Closes and forgets |
| Resilience.CircuitBreaker.RecordFailure | backend/src/jst_api/core/resilience.py:69-73 | One failure more, and open from this moment once they reach the threshold |
| RateLimit.EveryWindowIsBounded | backend/src/jst_api/security/ratelimit.py:54-65 | With a clock that never goes back, every closed interval as long as the window, wherever it starts, holds at most limit admitted units per key |
| RateLimit.RefusedExactlyWhenFull | backend/src/jst_api/security/ratelimit.py:54-65 | A request is refused if and only if admitting it would overfill the window that ends now |
| RateLimit.PruneKeepsWindow | backend/src/jst_api/security/ratelimit.py:57-58 | Pruning leaves exactly the entries not older than the window |
| RateLimit.FixedWindowDoublesTheLimit | backend/src/jst_api/security/ratelimit.py:42-52 | The fixed-window form lets at most twice the limit into an interval of one window, under any clock |
| RateLimit.DoubleBurstIsAdmitted | backend/src/jst_api/security/ratelimit.py:42-52 | In any interval that meets two windows, bursts of the full limit at its two ends are both admitted, under a forward clock |
| RateLimit.IntervalIsSafeIffInOneWindow | backend/src/jst_api/security/ratelimit.py:42-52 | An interval holds at most limit admitted units in every run of non-negative costs if and only if it lies in one fixed window or the limit is nought |
| RateLimit.FixedAdmitsIff | backend/src/jst_api/security/ratelimit.py:42-52 | The fixed window admits a request if and only if it and everything asked before it in its window, admitted or not, come to no more than the limit |
| RateLimit.OversizeLocksOut | backend/src/jst_api/security/ratelimit.py:42-52 | One request over the limit, itself refused, has every later one of its window refused |
| RateLimit.WindowLongIntervalsOverrun | backend/src/jst_api/security/ratelimit.py:42-52 | In every interval one window long, wherever it starts, twice a positive limit can be admitted |
| RateLimit.FixedWindowIsBounded | backend/src/jst_api/security/ratelimit.py:42-52 | Each fixed window admits at most limit units per key when no cost is negative |
| RateLimit.RateLimiter.CheckLocal | backend/src/jst_api/security/ratelimit.py:54-65 | Prunes the key's log, admits if the cost still fits and then appends it, and touches no other key |
| RateLimit.RateLimiter.Reset | backend/src/jst_api/security/ratelimit.py:67-68 | Forgets every key |
| Embeddings.EmbedDocuments | backend/src/jst_api/providers/embeddings.py:164-187 | With any sound cache, hit pattern and eviction: every text's embedding in order, after one provider call per sixty-four misses, or the provider's error at the first call that fails; the cache stays sound and has seen exactly the lookups and then the stores of all missing texts, or after an error of the batches before the failing call |
| Embeddings.LookUp | backend/src/jst_api/providers/embeddings.py:167-175 | Looks the texts up in order, fills the hits with right values and lists the misses |
| Embeddings.FillBatch | backend/src/jst_api/providers/embeddings.py:177-185 | Writes the vectors of a batch to their positions and caches each of them |
| Embeddings.FillAll | backend/src/jst_api/providers/embeddings.py:177-185 | Batches of sixty-four until everything is filled: exactly the ceiling of misses by sixty-four calls, or up to the first failing one |
| Embeddings.Unwrap | backend/src/jst_api/providers/embeddings.py:187 | The zero-vector fallback is never used |
| Embeddings.EmbedQuery | backend/src/jst_api/providers/embeddings.py:189-190 | The query's own embedding; the provider's error if and only if the query was not cached and the one call for it failed |
| Embeddings.PutKeepsSound | backend/src/jst_api/providers/embeddings.py:180-185 | Storing an answer keeps the cache sound when texts that share a key share their embedding |
| EmbeddingLaws.LookupsDoNotInterfere | backend/src/jst_api/providers/embeddings.py:169-175 | With a forward clock a text misses if and only if the cache as it stood at the start does not answer it, whatever was looked up before |
| EmbeddingLaws.StoredForThirtyDays | backend/src/jst_api/providers/embeddings.py:180-185 | A stored vector is answered for thirty days, to the second |
| EmbeddingLaws.CallsAre | backend/src/jst_api/providers/embeddings.py:177-179 | The number of calls is the least that covers the misses at sixty-four a call |
| EmbeddingLaws.RetryAsksForTheRest | backend/src/jst_api/providers/embeddings.py:164-187 | After a call that stored only the first of the missing texts, a retry asks for a text if and only if its key missed and was not stored, if the keys fit in the cache and nothing in it has expired |
| EmbeddingLaws.RepeatIsFree | backend/src/jst_api/providers/embeddings.py:124-187 | Embedding the same texts again asks the provider for nothing, if their keys fit in the cache and nothing in it has expired |
| EmbeddingLaws.EveryTextIsKept | backend/src/jst_api/providers/embeddings.py:164-187 | After a call that stored every missing text, the key of every text is in the cache if and only if the keys fit |
| ScoringLaws.ScoreIsBounded | backend/src/jst_api/domain/scoring.py:332-363 | The score is within [0, 100]; any hard failure holds it to 38 and to not recommended; otherwise the label comes from the unrounded score |
| Rubric.FailuresIff | backend/src/jst_api/domain/scoring.py:123-178 | Each constraint fails exactly when its own condition on the trip and the region holds, and is reported once |
| Rubric.TransitFailsIff | backend/src/jst_api/domain/scoring.py:154-168 | The transfer is too long if and only if 18, 13 or 9 times its hours one way, by pace, exceed 35 a night |
| Rubric.LabelIff | backend/src/jst_api/domain/scoring.py:325-363 | Without failures the labels start at 72, 58 and 42 of the unrounded score |
| Rubric.CutIff | backend/src/jst_api/domain/scoring.py:349-363 | With a failure the score is kept up to 38 and cut to 38 above it |
| Rubric.WeightsAre | backend/src/jst_api/domain/scoring.py:87-89 | Each component moves the score by its own weight: 24, 22, 16, 16, 12, 6 and 4 |
| Rubric.RankedInOrder | backend/src/jst_api/domain/scoring.py:366-369 | Of two ranked regions the earlier scores more, or as much under a code smaller at the first difference |
| Rubric.EveryRegionIsRanked | backend/src/jst_api/domain/scoring.py:366-369 | The ranking holds the score of every region given, as often as it was given |
| ScoringLaws.ShorterAccessHelps | backend/src/jst_api/domain/scoring.py:123-223 | Pointwise shorter gateway times never lower a score or a label and never eliminate a region |
| ScoringLaws.FailuresNoFarther | backend/src/jst_api/domain/scoring.py:123-178 | With shorter gateway times no constraint fails that did not fail before |
| ScoringLaws.RankIgnoresInputOrder | backend/src/jst_api/domain/scoring.py:366-369 | The ranking is the scores sorted, best first and then by code, and the same for any input order of distinct codes |
| ScoringLaws.SurvivorsAboveTheCapComeFirst | backend/src/jst_api/domain/scoring.py:349-369 | A region without failures that scores above 38 is never ranked behind an eliminated one |
| ScoringLaws.NoEliminatedAheadIff | backend/src/jst_api/domain/scoring.py:349-369 | No eliminated region of another code is ever ranked before a given region if and only if that region scores above 38, or scores 38 and has the empty code |
| ScoringLaws.NoPublishedEliminatedAheadIff | backend/src/jst_api/domain/scoring.py:123-369 | The same among profiles within the limits of their fields: also if nothing can be eliminated on the trip |
| ScoringLaws.EliminationIffPossible | backend/src/jst_api/domain/scoring.py:123-178 | Some profile within the limits fails a hard constraint of the trip if and only if the trip has at most thirteen nights, has no car or needs step-free access |
| ScoringLaws.EliminatedMayOutrank | backend/src/jst_api/domain/scoring.py:349-369 | Any region not out of reach is outranked by an eliminated region of another code, given a minimum stay that eliminates on the trip |
| ScoringLaws.UnsuitableReachesTheCap | backend/src/jst_api/domain/scoring.py:332-363 | A region at the gateway with perfect transport scores exactly 38 when it is eliminated, for access and transport alone reach the cap |
| ScoringLaws.NightsFitIsUnimodal | backend/src/jst_api/domain/scoring.py:184-201 | Nights fit rises up to the ideal stay and falls after it if and only if the ideal stay is longer than the minimum, or equals it and no longer stay is useful |
| Rubric.NightsBelowMinimum | backend/src/jst_api/domain/scoring.py:185-187 | Below the minimum stay nights fit is a half in proportion to it |
| Rubric.NightsUpToIdeal | backend/src/jst_api/domain/scoring.py:188-191 | From 0.7 at the minimum straight up to one at the ideal |
| Rubric.NightsPastIdeal | backend/src/jst_api/domain/scoring.py:192-195 | From one at the ideal straight down to 0.75 at the longest useful stay |
| Rubric.AccessAtEnds | backend/src/jst_api/domain/scoring.py:204-223 | Access is worth everything while nine times its hours are at most ten a night, and nothing from eleven times its hours at ninety a night on |
| Rubric.TransportByPreference | backend/src/jst_api/domain/scoring.py:226-248 | The public-transport score without a car, at least the floor with one, halfway to full marks when undecided |
| Rubric.UndecidedAboveDriverIff | backend/src/jst_api/domain/scoring.py:226-248 | An undecided traveller is scored above one who will drive if and only if public transport is above a half, or 0.7 where a car is recommended, but not perfect |
| Rubric.LuggageDiscount | backend/src/jst_api/domain/scoring.py:242-244 | Large luggage costs nothing in the friendliest region and fifteen per cent in the least friendly one |
| Rubric.InterestBlend | backend/src/jst_api/domain/scoring.py:262-269 | Seven tenths of the average match and three tenths of the worst one |
| Rubric.StrongestThemes | backend/src/jst_api/domain/scoring.py:252-257 | With no interests stated, the average of the region's three strongest themes, or of all if there are fewer |
| Rubric.NoveltyInTwentieths | backend/src/jst_api/domain/scoring.py:286-305 | Sixteen twentieths without history, three where the traveller has been, else 20, 15, 10 or 6 as nought, one, two or more themes repeat |
| Rubric.PracticalityAtEnds | backend/src/jst_api/domain/scoring.py:308-321 | Booking effort counts against a region; families lose up to a fifth and limited walkers up to two fifths of the rest |
| ScoringLaws.IdealNightsGetFullMarks | backend/src/jst_api/domain/scoring.py:184-201 | The ideal stay gets full marks if and only if it is longer than the minimum one |
| ScoringLaws.ComponentsAreUnits | backend/src/jst_api/domain/scoring.py:184-319 | Every component lies in [0, 1] |
| Rubric.FirstServing | backend/src/jst_api/domain/region.py:79-86 | The first gateway whose name contains the city's or is contained in it is taken; none without a city or such a gateway |
| Rubric.SeasonIs | backend/src/jst_api/domain/region.py:38-41 | The month's rating to four places, 0.6 for an unrated month and 0.7 without one |
| Rubric.NightsAllowed | backend/src/jst_api/domain/trip.py:76-87 | Without regional nights a third of the trip, rounded down, but two to seven; three when nothing is known |
| IngestLaws.NoSourceWaitsForNothing | backend/src/jst_api/knowledge/ingest.py:153-355 | Over any run of ingestion and embedding passes, with any outages, every source marked pending owns a chunk without a vector |
| IngestLaws.BacklogDrains | backend/src/jst_api/knowledge/ingest.py:305-355 | With no further ingestion and outages anywhere between the passes, n passes that find the provider up leave a backlog of P chunks at P - n * limit or nought: it is gone if and only if n is at least the ceiling of P by limit, and then no source is pending |
| IngestLaws.OutageLosesNothing | backend/src/jst_api/knowledge/ingest.py:243-291 | Storing a document puts all its chunk texts, in order, in place of the source's old ones, with vectors exactly when the provider is up, and touches no other source's chunks |
| IngestLaws.ReviewIff | backend/src/jst_api/knowledge/ingest.py:171-206 | A review is raised if and only if known content changed under facts somebody has verified |
| IngestLaws.FoundIff | backend/src/jst_api/knowledge/ingest.py:357-362 | A source is found by its address, or without one by title among the sources that have none |
| IngestLaws.StoredVectorsAreRight | backend/src/jst_api/knowledge/ingest.py:153-355 | Over any run a stored vector is the embedding of its own chunk's text |
| IngestLaws.IngestingAgainIsFree | backend/src/jst_api/knowledge/ingest.py:169-207 | Ingesting the same content again, unforced, changes nothing if and only if the address is not the empty string or the source was already known |
| IngestLaws.ChangedSourceOwes | backend/src/jst_api/knowledge/ingest.py:193-258 | A known document that changed during an outage stays changed and owes vectors without being pending |
| IngestLaws.PendingIffOwingUnchanged | backend/src/jst_api/knowledge/ingest.py:153-355 | After any run in which every ingested document has text, a source is pending if and only if it owes a vector and is not changed |
| IngestLaws.PersistPaysUpIff | backend/src/jst_api/knowledge/ingest.py:169-291 | Where no active source owes a vector, ingesting a document keeps it so if and only if it does not mark an owing source active with a document that has no text |
| IngestLaws.EmbeddingPaysUp | backend/src/jst_api/knowledge/ingest.py:305-355 | An embedding pass, with the provider up or down, never makes an active source owe a vector |
| IngestLaws.EmptyDocumentHidesDebt | backend/src/jst_api/knowledge/ingest.py:193-241 | A document ingested during an outage, then one without text at the same address, then that one forced: the source is active and still owes the first one's vectors |
| IngestLaws.PassFills | backend/src/jst_api/knowledge/ingest.py:311-328 | One pass fills the first limit chunks without a vector, or all of them |
| IngestLaws.CompletedIff | backend/src/jst_api/knowledge/ingest.py:331-341 | A pass turns a source active if and only if it was pending, had a chunk filled and owes nothing more |
| Ingest.IngestionService.Persist | backend/src/jst_api/knowledge/ingest.py:153-303 | New, unchanged, changed and forced documents, with their review, status and chunks; skipped exactly when known, unchanged and not forced |
| Ingest.IngestionService.StoreChunks | backend/src/jst_api/knowledge/ingest.py:233-291 | Replaces the source's chunks whether or not the provider is up, marking the source pending when it is down and the source is not changed |
| Ingest.IngestionService.DeleteChunks | backend/src/jst_api/knowledge/ingest.py:261-263 | Removes exactly this source's chunks and keeps the order of the others |
| Ingest.IngestionService.EmbedPending | backend/src/jst_api/knowledge/ingest.py:305-355 | Fills the first limit chunks without a vector, activates the pending sources that owe nothing more, and reports the three counts; raises without any change while the provider is down and there is work |
| Ingest.IngestionService.FillSelected | backend/src/jst_api/knowledge/ingest.py:326-328 | Every selected chunk gets its own embedding and no other chunk changes |
| Ingest.IngestionService.CompleteSources | backend/src/jst_api/knowledge/ingest.py:331-341 | In any visiting order the touched pending sources that owe nothing become active, and are counted |
| Ingest.IngestionService.Find | backend/src/jst_api/knowledge/ingest.py:357-362 | The first source with the address, or with the title and no address when none is given |
| Ids.Encode | backend/src/jst_api/core/ids.py:11-16 | The digits produced from the least significant end and reversed are the fixed-width base-32 numeral |
| Ids.NewId | backend/src/jst_api/core/ids.py:19-24 | The time part, the random part and the prefix, if any, in that order |
| Ids.EncodingRoundTrip | backend/src/jst_api/core/ids.py:11-16 | Reading the digits back gives n modulo 32^width |
| Ids.EncodingOrder | backend/src/jst_api/core/ids.py:11-16 | Two encodings sort as their numbers modulo 32^width do, and are equal only when those are |
| Ids.IdsFollowTheClock | backend/src/jst_api/core/ids.py:19-24 | Two ids sort by their clock readings modulo 2^40 milliseconds, and by their random parts modulo 2^40 when these agree; nothing is assumed of either |
| Ids.ClockAloneDecidesIff | backend/src/jst_api/core/ids.py:19-24 | One id sorts before another whatever their random parts if and only if its clock reads less modulo 2^40 |
| Ids.SameMillisecondSortsAtRandom | backend/src/jst_api/core/ids.py:19-24 | Of two ids of one millisecond either may sort first: with random parts nought and one the smaller part decides |
| Ids.PrefixKeepsOrder | backend/src/jst_api/core/ids.py:19-24 | Ids under a common prefix sort as they do without it |
| Ids.SameEraSortsByTime | backend/src/jst_api/core/ids.py:19-24 | Within one era of 2^40 milliseconds ids sort by their millisecond, and by their random parts modulo 2^40 within one millisecond |
| Ids.NextEraStartsOver | backend/src/jst_api/core/ids.py:19-24 | The first id of an era sorts before the last of the era before it |
| Ids.CollisionNeedsBoth | backend/src/jst_api/core/ids.py:19-24 | Two ids are equal if and only if the random bits agree and the clocks agree modulo an era |

## Left out

- Explanatory text: titles, explanations, evidence lines and signals of issues, components and
  revisions. Rules keep their identity and severity, components their value.
- Strategy names of drop candidates come from a given labelling of stops rather than from slugs; the
  names of the other two are fixed.
- Times of day: the last departure of a segment is given in minutes, or as absent when unreadable.
- Great-circle distance and the logarithm in NDCG: any distance, and any positive non-increasing
  discount, will do for what is proved.
- Trimming and case folding of names, cities, interests and visited places: a city comes with its
  folded form, the others are taken to be folded already.
- Negative capacities of the cache and negative cut-offs of result lists.
- The asynchronous lock of the cache and interleaved calls: each operation is one step. Retry delays
  and jitter do not affect what is proved.
- The Redis forms of cache and limiter beyond the counter itself: expiry of counter keys, and the
  fall-back to the local limiter while Redis is down.
- The rows for stored documents, and the other columns of sources and chunks. Chunks created at the
  same instant are taken in the order they were added; the database leaves their order open.
- Refreshing a source by its id, and which facts a changed source underpins: whether it underpins any
  is an input, and reviews are only counted.
- The reported transit share and round-trip hours of a region score.
- Recall, precision, reciprocal rank, percentile and mean of the evaluation runner: each is one line
  with nothing to prove beyond its range.
- The hashing embedder, rerankers, agents and graphs, sessions, web routes, authentication, billing,
  place matching, the itinerary parser and the front end.
- IngestLaws.OutageLosesNothing: speaks of documents with at least one chunk. A document without any
  leaves the source's old chunks in place, as the code does.
