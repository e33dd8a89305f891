# Vehicle-block post-optimiser: model and proofs

The optimizer assigns timed trips to vehicle blocks and then improves the assignment. This project models that
improvement stage and the layers around it in Dafny, and proves what they promise:

- **the feasibility kernel** (may one vehicle run these trips in this order?) and the two nested bounded caches in
  front of it;
- **the block rewriting search**: merging, moving first trips, relocating tails, reuniting preferred pairs, splitting
  blocks behind crew problems, insertion, 2-opt, GRASP repair, large neighbourhood search, selection, and the stitching
  of chunk boundaries;
- **the optimality certificate**: the event sweep, weak duality, rounding of bounds, and what a certified solution
  means for the search;
- **labour time and cost arithmetic**: night minutes, the mandatory-rest scan, the Gini coefficient, rounding of the
  cost report, and dynamic cost rules;
- **agreement between modules**: the block audit against the kernel, and round-trip pair inference.

## How it is laid out

Values are datatypes (`Trip`, `Params`, `Metrics`, ...); a `Plan` is the list of trip chains of a solution and its
`Pool` the multiset of trips it runs. What the program changes in place is a class here too: `Block` (its id and its
trips), the ordered dictionary behind each cache (`Lru`), the cache service, the rule engine and the cost sheet. Every
method that rewrites blocks is tied to a function or a relation on plans (`View` reads the plan off the block objects),
and the laws are proved about those.

| layer | modules |
|---|---|
| values and stock lemmas | `Wrappers`, `Sorting`, `Domain`, `Plans`, `Blocks` |
| feasibility | `Kernel`, `LruCache`, `CacheKeys`, `FeasibilityCache` |
| certificate | `Sweep`, `Certificate` |
| rewriting steps | `Moves`, `Candidates`, `Merge`, `SwapPhase`, `TailRelocation`, `PairRepair`, `Splitting`, `Renaming`, `Feedback`, `FeedbackNames` |
| search | `Insertion`, `TwoOpt`, `Grasp`, `Lns`, `Selection`, `PostOptimiser`, `Boundary`, `BoundaryTails`, `Stitching` |
| arithmetic and agreement | `Nocturnal`, `OperationalTime`, `DutyReport`, `Gini`, `RuleEngine`, `CostReport`, `Auditor`, `RoundTrips` |

`dafny verify dfyconfig.toml` checks the whole project.

## Reading the results

- **Preconditions.** `Proper` collects what the search is entitled to: feasible non-empty blocks, trips with
  `start < end` and distinct trip ids. Block ids are distinct where the code looks blocks up by id.
- **Oracles.** The crew solver, the cost evaluator, the preferred-pair builder and every random draw may answer
  anything; costs that steer acceptance are a free choice, so the safety results hold for every run.
- **Caches.** The search calls the uncached kernel. `FeasibilityCache.Replay` is the reason it may: over every call
  sequence each answer is the uncached one if no trip id read since the last clear has shown two sets of hidden fields,
  and for calls whose key decides alone it always is. Every other answer still belongs to something asked for since
  the last clear under the same key.
- **Parameters.** `extract_connection_params` turns an explicit 0 into the default; the boundary module keeps the 0.
  Both are modelled as they are (`Domain.OrDefault`, `Domain.GetOr`).

Results a reader of the code may not expect:

- The 2-opt exchange never improves the gap it tests, so the local search always stops after one pass with the same
  blocks (`TwoOpt.LocalSearch2Opt`); its documentation says it lowers idle time.
- The comparison of candidates is cyclic (`Selection.BetterIsCyclic`); `Selection.MutualBetter` says exactly when two
  solutions beat each other, and `Selection.CycleLeaps` what every longer cycle must contain. With equal pair breaks
  and split groups there is none (`Selection.EqualPairsNoCycle`).
- The comparison rewards a candidate that drops its list of unassigned trips (`Selection.DroppingWins`), and the
  neighbourhood search produces such candidates.
- The insertion search tries at most seven positions of a block with more than ten trips: both ends, and an inner
  position iff fewer than five precede it by gap and index (`Insertion.SampledExact`). `Insertion.InsertionVerdict` says
  exactly when it misses the one that fits, `Insertion.InsertionMisses` shows a block where it does.
- A night window that crosses midnight never looks at the morning of the first day: `Nocturnal.ExactWhen` gives the
  exact condition, `Nocturnal.EarlyMorningIsMissed` an example with the default window.
- The edge cache key decides the verdict alone iff the gap is not 0, or strict zero-gap validation is on and the
  terminals differ (`CacheKeys.EdgeKeyExact`); `CacheKeys.BlockKeyExact` says the same for block keys. Otherwise a
  second call can be answered wrongly (`FeasibilityCache.AskTwice`, with an example in
  `FeasibilityCache.RegroupedTrip`).
- Boundary stitching checks connections with looser settings than the kernel. `Boundary.TailFitsExact` and
  `Boundary.HeadJoinsExact` state for which parameters it still keeps every block feasible, and for which it does not.
- The kernel accepts every joint of a split trip; the audit reports it iff it is ungrouped and the tolerance is below
  layover or deadhead (`Auditor.SplitTripIsReported`). Elsewhere, gaps over the audit's own limit aside, the two agree
  exactly under `Auditor.Harmless`, or when that limit rules out every positive gap (`Auditor.AgreementExact`).
- The rule engine documents that malformed rules are ignored. `RuleEngine.CompileExact` says, by the raw fields of a
  rule, which ones compile, which are ignored, and which raise (`RuleEngine.SomeRulesRaise` shows two).
- Feedback candidates share block objects with their seed and renumber them in place, so a later target may cut another
  block. With blocks numbered 1 to n in start order, after the first cut, of block k, another block keeps its number
  iff it starts no later than the right half of block k; the others move up by one (`FeedbackNames.FirstCut`), and the
  next target goes by these numbers (`FeedbackNames.NextTarget`). Over a whole round a target t cuts block t, block
  t - 1 or nothing (`FeedbackNames.TargetCuts`). `FeedbackNames.FeedbackStrays` shows targets 1 and 3 cutting blocks 1
  and 2 of three. Trip sequences are untouched.
- A block opened by GRASP takes the list length plus one as its id. The ids stay distinct iff no remaining block carries
  one of these numbers (`Grasp.NewIdsExact`, with a collision in `Grasp.IdsCollide`).
- A figure that needs more than 28 digits is reported as 0 (`CostReport.CentsClose`); `CostReport.InRangePrintable`
  bounds the input so that this never happens.
- Boundary stitching renumbers block ids between its phases, and the second phase goes by the new ids. It lists exactly
  the blocks that came with a boundary id iff nothing was relocated, or block i + 1 of the list is on the boundary iff
  the id it came with is (`Stitching.Stitch`). `Stitching.StitchStrays` shows the opposite: with boundary {2} block 2 is
  absorbed, block 3 becomes block 2, and its trip is moved although 3 was never on the boundary.
- The window of an operational-time report counts the start buffer also where a vehicle is taken over and no pull-out is
  listed, and so for the end buffer; `DutyReport.BuildReport` gives the exact difference between window and segments.
- A reported gap of 0 percent does not mean optimal (`Certificate.ZeroGapIsNotOptimal`); the verdict itself is exact.

## Model

| member | source | states |
|---|---|---|
| Kernel.FeasibleOrdered | optimizer/src/algorithms/utils.py:142-180 | in a feasible block every trip ends before any later one starts |
| Kernel.SliceFeasible | optimizer/src/algorithms/utils.py:325-409 | every contiguous part of a feasible block is feasible |
| Kernel.JoinFeasible | optimizer/src/algorithms/utils.py:376-402 | the concatenation of two feasible blocks is feasible iff the joint connects, the line sets agree where mixing is off, and the whole span fits the shift |
| Kernel.FeasibleExclusive | optimizer/src/algorithms/utils.py:144-145 | no two trips of a feasible block run in the same minute |
| LruCache.HitStep | optimizer/src/algorithms/utils.py:372-374 | moving a hit key to the end keeps the order equal to the most recently used keys of an unbounded history |
| LruCache.StoreStep | optimizer/src/algorithms/utils.py:404-408 | evicting the first key of a full cache and appending the new one keeps that equality, so the least recently used key is the one evicted |
| LruCache.Lru.Lookup | optimizer/src/algorithms/utils.py:100-102 | returns the stored verdict iff present and never changes what is stored |
| LruCache.Lru.Store | optimizer/src/algorithms/utils.py:116-118 | adds the new verdict; only a full cache loses an entry, and that is the least recently used one |
| LruCache.Lru.Bounded | optimizer/src/algorithms/utils.py:404-406 | the cache never holds more entries than its capacity |
| CacheKeys.EdgeKeyDecides | optimizer/src/algorithms/utils.py:86-99 | equal edge keys give equal verdicts if the key decides alone or the hidden fields agree |
| CacheKeys.EdgeKeyExact | optimizer/src/algorithms/utils.py:86-166 | all connections with one key have one verdict iff the gap is not 0 or the strict terminal check fails |
| CacheKeys.EdgeKeyAloneIsNotEnough | optimizer/src/algorithms/utils.py:147-159 | two connections with the same key and different verdicts exist |
| CacheKeys.BlockKeyDecides | optimizer/src/algorithms/utils.py:341-370 | equal block keys, light or strict, give equal block verdicts when the hidden fields agree |
| CacheKeys.BlockKeyAlone | optimizer/src/algorithms/utils.py:341-402 | a key that shows a span, line, gap or terminal fault means infeasible whatever the hidden fields; one that shows every check passed means feasible |
| CacheKeys.BlockKeyExact | optimizer/src/algorithms/utils.py:341-402 | all blocks with one key have one verdict iff the key is of one of these two kinds |
| FeasibilityCache.FeasibilityService.IsConnectionFeasible | optimizer/src/algorithms/utils.py:56-119 | a stored verdict is returned as it is, a missing one computed and stored; the answer is the plain rule while the cache is trusted, and always where the key decides; otherwise it is the plain rule's answer for some connection asked for since the last clear under the same key |
| FeasibilityCache.FeasibilityService.IsBlockFeasible | optimizer/src/algorithms/utils.py:325-409 | the same for blocks, through the cached connection check; a missing verdict is computed from span, lines and the connection answers also once the cache is no longer trusted; short chains always pass |
| FeasibilityCache.FeasibilityService.Clear | optimizer/src/algorithms/utils.py:50-53 | both caches are emptied and trusted again |
| FeasibilityCache.Replay | optimizer/src/algorithms/utils.py:18-19 | over every call sequence, evictions and clears included, an answer is the uncached one if no id read since the last clear showed two sets of hidden fields, and always where the key decides, for connections and blocks; every answer belongs to something asked for since the last clear under the same key |
| FeasibilityCache.TrustedExact | optimizer/src/algorithms/utils.py:50-53 | the caches are trusted after n calls iff no two trips read since the last clear share an id and differ in hidden fields |
| FeasibilityCache.AskTwice | optimizer/src/algorithms/utils.py:100-102 | asked for two connections with one key, the second answer repeats the first and is wrong iff the verdicts differ |
| FeasibilityCache.RegroupedTrip | optimizer/src/algorithms/utils.py:147-166 | two calls of which the second is answered wrongly: a trip changes its group in between |
| Sorting.SortStable | optimizer/src/algorithms/joint_opt.py:33 | the stable sort used everywhere keeps entries with equal keys in order |
| Sorting.SortSorts | optimizer/src/algorithms/joint_opt.py:518-525 | sorting by key tuples orders them lexicographically |
| Blocks.RenumberBlocks | optimizer/src/algorithms/joint_opt.py:68-73 | keeps exactly the non-empty chains, in start order, numbered 1, 2, ... in place |
| Blocks.SortBlocksView | optimizer/src/algorithms/joint_opt.py:33 | sorting block objects by start time gives the stable start order of their chains |
| Merge.MergePass | optimizer/src/algorithms/joint_opt.py:35-52 | one scan keeps trips and feasibility, drops one block per merge, and finds nothing only if no start-adjacent pair can be merged |
| Merge.TryMergeBlocks | optimizer/src/algorithms/joint_opt.py:15-65 | terminates; trips, feasibility and vehicle count minus merges are conserved; no start-adjacent pair remains mergeable; the input is returned itself when nothing changed |
| Merge.CertifiedHasNoMerge | optimizer/src/algorithms/optimality_certificate.py:123-124 | in a certified plan no two blocks at all can be driven one after the other |
| Merge.CertifiedMergesNothing | optimizer/src/algorithms/optimality_certificate.py:123-124 | no rearrangement of a certified plan that keeps trips and feasibility saves a vehicle |
| Merge.MergeCertified | optimizer/src/algorithms/joint_opt.py:15-65 | merging a certified solution returns the solution itself |
| Sweep.SumUptoIsPrefix | optimizer/src/algorithms/optimality_certificate.py:42-45 | the running count after the last event up to a time totals the events up to that time |
| Sweep.RunningCountIsLoad | optimizer/src/algorithms/optimality_certificate.py:42-45 | that count is the number of trips under way at the time, ends being sorted before starts |
| Sweep.BodinGoldenBound | optimizer/src/algorithms/optimality_certificate.py:34-48 | the sweep returns exactly the largest number of simultaneous trips: attained at some time, exceeded at none |
| Certificate.WeakDuality | optimizer/src/algorithms/optimality_certificate.py:97-99 | a feasible cover of the trips has at least as many blocks as trips active at any one time |
| Certificate.RoundKeepsBound | optimizer/src/algorithms/optimality_certificate.py:105-107 | rounding a valid bound to the nearest integer, ties to even, keeps it valid |
| Certificate.BestSource | optimizer/src/algorithms/optimality_certificate.py:97-106 | the largest of the sweep bound and the positive solver bounds, and which source gave it |
| Certificate.CertifyOptimality | optimizer/src/algorithms/optimality_certificate.py:64-156 | bound, verdict and two-digit gap are right, a solver bound that raises gives the empty certificate, and with valid solver bounds no feasible cover is smaller than the bound |
| Certificate.GapFacts | optimizer/src/algorithms/optimality_certificate.py:123-130 | the reported gap is within 0.005 of the exact one and reads 0 iff the missing vehicles are at most a 20000th of the bound |
| Certificate.ZeroGapIsNotOptimal | optimizer/src/algorithms/optimality_certificate.py:123-140 | a certificate that reports gap 0 and is not optimal |
| Certificate.CertifiedIsMinimal | optimizer/src/algorithms/optimality_certificate.py:123-124 | without unassigned trips a certified solution has no more blocks than any feasible plan over the same trips |
| Certificate.BoundExists | optimizer/src/algorithms/optimality_certificate.py:109-121 | for trips of positive length the certificate always has a bound |
| Moves.SuffixCheckExact | optimizer/src/algorithms/joint_opt.py:416-449 | for feasible non-empty recipient and suffix the constant-time check accepts iff the whole concatenation is feasible |
| Moves.SortOfFeasible | optimizer/src/algorithms/joint_opt.py:472 | sorting the trips of a feasible block by (start, id) changes nothing |
| Moves.TailMovedOk | optimizer/src/algorithms/joint_opt.py:486-497 | an accepted tail relocation keeps trips, feasibility and the number of blocks |
| Moves.RepairedOk | optimizer/src/algorithms/joint_opt.py:613-668 | an accepted pair repair keeps trips and feasibility and adds at most one block |
| Moves.HalvesOk | optimizer/src/algorithms/joint_opt.py:123-136 | cutting a feasible block gives two feasible blocks with the same trips |
| Candidates.SignatureDecides | optimizer/src/algorithms/joint_opt.py:157-159 | over the same trips equal signatures mean equal plans up to block order, so skipping a known signature loses nothing |
| Candidates.ShortlistFacts | optimizer/src/algorithms/joint_opt.py:518-526 | the shortlist keeps candidates with the smallest keys, as many as the limit allows |
| Candidates.AddCandidate | optimizer/src/algorithms/joint_opt.py:496-515 | after the signature test the list holds a candidate with these chains, and nothing else new |
| TailRelocation.RelocateTail | optimizer/src/algorithms/joint_opt.py:486-497 | works on copies; the candidate's chains are the seed's with just the two changed chains exchanged |
| TailRelocation.GenerateTailCandidates | optimizer/src/algorithms/joint_opt.py:452-526 | every candidate is a feasible relocation of the seed, and unless the list was cut off at the limit every relocation of up to max_tail_trips trips is in it |
| PairRepair.RepairPair | optimizer/src/algorithms/joint_opt.py:621-668 | the candidate's chains are the seed's with the two blocks replaced by prefix, reunited pair and rest |
| PairRepair.Locate | optimizer/src/algorithms/joint_opt.py:582-654 | finds the two blocks of a pair iff the repair applies, and they are the only ones |
| PairRepair.GeneratePairRepairs | optimizer/src/algorithms/joint_opt.py:529-699 | every candidate is a feasible repair of a listed pair, and unless cut off at the limit every such repair is in the list |
| Splitting.SplitPoint | optimizer/src/algorithms/joint_opt.py:111-121 | cuts at the first largest inner gap, two trips left on each side |
| Splitting.BestCutUnique | optimizer/src/algorithms/joint_opt.py:112-121 | there is only one such cut |
| Splitting.CutAllOk | optimizer/src/algorithms/joint_opt.py:123-141 | cutting blocks keeps trips and feasibility and adds one block per cut |
| Splitting.SplitTarget | optimizer/src/algorithms/joint_opt.py:105-141 | the new list holds every uncut block object in its place, and for each cut block two new ones: the first with its id, the second numbered on from the given one |
| Renaming.PlacesAfter | optimizer/src/algorithms/joint_opt.py:68-73 | with one block cut in a list in (start, id) order, renumbering puts every later block one place further iff it stands behind the right half in that order |
| Feedback.FeedbackCandidate | optimizer/src/algorithms/joint_opt.py:105-152 | a candidate exists iff some block with the target id has at least four trips; exactly such blocks are cut and keep their id, every other block object is shared and carries its new position as id, which for a single cut in (start, id) order is given in full; no trip sequence changes |
| Feedback.FeedbackCandidates | optimizer/src/algorithms/joint_opt.py:76-154 | one candidate for each target that names a block of at least four trips by the ids of the moment, cutting just these blocks; the ids before and after every target; trips, feasibility and unassigned trips are kept |
| FeedbackNames.FirstCut | optimizer/src/algorithms/joint_opt.py:107-144 | for blocks numbered 1 to n in start order: after the first cut, of block k, another block keeps its number iff it starts no later than the right half, and else carries the next |
| FeedbackNames.NextTarget | optimizer/src/algorithms/joint_opt.py:107-144 | the next target t that cuts goes by these numbers: block t iff it kept its own, else block t - 1 iff that moved up |
| FeedbackNames.OwnNumber | optimizer/src/algorithms/joint_opt.py:107-144 | at every later moment: which blocks carry their own number, by the latest cut |
| FeedbackNames.TargetCuts | optimizer/src/algorithms/joint_opt.py:107-144 | over a whole round with distinct targets, target t cuts at most one block, and that is block t or block t - 1 |
| FeedbackNames.FeedbackStrays | optimizer/src/algorithms/joint_opt.py:107-144 | three blocks and targets 1 and 3: blocks 1 and 2 are cut, block 3 is not, and two blocks end up with id 3 |
| SwapPhase.SwapPass | optimizer/src/algorithms/joint_opt.py:1136-1160 | the pass is a sequence of moves of a fitting first trip of a later block; without a move nothing fits |
| SwapPhase.RunKeeps | optimizer/src/algorithms/joint_opt.py:1136-1160 | any number of such moves keeps trips, feasibility and the block list's length |
| SwapPhase.SwapPasses | optimizer/src/algorithms/joint_opt.py:1134-1167 | at most five passes; trips and feasibility are kept, blocks never added; stopping early means nothing fits |
| Insertion.OnePosition | optimizer/src/algorithms/joint_opt.py:861-863 | a trip fits a block at no more than one position |
| Insertion.PricedGap | optimizer/src/algorithms/joint_opt.py:864-878 | the priced gap is the growth of the block's idle minutes, never negative, and nothing for an inner position |
| Insertion.SampleIsPartial | optimizer/src/algorithms/joint_opt.py:852-859 | a block with more than ten trips has positions that are never tried |
| Insertion.SampledExact | optimizer/src/algorithms/joint_opt.py:852-859 | an inner position of such a block is tried iff fewer than five precede it in (gap, index) order |
| Insertion.InsertionMisses | optimizer/src/algorithms/joint_opt.py:852-863 | a feasible block and a trip that fits it only at an untried position |
| Insertion.FeasibleInsertion | optimizer/src/algorithms/joint_opt.py:841-886 | sound and cheapest among the tried positions; negative only if none of them fits, and for up to ten trips only if none fits at all |
| Insertion.InsertionVerdict | optimizer/src/algorithms/joint_opt.py:841-886 | with a fitting position, the search succeeds iff the block has at most ten trips or the position is an end or among the five first by gap; it then returns it and prices the added idle time |
| TwoOpt.ExchangeKeepsGaps | optimizer/src/algorithms/joint_opt.py:937-940 | exchanging two suffixes leaves the sum of the two joint gaps unchanged |
| TwoOpt.ExchangePays | optimizer/src/algorithms/joint_opt.py:908-942 | the acceptance test never holds |
| TwoOpt.LocalSearch2Opt | optimizer/src/algorithms/joint_opt.py:889-953 | returns copies with the same ids and trips after exactly one pass |
| Grasp.CollectPlaces | optimizer/src/algorithms/joint_opt.py:981-999 | exactly one cheapest offer from every nearby block in which a tried position fits |
| Grasp.Draw | optimizer/src/algorithms/joint_opt.py:1007-1014 | the restricted list is never empty, and the drawn place is within the price threshold |
| Grasp.PlaceTrip | optimizer/src/algorithms/joint_opt.py:976-1016 | the trip goes to a drawn offer, or to a block of its own iff there is no offer |
| Grasp.NewIdsExact | optimizer/src/algorithms/joint_opt.py:1001-1003 | after the repair block ids are distinct iff the remaining ids were and none of them lies between the old and the new number of blocks |
| Grasp.IdsCollide | optimizer/src/algorithms/joint_opt.py:1001-1003 | two blocks left with ids 1 and 3 end up with a second block 3 |
| Grasp.GraspRepair | optimizer/src/algorithms/joint_opt.py:956-1021 | terminates and places every destroyed trip exactly once in feasible blocks, whatever is drawn; remaining blocks keep their ids and each new one carries its position |
| Lns.StayOrGo | optimizer/src/algorithms/joint_opt.py:741-749 | destroying blocks loses no trip |
| Lns.Destroy | optimizer/src/algorithms/joint_opt.py:741-749 | copies exactly the blocks that were not selected and collects the trips of the others in order |
| Lns.Neighbour | optimizer/src/algorithms/joint_opt.py:737-757 | one destroy-and-repair step gives a feasible solution over the same block trips with no unassigned trips |
| Lns.Search | optimizer/src/algorithms/joint_opt.py:702-805 | every run keeps the block trips and feasibility and never raises the block count or the violations, for all draws and crew results |
| Selection.RunNeverWorsens | optimizer/src/algorithms/joint_opt.py:382-413 | along any accepted run unassigned trips, violations and protected split groups never rise |
| Selection.BetterIsCyclic | optimizer/src/algorithms/joint_opt.py:397-413 | two solutions can each be better than the other |
| Selection.MutualBetter | optimizer/src/algorithms/joint_opt.py:382-413 | two solutions are better than each other iff they agree on everything protected and one leaps over the other, which leaps back or scores lower |
| Selection.BetterIs | optimizer/src/algorithms/joint_opt.py:382-413 | a candidate is better iff nothing protected rises and it leaps or lowers the score |
| Selection.NoLeapNoCycle | optimizer/src/algorithms/joint_opt.py:410-413 | an accepted run without leaps strictly lowers the score and never returns |
| Selection.EqualPairsNoCycle | optimizer/src/algorithms/joint_opt.py:397-413 | so among candidates with equal pair breaks and split groups no cycle of any length exists |
| Selection.CycleLeaps | optimizer/src/algorithms/joint_opt.py:382-413 | every cycle keeps all that is protected and contains a leap that does not lower the score |
| Selection.DroppingWins | optimizer/src/algorithms/joint_opt.py:389-413 | having no unassigned trips listed beats having some, all else equal |
| PostOptimiser.MergeAndSwap | optimizer/src/algorithms/joint_opt.py:1123-1173 | the merged and swapped base solution keeps trips, feasibility and unassigned trips and has no more blocks |
| PostOptimiser.CollectCandidates | optimizer/src/algorithms/joint_opt.py:1173-1313 | every candidate of every generator runs exactly the input's block trips feasibly, on fresh blocks or the input's, keeps the input's unassigned list or has none, and is the merged and swapped form, a tail relocation or a pair repair of one of the two seeds, or a neighbourhood-search result of no more blocks |
| PostOptimiser.Consider | optimizer/src/algorithms/joint_opt.py:1317-1368 | a known signature or the fleet filter skips a candidate, the others are judged and replace the incumbent iff better |
| PostOptimiser.SelectBest | optimizer/src/algorithms/joint_opt.py:1317-1368 | the loop is a left fold of the comparison over the judged candidates, and without an exception it has seen every signature |
| PostOptimiser.ChampionFacts | optimizer/src/algorithms/joint_opt.py:1342-1364 | the fold returns the input or a judged candidate and never worsens a protected figure |
| PostOptimiser.FeedbackRound | optimizer/src/algorithms/joint_opt.py:1370-1392 | the second round is such a fold too, over measured splits of the first champion with its unassigned list, and runs only with violations left |
| PostOptimiser.JointDutyVehicleSwap | optimizer/src/algorithms/joint_opt.py:1024-1457 | for every oracle behaviour: same block trips, feasible, protected figures no worse, the input's trip sequences unchanged, its unassigned list kept or empty; the input itself after an exception, otherwise the two-round fold, in which the first round judges outputs of the generators and the second, only with violations left, splits of the first champion |
| Boundary.TailFitsExact | optimizer/src/algorithms/joint_opt_boundary.py:209-231 | relocating whole blocks keeps all well-timed feasible blocks feasible iff the parameter condition TailsOk holds |
| Boundary.HeadJoinsExact | optimizer/src/algorithms/joint_opt_boundary.py:123-146 | moving first trips does so iff the parameter condition HeadsOk holds |
| BoundaryTails.TailRelocation | optimizer/src/algorithms/joint_opt_boundary.py:165-248 | conserves trips, ends with exactly `relocations` fewer blocks, terminates, keeps feasibility under TailsOk; relocates nothing iff no listed short block of the input fits another, which at the end, by the ids before renumbering, always holds; every block grew from an input block with its id, and those off the boundary survive |
| Stitching.BoundaryPass | optimizer/src/algorithms/joint_opt_boundary.py:115-146 | the pass is a sequence of checked moves between blocks of which one touches the boundary; without a move none is possible |
| Stitching.TwoOptPass | optimizer/src/algorithms/joint_opt_boundary.py:77-162 | conserves trips, never adds blocks, keeps feasibility under HeadsOk; the result is the end of a run of moves over the given blocks in start order, each between blocks of which one carries a boundary id |
| Stitching.Stitch | optimizer/src/algorithms/joint_opt_boundary.py:251-274 | the same for the whole pipeline under TailsOk, with the solution between the phases and the ids its blocks came with; the second phase lists exactly the blocks that came with a boundary id iff nothing was relocated or the new numbers hit the boundary where those ids do; the given trips and ids stay as they were |
| Stitching.StitchStrays | optimizer/src/algorithms/joint_opt_boundary.py:251-274 | blocks 1, 2, 3 and boundary {2}: block 2 is absorbed, and the pass moves the trip of the former block 3 |
| Nocturnal.NocturnalOverlap | optimizer/src/algorithms/evaluator.py:89-127 | the night minutes counted one by one, less the skipped first morning of a window that crosses midnight; no minute twice |
| Nocturnal.ExactWhen | optimizer/src/algorithms/evaluator.py:103-112 | the count is exact iff the window does not cross midnight or the trip starts at or after its morning end |
| Nocturnal.EarlyMorningIsMissed | optimizer/src/algorithms/evaluator.py:106-112 | with the window 22h-5h a trip from 4h to 5h has 60 night minutes and none is counted |
| OperationalTime.GreedyIsOptimal | optimizer/src/services/operational_time_service.py:177-186 | no valid choice of rest gaps has more rests than the scan |
| OperationalTime.MinutesTile | optimizer/src/services/operational_time_service.py:172-192 | task spans, idle, breaks and rests add up to the duty's span plus overlaps |
| OperationalTime.NoOverlap | optimizer/src/services/operational_time_service.py:172-174 | the overlap term is 0 iff no task starts before its predecessor ends |
| OperationalTime.Scan | optimizer/src/services/operational_time_service.py:116-207 | every gap gets the greedy class, the three totals are the minutes of their classes, and the segments list them in order |
| DutyReport.RestReported | optimizer/src/services/operational_time_service.py:250 | rest minutes are positive iff some valid rest was possible at all |
| DutyReport.SegmentsFill | optimizer/src/services/operational_time_service.py:116-207 | the lengths of the task and gap segments add up to the time from the first start to the last end plus all overlaps |
| DutyReport.BuildReport | optimizer/src/services/operational_time_service.py:12-320 | the tasks taken in start order tile the duty; unless its ends are preset, window and overlaps together exceed the lengths of all segments by just the counted buffers at ends where a vehicle is handed over; a missing mandatory rest is reported iff a rest is required, none was possible and continuous driving is over the limit; a rest counts as required iff taken or reported missing |
| DutyReport.DrivePermutes | optimizer/src/services/operational_time_service.py:54-61 | the driving total does not depend on the order of the tasks |
| Gini.CoefficientIsMeanDifference | optimizer/src/algorithms/evaluator.py:130-140 | the sorted formula equals the mean absolute difference of all pairs over the mean |
| Gini.CoefficientRange | optimizer/src/algorithms/evaluator.py:130-140 | for non-negative values with positive sum it lies in [0, (n-1)/n] and is 0 iff all values are equal |
| Gini.CoefficientPermutes | optimizer/src/algorithms/evaluator.py:134 | it does not depend on the order of the values |
| RuleEngine.CompileExact | optimizer/src/core/rule_engine.py:268-377 | a rule raises iff it has an unreadable condition behind sound ones, or sound conditions and an unreadable action; it compiles iff all its fields are sound; otherwise it is ignored |
| RuleEngine.SomeRulesRaise | optimizer/src/core/rule_engine.py:323-375 | a multiplier that is not a number and an unhashable operator raise |
| RuleEngine.CompileRaises | optimizer/src/core/rule_engine.py:192-218 | building the engine fails iff one of the first 50 rules raises by its raw fields; otherwise every compiled rule is within the limits |
| RuleEngine.MalformedChangesNothing | optimizer/src/core/rule_engine.py:215-218 | a rule malformed by its raw fields leaves the compiled rules as without it, wherever it stands |
| RuleEngine.CostsStayBounded | optimizer/src/core/rule_engine.py:142-156 | after k rules a cost c is at most 10^k (abs(c) + 100000) in magnitude, and no cost field appears or disappears |
| RuleEngine.DynamicRuleEngine.Load | optimizer/src/core/rule_engine.py:192-218 | compiles the first 50 rules in order, dropping malformed ones, and fails iff one of them raises |
| RuleEngine.DynamicRuleEngine.Apply | optimizer/src/core/rule_engine.py:230-264 | applies the matching rules in order to the sheet in place, within the bound |
| CostReport.CentsClose | optimizer/src/algorithms/evaluator.py:79-86 | rounding to cents moves a figure by at most half a cent iff 28 digits suffice; otherwise it is reported as 0 |
| CostReport.CentsExact | optimizer/src/algorithms/evaluator.py:79-86 | whole cents are reported unchanged iff 28 digits suffice |
| CostReport.RoundingSpread | optimizer/src/algorithms/evaluator.py:718-728 | n printable figures, rounded, differ from the exact ones by at most n half cents in sum |
| CostReport.ColumnsSum | optimizer/src/algorithms/evaluator.py:699-746 | the eight accumulated components and the overhead add up to the exact cost |
| CostReport.InRangePrintable | optimizer/src/algorithms/evaluator.py:505-768 | for base costs, rule count, duty count and overhead below a bound no figure needs more than 28 digits |
| CostReport.CostBreakdown | optimizer/src/algorithms/evaluator.py:505-768 | every reported figure is the rounded exact one; the printable total is within 0.005 (n+1) of the printable duty totals and 0.05 of the nine components, without exception in the input range; it fails iff a rule raises |
| Auditor.AuditBlock | optimizer/src/services/hard_constraint_validator.py:405-452 | an edge issue is listed iff it names a faulty connection and its fault, the line issue iff two lines mix, the depot issues iff the depots differ, in that order |
| Auditor.EdgeIssuesAre | optimizer/src/services/hard_constraint_validator.py:420-445 | the edge issues are exactly the faulty connections, each once, in driving order |
| Auditor.AgreementExact | optimizer/src/services/hard_constraint_validator.py:420-445 | with tolerance, line and interval rules shared, every accepted connection whose touching joint passes and whose gap is within the limit passes the audit iff Harmless holds for the audit layover, or the limit rules out every positive gap |
| Auditor.EffectiveHarmless | optimizer/src/services/hard_constraint_validator.py:88-96 | the same condition spelled out for the layover the auditor derives from layover and break |
| Auditor.AcceptedBlockPasses | optimizer/src/services/hard_constraint_validator.py:405-452 | under Harmless a block the kernel accepts has no line issue, and passes the audit iff each touching joint is a grouped pair or covered by the tolerance, each ungrouped gap is within the limit, and the depot rule is off or met |
| Auditor.SplitTripIsReported | optimizer/src/services/hard_constraint_validator.py:425-445 | the joint of a split trip is accepted by the kernel and reported iff it is ungrouped and the tolerance is below layover or deadhead, or the gap limit negative |
| Auditor.SomeJointIsReported | optimizer/src/services/hard_constraint_validator.py:431-445 | no setting makes the audit agree on every joint |
| Auditor.JointExact | optimizer/src/services/hard_constraint_validator.py:420-445 | under Harmless the audit of an accepted connection turns on its joint and the gap limit alone |
| RoundTrips.FindReturn | optimizer/src/services/trip_group_inference.py:67-88 | the nearest unused match; leaving the scan early misses none |
| RoundTrips.PairLine | optimizer/src/services/trip_group_inference.py:61-95 | pairs of one line extend the matching until no two unused trips of the line match |
| RoundTrips.InferRoundTripPairs | optimizer/src/services/trip_group_inference.py:41-97 | a maximal matching: disjoint same-line mirrored pairs within the clamped window, and no two unpaired trips match |

## Left out

- The crew solver, the vehicle solvers, `build_preferred_pairs` and the evaluator's fleet cost: arbitrary answers.
- Simulated-annealing temperatures, `exp` and cost comparisons: a free accept bit, so cost may rise in the model as in the code.
- Floating-point arithmetic and the 28-digit rounding of intermediate decimal sums: exact rationals. The final cent rounding, and its loss of figures over 28 digits, is modelled.
- `_select_blocks_by_marginal_cost`: which blocks are destroyed is any set of ids, of any size.
- `_build_post_opt_metrics`: only unassigned trips, vehicles and violations are tied to the solution; the other figures are arbitrary.
- `identify_boundary_blocks`: boundary stitching is proved for any set of block ids.
- `materialize_mandatory_trip_groups` and the injection of group constraints: assignments with no law of their own.
- `_overtime_cost`, `_long_unpaid_break_penalty` and the base cost formulas of a duty: the report takes a duty's eight base costs as given.
- Fairness figures other than the Gini coefficient, and the coefficient's final rounding to four digits.
- DutyReport.BuildReport: locations, explanation texts and the trip and group lists inside a segment are absent.
- Vehicle types, warnings, metadata and log messages of blocks and solutions; wall-clock budgets.
- The per-trip `duration` field: driving time in `Insertion` is end minus start, as the domain object computes it by default.
- Message texts and ids inside audit issues; the duty audit, GPS and terminal checks of the input audit.
- Lns.Search: unassigned trips are dropped by an accepted candidate as in the code, so conservation is stated over block trips only.
- Certificate.GapFacts: at an exact tie, as one missing vehicle in 20000, the float rounding of the source may go the other way (0.01 and not 0); the model rounds ties to even.
- Feedback.FeedbackCandidates: the ids after a target are spelled out for seeds in (start, id) order with one block cut, as renumbering leaves every candidate; for other lists only that each shared block carries its position in the new candidate.
