# Verified models of tess

`tess` is a C++ library for tile worlds whose benchmarks, examples and release tools carry algorithms of
their own. This project models the hardest of them in Dafny and proves what they are for:

- **Navigation.** `Graph.dfy` defines shortest distances over walks of any length. `Oracle.dfy` is the
  benchmark's lazy-deletion Dijkstra in 64-bit arithmetic: exact if and only if nothing on an optimal route
  wraps. `Query.dfy` and `QueryRun.dfy` are the production query, an object advanced one item at a time
  through eight phases, whose every published outcome is shown truthful and paid for; `Promises.dfy` says what
  each outcome and the exactness flag mean, and when a query has to answer. `Checker.dfy` is the
  benchmark's checker, sound against the oracle and complete for what the query publishes. `Grid.dfy` holds
  the closed forms for open and composed grids of any size.
- **Budgeted progress.** `Flow.dfy` and `Demand.dfy` hold the flow accounting, its windows and the
  closed-loop demand; `PoolWork.dfy` the work identity of a cyclic pool; `Churn.dfy` and `MixedChurn.dfy`
  terrain edits executed chunk by chunk, over the addressing of `Tiles.dfy`.
- **Changelogs.** `Text.dfy`, `DatedLog.dfy`, `Fragments.dfy`, `Changelog.dfy` and `Release.dfy` are the
  assembler: splitting, merging, rendering, releasing, and when nothing is lost.
- **Rendering and pricing.** `Delta.dfy` and `Session.dfy` are the versioned delta protocol under any
  interleaving of paints, frames, drops and baselines; `Congestion.dfy` is congestion pricing and the
  question who must replan.
- **Change points.** `Changepoint.dfy` is the detector over trailing benchmark artifacts.

`dafny verify dfyconfig.toml` checks everything. `Machine.dfy` holds the 64-bit words, `Arithmetic.dfy`
and `Options.dfy` small shared definitions.

Objects whose methods update fields are classes; their vectors, maps and counters are value-typed fields.
The bodies of methods and lemmas begin with `hide` where a proof does not need a definition.

Five properties turned out false as one might state them, and are proved with their exact condition:
summing 64-bit costs (`DistancesTo` with `WrappingIsUnsafe`, `AcceptedRouteIsShortest` with
`DetourIsAccepted`, `AcceptedWalkIsShortest` with `DetourIsWalked`); finding a changelog's first heading by
its text (`MergeKeepsSections` and `MergeKeepsPreamble` with `QuotingTemplateLosesEverything`); the
one-section check on dated fragments (`ValidFragmentSections` with `IndentedFragmentSplits`); the pool's
zero-tolerance work check when a request expands nothing (`CheckWork` with `IdlePoolFails`); and the
change-point report for a zero baseline (`FailsOnZeroBaselines` with `FirstReadingsFail`).

## Model

| member | source | states |
|---|---|---|
| Graph.Distance | bench/tess_navigation_bench.cc:561-585 | the minimum cost over all directed walks, of any length, to a priced destination |
| Graph.DistanceUnique | bench/tess_navigation_bench.cc:561-585 | that minimum is unique |
| Graph.SettledBound | bench/tess_navigation_bench.cc:570-582 | the label-setting argument: with every settled node's incoming arcs relaxed and the rest at or above the key, no walk from an unsettled node is cheaper than the key |
| Graph.DistanceBound | bench/tess_navigation_bench.cc:570-582 | a settled label is at most the cost of any walk |
| Graph.ShortWalk | bench/tess_navigation_bench.cc:563-585 | a cheapest walk needs no more transitions than there are nodes |
| Graph.DistanceCeiling | bench/tess_navigation_bench.cc:563-585 | so distances stay below node count times the largest cost |
| Graph.RenamedDistance | bench/tess_navigation_bench.cc:470-482 | renaming locations both ways preserves every distance |
| Graph.ExtendedDistance | include/tess/navigation/query.h:249-267 | more arcs and cheaper destinations never make a distance longer |
| Graph.PotentialIsDistance | bench/tess_navigation_bench.cc:141-149 | a height that no arc undercuts and some arc always meets is the distance |
| NavigationOracle.Oracle.AddState | bench/tess_navigation_bench.cc:551-554 | a location is appended and keeps its first number |
| NavigationOracle.Oracle.AddEdge | bench/tess_navigation_bench.cc:555-560 | an edge between known locations is appended and found again under its ordered pair; any other edge is refused |
| NavigationOracle.Oracle.Reverse | bench/tess_navigation_bench.cc:676-678 | the reverse index lists every edge once, at the number of its target |
| NavigationOracle.Oracle.Expand | bench/tess_navigation_bench.cc:573-581 | relaxing all edges into a popped state keeps the search consistent, strictly lowers the label sum or changes nothing, and pushes at most once per edge |
| NavigationOracle.Oracle.DistancesTo | bench/tess_navigation_bench.cc:563-585 | terminates; its result is the exact minimum per state, the sentinel exactly where no route exists, if and only if no relaxation on an optimal route can wrap; then keys leave the heap in order, each state with a route is expanded once despite stale entries, and pushes are at most one plus the number of edges |
| NavigationOracle.PopIsFinal | bench/tess_navigation_bench.cc:571-573 | the least key is never below an earlier one, and if fresh it is the exact distance of an unsettled state |
| NavigationOracle.SettledIsExact | bench/tess_navigation_bench.cc:573-581 | a settled label is the distance |
| NavigationOracle.SafeIsExact | bench/tess_navigation_bench.cc:563-585 | an exhausted search on a safe network is exact |
| NavigationOracle.ExactIsSafe | bench/tess_navigation_bench.cc:576-577 | and an exact result shows the network was safe, so wrap-around cannot go unnoticed |
| NavigationOracle.RepresentableIsSafe | bench/tess_navigation_bench.cc:576-577 | networks whose route sums stay below the sentinel are safe |
| NavigationOracle.SmallCostsAreSafe | bench/tess_navigation_bench.cc:576-577 | in particular when states times the largest cost does |
| NavigationOracle.WrappingIsUnsafe | bench/tess_navigation_bench.cc:576-577 | a network of three states with representable costs and distances on which a sum wraps below the true distance |
| NavigationOracle.SearchWrapping | bench/tess_navigation_bench.cc:563-585 | the search over that network returns a wrong distance |
| NavigationOracle.ExpansionIsOrderly | bench/tess_navigation_bench.cc:571-582 | each expansion keeps the order of keys and the push account |
| NavigationOracle.GrowKeepsGrouped | bench/tess_navigation_bench.cc:548-560 | the by-endpoints table stays complete and sound as edges are added |
| GridOracles.OpenGridDistance | bench/tess_navigation_bench.cc:1178-1181 | on an open square of any size, from any cell to any cell, the distance is the step cost times the Manhattan distance |
| GridOracles.OpenGridDistances | bench/tess_navigation_bench.cc:1178-1181 | so the reference search over such a square returns exactly that |
| GridOracles.ComposedDistance | bench/tess_navigation_bench.cc:141-149 | two squares of any size joined by two-way seams and a road: the closed-form cost is the minimum, a walk of the closed-form number of steps attains it, and no walk to the goal is shorter, backward seams included |
| GridOracles.CompositionIsShallow | bench/tess_navigation_bench.cc:211-237 | no transition of the composition, backward seams included, gains more than it costs |
| GridOracles.CompositionDescends | bench/tess_navigation_bench.cc:211-237 | from everywhere some transition gains exactly what it costs |
| GridOracles.GridOrdinal | bench/tess_navigation_bench.cc:586-599 | the ordinal is the rank of the neighbour among the candidates inside the world, and the abort happens exactly when it is none of them |
| GridOracles.OffsetsAre | bench/tess_navigation_bench.cc:586-599 | candidates are the four faces and then the four diagonals, along x before along y, the positive direction first |
| GridOracles.OrdinalsDiffer | bench/tess_navigation_bench.cc:586-599 | different candidates have different ordinals |
| NavigationQueries.NavigationQuery.constructor | include/tess/navigation/query.h:115-140 | a query starts pending, with nothing spent and its invariant in place |
| NavigationSearch.UsableIs | include/tess/navigation/query.h:355-381 | forward, a candidate is listed where it leaves, and backward where it arrives; it and both its ends are legal, and its cost is not the sentinel |
| NavigationPromises.ExactAnswerStands | include/tess/navigation/query.h:249-267 | an exact route, field or absence of a route is the answer however the unavailable parts of the snapshot turn out: same reachability, same distance |
| NavigationPromises.UndoubtedAgrees | include/tess/navigation/query.h:249-267 | where nothing within reach is unavailable, reachability and distances are those of the graph in which every unavailable part is legal |
| NavigationPromises.ResolvedAnswer | include/tess/navigation/query.h:249-267 | an answer equal to the one with all unavailable parts legal is the answer for every way they may turn out |
| NavigationPromises.RoomyQueryAnswers | include/tess/navigation/query.h:102-106 | with sound input and room for every legal location, candidate and step, a query never refuses, and finds something exactly if a representable answer exists |
| NavigationPromises.RoomyIsNotCramped | include/tess/navigation/query.h:240-248 | that room is enough: no set of locations or candidates with routes outgrows the limits |
| NavigationQueries.NavigationQuery.StepInit | include/tess/navigation/query.h:270-290 | input that is not posed ends as invalid, empty limits as too little capacity, anything else begins seeding with doubt exactly if the snapshot is incomplete |
| NavigationQueries.NavigationQuery.StepSeed | include/tess/navigation/query.h:291-316 | the labels are the least prices stated so far for the legal destinations; an unavailable destination is noted as doubt; each way to stop has its cause in the destination at hand or in a full table |
| NavigationQueries.NavigationQuery.StepPop | include/tess/navigation/query.h:317-354 | takes the least entry: a stale one changes no label, a fresh one settles its location at its true distance and opens its expansion, or the reconstruction at the goal; an empty frontier ends with overflow, export or no route |
| NavigationQueries.NavigationQuery.StepEdges | include/tess/navigation/query.h:355-411 | a usable candidate is relaxed without making any label worse, an unavailable one is noted as doubt, a faulty one ends the search with its outcome, and a refusal happens only with the table or the frontier full |
| NavigationQueries.NavigationQuery.StepReconstruct | include/tess/navigation/query.h:412-426 | appends the parent of the location reached, until the start; refused exactly when the route is at its limit |
| NavigationQueries.NavigationQuery.StepSwap | include/tess/navigation/query.h:427-434 | exchanges one pair from the ends, and after the last delivers the cheapest route in order |
| NavigationQueries.NavigationQuery.StepExport | include/tess/navigation/query.h:436-444 | exports one more label, and after the last delivers the exact field |
| NavigationQueries.NavigationQuery.StepPublish | include/tess/navigation/query.h:445-458 | publishes exactly what the run came to, truthfully: an exact field or best route if found, no route only if there is none, exactness only if nothing unavailable could change the answer and doubt only for a reason met, each refusal only for its cause; only a found result carries route and guidance |
| NavigationQueries.NavigationQuery.Step | include/tess/navigation/query.h:268-460 | every step of every phase keeps the invariant and counts one item |
| NavigationQueries.NavigationQuery.Advance | include/tess/navigation/query.h:172-187 | spends at most its allowance, and less only if the query left the pending state |
| NavigationQueries.NavigationQuery.Cancel | include/tess/navigation/query.h:156-159 | only pending queries are cancelled |
| NavigationQueries.NavigationQuery.Supersede | include/tess/navigation/query.h:160-163 | only pending queries are superseded |
| NavigationQueries.NavigationQuery.RequireSnapshot | include/tess/navigation/query.h:166-171 | another snapshot makes pending and finished queries stale, nothing else does |
| NavigationQueries.NavigationQuery.Complete | include/tess/navigation/query.h:482-491 | the synchronous driver terminates with a delivered result, within the benchmark's refusal bound if refused for capacity and within that plus exporting and reversing otherwise; with room and sound input it answers, and finds exactly what there is |
| NavigationQueries.FieldIsExact | include/tess/navigation/query.h:322-333 | an exhausted reverse search labels exactly the locations with a route, each at its distance, with next steps that lead to a destination |
| NavigationQueries.GoalUnreached | include/tess/navigation/query.h:331-333 | an exhausted forward search that never settled the goal proves there is no route |
| NavigationQueries.LeftoverOverflows | include/tess/navigation/query.h:319-322 | an overflow never discharged is a location whose true distance does not fit; for a route query, then, no representable route to the goal exists |
| NavigationQueries.SurveyIsClean | include/tess/navigation/query.h:355-381 | once everything with a route was expanded, nothing within reach is malformed or overflowing, and nothing unavailable went unnoticed |
| NavigationQueries.GoalAgrees | include/tess/navigation/query.h:342-347 | a goal settled without doubt cannot be reached more cheaply through anything unavailable, searched or not |
| NavigationQueries.SeedCramped | include/tess/navigation/query.h:240-248 | a refusal while seeding means more destinations than the limits hold |
| NavigationQueries.EdgesCramped | include/tess/navigation/query.h:240-248 | a refusal while expanding means more locations with routes, or more destinations and candidates, than the limits hold |
| NavigationQueries.RetraceCramped | include/tess/navigation/query.h:418-425 | every location to retrace has a parent, and a route that outgrows its limit passes through more locations than the limit allows steps |
| NavigationQueries.Retrace | include/tess/navigation/query.h:418-425 | parents form a route whose cost is the label |
| NavigationQueries.AccountsBound | bench/tess_navigation_bench.cc:391-404 | the item accounting behind the refusal bound: pops never exceed pushes, probes never exceed degree times settled nodes |
| NavigationSearch.ExhaustedIsExact | include/tess/navigation/query.h:317-353 | with an empty frontier every label is the distance |
| NavigationSearch.AllRoutesLabelled | include/tess/navigation/query.h:383-409 | and every location with a representable route has one |
| NavigationSearch.SettleTop | include/tess/navigation/query.h:336-341 | settling the least entry keeps the frontier invariant |
| NavigationSearch.Improve | include/tess/navigation/query.h:398-409 | a cheaper label keeps the frontier invariant |
| GuidanceChecker.CheckTransition | bench/tess_navigation_bench.cc:804-821 | accepts a transition exactly if it leaves the cursor, is legal, and equals an oracle edge in cost, identity and key, identified exactly off the grids |
| GuidanceChecker.CheckRoute | bench/tess_navigation_bench.cc:822-840 | accepts a result exactly if it is found, exact, current and without guidance, every transition is accepted where the route stands, it ends on the goal, and its 64-bit cost is the published and expected one; folds every transition |
| GuidanceChecker.AcceptedRouteIsShortest | bench/tess_navigation_bench.cc:822-840 | an accepted route is a walk of the oracle graph, and it is a cheapest one exactly if its true cost fits 64 bits |
| GuidanceChecker.DetourIsAccepted | bench/tess_navigation_bench.cc:822-840 | a route the check accepts although it costs 2^64 more than the distance |
| GuidanceChecker.PublishedRouteIsAccepted | bench/tess_navigation_bench.cc:822-840 | end to end: an exact route the production query finds on the current snapshot passes the route check against the oracle's distance |
| GuidanceChecker.CheckGuidance | bench/tess_navigation_bench.cc:841-866 | accepts a result exactly if it is found, exact, current and without a route, and following successors reaches the goal within the number of states, each step accepted and accounting for the labels' difference |
| GuidanceChecker.CheckCompleteField | bench/tess_navigation_bench.cc:867-875 | accepts exactly the fields with one label per state, each the oracle's distance |
| GuidanceChecker.FollowGuidance | bench/tess_navigation_bench.cc:781-798 | the timed walk succeeds exactly if successors lead to the goal within the step limit, and folds exactly that walk with the label and a closing mark |
| GuidanceChecker.RouteFoldIs | bench/tess_navigation_bench.cc:768-780 | the fold holds, transition by transition, both ends, identity and cost in that order, and counts steps and costs |
| GuidanceChecker.FollowingIsRouting | bench/tess_navigation_bench.cc:781-798 | following a field is following the route it spells out: the same places, the same sum, the same fold |
| GuidanceChecker.AcceptedWalkIsShortest | bench/tess_navigation_bench.cc:841-875 | what both checks accept is a walk of the oracle graph, the start label is the true distance, and the walk is a cheapest one exactly if the true sum of its steps fits 64 bits |
| GuidanceChecker.DetourIsWalked | bench/tess_navigation_bench.cc:841-875 | a complete field of exact labels that both checks accept although following it costs 2^64 more than its label |
| GuidanceChecker.PublishedFieldIsAccepted | bench/tess_navigation_bench.cc:841-875 | end to end: a field the production query finds passes the guidance check from every state with a route, and the completeness check exactly if no state is listed twice and every state has a route |
| GuidanceChecker.MirroredDistance | bench/tess_navigation_bench.cc:470-482 | production and oracle agree on every distance through the fixture's renaming |
| Flow.AccumulateWindow | bench/budgeted_progress_bench_common.h:206-238 | adds one window's deltas field by field, in 64-bit arithmetic |
| Flow.AccumulatedConserves | bench/budgeted_progress_bench_common.h:206-238 | from a balanced total and start, the new total balances exactly if the window ends in balance |
| Flow.WindowConserves | bench/budgeted_progress_bench_common.h:206-238 | both identities hold for any number of repetitions and any placement of windows |
| Flow.WindowIsGain | bench/budgeted_progress_bench_common.h:206-238 | every summed counter is the true gain modulo 2^64 |
| Flow.WindowIsExact | bench/budgeted_progress_bench_common.h:227-235 | and is the true gain exactly if that gain is not negative and fits; a start with more in flight than the end is the case that is not |
| Flow.MonotoneGains | bench/budgeted_progress_bench_common.h:227-235 | counters that never run backwards never underflow |
| Flow.ConservesIs | include/tess/diagnostics/diagnostics.h:478-497 | the two identities, said of unbounded sums |
| Flow.CarriedConserves | bench/tess_budgeted_progress_mixed.cc:735-775 | a live window with carried inventory balances exactly if the buckets it leaves out did not move within it |
| MixedDemands.MixedDemand.constructor | bench/tess_budgeted_progress_mixed.cc:636-648 | every agent starts with one open item, heading away |
| MixedDemands.MixedDemand.Admit | bench/tess_budgeted_progress_mixed.cc:444-452 | appends one item, opens it for the agent, retargets the agent, counts offer and admission |
| MixedDemands.MixedDemand.Observe | bench/tess_budgeted_progress_mixed.cc:454-465 | the gauge is the tick minus the oldest unresolved admission, or 0; the pointer only moves forward and never past the items, so its work over a run is at most their number |
| MixedDemands.MixedDemand.Fail | bench/tess_budgeted_progress_mixed.cc:467-476 | resolves exactly the agent's open item as failed |
| MixedDemands.MixedDemand.Complete | bench/tess_budgeted_progress_mixed.cc:478-489 | resolves exactly the agent's open item as completed |
| MixedDemands.MixedDemand.Rearm | bench/tess_budgeted_progress_mixed.cc:663-672 | every queued agent turns around and gets a fresh item toward its new end; no other agent changes |
| MixedDemands.MixedDemand.Settle | bench/tess_budgeted_progress_mixed.cc:675-691 | agents seen to have arrived complete, agents seen to be unable fail and turn around, all others keep their item; the queue holds exactly those that left |
| MixedDemands.MixedDemand.Mandatory | bench/tess_budgeted_progress_mixed.cc:661-692 | one tick from any reachable state: items and open agents stay matched one to one, no item both completed and failed, the gauge is right, an arrival is sent to the opposite end and a failure to the same one, and while admitting the idle agents are exactly the duplicate-free queue |
| MixedDemands.MixedDemand.Measure | bench/tess_budgeted_progress_mixed.cc:690-775 | any run of ticks is a run of the moments between them: at each tick the clock takes its number, queued agents turn around with a fresh item, and every agent is settled by its view; the window then holds what changed between the first moment and the last, balances, and counts items in flight at the start as admitted |
| MixedDemands.ArrivalIsMeasured | bench/tess_budgeted_progress_mixed.cc:661-775 | a tick that sees an agent arrived leaves its item completed at that tick and queues the agent |
| MixedDemands.CountedBalances | include/tess/diagnostics/diagnostics.h:478-497 | in every reachable state both identities hold and outstanding is admitted minus completed minus failed |
| MixedDemands.ObserveCounts | include/tess/diagnostics/diagnostics.h:513-519 | weighted inventory stays the residence of resolved items plus the ages of open ones |
| MixedDemands.ResolveCounts | include/tess/diagnostics/diagnostics.h:531-535 | resolving moves one item between buckets and its age into residence; the clamp at zero never acts |
| MixedDemands.PointerIsOldest | bench/tess_budgeted_progress_mixed.cc:456-464 | the first unresolved item has waited longest |
| MixedDemands.TickComposes | bench/tess_budgeted_progress_mixed.cc:661-692 | re-arming and settling together are one tick of every agent |
| MixedDemands.TickGrows | bench/tess_budgeted_progress_mixed.cc:661-692 | a tick keeps every outcome already given |
| MixedDemands.LiveWindow | bench/tess_budgeted_progress_mixed.cc:735-775 | every count of that window, for any later state of the same items: admitted is in flight before plus new, and is completed plus failed plus in flight; residence and weighted inventory are what the items account for, modulo 2^64 |
| PoolWork.PrefixSums | bench/tess_budgeted_progress_bench.cc:150-166 | the table of prefix sums, idle requests charged as one |
| PoolWork.PrefixIsCharged | bench/tess_budgeted_progress_bench.cc:243-253 | the difference of two wrapped prefixes is what the services between them are charged, for any warm-up, count and pool |
| PoolWork.ChargedIsReported | bench/tess_budgeted_progress_bench.cc:202-208 | charged work is reported work plus one per idle service |
| PoolWork.AstarCell.Quantum | bench/tess_budgeted_progress_bench.cc:188-208 | one service advances the cursor cyclically and reports and charges its request's work |
| PoolWork.AstarCell.RunRep | bench/tess_budgeted_progress_bench.cc:186-208 | a repetition's window reports the work of the services after its warm-up |
| PoolWork.AstarCell.CheckWork | bench/tess_budgeted_progress_bench.cc:242-257 | the zero-tolerance check passes exactly if no service within any window reported zero expanded nodes |
| PoolWork.IdlePoolFails | bench/tess_budgeted_progress_bench.cc:150-166 | where it does not hold: a request that expands nothing makes every repetition fail, by exactly its services |
| Tiles.Address | include/tess/core/shape.h:398-446 | chunk key and local id are in range and decode to the coordinate |
| Tiles.AddressBack | include/tess/core/shape.h:427-466 | every chunk key and local id in range is some coordinate's |
| Tiles.AddressesDiffer | include/tess/core/shape.h:398-453 | no two coordinates share an address |
| Tiles.ReadWrite | include/tess/core/shape.h:398-453 | a write through an address is seen at its coordinate and nowhere else |
| Tiles.ReadsDecide | include/tess/core/shape.h:398-453 | fields that read alike everywhere are the same |
| Churn.QueuedIsDirect | bench/tess_budgeted_progress_bench.cc:906-958 | running an event's operations chunk by chunk, in any order, is applying the event, and acknowledges each of its tiles once |
| Churn.ApplyReads | bench/tess_budgeted_progress_bench.cc:662-674 | applying toggles exactly the event's tiles |
| Churn.RunReads | bench/tess_budgeted_progress_bench.cc:906-929 | executing some of the chunks toggles exactly the event's tiles in them |
| Churn.ApplyKeepsParity | bench/tess_budgeted_progress_bench.cc:649-674 | a tile is blocked exactly if its event was applied an odd number of times since pristine |
| Churn.ColonyTerrain.constructor | bench/tess_budgeted_progress_bench.cc:636-639 | a terrain starts pristine |
| Churn.ColonyTerrain.TakeEvent | bench/tess_budgeted_progress_bench.cc:640-644 | events are handed out in a cycle |
| Churn.ColonyTerrain.ApplyEvent | bench/tess_budgeted_progress_bench.cc:662-674 | toggles the event's tiles in order and keeps the parity invariant |
| Churn.ColonyTerrain.BuildChunk | bench/tess_budgeted_progress_bench.cc:906-929 | one operation toggles the event's tiles in its chunk, counts them, and touches no other chunk's page |
| Churn.ColonyTerrain.RunEvent | bench/tess_budgeted_progress_bench.cc:944-958 | the queued update equals the direct one, whatever order the executor picks, and acknowledges all tiles |
| Churn.ColonyTerrain.RestorePristine | bench/tess_budgeted_progress_bench.cc:649-657 | from any state of a run the terrain is exactly as built, and the cycle starts over |
| Churn.AssembleEvents | bench/tess_budgeted_progress_bench.cc:720-758 | events of four open tiles in four chunks, remembering their costs and sharing no tile; exactly the draws whose tile was drawn before, or whose chunk the unfinished event already has, are passed over, the others fill the events in order, until there are enough events or no more draws |
| Churn.CentreIs | bench/tess_budgeted_progress_bench.cc:730-734 | a cell's tile lies in the middle of the square of tiles that stands for it |
| MixedChurn.PlaceAgents | bench/tess_budgeted_progress_mixed.cc:262-282 | homes are slots of the placement grid with both ends open, in scan order, goals lie at the fixed distance, and a slot is left free only when everybody is seated on earlier ones |
| MixedChurn.BuildPool | bench/tess_budgeted_progress_mixed.cc:309-340 | exactly the draws that are a home, a goal or a tile drawn before are passed over, until the pool is full or the draws are used up |
| MixedChurn.MixedStack.constructor | bench/tess_budgeted_progress_mixed.cc:96-116 | a stack starts with nothing blocked |
| MixedChurn.MixedStack.SelectEdits | bench/tess_budgeted_progress_mixed.cc:195-204 | takes the unoccupied pool tiles from the cursor on, in order, at most four; tiles passed over are not offered again |
| MixedChurn.MixedStack.ChunksOfEdits | bench/tess_budgeted_progress_mixed.cc:205-212 | names the chunk of every edit, each once and no other |
| MixedChurn.MixedStack.BlockOne | bench/tess_budgeted_progress_mixed.cc:78-95 | one operation blocks the pending tiles of its chunk and touches no other chunk's page |
| MixedChurn.MixedStack.Execute | bench/tess_budgeted_progress_mixed.cc:205-220 | executing the chunks in any order blocks exactly the pending tiles, each acknowledged once |
| MixedChurn.MixedStack.TickBody | bench/tess_budgeted_progress_mixed.cc:189-224 | exactly every so many ticks churn blocks the next four pool tiles nobody stands on, or all that are left; over any run only pool tiles, each at most once, never a home, a goal or an occupied tile, and nothing else changes |
| MixedChurn.ChunksBlockEdits | bench/tess_budgeted_progress_mixed.cc:205-220 | deduplicated chunk keys apply every pending edit exactly once |
| Text.SegmentsOfJoin | tools/assemble_changelog.py:303-307 | joined lines split back into the same lines |
| Text.StripJoin | tools/assemble_changelog.py:204-206 | stripping newlines off joined lines drops exactly the empty lines at the ends |
| Text.BreakCodes | tools/assemble_changelog.py:204-206 | the code points that end a line, and those that strip off its ends |
| DatedLog.HeadingLines | tools/assemble_changelog.py:277-297 | finds the headings outside fences, in order |
| DatedLog.StartsAreHeadings | tools/assemble_changelog.py:284-297 | every start is a dated heading outside any fence, in ascending order |
| DatedLog.SplitDatedSections | tools/assemble_changelog.py:300-308 | cuts from each dated heading to the next |
| DatedLog.SplitGivesWhole | tools/assemble_changelog.py:300-308 | every section of any text has one dated heading, at its top, and none but the last leaves a fence open |
| DatedLog.DatesInOrder | tools/assemble_changelog.py:329 | dates compare as their numbers of year, month and day do |
| DatedLog.AtMostIs | tools/assemble_changelog.py:329 | and texts as their first different characters do |
| DatedLog.DateReadsBack | tools/assemble_changelog.py:273 | a date written out in digits is one, with the same year, month and day |
| DatedLog.DateIsText | tools/assemble_changelog.py:273 | and every date is its year, month and day written out |
| DatedLog.DatedIs | tools/assemble_changelog.py:273 | a dated heading is a line that opens with its date, said character by character |
| DatedLog.FenceIs | tools/assemble_changelog.py:274 | a fence is a line whose first three characters after white space are equal, and back quotes or tildes |
| DatedLog.SortIsStable | tools/assemble_changelog.py:329 | sorting loses and duplicates nothing, puts dates in descending order as numbers of year, month and day, and keeps the order within each date |
| DatedLog.MergeDatedDocument | tools/assemble_changelog.py:311-331 | the merged document, its sections sorted newest first, or none without dated sections |
| DatedLog.MergeKeepsSections | tools/assemble_changelog.py:326-331 | for every document with a section: splitting the result gives existing and added sections, newest first by year, month and day, ties in old order with existing ones first, nothing lost or doubled, exactly when what is kept above them leaves no fence open and neither does any section but the last |
| DatedLog.KeptHasNoStarts | tools/assemble_changelog.py:327 | cut off anywhere above the first section, the text above starts no section itself |
| DatedLog.SwallowedIsLost | tools/assemble_changelog.py:277-309 | below an open fence, sections laid out are never the sections found: lines are missing |
| DatedLog.UnquotedIsQuiet | tools/assemble_changelog.py:327 | a document that quotes its first heading nowhere earlier keeps no fence open above it |
| DatedLog.MergeKeepsPreamble | tools/assemble_changelog.py:327-331 | the text above the sections survives, up to trailing white space, exactly when the first heading's opening occurs nowhere earlier |
| DatedLog.QuotingTemplateLosesEverything | tools/assemble_changelog.py:327 | where it does not hold: a document quoting its newest heading inside a fence above it loses every section |
| DatedFragments.ValidFragmentSections | tools/assemble_changelog.py:118-159 | a fragment that passes the check becomes one section, unless its heading is indented and another dated heading stands at a line's start; then it is cut in two |
| DatedFragments.IndentedFragmentSplits | tools/assemble_changelog.py:130-158 | such fragments exist, for any two dates |
| DatedFragments.RenderedFragmentsSplit | tools/assemble_changelog.py:252-260 | fragments that passed the check split back, rendered, into one section each, in order, exactly when each is a single section and none but the last leaves a fence open |
| DatedFragments.FragmentWeight | tools/assemble_changelog.py:252-260 | a fragment is a single section exactly when its first section holds all its lines that are not empty |
| Changelog.ParseSections | tools/assemble_changelog.py:189-228 | parses a body into categories, or reports its first stray line |
| Changelog.ParseSays | tools/assemble_changelog.py:189-228 | category by category, the entries say exactly what the body says there, line for line |
| Changelog.ParsedIsProper | tools/assemble_changelog.py:198-220 | categories are named once, in lower case, with entries that hold something and no heading |
| Changelog.HeadingNames | tools/assemble_changelog.py:213 | a rendered category heading reads back as the category |
| Changelog.ValidateReleaseFragment | tools/assemble_changelog.py:82-115 | accepts exactly the bodies whose first written line starts an item and whose others start or continue one |
| Changelog.RenderReleaseSections | tools/assemble_changelog.py:231-249 | merges body and fragments by category and renders them, each under its capitalized name, known categories first |
| Changelog.ToRenderIs | tools/assemble_changelog.py:233-247 | every category is rendered once, holding what the body and then the fragments hold for it |
| Changelog.RenderedInOrder | tools/assemble_changelog.py:231-249 | the headings of the rendered text, in order: of the eight known categories in their fixed order and then the body's others in theirs, exactly those with something to say |
| Changelog.KnownTitles | tools/assemble_changelog.py:248 | the eight known headings, letter by letter |
| Changelog.NothingIsLost | tools/assemble_changelog.py:189-249 | under each category the rendered text says exactly what the body said, then what that category's fragments say, in order |
| Changelog.RenderedParses | tools/assemble_changelog.py:189-249 | parsing the rendered text gives each category once, in order, its entries joined and stripped of empty lines at the edges; no line is stray |
| Release.FoldKeeps | tools/assemble_changelog.py:387-405 | of the folded text: what stood above the unreleased heading and from the next release on is unchanged, a fresh empty unreleased heading comes first, then the heading with version and date, and below it, under every category, exactly the lines the body held there and then those of the fragments |
| Release.FoldDecides | tools/assemble_changelog.py:358-405 | which of the outcomes a fold has: refused without an unreleased heading, for a version already there or for a stray line, nothing to fold, or folded |
| Release.PartitionIsUnique | tools/assemble_changelog.py:387-405 | head, body and remainder of a changelog are determined by its text |
| Release.RerunIsRefused | tools/assemble_changelog.py:376-386 | a version folded once is refused afterwards, on any date and with any fragments |
| Release.ReleasesStack | tools/assemble_changelog.py:387-405 | the next version is put above the last, which it leaves as it was, and says under every category exactly what its own fragments say |
| Delta.Union | include/tess/storage/chunk_meta.h:84-108 | the union of two boxes covers both |
| Delta.UnionIsLeast | include/tess/storage/chunk_meta.h:84-108 | and every box that covers both covers it |
| Delta.Clip | include/tess/sim/delta_frame.h:884-914 | clipping gives exactly what the bounds cover of the chunk, or the whole chunk if they miss it |
| Delta.ChunkBoxHolds | include/tess/sim/delta_frame.h:884-894 | every coordinate lies in its chunk's box |
| Delta.RenderWorld.Paint | examples/render_delta_consumer.cc:26-30 | writes one tile, widens its chunk's dirty bounds to it and advances the chunk's version |
| Delta.ListTiles | include/tess/sim/delta_frame.h:943-958 | lists exactly the box's tiles, each once and within the capacity; or the list is full and a tile of the box is missing |
| Delta.DeltaCollector.CollectChunk | include/tess/sim/delta_frame.h:916-981 | a dirty chunk is recorded exactly and cleared, as a list of tiles if it is small and the list has room and as a box otherwise; it stays dirty, and the frame is truncated, exactly when the records are at capacity |
| Delta.DeltaCollector.CollectTileDeltas | include/tess/sim/delta_frame.h:997-1014 | truncates exactly if pending and dirty chunks together exceed the capacity for records or something was lost before; only at capacity does a chunk stay dirty, every other dirty one is recorded and cleared, clean ones are left alone |
| Delta.DeltaCollector.CollectBaseline | include/tess/sim/delta_frame.h:1027-1059 | one box per chunk, all chunks cleared, truncated exactly if the records do not fit |
| Delta.DeltaCollector.Publish | include/tess/sim/delta_frame.h:526-587 | seals the pending state; the version advances exactly if it carries any |
| Delta.DeltaCollector.Clear | include/tess/sim/delta_frame.h:593-607 | pending state is lost and a baseline demanded |
| Delta.RecordsStaySlotted | include/tess/sim/delta_frame.h:399-417 | slots always point at their entity's last move |
| Delta.RecordsStayTraced | include/tess/sim/delta_frame.h:399-443 | every entity's last record has its slot: a move one to fold into, anything else a barrier |
| Delta.RecordingIs | include/tess/sim/delta_frame.h:399-417 | a move is folded exactly if its entity's last pending record is a move that ended where it starts; anything else is appended while there is room, and otherwise lost with the frame truncated |
| Delta.PresentIs | examples/render_delta_consumer.cc:79-87 | a despawned or parked entity shows no marker, any other record puts it where it went, and nobody else is touched |
| Delta.CoalescingPresentsTheSame | include/tess/sim/delta_frame.h:399-417 | folding a move into an earlier record presents the same markers as recording it |
| Delta.Consumer.Repaint | examples/render_delta_consumer.cc:55-78 | shows the world on exactly what a record covers |
| Delta.Consumer.Apply | examples/render_delta_consumer.cc:48-89 | applies exactly the applicable frames: what the frame covers shows the current world, the rest is untouched, markers follow the entity records in order |
| DeltaSession.CurrentShowsTheWorld | examples/render_delta_consumer.cc:32-50 | in every reachable state: a consumer at the published version, with nothing dirty, pending or dropped, shows the world everywhere |
| DeltaSession.CurrentShowsTheEntities | examples/render_delta_consumer.cc:48-89 | and its markers are those of the entity records since the last baseline |
| DeltaSession.PublishPresents | include/tess/sim/delta_frame.h:526-587 | publishing keeps the promise about markers; a baseline starts it anew |
| DeltaSession.ApplyPresents | examples/render_delta_consumer.cc:48-89 | so does applying a frame |
| DeltaSession.RecordPresents | include/tess/sim/delta_frame.h:399-443 | and recording an entity, coalesced or not |
| DeltaSession.PaintKeeps | examples/render_delta_consumer.cc:26-30 | painting at any moment keeps the protocol invariant |
| DeltaSession.CollectKeeps | include/tess/sim/delta_frame.h:997-1014 | collecting keeps it, and leaves nothing dirty unless truncated |
| DeltaSession.BaselineKeeps | include/tess/sim/delta_frame.h:1027-1059 | collecting a baseline keeps it |
| DeltaSession.PublishKeeps | include/tess/sim/delta_frame.h:526-587 | publishing keeps it, and leaves behind a consumer that had not caught up |
| DeltaSession.ApplyKeeps | examples/render_delta_consumer.cc:48-89 | applying keeps it |
| DeltaSession.Session.constructor | examples/render_delta_consumer.cc:104-108 | the initial state satisfies it |
| DeltaSession.Session.Paint | examples/render_delta_consumer.cc:26-30 | paints between any two steps |
| DeltaSession.Session.PublishDelta | examples/render_delta_consumer.cc:131-132 | collects and publishes; the frame is truncated exactly if records were lost before or dirty chunks exceed the room, and is otherwise all there is to tell; a consumer that missed a frame is behind from then on |
| DeltaSession.Session.PublishBaseline | examples/render_delta_consumer.cc:143-144 | a baseline is truncated exactly if the chunk records do not fit |
| DeltaSession.Session.Deliver | examples/render_delta_consumer.cc:134-150 | a consumer that missed a frame refuses every frame but a baseline; an applied frame brings it to the published version and, when nothing is left to tell, its shadow equals the world and its markers the entity records since the last baseline |
| DeltaSession.Session.Frame | examples/render_delta_consumer.cc:131-150 | the loop: with room for the dirty chunks and no earlier loss, a consumer that was up to date accepts the frame, its shadow equals the world everywhere and its markers the entity records; one that was behind refuses it |
| DeltaSession.Session.Reset | include/tess/sim/delta_frame.h:593-607 | a hard reset keeps the invariant |
| DeltaSession.Session.Entity | include/tess/sim/delta_frame.h:399-443 | entity records present the same markers whether coalesced or not, and one is lost exactly if there is no room and it does not continue its entity's last move |
| Congestion.Signal | examples/congestion_pricing.cc:87-107 | each tile counts the goal-holding agents on or beside it, in 16 bits |
| Congestion.Reprice | examples/congestion_pricing.cc:85-141 | surcharge is min(3, heat) everywhere, heat is halved and added to, exactly the risen tiles are flagged, exactly the chunks with a changed price are marked, and no tile becomes enterable or impassable |
| Congestion.Disarm | examples/congestion_pricing.cc:172-194 | heat and surcharge are zero everywhere, and exactly the chunks that carried a surcharge are marked |
| Congestion.RepriceAll | examples/congestion_pricing.cc:85-141 | any sequence of repricings is a run of the states between them |
| Congestion.RunHeat | examples/congestion_pricing.cc:110-121 | over any run, every tile's heat cell holds what the crowds there made of the heat at the start, and its price is capped from it |
| Congestion.HeatIsBounded | examples/congestion_pricing.cc:113-121 | over any run with at most A goal-holding agents at a time, every heat cell is at most 2A - 1, every surcharge min(3, heat), and up to A = 32768 the 16 bits hold the true heat |
| Congestion.SixteenBitsSuffice | examples/congestion_pricing.cc:113-115 | over every run from a cold start of at most A goal-holding agents a tile's 16-bit heat is its true heat, exactly if A is at most 32768 |
| Congestion.QuietHalves | examples/congestion_pricing.cc:112-115 | over a run of k repricings that see no crowd at a tile, its heat becomes floor(heat / 2^k) |
| Congestion.FlagMeansDearer | include/tess/topology/movement_class.h:168-182 | entry cost rises exactly if the tile is flagged, has terrain, and is below the ceiling; and it is zero exactly if terrain is |
| Congestion.UnflaggedCostsNoMore | examples/congestion_pricing.cc:142-160 | a route none of whose remaining tiles is flagged costs no more than before |
| Congestion.ScopeReplans | include/tess/experimental/path_agent_replan_selection.h:46-81 | queues exactly the eligible agents whose route crosses a flagged tile ahead, and counts the new ones |
| Congestion.UnaskedPayNoMore | examples/congestion_pricing.cc:142-160 | so an agent left unasked pays no more for its remaining route |
| Congestion.ReplanQueue.Request | include/tess/sim/path_agent_tick.h:337-356 | accepts an agent with a goal that is not already waiting, at the end of the queue |
| Congestion.ReplanQueue.PopFront | include/tess/sim/path_agent_tick.h:394-408 | drops the first waiting agent and frees it to ask again |
| Congestion.ReplanQueue.Contains | include/tess/sim/path_agent_tick.h:383-385 | tells whether an agent is waiting |
| Changepoint.Detect | tools/benchmark_changepoint.py:158-265 | runs the rule over the newest stratum; a relative change from a zero median raises |
| Changepoint.DetectMeans | tools/benchmark_changepoint.py:158-265 | every verdict in terms of artifacts and readings: no data, a series break, suspects exactly if some observed name with enough readings rises by both floors in every candidate, clean exactly if every name is judged and none rises, partial and insufficient history likewise; with the sizes and the three commits |
| Changepoint.RulingMeans | tools/benchmark_changepoint.py:196-265 | the verdict for a stratum that is long enough, and no other verdict, in those terms; its size and the three commits |
| Changepoint.MedianIs | tools/benchmark_changepoint.py:229 | the median of a sorted history is its middle, or the mean of the two middle readings |
| Changepoint.StratumIs | tools/benchmark_changepoint.py:161 | the stratum holds exactly the artifacts of the key |
| Changepoint.StratumConcat | tools/benchmark_changepoint.py:161 | in their order: the stratum of a longer history is that of its beginning and then that of the rest |
| Changepoint.StratumOne | tools/benchmark_changepoint.py:161 | and of one artifact, that artifact if it has the key |
| Changepoint.HistoryConcat | tools/benchmark_changepoint.py:213-215 | likewise a benchmark's readings come in the order of the artifacts |
| Changepoint.HistoryOne | tools/benchmark_changepoint.py:213-215 | one for every artifact that has one |
| Changepoint.JudgementMeans | tools/benchmark_changepoint.py:196-240 | each omission names exactly the runs or counts that cause it, shifted means enough baseline readings and every candidate above their median by both floors, unshifted that some candidate is not |
| Changepoint.OnlyTheWindowMatters | tools/benchmark_changepoint.py:168-195 | verdict, suspects, omissions and commits depend only on the newest stratum's last 33 artifacts |
| Changepoint.EveryNameIsCovered | tools/benchmark_changepoint.py:196-262 | every candidate name is evaluated or omitted with its reason, never both or twice, the counts say so, and suspects are exactly the evaluated names found shifted |
| Changepoint.SuspectsExceedHalf | tools/benchmark_changepoint.py:228-240 | each candidate reading of a suspect exceeds at least half of its eight or more baseline readings |
| Changepoint.AboveMedian | tools/benchmark_changepoint.py:229-235 | a reading above the median exceeds at least half of the readings |
| Changepoint.FailsOnZeroBaselines | tools/benchmark_changepoint.py:229-242 | detection fails with a division by zero exactly if some name reads above zero and the absolute floor in all candidates and has enough baseline readings, of median zero |
| Changepoint.RisesFromMostlyZero | tools/benchmark_changepoint.py:229-242 | for readings that are not negative: more than half of those baseline readings are zero |
| Changepoint.ZeroMedian | tools/benchmark_changepoint.py:229 | because the median of such readings is zero exactly if more than half of them are |
| Changepoint.FirstReadingsFail | tools/benchmark_changepoint.py:229-242 | a history it fails on: a benchmark that read zero until its last three artifacts |
| Changepoint.PositiveBaselinesAreSafe | tools/benchmark_changepoint.py:229-242 | positive readings never do that |
| Changepoint.CandidateNamesAre | tools/benchmark_changepoint.py:268-274 | candidate names are the observed ones, each once, in order of their character codes |

## Left out

- The query's heap and ordered maps are a multiset from which the least entry is taken and maps whose export order is free; allocation failures, size limits of containers and callbacks that throw are not modelled. A snapshot is a finite table of what its providers answer.
- The second proof of optimality by seeds in another order, result ownership slots and payload sizes of queries.
- Indices of 32 bits in the oracle are unbounded numbers; so are tick, version and item counters that would need 2^64 steps to wrap. Costs, flow counters and heat keep their machine width.
- `build_oracle`'s loops over the concrete fixture, the request generator and every number of the seeded maps.
- The running hash of extracted transitions is the sequence of values mixed into it.
- The benchmark's aborts are refused results: a `false`, or `None`.
- Frame pacing: `run_one_rep` and `run_saturated_budgets` decide how many services fall into a window, which is a parameter here; timing, samples, RSS and artifacts are not part of this model.
- PoolWork.AstarCell.CheckWork: sums are unbounded here; in 64 bits the check would also pass if the idle services were a multiple of 2^64.
- MixedDemands.MixedDemand.Mandatory: what the simulation does to agents between re-arming and settling is an arbitrary view of each agent; the summary of lateness and starvation is left out because it only counts.
- Churn.AssembleEvents: the random draws are a parameter, here and for `BuildPool`, and running out of them yields fewer events where the source aborts.
- MixedChurn.PlaceAgents: returns those it seated where the source aborts if that is not everybody.
- The executor, the planner's writes to agents' positions and the topology update behind churn; the queued operations are run in an order chosen arbitrarily.
- Text is read with universal newlines and consists of characters; letters outside ASCII have no case and digits outside ASCII are no digits. File names and calendar dates are represented by the category or date they carry; files, directories and the all-or-nothing write are left out.
- Release.FoldKeeps: a release of decisions only, which folds nothing into the changelog, leaves it as it was; the three documents are folded separately.
- Delta.Union: saturation of boxes near 2^63 and dirty bits of other owners; overlays, statistics, moved-from collectors, sparse residency and the generation check on frame views.
- Delta.Consumer.Repaint: a tile's value is shown as a number, not cut to a character.
- Delta.RecordsStaySlotted: the open-addressing table of slots is a map.
- DeltaSession.Session.Deliver: a frame is delivered before the next is published, as its view demands; markers of entities without a record since the last baseline are the caller's to restore.
- Congestion.Signal: positions are not truncated to 32 bits; agents on tiles outside the map count toward their neighbours inside it, as in the source.
- The planner that follows routes, and the wall fixture of the congestion example.
- Changepoint.Detect: floating-point readings are reals; loading, units, reports and the metric manifests are left out.
- A*, field products, caches, PIBT, arrival tracking, capacity search, schedulers and the adapters: the modelled files only call them.
