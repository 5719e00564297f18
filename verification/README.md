# AegisPay, modelled and verified in Dafny

AegisPay decides about card payments and about the disputes they lead to. This project models the
deterministic, in-memory core of its Python backend and proves what that core keeps over every
input, every run and every reachable state. `dafny verify dfyconfig.toml` checks all of it.

The model follows the program's own shape. Objects that the program updates in place are classes
whose methods change fields (`EntityGraph`, `IntegrationEventRepository`, `RateLimiter`,
`CalibrationRegistry`, `IdempotencyRepository`, `RiskApi`, `DisputeRepository`), each proved against
a specification on values; loops are loops with invariants; decisions made of expressions are
functions. What the program promises is then proved about the specifications.

## The parts

- **Entity graph** (`GraphModel`, `GraphLedger`, `Traversal`, `SearchSize`, `TemporalCut`,
  `EntityGraph`, `SetSums`). A graph of merchants, transactions, devices and tokens, kept in three indexes that
  share their edge objects. `Traversal` gives the breadth-first searches an independent meaning,
  shortest distance through visible edges; `TemporalCut` says what a question "as of" a past moment
  can still learn from the future.
- **Ingestion** (`EntityIds`, `EventUpdates`, `IngestionOrder`, `EventProcessor`, `IngestedEvent`). One event is turned
  into node and edge merges exactly once; from any store, the final graph is a function of that store
  and the set of distinct events.
- **Order and assessment** (`IngestedScores`, `AssessmentOrder`, `CutSearch`, `CutOrder`, `TruncatedOrder`,
  `OrderedScores`). What of an assessment depends on the order of deliveries and what does not, for
  searches with room and for searches cut short.
- **Cross-merchant risk** (`CrossMerchantRisk`, `DirectRules`, `RiskAtCut`, `RiskAfterIngestion`). Attribution and
  propagation over the graph, in ten-thousandths, where four-digit rounding is exact, and what later
  updates and events change about an assessment made as of an earlier moment.
- **JSON repair** (`JsonRepair`, `BracketGrammar`, `RepairSamples`, `JsonExtraction`). The bracket scanner that
  completes or truncates broken model output, over the structural characters of section 2 and the
  strings of section 7 of RFC 8259.
- **Statistics** (`KolmogorovSmirnov`, `PopulationStability`, `RocAuc`, `CalibrationError`). Fast
  loops against their textbook definitions.
- **Rate limiting** (`RateLimiter`). The sliding window over whole runs.
- **Decide, record, replay** (`CalibrationRegistry`, `ChangedConfigs`, `DecisionReplay`, `LinearScore`,
  `RiskEvaluation`, `EvaluationEffects`, `RaisedDecision`, `RiskService`). A versioned registry, two scorers written independently, and the endpoint that
  checks, acts, snapshots and records.
- **Disputes** (`EvidenceRules`, `ExpectedValue`, `DisputeWorkflow`, `DisputeTables`). The Compelling Evidence 3.0
  rules, the expected-value router and the drafting and auditing loop, under any verdicts and faults.

## How things are represented

Timestamps are integers (dates are day numbers); the limiter's clock is a real number of seconds. Amounts,
probabilities and shares are exact reals; `round` is rounding to the nearest value, ties to even.
Win probabilities are integers in hundredths. `exp` and `log` are arbitrary functions with the axioms
stated in `Logistic.IsExp` (positive, at least `1 + x`, and turning sums into products) and
`PopulationStability.IsLog` (strictly increasing, 0 at 1, `log(1/x) = -log x`); the logistic curve is
an arbitrary function in the cross-merchant theorems and the one given by `exp` at the endpoint.
SHA-256 is injective. Language-model answers, clock readings, audit-storage failures and faults are
inputs, and every theorem holds for all of them.

## Where the code does less than its comments say

These are stated as theorems, with the exact condition where there is one.

- The time cut protects which edges and ids a question sees, not their counters: a later event merged
  into a visible edge shows in them (`TemporalCut.LateCountsLeak`). Base scores have no date either:
  later reports can raise, but never lower, the risk propagated as of an earlier moment, and they
  leave it alone exactly when no neighbour's share changes (`RiskAtCut.LateRunsRaiseExactly`, with a
  run that raises it in `RiskAtCut.LaterReportRaises`).
- A later sighting of an entity silences its own prior investigation in assessments as of an earlier
  moment (`RiskAtCut.LaterSightingSilencesPrior`). `RiskAtCut.ReadingKeptExactly` says exactly when a
  late run leaves everything such an assessment reads as it was, and
  `RiskAfterIngestion.LaterEventsKeepReadingExactly` what that comes to for ingested events.
- The traversals look their root up without the cut, so a root first added later is answered for if
  it already had visible edges (`TemporalCut.HindsightExactlyForLateRoots`,
  `TemporalCut.HindsightHappens`).
- `max_nodes` is tested only between expansions. A search passes it exactly when its last turn finds
  more new ids than were left, and by no more than that (`SearchSize.SizeExactly`), as in
  `SearchSize.SearchPassesItsBound`; what it reports is exact all the same
  (`Traversal.HopsAreExact`).
- Two tokens that spell each other's edge ids make the graph depend on delivery order, and with
  consistent event ids nothing else does (`IngestionOrder.OrderInsensitiveExactlyWhenFaithful`,
  `IngestionOrder.SpelledTokensCollide`).
- A backslash left pending at the end of the text defeats the closing quote of the JSON repair
  (`JsonRepair.RepairBalancesExactly`, `JsonRepair.EndsInEscapeMeans`,
  `JsonRepair.PendingBackslashDefeats`); a second pass always mends it.
- The limiter rounds the delay it announces to hundredths of a second, so the announced moment can
  come up to 5 milliseconds too early. Under a fixed limit it holds if and only if the remaining delay
  was not rounded down or is at most 0.1 seconds (`RateLimiting.RetryIsExact`,
  `RateLimiting.RoundedRetryIsDenied`). Lowering the limit between calls can break it as well
  (`RateLimiting.RetryUnderAnyLimit`, `RateLimiting.LoweredLimitBreaksRetry`).
- Ingestion alone scores nothing: an entity known only from events has risk 0
  (`IngestedScores.IngestionScoresNothing`), and every positive score needs the base scores or
  outcomes that other writers put into the same graph.
- On a graph that carries them, a search with room makes the assessment depend only on the store and
  the set of events delivered into it (`AssessmentOrder.AssessmentDependsOnlyOnEvents`). Where
  `max_nodes` cuts the search short, two orders of the same two events can give the scores 0.2 and 0
  (`OrderedScores.TwoOrdersTwoScores`). `CutOrder.OrderBlindExactly` says exactly when the order of the
  adjacency lists does not matter to the hop sets.
- Only `promote` checks a configuration's integrity. One that its holder changes while it is active,
  or while a rollback leads back to it, is served as it is (`ChangedConfigs.ChangedConfigIsServed`).
- Smoothing below -1 turns the stability index around: it is never positive, and the clamp hides every
  difference (`PopulationStability.NegativeSmoothingClamps`,
  `PopulationStability.NegativeSmoothingHides`).
- Snapshots store 0.0 for propagated risk. A replay finds delta 0 exactly when the graph had not
  raised the live score, and calls itself a match exactly when the graph had raised it by at most
  0.001 without crossing a threshold that matters (`RiskEvaluation.SavedSnapshotReplays`);
  `RaisedDecision.RaisedDecisionDoesNotReplay` is a saved decision that does not match. A payment held
  for manual review is never on record, because the snapshot has no such action
  (`RiskEvaluation.ManualHoldNeverSaved`).
- A replay takes the configuration then stored under the snapshot's version, changed or not. It gives the
  evaluation back exactly when that configuration judges the saved features alike
  (`RiskEvaluation.ReplayAfterAnyRun`), which a changed intercept need not
  (`RaisedDecision.ChangedConfigBreaksReplay`).
- The default evidence-gap texts of the dispute workflow are unreachable
  (`DisputeWorkflow.DefaultGapNeverUsed`), and the lower clamp of the win probability never binds
  (`ExpectedValue.ClampBindsExactly`).
- More evidence can turn a fought dispute into a settled one. For given amount, fee and cost it never
  does if and only if a dispute at the lowest probability, 0.22, is not fought or one at the highest,
  0.95, is (`ExpectedValue.EvidenceKeepsFightExactly`). That is so whenever fee and cost are not
  together a gain (`ExpectedValue.NoNetGainKeepsFight`), but not on all terms
  (`ExpectedValue.RefundReversesFight`).

## Model

| member | source | states |
|---|---|---|
| GraphModel.AddEdgeKeepsCoherent | app/entity_intelligence/graph.py:91-113 | one `add_edge`, new or merging, leaves every edge listed exactly once under its source and once under its target, and nothing else listed |
| GraphModel.ReachableGraphsAreCoherent | app/entity_intelligence/graph.py:60-113 | every run of `add_node` and `add_edge` from the empty graph keeps the three indexes coherent |
| GraphModel.IncidentMember | app/entity_intelligence/graph.py:127-146 | the incident list of an id holds exactly the edges that have it as an end and, under a cut, were first seen at the cut or before |
| GraphLedger.EdgeLedger | app/entity_intelligence/graph.py:91-112 | after any run an edge exists exactly if some update named it, with the least first sighting, greatest last sighting and the sums of all counters of those updates |
| GraphLedger.NodeLedger | app/entity_intelligence/graph.py:69-89 | the same for nodes, the base score being the largest ever reported |
| GraphLedger.EdgeSeenExactly | app/entity_intelligence/graph.py:127-146 | after any run, an edge is seen at a moment, at the ends its first update gave it, if and only if some update of it is dated that moment or before |
| GraphLedger.NodeSeenExactly | app/entity_intelligence/graph.py:115-125 | the same for `get_node` |
| Traversal.SearchIsExact | app/entity_intelligence/graph.py:148-177 | every depth the search assigns is the shortest distance through visible edges, cut short or not; a search that empties its queue labels every id within `max_depth` |
| Traversal.HopsAreExact | app/entity_intelligence/graph.py:148-177 | hop sets 1 and 2 hold only ids at exactly that distance even when truncated, and all of them when not |
| Traversal.HopOneIsComplete | app/entity_intelligence/graph.py:160-177 | hop 1 is complete in every search that expands its root, truncated or not |
| Traversal.ClusterMatchesHops | app/entity_intelligence/graph.py:179-219 | at depth 2 the cluster visits exactly the root and both hop sets; untruncated, it collects exactly the visible edges that touch the root or hop 1 |
| Traversal.AnalysedExactly | app/entity_intelligence/graph.py:217-271 | the summary of a cluster, field by field: known ids of each kind among those visited, and events and failure share of the edges met |
| Traversal.UnknownRootFindsNothing | app/entity_intelligence/graph.py:157-204 | around an id that is no node both searches find nothing |
| Traversal.SameSearch | app/entity_intelligence/graph.py:148-177 | graphs that list the same incident edges and neighbours everywhere are searched identically |
| SearchSize.SizeExactly | app/entity_intelligence/graph.py:160-177 | a search below bound 2 stops at its root; otherwise its last turn starts below the bound and adds exactly the new neighbours of the id it expands, so it passes the bound if and only if they are more than were left, and reports at most `max_nodes` - 1 and those |
| SearchSize.SearchPassesItsBound | app/entity_intelligence/graph.py:163-175 | asked for 2 ids, the search around a transaction with three neighbours reports all three |
| TemporalCut.LateRunKeepsCut | app/entity_intelligence/graph.py:69-146 | no run of updates dated after the cut changes an incident list seen at the cut |
| TemporalCut.NoHindsight | app/entity_intelligence/graph.py:127-219 | after any run of later updates, incident edges keep ids and order, and both traversals answer the same for every root already known, truncation included |
| TemporalCut.EmptyHops | app/entity_intelligence/graph.py:157-177 | the hop search of a known root reports nothing exactly if a bound forbids it or all visible edges at the root are self-loops |
| TemporalCut.HindsightExactlyForLateRoots | app/entity_intelligence/graph.py:157-158 | a late run changes the answer for a root exactly when it first adds that root and the root already had a visible edge to another id |
| TemporalCut.HindsightHappens | app/entity_intelligence/graph.py:157-158 | an edge written before its node is such a case: the answer as of 10 changes when the node is added at 20 |
| TemporalCut.LateCountsLeak | app/entity_intelligence/graph.py:99-112 | an edge visible at the cut keeps identity, ends and first sighting, while each counter grows by exactly the late updates merged into it |
| TemporalCut.NodePresenceKept | app/entity_intelligence/graph.py:115-125 | `get_node` at the cut finds the same ids, with the same kind and first sighting, before and after a late run |
| EntityGraphs.EntityNode.Merge | app/entity_intelligence/graph.py:74-88 | merging a sighting, possibly of the object itself, gives min, max, sum and greatest base score |
| EntityGraphs.EntityEdge.Merge | app/entity_intelligence/graph.py:99-112 | merging a sighting of an edge gives min, max and sums |
| EntityGraphs.EntityGraph.AddNode | app/entity_intelligence/graph.py:69-89 | the object graph follows the value graph, and only fresh copies enter the store |
| EntityGraphs.EntityGraph.AddEdge | app/entity_intelligence/graph.py:91-113 | a new edge is copied into all three indexes, a known one is merged in the shared object so that every index shows it; the caller's object is never stored |
| EntityGraphs.EntityGraph.InsertEdge | app/entity_intelligence/graph.py:93-98 | a copy of a new edge enters the edge map and both adjacency lists as one object |
| EntityGraphs.EntityGraph.EdgeObjectsIndexedOnce | app/entity_intelligence/graph.py:91-98 | in every valid graph each stored edge object is listed once under its source and once under its target, and no other object is listed anywhere |
| EntityGraphs.EntityGraph.GetNode | app/entity_intelligence/graph.py:115-125 | returns the stored object exactly if it was first seen by the cut |
| EntityGraphs.EntityGraph.GetIncidentEdges | app/entity_intelligence/graph.py:127-146 | returns the stored edge objects visible at the cut, in the order of the specification |
| EntityGraphs.EntityGraph.SeenObjects | app/entity_intelligence/graph.py:127-146 | the objects it returns are exactly the stored edges at the id that were first seen at the cut or before |
| EntityGraphs.EntityGraph.GetNeighborsByHop | app/entity_intelligence/graph.py:148-177 | the loop over `visited`, queue and hops computes the hop sets that `Traversal` proves exact |
| EntityGraphs.EntityGraph.FindConnectedCluster | app/entity_intelligence/graph.py:179-271 | the loop and the aggregation give the counts by kind, the event total, the failure rate and the very node and edge objects of the cluster that `Traversal` characterises |
| EntityGraphs.EntityGraph.CollectCluster | app/entity_intelligence/graph.py:196-219 | the loop visits the ids of the search and collects each met edge object once, under its id |
| EntityIds.IdDeterminesKind | app/entity_intelligence/entities.py:25-44 | no two kinds ever produce the same entity id, whatever the raw values |
| EntityIds.CanonicalIds | app/entity_intelligence/entities.py:26-43 | kind by kind, the id is the stripped value with the kind's own prefix, added where it is missing, and `unknown` for no value |
| EventUpdates.EdgeKindUnique | app/events/processor.py:32-76 | the up to five edge ids written for one event are different |
| EventUpdates.EventTouchesNode | app/events/processor.py:25-76 | one event makes exactly one update of each node it names and none of any other |
| EventUpdates.EventTouchesEdge | app/events/processor.py:29-76 | the same for edges |
| IngestionOrder.ContinuedIsSummarised | app/events/processor.py:15-78 | after any deliveries into any coherent store it holds exactly its own and the distinct new events, and each node and edge is the old one, if any, with first sighting, last sighting and number of sightings grown by the distinct new events naming it |
| IngestionOrder.DeliveriesAreSummarised | app/events/processor.py:15-78 | from the empty store: each node and edge has min first, max last and the number of distinct events naming it |
| IngestionOrder.SameEventsSameGraph | app/events/processor.py:15-78 | two deliveries of the same events into any coherent store, in any order and with any repeats, give equal nodes, edges and adjacency sets |
| IngestionOrder.AnyOrderFromAnyStore | app/events/processor.py:15-78 | so it is for all deliveries of a set of events at once, store and graph |
| IngestionOrder.AnyOrderSameGraph | app/events/processor.py:15-78 | and from the empty store in particular |
| IngestionOrder.CollisionBreaksOrder | app/events/processor.py:32-76 | in any store, two new events that give one new edge id different ends end differently in the two orders |
| IngestionOrder.SpelledTokensCollide | app/events/processor.py:26-46 | for any transaction and device tokens, an event whose device token spells the relationship out and one whose transaction id does share an edge id with different ends, and so do not commute |
| IngestionOrder.CollidingEventsExist | app/events/processor.py:26-46 | two concrete events with consistent ids on which the graph depends on the order |
| IngestionOrder.OrderInsensitiveExactly | app/events/processor.py:15-78 | on any coherent store and for new events with consistent ids, the result is independent of order and repetition if and only if equal new edge ids mean equal ends |
| IngestionOrder.OrderInsensitiveExactlyWhenFaithful | app/events/processor.py:15-78 | the same from the empty store |
| AssessmentOrder.RoomySearchesAgree | app/entity_intelligence/graph.py:160-177 | if the search of one graph meets fewer than `max_nodes` ids, no graph with the same edges cuts it short, and all label the same ids with the same depths |
| AssessmentOrder.RoomyTraversalsAgree | app/entity_intelligence/graph.py:148-219 | then hop sets and cluster are the same too |
| AssessmentOrder.SameReading | app/entity_intelligence/risk.py:123-324 | and so is everything an assessment reads, whatever the order of the adjacency lists |
| AssessmentOrder.AssessmentDependsOnlyOnEvents | app/entity_intelligence/risk.py:117-361 | on any coherent store, with whatever base scores and outcomes other writers put there, two deliveries of the same events give every entity whose search has room the same reading and score |
| IngestedScores.IngestionScoresNothing | app/events/processor.py:25-78 | after any deliveries into an empty store every entity scores 0 |
| IngestedScores.OnlyPropagation | app/entity_intelligence/risk.py:277-335 | in a graph without outcomes, an entity without a base score of its own scores exactly the risk propagated to it, capped at 1 |
| CutSearch.HopTwoExactly | app/entity_intelligence/graph.py:148-177 | a search of depth 2, cut short or not, reports all neighbours as hop 1, and as hop 2 what they find in list order as long as root, hop 1 and what was found leave room |
| CutOrder.OrderBlindExactly | app/entity_intelligence/graph.py:127-177 | the hop sets are the same for every order of the adjacency lists if and only if root and hop 1 fill the bound, or whichever far ends of outgoing edges first fill it find what all of them find and, should all of them not fill it, the same holds of incoming edges on top |
| CutOrder.UnfreeTells | app/entity_intelligence/graph.py:127-177 | otherwise two graphs equal up to list order are answered differently |
| CutOrder.PropagationDependsOnlyOnEvents | app/entity_intelligence/risk.py:277-309 | under that condition the risk propagated in a graph depends only on store and events, even if its search is cut short |
| TruncatedOrder.FirstMerchantFound | app/entity_intelligence/graph.py:163-175 | of two new events on one device with any number of other neighbours, the search for four ids more than those reports the merchant of the event delivered first |
| TruncatedOrder.TruncatedSearchDependsOnOrder | app/entity_intelligence/graph.py:163-175 | so two deliveries of the same two events are answered differently although their graphs agree up to list order |
| OrderedScores.ScoreDependsOnOrder | app/entity_intelligence/risk.py:277-335 | if, of all nodes, only the first event's merchant carries a base score, 0.8, the device scores 0.2 in one order and 0 in the other, under the bound of 200 every caller uses |
| OrderedScores.TwoOrdersTwoScores | app/entity_intelligence/risk.py:277-335 | a concrete store of 196 transactions around a device and two concrete events for which it does |
| EventProcessor.IntegrationEventRepository.Save | app/events/repository.py:33-41 | a known event id is refused without any change; a new event is stored and appended to its transaction's list |
| IngestionOrder.TransactionsInOrder | app/events/repository.py:33-41 | after any deliveries the events listed under a transaction are those listed before and then its accepted ones in order of delivery |
| EventProcessor.ProcessIntegrationEvent | app/events/processor.py:15-78 | store and graph object together follow the specification of one delivery; a duplicate changes neither |
| EventProcessor.WriteEvent | app/events/processor.py:25-76 | the sequence of node and edge writes is the event's update list |
| IngestedEvent.NodesWritten | app/events/processor.py:25-76 | a new event sights its merchant and transaction, and each token it carries under the kind of its own field, once each; a node new to the graph has that kind and no score, an old one only grows, and no other node changes |
| IngestedEvent.EdgesWritten | app/events/processor.py:31-76 | and one edge for each: from the transaction to merchant, device, address and instrument, from the account to the transaction, each under its relationship's id; no other edge changes |
| IngestedEvent.TransactionSeesCounterparts | app/entity_intelligence/graph.py:127-177 | asked as of the event's own moment, hop 1 of its transaction holds the merchant and every token |
| IngestedEvent.FirstPaymentOfDevice | app/entity_intelligence/graph.py:127-177 | and around a device new with this event, hop 1 is the transaction and hop 2 the merchant and every other token, no more and no less |
| CrossMerchantRisk.ComputeCrossMerchantRisk | app/entity_intelligence/risk.py:117-361 | the signals are one per rule that fires and one per neighbour that reaches its floor; the direct score accumulated rule by rule and the propagated one, in any order, together equal their contributions; the score is that sum capped at 1 |
| CrossMerchantRisk.ApplyRules | app/entity_intelligence/risk.py:185-275 | the direct score, a maximum and then sums kept beside the signals, is the sum of the points of the rules that fire, and the signals are one for each of them |
| DirectRules.RulesExactly | app/entity_intelligence/risk.py:185-324 | every finished assessment carries the signal of each of the six direct rules exactly when the counts read call for it, written out with their thresholds, and then once, with exactly the points written out |
| DirectRules.CountsRead | app/entity_intelligence/risk.py:140-172 | those counts are the distinct merchants, accounts and devices next to the entity, the outcomes of its visible edges, and nodes and outcomes of its cluster |
| DirectRules.SeenExactly | app/entity_intelligence/risk.py:144-168 | the ids so counted are the other ends of edges, and themselves nodes of the kind, both first seen at the cut or before |
| DirectRules.PropagationExactly | app/entity_intelligence/risk.py:277-335 | propagated risk is half of every score from 0.40 at hop 1 and a quarter of every score from 0.60 at hop 2; the score is direct plus propagated, at most 1, high from 0.70 and medium from 0.30 |
| FailingAddress.AddressScore | app/entity_intelligence/risk.py:227-275 | an address at two merchants with three failures in five scores 0.2292 under a curve that is 0.12 at -2 and 0.62 at 0.5 |
| CrossMerchantRisk.RulesAreAttributed | app/entity_intelligence/risk.py:185-326 | the signals add up to the points of the rules and the additions of both hops |
| CrossMerchantRisk.SignalsAreAll | app/entity_intelligence/risk.py:185-324 | rule, hop and cluster signals together are exactly those the graph calls for, each once |
| CrossMerchantRisk.ScoreInUnit | app/entity_intelligence/risk.py:326-335 | with a curve into [0,1] and no negative counters every score lies in [0,1], and is at least the base score of a prior investigation that counts |
| CrossMerchantRisk.RunKeepsCountersNonNegative | app/entity_intelligence/graph.py:110-112 | no run of updates with non-negative counters makes one negative |
| CrossMerchantRisk.Propagate | app/entity_intelligence/risk.py:282-309 | whatever order a hop set is iterated in, the signals are one for each neighbour that reaches the floor, and the addition is the sum of their shares |
| CrossMerchantRisk.Inspect | app/entity_intelligence/risk.py:144-172 | the loop over incident edges finds exactly the merchants, accounts and devices known at the cut and the outcome totals |
| CrossMerchantRisk.PropagationRises | app/entity_intelligence/risk.py:277-309 | with the same hop sets and base scores no lower, propagated risk is no lower |
| CrossMerchantRisk.RaisingNeverLowers | app/entity_intelligence/risk.py:277-309 | raising any one node's base score, edges untouched, never lowers the risk propagated to any entity |
| RiskAtCut.LateRunsRaiseExactly | app/entity_intelligence/risk.py:277-309 | later updates never lower the risk propagated as of an earlier cut, and leave it unchanged if and only if no neighbour known at the cut gets a different share from the greatest of its score and its late reports |
| RiskAtCut.LaterReportRaises | app/entity_intelligence/risk.py:281-286 | a neighbour reported later with a base score of 0.8 raises what was propagated as of before |
| RiskAtCut.MergedRiskIsGreatest | app/entity_intelligence/graph.py:86-88 | the score after any sightings is the greatest of the old one and those reported |
| RiskAtCut.ReadingKeptExactly | app/entity_intelligence/risk.py:123-335 | a late run leaves everything the assessment as of the cut reads as it was if and only if the prior-investigation gate, the totals of late outcomes on incident and on cluster edges, the size of the cluster and the neighbours' shares are all untouched |
| RiskAtCut.UntouchedAssessmentKept | app/entity_intelligence/risk.py:326-361 | then score, level, direct and propagated risk come out the same |
| RiskAtCut.PriorKeptExactly | app/entity_intelligence/risk.py:189-194 | late sightings leave the prior-investigation rule as it was if and only if there are none or it was silent |
| RiskAtCut.LaterSightingSilencesPrior | app/entity_intelligence/risk.py:192-194 | a device with a prior investigation, sighted later, loses those points as of before |
| RiskAtCut.RiskFreeRunsKeepPropagation | app/entity_intelligence/risk.py:277-309 | later updates without base scores leave the risk propagated as of the cut unchanged, for every graph |
| RiskAfterIngestion.LaterEventsKeepRisk | app/events/processor.py:15-78 | delivering any events dated after the cut leaves the risk propagated as of the cut exactly as it was |
| RiskAfterIngestion.LaterEventsKeepReadingExactly | app/events/processor.py:15-78 | they leave the whole reading as it was if and only if the entity had no prior investigation that counted or is not named again, and none of them first adds an id the cluster already reached |
| RiskAfterIngestion.ContinuedGraph | app/events/processor.py:20-23 | deliveries change the graph by the updates of the accepted events and nothing else |
| JsonRepair.BalanceJsonText | app/agents/llm.py:75-105 | the one-pass loop over stack and string state computes the repair the lemmas below describe |
| JsonRepair.RepairBalancesExactly | app/agents/llm.py:75-105 | a second scan of the result finds no mismatch, nothing open and no open string if and only if the trimmed text has no pending backslash |
| JsonRepair.EndsInEscapeMeans | app/agents/llm.py:80-102 | the failing family: no mismatched closer, an unterminated string, an odd run of backslashes at the end |
| JsonRepair.PendingBackslashDefeats | app/agents/llm.py:99-104 | an object cut off after a backslash inside a string is such a text: its repair is not balanced |
| JsonRepair.BalancedHasNoEscape | app/agents/llm.py:99-105 | a balanced text never has a pending backslash and is returned unchanged |
| JsonRepair.IdempotentExactly | app/agents/llm.py:75-105 | repairing twice equals repairing once exactly outside the failing family |
| JsonRepair.TwoPassesSuffice | app/agents/llm.py:75-105 | two passes balance every text |
| RepairSamples.ClosersPair | app/agents/llm.py:92-98 | a closing brace closes a brace and a closing bracket a bracket, and neither the other |
| RepairSamples.TruncatedArray | app/agents/llm.py:100-106 | `{"a": [1` is repaired to `{"a": [1]}` |
| RepairSamples.TruncatedString | app/agents/llm.py:100-106 | `{"a` is repaired to `{"a"}` |
| RepairSamples.TrailingComma | app/agents/llm.py:101-106 | `[1, ` is repaired to `[1]` |
| RepairSamples.StrayCloser | app/agents/llm.py:92-98 | `[}` is repaired to `[]` |
| JsonRepair.ViableExactly | app/agents/llm.py:79-98 | a text can be continued to a balanced one exactly if the scan found no mismatched closer |
| JsonRepair.KeepsLongestViablePrefix | app/agents/llm.py:93-104 | the repair keeps the longest prefix that any continuation could balance, trimmed, and adds at most one quote followed only by closers |
| JsonExtraction.ExtractJsonObject | app/agents/llm.py:108-124 | whatever the parser, the answer is what it makes of the first candidate it accepts among the text, the slice between outer braces and the repair of the stripped text |
| JsonExtraction.EmbeddedObjectIsFound | app/agents/llm.py:109-113 | an object inside prose without an opening brace before it or a closing one after it is found, unless the whole text parses already |
| JsonExtraction.RepairDecides | app/agents/llm.py:114-124 | with a parser that accepts only balanced texts, a text without a balanced whole or slice yields an object only through the repair, hence only without a pending backslash |
| BracketGrammar.BalancedMeansWellNested | app/agents/llm.py:75-105 | the scanner accepts a text exactly if its strings are closed and its brackets outside strings form a word of the nesting grammar |
| BracketGrammar.ScanSplits | app/agents/llm.py:79-98 | the one pass equals quote tracking over the text together with a stack run over the brackets outside strings |
| KolmogorovSmirnov.KsDistance | app/monitoring/drift.py:56-75 | the two-pointer merge returns the supremum of the gap of the empirical distributions over all real points, attained |
| KolmogorovSmirnov.ComputeKsStatistic | app/monitoring/drift.py:51-77 | the reported value is that distance rounded to four digits, 0 for an empty sample |
| KolmogorovSmirnov.KsUnique | app/monitoring/drift.py:56-75 | two samples have only one such distance |
| KolmogorovSmirnov.KsSymmetric | app/monitoring/drift.py:56-75 | swapping the samples keeps the distance |
| KolmogorovSmirnov.KsRange | app/monitoring/drift.py:56-77 | the distance lies in [0,1] and is 0 exactly if the two distributions coincide |
| KolmogorovSmirnov.KsOneExactly | app/monitoring/drift.py:56-75 | and it is 1 if and only if some value separates the samples |
| SortedReals.SortedSpec | app/monitoring/drift.py:56-57 | sorting gives an ascending sequence with the same empirical counts |
| PopulationStability.OneBin | app/monitoring/drift.py:27-36 | every value between the outer edges lands in some first matching bin |
| PopulationStability.BinsDisjoint | app/monitoring/drift.py:33-36 | no value matches two bins |
| PopulationStability.SamplesArePartitioned | app/monitoring/drift.py:20-36 | every value of either sample is counted in exactly one bin |
| PopulationStability.PsiMeaning | app/monitoring/drift.py:41-48 | wherever all smoothed shares are positive the index is never negative, so the final clamp never binds, and is 0 exactly if every bin holds the same proportion of both samples |
| PopulationStability.NegativeSmoothingClamps | app/monitoring/drift.py:37-48 | with smoothing below -1 a value is always computed, the index is never positive, and the clamp binds if and only if some bin's proportions differ |
| PopulationStability.NegativeSmoothingHides | app/monitoring/drift.py:37-48 | two samples with different proportions for which the clamp binds |
| PopulationStability.NegativeTermSign | app/monitoring/drift.py:44-46 | a term of two negative shares is 0 if they are equal and negative otherwise |
| PopulationStability.DefinedExactly | app/monitoring/drift.py:37-46 | without negative smoothing a value is computed if and only if there is some smoothing or no bin of either sample is empty, and then all shares are positive |
| PopulationStability.PsiSymmetric | app/monitoring/drift.py:20-46 | wherever a value is computed at all, swapping the samples changes neither the bins nor the value |
| PopulationStability.TwoBinIndex | app/monitoring/drift.py:12-53 | a concrete index: 0 and 1 against 0.5 in two bins, smoothed by 0.5, give half the sum of log 2 and log 1.5 |
| PopulationStability.GetCounts | app/monitoring/drift.py:30-39 | the nested counting loops give the smoothed bin shares |
| PopulationStability.ComputePsi | app/monitoring/drift.py:10-48 | the reported value is the clamped and rounded index, 0 for an empty or constant pair of samples or a negative number of bins; it raises exactly on zero bins or where some quotient of shares has no logarithm |
| RocAuc.AccumulatorCountsPairs | app/calibration/evaluation.py:59-67 | the accumulator over the sorted sample equals the number of positive-negative pairs ranked positive first |
| RocAuc.AccumulatorBetween | app/calibration/evaluation.py:59-67 | it lies between the strict and the weak pair count and is the Mann-Whitney count when no scores tie |
| RocAuc.AucIsPairShare | app/calibration/evaluation.py:54-69 | with both classes present the value is a share of all pairs, between the strict and the weak share, in [0,1] |
| RocAuc.ComputeRocAuc | app/calibration/evaluation.py:50-69 | the loop computes that value to four digits, with 0.5 for malformed input or no negatives and 1.0 for no positives |
| CalibrationError.OneBin | app/calibration/evaluation.py:33-39 | every probability in [0,1] has exactly one bin, 1.0 included |
| CalibrationError.BinsPartition | app/calibration/evaluation.py:33-44 | bin counts sum to the sample size and bin sums to the total |
| CalibrationError.ContributionIsSumGap | app/calibration/evaluation.py:42-45 | the weighted gap of a bin's means is the gap of its sums over the sample size |
| CalibrationError.ErrorBetweenMeansAndOne | app/calibration/evaluation.py:21-47 | for every sample the error lies between the distance of mean label and mean probability, and 1 |
| CalibrationError.ComputeExpectedCalibrationError | app/calibration/evaluation.py:21-47 | the loop over bins computes that error to six digits, 0 for malformed input or a negative number of bins; it raises exactly on zero bins for a well-formed sample |
| RateLimiting.RateLimiter.IsAllowed | app/auth/rate_limiter.py:15-36 | verdict, announced delay with its rounding, and stored hits of the one identifier follow the specification, on every call that does not raise; all others are untouched |
| RateLimiting.RunIsSound | app/auth/rate_limiter.py:15-36 | after every run the stored hits are the recent grants, never more than the limit |
| RateLimiting.WindowSafety | app/auth/rate_limiter.py:15-36 | in every run every window (w-60, w] holds at most `limit` grants |
| RateLimiting.GrantedExactly | app/auth/rate_limiter.py:20-36 | a request is granted if and only if the window ending at it holds fewer than `limit` grants |
| RateLimiting.RemainingIsWhatIsLeft | app/auth/rate_limiter.py:26-36 | the announced remainder is the limit less the grants in the window, the request's own included |
| RateLimiting.RetryIsExact | app/auth/rate_limiter.py:29-32 | a denied caller that stays quiet is granted at the announced moment if and only if the remaining delay was not rounded down or is at most 0.1 seconds, and always 5 milliseconds later |
| RateLimiting.GrantedFromExpiry | app/auth/rate_limiter.py:20-32 | a denied caller that stays quiet is granted exactly from the moment the oldest hit expires; the announcement is the remaining delay rounded to hundredths, at least 0.1 |
| RateLimiting.RoundedRetryIsDenied | app/auth/rate_limiter.py:29-32 | under a limit of 1, a hit at 0.004 and a denial at 1.0 announce 59.0 seconds, and the retry at 60.0 is denied |
| RateLimiting.RetryOnWholeHundredths | app/auth/rate_limiter.py:29-32 | with times in whole hundredths the announced moment always holds |
| RateLimiting.RetryUnderAnyLimit | app/auth/rate_limiter.py:27-32 | after any run under varying limits a denied caller is granted at the announced, rounded moment if and only if fewer than `limit` stored hits are still in the window that ends then |
| RateLimiting.LoweredLimitBreaksRetry | app/auth/rate_limiter.py:27-32 | three calls under a limit of 3 and one under a limit of 1: the last is denied, and denied again at the announced moment |
| RateLimiting.IdentifiersAreIndependent | app/auth/rate_limiter.py:15-36 | in any interleaving, each call with a limit of its own, what is stored for an identifier is what its own calls alone would have left |
| RateLimiting.FixedLimitRun | app/auth/rate_limiter.py:15-36 | with one limit throughout, that is the run the promises above are about |
| CalibrationRegistries.CalibrationRegistry.Register | app/calibration/registry.py:77-90 | the caller's own object gets the computed hash and is stored under its version, unless it carries a wrong one |
| CalibrationRegistries.CalibrationRegistry.Promote | app/calibration/registry.py:92-108 | a registered, intact version becomes active and is pushed unless already on top |
| CalibrationRegistries.CalibrationRegistry.RollbackToPrevious | app/calibration/registry.py:110-122 | pops the history down to, but never below, its first entry and answers with the object then active |
| CalibrationRegistries.CalibrationRegistry.GetActive | app/calibration/registry.py:124-130 | answers with the object stored under the active version, the default object if there is none |
| CalibrationRegistries.ReachableIsSound | app/calibration/registry.py:67-122 | after every run the history starts with the default, has no adjacent repeats, names only registered intact configurations, and its top is active |
| CalibrationRegistries.ActiveIsRegistered | app/calibration/registry.py:124-130 | the fallback to the default is never needed: the active configuration is the one registered under its version |
| CalibrationRegistries.PromotableExactlyWhenRegistered | app/calibration/registry.py:95-102 | in registries whose objects are left alone promotion succeeds exactly for registered versions |
| ChangedConfigs.PromotionFailsExactlyWhenChanged | app/calibration/registry.py:92-102 | in any run in which holders also change stored objects but not their hash, promoting a stored version fails if and only if what its hash covers is no longer what was last registered |
| ChangedConfigs.ChangedContentFails | app/calibration/models.py:68-84 | so promotion fails once a threshold, the intercept or the weight of a name differs to six digits from what was registered, or features, schema, period, dataset, version or model type do |
| ChangedConfigs.StoredHashIsRegistered | app/calibration/registry.py:80-90 | in such runs every stored object still carries the hash of what was last registered |
| ChangedConfigs.ChangedConfigIsServed | app/calibration/registry.py:110-130 | a configuration changed while active, or while the next rollback leads to it, is served as it is |
| ChangedConfigs.AssignStored | app/calibration/registry.py:89-90 | an assignment to the stored object, by anyone, changes the registry's view of that version and nothing else |
| CalibrationRegistries.RollbacksUndoPromotions | app/calibration/registry.py:92-122 | any run that returns to its starting height without going below it restores history and active version |
| CalibrationRegistries.RollbackUndoesPromotion | app/calibration/registry.py:92-122 | a rollback exactly undoes an effective promotion; promoting the active version does nothing |
| CalibrationRegistries.RegisteredStays | app/calibration/registry.py:77-90 | a registered configuration stays as it is until its own version is registered again |
| Logistic.SigmoidsAgree | app/audit/replay.py:16-21 | the replay's cut-off logistic and the scorer's agree to four digits everywhere |
| Logistic.CurveRises | app/entity_intelligence/risk.py:101-106 | the curve of the cross-merchant rules rises, is one half at 0, and is the scorer's wherever that does not overflow |
| DecisionReplay.SumsAgree | app/audit/replay.py:40-43 | the accumulating loop and the scorer's sum give the same linear term |
| DecisionReplay.ReplayedScoreIsBase | app/audit/replay.py:35-48 | on the stored features the replay recomputes exactly the live calibrated score |
| LinearScore.DefaultTerm | app/calibration/registry.py:42-60 | the linear term of the default configuration, written out with its ten weights and its intercept |
| LinearScore.ScoreRises | app/firewall/scoring.py:355-366 | under weights that are not negative, raising components never lowers the score |
| EvaluationEffects.LoudSessionIsBlocked | app/api/v1/risk_routes.py:170-240 | with every component at 1 the default configuration scores at least 0.74 and, with all four tokens, blocks, whatever the graph holds; a fault in a lookup costs a quarter of evidence and leaves a challenge or a human |
| EvaluationEffects.EvidenceCounts | app/api/v1/risk_routes.py:180-196 | evidence is 0.25, plus 0.15 for each of device, address and account and 0.10 for the instrument, less the penalty, within [0,1] to two digits |
| EvaluationEffects.RequestIsIngested | app/api/v1/risk_routes.py:134-152 | a new request writes its merchant, transaction and each token it carries under its own kind at its own time |
| EvaluationEffects.RequestIsStored | app/api/v1/risk_routes.py:144-158 | and is stored as one created event with its own id, time, amount, currency and tokens |
| EvaluationEffects.LookupsExactly | app/api/v1/risk_routes.py:204-222 | the graph is asked for the device of the device token and the address of the address token, as of the request's time; without a token nothing is asked, and after a faulty device lookup the address is not |
| EvaluationEffects.RecordedExactly | app/api/v1/risk_routes.py:252-345 | answer, webhook and snapshot carry the same decision and score, the snapshot also the features scored, evidence quality and calibration version |
| DecisionReplay.PoliciesAgree | app/decision/policy.py:40-53 | the live policy and the replay's take the same action wherever the live one does not hold for review, and it holds exactly on high risk of at least 0.85 with weak evidence |
| DecisionReplay.RunReplay | app/audit/replay.py:24-83 | the loop and the reassigned action compute the specified replay |
| DecisionReplay.ReplayTakesGreater | app/audit/replay.py:45-48 | the replayed score is the greater of the curve and the stored propagated risk, each to four digits |
| RiskEvaluation.RecordsPersist | app/idempotency/service.py:36-54 | no step of any run changes or removes an idempotency record |
| RiskEvaluation.AnswerIsRecorded | app/api/v1/risk_routes.py:348-356 | every answer given under a key is on record under it |
| RiskEvaluation.KnownCallChangesNothing | app/api/v1/risk_routes.py:124-128 | a call under a known key changes nothing at all |
| RiskEvaluation.SameKeySameAnswer | app/api/v1/risk_routes.py:121-356 | once a key is answered, in any run every later call under it gets that answer or, for a different request, a conflict, and leaves graph, events, snapshots, webhooks, records and registry as they were |
| RiskEvaluation.NotRaisedExactly | app/api/v1/risk_routes.py:204-226 | the graph stage keeps four digits, never lowers the score, and leaves it alone exactly if every lookup reached is silent |
| RiskEvaluation.SavedSnapshotReplays | app/api/v1/risk_routes.py:198-300 | after any promotions, rollbacks and registrations of other versions a saved snapshot replays to its base score; delta 0 if and only if the graph had not raised the score; a match if and only if it had raised it by at most 0.001 across no threshold |
| DecisionReplay.SamePolicyExactly | app/audit/replay.py:50-57 | two scores are treated alike if and only if no threshold that matters, given the evidence, lies between them |
| RaisedDecision.RaisedDecisionDoesNotReplay | app/api/v1/risk_routes.py:204-300 | a quiet session on a suspect device is blocked on the graph's word, saved, and replays to another score without a match |
| RaisedDecision.ChangedConfigBreaksReplay | app/audit/replay.py:29-60 | a decision saved under the default configuration whose intercept is then changed replays to 1.0 without a match |
| RiskEvaluation.RegistryOfRun | app/api/v1/risk_routes.py:198-202 | evaluations never change the registry; what is done to it and to the objects in it does |
| RiskEvaluation.ReplaysExactlyWhenJudgedAlike | app/audit/replay.py:24-60 | against any registry, a saved snapshot replays to the score live scoring would give its features under the configuration found, and gives its evaluation back if and only if that configuration leads to the same base score and action |
| RiskEvaluation.ReplayAfterAnyRun | app/audit/replay.py:24-60 | in any run of evaluations, registry operations and changes to stored configurations, every snapshot held at the end was saved by some evaluation of its transaction, and its replay gives that evaluation back if and only if the configuration then found judges it alike, as it does if it was active under its own version and left alone since |
| RiskEvaluation.ManualHoldNeverSaved | app/api/v1/risk_routes.py:269-305 | a decision is on record exactly if storage worked and the action was not a manual hold; otherwise snapshots are unchanged |
| RiskService.CheckIdempotency | app/idempotency/service.py:9-33 | nothing found, a cached answer or a mismatch, each exactly when the record store says so |
| RiskService.RiskApi.EvaluateTransactionRisk | app/api/v1/risk_routes.py:111-356 | the endpoint over the live objects follows the specification the run theorems are about: ownership, then idempotency, then effects |
| RiskService.RiskApi.EvaluateFresh | app/api/v1/risk_routes.py:144-356 | ingestion, scoring on the live graph, snapshot, webhook and record happen in this order and change nothing else |
| RiskService.RiskApi.DecideAndRecord | app/api/v1/risk_routes.py:198-356 | what follows the ingestion reads graph and registry and changes only snapshots, webhooks and records |
| RiskService.RiskApi.AskGraph | app/api/v1/risk_routes.py:207-221 | the graph is asked about a token only if the request carries it, as of the request's time, and answers with the assessed score of the live graph |
| EvidenceRules.EvaluateRuleEngine | app/engine/ce3_rules.py:20-109 | the pass over the history yields the qualifying transactions, the reasons and the flags of the specification |
| EvidenceRules.QualifiedExactly | app/engine/ce3_rules.py:55-98 | a dispute qualifies if and only if it claims unrecognised fraud and two different historical transactions lie 120 to 365 days back and share an identifier |
| EvidenceRules.EveryTransactionJudgedOnce | app/engine/ce3_rules.py:55-83 | every historical transaction either qualifies or is excluded once, in order, for the first test it fails |
| EvidenceRules.JudgedExactly | app/engine/ce3_rules.py:12-17 | the cascade of tests accepts exactly the transactions inside the window that share a non-empty address or device |
| EvidenceRules.JudgementsMean | app/engine/ce3_rules.py:55-84 | which test a transaction fails first, and the days and identifier one that passes is recorded with, the address before the device |
| EvidenceRules.ChosenExactly | app/engine/ce3_rules.py:78-84 | what is listed as qualifying are exactly the compelling transactions, in order, each with its own id, days and identifier |
| EvidenceRules.ReasonsExactly | app/engine/ce3_rules.py:43-98 | a missing date, a missing history, a single compelling transaction and another claim are each given as a reason exactly when they hold |
| EvidenceRules.NoReasonMeansQualified | app/engine/ce3_rules.py:85-103 | an answer without any reason is a qualified one whose whole history qualifies |
| EvidenceRules.MoreHistory | app/engine/ce3_rules.py:55-83 | inserting transactions anywhere never lowers the qualifying count |
| EvidenceRules.OrderIrrelevant | app/engine/ce3_rules.py:55-109 | the order of the history changes neither qualification, count nor flags |
| ExpectedValue.ComputeWinProbability | app/engine/expected_value.py:26-41 | the branches add up to the specified probability, within 0.02 and 0.95 |
| ExpectedValue.ClampBindsExactly | app/engine/expected_value.py:26-41 | on rule-engine answers the lower clamp never binds and the upper one exactly on qualification with completed 3-D Secure and physical proof |
| ExpectedValue.FightsAboveBreakEven | app/engine/expected_value.py:44-68 | fighting is chosen only above break-even, and always if it is ahead by more than a cent |
| ExpectedValue.FightsExactly | app/engine/expected_value.py:44-68 | for amounts in whole cents fighting is chosen exactly if it is ahead by more than half a cent, or by half a cent on an odd amount |
| ExpectedValue.ProbabilityHelpsExactly | app/engine/expected_value.py:50-54 | a higher probability never lowers the value of fighting if and only if twice the amount plus the fee is not negative |
| ExpectedValue.MoreEvidenceNeverHurts | app/engine/expected_value.py:26-68 | inserting historical transactions never lowers the win probability and, on terms that keep a fight, never turns fighting into another route |
| ExpectedValue.EvidenceKeepsFightExactly | app/engine/expected_value.py:26-68 | on given amount, fee and cost no dispute ever loses its fight to further history if and only if one at 0.22 is not fought or one at 0.95 is |
| ExpectedValue.EvidenceKeepsFightInCents | app/engine/expected_value.py:44-68 | for amounts in whole cents the same as two comparisons of numbers |
| ExpectedValue.NoNetGainKeepsFight | app/engine/expected_value.py:44-68 | that holds whenever fee and cost are together no gain, or twice the amount plus the fee is not negative |
| ExpectedValue.RefundReversesFight | app/engine/expected_value.py:44-68 | terms that do not: a refund of 1000 whose contest pays 1000 is fought without history and settled with two compelling transactions |
| DisputeWorkflow.EveryStepGetsCloser | app/graph/workflow.py:298-340 | every edge of the state graph lowers one measure, from any state, so every run ends |
| DisputeWorkflow.LoopExactly | app/graph/workflow.py:325-334 | from any point of the loop exactly the audits up to the first passing verdict, or up to the limit, are made, unless a node raises on the way |
| DisputeWorkflow.OneAudit | app/graph/workflow.py:248-254 | one audit appends one numbered record, and routing after it is to finalise, draft again or escalate exactly by verdict and limit |
| DisputeWorkflow.ExecuteExactly | app/graph/workflow.py:298-340 | a run raises if and only if a fault strikes one of its steps, and ends otherwise in the state its evidence and verdicts call for |
| DisputeWorkflow.IngestDispute | app/api/routes.py:21-72 | the endpoint answers with the run's state or the parked one, stores exactly that row when the database is reachable and warns when it is not |
| DisputeWorkflow.DisputeRepository.SaveDispute | app/db.py:81-115 | inserts or updates one row, or changes nothing when the database cannot be reached |
| DisputeWorkflow.TrailIsSound | app/agents/auditor.py:56-91 | in every concluded dispute the iteration count is the length of the trail, at most max(1, max_iterations), numbered from 1, one record per verdict, all but the last failed |
| DisputeWorkflow.TrailRecords | app/agents/auditor.py:56-91 | each record of the trail in terms of the auditor's answer: its number, whether it passed, and whether the model gave none |
| DisputeWorkflow.EndsInOneRightStatus | app/graph/workflow.py:227-254 | contested exactly if the last audit passed, out of iterations exactly if there were audits and all failed, settled and human review exactly by decision, never pending |
| DisputeWorkflow.FaultParksExactly | app/api/routes.py:22-53 | a dispute is parked with a human, without audits and as an unknown claim, exactly if a fault strikes its run |
| DisputeWorkflow.ContestedExactly | app/graph/workflow.py:244-254 | contested if and only if nothing raises, the route is to fight, and some verdict within the limit passes |
| DisputeWorkflow.UncertainClaimsReachHuman | app/graph/workflow.py:157-171 | a claim neither in the table nor classified with confidence always ends with a human and is never drafted |
| DisputeWorkflow.HumanExactly | app/graph/workflow.py:157-171 | a dispute ends in human review if and only if a fault struck its run, or its code is in no table and the classifier names no claim or is less than 0.4 sure |
| DisputeWorkflow.ClaimExactly | app/graph/workflow.py:150-171 | its claim and where it comes from: the table, the classifier or the fault |
| DisputeWorkflow.AssessmentExactly | app/graph/workflow.py:174-212 | without a fault it keeps to its end the rule engine's answer for its claim, the probability and values that follow, and as its gap the reasons given, if any |
| DisputeWorkflow.DefaultGapNeverUsed | app/graph/workflow.py:197-205 | the per-claim default gap text is unreachable |
| DisputeTables.VisaCodes | app/engine/reason_codes.py:5-40 | exactly which Visa reason codes mean which claim |
| DisputeTables.MastercardCodes | app/engine/reason_codes.py:5-40 | the same for Mastercard |
| DisputeTables.NpciCodes | app/engine/reason_codes.py:5-40 | the same for NPCI, and no code of an unknown network means any |
| DisputeTables.FlagsRead | app/engine/ce3_rules.py:26-48 | the evidence flags in terms of the words and indicators they are read from |
| DisputeTables.BareWin | app/engine/expected_value.py:6-42 | without evidence the probability is 0.35, 0.30, 0.55, 0.30, 0.45 and 0.25, claim by claim |
| DisputeTables.WinWith | app/engine/expected_value.py:6-42 | and what each piece of evidence adds |
| DisputeTables.StoredColumns | app/api/routes.py:55-72 | the stored row has network, code and payload of the event and claim, decision, status, probability and number of audits of its outcome |
| DisputeWorkflow.MoreEvidenceSameEnding | app/graph/workflow.py:174-254 | through rules, router, loop and faults, and for the same verdicts and faults, a fought dispute ends in the same status with the same trail when further historical transactions come with it |
| DisputeWorkflow.MoreEvidenceStillFought | app/graph/workflow.py:174-254 | whatever the auditor then says, with the same classification and no fault it is still fought, and ends contested or out of audits |
| DisputeWorkflow.MoreAuditsNeverHurt | app/graph/workflow.py:248-254 | for the same verdicts and faults, allowing more audits keeps every contested dispute contested, with the same trail |

## Left out

- Floating-point rounding, and the numerics of `exp` and `log`: arithmetic is exact, with the axioms above.
- Gradient descent in the calibration trainer, synthetic generators, benchmarks and evaluation suites.
- ISO-8601 parsing: a timestamp is an integer, except that a dispute's may be absent; graph timestamps always parse.
- Metadata dictionaries on nodes and edges, which are last-write-wins and so depend on order.
- PostgreSQL, FastAPI wiring, command line, logging, latency, and the dashboard.
- Language-model calls, prompts, retries and salvage; their answers are inputs, and the JSON parser is an arbitrary function.
- The contents of dossiers, notices, lifecycle enrichment, explanation texts and cluster ids.
- The recursion limit of the workflow library: it is one of the faults a run may meet.
- Behavioural feature extraction: the component scores are inputs, the same for scorer and snapshot.
- Exceptions inside the graph lookups of the evaluation endpoint are inputs, one for each lookup.
- DisputeWorkflow.MoreEvidenceSameEnding: compares runs under the same verdicts, though the auditor is shown the history and may judge otherwise.
- DisputeWorkflow.MoreAuditsNeverHurt: compares runs under the same verdicts, though the auditor's prompt names the limit.
- Currency conversion, webhook delivery and retries: the quality penalty is an input, and a webhook is one entry in a log.
- Brier score, precision-recall AUC, confusion matrix, production metrics and alert thresholds, which are single expressions or simpler loops of the same kind.
- Thread interleavings: calls are sequential, as the evaluation handler has no await between check and record.
- RateLimiting.RateLimiter.IsAllowed: leaves out the call without a positive limit on either side and without a recent hit, on which the source raises by indexing an empty list.
- PopulationStability.PsiMeaning: is about positive shares; between -1 and 0 smoothing can make some bins' shares negative and others' not, where the index can have either sign.
- CalibrationError.ErrorBetweenMeansAndOne: is about probabilities and labels in [0,1], outside of which no bin need take a value.
- RocAuc.AucIsPairShare: is about labels 0 and 1 with both present, the only ones the pair count has a meaning for.
- CalibrationRegistries.CalibrationRegistry.Register: gives the new view of the whole registry only for an object not also stored under another version, where it changes as well.
- ChangedConfigs.PromotionFailsExactlyWhenChanged: is about holders that leave the stored hash alone; whoever recomputes it passes the check.
- The text of a denial, which rounds the announced delay once more, to tenths of a second.
- RiskEvaluation.SameKeySameAnswer: identifies a request with its hash, SHA-256 being injective here.
- DisputeWorkflow.IngestDispute: a fault while saving other than an unreachable database is not modelled.
