# Verified models of the trading core

A Dafny model of four parts of the system, and proofs about them.

* **The order manager** (`src/roq/core/oms`). Each book holds target quantities per price level and a
  set of live orders, every order a triple of pending, confirmed and expected versions. `process`
  reconciles one with the other against an asynchronous gateway. `Orders`, `Reconcile` and `Oms`
  define what a call and every event do, on values; `OmsManager` is the program's own shape, classes
  whose methods loop over maps and change them in place, each method proved to be a step of `Oms`.
  `Runs` and `RunBounds` hold what every run keeps, `Requests` what the requests of a run say, `Reports` what
  answers, targets and downloads do to levels, bans and positions, `Convergence` and `ConvergenceRuns` that
  targets are reached, `Progress` that a call can always be completed.
* **The pricing graph** (`src/roq/dag`). `PricingGraph` is the longest-path worklist, `PricingNodes`
  the interval arithmetic of sums and products, `Pricer` the reason the graph exists: one pass in path
  order settles every node.
* **The liquidation strategy** (`src/roq/lqs`). `Doubles` is the tolerant arithmetic, `Sizing` the
  quoted volumes with their bounds and their exact exceptions, `QuotePrices` where quotes stand against the
  market, `JointFills` the delta when several legs are filled, `Strategy` the event handlers, `Updates` what
  an update does to positions, markets and quotes. `Liquidation` composes it with the order manager and an
  exchange, end to end; `StaleTargets` shows what that rests on.
* **Fills of a spreader leg** (`src/roq/spreader`). `SpreaderLeg` recovers them from running averages.

`Totals` sums over finite maps. Hash maps are visited in no particular order: every loop over one picks
its next key arbitrarily, so what is proved holds for every order.

Quantities and prices of the order manager are whole lots and ticks; elsewhere they are reals, with
the tolerance of 1e-6 kept where the program compares with it. `dafny verify dfyconfig.toml` checks
everything.

## Where the program falls short

Each of these is proved, with the condition under which the promise does hold.

* The counters of the levels are cleared once per call, not once per restart. A restart therefore takes
  every matched level for overfull and moves or cancels one of its orders. `RestartDisturbsMatchedLevels`
  says when, `MatchedOrderIsCanceled` shows a book. The book converges all the same, in two rounds.
* The strategy promises that the absolute position never increases (`src/roq/lqs/README.md:12`). Tolerant
  comparison can break that by no more than the tolerance. `BuysGrowIff` and `SellsGrowIff` say exactly when
  a quote with a price does, `SmallShortGrows` is a leg whose quote does.
* It promises that delta stays within its thresholds (`src/roq/lqs/README.md:13`). Every leg of an underlying
  is sized against the whole room, so the promise holds for a list with one entry that is not linear, and fails
  for two (`DeltaIsKeptJointlyIff`; `TwoLegsBreakThresholds` is a consistent state with two quoted legs). A
  linear entry counts the spot price, as the delta does but the room left for it does not. A leg assigned to
  another underlying is never erased from the list of the first, where others may come to stand twice. `DeltaIsKeptIff` is the condition for fills of one leg.
* A new spot price of an underlying is kept but not acted on (`NewSpotIsConsistentIff`, `NewSpotGoesStale`).
* The handler of market quotes of the pricing graph throws away what the pipelines compute, and sends what the
  nodes have stored before (`StoringKeepsSettledIff`, `StoringUnsettles`, `PublishedIsOld`). One pass of
  `Node::compute` in path order would settle the graph; the results on passes are about that.
* The weight of a reference is never assigned anywhere under `src/roq/dag`, so in the program as it stands every
  weight is not-a-number and no sum or product with a reference has a price (`MissingWeightGivesNoPrice`). The
  results on sums and products are about weights that are set.
* Weights of references below the tolerance are dropped (`SafeIffCountable`).
* A side that had not traded by the snapshot has no average price, and the fills since have none either
  (`FillPriceIff`).
* An exposure of a spreader leg within the tolerance, other than zero, counts on both of its sides
  (`DeltasDifferByExposureIff`).
* A report calls `process` before the position has reached the strategy. The end-to-end result assumes that
  the targets are updated first; `StaleTargetsSellAgain` is a run in which they are not, `CallIsSafeIff` says
  when a call on a book without live orders is safe anyway.

## Assumptions

* Gateways: each result about runs names what it takes from the gateway as a predicate (`Consistent`,
  `HonestVersions`, `NeverUnfills` in `Runs`; `Truthful` in `RunBounds`; `Obliging` in `ConvergenceRuns`;
  `TrueReport`, `TrueAck` and `Honest` in `Liquidation`). The triple is kept whatever the gateway does.
* `Liquidation`: quotes come in whole lots, none negative; no foreign order trades on the book; its account is
  not disconnected or downloaded again during the run. When the market quotes of the leg are not valid,
  or the strategy is not enabled, nothing is sent to the book, which then keeps its targets: that is a run
  without a target update.
* `JointFills`: spot prices are not negative where a contract counts them.
* What a call learns from gateways, market data and clock is the parameter `Env`; powers of prices are a
  parameter of products.

## Model

| member | source | states |
|---|---|---|
| Convergence.TwoRoundsConverge | src/roq/core/oms/manager.cpp:173-347 | From any book at rest (nothing in flight, every live order confirmed), two rounds of calls with every request granted leave every level at its target or short of it by less than the minimum volume, and a third call sends nothing and changes nothing, in spite of the over-counting on restart; the calls share their targets, not the levels they find on record |
| ConvergenceRuns.RunConverges | src/roq/core/oms/manager.cpp:173-347 | Over every run that begins with a call of process on a book at rest and goes on with any interleaving of calls, granted reports and events elsewhere: only creates are sent after the first call, and each granted request leaves exactly one thing less to do |
| ConvergenceRuns.SecondCallSettles | src/roq/core/oms/manager.cpp:173-347 | Two rounds over such a run: once a second call finds nothing in flight, every level is matched from then on and no later call sends anything |
| ConvergenceRuns.CallLeavesWorkInFlight | src/roq/core/oms/manager.cpp:304-323 | Such a run cannot stall: after a call either some request is in flight, or nothing is left to do and every level is matched |
| ConvergenceRuns.ProcessCalls | src/roq/core/oms/manager.cpp:173-347 | A step of process on the machine is a call under the targets the run began with |
| Progress.CallExists | src/roq/core/oms/manager.cpp:209-323 | Whatever the book and its targets, a call can be completed: the passes end, and there is a plan of creates |
| Progress.ProcessExists | src/roq/core/oms/manager.cpp:173-347 | In every world a step of process on a sound book is possible, so results on runs are never empty |
| Progress.CallDependsOnTargets | src/roq/core/oms/manager.cpp:249-323 | What a call does depends on the targets of the levels alone, not on which levels are on record |
| Progress.CallKeepsTargets | src/roq/core/oms/manager.cpp:325-346 | A call keeps every target, though it records and erases levels |
| Convergence.FirstCallIsGood | src/roq/core/oms/manager.cpp:209-323 | However far from its targets, a book at rest has no level above its target after one call |
| Convergence.LaterCallIsGood | src/roq/core/oms/manager.cpp:249-323 | From then on a call, even with requests in flight, touches no order and keeps every level at or below its target |
| Convergence.IdleCallMatches | src/roq/core/oms/manager.cpp:304-323 | With nothing in flight and no level too full, one call matches every level |
| Convergence.AnswerKeepsLevels | src/roq/core/oms/manager.cpp:521-534 | A granted request takes the order out of flight and changes no level's expected quantity; a granted cancel likewise |
| Reconcile.WorstCaseIsCovered | src/roq/core/oms/manager.cpp:132-143 | If a call sends a create on a side, then on return the sum over that side's live orders of the larger of granted and requested quantity is at most the sum of that side's targets |
| Reconcile.WithoutCreatesExposureStays | src/roq/core/oms/manager.cpp:447-470 | A call that sends no create on a side leaves that worst case unchanged when modification is banned |
| Reconcile.SettledLevelsAddUp | src/roq/core/oms/manager.cpp:304-323 | What rests at levels that are all within their targets adds up to no more than the targets: summing over orders and over levels agree |
| Reconcile.NoOverOrdering | src/roq/core/oms/manager.cpp:201-323 | After a call the true expected quantity of every level is at most the larger of its target and what it was before, across all restarts |
| Reconcile.CounterIsUpperBound | src/roq/core/oms/manager.cpp:201-237 | The level counter, which is not cleared on a restart, is at every pass at least the true sum over live orders |
| Reconcile.RestartDisturbsMatchedLevels | src/roq/core/oms/manager.cpp:209-303 | The price of not clearing the counters, exactly: on a book with nothing in flight, a level resting at its positive target has an order moved or canceled if and only if, before the call, some order that may be touched stands at a level holding more than its target |
| Reconcile.RestartsIff | src/roq/core/oms/manager.cpp:249-303 | A call restarts if and only if, before it, some order that may be touched stands at a level holding more than its target |
| Reconcile.MatchedOrderIsCanceled | src/roq/core/oms/manager.cpp:209-303 | Such a book: one order at its target, one at a level without target; every call cancels the one at its target and creates none in its place |
| Reconcile.RestartsUseUpOrders | src/roq/core/oms/manager.cpp:209-303 | Each restart turns one free order into one in flight, so a call restarts exactly as often as it uses up free orders |
| Reconcile.OneRequestEach | src/roq/core/oms/manager.cpp:249-303 | No existing order gets more than one request in a call, only free orders get one, and an order without a request is unchanged |
| Reconcile.RequestsStand | src/roq/core/oms/manager.cpp:419-470 | An order that a pass changed is left as it is by the passes after it |
| Requests.RunRequestsAgree | src/roq/core/oms/manager.cpp:349-470 | Over every run with truthful reports: each request a call sends is for its book, has the side of the order it is about, and as price and quantity what that order expects when the call ends; it is a create if and only if the order was not there before |
| Requests.RunCreatesLift | src/roq/core/oms/manager.cpp:304-323 | A create leaves the level of its side and price at its target at most; if the call sent creates only, it lifts that level by its quantity from where it was, to the target |
| Requests.RunCreatesIffDue | src/roq/core/oms/manager.cpp:132-143 | A call that changes no order creates one at a level if and only if the level is short of its target, by the least volume or more, and no order of that side waits for an answer |
| Requests.RunFirstModifyFills | src/roq/core/oms/manager.cpp:269-303 | If a call sends a modify first, it moves the order from a level that holds more than its target to one that holds less, for exactly what that is short of |
| Requests.ModifyFillsCounter | src/roq/core/oms/manager.cpp:269-303 | Every modify of a call is for exactly what the counter of its new level is short of at that pass |
| Requests.RunRequestsAreJustified | src/roq/core/oms/manager.cpp:154-171 | Each request is numbered one up from the last one for its order and holds on the version granted, or is a first one; orders are changed only with nothing in flight, and modified only if the book and the gateway allow it and no modify of theirs was refused; creates have the least volume at least, nothing of it traded, and wait until nothing is in flight on their side |
| Requests.RunMovesRatherThanCancels | src/roq/core/oms/manager.cpp:262-303 | Where modifying is allowed, a call does not cancel an order none of whose modifies was refused and also create one on its side |
| Requests.RunNeverModifiesAgain | src/roq/core/oms/manager.cpp:494-503 | Once the gateway has refused to modify an order, and for as long as the order stays in its book, all that is sent for it are cancels |
| Requests.CallRequestAgrees | src/roq/core/oms/manager.cpp:419-470 | The same for the requests of one call, over all restarts |
| Requests.CanceledHasNoHole | src/roq/core/oms/manager.cpp:267-303 | An order that may be modified is canceled only when no level of its side is short of its target, and none is when the call ends |
| Reports.ReportMovesLevels | src/roq/core/oms/manager.cpp:693-754 | A report that an order works, known or not, takes what the order held off its level and puts what remains at its side and the reported price, and moves the worst case of the side likewise; one that it is gone takes it off; any other report moves nothing |
| Reports.ReportFrees | src/roq/core/oms/manager.cpp:521-534 | After such a report the order has nothing in flight, stands on the version and the traded quantity reported, and goes on counting its requests |
| Reports.AckMovesLevels | src/roq/core/oms/manager.cpp:821-870 | A refused change puts the order back to what was confirmed; a refused create, or a change that came too late, takes it off its level; no other acknowledgement moves a level |
| Reports.AckCounts | src/roq/core/oms/manager.cpp:494-519 | Refused modifies of an order are counted, refused cancels are not, and the versions answered are kept |
| Reports.BanIs | src/roq/core/oms/manager.cpp:195-199 | A ban, exactly: until its time no call of process does anything, and from then on a call of an able book is made and lifts it |
| Reports.ReportBans | src/roq/core/oms/manager.cpp:574-625 | A fill bans the book for the fill timeout, a cancellation for the cancel timeout, and other reports leave the ban as it is |
| Reports.TimeoutsAreSet | src/roq/core/oms/book.cpp:59-70 | The timeouts last set for a book are those its reports ban for |
| Reports.BanIsSet | src/roq/core/oms/manager.cpp:956-973 | The ban a rate limit trigger sets on a book holds in place of the one before, be that longer or not |
| Reports.AckBans | src/roq/core/oms/manager.cpp:845-857 | A rejection for the rate limit, or because the gateway is not ready, bans for the reject timeout or for as long as it was banned already; no other acknowledgement touches the ban |
| Reports.TargetsAreQuotes | src/roq/core/oms/manager.cpp:99-120 | New quotes replace all targets: a level has the volume of the last quote for it, every other has target zero, and counters and orders are kept |
| Reports.PositionFromSnapshot | src/roq/core/oms/manager.cpp:939-954 | Over every run, after a download the position of a book is the one last told for its account and the signed trades emitted since |
| Reports.PositionIsTold | src/roq/core/oms/manager.cpp:873-898 | What is told of the position by account is kept for the next download and changes no position |
| Reports.DownloadForgets | src/roq/core/oms/manager.cpp:917-937 | A download begins with no orders and positions in the books of its account; their targets and bans are kept, and other books are left alone |
| Reports.CreatesAboveDownloaded | src/roq/core/oms/manager.cpp:939-942 | No order of a run is created under an id at or below the highest one a download has reported |
| Reports.RunTradesAreReported | src/roq/core/oms/manager.cpp:555-590 | Every trade of a run comes of the report of a fill, with its side and the price of that fill, for what the order has traded since the report before |
| Reconcile.SilentIffMatched | src/roq/core/oms/manager.cpp:250-323 | With nothing in flight and every live order confirmed, a call sends nothing if and only if every level is at its target or short of it by less than the minimum volume |
| Reconcile.QuietIsSettled | src/roq/core/oms/manager.cpp:249-303 | When the passes end, no level holds more than its target, provided what is in flight at each level fit its target to begin with |
| Reconcile.SettledNeedsNoActs | src/roq/core/oms/manager.cpp:252-303 | When no level holds more than its target, nothing is modified or canceled |
| Reconcile.CreatesAdd | src/roq/core/oms/manager.cpp:304-323 | Creates add one order with a new id to each level of the plan and touch no order that was there |
| Reconcile.CreatesFill | src/roq/core/oms/manager.cpp:304-323 | A create lifts its level by exactly what the counter is short of the target, and no other level |
| Runs.RunKeepsTriples | src/roq/core/oms/order.hpp:20-33 | Over every run, whatever the gateway says: an order in flight expects what is pending; an order not in flight and not closed by the gateway expects what is confirmed |
| Runs.StepKeepsTriples | src/roq/core/oms/manager.cpp:821-870 | The same for each single event |
| Runs.RunKeepsIndex | src/roq/core/oms/manager.cpp:667-754 | Over every run, the index has an entry for an id exactly when a book holds that order, and the entry leads to that book, if the gateway reports each id under one key and downloads have raised the highest id by the next create |
| Runs.StepKeepsIndex | src/roq/core/oms/manager.hpp:160-186 | The same for each single event, mass erasures included |
| Runs.RunIncreasesIds | src/roq/core/oms/manager.cpp:349-417 | Over every run the ids of created orders are new and strictly increase |
| Runs.RunIncreasesVersions | src/roq/core/oms/manager.cpp:419-470 | While an order stays in its book, the versions sent for it strictly increase and every modify or cancel is conditional on a smaller version, if the gateway never reports an accepted version above the last one sent |
| Runs.RunConservesFills | src/roq/core/oms/manager.cpp:555-585 | Between resets the position of a book changes by exactly the signed sum of the trades emitted for it |
| Runs.RunTelescopes | src/roq/core/oms/manager.cpp:521-534 | Per order the trades add up to the traded quantity last seen in a WORKING or COMPLETED report minus the one it began with, if the gateway takes no fill back |
| RunBounds.RunKeepsSound | src/roq/core/oms/manager.cpp:349-534 | Over every run with truthful reports and non-negative targets: orders carry their key and obey the triple, no quantity is negative, requests are numbered, and whatever rests unasked has been granted a version |
| RunBounds.RunNeverOverOrders | src/roq/core/oms/manager.cpp:201-323 | No call of such a run lifts a level above its target or above where it was |
| RunBounds.RunWorstCaseIsCovered | src/roq/core/oms/manager.cpp:132-143 | After any call of such a run that sends a create on a side, the worst case of that side is at most its targets |
| RunBounds.RunIsSilentIffMatched | src/roq/core/oms/manager.cpp:250-323 | Any call of such a run that finds nothing in flight sends nothing if and only if every level is matched |
| OmsManager.OmsBook.EmplaceLevel | src/roq/core/oms/book.cpp:18-35 | The level is on record afterwards, as it was or empty; no other level changes |
| OmsManager.OmsBook.ResetCounters | src/roq/core/oms/manager.cpp:201-207 | Every counter is zero and every target is kept |
| OmsManager.OmsBook.CountOrders | src/roq/core/oms/manager.cpp:211-237 | One pass adds exactly the live orders' expected and confirmed quantities on top of the counters of earlier passes, and a side's in-flight count is positive if and only if a live order of that side is in flight |
| OmsManager.OmsBook.FindHole | src/roq/core/oms/manager.cpp:269-295 | A level of the side whose target exceeds its counter, or none when there is none |
| OmsManager.OmsBook.EraseEmptyLevels | src/roq/core/oms/manager.cpp:325-346 | Exactly the levels with a target or a counter other than zero remain |
| OmsManager.OmsBook.SetTargets | src/roq/core/oms/manager.cpp:99-120 | Old targets are forgotten, each quote with a price sets the target of its level, counters are kept |
| OmsManager.Manager.CreateOrder | src/roq/core/oms/manager.cpp:349-417 | The new order is pending and expected as asked under the next id, indexed, and the request is logged |
| OmsManager.Manager.ModifyOrder | src/roq/core/oms/manager.cpp:419-445 | The request carries the next version, conditional on the confirmed one, and becomes what is expected |
| OmsManager.Manager.CancelOrder | src/roq/core/oms/manager.cpp:447-470 | The request carries the next version and quantity zero at the expected price, and becomes what is expected |
| OmsManager.Manager.HandleOrder | src/roq/core/oms/manager.cpp:250-303 | One order of an overfull level is moved into a hole or canceled where that is allowed; otherwise nothing happens and no request was possible |
| OmsManager.Manager.ScanOrders | src/roq/core/oms/manager.cpp:249-303 | The scan stops at the first request, or with the exit condition: no order of an overfull level may be touched |
| OmsManager.Manager.OnePass | src/roq/core/oms/manager.cpp:209-303 | One pass counts, scans, and either ends the loop or leaves one free order less |
| OmsManager.Manager.RunPasses | src/roq/core/oms/manager.cpp:209-303 | The restart loop terminates and ends with the exit condition |
| OmsManager.Manager.CreateMissing | src/roq/core/oms/manager.cpp:304-323 | Creates are sent for exactly the levels of a side whose counter is short, with nothing in flight on the side and a quantity that is not too small |
| OmsManager.Manager.Complete | src/roq/core/oms/manager.cpp:304-346 | After the creates, exactly the levels with something to show are left |
| OmsManager.Manager.Process | src/roq/core/oms/manager.cpp:173-347 | The imperative process is a step of the state machine: skipped when not ready, without tick size or banned; otherwise passes, creates, requests, index and ids as specified |
| OmsManager.Manager.OrderFills | src/roq/core/oms/manager.cpp:555-585 | A positive fill moves the position by its signed size, is emitted as a trade and starts the ban; any other changes nothing |
| OmsManager.Manager.OrderConfirm | src/roq/core/oms/manager.cpp:521-534 | A WORKING report becomes what is confirmed and expected, and its fill is booked |
| OmsManager.Manager.OrderComplete | src/roq/core/oms/manager.cpp:592-607 | A COMPLETED report books the last fill and erases the order |
| OmsManager.Manager.OrderCanceled | src/roq/core/oms/manager.cpp:609-626 | A CANCELED report erases the order without booking a fill and starts the cancel ban |
| OmsManager.Manager.AdoptOrder | src/roq/core/oms/manager.cpp:711-738 | An unknown order is adopted as reported if it is WORKING, and leaves no trace otherwise |
| OmsManager.Manager.OnOrderReport | src/roq/core/oms/manager.cpp:693-754 | A report changes its book as specified and is followed by a call of process; for an unknown book nothing happens |
| OmsManager.Manager.OnOrderAck | src/roq/core/oms/manager.cpp:821-870 | An acknowledgement changes the order the index leads to as specified; after a rejection process is called unless the book is banned for it |
| OmsManager.Manager.ProcessAll | src/roq/core/oms/manager.hpp:188-198 | Every book is processed exactly once, in some order |
| OmsManager.Manager.EmplaceBook | src/roq/core/oms/manager.cpp:773-818 | The book is there afterwards, as it was or new; all others are unchanged |
| OmsManager.Manager.OnTargetQuotes | src/roq/core/oms/manager.cpp:60-125 | Targets are replaced and then every book is processed once; without a tick size nothing happens |
| OmsManager.Manager.OnTime | src/roq/core/oms/manager.cpp:628-643 | The clock moves; every book is processed once when a second has passed since the last time |
| OmsManager.Manager.OnGatewayNotReady | src/roq/core/oms/manager.cpp:645-676 | The books of the account lose their orders, and the index exactly those ids |
| OmsManager.Manager.OnDownloadStart | src/roq/core/oms/manager.cpp:917-937 | The books of the account lose their orders and positions, and the index exactly those ids |
| OmsManager.Manager.OnDownloadStop | src/roq/core/oms/manager.cpp:939-954 | The highest id rises to the one reported and the books of the account take over its positions |
| PricingGraph.Graph.BuildPath | src/roq/dag/graph.hpp:43-80 | CYCLE if and only if a cycle can be reached from the start, and then the previous result is left alone; otherwise each distance is the longest walk from the start, and the result lists each reachable node once, the start first, every edge going forward |
| PricingGraph.Graph.Explore | src/roq/dag/graph.hpp:48-67 | The worklist terminates on every multigraph, although nodes are queued again even when their distance is unchanged |
| PricingGraph.Graph.Visit | src/roq/dag/graph.hpp:53-66 | Visiting a node either proves a cycle, or makes the total distance grow, or only queues nodes further away |
| PricingGraph.Graph.Relax | src/roq/dag/graph.hpp:57-65 | Looking at one edge keeps every distance the length of a real walk |
| PricingGraph.Graph.Bucket | src/roq/dag/graph.hpp:68-72 | One bucket for each distance, holding exactly the nodes at it |
| PricingGraph.Graph.Flatten | src/roq/dag/graph.hpp:73-78 | Each node once, in order of distance |
| PricingGraph.Graph.Reverse | src/roq/dag/graph.hpp:23-29 | The edges are the reversed ones |
| PricingGraph.Graph.FromDeps | src/roq/dag/graph.hpp:32-36 | The edges are the reversed dependencies |
| PricingGraph.LongWalkLoops | src/roq/dag/graph.hpp:61-64 | A walk longer than the number of edges uses one twice, so a cycle can be reached |
| PricingGraph.RelaxedIsExact | src/roq/dag/graph.hpp:52-67 | When nothing is queued, the distances are those of the longest walks and no cycle can be reached |
| PricingGraph.SortedIsTopological | src/roq/dag/graph.hpp:68-78 | Any listing by distance is topological |
| PricingGraph.MeasureShrinks | src/roq/dag/graph.hpp:52-67 | The termination measure: remaining growth of the distances, then a multiset order on the distances of the queued nodes |
| PricingGraph.FlippedTwice | src/roq/dag/graph.hpp:23-29 | Reversing twice gives the graph back |
| PricingGraph.ReverseReverses | src/roq/dag/graph.hpp:23-29 | A node reaches another in the reversed graph if and only if the other reaches it in the graph |
| PricingNodes.AddUp | src/roq/dag/ops/sum.cpp:6-26 | The loop computes the weighted sum, bid and ask exchanged for negative weights, weights compared with the tolerance |
| PricingNodes.Multiply | src/roq/dag/ops/product.cpp:7-33 | The loop computes the weighted product, bid and ask exchanged for negative weights |
| PricingNodes.SumIsSound | src/roq/dag/ops/sum.cpp:12-24 | For any number of references and any true prices inside their bid and ask, the weighted sum lies between the computed bid and ask |
| PricingNodes.SumIsTight | src/roq/dag/ops/sum.cpp:12-24 | No narrower interval would do: both ends are weighted sums of prices inside |
| PricingNodes.SumIsPositive | src/roq/dag/ops/sum.cpp:12-24 | Positive prices and weights that are not negative, one of them counted, give positive sums |
| PricingNodes.SafeIffCountable | src/roq/dag/ops/sum.cpp:17-23 | A single weight is safe for all quotes and prices if and only if it is zero or above the tolerance in size; a smaller one is dropped and can put the true sum outside |
| PricingNodes.CountableSum | src/roq/dag/ops/sum.cpp:12-24 | With weights that are zero or above the tolerance the sum is the plain weighted sum |
| PricingNodes.ProductIsSound | src/roq/dag/ops/product.cpp:13-31 | For positive prices and weights 1 and -1 (others too, where powers behave) the true product lies between the computed bid and ask |
| PricingNodes.ProductIsTight | src/roq/dag/ops/product.cpp:13-31 | Both ends of the product are products of prices inside |
| PricingNodes.MissingWeightGivesNoPrice | src/roq/dag/node.hpp:28-33 | One reference whose weight was never set leaves sums and products without a price |
| Pricer.Pricer.CollectEdges | src/roq/dag/pricer.cpp:205-215 | The edges are exactly those from a node referred to, to the node that refers |
| Pricer.Pricer.RebuildPath | src/roq/dag/pricer.cpp:216-219 | The path of one input is topological, or left as it was when a cycle is in reach |
| Pricer.Pricer.RebuildPaths | src/roq/dag/pricer.cpp:205-221 | Every input node gets its path, the others keep theirs |
| Pricer.Pricer.Compute | src/roq/dag/node.cpp:28-42 | The pipeline runs on a fresh context and what comes out is stored in the node, nowhere else |
| Pricer.Pricer.Recompute | src/roq/dag/pricer.hpp:92-100 | The nodes of a path are visited in order, and those behind its start recomputed with `Node::compute`, each from the latest quotes |
| Pricer.Pricer.OnQuotes | src/roq/dag/pricer.cpp:77-103 | The handler as it is: the quotes are stored in the input node and nowhere else, and the nodes of its path that are executed are sent with the quotes they have stored |
| Pricer.RunPipeline | src/roq/dag/node.cpp:28-36 | The pipeline of a node, run on a fresh context, gives what its references determine |
| Pricer.StoringKeepsSettledIff | src/roq/dag/pricer.cpp:82-100 | What the handler stores keeps the graph settled if and only if no node that refers to the input would come out different |
| Pricer.StoringUnsettles | src/roq/dag/pricer.cpp:82-100 | One input and a node that copies it: any change of the input leaves them apart |
| Pricer.SpreadMeans | src/roq/dag/ops/quote_spread.cpp:9-24 | A spread keeps the middle of the quotes and makes them as wide as it is; without both prices, or without a spread, there is no price |
| Pricer.PublishedIff | src/roq/dag/pricer.cpp:92-100 | The nodes of the path that are sent are those that are executed and have a pipeline, with the quotes they have stored |
| Pricer.PublishedIsOld | src/roq/dag/pricer.cpp:97-99 | What the handler sends for a node other than the input is what it had before the market moved |
| Pricer.Pricer.Settle | src/roq/dag/node.cpp:28-42 | New quotes of an input node and one pass of `Node::compute` behind it, in path order |
| Pricer.ReadsOnlyRefs | src/roq/dag/node.cpp:28-36 | A node reads nothing but the quotes of its references |
| Pricer.OnePassIsEnough | src/roq/dag/pricer.cpp:205-221 | After one pass in path order every node behind the start has the value its references give it, no other node has changed, and a second pass changes nothing |
| Pricer.SettledIsUnique | src/roq/dag/graph.hpp:43-80 | The settled values are the only ones, so any two admissible orders give the same |
| Pricer.RunStaysSettled | src/roq/dag/node.cpp:28-42 | Over every run of such passes all nodes but the inputs have the value their references give |
| Pricer.PassKeepsUncrossed | src/roq/dag/ops/quote_spread.cpp:9-24 | Uncrossed quotes off the path and at the start give uncrossed quotes along the whole path; positive prices, which products need, are carried along by products and by sums whose weights are not negative |
| Doubles.ProductIsEmptyIff | src/roq/core/double.hpp:39-47 | There is no product if and only if a factor is not a number or zero meets an infinity; signs carry through |
| Doubles.QuotientIsEmptyIff | src/roq/core/double.hpp:39-47 | There is no quotient if and only if an operand is not a number, or infinities or zeros meet; division takes a product back |
| Doubles.MinIsExactIff | src/roq/core/double.hpp:53-82 | Tolerant and exact minimum and maximum agree exactly when the arguments are not within the tolerance in the wrong order |
| Sizing.ComputeLeg | src/roq/lqs/leg.cpp:51-118 | The quotes set step by step are the sizing the bounds below are about |
| QuotePrices.QuotesStand | src/roq/lqs/leg.cpp:84-117 | For an uncrossed market: quotes for more than the tolerance stand on the opposite side for CROSS, on their own side for JOIN, one tick off the side they follow for JOIN_PLUS and CROSS_MINUS, a JOIN_PLUS quote one tick off the other side at most, up to the tolerance; others keep the price they had |
| QuotePrices.CanTradeIff | src/roq/lqs/leg.cpp:84-117 | A quote can trade at once if and only if: CROSS always; JOIN in a locked market; CROSS_MINUS without a tick; JOIN_PLUS when one tick spans the spread, which takes a tick within the tolerance |
| QuotePrices.JoinPlusIsPassive | src/roq/lqs/leg.cpp:98-105 | So with a tick above the tolerance a JOIN_PLUS quote never trades at once |
| QuotePrices.BidIsForAll | src/roq/lqs/leg.cpp:69-82 | The bid is for all that the step, the way to the target and the room of the delta allow, up to the tolerance |
| QuotePrices.AskIsForAll | src/roq/lqs/leg.cpp:69-82 | And so is the ask |
| QuotePrices.GoodMarketMeans | src/roq/lqs/leg.cpp:40-49 | A market is quoted in if and only if its spread in basis points of the bid is at most the slippage, up to the tolerance |
| QuotePrices.GoodMarketNeedsPrices | src/roq/lqs/leg.cpp:40-49 | No market is good without both prices; with both, any is if the slippage is not limited |
| QuotePrices.QuotedIff | src/roq/lqs/leg.cpp:56-64 | Both sides are for a known volume when the market is good and the strategy enabled, and nothing is quoted otherwise |
| Sizing.SpotIsMiddle | src/roq/lqs/underlying.cpp:22 | The spot price is the middle of the market of the underlying, and there is none without both prices |
| Sizing.SizedAgain | src/roq/lqs/leg.cpp:51-118 | Sizing a leg again gives the same quotes, so a leg listed twice is quoted as if listed once |
| Sizing.FillStopsAtTarget | src/roq/lqs/leg.cpp:66-82 | Filling any part of one side takes the position past its target by at most the tolerance |
| Sizing.BuysPastIff | src/roq/lqs/leg.cpp:51-118 | Some fill of the bid passes both the target and the position held if and only if the step volume is above what is needed but within the tolerance of it, the delta leaves room for it, and the bid has a price: the market is good, the strategy enabled, and the step more than the tolerance or an earlier price kept |
| Sizing.SellsPastIff | src/roq/lqs/leg.cpp:51-118 | The same for the ask |
| Sizing.BuysGrowIff | src/roq/lqs/README.md:12 | The promise that the absolute position never increases, for a target of zero: some fill of the bid breaks it if and only if the step volume is above twice the way to zero but within the tolerance of the way, the delta leaves room for it, and the bid has a price |
| Sizing.SellsGrowIff | src/roq/lqs/README.md:12 | The same for the ask |
| Sizing.SmallShortGrows | src/roq/lqs/README.md:12 | A leg that breaks it: short of half the tolerance, quoted for a quarter more than the tolerance |
| Sizing.FillMovesDelta | src/roq/lqs/underlying.cpp:31-36 | A fill moves the delta once for each time the leg is listed |
| Sizing.FillKeepsDelta | src/roq/lqs/leg.cpp:75-82 | Filling any part of one side keeps the recomputed delta within its bound, or within where it was if outside already, up to the tolerance on one volume, for legs that count at most once |
| Sizing.DeltaIsKeptIff | src/roq/lqs/underlying.cpp:21-36 | For fills of the quote of one leg at a time that holds, for all legs and underlyings, if and only if the leg counts at most once: a leg listed twice, quoted at a market price, breaks it, and so does a linear leg when the spot price is above 1 |
| JointFills.FillsMoveDelta | src/roq/lqs/underlying.cpp:31-36 | Fills of any legs together move the delta by the sum over the list of what each adds |
| JointFills.GainIsBounded | src/roq/lqs/leg.cpp:75-82 | What fills of all quotes together add to the delta is at most the room, as often as the list gives it away, and the tolerance of one volume for each entry |
| JointFills.OffersFitIff | src/roq/lqs/leg.cpp:75-82 | In a given state no fills of the quotes together take the delta past a bound if and only if filling all bids in full, or all asks, does not |
| JointFills.JointFillsKeepDelta | src/roq/lqs/strategy.cpp:119-124 | Filled together, in part or in whole and on either side, the quotes of all legs keep the delta within its thresholds, up to the tolerance, if the list gives the room away once at most |
| JointFills.DeltaIsKeptJointlyIff | src/roq/lqs/README.md:11-13 | The promise to keep the delta within its thresholds, whatever is filled together of the quotes of a list: it holds for all states just computed if and only if the entries of the list, linear ones counted by the spot price, add up to no more than 1 |
| JointFills.TwoLegsAreTooMany | src/roq/lqs/strategy.cpp:119-124 | Two legs, each listed once, quoted at market prices and within the thresholds on its own, filled together take the delta as far past the threshold as it was below |
| Strategy.Liquidator.SizeLeg | src/roq/lqs/pricer.cpp:89-111 | One leg is sized and its quotes are sent on, unless neither side has a price |
| Strategy.Liquidator.ComputeDelta | src/roq/lqs/underlying.cpp:31-36 | The delta is the sum over the list, missing legs skipped |
| Strategy.Liquidator.Compute | src/roq/lqs/strategy.cpp:115-133 | The delta of the leg's underlying is recomputed and then every leg on its list is sized and sent, in list order |
| Strategy.Liquidator.OnExposure | src/roq/lqs/strategy.cpp:165-181 | The position of the leg, new if need be, is replaced, and what depends on it recomputed |
| Strategy.Liquidator.OnMarket | src/roq/lqs/strategy.cpp:135-163 | The legs of a market take the quotes and are recomputed, each once; an underlying takes them and nothing is recomputed |
| Updates.ExposureIsPosition | src/roq/lqs/leg.cpp:32-34 | After an exposure update the position of the leg is what was bought less what was sold, as reported; its target, contract and market are kept, and no other leg has another position, market or target |
| Updates.ExposureIsReduced | src/roq/lqs/leg.cpp:66-73 | In a consistent state, a leg reported at its target or long of it is not bid for, and one at it or short of it not offered, for more than the tolerance |
| Updates.ExposureIsQuoted | src/roq/lqs/leg.cpp:66-82 | And what it is off its target is quoted, as far as the step and the bounds of the delta allow, up to the tolerance |
| Updates.MarketIsSet | src/roq/lqs/strategy.cpp:135-163 | After a market update its legs have the new quotes as their market and no other leg has another one; the underlying of that market takes them and no other does; positions and targets are kept |
| Updates.MarketMovesQuotes | src/roq/lqs/leg.cpp:84-117 | In a consistent state the quotes of those legs then stand where their way of quoting says, in the market just reported |
| Updates.ExposureSends | src/roq/lqs/pricer.cpp:89-111 | An exposure update sends the quotes that the legs of the underlying then have, for those with an account and a price on either side, and nothing else |
| Updates.MarketSends | src/roq/lqs/pricer.cpp:89-111 | A market update sends, for every leg of an underlying concerned, with an account and a price, the quotes it has in the end, and never quotes without a price |
| Strategy.SizedAllMeans | src/roq/lqs/strategy.cpp:119-124 | Sizing a list changes nothing but the quotes of the legs on it, whatever the order and however often they are listed |
| Strategy.ExposedIsConsistent | src/roq/lqs/strategy.cpp:165-181 | After an exposure update every delta is the sum over its list and every leg is quoted for the state it is in |
| Strategy.RunIsConsistent | src/roq/lqs/strategy.cpp:115-181 | So it is over every run of exposure and market updates, without linear legs |
| Strategy.NewSpotIsConsistentIff | src/roq/lqs/strategy.cpp:155-160 | A new spot price leaves the state consistent if and only if the linear legs of the list cancel out or the spot price is the old one, because nothing is recomputed |
| Strategy.NewSpotGoesStale | src/roq/lqs/strategy.cpp:155-160 | A consistent state with one linear leg that any other spot price leaves inconsistent |
| Strategy.DeltaSplits | src/roq/lqs/underlying.cpp:21-36 | The delta is the volume of the linear entries times the spot price, and a rest that does not depend on it |
| Strategy.QuotedFillStopsAtTarget | src/roq/lqs/README.md:11-13 | In every consistent state, whatever is filled of a quote, the size of a position to be liquidated grows by at most the tolerance |
| Strategy.QuotedFillKeepsDelta | src/roq/lqs/README.md:11-13 | In every consistent state, whatever is filled of the quote of one leg, the delta stays within its thresholds up to the tolerance on one volume |
| Strategy.QuotedFillsKeepDelta | src/roq/lqs/README.md:11-13 | In every consistent state, whatever is filled together of the quotes of all legs of an underlying, the delta stays within its thresholds up to the tolerance, if the list gives the room away once at most |
| Strategy.TwoLegsBreakThresholds | src/roq/lqs/README.md:11-13 | The promise on the delta broken in a consistent state: two legs listed once each under one underlying, both with a priced bid that can be filled in full, and together one bid too many |
| Liquidation.PositionNeverGrows | src/roq/lqs/leg.cpp:51-73 | End to end, one leg and one book that never modifies: over every interleaving of fills, target updates, calls of process and answers the position never changes sign and its size never grows |
| Liquidation.MovesKeepInv | src/roq/core/oms/manager.cpp:173-347 | Every step keeps the invariant: what all orders of a side may still trade is no more than the position on the other side |
| Liquidation.CallIsSafe | src/roq/core/oms/manager.cpp:173-347 | A call whose targets fit the position keeps it: where it creates, the worst case is within the targets; where it does not, nothing new can trade |
| Liquidation.ReportIsSafe | src/roq/core/oms/manager.cpp:521-534 | A truthful report keeps it |
| Liquidation.AckIsSafe | src/roq/core/oms/manager.cpp:821-870 | A truthful acknowledgement keeps it |
| Liquidation.FillIsSafe | src/roq/core/oms/manager.cpp:555-585 | A fill brings the position nearer to zero, never through it |
| Liquidation.LotsFit | src/roq/lqs/leg.cpp:69-73 | In whole lots the tolerance disappears: what is quoted is at most the position |
| Liquidation.TargetsFit | src/roq/core/oms/manager.cpp:99-120 | One quote a side sets one target a side, so the targets fit the position |
| Liquidation.BeginsSafe | src/roq/core/oms/manager.cpp:60-125 | A run may begin with any position and a book without orders and targets |
| StaleTargets.StaleTargetsSellAgain | src/roq/core/oms/manager.cpp:740-750 | Why a fill must reach the sizing before the next call: a run of honest steps from an empty book, in which a position is targeted, sold, filled and reported, after which a call on the stale targets sells it once more |
| Liquidation.CallIsSafeIff | src/roq/core/oms/manager.cpp:304-323 | On a book without live orders a call is safe, however stale the targets, if and only if on each side the targets worth an order fit the position |
| SpreaderLeg.Leg.ComputeFills | src/roq/spreader/leg.cpp:26-55 | The straight-line computation is the function the results below are about |
| SpreaderLeg.Leg.OnExposure | src/roq/spreader/leg.cpp:6-24 | Position, deltas and fills are replaced; the snapshot is kept |
| SpreaderLeg.FillPriceIsExact | src/roq/spreader/leg.cpp:39-43 | For any trades before and after the snapshot, the recovered price times the recovered volume is the amount traded since |
| SpreaderLeg.FillsArePriced | src/roq/spreader/leg.cpp:39-54 | So the fills of a leg carry on each side the price at which that side traded since the snapshot |
| SpreaderLeg.DeltasDifferByExposureIff | src/roq/spreader/leg.cpp:21-24 | The two deltas differ by the exposure in units of the underlying, one of them zero, if and only if the tolerance does not take an exposure other than zero for zero; otherwise it counts on both sides |
| SpreaderLeg.FillPriceIff | src/roq/spreader/leg.cpp:42-43 | There is such a price if and only if the side traded both before and since the snapshot |
| SpreaderLeg.LeftOver | src/roq/spreader/leg.cpp:45-54 | The volumes differ by the net volume since the snapshot, one of them is zero, and the other is negative exactly when sales fall short of purchases by no more than the tolerance |

## Left out

* Logging, formatting, configuration files, command line, the gateway and client dispatchers, the web client, the Python and shell tools.
* Sending: requests and trades go to ghost logs. Routing ids, execution instructions, external order ids and rejection texts are not modelled.
* Assertions of the program, which abort in debug builds, are not modelled, nor is what happens past the fixed sizes of arrays in a node.
* Wrap-around of 32-bit version and 64-bit order numbers; they are natural numbers here.
* Quantities and prices never set in an order version are not-a-number in the program and 0 here. An order has them set before anything reads them, except its own blank confirmed version.
* The bids and asks of a book are one map here, keyed by side and tick.
* The two answers of `can_modify` are always equal, so they are one, and the branch for orders whose volume alone may not change (`src/roq/core/oms/manager.cpp:276-284`), which is never taken, is missing.
* The nested maps of books are one map keyed by strategy, account and market; resolving a market from symbol and exchange, and a gateway from its name, is part of the parameters of an event.
* A rejected create that is also too late: the program writes to the order after erasing it; here the order is gone.
* `reconcile_positions`, which only logs, the rate limit trigger and position updates beyond the fields they set.
* The account is missing from the trades the order manager emits, so nothing is said about positions of portfolios.
- OmsManager.Manager.OnTargetQuotes: the tick size of a book is a flag: prices are ticks already, so rounding a price to a tick is not modelled.
- Pricer.Pricer.OnQuotes: the handler walks the whole fixed-size array of a pipeline, entries never set included; the model walks those that are set. The quotes of a node are their prices; sending them to the order manager stops at the log.
- Pricer.Pricer.constructor: nodes, references and pipelines are given; the program builds them from parameters, by names it never records.
- PricingNodes.Multiply: powers are not defined, only assumed to be positive and monotonic where a weight is neither 1 nor -1; powers of infinite prices have no value here, nor has a power with a missing weight.
* The operations EMA and QuoteShift, spreads in basis points, volumes of node quotes.
* Parameters of legs and underlyings, reference data and downloads of the strategy, and moving a leg to another underlying; the list of an underlying is arbitrary in the results that do not ask for `Listed`.
* Rounding of floating-point numbers, the sign of zero.
- Liquidation.PositionNeverGrows: one leg, one book, modification banned, no disconnection during the run.
* The rest of the spreader, which is unfinished in the program.
* The confirmed counters of levels, which nothing reads, are stated by the methods that count them and not further.
