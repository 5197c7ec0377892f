# Verified model of the trading engine's money path

A Dafny 4.11 model of how a replay run moves money and of the state machines around it, with proofs.
`dafny verify dfyconfig.toml` checks everything.

Five parts of the system are modelled, each in the form its code has: dictionaries and lists that are updated in place are
classes whose methods are tied to functions on values, and what the system promises is proved about those functions, over
every input and every run.

- **One fill stream, several books.** The paper broker turns pending orders into fills; the portfolio tracker, the ownership
  ledger and the engine's sizing account consume them one by one; the report rebuilds cash, positions and lots from the same
  fills afterwards. They share no code. `ReportLots`, `LotTrades`, `OpenLots`, `ReportAccount`, `AccountLaws`, `ReportSeries`,
  `Portfolio`, `Ownership`, `Sizing`, `Costing`, `PaperBroker`, `BrokerLaws`, `Replay`.
- **Order lifecycle.** The order manager's nine cross-linked dictionaries under submits, rejections, exceptions, fills, status
  updates, modifies, failed cancels and session ends, against an arbitrary broker, and in a replay under the ids the paper
  broker gives; and operator approvals. `OrderIndex`, `OrderReuse`, `OrderGuarantees`, `OrderEffects`, `Exits`, `OrderManager`,
  `OrderNames`, `ReplayIds`, `Resting`, `ReplayLaws`, `Approvals`.
- **Bars and features.** Incremental and batch aggregation, the bar store with its pending buffer and revision cache, features
  computed over a whole replay and sliced to a time, the fast-event gate. `Aggregation`, `BarBuilding`, `Resampling`,
  `DataStore`, `StoreLaws`, `DataManager`, `Indicators`, `IndicatorLaws`, `Features`, `FeatureRegistry`, `CacheLaws`,
  `EvaluationGate`.
- **Startup.** Broker positions, saved lots, the position gate's validator and adoption. `Contracts`, `StartupGate`,
  `GateLaws`, `GateValidation`, `StartupStatus`, `StatusLaws`, `Adoption`, `Restart`, `StateStore`.
- **Report figures and chunks.** `Returns`, `Chunks`.

`Types`, `Sums`, `Sorting` and `Frames` are shared vocabulary.

The functions the methods are tied to are pinned down a second time, by what the code does rather than by how the model computes
it: `BrokerLaws`, `OrderEffects`, `Exits`, `ReplayLaws`, `LotTrades`, `AccountLaws`, `StoreLaws`, `CacheLaws`,
`IndicatorLaws`, `GateLaws` and `StatusLaws` state each operation's effect on fields, prices, quantities and errors without the
model's own helpers.

## Conventions

Prices and cash are reals, quantities whole shares (the paper broker takes no fractions), so that tolerances of 1e-9 on
quantities are tests for zero; the position gate, which accepts any number, keeps its tolerance. Time is integer UTC seconds.
Local dates, instrument names, strategies' names in order keys, record keys and the strategies' adoption hooks are arbitrary
functions; broker answers, failing cancels and strategies' requests are arbitrary arguments. A method of the order manager is
one atomic step. Contract multipliers are positive.

## Main results

1. `ReportAccount.AccountingIdentity`, `ReportSeries.EveryPointBalances`: the books balance at every point of every series.
2. `Replay.BooksAlwaysAgree`, `Replay.DrainedBooksEqual`, `Replay.DrainedReportEqual`, `Replay.ReconciliationIsQuiet`:
   broker, portfolio, ledger, sizing account and report agree in every replay.
3. `Sizing.SizingIsReport`: the engine's account is the report's at the end of each timestamp, although they order events
   differently.
4. `Costing.ReportMeetsPortfolio`: lot profit and average-cost profit meet whenever a strategy is flat.
5. `OrderReuse.StepKeepsIff`, `OrderReuse.RunsIndexedIff`, `OrderGuarantees.*`: for every operation and every run, exactly
   which order ids keep the order index; closes and stops disarm each other. `ReplayIds.DerivedIdsIndexed`: under the keys
   the order manager derives every replay keeps it as long as equal keys mean the same position and role; with strategy names,
   symbols, trade ids, reasons and roles free of dashes that is, by `ReplayIds.DerivedIdsIff`, if and only if strategy name and
   symbol determine strategy and contract. `OrderEffects.*`: what each operation leaves behind, id by id.
6. `DataStore.RunsTrack`, `DataStore.SameRecordSameAnswers`, `DataStore.WindowsSafeIff`: the bar store is a map, whatever
   happened in between, and exactly which windows of it can be read safely.
7. `Resampling.BuilderThenResampler`: two-stage aggregation is direct aggregation of the complete buckets.
8. `Features.NoLeakMinute`, `Features.NoLeakIntraday`, `Features.DailyLeak`: what a preloaded view may know.
9. `Restart.RestartRoundTrip`, `StartupGate.AcceptedIff`, `Adoption.StartupConserves`: startup gives out exactly what the
   broker holds, and a restart restores it.
10. `Approvals.SubmissionsNeedApprovals`, `Approvals.ShownIff`, `Returns.ReturnsCompound`, `Chunks.ActiveExactlyOnce`,
    `EvaluationGate.OncePerBucket`, `Contracts.CarriesOverIff`, `Contracts.MatchIsEquality`.
11. `Resting.ListedOrdersRestIff`, `Resting.DerivedOrdersRest`, `Resting.ListedStopFires`, `Exits.*`: what the order manager
    lists is what waits at the broker, at every moment of a replay; a listed stop fires on the first bar that reaches it; and
    every close and stop brings its position to zero.
12. `LotTrades.TradesHoldTheirFills`, `LotTrades.ClosedTradesTell`, `AccountLaws.SeriesCash`, `AccountLaws.SeriesMarks`: the
    report trade by trade, its cash and its marks.
13. `GateLaws.ListRefusedIff`, `GateLaws.AcksRefusedIff`, `StatusLaws.PhaseIs`: exactly what the gate refuses, and why.

Where the code does less than one might expect, the model keeps the code, names a run or input that shows it, and says
when the expectation does hold:

- An order id the broker hands out twice can break the order index (`SubmitIdReuse`, `StopIdReuse`, `CloseIdReuse` and
  `StepKeepsIff` say exactly when), and the paper broker's ids, built from the symbol, do so for two contracts of one symbol
  (`ContractsOfOneSymbolCollide`). With derived keys nothing else does as long as keys tell positions and roles apart
  (`DerivedIdsIndexed`); without dashes in them they do so if and only if strategy name and symbol tell strategy and contract
  apart (`DerivedIdsIff`), with dashes that is not enough (`DashesCollide`).
- A close sent under the id of the stop it cancels is listed as pending while nothing waits at the broker (`CloseUnderStopsId`);
  that is the only way for the two to part (`ListedOrdersRestIff`), and derived keys rule it out (`DerivedOrdersRest`).
- What a strategy is shown does not sum to what it holds when it has open tagged lots and untagged fills (`UntaggedIsHidden`,
  `ShownIsHeld`).
- A daily view can differ from the view without future bars (`TomorrowShowsYesterday`, `DailyLeak`); a one-minute view of
  another instrument shows that instrument's bar of the current time before it is delivered (`UndeliveredBarShows`,
  `MinuteViewSeesOwnTime`).
- Adopting two lots under one trade id lists only the second (`RepeatedTagOverwrites`, `LotRestoredIff`), and restored lots
  carry the broker's cost, not their own (`RestartRoundTrip`).
- A strategy that reuses its own idempotency key has another intent sent under an earlier approval (`ReusedKeySendsOther`,
  `ShownIff`).
- Returns do not compound across a day that ends at zero (`ZeroBreaksCompounding`, `TablesCompoundIff`).
- A chunk is active on whole dates, so bars outside the requested window but on a date of its bars are active too
  (`OutsideWindowActive`, `ActiveExactlyOnce`).
- A read of the bar store after a live-provider backfill removed the latest rows may miss rows that were trimmed earlier
  (`WindowMisses`, `WindowsSafeIff`).
- Instrument matching at the position gate is not transitive, and an under-specified derivative does not match itself
  (`MatchIsNotTransitive`, `CarriesOverIff`, `MatchesItself`).
- A bar that differs from the preloaded one within the tolerance of the comparison is dropped (`NearbyBarIsDropped`,
  `FeatureRegistry.OnBar`).

## Model

| member | source | states |
|---|---|---|
| `ReportAccount.AccountingIdentity` | backtest/report_html.py:241-271 | Equity (cash plus marked positions) equals initial equity plus the P&L of every closed trade plus, over the open lots, quantity times (mark minus entry price) times multiplier, for every account state the report can reach. |
| `ReportAccount.AlwaysConsistent` | backtest/report_html.py:223-257 | For every list of bars, fills and timestamps the books stay in step: positions are the sums of the lots, every held instrument has a price, cash moved by closed P&L less open cost. |
| `ReportAccount.BookedConsistent` | backtest/report_html.py:245-257 | One fill, whatever it closes, flips, merges or opens, keeps that agreement of cash, positions and lots. |
| `ReportAccount.BookedAllConsistent` | backtest/report_html.py:245-257 | So does any run of fills. |
| `ReportAccount.Regroup` | backtest/report_html.py:267-270 | Marking lot by lot sums to the same as marking the net quantity of each instrument. |
| `ReportAccount.PositionsAreLots` | backtest/report_html.py:267-270 | The marked value of the position dictionary is the marked value of the lots. |
| `ReportAccount.BookLotsConcat` | backtest/report_html.py:245-257 | Booking two runs of fills one after the other is booking their concatenation. |
| `ReportAccount.SeriesHoldsAllFills` | backtest/report_html.py:218-257 | At the end of the series the lots of any scope and the position of any instrument hold exactly what the fills moved, at whatever timestamps and in whatever order they came and whatever bars came between. |
| `ReportSeries.EveryPointBalances` | backtest/report_html.py:241-271 | The identity at every equity point of the series, with the trades closed and lots open at that timestamp. |
| `ReportSeries.SeriesBalances` | backtest/report_html.py:201-287 | The identity at the last point of the series that is built, also for a run without bars or fills. |
| `ReportSeries.BuildAccountSeries` | backtest/report_html.py:201-287 | The loop over sorted timestamps yields one point per timestamp, each the equity, cash and exposure of the account after marking that timestamp's bars and then booking its fills; with no timestamps a single point at initial equity. |
| `ReportSeries.OneTimestamp` | backtest/report_html.py:241-271 | One turn of that loop, over the mutable lot list. |
| `ReportSeries.GroupBars` | backtest/report_html.py:218-219 | Bars are grouped by timestamp, in order, none lost. |
| `ReportSeries.GroupFills` | backtest/report_html.py:220-221 | Fills are grouped by timestamp, in order, none lost. |
| `ReportSeries.BookFills` | backtest/report_html.py:245-257 | Booking a timestamp's fills changes cash, positions and the lot list exactly as booking them on values does. |
| `ReportSeries.MarkPositions` | backtest/report_html.py:263-270 | The loop over open positions sums marked value and absolute exposure. |
| `ReportSeries.ComputeMetrics` | backtest/report_html.py:491-544 | Final equity, net P&L, gross profit and gross loss are those of the series and its closed trades. |
| `ReportSeries.ReportedPnl` | backtest/report_html.py:133-140 | Net P&L is gross profit plus gross loss plus open profit; with no open lots it is gross profit plus gross loss. |
| `AccountLaws.MomentsAre` | backtest/report_html.py:218-224 | The series has one point for every time of a bar or a fill, in increasing order. |
| `AccountLaws.AtMoment` | backtest/report_html.py:218-221 | What a timestamp marks and books is what came with it, in the order it came. |
| `AccountLaws.BookedCash` | backtest/report_html.py:253 | A run of fills moves cash by what each bought or sold, price times quantity times multiplier: bought is paid for. |
| `AccountLaws.SeriesCash` | backtest/report_html.py:241-257 | At the end of the series cash is initial equity plus the money of every fill. |
| `AccountLaws.MarksAre` | backtest/report_html.py:242-243 | Marking a timestamp's bars sets every instrument with one to the close of its last, and leaves the others. |
| `AccountLaws.BookedMarks` | backtest/report_html.py:252 | A fill sets the mark of an instrument that has none yet, to its price, and no other. |
| `AccountLaws.SeriesMarks` | backtest/report_html.py:241-257 | After any timestamps an instrument is marked at the close of its last bar of the latest timestamp with one; without a bar at its first fill; without either not at all. |
| `AccountLaws.BookedWarns` | backtest/report_html.py:247-257 | Warnings count the fills that trade nothing and those meant to close that leave a rest. |
| `AccountLaws.ClosedAdded` | backtest/report_html.py:257 | Closed trades are only added, behind those there were. |
| `AccountLaws.MostLots` | backtest/report_html.py:258-261 | The most lots ever open: never fewer than after any fill, and reached after one or at the start. |
| `AccountLaws.ExposureIs` | backtest/report_html.py:263-266 | Gross exposure is what the long positions are worth less what the short ones are. |
| `ReportLots.FillConserves` | backtest/report_html.py:290-341 | In any scope (all, one instrument, one strategy and instrument) a fill changes the lot sum by exactly the signed fill, and realised P&L less open cost by exactly the cash it moved. |
| `ReportLots.CloseOutConserves` | backtest/report_html.py:298-330 | Closing turns cost into realised P&L: the two together change by the cash received for the shares closed. |
| `ReportLots.AddOpenLotConserves` | backtest/report_html.py:397-428 | Opening or merging the remainder adds its quantity and its cost, whichever lot takes it. |
| `ReportLots.MergeKeepsCost` | backtest/report_html.py:402-417 | The averaged price makes a merged lot cost what its parts cost. |
| `ReportLots.RoundShrinks` | backtest/report_html.py:298-330 | Each round of closing drops a lot or uses the fill up, so closing terminates. |
| `ReportLots.CloseOutShape` | backtest/report_html.py:298-330 | Closing keeps the shape, never overshoots, and stops only when done or when no lot opposes the remainder. |
| `ReportLots.FillKeepsShape` | backtest/report_html.py:290-341 | After any fill no lot is empty and no strategy holds long and short lots of one instrument together. |
| `ReportLots.FlatGroupIsEmpty` | backtest/report_html.py:290-341 | In that shape a group whose quantities sum to zero has no lots. |
| `ReportLots.OwnTradeClosesFirst` | backtest/report_html.py:376-394 | A lot of another trade is closed only once no opposing lot of the fill's own trade is left. |
| `ReportLots.SelectClosingLot` | backtest/report_html.py:376-394 | The chosen lot is closable; an own-trade lot if there is one, and of the eligible ones the lowest entry sequence. |
| `ReportLots.LowestSequence` | backtest/report_html.py:387-394 | No eligible lot has a lower sequence, and on a tie the first in the list is taken. |
| `LotTrades.ClosedTradesTell` | backtest/report_html.py:298-330 | Every trade a fill closes came out of a lot held before: strategy, instrument, trade id, entry time and price are the lot's, exit time and price the fill's, it was long if the lot was, takes no more than the lot had, and its P&L and return are those of its own entry, exit, quantity and multiplier. |
| `LotTrades.RestOpens` | backtest/report_html.py:397-428 | What a fill leaves over grows the first lot of its own trade id in its direction, which then costs what both cost, dates from the earlier and keeps its place; without one it opens a lot that has the fill's strategy, instrument, trade id, price, time and sequence. |
| `LotTrades.FillByTrade` | backtest/report_html.py:290-341 | Trade by trade: the lots under a trade id lose what was closed out of them and gain the rest of the fill if the fill is of that trade, in shares and in money; an unmatched close is one that leaves a rest. |
| `LotTrades.TradesHoldTheirFills` | backtest/report_html.py:241-257 | Over any run in which each fill closes only its own trade, the lots of a trade id hold exactly the net shares of its own fills, and its closed trades' exits less entries, less what its lots cost, are the money of its own fills. |
| `OpenLots.LotList.ApplyFill` | backtest/report_html.py:290-341 | The in-place version over shared lot objects leaves the list, trades and unmatched flag of the value version. |
| `OpenLots.LotList.CloseMatching` | backtest/report_html.py:298-330 | The closing loop over the mutable list. |
| `OpenLots.LotList.Remove` | backtest/report_html.py:329-330 | List removal by value takes out the first equal lot and keeps the rest in order. |
| `OpenLots.LotList.Open` | backtest/report_html.py:397-428 | Merges into a lot object or appends a new one. |
| `Costing.TwoCostingsMeet` | backtest/report_html.py:290-341 | Realised P&L less tied-up basis is the same by lots as at average cost, up to the multiplier; when the strategy is flat in the instrument nothing is tied up on either side. |
| `Costing.ReportMeetsPortfolio` | core/portfolio/state.py:199-227 | For the series actually reported, over any run: whenever a strategy is flat in an instrument its closed-lot P&L is the average-cost realised P&L times the multiplier. |
| `Costing.LotsBalance` | backtest/report_html.py:290-341 | For each strategy and instrument the lots hold the net of its fills, and lot P&L less lot cost is the cash of its fills. |
| `Portfolio.AverageCostConserves` | core/portfolio/state.py:199-227 | Every branch of the signed-quantity update adds the quantity, and realised P&L less change of basis is the cash of the fill. |
| `Portfolio.EntriesAreNets` | core/portfolio/state.py:32-69 | After any run of fills each entry of the broker-wide, per-strategy and per-lot books holds the net of exactly the fills that belong to it. |
| `Portfolio.RealisedBalances` | core/portfolio/state.py:199-227 | Over any run, in any book entry, realised P&L less remaining basis equals the cash moved. |
| `Portfolio.EntriesTell` | core/portfolio/state.py:199-227 | After any run an entry exists if and only if a fill belongs to it, names its instrument and trade id, is free of cost when flat, and when open costs no less than the cheapest and no more than the dearest of its fills. |
| `Portfolio.LotsAndUntagged` | core/portfolio/state.py:46-69 | A strategy's position is the sum of its tagged lots plus its untagged fills. |
| `Portfolio.StrategiesMakeBroker` | core/portfolio/state.py:32-69 | If every fill has an owner, the strategies' positions sum to the broker-wide position. |
| `Portfolio.ShownIsHeld` | core/portfolio/state.py:133-149 | What a strategy is shown sums to what it holds if and only if no tagged lot is open or its untagged fills net to zero. |
| `Portfolio.UntaggedIsHidden` | core/portfolio/state.py:133-149 | Two shares bought under a trade id and three without: five held, two shown. |
| `Portfolio.PortfolioState.ApplyFill` | core/portfolio/state.py:32-69 | The three dictionaries after a fill. |
| `Portfolio.PortfolioState.AdoptPosition` | core/portfolio/state.py:71-80 | The dictionaries after adopting a broker position. |
| `Portfolio.AdoptedSays` | core/portfolio/state.py:71-80 | An adopted position stands, as it is, in the broker-wide book and, where given, under its strategy and its trade id; every other entry stays. |
| `Portfolio.PortfolioState.AdoptStrategyPosition` | core/portfolio/state.py:82-95 | Strategy and lot entries change; the broker-wide book does not. |
| `Ownership.LedgerStep` | core/startup/ownership.py:77-121 | A fill moves exactly the record it lands on by its signed quantity; a record that becomes flat goes; sides stay right. |
| `Ownership.RecordTells` | core/startup/ownership.py:77-121 | What an open record says after a fill: owner, trade id and instrument; since when (the first entry's fill if it was not known); what both cost when the fill adds, the old cost when it takes away, even past zero; no other record is touched. |
| `Ownership.NetOnIsNetOf` | core/startup/ownership.py:164-166 | Without instrument names that clash, a record is the net of a strategy's fills under one trade id. |
| `Ownership.LedgerNamesAddUp` | core/startup/ownership.py:77-121 | Under any instrument name the records sum to what was traded in all instruments of that name. |
| `Ownership.NamedIsEach` | core/startup/ownership.py:164-166 | What was traded under a name is the sum of what was traded in each instrument of it. |
| `Ownership.LedgerAddsUp` | core/startup/ownership.py:77-121 | Under a name with one traded instrument the records sum to what was traded in it. |
| `Ownership.PositionOwnershipLedger.ApplyFill` | core/startup/ownership.py:77-121 | The record dictionary after a fill. |
| `PaperBroker.OrdersConserved` | core/adapters/paper/broker.py:154-195 | A bar splits the pending orders into filled and still pending, none lost or filled twice; the fills are those of the filled ones, in order. |
| `PaperBroker.NoLookAhead` | core/adapters/paper/broker.py:107-123 | An order never fills on a bar at or before the last bar seen when it was submitted. |
| `PaperBroker.BoughtNet` | core/adapters/paper/broker.py:193-194 | Fills move the broker's position of each instrument by their net. |
| `BrokerLaws.StopFiresWhenReached` | core/adapters/paper/broker.py:228-235 | A buy stop fills at its price on a following bar of its instrument if and only if the bar's high reaches it, a sell stop if and only if the low does; otherwise it waits. |
| `BrokerLaws.OthersFillAtOpen` | core/adapters/paper/broker.py:228-235 | Every other order fills on the first following bar of its instrument, in full, at that bar's open. |
| `BrokerLaws.OtherwiseWaits` | core/adapters/paper/broker.py:154-180 | On a bar of another instrument or not later than what was seen, and as a stop without a price, an order waits. |
| `BrokerLaws.EachByItself` | core/adapters/paper/broker.py:154-195 | Orders do not affect each other: a bar does to two lists of orders what it does to each. |
| `BrokerLaws.BarAdds` | core/adapters/paper/broker.py:154-195 | What a bar fills is queued behind what was queued, reported as filled, added to the positions, and the last-seen time only rises. |
| `BrokerLaws.NetCounts` | core/adapters/paper/broker.py:193-194 | A bought fill counts up, a sold one down. |
| `BrokerLaws.OnlyOpenMatters` | core/adapters/paper/broker.py:228-235 | Two bars that agree on instrument, time and open fill the same non-stop orders at the same prices. |
| `BrokerLaws.FirstDueBarFills` | core/adapters/paper/broker.py:154-195 | An order waits through any bars it is not due on and fills on the first it is. |
| `BrokerLaws.NothingSeenFills` | core/adapters/paper/broker.py:107-123 | A bar no later than one already seen fills nothing that was submitted since. |
| `PaperBroker.Broker.OnBar` | core/adapters/paper/broker.py:154-195 | Pending orders, positions, queues and last-seen time after a bar. |
| `PaperBroker.Broker.SubmitOrder` | core/adapters/paper/broker.py:107-123 | The order is queued under its client id, its idempotency key or a new id. |
| `BrokerLaws.SubmittedWaits` | core/adapters/paper/broker.py:107-123 | Of a submission the order waits last, under its client id, else its idempotency key, else the generated id, and is reported pending; nothing else moves. |
| `PaperBroker.Broker.ModifyOrder` | core/adapters/paper/broker.py:125-142 | The pending order is replaced under its id, or the call fails and changes nothing. |
| `BrokerLaws.ModifyTells` | core/adapters/paper/broker.py:125-142 | A modify fails exactly when no order waits under the id; otherwise it exchanges the first that does, in its place and with its submission time. |
| `PaperBroker.Broker.CancelOrder` | core/adapters/paper/broker.py:144-148 | The order leaves the pending list. |
| `BrokerLaws.CancelTakes` | core/adapters/paper/broker.py:144-148 | A cancel takes exactly the orders of its ids off the list and keeps the order of the rest. |
| `PaperBroker.Broker.ReadyFills` | core/adapters/paper/broker.py:211-217 | All queued fills are handed over once. |
| `Replay.BooksAlwaysAgree` | core/orders/order_manager.py:890-906 | Start flat, then let strategies place, close and protect positions in any order, bars arrive and fills drain one by one: at every moment broker quantity is portfolio quantity plus queued fills, and sizing account and ledger hold what was drained. |
| `Replay.DrainedBooksEqual` | core/adapters/paper/broker.py:154-195 | With the fill queue empty, broker, portfolio, sizing account, the strategies' positions together and the report's lots hold the same quantity of every instrument. |
| `Replay.DrainedReportEqual` | backtest/report_html.py:201-287 | The account series the report builds from the drained fills, grouped by timestamp and over whatever bars it is given, ends with the broker's quantity of every instrument, in its lots and in its positions. |
| `Replay.LedgerAlwaysAddsUp` | core/startup/ownership.py:77-121 | At every moment, under every name: what the broker holds in all instruments of the name is the sum of the ledger's records under it plus what is still queued, whether instruments share names or not. |
| `Replay.DrainedLedgerEqual` | core/startup/ownership.py:77-121 | With the fill queue empty, under a name with one traded instrument, the ledger's records sum to what the broker holds of it. |
| `Replay.ReconciliationIsQuiet` | core/engine/runner.py:1840-1859 | In such a replay the reconciliation check finds no unknown order ever, and it finds drift if and only if the queued fills of some reporting name do not net to zero; so none once fills are drained. |
| `Sizing.SizingIsReport` | core/engine/runner.py:2255-2286 | At the end of every timestamp of any ordered run, the engine's sizing account is the report's account, for any interleaving of bars and fills inside a timestamp. |
| `Sizing.BarsFirst` | core/engine/runner.py:2255-2286 | However bars and fills interleave, the account ends where it would with all bars first. |
| `Sizing.BarCommutesWithFill` | core/engine/runner.py:2255-2286 | A price update and a fill commute, for one or two instruments. |
| `Sizing.TimestampAgrees` | backtest/report_html.py:241-271 | One timestamp's events bring both accounts to the same cash, positions and prices for held instruments. |
| `Sizing.MarkToMarketSizingState.UpdateBar` | core/engine/runner.py:2263-2264 | Latest price after a bar. |
| `Sizing.MarkToMarketSizingState.ApplyFill` | core/engine/runner.py:2277-2286 | Cash, position and last price after a fill. |
| `Sizing.MarkToMarketSizingState.Equity` | core/engine/runner.py:2269-2275 | Cash plus marked positions; unpriced ones count nothing. |
| `OrderIndex.RunsIndexed` | core/orders/order_manager.py:1157-1403 | For every sequence of submissions, closes, stop updates, fills, status updates and session cancels against a broker that never reuses an id: a stop is listed under a position iff its inverse entry names it, no empty sets, requests have the same keys; pending closes and inverse agree; owner, role and trade-id maps share one domain; every tracked stop or close is registered to its position's strategy and trade. |
| `OrderIndex.StepKeeps` | core/orders/order_manager.py:1157-1403 | Every operation keeps that invariant if the ids handed out in it are not live. |
| `OrderIndex.StepLive` | core/orders/order_manager.py:1157-1403 | Only ids handed out in an operation become live in it. |
| `OrderIndex.SubmitKeeps` | core/orders/order_manager.py:651-676 | Reserve, register, submit, move or forget an order. |
| `OrderIndex.SubmitStopKeeps` | core/orders/order_manager.py:1041-1071 | Submitting a protective stop, with a reserved id, a rejection or an exception. |
| `OrderIndex.EnsureStopKeeps` | core/orders/order_manager.py:263-441 | Submitting, improving or replacing the stop of a position, for every answer to the modify and the submit. |
| `OrderIndex.RequestCloseKeeps` | core/orders/order_manager.py:141-251 | Reserving a close, submitting it, cancelling the stops. |
| `OrderIndex.HandleFillKeeps` | core/orders/order_manager.py:890-931 | Handling a fill of any role. |
| `OrderIndex.HandleUpdateKeeps` | core/orders/order_manager.py:933-955 | Handling a status update. |
| `OrderIndex.MoveTrackingKeeps` | core/orders/order_manager.py:1261-1274 | Carrying tracking from a reserved id to the broker's id. |
| `OrderIndex.CompleteRegistrationKeeps` | core/orders/order_manager.py:1240-1259 | Completing a registration, moved or new. |
| `OrderIndex.AddStopKeeps` | core/orders/order_manager.py:1157-1174 | Tracking a new stop. |
| `OrderIndex.ClearPendingCloseKeeps` | core/orders/order_manager.py:1374-1379 | Clearing a close removes exactly the closes that name it. |
| `OrderIndex.ClearStopIsWithout` | core/orders/order_manager.py:1390-1403 | Clearing one stop by its inverse entry takes it out of every dictionary and drops an emptied set. |
| `OrderIndex.ClearEachIs` | core/orders/order_manager.py:1293-1334 | Cancelling stops one after another removes exactly those whose cancel did not fail. |
| `OrderIndex.SubmitCloseIs` | core/orders/order_manager.py:206-251 | The reservation made while a close is being submitted leaves no trace. |
| `OrderIndex.SubmitRegisters` | core/orders/order_manager.py:651-676 | An accepted submission leaves its id registered under its owner, role and trade id. |
| `OrderGuarantees.CloseFillDisarms` | core/orders/order_manager.py:912-929 | A close fill leaves its position no stop except those whose cancel failed, clears its own pending close and no other, and touches no other position's stops. |
| `OrderGuarantees.StopFillDisarms` | core/orders/order_manager.py:912-929 | A protective-stop fill leaves its position no pending close unless cancelling it failed, and keeps all others. |
| `OrderGuarantees.StopsOnlyTighten` | core/orders/order_manager.py:263-441 | A stop update changes at most the position's own active stop, to the position's size and to a price above the old one for a long position and below it for a short one; a stop request disappears only when its modify is turned down. |
| `OrderGuarantees.ProtectiveOrderFlattens` | core/orders/order_manager.py:375-385 | Filled in full, the stop of a position brings it to zero. |
| `OrderGuarantees.FirstStop` | core/orders/order_manager.py:360-441 | A position without a stop has one submitted for its whole size: a sell stop for a long one, a buy stop for a short one, at the price asked for. |
| `OrderGuarantees.StopUpdateLeaves` | core/orders/order_manager.py:263-358 | With stops listed, a price that does not rise for a long position or fall for a short one changes nothing; otherwise an accepted modify replaces the first stop's order and nothing else, one that is turned down takes that stop away, an exception changes nothing. |
| `OrderEffects.SubmissionLeaves` | core/orders/order_manager.py:651-676 | An order that is taken is known under the id it was answered with and the reserved one is forgotten; turned down it is forgotten under both; all other ids, all closes and all stops stay. |
| `OrderEffects.SubmissionKeepsPct` | core/orders/order_manager.py:1240-1274 | An entry's stop distance goes with it to the id it ends up under. |
| `OrderEffects.StopLeaves` | core/orders/order_manager.py:1041-1071 | A stop that comes to rest is listed under its position with its order; no other stop or close moves. |
| `OrderEffects.StopIsKnown` | core/orders/order_manager.py:1041-1071 | It is registered for its position as a protective stop, or forgotten when turned down. |
| `OrderEffects.CloseLeaves` | core/orders/order_manager.py:141-251 | A close request while one is pending changes nothing; an accepted close becomes the pending one and of the position's stops only those stay whose cancel fails; one that is not accepted changes no list. |
| `OrderEffects.UpdateLeaves` | core/orders/order_manager.py:933-955 | After a cancelled or rejected update the id is in no dictionary and in no position's lists, and everything else is unchanged; any other status changes nothing. |
| `OrderEffects.CloseCanFollow` | core/orders/order_manager.py:141-167 | So once its pending close is cancelled or rejected, a position's next close request does submit. |
| `OrderEffects.IdleFillLeaves` | core/orders/order_manager.py:890-931 | A fill of an unknown order, of another role, or of an entry without a stop changes nothing. |
| `OrderEffects.EntryFillLeaves` | core/orders/order_manager.py:890-911 | An entry's fill submits the stop declared for it, for the entry's own position. |
| `OrderEffects.CloseFillLeaves` | core/orders/order_manager.py:912-920 | A close's fill ends that close and takes the position's stops whose cancel does not fail; registrations and all other positions stay. |
| `OrderEffects.StopFillLeaves` | core/orders/order_manager.py:921-929 | A stop's fill ends that stop and the position's pending close unless cancelling it fails; all else stays. |
| `OrderEffects.SessionLeaves` | core/orders/order_manager.py:1176-1209 | When a session ends exactly the stops of session-only strategies whose cancel does not fail go. |
| `Exits.CloseFlattens` | core/orders/order_manager.py:155-175 | A close is a market order for all of the position in the opposite direction, under its own key: filled in full it leaves zero. |
| `Exits.StopFlattens` | core/orders/order_manager.py:375-385 | So is the stop of an update, at the price asked for. |
| `Exits.EntryStopFlattens` | core/orders/order_manager.py:997-1022 | The stop after an entry's fill is for what was filled, in the opposite direction. |
| `Exits.ClosingTakesOff` | core/orders/order_manager.py:141-175 | On the next bar of its instrument a submitted close takes its quantity off the broker's position, whatever else that bar fills. |
| `Exits.StoppingTakesOff` | core/adapters/paper/broker.py:228-235 | A submitted stop does so on a bar that reaches its price, below for a long position and above for a short one, and not otherwise. |
| `Resting.ListedOrdersRestIff` | core/orders/order_manager.py:1157-1403 | In every replay that keeps its order index, at every moment each listed stop waits at the broker as the order asked for, and each pending close as a market order of its position, or has filled with the fill still queued, if and only if no close goes out under the id of a stop it cancels (unless that has filled). |
| `Resting.ActRestsIff` | core/orders/order_manager.py:206-251 | One action keeps that if and only if it is no such close. |
| `Resting.ClosePlacedRestsIff` | core/orders/order_manager.py:206-251 | The same for a close request in any state. |
| `Resting.DerivedOrdersRest` | core/orders/order_manager.py:164-167 | With the keys the order manager derives, out of a family that tells position and role, what is listed is always at rest. |
| `Resting.ListedStopFires` | core/adapters/paper/broker.py:154-195 | A listed stop that has not filled fills at its price, for its quantity, on the first later bar that reaches it, however many bars come before. |
| `Resting.PlacedWaits` | core/orders/order_manager.py:651-676 | An order of some size waits at the broker and is known to the order manager under one id; any other is not sent. |
| `Resting.FilledEntryIsProtected` | core/orders/order_manager.py:990-1040 | Handling an entry's fill leaves a stop listed under its position and waiting at the broker, for what was filled, against it, at the planned price. |
| `Resting.CloseUnderStopsId` | core/orders/order_manager.py:206-251 | A run in which a close shares the id of its position's stop: the close is listed as pending and nothing waits at the broker. |
| `ReplayLaws.CloseIsSent` | core/orders/order_manager.py:141-251 | In a replay a close request for an open position without a pending close is sent for all of it, is pending, and none of the position's stops is listed or waits any more; any other request does nothing. |
| `ReplayLaws.StopIsSent` | core/orders/order_manager.py:360-441 | A stop asked for a position without one is listed and waits at the broker, for all of it, against it, at the price. |
| `ReplayLaws.StopIsTightened` | core/orders/order_manager.py:263-358 | With stops listed, the first by id is exchanged at the broker and in the list if the new price is tighter and it still waits; otherwise nothing happens. |
| `ReplayLaws.SessionCancels` | core/orders/order_manager.py:1176-1209 | At the end of a session exactly the stops of session-only strategies stop waiting. |
| `ReplayLaws.FillCancels` | core/orders/order_manager.py:912-929 | Handling a close's fill takes the position's stops off the broker's list, a stop's fill its pending close, any other fill nothing. |
| `ReplayLaws.BarIsTold` | core/engine/runner.py:2263-2264 | A bar reaches the broker and the sizing account, and nothing else. |
| `ReplayLaws.FillIsTold` | core/orders/order_manager.py:890-911 | A drained fill reaches the books with the owner and trade id its order was registered under, and the sizing account as that event. |
| `ReplayLaws.EventTells` | core/engine/runner.py:2277-2286 | To the accounts a fill is an event of its owner and trade, at its own time and with its place in the stream. |
| `ReplayLaws.EventComesBack` | backtest/report_html.py:290-341 | The two costings are compared on the same fills. |
| `OrderReuse.SubmitIdReuse` | core/orders/order_manager.py:651-676 | An entry or intent of any role, whatever id was reserved and whatever came back (an exception, an acceptance, a rejection or a cancellation), keeps the index if and only if the ids it forgets are no live stop or close and an accepted id, if live, already stands for the same strategy, role and trade. |
| `OrderReuse.StopIdReuse` | core/orders/order_manager.py:1041-1071 | The same for a stop submission: if and only if the ids it forgets are not live and its own id is no live close and, when the stop rests, no live stop of another position. |
| `OrderReuse.CloseIdReuse` | core/orders/order_manager.py:206-251 | The same for a close request: nothing is submitted, or no reserved or answered id is a live close or a live stop, but for stops of this position that the close manages to cancel; a close turned down must forget no live id. |
| `OrderReuse.StopUpdateIdReuse` | core/orders/order_manager.py:263-441 | The same for a stop update: only an update that submits a stop can do harm; with a stop already active no answer to the modify, whatever id it carries, breaks the index. |
| `OrderReuse.FillIdReuse` | core/orders/order_manager.py:890-931 | The same for a fill: only the stop an entry fill submits can do harm. |
| `OrderReuse.StepKeepsIff` | core/orders/order_manager.py:1157-1403 | All operations together: each keeps the index if and only if its ids are harmless in the state it meets. |
| `OrderReuse.RunsIndexedIff` | core/orders/order_manager.py:1157-1403 | A whole run keeps the index throughout if and only if every operation in it is harmless where it comes in. |
| `OrderReuse.MeantIdsIndexed` | core/orders/order_manager.py:1157-1403 | Ids may come back again and again: if each is always used for one position and role, every reachable state is indexed. |
| `OrderNames.JoinReads` | core/orders/order_manager.py:602-604 | A dash-joined text has one reading as dashless tokens. |
| `OrderNames.KeysTell` | core/orders/order_manager.py:802-812 | Derived keys of entries, intents, closes, first stops and stop updates, of names, symbols and trade ids without dashes: equal keys mean the same strategy name, symbol, trade and role. |
| `OrderNames.StopKeyIsKey` | core/orders/order_manager.py:1005-1011 | The key of the stop of an entry, built around the entry's broker id, is again such a derived key when that id is one. |
| `ReplayIds.ActionKeepsIff` | core/adapters/paper/broker.py:107-123 | An action of a replay, whose ids are those the paper broker gives, keeps the order index if and only if the operation it comes to is harmless. |
| `ReplayIds.ReplayIndexedIff` | core/adapters/paper/broker.py:107-123 | A replay keeps the index throughout if and only if every action is harmless where it comes in. |
| `OrderNames.ProperTells` | core/orders/order_manager.py:1142-1147 | Dashless names of pairs that strategy name and symbol tell apart are such a family, closed under the stops of entries. |
| `ReplayIds.DerivedIdsIndexed` | core/orders/order_manager.py:164-167 | If every order goes out under its derived key, out of any family of names in which equal keys mean the same position and role, then after any replay, however often it comes back to a position, the index holds and every live stop and close is under its own key. |
| `ReplayIds.DerivedIdsIff` | core/orders/order_manager.py:1142-1147 | All replays under the keys of dashless names (and of roles that read like no side and no stop) keep the index if and only if, among the pairs with dashless strategy name and symbol, these determine strategy and contract. |
| `ReplayIds.DashesCollide` | core/orders/order_manager.py:602-604 | With dashes that is not enough: strategy a-b trading c and strategy a trading b-c are told apart by name and symbol, and a replay under their derived keys breaks the index. |
| `ReplayIds.ContractsOfOneSymbolCollide` | core/adapters/paper/broker.py:107-123 | A replay through the paper broker, all keys derived, that enters two positions whose keys are equal, as those of two contracts of one symbol are: both list one stop id, the index is broken, and closing the first takes the second's stop off the broker while the second is still held and the first still lists it. |
| `OrderManagement.OrderManager.RegisterOrder` | core/orders/order_manager.py:1225-1238 | The maps after registering an order. |
| `OrderManagement.OrderManager.MoveOrderTracking` | core/orders/order_manager.py:1261-1274 | The maps after moving an order's tracking. |
| `OrderManagement.OrderManager.CompleteOrderRegistration` | core/orders/order_manager.py:1240-1259 | The maps after completing a registration. |
| `OrderManagement.OrderManager.ClearOrderTracking` | core/orders/order_manager.py:1276-1280 | The maps after forgetting an order. |
| `OrderManagement.OrderManager.ClearProtectiveStop` | core/orders/order_manager.py:1390-1403 | The maps after clearing a stop. |
| `OrderManagement.OrderManager.ClearPendingCloseOf` | core/orders/order_manager.py:1374-1379 | The maps after clearing a pending close. |
| `OrderManagement.OrderManager.TrackProtectiveStopOrder` | core/orders/order_manager.py:1157-1174 | The maps after tracking a stop order. |
| `OrderManagement.OrderManager.CancelProtectiveStopsForPosition` | core/orders/order_manager.py:1293-1334 | The maps after cancelling a position's stops, some of which may fail. |
| `OrderManagement.OrderManager.CancelPendingCloseForPosition` | core/orders/order_manager.py:1336-1372 | The maps after cancelling a position's pending close. |
| `OrderManagement.OrderManager.CancelSessionProtectiveStops` | core/orders/order_manager.py:1176-1209 | The maps after the session ends; the invariant stays. |
| `OrderManagement.OrderManager.SubmitOrder` | core/orders/order_manager.py:651-676 | The maps and the outcome of submitting an order; the invariant stays for ids not in use. |
| `OrderManagement.OrderManager.RequestPositionClose` | core/orders/order_manager.py:125-261 | The maps after a close request; it is dropped exactly when flat, not permitted or already pending. |
| `OrderManagement.OrderManager.EnsureProtectiveStop` | core/orders/order_manager.py:263-441 | The maps after a stop update. |
| `OrderManagement.OrderManager.HandleFillOf` | core/orders/order_manager.py:890-931 | The maps after a fill. |
| `OrderManagement.OrderManager.HandleOrderUpdate` | core/orders/order_manager.py:933-955 | The maps after a status update. |
| `OrderManagement.OrderManager.TrackedIds` | core/orders/order_manager.py:1211-1216 | The ids reconciliation recognises are exactly the owned ones. |
| `Approvals.SubmissionsNeedApprovals` | core/orders/order_manager.py:709-742 | From any state, over any interleaving of emissions and operator actions: submissions under an id never outnumber the approvals given since, plus the one already due. |
| `Approvals.NeverOutnumber` | core/orders/approvals.py:18-87 | From the start, submissions under an id never outnumber operator approvals of it. |
| `Approvals.RejectedStaysUnsent` | core/orders/order_manager.py:709-742 | While an id is pending, rejected or submitted, nothing more is submitted under it until the operator approves again. |
| `Approvals.OperatorDecides` | core/orders/approvals.py:37-41 | After approving or rejecting a known id it is approved or rejected, whatever it was, with its content, and every other item is unchanged. |
| `Approvals.EmissionDoes` | core/orders/order_manager.py:709-742 | What one emission changes, item by item, and when it sends. |
| `Approvals.IdOf` | core/orders/approvals.py:90-106 | An approval's id is the strategy and the intent's own key, or its description without one. |
| `Approvals.RejectionHolds` | core/orders/approvals.py:40-41 | After a rejection nothing is sent under the id until the next approval of it, over any run and from any state, also if it was approved before. |
| `Approvals.SentIff` | core/orders/order_manager.py:855-880 | An intent is sent iff it is eligible, its id is approved and the broker takes the call; then its status is submitted; a raising broker leaves the approval as it was. |
| `Approvals.StepShownIff` | core/orders/order_manager.py:709-742 | As long as everything sent was as shown, one more step keeps it so if and only if an emission about to be sent finds approved an item of that very intent and strategy. |
| `Approvals.ShownIff` | core/orders/order_manager.py:709-742 | Over a run from the start: everything sent is the intent the operator was shown if and only if every emission that needs approval and reaches the broker finds approved an item of itself in the state it meets. |
| `Approvals.SentAsShown` | core/orders/approvals.py:90-106 | In particular if intents that share an id are the same intent. |
| `Approvals.ReusedKeySendsOther` | core/orders/approvals.py:90-106 | A run in which a strategy reuses its own key and another quantity goes out under the old approval. |
| `Approvals.ApprovalStore.RequestApproval` | core/orders/approvals.py:18-35 | A known id gives its item unchanged; a new one is pending. |
| `Approvals.ApprovalStore.ChangeStatus` | core/orders/approvals.py:63-87 | Fails exactly for unknown ids, changing nothing; otherwise the item has the new status and its content, and every other item is unchanged. |
| `Approvals.ApprovalStore.ProcessIntent` | core/orders/order_manager.py:709-742 | The approval part of intent processing; sends only what was approved before. |
| `Aggregation.BuilderIsDirect` | core/data/bar_builder.py:38-93 | For time-ordered source bars, the bars emitted plus the flushed one are, bucket by bucket, first open, highest high, lowest low, last close and total volume. |
| `Aggregation.DirectSnoc` | core/data/bar_builder.py:47-74 | In time order one more bar extends the last candle or starts a new one. |
| `Aggregation.AggregateSays` | core/data/resampler.py:61-72 | An aggregate opens with the first bar and closes with the last, its high and low are reached and never passed, and its volume is the sum. |
| `BarBuilding.BuildStream` | core/data/bar_builder.py:22-112 | A stream through the mutable builder, flushed at its end, is that batch aggregate. |
| `BarBuilding.BarBuilder.OnBar` | core/data/bar_builder.py:38-74 | State and emitted bar after one source bar. |
| `BarBuilding.BarBuilder.Flush` | core/data/bar_builder.py:76-93 | Gives up the unfinished bar. |
| `BarBuilding.BarBuilder.FloorToTarget` | core/data/bar_builder.py:99-104 | The multiple of the target timeframe at or before the time and less than one timeframe before it. |
| `Resampling.TwoStagesAreOne` | core/data/resampler.py:61-84 | Building minutes and resampling them keeps exactly the buckets with no minute missing, each aggregated as if straight from the source bars. |
| `Resampling.BuilderThenResampler` | core/data/bar_builder.py:38-93 | The same for the live builder's output. |
| `Resampling.FullMeansEveryMinute` | core/data/resampler.py:63-80 | The completeness test by row count holds iff every minute of the bucket is there. |
| `Resampling.MinutesFirst` | core/data/resampler.py:61-73 | Every coarse aggregate of minute candles is the aggregate of the source bars. |
| `Resampling.Pigeonhole` | core/data/resampler.py:77-80 | k strictly increasing numbers below k are all of them, and only then. |
| `Resampling.DirectShape` | core/data/resampler.py:61-73 | Batch candles come in order, at the starts of exactly the occupied buckets. |
| `Resampling.CompleteMeans` | core/data/resampler.py:61-79 | An intraday bucket counts as complete with as many rows as the timeframe has whole minutes, and with one below a minute. |
| `Resampling.LookbackIs` | core/data/resampler.py:86-87 | A lookback keeps the latest candles, that many if there are so many, and all without one. |
| `DataStore.RunsTrack` | core/data/manager.py:96-361 | Over any mix of live bars, backfills, loads and reads, with any lookback, the store holds what a plain map holds, for all days kept. |
| `DataStore.StoreIsMap` | core/data/manager.py:218-308 | Without trimming the stored frame is the sorted form of that map, bar count is its size and latest timestamp its largest key. |
| `DataStore.CachedIsCurrent` | core/data/manager.py:267-277 | A resample, remembered or not, equals a fresh resample of the bars as they are. |
| `DataStore.SameRecordSameAnswers` | core/data/manager.py:259-277 | Only the map matters: arrival order, flushes and earlier reads change no answer. |
| `DataStore.WindowIsExact` | core/data/manager.py:259-265 | A read of some days sees exactly the map's rows of those days up to its latest row, if nothing is ever trimmed or that window starts no earlier than the days kept before the latest time the map ever held. |
| `DataStore.WindowMisses` | core/data/manager.py:127-156 | Otherwise a run misses rows: two offline rows are loaded, the earlier is trimmed, and the live provider's history replaces the later by one between them; parameters are the latest row, the latest time ever held, the days kept and the days read. |
| `DataStore.WindowsSafeIff` | core/data/manager.py:332-340 | For a given latest row and latest time ever held, reads are right in all runs if and only if nothing is trimmed or the window starts no earlier than the days kept. |
| `DataStore.WindowExactUnlessReplaced` | core/data/manager.py:259-265 | Without a backfill in which the live provider wins, every read of no more days than are kept is right. |
| `DataStore.HighStandsUnlessReplaced` | core/data/manager.py:127-156 | Only a backfill in which the live provider wins can take the latest row away. |
| `DataStore.BackfillChanges` | core/data/manager.py:96-212 | Preserving backfill changes no row and adds exactly the missing timestamps before the session date; a live-provider backfill leaves no offline row in the session and touches no other row. |
| `StoreLaws.BackfillSays` | core/data/manager.py:96-212 | Time by time: a stored row stands unless it is an offline row of the session and the live provider wins; where none stands there is the last row of the batch that may fill the gap, or nothing. |
| `StoreLaws.LoadSays` | core/data/manager.py:65-94 | A load leaves the last row of each time it has, marked offline, and nothing else. |
| `StoreLaws.LiveQueues` | core/data/manager.py:218-253 | A bar later than all others is only queued, the 512th moves the queue into the frame, any other bar moves it first; every bar is a change. |
| `StoreLaws.QueueBounded` | core/data/manager.py:218-253 | The queue never reaches 512 rows. |
| `StoreLaws.OldRowsGo` | core/data/manager.py:332-361 | Moving the queue, loading, and a backfill that changes anything leave no row older than the days kept before the last. |
| `StoreLaws.PricesAre` | core/data/manager.py:267-277 | What is resampled are the rows' bars at their times. |
| `StoreLaws.ResampleRemembered` | core/data/manager.py:267-277 | A resample is remembered for the revision it was made at, others stay, and asking again changes nothing. |
| `DataStore.OnBarTracks` | core/data/manager.py:218-253 | A live bar overwrites its timestamp or appends it. |
| `DataStore.BackfillTracks` | core/data/manager.py:96-212 | A backfill fills gaps as the policy says. |
| `DataStore.FlushTracks` | core/data/manager.py:342-361 | Flushing and trimming lose nothing of the days kept. |
| `DataStore.LoadTracks` | core/data/manager.py:65-94 | Loading replaces everything. |
| `Frames.MergedSays` | core/data/manager.py:245-251 | Concatenate, sort stably, keep last: an increasing frame in which later rows overwrite. |
| `Frames.FrameUnique` | core/data/manager.py:245-251 | An increasing frame is determined by its map. |
| `DataManagement.DataManager.OnBar` | core/data/manager.py:218-253 | Fields after a live bar, against the store on values and the map. |
| `DataManagement.DataManager.MergeBackfill` | core/data/manager.py:96-212 | Fields and count of accepted rows after a backfill. |
| `DataManagement.DataManager.FlushPending` | core/data/manager.py:342-361 | Fields after a flush. |
| `DataManagement.DataManager.TrimLookback` | core/data/manager.py:332-340 | Rows older than the lookback are dropped. |
| `DataManagement.DataManager.Bars1m` | core/data/manager.py:259-265 | Flush, then the requested days. |
| `DataManagement.DataManager.Resampled` | core/data/manager.py:267-277 | Answers with the current resample. |
| `DataManagement.DataManager.BarCount` | core/data/manager.py:283-286 | Number of rows; without trimming the size of the map. |
| `Features.NoLeakMinute` | core/features/registry.py:527-548 | For prefix-stable indicators at one minute, slicing the value over the whole replay is computing on the bars up to that time. |
| `Features.NoLeakIntraday` | core/features/registry.py:527-548 | For resampled intraday bars of any instrument the view depends only on rows before the current bucket, whatever later rows are known. |
| `Features.DailyLeak` | core/features/registry.py:527-548 | With daily bars the replay-wide view equals the view from the bars so far if and only if today already has a bar, or nothing follows, or nothing came before today. |
| `Features.TomorrowShowsYesterday` | core/features/registry.py:527-548 | Two rows, yesterday and tomorrow, for which the two daily views differ today. |
| `Features.MinuteViewSeesOwnTime` | core/features/registry.py:55-67 | The one-minute view of an instrument whose bar of the current time is not delivered yet equals the view of what was delivered iff there is no such bar. |
| `Features.UndeliveredBarShows` | core/features/registry.py:55-67 | A bar at the current time, not delivered yet, is in the view. |
| `Features.ResampleBefore` | core/data/resampler.py:61-84 | Resampling the rows before a bucket start is resampling everything and cutting there. |
| `Features.ResampleSays` | core/data/resampler.py:61-84 | An intraday resample is exactly the complete buckets with their aggregates, in order. |
| `Features.DailyView` | core/data/resampler.py:81-84 | A daily view shows the days before, the latest of them only once a later day has a row. |
| `Features.StableSlice` | core/features/registry.py:527-548 | Slicing an indicator is applying it to the slice. |
| `Features.OnlyFinishedBuckets` | core/features/registry.py:551-588 | Every visible resampled row lies in a bucket that is over. |
| `Features.ViewShows` | core/features/registry.py:551-588 | A view is a first part of the frame: up to a minute the rows no later than the time, above it those before the start of the bucket the time is in, and everything without a time. |
| `Features.LatestIsLast` | core/features/registry.py:591-617 | The latest bar found by position is the last row of the slice. |
| `Indicators.IndicatorsAreStable` | core/features/indicators.py:23-211 | EMA, SMA, standard deviation, RSI, MACD, stochastic, ATR, ADX, Bollinger bands, session VWAP, session open and Heikin-Ashi are prefix-stable, for all periods. |
| `Indicators.SessionOpenIsStable` | core/features/indicators.py:170-174 | The session open is, although it is looked up over the whole frame. |
| `Indicators.DailyLooksAhead` | core/features/indicators.py:177-189 | The daily aggregate is not: two rows of a day that show it. |
| `Indicators.HeikinAshiBars` | core/features/indicators.py:192-211 | The array-filling loop computes the row-by-row definition. |
| `IndicatorLaws.EmaTells` | core/features/indicators.py:23-26 | The exponential average starts at the first close and goes two parts in (period + 1) of the way to each. |
| `IndicatorLaws.EmaBetween` | core/features/indicators.py:23-26 | It stays between the lowest and the highest close so far. |
| `IndicatorLaws.SmaTells` | core/features/indicators.py:28-31 | The plain average times the period is the sum of the last so many closes; undefined before there are that many. |
| `IndicatorLaws.RsiTells` | core/features/indicators.py:42-51 | Rises and falls of the close are smoothed by one part in period, from the first of them on. |
| `IndicatorLaws.IndexIsShare` | core/features/indicators.py:42-51 | The index is the share of the gains in per cent, at least nothing and below a hundred; undefined without losses. |
| `IndicatorLaws.DeviationTells` | core/features/indicators.py:33-40 | The deviation is the root of the squared distances of the last closes from their mean over one less than their number. |
| `IndicatorLaws.BandsTell` | core/features/indicators.py:126-143 | Bollinger bands lie around the plain average, so many deviations away on either side. |
| `IndicatorLaws.MacdTells` | core/features/indicators.py:53-70 | The two averages are the exponential ones, the line their difference, the signal its smoothing from nothing, the histogram what the line has over it. |
| `IndicatorLaws.FastTells` | core/features/indicators.py:72-85 | Where the close lies between the lowest low and the highest high of the last rows, in per cent. |
| `IndicatorLaws.MeanTells` | core/features/indicators.py:72-85 | Its smoothings are plain averages, undefined while a value is missing. |
| `IndicatorLaws.StochTells` | core/features/indicators.py:72-85 | The three lines of the stochastic, each from the one before. |
| `IndicatorLaws.RangeTells` | core/features/indicators.py:87-96 | The true range is the largest of the row's own range and the distances of its high and low from the close before. |
| `IndicatorLaws.AtrTells` | core/features/indicators.py:87-96 | The average range goes one part in period of the way to each row's range. |
| `IndicatorLaws.MovesTell` | core/features/indicators.py:98-123 | Only the larger of the moves up and down counts, the downward one on a tie. |
| `IndicatorLaws.DirectionTells` | core/features/indicators.py:98-123 | The directional index is the imbalance of the moves, between nothing and a hundred. |
| `IndicatorLaws.AdxTells` | core/features/indicators.py:98-123 | Range, moves and index are smoothed by one part in period. |
| `IndicatorLaws.VwapTells` | core/features/indicators.py:146-167 | The session average price times the day's volume so far is the typical prices times their volumes. |
| `IndicatorLaws.OpenTells` | core/features/indicators.py:170-174 | A row's session open is the open of the first row of its day. |
| `IndicatorLaws.HeikinAshiTells` | core/features/indicators.py:192-211 | A Heikin-Ashi bar closes at the mean of its row, opens at the middle of the bar before, and holds both within its extremes. |
| `FeatureCache.FeatureRegistry.Get` | core/features/registry.py:172-221 | A feature as of a time, from a preloaded source or else from the instrument's bar store, cached or not, is what computing on the current rows gives; for stable indicators what the rows up to the time alone give. It fails exactly for instruments without a bar store. |
| `FeatureCache.FeatureRegistry.FromSource` | core/features/registry.py:270-306 | A feature over a preloaded source. |
| `FeatureCache.FeatureRegistry.FromStore` | core/features/registry.py:194-221 | A feature over a bar store, under its revision: computed on the bars as they are, although only the revision is looked at. |
| `FeatureCache.FeatureRegistry.ManagedBarsOf` | core/features/registry.py:368-371 | The bars of a store at a timeframe; reading flushes the store and changes neither its revision nor what it holds. |
| `FeatureCache.FeatureRegistry.ManagerMoves` | core/data/manager.py:278-281 | Whatever happens to a store (bars, history, loads, reads), every cached entry stays right. |
| `FeatureCache.StepMoves` | core/data/manager.py:218-253 | Every operation on a store raises its revision or leaves its flushed bars alone. |
| `FeatureCache.FeatureRegistry.CachedBarsOf` | core/features/registry.py:320-340 | Cached timeframe bars are those of the current source. |
| `FeatureCache.FeatureRegistry.LatestBarOf` | core/features/registry.py:150-170 | The last visible row, of a source or else of the bar store. |
| `FeatureCache.FeatureRegistry.SetSource` | core/features/registry.py:342-354 | The source says what the rows say; the version grows exactly when it changes; other sources stay. |
| `FeatureCache.FeatureRegistry.OnBar` | core/features/registry.py:69-81 | A bar whose time holds a row within the tolerance (1e-8 plus 1e-5 of the new value, in every column) changes nothing, so versions and cache survive a replay; any other overwrites or adds its row; either way the source then holds a row close to it, and other sources stay. |
| `FeatureCache.NearbyBarIsDropped` | core/features/registry.py:674-680 | Two different rows, a hundred thousand and half a unit more, that count as equal. |
| `FeatureCache.FeatureRegistry.Invalidate` | core/features/registry.py:238-252 | Clearing everything, nothing for an instrument with a source, and otherwise exactly the features computed from its bar store; the rest stays in order. |
| `CacheLaws.CloseMeans` | core/features/registry.py:674-680 | Rows count as equal exactly when every column differs by no more than 1e-8 plus 1e-5 of the new value. |
| `CacheLaws.AskedMovesLast` | core/features/registry.py:204-206 | An entry asked for moves behind all others, which keep their order. |
| `CacheLaws.RememberedLast` | core/features/registry.py:211-220 | What is computed is remembered last, and a full cache forgets what was not asked for longest. |
| `CacheLaws.LiveEntriesGo` | core/features/registry.py:250-252 | Of an instrument without a source exactly the features of its bar store go. |
| `CacheLaws.EmptyIsEmpty` | core/features/registry.py:373-380 | An empty frame gives an empty feature whatever the indicator. |
| `EvaluationGate.OncePerBucket` | core/engine/runner.py:1201-1227 | Over non-decreasing times the gate opens exactly at the first sight of each completed bucket. |
| `EvaluationGate.SmallAlwaysAsk` | core/engine/runner.py:1201-1227 | Up to a minute the gate is always open and remembers nothing; above, it stays shut until a bar has come. |
| `EvaluationGate.PreviousBucketIff` | core/engine/runner.py:2568-2579 | The completed bucket is floor(time) minus the timeframe for all times if and only if the timeframe divides a day. |
| `EvaluationGate.GateAndView` | core/features/registry.py:591-617 | It is the bar the as-of view calls latest if and only if no minute of it is missing. |
| `EvaluationGate.CompletedMonotone` | backtest/parallel.py:327-333 | The completed bucket never moves back. |
| `EvaluationGate.Gate.ShouldGenerateEntry` | core/engine/runner.py:1201-1227 | Answer and remembered bucket of one strategy; the others' stay. |
| `StartupGate.AcceptedIff` | core/startup/position_gate.py:232-312 | A submission's allocations are accepted iff each is in order by itself and together they exceed no broker quantity and give no single-position strategy a second lot; the order does not matter. |
| `StartupGate.AcksAcceptedIff` | core/startup/position_gate.py:325-403 | Acknowledgements are accepted iff there is exactly one good one for every remainder and nothing else. |
| `StartupGate.SubmissionConserves` | core/startup/position_gate.py:210-403 | Accepted: for every managed position allocations plus acknowledged remainder equal the broker quantity within 1e-9. |
| `StartupGate.WholeSharesConserve` | core/startup/position_gate.py:210-403 | In whole shares they are equal. |
| `GateLaws.RefusedIff` | core/startup/position_gate.py:232-284 | An allocation by itself is refused with an error exactly when it passes the checks before that error's and not that one (position found by id or as the only one of contract and side, candidate, its permissions, quantity, entry time), and accepted exactly when it passes all. |
| `GateLaws.AcceptedSays` | core/startup/position_gate.py:303-312 | An accepted allocation is of that position and says what was submitted, with a blank trade id dropped and a blank source filled in. |
| `GateLaws.ListRefusedIff` | core/startup/position_gate.py:232-312 | A list is refused with an error exactly when some allocation, those before it being accepted, is refused for its own first failing check, for exceeding the broker with them, or as a second lot of a single-position strategy. |
| `GateLaws.ListAcceptedSays` | core/startup/position_gate.py:232-312 | Accepted allocations are the submitted ones, in order. |
| `GateLaws.AcksRefusedIff` | core/startup/position_gate.py:325-403 | Acknowledgements are refused with the error of the first that fails a check, for a remainder nobody acknowledged, or as too many when nothing is left; otherwise they are taken as submitted. |
| `GateLaws.SubmissionAcceptedIff` | core/startup/position_gate.py:210-230 | A submission is accepted exactly when the gate waits for one, there is something to map and something submitted, and both parts are accepted; the first of these to fail is the error. |
| `GateValidation.ValidateStartupMapping` | core/startup/position_gate.py:210-322 | The validator's loops return the first error in order or the normalised submission, with conservation. |
| `GateValidation.ValidateAllocations` | core/startup/position_gate.py:232-312 | The allocation loop with its running totals. |
| `GateValidation.ValidateRemainders` | core/startup/position_gate.py:325-403 | The remainder check. |
| `GateValidation.EachAcknowledgement` | core/startup/position_gate.py:346-395 | The acknowledgement loop. |
| `Contracts.MatchesItself` | core/startup/position_gate.py:406-430 | An instrument matches itself iff no field its contract type needs is missing. |
| `Contracts.MatchIsEquality` | core/startup/position_gate.py:406-430 | Two instruments match exactly when no field their type needs is missing and they are equal in everything that is compared of their type (letter case aside, of a future's expiry the month) and that both state. |
| `Contracts.SameTextIff` | core/startup/position_gate.py:668-672 | Texts are the same when they are letter by letter, whatever the case. |
| `Contracts.MatchIsSymmetric` | core/startup/position_gate.py:406-430 | Matching is symmetric. |
| `Contracts.MatchIsNotTransitive` | core/startup/position_gate.py:637-644 | Three instruments that show it is not transitive. |
| `Contracts.CarriesOverIff` | core/startup/position_gate.py:406-430 | Matching carries over through an instrument, for all instruments on either side, if and only if it is an option, or a future with a required field missing, or states an exchange of its own and, unless a future, a currency. |
| `StartupStatus.ClearIsCovered` | core/startup/position_gate.py:39-190 | The gate clears on its own only if no traded position is stuck and every managed position is allocated to what the broker holds. |
| `StartupStatus.SavedClears` | core/startup/position_gate.py:144-190 | Saved allocations that fit and cover every managed position clear it. |
| `StartupStatus.BuildStartupGateStatus` | core/startup/position_gate.py:39-190 | The builder's phases, positions with their candidates, exact or of the underlying, unmanaged positions, allocations and error. |
| `StartupStatus.ManagedOrNot` | core/startup/position_gate.py:61-108 | Every position is either to be mapped, with at least one candidate listed, or unmanaged, as some or no strategy trades its underlying. |
| `StatusLaws.CandidatesAre` | core/startup/position_gate.py:530-576 | A position's candidates are the strategies of its contract or, if there are none, of its underlying; one may take it over if it supports that and is not run dry. |
| `StatusLaws.RequiredAre` | core/startup/position_gate.py:61-108 | Positions some strategy trades are listed with side, quantity and candidates, in the broker's order. |
| `StatusLaws.UnmanagedAre` | core/startup/position_gate.py:61-108 | The others are listed as unmanaged. |
| `StatusLaws.OfferedAre` | core/startup/position_gate.py:144-151 | A saved allocation is tried if and only if exactly one listed position is of its contract and side. |
| `StatusLaws.PhaseIs` | core/startup/position_gate.py:110-190 | A position that cannot be taken blocks; nothing to map is clear; nothing offered waits; a refused offer keeps its error, waiting if the strategies saved all of it and blocked if not; an accepted one clears exactly when every position is accounted for. |
| `StartupStatus.Classify` | core/startup/position_gate.py:61-108 | Positions are required, unmanaged or stuck. |
| `Adoption.AdoptionGives` | core/startup/controller.py:364-402 | With hooks that return what they are offered every strategy gains exactly the signed shares allocated to it; the broker-wide book is unchanged. |
| `Adoption.GivenIsAllocated` | core/startup/controller.py:364-402 | Over all strategies the shares given are the allocated ones with the broker's sign. |
| `Adoption.NextAdopted` | core/startup/controller.py:364-402 | Allocation by allocation: an unknown position is refused; saved state is taken over as it is, anything else as the strategy decides; what is taken over adds to that strategy's exposure and becomes the lot of its trade id, and nothing else changes; a refusal is final. |
| `Adoption.AdoptedCosts` | core/portfolio/state.py:82-95 | What a strategy takes over costs it between the cheapest and the dearest of the broker positions it comes from. |
| `Adoption.PositionsNamed` | core/startup/controller.py:356-359 | Broker positions are known by their names; the last of a name stands for it. |
| `Adoption.StartupConserves` | core/startup/controller.py:344-402 | After an accepted submission is adopted, the strategies together hold each managed position less what was acknowledged. |
| `Adoption.LotRestored` | core/portfolio/state.py:82-95 | An allocation whose trade id no later one repeats is the lot the strategy ends up with: the broker's instrument and cost, the allocated shares with the broker's sign, and the trade id. |
| `Adoption.LotRestoredIff` | core/portfolio/state.py:82-95 | An allocation is listed as it was given if and only if the last allocation under its trade id has the same signed shares and cost. |
| `Adoption.RepeatedTagOverwrites` | core/portfolio/state.py:82-95 | A repeated trade id leaves the strategy holding both lots and listing only the second. |
| `Adoption.ApplyStartupPositionAllocations` | core/startup/controller.py:344-452 | In place: all adopted and the unmanaged positions reported, or stopped at a refusal with the earlier ones adopted. |
| `Restart.RestartRoundTrip` | core/startup/strategy_state.py:73-160 | Save, start again, clear the gate, adopt: each strategy holds what its lots held and every tagged lot is back with its shares and trade id, under the broker's instrument and cost. |
| `Restart.GateClears` | core/startup/position_gate.py:144-190 | Saved lots that fit and cover the broker's positions clear the gate without an operator, and exactly they are to be adopted. |
| `Restart.SavedIsOpened` | core/startup/strategy_state.py:73-103 | What is saved is what is read back, each open lot once, if no two lots of a strategy share a key and no other strategy is in the file. |
| `Restart.RecordOpens` | core/startup/strategy_state.py:242-280 | One strategy's record reads back to its open lots. |
| `Restart.RestorableIff` | core/startup/position_gate.py:578-604 | A saved lot passes the gate's own checks iff exactly one broker position has its contract and side and the strategy may take it; it keeps quantity and trade id. |
| `Restart.SumsRearranged` | core/startup/position_gate.py:232-312 | Sums over accepted allocations do not depend on their order. |
| `StateStore.StrategyStateStore.SaveAll` | core/startup/strategy_state.py:133-160 | The payload after saving all strategies. |
| `StateStore.StrategyStateStore.SaveStrategy` | core/startup/strategy_state.py:105-131 | The payload after saving one. |
| `StateStore.StrategyStateStore.OpenAllocations` | core/startup/strategy_state.py:73-103 | The allocations read back. |
| `StateStore.OpenOne` | core/startup/strategy_state.py:84-102 | One record's allocations, all positive and of its strategy. |
| `Returns.ReturnsCompound` | backtest/report_html.py:431-470 | If no day-end before the last is within the tolerance of zero, daily, monthly and yearly returns each compound to final over initial equity, and every month's and year's factor is the product of its days'. |
| `Returns.TablesCompoundIff` | backtest/report_html.py:431-470 | Where equities within the tolerance are exactly zero: each of the three tables compounds to final over initial equity if and only if no equity it is measured against is zero, or the final one is. |
| `Returns.CompoundsIff` | backtest/report_html.py:1509-1512 | The same for any curve. |
| `Returns.ZeroGrowth` | backtest/report_html.py:1509-1512 | Once an equity is zero, compounded growth is zero for good. |
| `Returns.PeriodCompounds` | backtest/report_html.py:449-468 | A period's factor is the product of the finer factors in it. |
| `Returns.Telescopes` | backtest/report_html.py:442-447 | Returns in order compound to last over initial. |
| `Returns.PerPeriodIsGrouped` | backtest/report_html.py:437-458 | Last-of-period dictionaries, sorted, are the curve grouped in order. |
| `Returns.EachReturn` | backtest/report_html.py:1509-1512 | Each return is the value over the one before it, the first over the initial equity; over a value within 1e-9 of zero it is nothing. |
| `Returns.ListedRate` | backtest/report_html.py:456-461 | Each listed month's factor is one plus its return. |
| `Returns.ZeroBreaksCompounding` | backtest/report_html.py:1509-1512 | An input: a day that ends at zero and recovers on the next. |
| `Returns.ReportReturns` | backtest/report_html.py:431-470 | The loops compute the three tables. |
| `Chunks.SplitJoins` | backtest/parallel.py:352-362 | The chunks' concatenation is the date list. |
| `Chunks.SplitBalances` | backtest/parallel.py:352-362 | With at least a date per worker: one non-empty chunk each, the first (dates mod workers) of them one longer. |
| `Chunks.ActiveExactlyOnce` | backtest/parallel.py:237-280 | A bar is active in exactly one chunk if its local date has a bar in the requested window, as every bar of the window has, and in none otherwise. |
| `Chunks.DatedExactlyOnce` | backtest/parallel.py:237-280 | Any time on one of the window's dates is active in exactly one chunk, with a bar there or not. |
| `Chunks.OutsideWindowActive` | backtest/parallel.py:237-280 | A bar outside the requested window that is active, being on the date of one inside. |
| `Chunks.SpansOnce` | backtest/parallel.py:365-368 | A date of the list lies in exactly one chunk's window. |
| `Chunks.SplitDates` | backtest/parallel.py:352-362 | The cutting loop. |

## Left out

- IBKR, Polygon and CSV adapters, the web API, the dashboard, heartbeats, HTML rendering, audit writers, configuration: no bookkeeping of their own.
- File reads and writes of the ledger and the state store: their payloads are maps in memory; the state blob that is saved beside the lots is not modelled.
- Live interleavings at await points and the startup controller's wake and refresh threads: each method is one step.
- Checks that decide whether an order is sent at all (order validation, risk guards, drawdown, session windows, sizing, rounding of prices): a caller's permission is an argument, and the submission after them is modelled.
- Limit prices at the paper broker: the code fills limit and stop-limit orders at the bar's open whatever their price, and so does the model.
- Floating point, NaN and infinities; fractional quantities outside the position gate; zero multipliers; empty order ids.
- Time zones and daylight saving: local dates are an arbitrary function, monotone where order matters. Weekly timeframes and timeframes that do not divide a day in the resampler, whose buckets start at multiples of the timeframe here.
- Letter case beyond ASCII and the eight significant digits to which the position gate compares strikes and multipliers: compared exactly here.
- The order in which positions and lots are listed where the code lists a dictionary.
- The sort of the bar store is taken to be stable, as its keep-last rule needs; the library's default sort does not promise it for long unsorted frames.
- Explicit start, end and lookback arguments of the feature registry's bar slices, its counters of computations, and columns other than close for indicators that take one. Square roots are an arbitrary function; a quotient with a zero divisor is undefined.
- Range ratio and daily aggregates as indicators: they use whole sessions and look ahead by design.
- Ownership ledger cost after a flip: it keeps the old cost (`Ownership.RecordTells`), unlike the portfolio, so over runs only quantities are compared; its adoption records are not modelled.
- Drawdown, Sharpe and Sortino figures, close-result labels and the texts of warnings of the report; source and sleeve id of acknowledgements.
- Which candidate entries a chunk's worker produces, and their merging: strategies are arbitrary.
- Closing more than is held: nothing in the code rules it out while fills are queued, and the model does not claim it.
- EvaluationGate.GateAndView: for intraday timeframes of whole minutes that divide a day, the ones the resampler completes by count.
- Returns.TablesCompoundIff: an equity within the report's tolerance of zero but not zero, less than a billionth of a unit of money, is not covered by the converse.
- StartupStatus.BuildStartupGateStatus: the texts of messages and reasons and the phase repeated on each position, which follow from the phase and the candidates.
- ReplayIds.DerivedIdsIff: covers strategy names, symbols, trade ids, close reasons and intent roles without dashes, and roles other than long, short and protective; for other derived keys `ReplayIds.DerivedIdsIndexed` asks that they tell position and role, and for intents that bring their own key `ReplayIds.ReplayIndexedIff` says exactly when the index is kept.
- Restart.RestartRoundTrip: costs are not restored, as the code takes the broker's.
