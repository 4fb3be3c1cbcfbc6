# Verified model of the trading core

This project models the deterministic money path of an automated trading system and proves what holds of it for every
input, every run and every reachable state. What the language-model agents say is turned into numbers before it
reaches this code; from there on the arithmetic decides: which fills change the books, how large an order may be, which
order the risk gate stops, what the account is reported to be worth.

Money is `real`, share counts are `int` or `nat`, tickers and dates are values with an order. State that the program
keeps in files is a field that survives a restart step. Code that updates an object or runs a loop over changing
variables is a class or a method with invariants, proved against a specification function; the theorems are lemmas about
those functions, and each method's postcondition ties the two together.

| module | part of the system |
|---|---|
| `Common`, `Sorting` | options, sums over sequences and maps, named products, the stable sort |
| `TradeLedger`, `LedgerSeed` | the fill ledger: fills, marking to market, seeding, comparison with the broker |
| `FifoMatcher`, `TwoEngines`, `ShownProfit` | first-in-first-out profit matching, the profit displayed, and their agreement with the ledger |
| `EquityFilter`, `Drawdown` | the glitch filter of the equity curve; one-pass drawdown |
| `Backtest`, `BacktestRules` | the day-by-day simulator, and its trading rules in prices |
| `RiskGate`, `BuySizing`, `PurchaseRules` | the limits an order must meet, the sizing made to meet them, and what it buys |
| `Sleeves`, `SizingWeights` | allocation sleeves; risk-weighted budgets |
| `Scorecard` | ranks, correlation, least squares |
| `BalanceSnapshot`, `Settlement`, `TickPrice` | account snapshots across glitches and restarts; unsettled sales; price grid |
| `RateLimiter`, `FillPolling`, `Directives`, `UndoLog` | protocols whose claims are about all runs |

`dafny verify dfyconfig.toml` checks everything.

## What the proofs found

Where a promise does not hold of the code as it is, the code is modelled unchanged, a concrete input shows the failure
and the exact condition under which the promise holds is proved.

- The ledger credits the whole of a sale that exceeds the position (`TradeLedger.OversoldFillInflates`). Its accounting
  identity holds for a fill exactly if the fill is regular (`TradeLedger.FillBalancesIffRegular`). With trades in the order
  of their timestamps it agrees with the annotated history exactly if the run never oversells
  (`TwoEngines.OversoldRunDisagrees`, `TwoEngines.EnginesAgreeIffNeverOversold`).
- The history sorts trades by timestamp, the ledger takes them as they come. With a stamp out of order the two can
  disagree without any overselling (`TwoEngines.LateStampDisagrees`); in general they agree exactly if what the history
  cannot match is what the ledger refused (`TwoEngines.EnginesAgreeIff`).
- The seeded ledger keeps the last admitted row of a code, the comparison with the broker adds all of them up
  (`LedgerSeed.DoubleListingDiffers`): a fresh ledger agrees with its own snapshot exactly if these are the same for
  every code (`LedgerSeed.FreshLedgerDiffersIff`, `LedgerSeed.FreshLedgerAgreesIff`).
- The risk gate skips its cycle budget when the account has no cash (`RiskGate.NoCashNoBudget`); the budget bounds every
  batch exactly if there is cash (`RiskGate.BudgetHoldsIffCash`). It bounds stock purchases only: sleeve purchases are
  checked against the cash one by one (`RiskGate.SleevesOutspendCash`, `RiskGate.BoughtWithin`).
- Sizing reads a cycle ratio of zero as 0.4, the gate takes it literally (`BuySizing.ZeroCycleRatioIsRefused`); sizing
  ignores a stock cap of zero, the gate does not (`BuySizing.ZeroStockCapIsRefused`). Budget-path orders pass the gate
  exactly under the conditions of `BuySizing.RegularOrderPassesGate`, and sizing leaves room for the gate's cash buffer
  exactly under `BuySizing.Buffered` (`BuySizing.BufferedIsExact`).
- The one-share exception knows neither the stock cap nor the cycle budget (`BuySizing.OneShareMayBeRefused`), and reads
  the common cash buffer where the gate reads the account's own, although its comment promises the same basis
  (`BuySizing.OwnBufferMayRefuse`). `BuySizing.OneShareIsApprovedIff` and `BuySizing.OneShareBufferIsExact` say exactly
  when its order is approved and when the two buffers fit.
- `SIZING_MAX_TILT` T is documented in `config.py` as the largest and smallest multiple of an equal share, but the
  weights are rescaled after clamping. At strength s, the upper half of that meaning holds exactly for lists of n names
  with (n − 1)·min(s, 1 − 1/T) ≤ T − 1 (`SizingWeights.CapsMultipleIff`, with the list of
  `SizingWeights.CalmNameExceeds` otherwise), the lower half exactly for a single name, T = 1 or s ≤ 1 − 1/T
  (`SizingWeights.KeepsFractionIff`, with the list of `SizingWeights.NervousNameFallsShort` otherwise). At the shipped
  settings, 0.5 and 2, the lower half always holds and the upper half for up to three names
  (`SizingWeights.AtTheDefaults`).
- A balance read that fails half-way and still brings a new D+2 reports the old cash
  (`BalanceSnapshot.OldCashCanWin`, `BalanceSnapshot.CashIsLatestIff`).
- Such a read also replaces the holdings file by the rows it brought, so that the next failed read after a restart or a
  dropped snapshot shows a position less (`BalanceSnapshot.PartialReadLosesPosition`,
  `BalanceSnapshot.HoldingsAreLastBelievedIff`, `BalanceSnapshot.WrongFallbackHasCause`).
- A total to be carried over is taken from the last snapshot's domestic total or, where that is zero, from its whole total,
  to which the overseas value is then added again (`BalanceSnapshot.OverseasIsDoubled`,
  `BalanceSnapshot.TotalsAreRightIff`).
- A failed overseas read looks like an empty list to fill polling and confirms the sales that wait
  (`FillPolling.FailedReadConfirmsSale`); an order always has its rightful fate exactly if no poll misleads while it
  waits (`FillPolling.RightIffNeverMisled`), and `FillPolling.SaleMisledIff`, `FillPolling.PurchaseMisledIff` and
  `FillPolling.CarriedMisledIff` say which polls do.
- Fill polling books an order in full on any move of the holding (`FillPolling.OneShareBooksTwenty`); what is booked is
  what was filled exactly under the condition of `FillPolling.BookedIsFilledIff`.
- A reset of a rate limiter's key reopens the window (`RateLimiter.ResetReopensWindow`); `RateLimiter.WindowBound` counts
  the resets.
- Backups are named to the second, so two edits of one file within a second lose the original although the text of the
  module promises an exact rollback (`UndoLog.SameSecondLosesOriginal`, `UndoLog.RollbackIsExact`).
- The backtest's equity curve counts a holding without a price on the day as worthless
  (`Backtest.UnpricedHoldingLooksLost`); it is right exactly if there is none (`Backtest.CurveOmitsUnpriced`).
- Drawdown by running peak misses losses on a curve that turns negative (`Drawdown.NegativeHidesLoss`);
  `Drawdown.DrawdownIsDeepestIff` says on which curves it does not.

## Model

| member | source | states |
|---|---|---|
| `TradeLedger.Ledger.ApplyFill` | infra/trade_ledger.py:124-199 | A seeded ledger takes exactly the acceptable fills and ends in the specified book; an unseeded one ignores them. |
| `TradeLedger.Ledger.MarkToMarket` | infra/trade_ledger.py:202-227 | Values the book, keeps each live price as the last one, and reports exactly the positions that had none. |
| `TradeLedger.FillKeepsSound` | infra/trade_ledger.py:163-192 | Whatever fill arrives, every position keeps at least one share and a positive cost and last price. |
| `TradeLedger.RunKeepsSound` | infra/trade_ledger.py:124-199 | The same over any run of fills. |
| `TradeLedger.FillBalancesIffRegular` | infra/trade_ledger.py:163-192 | An accepted fill moves cash plus cost by its realized gain less its fee, in its own currency only, if and only if it does not oversell and trades in the position's currency. |
| `TradeLedger.OversoldFillInflates` | infra/trade_ledger.py:179-185 | One share held and two sold: cash plus cost rises by the price of the share that was never held. |
| `TradeLedger.RejectedBalances` | infra/trade_ledger.py:144-192 | A rejected fill changes nothing but the counter of degraded fills. |
| `TradeLedger.LedgerIdentity` | infra/trade_ledger.py:124-199 | Over any regular run cash plus positions at cost moves by exactly the realized gains less all fees, per currency. |
| `TradeLedger.FillCostsItsFee` | infra/trade_ledger.py:163-227 | Marked at the trade price, a regular fill lowers the account's value by exactly its fee. |
| `TradeLedger.HistoryIsNewest` | infra/trade_ledger.py:193-197 | Over any run the capped history is the newest part of the full one. |
| `TradeLedger.HistoryIsCapped` | infra/trade_ledger.py:193-197 | Over any run the history never holds more than three hundred records. |
| `TradeLedger.UnpricedSaleCostsItsFee` | infra/trade_ledger.py:134-192 | Marked at last prices, a sale without a price of its own costs its fee and nothing else. |
| `TradeLedger.UnpricedPurchaseAtCost` | infra/trade_ledger.py:134-192 | A purchase without a price takes its reported average cost from the cash, with the fee. |
| `TradeLedger.OtherCashIsUntouched` | infra/trade_ledger.py:124-175 | A fill touches the cash of one currency only: the one reported, or else the one of its listing. |
| `TradeLedger.MissingPriceIsRemembered` | infra/trade_ledger.py:144-199 | That a price was missing stays with the record of the fill and with the position for as long as it is held. |
| `TradeLedger.RejectionIsCounted` | infra/trade_ledger.py:144-160 | A well-formed fill that cannot be booked is counted, an ill-formed one is not. |
| `TradeLedger.MarkedValueStays` | infra/trade_ledger.py:202-227 | After marking, the value without any live price is the value marked. |
| `TradeLedger.LivePriceDecides` | infra/trade_ledger.py:202-227 | What was paid for a position never moves its marked value; a live price decides it, else its last price. |
| `TradeLedger.DollarsAtTheRate` | infra/trade_ledger.py:202-227 | The value is the won with the positions not in dollars, plus the dollars with the others at the exchange rate; without a rate dollars count for nothing. |
| `LedgerSeed.SeedPositions` | infra/trade_ledger.py:323-354 | Turns a broker snapshot into the specified starting positions. |
| `LedgerSeed.AdmittedIsSoundIff` | infra/trade_ledger.py:326-354 | An admitted row becomes a sound position exactly if its current price is not negative. |
| `LedgerSeed.SeededIsSound` | infra/trade_ledger.py:323-354 | Seeding establishes the invariant that every later fill keeps. |
| `LedgerSeed.SeedIsWorthTheSnapshot` | infra/trade_ledger.py:323-354 | A seeded ledger, of a real account or a mock one, is worth in each currency what the snapshot is and cost what it cost, if every row names another code and has a current price. |
| `LedgerSeed.CompareWithBroker` | infra/trade_ledger.py:247-265 | Finds exactly the codes whose quantities differ; an empty snapshot is not compared. |
| `LedgerSeed.ReportedIff` | infra/trade_ledger.py:247-265 | Whatever the ledger holds and the broker lists: a code is reported exactly if there is a snapshot and its rows do not add up to the ledger's quantity. |
| `LedgerSeed.FreshLedgerDiffersIff` | infra/trade_ledger.py:247-354 | For any snapshot and code: a freshly seeded ledger is reported to differ in the code if and only if the quantities of all its rows do not add up to that of its last admitted row (0 if none was admitted). |
| `LedgerSeed.FreshLedgerAgreesIff` | infra/trade_ledger.py:247-354 | It agrees with its snapshot altogether if and only if that is so of no code. |
| `LedgerSeed.FreshLedgerDiffers` | infra/trade_ledger.py:247-354 | A code listed once differs exactly if its row has a quantity and was left out. |
| `LedgerSeed.NothingUnlistedDiffers` | infra/trade_ledger.py:247-354 | A code that the snapshot does not list is never reported. |
| `LedgerSeed.EmptySnapshotIsSilent` | infra/trade_ledger.py:247-265 | Whatever the ledger holds, against an empty snapshot nothing is reported. |
| `LedgerSeed.RepeatedCodeDiffers` | infra/trade_ledger.py:247-354 | A code listed more than once, each time with shares and a price, is always reported. |
| `LedgerSeed.DoubleListingDiffers` | infra/trade_ledger.py:247-354 | The smallest such snapshot: ten shares listed twice are twenty to the broker and ten to the ledger. |
| `FifoMatcher.TradeHistory.EnrichTradeHistory` | main_swarm.py:855-959 | Annotates the trades in time order; every detail is the specified one for the lots open at that moment. |
| `FifoMatcher.TradeHistory.Process` | main_swarm.py:857-958 | One event: the new lots and the detail recorded for it. |
| `FifoMatcher.TradeHistory.MatchSale` | main_swarm.py:898-923 | The inner matching loop ends, having taken what the specification takes from the queue. |
| `FifoMatcher.SaleTakesOldestShares` | main_swarm.py:903-923 | Share by share, what a sale takes followed by what it leaves is the queue it found. |
| `FifoMatcher.SaleCounts` | main_swarm.py:903-923 | Taken and missed shares add up to the quantity sold; shares are missed only when the queue is empty; no lot is left empty. |
| `FifoMatcher.MatcherIsShareQueue` | main_swarm.py:855-923 | After any history, for every ticker, the shares sold followed by the shares open are the shares bought, in order. |
| `FifoMatcher.SaleAccountsForQuantity` | main_swarm.py:898-958 | In every recorded sale matched and unmatched quantities make up the whole, and some is unmatched only if nothing was left open. |
| `FifoMatcher.HistoryIsSorted` | main_swarm.py:854-855 | Sorting by time loses and adds nothing, and trades with equal timestamps keep their logged order. |
| `FifoMatcher.UnfilledShowsNothing` | main_swarm.py:886-888 | A trade that was not filled opens, closes and shows nothing. |
| `FifoMatcher.ProfitIsKnownIff` | main_swarm.py:627-637 | A profit is unknown exactly if a price or the quantity is zero. |
| `FifoMatcher.FillPriceWins` | main_swarm.py:877-923 | With a fill price neither an estimate nor a hint matters. |
| `FifoMatcher.EstimateStandsIn` | main_swarm.py:877-923 | An estimate does in every way what a fill price of that amount would, except that it is marked as estimated. |
| `FifoMatcher.HintIsTheGain` | main_swarm.py:902-920 | A sale with no price at all gains in Korea the hinted part of the matched cost, and nothing without a hint; a purchase with none opens nothing. |
| `FifoMatcher.PriceShown` | main_swarm.py:924-958 | Which price and cost a sale shows; a cost of zero is no cost; the basis is unknown exactly without a match and without a positive cost. |
| `ShownProfit.ShownOverCost` | main_swarm.py:936-945 | Whatever lots are open, a sale that carries a positive average cost displays its net proceeds less the shares at that cost with the buying cost. |
| `ShownProfit.ShownWithoutCost` | main_swarm.py:924-950 | Without one it displays the matched profit, and nothing exactly if there is no match either. |
| `ShownProfit.HundredIsGained` | main_swarm.py:936-945 | Ten shares that cost 100, sold at 110, display a gain of a hundred. |
| `ShownProfit.ShownIsCostGains` | main_swarm.py:854-958 | Over any run whose sales the ledger accepts, logged with the ledger's average costs, the displayed profits add up per currency to the gains over these costs, whatever the timestamps and the lots left open. |
| `ShownProfit.OrderedShownIsCostGains` | main_swarm.py:854-958 | In time order they do even if the ledger refuses sales. |
| `ShownProfit.CashAndInvested` | infra/trade_ledger.py:163-192 | For every run: cash change plus what is invested now with the buying cost is the gains over the average costs plus the cost of shares sold that were never held. |
| `ShownProfit.ShownIsCashIffNeverOversold` | main_swarm.py:854-958 | The displayed profit is the cash change plus what is invested now with the buying cost if and only if the run never oversells; otherwise it is less. |
| `ShownProfit.ShownIsEarned` | main_swarm.py:854-958 | On a regular run it is what the ledger realized less all its fees, plus the buying cost of what is still held. |
| `TwoEngines.MatchedPnlIs` | main_swarm.py:627-637 | The matches' profit is the proceeds after the selling cost less the lots' cost after the buying cost. |
| `TwoEngines.RunsSeparately` | main_swarm.py:855-923 | Running both engines side by side is running each on its own. |
| `TwoEngines.TradeBalances` | infra/trade_ledger.py:163-192 | One trade changes ledger cash plus open lots at cost by the matcher's gain plus what oversold shares brought in. |
| `TwoEngines.HistoryIsInTime` | main_swarm.py:854 | Sorted by timestamp, the logged trades are the trades in time order, equal stamps in logged order. |
| `TwoEngines.HistoryShows` | main_swarm.py:898-948 | What the annotated details show: the profit matched, and the proceeds of shares that were not open, oversold or never held. |
| `TwoEngines.CashIsFlows` | infra/trade_ledger.py:163-192 | In whatever order trades arrive, the ledger's cash moves by what they are meant to move less the sales it refuses. |
| `TwoEngines.RunStaysInStep` | main_swarm.py:854-923 | If trades reach the ledger in the order of their timestamps, its quantity of every ticker is what the annotated history leaves open. |
| `TwoEngines.EnginesAgree` | main_swarm.py:854-948 | For every sequence of trades in any tickers with any timestamps, from flat: the ledger's cash change is the matched profit that the annotated history (sorted by timestamp) shows, less its open lots at cost plus fees, plus the proceeds of what it cannot match, less those of the sales the ledger refused. |
| `TwoEngines.EnginesAgreeIff` | main_swarm.py:854-948 | The two accounts agree on a run if and only if what the history cannot match is what the ledger refused. |
| `TwoEngines.LateStampDisagrees` | main_swarm.py:854 | A purchase stamped later than its sale: nothing is oversold, the ledger ends flat with fifty, the history matches nothing and leaves the share open. |
| `TwoEngines.ExcessesSign` | infra/trade_ledger.py:179-185 | Those proceeds are never negative, and positive exactly if something was oversold. |
| `TwoEngines.EnginesAgreeIffNeverOversold` | main_swarm.py:854-948 | With trades in the order of their timestamps, ledger and annotated history agree if and only if the run never oversells; otherwise the ledger shows more cash. |
| `TwoEngines.OversoldRunDisagrees` | main_swarm.py:892-924 | One share bought and two sold at the same price: the matcher earns nothing, the ledger a hundred. |
| `TwoEngines.FlatToFlat` | main_swarm.py:854-948 | With trades in the order of their timestamps, on a run that never oversells and ends flat the profit shown equals the cash change exactly. |
| `EquityFilter.FilterGlitches` | main_swarm.py:508-532 | The single pass computes the filtered curve. |
| `EquityFilter.EquityPoints` | main_swarm.py:475-532 | One ledger valuation is enough to use the ledger series alone, unfiltered; otherwise the flow-corrected account values, filtered. |
| `EquityFilter.FilteredAt` | main_swarm.py:512-531 | The output at any position, in terms of the previous output and the next raw point. |
| `EquityFilter.OutputsExplained` | main_swarm.py:513-528 | Every output is its own point's value or the previous output; a jump survives exactly where known holdings changed, or where a snapshot is unknown and the next point does not return. |
| `EquityFilter.FilterIdempotent` | main_swarm.py:508-532 | Filtering a filtered curve changes nothing, for every threshold. |
| `EquityFilter.ComparedWithLastKnown` | main_swarm.py:510-531 | Holdings are compared with the last ones known, however far back. |
| `EquityFilter.OutputRule` | main_swarm.py:508-532 | In plain terms, for any point after the first: when its value is kept and when the previous output is repeated, by nearness, by the holdings known last and by the next point. |
| `EquityFilter.FirstIsKept` | main_swarm.py:508-532 | The first value is kept. |
| `EquityFilter.FlowsLeaveNoTrace` | main_swarm.py:495-506 | Deposits and withdrawals leave the account curve alone. |
| `EquityFilter.AccountValues` | main_swarm.py:490-507 | Without flows the account curve has exactly the account's values at the readable times. |
| `EquityFilter.LedgerValues` | main_swarm.py:475-489 | The ledger curve has exactly its positive values at the readable times. |
| `Drawdown.RunningDrawdown` | main_swarm.py:764-773 | The running-peak pass computes the drawdown. |
| `Drawdown.PeakIsMaximum` | backtest/engine.py:153-157 | The running peak is the maximum so far. |
| `Drawdown.DrawdownIsBound` | backtest/engine.py:151-158 | On a curve without negative values no loss from an earlier point to a later one is deeper than the drawdown. |
| `Drawdown.DrawdownIsDeepestIff` | main_swarm.py:764-773 | On any curve the figure is the deepest loss between two points if and only if no negative value is a deeper loss from the lowest positive value before it. |
| `Drawdown.NegativeHidesLoss` | main_swarm.py:764-773 | On 1, 10, −5 the figure is −1.5, the loss from the first point to the last −6. |
| `Drawdown.DrawdownIsAttained` | backtest/engine.py:151-158 | A drawdown that is not zero is the loss between two of the curve's points. |
| `Backtest.RunBacktest` | backtest/engine.py:66-148 | The nested loops compute the specified simulation and report. |
| `Backtest.ExitPass` | backtest/engine.py:93-109 | The exit loop over the holdings of one day. |
| `Backtest.EntryPass` | backtest/engine.py:118-144 | The entry loop over the codes of one day. |
| `Backtest.Metrics` | backtest/engine.py:151-171 | The report of a run, without its volatility ratio and before rounding. |
| `Backtest.SignalUpTo` | backtest/engine.py:55-62 | The breakout signal of a day does not depend on later rows. |
| `Backtest.AllDatesUpTo` | backtest/engine.py:87-90 | The calendar of truncated prices is the truncated calendar. |
| `Backtest.DaysAgree` | backtest/engine.py:92-144 | On any days up to d the simulation on prices up to d is the simulation on all prices. |
| `Backtest.NoLookAhead` | backtest/engine.py:55-144 | A run on what was known up to day d has the full run's cash and holdings at the end of d, and its curve is a prefix of the full curve. |
| `Backtest.ExitsConserve` | backtest/engine.py:93-109 | Exits turn holdings into cash with nothing lost: cash plus cost moves by the realized gain, and trades, wins and exits stay in step. |
| `Backtest.EntriesConserve` | backtest/engine.py:122-144 | Entries only change cash into holdings, within the day's budget, and never overdraw. |
| `Backtest.BooksBalance` | backtest/engine.py:92-144 | On every day of every run cash is not negative, cash plus holdings at cost is the start plus realized gains, and trades are two per exit plus one per open position. |
| `Backtest.DailyBudget` | backtest/engine.py:118-144 | A day's purchases stay within the cycle ratio of the cash after that day's exits. |
| `Backtest.CurveNonNegative` | backtest/engine.py:110-114 | The equity curve is never negative. |
| `Backtest.ReportedDrawdown` | backtest/engine.py:151-171 | The reported drawdown is the deepest loss between two days of the run. |
| `Backtest.CurveOmitsUnpriced` | backtest/engine.py:110-114 | The curve falls short of the value at cost by exactly the holdings without a price, and is right exactly if there are none. |
| `Backtest.UnpricedHoldingLooksLost` | backtest/engine.py:92-158 | A run of three days whose only holding has no price on the last: the curve ends at nothing and the report shows a total loss. |
| `BacktestRules.ExitsInPrices` | backtest/engine.py:93-109 | In prices: a day's exits keep, in order, exactly the holdings without a price or with one strictly between their two limits, and turn each other one into its value at the day's price and a trade, won if above its cost. |
| `BacktestRules.CurveIsWorth` | backtest/engine.py:93-114 | The day's value on the curve is the cash and the priced holdings of the evening before at the day's prices. |
| `BacktestRules.GoneIffOutside` | backtest/engine.py:101-107 | A holding of the day before is gone exactly if its price that day is at or outside a limit. |
| `BacktestRules.EndOfDayIsInside` | backtest/engine.py:92-144 | At the end of any day of any run with positive limits no holding with a price that day is at or past a limit. |
| `BacktestRules.NoSignal` | backtest/engine.py:55-62 | No signal in a short history, at or below every close of the window, or when the close before was already above its whole window. |
| `BacktestRules.SureSignal` | backtest/engine.py:55-62 | A signal above every close of the window if the close before was at or below every close of its own. |
| `BacktestRules.EntryRule` | backtest/engine.py:122-144 | When a series is bought, in prices, and then with the whole order budget; otherwise nothing changes. |
| `BacktestRules.NoPriceNoEntry` | backtest/engine.py:123-126 | A series without a price that day is not bought. |
| `BacktestRules.BrakeStopsEntries` | backtest/engine.py:116-120 | Nothing is bought on a day on which the account is worth no more than the brake leaves of the capital, and everything the entries buy on any other. |
| `BacktestRules.ReportFigures` | backtest/engine.py:151-171 | The return gives the final value back; the win rate, counting purchases and sales alike, never exceeds one half and reaches it only if everything was sold and won. |
| `RiskGate.CheckSingleOrder` | agents/guardrails.py:91-188 | The issues listed are exactly the rules the order breaks; it is approved if there are none, and only then counted. |
| `RiskGate.ValidateOrders` | agents/guardrails.py:191-237 | Every order of a batch is judged after what was approved before it. |
| `RiskGate.ApprovedPurchaseIff` | agents/guardrails.py:111-179 | When a purchase is approved, all conditions together: what it must name, the state of the account, and the limits on its value and number for stocks and for sleeves. |
| `RiskGate.ApprovedSaleIff` | agents/guardrails.py:111-179 | A sale is approved exactly if it names a ticker, a number of shares and a reason. |
| `RiskGate.ApprovedIsPositive` | agents/guardrails.py:116-155 | An approved purchase is worth something. |
| `RiskGate.SpentWithinBudget` | agents/guardrails.py:167-179 | For any list of orders the approved stock purchases total at most the cycle budget, if there is cash. |
| `RiskGate.BoughtWithin` | agents/guardrails.py:138-179 | All approved purchases of a batch together, k of them for sleeves, total at most cash·(cycle ratio + k/buffer), if there is cash. |
| `RiskGate.SleevesOutspendCash` | agents/guardrails.py:138-179 | Two sleeve purchases of ninety are both approved out of a hundred in cash. |
| `RiskGate.UnlimitedWithoutCash` | agents/guardrails.py:165-171 | Without cash an order approved once is approved any number of times. |
| `RiskGate.BudgetHoldsIffCash` | agents/guardrails.py:167-179 | Once some stock purchase is approvable, the budget bounds every batch if and only if there is cash. |
| `RiskGate.NoCashNoBudget` | agents/guardrails.py:165-179 | An account without cash: two orders are approved, two hundred spent out of a budget of nothing. |
| `BuySizing.SizeBuys` | main_swarm.py:2205-2326 | The purchase loop computes the specified plan. |
| `BuySizing.TargetOutcome` | main_swarm.py:2252-2326 | A target that is not passed over gets as many shares as fit all limits if one does (one more would not fit), else one share exactly if the cash covers it with the buffer, else nothing. |
| `BuySizing.UpperKeepsMarket` | main_swarm.py:2290-2294 | Upper-casing a code never moves it to the other market. |
| `PurchaseRules.NothingForbiddenIsBought` | main_swarm.py:2252-2326 | No purchase is for a Korean code that is held, for a US ticker where they are not allowed, or for a target beyond the first eight. |
| `PurchaseRules.TargetIsBoughtIff` | main_swarm.py:2252-2326 | When its turn comes a target adds one order exactly if it may be bought and one share fits the limits left or, with the buffer, the cash; otherwise it adds nothing. |
| `PurchaseRules.TargetIsInPlan` | main_swarm.py:2252-2326 | So every such target is in the plan, whatever follows it. |
| `PurchaseRules.HeldNameIsPassedOver` | main_swarm.py:2261-2262 | A held name with cash and budget for ten more shares is not bought. |
| `PurchaseRules.OpeningBudget` | main_swarm.py:2202-2210 | At the opening the order budget is between that of other times and five times it, and never more than the cash or the account; when each limit binds. |
| `PurchaseRules.NamesShareCycle` | main_swarm.py:2216-2240 | With weights that add up to the number of names to be bought, the budgets of all names stay within the cycle budget together. |
| `PurchaseRules.MissingWeightsCountOne` | main_swarm.py:2268-2269 | Names without weights count one each. |
| `PurchaseRules.BudgetsFollowWeights` | main_swarm.py:2264-2270 | Where the order budget does not bind, the budgets of names are in proportion to their weights, a weight of one being the equal share. |
| `PurchaseRules.UpperIs` | main_swarm.py:2290-2291 | Upper-casing turns each lower-case letter into its capital, touches nothing else and has nothing left to do. |
| `BuySizing.AffordableIsLargest` | main_swarm.py:1651-1662 | A quantity is at most the affordable one exactly if its cost is within every limit. |
| `BuySizing.BudgetQtyIsLargest` | main_swarm.py:2268-2309 | A quantity is at most the sized one if and only if its value in won fits the name's budget, the stock cap and what the cycle has left, and it keeps to the per-order maximum. |
| `BuySizing.GateCountsNoMore` | main_swarm.py:2283-2321 | Whatever is dropped or cut on the way, the gate has never counted more than sizing had set aside. |
| `BuySizing.RegularOrderPassesGate` | agents/guardrails.py:111-179 | An order from the budget path, cut or not and after any batch, is approved if and only if the account-wide conditions hold. |
| `BuySizing.PlanPassesGate` | agents/guardrails.py:228-237 | No order made from a plan of budget-path stock purchases is refused under those conditions. |
| `BuySizing.ClampToMaxQty` | main_swarm.py:2453-2477 | Clamps every purchase above the ceiling in place and touches nothing else. |
| `PurchaseRules.ClampChangesQtyOnly` | main_swarm.py:2453-2477 | The ceiling lowers the number of shares and adds a note to the reason, and changes nothing else. |
| `BuySizing.DraftFollowsPlan` | main_swarm.py:2446-2450 | The drafted, clamped batch is one the plan permits. |
| `BuySizing.SizedBatchIsApproved` | main_swarm.py:2169-2451 | From targets to approvals: the sized and clamped batch goes through the gate without a refused purchase. |
| `BuySizing.BufferedIsExact` | main_swarm.py:1655-1658 | Budget-path purchases respect the gate's cash buffer for all accounts and prices if and only if the buffer is at most one or at most the inverse of the cycle ratio. |
| `BuySizing.ZeroCycleRatioIsRefused` | main_swarm.py:2185-2216 | A cycle ratio of zero: sizing proposes four shares, the gate refuses them for the budget. |
| `BuySizing.ZeroStockCapIsRefused` | main_swarm.py:1651-1662 | A stock ratio of zero: sizing proposes ten shares, the gate refuses them for concentration. |
| `BuySizing.OneShareIsApprovedIff` | main_swarm.py:1361-1385 | A one-share purchase is approved if and only if it fits the stock cap and what the cycle has left, and the cash covers it with the account's own buffer. |
| `BuySizing.OneShareBufferIsExact` | main_swarm.py:1376-1385 | Such purchases are never short of cash at the gate, for all accounts and prices, if and only if the account asks for no more than the common buffer (or for none). |
| `BuySizing.OwnBufferMayRefuse` | main_swarm.py:1376-1385 | An account with a buffer of 1.5 where the exception reckons with 1.1: its one share is refused for cash alone. |
| `BuySizing.OneShareMayBeRefused` | main_swarm.py:1361-1385 | With limits like the defaults the exception proposes an order that the gate refuses for concentration. |
| `Sleeves.CurrentSleeveWeight` | infra/asset_sleeves.py:133-150 | The sleeve's share of the account, zero if the account cannot be valued. |
| `Sleeves.DeadZone` | infra/asset_sleeves.py:153-166 | A cycle buys exactly below the band around the capped target, sells exactly above it, and otherwise holds. |
| `Sleeves.NothingToTrade` | infra/asset_sleeves.py:133-166 | Nothing is to be traded without a recommendation or inside the band, and an account that cannot be valued has no sleeve weight. |
| `Sleeves.CapIsLargest` | infra/asset_sleeves.py:169-182 | What a purchase may cost is the most that is needed, that one cycle may use and, where there is cash, that the cash covers with its buffer. |
| `Sleeves.AssembleSleeveOrders` | infra/asset_sleeves.py:205-258 | The loops build the specified orders for each action. |
| `Sleeves.CostWithinNotional` | infra/asset_sleeves.py:218-234 | Whatever the directives and prices, the purchases together cost at most the notional. |
| `Sleeves.SellsWithinHeld` | infra/asset_sleeves.py:235-257 | Every sale is at least one share and at most what is held. |
| `Sleeves.PurchasesAreLargest` | infra/asset_sleeves.py:218-234 | Every purchase is for a code to be bought, of as many shares as its equal part pays for and not one more. |
| `Sleeves.PicksAreBought` | infra/asset_sleeves.py:218-234 | Every code to be bought with a price of which its part pays for a share is bought. |
| `Sleeves.PicksAre` | infra/asset_sleeves.py:218-221 | These are the codes whose directive says so. |
| `Sleeves.SoldOf` | infra/asset_sleeves.py:242-252 | How much each directive sells: all, half with the odd share kept, the number asked for or all, or nothing. |
| `Sleeves.SalesAre` | infra/asset_sleeves.py:235-257 | A sale is made exactly for a directive on something held, with a price, that sells at least one share, and of that many. |
| `Sleeves.HeldIs` | infra/asset_sleeves.py:236-241 | What is held of a code is the whole shares of its last entry. |
| `Sleeves.NothingHeld` | infra/asset_sleeves.py:236-241 | Without an entry it is nothing. |
| `Sleeves.RateScalesForeign` | infra/asset_sleeves.py:133-150 | The exchange rate scales the foreign part of a sleeve and no other; a missing one counts as one. |
| `Sleeves.UnpricedIsNotTraded` | infra/asset_sleeves.py:218-257 | A code without a price is neither bought nor sold. |
| `Sleeves.ExecuteValue` | infra/asset_sleeves.py:133-150 | Executing purchases raises the sleeve's value by exactly their cost. |
| `Sleeves.CycleStep` | infra/asset_sleeves.py:153-234 | One cycle, filled in part or in full: the weight rises by exactly the share bought and a purchase never takes it past the target. |
| `Sleeves.TargetIsNeverPassed` | infra/asset_sleeves.py:153-234 | Over any number of buying cycles from at or below the target the weight never falls, never passes the target, and no cycle calls for selling. |
| `Sleeves.NothingBoughtAboveTarget` | infra/asset_sleeves.py:153-234 | From the target or above, no cycle buys anything. |
| `Sleeves.CycleBuys` | infra/asset_sleeves.py:153-234 | Below the band a cycle buys of every domestic code to be bought of which its part of the allotment pays for a share. |
| `Sleeves.AllottedWithinLimits` | infra/asset_sleeves.py:169-182 | What is allotted leaves the sleeve within its ceiling and, buffer included, within the cash. |
| `Sleeves.GateApprovesSleeveBuys` | agents/guardrails.py:118-179 | The gate approves a sleeve purchase exactly if the balance is readable and above the drawdown brake. |
| `Sleeves.ExecListKeepsAllButStock` | infra/asset_sleeves.py:261-278 | No sale or sleeve purchase is lost, repeated or reordered among its kind; of the stock purchases exactly the first ones up to the cap remain. |
| `Sleeves.StockPurchasesAreCapped` | infra/asset_sleeves.py:261-278 | Of the stock purchases as many are carried out, from the first, as the maximum says; two without one, none if it is negative. |
| `SizingWeights.ComputeSizingWeights` | tools/position_sizing.py:12-45 | The table-filling loops compute the specified weights. |
| `SizingWeights.WeightsSumToCount` | tools/position_sizing.py:44-45 | The weights over the list of names sum to its length. |
| `SizingWeights.BudgetsSumToCycle` | main_swarm.py:2216-2235 | The budgets of distinct names add up to the cycle budget, in every mode and at every setting. |
| `SizingWeights.WeightWithin` | tools/position_sizing.py:36-45 | With n names, highest tilt T and lowest tilt L (the clamp or what the strength leaves, whichever is more) every weight is positive, at most nT/(T + (n − 1)L) and at least nL/(L + (n − 1)T). |
| `SizingWeights.CapsMultipleIff` | config.py:531-533 | At strength s no name of any list of n can exceed T times an equal share if and only if (n − 1)·min(s, 1 − 1/T) is at most T − 1. |
| `SizingWeights.KeepsFractionIff` | config.py:531-533 | At strength s every name of any list of n is sure of an equal share divided by T if and only if it is alone, T is one, or s is at most 1 − 1/T. |
| `SizingWeights.AtTheDefaults` | config.py:281-282 | At the shipped strength and bound no list gives a name less than half of an equal share; that none gives more than twice of it holds exactly for lists of up to three names. |
| `SizingWeights.CalmNameExceeds` | tools/position_sizing.py:36-45 | At every strength for which the cap is not safe, a list of that length in which one calm name exceeds the bound. |
| `SizingWeights.NervousNameFallsShort` | tools/position_sizing.py:36-45 | At every strength above 1 − 1/T, for every length from two on, a list in which one nervous name falls short of the fraction. |
| `SizingWeights.BetterNameGetsNoLess` | tools/position_sizing.py:22-45 | A name with no worse score and no higher volatility gets no smaller weight, missing data counting as neutral. |
| `SizingWeights.PreferredIff` | tools/position_sizing.py:22-35 | A name is preferred to another exactly if its score (at least one) over its volatility is higher, missing data counting as neutral. |
| `SizingWeights.PreferredGetsMoreIff` | tools/position_sizing.py:22-45 | At any positive strength the preferred name gets strictly more, exactly unless the bound is one or the clamp has cut both alike. |
| `SizingWeights.HigherScoreOrCalmer` | tools/position_sizing.py:22-35 | Of two equally volatile names the one with the higher score, of two with the same score the calmer one. |
| `SizingWeights.WeightsInProportion` | tools/position_sizing.py:22-45 | At full strength and unclamped, weights are in proportion to scores and inversely to volatilities. |
| `SizingWeights.WeightIsBlend` | tools/position_sizing.py:36-45 | Where the clamp cuts no tilt, a weight is the blend of an equal share and the name's preference. |
| `SizingWeights.EightAgainstTwo` | tools/position_sizing.py:22-45 | At the shipped settings scores of eight and two make weights of 1.3 and 0.7. |
| `SizingWeights.EqualWithoutStrength` | tools/position_sizing.py:17-20 | Without strength, or in any other mode, all weights are one. |
| `SizingWeights.SettingsAreClamped` | tools/position_sizing.py:19-20 | A strength above one acts as one; a bound of one or less makes all weights equal. |
| `Scorecard.Rank` | tools/agent_scorecard.py:11-24 | Ranking by sorting and walking runs of ties gives every value the counting rank: the number smaller plus half of (the number equal plus one). |
| `Scorecard.RunRank` | tools/agent_scorecard.py:15-23 | The average assigned to a run of ties is the counting rank of each of its members. |
| `Scorecard.RankSumTotal` | tools/agent_scorecard.py:11-24 | Ties or not, the ranks add up to n(n + 1)/2. |
| `Scorecard.CauchySchwarz` | tools/agent_scorecard.py:27-36 | The inequality behind the correlation bound, for sequences of any equal length. |
| `Scorecard.PearsonBounded` | tools/agent_scorecard.py:27-36 | Every coefficient reported has positive variances and a square of at most one. |
| `Scorecard.InformationCoefficient` | tools/agent_scorecard.py:39-45 | Computes the rank correlation of signals with returns. |
| `Scorecard.SameOrderSameRanks` | tools/agent_scorecard.py:11-24 | Sequences ordered alike have the same ranks. |
| `Scorecard.CoefficientIsOrdinal` | tools/agent_scorecard.py:39-45 | Any strictly order-preserving change of signals or returns leaves the coefficient unchanged. |
| `Scorecard.RanksAscend` | tools/agent_scorecard.py:11-24 | A larger value has a higher rank. |
| `Scorecard.CoefficientUndefinedIff` | tools/agent_scorecard.py:27-45 | No coefficient is reported exactly if there are fewer than three pairs, or all signals or all returns are the same. |
| `Scorecard.LinearCorrelation` | tools/agent_scorecard.py:27-36 | Of sequences in a straight line the covariance has the sign of the slope and the largest possible square. |
| `Scorecard.SameOrderIsOne` | tools/agent_scorecard.py:39-45 | Signals in the order of the returns have a coefficient of one. |
| `Scorecard.OppositeOrderIsMinusOne` | tools/agent_scorecard.py:39-45 | In the opposite order of minus one. |
| `Scorecard.ExcessError` | tools/agent_scorecard.py:62-73 | By how much any line's squared error exceeds the fitted line's. |
| `Scorecard.AlphaBetaOptimal` | tools/agent_scorecard.py:62-73 | The fitted line is the one and only least-squares optimum. |
| `Scorecard.AlphaBetaUndefined` | tools/agent_scorecard.py:62-73 | No line is reported exactly if fewer than three points are shared or the benchmark never moves. |
| `BalanceSnapshot.BalanceReader.KrAccountSnapshot` | infra/kis_broker.py:631-750 | One call: answered from a recent snapshot, or read afresh with the specified corrections and cache updates. |
| `BalanceSnapshot.BalanceReader.Restart` | infra/kis_broker.py:1099-1164 | A restart forgets memory and keeps the files. |
| `BalanceSnapshot.BalanceReader.DropSnapshot` | main_swarm.py:2769-2771 | Dropping the snapshot forgets it and nothing else. |
| `BalanceSnapshot.ReadKeepsCash` | infra/kis_broker.py:648-727 | One read keeps cache, file and snapshot at the most recent positive D+2 unless the old cash wins. |
| `BalanceSnapshot.CashIsLatestIff` | infra/kis_broker.py:631-750 | Over any run of reads, restarts and drops of the snapshot, every read reports the most recent positive D+2 if and only if at no read the old cash wins over one that came with an error. |
| `BalanceSnapshot.CleanFailuresSuffice` | infra/kis_broker.py:631-750 | In particular always, if failed reads bring no D+2. |
| `BalanceSnapshot.OldCashCanWin` | infra/kis_broker.py:698-713 | Two reads after which the old cash is reported. |
| `BalanceSnapshot.CashSurvivesZeros` | infra/kis_broker.py:716-729 | Cash once reported survives good answers without any, until there is other cash. |
| `BalanceSnapshot.CallIsFresh` | infra/kis_broker.py:631-643 | A call leaves a snapshot of its own read or, unless it insists, one less than eight seconds old, within which it changes nothing. |
| `BalanceSnapshot.HoldingsAreLastBelievedIff` | infra/kis_broker.py:675-735 | Over any run of reads, restarts and drops, every read shows the holdings of the last read that could be believed (once there has been one) if and only if no read that cannot be believed falls back, for want of a snapshot, on a file or on rows that say something else. |
| `BalanceSnapshot.WrongFallbackHasCause` | infra/kis_broker.py:675-735 | Such a fallback has one of three causes: an earlier failed read left its rows on file, this one failed and brought rows, or the last believed read is older than the file may be. |
| `BalanceSnapshot.EmptyFailuresSuffice` | infra/kis_broker.py:675-735 | In particular it never happens if failed reads bring no rows and come within the lifetime of the file. |
| `BalanceSnapshot.PartialReadLosesPosition` | main_swarm.py:2763-2779 | Two positions read, a read that fails after the first of them, the snapshot dropped, a failed read without rows: one position is shown. |
| `BalanceSnapshot.HeldIsPositive` | infra/kis_broker.py:661-673 | What is held is every row with shares. |
| `BalanceSnapshot.RatioIsOfOwnTotal` | infra/kis_broker.py:658-676 | The profit ratio is the read's profit over its own domestic total. |
| `BalanceSnapshot.OverseasOnTop` | infra/kis_broker.py:736-748 | Every fresh snapshot's total is its domestic total plus the overseas value. |
| `BalanceSnapshot.OwnTotal` | infra/kis_broker.py:644-727 | A read with cash and a believed list reports its own securities and settled cash. |
| `BalanceSnapshot.FirstTotal` | infra/kis_broker.py:644-748 | A good first read of 500 in securities, 1000 in cash and 300 overseas reports 1800. |
| `BalanceSnapshot.TotalsAreRightIff` | infra/kis_broker.py:631-750 | Over any run of reads, restarts and drops every fresh read reports the domestic total to believe plus its overseas value, never lost and counted once, if and only if none carries over a total from a snapshot that had an overseas value only. |
| `BalanceSnapshot.OverseasIsDoubled` | infra/kis_broker.py:680-748 | An account with nothing but 300 overseas: the second read reports 600. |
| `Settlement.AddBusinessDays` | infra/trade_ledger.py:268-275 | Reaches a business day with exactly n business days passed. |
| `Settlement.AddedDayIsUnique` | infra/trade_ledger.py:268-275 | That description determines the day. |
| `Settlement.WeekHasFive` | infra/trade_ledger.py:268-275 | Any seven days have five business days; a Friday's trade settles on the Tuesday after, a Monday's on the Wednesday. |
| `Settlement.SettlementAhead` | infra/trade_ledger.py:308-309 | The settlement day lies ahead exactly while fewer than two business days have passed since the trade. |
| `Settlement.WindowSuffices` | infra/trade_ledger.py:287-309 | No unsettled trade is older than three days, so the eight-day query misses none. |
| `Settlement.PendingUsdFromFills` | infra/trade_ledger.py:278-310 | The two loops compute the unsettled net sales. |
| `Settlement.OneFill` | infra/trade_ledger.py:284-310 | A single fill is pending with its amount exactly if it is a sale in dollars, on a date of which fewer than two business days have passed. |
| `Settlement.OneMoreFill` | infra/trade_ledger.py:293-310 | One more fill changes the sum by what it changes in its own date's part, whatever else was filled. |
| `Settlement.SettledFillsDoNotMatter` | infra/trade_ledger.py:293-310 | Fills of settled dates, of unreadable dates and in other currencies do not matter. |
| `TickPrice.RoundedIsOnGrid` | infra/kis_broker.py:91-109 | A rounded price can be quoted, even when it crosses into the next band. |
| `TickPrice.RoundedIsNearest` | infra/kis_broker.py:103-109 | No price that can be quoted, in whatever band, is nearer. |
| `TickPrice.GridIsFixed` | infra/kis_broker.py:103-109 | A price that can be quoted is left alone. |
| `TickPrice.RoundToTickGrows` | infra/kis_broker.py:103-109 | Rounding keeps the order of prices across all bands. |
| `TickPrice.ZeroIff` | infra/kis_broker.py:103-109 | A price rounds to zero, read as no price, exactly if it is at most half a won. |
| `TickPrice.LimitIsMarketable` | infra/kis_broker.py:112-119 | With a band of at least zero a limit is never less aggressive than a quotable last price; without a last price it is zero. |
| `TickPrice.LimitIsNearest` | infra/kis_broker.py:112-119 | A limit is the quotable price nearest to the last one moved by the slippage, up for a purchase and down for a sale. |
| `TickPrice.HalvesGoToEven` | infra/kis_broker.py:103-109 | Halves are rounded to the even integer. |
| `RateLimiter.SlidingWindowLimiter.Hit` | infra/rate_limit.py:20-33 | One hit: the key's bucket afterwards and the wait returned. |
| `RateLimiter.SlidingWindowLimiter.Reset` | infra/rate_limit.py:35-37 | A reset forgets one key. |
| `RateLimiter.LimiterInvariant` | infra/rate_limit.py:20-37 | Over any run each bucket is the tail of the log of hits admitted since the key's last reset, and what it forgot has left the window. |
| `RateLimiter.WindowBound` | infra/rate_limit.py:20-37 | No half-open window of any run holds more of the hits of a key ever admitted than the maximum, if the key is not reset in it, and otherwise than the maximum times one more than its resets there. |
| `RateLimiter.ResetReopensWindow` | infra/rate_limit.py:35-37 | A run that meets the bound: a maximum of one, two hits within a second and a reset between them. |
| `RateLimiter.RetryIsExact` | infra/rate_limit.py:20-33 | After a refusal the key's next hit succeeds exactly from the moment the oldest kept one expires, which is the wait returned. |
| `RateLimiter.KeysAreIndependent` | infra/rate_limit.py:20-37 | Events of one key do not touch another. |
| `RateLimiter.ZeroLimitBlocks` | infra/rate_limit.py:20-33 | With a limit of zero nothing is ever admitted. |
| `FillPolling.Trader.PollFillsUntilConfirmed` | main_swarm.py:2750-2864 | The loop ends within its attempts, early only if nothing remains, and counter and log grow by exactly the confirmed orders. |
| `FillPolling.NoOrderLostOrDoubled` | main_swarm.py:2763-2857 | At every moment confirmed, dropped and remaining orders are exactly the pending ones, each as often. |
| `FillPolling.OrdersAreIndependent` | main_swarm.py:2763-2857 | The batch settles every order as if it were watched alone. |
| `FillPolling.WaitingMeansUndecided` | main_swarm.py:2786-2856 | An order still waits exactly if no poll so far was decisive for it. |
| `FillPolling.FirstDecisivePollSettles` | main_swarm.py:2786-2856 | The first decisive poll confirms an order if the holding that the poll shows moved its way, and drops it if only the market was closed. |
| `FillPolling.OwnCloseDecides` | main_swarm.py:2853-2856 | An order is dropped only at a readable poll after the close of its own market, and waits beyond none. |
| `FillPolling.ConfirmedAtIff` | main_swarm.py:2769-2790 | What is shown against what is held: a poll confirms an order if and only if its true holding moved its way and was read, or it is the sale of a position that the read lost, or the purchase of one that the baseline had lost, or an earlier list that is carried over says so. |
| `FillPolling.MisleadsIff` | main_swarm.py:2769-2790 | A poll gives an order another fate than complete reads would if and only if it confirms it wrongly or, being readable, misses its true move. |
| `FillPolling.SaleMisledIff` | infra/kis_broker.py:801-836 | A sale is confirmed wrongly if and only if the read lost a position of which nothing was sold, and missed if and only if the baseline had lost one of which something was. |
| `FillPolling.PurchaseMisledIff` | infra/kis_broker.py:801-836 | A purchase is confirmed wrongly if and only if the baseline had lost a position that did not grow and the read shows it, and missed if and only if the read lost one that did grow. |
| `FillPolling.CarriedMisledIff` | infra/kis_broker.py:675-713 | A carried list misleads if and only if it tells another move from the baseline than there was. |
| `FillPolling.RightIffNeverMisled` | main_swarm.py:2763-2856 | Over any run an order always has the fate complete reads would give it if and only if no poll misleads while it waits. |
| `FillPolling.FailedReadConfirmsSale` | main_swarm.py:2772-2790 | One failed overseas read confirms a sale of which no share was sold. |
| `FillPolling.QuantityIsIgnored` | main_swarm.py:2786-2790 | The quantity ordered plays no part in the decision. |
| `FillPolling.BookedAllOrNothing` | main_swarm.py:2781-2838 | At every moment the orders for one side of a ticker are booked together and in full, or not at all. |
| `FillPolling.BookedIsFilledIff` | main_swarm.py:2783-2838 | Whatever part of each order was filled, when the holding shown has moved by what was bought less what was sold: the quantity booked is the quantity filled if and only if every order of the side is full, where the balance moved that way, and nothing of it was filled, where it did not. |
| `FillPolling.BookedIsFilledOneSideIff` | main_swarm.py:2783-2838 | With nothing filled on the other side: if and only if all of it was filled or none. |
| `FillPolling.OneShareBooksTwenty` | main_swarm.py:2783-2838 | Two orders for ten shares each and one share bought: twenty are booked. |
| `FillPolling.RecoveredPriceIsFillPrice` | main_swarm.py:2793-2802 | The price recovered from average costs before and after is the fill price. |
| `Directives.DirectiveStore.AppendDirective` | infra/standing_directives.py:91-109 | Appends what is new and not blank, drops the oldest beyond the cap and withdraws the tombstone. |
| `Directives.StripTakesBlanks` | infra/standing_directives.py:91-95 | Stripping takes the blanks from both ends and nothing else. |
| `Directives.DirectiveStore.RemoveDirective` | infra/standing_directives.py:129-138 | Removes a listed directive and leaves its tombstone. |
| `Directives.DirectiveStore.ClearDirectives` | infra/standing_directives.py:112-126 | Empties a list and leaves a tombstone for everything on it. |
| `Directives.DirectiveStore.SeedAdminDirective` | infra/standing_directives.py:249-319 | A boot appends the seeded directive unless it is tombstoned. |
| `Directives.RunKeepsSound` | infra/standing_directives.py:91-228 | Over any interleaving every account's list has distinct identifiers, at most fifty entries and none that is tombstoned. |
| `Directives.AccountsAreIsolated` | infra/standing_directives.py:91-228 | An operation touches one account. |
| `Directives.DeletedStaysDeleted` | infra/standing_directives.py:302-319 | What was removed or cleared stays off through boots and profile resets until it is appended again. |
| `Directives.BootRestoresUnlessDeleted` | infra/standing_directives.py:302-319 | After a boot the seeded directive is listed exactly if it was not tombstoned. |
| `Directives.AppendRevives` | infra/standing_directives.py:91-109 | An accepted append lists the directive and withdraws its tombstone. |
| `UndoLog.Workspace.ApplyChanges` | infra/ops_guards.py:93-237 | Applies a plan and rolls it back exactly if the result does not compile. |
| `UndoLog.ChangeIsAcceptedIff` | infra/ops_guards.py:106-192 | A change is accepted exactly if it passes every guard and makes something of what it finds, a modification only where its text occurs once; and then that is written. |
| `UndoLog.ModificationIsSmall` | infra/ops_guards.py:140-147 | A modification adds at most four hundred lines to its file. |
| `UndoLog.CompilingIsKept` | infra/ops_guards.py:194-209 | If every edited Python file compiles, each edited file keeps the text of its last edit. |
| `UndoLog.ReplaceIsLocal` | infra/ops_guards.py:153-164 | A replacement swaps one occurrence and leaves the text around it alone. |
| `UndoLog.CountIsZeroIff` | infra/ops_guards.py:153-160 | A text counts no occurrence exactly if it occurs nowhere. |
| `UndoLog.CountsFirst` | infra/ops_guards.py:153-160 | Otherwise it counts one more than behind its first occurrence. |
| `UndoLog.BackupHolds` | infra/ops_guards.py:70-75 | A backup holds what the last edit that wrote it had found. |
| `UndoLog.UndoResult` | infra/ops_guards.py:210-223 | Undone in reverse, a file ends as its first edit's undo leaves it. |
| `UndoLog.RollbackIsExact` | infra/ops_guards.py:93-234 | A failed compile leaves every file as it was if and only if no first backup was overwritten within its second by changed text. |
| `UndoLog.FreshNamesSurvive` | infra/ops_guards.py:70-75 | Distinct backup names are enough for that. |
| `UndoLog.OnlyWhitelistedFilesChange` | infra/ops_guards.py:110-118 | Kept or rolled back, only whitelisted files that are not forbidden can differ. |
| `UndoLog.SameSecondLosesOriginal` | infra/ops_guards.py:70-75 | Two edits of one file in one second after which the original is lost. |

## Left out

- FillPolling.ConfirmedAtIff: takes the recorded baseline as a part of what was held when the orders were placed, not as a list carried over from an earlier snapshot.
- FillPolling.BookedIsFilledIff: takes the holding to move by these orders alone; what other cycles or the user trade in the same ticker meanwhile is not distinguished.
- TwoEngines.EnginesAgree: compares the matched profit; the profit displayed where a sale was logged with its average cost is the subject of `ShownProfit`.
- ShownProfit.ShownIsEarned: takes the average cost logged with a sale to be the ledger's; a broker's average that differs is not modelled.
- Backtest.Metrics: leaves out the ratio of mean to volatility, which needs a square root, and the rounding of the figures.
- Scorecard.PearsonBounded: keeps covariance and variances instead of their quotient by a square root, because the reals here have none; the bound is stated on the square.
- Backtest.BooksBalance: asks that one of three ratios keeps an order within the cash (`Backtest.Solvent`), which the parameters' documented ranges imply.
- Settlement.PendingUsdFromFills: takes for every date text its day number, because parsing and the calendar are library code.
- UndoLog.Workspace.ApplyChanges: takes compilation, the file lists and the guard patterns as parameters, and the clock reading of every change as an input.
- Directives.DirectiveStore.AppendDirective: takes the identifier of a text as a function, because it is a hash; only the ASCII blanks are stripped.
- SizingWeights.ComputeSizingWeights: names are taken trimmed and not blank.
- Floating point: amounts are exact reals; rounding for display, `pnl_pct`, the Sharpe-like ratio and all report texts are left out.
- Agents, prompts, regular-expression parsing of their replies, personas and chat messages: text, not decidable behaviour.
- Network, token refresh, files, databases, locks and notifications: prices, holdings, acceptance flags and clocks are inputs, and writes succeed.
- Concurrency: calls are sequential; a stop event ends the sequence of polls.
- The switch that keeps test runs from writing the ledger, the dollar cash of a seed, and the fills that are mirrored into other stores.
- The fallback purchases of the cheapest candidate (off by default), the broker's own quantity clamp beyond "cut, never to zero, or dropped", and automatic selling rules.
- Filtering of targets by score, session clock tables, configuration metadata, slippage statistics, and the simple stores (feedback, metrics, alerts, policy inbox): only easy members.
- Market data, quantitative scores and volatilities: parameters.
- Authentication and encryption.
