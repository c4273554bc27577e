# A verified model of the paper-trading lab

The lab scores rule-based strategies on stored candles and trades the good ones on paper.
This project models the parts of it whose correctness is decided by code rather than by data,
and proves what they keep:

* the **`signal_exit` engine**, its backtest ledger and the live account that must follow it;
* the **signal series**: swing structure, moving averages, the expression compiler and the
  byte-budget cache underneath, each against its definition;
* the **in-flight loop** of the discovery worker: slots, queue, deadlines, claims;
* the **candle store's** paging, gap filling and connection pool;
* the **pyramiding 5m backtest** with its risk manager;
* the **fund cycle**: blend, net, clamp, order, fill;
* the **time partitions**: daily resample, walk-forward segments, scored blocks;
* the **streaming decode** of an agent's answer.

## How it is written

Money and prices are `real`, timestamps and indexes are `int`, a missing or not-a-number value is
`None`. All equalities are therefore over the reals: floating-point rounding is not modelled.

Code that works step by step is imperative here too: classes with the program's fields, methods with
the program's loops. Each such method is proved to compute a function on values (`Run` computes
`Score`, `RunLibraryAccount` computes `LiveRun`, `Backtest` computes `Final`, `PageSpan` computes
`PageForward`, and so on), and the results below are lemmas about those functions, over every input or
every run. `Reals`, `Ordering` and `Wrappers` hold what several modules share.

Strategies enter as what they produce: a boolean per day (`signal`) and whether its lookback is warm
(`ready`). The exchange, the clock, the worker pool and the claim server are parameters: a function from
the number of the call to its answer, about which a lemma assumes only what its `requires` says.

| file | module | models |
|---|---|---|
| SignalExit, SignalExitLedger, SignalExitCosts, SignalExitCauses | the same names | `hedge_fund/library/engine.py` |
| PaperBook | `PaperBook` | `hedge_fund/brokers/paper.py` |
| LiveAccount, LiveInvariants, LiveRefinement, LiveReplay, LiveMissedDays, LiveRuns | the same names | `hedge_fund/library/live.py` |
| Structure | `Structure` | `hedge_fund/signals/structure.py` |
| Kernels, SignalExpr | the same names | `hedge_fund/signals/precompute.py`, `dynamic.py`, `htf.py` |
| SeriesCache | `SeriesCache` | `hedge_fund/signals/series_cache.py` |
| Inflight, InflightWorker, InflightSafety, InflightOrder, InflightPacing, InflightReturn | the same names | `scripts/discovery_worker.py` |
| CandleQuality, CandleSync, CandlePool | the same names | `hedge_fund/data/candle_*.py` |
| RiskRules, ManagedBacktest, BacktestLedger, BacktestExits, BacktestRules | the same names | `hedge_fund/risk/`, `hedge_fund/backtest/strategies.py` |
| FundWeights, FundBook, FundDesk | the same names | `hedge_fund/pipeline/`, `portfolio/`, `risk/limits.py`, `brokers/sim.py` |
| Daily, DailyCleaning | `DailyTape`, `DailyCleaning` | `hedge_fund/library/daily.py` |
| Tiling, Blocks | the same names | `scripts/tournament_engine.py`, `hedge_fund/library/evaluate.py` |
| ThesisStream | `ThesisStream` | `hedge_fund/llm/watch.py` |

## What the proofs turned up

* **More slippage can end with more cash.** A worse fill raises the stop level, and the raised stop can
  be the one that sells before a crash. Over all positive prices lower costs never hurt if and only if
  the stop is off, its fraction is one or more, or the slippage is the same (`CostsNeverHelpIff`). Over
  candles, whose low is never above the open, there is one more harmless case: a fraction so small that
  every entry is under its stop at once (`CostsNeverHelpOnCandlesIff`).
* **Live and backtest books agree, their sale reasons need not.** The two hold the same cash, quantity,
  stop and lockout after every open, but name a different reason for a sale exactly when the breached
  day also closed with the signal off (`SaleReasons`; `ReasonsDiffer` gives the tape).
* **A live run may not stand for the runs it missed.** An account that was on and comes back after missed
  days ends where a run on each of them would have left it if and only if no missed day has the signal on
  after one that has it off: then the daily runs would have sold and bought again, and the one run buys
  nothing (`OneRunIsDayByDayIff`).
* **`close_lot` sells the oldest lot of the ticker**, whichever lot it is handed; it closes that lot if
  and only if it is the oldest (`CloseLotHitsTheFirst`, `ClosingTheSecondClosesTheFirst`).
* **`&` with an empty operand.** The compiler drops it, the interpreter reads it as false. The two agree
  for an expression, wherever the interpreter answers, if and only if it has no empty operand of `&`
  beside operands that each name something (`PreservedIff`); `rsi_1_<100&` is flagged on every bar but
  the first by one and on none by the other.
* **An index of period zero** (`rsi_0_...`) flags nothing when compiled and divides by zero when
  interpreted (`EvalAtom`).
* **The parenthesis exemption in the top-level split is dead code** (`ExemptionIsDead`).
* **The open-risk cap holds after every entry, slippage included, if and only if the slippage is at most
  one percent** (`OpenRiskCapIff`). It is the stop band that keeps it: at the shipped policy the gate's own
  test of the cap never refuses an entry (`TheCapNeverRefuses`).
* **The pool's limit does not bound open connections.** A retired connection leaves the count before it
  is closed, and one whose preparation fails is never closed by the pool. Without both events the limit
  holds in every interleaving; with either, any number can be open (`LimitHoldsIff`). A pool closed and
  drained has shut none of the connections that leaked (`LeaksOutliveThePool`) and every other one
  (`ClosingLeavesOnlyTheUnprepared`).
* **An escaped character beyond the basic plane streams as two surrogates.** A closed string decodes to
  the characters meant if and only if no two of its units are a pair (`DecodesToItsCharsIff`).

## Model

| member | source | states |
|---|---|---|
| `SignalExit.BuyFill` | hedge_fund/library/engine.py:54-64 | an all-in buy's notional and fee together are exactly the cash spent |
| `SignalExit.SellFill` | hedge_fund/library/engine.py:67-72 | fee and proceeds make up the notional, and selling a positive quantity at a positive price brings positive proceeds |
| `SignalExit.MachineState.Step` | hedge_fund/library/engine.py:108-124 | the machine's fields after one day's signal are the value rule's, an off signal re-arming entries |
| `SignalExit.MachineState.StopOut` | hedge_fund/library/engine.py:127-130 | after a stop the machine is flat, locked out and has no stop pending |
| `SignalExit.EngineBook.CloseTrade` | hedge_fund/library/engine.py:227-243 | cash, fees, trades, quantity and stop after a sale are the ledger's `Close` |
| `SignalExit.EngineBook.EnterTrade` | hedge_fund/library/engine.py:254-261 | the whole book after an entry is the ledger's `Buy` |
| `SignalExit.TradeAtOpen` | hedge_fund/library/engine.py:245-261 | the open of a day: pending stop sale first, then the signal's action, on machine and book together |
| `SignalExit.MarkDay` | hedge_fund/library/engine.py:262-266 | a low at or below the stop leaves a sale pending for the next open, and a long day is counted |
| `SignalExit.SettleUp` | hedge_fund/library/engine.py:268-274 | a position left at the window's end is sold at the last close, and the last equity point becomes the cash |
| `SignalExit.Run` | hedge_fund/library/engine.py:189-278 | the whole run, clamped span included, returns what `Score` says: trades, curve, days and fees |
| `SignalExitLedger.RunLedger` | hedge_fund/library/engine.py:134-147 | ending equity less start cash is the summed trade result; the fees are the trades' fees; the days long are the trades' days |
| `SignalExitLedger.EquityIsRealisedPlusOpen` | hedge_fund/library/engine.py:262-266 | every point of the curve is start cash plus the realised result plus the open position at that close, less its cost |
| `SignalExitLedger.DaysAllInOrOut` | hedge_fund/library/engine.py:245-266 | with positive prices the book is flat with all its cash or long with exactly none |
| `SignalExitLedger.EquityPositive` | hedge_fund/library/engine.py:189-278 | with positive prices and cash, equity is positive at every point of every run |
| `SignalExitLedger.LockoutIsFlat` | hedge_fund/library/engine.py:108-130 | in every reachable state a lockout means a flat book |
| `SignalExitLedger.NoStopNoLockout` | hedge_fund/library/engine.py:75-78 | with the stop off no position is ever stopped or locked out |
| `SignalExitLedger.PositionFollowsSignal` | hedge_fund/library/engine.py:108-124 | the position at an open is the last close's signal, exactly with the stop off, and but for lockouts with it on |
| `SignalExitLedger.RunCompounds` | hedge_fund/library/engine.py:54-72 | ending cash is start cash times each trade's growth factor in its recorded fills, costs, stops and the window-end sale included |
| `SignalExitLedger.RunFillsAtOpens` | hedge_fund/library/engine.py:227-274 | every trade was bought at the open of the day it names and sold at the open of the day it names, the window-end sale at the last close, slippage on each |
| `SignalExitLedger.RunCompoundsQuotes` | hedge_fund/library/engine.py:54-72 | ending cash is start cash times, for each trade, the ratio of those two prices of the tape and one round trip's costs |
| `SignalExitLedger.RunTradesInOrder` | hedge_fund/library/engine.py:245-274 | trades never overlap, and between a stop exit and the next entry some close had the signal off |
| `SignalExitCauses.TradesEndAtTheirFirstCause` | hedge_fund/library/engine.py:245-274 | every trade is bought under an on signal and sold at the first open after a breach of its stop or an off signal, naming the breach when there was one; only one that met neither is left for the window's end |
| `SignalExitCauses.OutUnderAnOnSignal` | hedge_fund/library/engine.py:108-130 | out at an open although the signal is on means a stop sale at an open since when every signal was on, and never otherwise |
| `SignalExitCosts.CostsNeverHelp` | hedge_fund/library/engine.py:54-72 | over two runs of one signal, the run with the lower costs is at or above the other at every point as long as the two see the same breaches |
| `SignalExitCosts.SlippageCanHelp` | hedge_fund/library/engine.py:75-78 | for any two costs whose stops lie on either side of a low there is a tape on which the dearer run ends with more cash |
| `SignalExitCosts.CostsNeverHelpIff` | hedge_fund/library/engine.py:189-278 | over all positive tapes, signals, spans and cash, lower costs are never behind if and only if the stop is off, cannot be reached, or the slippages are equal |
| `SignalExitCosts.CostsNeverHelpOnCandlesIff` | hedge_fund/library/engine.py:189-278 | the same over candles, where a stop at or above every entry's open is harmless too |
| `PaperBook.PaperBroker.PlaceOrder` | hedge_fund/brokers/paper.py:143-177 | cash, lots and the list of fills after an order, the refusals included, are the value rule's |
| `PaperBook.PaperBroker.CloseLot` | hedge_fund/brokers/paper.py:179-182 | closing a lot is a sale of its quantity in its ticker |
| `PaperBook.CloseLotHitsTheFirst` | hedge_fund/brokers/paper.py:160-182 | the lot handed over is the one closed if and only if it is the oldest of its ticker |
| `PaperBook.ClosingTheSecondClosesTheFirst` | hedge_fund/brokers/paper.py:160-182 | of two lots of one ticker, closing the second leaves the second |
| `PaperBook.CloseAllLeavesNone` | hedge_fund/library/live.py:229-252 | selling a ticker's lots oldest first refuses no order, leaves none and pays each lot's proceeds |
| `PaperBook.FillsIffFillable` | hedge_fund/brokers/paper.py:143-177 | an order is filled if and only if a buy names a stop and a sale is of no more than its oldest lot holds; whole, at the slipped market, for the taker fee |
| `PaperBook.EquityFallsByTheCosts` | hedge_fund/brokers/paper.py:143-177 | a fill changes the equity at its market price by slippage and fee alone, but for at most a billionth of a unit dropped with a lot; partial sales included |
| `PaperBook.NumbersStayDistinct` | hedge_fund/brokers/paper.py:151-174 | no order gives a lot number twice |
| `LiveAccount.LibraryAccount.Buy` | hedge_fund/library/live.py:215-226 | the broker's state and the action after an all-in buy with its stop |
| `LiveAccount.LibraryAccount.Sell` | hedge_fund/library/live.py:229-252 | every lot of the symbol is sold, the action reporting the last one's result; nothing held is no action |
| `LiveAccount.LibraryAccount.ReplayPending` | hedge_fund/library/live.py:327-353 | machine and exit reason after the missed days are the value rule's: stepped in order, the stop looked at after the step, sold on the next day's turn |
| `LiveAccount.LibraryAccount.RunLibraryAccount` | hedge_fund/library/live.py:284-418 | account, actions and signal after one live decision, every early return included, are those of `LiveRun` |
| `LiveInvariants.ReachableAtRest` | hedge_fund/library/live.py:284-418 | after any runs at any gaps and times: at most one lot, long exactly when it is held, lockout means flat, no stop left pending |
| `LiveInvariants.DeferredWaits` | hedge_fund/library/live.py:370-393 | while an entry is deferred no run outside the open window trades, whatever it is given |
| `LiveInvariants.FreshLongBookWaits` | hedge_fund/library/live.py:308-322 | a fresh account whose rule is already long buys nothing outside the open window over any later runs |
| `LiveInvariants.DeferredFillsAtOpen` | hedge_fund/library/live.py:370-393 | the first run inside a window ends long exactly when the signal in force is on, bought at that run's price |
| `LiveReplay.HeldThroughMissedDays` | hedge_fund/library/live.py:325-385 | held through any missed days, all warm and on: if one of their lows is at or below the lot's stop the run sells at its price, names the safety stop and locks out; if none is it does nothing |
| `LiveReplay.FlatThroughMissedDays` | hedge_fund/library/live.py:325-378 | flat through any missed days, the run buys if and only if the newest warm one is on and, after a stop, one of them was off |
| `LiveReplay.OneRunIsDayByDay` | hedge_fund/library/live.py:325-393 | one run after any missed days, on or off, warm or not, leaves the account and does what a run on each of them at that price would, as long as none of those enters |
| `LiveMissedDays.OneRunIsDayByDayIff` | hedge_fund/library/live.py:325-393 | for a held account the one run leaves what the runs on each missed day would, and does what they would, if and only if no missed day is warm and on after one warm and off |
| `LiveMissedDays.NoneEntersIff` | hedge_fund/library/live.py:325-393 | the runs on each missed day of a held account buy again if and only if one of those days is warm and on after one warm and off |
| `LiveReplay.HeldDay` | hedge_fund/library/live.py:332-385 | one day of a held account in its signal and its low: hold on, sell on an off signal, or sell and lock out on a breach |
| `LiveRuns.AtDailyOpenIff` | hedge_fund/library/live.py:78-86 | the open window is the first 300 seconds of a UTC day, both ends included |
| `LiveRuns.TheBrokerDecidesThePosition` | hedge_fund/library/live.py:184-197 | the stored position flag does not matter: a run takes the position from the broker |
| `LiveRuns.StopLevelIsTheFirst` | hedge_fund/library/live.py:269-273 | the stop in force is that of the symbol's first lot that has one, none if none has |
| `LiveRuns.WhatARunNotes` | hedge_fund/library/live.py:308-369 | for any account: the newest day decided and the signal of the newest warm one are noted, and the signal gone by is the newest day's when warm, else the one noted |
| `LiveRuns.BuysOnlyWhenFlatAndFree` | hedge_fund/library/live.py:370-393 | whatever account it is handed, no run buys while the symbol is held or a lockout stands |
| `LiveRefinement.LiveRefinesBacktest` | hedge_fund/library/live.py:325-393 | with a run at every open, long, lockout, cash, quantity, entry and stop of the account equal the engine's after its actions at that open, for every signal and price series |
| `LiveRefinement.SaleReasons` | hedge_fund/library/live.py:334-385 | every sale is at the engine's price and for the engine's result, and the two name the same reason unless the breached day closed with the signal off |
| `LiveRefinement.ReasonsDiffer` | hedge_fund/library/live.py:334-385 | a tape on which, at any costs, the engine books a safety stop and the account a signal exit for one sale |
| `Structure.RangeBefore` | hedge_fund/signals/structure.py:201-224 | the monotonic deque yields the extreme of the `n` bars before each bar |
| `Structure.RangeAfter` | hedge_fund/signals/structure.py:282-292 | the pass over the reversed series yields the extreme of the `k` bars after each bar |
| `Structure.PivotArrays` | hedge_fund/signals/structure.py:295-328 | the list holds exactly the strict unique extremes of their windows, oldest first, with their prices |
| `Structure.CountConfirmed` | hedge_fund/signals/structure.py:331-362 | the binary search counts exactly the pivots confirmed by a bar |
| `Structure.ConfirmedSwings` | hedge_fund/signals/structure.py:331-362 | the swings returned are the confirmed pivots, newest first, as many as asked for |
| `Structure.LastConfirmedSwing` | hedge_fund/signals/structure.py:365-378 | the newest confirmed swing's price, or none |
| `Structure.AtrSeries` | hedge_fund/signals/structure.py:113-135 | the running range is the average of the last true ranges at every bar |
| `Structure.EvalNearSwing` | hedge_fund/signals/structure.py:381-410 | true exactly when the close is within the band of the newest confirmed swing |
| `Structure.EvalDouble` | hedge_fund/signals/structure.py:413-461 | true exactly when the two newest swings hold and the close has left them |
| `Structure.EvalDonchian` | hedge_fund/signals/structure.py:250-279 | true exactly when the close breaks the level of the bars before it |
| `Structure.StructureHasNoLookahead` | hedge_fund/signals/structure.py:201-362 | no bar after `i` changes a swing, double or Donchian flag at `i` |
| `Structure.NearIff` | hedge_fund/signals/structure.py:176-185 | near is within 0.2 % of the close or within a quarter of a positive range |
| `Structure.HoldsIff` | hedge_fund/signals/structure.py:188-198 | two swings hold when within 1 % of the first or within one positive range |
| `Structure.DoubleIff` | hedge_fund/signals/structure.py:413-461 | a double bottom needs the close above its second low, a top below its second high, and the two holding |
| `Structure.DonchianIff` | hedge_fund/signals/structure.py:250-279 | a breakout closes above every high of the `n` bars before it; at the low side the close is near the lowest low of those bars |
| `Structure.TrueRangeIsTheBox` | hedge_fund/signals/structure.py:113-135 | a candle's true range is the height of the box that holds it and the close before |
| `Kernels.AtrBetween` | hedge_fund/signals/structure.py:113-135 | the average range lies between the true ranges it averages |
| `Kernels.AtrSlides` | hedge_fund/signals/structure.py:113-135 | from bar to bar it takes in the new true range and lets the oldest go |
| `Kernels.SmaArray` | hedge_fund/signals/precompute.py:48-59 | the simple average at every bar, none before the first full window |
| `Kernels.EmaArray` | hedge_fund/signals/precompute.py:62-77 | the recursively defined exponential average at every bar |
| `Kernels.NearSwingSignal` | hedge_fund/signals/precompute.py:94-111 | the moving pointer flags exactly the bars where the swing predicate holds |
| `Kernels.DoubleSignal` | hedge_fund/signals/precompute.py:114-139 | the moving pair of pointers flags exactly the bars where the double predicate holds |
| `Kernels.DonchianSignal` | hedge_fund/signals/precompute.py:142-158 | the flags are exactly the breaks of the prior level |
| `Kernels.CompareMa` | hedge_fund/signals/precompute.py:161-172 | the flags are exactly the closes strictly above, or strictly below, a present average |
| `Kernels.StackSignal` | hedge_fund/signals/precompute.py:175-189 | the flags are exactly the bars whose averages stand in order under the close |
| `Kernels.MomentumSignal` | hedge_fund/signals/precompute.py:192-205 | the flags are exactly the bars past the lookback whose return crosses the threshold |
| `Kernels.HtfSignal` | hedge_fund/signals/precompute.py:208-231 | the flags are exactly the bars whose last complete bucket closed above its average |
| `Kernels.RsiSignal` | hedge_fund/signals/precompute.py:234-258 | the flags are exactly the bars whose index is in the half-open range, none for a period that is not positive |
| `Kernels.AtomSignal` | hedge_fund/signals/precompute.py:290-347 | for every well-formed atom, the kernel flags exactly the bars where its predicate holds |
| `Kernels.EvalAtom` | hedge_fund/signals/dynamic.py:441-486 | the interpreter's own sums, series and gain lists give the kernel's predicate at every bar, and a division by zero exactly for an index of period zero |
| `Kernels.SmaOf` | hedge_fund/signals/dynamic.py:80-99 | the last bar's own window and an earlier bar of the whole series are the same average |
| `Kernels.SmaSlides` | hedge_fund/signals/dynamic.py:54-99 | from bar to bar the simple average takes in the new value and lets the oldest go |
| `Kernels.SmaBetween` | hedge_fund/signals/dynamic.py:54-99 | a simple average lies between the values it averages |
| `Kernels.EmaMovesTowards` | hedge_fund/signals/dynamic.py:65-77 | the exponential average moves 2 parts in `period + 1` of the way to the new value |
| `Kernels.SmaAtomIff` | hedge_fund/signals/dynamic.py:457-460 | the close, `period` times over, exceeds the sum of the last `period` closes |
| `Kernels.MomentumAtomIff` | hedge_fund/signals/dynamic.py:134-138 | the close is past the old one by more than the threshold, above it or below |
| `Kernels.RsiOfLists` | hedge_fund/signals/dynamic.py:117-131 | the lists of gains and losses give the index of the running sums, or a division by zero for a period of zero |
| `Kernels.RsiIsTheShareOfGains` | hedge_fund/signals/dynamic.py:117-131 | the index is the gains' share of all moves in percent, 50 when nothing moved |
| `Kernels.MovesTelescope` | hedge_fund/signals/dynamic.py:117-131 | gains less losses is the change of the close over the window |
| `Kernels.RsiAtomIff` | hedge_fund/signals/dynamic.py:469-474 | the gains' share of all moves is above the one bound and at most the other |
| `Kernels.HtfOf` | hedge_fund/signals/htf.py:72-109 | the last complete bucket against the average of the bucket closes, read at one bar |
| `Kernels.HtfHasNoLookahead` | hedge_fund/signals/htf.py:32-109 | bars after `i` never change a higher-timeframe flag at `i`, though the bucket closes are built once from the whole tape |
| `Kernels.HtfReadsBucketEnds` | hedge_fund/signals/htf.py:39-109 | tapes that agree at every bar that closes a bucket have the same flags at every bar |
| `Kernels.BucketClosesLast` | hedge_fund/signals/htf.py:32-41 | a bucket closes on the last bar in it, and counts from exactly that bar on |
| `Kernels.HtfAtomIff` | hedge_fund/signals/htf.py:75-109 | the last complete bucket's close, `period` times over, exceeds the sum of the last `period` bucket closes |
| `Kernels.AtomsHaveNoLookahead` | hedge_fund/signals/precompute.py:290-347 | no atom's flag at a bar depends on a later bar |
| `SeriesCache.Cache.Get` | hedge_fund/signals/series_cache.py:67-73 | a hit returns the stored value and becomes the most recently used; a miss changes nothing |
| `SeriesCache.Cache.Put` | hedge_fund/signals/series_cache.py:76-91 | a fitting value is stored after the fewest evictions from the old end; an oversized one is returned unstored; the counter stays the sum of sizes and within budget |
| `SeriesCache.Cache.Clear` | hedge_fund/signals/series_cache.py:45-52 | nothing is left and the counter is zero |
| `SeriesCache.StoreIsInOrderOfUse` | hedge_fund/signals/series_cache.py:67-91 | after any gets and puts the entries stand in the order in which their keys were last looked up or stored, hold what was last stored under them, and fit the budget |
| `SeriesCache.EvictionIsLeastRecent` | hedge_fund/signals/series_cache.py:84-90 | after any gets and puts, storing a value drops another key if and only if its entry, everything used after it and the value would pass the budget, and then every key kept was used after it |
| `SeriesCache.Serve` | hedge_fund/signals/precompute.py:382-394 | over any run of accesses, every series served is the one that would be computed afresh |
| `SignalExpr.SplitJoins` | hedge_fund/signals/precompute.py:277-287 | joining the parts of a split gives the text back |
| `SignalExpr.JoinSplits` | hedge_fund/signals/precompute.py:277-287 | splitting what was joined gives the parts back |
| `SignalExpr.GroupsMean` | hedge_fund/signals/dynamic.py:214-261 | groups of names joined by `|`, joined by `&`, spaced and in parentheses or not, hold at a bar when some name of every group does |
| `SignalExpr.ExemptionIsDead` | hedge_fund/signals/precompute.py:277-287 | an operator found in a parenthesised expression is always inside its parentheses, so the exemption never applies |
| `SignalExpr.CompilerCorrect` | hedge_fund/signals/precompute.py:363-379 | compiled flag and parsed predicate agree at a bar if and only if no `&` there has an empty operand beside operands that all hold |
| `SignalExpr.InterpretMeans` | hedge_fund/signals/dynamic.py:165-176 | whatever the interpreter answers, operands taken from the left up to the first that decides, is the parsed predicate |
| `SignalExpr.FaultlessAnswers` | hedge_fund/signals/dynamic.py:165-176 | the interpreter fails only over a name of the expression that divides by zero |
| `SignalExpr.PreservedIff` | hedge_fund/signals/precompute.py:363-379 | an expression compiles to the interpreter's answer, wherever there is one, under every grammar, tape and bar if and only if it has no empty operand of `&` beside operands that each name something |
| `SignalExpr.CompiledWithoutAnd` | hedge_fund/signals/dynamic.py:254-261 | without `&` the two agree on every expression and bar, empty operands included |
| `SignalExpr.TrailingAndDiffers` | hedge_fund/signals/precompute.py:368-374 | `rsi_1_<100&` is flagged by the compiler at every bar past the lookback and by the interpreter at none |
| `SignalExpr.TrailingAnd` | hedge_fund/signals/precompute.py:368-374 | after any bare name a trailing `&` makes the interpreter false and leaves the compiled flag that of the name |
| `SignalExpr.Combine` | hedge_fund/signals/precompute.py:261-274 | the parts are folded bar by bar into a fresh array, an empty one for no parts, and no part is written |
| `SignalExpr.FallbackSignal` | hedge_fund/signals/precompute.py:350-360 | an atom without a kernel is flagged bar by bar by its own predicate |
| `SignalExpr.Build` | hedge_fund/signals/precompute.py:363-379 | an expression compiles to its compiled meaning at every bar, and no array that existed before is changed |
| `SignalExpr.SignalSeries` | hedge_fund/signals/precompute.py:382-394 | the flags served, cached or not, are the compiled meaning, which is the interpreter's answer wherever there is one and the expression loses no operand |
| `InflightWorker.Worker.SubmitQueued` | scripts/discovery_worker.py:662-671 | the head of the queue fills the free slots, each with its own start time |
| `InflightWorker.Worker.ClaimSize` | scripts/discovery_worker.py:649-660 | how many names to ask for: none for a full wave, within the backoff, or for too little |
| `InflightWorker.Worker.TakeReply` | scripts/discovery_worker.py:681-699 | queue, backoff delay and deadline after a reply, empty, short or full |
| `InflightWorker.Worker.Launch` | scripts/discovery_worker.py:679-700 | submit, ask when there is room, submit again |
| `InflightWorker.Worker.PostReady` | scripts/discovery_worker.py:718-730 | each ready name is finished once, the freed slot filled first unless something is stuck |
| `InflightWorker.Worker.Kill` | scripts/discovery_worker.py:731-748 | stuck names are finished as parked, their siblings go back to the head of the queue in order |
| `InflightWorker.Worker.Poll` | scripts/discovery_worker.py:703-753 | the whole state after one turn of the loop |
| `InflightWorker.Worker.Run` | scripts/discovery_worker.py:702-753 | launch, then turn by turn until nothing is in flight or the given number of turns is up |
| `InflightSafety.AskingWithinRoom` | scripts/discovery_worker.py:649-660 | every ask fits the lane's leases with unposted and unacknowledged names counted, fits width plus prefetch, and is made with less than a wave queued and after the backoff |
| `InflightOrder.AsksForTheMost` | scripts/discovery_worker.py:649-660 | the worker asks if and only if it may refill and some ask respects its limits, and then for the most that does |
| `InflightOrder.IdleTurnAsks` | scripts/discovery_worker.py:749-752 | a turn that finds nobody ready or overdue asks if and only if both of its looks want to, for what the second wants |
| `InflightPacing.AsksWaitOutTheLastReply` | scripts/discovery_worker.py:679-700 | in every run, after an empty or short reply the next ask's clock is at or past that reply's clock plus the delay it set |
| `InflightPacing.EmptyRepliesBackOff` | scripts/discovery_worker.py:695-699 | along empty replies in a row the delay is 30, 60, 120 and then 240 seconds, and any other reply starts it over |
| `InflightSafety.NextDelayBounded` | scripts/discovery_worker.py:695-699 | the empty-reply delay doubles and stays between 30 and 240 seconds |
| `InflightSafety.PolledSane` | scripts/discovery_worker.py:703-753 | one turn finishes exactly the ready names as evaluated and the overdue ones as parked, loses none and leaves no slot idle while a name waits |
| `InflightOrder.SubmitsInOrder` | scripts/discovery_worker.py:662-671 | the head of the queue fills the free slots in order, each name from a reading of its own |
| `InflightOrder.PolledOrder` | scripts/discovery_worker.py:703-753 | when a name is overdue its siblings are restarted at once, first and in their order, each from a reading after the turn's; when none is, the names left run on untouched |
| `InflightOrder.NamesStartInOrder` | scripts/discovery_worker.py:662-753 | after any turns the names still waiting are the last ones received, in the order they came |
| `InflightSafety.ReachableSane` | scripts/discovery_worker.py:662-753 | in every reachable state the names received are the queued, in-flight and finished ones, each once, with at most `width` in flight and only overdue names parked |
| `InflightSafety.ReturnFinishesEveryNameOnce` | scripts/discovery_worker.py:702-753 | when the loop returns, the finished names are the received names, each once |
| `InflightSafety.PollProgress` | scripts/discovery_worker.py:703-753 | a turn that finds a name ready or overdue strictly lengthens the finished list |
| `InflightReturn.TheLoopReturns` | scripts/discovery_worker.py:702-753 | without a refill, with a deadline and a clock that advances, the loop returns within a bound on its turns, whatever the tasks do |
| `InflightReturn.AFiniteSupplyRunsOut` | scripts/discovery_worker.py:702-753 | the same with refills, as long as the names that can be leased are finitely many |
| `CandleQuality.LastClosedIsNewest` | hedge_fund/data/candle_quality.py:86-98 | for any positive width a grid open has closed by now if and only if it is at most the last closed open, and any other width is refused |
| `CandleQuality.KnownMeansEveryMissingOpen` | hedge_fund/data/candle_quality.py:112-125 | looking at a gap's two ends decides whether one suspension window overlaps every open it misses |
| `CandleQuality.TheFirstCoveringWindow` | hedge_fund/data/candle_quality.py:112-125 | the outage named is the first of the windows that covers the gap |
| `CandleQuality.OverlapsIff` | hedge_fund/data/candle_quality.py:107-109 | a bucket overlaps a window when some instant is in both |
| `CandleSync.CandleStore.Upsert` | hedge_fund/data/candle_store.py:334-363 | the stored opens gain exactly the rows sent |
| `CandleSync.CandleStore.PageSpan` | hedge_fund/data/candle_sync.py:102-144 | the paging loop leaves the store, counters and next open of `PageForward`, a failed fetch included |
| `CandleSync.OnlyTheSpanIsWritten` | hedge_fund/data/candle_sync.py:93-144 | whatever the exchange sends, only opens inside the span and below the next open are added: never one after the last closed bar |
| `CandleSync.NothingIsSkipped` | hedge_fund/data/candle_sync.py:115-144 | against an exchange that returns the first bars from `since`, nothing below the next open is missing, and a span that ended within its pages is complete |
| `CandleSync.EveryHoleHasItsGap` | hedge_fund/data/candle_store.py:401-420 | a missing grid open between stored ones lies inside one of the reported gap edges |
| `CandleSync.GapsAreTheGaps` | hedge_fund/data/candle_sync.py:269-284 | the gaps walked are exactly the neighbours in the store that are not one bar apart |
| `CandleSync.CandleStore.UpdateSymbol` | hedge_fund/data/candle_sync.py:177-213 | one symbol's incremental update, its early exits included |
| `CandleSync.UpdateOpensNoHole` | hedge_fund/data/candle_sync.py:177-213 | at any page limit and even if a fetch fails, an update leaves the holes as they were and adds only closed market bars |
| `CandleSync.UpdateIsComplete` | hedge_fund/data/candle_sync.py:177-213 | an update that neither failed nor used up its pages holds every market bar from the newest stored open to the last closed one |
| `CandleSync.UpdateCatchesUp` | hedge_fund/data/candle_sync.py:177-213 | with every call answered and a page a bar and one more allowed, no update stops short |
| `CandleSync.FailsOverItsNextCall` | hedge_fund/data/candle_sync.py:114-119 | a span fails only over the call after its last page, at the open it stopped at |
| `CandleSync.WrittenIsAdded` | hedge_fund/data/candle_sync.py:122-144 | the bars reported as written after the newest stored open are the bars added, for pages that list each open once |
| `CandleSync.CandleStore.SpanInBudget` | hedge_fund/data/candle_sync.py:249-263 | one span spends from the page budget that all spans share |
| `CandleSync.CandleStore.BackfillSymbol` | hedge_fund/data/candle_sync.py:246-284 | head, tail and then each gap, until the budget is spent |
| `CandleSync.BackfillIsComplete` | hedge_fund/data/candle_sync.py:246-284 | ending with budget to spare means every market bar of the span is stored; in any case only closed market bars are |
| `CandleSync.BackfillSpendsItsCalls` | hedge_fund/data/candle_sync.py:246-284 | a backfill spends its budget a page a call and fails only over a call that failed |
| `CandlePool.ConnectionPool.Checkout` | hedge_fund/data/candle_store.py:130-149 | the locked section: refuse when closed, else the newest idle connection, else a slot, else wait |
| `CandlePool.ConnectionPool.Checkin` | hedge_fund/data/candle_store.py:175-189 | the locked section: count back, keep a sound connection, discard the rest |
| `CandlePool.ConnectionPool.TakeOut` | hedge_fund/data/candle_store.py:191-196 | a timer takes its connection out only if it is idle |
| `CandlePool.ConnectionPool.CloseAll` | hedge_fund/data/candle_store.py:202-207 | the pool is closed and its idle connections are handed over to be closed |
| `CandlePool.EveryInterleavingIsSound` | hedge_fund/data/candle_store.py:130-212 | after any interleaving, idle plus out is at most the limit, no connection is idle and out or held twice, and each is in exactly one place |
| `CandlePool.EnteringGetsTheBestThereIs` | hedge_fund/data/candle_store.py:130-149 | in every interleaving an entering caller is given the idle connection returned last, a new one only when none is idle and fewer than the limit are in use, and otherwise waits until its deadline |
| `CandlePool.ReturnedIsReused` | hedge_fund/data/candle_store.py:130-189 | a connection given back is the next one given out |
| `CandlePool.OneAfterAnotherShareOne` | hedge_fund/data/candle_store.py:130-189 | callers who come one after the other share one connection, however many they are |
| `CandlePool.ClipNeverFires` | hedge_fund/data/candle_store.py:177-177 | the clip of the count at zero never acts |
| `CandlePool.ClosingLeavesOnlyTheUnprepared` | hedge_fund/data/candle_store.py:150-173 | once closed and drained, the pool has closed every connection opened except those whose preparation failed |
| `CandlePool.LeakedIsNeverClosed` | hedge_fund/data/candle_store.py:150-173 | a connection whose preparation failed is never closed by the pool, whatever follows |
| `CandlePool.LeaksOutliveThePool` | hedge_fund/data/candle_store.py:150-212 | after any number of failed preparations, the close and the drain, the pool has closed none of those connections |
| `CandlePool.ConnectionPool.Create` | hedge_fund/data/candle_store.py:79-98 | a pool of one or two connections, or none |
| `CandlePool.ConnectionPool.SpawnFailed` | hedge_fund/data/candle_store.py:154-157 | a failed connect gives its slot back |
| `CandlePool.RetiringConnectionsAreExtra` | hedge_fund/data/candle_store.py:191-200 | an interleaving in which the whole limit is in use while any number of retired connections are still open |
| `CandlePool.OpenConnectionsBounded` | hedge_fund/data/candle_store.py:130-212 | in every interleaving the connections open or being opened are at most the limit, those taken out and not yet closed, and those leaked |
| `CandlePool.LimitHoldsIff` | hedge_fund/data/candle_store.py:130-212 | the limit, or any larger one, bounds the open connections of every interleaving if and only if no timer fires and no preparation fails |
| `CandlePool.AnyNumberCanBeOpen` | hedge_fund/data/candle_store.py:150-200 | either event alone lets any number of connections be open at once |
| `RiskRules.StopBand` | hedge_fund/risk/rm_v1.py:50-59 | whatever the range, the stop is 1.5 to 4 % below a positive entry |
| `RiskRules.StopIsNearestInBand` | hedge_fund/risk/rm_v1.py:50-59 | the stop distance is twice the range or the nearest to that in the band, 2.5 % without a range |
| `RiskRules.RiskManager.UpdateEquity` | hedge_fund/risk/managed.py:68-78 | peak and halt after an equity reading, a halt being for good |
| `RiskRules.ApprovalBounds` | hedge_fund/risk/managed.py:87-142 | at any confidence and with or without cash given, an approved size fits the cash with costs, risks at most its fraction, keeps the open-risk cap, and is the largest that does |
| `RiskRules.ApprovedIff` | hedge_fund/risk/managed.py:87-142 | a proposed long is approved if and only if the breaker has not tripped, the stop is positive and below the entry, the open risk stays under the cap and the cash pays for a least lot |
| `RiskRules.ClampedIsNearest` | hedge_fund/risk/managed.py:113-114 | a confidence counts as the nearest to it between a half and two |
| `ManagedBacktest.ExitLots` | hedge_fund/backtest/strategies.py:392-414 | the exit pass closes and keeps lots as `AfterExits` says |
| `ManagedBacktest.TradeBar` | hedge_fund/backtest/strategies.py:383-459 | one bar: exits, the reading that may halt, then perhaps an entry |
| `ManagedBacktest.Backtest` | hedge_fund/backtest/strategies.py:291-466 | the run over its window ends in `Final`, the window-end sales included |
| `BacktestLedger.RunStaysSolvent` | hedge_fund/backtest/strategies.py:441-459 | at every bar cash is not negative, at most three sound lots are open, and no entry left the open notional above the equity |
| `BacktestLedger.EndIsSolvent` | hedge_fund/backtest/strategies.py:461-466 | the same at the end, with nothing left open |
| `BacktestLedger.CashIsPnlLessFees` | hedge_fund/backtest/strategies.py:353-365 | final cash less start cash is the summed result of the lots less the fees paid |
| `BacktestRules.FeesAreBothSides` | hedge_fund/backtest/strategies.py:353-459 | every lot of a run pays the taker fee once on what it cost and once on what it brought |
| `BacktestRules.MinCashIsLeast` | hedge_fund/backtest/strategies.py:454-455 | the least cash reported is the least the run had after any bar |
| `BacktestRules.MaxShareIsGreatest` | hedge_fund/backtest/strategies.py:456-459 | the greatest invested share reported is the greatest that any entry left |
| `BacktestLedger.EveryLotClosesOnce` | hedge_fund/backtest/strategies.py:392-466 | the lots closed are exactly the lots opened, no two opened on one bar |
| `BacktestLedger.NothingOpensAfterAHalt` | hedge_fund/backtest/strategies.py:416-430 | once the breaker has tripped, no later bar opens a lot |
| `BacktestRules.HaltsIff` | hedge_fund/risk/managed.py:68-78 | the breaker has tripped at a bar if and only if some bar before it marked an equity of at most 85 % of the greatest of the start cash and the equities marked so far |
| `BacktestRules.PeakIsHighest` | hedge_fund/risk/managed.py:68-70 | the peak is the greatest of the start cash and the equities marked so far |
| `BacktestRules.MarkedIsRealisedPlusOpen` | hedge_fund/backtest/strategies.py:350-351 | the equity a bar marks is start cash, what the closed lots made and the open ones would make at its close, less the fees paid |
| `BacktestRules.BarsOfTheWindow` | hedge_fund/backtest/strategies.py:345-348 | the bars traded are those of the tape past the warm-up and within the scored range |
| `BacktestLedger.EntryBounds` | hedge_fund/backtest/strategies.py:427-454 | what every entry satisfies: the flag, no halt, room for a lot, all lots in profit, the stop band, cash and risk |
| `BacktestRules.EntersIff` | hedge_fund/backtest/strategies.py:427-454 | at the shipped policy a bar buys, one lot of a stated size, entry and stop, if and only if its flag is on, the breaker has not tripped, fewer than three lots are open, all below the close, its exits have not left the book flat and the cash pays for a least lot |
| `BacktestExits.LotsLeaveAtTheirFirstTouch` | hedge_fund/backtest/strategies.py:389-414 | every lot leaves on the first bar after its entry that reaches stop or target, at that level less slippage, or untouched at the last close |
| `BacktestRules.LotsLeaveByPrices` | hedge_fund/backtest/strategies.py:389-414 | the same in highs, lows and levels: a stop needs a low at or below it, a target the high and a low above the stop, neither reached before, each fill less slippage |
| `BacktestExits.RunPyramidsUp` | hedge_fund/backtest/strategies.py:433-435 | the open lots stand in order of entry bar and of rising entry price |
| `BacktestExits.OpenRiskAfterAddition` | hedge_fund/risk/managed.py:118-127 | after an addition the open risk is within its share of equity plus the slippage on the new lot |
| `BacktestExits.OpenRiskInBand` | hedge_fund/backtest/strategies.py:383-459 | after every entry of every run the open risk is at most the widest stop plus the slippage, as a share of the equity then |
| `BacktestExits.OpenRiskCapIff` | hedge_fund/risk/managed.py:118-127 | the cap holds after every entry of every run if and only if the slippage is at most the cap less the widest stop, one percent |
| `BacktestExits.TheCapNeverRefuses` | hedge_fund/risk/managed.py:118-127 | at the shipped risk fraction and slippage the gate's test of the cap refuses no entry on any bar of any run |
| `BacktestExits.AStoppedLotLosesLittle` | hedge_fund/risk/rm_v1.py:41-59 | at default costs a lot is worth at most two thirds of equity, and stopping it costs under 1.2 % |
| `BacktestExits.StoppedLotsLoseLittle` | hedge_fund/backtest/strategies.py:389-459 | every lot a run at the shipped policy sells at its stop lost less than 1.2 % of the equity it was bought from |
| `FundWeights.BlendDeploysItsTarget` | hedge_fund/portfolio/construction.py:61-89 | a sleeve's gross is exactly its target, or zero without a view |
| `FundWeights.ConvictionIsAMean` | hedge_fund/portfolio/construction.py:61-74 | a conviction lies between the votes that count for its ticker, and is zero without any |
| `FundWeights.SplitVoteCountsOnce` | hedge_fund/portfolio/construction.py:61-74 | a vote cut in two of the same value counts as it did: weights count, not the number of votes |
| `FundWeights.WeightsFollowConvictions` | hedge_fund/portfolio/construction.py:76-87 | two weights differ as their convictions do, market-neutral or not |
| `FundWeights.AbstainingChangesNothing` | hedge_fund/portfolio/construction.py:63-66 | an abstention leaves every conviction where it was |
| `FundWeights.NeutralSleeveSumsToZero` | hedge_fund/portfolio/construction.py:76-79 | a market-neutral sleeve sums to zero |
| `FundWeights.PositiveVotesMakeALongSleeve` | hedge_fund/portfolio/construction.py:61-89 | votes that are never negative make a sleeve without shorts |
| `FundWeights.NetSleeves` | hedge_fund/pipeline/run_cycle.py:85-99 | the netting loop sums each sleeve's weights by its share of capital |
| `FundWeights.NettingKeepsTheGross` | hedge_fund/pipeline/run_cycle.py:85-99 | the netted book's gross is no more than the sleeves' own |
| `FundWeights.SplitSleeveNetsOnce` | hedge_fund/pipeline/run_cycle.py:85-99 | a sleeve cut in two of the same weights nets as it did: capital counts, not the number of sleeves |
| `FundWeights.AgreeingSleevesNet` | hedge_fund/pipeline/run_cycle.py:85-99 | sleeves that agree on a ticker net to what they agree on |
| `FundWeights.NettingKeepsLong` | hedge_fund/pipeline/run_cycle.py:85-99 | sleeves without shorts net to a book without shorts |
| `FundWeights.ApplyLimits` | hedge_fund/risk/limits.py:49-82 | the clamped weights and the record of every limit that fired |
| `FundWeights.LimitsOnlyShrink` | hedge_fund/risk/limits.py:59-80 | no weight grows or turns round, and both caps are met |
| `FundWeights.LimitsCutWhatIsOver` | hedge_fund/risk/limits.py:59-80 | a weight over the cap is at the cap on its own side and any other as it was; a book over the gross cap is at it, all weights cut in one proportion |
| `FundWeights.EveryClampIsListed` | hedge_fund/risk/limits.py:62-80 | the record lists every limit that fired, with what it was and became, and nothing else |
| `FundWeights.LimitsAreIdempotent` | hedge_fund/risk/limits.py:52-80 | limited weights pass unchanged, and no limit fires on them |
| `FundBook.SimBroker.PlaceOrder` | hedge_fund/brokers/sim.py:36-58 | a complete fill at the order's price, a position of none forgotten, an unpriced order refused |
| `FundBook.BuildOrders` | hedge_fund/pipeline/execution.py:16-53 | one order per changed ticker towards its truncated target, sells before buys, each in order |
| `FundBook.PositionsAreTargets` | hedge_fund/pipeline/execution.py:35-53 | after the fills every position is its truncated target |
| `FundBook.PositionsDeployTheirWeights` | hedge_fund/pipeline/execution.py:35-53 | after the fills every position is worth its weight of equity to within a share, on the same side of zero and never more |
| `FundBook.CycleKeepsNav` | hedge_fund/pipeline/run_cycle.py:110-115 | net asset value after the fills is the value before them, for any targets |
| `FundBook.NoFillOverdraws` | hedge_fund/pipeline/execution.py:28-33 | with long targets of at most the equity, cash is not negative after any single fill |
| `FundBook.RunTick` | hedge_fund/pipeline/run_cycle.py:66-115 | the broker after one tick, the two errors, and the value recorded |
| `FundBook.TickKeepsNav` | hedge_fund/pipeline/run_cycle.py:70-115 | the value recorded by a tick is the equity it sized by |
| `FundBook.TheFundNeverRunsOut` | hedge_fund/pipeline/run_cycle.py:70-78 | over every sequence of long unlevered ticks at any positive marks, the non-positive-equity error is unreachable |
| `FundDesk.RunDesk` | hedge_fund/pipeline/run_cycle.py:81-115 | a tick from the analysts' votes on: each sleeve blended, the sleeves netted, the book traded |
| `FundDesk.EverySleeveIsItsStrategys` | hedge_fund/pipeline/run_cycle.py:81-99 | each sleeve has its strategy's capital, deploys its target or nothing and, market-neutral, sums to zero |
| `FundDesk.ANeutralDeskIsNeutral` | hedge_fund/pipeline/run_cycle.py:81-99 | a desk of market-neutral strategies nets to a book that sums to no dollars |
| `FundDesk.ABullishDeskNeverRunsOut` | hedge_fund/pipeline/run_cycle.py:70-99 | with votes that are never negative and no leverage allowed, no sequence of ticks meets a non-positive equity |
| `DailyTape.IndexSplits` | hedge_fund/library/daily.py:36-42 | exactly the stamps before the index are before the time asked for |
| `DailyTape.DaysAreCalendarDays` | hedge_fund/library/daily.py:82-95 | each day holds all rows of its calendar day and no others: first open, extremes, last close |
| `DailyTape.EveryCompletedDayIsThere` | hedge_fund/library/daily.py:82-88 | a day with rows is listed if and only if it is not the newest row's day |
| `DailyTape.DaysAscend` | hedge_fund/library/daily.py:82-95 | the days ascend |
| `DailyTape.CompletedDaysAreFinal` | hedge_fund/library/daily.py:60-95 | the completed days of an ascending tape are the first days of any ascending extension |
| `DailyCleaning.CleaningKeepsTheLast` | hedge_fund/library/daily.py:73-81 | of a tape in any order, with any repeats, the stable sort and the mask keep exactly the last row of each stamp, ascending |
| `DailyCleaning.DaysDependOnLastsOnly` | hedge_fund/library/daily.py:60-95 | tapes with the same last row of each stamp, in whatever order, have the same days |
| `DailyCleaning.AnyTapesDays` | hedge_fund/library/daily.py:60-95 | of any tape a day is listed if and only if a row falls on it and a row on a later day |
| `DailyCleaning.LaterRowsKeepTheDays` | hedge_fund/library/daily.py:60-95 | rows all later than a tape's, both in any order, leave its completed days the first of the longer one's |
| `Tiling.TiledSlices` | scripts/tournament_engine.py:187-251 | the slices of one symbol, or which of the refusals applies |
| `Tiling.EachRowIsScoredOnce` | scripts/tournament_engine.py:229-250 | every row from the first segment's start to the last one's end is scored in exactly one segment |
| `Tiling.SegmentsTouch` | scripts/tournament_engine.py:230-234 | segments touch end to end and an open last one runs to the tape's end |
| `Tiling.LeadInIsBefore` | scripts/tournament_engine.py:242-249 | warm-up and train rows lie strictly before the segment, scored rows within it |
| `Tiling.SliceLengths` | scripts/tournament_engine.py:199-249 | on a tape without gaps a slice has exactly its warm-up rows, its train rows and, for whole bars, its segment's rows |
| `Tiling.ScoredInItsTime` | scripts/tournament_engine.py:199-244 | a row is scored in segment `k` if and only if its time is in that segment, an open last one running to the tape's end |
| `Tiling.RefusedUnlessCovered` | scripts/tournament_engine.py:211-223 | a tape is refused unless it reaches back to the first lead-in and forward to the last segment |
| `Tiling.SealedSegmentsEndBeforeTheHoldout` | scripts/tournament_engine.py:235-247 | a sealed layout never shows a bar of the holdout |
| `Tiling.HistoryChangesNoSlice` | scripts/tournament_engine.py:199-209 | prepending history to a tape that is not refused gives the same list of slices, or the same refusal of a leak |
| `Tiling.NewBarsChangeOnlyTheLast` | scripts/tournament_engine.py:199-209 | appending bars to a tape that is not refused leaves the number of slices and all but the last as they were, and the last too once closed and reached |
| `Blocks.BlocksTile` | hedge_fund/library/evaluate.py:165-177 | the check accepts exactly a score index on the tape and blocks that tile the span from its day |
| `Blocks.BlocksTileTheSpan` | hedge_fund/library/evaluate.py:148-162 | the blocks tile the span, none is empty, their number is the span over 390 days rounded, and widths differ by at most a millisecond |
| `Blocks.BlockReturnsCompound` | hedge_fund/library/evaluate.py:316-322 | the rebased block results compound to the book's ending equity, for blocks that tile the scored days and may run past them |
| `Blocks.BlockTradesAddUp` | hedge_fund/library/evaluate.py:323-325 | each trade of the run is counted in exactly one block |
| `ThesisStream.PartialString` | hedge_fund/llm/watch.py:67-99 | the decoding loop returns the body's characters as far as they have arrived |
| `ThesisStream.BodyOnlyGrows` | hedge_fund/llm/watch.py:67-99 | what is decoded from a text begins what is decoded from any longer one |
| `ThesisStream.ClosedStringDecodes` | hedge_fund/llm/watch.py:76-99 | any encoding of a string allowed by section 7 of RFC 8259, unit by unit, decodes to it once closed |
| `ThesisStream.EscapesMean` | hedge_fund/llm/watch.py:23-24 | the eight two-character escapes of RFC 8259, and any other letter for itself |
| `ThesisStream.AnswerDecodes` | hedge_fund/llm/watch.py:21-54 | an answer in which nothing opens a thesis before its own decodes to what was meant, however spaced and escaped, and whatever follows |
| `ThesisStream.EscapedPairsStayApart` | hedge_fund/llm/watch.py:90-96 | the escaped U+1F600 comes out as its two halves |
| `ThesisStream.DecodesToItsCharsIff` | hedge_fund/llm/watch.py:76-99 | a closed string decodes to the characters meant if and only if no two adjacent units are the halves of one |
| `ThesisStream.ThesisOnlyGrows` | hedge_fund/llm/watch.py:44-54 | more text never shortens or changes the thesis so far, its start included |
| `ThesisStream.Stream.Feed` | hedge_fund/llm/watch.py:44-54 | the thesis depends on the text received and not on how it was cut |

## Left out

- HTTP, SQL, files, subprocesses, printing and environment variables: they appear as parameters or not at all.
- Floating-point rounding, infinities and NaN propagation: prices are reals, NaN is `None`, and a division that the program makes in floats is exact here, the rounding of the block count included.
- `hedge_fund/library/indicators.py` and the strategies built on it: independent formulas; their output is the given signal and readiness series.
- Sharpe ratios, drawdowns, overfitting statistics and the win, hold and exit counts of a run: statistics of what is modelled, not part of its rules.
- The `max_drawdown` field of the 5m backtest: its lot closes mark cash only.
- The SQLite trade records that a live run writes beside the account file: the broker, the machine and the saved dictionary are modelled.
- The digest functions of the series cache and the identity hint before them, which skips the hash of a list seen before at that length: a key carries the tape's content, so digests are collision-free by construction and no list is written after it was hashed.
- The multi-timeframe and volume atoms of the interpreter and callables given as strategies: the expression language is the vectorised atoms plus names with a predicate of their own; white space is ASCII; the interpreter's default of the last bar is always given explicitly, and its memo of averages, keyed by list identity, is not modelled.
- The regular expressions that name the atoms: one grammar stands for the compiler's and the interpreter's; that the two sets of patterns agree is taken as given.
- `PreservedIff`, `CompilerCorrect` and `SignalSeries`: for tapes without a zero close, by which a return would divide.
- The worker's trial counts, process pool and result poster: a task is ready when the environment says so, and acknowledgements are a number read from it.
- The columns of a candle other than its open time, and the update of several symbols in a row: each symbol pages on its own.
- The wait and notify of the pool's condition variable: a waiting caller may take its turn at any time, so nothing is said about when it does.
- Reading the `signal` and `confidence` fields of a streamed answer, and how Python reads four characters that are not all hexadecimal digits as a number: the latter is a parameter.
- The entry flags and the range series of the 5m backtest: one given value per bar; the flags are what `SignalSeries` computes.
- Analyst models, ticker normalisation and the price lookup of a fund tick: the votes, the universe and the marks are given; a mark is positive.
- `TiledSlices`: one symbol's tape, strictly ascending; the dictionary over symbols repeats it.
- `CompletedDaysAreFinal` and `LaterRowsKeepTheDays`: the new rows are all later than the old; a late duplicate of an old stamp may rewrite its day, as the program intends.
- `RunStaysSolvent`: for positive closes, a start without debt and a reward ratio that is not negative.
- `OneRunIsDayByDay`: up to the first entry; for an account that was held `OneRunIsDayByDayIff` says exactly when there is none, and that otherwise the two do differ.
- `EntersIff`: at the shipped risk fraction and slippage, where the open-risk cap never refuses; `EntryBounds` and `ApprovedIff` hold at any.
- `HaltsIff`: for a positive start cash.
- `UpdateIsComplete` and `UpdateCatchesUp`: for an exchange on the 5m grid that answers as documented; `FailsOverItsNextCall` holds for any answer.
- `LiveRefinesBacktest`: for one run per completed day inside the open window, at that open's price and with warm signals; missed days are covered by `OneRunIsDayByDay` and any other schedule by `ReachableAtRest`.
- `NothingIsSkipped` and `BackfillIsComplete`: for an exchange on the 5m grid that answers every call with the first bars from `since`; `OnlyTheSpanIsWritten` holds for any answer.
- `Run` of the in-flight worker: turns are counted up to a given number, any number, since with a refill nothing the loop does makes the names run out.
- `ReturnFinishesEveryNameOnce`: for names that are handed in and leased once each.
- `TheLoopReturns` and `AFiniteSupplyRunsOut`: for a loop with a deadline; without one, or with names without end, when it returns is up to the tasks and the replies.
- `TheFundNeverRunsOut`: for netted weights without shorts and a gross limit of at most one; `CycleKeepsNav` and `PositionsAreTargets` hold for any.
- `BlockReturnsCompound` and `BlockTradesAddUp`: the blocks end after the last scored day, as the discovery blocks do.
