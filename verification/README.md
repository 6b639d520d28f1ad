# HQMTS in Dafny

HQMTS is a trading platform. This project models the stateful cores of its back end and proves what they
keep over whole runs, over every interleaving or for every history of calls:

- the **backtest core**: bars, matcher, costs, portfolio and the event loop with its order buffer, delays,
  day resets, stop-loss and take-profit sells and force-flatten (`Bars`, `Matcher`, `Portfolio`,
  `PortfolioState`, `Engine`, `EngineSoundness`, `OrderLedger`, `OrderTiming`, `RunAccounts`, `ForcedSales`,
  `BacktestEngine`), the drawdown loop (`Drawdown`), the crossover strategy (`Crossover`) and the vectorised trade
  loop (`Vectorized`, `VectorizedAccounts`);
- **cash reservation**: the manager (`Reservation`), every interleaving of its calls
  (`ReservationProtocol`), the signal pipeline on top (`ExecutionService`) and whole signals interleaved with
  each other (`SignalProtocol`);
- **risk**: the layered engine (`RiskEngine`), the twelve-point check before submission (`FinalCheck`) and
  risk-initiated liquidation (`ForceFlatten`);
- the **autonomous research loop**, what its runs spend, and the factor bridge that feeds it (`ResearchLoop`,
  `ResearchVerdicts`, `ResearchBudgets`, `ResearchOvershoot`, `ResearchBridge`);
- **bar aggregation** (`BarBuckets`, `BarAggregation`, `BarTwoStep`, `BarCompleteness`, `BarBuilder`);
- the **rate limiters** (`SlidingWindow`, `TokenBucket`);
- the **agent governance chain** (`Governance`, `GovernanceSafety`, `GovernanceLimits`, `GovernanceService`);
- the **message buffer** of the WebSocket manager (`MessageBuffer`).

## How the model is laid out

Code that computes a value is a function. Code that changes objects step by step is a class with the same
fields and loops. Most of its methods are proved equal to functions on a value that stands for the whole
state (`ensures (View(), r) == Step(old(View()), ...)`), and the theorems are lemmas about those functions,
so what is proved of the functions holds of the methods; the others state outright what they change. What a function
means is stated once more in the terms of its callers, with the constants written out, so that neither a function nor
a method and its function together can change their meaning unnoticed.

- Python's `Decimal` and `float` are exact reals. Time stamps are whole seconds (bars, approval
  requests) or reals (clocks read by limiters, reservations and checks).
- The strategy of a backtest is an arbitrary function from the bar count to a list of orders, the risk
  engine inside a backtest an arbitrary function from the number of checks made to an outcome, the order
  service an arbitrary function from the number of submissions to success or failure. Theorems hold for all
  of them.
- Random ids are positions in a table, so they never collide. The repositories behind the services are the
  tables themselves; `get_total_reserved_amount` is the sum over active rows, `list_by_cycle` the first
  hundred rows in the order they were stored.
- Positions are values in a map field instead of shared objects: an update puts the changed position back.
- A few fields carry history that the code does not keep: the bar a vectorised trade was made on; the attempts made
  at each backtest order, with the bar, what risk answered and the trades before and after; the numbers a candidate
  was judged on; how often a cycle was moved along an edge its table does not have. Nothing else depends on them.
- Calls that read a clock take the time as an argument; the governance pipeline, which reads it when it makes a
  request and again when it decides it, takes two.

## Where the code and its documentation differ

The model follows the code.

- The completeness flag of an aggregated bar is documented as "all constituent 1m bars are present". The code
  counts bars. For any list of bars the flag is right exactly when no minute of its bucket is repeated, or when
  the bucket neither holds as many bars as minutes, all completed, nor has a completed bar in every minute
  (`BarCompleteness.FlagIsRightExactlyWhen`). A repeated minute can hide a gap
  (`BarCompleteness.RepeatedMinuteHidesAGap`) or make a bucket without one count as incomplete
  (`BarCompleteness.RepeatedMinuteSpoilsABucket`).
- Aggregating aggregated bars never completes one (`BarTwoStep.TwoStepsGiveOneStep`), so the two routes agree
  exactly when no coarse bucket holds as many bars as minutes, all completed
  (`BarCompleteness.TwoStepsAgreeExactlyWhen`); fifteen whole minutes are an input where they differ
  (`BarCompleteness.TwoStepsLoseCompleteness`).
- The budgets of a research cycle are checked before a round that may spend eight LLM calls or eight backtests,
  so a run keeps them exactly if no round of it costs more than is left
  (`ResearchBudgets.BudgetsKeptExactlyWhen`). No run exceeds them by more than seven
  (`ResearchBudgets.BudgetsHold`), and some do by seven (`ResearchOvershoot.CallsOvershootBySeven`,
  `ResearchOvershoot.BacktestsOvershootBySeven`).
- Fifty iterations, the default of `run_to_completion`, do not complete a new cycle with the default budget if
  nothing is discovered: it takes `max_trials` + 2, here 52 (`ResearchBudgets.NewCycleCompletes`).
- An approval request's `expires_at` is stored and never checked: approvals are timely exactly if the callers
  make no late one (`GovernanceLimits.ExpiryExactlyWhen`), and a late one has the effect of a timely one
  (`GovernanceLimits.LateApprovalExecutes`).
- A proposal is not executed once only. Requests are deduplicated by proposal and type alone
  (`GovernanceSafety.NoDoubledRequest`), so two types pay for two executions
  (`GovernanceLimits.TwoTypesTwoExecutions`). After any history a proposal can be executed `n` times more without
  another policy check exactly if its last check asked for a review, or if it is approved or has pending
  requests, `n` in all (`GovernanceLimits.RunsAgainExactlyWhen`). Proposals have one request each exactly if no
  call asked again (`GovernanceLimits.SingleExactlyWhen`); then executions exceed passed checks by one at most
  (`GovernanceLimits.SingleRequestSingleExecution`).
- A policy check uses the environment its caller names, not that of the agent task. A proposal of a live task can so be
  executed without approval (`GovernanceLimits.LiveTaskWithoutApproval`); naming another environment is harmless
  exactly if the kill switch is on or the kind needs review in both or in neither
  (`GovernanceLimits.NamedEnvironmentMatters`).
- The kill switch acts on policy checks alone. With it on, a proposal can be executed `n` times more under the
  same condition (`GovernanceLimits.KillSwitchStopsExactly`).
- The running peak of the drawdown loops is the worst of the earlier positive values, seen from a later value,
  exactly when that value is not negative or those positive values are all the same
  (`Drawdown.PeakIsWorstExactlyWhen`); of 1, 2 and -1 the loops make 150 per cent instead of 200
  (`Drawdown.NegativeValuesHideFalls`).
- A strategy whose `on_init` refuses its parameters has already stored them.
- A message buffer holds no more than its size exactly if that is positive or nothing was sent to the user: a size
  of nought keeps every message, because a slice from minus nought is the whole list, and a negative one keeps
  none (`MessageBuffer.BoundedExactlyWhen`).

## Model

| member | source | states |
|---|---|---|
| Bars.SortByStartIsStable | src/hqmts/backtest/engine.py:122-126 | Sorting by start time gives a chronological rearrangement of the same bars that keeps bars of equal start in their order |
| Bars.SortByStartOfSorted | src/hqmts/data/bar_builder.py:157-158 | A stream already in order is left as it is |
| Matcher.RoundToLotIsGreatest | src/hqmts/backtest/matcher.py:147-149 | Rounding gives the greatest lot multiple not above the quantity, for negative quantities too |
| Matcher.FillIsGreatestLot | src/hqmts/backtest/matcher.py:151-227 | A fill lies inside the daily price band, and its quantity is the greatest positive lot multiple within what was asked for, the cash, the volume share and the settled shares; an order that reached its limit on a traded bar is filled exactly when some positive lot multiple fits |
| Matcher.TradeableExactlyWhen | src/hqmts/backtest/cost.py:53-72 | An order can be traded exactly if its limit admits the open, the bar has volume and, given a previous close, the price after slippage is within the daily limit: that of special treatment, of a registration board, or the normal one |
| Matcher.FillTerms | src/hqmts/backtest/cost.py:25-31 | Every fill is at the open with slippage against the trader, within limit price and daily limit, pays commission on its amount with its minimum, and stamp tax on sales only |
| Matcher.NeverMoreThanAsked | src/hqmts/backtest/matcher.py:190-208 | A sized order is never filled for more than it asks |
| Matcher.SignalsThatTrade | src/hqmts/backtest/matcher.py:228-234 | Opening a long and closing a short buy, closing a long and opening a short sell settled shares, a flatten or a hold is not matched |
| Matcher.FitsIffBelow | src/hqmts/backtest/matcher.py:190-205 | The truncated caps of the code admit a quantity exactly when the untruncated products do |
| Matcher.MatchersAgree | src/hqmts/backtest/matcher.py:54-129 | The signal matcher and the order matcher fill an unsized market order alike, at one price, quantity and cost; only the reason for refusing unsettled shares can differ |
| Portfolio.ApplyFillSound | src/hqmts/backtest/portfolio.py:88-128 | Booking an allowed fill keeps all invariants: the log replays to cash and holdings, holdings are whole lots containing today's buys, average cost stays between the lowest and highest buy price since the holding was last flat, every buy was covered |
| Portfolio.ResetDaySound | src/hqmts/backtest/portfolio.py:180-183 | Starting a later day keeps them and makes everything bought so far sellable |
| Portfolio.SetStopsSound | src/hqmts/backtest/portfolio.py:152-160 | Setting or clearing stop levels keeps them |
| Portfolio.MarkAndSnapshotSound | src/hqmts/backtest/portfolio.py:138-145 | Marking to market and daily snapshots keep them |
| Portfolio.DayAccounts | src/hqmts/backtest/portfolio.py:104-115 | Holding at the open plus the day's buys less the day's sells is the holding now |
| Portfolio.NeverOversells | src/hqmts/backtest/portfolio.py:25-28 | From a sound book, no day's sells of an instrument exceed what it held at that day's open |
| Portfolio.BuyFloor | src/hqmts/backtest/matcher.py:191-196 | No buy starts from a deficit or leaves cash below minus its own commission |
| Portfolio.CashFloor | src/hqmts/backtest/cost.py:25-31 | If every sell brings in at least its costs, cash never falls below minus the largest commission of a buy |
| Portfolio.FillBooks | src/hqmts/backtest/portfolio.py:88-128 | A fill moves its amount between cash and shares, takes commission and tax from the cash either way, averages the cost of what is bought in by weight and touches no other position |
| Portfolio.RoundTripCosts | src/hqmts/backtest/portfolio.py:88-128 | Buying and selling again at an unchanged open leaves the holding as it was and costs twice the slippage of every share and what both fills are charged |
| PortfolioState.PortfolioState.GetOrCreatePosition | src/hqmts/backtest/portfolio.py:82-86 | Creates an empty slot once and returns the position held |
| PortfolioState.PortfolioState.ApplyFill | src/hqmts/backtest/portfolio.py:88-128 | Updates cash, position, cost and log as the booking function of the invariants says |
| PortfolioState.PortfolioState.UpdateMarketValueFromPrices | src/hqmts/backtest/portfolio.py:138-145 | Every position with a known price is marked, in whatever order they are visited, and nothing else changes |
| PortfolioState.PortfolioState.ResetDailyState | src/hqmts/backtest/portfolio.py:180-183 | Clears today's buys of every position and nothing else |
| PortfolioState.PortfolioState.SnapshotDaily | src/hqmts/backtest/portfolio.py:185-197 | Appends cash, market value summed over the positions, and their total |
| PortfolioState.PortfolioState.UpdateStopLossTakeProfit | src/hqmts/backtest/portfolio.py:152-160 | Sets only the levels given |
| PortfolioState.PortfolioState.CheckTriggers | src/hqmts/backtest/portfolio.py:162-178 | Lists the positions whose stop-loss or take-profit is hit, in slot order |
| EngineSoundness.MatchedFillAllowed | src/hqmts/backtest/engine.py:250-302 | Whatever the matcher fills is a fill the portfolio invariants allow |
| EngineSoundness.ProcessOrderSound | src/hqmts/backtest/engine.py:224-302 | Processing an order keeps the book sound for every risk outcome, force-flatten included |
| EngineSoundness.StepSound | src/hqmts/backtest/engine.py:147-202 | One bar keeps the state sound and makes its date the day in progress |
| EngineSoundness.EveryRunSound | src/hqmts/backtest/engine.py:96-222 | In every run, for any strategy and risk engine: no instrument sells more on a day than it opened with; holdings are whole lots containing today's buys; cash, holdings and average cost are what the trade log accounts for; every buy was covered |
| EngineSoundness.EveryRunCashFloor | src/hqmts/backtest/engine.py:96-222 | In every run, at every point of the log: no buy from a deficit, none below minus its commission, and the floor on cash |
| OrderLedger.ProcessOrderExplained | src/hqmts/backtest/engine.py:224-302 | An attempt that risk rejects is rejected, one it delays is delayed, one it answers with a flatten only sells; an executed attempt adds exactly one trade of its own, on the terms of its bar and no larger than the order, or risk resizing it, asks for; any other adds nothing |
| OrderLedger.DrainAccounted | src/hqmts/backtest/engine.py:180-199 | Working through the buffer neither loses nor duplicates an order |
| OrderLedger.EveryOrderAttemptedWithinBounds | src/hqmts/backtest/engine.py:182-199 | Every order emitted in a run is attempted at most four times, all attempts but the last are delays, it yields at most one trade of its own, and every attempt of the run did what its answer from risk says |
| OrderLedger.EmittedAreSettledOrWaiting | src/hqmts/backtest/engine.py:143-144 | At the end of every run the emitted orders are the settled and the waiting ones |
| OrderTiming.WaitsExactlyWhen | src/hqmts/backtest/engine.py:180-199 | At every point of every run an emitted order is waiting exactly if all attempts at it were delayed and there were fewer than four |
| OrderTiming.TriedOnEveryBar | src/hqmts/backtest/engine.py:180-199 | On every bar of a run but the first of its instrument, every order that goes on waiting was tried on that bar and delayed, if the bar is completed and of its instrument; the others wait on; whatever is tried is tried on that bar |
| OrderTiming.LevelsAreLastGiven | src/hqmts/backtest/engine.py:184-191 | Taking up the orders of a bar gives each instrument the last stop-loss and take-profit named for it, keeps a level where none is named, and numbers the orders in turn |
| OrderTiming.MergeHolds | src/hqmts/backtest/engine.py:113-126 | The merged stream has the bars of every instrument, together and in their order |
| OrderTiming.RefusedExactlyWhen | src/hqmts/backtest/engine.py:96-135 | A run is refused exactly without bars, or, if bad data is to be refused, with a price of nought |
| OrderTiming.FinalRow | src/hqmts/backtest/engine.py:203-222 | The last day gets its row when the run is over, at the marks as they stand, and nothing else changes |
| RunAccounts.AnswerDecides | src/hqmts/backtest/engine.py:224-268 | A rejection and a delay trade nothing; an order allowed or resized fares as that order fares without risk |
| RunAccounts.ExecutedExactlyWhen | src/hqmts/backtest/engine.py:269-302 | Without risk an order executes exactly if it can be traded at the bar and a positive lot multiple fits; else it is rejected and nothing is traded |
| RunAccounts.NoTradeWithoutLeave | src/hqmts/backtest/engine.py:224-268 | If risk rejects or delays every order it is asked about, no run trades anything |
| RunAccounts.RunGoesByLastClose | src/hqmts/backtest/engine.py:159-202 | At every point of every run the previous close and the latest price of an instrument are the close of its last bar, and there is none before its first |
| RunAccounts.FirstBarOnlySeeds | src/hqmts/backtest/engine.py:171-191 | On the first bar of an instrument no order is taken up or tried; on later bars every order of the strategy is taken up if the instrument is known |
| RunAccounts.DailyRowIsEquity | src/hqmts/backtest/portfolio.py:185-197 | When a day of a run ends, its row holds the initial cash and what the trades moved, the net shares of the log at the last closes, and their sum |
| ForcedSales.TriggeredExactlyWhen | src/hqmts/backtest/portfolio.py:31-42 | A position is triggered exactly if it has shares and a known price that is down to its stop-loss, or up to its take-profit |
| ForcedSales.ForceSellTerms | src/hqmts/backtest/engine.py:304-355 | A forced sale touches no other position, sells as many whole settled lots as the volume share allows and then clears the levels, or leaves the position and its levels |
| ForcedSales.EachSoldAlone | src/hqmts/backtest/engine.py:163-169 | Of several positions sold one after another each is sold as if it alone were |
| RunAccounts.FindLastIsLast | src/hqmts/backtest/engine.py:114-117 | Of several instruments of one id the last listed counts for orders and triggered levels |
| RunAccounts.FindFirstIsFirst | src/hqmts/backtest/engine.py:357-373 | For a flatten by risk it is the first listed |
| ForcedSales.FlattenSellsEach | src/hqmts/backtest/engine.py:357-373 | A flatten by risk does to every position what a forced sale of it alone would |
| ForcedSales.LevelsAreActedOn | src/hqmts/backtest/engine.py:162-169 | On a completed bar exactly the positions at one of their levels are sold, as far as whole settled lots fit into the volume share; on another bar none is |
| BacktestEngine.BacktestEngine.ProcessOrder | src/hqmts/backtest/engine.py:224-302 | The method does to portfolio and counters what the run's theorems speak of |
| BacktestEngine.BacktestEngine.ProcessSlTp | src/hqmts/backtest/engine.py:304-355 | Sells the whole settled holding at the target bar, clearing its levels, or leaves it |
| BacktestEngine.BacktestEngine.ForceFlattenAll | src/hqmts/backtest/engine.py:357-373 | Sells every settled holding it can, position by position |
| BacktestEngine.BacktestEngine.DrainBuffer | src/hqmts/backtest/engine.py:180-199 | The buffer loop refines the buffer function of the ledger theorems |
| BacktestEngine.BacktestEngine.Run | src/hqmts/backtest/engine.py:96-222 | The whole event loop refines the run of the theorems, with its refusals of empty input and unusable bars |
| Drawdown.CalcMaxDrawdown | src/hqmts/backtest/result.py:135-147 | The single pass computes the drawdown the lemmas below speak of |
| Drawdown.PeakIsWorstExactlyWhen | src/hqmts/backtest/result.py:138-146 | At each value the running peak sees the worst fall into it exactly when the value is not negative or the positive values so far are all the same |
| Drawdown.DrawdownIsGreatestFall | src/hqmts/backtest/result.py:135-147 | Where that holds at every value, as for any series without negative values, the result is the greatest percentage fall over all pairs of an earlier and a later value |
| Drawdown.DrawdownIsAFall | src/hqmts/backtest/result.py:141-146 | For any series the result is nought or the fall between two of its values |
| Drawdown.AtMostAll | src/hqmts/backtest/result.py:135-147 | A series without negative values never falls by more than 100 per cent |
| Drawdown.HigherPeakFallsFurther | src/hqmts/backtest/vectorized.py:182-194 | Seen from a higher peak a value that is not negative has fallen further, and a negative one less far |
| Drawdown.NegativeValuesHideFalls | src/hqmts/backtest/result.py:138-146 | Of 1, 2 and -1 the pass makes 150 per cent although -1 lies 200 per cent below 1 |
| Crossover.BufferIsEnough | src/hqmts/backtest/strategy.py:115-143 | For any history of bars and requests the buffer of slow + 1 closes gives the signals of the full history |
| Crossover.SignalsAlternate | src/hqmts/backtest/strategy.py:129-140 | OPEN_LONG and CLOSE_LONG strictly alternate, and the last one says which average is above |
| Crossover.SignalsFollowTheMeans | src/hqmts/backtest/strategy.py:122-143 | Asked after any history with enough closes, the strategy opens exactly if the fast mean of all closes has come to be above the slow one since it was last asked, and closes exactly if it has come not to be |
| Crossover.ParamsExactlyWhen | src/hqmts/backtest/strategy.py:101-113 | Which parameters are refused, and with which of the three errors |
| Crossover.DualMACrossoverStrategy.OnInit | src/hqmts/backtest/strategy.py:101-113 | Answers the three parameter errors in their order, resets only on success, and keeps refused parameters |
| Crossover.DualMACrossoverStrategy.OnBar | src/hqmts/backtest/strategy.py:115-120 | Appends and truncates as the buffer theorem's step |
| Crossover.DualMACrossoverStrategy.GenerateSignal | src/hqmts/backtest/strategy.py:122-143 | Compares the averages and remembers the side, as the buffer theorem's step |
| Vectorized.TradeLoop | src/hqmts/backtest/vectorized.py:94-146 | The loop refines the bar-by-bar function, portfolio values included |
| Vectorized.TradesAreRoundTrips | src/hqmts/backtest/vectorized.py:107-143 | Whatever bars the averages cross at, buys and sells strictly alternate, every sell closes exactly the position of the buy before it, on a later day |
| Vectorized.BuysAreCovered | src/hqmts/backtest/vectorized.py:119-130 | A buy is at most ten lots and covered by the cash before its commission |
| VectorizedAccounts.BuysTheGreatestLot | src/hqmts/backtest/vectorized.py:119-123 | What is bought is the greatest number of whole lots, ten at most, that the cash covers |
| VectorizedAccounts.CrossesAreActedOn | src/hqmts/backtest/vectorized.py:107-143 | A bar buys exactly if the averages cross upwards there, nothing is held and a lot can be afforded, and sells, everything, exactly if they cross downwards and what is held was bought on an earlier day |
| VectorizedAccounts.EveryBarAccounted | src/hqmts/backtest/vectorized.py:124-143 | At every bar the cash is the initial cash, what the trades moved and the commission and tax they were charged, and the position the bought less the sold shares |
| VectorizedAccounts.ValuesAreWorth | src/hqmts/backtest/vectorized.py:113-115 | The value recorded for a bar is that cash and that position at its close |
| Vectorized.PairingIsTrue | src/hqmts/backtest/vectorized.py:213-237 | Of round trips, the k-th sell closes the k-th buy, so pairing through a queue is the true pairing |
| Vectorized.CalcTradeStats | src/hqmts/backtest/vectorized.py:212-243 | The queue loop yields win rate, profit factor and trade count of sells paired with the buys of equal rank, with the early answers when one side is missing |
| Vectorized.StatsAreTrue | src/hqmts/backtest/vectorized.py:223-241 | Over every run, gross profit less gross loss is exactly the cash the closed round trips moved before costs, and with a loss the profit factor is above one exactly if that is positive |
| VectorizedAccounts.WinCountIsWinners | src/hqmts/backtest/vectorized.py:226-236 | The wins are the sells that fetched more than the buy of their rank cost |
| VectorizedAccounts.StatsMean | src/hqmts/backtest/vectorized.py:237-243 | Win rate is wins in a hundred sells, profit factor what was won for each unit lost, or what was won if nothing was lost |
| Reservation.ReservationManager.Reserve | src/hqmts/reservation/manager.py:71-137 | Reserves exactly when the amount fits the cash not yet reserved and the execution intent, if any, has no row on the account, and then adds exactly that row |
| Reservation.ReservationManager.Consume | src/hqmts/reservation/manager.py:139-179 | Consumes active rows only: adds the amount to what was consumed, and the row is then full exactly if that reaches what was reserved |
| Reservation.ReservationManager.Release | src/hqmts/reservation/manager.py:181-209 | Releases the row and leaves every other as it was |
| Reservation.ReservationManager.ExpireReservations | src/hqmts/reservation/manager.py:211-233 | Expires exactly the overdue active rows |
| ReservationProtocol.DeactivationOnlyLowers | src/hqmts/reservation/manager.py:152-166 | A write that deactivates a row lowers or keeps every account's total |
| ReservationProtocol.UnlockedStep | src/hqmts/reservation/manager.py:192-219 | The calls without a lock write nothing or deactivate one row |
| ReservationProtocol.CreateKeepsInv | src/hqmts/reservation/manager.py:100-135 | Storing a row keeps every total within the cash, because the lock kept the total it read current |
| ReservationProtocol.NeverOverReserved | src/hqmts/reservation/manager.py:100-135 | However reserve, consume, release and expire interleave, step by step, what is reserved on an account never exceeds its cash |
| ReservationProtocol.OnlyReserveRaises | src/hqmts/reservation/manager.py:71-135 | Only a reserve holding the account's lock ever raises the account's total |
| ReservationProtocol.LockIsExclusiveAndNeverLeaked | src/hqmts/reservation/manager.py:65-69 | At most one call per account is in the critical section, and the lock is held exactly while one is, a write refused by the unique index included |
| ReservationProtocol.NeverReactivated | src/hqmts/reservation/manager.py:139-233 | Whatever calls follow, rows keep account and amount, none is removed and no inactive one becomes active |
| ReservationProtocol.ReleasedForGood | src/hqmts/reservation/manager.py:181-209 | Under every interleaving, once a release of the row a reserve stored has come back, that row is there with the account and amount asked for and inactive from then on |
| ReservationProtocol.OneRowPerIntent | src/hqmts/db/models/reservation.py:18-19 | However calls interleave, an execution intent never has two reservations on one account |
| ReservationProtocol.SoloReserve | src/hqmts/reservation/manager.py:71-137 | A reserve nobody interrupts does what the manager's method does |
| ReservationProtocol.SoloConsume | src/hqmts/reservation/manager.py:139-179 | A consume nobody interrupts does what the manager's method does |
| ReservationProtocol.SoloRelease | src/hqmts/reservation/manager.py:181-209 | A release nobody interrupts does what the manager's method does |
| ReservationProtocol.SoloExpire | src/hqmts/reservation/manager.py:211-233 | An expiry nobody interrupts expires exactly the active rows whose time has passed, one at a step, and is then over |
| ExecutionService.ExecutionService.ProcessSignal | src/hqmts/execution/service.py:47-138 | An order comes out exactly if the signal passes screening and risk, its cash (when it opens a position) is reserved, the final check allows it and conversion works; it adds shares for a signal that opens a long or closes a short, takes shares off for one that closes a long, opens a short or flattens, and has the size risk or the caller set; a failed call leaves every total as it was, except that it leaks the whole reserved amount exactly when every release it tried raised |
| ExecutionService.ExecutionService.CheckAndConvert | src/hqmts/execution/service.py:91-138 | Places exactly what the final check allows and conversion accepts; any failure releases the reservation unless every release tried raised |
| ExecutionService.SidesAgree | src/hqmts/execution/converter.py:132-145 | Signals get the side the backtest matcher gives them; a flatten, which that does not match, sells; a hold has none |
| ExecutionService.CloseUndoesOpen | src/hqmts/execution/converter.py:132-145 | Orders placed for an opening and a closing signal of equal size leave nothing, long or short |
| ExecutionService.EffectIsThatOfATrade | src/hqmts/execution/converter.py:105-130 | What a placed order does to the net holding is what a trade of its side and size does to a trade log |
| ExecutionService.ExecutionService.SubmitOrder | src/hqmts/execution/service.py:140-181 | A refused order gives its cash back; without an adapter nothing happens |
| SignalProtocol.NoSignalKeepsItsRow | src/hqmts/execution/service.py:84-138 | However whole signals, their releases and other calls interleave, a signal that ends without an order has no active row of its own unless every release it made raised; one that ends with an order and opens a position has the row it asked for |
| SignalProtocol.RowsHaveOneOwner | src/hqmts/execution/service.py:84-95 | No row is the own row of two signals |
| SignalProtocol.SignalsNeverOverReserve | src/hqmts/reservation/manager.py:100-135 | With whole signals interleaving, too, what is reserved on an account never exceeds its cash |
| SignalProtocol.CheckDecides | src/hqmts/execution/service.py:91-138 | After the check only a signal let through ends with an order; any other releases its row, if it has one, and may try twice only after a refusal |
| SignalProtocol.ReleaseDecides | src/hqmts/execution/service.py:104-138 | A release that came back ends the signal; one that raised is followed by another if there may be one, and else the row is left |
| FinalCheck.Execute | src/hqmts/risk/final_check.py:99-254 | Every check is made and either passes or is reported; the failures reported are exactly the conditions that do not hold, in order, and the verdict follows their severity |
| FinalCheck.FailuresTellTheCause | src/hqmts/risk/final_check.py:222-247 | The failure names the verdict is decided by stand for exactly the conditions they are named after |
| FinalCheck.StandingReported | src/hqmts/risk/final_check.py:107-125 | The names for what is wrong about the strategy are reported exactly when it is |
| FinalCheck.ConnectionReported | src/hqmts/risk/final_check.py:133-149 | So are those for what is missing or wrong about adapter and account |
| FinalCheck.MeansReported | src/hqmts/risk/final_check.py:151-178 | So are the names for too few settled shares and for a reservation that does not hold |
| FinalCheck.ObstaclesReported | src/hqmts/risk/final_check.py:180-218 | So are those for conflicting orders, modes, the frequency limit and an old price |
| FinalCheck.AllowedExactlyWhen | src/hqmts/risk/final_check.py:99-254 | An order is let through exactly if the strategy is live, or on its way out and the order sells or flattens, nothing has expired, adapter, account and reservation are in order, no conflict, kill switch, close-only mode or frequency limit is in the way, its parameters make sense at a fresh price, and a sell is within the settled shares |
| FinalCheck.RefusalsBySeverity | src/hqmts/risk/final_check.py:222-254 | Which orders not let through are rejected, are to be tried again, or go to a human |
| RiskEngine.RiskEngine.Evaluate | src/hqmts/risk/engine.py:112-144 | The short-circuiting scan decides as a full scan of all rules; the listed rules are a prefix of the full list, and all of it when nothing forces a flatten |
| RiskEngine.BestIsStrictest | src/hqmts/risk/engine.py:83-91 | The decision is one of the answers, and none is stricter |
| RiskEngine.FullScanHolds | src/hqmts/risk/engine.py:108-110 | An answer appears in the full scan exactly when some rule gives it |
| RiskEngine.DecisionIgnoresRegistrationOrder | src/hqmts/risk/engine.py:104-144 | The kind of decision is the same for every order of registration |
| RiskEngine.SeverestWins | src/hqmts/risk/engine.py:83-144 | The decision is a flatten if any rule demands one, else a rejection, else a resize, else a delay, and without any of those an allowance |
| ForceFlatten.FlattenPassesFinalCheck | src/hqmts/risk/force_flatten.py:206-240 | A sellable task asks to sell its settled shares with the kill switch and close-only mode on, and passes the final check exactly when it names an instrument |
| ForceFlatten.FirstPassBalanced | src/hqmts/risk/force_flatten.py:121-175 | After a flatten every position is skipped, flattened or failed, and each counter is the number of tasks in that status |
| ForceFlatten.RetryPassOk | src/hqmts/risk/force_flatten.py:177-200 | A retry leaves every task alone that had not failed, never exceeds the attempts allowed, and keeps the sum of flattened and failed tasks |
| ForceFlatten.RetryBalanced | src/hqmts/risk/force_flatten.py:177-200 | The counters balance again after any retry of a balanced flatten, and tasks that had not failed are as before |
| ForceFlatten.OnlyTheServiceFails | src/hqmts/risk/force_flatten.py:216-258 | A due task that names an instrument fails exactly if the order service refuses the very submission made for it |
| ForceFlatten.TriedExactlyWhen | src/hqmts/risk/force_flatten.py:104-200 | A task is tried exactly if, the first time, more shares are available than were bought today, and on a retry if it failed and has tries left; every try is counted and settles the task |
| ForceFlatten.SubmissionsAreNumbered | src/hqmts/risk/force_flatten.py:216-258 | The order service is asked once for each task tried that names an instrument, in the order of the tasks |
| ForceFlatten.ForceFlattenService.ExecuteFlatten | src/hqmts/risk/force_flatten.py:91-175 | The flatten on record is the pass of the theorems, under a new id |
| ForceFlatten.ForceFlattenService.RetryFailed | src/hqmts/risk/force_flatten.py:177-200 | The retry is the pass of the theorems; an unknown id changes nothing |
| ResearchBridge.GroupDiscoveries | src/hqmts/research/bridge.py:222-231 | One group for every pattern that occurs, each holding its discoveries in order |
| ResearchBridge.CandidatesPartitionDiscoveries | src/hqmts/research/bridge.py:171-220 | Every discovery lands in exactly one candidate, with its multiplicity; at most eight candidates, at least one if there is a discovery |
| ResearchVerdicts.PatternByWords | src/hqmts/research/bridge.py:77-94 | Which pattern the words of the factor names stand for, with the order in which they are looked for |
| ResearchVerdicts.SomeNameContains | src/hqmts/research/bridge.py:79-93 | The joined names contain a word exactly if one of the names does, whatever its case |
| ResearchLoop.SynthesisSpends | src/hqmts/research/autonomous_loop.py:360-370 | Synthesis spends between one and eight calls, keeps the earlier candidates and puts every significant discovery into exactly one new one |
| ResearchLoop.TickStaysOnTable | src/hqmts/research/autonomous_loop.py:496-520 | A tick never leaves the transition table, never changes a terminal cycle, and waits exactly while a listed candidate has no result |
| ResearchLoop.TickProgress | src/hqmts/research/autonomous_loop.py:120-167 | Every tick of a live cycle waits or brings the measure of calls left, trials left and phase down |
| ResearchLoop.EveryRunEnds | src/hqmts/research/autonomous_loop.py:120-167 | However discoveries and results arrive, a cycle is terminal once as many ticks have not waited as its initial measure says |
| ResearchLoop.EveryNewCycleEnds | src/hqmts/research/autonomous_loop.py:169-206 | From a new cycle that takes at most 6 * max_llm_calls + max_trials + 4 ticks that do not wait |
| ResearchLoop.NeverForced | src/hqmts/research/autonomous_loop.py:509-516 | The forcing branch is never taken in any run |
| ResearchLoop.TerminalAbsorbs | src/hqmts/research/autonomous_loop.py:139-148 | A terminal state absorbs the rest of every run |
| ResearchVerdicts.NextStatus | src/hqmts/research/autonomous_loop.py:120-319 | The status after a tick in every status: archived once a budget is spent, on with a significant discovery, with a generated candidate, with no listed candidate lacking its result |
| ResearchVerdicts.TableIs | src/hqmts/research/autonomous_loop.py:53-77 | The edges of the transition table |
| ResearchVerdicts.JudgedOnItsNumbers | src/hqmts/research/bridge.py:264-303 | A tick judges exactly the listed candidates not judged yet, once each listed one has its result, on the numbers stored then, and touches no other |
| ResearchVerdicts.OutcomeByNumbers | src/hqmts/research/autonomous_loop.py:457-475 | In every run of a new cycle, a tick that finds it evaluating within its budget promotes it exactly if a listed candidate was judged on a Sharpe ratio of at least 0.8, a drawdown of at most 0.10 and 30 trades or more; else it researches again exactly if one had a Sharpe ratio of at least 0.4; else it is archived |
| ResearchVerdicts.PromotedOnNumbers | src/hqmts/research/autonomous_loop.py:457-475 | A run is promoted only with such a candidate |
| ResearchBudgets.TickSpends | src/hqmts/research/autonomous_loop.py:323-411 | What every tick adds to trials, calls and backtests: one for a failed search, one for each pattern of a synthesis, one for each open candidate of a finished round |
| ResearchBudgets.BudgetsHold | src/hqmts/research/autonomous_loop.py:477-488 | In every run trials never exceed their budget, calls and backtests theirs by at most seven |
| ResearchBudgets.NewCycleWithinBudget | src/hqmts/research/autonomous_loop.py:477-488 | So it is from every new cycle whose budgets are not negative |
| ResearchBudgets.BudgetsKeptExactlyWhen | src/hqmts/research/autonomous_loop.py:150-162 | A run keeps its call budget exactly if no synthesis has more patterns than calls are left, and its backtest budget exactly if no round has more open candidates than backtests are left |
| ResearchOvershoot.KeywordNames | src/hqmts/research/bridge.py:77-94 | A keyword stands for its own pattern unless an earlier keyword starts inside it |
| ResearchOvershoot.PatternsOfKinds | src/hqmts/research/bridge.py:77-94 | Eight discoveries, each named by one keyword, are of eight patterns |
| ResearchOvershoot.CallsOvershootBySeven | src/hqmts/research/autonomous_loop.py:360-370 | A new cycle with a budget of one call that has made eight after three ticks |
| ResearchOvershoot.BacktestsOvershootBySeven | src/hqmts/research/autonomous_loop.py:447-455 | A new cycle with a budget of one backtest that has counted eight after five ticks |
| ResearchLoop.CompletionIsARun | src/hqmts/research/autonomous_loop.py:522-533 | Running to completion is a run of ticks, stops early only in a terminal state, and reaches one if the limit covers the measure and nothing waits |
| ResearchBudgets.NewCycleCompletes | src/hqmts/research/autonomous_loop.py:522-533 | With nothing discovered, running a new cycle to completion completes it exactly if the limit is at least max_trials + 2, or one if some budget is nought |
| ResearchBudgets.FiftyTicksDoNotSuffice | src/hqmts/research/autonomous_loop.py:522-533 | With the default budget it takes 52 iterations, not the default of fifty |
| ResearchBudgets.NothingPendingCompletes | src/hqmts/research/autonomous_loop.py:522-533 | Any cycle with nothing to synthesize from and nothing to wait for completes within as many iterations as its measure |
| ResearchLoop.AutonomousResearchLoop.TickCycle | src/hqmts/research/autonomous_loop.py:120-167 | The tick on the stored record is the tick of the theorems; an unknown cycle changes nothing |
| ResearchLoop.AutonomousResearchLoop.DecideAction | src/hqmts/research/autonomous_loop.py:224-319 | Decides as the tick of the theorems |
| ResearchLoop.AutonomousResearchLoop.ExecuteAction | src/hqmts/research/autonomous_loop.py:323-411 | Executes as the tick of the theorems, in every branch |
| ResearchLoop.AutonomousResearchLoop.EvaluateAllCandidates | src/hqmts/research/autonomous_loop.py:447-455 | Evaluates the listed candidates that have results, in place, and counts them |
| ResearchLoop.AutonomousResearchLoop.RunToCompletion | src/hqmts/research/autonomous_loop.py:522-533 | The loop is the bounded run of the theorems |
| BarBuckets.DayBoundariesTile | src/hqmts/data/bar_builder.py:66-100 | For every cycle the boundaries of a day cover exactly its two sessions, each second once, in order |
| BarBuckets.DayBoundariesFull | src/hqmts/data/bar_builder.py:84-98 | All buckets have the full width of the cycle and last 240 minutes together |
| BarBuckets.SessionHours | src/hqmts/data/bar_builder.py:37-63 | The sessions are from 9:30 to 11:30 and from 13:00 to 15:00 |
| BarBuckets.BucketsADay | src/hqmts/data/bar_builder.py:66-100 | A day has 240, 48, 16, 8 or 4 buckets of one, five, fifteen, thirty or sixty minutes |
| BarBuckets.SummaryMeans | src/hqmts/data/bar_builder.py:181-206 | The bar of a bucket has the first open, the last close, the highest high and the lowest low that occur, and counts as completed exactly if it has one bar for every minute, all completed |
| BarBuckets.WithinSplit | src/hqmts/data/bar_builder.py:172-176 | In a chronological stream the bars of adjacent intervals follow one another |
| BarAggregation.BucketsHoldTheSession | src/hqmts/data/bar_builder.py:161-176 | The buckets of all days of a stream hold exactly its in-session bars, each once and in order |
| BarAggregation.SummariesKeepOhlcv | src/hqmts/data/bar_builder.py:181-186 | Summarising bucket by bucket keeps open, high, low, close, volume and amount of the whole |
| BarAggregation.AggregatedAsAWhole | src/hqmts/data/bar_builder.py:157-186 | The aggregated bars as a whole open with the first in-session bar, close with the last, and carry their highest high, lowest low and totals |
| BarAggregation.AggregationConserves | src/hqmts/data/bar_builder.py:142-212 | Aggregated volume and amount are those of the in-session bars, whatever the order, spacing or repetition of the input |
| BarTwoStep.TwoStepsGiveOneStep | src/hqmts/data/bar_builder.py:142-212 | Aggregating by way of a finer cycle gives the bars of one step with every completeness flag cleared |
| BarCompleteness.TwoStepsAgreeExactlyWhen | src/hqmts/data/bar_builder.py:188-192 | The two routes agree completely exactly when no coarse bucket of any day holds as many bars as minutes, all completed |
| BarCompleteness.TwoStepsAgreeOnMinutes | src/hqmts/data/bar_builder.py:188-192 | With at most one bar a minute: exactly when every coarse bucket lacks a completed bar in some minute |
| BarCompleteness.TwoStepsLoseCompleteness | src/hqmts/data/bar_builder.py:188-192 | Fifteen whole minutes for which the routes differ |
| BarCompleteness.FlagIsRightExactlyWhen | src/hqmts/data/bar_builder.py:188-192 | For any list of bars a completeness flag is right exactly when no minute of its bucket is repeated, or the bucket is neither full of completed bars nor covered minute by minute |
| BarCompleteness.MinutesDone | src/hqmts/data/bar_builder.py:188-192 | A stretch of minutes with at most one bar each is complete exactly when every minute has a completed bar |
| BarCompleteness.CompletedMeansEveryMinute | src/hqmts/data/bar_builder.py:188-192 | With at most one bar a minute, in any order, a bar is completed exactly when every minute of its bucket has a completed bar |
| BarCompleteness.RepeatedMinuteHidesAGap | src/hqmts/data/bar_builder.py:188-192 | Of the minutes 0, 0, 1, 2 and 3 a completed five-minute bar is made, with no bar in the fifth minute |
| BarCompleteness.RepeatedMinuteSpoilsABucket | src/hqmts/data/bar_builder.py:188-192 | Of the minutes 0, 0, 1, 2, 3 and 4 an incomplete five-minute bar is made, with every minute covered |
| BarBuilder.GenerateOneMinuteSlots | src/hqmts/data/bar_builder.py:37-63 | The 240 one-minute slots are the one-minute boundaries |
| BarBuilder.GenerateCycleBoundaries | src/hqmts/data/bar_builder.py:66-100 | Stepping through the sessions gives the boundaries of the tiling theorem |
| BarBuilder.GroupByDate | src/hqmts/data/bar_builder.py:161-165 | The days ascend, none is missing, and each group holds that day's bars in order |
| BarBuilder.OnlyDaysWithBars | src/hqmts/data/bar_builder.py:169-212 | Going through the days that have bars is going through all days from the first bar's to the last's |
| BarBuilder.Aggregate | src/hqmts/data/bar_builder.py:142-212 | The method is the aggregation of the theorems |
| SlidingWindow.ToolGateway.CheckRateLimit | src/hqmts/agent/gateway.py:205-228 | Evicts, prunes, decides and records as the step of the theorems; a refused call leaves its own entry alone |
| SlidingWindow.EvictionChangesNothing | src/hqmts/agent/gateway.py:209-224 | On a monotone clock the gateway admits exactly the calls a limiter with the full history admits |
| SlidingWindow.AtMostLimitPerMinute | src/hqmts/agent/gateway.py:218-228 | In any half-open minute at most the limit of calls of one task is admitted |
| SlidingWindow.AdmittedExactlyWhen | src/hqmts/agent/gateway.py:205-228 | On a monotone clock the last call of any history is admitted exactly if fewer calls of its task than the limit were admitted in the sixty seconds before it |
| SlidingWindow.StaleTasksGo | src/hqmts/agent/gateway.py:209-215 | What a call forgets of the other tasks: nothing while a thousand or fewer are known, else exactly those not admitted a call within the last two minutes |
| TokenBucket.TokensInRange | src/hqmts/data/client.py:47-51 | The tokens stay between nought and the calls per minute |
| TokenBucket.GrantsInInterval | src/hqmts/data/client.py:29-51 | In any interval of L seconds at most calls_per_minute + L * calls_per_minute / 60 acquisitions are granted, whatever came before and however many wait |
| TokenBucket.Accrues | src/hqmts/data/client.py:47-51 | After L idle seconds the bucket holds what it held and L * calls_per_minute / 60, at most calls_per_minute |
| TokenBucket.GrantedExactlyWhen | src/hqmts/data/client.py:36-45 | A poll is granted exactly if that makes a whole token, and takes it |
| TokenBucket.NothingGranted | src/hqmts/data/client.py:36-43 | With no calls allowed nothing is granted |
| TokenBucket.RefusedOnlyBriefly | src/hqmts/data/client.py:36-45 | Polls are refused for less than the time one token takes to accrue |
| TokenBucket.TushareRateLimiter.TryAcquire | src/hqmts/data/client.py:38-43 | One pass of the loop is the poll of the theorems |
| TokenBucket.TushareRateLimiter.Acquire | src/hqmts/data/client.py:36-45 | A lone waiter is served by the first poll after one token has accrued, and the tokens are then what the elapsed time says less one |
| GovernanceSafety.PipelineEffect | src/hqmts/agent/service.py:417-501 | What the whole pipeline adds to the tables, in each of its outcomes |
| GovernanceSafety.PipelineNeverRefused | src/hqmts/agent/service.py:417-501 | After every history it rejects, asks for approval or executes, and is never refused |
| GovernanceSafety.LivePipelineNeverExecutesGated | src/hqmts/agent/service.py:248-259 | The live pipeline never executes a proposal of the five gated kinds, whatever approver is named, and leaves a pending request |
| GovernanceSafety.PipelineExecutesExactlyWhen | src/hqmts/agent/service.py:202-265 | After every history that leaves the kill switch off: the live pipeline executes exactly if the kind is none of the five, whatever approver is named; the paper one exactly if an approver is named or the kind is none of the three; the others always; else a pending request is left |
| GovernanceSafety.StepsExactlyWhen | src/hqmts/agent/service.py:107-413 | In which status of its record each single step is accepted |
| GovernanceSafety.DecisionByName | src/hqmts/agent/service.py:307-347 | The four decisions a pending request takes, by name, and what each does to the request and its proposal |
| GovernanceSafety.LapsesWithTheDay | src/hqmts/agent/service.py:288-295 | A request without an expiry given lapses with the last second of the day it is made |
| GovernanceSafety.KillSwitchStopsPipeline | src/hqmts/agent/service.py:214-222 | With the kill switch on the pipeline executes nothing in any environment |
| GovernanceSafety.KillSwitchIsAsLastSet | src/hqmts/agent/service.py:210-222 | In every history the kill switch is what it was last set to, and off before |
| GovernanceSafety.CallPays | src/hqmts/agent/service.py:162-413 | From any store, a call makes executions of a proposal, or readiness for one, only as far as it passes a policy check of it or approves a request for it |
| GovernanceSafety.EveryExecutionIsPaidFor | src/hqmts/agent/service.py:361-386 | From any store on, a proposal is executed at most once more for being approved at the start, once for each policy check of it that passes and once for each request approved |
| GovernanceSafety.EveryHistoryIsPaidFor | src/hqmts/agent/service.py:361-386 | In every history a proposal is executed at most as often as the calls passed a policy check of it or approved a request for it, and each execution uses up one not yet used |
| GovernanceSafety.GatedNeedsApproval | src/hqmts/agent/service.py:202-265 | A proposal about which every call asks the policy for an environment where its kind needs review is executed at most once for every approved request |
| GovernanceSafety.GatedByNameNeedsApproval | src/hqmts/agent/service.py:230-259 | The same by name: for the five kinds asked about for live trading, and the three asked about for live or paper trading |
| GovernanceSafety.NoDoubledRequest | src/hqmts/db/models/approval_request.py:18-25 | In every history no proposal has two requests of one type |
| GovernanceSafety.OneExecutionForEachType | src/hqmts/agent/service.py:361-386 | In every history a proposal is executed at most once for each policy check of it that passed and once for each type under which it was approved |
| GovernanceSafety.DecidedStaysDecided | src/hqmts/agent/service.py:319-331 | In every history a decided request and a finished execution never change again |
| GovernanceLimits.KillSwitchStopsExactly | src/hqmts/agent/service.py:214-222 | With the kill switch on, some further calls that leave it on execute a proposal n times exactly if its last check asked for a review or it is approved or has pending requests, n in all |
| GovernanceLimits.NamedEnvironmentMatters | src/hqmts/agent/service.py:162-184 | Naming another environment than the agent task's changes nothing exactly if the kill switch is on or the kind needs review in both or in neither |
| GovernanceLimits.LiveTaskWithoutApproval | src/hqmts/agent/service.py:224-229 | Three calls execute a proposal of a live task, of any gated kind, with no request for approval |
| GovernanceLimits.ExpiryExactlyWhen | src/hqmts/agent/service.py:274-331 | In every history all approvals are timely exactly if no call approved a request after it had expired |
| GovernanceLimits.LateApprovalExecutes | src/hqmts/agent/service.py:307-347 | A late approval differs from a timely one in the recorded time alone, and the proposal is executed |
| GovernanceLimits.TwoTypesTwoExecutions | src/hqmts/agent/service.py:267-345 | Two requests of different types for one proposal, approved, execute it twice; a second one of the same type is refused |
| GovernanceLimits.RunsAgainExactlyWhen | src/hqmts/agent/service.py:267-386 | After any history, some calls without a policy check of a proposal execute it n times more exactly if its last check asked for a review or it is approved or has pending requests, n in all |
| GovernanceLimits.SingleExactlyWhen | src/hqmts/db/models/approval_request.py:18-25 | No proposal has two requests exactly if no call of the history asked for one that had a request |
| GovernanceLimits.SingleRequestSingleExecution | src/hqmts/agent/service.py:361-386 | Then a proposal is executed at most once more often than a policy check of it passed |
| GovernanceService.AgentGovernanceService.EvaluateProposalPolicy | src/hqmts/agent/service.py:162-200 | The stored proposal and the outcome are those of the step the theorems speak of |
| GovernanceService.AgentGovernanceService.ProcessApprovalDecision | src/hqmts/agent/service.py:307-347 | The same for decisions, with every refusal |
| GovernanceService.AgentGovernanceService.ExecuteApprovedProposal | src/hqmts/agent/service.py:351-386 | The same for executions |
| GovernanceService.AgentGovernanceService.CompleteControlledExecution | src/hqmts/agent/service.py:388-413 | The same for completing an execution |
| GovernanceService.AgentGovernanceService.RunFullPipeline | src/hqmts/agent/service.py:417-501 | The method composes the steps as the pipeline of the theorems |
| MessageBuffer.ConnectionManager.BufferMessage | src/hqmts/api/ws_manager.py:86-100 | Numbers the message next in its user's log and keeps every user's buffer the trimmed log |
| MessageBuffer.ConnectionManager.GetBufferedMessages | src/hqmts/api/ws_manager.py:102-105 | Returns exactly what was missed and is still kept |
| MessageBuffer.ReplayIsMissed | src/hqmts/api/ws_manager.py:86-105 | Replay is the part of the log after what was seen that the buffer still holds, for every buffer size |
| MessageBuffer.BoundedExactlyWhen | src/hqmts/api/ws_manager.py:97-100 | The buffer holds no more than its size exactly if that is positive or nothing was sent; a negative size keeps nothing |
| MessageBuffer.NoGapInsideBuffer | src/hqmts/api/ws_manager.py:97-105 | While the client is no further back than the buffer reaches, replay is the messages after the last one seen, numbered without a gap |

## Left out

- Drawdown.DrawdownIsGreatestFall: the bound over pairs is stated under the condition of Drawdown.PeakIsWorstExactlyWhen at every value; a fall missed at one value may still be outdone at another.
- ExecutionService.ExecutionService.ProcessSignal: validation for live trading and the risk verdict are inputs, not computed from their services; it is the call as it runs alone, and other coroutines in between are the subject of SignalProtocol.
- The unique index on proposals (agent task, type and target object): targets are not modelled, so each proposal stands for one whose target its task has not proposed for before, and no theorem is about a refusal.
- Limits on the length of text columns: the type of a request is any string, so there is always a new one.
- Rolling back a database session after a write its unique index refused; the write itself changes nothing.
- A research budget's `max_duration_hours`, a stored field that no code reads.
- Rounding of Decimal and float, Sharpe ratio, annualised return, win rate and profit factor of the result builder.
- Moving averages of the vectorised backtester: the bars at which the averages cross are an arbitrary input of its loop.
- Text of rationales, templates, parameter suggestions and scores of strategy candidates; error texts of force-flatten tasks.
- The linked research project and the list of discovery ids a cycle records; cancelling a cycle is an event of the environment.
- Tasks interleaving inside one tick of the research loop or one governance call: both run as one step.
- Paper trading, the external-trade detector and the reconciliation service: members easier than those proved here.
- Validation of names and ranges when a governance record is built (environment names, confidence); times in those records other than the expiry and the decision of a request.
- The tool gateway's permission, schema and policy checks around its rate limit; the other state-machine tables.
- Frontend, REST routes, database models, message bus, logging, authentication, configuration, LLM adapters.
