# Verified model of the trading fleet's ledgers, replay and safety protocols

This project models, in Dafny, the parts of the repository in which state is kept over time and money or safety depends on it, and proves what holds over whole runs.

* **The ledger and its accountings.** `Portfolio` applies fills and redemptions to the trades, positions, orders and events tables; `Fifo` is the lot matching that the position update, the realised-P&L query and the orphan detection each replay; `Ledger` proves, for sessions of one fill each, that the incremental positions agree with the replay and that money is conserved; `Sessions` says exactly when a session of several fills does as well, `SessionRuns` carries that through whole runs of such sessions, and `LateFills` says exactly when a fill that comes late does. `Spellings` shows that only the word a side begins with matters, `LedgerLaws` what each row, order and event comes from, and `PollContents` what a poll stores. `Dashboard`, `ArchivedVariants` and `Backtester` model the other accountings of the same trades, with exact statements of how far they differ. `FillImport` models polling for fills, `Drawdown` the one-pass drawdown.
* **The recorder replay.** `Quarantine` (gaps and merged windows), `EventMerge` (the two-cursor merge with an inline filter) and `Calibration` (rolling imbalance per subscription and the expectancy counts), joined in one end-to-end theorem; `Recording` holds it against the recording itself, reconnects that quarantine drops included, and `ImbalanceLaws` says what an imbalance is and where it is counted in terms of the recorded sizes.
* **The execution ladder.** `ExecPolicy` is the policy and its manager, `LadderRuns` and `LadderLaws` the laws of every run and every tick of it.
* **Protocols.** `TokenBucket` (threads competing for a rate limit), `Fleet` (racing bots under an exposure cap), `Watchdog` and `WatchdogLaws` (halts, cancels, throttled alerts), `Notify` and `NotifyLaws` (two-step unhalt), `PythIngest` (streaming bars).

`Sums`, `Sorting`, `Decimals` and `Trades` hold what these share.

## Reading guide

Objects that the source updates in place are classes; every method's `ensures` gives the new state as a function of the old one, and the theorems are lemmas about those functions over all runs. Prices, sizes, fees, clock readings and flows are `real`; times stored as integers are `int`. Results of I/O (the exchange feed, the Telegram handler, the checks of the watchdog, the strategy's decisions, clock readings) are inputs. `hide` clauses only keep proofs cheap.

Where code and documentation disagree, the model follows the code:

* `core/db.py:284` builds sessions that do not flush before a query. `flush` is a parameter of the model; the deployed setting is `false`. For `on_fill`, which has a session for each fill, this means that the replay inside a partial SELL does not see the SELL just added, and the exact excess of the cost basis is proved. A poll books its whole feed in one session: its queries select among committed rows by their committed values, so a second BUY of a fresh token opens a second row, a SELL of what was just bought finds no position, and a row sold out and bought again stays CLOSED with a positive size. For every feed it is proved exactly when none of this happens. A repeated id violates the primary key at the commit (`core/db.py:101`), so the poll raises and leaves the tables as they were; so does, flushing or not, a fill that names an order the fleet never recorded, by the foreign key (`core/db.py:103`, enforced by `core/db.py:267`).
* `core/fleet.py:28-31` says that racing bots are serialised by the database. Checks are separate from placements, so the cap can be exceeded; the exact amount is proved for every cap, every largest order and every number of bots. The check is also said to read one atomic transaction (`core/fleet.py:12`); it reads positions and orders in two queries, and a fill in between lets even a single bot exceed the cap.
* `core/exec_policy.py:273-276` speaks of a cancel count that exceeds the limit and of an empty result; the breaker trips on reaching the limit, and the tick that trips it still returns its actions. CANCELLED and FROZEN are not final.
* `core/backtest_bot_e.py:165-168` means quarantine to keep reconnects from poisoning the calibration. It drops the reconnect rows themselves as well, so a subscription's state can outlive a recorded reconnect; when it does is proved exactly.
* `core/watchdog.py:713-715` says the halt time advances on every tick; it advances only on a transition. The reason of a halted bot need not carry the watchdog prefix.
* `core/portfolio.py:378-381` compares an order's size with the current fill alone, so the modelled order status is not cumulative. `core/portfolio.py:544-545` restricts trades by `since`, but `core/portfolio.py:611-618` adds every redemption; `RealisedPnl` keeps that.

## Model

| member | source | states |
|---|---|---|
| Fifo.MatchConserves | core/portfolio.py:577-588 | for any lots and any SELL: matched plus remaining size is the SELL, and consumed plus left-over size and cost are what the lots held |
| Fifo.MatchQuantity | core/portfolio.py:577-588 | with positive lots exactly the smaller of SELL and holding is matched, and the rest of the lots stays positive |
| Fifo.ReplayHolds | core/portfolio.py:555-588 | the open lots of a replay add up to an independent running balance that is cut off at zero |
| Fifo.RemainderIsExcess | core/portfolio.py:228-236 | what the matching loop cannot match is the part of the SELL beyond that balance |
| Fifo.ReplayAllAt | core/portfolio.py:550-588 | a token's lots, gains and fees depend on that token's trades only, however tokens interleave |
| Fifo.InterleavingIrrelevant | core/portfolio.py:550-609 | two histories that agree token by token have the same accounts for all tokens |
| Fifo.RealisedIsCash | core/portfolio.py:555-609 | for every history, oversells included, realised P&L is net cash plus open lot cost less the notional of unmatched SELL remainders |
| Fifo.QuantitiesBalance | core/portfolio.py:555-609 | per token, bought is matched plus open and sold is matched plus orphaned |
| Trades.ProcessingOrder | core/portfolio.py:547-548 | rows are processed by time, and those of one time by their ids in the character order of strings |
| Trades.StorageOrderIrrelevant | core/portfolio.py:547-548 | for rows with different ids that order does not depend on how they are stored |
| Decimals.NearestEven | core/portfolio.py:452 | rounding takes the nearest multiple, and of two that are equally near the even one |
| Spellings.SidesExactly | core/portfolio.py:410-420 | a side counts as BUY exactly if it is the word alone or the word, an underscore or a hyphen, and anything; SELL likewise |
| Spellings.SpellingIsIrrelevant | core/portfolio.py:410-420 | histories that differ in how sides are spelled, booked in one session or one by one, flushing or not, leave the same positions, orders and events, the same realised P&L and the same orphans |
| Spellings.SpelledFill | core/portfolio.py:417-420 | one fill spelled with any suffix does to the account and the tables what the plain word does |
| Spellings.OtherSidesChangeNothing | core/portfolio.py:422-454 | a trade of any other side costs its fee and leaves lots, positions and events alone |
| Portfolio.MatchLots | core/portfolio.py:577-588 | the in-place matching loop yields the lots, the remainder and the gain of the recursive matching |
| Portfolio.OpenLots | core/portfolio.py:473-496 | the replay inside a partial SELL, for rows in any order, leaves the lots of the time-ordered replay |
| Portfolio.FindOpen | core/portfolio.py:402-407 | the row found is OPEN and of that bot and token, and none is found only if there is none |
| Portfolio.Portfolio.OnFill | core/portfolio.py:335-383 | a fill in a session of its own leaves the tables untouched if its id is stored or it names an order that is not, else commits the specified trades, positions, orders and events |
| Portfolio.Portfolio.DoOnFill | core/portfolio.py:335-383 | one fill inside a session whose queries see either all the session did or only committed rows |
| Portfolio.Portfolio.Commit | core/db.py:98-103 | a commit stores all of a session, or nothing if a trade id would be stored twice or a trade would name an order that is not stored |
| Portfolio.Portfolio.ApplyToPosition | core/portfolio.py:385-500 | opens a row, or updates the row its query finds, with the FIFO cost of the visible trades on a partial SELL and an event on a SELL that finds nothing to sell |
| Portfolio.Portfolio.OnRedeem | core/portfolio.py:502-522 | marks the row redeemed and records proceeds and cost basis, and does nothing for an unknown row |
| Portfolio.Portfolio.GetRealisedPnl | core/portfolio.py:525-618 | the loops over lots, fees and events compute FIFO realised P&L of the selected trades plus all redemptions of the bot |
| Portfolio.Portfolio.DetectOrphanSells | core/portfolio.py:191-249 | reports exactly the old enough SELLs that exceed the running balance of their token, with the excess |
| Portfolio.OrphansExplainGap | core/portfolio.py:191-249 | without an age limit, the reported orphans carry exactly the notional that realised P&L leaves out |
| LedgerLaws.RowsComeFromBuys | core/portfolio.py:422-472 | after every run each row belongs to a stored BUY of its bot, token and condition and has the outcome its market gives, and a CLOSED row holds nothing |
| LedgerLaws.ReportedExactly | core/portfolio.py:454-465 | after every run the next fill is reported as a SELL without position exactly if it is a SELL and the running balance is zero |
| LedgerLaws.SessionReportsExactly | core/portfolio.py:454-465 | within a session a SELL of a stored row is reported exactly if the session has sold all of it |
| LedgerLaws.OrderFollowsLastFill | core/portfolio.py:374-382 | whatever filled before, an order is FILLED or PARTIAL as its size compares with its last fill alone, in one session or several |
| LedgerLaws.TwoHalvesStayPartial | core/portfolio.py:374-382 | two fills that make up an order in full leave it PARTIAL |
| LedgerLaws.RedeemExactly | core/portfolio.py:502-522 | a redemption keeps size and cost of its row, touches no other, and records the proceeds against that cost |
| LedgerLaws.SinceIsRestriction | core/portfolio.py:543-548 | a bounded realised P&L is the unbounded figure of exactly the trades at or after the bound |
| LedgerLaws.QueriesIgnoreStorageOrder | core/portfolio.py:473-479 | realised P&L, the FIFO cost of a partial SELL and the rows of the orphan report are the same for every stored order of the trades |
| LedgerLaws.OrphansAreSells | core/portfolio.py:208-248 | the orphan report lists exactly the SELLs up to the cutoff that sell more than was held of their token, each with that excess |
| LedgerLaws.OrphansByAge | core/portfolio.py:236-238 | its age limit only leaves out what is younger |
| Ledger.PositionAgreesWithReplay | core/portfolio.py:385-500 | after every run of single-fill sessions with in-order fills, and redemptions, the OPEN position has the size of the running balance and the cost of the replayed lots (plus the cost of the last partial SELL if queries do not flush), and its average price times size is off by at most half a unit of the eighth decimal per share |
| Ledger.StaleByConsumedCost | core/portfolio.py:471-500 | without flushing, right after a partial SELL that has its own session the cost basis is too high by exactly the cost that SELL consumed |
| Ledger.LedgerConservation | core/portfolio.py:525-618 | after every run of single-fill sessions, realised P&L is net cash plus redemption proceeds plus the cost basis of OPEN positions, less orphaned notional and less the staleness of the bases |
| Ledger.RealisedOfSorted | core/portfolio.py:547-548 | sorting all trades of a bot by time and id changes nothing if each token's fills came in order |
| Ledger.AgreementNeedsOrder | core/portfolio.py:385-500 | a witness that order matters: a SELL booked before the earlier BUY it closes leaves a position OPEN that the replay does not have |
| Ledger.FillSameKey | core/portfolio.py:421-500 | one fill keeps the agreement of position and replay for its bot and token |
| Ledger.FillOtherKey | core/portfolio.py:402-407 | one fill leaves every other bot and token alone |
| Ledger.FillKeepsBasis | core/portfolio.py:385-500 | one fill moves the summed cost bases of a bot exactly as its replayed open cost |
| Ledger.RedeemKeepsInvariant | core/portfolio.py:502-522 | redeeming an OPEN position keeps all of this |
| Ledger.RunInvariant | core/portfolio.py:335-522 | the invariant holds after every admissible run of single-fill sessions, failed and repeated fills included, whether queries flush or not |
| LateFills.LateBuyAgrees | core/portfolio.py:385-500 | after any run, a BUY booked at any time: the position has the size of the time-ordered replay if and only if no SELL of the token that comes after the BUY in time sold more than was held |
| LateFills.LateSellAgrees | core/portfolio.py:385-500 | the same for a SELL: if and only if from its time on the balance never was below its size, or the later trades leave nothing, both from an empty start and from what the SELL leaves |
| LateFills.LateBuyCost | core/portfolio.py:385-500 | if the size agrees, and with flushing, the cost does too if and only if the later SELLs do not reach the late lot or take from it the cost they took instead |
| LateFills.LateSellCost | core/portfolio.py:471-500 | with flushing, a SELL that leaves the position OPEN leaves the cost of the time-ordered replay, however late it is |
| LateFills.ReplayIsQueue | core/portfolio.py:474-496 | if no SELL is short, a replay leaves what one SELL of the total size sold leaves of the queue of all lots, whenever they were bought |
| Sessions.FlushedSessionIsOneByOne | core/portfolio.py:780-816 | if queries flush, booking fills in one session is booking them one by one |
| Sessions.SessionAgainstOneByOne | core/portfolio.py:402-500 | without flushing, for all fills and every key: one session leaves OPEN rows of the same sizes as one session per fill if and only if no BUY or SELL follows a BUY of a key without stored OPEN row, and a stored row is not emptied and refilled; the same rows if and only if moreover nothing is left or the last SELL's FIFO cost misses nothing |
| Sessions.SessionCostGap | core/portfolio.py:471-500 | while a stored row is not emptied, its cost after the session differs from one by one by exactly the FIFO cost its last SELL did not see, and nothing else differs but the average price |
| Sessions.SessionAgainstReplay | core/portfolio.py:385-500 | after any run, a further session of in-order fills leaves one OPEN row of the replayed size if and only if that condition holds, and then its cost is the replayed cost plus what the last partial SELL consumed and did not see |
| Sessions.TwoBuysTwoRows | core/portfolio.py:402-451 | two BUYs of a fresh token in one session open two rows, one by one a single row |
| Sessions.BoughtIsNotSold | core/portfolio.py:454-465 | a SELL of what the same session bought is reported as a SELL without a position, and the row stays OPEN in full |
| Sessions.RefilledStaysClosed | core/portfolio.py:445-472 | a stored row sold out and bought again in one session stays CLOSED with a positive size, where one by one there is an OPEN row |
| SessionRuns.PositionsAgreeWithReplay | core/portfolio.py:780-833 | after any run of sessions of several fills each, without flushing, that keep the holdings of booking one by one, every key has one OPEN row of the replayed size or none, and its cost exceeds the replayed cost by what its last partial SELL consumed and did not see of its session |
| SessionRuns.SessionConservation | core/portfolio.py:525-618 | over such runs realised P&L is net cash plus redemption proceeds plus the cost basis of OPEN positions, less orphaned notional and less exactly those excesses |
| SessionRuns.PollIsSession | core/portfolio.py:780-833 | a deployed poll that commits is such a session followed by its cursor, and one that fails changes nothing |
| FillImport.ReconcileLiveFills | core/portfolio.py:754-834 | one poll is one session: it books the bookable new deliveries in order and sets the cursor, for either setting of flushing; a failed fetch or commit changes nothing |
| FillImport.ImportDelivery | core/portfolio.py:788-816 | a delivery is skipped if the session sees its id stored, its order is unknown though required, or belongs to another bot |
| FillImport.ImportedAtMostOnce | core/portfolio.py:768-834 | over any polls with overlapping or repeated deliveries, flushing or not, no id is stored twice, and positions are those of booking each stored trade once, the trades of a poll in one session |
| FillImport.FlushedBatchesAreOneByOne | core/portfolio.py:780-816 | with flushing that is booking all stored trades one by one |
| FillImport.PollBooks | core/portfolio.py:785-816 | a poll books exactly the bookable deliveries whose id was not stored before it, in order, and with flushing only the first of each id |
| FillImport.PollFailsExactly | core/portfolio.py:780-833 | for every feed, a poll fails if and only if it books a delivery whose order is not stored, flushing or not, or queries do not flush and the id of a delivery it books is repeated |
| FillImport.UnknownOrderFailsPoll | core/portfolio.py:788-816 | a single delivery of an order the fleet never recorded fails the poll of a bot that does not require known orders, flushing or not |
| PollContents.PollTakesItsOwn | core/portfolio.py:785-816 | for every feed each row a poll adds is that of a delivery of an order of this bot, or of no stored order if known orders are not required, with the condition of that order or else its own market; and a poll that commits has stored the id of every such delivery |
| PollContents.OtherBotsOrderIsSkipped | core/portfolio.py:799-800 | a delivery of an order of another bot adds no trade and changes no position |
| PollContents.CursorEvent | core/portfolio.py:823-833 | a poll that commits writes a cursor exactly if some delivery is later than the old one, with the latest time and the number of fills added |
| FillImport.PollAgainstOneByOne | core/portfolio.py:780-816 | a deployed poll that commits leaves the OPEN rows of booking one by one, in sizes and altogether, if and only if the conditions on stored rows and the feed's bookable deliveries hold |
| FillImport.PollOfTwoBuys | core/portfolio.py:780-816 | one order of a fresh token delivered in two pieces in one deployed poll leaves two OPEN rows |
| FillImport.CursorNeverMovesBack | core/portfolio.py:772-833 | over any polls no cursor decreases |
| FillImport.PollCursor | core/portfolio.py:783-833 | a poll that commits sets its own cursor to the latest time seen, skipped deliveries included, and no other |
| FillImport.RepollChangesNothing | core/portfolio.py:768-834 | polling again with the same feed changes no table, flushing or not, and a poll that failed fails again |
| Drawdown.MaxDrawdown | core/portfolio.py:743-751 | the one-pass loop returns the largest percentage drop from the highest value so far, for every series |
| Drawdown.GetDrawdownPct | core/portfolio.py:713-752 | the reported figure is that drop, which is unique, over initial equity, snapshots and live equity, rounded to four places |
| Drawdown.DrawdownIsAllPairsMaximum | core/portfolio.py:743-752 | with positive initial equity and no negative value it is the maximum over all pairs of an earlier and a later value |
| Drawdown.DrawdownNeverDecreases | core/portfolio.py:743-752 | extending the series never lowers it, rounded or not |
| Drawdown.DrawdownReported | core/portfolio.py:713-752 | with the series and the quotient multiplied out: the reported percentage is, to half a unit of the fourth decimal, the largest fall between two equity points made of initial equity, realised and unrealised P&L |
| Decimals.QuotientError | core/portfolio.py:452 | a unit price rounded to eight places times the quantity misses the cost by at most half a unit of that place per share |
| Dashboard.TradeMetrics | dashboard/runtime_queries.py:2653-2725 | the bucket loop and the final totals compute the moving-average P&L per bot, condition and token |
| Dashboard.AverageHolds | dashboard/runtime_queries.py:2687-2714 | a bucket's open size is the running balance, and its cost is zero when that is zero |
| Dashboard.AveragePnlIsCash | dashboard/runtime_queries.py:2653-2719 | for every history, moving-average P&L is net cash plus average open cost less oversold notional plus the fees it never books |
| Dashboard.CashOfArrangement | dashboard/runtime_queries.py:1327-1345 | net cash does not depend on the order of trades |
| Dashboard.FifoAgainstAverage | dashboard/runtime_queries.py:2653-2719 | for any two arrangements of the trades of one bot (FIFO reads them by time and id, the dashboard by time alone), FIFO minus moving-average P&L is FIFO minus average open cost less those unbooked fees and less the difference of the oversold notionals |
| Dashboard.AgreementWithoutOversell | dashboard/runtime_queries.py:2653-2719 | if neither arrangement oversells the two methods differ by the difference of open costs alone, at every point |
| Dashboard.AgreementWhenFlat | dashboard/runtime_queries.py:2653-2719 | so they coincide whenever all holdings are back to zero |
| Dashboard.CashAgainstFifo | dashboard/runtime_queries.py:1327-1345 | for every history the SQL cash P&L is FIFO realised less open lot cost plus orphaned notional plus the notional of sides FIFO does not recognise |
| Dashboard.LikeSellExactly | dashboard/runtime_queries.py:1339 | the SQL pattern takes every side that begins with the four letters in either case, so all that FIFO takes for a SELL and none that it takes for a BUY |
| ArchivedVariants.ArchivedSummaries | dashboard/runtime_queries.py:5121-5165 | one pass over the rows of all archived bots yields each bot's own FIFO metrics |
| ArchivedVariants.ArchivedPnlIsGross | dashboard/runtime_queries.py:5138-5165 | its P&L is the gross FIFO gain of the rows as its looser side test reads them |
| ArchivedVariants.ArchivedAgreesWithPortfolio | dashboard/runtime_queries.py:5138-5165 | where both side tests agree it is the portfolio's realised P&L before fees |
| ArchivedVariants.ArchivedCostConserved | dashboard/runtime_queries.py:5138-5165 | cost of closed lots plus cost of open lots is all cost bought |
| ArchivedVariants.LooseSideExactly | dashboard/runtime_queries.py:5140-5148 | the looser side test, letter by letter |
| ArchivedVariants.LooserThanPortfolio | dashboard/runtime_queries.py:5140-5148 | it reads every side that the portfolio recognises alike |
| ArchivedVariants.ClosingsCount | dashboard/runtime_queries.py:5152-5165 | a SELL closes one match per lot it reaches, oldest first, and wins on those bought for strictly less |
| ArchivedVariants.RowsIgnoreStorageOrder | dashboard/runtime_queries.py:5125-5134 | its rows are all trades of those bots and do not depend on how they are stored |
| Backtester.SimulateFill | core/backtest.py:183-194 | a fill is at the best offered price, which is no worse than the limit, and there is none only if every offer is worse |
| Backtester.FillsExactly | core/backtest.py:132-146 | the trades are exactly those of decisions taken at books of known tokens that fill there, with their token, side and size and the time of the book |
| Backtester.Run | core/backtest.py:132-173 | the nested loops produce the fills in order, the average-cost P&L and its running curve |
| Backtester.BacktestConserves | core/backtest.py:147-171 | on every history, P&L is net cash plus book cost plus the cost that uncovered SELLs reset |
| Backtester.BacktestIsAverage | core/backtest.py:147-171 | without oversells the book is the moving-average book without fees, token by token |
| Backtester.BacktestAgainstFifo | core/backtest.py:147-171 | so it differs from FIFO by the difference of open costs |
| Quarantine.DetectGaps | core/backtest_bot_e.py:60-110 | the cursor loops report the too-long silences of each feed, in order |
| Quarantine.QuarantineRanges | core/backtest_bot_e.py:113-132 | sorts the widened gaps and merges them in one pass |
| Quarantine.InQuarantine | core/backtest_bot_e.py:135-140 | true exactly if some range contains the time |
| Quarantine.QuarantineExact | core/backtest_bot_e.py:98-140 | for feeds in time order a time is quarantined if and only if it lies within the buffer of two adjacent rows of one feed more than the maximal gap apart, and the windows are sorted and strictly separated |
| Quarantine.MergedExactly | core/backtest_bot_e.py:126-132 | merging keeps exactly the covered times and separates the ranges |
| Quarantine.QuarantineOrderIrrelevant | core/backtest_bot_e.py:123-132 | the windows do not depend on the order in which gaps were found |
| EventMerge.IterEvents | core/backtest_bot_e.py:200-247 | the two-cursor loop ends and yields the merge without quarantined events |
| EventMerge.MergeIsStableSort | core/backtest_bot_e.py:205-247 | for rows in time order the merge is the stable sort of both streams, Polymarket first on ties |
| EventMerge.InlineFilterIsExact | core/backtest_bot_e.py:205-249 | filtering inside the loop equals filtering that sort and equals merging the filtered streams, and the result is in time order |
| EventMerge.MergeKeepsStreams | core/backtest_bot_e.py:205-249 | each stream comes out in its own order with nothing lost or repeated but quarantined rows |
| ImbalanceLaws.RowKinds | core/backtest_bot_e.py:222-230 | which recorded types count as trades, quotes and reconnects |
| ImbalanceLaws.RowEffects | core/backtest_bot_e.py:425-488 | a reconnect forgets its subscription alone; exchange trades, rows of other types and reconnects of no subscription change nothing |
| Calibration.RecentTwice | core/backtest_bot_e.py:274-276 | pruning for one moment loses nothing that any later window needs |
| Calibration.SubscriptionState.Obi | core/backtest_bot_e.py:278-289 | prunes, then returns the imbalance of what is left or nothing if there is too little |
| ImbalanceLaws.ImbalanceExactly | core/backtest_bot_e.py:278-289 | an imbalance exists exactly with two trades, a YES id and a total size of one, and times that total it is the size of YES less that of NO |
| ImbalanceLaws.ExchangeNegates | core/backtest_bot_e.py:278-289 | exchanging the two ids negates it |
| ImbalanceLaws.OneSided | core/backtest_bot_e.py:278-289 | trades of YES alone give 1 and of NO alone -1 |
| Calibration.Handle | core/backtest_bot_e.py:425-488 | one event updates one subscription's state object and the table as specified, and no other object |
| Calibration.ImbalanceIsFresh | core/backtest_bot_e.py:460-475 | every imbalance used equals the one recomputed from scratch over that subscription's trades inside the window since its last reconnect that was not itself quarantined, and lies in [-1, 1] |
| Calibration.TableCounts | core/backtest_bot_e.py:352-355 | each row counts exactly the trade events whose imbalance falls into its bucket |
| Calibration.TableTotal | core/backtest_bot_e.py:425-490 | the rows together count exactly the trade events with a defined imbalance |
| Calibration.BucketExactly | core/backtest_bot_e.py:314-326 | the values each bucket stands for, on both sides of zero |
| ImbalanceLaws.CountedWhere | core/backtest_bot_e.py:460-488 | after every event the row of a bucket has gone up by one exactly if the sizes of the trades that enter put it there, with the quotient multiplied out |
| ImbalanceLaws.BalancedFlow | core/backtest_bot_e.py:314-326 | balanced flow counts in the lowest bucket and one-sided flow in the highest |
| Calibration.Calibrate | core/backtest_bot_e.py:366-490 | the whole sweep builds the table of the kept, merged events |
| Calibration.CalibrationExact | core/backtest_bot_e.py:366-490 | end to end: the events used are the time-ordered merge without rows near a gap, and the table counts exactly their defined imbalances, per bucket and in total, reconnects counting if they are among those events |
| Recording.TradesUsedExactly | core/backtest_bot_e.py:208-216 | for every recording and subscription, the trades inside the window that the replay uses are the kept ones since the last recorded reconnect if and only if no dropped reconnect comes after a kept trade inside the window with no kept reconnect after that trade |
| Recording.TokensUsedExactly | core/backtest_bot_e.py:436-443 | the token ids it has learned are those learned since the last recorded reconnect if and only if the quotes heard before and after the dropped reconnect agree |
| Recording.CalibrationAgainstRecording | core/backtest_bot_e.py:366-490 | both for the recorder's tables; and if they hold at every kept trade, the table counts the imbalances of the recording, bucket by bucket |
| Recording.FirstRowAfterGapIsDropped | core/backtest_bot_e.py:98-140 | the row that ends a too-long silence of its feed is never kept, so a reconnect after one clears nothing |
| Recording.ReconnectIsBridged | core/backtest_bot_e.py:426-429 | a recording of nine rows whose last trade still uses the trades from before its reconnect |
| ExecPolicy.ToxicityInRange | core/exec_policy.py:130-154 | the toxicity score lies in [0, 1] |
| LadderLaws.ToxicityExactly | core/exec_policy.py:130-154 | what counts against each of the four sides; the score is its share, or zero without flow |
| LadderLaws.PolicyExactly | core/exec_policy.py:206-253 | for every tick of every limit, named side by side, which rule applies and what it leaves of state, price and step count |
| LadderLaws.NotFinal | core/exec_policy.py:225-253 | a FROZEN or CANCELLED limit that is old enough and has a step left is moved on to STEP_2 |
| ExecPolicy.LadderManager.Register | core/exec_policy.py:285-286 | replaces the entry of that order id in place or adds one, keeping ids distinct |
| ExecPolicy.LadderManager.Forget | core/exec_policy.py:288-289 | removes that id only |
| LadderLaws.RegisteredIs | core/exec_policy.py:285-286 | registering keeps every other entry where it is |
| LadderLaws.ForgottenIs | core/exec_policy.py:288-289 | forgetting keeps exactly the entries of other ids, in order |
| ExecPolicy.LadderManager.PruneCancels | core/exec_policy.py:295-297 | keeps exactly the cancels inside the window |
| ExecPolicy.LadderManager.Advance | core/exec_policy.py:310-320 | changes one limit object as the policy says and reports an action exactly if something changed |
| ExecPolicy.LadderManager.Tick | core/exec_policy.py:299-331 | the tick over limit objects yields the specified states, actions, cancels and breaker, silent when tripped |
| LadderRuns.BreakerWindow | core/exec_policy.py:295-331 | with a clock that does not run backwards the pruned list is the full cancel history since the last reset restricted to the window, an untripped breaker has seen fewer cancels than the limit, and no list exceeds limit - 1 plus the limits active at the tick that tripped it |
| LadderLaws.BreakerList | core/exec_policy.py:295-331 | the list is the cancels since the last reset inside the window, and the breaker is tripped exactly if it has reached the limit |
| LadderLaws.TripsExactly | core/exec_policy.py:321-326 | a tick trips the breaker exactly if its own cancels, at least one, and those in the window before it reach the limit |
| LadderLaws.RaisesExactly | core/exec_policy.py:218-219 | a tick raises exactly on a negative range with a limit to look at, having pruned by then and nothing else |
| LadderRuns.CancelsBounded | core/exec_policy.py:295-331 | the same bounds for the trailing window at any later time |
| LadderRuns.TripSilences | core/exec_policy.py:307-308 | after a trip no tick returns or changes anything until a reset |
| LadderRuns.LadderDisplacement | core/exec_policy.py:197-253 | through any ticks STEP_1 is taken at most once, the step count is the number of repricings and within its maximum, and the price is displaced by one tick per STEP_1 and two per STEP_2, up for the two sides that buy and down for the two that sell |
| LadderRuns.MovesTowardMarket | core/exec_policy.py:190-194 | a limit that buys, YES or NO, never falls, and one that sells never rises |
| LadderRuns.UndisturbedAtMostThreeTicks | core/exec_policy.py:239-253 | a limit never frozen or cancelled gives at most three ticks |
| LadderRuns.FreezeAllowsFourTicks | core/exec_policy.py:225-253 | a freeze in between lets it give four under the default policy |
| LadderRuns.ActiveLimitsBounded | core/exec_policy.py:285-331 | in every run of a manager every active limit obeys the displacement law |
| LadderRuns.ActionsReproduceManager | core/exec_policy.py:299-331 | replaying the returned actions reproduces the manager's states and prices after every run |
| TokenBucket.Limiter.TryTake | core/clob.py:148-159 | one pass through the locked section refills, grants or refuses, and computes a positive wait on refusal |
| TokenBucket.WaitSuffices | core/clob.py:158-159 | after the computed wait the tokens are there if nobody else drew any |
| TokenBucket.WaitIsExact | core/clob.py:151-159 | the tokens are there exactly from the end of the computed wait on |
| TokenBucket.GivesUpExactly | core/clob.py:160-164 | right after a refusal a blocking call gives up exactly if the tokens would not be there by its deadline; otherwise it sleeps at most a quarter of a second |
| TokenBucket.LoneCallIsServed | core/clob.py:146-164 | a call whose wait ends by its deadline is granted at the end of it, after the naps that takes, if no other call draws |
| TokenBucket.RateBound | core/clob.py:132-164 | under any interleaving of threads tokens stay within [0, capacity] and grants in any closed interval are at most capacity plus refill over its length |
| TokenBucket.AtMostTwicePerPeriod | core/clob.py:213-214 | so no period sees more than twice the capacity |
| TokenBucket.TwicePerPeriodIsReached | core/clob.py:213-214 | and some schedule reaches that for every capacity and period |
| TokenBucket.CallsDrawOnce | core/clob.py:146-164 | a call that returned true drew its tokens exactly once, any other call none, and a sleeper means to wake by its deadline |
| Fleet.SnapshotFleetExposure | core/fleet.py:196-239 | the loops add up the open positions and reserving orders of the allowed bots |
| Fleet.OrderAdds | core/fleet.py:208-228 | an order row of an allowed bot adds size times price under each of five statuses, and nothing under any other or without price or size |
| Fleet.PositionAdds | core/fleet.py:198-207 | a position row of an allowed bot adds its cost if it is OPEN, and nothing otherwise |
| Fleet.CheckFleetExposure | core/fleet.py:253-327 | a live caller passes exactly if the tables could be read, the cap is positive and would not be exceeded; a paper caller fails only on an exceeded positive cap; and which reason and figures the result carries |
| Fleet.RacingBound | core/fleet.py:253-327 | over any interleaving of the two queries of each check, placements, given-up requests, full fills and cancels, exposure plus cleared requests never exceeds the cap by more than one largest request per other live bot and what fills cost between the queries of a check |
| Fleet.AtomicBound | core/fleet.py:28-31 | if each cleared request is placed before the next check and no check misses a fill the cap is never exceeded |
| Fleet.OvershootIsReached | core/fleet.py:28-31 | the racing bound is reached for every cap, every positive largest order and every number of bots, even if no check misses a fill |
| Fleet.CapHoldsOnlyWithoutRace | core/fleet.py:28-31 | all runs whose checks miss no fill stay within the cap if and only if there is a single live bot or nothing to ask for |
| Fleet.SplitSnapshotExceeds | core/fleet.py:196-226 | for every cap and positive largest order a single bot exceeds the cap by a largest order if its last order fills between the two queries of its next check |
| Fleet.CapHoldsOnlyIdle | core/fleet.py:196-226 | so over all runs the cap is kept if and only if there is nothing to ask for |
| Watchdog.ReasonFamily | core/watchdog.py:165-173 | the scan yields the stripped, lower-case leading phrase |
| Watchdog.SamePhraseSameFamily | core/watchdog.py:154-174 | reasons that share the phrase before the first number, colon or comma are one family unless it is blank |
| WatchdogLaws.FamilyIs | core/watchdog.py:165-173 | a reason's family is the text before its first colon, comma or digit, without blanks at the ends and in lower case, letter by letter |
| Watchdog.Watchdog.HaltBot | core/watchdog.py:707-812 | a halt that nothing interrupts is a read followed by its commit |
| Watchdog.Watchdog.ReadForHalt | core/watchdog.py:707-765 | the first session decides from the flag whether the cancel is skipped, and it is issued otherwise |
| Watchdog.Watchdog.CommitHalt | core/watchdog.py:766-812 | the second session writes the flag as it finds it by then, with event and note only on a transition |
| Watchdog.Watchdog.RecordCheck | core/watchdog.py:679-705 | stores every failure and throttles only the notification |
| Watchdog.Watchdog.UnhaltBot | core/watchdog.py:814-831 | clears an existing flag, and reports a missing one |
| WatchdogLaws.CancelsUnlessQuiet | core/watchdog.py:719-765 | a halt cancels the orders unless the bot is halted for that cause already or for more than a minute |
| WatchdogLaws.HaltLeaves | core/watchdog.py:766-805 | what the commit of a halt leaves of text, time, events and notes, for a bot that was halted and one that was not |
| WatchdogLaws.SecondHalt | core/watchdog.py:707-812 | of two halts in a row the second cancels again exactly if it comes within a minute and for another cause |
| WatchdogLaws.UnhaltLeaves | core/watchdog.py:814-831 | unhalting clears that bot's flag with its own text and time, and changes nothing for a bot without one |
| Watchdog.Watchdog.RunOnce | core/watchdog.py:656-677 | dispatches a round of checks to records and halts of the named bot, the scope or all active bots, in order |
| WatchdogLaws.RoundHaltsExactly | core/watchdog.py:659-677 | after a round exactly those bots are halted that were before or that a failed check of severity kill names, has in its scope, or, naming none, means as one of all active |
| WatchdogLaws.RoundStoresFailures | core/watchdog.py:659-691 | a round stores its failed checks, in order, and no others |
| Watchdog.HaltsAndCancelsCounted | core/watchdog.py:719-798 | over every run, whatever comes between the two sessions of a halt, a bot has one halt event per transition, and one cancel per transition that is not silent, per commit that repeats a halt with a cancel, and per halt with a cancel that is not committed |
| Watchdog.SilentExactly | core/watchdog.py:719-798 | after any run and with anything between its two sessions, a halt that makes a transition goes without a cancel if and only if its read saw a halted flag that lets it skip and the bot was unhalted in between; otherwise it has exactly one |
| Watchdog.NoSilentTransition | core/watchdog.py:719-798 | in runs where no unhalt of a bot falls between the sessions of its halt no transition is silent |
| Watchdog.SilentTransitionExists | core/watchdog.py:719-798 | an operator halt lifted while the watchdog halts: the bot is halted again and no order was cancelled |
| Watchdog.ContinuousHalt | core/watchdog.py:719-783 | while halted the halt time and operator text stay, there is no further halt event and no cancel later than a minute after it |
| Watchdog.OperatorTextKept | core/watchdog.py:772-776 | over every run, no halt overwrites operator text, whether the bot is halted or not |
| Watchdog.AlertsAreApart | core/watchdog.py:699-705 | over every run alerts for one check and severity are at least the dedupe interval apart |
| WatchdogLaws.AlertExactly | core/watchdog.py:679-705 | after every run an alert goes out exactly if its check is not silenced and none did for it and its severity within the dedupe interval |
| Notify.Listener.HandleUpdate | core/notify.py:219-293 | a message is ignored, or has the specified outcome and new dictionaries |
| NotifyLaws.HeardExactly | core/notify.py:219-245 | a text is heard exactly if it comes from a known chat, begins with the word and names a known bot, and confirms exactly if its third word says so |
| NotifyLaws.OutcomeExactly | core/notify.py:246-292 | in every run with a clock that does not go back: exactly when a command stages, is cooled down, finds nothing staged, or calls the handler |
| Notify.CallWasStaged | core/notify.py:256-286 | every handler call has a staging command of the same chat and bot less than a minute earlier with no call in between |
| Notify.CallsHaveTheirOwnStaging | core/notify.py:264-286 | different calls have different staging commands |
| Notify.SuccessesAreApart | core/notify.py:247-256 | successful unhalts of one chat and bot are at least a minute apart |
| Notify.OtherKeysDoNotMatter | core/notify.py:247-288 | commands for other chats or bots do not change the outcomes |
| PythIngest.BarBuilder.Update | core/pyth_ingest.py:67-91 | one tick updates close, extremes, known extras and count in place |
| PythIngest.PythIngestor.HandleTick | core/pyth_ingest.py:128-194 | a tick opens, updates or flushes and replaces the bar of its feed only |
| PythIngest.PythIngestor.FlushOpenBars | core/pyth_ingest.py:200-209 | stores every open bar under its second and feed, clears them and returns their number |
| PythIngest.FoldedSummarises | core/pyth_ingest.py:67-91 | a bar has first, last, largest and smallest price, last known extras and count of its ticks |
| PythIngest.StoredIsLastRun | core/pyth_ingest.py:171-209 | for ticks in any order the stored row of a feed and second folds the last uninterrupted run of that second |
| PythIngest.StreamEqualsBatch | core/pyth_ingest.py:171-209 | streaming equals the batch group-by on a feed and second if and only if the feed never comes back to that second |
| PythIngest.AscendingIsUnbroken | core/pyth_ingest.py:171-209 | non-decreasing seconds rule such returns out |
| PythIngest.CountsAddUp | core/pyth_ingest.py:171-209 | with non-decreasing seconds per feed the stored counts add up to the ticks handled |

## Left out

- Arithmetic: `Decimal` with 28 digits, eight-decimal column storage and binary floats are modelled as exact reals; only the explicit `quantize` calls round.
- Portfolio.Portfolio.OnFill: does not record the GBP rate and notional nor opening and closing times, which nothing else modelled reads; sizes of fills are positive.
- Portfolio.Portfolio.DetectOrphanSells: takes the cutoff time as an argument and leaves out the age in hours; the alert events made from it are not modelled.
- Ledger.LedgerConservation: covers runs of single-fill sessions, as `on_fill` makes them, in which a redeemed token is not traded again by the same bot and each key's fills arrive in order. `SessionRuns` covers sessions of several fills, `LateFills` one late fill after such a run.
- LateFills.LateBuyCost: is about flushed queries; without flushing the last partial SELL's excess comes on top.
- Sessions.SessionAgainstOneByOne: rows are selected in table order; database errors other than the two violated keys, such as a lock timeout, are left out.
- Dashboard.TradeMetrics: computes the realised total; win counts, volumes and fill-mode counters are left out.
- ArchivedVariants.ArchivedSummaries: stops at the metrics; the ROI percentage and the stored fallback figures are display.
- Dashboard.FifoAgainstAverage: is about one bot whose tokens each belong to one condition, as market data has it.
- Recording.CalibrationAgainstRecording: compares the trades and token ids behind an imbalance; that two different lists of trades may happen to have the same quotient is not pursued.
- Calibration.Calibrate: best bid, best ask and last price are kept by the source but do not reach the table, and the market lookup is unused there.
- ExecPolicy.LadderManager.Tick: `should_place`, the check before an order is placed, is not part of the manager and is left out.
- TokenBucket.Limiter.TryTake: is one pass of the loop in `acquire`; the loop, its deadline and its sleeps are the thread steps of the interleaving model. Requests are for a non-negative number of tokens.
- Fleet.RacingBound: orders fill fully at or below their limit, because a partly filled order goes on reserving its full size (`core/fleet.py:214-228`) beside the position it filled; the mode and registry lookups that decide which bots are live are an input.
- Watchdog.Watchdog.RunOnce: uses one clock reading per round and takes the results of the checks as inputs; letters, digits and blanks are ASCII.
- Watchdog.HaltsAndCancelsCounted: one watchdog loop, whose halts do not overlap; the cancel is counted when the read decides on it.
- Notify.Listener.HandleUpdate: other commands and the texts sent back are left out; a handler that raises counts as one that returns false.
- PythIngest.PythIngestor.HandleTick: the table of recent ticks and its pruning, and when sessions commit, are left out.
- Paper fills, paper resolutions, wallet reconciliation and unrealised P&L build on the operations modelled here and are left out.
- Model-probability backtests, fee tables, dashboards' display code and all network code are left out.
