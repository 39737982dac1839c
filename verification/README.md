# The position lifecycle of openpoly, verified

openpoly trades prediction-market shares. This project models what happens to a position between the decision to
trade and the ledger row it leaves, and proves what that code keeps over every run and every answer of the venue.

- `Sizing`, `Pricing`: the order size the venue accepts, the sweep of a ladder of resting levels, the taker fee.
- `Ledger`: the append-only fill log and the position rows beside it (`portfolio/store.py`).
- `FillSources`, `Settle`, `SettleFacts`, `FillPrice`, `Live`: the live executor. The venue is an arbitrary script of
  answers; from it the executor establishes how much of an order filled, at which price, and whether it may still rest.
- `Paper`: the paper executor, which must not fill what live could not.
- `CloseProtocol`: the exit monitor, the two manual close routes and the settlement and reconciliation sweeps as
  interleaved steps. One stretch of the event loop between two awaits is one step; a worker's `record_sell` is a read
  step and a later commit step, and worker threads run beside the loop.
- `ExitMonitor`, `ExitRuns`, `CloseRetries`: the exit monitor's state per position (peak, thin-stop streak, close
  backoff), its evaluations and the sells they start, and what the state means after any run.
- `Resolution`: when a market counts as resolved.
- `MarketStore`, `BookRun`, `PersistThrottle`: the order-book cache, runs of sample cycles with concurrent refreshes
  and 404s, and the throttle of persisted snapshots.
- `WriteBehind`: the bounded write-behind queue.

Objects the code updates in place are classes whose methods are proved against functions on values; the theorems are
about runs of those functions. Prices, quantities and clock readings are reals, with the code's `1e-9` tolerances and
its `round(..., 6)` written out. `dafny verify dfyconfig.toml` checks everything.

## Where the code and its documentation differ

The model follows the code in each case.

- `openpoly/db/tables.py:95` says positions can be rebuilt by folding fills. The token, the condition, the entry belief
  and the close reason stand on the row only. The close reason can be rebuilt exactly when no trigger is shared by two
  reasons, which the repository's sellers keep (`ReasonsRebuildIffTriggersNameThem`, `SellersReasonsRebuild`); whole
  rows can exactly when, besides, what a fill carries of an open names the rest (`RowsRebuildIffFillsNameTheRest`),
  which nothing in the repository provides (`BeliefsAreOnNoFill`).
- `openpoly/portfolio/models.py:20-28` lists the close reasons; the exit monitor passes its section's trigger on as the
  reason (`exit_monitor.py:809`), so a reason outside the list ("peak_drawdown") is stored
  (`UnlistedReasonsAreStored`). The model's reasons are strings.
- `live_executor.py:865` tests the refusal with `not refusal` and the next line with `is not None`. A venue that
  refuses with an empty reason therefore gets a zero fill for an order that still rests
  (`ZeroWhileRestingNeedsAnEmptyReason`).
- `live_executor.py:1376-1379` says a SELL that may still rest blocks a new one. It does so only for orders the executor
  holds: not for one whose partial fill the ledger refused, whose answer carried no usable id, or which was never
  answered. And a held order is let go on a read the settle would throw away, one whose status is open and whose matched
  size is more than the order (`SecondSellOnlyOverAForgottenOrder`, `NextSellPostsExactlyWhenForgotten`,
  `GuardPassesExactly`, `RefusedWriteAllowsASecondSell`, `OverreadAllowsASecondSell`).
- `exit_monitor.py:54` says a close that does not fill backs off. A sell that raises leaves no backoff, so the waits hold
  exactly over stretches in which none does (`FullWaitsExactlyWithoutErrors`, `RaisingSellsGoOutEveryTick`).
- `executor.py:195` says a paper sell never exceeds the depth. The rounding of its size can carry it past the depth, and
  then below its floor (`PaperSellExceedsDepthExactlyWhenRounded`, `SellGoesBelowItsFloorExactlyWhenShort`).
- `settlement_monitor.py:48` speaks of a 0/1 final price; the unrounded venue price is booked
  (`SettlesAtItsOutcomeExactlyWhenTheVenueDoes`).

## Model

| member | source | states |
|---|---|---|
| `Sizing.QuantizeIsClose` | openpoly/execution/sizing.py:107-123 | for a sellable quantity the size is at least one share, at most half a rounding step (5e-9) above it and less than 0.01 below it |
| `Sizing.QuantizeZeroIffDust` | openpoly/execution/sizing.py:97-123 | a size is zero exactly for a quantity below one share, and never negative |
| `Sizing.QuantizeIsIdempotent` | openpoly/execution/sizing.py:107-123 | quantising twice is quantising once |
| `Sizing.QuantizeRoundsDownOnTheGrid` | openpoly/execution/sizing.py:107-123 | on the venue's grid of a millionth of a share the size never exceeds the quantity |
| `Sizing.QuantizeMayRoundUpOffTheGrid` | openpoly/execution/sizing.py:107-123 | off that grid it can: 5.559999999 quantises to 5.56 |
| `Sizing.SizePassesExactlyJustBelowAHundredth` | openpoly/execution/sizing.py:107-123 | a size passes any bound at or above its quantity if and only if the quantity lies within 5e-7 hundredths of the first whole hundredth past the bound, the tie included |
| `Sizing.QuantizeExceedsExactlyJustBelowAHundredth` | openpoly/execution/sizing.py:107-123 | the size exceeds the quantity itself if and only if the quantity lies that close below its next whole hundredth |
| `Sizing.FullFillLeavesNoSellableResidue` | openpoly/portfolio/store.py:275-308 | a full fill of the quantised size (up to 1e-9 short of it) always leaves less than 0.01 of the row |
| `Pricing.RunSweep` | openpoly/markets/pricing.py:46-60 | the loop of `sweep`, against its recursive specification |
| `Pricing.SweepIsATaking` | openpoly/markets/pricing.py:46-60 | the sweep takes within the level sizes; what it reports is what its takings add up to |
| `Pricing.SweepIsOptimal` | openpoly/markets/pricing.py:46-60 | no other way of taking at most that quantity within the level sizes yields more notional |
| `Pricing.AveragePriceNeverRises` | openpoly/markets/pricing.py:46-60 | the average price of a sweep never rises with its quantity |
| `Pricing.SweepSplits` | openpoly/markets/pricing.py:46-60 | sweeping a sum is sweeping the first part and then the second from what is left |
| `Pricing.SweepCoversItsDepth` | openpoly/markets/pricing.py:46-60 | what stays uncovered is exactly the quantity beyond the ladder's depth |
| `Pricing.SweepWithinPrices` | openpoly/markets/pricing.py:46-60 | the notional lies between the covered shares at any lower and any upper bound of the prices |
| `Pricing.AtOrAboveIsTheTop` | openpoly/execution/executor.py:177-186 | on a best-first ladder the levels a floor admits are a prefix of it |
| `Pricing.FirstLevelWithSizeIsTheFirst` | openpoly/markets/pricing.py:23-33 | the depth-guarded price is that of the first deep level; there is none exactly when no level is deep |
| `Pricing.FeesBelowTheTangent` | openpoly/markets/pricing.py:36-43 | the per-level fees are the tangent of the fee curve less the rate times the squared price dispersion |
| `Pricing.FeeAtTheAverageIsNeverLower` | openpoly/execution/executor.py:195-204 | for every ladder and quantity the fee charged once at the average price exceeds the per-level fees by exactly rate times dispersion, plus a term for shares the ladder does not cover; hence is never lower at a non-negative rate |
| `Ledger.PortfolioStore.OpenPosition` | openpoly/portfolio/store.py:120-192 | appends the BUY fill and an open row with its token, condition and entry belief, or is refused by the one-open-row index |
| `Ledger.PortfolioStore.RecordSell` | openpoly/portfolio/store.py:242-310 | caps the sale at the row, books its PnL, and closes the row when the residue is unsellable; refused exactly when no such row is open |
| `Ledger.PortfolioStore.ClosePosition` | openpoly/portfolio/store.py:194-240 | sells the whole remaining quantity without a fee; refused exactly when no such row is open |
| `Ledger.SellWritesWhatWasSold` | openpoly/portfolio/store.py:242-310 | an accepted sell of s shares of a row of q appends one fill of min(s, q) at the call's price, fee, time, trigger and references, raises the realised PnL by that leg's profit, and leaves the row open with q - min(s, q) exactly when that is at least 0.01; other rows stay |
| `Ledger.GainIsTheLegsProfit` | openpoly/portfolio/store.py:93-110 | the profit of a leg is its proceeds less its entry cost, its own fee and its share of the buy fee |
| `Ledger.CloseWritesTheWholeRow` | openpoly/portfolio/store.py:194-240 | a direct close appends one fill of the whole row without a fee and closes it at the call's time for the call's reason |
| `Ledger.OpenWritesWhatWasBought` | openpoly/portfolio/store.py:120-192 | a buy appends one fill and one open row of what was bought exactly when no row of the market and side is open; a sell or close of a row that is not open changes nothing |
| `Ledger.CallAddsUp` | openpoly/portfolio/store.py:242-310 | one call adds to a row's sold shares, proceeds and sell fees exactly what the call sold of it |
| `Ledger.LogHoldsWhatWasSold` | openpoly/db/tables.py:92-100 | over any run the fills of a row sum to the shares, proceeds and fees of the calls that found it open |
| `Ledger.OpenKeepsConsistent` | openpoly/portfolio/store.py:154-192 | an open keeps every row the fold of its fills |
| `Ledger.SellKeepsConsistent` | openpoly/portfolio/store.py:269-310 | so does every sell and every direct close |
| `Ledger.EveryRunIsConsistent` | openpoly/db/tables.py:92-100 | after any sequence of opens, partial sells and closes: each row is the fold of its fills; open rows hold bought less sold; a row is closed exactly with a remainder below 0.01, showing the last sell's quantity and time; sold never exceeds bought; PnL is conserved; one open row per market and side |
| `Ledger.ProfitOfOneLeg` | openpoly/portfolio/store.py:93-110 | the gain booked for one leg is its proceeds less its fee less its share of the buy cost |
| `Ledger.FillsDetermineRows` | openpoly/db/tables.py:92-100 | equal fill logs leave rows equal in every column the fills carry |
| `Ledger.FillsForgetOriginsAndReasons` | openpoly/portfolio/store.py:120-310 | and in no other: calls that differ only in token, condition, entry belief or close reason leave equal fills |
| `Ledger.ReasonsRebuildIffTriggersNameThem` | openpoly/db/tables.py:92-100 | the close-reason column can be rebuilt from the fills if and only if no trigger is shared by two reasons |
| `Ledger.RowsRebuildIffFillsNameTheRest` | openpoly/db/tables.py:92-100 | whole rows can if and only if, besides, no two opens agree on everything a fill carries and differ in token, condition or entry belief |
| `Ledger.BeliefsAreOnNoFill` | openpoly/db/tables.py:154-166 | two entries that differ in the model probability alone leave equal fills beside different rows |
| `Ledger.SharedTriggerLosesTheReason` | openpoly/portfolio/store.py:269-310 | whatever was opened, two close reasons behind one trigger leave the same fills beside different rows |
| `Ledger.SellersReasonsRebuild` | openpoly/runtime/exit_monitor.py:803-813 | for what the exit monitor, the manual routes and the two sweeps pass, the close reason is rebuildable whatever triggers a section names |
| `Ledger.UnlistedReasonsAreStored` | openpoly/runtime/exit_monitor.py:803-813 | a sell of a whole row on any trigger leaves that trigger as the row's close reason, listed or not |
| `Ledger.ProceedsAreExitPriceTimesSold` | openpoly/portfolio/store.py:369-385 | sell proceeds are the reported exit price times the shares sold |
| `Ledger.SplitExitsBookTheSameProfit` | openpoly/portfolio/store.py:387-413 | legs at one price book the PnL of one sell of the same shares with the same total fee, however the exit was split |
| `FillSources.FillEvidence.Add` | openpoly/execution/live_executor.py:509-529 | keeps the stored evidence equal to the fold of every report offered |
| `FillSources.FillEvidence.AddRead` | openpoly/execution/live_executor.py:531-547 | records an order read, and says whether it was terminal |
| `FillSources.FillEvidence.Resolve` | openpoly/execution/live_executor.py:549-586 | the resolving loops, against the answer specified on the reports |
| `FillSources.CollectHoldsTheReports` | openpoly/execution/live_executor.py:509-547 | exactly the counted bounds are kept, and a final count exactly when one was counted |
| `FillSources.AnswerIsBestEvidence` | openpoly/execution/live_executor.py:549-586 | the answer is some standing report's number, is none exactly when nothing counted, and is never below the final count nor more than 1e-9 below a standing bound |
| `FillSources.AnswerIsPlausible` | openpoly/execution/live_executor.py:452-476 | every answer lies between 0 and the size plus 1e-9 |
| `FillSources.SoundEvidenceNeverOverstates` | openpoly/execution/live_executor.py:493-586 | lower bounds on the matched size never make the answer exceed it; a final count of it is the answer |
| `FillSources.ArrivalOrderHardlyMatters` | openpoly/execution/live_executor.py:549-586 | reordering the reports moves the answer by at most 1e-9, and not at all without a final count |
| `FillSources.CountsExactly` | openpoly/execution/live_executor.py:452-529 | a number counts exactly when it lies between 0 and the size plus 1e-9 and is positive, final, or known to be a real zero |
| `FillSources.AnswerIsTheLargestThatMayStand` | openpoly/execution/live_executor.py:549-586 | without a final count the answer is the largest number in range; with one it exceeds that count only for a stamped cross or another order read |
| `Settle.CancelWithRetry` | openpoly/execution/live_executor.py:681-751 | the bounded cancel and re-read loop, against its specification on the venue's script |
| `Settle.SettleRestingRemainder` | openpoly/execution/live_executor.py:798-908 | the settle: quantity and whether the order may rest, against its specification |
| `SettleFacts.TerminalExactly` | openpoly/execution/live_executor.py:407-476 | a read ends an order exactly when its status is one of the four done ones, or it counts the whole order within 1e-9 and not more |
| `SettleFacts.NumericIdsReadBack` | openpoly/execution/live_executor.py:122-138 | a numeric order id is kept as decimal digits that read back as the number, so no two numbers share an id |
| `SettleFacts.AcknowledgedExactly` | openpoly/execution/live_executor.py:681-751 | a cancel is acknowledged exactly when its list of cancelled ids names the order as text or as a number |
| `SettleFacts.ReasonIsTheLastGiven` | openpoly/execution/live_executor.py:681-751 | of several reasons given for one order the last stands; without any a fixed text does |
| `SettleFacts.RefusalIsEmptyExactly` | openpoly/execution/live_executor.py:681-751 | a refusal is empty exactly when the body's last reason for the order is; an exception, another shape or silence never gives an empty one |
| `SettleFacts.LoopMakesWhatItOwes` | openpoly/execution/live_executor.py:681-751 | an attempt is owed while it is one of sixteen and no earlier one ended the order or the eight seconds; the loop makes exactly those, each at the time the script alone gives it, and refuses only after sixteen attempts or eight seconds |
| `SettleFacts.LoopRecordsEveryRead` | openpoly/execution/live_executor.py:681-751 | every read that followed a cancel that was not acknowledged is recorded |
| `SettleFacts.SettleMakesWhatItOwes` | openpoly/execution/live_executor.py:681-751 | so a settle makes attempt k if and only if it is owed, and records what its read said |
| `SettleFacts.TerminalExactlyWhenRead` | openpoly/execution/live_executor.py:681-751 | the loop ends on a terminal read exactly when an attempt it owes, its cancel not acknowledged, reads one |
| `SettleFacts.LoopFacts` | openpoly/execution/live_executor.py:681-751 | the loop stops at the first acknowledged cancel or terminal read; at most sixteen attempts, each started within the deadline; a final count only as the last record |
| `SettleFacts.CancelsAreBounded` | openpoly/execution/live_executor.py:681-751 | at least one and at most 16 cancels, each started within 8 seconds |
| `SettleFacts.AtMostOneFinalCount` | openpoly/execution/live_executor.py:798-908 | at most one exact count is ever recorded in one settle |
| `SettleFacts.RestsUnlessShownOffBook` | openpoly/execution/live_executor.py:798-908 | an order is reported as possibly resting if and only if it is short of a full fill and no acknowledgement or terminal read showed it off the book |
| `SettleFacts.RestsExactlyUnlessAnOwedAttemptEndsIt` | openpoly/execution/live_executor.py:798-908 | in the script's own terms: it may rest if and only if it is short of a full fill and has no usable id, or neither an owed attempt nor the last read ended it |
| `SettleFacts.ZeroIsCountedOffTheBook` | openpoly/execution/live_executor.py:798-908 | a zero that does not rest needs a usable read that counted zero and an order shown off the book |
| `SettleFacts.ZeroOffTheBookExactly` | openpoly/execution/live_executor.py:860-908 | of an order off the book of which no source established anything, zero is answered if and only if no attempt's read was terminal and the last read counted zero; otherwise nothing is known |
| `SettleFacts.ZeroWhileRestingNeedsAnEmptyReason` | openpoly/execution/live_executor.py:860-908 | a zero is reported for an order that may still rest if and only if the last refusal's reason was empty, the last read counted zero and nothing else was established |
| `SettleFacts.SilentVenueGivesAZeroThatRests` | openpoly/execution/live_executor.py:860-908 | a venue script on which that happens |
| `SettleFacts.SettleOutlastsItsReadings` | openpoly/execution/live_executor.py:798-908 | what is booked is never more than 1e-9 below an earlier read or a cross the chain stamped |
| `SettleFacts.SettleNeverOverstates` | openpoly/execution/live_executor.py:798-908 | if every number offered is a lower bound on the matched size, so is the settled quantity |
| `SettleFacts.TerminalCountIsBooked` | openpoly/execution/live_executor.py:798-908 | a terminal read of the matched size itself is what is booked |
| `SettleFacts.UsableReadsAreBooked` | openpoly/execution/live_executor.py:681-908 | a positive count in range, read by any attempt the loop owes, is never booked short by more than 1e-9 |
| `SettleFacts.LastReadIsBooked` | openpoly/execution/live_executor.py:841-908 | nor is that of the last read, when no attempt read the order as terminal |
| `SettleFacts.WalletIsBookedWhenNothingElseSays` | openpoly/execution/live_executor.py:754-908 | when neither the response nor any read says how much filled, what the wallet moved is booked, up to the size |
| `FillPrice.ResolveFill` | openpoly/execution/live_executor.py:910-1022 | quantity, price or skip reason of one answered order, against its specification |
| `FillPrice.NoMatchIsCounted` | openpoly/execution/live_executor.py:959-980 | `live_no_match` if and only if the settle counted zero off the book and both amounts were read; it then rests on a usable read of zero |
| `FillPrice.FillIsWhatTheSettleEstablished` | openpoly/execution/live_executor.py:910-1022 | a fill is reported exactly when the settle counted more than nothing, with that quantity, the answer's id and transaction and the settle's resting flag; a miss is named after its cause |
| `FillPrice.CrossReadsTheTradedSides` | openpoly/execution/live_executor.py:366-405 | a buy takes shares and makes USDC, a sell the reverse; a share count beyond the order is no count |
| `FillPrice.MissingAmountsAreZero` | openpoly/execution/live_executor.py:102-119 | absent or blank amounts are a clean zero, unparseable ones leave the response unusable |
| `FillPrice.CompleteCrossIsBooked` | openpoly/execution/live_executor.py:798-840 | an answer that counts the whole order is booked at once with that count, and nothing rests |
| `FillPrice.CompleteAnswersAreBooked` | openpoly/execution/live_executor.py:910-1022 | and at the quotient of its USDC and its shares, when that is in band |
| `FillPrice.AStampKeepsTheCross` | openpoly/execution/live_executor.py:549-586 | a final read takes back what the response counted beyond it if and only if the response named no transaction |
| `FillPrice.BookedPriceIsInBand` | openpoly/execution/live_executor.py:269-322 | whatever was implied and whatever the limit, the booked price is one the venue could trade |
| `FillPrice.WorstEdgeNeedsABadLimit` | openpoly/execution/live_executor.py:269-322 | with a limit in band the worst edge is never booked |
| `FillPrice.TheWorstEdgeIsForTheSide` | openpoly/execution/live_executor.py:269-322 | with neither price in band a buy is booked at 0.9999 and a sell at 0.0001 |
| `FillPrice.BlendPaysForBoth` | openpoly/execution/live_executor.py:982-1003 | quantity times price is the venue's USDC plus the raced shares at the limit; a short fill keeps the cross average |
| `FillPrice.BlendStaysBetween` | openpoly/execution/live_executor.py:982-1003 | the blend stays on the cross's side of the limit |
| `FillPrice.EstimateIsAtLeastTheLimit` | openpoly/execution/live_executor.py:325-350 | a sell estimate never undercuts its limit |
| `FillPrice.EstimateOfAnEmptyLadder` | openpoly/execution/live_executor.py:325-350 | with no bid at or above the limit a sell is estimated at the best bid cached since, when that is in band and above the limit, and otherwise at the limit |
| `FillPrice.LimitIsRespected` | openpoly/execution/live_executor.py:910-1022 | no BUY is booked above its limit and no SELL below it unless the venue's own amounts broke the limit; quantity and price stay in range |
| `FillPrice.BookedNotional` | openpoly/execution/live_executor.py:982-1022 | the same identity for the fill that is booked |
| `FillPrice.QuietFillsAreBookedAtTheLimit` | openpoly/execution/live_executor.py:982-1022 | what filled after an answer that counted nothing is booked at the limit; after an unusable answer a sell is booked at its estimate |
| `FillPrice.BalanceFillIsBounded` | openpoly/execution/live_executor.py:1024-1069 | a fill read off the wallet is what moved, up to the size, within its limit, flagged as resting exactly when short, and names no order |
| `FillPrice.LostResponsesAreReadOffTheWallet` | openpoly/execution/live_executor.py:1024-1069 | an unreadable or negative wallet leaves the fill unknown, one that did not move says there was none, any other says there was one |
| `Live.LiveExecutor.ExecuteSell` | openpoly/execution/live_executor.py:1355-1435 | the guarded sell: re-check of a resting order, then the sell, with the trace of posts it leaves |
| `Live.LiveExecutor.SellUnguarded` | openpoly/execution/live_executor.py:1437-1633 | every early refusal, the POST, and the write to the ledger |
| `Live.LiveExecutor.ExecuteBuy` | openpoly/execution/live_executor.py:1210-1353 | every early refusal, the POST, and the row opened |
| `Live.PostedSellsAreValid` | openpoly/execution/live_executor.py:1437-1500 | a SELL is posted only in band, at or above the tick, for at least one share, and never below the best bid without a lower floor |
| `Live.SellIsSignedAt` | openpoly/execution/live_executor.py:1455-1482 | a sell is signed at the decision's floor when that is below the best bid, raised to one tick, and otherwise at the best bid raised to one tick; a missing tick is a cent; its size is within a hundredth of the position |
| `Live.SellIsPostedExactlyWhen` | openpoly/execution/live_executor.py:1437-1500 | a sell goes out if and only if its market is known, a bid is cached, the price it is signed at is in band, at least one share is held and the balance is synced |
| `Live.SellReportsWhatItWrites` | openpoly/execution/live_executor.py:1579-1633 | a filled sell appends one fill at its reported price of its reported quantity, up to what the row held, and leaves the row open exactly when 0.01 or more is left; any other sell leaves the ledger as it is |
| `Live.FilledSellsAreWritten` | openpoly/execution/live_executor.py:1579-1633 | a fill reaches the ledger if and only if the database takes the write and the row is open |
| `Live.QuietSellsAreBookedAsSigned` | openpoly/execution/live_executor.py:982-1022 | what filled after an answer that counted nothing is booked at the price the sell was signed at |
| `Live.RefusedSellsBookNothing` | openpoly/execution/live_executor.py:141-164 | a sell is turned down exactly when the answer's success is false, as a boolean or as text, or is absent beside an empty id; every other answer is settled |
| `Live.UnansweredOrdersAreSettledByTheWallet` | openpoly/execution/live_executor.py:1538-1577 | a refused order books nothing; after a lost response what the wallet moved is booked, up to the size, at the limit or for a sell at the estimate |
| `Live.FullSellsAreBookedInFull` | openpoly/execution/live_executor.py:1437-1633 | a sell the venue answers in full is booked in full for the USDC it names, and nothing rests |
| `Live.SoldPriceRespectsTheLimit` | openpoly/execution/live_executor.py:1437-1577 | a filled sell books at most its size at a price in band, below its limit only if the venue's own amounts say so |
| `Live.BoughtRowsAreValid` | openpoly/execution/live_executor.py:1210-1353 | a filled buy opens exactly one row: a positive quantity within the size, in band, above the limit only if the venue's own amounts say so |
| `Live.BuyIsPostedExactlyWhen` | openpoly/execution/live_executor.py:1210-1278 | a buy goes out if and only if its market and token are known, no row of the market and side is open, its price is in band, its size is worth at least $1.10 at that price and the wallet could be read |
| `Live.BuyReportsWhatItWrites` | openpoly/execution/live_executor.py:1210-1353 | a filled buy opens one row and one fill of its reported quantity at its reported price, with the market's token and condition, the belief, the news and the venue's ids; any other buy leaves the ledger as it is |
| `Live.FullBuysAreBookedInFull` | openpoly/execution/live_executor.py:1210-1353 | a buy the venue answers in full is booked in full for the USDC it names |
| `Live.BuysNameWhatTheyLeave` | openpoly/execution/live_executor.py:1210-1353 | a buy names the order it may have left resting if and only if its answer has a usable id, its settle did not show the order off the book and the ledger took its fill, if any |
| `Live.FullFillClosesTheRow` | openpoly/execution/live_executor.py:1579-1633 | a full fill of the row's quantised quantity closes the row |
| `Live.NeverASecondSell` | openpoly/execution/live_executor.py:1381-1435 | over any sequence of sells, answers and other writers of the ledger, after a result named a resting order no SELL is posted for that position until the venue showed the order off the book (by the settle's rule), or a re-check took an implausible read for that |
| `Live.PendingOrdersBlock` | openpoly/execution/live_executor.py:1381-1400 | while an order of the position may rest and its re-check fails, a sell changes nothing and names that order |
| `Live.OnlyThisSellIsRemembered` | openpoly/execution/live_executor.py:1381-1402 | once no order is pending or its re-check passed, what is remembered of the position is the order this sell named, if any, with its size and booked quantity; other positions keep theirs |
| `Live.GuardPassesExactly` | openpoly/execution/live_executor.py:1403-1435 | the re-check passes if and only if the cancel is acknowledged, a read is terminal by the settle's rule, or a read with an open status reports more matched than the order plus 1e-9; the last never shows the order off the book |
| `Live.ResultNamesExactlyTheKnown` | openpoly/execution/live_executor.py:1437-1633 | for every outcome of a POST, the result names the order left resting if and only if its answer carried a usable id and its fill, when there is one, reached the ledger |
| `Live.SecondSellOnlyOverAForgottenOrder` | openpoly/execution/live_executor.py:1355-1435 | over any such sequence, a SELL follows one that left an order resting only if the venue showed that order off the book in between, an implausible read was taken for that, or the order's ledger write failed, its answer had no usable id, or it was never answered |
| `Live.NextSellPostsExactlyWhenForgotten` | openpoly/execution/live_executor.py:1381-1435 | the next sell that nothing else blocks is posted if and only if the order left resting is one of those three, is now shown off the book, or is over-read |
| `Live.RefusedWriteAllowsASecondSell` | openpoly/execution/live_executor.py:1579-1633 | a run of two calls that posts two SELLs while the first still rests, the ledger having refused its partial fill |
| `Live.OverreadAllowsASecondSell` | openpoly/execution/live_executor.py:1419-1425 | a run of two calls that posts a second SELL over an order the executor holds, on a read that says LIVE with five million shares matched of five |
| `Paper.PaperExecutor.ExecuteSell` | openpoly/execution/executor.py:125-230 | the paper sell: every refusal, the fill, and the ledger it leaves |
| `Paper.PaperExecutor.ExecuteBuy` | openpoly/execution/executor.py:63-123 | every refusal, and otherwise one row opened with exactly what was filled at the best ask |
| `Paper.PaperSellTakesWhatTheFloorAdmits` | openpoly/execution/executor.py:125-230 | told by the number n of levels at or above the lower of floor and best bid: a paper sell fills if and only if the book is usable, those levels are in band and hold at least a share of the position; it takes what they hold of it, to the hundredth, at the average price of taking that from them, with the fee at that price |
| `Paper.PaperSellWritesItsFill` | openpoly/execution/executor.py:125-230 | a filled paper sell appends one fill of what it took, up to what the row held, at its price and fee; a skipped one writes nothing |
| `Paper.PaperBuyTakesTheBestAsk` | openpoly/execution/executor.py:63-123 | a paper buy fills if and only if market, token and a free row allow it and what is wanted and offered, to the hundredth, is in band and worth $1.10; it takes that at the best ask |
| `Paper.PaperBuyWritesItsFill` | openpoly/execution/executor.py:63-123 | and opens one row and one fill of exactly that |
| `Paper.PaperSellStaysInTheBook` | openpoly/execution/executor.py:177-197 | a sell takes at least one share at no more than the best bid; unless the rounding passes the depth, which it never does on the share grid, it takes at most the depth at or above its floor at no less than the floor |
| `Paper.PaperPriceIsTheLiveEstimate` | openpoly/execution/live_executor.py:325-350 | paper never books more than live would estimate for the same ladder, limit and quantity, and books the same if and only if the rounding did not pass the depth |
| `Paper.PaperSellExceedsDepthExactlyWhenRounded` | openpoly/execution/executor.py:177-197 | the size exceeds the depth if and only if the quantity wanted lies within 5e-7 hundredths of the first whole hundredth past the depth |
| `Paper.SellGoesBelowItsFloorExactlyWhenShort` | openpoly/execution/executor.py:177-197 | a sell is booked below its own floor if and only if it passes the depth and the whole depth brings less than its size at the floor |
| `Paper.OffGridSellGoesBelowItsFloor` | openpoly/execution/executor.py:177-197 | a ladder on which it does, and books below its own floor |
| `Paper.PaperFeeIsConservative` | openpoly/execution/executor.py:195-204 | at a non-negative rate the fee of a paper sell is never below the per-level fees |
| `Paper.PaperBuyIsPlaceableLive` | openpoly/execution/executor.py:63-123 | what paper buys, live could place unchanged |
| `Paper.PaperSellIsPlaceableLive` | openpoly/execution/executor.py:125-230 | what paper sells, live would not refuse to post |
| `Paper.SellsAreBoundedByShares` | openpoly/execution/executor.py:186-214 | a row of q shares takes at most floor(q) paper sells, over any sequence of books, floors, reasons and times |
| `CloseProtocol.ClaimKeepsInv` | openpoly/runtime/exit_monitor.py:476-496 | a claim, taken in the stretch that read the row, keeps the invariant |
| `CloseProtocol.CommitKeepsInv` | openpoly/portfolio/store.py:269-310 | a worker's late commit keeps it: nobody else wrote the row since it was read |
| `CloseProtocol.DirectCommitKeepsInv` | openpoly/runtime/settlement_monitor.py:177-202 | so does a sweep that closes a row directly |
| `CloseProtocol.StepKeepsInv` | openpoly/api/portfolio_routes.py:121-143 | every step of every writer keeps it |
| `CloseProtocol.Closers.TryClaim` | openpoly/runtime/exit_monitor.py:476-496 | the claim of a seller: granted exactly when nobody sells the id and, the bulk route aside, its row is open; the claimant is then the only seller |
| `CloseProtocol.Closers.ReleaseClaim` | openpoly/runtime/closing_registry.py:35-38 | after the release nobody sells the id |
| `CloseProtocol.Closers.CloseDirectly` | openpoly/runtime/settlement_monitor.py:177-202 | a sweep closes a row exactly when nobody sells it and it is open, and otherwise leaves everything as it is |
| `CloseProtocol.EveryInterleavingIsSafe` | openpoly/runtime/exit_monitor.py:470-511 | in every interleaving: the claim set is exactly the ids with a sell in flight, no id has two sellers, no pending write is stale, claimed rows wait for their seller, and the ledger is consistent |
| `CloseProtocol.StepIsAtomic` | openpoly/portfolio/store.py:242-310 | a split read and commit amounts to one atomic store call |
| `CloseProtocol.InterleavingsAreSerial` | openpoly/portfolio/store.py:242-310 | every interleaving leaves the tables of some sequence of atomic store calls |
| `CloseProtocol.SellersRecordTheirSell` | openpoly/portfolio/store.py:242-310 | from any state of a run, a seller whose row is open reads, commits exactly its sell and releases its claim |
| `CloseProtocol.PendingCommitsRecordTheirSell` | openpoly/portfolio/store.py:242-310 | in every reachable state a pending commit is enabled and amounts to its sell on the tables as they are then |
| `CloseProtocol.BulkMayClaimAClosedRow` | openpoly/api/portfolio_routes.py:188-243 | the bulk route, reading its list once, can claim a row closed since |
| `CloseProtocol.ClosedClaimsNeverCommit` | openpoly/portfolio/store.py:256-268 | and such a seller never writes it |
| `ExitMonitor.MarkIsTheFirstDeepLevelNearTheTop` | openpoly/runtime/exit_monitor.py:999-1012 | on a ladder the mark is the first deep level of the book when that is within three levels and 0.05 of the top, else nothing |
| `ExitMonitor.ExitMonitor.BootstrapPeak` | openpoly/runtime/exit_monitor.py:251-280 | seeds one position's peak from its snapshots |
| `ExitMonitor.ExitMonitor.ObservePrice` | openpoly/runtime/exit_monitor.py:322-337 | raises the peak of every watcher of the token |
| `ExitMonitor.ExitMonitor.ObserveBook` | openpoly/runtime/exit_monitor.py:349-362 | does so with the book's mark, when it has one |
| `ExitMonitor.ExitMonitor.BeginSweep` | openpoly/runtime/exit_monitor.py:374-386 | rebuilds the watch lists and forgets what is no longer open |
| `ExitMonitor.ExitMonitor.Mark` | openpoly/runtime/exit_monitor.py:615-681 | the price and peak handed to the exit section, and the peak it leaves |
| `ExitMonitor.MarkHandsTheFirstDeepLevel` | openpoly/runtime/exit_monitor.py:637-669 | on every ladder: handed is the price of the first deep level near the top with the peak raised to it; without one the best bid, flagged thin, with the peak as it is, only to a section that reads thin marks; otherwise nothing |
| `ExitMonitor.ExitMonitor.Unwatch` | openpoly/runtime/exit_monitor.py:339-347 | stops observing one position, dropping an empty list |
| `ExitMonitor.ExitMonitor.SettleFill` | openpoly/runtime/exit_monitor.py:819-843 | what a filled sell leaves of the position's state |
| `ExitMonitor.ExitMonitor.TrackThinStreak` | openpoly/runtime/exit_monitor.py:594-613 | the streak after a pending thin stop, or after any other outcome |
| `ExitMonitor.ExitMonitor.RecordCloseFailure` | openpoly/runtime/exit_monitor.py:576-592 | the backoff a failed close starts or doubles |
| `ExitMonitor.ExitMonitor.ClearBackoff` | openpoly/runtime/exit_monitor.py:553-559 | drops the backoff of one position and nothing else |
| `ExitMonitor.ExitMonitor.IsBackingOff` | openpoly/runtime/exit_monitor.py:561-574 | waiting exactly when the close repeats the failed one and its wait is not over |
| `ExitMonitor.ExitMonitor.Evaluate` | openpoly/runtime/exit_monitor.py:432-485 | the tail of an evaluation: wait, count the streak, drop the backoff, or attempt the close |
| `ExitMonitor.CloseIsAttemptedExactlyWhen` | openpoly/runtime/exit_monitor.py:432-485 | a close is attempted if and only if the decision asks for one, the row is open, nobody has claimed it, and no failed close holds it back: none, another trigger, a floor lower by more than 1e-9, or a wait that is over |
| `ExitMonitor.EvaluationLeaves` | openpoly/runtime/exit_monitor.py:432-485 | what an evaluation that does not wait leaves: a pending thin stop counts a new fetch once, any other outcome starts the streak over, and only holding within thresholds drops the backoff |
| `ExitRuns.WatchFollowsHistory` | openpoly/runtime/exit_monitor.py:339-386 | a position watches a token exactly when the last sweep listed them and no filled sell ended it since |
| `ExitRuns.PeakIsTheRunningMaximum` | openpoly/runtime/exit_monitor.py:322-362 | over any run a peak is the largest of the seed and the depth-guarded marks decided on or observed while watched since it was last dropped; thin books never move it |
| `ExitRuns.HandedPeakIsTheMaximum` | openpoly/runtime/exit_monitor.py:653-662 | the peak handed to the section is that maximum with the current mark; on a thin book, of the real marks only |
| `ExitRuns.HandedPriceAndPeak` | openpoly/runtime/exit_monitor.py:637-669 | over any run and every ladder: handed is the first deep level near the top beside the largest price seen with it; without one the best bid, flagged thin, beside the largest real mark, to a section that reads thin marks; otherwise nothing |
| `ExitRuns.OpenRowsOnlyShrink` | openpoly/portfolio/store.py:275-308 | over any store calls a row that is open was open before, with at least the quantity it has now |
| `ExitRuns.PeakOutlivesTheSellIffTheRowDoes` | openpoly/runtime/exit_monitor.py:827-843 | with other writers before and after the sell, the peak is kept exactly when the row is still open; when the row cannot be re-read, exactly when less was sold than held |
| `ExitRuns.StreakCountsDistinctFetches` | openpoly/runtime/exit_monitor.py:1028-1033 | over any run with known, non-decreasing stamps the streak is the number of distinct fetches pending, and the section is told the number of distinct earlier ones |
| `ExitRuns.CountedStampsAdvance` | openpoly/markets/store.py:268-273 | in any run of the monitor beside any run of the book cache, the stamps the streak counts are known and never go backwards |
| `ExitRuns.StreakCountsCachedFetches` | openpoly/runtime/exit_monitor.py:594-613 | so in every such run the streak is the number of distinct fetches on which the stop was pending, and the section is told the number of distinct ones before the book now cached |
| `CloseRetries.WaitIsExponential` | openpoly/runtime/exit_monitor.py:576-592 | over any run the backoff after k recorded repetitions of one failed close is min(tick * 2^(k-1), 120) from the last failure, and starts over on another trigger or a lower floor |
| `CloseRetries.BackoffNeverHoldsLonger` | openpoly/runtime/exit_monitor.py:561-592 | no close is held back for more than 120 seconds after a failure |
| `CloseRetries.EveryAttemptWaited` | openpoly/runtime/exit_monitor.py:399-511 | over any run every attempt, failed or raised, started only when the backoff of the failures recorded before it let it, and after the attempt before it ended |
| `CloseRetries.AttemptsAreBounded` | openpoly/runtime/exit_monitor.py:561-592 | whatever else a run holds, over any stretch in which each attempt repeats the one before it and that one did not raise, two attempts are the sum of the waits between them apart, which bounds the attempts in any window of time |
| `CloseRetries.FullWaitsExactlyWithoutErrors` | openpoly/runtime/exit_monitor.py:803-815 | for every list of outcomes, all runs of one close ending that way wait out the full backoff between attempts if and only if no sell but the last raised |
| `CloseRetries.RaisingSellsGoOutEveryTick` | openpoly/runtime/exit_monitor.py:803-815 | three sells that raise go out one tick apart, in two thirds of the time three failures take |
| `Resolution.SettlesIffOneOutcomeWins` | openpoly/runtime/settlement_monitor.py:47-65 | a market settles exactly when one outcome is priced at one and the other at zero to four digits, and then both sides settle complementarily |
| `Resolution.SettlesAtItsOutcomeExactlyWhenTheVenueDoes` | openpoly/runtime/settlement_monitor.py:47-65 | a settling price is the zero or one of its outcome if and only if the venue prices that side at exactly zero or one, and is otherwise near it |
| `Resolution.SettlementMayMissZeroOrOne` | openpoly/runtime/settlement_monitor.py:47-65 | the price booked is the unrounded one: 0.99996 settles at 0.99996 |
| `MarketStore.MarketStore.SetOrderBooks` | openpoly/markets/store.py:144-203 | the batch loop, against its specification: cache, marks and accepted books |
| `MarketStore.MarketStore.PutOrderBook` | openpoly/markets/store.py:205-219 | stored exactly when nothing newer and no 404 as new is known |
| `MarketStore.MarketStore.MarkBookGone` | openpoly/markets/store.py:221-231 | evicts the book and stamps the mark |
| `MarketStore.MarketStore.IsOrderBookUsable` | openpoly/markets/store.py:249-262 | whether a cached book is young enough to fill against |
| `MarketStore.BatchPerToken` | openpoly/markets/store.py:175-203 | the exact effect of a batch on every token: refused, superseded, accepted, kept or dropped |
| `MarketStore.BatchStoresExactlyTheFresh` | openpoly/markets/store.py:144-203 | by stamps alone: a batch book is stored and accepted if and only if no strictly newer one is cached and no 404 as new is marked; a stale one gives way; a token not carried keeps its book exactly when that is newer than the batch, or kept and at most 90 seconds older |
| `MarketStore.RefreshOutlivesTheCycle` | openpoly/markets/store.py:144-203 | a refresh that lands during a sample cycle survives that cycle's commit |
| `BookRun.AcceptedFollowDeliveries` | openpoly/markets/manager.py:358-396 | what a commit delivers is never older than what was delivered for the token before |
| `BookRun.CommitCachesTheNewest` | openpoly/markets/store.py:175-203 | what a commit leaves cached is as new as every delivery and newer than the latest 404 |
| `BookRun.CommitKeepsMarks` | openpoly/markets/store.py:175-247 | a commit leaves each mark the latest 404 of its token |
| `BookRun.StepKeepsInv` | openpoly/markets/manager.py:358-423 | every step keeps the invariant, including that of the batch still in flight |
| `BookRun.EveryRunIsOrdered` | openpoly/markets/manager.py:358-489 | over every run of cycles, refreshes and 404s: delivered stamps never go backwards, no cached book is as old as its token's latest 404, no token is both cached and marked gone |
| `BookRun.NewsIsFresh` | openpoly/markets/store.py:196-218 | over any run a book newer than every delivery and 404 of its token finds nothing in its way |
| `BookRun.RefreshedNewsIsCached` | openpoly/markets/manager.py:471-489 | such a refresh is the book cached and delivered |
| `BookRun.SampledNewsIsCached` | openpoly/markets/manager.py:358-396 | such a book received in a cycle is the one cached and delivered when the cycle commits |
| `BookRun.EmptySweepsKeepOnlyTheKept` | openpoly/markets/manager.py:366-370 | a cycle with nothing to sample leaves exactly the kept tokens' books at most 90 seconds old, and delivers nothing |
| `BookRun.UsableBooksAreAlive` | openpoly/markets/store.py:249-262 | in every reachable state a usable book was received within its age limit and after its token's latest 404, and its token is not marked gone |
| `BookRun.CachedStampsAdvance` | openpoly/markets/store.py:268-273 | the stamp of one token's cached book never goes backwards, whatever was evicted or refetched in between |
| `PersistThrottle.PersistGate.DeliverBooks` | openpoly/markets/manager.py:443-463 | the loop over the delivered books, against its specification |
| `PersistThrottle.PersistGate.PruneLastPersisted` | openpoly/markets/manager.py:425-434 | exactly the stamps that still throttle are kept |
| `PersistThrottle.DeliveriesPersistWhatIsDue` | openpoly/markets/manager.py:443-463 | a delivery persists exactly the tokens that are not throttled or whose stamp is an interval old, and stamps exactly those |
| `PersistThrottle.DueBooksArePersisted` | openpoly/markets/manager.py:443-463 | over any run a delivered book is persisted whenever it is not throttled or no snapshot of its token was taken within the last interval |
| `PersistThrottle.PrunesForgetTheOld` | openpoly/markets/manager.py:425-434 | over any run, right after a prune exactly the stamps younger than the interval are remembered |
| `PersistThrottle.PruningIsInvisible` | openpoly/markets/manager.py:425-434 | any run of deliveries and prunes persists exactly what a never-pruned map would |
| `PersistThrottle.RefreshesAreSpaced` | openpoly/markets/manager.py:443-463 | a throttled refresh is never persisted within one interval of its token's last snapshot |
| `WriteBehind.WriteBehindWriter.EnqueueRow` | openpoly/db/writer.py:94-108 | accepts the row or counts it as dropped, never blocking |
| `WriteBehind.RowsAreAcceptedWhileThereIsRoom` | openpoly/db/writer.py:94-108 | a row joins the queue whenever that is unbounded or has room, and is dropped otherwise |
| `WriteBehind.OnlyFullQueuesDrop` | openpoly/db/writer.py:94-108 | over any run the queue stays within its bound, and a row is dropped only by an enqueue on a full one |
| `WriteBehind.BatchIsTheOldestRows` | openpoly/db/writer.py:169-177 | the drain takes the oldest rows, as many as a batch holds and at least one |
| `WriteBehind.TheDrainGoesRound` | openpoly/db/writer.py:169-220 | a started loop with rows waiting takes a batch, and when its sink returned, well or not, awaits the next with fewer rows queued |
| `WriteBehind.WriteBehindWriter.DrainStep` | openpoly/db/writer.py:169-177 | takes one row and as many more as are waiting, up to the batch size, and hands them over |
| `WriteBehind.WriteBehindWriter.SinkDone` | openpoly/db/writer.py:205-220 | counts a returned batch as written or failed |
| `WriteBehind.WriteBehindWriter.FlushQueue` | openpoly/db/writer.py:179-188 | hands over everything still queued |
| `WriteBehind.StepKeepsInv` | openpoly/db/writer.py:94-220 | every step keeps first in, first out, exactly once |
| `WriteBehind.EveryRunIsExactlyOnce` | openpoly/db/writer.py:94-220 | in every state: rows handed to the sink followed by the queue are the accepted rows in order; accepted plus dropped is offered; the counters say what became of the handed rows |
| `WriteBehind.StopLeavesNothingQueued` | openpoly/db/writer.py:115-133 | after the flush of a stop with no concurrent enqueue the queue stays empty and every accepted row has been handed over |
| `WriteBehind.CancelledWriteIsStillCounted` | openpoly/db/writer.py:150-203 | cancelling the loop in mid-write and flushing loses nothing: the batch is counted when its sink returns |

## Left out

- HTTP, WebSocket and the venue SDK: every request is answered by an arbitrary script; reading the wallet (`_confirm_lost_order_qty`, `_read_ctf_balance_raw`) is one of its answers.
- SQLAlchemy sessions, WAL and engine setup: tables are sequences, and a transaction is its read and its commit.
- Rounding of floating-point arithmetic: reals, with the tolerances the code states.
- Entry and exit section rules, the LLM client, embeddings, analyzer and orchestrator: a decision is an arbitrary event.
- Exit-log rows, hold and error deduplication, the dust marker, telemetry and warn-once sets: observability.
- `_confirm_close`: the re-fetch before a close; a run evaluates the decision it confirmed, after any further marks.
- Ladder parsing (`openpoly/markets/models.py:238-264`): theorems about ladders assume what it establishes (best price first, prices between 0 and 1, positive sizes).
- LiveExecutor's memory of resting orders is lost when the process ends; a restart is not a step of its runs.
- Quantities bought are positive: both executors buy at least one share (`BoughtRowsAreValid`, `PaperBuyIsPlaceableLive`), and the ledger theorems assume it of any opener.
- FillPrice.LimitIsRespected: says nothing where the venue's own amounts report a cross beyond the limit; the code books those amounts.
- BookRun.EveryRunIsOrdered: for serial cycles with distinct tokens per batch and refreshes stamped when stored, as the manager runs them.
- PersistThrottle.PruningIsInvisible: for one fixed interval; restarting the source with another configuration is not a step.
- ExitRuns.StreakCountsDistinctFetches: for stamps that are known and do not decrease; `StreakCountsCachedFetches` has no such condition.
- CloseRetries.FullWaitsExactlyWithoutErrors: the loop's own pause of one tick between sweeps is not a constraint of its runs.
- SettleFacts.CancelsAreBounded: sleeps take exactly the time asked for; requests take any time.
- CloseProtocol.EveryInterleavingIsSafe: a request handler cancelled by its client while its sell runs is not a step.
- WriteBehind.StopLeavesNothingQueued: the ten-second limit on draining an in-flight write is not timed; the write may return at any later step.
- LiveExecutor's retry of a failed ledger write (`_persist_irreversible`): its outcome, written or not, is an input.
- The counters and response bodies of the close routes: in the close protocol a route is its claims, its sells and its releases.
- Equity curve, calibration, shadow report, market filters, canvas, API guards and the frontend.
