# A verified model of QTSS's stateful cores

This project models, in Dafny, the parts of QTSS whose correctness is not visible from any one function:
the lifecycle of AI decisions and the "symbol is blocked" query, the channel-pattern finder and its classifier,
the backtest account with its metrics and parameter search, the hash-chained audit log, the extractor that cuts
a JSON object out of a language model's reply, the resumable kline backfill, the signal snapshot with its frozen
entry price, the confluence score, and the removal of overlapping formations.

Run `dafny verify dfyconfig.toml` here to check everything.

| module | source | what it is about |
|---|---|---|
| `DecisionLifecycle`, `DecisionSafety`, `DecisionStore` | `crates/qtss-ai` storage, approval, client | parent and child rows as a protocol; status parity; at most one blocking decision per symbol; the in-place updates |
| `ChannelResolve`, `ChannelScan`, `ChannelAnalyze` | `crates/qtss-chart-patterns` resolve, scan, find, lib | exhaustiveness, geometric meaning and symmetries of the classifier; the two scanners; the outer search loop |
| `Backtest`, `Metrics`, `Optimize` | `crates/qtss-backtest` | the account ledger over whole runs; drawdown, trade statistics and the Newton root; walk-forward and grid search |
| `AuditPayload`, `AuditChain`, `JsonValues` | `crates/qtss-audit` chain, sink | unique decoding of the canonical payload, the verifier, tamper evidence |
| `JsonScanner` | `crates/qtss-ai/src/parser.rs` | the brace matcher inverts a JSON printer; prose and fences around an object |
| `Backfill` | `crates/qtss-binance/src/market_bars_backfill.rs` | what a run stores, when it may claim the listing date, resuming |
| `SignalSnapshot` | `crates/qtss-analysis/src/engine_loop.rs`, `crates/qtss-chart-patterns/src/dashboard_v1.rs` | the frozen entry price against emitted and recorded events |
| `Scorer` | `crates/qtss-analysis/src/scorer.rs` | order-free meaning of the aggregation loops |
| `Dedupe` | `crates/qtss-chart-patterns/src/formations.rs` | the greedy pass as a maximal overlap-free choice |
| `Options`, `Reals` | | shared vocabulary and facts about reals |

## Reading the model

Prices, `Decimal` and `f64` values are exact reals; a value that is not finite is a missing one. Every committed SQL
statement or transaction is one step and the clock only moves forward. Code that updates rows, fields or accumulators
in place is a class or a method with loops, tied by its `ensures` to a function on values; the theorems are about those
functions and hold for every input or every run.

What comes from outside enters as a parameter: the exchange's history, the digest, serde's verdict on a text, the
orders a strategy sends, the score of a slice, and the failures of reads and writes.

## Where the code does not do what one would expect

Each of these is a theorem. Where a property fails there is a concrete witness, next to the exact condition under which
it does hold unless the item says otherwise.

* **At most one blocking decision per symbol** fails, because `mark_applied` commits two separate updates and the
  decision it is applying does not block in between (`DecisionSafety.UnsafeRunExists`). A block check is safe exactly
  when no decision on its symbol is in that window (`CheckIsSafeIffNoGap`).
* **A late reject is not always without effect**: it reports 0 rows and still rejects the child of a decision whose
  portfolio directive is approved, and it changes nothing in every other case (`DecisionLifecycle.LateVerdictIsNoOp`).
* **An applied portfolio directive is never active again**: `fetch_active_portfolio_directive` also asks for parents with
  status `applied`, but the child of such a parent has left `approved` (`ActiveDirectiveIsApprovedWithParent`).
* **Ids 1 and 2 can come from a strongly contracting channel** once `3 * flat_ratio^2 > 1`, and not before
  (`ChannelResolve.ChannelsAreParallelIff`); all that the ids say about rising, falling and changing gaps holds for every
  ratio (`ShapesAreSound`).
* **Scaling prices can change an id**, because the thresholds of 1e-15 do not scale. It does so exactly when the thin test
  flips, or the parallel test flips where it decides (`ScaleKeepsIdIff`); both happen (`ScaleCanLoseShape`,
  `ScaleCanChangeShape`).
* **The order of two lines can matter to the classifier**: `signum(0.0)` is 1, so lines that meet at the last bar have a
  shape with the upper line first and none with the lower one first (`ChannelResolve.ApexDependsOnOrder`); this is the
  only such case (`SwapKeepsIdIff`, and `NegationMirrorsIdIff` for turning the picture upside down).
* **The price ratio of `check_size_pivots` is not the documented one**: it divides by the absolute value of the largest
  price, not by the largest absolute price. The ratios differ exactly when the lowest price is negative, of larger absolute
  value than the highest, and at most -1e-15 (`ChannelScan.RatioIsDocumentedIff`), as between 1 and -10
  (`DeepWindowDiffers`).
* **`avoid_overlap` never rejects anything within one zigzag level**: it tests whether a window starts inside an earlier
  one, and windows are tried from the newest backwards (`ChannelAnalyze.AvoidOverlapIsMootOnOneLevel`).
* **Spot closes of another size than the position** put money into cash that no trade explains
  (`Backtest.OversizedCloseLeaks`, exact condition in `BooksBalanceIff`).
* **A backfill interrupted in the middle of a page leaves a gap**: pages are written oldest bar first and callers resume
  from the oldest known bar, so the rest of that page is in the table exactly as far as it was before
  (`Backfill.MidPageInterruptionLeavesGap`). Between pages nothing is lost (`ResumeAfterPages`).
* **One-pass drawdown** can miss the worst pair once equity turns negative (`Metrics.NegativeEquityDiffers`). It is the
  worst pair exactly when every negative point, measured from the lowest positive equity before it, is matched by a fall
  from a running peak (`DrawdownIsPairwiseIff`).
* **Canonical payloads collide** when object keys hold a colon, lead with a brace or hold NUL, because keys are printed
  without quotes (`AuditPayload.ColonKeyCollides`, `BraceKeyCollides`, `NulKeyCollides`), or a text field holds NUL
  (`NulTextCollides`). Without these they do not (`PayloadInjective`); the conditions are sufficient and none can be
  dropped, but they are not claimed to be exact.
* **A verified log may have lost its oldest rows**: the first row is hashed without a previous hash, so an actor that
  begins with one stands in for it (`AuditChain.ShortenedVerifies`). In every other case equal last hashes mean equal
  events row by row, or a collision of the digest (`SameTipSameHistory`). Row ids and times are not hashed.
* **A reply can yield an inner object**: a `json` fence inside a string field is taken for the fence of the reply
  (`JsonScanner.InnerJsonFenceWins`); `ObjectComesOutWhole` says when the object comes out all the same, a sufficient
  condition.
* **Re-entering a side within one bar** freezes a price the event table does not hold, because events are inserted with
  `ON CONFLICT DO NOTHING` (`SignalSnapshot.ReentryInOneBarDiffers`, exact condition in `EntryIsRecordedIff` and, over
  whole runs, `RecordedPriceIsFrozenIff`).
* **Entries and exits do not always alternate**: a snapshot overwritten for want of bars is followed by a second entry
  without an exit (`SignalSnapshot.BlankedPayloadUnpairs`, exact condition over whole runs in `RunsPairIff`).

## Model

| member | source | states |
|---|---|---|
| DecisionLifecycle.StepKeepsParity | crates/qtss-ai/src/storage.rs:394-530 | every step of insert, approve, reject, expire, apply, fail, outcome, sweep and clock keeps parent and child rows in step, including the two half-finished windows |
| DecisionLifecycle.ReachableIsWellFormed | crates/qtss-ai/src/storage.rs:394-530 | the parity invariant holds in every state any interleaving can reach from the empty store |
| DecisionLifecycle.StatusesAgree | crates/qtss-ai/src/storage.rs:740-824 | in every reachable state a settled tactical or operational child carries its parent's status (or execution_failed under error); a portfolio child may only differ as rejected under approved |
| DecisionLifecycle.LateVerdictIsNoOp | crates/qtss-ai/src/storage.rs:740-824 | once a parent has left pending, approve and reject report 0 rows, and leave the whole store unchanged if and only if it is not the reject of a decision whose portfolio directive is approved |
| DecisionLifecycle.FirstVerdictMovesBoth | crates/qtss-ai/src/storage.rs:740-824 | the first verdict on a pending decision reports one row and moves exactly that parent and its child |
| DecisionLifecycle.ExpiryIgnoresDecided | crates/qtss-ai/src/storage.rs:490-530 | the expiry sweep changes neither a decided parent nor any of its children |
| DecisionLifecycle.ExpiryTakesOverdue | crates/qtss-ai/src/storage.rs:490-530 | the sweep expires exactly the pending decisions with an expiry in the past, each with its child, and leaves every other decision, child and field as it was |
| DecisionLifecycle.ActiveDirectiveIsApprovedWithParent | crates/qtss-ai/src/storage.rs:908-922 | in reachable states the active-directive query returns a child if and only if it is a portfolio directive approved together with its parent, so never the (approved, rejected) pair and never an applied one |
| DecisionLifecycle.EligibleOnceApproved | crates/qtss-ai/src/storage.rs:349-390 | no pending child is visible to an executor; an approved tactical one is until its `valid_until`, a position directive for ten minutes from its creation, a portfolio directive always |
| DecisionLifecycle.PortfolioRejectAfterApprove | crates/qtss-ai/src/storage.rs:785-824 | the pair (approved, rejected) is reachable for a portfolio directive |
| DecisionSafety.AtMostOneDecisionBlocks | crates/qtss-ai/src/storage.rs:557-582 | in every run whose block checks avoid the apply window on their own symbol, at most one tactical decision per symbol satisfies the blocking query at the end of the run, so at every moment |
| DecisionSafety.SingleClaimIsExact | crates/qtss-ai/src/storage.rs:557-582 | the invariant behind it holds in exactly those states from which no continuation without a new sweep is ever unsafe |
| DecisionSafety.CheckIsSafeIffNoGap | crates/qtss-ai/src/client.rs:433-439 | a block check that passes keeps the store safe for good if and only if no decision on the symbol is between the two updates of `mark_applied` |
| DecisionSafety.UnsafeRunExists | crates/qtss-ai/src/storage.rs:394-461 | a legal run from the empty store ends with two decisions blocking one symbol |
| DecisionSafety.ReleasedForGood | crates/qtss-ai/src/storage.rs:557-582 | a decision that has stopped claiming its symbol never blocks it again in any continuation |
| DecisionSafety.LateApprovalNeverBlocks | crates/qtss-ai/src/storage.rs:740-783 | approving a pending row whose expiry has passed can never make it block, whatever follows |
| DecisionSafety.BlockingByStatus | crates/qtss-ai/src/storage.rs:544-582 | whether a tactical row blocks its symbol depends on its own status only: pending until the expiry of its decision, approved until its `valid_until`, applied for good save between the two updates, any other status never, nor any row with an outcome |
| DecisionStore.Store.AdminApprove | crates/qtss-ai/src/storage.rs:740-783 | the in-place updates are exactly the approve step; 0 rows on a well-formed store means nothing changed |
| DecisionStore.Store.AdminReject | crates/qtss-ai/src/storage.rs:785-824 | the in-place updates are exactly the reject step, with the parent's row count |
| DecisionStore.Store.ExpireStaleDecisions | crates/qtss-ai/src/storage.rs:490-530 | the in-place sweep is exactly the expire step, also when there is nothing to expire, and reports how many decisions went from pending to expired |
| DecisionStore.Store.MaybeAutoApprove | crates/qtss-ai/src/approval.rs:614-661 | approves exactly when automatic approval is on and the confidence is below the threshold by at most machine epsilon, and otherwise changes nothing |
| DecisionStore.Store.MarkApplied | crates/qtss-ai/src/storage.rs:394-461 | unguarded, it is the two apply steps in a row on an eligible child, and fails without effect only on a missing row |
| DecisionStore.Store.MarkTacticalExecutionFailed | crates/qtss-ai/src/storage.rs:465-486 | likewise the two fail steps for a tactical child |
| DecisionStore.Store.RunTacticalSingle | crates/qtss-ai/src/client.rs:423-566 | check, insert, attach and auto-approve together keep at most one claim per symbol, and insert nothing on a blocked symbol |
| ChannelResolve.ResolveIsShape | crates/qtss-chart-patterns/src/resolve.rs:16-150 | for any two lines the nested angle and convergence tests equal a division-free reading of trends and gaps of the ordered lines, and 0 when the lines are in no order |
| ChannelResolve.EveryChannelHasAShape | crates/qtss-chart-patterns/src/resolve.rs:31-148 | any two lines get an id in 1..13 exactly when they are ordered and both denominators reach 1e-15, else 0: the negative arms are unreachable |
| ChannelResolve.ShapesAreSound | crates/qtss-chart-patterns/src/resolve.rs:61-140 | for any two lines and every flat ratio each id depicts the picture: which lines rise or fall, and a gap grown to at least 3/2 or shrunk to at most 2/3 |
| ChannelResolve.ShapeIsReportedIff | crates/qtss-chart-patterns/src/resolve.rs:61-148 | for ordered lines that are not thin each of the thirteen ids is reported if and only if its picture holds: each line rising, falling or level by more than the flat ratio of its room, and the gap nearly constant, widening or narrowing |
| ChannelResolve.UnparallelChannelIsFallback | crates/qtss-chart-patterns/src/resolve.rs:87-140 | an id of 1 or 2 on lines that are not nearly parallel comes from the contracting fallback arms, and from nowhere else |
| ChannelResolve.ChannelsAreParallelIff | crates/qtss-chart-patterns/src/resolve.rs:87-140 | ids 1 and 2 mean nearly parallel lines on all lines if and only if 3 * flat^2 <= 1 |
| ChannelResolve.FallbackUnreachableIff | crates/qtss-chart-patterns/src/resolve.rs:108-140 | no ordered lines reach the contracting fallbacks to ids 1 and 2 if and only if 3 * flat^2 <= 1 |
| ChannelResolve.SwapKeepsIdIff | crates/qtss-chart-patterns/src/resolve.rs:31-140 | the id does not depend on which line is passed first, if and only if the lines are not an apex with a shape: starting apart, meeting at the last bar, neither denominator below 1e-15 |
| ChannelResolve.ApexDependsOnOrder | crates/qtss-chart-patterns/src/resolve.rs:93-97 | the witness: lines from 10 and 0 that meet at 5 are shape 11 with the upper one first and 0 with the lower one first |
| ChannelResolve.ShiftKeepsId | crates/qtss-chart-patterns/src/resolve.rs:31-140 | the id of any two lines does not depend on a common price offset |
| ChannelResolve.NegatedSwapMirrorsId | crates/qtss-chart-patterns/src/resolve.rs:31-140 | negating all prices and passing the other line first swaps 1/2, 4/5, 7/8, 9/10, 12/13 and fixes 0, 3, 6, 11, for any two lines |
| ChannelResolve.NegationMirrorsIdIff | crates/qtss-chart-patterns/src/resolve.rs:31-140 | with the lines in the order given the same holds if and only if they are not an apex with a shape |
| ChannelResolve.ScaleMovesThreshold | crates/qtss-chart-patterns/src/resolve.rs:31-140 | scaling prices and thresholds together keeps the id |
| ChannelResolve.ThresholdKeepsIdIff | crates/qtss-chart-patterns/src/resolve.rs:31-140 | two values of the 1e-15 thresholds give one id if and only if the lines are in no order, or the thin tests agree and the parallel tests agree wherever they decide |
| ChannelResolve.ScaleKeepsIdIff | crates/qtss-chart-patterns/src/resolve.rs:31-140 | scaling prices by any positive c keeps the id if and only if the lines are in no order or those tests agree under 1e-15 and 1e-15 / c |
| ChannelResolve.ScaleKeepsId | crates/qtss-chart-patterns/src/resolve.rs:31-140 | the corollary for channels wide against both thresholds |
| ChannelResolve.ScaleCanLoseShape | crates/qtss-chart-patterns/src/resolve.rs:31-60 | the family in which the thin test flips: a channel with a shape loses it when prices are scaled down |
| ChannelResolve.ScaleCanChangeShape | crates/qtss-chart-patterns/src/resolve.rs:69-140 | a witness for the other test: a diverging channel of a few 1e-15 is named parallel until its prices are scaled up |
| ChannelScan.TrendLineInspect | crates/qtss-chart-patterns/src/scan.rs:71-113 | the scoring loop: valid exactly when no bar breaks the line and the touch share stays below the limit, with the touches up to the first break as score |
| ChannelScan.TouchCountIsCardinality | crates/qtss-chart-patterns/src/scan.rs:71-113 | the score of an unbroken line is the number of bars it touches |
| ChannelScan.LineMeetsPoints | crates/qtss-chart-patterns/src/lib.rs:90-105 | the line through two points has their prices at their bars, and no value when they share a bar |
| ChannelScan.LineIsStraight | crates/qtss-chart-patterns/src/lib.rs:90-105 | from any bar to the next the line moves by one common step |
| ChannelScan.JudgeInPrices | crates/qtss-chart-patterns/src/scan.rs:86-109 | whatever the direction factor, an upper line breaks below a body and a lower one above it, otherwise touches within the range of the bar, and must touch at the third pivot |
| ChannelScan.PickedLineWon | crates/qtss-chart-patterns/src/scan.rs:116-148 | the picked line is reported with its own verdict and score and joins its own two points; one of the first two is picked if and only if it holds and touches more bars than both others |
| ChannelScan.BarRatioIsBalance | crates/qtss-chart-patterns/src/scan.rs:33-50 | the enabled ratio test holds if and only if the first leg is not empty and neither leg is shorter than the limit times the other |
| ChannelScan.AlternatingIsOpposite | crates/qtss-chart-patterns/src/find.rs:223-229 | the pivots alternate if and only if neighbouring directions have a negative product |
| ChannelScan.HintsMeetPivots | crates/qtss-chart-patterns/src/find.rs:364-441 | the drawn lines span the window and pass through the pivots they were picked for |
| ChannelScan.ReportedPicksWon | crates/qtss-chart-patterns/src/find.rs:245-285 | the reported picks and scores are those of the winning lines of the upper and the lower pivots, and all hold |
| ChannelScan.HintsFollowPickedLines | crates/qtss-chart-patterns/src/find.rs:364-441 | the drawing hints have the value of the picked line at every bar |
| ChannelScan.HintsClassifyAlike | crates/qtss-chart-patterns/src/find.rs:364-441 | classifying the drawn lines gives back the reported id |
| ChannelScan.ReportedShapeIsDrawn | crates/qtss-chart-patterns/src/find.rs:213-304 | the drawn lines are the picture the reported id stands for, and the id names a shape if and only if they are ordered and not thin |
| ChannelScan.CheckSizePivots | crates/qtss-chart-patterns/src/find.rs:115-151 | the loop decides the size filters by the extreme bars and prices of the window |
| ChannelScan.SizeOkByExtremes | crates/qtss-chart-patterns/src/find.rs:115-151 | those are the true extremes: the filters hold if and only if the bounds hold of any bars and prices that bound every pivot and are attained by some |
| ChannelScan.DivisorIsLargestIff | crates/qtss-chart-patterns/src/find.rs:112-139 | the divisor of the price ratio, the absolute value of the highest price, is the largest absolute price if and only if the lowest price is not below its negation |
| ChannelScan.RatioIsDocumentedIff | crates/qtss-chart-patterns/src/find.rs:112-139 | the ratio is the documented one, over the largest absolute price, if and only if the divisors agree in that way or the lowest price is above -1e-15, so that both count as zero |
| ChannelScan.DeepWindowDiffers | crates/qtss-chart-patterns/src/find.rs:112-150 | the witness: between 1 and -10 the ratio is 11, not the documented 1.1, and a maximum of 2 rejects the window |
| ChannelScan.TryScanIsFilteredScan | crates/qtss-chart-patterns/src/find.rs:471-685 | the filtering scanner returns Ok(s) if and only if the plain scanner returns s and s passes every optional filter |
| ChannelScan.FiltersInFull | crates/qtss-chart-patterns/src/find.rs:520-685 | what acceptance asks of a found channel, filter by filter: start outside every range to avoid, not the window to skip, an allowed id, the wanted last direction, the newest close between the lines |
| ChannelScan.ScannersAgree | crates/qtss-chart-patterns/src/find.rs:213-304 | with the optional filters off the two scanners agree on every window |
| ChannelScan.ScanSucceedsIff | crates/qtss-chart-patterns/src/find.rs:213-304 | on five or six pivots with increasing bars a scan succeeds if and only if alternation, ratios and both inspections pass |
| ChannelAnalyze.Analyze | crates/qtss-chart-patterns/src/find.rs:756-890 | the nested loops with their early exit collect the same channels as trying every window of every level in order under the ranges found so far |
| ChannelAnalyze.OutcomesAreGenuine | crates/qtss-chart-patterns/src/find.rs:803-873 | at most 1..32 channels, each one a plain scan of its own pivots that passed the filters when tried |
| ChannelAnalyze.OutcomesAreLocated | crates/qtss-chart-patterns/src/find.rs:803-873 | every channel's pivots are the pivots that end its recorded skip before the newest of its recorded level, and no window is reported twice |
| ChannelAnalyze.EveryWindowIsAnswered | crates/qtss-chart-patterns/src/find.rs:803-873 | while there is room for more channels, every window within the skip limit on every level with six pivots is either refused by the scanner, given the channels before it, or reported |
| ChannelAnalyze.NoStartInsideEarlier | crates/qtss-chart-patterns/src/find.rs:849-853 | when overlaps are to be avoided no channel starts strictly between two pivots of one found before it |
| ChannelAnalyze.AvoidOverlapIsMootOnOneLevel | crates/qtss-chart-patterns/src/find.rs:815-866 | on one level with no ranges given, the overlap switch changes no outcome |
| Backtest.LedgerIdentity | crates/qtss-backtest/src/engine.rs:146-328 | after any accepted and refused orders marked equity is initial cash plus closed profit minus the open entry fee plus open profit, plus what wrongly sized spot closes leaked |
| Backtest.BooksBalanceIff | crates/qtss-backtest/src/engine.rs:146-328 | equity agrees with the trades after every order of a run at every price if and only if no spot close has another size than its position |
| Backtest.OversizedCloseLeaks | crates/qtss-backtest/src/engine.rs:237-263 | buying one unit on spot and selling two leaves 100 that no trade explains |
| Backtest.MarketsAgree | crates/qtss-backtest/src/engine.rs:146-328 | spot and futures, at any leverage, that accept the same orders close the same trades, and their equities differ by the leaks alone |
| Backtest.MaxOrderQtyIsExact | crates/qtss-backtest/src/engine.rs:110-135 | an opening order is accepted if and only if it is a spot short sale or its notional at the fill price is within the maximum quantity at the quoted price; without slippage, a spot short sale or a quantity within the maximum |
| Backtest.SpotNeverOverdraws | crates/qtss-backtest/src/engine.rs:146-293 | on spot, with fees and slippage of at most the whole price, no run of orders makes cash negative |
| Backtest.BacktestContext.MarketOrder | crates/qtss-backtest/src/engine.rs:146-293 | the four open and close paths in place: the refusal and the whole new account, unchanged when refused |
| Backtest.FillsAreWorse | crates/qtss-backtest/src/engine.rs:158-164 | a buy fills at or above the quoted price and a sell at or below it, by the slippage share of the price; the recorded fee is the fee share of what was filled |
| Backtest.RoundTripCosts | crates/qtss-backtest/src/engine.rs:145-305 | opening and closing the same size at one quoted price costs exactly both slippages and both fees, on spot and futures, and never raises equity while slippage stays within the whole price |
| Backtest.WhenRefused | crates/qtss-backtest/src/engine.rs:145-305 | the three refusals: no quantity; same side as the position; a spot buy or a futures opening that would leave negative cash |
| Backtest.MarketOf | crates/qtss-backtest/src/engine.rs:305-310 | futures keep the configured leverage between 1 and 125 and are held to these bounds outside; spot has 1 |
| Backtest.Run | crates/qtss-backtest/src/engine.rs:330-372 | one equity point per bar, marked on the whole order history; all trades exactly once; a run without leaks that ends flat ends at initial cash plus the sum of profits |
| Metrics.ExcessIsMoveSquared | crates/qtss-backtest/src/metrics.rs:208-228 | the square of each Newton guess exceeds S by the square of the last move |
| Metrics.GuessesDescend | crates/qtss-backtest/src/metrics.rs:208-228 | guesses after the first round stay at or above the root and never rise |
| Metrics.ErrorAfter | crates/qtss-backtest/src/metrics.rs:208-228 | after k rounds the error against a root is at most (S + 1) / 2^k |
| Metrics.Sqrt | crates/qtss-backtest/src/metrics.rs:208-228 | none exactly below zero; on an early exit 0 <= r*r - S < 1e-20; otherwise the 32nd guess |
| Metrics.SqrtAccuracy | crates/qtss-backtest/src/metrics.rs:208-228 | the result is at or above any positive root, by less than 1e-10 or, when the rounds ran out, by at most (S + 1) / 2^32 |
| Metrics.MaxDrawdown | crates/qtss-backtest/src/metrics.rs:85-100 | the least fall from the running peak; the least relative change over all pairs i <= j with a positive start exactly when negative points are covered, and on non-negative curves always, then within -1 and 0 |
| Metrics.DrawdownIsPairwiseIff | crates/qtss-backtest/src/metrics.rs:85-100 | the one-pass result is the worst pair of any curve if and only if every negative point, measured from the lowest positive equity before it, is matched by a fall from a running peak |
| Metrics.NegativeEquityDiffers | crates/qtss-backtest/src/metrics.rs:85-100 | the witness: on 1, 2, -1 the one-pass result is -150% although a pair falls by 200% |
| Metrics.ProfitMinusLossIsPnl | crates/qtss-backtest/src/metrics.rs:171-201 | gross profit minus gross loss is the sum of profits and losses |
| Metrics.TradeStats | crates/qtss-backtest/src/metrics.rs:171-201 | the win rate times the number of trades counts the trades that do not lose; the profit factor times gross loss is gross profit; the losing streak is exactly the longest run |
| Metrics.GrossOfOneMore | crates/qtss-backtest/src/metrics.rs:171-201 | a trade moves gross profit by its profit or gross loss by its loss, and not the other |
| Optimize.ProductIsAssignments | crates/qtss-backtest/src/optimize.rs:135-155 | the product holds a combination if and only if it gives every axis one of its values and nothing else |
| Optimize.ProductRepeats | crates/qtss-backtest/src/optimize.rs:135-155 | no combination is listed twice if and only if every axis has distinct values or some axis has none |
| Optimize.CartesianProduct | crates/qtss-backtest/src/optimize.rs:135-155 | the nested loops list exactly the assignments, in order, once each under that condition |
| Optimize.FitsIffCounted | crates/qtss-backtest/src/optimize.rs:114-130 | window k fits into the bars if and only if k < floor((n - train - test) / step) + 1 |
| Optimize.TestsDisjointIff | crates/qtss-backtest/src/optimize.rs:114-130 | the test slices are pairwise disjoint if and only if step >= test or there is one window |
| Optimize.WalkForwardAvg | crates/qtss-backtest/src/optimize.rs:92-132 | terminates after exactly that many in-bounds windows of `test` bars behind `train` bars and returns their mean score; one run over everything when the bars do not suffice |
| Optimize.WindowsAreEvenlySpaced | crates/qtss-backtest/src/optimize.rs:92-132 | the first window starts at the first bar and each next one `step` bars later, with the test bars behind the training bars |
| Optimize.WalkForwardOfConstant | crates/qtss-backtest/src/optimize.rs:92-132 | equal scores have their own value as the result |
| Optimize.WalkForwardIsMean | crates/qtss-backtest/src/optimize.rs:92-132 | the result moves with the score of any one window by its share of the windows |
| Optimize.GridSearch | crates/qtss-backtest/src/optimize.rs:48-89 | returns the first combination with the highest walk-forward score, and none when no score is above the least decimal |
| AuditPayload.CanonInjective | crates/qtss-audit/src/chain.rs:30-47 | two values whose keys hold no colon and lead with no closing brace are equal when they print alike |
| AuditPayload.UnescapeEscape | crates/qtss-audit/src/chain.rs:30-47 | reading a printed string body back after section 7 of RFC 8259 gives the text |
| AuditPayload.EscapesAreShort | crates/qtss-audit/src/chain.rs:45 | the two-character escapes are used for exactly the seven characters that have one among quotes, backslash and controls, and the six-character form only for the other controls |
| AuditPayload.ScalarsAreClean | crates/qtss-audit/src/chain.rs:45 | every literal, string and number of RFC 8259 meets the conditions of the decoding theorem |
| AuditPayload.LexByFirstDifference | crates/qtss-audit/src/chain.rs:33-34 | keys are sorted with a prefix first and otherwise by the first difference |
| AuditPayload.PayloadInjective | crates/qtss-audit/src/chain.rs:10-26 | the hashed bytes determine actor, action, subject, correlation id and payload, when moreover no text field and no key holds NUL |
| AuditPayload.ColonKeyCollides | crates/qtss-audit/src/chain.rs:30-47 | every object with two fields prints like one with a single key that holds a colon |
| AuditPayload.BraceKeyCollides | crates/qtss-audit/src/chain.rs:30-47 | a key that leads with a closing brace makes two different arrays print alike |
| AuditPayload.NulKeyCollides | crates/qtss-audit/src/chain.rs:10-26 | a NUL in a key makes an event without a correlation id collide with one whose id holds the bytes in front of it |
| AuditPayload.NulTextCollides | crates/qtss-audit/src/chain.rs:10-26 | a NUL in the actor can pass for the separator behind it: part of the actor moves into the action |
| AuditChain.VerifyChain | crates/qtss-audit/src/chain.rs:60-93 | accepts exactly the chains whose every row links and hashes, and otherwise reports the first bad row and why |
| AuditChain.SameTipSameHistory | crates/qtss-audit/src/chain.rs:51-93 | two verified logs of any lengths with the same last hash carry the same events and hashes row by row from the end, or exhibit a collision of the digest; only the first row of a shorter log may differ, and then hashes the bytes of its counterpart behind the hash of the row missing in front |
| AuditChain.GraftedIsLongerActor | crates/qtss-audit/src/chain.rs:51-58 | that exception, behind a hash without NUL, is exactly the counterpart's event with the missing hash in front of its actor |
| AuditChain.ShortenedVerifies | crates/qtss-audit/src/chain.rs:60-93 | the exception is real: every verified log can lose its oldest rows this way and still verify with the same last hash |
| AuditChain.MemoryAuditSink.Append | crates/qtss-audit/src/sink.rs:136-155 | appends exactly the given event with the next id and keeps the whole chain verified |
| JsonScanner.FindMatchingBrace | crates/qtss-ai/src/parser.rs:115-145 | the index loop finds the first character at which the depth outside strings returns to zero |
| JsonScanner.MatcherInvertsPrinter | crates/qtss-ai/src/parser.rs:115-145 | on any object printed with the escaping of section 7 of RFC 8259, with any whitespace and any text behind it, the match is the object's last character |
| JsonScanner.FindCaseInsensitive | crates/qtss-ai/src/parser.rs:28-44 | the first position at which the needle matches up to ASCII case, or none |
| JsonScanner.JsonFenceInAnyCase | crates/qtss-ai/src/parser.rs:73-79 | a `json` fence is three backticks and the word in any mixture of cases |
| JsonScanner.TrimTakesBlanks | crates/qtss-ai/src/parser.rs:46-47 | trimming takes all blanks off both ends and nothing else |
| JsonScanner.TryExtractJsonObject | crates/qtss-ai/src/parser.rs:46-71 | the extraction with its fallback scan over later closing braces |
| JsonScanner.ExtractsPrintedObject | crates/qtss-ai/src/parser.rs:46-71 | a prefix without an opening brace, a printed object and any suffix extract to the object's own text |
| JsonScanner.ExtractedTextParses | crates/qtss-ai/src/parser.rs:46-71 | whatever is extracted parses, and stands in the trimmed reply at its first brace |
| JsonScanner.ExtractionMissesNothing | crates/qtss-ai/src/parser.rs:46-71 | if any text from the first opening brace to a closing one is an object, something comes out: what the matching brace delimits when it parses, else the shortest such text |
| JsonScanner.PlainReply | crates/qtss-ai/src/parser.rs:73-113 | in a reply without a fence, inline code or not, the object comes out of the prose around it |
| JsonScanner.FencedReply | crates/qtss-ai/src/parser.rs:73-113 | an object without fences in its strings, behind the first `json` fence, comes out whatever precedes that fence, inline code, plain fences or another object, and whatever follows, closed or not |
| JsonScanner.PlainFencedReply | crates/qtss-ai/src/parser.rs:73-113 | with no `json` fence anywhere, an object without fences in its strings, behind the first plain fence, comes out, closed or not, whatever inline code precedes it |
| JsonScanner.ObjectComesOutWhole | crates/qtss-ai/src/parser.rs:73-113 | an object whose strings hold any fences comes out whole behind any prose without a brace, fences and language lines included, when serde rejects its proper prefixes and each kind of fence stands in the prose or has no brace behind it elsewhere |
| JsonScanner.InnerJsonFenceWins | crates/qtss-ai/src/parser.rs:73-90 | the condition is needed: in an unfenced object a string field that holds a `json` fence and an object hides the object around it |
| Backfill.CastKeepsPage | crates/qtss-binance/src/market_bars_backfill.rs:60-77 | the cast of the remaining count to 32 bits never shrinks a page |
| Backfill.MarketBars.StorePage | crates/qtss-binance/src/market_bars_backfill.rs:103-146 | upserts the page in order up to the target, replacing rows with the same open time |
| Backfill.MarketBars.Run | crates/qtss-binance/src/market_bars_backfill.rs:74-171 | stores exactly the newest bars at or before the cursor, as many as exist up to the target, at least 1 and at most 50000, or five million for target 0; reports their number, the pages, the cursors, and the listing date if and only if fewer bars exist; after each page the table holds exactly the pages so far |
| Backfill.CapacityInNumbers | crates/qtss-binance/src/market_bars_backfill.rs:60-63 | a run takes at most its target, held between 1 and 50000, or 5000 pages of 1000 bars for target 0 |
| Backfill.VisibleIsCount | crates/qtss-binance/src/market_bars_backfill.rs:74-90 | what a run sees is counted by the bars at or before its cursor |
| Backfill.RunStoresNewest | crates/qtss-binance/src/market_bars_backfill.rs:74-171 | afterwards the store holds each of those bars and is otherwise unchanged: no gap and no repeat |
| Backfill.ListingMeansAll | crates/qtss-binance/src/market_bars_backfill.rs:147-156 | when the listing date is reported every bar at or before the cursor is stored |
| Backfill.ResumeFromOldestStored | crates/qtss-binance/src/market_bars_backfill.rs:37-47 | with the newest k bars stored, a run of any target from the oldest of them fetches that bar again and leaves the newest k - 1 plus its capacity, even if newer bars have appeared |
| Backfill.ResumeAfterPages | crates/qtss-binance/src/market_bars_backfill.rs:37-47 | a run interrupted after any number of pages and resumed reaches the store and cursor of any one run, limited or not, that takes as many bars as both together |
| Backfill.FullBackfillResumes | crates/qtss-binance/src/market_bars_backfill.rs:34-39 | a full backfill interrupted after any page and resumed reaches the store of the uninterrupted one |
| Backfill.MidPageInterruptionLeavesGap | crates/qtss-binance/src/market_bars_backfill.rs:103-146 | after an interruption between the bars of a page, resuming from the oldest stored bar never fetches the rest of that page: each of its bars is in the table if and only if it was before |
| Backfill.ResumeIsOneLongerRun | crates/qtss-binance/src/market_bars_backfill.rs:37-47 | finished runs of a and b bars leave the store and cursor of one run of a + b - 1 |
| SignalSnapshot.ComputeDashboard | crates/qtss-chart-patterns/src/dashboard_v1.rs:288-367 | LONG or SHORT exactly when the policy allows the setup side, its sweep fired, both edges are known and the close lies strictly between stop and target; levels then complete and ordered, with the stop 0.8% of the range behind its edge |
| SignalSnapshot.EntryPriceIsFrozen | crates/qtss-analysis/src/engine_loop.rs:670-735 | on every run of ticks, with gaps, flips, failed reads and failed writes, an active payload carries the price of the latest emitted entry event of its side, and a neutral one none |
| SignalSnapshot.UnsoundDashboardLosesPrice | crates/qtss-analysis/src/engine_loop.rs:679-692 | a LONG dashboard without levels would emit an entry and store no price |
| SignalSnapshot.EntryIsRecordedIff | crates/qtss-storage/src/engine_analysis.rs:619-640 | after an entry the event table holds the frozen price if and only if the insert was not lost and no other price is on record for that kind and bar |
| SignalSnapshot.RecordedPriceIsFrozenIff | crates/qtss-analysis/src/engine_loop.rs:1193-1253 | the table holds the frozen price after every tick of a run if and only if it took every entry of the run: free and not lost, or the same price on record |
| SignalSnapshot.ReentryInOneBarDiffers | crates/qtss-storage/src/engine_analysis.rs:619-640 | entering at 100, leaving and entering at 102 in one bar freezes 102 while the table keeps 100 |
| SignalSnapshot.EdgesPairIff | crates/qtss-analysis/src/engine_loop.rs:1167-1182 | a tick that emits keeps entries and exits in pairs if and only if the payload it read shows the side entered so far |
| SignalSnapshot.RunsPairIff | crates/qtss-analysis/src/engine_loop.rs:1146-1182 | a run keeps entries and exits in pairs after every tick if and only if each tick that emits has read a payload that shows the side entered so far |
| SignalSnapshot.BlankedPayloadUnpairs | crates/qtss-analysis/src/engine_loop.rs:1353-1536 | the witness: a run of sound ticks with an entry, a snapshot overwritten for want of bars and another entry leaves two entries without an exit between them |
| SignalSnapshot.UnbrokenRunsPair | crates/qtss-analysis/src/engine_loop.rs:1146-1182 | runs that never lose sight of the payload pair every exit with its entry |
| SignalSnapshot.SnapshotStore.AttachSetupEntryPrice | crates/qtss-analysis/src/engine_loop.rs:670-735 | the payload edits give the new payload of the tick |
| SignalSnapshot.SnapshotStore.RecordEvents | crates/qtss-analysis/src/engine_loop.rs:1193-1253 | the insert loop emits the edges of the transition at the reference price, none without a finite price, first insert of a kind and bar winning |
| SignalSnapshot.SnapshotStore.RunTick | crates/qtss-analysis/src/engine_loop.rs:1353-1536 | one pass over a symbol is one tick and keeps the frozen price |
| Scorer.BestIsMaximum | crates/qtss-analysis/src/scorer.rs:178-213 | the per-family slot is the maximum of zero and the contributions of that family and direction |
| Scorer.ContributionIsWeighted | crates/qtss-analysis/src/scorer.rs:186-203 | a contribution grows with the score from 0, at 0 and below, to weight times regime adjuster, at 1 and above; both default to 1 |
| Scorer.OneRowScores | crates/qtss-analysis/src/scorer.rs:204-225 | a single row scores its contribution for its side, half of it for each side when neutral, and nothing when negative |
| Scorer.FamiliesAdd | crates/qtss-analysis/src/scorer.rs:178-225 | rows of different families add up |
| Scorer.ScoresAreOrderFree | crates/qtss-analysis/src/scorer.rs:178-225 | row order and repeated rows move neither score |
| Scorer.NeutralRowsDoNotMoveNet | crates/qtss-analysis/src/scorer.rs:214-225 | dropping every neutral row leaves the net score as it is |
| Scorer.FlipSwapsScores | crates/qtss-analysis/src/scorer.rs:178-225 | flipping every direction swaps the bull and the bear score |
| Scorer.VerdictSplitsScores | crates/qtss-analysis/src/scorer.rs:60-72 | with a positive threshold the five verdicts split the scores at the threshold, at zero and at its negation |
| Scorer.VerdictMirrorsIff | crates/qtss-analysis/src/scorer.rs:60-72 | negating the score mirrors the verdict for every score if and only if the strong threshold is positive |
| Scorer.FlipMirrorsVerdict | crates/qtss-analysis/src/scorer.rs:178-233 | with a positive threshold, flipping every detection mirrors the verdict |
| Scorer.Compute | crates/qtss-analysis/src/scorer.rs:178-233 | the map loops, in any iteration order, compute the sums over families of the best contribution per direction |
| Dedupe.DedupeFormations | crates/qtss-chart-patterns/src/formations.rs:471-489 | the output is part of the input, no two kept matches have a pivot at one bar, and every dropped match shares a bar with a kept one of higher rank, or of the same rank and no lower quality |
| Dedupe.RanksFall | crates/qtss-chart-patterns/src/formations.rs:263-271 | triple tops and bottoms rank above head and shoulders, these above double ones, these above flags, these above the rest |
| Dedupe.DedupeIsIdempotent | crates/qtss-chart-patterns/src/formations.rs:471-489 | running it again changes nothing |
| Dedupe.DedupeIgnoresOrder | crates/qtss-chart-patterns/src/formations.rs:471-489 | without ties in rank and quality the order of the input does not matter |

## Left out

- Guards taken for granted in the lifecycle: block check and inserts run one at a time per symbol; a child row is attached while its parent is pending; apply and fail act on a child that the `fetch_latest_approved_*` queries would return. Legal runs are those that respect them.
- Lifecycle side paths: `delete_ai_decisions_with_status`, the mirrored approval requests, hash deduplication and notifications change no status that the model tracks, or delete rows outright.
- SQL isolation: each committed statement or transaction is atomic; row locking and `PgAuditSink` are not part of this model.
- Rounding: `Decimal` and `f64` rounding, overflow and NaN; the `i32` counters of brace depth and losing streaks are unbounded here.
- ChannelScan.TryScanIsFilteredScan: the scanner indexes the first five pivots, so a configured pivot count below five, on which the source panics, is excluded. Which reject code a refused window gets is modelled but not stated.
- ChannelAnalyze.Analyze: zigzag levels are arbitrary pivot lists, because `zigzag.rs` is not part of this model; the reject code reported when nothing is found is not modelled.
- ChannelResolve.ScaleKeepsId: asks for gaps of at least twice the threshold times the bar count, a sufficient condition; the exact one is `ScaleKeepsIdIff`.
- Backtest.Run: a strategy is the list of orders it sends per bar; one that writes to the public fields of the context directly is outside the ledger.
- Metrics: CAGR, Sharpe, Sortino, Calmar and the confidence squash of the scorer use `powf`, `exp` or plain quotients and would add easy members.
- Optimize.WalkForwardAvg: excludes a zero step with enough bars, on which the source never terminates; scoring a slice is a function, so strategy factories with memory are outside the model.
- AuditChain.SameTipSameHistory: text stands for its UTF-8 bytes and numbers for their printed tokens; the digest of section 6.2 of FIPS 180-4 is any function with 32-byte results, so the collision alternative stays in the statement. A shortened log needs an actor that begins with a hash, so one whose 32 bytes are valid UTF-8.
- JsonScanner: field validation, the salvage of truncated replies and the error texts; whether a candidate parses is serde's verdict and enters as a predicate.
- JsonScanner.PlainFencedReply: covers whitespace between the fence and the object; with a language line there the statement is `ObjectComesOutWhole`, for prose without a brace.
- JsonScanner.ObjectComesOutWhole: a sufficient condition; a fence inside the object with braces behind it is harmless too when what stands there does not parse.
- Backfill.MarketBars.Run: the exchange is well behaved and its rows parse; a malformed row aborts the source in the middle of a page. Symbol and interval checks are left out.
- Backfill.ResumeAfterPages: at least one page with a bar must have been stored; without one there is no cursor and the caller starts from now. An interruption in the middle of a page is the gap of `MidPageInterruptionLeavesGap`.
- SignalSnapshot.SnapshotStore.RunTick: saving the snapshot and inserting the events are separate statements in the source (`engine_loop.rs:1490-1525`) and one step here; a stop between them leaves an active payload without its entry event, which the frozen-price invariant does not cover.
- SignalSnapshot: the strength history, the mirrored `signal_dashboard_v2` fields and the carry-over of entry strength; `setup_side` is one of the three values the range analysis produces.
- Scorer: the contributors summary and the time window of the query; directions are unbounded integers, so the one `i16` value without a negation is not singled out.
- Dedupe: the formation detectors; the sort is any stable sort.
