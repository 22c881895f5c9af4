# Verified models of the trading platform's cores

These files model the parts of the platform whose correctness depends on state, concurrency or
arithmetic, and prove what they are for. Quantities, prices and money are exact (`real`); a database
transaction is one atomic step; a class method that stands for code which updates rows or pointers
one by one is proved to do what one step, or one run of steps, of the value model does. Theorems
then hold over every run.

| files | what they model |
|---|---|
| `OutboxModel`, `OutboxSafety`, `OutboxTheorems`, `OutboxPublisher`, `OutboxClaims` | The leased transactional outbox: several publishers claim rows under a lease, send them to a broker and mark them, with crashes, lost replies and a running clock in between |
| `OutboxOrder`, `OutboxOvertaking`, `OutboxReordered` | In what order the broker sees the events of an aggregate: within a poll, over all runs, and the runs in which it is the wrong one |
| `Backoff` | The publisher's capped exponential backoff on 64-bit durations |
| `MatchingSpec`, `MatchingBook`, `MatchingEngine`, `MatchingTheorems` | Price-time matching that moves shared rationals in place, against a sweep on values |
| `OrderModel`, `OrderInvariants`, `OrderTheorems`, `OrderSteps` | The order table under submit, risk decision, cancel, amend, expiry and stop trigger |
| `OrderLiveness`, `OrderAmendments` | When an order can be matched, and what amendments do to the book and to expiry |
| `OrderExposure`, `OrderOverspending` | What a buy order can spend against what its risk decision recorded, and which amendments let it spend more |
| `OrderCopies`, `OrderBatches`, `OrderRepository` | The order repository's transactions: rows copied for the engine, results written back, rollback, the expiry and stop-trigger batches with their queries |
| `StateMachine` | The domain's own order object with its running average |
| `LedgerModel`, `LedgerTheorems`, `LedgerAccounts`, `LedgerDeliveries`, `LedgerNormal`, `LedgerSeeding`, `LedgerRepository` | The portfolio ledger with idempotent consumption of trades, its transaction and gain rows, snapshots and announcements |
| `RiskCalendar`, `RiskLimit`, `RiskVerdicts`, `RiskTheorems`, `RiskBound` | The pre-trade daily limit as a concurrent check and a later insert, over risk days in a time zone with clock changes |
| `RateLimit`, `Drawdown` | The gateway's fixed-window limiter and the running-peak drawdown |
| `Selection`, `Sequences`, `Options`, `Sums`, `Integers`, `OrderTypes` | The first rows of a query by an ordering key, the first row that fits, shared datatypes, sums and minima |

## How the models are set up

- Actions carry what the environment decides: the time, the broker's answer, whether a reply is
  lost, in what order equal rows are read. An action that is not enabled changes nothing, so a
  theorem over all action sequences is a theorem over all interleavings.
- Matching takes the tenant-and-symbol lock before the book is read and keeps it until commit
  (`services/order-service/internal/repository/order_repository.go:60-70`, `148-156`, `488-502`), and
  rows are read `FOR UPDATE`. That is why one order transaction is one step.
- A stop trigger batch is one transaction over several orders; it is a run of steps that is kept
  whole or rolled back whole.
- Orders, portfolios and holdings are numbered by their row. Rows are never deleted.
- The order matching ranks equal price and equal time in is left open in the step system; the
  engine itself is proved to sort stably.

## Where the code does not do what is written about it

- `docs/architecture/transactional-outbox.md:31` says that publishing each batch sequentially keeps
  the events of one aggregate in database order. What one poll sends is in that order, whatever
  everybody else does (`OutboxOrder.PollInOrder`), but over a run the order is not kept: two publishers
  reorder an aggregate with nothing refused and nobody crashed (`OutboxReordered.TwoPublishersReorder`),
  and one publisher does when a refused send waits for its retry (`OutboxReordered.RetryOvertaken`).
  `OutboxOvertaking.OvertakenExactlyWhen` says exactly at which sends an earlier event can still come
  behind a later one: those at which it waits in the table or in somebody's batch.
  An event inserted with a creation time before that of a later event already in the log does the same;
  creation times are transaction start times, so commits can come in another order.
  `OutboxOvertaking.OrderKeptExactlyWhen` puts the two together: a run keeps the order throughout exactly
  when it has no such send and no such insert.
- `AmendOrder` writes the price it is given, also no price, and does not match again, while the domain's
  `Amend` keeps the old price when none is given. So an amendment can cross the book
  (`OrderAmendments.AmendmentCrosses` is a run that does, `OrderTheorems.AmendUncrossed` says exactly which
  amendments do), and a missing price stops all matching against a side with another order on it
  (`OrderAmendments.AmendmentStopsMatching`, and exactly when, `OrderLiveness.MatchableExactlyWhen`).
- `AmendOrder` also writes the expiry time it is given, and the service lets only amendments of GTD
  orders carry one (`services/order-service/internal/service/order_service.go:199-203`). So an amended DAY
  order loses the time it was to expire at and is never expired
  (`OrderAmendments.AmendedDayOrderStays`; `OrderAmendments.AmendWillExpire` says exactly which amendments
  do this, `OrderAmendments.NeverExpires` that it is for good).
- A risk approval records the limit times the quantity, and without amendments a buy order never
  spends more (`OrderExposure.SpendsWithinDecision`). `AmendOrder` raises price and quantity with no new risk
  evaluation. `OrderOverspending.FirstAmendmentOverspends` says exactly which amendments let an order
  spend more than was recorded, and `OrderOverspending.RaisedBidOverspends` is a run that does.
- `docs/orders/stop-order-triggering.md:10-16` has a `STOP_LIMIT` order wait for its stop price. An
  accepted order is matched whatever its type, and the engine looks at the limit only, so such an order
  is executed when it is placed if its limit crosses (`OrderOverspending.StopLimitTradesUntriggered`).
  After its placement it does wait (`OrderExposure.WaitsUntilTriggered`).
- `Backoff.Delay` is one more than the capped power of two for one kind of odd maximum
  (`Backoff.PlainIsCappedPower`), and within its jitter of the largest 64-bit duration it can come out
  as no delay (`Backoff.JitterOverflows`).
- The rate limiter admits up to `2 * max - 1` requests in an interval as long as its window
  (`RateLimit.AtMostTwice`, reached by `RateLimit.BoundReached`).
- The daily limit can be exceeded by `k - 1` largest orders when `k` evaluations overlap
  (`RiskTheorems.DailyLimit`, reached for tenants and for users by `RiskBound.BoundReached`).
- Risk days disagree with the local date somewhere in every zone with a clock change that jumps a
  midnight (`RiskCalendar.JumpBreaksDays`), and nowhere in any other zone
  (`RiskCalendar.PartitionExactlyWhen`). A clock that goes from 00:01 back to 23:01
  is such a change (`RiskCalendar.JumpsBack`).

## Model

| member | source | states |
|---|---|---|
| OutboxPublisher.Repository.Claim | services/order-service/internal/outbox/repository.go:20-83 | Takes exactly the first claimable rows in (created_at, id) order up to the batch size, locks all of them for the worker from now until now plus the lease, and touches no other row |
| Selection.SelectedUnique | services/order-service/internal/outbox/repository.go:33-41 | What a query with an ordering key and a limit selects is fully determined: the selection predicate has one solution |
| OutboxPublisher.Repository.MarkPublished | services/order-service/internal/outbox/repository.go:85-99 | Publishes and unlocks the row exactly when the worker still owns it, else changes nothing |
| OutboxPublisher.Repository.MarkFailed | services/order-service/internal/outbox/repository.go:101-116 | Counts an attempt, reschedules and unlocks exactly when the worker still owns the row |
| OutboxPublisher.Repository.MarkTerminal | services/order-service/internal/outbox/repository.go:118-133 | Counts an attempt, fails and unlocks exactly when the worker still owns the row |
| OutboxPublisher.Publisher.PublishOne | services/order-service/internal/outbox/publisher.go:128-220 | One record, with everybody else moving before the send and before the mark, is one send step and one mark step of the step system |
| OutboxPublisher.Publisher.Poll | services/order-service/internal/outbox/publisher.go:96-126 | A whole poll is a run of the step system, so every theorem about runs holds of it, and it keeps the invariant |
| OutboxSafety.StepKeeps | services/order-service/internal/outbox/repository.go:20-133 | Every step of any publisher, crash, start, insert or clock tick keeps the invariant on rows, batches and deliveries |
| OutboxTheorems.DeliveriesBounded | services/order-service/internal/outbox/publisher.go:119-200 | In every run the broker accepts a row at most once more often than its expired lease was re-claimed; a published row was accepted; a failed row only through re-claims |
| OutboxTheorems.DeliveriesBoundTight | services/order-service/internal/outbox/publisher.go:157-169 | For every n there is a run with n deliveries and n - 1 re-claims, so the bound cannot be lowered |
| OutboxTheorems.AttemptsAccounted | services/order-service/internal/outbox/repository.go:65-133 | Unfinished rows have attempts left, a valid row that failed has used exactly all of them, and locked, leased and processing coincide |
| OutboxTheorems.SnapshotIsCurrent | services/order-service/internal/outbox/publisher.go:175-181 | While a worker owns a row of its batch, its copy of the attempt count is the stored one, so retry-or-terminal is decided on current data |
| OutboxTheorems.LeaseExcludesOthers | services/order-service/internal/outbox/repository.go:33-40 | Until a lease runs out nothing but a mark by its holder changes the row, whatever all others do |
| OutboxClaims.ClaimTakes | services/order-service/internal/outbox/repository.go:28-41 | A claimed row is unpublished, pending or processing, due, with attempts left and no running lease; a row like that which is neither claimed nor locked elsewhere is left only by a full batch of rows before it |
| OutboxClaims.ClaimWrites | services/order-service/internal/outbox/repository.go:65-82 | Column by column what a claim writes, with the lease ending the lease time after the claim, and that it counts a recovery exactly for a row with an old lease |
| OutboxClaims.ClaimExcludes | services/order-service/internal/outbox/repository.go:65-72 | From a claim until the lease time has passed, in every run without a mark by the worker, the row stays as claimed and no claim of it is possible |
| OutboxClaims.ClaimLasts | services/order-service/internal/outbox/repository.go:36-40 | A row still as it was claimed can be claimed again exactly when more than the lease time has passed since |
| OutboxClaims.SendWrites | services/order-service/internal/outbox/publisher.go:138-162 | Only a valid record that has not been tried is sent, once; the broker has it exactly when it accepted it |
| OutboxClaims.MarkWrites | services/order-service/internal/outbox/repository.go:85-133 | Column by column what a mark writes: published after an accepted send, back to pending at the given time while attempts are left, failed otherwise, and nothing without the lock |
| OutboxClaims.RetryWaits | services/order-service/internal/outbox/publisher.go:175-184 | After a refused send with attempts left the row stays as it is and cannot be claimed until the time it was given, and can be claimed from then on |
| OutboxClaims.MalformedFailsFirst | services/order-service/internal/outbox/publisher.go:139-142 | In every run a malformed payload never reaches the broker and is never published, and it has failed with the first mark that reached it |
| OutboxTheorems.FinishedForever | services/order-service/internal/outbox/repository.go:33-40 | Published and failed rows never change again |
| OutboxTheorems.ClaimableAgain | services/order-service/internal/outbox/repository.go:33-40 | Every unfinished row satisfies the claim predicate from some finite time on |
| OutboxTheorems.CanStillPublish | services/order-service/internal/outbox/publisher.go:96-173 | From every state that satisfies the invariant, whatever crashed, each unfinished valid row can still be delivered and published |
| OutboxOrder.BatchInOrder | services/order-service/internal/outbox/publisher.go:119-124 | Whatever all others do before each send and each mark, what the broker gets from a publisher during its batch is what it accepts of the batch, in batch order |
| OutboxOrder.LogIsDeliveries | services/order-service/internal/outbox/publisher.go:157-169 | Over every run the broker's log grows by exactly what the publishers deliver, each delivery by the one that sent it |
| OutboxOrder.AcceptedOrdered | docs/architecture/transactional-outbox.md:31 | What the broker accepts of a batch in database order is in database order |
| OutboxOrder.PollInOrder | docs/architecture/transactional-outbox.md:31 | What one poll puts into the broker's log, from its claim to its end or crash, is in database order whatever all other publishers do |
| OutboxReordered.RetryOvertaken | docs/architecture/transactional-outbox.md:31 | A run of one publisher, both events published in the end, in which the broker's log has the later event of an aggregate first |
| OutboxReordered.TwoPublishersReorder | docs/architecture/transactional-outbox.md:31 | A run of two publishers, with nothing refused and nobody crashed, in which the broker's log has the later event of an aggregate first |
| OutboxOvertaking.DeliveredExactlyWhen | services/order-service/internal/outbox/publisher.go:96-173 | In every state that satisfies the invariant, some run delivers a row again exactly when it is unfinished in the table or untried in the batch of a live publisher |
| OutboxOvertaking.OvertakenExactlyWhen | docs/architecture/transactional-outbox.md:31 | When an event is accepted, an earlier event of its aggregate that is not in the log can follow it in some run exactly when it is unfinished in the table or untried in somebody's batch |
| OutboxOvertaking.StepSafeExactlyWhen | docs/architecture/transactional-outbox.md:31 | From a state in which no event follows a later one of its aggregate in the log or still can, a step leads to such a state exactly when it inserts no valid event with a creation time before that of an event of its aggregate in the log, and has no event accepted while an earlier one of its aggregate waits in the table or in a batch |
| OutboxOvertaking.OrderKeptExactlyWhen | docs/architecture/transactional-outbox.md:31 | A run stays in such states throughout exactly when each of its steps is of that kind |
| OutboxOvertaking.OrderKept | docs/architecture/transactional-outbox.md:31 | In the log of a run from the empty table with such steps, inserts included, an event that comes after a later one of its aggregate has been there before |
| Backoff.NewBackoff | services/order-service/internal/outbox/backoff.go:16-29 | Accepts exactly a positive base that is no larger than the maximum |
| Backoff.Doubled | services/order-service/internal/outbox/backoff.go:35-45 | The doubling loop returns the capped power of two in closed form, with its one exception, without ever wrapping or exceeding the maximum |
| Backoff.Delay | services/order-service/internal/outbox/backoff.go:31-66 | The exact delay with jitter, including the 64-bit wrap, in [0, maximum]; it is within a fifth of the plain delay exactly when the sum does not wrap, which holds for every maximum up to five sixths of the largest duration |
| Backoff.PlainIsCappedPower | services/order-service/internal/outbox/backoff.go:36-45 | Repeated doubling with its early stop is min(base * 2^n, max) exactly unless n >= 1 and base * 2^n is one below the maximum; then it is one more, and the maximum is odd |
| Backoff.PlainMonotone | services/order-service/internal/outbox/backoff.go:36-45 | More failures never mean a shorter wait, and enough of them mean the maximum |
| Backoff.JitterOverflows | services/order-service/internal/outbox/backoff.go:57-61 | Near the largest duration the sum with jitter overflows |
| MatchingBook.StableSort | services/order-service/internal/matching/book.go:27-42 | The result is a permutation, ranked by price then age, with orders of equal rank in their original order |
| MatchingBook.StableSortUnique | services/order-service/internal/matching/book.go:27-42 | There is only one such result |
| MatchingBook.Book.constructor | services/order-service/internal/matching/book.go:14-25 | Splits the resting orders by side and sorts each side |
| MatchingEngine.CanFullyFillLoop | services/order-service/internal/matching/engine.go:70-82 | The loop over the pointers decides whether the crossing makers at the front offer the whole quantity |
| MatchingEngine.Trade | services/order-service/internal/matching/engine.go:40-43 | Moves one quantity from remaining to filled on both orders, given that no rational is shared |
| MatchingEngine.TradeLoop | services/order-service/internal/matching/engine.go:27-63 | The in-place loop trades maker by maker what the sweep on values trades, and reports the touched makers and one execution each |
| MatchingEngine.Match | services/order-service/internal/matching/engine.go:16-68 | Whole effect on every shared quantity and whole result: fills of the ranked opposite side, both quantities of every maker and of the incoming order, untouched orders unchanged, a killed order reporting the whole resting slice; its report is one the theorems below are about |
| MatchingSpec.SweepCut | services/order-service/internal/matching/engine.go:27-43 | Makers before a cut are emptied, makers behind it untouched, and the sweep stops there because the taker is done or the price does not cross |
| MatchingSpec.PriorityKept | services/order-service/internal/matching/engine.go:27-63 | Nobody ranked behind an offer that is not used up trades |
| MatchingSpec.FillsWithinBounds | services/order-service/internal/matching/engine.go:32-43 | Fills are between zero and what the maker has, only at crossing prices, and add up to no more than is wanted |
| MatchingSpec.AllOrNothing | services/order-service/internal/matching/engine.go:21-23 | The FOK check holds exactly when the loop would fill the order completely; an FOK order trades all or nothing |
| MatchingSpec.TradedTotal | services/order-service/internal/matching/engine.go:16-68 | The traded quantity is min(wanted, everything on offer at crossing prices), or nothing for a killed order |
| MatchingSpec.BestExecution | services/order-service/internal/matching/book.go:27-42 | No other way to trade the same quantity costs a buyer less or pays a seller more |
| MatchingTheorems.MatchConserves | services/order-service/internal/matching/engine.go:38-63 | Reported executions add up to what the incoming order loses, and to the maximum unless it is killed |
| MatchingTheorems.EveryExecution | services/order-service/internal/matching/engine.go:38-63 | The reported executions are one for each maker that trades, in rank, and no others: each names the buyer's order and user and the seller's, the maker's fill, price and the time, at a price the incoming order accepts |
| MatchingTheorems.MatchIsBest | services/order-service/internal/matching/engine.go:45-62 | The money in the reported executions is the best possible for the incoming order |
| MatchingTheorems.ExactlyOneEnd | services/order-service/internal/matching/engine.go:64-67 | The order ends filled, cancelled or resting, exactly one of them: what is left of a market, IOC or FOK order is cancelled, of any other it rests |
| OrderInvariants.NewExecutions | services/order-service/internal/repository/order_repository.go:613-621 | The execution rows of a match give the incoming order the whole traded quantity, each maker its own fill, and nobody else anything |
| OrderInvariants.MatchKeeps | services/order-service/internal/repository/order_repository.go:584-633 | A match keeps the order invariant: filled equals the executions, filled plus remaining equals quantity, average equals the batch average |
| OrderInvariants.RunKeeps | services/order-service/internal/repository/order_repository.go:97-302 | The order invariant holds in every state of every run |
| OrderTheorems.StepMoves | services/order-service/internal/domain/state_machine.go:129-168 | Every status a step writes is allowed by the transition table or stays put (a risk approval may match in the same step), finished orders are not written, and every write raises the version |
| OrderTheorems.TerminalForever | services/order-service/internal/domain/order.go:122-129 | A finished order stays as it is in every run |
| OrderTheorems.AmendSawLatest | services/order-service/internal/repository/order_repository.go:288-302 | If an amendment succeeds with the version of an earlier state, nothing about the order has changed since |
| OrderSteps.RestingExactlyWhen | services/order-service/internal/repository/order_repository.go:635-660 | What rests for an order: live LIMIT orders of the other side, same tenant and symbol, with something left |
| OrderSteps.MatchWritesMaker | services/order-service/internal/repository/order_repository.go:596-610 | A resting order that trades loses what its execution rows say and is filled or partially filled accordingly, one that does not trade keeps quantities and status |
| OrderSteps.MatchWritesTaker | services/order-service/internal/repository/order_repository.go:673-696 | What a MARKET, IOC or FOK order has left is cancelled, any other keeps it; with neither trade nor cancellation the row is not written |
| OrderSteps.FirstComeFirstServed | services/order-service/internal/matching/book.go:27-42 | Price, then time: if a resting order trades, every resting order with a better price, or the same price and an earlier time, ends filled |
| OrderSteps.AverageExactly | services/order-service/internal/repository/order_repository.go:698-728 | In every reached state an order has an average exactly if something is filled, and average times filled is what its executions came to |
| OrderSteps.AllowedExactly | services/order-service/internal/domain/state_machine.go:129-168 | The transition table pair by pair, and which statuses are final |
| OrderSteps.SubmitWrites | services/order-service/internal/service/order_service.go:252-313 | Column by column the row a request becomes: rejected exactly if it is flawed, waiting exactly if it is not and risk is checked, with the expiry of its day for a DAY order |
| OrderSteps.DecideWrites | services/order-service/internal/repository/order_repository.go:124-180 | A pending order ends RISK_REJECTED exactly for a rejection and RISK_ERROR exactly without a usable answer, otherwise unchanged but for its version; it is accepted exactly for an approval |
| OrderSteps.VerdictWrites | services/order-service/internal/service/order_service.go:315-372 | The same in terms of the evaluation: a rejected verdict leads to RISK_REJECTED, an unavailable engine or an invalid response to RISK_ERROR, an approval to acceptance |
| OrderSteps.CancelWrites | services/order-service/internal/repository/order_repository.go:249-278 | Column by column what cancelling writes |
| OrderSteps.AmendWrites | services/order-service/internal/repository/order_repository.go:288-304 | When an amendment goes through, and column by column what it writes |
| OrderSteps.ExpireWrites | services/order-service/internal/expiry/repository.go:101-120 | An order can be expired exactly if it is a live DAY or GTD order with a remainder whose time has come, and then only status and version change |
| OrderSteps.CanExpireFromItsTime | services/order-service/internal/expiry/repository.go:101-120 | In every run that does not amend it, a DAY or GTD order that is live with a remainder can be expired exactly from its time on |
| OrderSteps.ExpiryBatch | services/order-service/internal/expiry/repository.go:38-94 | A batch expires exactly the overdue rows it selects, and leaves an overdue row that nobody holds locked only if it is full of rows due before that one |
| OrderSteps.TriggerExactlyWhen | services/order-service/internal/repository/order_repository.go:528-545 | A stop order can be triggered exactly when it is live, not triggered, has something left and its price is reached, from below for a buyer and from above for a seller |
| OrderSteps.TriggerWrites | services/order-service/internal/repository/order_repository.go:528-545 | A triggered STOP order becomes MARKET and rests no remainder, a STOP_LIMIT order becomes LIMIT with its limit |
| OrderSteps.LoadedIsRead | services/order-service/internal/repository/order_repository.go:442-474 | What the trigger worker reads are exactly waiting rows with a recent price, as they stand, and it leaves one that nobody holds locked only for a full batch of rows placed before it |
| OrderTheorems.QuantitiesAccounted | services/order-service/internal/repository/order_repository.go:673-728 | From the empty table: filled is the sum of the executions and at most the quantity; live and expired orders balance; filled orders have nothing left; cancelled ones have no remainder |
| OrderTheorems.BoughtIsSold | services/order-service/internal/repository/order_repository.go:730-736 | Per tenant and symbol the filled quantities of all buyers, of all sellers and the executed quantities add up to the same |
| OrderTheorems.ExecutionsNameTheirOrders | services/order-service/internal/repository/order_repository.go:613-621 | In every reached state each execution row is between a buy and a sell order of one tenant and symbol and names the users of those two orders |
| OrderTheorems.MatchUncrosses | services/order-service/internal/repository/order_repository.go:584-660 | After a match nothing on the book crosses, if nothing but the matched order crossed before |
| OrderTheorems.AmendUncrossed | services/order-service/internal/repository/order_repository.go:288-302 | An amendment keeps the book uncrossed exactly when its price fits the other side |
| OrderTheorems.RunUncrossed | services/order-service/internal/repository/order_repository.go:60-70 | Over every run the book stays uncrossed as long as each amendment that goes through fits |
| OrderTheorems.BookNeverCrossed | services/order-service/internal/repository/order_repository.go:60-70 | In every state reached without amendments each live LIMIT bid of a tenant and symbol is below each live LIMIT ask |
| OrderLiveness.MatchableExactlyWhen | services/order-service/internal/matching/book.go:27-42 | An order can be matched exactly when at most one order rests opposite or all of them have a price |
| OrderLiveness.NeverStuck | services/order-service/internal/repository/order_repository.go:584-633 | After a run without amendments each step whose guard holds goes through with some ranking of its book: a submitted, approved or triggered order is always matched |
| OrderAmendments.AmendmentCrosses | services/order-service/internal/repository/order_repository.go:288-302 | A bid, an ask above it and an amendment of the bid reach a crossed book |
| OrderAmendments.AmendmentStopsMatching | services/order-service/internal/repository/order_repository.go:288-302 | Two asks and an amendment of one without a price reach a table in which no buyer's limit order can be placed, whatever its price and however the book is ranked |
| OrderAmendments.AmendWillExpire | services/order-service/internal/repository/order_repository.go:288-302 | An amendment keeps "every live or pending DAY or GTD order has an expiry time" exactly when it gives a time or the order is neither |
| OrderAmendments.RunWillExpire | services/order-service/internal/service/order_service.go:252-313 | Over every run that stays so as long as each amendment that goes through is of that kind; all other steps keep it |
| OrderAmendments.NeverExpires | services/order-service/internal/expiry/repository.go:28-94 | An order without an expiry time is not expired by any run that does not amend it |
| OrderAmendments.AmendedDayOrderStays | services/order-service/internal/repository/order_repository.go:288-302 | A DAY order that could expire, amended without a time, is expired by no run that does not amend it again |
| OrderExposure.MatchExposure | services/order-service/internal/matching/engine.go:32-50 | A match takes from limit times remainder of every buy order with a limit at least what the order spends in it, as taker and as maker |
| OrderExposure.SpendsWithinDecision | services/order-service/internal/service/order_service.go:454-463 | Whatever is done before and after an approval, a buy order that is not amended spends at most the notional that the decision recorded |
| OrderExposure.WaitsUntilTriggered | docs/orders/stop-order-triggering.md:3-25 | A placed stop order trades nothing in any run without a trigger step for it |
| OrderOverspending.ExposureReached | services/order-service/internal/repository/order_repository.go:584-633 | Some run without amendments of the order spends all that it has spent and may still spend |
| OrderOverspending.CanSpendExactlyWhen | services/order-service/internal/repository/order_repository.go:584-633 | A live buy order with a limit can come to spend more than an amount exactly when it can trade and what it has spent plus limit times remainder is more |
| OrderOverspending.AmendOverspendsExactlyWhen | services/order-service/internal/repository/order_repository.go:288-302 | An amendment lets a buy order come to spend more than an amount exactly when it leaves the order tradable and what it has spent plus the new limit times what is left is more |
| OrderOverspending.FirstAmendmentOverspends | services/order-service/internal/repository/order_repository.go:288-302 | In every reached state, the first amendment of a buy order lets it spend more than limit times quantity, which its approval recorded, exactly under that condition |
| OrderOverspending.RaisedBidOverspends | services/order-service/internal/repository/order_repository.go:288-302 | A run in which a bid whose approval records fifty is raised and spends eighty |
| OrderOverspending.StopLimitTradesUntriggered | docs/orders/stop-order-triggering.md:10-16 | A run in which a STOP_LIMIT order far from its stop price is filled when it is placed |
| OrderCopies.FromDomain | services/order-service/internal/matching/types.go:46-61 | A copy mirrors its row, owner included, and owns fresh quantities |
| OrderCopies.CopiesReady | services/order-service/internal/repository/order_repository.go:635-660 | Copies of the resting rows share no quantity and meet what the engine needs |
| OrderCopies.MatchCopies | services/order-service/internal/repository/order_repository.go:589 | Running the engine on the copies is the table's own match: same ranking, same fills, same kill |
| OrderCopies.SameRows | services/order-service/internal/repository/order_repository.go:613-621 | The engine's executions are exactly the execution rows of the table's match |
| OrderCopies.ReportedRows | services/order-service/internal/repository/order_repository.go:596-610 | The reported copies are exactly the rows to be written back, each once, with the quantities those rows end with |
| OrderRepository.Repository.LoadRestingOrders | services/order-service/internal/repository/order_repository.go:635-660 | Returns unshared copies of exactly the resting rows of the other side |
| OrderRepository.UpdateOrderLifecycleFromFill | services/order-service/internal/repository/order_repository.go:673-696 | Quantities and status after a match, for cancelled and other orders |
| OrderRepository.Repository.PersistAll | services/order-service/internal/repository/order_repository.go:622-626 | Each changed row is written once with its average from the execution rows, and no other row changes |
| OrderRepository.Repository.MatchAcceptedOrder | services/order-service/internal/repository/order_repository.go:584-633 | Load, match, insert and write back is one match of the table, with a ranking whenever there is one; it fails exactly when the side cannot be sorted or an execution price is refused |
| OrderRepository.ValidateOrder | services/order-service/internal/service/order_service.go:514-559 | No reason to refuse exactly when the request is valid |
| OrderRepository.BuildOrder | services/order-service/internal/service/order_service.go:252-313 | The order a request becomes: rejected, pending a risk decision or accepted, with its expiry |
| OrderRepository.Repository.CreateOrder | services/order-service/internal/repository/order_repository.go:44-95 | Is the submit step with a ranking of the book whenever there is one, and succeeds exactly when that step is enabled |
| OrderRepository.Repository.ApplyRiskDecision | services/order-service/internal/repository/order_repository.go:97-202 | Is the decision step, ending a rejected order RISK_REJECTED and one without a usable answer RISK_ERROR; a second decision changes nothing |
| OrderRepository.Repository.CancelOrder | services/order-service/internal/repository/order_repository.go:249-278 | Is the cancel step, and finds the order exactly when it is live |
| OrderRepository.Repository.AmendOrder | services/order-service/internal/repository/order_repository.go:280-319 | Is the amend step, and succeeds exactly for the current version of a live order with a quantity not below what is filled |
| OrderRepository.Repository.ExpireAll | services/order-service/internal/expiry/repository.go:28-94 | Expiring rows that are due and locked is a run of expiry steps in which none turns out to be no longer eligible, and the table has exactly that many more expired orders |
| OrderRepository.Repository.ExpireDueBatch | services/order-service/internal/expiry/repository.go:28-94 | Selects exactly the first overdue DAY and GTD rows by expiry time that nobody else holds locked, up to the limit, and expires all of them and nothing else; with the limit not used up no such row is left |
| OrderRepository.Repository.ActivateLockedStopOrder | services/order-service/internal/repository/order_repository.go:528-582 | Is the trigger step for a candidate read earlier in the transaction |
| OrderRepository.Repository.TriggerDueStopOrders | services/order-service/internal/repository/order_repository.go:431-526 | One trigger step for each selected candidate, kept whole, with the number triggered being that of the candidates whose price is reached; rolled back whole only when a match fails although its guard held and its book was ranked |
| OrderRepository.Repository.LoadCandidates | services/order-service/internal/repository/order_repository.go:442-474 | Reads exactly the first waiting rows by creation time whose reference price is recent enough and that nobody else holds locked, up to the limit, as they stand and with their prices |
| StateMachine.Order.Transition | services/order-service/internal/domain/state_machine.go:129-168 | Moves along the table or refuses, telling finished orders from other refusals |
| StateMachine.Order.ApplyFill | services/order-service/internal/domain/state_machine.go:52-84 | Takes a fill exactly when the order is live and the fill fits, and then updates quantities, average and status |
| StateMachine.Order.Amend | services/order-service/internal/domain/state_machine.go:107-127 | Keeps a price that is not given, replaces the expiry always |
| StateMachine.Order.Cancel | services/order-service/internal/domain/state_machine.go:86-95 | Live orders only; gives up the remainder |
| StateMachine.Order.Expire | services/order-service/internal/domain/state_machine.go:97-105 | Live orders only; keeps the remainder |
| StateMachine.AverageIsBatch | services/order-service/internal/domain/state_machine.go:66-75 | For every sequence of fills, some refused, the running average is the sum of quantity times price over the sum of quantity |
| StateMachine.AverageInRange | services/order-service/internal/domain/state_machine.go:66-75 | The average lies between the lowest and the highest fill price |
| StateMachine.StoredOrderIsReplay | services/order-service/internal/repository/order_repository.go:698-728 | In every reachable state of the order table, replaying an order's executions on the domain object gives the stored filled quantity and average, and the status of orders on the book |
| LedgerRepository.TradeExecutedEvent.Normalize | services/portfolio-service/internal/service/portfolio_service.go:115-156 | Rewrites the event to its normal form, accepts it exactly when it can be booked and otherwise gives the first reason why not |
| LedgerTheorems.NormalTwice | services/portfolio-service/internal/service/portfolio_service.go:115-156 | Normalising twice is normalising once, so padded and plain deliveries book the same |
| LedgerNormal.NormalExactly | services/portfolio-service/internal/service/portfolio_service.go:115-156 | The normal form is the event itself without blanks around its texts and without small letters in symbol and currency, a blank version read as 1.0 and a blank currency as USD |
| LedgerNormal.SameEventSameForm | services/portfolio-service/internal/service/portfolio_service.go:115-156 | Events that differ only in blanks around their texts and in the case of symbol and currency have one normal form and do the same to the ledger |
| LedgerRepository.PortfolioRepository.EnsurePortfolio | services/portfolio-service/internal/repository/portfolio_repository.go:499-516 | Finds the user's portfolio or opens it with the initial cash |
| LedgerRepository.PortfolioRepository.ApplyExecutionBuyer | services/portfolio-service/internal/repository/portfolio_repository.go:293-317 | Pays and averages in exactly when the cash is there |
| LedgerRepository.PortfolioRepository.ApplyExecutionSeller | services/portfolio-service/internal/repository/portfolio_repository.go:319-352 | Delivers, books the gain and inserts its row exactly when the shares are there |
| LedgerRepository.PortfolioRepository.CreateSnapshot | services/portfolio-service/internal/repository/portfolio_repository.go:626-640 | Adds up the holdings with something in them and inserts the portfolio as it stands |
| LedgerRepository.PortfolioRepository.ApplyTradeExecution | services/portfolio-service/internal/repository/portfolio_repository.go:47-156 | Applies a trade once or refuses it with its reason and every table as it was |
| LedgerRepository.PortfolioRepository.ProcessTradeExecuted | services/portfolio-service/internal/service/portfolio_service.go:56-113 | A delivery that cannot be made normal never reaches the ledger; any other is applied in its normal form |
| LedgerTheorems.RunKeeps | services/portfolio-service/internal/repository/portfolio_repository.go:72-118 | Over every run tables stay well formed, one portfolio per user and one holding per symbol, and cash and holdings that start non-negative stay so |
| LedgerTheorems.BothRecorded | services/portfolio-service/internal/repository/portfolio_repository.go:354-364 | The conflict clause never swallows a transaction row of an execution that has not been processed |
| LedgerDeliveries.DeliveryWrites | services/portfolio-service/internal/repository/portfolio_repository.go:72-151 | Table by table what a booked trade writes: the price moves from buyer to seller, the shares move and are averaged in, the seller gains the difference to its average, nobody else changes; two transaction rows, a gain, a processed row, a snapshot and an announcement with users, orders, prices and position |
| LedgerDeliveries.OutcomeExactlyWhen | services/portfolio-service/internal/repository/portfolio_repository.go:72-118 | A new execution is booked exactly when the buyer has the cash (the initial cash without a portfolio), the seller has the shares and the event is new, and else refused for the first of these that fails |
| LedgerDeliveries.RedeliveryOutcome | services/portfolio-service/internal/repository/portfolio_repository.go:54-71 | After a trade is booked, a later delivery of its execution at any time changes nothing; it is a duplicate exactly if it agrees in everything the payload hash covers, else a conflict |
| LedgerDeliveries.KeyExactly | services/portfolio-service/internal/idempotency/idempotency.go:22-30 | What tells deliveries apart: the execution, without one the trade, without either the event |
| LedgerDeliveries.RecordedExactly | services/portfolio-service/internal/repository/portfolio_repository.go:354-364 | A transaction row is kept out exactly by one of the same tenant, portfolio, execution and side |
| LedgerDeliveries.AnnouncementsAreTrades | services/portfolio-service/internal/repository/portfolio_repository.go:157-187 | Over every run from any well-formed ledger each new announcement is that of one delivery: position and balance are the buyer's right after it, and cash change, symbol, event and execution are the trade's |
| LedgerTheorems.BookValueIdentity | services/portfolio-service/internal/repository/portfolio_repository.go:293-352 | Over every run from any well-formed ledger, cash plus holdings at average price minus realized gains never changes for any portfolio, and is the initial cash for one opened on the way |
| LedgerTheorems.TotalValueExplained | services/portfolio-service/internal/repository/portfolio_repository.go:577-598 | After every run from any well-formed ledger a portfolio's total value is what its books balanced to at the start, or the initial cash if it was opened on the way, plus its realized gains, and its cash is not overdrawn |
| LedgerAccounts.Reconciled | services/portfolio-service/internal/repository/portfolio_repository.go:112-117 | Over every run, cash, realized gain and shares of every portfolio are their start plus the signed sums of its transaction rows, and the realized gain also that of its gain rows |
| LedgerAccounts.RowsExplainBalances | services/portfolio-service/internal/repository/portfolio_repository.go:112-117 | In a ledger seeded without transaction and gain rows, and for every portfolio opened on the way in any ledger, the rows explain cash, realized gain and shares completely, and transaction and gain rows agree on the realized gain |
| LedgerAccounts.Conserved | services/portfolio-service/internal/repository/portfolio_repository.go:293-352 | Over every run from any seeded start, a tenant's cash grows only by the initial cash of new portfolios and its shares of every symbol do not change |
| LedgerAccounts.RedeliveryHarmless | services/portfolio-service/internal/repository/portfolio_repository.go:54-71 | Any number of redeliveries anywhere in a stream, with equal or conflicting payload, leave the final ledger as it is without them |
| LedgerAccounts.InsertRedelivery | services/portfolio-service/internal/idempotency/idempotency.go:22-30 | Once a trade has been applied, a delivery with its tenant and key can be inserted anywhere later |
| LedgerAccounts.RowsInStep | services/portfolio-service/internal/repository/portfolio_repository.go:112-151 | Processed rows, gains, snapshots, outbox rows and half the transaction rows grow by the same number |
| LedgerAccounts.AnnouncedBalances | services/portfolio-service/internal/repository/portfolio_repository.go:129-151 | Over every run from any well-formed ledger each new snapshot and the announcement made with it agree, although one leaves out empty holdings; both say what the books balanced to plus realized gains, cash is not overdrawn, and the announced position is never missing or empty |
| LedgerSeeding.NothingFromNothing | services/portfolio-service/internal/repository/portfolio_repository.go:319-332 | Shares are seeded, not made: without any in the ledger no run changes anything |
| LedgerSeeding.FirstTradeApplies | services/portfolio-service/internal/repository/portfolio_repository.go:72-151 | With shares in one portfolio and enough initial cash, their sale to a new user is booked: it opens the buyer's portfolio, moves the cash, books the gain and announces the purchase |
| RiskCalendar.DaysPartitionTime | services/risk-engine-service/app/services/pre_trade_risk_service.py:71-76 | In a zone whose clock changes jump no midnight, the half-open query range holds exactly the instants with the same local date, and two instants have the same range exactly when one lies in that of the other |
| RiskCalendar.JumpBreaksDays | services/risk-engine-service/app/services/pre_trade_risk_service.py:71-76 | In every zone with a clock change that jumps a midnight, whatever changes come before or after it, there are instants at which the range disagrees with the local date |
| RiskCalendar.PartitionExactlyWhen | services/risk-engine-service/app/services/pre_trade_risk_service.py:71-76 | Range and local date agree for all instants exactly in the zones without a clock change that jumps a midnight |
| RiskLimit.ApprovedExactlyWhen | services/risk-engine-service/app/services/pre_trade_risk_service.py:11-61 | An order is approved exactly when no symbol or size rule forbids it and both daily sums have room for all of it |
| RiskVerdicts.VerdictExactly | services/order-service/internal/service/order_service.go:315-372 | Which verdict and reason an order gets without a price, for an invalid response, without an answer or a policy (failing open or not), and that an approval is the engine's or a bypass |
| RiskVerdicts.RuleExactly | services/risk-engine-service/app/services/pre_trade_risk_service.py:40-61 | Each reason is given exactly when its rule is the first in the engine's order that forbids the order |
| RiskVerdicts.AnswerExactly | services/risk-engine-service/app/services/pre_trade_risk_service.py:11-24 | The engine goes by the tenant's own policy, else the common one, and by limit times quantity |
| RiskVerdicts.SoFarExactly | services/risk-engine-service/app/services/pre_trade_risk_service.py:16-24 | The sums are those of the user and of the tenant between the local midnights around the evaluation, in the policy's zone |
| RiskVerdicts.DecisionCounts | services/risk-engine-service/app/repositories/risk_repository.py:196-215 | A decision counts exactly if it approved an order of the tenant, for a user limit of the user, within the half-open day |
| RiskLimit.RiskDesk.ApprovedNotionalForDay | services/risk-engine-service/app/repositories/risk_repository.py:196-215 | One pass gives the approved notional of the user and of the tenant in the half-open day |
| RiskLimit.RiskDesk.EvaluateRisk | services/order-service/internal/service/order_service.go:315-372 | The decision for an order: no reference price, an invalid response (never approved), no answer (approved exactly when failing open), or the engine's verdict |
| RiskLimit.RiskDesk.PersistRiskDecision | services/order-service/internal/repository/order_repository.go:738-760 | Inserts the decision exactly when the order has none |
| RiskTheorems.ApprovalFits | services/risk-engine-service/app/services/pre_trade_risk_service.py:16-24 | An approval leaves room for itself on top of all that was approved in that day when it was evaluated |
| RiskTheorems.DailyLimit | services/risk-engine-service/app/services/pre_trade_risk_service.py:16-24 | With at most k overlapping evaluations of a tenant or user, the approved notional of a risk day is at most the limit plus k - 1 times the order limit, plus what failing open approved |
| RiskTheorems.CapIsLimitPlusOrders | services/risk-engine-service/app/services/pre_trade_risk_service.py:59-60 | The bound in closed form: the daily limit plus k - 1 times the order limit, and just the limit for one evaluation at a time |
| RiskTheorems.DayIsDay | services/risk-engine-service/app/services/pre_trade_risk_service.py:71-76 | In a zone whose clock changes jump no midnight, the day computed at any instant is one the theorems speak of |
| RiskTheorems.LimitExactOneByOne | services/risk-engine-service/app/services/pre_trade_risk_service.py:16-24 | One evaluation at a time and no failing open: the limit is never exceeded |
| RiskBound.BoundReached | services/order-service/internal/service/order_service.go:408-452 | For every k, every tenant or user, and every table with room for just one more largest order there is a run with k overlapping evaluations that reaches the bound |
| RateLimit.RateLimiter.Handle | services/api-gateway/src/middleware/rate-limit.ts:17-42 | Admits or counts one request; the seconds it names are enough to find a new window, and one second less is not |
| RateLimit.RestOfWindow | services/api-gateway/src/middleware/rate-limit.ts:26-32 | Within an open window exactly the smaller of what is asked and what is left is admitted |
| RateLimit.AtMostTwice | services/api-gateway/src/middleware/rate-limit.ts:14-32 | For every trace with a clock that does not run backwards, a client gets at most twice the limit less one in any half-open interval as long as the window |
| RateLimit.BoundReached | services/api-gateway/src/middleware/rate-limit.ts:22-32 | For every limit a trace reaches that number |
| RateLimit.OthersDoNotMatter | services/api-gateway/src/middleware/rate-limit.ts:19-20 | A client's admissions do not depend on anybody else's requests |
| Drawdown.DrawdownTrend | services/risk-engine-service/app/services/advanced_risk_analytics_service.py:89-135 | The running-peak pass computes the maximum loss over all pairs of times, the value where it is first reached, and for every time the peak and the worst loss ending there |
| Drawdown.DrawdownUnique | services/risk-engine-service/app/services/advanced_risk_analytics_service.py:107-117 | The pairwise definition has one maximum and one trough |
| Drawdown.PeakIsWorst | services/risk-engine-service/app/services/advanced_risk_analytics_service.py:111-113 | At every time the loss from the running peak is the worst loss that ends there |

## Left out

- OutboxPublisher.Repository.Claim: which rows another open transaction holds locked is a parameter, and the recovered count takes a non-null lease of a claimed row as expired, so a publisher clock that differs from the database clock is not modelled.
- OutboxPublisher.Publisher.Poll: a mark statement that reports an error is applied or not, but not applied later; a send that reports an error is taken as not delivered.
- MatchingEngine.Match: execution identifiers, tenant and symbol are not part of the engine's orders here, because the repository hands it orders of one tenant and symbol.
- OrderRepository.Repository.MatchAcceptedOrder: execution rows keep no time, identifier or correlation in the table; the engine's own executions have their time.
- OrderRepository.Repository.ExpireDueBatch: which rows other transactions hold locked is a parameter, rows of one expiry time are taken by their number, and the lag figures and the counts by reason are not modelled.
- OrderRepository.Repository.TriggerDueStopOrders: which rows other transactions hold locked is a parameter, and so are the reference prices with their times.
- OrderRepository.Repository.CreateOrder: events, outbox rows and idempotency keys of orders are not modelled; trimming and upper-casing of the request and the alias STOP_LOSS are done before.
- OrderRepository.Repository.CancelOrder: the service's own checks (roles, only accepted orders, expiry only for GTD orders when amending) are not modelled; the steps allow more than the service does.
- LedgerRepository.TradeExecutedEvent.Normalize: upper case is that of ASCII letters; case rules of other alphabets are not modelled.
- LedgerRepository.PortfolioRepository.ApplyTradeExecution: is for two different users, which the service guarantees; the payload hash is taken as injective; event identifiers, correlation identifiers and times of rows are not modelled.
- RiskCalendar.DaysPartitionTime: zones have finitely many clock changes, more than two days apart, with offsets of less than a day; where wall time is shown twice its first showing counts, as `datetime.combine` has it.
- RiskTheorems.DailyLimit: the policy is fixed during the run; its choice by effective time is not modelled.
- RateLimit.RateLimiter.Handle: a window is a value in the map rather than an object shared with it.
- Rounding of floats, formatting with ten decimals and the scale of numeric columns: exact arithmetic throughout.
- Order identifiers and portfolio identifiers are row numbers instead of UUIDs.
- The portfolio service's own outbox, the legacy filled-order path, HTTP, Kafka and MQTT plumbing, authentication, metrics, caches, the other risk analytics (pandas), surveillance, notification and audit services.
- Deadlock freedom of the two portfolio inserts, liveness of the stop and expiry workers.
