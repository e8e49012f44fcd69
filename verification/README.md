# A verified model of the exchange

The exchange accepts orders into partitioned trading cores, relays them through an at-least-once log to matching shards,
splits each order over the venues of its symbol, and settles the executions back into double-entry ledgers. This project
models that path in Dafny and proves what it keeps:

- **Money** (`Money`, `Costing`): the 64-bit scaled arithmetic, what a BUY reserves, what its fills cost, and the schedule on
  which a reservation is given back.
- **Book and router** (`Dedup`, `OrderBook`, `BookRuns`, `Book`, `Texts`, `Router`, `BestExecution`): the nested in-place book
  refines a flat sorted queue; the plan over venues fills completely and cannot be beaten.
- **Matching shard** (`Matching`, `Service`, `Desk`, `DeskRuns`, `DeskLogs`, `Resting`, `Recovery`): one record at a time, whole
  logs, snapshots and crashes.
- **Trading core** (`Sums`, `Ledger`, `Engine`, `Funding`): every transaction as a function on the tables and as the step by step
  method that refines it; nothing is ever overdrawn.
- **Delivery** (`Repeats`, `Relay`, `ExactlyOnce`, `EndToEnd`, `Lease`): the outbox relay, repeats and redeliveries, fencing.
- **Whole exchange** (`Protocol`, `Exchange`): accept, cancel, relay, match and settle as one machine, over every interleaving.
- **Ledgers** (`Conservation`, `Cluster`, `Replay`, `Projection`, `Codec`, `Extremes`, `Checkpoints`): value over partitions, the
  reconciler, replay, the byte encoding and recovery from checkpoints.

Identifiers are opaque numbers compared for equality (0 is the nil id); fill ids and event ids are injective constructors over
what they are derived from, as version 5 UUIDs are (section 5.5 of RFC 9562). Texts are byte strings. Quantities and prices are
integers; where 64-bit wrap-around, truncation or refusal decides the result it is written out.

## Where the code falls short of its own description

Each of these is stated with the exact condition under which the promised property does hold, and a concrete input or run on
which it fails.

- An order reported as RESTED need not be in any book. The remainder is submitted under the order's own id, and a book that has
  taken a slice of the order passes it over as a duplicate, contrary to the comment at
  `internal/matching/matching.go:363-364`. `Resting.RestedIsInABookIff`, `Resting.OneVenueLosesRemainders` and
  `Resting.RestedButNowhere`.
- With a maker fee the reservation of a BUY can be exceeded. It is always enough exactly when the maker fee never grows faster
  than the taker fee. `Costing.CoveredIff`, `Costing.MixedRatesExceed`.
- Not every fill inside quantity and limit is accepted by the reservation's CHECK, because money is given back too early.
  One fill commits exactly when its cost is still open, a list whenever there is a unit to spare for each billed fill.
  `Costing.InBoundFillRefused`, `Costing.SettleCommitsIff`, `Costing.AllCommit`.
- A shard's own suppression window is not part of its snapshot. `Recovery.SameAnswerIff`,
  `Recovery.RepeatAcrossSnapshotIsAnswered`.
- Releasing a partition lease deletes its row and restarts the epochs, after which the first owner can write again.
  `Lease.FencedIff`, `Lease.FirstOwnerReturns`.
- The log is in id order only if no row becomes visible below one already published. `Relay.InOrderIff`,
  `Relay.LateIsOutOfOrder`.
- `FeeBps` charges nothing where its 64-bit increment wraps. `Money.FeeBpsExact`, `Money.FeeWrapIsReachable`.

## Model

| member | source | states |
|---|---|---|
| Money.NotionalExact | internal/money/money.go:77-80 | for every pair of int64 inputs, the scaled product truncated toward zero, refused exactly when it does not fit |
| Money.NotionalCeilExact | internal/money/money.go:85-101 | the same rounded away from zero, with its own refusal condition |
| Money.FeeBpsExact | internal/money/money.go:141-171 | the fee is the exact one rounded away from zero, or refused, on all inputs but those where the rounding increment wraps |
| Money.FeeWrapIsReachable | internal/money/money.go:158-161 | an int64 amount and a rate on which the wrapped increment makes the fee zero |
| Money.FeeNeverWrapsBelow200Percent | internal/money/money.go:158-161 | no rate up to 200% reaches the wrap |
| Money.ApplyBpsExact | internal/money/money.go:175-194 | widening and narrowing give the exact sum and difference, refused exactly when the fee is refused or the sum leaves int64 |
| Costing.RealizedCostBounded | internal/engine/submit.go:237-271 | whatever in-bound prices, sizes and mix of roles a BUY fills at, its notionals and fee increments never overflow and never exceed what was reserved, when the maker fee never outgrows the taker fee |
| Costing.CoveredIff | internal/engine/outcomes.go:202-221 | at rates up to 100%, every accepted BUY is covered by its reservation for all in-bound fills if and only if the maker fee grows by no more than the taker fee over every increment of notional |
| Costing.SmallDisorder | internal/engine/outcomes.go:202-221 | if two rates violate that anywhere they violate it below a notional of 20000, so the condition can be checked by a finite search |
| Costing.OrderedWhenMultiple | internal/engine/outcomes.go:202-221 | the condition holds when there is no maker fee or the taker rate is a whole multiple of the maker rate |
| Costing.MixedRatesExceed | internal/engine/outcomes.go:202-221 | at 5 bps taker and 4 maker, an order that costs 2504 of 2503 reserved |
| Costing.SettleCommitsIff | migrations/0001_init.sql:155-156 | the row's CHECK refuses a fill exactly when its cost exceeds what is open, whatever the release |
| Costing.ReleaseStaysOnSchedule | internal/engine/outcomes.go:416-476 | after any committed in-bound fills, k of them billed, consumed plus released lies between what the terms owe for the filled quantity and k more |
| Costing.AllCommit | internal/engine/outcomes.go:416-476 | a whole list of in-bound fills commits when the reservation exceeds what the terms owe for it by one unit per billed fill |
| Costing.InBoundFillRefused | internal/engine/outcomes.go:439-471 | two fills inside size and limit of which the second is refused by the CHECK |
| Dedup.SuppressedUntilLimitNewer | internal/book/book.go:395-413 | an id just remembered stays suppressed exactly until the window's length of newer ids has been admitted |
| Dedup.IdRing.Remember | internal/book/book.go:403-413 | overwriting the slot under the cursor of the ring and fixing the set is a push on a first-in first-out window |
| OrderBook.MatchIsGreedy | internal/book/book.go:228-266 | fills are the longest prefix of crossing makers in priority order, at maker prices, all but the last consumed whole, consecutively numbered |
| OrderBook.MatchAccounts | internal/book/book.go:228-266 | matching loses no quantity and stops only when the taker is done, the side is empty or the next maker does not cross |
| OrderBook.SubmitKeeps | internal/book/book.go:213-280 | any order submitted to a sorted, uncrossed, FIFO book leaves one |
| Book.Book.Submit | internal/book/book.go:213-280 | the loop over nested levels, the index and the ring in place give the fills, disposition and resulting book of the flat queue |
| Book.Book.MatchLoop | internal/book/book.go:228-266 | the loop trades exactly what matching the flat opposite queue trades, and leaves that queue |
| Book.Book.Rest | internal/book/book.go:366-386 | the binary search inserts the order at its place in price and arrival order |
| Book.Book.Cancel | internal/book/book.go:324-349 | the search by price and id removes exactly the order with that id and reports what was left of it, or changes nothing |
| Book.Book.Depth | internal/book/book.go:438-451 | the levels reported are the flat queue grouped by price, best first, cut to the count |
| Book.Book.TakeSnapshot | internal/book/book.go:470-481 | every resting order in arrival order with both counters |
| Book.Book.LoadSnapshot | internal/book/book.go:488-509 | the loop that rests the orders again builds the book the flat load builds |
| BookRuns.RunKeeps | internal/book/book.go:213-349 | every reachable book is strictly sorted, FIFO at a price, uncrossed, without empty orders or two orders under one id |
| BookRuns.RunConserves | internal/book/book.go:213-349 | over any run, per side, what rested and entered equals what rests, was filled and was cancelled |
| BookRuns.RunNumbers | internal/book/book.go:240-246 | the fills of any run are numbered consecutively, so no fill identity is minted twice |
| BookRuns.SuppressionWindow | internal/book/book.go:395-413 | after an id is admitted a repeat is suppressed exactly while it rests or fewer than the window's length of newer ids were admitted |
| BookRuns.SnapshotRoundTrip | internal/book/book.go:470-509 | loading a snapshot of any valid book restores queues, order and counters |
| BookRuns.ReloadedBookBehavesAlike | internal/book/book.go:488-509 | after a reload every later run of cancels and of ids the original had not seen gives the original's results and fill identities |
| Router.ComputeRoute | internal/matching/router.go:47-130 | the loops over venues, levels and offers build the plan the specification names |
| BestExecution.EverySliceFills | internal/matching/router.go:99-130 | every planned slice of a new order fills completely in its venue |
| BestExecution.RouteIsLeastCost | internal/matching/router.go:47-130 | no other split of the routed quantity over the crossing liquidity of any venues has a better total of price times quantity |
| BestExecution.UnroutedMeansExhausted | internal/matching/router.go:99-130 | if part of the order is not routed, no venue has anything left that the order could cross |
| Matching.PlaceSound | internal/matching/matching.go:312-394 | placing an order keeps every book sound, and what it traded and what is reported left add up to its size |
| Service.Partition.OnOrder | internal/matching/matching.go:312-456 | the in-place handler with its loops leaves the shard and publishes the halves and verdict of the specification, or nothing for a suppressed id |
| Service.Partition.OnCancel | internal/matching/matching.go:479-523 | the search over venues takes the order out of the first one that has it and publishes the verdict that says so |
| Service.Partition.PumpOnce | internal/matching/matching.go:232-257 | a batch is handled in log order, each record published before the position passes it |
| Service.Partition.Recover | internal/matching/matching.go:184-224 | the shard is rebuilt from the snapshot alone, with an empty window, and resumes at the snapshot's offset |
| DeskRuns.AcceptKeeps | internal/matching/matching.go:312-456 | an order new to a sound shard leaves it sound: room for every order, one resting place, fresh fill identities, nothing said after a final word |
| DeskRuns.WithdrawKeeps | internal/matching/matching.go:479-523 | a cancel leaves it sound, with the order gone from every venue |
| DeskLogs.RepeatRecognised | internal/matching/matching.go:120-143 | a copy of an order no further back than the window is long is still remembered |
| DeskLogs.StoryHolds | internal/matching/matching.go:283-310 | for every log that speaks truly of accepted orders, with cancels after their orders and copies within the window, all of that holds of the shard and its outcomes |
| DeskLogs.NeverOverfilled | internal/matching/matching.go:343-394 | over any such log, filled plus resting never exceeds an order's size, and it rests at one venue of its own symbol at most |
| DeskLogs.StreamSound | internal/matching/matching.go:396-456 | over any such log no execution follows an order's final word, every half belongs to a fill with an identity of its own, and no half is said twice |
| Resting.RestedIsInABookIff | internal/matching/matching.go:362-390 | at any reachable shard, an order reported as rested is in a book, there in full and nowhere else, if and only if its plan sent no slice to the venue of its remainder |
| Resting.OneVenueLosesRemainders | internal/matching/matching.go:343-390 | with one venue, an order that trades on entry and is reported as rested is in no book |
| Resting.RestedButNowhere | internal/matching/matching.go:343-390 | two records at the default venue after which an order is reported as resting with one left and is in no book |
| Recovery.StreamIsCrashFreePrefix | internal/matching/matching.go:184-257 | for any log and any schedule of snapshots, torn produces and crashes, the topic without repeats is the crash-free stream cut short and holds everything said for the records consumed |
| Recovery.RegeneratedOutcomesAreTheSame | internal/matching/matching.go:312-523 | everything ever published for an offset equals what a run without crashes says there |
| Recovery.SameAnswerIff | internal/matching/matching.go:193-198 | a recovered shard answers an order as the crash-free one does if and only if it still remembers the id whenever the other does |
| Recovery.RepeatAcrossSnapshotIsAnswered | internal/matching/matching.go:538-578 | whatever the venues, a run in which an id repeated across a snapshot is answered twice |
| Engine.Engine.Deposit | internal/engine/engine.go:134-160 | the steps of the transaction end in the committed state or the refusal of the specification |
| Engine.Engine.SeedShares | internal/engine/engine.go:165-221 | the same, with the buying-power check and the position move |
| Engine.Write | internal/engine/engine.go:391-440 | the loop over legs posts the nonzero ones and moves the balance by exactly what the cash and fee legs move |
| Engine.SumOpen | internal/engine/engine.go:247-266 | the aggregate over reservation rows is the sum of what is open in the pool |
| Engine.Engine.Submit | internal/engine/submit.go:76-185 | validation, sizing, risk check, order, reservation and outbox row commit together or not at all |
| Engine.Engine.RequestCancel | internal/engine/cancel.go:32-94 | a working order becomes PENDING_CANCEL and its request is queued in one step; a finished or pending one is left alone |
| Engine.Engine.ApplyFillHalf | internal/engine/outcomes.go:170-253 | one half settled step by step ends as specified, and changes only the offset if its event is already there |
| Engine.Engine.ApplyDisposition | internal/engine/outcomes.go:261-302 | the guarded status change and the release end as specified |
| Engine.Engine.ApplyCancelOutcome | internal/engine/outcomes.go:306-349 | the same for a cancel's verdict |
| Engine.Engine.PumpOnce | internal/engine/outcomes.go:70-82 | a batch is applied record by record in log order up to the first that fails, whose error it reports |
| Engine.PositionState.apply | internal/engine/position.go:20-54 | the updates through the fields give the specified quantity, basis and realized amounts, 64-bit product included |
| Funding.NoOverdraft | internal/engine/submit.go:279-305 | after any deposits, seeds, accepts, cancels and outcomes, each account's cash covers its cash reservations, each position its share reservations, and every reservation row is legal |
| ExactlyOnce.RepeatIsNoOp | internal/engine/outcomes.go:170-349 | an outcome already taken in, met again at any offset, changes the offset and nothing else |
| ExactlyOnce.SettledExactlyOnce | internal/engine/outcomes.go:70-82 | for a log with any repeats, delivered with any restarts and rewinds between client operations, postings, balances, positions, reservations, statuses and filled amounts are those of delivering the log without repeats once |
| ExactlyOnce.DurableOffsetIsSafe | internal/engine/outcomes.go:54-67 | the stored offset never passes the first record not taken in |
| EndToEnd.SettledAsIfNothingHappened | internal/matching/matching.go:184-257 | a core fed from what a crashing shard publishes, repeats and all, ends as if the shard had never crashed and every outcome had come once |
| EndToEnd.TopicConclusive | internal/matching/matching.go:396-456 | whatever crashes, the topic without repeats has no execution after an order's final word |
| Protocol.OperateKeeps | internal/engine/submit.go:126-185 | any client operation keeps the invariant of the whole exchange |
| Protocol.RelayKeeps | internal/outbox/relay.go:53-113 | publishing the next outbox row, or an earlier one again, keeps it |
| Protocol.MatchKeeps | internal/matching/matching.go:283-310 | handling the next record, new, copy or cancel, keeps it |
| Exchange.SettleKeeps | internal/engine/outcomes.go:170-349 | taking in an account's next outcome keeps it; no half ever finds its order finished or its event already settled |
| Exchange.AgainKeeps | internal/engine/outcomes.go:170-349 | delivering an earlier outcome again keeps it |
| Exchange.RunOk | internal/engine/cancel.go:32-94 | every state reached by any interleaving of those steps satisfies the invariant |
| Exchange.TerminalIsOver | internal/engine/outcomes.go:478-508 | in every reachable state an order the core holds as terminal is in no book, has no execution left to settle, and its reservation is consumed and released in full |
| Exchange.VerdictEndsOrder | internal/engine/outcomes.go:306-349 | once a cancel's verdict is taken in, its order is terminal, gone from every book, never to be filled, with nothing reserved |
| Exchange.RowsCountFills | internal/engine/outcomes.go:478-495 | an order's filled quantity is exactly the sum of the halves taken in and never exceeds its size, and every account stays funded |
| Exchange.NoCancelIsLost | internal/engine/cancel.go:83-94 | when everything on its way has arrived no order still waits for its cancel's verdict |
| Conservation.PostingsBalance | internal/engine/engine.go:391-440 | all postings of any reachable core sum to zero in every unit |
| Conservation.ClearingIsHalfSettled | internal/engine/outcomes.go:367-380 | over all partitions, clearing holds exactly the signed sum over the fills settled on one side only |
| Conservation.PairedMeansCleared | internal/engine/outcomes.go:367-380 | once every settled half has its counterpart clearing is empty in every unit |
| Cluster.Reconcile | internal/cluster/cluster.go:253-307 | the loops over partitions report the sums per unit, the cash delta, the orphaned fills and the count in flight of the slices |
| Cluster.ReconcileIsGlobal | internal/cluster/cluster.go:262-286 | however accounts are assigned to partitions the reconciled sums are those of the whole ledger |
| Cluster.OKIffNothingOpen | internal/cluster/cluster.go:194-213 | over any runs of the partitions cash and shares are conserved, and the check passes if and only if no fill is orphaned and clearing totals zero; with nothing in flight, if and only if every half has its counterpart |
| Replay.ReplayRange | internal/engine/replay.go:170-242 | grouping posting rows in a loop and flushing at each change of number folds exactly the account's transactions |
| Projection.ProjectionEqualsLedger | internal/engine/replay.go:247-285 | after any history the replayed cash, fees, clearing, quantities, basis and realized amounts are those the write path keeps |
| Projection.BasisIsCash | internal/engine/position.go:20-54 | realized amount less basis is the sum of the trade cash legs, however positions were built and sold |
| Projection.FlatPositionHasNoBasis | internal/engine/position.go:32-44 | in any reachable core a position sold down to nothing keeps no basis |
| Codec.EncodeState | internal/engine/replay.go:57-88 | the method that collects, sorts and writes produces the specified bytes |
| Codec.DecodeState | internal/engine/replay.go:92-141 | the reading loop returns what the specified parser returns, errors included |
| Codec.RoundTrip | internal/engine/replay.go:57-141 | decoding encoded bytes gives the state back without its all-zero positions |
| Codec.Canonical | internal/engine/replay.go:57-88 | two states have equal bytes if and only if they agree up to all-zero positions |
| Codec.TrailingBytesIgnored | internal/engine/replay.go:92-141 | bytes after the last entry are accepted and ignored |
| Checkpoints.RecoveryEqualsGenesisReplay | internal/engine/snapshot.go:18-86 | for any history and any chain of checkpoints each taken by a recovery, newest checkpoint plus tail encodes to the bytes of a replay from genesis |
| Relay.Outbox.Produce | internal/eventlog/memlog.go:53-77 | records are appended to their partitions in order, once or twice, up to where the produce is cut short |
| Relay.Outbox.PumpOnce | internal/outbox/relay.go:53-113 | a pass produces the lowest unpublished rows in id order and marks them only if all of them were produced |
| Relay.Outbox.Drain | internal/outbox/relay.go:116-128 | passes until one finds nothing, after which every row is published, and the count is the number of rows |
| Relay.RunLosesNothing | internal/outbox/relay.go:53-113 | over any inserts, passes, cuts and failed marks, no row is marked that was not produced, and only rows are produced |
| Relay.OrderPrecedesCancel | internal/engine/cancel.go:83-87 | a row visible before a row with a higher id comes in precedes every copy of it in the log |
| Relay.InOrderIff | internal/outbox/relay.go:43-48 | at every point of a run the log without repeats is the beginning of the outbox in id order if and only if no row ever becomes visible below one already produced |
| Lease.CommitsUnderCurrentEpoch | internal/engine/lease.go:134-150 | an open transaction's asserted epoch is still current, and no claim goes through while it is open |
| Lease.NoOlderOwnerCommits | internal/engine/lease.go:48-90 | unless a claim starts the epochs again, every commit is by the process that claimed the partition last |
| Lease.FencedIff | internal/engine/lease.go:121-126 | the fence holds at every point of a run, whatever transactions follow, if and only if no claim is made after a release has deleted the row |
| Lease.FirstOwnerReturns | internal/engine/lease.go:121-145 | after such a claim the first owner the partition ever had can commit |

## Left out

- Resting orders and levels are values: the book replaces an order in its level and in the index, where the original shares one
  mutable order between both. What a caller sees through a retained pointer is not captured.
- The shard's loops compose books as values of the flat specification, which the in-place book is proved to refine; a map of
  book objects mutated through pointers is not.
- Engine: database tables are maps updated as values inside one object; row locks appear as the atomicity of each transaction,
  and order version numbers, rejection texts, timestamps and the fills table are not kept.
- Engine.Engine.Submit: the order id drawn and the reference price stamped are inputs; the staleness of reference prices is not
  modelled.
- Money sums that the database keeps in bigint columns (balances, positions, basis, reservation columns) are unbounded here; only
  filled quantity, filled notional, and the functions of the money package are held to 64 bits. A value that leaves the range is
  an error of the original that the model does not show.
- Engine.PositionState.apply: only the product in a partial sale wraps at 64 bits; the sums do not.
- Funding.NoOverdraft: fee rates are at most 100%, and outcomes speak of orders as the core recorded them, which the whole
  exchange guarantees.
- Costing.CoveredIff: rates from 0 to 100%; a negative maker rate is refused on every fill by the money package.
- BestExecution.RouteIsLeastCost: at most 2^20 price levels a side, the depth the router asks for.
- EndToEnd.SettledAsIfNothingHappened: outcomes reach a core only after the orders and cancels they answer; that this is so is part
  of the invariant of the whole exchange, whose machine in turn leaves engine crashes to this theorem.
- Exchange.TerminalIsOver: one core holds all accounts and each account's outcomes come in log order; partitions of cores are
  composed in the conservation results only. Copies of an order reach the log within the suppression window.
- Exchange.NoCancelIsLost: says what holds when nothing is on its way, not that this is ever reached.
- DeskLogs.NeverOverfilled: an upper bound only, since a remainder may be lost as described above.
- Cluster.Reconcile: which unpaired fills are recent enough to count as in flight depends on the clock and is an input; the checks
  local to one partition are not part of the verdict.
- Relay.InOrderIff: one topic and one relay; a failed pass is retried by a later one, and timing and metrics are absent.
- Lease.FencedIff: a claim that must wait has no effect and is made again; expiry times are not modelled, since nothing reads them
  on this path. Service leases, which depend on wall-clock expiry, are not modelled.
- Continuing after a failed batch: a reader that has moved past it is treated as a stop and a restart.
- HTTP and authentication, sessions, metrics, analytics, command line, market-data simulation, the Kafka and Postgres logs, JSON
  messages and partition hashing: plumbing around the modelled path. `Book.Restore` has no caller.
