# flash-deal: a verified model of the reservation-to-order protocol

flash-deal sells a fixed stock to a crowd. A request reserves one unit in Redis, gets a queue
token, and publishes an order message; consumers turn messages into rows of sharded MySQL
tables and flip the token. Every remote call can fail, can succeed while its caller sees an
error, and can interleave with everything else. This project states what nevertheless holds in
every run, and proves it.

`dafny verify dfyconfig.toml` checks the whole project.

## How the model is built

* **Parts.** `ShardKey`, `Stock`, `StockSql`, `Orders`, `Idempotency`, `RateLimit` and `Keys`
  model one component each. Components that change state are classes whose methods are proved
  against specification functions; the laws are lemmas about those functions.
* **Protocol.** `Protocol` is the whole system as atomic steps: requests, log, one consumer per
  partition, tables, token keys, crashes, junk in the log, expiring tokens. A schedule is any
  list of steps (a step that is not enabled is skipped), so a lemma about `Reach(cfg, trace)`
  speaks of every interleaving, crash and retry. Each remote call carries a `Link`: answered,
  took effect but reported an error, or did neither.
* **Invariant.** `ApiInvariants`, `RowInvariants` and `ConsumerInvariants` are kept by every
  step; `Invariants.Always` lifts them to every schedule.
* **Laws over all runs.** `Accounting` (stock, drift, limits, tickets), `Delivery` (commit
  safety, order, replay), `CatchUp` (termination), `Tokens` (what a client polls),
  `DeadLetters` (what reaches the dead-letter topic), `FrontDoor` (the middleware and the protocol
  together). `Counterexamples` holds concrete runs from
  the empty system for the promises that do not hold.
* **Services.** `Backend.Stores` holds Redis, MySQL and Kafka as mutable fields, plus ghost
  history saying by which schedule they were reached. Its commands are specified by the same
  functions (`Stock.Script`, `Orders.Create`, ...) as the repository classes of `Stock` and
  `Orders`, which model the repositories statement by statement. `Services` holds `Seckill`, the
  materializer, the consumer loop and the reconcile check as imperative code over it. Before
  each remote call stands a `Turn`, whose contract lets everybody else take any steps; its body
  is the quiet case, and callers see the contract alone. What becomes of each call (`Net`,
  `Try`, `Round`, `Calls`) is an argument that takes all values, so a contract says what the
  operation answers for every way its calls can go, and which step each of them left in the
  schedule.
* **Folded equations.** `Backend.Reaches` and `Idempotency.Real` say that a state is the one a
  schedule leads to; they are written so that the solver looks into a schedule only where a
  proof asks for it (`ReachesIff`, `MomentIff`).

History fields (`left`, `minted`, `dead`, `src`, `trace`, `gen`, `born`) exist for statements
only; no decision of a modelled operation reads them.

## Hypotheses

The code does not ensure these; they are guards of steps or `requires` clauses.

* Order ids are fresh (guard of `Mint`). `nextID` reads the clock and the counter separately,
  so two calls can collide, and a primary-key clash is reported as a duplicate order.
  `Orders.SharedIdDiffers` shows what goes wrong then.
* UUIDs are fresh (guard of `Mint`).
* An activity is warmed before its first reservation, not after (guard of `Warm`).
  `Accounting.WarmKeepsEquationIff` shows that this is exactly what the stock equation needs.
* The keys `stock`, `user_buy` and `idem` do not expire within the run (`Idempotency` does have
  a step for it, and counts it). Queue tokens may expire at any time.
* One live consumer per partition. A partition is a fixed function of the user id.
* Every entry of the order topic that decodes was published by a request of this system; any
  number of entries that do not decode may be among them. (A foreign entry that decodes, `{}`
  for one, would become a row without a reservation. The empty queue token that only such an
  entry carries is tested for as in the code.)
* A failed insert or token write that took effect did so before its caller went on.
* The client library may send a Redis command twice (its retry options are left at their
  defaults). A script sent twice is covered: its first execution is one more request that lost
  its answer (`Accounting.ResendIsAnotherRequest`), so the reservations of such a call count as
  two, and a refusal promises that the execution it answers did nothing. So are a repeated
  EXPIRE, a repeated INCR (one more request whose answer was lost) and a repeated SETNX (a step
  of its own). Repeating a SET writes the same value again.

## Where code and prose differ

* A `success` token is not final: a token write that took effect but reported an error on the
  last attempt is followed by the dead-letter callback (`Counterexamples.SuccessThenFailed`),
  and that callback is the only way it happens (`Tokens.SuccessFlipsIff`).
* Not every failed message reaches the dead-letter topic, since the error of that send is
  dropped (`Counterexamples.MissingDeadLetter`). What is in the topic is exactly what was sent
  successfully (`DeadLetters.TopicIff`), and nothing handed over is missing as long as no send
  fails and no process dies inside the callback (`DeadLetters.HandedReachesTopic`).
* `success:{id}` names the id of the message that was delivered, which for a duplicate is not
  the id of a stored row (`Counterexamples.SuccessNamesNoRow`). It is one exactly when no other
  request with the same key has its row there (`Tokens.SuccessNamesRowIff`).
* A client may poll `queued` for a message that was given up
  (`Counterexamples.MissingDeadLetter`), exactly when no write to its token took effect
  (`Tokens.QueuedIff`, `Tokens.StuckQueued`).
* Drift is not always zero (`Counterexamples.DriftOfOne`); `Accounting.DriftZeroIff` says when
  it is.
* The per-user limit is called a sliding window; it is a fixed window per key lifetime, and
  2 * limit - 1 requests fit into one minute (`RateLimit.MinuteBoundIsReached`). More than the
  limit can pass in a minute exactly when at its start the key is used, not used up, and due to
  lapse inside it (`RateLimit.ExceedsIff`).
* An `EXPIRE` that never arrives leaves a rate counter without an end
  (`RateLimit.LockoutIsReached`); exactly such counters lock a user out
  (`RateLimit.LockedOutIff`).
* A panic in the handler, a lost cache write, a SETNX that reports an error after taking effect
  and one that is sent twice each leave an idempotency key on `processing`
  (`Idempotency.AbandonedIsReached`), and everybody is told 409 for the rest of its life
  (`Idempotency.AbandonedStays`). A key is stuck like that exactly when its creator is neither at
  work nor about to write (`Idempotency.StuckIff`).
* A cached response with an empty body is replayed as `null`, and one that outgrew the buffer is
  answered with 500 or, when its first chunk alone was too large, with `null`
  (`Idempotency.LostBodyReplay`).

## Model

| member | source | states |
|---|---|---|
| ShardKey.DBIndex | pkg/shardkey/shardkey.go:6-15 | in range for every id, negative ones and the least int64 included |
| ShardKey.DBIndexIsEven | pkg/shardkey/shardkey.go:6-15 | routing depends on the absolute value of the id alone |
| ShardKey.TableIndexInRangeIff | pkg/shardkey/shardkey.go:19-28 | the table index is in range for all int64 ids except the least one with a single database, and there exactly when the table count does not divide 2^63 |
| ShardKey.MixedRadix | pkg/shardkey/shardkey.go:6-28 | table and database are the two digits of a non-negative id modulo their product |
| ShardKey.EveryTableOnce | pkg/shardkey/shardkey.go:6-28 | any window of that many consecutive ids hits every (database, table) pair exactly once |
| ShardKey.EvenSpread | pkg/shardkey/shardkey.go:6-15 | any k rounds of consecutive ids give each database exactly k |
| Stock.ScriptContract | internal/infra/redis/scripts/stock_deduct.lua:8-37 | the script answers -3 exactly when the key is missing, -1 exactly when it is there with too little, -2 exactly when it has enough and the limit binds, and leaves both keys alone then; a grant moves exactly the amount from the stock to this user's counter, within the limit, and touches nothing else |
| Stock.StockRedisRepo.RunScript | internal/repo/stock_redis_repo.go:57-82 | the command-by-command script has the effect and code of the atomic step |
| Stock.StockRedisRepo.DeductForUser | internal/repo/stock_redis_repo.go:33-54 | codes become the three errors or the remaining stock; a lost reply is an error with the effect, an unreached server one without |
| Stock.NoOversellNoUndersell | internal/repo/stock_redis_repo.go:57-82 | from any stock and any counters, any list of unit attempts succeeds exactly min(stock, sum over users of min(limit - bought, attempts)) times; stock does not fall below zero and no counter rises above the limit |
| Stock.ServeExact | internal/repo/stock_redis_repo.go:57-82 | from any stock and any counters, every user gets at most, and while stock lasts exactly, the smaller of attempts and rest of the limit |
| Stock.OrderFree | internal/repo/stock_redis_repo.go:57-82 | the number of successes is the same for every order of the same attempts |
| Stock.KthTicket | internal/repo/stock_redis_repo.go:57-82 | the k-th success returns the initial stock minus k |
| StockSql.StockSqlRepo.ExecUpdate | internal/repo/stock_repo.go:38-45 | the conditional update changes one row's column or nothing, and reports changed rows |
| StockSql.StockSqlRepo.DeductForUser | internal/repo/stock_repo.go:37-59 | the exact column after any statements of others between UPDATE and SELECT; success exactly when the update matched and both calls answered; the value read lies between 0 and the caller's own |
| StockSql.AfterFalls | internal/repo/stock_repo.go:38-41 | no list of conditional updates takes the column below zero or back up |
| StockSql.SameAnswerIff | internal/repo/stock_repo.go:37-59 | from equal stock the SQL and the Lua version answer alike exactly when the user limit does not bind |
| StockSql.LuaRefinesSql | internal/repo/stock_repo.go:37-59 | with a limit that no user's own requests exceed both versions accept and reject at the same positions, with equal remaining and equal final stock |
| StockSql.SameAnswersIff | internal/repo/stock_repo.go:37-59 | for any limit and any list of requests both versions answer alike exactly when the script never answers that the limit was exceeded, and then end with equal stock |
| StockSql.InterleavedSql | internal/repo/stock_repo.go:37-59 | under any interleaving of UPDATEs and SELECTs the column stays non-negative, exactly the matched amounts have left it, and each value returned lies between the present column and the caller's own post-update value |
| StockSql.AnswerIsColumn | internal/repo/stock_repo.go:37-59 | under any interleaving a caller past its UPDATE has the column as that left it, and the value it is answered is the column at the moment of its own later SELECT |
| Orders.InsertKeepsUnique | migrations/002_orders_shards_table.sql:2-9 | primary key and unique key hold after every insert |
| Orders.Find | internal/repo/order_repo.go:65-86 | a row with this user and id when there is one, nothing exactly when there is none |
| Orders.ShardedOrderRepo.CreateOrder | internal/repo/sharded_order_repo.go:21-34 | writes the user's shard only; a clash of either key is reported as a duplicate and changes nothing |
| Orders.ShardedOrderRepo.GetByID | internal/repo/sharded_order_repo.go:36-39 | reads the user's shard, with the not-found and the failure case |
| Orders.CreateKeepsRouted | internal/repo/sharded_order_repo.go:21-34 | every row lies in the shard of its user |
| Orders.KeysAreGlobal | migrations/002_orders_shards_table.sql:2-9 | per-shard unique keys make (activity, user, token) unique over all shards |
| Orders.CreateAgreesIff | internal/repo/order_repo.go:46-58 | shards and one table answer a Create alike exactly unless its id is taken in a foreign shard only and its key is free |
| Orders.CreateRefines | internal/repo/sharded_order_repo.go:21-34 | an agreed Create keeps shards and table holding the same rows and counts |
| Orders.FindAgrees | internal/repo/sharded_order_repo.go:36-39 | a read on the user's shard finds what a read on one table finds |
| Orders.ShardsRefineOneTable | internal/repo/sharded_order_repo.go:21-39 | any shard count and any list of Create and GetByID with ids that follow users: same replies, same rows, same counts as one table |
| Orders.SharedIdDiffers | cmd/api/main.go:133-134 | with one id for two users in two shards the replies differ |
| ApiInvariants.ReqsOkStep | internal/service/seckill.go:76-136 | every step keeps what each stage of a call has and has not done, and that an order was stamped inside the sale window |
| ApiInvariants.ReqsGrowStep | internal/service/seckill.go:107-122 | what a request has reserved, ordered, minted or published never changes |
| ApiInvariants.DistinctStep | internal/service/seckill.go:107-117 | no two requests share an order id or a queue token |
| ApiInvariants.TokensMintedStep | internal/service/queue_token.go:20-31 | every UUID in a token key or a request was minted before |
| ApiInvariants.AccountsStep | internal/repo/stock_redis_repo.go:57-82 | stock plus reservations stays the initial stock, user counters count reservations and stay within the limit |
| ApiInvariants.TicketsStep | internal/repo/stock_redis_repo.go:78-81 | tickets stay distinct, below the initial stock and not below the present one |
| RowInvariants.GrowStep | internal/repo/order_repo.go:46-58 | rows and log entries are only appended |
| RowInvariants.LogOkStep | internal/service/kafka_order_creator.go:29-41 | every decodable entry is some request's message, in the partition of its user |
| RowInvariants.RowsOkStep | internal/service/order_materializer.go:42-57 | every row is the row of a request, in its user's shard, with unique keys |
| RowInvariants.OwnCountStep | internal/service/reconcile.go:99-115 | in every scope the number of rows is the number of requests with a row under their own id |
| RowInvariants.AnswersOkStep | internal/service/seckill.go:118-135 | a request told queued has its message in the log, or its row in the table; one told duplicate has its key there |
| RowInvariants.ClashIsKeyClash | internal/repo/order_repo.go:46-58 | a synchronous insert that is refused is refused for its idempotency key: nobody else has its order id |
| ConsumerInvariants.AnsweredMeansStored | internal/service/order_materializer.go:48-57 | after an insert that answered, duplicate or not, the message's key is stored; a clash is always a clash with that key |
| ConsumerInvariants.ConsumerStep | internal/infra/kafka/consumer.go:52-102 | everything behind a position is stored or dead-lettered, and only undecodable entries lie between the committed offset and the position |
| ConsumerInvariants.SrcStep | internal/infra/kafka/consumer.go:86-101 | every row goes back to one log offset, one user's rows have increasing offsets, and an earlier message with the same key was dead-lettered |
| ConsumerInvariants.SuccessStep | internal/service/order_materializer.go:55-61 | a token that reads success belongs to a request whose key is stored |
| Invariants.StepInv | internal/service/seckill.go:76-136 | every step of every actor keeps the whole invariant |
| Invariants.Always | internal/infra/kafka/consumer.go:51-103 | every state of every schedule satisfies the whole invariant |
| Accounting.ExactDrift | internal/service/reconcile.go:90-96 | in every run stock plus reservations is the initial stock, and the drift is the number of reservations with no row of their own, never negative |
| Accounting.EveryReservationExplained | internal/service/seckill.go:93-129 | with either order creator, every reservation has its own row or is in flight, leaked, pending, dead-lettered or duplicated |
| Accounting.DriftZeroIff | bench/k6/chaos/kill_consumer.sh:108-113 | with either order creator the chaos equation holds exactly when no reservation without a row has one of these five reasons |
| Accounting.WarmKeepsEquationIff | internal/service/admin.go:29-39 | warming keeps the stock equation exactly when nothing of the activity is reserved |
| Accounting.ResendIsAnotherRequest | internal/infra/redis/client.go:11-17 | a script that the client library sends twice leaves the system as one more request that lost its answer does |
| Accounting.TwoLayerBound | internal/service/order_materializer.go:55-57 | in every run one row per (activity, user, token) over all shards, and rows per user at most the user counter, which is at most the limit |
| Accounting.NoOversoldRows | README.md:27 | rows never exceed reservations, and reservations never exceed the initial stock |
| Accounting.QueuedAnswers | internal/service/seckill.go:131-135 | queued answers of an activity carry distinct remaining values in [0, total stock), distinct tokens and distinct orders, each with its message in the log or its row in the table |
| Accounting.RowsSoldInWindow | internal/service/seckill.go:85-91 | every row goes back to a reservation whose clock reading lay in the sale window, and carries the activity's product |
| Accounting.RowsRepeatTheirSource | internal/service/order_materializer.go:43-47 | field by field: every row is stored as queued; it repeats an entry of its partition, with the time that was produced at, or with the synchronous creator its request, with the clock reading inside the window |
| Accounting.EntriesRepeatTheirOrder | internal/service/kafka_order_creator.go:29-41 | field by field: every decodable entry repeats the user, activity, token, order id, product and queue token of the request it was published for, in the partition of its user |
| Accounting.KthReservation | internal/service/seckill.go:93-93 | the k-th reservation since the warming leaves total stock minus k, in any interleaving |
| Accounting.RefusedDidNothing | internal/service/seckill.go:94-105 | a request refused by window, stock, limit or warming has no reservation, order, token or message |
| Accounting.RefusingStepIsSilent | internal/service/seckill.go:76-105 | the step that refuses changes nothing anywhere but the answer |
| Delivery.CommitSafety | internal/infra/kafka/consumer.go:65-101 | in every run each entry below the position, hence below the committed offset, has a row with its key or was handed to the callback |
| Delivery.StageCountsFailures | internal/infra/kafka/consumer.go:87-94 | the attempt number of a delivery is the number of handler calls that failed in it, read off the schedule |
| Delivery.CallbackMeansExhausted | internal/infra/kafka/consumer.go:86-98 | the callback on a decodable entry comes after exactly maxRetries + 1 failed calls of that delivery |
| Delivery.PerUserOrder | internal/infra/kafka/producer.go:25-47 | the rows of one user are a subsequence of that user's log entries, whatever was retried, dead-lettered or redelivered |
| Delivery.LogIsFair | internal/infra/kafka/producer.go:25-47 | messages lie in their user's partition, and entries with one order id are copies of one message |
| Delivery.RowsAreWinners | internal/service/order_materializer.go:42-57 | once all is consumed and nothing exhausted, a row is stored exactly when it is the first message with its key |
| Delivery.OnePassReference | internal/service/order_materializer.go:42-57 | one failure-free pass over a log stores exactly the first message of every key |
| Delivery.ReplayConfluence | internal/infra/kafka/consumer.go:51-103 | whatever the schedule of crashes, retries and interleavings, each shard ends with exactly the rows of one failure-free pass |
| Delivery.TwoRunsAgree | internal/infra/kafka/consumer.go:51-103 | two such runs over one log end with the same rows |
| CatchUp.StageAdvances | internal/infra/kafka/consumer.go:65-101 | each consumer step without a crash moves a delivery to a later stage or on to the next entry |
| CatchUp.WorkBounded | internal/infra/kafka/consumer.go:52-102 | however mixed with steps of everybody else, the consumer steps that take place are at most a measure of unconsumed entries and remaining stages, while nothing is published and no crash or failed commit occurs |
| CatchUp.NotStuck | internal/infra/kafka/consumer.go:52-102 | while entries are left the consumer can move |
| CatchUp.CatchUpTerminates | internal/infra/kafka/consumer.go:52-102 | from any reachable state, with requests, warmings, expiries and failing calls going on, once that many consumer steps have taken place, or none can, all is consumed and every entry is stored or dead-lettered |
| CatchUp.DrainingRun | internal/infra/kafka/consumer.go:52-102 | a run of consumer steps that drains every partition exists, no longer than the measure |
| Tokens.SuccessIsSound | internal/service/order_materializer.go:55-61 | a token that reads success names its own request's order id, and a row with that request's key is in the user's shard, now and for ever |
| Tokens.NeverQueuedAgain | internal/service/queue_token.go:20-31 | a token that has read success or failed never reads queued again, in any later state of any run |
| Tokens.QueuedIff | internal/service/queue_token.go:20-31 | a token reads queued exactly when it was written so and since then its key has not expired and no consumer write to it took effect |
| Tokens.StuckQueued | cmd/consumer/main.go:118-128 | a token that reads queued after its message was consumed belongs to a message handed to the callback, and every write to the token, the callback's included, was lost |
| Tokens.SuccessFlipsIff | cmd/consumer/main.go:118-128 | success turns into failed exactly when the callback for a message with this token writes |
| Tokens.LostReplyFlips | internal/service/order_materializer.go:58-66 | a token write that took effect but failed on the last attempt is overwritten by the callback |
| Tokens.SuccessNamesRowIff | internal/service/order_materializer.go:55-61 | the id a success names is that of a stored row exactly when no other request with the same key has its row there |
| DeadLetters.TopicIff | cmd/consumer/main.go:125-127 | after any run the dead-letter topic holds exactly the messages of the sends that succeeded |
| DeadLetters.CallbackConcludes | cmd/consumer/main.go:118-128 | the consumer's next step after a call of the callback is the send or a crash, and the entry's message is sent then exactly when the send succeeds and names an order |
| DeadLetters.SendConcludes | cmd/consumer/main.go:118-128 | every successful send concludes a call of the callback for that message |
| DeadLetters.HandedInTopicIff | cmd/consumer/main.go:118-128 | an entry handed to the callback is in the topic exactly when it names an order and some call of the callback for its message is followed at once by a successful send |
| DeadLetters.HandedReachesTopic | cmd/consumer/main.go:118-128 | while no send fails and no process dies between the two halves of the callback, every handed entry with an order id is in the topic or about to be sent |
| Counterexamples.SuccessThenFailed | cmd/consumer/main.go:118-128 | a run in which a client reads success and then failed |
| Counterexamples.MissingDeadLetter | cmd/consumer/main.go:118-128 | a run in which a decodable entry is handed over and committed, is missing from table and topic, and its client still reads queued |
| Counterexamples.SuccessNamesNoRow | internal/service/order_materializer.go:55-61 | a run of two purchases with one key in which success names an id no row has |
| Counterexamples.DriftOfOne | internal/service/reconcile.go:90-96 | a run that ends with a drift of 1 |
| Backend.RunByOthers | internal/infra/kafka/consumer.go:51-103 | steps of others leave a caller's own request or reader where it was, and never undo a row, an entry or a warming |
| Backend.Stores.GetActivity | internal/service/seckill.go:77-91 | the activity read and the three answers it can cause |
| Backend.Stores.NewToken | internal/service/queue_token.go:20-31 | a fresh UUID is marked queued, or the caller gets none |
| Backend.Stores.AppendMessage | internal/infra/kafka/producer.go:35-51 | one more entry at the end of the partition of the user |
| Backend.Stores.FetchEntry | internal/infra/kafka/consumer.go:58-65 | the entry at the position, whose delivery begins |
| Backend.Stores.SetSuccess | internal/service/order_materializer.go:58-60 | the token is overwritten with this message's id |
| Backend.Stores.FlagFailed | cmd/consumer/main.go:121-124 | the token is overwritten only for an entry that decodes and has one |
| Backend.Stores.SendToDlq | cmd/consumer/main.go:125-127 | a message with an id is appended to the dead-letter topic if the send succeeds, and nobody learns if not |
| Backend.Stores.CommitEntry | internal/infra/kafka/consumer.go:71-100 | the committed offset, and where the reader goes on after a failed commit |
| Services.SeckillService.Seckill | internal/service/seckill.go:76-136 | under any interference, and for every fate of the four calls, the one possible answer: by the activity read, this call's clock, and the stock and user counter at the moment of the script, in the order of the checks; internal exactly when a call that was made did not answer, so a granted decrement with an answering publish ends in queued; the answer is the one on record, a queued answer has its reservation, token and message or row, a duplicate its key, a refusal did nothing, and a publish or insert that took effect is there whatever was answered |
| Services.SeckillService.Decide | internal/service/seckill.go:77-105 | activity, then window, then stock: each check has its own answer, decided by what was read then and by the fate of the call |
| Services.SeckillService.PlaceOrder | internal/service/seckill.go:107-135 | the token is the UUID that was marked queued exactly when marking it answered, else the printed order id; internal exactly when the order call did not answer; the order carries this call's fields, clock readings and product, and a queued answer shows this token and this remaining |
| Services.SeckillService.SendOrder | internal/service/kafka_order_creator.go:29-41 | queued exactly when the publish answered; the message is in the log if it took effect, although it may not have answered |
| Services.InternalIff | internal/service/seckill.go:76-129 | an internal error exactly when the activity read did not answer, or inside the window the script did not, or after a granted decrement the order call did not |
| Services.AnswerIsPromise | internal/service/seckill.go:68-136 | what every recorded answer promises, in every run |
| Services.OrderMaterializer.Handle | internal/service/order_materializer.go:42-61 | it succeeds exactly when the breaker let the insert through and both calls answered, else it returns that attempt's error; an insert that took effect leaves the key stored and a token write that did reads this message's success, whatever was returned; success moves the delivery to its commit, failure one attempt on |
| Services.OrderMaterializer.Insert | internal/service/order_materializer.go:48-57 | stored or a duplicate exactly when the insert was let through and answered, else a failed attempt; the key is stored whenever the insert took effect |
| Services.OrderMaterializer.Confirm | internal/service/order_materializer.go:58-60 | the token write that ends a handler call: it succeeds exactly when it answered, and shows whenever it took effect |
| Services.Consumer.Deliver | internal/infra/kafka/consumer.go:86-94 | an error is reported exactly when all maxRetries + 1 calls failed, and it is the last one's; else the key is stored |
| Services.Consumer.DeadLetterQueue | cmd/consumer/main.go:118-128 | the entry counts as handed over; the token reads failed with this reason right after a write that took effect, and a payload that names an order is in the topic if the send took effect |
| Services.Consumer.Process | internal/infra/kafka/consumer.go:58-101 | one entry from fetch to commit: it stops exactly when the commit of a decodable entry failed; committed offset and resume point for every fate of the commit; the key is stored if a handler call succeeded, else the callback was given the last error, or the decoding error |
| Services.Consumer.Run | internal/infra/kafka/consumer.go:51-103 | it ends early exactly on a failed fetch or a failed commit of a decodable entry; otherwise it has moved over exactly the entries it met, in log order, one in every pass while there were some; everything behind it is stored or dead-lettered, and all it moved over is stored if the handler always succeeded |
| Services.ReconcileService.CountOrders | internal/service/reconcile.go:99-115 | with writers between the shards the total lies between the counts at the start and at the end; the first shard that does not answer is reported, and nothing else |
| Services.ReconcileService.Check | internal/service/reconcile.go:77-97 | which of the three errors, or a finding, for every fate of the calls; the finding shows the initial stock, the Redis stock read and a count between those at that moment and at the end, and its drift is at most the true one then, at least minus the decrements since, and exact when nothing moved |
| Services.DriftBounds | internal/service/reconcile.go:77-115 | these bounds between any two reachable states |
| Idempotency.AnyChunking | internal/middleware/idempotency.go:116-133 | for any chunking the writer overflows exactly when the total exceeds the cap, and otherwise holds exactly the bytes |
| Idempotency.BodyWriter.Write | internal/middleware/idempotency.go:123-133 | the client gets every byte, whatever the buffer does |
| Idempotency.ReplayExactIff | internal/middleware/idempotency.go:87-112 | a replay equals the first response exactly when its body is non-empty, at most 16 KiB and compact |
| Idempotency.CapturedBodyReplay | internal/middleware/idempotency.go:87-112 | a body that fitted the buffer is replayed in compact form with the first status, or answered with 500 when it has none |
| Idempotency.LostBodyReplay | internal/middleware/idempotency.go:87-133 | an empty body, or one whose first bytes already exceed the cap, is replayed as null; one that outgrew the buffer later is answered with 500 |
| Idempotency.RunsBounded | internal/middleware/idempotency.go:62-112 | in every run the handler runs at most once, plus once for each failed SETNX, key found gone, or end of the key's life |
| Idempotency.AtMostOnce | internal/middleware/idempotency.go:62-112 | while the key lives and SETNX does not fail, at most one of any number of interleaved requests runs the handler |
| Idempotency.ConflictBeforeCache | internal/middleware/idempotency.go:80-86 | until the answer is cached everybody turned away was told 409 |
| Idempotency.ReplayAfterCache | internal/middleware/idempotency.go:87-101 | from then on everybody turned away gets the cached answer |
| Idempotency.ReplayIsFirstRun | internal/middleware/idempotency.go:62-112 | that answer is the first run's status and bytes exactly under the condition above |
| Idempotency.AbandonedStays | internal/middleware/idempotency.go:80-112 | a key on processing whose creator is gone stays so for the rest of its life: the handler is not run again, and everybody turned away by an answered GET is told 409 |
| Idempotency.StuckIff | internal/middleware/idempotency.go:62-112 | a key stays on processing for the rest of its life exactly when its creator is neither at work nor about to write the answer |
| FrontDoor.ReservedPerToken | internal/middleware/idempotency.go:62-112 | over all schedules of middleware and system, one (activity, user, token) reserves at most once plus once per slip of its key, has at most one row, and a row only with a reservation |
| FrontDoor.SteadyFront | internal/middleware/idempotency.go:62-112 | while the key lives and SETNX does not fail, one (activity, user, token) reserves at most once, and a success names the id of a stored row |
| Idempotency.AbandonedIsReached | internal/middleware/idempotency.go:62-112 | a panic, a lost cache write, a SETNX whose reply is lost and one sent twice each lead to such a key |
| Idempotency.IdemKey.SetIfAbsent | internal/middleware/idempotency.go:62-67 | SETNX: one creator, failures that may have created the key, and a creator that takes itself for a loser |
| Idempotency.IdemKey.Get | internal/middleware/idempotency.go:69-86 | the read of a loser and the answer it leads to |
| Idempotency.IdemKey.Set | internal/middleware/idempotency.go:111-112 | the cache write, whose error is ignored |
| Idempotency.Middleware.Serve | internal/middleware/idempotency.go:36-114 | unreadable or oversized bodies are refused, requests without a token never touch the key, and every other answer is on record and the one due for the key at the SETNX and at the GET and for the fate of the three commands; the creator whose handler returned writes its answer |
| Idempotency.Middleware.Winner | internal/middleware/idempotency.go:103-112 | the creator's response reaches the client in full, and its last step is the cache write with that response; a panic skips it |
| Idempotency.Middleware.ServeTwice | internal/middleware/idempotency.go:62-112 | a request and its repetition among any number of others: after a creator whose cache write took effect, in a steady run the second is told what was stored, which is the first response exactly when that is non-empty, at most 16 KiB and compact |
| RateLimit.RateLimiter.IncrKey | internal/middleware/ratelimit.go:37-41 | the counter follows the record of everything that reached Redis |
| RateLimit.RateLimiter.ExpireKey | internal/middleware/ratelimit.go:42-44 | a deadline is set on the key that exists then, if any |
| RateLimit.RateLimiter.Allow | internal/middleware/ratelimit.go:37-51 | the answer is the one the record gives; a failed INCR lets the request through; only the creator sends EXPIRE |
| RateLimit.GenerationExact | internal/middleware/ratelimit.go:37-51 | each lifetime of the key with k requests passes exactly min(k, limit) |
| RateLimit.BirthsApart | internal/middleware/ratelimit.go:42-44 | lifetimes of one key start at least a minute apart per lifetime, for EXPIREs late, lost or repeated |
| RateLimit.MinuteBound | internal/middleware/ratelimit.go:37-51 | any half-open minute passes at most 2 * limit - 1 requests of a user (none for a limit of zero) plus those whose INCR failed |
| RateLimit.MinuteBoundIsReached | internal/middleware/ratelimit.go:37-51 | for every positive limit a run reaches that bound |
| RateLimit.ExceedsIff | internal/middleware/ratelimit.go:37-51 | some continuation passes more than the limit in a minute exactly when at its start 0 < count < limit and the deadline lies inside the minute |
| RateLimit.LetThroughIff | internal/middleware/ratelimit.go:37-51 | a request passes exactly when its key is gone or holds fewer than limit |
| RateLimit.LockedOutIff | internal/middleware/ratelimit.go:42-51 | a user is refused in every continuation without an EXPIRE exactly when the counter is full and has no deadline |
| RateLimit.LockoutIsReached | internal/middleware/ratelimit.go:42-51 | for every positive limit a run without EXPIRE reaches such a counter |
| RateLimit.ExpireEndsLockout | internal/middleware/ratelimit.go:42-44 | an EXPIRE that finds the key, however late, lets the user through again from its deadline on |
| Keys.ParsePrinted | internal/repo/stock_redis_repo.go:36-41 | a printed number reads back |
| Keys.KeysInjective | internal/middleware/idempotency.go:60-60 | no two keys of any kind share a string, for all ids and all token strings |
| Keys.WriteOne | internal/service/order_materializer.go:58-60 | a write under one printed key is seen there and nowhere else |
| Keys.WriteToken | internal/service/queue_token.go:26-29 | writing a printed token state is the update of the typed token map |
| Keys.WriteIdem | internal/middleware/idempotency.go:60-62 | SETNX and SET of an idempotency record on strings are those of the typed map |
| Keys.IncrRefines | internal/middleware/ratelimit.go:35-37 | INCR of a printed rate counter is that of the typed one |
| Keys.DropOne | internal/middleware/ratelimit.go:43-43 | a key that goes takes no other with it |
| Keys.ScriptRefines | internal/repo/stock_redis_repo.go:33-41 | the script on strings, under the keys the repository prints, refines the typed script and changes nothing else in a store of all five kinds of keys |
| Keys.ScriptFrame | internal/repo/stock_redis_repo.go:36-37 | it leaves every other key alone |
| Keys.DecodePrinted | internal/handler/order.go:31-44 | the handler's switch returns the state that was printed, whatever a failure's reason says |
| Keys.RespondShowsState | internal/service/queue_token.go:34-41 | a client sees the typed state of its token, not_found exactly when there is none, and an error for an empty token or a GET that failed |
| Keys.SuccessIdReadsBack | internal/handler/order.go:34-36 | the order id in the response reads back as the one written |
| Keys.TokensInjective | internal/service/seckill.go:112-117 | a printed order id is never a UUID, so distinct tokens have distinct strings |

## Left out

* Stock in SQL mode inside the protocol: `Protocol` reserves through the script; `StockSql` covers the SQL version on its own and against the script.
- RateLimit.GenerationExact: for runs in which every INCR answered, because a request whose INCR failed saw no count; `RateLimit.MinuteBound` has no such condition.
- RateLimit.BirthsApart: for runs in which every INCR answered, since a birth is recorded where its count was seen.
- Services.Consumer.Run: a finite stretch of the endless loop; cancellation of its context is the end of the stretch, and a crash in mid-entry is a step of `Protocol` only; what each pass meets is an argument.
- Services.SeckillService.PlaceOrder: the version number of the message and the trace headers are not carried.
* Scheduling itself (`Backend.Stores.Turn`, `Idempotency.IdemKey.Turn`); what others do is any list of protocol steps.
* Network, drivers and clients: only their effect on the modelled state and their ways to fail. gin drops the body of statuses that carry none; `Idempotency` compares what is handed to it.
* The compact form that encoding gives a raw JSON body is a parameter.
* Circuit breaker internals: an oracle that refuses or passes the call's own result on.
* The global token bucket, metrics, tracing, logging, request ids, configuration, wiring and admin handlers.
* Activity status and the mapping of outcomes to HTTP statuses.
* JSON encoding of messages: an entry decodes or it does not, and an entry that does not may leave a partly filled message behind.
* Column limits (unsigned ids, VARCHAR(64) tokens) and the case-insensitive collation of the token column.
* Lua numbers as doubles: amounts beyond 2^53 are exact here.
* The millisecond at which Redis drops a key: here at its deadline, in Redis just after; no bound above depends on it.
* Expiry of `stock`, `user_buy` and `idem` keys within a run, replay of the dead-letter topic by operators, and rebalancing with two live readers, by hypothesis.
* Unimplemented designs under `plan/`.
