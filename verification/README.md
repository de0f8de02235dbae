# HAMq delivery, reconciliation and counter test: a verified model

HAMq moves messages from a producer with a local SQLite buffer, over a Kafka topic, into a consumer's
SQLite table; an arbiter compares what was sent with what was stored, and a separate counter test judges
gaps in a wrapping stream. This project models that logic in Dafny and proves what it promises.

## How it is organised

* **Producer.** `BufferTable.dfy` has the SQL statements of the buffer as functions on a table,
  `BufferHistory.dfy` the conservation law they keep. `ProducerSystem.dfy` is the producer process as a
  transition system: any number of coroutines, each suspended at one `await`; every SQL statement, every
  commit and every Kafka call is an await of its own; visible and committed table are kept apart, so a crash
  rolls back what was not committed; a query whose exception the code swallows goes on with the value the
  code takes instead. `ProducerCapacity.dfy` bounds the queue, `CompleteAdds.dfy` says which runs accept every
  message, `SendOrder.dfy` when messages are delivered in order.
* **Classes of the producer.** `MessageBuffer.dfy` and `KafkaProducer.dfy` are the buffer and the sending
  side as classes. The flush loop is proved equal to the function in `FlushSpec.dfy`; `FlushOrder.dfy`,
  `FlushSkips.dfy` and `FlushRepeats.dfy` prove termination, order and repetition about that function, and `FlushRefinement.dfy`
  shows that what a pass, or a `SendMessage`, does is a run of the transition system.
* **Consumer.** `ConsumerSystem.dfy` is the consumer process as a transition system (poll, save, commit,
  exceptions, late offset commits, cleanup, statistics, crash). `MessageStore.dfy`, `ConsumeLoop.dfy` and
  `ConsumerService.dfy` are the classes; every method of the consume loop is a run of the transition system.
* **The pipeline.** `Delivery.dfy` puts one producer, the topic, one consumer and other producers together:
  the broker may append a requested message at any time, repeatedly, whatever the sender was told.
  `DeliveryTheorems.dfy` holds the end-to-end results, `Draining.dfy` shows that the consumer can always catch
  up, and `ExactlyOnce.dfy` when the table ends up with exactly the accepted messages.
* **Arbiter.** `Reconciler.dfy`, `AuditStore.dfy`, `Rates.dfy`; `ReconcilerSoundness.dfy` sets the arbiter
  against the running pipeline and `Overtaking.dfy` is a concrete run that breaks one of its hypotheses.
* **Counter test.** `Judge.dfy`, `CounterStream.dfy`.
* **Others.** `ProducerService.dfy` (generation and accounting), `Timestamps.dfy` (text order of
  timestamps), `IntSets.dfy` (min, max, range, sorted).

## Assumptions

* Message ids are fresh and name one message; audit ids are fresh. A field of a record that another program
  wrote is absent, null or of its documented type; its id is not null (the table's TEXT primary key would take
  a null id again at every delivery). Clock readings used for `created_at`
  strictly increase. There is one producer session: the sequence counter is not restarted.
* Kafka is an append-only log per partition, and a record's partition is a fixed function of its key.
* SQLite transactions survive a process crash exactly if they were committed (the consumer runs with
  `synchronous=NORMAL`, which can lose commits on power loss; that is not modelled).
* The buffer is opened before it is used and `BUFFER_MAX_SIZE` is at least 1.
* Real numbers stand for floats; SHA-256 is any function.

## What turned out differently than documented

* `send_message` ignores the result of `add`: a message whose add failed is still sent directly, and the flush
  loop can send a row before its insert is committed. So the consumer's table can hold a message that was never
  accepted (`ExactlyOnce.StoredIsNotAccepted`). It is bound to end up with exactly the accepted messages if and
  only if every message handed to Kafka was accepted (`ExactlyOnce.ExactlyOnceEffect`), and every message is
  accepted if and only if no add is cut off by a failing statement other than its COUNT, by a cancellation or by
  a crash (`CompleteAdds.AllAcceptedIffUnbroken`).
* `BUFFER_MAX_SIZE` is not a bound: `count_pending` answers 0 when its query fails, so an add on a full queue
  then inserts without evicting. The bound holds if and only if no COUNT fails while the queue is full
  (`ProducerCapacity.BoundIffCountAnswers`); with every COUNT failing the queue grows without limit
  (`ProducerCapacity.QueueGrows`). An add on a full queue whose INSERT fails loses the oldest message for
  nothing (`MessageBuffer.AddKeepsNewest`).
* "A message is committed only after it is saved" has an exception: `INSERT OR IGNORE` skips in silence a record
  with a null where the table has a NOT NULL column. Such a record counts as a duplicate, its offset is
  committed, and it has no row (`Draining.PassedWithoutRow`). It is the only kind of record that is passed
  without ever getting a row (`DeliveryTheorems.CommitSafety`).
* A flush pass can write a message twice even if nothing but connection and timeout errors happens: if the last
  message of a batch is lost but appended and the connection is back by the next fetch.
  `FlushRepeats.OnceEachIffNoRepeats` says exactly in which environments without other errors this happens.
* "The flush loop processes buffered messages FIFO" does not survive a non-retriable KafkaError: the refused
  message stays and the loop goes on with the next one. `FlushSkips.FifoIffNoSkips` says exactly when the
  order holds.
* The header of `reconciler.py` says a failed consumer call skips the producer. It does not: a gap query that
  fails for whatever reason (an HTTP or network error, a refused range) counts every eligible sequence as
  missing (`Reconciler.ReconciliationIsExact`), and a missing watermark removes the protection against lag
  (`ReconcilerSoundness.NoWatermarkNoProtection`).
* Retention defeats the audit of a producer that has stopped: once `cleanup_old` has deleted its rows there is
  no watermark for it, and every number that its ring still lists is reported missing
  (`ReconcilerSoundness.ForgottenProducer`). Under a watermark, deletion is the only reason for a false report
  (`ReconcilerSoundness.ReportedUnderLag`).
* The judge can be right about a round whose 1 was lost: `CounterStream.MissingIsExact` says exactly when.
* The direct send can overtake older buffered messages (`Overtaking.OvertakingBreaksSoundness`), so "ordered
  delivery" and the arbiter's watermark argument need a condition on the producer: a message may be handed to
  Kafka for the first time only when every older one that was handed over is in the log, and no younger one was
  handed over (`SendOrder.OrderIffOrderly`, in both directions). Handing over only when everything before is
  older and marked sent is enough (`SendOrder.GuardedIsOrderly`).
* `docs/components/consumer.md` describes automatic offset commits; the code commits each offset itself,
  after the row.
* With an alert threshold of 0, an alert fires for a loss of 0 although the status is then `ok`
  (`Reconciler.AlertIffCritical`).
* After a stop, `CounterProducer` starts from the last counter it sent, so that counter would be sent twice
  (`CounterStream.CounterProducer.Loop`). The only route that starts it resets the counter first
  (components/test-orchestrator/backend/app/api/routes.py:50), so this does not show.

## Model

| member | source | states |
|---|---|---|
| DeliveryTheorems.NoLoss | components/producer/backend/app/kafka_producer.py:143-289 | In every reachable state of every interleaving, with crashes, a message whose `add` returned True is pending, evicted or in the log, in the live and in the committed table; every row marked sent is in the log |
| DeliveryTheorems.Conservation | components/producer/backend/app/buffer.py:111-187 | Inserted = pending + marked sent + evicted, as counts, and every evicted row is older than every pending one, over all runs |
| DeliveryTheorems.RowsLeaveSafely | components/producer/backend/app/buffer.py:258-292 | A row leaves the table only by eviction, as a sent row whose message is in the log, or because a crash rolled back its uncommitted insert |
| DeliveryTheorems.SendsFindAProducer | components/producer/backend/app/kafka_producer.py:218-335 | However reconnects, closes and failing sends interleave, `_connected` equals the event, implies a producer object, and no send is ever started on a missing producer |
| DeliveryTheorems.CommitSafety | components/consumer/backend/app/kafka_consumer.py:104-204 | The ids ever saved are exactly those of the complete records in a prefix of each partition log, the committed offset never passes that prefix, no record whose handling raises is ever passed, and a passed record never got a row if and only if it has a null in a NOT NULL column |
| DeliveryTheorems.ZeroLagMeansDrained | components/consumer/backend/app/kafka_consumer.py:277-303 | When the lag total comes out 0, every record below the sampled end offsets has been passed in the committed table, and got its row there unless it has a null in a NOT NULL column |
| DeliveryTheorems.StoredIsLogged | components/consumer/backend/app/storage.py:147-178 | At quiescence the table holds exactly the producer's messages that are in the log, one row each, however often each was appended; all accepted ones are among them |
| ExactlyOnce.ExactlyOnceEffect | components/producer/backend/app/kafka_producer.py:166-177 | From any reachable world, as long as the producer stands still, every state in which all is delivered and consumed has stored = accepted if and only if every message handed to Kafka was accepted (or such a state is out of reach) |
| ExactlyOnce.StoredIsNotAccepted | components/producer/backend/app/kafka_producer.py:166-177 | A reachable world, all delivered and consumed, whose table holds a message that was never accepted: its INSERT failed and it was sent directly |
| Draining.CanBeRead | components/consumer/backend/app/kafka_consumer.py:170-204 | With no record that it cannot handle in its way, the consumer can always come to have read, saved and committed everything |
| Draining.PassedWithoutRow | components/consumer/backend/app/storage.py:147-178 | A concrete reachable world: the topic's only record has a null in a NOT NULL column, its offset is committed and the table is empty |
| CompleteAdds.AllAcceptedIffUnbroken | components/producer/backend/app/buffer.py:111-168 | Once no add is under way, every message handed to `send_message` was accepted if and only if no add of the run was cut off by a failing statement other than its COUNT, a cancellation or a crash |
| CompleteAdds.EverythingIsStored | components/producer/backend/app/kafka_producer.py:143-177 | After such a run, once all is delivered and consumed, the table holds exactly the messages handed to `send_message` |
| Delivery.StepInv | components/producer/backend/app/kafka_producer.py:233-335 | One step of any coroutine, of the broker, of another producer or of the consumer keeps the whole invariant |
| Delivery.CrashRollsBack | components/producer/backend/app/buffer.py:155-168 | After a producer crash the table is as last committed, no task and no connection is left, and every accepted message is still in the history of that table |
| ProducerSystem.StepInv | components/producer/backend/app/kafka_producer.py:143-414 | One step of the producer process keeps its invariant, at any suspension of the others |
| ProducerSystem.AnythingCanFail | components/producer/backend/app/kafka_producer.py:143-414 | No failure is excluded: at every await the coroutine can be cancelled, its statement or call can fail without an effect on table or acceptance, and a send can be lost or refused |
| ConsumerSystem.StepInv | components/consumer/backend/app/kafka_consumer.py:104-303 | One step of the consumer process, a crash or a late commit included, keeps its invariant |
| ConsumerSystem.NothingIsForgotten | components/consumer/backend/app/kafka_consumer.py:195-204 | Every watermark ever cached stays served until a crash rolls its row back, and an offset commit once asked for can take effect at any later time |
| ConsumerSystem.SaveInv | components/consumer/backend/app/storage.py:108-178 | Saving the next or an earlier record, complete or not, leaves the table equal to the complete records of a log prefix that is no shorter |
| ConsumerSystem.NoLagLeft | components/consumer/backend/app/kafka_consumer.py:285-297 | The summed lag is 0 exactly if every position has reached its sampled end |
| ConsumerSystem.LagCountsUnread | components/consumer/backend/app/kafka_consumer.py:285-297 | The summed lag is the number of records between the positions and the sampled ends |
| ProducerCapacity.NeverOverfull | components/producer/backend/app/buffer.py:135-163 | With one add at a time, and no COUNT failing while the queue is full, pending never exceeds the maximum, wherever adds, sends, marks and cleanups are suspended, and after crashes |
| ProducerCapacity.BoundIffCountAnswers | components/producer/backend/app/buffer.py:231-252 | After such a run, a next step keeps the bound in every such continuation if and only if it is not a failing COUNT on a full queue |
| ProducerCapacity.QueueGrows | components/producer/backend/app/buffer.py:231-252 | With every COUNT failing and every write succeeding, any number of messages comes to wait, whatever the maximum |
| BufferHistory.EvictKeepsInv | components/producer/backend/app/buffer.py:135-153 | The eviction statement keeps conservation, order and the age rule |
| BufferHistory.MarkKeepsInv | components/producer/backend/app/buffer.py:170-187 | Marking moves exactly the pending message with that id to the marked ones; an evicted one stays evicted |
| BufferHistory.CleanKeepsInv | components/producer/backend/app/buffer.py:258-292 | Cleanup keeps conservation and leaves the queue as it was |
| BufferHistory.Counted | components/producer/backend/app/buffer.py:111-187 | The three parts of an accepted message's fate add up as numbers |
| MessageBuffer.AddKeepsNewest | components/producer/backend/app/buffer.py:111-168 | With any one statement failing: the new message gets in behind everything that waited exactly if its INSERT is reached and succeeds, and a full queue loses its oldest message, and no other, unless COUNT or DELETE fail |
| MessageBuffer.AddKeepsBound | components/producer/backend/app/buffer.py:135-153 | A full queue gets longer exactly if the COUNT fails (and the id is new), and then by one |
| MessageBuffer.Buffer.Add | components/producer/backend/app/buffer.py:111-168 | True exactly if the buffer is open and neither INSERT nor commit fails nor, on a full queue, the DELETE; the id is then in the table. For every failing statement: which message a full queue loses, and whether the new one waits at its end; nothing changes when the buffer is not open |
| MessageBuffer.Buffer.MarkDelivered | components/producer/backend/app/buffer.py:170-187 | The message leaves the queue wherever it stands, the others keep their order, and no row is lost |
| MessageBuffer.Buffer.GetPending | components/producer/backend/app/buffer.py:193-229 | The oldest pending messages up to the limit, all different, or nothing when the query fails |
| MessageBuffer.Buffer.CleanupSent | components/producer/backend/app/buffer.py:258-292 | Exactly the sent rows older than the cutoff go, the queue is untouched, and the count is right |
| KafkaProducer.ResilientKafkaProducer.SendMessage | components/producer/backend/app/kafka_producer.py:143-177 | True exactly if the connection stands after the add and the broker acknowledges; then the message is appended and off the queue. After False it is pending exactly if its INSERT was reached and succeeded, and is appended exactly if a send was made and the broker appended it all the same |
| KafkaProducer.ResilientKafkaProducer.SendSingle | components/producer/backend/app/kafka_producer.py:233-289 | True exactly if acknowledged, and then the message is in the log and off the queue, the others in order; failure leaves the queue as it was, appended or not; a connection error takes the connection down |
| KafkaProducer.ResilientKafkaProducer.FlushBuffer | components/producer/backend/app/kafka_producer.py:363-396 | The loop terminates; it ends only on an empty queue, a failed query, without a connection, or after up to a hundred sends of which none was acknowledged; without non-retriable errors what is left of the queue is the end of it; the pass is the one whose order and repetitions are proved below |
| KafkaProducer.SentOrWaiting | components/producer/backend/app/kafka_producer.py:233-289 | A send either takes its message off the queue into the log or leaves the queue as it was |
| KafkaProducer.HandedMeans | components/producer/backend/app/kafka_producer.py:143-177 | What becomes of a message handed to `send_message`: delivered exactly if connected after the add and acknowledged, otherwise pending exactly if its INSERT was executed, and what the log has gained |
| FlushSpec.BatchShrinksQueue | components/producer/backend/app/kafka_producer.py:370-396 | Each acknowledged send takes exactly one message off the queue, which is why the loop ends |
| FlushSpec.FetchesAHundred | components/producer/backend/app/kafka_producer.py:370-372 | A pass fetches the up to a hundred oldest pending messages, in order, or nothing when the query fails |
| FlushOrder.WhyFlushStops | components/producer/backend/app/kafka_producer.py:370-396 | On exit the queue is empty, or the last query failed, or the connection is lost, or no send of the whole oldest batch was acknowledged |
| FlushOrder.FlushIsFifo | components/producer/backend/app/kafka_producer.py:363-396 | Unless a refused message is stepped over (so always under connection and timeout errors), a pass marks a prefix of the queue across all batches, leaves exactly the suffix, and appends that prefix in order, adjacent repetitions aside, plus at most the next message |
| FlushSkips.FifoIffNoSkips | components/producer/backend/app/kafka_producer.py:283-289 | Every pass in a Kafka environment, whichever queries fail, is first-in-first-out if and only if the environment never lets a send append directly after a non-retriable error on a standing connection |
| FlushRepeats.OnceEachIffNoRepeats | components/producer/backend/app/kafka_producer.py:363-396 | Under connection and timeout errors only: every pass in an environment, whichever queries fail, writes each message once if and only if the environment never shows the pattern of a lost but appended last send followed by a reconnect in time |
| FlushRepeats.PlainPass | components/producer/backend/app/kafka_producer.py:363-396 | Under connection and timeout errors only and without that pattern, the log gains exactly the prefix taken, plus at most the next message |
| FlushRefinement.FlushIsARun | components/producer/backend/app/kafka_producer.py:233-396 | From any reachable world, what a flush pass does to table and log is what some interleaved run of the pipeline does |
| FlushRefinement.SendRuns | components/producer/backend/app/kafka_producer.py:233-289 | One send of the pass is a run: append, acknowledgement, update, commit, with connection changes in between |
| FlushRefinement.SendMessageIsARun | components/producer/backend/app/kafka_producer.py:143-177 | From any reachable world, what `SendMessage` does to table and log, with any statement of its add failing, is what some interleaved run of the pipeline does, and in that run the message is accepted if and only if `add` returns True |
| MessageStore.Store.Save | components/consumer/backend/app/storage.py:108-178 | The first copy of a complete message makes its row, marked invalid exactly if a checksum is present and is not the digest of the data; later copies, and a record with a null in a NOT NULL column, change nothing and are reported as not inserted |
| MessageStore.Store.GetMissingSequences | components/consumer/backend/app/storage.py:230-261 | Ascending, exactly the numbers of the range without a row of that producer |
| MessageStore.Store.GetStats | components/consumer/backend/app/storage.py:263-301 | The summed total is the table size; per producer the maximum is attained and bounds every row |
| MessageStore.Store.CleanupOld | components/consumer/backend/app/storage.py:399-417 | By comparing text, exactly the rows received before the cutoff instant go |
| Timestamps.TextOrderIsTimeOrder | components/consumer/backend/app/storage.py:407-413 | Byte order of isoformat strings is time order, also when the fraction is omitted on one side |
| ConsumeLoop.KafkaConsumerService.HandleNext | components/consumer/backend/app/kafka_consumer.py:195-275 | Success exactly if the record can be handled and neither INSERT, commit nor offset commit raises; position and offset are then past it and its row exists, or it has a null in a NOT NULL column and the table is unchanged. Any exception drops the session and commits no offset. The checksum counter grows exactly if a checksum is present and is not the digest of the data, the receive counter by the row saved; either way it is a run of the consumer's transition system |
| ConsumeLoop.KafkaConsumerService.ConsumePass | components/consumer/backend/app/kafka_consumer.py:170-204 | A pass succeeds if nothing raises and every polled record can be handled. Then every polled record that has no null in a NOT NULL column has its row, offsets equal the polled ends, received_count grew by the number of new rows, and checksum_errors did not grow if no polled record has a wrong checksum |
| ConsumeLoop.KafkaConsumerService.Connect | components/consumer/backend/app/kafka_consumer.py:131-168 | It succeeds exactly if the broker answers; reading then resumes at the committed offsets; a failure doubles the wait up to 30 seconds |
| ConsumeLoop.ReachesKeepsInv | components/consumer/backend/app/kafka_consumer.py:104-204 | Whatever the methods do keeps the invariant of the transition system |
| ConsumeLoop.OwnDigestIsRight | components/consumer/backend/app/storage.py:425-444 | A message under the digest of its own data, as the producer makes it, has no wrong checksum |
| ConsumerService.Service.StatsTurn | components/consumer/backend/app/consumer_service.py:131-161 | The cache describes the table before this turn's cleanup; the cleanup comes every 720th turn; a failing query changes nothing, a failing cleanup comes after the refresh |
| ConsumerService.RefreshIsAStep | components/consumer/backend/app/consumer_service.py:138-142 | What a turn caches is what the consumer's transition system serves from the same table |
| ConsumerService.WatermarkStaysRead | components/consumer/backend/app/consumer_service.py:109-140 | A served watermark, however old, is the number of a record that the consumer has read, until the process crashes |
| Reconciler.ReconciliationIsExact | components/arbiter/backend/app/reconciler.py:348-374 | The missing list is exactly the eligible sequences without a row, if and only if the gap query is answered or none of them has a row; a query that fails for any reason makes it the whole eligible set |
| Reconciler.ExactUnlessFailed | components/arbiter/backend/app/reconciler.py:547-588 | For the consumer's route: exact if and only if the call succeeds and the range is not refused, or none has a row |
| Reconciler.AnsweredRanges | components/consumer/backend/app/api/routes.py:256 | The consumer answers for exactly the sets whose numbers are positive and no more than 100000 apart |
| Reconciler.CountsAddUp | components/arbiter/backend/app/reconciler.py:362-378 | Received + missing = sent, the list is ascending, the loss rate is a fraction, whatever the consumer answers |
| Reconciler.AlertIffCritical | components/arbiter/backend/app/reconciler.py:86-102 | Alert and critical status agree except for a zero loss under a zero threshold |
| Reconciler.OverallRateIsBetween | components/arbiter/backend/app/reconciler.py:257-270 | The overall rate lies between the least and the greatest producer rate, and the totals add up |
| Reconciler.AuditedIsAudit | components/arbiter/backend/app/reconciler.py:308-374 | What a pass computes for a URL is an audit exactly if some number is due, and then it counts what is due, lists its gaps, adds up, and its status and alert compare the rate with the threshold |
| Reconciler.MissingHasNoRow | components/arbiter/backend/app/reconciler.py:348-368 | If the gap query tells the gaps of what the consumer has, an audit lists exactly what is due and has no row |
| Reconciler.Service.ReconcileProducer | components/arbiter/backend/app/reconciler.py:308-420 | There is an audit exactly if the URL lists a number that is not beyond a positive watermark of its first message's producer; it counts those numbers and lists those among them that the consumer names as gaps (all of them if it does not answer). It is saved under a fresh id, field by field, at the end of the table unless an exception comes first, and reported exactly if none comes at all |
| Reconciler.Service.RunOnce | components/arbiter/backend/app/reconciler.py:228-306 | The report has, in URL order, exactly one such audit for each URL with something due in whose turn nothing raises; the rows added are, in order and field by field, those of the audits saved; the totals count what the entries count, sent = received + missing, and the overall rate lies between theirs |
| Reconciler.ReportedIsSaved | components/arbiter/backend/app/reconciler.py:255-270 | Every reported audit is saved, and nothing else unless a save raises after its INSERT |
| ReconcilerSoundness.ReportedUnderLag | components/arbiter/backend/app/reconciler.py:348-368 | With any positive watermark ever served, numbers first appearing in order and an answered gap query, a sequence reported missing is in the log (in a complete record) if and only if cleanup deleted its row |
| ReconcilerSoundness.PassUnderLag | components/arbiter/backend/app/reconciler.py:308-374 | An audit as a pass reports it, from a consumer that serves a reachable world's watermark and rows: it lists exactly what the producer lists, is not beyond the watermark and has no row; a number in it is in the log exactly if its row was deleted |
| ReconcilerSoundness.RunUnderLag | components/arbiter/backend/app/reconciler.py:228-306 | So for every entry of the report of `RunOnce` |
| ReconcilerSoundness.SoundUnderLag | components/arbiter/backend/app/reconciler.py:348-374 | With nothing deleted, such a report lists nothing that is in the log, if and only if the gap query is answered or nothing of it is in the log anyway |
| ReconcilerSoundness.OrderIsExact | components/arbiter/backend/app/reconciler.py:348-368 | Readers never pass a number while missing a smaller logged one, if and only if numbers first appear in increasing order |
| ReconcilerSoundness.NoWatermarkNoProtection | components/arbiter/backend/app/reconciler.py:512-545 | Without a usable watermark and with an answered gap query, the report is sound if and only if the saved prefix of the producer's partition has come past the first appearance of every sent number and none of them lost its row; with a failed query, if and only if nothing sent is in the log |
| ReconcilerSoundness.NoLagNoFalseLoss | components/arbiter/backend/app/reconciler.py:348-368 | When the consumer has saved the whole log, a number reported missing is in the log if and only if its row was deleted, with or without a watermark, in order or not |
| ReconcilerSoundness.ForgottenProducer | components/consumer/backend/app/storage.py:399-417 | From any reachable world, once a producer's rows are deleted and the statistics refreshed, it has no watermark and everything its ring lists is reported missing |
| ReconcilerSoundness.RolledBackWatermark | components/consumer/backend/app/consumer_service.py:131-161 | A watermark whose row a crash rolled back makes the arbiter report a logged number |
| Overtaking.RollbackHappens | components/consumer/backend/app/consumer_service.py:131-161 | A concrete reachable world in which that happens |
| Overtaking.OvertakingBreaksSoundness | components/producer/backend/app/kafka_producer.py:166-177 | A concrete reachable world in which the direct send overtook a buffered message and the report is wrong |
| SendOrder.OrderedDelivery | components/producer/backend/app/kafka_producer.py:143-177 | If every message is handed to Kafka for the first time only when every older one handed over is in the log and no younger one was handed over, the producer's numbers first appear in increasing order, whatever the broker repeats or delays |
| SendOrder.OrderIffOrderly | components/producer/backend/app/kafka_producer.py:143-177 | After such a run, a step keeps the order in every such continuation if and only if it hands over in that way itself |
| SendOrder.GuardedIsOrderly | components/producer/backend/app/kafka_producer.py:166-177 | Handing over only when everything handed over before is older and marked sent is enough |
| SendOrder.SoundIfOrderly | components/arbiter/backend/app/reconciler.py:348-368 | In such a run, with any positive watermark ever served and an answered gap query, a sequence reported missing is in the log if and only if its row was deleted |
| AuditStore.GlobalMeanAtMostWorst | components/arbiter/backend/app/audit_store.py:287-310 | The global mean loss never exceeds the worst producer's mean |
| AuditStore.SumIsAdditive | components/arbiter/backend/app/audit_store.py:287-310 | The sum of the rates is 0 for no row, a row's own rate for one, and additive |
| AuditStore.MeanIsAverage | components/arbiter/backend/app/audit_store.py:287-310 | The mean times the number of rows is that sum, and 0 for no row |
| AuditStore.Store.GetStats | components/arbiter/backend/app/audit_store.py:271-325 | The worst producer is one of the table's whose mean no other exceeds, and bounds the average; the producers are counted once each |
| AuditStore.Store.SaveResult | components/arbiter/backend/app/audit_store.py:125-166 | Saving a result twice is saving it once |
| AuditStore.Store.GetRecentMissing | components/arbiter/backend/app/audit_store.py:327-372 | The ascending union of the missing lists of the newest audits: the producer's audits, each once, are split into at most as many as asked for and the rest, and none of the rest is later |
| AuditStore.NewestCounts | components/arbiter/backend/app/audit_store.py:353-360 | The newest audits are as many as asked for, or all, and each audit is selected or left out once |
| AuditStore.NewestAreLatest | components/arbiter/backend/app/audit_store.py:353-360 | No audit that is left out has a later timestamp than a selected one, in whatever order they were saved |
| Judge.CounterJudge.Record | components/test-orchestrator/backend/app/judge.py:18-30 | A 1 starts a new cycle if there is one already; the counter joins the received ones; the numbers it passes for the first time in the cycle are noted with the time, and no other |
| Judge.CounterJudge.MissingWithTimestamps | components/test-orchestrator/backend/app/judge.py:38-39 | The numbers from 1 up that are below a received one and not received, ascending, each with its noted time or the empty fallback |
| Judge.JudgeAgreesWithHistory | components/test-orchestrator/backend/app/judge.py:18-30 | After any history of positive counters the judge holds the current cycle's records, has counted the restarts, and its incremental index equals a recomputation |
| Judge.ReportIsExact | components/test-orchestrator/backend/app/judge.py:32-39 | Index keys not received = missing numbers, each with the time of the first record of the cycle that passed it; the empty fallback is never used |
| Judge.CountsAddUp | components/test-orchestrator/backend/app/judge.py:32-48 | Received + missing = highest; completion is in (0, 100], and 100 exactly if nothing is missing |
| Judge.CompletionIsPercentage | components/test-orchestrator/backend/app/judge.py:41-45 | Multiplied by the highest counter, the percentage gives a hundred times the number received |
| CounterStream.CounterProducer.Loop | components/test-orchestrator/backend/app/counter_producer.py:75-106 | The successful sends, and no others, are counted and appended, and the one after k successful ones carries the k-th counter of the wrapping stream from the start of the session |
| CounterStream.CounterProducer.Turn | components/test-orchestrator/backend/app/counter_producer.py:86-100 | A successful send is recorded and the counter moves on; a failed one leaves everything as it was and the same counter comes again |
| CounterStream.SegmentAt | components/test-orchestrator/backend/app/counter_producer.py:75-91 | The k-th of them from a reset counter is (k - 1) mod M + 1 |
| CounterStream.CycleIsExact | components/test-orchestrator/backend/app/judge.py:18-23 | `cycle` is the number of completed wraps if and only if the first round was seen and every later 1 was delivered |
| CounterStream.MissingIsExact | components/test-orchestrator/backend/app/judge.py:18-36 | The missing list is exactly the dropped counters of the current round below its highest delivered one, if and only if the round's 1 came (or nothing before the round did), or no 1 ever came and the leftovers of earlier rounds add no number below and leave no gap above |
| CounterStream.KeepingEveryOneIsEnough | components/test-orchestrator/backend/app/judge.py:18-36 | Both hold for any duplicate-free delivery that keeps every 1 |
| ProducerService.Service.ProduceLoop | components/producer/backend/app/producer_service.py:224-269 | Whatever ends each send and wherever resets fall, the growth of the sequence counter is sent + errors + cancelled, each as many as the turns that ended so (without resets), the loop stops at the first cancellation, and the ring is exactly the last 50 hand-offs, the newest last, with strictly increasing numbers |
| ProducerService.Service.Settle | components/producer/backend/app/producer_service.py:240-259 | The message in flight becomes exactly one of sent, error or cancelled, and the last of the ring exactly if sent |
| ProducerService.Service.ResetStats | components/producer/backend/app/producer_service.py:126-133 | The accounting starts anew at any await, a message in flight counts after the reset, the sequence counter goes on |
| ProducerService.Service.UpdateRateMetric | components/producer/backend/app/producer_service.py:204-218 | Each tick takes in the growth since the last one and brings the estimate to 0.7 of its distance from that growth |
| ProducerService.ErrorDecays | components/producer/backend/app/producer_service.py:204-220 | Under a constant load the estimate's error after n ticks is 0.7^n times the initial one |

## Left out

- ReconcilerSoundness.ReportedUnderLag: a watermark read from a row that a consumer crash then rolls back is outside it, because the claim is false there (ReconcilerSoundness.RolledBackWatermark); `served` drops such watermarks at the crash.
- ProducerCapacity.NeverOverfull: assumes that adds do not overlap, which the single produce loop ensures, except for a statement of a cancelled add that is still running.
- FlushOrder.FlushIsFifo: a send appends at most one copy; repeated appends by the Kafka client's own retries are covered by the pipeline model, not by the flush functions.
- MessageStore.Store.Save: a record whose id is null, which gets a new row at every delivery, and fields of other types than documented are outside it (see Assumptions).
- AuditStore.NewestAreLatest: among audits with the same timestamp the query may choose freely; the model chooses by position.
- KafkaProducer.ResilientKafkaProducer.SendSingle: an SQLite error in mark_sent, which reaches the caller, is in the transition system (a failing `Mark`) and not in the class.
- FlushRepeats.OnceEachIffNoRepeats: its condition is for environments without non-retriable errors; with them, FlushSkips.FifoIffNoSkips and FlushOrder.FlushIsFifo say what holds.
- ConsumeLoop.KafkaConsumerService.ConsumePass: partitions are handled in ascending order, one possible order of the source's dictionary; ConsumerSystem allows any.
- The endless outer loops (reconnect, flush, cleanup, statistics, run and reconcile loops) are modelled by one turn each; the transition systems take any number of turns in any order.
- Liveness: a malformed record is retried forever, and a first batch of refused messages blocks a flush.
- Sequence uniqueness across producer restarts, because the counter is in memory only.
- Log retention, consumer-group rebalancing and topic purge: the log is append-only and there is one consumer.
- Latency, rate windows, chart history, Prometheus metrics, timestamps inside messages: clocks and gauges.
- Pagination and the flexible message queries of the consumer, and the audit history: plain filters.
- HTTP, authentication, token refresh, WebSockets, TLS, settings and all front ends; the alert webhook is reduced to whether an alert fires.
- The controller (Kubernetes, virsh, chaos engine, event store): calls into foreign systems.
