# SQS consumer and producer: a verified model

This project models the SQS library of the repository (`modules/sqs`) in Dafny and proves what it promises.
`dafny verify dfyconfig.toml` checks everything.

| file | what it models |
|---|---|
| `MessageSize.dfy` | the byte accounting of a message, with UTF-8 lengths of UTF-16 strings |
| `Batcher.dfy` | the greedy packer under two limits |
| `Producer.dfy` | validation, packing and sending in order, against a server that may answer anything |
| `Processors.dfy` | the handler/timeout race, the sequential and the concurrent processor |
| `Acknowledge.dfy` | deletion and the loop over failed deletions, on aliased arrays |
| `Consumer.dfy`, `ConsumerRuns.dfy` | the polling lifecycle as a class and a step system; what holds in every run |
| `Delivery.dfy`, `DeliveryRuns.dfy` | the lifecycle with queue, visibility deadlines, clock, handlers, heartbeats |
| `HandlerHistory.dfy` | the handlers inside a run: `process` there returns what the processors return, and each message has the outcome of its own race |
| `Progress.dfy` | no poll is ever stuck, and every step brings its end nearer |
| `Heartbeat.dfy`, `HeartbeatLimit.dfy` | when a heartbeat keeps a batch invisible, exactly |
| `NoLoss.dfy` | what is deleted, what `stop()` leaves behind, how many handlers run |
| `Sequences.dfy` | sums, concatenation, options |

## How the consumer is modelled

A label of `Consumer.Label` is one synchronous stretch of code between two awaits. `Consumer.Next` is its effect
on the fields of the consumer, the armed timers, the polls in flight and the pending `stop()` calls;
`Consumer.SqsConsumer` has one method for each label, proved equal to `Next`. The one rule of the event loop that the
proofs need is built into `Enabled`: the continuation of a `stop()` whose poll has finished runs before any timer
fires. A run is any sequence of enabled labels. A run is *disciplined* when no `start()` takes effect while a
`stop()` is pending or a leftover timer is armed; overlapping `stop()` calls, and a `start()` of a consumer that is
still running, are free. Lemmas that need the discipline say so, and `DisciplineIsExact` shows that it cannot be
weakened: a run without it has a second chain of polls, or a `stop()` about to complete over a poll in flight.

`Delivery.World` adds the queue. A slot says until when a message is invisible and which poll received it last;
the receipt handle of a delivery is the name of that poll. Responses and extensions take at most `latency`, ticks
are at most `lateness` late, handlers take as long as they like. A request to delete, or for visibility 0, may take
effect at any time after it was sent, even when the consumer has seen it fail, or never. Extensions count from the
moment they take effect, and only for messages that are still invisible and still carry the same receipt. `RunProjects` shows that
every run of a world is a run of the lifecycle, so the lifecycle theorems hold there as well.

## Facts about the code that the proofs bring out

- The guard `if (index)` in the loop over failed deletions overlooks the first requested message: it stays in
  `success`. For every reply, well-formed or not, the loop does what its comment says exactly when the reply names
  requested ids, each once, and not the first one (`GuardIsHarmlessExactly`; `HeadFailureIsLost` is an input). An id
  that was never requested moves the last message instead (`UnknownIdMovesTheLast`).
- When a reply names more ids than there are messages left to move, a failure is reported whose message is
  `undefined` (`UndefinedIsReported` is an input), and with `terminateVisibilityTimeout` the request for visibility 0
  throws. The exact condition on the reply is `AcknowledgedIsNamed`: before its last id, the ids other than the
  first requested one are at least as many as the requested messages. `VisibilityRequestExactly` says the same of
  every run.
- `packMessagesIntoBatches` can produce one empty batch, in front, and `sendBatch` then opens with a command
  without entries. The exact condition is `EmptyBatchExactly` and `SendsAnEmptyCommandExactly`.
- The comment of the batcher promises batches below the byte limit and within the length limit. The first holds
  exactly when no accepted message is as large as the limit (`BelowByteLimitExactly`; `FullMessageReachesByteLimit` is
  an input for every limit), the second exactly when the length limit is not 0 or nothing is accepted
  (`WithinLengthLimitExactly`; `ZeroLengthIsExceeded`). Batches of two or more entries always stay below.
- The last `stop()` leaves a timer armed exactly when it found a poll in flight (`LeftoverTimerExactly`). A `start()`
  before that timer fires gives two polls in flight (`TwoPollsAfterEarlyRestart`). A `start()` of a stopped consumer
  while a `stop()` is pending lets that `stop()` complete over the new poll (`StopDrainsAfterStartExactly`).
- `assertOptions` demands interval < visibility timeout. That suffices over an instant network
  (`AcceptedOptionsHideBatches`); in general, and when up to k extensions of a batch in a row may be lost, the
  condition is (k + 1) * (interval + lateness) + 2 * latency < visibility timeout, no more and no less
  (`HeartbeatIsSafeExactly`). Lost extensions harm at most their own batch.
- The error text for an invalid consumer batch size names the range 0 to 10; the code, and the model, reject 0.

## Model

| member | source | states |
|---|---|---|
| MessageSize.ByteSizeIsEncodedLength | modules/sqs/src/util/message-size.util.ts:30-32 | the size of a string is the number of octets of its UTF-8 encoding (section 3 of RFC 3629), lone surrogates read as U+FFFD |
| MessageSize.ByteSizeBounds | modules/sqs/src/util/message-size.util.ts:30-31 | n code units take between n and 3n bytes, for every UTF-16 string |
| MessageSize.ByteSizeOfOne | modules/sqs/src/util/message-size.util.ts:30-32 | one, two, three octets for a single code unit, four for a surrogate pair; with `ByteSizeOfConcat` this fixes the size of every string |
| MessageSize.ByteSizeOfConcat | modules/sqs/src/util/message-size.util.ts:31-32 | cutting a string keeps its size, except that a cut inside a surrogate pair costs exactly two bytes |
| MessageSize.ByteSizeIsSubadditive | modules/sqs/src/util/message-size.util.ts:31 | the size of a concatenation is at most the sum of the sizes, with equality exactly when no pair is cut |
| MessageSize.SizeOfMessage | modules/sqs/src/util/message-size.util.ts:3-28 | the loop computes body plus name, type and value of every attribute; an empty string value falls through to the binary value |
| MessageSize.SizeInOctets | modules/sqs/src/util/message-size.util.ts:4-25 | in octets: the encoded body, and for each attribute its encoded name, type, and non-empty string value or else the length of its binary value; nothing else |
| MessageSize.SizeIgnoresAttributeOrder | modules/sqs/src/util/message-size.util.ts:11-26 | the size is the same for every order in which the attributes are visited |
| Batcher.SqsMessageBatcher.PackMessagesIntoBatches | modules/sqs/src/producer/sqs-message.batcher.ts:21-63 | the loop returns `Pack`, about which the following rows speak |
| Batcher.PackKeepsContentsAndOrder | modules/sqs/src/producer/sqs-message.batcher.ts:29-52 | the batches hold exactly the entries within the size limit, in input order; the failed entries are the others, in order |
| Batcher.AcceptedAndOversizedPartition | modules/sqs/src/util/batch-entry.util.ts:8-26 | both maps keep ids: sent and failed ids together are the input ids, each as often |
| Batcher.AcceptedOneByOne | modules/sqs/src/producer/sqs-message.batcher.ts:32-51 | entries are accepted with their id and every property, or refused as they are, one by one and in order |
| Batcher.BatchesRespectLimits | modules/sqs/src/producer/sqs-message.batcher.ts:35-57 | every batch is within the byte limit, strictly for two or more entries, and within a length limit of at least 1 |
| Batcher.BelowByteLimitExactly | modules/sqs/src/producer/sqs-message.batcher.ts:17-20 | all batches are below the byte limit, as the comment promises, exactly when no accepted message is as large as it |
| Batcher.FullMessageReachesByteLimit | modules/sqs/src/producer/sqs-message.batcher.ts:35-46 | for every limit a single message as large as the limit makes a batch at the limit |
| Batcher.WithinLengthLimitExactly | modules/sqs/src/producer/sqs-message.batcher.ts:17-20 | all batches keep the length limit exactly when it is not 0 or nothing is accepted |
| Batcher.ZeroLengthIsExceeded | modules/sqs/src/producer/sqs-message.batcher.ts:39-51 | with the length limit 0 every accepted message makes a batch over it |
| Batcher.ZeroLengthIsUnbounded | modules/sqs/src/producer/sqs-message.batcher.ts:38-46 | with the length limit 0 the batches are those of a limit never reached, behind one empty batch unless the first accepted message fills the byte limit |
| Batcher.EmptyBatchExactly | modules/sqs/src/producer/sqs-message.batcher.ts:38-46 | only the first batch can be empty, exactly when something is accepted and the length limit is 0 or the first accepted entry fills the byte limit |
| Batcher.GreedyIsOptimal | modules/sqs/src/producer/sqs-message.batcher.ts:29-57 | no order-preserving split into batches that fit has fewer segments than the packer has non-empty batches |
| Batcher.PackIsASplit | modules/sqs/src/producer/sqs-message.batcher.ts:17-20 | the packer's batches are such a split themselves, so the minimum is attained |
| Batcher.AtMostThreeTimesAnyPacking | modules/sqs/src/producer/sqs-message.batcher.ts:29-31 | at most three times the groups of any packing of the same entries, in any order |
| Batcher.PackIsStable | modules/sqs/src/producer/sqs-message.batcher.ts:24-57 | more input keeps all but the last batch, and the last as a prefix of the batch in its place |
| Batcher.RepackingIsIdempotent | modules/sqs/src/producer/sqs-message.batcher.ts:32-62 | repacking what was packed gives the same batches and no failures |
| Producer.BatchIsValidExactly | modules/sqs/src/producer/sqs-message-request.validator.ts:12-33 | a batch passes exactly when every entry passes; otherwise the error of the first bad entry is thrown |
| Producer.MessageIsValidExactly | modules/sqs/src/producer/sqs-message-request.validator.ts:12-27 | valid exactly with a body, a group on a FIFO queue and a delay of 0 to 900; otherwise the error of the first broken rule; a standard queue ignores the group |
| Producer.SqsProducer.Create | modules/sqs/src/producer/sqs-producer.ts:37-48 | accepts exactly the batch sizes 0 to 10 and builds the batcher with the limits given |
| Producer.SqsProducer.Send | modules/sqs/src/producer/sqs-producer.ts:56-69 | sends one command exactly when the message is valid and within the limit; otherwise throws the right error and sends nothing |
| Producer.SqsProducer.SendMessageBatch | modules/sqs/src/producer/sqs-producer.ts:85-113 | result and commands sent are those of `SendBatchOutcome`, about which the following rows speak |
| Producer.SendBatchSendsAPrefix | modules/sqs/src/producer/sqs-producer.ts:88-105 | when call k is the first to throw, exactly the batches up to k were sent and its error comes out; nothing is sent exactly when there is no batch or some entry is invalid |
| Producer.SendBatchSucceedsExactly | modules/sqs/src/producer/sqs-producer.ts:96-112 | succeeds exactly when every entry is valid and no reply throws, whatever the replies list; then every packed batch was sent, in order |
| Producer.SendBatchReportsReplies | modules/sqs/src/producer/sqs-producer.ts:92-112 | when every call is answered, success is the concatenation of the `Successful` lists in order, and failed the size errors of the oversized entries followed by the `Failed` lists |
| Producer.CommandsAndErrorsInOrder | modules/sqs/src/producer/sqs-producer.ts:93-100 | one command for each batch with its entries, and one sender-fault error for each oversized entry with its id, in order |
| Producer.SendBatchConserves | modules/sqs/src/producer/sqs-producer.ts:92-112 | when every reply accounts for its batch, every input id is reported exactly once and the commands are the packed batches in order |
| Producer.SendsAnEmptyCommandExactly | modules/sqs/src/producer/sqs-producer.ts:90-102 | the exact condition under which the first command has no entries |
| Processors.ExecuteHandler | modules/sqs/src/consumer/processor/sqs-message-processor.interface.ts:36-61 | for every order of settlement and expiry the state of the call is that of `HandlerRun` |
| Processors.FirstDecisiveEventWins | modules/sqs/src/consumer/processor/sqs-message-processor.interface.ts:41-60 | the first settlement or expiry alone fixes the outcome, an `SqsMessageError` with the own message and cause when rejected, and whether the timer has expired or was cleared; a timed-out handler keeps running |
| Processors.SettlesOnce | modules/sqs/src/consumer/processor/sqs-message-processor.interface.ts:45-59 | after the race is settled neither the outcome changes nor the timer comes back, whatever happens |
| Processors.GatheringAgreesExactly | modules/sqs/src/consumer/processor/concurrent-message.processor.ts:26-35 | the gathering loops of the two processors agree exactly when only `SqsMessageError`s were thrown |
| Processors.GatheringInOrder | modules/sqs/src/consumer/processor/concurrent-message.processor.ts:26-35 | both loops list fulfilled messages as successes and reasons as failures, in the order of the outcomes |
| Processors.ProcessSequentially | modules/sqs/src/consumer/processor/sequential-message.processor.ts:12-31 | the loop with `await`, `try` and `catch` returns `SequentialResult`, or is pending |
| Processors.ResultInMessageOrder | modules/sqs/src/consumer/processor/sequential-message.processor.ts:19-30 | the result is there exactly when every call has settled, gathered from the outcomes in message order |
| Processors.ProcessConcurrently | modules/sqs/src/consumer/processor/concurrent-message.processor.ts:14-38 | starting all, settling in the order of the schedule and gathering by index returns `ConcurrentResult`, or is pending |
| Processors.InterleavingProjects | modules/sqs/src/consumer/processor/concurrent-message.processor.ts:18-21 | in every interleaving each call goes through exactly its own events |
| Processors.ProjectsInOrder | modules/sqs/src/consumer/processor/concurrent-message.processor.ts:18-21 | the events a call sees are those with its index, in order |
| Processors.ConcurrentRefinesSequential | modules/sqs/src/consumer/processor/concurrent-message.processor.ts:18-37 | for every interleaving the concurrent result equals the sequential one, lists and order, and one is pending exactly when the other is |
| Processors.OnlyOwnMessageErrors | modules/sqs/src/consumer/processor/sqs-message-processor.interface.ts:54-55 | a call fulfils with its message or rejects with an `SqsMessageError` that carries it |
| Processors.ProcessingConserves | modules/sqs/src/consumer/processor/sequential-message.processor.ts:16-30 | success and failed together list every message exactly once |
| Acknowledge.AcknowledgeProcessed | modules/sqs/src/consumer/sqs-consumer.ts:263-301 | on aliased arrays the tail of `processMessages` computes `Acknowledged`; the splice shows in the processor's array, the error branch leaves it |
| Acknowledge.AcknowledgedExactly | modules/sqs/src/consumer/sqs-consumer.ts:263-301 | the reported lists: unchanged when nothing failed to be deleted, the exact lists for a conforming reply, and after an error no success and one failure for each message in order |
| Acknowledge.AcknowledgingConserves | modules/sqs/src/consumer/sqs-consumer.ts:274-300 | for every reply, well-formed or not, every processed message is reported exactly as often as before; after an error nothing succeeded |
| Acknowledge.ReceivedIsReportedOnce | modules/sqs/src/consumer/sqs-consumer.ts:237-309 | with either processor, every interleaving and every reply, the event reports every received message exactly once |
| Acknowledge.DeleteFailuresExactly | modules/sqs/src/consumer/sqs-consumer.ts:277-291 | for a reply naming requested ids once each, in any order: success loses exactly the handled ids and failed gains exactly their messages, for the guard as written and as intended |
| Acknowledge.DeleteFailuresInOrder | modules/sqs/src/consumer/sqs-consumer.ts:286-289 | one failure for each failed id, in order, with that id and the message that has it |
| Acknowledge.WithoutInOrder | modules/sqs/src/consumer/sqs-consumer.ts:279-287 | what is left is, in order, exactly the messages whose id is not listed |
| Acknowledge.HeadIsNeverMoved | modules/sqs/src/consumer/sqs-consumer.ts:280-290 | as written, success is the original head followed by the tail without the failed ids |
| Acknowledge.GuardIsHarmlessExactly | modules/sqs/src/consumer/sqs-consumer.ts:278-289 | for every reply the code meets its comment exactly when the failed ids are requested ids, each once, and the first requested one is not among them |
| Acknowledge.HeadFailureIsLost | modules/sqs/src/consumer/sqs-consumer.ts:278-285 | an input for which the failure is lost |
| Acknowledge.UnknownIdMovesTheLast | modules/sqs/src/consumer/sqs-consumer.ts:281-288 | an unrequested id moves the last message as written, and nothing as intended |
| Acknowledge.FailAllDrains | modules/sqs/src/consumer/sqs-consumer.ts:278-289 | for every list of ids, known or not, repeated or not: each id other than the first requested one takes exactly one message out and leaves the head first; all failures name a message exactly when one was left for each |
| Acknowledge.AcknowledgedIsNamed | modules/sqs/src/consumer/sqs-consumer.ts:277-317 | for every reply, no reported failure names `undefined` exactly when none did before and the reply does not ask for more messages than there are |
| Acknowledge.UndefinedIsReported | modules/sqs/src/consumer/sqs-consumer.ts:278-288 | an input with a failure that names `undefined` |
| Consumer.SqsConsumer.StartPolling | modules/sqs/src/consumer/sqs-consumer.ts:100-107 | `start()` is the label `Start` |
| Consumer.SqsConsumer.StopPolling | modules/sqs/src/consumer/sqs-consumer.ts:109-131 | `stop()` up to its `await`, or to its end without one |
| Consumer.SqsConsumer.ResumeStop | modules/sqs/src/consumer/sqs-consumer.ts:121-130 | `stop()` after its `await` |
| Consumer.SqsConsumer.Poll | modules/sqs/src/consumer/sqs-consumer.ts:133-152 | the synchronous part of `poll()` |
| Consumer.SqsConsumer.EndReceive | modules/sqs/src/consumer/sqs-consumer.ts:194-227 | both branches of `receiveMessage` after its `await` |
| Consumer.SqsConsumer.ContinuePoll | modules/sqs/src/consumer/sqs-consumer.ts:154-161 | into `processMessages`, or to the longer delay for an empty response |
| Consumer.SqsConsumer.EndProcess | modules/sqs/src/consumer/sqs-consumer.ts:263-275 | the delete request, or the report when nothing succeeded |
| Consumer.SqsConsumer.EndDelete | modules/sqs/src/consumer/sqs-consumer.ts:277-318 | the reply acknowledged on mutable arrays, then the report |
| Consumer.SqsConsumer.EndVisibility | modules/sqs/src/consumer/sqs-consumer.ts:353-362 | an error of the visibility request is emitted and swallowed |
| Consumer.SqsConsumer.EndPoll | modules/sqs/src/consumer/sqs-consumer.ts:172-183 | the `finally` of `poll()` arms the next timer |
| Consumer.SqsConsumer.FireTimer | modules/sqs/src/consumer/sqs-consumer.ts:180-182 | the timer replaces `currentPoll` by a new poll |
| Consumer.SqsConsumer.FailExtension | modules/sqs/src/consumer/sqs-consumer.ts:355-362 | a failed extension emits `ERROR` and changes nothing else |
| Consumer.OptionsAcceptedExactly | modules/sqs/src/consumer/sqs-consumer.ts:374-398 | which options are accepted, and the error for all others |
| ConsumerRuns.ChainsNeverExceedStarts | modules/sqs/src/consumer/sqs-consumer.ts:100-192 | in every run polls in flight plus armed timers never exceed the `start()` calls that found the consumer stopped |
| ConsumerRuns.VisibilityRequestExactly | modules/sqs/src/consumer/sqs-consumer.ts:303-318 | in every run the acknowledged lists are reported, and with `terminateVisibilityTimeout` the request for visibility 0 names exactly the reported failures; it throws exactly when the reply asks for more messages than there are, and the poll then waits a second |
| ConsumerRuns.ProcessEndExactly | modules/sqs/src/consumer/sqs-consumer.ts:267-318 | a delete request for exactly the successes, or without any the report and, with `terminateVisibilityTimeout`, a request for visibility 0 for exactly the failures |
| ConsumerRuns.EmitsExactly | modules/sqs/src/consumer/sqs-consumer.ts:126-309 | the events of every step |
| ConsumerRuns.StoppedAndErrorsExactly | modules/sqs/src/consumer/sqs-consumer.ts:126-362 | in every run one STOPPED for each completed `stop()` and one ERROR for each failed visibility request, and no others |
| ConsumerRuns.OneChainUnderDiscipline | modules/sqs/src/consumer/sqs-consumer.ts:100-183 | in every disciplined run they total at most 1, and exactly 1 while running with no `stop()` pending: no error ends the polling |
| ConsumerRuns.StopDrains | modules/sqs/src/consumer/sqs-consumer.ts:118-125 | when a `stop()` completes in a disciplined run, however many overlap, no poll is in flight |
| ConsumerRuns.QuietUntilStart | modules/sqs/src/consumer/sqs-consumer.ts:134-136 | from then on, until a `start()`, no receive request is issued though a leftover timer may fire, and timers only disappear |
| ConsumerRuns.LeftoverTimerExactly | modules/sqs/src/consumer/sqs-consumer.ts:113-125 | the last of any number of `stop()` calls leaves a timer armed exactly when it found a poll in flight |
| ConsumerRuns.StartIsSafeExactly | modules/sqs/src/consumer/sqs-consumer.ts:101-104 | in every state a disciplined run reaches, `start()` keeps a single chain exactly when it has no effect or no timer is armed |
| ConsumerRuns.StopDrainsAfterStartExactly | modules/sqs/src/consumer/sqs-consumer.ts:101-125 | a pending `stop()` that completes after a `start()` finds no poll in flight exactly when the `start()` had no effect |
| ConsumerRuns.DisciplineIsExact | modules/sqs/src/consumer/sqs-consumer.ts:100-131 | a run keeps one chain and never has a `stop()` about to complete over a poll in flight exactly when no `start()` takes effect while a `stop()` is pending or a timer is left over |
| ConsumerRuns.TwoPollsAfterEarlyRestart | modules/sqs/src/consumer/sqs-consumer.ts:101-182 | a run of `stop()` and early `start()` with two polls in flight |
| ConsumerRuns.OverlappingStartBreaksDrain | modules/sqs/src/consumer/sqs-consumer.ts:119-126 | a run in which an overlapped `stop()` completes while a poll is in flight |
| ConsumerRuns.TraceFollowsGrammar | modules/sqs/src/consumer/sqs-consumer.ts:151-309 | in every disciplined run the events are a prefix of (RECEIVE_START RECEIVE_END [PROCESSING_START PROCESSING_END])*, whole when no poll is in flight, and every PROCESSING_END reports each message of its RECEIVE_END exactly once |
| ConsumerRuns.TimerWaitsAsDue | modules/sqs/src/consumer/sqs-consumer.ts:149-174 | in every disciplined run the armed timer waits as the last round demands: a second after an empty or failed receive or a reply that broke the request for visibility 0, else `pollingWaitTimeMs` |
| Delivery.AcceptedHeartbeatsAreTimely | modules/sqs/src/consumer/sqs-consumer.ts:374-398 | over an instant network accepted options are timely exactly when they switch the heartbeat on; and of those that switch it on, with an interval that fits a timer, exactly the timely ones with a valid batch size are accepted |
| Delivery.HeartbeatIntervalExactly | modules/sqs/src/consumer/sqs-consumer.ts:241-372 | no heartbeat when an option is missing or 0, otherwise the interval in milliseconds |
| Delivery.RunProjects | modules/sqs/src/consumer/sqs-consumer.ts:133-183 | every run with queue, clock and handlers is a run of the lifecycle |
| DeliveryRuns.ResultIsSound | modules/sqs/src/consumer/sqs-consumer.ts:253-256 | when all calls are settled, `process` returns a result that lists every message once, whichever processor is used |
| DeliveryRuns.RunStructured | modules/sqs/src/consumer/sqs-consumer.ts:229-319 | in every run batches, receipts, handler calls and phases of the polls agree |
| HandlerHistory.ProcessorsAgreeWithRun | modules/sqs/src/consumer/processor/sqs-message-processor.interface.ts:36-61 | in every run, given what has happened to the handlers of a poll, the sequential and the concurrent result both equal the state of its batch: pending while a call is, then its result |
| HandlerHistory.ProcessReturnsExactly | modules/sqs/src/consumer/sqs-consumer.ts:253-256 | in every run `process` can return r exactly when the processor has returned r after the same events |
| HandlerHistory.OutcomesExactly | modules/sqs/src/consumer/processor/sqs-message-processor.interface.ts:36-61 | the outcomes remembered in a run are those of the races in it, of each message in the events of its own call |
| Progress.EveryStepIsProgress | modules/sqs/src/consumer/sqs-consumer.ts:149-183 | in every run each step of a poll strictly lessens the work it has left, and only the answer to its receive request can add to it |
| Progress.PollIsNeverStuck | modules/sqs/src/consumer/sqs-consumer.ts:149-183 | a poll in flight always has an enabled step, for every response, handler event, delete reply and visibility outcome |
| Progress.EveryPollCanEnd | modules/sqs/src/consumer/sqs-consumer.ts:229-319 | every run can go on by moves of one poll until it has ended, and a batch under way has then been reported, each message once: PROCESSING_START is followed by PROCESSING_END |
| Progress.EveryStopCanComplete | modules/sqs/src/consumer/sqs-consumer.ts:118-130 | in every run every pending `stop()` can complete by moves of the poll it awaits alone; in a disciplined run nothing is then in flight |
| Heartbeat.HeartbeatHidesBatches | modules/sqs/src/consumer/sqs-consumer.ts:240-261 | when (k + 1) * (interval + lateness) + 2 * latency < visibility timeout, no message of a batch is visible from its receipt until `process` returns, in every run that loses no more than k extensions of this batch in a row; other batches may lose any |
| Heartbeat.NothingIsDeliveredTwice | modules/sqs/src/consumer/sqs-consumer-options.interface.ts:45-53 | meanwhile no other consumer and no other poll can receive a message of that batch |
| Heartbeat.TickExtendsBatch | modules/sqs/src/consumer/sqs-consumer.ts:245-372 | a tick sends one request for the whole batch, and the next tick is an interval away |
| Heartbeat.ExtensionPutsOff | modules/sqs/src/consumer/sqs-consumer.ts:335-354 | a request that takes effect hides the named messages for a full visibility timeout, and touches nothing else |
| HeartbeatLimit.UntimelyHeartbeatFails | modules/sqs/src/consumer/sqs-consumer.ts:365-372 | without that slack some run that loses no more than k extensions of the batch in a row shows a message of it |
| HeartbeatLimit.HeartbeatIsSafeExactly | modules/sqs/src/consumer/sqs-consumer.ts:240-372 | for every k, a heartbeat hides every batch in every run that loses no more than k of its extensions in a row exactly when (k + 1) * (interval + lateness) + 2 * latency < visibility timeout |
| HeartbeatLimit.AcceptedOptionsHideBatches | modules/sqs/src/consumer/sqs-consumer.ts:386-397 | over an instant network accepted options that switch the heartbeat on hide every batch in every run that loses none of its extensions |
| NoLoss.OnlySuccessIsDeleted | modules/sqs/src/consumer/sqs-consumer.ts:267-275 | in every run a message is deleted only when, among the handler and timer events of that delivery, the first that decides is the fulfilment |
| NoLoss.UnacknowledgedIsKept | modules/sqs/src/consumer/sqs-consumer.ts:321-333 | an enqueued message none of whose deliveries was fulfilled first is still in the queue |
| NoLoss.FailuresAreNeverDeleted | modules/sqs/src/consumer/sqs-consumer.ts:253-333 | a delivery that failed or timed out is not deleted, then or later |
| NoLoss.HistoryExactly | modules/sqs/src/consumer/sqs-consumer.ts:321-333 | what a world remembers as enqueued and deleted is what its run has enqueued and deleted |
| NoLoss.DeletesExactly | modules/sqs/src/consumer/sqs-consumer.ts:267-275 | in every run delete requests name exactly the messages that `process` has returned as successes |
| NoLoss.ReleasesExactly | modules/sqs/src/consumer/sqs-consumer.ts:303-318 | in every run requests for visibility 0 name exactly the messages that a PROCESSING_END has reported as failures, with the option on and no `undefined` in the event |
| NoLoss.ReleasedIsVisible | modules/sqs/src/consumer/sqs-consumer.ts:311-317 | such a request shows its message at once and touches no other |
| NoLoss.StopReleasesEverything | modules/sqs/src/consumer/sqs-consumer.ts:109-131 | when a `stop()` completes in a disciplined run no handler is awaited, no heartbeat ticks and no receive request waits for the server |
| NoLoss.QuietWorldStaysEmpty | modules/sqs/src/consumer/sqs-consumer.ts:134-183 | this stays so, with no new request of any kind, until a `start()`; an extension still under way can only arrive or be lost |
| NoLoss.OneHandlerAtATime | modules/sqs/src/consumer/processor/sequential-message.processor.ts:19-24 | in sequential mode without timeout at most one handler of a poll is running in every run, and at most one of the whole consumer in every disciplined run |

## Left out

- NestJS modules, providers, decorators and discovery: framework wiring without a hard property.
- The cache of queue information in the client service, the queue attributes call, and the calls into the AWS SDK itself: the server is an arbitrary function of the commands, or an abstract queue.
- `apps/` and the other modules: shallow dispatch around the library.
- Error messages, logging and random ids: errors are tagged values, ids are inputs.
- Progress.EveryPollCanEnd: says, as `EveryStopCanComplete` does, that a poll can end, not that it will: a handler without a timeout may never settle, and a request may never be answered.
- Fractional and NaN options: times, sizes and limits are integers.
- Listeners that throw, and a `setTimeout` that throws (the `catch` of `schedulePollingTimer`): both are assumed not to happen.
- The due time of polling timers: a timer may fire at any time after it is armed; only its delay is recorded.
- Consumer.SqsConsumer.EndProcess: the heartbeat that `processMessages` starts and clears in between is modelled on values, by the moves of `Delivery`, not in the class.
- Processors.ExecuteHandler: the settling of the race and the continuation with its `finally` are one step, because no timer can fire between them; a handler that throws before its first `await` is a handler that rejects first.
- Delivery.RunProjects: a timed-out handler that outlives `process` is not followed further, since the consumer never looks at it again.
- Heartbeat.HeartbeatHidesBatches: counts losses in the order in which the extensions were sent; an extension is lost or takes effect within `latency`.
- Delivery.AcceptedHeartbeatsAreTimely: leaves out visibility timeouts below 0, which `assertOptions` does not look at and no queue accepts; its second part leaves out intervals too long for a timer, which Node.js replaces by 1 ms.
- NoLoss.UnacknowledgedIsKept: other consumers receive messages but do not delete them, and messages do not expire.
- ConsumerRuns.OneChainUnderDiscipline: supposes the calling discipline, which `DisciplineIsExact` shows to be necessary; without it `ChainsNeverExceedStarts` is what holds.
- Batcher.GreedyIsOptimal: supposes a length limit of at least 1; with 0, which the producer admits, no split fits; `ZeroLengthIsUnbounded` reduces that case to the others.
