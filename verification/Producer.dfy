/**
 * `modules/sqs/src/producer/sqs-producer.ts` and the validator in
 * `modules/sqs/src/producer/sqs-message-request.validator.ts`, against a server whose
 * replies may depend on every command sent before.
 */
module Producer {
  import opened Sequences
  import opened MessageSize
  import opened Batcher

  const MAX_SEND_MESSAGE_BATCH_SIZE := 10
  const AWS_MESSAGE_SIZE_LIMIT := 256 * 1024

  datatype ProducerError =
    | InvalidProducerOption(batchSize: int)
    | InvalidMessageBody
    | MissingGroupId
    | InvalidMessageDelay(delay: int)
    | MessageEntrySizeLimit
    | ServerFailure(code: nat)

  // ---------------------------------------------------------------- validation

  /** `validateMessage`: the error it throws, if any. */
  function ValidateMessage(entry: MessageEntry, forFifoQueue: bool): Option<ProducerError> {
    if entry.body == None || entry.body.value == [] then
      Some(InvalidMessageBody)
    else if forFifoQueue && (entry.groupId == None || entry.groupId.value == []) then
      Some(MissingGroupId)
    else if entry.delaySeconds.Some? && (entry.delaySeconds.value < 0 || entry.delaySeconds.value > 900) then
      Some(InvalidMessageDelay(entry.delaySeconds.value))
    else
      None
  }

  /** The rules, in the order in which they are checked. A standard queue does not look at the group. */
  lemma MessageIsValidExactly(entry: MessageEntry, forFifoQueue: bool, group: Option<JsString>)
    ensures var hasBody := entry.body.Some? && |entry.body.value| > 0;
            var hasGroup := entry.groupId.Some? && |entry.groupId.value| > 0;
            var inTime := entry.delaySeconds.Some? ==> 0 <= entry.delaySeconds.value <= 900;
            && (ValidateMessage(entry, forFifoQueue) == None <==> hasBody && (forFifoQueue ==> hasGroup) && inTime)
            && (!hasBody ==> ValidateMessage(entry, forFifoQueue) == Some(InvalidMessageBody))
            && (hasBody && forFifoQueue && !hasGroup ==> ValidateMessage(entry, forFifoQueue) == Some(MissingGroupId))
            && (hasBody && (forFifoQueue ==> hasGroup) && !inTime ==>
                  ValidateMessage(entry, forFifoQueue) == Some(InvalidMessageDelay(entry.delaySeconds.value)))
    ensures ValidateMessage(entry.(groupId := group), false) == ValidateMessage(entry, false)
  {
  }

  /** `validateBatch`: the error of the first entry that has one. */
  function ValidateBatch(entries: seq<BatchEntry>, forFifoQueue: bool): Option<ProducerError> {
    if entries == [] then None
    else
      var error := ValidateMessage(entries[0].message, forFifoQueue);
      if error.Some? then error else ValidateBatch(entries[1..], forFifoQueue)
  }

  /** A batch passes exactly when every entry passes; otherwise the error is that of the first bad entry. */
  lemma {:induction false} BatchIsValidExactly(entries: seq<BatchEntry>, forFifoQueue: bool)
    ensures ValidateBatch(entries, forFifoQueue) == None <==>
            forall i :: 0 <= i < |entries| ==> ValidateMessage(entries[i].message, forFifoQueue) == None
    ensures forall i ::
              0 <= i < |entries| && ValidateMessage(entries[i].message, forFifoQueue).Some?
              && (forall j :: 0 <= j < i ==> ValidateMessage(entries[j].message, forFifoQueue) == None) ==>
                ValidateBatch(entries, forFifoQueue) == ValidateMessage(entries[i].message, forFifoQueue)
  {
    if entries != [] {
      var rest := entries[1..];
      BatchIsValidExactly(rest, forFifoQueue);
      forall i | 0 <= i < |entries| && ValidateMessage(entries[i].message, forFifoQueue).Some?
                 && (forall j :: 0 <= j < i ==> ValidateMessage(entries[j].message, forFifoQueue) == None)
        ensures ValidateBatch(entries, forFifoQueue) == ValidateMessage(entries[i].message, forFifoQueue)
      {
        if i > 0 {
          assert rest[i - 1] == entries[i];
          assert forall j :: 0 <= j < i - 1 ==> rest[j] == entries[j + 1];
        }
      }
      if ValidateMessage(entries[0].message, forFifoQueue) == None {
        assert forall i :: 1 <= i < |entries| ==> entries[i] == rest[i - 1];
        assert forall i :: 0 <= i < |rest| ==> rest[i] == entries[i + 1];
      }
    }
  }

  // ---------------------------------------------------------------- the server

  /** `SendMessageBatchResultEntry` */
  datatype ResultEntry = ResultEntry(id: string)

  /** `SendMessageCommand` and `SendMessageBatchCommand`. */
  datatype Command = SendMessage(message: MessageEntry) | SendMessageBatch(entries: Batch)

  /** The answer to one command; the lists of a batch command may be missing. */
  datatype Reply =
    | Replied(messageId: Option<string>, successful: Option<seq<ResultEntry>>, failed: Option<seq<ErrorEntry>>)
    | Threw(code: nat)

  /** A server answers the last of the commands it has seen. */
  type Server = seq<Command> -> Reply

  class SqsClient {
    const server: Server
    var sent: seq<Command>

    constructor (server: Server)
      ensures this.server == server && sent == []
    {
      this.server := server;
      sent := [];
    }

    method Send(command: Command) returns (reply: Reply)
      modifies this`sent
      ensures sent == old(sent) + [command] && reply == server(sent)
    {
      sent := sent + [command];
      reply := server(sent);
    }
  }

  // ---------------------------------------------------------------- sending batches

  /** `SqsSendMessageBatchResult` */
  datatype SendResult = SendResult(success: seq<ResultEntry>, failed: seq<ErrorEntry>)

  datatype Sending = Sending(result: Result<SendResult, ProducerError>, sent: seq<Command>)

  function OrEmpty<T>(list: Option<seq<T>>): seq<T> {
    if list.Some? then list.value else []
  }

  function Accumulate(acc: SendResult, reply: Reply): SendResult
    requires reply.Replied?
  {
    SendResult(acc.success + OrEmpty(reply.successful), acc.failed + OrEmpty(reply.failed))
  }

  /** Sends the commands in order after those in `sent`, until one throws. */
  function SendAll(server: Server, sent: seq<Command>, commands: seq<Command>, acc: SendResult): Sending
    decreases |commands|
  {
    if commands == [] then
      Sending(Success(acc), sent)
    else
      var now := sent + [commands[0]];
      var reply := server(now);
      if reply.Threw? then Sending(Failure(ServerFailure(reply.code)), now)
      else SendAll(server, now, commands[1..], Accumulate(acc, reply))
  }

  function Commands(batches: seq<Batch>): seq<Command> {
    seq(|batches|, i requires 0 <= i < |batches| => SendMessageBatch(batches[i]))
  }

  function ErrorEntries(xs: seq<BatchEntry>): seq<ErrorEntry> {
    seq(|xs|, i requires 0 <= i < |xs| => MapMessageToBatchErrorEntry(xs[i]))
  }

  /** All that `sendBatch` does: its result and the commands the server has seen afterwards. */
  function SendBatchOutcome(
    server: Server, sent: seq<Command>, l: Limits, isFifo: bool, messages: seq<BatchEntry>): Sending
  {
    match ValidateBatch(messages, isFifo)
    case Some(error) => Sending(Failure(error), sent)
    case None =>
      var packed := Pack(l, messages);
      SendAll(server, sent, Commands(packed.batches), SendResult([], ErrorEntries(packed.failedEntries)))
  }

  class SqsProducer {
    const client: SqsClient
    const isFifo: bool
    const messageBatcher: SqsMessageBatcher
    const messageSizeLimit: nat

    constructor (isFifo: bool, client: SqsClient, batchSize: nat, messageSizeLimit: nat)
      ensures this.isFifo == isFifo && this.client == client && this.messageSizeLimit == messageSizeLimit
      ensures messageBatcher.maxBatchLength == batchSize && messageBatcher.maxBatchSize == messageSizeLimit
    {
      this.isFifo := isFifo;
      this.client := client;
      this.messageSizeLimit := messageSizeLimit;
      this.messageBatcher := new SqsMessageBatcher(batchSize, messageSizeLimit);
    }

    /** `new SqsProducer(...)`: the batch size 0 is let through. */
    static method Create(
      isFifo: bool, client: SqsClient, batchSize: int, messageSizeLimit: nat := AWS_MESSAGE_SIZE_LIMIT)
      returns (producer: Result<SqsProducer, ProducerError>)
      ensures producer.Success? <==> 0 <= batchSize <= 10
      ensures AWS_MESSAGE_SIZE_LIMIT == 262144
      ensures producer.Failure? ==> producer.error == InvalidProducerOption(batchSize)
      ensures producer.Success? ==>
                && fresh(producer.value)
                && producer.value.client == client && producer.value.isFifo == isFifo
                && producer.value.messageSizeLimit == messageSizeLimit
                && producer.value.PackingLimits() == Limits(batchSize, messageSizeLimit)
    {
      if batchSize < 0 || batchSize > MAX_SEND_MESSAGE_BATCH_SIZE {
        return Failure(InvalidProducerOption(batchSize));
      }
      var p := new SqsProducer(isFifo, client, batchSize, messageSizeLimit);
      return Success(p);
    }

    function PackingLimits(): Limits {
      Limits(messageBatcher.maxBatchLength, messageBatcher.maxBatchSize)
    }

    /** `send`: one command with one message, or an error and no command. */
    method Send(message: MessageEntry) returns (r: Result<Reply, ProducerError>)
      modifies client`sent
      ensures r.Success? <==> ValidateMessage(message, isFifo) == None && SizeOf(message) <= messageSizeLimit
      ensures r.Success? ==>
                client.sent == old(client.sent) + [Command.SendMessage(message)]
                && r.value == client.server(client.sent)
      ensures r.Failure? ==>
                client.sent == old(client.sent)
                && r.error == match ValidateMessage(message, isFifo)
                              case Some(error) => error
                              case None => MessageEntrySizeLimit
    {
      var error := ValidateMessage(message, isFifo);
      if error.Some? {
        return Failure(error.value);
      }
      var size := SizeOfMessage(message);
      if size > messageSizeLimit {
        return Failure(MessageEntrySizeLimit);
      }
      var reply := client.Send(Command.SendMessage(message));
      return Success(reply);
    }

    /** `sendBatch` */
    method SendMessageBatch(messages: seq<BatchEntry>) returns (r: Result<SendResult, ProducerError>)
      modifies client`sent
      ensures Sending(r, client.sent) ==
              SendBatchOutcome(client.server, old(client.sent), PackingLimits(), isFifo, messages)
    {
      var error := ValidateBatch(messages, isFifo);
      if error.Some? {
        return Failure(error.value);
      }
      var batchResult := messageBatcher.PackMessagesIntoBatches(messages);
      var successfulMessages: seq<ResultEntry> := [];
      var failedMessages := ErrorEntries(batchResult.failedEntries);
      ghost var commands := Commands(batchResult.batches);
      ghost var all := SendAll(client.server, client.sent, commands, SendResult([], failedMessages));
      for i := 0 to |batchResult.batches|
        invariant all == SendAll(client.server, client.sent, commands[i..],
                                 SendResult(successfulMessages, failedMessages))
      {
        assert commands[i..][1..] == commands[i + 1..];
        var result := client.Send(Command.SendMessageBatch(batchResult.batches[i]));
        if result.Threw? {
          return Failure(ServerFailure(result.code));
        }
        failedMessages := failedMessages + OrEmpty(result.failed);
        successfulMessages := successfulMessages + OrEmpty(result.successful);
      }
      return Success(SendResult(successfulMessages, failedMessages));
    }
  }

  // ---------------------------------------------------------------- delivery of a prefix

  /** The reply to the k-th of the commands, when they are sent in order. */
  function ReplyTo(server: Server, sent: seq<Command>, commands: seq<Command>, k: nat): Reply
    requires k < |commands|
  {
    server(sent + commands[..k + 1])
  }

  lemma ReplyToTail(server: Server, sent: seq<Command>, commands: seq<Command>, k: nat)
    requires 1 <= k < |commands|
    ensures ReplyTo(server, sent, commands, k) == ReplyTo(server, sent + [commands[0]], commands[1..], k - 1)
  {
    assert sent + commands[..k + 1] == sent + [commands[0]] + commands[1..][..k];
  }

  /** When call k is the first to throw, exactly the commands before it were completed and nothing after it was sent. */
  lemma {:induction false} SendsAPrefix(
    server: Server, sent: seq<Command>, commands: seq<Command>, acc: SendResult, k: nat)
    requires k < |commands|
    requires forall j :: 0 <= j < k ==> ReplyTo(server, sent, commands, j).Replied?
    requires ReplyTo(server, sent, commands, k).Threw?
    ensures SendAll(server, sent, commands, acc)
            == Sending(Failure(ServerFailure(ReplyTo(server, sent, commands, k).code)), sent + commands[..k + 1])
    decreases k
  {
    assert commands[..1] == [commands[0]];
    if k > 0 {
      assert ReplyTo(server, sent, commands, 0).Replied?;
      forall j | 1 <= j <= k
        ensures ReplyTo(server, sent, commands, j) == ReplyTo(server, sent + [commands[0]], commands[1..], j - 1)
      {
        ReplyToTail(server, sent, commands, j);
      }
      assert forall j :: 0 <= j < k - 1 ==>
        ReplyTo(server, sent + [commands[0]], commands[1..], j) == ReplyTo(server, sent, commands, j + 1);
      var reply := server(sent + [commands[0]]);
      SendsAPrefix(server, sent + [commands[0]], commands[1..], Accumulate(acc, reply), k - 1);
      assert sent + commands[..k + 1] == sent + [commands[0]] + commands[1..][..k];
    }
  }

  /** `sendBatch` stops at the first throwing call; an invalid entry stops it before any command. */
  lemma SendBatchSendsAPrefix(
    server: Server, sent: seq<Command>, l: Limits, isFifo: bool, messages: seq<BatchEntry>)
    ensures var commands := Commands(Pack(l, messages).batches);
            var outcome := SendBatchOutcome(server, sent, l, isFifo, messages);
            && (outcome.sent == sent <==>
                  || commands == []
                  || exists i :: 0 <= i < |messages| && ValidateMessage(messages[i].message, isFifo).Some?)
            && (forall k | 0 <= k < |commands| && ValidateBatch(messages, isFifo) == None
                           && (forall j :: 0 <= j < k ==> ReplyTo(server, sent, commands, j).Replied?)
                           && ReplyTo(server, sent, commands, k).Threw? ::
                  outcome == Sending(Failure(ServerFailure(ReplyTo(server, sent, commands, k).code)),
                                     sent + commands[..k + 1]))
  {
    var packed := Pack(l, messages);
    var commands := Commands(packed.batches);
    var acc := SendResult([], ErrorEntries(packed.failedEntries));
    BatchIsValidExactly(messages, isFifo);
    SendAllGrows(server, sent, commands, acc);
    forall k | 0 <= k < |commands| && (forall j :: 0 <= j < k ==> ReplyTo(server, sent, commands, j).Replied?)
               && ReplyTo(server, sent, commands, k).Threw?
      ensures SendAll(server, sent, commands, acc)
              == Sending(Failure(ServerFailure(ReplyTo(server, sent, commands, k).code)), sent + commands[..k + 1])
    {
      SendsAPrefix(server, sent, commands, acc, k);
    }
  }

  lemma {:induction false} SendAllGrows(server: Server, sent: seq<Command>, commands: seq<Command>, acc: SendResult)
    ensures sent <= SendAll(server, sent, commands, acc).sent
    ensures commands != [] ==> sent + [commands[0]] <= SendAll(server, sent, commands, acc).sent
    decreases |commands|
  {
    if commands != [] {
      var reply := server(sent + [commands[0]]);
      if reply.Replied? {
        SendAllGrows(server, sent + [commands[0]], commands[1..], Accumulate(acc, reply));
      }
    }
  }

  // ---------------------------------------------------------------- when sending succeeds

  ghost predicate AllReplied(server: Server, sent: seq<Command>, commands: seq<Command>) {
    forall k :: 0 <= k < |commands| ==> ReplyTo(server, sent, commands, k).Replied?
  }

  lemma AllRepliedTail(server: Server, sent: seq<Command>, commands: seq<Command>)
    requires commands != []
    ensures AllReplied(server, sent, commands) <==>
            server(sent + [commands[0]]).Replied? && AllReplied(server, sent + [commands[0]], commands[1..])
  {
    assert sent + commands[..1] == sent + [commands[0]];
    forall k | 0 <= k < |commands|
      ensures ReplyTo(server, sent, commands, k)
              == if k == 0 then server(sent + [commands[0]])
                 else ReplyTo(server, sent + [commands[0]], commands[1..], k - 1)
    {
      if k > 0 {
        ReplyToTail(server, sent, commands, k);
      }
    }
    if AllReplied(server, sent, commands) {
      assert ReplyTo(server, sent, commands, 0).Replied?;
      assert forall k :: 0 <= k < |commands| - 1 ==>
        ReplyTo(server, sent + [commands[0]], commands[1..], k) == ReplyTo(server, sent, commands, k + 1);
    }
  }

  lemma MoveHead(sent: seq<Command>, commands: seq<Command>)
    requires commands != []
    ensures sent + [commands[0]] + commands[1..] == sent + commands
  {
  }

  /** Sending succeeds exactly when no reply throws, whatever the replies list; then all commands were sent in order. */
  lemma {:induction false} SendAllSucceedsExactly(
    server: Server, sent: seq<Command>, commands: seq<Command>, acc: SendResult)
    ensures SendAll(server, sent, commands, acc).result.Success? <==> AllReplied(server, sent, commands)
    ensures AllReplied(server, sent, commands) ==> SendAll(server, sent, commands, acc).sent == sent + commands
    decreases |commands|
  {
    if commands == [] {
      assert sent + commands == sent;
    } else {
      AllRepliedTail(server, sent, commands);
      var now := sent + [commands[0]];
      if server(now).Replied? {
        SendAllSucceedsExactly(server, now, commands[1..], Accumulate(acc, server(now)));
        MoveHead(sent, commands);
      }
    }
  }

  /** `sendBatch` succeeds exactly when every entry is valid and no reply throws; then all batches were sent. */
  lemma SendBatchSucceedsExactly(server: Server, sent: seq<Command>, l: Limits, isFifo: bool, messages: seq<BatchEntry>)
    ensures var outcome := SendBatchOutcome(server, sent, l, isFifo, messages);
            var commands := Commands(Pack(l, messages).batches);
            && (outcome.result.Success? <==>
                  AllReplied(server, sent, commands)
                  && forall i :: 0 <= i < |messages| ==> ValidateMessage(messages[i].message, isFifo) == None)
            && (outcome.result.Success? ==> outcome.sent == sent + commands)
  {
    var packed := Pack(l, messages);
    BatchIsValidExactly(messages, isFifo);
    SendAllSucceedsExactly(
      server, sent, Commands(packed.batches), SendResult([], ErrorEntries(packed.failedEntries)));
  }

  // ---------------------------------------------------------------- what the server answered

  /** The `Successful` lists of the replies, in order. */
  ghost function SuccessfulLists(server: Server, sent: seq<Command>, commands: seq<Command>): seq<seq<ResultEntry>>
    requires AllReplied(server, sent, commands)
  {
    seq(|commands|, k requires 0 <= k < |commands| && AllReplied(server, sent, commands) =>
      match ReplyTo(server, sent, commands, k)
      case Replied(_, Some(successful), _) => successful
      case _ => [])
  }

  /** The `Failed` lists of the replies, in order. */
  ghost function FailedLists(server: Server, sent: seq<Command>, commands: seq<Command>): seq<seq<ErrorEntry>>
    requires AllReplied(server, sent, commands)
  {
    seq(|commands|, k requires 0 <= k < |commands| && AllReplied(server, sent, commands) =>
      match ReplyTo(server, sent, commands, k)
      case Replied(_, _, Some(failed)) => failed
      case _ => [])
  }

  lemma ListsTail(server: Server, sent: seq<Command>, commands: seq<Command>)
    requires AllReplied(server, sent, commands) && commands != []
    ensures AllReplied(server, sent + [commands[0]], commands[1..])
    ensures SuccessfulLists(server, sent, commands)[1..]
            == SuccessfulLists(server, sent + [commands[0]], commands[1..])
    ensures FailedLists(server, sent, commands)[1..] == FailedLists(server, sent + [commands[0]], commands[1..])
  {
    AllRepliedTail(server, sent, commands);
    forall k | 1 <= k < |commands|
      ensures ReplyTo(server, sent, commands, k) == ReplyTo(server, sent + [commands[0]], commands[1..], k - 1)
    {
      ReplyToTail(server, sent, commands, k);
    }
  }

  lemma ListsHead(server: Server, sent: seq<Command>, commands: seq<Command>, acc: SendResult)
    requires AllReplied(server, sent, commands) && commands != []
    ensures server(sent + [commands[0]]).Replied?
    ensures Accumulate(acc, server(sent + [commands[0]]))
            == SendResult(acc.success + SuccessfulLists(server, sent, commands)[0],
                          acc.failed + FailedLists(server, sent, commands)[0])
  {
    assert ReplyTo(server, sent, commands, 0).Replied?;
    assert sent + commands[..1] == sent + [commands[0]];
  }

  lemma {:induction false} SendAllReports(server: Server, sent: seq<Command>, commands: seq<Command>, acc: SendResult)
    requires AllReplied(server, sent, commands)
    ensures SendAll(server, sent, commands, acc).result
            == Success(SendResult(acc.success + Flatten(SuccessfulLists(server, sent, commands)),
                                  acc.failed + Flatten(FailedLists(server, sent, commands))))
    decreases |commands|
  {
    if commands == [] {
      assert acc.success + [] == acc.success && acc.failed + [] == acc.failed;
    } else {
      var successful, failed := SuccessfulLists(server, sent, commands), FailedLists(server, sent, commands);
      ListsHead(server, sent, commands, acc);
      ListsTail(server, sent, commands);
      var now := sent + [commands[0]];
      SendAllReports(server, now, commands[1..], Accumulate(acc, server(now)));
      FlattenCons(successful);
      FlattenCons(failed);
      Associative(acc.success, successful[0], Flatten(successful[1..]));
      Associative(acc.failed, failed[0], Flatten(failed[1..]));
    }
  }

  /** One command for each batch, with its entries, and one error for each oversized entry, with its id. */
  lemma CommandsAndErrorsInOrder(batches: seq<Batch>, oversized: seq<BatchEntry>)
    ensures |Commands(batches)| == |batches|
    ensures forall k :: 0 <= k < |batches| ==> Commands(batches)[k] == SendMessageBatch(batches[k])
    ensures |ErrorEntries(oversized)| == |oversized|
    ensures forall i :: 0 <= i < |oversized| ==>
              ErrorEntries(oversized)[i] == ErrorEntry(oversized[i].id, true, "MessageEntrySizeLimitError")
  {
  }

  /**
   * When every call is answered, the successes are those that the server has listed, in order; the failures are the
   * size errors of the oversized entries, in order, and then those that the server has listed.
   */
  lemma SendBatchReportsReplies(
    server: Server, sent: seq<Command>, l: Limits, isFifo: bool, messages: seq<BatchEntry>)
    requires ValidateBatch(messages, isFifo) == None
    requires AllReplied(server, sent, Commands(Pack(l, messages).batches))
    ensures var commands := Commands(Pack(l, messages).batches);
            SendBatchOutcome(server, sent, l, isFifo, messages)
            == Sending(Success(SendResult(Flatten(SuccessfulLists(server, sent, commands)),
                                          ErrorEntries(Oversized(l.maxBatchSize, messages))
                                          + Flatten(FailedLists(server, sent, commands)))),
                       sent + commands)
  {
    var packed := Pack(l, messages);
    var commands := Commands(packed.batches);
    var acc := SendResult([], ErrorEntries(packed.failedEntries));
    PackKeepsContentsAndOrder(l, messages);
    SendAllSucceedsExactly(server, sent, commands, acc);
    SendAllReports(server, sent, commands, acc);
    assert [] + Flatten(SuccessfulLists(server, sent, commands)) == Flatten(SuccessfulLists(server, sent, commands));
  }

  // ---------------------------------------------------------------- conservation

  function ResultIds(xs: seq<ResultEntry>): seq<string> {
    seq(|xs|, i requires 0 <= i < |xs| => xs[i].id)
  }

  function ErrorIds(xs: seq<ErrorEntry>): seq<string> {
    seq(|xs|, i requires 0 <= i < |xs| => xs[i].id)
  }

  /** The ids that a result reports, each as often as it is reported. */
  function Reported(r: SendResult): multiset<string> {
    multiset(ResultIds(r.success)) + multiset(ErrorIds(r.failed))
  }

  /** The reply splits the ids of the batch into successful and failed ones. */
  predicate Splits(reply: Reply, batch: Batch) {
    reply.Replied?
    && Reported(SendResult(OrEmpty(reply.successful), OrEmpty(reply.failed))) == multiset(Ids(batch))
  }

  lemma ResultIdsConcat(a: seq<ResultEntry>, b: seq<ResultEntry>)
    ensures multiset(ResultIds(a + b)) == multiset(ResultIds(a)) + multiset(ResultIds(b))
  {
    assert ResultIds(a + b) == ResultIds(a) + ResultIds(b);
  }

  lemma ErrorIdsConcat(a: seq<ErrorEntry>, b: seq<ErrorEntry>)
    ensures multiset(ErrorIds(a + b)) == multiset(ErrorIds(a)) + multiset(ErrorIds(b))
  {
    assert ErrorIds(a + b) == ErrorIds(a) + ErrorIds(b);
  }

  lemma AccumulateReports(acc: SendResult, reply: Reply, batch: Batch)
    requires Splits(reply, batch)
    ensures Reported(Accumulate(acc, reply)) == Reported(acc) + multiset(Ids(batch))
  {
    ResultIdsConcat(acc.success, OrEmpty(reply.successful));
    ErrorIdsConcat(acc.failed, OrEmpty(reply.failed));
  }

  /** The entries of a batch command. */
  function EntriesOf(command: Command): Batch {
    match command
    case SendMessage(_) => []
    case SendMessageBatch(entries) => entries
  }

  /** The ids in all batches. */
  function AllIds(commands: seq<Command>): multiset<string> {
    if commands == [] then multiset{} else multiset(Ids(EntriesOf(commands[0]))) + AllIds(commands[1..])
  }

  lemma IdsConcat(s: Batch, t: Batch)
    ensures multiset(Ids(s + t)) == multiset(Ids(s)) + multiset(Ids(t))
  {
    assert Ids(s + t) == Ids(s) + Ids(t);
  }

  lemma AllIdsOfBatches(batches: seq<Batch>)
    requires batches != []
    ensures AllIds(Commands(batches)) == multiset(Ids(batches[0])) + AllIds(Commands(batches[1..]))
  {
    assert Commands(batches)[1..] == Commands(batches[1..]);
  }

  lemma {:induction false} AllIdsOfFlatten(batches: seq<Batch>)
    ensures multiset(Ids(Flatten(batches))) == AllIds(Commands(batches))
  {
    if batches == [] {
      assert Ids([]) == [];
    } else {
      AllIdsOfFlatten(batches[1..]);
      FlattenCons(batches);
      AllIdsOfBatches(batches);
      IdsConcat(batches[0], Flatten(batches[1..]));
    }
  }

  /** Every one of the calls, in order, is answered by a split of its batch. */
  ghost predicate AllSplit(server: Server, sent: seq<Command>, commands: seq<Command>) {
    forall k :: 0 <= k < |commands| ==> Splits(ReplyTo(server, sent, commands, k), EntriesOf(commands[k]))
  }

  lemma AllSplitTail(server: Server, sent: seq<Command>, commands: seq<Command>)
    requires AllSplit(server, sent, commands) && commands != []
    ensures Splits(server(sent + [commands[0]]), EntriesOf(commands[0]))
    ensures AllSplit(server, sent + [commands[0]], commands[1..])
  {
    assert Splits(ReplyTo(server, sent, commands, 0), EntriesOf(commands[0]));
    assert sent + commands[..1] == sent + [commands[0]];
    forall k | 0 <= k < |commands[1..]|
      ensures Splits(ReplyTo(server, sent + [commands[0]], commands[1..], k), EntriesOf(commands[1..][k]))
    {
      ReplyToTail(server, sent, commands, k + 1);
      assert Splits(ReplyTo(server, sent, commands, k + 1), EntriesOf(commands[k + 1]));
    }
  }

  lemma {:induction false} SendAllConserves(server: Server, sent: seq<Command>, commands: seq<Command>, acc: SendResult)
    requires AllSplit(server, sent, commands)
    ensures var result := SendAll(server, sent, commands, acc).result;
            result.Success? && Reported(result.value) == Reported(acc) + AllIds(commands)
    decreases |commands|
  {
    if commands != [] {
      AllSplitTail(server, sent, commands);
      var now := sent + [commands[0]];
      SendAllConserves(server, now, commands[1..], Accumulate(acc, server(now)));
      AccumulateReports(acc, server(now), EntriesOf(commands[0]));
    }
  }

  /**
   * When every reply accounts for its batch, the result reports every input id exactly once,
   * and the commands are exactly the packed batches in order.
   */
  lemma SendBatchConserves(server: Server, sent: seq<Command>, l: Limits, isFifo: bool, messages: seq<BatchEntry>)
    requires ValidateBatch(messages, isFifo) == None
    requires AllSplit(server, sent, Commands(Pack(l, messages).batches))
    ensures var outcome := SendBatchOutcome(server, sent, l, isFifo, messages);
            && outcome.result.Success?
            && outcome.sent == sent + Commands(Pack(l, messages).batches)
            && Reported(outcome.result.value) == multiset(EntryIds(messages))
  {
    var packed := Pack(l, messages);
    var commands := Commands(packed.batches);
    var acc := SendResult([], ErrorEntries(packed.failedEntries));
    SendAllSucceedsExactly(server, sent, commands, acc);
    SendAllConserves(server, sent, commands, acc);
    AllIdsOfFlatten(packed.batches);
    PackKeepsContentsAndOrder(l, messages);
    AcceptedAndOversizedPartition(l.maxBatchSize, messages);
    assert ErrorIds(acc.failed) == EntryIds(packed.failedEntries);
    assert ResultIds(acc.success) == [];
  }

  // ---------------------------------------------------------------- the empty command

  /**
   * `sendBatch` opens with a command without entries exactly when the input is valid, something is
   * accepted, and the batch size is 0 or the first accepted message is exactly as large as the limit.
   */
  lemma SendsAnEmptyCommandExactly(
    server: Server, sent: seq<Command>, l: Limits, isFifo: bool, messages: seq<BatchEntry>)
    ensures var outcome := SendBatchOutcome(server, sent, l, isFifo, messages);
            var accepted := Accepted(l.maxBatchSize, messages);
            (|outcome.sent| > |sent| && outcome.sent[|sent|] == Command.SendMessageBatch([])) <==>
            && ValidateBatch(messages, isFifo) == None
            && accepted != []
            && (l.maxBatchLength == 0 || RequestSize(accepted[0]) == l.maxBatchSize)
  {
    var packed := Pack(l, messages);
    var commands := Commands(packed.batches);
    SendAllGrows(server, sent, commands, SendResult([], ErrorEntries(packed.failedEntries)));
    EmptyBatchExactly(l, messages);
    if ValidateBatch(messages, isFifo) == None && packed.batches != [] {
      assert (sent + [commands[0]])[|sent|] == commands[0];
      assert [] in packed.batches <==> packed.batches[0] == [];
    }
  }
}
