/**
 * `modules/sqs/src/producer/sqs-message.batcher.ts` with the maps of
 * `modules/sqs/src/util/batch-entry.util.ts`: an online, order-preserving packer
 * under a bound on the entries and a bound on the bytes of a batch.
 */
module Batcher {
  import opened Sequences
  import opened MessageSize

  /** `SqsBatchMessageEntry` */
  datatype BatchEntry = BatchEntry(id: string, message: MessageEntry)

  /** `SendMessageBatchRequestEntry`: the message with its id beside the other properties. */
  datatype RequestEntry = RequestEntry(
    id: string,
    body: Option<JsString>, attributes: Option<seq<Attribute>>, groupId: Option<JsString>, delaySeconds: Option<int>)

  /** `BatchResultErrorEntry`; the message text is not modelled. */
  datatype ErrorEntry = ErrorEntry(id: string, senderFault: bool, code: string)

  function MapMessageToBatchEntry(e: BatchEntry): RequestEntry {
    RequestEntry(e.id, e.message.body, e.message.attributes, e.message.groupId, e.message.delaySeconds)
  }

  function MapMessageToBatchErrorEntry(e: BatchEntry): ErrorEntry {
    ErrorEntry(e.id, true, "MessageEntrySizeLimitError")
  }

  /** The message that a request entry carries. */
  function MessageOf(r: RequestEntry): MessageEntry {
    MessageEntry(r.body, r.attributes, r.groupId, r.delaySeconds)
  }

  function RequestSize(r: RequestEntry): nat {
    SizeOf(MessageOf(r))
  }

  type Batch = seq<RequestEntry>

  function Bytes(b: Batch): nat {
    SumBy(RequestSize, b)
  }

  /** The entries within the size limit, in input order, as they go to the server. */
  function Accepted(limit: nat, xs: seq<BatchEntry>): Batch {
    if xs == [] then []
    else
      var x := xs[|xs| - 1];
      Accepted(limit, xs[..|xs| - 1]) + if SizeOf(x.message) <= limit then [MapMessageToBatchEntry(x)] else []
  }

  /** The entries over the size limit, in input order. */
  function Oversized(limit: nat, xs: seq<BatchEntry>): seq<BatchEntry> {
    if xs == [] then []
    else
      var x := xs[|xs| - 1];
      Oversized(limit, xs[..|xs| - 1]) + if SizeOf(x.message) <= limit then [] else [x]
  }

  /** The variables of the packing loop; `currentBatchSize` is `Bytes(current)`. */
  datatype Packing = Packing(closed: seq<Batch>, failed: seq<BatchEntry>, current: Batch)

  datatype Limits = Limits(maxBatchLength: nat, maxBatchSize: nat)

  predicate MustFlush(l: Limits, current: Batch, size: nat) {
    |current| == l.maxBatchLength || Bytes(current) + size >= l.maxBatchSize
  }

  function PackOne(l: Limits, p: Packing, x: BatchEntry): Packing {
    var size := SizeOf(x.message);
    var entry := MapMessageToBatchEntry(x);
    if size > l.maxBatchSize then p.(failed := p.failed + [x])
    else if MustFlush(l, p.current, size) then p.(closed := p.closed + [p.current], current := [entry])
    else p.(current := p.current + [entry])
  }

  /** The loop after the entries xs. */
  function PackAll(l: Limits, xs: seq<BatchEntry>): Packing {
    if xs == [] then Packing([], [], []) else PackOne(l, PackAll(l, xs[..|xs| - 1]), xs[|xs| - 1])
  }

  lemma PackAllSnoc(l: Limits, xs: seq<BatchEntry>, i: nat)
    requires i < |xs|
    ensures PackAll(l, xs[..i + 1]) == PackOne(l, PackAll(l, xs[..i]), xs[i])
  {
    assert xs[..i + 1][..i] == xs[..i];
  }

  lemma BytesSnoc(b: Batch, x: BatchEntry)
    ensures Bytes(b + [MapMessageToBatchEntry(x)]) == Bytes(b) + SizeOf(x.message)
  {
    SumBySnoc(RequestSize, b, MapMessageToBatchEntry(x));
  }

  datatype BatcherResult = BatcherResult(batches: seq<Batch>, failedEntries: seq<BatchEntry>)

  function Finish(p: Packing): BatcherResult {
    BatcherResult(if p.current != [] then p.closed + [p.current] else p.closed, p.failed)
  }

  /** What `packMessagesIntoBatches` returns. */
  function Pack(l: Limits, xs: seq<BatchEntry>): BatcherResult {
    Finish(PackAll(l, xs))
  }

  class SqsMessageBatcher {
    const maxBatchLength: nat
    const maxBatchSize: nat

    constructor (maxBatchLength: nat, maxBatchSize: nat)
      ensures this.maxBatchLength == maxBatchLength && this.maxBatchSize == maxBatchSize
    {
      this.maxBatchLength := maxBatchLength;
      this.maxBatchSize := maxBatchSize;
    }

    method PackMessagesIntoBatches(batchMessageEntries: seq<BatchEntry>) returns (result: BatcherResult)
      ensures result == Pack(Limits(maxBatchLength, maxBatchSize), batchMessageEntries)
    {
      ghost var l := Limits(maxBatchLength, maxBatchSize);
      var batches: seq<Batch> := [];
      var failedEntries: seq<BatchEntry> := [];
      var currentBatch: Batch := [];
      var currentBatchSize := 0;
      for i := 0 to |batchMessageEntries|
        invariant currentBatchSize == Bytes(currentBatch)
        invariant Packing(batches, failedEntries, currentBatch) == PackAll(l, batchMessageEntries[..i])
      {
        var batchMessageEntry := batchMessageEntries[i];
        PackAllSnoc(l, batchMessageEntries, i);
        var currentMessageSize := SizeOfMessage(batchMessageEntry.message);
        if currentMessageSize > maxBatchSize {
          failedEntries := failedEntries + [batchMessageEntry];
          continue;
        } else if |currentBatch| == maxBatchLength || currentBatchSize + currentMessageSize >= maxBatchSize {
          batches := batches + [currentBatch];
          currentBatch := [];
          currentBatchSize := 0;
        }
        currentBatchSize := currentBatchSize + currentMessageSize;
        var batchRequestEntry := MapMessageToBatchEntry(batchMessageEntry);
        BytesSnoc(currentBatch, batchMessageEntry);
        currentBatch := currentBatch + [batchRequestEntry];
      }
      assert batchMessageEntries[..|batchMessageEntries|] == batchMessageEntries;
      if currentBatch != [] {
        batches := batches + [currentBatch];
      }
      result := BatcherResult(batches, failedEntries);
    }
  }

  // ---------------------------------------------------------------- nothing lost, order kept

  /** What the loop holds, in order. */
  function Contents(p: Packing): Batch {
    Flatten(p.closed) + p.current
  }

  lemma PackOneContents(l: Limits, p: Packing, x: BatchEntry)
    ensures SizeOf(x.message) <= l.maxBatchSize ==>
              Contents(PackOne(l, p, x)) == Contents(p) + [MapMessageToBatchEntry(x)]
    ensures SizeOf(x.message) > l.maxBatchSize ==> Contents(PackOne(l, p, x)) == Contents(p)
  {
    FlattenSnoc(p.closed, p.current);
  }

  lemma {:induction false} PackAllContents(l: Limits, xs: seq<BatchEntry>)
    ensures Contents(PackAll(l, xs)) == Accepted(l.maxBatchSize, xs)
    ensures PackAll(l, xs).failed == Oversized(l.maxBatchSize, xs)
  {
    if xs != [] {
      PackAllContents(l, xs[..|xs| - 1]);
      PackOneContents(l, PackAll(l, xs[..|xs| - 1]), xs[|xs| - 1]);
    }
  }

  /** The batches hold the entries within the limit, in input order; the failed entries are the others, in order. */
  lemma {:induction false} PackKeepsContentsAndOrder(l: Limits, xs: seq<BatchEntry>)
    ensures Flatten(Pack(l, xs).batches) == Accepted(l.maxBatchSize, xs)
    ensures Pack(l, xs).failedEntries == Oversized(l.maxBatchSize, xs)
  {
    PackAllContents(l, xs);
    var p := PackAll(l, xs);
    FlattenSnoc(p.closed, p.current);
  }

  function Ids(b: Batch): seq<string> {
    seq(|b|, i requires 0 <= i < |b| => b[i].id)
  }

  function EntryIds(xs: seq<BatchEntry>): seq<string> {
    seq(|xs|, i requires 0 <= i < |xs| => xs[i].id)
  }

  lemma IdsSnoc(b: Batch, r: RequestEntry)
    ensures multiset(Ids(b + [r])) == multiset(Ids(b)) + multiset{r.id}
  {
    assert Ids(b + [r]) == Ids(b) + [r.id];
  }

  lemma EntryIdsSnoc(xs: seq<BatchEntry>, x: BatchEntry)
    ensures multiset(EntryIds(xs + [x])) == multiset(EntryIds(xs)) + multiset{x.id}
  {
    assert EntryIds(xs + [x]) == EntryIds(xs) + [x.id];
  }

  /** An entry of the batches or of the failed entries is an input entry, once each. */
  lemma {:induction false} AcceptedAndOversizedPartition(limit: nat, xs: seq<BatchEntry>)
    ensures multiset(Ids(Accepted(limit, xs))) + multiset(EntryIds(Oversized(limit, xs))) == multiset(EntryIds(xs))
  {
    if xs != [] {
      var init, x := xs[..|xs| - 1], xs[|xs| - 1];
      AcceptedAndOversizedPartition(limit, init);
      IdsSnoc(Accepted(limit, init), MapMessageToBatchEntry(x));
      EntryIdsSnoc(Oversized(limit, init), x);
      EntryIdsSnoc(init, x);
      assert xs == init + [x];
      AcceptedSnoc(limit, init, x);
    }
  }

  lemma AcceptedSnoc(limit: nat, xs: seq<BatchEntry>, x: BatchEntry)
    ensures SizeOf(x.message) <= limit ==>
              Accepted(limit, xs + [x]) == Accepted(limit, xs) + [MapMessageToBatchEntry(x)]
              && Oversized(limit, xs + [x]) == Oversized(limit, xs)
    ensures SizeOf(x.message) > limit ==>
              Accepted(limit, xs + [x]) == Accepted(limit, xs)
              && Oversized(limit, xs + [x]) == Oversized(limit, xs) + [x]
  {
    assert (xs + [x])[..|xs|] == xs;
  }

  lemma AcceptedSingle(limit: nat, x: BatchEntry)
    ensures SizeOf(x.message) <= limit ==>
              Accepted(limit, [x]) == [MapMessageToBatchEntry(x)] && Oversized(limit, [x]) == []
    ensures SizeOf(x.message) > limit ==> Accepted(limit, [x]) == [] && Oversized(limit, [x]) == [x]
  {
    assert [x][..0] == [];
  }

  lemma {:induction false} AcceptedConcat(limit: nat, xs: seq<BatchEntry>, ys: seq<BatchEntry>)
    ensures Accepted(limit, xs + ys) == Accepted(limit, xs) + Accepted(limit, ys)
    ensures Oversized(limit, xs + ys) == Oversized(limit, xs) + Oversized(limit, ys)
  {
    if ys == [] {
      assert xs + ys == xs;
    } else {
      var init, y := ys[..|ys| - 1], ys[|ys| - 1];
      AcceptedConcat(limit, xs, init);
      LastOfConcat(xs, ys);
      AcceptedSnoc(limit, xs + init, y);
      AcceptedSnoc(limit, init, y);
      Associative(Accepted(limit, xs), Accepted(limit, init), [MapMessageToBatchEntry(y)]);
      Associative(Oversized(limit, xs), Oversized(limit, init), [y]);
    }
  }

  /**
   * Entries are accepted or refused one by one, in order: within the limit with their id and every property of their
   * message, over the limit as they are.
   */
  lemma AcceptedOneByOne(limit: nat, xs: seq<BatchEntry>, ys: seq<BatchEntry>, x: BatchEntry)
    ensures Accepted(limit, xs + ys) == Accepted(limit, xs) + Accepted(limit, ys)
    ensures Oversized(limit, xs + ys) == Oversized(limit, xs) + Oversized(limit, ys)
    ensures SizeOf(x.message) <= limit ==>
              && Accepted(limit, [x]) == [RequestEntry(x.id, x.message.body, x.message.attributes,
                                                       x.message.groupId, x.message.delaySeconds)]
              && Oversized(limit, [x]) == []
    ensures SizeOf(x.message) > limit ==> Accepted(limit, [x]) == [] && Oversized(limit, [x]) == [x]
  {
    AcceptedSingle(limit, x);
    AcceptedConcat(limit, xs, ys);
  }

  // ---------------------------------------------------------------- limits of a batch

  /** A batch the server takes: short enough, and below the byte limit unless it is a single entry. */
  predicate Fits(l: Limits, b: Batch) {
    |b| <= l.maxBatchLength && FitsBytes(l, b)
  }

  predicate FitsBytes(l: Limits, b: Batch) {
    Bytes(b) <= l.maxBatchSize && (|b| >= 2 ==> Bytes(b) < l.maxBatchSize)
  }

  lemma SingleBytes(r: RequestEntry)
    ensures Bytes([r]) == RequestSize(r)
  {
    SumBySnoc(RequestSize, [], r);
    assert [] + [r] == [r];
  }

  /** What `packMessagesIntoBatches` promises of a batch; a length limit of 0 is not kept. */
  predicate Respects(l: Limits, b: Batch) {
    FitsBytes(l, b) && (l.maxBatchLength >= 1 ==> |b| <= l.maxBatchLength)
  }

  ghost predicate WithinLimits(l: Limits, p: Packing) {
    Respects(l, p.current) && forall b :: b in p.closed ==> Respects(l, b)
  }

  lemma SingleRespects(l: Limits, x: BatchEntry)
    requires SizeOf(x.message) <= l.maxBatchSize
    ensures Respects(l, [MapMessageToBatchEntry(x)])
  {
    SingleBytes(MapMessageToBatchEntry(x));
  }

  lemma AppendRespects(l: Limits, b: Batch, x: BatchEntry)
    requires Respects(l, b) && SizeOf(x.message) <= l.maxBatchSize && !MustFlush(l, b, SizeOf(x.message))
    ensures Respects(l, b + [MapMessageToBatchEntry(x)])
  {
    BytesSnoc(b, x);
  }

  lemma PackOneLimits(l: Limits, p: Packing, x: BatchEntry)
    requires WithinLimits(l, p)
    ensures WithinLimits(l, PackOne(l, p, x))
  {
    if SizeOf(x.message) <= l.maxBatchSize {
      if MustFlush(l, p.current, SizeOf(x.message)) {
        SingleRespects(l, x);
      } else {
        AppendRespects(l, p.current, x);
      }
    }
  }

  lemma {:induction false} PackAllLimits(l: Limits, xs: seq<BatchEntry>)
    ensures WithinLimits(l, PackAll(l, xs))
  {
    if xs != [] {
      PackAllLimits(l, xs[..|xs| - 1]);
      PackOneLimits(l, PackAll(l, xs[..|xs| - 1]), xs[|xs| - 1]);
    }
  }

  /** Every batch respects both limits; two entries or more stay strictly below the byte limit. */
  lemma BatchesRespectLimits(l: Limits, xs: seq<BatchEntry>)
    ensures forall b :: b in Pack(l, xs).batches ==> FitsBytes(l, b)
    ensures l.maxBatchLength >= 1 ==> forall b :: b in Pack(l, xs).batches ==> Fits(l, b)
  {
    PackAllLimits(l, xs);
    forall b | b in Pack(l, xs).batches
      ensures Respects(l, b)
    {
    }
  }

  // ---------------------------------------------------------------- empty batches

  lemma {:induction false} PackAllEmpties(l: Limits, xs: seq<BatchEntry>)
    ensures var p := PackAll(l, xs);
            var accepted := Accepted(l.maxBatchSize, xs);
            && (p.current == [] <==> accepted == [])
            && (accepted == [] ==> p.closed == [])
            && (forall i :: 1 <= i < |p.closed| ==> p.closed[i] != [])
            && (accepted != [] ==>
                  ((p.closed != [] && p.closed[0] == []) <==>
                   (l.maxBatchLength == 0 || RequestSize(accepted[0]) == l.maxBatchSize)))
  {
    if xs != [] {
      var init := xs[..|xs| - 1];
      PackAllEmpties(l, init);
      var before := Accepted(l.maxBatchSize, init);
      if before != [] {
        assert Accepted(l.maxBatchSize, xs)[0] == before[0];
      }
    }
  }

  /**
   * The flush test can send an empty batch: only as the first batch, and exactly when
   * something is accepted and the length limit is 0 or the first accepted entry fills the byte limit.
   */
  lemma EmptyBatchExactly(l: Limits, xs: seq<BatchEntry>)
    ensures forall i :: 1 <= i < |Pack(l, xs).batches| ==> Pack(l, xs).batches[i] != []
    ensures var accepted := Accepted(l.maxBatchSize, xs);
            [] in Pack(l, xs).batches <==>
            accepted != [] && (l.maxBatchLength == 0 || RequestSize(accepted[0]) == l.maxBatchSize)
  {
    PackAllEmpties(l, xs);
  }

  // ---------------------------------------------------------------- when the promised limits hold

  lemma {:induction false} FlattenMembers<T>(parts: seq<seq<T>>, x: T)
    ensures x in Flatten(parts) <==> exists part :: part in parts && x in part
  {
    if parts != [] {
      var init, last := parts[..|parts| - 1], parts[|parts| - 1];
      FlattenMembers(init, x);
      assert parts == init + [last];
    }
  }

  lemma {:induction false} MemberBytes(b: Batch, e: RequestEntry)
    requires e in b
    ensures RequestSize(e) <= Bytes(b)
  {
    var init, last := b[..|b| - 1], b[|b| - 1];
    assert b == init + [last];
    if e != last {
      MemberBytes(init, e);
    }
  }

  /** Some batch is returned exactly when something is accepted. */
  lemma SomeBatchExactly(l: Limits, xs: seq<BatchEntry>)
    ensures Pack(l, xs).batches == [] <==> Accepted(l.maxBatchSize, xs) == []
  {
    PackAllEmpties(l, xs);
  }

  /**
   * The sizes of all batches are below the byte limit, as the comment promises, exactly when no accepted message
   * is as large as the limit.
   */
  lemma BelowByteLimitExactly(l: Limits, xs: seq<BatchEntry>)
    ensures (forall b :: b in Pack(l, xs).batches ==> Bytes(b) < l.maxBatchSize)
            <==> (forall e :: e in Accepted(l.maxBatchSize, xs) ==> RequestSize(e) < l.maxBatchSize)
  {
    var batches, accepted := Pack(l, xs).batches, Accepted(l.maxBatchSize, xs);
    PackKeepsContentsAndOrder(l, xs);
    BatchesRespectLimits(l, xs);
    SomeBatchExactly(l, xs);
    if forall b :: b in batches ==> Bytes(b) < l.maxBatchSize {
      forall e | e in accepted
        ensures RequestSize(e) < l.maxBatchSize
      {
        FlattenMembers(batches, e);
        var b :| b in batches && e in b;
        MemberBytes(b, e);
      }
    }
    if forall e :: e in accepted ==> RequestSize(e) < l.maxBatchSize {
      forall b | b in batches
        ensures Bytes(b) < l.maxBatchSize
      {
        assert accepted[0] in accepted;
        if |b| == 1 {
          FlattenMembers(batches, b[0]);
          SingleBytes(b[0]);
          assert b == [b[0]];
        }
      }
    }
  }

  /** All batches keep the length limit, as the comment promises, exactly when it is not 0 or nothing is accepted. */
  lemma WithinLengthLimitExactly(l: Limits, xs: seq<BatchEntry>)
    ensures (forall b :: b in Pack(l, xs).batches ==> |b| <= l.maxBatchLength)
            <==> l.maxBatchLength >= 1 || Accepted(l.maxBatchSize, xs) == []
  {
    BatchesRespectLimits(l, xs);
    PackAllEmpties(l, xs);
    var p := PackAll(l, xs);
    if p.current != [] {
      assert p.current in Pack(l, xs).batches;
    }
  }

  /** A message of n bytes. */
  function MessageOfSize(n: nat): (m: MessageEntry)
    ensures SizeOf(m) == n
  {
    AsciiSize(n);
    MessageEntry(Some(seq(n, i => 0x61)), None, None, None)
  }

  lemma {:induction false} AsciiSize(n: nat)
    ensures ByteSize(seq(n, i => 0x61)) == n
  {
    if n > 0 {
      AsciiSize(n - 1);
      assert seq<CodeUnit>(n, i => 0x61)[1..] == seq<CodeUnit>(n - 1, i => 0x61);
    }
  }

  /** An accepted message that must be flushed for makes an empty batch and one of its own. */
  lemma SingleMessageFlushes(l: Limits, x: BatchEntry)
    requires SizeOf(x.message) <= l.maxBatchSize && MustFlush(l, [], SizeOf(x.message))
    ensures Pack(l, [x]).batches == [[], [MapMessageToBatchEntry(x)]]
  {
    assert [x][..0] == [];
    assert PackAll(l, [x]) == PackOne(l, Packing([], [], []), x) == Packing([[]], [], [MapMessageToBatchEntry(x)]);
  }

  /** Whatever the byte limit is, a single message reaches it: a batch at the limit, not below. */
  lemma FullMessageReachesByteLimit(l: Limits, id: string)
    ensures var batches := Pack(l, [BatchEntry(id, MessageOfSize(l.maxBatchSize))]).batches;
            exists b :: b in batches && Bytes(b) == l.maxBatchSize
  {
    var x := BatchEntry(id, MessageOfSize(l.maxBatchSize));
    SingleMessageFlushes(l, x);
    SingleBytes(MapMessageToBatchEntry(x));
    assert Pack(l, [x]).batches[1] == [MapMessageToBatchEntry(x)];
  }

  /** With a length limit of 0, any accepted message makes a batch over it. */
  lemma ZeroLengthIsExceeded(maxBatchSize: nat, x: BatchEntry)
    requires SizeOf(x.message) <= maxBatchSize
    ensures exists b :: b in Pack(Limits(0, maxBatchSize), [x]).batches && |b| == 1
  {
    SingleMessageFlushes(Limits(0, maxBatchSize), x);
    assert Pack(Limits(0, maxBatchSize), [x]).batches[1] == [MapMessageToBatchEntry(x)];
  }

  /** With no length limit to meet: a limit of n entries is never reached by fewer. */
  ghost predicate Alike(zero: Packing, free: Packing, accepted: Batch, maxBatchSize: nat) {
    && zero.failed == free.failed && zero.current == free.current
    && (accepted == [] ==> zero.closed == free.closed == [] && free.current == [])
    && (accepted != [] ==>
          && free.current != []
          && zero.closed == if RequestSize(accepted[0]) == maxBatchSize then free.closed else [[]] + free.closed)
  }

  lemma {:induction false} ZeroPacksAlike(length: nat, maxBatchSize: nat, xs: seq<BatchEntry>)
    requires length >= 1 && length >= |xs|
    ensures Alike(PackAll(Limits(0, maxBatchSize), xs), PackAll(Limits(length, maxBatchSize), xs),
                  Accepted(maxBatchSize, xs), maxBatchSize)
    ensures |PackAll(Limits(length, maxBatchSize), xs).current| <= |xs|
  {
    if xs != [] {
      var init, x := xs[..|xs| - 1], xs[|xs| - 1];
      ZeroPacksAlike(length, maxBatchSize, init);
      var zero, free := PackAll(Limits(0, maxBatchSize), init), PackAll(Limits(length, maxBatchSize), init);
      var accepted := Accepted(maxBatchSize, init);
      if accepted == [] {
        SingleBytes(MapMessageToBatchEntry(x));
      } else {
        assert Accepted(maxBatchSize, xs)[0] == accepted[0];
        Associative([[]], free.closed, [free.current]);
      }
    }
  }

  /**
   * A length limit of 0 does not bound the batches: they are those of a limit that is never reached, behind one empty
   * batch - unless the first accepted message fills the byte limit, which puts an empty batch first in either case.
   */
  lemma ZeroLengthIsUnbounded(length: nat, maxBatchSize: nat, xs: seq<BatchEntry>)
    requires length >= 1 && length >= |xs|
    ensures var accepted := Accepted(maxBatchSize, xs);
            var free := Pack(Limits(length, maxBatchSize), xs);
            Pack(Limits(0, maxBatchSize), xs)
            == if accepted != [] && RequestSize(accepted[0]) < maxBatchSize
               then BatcherResult([[]] + free.batches, free.failedEntries)
               else free
  {
    ZeroPacksAlike(length, maxBatchSize, xs);
    FirstIsAccepted(maxBatchSize, xs);
  }

  lemma {:induction false} FirstIsAccepted(limit: nat, xs: seq<BatchEntry>)
    ensures forall e :: e in Accepted(limit, xs) ==> RequestSize(e) <= limit
  {
    if xs != [] {
      FirstIsAccepted(limit, xs[..|xs| - 1]);
    }
  }

  // ---------------------------------------------------------------- fewest batches in order

  function NonEmpty(parts: seq<Batch>): nat {
    if parts == [] then 0
    else NonEmpty(parts[..|parts| - 1]) + if parts[|parts| - 1] == [] then 0 else 1
  }

  lemma NonEmptySnoc(parts: seq<Batch>, part: Batch)
    ensures NonEmpty(parts + [part]) == NonEmpty(parts) + if part == [] then 0 else 1
  {
    assert (parts + [part])[..|parts|] == parts;
  }

  predicate IsSplit(l: Limits, parts: seq<Batch>, whole: Batch) {
    Flatten(parts) == whole && forall part :: part in parts ==> Fits(l, part)
  }

  /** Of two suffixes of the same entries the shorter one has no more bytes. */
  lemma CommonSuffixBytes(a: Batch, short: Batch, b: Batch, long: Batch)
    requires a + short == b + long && |short| <= |long|
    ensures Bytes(short) <= Bytes(long)
  {
    var cut := |long| - |short|;
    assert short == (a + short)[|a|..] == (b + long)[|a|..] == long[cut..];
    assert long == long[..cut] + short;
    SumByConcat(RequestSize, long[..cut], short);
  }

  /** Dropping the last entry of the last segment leaves a split of what was there before. */
  lemma DropLast(l: Limits, parts: seq<Batch>, whole: Batch, r: RequestEntry) returns (shorter: Batch)
    requires IsSplit(l, parts, whole + [r]) && (parts == [] || parts[|parts| - 1] != [])
    ensures parts != [] && parts[|parts| - 1] == shorter + [r]
    ensures IsSplit(l, parts[..|parts| - 1] + [shorter], whole)
  {
    var init, last := parts[..|parts| - 1], parts[|parts| - 1];
    shorter := last[..|last| - 1];
    assert Flatten(parts)[|whole|] == last[|last| - 1];
    SumBySnoc(RequestSize, shorter, r);
    FlattenSnoc(init, shorter);
    assert last in parts;
    assert last == shorter + [r];
    assert Flatten(parts) == (Flatten(init) + shorter) + [r];
    assert (whole + [r])[..|whole|] == whole;
    assert Flatten(init) + shorter == Flatten(parts)[..|whole|];
  }

  /**
   * Fewer non-empty batches than segments, or as many and no more entries in the current batch than in the last
   * segment.
   */
  ghost predicate Ahead(p: Packing, parts: seq<Batch>) {
    var n := NonEmpty(p.closed) + if p.current == [] then 0 else 1;
    n < |parts| || (n == |parts| && (parts != [] ==> |p.current| <= |parts[|parts| - 1]|))
  }

  /** One more entry keeps the packer ahead of a split whose last segment takes that entry. */
  lemma GreedyStepStaysAhead(l: Limits, p: Packing, x: BatchEntry, init: seq<Batch>, shorter: Batch)
    requires l.maxBatchLength >= 1 && SizeOf(x.message) <= l.maxBatchSize
    requires Flatten(p.closed) + p.current == Flatten(init) + shorter
    requires Fits(l, shorter + [MapMessageToBatchEntry(x)])
    requires p.current == [] ==> p.closed == []
    requires Ahead(p, init + [shorter])
    ensures Ahead(PackOne(l, p, x), init + [shorter + [MapMessageToBatchEntry(x)]])
  {
    NonEmptySnoc(p.closed, p.current);
    if |p.current| <= |shorter| {
      // The current batch is a suffix of the last segment, so what fits there fits here.
      CommonSuffixBytes(Flatten(p.closed), p.current, Flatten(init), shorter);
      BytesSnoc(shorter, x);
    }
  }

  /**
   * Greedy stays ahead: against any split of the same entries the packer has fewer
   * batches, or as many with no more entries in the last one.
   */
  lemma {:induction false} GreedyStaysAhead(l: Limits, xs: seq<BatchEntry>, parts: seq<Batch>)
    requires l.maxBatchLength >= 1 && IsSplit(l, parts, Accepted(l.maxBatchSize, xs))
    ensures Ahead(PackAll(l, xs), parts)
    decreases |xs|, |parts|
  {
    if parts != [] && parts[|parts| - 1] == [] {
      GreedyStaysAhead(l, xs, parts[..|parts| - 1]);
    } else if xs != [] {
      var x, init := xs[|xs| - 1], xs[..|xs| - 1];
      var before := Accepted(l.maxBatchSize, init);
      if SizeOf(x.message) > l.maxBatchSize {
        assert Accepted(l.maxBatchSize, xs) == before;
        GreedyStaysAhead(l, init, parts);
      } else {
        var entry := MapMessageToBatchEntry(x);
        var shorter := DropLast(l, parts, before, entry);
        GreedyStaysAhead(l, init, parts[..|parts| - 1] + [shorter]);
        PackAllContents(l, init);
        PackAllEmpties(l, init);
        FlattenSnoc(parts[..|parts| - 1], shorter);
        assert parts == parts[..|parts| - 1] + [shorter + [entry]];
        assert parts[|parts| - 1] in parts;
        GreedyStepStaysAhead(l, PackAll(l, init), x, parts[..|parts| - 1], shorter);
      }
    }
  }

  /** No order-preserving split into batches that fit has fewer segments than the packer has non-empty batches. */
  lemma GreedyIsOptimal(l: Limits, xs: seq<BatchEntry>, parts: seq<Batch>)
    requires l.maxBatchLength >= 1 && IsSplit(l, parts, Accepted(l.maxBatchSize, xs))
    ensures NonEmpty(Pack(l, xs).batches) <= |parts|
  {
    GreedyStaysAhead(l, xs, parts);
    var p := PackAll(l, xs);
    NonEmptySnoc(p.closed, p.current);
  }

  /** The packer's own batches are such a split: the minimum is attained. */
  lemma PackIsASplit(l: Limits, xs: seq<BatchEntry>)
    requires l.maxBatchLength >= 1
    ensures IsSplit(l, Pack(l, xs).batches, Accepted(l.maxBatchSize, xs))
  {
    PackKeepsContentsAndOrder(l, xs);
    BatchesRespectLimits(l, xs);
  }

  // ---------------------------------------------------------------- three times the best packing in any order

  /** The closed batches, charged to the length limit or to the byte limit. */
  ghost predicate Charged(l: Limits, p: Packing, full: nat, heavy: nat) {
    && NonEmpty(p.closed) == full + heavy
    && Times(full, l.maxBatchLength) <= |Flatten(p.closed)|
    && Times(heavy, l.maxBatchSize) <= 2 * Bytes(Flatten(p.closed)) + Bytes(p.current)
  }

  /** Closing the current batch charges it: to its length when it is full, else to its bytes with the next entry. */
  lemma ChargeFlush(l: Limits, p: Packing, x: BatchEntry, full: nat, heavy: nat) returns (full': nat, heavy': nat)
    requires Charged(l, p, full, heavy) && p.current != [] && MustFlush(l, p.current, SizeOf(x.message))
    ensures Charged(l, p.(closed := p.closed + [p.current], current := [MapMessageToBatchEntry(x)]), full', heavy')
  {
    SingleBytes(MapMessageToBatchEntry(x));
    NonEmptySnoc(p.closed, p.current);
    FlattenSnoc(p.closed, p.current);
    SumByConcat(RequestSize, Flatten(p.closed), p.current);
    if |p.current| == l.maxBatchLength {
      full', heavy' := full + 1, heavy;
    } else {
      full', heavy' := full, heavy + 1;
    }
  }

  lemma ChargeOne(l: Limits, p: Packing, x: BatchEntry, full: nat, heavy: nat) returns (full': nat, heavy': nat)
    requires Charged(l, p, full, heavy)
    ensures Charged(l, PackOne(l, p, x), full', heavy')
  {
    full', heavy' := full, heavy;
    if SizeOf(x.message) <= l.maxBatchSize {
      if !MustFlush(l, p.current, SizeOf(x.message)) {
        BytesSnoc(p.current, x);
      } else if p.current != [] {
        full', heavy' := ChargeFlush(l, p, x, full, heavy);
      } else {
        NonEmptySnoc(p.closed, []);
        FlattenSnoc(p.closed, []);
        assert Flatten(p.closed + [[]]) == Flatten(p.closed);
      }
    }
  }

  lemma {:induction false} ChargeAll(l: Limits, xs: seq<BatchEntry>) returns (full: nat, heavy: nat)
    ensures Charged(l, PackAll(l, xs), full, heavy)
  {
    full, heavy := 0, 0;
    if xs != [] {
      full, heavy := ChargeAll(l, xs[..|xs| - 1]);
      full, heavy := ChargeOne(l, PackAll(l, xs[..|xs| - 1]), xs[|xs| - 1], full, heavy);
    }
  }

  /** Fewer full batches than groups, and at most twice as many heavy ones. */
  lemma ChargesAreFew(l: Limits, p: Packing, full: nat, heavy: nat, m: nat)
    requires l.maxBatchLength >= 1 && l.maxBatchSize >= 1
    requires Charged(l, p, full, heavy) && p.current != []
    requires |Flatten(p.closed) + p.current| <= Times(m, l.maxBatchLength)
    requires Bytes(Flatten(p.closed) + p.current) <= Times(m, l.maxBatchSize)
    ensures full < m && heavy <= 2 * m
  {
    SumByConcat(RequestSize, Flatten(p.closed), p.current);
    if full > m {
      TimesIsMonotone(m, full, l.maxBatchLength);
    }
    TimesTwice(m, l.maxBatchSize);
    if heavy > 2 * m {
      TimesIsMonotone(2 * m, heavy, l.maxBatchSize);
    }
  }

  /**
   * The packer never uses more than three times the batches of any packing of the same
   * entries, in any order, into groups within both limits.
   */
  lemma {:induction false} AtMostThreeTimesAnyPacking(l: Limits, xs: seq<BatchEntry>, groups: seq<Batch>)
    requires l.maxBatchLength >= 1 && l.maxBatchSize >= 1
    requires multiset(Flatten(groups)) == multiset(Accepted(l.maxBatchSize, xs))
    requires forall g :: g in groups ==> |g| <= l.maxBatchLength && Bytes(g) <= l.maxBatchSize
    ensures NonEmpty(Pack(l, xs).batches) <= 3 * |groups|
  {
    var accepted := Accepted(l.maxBatchSize, xs);
    FlattenIsShort(groups, l.maxBatchLength);
    FlattenIsBounded(RequestSize, groups, l.maxBatchSize);
    SumByPermutation(RequestSize, Flatten(groups), accepted);
    assert |multiset(Flatten(groups))| == |multiset(accepted)|;
    var p := PackAll(l, xs);
    PackAllContents(l, xs);
    PackAllEmpties(l, xs);
    NonEmptySnoc(p.closed, p.current);
    if p.current != [] {
      var full, heavy := ChargeAll(l, xs);
      ChargesAreFew(l, p, full, heavy, |groups|);
    }
  }

  // ---------------------------------------------------------------- stability and idempotence

  /** The current batch keeps growing, or is closed after having grown. */
  ghost predicate Extends(p: Packing, q: Packing) {
    || (q.closed == p.closed && p.current <= q.current)
    || (|q.closed| > |p.closed| && p.closed == q.closed[..|p.closed|] && p.current <= q.closed[|p.closed|])
  }

  lemma {:induction false} PackAllExtends(l: Limits, xs: seq<BatchEntry>, ys: seq<BatchEntry>)
    ensures Extends(PackAll(l, xs), PackAll(l, xs + ys))
  {
    if ys == [] {
      assert xs + ys == xs;
    } else {
      var init := ys[..|ys| - 1];
      PackAllExtends(l, xs, init);
      assert (xs + ys)[..|xs + ys| - 1] == xs + init;
    }
  }

  /** Packing more entries keeps all but the last batch, and the last one as a prefix of the batch in its place. */
  lemma PackIsStable(l: Limits, xs: seq<BatchEntry>, ys: seq<BatchEntry>)
    ensures var short, long := Pack(l, xs).batches, Pack(l, xs + ys).batches;
            && |short| <= |long|
            && (short != [] ==>
                  short[..|short| - 1] == long[..|short| - 1] && short[|short| - 1] <= long[|short| - 1])
  {
    PackAllExtends(l, xs, ys);
    PackAllEmpties(l, xs);
  }

  function ToBatchEntry(r: RequestEntry): BatchEntry {
    BatchEntry(r.id, MessageOf(r))
  }

  /** The entries of sent batches, as inputs again. */
  function ToBatchEntries(b: Batch): seq<BatchEntry> {
    seq(|b|, i requires 0 <= i < |b| => ToBatchEntry(b[i]))
  }

  lemma {:induction false} RepackAll(l: Limits, xs: seq<BatchEntry>)
    ensures var again := ToBatchEntries(Accepted(l.maxBatchSize, xs));
            PackAll(l, again) == PackAll(l, xs).(failed := [])
  {
    if xs != [] {
      var x, init := xs[|xs| - 1], xs[..|xs| - 1];
      RepackAll(l, init);
      assert xs == init + [x];
      AcceptedSnoc(l.maxBatchSize, init, x);
      if SizeOf(x.message) <= l.maxBatchSize {
        ToBatchEntriesSnoc(Accepted(l.maxBatchSize, init), x);
        PackAllLast(l, ToBatchEntries(Accepted(l.maxBatchSize, init)), x);
      }
    }
  }

  lemma ToBatchEntriesSnoc(b: Batch, x: BatchEntry)
    ensures ToBatchEntries(b + [MapMessageToBatchEntry(x)]) == ToBatchEntries(b) + [x]
  {
  }

  lemma PackAllLast(l: Limits, xs: seq<BatchEntry>, x: BatchEntry)
    ensures PackAll(l, xs + [x]) == PackOne(l, PackAll(l, xs), x)
  {
    assert (xs + [x])[..|xs|] == xs;
  }

  /** Repacking what was sent gives the same batches, and nothing fails. */
  lemma RepackingIsIdempotent(l: Limits, xs: seq<BatchEntry>)
    ensures Pack(l, ToBatchEntries(Flatten(Pack(l, xs).batches))) == BatcherResult(Pack(l, xs).batches, [])
  {
    PackKeepsContentsAndOrder(l, xs);
    RepackAll(l, xs);
  }
}
