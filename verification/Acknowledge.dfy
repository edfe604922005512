/**
 * The acknowledgement part of `processMessages` in `modules/sqs/src/consumer/sqs-consumer.ts`:
 * deleting the processed messages and moving the ones that could not be deleted to `failed`.
 */
module Acknowledge {
  import opened Sequences
  import opened Processors

  // ---------------------------------------------------------------- JavaScript arrays

  /** Where `splice(index, 1)` starts in an array of n elements; a negative index counts from the end. */
  function SpliceStart(n: nat, index: int): nat {
    if index < 0 then (if n + index < 0 then 0 else n + index)
    else if index < n then index
    else n
  }

  /** What `splice(index, 1)` takes out. */
  function SplicedOut<T>(s: seq<T>, index: int): seq<T> {
    var k := SpliceStart(|s|, index);
    if k < |s| then [s[k]] else []
  }

  /** What `splice(index, 1)` leaves. */
  function Spliced<T>(s: seq<T>, index: int): seq<T> {
    var k := SpliceStart(|s|, index);
    if k < |s| then s[..k] + s[k + 1..] else s
  }

  /** A mutable array; two variables can hold the same one. */
  class JsArray<T> {
    var items: seq<T>

    constructor (items: seq<T>)
      ensures this.items == items
    {
      this.items := items;
    }

    method Push(x: T)
      modifies this
      ensures items == old(items) + [x]
    {
      items := items + [x];
    }

    method SpliceOne(index: int) returns (removed: seq<T>)
      modifies this
      ensures items == Spliced(old(items), index) && removed == SplicedOut(old(items), index)
    {
      removed := SplicedOut(items, index);
      items := Spliced(items, index);
    }
  }

  /** `findIndex` by `MessageId`. */
  function FindIndex(s: seq<Message>, id: string): (index: int)
    ensures -1 <= index < |s|
    ensures index >= 0 ==> s[index].id == id && forall j :: 0 <= j < index ==> s[j].id != id
    ensures index == -1 ==> forall j :: 0 <= j < |s| ==> s[j].id != id
  {
    if s == [] then -1
    else
      var init := s[..|s| - 1];
      assert forall j :: 0 <= j < |init| ==> init[j] == s[j];
      var earlier := FindIndex(init, id);
      if earlier >= 0 then earlier
      else if s[|s| - 1].id == id then |s| - 1
      else -1
  }

  // ---------------------------------------------------------------- the loop over failed deletions

  /** The guard of the splice: `if (index)` in the code, `index >= 0` as its comment intends. */
  datatype Guard = AsWritten | Intended

  predicate Passes(g: Guard, index: int) {
    match g
    case AsWritten => index != 0
    case Intended => index >= 0
  }

  function DeleteFailure(id: string, removed: seq<Message>): Thrown {
    SqsMessageError(DeleteError(id), if removed == [] then None else Some(removed[0]))
  }

  /** One round of the loop, for the reported id. */
  function FailOne(g: Guard, r: ProcessorResult, id: string): ProcessorResult {
    var index := FindIndex(r.success, id);
    if Passes(g, index) then
      ProcessorResult(Spliced(r.success, index), r.failed + [DeleteFailure(id, SplicedOut(r.success, index))])
    else r
  }

  /** The loop over the ids of `deleteResult.Failed`. */
  function FailAll(g: Guard, r: ProcessorResult, ids: seq<string>): ProcessorResult {
    if ids == [] then r else FailOne(g, FailAll(g, r, ids[..|ids| - 1]), ids[|ids| - 1])
  }

  /** The answer to `DeleteMessageBatch`: the ids of `Failed`, which may be missing, or an error. */
  datatype DeleteReply = Deleted(failed: Option<seq<string>>) | DeleteThrew(error: Cause)

  function FailEach(s: seq<Message>, error: Cause): seq<Thrown> {
    seq(|s|, i requires 0 <= i < |s| => SqsMessageError(error, Some(s[i])))
  }

  /** The lists of the `MESSAGE_PROCESSING_END` event. */
  function Acknowledged(g: Guard, r: ProcessorResult, reply: DeleteReply): ProcessorResult {
    if r.success == [] then r
    else
      match reply
      case DeleteThrew(error) => ProcessorResult([], r.failed + FailEach(r.success, error))
      case Deleted(None) => r
      case Deleted(Some(ids)) => FailAll(g, r, ids)
  }

  /**
   * The tail of `processMessages`, on the arrays that `process` returned. `success` is another name
   * for `processedSuccess`, so the splice shows in both; `failed` is `processedFailed` unless that is empty.
   */
  method AcknowledgeProcessed(processedSuccess: JsArray<Message>, processedFailed: JsArray<Thrown>, reply: DeleteReply)
    returns (success: JsArray<Message>, failed: JsArray<Thrown>)
    requires processedSuccess as object != processedFailed as object
    modifies processedSuccess, processedFailed
    ensures var r := ProcessorResult(old(processedSuccess.items), old(processedFailed.items));
            ProcessorResult(success.items, failed.items) == Acknowledged(AsWritten, r, reply)
    ensures old(processedFailed.items) != [] ==> failed == processedFailed
    ensures old(processedFailed.items) == [] ==> fresh(failed) && processedFailed.items == []
    ensures old(processedSuccess.items) != [] && reply.Deleted? ==> success == processedSuccess
    ensures reply.DeleteThrew? ==> processedSuccess.items == old(processedSuccess.items)
  {
    success := new JsArray<Message>([]);
    failed := new JsArray<Thrown>([]);
    if |processedFailed.items| > 0 {
      failed := processedFailed;
    }
    ghost var r := ProcessorResult(processedSuccess.items, processedFailed.items);
    if |processedSuccess.items| > 0 {
      success := processedSuccess;
      match reply {
        case Deleted(None) =>
        case Deleted(Some(ids)) =>
          for k := 0 to |ids|
            invariant ProcessorResult(processedSuccess.items, failed.items) == FailAll(AsWritten, r, ids[..k])
            invariant failed != processedFailed ==> processedFailed.items == []
          {
            FailAllStep(AsWritten, r, ids, k);
            var index := FindIndex(success.items, ids[k]);
            if index != 0 {
              var removed := processedSuccess.SpliceOne(index);
              failed.Push(DeleteFailure(ids[k], removed));
            }
          }
          assert ids[..|ids|] == ids;
        case DeleteThrew(error) =>
          for k := 0 to |success.items|
            invariant success == processedSuccess && success.items == r.success
            invariant failed.items == r.failed + FailEach(r.success[..k], error)
            invariant failed != processedFailed ==> processedFailed.items == []
          {
            assert r.success[..k + 1][..k] == r.success[..k];
            FailEachSnoc(r.failed, r.success[..k + 1], error);
            failed.Push(SqsMessageError(error, Some(success.items[k])));
          }
          assert r.success[..|r.success|] == r.success;
          success := new JsArray<Message>([]);
      }
    }
  }

  // ---------------------------------------------------------------- every message once, whatever the reply

  lemma SpliceConserves(s: seq<Message>, index: int)
    ensures multiset(s) == multiset(Spliced(s, index)) + multiset(SplicedOut(s, index))
  {
    var k := SpliceStart(|s|, index);
    if k < |s| {
      assert s == s[..k] + [s[k]] + s[k + 1..];
    }
  }

  lemma FailOneConserves(g: Guard, r: ProcessorResult, id: string)
    ensures Listed(FailOne(g, r, id)) == Listed(r)
  {
    var index := FindIndex(r.success, id);
    SpliceConserves(r.success, index);
    FailedMessagesSnoc(r.failed, DeleteFailure(id, SplicedOut(r.success, index)));
  }

  lemma {:induction false} FailAllConserves(g: Guard, r: ProcessorResult, ids: seq<string>)
    ensures Listed(FailAll(g, r, ids)) == Listed(r)
  {
    if ids != [] {
      FailAllConserves(g, r, ids[..|ids| - 1]);
      FailOneConserves(g, FailAll(g, r, ids[..|ids| - 1]), ids[|ids| - 1]);
    }
  }

  lemma FailAllStep(g: Guard, r: ProcessorResult, ids: seq<string>, k: nat)
    requires k < |ids|
    ensures FailAll(g, r, ids[..k + 1]) == FailOne(g, FailAll(g, r, ids[..k]), ids[k])
  {
    assert ids[..k + 1][..k] == ids[..k];
  }

  lemma FailEachSnoc(failed: seq<Thrown>, s: seq<Message>, error: Cause)
    requires s != []
    ensures failed + FailEach(s, error)
            == (failed + FailEach(s[..|s| - 1], error)) + [SqsMessageError(error, Some(s[|s| - 1]))]
  {
  }

  lemma {:induction false} FailEachMessages(failed: seq<Thrown>, s: seq<Message>, error: Cause)
    ensures FailedMessages(failed + FailEach(s, error)) == FailedMessages(failed) + multiset(s)
  {
    if s == [] {
      assert failed + FailEach(s, error) == failed;
    } else {
      var init, last := s[..|s| - 1], s[|s| - 1];
      FailEachMessages(failed, init, error);
      FailEachSnoc(failed, s, error);
      FailedMessagesSnoc(failed + FailEach(init, error), SqsMessageError(error, Some(last)));
      assert s == init + [last];
    }
  }

  /**
   * Whatever the server answers - any list of ids, known or not, repeated or not, or an error - the
   * event lists every processed message exactly as often as before; after an error nothing succeeded.
   */
  lemma AcknowledgingConserves(g: Guard, r: ProcessorResult, reply: DeleteReply)
    ensures Listed(Acknowledged(g, r, reply)) == Listed(r)
    ensures reply.DeleteThrew? ==> Acknowledged(g, r, reply).success == []
  {
    if r.success != [] {
      match reply {
        case DeleteThrew(error) => FailEachMessages(r.failed, r.success, error);
        case Deleted(None) =>
        case Deleted(Some(ids)) => FailAllConserves(g, r, ids);
      }
    }
  }

  /** From receipt to event: with either processor, every received message is reported exactly once. */
  lemma ReceivedIsReportedOnce(
    messages: seq<Message>, timeout: Option<nat>, schedule: seq<Settlement>, reply: DeleteReply)
    ensures ConcurrentResult(messages, timeout, schedule)
            == SequentialResult(messages, timeout, Projections(schedule, |messages|))
    ensures var r := ConcurrentResult(messages, timeout, schedule);
            r.Some? ==> Listed(Acknowledged(AsWritten, r.value, reply)) == multiset(messages)
  {
    ConcurrentRefinesSequential(messages, timeout, schedule);
    ProcessingConserves(messages, timeout, Projections(schedule, |messages|));
    var r := ConcurrentResult(messages, timeout, schedule);
    if r.Some? {
      AcknowledgingConserves(AsWritten, r.value, reply);
    }
  }

  // ---------------------------------------------------------------- the exact lists

  predicate DistinctIds(s: seq<Message>) {
    forall i, j :: 0 <= i < j < |s| ==> s[i].id != s[j].id
  }

  /** The reply names some of the requested messages, each at most once, in any order. */
  predicate Conforming(s: seq<Message>, ids: seq<string>) {
    && DistinctIds(s)
    && (forall i, j :: 0 <= i < j < |ids| ==> ids[i] != ids[j])
    && (forall i :: 0 <= i < |ids| ==> FindIndex(s, ids[i]) >= 0)
  }

  /** The messages whose id is not listed, in order. */
  function Without(s: seq<Message>, ids: seq<string>): seq<Message> {
    if s == [] then []
    else Without(s[..|s| - 1], ids) + if s[|s| - 1].id in ids then [] else [s[|s| - 1]]
  }

  /** The ids other than one. */
  function Except(ids: seq<string>, id: string): seq<string> {
    if ids == [] then []
    else Except(ids[..|ids| - 1], id) + if ids[|ids| - 1] == id then [] else [ids[|ids| - 1]]
  }

  /** The ids on which the guard lets the loop act: as written it overlooks the first requested message. */
  function Handled(g: Guard, s: seq<Message>, ids: seq<string>): seq<string>
    requires s != []
  {
    match g
    case AsWritten => Except(ids, s[0].id)
    case Intended => ids
  }

  /** One failure for each id, with the message of that id. */
  function DeleteFailures(s: seq<Message>, ids: seq<string>): seq<Thrown> {
    if ids == [] then []
    else
      var id := ids[|ids| - 1];
      var index := FindIndex(s, id);
      DeleteFailures(s, ids[..|ids| - 1])
      + [SqsMessageError(DeleteError(id), if index >= 0 then Some(s[index]) else None)]
  }

  lemma {:induction false} ExceptContents(ids: seq<string>, id: string)
    ensures forall x :: x in Except(ids, id) <==> x in ids && x != id
    ensures |Except(ids, id)| <= |ids|
    ensures |Except(ids, id)| == |ids| <==> id !in ids
    ensures id !in ids ==> Except(ids, id) == ids
  {
    if ids != [] {
      ExceptContents(ids[..|ids| - 1], id);
      assert ids == ids[..|ids| - 1] + [ids[|ids| - 1]];
    }
  }

  lemma {:induction false} WithoutContents(s: seq<Message>, ids: seq<string>)
    ensures forall m :: m in Without(s, ids) <==> m in s && m.id !in ids
    ensures DistinctIds(s) ==> DistinctIds(Without(s, ids))
  {
    if s != [] {
      WithoutContents(s[..|s| - 1], ids);
      assert s == s[..|s| - 1] + [s[|s| - 1]];
    }
  }

  lemma WithoutSnoc(s: seq<Message>, m: Message, ids: seq<string>)
    ensures Without(s + [m], ids) == Without(s, ids) + Without([m], ids)
  {
    assert (s + [m])[..|s|] == s;
    assert Without([], ids) + Without([m], ids) == Without([m], ids);
  }

  lemma {:induction false} WithoutConcat(s: seq<Message>, t: seq<Message>, ids: seq<string>)
    ensures Without(s + t, ids) == Without(s, ids) + Without(t, ids)
  {
    if t == [] {
      assert s + t == s;
    } else {
      var init, m := t[..|t| - 1], t[|t| - 1];
      WithoutConcat(s, init, ids);
      WithoutSnoc(s + init, m, ids);
      WithoutSnoc(init, m, ids);
      LastOfConcat(s, t);
      Associative(Without(s, ids), Without(init, ids), Without([m], ids));
    }
  }

  /** A first message that is not removed stays first. */
  lemma WithoutKeepsHead(s: seq<Message>, ids: seq<string>)
    requires s != [] && s[0].id !in ids
    ensures Without(s, ids) == [s[0]] + Without(s[1..], ids)
  {
    assert s == [s[0]] + s[1..];
    WithoutConcat([s[0]], s[1..], ids);
  }

  lemma {:induction false} WithoutNothing(s: seq<Message>)
    ensures Without(s, []) == s
  {
    if s != [] {
      WithoutNothing(s[..|s| - 1]);
    }
  }

  lemma {:induction false} WithoutUnlisted(s: seq<Message>, ids: seq<string>, id: string)
    requires forall m :: m in s ==> m.id != id
    ensures Without(s, ids + [id]) == Without(s, ids)
  {
    if s != [] {
      WithoutUnlisted(s[..|s| - 1], ids, id);
    }
  }

  lemma SplicedSnoc<T>(s: seq<T>, x: T, k: nat)
    ensures k < |s| ==> Spliced(s + [x], k) == Spliced(s, k) + [x]
    ensures k == |s| ==> Spliced(s + [x], k) == s
  {
    if k < |s| {
      assert (s + [x])[k + 1..] == s[k + 1..] + [x];
    }
  }

  /** Splicing out one more message is removing one more id. */
  lemma {:induction false} SpliceIsWithout(s: seq<Message>, ids: seq<string>, id: string, k: nat)
    requires DistinctIds(s) && id !in ids
    requires k < |Without(s, ids)| && Without(s, ids)[k].id == id
    ensures Spliced(Without(s, ids), k) == Without(s, ids + [id])
  {
    var init, last := s[..|s| - 1], s[|s| - 1];
    var kept := Without(init, ids);
    SplicedSnoc(kept, last, k);
    if last.id == id {
      NotBefore(s, ids, k);
      WithoutUnlisted(init, ids, id);
    } else if last.id in ids {
      assert Without(s, ids) == kept;
      SpliceIsWithout(init, ids, id, k);
    } else {
      assert Without(s, ids) == kept + [last];
      SpliceIsWithout(init, ids, id, k);
    }
  }

  /** With distinct ids, the message with the id of the last one is the last one. */
  lemma NotBefore(s: seq<Message>, ids: seq<string>, k: nat)
    requires s != [] && DistinctIds(s) && s[|s| - 1].id !in ids
    requires k < |Without(s, ids)| && Without(s, ids)[k].id == s[|s| - 1].id
    ensures k == |Without(s[..|s| - 1], ids)|
    ensures forall m :: m in s[..|s| - 1] ==> m.id != s[|s| - 1].id
  {
    var init := s[..|s| - 1];
    WithoutContents(init, ids);
    forall m | m in init
      ensures m.id != s[|s| - 1].id
    {
      var i :| 0 <= i < |init| && init[i] == m;
      assert s[i] == m;
    }
    var kept := Without(init, ids);
    assert forall j :: 0 <= j < |kept| ==> kept[j] in kept;
  }

  lemma SameIdSameMessage(s: seq<Message>, m: Message)
    requires DistinctIds(s) && m in s
    ensures FindIndex(s, m.id) >= 0 && s[FindIndex(s, m.id)] == m
  {
    var i :| 0 <= i < |s| && s[i] == m;
    var j := FindIndex(s, m.id);
    assert s[j].id == s[i].id;
  }

  /** One more id of a conforming reply. */
  lemma FailOneExactly(g: Guard, s: seq<Message>, failed: seq<Thrown>, done: seq<string>, id: string)
    requires s != [] && DistinctIds(s) && FindIndex(s, id) >= 0
    requires id !in done && (g == AsWritten ==> s[0].id !in done)
    ensures var r := ProcessorResult(Without(s, done), failed + DeleteFailures(s, done));
            FailOne(g, r, id) ==
            if g == AsWritten && id == s[0].id then r
            else ProcessorResult(Without(s, done + [id]), failed + DeleteFailures(s, done + [id]))
  {
    var left := Without(s, done);
    var m := s[FindIndex(s, id)];
    WithoutContents(s, done);
    assert m in left;
    SameIdSameMessage(left, m);
    var k := FindIndex(left, id);
    if g == AsWritten {
      WithoutKeepsHead(s, done);
      assert left[0] == s[0];
    }
    SpliceIsWithout(s, done, id, k);
    assert (done + [id])[..|done|] == done;
    assert SplicedOut(left, k) == [m];
    assert failed + DeleteFailures(s, done) + [DeleteFailure(id, [m])] == failed + DeleteFailures(s, done + [id]);
  }

  lemma ConformingInit(s: seq<Message>, ids: seq<string>)
    requires Conforming(s, ids) && ids != []
    ensures Conforming(s, ids[..|ids| - 1]) && FindIndex(s, ids[|ids| - 1]) >= 0
    ensures ids[|ids| - 1] !in ids[..|ids| - 1]
  {
    var init := ids[..|ids| - 1];
    assert forall i :: 0 <= i < |init| ==> init[i] == ids[i];
  }

  lemma HandledSnoc(g: Guard, s: seq<Message>, ids: seq<string>)
    requires s != [] && ids != [] && ids[|ids| - 1] !in ids[..|ids| - 1]
    ensures var done, id := Handled(g, s, ids[..|ids| - 1]), ids[|ids| - 1];
            && id !in done
            && (g == AsWritten ==> s[0].id !in done)
            && Handled(g, s, ids) == if g == AsWritten && id == s[0].id then done else done + [id]
  {
    ExceptContents(ids[..|ids| - 1], s[0].id);
    assert ids == ids[..|ids| - 1] + [ids[|ids| - 1]];
  }

  /**
   * The exact result for a conforming reply, in any order: the success list loses exactly the handled
   * ids, and `failed` gains exactly their messages. As written, the first message is never handled.
   */
  lemma {:induction false} DeleteFailuresExactly(g: Guard, r: ProcessorResult, ids: seq<string>)
    requires r.success != [] && Conforming(r.success, ids)
    ensures var handled := Handled(g, r.success, ids);
            FailAll(g, r, ids)
            == ProcessorResult(Without(r.success, handled), r.failed + DeleteFailures(r.success, handled))
  {
    if ids == [] {
      WithoutNothing(r.success);
      assert r.failed + [] == r.failed;
    } else {
      var init, id := ids[..|ids| - 1], ids[|ids| - 1];
      ConformingInit(r.success, ids);
      DeleteFailuresExactly(g, r, init);
      HandledSnoc(g, r.success, ids);
      FailOneExactly(g, r.success, r.failed, Handled(g, r.success, init), id);
    }
  }

  /**
   * The reported lists: those of `process` when nothing failed to be deleted; those of the loop, exactly, for a
   * conforming reply; and after an error no success, with one failure for each message, in order, behind the others.
   */
  lemma AcknowledgedExactly(g: Guard, r: ProcessorResult, reply: DeleteReply)
    ensures r.success == [] || reply == Deleted(None) || reply == Deleted(Some([])) ==> Acknowledged(g, r, reply) == r
    ensures r.success != [] && reply.Deleted? && reply.failed.Some? && Conforming(r.success, reply.failed.value) ==>
              var handled := Handled(g, r.success, reply.failed.value);
              Acknowledged(g, r, reply)
              == ProcessorResult(Without(r.success, handled), r.failed + DeleteFailures(r.success, handled))
    ensures r.success != [] && reply.DeleteThrew? ==>
              Acknowledged(g, r, reply)
              == ProcessorResult([], r.failed + seq(|r.success|, i requires 0 <= i < |r.success| =>
                                                      SqsMessageError(reply.error, Some(r.success[i]))))
  {
    if r.success != [] && reply.Deleted? && reply.failed.Some? && Conforming(r.success, reply.failed.value) {
      DeleteFailuresExactly(g, r, reply.failed.value);
    }
  }

  /** One failure for each id, in order, each with the message of that id. */
  lemma {:induction false} DeleteFailuresInOrder(s: seq<Message>, ids: seq<string>, k: nat)
    requires k < |ids|
    ensures |DeleteFailures(s, ids)| == |ids|
    ensures var e := DeleteFailures(s, ids)[k];
            && e.SqsMessageError? && e.error == DeleteError(ids[k])
            && (e.message == None <==> forall m :: m in s ==> m.id != ids[k])
            && (e.message.Some? ==> e.message.value in s && e.message.value.id == ids[k])
  {
    var init := ids[..|ids| - 1];
    if k < |init| {
      DeleteFailuresInOrder(s, init, k);
    } else if init != [] {
      DeleteFailuresInOrder(s, init, 0);
    }
    var index := FindIndex(s, ids[k]);
    if index >= 0 {
      assert s[index] in s;
    } else {
      assert forall m :: m in s ==> exists j :: 0 <= j < |s| && s[j] == m;
    }
  }

  /** What is left is left in order: exactly the messages whose id is not listed. */
  lemma WithoutInOrder(a: seq<Message>, b: seq<Message>, m: Message, ids: seq<string>)
    ensures Without(a + b, ids) == Without(a, ids) + Without(b, ids)
    ensures Without([m], ids) == if m.id in ids then [] else [m]
  {
    WithoutConcat(a, b, ids);
  }

  /** As written: the original head, then the tail without the failed ids. */
  lemma HeadIsNeverMoved(r: ProcessorResult, ids: seq<string>)
    requires r.success != [] && Conforming(r.success, ids)
    ensures FailAll(AsWritten, r, ids).success == [r.success[0]] + Without(r.success[1..], ids)
  {
    var s := r.success;
    DeleteFailuresExactly(AsWritten, r, ids);
    ExceptContents(ids, s[0].id);
    WithoutKeepsHead(s, Except(ids, s[0].id));
    forall m | m in s[1..]
      ensures m.id != s[0].id
    {
      var i :| 0 <= i < |s[1..]| && s[1..][i] == m;
      assert s[i + 1] == m;
    }
    WithoutSameIds(s[1..], Except(ids, s[0].id), ids);
  }

  lemma {:induction false} WithoutSameIds(s: seq<Message>, a: seq<string>, b: seq<string>)
    requires forall m :: m in s ==> (m.id in a <==> m.id in b)
    ensures Without(s, a) == Without(s, b)
  {
    if s != [] {
      WithoutSameIds(s[..|s| - 1], a, b);
    }
  }

  /** The replies on which the guard does no harm: requested ids, each at most once, and not the first one. */
  predicate Harmless(s: seq<Message>, ids: seq<string>)
    requires s != []
  {
    Conforming(s, ids) && s[0].id !in ids
  }

  lemma HarmlessAgrees(r: ProcessorResult, ids: seq<string>)
    requires r.success != [] && Harmless(r.success, ids)
    ensures FailAll(AsWritten, r, ids) == FailAll(Intended, r, ids)
    ensures FailAll(Intended, r, ids).success == Without(r.success, ids)
  {
    DeleteFailuresExactly(AsWritten, r, ids);
    DeleteFailuresExactly(Intended, r, ids);
    ExceptContents(ids, r.success[0].id);
  }

  /** The id that first makes a reply harmful. */
  lemma {:induction false} FirstHarm(s: seq<Message>, ids: seq<string>) returns (n: nat)
    requires s != [] && DistinctIds(s) && !Harmless(s, ids)
    ensures n < |ids| && Harmless(s, ids[..n]) && !Harmless(s, ids[..n] + [ids[n]])
  {
    var init := ids[..|ids| - 1];
    assert ids == init + [ids[|ids| - 1]];
    if Harmless(s, init) {
      n := |ids| - 1;
    } else {
      n := FirstHarm(s, init);
      assert init[..n] == ids[..n];
    }
  }

  lemma FailAllSnoc(g: Guard, r: ProcessorResult, ids: seq<string>, id: string)
    ensures FailAll(g, r, ids + [id]) == FailOne(g, FailAll(g, r, ids), id)
  {
    assert (ids + [id])[..|ids|] == ids;
  }

  lemma {:induction false} FailAllConcat(g: Guard, r: ProcessorResult, a: seq<string>, b: seq<string>)
    ensures FailAll(g, r, a + b) == FailAll(g, FailAll(g, r, a), b)
  {
    if b == [] {
      assert a + b == a;
    } else {
      var init, last := b[..|b| - 1], b[|b| - 1];
      FailAllConcat(g, r, a, init);
      LastOfConcat(a, b);
      FailAllSnoc(g, r, a + init, last);
      FailAllSnoc(g, FailAll(g, r, a), init, last);
    }
  }

  /** `failed` only grows. */
  lemma {:induction false} FailAllGrows(g: Guard, r: ProcessorResult, ids: seq<string>)
    ensures r.failed <= FailAll(g, r, ids).failed
  {
    if ids != [] {
      FailAllGrows(g, r, ids[..|ids| - 1]);
    }
  }

  /** A guard that skips an id goes on to push another id first, or nothing at all. */
  lemma {:induction false} SkippedIsNotPushedFirst(g: Guard, r: ProcessorResult, ids: seq<string>, id: string)
    requires !Passes(g, FindIndex(r.success, id))
    ensures var after := FailAll(g, r, ids);
            after == r || (|after.failed| > |r.failed| && after.failed[|r.failed|].error != DeleteError(id))
  {
    if ids != [] {
      SkippedIsNotPushedFirst(g, r, ids[..|ids| - 1], id);
      FailAllGrows(g, r, ids[..|ids| - 1]);
    }
  }

  /** Where one guard skips an id that the other pushes, the lists stay different whatever follows. */
  lemma SkipAgainstPush(skips: Guard, pushes: Guard, r: ProcessorResult, id: string, rest: seq<string>)
    requires !Passes(skips, FindIndex(r.success, id)) && Passes(pushes, FindIndex(r.success, id))
    ensures FailAll(skips, FailOne(skips, r, id), rest) != FailAll(pushes, FailOne(pushes, r, id), rest)
  {
    SkippedIsNotPushedFirst(skips, r, rest, id);
    FailAllGrows(pushes, FailOne(pushes, r, id), rest);
    var pushed := FailOne(pushes, r, id).failed;
    assert pushed[|r.failed|].error == DeleteError(id);
    assert FailAll(pushes, FailOne(pushes, r, id), rest).failed[|r.failed|] == pushed[|r.failed|];
  }

  /** After a harmless prefix, a harmful id other than the first one names no message that is left. */
  lemma HarmfulIdIsGone(s: seq<Message>, ids: seq<string>, id: string)
    requires s != [] && Harmless(s, ids) && !Harmless(s, ids + [id]) && id != s[0].id
    ensures FindIndex(Without(s, ids), id) == -1
  {
    WithoutContents(s, ids);
    var left := Without(s, ids);
    var index := FindIndex(left, id);
    if index >= 0 {
      assert left[index] in left;
      SameIdSameMessage(s, left[index]);
      HarmlessSnoc(s, ids, id);
      assert false;
    }
  }

  /** There the two guards part. */
  lemma GuardsPart(s: seq<Message>, ids: seq<string>, id: string)
    requires s != [] && Harmless(s, ids) && !Harmless(s, ids + [id])
    ensures var index := FindIndex(Without(s, ids), id); Passes(AsWritten, index) != Passes(Intended, index)
  {
    if id == s[0].id {
      WithoutKeepsHead(s, ids);
      assert Without(s, ids)[0].id == id;
    } else {
      HarmfulIdIsGone(s, ids, id);
    }
  }

  lemma HarmlessSnoc(s: seq<Message>, ids: seq<string>, id: string)
    requires s != [] && Harmless(s, ids) && id !in ids && id != s[0].id && FindIndex(s, id) >= 0
    ensures Harmless(s, ids + [id])
  {
  }

  /**
   * The exact condition over all replies: the loop does what its comment says exactly when the reply names
   * requested messages, each at most once, and not the first one.
   */
  lemma GuardIsHarmlessExactly(r: ProcessorResult, ids: seq<string>)
    requires r.success != [] && DistinctIds(r.success)
    ensures FailAll(AsWritten, r, ids) == FailAll(Intended, r, ids) <==> Harmless(r.success, ids)
  {
    if Harmless(r.success, ids) {
      HarmlessAgrees(r, ids);
    } else {
      var n := FirstHarm(r.success, ids);
      var rest := ids[n + 1..];
      assert ids == ids[..n] + [ids[n]] + rest;
      HarmlessAgrees(r, ids[..n]);
      GuardsPart(r.success, ids[..n], ids[n]);
      var common := FailAll(Intended, r, ids[..n]);
      FailPast(AsWritten, r, ids[..n], ids[n], rest);
      FailPast(Intended, r, ids[..n], ids[n], rest);
      if Passes(AsWritten, FindIndex(common.success, ids[n])) {
        SkipAgainstPush(Intended, AsWritten, common, ids[n], rest);
      } else {
        SkipAgainstPush(AsWritten, Intended, common, ids[n], rest);
      }
    }
  }

  lemma FailPast(g: Guard, r: ProcessorResult, before: seq<string>, id: string, rest: seq<string>)
    ensures FailAll(g, r, before + [id] + rest) == FailAll(g, FailOne(g, FailAll(g, r, before), id), rest)
  {
    FailAllConcat(g, r, before + [id], rest);
    assert (before + [id])[..|before|] == before;
  }

  /** A lost failure: the only message could not be deleted, and is still reported as a success. */
  lemma HeadFailureIsLost()
    ensures var r := ProcessorResult([Message("a", 0)], []);
            && Conforming(r.success, ["a"])
            && FailAll(AsWritten, r, ["a"]) == r
            && FailAll(Intended, r, ["a"])
               == ProcessorResult([], [SqsMessageError(DeleteError("a"), Some(Message("a", 0)))])
  {
    var r := ProcessorResult([Message("a", 0)], []);
    assert FindIndex(r.success, "a") == 0;
    assert ["a"][..0] == [];
    assert FailAll(Intended, r, ["a"]) == FailOne(Intended, FailAll(Intended, r, []), "a");
  }

  /** An id outside the request takes the last message with it, and with none left names `undefined`. */
  lemma UnknownIdMovesTheLast(r: ProcessorResult, id: string)
    requires forall m :: m in r.success ==> m.id != id
    ensures FailOne(Intended, r, id) == r
    ensures r.success != [] ==>
              FailOne(AsWritten, r, id)
              == ProcessorResult(r.success[..|r.success| - 1],
                                 r.failed + [SqsMessageError(DeleteError(id), Some(r.success[|r.success| - 1]))])
    ensures r.success == [] ==>
              FailOne(AsWritten, r, id) == ProcessorResult([], r.failed + [SqsMessageError(DeleteError(id), None)])
  {
    assert forall j :: 0 <= j < |r.success| ==> r.success[j] in r.success;
  }

  /** No failure names `undefined`, when none did before and the reply conforms. */
  predicate AllNamed(failed: seq<Thrown>) {
    forall e :: e in failed ==> e.SqsMessageError? && e.message.Some?
  }

  /** The success list after n messages were taken out of it, none of them the first while another was left. */
  predicate Drained(s: seq<Message>, left: seq<Message>, n: nat)
    requires s != []
  {
    && |left| == (if n <= |s| then |s| - n else 0)
    && (left != [] ==> left[0] == s[0])
  }

  /** An id of the first message changes nothing; any other takes one message out, or names `undefined`. */
  lemma FailOneDrains(r: ProcessorResult, s: seq<Message>, id: string, n: nat)
    requires s != [] && Drained(s, r.success, n)
    ensures var after := FailOne(AsWritten, r, id);
            && Drained(s, after.success, if id == s[0].id then n else n + 1)
            && (AllNamed(after.failed) <==> AllNamed(r.failed) && r.success != [])
  {
    var index := FindIndex(r.success, id);
    var after := FailOne(AsWritten, r, id);
    if r.success != [] && id == s[0].id {
      assert index == 0;
    } else {
      assert index != 0;
      NamedSnoc(r.failed, DeleteFailure(id, SplicedOut(r.success, index)));
    }
  }

  lemma NamedSnoc(failed: seq<Thrown>, e: Thrown)
    ensures AllNamed(failed + [e]) <==> AllNamed(failed) && e.SqsMessageError? && e.message.Some?
  {
  }
  lemma {:induction false} DeleteFailuresNamed(s: seq<Message>, ids: seq<string>)
    requires forall i :: 0 <= i < |ids| ==> FindIndex(s, ids[i]) >= 0
    ensures AllNamed(DeleteFailures(s, ids))
  {
    if ids != [] {
      assert forall i :: 0 <= i < |ids| - 1 ==> ids[..|ids| - 1][i] == ids[i];
      DeleteFailuresNamed(s, ids[..|ids| - 1]);
    }
  }

  /** Before its last id, the reply names fewer ids other than the first requested one than messages were requested. */
  predicate Suffices(s: seq<Message>, ids: seq<string>)
    requires s != []
  {
    ids == [] || |Except(ids[..|ids| - 1], s[0].id)| < |s|
  }

  /**
   * The loop over any list of ids, known or not, repeated or not: every id other than the first requested one takes
   * one message out; and all failures name a message exactly when there was one left for each.
   */
  lemma {:induction false} FailAllDrains(r: ProcessorResult, ids: seq<string>)
    requires r.success != []
    ensures Drained(r.success, FailAll(AsWritten, r, ids).success, |Except(ids, r.success[0].id)|)
    ensures AllNamed(FailAll(AsWritten, r, ids).failed) <==> AllNamed(r.failed) && Suffices(r.success, ids)
  {
    if ids != [] {
      var init, id := ids[..|ids| - 1], ids[|ids| - 1];
      FailAllDrains(r, init);
      FailOneDrains(FailAll(AsWritten, r, init), r.success, id, |Except(init, r.success[0].id)|);
    }
  }

  /** What the reply alone decides about the reported failures. */
  predicate LeavesNamed(s: seq<Message>, reply: DeleteReply) {
    s != [] && reply.Deleted? && reply.failed.Some? ==> Suffices(s, reply.failed.value)
  }

  /**
   * For every reply, no reported failure names `undefined` - so that the request for visibility 0 can be built -
   * exactly when none did before and the reply does not ask for more messages than there are.
   */
  lemma AcknowledgedIsNamed(r: ProcessorResult, reply: DeleteReply)
    ensures AllNamed(Acknowledged(AsWritten, r, reply).failed) <==> AllNamed(r.failed) && LeavesNamed(r.success, reply)
  {
    if r.success != [] {
      match reply {
        case DeleteThrew(error) => NamedConcat(r.failed, FailEach(r.success, error));
        case Deleted(None) =>
        case Deleted(Some(ids)) => FailAllDrains(r, ids);
      }
    }
  }

  lemma NamedConcat(a: seq<Thrown>, b: seq<Thrown>)
    requires AllNamed(b)
    ensures AllNamed(a + b) <==> AllNamed(a)
  {
    forall e | e in a
      ensures e in a + b
    {
    }
  }

  /** A conforming reply never asks for more messages than there are. */
  lemma ConformingReplySuffices(s: seq<Message>, ids: seq<string>)
    requires s != [] && Conforming(s, ids)
    ensures Suffices(s, ids)
  {
    var r := ProcessorResult(s, []);
    DeleteFailuresExactly(AsWritten, r, ids);
    var handled := Handled(AsWritten, s, ids);
    ExceptContents(ids, s[0].id);
    forall i | 0 <= i < |handled|
      ensures FindIndex(s, handled[i]) >= 0
    {
      assert handled[i] in ids;
    }
    DeleteFailuresNamed(s, handled);
    assert [] + DeleteFailures(s, handled) == DeleteFailures(s, handled);
    FailAllDrains(r, ids);
  }

  /** Two unknown ids and one message: the second failure names `undefined`. */
  lemma UndefinedIsReported()
    ensures var r := ProcessorResult([Message("a", 0)], []);
            FailAll(AsWritten, r, ["x", "y"])
            == ProcessorResult([], [SqsMessageError(DeleteError("x"), Some(Message("a", 0))),
                                    SqsMessageError(DeleteError("y"), None)])
  {
    var r := ProcessorResult([Message("a", 0)], []);
    assert ["x", "y"][..1] == ["x"] && ["x"][..0] == [];
    UnknownIdMovesTheLast(r, "x");
    var r1 := FailAll(AsWritten, r, ["x"]);
    assert r1 == FailOne(AsWritten, r, "x");
    UnknownIdMovesTheLast(r1, "y");
    assert FailAll(AsWritten, r, ["x", "y"]) == FailOne(AsWritten, r1, "y");
  }
}
