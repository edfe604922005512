/**
 * `modules/sqs/src/consumer/processor/`: the race between a handler and its timeout, and the
 * sequential and the concurrent processor. A schedule lists, in the order in which they happen,
 * the settlements of handlers and the expiries of timers; every theorem is about every schedule.
 */
module Processors {
  import opened Sequences

  /** `Message`: `MessageId` and `ReceiptHandle`. */
  datatype Message = Message(id: string, receipt: nat)

  /** What a rejected promise or a failed request carries. */
  datatype Cause =
    | HandlerError(code: nat)
    | TimeoutError(duration: nat)
    | DeleteError(id: string)
    | RequestError(code: nat)

  /** A rejection reason; the message of an `SqsMessageError` can be `undefined`. */
  datatype Thrown =
    | SqsMessageError(error: Cause, message: Option<Message>)
    | Foreign(error: Cause)

  datatype Outcome = Fulfilled(message: Message) | Rejected(reason: Thrown)

  // ---------------------------------------------------------------- one handler against its timer

  datatype HandlerEvent = Fulfils | Rejects(code: nat) | TimerExpires

  datatype Timer = NoTimer | Armed(duration: nat) | Expired | Cleared

  /**
   * One call of `executeHandler`. The handler keeps running after a timeout: `Promise.race` does
   * not cancel it. Once the race is settled its continuation, with the `finally` that clears the
   * timer, runs before any timer fires, so both belong to one step.
   */
  datatype Execution = Execution(message: Message, running: bool, timer: Timer, outcome: Option<Outcome>)

  function StartHandler(message: Message, timeout: Option<nat>): Execution {
    Execution(message, true, if timeout.Some? then Armed(timeout.value) else NoTimer, None)
  }

  function ClearTimer(t: Timer): Timer {
    if t.Armed? then Cleared else t
  }

  function Settle(x: Execution, outcome: Outcome): Execution {
    if x.outcome.Some? then x else x.(outcome := Some(outcome), timer := ClearTimer(x.timer))
  }

  function HandlerStep(x: Execution, ev: HandlerEvent): Execution {
    match ev
    case Fulfils =>
      if x.running then Settle(x.(running := false), Fulfilled(x.message)) else x
    case Rejects(code) =>
      if x.running
      then Settle(x.(running := false), Rejected(SqsMessageError(HandlerError(code), Some(x.message))))
      else x
    case TimerExpires =>
      if x.timer.Armed? then
        Settle(x.(timer := Expired), Rejected(SqsMessageError(TimeoutError(x.timer.duration), Some(x.message))))
      else x
  }

  function HandlerRun(x: Execution, schedule: seq<HandlerEvent>): Execution {
    if schedule == [] then x
    else HandlerStep(HandlerRun(x, schedule[..|schedule| - 1]), schedule[|schedule| - 1])
  }

  lemma HandlerRunSnoc(x: Execution, schedule: seq<HandlerEvent>, ev: HandlerEvent)
    ensures HandlerRun(x, schedule + [ev]) == HandlerStep(HandlerRun(x, schedule), ev)
  {
    assert (schedule + [ev])[..|schedule|] == schedule;
  }

  /** `executeHandler` along a schedule; no outcome means that its promise is still pending. */
  method ExecuteHandler(message: Message, handleMessageTimeout: Option<nat>, schedule: seq<HandlerEvent>)
    returns (x: Execution)
    ensures x == HandlerRun(StartHandler(message, handleMessageTimeout), schedule)
  {
    var timeoutResponse := if handleMessageTimeout.Some? then Armed(handleMessageTimeout.value) else NoTimer;
    var outcome: Option<Outcome> := None;
    var running := true;
    for i := 0 to |schedule|
      invariant Execution(message, running, timeoutResponse, outcome)
                == HandlerRun(StartHandler(message, handleMessageTimeout), schedule[..i])
    {
      assert schedule[..i + 1][..i] == schedule[..i];
      var settled: Option<Outcome> := None;
      match schedule[i] {
        case Fulfils =>
          settled := if running then Some(Fulfilled(message)) else None;
          running := false;
        case Rejects(code) =>
          settled := if running then Some(Rejected(SqsMessageError(HandlerError(code), Some(message)))) else None;
          running := false;
        case TimerExpires =>
          if timeoutResponse.Armed? {
            settled := Some(Rejected(SqsMessageError(TimeoutError(timeoutResponse.duration), Some(message))));
            timeoutResponse := Expired;
          }
      }
      if settled.Some? && outcome == None {
        outcome := settled;
        timeoutResponse := ClearTimer(timeoutResponse);
      }
    }
    assert schedule[..|schedule|] == schedule;
    x := Execution(message, running, timeoutResponse, outcome);
  }

  /** An event that settles a pending race: anything but the expiry of a timer that was never set. */
  predicate Decisive(ev: HandlerEvent, timeout: Option<nat>) {
    ev == TimerExpires ==> timeout.Some?
  }

  /** The first decisive event of a schedule. */
  function FirstDecisive(schedule: seq<HandlerEvent>, timeout: Option<nat>): (first: Option<HandlerEvent>)
    ensures first.Some? <==> exists i :: 0 <= i < |schedule| && Decisive(schedule[i], timeout)
    ensures first.Some? ==>
              exists i :: 0 <= i < |schedule| && schedule[i] == first.value && Decisive(schedule[i], timeout)
                          && forall j :: 0 <= j < i ==> !Decisive(schedule[j], timeout)
  {
    if schedule == [] then None
    else
      var init := schedule[..|schedule| - 1];
      var earlier := FirstDecisive(init, timeout);
      assert forall i :: 0 <= i < |init| ==> init[i] == schedule[i];
      if earlier.Some? then earlier
      else if Decisive(schedule[|schedule| - 1], timeout) then
        assert forall j :: 0 <= j < |init| ==> !Decisive(init[j], timeout);
        Some(schedule[|schedule| - 1])
      else None
  }

  /**
   * Under every order of settlement and expiry, the first decisive event alone fixes the outcome and what becomes of
   * the timer; without one both stay as they are, and the handler is still running exactly when it has not settled by
   * itself.
   */
  lemma {:induction false} FirstDecisiveEventWins(message: Message, timeout: Option<nat>, schedule: seq<HandlerEvent>)
    ensures var x := HandlerRun(StartHandler(message, timeout), schedule);
            var first := FirstDecisive(schedule, timeout);
            && x.message == message
            && x.outcome == (match first
                             case None => None
                             case Some(Fulfils) => Some(Fulfilled(message))
                             case Some(Rejects(code)) =>
                               Some(Rejected(SqsMessageError(HandlerError(code), Some(message))))
                             case Some(TimerExpires) =>
                               if timeout == None then None
                               else Some(Rejected(SqsMessageError(TimeoutError(timeout.value), Some(message)))))
            && x.timer == (if timeout == None then NoTimer
                           else if first == None then Armed(timeout.value)
                           else if first == Some(TimerExpires) then Expired
                           else Cleared)
            && (x.running <==> forall i :: 0 <= i < |schedule| ==> schedule[i] == TimerExpires)
  {
    if schedule != [] {
      var init := schedule[..|schedule| - 1];
      FirstDecisiveEventWins(message, timeout, init);
      assert forall i :: 0 <= i < |init| ==> init[i] == schedule[i];
      if FirstDecisive(init, timeout) == None {
        assert forall i :: 0 <= i < |init| ==> !Decisive(init[i], timeout);
      }
    }
  }

  /** A settled race never changes its outcome, and its timer stays off. */
  lemma {:induction false} SettlesOnce(x: Execution, schedule: seq<HandlerEvent>)
    requires x.outcome.Some? && !x.timer.Armed?
    ensures HandlerRun(x, schedule).outcome == x.outcome && !HandlerRun(x, schedule).timer.Armed?
  {
    if schedule != [] {
      SettlesOnce(x, schedule[..|schedule| - 1]);
    }
  }

  // ---------------------------------------------------------------- gathering the results

  /** `SqsMessageProcessorResult` */
  datatype ProcessorResult = ProcessorResult(success: seq<Message>, failed: seq<Thrown>)

  /** What the loop of the sequential processor pushes for one settled call. */
  function PushSequential(r: ProcessorResult, outcome: Outcome): ProcessorResult {
    match outcome
    case Fulfilled(message) => r.(success := r.success + [message])
    case Rejected(reason) => r.(failed := r.failed + [reason])
  }

  /** What the loop of the concurrent processor pushes: reasons that are no `SqsMessageError` are dropped. */
  function PushConcurrent(r: ProcessorResult, outcome: Outcome): ProcessorResult {
    match outcome
    case Fulfilled(message) => r.(success := r.success + [message])
    case Rejected(reason) => if reason.SqsMessageError? then r.(failed := r.failed + [reason]) else r
  }

  function GatherSequential(outcomes: seq<Outcome>): ProcessorResult {
    if outcomes == [] then ProcessorResult([], [])
    else PushSequential(GatherSequential(outcomes[..|outcomes| - 1]), outcomes[|outcomes| - 1])
  }

  function GatherConcurrent(outcomes: seq<Outcome>): ProcessorResult {
    if outcomes == [] then ProcessorResult([], [])
    else PushConcurrent(GatherConcurrent(outcomes[..|outcomes| - 1]), outcomes[|outcomes| - 1])
  }

  lemma GatherSequentialSnoc(outcomes: seq<Outcome>, o: Outcome)
    ensures GatherSequential(outcomes + [o]) == PushSequential(GatherSequential(outcomes), o)
    ensures GatherConcurrent(outcomes + [o]) == PushConcurrent(GatherConcurrent(outcomes), o)
  {
    assert (outcomes + [o])[..|outcomes|] == outcomes;
  }

  /** One result after another. */
  function Joined(a: ProcessorResult, b: ProcessorResult): ProcessorResult {
    ProcessorResult(a.success + b.success, a.failed + b.failed)
  }

  lemma JoinedPush(a: ProcessorResult, b: ProcessorResult, o: Outcome)
    ensures PushSequential(Joined(a, b), o) == Joined(a, PushSequential(b, o))
    ensures PushConcurrent(Joined(a, b), o) == Joined(a, PushConcurrent(b, o))
  {
    match o {
      case Fulfilled(m) => Associative(a.success, b.success, [m]);
      case Rejected(e) => Associative(a.failed, b.failed, [e]);
    }
  }

  lemma GatherSingle(m: Message, e: Thrown)
    ensures GatherSequential([Fulfilled(m)]) == ProcessorResult([m], [])
    ensures GatherSequential([Rejected(e)]) == ProcessorResult([], [e])
    ensures GatherConcurrent([Fulfilled(m)]) == ProcessorResult([m], [])
    ensures GatherConcurrent([Rejected(e)]) == ProcessorResult([], if e.SqsMessageError? then [e] else [])
  {
    GatherSequentialSnoc([], Fulfilled(m));
    GatherSequentialSnoc([], Rejected(e));
    assert [] + [Fulfilled(m)] == [Fulfilled(m)] && [] + [Rejected(e)] == [Rejected(e)];
  }

  /**
   * Both loops list the fulfilled messages as successes and the reasons as failures, in the order of the outcomes; the
   * concurrent one passes over reasons that are no `SqsMessageError`.
   */
  lemma {:induction false} GatheringInOrder(a: seq<Outcome>, b: seq<Outcome>, m: Message, e: Thrown)
    ensures GatherSequential([Fulfilled(m)]) == ProcessorResult([m], [])
    ensures GatherSequential([Rejected(e)]) == ProcessorResult([], [e])
    ensures GatherConcurrent([Fulfilled(m)]) == ProcessorResult([m], [])
    ensures GatherConcurrent([Rejected(e)]) == ProcessorResult([], if e.SqsMessageError? then [e] else [])
    ensures GatherSequential(a + b).success == GatherSequential(a).success + GatherSequential(b).success
    ensures GatherSequential(a + b).failed == GatherSequential(a).failed + GatherSequential(b).failed
    ensures GatherConcurrent(a + b).success == GatherConcurrent(a).success + GatherConcurrent(b).success
    ensures GatherConcurrent(a + b).failed == GatherConcurrent(a).failed + GatherConcurrent(b).failed
  {
    GatherSingle(m, e);
    if b == [] {
      assert a + b == a;
    } else {
      var init, o := b[..|b| - 1], b[|b| - 1];
      GatheringInOrder(a, init, m, e);
      LastOfConcat(a, b);
      GatherSequentialSnoc(a + init, o);
      GatherSequentialSnoc(init, o);
      JoinedPush(GatherSequential(a), GatherSequential(init), o);
      JoinedPush(GatherConcurrent(a), GatherConcurrent(init), o);
    }
  }

  predicate OnlyMessageErrors(outcomes: seq<Outcome>) {
    forall i :: 0 <= i < |outcomes| && outcomes[i].Rejected? ==> outcomes[i].reason.SqsMessageError?
  }

  /** The two gathering loops agree exactly when nothing but `SqsMessageError` was thrown. */
  lemma {:induction false} GatheringAgreesExactly(outcomes: seq<Outcome>)
    ensures GatherConcurrent(outcomes) == GatherSequential(outcomes) <==> OnlyMessageErrors(outcomes)
    ensures GatherConcurrent(outcomes).success == GatherSequential(outcomes).success
  {
    GatheringLengths(outcomes);
    if outcomes != [] {
      var init := outcomes[..|outcomes| - 1];
      GatheringAgreesExactly(init);
      assert forall i :: 0 <= i < |init| ==> outcomes[i] == init[i];
    }
  }

  /** Where the loops differ, the concurrent one reports fewer failures. */
  lemma {:induction false} GatheringLengths(outcomes: seq<Outcome>)
    ensures |GatherConcurrent(outcomes).failed| <= |GatherSequential(outcomes).failed|
    ensures !OnlyMessageErrors(outcomes) ==> |GatherConcurrent(outcomes).failed| < |GatherSequential(outcomes).failed|
  {
    if outcomes != [] {
      var init := outcomes[..|outcomes| - 1];
      GatheringLengths(init);
      assert forall i :: 0 <= i < |init| ==> outcomes[i] == init[i];
    }
  }

  // ---------------------------------------------------------------- the sequential processor

  /** The outcome of each message when its handler sees its own schedule. */
  function OutcomeOf(message: Message, timeout: Option<nat>, schedule: seq<HandlerEvent>): Option<Outcome> {
    HandlerRun(StartHandler(message, timeout), schedule).outcome
  }

  /** The outcomes of all messages, or None while one of them is pending. */
  function AllOutcomes(messages: seq<Message>, timeout: Option<nat>, schedules: seq<seq<HandlerEvent>>)
    : Option<seq<Outcome>>
    requires |schedules| == |messages|
  {
    if messages == [] then Some([])
    else
      var n := |messages| - 1;
      var earlier := AllOutcomes(messages[..n], timeout, schedules[..n]);
      var last := OutcomeOf(messages[n], timeout, schedules[n]);
      if earlier.Some? && last.Some? then Some(earlier.value + [last.value]) else None
  }

  /** The result of `SequentialMessageProcessor.process`; None while it is pending. */
  function SequentialResult(messages: seq<Message>, timeout: Option<nat>, schedules: seq<seq<HandlerEvent>>)
    : Option<ProcessorResult>
    requires |schedules| == |messages|
  {
    var outcomes := AllOutcomes(messages, timeout, schedules);
    if outcomes.Some? then Some(GatherSequential(outcomes.value)) else None
  }

  /**
   * The result is there exactly when every call has settled, and it is gathered from their outcomes in the order of the
   * messages.
   */
  lemma {:induction false} ResultInMessageOrder(
    messages: seq<Message>, timeout: Option<nat>, schedules: seq<seq<HandlerEvent>>)
    requires |schedules| == |messages|
    ensures SequentialResult(messages, timeout, schedules).Some?
            <==> forall i :: 0 <= i < |messages| ==> OutcomeOf(messages[i], timeout, schedules[i]).Some?
    ensures forall outcomes: seq<Outcome> ::
              |outcomes| == |messages|
              && (forall i :: 0 <= i < |messages| ==>
                    OutcomeOf(messages[i], timeout, schedules[i]) == Some(outcomes[i]))
              ==> SequentialResult(messages, timeout, schedules) == Some(GatherSequential(outcomes))
  {
    OutcomesInMessageOrder(messages, timeout, schedules);
    forall outcomes: seq<Outcome> |
      |outcomes| == |messages|
      && forall i :: 0 <= i < |messages| ==> OutcomeOf(messages[i], timeout, schedules[i]) == Some(outcomes[i])
      ensures AllOutcomes(messages, timeout, schedules) == Some(outcomes)
    {
      assert AllOutcomes(messages, timeout, schedules).Some?;
      assert AllOutcomes(messages, timeout, schedules).value == outcomes;
    }
  }

  lemma {:induction false} OutcomesInMessageOrder(
    messages: seq<Message>, timeout: Option<nat>, schedules: seq<seq<HandlerEvent>>)
    requires |schedules| == |messages|
    ensures var all := AllOutcomes(messages, timeout, schedules);
            && (all.Some? <==> forall i :: 0 <= i < |messages| ==> OutcomeOf(messages[i], timeout, schedules[i]).Some?)
            && (all.Some? ==>
                  && |all.value| == |messages|
                  && forall i :: 0 <= i < |messages| ==>
                       OutcomeOf(messages[i], timeout, schedules[i]) == Some(all.value[i]))
  {
    if messages != [] {
      var n := |messages| - 1;
      OutcomesInMessageOrder(messages[..n], timeout, schedules[..n]);
      assert forall i :: 0 <= i < n ==> messages[..n][i] == messages[i] && schedules[..n][i] == schedules[i];
    }
  }

  lemma AllOutcomesSnoc(messages: seq<Message>, timeout: Option<nat>, schedules: seq<seq<HandlerEvent>>, i: nat)
    requires |schedules| == |messages| && i < |messages|
    ensures var earlier := AllOutcomes(messages[..i], timeout, schedules[..i]);
            var next := OutcomeOf(messages[i], timeout, schedules[i]);
            AllOutcomes(messages[..i + 1], timeout, schedules[..i + 1])
            == if earlier.Some? && next.Some? then Some(earlier.value + [next.value]) else None
  {
    assert messages[..i + 1][..i] == messages[..i];
    assert schedules[..i + 1][..i] == schedules[..i];
  }

  /** A pending message keeps the whole batch pending. */
  lemma {:induction false} PendingStaysPending(
    messages: seq<Message>, timeout: Option<nat>, schedules: seq<seq<HandlerEvent>>, i: nat)
    requires |schedules| == |messages| && i < |messages|
    requires OutcomeOf(messages[i], timeout, schedules[i]) == None
    ensures AllOutcomes(messages, timeout, schedules) == None
  {
    var n := |messages| - 1;
    if i < n {
      PendingStaysPending(messages[..n], timeout, schedules[..n], i);
    }
  }

  /** The loop awaits one handler after the other; a handler that never settles suspends it. */
  method ProcessSequentially(messages: seq<Message>, timeout: Option<nat>, schedules: seq<seq<HandlerEvent>>)
    returns (result: Option<ProcessorResult>)
    requires |schedules| == |messages|
    ensures result == SequentialResult(messages, timeout, schedules)
  {
    var success: seq<Message> := [];
    var failed: seq<Thrown> := [];
    for i := 0 to |messages|
      invariant AllOutcomes(messages[..i], timeout, schedules[..i]).Some?
      invariant ProcessorResult(success, failed)
                == GatherSequential(AllOutcomes(messages[..i], timeout, schedules[..i]).value)
    {
      var x := ExecuteHandler(messages[i], timeout, schedules[i]);
      AllOutcomesSnoc(messages, timeout, schedules, i);
      match x.outcome {
        case None =>
          PendingStaysPending(messages, timeout, schedules, i);
          return None;
        case Some(Fulfilled(resultMessage)) => success := success + [resultMessage];
        case Some(Rejected(error)) => failed := failed + [error];
      }
    }
    assert messages[..|messages|] == messages && schedules[..|messages|] == schedules;
    result := Some(ProcessorResult(success, failed));
  }

  // ---------------------------------------------------------------- the concurrent processor

  /** An event of the handler, or of the timer, of one message. */
  datatype Settlement = Settlement(index: nat, event: HandlerEvent)

  /** All calls of `executeHandler`, started together. */
  function StartAll(messages: seq<Message>, timeout: Option<nat>): seq<Execution> {
    seq(|messages|, i requires 0 <= i < |messages| => StartHandler(messages[i], timeout))
  }

  function ConcurrentStep(xs: seq<Execution>, s: Settlement): seq<Execution> {
    if s.index < |xs| then xs[s.index := HandlerStep(xs[s.index], s.event)] else xs
  }

  function ConcurrentRun(xs: seq<Execution>, schedule: seq<Settlement>): (ys: seq<Execution>)
    ensures |ys| == |xs|
  {
    if schedule == [] then xs
    else ConcurrentStep(ConcurrentRun(xs, schedule[..|schedule| - 1]), schedule[|schedule| - 1])
  }

  /** `allSettled`: the outcomes in the order of the messages, or None while one is pending. */
  function SettledOutcomes(xs: seq<Execution>): Option<seq<Outcome>> {
    if xs == [] then Some([])
    else
      var earlier := SettledOutcomes(xs[..|xs| - 1]);
      var last := xs[|xs| - 1].outcome;
      if earlier.Some? && last.Some? then Some(earlier.value + [last.value]) else None
  }

  /** The result of `ConcurrentMessageProcessor.process` after an interleaving; None while it is pending. */
  function ConcurrentResult(messages: seq<Message>, timeout: Option<nat>, schedule: seq<Settlement>)
    : Option<ProcessorResult>
  {
    var outcomes := SettledOutcomes(ConcurrentRun(StartAll(messages, timeout), schedule));
    if outcomes.Some? then Some(GatherConcurrent(outcomes.value)) else None
  }

  /** Starts every handler, lets them settle in the order of the schedule, then gathers by index. */
  method ProcessConcurrently(messages: seq<Message>, timeout: Option<nat>, schedule: seq<Settlement>)
    returns (result: Option<ProcessorResult>)
    ensures result == ConcurrentResult(messages, timeout, schedule)
  {
    var promises := new Execution[|messages|](
      i requires 0 <= i < |messages| => StartHandler(messages[i], timeout));
    ghost var start := StartAll(messages, timeout);
    assert promises[..] == start;
    for k := 0 to |schedule|
      invariant promises[..] == ConcurrentRun(start, schedule[..k])
    {
      assert schedule[..k + 1][..k] == schedule[..k];
      var Settlement(i, event) := schedule[k];
      if i < promises.Length {
        promises[i] := HandlerStep(promises[i], event);
      }
    }
    assert schedule[..|schedule|] == schedule;
    ghost var xs := promises[..];
    var success: seq<Message> := [];
    var failed: seq<Thrown> := [];
    for i := 0 to promises.Length
      invariant SettledOutcomes(xs[..i]).Some?
      invariant ProcessorResult(success, failed) == GatherConcurrent(SettledOutcomes(xs[..i]).value)
    {
      assert xs[..i + 1][..i] == xs[..i];
      match promises[i].outcome {
        case None =>
          OnePendingKeepsAllPending(xs, i);
          return None;
        case Some(Fulfilled(value)) => success := success + [value];
        case Some(Rejected(reason)) =>
          if reason.SqsMessageError? {
            failed := failed + [reason];
          }
      }
    }
    assert xs[..|xs|] == xs;
    result := Some(ProcessorResult(success, failed));
  }

  lemma {:induction false} OnePendingKeepsAllPending(xs: seq<Execution>, i: nat)
    requires i < |xs| && xs[i].outcome == None
    ensures SettledOutcomes(xs) == None
  {
    if i < |xs| - 1 {
      OnePendingKeepsAllPending(xs[..|xs| - 1], i);
    }
  }

  // ---------------------------------------------------------------- the processors agree

  /** What message i sees of an interleaving. */
  function Project(schedule: seq<Settlement>, i: nat): seq<HandlerEvent> {
    if schedule == [] then []
    else
      var last := schedule[|schedule| - 1];
      Project(schedule[..|schedule| - 1], i) + if last.index == i then [last.event] else []
  }

  function Projections(schedule: seq<Settlement>, n: nat): seq<seq<HandlerEvent>> {
    seq(n, i requires 0 <= i < n => Project(schedule, i))
  }

  /** A call sees the events that are its own, in order. */
  lemma {:induction false} ProjectsInOrder(a: seq<Settlement>, b: seq<Settlement>, i: nat, j: nat, ev: HandlerEvent)
    ensures Project([Settlement(j, ev)], i) == if i == j then [ev] else []
    ensures Project(a + b, i) == Project(a, i) + Project(b, i)
  {
    ProjectSnoc([], Settlement(j, ev), i);
    assert [] + [Settlement(j, ev)] == [Settlement(j, ev)];
    if b == [] {
      assert a + b == a;
    } else {
      var init, s := b[..|b| - 1], b[|b| - 1];
      ProjectsInOrder(a, init, i, j, ev);
      LastOfConcat(a, b);
      ProjectSnoc(a + init, s, i);
      ProjectSnoc(init, s, i);
      Associative(Project(a, i), Project(init, i), if s.index == i then [s.event] else []);
    }
  }

  lemma ProjectSnoc(events: seq<Settlement>, s: Settlement, i: nat)
    ensures Project(events + [s], i) == Project(events, i) + if s.index == i then [s.event] else []
  {
    assert (events + [s])[..|events|] == events;
  }

  /** In every interleaving each execution goes through exactly its own run. */
  lemma {:induction false} InterleavingProjects(xs: seq<Execution>, schedule: seq<Settlement>, i: nat)
    requires i < |xs|
    ensures ConcurrentRun(xs, schedule)[i] == HandlerRun(xs[i], Project(schedule, i))
  {
    if schedule != [] {
      var init, last := schedule[..|schedule| - 1], schedule[|schedule| - 1];
      InterleavingProjects(xs, init, i);
      if last.index == i {
        HandlerRunSnoc(xs[i], Project(init, i), last.event);
      } else {
        assert Project(schedule, i) == Project(init, i);
      }
    }
  }

  lemma {:induction false} OutcomesAgree(
    messages: seq<Message>, timeout: Option<nat>, xs: seq<Execution>, schedules: seq<seq<HandlerEvent>>)
    requires |xs| == |messages| == |schedules|
    requires forall i :: 0 <= i < |xs| ==> xs[i] == HandlerRun(StartHandler(messages[i], timeout), schedules[i])
    ensures SettledOutcomes(xs) == AllOutcomes(messages, timeout, schedules)
  {
    if xs != [] {
      var n := |xs| - 1;
      OutcomesAgree(messages[..n], timeout, xs[..n], schedules[..n]);
    }
  }

  /** `executeHandler` rejects only with an `SqsMessageError` that carries its own message. */
  lemma {:induction false} OnlyOwnMessageErrors(
    messages: seq<Message>, timeout: Option<nat>, schedules: seq<seq<HandlerEvent>>)
    requires |schedules| == |messages|
    requires AllOutcomes(messages, timeout, schedules).Some?
    ensures var outcomes := AllOutcomes(messages, timeout, schedules).value;
            && |outcomes| == |messages|
            && OnlyMessageErrors(outcomes)
            && (forall i :: 0 <= i < |messages| ==>
                  match outcomes[i]
                  case Fulfilled(m) => m == messages[i]
                  case Rejected(reason) => reason.SqsMessageError? && reason.message == Some(messages[i]))
  {
    if messages != [] {
      var n := |messages| - 1;
      OnlyOwnMessageErrors(messages[..n], timeout, schedules[..n]);
      FirstDecisiveEventWins(messages[n], timeout, schedules[n]);
    }
  }

  /**
   * For every interleaving of settlements and expiries the concurrent processor returns the same
   * success and failed lists, in the same order, as the sequential processor does when each
   * handler goes through the same events; and one is pending exactly when the other is.
   */
  lemma ConcurrentRefinesSequential(
    messages: seq<Message>, timeout: Option<nat>, schedule: seq<Settlement>)
    ensures ConcurrentResult(messages, timeout, schedule)
            == SequentialResult(messages, timeout, Projections(schedule, |messages|))
  {
    var xs := ConcurrentRun(StartAll(messages, timeout), schedule);
    var schedules := Projections(schedule, |messages|);
    forall i | 0 <= i < |xs|
      ensures xs[i] == HandlerRun(StartHandler(messages[i], timeout), schedules[i])
    {
      InterleavingProjects(StartAll(messages, timeout), schedule, i);
    }
    OutcomesAgree(messages, timeout, xs, schedules);
    if SettledOutcomes(xs).Some? {
      OnlyOwnMessageErrors(messages, timeout, schedules);
      GatheringAgreesExactly(SettledOutcomes(xs).value);
    }
  }

  // ---------------------------------------------------------------- every message once

  /** The messages named by failures; `undefined` counts for nothing. */
  function FailedMessages(failed: seq<Thrown>): multiset<Message> {
    if failed == [] then multiset{}
    else
      var last := failed[|failed| - 1];
      FailedMessages(failed[..|failed| - 1])
      + if last.SqsMessageError? && last.message.Some? then multiset{last.message.value} else multiset{}
  }

  /** The messages of a result, each as often as it is listed. */
  function Listed(r: ProcessorResult): multiset<Message> {
    multiset(r.success) + FailedMessages(r.failed)
  }

  lemma FailedMessagesSnoc(failed: seq<Thrown>, e: Thrown)
    ensures FailedMessages(failed + [e])
            == FailedMessages(failed)
               + if e.SqsMessageError? && e.message.Some? then multiset{e.message.value} else multiset{}
  {
    assert (failed + [e])[..|failed|] == failed;
  }

  /** Pushing an outcome lists its message once more. */
  lemma PushLists(r: ProcessorResult, outcome: Outcome, m: Message)
    requires match outcome
             case Fulfilled(x) => x == m
             case Rejected(reason) => reason.SqsMessageError? && reason.message == Some(m)
    ensures Listed(PushSequential(r, outcome)) == Listed(r) + multiset{m}
  {
    match outcome {
      case Fulfilled(x) => assert multiset(r.success + [x]) == multiset(r.success) + multiset{x};
      case Rejected(reason) => FailedMessagesSnoc(r.failed, reason);
    }
  }

  /** Every settled message is listed exactly once, as a success or as a failure. */
  lemma {:induction false} GatheringConserves(messages: seq<Message>, outcomes: seq<Outcome>)
    requires |outcomes| == |messages|
    requires forall i :: 0 <= i < |messages| ==>
               match outcomes[i]
               case Fulfilled(m) => m == messages[i]
               case Rejected(reason) => reason.SqsMessageError? && reason.message == Some(messages[i])
    ensures Listed(GatherSequential(outcomes)) == multiset(messages)
    ensures forall e :: e in GatherSequential(outcomes).failed ==> e.SqsMessageError? && e.message.Some?
  {
    if messages != [] {
      var n := |messages| - 1;
      GatheringConserves(messages[..n], outcomes[..n]);
      assert messages == messages[..n] + [messages[n]];
      PushLists(GatherSequential(outcomes[..n]), outcomes[n], messages[n]);
    }
  }

  /** Both processors list every received message exactly once. */
  lemma ProcessingConserves(
    messages: seq<Message>, timeout: Option<nat>, schedules: seq<seq<HandlerEvent>>)
    requires |schedules| == |messages|
    ensures var r := SequentialResult(messages, timeout, schedules);
            r.Some? ==> Listed(r.value) == multiset(messages)
                        && forall e :: e in r.value.failed ==> e.SqsMessageError? && e.message.Some?
  {
    if AllOutcomes(messages, timeout, schedules).Some? {
      OnlyOwnMessageErrors(messages, timeout, schedules);
      GatheringConserves(messages, AllOutcomes(messages, timeout, schedules).value);
    }
  }
}
