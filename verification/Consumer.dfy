/**
 * The lifecycle of `SqsConsumer` in `modules/sqs/src/consumer/sqs-consumer.ts` as a step system. A
 * label is one synchronous stretch of code between two awaits; `Next` is its effect. Event listeners
 * and `setTimeout` do not throw.
 */
module Consumer {
  import opened Sequences
  import opened Processors
  import opened Acknowledge

  const DELAY_MILLISECONDS_ON_EMPTY_QUEUE := 1000
  const MAX_RECEIVE_MESSAGE_BATCH_SIZE := 10

  // ---------------------------------------------------------------- options

  datatype ConsumerOptions = ConsumerOptions(
    batchSize: Option<int>, visibilityTimeout: Option<int>, heartbeatInterval: Option<int>)

  datatype OptionError =
    | InvalidBatchSize(batchSize: int)
    | MissingVisibilityTimeout
    | InvalidHeartbeatInterval(interval: int, visibilityTimeout: int)

  /** `assertOptions`: the error it throws, if any. */
  function AssertOptions(options: Option<ConsumerOptions>): Option<OptionError> {
    if options == None then None
    else
      var o := options.value;
      if o.batchSize.Some? && (o.batchSize.value > MAX_RECEIVE_MESSAGE_BATCH_SIZE || o.batchSize.value < 1) then
        Some(InvalidBatchSize(o.batchSize.value))
      else if o.heartbeatInterval == None then None
      else if o.visibilityTimeout == None then Some(MissingVisibilityTimeout)
      else if o.heartbeatInterval.value >= o.visibilityTimeout.value then
        Some(InvalidHeartbeatInterval(o.heartbeatInterval.value, o.visibilityTimeout.value))
      else None
  }

  /** Which options are accepted, and the error for all others. */
  lemma OptionsAcceptedExactly(options: Option<ConsumerOptions>)
    ensures options == None ==> AssertOptions(options) == None
    ensures options.Some? ==>
              var ConsumerOptions(batchSize, visibilityTimeout, heartbeatInterval) := options.value;
              AssertOptions(options) ==
              match (batchSize, heartbeatInterval, visibilityTimeout)
              case (Some(n), _, _) =>
                if !(1 <= n <= 10) then Some(InvalidBatchSize(n))
                else AssertOptions(Some(ConsumerOptions(None, visibilityTimeout, heartbeatInterval)))
              case (None, None, _) => None
              case (None, Some(_), None) => Some(MissingVisibilityTimeout)
              case (None, Some(h), Some(v)) => if h < v then None else Some(InvalidHeartbeatInterval(h, v))
  {
  }

  // ---------------------------------------------------------------- state

  datatype Event =
    | ReceiveStart
    | ReceiveEnd(response: Option<seq<Message>>)
    | ProcessingStart
    | ProcessingEnd(processed: ProcessorResult)
    | ErrorEvent
    | StoppedEvent

  /** Where a poll that has not finished stands. */
  datatype Phase =
    | Receiving
    | Received(messages: seq<Message>)
    | Processing(messages: seq<Message>)
    | Deleting(messages: seq<Message>, processed: ProcessorResult)
    | Terminating(failed: seq<Thrown>)
    | Ending(delay: int)

  /**
   * The three fields of the consumer; the armed polling timers with their delays, the polls in flight
   * and the `stop()` calls with the poll each awaits; a supply of names; and, as history, the number of
   * effective `start()` calls and the emitted events.
   */
  datatype Life = Life(
    stopped: bool, currentPoll: Option<nat>, pollingTimer: Option<nat>,
    armed: map<nat, int>, polls: map<nat, Phase>, stops: map<nat, nat>, next: nat,
    starts: nat, trace: seq<Event>)

  datatype Config = Config(pollingWaitTimeMs: int, terminateVisibilityTimeout: bool)

  const FRESH := Life(true, None, None, map[], map[], map[], 0, 0, [])

  datatype Label =
    | Start
    | Stop
    | StopResumes(call: nat)
    | TimerFires(timer: nat)
    | ReceiveEnds(poll: nat, response: Option<seq<Message>>)
    | PollContinues(poll: nat)
    | ProcessEnds(poll: nat, result: ProcessorResult)
    | DeleteEnds(poll: nat, reply: DeleteReply)
    | VisibilityEnds(poll: nat, ok: bool)
    | PollEnds(poll: nat)
    | ExtensionFails

  /** A `stop()` call whose poll has finished: its continuation runs before any timer fires. */
  predicate StopIsReady(s: Life) {
    exists k :: k in s.stops && s.stops[k] !in s.polls
  }

  /** When a label can be taken. What `process` returns satisfies the last clause: `Processors.ProcessingConserves`. */
  predicate Enabled(s: Life, l: Label) {
    match l
    case Start => true
    case Stop => true
    case StopResumes(k) => k in s.stops && s.stops[k] !in s.polls
    case TimerFires(t) => t in s.armed && !StopIsReady(s)
    case ReceiveEnds(p, _) => p in s.polls && s.polls[p].Receiving?
    case PollContinues(p) => p in s.polls && s.polls[p].Received?
    case ProcessEnds(p, r) =>
      p in s.polls && s.polls[p].Processing?
      && Listed(r) == multiset(s.polls[p].messages) && AllNamed(r.failed)
    case DeleteEnds(p, _) => p in s.polls && s.polls[p].Deleting?
    case VisibilityEnds(p, _) => p in s.polls && s.polls[p].Terminating?
    case PollEnds(p) => p in s.polls && s.polls[p].Ending?
    case ExtensionFails => true
  }

  // ---------------------------------------------------------------- steps

  function Emit(s: Life, e: Event): Life {
    s.(trace := s.trace + [e])
  }

  /** Calls `poll()`, whose promise is named `s.next`: it is fulfilled at once when stopped. */
  function CallPoll(s: Life): Life {
    if s.stopped then s.(next := s.next + 1)
    else Emit(s.(polls := s.polls[s.next := Receiving], next := s.next + 1), ReceiveStart)
  }

  function SetPhase(s: Life, poll: nat, phase: Phase): Life {
    s.(polls := s.polls[poll := phase])
  }

  /** Emits `MESSAGE_PROCESSING_END`; a failure naming `undefined` makes the request for visibility 0 throw. */
  function Report(c: Config, s: Life, poll: nat, r: ProcessorResult): Life {
    var phase :=
      if !c.terminateVisibilityTimeout then Ending(c.pollingWaitTimeMs)
      else if AllNamed(r.failed) then Terminating(r.failed)
      else Ending(DELAY_MILLISECONDS_ON_EMPTY_QUEUE);
    SetPhase(Emit(s, ProcessingEnd(r)), poll, phase)
  }

  function Next(c: Config, s: Life, l: Label): Life
    requires Enabled(s, l)
  {
    match l
    case Start =>
      if s.stopped then
        CallPoll(s.(stopped := false, starts := s.starts + 1)).(currentPoll := Some(s.next))
      else s
    case Stop =>
      var cleared :=
        if s.pollingTimer.Some? then s.(armed := s.armed - {s.pollingTimer.value}, pollingTimer := None) else s;
      if s.currentPoll.Some? then
        cleared.(stops := s.stops[s.next := s.currentPoll.value], next := s.next + 1)
      else
        Emit(cleared.(stopped := true), StoppedEvent)
    case StopResumes(k) =>
      Emit(s.(stops := s.stops - {k}, currentPoll := None, stopped := true), StoppedEvent)
    case TimerFires(t) =>
      CallPoll(s.(armed := s.armed - {t})).(currentPoll := Some(s.next))
    case ReceiveEnds(p, response) =>
      SetPhase(Emit(s, ReceiveEnd(response)), p,
               if response.Some? then Received(response.value) else Ending(DELAY_MILLISECONDS_ON_EMPTY_QUEUE))
    case PollContinues(p) =>
      var messages := s.polls[p].messages;
      if messages == [] then SetPhase(s, p, Ending(DELAY_MILLISECONDS_ON_EMPTY_QUEUE))
      else SetPhase(Emit(s, ProcessingStart), p, Processing(messages))
    case ProcessEnds(p, r) =>
      if r.success == [] then Report(c, s, p, r)
      else SetPhase(s, p, Deleting(s.polls[p].messages, r))
    case DeleteEnds(p, reply) =>
      Report(c, s, p, Acknowledged(AsWritten, s.polls[p].processed, reply))
    case VisibilityEnds(p, ok) =>
      SetPhase(if ok then s else Emit(s, ErrorEvent), p, Ending(c.pollingWaitTimeMs))
    case PollEnds(p) =>
      s.(polls := s.polls - {p}, armed := s.armed[s.next := s.polls[p].delay],
         pollingTimer := Some(s.next), next := s.next + 1)
    case ExtensionFails => Emit(s, ErrorEvent)
  }

  // ---------------------------------------------------------------- runs

  predicate IsRun(c: Config, s: Life, run: seq<Label>)
    decreases |run|, 0
  {
    run == [] || (IsRun(c, s, run[..|run| - 1]) && Enabled(After(c, s, run[..|run| - 1]), run[|run| - 1]))
  }

  /** The state after a run. */
  function After(c: Config, s: Life, run: seq<Label>): Life
    requires IsRun(c, s, run)
    decreases |run|, 1
  {
    if run == [] then s else Next(c, After(c, s, run[..|run| - 1]), run[|run| - 1])
  }

  lemma RunSnoc(c: Config, s: Life, run: seq<Label>, l: Label)
    requires IsRun(c, s, run) && Enabled(After(c, s, run), l)
    ensures IsRun(c, s, run + [l]) && After(c, s, run + [l]) == Next(c, After(c, s, run), l)
  {
    assert (run + [l])[..|run|] == run;
  }

  /** No `start()` takes effect while a `stop()` is pending or a leftover timer is armed. */
  predicate Disciplined(s: Life, l: Label) {
    l.Start? && s.stopped ==> s.stops == map[] && s.armed == map[]
  }

  predicate IsDisciplinedRun(c: Config, s: Life, run: seq<Label>) {
    IsRun(c, s, run)
    && (run == [] || (IsDisciplinedRun(c, s, run[..|run| - 1])
                      && Disciplined(After(c, s, run[..|run| - 1]), run[|run| - 1])))
  }

  // ---------------------------------------------------------------- the class

  /** The consumer with the part of the event loop that concerns it; every method is one label. */
  class SqsConsumer {
    const config: Config
    var stopped: bool
    var currentPoll: Option<nat>
    var pollingTimer: Option<nat>

    var armed: map<nat, int>
    var polls: map<nat, Phase>
    var stops: map<nat, nat>
    var next: nat
    ghost var starts: nat
    var trace: seq<Event>

    constructor (config: Config)
      ensures View() == FRESH && this.config == config
    {
      this.config := config;
      stopped, currentPoll, pollingTimer := true, None, None;
      armed, polls, stops, next, starts, trace := map[], map[], map[], 0, 0, [];
    }

    ghost function View(): Life
      reads this
    {
      Life(stopped, currentPoll, pollingTimer, armed, polls, stops, next, starts, trace)
    }

    method EmitEvent(e: Event)
      modifies this`trace
      ensures trace == old(trace) + [e]
    {
      trace := trace + [e];
    }

    /** The synchronous part of `poll()`. */
    method Poll() returns (promise: nat)
      modifies this`polls, this`next, this`trace
      ensures View() == CallPoll(old(View())) && promise == old(next)
    {
      promise := next;
      next := next + 1;
      if stopped {
        return;
      }
      polls := polls[promise := Receiving];
      EmitEvent(ReceiveStart);
    }

    method StartPolling()
      modifies this
      ensures View() == Next(config, old(View()), Start)
    {
      if stopped {
        stopped := false;
        starts := starts + 1;
        var promise := Poll();
        currentPoll := Some(promise);
      }
    }

    /** `stop()` up to its `await`, or to its end when there is no poll to wait for. */
    method StopPolling()
      modifies this
      ensures View() == Next(config, old(View()), Stop)
    {
      if pollingTimer.Some? {
        armed := armed - {pollingTimer.value};
        pollingTimer := None;
      }
      if currentPoll.Some? {
        stops := stops[next := currentPoll.value];
        next := next + 1;
      } else {
        stopped := true;
        EmitEvent(StoppedEvent);
      }
    }

    /** `stop()` after its `await`. */
    method ResumeStop(k: nat)
      requires Enabled(View(), Label.StopResumes(k))
      modifies this
      ensures View() == Next(config, old(View()), Label.StopResumes(k))
    {
      stops := stops - {k};
      currentPoll := None;
      stopped := true;
      EmitEvent(StoppedEvent);
    }

    /** The callback that `schedulePollingTimer` passes to `setTimeout`. */
    method FireTimer(t: nat)
      requires Enabled(View(), Label.TimerFires(t))
      modifies this
      ensures View() == Next(config, old(View()), Label.TimerFires(t))
    {
      armed := armed - {t};
      var promise := Poll();
      currentPoll := Some(promise);
    }

    /** `receiveMessage` after its `await`, in either branch. */
    method EndReceive(p: nat, response: Option<seq<Message>>)
      requires Enabled(View(), Label.ReceiveEnds(p, response))
      modifies this
      ensures View() == Next(config, old(View()), Label.ReceiveEnds(p, response))
    {
      EmitEvent(ReceiveEnd(response));
      match response {
        case Some(messages) => polls := polls[p := Received(messages)];
        case None => polls := polls[p := Ending(DELAY_MILLISECONDS_ON_EMPTY_QUEUE)];
      }
    }

    /** `poll()` after `await this.receiveMessage(...)`, into `processMessages`. */
    method ContinuePoll(p: nat)
      requires Enabled(View(), Label.PollContinues(p))
      modifies this
      ensures View() == Next(config, old(View()), Label.PollContinues(p))
    {
      var messages := polls[p].messages;
      if |messages| > 0 {
        EmitEvent(ProcessingStart);
        polls := polls[p := Processing(messages)];
      } else {
        polls := polls[p := Ending(DELAY_MILLISECONDS_ON_EMPTY_QUEUE)];
      }
    }

    /** The last stretch of `processMessages`. */
    method ReportProcessed(p: nat, r: ProcessorResult)
      requires p in polls
      modifies this
      ensures View() == Report(config, old(View()), p, r)
    {
      EmitEvent(ProcessingEnd(r));
      if config.terminateVisibilityTimeout {
        var named := true;
        for i := 0 to |r.failed|
          invariant unchanged(this`polls) && trace == old(trace) + [ProcessingEnd(r)]
          invariant named <==> forall j :: 0 <= j < i ==> r.failed[j].SqsMessageError? && r.failed[j].message.Some?
        {
          named := named && r.failed[i].SqsMessageError? && r.failed[i].message.Some?;
        }
        polls := polls[p := if named then Terminating(r.failed) else Ending(DELAY_MILLISECONDS_ON_EMPTY_QUEUE)];
      } else {
        polls := polls[p := Ending(config.pollingWaitTimeMs)];
      }
    }

    /** `processMessages` after `process` has returned, up to the delete request. */
    method EndProcess(p: nat, r: ProcessorResult)
      requires Enabled(View(), Label.ProcessEnds(p, r))
      modifies this
      ensures View() == Next(config, old(View()), Label.ProcessEnds(p, r))
    {
      if |r.success| > 0 {
        polls := polls[p := Deleting(polls[p].messages, r)];
      } else {
        ReportProcessed(p, r);
      }
    }

    /** `processMessages` after the delete request. */
    method EndDelete(p: nat, reply: DeleteReply)
      requires Enabled(View(), Label.DeleteEnds(p, reply))
      modifies this
      ensures View() == Next(config, old(View()), Label.DeleteEnds(p, reply))
    {
      var processed := polls[p].processed;
      var processedSuccess := new JsArray<Message>(processed.success);
      var processedFailed := new JsArray<Thrown>(processed.failed);
      assert processedSuccess as object != processedFailed as object;
      label before:
      var success, failed := AcknowledgeProcessed(processedSuccess, processedFailed, reply);
      assert unchanged@before(this);
      ReportProcessed(p, ProcessorResult(success.items, failed.items));
    }

    /** `changeVisibilityTimeoutBatch(..., 0)` after its `await`. */
    method EndVisibility(p: nat, ok: bool)
      requires Enabled(View(), Label.VisibilityEnds(p, ok))
      modifies this
      ensures View() == Next(config, old(View()), Label.VisibilityEnds(p, ok))
    {
      if !ok {
        EmitEvent(ErrorEvent);
      }
      polls := polls[p := Ending(config.pollingWaitTimeMs)];
    }

    /** The `catch` of `changeVisibilityTimeoutBatch`, for an extension that a heartbeat has sent. */
    method FailExtension()
      modifies this
      ensures View() == Next(config, old(View()), ExtensionFails)
    {
      EmitEvent(ErrorEvent);
    }

    /** `schedulePollingTimer` */
    method SchedulePollingTimer(timeout: int)
      modifies this`armed, this`pollingTimer, this`next
      ensures armed == old(armed)[old(next) := timeout]
      ensures pollingTimer == Some(old(next)) && next == old(next) + 1
    {
      armed := armed[next := timeout];
      pollingTimer := Some(next);
      next := next + 1;
    }

    /** The `finally` of `poll()`. */
    method EndPoll(p: nat)
      requires Enabled(View(), Label.PollEnds(p))
      modifies this
      ensures View() == Next(config, old(View()), Label.PollEnds(p))
    {
      SchedulePollingTimer(polls[p].delay);
      polls := polls - {p};
    }
  }
}
