/** What holds in every run of the consumer: how many polls there are, how it stops, what it emits. */
module ConsumerRuns {
  import opened Sequences
  import opened Processors
  import opened Acknowledge
  import opened Consumer

  // ---------------------------------------------------------------- polls and timers never outnumber starts

  /** Every name in use was handed out. */
  ghost predicate Named(s: Life) {
    && (forall p :: p in s.polls ==> p < s.next)
    && (forall t :: t in s.armed ==> t < s.next)
    && (forall k :: k in s.stops ==> k < s.next && s.stops[k] < s.next)
    && (s.currentPoll.Some? ==> s.currentPoll.value < s.next)
    && (s.pollingTimer.Some? ==> s.pollingTimer.value < s.next)
  }

  /** Polls in flight and armed timers: the chains that will poll again. */
  function Chains(s: Life): nat {
    |s.polls.Keys| + |s.armed.Keys|
  }

  ghost predicate Bounded(s: Life) {
    Named(s) && Chains(s) <= s.starts
  }

  /** The labels that move one poll from one phase to the next. */
  predicate MovesPhase(l: Label) {
    l.ReceiveEnds? || l.PollContinues? || l.ProcessEnds? || l.DeleteEnds? || l.VisibilityEnds?
  }

  lemma PhaseMove(c: Config, s: Life, l: Label)
    requires Enabled(s, l) && (MovesPhase(l) || l.ExtensionFails?)
    ensures var s' := Next(c, s, l); s'.polls.Keys == s.polls.Keys && s' == s.(polls := s'.polls, trace := s'.trace)
  {
  }

  /** Only a new poll is waiting for a response that was not waiting before. */
  lemma ReceivingIsNew(c: Config, s: Life, l: Label, p: nat)
    requires Enabled(s, l) && p in Next(c, s, l).polls && Next(c, s, l).polls[p].Receiving?
    ensures p == s.next || (p in s.polls && s.polls[p].Receiving?)
  {
    if MovesPhase(l) {
      MovedOn(c, s, l);
    }
  }

  /** A poll that moves on is no longer waiting for its response, and the others stay where they are. */
  lemma MovedOn(c: Config, s: Life, l: Label)
    requires Enabled(s, l) && MovesPhase(l)
    ensures l.poll in s.polls && Next(c, s, l).polls == s.polls[l.poll := Next(c, s, l).polls[l.poll]]
    ensures !Next(c, s, l).polls[l.poll].Receiving?
  {
  }

  lemma NamesGrow(c: Config, s: Life, l: Label)
    requires Enabled(s, l)
    ensures s.next <= Next(c, s, l).next
  {
  }

  /** Only the end of `process` begins a delete request. */
  lemma DeletingIsNew(c: Config, s: Life, l: Label, p: nat)
    requires Enabled(s, l) && p in Next(c, s, l).polls && Next(c, s, l).polls[p].Deleting?
    ensures (p in s.polls && s.polls[p] == Next(c, s, l).polls[p])
            || (l.ProcessEnds? && l.poll == p && Next(c, s, l).polls[p].processed == l.result)
  {
  }

  lemma ChainsStep(c: Config, s: Life, l: Label)
    requires Named(s) && Enabled(s, l)
    ensures Named(Next(c, s, l))
    ensures Chains(Next(c, s, l)) - Chains(s) <= Next(c, s, l).starts - s.starts
  {
    if MovesPhase(l) || l.ExtensionFails? {
      PhaseMove(c, s, l);
    } else {
      NamedLifeStep(c, s, l);
      ChainsLifeStep(c, s, l);
    }
  }

  lemma NamedLifeStep(c: Config, s: Life, l: Label)
    requires Named(s) && Enabled(s, l) && !MovesPhase(l) && !l.ExtensionFails?
    ensures Named(Next(c, s, l))
  {
  }

  lemma ChainsLifeStep(c: Config, s: Life, l: Label)
    requires Named(s) && Enabled(s, l) && !MovesPhase(l) && !l.ExtensionFails?
    ensures Chains(Next(c, s, l)) - Chains(s) <= Next(c, s, l).starts - s.starts
  {
    match l {
      case Start => AddKey(s.polls, s.next, Receiving);
      case Stop =>
        if s.pollingTimer.Some? {
          DropKey(s.armed, s.pollingTimer.value);
        }
      case StopResumes(_) =>
      case TimerFires(t) =>
        DropKey(s.armed, t);
        AddKey(s.polls, s.next, Receiving);
      case PollEnds(p) =>
        DropKey(s.polls, p);
        AddKey(s.armed, s.next, s.polls[p].delay);
    }
  }

  lemma AddKey<V>(m: map<nat, V>, k: nat, v: V)
    requires k !in m
    ensures |m[k := v].Keys| == |m.Keys| + 1
  {
    assert m[k := v].Keys == m.Keys + {k};
  }

  lemma DropKey<V>(m: map<nat, V>, k: nat)
    ensures |(m - {k}).Keys| == |m.Keys| - if k in m then 1 else 0
  {
    assert (m - {k}).Keys == m.Keys - {k};
  }

  /** The `start()` calls that found the consumer stopped. */
  function EffectiveStarts(c: Config, run: seq<Label>): nat
    requires IsRun(c, FRESH, run)
  {
    if run == [] then 0
    else
      var init := run[..|run| - 1];
      EffectiveStarts(c, init) + if run[|run| - 1].Start? && After(c, FRESH, init).stopped then 1 else 0
  }

  lemma StartsStep(c: Config, s: Life, l: Label)
    requires Enabled(s, l)
    ensures Next(c, s, l).starts == s.starts + if l.Start? && s.stopped then 1 else 0
  {
  }

  /** In every run, polls in flight plus armed timers never exceed the effective `start()` calls. */
  lemma {:induction false} ChainsNeverExceedStarts(c: Config, run: seq<Label>)
    requires IsRun(c, FRESH, run)
    ensures Bounded(After(c, FRESH, run)) && After(c, FRESH, run).starts == EffectiveStarts(c, run)
    ensures Chains(After(c, FRESH, run)) <= EffectiveStarts(c, run)
  {
    if run != [] {
      var init := run[..|run| - 1];
      ChainsNeverExceedStarts(c, init);
      ChainsStep(c, After(c, FRESH, init), run[|run| - 1]);
      StartsStep(c, After(c, FRESH, init), run[|run| - 1]);
    }
  }

  // ---------------------------------------------------------------- the request for visibility 0

  /** What waits for its deletion came from `process`, whose failures all name their message. */
  ghost predicate RequestsNamed(s: Life) {
    forall p :: p in s.polls && s.polls[p].Deleting? ==> AllNamed(s.polls[p].processed.failed)
  }

  lemma {:induction false} RunRequestsNamed(c: Config, run: seq<Label>)
    requires IsRun(c, FRESH, run)
    ensures RequestsNamed(After(c, FRESH, run))
  {
    if run != [] {
      var init, l := run[..|run| - 1], run[|run| - 1];
      RunRequestsNamed(c, init);
      var s, s' := After(c, FRESH, init), After(c, FRESH, run);
      forall p | p in s'.polls && s'.polls[p].Deleting?
        ensures AllNamed(s'.polls[p].processed.failed)
      {
        DeletingIsNew(c, s, l, p);
      }
    }
  }

  /**
   * The end of `process` sends a delete request for exactly the successes, or, when there are none, reports the result,
   * and with `terminateVisibilityTimeout` sends a request for visibility 0 for exactly the failures.
   */
  lemma ProcessEndExactly(c: Config, s: Life, p: nat, r: ProcessorResult)
    requires Enabled(s, ProcessEnds(p, r))
    ensures Next(c, s, ProcessEnds(p, r))
            == if r.success != [] then
                 s.(polls := s.polls[p := Deleting(s.polls[p].messages, r)])
               else
                 s.(trace := s.trace + [ProcessingEnd(r)],
                    polls := s.polls[p := if c.terminateVisibilityTimeout then Terminating(r.failed)
                                          else Ending(c.pollingWaitTimeMs)])
  {
  }

  /**
   * In every run the answered delete request is acknowledged and reported. With `terminateVisibilityTimeout` the poll
   * goes on to a request for visibility 0 for exactly the reported failures, unless the reply asks for more messages
   * than there are: then that request throws, and the poll ends with the longer delay.
   */
  lemma VisibilityRequestExactly(c: Config, run: seq<Label>, p: nat, reply: DeleteReply)
    requires IsRun(c, FRESH, run) && Enabled(After(c, FRESH, run), DeleteEnds(p, reply))
    ensures var s := After(c, FRESH, run);
            var reported := Acknowledged(AsWritten, s.polls[p].processed, reply);
            Next(c, s, DeleteEnds(p, reply))
            == s.(trace := s.trace + [ProcessingEnd(reported)],
                  polls := s.polls[p := if !c.terminateVisibilityTimeout then Ending(c.pollingWaitTimeMs)
                                        else if LeavesNamed(s.polls[p].processed.success, reply)
                                        then Terminating(reported.failed)
                                        else Ending(1000)])
  {
    RunRequestsNamed(c, run);
    AcknowledgedIsNamed(After(c, FRESH, run).polls[p].processed, reply);
  }

  // ---------------------------------------------------------------- what each step emits

  lemma EmitsExactly(c: Config, s: Life, l: Label)
    requires Enabled(s, l)
    ensures Next(c, s, l).trace
            == s.trace
               + match l
                 case Start => if s.stopped then [ReceiveStart] else []
                 case Stop => if s.currentPoll == None then [StoppedEvent] else []
                 case StopResumes(_) => [StoppedEvent]
                 case TimerFires(_) => if s.stopped then [] else [ReceiveStart]
                 case ReceiveEnds(_, response) => [ReceiveEnd(response)]
                 case PollContinues(p) => if s.polls[p].messages == [] then [] else [ProcessingStart]
                 case ProcessEnds(_, r) => if r.success == [] then [ProcessingEnd(r)] else []
                 case DeleteEnds(p, reply) => [ProcessingEnd(Acknowledged(AsWritten, s.polls[p].processed, reply))]
                 case VisibilityEnds(_, ok) => if ok then [] else [ErrorEvent]
                 case PollEnds(_) => []
                 case ExtensionFails => [ErrorEvent]
  {
  }

  /** The labels at which a `stop()` completes: after its wait, or at once when there is no poll to wait for. */
  predicate Completes(s: Life, l: Label) {
    l.StopResumes? || (l.Stop? && s.currentPoll == None)
  }

  function StoppedEvents(trace: seq<Event>): nat {
    if trace == [] then 0
    else StoppedEvents(trace[..|trace| - 1]) + if trace[|trace| - 1] == StoppedEvent then 1 else 0
  }

  function ErrorEvents(trace: seq<Event>): nat {
    if trace == [] then 0
    else ErrorEvents(trace[..|trace| - 1]) + if trace[|trace| - 1] == ErrorEvent then 1 else 0
  }

  /** The `stop()` calls that have completed. */
  function CompletedStops(c: Config, run: seq<Label>): nat
    requires IsRun(c, FRESH, run)
  {
    if run == [] then 0
    else
      var init, l := run[..|run| - 1], run[|run| - 1];
      CompletedStops(c, init)
      + if Completes(After(c, FRESH, init), l) then 1 else 0
  }

  /** The requests to change a visibility that have failed. */
  function FailedRequests(run: seq<Label>): nat {
    if run == [] then 0
    else
      var l := run[|run| - 1];
      FailedRequests(run[..|run| - 1]) + if RequestFails(l) then 1 else 0
  }

  lemma EventsSnoc(trace: seq<Event>, e: Event)
    ensures StoppedEvents(trace + [e]) == StoppedEvents(trace) + if e == StoppedEvent then 1 else 0
    ensures ErrorEvents(trace + [e]) == ErrorEvents(trace) + if e == ErrorEvent then 1 else 0
  {
    assert (trace + [e])[..|trace|] == trace;
  }

  /** The labels at which the consumer learns that a request to change a visibility has failed. */
  predicate RequestFails(l: Label) {
    l == ExtensionFails || (l.VisibilityEnds? && !l.ok)
  }

  /** The event of a step, if any. */
  lemma Emitted(c: Config, s: Life, l: Label) returns (events: seq<Event>)
    requires Enabled(s, l)
    ensures Next(c, s, l).trace == s.trace + events && |events| <= 1
    ensures events == [StoppedEvent] <==> Completes(s, l)
    ensures events == [ErrorEvent] <==> RequestFails(l)
  {
    EmitsExactly(c, s, l);
    events := Next(c, s, l).trace[|s.trace|..];
  }

  lemma StepEvents(c: Config, s: Life, l: Label)
    requires Enabled(s, l)
    ensures StoppedEvents(Next(c, s, l).trace) == StoppedEvents(s.trace) + if Completes(s, l) then 1 else 0
    ensures ErrorEvents(Next(c, s, l).trace) == ErrorEvents(s.trace) + if RequestFails(l) then 1 else 0
  {
    var events := Emitted(c, s, l);
    if events == [] {
      assert s.trace + [] == s.trace;
    } else {
      assert events == [events[0]];
      EventsSnoc(s.trace, events[0]);
    }
  }

  /** In every run there is a STOPPED for each completed `stop()`, and an ERROR for each failed visibility request. */
  lemma {:induction false} StoppedAndErrorsExactly(c: Config, run: seq<Label>)
    requires IsRun(c, FRESH, run)
    ensures StoppedEvents(After(c, FRESH, run).trace) == CompletedStops(c, run)
    ensures ErrorEvents(After(c, FRESH, run).trace) == FailedRequests(run)
  {
    if run != [] {
      var init := run[..|run| - 1];
      StoppedAndErrorsExactly(c, init);
      StepEvents(c, After(c, FRESH, init), run[|run| - 1]);
    }
  }

  // ---------------------------------------------------------------- one chain under the calling discipline

  /** The single chain, and where the fields of the consumer point. */
  ghost predicate Single(s: Life) {
    && Named(s)
    && (forall p :: p in s.polls ==> s.currentPoll == Some(p))
    && (forall t :: t in s.armed ==> s.pollingTimer == Some(t))
    && (s.polls == map[] || s.armed == map[])
    && (s.stopped ==> s.polls == map[])
    && (!s.stopped && s.stops == map[] ==> s.polls != map[] || s.armed != map[])
    && (!s.stopped ==> forall k :: k in s.stops ==> s.currentPoll == Some(s.stops[k]))
  }

  lemma SingleStep(c: Config, s: Life, l: Label)
    requires Single(s) && Enabled(s, l) && Disciplined(s, l)
    ensures Single(Next(c, s, l))
  {
    if MovesPhase(l) || l.ExtensionFails? {
      PhaseMove(c, s, l);
      assert forall p :: p in s.polls ==> p in Next(c, s, l).polls;
    } else {
      SingleLifeStep(c, s, l);
    }
  }

  lemma SingleLifeStep(c: Config, s: Life, l: Label)
    requires Single(s) && Enabled(s, l) && Disciplined(s, l) && !MovesPhase(l) && !l.ExtensionFails?
    ensures Single(Next(c, s, l))
  {
    var s' := Next(c, s, l);
    match l {
      case Start =>
      case Stop =>
        assert s.currentPoll.Some? ==> s.next in s'.stops;
      case StopResumes(k) =>
        assert s'.polls == map[];
      case TimerFires(t) =>
        assert t in s.armed && s'.armed == map[];
      case PollEnds(p) =>
        assert p in s.polls && s'.polls == map[];
    }
  }

  lemma {:induction false} DisciplinedRunIsSingle(c: Config, run: seq<Label>)
    requires IsDisciplinedRun(c, FRESH, run)
    ensures Single(After(c, FRESH, run))
  {
    if run != [] {
      var init := run[..|run| - 1];
      DisciplinedRunIsSingle(c, init);
      SingleStep(c, After(c, FRESH, init), run[|run| - 1]);
    }
  }

  lemma SingleChains(s: Life)
    requires Single(s)
    ensures Chains(s) <= 1
    ensures Chains(s) == 0 <==> s.polls == map[] && s.armed == map[]
  {
    if s.polls != map[] {
      var p :| p in s.polls;
      assert s.polls.Keys == {p};
    } else if s.armed != map[] {
      var t :| t in s.armed;
      assert s.armed.Keys == {t};
    }
  }

  /**
   * In every disciplined run there is at most one chain, and exactly one while the consumer runs with no
   * `stop()` pending: no error of a receive, a handler, a delete or a visibility request ends the polling.
   */
  lemma {:induction false} OneChainUnderDiscipline(c: Config, run: seq<Label>)
    requires IsDisciplinedRun(c, FRESH, run)
    ensures var s := After(c, FRESH, run);
            && Chains(s) <= 1
            && (!s.stopped && s.stops == map[] ==> Chains(s) == 1)
  {
    DisciplinedRunIsSingle(c, run);
    SingleChains(After(c, FRESH, run));
  }

  // ---------------------------------------------------------------- draining and quiescence

  /** When `stop()` completes, in a disciplined run, no poll is in flight: no batch is being processed. */
  lemma StopDrains(c: Config, run: seq<Label>)
    requires IsDisciplinedRun(c, FRESH, run) && run != []
    requires Completes(After(c, FRESH, run[..|run| - 1]), run[|run| - 1])
    ensures Quiet(After(c, FRESH, run))
  {
    DisciplinedRunIsSingle(c, run);
  }

  /** Stopped, with nothing in flight; a leftover timer may be armed. */
  predicate Quiet(s: Life) {
    s.stopped && s.polls == map[]
  }

  /** The number of receive requests. */
  function Receives(trace: seq<Event>): nat {
    if trace == [] then 0
    else Receives(trace[..|trace| - 1]) + if trace[|trace| - 1].ReceiveStart? then 1 else 0
  }

  lemma ReceivesSnoc(trace: seq<Event>, e: Event)
    ensures Receives(trace + [e]) == Receives(trace) + if e.ReceiveStart? then 1 else 0
  {
    assert (trace + [e])[..|trace|] == trace;
  }

  /** What can still happen in a quiet state emits no receive request. */
  lemma QuietTrace(c: Config, s: Life, l: Label)
    requires Quiet(s) && Enabled(s, l) && !l.Start?
    ensures var t := Next(c, s, l).trace; t == s.trace || t == s.trace + [StoppedEvent] || t == s.trace + [ErrorEvent]
  {
  }

  lemma QuietStep(c: Config, s: Life, l: Label)
    requires Quiet(s) && Enabled(s, l) && !l.Start?
    ensures var s' := Next(c, s, l);
            Quiet(s') && Receives(s'.trace) == Receives(s.trace) && s'.armed.Keys <= s.armed.Keys
  {
    QuietTrace(c, s, l);
    ReceivesSnoc(s.trace, StoppedEvent);
    ReceivesSnoc(s.trace, ErrorEvent);
  }

  /**
   * From a quiet state, whatever happens short of a `start()`, no receive request is issued and the
   * state stays quiet, even when a leftover timer fires; and timers only disappear.
   */
  lemma {:induction false} QuietUntilStart(c: Config, s: Life, run: seq<Label>)
    requires Quiet(s) && IsRun(c, s, run)
    requires forall l :: l in run ==> !l.Start?
    ensures var s' := After(c, s, run);
            Quiet(s') && Receives(s'.trace) == Receives(s.trace) && s'.armed.Keys <= s.armed.Keys
  {
    if run != [] {
      QuietUntilStart(c, s, run[..|run| - 1]);
      QuietStep(c, After(c, s, run[..|run| - 1]), run[|run| - 1]);
    }
  }

  /** The `stop()` call n under way, with the fate of the chain it found. */
  ghost predicate Stopping(s: Life, n: nat, alive: bool) {
    Single(s) && n in s.stops && (alive <==> s.polls != map[] || s.armed != map[])
  }

  /** While a `stop()` is pending no timer can fire: either its poll is in flight, or it runs first. */
  lemma StoppingStep(c: Config, s: Life, n: nat, alive: bool, l: Label)
    requires Stopping(s, n, alive) && Enabled(s, l) && Disciplined(s, l) && !l.Stop? && l != StopResumes(n)
    ensures Stopping(Next(c, s, l), n, alive)
  {
    SingleStep(c, s, l);
    assert s.armed != map[] ==> s.polls == map[] && StopIsReady(s);
    assert !l.TimerFires?;
    if l.PollEnds? {
      assert s.next in Next(c, s, l).armed;
      assert l.poll in s.polls;
    } else if MovesPhase(l) {
      assert l.poll in Next(c, s, l).polls && l.poll in s.polls;
    }
  }

  lemma {:induction false} StoppingKeepsTheChain(c: Config, s: Life, n: nat, alive: bool, run: seq<Label>)
    requires Stopping(s, n, alive) && IsDisciplinedRun(c, s, run)
    requires forall l :: l in run ==> !l.Stop? && l != StopResumes(n)
    ensures Stopping(After(c, s, run), n, alive)
  {
    if run != [] {
      var init, l := run[..|run| - 1], run[|run| - 1];
      StoppingKeepsTheChain(c, s, n, alive, init);
      StoppingStep(c, After(c, s, init), n, alive, l);
    }
  }

  /**
   * The last of any number of `stop()` calls, when it has waited, leaves a timer behind exactly when it found
   * a poll in flight: the `finally` of that poll arms it after `stop()` has cleared the timer.
   */
  lemma LeftoverTimerExactly(c: Config, s: Life, run: seq<Label>)
    requires Single(s) && s.currentPoll.Some?
    requires IsDisciplinedRun(c, Next(c, s, Stop), run)
    requires forall l :: l in run ==> !l.Stop? && l != StopResumes(s.next)
    requires Enabled(After(c, Next(c, s, Stop), run), StopResumes(s.next))
    ensures Next(c, After(c, Next(c, s, Stop), run), StopResumes(s.next)).armed != map[] <==> s.polls != map[]
  {
    var s0 := Next(c, s, Stop);
    SingleStep(c, s, Stop);
    assert s.next in s0.stops;
    assert s0.armed.Keys == {};
    StoppingKeepsTheChain(c, s0, s.next, s.polls != map[], run);
  }

  // ---------------------------------------------------------------- the discipline is exactly what is needed

  /** A `start()` keeps a single chain exactly when it has no effect or no timer is armed. */
  lemma StartIsSafeExactly(c: Config, s: Life)
    requires Single(s)
    ensures Chains(Next(c, s, Start)) <= 1 <==> !s.stopped || s.armed == map[]
  {
    SingleChains(s);
    if s.stopped {
      var s' := Next(c, s, Start);
      assert s'.polls.Keys == {s.next};
      if s.armed != map[] {
        var t :| t in s.armed;
        assert s'.armed.Keys == {t};
      }
    }
  }

  /** A pending `stop()` completes after a `start()` with no poll in flight exactly when the `start()` had no effect. */
  lemma StopDrainsAfterStartExactly(c: Config, s: Life, k: nat)
    requires Single(s) && k in s.stops && s.stops[k] !in s.polls
    ensures Enabled(Next(c, s, Start), StopResumes(k))
    ensures Quiet(Next(c, Next(c, s, Start), StopResumes(k))) <==> !s.stopped
  {
    var s' := Next(c, s, Start);
    if s.stopped {
      assert s.next in s'.polls;
    }
  }

  /** At most one chain, and no `stop()` is about to complete while a poll is in flight. */
  ghost predicate Sane(c: Config, s: Life) {
    Chains(s) <= 1
    && forall k :: k in s.stops && s.stops[k] !in s.polls ==> Quiet(Next(c, s, StopResumes(k)))
  }

  lemma SingleIsSane(c: Config, s: Life)
    requires Single(s)
    ensures Sane(c, s)
  {
    SingleChains(s);
  }

  lemma UndisciplinedStartIsNotSane(c: Config, s: Life)
    requires Single(s) && !Disciplined(s, Start)
    ensures !Sane(c, Next(c, s, Start))
  {
    StartIsSafeExactly(c, s);
    if s.armed == map[] {
      var k :| k in s.stops;
      StopDrainsAfterStartExactly(c, s, k);
    }
  }

  /** Every state along a run is sane. */
  ghost predicate SaneThroughout(c: Config, run: seq<Label>)
    requires IsRun(c, FRESH, run)
  {
    Sane(c, After(c, FRESH, run)) && (run == [] || SaneThroughout(c, run[..|run| - 1]))
  }

  /**
   * The discipline cannot be weakened: a run keeps one chain, and lets no `stop()` complete over a poll in flight,
   * exactly when no `start()` takes effect while a `stop()` is pending or a leftover timer is armed.
   */
  lemma {:induction false} DisciplineIsExact(c: Config, run: seq<Label>)
    requires IsRun(c, FRESH, run)
    ensures SaneThroughout(c, run) <==> IsDisciplinedRun(c, FRESH, run)
  {
    if run == [] {
      SingleIsSane(c, FRESH);
    } else {
      var init, l := run[..|run| - 1], run[|run| - 1];
      DisciplineIsExact(c, init);
      if IsDisciplinedRun(c, FRESH, init) {
        DisciplinedRunIsSingle(c, init);
        if Disciplined(After(c, FRESH, init), l) {
          DisciplinedRunIsSingle(c, run);
          SingleIsSane(c, After(c, FRESH, run));
        } else {
          UndisciplinedStartIsNotSane(c, After(c, FRESH, init));
        }
      }
    }
  }

  /** Extends a run by one label. */
  lemma Extend(c: Config, run: seq<Label>, s: Life, l: Label) returns (run': seq<Label>, s': Life)
    requires IsRun(c, FRESH, run) && After(c, FRESH, run) == s && Enabled(s, l)
    ensures IsRun(c, FRESH, run') && After(c, FRESH, run') == s' == Next(c, s, l)
    ensures run' == run + [l]
  {
    RunSnoc(c, FRESH, run, l);
    run', s' := run + [l], Next(c, s, l);
  }

  /** A poll that ends while a `stop()` waits for it leaves its timer behind. */
  lemma StopLeavesTimer(c: Config) returns (run: seq<Label>, s: Life)
    ensures IsRun(c, FRESH, run) && After(c, FRESH, run) == s
    ensures s.stopped && s.currentPoll == None && s.polls == map[] && s.stops == map[]
    ensures s.armed == map[2 := DELAY_MILLISECONDS_ON_EMPTY_QUEUE] && s.pollingTimer == Some(2) && s.next == 3
  {
    run, s := Extend(c, [], FRESH, Start);
    run, s := Extend(c, run, s, Stop);
    run, s := Extend(c, run, s, ReceiveEnds(0, None));
    run, s := Extend(c, run, s, PollEnds(0));
    run, s := Extend(c, run, s, StopResumes(1));
  }

  /**
   * A `start()` right after `stop()` has waited for a poll: the leftover timer fires beside the new poll,
   * and two polls are in flight at once.
   */
  lemma TwoPollsAfterEarlyRestart(c: Config) returns (run: seq<Label>, s: Life)
    ensures IsRun(c, FRESH, run) && After(c, FRESH, run) == s
    ensures s.polls == map[3 := Receiving, 4 := Receiving]
  {
    run, s := StopLeavesTimer(c);
    run, s := Extend(c, run, s, Start);
    run, s := Extend(c, run, s, TimerFires(2));
  }

  /** The leftover timer fires into the stopped consumer, and a `stop()` waits for the poll that returned at once. */
  lemma StopAwaitsNothing(c: Config) returns (run: seq<Label>, s: Life)
    ensures IsRun(c, FRESH, run) && After(c, FRESH, run) == s
    ensures s.stopped && s.currentPoll == Some(3) && s.polls == map[] && s.stops == map[4 := 3] && s.next == 5
  {
    run, s := StopLeavesTimer(c);
    run, s := Extend(c, run, s, TimerFires(2));
    run, s := Extend(c, run, s, Stop);
  }

  /**
   * A `start()` during a `stop()` of an already stopped consumer: that `stop()` completes while the new poll
   * is in flight.
   */
  lemma OverlappingStartBreaksDrain(c: Config) returns (run: seq<Label>, s: Life)
    ensures IsRun(c, FRESH, run) && After(c, FRESH, run) == s
    ensures run != [] && run[|run| - 1].StopResumes?
    ensures s.stopped && s.polls == map[5 := Receiving]
  {
    run, s := StopAwaitsNothing(c);
    run, s := Extend(c, run, s, Start);
    run, s := Extend(c, run, s, StopResumes(4));
  }

  // ---------------------------------------------------------------- the grammar of events

  /** One poll: its response, the result of `process`, and the reply to its delete request, `Deleted(None)` if none. */
  datatype Round =
    | Empty(response: Option<seq<Message>>)
    | Worked(messages: seq<Message>, result: ProcessorResult, reply: DeleteReply)

  function RoundEvents(r: Round): seq<Event> {
    match r
    case Empty(response) => [ReceiveStart, ReceiveEnd(response)]
    case Worked(messages, result, reply) =>
      [ReceiveStart, ReceiveEnd(Some(messages)), ProcessingStart, ProcessingEnd(Acknowledged(AsWritten, result, reply))]
  }

  /** A failed or empty receive, or a batch of which every message is reported exactly once. */
  predicate Sound(r: Round) {
    match r
    case Empty(response) => response == None || response == Some([])
    case Worked(messages, result, reply) =>
      && messages != [] && AllNamed(result.failed)
      && Listed(Acknowledged(AsWritten, result, reply)) == multiset(messages)
  }

  /** The events of a sequence of rounds. */
  function Word(rounds: seq<Round>): seq<Event> {
    if rounds == [] then [] else Word(rounds[..|rounds| - 1]) + RoundEvents(rounds[|rounds| - 1])
  }

  /** The trace without `ERROR` and `STOPPED`. */
  function Filtered(trace: seq<Event>): seq<Event> {
    if trace == [] then []
    else
      var e := trace[|trace| - 1];
      Filtered(trace[..|trace| - 1]) + if e.ErrorEvent? || e.StoppedEvent? then [] else [e]
  }

  /** The events of the round under way. */
  function Tail(phase: Phase): seq<Event> {
    match phase
    case Receiving => [ReceiveStart]
    case Received(messages) => [ReceiveStart, ReceiveEnd(Some(messages))]
    case Processing(messages) => [ReceiveStart, ReceiveEnd(Some(messages)), ProcessingStart]
    case Deleting(messages, _) => [ReceiveStart, ReceiveEnd(Some(messages)), ProcessingStart]
    case Terminating(_) => []
    case Ending(_) => []
  }

  /** The phase of the poll in flight; none counts as ended. */
  function CurrentPhase(s: Life): Phase {
    if s.currentPoll.Some? && s.currentPoll.value in s.polls then s.polls[s.currentPoll.value] else Ending(0)
  }

  /** Batches under way are not empty, and their results list every message once. */
  predicate PhaseIsSound(phase: Phase) {
    match phase
    case Processing(messages) => messages != []
    case Deleting(messages, processed) =>
      messages != [] && Listed(processed) == multiset(messages) && AllNamed(processed.failed)
    case _ => true
  }

  ghost predicate Grammatical(s: Life, rounds: seq<Round>) {
    && Filtered(s.trace) == Word(rounds) + Tail(CurrentPhase(s))
    && (forall r :: r in rounds ==> Sound(r))
    && PhaseIsSound(CurrentPhase(s))
  }

  lemma FilteredSnoc(trace: seq<Event>, e: Event)
    ensures Filtered(trace + [e]) == if e.ErrorEvent? || e.StoppedEvent? then Filtered(trace) else Filtered(trace) + [e]
  {
    assert (trace + [e])[..|trace|] == trace;
  }

  lemma WordSnoc(rounds: seq<Round>, r: Round)
    ensures Word(rounds + [r]) == Word(rounds) + RoundEvents(r)
  {
    assert (rounds + [r])[..|rounds|] == rounds;
  }

  /** The rounds after a label: a round ends with its RECEIVE_END or with its PROCESSING_END. */
  function NextRounds(s: Life, rounds: seq<Round>, l: Label): seq<Round>
    requires Enabled(s, l)
  {
    match l
    case ReceiveEnds(_, None) => rounds + [Empty(None)]
    case PollContinues(p) => if s.polls[p].messages == [] then rounds + [Empty(Some([]))] else rounds
    case ProcessEnds(p, r) =>
      if r.success == [] then rounds + [Worked(s.polls[p].messages, r, Deleted(None))] else rounds
    case DeleteEnds(p, reply) => rounds + [Worked(s.polls[p].messages, s.polls[p].processed, reply)]
    case _ => rounds
  }

  lemma ReportEndsTheRound(c: Config, s: Life, p: nat, r: ProcessorResult)
    requires Single(s) && p in s.polls
    ensures var s' := Report(c, s, p, r);
            && Filtered(s'.trace) == Filtered(s.trace) + [ProcessingEnd(r)]
            && Tail(CurrentPhase(s')) == [] && PhaseIsSound(CurrentPhase(s'))
  {
    FilteredSnoc(s.trace, ProcessingEnd(r));
    assert s.currentPoll == Some(p);
  }

  lemma ReportIsGrammatical(
    c: Config, s: Life, rounds: seq<Round>, p: nat,
    messages: seq<Message>, result: ProcessorResult, reply: DeleteReply)
    requires Single(s) && p in s.polls && Sound(Worked(messages, result, reply))
    requires Filtered(s.trace) == Word(rounds) + Tail(Processing(messages)) && forall q :: q in rounds ==> Sound(q)
    ensures Grammatical(
              Report(c, s, p, Acknowledged(AsWritten, result, reply)), rounds + [Worked(messages, result, reply)])
  {
    var round := Worked(messages, result, reply);
    ReportEndsTheRound(c, s, p, Acknowledged(AsWritten, result, reply));
    WordSnoc(rounds, round);
    RoundCompletes(Word(rounds), messages, result, reply);
    assert forall q :: q in rounds + [round] ==> q in rounds || q == round;
    assert Word(rounds + [round]) + [] == Word(rounds + [round]);
  }

  lemma RoundCompletes(before: seq<Event>, messages: seq<Message>, result: ProcessorResult, reply: DeleteReply)
    ensures before + Tail(Processing(messages)) + [ProcessingEnd(Acknowledged(AsWritten, result, reply))]
            == before + RoundEvents(Worked(messages, result, reply))
  {
  }

  lemma ReceiveEndIsSeen(c: Config, s: Life, p: nat, response: Option<seq<Message>>)
    requires Single(s) && Enabled(s, ReceiveEnds(p, response))
    ensures var s' := Next(c, s, ReceiveEnds(p, response));
            && Filtered(s'.trace) == Filtered(s.trace) + [ReceiveEnd(response)]
            && CurrentPhase(s).Receiving?
            && Tail(CurrentPhase(s')) == (if response == None then [] else [ReceiveStart, ReceiveEnd(response)])
            && PhaseIsSound(CurrentPhase(s'))
  {
    FilteredSnoc(s.trace, ReceiveEnd(response));
    assert s.currentPoll == Some(p);
  }

  lemma AppendBoth(before: seq<Event>, a: Event, b: Event)
    ensures before + [a] + [b] == before + [a, b]
  {
  }

  lemma ReceiveEndIsGrammatical(c: Config, s: Life, rounds: seq<Round>, p: nat, response: Option<seq<Message>>)
    requires Single(s) && Grammatical(s, rounds) && Enabled(s, ReceiveEnds(p, response))
    ensures Grammatical(Next(c, s, ReceiveEnds(p, response)), NextRounds(s, rounds, ReceiveEnds(p, response)))
  {
    ReceiveEndIsSeen(c, s, p, response);
    AppendBoth(Word(rounds), ReceiveStart, ReceiveEnd(response));
    if response == None {
      WordSnoc(rounds, Empty(None));
    }
  }

  lemma ContinuingIsSeen(c: Config, s: Life, p: nat)
    requires Single(s) && Enabled(s, PollContinues(p))
    ensures var s', messages := Next(c, s, PollContinues(p)), s.polls[p].messages;
            && CurrentPhase(s) == Received(messages)
            && Filtered(s'.trace) == Filtered(s.trace) + (if messages == [] then [] else [ProcessingStart])
            && Tail(CurrentPhase(s')) == (if messages == [] then [] else Tail(Processing(messages)))
            && PhaseIsSound(CurrentPhase(s'))
  {
    FilteredSnoc(s.trace, ProcessingStart);
    assert s.currentPoll == Some(p);
  }

  lemma ContinuingIsGrammatical(c: Config, s: Life, rounds: seq<Round>, p: nat)
    requires Single(s) && Grammatical(s, rounds) && Enabled(s, PollContinues(p))
    ensures Grammatical(Next(c, s, PollContinues(p)), NextRounds(s, rounds, PollContinues(p)))
  {
    ContinuingIsSeen(c, s, p);
    var messages := s.polls[p].messages;
    if messages == [] {
      WordSnoc(rounds, Empty(Some([])));
      assert Sound(Empty(Some([])));
    } else {
      ProcessingBegins(Word(rounds), messages);
    }
  }

  lemma ProcessingBegins(before: seq<Event>, messages: seq<Message>)
    ensures before + Tail(Received(messages)) + [ProcessingStart] == before + Tail(Processing(messages))
  {
  }

  lemma ProcessEndIsGrammatical(c: Config, s: Life, rounds: seq<Round>, p: nat, r: ProcessorResult)
    requires Single(s) && Grammatical(s, rounds) && Enabled(s, ProcessEnds(p, r))
    ensures Grammatical(Next(c, s, ProcessEnds(p, r)), NextRounds(s, rounds, ProcessEnds(p, r)))
  {
    var s' := Next(c, s, ProcessEnds(p, r));
    assert CurrentPhase(s) == s.polls[p] && CurrentPhase(s') == s'.polls[p];
    if r.success == [] {
      ReportIsGrammatical(c, s, rounds, p, s.polls[p].messages, r, Deleted(None));
    }
  }

  lemma DeleteEndIsGrammatical(c: Config, s: Life, rounds: seq<Round>, p: nat, reply: DeleteReply)
    requires Single(s) && Grammatical(s, rounds) && Enabled(s, DeleteEnds(p, reply))
    ensures Grammatical(Next(c, s, DeleteEnds(p, reply)), NextRounds(s, rounds, DeleteEnds(p, reply)))
  {
    assert CurrentPhase(s) == s.polls[p];
    AcknowledgingConserves(AsWritten, s.polls[p].processed, reply);
    ReportIsGrammatical(c, s, rounds, p, s.polls[p].messages, s.polls[p].processed, reply);
  }

  lemma PollStartIsGrammatical(c: Config, s: Life, rounds: seq<Round>, l: Label)
    requires Single(s) && Grammatical(s, rounds) && Enabled(s, l) && Disciplined(s, l) && (l.Start? || l.TimerFires?)
    ensures Grammatical(Next(c, s, l), rounds)
  {
    FilteredSnoc(s.trace, ReceiveStart);
    if l.TimerFires? {
      assert l.timer in s.armed;
    }
    assert l.TimerFires? || s.stopped ==> s.polls == map[] && CurrentPhase(s) == Ending(0);
    assert Word(rounds) + [] + [ReceiveStart] == Word(rounds) + [ReceiveStart];
  }

  lemma StopIsInvisible(c: Config, s: Life, l: Label)
    requires Single(s) && Enabled(s, l) && (l.Stop? || l.StopResumes?)
    ensures Filtered(Next(c, s, l).trace) == Filtered(s.trace)
    ensures CurrentPhase(Next(c, s, l)) == CurrentPhase(s)
  {
    FilteredSnoc(s.trace, StoppedEvent);
    if l.StopResumes? {
      assert s.polls == map[];
    }
  }

  lemma VisibilityEndIsInvisible(c: Config, s: Life, p: nat, ok: bool)
    requires Single(s) && Enabled(s, VisibilityEnds(p, ok))
    ensures Filtered(Next(c, s, VisibilityEnds(p, ok)).trace) == Filtered(s.trace)
    ensures CurrentPhase(s).Terminating? && CurrentPhase(Next(c, s, VisibilityEnds(p, ok))).Ending?
  {
    FilteredSnoc(s.trace, ErrorEvent);
    assert s.currentPoll == Some(p);
  }

  /** A step that adds nothing visible and keeps the events of the round under way. */
  lemma InvisibleIsGrammatical(s: Life, s': Life, rounds: seq<Round>)
    requires Grammatical(s, rounds) && Filtered(s'.trace) == Filtered(s.trace)
    requires Tail(CurrentPhase(s')) == Tail(CurrentPhase(s)) && PhaseIsSound(CurrentPhase(s'))
    ensures Grammatical(s', rounds)
  {
  }

  lemma StopIsGrammatical(c: Config, s: Life, rounds: seq<Round>, l: Label)
    requires Single(s) && Grammatical(s, rounds) && Enabled(s, l) && (l.Stop? || l.StopResumes?)
    ensures Grammatical(Next(c, s, l), rounds)
  {
    StopIsInvisible(c, s, l);
    InvisibleIsGrammatical(s, Next(c, s, l), rounds);
  }

  lemma VisibilityEndIsGrammatical(c: Config, s: Life, rounds: seq<Round>, p: nat, ok: bool)
    requires Single(s) && Grammatical(s, rounds) && Enabled(s, VisibilityEnds(p, ok))
    ensures Grammatical(Next(c, s, VisibilityEnds(p, ok)), rounds)
  {
    VisibilityEndIsInvisible(c, s, p, ok);
    InvisibleIsGrammatical(s, Next(c, s, VisibilityEnds(p, ok)), rounds);
  }

  lemma PollEndIsGrammatical(c: Config, s: Life, rounds: seq<Round>, p: nat)
    requires Single(s) && Grammatical(s, rounds) && Enabled(s, PollEnds(p))
    ensures Grammatical(Next(c, s, PollEnds(p)), rounds)
  {
    assert CurrentPhase(s) == s.polls[p] && CurrentPhase(Next(c, s, PollEnds(p))) == Ending(0);
    InvisibleIsGrammatical(s, Next(c, s, PollEnds(p)), rounds);
  }

  lemma ErrorIsGrammatical(c: Config, s: Life, rounds: seq<Round>)
    requires Grammatical(s, rounds)
    ensures Grammatical(Next(c, s, ExtensionFails), rounds)
  {
    FilteredSnoc(s.trace, ErrorEvent);
    InvisibleIsGrammatical(s, Next(c, s, ExtensionFails), rounds);
  }

  lemma GrammarStep(c: Config, s: Life, rounds: seq<Round>, l: Label)
    requires Single(s) && Grammatical(s, rounds) && Enabled(s, l) && Disciplined(s, l)
    ensures Grammatical(Next(c, s, l), NextRounds(s, rounds, l))
  {
    match l {
      case ReceiveEnds(p, response) => ReceiveEndIsGrammatical(c, s, rounds, p, response);
      case PollContinues(p) => ContinuingIsGrammatical(c, s, rounds, p);
      case ProcessEnds(p, r) => ProcessEndIsGrammatical(c, s, rounds, p, r);
      case DeleteEnds(p, reply) => DeleteEndIsGrammatical(c, s, rounds, p, reply);
      case Start | TimerFires(_) => PollStartIsGrammatical(c, s, rounds, l);
      case Stop | StopResumes(_) => StopIsGrammatical(c, s, rounds, l);
      case VisibilityEnds(p, ok) => VisibilityEndIsGrammatical(c, s, rounds, p, ok);
      case PollEnds(p) => PollEndIsGrammatical(c, s, rounds, p);
      case ExtensionFails => ErrorIsGrammatical(c, s, rounds);
    }
  }

  // ---------------------------------------------------------------- the pace of polling

  /**
   * The wait after a round: a second after a failed or empty receive, or when the reply to the delete request broke
   * the request for visibility 0 by asking for more messages than there were; otherwise `pollingWaitTimeMs`.
   */
  function WaitAfter(c: Config, r: Round): int {
    if r.Empty? || (c.terminateVisibilityTimeout && !LeavesNamed(r.result.success, r.reply)) then 1000
    else c.pollingWaitTimeMs
  }

  predicate EndsWith(c: Config, rounds: seq<Round>, delay: int) {
    rounds != [] && delay == WaitAfter(c, rounds[|rounds| - 1])
  }

  /** The poll about to end, or the armed timer, waits as the last round demands. */
  ghost predicate Paced(c: Config, s: Life, rounds: seq<Round>) {
    && (forall t :: t in s.armed ==> EndsWith(c, rounds, s.armed[t]))
    && (forall p :: p in s.polls && s.polls[p].Ending? ==> EndsWith(c, rounds, s.polls[p].delay))
    && (forall p :: p in s.polls && s.polls[p].Terminating? ==> EndsWith(c, rounds, c.pollingWaitTimeMs))
  }

  lemma PaceOfPoll(c: Config, s: Life, rounds: seq<Round>, l: Label)
    requires Single(s) && Paced(c, s, rounds) && PhaseIsSound(CurrentPhase(s)) && Enabled(s, l) && MovesPhase(l)
    ensures Paced(c, Next(c, s, l), NextRounds(s, rounds, l))
  {
    PhaseMove(c, s, l);
    assert s.currentPoll == Some(l.poll) && s.armed == map[];
    assert forall p :: p in Next(c, s, l).polls ==> p == l.poll;
    if l.DeleteEnds? {
      AcknowledgedIsNamed(s.polls[l.poll].processed, l.reply);
    }
  }

  lemma PaceStep(c: Config, s: Life, rounds: seq<Round>, l: Label)
    requires Single(s) && Grammatical(s, rounds) && Paced(c, s, rounds) && Enabled(s, l) && Disciplined(s, l)
    ensures Paced(c, Next(c, s, l), NextRounds(s, rounds, l))
  {
    if MovesPhase(l) {
      PaceOfPoll(c, s, rounds, l);
    }
  }

  lemma {:induction false} RunIsGrammatical(c: Config, run: seq<Label>) returns (rounds: seq<Round>)
    requires IsDisciplinedRun(c, FRESH, run)
    ensures Grammatical(After(c, FRESH, run), rounds) && Paced(c, After(c, FRESH, run), rounds)
  {
    rounds := [];
    if run != [] {
      var init, l := run[..|run| - 1], run[|run| - 1];
      var before := RunIsGrammatical(c, init);
      DisciplinedRunIsSingle(c, init);
      GrammarStep(c, After(c, FRESH, init), before, l);
      PaceStep(c, After(c, FRESH, init), before, l);
      rounds := NextRounds(After(c, FRESH, init), before, l);
    }
  }

  /** In every disciplined run an armed timer waits exactly as long as the last round of the trace demands. */
  lemma TimerWaitsAsDue(c: Config, run: seq<Label>, t: nat) returns (rounds: seq<Round>)
    requires IsDisciplinedRun(c, FRESH, run) && t in After(c, FRESH, run).armed
    ensures Filtered(After(c, FRESH, run).trace) == Word(rounds)
    ensures rounds != [] && After(c, FRESH, run).armed[t] == WaitAfter(c, rounds[|rounds| - 1])
  {
    rounds := RunIsGrammatical(c, run);
    DisciplinedRunIsSingle(c, run);
  }

  /** A round that the events under way can become. */
  function Completion(phase: Phase): Round {
    match phase
    case Received(messages) =>
      if messages == [] then Empty(Some([])) else Worked(messages, ProcessorResult(messages, []), Deleted(None))
    case Processing(messages) => Worked(messages, ProcessorResult(messages, []), Deleted(None))
    case Deleting(messages, _) => Worked(messages, ProcessorResult(messages, []), Deleted(None))
    case _ => Empty(None)
  }

  lemma TailCompletes(phase: Phase)
    requires PhaseIsSound(phase)
    ensures Sound(Completion(phase)) && Tail(phase) <= RoundEvents(Completion(phase))
  {
    assert forall messages :: Listed(ProcessorResult(messages, [])) == multiset(messages) + FailedMessages([]);
  }

  /**
   * In every disciplined run the trace without `ERROR` and `STOPPED` is a prefix of a word of
   * (RECEIVE_START RECEIVE_END [PROCESSING_START PROCESSING_END])* in which every PROCESSING_END reports each
   * message of its RECEIVE_END exactly once. With no poll in flight it is the whole word, so no error of a
   * handler, a delete or a visibility request cuts a round short.
   */
  lemma TraceFollowsGrammar(c: Config, run: seq<Label>) returns (rounds: seq<Round>)
    requires IsDisciplinedRun(c, FRESH, run)
    ensures forall r :: r in rounds ==> Sound(r)
    ensures Filtered(After(c, FRESH, run).trace) <= Word(rounds)
    ensures After(c, FRESH, run).polls == map[] ==> Filtered(After(c, FRESH, run).trace) == Word(rounds)
  {
    rounds := RunIsGrammatical(c, run);
    var s := After(c, FRESH, run);
    if s.polls != map[] {
      var last := Completion(CurrentPhase(s));
      TailCompletes(CurrentPhase(s));
      WordSnoc(rounds, last);
      rounds := rounds + [last];
    }
  }
}
