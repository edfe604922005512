/**
 * Every poll comes to its end: in no run is one stuck, whatever the handlers, the timers and the server do, and each
 * of its steps brings the end nearer.
 */
module Progress {
  import opened Sequences
  import opened Processors
  import opened Acknowledge
  import opened Consumer
  import opened ConsumerRuns
  import opened Delivery
  import opened DeliveryRuns
  import opened HandlerHistory

  // ---------------------------------------------------------------- the work that is left

  function Pending(x: Execution): nat {
    if x.outcome == None then 1 else 0
  }

  /** The messages whose handler call is still to be settled. */
  function Unsettled(messages: seq<Message>, calls: Calls): nat {
    SumBy(Pending, calls) + if |calls| < |messages| then |messages| - |calls| else 0
  }

  /** How far poll p is from its end; 0 when it is not in flight. */
  function Work(w: World, p: nat): nat {
    if p !in w.life.polls then 0
    else
      match w.life.polls[p]
      case Receiving => 6 + if p in w.holds then |w.holds[p].messages| else 0
      case Received(messages) => 5 + |messages|
      case Processing(messages) =>
        4 + if p in w.holds && w.holds[p].Handling? then Unsettled(messages, w.holds[p].calls) else 0
      case Deleting(_, _) => 3
      case Terminating(_) => 2
      case Ending(_) => 1
  }

  /** A step of poll p, or the settling of one of its handler calls. */
  predicate Advances(c: Settings, w: World, m: Move, p: nat)
    requires CanMove(c, w, m)
  {
    match m
    case Lives(l) => (MovesPhase(l) || l.PollEnds?) && l.poll == p
    case HandlerMoves(q, i, ev) =>
      q == p && w.holds[p].calls[i].outcome == None && Decisive(ev, c.handleMessageTimeout)
    case _ => false
  }

  lemma {:induction false} PendingIsBounded(calls: Calls)
    ensures SumBy(Pending, calls) <= |calls|
  {
    if calls != [] {
      PendingIsBounded(calls[..|calls| - 1]);
    }
  }

  lemma PendingOfUpdate(calls: Calls, i: nat, x: Execution)
    requires i < |calls|
    ensures SumBy(Pending, calls[i := x]) == SumBy(Pending, calls) - Pending(calls[i]) + Pending(x)
  {
    SumOfSplit(calls, i);
    SumOfSplit(calls[i := x], i);
    assert calls[i := x][..i] == calls[..i] && calls[i := x][i + 1..] == calls[i + 1..];
  }

  lemma SumOfSplit(calls: Calls, i: nat)
    requires i < |calls|
    ensures SumBy(Pending, calls) == SumBy(Pending, calls[..i]) + Pending(calls[i]) + SumBy(Pending, calls[i + 1..])
  {
    assert calls == (calls[..i] + [calls[i]]) + calls[i + 1..];
    SumByConcat(Pending, calls[..i] + [calls[i]], calls[i + 1..]);
    SumBySnoc(Pending, calls[..i], calls[i]);
  }

  /** An event of a call never adds work, and takes some away when it settles the call. */
  lemma CallStepProgresses(c: Settings, messages: seq<Message>, calls: Calls, i: nat, ev: HandlerEvent)
    requires CallsOk(c, messages, calls) && i < |calls|
    ensures var calls' := StepCalls(c, messages, calls, i, ev);
            && Unsettled(messages, calls') <= Unsettled(messages, calls)
            && (calls[i].outcome == None && Decisive(ev, c.handleMessageTimeout) ==>
                  Unsettled(messages, calls') < Unsettled(messages, calls))
  {
    var x := HandlerStep(calls[i], ev);
    var stepped, calls' := calls[i := x], StepCalls(c, messages, calls, i, ev);
    assert CallOk(calls[i], messages[i], c.handleMessageTimeout);
    PendingOfUpdate(calls, i, x);
    if calls' != stepped {
      SumBySnoc(Pending, stepped, calls'[|calls|]);
    }
  }

  lemma PhaseStepProgresses(c: Settings, w: World, l: Label, p: nat)
    requires Structured(c, w) && CanMove(c, w, Lives(l)) && p in w.life.polls
    requires (MovesPhase(l) || l.PollEnds?) && l.poll == p
    ensures Work(Moved(c, w, Lives(l)), p) < Work(w, p)
  {
    assert p in w.holds ==> HoldOk(c, p, w.holds[p], w.life.polls[p]);
    match l {
      case ReceiveEnds(_, response) => ReceiveEndProgresses(c, w, p, response);
      case PollContinues(_) => ContinuingProgresses(c, w, p);
      case ProcessEnds(_, r) => ProcessEndProgresses(c, w, p, r);
      case DeleteEnds(_, reply) => DeleteEndProgresses(c, w, p, reply);
      case VisibilityEnds(_, _) =>
      case PollEnds(_) =>
    }
  }

  lemma ReceiveEndProgresses(c: Settings, w: World, p: nat, response: Option<seq<Message>>)
    requires CanMove(c, w, Lives(ReceiveEnds(p, response)))
    ensures Work(Moved(c, w, Lives(ReceiveEnds(p, response))), p) < Work(w, p)
  {
  }

  lemma ContinuingProgresses(c: Settings, w: World, p: nat)
    requires CanMove(c, w, Lives(PollContinues(p)))
    requires p in w.holds ==> HoldOk(c, p, w.holds[p], w.life.polls[p])
    ensures Work(Moved(c, w, Lives(PollContinues(p))), p) < Work(w, p)
  {
    var messages := w.life.polls[p].messages;
    ContinuingLeads(c, w, p);
    if messages != [] {
      StartIsBounded(c, messages);
    }
  }

  lemma ContinuingLeads(c: Settings, w: World, p: nat)
    requires CanMove(c, w, Lives(PollContinues(p)))
    requires p in w.holds ==> HoldOk(c, p, w.holds[p], w.life.polls[p])
    ensures var w', messages := Moved(c, w, Lives(PollContinues(p))), w.life.polls[p].messages;
            && p in w'.life.polls
            && (messages == [] ==> w'.life.polls[p].Ending?)
            && (messages != [] ==> w'.life.polls[p] == Processing(messages)
                                   && (p in w'.holds ==> w'.holds[p].Handling?
                                                         && w'.holds[p].calls == StartCalls(c, messages)))
  {
  }

  lemma StartIsBounded(c: Settings, messages: seq<Message>)
    requires messages != []
    ensures Unsettled(messages, StartCalls(c, messages)) <= |messages|
  {
    PendingIsBounded(StartCalls(c, messages));
  }

  /** The end of `process` leads to a later phase. */
  lemma ProcessEndPhase(c: Config, s: Life, p: nat, r: ProcessorResult)
    requires Enabled(s, ProcessEnds(p, r))
    ensures var s' := Next(c, s, ProcessEnds(p, r));
            p in s'.polls && (s'.polls[p].Deleting? || s'.polls[p].Terminating? || s'.polls[p].Ending?)
  {
  }

  lemma LatePhase(w: World, p: nat)
    requires p in w.life.polls
    requires var phase := w.life.polls[p]; phase.Deleting? || phase.Terminating? || phase.Ending?
    ensures Work(w, p) <= 3
  {
  }

  lemma ProcessEndProgresses(c: Settings, w: World, p: nat, r: ProcessorResult)
    requires CanMove(c, w, Lives(ProcessEnds(p, r)))
    ensures Work(Moved(c, w, Lives(ProcessEnds(p, r))), p) < Work(w, p)
  {
    ProcessEndPhase(c.life, w.life, p, r);
    LatePhase(Moved(c, w, Lives(ProcessEnds(p, r))), p);
  }

  lemma DeleteEndProgresses(c: Settings, w: World, p: nat, reply: DeleteReply)
    requires CanMove(c, w, Lives(DeleteEnds(p, reply)))
    ensures Work(Moved(c, w, Lives(DeleteEnds(p, reply))), p) < Work(w, p)
  {
  }

  /** Whatever else moves leaves poll p where it is. */
  lemma OtherMoveKeepsWork(c: Settings, w: World, m: Move, p: nat)
    requires Structured(c, w) && CanMove(c, w, m) && p in w.life.polls
    requires m.Lives? ==> (MovesPhase(m.step) || m.step.PollEnds? ==> m.step.poll != p)
    requires !(m.HandlerMoves? && m.poll == p) && !(m.ServerAnswers? && m.poll == p)
    ensures Work(Moved(c, w, m), p) == Work(w, p)
  {
    if m.Lives? {
      OtherLabelKeepsPhase(c.life, w.life, m.step, p);
      OtherLabelKeepsHold(c, w, m.step, p);
    } else {
      QueueMoveKeepsWork(c, w, m, p);
    }
  }

  lemma QueueMoveKeepsWork(c: Settings, w: World, m: Move, p: nat)
    requires CanMove(c, w, m) && !m.Lives?
    requires !(m.HandlerMoves? && m.poll == p) && !(m.ServerAnswers? && m.poll == p)
    ensures Work(Moved(c, w, m), p) == Work(w, p)
  {
  }

  lemma OtherLabelKeepsPhase(c: Config, s: Life, l: Label, p: nat)
    requires Named(s) && Enabled(s, l) && p in s.polls && (MovesPhase(l) || l.PollEnds? ==> l.poll != p)
    ensures p in Next(c, s, l).polls && Next(c, s, l).polls[p] == s.polls[p]
  {
    if MovesPhase(l) {
      OtherPhaseMove(c, s, l, p);
    }
  }

  lemma OtherPhaseMove(c: Config, s: Life, l: Label, p: nat)
    requires Enabled(s, l) && MovesPhase(l) && p in s.polls && l.poll != p
    ensures p in Next(c, s, l).polls && Next(c, s, l).polls[p] == s.polls[p]
  {
  }

  lemma OtherLabelKeepsHold(c: Settings, w: World, l: Label, p: nat)
    requires CanMove(c, w, Lives(l)) && (MovesPhase(l) || l.PollEnds? ==> l.poll != p)
    ensures p in HoldsAfter(c, w, l) <==> p in w.holds
    ensures p in w.holds ==> HoldsAfter(c, w, l)[p] == w.holds[p]
  {
  }

  /**
   * In every state of every run a step of a poll, or the settling of one of its handler calls, brings its end nearer,
   * and nothing but the answer to its receive request takes the end further away.
   */
  lemma {:induction false} EveryStepIsProgress(c: Settings, run: seq<Move>, m: Move, p: nat)
    requires IsRunOf(c, NEW_WORLD, run) && CanMove(c, WorldAfter(c, NEW_WORLD, run), m)
    requires p in WorldAfter(c, NEW_WORLD, run).life.polls && !(m.ServerAnswers? && m.poll == p)
    ensures var w := WorldAfter(c, NEW_WORLD, run);
            && Work(Moved(c, w, m), p) <= Work(w, p)
            && (Advances(c, w, m, p) ==> Work(Moved(c, w, m), p) < Work(w, p))
  {
    RunStructured(c, run);
    StepIsProgress(c, WorldAfter(c, NEW_WORLD, run), m, p);
  }

  lemma StepIsProgress(c: Settings, w: World, m: Move, p: nat)
    requires Structured(c, w) && CanMove(c, w, m) && p in w.life.polls && !(m.ServerAnswers? && m.poll == p)
    ensures Work(Moved(c, w, m), p) <= Work(w, p)
    ensures Advances(c, w, m, p) ==> Work(Moved(c, w, m), p) < Work(w, p)
  {
    if m.Lives? && (MovesPhase(m.step) || m.step.PollEnds?) && m.step.poll == p {
      PhaseStepProgresses(c, w, m.step, p);
    } else if m.HandlerMoves? && m.poll == p {
      assert HoldOk(c, p, w.holds[p], w.life.polls[p]);
      CallStepProgresses(c, w.holds[p].messages, w.holds[p].calls, m.index, m.event);
    } else {
      OtherMoveKeepsWork(c, w, m, p);
    }
  }

  // ---------------------------------------------------------------- no poll is stuck

  /** What the server and the handlers do: handler call i goes through `events(i)` first. */
  datatype Environment = Environment(received: bool, events: nat -> HandlerEvent, reply: DeleteReply, released: bool)

  /** The move is one of poll p, and the environment plays its part in it. */
  predicate Obeys(env: Environment, m: Move, p: nat) {
    match m
    case Lives(ReceiveEnds(q, response)) => q == p && (response.Some? <==> env.received)
    case Lives(PollContinues(q)) => q == p
    case Lives(ProcessEnds(q, _)) => q == p
    case Lives(DeleteEnds(q, reply)) => q == p && reply == env.reply
    case Lives(VisibilityEnds(q, ok)) => q == p && ok == env.released
    case Lives(PollEnds(q)) => q == p
    case HandlerMoves(q, i, ev) => q == p && ev == env.events(i)
    case _ => false
  }

  ghost predicate Settles(env: Environment, timeout: Option<nat>) {
    forall i :: Decisive(env.events(i), timeout)
  }

  /** The response that the poll can get. */
  function ResponseTo(env: Environment, w: World, p: nat): Option<seq<Message>> {
    if !env.received then None else if p in w.holds then Some(w.holds[p].messages) else Some([])
  }

  /** A poll in flight always has a next move, whatever the environment does. */
  lemma PollIsNeverStuck(c: Settings, w: World, p: nat, env: Environment) returns (m: Move)
    requires Structured(c, w) && p in w.life.polls && Settles(env, c.handleMessageTimeout)
    ensures CanMove(c, w, m) && Advances(c, w, m, p) && Obeys(env, m, p)
  {
    match w.life.polls[p] {
      case Receiving => m := Lives(ReceiveEnds(p, ResponseTo(env, w, p)));
      case Received(_) => m := Lives(PollContinues(p));
      case Processing(messages) =>
        assert p in w.holds && HoldOk(c, p, w.holds[p], w.life.polls[p]);
        var calls := w.holds[p].calls;
        if AllSettled(messages, calls) {
          ResultIsSound(c, messages, calls);
          m := Lives(ProcessEnds(p, ResultOf(c, calls)));
        } else {
          var i := SomeCallIsPending(c, messages, calls);
          m := HandlerMoves(p, i, env.events(i));
        }
      case Deleting(_, _) => m := Lives(DeleteEnds(p, env.reply));
      case Terminating(_) => m := Lives(VisibilityEnds(p, env.released));
      case Ending(_) => m := Lives(PollEnds(p));
    }
  }

  /** The batch that a poll in this phase still has to report. */
  function Owed(phase: Phase): Option<seq<Message>> {
    match phase
    case Received(messages) => if messages == [] then None else Some(messages)
    case Processing(messages) => Some(messages)
    case Deleting(messages, _) => Some(messages)
    case _ => None
  }

  /** One of the events reports every message of the batch exactly once. */
  predicate Reports(events: seq<Event>, messages: seq<Message>) {
    exists i :: 0 <= i < |events| && events[i].ProcessingEnd? && Listed(events[i].processed) == multiset(messages)
  }

  lemma TraceGrows(c: Config, s: Life, l: Label)
    requires Enabled(s, l)
    ensures s.trace <= Next(c, s, l).trace
  {
  }

  lemma ReportIsSeen(c: Config, s: Life, p: nat, messages: seq<Message>, r: ProcessorResult)
    requires Listed(r) == multiset(messages)
    ensures var s' := Report(c, s, p, r);
            s.trace <= s'.trace && p in s'.polls && Reports(s'.trace[|s.trace|..], messages)
  {
    assert Report(c, s, p, r).trace[|s.trace|..][0] == ProcessingEnd(r);
  }

  /** A batch stays owed until it is reported. */
  ghost predicate OwedOrReported(s: Life, s': Life, p: nat) {
    p in s.polls && Owed(s.polls[p]).Some? ==>
      && s.trace <= s'.trace && p in s'.polls
      && (Owed(s'.polls[p]) == Owed(s.polls[p]) || Reports(s'.trace[|s.trace|..], Owed(s.polls[p]).value))
  }

  lemma ReportPays(c: Config, s: Life, p: nat, messages: seq<Message>, r: ProcessorResult)
    requires p in s.polls && Owed(s.polls[p]) == Some(messages) && Listed(r) == multiset(messages)
    ensures OwedOrReported(s, Report(c, s, p, r), p)
  {
    ReportIsSeen(c, s, p, messages, r);
  }

  lemma ProcessEndReports(c: Config, s: Life, p: nat, r: ProcessorResult)
    requires Enabled(s, ProcessEnds(p, r))
    ensures OwedOrReported(s, Next(c, s, ProcessEnds(p, r)), p)
  {
    var s' := Next(c, s, ProcessEnds(p, r));
    if r.success == [] {
      assert s' == Report(c, s, p, r);
      ReportPays(c, s, p, s.polls[p].messages, r);
    } else {
      assert s'.polls[p] == Deleting(s.polls[p].messages, r) && s'.trace == s.trace;
    }
  }

  lemma DeleteEndReports(c: Config, s: Life, p: nat, reply: DeleteReply)
    requires Enabled(s, DeleteEnds(p, reply)) && PhaseOk(p, s.polls[p], false)
    ensures OwedOrReported(s, Next(c, s, DeleteEnds(p, reply)), p)
  {
    var processed := s.polls[p].processed;
    AcknowledgingConserves(AsWritten, processed, reply);
    ReportPays(c, s, p, s.polls[p].messages, Acknowledged(AsWritten, processed, reply));
  }

  lemma PhaseMoveReports(c: Config, s: Life, l: Label, p: nat)
    requires Enabled(s, l) && (MovesPhase(l) || l.PollEnds?) && l.poll == p
    requires l.DeleteEnds? ==> PhaseOk(p, s.polls[p], false)
    ensures OwedOrReported(s, Next(c, s, l), p)
  {
    match l {
      case ProcessEnds(_, r) => ProcessEndReports(c, s, p, r);
      case DeleteEnds(_, reply) => DeleteEndReports(c, s, p, reply);
      case _ =>
    }
  }

  lemma OwedUntilReported(c: Settings, w: World, m: Move, p: nat)
    requires Structured(c, w) && CanMove(c, w, m) && Advances(c, w, m, p)
    ensures OwedOrReported(w.life, Moved(c, w, m).life, p)
  {
    if m.Lives? {
      PhaseMoveReports(c.life, w.life, m.step, p);
    }
  }

  lemma ReportsLater(before: seq<Event>, middle: seq<Event>, after: seq<Event>, messages: seq<Message>)
    requires before <= middle <= after
    requires Reports(middle[|before|..], messages) || Reports(after[|middle|..], messages)
    ensures Reports(after[|before|..], messages)
  {
    if Reports(middle[|before|..], messages) {
      var events := middle[|before|..];
      var i :| 0 <= i < |events| && events[i].ProcessingEnd? && Listed(events[i].processed) == multiset(messages);
      assert after[|before|..][i] == events[i];
    } else {
      var events := after[|middle|..];
      var i :| 0 <= i < |events| && events[i].ProcessingEnd? && Listed(events[i].processed) == multiset(messages);
      assert after[|before|..][i + |middle| - |before|] == events[i];
    }
  }

  /** The longer run goes on from the shorter one by moves of poll p alone. */
  predicate GoesOn(run: seq<Move>, run': seq<Move>, p: nat, env: Environment) {
    run <= run' && forall k :: |run| <= k < |run'| ==> Obeys(env, run'[k], p)
  }

  /** A move of a poll leaves the pending `stop()` calls alone, and a single chain single. */
  lemma MoveKeepsStops(c: Settings, w: World, m: Move, p: nat, env: Environment)
    requires CanMove(c, w, m) && Obeys(env, m, p)
    ensures Moved(c, w, m).life.stops == w.life.stops
    ensures Single(w.life) ==> Single(Moved(c, w, m).life)
  {
    if m.Lives? {
      LabelKeepsStops(c.life, w.life, m.step);
    }
  }

  lemma LabelKeepsStops(c: Config, s: Life, l: Label)
    requires Enabled(s, l) && (MovesPhase(l) || l.PollEnds?)
    ensures Next(c, s, l).stops == s.stops
    ensures Single(s) ==> Single(Next(c, s, l))
  {
    if MovesPhase(l) {
      PhaseMove(c, s, l);
    }
    if Single(s) {
      SingleStep(c, s, l);
    }
  }

  /** One move of poll p that goes on from a run. */
  lemma GoOn(c: Settings, run: seq<Move>, p: nat, env: Environment) returns (run': seq<Move>)
    requires IsRunOf(c, NEW_WORLD, run) && p in WorldAfter(c, NEW_WORLD, run).life.polls
    requires Settles(env, c.handleMessageTimeout)
    ensures IsRunOf(c, NEW_WORLD, run') && GoesOn(run, run', p, env)
    ensures var w, w' := WorldAfter(c, NEW_WORLD, run), WorldAfter(c, NEW_WORLD, run');
            && Work(w', p) < Work(w, p)
            && w.life.trace <= w'.life.trace && OwedOrReported(w.life, w'.life, p)
            && w'.life.stops == w.life.stops && (Single(w.life) ==> Single(w'.life))
  {
    var w := WorldAfter(c, NEW_WORLD, run);
    RunStructured(c, run);
    var m := PollIsNeverStuck(c, w, p, env);
    run' := run + [m];
    assert run'[..|run|] == run;
    StepIsProgress(c, w, m, p);
    OwedUntilReported(c, w, m, p);
    MoveKeepsStops(c, w, m, p, env);
    if m.Lives? {
      TraceGrows(c.life, w.life, m.step);
    }
  }

  /**
   * Every run can go on by moves of a poll in flight alone until that poll has ended, whatever its handlers and the
   * server do; and a batch that it was processing has then been reported, every message exactly once.
   */
  lemma {:induction false} EveryPollCanEnd(c: Settings, run: seq<Move>, p: nat, env: Environment)
    returns (run': seq<Move>)
    requires IsRunOf(c, NEW_WORLD, run) && p in WorldAfter(c, NEW_WORLD, run).life.polls
    requires Settles(env, c.handleMessageTimeout)
    ensures IsRunOf(c, NEW_WORLD, run') && GoesOn(run, run', p, env)
    ensures p !in WorldAfter(c, NEW_WORLD, run').life.polls
    ensures var s, s' := WorldAfter(c, NEW_WORLD, run).life, WorldAfter(c, NEW_WORLD, run').life;
            && s'.stops == s.stops && (Single(s) ==> Single(s'))
            && s.trace <= s'.trace
            && (Owed(s.polls[p]).Some? ==> Reports(s'.trace[|s.trace|..], Owed(s.polls[p]).value))
    decreases Work(WorldAfter(c, NEW_WORLD, run), p)
  {
    run' := GoOn(c, run, p, env);
    var s, s1 := WorldAfter(c, NEW_WORLD, run).life, WorldAfter(c, NEW_WORLD, run').life;
    if p in s1.polls {
      run' := EveryPollCanEnd(c, run', p, env);
      if Owed(s.polls[p]).Some? {
        ReportsLater(s.trace, s1.trace, WorldAfter(c, NEW_WORLD, run').life.trace, Owed(s.polls[p]).value);
      }
    }
  }
  /** The rest of a `stop()` whose poll has ended. */
  lemma StopCompletes(c: Settings, run: seq<Move>, k: nat)
    requires IsRunOf(c, NEW_WORLD, run)
    requires var s := WorldAfter(c, NEW_WORLD, run).life; k in s.stops && s.stops[k] !in s.polls
    ensures var run' := run + [Lives(StopResumes(k))];
            && IsRunOf(c, NEW_WORLD, run')
            && var s, s' := WorldAfter(c, NEW_WORLD, run).life, WorldAfter(c, NEW_WORLD, run').life;
               s'.stopped && k !in s'.stops && (Single(s) ==> Quiet(s'))
  {
    var w := WorldAfter(c, NEW_WORLD, run);
    assert CanMove(c, w, Lives(StopResumes(k)));
    assert (run + [Lives(StopResumes(k))])[..|run|] == run;
    if Single(w.life) {
      SingleStep(c.life, w.life, StopResumes(k));
    }
  }

  /**
   * In every run a pending `stop()` can complete, by moves of the poll it awaits alone, whatever the handlers and the
   * server do; and in a disciplined run nothing is then in flight.
   */
  lemma {:induction false} EveryStopCanComplete(c: Settings, run: seq<Move>, k: nat, env: Environment)
    returns (run': seq<Move>)
    requires IsRunOf(c, NEW_WORLD, run) && k in WorldAfter(c, NEW_WORLD, run).life.stops
    requires Settles(env, c.handleMessageTimeout)
    ensures IsRunOf(c, NEW_WORLD, run' + [Lives(StopResumes(k))])
    ensures GoesOn(run, run', WorldAfter(c, NEW_WORLD, run).life.stops[k], env)
    ensures var s' := WorldAfter(c, NEW_WORLD, run' + [Lives(StopResumes(k))]).life;
            s'.stopped && k !in s'.stops && (IsDisciplinedRun(c.life, FRESH, LabelsOf(run)) ==> Quiet(s'))
  {
    var s := WorldAfter(c, NEW_WORLD, run).life;
    if s.stops[k] in s.polls {
      run' := EveryPollCanEnd(c, run, s.stops[k], env);
    } else {
      run' := run;
    }
    StopCompletes(c, run', k);
    if IsDisciplinedRun(c.life, FRESH, LabelsOf(run)) {
      RunProjects(c, run);
      DisciplinedRunIsSingle(c.life, LabelsOf(run));
    }
  }
}
