/** What leaves the queue, what remains when `stop()` completes, and how many handlers run. */
module NoLoss {
  import opened Sequences
  import opened Processors
  import opened Acknowledge
  import opened Consumer
  import opened ConsumerRuns
  import opened Delivery
  import opened DeliveryRuns
  import opened HandlerHistory

  // ---------------------------------------------------------------- deletions follow success

  /** The calls of a batch agree with the remembered outcomes. */
  ghost predicate Remembered(outcomes: map<Message, Outcome>, hold: Hold) {
    match hold
    case Handling(messages, calls, _) =>
      |calls| <= |messages|
      && (forall i :: 0 <= i < |messages| ==>
            if i < |calls| && calls[i].outcome.Some?
            then messages[i] in outcomes && outcomes[messages[i]] == calls[i].outcome.value
            else messages[i] !in outcomes)
    case _ => forall m :: m in hold.messages ==> m !in outcomes
  }

  ghost predicate Succeeded(outcomes: map<Message, Outcome>, m: Message) {
    m in outcomes && outcomes[m].Fulfilled?
  }

  ghost predicate HoldsRemembered(w: World) {
    forall p :: p in w.holds ==> Remembered(w.outcomes, w.holds[p])
  }

  /** An outcome belongs to a poll that has received its batch. */
  ghost predicate OutcomesDated(w: World) {
    forall m :: m in w.outcomes ==>
      m.receipt < w.life.next && (m.receipt in w.life.polls ==> !w.life.polls[m.receipt].Receiving?)
  }

  /** Only successes are named by delete requests. */
  ghost predicate RequestsSucceeded(w: World) {
    forall m :: m in w.deletes ==> Succeeded(w.outcomes, m)
  }

  ghost predicate DeletedSucceeded(w: World) {
    forall m :: m in w.deleted ==> Succeeded(w.outcomes, m)
  }

  ghost predicate IdDeleted(w: World, id: string) {
    exists m :: m in w.deleted && m.id == id
  }

  ghost predicate Retained(w: World) {
    forall id :: id in w.enqueued ==> id in w.queue || IdDeleted(w, id)
  }

  ghost predicate Historic(w: World) {
    HoldsRemembered(w) && OutcomesDated(w) && RequestsSucceeded(w) && DeletedSucceeded(w) && Retained(w)
  }

  lemma {:induction false} GatheredSuccess(outcomes: seq<Outcome>, m: Message)
    requires m in GatherSequential(outcomes).success
    ensures Fulfilled(m) in outcomes
  {
    var init := outcomes[..|outcomes| - 1];
    assert outcomes == init + [outcomes[|outcomes| - 1]];
    if m in GatherSequential(init).success {
      GatheredSuccess(init, m);
    }
  }

  /** A message that `process` returns as a success is one whose handler was fulfilled first. */
  lemma ResultSucceeded(c: Settings, w: World, p: nat, m: Message)
    requires Structured(c, w) && Historic(w) && p in w.holds && w.holds[p].Handling?
    requires AllSettled(w.holds[p].messages, w.holds[p].calls) && m in ResultOf(c, w.holds[p].calls).success
    ensures Succeeded(w.outcomes, m)
  {
    var Handling(messages, calls, _) := w.holds[p];
    var outcomes := OutcomesOf(calls);
    GatheringAgreesExactly(outcomes);
    GatheredSuccess(outcomes, m);
    var i :| 0 <= i < |outcomes| && outcomes[i] == Fulfilled(m);
    assert CallOk(calls[i], messages[i], c.handleMessageTimeout);
    assert Remembered(w.outcomes, w.holds[p]);
  }

  lemma StepCallsRemembered(c: Settings, w: World, p: nat, i: nat, ev: HandlerEvent)
    requires Structured(c, w) && Historic(w) && CanMove(c, w, HandlerMoves(p, i, ev))
    ensures var w' := Moved(c, w, HandlerMoves(p, i, ev));
            && Remembered(w'.outcomes, w'.holds[p])
            && (forall m :: m in w.outcomes ==> m in w'.outcomes && w'.outcomes[m] == w.outcomes[m])
            && (forall m :: m in w'.outcomes ==> m in w.outcomes || m == w.holds[p].messages[i])
  {
    var Handling(messages, calls, _) := w.holds[p];
    assert HoldOk(c, p, w.holds[p], w.life.polls[p]);
    assert Remembered(w.outcomes, w.holds[p]);
    CallsRemembered(c, w.outcomes, messages, calls, i, ev);
  }

  /** An event of one call is remembered once, under its own message. */
  lemma CallsRemembered(
    c: Settings, outcomes: map<Message, Outcome>, messages: seq<Message>, calls: Calls, i: nat, ev: HandlerEvent)
    requires CallsOk(c, messages, calls) && DistinctIds(messages) && i < |calls|
    requires Remembered(outcomes, Handling(messages, calls, None))
    ensures var outcomes' := Remember(outcomes, calls[i], HandlerStep(calls[i], ev));
            && Remembered(outcomes', Handling(messages, StepCalls(c, messages, calls, i, ev), None))
            && (forall m :: m in outcomes ==> m in outcomes' && outcomes'[m] == outcomes[m])
            && (forall m :: m in outcomes' ==> m in outcomes || m == messages[i])
  {
    assert CallOk(calls[i], messages[i], c.handleMessageTimeout);
    HandlerStepOk(calls[i], messages[i], c.handleMessageTimeout, ev);
    assert forall j :: 0 <= j < |messages| && j != i ==> messages[j].id != messages[i].id;
  }

  /** The other batches do not notice: their messages carry other receipts. */
  lemma OtherBatchesRemembered(c: Settings, w: World, p: nat, i: nat, ev: HandlerEvent, q: nat)
    requires Structured(c, w) && Historic(w) && CanMove(c, w, HandlerMoves(p, i, ev))
    requires q in w.holds && q != p
    ensures Remembered(Moved(c, w, HandlerMoves(p, i, ev)).outcomes, w.holds[q])
  {
    StepCallsRemembered(c, w, p, i, ev);
    var x, hold := w.holds[p].messages[i], w.holds[q];
    assert x in w.holds[p].messages && x.receipt == p;
    assert Remembered(w.outcomes, hold);
    assert forall m :: m in hold.messages ==> m.receipt == q;
    assert forall k :: 0 <= k < |hold.messages| ==> hold.messages[k] in hold.messages;
  }

  lemma HandlerHistoric(c: Settings, w: World, p: nat, i: nat, ev: HandlerEvent)
    requires Structured(c, w) && Historic(w) && CanMove(c, w, HandlerMoves(p, i, ev))
    ensures Historic(Moved(c, w, HandlerMoves(p, i, ev)))
  {
    var w' := Moved(c, w, HandlerMoves(p, i, ev));
    StepCallsRemembered(c, w, p, i, ev);
    assert HoldsRemembered(w') by {
      forall q | q in w'.holds && q != p
        ensures Remembered(w'.outcomes, w'.holds[q])
      {
        OtherBatchesRemembered(c, w, p, i, ev, q);
      }
    }
    assert OutcomesDated(w') by {
      assert w.holds[p].messages[i].receipt == p;
    }
    assert Retained(w') by {
      assert forall id :: IdDeleted(w, id) ==> IdDeleted(w', id);
    }
  }

  lemma StartCallsRemembered(c: Settings, outcomes: map<Message, Outcome>, messages: seq<Message>, tick: Option<nat>)
    requires messages != [] && forall m :: m in messages ==> m !in outcomes
    ensures Remembered(outcomes, Handling(messages, StartCalls(c, messages), tick))
  {
    assert forall i :: 0 <= i < |messages| ==> messages[i] in messages;
  }

  lemma LivesOutcomesDated(c: Settings, w: World, l: Label)
    requires Structured(c, w) && Historic(w) && CanMove(c, w, Lives(l))
    ensures OutcomesDated(Moved(c, w, Lives(l)))
  {
    var w' := Moved(c, w, Lives(l));
    NamesGrow(c.life, w.life, l);
    forall m | m in w'.outcomes && m.receipt in w'.life.polls
      ensures !w'.life.polls[m.receipt].Receiving?
    {
      if w'.life.polls[m.receipt].Receiving? {
        ReceivingIsNew(c.life, w.life, l, m.receipt);
      }
    }
  }

  lemma LivesHoldsRemembered(c: Settings, w: World, l: Label)
    requires Structured(c, w) && Historic(w) && CanMove(c, w, Lives(l))
    ensures HoldsRemembered(Moved(c, w, Lives(l)))
  {
    var holds := HoldsAfter(c, w, l);
    forall q | q in holds
      ensures Remembered(w.outcomes, holds[q])
    {
      assert q in w.holds && Remembered(w.outcomes, w.holds[q]);
      if l == PollContinues(q) && w.holds[q].messages != [] {
        assert w.holds[q].Arrived?;
        StartCallsRemembered(c, w.outcomes, w.holds[q].messages, holds[q].tick);
      } else if l.ReceiveEnds? && l.poll == q {
        assert w.holds[q].Answered?;
      }
    }
  }

  lemma LivesRequestsSucceeded(c: Settings, w: World, l: Label)
    requires Structured(c, w) && Historic(w) && CanMove(c, w, Lives(l))
    ensures RequestsSucceeded(Moved(c, w, Lives(l)))
  {
    forall m | m in DeletesOf(l)
      ensures Succeeded(w.outcomes, m)
    {
      ResultSucceeded(c, w, l.poll, m);
    }
  }

  lemma LivesHistoric(c: Settings, w: World, l: Label)
    requires Structured(c, w) && Historic(w) && CanMove(c, w, Lives(l))
    ensures Historic(Moved(c, w, Lives(l)))
  {
    LivesHoldsRemembered(c, w, l);
    LivesOutcomesDated(c, w, l);
    LivesRequestsSucceeded(c, w, l);
    var w' := Moved(c, w, Lives(l));
    assert w'.deleted == w.deleted && w'.outcomes == w.outcomes && w'.queue == w.queue && w'.enqueued == w.enqueued;
    assert forall id :: IdDeleted(w, id) ==> IdDeleted(w', id);
  }

  lemma MoveHistoric(c: Settings, w: World, m: Move)
    requires Structured(c, w) && Historic(w) && CanMove(c, w, m)
    ensures Historic(Moved(c, w, m))
  {
    match m {
      case Lives(l) => LivesHistoric(c, w, l);
      case HandlerMoves(p, i, ev) => HandlerHistoric(c, w, p, i, ev);
      case ServerAnswers(p, ids) => AnswerHistoric(c, w, p, ids);
      case ServerDeletes(x) => DeleteHistoric(c, w, x);
      case _ => OtherMoveHistoric(c, w, m);
    }
  }

  lemma OtherMoveHistoric(c: Settings, w: World, m: Move)
    requires Structured(c, w) && Historic(w) && CanMove(c, w, m)
    requires !m.Lives? && !m.HandlerMoves? && !m.ServerAnswers? && !m.ServerDeletes?
    ensures Historic(Moved(c, w, m))
  {
    var w' := Moved(c, w, m);
    if m.Ticks? {
      assert Remembered(w.outcomes, w.holds[m.poll]);
    }
    assert Retained(w') by {
      assert forall id :: IdDeleted(w, id) ==> IdDeleted(w', id);
    }
  }

  lemma AnswerHistoric(c: Settings, w: World, p: nat, ids: seq<string>)
    requires Structured(c, w) && Historic(w) && CanMove(c, w, ServerAnswers(p, ids))
    ensures Historic(Moved(c, w, ServerAnswers(p, ids)))
  {
    var w' := Moved(c, w, ServerAnswers(p, ids));
    assert forall m :: m in Deliveries(ids, p) ==> m.receipt == p;
    assert Retained(w') by {
      assert forall id :: IdDeleted(w, id) ==> IdDeleted(w', id);
    }
  }

  lemma DeleteHistoric(c: Settings, w: World, x: Message)
    requires Structured(c, w) && Historic(w) && CanMove(c, w, ServerDeletes(x))
    ensures Historic(Moved(c, w, ServerDeletes(x)))
  {
    var w' := Moved(c, w, ServerDeletes(x));
    forall id | id in w'.enqueued
      ensures id in w'.queue || IdDeleted(w', id)
    {
      if id == x.id {
        assert x in w'.deleted;
      } else if id !in w.queue {
        var m :| m in w.deleted && m.id == id;
        assert m in w'.deleted;
      }
    }
  }

  lemma {:induction false} RunHistoric(c: Settings, run: seq<Move>)
    requires IsRunOf(c, NEW_WORLD, run)
    ensures Historic(WorldAfter(c, NEW_WORLD, run))
  {
    if run != [] {
      var init := run[..|run| - 1];
      RunHistoric(c, init);
      RunStructured(c, init);
      MoveHistoric(c, WorldAfter(c, NEW_WORLD, init), run[|run| - 1]);
    }
  }

  /** Remembered outcomes name their own message and are never changed. */
  lemma MoveKeepsOutcomes(c: Settings, w: World, m: Move, x: Message)
    requires Structured(c, w) && Historic(w) && CanMove(c, w, m)
    ensures x in w.outcomes ==> x in Moved(c, w, m).outcomes && Moved(c, w, m).outcomes[x] == w.outcomes[x]
    ensures x in Moved(c, w, m).outcomes && x !in w.outcomes ==> OwnOutcome(Moved(c, w, m).outcomes[x], x)
  {
    if m.HandlerMoves? {
      StepCallsRemembered(c, w, m.poll, m.index, m.event);
      var hold := w.holds[m.poll];
      assert CallOk(hold.calls[m.index], hold.messages[m.index], c.handleMessageTimeout);
      HandlerStepOk(hold.calls[m.index], hold.messages[m.index], c.handleMessageTimeout, m.event);
    }
  }

  lemma {:induction false} OutcomesAreOwn(c: Settings, run: seq<Move>, x: Message)
    requires IsRunOf(c, NEW_WORLD, run) && x in WorldAfter(c, NEW_WORLD, run).outcomes
    ensures OwnOutcome(WorldAfter(c, NEW_WORLD, run).outcomes[x], x)
  {
    if run != [] {
      var init := run[..|run| - 1];
      RunStructured(c, init);
      RunHistoric(c, init);
      MoveKeepsOutcomes(c, WorldAfter(c, NEW_WORLD, init), run[|run| - 1], x);
      if x in WorldAfter(c, NEW_WORLD, init).outcomes {
        OutcomesAreOwn(c, init, x);
      }
    }
  }

  /** What the world remembers of a run is what its moves have done. */
  lemma {:induction false} HistoryExactly(c: Settings, run: seq<Move>, m: Message, id: string)
    requires IsRunOf(c, NEW_WORLD, run)
    ensures m in WorldAfter(c, NEW_WORLD, run).deleted <==> ServerDeletes(m) in run
    ensures id in WorldAfter(c, NEW_WORLD, run).enqueued <==> Enqueue(id) in run
  {
    if run != [] {
      var init, last := run[..|run| - 1], run[|run| - 1];
      HistoryExactly(c, init, m, id);
      assert run == init + [last];
      MoveHistory(c, WorldAfter(c, NEW_WORLD, init), last, m, id);
    }
  }

  lemma MoveHistory(c: Settings, w: World, move: Move, m: Message, id: string)
    requires CanMove(c, w, move)
    ensures m in Moved(c, w, move).deleted <==> m in w.deleted || move == ServerDeletes(m)
    ensures id in Moved(c, w, move).enqueued <==> id in w.enqueued || move == Enqueue(id)
  {
  }

  /** An outcome, once remembered, never changes. */
  lemma {:induction false} OutcomesAreFinal(c: Settings, run: seq<Move>, more: seq<Move>, m: Message)
    requires IsRunOf(c, NEW_WORLD, run + more) && IsRunOf(c, NEW_WORLD, run)
    requires m in WorldAfter(c, NEW_WORLD, run).outcomes
    ensures m in WorldAfter(c, NEW_WORLD, run + more).outcomes
    ensures WorldAfter(c, NEW_WORLD, run + more).outcomes[m] == WorldAfter(c, NEW_WORLD, run).outcomes[m]
  {
    if more == [] {
      assert run + more == run;
    } else {
      var init := more[..|more| - 1];
      assert (run + more)[..|run + more| - 1] == run + init;
      OutcomesAreFinal(c, run, init, m);
      RunStructured(c, run + init);
      RunHistoric(c, run + init);
      MoveKeepsOutcomes(c, WorldAfter(c, NEW_WORLD, run + init), more[|more| - 1], m);
    }
  }

  /**
   * In every run a message is deleted only when the race of that delivery was won by its handler, with success: in the
   * events of its own call the first that decides is the fulfilment.
   */
  lemma OnlySuccessIsDeleted(c: Settings, run: seq<Move>, m: Message)
    requires IsRunOf(c, NEW_WORLD, run) && ServerDeletes(m) in run
    ensures HandledAs(c, run, m, Fulfilled(m))
    ensures var w := WorldAfter(c, NEW_WORLD, run); m in w.outcomes && w.outcomes[m] == Fulfilled(m)
  {
    HistoryExactly(c, run, m, m.id);
    RunHistoric(c, run);
    assert Succeeded(WorldAfter(c, NEW_WORLD, run).outcomes, m);
    OutcomesAreOwn(c, run, m);
    OutcomesExactly(c, run, m, Fulfilled(m));
  }

  /** A message with no fulfilled delivery - all failed, timed out or pending - is still in the queue. */
  lemma UnacknowledgedIsKept(c: Settings, run: seq<Move>, id: string)
    requires IsRunOf(c, NEW_WORLD, run) && Enqueue(id) in run
    requires forall m: Message :: m.id == id ==> !HandledAs(c, run, m, Fulfilled(m))
    ensures id in WorldAfter(c, NEW_WORLD, run).queue
  {
    RunHistoric(c, run);
    var w := WorldAfter(c, NEW_WORLD, run);
    forall m | m in w.deleted
      ensures m.id != id
    {
      HistoryExactly(c, run, m, id);
      OnlySuccessIsDeleted(c, run, m);
    }
    HistoryExactly(c, run, Message(id, 0), id);
    assert !IdDeleted(w, id);
  }

  /** A delivery that was rejected - by its handler or by its timeout - is not deleted, then or later. */
  lemma FailuresAreNeverDeleted(c: Settings, run: seq<Move>, more: seq<Move>, m: Message, reason: Thrown)
    requires IsRunOf(c, NEW_WORLD, run + more) && IsRunOf(c, NEW_WORLD, run)
    requires HandledAs(c, run, m, Rejected(reason))
    ensures ServerDeletes(m) !in run + more
  {
    OutcomesExactly(c, run, m, Rejected(reason));
    OutcomesAreFinal(c, run, more, m);
    if ServerDeletes(m) in run + more {
      OnlySuccessIsDeleted(c, run + more, m);
    }
  }

  // ---------------------------------------------------------------- what is requested

  /** `process` has returned m as a success along the run. */
  ghost predicate ReturnedAsSuccess(run: seq<Move>, m: Message) {
    exists k :: 0 <= k < |run| && run[k].Lives? && run[k].step.ProcessEnds? && m in run[k].step.result.success
  }

  /**
   * In every run delete requests have named exactly the messages that `process` has returned as successes; those that
   * a poll is waiting for are among them.
   */
  lemma {:induction false} DeletesExactly(c: Settings, run: seq<Move>, m: Message, p: nat)
    requires IsRunOf(c, NEW_WORLD, run)
    ensures var w := WorldAfter(c, NEW_WORLD, run);
            && (m in w.deletes <==> ReturnedAsSuccess(run, m))
            && (p in w.life.polls && w.life.polls[p].Deleting? && m in w.life.polls[p].processed.success ==>
                  m in w.deletes)
  {
    if run != [] {
      var init, last := run[..|run| - 1], run[|run| - 1];
      var w, w' := WorldAfter(c, NEW_WORLD, init), WorldAfter(c, NEW_WORLD, run);
      DeletesExactly(c, init, m, p);
      MoveDeletes(c, w, last, m, p);
      assert forall k :: 0 <= k < |init| ==> init[k] == run[k];
    }
  }

  lemma MoveDeletes(c: Settings, w: World, move: Move, m: Message, p: nat)
    requires CanMove(c, w, move)
    requires p in w.life.polls && w.life.polls[p].Deleting? && m in w.life.polls[p].processed.success ==> m in w.deletes
    ensures var w' := Moved(c, w, move);
            && (m in w'.deletes <==>
                  m in w.deletes || (move.Lives? && move.step.ProcessEnds? && m in move.step.result.success))
            && (p in w'.life.polls && w'.life.polls[p].Deleting? && m in w'.life.polls[p].processed.success ==>
                  m in w'.deletes)
  {
    if move.Lives? {
      var s' := Next(c.life, w.life, move.step);
      if p in s'.polls && s'.polls[p].Deleting? {
        DeletingIsNew(c.life, w.life, move.step, p);
      }
    }
  }

  /** A PROCESSING_END reports a failure of m, and none of its failures names `undefined`. */
  ghost predicate ReportedAsFailure(trace: seq<Event>, m: Message) {
    exists k: nat, j: nat :: ReportsFailure(trace, m, k, j)
  }

  predicate ReportsFailure(trace: seq<Event>, m: Message, k: nat, j: nat) {
    && k < |trace| && trace[k].ProcessingEnd? && AllNamed(trace[k].processed.failed)
    && j < |trace[k].processed.failed| && trace[k].processed.failed[j].SqsMessageError?
    && trace[k].processed.failed[j].message == Some(m)
  }

  lemma {:induction false} FailedMessagesMembers(failed: seq<Thrown>, m: Message)
    ensures m in FailedMessages(failed)
            <==> exists j :: 0 <= j < |failed| && failed[j].SqsMessageError? && failed[j].message == Some(m)
  {
    if failed != [] {
      var init := failed[..|failed| - 1];
      FailedMessagesMembers(init, m);
      assert forall j :: 0 <= j < |init| ==> init[j] == failed[j];
    }
  }

  lemma ReportedSnoc(trace: seq<Event>, e: Event, m: Message)
    ensures ReportedAsFailure(trace + [e], m) <==>
            ReportedAsFailure(trace, m)
            || (e.ProcessingEnd? && AllNamed(e.processed.failed) && m in FailedMessages(e.processed.failed))
  {
    var trace' := trace + [e];
    if ReportedAsFailure(trace, m) {
      var k: nat, j: nat :| ReportsFailure(trace, m, k, j);
      assert ReportsFailure(trace', m, k, j);
    }
    if e.ProcessingEnd? {
      FailedMessagesMembers(e.processed.failed, m);
      if AllNamed(e.processed.failed) && m in FailedMessages(e.processed.failed) {
        var j :| 0 <= j < |e.processed.failed| && e.processed.failed[j].SqsMessageError?
                 && e.processed.failed[j].message == Some(m);
        assert ReportsFailure(trace', m, |trace|, j);
      }
    }
    if ReportedAsFailure(trace', m) {
      var k: nat, j: nat :| ReportsFailure(trace', m, k, j);
      if k < |trace| {
        assert ReportsFailure(trace, m, k, j);
      }
    }
  }

  /** A request for visibility 0 names the failures of the event emitted with it. */
  lemma ReleasesOfEvent(c: Config, s: Life, l: Label, events: seq<Event>, m: Message)
    requires Enabled(s, l) && Next(c, s, l).trace == s.trace + events && |events| <= 1
    ensures m in ReleasesOf(c, s, l)
            <==> && c.terminateVisibilityTimeout && events != [] && events[0].ProcessingEnd?
                 && AllNamed(events[0].processed.failed) && m in FailedMessages(events[0].processed.failed)
  {
    EmitsExactly(c, s, l);
    assert Next(c, s, l).trace[|s.trace|..] == events;
  }

  lemma LabelReleases(c: Config, s: Life, l: Label, m: Message)
    requires Enabled(s, l)
    ensures c.terminateVisibilityTimeout ==>
              (ReportedAsFailure(Next(c, s, l).trace, m) <==> ReportedAsFailure(s.trace, m) || m in ReleasesOf(c, s, l))
    ensures !c.terminateVisibilityTimeout ==> ReleasesOf(c, s, l) == {}
  {
    var events := Emitted(c, s, l);
    ReleasesOfEvent(c, s, l, events, m);
    if events == [] {
      assert s.trace + [] == s.trace;
    } else {
      assert events == [events[0]];
      ReportedSnoc(s.trace, events[0], m);
    }
  }

  lemma MoveReleases(c: Settings, w: World, move: Move, m: Message)
    requires CanMove(c, w, move)
    requires m in w.releases <==> c.life.terminateVisibilityTimeout && ReportedAsFailure(w.life.trace, m)
    ensures var w' := Moved(c, w, move);
            m in w'.releases <==> c.life.terminateVisibilityTimeout && ReportedAsFailure(w'.life.trace, m)
  {
    if move.Lives? {
      LabelReleases(c.life, w.life, move.step, m);
    } else if move.ExtensionIsLost? {
      ReportedSnoc(w.life.trace, ErrorEvent, m);
    }
  }

  /**
   * In every run requests for visibility 0 have named exactly the messages that a PROCESSING_END has reported as
   * failures, when `terminateVisibilityTimeout` is on and the event names no `undefined`; and nothing otherwise.
   */
  lemma {:induction false} ReleasesExactly(c: Settings, run: seq<Move>, m: Message)
    requires IsRunOf(c, NEW_WORLD, run)
    ensures var w := WorldAfter(c, NEW_WORLD, run);
            m in w.releases <==> c.life.terminateVisibilityTimeout && ReportedAsFailure(w.life.trace, m)
  {
    if run != [] {
      var init := run[..|run| - 1];
      ReleasesExactly(c, init, m);
      MoveReleases(c, WorldAfter(c, NEW_WORLD, init), run[|run| - 1], m);
    }
  }

  /** A request for visibility 0 that takes effect shows its message at once, and touches no other. */
  lemma ReleasedIsVisible(c: Settings, w: World, m: Message, id: string)
    requires CanMove(c, w, ServerReleases(m))
    ensures var w' := Moved(c, w, ServerReleases(m));
            && Visible(w', m.id) && Owns(w', m) && w'.queue[m.id].visibleAt == w'.now
            && (id != m.id ==> (id in w'.queue <==> id in w.queue) && (id in w.queue ==> w'.queue[id] == w.queue[id]))
  {
  }

  // ---------------------------------------------------------------- after stop()

  /**
   * When a `stop()` completes in a disciplined run, no batch is held: no handler is awaited and no heartbeat
   * ticks; and until the next `start()` the server gives no message to this consumer.
   */
  lemma StopReleasesEverything(c: Settings, run: seq<Move>)
    requires IsRunOf(c, NEW_WORLD, run) && run != [] && run[|run| - 1].Lives?
    requires var labels := LabelsOf(run);
             && IsDisciplinedRun(c.life, FRESH, labels)
             && labels != [] && Completes(After(c.life, FRESH, labels[..|labels| - 1]), labels[|labels| - 1])
    ensures var w := WorldAfter(c, NEW_WORLD, run);
            && Quiet(w.life) && w.holds == map[]
            && (forall p, ids :: !CanMove(c, w, ServerAnswers(p, ids)))
            && (forall p :: !CanMove(c, w, Ticks(p)))
  {
    RunProjects(c, run);
    RunStructured(c, run);
    StopDrains(c.life, LabelsOf(run));
    var w := WorldAfter(c, NEW_WORLD, run);
    assert w.holds.Keys == {};
  }

  /** Without a poll in flight nothing is held. */
  lemma QuietHoldsNothing(c: Settings, w: World)
    requires Structured(c, w) && Quiet(w.life)
    ensures w.holds == map[]
  {
    assert w.holds.Keys == {};
  }

  /** A move in a quiet world sends no request. */
  lemma QuietMove(c: Settings, w: World, m: Move)
    requires Quiet(w.life) && w.holds == map[] && CanMove(c, w, m) && !(m.Lives? && m.step.Start?)
    ensures var w' := Moved(c, w, m);
            && w'.extensions.Keys <= w.extensions.Keys && w'.deletes == w.deletes && w'.releases == w.releases
  {
  }

  lemma QuietMoveOfLife(c: Settings, w: World, m: Move)
    requires Quiet(w.life) && CanMove(c, w, m) && !(m.Lives? && m.step.Start?)
    ensures Quiet(Moved(c, w, m).life) && Receives(Moved(c, w, m).life.trace) == Receives(w.life.trace)
  {
    MoveProjects(c, w, m);
    if LabelOf(m).Some? {
      QuietStep(c.life, w.life, LabelOf(m).value);
    }
  }

  /**
   * Quiet worlds hold no batch until a `start()`; extensions still under way arrive or are lost, and no more are sent.
   */
  lemma {:induction false} QuietWorldStaysEmpty(c: Settings, w: World, run: seq<Move>)
    requires Structured(c, w) && Quiet(w.life) && IsRunOf(c, w, run)
    requires forall m :: m in run ==> !(m.Lives? && m.step.Start?)
    ensures var w' := WorldAfter(c, w, run);
            && Structured(c, w') && Quiet(w'.life) && w'.holds == map[]
            && Receives(w'.life.trace) == Receives(w.life.trace) && w'.extensions.Keys <= w.extensions.Keys
            && w'.deletes == w.deletes && w'.releases == w.releases
  {
    if run != [] {
      var init, m := run[..|run| - 1], run[|run| - 1];
      assert m in run && forall x :: x in init ==> x in run;
      QuietWorldStaysEmpty(c, w, init);
      var w1 := WorldAfter(c, w, init);
      MoveStructured(c, w1, m);
      QuietMove(c, w1, m);
      QuietMoveOfLife(c, w1, m);
    }
    QuietHoldsNothing(c, WorldAfter(c, w, run));
  }

  // ---------------------------------------------------------------- handlers at work

  /**
   * In sequential mode without a timeout, in every run at most one handler of a poll is running; and in every
   * disciplined run at most one of the whole consumer.
   */
  lemma OneHandlerAtATime(c: Settings, run: seq<Move>, p: nat, i: nat, q: nat, j: nat)
    requires !c.concurrent && c.handleMessageTimeout == None
    requires IsRunOf(c, NEW_WORLD, run)
    requires IsRunning(WorldAfter(c, NEW_WORLD, run), p, i) && IsRunning(WorldAfter(c, NEW_WORLD, run), q, j)
    ensures p == q ==> i == j
    ensures IsDisciplinedRun(c.life, FRESH, LabelsOf(run)) ==> p == q && i == j
  {
    RunStructured(c, run);
    var w := WorldAfter(c, NEW_WORLD, run);
    assert p in w.life.polls && q in w.life.polls;
    RunningCallIsLast(c, w, p, i);
    RunningCallIsLast(c, w, q, j);
    if IsDisciplinedRun(c.life, FRESH, LabelsOf(run)) {
      RunProjects(c, run);
      DisciplinedRunIsSingle(c.life, LabelsOf(run));
    }
  }

  lemma RunningCallIsLast(c: Settings, w: World, p: nat, i: nat)
    requires !c.concurrent && c.handleMessageTimeout == None && Structured(c, w) && IsRunning(w, p, i)
    ensures i == |w.holds[p].calls| - 1
  {
    var Handling(messages, calls, _) := w.holds[p];
    assert CallOk(calls[i], messages[i], None);
  }

  /** Handler call i of poll p is running. */
  predicate IsRunning(w: World, p: nat, i: nat) {
    p in w.holds && w.holds[p].Handling? && i < |w.holds[p].calls| && w.holds[p].calls[i].running
  }
}
