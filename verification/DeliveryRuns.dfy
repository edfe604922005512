/** What holds in every run of the consumer with its queue, its clock and its handlers. */
module DeliveryRuns {
  import opened Sequences
  import opened Processors
  import opened Acknowledge
  import opened Consumer
  import opened ConsumerRuns
  import opened Delivery

  // ---------------------------------------------------------------- the structure of a state

  /** One call: its message, its timer, and an outcome that names nothing but its message. */
  predicate CallOk(x: Execution, m: Message, timeout: Option<nat>) {
    && x.message == m
    && (x.outcome == None ==> x.running && (x.timer.Armed? <==> timeout.Some?))
    && (x.outcome.Some? ==> !x.timer.Armed? && OwnOutcome(x.outcome.value, m))
    && (timeout == None ==> x.timer == NoTimer && (x.outcome.Some? ==> !x.running))
  }

  predicate OwnOutcome(o: Outcome, m: Message) {
    match o
    case Fulfilled(x) => x == m
    case Rejected(reason) => reason.SqsMessageError? && reason.message == Some(m)
  }

  /** Concurrent: every call is made. Sequential: one after the other, the last one alone may be pending. */
  predicate CallsOk(c: Settings, messages: seq<Message>, calls: Calls) {
    && 0 < |calls| <= |messages|
    && (forall i :: 0 <= i < |calls| ==> CallOk(calls[i], messages[i], c.handleMessageTimeout))
    && (c.concurrent ==> |calls| == |messages|)
    && (!c.concurrent ==> forall i :: 0 <= i < |calls| - 1 ==> calls[i].outcome.Some?)
    && (!c.concurrent && |calls| < |messages| ==> calls[|calls| - 1].outcome == None)
  }

  /** The receipts of a batch are those of its poll. */
  predicate ReceivedBy(p: nat, messages: seq<Message>) {
    forall m :: m in messages ==> m.receipt == p
  }

  predicate HoldOk(c: Settings, p: nat, hold: Hold, phase: Phase) {
    && hold.messages != [] && ReceivedBy(p, hold.messages) && DistinctIds(hold.messages)
    && match hold
       case Answered(_, _) => phase.Receiving?
       case Arrived(messages) => phase == Received(messages)
       case Handling(messages, calls, tick) =>
         phase == Processing(messages) && CallsOk(c, messages, calls) && (tick.Some? <==> c.heartbeat.Some?)
  }

  predicate PhaseOk(p: nat, phase: Phase, held: bool) {
    match phase
    case Received(messages) => messages != [] ==> held
    case Processing(_) => held
    case Deleting(messages, processed) =>
      ReceivedBy(p, messages) && DistinctIds(messages) && Listed(processed) == multiset(messages)
    case Terminating(failed) => forall m :: m in FailedMessages(failed) ==> m.receipt == p
    case _ => true
  }

  ghost predicate Structured(c: Settings, w: World) {
    && Named(w.life)
    && (forall p :: p in w.holds ==> p in w.life.polls && HoldOk(c, p, w.holds[p], w.life.polls[p]))
    && (forall p :: p in w.life.polls ==> PhaseOk(p, w.life.polls[p], p in w.holds))
    && w.queue.Keys <= w.enqueued
    && (forall e :: e in w.extensions ==> e < w.nextExtension)
  }

  lemma HandlerStepOk(x: Execution, m: Message, timeout: Option<nat>, ev: HandlerEvent)
    requires CallOk(x, m, timeout)
    ensures CallOk(HandlerStep(x, ev), m, timeout)
    ensures x.outcome.Some? ==> HandlerStep(x, ev).outcome == x.outcome
  {
  }

  lemma StartCallsOk(c: Settings, messages: seq<Message>)
    requires messages != []
    ensures CallsOk(c, messages, StartCalls(c, messages))
  {
  }

  lemma StepCallsOk(c: Settings, messages: seq<Message>, calls: Calls, i: nat, ev: HandlerEvent)
    requires CallsOk(c, messages, calls) && i < |calls|
    ensures CallsOk(c, messages, StepCalls(c, messages, calls, i, ev))
  {
    HandlerStepOk(calls[i], messages[i], c.handleMessageTimeout, ev);
  }

  /** What `process` returns lists every message once, as the lifecycle demands of it. */
  lemma ResultIsSound(c: Settings, messages: seq<Message>, calls: Calls)
    requires CallsOk(c, messages, calls) && AllSettled(messages, calls)
    ensures Listed(ResultOf(c, calls)) == multiset(messages) && AllNamed(ResultOf(c, calls).failed)
  {
    var outcomes := OutcomesOf(calls);
    forall i | 0 <= i < |messages|
      ensures OwnOutcome(outcomes[i], messages[i])
    {
      assert CallOk(calls[i], messages[i], c.handleMessageTimeout);
    }
    GatheringConserves(messages, outcomes);
    GatheringAgreesExactly(outcomes);
  }

  lemma ReportOk(c: Config, s: Life, p: nat, messages: seq<Message>, r: ProcessorResult)
    requires p in s.polls && ReceivedBy(p, messages) && Listed(r) == multiset(messages)
    ensures PhaseOk(p, Report(c, s, p, r).polls[p], false)
    ensures Report(c, s, p, r).polls.Keys == s.polls.Keys
    ensures forall q :: q in s.polls && q != p ==> Report(c, s, p, r).polls[q] == s.polls[q]
    ensures !Report(c, s, p, r).polls[p].Deleting?
  {
    forall m | m in FailedMessages(r.failed)
      ensures m.receipt == p
    {
      assert m in multiset(messages);
    }
  }

  lemma LifeStructured(c: Settings, w: World, l: Label)
    requires Structured(c, w) && CanMove(c, w, Lives(l)) && (l.Start? || l.Stop? || l.StopResumes? || l.TimerFires?)
    ensures Structured(c, Moved(c, w, Lives(l)))
  {
    NamedLifeStep(c.life, w.life, l);
  }

  /** Only poll p and its batch have moved. */
  ghost predicate OnlyPoll(w: World, w': World, p: nat) {
    && w'.life.polls.Keys == w.life.polls.Keys
    && (forall q :: q in w.life.polls && q != p ==> w'.life.polls[q] == w.life.polls[q])
    && (forall q :: q != p ==> (q in w'.holds <==> q in w.holds))
    && (forall q :: q in w.holds && q != p ==> w'.holds[q] == w.holds[q])
    && w'.queue == w.queue && w'.enqueued == w.enqueued
    && w'.extensions == w.extensions && w'.nextExtension == w.nextExtension
  }

  lemma OnlyPollStructured(c: Settings, w: World, w': World, p: nat)
    requires Structured(c, w) && OnlyPoll(w, w', p) && Named(w'.life) && p in w'.life.polls
    requires p in w'.holds ==> HoldOk(c, p, w'.holds[p], w'.life.polls[p])
    requires PhaseOk(p, w'.life.polls[p], p in w'.holds)
    ensures Structured(c, w')
  {
  }

  lemma OnlyHoldMoves(c: Settings, w: World, l: Label, q: nat)
    requires Enabled(w.life, l) && LabelFits(c, w, l) && MovesPhase(l) && q != l.poll
    ensures q in HoldsAfter(c, w, l) <==> q in w.holds
    ensures q in w.holds ==> HoldsAfter(c, w, l)[q] == w.holds[q]
  {
  }

  lemma PhaseMoveIsNamed(c: Config, s: Life, l: Label)
    requires Enabled(s, l) && Named(s) && MovesPhase(l)
    ensures Named(Next(c, s, l))
  {
    PhaseMove(c, s, l);
  }

  lemma PhaseMoveIsLocal(c: Settings, w: World, l: Label, p: nat)
    requires CanMove(c, w, Lives(l)) && Named(w.life)
    requires MovesPhase(l) && l.poll == p
    ensures OnlyPoll(w, Moved(c, w, Lives(l)), p) && Named(Moved(c, w, Lives(l)).life)
  {
    PhaseMoveIsNamed(c.life, w.life, l);
    MovedOn(c.life, w.life, l);
    forall q | q != p
      ensures q in HoldsAfter(c, w, l) <==> q in w.holds
      ensures q in w.holds ==> HoldsAfter(c, w, l)[q] == w.holds[q]
    {
      OnlyHoldMoves(c, w, l, q);
    }
  }

  lemma ReceiveEndStructured(c: Settings, w: World, p: nat, response: Option<seq<Message>>)
    requires Structured(c, w) && CanMove(c, w, Lives(ReceiveEnds(p, response)))
    ensures Structured(c, Moved(c, w, Lives(ReceiveEnds(p, response))))
  {
    PhaseMoveIsLocal(c, w, ReceiveEnds(p, response), p);
    OnlyPollStructured(c, w, Moved(c, w, Lives(ReceiveEnds(p, response))), p);
  }

  lemma PollContinuesStructured(c: Settings, w: World, p: nat)
    requires Structured(c, w) && CanMove(c, w, Lives(PollContinues(p)))
    ensures Structured(c, Moved(c, w, Lives(PollContinues(p))))
  {
    PhaseMoveIsLocal(c, w, PollContinues(p), p);
    if p in w.holds {
      StartCallsOk(c, w.holds[p].messages);
    }
    OnlyPollStructured(c, w, Moved(c, w, Lives(PollContinues(p))), p);
  }

  lemma ProcessEndStructured(c: Settings, w: World, p: nat, r: ProcessorResult)
    requires Structured(c, w) && CanMove(c, w, Lives(ProcessEnds(p, r)))
    ensures Structured(c, Moved(c, w, Lives(ProcessEnds(p, r))))
  {
    PhaseMoveIsLocal(c, w, ProcessEnds(p, r), p);
    if r.success == [] {
      ReportOk(c.life, w.life, p, w.life.polls[p].messages, r);
    }
    OnlyPollStructured(c, w, Moved(c, w, Lives(ProcessEnds(p, r))), p);
  }

  lemma DeleteEndStructured(c: Settings, w: World, p: nat, reply: DeleteReply)
    requires Structured(c, w) && CanMove(c, w, Lives(DeleteEnds(p, reply)))
    ensures Structured(c, Moved(c, w, Lives(DeleteEnds(p, reply))))
  {
    PhaseMoveIsLocal(c, w, DeleteEnds(p, reply), p);
    var phase := w.life.polls[p];
    AcknowledgingConserves(AsWritten, phase.processed, reply);
    ReportOk(c.life, w.life, p, phase.messages, Acknowledged(AsWritten, phase.processed, reply));
    OnlyPollStructured(c, w, Moved(c, w, Lives(DeleteEnds(p, reply))), p);
  }

  lemma VisibilityEndStructured(c: Settings, w: World, p: nat, ok: bool)
    requires Structured(c, w) && CanMove(c, w, Lives(VisibilityEnds(p, ok)))
    ensures Structured(c, Moved(c, w, Lives(VisibilityEnds(p, ok))))
  {
    PhaseMoveIsLocal(c, w, VisibilityEnds(p, ok), p);
    OnlyPollStructured(c, w, Moved(c, w, Lives(VisibilityEnds(p, ok))), p);
  }

  lemma PollEndStructured(c: Settings, w: World, p: nat)
    requires Structured(c, w) && CanMove(c, w, Lives(PollEnds(p)))
    ensures Structured(c, Moved(c, w, Lives(PollEnds(p))))
  {
    assert p !in w.holds;
    NamedLifeStep(c.life, w.life, PollEnds(p));
  }

  lemma DeliveriesOk(ids: seq<string>, p: nat)
    requires forall i, j :: 0 <= i < j < |ids| ==> ids[i] != ids[j]
    ensures ReceivedBy(p, Deliveries(ids, p)) && DistinctIds(Deliveries(ids, p))
  {
  }

  lemma LivesStructured(c: Settings, w: World, l: Label)
    requires Structured(c, w) && CanMove(c, w, Lives(l))
    ensures Structured(c, Moved(c, w, Lives(l)))
  {
    match l {
      case ReceiveEnds(p, response) => ReceiveEndStructured(c, w, p, response);
      case PollContinues(p) => PollContinuesStructured(c, w, p);
      case ProcessEnds(p, r) => ProcessEndStructured(c, w, p, r);
      case DeleteEnds(p, reply) => DeleteEndStructured(c, w, p, reply);
      case Start | Stop | StopResumes(_) | TimerFires(_) => LifeStructured(c, w, l);
      case VisibilityEnds(p, ok) => VisibilityEndStructured(c, w, p, ok);
      case PollEnds(p) => PollEndStructured(c, w, p);
      case ExtensionFails =>
    }
  }

  lemma AnswerStructured(c: Settings, w: World, p: nat, ids: seq<string>)
    requires Structured(c, w) && CanMove(c, w, ServerAnswers(p, ids))
    ensures Structured(c, Moved(c, w, ServerAnswers(p, ids)))
  {
    DeliveriesOk(ids, p);
  }

  lemma HandlerMoveIsLocal(c: Settings, w: World, p: nat, i: nat, ev: HandlerEvent)
    requires CanMove(c, w, HandlerMoves(p, i, ev))
    ensures var w', hold := Moved(c, w, HandlerMoves(p, i, ev)), w.holds[p];
            && OnlyPoll(w, w', p) && w'.life == w.life
            && p in w'.holds && w'.holds[p] == hold.(calls := StepCalls(c, hold.messages, hold.calls, i, ev))
  {
  }

  lemma HandlerStructured(c: Settings, w: World, p: nat, i: nat, ev: HandlerEvent)
    requires Structured(c, w) && CanMove(c, w, HandlerMoves(p, i, ev))
    ensures Structured(c, Moved(c, w, HandlerMoves(p, i, ev)))
  {
    HandlerMoveIsLocal(c, w, p, i, ev);
    assert HoldOk(c, p, w.holds[p], w.life.polls[p]);
    StepCallsOk(c, w.holds[p].messages, w.holds[p].calls, i, ev);
    OnlyPollStructured(c, w, Moved(c, w, HandlerMoves(p, i, ev)), p);
  }

  lemma TickStructured(c: Settings, w: World, p: nat)
    requires Structured(c, w) && CanMove(c, w, Ticks(p))
    ensures Structured(c, Moved(c, w, Ticks(p)))
  {
  }

  lemma QueueMoveStructured(c: Settings, w: World, m: Move)
    requires Structured(c, w) && CanMove(c, w, m)
    requires !m.Lives? && !m.ServerAnswers? && !m.HandlerMoves? && !m.Ticks?
    ensures Structured(c, Moved(c, w, m))
    ensures Moved(c, w, m).holds == w.holds && Moved(c, w, m).life.polls == w.life.polls
  {
    if m.ExtensionIsLost? {
      PhaseMove(c.life, w.life, ExtensionFails);
    }
  }

  lemma MoveStructured(c: Settings, w: World, m: Move)
    requires Structured(c, w) && CanMove(c, w, m)
    ensures Structured(c, Moved(c, w, m))
  {
    match m {
      case Lives(l) => LivesStructured(c, w, l);
      case ServerAnswers(p, ids) => AnswerStructured(c, w, p, ids);
      case HandlerMoves(p, i, ev) => HandlerStructured(c, w, p, i, ev);
      case Ticks(p) => TickStructured(c, w, p);
      case _ => QueueMoveStructured(c, w, m);
    }
  }

  lemma {:induction false} RunStructured(c: Settings, run: seq<Move>)
    requires IsRunOf(c, NEW_WORLD, run)
    ensures Structured(c, WorldAfter(c, NEW_WORLD, run))
  {
    if run != [] {
      var init := run[..|run| - 1];
      RunStructured(c, init);
      MoveStructured(c, WorldAfter(c, NEW_WORLD, init), run[|run| - 1]);
    }
  }

  // ---------------------------------------------------------------- whose messages the requests name

  /** The poll that received m is past its batch. */
  ghost predicate IsPast(w: World, m: Message) {
    && m.receipt < w.life.next && m.receipt !in w.holds
    && (m.receipt in w.life.polls ==> !w.life.polls[m.receipt].Receiving?)
  }

  /** Deletions and releases concern batches of the past alone. */
  ghost predicate RequestsPast(w: World) {
    (forall m :: m in w.deletes ==> IsPast(w, m)) && (forall m :: m in w.releases ==> IsPast(w, m))
  }

  lemma LabelKeepsPast(c: Settings, w: World, l: Label, m: Message)
    requires Structured(c, w) && CanMove(c, w, Lives(l)) && IsPast(w, m)
    ensures IsPast(Moved(c, w, Lives(l)), m)
  {
    var s' := Next(c.life, w.life, l);
    NamesGrow(c.life, w.life, l);
    if m.receipt in s'.polls && s'.polls[m.receipt].Receiving? {
      ReceivingIsNew(c.life, w.life, l, m.receipt);
    }
    HoldsShrink(c, w, l, m.receipt);
  }

  lemma HoldsShrink(c: Settings, w: World, l: Label, p: nat)
    requires CanMove(c, w, Lives(l)) && p !in w.holds
    ensures p !in HoldsAfter(c, w, l)
  {
  }

  lemma DeletedIsPast(c: Settings, w: World, l: Label, m: Message)
    requires Structured(c, w) && CanMove(c, w, Lives(l)) && m in DeletesOf(l)
    ensures IsPast(Moved(c, w, Lives(l)), m)
  {
    var w' := Moved(c, w, Lives(l));
    LivesStructured(c, w, l);
    assert w'.life.polls[l.poll] == Deleting(w.life.polls[l.poll].messages, l.result);
    assert m in multiset(l.result.success);
    assert m in multiset(w.life.polls[l.poll].messages);
    assert PhaseOk(l.poll, w'.life.polls[l.poll], l.poll in w'.holds);
  }

  lemma ReleasedIsPast(c: Settings, w: World, l: Label, m: Message)
    requires Structured(c, w) && CanMove(c, w, Lives(l)) && m in ReleasesOf(c.life, w.life, l)
    ensures IsPast(Moved(c, w, Lives(l)), m)
  {
    var w' := Moved(c, w, Lives(l));
    LivesStructured(c, w, l);
    assert PhaseOk(l.poll, w'.life.polls[l.poll], l.poll in w'.holds);
  }

  lemma MoveKeepsPast(c: Settings, w: World, m: Move)
    requires Structured(c, w) && RequestsPast(w) && CanMove(c, w, m)
    ensures RequestsPast(Moved(c, w, m))
  {
    var w' := Moved(c, w, m);
    if m.Lives? {
      forall x | x in w'.deletes
        ensures IsPast(w', x)
      {
        if x in w.deletes {
          LabelKeepsPast(c, w, m.step, x);
        } else {
          DeletedIsPast(c, w, m.step, x);
        }
      }
      forall x | x in w'.releases
        ensures IsPast(w', x)
      {
        if x in w.releases {
          LabelKeepsPast(c, w, m.step, x);
        } else {
          ReleasedIsPast(c, w, m.step, x);
        }
      }
    } else {
      QueueMoveKeepsPast(c, w, m);
    }
  }

  lemma QueueMoveKeepsPast(c: Settings, w: World, m: Move)
    requires RequestsPast(w) && CanMove(c, w, m) && !m.Lives?
    ensures RequestsPast(Moved(c, w, m))
  {
  }

  lemma {:induction false} RunKeepsPast(c: Settings, run: seq<Move>)
    requires IsRunOf(c, NEW_WORLD, run)
    ensures RequestsPast(WorldAfter(c, NEW_WORLD, run))
  {
    if run != [] {
      var init := run[..|run| - 1];
      RunKeepsPast(c, init);
      RunStructured(c, init);
      MoveKeepsPast(c, WorldAfter(c, NEW_WORLD, init), run[|run| - 1]);
    }
  }
}
