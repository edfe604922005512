/**
 * The handlers of a batch inside a run go through the events of their own calls and no others, so what `process`
 * returns there is what the processors of module `Processors` return.
 */
module HandlerHistory {
  import opened Sequences
  import opened Processors
  import opened Consumer
  import opened ConsumerRuns
  import opened Delivery
  import opened DeliveryRuns

  /** What has happened to the handlers and timers of poll p along a run, in order. */
  function SettlementsOf(run: seq<Move>, p: nat): seq<Settlement> {
    if run == [] then []
    else SettlementsOf(run[..|run| - 1], p) + SettlementOf(run[|run| - 1], p)
  }

  function SettlementOf(m: Move, p: nat): seq<Settlement> {
    if m.HandlerMoves? && m.poll == p then [Settlement(m.index, m.event)] else []
  }

  /** The calls made so far have each gone through their own events; the others have had none. */
  ghost predicate Replayed(c: Settings, messages: seq<Message>, calls: Calls, events: seq<Settlement>) {
    && |calls| <= |messages|
    && (forall i :: 0 <= i < |calls| ==>
          calls[i] == HandlerRun(StartHandler(messages[i], c.handleMessageTimeout), Project(events, i)))
    && (forall i :: i >= |calls| ==> Project(events, i) == [])
  }

  /** Nothing happens to the handlers of a poll before they start. */
  ghost predicate Historical(c: Settings, w: World, p: nat, events: seq<Settlement>) {
    && (p >= w.life.next || (p in w.life.polls && w.life.polls[p].Receiving?) ==> events == [])
    && (p in w.holds ==>
          match w.holds[p]
          case Handling(messages, calls, _) => Replayed(c, messages, calls, events)
          case _ => events == [])
  }

  lemma StartIsReplayed(c: Settings, messages: seq<Message>)
    requires messages != []
    ensures Replayed(c, messages, StartCalls(c, messages), [])
  {
  }

  lemma StepIsReplayed(
    c: Settings, messages: seq<Message>, calls: Calls, events: seq<Settlement>, i: nat, ev: HandlerEvent)
    requires Replayed(c, messages, calls, events) && i < |calls|
    ensures Replayed(c, messages, StepCalls(c, messages, calls, i, ev), events + [Settlement(i, ev)])
  {
    var calls', events' := StepCalls(c, messages, calls, i, ev), events + [Settlement(i, ev)];
    forall j: nat
      ensures Project(events', j) == Project(events, j) + if j == i then [ev] else []
    {
      ProjectSnoc(events, Settlement(i, ev), j);
    }
    HandlerRunSnoc(StartHandler(messages[i], c.handleMessageTimeout), Project(events, i), ev);
    forall j | 0 <= j < |calls'|
      ensures calls'[j] == HandlerRun(StartHandler(messages[j], c.handleMessageTimeout), Project(events', j))
    {
      if j != i {
        assert Project(events', j) == Project(events, j);
      }
    }
  }

  lemma LivesHistorical(c: Settings, w: World, l: Label, p: nat, events: seq<Settlement>)
    requires Structured(c, w) && Historical(c, w, p, events) && CanMove(c, w, Lives(l))
    ensures Historical(c, Moved(c, w, Lives(l)), p, events)
  {
    var s', holds := Next(c.life, w.life, l), HoldsAfter(c, w, l);
    NamesGrow(c.life, w.life, l);
    if p in s'.polls && s'.polls[p].Receiving? {
      ReceivingIsNew(c.life, w.life, l, p);
    }
    if p in holds {
      HoldOrigin(c, w, l, p);
      if w.holds[p].Arrived? && holds[p].Handling? {
        StartIsReplayed(c, w.holds[p].messages);
      }
    }
  }

  /** A step of the consumer leaves the batch of p as it is, takes it in, or starts its handlers. */
  lemma HoldOrigin(c: Settings, w: World, l: Label, p: nat)
    requires Structured(c, w) && CanMove(c, w, Lives(l)) && p in HoldsAfter(c, w, l)
    ensures p in w.holds
    ensures var hold, hold' := w.holds[p], HoldsAfter(c, w, l)[p];
            || hold' == hold
            || (hold.Answered? && hold'.Arrived?)
            || (hold.Arrived? && hold.messages != [] && hold'.Handling?
                && hold'.messages == hold.messages && hold'.calls == StartCalls(c, hold.messages))
  {
  }

  lemma HandlerHistorical(c: Settings, w: World, p: nat, i: nat, ev: HandlerEvent, events: seq<Settlement>)
    requires Structured(c, w) && Historical(c, w, p, events) && CanMove(c, w, HandlerMoves(p, i, ev))
    ensures Historical(c, Moved(c, w, HandlerMoves(p, i, ev)), p, events + [Settlement(i, ev)])
  {
    assert HoldOk(c, p, w.holds[p], w.life.polls[p]);
    StepIsReplayed(c, w.holds[p].messages, w.holds[p].calls, events, i, ev);
  }

  lemma QueueMoveHistorical(c: Settings, w: World, m: Move, p: nat, events: seq<Settlement>)
    requires Historical(c, w, p, events) && CanMove(c, w, m) && !m.Lives? && !(m.HandlerMoves? && m.poll == p)
    ensures Historical(c, Moved(c, w, m), p, events)
  {
  }

  lemma MoveHistorical(c: Settings, w: World, m: Move, p: nat, events: seq<Settlement>)
    requires Structured(c, w) && Historical(c, w, p, events) && CanMove(c, w, m)
    ensures Historical(c, Moved(c, w, m), p, events + SettlementOf(m, p))
  {
    if m.HandlerMoves? && m.poll == p {
      HandlerHistorical(c, w, p, m.index, m.event, events);
    } else {
      assert events + SettlementOf(m, p) == events;
      if m.Lives? {
        LivesHistorical(c, w, m.step, p, events);
      } else {
        QueueMoveHistorical(c, w, m, p, events);
      }
    }
  }

  lemma {:induction false} RunIsHistorical(c: Settings, run: seq<Move>, p: nat)
    requires IsRunOf(c, NEW_WORLD, run)
    ensures Historical(c, WorldAfter(c, NEW_WORLD, run), p, SettlementsOf(run, p))
  {
    if run != [] {
      var init := run[..|run| - 1];
      RunIsHistorical(c, init, p);
      RunStructured(c, init);
      MoveHistorical(c, WorldAfter(c, NEW_WORLD, init), run[|run| - 1], p, SettlementsOf(init, p));
    }
  }

  // ---------------------------------------------------------------- the result of process

  lemma {:induction false} AllSettledOutcomes(xs: seq<Execution>)
    requires forall i :: 0 <= i < |xs| ==> xs[i].outcome.Some?
    ensures SettledOutcomes(xs) == Some(OutcomesOf(xs))
  {
    if xs != [] {
      var init := xs[..|xs| - 1];
      AllSettledOutcomes(init);
      assert OutcomesOf(xs) == OutcomesOf(init) + [xs[|init|].outcome.value];
    }
  }

  /** Of calls that are not all settled, one that was made is pending. */
  lemma SomeCallIsPending(c: Settings, messages: seq<Message>, calls: Calls) returns (i: nat)
    requires CallsOk(c, messages, calls) && !AllSettled(messages, calls)
    ensures i < |calls| && calls[i].outcome == None
  {
    if |calls| < |messages| {
      i := |calls| - 1;
    } else {
      i :| i < |calls| && calls[i].outcome == None;
    }
  }

  lemma SettledResult(c: Settings, messages: seq<Message>, calls: Calls, schedules: seq<seq<HandlerEvent>>)
    requires |schedules| == |messages| && AllSettled(messages, calls)
    requires forall i :: 0 <= i < |calls| ==>
               calls[i] == HandlerRun(StartHandler(messages[i], c.handleMessageTimeout), schedules[i])
    ensures SequentialResult(messages, c.handleMessageTimeout, schedules) == Some(ResultOf(c, calls))
  {
    OutcomesAgree(messages, c.handleMessageTimeout, calls, schedules);
    AllSettledOutcomes(calls);
    OnlyOwnMessageErrors(messages, c.handleMessageTimeout, schedules);
    GatheringAgreesExactly(SettledOutcomes(calls).value);
  }

  /** Given the same events, both processors are pending while a call is, and then return the result of the calls. */
  lemma ReplayedResult(c: Settings, messages: seq<Message>, calls: Calls, events: seq<Settlement>)
    requires CallsOk(c, messages, calls) && Replayed(c, messages, calls, events)
    ensures var result := if AllSettled(messages, calls) then Some(ResultOf(c, calls)) else None;
            && ConcurrentResult(messages, c.handleMessageTimeout, events) == result
            && SequentialResult(messages, c.handleMessageTimeout, Projections(events, |messages|)) == result
  {
    ConcurrentRefinesSequential(messages, c.handleMessageTimeout, events);
    if AllSettled(messages, calls) {
      SettledResult(c, messages, calls, Projections(events, |messages|));
    } else {
      var i := SomeCallIsPending(c, messages, calls);
      PendingStaysPending(messages, c.handleMessageTimeout, Projections(events, |messages|), i);
    }
  }

  /**
   * In every run, at every moment, both processors - given what has happened to the handlers of poll p - agree with
   * the batch that p holds: they are pending while a call is, and then return its result.
   */
  lemma {:induction false} ProcessorsAgreeWithRun(c: Settings, run: seq<Move>, p: nat)
    requires IsRunOf(c, NEW_WORLD, run)
    requires var w := WorldAfter(c, NEW_WORLD, run); p in w.holds && w.holds[p].Handling?
    ensures var Handling(messages, calls, _) := WorldAfter(c, NEW_WORLD, run).holds[p];
            var events := SettlementsOf(run, p);
            var result := if AllSettled(messages, calls) then Some(ResultOf(c, calls)) else None;
            && ConcurrentResult(messages, c.handleMessageTimeout, events) == result
            && SequentialResult(messages, c.handleMessageTimeout, Projections(events, |messages|)) == result
  {
    RunIsHistorical(c, run, p);
    RunStructured(c, run);
    var w := WorldAfter(c, NEW_WORLD, run);
    assert HoldOk(c, p, w.holds[p], w.life.polls[p]);
    ReplayedResult(c, w.holds[p].messages, w.holds[p].calls, SettlementsOf(run, p));
  }

  lemma ProcessEndIsEnabledExactly(c: Settings, w: World, p: nat, r: ProcessorResult)
    requires Structured(c, w) && p in w.holds && w.holds[p].Handling?
    ensures CanMove(c, w, Lives(ProcessEnds(p, r)))
            <==> AllSettled(w.holds[p].messages, w.holds[p].calls) && r == ResultOf(c, w.holds[p].calls)
  {
    assert HoldOk(c, p, w.holds[p], w.life.polls[p]);
    if AllSettled(w.holds[p].messages, w.holds[p].calls) {
      ResultIsSound(c, w.holds[p].messages, w.holds[p].calls);
    }
  }

  /** So `process` can return r to poll p exactly when the processor, after the same events, has returned r. */
  lemma {:induction false} ProcessReturnsExactly(c: Settings, run: seq<Move>, p: nat, r: ProcessorResult)
    requires IsRunOf(c, NEW_WORLD, run)
    requires var w := WorldAfter(c, NEW_WORLD, run); p in w.holds && w.holds[p].Handling?
    ensures var w := WorldAfter(c, NEW_WORLD, run);
            CanMove(c, w, Lives(ProcessEnds(p, r)))
            <==> ConcurrentResult(w.holds[p].messages, c.handleMessageTimeout, SettlementsOf(run, p)) == Some(r)
  {
    ProcessorsAgreeWithRun(c, run, p);
    RunStructured(c, run);
    ProcessEndIsEnabledExactly(c, WorldAfter(c, NEW_WORLD, run), p, r);
  }
  // ---------------------------------------------------------------- the outcomes of a run

  /** The batch that the server has given to poll p along a run. */
  function BatchOf(run: seq<Move>, p: nat): seq<Message> {
    if run == [] then []
    else
      match run[|run| - 1]
      case ServerAnswers(q, ids) =>
        if q == p then seq(|ids|, i requires 0 <= i < |ids| => Message(ids[i], p)) else BatchOf(run[..|run| - 1], p)
      case _ => BatchOf(run[..|run| - 1], p)
  }

  /** Along the run the race between the handler of m and its timer has had outcome o. */
  ghost predicate HandledAs(c: Settings, run: seq<Move>, m: Message, o: Outcome) {
    exists i :: HandledAt(c, run, m, o, i)
  }

  predicate HandledAt(c: Settings, run: seq<Move>, m: Message, o: Outcome, i: nat) {
    && i < |BatchOf(run, m.receipt)| && BatchOf(run, m.receipt)[i] == m
    && OutcomeOf(m, c.handleMessageTimeout, Project(SettlementsOf(run, m.receipt), i)) == Some(o)
  }

  /** A held batch is the one given by this move, or it was held before. */
  lemma HoldStep(c: Settings, w: World, m: Move, p: nat)
    requires Structured(c, w) && CanMove(c, w, m) && p in Moved(c, w, m).holds
    ensures if m.ServerAnswers? && m.poll == p
            then Moved(c, w, m).holds[p].messages == Deliveries(m.ids, p)
            else p in w.holds && Moved(c, w, m).holds[p].messages == w.holds[p].messages
  {
    if m.Lives? {
      HoldOrigin(c, w, m.step, p);
      ArrivedIsAnswered(c, w, m.step, p);
    }
  }

  lemma ArrivedIsAnswered(c: Settings, w: World, l: Label, p: nat)
    requires CanMove(c, w, Lives(l)) && p in w.holds && p in HoldsAfter(c, w, l)
    ensures HoldsAfter(c, w, l)[p].messages == w.holds[p].messages
  {
  }

  /** What a poll holds is the batch that the server gave it. */
  lemma {:induction false} HoldIsBatch(c: Settings, run: seq<Move>, p: nat)
    requires IsRunOf(c, NEW_WORLD, run) && p in WorldAfter(c, NEW_WORLD, run).holds
    ensures WorldAfter(c, NEW_WORLD, run).holds[p].messages == BatchOf(run, p)
  {
    var init, m := run[..|run| - 1], run[|run| - 1];
    RunStructured(c, init);
    HoldStep(c, WorldAfter(c, NEW_WORLD, init), m, p);
    if !(m.ServerAnswers? && m.poll == p) {
      HoldIsBatch(c, init, p);
    }
  }

  lemma StepKeepsOutcome(x: Execution, ev: HandlerEvent)
    requires x.outcome.Some?
    ensures HandlerStep(x, ev).outcome == x.outcome
  {
  }

  /** Once handled, always handled, with the same outcome. */
  lemma HandledStays(c: Settings, run: seq<Move>, m: Message, o: Outcome, i: nat)
    requires IsRunOf(c, NEW_WORLD, run) && run != []
    requires HandledAt(c, run[..|run| - 1], m, o, i)
    ensures HandledAt(c, run, m, o, i)
  {
    var init, last := run[..|run| - 1], run[|run| - 1];
    var events := SettlementsOf(init, m.receipt);
    RunIsHistorical(c, init, m.receipt);
    assert events != [];
    assert BatchOf(run, m.receipt) == BatchOf(init, m.receipt);
    if last.HandlerMoves? && last.poll == m.receipt {
      assert SettlementsOf(run, m.receipt) == events + [Settlement(last.index, last.event)];
      ProjectSnoc(events, Settlement(last.index, last.event), i);
      HandlerRunSnoc(StartHandler(m, c.handleMessageTimeout), Project(events, i), last.event);
      StepKeepsOutcome(HandlerRun(StartHandler(m, c.handleMessageTimeout), Project(events, i)), last.event);
      assert Project(events, i) + [] == Project(events, i);
    } else {
      assert SettlementsOf(run, m.receipt) == events + [] == events;
    }
  }

  /** The move that settles a call is remembered under its message; any other changes no outcome. */
  lemma OutcomesStep(c: Settings, w: World, move: Move)
    requires CanMove(c, w, move)
    ensures !move.HandlerMoves? ==> Moved(c, w, move).outcomes == w.outcomes
    ensures move.HandlerMoves? ==>
              var x := w.holds[move.poll].calls[move.index];
              var x' := HandlerStep(x, move.event);
              Moved(c, w, move).outcomes == if x.outcome == None && x'.outcome.Some?
                                            then w.outcomes[x.message := x'.outcome.value] else w.outcomes
  {
  }

  /** The call that the last move concerns, before and after it. */
  lemma CallAlongRun(c: Settings, run: seq<Move>)
    requires IsRunOf(c, NEW_WORLD, run) && run != [] && run[|run| - 1].HandlerMoves?
    ensures var init, move := run[..|run| - 1], run[|run| - 1];
            var w := WorldAfter(c, NEW_WORLD, init);
            && move.poll in w.holds && w.holds[move.poll].Handling?
            && move.index < |w.holds[move.poll].calls| && move.index < |BatchOf(init, move.poll)|
            && BatchOf(run, move.poll) == BatchOf(init, move.poll)
            && var m := BatchOf(init, move.poll)[move.index];
               var events := Project(SettlementsOf(init, move.poll), move.index);
               && m.receipt == move.poll
               && w.holds[move.poll].calls[move.index] == HandlerRun(StartHandler(m, c.handleMessageTimeout), events)
               && HandlerStep(w.holds[move.poll].calls[move.index], move.event)
                  == HandlerRun(StartHandler(m, c.handleMessageTimeout),
                                Project(SettlementsOf(run, move.poll), move.index))
  {
    var init, move := run[..|run| - 1], run[|run| - 1];
    var p, i := move.poll, move.index;
    RunStructured(c, init);
    RunIsHistorical(c, init, p);
    HoldIsBatch(c, init, p);
    var w := WorldAfter(c, NEW_WORLD, init);
    assert HoldOk(c, p, w.holds[p], w.life.polls[p]);
    assert BatchOf(init, p)[i] in w.holds[p].messages;
    ProjectSnoc(SettlementsOf(init, p), Settlement(i, move.event), i);
    HandlerRunSnoc(
      StartHandler(BatchOf(init, p)[i], c.handleMessageTimeout), Project(SettlementsOf(init, p), i), move.event);
  }
  /** Other calls of the same batch see nothing of an event. */
  lemma OtherCallUnchanged(c: Settings, run: seq<Move>, m: Message, o: Outcome, i: nat)
    requires IsRunOf(c, NEW_WORLD, run) && run != [] && HandledAt(c, run, m, o, i)
    requires var last := run[|run| - 1]; !(last.HandlerMoves? && last.poll == m.receipt && last.index == i)
    ensures HandledAt(c, run[..|run| - 1], m, o, i)
  {
    var init, last := run[..|run| - 1], run[|run| - 1];
    var p := m.receipt;
    RunIsHistorical(c, init, p);
    if last.HandlerMoves? && last.poll == p {
      ProjectSnoc(SettlementsOf(init, p), Settlement(last.index, last.event), i);
      assert Project(SettlementsOf(run, p), i) == Project(SettlementsOf(init, p), i);
    } else {
      assert SettlementsOf(run, p) == SettlementsOf(init, p) + [] == SettlementsOf(init, p);
    }
    assert SettlementsOf(init, p) != [];
  }

  lemma RememberedIsHandled(c: Settings, run: seq<Move>, m: Message, o: Outcome)
    requires IsRunOf(c, NEW_WORLD, run) && run != []
    requires var w := WorldAfter(c, NEW_WORLD, run[..|run| - 1]);
             m in w.outcomes && w.outcomes[m] == o ==> HandledAs(c, run[..|run| - 1], m, o)
    requires m in WorldAfter(c, NEW_WORLD, run).outcomes && WorldAfter(c, NEW_WORLD, run).outcomes[m] == o
    ensures HandledAs(c, run, m, o)
  {
    var init, last := run[..|run| - 1], run[|run| - 1];
    var w := WorldAfter(c, NEW_WORLD, init);
    OutcomesStep(c, WorldAfter(c, NEW_WORLD, init), last);
    if m in w.outcomes && w.outcomes[m] == o {
      var i :| HandledAt(c, init, m, o, i);
      HandledStays(c, run, m, o, i);
    } else {
      CallAlongRun(c, run);
      FirstDecisiveEventWins(BatchOf(init, last.poll)[last.index], c.handleMessageTimeout,
                             Project(SettlementsOf(init, last.poll), last.index));
      assert HandledAt(c, run, m, o, last.index);
    }
  }

  /** A move for another call remembers another message. */
  lemma OtherCallIsOtherMessage(c: Settings, run: seq<Move>, m: Message, i: nat)
    requires IsRunOf(c, NEW_WORLD, run) && run != [] && run[|run| - 1].HandlerMoves?
    requires i < |BatchOf(run, m.receipt)| && BatchOf(run, m.receipt)[i] == m
    requires var last := run[|run| - 1]; !(last.poll == m.receipt && last.index == i)
    ensures var last := run[|run| - 1];
            && last.index < |BatchOf(run[..|run| - 1], last.poll)|
            && BatchOf(run[..|run| - 1], last.poll)[last.index] != m
  {
    var init, last := run[..|run| - 1], run[|run| - 1];
    CallAlongRun(c, run);
    HoldIsBatch(c, init, last.poll);
    RunStructured(c, init);
    var w := WorldAfter(c, NEW_WORLD, init);
    assert HoldOk(c, last.poll, w.holds[last.poll], w.life.polls[last.poll]);
  }

  /** The race that the last move decides is remembered by it. */
  lemma DecidedIsRemembered(c: Settings, run: seq<Move>, m: Message, o: Outcome, i: nat)
    requires IsRunOf(c, NEW_WORLD, run) && run != [] && HandledAt(c, run, m, o, i)
    requires var last := run[|run| - 1]; last.HandlerMoves? && last.poll == m.receipt && last.index == i
    requires !HandledAt(c, run[..|run| - 1], m, o, i)
    ensures m in WorldAfter(c, NEW_WORLD, run).outcomes && WorldAfter(c, NEW_WORLD, run).outcomes[m] == o
  {
    var init, last := run[..|run| - 1], run[|run| - 1];
    CallAlongRun(c, run);
    var x := WorldAfter(c, NEW_WORLD, init).holds[last.poll].calls[i];
    FirstDecisiveEventWins(m, c.handleMessageTimeout, Project(SettlementsOf(init, last.poll), i));
    if x.outcome.Some? {
      StepKeepsOutcome(x, last.event);
    }
    OutcomesStep(c, WorldAfter(c, NEW_WORLD, init), last);
  }

  /** A race decided before is not overwritten. */
  lemma EarlierIsRemembered(c: Settings, run: seq<Move>, m: Message, o: Outcome, i: nat)
    requires IsRunOf(c, NEW_WORLD, run) && run != [] && HandledAt(c, run, m, o, i)
    requires HandledAt(c, run[..|run| - 1], m, o, i)
    requires var w := WorldAfter(c, NEW_WORLD, run[..|run| - 1]); m in w.outcomes && w.outcomes[m] == o
    ensures m in WorldAfter(c, NEW_WORLD, run).outcomes && WorldAfter(c, NEW_WORLD, run).outcomes[m] == o
  {
    var init, last := run[..|run| - 1], run[|run| - 1];
    OutcomesStep(c, WorldAfter(c, NEW_WORLD, init), last);
    if last.HandlerMoves? {
      CallAlongRun(c, run);
      FirstDecisiveEventWins(BatchOf(init, last.poll)[last.index], c.handleMessageTimeout,
                             Project(SettlementsOf(init, last.poll), last.index));
      if !(last.poll == m.receipt && last.index == i) {
        OtherCallIsOtherMessage(c, run, m, i);
      }
    }
  }

  lemma HandledIsRemembered(c: Settings, run: seq<Move>, m: Message, o: Outcome, i: nat)
    requires IsRunOf(c, NEW_WORLD, run) && run != [] && HandledAt(c, run, m, o, i)
    requires var w := WorldAfter(c, NEW_WORLD, run[..|run| - 1]);
             HandledAs(c, run[..|run| - 1], m, o) ==> m in w.outcomes && w.outcomes[m] == o
    ensures m in WorldAfter(c, NEW_WORLD, run).outcomes && WorldAfter(c, NEW_WORLD, run).outcomes[m] == o
  {
    var last := run[|run| - 1];
    if !(last.HandlerMoves? && last.poll == m.receipt && last.index == i) {
      OtherCallUnchanged(c, run, m, o, i);
    }
    if HandledAt(c, run[..|run| - 1], m, o, i) {
      EarlierIsRemembered(c, run, m, o, i);
    } else {
      DecidedIsRemembered(c, run, m, o, i);
    }
  }

  /**
   * The remembered outcomes are those of the races in the run: of each message of each batch, in the events of its own
   * call.
   */
  lemma {:induction false} OutcomesExactly(c: Settings, run: seq<Move>, m: Message, o: Outcome)
    requires IsRunOf(c, NEW_WORLD, run)
    ensures var w := WorldAfter(c, NEW_WORLD, run); m in w.outcomes && w.outcomes[m] == o <==> HandledAs(c, run, m, o)
  {
    if run == [] {
      assert !HandledAs(c, run, m, o);
    } else {
      OutcomesExactly(c, run[..|run| - 1], m, o);
      var w := WorldAfter(c, NEW_WORLD, run);
      if m in w.outcomes && w.outcomes[m] == o {
        RememberedIsHandled(c, run, m, o);
      }
      if HandledAs(c, run, m, o) {
        var i :| HandledAt(c, run, m, o, i);
        HandledIsRemembered(c, run, m, o, i);
      }
    }
  }
}
