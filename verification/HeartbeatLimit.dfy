/** The condition of `Heartbeat.HeartbeatHidesBatches` cannot be weakened. */
module HeartbeatLimit {
  import opened Sequences
  import opened Processors
  import opened Consumer
  import opened Delivery
  import opened Heartbeat

  /** A run that loses no more than `losses` extensions of poll 0 in a row, the state it leads to, and its beats. */
  ghost predicate Leads(c: Settings, losses: nat, run: seq<Move>, w: World, beats: seq<Beat>) {
    && IsRunOf(c, NEW_WORLD, run) && WorldAfter(c, NEW_WORLD, run) == w
    && Reliable(c, run, 0, losses) && BeatsOf(c, run, 0) == beats
  }

  lemma Continue(c: Settings, losses: nat, run: seq<Move>, w: World, beats: seq<Beat>, m: Move)
    returns (run': seq<Move>, w': World, beats': seq<Beat>)
    requires Leads(c, losses, run, w, beats) && CanMove(c, w, m) && Bearable(NextBeats(w, beats, m, 0), losses)
    ensures Leads(c, losses, run', w', beats') && w' == Moved(c, w, m) && beats' == NextBeats(w, beats, m, 0)
  {
    run', w', beats' := run + [m], Moved(c, w, m), NextBeats(w, beats, m, 0);
    assert run'[..|run|] == run;
  }

  lemma FewInARow(beats: seq<Beat>, n: nat)
    requires |beats| <= n && n > 0 && (beats != [] ==> beats[0].fate.Effective?)
    ensures NeverInARow(beats, n)
  {
    forall from: nat | from + n <= |beats|
      ensures !AllFailed(beats, from, n)
    {
      assert from == 0;
      assert beats[from].fate.Effective?;
    }
  }

  /** Beats that begin with an effective one are bearable while they are few. */
  lemma FewAreBearable(beats: seq<Beat>, losses: nat)
    requires |beats| <= losses + 1 && (beats != [] ==> beats[0].fate.Effective?)
    ensures Bearable(beats, losses)
  {
    FewInARow(beats, losses + 1);
  }

  /** One more request under way does no harm. */
  lemma SentInARow(beats: seq<Beat>, beat: Beat, n: nat)
    requires NeverInARow(beats, n) && n > 0 && beat.fate.Sent?
    ensures NeverInARow(beats + [beat], n)
  {
    var beats' := beats + [beat];
    forall from: nat | from + n <= |beats'|
      ensures !AllFailed(beats', from, n)
    {
      if from + n <= |beats| {
        assert !AllFailed(beats, from, n);
        var i :| from <= i < from + n && !beats[i].fate.Failed?;
        assert beats'[i] == beats[i];
      } else {
        assert beats'[from + n - 1] == beat;
      }
    }
  }

  const BATCH: seq<Message> := [Message("a", 0)]

  /** The batch is hidden until the visibility timeout of its receipt, at time 0, runs out. */
  ghost predicate Pending(c: Settings, w: World) {
    && "a" in w.queue && w.queue["a"] == Slot(c.visibility, Some(0))
    && w.now <= c.visibility
    && 0 in w.holds && w.holds[0].messages == BATCH && w.holds.Keys == {0}
  }

  lemma BatchAnswered(c: Settings, losses: nat) returns (run: seq<Move>, w: World)
    ensures Leads(c, losses, run, w, []) && Pending(c, w)
    ensures w.life.polls == map[0 := Receiving] && w.now == 0 && w.extensions == map[]
    ensures w.holds[0] == Answered(BATCH, 0)
  {
    FewAreBearable([], losses);
    var beats;
    run, w, beats := Continue(c, losses, [], NEW_WORLD, [], Enqueue("a"));
    run, w, beats := Continue(c, losses, run, w, beats, Lives(Start));
    run, w, beats := Continue(c, losses, run, w, beats, ServerAnswers(0, ["a"]));
    assert w.holds[0].messages == BATCH;
  }

  /** When time can pass up to the deadline, the message shows while its batch is held. */
  lemma WaitUntilVisible(c: Settings, losses: nat, run: seq<Move>, w: World, beats: seq<Beat>)
    returns (run': seq<Move>)
    requires Leads(c, losses, run, w, beats) && Bearable(beats, losses) && Pending(c, w) && InTime(c, w, c.visibility)
    ensures ShowsBatch(c, losses, run')
  {
    var w', beats';
    run', w', beats' := Continue(c, losses, run, w, beats, Passes(c.visibility - w.now));
    assert Message("a", 0) in w'.holds[0].messages && Visible(w', "a");
  }

  /** A run with no more than `losses` extensions of poll 0 lost in a row, after which a message of its batch shows. */
  ghost predicate ShowsBatch(c: Settings, losses: nat, run: seq<Move>) {
    IsRunOf(c, NEW_WORLD, run) && Reliable(c, run, 0, losses) && !BatchHidden(WorldAfter(c, NEW_WORLD, run), 0)
  }

  /** The handlers run, and the next tick is an interval away. */
  ghost predicate Ticking(c: Settings, w: World) {
    && c.heartbeat.Some? && Pending(c, w)
    && w.holds[0].Handling? && w.holds[0].tick == Some(w.now + c.heartbeat.value)
  }

  /** Every request under way may still be so at the deadline. */
  ghost predicate Idle(c: Settings, w: World) {
    forall e :: e in w.extensions ==> c.visibility <= w.extensions[e].sentAt + c.latency
  }

  /** The next tick comes as late as it may. */
  lemma LateTick(c: Settings, losses: nat, run: seq<Move>, w: World, beats: seq<Beat>)
    returns (run': seq<Move>, w': World, beats': seq<Beat>)
    requires Leads(c, losses, run, w, beats) && Bearable(beats, losses) && Ticking(c, w) && Idle(c, w)
    requires w.now + c.heartbeat.value + c.lateness < c.visibility
    ensures Leads(c, losses, run', w', beats') && Ticking(c, w')
    ensures w'.now == w.now + c.heartbeat.value + c.lateness
    ensures w'.extensions == w.extensions[w.nextExtension := Extension(BATCH, w'.now)]
    ensures beats' == beats + [Beat(Some(w.nextExtension), w'.now, Sent)] && Bearable(beats', losses)
  {
    var run1, w1, beats1 := Continue(c, losses, run, w, beats, Passes(c.heartbeat.value + c.lateness));
    SentInARow(beats, Beat(Some(w.nextExtension), w1.now, Sent), losses + 1);
    run', w', beats' := Continue(c, losses, run1, w1, beats1, Ticks(0));
    TickKeepsTicking(c, w1, w');
  }

  lemma TickKeepsTicking(c: Settings, w: World, w': World)
    requires Pending(c, w) && c.heartbeat.Some? && CanMove(c, w, Ticks(0)) && w' == Moved(c, w, Ticks(0))
    ensures Ticking(c, w')
  {
    assert w'.holds.Keys == {0};
  }

  /** From now on no extension need take effect before the deadline, and none is lost. */
  lemma {:induction false} KeepTicking(c: Settings, losses: nat, run: seq<Move>, w: World, beats: seq<Beat>)
    returns (run': seq<Move>)
    requires Leads(c, losses, run, w, beats) && Bearable(beats, losses) && Ticking(c, w) && Idle(c, w)
    requires c.visibility <= w.now + c.latency && c.heartbeat.value >= 1
    ensures ShowsBatch(c, losses, run')
    decreases c.visibility - w.now
  {
    if c.visibility <= w.now + c.heartbeat.value + c.lateness {
      run' := WaitUntilVisible(c, losses, run, w, beats);
    } else {
      var run1, w1, beats1 := LateTick(c, losses, run, w, beats);
      run' := KeepTicking(c, losses, run1, w1, beats1);
    }
  }

  lemma BatchArrived(c: Settings, losses: nat) returns (run: seq<Move>, w: World)
    requires c.latency < c.visibility
    ensures Leads(c, losses, run, w, []) && Pending(c, w)
    ensures w.life.polls == map[0 := Received(BATCH)] && w.now == c.latency && w.extensions == map[]
    ensures w.holds[0] == Arrived(BATCH)
  {
    FewAreBearable([], losses);
    var beats;
    run, w := BatchAnswered(c, losses);
    run, w, beats := Continue(c, losses, run, w, [], Passes(c.latency));
    run, w, beats := Continue(c, losses, run, w, beats, Lives(ReceiveEnds(0, Some(BATCH))));
  }

  lemma HandlingBegins(c: Settings, w: World, w': World)
    requires Pending(c, w) && c.heartbeat.Some? && w.holds[0] == Arrived(BATCH)
    requires CanMove(c, w, Lives(PollContinues(0))) && w' == Moved(c, w, Lives(PollContinues(0)))
    ensures Ticking(c, w') && w'.now == w.now && w'.extensions == w.extensions
  {
    assert w'.holds.Keys == {0};
  }

  lemma BatchHandled(c: Settings, losses: nat) returns (run: seq<Move>, w: World, beats: seq<Beat>)
    requires c.heartbeat.Some? && c.latency < c.visibility
    ensures Leads(c, losses, run, w, beats) && Ticking(c, w) && w.now == c.latency && w.extensions == map[]
    ensures beats == [Beat(None, c.latency, Effective)]
  {
    var run1, w1 := BatchArrived(c, losses);
    FewAreBearable([Beat(None, c.latency, Effective)], losses);
    run, w, beats := Continue(c, losses, run1, w1, [], Lives(PollContinues(0)));
    HandlingBegins(c, w1, w);
  }

  /** A late tick whose extension is lost. */
  lemma LoseTick(c: Settings, losses: nat, run: seq<Move>, w: World, beats: seq<Beat>)
    returns (run': seq<Move>, w': World, beats': seq<Beat>)
    requires Leads(c, losses, run, w, beats) && Ticking(c, w) && w.extensions == map[]
    requires 0 < |beats| <= losses && beats[0].fate.Effective? && beats[0].request == None
    requires w.now + c.heartbeat.value + c.lateness < c.visibility
    ensures Leads(c, losses, run', w', beats') && Ticking(c, w') && w'.extensions == map[]
    ensures |beats'| == |beats| + 1 && beats'[0].fate.Effective? && beats'[0].request == None
    ensures w'.now == w.now + c.heartbeat.value + c.lateness
  {
    FewAreBearable(beats, losses);
    var run1, w1, beats1 := LateTick(c, losses, run, w, beats);
    FewAreBearable(Mark(beats1, w.nextExtension, Failed), losses);
    run', w', beats' := Continue(c, losses, run1, w1, beats1, ExtensionIsLost(w.nextExtension));
    LossKeepsTicking(c, w1, w', w.nextExtension);
  }

  lemma LossKeepsTicking(c: Settings, w: World, w': World, e: nat)
    requires Ticking(c, w) && w.extensions.Keys == {e}
    requires CanMove(c, w, ExtensionIsLost(e)) && w' == Moved(c, w, ExtensionIsLost(e))
    ensures Ticking(c, w') && w'.extensions == map[] && w'.now == w.now
  {
    assert w'.extensions.Keys == {};
  }

  /** A tick whose extension may still be under way at the deadline. */
  lemma TooLateTick(c: Settings, losses: nat, run: seq<Move>, w: World, beats: seq<Beat>) returns (run': seq<Move>)
    requires Leads(c, losses, run, w, beats) && Bearable(beats, losses) && Ticking(c, w) && Idle(c, w)
    requires var fires := w.now + c.heartbeat.value + c.lateness; fires < c.visibility <= fires + c.latency
    requires c.heartbeat.value >= 1
    ensures ShowsBatch(c, losses, run')
  {
    var run1, w1, beats1 := LateTick(c, losses, run, w, beats);
    run' := KeepTicking(c, losses, run1, w1, beats1);
  }

  /** After the losses that are bearable the next extension comes too late. */
  lemma {:induction false} LoseTicks(c: Settings, losses: nat, run: seq<Move>, w: World, beats: seq<Beat>)
    returns (run': seq<Move>)
    requires Leads(c, losses, run, w, beats) && Ticking(c, w) && w.extensions == map[]
    requires 0 < |beats| <= losses + 1 && beats[0].fate.Effective? && beats[0].request == None
    requires c.heartbeat.value >= 1 && !Withstands(c, losses)
    requires w.now == c.latency + Times(|beats| - 1, c.heartbeat.value + c.lateness)
    ensures ShowsBatch(c, losses, run')
    decreases losses - |beats|
  {
    FewAreBearable(beats, losses);
    var step := c.heartbeat.value + c.lateness;
    assert Times(|beats|, step) == Times(|beats| - 1, step) + step;
    if c.visibility <= w.now + step {
      run' := WaitUntilVisible(c, losses, run, w, beats);
    } else if |beats| <= losses {
      var run1, w1, beats1 := LoseTick(c, losses, run, w, beats);
      run' := LoseTicks(c, losses, run1, w1, beats1);
    } else {
      run' := TooLateTick(c, losses, run, w, beats);
    }
  }

  /** Without the slack, some run shows a message that is being received or handled, though its losses are bearable. */
  lemma UntimelyHeartbeatFails(c: Settings, losses: nat) returns (run: seq<Move>)
    requires c.heartbeat.Some? && c.heartbeat.value >= 1 && !Withstands(c, losses)
    ensures ShowsBatch(c, losses, run)
  {
    FewAreBearable([], losses);
    if c.visibility <= c.latency {
      var run1, w := BatchAnswered(c, losses);
      run := WaitUntilVisible(c, losses, run1, w, []);
    } else {
      var run1, w, beats := BatchHandled(c, losses);
      run := LoseTicks(c, losses, run1, w, beats);
    }
  }

  /** The run, if it loses no more than `losses` extensions of the batch of p in a row, leaves that batch hidden. */
  ghost predicate HidesBatch(c: Settings, run: seq<Move>, p: nat, losses: nat) {
    IsRunOf(c, NEW_WORLD, run) && Reliable(c, run, p, losses) ==> BatchHidden(WorldAfter(c, NEW_WORLD, run), p)
  }

  /**
   * A heartbeat hides the batch of every poll in every run that loses no more than `losses` of its extensions in a
   * row exactly when (losses + 1) * (interval + lateness) + 2 * latency < visibility timeout.
   */
  lemma HeartbeatIsSafeExactly(c: Settings, losses: nat)
    requires c.heartbeat.Some? && c.heartbeat.value >= 1
    ensures (forall run, p :: HidesBatch(c, run, p, losses)) <==> Withstands(c, losses)
  {
    if Withstands(c, losses) {
      forall run, p ensures HidesBatch(c, run, p, losses) {
        if IsRunOf(c, NEW_WORLD, run) && Reliable(c, run, p, losses) {
          HeartbeatHidesBatches(c, run, p, losses);
        }
      }
    } else {
      var run := UntimelyHeartbeatFails(c, losses);
      assert !HidesBatch(c, run, 0, losses);
    }
  }

  /** Over an instant network, accepted options that switch the heartbeat on hide any batch that loses no extension. */
  lemma AcceptedOptionsHideBatches(o: ConsumerOptions, c: Settings, run: seq<Move>, p: nat)
    requires Configured(o, c) && AssertOptions(Some(o)) == None && c.heartbeat.Some?
    ensures HidesBatch(c, run, p, 0)
  {
    AcceptedHeartbeatsAreTimely(o, c);
    TimelyWithstandsNoLoss(c);
    HeartbeatIsSafeExactly(c, 0);
  }
}
