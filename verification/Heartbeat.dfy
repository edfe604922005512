/**
 * The promise of the heartbeat: a received message stays invisible to every other consumer until `process`
 * returns, however long the handlers take, though a number of extensions in a row may be lost.
 */
module Heartbeat {
  import opened Sequences
  import opened Processors
  import opened Consumer
  import opened Delivery
  import opened DeliveryRuns

  /** No message of the batch that poll p is receiving or handling is visible, and each still belongs to p. */
  ghost predicate BatchHidden(w: World, p: nat) {
    p in w.holds ==> forall m :: m in w.holds[p].messages ==> Owns(w, m) && !Visible(w, m.id)
  }

  // ---------------------------------------------------------------- the beats of a batch

  datatype Fate = Sent | Effective | Failed

  /** The start of the handlers, which counts as an effective beat without a request, or an extension request. */
  datatype Beat = Beat(request: Option<nat>, sentAt: nat, fate: Fate)

  function Mark(beats: seq<Beat>, request: nat, fate: Fate): seq<Beat> {
    seq(|beats|, i requires 0 <= i < |beats| =>
      if beats[i].request == Some(request) then beats[i].(fate := fate) else beats[i])
  }

  /** The beats of poll p after one more move. */
  function NextBeats(w: World, beats: seq<Beat>, m: Move, p: nat): seq<Beat> {
    match m
    case Lives(PollContinues(q)) => if q == p then [Beat(None, w.now, Effective)] else beats
    case Ticks(q) => if q == p then beats + [Beat(Some(w.nextExtension), w.now, Sent)] else beats
    case ExtensionTakesEffect(e) => Mark(beats, e, Effective)
    case ExtensionIsLost(e) => Mark(beats, e, Failed)
    case _ => beats
  }

  /** The beats of poll p along a run. */
  function BeatsOf(c: Settings, run: seq<Move>, p: nat): seq<Beat>
    requires IsRunOf(c, NEW_WORLD, run)
  {
    if run == [] then []
    else
      var init := run[..|run| - 1];
      NextBeats(WorldAfter(c, NEW_WORLD, init), BeatsOf(c, init, p), run[|run| - 1], p)
  }

  predicate AllFailed(beats: seq<Beat>, from: nat, n: nat)
    requires from + n <= |beats|
  {
    forall i :: from <= i < from + n ==> beats[i].fate.Failed?
  }

  ghost predicate NeverInARow(beats: seq<Beat>, n: nat) {
    forall from: nat :: from + n <= |beats| ==> !AllFailed(beats, from, n)
  }

  /** No more than `losses` extensions sent in a row were lost. */
  ghost predicate Bearable(beats: seq<Beat>, losses: nat) {
    NeverInARow(beats, losses + 1)
  }

  /** While poll p holds its batch, the run loses no more than `losses` extensions of it in a row. */
  ghost predicate Reliable(c: Settings, run: seq<Move>, p: nat, losses: nat)
    requires IsRunOf(c, NEW_WORLD, run)
  {
    run == []
    || (Reliable(c, run[..|run| - 1], p, losses)
        && (p in WorldAfter(c, NEW_WORLD, run).holds ==> Bearable(BeatsOf(c, run, p), losses)))
  }

  // ---------------------------------------------------------------- the invariant

  /** How far an answer, or every effective beat, has put off the moment at which the message shows. */
  predicate Covered(c: Settings, now: nat, hold: Hold, beats: seq<Beat>, visibleAt: nat) {
    match hold
    case Answered(_, at) => at <= now && at + c.visibility <= visibleAt
    case Arrived(_) => now + c.visibility <= visibleAt + c.latency
    case Handling(_, _, _) =>
      forall i :: 0 <= i < |beats| && beats[i].fate.Effective? ==>
        beats[i].sentAt + c.visibility <= visibleAt + c.latency
  }

  /** Beats come at most an interval and a lateness apart. */
  predicate Spaced(beats: seq<Beat>, step: nat) {
    forall i, j :: 0 <= i <= j < |beats| ==> beats[j].sentAt <= beats[i].sentAt + Times(j - i, step)
  }

  /** A beat is under way exactly as long as its request is. */
  predicate Follows(w: World, messages: seq<Message>, beat: Beat) {
    && beat.sentAt <= w.now
    && (beat.fate.Sent? ==> beat.request.Some? && beat.request.value in w.extensions)
    && (beat.request.Some? ==>
          beat.request.value < w.nextExtension
          && (beat.request.value in w.extensions ==>
                beat.fate.Sent? && w.extensions[beat.request.value] == Extension(messages, beat.sentAt)))
  }

  /** The beats, the requests under way and the next tick agree. */
  ghost predicate Logged(c: Settings, w: World, hold: Hold, beats: seq<Beat>) {
    hold.Handling? ==>
      && beats != [] && beats[0].fate.Effective? && beats[0].request == None
      && c.heartbeat.Some? && hold.tick == Some(beats[|beats| - 1].sentAt + c.heartbeat.value)
      && Spaced(beats, c.heartbeat.value + c.lateness)
      && forall i :: 0 <= i < |beats| ==> Follows(w, hold.messages, beats[i])
  }

  ghost predicate Kept(c: Settings, w: World, hold: Hold, beats: seq<Beat>) {
    Logged(c, w, hold, beats)
    && forall m :: m in hold.messages ==> Owns(w, m) && Covered(c, w.now, hold, beats, w.queue[m.id].visibleAt)
  }

  /** Everything is in time, and the batch of poll p, if any, is kept. */
  ghost predicate Beating(c: Settings, w: World, p: nat, beats: seq<Beat>) {
    InTime(c, w, w.now) && (p in w.holds ==> Kept(c, w, w.holds[p], beats))
  }

  // ---------------------------------------------------------------- what is kept is hidden

  /** The last effective beat: every later one failed or is under way. */
  lemma {:induction false} LastEffective(beats: seq<Beat>) returns (j: nat)
    requires beats != [] && beats[0].fate.Effective?
    ensures j < |beats| && beats[j].fate.Effective?
    ensures forall i :: j < i < |beats| ==> !beats[i].fate.Effective?
  {
    var n := |beats| - 1;
    if beats[n].fate.Effective? {
      j := n;
    } else {
      j := LastEffective(beats[..n]);
    }
  }

  lemma {:induction false} TimesGrows(a: nat, b: nat, k: nat)
    requires a <= b
    ensures Times(a, k) <= Times(b, k)
  {
    if a < b {
      TimesIsMonotone(a, b, k);
    }
  }

  /** Among enough beats after the last effective one, one is under way. */
  lemma OneIsUnderWay(c: Settings, w: World, hold: Hold, beats: seq<Beat>, losses: nat, j: nat) returns (i: nat)
    requires hold.Handling? && Logged(c, w, hold, beats) && Bearable(beats, losses) && InTime(c, w, w.now)
    requires j + losses + 1 < |beats| && forall i :: j < i < |beats| ==> !beats[i].fate.Effective?
    ensures j < i <= j + losses + 1 && w.now <= beats[i].sentAt + c.latency
  {
    assert !AllFailed(beats, j + 1, losses + 1);
    i :| j + 1 <= i < j + 1 + losses + 1 && !beats[i].fate.Failed?;
    assert beats[i].fate.Sent? && Follows(w, hold.messages, beats[i]);
  }

  /** Soon enough after an effective beat, another is under way or the next tick is due. */
  lemma NextBeatIsNear(c: Settings, w: World, hold: Hold, beats: seq<Beat>, losses: nat, j: nat)
    requires c.heartbeat.Some? && hold.Handling? && Logged(c, w, hold, beats) && Bearable(beats, losses)
    requires j < |beats| && forall i :: j < i < |beats| ==> !beats[i].fate.Effective?
    requires InTime(c, w, w.now) && (hold.tick.Some? ==> w.now <= hold.tick.value + c.lateness)
    ensures w.now <= beats[j].sentAt + Times(losses + 1, c.heartbeat.value + c.lateness) + c.latency
  {
    var step := c.heartbeat.value + c.lateness;
    if j + losses + 1 < |beats| {
      var i := OneIsUnderWay(c, w, hold, beats, losses, j);
      TimesGrows(i - j, losses + 1, step);
    } else {
      var n := |beats| - 1;
      assert Times(n + 1 - j, step) == Times(n - j, step) + step;
      TimesGrows(n + 1 - j, losses + 1, step);
    }
  }

  lemma KeptIsHidden(c: Settings, w: World, p: nat, losses: nat, beats: seq<Beat>, m: Message)
    requires Withstands(c, losses) && Beating(c, w, p, beats) && p in w.holds && Bearable(beats, losses)
    requires m in w.holds[p].messages
    ensures Owns(w, m) && !Visible(w, m.id)
  {
    var hold := w.holds[p];
    assert Covered(c, w.now, hold, beats, w.queue[m.id].visibleAt);
    if hold.Handling? {
      var j := LastEffective(beats);
      NextBeatIsNear(c, w, hold, beats, losses, j);
    }
  }

  /** The batch of p, if any, is hidden now: what the moves below rely on. */
  ghost predicate HiddenNow(c: Settings, w: World, p: nat, beats: seq<Beat>) {
    Beating(c, w, p, beats) && BatchHidden(w, p)
  }

  // ---------------------------------------------------------------- what leaves a batch kept

  /** A batch stays kept while its slots, the clock and the requests of its beats stay. */
  lemma KeptStays(c: Settings, w: World, w': World, hold: Hold, beats: seq<Beat>)
    requires Kept(c, w, hold, beats) && w'.now == w.now && w'.nextExtension == w.nextExtension
    requires w'.extensions == w.extensions
    requires forall m :: m in hold.messages ==> m.id in w'.queue && w'.queue[m.id] == w.queue[m.id]
    ensures Kept(c, w', hold, beats)
  {
    assert forall i :: 0 <= i < |beats| && Follows(w, hold.messages, beats[i]) ==> Follows(w', hold.messages, beats[i]);
  }

  // ---------------------------------------------------------------- moves of the consumer

  /** How a step of the consumer can move a batch on. */
  predicate Promoted(c: Settings, now: nat, hold: Hold, hold': Hold) {
    hold'.messages == hold.messages
    && ((hold.Answered? && hold'.Arrived?)
        || (hold.Arrived? && hold'.Handling? && c.heartbeat.Some? && hold'.tick == Some(now + c.heartbeat.value)))
  }

  lemma Promotion(c: Settings, w: World, l: Label, q: nat)
    requires c.heartbeat.Some? && Structured(c, w) && CanMove(c, w, Lives(l)) && q in HoldsAfter(c, w, l)
    ensures q in w.holds
    ensures HoldsAfter(c, w, l)[q] == w.holds[q] || Promoted(c, w.now, w.holds[q], HoldsAfter(c, w, l)[q])
    ensures l == PollContinues(q) ==> HoldsAfter(c, w, l)[q].Handling? && w.holds[q].Arrived?
    ensures HoldsAfter(c, w, l)[q] != w.holds[q] && w.holds[q].Arrived? ==> l == PollContinues(q)
  {
  }

  lemma LivesInTime(c: Settings, w: World, l: Label)
    requires c.heartbeat.Some? && Structured(c, w) && InTime(c, w, w.now) && CanMove(c, w, Lives(l))
    ensures InTime(c, Moved(c, w, Lives(l)), w.now)
  {
    forall q | q in HoldsAfter(c, w, l)
      ensures q in w.holds
      ensures HoldsAfter(c, w, l)[q] == w.holds[q] || Promoted(c, w.now, w.holds[q], HoldsAfter(c, w, l)[q])
    {
      Promotion(c, w, l, q);
    }
  }

  /** The response arrives. */
  lemma ArrivalKeeps(c: Settings, w: World, w': World, hold: Hold, hold': Hold, beats: seq<Beat>)
    requires Kept(c, w, hold, beats) && w'.now == w.now && w'.queue == w.queue
    requires hold.Answered? && hold'.Arrived? && hold'.messages == hold.messages && w.now <= hold.at + c.latency
    ensures Kept(c, w', hold', beats)
  {
    forall m | m in hold'.messages
      ensures Owns(w', m) && Covered(c, w'.now, hold', beats, w'.queue[m.id].visibleAt)
    {
      assert Covered(c, w.now, hold, beats, w.queue[m.id].visibleAt);
    }
  }

  /** The handlers start: the first beat. */
  lemma StartKeeps(c: Settings, w: World, w': World, hold: Hold, hold': Hold, beats: seq<Beat>)
    requires Kept(c, w, hold, beats) && w'.now == w.now && w'.queue == w.queue
    requires hold.Arrived? && hold'.Handling? && hold'.messages == hold.messages
    requires c.heartbeat.Some? && hold'.tick == Some(w.now + c.heartbeat.value)
    ensures Kept(c, w', hold', [Beat(None, w.now, Effective)])
  {
    forall m | m in hold'.messages
      ensures Owns(w', m) && Covered(c, w'.now, hold', [Beat(None, w.now, Effective)], w'.queue[m.id].visibleAt)
    {
      assert Covered(c, w.now, hold, beats, w.queue[m.id].visibleAt);
    }
  }

  lemma LivesBeats(c: Settings, w: World, l: Label, p: nat, beats: seq<Beat>)
    requires c.heartbeat.Some? && Structured(c, w) && Beating(c, w, p, beats) && CanMove(c, w, Lives(l))
    ensures Beating(c, Moved(c, w, Lives(l)), p, NextBeats(w, beats, Lives(l), p))
  {
    var w' := Moved(c, w, Lives(l));
    if p in w'.holds {
      Promotion(c, w, l, p);
      if l == PollContinues(p) {
        StartKeeps(c, w, w', w.holds[p], w'.holds[p], beats);
      } else if w'.holds[p] == w.holds[p] {
        KeptStays(c, w, w', w.holds[p], beats);
      } else {
        ArrivalKeeps(c, w, w', w.holds[p], w'.holds[p], beats);
      }
    }
    LivesInTime(c, w, l);
  }

  // ---------------------------------------------------------------- moves of the queue

  /** A slot that was visible, or that belongs to another receipt, is not one of a hidden batch. */
  lemma HeldSlotIsOther(w: World, p: nat, m: Message, id: string)
    requires BatchHidden(w, p) && p in w.holds && m in w.holds[p].messages
    requires Visible(w, id) || id !in w.queue || w.queue[id].receipt != Some(m.receipt)
    ensures m.id != id
  {
  }

  /** An answer to another poll takes none of the messages of a hidden batch. */
  lemma AnswerLeavesBatch(c: Settings, w: World, q: nat, ids: seq<string>, p: nat, beats: seq<Beat>)
    requires HiddenNow(c, w, p, beats) && CanMove(c, w, ServerAnswers(q, ids)) && p in w.holds
    ensures Kept(c, Moved(c, w, ServerAnswers(q, ids)), w.holds[p], beats)
  {
    var w' := Moved(c, w, ServerAnswers(q, ids));
    forall m | m in w.holds[p].messages
      ensures m.id in w'.queue && w'.queue[m.id] == w.queue[m.id]
    {
      forall i | 0 <= i < |ids|
        ensures m.id != ids[i]
      {
        HeldSlotIsOther(w, p, m, ids[i]);
      }
    }
    KeptStays(c, w, w', w.holds[p], beats);
  }

  lemma AnswerCoversBatch(c: Settings, w: World, p: nat, ids: seq<string>, beats: seq<Beat>)
    requires CanMove(c, w, ServerAnswers(p, ids))
    ensures var w' := Moved(c, w, ServerAnswers(p, ids)); Kept(c, w', w'.holds[p], beats)
  {
    var w', batch := Moved(c, w, ServerAnswers(p, ids)), Deliveries(ids, p);
    forall m | m in batch
      ensures Owns(w', m) && Covered(c, w'.now, w'.holds[p], beats, w'.queue[m.id].visibleAt)
    {
      var i :| 0 <= i < |batch| && batch[i] == m;
      assert Visible(w, ids[i]);
    }
  }

  lemma AnswerBeats(c: Settings, w: World, q: nat, ids: seq<string>, p: nat, beats: seq<Beat>)
    requires HiddenNow(c, w, p, beats) && CanMove(c, w, ServerAnswers(q, ids))
    ensures Beating(c, Moved(c, w, ServerAnswers(q, ids)), p, beats)
  {
    if p in w.holds {
      AnswerLeavesBatch(c, w, q, ids, p, beats);
    } else if p == q {
      AnswerCoversBatch(c, w, p, ids, beats);
    }
  }

  /** The slot that a move of the queue touches. */
  function Touched(m: Move): Option<string> {
    match m
    case Enqueue(id) => Some(id)
    case OthersReceive(id, _) => Some(id)
    case ServerDeletes(y) => Some(y.id)
    case ServerReleases(y) => Some(y.id)
    case _ => None
  }

  lemma TouchedSlotIsOther(c: Settings, w: World, m: Move, p: nat, x: Message)
    requires Structured(c, w) && RequestsPast(w) && BatchHidden(w, p) && CanMove(c, w, m)
    requires p in w.holds && x in w.holds[p].messages
    ensures Touched(m) != Some(x.id)
  {
    if m.ServerDeletes? || m.ServerReleases? {
      assert IsPast(w, m.message);
      assert HoldOk(c, p, w.holds[p], w.life.polls[p]);
    }
    if m.Enqueue? {
      assert x.id in w.enqueued;
    } else if Touched(m).Some? {
      HeldSlotIsOther(w, p, x, Touched(m).value);
    }
  }

  lemma OnlyTouchedChanges(c: Settings, w: World, m: Move, id: string)
    requires CanMove(c, w, m) && Touched(m).Some? && Touched(m).value != id && id in w.queue
    ensures id in Moved(c, w, m).queue && Moved(c, w, m).queue[id] == w.queue[id]
  {
  }

  /** The other consumers, new messages, deletions and releases touch no slot of a hidden batch. */
  lemma OtherSlotBeats(c: Settings, w: World, m: Move, p: nat, beats: seq<Beat>)
    requires Structured(c, w) && RequestsPast(w) && HiddenNow(c, w, p, beats) && CanMove(c, w, m) && Touched(m).Some?
    ensures Beating(c, Moved(c, w, m), p, beats)
  {
    if p in w.holds {
      forall x | x in w.holds[p].messages
        ensures x.id in Moved(c, w, m).queue && Moved(c, w, m).queue[x.id] == w.queue[x.id]
      {
        TouchedSlotIsOther(c, w, m, p, x);
        OnlyTouchedChanges(c, w, m, x.id);
      }
      KeptStays(c, w, Moved(c, w, m), w.holds[p], beats);
    }
  }

  // ---------------------------------------------------------------- handlers and time

  lemma HandlingBeats(c: Settings, w: World, m: Move, p: nat, beats: seq<Beat>)
    requires Beating(c, w, p, beats) && CanMove(c, w, m) && m.HandlerMoves?
    ensures Beating(c, Moved(c, w, m), p, beats)
  {
    var w' := Moved(c, w, m);
    if p in w.holds {
      KeptStays(c, w, w', w.holds[p], beats);
      SameHoldStays(c, w', w.holds[p], w'.holds[p], beats);
    }
  }

  /** The handler calls do not matter. */
  lemma SameHoldStays(c: Settings, w: World, hold: Hold, hold': Hold, beats: seq<Beat>)
    requires Kept(c, w, hold, beats)
    requires hold' == hold
             || (hold.Handling? && hold'.Handling? && hold'.messages == hold.messages && hold'.tick == hold.tick)
    ensures Kept(c, w, hold', beats)
  {
    forall m | m in hold'.messages
      ensures Covered(c, w.now, hold', beats, w.queue[m.id].visibleAt)
    {
      assert Covered(c, w.now, hold, beats, w.queue[m.id].visibleAt);
    }
  }

  lemma TimeBeats(c: Settings, w: World, time: nat, p: nat, beats: seq<Beat>)
    requires Beating(c, w, p, beats) && CanMove(c, w, Passes(time))
    ensures Beating(c, Moved(c, w, Passes(time)), p, beats)
  {
    var w' := Moved(c, w, Passes(time));
    if p in w.holds {
      var hold := w.holds[p];
      assert forall i :: 0 <= i < |beats| && Follows(w, hold.messages, beats[i]) ==>
               Follows(w', hold.messages, beats[i]);
      forall x | x in hold.messages
        ensures Owns(w', x) && Covered(c, w'.now, hold, beats, w'.queue[x.id].visibleAt)
      {
        assert Covered(c, w.now, hold, beats, w.queue[x.id].visibleAt);
      }
    }
  }

  // ---------------------------------------------------------------- ticks

  lemma SpacedSnoc(beats: seq<Beat>, beat: Beat, step: nat)
    requires beats != [] && Spaced(beats, step) && beat.sentAt <= beats[|beats| - 1].sentAt + step
    ensures Spaced(beats + [beat], step)
  {
    var beats', n := beats + [beat], |beats|;
    forall i, j | 0 <= i <= j < |beats'|
      ensures beats'[j].sentAt <= beats'[i].sentAt + Times(j - i, step)
    {
      if i < j == n {
        assert Times(n - i, step) == Times(n - 1 - i, step) + step;
      }
    }
  }

  /** A tick sends one request, for the whole batch, and the next tick is an interval away. */
  lemma TickExtendsBatch(c: Settings, w: World, p: nat)
    requires CanMove(c, w, Ticks(p)) && c.heartbeat.Some?
    ensures var w', messages := Moved(c, w, Ticks(p)), w.holds[p].messages;
            && w'.now == w.now && w'.queue == w.queue && w'.nextExtension == w.nextExtension + 1
            && w'.extensions == w.extensions[w.nextExtension := Extension(messages, w.now)]
            && w'.holds[p] == Handling(messages, w.holds[p].calls, Some(w.now + c.heartbeat.value))
  {
  }

  /** The request of a tick joins the beats. */
  lemma TickIsLogged(c: Settings, w: World, w': World, hold: Hold, hold': Hold, beats: seq<Beat>)
    requires hold.Handling? && Logged(c, w, hold, beats) && hold.tick.Some? && w.now <= hold.tick.value + c.lateness
    requires hold' == hold.(tick := Some(w.now + c.heartbeat.value))
    requires w.nextExtension !in w.extensions && w'.now == w.now && w'.nextExtension == w.nextExtension + 1
    requires w'.extensions == w.extensions[w.nextExtension := Extension(hold.messages, w.now)]
    ensures Logged(c, w', hold', beats + [Beat(Some(w.nextExtension), w.now, Sent)])
  {
    var beat := Beat(Some(w.nextExtension), w.now, Sent);
    SpacedSnoc(beats, beat, c.heartbeat.value + c.lateness);
    forall i | 0 <= i < |beats + [beat]|
      ensures Follows(w', hold.messages, (beats + [beat])[i])
    {
      assert i < |beats| ==> Follows(w, hold.messages, beats[i]);
    }
  }

  lemma OwnTickBeats(c: Settings, w: World, p: nat, beats: seq<Beat>)
    requires Structured(c, w) && Beating(c, w, p, beats) && CanMove(c, w, Ticks(p))
    ensures Beating(c, Moved(c, w, Ticks(p)), p, NextBeats(w, beats, Ticks(p), p))
  {
    var w' := Moved(c, w, Ticks(p));
    var beats' := NextBeats(w, beats, Ticks(p), p);
    assert w.nextExtension !in w.extensions;
    TickExtendsBatch(c, w, p);
    TickIsLogged(c, w, w', w.holds[p], w'.holds[p], beats);
    forall m | m in w.holds[p].messages
      ensures Owns(w', m) && Covered(c, w'.now, w'.holds[p], beats', w'.queue[m.id].visibleAt)
    {
      assert Covered(c, w.now, w.holds[p], beats, w.queue[m.id].visibleAt);
    }
  }

  lemma OtherTickBeats(c: Settings, w: World, q: nat, p: nat, beats: seq<Beat>)
    requires Structured(c, w) && Beating(c, w, p, beats) && CanMove(c, w, Ticks(q)) && q != p
    ensures Beating(c, Moved(c, w, Ticks(q)), p, beats)
  {
    var w' := Moved(c, w, Ticks(q));
    if p in w.holds {
      var hold := w.holds[p];
      assert forall i :: 0 <= i < |beats| && Follows(w, hold.messages, beats[i]) ==>
               Follows(w', hold.messages, beats[i]);
    }
  }

  // ---------------------------------------------------------------- extensions arrive or are lost

  /** After request e has ended, the beats agree with what is under way. */
  lemma MarkIsLogged(c: Settings, w: World, w': World, hold: Hold, beats: seq<Beat>, e: nat, fate: Fate)
    requires Logged(c, w, hold, beats) && !fate.Sent?
    requires w'.extensions == w.extensions - {e} && w'.now == w.now && w'.nextExtension == w.nextExtension
    ensures Logged(c, w', hold, Mark(beats, e, fate))
  {
    var beats' := Mark(beats, e, fate);
    if hold.Handling? {
      forall i | 0 <= i < |beats'|
        ensures Follows(w', hold.messages, beats'[i])
      {
        assert Follows(w, hold.messages, beats[i]);
      }
      forall i, j | 0 <= i <= j < |beats'|
        ensures beats'[j].sentAt <= beats'[i].sentAt + Times(j - i, c.heartbeat.value + c.lateness)
      {
        assert beats'[i].sentAt == beats[i].sentAt && beats'[j].sentAt == beats[j].sentAt;
      }
    }
  }

  /**
   * A request that takes effect puts off, to a full visibility timeout from now, the messages it names that are still
   * invisible and still belong to the receipt named; and nothing else.
   */
  lemma ExtensionPutsOff(c: Settings, w: World, e: nat, id: string)
    requires CanMove(c, w, ExtensionTakesEffect(e)) && id in w.queue
    ensures var slot, queue' := w.queue[id], Moved(c, w, ExtensionTakesEffect(e)).queue;
            && queue'.Keys == w.queue.Keys
            && queue'[id].receipt == slot.receipt
            && queue'[id].visibleAt
               == if slot.receipt.Some? && Message(id, slot.receipt.value) in w.extensions[e].messages
                     && w.now < slot.visibleAt
                  then w.now + c.visibility else slot.visibleAt
  {
    assert Moved(c, w, ExtensionTakesEffect(e)).queue.Keys == w.queue.Keys;
  }

  lemma ExtensionBeats(c: Settings, w: World, e: nat, p: nat, beats: seq<Beat>)
    requires HiddenNow(c, w, p, beats) && CanMove(c, w, ExtensionTakesEffect(e))
    ensures Beating(c, Moved(c, w, ExtensionTakesEffect(e)), p, Mark(beats, e, Effective))
  {
    var w' := Moved(c, w, ExtensionTakesEffect(e));
    if p in w.holds {
      MarkIsLogged(c, w, w', w.holds[p], beats, e, Effective);
      forall m | m in w.holds[p].messages
        ensures Owns(w', m) && Covered(c, w'.now, w.holds[p], Mark(beats, e, Effective), w'.queue[m.id].visibleAt)
      {
        assert Covered(c, w.now, w.holds[p], beats, w.queue[m.id].visibleAt);
        ExtensionCovers(c, w, e, w.holds[p], beats, m);
      }
    }
  }

  /** An extended slot is put off from now on; any other belongs to a batch whose beats are not those of request e. */
  lemma ExtensionCovers(c: Settings, w: World, e: nat, hold: Hold, beats: seq<Beat>, m: Message)
    requires e in w.extensions && m in hold.messages && Owns(w, m) && !Visible(w, m.id)
    requires Logged(c, w, hold, beats) && Covered(c, w.now, hold, beats, w.queue[m.id].visibleAt)
    ensures var w' := Moved(c, w, ExtensionTakesEffect(e));
            Owns(w', m) && Covered(c, w'.now, hold, Mark(beats, e, Effective), w'.queue[m.id].visibleAt)
  {
    var w', beats' := Moved(c, w, ExtensionTakesEffect(e)), Mark(beats, e, Effective);
    var visibleAt' := w'.queue[m.id].visibleAt;
    assert visibleAt' == if m in w.extensions[e].messages then w.now + c.visibility else w.queue[m.id].visibleAt;
    if hold.Handling? {
      forall i | 0 <= i < |beats'| && beats'[i].fate.Effective?
        ensures beats'[i].sentAt + c.visibility <= visibleAt' + c.latency
      {
        assert Follows(w, hold.messages, beats[i]);
      }
    }
  }

  lemma LossBeats(c: Settings, w: World, e: nat, p: nat, beats: seq<Beat>)
    requires Beating(c, w, p, beats) && CanMove(c, w, ExtensionIsLost(e))
    ensures Beating(c, Moved(c, w, ExtensionIsLost(e)), p, Mark(beats, e, Failed))
  {
    var w' := Moved(c, w, ExtensionIsLost(e));
    if p in w.holds {
      MarkIsLogged(c, w, w', w.holds[p], beats, e, Failed);
      forall m | m in w.holds[p].messages
        ensures Covered(c, w'.now, w.holds[p], Mark(beats, e, Failed), w'.queue[m.id].visibleAt)
      {
        assert Covered(c, w.now, w.holds[p], beats, w.queue[m.id].visibleAt);
      }
    }
  }

  // ---------------------------------------------------------------- every run

  lemma MoveBeats(c: Settings, w: World, m: Move, p: nat, beats: seq<Beat>)
    requires c.heartbeat.Some? && Structured(c, w) && RequestsPast(w) && HiddenNow(c, w, p, beats) && CanMove(c, w, m)
    ensures Beating(c, Moved(c, w, m), p, NextBeats(w, beats, m, p))
  {
    match m {
      case Lives(l) => LivesBeats(c, w, l, p, beats);
      case ServerAnswers(q, ids) => AnswerBeats(c, w, q, ids, p, beats);
      case Enqueue(_) | OthersReceive(_, _) | ServerDeletes(_) | ServerReleases(_) => OtherSlotBeats(c, w, m, p, beats);
      case HandlerMoves(_, _, _) => HandlingBeats(c, w, m, p, beats);
      case Ticks(q) =>
        if q == p {
          OwnTickBeats(c, w, p, beats);
        } else {
          OtherTickBeats(c, w, q, p, beats);
        }
      case ExtensionTakesEffect(e) => ExtensionBeats(c, w, e, p, beats);
      case ExtensionIsLost(e) => LossBeats(c, w, e, p, beats);
      case Passes(time) => TimeBeats(c, w, time, p, beats);
    }
  }

  /** What is kept is hidden as long as the losses are bearable. */
  lemma BeatingIsHidden(c: Settings, w: World, p: nat, losses: nat, beats: seq<Beat>)
    requires Withstands(c, losses) && Beating(c, w, p, beats) && (p in w.holds ==> Bearable(beats, losses))
    ensures HiddenNow(c, w, p, beats)
  {
    if p in w.holds {
      forall m | m in w.holds[p].messages
        ensures Owns(w, m) && !Visible(w, m.id)
      {
        KeptIsHidden(c, w, p, losses, beats, m);
      }
    }
  }

  lemma {:induction false} RunBeats(c: Settings, run: seq<Move>, p: nat, losses: nat)
    requires Withstands(c, losses) && IsRunOf(c, NEW_WORLD, run) && Reliable(c, run, p, losses)
    ensures HiddenNow(c, WorldAfter(c, NEW_WORLD, run), p, BeatsOf(c, run, p))
  {
    if run != [] {
      var init := run[..|run| - 1];
      RunBeats(c, init, p, losses);
      RunStructured(c, init);
      RunKeepsPast(c, init);
      MoveBeats(c, WorldAfter(c, NEW_WORLD, init), run[|run| - 1], p, BeatsOf(c, init, p));
      BeatingIsHidden(c, WorldAfter(c, NEW_WORLD, run), p, losses, BeatsOf(c, run, p));
    }
  }

  /**
   * When (losses + 1) * (interval + lateness) + 2 * latency < visibility timeout, a message of a batch is never
   * visible between its receipt and the return of `process`, in any run in which no more than `losses` extensions
   * of this batch in a row are lost in between - whatever happens to the extensions of other batches.
   */
  lemma HeartbeatHidesBatches(c: Settings, run: seq<Move>, p: nat, losses: nat)
    requires Withstands(c, losses) && IsRunOf(c, NEW_WORLD, run) && Reliable(c, run, p, losses)
    ensures BatchHidden(WorldAfter(c, NEW_WORLD, run), p)
  {
    RunBeats(c, run, p, losses);
  }

  /** So a message is never delivered twice at once: neither another consumer nor another poll can receive it. */
  lemma NothingIsDeliveredTwice(c: Settings, run: seq<Move>, p: nat, losses: nat, m: Message)
    requires Withstands(c, losses) && IsRunOf(c, NEW_WORLD, run) && Reliable(c, run, p, losses)
    requires p in WorldAfter(c, NEW_WORLD, run).holds && m in WorldAfter(c, NEW_WORLD, run).holds[p].messages
    ensures forall until :: !CanMove(c, WorldAfter(c, NEW_WORLD, run), OthersReceive(m.id, until))
    ensures forall q, ids :: m.id in ids ==> !CanMove(c, WorldAfter(c, NEW_WORLD, run), ServerAnswers(q, ids))
  {
    HeartbeatHidesBatches(c, run, p, losses);
    var w := WorldAfter(c, NEW_WORLD, run);
    forall q, ids: seq<string> | m.id in ids
      ensures !CanMove(c, w, ServerAnswers(q, ids))
    {
      var i :| 0 <= i < |ids| && ids[i] == m.id;
      assert !Visible(w, ids[i]);
    }
  }
}
