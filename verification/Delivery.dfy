/**
 * The consumer together with its queue, a clock and its handlers: visibility deadlines, heartbeats with
 * requests under way, handler calls with their timers, deletions. Times are in milliseconds. The
 * lifecycle component is the one of module `Consumer`, so its theorems hold of every run here.
 */
module Delivery {
  import opened Sequences
  import opened Processors
  import opened Consumer

  // ---------------------------------------------------------------- settings

  /** Node.js replaces an interval outside 1..2^31-1 by 1. */
  function IntervalMs(seconds: int): nat {
    if 1 <= seconds * 1000 <= 0x7fff_ffff then seconds * 1000 else 1
  }

  /** The heartbeat runs when both options are truthy. */
  function HeartbeatMs(o: ConsumerOptions): Option<nat> {
    if o.heartbeatInterval.Some? && o.heartbeatInterval.value != 0
       && o.visibilityTimeout.Some? && o.visibilityTimeout.value != 0
    then Some(IntervalMs(o.heartbeatInterval.value))
    else None
  }

  /** The interval in milliseconds when both options are set and not 0, or none. */
  lemma HeartbeatIntervalExactly(o: ConsumerOptions)
    ensures HeartbeatMs(o)
            == match (o.heartbeatInterval, o.visibilityTimeout)
               case (Some(h), Some(v)) =>
                 if h == 0 || v == 0 then None
                 else if h < 0 || h * 1000 > 2147483647 then Some(1)
                 else Some(h * 1000)
               case _ => None
  {
  }

  /**
   * `visibility` is the visibility timeout; every response and every extension takes at most `latency` and
   * every tick is at most `lateness` late.
   */
  datatype Settings = Settings(
    life: Config, concurrent: bool, handleMessageTimeout: Option<nat>,
    visibility: nat, heartbeat: Option<nat>, latency: nat, lateness: nat)

  /** The heartbeat interval leaves room for both ways of the first extension and for a late tick. */
  predicate Timely(c: Settings) {
    c.heartbeat.Some? && c.heartbeat.value + 2 * c.latency + c.lateness < c.visibility
  }

  /**
   * The heartbeat interval leaves room for both ways of an extension after `losses` others in a row were lost, with
   * every tick as late as it may be.
   */
  predicate Withstands(c: Settings, losses: nat) {
    c.heartbeat.Some? && Times(losses + 1, c.heartbeat.value + c.lateness) + 2 * c.latency < c.visibility
  }

  lemma TimelyWithstandsNoLoss(c: Settings)
    ensures Timely(c) <==> Withstands(c, 0)
  {
    if c.heartbeat.Some? {
      assert Times(1, c.heartbeat.value + c.lateness) == Times(0, c.heartbeat.value + c.lateness)
                                                         + c.heartbeat.value + c.lateness;
    }
  }

  /** What a consumer with these options does over an instant network. */
  predicate Configured(o: ConsumerOptions, c: Settings) {
    && o.visibilityTimeout.Some? && o.visibilityTimeout.value >= 0 && c.visibility == o.visibilityTimeout.value * 1000
    && o.heartbeatInterval.Some? && c.heartbeat == HeartbeatMs(o)
    && c.latency == 0 && c.lateness == 0
  }

  predicate BatchSizeOk(o: ConsumerOptions) {
    o.batchSize.Some? ==> 1 <= o.batchSize.value <= 10
  }

  /**
   * Options that `assertOptions` accepts are timely over an instant network whenever they switch the heartbeat on;
   * and of those that do, with an interval that fits a timer or is negative, it accepts exactly the timely ones
   * with a valid batch size.
   */
  lemma AcceptedHeartbeatsAreTimely(o: ConsumerOptions, c: Settings)
    requires Configured(o, c)
    ensures AssertOptions(Some(o)) == None ==> (Timely(c) <==> c.heartbeat.Some?)
    ensures c.heartbeat.Some? && o.heartbeatInterval.value * 1000 <= 0x7fff_ffff ==>
              (AssertOptions(Some(o)) == None <==> BatchSizeOk(o) && Timely(c))
  {
  }

  // ---------------------------------------------------------------- handler calls of one batch

  /** The calls of `executeHandler` made so far, the i-th for the i-th message. */
  type Calls = seq<Execution>

  function StartCalls(c: Settings, messages: seq<Message>): Calls
    requires messages != []
  {
    if c.concurrent then StartAll(messages, c.handleMessageTimeout)
    else [StartHandler(messages[0], c.handleMessageTimeout)]
  }

  /** An event of call i; in sequential mode the next call starts when the last one has settled. */
  function StepCalls(c: Settings, messages: seq<Message>, calls: Calls, i: nat, ev: HandlerEvent): Calls
    requires i < |calls| <= |messages|
  {
    var stepped := calls[i := HandlerStep(calls[i], ev)];
    if !c.concurrent && i == |calls| - 1 && calls[i].outcome == None && stepped[i].outcome.Some? && |calls| < |messages|
    then stepped + [StartHandler(messages[|calls|], c.handleMessageTimeout)]
    else stepped
  }

  predicate AllSettled(messages: seq<Message>, calls: Calls) {
    |calls| == |messages| && forall i :: 0 <= i < |calls| ==> calls[i].outcome.Some?
  }

  function OutcomesOf(calls: Calls): seq<Outcome>
    requires forall i :: 0 <= i < |calls| ==> calls[i].outcome.Some?
  {
    seq(|calls|, i requires 0 <= i < |calls| => calls[i].outcome.value)
  }

  /** The result of `process`. */
  function ResultOf(c: Settings, calls: Calls): ProcessorResult
    requires forall i :: 0 <= i < |calls| ==> calls[i].outcome.Some?
  {
    if c.concurrent then GatherConcurrent(OutcomesOf(calls)) else GatherSequential(OutcomesOf(calls))
  }

  // ---------------------------------------------------------------- state

  /** A message in the queue, visible from `visibleAt`; its receipt is the poll that received it last, if any. */
  datatype Slot = Slot(visibleAt: nat, receipt: Option<nat>)

  /** A batch between the answer of the server and the end of `process`. */
  datatype Hold =
    | Answered(messages: seq<Message>, at: nat)
    | Arrived(messages: seq<Message>)
    | Handling(messages: seq<Message>, calls: Calls, tick: Option<nat>)

  /** A request to extend the visibility of a batch, under way. */
  datatype Extension = Extension(messages: seq<Message>, sentAt: nat)

  /**
   * `deletes` and `releases` are the messages named by the delete requests and by the requests for visibility 0 so
   * far. Such a request can take effect at any later time, even when the consumer has seen it fail, or never. The
   * last three components are history.
   */
  datatype World = World(
    life: Life, now: nat, queue: map<string, Slot>, holds: map<nat, Hold>,
    extensions: map<nat, Extension>, nextExtension: nat,
    deletes: set<Message>, releases: set<Message>,
    outcomes: map<Message, Outcome>, deleted: set<Message>, enqueued: set<string>)

  const NEW_WORLD := World(FRESH, 0, map[], map[], map[], 0, {}, {}, map[], {}, {})

  datatype Move =
    | Lives(step: Label)
    | Enqueue(id: string)
    | ServerAnswers(poll: nat, ids: seq<string>)
    | OthersReceive(id: string, until: nat)
    | HandlerMoves(poll: nat, index: nat, event: HandlerEvent)
    | Ticks(poll: nat)
    | ExtensionTakesEffect(request: nat)
    | ExtensionIsLost(request: nat)
    | ServerDeletes(message: Message)
    | ServerReleases(message: Message)
    | Passes(time: nat)

  predicate Visible(w: World, id: string) {
    id in w.queue && w.queue[id].visibleAt <= w.now
  }

  /** The slot still belongs to the delivery of m. */
  predicate Owns(w: World, m: Message) {
    m.id in w.queue && w.queue[m.id].receipt == Some(m.receipt)
  }

  /** A consumer step agrees with what the queue and the handlers have done. */
  predicate LabelFits(c: Settings, w: World, l: Label) {
    match l
    case ReceiveEnds(p, Some(messages)) => if p in w.holds then w.holds[p].messages == messages else messages == []
    case ProcessEnds(p, r) =>
      p in w.holds && w.holds[p].Handling? && AllSettled(w.holds[p].messages, w.holds[p].calls)
      && r == ResultOf(c, w.holds[p].calls)
    case ExtensionFails => false
    case _ => true
  }

  /** Nothing that has to happen within its bound is passed over. */
  predicate InTime(c: Settings, w: World, now: nat) {
    && (forall p :: p in w.holds ==>
          match w.holds[p]
          case Answered(_, at) => now <= at + c.latency
          case Arrived(_) => now == w.now
          case Handling(_, _, tick) => tick.Some? ==> now <= tick.value + c.lateness)
    && (forall e :: e in w.extensions ==> now <= w.extensions[e].sentAt + c.latency)
  }

  predicate CanMove(c: Settings, w: World, m: Move) {
    match m
    case Lives(l) => Enabled(w.life, l) && LabelFits(c, w, l)
    case Enqueue(id) => id !in w.enqueued
    case ServerAnswers(p, ids) =>
      && p in w.life.polls && w.life.polls[p].Receiving? && p !in w.holds
      && ids != [] && (forall i, j :: 0 <= i < j < |ids| ==> ids[i] != ids[j])
      && (forall i :: 0 <= i < |ids| ==> Visible(w, ids[i]))
    case OthersReceive(id, until) => Visible(w, id)
    case HandlerMoves(p, i, _) =>
      p in w.holds && w.holds[p].Handling? && i < |w.holds[p].calls| <= |w.holds[p].messages|
    case Ticks(p) => p in w.holds && w.holds[p].Handling? && w.holds[p].tick.Some? && w.holds[p].tick.value <= w.now
    case ExtensionTakesEffect(e) => e in w.extensions
    case ExtensionIsLost(e) => e in w.extensions
    case ServerDeletes(x) => x in w.deletes && Owns(w, x)
    case ServerReleases(x) => x in w.releases && Owns(w, x)
    case Passes(time) => InTime(c, w, w.now + time)
  }

  // ---------------------------------------------------------------- steps

  function Deliveries(ids: seq<string>, poll: nat): seq<Message> {
    seq(|ids|, i requires 0 <= i < |ids| => Message(ids[i], poll))
  }

  /** The server extends what is still invisible and still owned. */
  function Extended(c: Settings, w: World, messages: seq<Message>): map<string, Slot> {
    map id | id in w.queue ::
      var slot := w.queue[id];
      if slot.receipt.Some? && Message(id, slot.receipt.value) in messages && w.now < slot.visibleAt
      then slot.(visibleAt := w.now + c.visibility) else slot
  }

  function HoldsAfter(c: Settings, w: World, l: Label): map<nat, Hold>
    requires Enabled(w.life, l) && LabelFits(c, w, l)
  {
    match l
    case ReceiveEnds(p, Some(messages)) =>
      if p in w.holds then w.holds[p := Arrived(messages)] else w.holds
    case ReceiveEnds(p, None) => w.holds - {p}
    case PollContinues(p) =>
      if p in w.holds && w.holds[p].messages != [] then
        var messages := w.holds[p].messages;
        var tick := if c.heartbeat.Some? then Some(w.now + c.heartbeat.value) else None;
        w.holds[p := Handling(messages, StartCalls(c, messages), tick)]
      else w.holds
    case ProcessEnds(p, _) => w.holds - {p}
    case _ => w.holds
  }

  /** The messages that a delete request names when this label begins one. */
  function DeletesOf(l: Label): set<Message> {
    match l
    case ProcessEnds(_, r) => set m | m in r.success
    case _ => {}
  }

  /** The messages that a request for visibility 0 names when this label begins one. */
  function ReleasesOf(c: Config, s: Life, l: Label): set<Message>
    requires Enabled(s, l)
  {
    if (l.ProcessEnds? || l.DeleteEnds?) && Next(c, s, l).polls[l.poll].Terminating?
    then set m | m in FailedMessages(Next(c, s, l).polls[l.poll].failed)
    else {}
  }

  /** Settling a call is remembered once. */
  function Remember(outcomes: map<Message, Outcome>, before: Execution, after: Execution): map<Message, Outcome> {
    if before.outcome == None && after.outcome.Some? then outcomes[before.message := after.outcome.value] else outcomes
  }

  function Moved(c: Settings, w: World, m: Move): World
    requires CanMove(c, w, m)
  {
    match m
    case Lives(l) =>
      w.(life := Next(c.life, w.life, l), holds := HoldsAfter(c, w, l),
         deletes := w.deletes + DeletesOf(l), releases := w.releases + ReleasesOf(c.life, w.life, l))
    case Enqueue(id) => w.(queue := w.queue[id := Slot(w.now, None)], enqueued := w.enqueued + {id})
    case ServerAnswers(p, ids) =>
      w.(queue := map id | id in w.queue :: if id in ids then Slot(w.now + c.visibility, Some(p)) else w.queue[id],
         holds := w.holds[p := Answered(Deliveries(ids, p), w.now)])
    case OthersReceive(id, until) => w.(queue := w.queue[id := Slot(until, None)])
    case HandlerMoves(p, i, ev) =>
      var hold := w.holds[p];
      w.(holds := w.holds[p := hold.(calls := StepCalls(c, hold.messages, hold.calls, i, ev))],
         outcomes := Remember(w.outcomes, hold.calls[i], HandlerStep(hold.calls[i], ev)))
    case Ticks(p) =>
      var hold := w.holds[p];
      var interval := if c.heartbeat.Some? then c.heartbeat.value else 0;
      w.(holds := w.holds[p := hold.(tick := Some(w.now + interval))],
         extensions := w.extensions[w.nextExtension := Extension(hold.messages, w.now)],
         nextExtension := w.nextExtension + 1)
    case ExtensionTakesEffect(e) =>
      w.(queue := Extended(c, w, w.extensions[e].messages), extensions := w.extensions - {e})
    case ExtensionIsLost(e) =>
      w.(life := Next(c.life, w.life, ExtensionFails), extensions := w.extensions - {e})
    case ServerDeletes(x) => w.(queue := w.queue - {x.id}, deleted := w.deleted + {x})
    case ServerReleases(x) => w.(queue := w.queue[x.id := w.queue[x.id].(visibleAt := w.now)])
    case Passes(time) => w.(now := w.now + time)
  }

  predicate IsRunOf(c: Settings, w: World, run: seq<Move>)
    decreases |run|, 0
  {
    run == [] || (IsRunOf(c, w, run[..|run| - 1]) && CanMove(c, WorldAfter(c, w, run[..|run| - 1]), run[|run| - 1]))
  }

  /** The state after a run. */
  function WorldAfter(c: Settings, w: World, run: seq<Move>): World
    requires IsRunOf(c, w, run)
    decreases |run|, 1
  {
    if run == [] then w else Moved(c, WorldAfter(c, w, run[..|run| - 1]), run[|run| - 1])
  }

  // ---------------------------------------------------------------- every run is a run of the lifecycle

  /** What a move is to the lifecycle, if anything. */
  function LabelOf(m: Move): Option<Label> {
    match m
    case Lives(l) => Some(l)
    case ExtensionIsLost(_) => Some(ExtensionFails)
    case _ => None
  }

  function LabelsOf(run: seq<Move>): seq<Label> {
    if run == [] then []
    else
      var l := LabelOf(run[|run| - 1]);
      var labels := LabelsOf(run[..|run| - 1]);
      if l.Some? then labels + [l.value] else labels
  }

  lemma MoveProjects(c: Settings, w: World, m: Move)
    requires CanMove(c, w, m)
    ensures match LabelOf(m)
            case Some(l) => Enabled(w.life, l) && Moved(c, w, m).life == Next(c.life, w.life, l)
            case None => Moved(c, w, m).life == w.life
  {
  }

  /** Without the queue, the clock and the handlers, a run is a run of the lifecycle: its theorems carry over. */
  lemma {:induction false} RunProjects(c: Settings, run: seq<Move>)
    requires IsRunOf(c, NEW_WORLD, run)
    ensures IsRun(c.life, FRESH, LabelsOf(run))
    ensures After(c.life, FRESH, LabelsOf(run)) == WorldAfter(c, NEW_WORLD, run).life
  {
    if run != [] {
      var init, m := run[..|run| - 1], run[|run| - 1];
      RunProjects(c, init);
      MoveProjects(c, WorldAfter(c, NEW_WORLD, init), m);
      if LabelOf(m).Some? {
        RunSnoc(c.life, FRESH, LabelsOf(init), LabelOf(m).value);
      }
    }
  }
}
