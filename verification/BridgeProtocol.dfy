/** The forwarder's event loop as a transition system. Its steps interleave with
    broker callbacks (the locked part of push, then the token), the timer and
    cancellation. The queue is known only through QueueContract. */
module BridgeProtocol {
  import opened Bytes
  import opened Messages
  import opened Sequences
  import Inbox = InboxModel
  import opened InboxTheorems

  datatype Config = Config(retryMin: nat, retryMax: nat, replayBatch: nat)

  /** The retry timer: running, expired with its tick in the channel, or with
      the tick taken and not yet reset. */
  datatype Timer = Armed(wait: nat) | Fired(wait: nat) | Spent

  /** Where the forwarder is. `probing` tells the replay called from the timer
      case from the one at the top of the loop. */
  datatype Place =
    | Top
    | Replaying(i: nat, probing: bool)
    | Acking(i: nat, probing: bool)
    | Select
    | Serving
    | Hand(m: Message)
    | Rejected(m: Message)
    | Spilled
    | Draining
    | DrainHand(m: Message)
    | Stopped

  /** An inbox state of the kind every run of push and pop stays in. */
  type RunningInbox = s: Inbox.State | Inbox.Weak(s) ghost witness Inbox.Empty(1, 1)

  datatype State = State(
    inbox: RunningInbox,
    notify: bool,
    /** Callbacks that released the lock and have not posted their token yet. */
    posting: nat,
    queue: seq<Message>,
    evicted: nat,
    sinkUp: bool,
    cancelled: bool,
    backoff: nat,
    timer: Timer,
    sink: seq<Message>,
    /** What the queue held at the start, then every message received. */
    arrivals: seq<Message>,
    /** Failed probes in a row since the sink went down. */
    probes: nat,
    place: Place)

  datatype Action =
    | Arrive(a: Message)
    | Post
    | Tick
    | Cancel
    | Begin
    | ReplayStop
    | ReplayEmpty
    | ReplayUnreadable(lost: nat)
    | ReplaySend(ok: bool)
    | ReplayAck
    | SelectDone
    | SelectTimer
    | SelectNotify
    | ServePop
    | Spill(lost: nat)
    | LiveSend(ok: bool)
    | AfterSpill
    | DrainPop

  function Min(a: nat, b: nat): nat {
    if a <= b then a else b
  }

  /** fail: the sink is down, the timer is restarted with `wait`, and the next
      wait is twice as long up to the maximum. */
  function Failed(c: Config, s: State, wait: nat, probes: nat, next: Place): State {
    s.(sinkUp := false, timer := Armed(wait), backoff := Min(2 * wait, c.retryMax), probes := probes, place := next)
  }

  /** What Run does with the result of replay. */
  function Returned(c: Config, s: State, probing: bool, ok: bool): State {
    if probing then
      if ok then s.(backoff := c.retryMin, timer := Armed(c.retryMax), place := Top)
      else Failed(c, s, s.backoff, s.probes + 1, Top)
    else if !ok then Failed(c, s, s.backoff, 0, Select)
    else if s.queue != [] then s.(place := if s.cancelled then Draining else Top)
    else s.(place := Select)
  }

  predicate Replay(s: State) {
    s.place.Replaying? || s.place.Acking?
  }

  predicate Enabled(c: Config, s: State, a: Action) {
    match a
    case Arrive(_) => true
    case Post => s.posting > 0
    case Tick => s.timer.Armed?
    case Cancel => true
    case Begin => s.place.Top?
    case ReplayStop => s.place.Replaying? && (s.place.i >= c.replayBatch || s.cancelled)
    case ReplayEmpty => s.place.Replaying? && s.place.i < c.replayBatch && !s.cancelled && s.queue == []
    case ReplayUnreadable(lost) =>
      s.place.Replaying? && s.place.i < c.replayBatch && !s.cancelled && lost <= |s.queue| && s.queue != []
    case ReplaySend(_) => s.place.Replaying? && s.place.i < c.replayBatch && !s.cancelled && s.queue != []
    case ReplayAck => s.place.Acking? && s.queue != []
    case SelectDone => s.place.Select? && s.cancelled
    case SelectTimer => s.place.Select? && s.timer.Fired?
    case SelectNotify => s.place.Select? && s.notify
    case ServePop => s.place.Serving?
    case Spill(lost) =>
      lost <= |s.queue| && (s.place.Rejected? || s.place.DrainHand? || (s.place.Hand? && (!s.sinkUp || s.queue != [])))
    case LiveSend(_) => s.place.Hand? && s.sinkUp && s.queue == []
    case AfterSpill => s.place.Spilled?
    case DrainPop => s.place.Draining?
  }

  /** The inbox is popped; the message is in hand at `next`. */
  function Popped(s: State, next: Message -> Place): State
    requires Inbox.CanPop(s.inbox)
  {
    PopEffect(s.inbox);
    var (inbox, m) := Inbox.Pop(s.inbox);
    s.(inbox := inbox, place := next(m))
  }

  ghost function Next(c: Config, s: State, a: Action): State
    requires Enabled(c, s, a)
  {
    match a
    case Arrive(m) =>
      PushWeak(s.inbox, m);
      s.(inbox := Inbox.Push(s.inbox, m), posting := s.posting + 1, arrivals := s.arrivals + [m])
    case Post => s.(notify := true, posting := s.posting - 1)
    case Tick => s.(timer := Fired(s.timer.wait))
    case Cancel => s.(cancelled := true)
    case Begin => s.(place := if s.queue != [] && s.sinkUp then Replaying(0, false) else Select)
    case ReplayStop =>
      // A cancelled replay returns before it marks the sink up.
      if s.cancelled && s.place.i < c.replayBatch then Returned(c, s, s.place.probing, true)
      else Returned(c, s.(sinkUp := true), s.place.probing, true)
    case ReplayEmpty => Returned(c, s.(sinkUp := true), s.place.probing, true)
    case ReplayUnreadable(lost) =>
      s.(queue := s.queue[lost..], evicted := s.evicted + lost, place := Replaying(s.place.i + 1, s.place.probing))
    case ReplaySend(ok) =>
      if ok then s.(sink := s.sink + [s.queue[0]], place := Acking(s.place.i, s.place.probing))
      else Returned(c, s, s.place.probing, false)
    case ReplayAck => s.(queue := s.queue[1..], place := Replaying(s.place.i + 1, s.place.probing))
    case SelectDone => s.(place := Draining)
    case SelectTimer =>
      if s.sinkUp then s.(timer := Armed(c.retryMax), place := Top)
      else if s.queue == [] then s.(sinkUp := true, timer := Armed(c.retryMax), place := Top)
      else s.(timer := Spent, place := Replaying(0, true))
    case SelectNotify => s.(notify := false, place := Serving)
    case ServePop => if Inbox.CanPop(s.inbox) then Popped(s, m => Hand(m)) else s.(place := Top)
    case Spill(lost) =>
      s.(queue := (s.queue + [s.place.m])[lost..], evicted := s.evicted + lost,
         place := if s.place.Hand? then Serving else if s.place.Rejected? then Spilled else Draining)
    case LiveSend(ok) =>
      if ok then s.(sink := s.sink + [s.place.m], place := Serving) else s.(place := Rejected(s.place.m))
    case AfterSpill => if s.cancelled then s.(place := Draining) else Failed(c, s, c.retryMin, 0, Serving)
    case DrainPop => if Inbox.CanPop(s.inbox) then Popped(s, m => DrainHand(m)) else s.(place := Stopped)
  }

  /** Run before its first iteration, with what an earlier run left queued. */
  predicate Initial(c: Config, s: State) {
    s.inbox == Inbox.Empty(s.inbox.perTopic, s.inbox.maxTotal) &&
    !s.notify && s.posting == 0 && s.evicted == 0 && s.sinkUp &&
    s.backoff == c.retryMin && s.timer == Armed(c.retryMax) && s.sink == [] && s.arrivals == s.queue &&
    s.place == Top
  }
}
