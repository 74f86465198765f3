/** What every reachable state of the forwarder satisfies, in every interleaving
    of its steps with arrivals, tokens, timer ticks and cancellation. */
module BridgeTheorems {
  import opened Bytes
  import opened Messages
  import opened Sequences
  import opened BridgeProtocol
  import Inbox = InboxModel
  import opened InboxTheorems

  // ----- The invariants ---------------------------------------------------------

  function Held(s: State): seq<Message> {
    match s.place
    case Hand(m) => [m]
    case Rejected(m) => [m]
    case DrainHand(m) => [m]
    case _ => []
  }

  /** The queue without the message that was sent and not acknowledged yet. */
  function Unsent(s: State): seq<Message> {
    if s.place.Acking? && s.queue != [] then s.queue[1..] else s.queue
  }

  /** Everything that left the inbox, in delivery order. */
  function Pipeline(s: State): seq<Message> {
    s.sink + Unsent(s) + Held(s)
  }

  /** Delivered, queued, in hand and buffered messages of topic t, in this
      order, are a subsequence of its arrivals. */
  ghost predicate Ordered(s: State, t: Inbox.Topic) {
    Subsequence(Inbox.OfTopic(Pipeline(s), t) + Inbox.Fifo(s.inbox.topics, t), Inbox.OfTopic(s.arrivals, t))
  }

  /** The counters of Stats account for every arrival. */
  predicate Conserved(s: State) {
    |s.arrivals| + (if s.place.Acking? then 1 else 0) ==
    |s.sink| + s.inbox.dropped + s.evicted + |s.queue| + s.inbox.total + |Held(s)|
  }

  /** While the forwarder is on its way to select, or waiting in it, a message
      that could be popped has a token waiting or about to be posted. */
  predicate Awake(s: State) {
    (s.place.Top? || Replay(s) || s.place.Select?) && Inbox.CanPop(s.inbox) ==> s.notify || s.posting > 0
  }

  /** Live traffic and replay exclude each other. */
  predicate ReplayFirst(s: State) {
    (s.place.Acking? ==> s.queue != []) &&
    (s.place.Replaying? ==> s.sinkUp == !s.place.probing) &&
    (s.place.Acking? ==> s.sinkUp == !s.place.probing) &&
    (s.place.Select? || s.place.Serving? || s.place.Hand? ==> s.sinkUp ==> s.queue == []) &&
    (s.place.Rejected? ==> s.sinkUp && s.queue == []) &&
    (s.place.Spilled? ==> s.sinkUp) &&
    (s.place.Draining? || s.place.DrainHand? || s.place.Stopped? ==> s.cancelled)
  }

  function Pow2(k: nat): (p: nat)
    ensures p > 0
  {
    if k == 0 then 1 else 2 * Pow2(k - 1)
  }

  /** The wait before probe k: the minimum first, then doubling to the maximum. */
  function Wait(c: Config, k: nat): nat {
    if k == 0 then c.retryMin else Min(Pow2(k) * c.retryMin, c.retryMax)
  }

  /** A probe is always scheduled, at the documented distance. */
  predicate Retrying(c: Config, s: State) {
    (s.timer.Spent? <==> Replay(s) && s.place.probing) &&
    (!s.cancelled && !s.sinkUp ==>
      s.backoff == Wait(c, s.probes + 1) && (!s.timer.Spent? ==> s.timer.wait == Wait(c, s.probes))) &&
    (!s.cancelled && s.sinkUp && s.queue != [] && !s.place.Spilled? ==> s.backoff == c.retryMin)
  }

  ghost predicate Invariant(c: Config, s: State) {
    Conserved(s) && Awake(s) && ReplayFirst(s) && Retrying(c, s) && forall t :: Ordered(s, t)
  }

  // ----- One step -----------------------------------------------------------------

  lemma WaitDoubles(c: Config, k: nat)
    ensures Min(2 * Wait(c, k), c.retryMax) == Wait(c, k + 1)
  {
    assert Pow2(k + 1) * c.retryMin == 2 * (Pow2(k) * c.retryMin) by {
      assert Pow2(k + 1) == 2 * Pow2(k);
    }
    assert Pow2(0) * c.retryMin == c.retryMin;
  }

  lemma ReplayFirstStep(c: Config, s: State, a: Action)
    requires Enabled(c, s, a) && ReplayFirst(s)
    ensures ReplayFirst(Next(c, s, a))
  {
    hide Inbox.Weak, Inbox.Push, Inbox.Pop;
  }

  lemma RetryStep(c: Config, s: State, a: Action)
    requires Enabled(c, s, a) && ReplayFirst(s) && Retrying(c, s)
    ensures Retrying(c, Next(c, s, a))
  {
    hide Inbox.Weak, Inbox.Push, Inbox.Pop, Wait;
    WaitDoubles(c, s.probes);
    WaitDoubles(c, s.probes + 1);
    WaitDoubles(c, 0);
    WaitZero(c);
  }

  lemma WaitZero(c: Config)
    ensures Wait(c, 0) == c.retryMin
  {
  }

  lemma CountStep(c: Config, s: State, a: Action)
    requires Enabled(c, s, a) && ReplayFirst(s) && Conserved(s)
    ensures Conserved(Next(c, s, a))
  {
    hide Inbox.Weak, Inbox.Push, Inbox.Pop;
    if a.Arrive? {
      PushCounts(s.inbox, a.a);
    } else if (a.ServePop? || a.DrainPop?) && Inbox.CanPop(s.inbox) {
      PopEffect(s.inbox);
    } else {
      QuietCount(c, s, a);
    }
  }

  /** The queue or the sink changes. */
  predicate MovesMessages(a: Action) {
    a.ReplayUnreadable? || a.ReplaySend? || a.ReplayAck? || a.Spill? || a.LiveSend?
  }

  lemma QuietCount(c: Config, s: State, a: Action)
    requires Enabled(c, s, a) && ReplayFirst(s) && Conserved(s)
    requires !a.Arrive? && !((a.ServePop? || a.DrainPop?) && Inbox.CanPop(s.inbox))
    ensures Conserved(Next(c, s, a))
  {
    if MovesMessages(a) {
      MovedCount(c, s, a);
    } else {
      StillCount(c, s, a);
    }
    hide Next, Enabled, Conserved, ReplayFirst;
  }

  lemma MovedCount(c: Config, s: State, a: Action)
    requires Enabled(c, s, a) && ReplayFirst(s) && Conserved(s) && MovesMessages(a)
    ensures Conserved(Next(c, s, a))
  {
    hide Inbox.Weak, Inbox.Push, Inbox.Pop, Inbox.CanPop;
  }

  lemma StillCount(c: Config, s: State, a: Action)
    requires Enabled(c, s, a) && ReplayFirst(s) && Conserved(s) && !MovesMessages(a)
    requires !a.Arrive? && !((a.ServePop? || a.DrainPop?) && Inbox.CanPop(s.inbox))
    ensures Conserved(Next(c, s, a))
  {
    hide Inbox.Weak, Inbox.Push, Inbox.Pop;
  }

  lemma AwakeStep(c: Config, s: State, a: Action)
    requires Enabled(c, s, a) && Awake(s)
    ensures Awake(Next(c, s, a))
  {
    hide Inbox.Weak, Inbox.Push, Inbox.Pop;
  }

  lemma SpillPipeline(c: Config, s: State, lost: nat)
    requires Enabled(c, s, Spill(lost))
    ensures Subsequence(Pipeline(Next(c, s, Spill(lost))), Pipeline(s))
  {
    hide Subsequence;
    var q := s.queue + [s.place.m];
    assert Pipeline(s) == s.sink + q + [];
    assert Pipeline(Next(c, s, Spill(lost))) == s.sink + q[lost..] + [];
    SubsequenceReflexive(Pipeline(s));
    DropInMiddle(s.sink, q, lost, [], Pipeline(s));
  }

  lemma SendPipeline(c: Config, s: State, a: Action)
    requires Enabled(c, s, a) && ReplayFirst(s) && (a.ReplaySend? || a.ReplayAck? || a.LiveSend?)
    ensures Pipeline(Next(c, s, a)) == Pipeline(s)
  {
    if a.ReplaySend? && a.ok {
      assert s.queue == [s.queue[0]] + s.queue[1..];
      assert s.sink + [s.queue[0]] + s.queue[1..] == s.sink + s.queue;
    }
    if a.LiveSend? {
      assert s.sink + [s.place.m] + [] + [] == s.sink + [] + [s.place.m];
    }
  }

  /** What left the inbox only grows by what is popped and only loses what the
      queue evicts or gives up. */
  lemma PipelineStep(c: Config, s: State, a: Action)
    requires Enabled(c, s, a) && ReplayFirst(s)
    ensures var s' := Next(c, s, a);
      var pops := (a.ServePop? || a.DrainPop?) && Inbox.CanPop(s.inbox);
      if pops then Pipeline(s') == Pipeline(s) + Held(s') else Subsequence(Pipeline(s'), Pipeline(s))
  {
    hide Inbox.Weak, Inbox.Push, Inbox.Pop, Subsequence;
    SubsequenceReflexive(Pipeline(s));
    match a {
      case Spill(lost) =>
        SpillPipeline(c, s, lost);
      case ReplayUnreadable(lost) =>
        assert Pipeline(Next(c, s, a)) == s.sink + s.queue[lost..] + [];
        DropInMiddle(s.sink, s.queue, lost, [], Pipeline(s));
      case ReplaySend(_) => SendPipeline(c, s, a);
      case LiveSend(_) => SendPipeline(c, s, a);
      case ReplayAck => SendPipeline(c, s, a);
      case _ =>
    }
  }

  lemma {:induction false} OfTopicSubsequence(a: seq<Message>, b: seq<Message>, t: Inbox.Topic)
    requires Subsequence(a, b)
    ensures Subsequence(Inbox.OfTopic(a, t), Inbox.OfTopic(b, t))
    decreases |b|
  {
    if a == [] {
    } else if a[0] == b[0] && Subsequence(a[1..], b[1..]) {
      OfTopicSubsequence(a[1..], b[1..], t);
      var x, y := Inbox.OfTopic(a[1..], t), Inbox.OfTopic(b[1..], t);
      if a[0].topic == t {
        assert ([a[0]] + x)[1..] == x && ([a[0]] + y)[1..] == y;
      }
    } else {
      OfTopicSubsequence(a, b[1..], t);
      var x, y := Inbox.OfTopic(a, t), Inbox.OfTopic(b[1..], t);
      if b[0].topic == t {
        assert ([b[0]] + y)[1..] == y;
      }
    }
  }

  /** A push extends what arrived and what is buffered. */
  lemma ArriveOrder(c: Config, s: State, m: Message, t: Inbox.Topic)
    requires Ordered(s, t)
    ensures Ordered(Next(c, s, Action.Arrive(m)), t)
  {
    assert s.inbox.perTopic > 0;
    ArrivePipeline(c, s, m);
    PushFifos(s.inbox, m, t);
    Inbox.OfTopicConcat(s.arrivals, [m], t);
    Inbox.OfTopicOne(m, t);
    hide Inbox.Weak, Inbox.Push, Subsequence, Inbox.OfTopic, Inbox.Fifo, Pipeline, Cut;
    OrderAfterPush(Inbox.OfTopic(Pipeline(s), t), Inbox.Fifo(s.inbox.topics, t), Arriving(m, t), Cut(s.inbox, m, t),
                   Inbox.OfTopic(s.arrivals, t));
  }

  /** A pop moves a message from its FIFO to the end of the pipeline. */
  lemma PopOrder(c: Config, s: State, a: Action, t: Inbox.Topic)
    requires Enabled(c, s, a) && ReplayFirst(s) && Ordered(s, t) && (a.ServePop? || a.DrainPop?) &&
      Inbox.CanPop(s.inbox)
    ensures Ordered(Next(c, s, a), t)
  {
    PopStep(c, s, a);
    PopFifo(s.inbox, t);
    hide Next, Enabled, ReplayFirst, Inbox.Weak, Inbox.Pop, Inbox.CanPop, Subsequence, Inbox.OfTopic, Inbox.Fifo,
      Pipeline;
    var m := Inbox.Pop(s.inbox).1;
    var moved := if m.topic == t then [m] else [];
    Inbox.OfTopicConcat(Pipeline(s), [m], t);
    Inbox.OfTopicOne(m, t);
    Associate(Inbox.OfTopic(Pipeline(s), t), moved, Inbox.Fifo(Inbox.Pop(s.inbox).0.topics, t));
  }

  /** The message popped is what its FIFO lost. */
  lemma PopFifo(s: Inbox.State, t: Inbox.Topic)
    requires Inbox.Weak(s) && Inbox.CanPop(s)
    ensures Inbox.Fifo(s.topics, s.ring[Inbox.Wrap(s.rr, |s.ring|)]) != []
    ensures var (s', m) := Inbox.Pop(s);
      Inbox.Fifo(s.topics, t) == (if m.topic == t then [m] else []) + Inbox.Fifo(s'.topics, t)
  {
    PopEffect(s);
    hide Inbox.Pop;
  }

  /** A pop puts the message it takes in hand. */
  lemma PopStep(c: Config, s: State, a: Action)
    requires Enabled(c, s, a) && ReplayFirst(s) && (a.ServePop? || a.DrainPop?) && Inbox.CanPop(s.inbox)
    ensures Inbox.Fifo(s.inbox.topics, s.inbox.ring[Inbox.Wrap(s.inbox.rr, |s.inbox.ring|)]) != []
    ensures var s' := Next(c, s, a);
      s'.inbox == Inbox.Pop(s.inbox).0 && s'.arrivals == s.arrivals &&
        Pipeline(s') == Pipeline(s) + [Inbox.Pop(s.inbox).1]
  {
    PipelineStep(c, s, a);
    PopEffect(s.inbox);
    hide Inbox.Weak, Inbox.Pop, Pipeline;
    assert Held(Next(c, s, a)) == [Inbox.Pop(s.inbox).1];
  }

  /** Per-topic order survives every step. */
  lemma OrderStep(c: Config, s: State, a: Action, t: Inbox.Topic)
    requires Enabled(c, s, a) && ReplayFirst(s) && Ordered(s, t)
    ensures Ordered(Next(c, s, a), t)
  {
    if a.Arrive? {
      ArriveOrder(c, s, a.a, t);
    } else if (a.ServePop? || a.DrainPop?) && Inbox.CanPop(s.inbox) {
      PopOrder(c, s, a, t);
    } else {
      PipelineStep(c, s, a);
      QuietStep(c, s, a);
      hide Next, Enabled, ReplayFirst, Inbox.Weak, Inbox.Push, Inbox.Pop, Inbox.CanPop, Subsequence, Inbox.OfTopic,
        Inbox.Fifo, Pipeline;
      var s' := Next(c, s, a);
      var before, after := Inbox.OfTopic(Pipeline(s), t), Inbox.OfTopic(Pipeline(s'), t);
      var q := Inbox.Fifo(s.inbox.topics, t);
      OfTopicSubsequence(Pipeline(s'), Pipeline(s), t);
      SubsequenceReflexive(q);
      SubsequenceConcat(after, before, q, q);
      SubsequenceTransitive(after + q, before + q, Inbox.OfTopic(s.arrivals, t));
    }
  }

  /** Other steps leave the inbox and the arrivals alone. */
  lemma QuietStep(c: Config, s: State, a: Action)
    requires Enabled(c, s, a) && !a.Arrive? && !((a.ServePop? || a.DrainPop?) && Inbox.CanPop(s.inbox))
    ensures Next(c, s, a).inbox == s.inbox && Next(c, s, a).arrivals == s.arrivals
  {
    hide Inbox.Weak, Inbox.Push, Inbox.Pop;
  }

  lemma ArrivePipeline(c: Config, s: State, m: Message)
    ensures Pipeline(Next(c, s, Action.Arrive(m))) == Pipeline(s)
  {
  }

  // ----- Whole runs ------------------------------------------------------------------

  ghost predicate StepAt(c: Config, states: seq<State>, actions: seq<Action>, i: nat) {
    i < |actions| && i + 1 < |states| && Enabled(c, states[i], actions[i]) &&
      states[i + 1] == Next(c, states[i], actions[i])
  }

  /** A finite run: states, and the action between each two of them. */
  ghost predicate Execution(c: Config, states: seq<State>, actions: seq<Action>) {
    |states| == |actions| + 1 && Initial(c, states[0]) &&
    forall i :: 0 <= i < |actions| ==> StepAt(c, states, actions, i)
  }

  lemma InitialInvariant(c: Config, s: State)
    requires Initial(c, s)
    ensures Invariant(c, s)
  {
    hide Wait;
    forall t ensures Ordered(s, t) {
      assert Pipeline(s) == s.arrivals;
      var q := Inbox.OfTopic(s.arrivals, t);
      assert q + [] == q;
      SubsequenceReflexive(q);
    }
  }

  lemma StepInvariant(c: Config, s: State, a: Action)
    requires Invariant(c, s) && Enabled(c, s, a)
    ensures Invariant(c, Next(c, s, a))
  {
    ReplayFirstStep(c, s, a);
    RetryStep(c, s, a);
    CountStep(c, s, a);
    AwakeStep(c, s, a);
    forall t ensures Ordered(Next(c, s, a), t) {
      OrderStep(c, s, a, t);
    }
    hide Conserved, Awake, ReplayFirst, Retrying, Ordered, Next;
  }

  /** Every state of every run satisfies the invariant. */
  lemma {:induction false} RunInvariant(c: Config, states: seq<State>, actions: seq<Action>, n: nat)
    requires Execution(c, states, actions) && n < |states|
    ensures Invariant(c, states[n])
  {
    hide Invariant, Next;
    if n == 0 {
      InitialInvariant(c, states[0]);
    } else {
      RunInvariant(c, states, actions, n - 1);
      assert StepAt(c, states, actions, n - 1);
      StepInvariant(c, states[n - 1], actions[n - 1]);
    }
  }

  /** Over every run: what the sink received for a topic, followed by what is
      queued and buffered for it, is a subsequence of its arrivals. */
  lemma RunOrder(c: Config, states: seq<State>, actions: seq<Action>, t: Inbox.Topic)
    requires Execution(c, states, actions)
    ensures var s := states[|states| - 1];
      Subsequence(Inbox.OfTopic(s.sink + Unsent(s) + Held(s), t) + Inbox.Fifo(s.inbox.topics, t),
        Inbox.OfTopic(s.arrivals, t))
  {
    RunInvariant(c, states, actions, |states| - 1);
    assert Ordered(states[|states| - 1], t);
  }

  /** Waiting in select with a message to pop, a wake-up is there or on its way;
      and with the sink down, or not, the retry timer is running or has fired. */
  lemma RunWakeUp(c: Config, states: seq<State>, actions: seq<Action>, n: nat)
    requires Execution(c, states, actions) && n < |states| && states[n].place.Select?
    ensures var s := states[n];
      (Inbox.CanPop(s.inbox) ==> s.notify || s.posting > 0) && !s.timer.Spent? && (s.sinkUp ==> s.queue == [])
    ensures var s := states[n];
      !s.cancelled && !s.sinkUp ==> s.timer.wait == Wait(c, s.probes)
  {
    RunInvariant(c, states, actions, n);
  }

  /** When the shutdown drain ends without a further arrival pending, the inbox
      has nothing left to pop, and every arrival was delivered, is queued, or
      was counted as coalesced or evicted. */
  lemma RunDrained(c: Config, states: seq<State>, actions: seq<Action>, n: nat)
    requires Execution(c, states, actions) && n < |actions|
    requires actions[n].DrainPop? && states[n + 1].place.Stopped?
    ensures var s := states[n + 1];
      !Inbox.CanPop(s.inbox) &&
      |s.arrivals| == |s.sink| + s.inbox.dropped + s.evicted + |s.queue| + s.inbox.total &&
      (Inbox.Valid(s.inbox) ==> s.inbox.total == 0 && forall t :: Inbox.Fifo(s.inbox.topics, t) == [])
  {
    RunInvariant(c, states, actions, n + 1);
    assert StepAt(c, states, actions, n);
    var s := states[n + 1];
    if Inbox.Valid(s.inbox) {
      ValidCanPop(s.inbox);
      if s.inbox.ring == [] {
        assert Inbox.RingTotal(s.inbox.topics, []) == 0;
      }
    }
  }

  // ----- The documented backoff -------------------------------------------------------

  /** The forwarder of an execution waits in select for its next probe. */
  ghost predicate Probing(c: Config, states: seq<State>, actions: seq<Action>, n: nat) {
    Execution(c, states, actions) && n < |states| &&
    states[n].place.Select? && !states[n].sinkUp && !states[n].cancelled
  }

  /** The wait the timer was last set to. */
  function TimerWait(s: State): nat {
    if s.timer.Spent? then 0 else s.timer.wait
  }

  /** A run with RetryMin above RetryMax: the first wait is RetryMin all the same. */
  lemma FirstWaitTooLong(c: Config, m: Message)
    requires c.replayBatch > 0
    ensures exists states: seq<State>, actions: seq<Action> ::
      Probing(c, states, actions, 2) && states[2].probes == 0 && TimerWait(states[2]) == c.retryMin
  {
    var s0 := State(Inbox.Empty(1, 1), false, 0, [m], 0, true, false, c.retryMin, Armed(c.retryMax), [], [m], 0, Top);
    var s1 := Next(c, s0, Begin);
    var s2 := Next(c, s1, ReplaySend(false));
    var states, actions := [s0, s1, s2], [Begin, ReplaySend(false)];
    assert Enabled(c, s0, Begin) && Enabled(c, s1, ReplaySend(false));
    assert StepAt(c, states, actions, 0) && StepAt(c, states, actions, 1);
    assert Execution(c, states, actions);
    assert Probing(c, states, actions, 2);
  }

  /** In every execution the k-th probe in a row waits min(2^k * RetryMin,
      RetryMax), as documented, exactly when RetryMin <= RetryMax. */
  lemma DocumentedBackoff(c: Config)
    requires c.replayBatch > 0
    ensures (forall states: seq<State>, actions: seq<Action>, n: nat | Probing(c, states, actions, n) ::
              TimerWait(states[n]) == Min(Pow2(states[n].probes) * c.retryMin, c.retryMax)) <==>
            c.retryMin <= c.retryMax
  {
    hide Execution;
    if c.retryMin <= c.retryMax {
      forall states: seq<State>, actions: seq<Action>, n: nat | Probing(c, states, actions, n)
        ensures TimerWait(states[n]) == Min(Pow2(states[n].probes) * c.retryMin, c.retryMax)
      {
        RunWakeUp(c, states, actions, n);
      }
    } else {
      FirstWaitTooLong(c, Message([], [], false, 0));
      var states: seq<State>, actions: seq<Action> :|
        Probing(c, states, actions, 2) && states[2].probes == 0 && TimerWait(states[2]) == c.retryMin;
      assert Pow2(0) * c.retryMin == c.retryMin;
    }
  }
}
