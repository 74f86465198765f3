/** The bridge while nothing goes wrong, and what a down sink implies. */
module BridgeNominal {
  import opened Bytes
  import opened Messages
  import opened Sequences
  import opened BridgeProtocol
  import opened BridgeTheorems
  import Inbox = InboxModel
  import opened InboxTheorems

  /** The sink accepts, and nothing is cancelled. */
  predicate Smooth(a: Action) {
    !a.Cancel? && (a.LiveSend? ==> a.ok) && (a.ReplaySend? ==> a.ok)
  }

  /** The forwarder hands on what it pops, past an empty queue. */
  predicate Straight(s: State) {
    s.sinkUp && !s.cancelled && s.queue == [] && s.evicted == 0 &&
    (s.place.Top? || s.place.Select? || s.place.Serving? || s.place.Hand?)
  }

  lemma StraightStep(c: Config, s: State, a: Action)
    requires Straight(s) && Enabled(c, s, a) && Smooth(a)
    ensures Straight(Next(c, s, a))
    ensures var s' := Next(c, s, a);
      s'.sink + Held(s') ==
      s.sink + Held(s) + if a.ServePop? && Inbox.CanPop(s.inbox) then Held(s') else []
  {
    hide Inbox.Weak, Inbox.Push, Inbox.Pop, Inbox.CanPop;
  }

  /** As long as the sink accepts everything, the queue is never used: whatever
      callbacks, timers and tokens do in between, nothing is stored or evicted, and
      every arrival was delivered, is in hand or in the inbox, or was coalesced. */
  lemma {:induction false} StraightThrough(c: Config, states: seq<State>, actions: seq<Action>, n: nat)
    requires Execution(c, states, actions) && n < |states|
    requires states[0].queue == [] && !states[0].cancelled && forall a <- actions :: Smooth(a)
    ensures Straight(states[n])
    ensures var s := states[n];
      |s.arrivals| == |s.sink| + |Held(s)| + s.inbox.total + s.inbox.dropped
  {
    RunInvariant(c, states, actions, n);
    hide Enabled, Next;
    if n > 0 {
      StraightThrough(c, states, actions, n - 1);
      assert StepAt(c, states, actions, n - 1);
      assert actions[n - 1] in actions;
      StraightStep(c, states[n - 1], actions[n - 1]);
    }
  }

  /** A down sink has something to probe it with, unless a probe is under way. */
  predicate Probeable(s: State) {
    (!s.sinkUp && !s.cancelled ==> s.queue != [] || s.place.Replaying?) && (s.place.Spilled? ==> s.queue != [])
  }

  lemma ProbeableStep(c: Config, s: State, a: Action)
    requires Probeable(s) && Enabled(c, s, a)
    ensures Probeable(Next(c, s, a))
  {
    hide Inbox.Weak, Inbox.Push, Inbox.Pop, Inbox.CanPop;
  }

  /** In every run: while the sink is down, and until cancellation, a message is
      queued or a replay is running, so an expired timer always finds one to probe
      with. */
  lemma {:induction false} DownMeansQueued(c: Config, states: seq<State>, actions: seq<Action>, n: nat)
    requires Execution(c, states, actions) && n < |states|
    ensures Probeable(states[n])
    ensures !states[n].sinkUp && !states[n].cancelled && states[n].place.Select? ==> states[n].queue != []
  {
    hide Enabled, Next;
    if n > 0 {
      DownMeansQueued(c, states, actions, n - 1);
      assert StepAt(c, states, actions, n - 1);
      ProbeableStep(c, states[n - 1], actions[n - 1]);
    }
  }

  /** While the sink is up the timer runs with the longest wait. */
  predicate Relaxed(c: Config, s: State) {
    s.sinkUp && !s.timer.Spent? ==> s.timer.wait == c.retryMax
  }

  lemma RelaxedStep(c: Config, s: State, a: Action)
    requires ReplayFirst(s) && Retrying(c, s) && Relaxed(c, s) && Enabled(c, s, a)
    ensures Relaxed(c, Next(c, s, a))
  {
    hide Inbox.Weak, Inbox.Push, Inbox.Pop, Inbox.CanPop, Wait;
  }

  /** In every run, up to cancellation and after: a sink that is up is checked every
      RetryMax and no more often. */
  lemma {:induction false} RelaxedWhileUp(c: Config, states: seq<State>, actions: seq<Action>, n: nat)
    requires Execution(c, states, actions) && n < |states|
    ensures Relaxed(c, states[n])
  {
    hide Enabled, Next, ReplayFirst, Retrying;
    if n > 0 {
      RelaxedWhileUp(c, states, actions, n - 1);
      RunInvariant(c, states, actions, n - 1);
      assert StepAt(c, states, actions, n - 1);
      RelaxedStep(c, states[n - 1], actions[n - 1]);
    }
  }

  /** A step of the forwarder, not of the callbacks, the timer or the context. */
  predicate Own(a: Action) {
    !a.Arrive? && !a.Post? && !a.Tick? && !a.Cancel?
  }

  /** In every run the forwarder can go on wherever it is, except where it waits:
      in the select, until a token, an expired timer or cancellation is there. It
      can go on whether the sink accepts the next message or not. */
  lemma NeverBlocked(c: Config, states: seq<State>, actions: seq<Action>, n: nat)
    requires Execution(c, states, actions) && n < |states|
    ensures var s := states[n];
      !s.place.Stopped? && (s.place.Select? ==> s.notify || s.timer.Fired? || s.cancelled) ==>
        exists a :: Own(a) && Enabled(c, s, a)
    ensures var s := states[n];
      s.place.Hand? && s.sinkUp && s.queue == [] ==>
        Enabled(c, s, LiveSend(true)) && Enabled(c, s, LiveSend(false)) &&
        forall a :: Own(a) && Enabled(c, s, a) ==> a.LiveSend?
  {
    RunInvariant(c, states, actions, n);
    var s := states[n];
    hide Execution, Next, Inbox.Weak;
    var a := match s.place
      case Top => Begin
      case Replaying(i, _) =>
        if i >= c.replayBatch || s.cancelled then ReplayStop
        else if s.queue == [] then ReplayEmpty else ReplaySend(true)
      case Acking(_, _) => ReplayAck
      case Select => if s.cancelled then SelectDone else if s.notify then SelectNotify else SelectTimer
      case Serving => ServePop
      case Hand(_) => if s.sinkUp && s.queue == [] then LiveSend(true) else Spill(0)
      case Rejected(_) => Spill(0)
      case Spilled => AfterSpill
      case Draining => DrainPop
      case DrainHand(_) => Spill(0)
      case Stopped => Begin;
    assert !s.place.Stopped? && (s.place.Select? ==> s.notify || s.timer.Fired? || s.cancelled) ==>
      Own(a) && Enabled(c, s, a);
  }
}
