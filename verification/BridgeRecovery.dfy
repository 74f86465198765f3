/** Recovery after an outage: from the probe, or from the top of the loop, until
    the backlog is delivered. */
module BridgeRecovery {
  import opened Bytes
  import opened Messages
  import opened Sequences
  import opened BridgeProtocol
  import Inbox = InboxModel
  import opened InboxTheorems

  /** An action that neither fails nor cancels anything. */
  predicate Accepting(a: Action) {
    !a.Cancel? && !a.ReplayUnreadable? && (a.ReplaySend? ==> a.ok)
  }

  /** What happens around the forwarder. */
  predicate Outside(a: Action) {
    a.Arrive? || a.Post? || a.Tick? || a.Cancel?
  }

  /** A batch begins: at the top of the loop, or with the probe. */
  predicate StartsBatch(s: State, a: Action) {
    (a.Begin? && s.queue != [] && s.sinkUp) || a.SelectTimer?
  }

  /** Catching up on the queued messages of `backlog`, with b batches begun and f
      steps of the forwarder made: how many are left at each point of the loop. */
  predicate CatchingUp(c: Config, s: State, backlog: seq<Message>, sent: seq<Message>, b: nat, f: nat) {
    !s.cancelled && |s.queue| <= |backlog| &&
    var k := |backlog| - |s.queue|;
    s.queue == backlog[k..] &&
    (s.place.Acking? ==> s.queue != []) &&
    (if s.place.Acking? then s.sink == sent + backlog[..k] + [backlog[k]] else s.sink == sent + backlog[..k]) &&
    (b >= 1 ==> (b - 1) * c.replayBatch < |backlog|) &&
    match s.place
    case Top =>
      s.sinkUp && f == 2 * k + 2 * b &&
      if s.queue != [] then k == b * c.replayBatch else b >= 1 && |backlog| <= b * c.replayBatch
    case Replaying(i, probing) =>
      s.sinkUp == !probing && b >= 1 && i <= c.replayBatch && k == (b - 1) * c.replayBatch + i && f == 2 * k + 2 * b - 1
    case Acking(i, probing) =>
      s.sinkUp == !probing && b >= 1 && i < c.replayBatch && k == (b - 1) * c.replayBatch + i && f == 2 * k + 2 * b
    case Select =>
      if s.sinkUp then s.queue == [] && b >= 1 && |backlog| <= b * c.replayBatch && f <= 2 * k + 2 * b + 1
      else s.queue != [] && k == 0 && b == 0 && f == 0 && !s.timer.Spent?
    case _ => false
  }

  /** The backlog is delivered and the forwarder back in select. */
  predicate Recovered(s: State) {
    s.place.Select? && s.sinkUp
  }

  lemma CatchUpStep(c: Config, s: State, a: Action, backlog: seq<Message>, sent: seq<Message>, b: nat, f: nat)
    requires CatchingUp(c, s, backlog, sent, b, f) && Enabled(c, s, a) && Accepting(a)
    requires c.replayBatch > 0 && !Recovered(s) && !a.SelectNotify?
    ensures
      CatchingUp(
        c, Next(c, s, a), backlog, sent, if StartsBatch(s, a) then b + 1 else b, if Outside(a) then f else f + 1)
  {
    WhatCanHappen(c, s, a, backlog, sent, b, f);
    hide Next, CatchingUp, Enabled, Accepting;
    if a.ReplayAck? {
      AckCatchUp(c, s, backlog, sent, b, f);
    } else if a.ReplaySend? {
      SendCatchUp(c, s, backlog, sent, b, f);
    } else if Outside(a) {
      OutsideCatchUp(c, s, a, backlog, sent, b, f);
    } else if a.Begin? || a.SelectTimer? {
      StartCatchUp(c, s, a, backlog, sent, b, f);
    } else {
      StopCatchUp(c, s, a, backlog, sent, b, f);
    }
  }

  lemma WhatCanHappen(c: Config, s: State, a: Action, backlog: seq<Message>, sent: seq<Message>, b: nat, f: nat)
    requires CatchingUp(c, s, backlog, sent, b, f) && Enabled(c, s, a) && Accepting(a) && !Recovered(s) &&
      !a.SelectNotify?
    ensures Outside(a) || a.ReplayAck? || a == ReplaySend(true) || a.Begin? || a.SelectTimer? || a.ReplayStop? ||
      a.ReplayEmpty?
    ensures a.SelectTimer? ==> !s.sinkUp
  {
  }

  lemma StartCatchUp(c: Config, s: State, a: Action, backlog: seq<Message>, sent: seq<Message>, b: nat, f: nat)
    requires CatchingUp(c, s, backlog, sent, b, f) && Enabled(c, s, a) && (a.Begin? || (a.SelectTimer? && !s.sinkUp))
    ensures CatchingUp(c, Next(c, s, a), backlog, sent, if StartsBatch(s, a) then b + 1 else b, f + 1)
  {
    hide Inbox.Weak, Inbox.Push, Inbox.Pop;
  }

  lemma StopCatchUp(c: Config, s: State, a: Action, backlog: seq<Message>, sent: seq<Message>, b: nat, f: nat)
    requires CatchingUp(c, s, backlog, sent, b, f) && Enabled(c, s, a) && (a.ReplayStop? || a.ReplayEmpty?)
    ensures CatchingUp(c, Next(c, s, a), backlog, sent, b, f + 1)
  {
    hide Inbox.Weak, Inbox.Push, Inbox.Pop;
    if b >= 1 {
      assert b * c.replayBatch == (b - 1) * c.replayBatch + c.replayBatch;
    }
  }

  lemma AckCatchUp(c: Config, s: State, backlog: seq<Message>, sent: seq<Message>, b: nat, f: nat)
    requires CatchingUp(c, s, backlog, sent, b, f) && Enabled(c, s, ReplayAck)
    ensures CatchingUp(c, Next(c, s, ReplayAck), backlog, sent, b, f + 1)
  {
    hide Inbox.Weak, Inbox.Push, Inbox.Pop;
    var k := |backlog| - |s.queue|;
    assert backlog[k..][1..] == backlog[k + 1..];
    assert sent + backlog[..k] + [backlog[k]] == sent + backlog[..k + 1];
  }

  lemma SendCatchUp(c: Config, s: State, backlog: seq<Message>, sent: seq<Message>, b: nat, f: nat)
    requires CatchingUp(c, s, backlog, sent, b, f) && Enabled(c, s, ReplaySend(true))
    ensures CatchingUp(c, Next(c, s, ReplaySend(true)), backlog, sent, b, f + 1)
  {
    hide Inbox.Weak, Inbox.Push, Inbox.Pop;
  }

  lemma OutsideCatchUp(c: Config, s: State, a: Action, backlog: seq<Message>, sent: seq<Message>, b: nat, f: nat)
    requires CatchingUp(c, s, backlog, sent, b, f) && Enabled(c, s, a) && Accepting(a) && Outside(a)
    ensures CatchingUp(c, Next(c, s, a), backlog, sent, b, f)
  {
    hide Inbox.Weak, Inbox.Push, Inbox.Pop;
  }

  /** One step of such a run. */
  ghost predicate AcceptedAt(c: Config, states: seq<State>, actions: seq<Action>, i: nat) {
    i < |actions| && i + 1 < |states| &&
    Enabled(c, states[i], actions[i]) && Accepting(actions[i]) && !Recovered(states[i]) && !actions[i].SelectNotify? &&
    states[i + 1] == Next(c, states[i], actions[i])
  }

  /** Part of a run on which the sink accepts everything. It starts with a
      backlog, either waiting for the probe with the sink down or at the top of
      the loop with the sink up; while it waits, the timer comes first. */
  ghost predicate Recovering(c: Config, states: seq<State>, actions: seq<Action>) {
    |states| == |actions| + 1 && c.replayBatch > 0 &&
    states[0].queue != [] && !states[0].cancelled &&
    ((states[0].place.Top? && states[0].sinkUp) ||
      (states[0].place.Select? && !states[0].sinkUp && !states[0].timer.Spent?)) &&
    forall i :: 0 <= i < |actions| ==> AcceptedAt(c, states, actions, i)
  }

  ghost function Batches(states: seq<State>, actions: seq<Action>): nat
    requires |states| == |actions| + 1
  {
    if actions == [] then 0 else
    var n := |actions| - 1;
    Batches(states[..n + 1], actions[..n]) + if StartsBatch(states[n], actions[n]) then 1 else 0
  }

  /** Steps of the forwarder. */
  function Steps(actions: seq<Action>): nat {
    if actions == [] then 0
    else Steps(actions[..|actions| - 1]) + if Outside(actions[|actions| - 1]) then 0 else 1
  }

  lemma {:induction false} RecoveringPrefix(c: Config, states: seq<State>, actions: seq<Action>)
    requires Recovering(c, states, actions)
    ensures CatchingUp(c, states[|actions|], states[0].queue, states[0].sink, Batches(states, actions), Steps(actions))
    decreases |actions|
  {
    hide Next, Enabled, AcceptedAt;
    var n := |actions|;
    if n == 0 {
      assert states[0].queue[0..] == states[0].queue;
      assert states[0].sink + [] == states[0].sink;
      assert states[0].queue[..0] == [];
    } else {
      RecoveringPart(c, states, actions, n - 1);
      RecoveringPrefix(c, states[..n], actions[..n - 1]);
      hide CatchingUp, Recovering;
      AcceptedStep(c, states, actions, n - 1, states[0].queue, states[0].sink, Batches(states[..n], actions[..n - 1]),
                   Steps(actions[..n - 1]));
    }
  }

  lemma AcceptedStep(
      c: Config, states: seq<State>, actions: seq<Action>, i: nat,
      backlog: seq<Message>, sent: seq<Message>, b: nat, f: nat)
    requires AcceptedAt(c, states, actions, i) && CatchingUp(c, states[i], backlog, sent, b, f) && c.replayBatch > 0
    ensures var s, a := states[i], actions[i];
      CatchingUp(
        c, states[i + 1], backlog, sent, if StartsBatch(s, a) then b + 1 else b, if Outside(a) then f else f + 1)
  {
    hide Next, Enabled, CatchingUp, Accepting, Recovered;
    CatchUpStep(c, states[i], actions[i], backlog, sent, b, f);
  }

  /** The beginning of such a run is one, too. */
  lemma RecoveringPart(c: Config, states: seq<State>, actions: seq<Action>, k: nat)
    requires Recovering(c, states, actions) && k < |actions|
    ensures Recovering(c, states[..k + 1], actions[..k]) && AcceptedAt(c, states, actions, k)
  {
    hide Next, Enabled, Accepting, Recovered;
    var states', actions' := states[..k + 1], actions[..k];
    forall i | 0 <= i < k ensures AcceptedAt(c, states', actions', i) {
      assert AcceptedAt(c, states, actions, i);
    }
  }

  /** While catching up the forwarder takes nothing from the inbox. */
  lemma {:induction false} NothingTaken(c: Config, states: seq<State>, actions: seq<Action>, i: nat)
    requires Recovering(c, states, actions) && i < |actions|
    ensures !actions[i].ServePop? && !actions[i].DrainPop?
  {
    RecoveringPart(c, states, actions, i);
    RecoveringPrefix(c, states[..i + 1], actions[..i]);
    hide Next, Recovering, Batches, Steps;
  }

  /** Once the sink accepts, from the probe on: at every point at most
      ceil(backlog / ReplayBatch) batches have begun, the probe's own included,
      and the forwarder has made at most 2 * backlog + 2 * batches + 1 steps;
      when it is back in select, the whole backlog has been delivered, in order,
      in exactly that many batches. The inbox is not touched before. */
  lemma {:induction false} RecoveryTakes(c: Config, states: seq<State>, actions: seq<Action>)
    requires Recovering(c, states, actions)
    ensures forall i :: 0 <= i < |actions| ==> !actions[i].ServePop? && !actions[i].DrainPop?
    ensures var s, backlog, b := states[|actions|], |states[0].queue|, Batches(states, actions);
      (b >= 1 ==> (b - 1) * c.replayBatch < backlog) &&
      Steps(actions) <= 2 * backlog + 2 * b + 1 &&
      (Recovered(s) ==>
        s.queue == [] && s.sink == states[0].sink + states[0].queue && b >= 1 && backlog <= b * c.replayBatch)
  {
    RecoveringPrefix(c, states, actions);
    hide Next, Enabled;
    assert states[0].queue[..|states[0].queue|] == states[0].queue;
    forall i | 0 <= i < |actions| ensures !actions[i].ServePop? && !actions[i].DrainPop? {
      NothingTaken(c, states, actions, i);
    }
  }

  /** Until then the forwarder can always go on: some step of its own that the
      sink accepts is possible, at the latest when the timer has fired. */
  lemma NeverStuck(c: Config, states: seq<State>, actions: seq<Action>)
    requires Recovering(c, states, actions) && !Recovered(states[|actions|])
    requires !(states[|actions|].place.Select? && states[|actions|].timer.Armed?)
    ensures exists a :: Enabled(c, states[|actions|], a) && Accepting(a) && !Outside(a) && !a.SelectNotify?
  {
    RecoveringPrefix(c, states, actions);
    var a := OwnStep(c, states[|actions|]);
    OwnStepEnabled(c, states[|actions|], states[0].queue, states[0].sink, Batches(states, actions), Steps(actions));
    hide CatchingUp, Recovering, Enabled, OwnStep, Batches, Steps;
  }

  /** The forwarder's own next step, with a sink that accepts. */
  function OwnStep(c: Config, s: State): Action {
    match s.place
    case Replaying(i, _) =>
      if i >= c.replayBatch then ReplayStop else if s.queue == [] then ReplayEmpty else ReplaySend(true)
    case Acking(_, _) => ReplayAck
    case Select => SelectTimer
    case _ => Begin
  }

  lemma OwnStepEnabled(c: Config, s: State, backlog: seq<Message>, sent: seq<Message>, b: nat, f: nat)
    requires CatchingUp(c, s, backlog, sent, b, f) && !Recovered(s) && !(s.place.Select? && s.timer.Armed?)
    ensures var a := OwnStep(c, s); Enabled(c, s, a) && Accepting(a) && !Outside(a) && !a.SelectNotify?
  {
  }
}
