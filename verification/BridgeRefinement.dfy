/** The loops over the real queue and inbox are steps of the protocol: whatever
    replay and drain did, an execution of BridgeProtocol does too, and ends with
    the same queue, inbox and sink. */
module BridgeRefinement {
  import opened Bytes
  import opened Messages
  import opened Sequences
  import opened Records
  import opened QueueContract
  import opened BridgeProtocol
  import opened Bridges
  import Inbox = InboxModel
  import opened InboxTheorems

  /** The unread records are these messages. */
  ghost predicate Represents(bodies: seq<bytes>, ms: seq<Message>) {
    Decoded(bodies) == AsRead(ms)
  }

  /** The actions are possible one after another. */
  ghost predicate Runs(c: Config, s: State, actions: seq<Action>)
    decreases |actions|
  {
    actions == [] || (Enabled(c, s, actions[0]) && Runs(c, Next(c, s, actions[0]), actions[1..]))
  }

  ghost function Follow(c: Config, s: State, actions: seq<Action>): State
    requires Runs(c, s, actions)
    decreases |actions|
  {
    if actions == [] then s else Follow(c, Next(c, s, actions[0]), actions[1..])
  }

  lemma {:induction false} RunsConcat(c: Config, s: State, a: seq<Action>, b: seq<Action>)
    requires Runs(c, s, a) && Runs(c, Follow(c, s, a), b)
    ensures Runs(c, s, a + b) && Follow(c, s, a + b) == Follow(c, Follow(c, s, a), b)
    decreases |a|
  {
    hide Next, Enabled;
    if a == [] {
      assert a + b == b;
    } else {
      RunsConcat(c, Next(c, s, a[0]), a[1..], b);
      assert (a + b)[1..] == a[1..] + b;
    }
  }

  lemma OneAction(c: Config, s: State, a: Action)
    requires Enabled(c, s, a)
    ensures Runs(c, s, [a]) && Follow(c, s, [a]) == Next(c, s, a)
  {
    hide Next, Enabled;
    var next := Next(c, s, a);
    assert [a][1..] == [];
    assert Runs(c, next, []) && Follow(c, next, []) == next;
  }

  lemma TwoActions(c: Config, s: State, a: Action, b: Action)
    requires Enabled(c, s, a) && Enabled(c, Next(c, s, a), b)
    ensures Runs(c, s, [a, b]) && Follow(c, s, [a, b]) == Next(c, Next(c, s, a), b)
  {
    hide Next, Enabled;
    OneAction(c, s, a);
    OneAction(c, Next(c, s, a), b);
    RunsConcat(c, s, [a], [b]);
    assert [a] + [b] == [a, b];
  }

  // ----- Replay ---------------------------------------------------------------------

  function ActionsOf(a: Attempt): seq<Action> {
    match a
    case Empty => [ReplayEmpty]
    case Skipped(lost) => [ReplayUnreadable(lost)]
    case Delivered(_) => [ReplaySend(true), ReplayAck]
    case Refused => [ReplaySend(false)]
  }

  function AllActions(tried: seq<Attempt>): seq<Action> {
    if tried == [] then [] else AllActions(tried[..|tried| - 1]) + ActionsOf(tried[|tried| - 1])
  }

  lemma RepresentsDrop(bodies: seq<bytes>, ms: seq<Message>, k: nat)
    requires Represents(bodies, ms) && k <= |bodies|
    ensures k <= |ms| && Represents(bodies[k..], ms[k..])
  {
    hide Decode;
    assert |bodies| == |ms|;
    assert Decoded(bodies[k..]) == Decoded(bodies)[k..] && AsRead(ms[k..]) == AsRead(ms)[k..];
  }

  lemma RepresentsHead(bodies: seq<bytes>, ms: seq<Message>)
    requires Represents(bodies, ms) && bodies != []
    ensures ms != [] && Decode(bodies[0]) == Ok(ms[0])
  {
    hide Decode;
    assert |bodies| == |ms|;
    assert Decoded(bodies)[0] == AsRead(ms)[0];
  }

  /** The protocol state agrees with what is left of the queue after some
      iterations of a replay that began in s0. */
  ghost predicate Agrees(s: State, s0: State, bodies: seq<bytes>, delivered: seq<Message>, lost: nat) {
    Represents(bodies, s.queue) && s.sink == s0.sink + delivered && s.evicted == s0.evicted + lost &&
    s.inbox == s0.inbox && s.arrivals == s0.arrivals && s.cancelled == s0.cancelled
  }

  lemma AttemptRefines(c: Config, s: State, s0: State, bodies: seq<bytes>, delivered: seq<Message>, lost: nat,
      a: Attempt, accepts: bool)
    requires Agrees(s, s0, bodies, delivered, lost) && Attempted(bodies, a, accepts)
    requires s.place.Replaying? && s.place.i < c.replayBatch && !s.cancelled
    ensures Runs(c, s, ActionsOf(a))
    ensures var s' := Follow(c, s, ActionsOf(a));
      Agrees(
        s', s0, LeftBy(bodies, a), if a.Delivered? then delivered + [a.m] else delivered,
        if a.Skipped? then lost + a.lost else lost) &&
      (GoesOn(a) ==> s'.place == Replaying(s.place.i + 1, s.place.probing)) && (!GoesOn(a) ==> !Replay(s'))
  {
    hide Inbox.Weak, Inbox.Push, Inbox.Pop, Decode, Represents;
    assert |bodies| == |s.queue| by { RepresentsLength(bodies, s.queue); }
    match a {
      case Empty => OneAction(c, s, ReplayEmpty);
      case Skipped(k) =>
        OneAction(c, s, ReplayUnreadable(k));
        RepresentsDrop(bodies, s.queue, k);
      case Delivered(m) =>
        RepresentsHead(bodies, s.queue);
        RepresentsDrop(bodies, s.queue, 1);
        TwoActions(c, s, ReplaySend(true), ReplayAck);
        Associate(s0.sink, delivered, [m]);
      case Refused => OneAction(c, s, ReplaySend(false));
    }
    hide Runs, Follow;
  }

  lemma RepresentsLength(bodies: seq<bytes>, ms: seq<Message>)
    requires Represents(bodies, ms)
    ensures |bodies| == |ms|
  {
  }

  /** Any replay over the real queue is a run of the protocol from the start of
      its replay: it delivers the same messages, loses the same records, leaves
      the same queue, and has left the replay exactly when the loop ended by
      itself. */
  lemma {:induction false} ReplayRefines(c: Config, s: State, bodies: seq<bytes>, tried: seq<Attempt>,
      accepts: seq<bool>)
    requires s.place.Replaying? && s.place.i == 0 && !s.cancelled && Represents(bodies, s.queue)
    requires Tried(bodies, tried, accepts) && |accepts| == c.replayBatch
    ensures Runs(c, s, AllActions(tried))
    ensures var s' := Follow(c, s, AllActions(tried));
      Agrees(s', s, Left(bodies, tried), DeliveredBy(tried), LostBy(tried)) &&
      ((forall a <- tried :: GoesOn(a)) ==> s'.place == Replaying(|tried|, s.place.probing)) &&
      (tried != [] && !GoesOn(tried[|tried| - 1]) ==> !Replay(s'))
  {
    if tried == [] {
      assert s.sink + [] == s.sink;
    } else {
      var n := |tried| - 1;
      hide Runs, Follow, Agrees, Attempted, LeftBy, Represents;
      ReplayRefines(c, s, bodies, tried[..n], accepts);
      OneMoreAttempt(c, s, bodies, tried, accepts);
    }
  }

  lemma OneMoreAttempt(c: Config, s: State, bodies: seq<bytes>, tried: seq<Attempt>, accepts: seq<bool>)
    requires s.place.Replaying? && s.place.i == 0 && !s.cancelled && |accepts| == c.replayBatch
    requires tried != [] && Tried(bodies, tried, accepts)
    requires var init := tried[..|tried| - 1];
      Runs(c, s, AllActions(init)) &&
      var mid := Follow(c, s, AllActions(init));
      Agrees(mid, s, Left(bodies, init), DeliveredBy(init), LostBy(init)) &&
        mid.place == Replaying(|init|, s.place.probing)
    ensures Runs(c, s, AllActions(tried))
    ensures var s', a := Follow(c, s, AllActions(tried)), tried[|tried| - 1];
      Agrees(s', s, Left(bodies, tried), DeliveredBy(tried), LostBy(tried)) &&
      (GoesOn(a) ==> s'.place == Replaying(|tried|, s.place.probing)) && (!GoesOn(a) ==> !Replay(s'))
  {
    var n := |tried| - 1;
    var init, a := tried[..n], tried[n];
    var mid := Follow(c, s, AllActions(init));
    hide Runs, Follow, Agrees, Attempted, LeftBy, Represents;
    AgreesQuiet(mid, s, Left(bodies, init), DeliveredBy(init), LostBy(init));
    AttemptRefines(c, mid, s, Left(bodies, init), DeliveredBy(init), LostBy(init), a, accepts[n]);
    RunsConcat(c, s, AllActions(init), ActionsOf(a));
    assert DeliveredBy(init) + [] == DeliveredBy(init);
  }

  lemma AgreesQuiet(s: State, s0: State, bodies: seq<bytes>, delivered: seq<Message>, lost: nat)
    requires Agrees(s, s0, bodies, delivered, lost)
    ensures s.cancelled == s0.cancelled
  {
  }

  // ----- Drain ------------------------------------------------------------------------

  /** Topics a record can hold. */
  ghost predicate ShortTopics(s: Inbox.State) {
    forall t <- s.topics :: forall m <- s.topics[t] :: |m.topic| <= 0xFFFF
  }

  lemma PoppedShort(s: Inbox.State)
    requires Inbox.Weak(s) && Inbox.CanPop(s) && ShortTopics(s)
    ensures Inbox.Fifo(s.topics, s.ring[Inbox.Wrap(s.rr, |s.ring|)]) != []
    ensures ShortTopics(Inbox.Pop(s).0) && |Inbox.Pop(s).1.topic| <= 0xFFFF
  {
    PopEffect(s);
    var t := s.ring[s.rr];
    assert t in s.topics;
    assert forall m <- s.topics[t][1..] :: m in s.topics[t];
  }

  lemma RepresentsPush(bodies: seq<bytes>, ms: seq<Message>, m: Message, lost: nat)
    requires Represents(bodies, ms) && |m.topic| <= 0xFFFF && lost <= |bodies|
    ensures |bodies| == |ms| && Represents((bodies + [Body(m)])[lost..], (ms + [m])[lost..])
  {
    DecodeBody(m);
    hide Decode, Body;
    var one: seq<Result<Message, ReadError>> := [Ok(m)];
    assert Decoded(bodies + [Body(m)]) == Decoded(bodies) + one;
    assert AsRead(ms + [m]) == AsRead(ms) + one;
    RepresentsDrop(bodies + [Body(m)], ms + [m], lost);
  }

  /** The drain's actions: one pop and one spill for each message, and the pop
      that finds nothing. */
  function DrainActions(losses: seq<nat>): seq<Action> {
    if losses == [] then [DrainPop] else [DrainPop, Action.Spill(losses[0])] + DrainActions(losses[1..])
  }

  /** Any drain over the real inbox and queue is a run of the protocol to its
      end, with the same inbox and queue left, nothing more delivered, and the
      same number of records evicted. */
  lemma {:induction false} DrainRefines(c: Config, s: State, bodies: seq<bytes>, losses: seq<nat>)
    requires s.place.Draining? && ShortTopics(s.inbox) && Represents(bodies, s.queue)
    requires Spillable(bodies, PopAll(s.inbox), losses)
    ensures |losses| == |PopAll(s.inbox)| && Runs(c, s, DrainActions(losses))
    ensures var s' := Follow(c, s, DrainActions(losses));
      s'.place.Stopped? && s'.sink == s.sink && s'.evicted == s.evicted + Sum(losses) &&
      !Inbox.CanPop(s'.inbox) && Represents(Spilling(bodies, PopAll(s.inbox), losses), s'.queue)
    decreases |losses|
  {
    if Inbox.CanPop(s.inbox) {
      PopEffect(s.inbox);
      PoppedShort(s.inbox);
      var m, rest := Inbox.Pop(s.inbox).1, PopAll(Inbox.Pop(s.inbox).0);
      assert PopAll(s.inbox) == [m] + rest && ([m] + rest)[1..] == rest;
      var s1 := Next(c, s, DrainPop);
      RepresentsPush(bodies, s.queue, m, losses[0]);
      var s2 := Next(c, s1, Action.Spill(losses[0]));
      TwoActions(c, s, DrainPop, Action.Spill(losses[0]));
      DrainRefines(c, s2, (bodies + [Body(m)])[losses[0]..], losses[1..]);
      RunsConcat(c, s, [DrainPop, Action.Spill(losses[0])], DrainActions(losses[1..]));
    } else {
      OneAction(c, s, DrainPop);
    }
  }
}
