/** The loops of the bridge over the real inbox and the real durable queue:
    replay forwards the head of the queue while the sink accepts, drain moves
    everything still in memory to the queue. */
module Bridges {
  import opened Bytes
  import opened Messages
  import opened Sequences
  import opened Records
  import opened QueueContract
  import opened DiskQueues
  import opened QueueModel
  import QueueRuns
  import opened Inboxes
  import Inbox_ = InboxModel
  import opened InboxTheorems

  function Decoded(bodies: seq<bytes>): (r: seq<Result<Message, ReadError>>)
    ensures |r| == |bodies|
  {
    seq(|bodies|, i requires 0 <= i < |bodies| => Decode(bodies[i]))
  }

  function AsRead(ms: seq<Message>): (r: seq<Result<Message, ReadError>>)
    ensures |r| == |ms|
  {
    seq(|ms|, i requires 0 <= i < |ms| => Ok(ms[i]))
  }

  function BodiesOf(ms: seq<Message>): (r: seq<bytes>)
    ensures |r| == |ms|
  {
    seq(|ms|, i requires 0 <= i < |ms| => Body(ms[i]))
  }

  /** Every buffered message fits the 32-bit length of a record. */
  ghost predicate Storable(s: Inbox_.State) {
    forall t <- s.topics :: forall m <- s.topics[t] :: |Body(m)| < 0x1_0000_0000
  }

  /** The messages pop returns until it finds none. */
  ghost function PopAll(s: Inbox_.State): (ms: seq<Message>)
    requires Inbox_.Weak(s)
    decreases s.total
  {
    if !Inbox_.CanPop(s) then [] else
    PopEffect(s);
    [Inbox_.Pop(s).1] + PopAll(Inbox_.Pop(s).0)
  }

  /** From a valid inbox, popping until empty takes every topic's FIFO, whole and
      in order. */
  lemma {:induction false} PopAllTakesAll(s: Inbox_.State, t: Inbox_.Topic)
    requires Inbox_.Valid(s)
    ensures Inbox_.OfTopic(PopAll(s), t) == Inbox_.Fifo(s.topics, t)
    decreases s.total
  {
    if !Inbox_.CanPop(s) {
      ValidCanPop(s);
    } else {
      PopEffect(s);
      PopValid(s);
      var (s', m) := Inbox_.Pop(s);
      PopAllTakesAll(s', t);
      hide Inbox_.Valid, Inbox_.Weak, Inbox_.Pop;
      Inbox_.OfTopicConcat([m], PopAll(s'), t);
      Inbox_.OfTopicOne(m, t);
      var q := Inbox_.Fifo(s.topics, t);
      assert m.topic == t ==> q == [m] + q[1..];
    }
  }

  /** What Peek's answer says about the unread bodies. */
  lemma OutcomeContents(log: seq<seq<bytes>>)
    requires log != []
    ensures match PeekOutcome(log)
      case Nothing => Flatten(log) == []
      case Unreadable(_) => Flatten(log) != []
      case Next(m) => Flatten(log) != [] && Decode(Flatten(log)[0]) == Ok(m)
  {
    hide Decode;
  }

  /** How far a replay has come: `taken` records are gone from the front of
      `before`; the delivered messages are among them, in order, and are all of
      them when none was given up. */
  ghost predicate Replayed(before: seq<bytes>, now: seq<bytes>, delivered: seq<Message>, lost: nat) {
    var taken := |delivered| + lost;
    taken <= |before| && now == before[taken..] &&
    Subsequence(AsRead(delivered), Decoded(before[..taken])) &&
    (lost == 0 ==> AsRead(delivered) == Decoded(before[..taken]))
  }

  lemma ReplayedNone(before: seq<bytes>)
    ensures Replayed(before, before, [], 0)
  {
    assert before[0..] == before && before[..0] == [];
    EmptySubsequence(Decoded(before[..0]));
  }

  /** One more message delivered from the front. */
  lemma DeliverNext(before: seq<bytes>, now: seq<bytes>, now': seq<bytes>, delivered: seq<Message>, lost: nat,
      m: Message)
    requires Replayed(before, now, delivered, lost) && Acked(now, now') && Decode(now[0]) == Ok(m)
    ensures Replayed(before, now', delivered + [m], lost)
  {
    hide Decode, Subsequence;
    var k := |delivered| + lost;
    var one: seq<Result<Message, ReadError>> := [Ok(m)];
    assert AsRead(delivered + [m]) == AsRead(delivered) + one;
    assert Decoded(before[..k + 1]) == Decoded(before[..k]) + one;
    SubsequenceReflexive(one);
    SubsequenceConcat(AsRead(delivered), Decoded(before[..k]), one, one);
  }

  /** Records given up without being delivered. */
  lemma SkipSome(before: seq<bytes>, now: seq<bytes>, now': seq<bytes>, delivered: seq<Message>, lost: nat, more: nat)
    requires Replayed(before, now, delivered, lost) && Discarded(now, now', more)
    ensures Replayed(before, now', delivered, lost + more)
  {
    hide Decode, Subsequence;
    var k := |delivered| + lost;
    var rest := Decoded(before[k..k + more]);
    assert Decoded(before[..k + more]) == Decoded(before[..k]) + rest;
    assert AsRead(delivered) + [] == AsRead(delivered);
    EmptySubsequence(rest);
    SubsequenceConcat(AsRead(delivered), Decoded(before[..k]), [], rest);
    assert before[k..][more..] == before[k + more..];
    if more == 0 {
      assert before[..k + 0] == before[..k];
    }
  }

  lemma EmptySubsequence<T(!new)>(s: seq<T>)
    ensures Subsequence([], s)
  {
  }

  /** How one iteration of replay ends. */
  datatype Attempt = Empty | Skipped(lost: nat) | Delivered(m: Message) | Refused

  predicate GoesOn(a: Attempt) {
    a.Skipped? || a.Delivered?
  }

  /** What an iteration leaves of the unread bodies. */
  function LeftBy(bodies: seq<bytes>, a: Attempt): seq<bytes> {
    match a
    case Delivered(_) => if bodies == [] then [] else bodies[1..]
    case Skipped(lost) => if lost <= |bodies| then bodies[lost..] else []
    case _ => bodies
  }

  /** An iteration may end like this, with these bodies and this answer. */
  ghost predicate Attempted(bodies: seq<bytes>, a: Attempt, accepts: bool) {
    match a
    case Empty => bodies == []
    case Skipped(lost) => bodies != [] && lost <= |bodies|
    case Delivered(m) => accepts && bodies != [] && Decode(bodies[0]) == Ok(m)
    case Refused => !accepts && bodies != []
  }

  function Left(before: seq<bytes>, tried: seq<Attempt>): seq<bytes> {
    if tried == [] then before else LeftBy(Left(before, tried[..|tried| - 1]), tried[|tried| - 1])
  }

  /** The iterations of one replay: each ends as the bodies left by the earlier
      ones and the sink's answer allow, and all but the last go on. */
  ghost predicate Tried(before: seq<bytes>, tried: seq<Attempt>, accepts: seq<bool>) {
    if tried == [] then true else
    var n := |tried| - 1;
    n < |accepts| && Tried(before, tried[..n], accepts) && (forall a <- tried[..n] :: GoesOn(a)) &&
    Attempted(Left(before, tried[..n]), tried[n], accepts[n])
  }

  /** One iteration over a queue: at most the record Peek shows is sent, and what
      Ack takes is gone if it was accepted; a head Peek cannot read is given up. */
  ghost predicate Iterates(m: Memory, accepts: bool, a: Attempt, m': Memory) {
    Shaped(m) &&
    match PeekOutcome(m.log)
    case Nothing => a == Empty && m' == m
    case Next(msg) => if accepts then a == Delivered(msg) && m' == AfterAck(m) else a == Refused && m' == m
    case Unreadable(_) => a == Skipped(|m.log[0]|) && m' == AfterAck(m)
  }

  /** The queues between the iterations of a replay. */
  ghost predicate Path(mems: seq<Memory>, tried: seq<Attempt>, accepts: seq<bool>) {
    |mems| == |tried| + 1 && |tried| <= |accepts| &&
    forall i :: 0 <= i < |tried| ==> IteratesAt(mems, tried, accepts, i)
  }

  ghost predicate IteratesAt(mems: seq<Memory>, tried: seq<Attempt>, accepts: seq<bool>, i: nat) {
    i < |tried| && i < |accepts| && i + 1 < |mems| && Iterates(mems[i], accepts[i], tried[i], mems[i + 1])
  }

  ghost predicate Iterated(m: Memory, tried: seq<Attempt>, accepts: seq<bool>, m': Memory) {
    exists mems: seq<Memory> :: Path(mems, tried, accepts) && mems[0] == m && mems[|tried|] == m'
  }

  lemma IteratedNone(m: Memory, accepts: seq<bool>)
    ensures Iterated(m, [], accepts, m)
  {
    assert Path([m], [], accepts);
  }

  lemma IteratedSnoc(m: Memory, tried: seq<Attempt>, accepts: seq<bool>, now: Memory, a: Attempt, m': Memory)
    requires Iterated(m, tried, accepts, now) && |tried| < |accepts| && Iterates(now, accepts[|tried|], a, m')
    ensures Iterated(m, tried + [a], accepts, m')
  {
    hide Iterates;
    var mems: seq<Memory> :| Path(mems, tried, accepts) && mems[0] == m && mems[|tried|] == now;
    var more, all := mems + [m'], tried + [a];
    forall i | 0 <= i < |all| ensures IteratesAt(more, all, accepts, i) {
      if i < |tried| {
        assert IteratesAt(mems, tried, accepts, i);
      }
    }
    assert Path(more, all, accepts) && more[0] == m && more[|all|] == m';
  }

  /** A replay over records the queue wrote itself gives nothing up: what is not
      delivered stays. */
  lemma {:induction false} SoundReplay(mems: seq<Memory>, tried: seq<Attempt>, accepts: seq<bool>)
    requires Path(mems, tried, accepts) && forall b <- Unread(mems[0]) :: Readable(b) && Decode(b).Ok?
    ensures LostBy(tried) == 0
    ensures var k := |DeliveredBy(tried)|;
      k <= |Unread(mems[0])| && Unread(mems[|tried|]) == Unread(mems[0])[k..] &&
      AsRead(DeliveredBy(tried)) == Decoded(Unread(mems[0])[..k])
  {
    hide Readable, Decode, Iterates, Unread;
    var before := Unread(mems[0]);
    if tried == [] {
      assert before[0..] == before && before[..0] == [];
    } else {
      var n := |tried| - 1;
      var init, a, part := tried[..n], tried[n], mems[..n + 1];
      assert IteratesAt(mems, tried, accepts, n);
      forall i | 0 <= i < n ensures IteratesAt(part, init, accepts, i) {
        assert IteratesAt(mems, tried, accepts, i);
      }
      SoundReplay(part, init, accepts);
      var k := |DeliveredBy(init)|;
      assert forall b <- before[k..] :: b in before;
      SoundIteration(mems[n], accepts[n], a, mems[n + 1]);
      if a.Delivered? {
        OneMoreRead(before, DeliveredBy(init), a.m);
        assert before[k..][1..] == before[k + 1..];
      }
    }
  }

  lemma SoundIteration(m: Memory, accepts: bool, a: Attempt, m': Memory)
    requires Iterates(m, accepts, a, m') && forall b <- Unread(m) :: Readable(b) && Decode(b).Ok?
    ensures a.Skipped? ==> a.lost == 0
    ensures if a.Delivered? then Unread(m) != [] && Decode(Unread(m)[0]) == Ok(a.m) && Unread(m') == Unread(m)[1..]
            else Unread(m') == Unread(m)
  {
    QueueRuns.AckMeaning(m);
    hide Readable, Decode, AfterAck;
  }

  lemma OneMoreRead(before: seq<bytes>, delivered: seq<Message>, m: Message)
    requires |delivered| < |before| && AsRead(delivered) == Decoded(before[..|delivered|])
    requires Decode(before[|delivered|]) == Ok(m)
    ensures AsRead(delivered + [m]) == Decoded(before[..|delivered| + 1])
  {
    hide Decode;
    var one: seq<Result<Message, ReadError>> := [Ok(m)];
    assert AsRead(delivered + [m]) == AsRead(delivered) + one;
    assert Decoded(before[..|delivered| + 1]) == Decoded(before[..|delivered|]) + one;
  }

  function DeliveredBy(tried: seq<Attempt>): seq<Message> {
    if tried == [] then [] else
    var a := tried[|tried| - 1];
    DeliveredBy(tried[..|tried| - 1]) + if a.Delivered? then [a.m] else []
  }

  function LostBy(tried: seq<Attempt>): nat {
    if tried == [] then 0 else
    var a := tried[|tried| - 1];
    LostBy(tried[..|tried| - 1]) + if a.Skipped? then a.lost else 0
  }

  lemma TriedNone(before: seq<bytes>, accepts: seq<bool>)
    ensures Tried(before, [], accepts) && Left(before, []) == before && DeliveredBy([]) == [] && LostBy([]) == 0
  {
  }

  lemma TriedSnoc(before: seq<bytes>, tried: seq<Attempt>, accepts: seq<bool>, a: Attempt, now: seq<bytes>)
    requires Tried(before, tried, accepts) && |tried| < |accepts| && (forall x <- tried :: GoesOn(x))
    requires Attempted(Left(before, tried), a, accepts[|tried|]) && now == LeftBy(Left(before, tried), a)
    ensures Tried(before, tried + [a], accepts) && Left(before, tried + [a]) == now
    ensures GoesOn(a) ==> forall x <- tried + [a] :: GoesOn(x)
    ensures DeliveredBy(tried + [a]) == if a.Delivered? then DeliveredBy(tried) + [a.m] else DeliveredBy(tried)
    ensures LostBy(tried + [a]) == LostBy(tried) + if a.Skipped? then a.lost else 0
  {
    hide Attempted, LeftBy;
    assert (tried + [a])[..|tried|] == tried;
    assert DeliveredBy(tried) + [] == DeliveredBy(tried);
  }

  /** Spilling the messages ms one after another is possible with these numbers
      of records evicted. */
  ghost predicate Spillable(before: seq<bytes>, ms: seq<Message>, losses: seq<nat>)
    decreases |ms|
  {
    |losses| == |ms| &&
    (ms != [] ==> losses[0] <= |before| && Spillable((before + [Body(ms[0])])[losses[0]..], ms[1..], losses[1..]))
  }

  /** ... and leaves these bodies. */
  ghost function Spilling(before: seq<bytes>, ms: seq<Message>, losses: seq<nat>): seq<bytes>
    requires Spillable(before, ms, losses)
    decreases |ms|
  {
    if ms == [] then before else Spilling((before + [Body(ms[0])])[losses[0]..], ms[1..], losses[1..])
  }

  function Sum(losses: seq<nat>): nat {
    if losses == [] then 0 else losses[0] + Sum(losses[1..])
  }

  lemma {:induction false} SumSnoc(losses: seq<nat>, x: nat)
    ensures Sum(losses + [x]) == Sum(losses) + x
  {
    if losses == [] {
      assert [] + [x] == [x] && [x][1..] == [];
    } else {
      SumSnoc(losses[1..], x);
      assert (losses + [x])[1..] == losses[1..] + [x];
    }
  }

  lemma NoBodies()
    ensures BodiesOf([]) == []
  {
  }

  lemma SpillNone(before: seq<bytes>)
    ensures Sum([]) == 0
    ensures Spillable(before, [], []) && Spilling(before, [], []) == before
  {
  }

  lemma {:induction false} SpillSnoc(before: seq<bytes>, ms: seq<Message>, losses: seq<nat>, m: Message, lost: nat,
      now: seq<bytes>)
    requires Spillable(before, ms, losses) && Pushed(Spilling(before, ms, losses), Body(m), now, lost)
    ensures Spillable(before, ms + [m], losses + [lost]) && Spilling(before, ms + [m], losses + [lost]) == now
    decreases |ms|
  {
    hide Body;
    if ms == [] {
      assert [] + [m] == [m] && [] + [lost] == [lost] && [m][1..] == [] && [lost][1..] == [];
      assert ms + [m] == [m] && losses + [lost] == [lost];
    } else {
      SpillSnoc((before + [Body(ms[0])])[losses[0]..], ms[1..], losses[1..], m, lost, now);
      assert (ms + [m])[1..] == ms[1..] + [m] && (losses + [lost])[1..] == losses[1..] + [lost];
    }
  }

  class Bridge {
    const replayBatch: nat
    const inbox: Inbox
    const queue: Queue
    var sinkUp: bool
    var forwarded: nat
    var spilled: nat
    /** What the sink accepted, in order. */
    var sink: seq<Message>

    constructor (replayBatch: nat, inbox: Inbox, queue: Queue)
      requires replayBatch > 0
      ensures this.replayBatch == replayBatch && this.inbox == inbox && this.queue == queue
      ensures sinkUp && forwarded == spilled == 0 && sink == []
    {
      this.replayBatch, this.inbox, this.queue := replayBatch, inbox, queue;
      sinkUp, forwarded, spilled, sink := true, 0, 0, [];
    }

    /** send: the sink's answer is an input. */
    method Send(m: Message, accepts: bool) returns (ok: bool)
      modifies this`sink, this`forwarded
      ensures ok == accepts
      ensures sink == if ok then old(sink) + [m] else old(sink)
      ensures forwarded == old(forwarded) + if ok then 1 else 0
    {
      if !accepts {
        return false;
      }
      sink := sink + [m];
      forwarded := forwarded + 1;
      return true;
    }

    /** spill: append to the queue; a refused push loses the message. */
    method Spill(m: Message)
      requires queue.Valid() && |Body(m)| < 0x1_0000_0000
      modifies this`spilled, queue, queue.dir
      ensures queue.Valid() && queue.closed == old(queue.closed)
      ensures !queue.closed ==>
        spilled == old(spilled) + 1 && old(queue.dropped) <= queue.dropped &&
        Pushed(old(queue.Contents()), Body(m), queue.Contents(), queue.dropped - old(queue.dropped))
      ensures queue.closed ==>
        spilled == old(spilled) && queue.Contents() == old(queue.Contents()) && queue.dropped == old(queue.dropped)
    {
      hide Queue.Valid, Queue.Durable, Body;
      var ok := queue.Push(m);
      if ok {
        spilled := spilled + 1;
      }
    }

    /** One iteration of replay's loop: peek, send, and acknowledge what the sink
        accepted; an unreadable head is acknowledged away. */
    method ReplayOne(accepts: bool) returns (r: Attempt, ghost lost: nat)
      requires queue.Valid()
      modifies this`sink, this`forwarded, queue, queue.dir
      ensures queue.Valid() && (old(queue.Durable()) ==> queue.Durable())
      ensures queue.dropped == old(queue.dropped) + lost
      ensures Iterates(old(queue.Now()), accepts, r, queue.Now())
      ensures r.Empty? ==> queue.Contents() == old(queue.Contents()) == [] && lost == 0
      ensures r.Skipped? ==>
        lost == r.lost && Discarded(old(queue.Contents()), queue.Contents(), lost) && old(queue.Contents()) != []
      ensures r.Delivered? ==>
        accepts && lost == 0 && Acked(old(queue.Contents()), queue.Contents()) &&
          Decode(old(queue.Contents())[0]) == Ok(r.m)
      ensures r.Refused? ==> !accepts && lost == 0 && queue.Contents() == old(queue.Contents()) != []
      ensures sink == (if r.Delivered? then old(sink) + [r.m] else old(sink))
      ensures forwarded == old(forwarded) + if r.Delivered? then 1 else 0
    {
      hide Queue.Rep, Queue.Durable, Decode, Flatten, AfterAck;
      lost := 0;
      queue.RepTotals();
      var p := queue.Peek();
      OutcomeContents(queue.log);
      if p.Unreadable? {
        lost := |queue.log[0]|;
        var dropped := queue.dropped;
        queue.Ack();
        return Skipped(queue.dropped - dropped), lost;
      }
      if p.Nothing? {
        return Empty, lost;
      }
      var ok := Send(p.m, accepts);
      if !ok {
        return Refused, lost;
      }
      queue.Ack();
      return Delivered(p.m), lost;
    }

    /** replay: up to replayBatch messages, in order, each removed from the queue
        only after the sink accepted it. accepts[i] is the sink's answer in
        iteration i; the context is cancelled from iteration cancelAt on. */
    method Replay(accepts: seq<bool>, cancelAt: nat)
      returns (ok: bool, ghost delivered: seq<Message>, ghost lost: nat, ghost rounds: nat, ghost tried: seq<Attempt>)
      requires queue.Valid() && |accepts| == replayBatch
      modifies this, queue, queue.dir
      ensures queue.Valid() && spilled == old(spilled) && (old(queue.Durable()) ==> queue.Durable())
      ensures Replayed(old(queue.Contents()), queue.Contents(), delivered, lost)
      ensures sink == old(sink) + delivered && forwarded == old(forwarded) + |delivered|
      ensures queue.dropped == old(queue.dropped) + lost
      ensures |delivered| <= rounds <= replayBatch
      ensures !ok ==> sinkUp == old(sinkUp) && rounds < replayBatch && !accepts[rounds] && queue.Contents() != []
      ensures ok ==> sinkUp == (if rounds == cancelAt < replayBatch then old(sinkUp) else true)
      ensures ok && rounds < replayBatch && rounds != cancelAt ==> queue.Contents() == []
      ensures Tried(old(queue.Contents()), tried, accepts) && queue.Contents() == Left(old(queue.Contents()), tried)
      ensures delivered == DeliveredBy(tried) && lost == LostBy(tried)
      ensures Iterated(old(queue.Now()), tried, accepts, queue.Now())
      ensures !ok ==> tried != [] && tried[|tried| - 1] == Refused
      ensures rounds <= |tried| <= rounds + 1 <= cancelAt + 1 && (|tried| == rounds ==> forall a <- tried :: GoesOn(a))
      ensures ok && |tried| == rounds + 1 ==> tried[rounds] == Empty
      ensures ok && |tried| == rounds ==> rounds == cancelAt || rounds == replayBatch
    {
      hide Queue.Valid, Queue.Durable, Queue.Contents, Queue.Now, Replayed, Tried, Left, Decode, DeliveredBy, LostBy,
        Iterated, Iterates;
      ghost var before, sink0 := queue.Contents(), sink;
      delivered, lost, rounds, tried := [], 0, 0, [];
      ReplayedNone(before);
      TriedNone(before, accepts);
      ghost var m0 := queue.Now();
      IteratedNone(m0, accepts);
      assert sink0 + [] == sink0;
      for i := 0 to replayBatch
        invariant queue.Valid() && (old(queue.Durable()) ==> queue.Durable())
        invariant spilled == old(spilled) && sinkUp == old(sinkUp)
        invariant Replayed(before, queue.Contents(), delivered, lost)
        invariant sink == sink0 + delivered && forwarded == old(forwarded) + |delivered|
        invariant queue.dropped == old(queue.dropped) + lost
        invariant delivered == DeliveredBy(tried) && lost == LostBy(tried)
        invariant Iterated(m0, tried, accepts, queue.Now())
        invariant rounds == i == |tried| && |delivered| <= rounds <= cancelAt
        invariant Tried(before, tried, accepts) && queue.Contents() == Left(before, tried) &&
          forall a <- tried :: GoesOn(a)
      {
        if i >= cancelAt {
          return true, delivered, lost, rounds, tried;
        }
        ghost var now, m := queue.Contents(), queue.Now();
        var r;
        ghost var k;
        r, k := ReplayOne(accepts[i]);
        TriedSnoc(before, tried, accepts, r, queue.Contents());
        IteratedSnoc(m0, tried, accepts, m, r, queue.Now());
        tried := tried + [r];
        match r {
          case Empty =>
            break;
          case Refused =>
            return false, delivered, lost, rounds, tried;
          case Skipped(_) =>
            SkipSome(before, now, queue.Contents(), delivered, lost, k);
            lost := lost + k;
          case Delivered(m) =>
            DeliverNext(before, now, queue.Contents(), delivered, lost, m);
            Associate(sink0, delivered, [m]);
            delivered := delivered + [m];
        }
        rounds := rounds + 1;
      }
      sinkUp := true;
      return true, delivered, lost, rounds, tried;
    }

    /** drain: pop until the inbox is empty and append everything to the queue. */
    method Drain() returns (ghost lost: nat, ghost losses: seq<nat>)
      requires queue.Valid() && !queue.closed && Inbox_.Weak(inbox.Now()) && Storable(inbox.Now())
      modifies this`spilled, inbox, queue, queue.dir
      ensures queue.Valid() && Inbox_.Weak(inbox.Now()) && !Inbox_.CanPop(inbox.Now())
      ensures var popped := PopAll(old(inbox.Now()));
        spilled == old(spilled) + |popped| && lost <= |old(queue.Contents())| + |popped| &&
        queue.dropped == old(queue.dropped) + lost && lost == Sum(losses) &&
        queue.Contents() == (old(queue.Contents()) + BodiesOf(popped))[lost..] &&
        |losses| == |popped| && Spillable(old(queue.Contents()), popped, losses) &&
          queue.Contents() == Spilling(old(queue.Contents()), popped, losses)
    {
      hide Queue.Valid, Queue.Contents, Queue.Durable, Inbox_.Weak, Inbox_.Valid, Storable, Inbox_.Pop, PopAll, Body,
        Spillable, Spilling, Sum, BodiesOf, Pushed, Inbox_.CanPop;
      ghost var before, target, dropped0 := queue.Contents(), PopAll(inbox.Now()), queue.dropped;
      ghost var popped: seq<Message> := [];
      lost, losses := 0, [];
      SpillNone(before);
      assert BodiesOf([]) == [] by { NoBodies(); }
      NonNegative(inbox.Now());
      assert [] + target == target && before + BodiesOf([]) == before && before[0..] == before;
      while true
        invariant queue.Valid() && !queue.closed && Inbox_.Weak(inbox.Now()) && Storable(inbox.Now())
        invariant target == popped + PopAll(inbox.Now()) && inbox.total >= 0
        invariant spilled == old(spilled) + |popped| && lost <= |before| + |popped|
        invariant queue.dropped == dropped0 + lost && lost == Sum(losses)
        invariant queue.Contents() == (before + BodiesOf(popped))[lost..]
        invariant |losses| == |popped| && Spillable(before, popped, losses) &&
          queue.Contents() == Spilling(before, popped, losses)
        decreases inbox.total
      {
        ghost var s, q := inbox.Now(), queue.Contents();
        var r := inbox.Pop();
        if r.None? {
          NoneLeft(s);
          assert popped + [] == popped;
          break;
        }
        PopStorable(s);
        Spill(r.value);
        ghost var k := queue.dropped - dropped0 - lost;
        SpillNext(before, popped, r.value, lost, k, queue.Contents());
        SpillSnoc(before, popped, losses, r.value, k, queue.Contents());
        SumSnoc(losses, k);
        assert popped + [r.value] + PopAll(inbox.Now()) == popped + PopAll(s);
        popped := popped + [r.value];
        lost, losses := lost + k, losses + [k];
      }
    }
  }

  lemma NonNegative(s: Inbox_.State)
    requires Inbox_.Weak(s)
    ensures s.total >= 0
  {
  }

  lemma NoneLeft(s: Inbox_.State)
    requires Inbox_.Weak(s) && !Inbox_.CanPop(s)
    ensures PopAll(s) == []
  {
  }

  /** Popping keeps the rest storable, and what is popped is storable. */
  lemma PopStorable(s: Inbox_.State)
    requires Inbox_.Weak(s) && Inbox_.CanPop(s) && Storable(s)
    ensures Inbox_.Fifo(s.topics, s.ring[Inbox_.Wrap(s.rr, |s.ring|)]) != []
    ensures Storable(Inbox_.Pop(s).0) && |Body(Inbox_.Pop(s).1)| < 0x1_0000_0000
    ensures PopAll(s) == [Inbox_.Pop(s).1] + PopAll(Inbox_.Pop(s).0) && 0 <= Inbox_.Pop(s).0.total < s.total
  {
    hide Body;
    PopEffect(s);
    var t := s.ring[s.rr];
    assert t in s.topics;
    assert forall m <- s.topics[t][1..] :: m in s.topics[t];
  }

  lemma SpillNext(before: seq<bytes>, popped: seq<Message>, m: Message, lost: nat, k: nat, now: seq<bytes>)
    requires lost <= |before| + |popped| && Pushed((before + BodiesOf(popped))[lost..], Body(m), now, k)
    ensures lost + k <= |before| + |popped| + 1 && now == (before + BodiesOf(popped + [m]))[lost + k..]
  {
    hide Body;
    assert BodiesOf(popped + [m]) == BodiesOf(popped) + [Body(m)];
    assert before + (BodiesOf(popped) + [Body(m)]) == before + BodiesOf(popped) + [Body(m)];
  }
}
