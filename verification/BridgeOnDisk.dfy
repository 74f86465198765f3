/** The queue calls of a bridge whose process may stop, on the disk queue: what a
    stop in one of them leaves is what BridgeRestarts takes it to leave. */
module BridgeOnDisk {
  import opened Bytes
  import opened Messages
  import opened Records
  import opened QueueContract
  import opened QueueModel
  import opened QueueRuns
  import opened BridgeRestarts
  import opened BridgeRefinement
  import Protocol = BridgeProtocol

  lemma QueueAfterSpill(c: Protocol.Config, w: World, lost: nat)
    requires Protocol.Enabled(c, w.s, Protocol.Spill(lost))
    ensures After(c, w, Act(Protocol.Spill(lost))).s.queue == (w.s.queue + [w.s.place.m])[lost..]
  {
  }

  lemma QueueAfterCrash(c: Protocol.Config, w: World, lost: nat)
    requires lost <= |w.s.queue|
    ensures After(c, w, Crash(lost)).s.queue == w.s.queue[lost..]
  {
  }

  /** What a push leaves unread, stopped anywhere or not. */
  lemma PushLeaves(l: Limits, n: nat, mem: Memory, m: Message, stops: seq<nat>, mem': Memory)
    returns (stored: bool, lost: nat)
    requires Sound(l, n, mem) && l.segmentBytes <= l.maxBytes && Step(l, mem, Push(m, stops), mem')
    ensures lost <= |Unread(mem)|
    ensures Unread(mem') == (if stored then Unread(mem) + [Body(m)] else Unread(mem))[lost..]
    ensures stops == [] ==> stored
    ensures lost > 0 ==>
      if stored then Size(mem) + RecordLen(m) > l.maxBytes else Loses(l, mem, Push(m, stops))
  {
    SoundShape(l, n, mem);
    OutcomeLoosely(l, mem, Push(m, stops), mem');
    PushOutcomes(l, mem, m, stops, mem');
    stored := mem' == Pushing(l, mem, m);
    assert stops == [] ==> stored;
    hide Sound, Step, MayBecome, Pushing, Loses, Unread, Size, RecordLen, Body;
    if stored {
      lost := Evicted(mem, RecordLen(m), Body(m), l.segmentBytes, l.maxBytes);
    } else {
      lost := if Unread(mem') == Unread(mem) then 0 else |Unread(mem)|;
    }
    hide Evicted;
  }

  /** A push of the message in hand, stopped anywhere or not, over a queue that
      holds the messages the protocol has queued: it is a spill, and a crash after
      it, or a crash before it. The crash loses records only when the push found
      the queue above its budget. */
  lemma SpillOnDisk(
      c: Protocol.Config, w: World, m: Message, l: Limits, n: nat, mem: Memory, stops: seq<nat>, mem': Memory)
    returns (stored: bool, lost: nat)
    requires Protocol.Enabled(c, w.s, Protocol.Spill(0)) && w.s.place.m == m && |m.topic| <= 0xFFFF
    requires Represents(Unread(mem), w.s.queue) && Sound(l, n, mem) && l.segmentBytes <= l.maxBytes
    requires Step(l, mem, Push(m, stops), mem')
    ensures lost <= |w.s.queue|
    ensures var w' := After(c, w, if stored then Act(Protocol.Spill(lost)) else Crash(lost));
      Represents(Unread(mem'), w'.s.queue)
    ensures stops == [] ==> stored
    ensures lost > 0 ==>
      if stored then Size(mem) + RecordLen(m) > l.maxBytes else Loses(l, mem, Push(m, stops))
  {
    hide Sound, Step, Represents, Unread, Size, RecordLen, Body, Loses;
    RepresentsLength(Unread(mem), w.s.queue);
    stored, lost := PushLeaves(l, n, mem, m, stops, mem');
    if stored {
      QueueAfterSpill(c, w, lost);
      RepresentsPush(Unread(mem), w.s.queue, m, lost);
    } else {
      QueueAfterCrash(c, w, lost);
      RepresentsDrop(Unread(mem), w.s.queue, lost);
    }
    hide After, Restarted;
  }

  /** An Ack after a delivery, stopped anywhere or not: the record is taken, or
      the crash leaves everything queued. */
  lemma AckOnDisk(c: Protocol.Config, w: World, l: Limits, n: nat, mem: Memory, stops: seq<nat>, mem': Memory)
    returns (taken: bool)
    requires w.s.place.Acking? && w.s.queue != [] && Shaped(mem) && PeekOutcome(mem.log).Next?
    requires Represents(Unread(mem), w.s.queue) && Sound(l, n, mem)
    requires Step(l, mem, Ack(stops), mem')
    ensures var w' := After(c, w, if taken then Act(Protocol.ReplayAck) else Crash(0));
      Represents(Unread(mem'), w'.s.queue)
    ensures stops == [] ==> taken
  {
    SoundShape(l, n, mem);
    OutcomeLoosely(l, mem, Ack(stops), mem');
    AckTakes(mem, stops, l, mem');
    AckMeaning(mem);
    RepresentsLength(Unread(mem), w.s.queue);
    RepresentsDrop(Unread(mem), w.s.queue, 1);
    taken := Unread(mem') != Unread(mem);
    assert w.s.queue[0..] == w.s.queue;
  }

  /** An Ack on a head that cannot be read, stopped anywhere or not: nothing
      unread goes. */
  lemma SkipOnDisk(l: Limits, n: nat, mem: Memory, stops: seq<nat>, mem': Memory)
    requires Shaped(mem) && PeekOutcome(mem.log).Unreadable? && Sound(l, n, mem)
    requires Step(l, mem, Ack(stops), mem')
    ensures Unread(mem') == Unread(mem)
  {
    SoundShape(l, n, mem);
    OutcomeLoosely(l, mem, Ack(stops), mem');
    AckMeaning(mem);
  }
}
