/** The inbox object: the fields the broker callback and the forwarder share
    under one lock, and the operations that update them in place. Each is proved
    to have the effect InboxModel gives it. */
module Inboxes {
  import opened Bytes
  import opened Messages
  import opened InboxModel
  import opened InboxTheorems

  class Inbox {
    var topics: map<Topic, seq<Message>>
    /** Topics with pending messages, in round-robin order. */
    var ring: seq<Topic>
    var rr: nat
    var total: int
    const perTopic: nat
    const maxTotal: nat
    var dropped: nat
    /** The one-slot channel that wakes the forwarder. */
    var notify: bool

    /** Everything but the channel. */
    ghost function Now(): InboxModel.State
      reads this
    {
      InboxModel.State(topics, ring, rr, total, dropped, perTopic, maxTotal)
    }

    constructor (perTopic: nat, maxTotal: nat)
      requires perTopic >= 1 && maxTotal >= 1
      ensures Now() == Empty(perTopic, maxTotal) && Valid(Now()) && !notify
    {
      topics, ring, rr, total := map[], [], 0, 0;
      this.perTopic, this.maxTotal := perTopic, maxTotal;
      dropped, notify := 0, false;
    }

    /** push, up to the release of the lock. */
    method PushLocked(m: Message) returns (lost: nat)
      requires perTopic >= 1
      modifies this
      ensures Now() == InboxModel.Push(old(Now()), m)
      ensures lost == dropped - old(dropped) && notify == old(notify)
    {
      hide Leader, EvictAt;
      lost := 0;
      var q := Fifo(topics, m.topic);
      if |q| == 0 {
        ring := ring + [m.topic];
      }
      if |q| >= perTopic {
        q := q[1..];
        total := total - 1;
        lost := lost + 1;
      } else if total >= maxTotal {
        var evicted := EvictLongest();
        if evicted {
          lost := lost + 1;
        }
      }
      topics := topics[m.topic := q + [m]];
      total := total + 1;
      dropped := dropped + lost;
    }

    /** The non-blocking send on the notify channel. */
    method PostToken()
      modifies this`notify
      ensures notify
    {
      notify := true;
    }

    /** push: how many messages made room for m. */
    method Push(m: Message) returns (lost: nat)
      requires Weak(Now())
      modifies this
      ensures Now() == InboxModel.Push(old(Now()), m) && Weak(Now()) && notify
      ensures Valid(old(Now())) ==> (Valid(Now()) <==> !SelfEvicts(old(Now()), m))
      ensures lost == dropped - old(dropped)
      ensures total + dropped == old(total) + old(dropped) + 1
    {
      PushCounts(Now(), m);
      PushWeak(Now(), m);
      if Valid(Now()) {
        PushValid(Now(), m);
      }
      hide Weak, Valid, InboxModel.Push, SelfEvicts;
      lost := PushLocked(m);
      PostToken();
    }

    /** The loop of evictLongest: the first longest FIFO in ring order. */
    method FindLongest() returns (victim: Topic, longest: nat)
      ensures var r := Leader(topics, ring);
        if r.None? then longest == 0
        else victim == ring[r.value] && longest == |Fifo(topics, victim)| > 0
    {
      victim, longest := [], 0;
      assert Leader(topics, []) == None;
      for i := 0 to |ring|
        invariant var r := Leader(topics, ring[..i]);
          if r.None? then longest == 0
          else victim == ring[r.value] && longest == |Fifo(topics, victim)| > 0
      {
        assert ring[..i + 1][..i] == ring[..i];
        var l := |Fifo(topics, ring[i])|;
        if l > longest {
          victim, longest := ring[i], l;
        }
      }
      assert ring[..|ring|] == ring;
    }

    /** evictLongest: drop the oldest message of the longest FIFO. */
    method EvictLongest() returns (evicted: bool)
      modifies this`topics, this`ring, this`rr, this`total
      ensures (Now(), evicted) == InboxModel.EvictLongest(old(Now()))
    {
      hide Leader;
      var victim, longest := FindLongest();
      if longest == 0 {
        return false;
      }
      var q := Fifo(topics, victim)[1..];
      topics := topics[victim := q];
      total := total - 1;
      if |q| == 0 {
        RemoveFromRing(victim);
      }
      return true;
    }

    /** removeFromRing: delete the topic and keep the cursor on what it was
        pointing at. */
    method RemoveFromRing(topic: Topic)
      modifies this`ring, this`rr
      ensures Now() == RingWithout(old(Now()), topic)
    {
      var i := 0;
      while i < |ring| && ring[i] != topic
        invariant i <= |ring| && forall j :: 0 <= j < i ==> ring[j] != topic
      {
        i := i + 1;
      }
      IndexIs(ring, topic, i);
      RingCut(Now(), topic, i);
      hide RingWithout, Wrap;
      if i < |ring| {
        ring := ring[..i] + ring[i + 1..];
        if i < rr && rr > 0 {
          rr := rr - 1;
        }
      }
      if |ring| == 0 {
        rr := 0;
      } else {
        rr := Wrap(rr, |ring|);
      }
    }

    /** pop: the next message round-robin across topics; None when there is
        nothing to take. */
    method Pop() returns (r: Option<Message>)
      requires Weak(Now())
      modifies this
      ensures Weak(Now()) && notify == old(notify)
      ensures !CanPop(old(Now())) ==> r == None && Now() == old(Now())
      ensures CanPop(old(Now())) ==>
        Fifo(old(topics), old(ring)[Wrap(old(rr), |old(ring)|)]) != [] &&
        r.Some? && (Now(), r.value) == InboxModel.Pop(old(Now()))
      ensures Valid(old(Now())) ==> Valid(Now())
      ensures r.Some? ==> total == old(total) - 1 && dropped == old(dropped)
    {
      if total == 0 || |ring| == 0 {
        return None;
      }
      PopEffect(Now());
      if Valid(Now()) {
        PopValid(Now());
      }
      hide Weak, Valid, InboxModel.Pop;
      var m := Take();
      return Some(m);
    }

    /** The part of pop after the check for emptiness. */
    method Take() returns (m: Message)
      requires CanPop(Now()) && Fifo(topics, ring[Wrap(rr, |ring|)]) != []
      modifies this
      ensures (Now(), m) == InboxModel.Pop(old(Now())) && notify == old(notify)
    {
      rr := Wrap(rr, |ring|);
      var topic := ring[rr];
      var q := Fifo(topics, topic);
      m := q[0];
      q := q[1..];
      total := total - 1;
      if |q| == 0 {
        topics := topics - {topic};
        ring := ring[..rr] + ring[rr + 1..];
        if |ring| == 0 {
          rr := 0;
        } else {
          rr := Wrap(rr, |ring|);
        }
      } else {
        topics := topics[topic := q];
        rr := Wrap(rr + 1, |ring|);
      }
    }
  }

  lemma RingCut(s: InboxModel.State, t: Topic, i: nat)
    requires i == IndexOf(s.ring, t)
    ensures var ring := if i < |s.ring| then s.ring[..i] + s.ring[i + 1..] else s.ring;
      var rr := if i < |s.ring| && i < s.rr then s.rr - 1 else s.rr;
      RingWithout(s, t) == s.(ring := ring, rr := if ring == [] then 0 else Wrap(rr, |ring|))
  {
  }

  lemma IndexIs(ring: seq<Topic>, t: Topic, i: nat)
    requires i <= |ring| && (forall j :: 0 <= j < i ==> ring[j] != t) && (i < |ring| ==> ring[i] == t)
    ensures IndexOf(ring, t) == i
  {
  }
}
