/** What push and pop do to the inbox, written out: which message goes, where a
    topic stands in the ring and whose turn is next. */
module InboxLaws {
  import opened Bytes
  import opened Messages
  import opened InboxModel
  import opened InboxTheorems

  /** i is the first position in the ring of a topic with the most messages. */
  ghost predicate FirstLongest(s: State, i: nat) {
    i < |s.ring| && forall j :: 0 <= j < |s.ring| ==>
      |Fifo(s.topics, s.ring[j])| <= |Fifo(s.topics, s.ring[i])| &&
      (j < i ==> |Fifo(s.topics, s.ring[j])| < |Fifo(s.topics, s.ring[i])|)
  }

  /** From s to s' a message of the topic at position i made room. A topic left
      without messages leaves the ring, and the cursor stays on the topic it was
      on, or goes to the next one. */
  ghost predicate MadeRoom(s: State, m: Message, i: nat, s': State)
    requires i < |s.ring|
  {
    var q, victim := Fifo(s.topics, m.topic), s.ring[i];
    var left := if Fifo(s.topics, victim) == [] then [] else Fifo(s.topics, victim)[1..];
    var ring := if q == [] then s.ring + [m.topic] else s.ring;
    s'.topics == s.topics[victim := left][m.topic := q + [m]] &&
    s'.total == s.total && s'.dropped == s.dropped + 1 && s'.perTopic == s.perTopic && s'.maxTotal == s.maxTotal &&
    if left != [] then s'.ring == ring && s'.rr == s.rr
    else
      s'.ring == ring[..i] + ring[i + 1..] &&
      s'.rr == if i < s.rr then s.rr - 1 else if s.rr == |ring| - 1 then 0 else s.rr
  }

  /** A push in its three cases: a full FIFO loses its own oldest message; with
      room left nothing is lost; otherwise the longest FIFO loses its oldest. A
      topic that had no messages goes to the end of the ring. */
  ghost predicate PushedAs(s: State, m: Message, s': State) {
    var q := Fifo(s.topics, m.topic);
    if |q| >= s.perTopic && q != [] then
      s' == s.(topics := s.topics[m.topic := q[1..] + [m]], dropped := s.dropped + 1)
    else if s.total < s.maxTotal || s.ring == [] then
      s' == s.(topics := s.topics[m.topic := q + [m]], total := s.total + 1,
               ring := if q == [] then s.ring + [m.topic] else s.ring)
    else exists i :: FirstLongest(s, i) && MadeRoom(s, m, i, s')
  }

  lemma PushExact(s: State, m: Message)
    requires Weak(s)
    ensures s.perTopic > 0 && PushedAs(s, m, Push(s, m))
  {
    var q := Fifo(s.topics, m.topic);
    if |q| < s.perTopic && s.total >= s.maxTotal && s.ring != [] {
      PushEvicts(s, m);
    } else {
      PushKeeps(s, m);
    }
    hide Weak, Push, PushedAs;
  }

  lemma PushKeeps(s: State, m: Message)
    requires Weak(s)
    requires |Fifo(s.topics, m.topic)| >= s.perTopic || s.total < s.maxTotal || s.ring == []
    ensures s.perTopic > 0 && PushedAs(s, m, Push(s, m))
  {
    assert s.perTopic > 0;
    hide Weak;
    if |Fifo(s.topics, m.topic)| >= s.perTopic || s.total < s.maxTotal {
      PushPlainly(s, m);
    } else {
      NoVictim(s, m);
    }
    hide Push, PushedAs;
  }

  lemma PushPlainly(s: State, m: Message)
    requires s.perTopic > 0 && (|Fifo(s.topics, m.topic)| >= s.perTopic || s.total < s.maxTotal)
    ensures PushedAs(s, m, Push(s, m))
  {
    hide EvictLongest;
  }

  lemma NoVictim(s: State, m: Message)
    requires s.perTopic > 0 && |Fifo(s.topics, m.topic)| < s.perTopic && s.total >= s.maxTotal && s.ring == []
    ensures PushedAs(s, m, Push(s, m))
  {
    LoneLeader(s.topics, m.topic);
    NoLeader(s.topics);
    hide Leader;
    assert EvictLongest(Entered(s, m.topic)) == (Entered(s, m.topic), false);
    hide EvictLongest;
  }

  lemma PushEvicts(s: State, m: Message)
    requires Weak(s)
    requires |Fifo(s.topics, m.topic)| < s.perTopic && s.total >= s.maxTotal && s.ring != []
    ensures PushedAs(s, m, Push(s, m))
  {
    EnteredVictim(s, m);
    var i := Victim(s, m).value;
    LongestBefore(s, m, i);
    EvictExact(s, m, i);
    PushIs(s, m, i);
    hide Weak, Push, Leader, EvictAt, Entered, FirstLongest, MadeRoom, Victim, SelfEvicts, VictimTopic;
  }

  lemma PushIs(s: State, m: Message, i: nat)
    requires s.perTopic > 0 && Victim(s, m) == Some(i) && i < |Entered(s, m.topic).ring|
    requires |Fifo(Entered(s, m.topic).topics, Entered(s, m.topic).ring[i])| > 0
    ensures var s2 := EvictAt(Entered(s, m.topic), i);
      Push(s, m) == s2.(topics := s2.topics[m.topic := Fifo(s.topics, m.topic) + [m]], total := s2.total + 1,
                        dropped := s2.dropped + 1)
  {
    hide Leader, EvictAt;
  }

  lemma LoneLeader(topics: map<Topic, seq<Message>>, t: Topic)
    ensures Fifo(topics, t) == [] ==> Leader(topics, [] + [t]) == None
  {
    if Fifo(topics, t) == [] {
      LeaderSnoc(topics, [], t);
    }
  }

  lemma NoLeader(topics: map<Topic, seq<Message>>)
    ensures Leader(topics, []) == None
  {
  }

  lemma LongestBefore(s: State, m: Message, i: nat)
    requires s.perTopic > 0 && Victim(s, m) == Some(i) && i < |s.ring|
    ensures FirstLongest(s, i) && |Fifo(s.topics, s.ring[i])| > 0 && Entered(s, m.topic).ring[i] == s.ring[i]
  {
    var ring := Entered(s, m.topic).ring;
    forall j | 0 <= j < |s.ring|
      ensures |Fifo(s.topics, s.ring[j])| <= |Fifo(s.topics, s.ring[i])|
      ensures j < i ==> |Fifo(s.topics, s.ring[j])| < |Fifo(s.topics, s.ring[i])|
    {
      assert ring[j] == s.ring[j] && ring[i] == s.ring[i];
    }
  }

  lemma EvictExact(s: State, m: Message, i: nat)
    requires Weak(s) && i < |s.ring| && |Fifo(s.topics, s.ring[i])| > 0
    requires s.rr < |s.ring|
    ensures |Fifo(Entered(s, m.topic).topics, Entered(s, m.topic).ring[i])| > 0
    ensures var s2 := EvictAt(Entered(s, m.topic), i);
      MadeRoom(s, m, i, s2.(topics := s2.topics[m.topic := Fifo(s.topics, m.topic) + [m]], total := s2.total + 1,
                            dropped := s2.dropped + 1))
  {
    EnteredDistinct(s, m.topic);
    var s1 := Entered(s, m.topic);
    IndexUnique(s1.ring, i);
    hide Weak, Distinct, IndexOf;
  }

  // ----- Turns ---------------------------------------------------------------------

  /** The topics in the order in which pop will come to them. */
  function Turns(s: State): seq<Topic> {
    if s.rr <= |s.ring| then s.ring[s.rr..] + s.ring[..s.rr] else []
  }

  /** Pop takes the oldest message of the topic whose turn it is; that topic goes to
      the end of the line if it has more, and leaves it otherwise. */
  lemma PopTurns(s: State)
    requires Weak(s) && CanPop(s)
    ensures Fifo(s.topics, s.ring[Wrap(s.rr, |s.ring|)]) != [] && Turns(s) != []
    ensures var (s', m) := Pop(s);
      var t := Turns(s)[0];
      m == Fifo(s.topics, t)[0] && Turns(s') == Turns(s)[1..] + if |Fifo(s.topics, t)| > 1 then [t] else []
  {
    PopEffect(s);
    hide Distinct, RingPending, FifosBounded;
    var s' := Pop(s).0;
    if |Fifo(s.topics, s.ring[s.rr])| > 1 {
      TurnsOn(s.ring, s.rr);
    } else {
      TurnsWithout(s.ring, s.rr);
    }
  }

  lemma TurnsOn(ring: seq<Topic>, rr: nat)
    requires rr < |ring|
    ensures var r := if rr + 1 == |ring| then 0 else rr + 1;
      ring[r..] + ring[..r] == (ring[rr..] + ring[..rr])[1..] + [ring[rr]]
  {
  }

  lemma TurnsWithout(ring: seq<Topic>, rr: nat)
    requires rr < |ring|
    ensures var left := WithoutAt(ring, rr);
      var r := if rr == |left| then 0 else rr;
      left[r..] + left[..r] == (ring[rr..] + ring[..rr])[1..] + []
  {
  }
}
