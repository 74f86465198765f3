/** The bridge's inbox as a value: per-topic FIFOs, the ring of topics with
    pending messages and the round-robin cursor, with the effect of each
    operation as a function. */
module InboxModel {
  import opened Bytes
  import opened Messages
  import opened Sequences

  type Topic = bytes

  datatype State = State(
    topics: map<Topic, seq<Message>>,
    ring: seq<Topic>,
    rr: nat,
    total: int,
    dropped: nat,
    perTopic: nat,
    maxTotal: nat)

  function Fifo(topics: map<Topic, seq<Message>>, t: Topic): seq<Message> {
    if t in topics then topics[t] else []
  }

  function WithoutAt<T>(s: seq<T>, i: nat): (r: seq<T>)
    requires i < |s|
    ensures |r| == |s| - 1
  {
    s[..i] + s[i + 1..]
  }

  /** First position of t, or the length. */
  function IndexOf(ring: seq<Topic>, t: Topic): (i: nat)
    ensures i <= |ring|
    ensures i < |ring| ==> ring[i] == t
    ensures t in ring ==> i < |ring|
    ensures forall j :: 0 <= j < i ==> ring[j] != t
  {
    if ring == [] then 0 else if ring[0] == t then 0 else 1 + IndexOf(ring[1..], t)
  }

  /** The first position of a longest FIFO in the ring, if any is non-empty. */
  function Leader(topics: map<Topic, seq<Message>>, ring: seq<Topic>): (r: Option<nat>)
    ensures r.Some? ==> r.value < |ring| && |Fifo(topics, ring[r.value])| > 0
    ensures r.Some? ==> forall j :: 0 <= j < |ring| ==>
      |Fifo(topics, ring[j])| <= |Fifo(topics, ring[r.value])| &&
      (j < r.value ==> |Fifo(topics, ring[j])| < |Fifo(topics, ring[r.value])|)
    ensures r.None? ==> forall j :: 0 <= j < |ring| ==> Fifo(topics, ring[j]) == []
  {
    if ring == [] then None else
    var last := |ring| - 1;
    var prev := Leader(topics, ring[..last]);
    assert forall j :: 0 <= j < last ==> ring[..last][j] == ring[j];
    var best := if prev.None? then 0 else |Fifo(topics, ring[prev.value])|;
    if |Fifo(topics, ring[last])| > best then Some(last) else prev
  }

  /** The cursor, brought back into a ring of n. */
  function Wrap(rr: nat, n: nat): (r: nat)
    requires n > 0
    ensures r < n && (rr < n ==> r == rr) && (rr == n ==> r == 0)
  {
    rr % n
  }

  /** removeFromRing */
  function RingWithout(s: State, t: Topic): State {
    var i := IndexOf(s.ring, t);
    var ring := if i < |s.ring| then WithoutAt(s.ring, i) else s.ring;
    var rr := if i < |s.ring| && i < s.rr then s.rr - 1 else s.rr;
    s.(ring := ring, rr := if ring == [] then 0 else Wrap(rr, |ring|))
  }

  /** evictLongest when there is something to evict. */
  function EvictAt(s: State, i: nat): State
    requires i < |s.ring| && |Fifo(s.topics, s.ring[i])| > 0
  {
    var victim := s.ring[i];
    var q := Fifo(s.topics, victim)[1..];
    var s1 := s.(topics := s.topics[victim := q], total := s.total - 1);
    if q == [] then RingWithout(s1, victim) else s1
  }

  /** evictLongest: the oldest message of the longest FIFO goes. */
  function EvictLongest(s: State): (State, bool) {
    match Leader(s.topics, s.ring)
    case None => (s, false)
    case Some(i) => (EvictAt(s, i), true)
  }

  /** The first step of push: a topic without messages enters the ring. */
  function Entered(s: State, t: Topic): State {
    if Fifo(s.topics, t) == [] then s.(ring := s.ring + [t]) else s
  }

  /** The topic whose FIFO a push has to shorten to respect the global budget. */
  function Overflows(s: State, t: Topic): bool {
    |Fifo(s.topics, t)| < s.perTopic && s.total >= s.maxTotal
  }

  /** push as shipped: the FIFO is read before the eviction and written back,
      with the message appended, after it. */
  function Push(s: State, m: Message): State
    requires s.perTopic > 0
  {
    var t := m.topic;
    var q := Fifo(s.topics, t);
    var s1 := Entered(s, t);
    if |q| >= s.perTopic then
      s1.(topics := s1.topics[t := q[1..] + [m]], dropped := s1.dropped + 1)
    else if s.total >= s.maxTotal then
      var (s2, evicted) := EvictLongest(s1);
      s2.(topics := s2.topics[t := q + [m]], total := s2.total + 1, dropped := s2.dropped + if evicted then 1 else 0)
    else
      s1.(topics := s1.topics[t := q + [m]], total := s1.total + 1)
  }

  /** push with the FIFO read again after the eviction, and the topic put back
      in the ring if the eviction emptied it. */
  function PushRereading(s: State, m: Message): State
    requires s.perTopic > 0
  {
    var t := m.topic;
    var q := Fifo(s.topics, t);
    var s1 := Entered(s, t);
    if |q| >= s.perTopic then
      s1.(topics := s1.topics[t := q[1..] + [m]], dropped := s1.dropped + 1)
    else if s.total >= s.maxTotal then
      var (s2, evicted) := EvictLongest(s1);
      var q2 := Fifo(s2.topics, t);
      var s3 := if q != [] && q2 == [] then s2.(ring := s2.ring + [t]) else s2;
      s3.(topics := s3.topics[t := q2 + [m]], total := s3.total + 1, dropped := s3.dropped + if evicted then 1 else 0)
    else
      s1.(topics := s1.topics[t := q + [m]], total := s1.total + 1)
  }

  predicate CanPop(s: State) {
    s.total != 0 && s.ring != []
  }

  /** pop: the oldest message of the topic at the cursor; an emptied topic
      leaves the ring, otherwise the cursor moves on. */
  function Pop(s: State): (r: (State, Message))
    requires CanPop(s) && Fifo(s.topics, s.ring[Wrap(s.rr, |s.ring|)]) != []
  {
    var rr := Wrap(s.rr, |s.ring|);
    var t := s.ring[rr];
    var q := Fifo(s.topics, t);
    if |q| == 1 then
      var ring := WithoutAt(s.ring, rr);
      var rr' := if ring == [] then 0 else Wrap(rr, |ring|);
      (s.(topics := s.topics - {t}, ring := ring, rr := rr', total := s.total - 1), q[0])
    else
      (s.(topics := s.topics[t := q[1..]], rr := Wrap(rr + 1, |s.ring|), total := s.total - 1), q[0])
  }

  function Empty(perTopic: nat, maxTotal: nat): State {
    State(map[], [], 0, 0, 0, perTopic, maxTotal)
  }

  /** The messages of one topic, in order. */
  function OfTopic(ms: seq<Message>, t: Topic): seq<Message> {
    if ms == [] then []
    else if ms[0].topic == t then [ms[0]] + OfTopic(ms[1..], t)
    else OfTopic(ms[1..], t)
  }

  lemma {:induction false} OfTopicConcat(a: seq<Message>, b: seq<Message>, t: Topic)
    ensures OfTopic(a + b, t) == OfTopic(a, t) + OfTopic(b, t)
  {
    if a == [] {
      assert a + b == b;
    } else {
      OfTopicConcat(a[1..], b, t);
      assert (a + b)[1..] == a[1..] + b;
    }
  }

  lemma OfTopicOne(m: Message, t: Topic)
    ensures OfTopic([m], t) == if m.topic == t then [m] else []
  {
    assert [m][1..] == [];
  }

  // ----- Invariants ---------------------------------------------------------

  ghost predicate Distinct<T(!new)>(s: seq<T>) {
    forall i, j :: 0 <= i < j < |s| ==> s[i] != s[j]
  }

  /** The ring never names a topic without messages. */
  ghost predicate RingPending(s: State) {
    forall i :: 0 <= i < |s.ring| ==> Fifo(s.topics, s.ring[i]) != []
  }

  /** FIFOs hold messages of their own topic, within the per-topic bound. */
  ghost predicate FifosBounded(s: State) {
    forall t <- s.topics :: |s.topics[t]| <= s.perTopic && forall m <- s.topics[t] :: m.topic == t
  }

  predicate CursorIn(s: State) {
    if s.ring == [] then s.rr == 0 else s.rr < |s.ring|
  }

  /** What holds in every run, even through self-evictions. */
  ghost predicate Weak(s: State) {
    s.perTopic >= 1 && s.maxTotal >= 1 && s.total >= 0 &&
    Distinct(s.ring) && RingPending(s) && FifosBounded(s) && CursorIn(s)
  }

  /** The messages the ring gives access to. */
  function RingTotal(topics: map<Topic, seq<Message>>, ring: seq<Topic>): nat {
    if ring == [] then 0 else |Fifo(topics, ring[0])| + RingTotal(topics, ring[1..])
  }

  /** Every topic with messages is in the ring. */
  ghost predicate PendingInRing(s: State) {
    forall t <- s.topics :: s.topics[t] != [] ==> t in s.ring
  }

  /** The full invariant: the ring is exactly the set of topics with messages,
      and total counts them. */
  ghost predicate Valid(s: State) {
    Weak(s) && PendingInRing(s) &&
    s.total == RingTotal(s.topics, s.ring) && s.total <= s.maxTotal
  }

  /** The eviction picks the topic being pushed. */
  predicate SelfEvicts(s: State, m: Message) {
    var q := Fifo(s.topics, m.topic);
    0 < |q| && Overflows(s, m.topic) &&
    Leader(s.topics, s.ring).Some? && s.ring[Leader(s.topics, s.ring).value] == m.topic
  }

  // ----- Totals ---------------------------------------------------------------

  lemma {:induction false} TotalFrame(a: map<Topic, seq<Message>>, b: map<Topic, seq<Message>>, ring: seq<Topic>)
    requires forall i :: 0 <= i < |ring| ==> |Fifo(a, ring[i])| == |Fifo(b, ring[i])|
    ensures RingTotal(a, ring) == RingTotal(b, ring)
  {
    if ring != [] {
      assert forall i :: 0 <= i < |ring[1..]| ==> ring[1..][i] == ring[i + 1];
      TotalFrame(a, b, ring[1..]);
    }
  }

  lemma {:induction false} TotalConcat(topics: map<Topic, seq<Message>>, a: seq<Topic>, b: seq<Topic>)
    ensures RingTotal(topics, a + b) == RingTotal(topics, a) + RingTotal(topics, b)
  {
    if a == [] {
      assert a + b == b;
    } else {
      TotalConcat(topics, a[1..], b);
      assert (a + b)[1..] == a[1..] + b;
    }
  }

  /** One topic's share of the total can be taken out or replaced. */
  lemma TotalAt(topics: map<Topic, seq<Message>>, ring: seq<Topic>, i: nat, q: seq<Message>)
    requires Distinct(ring) && i < |ring|
    ensures RingTotal(topics, ring) == RingTotal(topics, WithoutAt(ring, i)) + |Fifo(topics, ring[i])|
    ensures var topics' := topics[ring[i] := q];
      RingTotal(topics', ring) == RingTotal(topics, ring) - |Fifo(topics, ring[i])| + |q| &&
      RingTotal(topics', WithoutAt(ring, i)) == RingTotal(topics, WithoutAt(ring, i))
  {
    var topics' := topics[ring[i] := q];
    assert ring == ring[..i] + [ring[i]] + ring[i + 1..];
    TotalConcat(topics, ring[..i] + [ring[i]], ring[i + 1..]);
    TotalConcat(topics, ring[..i], [ring[i]]);
    TotalConcat(topics, ring[..i], ring[i + 1..]);
    TotalConcat(topics', ring[..i] + [ring[i]], ring[i + 1..]);
    TotalConcat(topics', ring[..i], [ring[i]]);
    TotalConcat(topics', ring[..i], ring[i + 1..]);
    TotalOne(topics, ring[i]);
    TotalOne(topics', ring[i]);
    TotalFrame(topics, topics', ring[..i]);
    TotalFrame(topics, topics', ring[i + 1..]);
  }

  lemma TotalOne(topics: map<Topic, seq<Message>>, t: Topic)
    ensures RingTotal(topics, [t]) == |Fifo(topics, t)|
  {
    assert [t][1..] == [];
  }

  lemma {:induction false} TotalPositive(topics: map<Topic, seq<Message>>, ring: seq<Topic>)
    requires forall i :: 0 <= i < |ring| ==> Fifo(topics, ring[i]) != []
    ensures RingTotal(topics, ring) >= |ring|
  {
    if ring != [] {
      assert forall i :: 0 <= i < |ring[1..]| ==> ring[1..][i] == ring[i + 1];
      TotalPositive(topics, ring[1..]);
    }
  }

  // ----- What one operation keeps ----------------------------------------------

  lemma WithoutMembers(ring: seq<Topic>, i: nat, t: Topic)
    requires Distinct(ring) && i < |ring|
    ensures t in WithoutAt(ring, i) <==> t in ring && t != ring[i]
  {
    var r := WithoutAt(ring, i);
    if t in ring && t != ring[i] {
      var j :| 0 <= j < |ring| && ring[j] == t;
      assert r[if j < i then j else j - 1] == t;
    }
    if t in r {
      var j :| 0 <= j < |r| && r[j] == t;
      assert ring[if j < i then j else j + 1] == t;
    }
  }

  lemma IndexUnique(ring: seq<Topic>, i: nat)
    requires Distinct(ring) && i < |ring|
    ensures IndexOf(ring, ring[i]) == i
  {
  }

  lemma RemoveAtDistinct(ring: seq<Topic>, i: nat)
    requires Distinct(ring) && i < |ring|
    ensures Distinct(WithoutAt(ring, i)) && ring[i] !in WithoutAt(ring, i)
    ensures forall t :: t in WithoutAt(ring, i) <==> t in ring && t != ring[i]
    ensures IndexOf(ring, ring[i]) == i
  {
    IndexUnique(ring, i);
    hide IndexOf;
    forall t ensures t in WithoutAt(ring, i) <==> t in ring && t != ring[i] {
      WithoutMembers(ring, i, t);
    }
  }

  /** evictLongest, where a topic that just entered may still be empty: one
      message of the victim goes and nothing else changes. */
  lemma EvictEffect(s: State, i: nat)
    requires Distinct(s.ring) && i < |s.ring| && |Fifo(s.topics, s.ring[i])| > 0 && s.rr < |s.ring|
    ensures var victim := s.ring[i];
      var s' := EvictAt(s, i);
      s'.topics == s.topics[victim := Fifo(s.topics, victim)[1..]] &&
      Distinct(s'.ring) && s'.total == s.total - 1 && CursorIn(s') &&
      s'.dropped == s.dropped && s'.perTopic == s.perTopic && s'.maxTotal == s.maxTotal &&
      (forall t :: t in s'.ring <==> t in s.ring && (t != victim || |Fifo(s.topics, victim)| > 1)) &&
      RingTotal(s'.topics, s'.ring) == RingTotal(s.topics, s.ring) - 1
  {
    hide Wrap, Distinct, RingTotal;
    var victim := s.ring[i];
    TotalAt(s.topics, s.ring, i, Fifo(s.topics, victim)[1..]);
    RemoveAtDistinct(s.ring, i);
  }
}
