/** What push and pop keep over every run: per-topic order, the ring and budget
    invariant (exactly when no push evicts from its own topic), the round-robin
    bound, and what a self-eviction does for ever after. */
module InboxTheorems {
  import opened Bytes
  import opened Messages
  import opened Sequences
  import opened InboxModel

  // ----- One push ------------------------------------------------------------

  /** The position evicted by a push, when it evicts by the global budget. */
  function Victim(s: State, m: Message): Option<nat>
    requires s.perTopic > 0
  {
    if Overflows(s, m.topic) then Leader(s.topics, Entered(s, m.topic).ring) else None
  }

  function VictimTopic(s: State, m: Message): Option<Topic>
    requires s.perTopic > 0
  {
    match Victim(s, m)
    case None => None
    case Some(i) => Some(Entered(s, m.topic).ring[i])
  }

  /** How many messages of topic t a push of m removes from its FIFO. */
  function Cut(s: State, m: Message, t: Topic): nat
    requires s.perTopic > 0
  {
    if t == m.topic then (if |Fifo(s.topics, t)| >= s.perTopic then 1 else 0)
    else if VictimTopic(s, m) == Some(t) then 1 else 0
  }

  function Arriving(m: Message, t: Topic): seq<Message> {
    if t == m.topic then [m] else []
  }

  lemma {:induction false} LeaderSnoc(topics: map<Topic, seq<Message>>, ring: seq<Topic>, t: Topic)
    requires Fifo(topics, t) == []
    ensures Leader(topics, ring + [t]) == Leader(topics, ring)
  {
    assert (ring + [t])[..|ring|] == ring;
  }

  /** A topic that has just entered the ring is never the victim. */
  lemma EnteredVictim(s: State, m: Message)
    requires Weak(s)
    ensures Victim(s, m).Some? ==>
      var i := Victim(s, m).value;
      i < |s.ring| && Entered(s, m.topic).ring[i] == s.ring[i] && Fifo(s.topics, s.ring[i]) != [] &&
        s.ring[i] in s.topics
    ensures SelfEvicts(s, m) <==> VictimTopic(s, m) == Some(m.topic)
    ensures Overflows(s, m.topic) && s.ring != [] ==> Victim(s, m).Some?
    ensures s.perTopic > 0
  {
    if Fifo(s.topics, m.topic) == [] {
      LeaderSnoc(s.topics, s.ring, m.topic);
    }
    if s.ring != [] {
      assert Fifo(s.topics, s.ring[0]) != [];
    }
  }

  lemma EnteredDistinct(s: State, t: Topic)
    requires Weak(s)
    ensures Distinct(Entered(s, t).ring) && s.rr <= |Entered(s, t).ring|
    ensures Entered(s, t).ring != [] ==> s.rr < |Entered(s, t).ring|
    ensures RingTotal(s.topics, Entered(s, t).ring) == RingTotal(s.topics, s.ring)
    ensures Fifo(s.topics, t) == [] ==> t !in s.ring
  {
    if Fifo(s.topics, t) == [] {
      TotalConcat(s.topics, s.ring, [t]);
      TotalOne(s.topics, t);
    }
  }

  /** Per topic, a push appends the message and cuts at most one from the front;
      in particular the newest message of the pushed topic is always kept. */
  lemma PushFifos(s: State, m: Message, t: Topic)
    requires Weak(s)
    ensures var s' := Push(s, m);
      Cut(s, m, t) <= |Fifo(s.topics, t)| &&
      Fifo(s'.topics, t) == (Fifo(s.topics, t) + Arriving(m, t))[Cut(s, m, t)..] &&
      (t == m.topic ==> Fifo(s'.topics, t) != [] && Fifo(s'.topics, t)[|Fifo(s'.topics, t)| - 1] == m)
  {
    PushedFifo(s, m, t);
    hide Weak, Push, Cut, Arriving;
    if t == m.topic {
      var q := Fifo(s.topics, t);
      CutKeepsLast(q, m, Cut(s, m, t));
    }
  }

  lemma CutKeepsLast(q: seq<Message>, m: Message, k: nat)
    requires k <= |q|
    ensures (q + [m])[k..] != [] && (q + [m])[k..][|(q + [m])[k..]| - 1] == m
  {
  }

  lemma PushedFifo(s: State, m: Message, t: Topic)
    requires Weak(s)
    ensures s.perTopic > 0 && Cut(s, m, t) <= |Fifo(s.topics, t)|
    ensures Arriving(m, t) == if t == m.topic then [m] else []
    ensures Fifo(Push(s, m).topics, t) == (Fifo(s.topics, t) + Arriving(m, t))[Cut(s, m, t)..]
  {
    EnteredVictim(s, m);
    hide Weak, Leader, EvictAt, SelfEvicts;
    if Victim(s, m).Some? {
      EvictTopics(Entered(s, m.topic), Victim(s, m).value);
    }
    var q := Fifo(s.topics, t);
    assert (q + [m])[0..] == q + [m] && (q + [])[0..] == q;
    if Cut(s, m, t) == 1 {
      assert q != [] && (q + [m])[1..] == q[1..] + [m] && (q + [])[1..] == q[1..];
    }
  }

  lemma EvictTopics(s: State, i: nat)
    requires i < |s.ring| && |Fifo(s.topics, s.ring[i])| > 0
    ensures EvictAt(s, i).topics == s.topics[s.ring[i] := Fifo(s.topics, s.ring[i])[1..]]
  {
  }

  /** Every push adds one to what is buffered or counts one as dropped. */
  lemma PushCounts(s: State, m: Message)
    requires Weak(s)
    ensures var s' := Push(s, m);
      s'.total + s'.dropped == s.total + s.dropped + 1 && s.dropped <= s'.dropped <= s.dropped + 1 &&
      s'.perTopic == s.perTopic && s'.maxTotal == s.maxTotal && s'.total >= 0
  {
    EnteredVictim(s, m);
    EnteredDistinct(s, m.topic);
    if Victim(s, m).Some? {
      EvictEffect(Entered(s, m.topic), Victim(s, m).value);
    }
  }

  /** Which topics are in the ring after a push. */
  lemma PushRing(s: State, m: Message)
    requires Weak(s)
    ensures var s' := Push(s, m);
      Distinct(s'.ring) && (if s'.ring == [] then s'.rr == 0 else s'.rr < |s'.ring|) &&
      forall t :: t in s'.ring <==>
        (t in s.ring || (t == m.topic && Fifo(s.topics, t) == [])) &&
        !(VictimTopic(s, m) == Some(t) && |Fifo(s.topics, t)| == 1)
  {
    EnteredVictim(s, m);
    EnteredDistinct(s, m.topic);
    if Victim(s, m).Some? {
      EvictEffect(Entered(s, m.topic), Victim(s, m).value);
    }
  }

  lemma PushWeak(s: State, m: Message)
    requires Weak(s)
    ensures Weak(Push(s, m))
  {
    var s' := Push(s, m);
    PushCounts(s, m);
    PushRing(s, m);
    forall i | 0 <= i < |s'.ring| ensures Fifo(s'.topics, s'.ring[i]) != [] {
      var t := s'.ring[i];
      assert t in s'.ring;
      PushFifos(s, m, t);
      if t in s.ring {
        var j :| 0 <= j < |s.ring| && s.ring[j] == t;
        assert Fifo(s.topics, s.ring[j]) != [];
      }
    }
    forall t | t in s'.topics
      ensures |s'.topics[t]| <= s.perTopic && forall x <- s'.topics[t] :: x.topic == t
    {
      PushFifos(s, m, t);
      assert Fifo(s'.topics, t) == s'.topics[t];
    }
  }

  // ----- One pop --------------------------------------------------------------

  /** pop takes the oldest message of the topic at the cursor; nothing else
      changes. It never reads an empty FIFO. */
  lemma PopEffect(s: State)
    requires Weak(s) && CanPop(s)
    ensures Fifo(s.topics, s.ring[Wrap(s.rr, |s.ring|)]) != [] && Wrap(s.rr, |s.ring|) == s.rr
    ensures var (s', m) := Pop(s);
      var t := s.ring[s.rr];
      m == Fifo(s.topics, t)[0] && m.topic == t &&
      (forall u :: Fifo(s'.topics, u) == if u == t then Fifo(s.topics, u)[1..] else Fifo(s.topics, u)) &&
      s'.total == s.total - 1 && s'.dropped == s.dropped && s'.perTopic == s.perTopic && s'.maxTotal == s.maxTotal &&
      (forall u :: u in s'.ring <==> u in s.ring && (u != t || |Fifo(s.topics, t)| > 1))
    ensures Weak(Pop(s).0)
  {
    var t := s.ring[s.rr];
    assert Wrap(s.rr, |s.ring|) == s.rr;
    RemoveAtDistinct(s.ring, s.rr);
    var (s', m) := Pop(s);
    if |Fifo(s.topics, t)| == 1 {
      assert Fifo(s.topics, t)[1..] == [];
      forall i | 0 <= i < |s'.ring| ensures Fifo(s'.topics, s'.ring[i]) != [] {
        assert s'.ring[i] in s.ring;
      }
    }
  }

  // ----- The full invariant -----------------------------------------------------

  lemma PopValid(s: State)
    requires Valid(s) && CanPop(s)
    ensures Fifo(s.topics, s.ring[Wrap(s.rr, |s.ring|)]) != []
    ensures Valid(Pop(s).0)
  {
    PopEffect(s);
    var t := s.ring[s.rr];
    TotalAt(s.topics, s.ring, s.rr, Fifo(s.topics, t)[1..]);
    var s' := Pop(s).0;
    if |Fifo(s.topics, t)| == 1 {
      forall i | 0 <= i < |s'.ring| ensures |Fifo(s'.topics, s'.ring[i])| == |Fifo(s.topics, s'.ring[i])| {
        assert s'.ring[i] in s'.ring;
      }
      TotalFrame(s'.topics, s.topics, s'.ring);
    }
    forall u | u in s'.topics && s'.topics[u] != [] ensures u in s'.ring {
      assert Fifo(s'.topics, u) != [];
    }
  }

  /** pop finds a message whenever there is one. */
  lemma ValidCanPop(s: State)
    requires Valid(s)
    ensures CanPop(s) <==> exists t :: Fifo(s.topics, t) != []
  {
    TotalPositive(s.topics, s.ring);
    if s.ring != [] {
      assert Fifo(s.topics, s.ring[0]) != [];
    }
    if exists t :: Fifo(s.topics, t) != [] {
      var t :| Fifo(s.topics, t) != [];
      assert t in s.ring;
    }
  }

  /** What a push does to the total, through the ring. */
  lemma PushRingTotal(s: State, m: Message)
    requires Valid(s)
    ensures var s' := Push(s, m);
      if SelfEvicts(s, m) then
        s'.total == s.total && Fifo(s'.topics, m.topic) != [] &&
        (m.topic in s'.ring ==> RingTotal(s'.topics, s'.ring) == s.total + 1)
      else
        RingTotal(s'.topics, s'.ring) == s'.total && s'.total <= s'.maxTotal && m.topic in s'.ring
  {
    hide Leader, FifosBounded, EvictAt, IndexOf;
    EnteredVictim(s, m);
    EnteredDistinct(s, m.topic);
    PushRing(s, m);
    var t, q := m.topic, Fifo(s.topics, m.topic);
    var s1 := Entered(s, t);
    assert q != [] ==> t in s.ring;
    assert t in s1.ring by {
      if q == [] {
        assert s1.ring[|s.ring|] == t;
      }
    }
    if |q| >= s.perTopic {
      RingAdd(s1, t, q[1..] + [m]);
    } else if s.total >= s.maxTotal {
      TotalPositive(s.topics, s.ring);
      var i := Victim(s, m).value;
      EvictEffect(s1, i);
      var s2 := EvictAt(s1, i);
      if t in s2.ring {
        RingAdd(s2, t, q + [m]);
      }
    } else {
      RingAdd(s1, t, q + [m]);
    }
  }

  lemma RingAdd(s: State, t: Topic, q: seq<Message>)
    requires Distinct(s.ring) && t in s.ring
    ensures RingTotal(s.topics[t := q], s.ring) == RingTotal(s.topics, s.ring) - |Fifo(s.topics, t)| + |q|
  {
    var i :| 0 <= i < |s.ring| && s.ring[i] == t;
    TotalAt(s.topics, s.ring, i, q);
  }

  /** The shipped push keeps the invariant exactly when the eviction it may
      trigger does not hit the topic being pushed. */
  lemma PushValid(s: State, m: Message)
    requires Valid(s)
    ensures Valid(Push(s, m)) <==> !SelfEvicts(s, m)
  {
    PushWeak(s, m);
    PushRingTotal(s, m);
    if !SelfEvicts(s, m) {
      var s' := Push(s, m);
      EnteredVictim(s, m);
      hide Weak;
      forall t | t in s'.topics && s'.topics[t] != [] ensures t in s'.ring {
        PushFifos(s, m, t);
        PushRing(s, m);
        assert Fifo(s'.topics, t) != [];
        if t != m.topic {
          assert Fifo(s.topics, t) != [] && t in s.ring;
        }
      }
    }
  }

  /** Reading the FIFO again after the eviction is all it takes: the invariant
      then survives every push, and nothing else about push changes. */
  lemma RereadingValid(s: State, m: Message)
    requires Valid(s)
    ensures Valid(PushRereading(s, m))
    ensures !SelfEvicts(s, m) ==> PushRereading(s, m) == Push(s, m)
    ensures SelfEvicts(s, m) ==>
      Fifo(PushRereading(s, m).topics, m.topic) == Fifo(s.topics, m.topic)[1..] + [m]
  {
    if SelfEvicts(s, m) {
      RereadingSelf(s, m);
    } else {
      RereadingSame(s, m);
      PushValid(s, m);
    }
  }

  lemma RereadingSame(s: State, m: Message)
    requires Weak(s) && !SelfEvicts(s, m)
    ensures PushRereading(s, m) == Push(s, m)
  {
    EnteredVictim(s, m);
    hide Weak, Leader, EvictAt, SelfEvicts;
    if Victim(s, m).Some? {
      EvictTopics(Entered(s, m.topic), Victim(s, m).value);
    }
  }

  lemma RereadingSelf(s: State, m: Message)
    requires Valid(s) && SelfEvicts(s, m)
    ensures Valid(PushRereading(s, m))
    ensures Fifo(PushRereading(s, m).topics, m.topic) == Fifo(s.topics, m.topic)[1..] + [m]
  {
    SelfVictim(s, m);
    var i := Leader(s.topics, s.ring).value;
    hide Valid, SelfEvicts, Leader, PushRereading, Restored;
    RestoreValid(s, i, m);
    RereadingRestores(s, i, m);
  }

  /** Evict a message of the pushed topic, put the topic back if that emptied it,
      append. */
  function Restored(s: State, i: nat, m: Message): State
    requires i < |s.ring| && |Fifo(s.topics, s.ring[i])| > 0
  {
    var t := m.topic;
    var s2 := EvictAt(s, i);
    var q := Fifo(s2.topics, t);
    var s3 := if q == [] then s2.(ring := s2.ring + [t]) else s2;
    s3.(topics := s3.topics[t := q + [m]], total := s3.total + 1, dropped := s3.dropped + 1)
  }

  lemma RereadingRestores(s: State, i: nat, m: Message)
    requires Leader(s.topics, s.ring) == Some(i) && i < |s.ring| && s.ring[i] == m.topic
    requires 0 < |Fifo(s.topics, m.topic)| < s.perTopic && s.total >= s.maxTotal
    ensures PushRereading(s, m) == Restored(s, i, m)
  {
    hide Leader, EvictAt, Fifo;
    assert Entered(s, m.topic) == s;
  }

  lemma SelfVictim(s: State, m: Message)
    requires Valid(s) && SelfEvicts(s, m)
    ensures Leader(s.topics, s.ring).Some? && Leader(s.topics, s.ring).value < |s.ring|
    ensures s.ring[Leader(s.topics, s.ring).value] == m.topic
    ensures 0 < |Fifo(s.topics, m.topic)| < s.perTopic && s.total >= s.maxTotal
  {
  }

  lemma DistinctSnoc(ring: seq<Topic>, t: Topic)
    requires Distinct(ring) && t !in ring
    ensures Distinct(ring + [t])
  {
  }

  lemma RestoreValid(s: State, i: nat, m: Message)
    requires Valid(s) && i < |s.ring| && s.ring[i] == m.topic && s.total >= s.maxTotal
    requires 0 < |Fifo(s.topics, m.topic)| < s.perTopic
    ensures Valid(Restored(s, i, m))
    ensures Fifo(Restored(s, i, m).topics, m.topic) == Fifo(s.topics, m.topic)[1..] + [m]
  {
    hide EvictAt, Distinct, RingPending, FifosBounded, RingTotal;
    var t, q := m.topic, Fifo(s.topics, m.topic)[1..];
    EvictEffect(s, i);
    var s2 := EvictAt(s, i);
    var s3 := if q == [] then s2.(ring := s2.ring + [t]) else s2;
    if q == [] {
      TotalConcat(s2.topics, s2.ring, [t]);
      TotalOne(s2.topics, t);
      DistinctSnoc(s2.ring, t);
      assert s3.ring[|s2.ring|] == t;
    }
    RingAdd(s3, t, q + [m]);
    RestoredParts(s, i, m, s3, s3.dropped + 1);
  }

  lemma RestoredParts(s: State, i: nat, m: Message, s3: State, d: nat)
    requires Valid(s) && i < |s.ring| && s.ring[i] == m.topic && s.total >= s.maxTotal
    requires 0 < |Fifo(s.topics, m.topic)| < s.perTopic
    requires Distinct(s3.ring) && (forall t :: t in s3.ring <==> t in s.ring)
    requires s3.topics == s.topics[m.topic := Fifo(s.topics, m.topic)[1..]]
    requires s3.perTopic == s.perTopic && s3.maxTotal == s.maxTotal && s3.total == s.total - 1 && s3.rr < |s3.ring|
    requires RingTotal(s3.topics[m.topic := Fifo(s.topics, m.topic)[1..] + [m]], s3.ring) == s.total
    ensures var topics := s3.topics[m.topic := Fifo(s.topics, m.topic)[1..] + [m]];
      Valid(s3.(topics := topics, total := s3.total + 1, dropped := d))
  {
    var t, q := m.topic, Fifo(s.topics, m.topic)[1..];
    var s' := s3.(topics := s3.topics[t := q + [m]], total := s3.total + 1, dropped := d);
    assert t in s.ring && t in s.topics;
    forall u | u in s'.topics && s'.topics[u] != [] ensures u in s'.ring {
      assert u != t ==> s.topics[u] != [];
    }
    forall j | 0 <= j < |s'.ring| ensures Fifo(s'.topics, s'.ring[j]) != [] {
      var u := s'.ring[j];
      assert u in s'.ring && u in s.ring;
      var k :| 0 <= k < |s.ring| && s.ring[k] == u;
      assert Fifo(s.topics, s.ring[k]) != [];
    }
    forall u | u in s'.topics ensures |s'.topics[u]| <= s.perTopic && forall x <- s'.topics[u] :: x.topic == u {
      assert u != t ==> s'.topics[u] == s.topics[u];
      assert u == t ==> forall x <- q :: x in s.topics[t];
    }
  }

  // ----- Runs -------------------------------------------------------------------

  datatype Event = Arrive(m: Message) | Take

  /** One event: a push, or a pop that may find nothing. */
  ghost function Step(s: State, e: Event): (r: (State, seq<Message>))
    requires Weak(s)
    ensures Weak(r.0)
  {
    match e
    case Arrive(m) =>
      PushWeak(s, m);
      (Push(s, m), [])
    case Take =>
      if !CanPop(s) then (s, []) else
      PopEffect(s);
      (Pop(s).0, [Pop(s).1])
  }

  /** The state and the messages popped after a run. */
  ghost function Run(s: State, es: seq<Event>): (r: (State, seq<Message>))
    requires Weak(s)
    ensures Weak(r.0)
  {
    if es == [] then (s, []) else
    var (s1, popped) := Run(s, es[..|es| - 1]);
    var (s2, out) := Step(s1, es[|es| - 1]);
    (s2, popped + out)
  }

  function Arrivals(es: seq<Event>): seq<Message> {
    if es == [] then []
    else Arrivals(es[..|es| - 1]) + if es[|es| - 1].Arrive? then [es[|es| - 1].m] else []
  }

  /** Over every run of the shipped inbox, self-evictions included, each topic's
      popped messages followed by its FIFO are a subsequence of what it had and
      what arrived for it: nothing is reordered, repeated or invented. */
  lemma {:induction false} TopicOrder(s: State, es: seq<Event>, t: Topic)
    requires Weak(s)
    ensures var (s', popped) := Run(s, es);
      Subsequence(OfTopic(popped, t) + Fifo(s'.topics, t), Fifo(s.topics, t) + OfTopic(Arrivals(es), t))
    decreases |es|
  {
    hide Weak, Step, Subsequence, OfTopic, Fifo;
    if es == [] {
      OrderStart(s, t);
    } else {
      var init, e := es[..|es| - 1], es[|es| - 1];
      var (s1, popped) := Run(s, init);
      TopicOrder(s, init, t);
      var was, arrived := Fifo(s.topics, t), Arrivals(init);
      StepOrder(s1, e, t, popped, was + OfTopic(arrived, t));
      var added := if e.Arrive? then [e.m] else [];
      OfTopicConcat(arrived, added, t);
      Associate(was, OfTopic(arrived, t), OfTopic(added, t));
    }
  }

  lemma OrderStart(s: State, t: Topic)
    ensures Subsequence(OfTopic([], t) + Fifo(s.topics, t), Fifo(s.topics, t) + OfTopic([], t))
  {
    assert OfTopic([], t) + Fifo(s.topics, t) == Fifo(s.topics, t);
    assert Fifo(s.topics, t) + OfTopic([], t) == Fifo(s.topics, t);
    SubsequenceReflexive(Fifo(s.topics, t));
  }

  lemma Associate<T>(a: seq<T>, b: seq<T>, c: seq<T>)
    ensures a + (b + c) == a + b + c
  {
  }

  /** One event extends the order by what arrived. */
  lemma StepOrder(s: State, e: Event, t: Topic, popped: seq<Message>, whole: seq<Message>)
    requires Weak(s) && Subsequence(OfTopic(popped, t) + Fifo(s.topics, t), whole)
    ensures var (s', out) := Step(s, e);
      Subsequence(OfTopic(popped + out, t) + Fifo(s'.topics, t), whole + OfTopic(if e.Arrive? then [e.m] else [], t))
  {
    match e {
      case Arrive(m) => ArriveOrder(s, m, t, popped, whole);
      case Take =>
        assert whole + [] == whole && popped + [] == popped;
        if CanPop(s) {
          TakeOrder(s, t, popped, whole);
        }
    }
    hide Weak, Push, Pop, Subsequence, OfTopic, Fifo;
  }

  lemma ArriveOrder(s: State, m: Message, t: Topic, popped: seq<Message>, whole: seq<Message>)
    requires Weak(s) && Subsequence(OfTopic(popped, t) + Fifo(s.topics, t), whole)
    ensures Subsequence(OfTopic(popped + [], t) + Fifo(Push(s, m).topics, t), whole + OfTopic([m], t))
  {
    assert s.perTopic > 0;
    hide Weak, Push, Subsequence;
    OfTopicOne(m, t);
    PushFifos(s, m, t);
    OrderAfterPush(OfTopic(popped, t), Fifo(s.topics, t), Arriving(m, t), Cut(s, m, t), whole);
    assert popped + [] == popped;
  }

  lemma TakeOrder(s: State, t: Topic, popped: seq<Message>, whole: seq<Message>)
    requires Weak(s) && CanPop(s) && Subsequence(OfTopic(popped, t) + Fifo(s.topics, t), whole)
    ensures Fifo(s.topics, s.ring[Wrap(s.rr, |s.ring|)]) != []
    ensures Subsequence(OfTopic(popped + [Pop(s).1], t) + Fifo(Pop(s).0.topics, t), whole)
  {
    PopEffect(s);
    hide Weak, Pop, Subsequence;
    var before, q, m := OfTopic(popped, t), Fifo(s.topics, t), Pop(s).1;
    OfTopicConcat(popped, [m], t);
    OfTopicOne(m, t);
    assert m.topic == t ==> before + [m] + q[1..] == before + q;
    assert before + [] == before;
  }

  lemma OrderAfterPush(before: seq<Message>, q: seq<Message>, added: seq<Message>, k: nat, whole: seq<Message>)
    requires Subsequence(before + q, whole) && k <= |q|
    ensures Subsequence(before + (q + added)[k..], whole + added)
  {
    SubsequenceReflexive(added);
    SubsequenceConcat(before + q, whole, added, added);
    assert before + q + added == before + (q + added) + [];
    DropInMiddle(before, q + added, k, [], whole + added);
    assert before + (q + added)[k..] + [] == before + (q + added)[k..];
  }

  /** The invariant holds at every point of a run. */
  ghost predicate AlwaysValid(s: State, es: seq<Event>)
    requires Weak(s)
  {
    if es == [] then Valid(s) else AlwaysValid(s, es[..|es| - 1]) && Valid(Run(s, es).0)
  }

  ghost predicate NeverSelfEvicts(s: State, es: seq<Event>)
    requires Weak(s)
  {
    if es == [] then true else
    var init, e := es[..|es| - 1], es[|es| - 1];
    NeverSelfEvicts(s, init) && (e.Arrive? ==> !SelfEvicts(Run(s, init).0, e.m))
  }

  /** From a valid state, the invariant holds throughout a run exactly when no
      push in it evicts from its own topic. */
  lemma {:induction false} RunValid(s: State, es: seq<Event>)
    requires Valid(s)
    ensures AlwaysValid(s, es) <==> NeverSelfEvicts(s, es)
    ensures AlwaysValid(s, es) ==> Valid(Run(s, es).0)
  {
    if es != [] {
      var init, e := es[..|es| - 1], es[|es| - 1];
      RunValid(s, init);
      if AlwaysValid(s, init) {
        StepValid(Run(s, init).0, e);
      }
    }
  }

  lemma StepValid(s: State, e: Event)
    requires Valid(s)
    ensures Valid(Step(s, e).0) <==> (e.Arrive? ==> !SelfEvicts(s, e.m))
  {
    hide Push, Pop;
    match e {
      case Arrive(m) => PushValid(s, m);
      case Take =>
        if CanPop(s) {
          PopValid(s);
        }
    }
  }

  // ----- After a self-eviction -----------------------------------------------------

  /** A topic with messages that is not in the ring stays that way for ever, and
      none of its messages is ever popped, whatever arrives later. */
  lemma {:induction false} StrandedForever(s: State, es: seq<Event>, t: Topic)
    requires Weak(s) && Fifo(s.topics, t) != [] && t !in s.ring
    ensures var (s', popped) := Run(s, es);
      Fifo(s'.topics, t) != [] && t !in s'.ring && OfTopic(popped, t) == []
    decreases |es|
  {
    hide Weak, Step;
    if es != [] {
      var init := es[..|es| - 1];
      var (s1, popped) := Run(s, init);
      StrandedForever(s, init, t);
      StrandedStep(s1, es[|es| - 1], t, popped);
    }
  }

  lemma StrandedStep(s: State, e: Event, t: Topic, popped: seq<Message>)
    requires Weak(s) && Fifo(s.topics, t) != [] && t !in s.ring && OfTopic(popped, t) == []
    ensures var (s', out) := Step(s, e);
      Fifo(s'.topics, t) != [] && t !in s'.ring && OfTopic(popped + out, t) == []
  {
    match e {
      case Arrive(m) =>
        PushFifos(s, m, t);
        PushRing(s, m);
        EnteredVictim(s, m);
        hide Weak, Push, Leader;
        assert popped + [] == popped;
      case Take =>
        if CanPop(s) {
          PopEffect(s);
          hide Weak, Pop;
          assert s.ring[s.rr] in s.ring;
          OfTopicConcat(popped, [Pop(s).1], t);
          OfTopicOne(Pop(s).1, t);
        } else {
          assert popped + [] == popped;
        }
    }
  }

  /** Two pushes to two topics fill an inbox with room for two messages. */
  lemma TwoTopics(a: Message, b: Message)
    requires a.topic != b.topic
    ensures var s := Push(Push(Empty(2, 2), a), b);
      Valid(s) && s == State(map[a.topic := [a], b.topic := [b]], [a.topic, b.topic], 0, 2, 0, 2, 2)
  {
    var s0 := Empty(2, 2);
    var s1 := State(map[a.topic := [a]], [a.topic], 0, 1, 0, 2, 2);
    assert Valid(s0);
    FirstPush(a);
    PushValid(s0, a);
    SecondPush(a, b);
    hide Weak, Push;
    PushValid(s1, b);
  }

  lemma FirstPush(a: Message)
    ensures Push(Empty(2, 2), a) == State(map[a.topic := [a]], [a.topic], 0, 1, 0, 2, 2)
    ensures !SelfEvicts(Empty(2, 2), a)
  {
    assert [] + [a.topic] == [a.topic] && [] + [a] == [a];
  }

  lemma SecondPush(a: Message, b: Message)
    requires a.topic != b.topic
    ensures var s1 := State(map[a.topic := [a]], [a.topic], 0, 1, 0, 2, 2);
      Push(s1, b) == State(map[a.topic := [a], b.topic := [b]], [a.topic, b.topic], 0, 2, 0, 2, 2) && !SelfEvicts(s1, b)
  {
    assert [] + [b] == [b] && [a.topic] + [b.topic] == [a.topic, b.topic];
    assert map[a.topic := [a]][b.topic := [b]] == map[a.topic := [a], b.topic := [b]];
  }

  lemma FirstLeads(a: Message, b: Message)
    requires a.topic != b.topic
    ensures Leader(map[a.topic := [a], b.topic := [b]], [a.topic, b.topic]) == Some(0)
  {
    var topics, ring := map[a.topic := [a], b.topic := [b]], [a.topic, b.topic];
    var r := Leader(topics, ring);
    assert Fifo(topics, ring[0]) == [a] && Fifo(topics, ring[1]) == [b];
  }

  /** Two topics and room for two messages: the third push strands the first
      topic. One pop later the inbox reports a pending message and finds none. */
  lemma SelfEvictionExample(a: Message, b: Message, c: Message)
    requires a.topic == c.topic != b.topic
    ensures var s2 := Push(Push(Empty(2, 2), a), b);
      Valid(s2) && SelfEvicts(s2, c) &&
      var s3 := Push(s2, c);
      !Valid(s3) && Fifo(s3.topics, a.topic) == [a, c] && s3.ring == [b.topic] && s3.total == 2 &&
      CanPop(s3) && Fifo(s3.topics, s3.ring[Wrap(s3.rr, |s3.ring|)]) != [] &&
      var s4 := Pop(s3).0;
      s4.total == 1 && !CanPop(s4) && Fifo(s4.topics, a.topic) == [a, c]
  {
    TwoTopics(a, b);
    FirstLeads(a, b);
    var s2 := State(map[a.topic := [a], b.topic := [b]], [a.topic, b.topic], 0, 2, 0, 2, 2);
    PushValid(s2, c);
    hide Valid, Weak, Leader;
    assert Fifo(s2.topics, a.topic) == [a];
    ThirdPush(a, b, c);
    var s3 := Push(s2, c);
    assert Fifo(s3.topics, b.topic) == [b];
    assert WithoutAt(s3.ring, 0) == [];
  }

  lemma ThirdPush(a: Message, b: Message, c: Message)
    requires a.topic == c.topic != b.topic
    requires Leader(map[a.topic := [a], b.topic := [b]], [a.topic, b.topic]) == Some(0)
    ensures var s2 := State(map[a.topic := [a], b.topic := [b]], [a.topic, b.topic], 0, 2, 0, 2, 2);
      Push(s2, c) == State(map[a.topic := [a, c], b.topic := [b]], [b.topic], 0, 2, 1, 2, 2)
  {
    hide Leader;
    var s2 := State(map[a.topic := [a], b.topic := [b]], [a.topic, b.topic], 0, 2, 0, 2, 2);
    assert Fifo(s2.topics, a.topic) == [a];
    assert Entered(s2, c.topic) == s2;
    assert IndexOf(s2.ring, a.topic) == 0;
    assert [a][1..] == [] && [a] + [c] == [a, c] && WithoutAt(s2.ring, 0) == [b.topic];
    var s := EvictAt(s2, 0);
    assert s.ring == [b.topic] && s.rr == 0 && s.total == 1;
    assert s.topics[a.topic := [a, c]] == map[a.topic := [a, c], b.topic := [b]];
  }

  // ----- The round-robin bound ------------------------------------------------------

  /** How many pops of other topics come before position i, seen from cursor rr
      in a ring of n. */
  function Ahead(i: nat, rr: nat, n: nat): nat
    requires i < n && rr < n
  {
    if i >= rr then i - rr else i + n - rr
  }

  function Distance(s: State, t: Topic): nat
    requires t in s.ring && s.rr < |s.ring|
  {
    Ahead(IndexOf(s.ring, t), s.rr, |s.ring|)
  }

  /** Where a topic is after another one left the ring. */
  lemma IndexWithout(ring: seq<Topic>, i: nat, t: Topic)
    requires Distinct(ring) && i < |ring| && t in ring && t != ring[i]
    ensures var j := IndexOf(ring, t);
      j != i && t in WithoutAt(ring, i) && IndexOf(WithoutAt(ring, i), t) == if j < i then j else j - 1
  {
    var j := IndexOf(ring, t);
    RemoveAtDistinct(ring, i);
    var r := WithoutAt(ring, i);
    IndexUnique(r, if j < i then j else j - 1);
  }

  /** Each pop of another topic brings a pending topic exactly one step closer. */
  lemma PopDistance(s: State, t: Topic)
    requires Weak(s) && CanPop(s) && t in s.ring && t != s.ring[s.rr]
    ensures Fifo(s.topics, s.ring[Wrap(s.rr, |s.ring|)]) != []
    ensures var s' := Pop(s).0;
      Weak(s') && t in s'.ring && Distance(s, t) > 0 && Distance(s', t) == Distance(s, t) - 1
  {
    PopEffect(s);
    hide Weak;
    IndexWithout(s.ring, s.rr, t);
  }

  /** An eviction never puts a pending topic further away. */
  lemma EvictDistance(s: State, i: nat, t: Topic)
    requires Distinct(s.ring) && s.rr < |s.ring| && i < |s.ring| && |Fifo(s.topics, s.ring[i])| > 0
    requires t in s.ring && t in EvictAt(s, i).ring
    ensures EvictAt(s, i).rr < |EvictAt(s, i).ring| && Distance(EvictAt(s, i), t) <= Distance(s, t)
  {
    EvictEffect(s, i);
    if Fifo(s.topics, s.ring[i])[1..] == [] {
      RemoveAtDistinct(s.ring, i);
      IndexWithout(s.ring, i, t);
    }
  }

  /** A topic entering at the end of the ring delays one that is already there
      by at most one. */
  lemma EnterDistance(s: State, u: Topic, t: Topic)
    requires Weak(s) && t in s.ring
    ensures var s' := Entered(s, u);
      s'.rr < |s'.ring| && t in s'.ring && Distinct(s'.ring) &&
      Distance(s', t) <= Distance(s, t) + if Fifo(s.topics, u) == [] then 1 else 0
  {
    EnteredDistinct(s, u);
    var j := IndexOf(s.ring, t);
    assert Entered(s, u).ring[j] == t;
    IndexUnique(Entered(s, u).ring, j);
  }

  lemma PushDistance(s: State, m: Message, t: Topic)
    requires Weak(s) && t in s.ring && t in Push(s, m).ring
    ensures Weak(Push(s, m))
    ensures Distance(Push(s, m), t) <= Distance(s, t) + if Fifo(s.topics, m.topic) == [] then 1 else 0
  {
    PushWeak(s, m);
    EnterDistance(s, m.topic, t);
    EnteredVictim(s, m);
    hide Weak, Leader;
    if Victim(s, m).Some? {
      EvictDistance(Entered(s, m.topic), Victim(s, m).value, t);
    }
  }

  /** Topics that enter the ring during a run. */
  ghost function Insertions(s: State, es: seq<Event>): nat
    requires Weak(s)
  {
    if es == [] then 0 else
    var init, e := es[..|es| - 1], es[|es| - 1];
    Insertions(s, init) + if e.Arrive? && Fifo(Run(s, init).0.topics, e.m.topic) == [] then 1 else 0
  }

  /** Topic t is pending throughout the run and never served. */
  ghost predicate Waits(s: State, es: seq<Event>, t: Topic)
    requires Weak(s)
  {
    if es == [] then t in s.ring else
    Waits(s, es[..|es| - 1], t) && t in Run(s, es).0.ring && OfTopic(Run(s, es).1, t) == []
  }

  /** Over any run in which t keeps waiting, the pops of other topics plus the
      distance still to go are bounded by the distance at the start plus the
      topics that entered the ring meanwhile. */
  lemma {:induction false} WaitingBound(s: State, es: seq<Event>, t: Topic)
    requires Weak(s) && Waits(s, es, t)
    ensures t in s.ring && t in Run(s, es).0.ring
    ensures |Run(s, es).1| + Distance(Run(s, es).0, t) <= Distance(s, t) + Insertions(s, es)
    decreases |es|
  {
    if es != [] {
      var init := es[..|es| - 1];
      var (s1, popped) := Run(s, init);
      WaitingBound(s, init, t);
      match es[|es| - 1] {
        case Arrive(m) =>
          PushDistance(s1, m, t);
        case Take =>
          if CanPop(s1) {
            PopEffect(s1);
            OfTopicConcat(popped, [Pop(s1).1], t);
            OfTopicOne(Pop(s1).1, t);
            PopDistance(s1, t);
          }
      }
    }
  }

  /** So a pending topic is served, or its messages evicted, within distance +
      insertions + 1 pops. */
  lemma ServedInTime(s: State, es: seq<Event>, t: Topic)
    requires Weak(s) && t in s.ring
    requires |Run(s, es).1| > Distance(s, t) + Insertions(s, es)
    ensures !Waits(s, es, t)
  {
    if Waits(s, es, t) {
      WaitingBound(s, es, t);
    }
  }

  // ----- Starvation -----------------------------------------------------------------

  /** One topic with a message at the front of the ring, another at the cursor. */
  function Behind(a: Message, b: Message, perTopic: nat, maxTotal: nat): State {
    State(map[a.topic := [a], b.topic := [b]], [a.topic, b.topic], 1, 2, 0, perTopic, maxTotal)
  }

  lemma BehindWeak(a: Message, b: Message, perTopic: nat, maxTotal: nat)
    requires a.topic != b.topic && perTopic >= 1 && maxTotal >= 1
    ensures Weak(Behind(a, b, perTopic, maxTotal))
  {
  }

  lemma PushPlain(s: State, m: Message)
    requires |Fifo(s.topics, m.topic)| < s.perTopic && s.total < s.maxTotal
    ensures var q := Fifo(s.topics, m.topic);
      Push(s, m) == s.(topics := s.topics[m.topic := q + [m]], total := s.total + 1,
                       ring := if q == [] then s.ring + [m.topic] else s.ring)
  {
  }

  /** A message of a third topic arrives, the topic at the cursor is served and
      leaves the ring: the new one is at the cursor now. */
  lemma OneRound(a: Message, b: Message, c: Message, perTopic: nat, maxTotal: nat)
    requires a.topic != b.topic && b.topic != c.topic && a.topic != c.topic && perTopic >= 1 && maxTotal >= 3
    ensures var s := Behind(a, b, perTopic, maxTotal);
      Weak(s) && var s1 := Step(s, Arrive(c)).0;
      Step(s, Arrive(c)).1 == [] && a.topic in s1.ring && Step(s1, Take) == (Behind(a, c, perTopic, maxTotal), [b])
  {
    var s := Behind(a, b, perTopic, maxTotal);
    BehindWeak(a, b, perTopic, maxTotal);
    PushPlain(s, c);
    PushWeak(s, c);
    var s1 := Push(s, c);
    PopEffect(s1);
    assert [] + [c] == [c];
    assert s1.ring == [a.topic, b.topic, c.topic];
    assert WithoutAt(s1.ring, 1) == [a.topic, c.topic];
    assert s1.topics - {b.topic} == map[a.topic := [a], c.topic := [c]];
  }

  function Alternate(n: nat, b: Message, c: Message): Message {
    if n % 2 == 0 then b else c
  }

  lemma AlternateDiffer(n: nat, b: Message, c: Message)
    requires n > 0
    ensures (Alternate(n - 1, b, c) == b && Alternate(n, b, c) == c) ||
      (Alternate(n - 1, b, c) == c && Alternate(n, b, c) == b)
  {
  }

  /** n rounds: two topics arrive in turn, one pop after each arrival. */
  function Rounds(n: nat, b: Message, c: Message): seq<Event> {
    if n == 0 then [] else Rounds(n - 1, b, c) + [Arrive(Alternate(n, b, c)), Take]
  }

  lemma RunSnoc(s: State, es: seq<Event>, e: Event)
    requires Weak(s)
    ensures Run(s, es + [e]) == (Step(Run(s, es).0, e).0, Run(s, es).1 + Step(Run(s, es).0, e).1)
  {
    assert (es + [e])[..|es|] == es;
  }

  lemma WaitsSnoc(s: State, es: seq<Event>, e: Event, t: Topic)
    requires Weak(s) && Waits(s, es, t) && t in Run(s, es + [e]).0.ring && OfTopic(Run(s, es + [e]).1, t) == []
    ensures Waits(s, es + [e], t)
  {
    assert (es + [e])[..|es|] == es;
  }

  /** A run with n pops in which a's topic waits and was never served. */
  ghost predicate Starves(s: State, es: seq<Event>, t: Topic, now: State, n: nat) {
    Weak(s) && Waits(s, es, t) && Run(s, es).0 == now && |Run(s, es).1| == n && OfTopic(Run(s, es).1, t) == []
  }

  /** One more round of such a run. */
  lemma RoundMore(s: State, es: seq<Event>, a: Message, was: Message, next: Message, perTopic: nat, maxTotal: nat,
      n: nat)
    requires a.topic != was.topic && was.topic != next.topic && a.topic != next.topic && perTopic >= 1 && maxTotal >= 3
    requires Starves(s, es, a.topic, Behind(a, was, perTopic, maxTotal), n)
    ensures Starves(s, es + [Arrive(next)] + [Take], a.topic, Behind(a, next, perTopic, maxTotal), n + 1)
  {
    OneRound(a, was, next, perTopic, maxTotal);
    AtFront(a, next, perTopic, maxTotal);
    hide Run, Step, Weak, Waits, OfTopic, Behind;
    var popped := Run(s, es).1;
    RunSnoc(s, es, Arrive(next));
    assert popped + [] == popped;
    WaitsSnoc(s, es, Arrive(next), a.topic);
    RunSnoc(s, es + [Arrive(next)], Take);
    OfTopicConcat(popped, [was], a.topic);
    OfTopicOne(was, a.topic);
    WaitsSnoc(s, es + [Arrive(next)], Take, a.topic);
  }

  /** Starvation: for every n there is a run with n pops, from a reachable inbox,
      in which a topic that has a message all the time is not served once. */
  lemma {:induction false} Starvation(n: nat, a: Message, b: Message, c: Message, perTopic: nat, maxTotal: nat)
    requires a.topic != b.topic && b.topic != c.topic && a.topic != c.topic && perTopic >= 1 && maxTotal >= 3
    ensures Starves(Behind(a, b, perTopic, maxTotal), Rounds(n, b, c), a.topic,
      Behind(a, Alternate(n, b, c), perTopic, maxTotal), n)
  {
    var s := Behind(a, b, perTopic, maxTotal);
    if n == 0 {
      BehindWeak(a, b, perTopic, maxTotal);
      NoEvents(s);
      AtFront(a, b, perTopic, maxTotal);
    } else {
      AlternateDiffer(n, b, c);
      hide Starves, Behind, Alternate;
      Starvation(n - 1, a, b, c, perTopic, maxTotal);
      var was, next := Alternate(n - 1, b, c), Alternate(n, b, c);
      RoundMore(s, Rounds(n - 1, b, c), a, was, next, perTopic, maxTotal, n - 1);
      assert Rounds(n, b, c) == Rounds(n - 1, b, c) + [Arrive(next)] + [Take];
    }
  }

  lemma AtFront(a: Message, b: Message, perTopic: nat, maxTotal: nat)
    ensures a.topic in Behind(a, b, perTopic, maxTotal).ring
  {
  }

  lemma NoEvents(s: State)
    requires Weak(s)
    ensures Run(s, []) == (s, []) && forall t <- s.ring :: Waits(s, [], t)
  {
  }

  lemma FillingUp(a0: Message, a: Message, b: Message, perTopic: nat, maxTotal: nat)
    requires a0.topic == a.topic != b.topic && perTopic >= 2 && maxTotal >= 3
    ensures var s0, t := Empty(perTopic, maxTotal), a.topic;
      var s1 := State(map[t := [a0]], [t], 0, 1, 0, perTopic, maxTotal);
      var s2 := State(map[t := [a0, a]], [t], 0, 2, 0, perTopic, maxTotal);
      var s3 := State(map[t := [a0, a], b.topic := [b]], [t, b.topic], 0, 3, 0, perTopic, maxTotal);
      Push(s0, a0) == s1 && Push(s1, a) == s2 && Push(s2, b) == s3
  {
    var t := a.topic;
    PushPlain(Empty(perTopic, maxTotal), a0);
    assert [] + [a0] == [a0] && [] + [t] == [t];
    PushPlain(State(map[t := [a0]], [t], 0, 1, 0, perTopic, maxTotal), a);
    assert [a0] + [a] == [a0, a];
    PushPlain(State(map[t := [a0, a]], [t], 0, 2, 0, perTopic, maxTotal), b);
    assert [] + [b] == [b] && [t] + [b.topic] == [t, b.topic];
    hide Push;
  }

  lemma FrontServed(a0: Message, a: Message, b: Message, perTopic: nat, maxTotal: nat)
    requires a0.topic == a.topic != b.topic && perTopic >= 2 && maxTotal >= 3
    ensures var s := State(map[a.topic := [a0, a], b.topic := [b]], [a.topic, b.topic], 0, 3, 0, perTopic, maxTotal);
      CanPop(s) && Fifo(s.topics, s.ring[Wrap(s.rr, |s.ring|)]) != [] &&
        Pop(s) == (Behind(a, b, perTopic, maxTotal), a0)
  {
    var s := State(map[a.topic := [a0, a], b.topic := [b]], [a.topic, b.topic], 0, 3, 0, perTopic, maxTotal);
    assert [a0, a][1..] == [a];
    assert s.topics[a.topic := [a]] == map[a.topic := [a], b.topic := [b]];
  }

  ghost predicate Leads(s: State, es: seq<Event>, now: State, popped: seq<Message>) {
    Weak(s) && Run(s, es) == (now, popped)
  }

  lemma LeadsArrive(s: State, es: seq<Event>, now: State, popped: seq<Message>, m: Message)
    requires Leads(s, es, now, popped)
    ensures Leads(s, es + [Arrive(m)], Push(now, m), popped)
  {
    RunSnoc(s, es, Arrive(m));
    assert popped + [] == popped;
  }

  lemma LeadsTake(s: State, es: seq<Event>, now: State, popped: seq<Message>)
    requires Leads(s, es, now, popped) && CanPop(now)
    ensures Fifo(now.topics, now.ring[Wrap(now.rr, |now.ring|)]) != []
    ensures Leads(s, es + [Take], Pop(now).0, popped + [Pop(now).1])
  {
    RunSnoc(s, es, Take);
    assert Weak(Run(s, es).0);
    PopEffect(now);
  }

  /** Four events from an empty inbox lead there. */
  lemma BehindReached(a0: Message, a: Message, b: Message, perTopic: nat, maxTotal: nat)
    requires a0.topic == a.topic != b.topic && perTopic >= 2 && maxTotal >= 3
    ensures Leads(
      Empty(perTopic, maxTotal), [Arrive(a0), Arrive(a), Arrive(b), Take], Behind(a, b, perTopic, maxTotal), [a0])
  {
    var s := Empty(perTopic, maxTotal);
    NoEvents(s);
    FillingUp(a0, a, b, perTopic, maxTotal);
    FrontServed(a0, a, b, perTopic, maxTotal);
    assert Leads(s, [], s, []);
    hide Push, Pop, Leads, Behind, Fifo, CanPop;
    LeadsArrive(s, [], s, [], a0);
    LeadsArrive(s, [] + [Arrive(a0)], Push(s, a0), [], a);
    LeadsArrive(s, [] + [Arrive(a0)] + [Arrive(a)], Push(Push(s, a0), a), [], b);
    LeadsTake(s, [] + [Arrive(a0)] + [Arrive(a)] + [Arrive(b)], Push(Push(Push(s, a0), a), b), []);
    assert [] + [Arrive(a0)] + [Arrive(a)] + [Arrive(b)] + [Take] == [Arrive(a0), Arrive(a), Arrive(b), Take];
  }
}
