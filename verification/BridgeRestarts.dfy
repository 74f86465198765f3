/** Delivery across crashes of the bridge process. What is in memory goes, the
    queue comes back as QueueRuns says: a stop inside one of its calls is a stop
    before or after it, and costs no record unless one is larger than the budget. */
module BridgeRestarts {
  import opened Bytes
  import opened Messages
  import opened Sequences
  import opened BridgeProtocol
  import opened BridgeTheorems
  import Inbox = InboxModel
  import opened InboxTheorems

  /** The state of the running process, and what is known of all of them so far.
      `once` is the sink log without repetitions. */
  datatype World = World(
    s: State,
    once: seq<Message>,
    /** The head of the queue was sent before a crash kept it from being
        acknowledged. */
    again: bool,
    /** Messages sent a second time, and messages sent and then evicted. */
    repeats: nat,
    twice: nat,
    crashes: nat,
    /** Messages coalesced by earlier processes, or in memory when one crashed. */
    gone: nat)

  datatype Move = Act(a: Action) | Crash(lost: nat)

  function HeadSent(w: World): bool {
    (w.again || w.s.place.Acking?) && w.s.queue != []
  }

  /** The queue without a head that was sent already. */
  function Waiting(w: World): seq<Message> {
    if HeadSent(w) then w.s.queue[1..] else w.s.queue
  }

  /** A fresh process over what the queue kept. */
  function Restarted(c: Config, s: State, lost: nat): State
    requires lost <= |s.queue|
  {
    s.(inbox := Inbox.Empty(s.inbox.perTopic, s.inbox.maxTotal), notify := false, posting := 0,
       queue := s.queue[lost..], evicted := s.evicted + lost, sinkUp := true, cancelled := false,
       backoff := c.retryMin, timer := Armed(c.retryMax), probes := 0, place := Top)
  }

  predicate Possible(c: Config, w: World, m: Move) {
    match m
    case Act(a) => Enabled(c, w.s, a)
    case Crash(lost) => lost <= |w.s.queue|
  }

  /** An action that takes records from the front of the queue unacknowledged. */
  predicate DropsHead(a: Action) {
    (a.ReplayUnreadable? || a.Spill?) && a.lost > 0
  }

  ghost function After(c: Config, w: World, m: Move): World
    requires Possible(c, w, m)
  {
    match m
    case Act(a) =>
      var next := w.(s := Next(c, w.s, a));
      if a == ReplaySend(true) then
        if w.again then next.(again := false, repeats := w.repeats + 1) else next.(once := w.once + [w.s.queue[0]])
      else if a == LiveSend(true) then next.(once := w.once + [w.s.place.m])
      else if w.again && DropsHead(a) then next.(again := false, twice := w.twice + 1)
      else next
    case Crash(lost) =>
      w.(s := Restarted(c, w.s, lost), again := HeadSent(w) && lost == 0,
         twice := if HeadSent(w) && lost > 0 then w.twice + 1 else w.twice,
         crashes := w.crashes + 1, gone := w.gone + |Held(w.s)| + w.s.inbox.total + w.s.inbox.dropped)
  }

  /** sink is once with r messages sent a second time, right after the first. */
  ghost predicate Repeats(once: seq<Message>, sink: seq<Message>, r: nat) {
    if sink == [] then once == [] && r == 0
    else
      var n := |sink| - 1;
      once != [] && once[|once| - 1] == sink[n] &&
      (Repeats(once[..|once| - 1], sink[..n], r) || (r > 0 && Repeats(once, sink[..n], r - 1)))
  }

  lemma RepeatsSend(once: seq<Message>, sink: seq<Message>, r: nat, m: Message)
    requires Repeats(once, sink, r)
    ensures Repeats(once + [m], sink + [m], r)
    ensures once != [] && once[|once| - 1] == m ==> Repeats(once, sink + [m], r + 1)
  {
    assert (sink + [m])[..|sink|] == sink && (once + [m])[..|once|] == once;
  }

  /** Without repetitions the two are the same. */
  lemma {:induction false} NoRepeats(once: seq<Message>, sink: seq<Message>)
    requires Repeats(once, sink, 0)
    ensures once == sink
  {
    if sink != [] {
      NoRepeats(once[..|once| - 1], sink[..|sink| - 1]);
      assert once == once[..|once| - 1] + [once[|once| - 1]] && sink == sink[..|sink| - 1] + [sink[|sink| - 1]];
    }
  }

  // ----- What every move keeps ----------------------------------------------------------

  /** Everything that left the inboxes and was not lost, in order of delivery. */
  function Line(w: World): seq<Message> {
    w.once + Waiting(w) + Held(w.s)
  }

  ghost predicate InOrder(w: World, t: Inbox.Topic) {
    Subsequence(Inbox.OfTopic(Line(w), t) + Inbox.Fifo(w.s.inbox.topics, t), Inbox.OfTopic(w.s.arrivals, t))
  }

  /** A head that was sent is the last message sent. */
  predicate HeadKnown(w: World) {
    (w.again || w.s.place.Acking? ==> w.s.queue != [] && w.once != [] && w.once[|w.once| - 1] == w.s.queue[0]) &&
    !(w.again && w.s.place.Acking?)
  }

  /** Every arrival was delivered, coalesced, evicted, lost in a crash, or is
      still there; one that was delivered and evicted counts twice. */
  predicate Accounted(w: World) {
    |w.s.arrivals| + w.twice ==
    |w.once| + |Waiting(w)| + |Held(w.s)| + w.s.inbox.total + w.s.inbox.dropped + w.s.evicted + w.gone
  }

  /** Each crash repeats one message at most. */
  predicate FewRepeats(w: World) {
    w.repeats + w.twice + (if w.again then 1 else 0) <= w.crashes
  }

  ghost predicate Kept(w: World) {
    ReplayFirst(w.s) && HeadKnown(w) && Accounted(w) && FewRepeats(w) && Repeats(w.once, w.s.sink, w.repeats) &&
    forall t :: InOrder(w, t)
  }

  /** Actions that move no message between sink, queue and hand. */
  lemma StillMove(c: Config, s: State, a: Action)
    requires Enabled(c, s, a) && !MovesMessages(a)
    ensures var s' := Next(c, s, a);
      s'.queue == s.queue && s'.sink == s.sink && s'.evicted == s.evicted && !s'.place.Acking? == !s.place.Acking?
    ensures !((a.ServePop? || a.DrainPop?) && Inbox.CanPop(s.inbox)) ==> Held(Next(c, s, a)) == Held(s)
  {
    hide Inbox.Weak, Inbox.Push, Inbox.Pop;
  }

  /** The line only grows by what is popped and only loses what the queue loses. */
  lemma LineStep(c: Config, w: World, a: Action)
    requires Enabled(c, w.s, a) && ReplayFirst(w.s) && HeadKnown(w)
    ensures var w' := After(c, w, Act(a));
      if (a.ServePop? || a.DrainPop?) && Inbox.CanPop(w.s.inbox) then Line(w') == Line(w) + Held(w'.s)
      else Subsequence(Line(w'), Line(w))
  {
    if !MovesMessages(a) {
      StillLine(c, w, a);
    } else if a.ReplaySend? || a.ReplayAck? || a.LiveSend? {
      SentLine(c, w, a);
      SubsequenceReflexive(Line(w));
    } else if a.Spill? {
      SpillLine(c, w, a.lost);
    } else {
      SkipLine(c, w, a.lost);
    }
    hide After, Line, Subsequence, Next, Enabled;
  }

  lemma StillLine(c: Config, w: World, a: Action)
    requires Enabled(c, w.s, a) && ReplayFirst(w.s) && !MovesMessages(a)
    ensures var w' := After(c, w, Act(a));
      if (a.ServePop? || a.DrainPop?) && Inbox.CanPop(w.s.inbox) then Line(w') == Line(w) + Held(w'.s)
      else Subsequence(Line(w'), Line(w))
  {
    StillMove(c, w.s, a);
    SubsequenceReflexive(Line(w));
    if a.ServePop? || a.DrainPop? {
      assert Held(w.s) == [];
    }
    hide Next, Inbox.CanPop, Subsequence;
  }

  lemma SentLine(c: Config, w: World, a: Action)
    requires Enabled(c, w.s, a) && ReplayFirst(w.s) && HeadKnown(w) && (a.ReplaySend? || a.ReplayAck? || a.LiveSend?)
    ensures Line(After(c, w, Act(a))) == Line(w)
  {
    hide Inbox.Weak, Inbox.Push, Inbox.Pop;
    var w' := After(c, w, Act(a));
    if a == ReplaySend(true) && !w.again {
      assert w.once + [w.s.queue[0]] + w.s.queue[1..] == w.once + w.s.queue;
    } else if a == LiveSend(true) {
      assert w.once + [w.s.place.m] + [] + [] == w.once + [] + [w.s.place.m];
    }
  }

  lemma SpillLine(c: Config, w: World, lost: nat)
    requires Enabled(c, w.s, Action.Spill(lost)) && ReplayFirst(w.s) && HeadKnown(w)
    ensures Subsequence(Line(After(c, w, Act(Action.Spill(lost)))), Line(w))
  {
    SpillAfter(c, w, lost);
    var w' := After(c, w, Act(Action.Spill(lost)));
    var all := Waiting(w) + [w.s.place.m];
    var k := if w.again && lost > 0 then lost - 1 else lost;
    hide After, Waiting, Next, Enabled, Subsequence;
    assert w.once + all + [] == Line(w);
    SubsequenceReflexive(Line(w));
    DropInMiddle(w.once, all, k, [], Line(w));
  }

  lemma SpillAfter(c: Config, w: World, lost: nat)
    requires Enabled(c, w.s, Action.Spill(lost)) && ReplayFirst(w.s) && HeadKnown(w)
    ensures Held(w.s) == [w.s.place.m]
    ensures var w', all := After(c, w, Act(Action.Spill(lost))), Waiting(w) + [w.s.place.m];
      var k := if w.again && lost > 0 then lost - 1 else lost;
      k <= |Waiting(w)| && w'.once == w.once && Held(w'.s) == [] && Waiting(w') == all[k..]
  {
    hide Inbox.Weak, Inbox.Push, Inbox.Pop;
    if w.again {
      assert (w.s.queue + [w.s.place.m])[1..] == w.s.queue[1..] + [w.s.place.m];
    }
  }

  lemma SkipLine(c: Config, w: World, lost: nat)
    requires Enabled(c, w.s, ReplayUnreadable(lost)) && ReplayFirst(w.s) && HeadKnown(w)
    ensures Subsequence(Line(After(c, w, Act(ReplayUnreadable(lost)))), Line(w))
  {
    hide Inbox.Weak, Inbox.Push, Inbox.Pop;
    var k := if w.again && lost > 0 then lost - 1 else lost;
    var w' := After(c, w, Act(ReplayUnreadable(lost)));
    assert Waiting(w') == Waiting(w)[k..];
    hide Next, Enabled, Subsequence;
    SubsequenceReflexive(Line(w));
    DropInMiddle(w.once, Waiting(w), k, Held(w.s), Line(w));
  }

  lemma CrashLine(c: Config, w: World, lost: nat)
    requires lost <= |w.s.queue| && HeadKnown(w)
    ensures Subsequence(Line(After(c, w, Crash(lost))), Line(w))
  {
    var k := if HeadSent(w) && lost > 0 then lost - 1 else lost;
    var w' := After(c, w, Crash(lost));
    assert Waiting(w') == Waiting(w)[k..];
    assert Held(w'.s) == [];
    hide Subsequence;
    SubsequenceReflexive(Line(w));
    DropInMiddle(w.once, Waiting(w), k, Held(w.s), Line(w));
    var rest := w.once + Waiting(w)[k..];
    PrefixSubsequence(rest, Held(w.s));
    SubsequenceTransitive(rest, rest + Held(w.s), Line(w));
    assert Line(w') == rest;
  }

  lemma PrefixSubsequence(a: seq<Message>, b: seq<Message>)
    ensures Subsequence(a, a + b)
  {
    hide Subsequence;
    SubsequenceReflexive(a);
    NothingSubsequence(b);
    SubsequenceConcat(a, a, [], b);
    assert a + [] == a;
  }

  lemma NothingSubsequence(b: seq<Message>)
    ensures Subsequence([], b)
  {
  }

  // ----- Order -------------------------------------------------------------------------------

  /** A line that only lost something, in front of the same or an empty FIFO. */
  lemma OrderKept(line: seq<Message>, line': seq<Message>, q: seq<Message>, q': seq<Message>, arrivals: seq<Message>,
      t: Inbox.Topic)
    requires Subsequence(Inbox.OfTopic(line, t) + q, arrivals) && Subsequence(line', line) && Subsequence(q', q)
    ensures Subsequence(Inbox.OfTopic(line', t) + q', arrivals)
  {
    hide Subsequence, Inbox.OfTopic;
    OfTopicSubsequence(line', line, t);
    var a, a' := Inbox.OfTopic(line, t), Inbox.OfTopic(line', t);
    SubsequenceConcat(a', a, q', q);
    SubsequenceTransitive(a' + q', a + q, arrivals);
  }

  lemma ArriveAfter(c: Config, w: World, m: Message)
    ensures var w' := After(c, w, Act(Action.Arrive(m)));
      Line(w') == Line(w) && w'.s.arrivals == w.s.arrivals + [m] && w'.s.inbox == Inbox.Push(w.s.inbox, m)
  {
    hide Inbox.Weak, Inbox.Push;
  }

  lemma ArriveInOrder(c: Config, w: World, m: Message, t: Inbox.Topic)
    requires InOrder(w, t)
    ensures InOrder(After(c, w, Act(Action.Arrive(m))), t)
  {
    ArriveAfter(c, w, m);
    PushFifos(w.s.inbox, m, t);
    hide After, Line, Subsequence, Inbox.Weak, Inbox.Push, Inbox.OfTopic, Inbox.Fifo;
    var q := Inbox.Fifo(w.s.inbox.topics, t);
    Inbox.OfTopicConcat(w.s.arrivals, [m], t);
    Inbox.OfTopicOne(m, t);
    OrderAfterPush(Inbox.OfTopic(Line(w), t), q, Arriving(m, t), Cut(w.s.inbox, m, t), Inbox.OfTopic(w.s.arrivals, t));
  }

  lemma PopInOrder(c: Config, w: World, a: Action, t: Inbox.Topic)
    requires Enabled(c, w.s, a) && ReplayFirst(w.s) && HeadKnown(w) && InOrder(w, t)
    requires (a.ServePop? || a.DrainPop?) && Inbox.CanPop(w.s.inbox)
    ensures InOrder(After(c, w, Act(a)), t)
  {
    LineStep(c, w, a);
    PopFifo(w.s.inbox, t);
    PoppedHeld(c, w.s, a);
    hide Next, Enabled, ReplayFirst, Subsequence, Inbox.Weak, Inbox.Pop, Inbox.CanPop, Inbox.OfTopic, Inbox.Fifo, Line;
    var m := Inbox.Pop(w.s.inbox).1;
    var moved := if m.topic == t then [m] else [];
    Inbox.OfTopicConcat(Line(w), [m], t);
    Inbox.OfTopicOne(m, t);
    Associate(Inbox.OfTopic(Line(w), t), moved, Inbox.Fifo(Inbox.Pop(w.s.inbox).0.topics, t));
  }

  lemma PoppedHeld(c: Config, s: State, a: Action)
    requires Enabled(c, s, a) && (a.ServePop? || a.DrainPop?) && Inbox.CanPop(s.inbox)
    ensures Inbox.Fifo(s.inbox.topics, s.inbox.ring[Inbox.Wrap(s.inbox.rr, |s.inbox.ring|)]) != []
    ensures var s' := Next(c, s, a);
      s'.inbox == Inbox.Pop(s.inbox).0 && s'.arrivals == s.arrivals && Held(s') == [Inbox.Pop(s.inbox).1]
  {
    PopEffect(s.inbox);
    hide Inbox.Weak, Inbox.Pop;
  }

  lemma MoveInOrder(c: Config, w: World, m: Move, t: Inbox.Topic)
    requires Possible(c, w, m) && ReplayFirst(w.s) && HeadKnown(w) && InOrder(w, t)
    ensures InOrder(After(c, w, m), t)
  {
    match m {
      case Act(a) =>
        if a.Arrive? {
          ArriveInOrder(c, w, a.a, t);
        } else if (a.ServePop? || a.DrainPop?) && Inbox.CanPop(w.s.inbox) {
          PopInOrder(c, w, a, t);
        } else {
          LineStep(c, w, a);
          QuietStep(c, w.s, a);
          hide Next, Enabled, ReplayFirst, HeadKnown, Inbox.Weak, Inbox.CanPop, Subsequence, Inbox.OfTopic, Inbox.Fifo,
            Line;
          var q := Inbox.Fifo(w.s.inbox.topics, t);
          SubsequenceReflexive(q);
          OrderKept(Line(w), Line(After(c, w, m)), q, q, Inbox.OfTopic(w.s.arrivals, t), t);
        }
      case Crash(lost) =>
        CrashLine(c, w, lost);
        hide Inbox.Weak, Subsequence, Inbox.OfTopic, Line;
        var q := Inbox.Fifo(w.s.inbox.topics, t);
        NothingSubsequence(q);
        OrderKept(Line(w), Line(After(c, w, m)), q, [], Inbox.OfTopic(w.s.arrivals, t), t);
    }
  }

  // ----- Counts --------------------------------------------------------------------------------

  lemma MoveHead(c: Config, w: World, m: Move)
    requires Possible(c, w, m) && ReplayFirst(w.s) && HeadKnown(w) && FewRepeats(w)
    ensures HeadKnown(After(c, w, m)) && FewRepeats(After(c, w, m))
  {
    match m {
      case Act(a) =>
        if MovesMessages(a) {
          MovedHead(c, w, a);
        } else {
          StillMove(c, w.s, a);
          hide Next;
        }
      case Crash(lost) =>
    }
    hide Enabled, ReplayFirst, HeadKnown, FewRepeats;
  }

  lemma MovedHead(c: Config, w: World, a: Action)
    requires Enabled(c, w.s, a) && MovesMessages(a) && ReplayFirst(w.s) && HeadKnown(w) && FewRepeats(w)
    ensures HeadKnown(After(c, w, Act(a))) && FewRepeats(After(c, w, Act(a)))
  {
    hide Inbox.Weak, Inbox.Push, Inbox.Pop, Inbox.CanPop;
  }

  lemma MoveRepeats(c: Config, w: World, m: Move)
    requires Possible(c, w, m) && ReplayFirst(w.s) && HeadKnown(w) && Repeats(w.once, w.s.sink, w.repeats)
    ensures var w' := After(c, w, m); Repeats(w'.once, w'.s.sink, w'.repeats)
  {
    hide Inbox.Weak, Inbox.Push, Inbox.Pop, Repeats;
    if m.Act? && m.a == ReplaySend(true) {
      RepeatsSend(w.once, w.s.sink, w.repeats, w.s.queue[0]);
    } else if m.Act? && m.a == LiveSend(true) {
      RepeatsSend(w.once, w.s.sink, w.repeats, w.s.place.m);
    }
  }

  lemma MoveAccounted(c: Config, w: World, m: Move)
    requires Possible(c, w, m) && ReplayFirst(w.s) && HeadKnown(w) && Accounted(w)
    ensures Accounted(After(c, w, m))
  {
    match m {
      case Act(a) =>
        if a.Arrive? {
          ArriveCounted(c, w, a.a);
        } else if (a.ServePop? || a.DrainPop?) && Inbox.CanPop(w.s.inbox) {
          PopCounted(c, w, a);
        } else if a.ReplaySend? || a.ReplayAck? || a.LiveSend? {
          SentCounted(c, w, a);
        } else if MovesMessages(a) {
          MovedCounted(c, w, a);
        } else {
          StillMove(c, w.s, a);
          QuietStep(c, w.s, a);
          hide Next;
        }
      case Crash(lost) => CrashCounted(c, w, lost);
    }
    hide Enabled, ReplayFirst, HeadKnown, Accounted, After;
  }

  lemma ArriveCounted(c: Config, w: World, m: Message)
    requires Accounted(w)
    ensures Accounted(After(c, w, Act(Action.Arrive(m))))
  {
    PushCounts(w.s.inbox, m);
    hide Inbox.Weak, Inbox.Push;
  }

  lemma PopCounted(c: Config, w: World, a: Action)
    requires Enabled(c, w.s, a) && ReplayFirst(w.s) && HeadKnown(w) && Accounted(w)
    requires (a.ServePop? || a.DrainPop?) && Inbox.CanPop(w.s.inbox)
    ensures Accounted(After(c, w, Act(a)))
  {
    StillMove(c, w.s, a);
    PoppedHeld(c, w.s, a);
    PopEffect(w.s.inbox);
    assert Held(w.s) == [];
    hide Next, Inbox.Weak, Inbox.Pop, Inbox.CanPop;
  }

  lemma SentCounted(c: Config, w: World, a: Action)
    requires Enabled(c, w.s, a) && (a.ReplaySend? || a.ReplayAck? || a.LiveSend?)
    requires ReplayFirst(w.s) && HeadKnown(w) && Accounted(w)
    ensures Accounted(After(c, w, Act(a)))
  {
    hide Inbox.Weak, Inbox.Push, Inbox.Pop, Inbox.CanPop;
  }

  lemma MovedCounted(c: Config, w: World, a: Action)
    requires Enabled(c, w.s, a) && MovesMessages(a) && !(a.ReplaySend? || a.ReplayAck? || a.LiveSend?)
    requires ReplayFirst(w.s) && HeadKnown(w) && Accounted(w)
    ensures Accounted(After(c, w, Act(a)))
  {
    hide Inbox.Weak, Inbox.Push, Inbox.Pop, Inbox.CanPop;
  }

  lemma CrashCounted(c: Config, w: World, lost: nat)
    requires lost <= |w.s.queue| && HeadKnown(w) && Accounted(w)
    ensures Accounted(After(c, w, Crash(lost)))
  {
    hide Inbox.Weak;
  }

  lemma MoveKept(c: Config, w: World, m: Move)
    requires Kept(w) && Possible(c, w, m)
    ensures Kept(After(c, w, m))
  {
    MoveHead(c, w, m);
    MoveRepeats(c, w, m);
    MoveAccounted(c, w, m);
    if m.Act? {
      ReplayFirstStep(c, w.s, m.a);
    }
    hide InOrder, HeadKnown, FewRepeats, Accounted, Repeats, Next, Enabled;
    forall t ensures InOrder(After(c, w, m), t) {
      MoveInOrder(c, w, m, t);
    }
  }

  // ----- Whole histories -------------------------------------------------------------------------

  predicate Beginning(c: Config, w: World) {
    Initial(c, w.s) && w.s.queue == [] && w.once == [] && !w.again && w.repeats == w.twice == w.crashes == w.gone == 0
  }

  ghost predicate MoveAt(c: Config, worlds: seq<World>, moves: seq<Move>, i: nat) {
    i < |moves| && i + 1 < |worlds| && Possible(c, worlds[i], moves[i]) &&
      worlds[i + 1] == After(c, worlds[i], moves[i])
  }

  ghost predicate Lives(c: Config, worlds: seq<World>, moves: seq<Move>) {
    |worlds| == |moves| + 1 && Beginning(c, worlds[0]) && forall i :: 0 <= i < |moves| ==> MoveAt(c, worlds, moves, i)
  }

  lemma BeginningKept(c: Config, w: World)
    requires Beginning(c, w)
    ensures Kept(w)
  {
    forall t ensures InOrder(w, t) {
      assert Line(w) == [] && Inbox.OfTopic([], t) == [];
    }
  }

  lemma {:induction false} LivesKept(c: Config, worlds: seq<World>, moves: seq<Move>, n: nat)
    requires Lives(c, worlds, moves) && n < |worlds|
    ensures Kept(worlds[n])
  {
    hide Kept, After, Possible;
    if n == 0 {
      BeginningKept(c, worlds[0]);
    } else {
      LivesKept(c, worlds, moves, n - 1);
      assert MoveAt(c, worlds, moves, n - 1);
      MoveKept(c, worlds[n - 1], moves[n - 1]);
    }
  }

  /** Over every history of the bridge, with its process crashing at any point any
      number of times: the sink log is a log without repetitions in which at most
      one message per crash is sent a second time, right after the first; and per
      topic that log, the queue and what is in memory, in this order, are a
      subsequence of the arrivals. */
  lemma DeliveredInOrder(c: Config, worlds: seq<World>, moves: seq<Move>, t: Inbox.Topic)
    requires Lives(c, worlds, moves)
    ensures var w := worlds[|moves|];
      Repeats(w.once, w.s.sink, w.repeats) && w.repeats <= w.crashes &&
      Subsequence(Inbox.OfTopic(w.once + Waiting(w) + Held(w.s), t) + Inbox.Fifo(w.s.inbox.topics, t),
        Inbox.OfTopic(w.s.arrivals, t))
    ensures var w := worlds[|moves|]; w.crashes == 0 ==> w.once == w.s.sink
  {
    LivesKept(c, worlds, moves, |moves|);
    var w := worlds[|moves|];
    assert InOrder(w, t);
    hide Lives, Repeats, Subsequence;
    if w.crashes == 0 {
      NoRepeats(w.once, w.s.sink);
    }
  }

  /** And no arrival is lost in silence: every one was delivered, or counted as
      coalesced or evicted, or was in memory at a crash, or is still queued or in
      memory. At most one per crash counts twice: sent, and then evicted. */
  lemma NothingSkipped(c: Config, worlds: seq<World>, moves: seq<Move>)
    requires Lives(c, worlds, moves)
    ensures var w := worlds[|moves|];
      |w.s.arrivals| + w.twice ==
      |w.once| + |Waiting(w)| + |Held(w.s)| + w.s.inbox.total + w.s.inbox.dropped + w.s.evicted + w.gone &&
      w.repeats + w.twice <= w.crashes
  {
    LivesKept(c, worlds, moves, |moves|);
    hide Lives;
  }
}
