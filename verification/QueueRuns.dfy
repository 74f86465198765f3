/** Whole lives of a durable queue, as values: pushes, acknowledgements and
    restarts from an empty directory, any of them cut off by a crash, and the
    Opens after a crash cut off again, any number of times. */
module QueueRuns {
  import opened Bytes
  import opened Messages
  import opened Sequences
  import opened Records
  import opened Recovery
  import opened CrashSafety
  import opened QueueContract
  import opened QueueModel

  /** The limits Open settled on. */
  datatype Limits = Limits(segmentBytes: nat, maxBytes: nat)

  /** One call. `stops` says where the process stops: the first in the call, each
      further one in the Open that follows; none means that the call completes. */
  datatype Call = Push(m: Message, stops: seq<nat>) | Ack(stops: seq<nat>) | Restart(stops: seq<nat>)

  function RecordLen(m: Message): nat {
    HEADER_LEN + |Body(m)|
  }

  function Pushing(l: Limits, before: Memory, m: Message): (r: Memory)
    requires Shaped(before)
    ensures Shaped(r)
  {
    AfterPush(before, RecordLen(m), Body(m), l.segmentBytes, l.maxBytes)
  }

  function Rolling(l: Limits, before: Memory, m: Message): (r: Memory)
    requires Shaped(before)
    ensures Shaped(r)
  {
    Bounded(Ready(before, RecordLen(m), l.segmentBytes), l.maxBytes)
  }

  /** What is found after a stop in a call, at each of the places where the
      process can stop: before the first file operation, and after each one. */
  function Stopped(l: Limits, before: Memory, c: Call): (r: seq<Memory>)
    requires Shaped(before)
    ensures r != []
  {
    match c
    case Push(m, _) => [before] + PushResults(before, RecordLen(m), Body(m), l.segmentBytes, l.maxBytes)
    case Ack(_) => [before] + AckResults(before, HeadOffset(before))
    case Restart(_) => [before]
  }

  function Completed(l: Limits, before: Memory, c: Call): Memory
    requires Shaped(before)
  {
    match c
    case Push(m, _) => Pushing(l, before, m)
    case Ack(_) => AfterAck(before)
    case Restart(_) => before
  }

  /** What a call makes of a queue. Opens that are stopped change nothing more. */
  function Outcome(l: Limits, before: Memory, c: Call): Memory
    requires Shaped(before)
  {
    if c.stops == [] then Completed(l, before, c)
    else
      var places := Stopped(l, before, c);
      places[c.stops[0] % |places|]
  }

  ghost predicate Step(l: Limits, before: Memory, c: Call, after: Memory) {
    Shaped(before) && after == Outcome(l, before, c)
  }

  /** Put loosely: a call has its full effect, or if it was stopped, perhaps none;
      a push may have rolled, and an Ack may have left an exhausted segment. */
  ghost predicate MayBecome(l: Limits, before: Memory, c: Call, after: Memory) {
    Shaped(before) &&
    match c
    case Push(m, stops) =>
      after == Pushing(l, before, m) || (stops != [] && (after == before || after == Rolling(l, before, m)))
    case Ack(stops) =>
      after == AfterAck(before) ||
      (stops != [] && (after == before ||
        (|before.segs| == 1 && AfterAck(before) == AfterDiscard(before) &&
          after == Exhausted(before, HeadOffset(before)))))
    case Restart(_) => after == before
  }

  lemma OutcomeLoosely(l: Limits, before: Memory, c: Call, after: Memory)
    requires Step(l, before, c, after)
    ensures MayBecome(l, before, c, after)
  {
    if c.stops != [] {
      var places := Stopped(l, before, c);
      var k := c.stops[0] % |places|;
      assert places[k] == after;
      match c {
        case Push(m, _) => PushPlaces(l, before, m, k);
        case Ack(_) => AckPlaces(before, k);
        case Restart(_) =>
      }
      hide Pushing, Rolling, AfterAck, AckResults, PushResults, Exhausted, HeadOffset, Body;
    }
  }

  /** Until the last byte of the record is written a stopped push has rolled at
      most; from then on it has its full effect. */
  lemma PushPlaces(l: Limits, m: Memory, msg: Message, k: nat)
    requires Shaped(m)
    requires k < |Stopped(l, m, Push(msg, []))|
    ensures var n := RecordLen(msg);
      var written := (if Rolls(m.segs, n, l.segmentBytes) then n + 1 else n) + 1;
      Stopped(l, m, Push(msg, []))[k] ==
      if k == 0 then m else if k < written then Rolling(l, m, msg) else Pushing(l, m, msg)
  {
    hide Body, Bounded, Ready, AfterPush, Excess;
  }

  lemma AckPlaces(m: Memory, k: nat)
    requires Shaped(m) && k < 1 + |AckResults(m, HeadOffset(m))|
    ensures var after := ([m] + AckResults(m, HeadOffset(m)))[k];
      after == m || after == AfterAck(m) ||
      (|m.segs| == 1 && AfterAck(m) == AfterDiscard(m) && after == Exhausted(m, HeadOffset(m)))
  {
    NextUnread(m.log);
    hide HeadOffset, Exhausted, PeekOutcome;
  }

  ghost predicate StepAt(l: Limits, calls: seq<Call>, mems: seq<Memory>, i: nat) {
    i < |calls| && i + 1 < |mems| && Step(l, mems[i], calls[i], mems[i + 1])
  }

  ghost predicate Run(l: Limits, calls: seq<Call>, mems: seq<Memory>) {
    |mems| == |calls| + 1 && mems[0] == Fresh && forall i :: 0 <= i < |calls| ==> StepAt(l, calls, mems, i)
  }

  // ----- What every state of a run satisfies ---------------------------------------

  ghost predicate Sound(l: Limits, w: nat, m: Memory) {
    Tidy(m, l.segmentBytes, w) && TailInStep(m) && (Size(m) <= l.maxBytes || |m.segs| == 1) &&
    forall b <- Unread(m) :: Readable(b) && Decode(b).Ok?
  }

  /** Pushed records have at most w bytes and a body every reader accepts. */
  ghost predicate UpTo(calls: seq<Call>, w: nat) {
    forall c <- calls :: c.Push? ==> RecordLen(c.m) <= w && Readable(Body(c.m))
  }

  lemma SoundFresh(l: Limits, w: nat)
    ensures Sound(l, w, Fresh)
  {
    FlattenEmpties(Fresh.log);
  }

  lemma TailBounded(m: Memory, maxBytes: nat)
    requires Shaped(m) && TailInStep(m)
    ensures TailInStep(Bounded(m, maxBytes))
  {
  }

  lemma SoundPush(l: Limits, w: nat, m: Memory, msg: Message)
    requires Sound(l, w, m) && l.segmentBytes <= l.maxBytes && RecordLen(msg) <= w && Readable(Body(msg))
    ensures Sound(l, w, Pushing(l, m, msg))
  {
    hide Readable, Decode, Body, Filled, Placed, PlacedLog, Excess, Flatten, TotalBytes;
    DecodeBody(msg);
    var n := RecordLen(msg);
    TidyPush(m, Body(msg), l.segmentBytes, l.maxBytes, w);
    PushMeaning(m, n, Body(msg), l.segmentBytes, l.maxBytes);
    TailFiled(m, n, Body(msg), l.segmentBytes);
    TailBounded(Filed(m, n, Body(msg), l.segmentBytes), l.maxBytes);
  }

  lemma TailFiled(m: Memory, n: nat, body: bytes, segmentBytes: nat)
    requires Shaped(m) && n > 0
    ensures TailInStep(Filed(m, n, body, segmentBytes))
  {
  }

  /** A crash right after the roll: nothing changes, unless a lone segment above
      the budget holds unread records; then these are lost. */
  lemma RollingMeaning(l: Limits, m: Memory, msg: Message)
    requires Shaped(m) && l.segmentBytes <= l.maxBytes && (Size(m) <= l.maxBytes || |m.segs| == 1)
    ensures var r := Rolling(l, m, msg);
      Unread(r) == (if Size(m) <= l.maxBytes then Unread(m) else []) &&
      (Size(r) <= l.maxBytes || |r.segs| == 1)
  {
    ReadyBounded(m, RecordLen(msg), l.segmentBytes, l.maxBytes);
    hide RecordLen, Ready, Bounded, Flatten, TotalBytes;
  }

  lemma ReadyBounded(m: Memory, n: nat, segmentBytes: nat, maxBytes: nat)
    requires Shaped(m) && n > 0 && segmentBytes <= maxBytes && (Size(m) <= maxBytes || |m.segs| == 1)
    ensures var r := Bounded(Ready(m, n, segmentBytes), maxBytes);
      Unread(r) == (if Size(m) <= maxBytes then Unread(m) else []) && (Size(r) <= maxBytes || |r.segs| == 1)
  {
    ReadyMeaning(m, n, segmentBytes);
    hide Ready, Bounded, Flatten, TotalBytes;
    var ready := Ready(m, n, segmentBytes);
    BoundedEnough(ready, maxBytes);
    if Size(m) <= maxBytes {
      WithinBound(ready, maxBytes);
    } else {
      RolledAway(m, ready, maxBytes);
    }
  }

  /** A roll by itself changes neither the records nor the bytes. */
  lemma ReadyMeaning(m: Memory, n: nat, segmentBytes: nat)
    requires Shaped(m)
    ensures var ready := Ready(m, n, segmentBytes);
      Unread(ready) == Unread(m) && Size(ready) == Size(m)
    ensures n > 0 && |m.segs| == 1 && Size(m) >= segmentBytes && Size(m) > 0 ==>
      var s := Segment(m.segs[0].id + 1, 0, 0);
      Ready(m, n, segmentBytes) == Memory(m.segs + [s], m.log + [[]])
  {
    PlacedContents(m.segs, m.log, n, segmentBytes, []);
    TotalsSnoc(m.segs, Segment(m.segs[|m.segs| - 1].id + 1, 0, 0));
    LoneTotal(m.segs);
  }

  lemma RolledAway(m: Memory, ready: Memory, maxBytes: nat)
    requires Shaped(m) && |m.segs| == 1 && Size(m) > maxBytes
    requires var s := Segment(m.segs[0].id + 1, 0, 0); ready == Memory(m.segs + [s], m.log + [[]])
    ensures Bounded(ready, maxBytes) == Memory([Segment(m.segs[0].id + 1, 0, 0)], [[]])
    ensures Unread(Bounded(ready, maxBytes)) == []
  {
    var s := Segment(m.segs[0].id + 1, 0, 0);
    TotalsSnoc(m.segs, s);
    assert ready.segs[1..] == [s] && ready.log[1..] == [[]];
    assert Excess([s], maxBytes) == 0;
    FlattenEmpties(ready.log[1..]);
  }

  lemma SoundRolling(l: Limits, w: nat, m: Memory, msg: Message)
    requires Sound(l, w, m) && l.segmentBytes <= l.maxBytes
    ensures Sound(l, w, Rolling(l, m, msg))
  {
    hide Readable, Decode, Filled, Excess, Flatten, Body, TotalBytes;
    RollingMeaning(l, m, msg);
    var ready := Ready(m, RecordLen(msg), l.segmentBytes);
    TidyReady(m, RecordLen(msg), l.segmentBytes, w);
    TidySuffix(ready, Excess(ready.segs, l.maxBytes), l.segmentBytes, w);
    TailBounded(ready, l.maxBytes);
  }

  /** Ack on records the queue wrote itself: it takes exactly the one Peek shows.
      If Peek shows none although some are unread, the head segment is
      exhausted, and it alone goes. */
  lemma AckMeaning(m: Memory)
    requires Shaped(m) && forall b <- Unread(m) :: Readable(b) && Decode(b).Ok?
    ensures match PeekOutcome(m.log)
      case Nothing => Unread(m) == [] && AfterAck(m) == m
      case Next(msg) => Acked(Unread(m), Unread(AfterAck(m))) && Decode(Unread(m)[0]) == Ok(msg)
      case Unreadable(_) =>
        Unread(m) != [] && m.log[0] == [] && |m.segs| > 1 &&
        Unread(AfterAck(m)) == Unread(m) && AfterAck(m) == Memory(m.segs[1..], m.log[1..])
  {
    if m.log[0] != [] {
      assert Unread(m)[0] == m.log[0][0];
      FlattenAdvance(m.log);
      LoneLog(m);
    } else if |m.log| == 1 {
      FlattenEmpties(m.log);
    }
  }

  lemma LoneLog(m: Memory)
    requires Shaped(m)
    ensures |m.segs| == 1 ==> Unread(AfterDiscard(m)) == [] == Flatten(m.log[1..])
  {
    FlattenEmpties(Fresh.log);
  }

  lemma SoundAck(l: Limits, w: nat, m: Memory)
    requires Sound(l, w, m)
    ensures Sound(l, w, AfterAck(m))
  {
    hide Readable, Decode, Filled, Flatten, PeekOutcome;
    TidyAck(m, l.segmentBytes, w);
    AckMeaning(m);
    AckSize(m);
    TailAck(m);
  }

  lemma AckSize(m: Memory)
    requires Shaped(m)
    ensures Size(AfterAck(m)) <= Size(m) && (|m.segs| == 1 ==> |AfterAck(m).segs| == 1)
    ensures PeekOutcome(m.log).Next? ==> m.log[0] != []
  {
    TotalTail(m.segs);
    NextUnread(m.log);
    if m.log[0] != [] && m.log[0][1..] != [] {
      assert AfterAdvance(m).segs[1..] == m.segs[1..];
    }
    hide PeekOutcome;
    assert TotalBytes([Segment(m.segs[0].id, 0, 0)]) == 0;
  }

  lemma TailAck(m: Memory)
    requires Shaped(m) && TailInStep(m)
    ensures TailInStep(AfterAck(m))
  {
    NextUnread(m.log);
    hide PeekOutcome;
  }

  lemma ExhaustedUnread(m: Memory, off: nat)
    requires Shaped(m)
    ensures Unread(Exhausted(m, off)) == []
  {
    FlattenEmpties(Fresh.log);
  }

  lemma SoundExhausted(l: Limits, w: nat, m: Memory)
    requires Sound(l, w, m) && |m.segs| == 1
    ensures Sound(l, w, Exhausted(m, HeadOffset(m)))
  {
    TidyExhausted(m, l.segmentBytes, w);
    FlattenEmpties(Fresh.log);
  }

  /** Every call keeps the queue sound. */
  lemma StepSound(l: Limits, w: nat, m: Memory, c: Call, m': Memory)
    requires Sound(l, w, m) && MayBecome(l, m, c, m') && l.segmentBytes <= l.maxBytes && UpTo([c], w)
    ensures Sound(l, w, m')
  {
    hide Sound, Pushing, Rolling, AfterAck, Exhausted, HeadOffset;
    assert c in [c];
    match c {
      case Push(msg, _) =>
        SoundPush(l, w, m, msg);
        SoundRolling(l, w, m, msg);
      case Ack(_) =>
        SoundAck(l, w, m);
        if m' != AfterAck(m) && m' != m {
          SoundExhausted(l, w, m);
        }
      case Restart(_) =>
    }
  }

  /** The calls and their stops determine the run. */
  lemma {:induction false} RunUnique(l: Limits, calls: seq<Call>, a: seq<Memory>, b: seq<Memory>, i: nat)
    requires Run(l, calls, a) && Run(l, calls, b) && i <= |calls|
    ensures a[..i + 1] == b[..i + 1]
  {
    hide Outcome, Step;
    if i > 0 {
      RunUnique(l, calls, a, b, i - 1);
      assert StepAt(l, calls, a, i - 1) && StepAt(l, calls, b, i - 1);
      assert a[i - 1] == a[..i][i - 1] && b[i - 1] == b[..i][i - 1];
      OneOutcome(l, a[i - 1], calls[i - 1], a[i], b[i]);
      assert a[..i + 1] == a[..i] + [a[i]] && b[..i + 1] == b[..i] + [b[i]];
    }
  }

  lemma OneOutcome(l: Limits, before: Memory, c: Call, a: Memory, b: Memory)
    requires Step(l, before, c, a) && Step(l, before, c, b)
    ensures a == b
  {
  }

  /** Each step of a run, put loosely. */
  lemma RunStep(l: Limits, calls: seq<Call>, mems: seq<Memory>, i: nat)
    requires Run(l, calls, mems) && i < |calls|
    ensures MayBecome(l, mems[i], calls[i], mems[i + 1])
  {
    assert StepAt(l, calls, mems, i);
    OutcomeLoosely(l, mems[i], calls[i], mems[i + 1]);
  }

  lemma {:induction false} RunSound(l: Limits, w: nat, calls: seq<Call>, mems: seq<Memory>, i: nat)
    requires Run(l, calls, mems) && i < |mems| && l.segmentBytes <= l.maxBytes && UpTo(calls, w)
    ensures Sound(l, w, mems[i])
  {
    RunShape(l, calls, mems);
    hide Run, Sound, MayBecome, UpTo;
    SoundFresh(l, w);
    if i > 0 {
      RunSound(l, w, calls, mems, i - 1);
      UpToOne(calls, w, i - 1);
      RunStep(l, calls, mems, i - 1);
      StepSound(l, w, mems[i - 1], calls[i - 1], mems[i]);
    }
  }

  /** The byte bound after every push, acknowledgement and Open, crashes
      included: within the budget, unless one segment is left and holds a single
      record larger than the budget. Records of at most maxBytes keep it always,
      and with records of at most segmentBytes no segment outgrows that. */
  lemma RunBound(l: Limits, w: nat, calls: seq<Call>, mems: seq<Memory>, i: nat)
    requires Run(l, calls, mems) && i < |mems| && l.segmentBytes <= l.maxBytes && UpTo(calls, w)
    ensures var m := mems[i];
      Size(m) > l.maxBytes ==>
        |m.segs| == 1 && l.maxBytes < w && |Unread(m)| == 1 && Size(m) == HEADER_LEN + |Unread(m)[0]|
    ensures w <= l.segmentBytes ==> Small(mems[i].segs, l.segmentBytes)
  {
    RunSound(l, w, calls, mems, i);
    TidyBudget(mems[i], l.segmentBytes, l.maxBytes, w);
  }

  // ----- Where the records go ------------------------------------------------------------

  /** The records stored so far, in order, and how many of them left: by Ack, by
      eviction, and by the one crash that loses some. */
  datatype Tally = Tally(stored: seq<bytes>, acked: nat, evicted: nat, lost: nat)

  function Gone(t: Tally): nat {
    t.acked + t.evicted + t.lost
  }

  ghost function Counted(l: Limits, t: Tally, m: Memory, c: Call, m': Memory): Tally
    requires Shaped(m)
  {
    match c
    case Push(msg, _) =>
      if m' == Pushing(l, m, msg) then
        t.(stored := t.stored + [Body(msg)],
           evicted := t.evicted + Evicted(m, RecordLen(msg), Body(msg), l.segmentBytes, l.maxBytes))
      else if Unread(m') == Unread(m) then t
      else t.(lost := t.lost + |Unread(m)|)
    case Ack(_) => if Unread(m') == Unread(m) then t else t.(acked := t.acked + 1)
    case Restart(_) => t
  }

  ghost function TallyOf(l: Limits, calls: seq<Call>, mems: seq<Memory>, n: nat): Tally
    requires Run(l, calls, mems) && n <= |calls|
  {
    if n == 0 then Tally([], 0, 0, 0) else
    assert StepAt(l, calls, mems, n - 1);
    Counted(l, TallyOf(l, calls, mems, n - 1), mems[n - 1], calls[n - 1], mems[n])
  }

  /** A crash that loses records hits a push to a queue above its budget. */
  predicate Loses(l: Limits, m: Memory, c: Call) {
    c.Push? && c.stops != [] && Size(m) > l.maxBytes && Unread(m) != []
  }

  /** One call: the unread records stay those stored, less those gone from the
      front. Evictions happen only in a push and only above the budget. */
  lemma StepTally(l: Limits, w: nat, t: Tally, m: Memory, c: Call, m': Memory)
    requires Sound(l, w, m) && MayBecome(l, m, c, m') && l.segmentBytes <= l.maxBytes && UpTo([c], w)
    requires Balanced(t, m)
    ensures var t' := Counted(l, t, m, c, m');
      Balanced(t', m') &&
      (t'.lost > t.lost ==> Loses(l, m, c)) &&
      (t'.evicted > t.evicted ==> c.Push? && Size(m) + RecordLen(c.m) > l.maxBytes) &&
      (t'.acked > t.acked ==> c.Ack?)
  {
    hide Sound, Counted, Loses;
    SoundShape(l, w, m);
    match c {
      case Push(msg, stops) => PushCounted(l, w, t, m, msg, stops, m');
      case Ack(stops) => AckCounted(l, w, t, m, stops, m');
      case Restart(stops) => RestartCounted(l, t, m, stops);
    }
  }

  lemma SoundShape(l: Limits, w: nat, m: Memory)
    requires Sound(l, w, m)
    ensures Shaped(m) && TailInStep(m) && (Size(m) <= l.maxBytes || |m.segs| == 1)
    ensures forall b <- Unread(m) :: Readable(b) && Decode(b).Ok?
  {
  }

  lemma RestartCounted(l: Limits, t: Tally, m: Memory, stops: seq<nat>)
    requires Shaped(m)
    ensures Counted(l, t, m, Restart(stops), m) == t
  {
  }

  lemma PushCounted(l: Limits, w: nat, t: Tally, m: Memory, msg: Message, stops: seq<nat>, m': Memory)
    requires Sound(l, w, m) && MayBecome(l, m, Push(msg, stops), m') && l.segmentBytes <= l.maxBytes
    requires Gone(t) <= |t.stored| && Unread(m) == t.stored[Gone(t)..]
    ensures Shaped(m)
    ensures var t' := Counted(l, t, m, Push(msg, stops), m');
      Gone(t') <= |t'.stored| && Unread(m') == t'.stored[Gone(t')..] && t'.acked == t.acked &&
      (t'.lost > t.lost ==> Loses(l, m, Push(msg, stops))) &&
      (t'.evicted > t.evicted ==> Size(m) + RecordLen(msg) > l.maxBytes)
  {
    hide Sound, Step, MayBecome, Loses, Unread, Readable, Decode, Body, RecordLen, Pushing, Evicted, Size, TailInStep;
    SoundShape(l, w, m);
    PushOutcomes(l, m, msg, stops, m');
    if m' == Pushing(l, m, msg) {
      PushTally(t.stored, Gone(t), Body(msg), Evicted(m, RecordLen(msg), Body(msg), l.segmentBytes, l.maxBytes));
    } else {
      assert t.stored[|t.stored|..] == [];
    }
  }

  /** What a push, interrupted or not, makes of the unread records. */
  lemma PushOutcomes(l: Limits, m: Memory, msg: Message, stops: seq<nat>, m': Memory)
    requires Shaped(m) && TailInStep(m) && (Size(m) <= l.maxBytes || |m.segs| == 1) && l.segmentBytes <= l.maxBytes
    requires MayBecome(l, m, Push(msg, stops), m')
    ensures var lost := Evicted(m, RecordLen(msg), Body(msg), l.segmentBytes, l.maxBytes);
      if m' == Pushing(l, m, msg) then
        Pushed(Unread(m), Body(msg), Unread(m'), lost) && (lost > 0 ==> Size(m) + RecordLen(msg) > l.maxBytes)
      else
        Unread(m') == Unread(m) || (Unread(m') == [] && Loses(l, m, Push(msg, stops)))
  {
    PushMeaning(m, RecordLen(msg), Body(msg), l.segmentBytes, l.maxBytes);
    RollingMeaning(l, m, msg);
    hide RecordLen, Body, Flatten, TotalBytes, TailInStep, Evicted, Rolling, AfterPush, Small;
  }

  lemma AckCounted(l: Limits, w: nat, t: Tally, m: Memory, stops: seq<nat>, m': Memory)
    requires Sound(l, w, m) && MayBecome(l, m, Ack(stops), m')
    requires Gone(t) <= |t.stored| && Unread(m) == t.stored[Gone(t)..]
    ensures Shaped(m)
    ensures var t' := Counted(l, t, m, Ack(stops), m');
      Gone(t') <= |t'.stored| && Unread(m') == t'.stored[Gone(t')..] && t'.lost == t.lost && t'.evicted == t.evicted
  {
    SoundShape(l, w, m);
    AckTakes(m, stops, l, m');
    hide Sound, Readable, Decode, Flatten, Step;
    assert Unread(m) != [] ==> t.stored[Gone(t)..][1..] == t.stored[Gone(t) + 1..];
  }

  /** Interrupted or not, Ack takes the first unread record or none. */
  lemma AckTakes(m: Memory, stops: seq<nat>, l: Limits, m': Memory)
    requires Shaped(m) && MayBecome(l, m, Ack(stops), m') && forall b <- Unread(m) :: Readable(b) && Decode(b).Ok?
    ensures Unread(m') == Unread(m) || (Unread(m) != [] && Unread(m') == Unread(m)[1..])
  {
    AckMeaning(m);
    if m' != AfterAck(m) && m' != m {
      ExhaustedUnread(m, HeadOffset(m));
      LoneLog(m);
    }
    hide Readable, Decode, Flatten, PeekOutcome, Exhausted, AfterDiscard;
  }

  lemma PushTally(stored: seq<bytes>, gone: nat, body: bytes, lost: nat)
    requires gone <= |stored| && lost <= |stored| - gone
    ensures (stored[gone..] + [body])[lost..] == (stored + [body])[gone + lost..]
  {
  }

  /** The records of every completed push and of some interrupted ones, in order. */
  ghost predicate Stored(calls: seq<Call>, stored: seq<bytes>) {
    if calls == [] then stored == [] else
    var earlier, c := calls[..|calls| - 1], calls[|calls| - 1];
    if !c.Push? then Stored(earlier, stored)
    else
      (stored != [] && stored[|stored| - 1] == Body(c.m) && Stored(earlier, stored[..|stored| - 1])) ||
      (c.stops != [] && Stored(earlier, stored))
  }

  lemma {:induction false} RunStored(l: Limits, calls: seq<Call>, mems: seq<Memory>, n: nat)
    requires Run(l, calls, mems) && n <= |calls|
    ensures Stored(calls[..n], TallyOf(l, calls, mems, n).stored)
  {
    hide Run, TallyOf, Stored;
    if n == 0 {
      TallyStart(l, calls, mems);
      NoneStored();
    } else {
      RunStored(l, calls, mems, n - 1);
      StoredStep(l, calls, mems, n);
    }
  }

  lemma StoredStep(l: Limits, calls: seq<Call>, mems: seq<Memory>, n: nat)
    requires Run(l, calls, mems) && 0 < n <= |calls| && Stored(calls[..n - 1], TallyOf(l, calls, mems, n - 1).stored)
    ensures Stored(calls[..n], TallyOf(l, calls, mems, n).stored)
  {
    RunShape(l, calls, mems);
    hide Run, TallyOf, MayBecome, Counted, Stored;
    RunStep(l, calls, mems, n - 1);
    TallyStep(l, calls, mems, n);
    OneCallMore(calls, n);
    CountedStored(l, calls[..n - 1], TallyOf(l, calls, mems, n - 1), mems[n - 1], calls[n - 1], mems[n]);
  }

  lemma OneCallMore(calls: seq<Call>, n: nat)
    requires 0 < n <= |calls|
    ensures calls[..n] == calls[..n - 1] + [calls[n - 1]]
  {
  }

  lemma NoneStored()
    ensures Stored([], [])
  {
  }

  lemma CountedStored(l: Limits, calls: seq<Call>, t: Tally, m: Memory, c: Call, m': Memory)
    requires Stored(calls, t.stored) && MayBecome(l, m, c, m')
    ensures Shaped(m) && Stored(calls + [c], Counted(l, t, m, c, m').stored)
  {
    hide Pushing, Rolling, Body, Evicted, AfterAck;
    assert (calls + [c])[..|calls|] == calls;
    if c.Push? {
      assert (t.stored + [Body(c.m)])[..|t.stored|] == t.stored;
    }
  }

  /** A completed Ack takes exactly the record Peek shows, which is the oldest
      one stored and not gone yet; when Peek shows none it takes nothing, and an
      exhausted head segment goes. */
  lemma RunAck(l: Limits, w: nat, calls: seq<Call>, mems: seq<Memory>, i: nat)
    requires Run(l, calls, mems) && i < |calls| && calls[i] == Ack([]) && l.segmentBytes <= l.maxBytes && UpTo(calls, w)
    ensures Shaped(mems[i])
    ensures var t, t' := TallyOf(l, calls, mems, i), TallyOf(l, calls, mems, i + 1);
      match PeekOutcome(mems[i].log)
      case Nothing => t' == t && Unread(mems[i]) == [] && mems[i + 1] == mems[i]
      case Next(msg) =>
        t' == t.(acked := t.acked + 1) && Unread(mems[i + 1]) == Unread(mems[i])[1..] &&
        Gone(t) < |t.stored| && Decode(t.stored[Gone(t)]) == Ok(msg)
      case Unreadable(_) =>
        t' == t && Unread(mems[i + 1]) == Unread(mems[i]) && |mems[i + 1].segs| == |mems[i].segs| - 1
  {
    RunSound(l, w, calls, mems, i);
    RunTally(l, w, calls, mems, i);
    SoundShape(l, w, mems[i]);
    AckMeaning(mems[i]);
    assert StepAt(l, calls, mems, i);
    TallyStep(l, calls, mems, i + 1);
    hide Sound, Run, StepAt, TallyOf, Decode, Readable, PeekOutcome, AfterAck, Flatten;
  }

  /** What is unread is what was stored and is not gone. */
  ghost predicate Balanced(t: Tally, m: Memory) {
    Gone(t) <= |t.stored| && Unread(m) == t.stored[Gone(t)..]
  }

  /** One of the first n calls is a push cut off above the budget. */
  ghost predicate SomeLoses(l: Limits, calls: seq<Call>, mems: seq<Memory>, n: nat)
    requires n <= |calls| && n <= |mems|
  {
    exists i :: 0 <= i < n && Loses(l, mems[i], calls[i])
  }

  lemma LosesMore(l: Limits, calls: seq<Call>, mems: seq<Memory>, n: nat)
    requires n < |calls| && n < |mems|
    ensures SomeLoses(l, calls, mems, n) || Loses(l, mems[n], calls[n]) ==> SomeLoses(l, calls, mems, n + 1)
  {
    hide Loses;
  }

  /** Over every run, with crashes wherever they hit: what is unread is exactly
      what was stored, in order, less what was acknowledged, what pushes evicted,
      and what crashes in pushes above the budget lost. */
  lemma {:induction false} RunTally(l: Limits, w: nat, calls: seq<Call>, mems: seq<Memory>, n: nat)
    requires Run(l, calls, mems) && n <= |calls| && l.segmentBytes <= l.maxBytes && UpTo(calls, w)
    ensures var t := TallyOf(l, calls, mems, n);
      Balanced(t, mems[n]) && (t.lost > 0 ==> SomeLoses(l, calls, mems, n))
  {
    hide Run, TallyOf, UpTo, SomeLoses, Balanced;
    if n == 0 {
      TallyStart(l, calls, mems);
      RunShape(l, calls, mems);
    } else {
      RunTally(l, w, calls, mems, n - 1);
      RunShape(l, calls, mems);
      TallyBalanced(l, w, calls, mems, n);
    }
  }

  lemma TallyBalanced(l: Limits, w: nat, calls: seq<Call>, mems: seq<Memory>, n: nat)
    requires Run(l, calls, mems) && 0 < n <= |calls| && l.segmentBytes <= l.maxBytes && UpTo(calls, w)
    requires |mems| == |calls| + 1
    requires var t := TallyOf(l, calls, mems, n - 1);
      Balanced(t, mems[n - 1]) && (t.lost > 0 ==> SomeLoses(l, calls, mems, n - 1))
    ensures var t := TallyOf(l, calls, mems, n);
      Balanced(t, mems[n]) && (t.lost > 0 ==> SomeLoses(l, calls, mems, n))
  {
    UpToOne(calls, w, n - 1);
    hide Run, TallyOf, UpTo, Sound, Loses, Counted, MayBecome, SomeLoses, Balanced, Size, Unread, Gone, RecordLen;
    RunSound(l, w, calls, mems, n - 1);
    RunStep(l, calls, mems, n - 1);
    TallyStep(l, calls, mems, n);
    LosesMore(l, calls, mems, n - 1);
    StepTally(l, w, TallyOf(l, calls, mems, n - 1), mems[n - 1], calls[n - 1], mems[n]);
  }

  lemma UpToOne(calls: seq<Call>, w: nat, i: nat)
    requires UpTo(calls, w) && i < |calls|
    ensures UpTo([calls[i]], w)
  {
    assert calls[i] in calls;
  }

  lemma RunShape(l: Limits, calls: seq<Call>, mems: seq<Memory>)
    requires Run(l, calls, mems)
    ensures |mems| == |calls| + 1 && mems[0] == Fresh
  {
    hide Step;
  }

  lemma TallyStart(l: Limits, calls: seq<Call>, mems: seq<Memory>)
    requires Run(l, calls, mems)
    ensures Balanced(TallyOf(l, calls, mems, 0), mems[0]) && TallyOf(l, calls, mems, 0) == Tally([], 0, 0, 0)
  {
    hide StepAt;
    BalancedFresh();
  }

  lemma BalancedFresh()
    ensures Balanced(Tally([], 0, 0, 0), Fresh)
  {
    FlattenEmpties(Fresh.log);
  }

  lemma TallyStep(l: Limits, calls: seq<Call>, mems: seq<Memory>, n: nat)
    requires Run(l, calls, mems) && 0 < n <= |calls|
    ensures Shaped(mems[n - 1])
    ensures TallyOf(l, calls, mems, n) == Counted(l, TallyOf(l, calls, mems, n - 1), mems[n - 1], calls[n - 1], mems[n])
  {
    hide Step, MayBecome, Counted;
    RunStep(l, calls, mems, n - 1);
    BecomesShaped(l, mems[n - 1], calls[n - 1], mems[n]);
  }

  lemma BecomesShaped(l: Limits, before: Memory, c: Call, after: Memory)
    requires MayBecome(l, before, c, after)
    ensures Shaped(before)
  {
  }

  /** With records no larger than the budget no crash ever loses one. */
  lemma NothingLost(l: Limits, calls: seq<Call>, mems: seq<Memory>, n: nat)
    requires Run(l, calls, mems) && n <= |calls| && l.segmentBytes <= l.maxBytes && UpTo(calls, l.maxBytes)
    ensures var t := TallyOf(l, calls, mems, n);
      t.lost == 0 && t.acked + t.evicted <= |t.stored| && Unread(mems[n]) == t.stored[t.acked + t.evicted..]
  {
    RunTally(l, l.maxBytes, calls, mems, n);
    NoneLoses(l, calls, mems, n);
    hide Run, TallyOf, UpTo, SomeLoses;
  }

  lemma NoneLoses(l: Limits, calls: seq<Call>, mems: seq<Memory>, n: nat)
    requires Run(l, calls, mems) && n <= |calls| && l.segmentBytes <= l.maxBytes && UpTo(calls, l.maxBytes)
    ensures !SomeLoses(l, calls, mems, n)
  {
    hide Run, UpTo;
    RunShape(l, calls, mems);
    forall i | 0 <= i < n ensures !Loses(l, mems[i], calls[i]) {
      RunBound(l, l.maxBytes, calls, mems, i);
    }
  }

  /** An interrupted push can leave neither the old records nor the new ones
      exactly when the queue was above its budget with records unread. */
  lemma LossExactly(l: Limits, w: nat, m: Memory, msg: Message)
    requires Sound(l, w, m) && l.segmentBytes <= l.maxBytes
    ensures
      (exists m', stops ::
        Step(l, m, Push(msg, stops), m') && Unread(m') != Unread(m) && Unread(m') != Unread(Pushing(l, m, msg))) <==>
      Size(m) > l.maxBytes && Unread(m) != []
  {
    SoundShape(l, w, m);
    hide Sound, Step, MayBecome, Pushing, Flatten, TotalBytes, TailInStep;
    forall m', stops |
      Step(l, m, Push(msg, stops), m') && Unread(m') != Unread(m) && Unread(m') != Unread(Pushing(l, m, msg))
      ensures Size(m) > l.maxBytes && Unread(m) != []
    {
      OutcomeLoosely(l, m, Push(msg, stops), m');
      PushOutcomes(l, m, msg, stops, m');
    }
    if Size(m) > l.maxBytes && Unread(m) != [] {
      RollingLoses(l, m, msg);
    }
  }

  /** The first place after the start of a push is the roll. */
  lemma RollingLoses(l: Limits, m: Memory, msg: Message)
    requires Shaped(m) && TailInStep(m) && l.segmentBytes <= l.maxBytes && |m.segs| == 1 && Size(m) > l.maxBytes
    ensures Step(l, m, Push(msg, [1]), Rolling(l, m, msg)) && Unread(Rolling(l, m, msg)) == [] &&
      Unread(Pushing(l, m, msg)) != []
  {
    RollingMeaning(l, m, msg);
    KeepsNew(l, m, msg);
    AfterRoll(l, m, msg);
    hide Rolling, Pushing, Outcome;
  }

  lemma AfterRoll(l: Limits, m: Memory, msg: Message)
    requires Shaped(m)
    ensures Outcome(l, m, Push(msg, [1])) == Rolling(l, m, msg)
  {
    PlacesOfPush(l, m, msg);
    PushPlaces(l, m, msg, 1);
    hide Rolling, Pushing, Stopped, RecordLen;
    StopAt(l, m, Push(msg, [1]), 1);
  }

  lemma StopAt(l: Limits, m: Memory, c: Call, k: nat)
    requires Shaped(m) && c.stops == [k] && k < |Stopped(l, m, c)|
    ensures Outcome(l, m, c) == Stopped(l, m, c)[k]
  {
    hide Stopped;
    var n := |Stopped(l, m, c)|;
    assert k % n == k by { SmallRemainder(k, n); }
  }

  lemma SmallRemainder(k: nat, n: nat)
    requires k < n
    ensures k % n == k
  {
  }

  lemma PlacesOfPush(l: Limits, m: Memory, msg: Message)
    requires Shaped(m)
    ensures Stopped(l, m, Push(msg, [1])) == Stopped(l, m, Push(msg, []))
    ensures |Stopped(l, m, Push(msg, [1]))| > RecordLen(msg) + 1 && RecordLen(msg) > 0
  {
    hide Body, AfterPush, Bounded, Ready, Filed;
  }

  lemma KeepsNew(l: Limits, m: Memory, msg: Message)
    requires Shaped(m) && TailInStep(m) && l.segmentBytes <= l.maxBytes
    ensures Unread(Pushing(l, m, msg)) != []
  {
    PushMeaning(m, RecordLen(msg), Body(msg), l.segmentBytes, l.maxBytes);
  }
}
