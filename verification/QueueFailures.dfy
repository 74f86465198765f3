/** Two lives of a durable queue in which it does not do what one would expect:
    as runs, and as lives of the real queue. */
module QueueFailures {
  import opened Bytes
  import opened Messages
  import opened Sequences
  import opened Records
  import opened Recovery
  import opened CrashSafety
  import opened QueueModel
  import opened QueueRuns
  import opened DiskQueues
  import opened QueueLives

  lemma FiledInPlace(l: Limits, seg: Segment, bodies: seq<bytes>, n: nat, body: bytes)
    requires seg.size == 0 || seg.size + n <= l.segmentBytes
    requires l.segmentBytes <= l.maxBytes
    ensures AfterPush(Memory([seg], [bodies]), n, body, l.segmentBytes, l.maxBytes) ==
      Memory([Grown(seg, n)], [bodies + [body]])
  {
    var m := Memory([seg], [bodies]);
    var filed := Filed(m, n, body, l.segmentBytes);
    assert !Rolls(m.segs, n, l.segmentBytes);
    assert filed.segs == [Grown(seg, n)];
    assert filed.log == [bodies + [body]];
    WithinBound(filed, l.maxBytes);
  }

  lemma FiledBehind(l: Limits, seg: Segment, bodies: seq<bytes>, n: nat, body: bytes)
    requires seg.size > 0 && l.segmentBytes < seg.size + n <= l.maxBytes
    ensures AfterPush(Memory([seg], [bodies]), n, body, l.segmentBytes, l.maxBytes) ==
            Memory([seg, Segment(seg.id + 1, n, 1)], [bodies, [body]])
  {
    var m := Memory([seg], [bodies]);
    var filed := Filed(m, n, body, l.segmentBytes);
    assert filed.segs == [seg, Segment(seg.id + 1, n, 1)];
    var none: seq<bytes> := [];
    assert none + [body] == [body];
    assert Opened(m.segs, n, l.segmentBytes) == [seg, Segment(seg.id + 1, 0, 0)];
    assert OpenedLog(m.segs, m.log, n, l.segmentBytes) == [bodies, none];
    assert filed.log == [bodies, [body]];
    SizeFiled(m, n, body, l.segmentBytes);
    LoneSegment(m.segs, m.log);
    WithinBound(filed, l.maxBytes);
  }

  lemma FirstPush(l: Limits, m: Message)
    requires l.segmentBytes <= l.maxBytes
    ensures Pushing(l, Fresh, m) == Memory([Segment(1, RecordLen(m), 1)], [[Body(m)]])
  {
    FiledInPlace(l, Segment(1, 0, 0), [], RecordLen(m), Body(m));
    hide AfterPush, Body;
    assert [] + [Body(m)] == [Body(m)];
  }

  // ----- A record larger than the budget ------------------------------------------------

  function One(m: Message): Memory {
    Memory([Segment(1, RecordLen(m), 1)], [[Body(m)]])
  }

  lemma OneUnread(m: Message)
    ensures Unread(One(m)) == [Body(m)] && Size(One(m)) == RecordLen(m)
  {
    hide Body;
    LoneSegment(One(m).segs, One(m).log);
  }

  function LoneCalls(m: Message, next: Message): seq<Call> {
    [Push(m, []), Push(next, [1])]
  }

  function LoneRun(l: Limits, m: Message, next: Message): seq<Memory> {
    [Fresh, One(m), Rolling(l, One(m), next)]
  }

  /** The record is held, alone. The process stops in the next push, right after
      its roll: Open then finds nothing. */
  lemma LoneRecordRun(l: Limits, m: Message, next: Message)
    requires l.segmentBytes <= l.maxBytes < RecordLen(m)
    ensures Run(l, LoneCalls(m, next), LoneRun(l, m, next))
    ensures Unread(One(m)) == [Body(m)] && Unread(Rolling(l, One(m), next)) == []
    ensures TallyOf(l, LoneCalls(m, next), LoneRun(l, m, next), 2).lost == 1
  {
    var m1, m2 := One(m), Rolling(l, One(m), next);
    PushStep(l, Fresh, m);
    FirstPush(l, m);
    OneUnread(m);
    RollingLoses(l, m1, next);
    hide Pushing, Rolling, RecordLen, Body, Unread, Size, Step, One;
    TwoSteps(l, Push(m, []), Push(next, [1]), m1, m2);
    LoneTally(l, LoneCalls(m, next), LoneRun(l, m, next));
    hide TallyOf, Run;
  }

  lemma PushStep(l: Limits, before: Memory, m: Message)
    requires Shaped(before)
    ensures Step(l, before, Push(m, []), Pushing(l, before, m))
  {
  }

  lemma TwoSteps(l: Limits, c: Call, d: Call, m1: Memory, m2: Memory)
    requires Step(l, Fresh, c, m1) && Step(l, m1, d, m2)
    ensures Run(l, [c, d], [Fresh, m1, m2])
  {
    hide Step;
    var calls, mems := [c, d], [Fresh, m1, m2];
    assert StepAt(l, calls, mems, 0) && StepAt(l, calls, mems, 1);
  }

  lemma LoneTally(l: Limits, calls: seq<Call>, mems: seq<Memory>)
    requires Run(l, calls, mems) && |calls| == 2 && |mems| == 3 && calls[0].Push? && calls[1].Push? && Shaped(mems[1])
    requires mems[0] == Fresh && mems[1] == Pushing(l, Fresh, calls[0].m) && |Unread(mems[1])| == 1
    requires mems[2] != Pushing(l, mems[1], calls[1].m) && Unread(mems[2]) == []
    ensures TallyOf(l, calls, mems, 2).lost == 1
  {
    hide TallyOf, Run, Counted, Pushing, Unread, RecordLen;
    TallyStart(l, calls, mems);
    TallyStep(l, calls, mems, 1);
    TallyStep(l, calls, mems, 2);
    CountedPush(l, TallyOf(l, calls, mems, 0), Fresh, calls[0].m, calls[0].stops, mems[1]);
    CountedLoss(l, TallyOf(l, calls, mems, 1), mems[1], calls[1].m, calls[1].stops, mems[2]);
  }

  lemma CountedPush(l: Limits, t: Tally, m: Memory, msg: Message, stops: seq<nat>, m': Memory)
    requires Shaped(m) && m' == Pushing(l, m, msg)
    ensures Counted(l, t, m, Push(msg, stops), m').lost == t.lost
  {
  }

  lemma CountedLoss(l: Limits, t: Tally, m: Memory, msg: Message, stops: seq<nat>, m': Memory)
    requires Shaped(m) && m' != Pushing(l, m, msg) && Unread(m') != Unread(m)
    ensures Counted(l, t, m, Push(msg, stops), m').lost == t.lost + |Unread(m)|
  {
  }

  /** The same on the real queue. */
  method LoneRecordLost(crc: Crc, opts: Options, m: Message, next: Message) returns (q: Queue, ghost mems: seq<Memory>)
    requires Readable(Body(m)) && Readable(Body(next)) && RecordLen(m) > LimitsOf(opts).maxBytes
    ensures Working(q, crc, opts) && Run(LimitsOf(opts), LoneCalls(m, next), mems) && q.Now() == mems[2]
    ensures Unread(mems[1]) == [Body(m)] && q.Contents() == []
  {
    var l := LimitsOf(opts);
    LoneRecordRun(l, m, next);
    hide Working, Readable, Body, Run, Unread, TallyOf, Rolling;
    q, mems := Live(crc, opts, LoneCalls(m, next));
    SameRun(l, LoneCalls(m, next), mems, LoneRun(l, m, next));
    UnreadContents(q);
  }

  lemma SameRun(l: Limits, calls: seq<Call>, a: seq<Memory>, b: seq<Memory>)
    requires Run(l, calls, a) && Run(l, calls, b)
    ensures a == b && |a| == |calls| + 1
  {
    RunShape(l, calls, a);
    RunShape(l, calls, b);
    RunUnique(l, calls, a, b, |calls|);
    hide Run;
    assert a == a[..|calls| + 1] && b == b[..|calls| + 1];
  }

  lemma UnreadContents(q: Queue)
    ensures q.Contents() == Unread(q.Now())
  {
  }

  // ----- An exhausted segment in front -----------------------------------------------

  /** Two records in the first segment, */
  function Pair(a: Message, b: Message): Memory {
    Memory([Segment(1, RecordLen(a) + RecordLen(b), 2)], [[Body(a), Body(b)]])
  }

  /** the first of them read, */
  function Half(a: Message, b: Message): Memory {
    Memory([Segment(1, RecordLen(a) + RecordLen(b), 1)], [[Body(b)]])
  }

  /** the segment exhausted, */
  function Spent(a: Message): Memory {
    Memory([Segment(1, RecordLen(a), 0)], [[]])
  }

  /** and a third record waiting behind it. */
  function Waiting(a: Message, c: Message): Memory {
    Memory([Segment(1, RecordLen(a), 0), Segment(2, RecordLen(c), 1)], [[], [Body(c)]])
  }

  lemma PairPushed(l: Limits, a: Message, b: Message)
    requires RecordLen(a) + RecordLen(b) <= l.segmentBytes <= l.maxBytes
    ensures Step(l, One(a), Push(b, []), Pair(a, b))
  {
    FiledInPlace(l, Segment(1, RecordLen(a), 1), [Body(a)], RecordLen(b), Body(b));
    PushStep(l, One(a), b);
    hide AfterPush, Body, Step;
    assert [Body(a)] + [Body(b)] == [Body(a), Body(b)];
  }

  lemma PairAcked(l: Limits, a: Message, b: Message)
    requires Readable(Body(a))
    ensures Step(l, Pair(a, b), Ack([]), Half(a, b))
  {
    var m := Pair(a, b);
    DecodeBody(a);
    LoneSegment(m.segs, m.log);
    AckStep(l, m);
    hide Body, Decode, Step;
    assert m.log[0][1..] == [Body(b)];
  }

  lemma LastAck(m: Memory, off: nat, b: Message)
    requires m == Memory([Segment(1, off + RecordLen(b), 1)], [[Body(b)]]) && Readable(Body(b))
    ensures PeekOutcome(m.log).Next? && m.log[0][1..] == [] && HeadOffset(m) == off
  {
    DecodeBody(b);
    LoneSegment(m.segs, m.log);
    assert RecordBytes(m.log[0][1..]) == 0;
  }

  lemma AfterExhausted(l: Limits, a: Message, c: Message)
    requires l.segmentBytes < RecordLen(a) + RecordLen(c) <= l.maxBytes
    ensures Step(l, Spent(a), Push(c, []), Waiting(a, c))
  {
    FiledBehind(l, Segment(1, RecordLen(a), 0), [], RecordLen(c), Body(c));
    PushStep(l, Spent(a), c);
    hide AfterPush, Step;
  }

  lemma WaitingLog(c: Message)
    requires Readable(Body(c))
    ensures PeekOutcome([[], [Body(c)]]) == Unreadable(HeaderMissing) && Flatten([[], [Body(c)]]) == [Body(c)]
    ensures [[], [Body(c)]][1..] == [[Body(c)]]
    ensures Flatten([[Body(c)]]) == [Body(c)]
    ensures var r := PeekOutcome([[Body(c)]]); r.Next? && Decode(Body(c)) == Ok(r.m)
  {
    var log, rest: seq<seq<bytes>> := [[], [Body(c)]], [[Body(c)]];
    DecodeBody(c);
    hide Body, Decode;
    assert log[1..] == rest && rest[1..] == [];
    assert Flatten(rest) == [Body(c)] + Flatten(rest[1..]);
  }

  function ExhaustedCalls(a: Message, b: Message, c: Message): seq<Call> {
    [Push(a, []), Push(b, []), Ack([]), Ack([1]), Push(c, [])]
  }

  function ExhaustedMems(a: Message, b: Message, c: Message): seq<Memory> {
    [Fresh, One(a), Pair(a, b), Half(a, b), Spent(a), Waiting(a, c)]
  }

  /** Ack of the last record in the only segment, stopped between the truncation
      and the head write. */
  lemma ResetStopped(l: Limits, a: Message, b: Message)
    requires Readable(Body(b))
    ensures Step(l, Half(a, b), Ack([1]), Spent(a))
  {
    var m := Half(a, b);
    LastAck(m, RecordLen(a), b);
    hide PeekOutcome, HeadOffset, Body;
    assert |Stopped(l, m, Ack([1]))| == 3;
    StopAt(l, m, Ack([1]), 1);
  }

  /** Two records, one acknowledged; then the process stops in the second Ack.
      Open comes back with a segment that is exhausted; a push that rolls leaves
      it in front, so Peek reports an error though a record waits. */
  lemma ExhaustedRun(l: Limits, a: Message, b: Message, c: Message)
    requires Readable(Body(a)) && Readable(Body(b)) && Readable(Body(c))
    requires RecordLen(a) + RecordLen(b) <= l.segmentBytes < RecordLen(a) + RecordLen(c) <= l.maxBytes
    ensures Run(l, ExhaustedCalls(a, b, c), ExhaustedMems(a, b, c))
    ensures PeekOutcome(Waiting(a, c).log) == Unreadable(HeaderMissing) && Unread(Waiting(a, c)) == [Body(c)]
    ensures Unread(AfterAck(Waiting(a, c))) == [Body(c)] && PeekOutcome(AfterAck(Waiting(a, c)).log).Next?
  {
    hide AfterAck, RecordLen, Body, Readable, Step, PeekOutcome, Unread, One, Pair, Half, Spent, Run;
    FirstStep(l, a);
    PairPushed(l, a, b);
    PairAcked(l, a, b);
    ResetStopped(l, a, b);
    AfterExhausted(l, a, c);
    ExhaustedAcked(Waiting(a, c), c);
    FiveSteps(l, ExhaustedCalls(a, b, c), ExhaustedMems(a, b, c));
  }

  lemma FirstStep(l: Limits, a: Message)
    requires l.segmentBytes <= l.maxBytes
    ensures Step(l, Fresh, Push(a, []), One(a))
  {
    PushStep(l, Fresh, a);
    FirstPush(l, a);
    hide Step, Pushing;
  }

  lemma AckStep(l: Limits, before: Memory)
    requires Shaped(before)
    ensures Step(l, before, Ack([]), AfterAck(before))
  {
  }

  lemma FiveSteps(l: Limits, calls: seq<Call>, mems: seq<Memory>)
    requires |calls| == 5 && |mems| == 6 && mems[0] == Fresh
    requires Step(l, mems[0], calls[0], mems[1]) && Step(l, mems[1], calls[1], mems[2])
    requires Step(l, mems[2], calls[2], mems[3]) && Step(l, mems[3], calls[3], mems[4])
    requires Step(l, mems[4], calls[4], mems[5])
    ensures Run(l, calls, mems)
  {
    hide Step;
    assert StepAt(l, calls, mems, 0) && StepAt(l, calls, mems, 1) && StepAt(l, calls, mems, 2);
    assert StepAt(l, calls, mems, 3) && StepAt(l, calls, mems, 4);
  }

  lemma ExhaustedAcked(m: Memory, c: Message)
    requires |m.segs| == 2 && m.log == [[], [Body(c)]] && Readable(Body(c))
    ensures PeekOutcome(m.log) == Unreadable(HeaderMissing) && Unread(m) == [Body(c)]
    ensures Shaped(m) ==> Unread(AfterAck(m)) == [Body(c)] && PeekOutcome(AfterAck(m).log).Next?
  {
    WaitingLog(c);
    hide Body, Flatten, PeekOutcome;
  }

  /** The same on the real queue. */
  method ExhaustedHead(crc: Crc, opts: Options, a: Message, b: Message, c: Message)
    returns (q: Queue, ghost mems: seq<Memory>, first: PeekResult)
    requires Readable(Body(a)) && Readable(Body(b)) && Readable(Body(c))
    requires var l := LimitsOf(opts);
      RecordLen(a) + RecordLen(b) <= l.segmentBytes < RecordLen(a) + RecordLen(c) <= l.maxBytes
    ensures Working(q, crc, opts) && Run(LimitsOf(opts), ExhaustedCalls(a, b, c), mems) && q.Now() == mems[5]
    ensures first == Unreadable(HeaderMissing) && q.count == 1 && q.Contents() == [Body(c)]
  {
    q, mems := LiveExhausted(crc, opts, a, b, c);
    UnreadContents(q);
    hide Working, Readable, Body, Run, ExhaustedCalls, RecordLen, Queue.Contents;
    first := PeekAt(crc, opts, q);
    UnreadContents(q);
  }

  method LiveExhausted(crc: Crc, opts: Options, a: Message, b: Message, c: Message)
    returns (q: Queue, ghost mems: seq<Memory>)
    requires Readable(Body(a)) && Readable(Body(b)) && Readable(Body(c))
    requires var l := LimitsOf(opts);
      RecordLen(a) + RecordLen(b) <= l.segmentBytes < RecordLen(a) + RecordLen(c) <= l.maxBytes
    ensures fresh(q) && fresh(q.dir) && Working(q, crc, opts)
    ensures Run(LimitsOf(opts), ExhaustedCalls(a, b, c), mems) && |mems| == 6 && q.Now() == mems[5]
    ensures q.log != [] && PeekOutcome(q.log) == Unreadable(HeaderMissing) && Unread(q.Now()) == [Body(c)]
  {
    ExhaustedRun(LimitsOf(opts), a, b, c);
    CallsReadable(a, b, c);
    hide Working, Readable, Body, Run, RecordLen, Unread, PeekOutcome, AfterAck, ExhaustedCalls;
    q, mems := Live(crc, opts, ExhaustedCalls(a, b, c));
    SameRun(LimitsOf(opts), ExhaustedCalls(a, b, c), mems, ExhaustedMems(a, b, c));
  }

  lemma CallsReadable(a: Message, b: Message, c: Message)
    requires Readable(Body(a)) && Readable(Body(b)) && Readable(Body(c))
    ensures |ExhaustedCalls(a, b, c)| == 5 && |ExhaustedMems(a, b, c)| == 6
    ensures forall x <- ExhaustedCalls(a, b, c) :: x.Push? ==> Readable(Body(x.m))
  {
    hide Readable, Body;
  }

  method PeekAt(crc: Crc, opts: Options, q: Queue) returns (r: PeekResult)
    requires Working(q, crc, opts)
    modifies q`peeked, q`peekLen
    ensures Working(q, crc, opts) && q.log != [] && r == PeekOutcome(q.log) && q.count == |Unread(q.Now())|
    ensures q.Now() == old(q.Now())
  {
    hide Queue.Rep, Queue.Durable, PeekOutcome;
    q.RepShape();
    r := q.Peek();
  }
}
