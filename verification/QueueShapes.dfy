/** How a queue fills its segments over whole runs: a segment is started only when
    the record did not fit in the one before, and no segment is left without
    records in front of others, so Peek never fails. Both hold as long as the
    process does not stop in the wrong place, which is stated exactly. */
module QueueShapes {
  import opened Bytes
  import opened Messages
  import opened Sequences
  import opened Records
  import opened Recovery
  import opened CrashSafety
  import opened QueueContract
  import opened QueueModel
  import opened QueueRuns

  // ----- Packing ----------------------------------------------------------------

  /** The first record of segment i + 1 would not have fitted in segment i. */
  ghost predicate PackedAt(l: Limits, m: Memory, i: nat) {
    |m.segs| == |m.log| && i + 1 < |m.segs| &&
    (m.log[i + 1] != [] ==> m.segs[i].size + 8 + |m.log[i + 1][0]| > l.segmentBytes)
  }

  ghost predicate Packed(l: Limits, m: Memory) {
    |m.segs| == |m.log| >= 1 && forall i :: 0 <= i < |m.segs| - 1 ==> PackedAt(l, m, i)
  }

  /** The push finds an empty segment at the end that another push started and did
      not fill, and puts a record there that had fitted in the segment before. */
  predicate Late(l: Limits, m: Memory, c: Call)
    requires Shaped(m)
  {
    var last := |m.segs| - 1;
    c.Push? && last > 0 && m.log[last] == [] && m.segs[last].size == 0 &&
    m.segs[last - 1].size + RecordLen(c.m) <= l.segmentBytes
  }

  lemma PackedSuffix(l: Limits, m: Memory, k: nat)
    requires Packed(l, m) && k < |m.segs|
    ensures Packed(l, Memory(m.segs[k..], m.log[k..]))
  {
    var r := Memory(m.segs[k..], m.log[k..]);
    forall i | 0 <= i < |r.segs| - 1 ensures PackedAt(l, r, i) {
      assert PackedAt(l, m, k + i);
    }
  }

  lemma PackedBounded(l: Limits, m: Memory, maxBytes: nat)
    requires Packed(l, m)
    ensures Packed(l, Bounded(m, maxBytes))
  {
    PackedSuffix(l, m, Excess(m.segs, maxBytes));
    hide Packed;
  }

  /** A tail without unread records has no bytes either, unless it is alone. */
  ghost predicate TailEmpty(m: Memory) {
    |m.segs| == |m.log| >= 1 &&
    (|m.segs| > 1 && m.log[|m.log| - 1] == [] ==> m.segs[|m.segs| - 1].size == 0)
  }

  lemma PackedRecord(l: Limits, m: Memory, msg: Message)
    requires Packed(l, m) && TailEmpty(m) && !Late(l, m, Push(msg, []))
    ensures Packed(l, WithRecord(m, RecordLen(msg), Body(msg), l.segmentBytes))
  {
    hide Body;
    var n, last := RecordLen(msg), |m.segs| - 1;
    var r := WithRecord(m, n, Body(msg), l.segmentBytes);
    forall i | 0 <= i < |r.segs| - 1 ensures PackedAt(l, r, i) {
      if i < last {
        assert PackedAt(l, m, i);
      }
    }
  }

  lemma PackedPush(l: Limits, m: Memory, msg: Message)
    requires Packed(l, m) && TailEmpty(m) && !Late(l, m, Push(msg, []))
    ensures Packed(l, Pushing(l, m, msg))
  {
    PackedRecord(l, m, msg);
    FiledIs(m, RecordLen(msg), Body(msg), l.segmentBytes);
    hide Packed, TailEmpty, Late, WithRecord, Filed, Body;
    PackedBounded(l, Filed(m, RecordLen(msg), Body(msg), l.segmentBytes), l.maxBytes);
  }

  lemma PackedRolling(l: Limits, m: Memory, msg: Message)
    requires Packed(l, m)
    ensures Packed(l, Rolling(l, m, msg))
  {
    var r := Ready(m, RecordLen(msg), l.segmentBytes);
    forall i | 0 <= i < |r.segs| - 1 ensures PackedAt(l, r, i) {
      if i + 1 < |m.segs| {
        assert PackedAt(l, m, i);
      }
    }
    PackedBounded(l, r, l.maxBytes);
  }

  lemma PackedAck(l: Limits, m: Memory)
    requires Packed(l, m)
    ensures Packed(l, AfterAck(m))
  {
    hide PeekOutcome;
    NextUnread(m.log);
    if |m.segs| > 1 {
      PackedSuffix(l, m, 1);
    }
    if m.log[0] != [] && m.log[0][1..] != [] {
      var r := AfterAdvance(m);
      forall i | 0 <= i < |r.segs| - 1 ensures PackedAt(l, r, i) {
        assert PackedAt(l, m, i);
      }
    }
  }

  /** Every call keeps the packing, except a late push that is completed. */
  lemma StepPacked(l: Limits, m: Memory, c: Call, m': Memory)
    requires Packed(l, m) && TailEmpty(m) && MayBecome(l, m, c, m') && !Late(l, m, c)
    ensures Packed(l, m')
  {
    match c {
      case Push(msg, _) =>
        assert !Late(l, m, Push(msg, []));
        PackedPush(l, m, msg);
        PackedRolling(l, m, msg);
      case Ack(_) => PackedAck(l, m);
      case Restart(_) =>
    }
    hide Late, Pushing, Rolling, AfterAck, TailEmpty, HeadOffset;
  }

  /** And a late push does break it, unless its neighbour is evicted. */
  lemma LateBreaks(l: Limits, m: Memory, msg: Message)
    requires Shaped(m) && Late(l, m, Push(msg, [])) && |Pushing(l, m, msg).segs| == |m.segs|
    requires RecordLen(msg) <= l.segmentBytes
    ensures !Packed(l, Pushing(l, m, msg))
  {
    var all, i := WithRecord(m, RecordLen(msg), Body(msg), l.segmentBytes), |m.segs| - 2;
    PushPlacement(m, RecordLen(msg), Body(msg), l.segmentBytes, l.maxBytes);
    LateRecord(l, m, msg);
    hide Late, WithRecord, Body, RecordLen, AfterPush, PackedAt;
    assert all.segs[0..] == all.segs && all.log[0..] == all.log;
    NotPacked(l, all, i);
  }

  lemma LateRecord(l: Limits, m: Memory, msg: Message)
    requires Shaped(m) && Late(l, m, Push(msg, [])) && RecordLen(msg) <= l.segmentBytes
    ensures var all := WithRecord(m, RecordLen(msg), Body(msg), l.segmentBytes);
      |all.segs| == |m.segs| && !PackedAt(l, all, |m.segs| - 2)
  {
    assert [] + [Body(msg)] == [Body(msg)];
    hide Body;
  }

  lemma TailRecord(l: Limits, m: Memory, msg: Message)
    requires Shaped(m)
    ensures var r := Pushing(l, m, msg); |r.segs| == |r.log| >= 1 && r.log[|r.log| - 1] != []
  {
    PushPlacement(m, RecordLen(msg), Body(msg), l.segmentBytes, l.maxBytes);
    hide Pushing, Body, AfterPush;
  }

  lemma TailRolling(l: Limits, m: Memory, msg: Message)
    requires TailEmpty(m)
    ensures TailEmpty(Rolling(l, m, msg))
  {
  }

  lemma TailAcked(m: Memory)
    requires TailEmpty(m)
    ensures TailEmpty(AfterAck(m))
    ensures |m.segs| > 1 && |AfterAck(m).segs| > 1 ==>
      AfterAck(m).log[|AfterAck(m).log| - 1] == m.log[|m.log| - 1]
  {
    hide PeekOutcome;
    NextUnread(m.log);
  }

  lemma StepTail(l: Limits, m: Memory, c: Call, m': Memory)
    requires TailEmpty(m) && MayBecome(l, m, c, m')
    ensures TailEmpty(m')
  {
    match c {
      case Push(msg, _) =>
        TailRecord(l, m, msg);
        TailRolling(l, m, msg);
      case Ack(_) => TailAcked(m);
      case Restart(_) =>
    }
    hide Pushing, Rolling, AfterAck, HeadOffset;
  }

  /** The packing law over whole runs: in every run without a late push, wherever
      the process stops, a segment was started only because its first record did
      not fit in the one before. */
  lemma {:induction false} RunPacked(l: Limits, calls: seq<Call>, mems: seq<Memory>, n: nat)
    requires Run(l, calls, mems) && n < |mems|
    requires forall i :: 0 <= i < n ==> i < |calls| && Shaped(mems[i]) && !Late(l, mems[i], calls[i])
    ensures Packed(l, mems[n]) && TailEmpty(mems[n])
  {
    RunShape(l, calls, mems);
    hide Run, Late, MayBecome;
    if n > 0 {
      RunPacked(l, calls, mems, n - 1);
      RunStep(l, calls, mems, n - 1);
      StepTail(l, mems[n - 1], calls[n - 1], mems[n]);
      StepPacked(l, mems[n - 1], calls[n - 1], mems[n]);
    }
  }

  /** Unless it is alone, the tail holds a record: no push was left unfinished. */
  ghost predicate TailUsed(m: Memory) {
    |m.segs| == |m.log| >= 1 && (|m.segs| > 1 ==> m.log[|m.log| - 1] != [])
  }

  lemma StepUsed(l: Limits, m: Memory, c: Call, m': Memory)
    requires TailUsed(m) && MayBecome(l, m, c, m') && (c.Push? ==> c.stops == [])
    ensures TailUsed(m')
  {
    match c {
      case Push(msg, _) => TailRecord(l, m, msg);
      case Ack(_) => TailAcked(m);
      case Restart(_) =>
    }
    hide Pushing, Rolling, AfterAck, HeadOffset;
  }

  /** No push is late when none was stopped, so then the packing law holds. */
  lemma {:induction false} CompletedPacked(l: Limits, calls: seq<Call>, mems: seq<Memory>, n: nat)
    requires Run(l, calls, mems) && n < |mems| && forall c <- calls :: c.Push? ==> c.stops == []
    ensures Packed(l, mems[n]) && TailEmpty(mems[n]) && TailUsed(mems[n])
  {
    RunShape(l, calls, mems);
    hide Run, MayBecome;
    if n > 0 {
      CompletedPacked(l, calls, mems, n - 1);
      RunStep(l, calls, mems, n - 1);
      assert calls[n - 1] in calls;
      StepUsed(l, mems[n - 1], calls[n - 1], mems[n]);
      StepTail(l, mems[n - 1], calls[n - 1], mems[n]);
      StepPacked(l, mems[n - 1], calls[n - 1], mems[n]);
    }
  }

  /** Three records: the process stops after the roll for the second, and the
      third, put in the new segment, had fitted in the first. */
  lemma LateRun(l: Limits, a: Message, b: Message, c: Message)
    requires RecordLen(a) + RecordLen(c) <= l.segmentBytes < RecordLen(a) + RecordLen(b)
    requires l.segmentBytes <= l.maxBytes
    ensures
      var one := Memory([Segment(1, RecordLen(a), 1)], [[Body(a)]]);
      var rolled := Memory([Segment(1, RecordLen(a), 1), Segment(2, 0, 0)], [[Body(a)], []]);
      var late := Memory([Segment(1, RecordLen(a), 1), Segment(2, RecordLen(c), 1)], [[Body(a)], [Body(c)]]);
      Run(l, [Push(a, []), Push(b, [1]), Push(c, [])], [Fresh, one, rolled, late]) &&
      Late(l, rolled, Push(c, [])) && !Packed(l, late)
  {
    var one := Memory([Segment(1, RecordLen(a), 1)], [[Body(a)]]);
    var rolled := Memory([Segment(1, RecordLen(a), 1), Segment(2, 0, 0)], [[Body(a)], []]);
    var late := Memory([Segment(1, RecordLen(a), 1), Segment(2, RecordLen(c), 1)], [[Body(a)], [Body(c)]]);
    FirstRecord(l, a, one);
    RolledIs(l, a, b, one, rolled);
    ThirdRecord(l, a, c, rolled, late);
    hide Step, Packed, PackedAt, Late, RecordLen, Body;
    var calls, mems := [Push(a, []), Push(b, [1]), Push(c, [])], [Fresh, one, rolled, late];
    assert StepAt(l, calls, mems, 0) && StepAt(l, calls, mems, 1) && StepAt(l, calls, mems, 2);
    NotPacked(l, late, 0);
  }

  lemma FirstRecord(l: Limits, a: Message, one: Memory)
    requires one == Memory([Segment(1, RecordLen(a), 1)], [[Body(a)]]) && RecordLen(a) <= l.maxBytes
    ensures Step(l, Fresh, Push(a, []), one)
  {
    hide Body;
    LoneTotal(one.segs);
    assert [] + [Body(a)] == [Body(a)];
    PushedIs(l, Fresh, a, one);
    hide Step;
  }

  lemma ThirdRecord(l: Limits, a: Message, c: Message, rolled: Memory, late: Memory)
    requires rolled == Memory([Segment(1, RecordLen(a), 1), Segment(2, 0, 0)], [[Body(a)], []])
    requires late == Memory([Segment(1, RecordLen(a), 1), Segment(2, RecordLen(c), 1)], [[Body(a)], [Body(c)]])
    requires RecordLen(a) + RecordLen(c) <= l.segmentBytes <= l.maxBytes
    ensures Step(l, rolled, Push(c, []), late)
    ensures Late(l, rolled, Push(c, [])) && !PackedAt(l, late, 0)
  {
    hide Body;
    TotalsSnoc([Segment(1, RecordLen(a), 1)], Segment(2, RecordLen(c), 1));
    LoneTotal([Segment(1, RecordLen(a), 1)]);
    assert [Segment(1, RecordLen(a), 1)] + [Segment(2, RecordLen(c), 1)] == late.segs;
    assert [] + [Body(c)] == [Body(c)];
    PushedIs(l, rolled, c, late);
    hide Step;
  }

  lemma NotPacked(l: Limits, m: Memory, i: nat)
    requires !PackedAt(l, m, i) && i + 1 < |m.segs|
    ensures !Packed(l, m)
  {
  }

  /** A completed push within the budget. */
  lemma PushedIs(l: Limits, m: Memory, msg: Message, m': Memory)
    requires Shaped(m) && m' == WithRecord(m, RecordLen(msg), Body(msg), l.segmentBytes) && Size(m') <= l.maxBytes
    ensures Step(l, m, Push(msg, []), m')
  {
    FiledIs(m, RecordLen(msg), Body(msg), l.segmentBytes);
    hide WithRecord, Filed, Body;
    assert m'.segs[0..] == m'.segs && m'.log[0..] == m'.log;
  }

  lemma RolledIs(l: Limits, a: Message, b: Message, one: Memory, rolled: Memory)
    requires one == Memory([Segment(1, RecordLen(a), 1)], [[Body(a)]])
    requires rolled == Memory([Segment(1, RecordLen(a), 1), Segment(2, 0, 0)], [[Body(a)], []])
    requires RecordLen(a) <= l.maxBytes && RecordLen(a) + RecordLen(b) > l.segmentBytes
    ensures Step(l, one, Push(b, [1]), rolled)
  {
    ReadyIs(l, a, b, one, rolled);
    PushPlaces(l, one, b, 1);
    StopAt(l, one, Push(b, [1]), 1);
    hide Body, PushResults, Pushing, Stopped, Step;
  }

  lemma ReadyIs(l: Limits, a: Message, b: Message, one: Memory, rolled: Memory)
    requires one == Memory([Segment(1, RecordLen(a), 1)], [[Body(a)]])
    requires rolled == Memory([Segment(1, RecordLen(a), 1), Segment(2, 0, 0)], [[Body(a)], []])
    requires RecordLen(a) <= l.maxBytes && RecordLen(a) + RecordLen(b) > l.segmentBytes
    ensures Rolling(l, one, b) == rolled && Rolls(one.segs, RecordLen(b), l.segmentBytes)
  {
    hide Body;
    TotalsSnoc(one.segs, Segment(2, 0, 0));
    LoneTotal(one.segs);
    assert one.segs + [Segment(2, 0, 0)] == rolled.segs && one.log + [[]] == rolled.log;
    WithinBound(rolled, l.maxBytes);
    hide Bounded, TotalBytes;
  }

  // ----- No empty segment in front ----------------------------------------------------

  /** Every segment but the last holds unread records, and so does the last unless
      it is empty. */
  ghost predicate Full(m: Memory) {
    |m.segs| == |m.log| >= 1 && (forall i :: 0 <= i < |m.log| - 1 ==> m.log[i] != []) &&
    (m.segs[|m.segs| - 1].size > 0 ==> m.log[|m.log| - 1] != [])
  }

  lemma FullSuffix(m: Memory, k: nat)
    requires Full(m) && k < |m.segs|
    ensures Full(Memory(m.segs[k..], m.log[k..]))
  {
  }

  lemma FullPush(l: Limits, m: Memory, msg: Message)
    requires Full(m)
    ensures Full(Pushing(l, m, msg))
  {
    hide Body;
    var n := RecordLen(msg);
    var r := WithRecord(m, n, Body(msg), l.segmentBytes);
    FiledIs(m, n, Body(msg), l.segmentBytes);
    assert Full(r);
    FullSuffix(r, Excess(r.segs, l.maxBytes));
    hide Full, WithRecord, Filed, Excess;
  }

  lemma FullRolling(l: Limits, m: Memory, msg: Message)
    requires Full(m)
    ensures Full(Rolling(l, m, msg))
  {
    hide Body;
    var r := Ready(m, RecordLen(msg), l.segmentBytes);
    assert Full(r);
    FullSuffix(r, Excess(r.segs, l.maxBytes));
    hide Full, Ready, Excess;
  }

  lemma FullAck(m: Memory)
    requires Full(m)
    ensures Full(AfterAck(m))
  {
    hide PeekOutcome;
    NextUnread(m.log);
    if |m.segs| > 1 {
      FullSuffix(m, 1);
    }
  }

  lemma StepFull(l: Limits, m: Memory, c: Call, m': Memory)
    requires Full(m) && MayBecome(l, m, c, m') && (c.Ack? ==> c.stops == [])
    ensures Full(m')
  {
    match c {
      case Push(msg, _) =>
        FullPush(l, m, msg);
        FullRolling(l, m, msg);
      case Ack(_) => FullAck(m);
      case Restart(_) =>
    }
    hide Full, Pushing, Rolling, AfterAck, HeadOffset;
  }

  lemma {:induction false} RunFull(l: Limits, calls: seq<Call>, mems: seq<Memory>, n: nat)
    requires Run(l, calls, mems) && n < |mems| && forall c <- calls :: c.Ack? ==> c.stops == []
    ensures Full(mems[n])
  {
    RunShape(l, calls, mems);
    hide Run, MayBecome;
    if n > 0 {
      RunFull(l, calls, mems, n - 1);
      RunStep(l, calls, mems, n - 1);
      assert calls[n - 1] in calls;
      StepFull(l, mems[n - 1], calls[n - 1], mems[n]);
    }
  }

  lemma FullPeek(m: Memory)
    requires Full(m) && forall b <- Unread(m) :: Readable(b) && Decode(b).Ok?
    ensures match PeekOutcome(m.log)
      case Nothing => Unread(m) == []
      case Next(msg) => Unread(m) != [] && Decode(Unread(m)[0]) == Ok(msg)
      case Unreadable(_) => false
  {
    hide Decode, Readable;
    if m.log[0] != [] {
      assert Unread(m)[0] == m.log[0][0];
    } else {
      FlattenEmpties(m.log);
    }
  }

  /** In every run in which no Ack is stopped, whatever else is, Peek never reports
      an error: it shows the oldest unread record whenever there is one. */
  lemma PeekNeverFails(l: Limits, w: nat, calls: seq<Call>, mems: seq<Memory>, n: nat)
    requires Run(l, calls, mems) && n < |mems| && l.segmentBytes <= l.maxBytes && UpTo(calls, w)
    requires forall c <- calls :: c.Ack? ==> c.stops == []
    ensures |mems[n].log| >= 1
    ensures match PeekOutcome(mems[n].log)
      case Nothing => Unread(mems[n]) == []
      case Next(msg) => Unread(mems[n]) != [] && Decode(Unread(mems[n])[0]) == Ok(msg)
      case Unreadable(_) => false
  {
    RunSound(l, w, calls, mems, n);
    RunFull(l, calls, mems, n);
    SoundShape(l, w, mems[n]);
    FullPeek(mems[n]);
    hide Run, Full, Sound, PeekOutcome, Decode, Readable;
  }
}
