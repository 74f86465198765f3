/** The durable queue as a value: its segments and the unread bodies in each.
    What push and acknowledgement make of it, what the next Open makes of a
    directory, and what every such step keeps. */
module QueueModel {
  import opened Bytes
  import opened Messages
  import opened Sequences
  import opened Records
  import opened Directories
  import opened Recovery
  import opened CrashSafety
  import opened Reopening
  import opened QueueContract

  datatype Memory = Memory(segs: seq<Segment>, log: seq<seq<bytes>>)

  ghost predicate Shaped(m: Memory) {
    |m.segs| == |m.log| >= 1
  }

  /** The abstract value: the unread bodies, oldest first. */
  function Unread(m: Memory): seq<bytes> {
    Flatten(m.log)
  }

  function Size(m: Memory): nat {
    TotalBytes(m.segs)
  }

  datatype PeekResult = Nothing | Next(m: Message) | Unreadable(error: ReadError)

  /** What Peek reports, as a function of the unread bodies by segment. */
  function PeekOutcome(log: seq<seq<bytes>>): PeekResult
    requires log != []
  {
    if Flatten(log) == [] then Nothing
    else if log[0] == [] then Unreadable(HeaderMissing)
    else if !Readable(log[0][0]) then Unreadable(Corrupt)
    else match Decode(log[0][0])
      case Ok(m) => Next(m)
      case Err(e) => Unreadable(e)
  }

  // ----- The operations -----------------------------------------------------------

  /** enforceBound */
  function Bounded(m: Memory, maxBytes: nat): (r: Memory)
    requires Shaped(m)
    ensures Shaped(r)
  {
    var e := Excess(m.segs, maxBytes);
    Memory(m.segs[e..], m.log[e..])
  }

  /** After the roll, if a record of n bytes needs one. */
  function Ready(m: Memory, n: nat, segmentBytes: nat): (r: Memory)
    requires Shaped(m)
    ensures Shaped(r)
  {
    Memory(Opened(m.segs, n, segmentBytes), OpenedLog(m.segs, m.log, n, segmentBytes))
  }

  /** After the append. */
  function Filed(m: Memory, n: nat, body: bytes, segmentBytes: nat): (r: Memory)
    requires Shaped(m)
    ensures Shaped(r)
  {
    Memory(Placed(m.segs, n, segmentBytes), PlacedLog(m.segs, m.log, n, segmentBytes, body))
  }

  function AfterPush(m: Memory, n: nat, body: bytes, segmentBytes: nat, maxBytes: nat): (r: Memory)
    requires Shaped(m)
    ensures Shaped(r)
  {
    Bounded(Filed(m, n, body, segmentBytes), maxBytes)
  }

  /** A record of n bytes put behind the others in the last segment, unless that
      is not empty and n more bytes would exceed segmentBytes; then it is put in a
      new one with the next id. */
  function WithRecord(m: Memory, n: nat, body: bytes, segmentBytes: nat): Memory
    requires Shaped(m)
  {
    var last := |m.segs| - 1;
    var tail := m.segs[last];
    if tail.size > 0 && tail.size + n > segmentBytes then
      Memory(m.segs + [Segment(tail.id + 1, n, 1)], m.log + [[body]])
    else
      Memory(m.segs[last := Segment(tail.id, tail.size + n, tail.records + 1)],
             m.log[last := m.log[last] + [body]])
  }

  /** After a push only whole segments at the front are missing from that. */
  ghost predicate StoredAs(m: Memory, n: nat, body: bytes, segmentBytes: nat, after: Memory)
    requires Shaped(m)
  {
    var all := WithRecord(m, n, body, segmentBytes);
    var gone := |all.segs| - |after.segs|;
    |all.segs| == |all.log| && 0 <= gone < |all.segs| && after == Memory(all.segs[gone..], all.log[gone..])
  }

  lemma FiledIs(m: Memory, n: nat, body: bytes, segmentBytes: nat)
    requires Shaped(m)
    ensures Filed(m, n, body, segmentBytes) == WithRecord(m, n, body, segmentBytes)
  {
    if Rolls(m.segs, n, segmentBytes) {
      var open := m.segs + [Segment(m.segs[|m.segs| - 1].id + 1, 0, 0)];
      assert open[|open| - 1 := Grown(open[|open| - 1], n)] == m.segs + [Segment(m.segs[|m.segs| - 1].id + 1, n, 1)];
      assert [] + [body] == [body];
      var log := m.log + [[]];
      assert log[|log| - 1 := log[|log| - 1] + [body]] == m.log + [[body]];
    }
  }

  lemma PushPlacement(m: Memory, n: nat, body: bytes, segmentBytes: nat, maxBytes: nat)
    requires Shaped(m)
    ensures StoredAs(m, n, body, segmentBytes, AfterPush(m, n, body, segmentBytes, maxBytes))
  {
    FiledIs(m, n, body, segmentBytes);
    hide Excess, Filed, WithRecord;
  }

  /** The unread records a push evicts. */
  function Evicted(m: Memory, n: nat, body: bytes, segmentBytes: nat, maxBytes: nat): nat
    requires Shaped(m)
  {
    var filed := Filed(m, n, body, segmentBytes);
    |Flatten(filed.log[..Excess(filed.segs, maxBytes)])|
  }

  /** The first segment goes: removed, or emptied if it is the only one. */
  function AfterDiscard(m: Memory): (r: Memory)
    requires Shaped(m)
    ensures Shaped(r)
  {
    if |m.segs| > 1 then Memory(m.segs[1..], m.log[1..]) else Memory([Segment(m.segs[0].id, 0, 0)], [[]])
  }

  /** The cursor moves over one record; a segment read to its end goes. */
  function AfterAdvance(m: Memory): (r: Memory)
    requires Shaped(m) && m.log[0] != []
    ensures Shaped(r)
  {
    if m.log[0][1..] == [] then AfterDiscard(m)
    else
      var head := m.segs[0];
      Memory(m.segs[0 := head.(records := if head.records > 0 then head.records - 1 else 0)], m.log[0 := m.log[0][1..]])
  }

  function AfterAck(m: Memory): (r: Memory)
    requires Shaped(m)
    ensures Shaped(r)
  {
    match PeekOutcome(m.log)
    case Nothing => m
    case Next(_) => AfterAdvance(m)
    case Unreadable(_) => AfterDiscard(m)
  }

  /** The only segment, emptied on disk while the head file still points into
      its old contents: extended with zeros and without a record. */
  function Exhausted(m: Memory, headOff: nat): Memory
    requires Shaped(m)
  {
    Memory([Segment(m.segs[0].id, headOff, 0)], [[]])
  }

  function RecordBytes(bodies: seq<bytes>): nat {
    if bodies == [] then 0 else HEADER_LEN + |bodies[0]| + RecordBytes(bodies[1..])
  }

  /** The cursor: behind what was read of the first segment. */
  function HeadOffset(m: Memory): nat
    requires Shaped(m)
  {
    var unread := RecordBytes(m.log[0]);
    if unread <= m.segs[0].size then m.segs[0].size - unread else 0
  }

  /** A head record no reader accepts, such as a body above 16 MiB: Peek reports it
      corrupt, and Ack gives it up together with the rest of its segment. */
  lemma UnacceptableHead(m: Memory)
    requires Shaped(m) && m.log[0] != [] && !Readable(m.log[0][0])
    ensures PeekOutcome(m.log) == Unreadable(Corrupt) && Unread(AfterAck(m)) == Flatten(m.log[1..])
  {
    if |m.segs| == 1 {
      assert m.log[1..] == [];
      FlattenEmpties(AfterAck(m).log);
    }
  }

  // ----- Open -----------------------------------------------------------------------

  const Fresh := Memory([Segment(1, 0, 0)], [[]])

  /** What Open makes of a directory. */
  ghost function Reopened(crc: Crc, d: DirState, maxBytes: nat): (r: Memory)
    ensures Shaped(r)
  {
    if RecoveredSegments(crc, d) == [] then Fresh
    else Bounded(Memory(RecoveredSegments(crc, d), RecoveredLog(crc, d)), maxBytes)
  }

  /** What a scan makes of a file from an offset on: all records up to the first
      place where none can be read, and the size up to there. An offset beyond the
      end of the file is taken for the size. */
  ghost predicate IsScan(crc: Crc, file: bytes, from: nat, seg: Segment, bodies: seq<bytes>) {
    seg.records == |bodies| && (forall b <- bodies :: Readable(b)) &&
    if from > |file| then bodies == [] && seg.size == from
    else
      from <= seg.size <= |file| && file[from..seg.size] == Encoded(crc, bodies) &&
      ReadRecord(crc, file[seg.size..]).Err?
  }

  lemma ScanMeaning(crc: Crc, file: bytes, from: nat, id: nat)
    ensures var r := Scan(crc, file, from); IsScan(crc, file, from, Segment(id, |r.file|, |r.bodies|), r.bodies)
  {
    if from <= |file| {
      var rest := file[from..];
      BodiesArePrefix(crc, rest);
      var n := |Encoded(crc, Bodies(crc, rest))|;
      hide Bodies, Encoded, ReadRecord;
      assert file[from..from + n] == rest[..n] && file[from + n..] == rest[n..];
    }
  }

  /** Open on any directory: its segments are the files from the one the head file
      names on, in the order of their ids, each scanned from its start, the one
      named from the offset there. Without a head file that is all of them. */
  lemma OpenMeaning(crc: Crc, d: DirState)
    ensures var segs, log := RecoveredSegments(crc, d), RecoveredLog(crc, d);
      var headId, headOff := if d.head.None? then 0 else d.head.value.id, if d.head.None? then 0 else d.head.value.off;
      |segs| == |log| &&
      (forall i, j :: 0 <= i < j < |segs| ==> segs[i].id < segs[j].id) &&
      (forall id :: (exists i :: 0 <= i < |segs| && segs[i].id == id) <==> id in d.files && id >= headId) &&
      forall i :: 0 <= i < |segs| ==>
        segs[i].id in d.files &&
        IsScan(crc, d.files[segs[i].id], if segs[i].id == headId then headOff else 0, segs[i], log[i])
  {
    var segs, log, ids := RecoveredSegments(crc, d), RecoveredLog(crc, d), LiveIds(d);
    forall i | 0 <= i < |segs|
      ensures segs[i].id in d.files && IsScan(crc, FileOf(d, segs[i].id), StartOf(d, segs[i].id), segs[i], log[i])
    {
      ScanMeaning(crc, FileOf(d, ids[i]), StartOf(d, ids[i]), ids[i]);
    }
    LiveListed(crc, d);
    hide Scan, IsScan, Ascending, LiveIds;
  }

  lemma LiveListed(crc: Crc, d: DirState)
    ensures var segs := RecoveredSegments(crc, d);
      (forall i, j :: 0 <= i < j < |segs| ==> segs[i].id < segs[j].id) &&
      (forall id :: (exists i :: 0 <= i < |segs| && segs[i].id == id) <==> id in d.files && id >= HeadOf(d).id)
  {
    hide ScanOf, Ascending;
    var segs, ids := RecoveredSegments(crc, d), LiveIds(d);
    forall id ensures (exists i :: 0 <= i < |segs| && segs[i].id == id) <==> id in d.files && id >= HeadOf(d).id {
      if id in d.files && id >= HeadOf(d).id {
        assert id in ids;
        var i :| 0 <= i < |ids| && ids[i] == id;
        assert segs[i].id == id;
      }
    }
  }

  /** What Open drops and what it keeps are the records there were. */
  lemma OpenConserves(crc: Crc, d: DirState, maxBytes: nat)
    ensures var log, e := RecoveredLog(crc, d), Excess(RecoveredSegments(crc, d), maxBytes);
      Flatten(log) == Flatten(log[..e]) + Recovered(crc, d, maxBytes)
  {
    hide Flatten, RecoveredLog, RecoveredSegments, Excess;
    FlattenDrop(RecoveredLog(crc, d), Excess(RecoveredSegments(crc, d), maxBytes));
  }

  lemma ReopenedUnread(crc: Crc, d: DirState, maxBytes: nat)
    ensures Unread(Reopened(crc, d, maxBytes)) == Recovered(crc, d, maxBytes)
  {
    if RecoveredSegments(crc, d) == [] {
      FlattenEmpties(Fresh.log);
    }
  }

  /** Each of these states reopens, usably, to one of the outcomes. */
  ghost predicate ReopensTo(crc: Crc, maxBytes: nat, states: seq<DirState>, outcomes: seq<Memory>) {
    forall d <- states :: HeadUsable(d) && Reopened(crc, d, maxBytes) in outcomes
  }

  lemma ReopensConcat(crc: Crc, maxBytes: nat, a: seq<DirState>, b: seq<DirState>, outcomes: seq<Memory>)
    requires ReopensTo(crc, maxBytes, a, outcomes) && ReopensTo(crc, maxBytes, b, outcomes)
    ensures ReopensTo(crc, maxBytes, a + b, outcomes)
  {
    hide HeadUsable, Reopened;
  }

  lemma ReopensNone(crc: Crc, maxBytes: nat, outcomes: seq<Memory>)
    ensures ReopensTo(crc, maxBytes, [], outcomes)
  {
  }

  lemma ReopensOne(crc: Crc, maxBytes: nat, d: DirState, outcomes: seq<Memory>)
    requires HeadUsable(d) && Reopened(crc, d, maxBytes) in outcomes
    ensures ReopensTo(crc, maxBytes, [d], outcomes)
  {
    hide HeadUsable, Reopened;
  }

  lemma ReopensMore(crc: Crc, maxBytes: nat, states: seq<DirState>, outcomes: seq<Memory>, more: seq<Memory>)
    requires ReopensTo(crc, maxBytes, states, outcomes) && forall m <- outcomes :: m in more
    ensures ReopensTo(crc, maxBytes, states, more)
  {
  }

  /** State by state, these directories reopen, usably, to these outcomes. */
  ghost predicate ReopensAs(crc: Crc, maxBytes: nat, states: seq<DirState>, outcomes: seq<Memory>) {
    |states| == |outcomes| &&
    forall i :: 0 <= i < |states| ==> HeadUsable(states[i]) && Reopened(crc, states[i], maxBytes) == outcomes[i]
  }

  function Repeat(m: Memory, n: nat): (r: seq<Memory>)
    ensures |r| == n && forall i :: 0 <= i < n ==> r[i] == m
  {
    seq(n, _ => m)
  }

  lemma ReopensAsConcat(crc: Crc, maxBytes: nat, a: seq<DirState>, b: seq<DirState>, x: seq<Memory>, y: seq<Memory>)
    requires ReopensAs(crc, maxBytes, a, x) && ReopensAs(crc, maxBytes, b, y)
    ensures ReopensAs(crc, maxBytes, a + b, x + y)
  {
    hide HeadUsable, Reopened;
    forall i | 0 <= i < |a + b|
      ensures HeadUsable((a + b)[i]) && Reopened(crc, (a + b)[i], maxBytes) == (x + y)[i]
    {
      assert (a + b)[i] == if i < |a| then a[i] else b[i - |a|];
    }
  }

  lemma ReopensAsOne(crc: Crc, maxBytes: nat, d: DirState, m: Memory)
    requires HeadUsable(d) && Reopened(crc, d, maxBytes) == m
    ensures ReopensAs(crc, maxBytes, [d], [m])
  {
    hide HeadUsable, Reopened;
  }

  lemma ReopensAlways(crc: Crc, maxBytes: nat, states: seq<DirState>, m: Memory)
    requires ReopensTo(crc, maxBytes, states, [m])
    ensures ReopensAs(crc, maxBytes, states, Repeat(m, |states|))
  {
    hide HeadUsable, Reopened;
    assert forall i :: 0 <= i < |states| ==> states[i] in states;
  }

  // ----- The bound --------------------------------------------------------------------

  lemma WithinBound(m: Memory, maxBytes: nat)
    requires Shaped(m) && (Size(m) <= maxBytes || |m.segs| == 1)
    ensures Bounded(m, maxBytes) == m
  {
    assert m.segs[0..] == m.segs && m.log[0..] == m.log;
  }

  lemma BoundedRest(m: Memory, maxBytes: nat)
    requires Shaped(m) && |m.segs| > 1 && Size(m) > maxBytes
    ensures Bounded(Memory(m.segs[1..], m.log[1..]), maxBytes) == Bounded(m, maxBytes)
  {
    var e := Excess(m.segs[1..], maxBytes);
    assert m.segs[1..][e..] == m.segs[1 + e..] && m.log[1..][e..] == m.log[1 + e..];
  }

  /** Bounding once is enough, and leaves the budget respected or one segment. */
  lemma BoundedEnough(m: Memory, maxBytes: nat)
    requires Shaped(m)
    ensures var r := Bounded(m, maxBytes);
      (Size(r) <= maxBytes || |r.segs| == 1) && Bounded(r, maxBytes) == r
  {
    ExcessEnough(m.segs, maxBytes);
    WithinBound(Bounded(m, maxBytes), maxBytes);
  }

  /** No segment goes needlessly: with any of those that go still there, the
      budget is exceeded. */
  lemma {:induction false} ExcessNeeded(segs: seq<Segment>, maxBytes: nat, j: nat)
    requires j < Excess(segs, maxBytes)
    ensures TotalBytes(segs[j..]) > maxBytes
  {
    if j > 0 {
      ExcessNeeded(segs[1..], maxBytes, j - 1);
      assert segs[1..][j - 1..] == segs[j..];
    } else {
      assert segs[0..] == segs;
    }
  }

  /** What an eviction leaves is less than one segment short of the budget. */
  lemma BoundedAbove(m: Memory, maxBytes: nat, n: nat)
    requires Shaped(m) && Small(m.segs, n) && Excess(m.segs, maxBytes) > 0
    ensures Size(Bounded(m, maxBytes)) + n > maxBytes
  {
    var e := Excess(m.segs, maxBytes);
    ExcessNeeded(m.segs, maxBytes, e - 1);
    assert m.segs[e - 1..][0] == m.segs[e - 1] && m.segs[e - 1..][1..] == m.segs[e..];
    assert m.segs[e - 1] in m.segs;
  }

  lemma SizeFiled(m: Memory, n: nat, body: bytes, segmentBytes: nat)
    requires Shaped(m)
    ensures Size(Filed(m, n, body, segmentBytes)) == Size(m) + n
  {
    var open := Opened(m.segs, n, segmentBytes);
    TotalGrown(open, n);
    TotalsSnoc(m.segs, Segment(m.segs[|m.segs| - 1].id + 1, 0, 0));
  }

  /** An empty tail holds no record. */
  ghost predicate TailInStep(m: Memory)
    requires Shaped(m)
  {
    m.segs[|m.segs| - 1].size == 0 ==> m.log[|m.log| - 1] == []
  }

  /** A push as its callers see it: the record goes to the back, evictions take
      whole segments from the front, only what the budget forces, and never the
      new record. */
  lemma PushMeaning(m: Memory, n: nat, body: bytes, segmentBytes: nat, maxBytes: nat)
    requires Shaped(m) && segmentBytes <= maxBytes && TailInStep(m)
    ensures var r, lost := AfterPush(m, n, body, segmentBytes, maxBytes), Evicted(m, n, body, segmentBytes, maxBytes);
      Pushed(Unread(m), body, Unread(r), lost) &&
      (lost > 0 ==> Size(m) + n > maxBytes) &&
      (Size(r) <= maxBytes || |r.segs| == 1) &&
      (Size(r) > maxBytes ==> Unread(r) == [body] && Size(r) == n)
    ensures Small(m.segs, segmentBytes) && n <= segmentBytes ==>
      var r, lost := AfterPush(m, n, body, segmentBytes, maxBytes), Evicted(m, n, body, segmentBytes, maxBytes);
      Small(r.segs, segmentBytes) && Size(r) <= maxBytes && (lost > 0 ==> Size(r) + segmentBytes > maxBytes)
  {
    PushUnread(m, n, body, segmentBytes, maxBytes);
    if Small(m.segs, segmentBytes) && n <= segmentBytes {
      PushSmall(m, n, body, segmentBytes, maxBytes);
    }
    hide AfterPush, Evicted, Small;
  }

  lemma PushUnread(m: Memory, n: nat, body: bytes, segmentBytes: nat, maxBytes: nat)
    requires Shaped(m) && segmentBytes <= maxBytes && TailInStep(m)
    ensures var r, lost := AfterPush(m, n, body, segmentBytes, maxBytes), Evicted(m, n, body, segmentBytes, maxBytes);
      Pushed(Unread(m), body, Unread(r), lost) &&
      (lost > 0 ==> Size(m) + n > maxBytes) &&
      (Size(r) <= maxBytes || |r.segs| == 1) &&
      (Size(r) > maxBytes ==> Unread(r) == [body] && Size(r) == n)
  {
    hide Placed, PlacedLog, Small, Rolls;
    var filed := Filed(m, n, body, segmentBytes);
    PlacedContents(m.segs, m.log, n, segmentBytes, body);
    EvictionKeepsNewest(filed.log, Unread(m), body, Excess(filed.segs, maxBytes));
    LeftOverBudget(m.segs, n, segmentBytes, maxBytes, filed.log, body);
    SizeFiled(m, n, body, segmentBytes);
    BoundedEnough(filed, maxBytes);
    FlattenEmpties(filed.log[..0]);
  }

  lemma PushSmall(m: Memory, n: nat, body: bytes, segmentBytes: nat, maxBytes: nat)
    requires Shaped(m) && segmentBytes <= maxBytes && TailInStep(m) && Small(m.segs, segmentBytes) && n <= segmentBytes
    ensures var r, lost := AfterPush(m, n, body, segmentBytes, maxBytes), Evicted(m, n, body, segmentBytes, maxBytes);
      Small(r.segs, segmentBytes) && Size(r) <= maxBytes && (lost > 0 ==> Size(r) + segmentBytes > maxBytes)
  {
    hide Placed, PlacedLog, Small, Rolls;
    var filed := Filed(m, n, body, segmentBytes);
    PlacedContents(m.segs, m.log, n, segmentBytes, body);
    LeftOverBudget(m.segs, n, segmentBytes, maxBytes, filed.log, body);
    FlattenEmpties(filed.log[..0]);
    if Excess(filed.segs, maxBytes) > 0 {
      BoundedAbove(filed, maxBytes, segmentBytes);
    }
  }

  // ----- How large a segment can get ----------------------------------------------------

  /** A segment above segmentBytes holds exactly one record, unread, of at most
      w bytes. */
  ghost predicate Filled(s: Segment, bodies: seq<bytes>, segmentBytes: nat, w: nat) {
    s.size <= segmentBytes || (s.size <= w && |bodies| == 1 && s.size == HEADER_LEN + |bodies[0]|)
  }

  ghost predicate Tidy(m: Memory, segmentBytes: nat, w: nat) {
    Shaped(m) && forall i :: 0 <= i < |m.segs| ==> Filled(m.segs[i], m.log[i], segmentBytes, w)
  }

  lemma TidySuffix(m: Memory, e: nat, segmentBytes: nat, w: nat)
    requires Tidy(m, segmentBytes, w) && e < |m.segs|
    ensures Tidy(Memory(m.segs[e..], m.log[e..]), segmentBytes, w)
  {
    hide Filled;
  }

  lemma TidyReady(m: Memory, n: nat, segmentBytes: nat, w: nat)
    requires Tidy(m, segmentBytes, w)
    ensures Tidy(Ready(m, n, segmentBytes), segmentBytes, w)
  {
  }

  lemma TidyFiled(m: Memory, body: bytes, segmentBytes: nat, w: nat)
    requires Tidy(m, segmentBytes, w) && TailInStep(m) && HEADER_LEN + |body| <= w
    ensures Tidy(Filed(m, HEADER_LEN + |body|, body, segmentBytes), segmentBytes, w)
  {
    var n := HEADER_LEN + |body|;
    TidyReady(m, n, segmentBytes, w);
    var open, filed := Ready(m, n, segmentBytes), Filed(m, n, body, segmentBytes);
    var last := |open.segs| - 1;
    forall i | 0 <= i < |filed.segs| ensures Filled(filed.segs[i], filed.log[i], segmentBytes, w) {
      if i < last {
        assert filed.segs[i] == open.segs[i] && filed.log[i] == open.log[i];
      }
    }
  }

  lemma TidyPush(m: Memory, body: bytes, segmentBytes: nat, maxBytes: nat, w: nat)
    requires Tidy(m, segmentBytes, w) && TailInStep(m) && HEADER_LEN + |body| <= w
    ensures Tidy(AfterPush(m, HEADER_LEN + |body|, body, segmentBytes, maxBytes), segmentBytes, w)
  {
    TidyFiled(m, body, segmentBytes, w);
    var filed := Filed(m, HEADER_LEN + |body|, body, segmentBytes);
    TidySuffix(filed, Excess(filed.segs, maxBytes), segmentBytes, w);
  }

  lemma TidyExhausted(m: Memory, segmentBytes: nat, w: nat)
    requires Tidy(m, segmentBytes, w) && |m.segs| == 1
    ensures Tidy(Exhausted(m, HeadOffset(m)), segmentBytes, w)
  {
    assert Filled(m.segs[0], m.log[0], segmentBytes, w);
    if |m.log[0]| == 1 {
      assert m.log[0][1..] == [] && RecordBytes(m.log[0][1..]) == 0;
    }
  }

  lemma TidyDiscard(m: Memory, segmentBytes: nat, w: nat)
    requires Tidy(m, segmentBytes, w)
    ensures Tidy(AfterDiscard(m), segmentBytes, w)
  {
    if |m.segs| > 1 {
      TidySuffix(m, 1, segmentBytes, w);
    }
  }

  lemma TidyAck(m: Memory, segmentBytes: nat, w: nat)
    requires Tidy(m, segmentBytes, w)
    ensures Tidy(AfterAck(m), segmentBytes, w)
  {
    hide PeekOutcome;
    TidyDiscard(m, segmentBytes, w);
    if m.log[0] != [] {
      var r := AfterAdvance(m);
      forall i | 0 <= i < |r.segs| ensures Filled(r.segs[i], r.log[i], segmentBytes, w) {
        assert m.log[0][1..] != [] && i > 0 ==> r.segs[i] == m.segs[i] && r.log[i] == m.log[i];
      }
    }
    assert PeekOutcome(m.log).Next? ==> m.log[0] != [] by { NextUnread(m.log); }
  }

  lemma NextUnread(log: seq<seq<bytes>>)
    requires log != []
    ensures PeekOutcome(log).Next? ==> log[0] != []
  {
  }

  /** The byte bound: above the budget there is one segment left, with one record
      of exactly that size. */
  lemma TidyBudget(m: Memory, segmentBytes: nat, maxBytes: nat, w: nat)
    requires Tidy(m, segmentBytes, w) && segmentBytes <= maxBytes && (Size(m) <= maxBytes || |m.segs| == 1)
    ensures Size(m) > maxBytes ==>
      |m.segs| == 1 && Size(m) <= w && |Unread(m)| == 1 && Size(m) == HEADER_LEN + |Unread(m)[0]|
    ensures w <= maxBytes ==> Size(m) <= maxBytes
    ensures w <= segmentBytes ==> Small(m.segs, segmentBytes)
  {
    if |m.segs| == 1 {
      LoneSegment(m.segs, m.log);
    }
  }

  // ----- What crashes lead to ------------------------------------------------------------

  /** A directory in a known layout reopens to it, bounded. */
  lemma LayoutReopens(crc: Crc, d: DirState, m: Memory, headOff: nat, torn: bytes, maxBytes: nat)
    requires Layout(crc, d, m.segs, headOff, m.log, torn) && HeadLinked(d, m.segs, headOff) && AllReadable(m.log)
    requires ReadRecord(crc, torn).Err?
    ensures Shaped(m) && HeadUsable(d) && Reopened(crc, d, maxBytes) == Bounded(m, maxBytes)
  {
    hide Layout, HeadLinked, AllReadable, HeadUsable, ReadRecord;
    LayoutNonempty(crc, d, m.segs, headOff, m.log, torn);
    LayoutDescribes(crc, d, m.segs, headOff, m.log, torn);
    DescribedUsable(crc, d, m.segs, m.log);
  }

  lemma DropReopens(crc: Crc, d: DirState, m: Memory, headOff: nat, maxBytes: nat)
    requires Layout(crc, d, m.segs, headOff, m.log, []) && HeadLinked(d, m.segs, headOff) && AllReadable(m.log)
    requires |m.segs| > 1
    ensures |m.segs| == |m.log|
    ensures var d1 := Removed(d, m.segs[0].id);
      ReopensTo(crc, maxBytes, [d1, WithHead(d1, Cursor(m.segs[1].id, 0))], [Bounded(AfterDiscard(m), maxBytes)])
  {
    hide Layout, HeadLinked, ReadRecord, HeadUsable, Bounded, Reopened;
    LayoutNonempty(crc, d, m.segs, headOff, m.log, []);
    var d1 := Removed(d, m.segs[0].id);
    var rest := AfterDiscard(m);
    DropLayout(crc, d, m.segs, headOff, m.log);
    HeadLayout(crc, d1, rest.segs, 0, rest.log);
    ReadNothing(crc);
    assert AllReadable(rest.log);
    LayoutReopens(crc, d1, rest, 0, [], maxBytes);
    LayoutReopens(crc, WithHead(d1, Cursor(m.segs[1].id, 0)), rest, 0, [], maxBytes);
  }

  /** The states of an append: torn ones reopen to what was there, the complete
      one to what the record makes of it. */
  lemma AppendReopens(crc: Crc, d: DirState, m: Memory, headOff: nat, body: bytes, filed: Memory, maxBytes: nat)
    requires Layout(crc, d, m.segs, headOff, m.log, []) && HeadLinked(d, m.segs, headOff) && AllReadable(m.log)
    requires Readable(body) && Shaped(m)
    requires var last := |m.segs| - 1;
      filed == Memory(m.segs[last := Grown(m.segs[last], |Record(crc, body)|)], m.log[last := m.log[last] + [body]])
    ensures var rec := Record(crc, body);
      ReopensAs(crc, maxBytes, AppendStates(d, m.segs[|m.segs| - 1].id, rec),
                Repeat(Bounded(m, maxBytes), |rec|) + [Bounded(filed, maxBytes)])
  {
    hide Layout, Record, ReadRecord, HeadUsable, Bounded, Reopened;
    var last := |m.segs| - 1;
    var rec := Record(crc, body);
    var states := AppendStates(d, m.segs[last].id, rec);
    forall k | 0 <= k < |states|
      ensures HeadUsable(states[k])
      ensures Reopened(crc, states[k], maxBytes) == if k < |rec| then Bounded(m, maxBytes) else Bounded(filed, maxBytes)
    {
      if k < |rec| {
        TornLayout(crc, d, m.segs, headOff, m.log, rec[..k]);
        TornRecordUnreadable(crc, body, k);
        LayoutReopens(crc, states[k], m, headOff, rec[..k], maxBytes);
      } else {
        AppendLayout(crc, d, m.segs, headOff, m.log, body);
        ReadNothing(crc);
        ReadableLast(m.log, body);
        LayoutReopens(crc, states[k], filed, headOff, [], maxBytes);
      }
    }
  }

  /** What the crash states of storing a record reopen to: the queue after the
      roll, if there is one, until the last byte is written. */
  function StoreResults(m: Memory, n: nat, body: bytes, segmentBytes: nat, maxBytes: nat): seq<Memory>
    requires Shaped(m)
  {
    var ready := Bounded(Ready(m, n, segmentBytes), maxBytes);
    Repeat(ready, if Rolls(m.segs, n, segmentBytes) then n + 1 else n) + [AfterPush(m, n, body, segmentBytes, maxBytes)]
  }

  lemma StoreResultsAre(m: Memory, n: nat, body: bytes, segmentBytes: nat, maxBytes: nat)
    requires Shaped(m)
    ensures
      var ready := Bounded(Ready(m, n, segmentBytes), maxBytes);
      var outcomes := Repeat(ready, n) + [AfterPush(m, n, body, segmentBytes, maxBytes)];
      StoreResults(m, n, body, segmentBytes, maxBytes) ==
      if Rolls(m.segs, n, segmentBytes) then [ready] + outcomes else outcomes
  {
    hide Bounded, Ready, AfterPush;
  }

  /** Every crash while a record is being stored. */
  lemma StoreReopens(crc: Crc, d: DirState, m: Memory, headOff: nat, body: bytes, segmentBytes: nat, maxBytes: nat)
    requires Layout(crc, d, m.segs, headOff, m.log, []) && HeadLinked(d, m.segs, headOff) && AllReadable(m.log)
    requires Readable(body)
    ensures Shaped(m)
    ensures var rec := Record(crc, body);
      ReopensAs(crc, maxBytes, StoreStates(d, m.segs, rec, segmentBytes),
        StoreResults(m, |rec|, body, segmentBytes, maxBytes))
  {
    hide Layout, HeadLinked, AllReadable, Record, HeadUsable, Bounded, Reopened, ReadRecord, Readable, ReopensAs,
         StoreResults;
    LayoutNonempty(crc, d, m.segs, headOff, m.log, []);
    var rec := Record(crc, body);
    var d1, ready := OpenedState(d, m.segs, |rec|, segmentBytes), Ready(m, |rec|, segmentBytes);
    var filed := Filed(m, |rec|, body, segmentBytes);
    StoreKeepsDurable(d, m.segs, headOff, m.log, rec, body, segmentBytes);
    var appending := AppendStates(d1, ready.segs[|ready.segs| - 1].id, rec);
    StoreResultsAre(m, |rec|, body, segmentBytes, maxBytes);
    if Rolls(m.segs, |rec|, segmentBytes) {
      RollLayout(crc, d, m.segs, headOff, m.log);
      ReadNothing(crc);
      LayoutReopens(crc, d1, ready, headOff, [], maxBytes);
      AppendReopens(crc, d1, ready, headOff, body, filed, maxBytes);
      var outcomes := Repeat(Bounded(ready, maxBytes), |rec|) + [Bounded(filed, maxBytes)];
      ReopensAsOne(crc, maxBytes, d1, Bounded(ready, maxBytes));
      ReopensAsConcat(crc, maxBytes, [d1], appending, [Bounded(ready, maxBytes)], outcomes);
    } else {
      AppendReopens(crc, d1, ready, headOff, body, filed, maxBytes);
      assert [] + appending == appending;
    }
    hide Filed, Repeat;
  }

  /** What the crash states of a whole push reopen to: an eviction passes through
      two states, and none of them changes what is left in the end. */
  function PushResults(m: Memory, n: nat, body: bytes, segmentBytes: nat, maxBytes: nat): seq<Memory>
    requires Shaped(m)
  {
    StoreResults(m, n, body, segmentBytes, maxBytes) +
    Repeat(AfterPush(m, n, body, segmentBytes, maxBytes), 2 * Excess(Filed(m, n, body, segmentBytes).segs, maxBytes))
  }

  /** What the crash states of giving up the first segment reopen to. */
  function DiscardResults(m: Memory, headOff: nat): seq<Memory>
    requires Shaped(m)
  {
    if |m.segs| > 1 then [AfterDiscard(m), AfterDiscard(m)] else [Exhausted(m, headOff), AfterDiscard(m)]
  }

  /** What the crash states of an Ack reopen to. */
  function AckResults(m: Memory, headOff: nat): seq<Memory>
    requires Shaped(m)
  {
    match PeekOutcome(m.log)
    case Nothing => []
    case Next(_) => if m.log[0][1..] == [] then DiscardResults(m, headOff) else [AfterAdvance(m)]
    case Unreadable(_) => DiscardResults(m, headOff)
  }

  /** The file states an Ack passes through. */
  function AckStates(d: DirState, m: Memory, headOff: nat): seq<DirState>
    requires Shaped(m)
  {
    match PeekOutcome(m.log)
    case Nothing => []
    case Next(_) =>
      if m.log[0][1..] == [] then DiscardStates(d, m.segs)
      else [WithHead(d, Cursor(m.segs[0].id, headOff + HEADER_LEN + |m.log[0][0]|))]
    case Unreadable(_) => DiscardStates(d, m.segs)
  }

  lemma {:induction false} TotalTail(segs: seq<Segment>)
    requires segs != []
    ensures TotalBytes(segs[1..]) <= TotalBytes(segs)
  {
  }

  lemma DiscardReopens(crc: Crc, d: DirState, m: Memory, headOff: nat, maxBytes: nat)
    requires Layout(crc, d, m.segs, headOff, m.log, []) && HeadLinked(d, m.segs, headOff) && AllReadable(m.log)
    requires Size(m) <= maxBytes || |m.segs| == 1
    ensures Shaped(m) && ReopensAs(crc, maxBytes, DiscardStates(d, m.segs), DiscardResults(m, headOff))
  {
    hide Layout, HeadLinked, AllReadable, HeadUsable, ReadRecord, Recovered;
    LayoutNonempty(crc, d, m.segs, headOff, m.log, []);
    if |m.segs| > 1 {
      DropReopens(crc, d, m, headOff, maxBytes);
      TotalTail(m.segs);
      WithinBound(AfterDiscard(m), maxBytes);
    } else {
      var id := m.segs[0].id;
      var d1 := Truncated(d, id, 0);
      ResetCrash(crc, d, m.segs, headOff, m.log, maxBytes);
      DescribedUsable(crc, d1, [Segment(id, headOff, 0)], [[]]);
      WithinBound(Exhausted(m, headOff), maxBytes);
      ResetLayout(crc, d, m.segs, headOff, m.log);
      HeadLayout(crc, d1, [Segment(id, 0, 0)], 0, [[]]);
      EmptyReadable();
      ReadNothing(crc);
      LayoutReopens(crc, WithHead(d1, Cursor(id, 0)), AfterDiscard(m), 0, [], maxBytes);
      WithinBound(AfterDiscard(m), maxBytes);
    }
  }

  lemma AdvanceReopens(crc: Crc, d: DirState, m: Memory, headOff: nat, maxBytes: nat)
    requires Layout(crc, d, m.segs, headOff, m.log, []) && AllReadable(m.log) && Shaped(m)
    requires m.log[0] != [] && m.log[0][1..] != []
    requires Size(m) <= maxBytes || |m.segs| == 1
    ensures var d' := WithHead(d, Cursor(m.segs[0].id, headOff + HEADER_LEN + |m.log[0][0]|));
      ReopensAs(crc, maxBytes, [d'], [AfterAdvance(m)])
  {
    hide Layout, HeadLinked, AllReadable, HeadUsable, ReadRecord, Bounded, Reopened;
    var off := headOff + HEADER_LEN + |m.log[0][0]|;
    HeadRecords(crc, d, m, headOff);
    AdvanceReadable(m.log);
    AdvanceLayout(crc, d, m.segs, headOff, m.log);
    var r := AfterAdvance(m);
    HeadLayout(crc, d, r.segs, off, r.log);
    ReadNothing(crc);
    LayoutReopens(crc, WithHead(d, Cursor(m.segs[0].id, off)), r, off, [], maxBytes);
    assert r.segs[1..] == m.segs[1..];
    WithinBound(r, maxBytes);
  }

  lemma HeadRecords(crc: Crc, d: DirState, m: Memory, headOff: nat)
    requires Layout(crc, d, m.segs, headOff, m.log, [])
    ensures Shaped(m) && m.segs[0].records == |m.log[0]| && headOff == HeadOffset(m)
  {
    HoldsAt(crc, d, m.segs, headOff, m.log, [], 0);
    EncodedLength(crc, m.log[0]);
  }

  lemma {:induction false} EncodedLength(crc: Crc, bodies: seq<bytes>)
    ensures |Encoded(crc, bodies)| == RecordBytes(bodies)
  {
    if bodies != [] {
      EncodedLength(crc, bodies[1..]);
    }
  }

  lemma FreshReopens(crc: Crc, d: DirState, maxBytes: nat)
    requires d.files == map[1 := []] && (HeadOf(d).id == 0 || HeadOf(d) == Cursor(1, 0))
    ensures Reopened(crc, d, maxBytes) == Fresh
  {
    hide Scan;
    assert d.files.Keys == {1};
    SingleFileRecovered(crc, d, 1, maxBytes);
    ScanEmpty(crc, StartOf(d, 1));
    assert FileOf(d, 1) == [];
    WithinBound(Fresh, maxBytes);
  }

  /** Interrupted recovery leads to the same queue. */
  lemma AlikeReopens(crc: Crc, d: DirState, states: seq<DirState>, maxBytes: nat)
    requires AllAlike(crc, d, states) && HeadUsable(d)
    ensures ReopensTo(crc, maxBytes, states, [Reopened(crc, d, maxBytes)])
  {
    hide ScansAlike, HeadUsable;
    forall t <- states ensures HeadUsable(t) && Reopened(crc, t, maxBytes) == Reopened(crc, d, maxBytes) {
      AlikeRecovered(crc, d, t, maxBytes);
      AlikeUsable(crc, d, t);
    }
  }
}
