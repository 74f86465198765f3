/** The durable queue: a segmented append-only log with a persisted read
    cursor, a byte budget that evicts whole oldest segments, and a recovery
    scan. Its abstract value is the sequence of unread record bodies. */
module DiskQueues {
  import opened Bytes
  import opened Messages
  import opened Sequences
  import opened Records
  import opened Directories
  import opened Recovery
  import opened CrashSafety
  import opened Reopening
  import opened QueueContract
  import opened QueueModel

  /** Sync only adds an fsync, which no process crash can see. */
  datatype Options = Options(maxBytes: int, segmentBytes: int)

  const DEFAULT_MAX_BYTES := 0x400_0000
  const DEFAULT_SEGMENT_BYTES := 0x40_0000

  /** Open's defaulting: both bounds positive, a segment at most half of the
      budget (or one byte). */
  function Normalised(o: Options): (r: Options)
    ensures 1 <= r.segmentBytes <= r.maxBytes
    ensures r.maxBytes > 1 ==> 2 * r.segmentBytes <= r.maxBytes
    ensures r.maxBytes == if o.maxBytes >= 1 then o.maxBytes else 67108864
    ensures 1 <= o.segmentBytes <= r.maxBytes / 2 ==> r.segmentBytes == o.segmentBytes
    ensures o.segmentBytes < 1 && r.maxBytes >= 8388608 ==> r.segmentBytes == 4194304
    ensures o.segmentBytes > r.maxBytes / 2 || (o.segmentBytes < 1 && r.maxBytes < 8388608) ==>
      r.segmentBytes == if r.maxBytes == 1 then 1 else r.maxBytes / 2
  {
    var maxBytes := if o.maxBytes <= 0 then DEFAULT_MAX_BYTES else o.maxBytes;
    var segmentBytes := if o.segmentBytes <= 0 then DEFAULT_SEGMENT_BYTES else o.segmentBytes;
    var half := if maxBytes / 2 > 1 then maxBytes / 2 else 1;
    Options(maxBytes, if segmentBytes > maxBytes / 2 then half else segmentBytes)
  }

  // ----- The queue ------------------------------------------------------------

  class Queue {
    const crc: Crc
    const dir: Directory
    const maxBytes: nat
    const segmentBytes: nat
    /** Oldest first; the last one is written to. */
    var segments: seq<Segment>
    var headOff: nat
    var count: nat
    var bytes: nat
    var dropped: nat
    var peeked: Option<Message>
    var peekLen: nat
    var closed: bool
    /** The unread bodies, segment by segment. */
    ghost var log: seq<seq<bytes>>

    /** The bookkeeping agrees with the files. */
    ghost predicate Rep()
      reads this, dir
    {
      1 <= segmentBytes <= maxBytes &&
      Layout(crc, dir.state, segments, headOff, log, []) &&
      count == |Flatten(log)| && bytes == TotalBytes(segments) &&
      (peeked.Some? ==>
        log[0] != [] && Readable(log[0][0]) && Decode(log[0][0]) == Ok(peeked.value) &&
        peekLen == HEADER_LEN + |log[0][0]|)
    }

    /** ... and the byte budget is respected as far as eviction can. */
    ghost predicate Valid()
      reads this, dir
    {
      Rep() && (bytes <= maxBytes || |segments| == 1)
    }

    /** A crash now loses nothing: the head file is in step and every unread
        body is within the limits of the recovery scan. */
    ghost predicate Durable()
      reads this, dir
    {
      HeadLinked(dir.state, segments, headOff) && AllReadable(log)
    }

    ghost function Contents(): (unread: seq<bytes>)
      reads this
    {
      Flatten(log)
    }

    ghost function Now(): Memory
      reads this
    {
      Memory(segments, log)
    }

    /** A fresh queue value over dir, before recover fills it. */
    constructor (crc: Crc, dir: Directory, opts: Options)
      ensures this.crc == crc && this.dir == dir
      ensures maxBytes == Normalised(opts).maxBytes && segmentBytes == Normalised(opts).segmentBytes
      ensures segments == [] && headOff == count == bytes == dropped == 0
      ensures peeked == None && !closed && log == []
    {
      this.crc, this.dir := crc, dir;
      maxBytes, segmentBytes := Normalised(opts).maxBytes, Normalised(opts).segmentBytes;
      segments, headOff, count, bytes, dropped := [], 0, 0, 0, 0;
      peeked, peekLen, closed, log := None, 0, false, [];
    }

    /** writeHead */
    method WriteHead()
      requires Rep()
      modifies dir
      ensures Rep() && HeadLinked(dir.state, segments, headOff)
      ensures dir.state == WithHead(old(dir.state), Cursor(segments[0].id, headOff))
      ensures dir.trace == old(dir.trace) + [dir.state]
    {
      HeadLayout(crc, dir.state, segments, headOff, log);
      dir.WriteHead(Cursor(segments[0].id, headOff));
    }

    /** dropHead: remove the oldest segment, counting its unread records as
        dropped when asked to. */
    method DropHead(counting: bool)
      requires Rep() && |segments| > 1
      modifies this, dir
      ensures Rep() && peeked == None && closed == old(closed)
      ensures segments == old(segments)[1..] && log == old(log)[1..] && headOff == 0
      ensures bytes == old(bytes) - old(segments)[0].size
      ensures dropped == old(dropped) + if counting then |old(log)[0]| else 0
      ensures HeadLinked(dir.state, segments, headOff)
      ensures dir.state == WithHead(Removed(old(dir.state), old(segments)[0].id), Cursor(segments[0].id, 0))
      ensures dir.trace == old(dir.trace) + [Removed(old(dir.state), old(segments)[0].id), dir.state]
    {
      hide Layout;
      RepShape();
      var head := segments[0];
      assert segments[0].records == |log[0]|;
      DropLayout(crc, dir.state, segments, headOff, log);
      HeadLayout(crc, Removed(dir.state, head.id), segments[1..], 0, log[1..]);
      if counting {
        dropped := dropped + head.records;
      }
      count := count - head.records;
      bytes := bytes - head.size;
      peeked := None;
      headOff := 0;
      dir.Remove(head.id);
      segments := segments[1..];
      log := log[1..];
      dir.WriteHead(Cursor(segments[0].id, headOff));
    }

    /** One eviction. Each state it passes through reopens to what remains when
        the whole excess is gone. */
    method Evict()
      requires Rep() && bytes > maxBytes && |segments| > 1
      modifies this, dir
      ensures Rep() && closed == old(closed)
      ensures segments == old(segments)[1..] && log == old(log)[1..] && headOff == 0
      ensures bytes == old(bytes) - old(segments)[0].size
      ensures dropped == old(dropped) + |old(log)[0]|
      ensures old(Durable()) ==> Durable()
      ensures |dir.trace| == |old(dir.trace)| + 2 && dir.trace[..|old(dir.trace)|] == old(dir.trace)
      ensures old(Durable()) ==>
        var left := Flatten(log[Excess(segments, maxBytes)..]);
        Atomic(crc, maxBytes, dir.trace[|old(dir.trace)|..], left, left) &&
        ReopensTo(crc, maxBytes, dir.trace[|old(dir.trace)|..], [Bounded(old(Now()), maxBytes)])
    {
      hide Layout, HeadUsable, Recovered, ReopensTo, Bounded;
      RepShape();
      if Durable() {
        DropSafe(crc, dir.state, segments, headOff, log, maxBytes);
        DropReopens(crc, dir.state, Now(), headOff, maxBytes);
        BoundedRest(Now(), maxBytes);
      }
      ghost var trace := dir.trace;
      ghost var removed := Removed(dir.state, segments[0].id);
      ghost var states := [removed, WithHead(removed, Cursor(segments[1].id, 0))];
      DropHead(true);
      assert dir.trace == trace + states;
      assert dir.trace[|trace|..] == states;
    }

    /** enforceBound: drop whole oldest segments while over budget, never the
        last one. */
    method EnforceBound()
      requires Rep()
      modifies this, dir
      ensures Valid() && closed == old(closed)
      ensures var e := Excess(old(segments), maxBytes);
        e < |old(segments)| == |old(log)| &&
        segments == old(segments)[e..] && log == old(log)[e..] &&
        dropped == old(dropped) + |Flatten(old(log)[..e])| &&
        headOff == (if e == 0 then old(headOff) else 0)
      ensures old(Durable()) ==> Durable()
      ensures |dir.trace| >= |old(dir.trace)| && dir.trace[..|old(dir.trace)|] == old(dir.trace)
      ensures old(Durable()) ==>
        Atomic(crc, maxBytes, dir.trace[|old(dir.trace)|..], Flatten(log), Flatten(log)) &&
        ReopensTo(crc, maxBytes, dir.trace[|old(dir.trace)|..], [Now()])
      ensures |dir.trace| == |old(dir.trace)| + 2 * Excess(old(segments), maxBytes)
      ensures Excess(old(segments), maxBytes) == 0 ==>
        dir.trace == old(dir.trace) && dir.state == old(dir.state) && bytes == old(bytes)
      ensures Excess(old(segments), maxBytes) > 0 && Small(old(segments), segmentBytes) ==>
        bytes > maxBytes - segmentBytes
    {
      hide Rep, Durable, Layout, HeadLinked, AllReadable, Atomic, Flatten, ReopensTo, Excess, TotalBytes, Small,
           Bounded;
      RepTotals();
      ghost var segs0, log0, left' := segments, log, Bounded(Now(), maxBytes);
      ReopensNone(crc, maxBytes, [left']);
      ghost var n := |dir.trace|;
      ghost var k := 0;
      ghost var left := Flatten(log[Excess(segments, maxBytes)..]);
      assert segs0[0..] == segs0 && log0[0..] == log0 && log0[..0] == [];
      NoneGone<Bytes.bytes>();
      assert dir.trace[n..] == [];
      AtomicNone(crc, maxBytes, left);
      while bytes > maxBytes && |segments| > 1
        invariant Rep() && closed == old(closed)
        invariant 0 <= k < |segs0| == |log0| && segments == segs0[k..] && log == log0[k..]
        invariant Excess(segs0, maxBytes) == k + Excess(segments, maxBytes)
        invariant dropped == old(dropped) + |Flatten(log0[..k])|
        invariant headOff == if k == 0 then old(headOff) else 0
        invariant old(Durable()) ==> Durable()
        invariant |dir.trace| == n + 2 * k && dir.trace[..n] == old(dir.trace)
        invariant old(Durable()) ==> Atomic(crc, maxBytes, dir.trace[n..], left, left)
        invariant left == Flatten(log[Excess(segments, maxBytes)..]) && left' == Bounded(Now(), maxBytes)
        invariant old(Durable()) ==> ReopensTo(crc, maxBytes, dir.trace[n..], [left'])
        invariant k == 0 ==> dir.trace == old(dir.trace) && dir.state == old(dir.state) && bytes == old(bytes)
        invariant k > 0 && Small(segs0, segmentBytes) ==> bytes > maxBytes - segmentBytes
        decreases |segments|
      {
        RepTotals();
        EvictionStep(segs0, log0, k, maxBytes);
        BoundedRest(Now(), maxBytes);
        ghost var trace := dir.trace;
        Evict();
        TraceSplit(old(dir.trace), trace, dir.trace);
        if old(Durable()) {
          AtomicConcat(crc, maxBytes, trace[n..], dir.trace[|trace|..], left, left);
          ReopensConcat(crc, maxBytes, trace[n..], dir.trace[|trace|..], [left']);
        }
        k := k + 1;
      }
      RepTotals();
      BoundReached(Now(), maxBytes);
    }

    static lemma NoneGone<T>()
      ensures Flatten<T>([]) == []
    {
    }

    static lemma BoundReached(m: Memory, maxBytes: nat)
      requires Shaped(m) && (TotalBytes(m.segs) <= maxBytes || |m.segs| == 1)
      ensures Excess(m.segs, maxBytes) == 0 && m.log[0..] == m.log && m.segs[0..] == m.segs
      ensures Bounded(m, maxBytes) == m
    {
    }

    /** The k-th eviction, in terms of the segments before the first. */
    static lemma EvictionStep(segs0: seq<Segment>, log0: seq<seq<Bytes.bytes>>, k: nat, maxBytes: nat)
      requires k < |segs0| == |log0| && |segs0[k..]| > 1 && TotalBytes(segs0[k..]) > maxBytes
      ensures segs0[k..][0] == segs0[k] && segs0[k..][1..] == segs0[k + 1..]
      ensures log0[k..][0] == log0[k] && log0[k..][1..] == log0[k + 1..]
      ensures |Flatten(log0[..k + 1])| == |Flatten(log0[..k])| + |log0[k]|
      ensures Excess(segs0[k..], maxBytes) == 1 + Excess(segs0[k + 1..], maxBytes)
      ensures log0[k..][Excess(segs0[k..], maxBytes)..] == log0[k + 1..][Excess(segs0[k + 1..], maxBytes)..]
      ensures forall n :: Small(segs0, n) ==> segs0[k].size <= n
    {
      assert segs0[k] in segs0;
      assert log0[..k + 1] == log0[..k] + [log0[k]];
      FlattenSnoc(log0[..k], log0[k]);
      assert segs0[k..][1..] == segs0[k + 1..] && log0[k..][1..] == log0[k + 1..];
    }

    /** roll: start a new segment. */
    method Roll()
      requires Rep()
      modifies this, dir
      ensures Rep() && closed == old(closed) && dropped == old(dropped)
      ensures headOff == old(headOff) && bytes == old(bytes)
      ensures |old(segments)| == |old(log)| >= 1
      ensures var id := old(segments)[|old(segments)| - 1].id + 1;
        segments == old(segments) + [Segment(id, 0, 0)] && log == old(log) + [[]] &&
        dir.state == Created(old(dir.state), id)
      ensures dir.trace == old(dir.trace) + [dir.state]
    {
      hide Layout;
      RepShape();
      RollLayout(crc, dir.state, segments, headOff, log);
      var s := Segment(segments[|segments| - 1].id + 1, 0, 0);
      TotalsSnoc(segments, s);
      FlattenSnoc(log, []);
      dir.Create(s.id);
      segments := segments + [s];
      log := log + [[]];
    }

    /** The append and the bookkeeping that follows it. */
    method Write(rec: bytes, ghost body: bytes)
      requires Rep() && 0 < |body| < 0x1_0000_0000 && rec == Record(crc, body)
      modifies this, dir
      ensures Rep() && closed == old(closed) && dropped == old(dropped) && headOff == old(headOff)
      ensures |old(segments)| == |old(log)| >= 1
      ensures var last := |old(segments)| - 1;
        segments == old(segments)[last := Grown(old(segments)[last], |rec|)] &&
        log == old(log)[last := old(log)[last] + [body]] &&
        dir.state == Appended(old(dir.state), old(segments)[last].id, rec) &&
        dir.trace == old(dir.trace) + AppendStates(old(dir.state), old(segments)[last].id, rec)
    {
      hide Layout, Record;
      RepShape();
      AppendLayout(crc, dir.state, segments, headOff, log, body);
      FlattenLast(log, body);
      TotalGrown(segments, |rec|);
      var last := |segments| - 1;
      dir.Append(segments[last].id, rec);
      assert log[0] != [] ==> log[last := log[last] + [body]][0][0] == log[0][0];
      segments := segments[last := Grown(segments[last], |rec|)];
      log := log[last := log[last] + [body]];
      count := count + 1;
      bytes := bytes + |rec|;
    }

    /** Roll if a record does not fit in the tail, then append it. */
    method AppendRecord(rec: bytes, ghost body: bytes)
      requires Rep() && 0 < |body| < 0x1_0000_0000 && rec == Record(crc, body)
      modifies this, dir
      ensures Rep() && closed == old(closed) && dropped == old(dropped) && headOff == old(headOff)
      ensures |old(segments)| == |old(log)| >= 1
      ensures segments == Placed(old(segments), |rec|, segmentBytes)
      ensures log == PlacedLog(old(segments), old(log), |rec|, segmentBytes, body)
      ensures dir.state == StoredState(old(dir.state), old(segments), rec, segmentBytes)
      ensures dir.trace == old(dir.trace) + StoreStates(old(dir.state), old(segments), rec, segmentBytes)
    {
      hide Rep, Layout, Record;
      RepShape();
      var tail := segments[|segments| - 1];
      ghost var d0, segs0, log0, trace0 := dir.state, segments, log, dir.trace;
      if tail.size > 0 && tail.size + |rec| > segmentBytes {
        Roll();
        assert Rolls(segs0, |rec|, segmentBytes);
      }
      assert segments == Opened(segs0, |rec|, segmentBytes);
      assert log == OpenedLog(segs0, log0, |rec|, segmentBytes);
      assert dir.state == OpenedState(d0, segs0, |rec|, segmentBytes);
      RepShape();
      Write(rec, body);
      assert segments == Placed(segs0, |rec|, segmentBytes);
    }

    /** A tail of size zero holds no record. */
    lemma EmptyTail()
      requires Rep() && segments[|segments| - 1].size == 0
      ensures log[|segments| - 1] == []
    {
      hide Lists, Holds;
      var last := |segments| - 1;
      HoldsAt(crc, dir.state, segments, headOff, log, [], last);
      EmptyHolds(crc, dir.state, segments[last], From(headOff, last), log[last]);
    }

    /** Append one encoded record and enforce the bound: everything Push does
        under its lock. */
    method Store(rec: bytes, ghost body: bytes)
      requires Valid() && 0 < |body| < 0x1_0000_0000 && rec == Record(crc, body)
      modifies this, dir
      ensures Valid() && closed == old(closed) && Shaped(old(Now()))
      ensures Now() == AfterPush(old(Now()), |rec|, body, segmentBytes, maxBytes)
      ensures dropped == old(dropped) + Evicted(old(Now()), |rec|, body, segmentBytes, maxBytes)
      ensures old(Durable()) && Readable(body) ==> Durable()
      ensures old(dir.trace) + StoreStates(old(dir.state), old(segments), rec, segmentBytes) <= dir.trace
      ensures old(Durable()) && Readable(body) ==>
        ReopensAs(crc, maxBytes, dir.trace[|old(dir.trace)|..],
          PushResults(old(Now()), |rec|, body, segmentBytes, maxBytes)) &&
        (Atomic(crc, maxBytes, dir.trace[|old(dir.trace)|..], old(Contents()), Contents()) <==>
         old(bytes) <= maxBytes || old(Contents()) == [])
    {
      hide Rep, Layout, Atomic, Record, Placed, PlacedLog, Excess, Readable, Flatten, TotalBytes, HeadLinked,
           AllReadable, StoredState, StoreStates, ReopensTo, ReopensAs, StoreResults, PushResults;
      RepShape();
      ghost var before, m0, d0, trace0 := Contents(), Now(), dir.state, dir.trace;
      ghost var durable := Durable() && Readable(body);
      if durable {
        StoreCrashes(crc, d0, segments, headOff, log, body, segmentBytes, maxBytes);
        StoreReopens(crc, d0, m0, headOff, body, segmentBytes, maxBytes);
      }
      AppendRecord(rec, body);
      ghost var trace1 := dir.trace;
      EnforceBound();
      RepShape();
      TraceSplit(trace0, trace1, dir.trace);
      if durable {
        AtomicWeaken(crc, maxBytes, dir.trace[|trace1|..], before, Contents());
        AtomicSplit(crc, maxBytes, trace1[|trace0|..], dir.trace[|trace1|..], before, Contents());
        StoreThenBound(crc, maxBytes, trace1[|trace0|..], dir.trace[|trace1|..], m0, |rec|, body, segmentBytes);
      }
    }

    static lemma StoreThenBound(
        crc: Crc, maxBytes: nat, a: seq<DirState>, b: seq<DirState>, m: Memory,
        n: nat, body: Bytes.bytes, segmentBytes: nat)
      requires Shaped(m) && ReopensAs(crc, maxBytes, a, StoreResults(m, n, body, segmentBytes, maxBytes))
      requires ReopensTo(crc, maxBytes, b, [AfterPush(m, n, body, segmentBytes, maxBytes)])
      requires |b| == 2 * Excess(Filed(m, n, body, segmentBytes).segs, maxBytes)
      ensures ReopensAs(crc, maxBytes, a + b, PushResults(m, n, body, segmentBytes, maxBytes))
    {
      var after := AfterPush(m, n, body, segmentBytes, maxBytes);
      hide ReopensTo, ReopensAs, StoreResults, AfterPush;
      ReopensAlways(crc, maxBytes, b, after);
      ReopensAsConcat(crc, maxBytes, a, b, StoreResults(m, n, body, segmentBytes, maxBytes), Repeat(after, |b|));
    }

    /** Push appends m and evicts the oldest segments while over budget: the
        unread records become a suffix of the old ones followed by the new one,
        which always stays; what is cut is what the budget forces and counted in
        dropped. A crash anywhere reopens to the queue before, after the roll, or
        afterwards. */
    method Push(m: Message) returns (ok: bool)
      requires Valid() && |Body(m)| < 0x1_0000_0000
      modifies this, dir
      ensures Valid() && closed == old(closed) && ok == !old(closed) && Shaped(old(Now()))
      ensures !ok ==>
        Now() == old(Now()) && dropped == old(dropped) && dir.trace == old(dir.trace) && dir.state == old(dir.state)
      ensures ok ==>
        var n := |Record(crc, Body(m))|;
        Now() == AfterPush(old(Now()), n, Body(m), segmentBytes, maxBytes) &&
        dropped == old(dropped) + Evicted(old(Now()), n, Body(m), segmentBytes, maxBytes)
      ensures ok ==> StoredAs(old(Now()), 8 + |Body(m)|, Body(m), segmentBytes, Now())
      ensures ok ==> Pushed(old(Contents()), Body(m), Contents(), dropped - old(dropped))
      ensures ok && dropped > old(dropped) ==> old(bytes) + |Record(crc, Body(m))| > maxBytes
      ensures ok && bytes > maxBytes ==> Contents() == [Body(m)] && bytes == |Record(crc, Body(m))|
      ensures ok && Small(old(segments), segmentBytes) && |Record(crc, Body(m))| <= segmentBytes ==>
        Small(segments, segmentBytes) && bytes <= maxBytes &&
        (dropped > old(dropped) ==> bytes > maxBytes - segmentBytes)
      ensures old(Durable()) && Readable(Body(m)) ==> Durable()
      ensures ok ==>
        old(dir.trace) + StoreStates(old(dir.state), old(segments), Record(crc, Body(m)), segmentBytes) <= dir.trace
      ensures ok && old(Durable()) && Readable(Body(m)) ==>
        var n := |Record(crc, Body(m))|;
        ReopensAs(crc, maxBytes, dir.trace[|old(dir.trace)|..],
          PushResults(old(Now()), n, Body(m), segmentBytes, maxBytes)) &&
        (Atomic(crc, maxBytes, dir.trace[|old(dir.trace)|..], old(Contents()), Contents()) <==>
         old(bytes) <= maxBytes || old(Contents()) == [])
    {
      hide Rep, Durable, Atomic, Record, Body, Small, Readable, Pushed, AfterPush, Evicted, ReopensAs, PushResults,
        StoreStates, StoredAs, Flatten, TotalBytes;
      RepShape();
      if closed {
        return false;
      }
      BodyNonempty(m);
      var rec := EncodeRecord(m);
      ghost var m0 := Now();
      TailKnown();
      Store(rec, Body(m));
      RepShape();
      PushMeaning(m0, |rec|, Body(m), segmentBytes, maxBytes);
      PushPlacement(m0, |rec|, Body(m), segmentBytes, maxBytes);
      return true;
    }

    /** A tail of size zero holds no record. */
    lemma TailKnown()
      requires Rep()
      ensures Shaped(Now()) && TailInStep(Now())
    {
      hide Rep, Layout, Flatten, TotalBytes;
      RepShape();
      if segments[|segments| - 1].size == 0 {
        EmptyTail();
      }
    }

    method EncodeRecord(m: Message) returns (rec: seq<byte>)
      ensures rec == Record(crc, Body(m))
    {
      var buf := Encode(crc, m);
      rec := buf[..];
    }

    /** What a read at the cursor finds. */
    lemma ReadAtHead()
      requires Rep()
      ensures segments[0].id in dir.state.files && headOff <= |dir.state.files[segments[0].id]|
      ensures var r := ReadRecord(crc, dir.state.files[segments[0].id][headOff..]);
        if log[0] == [] then r == Err(HeaderMissing)
        else r == if Readable(log[0][0]) then Ok(log[0][0]) else Err(Corrupt)
    {
      HoldsAt(crc, dir.state, segments, headOff, log, [], 0);
      var rest := dir.state.files[segments[0].id][headOff..];
      assert rest == Encoded(crc, log[0]) + [];
      if log[0] != [] {
        assert rest == Record(crc, log[0][0]) + Encoded(crc, log[0][1..]);
        assert log[0][0] in log[0];
        ReadBack(crc, log[0][0], Encoded(crc, log[0][1..]));
      }
    }

    /** Peek returns the oldest unread message and changes nothing a caller can
        see; calling it again gives the same answer. */
    method Peek() returns (r: PeekResult)
      requires Rep()
      modifies this`peeked, this`peekLen
      ensures Rep() && log != [] && r == PeekOutcome(log)
      ensures (old(Valid()) ==> Valid()) && (old(Durable()) ==> Durable()) && Contents() == old(Contents())
      ensures r.Next? <==> peeked.Some?
    {
      RepShape();
      hide Layout, Decode, ReadRecord;
      if count == 0 {
        return Nothing;
      }
      if peeked.Some? {
        assert Flatten(log) != [];
        return Next(peeked.value);
      }
      ReadAtHead();
      var file := dir.state.files[segments[0].id];
      var read := ReadRecord(crc, file[headOff..]);
      match read {
        case Err(e) =>
          return Unreadable(e);
        case Ok(body) =>
          var msg := Decode(body);
          match msg {
            case Err(e) =>
              return Unreadable(e);
            case Ok(m) =>
              peeked := Some(m);
              peekLen := HEADER_LEN + |body|;
              return Next(m);
          }
      }
    }

    /** resetOnly: empty the sole remaining segment. */
    method ResetOnly(counting: bool)
      requires Rep() && |segments| == 1
      modifies this, dir
      ensures Valid() && peeked == None && closed == old(closed)
      ensures segments == [Segment(old(segments)[0].id, 0, 0)] && log == [[]] && headOff == 0
      ensures dropped == old(dropped) + if counting then |old(log)[0]| else 0
      ensures Durable()
      ensures dir.trace == old(dir.trace) + [Truncated(old(dir.state), old(segments)[0].id, 0), dir.state]
      ensures dir.state == WithHead(Truncated(old(dir.state), old(segments)[0].id, 0), Cursor(old(segments)[0].id, 0))
    {
      hide Layout;
      RepShape();
      ResetLayout(crc, dir.state, segments, headOff, log);
      HeadLayout(crc, Truncated(dir.state, segments[0].id, 0), [Segment(segments[0].id, 0, 0)], 0, [[]]);
      FlattenEmpties(log[..0]);
      var head := segments[0];
      if counting {
        dropped := dropped + head.records;
      }
      peeked := None;
      dir.Truncate(head.id, 0);
      segments := [Segment(head.id, 0, 0)];
      headOff, bytes, count := 0, 0, 0;
      log := [[]];
      LoneSegment(segments, log);
      dir.WriteHead(Cursor(head.id, 0));
    }

    /** The error path of Ack and the end of a segment: the whole first segment
        goes, by removal or, if it is the only one, by truncation. */
    method DiscardHead(counting: bool)
      requires Rep()
      modifies this, dir
      ensures Rep() && peeked == None && closed == old(closed)
      ensures |old(segments)| == |old(log)| >= 1 && Contents() == Flatten(old(log)[1..])
      ensures Now() == AfterDiscard(old(Now()))
      ensures dropped == old(dropped) + if counting then |old(log)[0]| else 0
      ensures bytes <= old(bytes) && (|segments| < |old(segments)| || |segments| == 1)
      ensures |segments| < |old(segments)| || count == 0
      ensures old(bytes <= maxBytes || |segments| == 1) ==> Valid()
      ensures Small(old(segments), segmentBytes) ==> Small(segments, segmentBytes)
      ensures old(AllReadable(log)) ==> Durable()
      ensures dir.trace == old(dir.trace) + DiscardStates(old(dir.state), old(segments))
    {
      hide Layout;
      RepShape();
      if |segments| > 1 {
        DropHead(counting);
        assert forall i :: 0 <= i < |log| ==> log[i] == old(log)[i + 1];
        assert forall s <- segments :: s in old(segments);
      } else {
        assert log[1..] == [];
        ResetOnly(counting);
        LoneSegment(segments, log);
      }
    }

    /** The part of Ack after a successful Peek: move the cursor over the record
        just read, and give up the segment at its end. */
    method Advance()
      requires Valid() && log != [] && PeekOutcome(log).Next? && peeked.Some?
      modifies this, dir
      ensures Valid() && closed == old(closed) && dropped == old(dropped)
      ensures Shaped(old(Now())) && Now() == AfterAck(old(Now()))
      ensures Contents() == old(Contents())[1..] && count < old(count) && bytes <= old(bytes) &&
        |segments| <= |old(segments)|
      ensures Small(old(segments), segmentBytes) ==> Small(segments, segmentBytes)
      ensures dir.trace == old(dir.trace) + AckStates(old(dir.state), old(Now()), old(headOff))
      ensures old(Durable()) ==>
        Durable() && Atomic(crc, maxBytes, dir.trace[|old(dir.trace)|..], old(Contents()), Contents()) &&
        ReopensAs(crc, maxBytes, dir.trace[|old(dir.trace)|..], AckResults(old(Now()), old(headOff)))
    {
      hide Layout, HeadLinked, AllReadable, Atomic, Decode, HeadUsable, Recovered, ReopensAs, DiscardResults;
      RepShape();
      ghost var d0, segs0, log0, trace0 := dir.state, segments, log, dir.trace;
      AdvanceLayout(crc, dir.state, segments, headOff, log);
      FlattenAdvance(log);
      AdvanceReadable(log);
      if Durable() {
        AdvanceSafe(crc, d0, segs0, headOff, log0, maxBytes);
        DiscardSafe(crc, d0, segs0, headOff, log0, maxBytes, Contents());
        DiscardReopens(crc, d0, Now(), headOff, maxBytes);
        if log[0][1..] != [] {
          AdvanceReopens(crc, d0, Now(), headOff, maxBytes);
        }
      }
      ghost var durable := Durable();
      SameSizes(segments);
      var head := segments[0];
      headOff := headOff + peekLen;
      count := count - 1;
      segments := segments[0 := head.(records := head.records - 1)];
      log := log[0 := log[0][1..]];
      peeked := None;
      assert log[1..] == log0[1..];
      if headOff >= head.size {
        DiscardHead(false);
        assert dir.trace[|trace0|..] == DiscardStates(d0, segs0);
      } else {
        WriteHead();
        assert dir.trace[|trace0|..] == [dir.state];
        if durable {
          AtomicOne(crc, maxBytes, dir.state, Flatten(log0), Contents());
        }
      }
    }

    /** Decrementing a record count leaves the sizes alone. */
    lemma SameSizes(segs: seq<Segment>)
      requires segs != [] && segs[0].records > 0
      ensures var segs' := segs[0 := segs[0].(records := segs[0].records - 1)];
        TotalBytes(segs') == TotalBytes(segs) && segs'[1..] == segs[1..] &&
        (Small(segs, segmentBytes) ==> Small(segs', segmentBytes))
    {
      var segs' := segs[0 := segs[0].(records := segs[0].records - 1)];
      assert segs'[1..] == segs[1..];
      assert forall s <- segs' :: s == segs'[0] || s in segs;
    }

    /** Ack removes the message Peek would return. When the head record cannot
        be read, the rest of its segment goes with it and is counted as dropped:
        nothing, if the segment was merely exhausted. A crash anywhere in it
        reopens to the state before or after. */
    method Ack()
      requires Valid()
      modifies this, dir
      ensures Valid() && closed == old(closed) && Shaped(old(Now()))
      ensures Now() == AfterAck(old(Now()))
      ensures match PeekOutcome(old(log))
        case Nothing => log == old(log) && dropped == old(dropped) && dir.trace == old(dir.trace)
        case Next(_) => Acked(old(Contents()), Contents()) && dropped == old(dropped)
        case Unreadable(_) =>
          dropped == old(dropped) + |old(log)[0]| && Discarded(old(Contents()), Contents(), |old(log)[0]|)
      ensures !PeekOutcome(old(log)).Nothing? ==> count < old(count) || |segments| < |old(segments)|
      ensures bytes <= old(bytes) && |segments| <= |old(segments)|
      ensures Small(old(segments), segmentBytes) ==> Small(segments, segmentBytes)
      ensures dir.trace == old(dir.trace) + AckStates(old(dir.state), old(Now()), old(headOff))
      ensures old(Durable()) ==>
        Durable() && Atomic(crc, maxBytes, dir.trace[|old(dir.trace)|..], old(Contents()), Contents()) &&
        ReopensAs(crc, maxBytes, dir.trace[|old(dir.trace)|..], AckResults(old(Now()), old(headOff)))
    {
      hide Layout, HeadLinked, AllReadable, Atomic, Decode, HeadUsable, Recovered, Small, DiscardResults;
      RepShape();
      ghost var d0, segs0, log0, trace0, before := dir.state, segments, log, dir.trace, Contents();
      if count == 0 {
        assert dir.trace == trace0 + [] && dir.trace[|trace0|..] == [];
        AtomicNone(crc, maxBytes, Contents());
        return;
      }
      if peeked == None {
        var r := Peek();
        if r.Unreadable? {
          if Durable() {
            DiscardSafe(crc, d0, segs0, headOff, log0, maxBytes, before);
            DiscardReopens(crc, d0, Now(), headOff, maxBytes);
          }
          DiscardHead(true);
          assert dir.trace[|trace0|..] == DiscardStates(d0, segs0);
          return;
        }
      }
      Advance();
    }

    /** Close flushes the head cursor; later pushes are refused. */
    method Close()
      requires Valid()
      modifies this, dir
      ensures Valid() && closed && Now() == old(Now()) && dropped == old(dropped)
      ensures old(AllReadable(log)) ==> Durable() || old(closed)
      ensures dir.trace == if old(closed) then old(dir.trace) else old(dir.trace) + [dir.state]
    {
      if closed {
        return;
      }
      closed := true;
      WriteHead();
    }

    // ----- Recovery --------------------------------------------------------------

    /** scanSegment: count the readable records from `from` on and truncate the
        file behind them. */
    method ScanSegment(id: nat, from: nat) returns (size: nat, records: nat)
      requires id in dir.state.files && from == StartOf(dir.state, id)
      modifies dir
      ensures dir.state == ScannedState(crc, old(dir.state), id)
      ensures dir.trace == old(dir.trace) + [dir.state]
      ensures var r := ScanOf(crc, old(dir.state), id); size == |r.file| && records == |r.bodies|
    {
      hide Bodies, Encoded;
      var file := dir.state.files[id];
      size, records := ScanRecords(crc, file, from);
      if from <= |file| {
        BodiesArePrefix(crc, file[from..]);
        assert file[..size] == file[..from] + file[from..][..size - from];
      }
      dir.Truncate(id, size);
    }

    /** The loop of recover over the listed ids. */
    method Sweep(ids: seq<nat>)
      requires Lists(ids, dir.state.files.Keys)
      requires segments == [] && log == [] && headOff == count == bytes == 0
      modifies this`segments, this`log, this`headOff, this`count, this`bytes, dir
      ensures var d0 := old(dir.state);
        Swept(d0, dir.state, ids, |ids|) && Scanned(crc, d0, dir.state, ids, |ids|) &&
        segments == RecoveredSegments(crc, d0) && log == RecoveredLog(crc, d0) &&
        headOff == if segments == [] then 0 else StartOf(d0, segments[0].id)
      ensures count == |Flatten(log)| && bytes == TotalBytes(segments)
      ensures |dir.trace| >= |old(dir.trace)| && dir.trace[..|old(dir.trace)|] == old(dir.trace)
      ensures AllAlike(crc, old(dir.state), dir.trace[|old(dir.trace)|..]) && ScansAlike(crc, old(dir.state), dir.state)
    {
      hide ScanOf, Swept, Scanned, Lists, ScansAlike, AllAlike, RecoveredSegments, RecoveredLog, FirstLive, StartOf;
      ghost var d0, n := dir.state, |dir.trace|;
      ghost var c := FirstLive(ids, HeadOf(d0).id);
      ghost var segs0, log0 := RecoveredSegments(crc, d0), RecoveredLog(crc, d0);
      var head := HeadOf(dir.state);
      SweepStart(crc, d0, ids);
      AlikeSelf(crc, d0);
      NoneAlike(crc, d0);
      assert dir.trace[n..] == [];
      LiveCount(crc, d0, ids);
      for i := 0 to |ids|
        invariant Swept(d0, dir.state, ids, i) && Scanned(crc, d0, dir.state, ids, i)
        invariant var k := if i < c then 0 else i - c; segments == segs0[..k] && log == log0[..k]
        invariant headOff == if segments == [] then 0 else StartOf(d0, segments[0].id)
        invariant count == |Flatten(log)| && bytes == TotalBytes(segments)
        invariant |dir.trace| >= n && dir.trace[..n] == old(dir.trace)
        invariant AllAlike(crc, d0, dir.trace[n..]) && ScansAlike(crc, d0, dir.state)
      {
        var id := ids[i];
        NextLive(crc, d0, ids, i);
        ghost var now, trace := dir.state, dir.trace;
        if id < head.id {
          SweepDead(crc, d0, now, ids, i);
          AlikeHead(crc, d0, now);
          RemoveDead(crc, now, id);
          dir.Remove(id);
        } else {
          SweepStep(crc, d0, now, ids, i);
          ghost var bodies := ScanOf(crc, d0, id).bodies;
          var size, records := ScanSegment(id, if id == head.id then head.off else 0);
          if id == head.id {
            headOff := if head.off < size then head.off else size;
          }
          TotalsSnoc(segments, Segment(id, size, records));
          FlattenSnoc(log, bodies);
          segments := segments + [Segment(id, size, records)];
          log := log + [bodies];
          count := count + records;
          bytes := bytes + size;
        }
        AllAlikeSnoc(crc, d0, trace[n..], now, dir.state);
        assert dir.trace[n..] == trace[n..] + [dir.state];
      }
      assert segs0[..|segs0|] == segs0 && log0[..|log0|] == log0;
    }

    /** recover: drop the segments below the head, scan the others, start over
        in segment 1 when none is left, and enforce the bound. */
    method Recover()
      requires 1 <= segmentBytes <= maxBytes
      requires segments == [] && log == [] && headOff == count == bytes == dropped == 0 && peeked == None
      modifies this, dir
      ensures Valid() && closed == old(closed) && AllReadable(log)
      ensures Contents() == Recovered(crc, old(dir.state), maxBytes)
      ensures Now() == Reopened(crc, old(dir.state), maxBytes)
      ensures Durable() <==> HeadUsable(old(dir.state))
      ensures var d := old(dir.state);
        dropped == |Flatten(RecoveredLog(crc, d)[..Excess(RecoveredSegments(crc, d), maxBytes)])|
      ensures |dir.trace| >= |old(dir.trace)| && dir.trace[..|old(dir.trace)|] == old(dir.trace)
      ensures HeadUsable(old(dir.state)) ==>
        Atomic(crc, maxBytes, dir.trace[|old(dir.trace)|..], Contents(), Contents()) &&
        ReopensTo(crc, maxBytes, dir.trace[|old(dir.trace)|..], [Now()])
    {
      hide ReopensTo, Layout, Atomic, HeadUsable, HeadLinked, AllReadable, ScanOf, Recovered, Swept, Scanned,
           ScansAlike, AllAlike, RecoveredSegments, RecoveredLog, Lists, Increasing;
      ghost var d0, trace0 := dir.state, dir.trace;
      var ids := Ascending(dir.state.files.Keys);
      Sweep(ids);
      ghost var trace1 := dir.trace;
      RecoveredIs(crc, d0, maxBytes);
      if HeadUsable(d0) {
        AlikeAtomic(crc, d0, trace1[|trace0|..], maxBytes);
        AlikeReopens(crc, d0, trace1[|trace0|..], maxBytes);
      }
      if |segments| == 0 {
        AsManyLive(crc, d0);
        NothingLive(crc, d0, maxBytes);
        FreshLayout(crc, d0, dir.state, ids);
        AlikeHead(crc, d0, dir.state);
        StartFresh();
        FreshRecovered(crc, dir.state, maxBytes);
        if HeadUsable(d0) {
          FreshUsable(d0, dir.state);
          AtomicOne(crc, maxBytes, dir.state, [], []);
          FreshHead(crc, d0, dir.state, maxBytes);
          ReopensOne(crc, maxBytes, dir.state, [Fresh]);
        }
        assert Excess(segments, maxBytes) == 0;
        EnforceBound();
        assert log == [[]] && segments == [Segment(1, 0, 0)];
        LoneSegment(segments, log);
        assert dir.trace[|trace0|..] == trace1[|trace0|..] + [dir.state];
        if HeadUsable(d0) {
          AtomicConcat(crc, maxBytes, trace1[|trace0|..], [dir.state], [], []);
          ReopensConcat(crc, maxBytes, trace1[|trace0|..], [dir.state], [Fresh]);
        }
      } else {
        AsManyLive(crc, d0);
        SweptLayout(crc, d0, dir.state, ids);
        LiveUsable(crc, d0);
        EnforceBound();
        TraceSplit(trace0, trace1, dir.trace);
        AtomicConcat(crc, maxBytes, trace1[|trace0|..], dir.trace[|trace1|..], Contents(), Contents());
        ReopensConcat(crc, maxBytes, trace1[|trace0|..], dir.trace[|trace1|..], [Now()]);
      }
    }

    static lemma FreshHead(crc: Crc, d0: DirState, now: DirState, maxBytes: nat)
      requires LiveIds(d0) == [] && HeadUsable(d0) && now.files == map[1 := []] && now.head == d0.head
      ensures Reopened(crc, now, maxBytes) == Fresh
    {
      FreshReopens(crc, now, maxBytes);
    }

    /** roll(1) on an empty directory. */
    method StartFresh()
      requires dir.state.files == map[] && segments == [] && log == [] && headOff == count == bytes == 0 &&
        peeked == None
      requires 1 <= segmentBytes <= maxBytes
      requires Layout(crc, Created(dir.state, 1), [Segment(1, 0, 0)], 0, [[]], [])
      modifies this, dir
      ensures Rep() && segments == [Segment(1, 0, 0)] && log == [[]] && headOff == 0
      ensures closed == old(closed) && dropped == old(dropped)
      ensures dir.state == Created(old(dir.state), 1) && dir.state.files == map[1 := []] &&
        dir.state.head == old(dir.state).head
      ensures dir.trace == old(dir.trace) + [dir.state]
    {
      hide Layout;
      segments := [Segment(1, 0, 0)];
      log := [[]];
      LoneSegment(segments, log);
      dir.Create(1);
    }

    lemma RepTotals()
      requires Rep()
      ensures |segments| == |log| >= 1 && 1 <= segmentBytes <= maxBytes && bytes == TotalBytes(segments)
    {
    }

    lemma RepShape()
      requires Rep()
      ensures |segments| == |log| >= 1
      ensures forall i :: 0 <= i < |segments| ==> segments[i].records == |log[i]|
      ensures Layout(crc, dir.state, segments, headOff, log, [])
      ensures 1 <= segmentBytes <= maxBytes && bytes == TotalBytes(segments) && count == |Contents()|
    {
      forall i | 0 <= i < |segments| ensures segments[i].records == |log[i]| {
        HoldsAt(crc, dir.state, segments, headOff, log, [], i);
      }
    }
  }
}
