/** What every crash during an operation of the durable queue leaves behind, in
    terms of the unread records the next Open recovers. Values only: the queue
    itself is in DiskQueues. */
module CrashSafety {
  import opened Bytes
  import opened Messages
  import opened Sequences
  import opened Records
  import opened Directories
  import opened Recovery

  /** A queue opened on d can be relied on: its head file does not outlive the
      segments it refers to. */
  ghost predicate HeadUsable(d: DirState) {
    LiveIds(d) != [] || HeadOf(d).id == 0 || HeadOf(d) == Cursor(1, 0)
  }

  /** Every crash in states leads, after reopening, to the unread records
      before or after the operation, and to a usable queue. */
  ghost predicate Atomic(crc: Crc, maxBytes: nat, states: seq<DirState>, before: seq<bytes>, after: seq<bytes>) {
    forall d <- states ::
      HeadUsable(d) && (Recovered(crc, d, maxBytes) == before || Recovered(crc, d, maxBytes) == after)
  }

  lemma AtomicConcat(crc: Crc, maxBytes: nat, a: seq<DirState>, b: seq<DirState>, before: seq<bytes>, after: seq<bytes>)
    requires Atomic(crc, maxBytes, a, before, after) && Atomic(crc, maxBytes, b, before, after)
    ensures Atomic(crc, maxBytes, a + b, before, after)
  {
  }

  lemma AtomicNone(crc: Crc, maxBytes: nat, after: seq<bytes>)
    ensures Atomic(crc, maxBytes, [], after, after)
  {
  }

  lemma AtomicOne(crc: Crc, maxBytes: nat, d: DirState, before: seq<bytes>, after: seq<bytes>)
    requires HeadUsable(d) && (Recovered(crc, d, maxBytes) == before || Recovered(crc, d, maxBytes) == after)
    ensures Atomic(crc, maxBytes, [d], before, after)
  {
  }

  // ----- What crashes leave, operation by operation -------------------------

  /** A directory in a known layout reopens to it. */
  lemma LayoutSafe(crc: Crc, d: DirState, segs: seq<Segment>, headOff: nat, log: seq<seq<bytes>>, torn: bytes,
      maxBytes: nat)
    requires Layout(crc, d, segs, headOff, log, torn) && HeadLinked(d, segs, headOff) && AllReadable(log)
    requires ReadRecord(crc, torn).Err?
    ensures HeadUsable(d)
    ensures Recovered(crc, d, maxBytes) == Flatten(log[Excess(segs, maxBytes)..])
    ensures TotalBytes(segs) <= maxBytes ==> Recovered(crc, d, maxBytes) == Flatten(log)
  {
    hide Layout, HeadLinked, AllReadable, ReadRecord;
    LayoutRecovered(crc, d, segs, headOff, log, torn, maxBytes);
    LayoutDescribes(crc, d, segs, headOff, log, torn);
    assert |RecoveredSegments(crc, d)| == |LiveIds(d)|;
    LayoutNonempty(crc, d, segs, headOff, log, torn);
  }

  lemma LayoutNonempty(crc: Crc, d: DirState, segs: seq<Segment>, headOff: nat, log: seq<seq<bytes>>, torn: bytes)
    requires Layout(crc, d, segs, headOff, log, torn)
    ensures |segs| == |log| >= 1
  {
  }

  /** The two states an eviction passes through reopen to what is left after
      all of the excess is gone. */
  lemma DropSafe(crc: Crc, d: DirState, segs: seq<Segment>, headOff: nat, log: seq<seq<bytes>>, maxBytes: nat)
    requires Layout(crc, d, segs, headOff, log, []) && HeadLinked(d, segs, headOff) && AllReadable(log)
    requires |segs| > 1
    ensures var d1 := Removed(d, segs[0].id);
      var d2 := WithHead(d1, Cursor(segs[1].id, 0));
      var rest := Flatten(log[1..][Excess(segs[1..], maxBytes)..]);
      HeadUsable(d1) && HeadUsable(d2) && Recovered(crc, d1, maxBytes) == rest && Recovered(crc, d2, maxBytes) == rest
  {
    hide Holds, AllHold, Lists;
    var d1 := Removed(d, segs[0].id);
    var d2 := WithHead(d1, Cursor(segs[1].id, 0));
    DropLayout(crc, d, segs, headOff, log);
    HeadLayout(crc, d1, segs[1..], 0, log[1..]);
    ReadNothing(crc);
    LayoutSafe(crc, d1, segs[1..], 0, log[1..], [], maxBytes);
    LayoutSafe(crc, d2, segs[1..], 0, log[1..], [], maxBytes);
  }

  /** Every state of an append except the complete one reopens to the records
      that were there before. */
  lemma TornSafe(crc: Crc, d: DirState, segs: seq<Segment>, headOff: nat, log: seq<seq<bytes>>, body: bytes, k: nat,
      maxBytes: nat)
    requires Layout(crc, d, segs, headOff, log, []) && HeadLinked(d, segs, headOff) && AllReadable(log)
    requires Readable(body) && k < |Record(crc, body)|
    ensures var d' := Appended(d, segs[|segs| - 1].id, Record(crc, body)[..k]);
      HeadUsable(d') && Recovered(crc, d', maxBytes) == Flatten(log[Excess(segs, maxBytes)..])
  {
    hide Holds, AllHold, Lists, Record, ReadRecord;
    var part := Record(crc, body)[..k];
    TornLayout(crc, d, segs, headOff, log, part);
    TornRecordUnreadable(crc, body, k);
    LayoutSafe(crc, Appended(d, segs[|segs| - 1].id, part), segs, headOff, log, part, maxBytes);
  }

  /** All states of one append: the torn ones reopen to `before`, the complete
      one to `after`. */
  lemma AppendSafe(crc: Crc, d: DirState, segs: seq<Segment>, headOff: nat, log: seq<seq<bytes>>, body: bytes,
      maxBytes: nat, before: seq<bytes>, after: seq<bytes>)
    requires Layout(crc, d, segs, headOff, log, []) && HeadLinked(d, segs, headOff) && AllReadable(log)
    requires Readable(body)
    requires Flatten(log[Excess(segs, maxBytes)..]) == before
    requires var last := |segs| - 1;
      var gone := Excess(segs[last := Grown(segs[last], |Record(crc, body)|)], maxBytes);
      Flatten(log[last := log[last] + [body]][gone..]) == after
    ensures Atomic(crc, maxBytes, AppendStates(d, segs[|segs| - 1].id, Record(crc, body)), before, after)
  {
    hide Holds, AllHold, Lists, Record, ReadRecord;
    var last := |segs| - 1;
    var rec := Record(crc, body);
    var states := AppendStates(d, segs[last].id, rec);
    forall k | 0 <= k < |states|
      ensures HeadUsable(states[k]) &&
        (Recovered(crc, states[k], maxBytes) == before || Recovered(crc, states[k], maxBytes) == after)
    {
      if k < |rec| {
        TornSafe(crc, d, segs, headOff, log, body, k, maxBytes);
      } else {
        AppendLayout(crc, d, segs, headOff, log, body);
        ReadNothing(crc);
        var segs', log' := segs[last := Grown(segs[last], |rec|)], log[last := log[last] + [body]];
        assert AllReadable(log');
        assert HeadLinked(states[k], segs', headOff);
        LayoutSafe(crc, states[k], segs', headOff, log', [], maxBytes);
      }
    }
  }

  /** Scanning one record finds it from the start and nothing like it from any
      later offset. */
  lemma ScanOneRecord(crc: Crc, body: bytes, from: nat)
    requires Readable(body)
    ensures Scan(crc, Record(crc, body), from).bodies == [body] <==> from == 0
  {
    hide ReadRecord, Record;
    var rec := Record(crc, body);
    EncodedSnoc(crc, [], body);
    assert [] + [body] == [body];
    if from == 0 {
      assert rec[0..] == Encoded(crc, [body]) + [];
      ReadNothing(crc);
      BodiesOfEncoded(crc, [body], []);
    } else if from <= |rec| {
      BodiesArePrefix(crc, rec[from..]);
    }
  }

  /** With a head file naming a segment that no longer exists, the records of a
      fresh first segment survive a reopen exactly when the cursor is harmless:
      any other one makes the next Open delete or skip them. */
  lemma FreshSegmentSurvives(crc: Crc, head: Option<Cursor>, body: bytes, maxBytes: nat)
    requires Readable(body)
    ensures var d := DirState(map[1 := Record(crc, body)], head);
      Recovered(crc, d, maxBytes) == [body] <==> HeadUsable(DirState(map[], head))
  {
    hide Scan, Record;
    var empty := DirState(map[], head);
    var d := DirState(map[1 := Record(crc, body)], head);
    var h := HeadOf(d);
    assert HeadOf(empty) == h;
    assert LiveIds(empty) == [] by {
      assert (set id | id in empty.files && id >= h.id) == {};
    }
    if h.id > 1 {
      assert (set id | id in d.files && id >= h.id) == {};
      assert RecoveredLog(crc, d) == [];
    } else {
      assert d.files.Keys == {1};
      SingleFileRecovered(crc, d, 1, maxBytes);
      ScanOneRecord(crc, body, StartOf(d, 1));
    }
  }

  /** An append that fits neither case of Atomic's before and after is still
      covered when one of them is all there is. */
  lemma AtomicWeaken(crc: Crc, maxBytes: nat, states: seq<DirState>, before: seq<bytes>, after: seq<bytes>)
    requires Atomic(crc, maxBytes, states, after, after)
    ensures Atomic(crc, maxBytes, states, before, after)
  {
  }

  lemma AtomicSplit(crc: Crc, maxBytes: nat, a: seq<DirState>, b: seq<DirState>, before: seq<bytes>, after: seq<bytes>)
    requires Atomic(crc, maxBytes, b, before, after)
    ensures Atomic(crc, maxBytes, a + b, before, after) <==> Atomic(crc, maxBytes, a, before, after)
  {
    if Atomic(crc, maxBytes, a + b, before, after) {
      forall d <- a
        ensures HeadUsable(d) && (Recovered(crc, d, maxBytes) == before || Recovered(crc, d, maxBytes) == after)
      {
        assert d in a + b;
      }
    }
  }

  lemma BodyNonempty(m: Message)
    ensures |Body(m)| >= 11
  {
  }

  lemma TraceSplit(a: seq<DirState>, b: seq<DirState>, c: seq<DirState>)
    requires |a| <= |b| <= |c| && b[..|a|] == a && c[..|b|] == b
    ensures c[..|a|] == a && c[|a|..] == b[|a|..] + c[|b|..]
  {
  }

  lemma NotAtomic(crc: Crc, maxBytes: nat, states: seq<DirState>, d: DirState, before: seq<bytes>, after: seq<bytes>)
    requires d in states && Recovered(crc, d, maxBytes) != before && Recovered(crc, d, maxBytes) != after
    ensures !Atomic(crc, maxBytes, states, before, after)
  {
  }

  /** A crash right after a roll: a lone segment above the budget is evicted on
      reopening, everything else is kept. */
  lemma RollSafe(crc: Crc, d: DirState, segs: seq<Segment>, headOff: nat, log: seq<seq<bytes>>, maxBytes: nat)
    requires Layout(crc, d, segs, headOff, log, []) && HeadLinked(d, segs, headOff) && AllReadable(log)
    requires TotalBytes(segs) <= maxBytes || |segs| == 1
    ensures var id := segs[|segs| - 1].id + 1;
      var d', segs', log' := Created(d, id), segs + [Segment(id, 0, 0)], log + [[]];
      HeadLinked(d', segs', headOff) && AllReadable(log') && HeadUsable(d') &&
      Recovered(crc, d', maxBytes) == Flatten(log'[Excess(segs', maxBytes)..]) &&
      Recovered(crc, d', maxBytes) == if TotalBytes(segs) <= maxBytes then Flatten(log) else []
  {
    hide Holds, AllHold, Lists, HeadUsable, Recovered;
    var s := Segment(segs[|segs| - 1].id + 1, 0, 0);
    var d', segs', log' := Created(d, s.id), segs + [s], log + [[]];
    RollLayout(crc, d, segs, headOff, log);
    ReadNothing(crc);
    TotalsSnoc(segs, s);
    assert AllReadable(log');
    assert HeadLinked(d', segs', headOff);
    LayoutSafe(crc, d', segs', headOff, log', [], maxBytes);
    FlattenSnoc(log, []);
    if TotalBytes(segs) > maxBytes {
      assert segs'[1..] == [s] && log'[1..] == [[]];
      assert Excess([s], maxBytes) == 0;
      assert Excess(segs', maxBytes) == 1;
      FlattenEmpties(log'[1..]);
    }
  }

  lemma {:induction false} FlattenLast(log: seq<seq<bytes>>, body: bytes)
    requires log != []
    ensures Flatten(log[|log| - 1 := log[|log| - 1] + [body]]) == Flatten(log) + [body]
  {
    var last := |log| - 1;
    var init := log[..last];
    assert log == init + [log[last]];
    assert log[last := log[last] + [body]] == init + [log[last] + [body]];
    FlattenSnoc(init, log[last]);
    FlattenSnoc(init, log[last] + [body]);
  }

  lemma {:induction false} TotalGrown(segs: seq<Segment>, n: nat)
    requires segs != []
    ensures TotalBytes(segs[|segs| - 1 := Grown(segs[|segs| - 1], n)]) == TotalBytes(segs) + n
  {
    var last := |segs| - 1;
    var init := segs[..last];
    assert segs == init + [segs[last]];
    assert segs[last := Grown(segs[last], n)] == init + [Grown(segs[last], n)];
    TotalsSnoc(init, segs[last]);
    TotalsSnoc(init, Grown(segs[last], n));
  }

  /** Evicting the first e segments of a log that ends in `body` drops a prefix
      of the unread records and keeps that last one. */
  lemma EvictionKeepsNewest(log: seq<seq<bytes>>, before: seq<bytes>, body: bytes, e: nat)
    requires e < |log| && Flatten(log) == before + [body] && log[|log| - 1] != []
    ensures var k := |Flatten(log[..e])|;
      k <= |before| && Flatten(log[e..]) == (before + [body])[k..]
  {
    FlattenDrop(log, e);
    var rest := log[e..];
    FlattenSnoc(rest[..|rest| - 1], rest[|rest| - 1]);
    assert rest == rest[..|rest| - 1] + [rest[|rest| - 1]];
  }

  ghost predicate Small(segs: seq<Segment>, n: nat) {
    forall s <- segs :: s.size <= n
  }

  // ----- Where a record of n bytes goes -----------------------------------------

  /** It does not fit in the tail, and the tail is not empty. */
  predicate Rolls(segs: seq<Segment>, n: nat, segmentBytes: nat)
    requires segs != []
  {
    var tail := segs[|segs| - 1];
    tail.size > 0 && tail.size + n > segmentBytes
  }

  function Opened(segs: seq<Segment>, n: nat, segmentBytes: nat): (r: seq<Segment>)
    requires segs != []
    ensures r != []
  {
    if Rolls(segs, n, segmentBytes) then segs + [Segment(segs[|segs| - 1].id + 1, 0, 0)] else segs
  }

  function Placed(segs: seq<Segment>, n: nat, segmentBytes: nat): (r: seq<Segment>)
    requires segs != []
    ensures |r| == |Opened(segs, n, segmentBytes)|
  {
    var open := Opened(segs, n, segmentBytes);
    open[|open| - 1 := Grown(open[|open| - 1], n)]
  }

  function OpenedLog(segs: seq<Segment>, log: seq<seq<bytes>>, n: nat, segmentBytes: nat): (r: seq<seq<bytes>>)
    requires segs != [] && |log| == |segs|
    ensures |r| == |Opened(segs, n, segmentBytes)|
  {
    if Rolls(segs, n, segmentBytes) then log + [[]] else log
  }

  function PlacedLog(segs: seq<Segment>, log: seq<seq<bytes>>, n: nat, segmentBytes: nat,
      body: bytes): (r: seq<seq<bytes>>)
    requires segs != [] && |log| == |segs|
    ensures |r| == |Opened(segs, n, segmentBytes)|
  {
    var open := OpenedLog(segs, log, n, segmentBytes);
    open[|open| - 1 := open[|open| - 1] + [body]]
  }

  function OpenedState(d: DirState, segs: seq<Segment>, n: nat, segmentBytes: nat): DirState
    requires segs != []
  {
    if Rolls(segs, n, segmentBytes) then Created(d, segs[|segs| - 1].id + 1) else d
  }

  function StoredState(d: DirState, segs: seq<Segment>, rec: bytes, segmentBytes: nat): DirState
    requires segs != []
  {
    var open := Opened(segs, |rec|, segmentBytes);
    Appended(OpenedState(d, segs, |rec|, segmentBytes), open[|open| - 1].id, rec)
  }

  /** The states a crash can catch while a record is being stored: after the
      roll, if there is one, and during the append. */
  function StoreStates(d: DirState, segs: seq<Segment>, rec: bytes, segmentBytes: nat): seq<DirState>
    requires segs != []
  {
    var open := Opened(segs, |rec|, segmentBytes);
    var d1 := OpenedState(d, segs, |rec|, segmentBytes);
    (if Rolls(segs, |rec|, segmentBytes) then [d1] else []) + AppendStates(d1, open[|open| - 1].id, rec)
  }

  lemma PlacedContents(segs: seq<Segment>, log: seq<seq<bytes>>, n: nat, segmentBytes: nat, body: bytes)
    requires segs != [] && |log| == |segs|
    ensures Flatten(OpenedLog(segs, log, n, segmentBytes)) == Flatten(log)
    ensures var log' := PlacedLog(segs, log, n, segmentBytes, body);
      Flatten(log') == Flatten(log) + [body] && log'[|log'| - 1] != [] &&
      (Rolls(segs, n, segmentBytes) || log[|log| - 1] == [] ==> log'[|log'| - 1] == [body])
  {
    var open := OpenedLog(segs, log, n, segmentBytes);
    FlattenSnoc(log, []);
    FlattenLast(open, body);
  }

  lemma ReadableLast(log: seq<seq<bytes>>, body: bytes)
    requires log != [] && AllReadable(log) && Readable(body)
    ensures AllReadable(log[|log| - 1 := log[|log| - 1] + [body]])
  {
  }

  lemma EmptyHolds(crc: Crc, d: DirState, seg: Segment, from: nat, bodies: seq<bytes>)
    requires Holds(crc, d, seg, from, bodies, []) && seg.size == 0
    ensures bodies == []
  {
    assert Encoded(crc, bodies) == [];
  }

  lemma LoneTotal(segs: seq<Segment>)
    ensures |segs| == 1 ==> TotalBytes(segs) == segs[0].size
  {
    if |segs| == 1 {
      assert segs[1..] == [];
    }
  }

  /** The states before and during an append, given what was there before and
      what will be left after the eviction. */
  lemma AppendCrashes(crc: Crc, maxBytes: nat, d1: DirState, segs1: seq<Segment>, headOff: nat, log1: seq<seq<bytes>>,
      rolled: seq<DirState>, states: seq<DirState>, body: bytes, before: seq<bytes>, after: seq<bytes>, within: bool)
    requires Layout(crc, d1, segs1, headOff, log1, []) && HeadLinked(d1, segs1, headOff) && AllReadable(log1)
    requires Readable(body) && Flatten(log1) == before
    requires states == AppendStates(d1, segs1[|segs1| - 1].id, Record(crc, body))
    requires var last := |segs1| - 1;
      var log' := log1[last := log1[last] + [body]];
      var segs' := segs1[last := Grown(segs1[last], |Record(crc, body)|)];
      Flatten(log') == before + [body] && after == Flatten(log'[Excess(segs', maxBytes)..])
    requires within ==> TotalBytes(segs1) <= maxBytes || before == []
    requires forall d <- rolled :: HeadUsable(d) && Recovered(crc, d, maxBytes) == if within then before else []
    requires !within ==> rolled != [] && before != []
    ensures Atomic(crc, maxBytes, rolled + states, before, after) <==> within
  {
    hide Layout, AllReadable, HeadUsable, Recovered, Record;
    LayoutNonempty(crc, d1, segs1, headOff, log1, []);
    var last := |segs1| - 1;
    var log' := log1[last := log1[last] + [body]];
    var e := Excess(segs1[last := Grown(segs1[last], |Record(crc, body)|)], maxBytes);
    EvictionKeepsNewest(log', before, body, e);
    if within {
      assert Flatten(log1[Excess(segs1, maxBytes)..]) == before by {
        FlattenDrop(log1, Excess(segs1, maxBytes));
        assert log1[0..] == log1;
      }
      AppendSafe(crc, d1, segs1, headOff, log1, body, maxBytes, before, after);
      AtomicConcat(crc, maxBytes, rolled, states, before, after);
    } else {
      assert after != [];
      assert rolled[0] in rolled + states;
      NotAtomic(crc, maxBytes, rolled + states, rolled[0], before, after);
    }
  }

  lemma StoreKeepsDurable(d: DirState, segs: seq<Segment>, headOff: nat, log: seq<seq<bytes>>, rec: bytes, body: bytes,
      segmentBytes: nat)
    requires segs != [] && |log| == |segs| && HeadLinked(d, segs, headOff) && AllReadable(log) && Readable(body)
    ensures HeadLinked(OpenedState(d, segs, |rec|, segmentBytes), Opened(segs, |rec|, segmentBytes), headOff)
    ensures HeadLinked(StoredState(d, segs, rec, segmentBytes), Placed(segs, |rec|, segmentBytes), headOff)
    ensures AllReadable(OpenedLog(segs, log, |rec|, segmentBytes))
    ensures AllReadable(PlacedLog(segs, log, |rec|, segmentBytes, body))
  {
    hide Readable;
    ReadableLast(OpenedLog(segs, log, |rec|, segmentBytes), body);
  }

  /** Storing a record is atomic under crashes, up to the eviction still to
      come, exactly when the queue was within budget or had nothing to lose. */
  lemma StoreCrashes(crc: Crc, d: DirState, segs: seq<Segment>, headOff: nat, log: seq<seq<bytes>>, body: bytes,
                     segmentBytes: nat, maxBytes: nat)
    requires Layout(crc, d, segs, headOff, log, []) && HeadLinked(d, segs, headOff) && AllReadable(log)
    requires Readable(body) && segmentBytes <= maxBytes
    requires TotalBytes(segs) <= maxBytes || |segs| == 1
    ensures segs != [] && |segs| == |log|
    ensures var rec := Record(crc, body);
      var segs', log' := Placed(segs, |rec|, segmentBytes), PlacedLog(segs, log, |rec|, segmentBytes, body);
      HeadLinked(StoredState(d, segs, rec, segmentBytes), segs', headOff) && AllReadable(log') &&
      var after := Flatten(log'[Excess(segs', maxBytes)..]);
      (Atomic(crc, maxBytes, StoreStates(d, segs, rec, segmentBytes), Flatten(log), after) <==>
       TotalBytes(segs) <= maxBytes || Flatten(log) == [])
  {
    hide Layout, HeadUsable, HeadLinked, AllReadable, Recovered, Record, Atomic, Readable, Flatten, Excess;
    LayoutNonempty(crc, d, segs, headOff, log, []);
    StoreKeepsDurable(d, segs, headOff, log, Record(crc, body), body, segmentBytes);
    var n := |Record(crc, body)|;
    var d1, segs1 := OpenedState(d, segs, n, segmentBytes), Opened(segs, n, segmentBytes);
    var log1 := OpenedLog(segs, log, n, segmentBytes);
    PlacedContents(segs, log, n, segmentBytes, body);
    var rolled := [];
    if Rolls(segs, n, segmentBytes) {
      RollSafe(crc, d, segs, headOff, log, maxBytes);
      RollLayout(crc, d, segs, headOff, log);
      TotalsSnoc(segs, Segment(segs[|segs| - 1].id + 1, 0, 0));
      rolled := [d1];
    } else {
      LoneTotal(segs);
    }
    var gone := Excess(Placed(segs, n, segmentBytes), maxBytes);
    var after := Flatten(PlacedLog(segs, log, n, segmentBytes, body)[gone..]);
    var appending := AppendStates(d1, segs1[|segs1| - 1].id, Record(crc, body));
    AppendCrashes(crc, maxBytes, d1, segs1, headOff, log1, rolled, appending, body, Flatten(log), after,
                  TotalBytes(segs) <= maxBytes || Flatten(log) == []);
  }

  lemma PlacedSmall(segs: seq<Segment>, n: nat, segmentBytes: nat)
    requires segs != [] && Small(segs, segmentBytes) && n <= segmentBytes
    ensures Small(Placed(segs, n, segmentBytes), segmentBytes)
  {
    forall s | s in Placed(segs, n, segmentBytes) ensures s.size <= segmentBytes {
      assert s in segs || s == Placed(segs, n, segmentBytes)[|Placed(segs, n, segmentBytes)| - 1];
    }
  }

  lemma LoneSegment(segs: seq<Segment>, log: seq<seq<bytes>>)
    requires |segs| == |log| == 1
    ensures TotalBytes(segs) == segs[0].size && Flatten(log) == log[0]
  {
    assert segs[1..] == [] && log == [] + log[..1] && log[..1] == [log[0]];
    FlattenSnoc([], log[0]);
  }

  /** What is left over budget after an eviction is one record in one segment,
      and that takes a record larger than the whole budget. */
  lemma LeftOverBudget(segs0: seq<Segment>, n: nat, segmentBytes: nat, maxBytes: nat, log1: seq<seq<bytes>>,
      body: bytes)
    requires segs0 != [] && segmentBytes <= maxBytes
    requires var segs1 := Placed(segs0, n, segmentBytes);
      |log1| == |segs1| &&
      (Rolls(segs0, n, segmentBytes) || segs0[|segs0| - 1].size == 0 ==> log1[|log1| - 1] == [body])
    ensures var segs1 := Placed(segs0, n, segmentBytes);
      var e := Excess(segs1, maxBytes);
      TotalBytes(segs1[e..]) > maxBytes ==> Flatten(log1[e..]) == [body] && TotalBytes(segs1[e..]) == n
    ensures Small(segs0, segmentBytes) && n <= segmentBytes ==>
      var segs1 := Placed(segs0, n, segmentBytes);
      var e := Excess(segs1, maxBytes);
      Small(segs1, segmentBytes) && Small(segs1[e..], segmentBytes) && TotalBytes(segs1[e..]) <= maxBytes
  {
    var segs1 := Placed(segs0, n, segmentBytes);
    var e := Excess(segs1, maxBytes);
    var segs := segs1[e..];
    ExcessEnough(segs1, maxBytes);
    if |segs| == 1 {
      assert segs[0] == segs1[|segs1| - 1];
      LoneSegment(segs, log1[e..]);
    }
    if Small(segs0, segmentBytes) && n <= segmentBytes {
      PlacedSmall(segs0, n, segmentBytes);
      assert forall s <- segs :: s in segs1;
      assert |segs| == 1 ==> segs[0] in segs;
    }
  }

  lemma {:induction false} ExcessEnough(segs: seq<Segment>, maxBytes: nat)
    requires segs != []
    ensures var rest := segs[Excess(segs, maxBytes)..];
      |rest| >= 1 && (TotalBytes(rest) <= maxBytes || |rest| == 1)
  {
    if |segs| > 1 && TotalBytes(segs) > maxBytes {
      ExcessEnough(segs[1..], maxBytes);
      assert segs[Excess(segs, maxBytes)..] == segs[1..][Excess(segs[1..], maxBytes)..];
    } else {
      assert segs[0..] == segs;
    }
  }

  // ----- Acknowledging ---------------------------------------------------------

  /** A directory in step with the queue's memory and within budget reopens to
      exactly the unread records. */
  lemma ValidSafe(crc: Crc, d: DirState, segs: seq<Segment>, headOff: nat, log: seq<seq<bytes>>, maxBytes: nat)
    requires Layout(crc, d, segs, headOff, log, []) && HeadLinked(d, segs, headOff) && AllReadable(log)
    requires TotalBytes(segs) <= maxBytes || |segs| == 1
    ensures HeadUsable(d) && Recovered(crc, d, maxBytes) == Flatten(log)
  {
    hide Layout, HeadUsable, HeadLinked, AllReadable, Recovered;
    LayoutNonempty(crc, d, segs, headOff, log, []);
    ReadNothing(crc);
    LayoutSafe(crc, d, segs, headOff, log, [], maxBytes);
    assert log[0..] == log;
  }

  /** The states passed through when the first segment is given up: removed, or
      emptied if it is the only one; then the head file is rewritten. */
  function DiscardStates(d: DirState, segs: seq<Segment>): seq<DirState>
    requires segs != []
  {
    var id := segs[0].id;
    if |segs| > 1 then [Removed(d, id), WithHead(Removed(d, id), Cursor(segs[1].id, 0))]
    else [Truncated(d, id, 0), WithHead(Truncated(d, id, 0), Cursor(id, 0))]
  }

  lemma DiscardSafe(crc: Crc, d: DirState, segs: seq<Segment>, headOff: nat, log: seq<seq<bytes>>, maxBytes: nat,
      before: seq<bytes>)
    requires Layout(crc, d, segs, headOff, log, []) && HeadLinked(d, segs, headOff) && AllReadable(log)
    requires TotalBytes(segs) <= maxBytes || |segs| == 1
    ensures segs != [] && log != []
    ensures Atomic(crc, maxBytes, DiscardStates(d, segs), before, Flatten(log[1..]))
  {
    hide Layout, HeadUsable, HeadLinked, AllReadable, Recovered;
    LayoutNonempty(crc, d, segs, headOff, log, []);
    if |segs| > 1 {
      DropSafe(crc, d, segs, headOff, log, maxBytes);
      assert log[1..][0..] == log[1..];
    } else {
      var id := segs[0].id;
      ResetCrash(crc, d, segs, headOff, log, maxBytes);
      DescribedUsable(crc, Truncated(d, id, 0), [Segment(id, headOff, 0)], [[]]);
      ResetLayout(crc, d, segs, headOff, log);
      HeadLayout(crc, Truncated(d, id, 0), [Segment(id, 0, 0)], 0, [[]]);
      EmptyReadable();
      ValidSafe(crc, WithHead(Truncated(d, id, 0), Cursor(id, 0)), [Segment(id, 0, 0)], 0, [[]], maxBytes);
      var empty: seq<seq<bytes>> := [[]];
      FlattenEmpties(empty);
      assert log[1..] == [];
    }
  }

  lemma EmptyReadable()
    ensures AllReadable([[]])
  {
  }

  lemma DescribedUsable(crc: Crc, d: DirState, segs: seq<Segment>, log: seq<seq<bytes>>)
    requires Describes(crc, d, segs, log) && segs != []
    ensures HeadUsable(d)
  {
    assert |RecoveredSegments(crc, d)| == |LiveIds(d)|;
  }

  /** The cursor moves over one record and the head file is rewritten. */
  lemma AdvanceSafe(crc: Crc, d: DirState, segs: seq<Segment>, headOff: nat, log: seq<seq<bytes>>, maxBytes: nat)
    requires Layout(crc, d, segs, headOff, log, []) && AllReadable(log) && |log| > 0 && log[0] != []
    requires TotalBytes(segs) <= maxBytes || |segs| == 1
    ensures segs != []
    ensures var d' := WithHead(d, Cursor(segs[0].id, headOff + HEADER_LEN + |log[0][0]|));
      HeadUsable(d') && Recovered(crc, d', maxBytes) == Flatten(log)[1..]
  {
    hide Holds, AllHold, Lists, HeadUsable, HeadLinked, AllReadable, Recovered;
    AdvanceReadable(log);
    AdvanceLayout(crc, d, segs, headOff, log);
    var off := headOff + HEADER_LEN + |log[0][0]|;
    HoldsAt(crc, d, segs, headOff, log, [], 0);
    var segs', log' := segs[0 := segs[0].(records := segs[0].records - 1)], log[0 := log[0][1..]];
    HeadLayout(crc, d, segs', off, log');
    assert segs'[1..] == segs[1..] && log'[1..] == log[1..];
    FlattenAdvance(log);
    ValidSafe(crc, WithHead(d, Cursor(segs[0].id, off)), segs', off, log', maxBytes);
  }

  lemma AdvanceReadable(log: seq<seq<bytes>>)
    requires log != [] && log[0] != []
    ensures AllReadable(log) ==> AllReadable(log[0 := log[0][1..]])
  {
  }

  lemma FlattenAdvance(log: seq<seq<bytes>>)
    requires log != [] && log[0] != []
    ensures Flatten(log[0 := log[0][1..]]) == Flatten(log)[1..]
    ensures log[0][1..] == [] ==> Flatten(log[1..]) == Flatten(log)[1..]
  {
    assert log[0 := log[0][1..]][1..] == log[1..];
    assert log[0] == [log[0][0]] + log[0][1..];
  }
}
