/** The recovery scan step by step: dead segments are removed, live ones are
    truncated to their readable part, and no step changes what a later scan
    would find, so recovery can itself be interrupted and repeated. */
module Reopening {
  import opened Bytes
  import opened Messages
  import opened Sequences
  import opened Records
  import opened Directories
  import opened Recovery
  import opened CrashSafety

  /** Scanning d' gives what scanning d gives. */
  ghost predicate ScansAlike(crc: Crc, d: DirState, d': DirState) {
    d'.head == d.head && LiveIds(d') == LiveIds(d) &&
    forall id <- LiveIds(d) :: ScanOf(crc, d', id) == ScanOf(crc, d, id)
  }

  lemma AlikeRecovered(crc: Crc, d: DirState, d': DirState, maxBytes: nat)
    requires ScansAlike(crc, d, d')
    ensures RecoveredSegments(crc, d') == RecoveredSegments(crc, d)
    ensures RecoveredLog(crc, d') == RecoveredLog(crc, d)
    ensures Recovered(crc, d', maxBytes) == Recovered(crc, d, maxBytes)
  {
    hide ScanOf;
    assert forall i :: 0 <= i < |LiveIds(d)| ==> LiveIds(d)[i] in LiveIds(d);
  }

  lemma AlikeSelf(crc: Crc, d: DirState)
    ensures ScansAlike(crc, d, d)
  {
  }

  lemma AlikeTransitive(crc: Crc, d: DirState, d1: DirState, d2: DirState)
    requires ScansAlike(crc, d, d1) && ScansAlike(crc, d1, d2)
    ensures ScansAlike(crc, d, d2)
  {
    hide ScanOf;
  }

  /** The ids from the first one that is not below the head's. */
  function FirstLive(ids: seq<nat>, head: nat): (c: nat)
    ensures c <= |ids|
    ensures forall i :: 0 <= i < c ==> ids[i] < head
    ensures c < |ids| ==> ids[c] >= head
  {
    if ids == [] || ids[0] >= head then 0 else 1 + FirstLive(ids[1..], head)
  }

  lemma LiveIdsAre(d: DirState, ids: seq<nat>)
    requires Lists(ids, d.files.Keys)
    ensures LiveIds(d) == ids[FirstLive(ids, HeadOf(d).id)..]
  {
    var h := HeadOf(d).id;
    var c := FirstLive(ids, h);
    var live := set id | id in d.files && id >= h;
    var suffix := ids[c..];
    forall i | c <= i < |ids| ensures ids[i] in live {
    }
    forall x | x in live ensures x in suffix {
      var i :| 0 <= i < |ids| && ids[i] == x;
      assert suffix[i - c] == x;
    }
    ListingUnique(suffix, LiveIds(d), live);
  }

  /** os.Remove of a segment below the head. */
  lemma RemoveDead(crc: Crc, d: DirState, id: nat)
    requires id < HeadOf(d).id
    ensures ScansAlike(crc, d, Removed(d, id))
  {
    hide Scan;
    var d' := Removed(d, id);
    assert HeadOf(d') == HeadOf(d);
    assert (set x | x in d'.files && x >= HeadOf(d).id) == (set x | x in d.files && x >= HeadOf(d).id);
  }

  /** A file cut, or extended, to what its scan accepted. */
  function ScannedState(crc: Crc, d: DirState, id: nat): DirState {
    d.(files := d.files[id := ScanOf(crc, d, id).file])
  }

  lemma TruncateLive(crc: Crc, d: DirState, id: nat)
    requires id in d.files
    ensures ScansAlike(crc, d, ScannedState(crc, d, id))
  {
    hide Scan;
    var d' := ScannedState(crc, d, id);
    ScanIdempotent(crc, FileOf(d, id), StartOf(d, id));
    assert HeadOf(d') == HeadOf(d);
    assert d'.files.Keys == d.files.Keys;
    assert (set x | x in d'.files && x >= HeadOf(d).id) == (set x | x in d.files && x >= HeadOf(d).id);
  }

  /** The file a scan leaves holds exactly the bodies it found. */
  lemma ScanHolds(crc: Crc, d: DirState, d': DirState, id: nat)
    requires id in d'.files && d'.files[id] == ScanOf(crc, d, id).file
    ensures var r := ScanOf(crc, d, id);
      Holds(crc, d', Segment(id, |r.file|, |r.bodies|), StartOf(d, id), r.bodies, []) &&
      forall b <- r.bodies :: Readable(b)
  {
    var file, from := FileOf(d, id), StartOf(d, id);
    var r := ScanOf(crc, d, id);
    if from <= |file| {
      BodiesArePrefix(crc, file[from..]);
      assert r.file[from..] == Encoded(crc, r.bodies) + [];
    } else {
      assert r.file[from..] == [];
    }
  }

  /** How far the loop over the ids has come: of the dead segments only those
      from ids[i] on are left, and no live one is missing. */
  ghost predicate Swept(d: DirState, now: DirState, ids: seq<nat>, i: nat) {
    i <= |ids| && now.head == d.head &&
    (forall x <- now.files.Keys :: x in d.files && (x >= HeadOf(d).id || x in ids[i..])) &&
    (forall x <- d.files.Keys :: x >= HeadOf(d).id ==> x in now.files)
  }

  /** The live segments among the first i are cut to what their scan accepted. */
  ghost predicate Scanned(crc: Crc, d: DirState, now: DirState, ids: seq<nat>, i: nat) {
    i <= |ids| &&
    forall j :: 0 <= j < i && ids[j] >= HeadOf(d).id ==>
      ids[j] in now.files && now.files[ids[j]] == ScanOf(crc, d, ids[j]).file
  }

  lemma SweepStart(crc: Crc, d: DirState, ids: seq<nat>)
    requires Lists(ids, d.files.Keys)
    ensures Swept(d, d, ids, 0) && Scanned(crc, d, d, ids, 0)
  {
    assert ids[0..] == ids;
  }

  lemma SweepDead(crc: Crc, d: DirState, now: DirState, ids: seq<nat>, i: nat)
    requires Swept(d, now, ids, i) && Scanned(crc, d, now, ids, i) && i < |ids| && ids[i] < HeadOf(d).id
    ensures var now' := Removed(now, ids[i]); Swept(d, now', ids, i + 1) && Scanned(crc, d, now', ids, i + 1)
  {
    hide ScanOf;
    assert ids[i..] == [ids[i]] + ids[i + 1..];
  }

  lemma SweepLive(crc: Crc, d: DirState, now: DirState, ids: seq<nat>, i: nat)
    requires Swept(d, now, ids, i) && Scanned(crc, d, now, ids, i) && Increasing(ids)
    requires i < |ids| && ids[i] >= HeadOf(d).id && ids[i] in d.files
    ensures var now' := now.(files := now.files[ids[i] := ScanOf(crc, d, ids[i]).file]);
      Swept(d, now', ids, i + 1) && Scanned(crc, d, now', ids, i + 1)
  {
    hide ScanOf;
    assert ids[i..] == [ids[i]] + ids[i + 1..];
    var now' := now.(files := now.files[ids[i] := ScanOf(crc, d, ids[i]).file]);
    forall x | x in now'.files.Keys ensures x in d.files && (x >= HeadOf(d).id || x in ids[i + 1..]) {
      assert x == ids[i] || x in now.files.Keys;
    }
  }

  /** Exactly the live files are left. */
  lemma SweptIds(d: DirState, now: DirState, ids: seq<nat>)
    requires Swept(d, now, ids, |ids|)
    ensures Lists(LiveIds(d), now.files.Keys)
  {
    hide Lists;
    assert ids[|ids|..] == [];
    assert now.files.Keys == (set id | id in d.files && id >= HeadOf(d).id);
  }

  /** When the loop is done, the directory is laid out as the scan recorded. */
  lemma SweptLayout(crc: Crc, d: DirState, now: DirState, ids: seq<nat>)
    requires Lists(ids, d.files.Keys) && Swept(d, now, ids, |ids|) && Scanned(crc, d, now, ids, |ids|)
    requires LiveIds(d) != []
    ensures var segs, log := RecoveredSegments(crc, d), RecoveredLog(crc, d);
      segs != [] &&
      Layout(crc, now, segs, StartOf(d, segs[0].id), log, []) && AllReadable(log) &&
      HeadLinked(now, segs, StartOf(d, segs[0].id))
  {
    hide Holds, Scan;
    var segs, log := RecoveredSegments(crc, d), RecoveredLog(crc, d);
    SweptIds(d, now, ids);
    assert Ids(segs) == LiveIds(d);
    assert LiveIds(d)[0] >= HeadOf(d).id by { LiveAt(d, 0); }
    hide Readable, Scanned;
    forall i | 0 <= i < |segs|
      ensures Holds(crc, now, segs[i], From(StartOf(d, segs[0].id), i), log[i], TornAt(segs, i, [])) &&
        forall b <- log[i] :: Readable(b)
    {
      LiveHolds(crc, d, now, ids, i);
    }
    assert HeadOf(now) == HeadOf(d);
  }

  lemma LiveHolds(crc: Crc, d: DirState, now: DirState, ids: seq<nat>, i: nat)
    requires Lists(ids, d.files.Keys) && Scanned(crc, d, now, ids, |ids|)
    requires i < |RecoveredSegments(crc, d)|
    ensures var segs, log := RecoveredSegments(crc, d), RecoveredLog(crc, d);
      i < |log| && Holds(crc, now, segs[i], From(StartOf(d, segs[0].id), i), log[i], TornAt(segs, i, [])) &&
      forall b <- log[i] :: Readable(b)
  {
    hide Holds, Scan;
    var segs, live := RecoveredSegments(crc, d), LiveIds(d);
    LiveAt(d, i);
    var j :| 0 <= j < |ids| && ids[j] == live[i];
    ScanHolds(crc, d, now, live[i]);
    assert StartOf(d, segs[i].id) == From(StartOf(d, segs[0].id), i);
  }

  /** Only the first live id can be the head's. */
  lemma LiveAt(d: DirState, i: nat)
    requires i < |LiveIds(d)|
    ensures LiveIds(d)[i] in d.files.Keys && LiveIds(d)[i] >= HeadOf(d).id
    ensures i > 0 ==> LiveIds(d)[i] > HeadOf(d).id
  {
    var live := LiveIds(d);
    assert live[i] in (set id | id in d.files && id >= HeadOf(d).id);
    assert live[0] in (set id | id in d.files && id >= HeadOf(d).id);
    assert i > 0 ==> live[0] < live[i];
  }

  /** With no live segment the queue starts over in segment 1. */
  lemma FreshLayout(crc: Crc, d: DirState, now: DirState, ids: seq<nat>)
    requires Swept(d, now, ids, |ids|)
    requires LiveIds(d) == []
    ensures now.files == map[]
    ensures Layout(crc, Created(now, 1), [Segment(1, 0, 0)], 0, [[]], []) && AllReadable([[]])
    ensures HeadLinked(Created(now, 1), [Segment(1, 0, 0)], 0) <==> HeadUsable(d)
  {
    SweptIds(d, now, ids);
    assert now.files.Keys == {};
    assert now.files == map[];
    var d' := Created(now, 1);
    assert d'.files == map[1 := []];
    assert Ids([Segment(1, 0, 0)]) == [1];
    assert Lists([1], {1}) by { assert [1][0] == 1; }
    assert Holds(crc, d', Segment(1, 0, 0), 0, [], []);
  }

  /** The directory with only the new segment 1 reopens to nothing. */
  lemma FreshRecovered(crc: Crc, d: DirState, maxBytes: nat)
    requires d.files == map[1 := []]
    ensures Recovered(crc, d, maxBytes) == []
    ensures HeadOf(d).id == 0 || HeadOf(d) == Cursor(1, 0) ==> HeadUsable(d)
  {
    assert d.files.Keys == {1};
    if HeadOf(d).id <= 1 {
      SingleFileRecovered(crc, d, 1, maxBytes);
      ScanEmpty(crc, StartOf(d, 1));
    } else {
      assert (set id | id in d.files && id >= HeadOf(d).id) == {};
      assert LiveIds(d) == [];
    }
  }

  ghost predicate AllAlike(crc: Crc, d: DirState, states: seq<DirState>) {
    forall t <- states :: ScansAlike(crc, d, t)
  }

  lemma AllAlikeSnoc(crc: Crc, d: DirState, states: seq<DirState>, now: DirState, next: DirState)
    requires AllAlike(crc, d, states) && ScansAlike(crc, d, now) && ScansAlike(crc, now, next)
    ensures ScansAlike(crc, d, next) && AllAlike(crc, d, states + [next])
  {
    AlikeTransitive(crc, d, now, next);
    hide ScansAlike;
  }

  /** Interrupted recovery recovers the same records. */
  lemma AlikeAtomic(crc: Crc, d: DirState, states: seq<DirState>, maxBytes: nat)
    requires AllAlike(crc, d, states) && HeadUsable(d)
    ensures var unread := Recovered(crc, d, maxBytes); Atomic(crc, maxBytes, states, unread, unread)
  {
    hide ScansAlike;
    forall t <- states
      ensures HeadUsable(t) && Recovered(crc, t, maxBytes) == Recovered(crc, d, maxBytes)
    {
      AlikeRecovered(crc, d, t, maxBytes);
      AlikeUsable(crc, d, t);
    }
  }

  lemma AlikeUsable(crc: Crc, d: DirState, t: DirState)
    requires ScansAlike(crc, d, t)
    ensures HeadUsable(t) <==> HeadUsable(d)
  {
    hide ScanOf;
    assert HeadOf(t) == HeadOf(d);
  }

  lemma NothingLive(crc: Crc, d: DirState, maxBytes: nat)
    requires LiveIds(d) == []
    ensures RecoveredSegments(crc, d) == [] && RecoveredLog(crc, d) == [] && Recovered(crc, d, maxBytes) == []
  {
  }

  /** The i-th id of the listing is the (i-c)-th live one. */
  lemma NextLive(crc: Crc, d: DirState, ids: seq<nat>, i: nat)
    requires Lists(ids, d.files.Keys) && i < |ids|
    ensures var c := FirstLive(ids, HeadOf(d).id);
      var segs, log := RecoveredSegments(crc, d), RecoveredLog(crc, d);
      |segs| == |log| == |ids| - c && (ids[i] < HeadOf(d).id <==> i < c) &&
      (i >= c ==>
        var r := ScanOf(crc, d, ids[i]);
        segs[..i - c + 1] == segs[..i - c] + [Segment(ids[i], |r.file|, |r.bodies|)] &&
        log[..i - c + 1] == log[..i - c] + [r.bodies]) &&
      (i > c ==> ids[i] > HeadOf(d).id)
  {
    hide ScanOf, Lists;
    LiveIdsAre(d, ids);
    var c := FirstLive(ids, HeadOf(d).id);
    if i > c {
      IncreasingAt(ids, d.files.Keys, c, i);
    }
    if i < c {
      assert ids[i] < HeadOf(d).id;
    } else {
      TakeNext(RecoveredSegments(crc, d), i - c);
      TakeNext(RecoveredLog(crc, d), i - c);
    }
  }

  lemma TakeNext<T>(s: seq<T>, n: nat)
    requires n < |s|
    ensures s[..n + 1] == s[..n] + [s[n]]
  {
  }

  lemma IncreasingAt(ids: seq<nat>, s: set<nat>, i: nat, j: nat)
    requires Lists(ids, s) && i < j < |ids|
    ensures ids[i] < ids[j]
  {
  }

  lemma NoneAlike(crc: Crc, d: DirState)
    ensures AllAlike(crc, d, [])
  {
  }

  lemma ScanCoversStart(crc: Crc, file: bytes, from: nat)
    ensures |Scan(crc, file, from).file| >= from
  {
  }

  /** One live segment: what the loop relies on and what it establishes. */
  lemma SweepStep(crc: Crc, d: DirState, now: DirState, ids: seq<nat>, i: nat)
    requires Swept(d, now, ids, i) && Scanned(crc, d, now, ids, i) && ScansAlike(crc, d, now)
    requires Lists(ids, d.files.Keys) && i < |ids| && ids[i] >= HeadOf(d).id
    ensures var id := ids[i];
      var next := ScannedState(crc, now, id);
      id in now.files && ScanOf(crc, now, id) == ScanOf(crc, d, id) &&
      StartOf(now, id) == StartOf(d, id) == (if id == HeadOf(d).id then HeadOf(d).off else 0) &&
      StartOf(now, id) <= |ScanOf(crc, d, id).file| &&
      Swept(d, next, ids, i + 1) && Scanned(crc, d, next, ids, i + 1) && ScansAlike(crc, now, next)
  {
    hide Scan;
    var id := ids[i];
    LiveMember(d, id);
    assert HeadOf(now) == HeadOf(d);
    ScanCoversStart(crc, FileOf(d, id), StartOf(d, id));
    SweepLive(crc, d, now, ids, i);
    TruncateLive(crc, now, id);
  }

  lemma LiveMember(d: DirState, id: nat)
    requires id in d.files && id >= HeadOf(d).id
    ensures id in LiveIds(d)
  {
    assert id in (set x | x in d.files && x >= HeadOf(d).id);
  }

  lemma LiveCount(crc: Crc, d: DirState, ids: seq<nat>)
    requires Lists(ids, d.files.Keys)
    ensures |RecoveredSegments(crc, d)| == |RecoveredLog(crc, d)| == |ids| - FirstLive(ids, HeadOf(d).id)
  {
    LiveIdsAre(d, ids);
  }

  lemma AlikeHead(crc: Crc, d: DirState, now: DirState)
    requires ScansAlike(crc, d, now)
    ensures HeadOf(now) == HeadOf(d) && now.head == d.head
  {
  }

  lemma AsManyLive(crc: Crc, d: DirState)
    ensures |RecoveredSegments(crc, d)| == |LiveIds(d)|
  {
  }

  lemma RecoveredIs(crc: Crc, d: DirState, maxBytes: nat)
    ensures Recovered(crc, d, maxBytes) == Flatten(RecoveredLog(crc, d)[Excess(RecoveredSegments(crc, d), maxBytes)..])
  {
  }

  lemma LiveUsable(crc: Crc, d: DirState)
    requires RecoveredSegments(crc, d) != []
    ensures HeadUsable(d)
  {
    assert |RecoveredSegments(crc, d)| == |LiveIds(d)|;
  }

  lemma FreshUsable(d: DirState, now: DirState)
    requires now.files == map[1 := []] && now.head == d.head && LiveIds(d) == [] && HeadUsable(d)
    ensures HeadUsable(now)
  {
    assert HeadOf(now) == HeadOf(d);
    if HeadOf(d).id <= 1 {
      LiveMember(now, 1);
    }
  }
}
