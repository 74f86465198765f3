/** What Open makes of a directory, as functions of the directory's state, and
    how the queue's own bookkeeping relates to it. */
module Recovery {
  import opened Bytes
  import opened Messages
  import opened Sequences
  import opened Buffers
  import opened Records
  import opened Directories

  /** One segment as the queue keeps it in memory. */
  datatype Segment = Segment(id: nat, size: nat, records: nat)

  function TotalBytes(segs: seq<Segment>): nat {
    if segs == [] then 0 else segs[0].size + TotalBytes(segs[1..])
  }

  function TotalRecords(segs: seq<Segment>): nat {
    if segs == [] then 0 else segs[0].records + TotalRecords(segs[1..])
  }

  lemma {:induction false} TotalsSnoc(segs: seq<Segment>, s: Segment)
    ensures TotalBytes(segs + [s]) == TotalBytes(segs) + s.size
    ensures TotalRecords(segs + [s]) == TotalRecords(segs) + s.records
  {
    if segs == [] {
      assert [s][1..] == [];
      assert segs + [s] == [s];
    } else {
      TotalsSnoc(segs[1..], s);
      assert (segs + [s])[1..] == segs[1..] + [s];
    }
  }

  // ----- Listing a directory in id order -----------------------------------

  ghost predicate Increasing(ids: seq<nat>) {
    forall i, j :: 0 <= i < j < |ids| ==> ids[i] < ids[j]
  }

  ghost predicate Lists(ids: seq<nat>, s: set<nat>) {
    Increasing(ids) && (forall i :: 0 <= i < |ids| ==> ids[i] in s) && (forall x <- s :: x in ids)
  }

  lemma LastIsGreatest(ids: seq<nat>, s: set<nat>, x: nat)
    requires Lists(ids, s) && x in s
    ensures ids != [] && x <= ids[|ids| - 1]
  {
    var i :| 0 <= i < |ids| && ids[i] == x;
  }

  lemma ListsInit(ids: seq<nat>, s: set<nat>)
    requires Lists(ids, s) && ids != []
    ensures Lists(ids[..|ids| - 1], s - {ids[|ids| - 1]})
  {
    var init := ids[..|ids| - 1];
    forall x | x in s - {ids[|ids| - 1]} ensures x in init {
      var i :| 0 <= i < |ids| && ids[i] == x;
      assert init[i] == x;
    }
  }

  lemma ListsSnoc(ids: seq<nat>, s: set<nat>, x: nat)
    requires Lists(ids, s) && forall y <- s :: y < x
    ensures Lists(ids + [x], s + {x})
  {
    var r := ids + [x];
    assert r[|ids|] == x;
    forall y | y in s ensures y in r {
      var i :| 0 <= i < |ids| && ids[i] == y;
      assert r[i] == y;
    }
  }

  lemma ListsTail(ids: seq<nat>, s: set<nat>)
    requires Lists(ids, s) && ids != []
    ensures Lists(ids[1..], s - {ids[0]})
  {
    var tail := ids[1..];
    forall x | x in s - {ids[0]} ensures x in tail {
      var i :| 0 <= i < |ids| && ids[i] == x;
      assert tail[i - 1] == x;
    }
  }

  /** There is only one way to list a set in increasing order. */
  lemma {:induction false} ListingUnique(a: seq<nat>, b: seq<nat>, s: set<nat>)
    requires Lists(a, s) && Lists(b, s)
    ensures a == b
    decreases |a|
  {
    if a == [] {
      assert s == {};
    } else {
      var m := a[|a| - 1];
      LastIsGreatest(b, s, m);
      LastIsGreatest(a, s, b[|b| - 1]);
      ListsInit(a, s);
      ListsInit(b, s);
      ListingUnique(a[..|a| - 1], b[..|b| - 1], s - {m});
      assert a == a[..|a| - 1] + [m] && b == b[..|b| - 1] + [m];
    }
  }

  lemma {:induction false} GreatestExists(s: set<nat>)
    requires s != {}
    ensures exists m :: m in s && forall x <- s :: x <= m
  {
    var y :| y in s;
    if s != {y} {
      GreatestExists(s - {y});
      var m :| m in s - {y} && forall x <- s - {y} :: x <= m;
      var m' := if m < y then y else m;
      assert m' in s && forall x <- s :: x == y || x in s - {y};
    }
  }

  /** The directory listing, sorted by segment id. */
  function Ascending(s: set<nat>): (ids: seq<nat>)
    ensures Lists(ids, s)
  {
    if s == {} then [] else
    GreatestExists(s);
    var m :| m in s && forall x <- s :: x <= m;
    ListsSnoc(Ascending(s - {m}), s - {m}, m);
    assert s - {m} + {m} == s;
    Ascending(s - {m}) + [m]
  }

  // ----- The scan of one file ------------------------------------------------

  datatype ScanResult = ScanResult(file: bytes, bodies: seq<bytes>)

  /** scanSegment: the file after the torn tail is cut off, and the bodies of
      the records from `from` on. A start beyond the end of the file finds
      nothing, and the truncation then extends the file. */
  function Scan(crc: Crc, file: bytes, from: nat): ScanResult {
    if from <= |file| then
      var bodies := Bodies(crc, file[from..]);
      ScanResult(file[..from] + Encoded(crc, bodies), bodies)
    else
      ScanResult(file + Zeros(from - |file|), [])
  }

  /** A second scan finds what the first one found and leaves the file alone. */
  lemma ScanIdempotent(crc: Crc, file: bytes, from: nat)
    ensures Scan(crc, Scan(crc, file, from).file, from) == Scan(crc, file, from)
  {
    var r := Scan(crc, file, from);
    if from <= |file| {
      BodiesArePrefix(crc, file[from..]);
      assert r.file[from..] == Encoded(crc, r.bodies) + [];
      assert r.file[from..] == Encoded(crc, r.bodies);
      BodiesOfEncoded(crc, r.bodies, []);
    } else {
      assert r.file[from..] == [];
      assert Bodies(crc, []) == [];
      assert Encoded(crc, []) == [];
    }
  }

  // ----- What Open recovers ------------------------------------------------

  function StartOf(d: DirState, id: nat): nat {
    if id == HeadOf(d).id then HeadOf(d).off else 0
  }

  function ScanOf(crc: Crc, d: DirState, id: nat): ScanResult {
    Scan(crc, FileOf(d, id), StartOf(d, id))
  }

  /** Segments with an id below the head's are consumed leftovers. */
  ghost function LiveIds(d: DirState): seq<nat> {
    Ascending(set id | id in d.files && id >= HeadOf(d).id)
  }

  /** How many whole segments, oldest first, must go to respect the budget; the
      newest always stays. */
  function Excess(segs: seq<Segment>, maxBytes: nat): (k: nat)
    ensures k <= |segs| && (segs != [] ==> k < |segs|)
  {
    if |segs| > 1 && TotalBytes(segs) > maxBytes then 1 + Excess(segs[1..], maxBytes) else 0
  }

  ghost function RecoveredSegments(crc: Crc, d: DirState): (segs: seq<Segment>) {
    var ids := LiveIds(d);
    seq(|ids|, i requires 0 <= i < |ids| =>
      var r := ScanOf(crc, d, ids[i]);
      Segment(ids[i], |r.file|, |r.bodies|))
  }

  ghost function RecoveredLog(crc: Crc, d: DirState): (log: seq<seq<bytes>>)
    ensures |log| == |RecoveredSegments(crc, d)|
  {
    var ids := LiveIds(d);
    seq(|ids|, i requires 0 <= i < |ids| => ScanOf(crc, d, ids[i]).bodies)
  }

  /** The unread records Open finds in d under a budget of maxBytes. */
  ghost function Recovered(crc: Crc, d: DirState, maxBytes: nat): (unread: seq<bytes>) {
    Flatten(RecoveredLog(crc, d)[Excess(RecoveredSegments(crc, d), maxBytes)..])
  }

  // ----- The directory as the running queue knows it ----------------------------

  function Ids(segs: seq<Segment>): (ids: seq<nat>)
    ensures |ids| == |segs| && forall i :: 0 <= i < |ids| ==> ids[i] == segs[i].id
  {
    seq(|segs|, i requires 0 <= i < |segs| => segs[i].id)
  }

  /** Only the first segment has been read from. */
  function From(headOff: nat, i: nat): nat {
    if i == 0 then headOff else 0
  }

  /** The file of one segment: what was consumed, then the unread records, then
      possibly the remains of an interrupted append. */
  ghost predicate Holds(crc: Crc, d: DirState, seg: Segment, from: nat, bodies: seq<bytes>, torn: bytes) {
    seg.id in d.files &&
    var file := d.files[seg.id];
    |file| == seg.size + |torn| && from <= seg.size &&
    file[from..] == Encoded(crc, bodies) + torn &&
    seg.records == |bodies| &&
    forall b <- bodies :: 0 < |b| < 0x1_0000_0000
  }

  function TornAt(segs: seq<Segment>, i: nat, torn: bytes): bytes {
    if i + 1 == |segs| then torn else []
  }

  /** The segments are exactly the files, in id order; log[i] lists the unread
      bodies of segment i; `torn` follows the records of the last one. */
  ghost predicate Layout(crc: Crc, d: DirState, segs: seq<Segment>, headOff: nat, log: seq<seq<bytes>>, torn: bytes) {
    |segs| == |log| >= 1 &&
    Lists(Ids(segs), d.files.Keys) &&
    AllHold(crc, d, segs, headOff, log, torn)
  }

  ghost predicate AllHold(crc: Crc, d: DirState, segs: seq<Segment>, headOff: nat, log: seq<seq<bytes>>, torn: bytes)
    requires |segs| == |log|
  {
    forall i :: 0 <= i < |segs| ==>
      Holds(crc, d, segs[i], From(headOff, i), log[i], TornAt(segs, i, torn))
  }

  /** The head file agrees with the cursor in memory: it names the first
      segment and offset, or an already removed one while the first segment is
      still unread. */
  ghost predicate HeadLinked(d: DirState, segs: seq<Segment>, headOff: nat) {
    segs != [] &&
    var h := HeadOf(d);
    (h.id == segs[0].id && h.off == headOff) || (h.id < segs[0].id && headOff == 0)
  }

  ghost predicate AllReadable(log: seq<seq<bytes>>) {
    forall i :: 0 <= i < |log| ==> forall b <- log[i] :: Readable(b)
  }

  /** The scan of the directory would produce these segments and bodies. */
  ghost predicate Describes(crc: Crc, d: DirState, segs: seq<Segment>, log: seq<seq<bytes>>) {
    RecoveredSegments(crc, d) == segs && RecoveredLog(crc, d) == log
  }

  lemma DescribesBySegments(crc: Crc, d: DirState, segs: seq<Segment>, log: seq<seq<bytes>>)
    requires |segs| == |log| && Ids(segs) == LiveIds(d)
    requires forall i :: 0 <= i < |segs| ==>
      var r := ScanOf(crc, d, segs[i].id);
        |r.file| == segs[i].size && |r.bodies| == segs[i].records && r.bodies == log[i]
    ensures Describes(crc, d, segs, log)
  {
    var ids := LiveIds(d);
    assert |segs| == |ids|;
    assert forall i :: 0 <= i < |segs| ==> ids[i] == segs[i].id;
  }

  lemma ScanOfHolds(crc: Crc, d: DirState, seg: Segment, from: nat, bodies: seq<bytes>, torn: bytes)
    requires Holds(crc, d, seg, from, bodies, torn) && ReadRecord(crc, torn).Err?
    requires forall b <- bodies :: Readable(b)
    ensures var r := Scan(crc, d.files[seg.id], from); r.bodies == bodies && |r.file| == seg.size
  {
    BodiesOfEncoded(crc, bodies, torn);
  }

  /** A reopened queue finds the segments and the unread records the running
      one had, whatever an interrupted append left behind them. */
  lemma LayoutDescribes(crc: Crc, d: DirState, segs: seq<Segment>, headOff: nat, log: seq<seq<bytes>>, torn: bytes)
    requires Layout(crc, d, segs, headOff, log, torn) && HeadLinked(d, segs, headOff) && AllReadable(log)
    requires ReadRecord(crc, torn).Err?
    ensures Describes(crc, d, segs, log)
  {
    var h := HeadOf(d);
    var live := set id | id in d.files && id >= h.id;
    assert live == d.files.Keys by {
      forall id | id in d.files ensures id >= h.id {
        var i :| 0 <= i < |segs| && Ids(segs)[i] == id;
        assert segs[0].id <= id by { assert i > 0 ==> Ids(segs)[0] < Ids(segs)[i]; }
      }
    }
    ListingUnique(Ids(segs), LiveIds(d), d.files.Keys);
    forall i | 0 <= i < |segs|
      ensures var r := ScanOf(crc, d, segs[i].id);
        |r.file| == segs[i].size && |r.bodies| == segs[i].records && r.bodies == log[i]
    {
      assert i > 0 ==> Ids(segs)[0] < Ids(segs)[i];
      assert StartOf(d, segs[i].id) == From(headOff, i);
      ReadNothing(crc);
      ScanOfHolds(crc, d, segs[i], From(headOff, i), log[i], TornAt(segs, i, torn));
    }
    DescribesBySegments(crc, d, segs, log);
  }

  lemma ReadNothing(crc: Crc)
    ensures ReadRecord(crc, []).Err?
  {
  }

  /** The unread records Open returns for a directory the queue left. */
  lemma LayoutRecovered(crc: Crc, d: DirState, segs: seq<Segment>, headOff: nat, log: seq<seq<bytes>>, torn: bytes,
      maxBytes: nat)
    requires Layout(crc, d, segs, headOff, log, torn) && HeadLinked(d, segs, headOff) && AllReadable(log)
    requires ReadRecord(crc, torn).Err?
    ensures Recovered(crc, d, maxBytes) == Flatten(log[Excess(segs, maxBytes)..])
    ensures TotalBytes(segs) <= maxBytes ==> Recovered(crc, d, maxBytes) == Flatten(log)
  {
    LayoutDescribes(crc, d, segs, headOff, log, torn);
    assert log[0..] == log;
  }

  // ----- How the file operations change the layout -----------------------------

  lemma LayoutIds(crc: Crc, d: DirState, segs: seq<Segment>, headOff: nat, log: seq<seq<bytes>>, torn: bytes, i: nat,
      j: nat)
    requires Layout(crc, d, segs, headOff, log, torn) && i < j < |segs|
    ensures segs[i].id < segs[j].id
  {
    assert Ids(segs)[i] < Ids(segs)[j];
  }

  lemma HoldsAt(crc: Crc, d: DirState, segs: seq<Segment>, headOff: nat, log: seq<seq<bytes>>, torn: bytes, i: nat)
    requires |segs| == |log| && AllHold(crc, d, segs, headOff, log, torn) && i < |segs|
    ensures Holds(crc, d, segs[i], From(headOff, i), log[i], TornAt(segs, i, torn))
    ensures segs[i].id in d.files && segs[i].records == |log[i]|
  {
  }

  lemma IdsUpdate(segs: seq<Segment>, i: nat, s: Segment)
    requires i < |segs| && segs[i].id == s.id
    ensures Ids(segs[i := s]) == Ids(segs)
  {
  }

  /** Files an operation does not touch keep what they hold. */
  lemma HoldsElsewhere(crc: Crc, d: DirState, d': DirState, seg: Segment, from: nat, bodies: seq<bytes>, torn: bytes)
    requires Holds(crc, d, seg, from, bodies, torn)
    requires seg.id in d'.files && d'.files[seg.id] == d.files[seg.id]
    ensures Holds(crc, d', seg, from, bodies, torn)
  {
  }

  /** Segments whose ids are all below the last one are untouched by what is
      done to the last file. */
  lemma EarlierHold(crc: Crc, d: DirState, d': DirState, segs: seq<Segment>, headOff: nat, log: seq<seq<bytes>>, n: nat)
    requires |segs| == |log| && n <= |segs| && AllHold(crc, d, segs, headOff, log, [])
    requires forall i :: 0 <= i < n ==> segs[i].id in d.files ==>
      segs[i].id in d'.files && d'.files[segs[i].id] == d.files[segs[i].id]
    ensures forall i :: 0 <= i < n ==> Holds(crc, d', segs[i], From(headOff, i), log[i], [])
  {
    forall i | 0 <= i < n ensures Holds(crc, d', segs[i], From(headOff, i), log[i], []) {
      assert Holds(crc, d, segs[i], From(headOff, i), log[i], TornAt(segs, i, []));
      HoldsElsewhere(crc, d, d', segs[i], From(headOff, i), log[i], []);
    }
  }

  lemma RollHold(crc: Crc, d: DirState, d': DirState, segs: seq<Segment>, headOff: nat, log: seq<seq<bytes>>,
      s: Segment)
    requires |segs| == |log| >= 1 && AllHold(crc, d, segs, headOff, log, [])
    requires forall i :: 0 <= i < |segs| ==> segs[i].id in d.files ==>
      segs[i].id in d'.files && d'.files[segs[i].id] == d.files[segs[i].id]
    requires Holds(crc, d', s, 0, [], [])
    ensures AllHold(crc, d', segs + [s], headOff, log + [[]], [])
  {
    var segs', log' := segs + [s], log + [[]];
    EarlierHold(crc, d, d', segs, headOff, log, |segs|);
    forall i | 0 <= i < |segs'|
      ensures Holds(crc, d', segs'[i], From(headOff, i), log'[i], TornAt(segs', i, []))
    {
    }
  }

  lemma FreshHold(crc: Crc, d: DirState, id: nat)
    requires id !in d.files
    ensures Holds(crc, Created(d, id), Segment(id, 0, 0), 0, [], [])
  {
  }

  /** roll: a new, empty last segment. */
  lemma RollLayout(crc: Crc, d: DirState, segs: seq<Segment>, headOff: nat, log: seq<seq<bytes>>)
    requires Layout(crc, d, segs, headOff, log, [])
    ensures var id := segs[|segs| - 1].id + 1;
      id !in d.files && Layout(crc, Created(d, id), segs + [Segment(id, 0, 0)], headOff, log + [[]], [])
  {
    var id := segs[|segs| - 1].id + 1;
    hide Holds;
    RollIds(d, segs);
    RollFiles(d, segs);
    FreshHold(crc, d, id);
    hide Lists, Ids, Created;
    RollHold(crc, d, Created(d, id), segs, headOff, log, Segment(id, 0, 0));
  }

  lemma RollFiles(d: DirState, segs: seq<Segment>)
    requires segs != [] && Lists(Ids(segs), d.files.Keys)
    ensures var d' := Created(d, segs[|segs| - 1].id + 1);
      d'.head == d.head &&
      forall i :: 0 <= i < |segs| ==>
        segs[i].id in d.files && segs[i].id in d'.files && d'.files[segs[i].id] == d.files[segs[i].id]
  {
    assert forall i :: 0 <= i < |segs| ==> Ids(segs)[i] in d.files.Keys;
  }

  lemma RollIds(d: DirState, segs: seq<Segment>)
    requires segs != [] && Lists(Ids(segs), d.files.Keys)
    ensures var id := segs[|segs| - 1].id + 1;
      id !in d.files && Lists(Ids(segs + [Segment(id, 0, 0)]), Created(d, id).files.Keys)
  {
    var id := segs[|segs| - 1].id + 1;
    forall x | x in d.files.Keys ensures x < id {
      LastIsGreatest(Ids(segs), d.files.Keys, x);
    }
    ListsSnoc(Ids(segs), d.files.Keys, id);
    assert Ids(segs + [Segment(id, 0, 0)]) == Ids(segs) + [id];
    assert Created(d, id).files.Keys == d.files.Keys + {id};
  }

  /** One more record at the end of one file. */
  lemma AppendHolds(crc: Crc, d: DirState, seg: Segment, from: nat, bodies: seq<bytes>, body: bytes)
    requires Holds(crc, d, seg, from, bodies, []) && 0 < |body| < 0x1_0000_0000
    ensures Holds(crc, Appended(d, seg.id, Record(crc, body)), Grown(seg, |Record(crc, body)|), from, bodies + [body],
      [])
  {
    var rec := Record(crc, body);
    var file := d.files[seg.id];
    assert (file + rec)[from..] == file[from..] + rec;
    assert Encoded(crc, bodies) + [] == Encoded(crc, bodies);
    EncodedSnoc(crc, bodies, body);
    assert Encoded(crc, bodies + [body]) + [] == Encoded(crc, bodies + [body]);
  }

  /** Part of a record at the end of one file. */
  lemma TornHolds(crc: Crc, d: DirState, seg: Segment, from: nat, bodies: seq<bytes>, part: bytes)
    requires Holds(crc, d, seg, from, bodies, [])
    ensures Holds(crc, Appended(d, seg.id, part), seg, from, bodies, part)
  {
    var file := d.files[seg.id];
    assert (file + part)[from..] == file[from..] + part;
    assert Encoded(crc, bodies) + [] == Encoded(crc, bodies);
  }

  function Grown(seg: Segment, n: nat): Segment {
    Segment(seg.id, seg.size + n, seg.records + 1)
  }

  /** Only the last file is touched. */
  lemma LastOnlyHold(crc: Crc, d: DirState, d': DirState, segs: seq<Segment>, headOff: nat, log: seq<seq<bytes>>,
                     s: Segment, bodies: seq<bytes>, torn: bytes)
    requires |segs| == |log| >= 1 && AllHold(crc, d, segs, headOff, log, [])
    requires forall i :: 0 <= i < |segs| - 1 ==> segs[i].id in d.files ==>
      segs[i].id in d'.files && d'.files[segs[i].id] == d.files[segs[i].id]
    requires Holds(crc, d', s, From(headOff, |segs| - 1), bodies, torn)
    ensures AllHold(crc, d', segs[|segs| - 1 := s], headOff, log[|segs| - 1 := bodies], torn)
  {
    hide Holds;
    var last := |segs| - 1;
    var segs', log' := segs[last := s], log[last := bodies];
    forall i | 0 <= i < |segs| ensures Holds(crc, d', segs'[i], From(headOff, i), log'[i], TornAt(segs', i, torn)) {
      if i < last {
        EarlierHold(crc, d, d', segs, headOff, log, last);
      }
    }
  }

  /** Writing to the last file leaves the listing and the other files alone. */
  lemma LastOnlyIds(crc: Crc, d: DirState, segs: seq<Segment>, headOff: nat, log: seq<seq<bytes>>, data: bytes,
      s: Segment)
    requires Layout(crc, d, segs, headOff, log, []) && s.id == segs[|segs| - 1].id
    ensures var last := |segs| - 1;
      var d' := Appended(d, s.id, data);
      Holds(crc, d, segs[last], From(headOff, last), log[last], []) &&
      Lists(Ids(segs[last := s]), d'.files.Keys) &&
      forall i :: 0 <= i < last ==> segs[i].id in d.files ==>
        segs[i].id in d'.files && d'.files[segs[i].id] == d.files[segs[i].id]
  {
    hide AllHold, Holds, Lists, Ids;
    var last := |segs| - 1;
    HoldsAt(crc, d, segs, headOff, log, [], last);
    assert Appended(d, s.id, data).files.Keys == d.files.Keys;
    IdsUpdate(segs, last, s);
    forall i | 0 <= i < last ensures segs[i].id < s.id {
      LayoutIds(crc, d, segs, headOff, log, [], i, last);
    }
  }

  /** A whole record appended to the last segment. */
  lemma AppendLayout(crc: Crc, d: DirState, segs: seq<Segment>, headOff: nat, log: seq<seq<bytes>>, body: bytes)
    requires Layout(crc, d, segs, headOff, log, [])
    requires 0 < |body| < 0x1_0000_0000
    ensures var last := |segs| - 1;
      var rec := Record(crc, body);
      Layout(crc, Appended(d, segs[last].id, rec), segs[last := Grown(segs[last], |rec|)],
             headOff, log[last := log[last] + [body]], [])
  {
    hide Holds, AllHold, Lists, Ids, From;
    var last := |segs| - 1;
    var rec := Record(crc, body);
    var s := Grown(segs[last], |rec|);
    LastOnlyIds(crc, d, segs, headOff, log, rec, s);
    AppendHolds(crc, d, segs[last], From(headOff, last), log[last], body);
    LastOnlyHold(crc, d, Appended(d, s.id, rec), segs, headOff, log, s, log[last] + [body], []);
  }

  /** An append interrupted after some part of the record. */
  lemma TornLayout(crc: Crc, d: DirState, segs: seq<Segment>, headOff: nat, log: seq<seq<bytes>>, part: bytes)
    requires Layout(crc, d, segs, headOff, log, [])
    ensures Layout(crc, Appended(d, segs[|segs| - 1].id, part), segs, headOff, log, part)
  {
    hide Holds, AllHold, Lists, Ids, From;
    var last := |segs| - 1;
    LastOnlyIds(crc, d, segs, headOff, log, part, segs[last]);
    TornHolds(crc, d, segs[last], From(headOff, last), log[last], part);
    LastOnlyHold(crc, d, Appended(d, segs[last].id, part), segs, headOff, log, segs[last], log[last], part);
    assert segs[last := segs[last]] == segs && log[last := log[last]] == log;
  }

  lemma DropIds(d: DirState, segs: seq<Segment>)
    requires |segs| > 1 && Lists(Ids(segs), d.files.Keys)
    ensures Lists(Ids(segs[1..]), Removed(d, segs[0].id).files.Keys)
    ensures forall i :: 1 <= i < |segs| ==> segs[0].id < segs[i].id
  {
    var ids := Ids(segs);
    assert Ids(segs[1..]) == ids[1..];
    ListsTail(ids, d.files.Keys);
    assert Removed(d, segs[0].id).files.Keys == d.files.Keys - {segs[0].id};
    assert forall i :: 1 <= i < |segs| ==> ids[0] < ids[i];
  }

  /** Remove the first segment, consumed or not. */
  lemma DropLayout(crc: Crc, d: DirState, segs: seq<Segment>, headOff: nat, log: seq<seq<bytes>>)
    requires Layout(crc, d, segs, headOff, log, []) && |segs| > 1
    ensures Layout(crc, Removed(d, segs[0].id), segs[1..], 0, log[1..], [])
    ensures HeadLinked(d, segs, headOff) ==> HeadLinked(Removed(d, segs[0].id), segs[1..], 0)
  {
    hide Lists, Holds, Ids;
    var d', segs', log' := Removed(d, segs[0].id), segs[1..], log[1..];
    DropIds(d, segs);
    forall i | 0 <= i < |segs'| ensures Holds(crc, d', segs'[i], From(0, i), log'[i], TornAt(segs', i, [])) {
      HoldsAt(crc, d, segs, headOff, log, [], i + 1);
      HoldsElsewhere(crc, d, d', segs[i + 1], 0, log[i + 1], []);
    }
  }

  /** Advance the cursor in the first file over its first unread record. */
  lemma AdvanceHolds(crc: Crc, d: DirState, seg: Segment, from: nat, bodies: seq<bytes>)
    requires Holds(crc, d, seg, from, bodies, []) && bodies != []
    ensures var off := from + HEADER_LEN + |bodies[0]|;
      Holds(crc, d, seg.(records := seg.records - 1), off, bodies[1..], []) &&
      (off >= seg.size <==> bodies[1..] == [])
  {
    var off := from + HEADER_LEN + |bodies[0]|;
    var file := d.files[seg.id];
    var rec := Record(crc, bodies[0]);
    assert file[from..] == rec + Encoded(crc, bodies[1..]);
    assert file[off..] == file[from..][|rec|..];
    assert file[off..] == Encoded(crc, bodies[1..]) + [];
  }

  lemma AdvanceLayout(crc: Crc, d: DirState, segs: seq<Segment>, headOff: nat, log: seq<seq<bytes>>)
    requires Layout(crc, d, segs, headOff, log, []) && log[0] != []
    ensures var off := headOff + HEADER_LEN + |log[0][0]|;
      Layout(crc, d, segs[0 := segs[0].(records := segs[0].records - 1)], off, log[0 := log[0][1..]], []) &&
      (off >= segs[0].size <==> log[0][1..] == [])
  {
    hide Holds, Lists, Ids;
    var off := headOff + HEADER_LEN + |log[0][0]|;
    HoldsAt(crc, d, segs, headOff, log, [], 0);
    AdvanceHolds(crc, d, segs[0], headOff, log[0]);
    var segs', log' := segs[0 := segs[0].(records := segs[0].records - 1)], log[0 := log[0][1..]];
    IdsUpdate(segs, 0, segs'[0]);
    forall i | 0 <= i < |segs| ensures Holds(crc, d, segs'[i], From(off, i), log'[i], TornAt(segs', i, [])) {
      HoldsAt(crc, d, segs, headOff, log, [], i);
    }
  }

  /** Empty the only segment. */
  lemma ResetLayout(crc: Crc, d: DirState, segs: seq<Segment>, headOff: nat, log: seq<seq<bytes>>)
    requires Layout(crc, d, segs, headOff, log, []) && |segs| == 1
    ensures Layout(crc, Truncated(d, segs[0].id, 0), [Segment(segs[0].id, 0, 0)], 0, [[]], [])
  {
    assert Holds(crc, d, segs[0], headOff, log[0], TornAt(segs, 0, []));
    var d', segs' := Truncated(d, segs[0].id, 0), [Segment(segs[0].id, 0, 0)];
    assert d'.files.Keys == d.files.Keys;
    assert Ids(segs') == Ids(segs);
    assert Holds(crc, d', segs'[0], 0, [], []);
  }

  /** Rewriting the head file leaves the layout alone and links the cursor. */
  lemma HeadLayout(crc: Crc, d: DirState, segs: seq<Segment>, headOff: nat, log: seq<seq<bytes>>)
    requires Layout(crc, d, segs, headOff, log, [])
    ensures var d' := WithHead(d, Cursor(segs[0].id, headOff));
      Layout(crc, d', segs, headOff, log, []) && HeadLinked(d', segs, headOff)
  {
    var d' := WithHead(d, Cursor(segs[0].id, headOff));
    forall i | 0 <= i < |segs| ensures Holds(crc, d', segs[i], From(headOff, i), log[i], TornAt(segs, i, [])) {
      assert Holds(crc, d, segs[i], From(headOff, i), log[i], TornAt(segs, i, []));
    }
  }

  /** A directory with one segment file that the head does not rule out. */
  lemma SingleFileRecovered(crc: Crc, d: DirState, id: nat, maxBytes: nat)
    requires d.files.Keys == {id} && HeadOf(d).id <= id
    ensures LiveIds(d) == [id]
    ensures var r := ScanOf(crc, d, id);
      Describes(crc, d, [Segment(id, |r.file|, |r.bodies|)], [r.bodies]) && Recovered(crc, d, maxBytes) == r.bodies
  {
    hide Scan, Bodies;
    var live := set x | x in d.files && x >= HeadOf(d).id;
    assert live == {id} by {
      assert forall x :: x in d.files <==> x in d.files.Keys;
    }
    assert Lists([id], {id}) by { assert [id][0] == id; }
    ListingUnique([id], LiveIds(d), live);
    var bodies := ScanOf(crc, d, id).bodies;
    assert RecoveredLog(crc, d) == [bodies];
    assert [bodies][0..] == [bodies];
    FlattenSnoc([], bodies);
    assert [] + [bodies] == [bodies];
  }

  /** The crash between the truncation and the head write of a reset: the head
      file still names an offset inside the old contents, the scan extends the
      file to it, and the queue comes back empty with an exhausted segment. */
  lemma ResetCrash(crc: Crc, d: DirState, segs: seq<Segment>, headOff: nat, log: seq<seq<bytes>>, maxBytes: nat)
    requires Layout(crc, d, segs, headOff, log, []) && |segs| == 1 && HeadLinked(d, segs, headOff)
    ensures var d' := Truncated(d, segs[0].id, 0);
      Describes(crc, d', [Segment(segs[0].id, headOff, 0)], [[]]) && Recovered(crc, d', maxBytes) == []
  {
    hide Holds, Lists, Describes, Recovered;
    var id := segs[0].id;
    var d' := Truncated(d, id, 0);
    SingleFile(crc, d, segs, headOff, log);
    SingleFileRecovered(crc, d', id, maxBytes);
    assert FileOf(d', id) == [];
    ScanEmpty(crc, StartOf(d', id));
  }

  lemma ScanEmpty(crc: Crc, from: nat)
    ensures Scan(crc, [], from).bodies == [] && |Scan(crc, [], from).file| == from
  {
  }

  lemma SingleFile(crc: Crc, d: DirState, segs: seq<Segment>, headOff: nat, log: seq<seq<bytes>>)
    requires Layout(crc, d, segs, headOff, log, []) && |segs| == 1
    ensures d.files.Keys == {segs[0].id} && segs[0].id in d.files
  {
    hide AllHold;
    assert Ids(segs) == [segs[0].id];
    assert Ids(segs)[0] in d.files.Keys;
    assert forall x <- d.files.Keys :: x in [segs[0].id];
  }
}
