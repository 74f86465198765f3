/** The polling source: one read cycle over the planned blocks, end to end from
    the bytes on the wire to the decoded readings. */
module ModbusSource {
  import opened Bytes
  import opened Messages
  import opened Sequences
  import opened ModbusRegs
  import opened ReadPlan
  import opened ModbusFrame
  import opened ModbusServer
  import opened ModbusClient

  datatype Reading = Reading(tag: string, value: Float, at: int)

  datatype Failure =
    NotConnected | ReadFailed(fn: byte, start: uint16, count: uint16, error: Error) | BadTag(tag: string)

  type Cycle = Result<seq<Reading>, Failure>

  /** What a client keeps between requests: its last transaction id and the bytes
      it has not read. */
  datatype Wire = Wire(tid: uint16, input: bytes)

  /** One request over the wire; `incoming` arrives while it is outstanding. */
  function Fetch(w: Wire, unit: byte, fn: byte, start: uint16, count: uint16, incoming: bytes)
    : (r: (Result<seq<uint16>, Error>, Wire))
    ensures r.0.Ok? ==> |r.0.value| == count
  {
    var req := Request(fn, start, count);
    if req.Err? then (Err(req.error), w) else
    var tid := (w.tid + 1) % 0x1_0000;
    var (pdu, left) := FirstMatch(w.input + incoming, tid);
    (if pdu.Ok? then ParseResponse(pdu.value, fn, count) else Err(pdu.error), Wire(tid, left))
  }

  /** The tags of a block from the k-th on, appended to the readings so far. */
  function Slices(b: Block, regs: seq<uint16>, k: nat, at: int, out: seq<Reading>): (r: Cycle)
    requires Spans(b) && |regs| == b.count && k <= |b.tags|
    ensures r.Err? ==> r.error.BadTag?
    decreases |b.tags| - k
  {
    if k == |b.tags| then Ok(out) else
    var t := b.tags[k];
    assert t in b.tags;
    var off := t.start - b.start;
    var v := Decode(t.typ, t.order, regs[off..off + t.words]);
    if v.Err? then Err(BadTag(t.name)) else Slices(b, regs, k + 1, at, out + [Reading(t.name, v.value, at)])
  }

  ghost predicate AllSpans(blocks: seq<Block>) {
    forall b <- blocks :: Spans(b)
  }

  /** The cycle from the k-th block on. */
  ghost function Poll(blocks: seq<Block>, unit: byte, k: nat, incoming: seq<bytes>, at: int, out: seq<Reading>,
      w: Wire): (Cycle, Wire)
    requires AllSpans(blocks) && k <= |blocks| == |incoming|
    decreases |blocks| - k
  {
    if k == |blocks| then (Ok(out), w) else
    var b := blocks[k];
    var (regs, w') := Fetch(w, unit, b.fn, b.start, b.count, incoming[k]);
    if regs.Err? then (Err(ReadFailed(b.fn, b.start, b.count, regs.error)), w') else
    var next := Slices(b, regs.value, 0, at, out);
    if next.Err? then (next, w') else Poll(blocks, unit, k + 1, incoming, at, next.value, w')
  }

  /** The frame that asks the unit for a block, with the next transaction id. */
  function Question(tid: uint16, unit: byte, b: Block): bytes {
    var req := Request(b.fn, b.start, b.count);
    if req.Err? then [] else Frame(ADU((tid + 1) % 0x1_0000, unit, req.value))
  }

  /** What is written meanwhile: a request for each block reached. */
  ghost function Asked(blocks: seq<Block>, unit: byte, k: nat, incoming: seq<bytes>, at: int, w: Wire): bytes
    requires AllSpans(blocks) && k <= |blocks| == |incoming|
    decreases |blocks| - k
  {
    if k == |blocks| then [] else
    var b := blocks[k];
    var (regs, w') := Fetch(w, unit, b.fn, b.start, b.count, incoming[k]);
    Question(w.tid, unit, b) +
    if regs.Err? || Slices(b, regs.value, 0, at, []).Err? then [] else Asked(blocks, unit, k + 1, incoming, at, w')
  }

  /** Whether a slice decodes does not depend on the readings before it. */
  lemma {:induction false} SlicesAnyway(b: Block, regs: seq<uint16>, k: nat, at: int, out: seq<Reading>,
      out': seq<Reading>)
    requires Spans(b) && |regs| == b.count && k <= |b.tags|
    ensures Slices(b, regs, k, at, out).Ok? <==> Slices(b, regs, k, at, out').Ok?
    decreases |b.tags| - k
  {
    if k < |b.tags| {
      var t := b.tags[k];
      assert t in b.tags;
      var off := t.start - b.start;
      var v := Decode(t.typ, t.order, regs[off..off + t.words]);
      hide Decode, Spans;
      if v.Ok? {
        var r := Reading(t.name, v.value, at);
        SlicesAnyway(b, regs, k + 1, at, out + [r], out' + [r]);
      }
    }
  }

  class Source {
    const unit: byte
    const blocks: seq<Block>
    var conn: Client?

    constructor (unit: byte, tags: seq<Tag>, maxGap: int, sorted: seq<Tag>)
      requires maxGap >= 0 && forall t <- tags :: Readable(t)
      requires multiset(sorted) == multiset(tags) && Sorted(sorted)
      ensures conn == null && this.unit == unit
      ensures Flatten(TagLists(blocks)) == sorted && AllExact(blocks, maxGap) && AllSpans(blocks)
      ensures forall cover :: Covers(cover, tags, maxGap) ==> |blocks| <= |cover|
    {
      var plan := Plan(tags, maxGap, sorted);
      this.unit, blocks, conn := unit, plan, null;
    }

    /** Read: connect if needed, fetch block by block, slice and decode. A failure
        to read costs the connection, unless it is a protocol exception. `dialled`
        is what dialling would return, null for a failure. */
    method Read(dialled: Client?, incoming: seq<bytes>, at: int) returns (r: Cycle)
      requires AllSpans(blocks) && |incoming| == |blocks|
      modifies this`conn, conn, dialled, if conn == null then {} else {conn.conn},
        if dialled == null then {} else {dialled.conn}
      ensures var c := if old(conn) != null then old(conn) else dialled;
        if c == null then r == Err(NotConnected) && conn == null
        else
          var w0 := old(Wire(c.tid, c.conn.input));
          (r, Wire(c.tid, c.conn.input)) == Poll(blocks, unit, 0, incoming, at, [], w0) &&
          c.conn.output == old(c.conn.output) + Asked(blocks, unit, 0, incoming, at, w0) &&
          conn == if r.Err? && r.error.ReadFailed? && !r.error.error.Exception? then null else c
    {
      hide Spans, Fetch, Question, Slices;
      if conn == null {
        if dialled == null {
          return Err(NotConnected);
        }
        conn := dialled;
      }
      var c: Client := conn;
      ghost var w0 := Wire(c.tid, c.conn.input);
      assert w0 == old(Wire(c.tid, c.conn.input));
      ghost var sent0 := c.conn.output;
      var out := [];
      for k := 0 to |blocks|
        invariant conn == c
        invariant Poll(blocks, unit, 0, incoming, at, [], w0) ==
          Poll(blocks, unit, k, incoming, at, out, Wire(c.tid, c.conn.input))
        invariant sent0 + Asked(blocks, unit, 0, incoming, at, w0) ==
          c.conn.output + Asked(blocks, unit, k, incoming, at, Wire(c.tid, c.conn.input))
      {
        var b := blocks[k];
        ghost var w, sent := Wire(c.tid, c.conn.input), c.conn.output;
        var regs := FetchBlock(c, unit, b, incoming[k]);
        assert sent + Question(w.tid, unit, b) + [] == sent + Question(w.tid, unit, b);
        if regs.Err? {
          if !regs.error.Exception? {
            conn := null;
          }
          return Err(ReadFailed(b.fn, b.start, b.count, regs.error));
        }
        var next := ReadSlices(b, regs.value, at, out);
        SlicesAnyway(b, regs.value, 0, at, out, []);
        if next.Err? {
          return next;
        }
        out := next.value;
        ghost var more := Asked(blocks, unit, k + 1, incoming, at, Wire(c.tid, c.conn.input));
        Associate(sent, Question(w.tid, unit, b), more);
      }
      assert sent0 + Asked(blocks, unit, 0, incoming, at, w0) == c.conn.output + [];
      return Ok(out);
    }
  }

  lemma Associate(a: bytes, b: bytes, c: bytes)
    ensures a + (b + c) == a + b + c
  {
  }

  /** ReadRegisters for one block. */
  method FetchBlock(c: Client, unit: byte, b: Block, incoming: bytes) returns (r: Result<seq<uint16>, Error>)
    modifies c, c.conn
    ensures var w0 := old(Wire(c.tid, c.conn.input));
      (r, Wire(c.tid, c.conn.input)) == Fetch(w0, unit, b.fn, b.start, b.count, incoming) &&
      c.conn.output == old(c.conn.output) + Question(w0.tid, unit, b)
    ensures r.Ok? ==> |r.value| == b.count
  {
    hide FirstMatch, ParseResponse, Request, Frame;
    ghost var sent := c.conn.output;
    r := c.ReadRegisters(b.fn, unit, b.start, b.count, incoming);
    assert sent + [] == sent;
  }

  method ReadSlices(b: Block, regs: seq<uint16>, at: int, out: seq<Reading>) returns (r: Cycle)
    requires Spans(b) && |regs| == b.count
    ensures r == Slices(b, regs, 0, at, out)
  {
    hide Decode;
    var rs := out;
    for k := 0 to |b.tags|
      invariant Slices(b, regs, 0, at, out) == Slices(b, regs, k, at, rs)
    {
      var t := b.tags[k];
      assert t in b.tags;
      var off := t.start - b.start;
      var v := Decode(t.typ, t.order, regs[off..off + t.words]);
      if v.Err? {
        return Err(BadTag(t.name));
      }
      rs := rs + [Reading(t.name, v.value, at)];
    }
    return Ok(rs);
  }

  // ----- A cycle means what reading each tag alone means ---------------------------

  /** What a client is told that asks a device for some registers. */
  function DeviceRead(bank: Bank, unit: byte, fn: byte, start: uint16, count: uint16): Result<seq<uint16>, Error> {
    var req := Request(fn, start, count);
    if req.Err? then Err(req.error) else Expected(bank(fn, unit, start, count), fn, count)
  }

  /** The tag's value from a request for its registers alone. */
  function TagValue(bank: Bank, unit: byte, t: Tag): Option<Float>
    requires Readable(t)
  {
    var regs := DeviceRead(bank, unit, t.fn, t.start, t.words);
    if regs.Err? then None else
    var v := Decode(t.typ, t.order, regs.value);
    if v.Err? then None else Some(v.value)
  }

  /** A tag as the source builds it from a validated plant. */
  predicate WellTyped(t: Tag) {
    t.words == Words(t.typ) && (t.fn == READ_HOLDING || t.fn == READ_INPUT)
  }

  ghost predicate AllReadable(bank: Bank, unit: byte, tags: seq<Tag>) {
    forall t <- tags :: WellTyped(t) && TagValue(bank, unit, t).Some?
  }

  function ReadAlone(bank: Bank, unit: byte, t: Tag, at: int): Reading
    requires WellTyped(t) && TagValue(bank, unit, t).Some?
  {
    Reading(t.name, TagValue(bank, unit, t).value, at)
  }

  /** One reading per tag, each tag read alone. */
  function EachAlone(bank: Bank, unit: byte, tags: seq<Tag>, at: int): (rs: seq<Reading>)
    requires forall t <- tags :: WellTyped(t) && TagValue(bank, unit, t).Some?
    ensures |rs| == |tags|
  {
    seq(|tags|, i requires 0 <= i < |tags| =>
      assert tags[i] in tags;
      ReadAlone(bank, unit, tags[i], at))
  }

  function Table(fn: byte, holding: seq<uint16>, input: seq<uint16>): seq<uint16> {
    if fn == READ_HOLDING then holding else input
  }

  /** A request of a permitted size to a register bank. */
  lemma MemoryRead(holding: seq<uint16>, input: seq<uint16>, unit: byte, fn: byte, start: uint16, count: uint16)
    requires (fn == READ_HOLDING || fn == READ_INPUT) && 1 <= count <= LIMIT
    ensures var table := Table(fn, holding, input);
      var r := DeviceRead(MemoryReply(holding, input), unit, fn, start, count);
      if start + count <= 0x1_0000 && start + count <= |table| then r == Ok(table[start..start + count]) else r.Err?
  {
    assert MemoryReply(holding, input)(fn, unit, start, count) == Slice(Table(fn, holding, input), start, count);
  }

  /** The registers of a block serve a tag exactly as a request of its own would. */
  lemma SliceIsAlone(holding: seq<uint16>, input: seq<uint16>, unit: byte, b: Block, t: Tag)
    requires Spans(b) && b.count <= LIMIT && t in b.tags && WellTyped(t)
    requires DeviceRead(MemoryReply(holding, input), unit, b.fn, b.start, b.count).Ok?
    ensures var regs := DeviceRead(MemoryReply(holding, input), unit, b.fn, b.start, b.count).value;
      var off := t.start - b.start;
      |regs| == b.count && 0 <= off && off + t.words <= b.count &&
      Decode(t.typ, t.order, regs[off..off + t.words]).Ok? &&
      TagValue(MemoryReply(holding, input), unit, t) == Some(Decode(t.typ, t.order, regs[off..off + t.words]).value)
  {
    var regs := TableSlice(holding, input, unit, b, t);
    EncodeDecoded(t.typ, t.order, regs);
    hide DeviceRead, MemoryReply, Spans, Decode;
  }

  /** Both requests read the same part of one table. */
  lemma TableSlice(holding: seq<uint16>, input: seq<uint16>, unit: byte, b: Block, t: Tag) returns (sub: seq<uint16>)
    requires Spans(b) && b.count <= LIMIT && t in b.tags && WellTyped(t)
    requires DeviceRead(MemoryReply(holding, input), unit, b.fn, b.start, b.count).Ok?
    ensures var regs := DeviceRead(MemoryReply(holding, input), unit, b.fn, b.start, b.count).value;
      var off := t.start - b.start;
      |regs| == b.count && 0 <= off && off + t.words <= b.count && sub == regs[off..off + t.words]
    ensures |sub| == t.words && DeviceRead(MemoryReply(holding, input), unit, t.fn, t.start, t.words) == Ok(sub)
  {
    SpanBounds(b, t);
    var table := Table(b.fn, holding, input);
    var off := t.start - b.start;
    MemoryRead(holding, input, unit, b.fn, b.start, b.count);
    MemoryRead(holding, input, unit, t.fn, t.start, t.words);
    hide DeviceRead, MemoryReply, Spans, Table;
    SliceOfSlice(table, b.start, b.count, off, t.words);
    sub := table[t.start..t.start + t.words];
  }

  lemma SpanBounds(b: Block, t: Tag)
    requires Spans(b) && t in b.tags
    ensures t.fn == b.fn && b.start <= t.start && End(t) <= b.start + b.count
  {
  }

  lemma SliceOfSlice(s: seq<uint16>, from: nat, n: nat, off: nat, m: nat)
    requires off + m <= n && from + n <= |s|
    ensures s[from..from + n][off..off + m] == s[from + off..from + off + m]
  {
    var a, b := s[from..from + n][off..off + m], s[from + off..from + off + m];
    assert |a| == |b| == m;
    assert forall i :: 0 <= i < m ==> a[i] == b[i];
  }

  /** A block read succeeds exactly when every one of its tags can be read alone. */
  lemma BlockReadable(holding: seq<uint16>, input: seq<uint16>, unit: byte, b: Block)
    requires Spans(b) && 1 <= b.count <= LIMIT && forall t <- b.tags :: WellTyped(t)
    ensures DeviceRead(MemoryReply(holding, input), unit, b.fn, b.start, b.count).Ok? <==>
            AllReadable(MemoryReply(holding, input), unit, b.tags)
  {
    assert b.tags[0] in b.tags;
    if DeviceRead(MemoryReply(holding, input), unit, b.fn, b.start, b.count).Ok? {
      forall t | t in b.tags ensures TagValue(MemoryReply(holding, input), unit, t).Some? {
        SliceIsAlone(holding, input, unit, b, t);
      }
    } else {
      var last :| last in b.tags && End(last) == b.start + b.count;
      hide DeviceRead, MemoryReply;
      MemoryRead(holding, input, unit, b.fn, b.start, b.count);
      MemoryRead(holding, input, unit, last.fn, last.start, last.words);
    }
  }

  /** The readings sliced out of a block are those of its tags read alone. */
  lemma {:induction false} SlicesAlone(holding: seq<uint16>, input: seq<uint16>, unit: byte, b: Block, k: nat, at: int,
      out: seq<Reading>)
    requires Spans(b) && 1 <= b.count <= LIMIT && k <= |b.tags| && forall t <- b.tags :: WellTyped(t)
    requires DeviceRead(MemoryReply(holding, input), unit, b.fn, b.start, b.count).Ok?
    requires AllReadable(MemoryReply(holding, input), unit, b.tags)
    ensures var bank := MemoryReply(holding, input);
      Slices(b, DeviceRead(bank, unit, b.fn, b.start, b.count).value, k, at, out) ==
      Ok(out + EachAlone(bank, unit, b.tags[k..], at))
    decreases |b.tags| - k
  {
    var bank := MemoryReply(holding, input);
    hide Decode, TagValue, DeviceRead, MemoryReply, Spans;
    if k < |b.tags| {
      var t := b.tags[k];
      assert t in b.tags;
      SliceIsAlone(holding, input, unit, b, t);
      SlicesAlone(holding, input, unit, b, k + 1, at, out + [ReadAlone(bank, unit, t, at)]);
      EachAloneStep(bank, unit, b.tags, k, at);
      var rest := EachAlone(bank, unit, b.tags[k + 1..], at);
      assert out + ([ReadAlone(bank, unit, t, at)] + rest) == out + [ReadAlone(bank, unit, t, at)] + rest;
    } else {
      assert out + EachAlone(bank, unit, b.tags[k..], at) == out;
    }
  }

  lemma EachAloneStep(bank: Bank, unit: byte, tags: seq<Tag>, k: nat, at: int)
    requires AllReadable(bank, unit, tags) && k < |tags|
    ensures tags[k] in tags && tags[k..] == [tags[k]] + tags[k + 1..]
    ensures EachAlone(bank, unit, tags[k..], at) ==
      [ReadAlone(bank, unit, tags[k], at)] + EachAlone(bank, unit, tags[k + 1..], at)
  {
    hide TagValue;
  }

  /** What is sent while a block's request is outstanding: any number of stale
      frames, then the server's answer to it. */
  ghost predicate Served(bank: Bank, unit: byte, b: Block, tid: uint16, incoming: bytes, stale: seq<ADU>) {
    var id := (tid + 1) % 0x1_0000;
    var req := Request(b.fn, b.start, b.count);
    req.Ok? ==>
      (forall a <- stale :: Fits(a) && a.tid != id) &&
      incoming == Frames(stale) + Answers(bank, Frame(ADU(id, unit, req.value)))
  }

  lemma FetchServed(bank: Bank, unit: byte, b: Block, tid: uint16, incoming: bytes, stale: seq<ADU>)
    requires Served(bank, unit, b, tid, incoming, stale)
    ensures var (r, w) := Fetch(Wire(tid, []), unit, b.fn, b.start, b.count, incoming);
      r == DeviceRead(bank, unit, b.fn, b.start, b.count) && w.input == [] && (r.Ok? ==> w.tid == (tid + 1) % 0x1_0000)
  {
    hide Request, Frame, Frames, Answers, FirstMatch, ParseResponse, Expected, Fits;
    var req := Request(b.fn, b.start, b.count);
    if req.Ok? {
      var id := (tid + 1) % 0x1_0000;
      Exchange(bank, id, unit, b.fn, b.start, b.count, stale, []);
      var answer := Answers(bank, Frame(ADU(id, unit, req.value)));
      assert answer + [] == answer;
      assert [] + incoming == incoming;
    }
  }

  /** The server answers every request of the cycle from the k-th block on. */
  ghost predicate AllServed(bank: Bank, unit: byte, blocks: seq<Block>, k: nat, tid: uint16, incoming: seq<bytes>,
      stale: seq<seq<ADU>>) {
    |blocks| == |incoming| == |stale| &&
    forall j :: k <= j < |blocks| ==> Served(bank, unit, blocks[j], (tid + (j - k)) % 0x1_0000, incoming[j], stale[j])
  }

  /** A block of a plan over well-typed tags. */
  ghost predicate Sound(b: Block) {
    Spans(b) && 1 <= b.count <= LIMIT && forall t <- b.tags :: WellTyped(t)
  }

  /** The cycle ends well exactly when every tag can be read alone, and then with
      each tag's own value, once per tag, after the readings there were. */
  ghost predicate Means(r: Cycle, bank: Bank, unit: byte, tags: seq<Tag>, at: int, out: seq<Reading>) {
    (r.Ok? <==> AllReadable(bank, unit, tags)) &&
    (AllReadable(bank, unit, tags) ==> r == Ok(out + EachAlone(bank, unit, tags, at)))
  }

  /** Coalescing preserves meaning: polling a register bank block by block over
      the wire is reading every tag alone. */
  lemma {:induction false} PollMeaning(holding: seq<uint16>, input: seq<uint16>, unit: byte, blocks: seq<Block>, k: nat,
      incoming: seq<bytes>, stale: seq<seq<ADU>>, at: int, out: seq<Reading>, tid: uint16)
    requires k <= |blocks| && AllSpans(blocks) && forall b <- blocks :: Sound(b)
    requires AllServed(MemoryReply(holding, input), unit, blocks, k, tid, incoming, stale)
    ensures Means(Poll(blocks, unit, k, incoming, at, out, Wire(tid, [])).0,
                  MemoryReply(holding, input), unit, Flatten(TagLists(blocks[k..])), at, out)
    decreases |blocks| - k
  {
    var bank := MemoryReply(holding, input);
    if k == |blocks| {
      assert blocks[k..] == [] && TagLists([]) == [] && Flatten(TagLists([])) == [];
      assert out + EachAlone(bank, unit, [], at) == out;
    } else {
      var b := blocks[k];
      assert b in blocks;
      NextServed(bank, unit, blocks, k, incoming, stale, tid);
      FetchServed(bank, unit, b, tid, incoming[k], stale[k]);
      TagsFrom(blocks, k);
      var rest := Flatten(TagLists(blocks[k + 1..]));
      BlockMeaning(holding, input, unit, b, at, out, rest);
      hide Served, MemoryReply, Fetch, DeviceRead, TagLists, Flatten, Spans, AllReadable, Means, AllServed, EachAlone,
        Slices;
      if AllReadable(bank, unit, b.tags) {
        var next := Slices(b, DeviceRead(bank, unit, b.fn, b.start, b.count).value, 0, at, out);
        PollMeaning(holding, input, unit, blocks, k + 1, incoming, stale, at, next.value, (tid + 1) % 0x1_0000);
        MeansStep(Poll(blocks, unit, k + 1, incoming, at, next.value, Wire((tid + 1) % 0x1_0000, [])).0,
                  bank, unit, b.tags, rest, at, out, next.value);
      }
    }
  }

  /** One block: it can be read when its tags can, and if not the cycle fails. */
  lemma BlockMeaning(holding: seq<uint16>, input: seq<uint16>, unit: byte, b: Block, at: int, out: seq<Reading>,
      rest: seq<Tag>)
    requires Sound(b)
    ensures var bank := MemoryReply(holding, input);
      var regs := DeviceRead(bank, unit, b.fn, b.start, b.count);
      (regs.Ok? <==> AllReadable(bank, unit, b.tags)) &&
      (regs.Ok? ==> |regs.value| == b.count && Means(Slices(b, regs.value, 0, at, out), bank, unit, b.tags, at, out)) &&
      (regs.Err? ==> forall r: Cycle :: r.Err? ==> Means(r, bank, unit, b.tags + rest, at, out))
  {
    var bank := MemoryReply(holding, input);
    BlockReadable(holding, input, unit, b);
    if AllReadable(bank, unit, b.tags) {
      assert b.tags[0] in b.tags;
      SliceIsAlone(holding, input, unit, b, b.tags[0]);
      SlicesAlone(holding, input, unit, b, 0, at, out);
      assert b.tags[0..] == b.tags;
    } else {
      SomeUnreadable(bank, unit, b.tags, rest);
    }
  }

  lemma MeansStep(r: Cycle, bank: Bank, unit: byte, a: seq<Tag>, rest: seq<Tag>, at: int, out: seq<Reading>,
      out': seq<Reading>)
    requires AllReadable(bank, unit, a) && Means(Ok(out'), bank, unit, a, at, out) &&
      Means(r, bank, unit, rest, at, out')
    ensures Means(r, bank, unit, a + rest, at, out)
  {
    EachAloneConcat(bank, unit, a, rest, at);
    AllReadableConcat(bank, unit, a, rest);
    hide TagValue, WellTyped, AllReadable, EachAlone;
    if AllReadable(bank, unit, rest) {
      AssociateReadings(out, EachAlone(bank, unit, a, at), EachAlone(bank, unit, rest, at));
    }
  }

  lemma AllReadableConcat(bank: Bank, unit: byte, a: seq<Tag>, b: seq<Tag>)
    requires AllReadable(bank, unit, a)
    ensures forall t <- a :: WellTyped(t) && TagValue(bank, unit, t).Some?
    ensures AllReadable(bank, unit, b) ==> forall t <- a + b :: WellTyped(t) && TagValue(bank, unit, t).Some?
    ensures AllReadable(bank, unit, b) ==> forall t <- b :: WellTyped(t) && TagValue(bank, unit, t).Some?
  {
    hide TagValue;
  }

  lemma AssociateReadings(a: seq<Reading>, b: seq<Reading>, c: seq<Reading>)
    ensures a + b + c == a + (b + c)
  {
  }

  lemma SomeUnreadable(bank: Bank, unit: byte, a: seq<Tag>, b: seq<Tag>)
    requires !AllReadable(bank, unit, a)
    ensures !AllReadable(bank, unit, a + b)
  {
    hide TagValue;
    assert forall t <- a :: t in a + b;
  }

  lemma NextServed(bank: Bank, unit: byte, blocks: seq<Block>, k: nat, incoming: seq<bytes>, stale: seq<seq<ADU>>,
      tid: uint16)
    requires k < |blocks| && AllServed(bank, unit, blocks, k, tid, incoming, stale)
    ensures Served(bank, unit, blocks[k], tid, incoming[k], stale[k])
    ensures AllServed(bank, unit, blocks, k + 1, (tid + 1) % 0x1_0000, incoming, stale)
  {
    hide Served;
    assert (tid + (k - k)) % 0x1_0000 == tid;
    forall j | k + 1 <= j < |blocks|
      ensures Served(bank, unit, blocks[j], ((tid + 1) % 0x1_0000 + (j - (k + 1))) % 0x1_0000, incoming[j], stale[j])
    {
      assert ((tid + 1) % 0x1_0000 + (j - (k + 1))) % 0x1_0000 == (tid + (j - k)) % 0x1_0000;
    }
  }

  lemma TagsFrom(blocks: seq<Block>, k: nat)
    requires k < |blocks|
    ensures Flatten(TagLists(blocks[k..])) == blocks[k].tags + Flatten(TagLists(blocks[k + 1..]))
  {
    assert TagLists(blocks[k..])[0] == blocks[k].tags;
    assert TagLists(blocks[k..])[1..] == TagLists(blocks[k + 1..]);
  }

  lemma EachAloneConcat(bank: Bank, unit: byte, a: seq<Tag>, b: seq<Tag>, at: int)
    requires AllReadable(bank, unit, a)
    ensures AllReadable(bank, unit, a + b) <==> AllReadable(bank, unit, b)
    ensures AllReadable(bank, unit, b) ==>
      EachAlone(bank, unit, a + b, at) == EachAlone(bank, unit, a, at) + EachAlone(bank, unit, b, at)
  {
    hide TagValue;
    assert (forall t <- a :: t in a + b) && (forall t <- b :: t in a + b) && forall t <- a + b :: t in a || t in b;
  }

  /** A cycle that keeps the connection leaves nothing unread on it, so the next
      cycle starts as this one did. */
  lemma {:induction false} PollLeavesNothing(bank: Bank, unit: byte, blocks: seq<Block>, k: nat, incoming: seq<bytes>,
      stale: seq<seq<ADU>>, at: int, out: seq<Reading>, tid: uint16)
    requires k <= |blocks| && AllSpans(blocks) && AllServed(bank, unit, blocks, k, tid, incoming, stale)
    ensures Poll(blocks, unit, k, incoming, at, out, Wire(tid, [])).1.input == []
    decreases |blocks| - k
  {
    if k < |blocks| {
      var b := blocks[k];
      NextServed(bank, unit, blocks, k, incoming, stale, tid);
      FetchServed(bank, unit, b, tid, incoming[k], stale[k]);
      hide Served, Fetch, DeviceRead, Spans, AllServed, Slices;
      var (regs, w) := Fetch(Wire(tid, []), unit, b.fn, b.start, b.count, incoming[k]);
      if regs.Ok? {
        var next := Slices(b, regs.value, 0, at, out);
        if next.Ok? {
          PollLeavesNothing(bank, unit, blocks, k + 1, incoming, stale, at, next.value, (tid + 1) % 0x1_0000);
        }
      }
    }
  }

  /** A whole cycle of a planned source: its readings are those of all its tags,
      each read alone, in plan order; it fails exactly when one of them cannot be
      read. */
  lemma PlannedCycle(holding: seq<uint16>, input: seq<uint16>, unit: byte, tags: seq<Tag>, maxGap: int,
      sorted: seq<Tag>, blocks: seq<Block>, incoming: seq<bytes>, stale: seq<seq<ADU>>, at: int, tid: uint16)
    requires multiset(sorted) == multiset(tags) && forall t <- tags :: WellTyped(t)
    requires Flatten(TagLists(blocks)) == sorted && AllExact(blocks, maxGap) && AllSpans(blocks)
    requires AllServed(MemoryReply(holding, input), unit, blocks, 0, tid, incoming, stale)
    ensures var bank := MemoryReply(holding, input);
      var r := Poll(blocks, unit, 0, incoming, at, [], Wire(tid, [])).0;
      (r.Ok? <==> AllReadable(bank, unit, tags)) &&
      (r.Ok? ==> AllReadable(bank, unit, sorted) && r.value == EachAlone(bank, unit, sorted, at))
  {
    SameMembers(sorted, tags);
    hide Spans, Bridged, AllServed, TagValue, TagLists;
    forall b | b in blocks ensures Sound(b) {
      forall t | t in b.tags ensures WellTyped(t) {
        var k :| 0 <= k < |blocks| && blocks[k] == b;
        assert TagLists(blocks)[k] == b.tags;
        FlattenMember(TagLists(blocks), t);
      }
    }
    PollMeaning(holding, input, unit, blocks, 0, incoming, stale, at, [], tid);
    assert blocks[0..] == blocks;
    hide Poll, Flatten, MemoryReply, AllExact, Sound;
    if AllReadable(MemoryReply(holding, input), unit, sorted) {
      var rs := EachAlone(MemoryReply(holding, input), unit, sorted, at);
      assert [] + rs == rs;
    }
  }

  /** The registers of a tag in its table, holding for function code 3 and input
      for 4, if the table has them. */
  function RegistersAt(holding: seq<uint16>, input: seq<uint16>, t: Tag): Option<seq<uint16>> {
    var table := if t.fn == 3 then holding else input;
    var words := if t.typ == Int16 || t.typ == UInt16 then 1 else 2;
    if t.start + words <= |table| && t.start + words <= 65536 then Some(table[t.start..t.start + words]) else None
  }

  lemma TagOfTable(holding: seq<uint16>, input: seq<uint16>, unit: byte, t: Tag)
    requires WellTyped(t)
    ensures var regs := RegistersAt(holding, input, t);
      TagValue(MemoryReply(holding, input), unit, t) ==
      if regs.Some? && Decode(t.typ, t.order, regs.value).Ok? then Some(Decode(t.typ, t.order, regs.value).value)
      else None
    ensures var regs := RegistersAt(holding, input, t);
      regs.Some? ==> Decode(t.typ, t.order, regs.value).Ok?
  {
    MemoryRead(holding, input, unit, t.fn, t.start, t.words);
    var regs := RegistersAt(holding, input, t);
    if regs.Some? {
      DecodeMeaning(t.typ, t.order, regs.value);
    }
    hide Decode, DeviceRead, MemoryReply;
  }

  /** The same cycle by the registers: it ends well if and only if every tag lies
      in its table, and then reading k has the name of tag k, the value of its
      registers and the time of the cycle. */
  lemma CycleReadings(holding: seq<uint16>, input: seq<uint16>, unit: byte, tags: seq<Tag>, maxGap: int,
      sorted: seq<Tag>, blocks: seq<Block>, incoming: seq<bytes>, stale: seq<seq<ADU>>, at: int, tid: uint16)
    requires multiset(sorted) == multiset(tags) && forall t <- tags :: WellTyped(t)
    requires Flatten(TagLists(blocks)) == sorted && AllExact(blocks, maxGap) && AllSpans(blocks)
    requires AllServed(MemoryReply(holding, input), unit, blocks, 0, tid, incoming, stale)
    ensures var r := Poll(blocks, unit, 0, incoming, at, [], Wire(tid, [])).0;
      (r.Ok? <==> forall t <- tags :: RegistersAt(holding, input, t).Some?) &&
      (r.Ok? ==>
        |r.value| == |sorted| &&
        forall k :: 0 <= k < |sorted| ==> IsReading(holding, input, sorted[k], at, r.value[k]))
  {
    PlannedCycle(holding, input, unit, tags, maxGap, sorted, blocks, incoming, stale, at, tid);
    SameMembers(sorted, tags);
    hide Poll, AllServed, Flatten, TagLists, AllExact, AllSpans, MemoryReply, Decode, TagValue, RegistersAt;
    forall t | t in tags
      ensures TagValue(MemoryReply(holding, input), unit, t).Some? <==> RegistersAt(holding, input, t).Some?
    {
      TagOfTable(holding, input, unit, t);
    }
    var r := Poll(blocks, unit, 0, incoming, at, [], Wire(tid, [])).0;
    if r.Ok? {
      forall k | 0 <= k < |sorted| ensures IsReading(holding, input, sorted[k], at, r.value[k]) {
        assert sorted[k] in tags;
        TagOfTable(holding, input, unit, sorted[k]);
      }
    }
  }

  ghost predicate IsReading(holding: seq<uint16>, input: seq<uint16>, t: Tag, at: int, r: Reading) {
    var regs := RegistersAt(holding, input, t);
    regs.Some? && r.tag == t.name && r.at == at && Decode(t.typ, t.order, regs.value) == Ok(r.value)
  }
}
