/** The on-disk record format of the durable queue:
      record = body length (4 bytes) | CRC of body (4 bytes) | body
      body   = topic length (2 bytes) | topic | Unix nanoseconds (8 bytes) | retain | payload
    The checksum is a parameter everywhere: nothing is assumed about it. */
module Records {
  import opened Bytes
  import opened Messages
  import opened Sequences
  import opened Buffers

  type Crc = bytes -> uint32

  const HEADER_LEN := 8
  /** 16 MiB: the longest body a reader accepts. */
  const MAX_BODY := 0x100_0000

  /** What a single read at some offset of a segment file can find. */
  datatype ReadError = HeaderMissing | BodyMissing | Corrupt

  // ----- Bodies ---------------------------------------------------------

  /** Nanoseconds as stored: two's complement in 64 bits. */
  function Unsigned64(n: int64): nat {
    if n < 0 then n + 0x1_0000_0000_0000_0000 else n
  }

  function Signed64(n: nat): int64
    requires n < 0x1_0000_0000_0000_0000
  {
    if n < 0x8000_0000_0000_0000 then n else n - 0x1_0000_0000_0000_0000
  }

  /** Topics longer than 65535 bytes are cut. */
  function StoredTopic(topic: bytes): bytes {
    if |topic| > 0xFFFF then topic[..0xFFFF] else topic
  }

  function Body(m: Message): (b: bytes)
    ensures |b| == 11 + |StoredTopic(m.topic)| + |m.payload|
  {
    var topic := StoredTopic(m.topic);
    BigEndian(|topic|, 2) + topic + BigEndian(Unsigned64(m.at), 8) + [if m.retain then 1 else 0] + m.payload
  }

  function Decode(body: bytes): Result<Message, ReadError> {
    if |body| < 2 then Err(Corrupt) else
    var topicLen := Value(body[..2]);
    if |body| < 2 + topicLen + 9 then Err(Corrupt) else
    var off := 2 + topicLen;
    PowersOf256();
    Ok(Message(body[2..off], body[off + 9..], body[off + 8] == 1, Signed64(Value(body[off..off + 8]))))
  }

  lemma BodySlices(len: bytes, topic: bytes, at: bytes, retain: byte, payload: bytes)
    requires |len| == 2 && |at| == 8
    ensures var body := len + topic + at + [retain] + payload;
      var off := 2 + |topic|;
      body[..2] == len && body[2..off] == topic && body[off..off + 8] == at &&
      body[off + 8] == retain && body[off + 9..] == payload
  {
  }

  /** Decoding an encoded message gives it back, except for what was cut off
      the end of an over-long topic. */
  lemma DecodeBody(m: Message)
    ensures Decode(Body(m)) == Ok(m.(topic := StoredTopic(m.topic)))
  {
    hide BigEndian, Value, Pow256;
    var topic := StoredTopic(m.topic);
    BodySlices(BigEndian(|topic|, 2), topic, BigEndian(Unsigned64(m.at), 8), if m.retain then 1 else 0, m.payload);
    ValueOf16(|topic|);
    ValueOfBigEndian(Unsigned64(m.at), 8);
    PowersOf256();
  }

  /** Cutting a sequence at four places and putting the pieces together. */
  lemma Pieces(s: bytes, i: nat, j: nat, k: nat)
    requires i <= j <= k < |s|
    ensures s == s[..i] + s[i..j] + s[j..k] + [s[k]] + s[k + 1..]
  {
  }

  /** Concatenations that agree outside one byte are equal iff that byte is. */
  lemma ReplaceByte(front: bytes, x: byte, y: byte, back: bytes)
    ensures front + [x] + back == front + [y] + back <==> x == y
  {
    assert (front + [x] + back)[|front|] == x;
    assert (front + [y] + back)[|front|] == y;
  }

  /** Encoding what was decoded gives the same bytes exactly when the retain
      byte is one the encoder writes. */
  lemma BodyOfDecode(body: bytes)
    requires Decode(body).Ok?
    ensures Body(Decode(body).value) == body
       <==> body[2 + Value(body[..2]) + 8] in [0, 1]
  {
    hide BigEndian, Value, Pow256;
    PowersOf256();
    var topicLen := Value(body[..2]);
    var off := 2 + topicLen;
    var m := Decode(body).value;
    var retain: byte := if m.retain then 1 else 0;
    assert m.topic == body[2..off] && m.payload == body[off + 9..];
    BigEndianOfValue(body[..2]);
    BigEndianOfValue(body[off..off + 8]);
    assert Unsigned64(m.at) == Value(body[off..off + 8]);
    var front := body[..2] + body[2..off] + body[off..off + 8];
    assert Body(m) == front + [retain] + body[off + 9..];
    Pieces(body, 2, off, off + 8);
    ReplaceByte(front, retain, body[off + 8], body[off + 9..]);
  }

  // ----- Records --------------------------------------------------------

  /** A body every reader accepts. */
  predicate Readable(body: bytes) {
    0 < |body| <= MAX_BODY
  }

  function Record(crc: Crc, body: bytes): (r: bytes)
    ensures |r| == HEADER_LEN + |body|
  {
    BigEndian(|body|, 4) + BigEndian(crc(body), 4) + body
  }

  /** Read one record from the front of s: the common part of the recovery
      scan and of Peek. */
  function ReadRecord(crc: Crc, s: bytes): (r: Result<bytes, ReadError>)
    ensures r.Ok? ==> Readable(r.value) && HEADER_LEN + |r.value| <= |s|
  {
    if |s| < HEADER_LEN then Err(HeaderMissing) else
    var n := Value(s[..4]);
    if n == 0 || n > MAX_BODY then Err(Corrupt) else
    if |s| < HEADER_LEN + n then Err(BodyMissing) else
    var body := s[HEADER_LEN..HEADER_LEN + n];
    if crc(body) != Value(s[4..8]) then Err(Corrupt) else Ok(body)
  }

  lemma HeaderOf(crc: Crc, body: bytes, rest: bytes)
    requires |body| < 0x1_0000_0000
    ensures var s := Record(crc, body) + rest;
      Value(s[..4]) == |body| && Value(s[4..8]) == crc(body) &&
      s[HEADER_LEN..HEADER_LEN + |body|] == body && s[HEADER_LEN + |body|..] == rest
  {
    var s := Record(crc, body) + rest;
    assert s[..4] == BigEndian(|body|, 4);
    assert s[4..8] == BigEndian(crc(body), 4);
    ValueOf32(|body|);
    ValueOf32(crc(body));
  }

  /** A record is read back whatever follows it, unless its body is outside
      the limits; then the read reports corruption. */
  lemma ReadBack(crc: Crc, body: bytes, rest: bytes)
    requires |body| < 0x1_0000_0000
    ensures ReadRecord(crc, Record(crc, body) + rest) ==
            if Readable(body) then Ok(body) else Err(Corrupt)
  {
    HeaderOf(crc, body, rest);
  }

  /** An append cut short by a crash leaves nothing a reader accepts. */
  lemma TornRecordUnreadable(crc: Crc, body: bytes, k: nat)
    requires |body| < 0x1_0000_0000 && k < |Record(crc, body)|
    ensures ReadRecord(crc, Record(crc, body)[..k]).Err?
  {
    var whole := Record(crc, body);
    var s := whole[..k];
    if k >= HEADER_LEN {
      HeaderOf(crc, body, []);
      assert whole + [] == whole;
      assert s[..4] == whole[..4];
    }
  }

  /** What a read finds depends only on the record it accepts. */
  lemma ReadRecordIsRecord(crc: Crc, s: bytes)
    requires ReadRecord(crc, s).Ok?
    ensures var body := ReadRecord(crc, s).value;
      s == Record(crc, body) + s[HEADER_LEN + |body|..]
  {
    var body := ReadRecord(crc, s).value;
    BigEndianOfValue(s[..4]);
    BigEndianOfValue(s[4..8]);
    assert s == s[..4] + s[4..8] + body + s[HEADER_LEN + |body|..];
  }

  /** Byte i has the weight of the bytes behind it. */
  ghost predicate Digits(bs: bytes, n: nat) {
    forall i :: 0 <= i < |bs| ==> bs[i] == n / Pow256(|bs| - 1 - i) % 256
  }

  lemma DigitsOf(n: nat, k: nat)
    ensures Digits(BigEndian(n, k), n)
  {
    forall i | 0 <= i < k ensures BigEndian(n, k)[i] == n / Pow256(k - 1 - i) % 256 {
      DigitAt(n, k, i);
    }
  }

  /** A body byte by byte: two bytes for the length of the topic, the topic, eight
      bytes of time, a byte 0 or 1, and the payload. */
  lemma BodyLayout(m: Message)
    requires |m.topic| <= 65535
    ensures var body, t := Body(m), |m.topic|;
      |body| == 11 + t + |m.payload| &&
      body[0] == t / 256 && body[1] == t % 256 && body[2..2 + t] == m.topic &&
      Digits(body[2 + t..10 + t], if m.at < 0 then m.at + 0x1_0000_0000_0000_0000 else m.at) &&
      body[10 + t] == (if m.retain then 1 else 0) && body[11 + t..] == m.payload
  {
    var body, t := Body(m), |m.topic|;
    var time := Unsigned64(m.at);
    TwoBytes(t);
    DigitsOf(time, 8);
    BodySlices(BigEndian(t, 2), m.topic, BigEndian(time, 8), if m.retain then 1 else 0, m.payload);
    hide BigEndian, Digits;
    assert body[..2][0] == body[0] && body[..2][1] == body[1];
  }

  /** A record: the length of the body, its checksum, the body. */
  lemma RecordLayout(crc: Crc, body: bytes)
    ensures var r, n, sum := Record(crc, body), |body|, crc(body);
      |r| == 8 + n && r[8..] == body &&
      r[..4] == [n / 0x100_0000 % 256, n / 0x1_0000 % 256, n / 256 % 256, n % 256] &&
      r[4..8] == [sum / 0x100_0000 % 256, sum / 0x1_0000 % 256, sum / 256 % 256, sum % 256]
  {
    FourBytes(|body|);
    FourBytes(crc(body));
    HeaderSlices(BigEndian(|body|, 4), BigEndian(crc(body), 4), body);
    hide BigEndian;
  }

  lemma HeaderSlices(a: bytes, b: bytes, body: bytes)
    requires |a| == |b| == 4
    ensures (a + b + body)[..4] == a && (a + b + body)[4..8] == b && (a + b + body)[8..] == body
  {
  }

  /** What a read accepts: a length from 1 byte to 16 MiB that is there in full,
      with the right checksum. */
  lemma ReadRecordMeaning(crc: Crc, s: bytes)
    ensures
      if |s| < 8 then ReadRecord(crc, s) == Err(HeaderMissing)
      else
        var n, sum := Four(s[0], s[1], s[2], s[3]), Four(s[4], s[5], s[6], s[7]);
        if n < 1 || n > 16777216 then ReadRecord(crc, s) == Err(Corrupt)
        else if |s| < 8 + n then ReadRecord(crc, s) == Err(BodyMissing)
        else ReadRecord(crc, s) == if crc(s[8..8 + n]) == sum then Ok(s[8..8 + n]) else Err(Corrupt)
  {
    if |s| >= 8 {
      ValueOfFour(s[0], s[1], s[2], s[3]);
      ValueOfFour(s[4], s[5], s[6], s[7]);
      assert s[..4] == [s[0], s[1], s[2], s[3]] && s[4..8] == [s[4], s[5], s[6], s[7]];
      hide Value;
    }
  }

  // ----- Logs of records --------------------------------------------------

  function Encoded(crc: Crc, bodies: seq<bytes>): bytes {
    if bodies == [] then [] else Record(crc, bodies[0]) + Encoded(crc, bodies[1..])
  }

  lemma {:induction false} EncodedConcat(crc: Crc, a: seq<bytes>, b: seq<bytes>)
    ensures Encoded(crc, a + b) == Encoded(crc, a) + Encoded(crc, b)
  {
    if a == [] {
      assert a + b == b;
    } else {
      EncodedConcat(crc, a[1..], b);
      assert (a + b)[1..] == a[1..] + b;
      assert Encoded(crc, a + b) == Record(crc, a[0]) + Encoded(crc, a[1..] + b);
      hide Encoded, Record;
    }
  }

  lemma EncodedSnoc(crc: Crc, a: seq<bytes>, body: bytes)
    ensures Encoded(crc, a + [body]) == Encoded(crc, a) + Record(crc, body)
  {
    EncodedConcat(crc, a, [body]);
    assert [body][1..] == [];
    assert Record(crc, body) + [] == Record(crc, body);
    assert Encoded(crc, [body]) == Record(crc, body);
  }

  /** The bodies of the records that can be read one after another from the
      front of s. */
  function Bodies(crc: Crc, s: bytes): (bodies: seq<bytes>)
    decreases |s|
  {
    var r := ReadRecord(crc, s);
    if r.Err? then [] else [r.value] + Bodies(crc, s[HEADER_LEN + |r.value|..])
  }

  /** Reading back a log followed by anything unreadable returns exactly the
      log: in particular when the tail is a torn record. */
  lemma {:induction false} BodiesOfEncoded(crc: Crc, bodies: seq<bytes>, rest: bytes)
    requires forall b <- bodies :: Readable(b)
    requires ReadRecord(crc, rest).Err?
    ensures Bodies(crc, Encoded(crc, bodies) + rest) == bodies
  {
    if bodies == [] {
      assert Encoded(crc, bodies) + rest == rest;
    } else {
      var tail := Encoded(crc, bodies[1..]) + rest;
      var s := Encoded(crc, bodies) + rest;
      assert s == Record(crc, bodies[0]) + tail;
      assert Readable(bodies[0]);
      ReadBack(crc, bodies[0], tail);
      HeaderOf(crc, bodies[0], tail);
      BodiesOfEncoded(crc, bodies[1..], rest);
    }
  }

  /** The scan accounts for every byte: what it accepts re-encodes to a prefix
      of the input, and nothing readable follows that prefix. */
  lemma {:induction false} BodiesArePrefix(crc: Crc, s: bytes)
    ensures var n := |Encoded(crc, Bodies(crc, s))|;
      n <= |s| && Encoded(crc, Bodies(crc, s)) == s[..n] && ReadRecord(crc, s[n..]).Err?
    ensures forall b <- Bodies(crc, s) :: Readable(b)
    decreases |s|
  {
    var r := ReadRecord(crc, s);
    if r.Err? {
      assert s[0..] == s;
    } else {
      var rest := s[HEADER_LEN + |r.value|..];
      ReadRecordIsRecord(crc, s);
      BodiesArePrefix(crc, rest);
      PrefixGrows(crc, s, r.value, rest, Bodies(crc, rest));
      hide ReadRecord, Record, Encoded;
    }
  }

  lemma PrefixGrows(crc: Crc, s: bytes, body: bytes, rest: bytes, bodies: seq<bytes>)
    requires s == Record(crc, body) + rest && |Encoded(crc, bodies)| <= |rest|
    requires Encoded(crc, bodies) == rest[..|Encoded(crc, bodies)|]
    ensures var n := |Encoded(crc, [body] + bodies)|;
      n <= |s| && Encoded(crc, [body] + bodies) == s[..n] && s[n..] == rest[|Encoded(crc, bodies)|..]
  {
    assert ([body] + bodies)[1..] == bodies;
    hide Record, Encoded;
  }

  /** Main result on scanning, in the shape the format promises it: records
      followed by a proper prefix of another record. */
  lemma ScanStopsAtTornTail(crc: Crc, bodies: seq<bytes>, torn: bytes, k: nat)
    requires forall b <- bodies :: Readable(b)
    requires |torn| < 0x1_0000_0000 && k < |Record(crc, torn)|
    ensures Bodies(crc, Encoded(crc, bodies) + Record(crc, torn)[..k]) == bodies
  {
    TornRecordUnreadable(crc, torn, k);
    BodiesOfEncoded(crc, bodies, Record(crc, torn)[..k]);
  }

  lemma BodiesStep(crc: Crc, s: bytes, found: seq<bytes>, rest: bytes)
    requires Bodies(crc, s) == found + Bodies(crc, rest) && ReadRecord(crc, rest).Ok?
    ensures var body := ReadRecord(crc, rest).value;
      Bodies(crc, s) == found + [body] + Bodies(crc, rest[HEADER_LEN + |body|..]) &&
      |Encoded(crc, found + [body])| == |Encoded(crc, found)| + HEADER_LEN + |body|
  {
    EncodedSnoc(crc, found, ReadRecord(crc, rest).value);
  }

  /** The loop of scanSegment: read records from `from` on until one is missing,
      torn or corrupt. */
  method ScanRecords(crc: Crc, file: bytes, from: nat) returns (off: nat, records: nat)
    ensures from > |file| ==> off == from && records == 0
    ensures from <= |file| ==>
      var bodies := Bodies(crc, file[from..]);
      off == from + |Encoded(crc, bodies)| && records == |bodies|
  {
    hide ReadRecord, Bodies, Encoded;
    off, records := from, 0;
    if from > |file| {
      return;
    }
    ghost var found := [];
    assert Encoded(crc, []) == [] by { EncodedEmpty(crc); }
    while true
      invariant from <= off <= |file| && records == |found|
      invariant Bodies(crc, file[from..]) == found + Bodies(crc, file[off..])
      invariant off == from + |Encoded(crc, found)|
      decreases |file| - off
    {
      var read := ReadRecord(crc, file[off..]);
      if read.Err? {
        BodiesEnd(crc, file[off..]);
        assert Bodies(crc, file[from..]) == found;
        return;
      }
      var n := HEADER_LEN + |read.value|;
      BodiesStep(crc, file[from..], found, file[off..]);
      assert file[off..][n..] == file[off + n..];
      found := found + [read.value];
      off := off + n;
      records := records + 1;
    }
  }

  lemma EncodedEmpty(crc: Crc)
    ensures Encoded(crc, []) == []
  {
  }

  lemma BodiesEnd(crc: Crc, s: bytes)
    requires ReadRecord(crc, s).Err?
    ensures Bodies(crc, s) == []
  {
  }

  // ----- The encoder, byte by byte ----------------------------------------

  /** The buffer while the body is written: space for the header, the fields
      written so far, zeros. */
  function Partial(done: bytes, rest: nat): bytes {
    Zeros(HEADER_LEN) + done + Zeros(rest)
  }

  /** One field of the body, written behind what is already there. */
  method Put(buf: array<byte>, off: nat, src: bytes, ghost done: bytes, ghost rest: nat)
    requires |src| <= rest && off == HEADER_LEN + |done|
    requires buf[..] == Partial(done, rest)
    modifies buf
    ensures buf[..] == Partial(done + src, rest - |src|)
  {
    ghost var front := Zeros(HEADER_LEN) + done;
    assert buf.Length == |buf[..]|;
    Copy(buf, off, src);
    OverwriteNext(front, Zeros(rest), src);
    assert Zeros(rest)[|src|..] == Zeros(rest - |src|);
    assert Zeros(HEADER_LEN) + (done + src) == front + src;
  }

  /** The retain flag: one byte, left zero when the flag is off. */
  method PutFlag(buf: array<byte>, off: nat, flag: bool, ghost done: bytes, ghost rest: nat)
    requires 0 < rest && off == HEADER_LEN + |done|
    requires buf[..] == Partial(done, rest)
    modifies buf
    ensures buf[..] == Partial(done + [if flag then 1 else 0], rest - 1)
  {
    assert buf.Length == |buf[..]|;
    assert buf[..][off] == 0;
    if flag {
      buf[off] := 1;
    }
  }

  /** Fill the body area behind the space left for the header. */
  method PutBody(buf: array<byte>, m: Message)
    requires buf[..] == Partial([], |Body(m)|)
    modifies buf
    ensures buf[..] == Partial(Body(m), 0)
  {
    var topic := StoredTopic(m.topic);
    ghost var rest := |Body(m)|;
    ghost var done := BigEndian(|topic|, 2);
    var off := HEADER_LEN;
    Put(buf, off, BigEndian(|topic|, 2), [], rest);
    assert [] + done == done;
    Put(buf, off + 2, topic, done, rest - 2);
    done, rest := done + topic, rest - 2 - |topic|;
    off := off + 2 + |topic|;
    Put(buf, off, BigEndian(Unsigned64(m.at), 8), done, rest);
    done := done + BigEndian(Unsigned64(m.at), 8);
    off := off + 8;
    PutFlag(buf, off, m.retain, done, rest - 8);
    done := done + [if m.retain then 1 else 0];
    off := off + 1;
    Put(buf, off, m.payload, done, rest - 9);
  }

  /** Encode fills one buffer by offset: first the body behind the space left
      for the header, then the header. */
  method Encode(crc: Crc, m: Message) returns (buf: array<byte>)
    ensures fresh(buf)
    ensures buf[..] == Record(crc, Body(m))
  {
    var bodyLen := 2 + |StoredTopic(m.topic)| + 8 + 1 + |m.payload|;
    buf := new byte[HEADER_LEN + bodyLen](_ => 0);
    assert buf[..] == Partial([], bodyLen);
    PutBody(buf, m);
    assert buf[..] == Zeros(HEADER_LEN) + Body(m);
    HeaderLast(Zeros(HEADER_LEN), Body(m), BigEndian(bodyLen, 4), BigEndian(crc(Body(m)), 4));
    Copy(buf, 0, BigEndian(bodyLen, 4));
    assert buf[HEADER_LEN..] == Body(m);
    Copy(buf, 4, BigEndian(crc(buf[HEADER_LEN..]), 4));
  }

  lemma HeaderLast(space: bytes, body: bytes, len: bytes, sum: bytes)
    requires |space| == HEADER_LEN && |len| == 4 && |sum| == 4
    ensures Overwrite(space + body, 0, len) == len + space[4..] + body
    ensures Overwrite(len + space[4..] + body, 4, sum) == len + sum + body
  {
  }
}
