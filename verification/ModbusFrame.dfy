/** Modbus TCP framing: the MBAP header of the MODBUS Messaging on TCP/IP
    Implementation Guide V1.0b (section 3.1.3) and the PDUs of function codes 3
    and 4 of the MODBUS Application Protocol Specification V1.1b3 (sections 6.3,
    6.4 and 7). */
module ModbusFrame {
  import opened Bytes
  import opened Messages
  import opened Buffers

  const READ_HOLDING: byte := 3
  const READ_INPUT: byte := 4
  const EXCEPTION_FLAG := 0x80
  const MAX_REGISTERS := 125
  const MAX_PDU := 253
  const MBAP_LEN := 7

  const ILLEGAL_FUNCTION: byte := 1
  const ILLEGAL_ADDRESS: byte := 2
  const ILLEGAL_VALUE: byte := 3
  const DEVICE_FAILURE: byte := 4

  datatype Error =
    | EndOfStream
    | ShortFrame
    | BadProtocolId
    | FrameTooLarge
    | UnexpectedFunction
    | ByteCount
    | Quantity
    | AddressOverflow
    | Exception(fn: byte, code: byte)

  datatype PDU = PDU(fn: byte, data: bytes)

  datatype ADU = ADU(tid: uint16, unit: byte, pdu: PDU)

  predicate Fits(a: ADU) {
    |a.pdu.data| + 1 <= MAX_PDU
  }

  /** The bytes of one frame. */
  function Frame(a: ADU): (f: bytes)
    ensures |f| == 8 + |a.pdu.data|
  {
    BigEndian(a.tid, 2) + BigEndian(0, 2) + BigEndian(2 + |a.pdu.data|, 2) + [a.unit, a.pdu.fn] + a.pdu.data
  }

  /** MarshalBinary fills a buffer field by field; null stands for the error. */
  method MarshalBinary(a: ADU) returns (buf: array?<byte>)
    ensures buf == null <==> !Fits(a)
    ensures buf != null ==> fresh(buf) && buf[..] == Frame(a)
  {
    if |a.pdu.data| + 1 > MAX_PDU {
      return null;
    }
    var n := |a.pdu.data|;
    buf := new byte[MBAP_LEN + 1 + n](_ => 0);
    assert buf[..] == Zeros(8 + n);
    Copy(buf, 0, BigEndian(a.tid, 2));
    Copy(buf, 2, BigEndian(0, 2));
    Copy(buf, 4, BigEndian(2 + n, 2));
    ghost var header := BigEndian(a.tid, 2) + BigEndian(0, 2) + BigEndian(2 + n, 2);
    HeaderWritten(n, BigEndian(a.tid, 2), BigEndian(0, 2), BigEndian(2 + n, 2));
    buf[6] := a.unit;
    buf[7] := a.pdu.fn;
    assert buf[..] == header + [a.unit, a.pdu.fn] + Zeros(n);
    Copy(buf, 8, a.pdu.data);
    OverwriteNext(header + [a.unit, a.pdu.fn], Zeros(n), a.pdu.data);
    assert Zeros(n)[n..] == [];
    assert buf[..] == Frame(a) + [];
  }

  lemma HeaderWritten(n: nat, a: bytes, b: bytes, c: bytes)
    requires |a| == |b| == |c| == 2
    ensures Overwrite(Overwrite(Overwrite(Zeros(8 + n), 0, a), 2, b), 4, c) == a + b + c + Zeros(2 + n)
    ensures Zeros(2 + n) == [0, 0] + Zeros(n)
  {
    OverwriteNext([], Zeros(8 + n), a);
    assert Zeros(8 + n)[2..] == Zeros(6 + n) && [] + Zeros(8 + n) == Zeros(8 + n) && [] + a == a;
    OverwriteNext(a, Zeros(6 + n), b);
    assert Zeros(6 + n)[2..] == Zeros(4 + n);
    OverwriteNext(a + b, Zeros(4 + n), c);
    assert Zeros(4 + n)[2..] == Zeros(2 + n);
  }

  /** ReadADU on the bytes still to be read: the frame or the error, and what is
      left unread. */
  function TakeADU(s: bytes): (r: (Result<ADU, Error>, bytes))
    ensures r.0.Ok? ==> |r.1| < |s|
  {
    if |s| < MBAP_LEN then (Err(EndOfStream), []) else
    var rest := s[MBAP_LEN..];
    if Value(s[2..4]) != 0 then (Err(BadProtocolId), rest) else
    var length := Value(s[4..6]);
    if length < 2 then (Err(ShortFrame), rest) else
    if length - 1 > MAX_PDU then (Err(FrameTooLarge), rest) else
    if |rest| < length - 1 then (Err(EndOfStream), []) else
    PowersOf256();
    (Ok(ADU(Value(s[..2]), s[6], PDU(rest[0], rest[1..length - 1]))), rest[length - 1..])
  }

  /** A connection: the bytes the peer sent that were not read yet, and the bytes
      written to it. */
  class Conn {
    var input: bytes
    var output: bytes

    constructor (input: bytes)
      ensures this.input == input && output == []
    {
      this.input, output := input, [];
    }

    /** io.ReadFull: all n bytes, or whatever is there and an error. */
    method ReadFull(n: nat) returns (ok: bool, bs: bytes)
      modifies this`input
      ensures ok == (|old(input)| >= n)
      ensures if ok then bs == old(input)[..n] && input == old(input)[n..] else bs == old(input) && input == []
    {
      if |input| < n {
        ok, bs, input := false, input, [];
      } else {
        ok, bs, input := true, input[..n], input[n..];
      }
    }

    method Write(bs: bytes)
      modifies this`output
      ensures output == old(output) + bs
    {
      output := output + bs;
    }
  }

  /** ReadADU consumes exactly one frame. */
  method ReadADU(conn: Conn) returns (r: Result<ADU, Error>)
    modifies conn`input
    ensures (r, conn.input) == TakeADU(old(conn.input))
  {
    ghost var s := conn.input;
    var ok, hdr := conn.ReadFull(MBAP_LEN);
    if !ok {
      return Err(EndOfStream);
    }
    assert hdr[2..4] == s[2..4] && hdr[4..6] == s[4..6] && hdr[..2] == s[..2];
    if Value(hdr[2..4]) != 0 {
      return Err(BadProtocolId);
    }
    var length := Value(hdr[4..6]);
    if length < 2 {
      return Err(ShortFrame);
    }
    if length - 1 > MAX_PDU {
      return Err(FrameTooLarge);
    }
    var body;
    ok, body := conn.ReadFull(length - 1);
    if !ok {
      return Err(EndOfStream);
    }
    PowersOf256();
    return Ok(ADU(Value(hdr[..2]), hdr[6], PDU(body[0], body[1..])));
  }

  // ----- Frames on a stream -------------------------------------------------------

  lemma FrameSlices(tid: bytes, proto: bytes, len: bytes, unit: byte, fn: byte, data: bytes, rest: bytes)
    requires |tid| == |proto| == |len| == 2
    ensures var s := tid + proto + len + [unit, fn] + data + rest;
      s[..2] == tid && s[2..4] == proto && s[4..6] == len && s[6] == unit &&
      s[7..] == [fn] + data + rest
  {
  }

  /** A frame is read back whatever follows it, and nothing more is consumed. */
  lemma TakeFrame(a: ADU, rest: bytes)
    requires Fits(a)
    ensures TakeADU(Frame(a) + rest) == (Ok(a), rest)
  {
    hide BigEndian, Value, Pow256;
    var data := a.pdu.data;
    FrameSlices(BigEndian(a.tid, 2), BigEndian(0, 2), BigEndian(2 + |data|, 2), a.unit, a.pdu.fn, data, rest);
    ValueOf16(a.tid);
    ValueOf16(0);
    ValueOf16(2 + |data|);
    var body := [a.pdu.fn] + data + rest;
    assert body[1..1 + |data|] == data && body[1 + |data|..] == rest;
  }

  /** Every accepted frame re-marshals to exactly the bytes consumed. */
  lemma TakenIsFrame(s: bytes)
    requires TakeADU(s).0.Ok?
    ensures Fits(TakeADU(s).0.value) && s == Frame(TakeADU(s).0.value) + TakeADU(s).1
  {
    hide BigEndian, Value, Pow256;
    var (r, rest) := TakeADU(s);
    var a := r.value;
    BigEndianOfValue(s[..2]);
    BigEndianOfValue(s[2..4]);
    BigEndianOfValue(s[4..6]);
    assert s == s[..2] + s[2..4] + s[4..6] + [s[6]] + s[7..];
    assert s[7..] == [a.pdu.fn] + a.pdu.data + rest;
    assert [s[6]] + ([a.pdu.fn] + a.pdu.data + rest) == [a.unit, a.pdu.fn] + a.pdu.data + rest;
  }

  function Frames(adus: seq<ADU>): bytes {
    if adus == [] then [] else Frame(adus[0]) + Frames(adus[1..])
  }

  /** Reading frames until the first error. */
  function TakeAll(s: bytes): (r: (seq<ADU>, bytes))
    decreases |s|
  {
    var (a, rest) := TakeADU(s);
    if a.Err? then ([], s) else
    var (more, left) := TakeAll(rest);
    ([a.value] + more, left)
  }

  lemma TakeAllStep(s: bytes)
    requires TakeADU(s).0.Ok?
    ensures var (a, rest) := TakeADU(s); TakeAll(s) == ([a.value] + TakeAll(rest).0, TakeAll(rest).1)
  {
  }

  /** Framing is exact: concatenated frames are read back in order with nothing
      left over. */
  lemma {:induction false} TakeAllFrames(adus: seq<ADU>)
    requires forall a <- adus :: Fits(a)
    ensures TakeAll(Frames(adus)) == (adus, [])
  {
    if adus != [] {
      var s := Frame(adus[0]) + Frames(adus[1..]);
      TakeFrame(adus[0], Frames(adus[1..]));
      TakeAllFrames(adus[1..]);
      TakeAllStep(s);
      hide TakeADU, Frame, Fits, TakeAll;
      assert adus == [adus[0]] + adus[1..];
    } else {
      assert TakeADU([]).0.Err?;
    }
  }

  /** And the other way round: the frames read, re-marshalled, followed by what
      is left, are the stream. */
  lemma {:induction false} TakeAllIsStream(s: bytes)
    ensures var (adus, left) := TakeAll(s);
      s == Frames(adus) + left && (forall a <- adus :: Fits(a)) && TakeADU(left).0.Err?
    decreases |s|
  {
    var (a, rest) := TakeADU(s);
    if a.Ok? {
      TakenIsFrame(s);
      TakeAllIsStream(rest);
      TakeAllStep(s);
      var (more, left) := TakeAll(rest);
      FramesCons(a.value, more, left);
      hide TakeADU, Frame, Frames, TakeAll;
    }
  }

  lemma FramesCons(a: ADU, more: seq<ADU>, left: bytes)
    ensures Frame(a) + (Frames(more) + left) == Frames([a] + more) + left
  {
    hide Frame;
    assert ([a] + more)[1..] == more;
    assert Frame(a) + (Frames(more) + left) == Frame(a) + Frames(more) + left;
  }

  // ----- Requests and responses -----------------------------------------------------

  /** ReadRegistersRequest */
  function Request(fn: byte, addr: uint16, qty: uint16): Result<PDU, Error> {
    if fn != READ_HOLDING && fn != READ_INPUT then Err(Exception(fn, ILLEGAL_FUNCTION))
    else if qty == 0 || qty > MAX_REGISTERS then Err(Quantity)
    else if addr + qty > 0x1_0000 then Err(AddressOverflow)
    else Ok(PDU(fn, BigEndian(addr, 2) + BigEndian(qty, 2)))
  }

  /** ParseReadRegistersRequest */
  function ParseRequest(p: PDU): (r: Result<(uint16, uint16), Error>)
    ensures r.Ok? ==> 1 <= r.value.1 <= MAX_REGISTERS && r.value.0 + r.value.1 <= 0x1_0000
  {
    if |p.data| != 4 then Err(ShortFrame) else
    PowersOf256();
    var addr, qty := Value(p.data[..2]), Value(p.data[2..4]);
    if qty == 0 || qty > MAX_REGISTERS then Err(Quantity)
    else if addr + qty > 0x1_0000 then Err(AddressOverflow)
    else Ok((addr, qty))
  }

  lemma ParseRequestBuilt(fn: byte, addr: uint16, qty: uint16)
    requires Request(fn, addr, qty).Ok?
    ensures ParseRequest(Request(fn, addr, qty).value) == Ok((addr, qty))
  {
    var d := BigEndian(addr, 2) + BigEndian(qty, 2);
    assert d[..2] == BigEndian(addr, 2) && d[2..4] == BigEndian(qty, 2);
    ValueOf16(addr);
    ValueOf16(qty);
  }

  function RegisterBytes(regs: seq<uint16>): (bs: bytes)
    ensures |bs| == 2 * |regs|
  {
    if regs == [] then [] else RegisterBytes(regs[..|regs| - 1]) + BigEndian(regs[|regs| - 1], 2)
  }

  function RegistersOf(bs: bytes): (regs: seq<uint16>)
    requires |bs| % 2 == 0
    ensures |regs| == |bs| / 2
  {
    if bs == [] then [] else
    PowersOf256();
    RegistersOf(bs[..|bs| - 2]) + [Value(bs[|bs| - 2..])]
  }

  lemma RegistersStep(bs: bytes, two: bytes)
    requires |bs| % 2 == 0 && |two| == 2
    ensures Value(two) < 0x1_0000
    ensures RegistersOf(bs + two) == RegistersOf(bs) + [Value(two)]
  {
    PowersOf256();
    var d := bs + two;
    assert d[..|d| - 2] == bs && d[|d| - 2..] == two;
  }

  lemma {:induction false} RegistersBack(regs: seq<uint16>)
    ensures RegistersOf(RegisterBytes(regs)) == regs
  {
    if regs != [] {
      var init, last := regs[..|regs| - 1], regs[|regs| - 1];
      var bs := RegisterBytes(regs);
      RegistersBack(init);
      ValueOf16(last);
      assert bs[..|bs| - 2] == RegisterBytes(init) && bs[|bs| - 2..] == BigEndian(last, 2);
      assert regs == init + [last];
    }
  }

  /** ReadRegistersResponse; the count byte wraps above 127 registers. */
  function Response(fn: byte, regs: seq<uint16>): PDU {
    PDU(fn, [2 * |regs| % 256] + RegisterBytes(regs))
  }

  function ExceptionResponse(fn: byte, code: byte): PDU {
    PDU(if fn >= EXCEPTION_FLAG then fn else fn + EXCEPTION_FLAG, [code])
  }

  /** ParseReadRegistersResponse */
  function ParseResponse(p: PDU, wantFn: byte, wantQty: uint16): Result<seq<uint16>, Error> {
    if p.fn == ExceptionResponse(wantFn, 0).fn then
      Err(Exception(wantFn, if |p.data| >= 1 then p.data[0] else DEVICE_FAILURE))
    else if p.fn != wantFn then Err(UnexpectedFunction)
    else if |p.data| < 1 then Err(ShortFrame)
    else if p.data[0] != 2 * wantQty || |p.data| - 1 != p.data[0] then Err(ByteCount)
    else Ok(RegistersOf(p.data[1..]))
  }

  /** The loop that writes the registers of a response. */
  method BuildResponse(fn: byte, regs: seq<uint16>) returns (p: PDU)
    ensures p == Response(fn, regs)
  {
    var data := new byte[1 + 2 * |regs|](_ => 0);
    data[0] := 2 * |regs| % 256;
    assert data[..1] == [2 * |regs| % 256];
    for i := 0 to |regs|
      invariant data[..1 + 2 * i] == [2 * |regs| % 256] + RegisterBytes(regs[..i])
    {
      ghost var was := data[..];
      Copy(data, 1 + 2 * i, BigEndian(regs[i], 2));
      assert regs[..i + 1][..i] == regs[..i];
      assert data[..1 + 2 * (i + 1)] == was[..1 + 2 * i] + BigEndian(regs[i], 2);
    }
    assert regs[..|regs|] == regs;
    return PDU(fn, data[..]);
  }

  /** The i-th register of a response, behind the byte count. */
  function RegisterAt(data: bytes, i: nat): uint16
    requires 3 + 2 * i <= |data|
  {
    assert Value(data[1 + 2 * i..3 + 2 * i]) < 0x1_0000 by { NextRegister(data, i); }
    Value(data[1 + 2 * i..3 + 2 * i])
  }

  /** The first n of them. */
  ghost function FirstRegisters(data: bytes, n: nat): seq<uint16>
    requires 1 + 2 * n <= |data|
  {
    RegistersOf(data[1..1 + 2 * n])
  }

  lemma NextRegister(data: bytes, i: nat)
    requires 3 + 2 * i <= |data|
    ensures var two := data[1 + 2 * i..3 + 2 * i];
      Value(two) < 0x1_0000 && RegistersOf(data[1..1 + 2 * (i + 1)]) == RegistersOf(data[1..1 + 2 * i]) + [Value(two)]
  {
    var two := data[1 + 2 * i..3 + 2 * i];
    RegistersStep(data[1..1 + 2 * i], two);
    assert data[1..1 + 2 * (i + 1)] == data[1..1 + 2 * i] + two;
  }

  lemma FirstRegistersGrow(data: bytes, n: nat)
    requires 3 + 2 * n <= |data|
    ensures FirstRegisters(data, n + 1) == FirstRegisters(data, n) + [RegisterAt(data, n)]
  {
    NextRegister(data, n);
    hide RegistersOf, Value;
  }

  lemma FirstRegistersEnds(data: bytes, n: nat)
    requires |data| == 1 + 2 * n
    ensures FirstRegisters(data, 0) == [] && FirstRegisters(data, n) == RegistersOf(data[1..])
  {
    assert data[1..1] == [] && data[1..1 + 2 * n] == data[1..];
  }

  /** The loop that reads the registers of a response. */
  method ReadRegisters(data: bytes, n: nat) returns (regs: array<uint16>)
    requires |data| == 1 + 2 * n
    ensures fresh(regs) && regs[..] == RegistersOf(data[1..])
  {
    regs := new uint16[n](_ => 0);
    FirstRegistersEnds(data, n);
    hide RegistersOf, RegisterAt, FirstRegisters;
    for i := 0 to n
      invariant regs[..i] == FirstRegisters(data, i)
    {
      FirstRegistersGrow(data, i);
      regs[i] := RegisterAt(data, i);
      assert regs[..i + 1] == regs[..i] + [regs[i]];
    }
    assert regs[..n] == regs[..];
  }

  /** The answer to a request for |regs| registers parses back to them. */
  lemma ParseResponseBuilt(fn: byte, regs: seq<uint16>)
    requires fn < EXCEPTION_FLAG && 1 <= |regs| <= MAX_REGISTERS
    ensures ParseResponse(Response(fn, regs), fn, |regs|) == Ok(regs)
  {
    RegistersBack(regs);
    hide RegistersOf, RegisterBytes;
    assert Response(fn, regs).data[1..] == RegisterBytes(regs);
  }
}
