/** The wire format, byte by byte: what frames, requests, responses and whole
    exchanges with a register bank look like as numbers from 0 to 255. */
module ModbusWire {
  import opened Bytes
  import opened Messages
  import opened ModbusFrame
  import opened ModbusServer
  import opened ModbusClient

  /** A high and a low byte as a number. */
  function Two(hi: byte, lo: byte): uint16 {
    256 * hi + lo
  }

  /** The first eight bytes of a frame: the transaction id, two zeros, the number
      n of bytes behind the length field, the unit and the function code. */
  function Header(tid: uint16, n: nat, unit: byte, fn: byte): (h: bytes)
    requires n < 65536
    ensures |h| == 8
  {
    [tid / 256, tid % 256, 0, 0, n / 256, n % 256, unit, fn]
  }

  lemma SplitWord(n: uint16)
    ensures Two(n / 256, n % 256) == n && (n < 256 ==> Two(0, n) == n)
  {
  }

  /** From position `at` on, each register's high and low byte. */
  ghost predicate Carries(out: bytes, at: nat, regs: seq<uint16>) {
    |out| == at + 2 * |regs| &&
    forall i :: 0 <= i < |regs| ==> out[at + 2 * i] == regs[i] / 256 && out[at + 2 * i + 1] == regs[i] % 256
  }

  // ----- Frames -----------------------------------------------------------------

  lemma FrameBytes(a: ADU)
    requires Fits(a)
    ensures Frame(a) == Header(a.tid, 2 + |a.pdu.data|, a.unit, a.pdu.fn) + a.pdu.data
  {
    var n := 2 + |a.pdu.data|;
    TwoBytes(a.tid);
    TwoBytes(0);
    TwoBytes(n);
    hide BigEndian;
    assert [a.tid / 256, a.tid % 256] + [0, 0] + [n / 256, n % 256] + [a.unit, a.pdu.fn] ==
           Header(a.tid, n, a.unit, a.pdu.fn);
  }

  /** Reading one frame: how far it gets, with which error, and what it leaves. */
  lemma TakeADUMeaning(s: bytes)
    ensures
      if |s| < 7 then TakeADU(s) == (Err(EndOfStream), [])
      else if s[2] != 0 || s[3] != 0 then TakeADU(s) == (Err(BadProtocolId), s[7..])
      else
        var n := Two(s[4], s[5]);
        if n < 2 then TakeADU(s) == (Err(ShortFrame), s[7..])
        else if n > 254 then TakeADU(s) == (Err(FrameTooLarge), s[7..])
        else if |s| < 6 + n then TakeADU(s) == (Err(EndOfStream), [])
        else TakeADU(s) == (Ok(ADU(Two(s[0], s[1]), s[6], PDU(s[7], s[8..6 + n]))), s[6 + n..])
  {
    if |s| >= 7 {
      PairAt(s, 0);
      PairAt(s, 2);
      PairAt(s, 4);
      var n := Two(s[4], s[5]);
      hide Value;
      assert s[..2] == s[0..2];
      if 2 <= n <= 254 && |s| >= 6 + n {
        TailSlices(s, n);
      }
    }
  }

  lemma TailSlices(s: bytes, n: nat)
    requires n >= 2 && |s| >= 6 + n
    ensures s[7..][0] == s[7] && s[7..][1..n - 1] == s[8..6 + n] && s[7..][n - 1..] == s[6 + n..]
  {
    var a, b := s[7..][1..n - 1], s[8..6 + n];
    assert |a| == |b| && forall i :: 0 <= i < |a| ==> a[i] == b[i];
    var c, d := s[7..][n - 1..], s[6 + n..];
    assert |c| == |d| && forall i :: 0 <= i < |c| ==> c[i] == d[i];
  }

  lemma PairAt(s: bytes, i: nat)
    requires i + 2 <= |s|
    ensures Value(s[i..i + 2]) == Two(s[i], s[i + 1])
  {
    ValueOfTwo(s[i], s[i + 1]);
    assert s[i..i + 2] == [s[i], s[i + 1]];
  }

  // ----- Requests and responses ---------------------------------------------------

  /** A request for qty registers from addr: which ones are refused, and the five
      bytes of the others. */
  lemma RequestBytes(fn: byte, addr: uint16, qty: uint16)
    ensures Request(fn, addr, qty) ==
      if fn != 3 && fn != 4 then Err(Exception(fn, 1))
      else if qty < 1 || qty > 125 then Err(Quantity)
      else if addr + qty > 65536 then Err(AddressOverflow)
      else Ok(PDU(fn, [addr / 256, addr % 256, qty / 256, qty % 256]))
  {
    TwoBytes(addr);
    TwoBytes(qty);
    hide BigEndian;
    assert [addr / 256, addr % 256] + [qty / 256, qty % 256] == [addr / 256, addr % 256, qty / 256, qty % 256];
  }

  /** What the client puts on the wire for it. */
  lemma RequestOnWire(tid: uint16, unit: byte, fn: byte, addr: uint16, qty: uint16)
    requires fn == 3 || fn == 4
    requires 1 <= qty <= 125 && addr + qty <= 65536
    ensures Request(fn, addr, qty).Ok?
    ensures Frame(ADU(tid, unit, Request(fn, addr, qty).value)) ==
      Header(tid, 6, unit, fn) + [addr / 256, addr % 256, 0, qty]
  {
    RequestBytes(fn, addr, qty);
    FrameBytes(ADU(tid, unit, Request(fn, addr, qty).value));
    hide Frame, Request, Header;
  }

  lemma ParseRequestBytes(p: PDU)
    ensures ParseRequest(p) ==
      if |p.data| != 4 then Err(ShortFrame)
      else
        var addr, qty := Two(p.data[0], p.data[1]), Two(p.data[2], p.data[3]);
        if qty < 1 || qty > 125 then Err(Quantity)
        else if addr + qty > 65536 then Err(AddressOverflow)
        else Ok((addr, qty))
  {
    if |p.data| == 4 {
      PairAt(p.data, 0);
      PairAt(p.data, 2);
      hide Value;
      assert p.data[..2] == p.data[0..2];
    }
  }

  lemma {:induction false} RegisterBytesAt(regs: seq<uint16>, i: nat)
    requires i < |regs|
    ensures RegisterBytes(regs)[2 * i] == regs[i] / 256 && RegisterBytes(regs)[2 * i + 1] == regs[i] % 256
  {
    var init, last := regs[..|regs| - 1], regs[|regs| - 1];
    TwoBytes(last);
    hide BigEndian;
    if i < |init| {
      RegisterBytesAt(init, i);
    }
  }

  /** A response: the byte count, then each register's high and low byte. */
  lemma ResponseBytes(fn: byte, regs: seq<uint16>)
    requires |regs| <= 125
    ensures var p := Response(fn, regs); p.fn == fn && Carries(p.data, 1, regs) && p.data[0] == 2 * |regs|
  {
    var p := Response(fn, regs);
    forall i | 0 <= i < |regs| ensures p.data[1 + 2 * i] == regs[i] / 256 && p.data[1 + 2 * i + 1] == regs[i] % 256 {
      RegisterBytesAt(regs, i);
    }
  }

  lemma {:induction false} RegistersOfAt(bs: bytes, i: nat)
    requires |bs| % 2 == 0 && 2 * i < |bs|
    ensures RegistersOf(bs)[i] == Two(bs[2 * i], bs[2 * i + 1])
    decreases |bs|
  {
    var init := bs[..|bs| - 2];
    if 2 * i < |init| {
      RegistersOfAt(init, i);
    } else {
      PairAt(bs, 2 * i);
      assert bs[|bs| - 2..] == bs[2 * i..2 * i + 2];
    }
  }

  /** Reading a response to a request for qty registers with function code fn. */
  lemma ParseResponseBytes(p: PDU, fn: byte, qty: uint16)
    ensures var r := ParseResponse(p, fn, qty);
      if p.fn == (if fn < 128 then fn + 128 else fn) then
        r == Err(Exception(fn, if p.data == [] then 4 else p.data[0]))
      else if p.fn != fn then r == Err(UnexpectedFunction)
      else if p.data == [] then r == Err(ShortFrame)
      else if p.data[0] != 2 * qty || |p.data| != 1 + 2 * qty then r == Err(ByteCount)
      else
        r.Ok? && |r.value| == qty &&
        forall i :: 0 <= i < qty ==> r.value[i] == Two(p.data[1 + 2 * i], p.data[2 + 2 * i])
  {
    var r := ParseResponse(p, fn, qty);
    if r.Ok? {
      forall i | 0 <= i < qty ensures r.value[i] == Two(p.data[1 + 2 * i], p.data[2 + 2 * i]) {
        RegistersOfAt(p.data[1..], i);
      }
    }
  }

  // ----- A register bank on the wire --------------------------------------------------

  /** The bytes of a frame, and those of the answer to it. */
  lemma WireAnswer(bank: Bank, req: ADU)
    requires Fits(req)
    ensures var d := Dispatch(bank, req.unit, req.pdu);
      |d.data| <= 252 &&
      Answers(bank, Header(req.tid, 2 + |req.pdu.data|, req.unit, req.pdu.fn) + req.pdu.data) ==
      Header(req.tid, 2 + |d.data|, req.unit, d.fn) + d.data
  {
    FrameBytes(req);
    OneAnswer(bank, req);
    AnswerFits(bank, req);
    FrameBytes(Answer(bank, req));
    hide Frame, Dispatch, Header, Answers;
  }

  /** What a register bank answers a request for qty registers from addr with: the
      registers, of the holding table for function code 3 and of the input table
      for 4, or exception 3 for a quantity or range the protocol forbids, or
      exception 2 for registers the table does not have. */
  lemma WireRead(
      holding: seq<uint16>, input: seq<uint16>, tid: uint16, unit: byte, fn: byte, addr: uint16, qty: uint16)
    returns (data: bytes)
    requires fn == 3 || fn == 4
    ensures |data| <= 252
    ensures
      var permitted := 1 <= qty <= 125 && addr + qty <= 65536;
      var table := if fn == 3 then holding else input;
      var found := permitted && addr + qty <= |table|;
      Answers(MemoryReply(holding, input),
              Header(tid, 6, unit, fn) + [addr / 256, addr % 256, qty / 256, qty % 256]) ==
      Header(tid, 2 + |data|, unit, if found then fn else fn + 128) + data &&
      if !permitted then data == [3]
      else if !found then data == [2]
      else Carries(data, 1, table[addr..addr + qty]) && data[0] == 2 * qty
  {
    var bank := MemoryReply(holding, input);
    var p := PDU(fn, [addr / 256, addr % 256, qty / 256, qty % 256]);
    hide *;
    RequestRead(holding, input, unit, fn, addr, qty);
    FitsPDU(ADU(tid, unit, p));
    WireAnswer(bank, ADU(tid, unit, p));
    data := Dispatch(bank, unit, p).data;
  }

  lemma FitsPDU(a: ADU)
    requires |a.pdu.data| <= 252
    ensures Fits(a)
  {
  }

  /** The answer to a read request, as a function code and data. */
  lemma RequestRead(
      holding: seq<uint16>, input: seq<uint16>, unit: byte, fn: byte, addr: uint16, qty: uint16)
    requires fn == 3 || fn == 4
    ensures
      var permitted := 1 <= qty <= 125 && addr + qty <= 65536;
      var table := if fn == 3 then holding else input;
      var found := permitted && addr + qty <= |table|;
      var p := PDU(fn, [addr / 256, addr % 256, qty / 256, qty % 256]);
      var d := Dispatch(MemoryReply(holding, input), unit, p);
      d.fn == (if found then fn else fn + 128) &&
      if !permitted then d.data == [3]
      else if !found then d.data == [2]
      else Carries(d.data, 1, table[addr..addr + qty]) && d.data[0] == 2 * qty
  {
    var table := if fn == 3 then holding else input;
    ParseRequestBytes(PDU(fn, [addr / 256, addr % 256, qty / 256, qty % 256]));
    SplitWord(addr);
    SplitWord(qty);
    assert MemoryReply(holding, input)(fn, unit, addr, qty) == Slice(table, addr, qty);
    if 1 <= qty <= 125 && addr + qty <= |table| {
      ResponseBytes(fn, table[addr..addr + qty]);
    }
    hide ParseRequest, Response, MemoryReply, Two;
  }

  /** Any other function code is answered with exception 1, and a read request of
      another length with exception 3; the high bit of the function code marks
      both. */
  lemma WireRefused(bank: Bank, tid: uint16, unit: byte, fn: byte, data: bytes)
    requires |data| <= 252 && ((fn != 3 && fn != 4) || |data| != 4)
    ensures Answers(bank, Header(tid, 2 + |data|, unit, fn) + data) ==
      Header(tid, 3, unit, if fn < 128 then fn + 128 else fn) + [if fn != 3 && fn != 4 then 1 else 3]
  {
    var p := PDU(fn, data);
    WireAnswer(bank, ADU(tid, unit, p));
    DispatchRefused(bank, unit, p);
    hide Answers, Dispatch, Header;
  }

  lemma DispatchRefused(bank: Bank, unit: byte, p: PDU)
    requires (p.fn != 3 && p.fn != 4) || |p.data| != 4
    ensures Dispatch(bank, unit, p) ==
      PDU(if p.fn < 128 then p.fn + 128 else p.fn, [if p.fn != 3 && p.fn != 4 then 1 else 3])
  {
    ParseRequestBytes(p);
    hide ParseRequest;
  }

  /** A bank that refuses passes its code on; one that fails or returns another
      number of registers is reported as a device failure, code 4. */
  lemma WireException(bank: Bank, tid: uint16, unit: byte, fn: byte, addr: uint16, qty: uint16)
    requires (fn == 3 || fn == 4) && 1 <= qty <= 125 && addr + qty <= 65536
    ensures
      var reply := bank(fn, unit, addr, qty);
      var out := Answers(bank, Header(tid, 6, unit, fn) + [addr / 256, addr % 256, 0, qty]);
      (reply.Refused? ==> out == Header(tid, 3, unit, fn + 128) + [reply.code]) &&
      (reply.Failed? || (reply.Registers? && |reply.regs| != qty) ==> out == Header(tid, 3, unit, fn + 128) + [4])
  {
    var p := PDU(fn, [addr / 256, addr % 256, 0, qty]);
    WireAnswer(bank, ADU(tid, unit, p));
    DispatchFailed(bank, unit, fn, addr, qty);
    hide Answers, Header, Dispatch;
  }

  lemma DispatchFailed(bank: Bank, unit: byte, fn: byte, addr: uint16, qty: uint16)
    requires (fn == 3 || fn == 4) && 1 <= qty <= 125 && addr + qty <= 65536
    ensures
      var reply := bank(fn, unit, addr, qty);
      var d := Dispatch(bank, unit, PDU(fn, [addr / 256, addr % 256, 0, qty]));
      (reply.Refused? ==> d == PDU(fn + 128, [reply.code])) &&
      (reply.Failed? || (reply.Registers? && |reply.regs| != qty) ==> d == PDU(fn + 128, [4]))
  {
    ParseRequestBytes(PDU(fn, [addr / 256, addr % 256, 0, qty]));
    SplitWord(addr);
    SplitWord(qty);
    hide ParseRequest, Two, Response;
  }
}
