/** The Modbus client: one transaction at a time over a connection that may
    still hold responses to earlier, timed-out requests. */
module ModbusClient {
  import opened Bytes
  import opened Messages
  import opened ModbusFrame
  import opened ModbusServer

  /** The first frame on the stream with the wanted transaction id, skipping the
      others, and what is left behind it. */
  function FirstMatch(s: bytes, tid: uint16): (r: (Result<PDU, Error>, bytes))
    decreases |s|
  {
    var (a, rest) := TakeADU(s);
    if a.Err? then (Err(a.error), rest)
    else if a.value.tid == tid then (Ok(a.value.pdu), rest)
    else FirstMatch(rest, tid)
  }

  /** Any number of stale frames is skipped. */
  lemma {:induction false} SkipsStale(stale: seq<ADU>, tid: uint16, s: bytes)
    requires forall a <- stale :: Fits(a) && a.tid != tid
    ensures FirstMatch(Frames(stale) + s, tid) == FirstMatch(s, tid)
  {
    if stale == [] {
      assert Frames([]) + s == s;
    } else {
      hide TakeADU, Frame, Fits;
      var rest := Frames(stale[1..]) + s;
      assert stale[0] in stale && forall a <- stale[1..] :: a in stale;
      assert Frames(stale) + s == Frame(stale[0]) + rest;
      TakeFrame(stale[0], rest);
      SkipsStale(stale[1..], tid, s);
    }
  }

  /** What a caller of readRegisters is told for a bank's reply. */
  function Expected(reply: BankReply, fn: byte, qty: uint16): Result<seq<uint16>, Error> {
    match reply
    case Registers(regs) => if |regs| == qty then Ok(regs) else Err(Exception(fn, DEVICE_FAILURE))
    case Refused(code) => Err(Exception(fn, code))
    case Failed => Err(Exception(fn, DEVICE_FAILURE))
  }

  /** One request on the wire gets one answer on the wire. */
  lemma OneAnswer(bank: Bank, req: ADU)
    requires Fits(req)
    ensures Answers(bank, Frame(req)) == Frame(Answer(bank, req))
  {
    TakeFrame(req, []);
    assert Frame(req) + [] == Frame(req);
    assert Answers(bank, []) == [] by { assert TakeADU([]).0.Err?; }
    assert Frame(Answer(bank, req)) + [] == Frame(Answer(bank, req));
  }

  /** A parsed answer is the bank's reply. */
  lemma AnswerParses(bank: Bank, unit: byte, fn: byte, addr: uint16, qty: uint16)
    requires Request(fn, addr, qty).Ok?
    ensures ParseResponse(Dispatch(bank, unit, Request(fn, addr, qty).value), fn, qty) ==
      Expected(bank(fn, unit, addr, qty), fn, qty)
  {
    hide RegistersOf, RegisterBytes, Value, BigEndian;
    ParseRequestBuilt(fn, addr, qty);
    var reply := bank(fn, unit, addr, qty);
    if reply.Registers? && |reply.regs| == qty {
      ParseResponseBuilt(fn, reply.regs);
    }
  }

  /** A range written into a table reads back exactly, through request, dispatch
      and response, whichever table it is. */
  lemma ReadsWhatWasWritten(before: seq<uint16>, after: seq<uint16>, other: seq<uint16>, addr: uint16,
      regs: seq<uint16>, unit: byte, fn: byte)
    requires fn == READ_HOLDING || fn == READ_INPUT
    requires 1 <= |regs| <= MAX_REGISTERS && addr + |regs| <= |before| == |after| && addr + |regs| <= 0x1_0000
    requires forall i :: 0 <= i < |after| ==>
      after[i] == if addr <= i < addr + |regs| then regs[i - addr] else before[i]
    ensures Request(fn, addr, |regs|).Ok?
    ensures var bank := if fn == READ_HOLDING then MemoryReply(after, other) else MemoryReply(other, after);
      ParseResponse(Dispatch(bank, unit, Request(fn, addr, |regs|).value), fn, |regs|) == Ok(regs)
  {
    hide Dispatch, ParseResponse, BigEndian;
    var bank := if fn == READ_HOLDING then MemoryReply(after, other) else MemoryReply(other, after);
    var qty: uint16 := |regs|;
    assert bank(fn, unit, addr, qty) == Slice(after, addr, qty);
    AnswerParses(bank, unit, fn, addr, qty);
    assert after[addr..addr + qty] == regs;
  }

  /** The whole exchange: after any number of stale responses, the server's bytes
      for the request give the caller exactly the bank's reply, and later bytes
      stay unread. */
  lemma Exchange(bank: Bank, tid: uint16, unit: byte, fn: byte, addr: uint16, qty: uint16, stale: seq<ADU>,
      later: bytes)
    requires Request(fn, addr, qty).Ok?
    requires forall a <- stale :: Fits(a) && a.tid != tid
    ensures var req := ADU(tid, unit, Request(fn, addr, qty).value);
      var (r, left) := FirstMatch(Frames(stale) + (Answers(bank, Frame(req)) + later), tid);
      r.Ok? && left == later && ParseResponse(r.value, fn, qty) == Expected(bank(fn, unit, addr, qty), fn, qty)
  {
    var req := ADU(tid, unit, Request(fn, addr, qty).value);
    OneAnswer(bank, req);
    SkipsStale(stale, tid, Answers(bank, Frame(req)) + later);
    AnswerFits(bank, req);
    TakeFrame(Answer(bank, req), later);
    AnswerParses(bank, unit, fn, addr, qty);
    hide TakeADU, Frame, Frames, Answers, Dispatch, ParseResponse, Expected, Fits;
  }

  class Client {
    const conn: Conn
    var tid: uint16

    constructor (conn: Conn)
      ensures this.conn == conn && tid == 0
    {
      this.conn, tid := conn, 0;
    }

    /** transact: send one request and read until a response carries its id.
        `incoming` is what the peer sends in the meantime. */
    method Transact(unit: byte, req: PDU, incoming: bytes) returns (r: Result<PDU, Error>)
      modifies this`tid, conn
      ensures tid == (old(tid) + 1) % 0x1_0000
      ensures !Fits(ADU(tid, unit, req)) ==>
        r == Err(FrameTooLarge) && conn.output == old(conn.output) && conn.input == old(conn.input)
      ensures Fits(ADU(tid, unit, req)) ==>
        conn.output == old(conn.output) + Frame(ADU(tid, unit, req)) &&
        (r, conn.input) == FirstMatch(old(conn.input) + incoming, tid)
    {
      hide TakeADU, Frame;
      tid := (tid + 1) % 0x1_0000;
      var adu := ADU(tid, unit, req);
      var frame := MarshalBinary(adu);
      if frame == null {
        return Err(FrameTooLarge);
      }
      conn.Write(frame[..]);
      conn.input := conn.input + incoming;
      ghost var s := conn.input;
      while true
        invariant FirstMatch(s, tid) == FirstMatch(conn.input, tid)
        invariant conn.output == old(conn.output) + Frame(adu) && tid == (old(tid) + 1) % 0x1_0000
        decreases |conn.input|
      {
        var resp := ReadADU(conn);
        if resp.Err? {
          return Err(resp.error);
        }
        if resp.value.tid == tid {
          return Ok(resp.value.pdu);
        }
      }
    }

    /** readRegisters: validate, transact, parse. A refused request is never
        sent. */
    method ReadRegisters(fn: byte, unit: byte, addr: uint16, qty: uint16, incoming: bytes)
      returns (r: Result<seq<uint16>, Error>)
      modifies this`tid, conn
      ensures var req := Request(fn, addr, qty);
        if req.Err? then r == Err(req.error) && tid == old(tid) && conn.output == old(conn.output) &&
          conn.input == old(conn.input)
        else
          tid == (old(tid) + 1) % 0x1_0000 &&
          conn.output == old(conn.output) + Frame(ADU(tid, unit, req.value)) &&
          var (pdu, left) := FirstMatch(old(conn.input) + incoming, tid);
          conn.input == left && r == if pdu.Ok? then ParseResponse(pdu.value, fn, qty) else Err(pdu.error)
    {
      hide Frame, FirstMatch, ParseResponse;
      var req := Request(fn, addr, qty);
      if req.Err? {
        return Err(req.error);
      }
      var resp := Transact(unit, req.value, incoming);
      if resp.Err? {
        return Err(resp.error);
      }
      return ParseResponse(resp.value, fn, qty);
    }
  }
}
