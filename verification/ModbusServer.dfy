/** The Modbus server: one response per request, from a register bank. */
module ModbusServer {
  import opened Bytes
  import opened Messages
  import opened ModbusFrame

  /** A bank answers with registers, with a protocol exception, or fails. */
  datatype BankReply = Registers(regs: seq<uint16>) | Refused(code: byte) | Failed

  /** Function code, unit, address and quantity to reply. */
  type Bank = (byte, byte, uint16, uint16) -> BankReply

  /** dispatch */
  function Dispatch(bank: Bank, unit: byte, req: PDU): PDU {
    if req.fn != READ_HOLDING && req.fn != READ_INPUT then ExceptionResponse(req.fn, ILLEGAL_FUNCTION) else
    var parsed := ParseRequest(req);
    if parsed.Err? then ExceptionResponse(req.fn, ILLEGAL_VALUE) else
    match bank(req.fn, unit, parsed.value.0, parsed.value.1)
    case Refused(code) => ExceptionResponse(req.fn, code)
    case Failed => ExceptionResponse(req.fn, DEVICE_FAILURE)
    case Registers(regs) =>
      if |regs| != parsed.value.1 then ExceptionResponse(req.fn, DEVICE_FAILURE) else Response(req.fn, regs)
  }

  function Answer(bank: Bank, req: ADU): ADU {
    ADU(req.tid, req.unit, Dispatch(bank, req.unit, req.pdu))
  }

  /** Every answer fits a frame, so the handler never gives up on one. */
  lemma AnswerFits(bank: Bank, req: ADU)
    ensures Fits(Answer(bank, req))
  {
  }

  /** What the handler writes for the bytes s it can read. */
  function Answers(bank: Bank, s: bytes): bytes
    decreases |s|
  {
    var (req, rest) := TakeADU(s);
    if req.Err? then [] else Frame(Answer(bank, req.value)) + Answers(bank, rest)
  }

  /** handle: serve one connection until its input ends or breaks. */
  method Handle(bank: Bank, conn: Conn)
    modifies conn
    ensures conn.output == old(conn.output) + Answers(bank, old(conn.input))
  {
    hide TakeADU, Frame, Answer;
    while true
      invariant old(conn.output) + Answers(bank, old(conn.input)) == conn.output + Answers(bank, conn.input)
      decreases |conn.input|
    {
      ghost var s := conn.input;
      var req := ReadADU(conn);
      if req.Err? {
        break;
      }
      var resp := Answer(bank, req.value);
      AnswerFits(bank, req.value);
      var frame := MarshalBinary(resp);
      if frame == null {
        break;
      }
      assert conn.output + (Frame(resp) + Answers(bank, conn.input)) ==
             conn.output + Frame(resp) + Answers(bank, conn.input);
      conn.Write(frame[..]);
    }
  }

  /** For any sequence of requests, the output is one answer each, in order. */
  lemma {:induction false} AnswersInOrder(bank: Bank, reqs: seq<ADU>, answers: seq<ADU>)
    requires forall a <- reqs :: Fits(a)
    requires |answers| == |reqs| && forall i :: 0 <= i < |reqs| ==> answers[i] == Answer(bank, reqs[i])
    ensures TakeAll(Answers(bank, Frames(reqs))) == (answers, [])
  {
    AnswersAreFrames(bank, reqs, answers);
    forall a <- answers ensures Fits(a) {
      var i :| 0 <= i < |answers| && answers[i] == a;
      AnswerFits(bank, reqs[i]);
    }
    TakeAllFrames(answers);
  }

  lemma {:induction false} AnswersAreFrames(bank: Bank, reqs: seq<ADU>, answers: seq<ADU>)
    requires forall a <- reqs :: Fits(a)
    requires |answers| == |reqs| && forall i :: 0 <= i < |reqs| ==> answers[i] == Answer(bank, reqs[i])
    ensures Answers(bank, Frames(reqs)) == Frames(answers)
  {
    if reqs == [] {
      assert TakeADU([]).0.Err?;
    } else {
      hide TakeADU, Frame, Answer;
      assert Fits(reqs[0]);
      TakeFrame(reqs[0], Frames(reqs[1..]));
      AnswersAreFrames(bank, reqs[1..], answers[1..]);
    }
  }

  // ----- The memory bank ----------------------------------------------------------

  /** slice */
  function Slice(table: seq<uint16>, addr: uint16, qty: uint16): BankReply {
    if addr + qty > |table| then Refused(ILLEGAL_ADDRESS) else Registers(table[addr..addr + qty])
  }

  function MemoryReply(holding: seq<uint16>, input: seq<uint16>): Bank {
    (fn: byte, unit: byte, addr: uint16, qty: uint16) => Slice(if fn == READ_HOLDING then holding else input, addr, qty)
  }

  class MemoryBank {
    const holding: array<uint16>
    const input: array<uint16>

    constructor (holdingSize: nat, inputSize: nat)
      ensures fresh(holding) && fresh(input) && holding != input
      ensures holding.Length == holdingSize && input.Length == inputSize
      ensures (forall i :: 0 <= i < holdingSize ==> holding[i] == 0) && forall i :: 0 <= i < inputSize ==> input[i] == 0
    {
      holding := new uint16[holdingSize](_ => 0);
      input := new uint16[inputSize](_ => 0);
    }

    method SetHolding(addr: uint16, regs: seq<uint16>) returns (ok: bool)
      requires holding != input
      modifies holding
      ensures ok == (addr + |regs| <= holding.Length) && input[..] == old(input[..])
      ensures forall i :: 0 <= i < holding.Length ==>
        holding[i] == if ok && addr <= i < addr + |regs| then regs[i - addr] else old(holding[i])
    {
      ok := WriteTable(holding, addr, regs);
    }

    method SetInput(addr: uint16, regs: seq<uint16>) returns (ok: bool)
      requires holding != input
      modifies input
      ensures ok == (addr + |regs| <= input.Length) && holding[..] == old(holding[..])
      ensures forall i :: 0 <= i < input.Length ==>
        input[i] == if ok && addr <= i < addr + |regs| then regs[i - addr] else old(input[i])
    {
      ok := WriteTable(input, addr, regs);
    }
  }

  /** write: all registers in place, or an error and no change. */
  method WriteTable(table: array<uint16>, addr: uint16, regs: seq<uint16>) returns (ok: bool)
    modifies table
    ensures ok == (addr + |regs| <= table.Length)
    ensures forall i :: 0 <= i < table.Length ==>
      table[i] == if ok && addr <= i < addr + |regs| then regs[i - addr] else old(table[i])
  {
    if addr + |regs| > table.Length {
      return false;
    }
    for k := 0 to |regs|
      invariant forall i :: 0 <= i < table.Length ==>
        table[i] == if addr <= i < addr + k then regs[i - addr] else old(table[i])
    {
      table[addr + k] := regs[k];
    }
    return true;
  }
}
