/**
  Modbus TCP as functions: MBAP frames, what a device does with a request, and what
  the client makes of the reply. Section numbers are those of the MODBUS Application
  Protocol Specification V1.1b3. The PLC simulator is the device with FC03 and FC22;
  FC06 and FC10 are those of the specification.
*/
module Modbus {
  import opened Bits
  import opened Octets
  import opened Wrappers

  const READ_HOLDING: byte := 0x03
  const WRITE_SINGLE: byte := 0x06
  const WRITE_MULTIPLE: byte := 0x10
  const MASK_WRITE: byte := 0x16

  const ILLEGAL_FUNCTION: byte := 0x01
  const ILLEGAL_DATA_ADDRESS: byte := 0x02
  const ILLEGAL_DATA_VALUE: byte := 0x03

  const MAX_READ := 125
  const MAX_WRITE := 123
  const REGISTERS := 0x1_0000

  type Memory = seq<uint16>

  datatype Device = Device(unit: byte, functions: set<byte>)

  function Simulator(unit: byte): Device {
    Device(unit, {READ_HOLDING, MASK_WRITE})
  }

  // -------------------------------------------------------------- the device

  /** `f | 0x80`. */
  function Flagged(f: byte): byte {
    if f < 0x80 then f + 0x80 else f
  }

  function ExceptionResponse(f: byte, code: byte): Bytes {
    [Flagged(f), code]
  }

  datatype Handling = Handling(memory: Memory, response: Bytes)

  /** Section 6.3. */
  function HandleRead(mem: Memory, pdu: Bytes): Handling
    requires |mem| == REGISTERS
  {
    if |pdu| != 5 then Handling(mem, ExceptionResponse(READ_HOLDING, ILLEGAL_DATA_VALUE))
    else
      var address, count := Get16(pdu, 1), Get16(pdu, 3);
      if count == 0 || count > MAX_READ then Handling(mem, ExceptionResponse(READ_HOLDING, ILLEGAL_DATA_VALUE))
      else if address + count > REGISTERS then Handling(mem, ExceptionResponse(READ_HOLDING, ILLEGAL_DATA_ADDRESS))
      else Handling(mem, [READ_HOLDING, count * 2] + PutWords(mem[address..address + count]))
  }

  /** The result of a mask write on one register: section 6.16. */
  function Masked(current: uint16, andMask: uint16, orMask: uint16): uint16 {
    Word(Or, Word(And, current, andMask), Word(AndNot, orMask, andMask))
  }

  function HandleMask(mem: Memory, pdu: Bytes): Handling
    requires |mem| == REGISTERS
  {
    if |pdu| != 7 then Handling(mem, ExceptionResponse(MASK_WRITE, ILLEGAL_DATA_VALUE))
    else
      var address := Get16(pdu, 1);
      Handling(mem[address := Masked(mem[address], Get16(pdu, 3), Get16(pdu, 5))], pdu)
  }

  /** Section 6.6. */
  function HandleSingle(mem: Memory, pdu: Bytes): Handling
    requires |mem| == REGISTERS
  {
    if |pdu| != 5 then Handling(mem, ExceptionResponse(WRITE_SINGLE, ILLEGAL_DATA_VALUE))
    else Handling(mem[Get16(pdu, 1) := Get16(pdu, 3)], pdu)
  }

  function GetWords(b: Bytes, at: nat, count: nat): (r: seq<uint16>)
    requires at + 2 * count <= |b|
    ensures |r| == count
  {
    seq(count, i requires 0 <= i < count => Get16(b, at + 2 * i))
  }

  function Written(mem: Memory, address: nat, values: seq<uint16>): (r: Memory)
    requires address + |values| <= |mem|
    ensures |r| == |mem|
  {
    mem[..address] + values + mem[address + |values|..]
  }

  /** Section 6.12. */
  function HandleMultiple(mem: Memory, pdu: Bytes): Handling
    requires |mem| == REGISTERS
  {
    if |pdu| < 6 then Handling(mem, ExceptionResponse(WRITE_MULTIPLE, ILLEGAL_DATA_VALUE))
    else
      var address, count := Get16(pdu, 1), Get16(pdu, 3);
      if count == 0 || count > MAX_WRITE || pdu[5] != 2 * count || |pdu| != 6 + 2 * count then
        Handling(mem, ExceptionResponse(WRITE_MULTIPLE, ILLEGAL_DATA_VALUE))
      else if address + count > REGISTERS then Handling(mem, ExceptionResponse(WRITE_MULTIPLE, ILLEGAL_DATA_ADDRESS))
      else Handling(Written(mem, address, GetWords(pdu, 6, count)), pdu[..5])
  }

  function Handle(d: Device, mem: Memory, pdu: Bytes): (h: Handling)
    requires |mem| == REGISTERS
    ensures |h.memory| == REGISTERS
  {
    if pdu == [] then Handling(mem, [])
    else if pdu[0] !in d.functions then Handling(mem, ExceptionResponse(pdu[0], ILLEGAL_FUNCTION))
    else if pdu[0] == READ_HOLDING then HandleRead(mem, pdu)
    else if pdu[0] == MASK_WRITE then HandleMask(mem, pdu)
    else if pdu[0] == WRITE_SINGLE then HandleSingle(mem, pdu)
    else if pdu[0] == WRITE_MULTIPLE then HandleMultiple(mem, pdu)
    else Handling(mem, ExceptionResponse(pdu[0], ILLEGAL_FUNCTION))
  }

  /** A register written by someone else: another client, or the simulator's own interface. */
  datatype Write = Write(address: uint16, value: uint16)

  function Disturbed(mem: Memory, others: seq<Write>): (r: Memory)
    requires |mem| == REGISTERS
    ensures |r| == REGISTERS
  {
    if others == [] then mem
    else Disturbed(mem, others[..|others| - 1])[others[|others| - 1].address := others[|others| - 1].value]
  }

  // -------------------------------------------------------------- frames

  function Frame(transaction: uint16, unit: byte, pdu: Bytes): Bytes {
    Put16(transaction) + [0, 0] + Put16((|pdu| + 1) % 0x1_0000) + [unit] + pdu
  }

  datatype Request = Request(transaction: uint16, unit: byte, pdu: Bytes)

  /** readRequest on the bytes of a connection. */
  function ReadRequest(stream: Bytes): (r: Result<Request>)
    ensures r.Ok? ==> r.value.pdu != []
  {
    if |stream| < 6 then Err("EOF")
    else if Get16(stream, 2) != 0 then Err("unsupported protocol ID")
    else
      var length := Get16(stream, 4);
      if length < 2 || length > 254 then Err("invalid MBAP length")
      else if |stream| < 6 + length then Err("EOF")
      else Ok(Request(Get16(stream, 0), stream[6], stream[7..6 + length]))
  }

  /** A request survives framing exactly when the device's length limit admits it. */
  lemma RequestIsReadBackExactlyWhen(transaction: uint16, unit: byte, pdu: Bytes)
    requires |pdu| <= 0xFFFE
    ensures ReadRequest(Frame(transaction, unit, pdu)) == Ok(Request(transaction, unit, pdu)) <==> 1 <= |pdu| <= 253
    ensures !(1 <= |pdu| <= 253) ==> ReadRequest(Frame(transaction, unit, pdu)).Err?
  {
    var frame := Frame(transaction, unit, pdu);
    FrameFields(transaction, unit, pdu);
    assert frame[7..6 + (|pdu| + 1)] == pdu;
  }

  lemma FrameFields(transaction: uint16, unit: byte, pdu: Bytes)
    requires |pdu| <= 0xFFFE
    ensures var frame := Frame(transaction, unit, pdu);
            && |frame| == 7 + |pdu| && frame[7..] == pdu && frame[6] == unit
            && Get16(frame, 0) == transaction && Get16(frame, 2) == 0 && Get16(frame, 4) == |pdu| + 1
  {
    var frame := Frame(transaction, unit, pdu);
    assert frame[0] == Put16(transaction)[0] && frame[1] == Put16(transaction)[1];
    assert frame[4] == Put16(|pdu| + 1)[0] && frame[5] == Put16(|pdu| + 1)[1];
  }

  // -------------------------------------------------------------- the client's view

  datatype ModbusError = TransportLost | Exception(code: byte) | Invalid(text: string)

  datatype Reply<T> = Good(value: T) | Bad(error: ModbusError)

  function Interpret(function': byte, response: Bytes): Reply<Bytes>
    requires response != []
  {
    if response[0] == Flagged(function') then
      if |response| != 2 then Bad(Invalid("exception response")) else Bad(Exception(response[1]))
    else if response[0] != function' then Bad(Invalid("function code mismatch"))
    else Good(response)
  }

  /** The second half of exchange, on the bytes that arrive. */
  function ParseResponse(transaction: uint16, unit: byte, function': byte, bytes: Bytes): Reply<Bytes> {
    if |bytes| < 7 then Bad(TransportLost)
    else
      var length := Get16(bytes, 4);
      if Get16(bytes, 0) != transaction || Get16(bytes, 2) != 0 || bytes[6] != unit || length < 2 || length > 260 then
        Bad(Invalid("MBAP response"))
      else if |bytes| < 6 + length then Bad(TransportLost)
      else Interpret(function', bytes[7..6 + length])
  }

  lemma ResponseIsParsed(transaction: uint16, unit: byte, function': byte, response: Bytes)
    requires 1 <= |response| <= 259
    ensures ParseResponse(transaction, unit, function', Frame(transaction, unit, response)) == Interpret(function', response)
  {
    var frame := Frame(transaction, unit, response);
    FrameFields(transaction, unit, response);
    assert frame[7..6 + (|response| + 1)] == response;
  }

  /** The transport under one exchange: nothing lost, or the connection fails before or after the device acts. */
  datatype Network = Clean | RequestLost | ResponseLost

  /** What a device sends back to one frame: nothing when it cannot read it or it is not for this unit. */
  function Served(d: Device, mem: Memory, frame: Bytes): (Memory, Option<Bytes>)
    requires |mem| == REGISTERS
  {
    match ReadRequest(frame)
    case Err(_) => (mem, None)
    case Ok(request) =>
      if request.unit != d.unit then (mem, None)
      else
        var h := Handle(d, mem, request.pdu);
        (h.memory, Some(Frame(request.transaction, request.unit, h.response)))
  }

  datatype Exchange = Exchange(memory: Memory, reply: Reply<Bytes>)

  /** One exchange over real frames. */
  function FramedExchange(d: Device, mem: Memory, transaction: uint16, unit: byte, pdu: Bytes, network: Network): Exchange
    requires |mem| == REGISTERS && pdu != []
  {
    if network.RequestLost? then Exchange(mem, Bad(TransportLost))
    else
      var served := Served(d, mem, Frame(transaction, unit, pdu));
      if network.ResponseLost? || served.1.None? then Exchange(served.0, Bad(TransportLost))
      else Exchange(served.0, ParseResponse(transaction, unit, pdu[0], served.1.value))
  }

  predicate Reaches(d: Device, unit: byte, network: Network) {
    !network.RequestLost? && unit == d.unit
  }

  /** The same exchange with no frames at all. */
  function DirectExchange(d: Device, mem: Memory, unit: byte, pdu: Bytes, network: Network): Exchange
    requires |mem| == REGISTERS && pdu != []
  {
    if !Reaches(d, unit, network) then Exchange(mem, Bad(TransportLost))
    else
      var h := Handle(d, mem, pdu);
      Exchange(h.memory, if network.Clean? && h.response != [] then Interpret(pdu[0], h.response) else Bad(TransportLost))
  }

  lemma ResponsesFit(d: Device, mem: Memory, pdu: Bytes)
    requires |mem| == REGISTERS && 1 <= |pdu| <= 253
    ensures 1 <= |Handle(d, mem, pdu).response| <= 253
  {
  }

  /** Framing is invisible: for every request the client sends, the exchange is a call of the device. */
  lemma FramingIsInvisible(d: Device, mem: Memory, transaction: uint16, unit: byte, pdu: Bytes, network: Network)
    requires |mem| == REGISTERS && 1 <= |pdu| <= 253
    ensures FramedExchange(d, mem, transaction, unit, pdu, network) == DirectExchange(d, mem, unit, pdu, network)
  {
    RequestIsReadBackExactlyWhen(transaction, unit, pdu);
    if Reaches(d, unit, network) {
      ResponsesFit(d, mem, pdu);
      ResponseIsParsed(transaction, unit, pdu[0], Handle(d, mem, pdu).response);
    }
  }

  // -------------------------------------------------------------- requests

  function ReadPdu(address: uint16, quantity: uint16): Bytes {
    [READ_HOLDING] + Put16(address) + Put16(quantity)
  }

  function SinglePdu(address: uint16, value: uint16): Bytes {
    [WRITE_SINGLE] + Put16(address) + Put16(value)
  }

  function MaskPdu(address: uint16, andMask: uint16, orMask: uint16): Bytes {
    [MASK_WRITE] + Put16(address) + Put16(andMask) + Put16(orMask)
  }

  function MultiplePdu(address: uint16, values: seq<uint16>): Bytes
    requires |values| <= MAX_WRITE
  {
    [WRITE_MULTIPLE] + Put16(address) + Put16(|values|) + [2 * |values|] + PutWords(values)
  }

  predicate ValidRange(address: uint16, quantity: int, max: int) {
    1 <= quantity <= max && address + quantity <= REGISTERS
  }

  lemma ReadPduFields(address: uint16, quantity: uint16)
    ensures var pdu := ReadPdu(address, quantity); |pdu| == 5 && Get16(pdu, 1) == address && Get16(pdu, 3) == quantity
    ensures var pdu := SinglePdu(address, quantity); |pdu| == 5 && Get16(pdu, 1) == address && Get16(pdu, 3) == quantity
  {
  }

  lemma MaskPduFields(address: uint16, andMask: uint16, orMask: uint16)
    ensures var pdu := MaskPdu(address, andMask, orMask);
            |pdu| == 7 && Get16(pdu, 1) == address && Get16(pdu, 3) == andMask && Get16(pdu, 5) == orMask
  {
  }

  lemma MultiplePduFields(address: uint16, values: seq<uint16>)
    requires |values| <= MAX_WRITE
    ensures var pdu := MultiplePdu(address, values);
            && |pdu| == 6 + 2 * |values| && pdu[5] == 2 * |values| && pdu[0] == WRITE_MULTIPLE
            && Get16(pdu, 1) == address && Get16(pdu, 3) == |values| && GetWords(pdu, 6, |values|) == values
  {
    var pdu, words := MultiplePdu(address, values), PutWords(values);
    var head := [WRITE_MULTIPLE] + Put16(address) + Put16(|values|) + [2 * |values|];
    assert pdu == head + words;
    forall i | 0 <= i < |values| ensures Get16(pdu, 6 + 2 * i) == values[i] {
      assert pdu[6 + 2 * i] == words[2 * i] && pdu[6 + 2 * i + 1] == words[2 * i + 1];
      assert Get16(words, 2 * i) == values[i];
    }
  }

  /** FC03 on the device: the requested registers, exactly. */
  lemma DeviceReads(d: Device, mem: Memory, address: uint16, quantity: uint16)
    requires |mem| == REGISTERS && ValidRange(address, quantity, MAX_READ) && READ_HOLDING in d.functions
    ensures var h := Handle(d, mem, ReadPdu(address, quantity));
            && h.memory == mem && |h.response| == 2 + 2 * quantity && h.response[0] == READ_HOLDING && h.response[1] == 2 * quantity
            && GetWords(h.response, 2, quantity) == mem[address..address + quantity]
  {
    ReadPduFields(address, quantity);
    var values := mem[address..address + quantity];
    var words, response := PutWords(values), Handle(d, mem, ReadPdu(address, quantity)).response;
    forall i | 0 <= i < quantity ensures Get16(response, 2 + 2 * i) == values[i] {
      assert response[2 + 2 * i] == words[2 * i] && response[2 + 2 * i + 1] == words[2 * i + 1];
      assert Get16(words, 2 * i) == values[i];
    }
  }

  // -------------------------------------------------------------- one bit

  function AndMask(bit: nat): uint16
    requires bit <= 15
  {
    Word(AndNot, 0xFFFF, Mask(bit))
  }

  function OrMask(bit: nat, target: bool): uint16
    requires bit <= 15
  {
    if target then Mask(bit) else 0
  }

  lemma AndMaskBits(bit: nat, i: nat)
    requires bit <= 15 && i < 16
    ensures BitOf(AndMask(bit), i) <==> i != bit
  {
    Pow16();
    AllBitsSet(16, i);
    BitOfPow2(bit, i);
    BitwiseBits(AndNot, 0xFFFF, Mask(bit), 16, i);
  }

  lemma OrMaskBits(bit: nat, target: bool, i: nat)
    requires bit <= 15
    ensures BitOf(OrMask(bit, target), i) <==> target && i == bit
  {
    BitOfPow2(bit, i);
    ZeroHasNoBits(i);
  }

  /** Section 6.16: a mask write with these masks changes exactly one bit. */
  lemma MaskWriteSetsTheBit(current: uint16, bit: nat, target: bool)
    requires bit <= 15
    ensures Masked(current, AndMask(bit), OrMask(bit, target)) == WordWithBit(current, bit, target)
  {
    var a, o := AndMask(bit), OrMask(bit, target);
    var kept, added := Word(And, current, a), Word(AndNot, o, a);
    forall i | 0 <= i < 16 ensures BitOf(Masked(current, a, o), i) <==> if i == bit then target else BitOf(current, i) {
      AndMaskBits(bit, i);
      OrMaskBits(bit, target, i);
      BitwiseBits(And, current, a, 16, i);
      BitwiseBits(AndNot, o, a, 16, i);
      BitwiseBits(Or, kept, added, 16, i);
    }
    OneBitApart(Masked(current, a, o), current, bit, target);
  }

  /** What the fallback computes between its FC03 and its FC06. */
  function Modified(value: uint16, bit: nat, target: bool): uint16
    requires bit <= 15
  {
    if target then Word(Or, value, Mask(bit)) else Word(AndNot, value, Mask(bit))
  }

  lemma ModifySetsTheBit(value: uint16, bit: nat, target: bool)
    requires bit <= 15
    ensures Modified(value, bit, target) == WordWithBit(value, bit, target)
  {
    forall i | 0 <= i < 16 ensures BitOf(Modified(value, bit, target), i) <==> if i == bit then target else BitOf(value, i) {
      BitOfPow2(bit, i);
      BitwiseBits(if target then Or else AndNot, value, Mask(bit), 16, i);
    }
    OneBitApart(Modified(value, bit, target), value, bit, target);
  }

  /** A read-modify-write whose word was `seen` and is `now` leaves what FC22 would have
      left exactly when no one changed another bit in between. */
  lemma FallbackEqualsMaskWriteExactlyWhen(seen: uint16, now: uint16, bit: nat, target: bool)
    requires bit <= 15
    ensures Modified(seen, bit, target) == Masked(now, AndMask(bit), OrMask(bit, target)) <==> AgreeExcept(seen, now, bit)
  {
    ModifySetsTheBit(seen, bit, target);
    MaskWriteSetsTheBit(now, bit, target);
    SetBitsAgreeExactlyWhen(seen, now, bit, target);
  }

  // -------------------------------------------------------------- the simulator

  /** The registers after the requests of any clients, in the order the device took them. */
  function AfterRequests(d: Device, mem: Memory, requests: seq<Bytes>): (r: Memory)
    requires |mem| == REGISTERS
    ensures |r| == REGISTERS
  {
    if requests == [] then mem
    else Handle(d, AfterRequests(d, mem, requests[..|requests| - 1]), requests[|requests| - 1]).memory
  }

  /** A mask write whose masks decide this bit. */
  predicate DecidesBit(pdu: Bytes, address: uint16, bit: nat) {
    |pdu| == 7 && pdu[0] == MASK_WRITE && Get16(pdu, 1) == address && !BitOf(Get16(pdu, 3), bit)
  }

  /** Section 6.16: a bit whose AND mask is set keeps its value, any other takes the OR mask's. */
  lemma MaskedBits(current: uint16, andMask: uint16, orMask: uint16, i: nat)
    requires i < 16
    ensures BitOf(Masked(current, andMask, orMask), i) <==> if BitOf(andMask, i) then BitOf(current, i) else BitOf(orMask, i)
  {
    BitwiseBits(And, current, andMask, 16, i);
    BitwiseBits(AndNot, orMask, andMask, 16, i);
    BitwiseBits(Or, Word(And, current, andMask), Word(AndNot, orMask, andMask), 16, i);
  }

  lemma SimulatorKeepsBit(unit: byte, mem: Memory, pdu: Bytes, address: uint16, bit: nat)
    requires |mem| == REGISTERS && bit <= 15 && !DecidesBit(pdu, address, bit)
    ensures BitOf(Handle(Simulator(unit), mem, pdu).memory[address], bit) <==> BitOf(mem[address], bit)
  {
    if |pdu| == 7 && pdu[0] == MASK_WRITE && Get16(pdu, 1) == address {
      MaskedBits(mem[address], Get16(pdu, 3), Get16(pdu, 5), bit);
    }
  }

  /**
    On the simulator no bit write is lost to another client: whatever requests came before
    and after it, malformed ones and writes of other bits of the same word among them, the
    bit holds what the last mask write that decides it says.
  */
  lemma {:induction false} LastBitWriteStays(unit: byte, mem: Memory, requests: seq<Bytes>, k: nat, address: uint16, bit: nat, target: bool)
    requires |mem| == REGISTERS && bit <= 15 && k < |requests|
    requires requests[k] == MaskPdu(address, AndMask(bit), OrMask(bit, target))
    requires forall j :: k < j < |requests| ==> !DecidesBit(requests[j], address, bit)
    ensures BitOf(AfterRequests(Simulator(unit), mem, requests)[address], bit) <==> target
  {
    var before, pdu := AfterRequests(Simulator(unit), mem, requests[..|requests| - 1]), requests[|requests| - 1];
    if k == |requests| - 1 {
      MaskPduFields(address, AndMask(bit), OrMask(bit, target));
      MaskedBits(before[address], AndMask(bit), OrMask(bit, target), bit);
      AndMaskBits(bit, bit);
      OrMaskBits(bit, target, bit);
    } else {
      LastBitWriteStays(unit, mem, requests[..|requests| - 1], k, address, bit, target);
      SimulatorKeepsBit(unit, before, pdu, address, bit);
    }
  }
}
