/** A Modbus TCP device over an array of registers; module Modbus says what it must answer. */
module ModbusServer {
  import opened Bits
  import opened Modbus
  import opened Octets
  import opened Wrappers

  lemma PutWordsNext(values: seq<uint16>, i: nat)
    requires i < |values|
    ensures PutWords(values[..i + 1]) == PutWords(values[..i]) + Put16(values[i])
  {
    assert values[..i + 1][..i] == values[..i];
  }

  class Server {
    const device: Device
    const registers: array<uint16>

    ghost predicate Valid() {
      registers.Length == REGISTERS
    }

    ghost function Contents(): (mem: Memory)
      reads registers
      requires Valid()
      ensures |mem| == REGISTERS
    {
      registers[..]
    }

    constructor (device: Device, initial: map<uint16, uint16>)
      ensures Valid() && fresh(registers) && this.device == device
      ensures forall a: uint16 :: registers[a] == if a in initial then initial[a] else 0
    {
      this.device := device;
      registers := new uint16[REGISTERS](i requires 0 <= i < REGISTERS => if i in initial then initial[i] else 0);
    }

    /** registerStore.read. */
    method Read(address: uint16, count: uint16) returns (values: seq<uint16>)
      requires Valid() && address + count <= REGISTERS
      ensures values == Contents()[address..address + count]
    {
      values := registers[address..address + count];
    }

    /** registerStore.maskWrite. */
    method MaskWrite(address: uint16, andMask: uint16, orMask: uint16)
      requires Valid()
      modifies registers
      ensures Contents() == old(Contents())[address := Masked(old(registers[address]), andMask, orMask)]
    {
      var current := registers[address];
      registers[address] := Word(Or, Word(And, current, andMask), Word(AndNot, orMask, andMask));
    }

    method HandleReadHoldingRegisters(pdu: Bytes) returns (response: Bytes)
      requires Valid()
      ensures response == HandleRead(Contents(), pdu).response
    {
      if |pdu| != 5 {
        return ExceptionResponse(READ_HOLDING, ILLEGAL_DATA_VALUE);
      }
      var address, count := Get16(pdu, 1), Get16(pdu, 3);
      if count == 0 || count > MAX_READ {
        return ExceptionResponse(READ_HOLDING, ILLEGAL_DATA_VALUE);
      }
      if address + count > REGISTERS {
        return ExceptionResponse(READ_HOLDING, ILLEGAL_DATA_ADDRESS);
      }
      var values := Read(address, count);
      response := WordsResponse(values);
    }

    /** The response: the size in bytes, and the words, one after the other. */
    static method WordsResponse(values: seq<uint16>) returns (response: Bytes)
      requires |values| <= MAX_READ
      ensures response == [READ_HOLDING, |values| * 2] + PutWords(values)
    {
      response := [READ_HOLDING, |values| * 2];
      var index := 0;
      while index < |values|
        invariant 0 <= index <= |values|
        invariant response == [READ_HOLDING, |values| * 2] + PutWords(values[..index])
      {
        PutWordsNext(values, index);
        response := response + Put16(values[index]);
        index := index + 1;
      }
      assert values[..index] == values;
    }

    method HandleMaskWriteRegister(pdu: Bytes) returns (response: Bytes)
      requires Valid()
      modifies registers
      ensures Handling(Contents(), response) == HandleMask(old(Contents()), pdu)
    {
      if |pdu| != 7 {
        return ExceptionResponse(MASK_WRITE, ILLEGAL_DATA_VALUE);
      }
      MaskWrite(Get16(pdu, 1), Get16(pdu, 3), Get16(pdu, 5));
      response := pdu;
    }

    method HandleWriteSingle(pdu: Bytes) returns (response: Bytes)
      requires Valid()
      modifies registers
      ensures Handling(Contents(), response) == HandleSingle(old(Contents()), pdu)
    {
      if |pdu| != 5 {
        return ExceptionResponse(WRITE_SINGLE, ILLEGAL_DATA_VALUE);
      }
      registers[Get16(pdu, 1)] := Get16(pdu, 3);
      response := pdu;
    }

    /** The loop of a multiple write. */
    method Store(address: uint16, values: seq<uint16>)
      requires Valid() && address + |values| <= REGISTERS
      modifies registers
      ensures Contents() == Written(old(Contents()), address, values)
    {
      var i := 0;
      while i < |values|
        invariant 0 <= i <= |values|
        invariant registers[..] == Written(old(Contents()), address, values[..i])
      {
        assert values[..i + 1] == values[..i] + [values[i]];
        registers[address + i] := values[i];
        i := i + 1;
      }
      assert values[..i] == values;
    }

    method HandleWriteMultiple(pdu: Bytes) returns (response: Bytes)
      requires Valid()
      modifies registers
      ensures Handling(Contents(), response) == HandleMultiple(old(Contents()), pdu)
    {
      if |pdu| < 6 {
        return ExceptionResponse(WRITE_MULTIPLE, ILLEGAL_DATA_VALUE);
      }
      var address, count := Get16(pdu, 1), Get16(pdu, 3);
      if count == 0 || count > MAX_WRITE || pdu[5] != 2 * count || |pdu| != 6 + 2 * count {
        return ExceptionResponse(WRITE_MULTIPLE, ILLEGAL_DATA_VALUE);
      }
      if address + count > REGISTERS {
        return ExceptionResponse(WRITE_MULTIPLE, ILLEGAL_DATA_ADDRESS);
      }
      Store(address, GetWords(pdu, 6, count));
      response := pdu[..5];
    }

    method HandlePDU(pdu: Bytes) returns (response: Bytes)
      requires Valid()
      modifies registers
      ensures Handling(Contents(), response) == Handle(device, old(Contents()), pdu)
    {
      if |pdu| == 0 {
        return [];
      }
      if pdu[0] !in device.functions {
        return ExceptionResponse(pdu[0], ILLEGAL_FUNCTION);
      }
      if pdu[0] == READ_HOLDING {
        response := HandleReadHoldingRegisters(pdu);
      } else if pdu[0] == MASK_WRITE {
        response := HandleMaskWriteRegister(pdu);
      } else if pdu[0] == WRITE_SINGLE {
        response := HandleWriteSingle(pdu);
      } else if pdu[0] == WRITE_MULTIPLE {
        response := HandleWriteMultiple(pdu);
      } else {
        response := ExceptionResponse(pdu[0], ILLEGAL_FUNCTION);
      }
    }

    /** Writes from elsewhere, one WriteRegisterFromUI after the other. */
    method WriteRegisters(others: seq<Write>)
      requires Valid()
      modifies registers
      ensures Contents() == Disturbed(old(Contents()), others)
    {
      var i := 0;
      while i < |others|
        invariant 0 <= i <= |others|
        invariant registers[..] == Disturbed(old(Contents()), others[..i])
      {
        assert others[..i + 1][..i] == others[..i];
        registers[others[i].address] := others[i].value;
        i := i + 1;
      }
      assert others[..i] == others;
    }

    /** One turn of serveConnection: what is written back for one frame. */
    method Serve(frame: Bytes) returns (reply: Option<Bytes>)
      requires Valid()
      modifies registers
      ensures (Contents(), reply) == Served(device, old(Contents()), frame)
    {
      var request := ReadRequest(frame);
      if request.Err? || request.value.unit != device.unit {
        return None;
      }
      var response := HandlePDU(request.value.pdu);
      reply := Some(Frame(request.value.transaction, request.value.unit, response));
    }
  }
}
