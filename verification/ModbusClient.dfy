/** The Modbus TCP client: one connection, capability flags, and fallbacks for what a PLC does not support. */
module ModbusClient {
  import opened Bits
  import opened Modbus
  import opened ModbusServer
  import opened Octets
  import opened Wrappers

  /** The memory with one bit of one register set. */
  function WithBit(mem: Memory, address: uint16, bit: nat, target: bool): Memory
    requires |mem| == REGISTERS && bit <= 15
  {
    mem[address := WordWithBit(mem[address], bit, target)]
  }

  predicate IsIllegalFunction<T>(r: Reply<T>) {
    r == Bad(Exception(ILLEGAL_FUNCTION))
  }

  class Client {
    const unit: byte
    const server: Server
    var connected: bool
    var nextID: uint16
    var maskWriteUnsupported: bool
    var writeMultipleUnsupported: bool

    /** A capability is only ever given up on a device that lacks it. */
    ghost predicate Valid()
      reads this
    {
      && server.Valid()
      && (maskWriteUnsupported ==> MASK_WRITE !in server.device.functions)
      && (writeMultipleUnsupported ==> WRITE_MULTIPLE !in server.device.functions)
    }

    /** This client can talk to this device. */
    predicate Addresses() {
      unit == server.device.unit
    }

    constructor (unit: byte, server: Server)
      requires server.Valid()
      ensures Valid() && this.unit == unit && this.server == server
    {
      this.unit, this.server := unit, server;
      connected, nextID := false, 1;
      maskWriteUnsupported, writeMultipleUnsupported := false, false;
    }

    method Close()
      modifies this`connected
      ensures !connected
    {
      connected := false;
    }

    /** The frames of one exchange, under a transaction id. */
    method Transfer(transactionID: uint16, pdu: Bytes, network: Network) returns (r: Reply<Bytes>)
      requires server.Valid() && pdu != []
      modifies this`connected, server.registers
      ensures Modbus.Exchange(server.Contents(), r) == FramedExchange(server.device, old(server.Contents()), transactionID, unit, pdu, network)
      ensures connected == r.Good?
    {
      connected := true;
      if network.RequestLost? {
        Close();
        return Bad(TransportLost);
      }
      var reply := server.Serve(Frame(transactionID, unit, pdu));
      if network.ResponseLost? || reply.None? {
        Close();
        return Bad(TransportLost);
      }
      r := ParseResponse(transactionID, unit, pdu[0], reply.value);
      if r.Bad? {
        Close();
      }
    }

    /** exchange: one frame out, one frame in; any failure closes the connection. */
    method Exchange(pdu: Bytes, network: Network) returns (r: Reply<Bytes>)
      requires server.Valid() && 1 <= |pdu| <= 253
      modifies this`connected, this`nextID, server.registers
      ensures Modbus.Exchange(server.Contents(), r) == DirectExchange(server.device, old(server.Contents()), unit, pdu, network)
      ensures connected == r.Good?
      ensures nextID == if old(nextID) == 0xFFFF then 1 else old(nextID) + 1
    {
      nextID := (nextID + 1) % 0x1_0000;
      if nextID == 0 {
        nextID := 1;
      }
      FramingIsInvisible(server.device, server.Contents(), nextID, unit, pdu, network);
      r := Transfer(nextID, pdu, network);
    }

    /** The registers of an FC03 response. */
    method AcceptWords(response: Bytes, quantity: uint16) returns (r: Reply<seq<uint16>>)
      modifies this`connected
      ensures r.Good? <==> |response| == 2 + quantity * 2 && response[0] == READ_HOLDING && response[1] == quantity * 2
      ensures r.Good? ==> r.value == GetWords(response, 2, quantity) && connected == old(connected)
      ensures r.Bad? ==> !connected && !IsIllegalFunction(r)
    {
      if |response| != 2 + quantity * 2 || response[0] != READ_HOLDING || response[1] != quantity * 2 {
        Close();
        return Bad(Invalid("FC03 response"));
      }
      var values: seq<uint16> := [];
      var index := 0;
      while index < quantity
        invariant 0 <= index <= quantity && values == GetWords(response, 2, index)
      {
        values := values + [Get16(response, 2 + index * 2)];
        index := index + 1;
      }
      r := Good(values);
    }

    /** FC06 and FC22 answer with the request itself. */
    method AcceptEcho(response: Bytes, request: Bytes) returns (r: Reply<()>)
      modifies this`connected
      ensures r.Good? <==> response == request
      ensures connected == (old(connected) && r.Good?)
      ensures !IsIllegalFunction(r)
    {
      if response != request {
        Close();
        return Bad(Invalid("response does not echo request"));
      }
      r := Good(());
    }

    /** FC10 answers with the range it wrote. */
    method AcceptRange(response: Bytes, address: uint16, quantity: uint16) returns (r: Reply<()>)
      modifies this`connected
      ensures r.Good? <==> |response| == 5 && response[0] == WRITE_MULTIPLE && Get16(response, 1) == address && Get16(response, 3) == quantity
      ensures connected == (old(connected) && r.Good?)
      ensures !IsIllegalFunction(r)
    {
      if |response| != 5 || response[0] != WRITE_MULTIPLE || Get16(response, 1) != address || Get16(response, 3) != quantity {
        Close();
        return Bad(Invalid("FC10 response"));
      }
      r := Good(());
    }

    /**
      FC03: exactly the requested registers, when the range is valid, the device
      supports it and nothing is lost; never a change.
    */
    method ReadHoldingRegisters(address: uint16, quantity: uint16, network: Network) returns (r: Reply<seq<uint16>>)
      requires server.Valid()
      modifies this`connected, this`nextID, server.registers
      ensures server.Contents() == old(server.Contents())
      ensures r.Good? <==> ValidRange(address, quantity, MAX_READ) && Addresses() && network.Clean? && READ_HOLDING in server.device.functions
      ensures r.Good? ==> r.value == server.Contents()[address..address + quantity]
    {
      if quantity == 0 || quantity > MAX_READ || address + quantity > REGISTERS {
        return Bad(Invalid("FC03 register range"));
      }
      ghost var before := server.Contents();
      var response := Exchange(ReadPdu(address, quantity), network);
      if READ_HOLDING in server.device.functions {
        DeviceReads(server.device, before, address, quantity);
      }
      if response.Bad? {
        return Bad(response.error);
      }
      r := AcceptWords(response.value, quantity);
    }

    /** FC06. A write whose answer was lost may have happened; it is not repeated. */
    method WriteSingleRegister(address: uint16, value: uint16, network: Network) returns (r: Reply<()>)
      requires server.Valid()
      modifies this`connected, this`nextID, server.registers
      ensures r.Good? <==> Addresses() && network.Clean? && WRITE_SINGLE in server.device.functions
      ensures server.Contents() ==
              if Reaches(server.device, unit, network) && WRITE_SINGLE in server.device.functions
              then old(server.Contents())[address := value] else old(server.Contents())
    {
      var request := SinglePdu(address, value);
      ReadPduFields(address, value);
      var response := Exchange(request, network);
      if response.Bad? {
        return Bad(response.error);
      }
      r := AcceptEcho(response.value, request);
    }

    method MaskWriteBitFC22(address: uint16, bit: nat, target: bool, network: Network) returns (r: Reply<()>)
      requires server.Valid() && bit <= 15
      modifies this`connected, this`nextID, server.registers
      ensures r.Good? <==> Addresses() && network.Clean? && MASK_WRITE in server.device.functions
      ensures IsIllegalFunction(r) ==> MASK_WRITE !in server.device.functions && Addresses() && network.Clean?
      ensures Addresses() && network.Clean? && MASK_WRITE !in server.device.functions ==> IsIllegalFunction(r)
      ensures server.Contents() ==
              if Reaches(server.device, unit, network) && MASK_WRITE in server.device.functions
              then WithBit(old(server.Contents()), address, bit, target) else old(server.Contents())
    {
      var request := MaskPdu(address, AndMask(bit), OrMask(bit, target));
      MaskPduFields(address, AndMask(bit), OrMask(bit, target));
      MaskWriteSetsTheBit(server.registers[address], bit, target);
      var response := Exchange(request, network);
      if response.Bad? {
        return Bad(response.error);
      }
      r := AcceptEcho(response.value, request);
    }

    /**
      The fallback for FC22; `read` and `write` are the transport under its two exchanges,
      `others` what other writers do between them. What it leaves is what FC22 would leave
      after them exactly when they left the other bits of this word alone.
    */
    method ReadModifyWrite(address: uint16, bit: nat, target: bool, read: Network, others: seq<Write>, write: Network) returns (r: Reply<()>)
      requires server.Valid() && bit <= 15
      modifies this`connected, this`nextID, server.registers
      ensures r.Good? <==> Addresses() && read.Clean? && write.Clean? && {READ_HOLDING, WRITE_SINGLE} <= server.device.functions
      ensures var was, now := old(server.Contents()), Disturbed(old(server.Contents()), others);
              && (r.Good? ==> server.Contents() == now[address := WordWithBit(was[address], bit, target)])
              && (r.Good? ==> (server.Contents() == WithBit(now, address, bit, target) <==> AgreeExcept(was[address], now[address], bit)))
              && (server.Contents() == was || server.Contents() == now || server.Contents() == now[address := WordWithBit(was[address], bit, target)])
    {
      var values := ReadHoldingRegisters(address, 1, read);
      if values.Bad? {
        return Bad(values.error);
      }
      ghost var was := values.value[0];
      var value := values.value[0];
      ModifySetsTheBit(value, bit, target);
      if target {
        value := Word(Or, value, Mask(bit));
      } else {
        value := Word(AndNot, value, Mask(bit));
      }
      server.WriteRegisters(others);
      LostExactlyWhen(server.Contents(), address, was, bit, target);
      r := WriteSingleRegister(address, value, write);
    }

    /**
      MaskWriteBit, over FC22 or its fallback. Undisturbed by other writers the memory
      afterwards is the old one or the old one with this bit set, and on success it is the
      latter, whatever was lost on the way and whichever path was taken. With other
      writers, that is lost exactly when the fallback is used and they change another bit
      of the word.
    */
    method MaskWriteBit(address: uint16, bit: nat, target: bool, mask: Network, read: Network, others: seq<Write>, write: Network) returns (r: Reply<()>)
      requires Valid()
      modifies this, server.registers
      ensures Valid()
      ensures bit > 15 ==> r.Bad? && server.Contents() == old(server.Contents())
      ensures bit <= 15 && others == [] && r.Good? ==> server.Contents() == WithBit(old(server.Contents()), address, bit, target)
      ensures bit <= 15 && others == [] ==>
        server.Contents() == old(server.Contents()) || server.Contents() == WithBit(old(server.Contents()), address, bit, target)
      ensures bit <= 15 && MASK_WRITE in server.device.functions ==>
        server.Contents() == old(server.Contents()) || server.Contents() == WithBit(old(server.Contents()), address, bit, target)
      ensures bit <= 15 && r.Good? && MASK_WRITE in server.device.functions ==>
        server.Contents() == WithBit(old(server.Contents()), address, bit, target)
      ensures var was, now := old(server.Contents()), Disturbed(old(server.Contents()), others);
              bit <= 15 && r.Good? && MASK_WRITE !in server.device.functions ==>
                && server.Contents() == now[address := WordWithBit(was[address], bit, target)]
                && (server.Contents() == WithBit(now, address, bit, target) <==> AgreeExcept(was[address], now[address], bit))
      ensures bit <= 15 && Addresses() && mask.Clean? && read.Clean? && write.Clean? ==>
        (r.Good? <==> MASK_WRITE in server.device.functions || {READ_HOLDING, WRITE_SINGLE} <= server.device.functions)
    {
      if bit > 15 {
        return Bad(Invalid("PLC bit is outside 0..15"));
      }
      if maskWriteUnsupported {
        r := ReadModifyWrite(address, bit, target, read, others, write);
        return;
      }
      r := MaskWriteBitFC22(address, bit, target, mask);
      if r.Bad? && r.error == Exception(ILLEGAL_FUNCTION) {
        maskWriteUnsupported := true;
        r := ReadModifyWrite(address, bit, target, read, others, write);
      }
    }

    method WriteMultipleFC10(address: uint16, values: seq<uint16>, network: Network) returns (r: Reply<()>)
      requires server.Valid() && ValidRange(address, |values|, MAX_WRITE)
      modifies this`connected, this`nextID, server.registers
      ensures r.Good? <==> Addresses() && network.Clean? && WRITE_MULTIPLE in server.device.functions
      ensures IsIllegalFunction(r) ==> WRITE_MULTIPLE !in server.device.functions && Addresses() && network.Clean?
      ensures Addresses() && network.Clean? && WRITE_MULTIPLE !in server.device.functions ==> IsIllegalFunction(r)
      ensures server.Contents() ==
              if Reaches(server.device, unit, network) && WRITE_MULTIPLE in server.device.functions
              then Written(old(server.Contents()), address, values) else old(server.Contents())
    {
      var request := MultiplePdu(address, values);
      MultiplePduFields(address, values);
      var response := Exchange(request, network);
      if response.Bad? {
        return Bad(response.error);
      }
      r := AcceptRange(response.value, address, |values|);
    }

    /** The fallback for FC10: one FC06 a word, stopping at the first failure. */
    method WriteSingles(address: uint16, values: seq<uint16>, networks: seq<Network>) returns (r: Reply<()>)
      requires server.Valid() && ValidRange(address, |values|, MAX_WRITE) && |networks| == |values|
      modifies this`connected, this`nextID, server.registers
      ensures r.Good? <==> Addresses() && WRITE_SINGLE in server.device.functions && forall i :: 0 <= i < |networks| ==> networks[i].Clean?
      ensures r.Good? ==> server.Contents() == Written(old(server.Contents()), address, values)
      ensures exists n :: 0 <= n <= |values| && server.Contents() == Written(old(server.Contents()), address, values[..n])
    {
      var index := 0;
      assert Written(server.Contents(), address, values[..0]) == server.Contents();
      while index < |values|
        invariant 0 <= index <= |values|
        invariant server.Contents() == Written(old(server.Contents()), address, values[..index])
        invariant index > 0 ==> Addresses() && WRITE_SINGLE in server.device.functions
        invariant forall i :: 0 <= i < index ==> networks[i].Clean?
      {
        WrittenNext(old(server.Contents()), address, values, index);
        r := WriteSingleRegister(address + index, values[index], networks[index]);
        if r.Bad? {
          return;
        }
        index := index + 1;
      }
      assert values[..index] == values;
      r := Good(());
    }

    /**
      WriteMultipleRegisters, over FC10 or its fallback: some first part of the values is
      written, all of them on success, and nothing else changes.
    */
    method WriteMultipleRegisters(address: uint16, values: seq<uint16>, first: Network, networks: seq<Network>) returns (r: Reply<()>)
      requires Valid() && |networks| == |values|
      modifies this, server.registers
      ensures Valid()
      ensures !ValidRange(address, |values|, MAX_WRITE) ==> r.Bad? && server.Contents() == old(server.Contents())
      ensures r.Good? ==> server.Contents() == Written(old(server.Contents()), address, values)
      ensures ValidRange(address, |values|, MAX_WRITE) ==>
        exists n :: 0 <= n <= |values| && server.Contents() == Written(old(server.Contents()), address, values[..n])
      ensures ValidRange(address, |values|, MAX_WRITE) && Addresses() && first.Clean? && (forall i :: 0 <= i < |networks| ==> networks[i].Clean?) ==>
        (r.Good? <==> WRITE_MULTIPLE in server.device.functions || WRITE_SINGLE in server.device.functions)
    {
      if |values| == 0 || |values| > MAX_WRITE || address + |values| > REGISTERS {
        return Bad(Invalid("FC10 register range"));
      }
      if writeMultipleUnsupported {
        r := WriteSingles(address, values, networks);
        return;
      }
      assert Written(server.Contents(), address, values[..0]) == server.Contents();
      assert values[..|values|] == values;
      r := WriteMultipleFC10(address, values, first);
      if r.Bad? && r.error == Exception(ILLEGAL_FUNCTION) {
        writeMultipleUnsupported := true;
        r := WriteSingles(address, values, networks);
      }
    }
  }

  lemma WrittenNext(mem: Memory, address: nat, values: seq<uint16>, i: nat)
    requires i < |values| && address + |values| <= |mem|
    ensures Written(mem, address, values[..i + 1]) == Written(mem, address, values[..i])[address + i := values[i]]
  {
    assert values[..i + 1] == values[..i] + [values[i]];
  }

  lemma LostExactlyWhen(now: Memory, address: uint16, seen: uint16, bit: nat, target: bool)
    requires |now| == REGISTERS && bit <= 15
    ensures now[address := WordWithBit(seen, bit, target)] == WithBit(now, address, bit, target) <==> AgreeExcept(seen, now[address], bit)
  {
    SetBitsAgreeExactlyWhen(seen, now[address], bit, target);
    assert now[address := WordWithBit(seen, bit, target)][address] == WordWithBit(seen, bit, target);
    assert WithBit(now, address, bit, target)[address] == WordWithBit(now[address], bit, target);
  }

  /**
    A losing run: on a PLC without FC22 another writer sets bit 1 of a word while bit 0
    is being set. The call succeeds and the word ends as 1, where FC22 would leave 3.
  */
  method FallbackLosesAWrite() returns (ok: bool, left: uint16, withMaskWrite: uint16)
    ensures ok && left == 1 && withMaskWrite == 3
  {
    var plc := new Server(Device(1, {READ_HOLDING, WRITE_SINGLE}), map[]);
    var client := new Client(1, plc);
    assert Disturbed(plc.Contents(), [Write(7, 2)]) == plc.Contents()[7 := 2] by {
      assert [Write(7, 2)][..0] == [];
    }
    SetBitOfTwo();
    ghost var zeros := plc.Contents();
    var r := client.MaskWriteBit(7, 0, true, Clean, Clean, [Write(7, 2)], Clean);
    assert plc.Contents()[7] == WordWithBit(zeros[7], 0, true);
    ok := r.Good?;
    left := plc.registers[7];
    withMaskWrite := WordWithBit(2, 0, true);
  }

  lemma SetBitOfTwo()
    ensures WordWithBit(0, 0, true) == 1 && WordWithBit(2, 0, true) == 3
  {
  }
}
