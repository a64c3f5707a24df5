/**
  Modbus TCP byte by byte: what the requests look like on the wire, and exactly which
  bytes a device takes for a request and a client for a response.
*/
module ModbusWire {
  import opened Wrappers
  import opened Bits
  import opened Octets
  import opened Modbus

  // -------------------------------------------------------------- frames

  /** An MBAP frame: transaction, protocol 0, length of what follows, unit, PDU. */
  predicate IsFrame(bytes: Bytes, transaction: uint16, unit: byte, pdu: Bytes) {
    && |pdu| + 1 < 0x1_0000
    && bytes == [transaction / 0x100, transaction % 0x100, 0, 0, (|pdu| + 1) / 0x100, (|pdu| + 1) % 0x100, unit] + pdu
  }

  lemma FramesAreMbap(transaction: uint16, unit: byte, pdu: Bytes)
    requires |pdu| + 1 < 0x1_0000
    ensures IsFrame(Frame(transaction, unit, pdu), transaction, unit, pdu)
  {
  }

  lemma HeaderOf(bytes: Bytes, transaction: uint16, unit: byte, pdu: Bytes, rest: Bytes)
    requires exists frame :: IsFrame(frame, transaction, unit, pdu) && bytes == frame + rest
    ensures |bytes| == 7 + |pdu| + |rest| && Get16(bytes, 0) == transaction && Get16(bytes, 2) == 0 && Get16(bytes, 4) == |pdu| + 1
    ensures bytes[6] == unit && bytes[7..7 + |pdu|] == pdu
  {
    var frame :| IsFrame(frame, transaction, unit, pdu) && bytes == frame + rest;
    assert frame[7..] == pdu && bytes[7..7 + |pdu|] == frame[7..];
  }

  lemma FrameAtTheFront(bytes: Bytes)
    requires |bytes| >= 7 && Get16(bytes, 2) == 0 && Get16(bytes, 4) >= 1 && |bytes| >= 6 + Get16(bytes, 4)
    ensures IsFrame(bytes[..6 + Get16(bytes, 4)], Get16(bytes, 0), bytes[6], bytes[7..6 + Get16(bytes, 4)])
  {
    var n := 6 + Get16(bytes, 4);
    var high: int, low: int := bytes[2], bytes[3];
    assert high * 0x100 + low == 0;
    assert bytes[..n] == bytes[..7] + bytes[7..n];
    assert bytes[..7] == [bytes[0], bytes[1], bytes[2], bytes[3], bytes[4], bytes[5], bytes[6]];
  }

  /** The stream begins with this frame. */
  ghost predicate Begins(stream: Bytes, transaction: uint16, unit: byte, pdu: Bytes) {
    exists frame, rest :: IsFrame(frame, transaction, unit, pdu) && stream == frame + rest
  }

  lemma BeginsWithFrame(stream: Bytes)
    requires |stream| >= 7 && Get16(stream, 2) == 0 && Get16(stream, 4) >= 1 && |stream| >= 6 + Get16(stream, 4)
    ensures Begins(stream, Get16(stream, 0), stream[6], stream[7..6 + Get16(stream, 4)])
  {
    var n := 6 + Get16(stream, 4);
    FrameAtTheFront(stream);
    assert stream == stream[..n] + stream[n..];
  }

  lemma BeginsMeans(stream: Bytes, transaction: uint16, unit: byte, pdu: Bytes)
    requires Begins(stream, transaction, unit, pdu)
    ensures |stream| >= 7 + |pdu| && Get16(stream, 0) == transaction && Get16(stream, 2) == 0 && Get16(stream, 4) == |pdu| + 1
    ensures stream[6] == unit && stream[7..7 + |pdu|] == pdu
  {
    var frame, rest :| IsFrame(frame, transaction, unit, pdu) && stream == frame + rest;
    HeaderOf(stream, transaction, unit, pdu, rest);
  }

  /** A device takes exactly a frame with a PDU of 1 to 253 bytes for a request. */
  lemma RequestsAreFrames(stream: Bytes, transaction: uint16, unit: byte, pdu: Bytes)
    ensures ReadRequest(stream) == Ok(Request(transaction, unit, pdu)) <==> 1 <= |pdu| <= 253 && Begins(stream, transaction, unit, pdu)
  {
    if ReadRequest(stream) == Ok(Request(transaction, unit, pdu)) {
      BeginsWithFrame(stream);
    }
    if Begins(stream, transaction, unit, pdu) {
      BeginsMeans(stream, transaction, unit, pdu);
    }
  }

  /** What a client makes of the PDU of a response. */
  function Meant(function': byte, pdu: Bytes): Reply<Bytes>
    requires pdu != []
  {
    var failed: byte := if function' < 0x80 then function' + 0x80 else function';
    if pdu[0] == failed then (if |pdu| == 2 then Bad(Exception(pdu[1])) else Bad(Invalid("exception response")))
    else if pdu[0] == function' then Good(pdu)
    else Bad(Invalid("function code mismatch"))
  }

  /** A client takes exactly a frame with its own transaction and unit and a PDU of 1 to 259 bytes for a response. */
  lemma ResponsesAreFrames(transaction: uint16, unit: byte, function': byte, bytes: Bytes, pdu: Bytes)
    requires pdu != []
    ensures 1 <= |pdu| <= 259 && Begins(bytes, transaction, unit, pdu) ==>
            ParseResponse(transaction, unit, function', bytes) == Meant(function', pdu)
    ensures ParseResponse(transaction, unit, function', bytes) == Good(pdu) ==>
            pdu[0] == function' && |pdu| <= 259 && Begins(bytes, transaction, unit, pdu)
  {
    if Begins(bytes, transaction, unit, pdu) {
      BeginsMeans(bytes, transaction, unit, pdu);
    }
    if ParseResponse(transaction, unit, function', bytes) == Good(pdu) {
      BeginsWithFrame(bytes);
    }
  }

  // -------------------------------------------------------------- PDUs

  function High(n: uint16): byte {
    n / 0x100
  }

  function Low(n: uint16): byte {
    n % 0x100
  }

  /** The requests of sections 6.3, 6.6 and 6.16 as bytes. */
  lemma RequestsOnTheWire(address: uint16, n: uint16, m: uint16)
    ensures ReadPdu(address, n) == [0x03, High(address), Low(address), High(n), Low(n)]
    ensures SinglePdu(address, n) == [0x06, High(address), Low(address), High(n), Low(n)]
    ensures MaskPdu(address, n, m) == [0x16, High(address), Low(address), High(n), Low(n), High(m), Low(m)]
  {
  }

  /** The words of a request or response: high byte first, in order. */
  lemma WordsOnTheWire(words: seq<uint16>, i: nat)
    requires i < |words|
    ensures PutWords(words)[2 * i] == High(words[i]) && PutWords(words)[2 * i + 1] == Low(words[i])
  {
    var bytes := PutWords(words);
    assert Get16(bytes, 2 * i) == words[i];
    BytesOfWord(bytes[2 * i], bytes[2 * i + 1], words[i]);
  }

  lemma BytesOfWord(high: byte, low: byte, w: uint16)
    requires BigEndian(high, low) == w
    ensures high == High(w) && low == Low(w)
  {
  }

  /** Section 6.12. */
  lemma MultipleOnTheWire(address: uint16, values: seq<uint16>)
    requires |values| <= MAX_WRITE
    ensures MultiplePdu(address, values) ==
            [0x10, High(address), Low(address), High(|values|), Low(|values|), 2 * |values|] + PutWords(values)
  {
    Assembled(0x10, Put16(address), Put16(|values|), 2 * |values|, PutWords(values));
  }

  lemma Assembled(f: byte, a: Bytes, n: Bytes, size: byte, tail: Bytes)
    requires |a| == |n| == 2
    ensures [f] + a + n + [size] + tail == [f, a[0], a[1], n[0], n[1], size] + tail
  {
    assert [f] + a + n + [size] == [f, a[0], a[1], n[0], n[1], size];
  }

  // -------------------------------------------------------------- the simulator's answers

  function Flag(f: byte): byte {
    if f < 0x80 then f + 0x80 else f
  }

  /** The requests the simulator refuses, and how: by function, by length, by count, by range. It changes nothing. */
  lemma SimulatorRefuses(unit: byte, mem: Memory, pdu: Bytes)
    requires |mem| == REGISTERS && pdu != []
    ensures var h := Handle(Simulator(unit), mem, pdu);
            && (pdu[0] != 0x03 && pdu[0] != 0x16 ==> h == Handling(mem, [Flag(pdu[0]), 1]))
            && (pdu[0] == 0x16 && |pdu| != 7 ==> h == Handling(mem, [0x96, 3]))
            && (pdu[0] == 0x03 && |pdu| != 5 ==> h == Handling(mem, [0x83, 3]))
            && (pdu[0] == 0x03 && |pdu| == 5 ==>
                  var address: int, count: int := Get16(pdu, 1), Get16(pdu, 3);
                  && (count == 0 || count > 125 ==> h == Handling(mem, [0x83, 3]))
                  && (1 <= count <= 125 && address + count > 65536 ==> h == Handling(mem, [0x83, 2])))
  {
  }

  /** The requests it serves: a reading answers the words, a mask write changes one register by the AND and OR masks and is echoed. */
  lemma SimulatorServes(unit: byte, mem: Memory, address: uint16, n: uint16, m: uint16, i: nat)
    requires |mem| == REGISTERS && i < 16
    ensures 1 <= n <= 125 && address + n <= 65536 ==>
      Handle(Simulator(unit), mem, ReadPdu(address, n)) == Handling(mem, [0x03, 2 * n] + PutWords(mem[address..address + n]))
    ensures var h := Handle(Simulator(unit), mem, MaskPdu(address, n, m));
            && h.response == MaskPdu(address, n, m)
            && (forall a :: 0 <= a < REGISTERS && a != address ==> h.memory[a] == mem[a])
            && (BitOf(h.memory[address], i) <==> if BitOf(n, i) then BitOf(mem[address], i) else BitOf(m, i))
  {
    ReadPduFields(address, n);
    MaskPduFields(address, n, m);
    MaskedBits(mem[address], n, m, i);
  }
}
