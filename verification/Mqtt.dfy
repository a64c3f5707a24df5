/**
  MQTT 5.0 framing: remaining length (MQTT Version 5.0, section 1.5.5), packets over
  a byte stream that arrives in arbitrary pieces, and PUBLISH payloads (section 3.3).
*/
module Mqtt {
  import opened Octets
  import opened Wrappers

  datatype Packet = Packet(header: byte, payload: Bytes)

  // -------------------------------------------------------------- remaining length

  function Encode(n: nat): (r: Bytes)
    ensures |r| >= 1
  {
    if n < 128 then [n] else [n % 128 + 128] + Encode(n / 128)
  }

  // A decoded number and the bytes it took.
  datatype Number = Number(value: nat, size: nat)

  /** The number at the front of `s`, in at most `limit` bytes. */
  function Decode(s: Bytes, limit: nat): (r: Result<Number>)
    ensures r.Ok? ==> 1 <= r.value.size <= limit && r.value.size <= |s|
  {
    if limit == 0 then Err("MQTT variable byte integer is invalid")
    else if s == [] then Err("MQTT variable byte integer is truncated")
    else if s[0] < 128 then Ok(Number(s[0], 1))
    else
      match Decode(s[1..], limit - 1)
      case Err(e) => Err(e)
      case Ok(rest) => Ok(Number(s[0] - 128 + 128 * rest.value, rest.size + 1))
  }

  /** 128 to the power `k`. */
  function Pow128(k: nat): nat {
    if k == 0 then 1 else 128 * Pow128(k - 1)
  }

  /** The decoder inverts the encoder exactly on the numbers its bytes can hold. */
  lemma {:induction false} DecodeInvertsEncodeExactlyBelow(n: nat, limit: nat, rest: Bytes)
    requires limit >= 1
    ensures n < Pow128(limit) ==> Decode(Encode(n) + rest, limit) == Ok(Number(n, |Encode(n)|))
    ensures n >= Pow128(limit) ==> Decode(Encode(n) + rest, limit).Err?
    decreases limit
  {
    var s := Encode(n) + rest;
    if n >= 128 {
      assert s[1..] == Encode(n / 128) + rest;
      if limit > 1 {
        DecodeInvertsEncodeExactlyBelow(n / 128, limit - 1, rest);
      }
    } else {
      Pow128Positive(limit - 1);
    }
  }

  lemma {:induction false} Pow128Positive(k: nat)
    ensures Pow128(k) >= 1
  {
    if k > 0 {
      Pow128Positive(k - 1);
    }
  }

  lemma DigitSplits(digit: nat, high: nat)
    requires digit < 128
    ensures (digit + 128 * high) / 128 == high
  {
  }

  /** Section 1.5.5: the encoding is the shortest that decodes to its number. */
  lemma {:induction false} EncodingIsMinimal(s: Bytes, limit: nat)
    requires Decode(s, limit).Ok?
    ensures |Encode(Decode(s, limit).value.value)| <= Decode(s, limit).value.size
  {
    if s[0] >= 128 {
      EncodingIsMinimal(s[1..], limit - 1);
      DigitSplits(s[0] - 128, Decode(s[1..], limit - 1).value.value);
    }
  }

  /** `n` divided by 128, `i` times. */
  function Shifted(n: nat, i: nat): nat {
    if i == 0 then n else Shifted(n / 128, i - 1)
  }

  /** Section 1.5.5: the digits to base 128, the lowest first, each but the last with its top bit set. */
  lemma {:induction false} EncodingIsLittleEndian(n: nat, i: nat)
    requires i < |Encode(n)|
    ensures Encode(n)[i] == Shifted(n, i) % 128 + (if i < |Encode(n)| - 1 then 128 else 0)
    ensures i == |Encode(n)| - 1 ==> Shifted(n, i) < 128
    decreases i
  {
    if i > 0 {
      EncodingIsLittleEndian(n / 128, i - 1);
    }
  }

  /** Four bytes hold exactly the numbers below 2^28. */
  lemma FourBytes(n: nat)
    ensures Pow128(4) == 0x1000_0000
    ensures |Encode(n)| <= 4 <==> n < 0x1000_0000
  {
    assert Pow128(4) == 128 * Pow128(3) && Pow128(3) == 128 * Pow128(2) && Pow128(2) == 128 * Pow128(1);
    EncodedSize(n, 4);
  }

  lemma {:induction false} EncodedSize(n: nat, k: nat)
    requires k >= 1
    ensures |Encode(n)| <= k <==> n < Pow128(k)
    decreases k
  {
    if k > 1 && n >= 128 {
      EncodedSize(n / 128, k - 1);
    } else if k > 1 {
      Pow128Positive(k - 1);
    } else {
      assert Pow128(1) == 128 * Pow128(0);
    }
  }

  /** A decode continued after `offset` bytes that contributed `value`. */
  function Continued(rest: Result<Number>, value: nat, multiplier: nat, offset: nat): Result<Number> {
    match rest
    case Err(e) => Err(e)
    case Ok(r) => Ok(Number(value + r.value * multiplier, offset + r.size))
  }

  /** One more digit with its continuation bit set. */
  lemma ContinueOne(s: Bytes, limit: nat, value: nat, multiplier: nat, offset: nat)
    requires limit > 0 && s != [] && s[0] >= 128
    ensures Continued(Decode(s, limit), value, multiplier, offset) ==
            Continued(Decode(s[1..], limit - 1), value + s[0] % 128 * multiplier, multiplier * 128, offset + 1)
  {
    assert s[0] % 128 == s[0] - 128;
    if Decode(s[1..], limit - 1).Ok? {
      var v := Decode(s[1..], limit - 1).value.value;
      Distribute(s[0] - 128, v, multiplier);
    }
  }

  lemma Distribute(digit: nat, high: nat, multiplier: nat)
    ensures (digit + 128 * high) * multiplier == digit * multiplier + high * (multiplier * 128)
  {
  }

  method EncodeRemainingLength(length: nat) returns (encoded: Bytes)
    ensures encoded == Encode(length)
  {
    encoded := [];
    var left := length;
    while true
      invariant encoded + Encode(left) == Encode(length)
      decreases left
    {
      var digit := left % 128;
      left := left / 128;
      if left > 0 {
        digit := digit + 128;
      }
      encoded := encoded + [digit];
      if left == 0 {
        return;
      }
    }
  }

  method DecodeVariableByteInteger(payload: Bytes) returns (r: Result<Number>)
    ensures r == Decode(payload, 4)
  {
    var value: nat, multiplier: nat := 0, 1;
    for offset := 0 to 4
      invariant offset <= |payload|
      invariant Decode(payload, 4) == Continued(Decode(payload[offset..], 4 - offset), value, multiplier, offset)
    {
      if offset >= |payload| {
        return Err("MQTT variable byte integer is truncated");
      }
      var digit := payload[offset];
      if digit < 128 {
        return Ok(Number(value + digit * multiplier, offset + 1));
      }
      ContinueOne(payload[offset..], 4 - offset, value, multiplier, offset);
      assert payload[offset..][1..] == payload[offset + 1..];
      value := value + digit % 128 * multiplier;
      multiplier := multiplier * 128;
    }
    r := Err("MQTT variable byte integer is invalid");
  }

  // -------------------------------------------------------------- packets on a stream

  /** The bytes of one packet. */
  function Framed(p: Packet): Bytes {
    [p.header] + Encode(|p.payload|) + p.payload
  }

  function Stream(packets: seq<Packet>): Bytes {
    if packets == [] then [] else Framed(packets[0]) + Stream(packets[1..])
  }

  /** A packet on the wire: the header byte, the digits of the payload's length, the payload. */
  lemma PacketOnTheWire(p: Packet)
    ensures Framed(p)[0] == p.header && Framed(p)[1..] == Encode(|p.payload|) + p.payload
  {
  }

  datatype Parsed = Parsed(packet: Packet, size: nat)

  /** The packet at the front of a stream, if all of it is there. */
  function Front(stream: Bytes): (r: Result<Parsed>)
    ensures r.Ok? ==> 2 <= r.value.size <= |stream|
  {
    if stream == [] then Err("EOF")
    else
      match Decode(stream[1..], 4)
      case Err(e) => Err(e)
      case Ok(length) =>
        var start := 1 + length.size;
        if |stream| < start + length.value then Err("EOF")
        else Ok(Parsed(Packet(stream[0], stream[start..start + length.value]), start + length.value))
  }

  /** Every whole packet of a stream, up to the first that is cut or malformed. */
  function Packets(stream: Bytes): seq<Packet>
    decreases |stream|
  {
    match Front(stream)
    case Err(_) => []
    case Ok(p) => [p.packet] + Packets(stream[p.size..])
  }

  predicate Readable(p: Packet) {
    |p.payload| < 0x1000_0000
  }

  /** A written packet is read back exactly when its payload is below 2^28 bytes. */
  lemma PacketIsReadBackExactlyWhen(p: Packet, rest: Bytes)
    ensures Front(Framed(p) + rest) == Ok(Parsed(p, |Framed(p)|)) <==> Readable(p)
    ensures !Readable(p) ==> Front(Framed(p) + rest).Err?
  {
    var stream := Framed(p) + rest;
    assert stream[1..] == Encode(|p.payload|) + (p.payload + rest);
    DecodeInvertsEncodeExactlyBelow(|p.payload|, 4, p.payload + rest);
    FourBytes(|p.payload|);
    if Readable(p) {
      var start := 1 + |Encode(|p.payload|)|;
      assert stream[start..start + |p.payload|] == p.payload;
    }
  }

  /** Any sequence of packets is read back exactly, each from where the previous one ended. */
  lemma {:induction false} StreamIsReadBack(packets: seq<Packet>)
    requires forall i :: 0 <= i < |packets| ==> Readable(packets[i])
    ensures Packets(Stream(packets)) == packets
  {
    if packets != [] {
      var p, rest := packets[0], Stream(packets[1..]);
      PacketIsReadBackExactlyWhen(p, rest);
      StreamIsReadBack(packets[1..]);
      assert (Framed(p) + rest)[|Framed(p)|..] == rest;
    }
  }

  lemma {:induction false} DecodeIgnoresTheRest(s: Bytes, limit: nat, rest: Bytes)
    requires Decode(s, limit).Ok?
    ensures Decode(s + rest, limit) == Decode(s, limit)
  {
    if s[0] >= 128 {
      assert (s + rest)[1..] == s[1..] + rest;
      DecodeIgnoresTheRest(s[1..], limit - 1, rest);
    }
  }

  lemma FrontIgnoresTheRest(s: Bytes, rest: Bytes)
    requires Front(s).Ok?
    ensures Front(s + rest) == Front(s)
  {
    assert (s + rest)[1..] == s[1..] + rest;
    DecodeIgnoresTheRest(s[1..], 4, rest);
    var p := Front(s).value;
    var start := 1 + Decode(s[1..], 4).value.size;
    assert (s + rest)[start..p.size] == s[start..p.size];
  }

  /** A stream cut anywhere yields the packets that are whole and nothing else. */
  lemma {:induction false} CutStreamsYieldAPrefix(s: Bytes, rest: Bytes)
    ensures Packets(s) <= Packets(s + rest)
    decreases |s|
  {
    if Front(s).Ok? {
      var size := Front(s).value.size;
      FrontIgnoresTheRest(s, rest);
      assert (s + rest)[size..] == s[size..] + rest;
      CutStreamsYieldAPrefix(s[size..], rest);
    }
  }

  // -------------------------------------------------------------- the connection

  class Connection {
    var incoming: Bytes   // what the peer sent and Read has not returned
    var outgoing: Bytes

    constructor (incoming: Bytes)
      ensures this.incoming == incoming && outgoing == []
    {
      this.incoming := incoming;
      outgoing := [];
    }

    /** Read: some of the bytes that are there, in a piece of any size; an error once there are none. */
    method Read(max: nat) returns (r: Result<Bytes>)
      requires max > 0
      modifies this`incoming
      ensures r.Ok? <==> old(incoming) != []
      ensures r.Ok? ==> 1 <= |r.value| <= max && r.value + incoming == old(incoming)
    {
      if incoming == [] {
        return Err("EOF");
      }
      var n :| 1 <= n <= max && n <= |incoming|;
      r := Ok(incoming[..n]);
      incoming := incoming[n..];
    }

    /** Write: everything, or an error after any part of it. */
    method Write(data: Bytes, broken: bool) returns (ok: bool)
      modifies this`outgoing
      ensures ok == !broken
      ensures if ok then outgoing == old(outgoing) + data else old(outgoing) <= outgoing <= old(outgoing) + data
    {
      if broken {
        var n :| 0 <= n <= |data|;
        outgoing := outgoing + data[..n];
        return false;
      }
      outgoing := outgoing + data;
      ok := true;
    }
  }

  method WritePacket(c: Connection, header: byte, payload: Bytes, broken: bool) returns (ok: bool)
    modifies c`outgoing
    ensures ok == !broken
    ensures ok ==> c.outgoing == old(c.outgoing) + Framed(Packet(header, payload))
    ensures !ok ==> old(c.outgoing) <= c.outgoing <= old(c.outgoing) + Framed(Packet(header, payload))
  {
    var length := EncodeRemainingLength(|payload|);
    var packet := [header] + length;
    packet := packet + payload;
    ok := c.Write(packet, broken);
  }

  /** The loop that fills the payload piece by piece. */
  method ReadPayload(c: Connection, length: nat) returns (r: Result<Bytes>)
    modifies c`incoming
    ensures r.Ok? <==> length <= |old(c.incoming)|
    ensures r.Ok? ==> r.value == old(c.incoming)[..length] && c.incoming == old(c.incoming)[length..]
  {
    var payload: Bytes := [];
    while |payload| < length
      invariant |payload| <= length && payload + c.incoming == old(c.incoming)
      decreases length - |payload|
    {
      var piece := c.Read(length - |payload|);
      if piece.Err? {
        return Err(piece.error);
      }
      payload := payload + piece.value;
    }
    r := Ok(payload);
  }

  /** The length loop of readPacket, one byte a turn. */
  method ReadLength(c: Connection) returns (r: Result<nat>)
    modifies c`incoming
    ensures r.Ok? <==> Decode(old(c.incoming), 4).Ok?
    ensures r.Ok? ==> r.value == Decode(old(c.incoming), 4).value.value
    ensures r.Ok? ==> c.incoming == old(c.incoming)[Decode(old(c.incoming), 4).value.size..]
  {
    ghost var stream := c.incoming;
    var length: nat, multiplier: nat := 0, 1;
    for count := 0 to 4
      invariant count <= |stream| && c.incoming == stream[count..]
      invariant Decode(stream, 4) == Continued(Decode(c.incoming, 4 - count), length, multiplier, count)
    {
      ghost var left := c.incoming;
      var digit := c.Read(1);
      if digit.Err? {
        return Err(digit.error);
      }
      var d := digit.value[0];
      assert left == [d] + c.incoming && left[1..] == c.incoming;
      if d < 128 {
        return Ok(length + d * multiplier);
      }
      ContinueOne(left, 4 - count, length, multiplier, count);
      length := length + d % 128 * multiplier;
      multiplier := multiplier * 128;
    }
    r := Err("MQTT remaining length is invalid");
  }

  /** Reads one packet, however the stream is cut into pieces. */
  method ReadPacket(c: Connection) returns (r: Result<Packet>)
    modifies c`incoming
    ensures r.Ok? <==> Front(old(c.incoming)).Ok?
    ensures r.Ok? ==> r.value == Front(old(c.incoming)).value.packet
    ensures r.Ok? ==> c.incoming == old(c.incoming)[Front(old(c.incoming)).value.size..]
  {
    ghost var stream := c.incoming;
    var first := c.Read(1);
    if first.Err? {
      return Err(first.error);
    }
    assert stream == first.value + c.incoming && stream[1..] == c.incoming && stream[0] == first.value[0];
    var length := ReadLength(c);
    if length.Err? {
      return Err(length.error);
    }
    var payload := ReadPayload(c, length.value);
    if payload.Err? {
      return Err(payload.error);
    }
    r := Ok(Packet(first.value[0], payload.value));
  }
}
