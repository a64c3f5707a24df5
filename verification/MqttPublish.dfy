/** PUBLISH packets end to end: what one side publishes is what the other side's handler gets. */
module MqttPublish {
  import opened Wrappers
  import opened Mqtt
  import opened Octets

  const PUBLISH: byte := 0x30

  datatype Inbound = Inbound(topic: Bytes, payload: Bytes)

  /** A UTF-8 string field of MQTT: two length bytes, which keep the length modulo 65536, and the text. */
  function MqttString(value: Bytes): Bytes {
    [|value| / 0x100 % 0x100, |value| % 0x100] + value
  }

  /** Topic, an empty property list, and the message. */
  function PublishPayload(topic: Bytes, payload: Bytes): Bytes {
    MqttString(topic) + [0] + payload
  }

  function Handle(header: byte, payload: Bytes): Result<Inbound> {
    if header / 2 % 4 != 0 || header % 2 != 0 || |payload| < 2 then Err("inbound policy")
    else
      var length := BigEndian(payload[0], payload[1]);
      if length == 0 || |payload| < 2 + length then Err("invalid request")
      else
        match Decode(payload[2 + length..], 4)
        case Err(_) => Err("invalid request")
        case Ok(properties) =>
          var start := 2 + length + properties.size;
          if properties.value > |payload| - start then Err("invalid request")
          else Ok(Inbound(payload[2..2 + length], payload[start + properties.value..]))
  }

  method HandlePublish(header: byte, payload: Bytes) returns (r: Result<Inbound>)
    ensures r == Handle(header, payload)
  {
    var qos := header / 2 % 4;
    if qos != 0 || header % 2 != 0 || |payload| < 2 {
      return Err("inbound policy");
    }
    var length := BigEndian(payload[0], payload[1]);
    if length == 0 || |payload| < 2 + length {
      return Err("invalid request");
    }
    var properties := DecodeVariableByteInteger(payload[2 + length..]);
    if properties.Err? || properties.value.value > |payload| - (2 + length + properties.value.size) {
      return Err("invalid request");
    }
    var payloadStart := 2 + length + properties.value.size + properties.value.value;
    r := Ok(Inbound(payload[2..2 + length], payload[payloadStart..]));
  }

  lemma LengthBytes(n: nat)
    ensures BigEndian(n / 0x100 % 0x100, n % 0x100) == n % 0x1_0000
  {
  }

  /** Topic, a property list of any length, and the message, as a peer may send them. */
  function PayloadWith(topic: Bytes, properties: Bytes, payload: Bytes): Bytes {
    MqttString(topic) + Encode(|properties|) + properties + payload
  }

  lemma OwnPayloadsHaveNoProperties(topic: Bytes, payload: Bytes)
    ensures PublishPayload(topic, payload) == PayloadWith(topic, [], payload)
  {
    assert Encode(0) == [0];
  }

  /** A PUBLISH of quality of service 0 that is not retained. */
  predicate Plain(header: byte) {
    header / 2 % 4 == 0 && header % 2 == 0
  }

  /** A payload in the layout of section 3.3: the topic's length and text, the length of the properties in `size`, the properties, the message. */
  predicate Laid(payload: Bytes, topic: Bytes, size: Bytes, properties: Bytes, message: Bytes) {
    && 1 <= |topic| <= 65535
    && payload == [|topic| / 0x100, |topic| % 0x100] + topic + size + properties + message
    && Decode(size, 4) == Ok(Number(|properties|, |size|))
  }

  lemma LaidIsHandled(header: byte, payload: Bytes, topic: Bytes, size: Bytes, properties: Bytes, message: Bytes)
    requires Plain(header) && Laid(payload, topic, size, properties, message)
    ensures Handle(header, payload) == Ok(Inbound(topic, message))
  {
    var n, tail := |topic|, size + (properties + message);
    LengthBytes(n);
    assert payload[2..2 + n] == topic && payload[2 + n..] == tail;
    DecodeIgnoresTheRest(size, 4, properties + message);
    assert payload[2 + n + |size| + |properties|..] == message;
  }

  lemma {:induction false} DecodeTakesItsBytes(s: Bytes, limit: nat)
    requires Decode(s, limit).Ok?
    ensures var n := Decode(s, limit).value.size; Decode(s[..n], limit) == Decode(s, limit)
  {
    if s[0] >= 128 {
      var n := Decode(s, limit).value.size;
      assert s[..n][1..] == s[1..][..n - 1];
      DecodeTakesItsBytes(s[1..], limit - 1);
    }
  }

  lemma TakenApart(payload: Bytes, n: nat, size: nat, properties: nat)
    requires 2 + n + size + properties <= |payload|
    ensures var tail := payload[2 + n..];
            payload == payload[..2] + payload[2..2 + n] + tail[..size] + tail[size..size + properties] + payload[2 + n + size + properties..]
  {
    var tail := payload[2 + n..];
    assert payload == payload[..2] + payload[2..2 + n] + tail;
    assert tail == tail[..size] + tail[size..size + properties] + tail[size + properties..];
  }

  lemma HandledIsLaid(header: byte, payload: Bytes) returns (size: Bytes, properties: Bytes)
    requires Handle(header, payload).Ok?
    ensures var m := Handle(header, payload).value; Plain(header) && Laid(payload, m.topic, size, properties, m.payload)
  {
    var n := BigEndian(payload[0], payload[1]);
    var tail := payload[2 + n..];
    var number := Decode(tail, 4).value;
    DecodeTakesItsBytes(tail, 4);
    size, properties := tail[..number.size], tail[number.size..number.size + number.value];
    TakenApart(payload, n, number.size, number.value);
    assert payload[..2] == [n / 0x100, n % 0x100];
  }

  /** Exactly the plain publications in the layout of section 3.3 are handled, with any property list: topic and message are those of the layout. */
  lemma HandledExactlyWhenLaid(header: byte, payload: Bytes, topic: Bytes, message: Bytes)
    ensures Handle(header, payload) == Ok(Inbound(topic, message)) <==>
            Plain(header) && exists size, properties :: Laid(payload, topic, size, properties, message)
  {
    if Handle(header, payload) == Ok(Inbound(topic, message)) {
      var size, properties := HandledIsLaid(header, payload);
    }
    if size, properties :| Plain(header) && Laid(payload, topic, size, properties, message) {
      LaidIsHandled(header, payload, topic, size, properties, message);
    }
  }

  lemma FittingIsRecovered(topic: Bytes, properties: Bytes, payload: Bytes)
    requires 1 <= |topic| <= 65535 && |properties| < 0x1000_0000
    ensures Handle(PUBLISH, PayloadWith(topic, properties, payload)) == Ok(Inbound(topic, payload))
  {
    var all, size := PayloadWith(topic, properties, payload), Encode(|properties|);
    FourBytes(|properties|);
    DecodeInvertsEncodeExactlyBelow(|properties|, 4, []);
    assert size + [] == size;
    assert all == [|topic| / 0x100, |topic| % 0x100] + topic + size + properties + payload;
    LaidIsHandled(PUBLISH, all, topic, size, properties, payload);
  }

  lemma LongPropertiesAreRefused(topic: Bytes, properties: Bytes, payload: Bytes)
    requires 1 <= |topic| <= 65535 && |properties| >= 0x1000_0000
    ensures Handle(PUBLISH, PayloadWith(topic, properties, payload)).Err?
  {
    var all := PayloadWith(topic, properties, payload);
    LengthBytes(|topic|);
    FourBytes(|properties|);
    DecodeInvertsEncodeExactlyBelow(|properties|, 4, properties + payload);
    assert all[2 + |topic|..] == Encode(|properties|) + (properties + payload);
  }

  /** A publication with any property list is recovered exactly when its topic has 1 to 65535 bytes and its properties fewer than 2^28. */
  lemma PublicationIsRecoveredExactlyWhen(topic: Bytes, properties: Bytes, payload: Bytes)
    ensures Handle(PUBLISH, PayloadWith(topic, properties, payload)) == Ok(Inbound(topic, payload)) <==>
            1 <= |topic| <= 65535 && |properties| < 0x1000_0000
  {
    if !(1 <= |topic| <= 65535) {
      var all := PayloadWith(topic, properties, payload);
      LengthBytes(|topic|);
      assert BigEndian(all[0], all[1]) != |topic| || |topic| == 0;
    } else if |properties| < 0x1000_0000 {
      FittingIsRecovered(topic, properties, payload);
    } else {
      LongPropertiesAreRefused(topic, properties, payload);
    }
  }

  // -------------------------------------------------------------- the reading goroutine

  predicate IsPublish(p: Packet) {
    p.header / 16 == 3
  }

  /** The messages a stream of packets delivers, up to the first PUBLISH that is refused. */
  function Delivered(packets: seq<Packet>): seq<Inbound> {
    if packets == [] then []
    else if !IsPublish(packets[0]) then Delivered(packets[1..])
    else
      match Handle(packets[0].header, packets[0].payload)
      case Err(_) => []
      case Ok(m) => [m] + Delivered(packets[1..])
  }

  /** The reading loop of serve; it ends at the first error. */
  method Serve(c: Connection) returns (messages: seq<Inbound>)
    modifies c`incoming
    ensures messages == Delivered(Packets(old(c.incoming)))
  {
    messages := [];
    while true
      invariant messages + Delivered(Packets(c.incoming)) == Delivered(Packets(old(c.incoming)))
      decreases |c.incoming|
    {
      ghost var rest := Packets(c.incoming);
      var packet := ReadPacket(c);
      if packet.Err? {
        return;
      }
      assert rest == [packet.value] + Packets(c.incoming) && rest[1..] == Packets(c.incoming);
      if packet.value.header / 16 == 3 {
        var m := HandlePublish(packet.value.header, packet.value.payload);
        if m.Err? {
          return;
        }
        messages := messages + [m.value];
      }
    }
  }

  // -------------------------------------------------------------- end to end

  /** What a peer writes: publications, and packets of other types. */
  datatype Sent = Publication(message: Inbound, properties: Bytes) | Other(packet: Packet)

  function PacketOf(s: Sent): Packet {
    match s
    case Publication(m, properties) => Packet(PUBLISH, PayloadWith(m.topic, properties, m.payload))
    case Other(p) => p
  }

  function PacketsOf(sent: seq<Sent>): seq<Packet> {
    if sent == [] then [] else [PacketOf(sent[0])] + PacketsOf(sent[1..])
  }

  function MessagesOf(sent: seq<Sent>): seq<Inbound> {
    if sent == [] then []
    else (if sent[0].Publication? then [sent[0].message] else []) + MessagesOf(sent[1..])
  }

  predicate Sendable(s: Sent) {
    && Readable(PacketOf(s))
    && (s.Publication? ==> 1 <= |s.message.topic| <= 65535)
    && (s.Other? ==> !IsPublish(s.packet))
  }

  /** Every publication is delivered once, in order, whatever else is on the wire. */
  lemma {:induction false} PublicationsAreDelivered(sent: seq<Sent>)
    requires forall i :: 0 <= i < |sent| ==> Sendable(sent[i])
    ensures forall i :: 0 <= i < |PacketsOf(sent)| ==> Readable(PacketsOf(sent)[i])
    ensures Delivered(Packets(Stream(PacketsOf(sent)))) == MessagesOf(sent)
  {
    if sent != [] {
      PublicationsAreDelivered(sent[1..]);
      var packets := PacketsOf(sent);
      StreamIsReadBack(packets);
      StreamIsReadBack(packets[1..]);
      assert packets[1..] == PacketsOf(sent[1..]);
      if sent[0].Publication? {
        PublicationIsRecoveredExactlyWhen(sent[0].message.topic, sent[0].properties, sent[0].message.payload);
      }
    }
  }

  lemma {:induction false} CutDeliveryIsAPrefix(some: seq<Packet>, all: seq<Packet>)
    requires some <= all
    ensures Delivered(some) <= Delivered(all)
  {
    if some != [] {
      CutDeliveryIsAPrefix(some[1..], all[1..]);
    }
  }

  lemma CutStreamsDeliverAPrefix(some: Bytes, rest: Bytes, stream: Bytes)
    requires stream == some + rest
    ensures Delivered(Packets(some)) <= Delivered(Packets(stream))
  {
    CutStreamsYieldAPrefix(some, rest);
    CutDeliveryIsAPrefix(Packets(some), Packets(stream));
  }

  /** If the connection breaks anywhere, the messages delivered are the first ones sent, in order and unaltered. */
  lemma BrokenConnectionsDeliverAPrefix(sent: seq<Sent>, n: nat)
    requires forall i :: 0 <= i < |sent| ==> Sendable(sent[i])
    requires n <= |Stream(PacketsOf(sent))|
    ensures Delivered(Packets(Stream(PacketsOf(sent))[..n])) <= MessagesOf(sent)
  {
    PublicationsAreDelivered(sent);
    var stream := Stream(PacketsOf(sent));
    CutStreamsDeliverAPrefix(stream[..n], stream[n..], stream);
  }
}
