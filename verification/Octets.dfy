/** Bytes and 16-bit words, and the big-endian coding both protocols use. */
module Octets {

  type byte = x: int | 0 <= x < 0x100

  type Bytes = seq<byte>

  type uint16 = x: int | 0 <= x < 0x1_0000

  function BigEndian(high: byte, low: byte): uint16 {
    var h: int, l: int := high, low;
    h * 0x100 + l
  }

  function Put16(n: uint16): (r: Bytes)
    ensures |r| == 2 && BigEndian(r[0], r[1]) == n
  {
    [n / 0x100, n % 0x100]
  }

  /** The word at position `at`. */
  function Get16(b: Bytes, at: nat): uint16
    requires at + 2 <= |b|
  {
    BigEndian(b[at], b[at + 1])
  }

  function PutWords(words: seq<uint16>): (r: Bytes)
    ensures |r| == 2 * |words|
    ensures forall i :: 0 <= i < |words| ==> Get16(r, 2 * i) == words[i]
  {
    if words == [] then []
    else
      var r := PutWords(words[..|words| - 1]) + Put16(words[|words| - 1]);
      assert forall i :: 0 <= i < |words| - 1 ==> Get16(r, 2 * i) == Get16(PutWords(words[..|words| - 1]), 2 * i);
      r
  }
}
