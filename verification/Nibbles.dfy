/** Two int4 codes to a byte, and back. */
module Nibbles {

  function PackByte(low: bv8, high: bv8): bv8 { low | (high << 4) }

  function LowNibble(byte: bv8): bv8 { byte & 0xF }

  function HighNibble(byte: bv8): bv8 { byte >> 4 }

  lemma ByteRoundTrip(low: bv8, high: bv8)
    requires low < 16 && high < 16
    ensures LowNibble(PackByte(low, high)) == low && HighNibble(PackByte(low, high)) == high
  {}

  /** Even positions in the low nibbles, odd positions in the high ones. */
  function Pack(codes: seq<bv8>): (r: seq<bv8>)
    requires |codes| % 2 == 0
    ensures |r| == |codes| / 2
  {
    seq(|codes| / 2, j requires 0 <= j < |codes| / 2 => PackByte(codes[2 * j], codes[2 * j + 1]))
  }

  /** Low and high nibble of each byte, stacked and flattened. */
  function Unpack(packed: seq<bv8>): (r: seq<bv8>)
    ensures |r| == 2 * |packed|
  {
    seq(2 * |packed|, i requires 0 <= i < 2 * |packed| =>
      if i % 2 == 0 then LowNibble(packed[i / 2]) else HighNibble(packed[i / 2]))
  }

  /** Unpacking returns every code in order. */
  lemma UnpackPack(codes: seq<bv8>)
    requires |codes| % 2 == 0 && forall i | 0 <= i < |codes| :: codes[i] < 16
    ensures Unpack(Pack(codes)) == codes
  {
    hide PackByte, LowNibble, HighNibble;
    forall i | 0 <= i < |codes|
      ensures Unpack(Pack(codes))[i] == codes[i]
    {
      ByteRoundTrip(codes[i / 2 * 2], codes[i / 2 * 2 + 1]);
    }
  }

  lemma CodeFitsNibble(q: int)
    requires 0 <= q <= 15
    ensures (q as bv8) < 16 && (q as bv8) as int == q
  {}
}
