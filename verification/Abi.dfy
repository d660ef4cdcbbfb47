/** Words and strings in event data, as the Solidity Contract ABI lays them out.

The decoder does its bounds checks on 64-bit words, so they can wrap. The encoding of a string
decodes to that string, and slicing goes out of range exactly when a wrapped sum passes a check.
*/
module Abi {
  import opened Rows

  type Byte = n: nat | n < 256

  /** Big-endian value of a byte string. */
  function BigEndian(bs: seq<Byte>): nat {
    if bs == [] then 0 else 256 * BigEndian(bs[..|bs| - 1]) + bs[|bs| - 1]
  }

  function Pow256(w: nat): (p: nat)
    ensures p > 0
  {
    if w == 0 then 1 else 256 * Pow256(w - 1)
  }

  /** `w` bytes holding a number, most significant first. */
  function WordBytes(n: nat, w: nat): (bs: seq<Byte>)
    ensures |bs| == w
  {
    if w == 0 then [] else WordBytes(n / 256, w - 1) + [n % 256]
  }

  lemma {:induction false} WordValue(n: nat, w: nat)
    requires n < Pow256(w)
    ensures BigEndian(WordBytes(n, w)) == n
  {
    if w > 0 {
      WordValue(n / 256, w - 1);
      assert WordBytes(n, w)[..w - 1] == WordBytes(n / 256, w - 1);
    }
  }

  /** The first byte is the most significant. */
  lemma {:induction false} BigEndianConcat(u: seq<Byte>, v: seq<Byte>)
    ensures BigEndian(u + v) == BigEndian(u) * Pow256(|v|) + BigEndian(v)
  {
    if v == [] {
      assert u + v == u;
    } else {
      var init, b := v[..|v| - 1], v[|v| - 1];
      BigEndianConcat(u, init);
      assert (u + v)[..|u + v| - 1] == u + init;
      Shifted(BigEndian(u), Pow256(|init|), BigEndian(init), b);
    }
  }

  lemma Shifted(x: nat, p: nat, y: nat, b: nat)
    ensures 256 * (x * p + y) + b == x * (256 * p) + (256 * y + b)
  {
  }

  /** Numbers that fit into a word. */
  const WORDS := Pow256(32)

  lemma {:induction false} Pow256Grows(v: nat, w: nat)
    requires v <= w
    ensures Pow256(v) <= Pow256(w)
  {
    if v < w { Pow256Grows(v, w - 1); }
  }

  lemma LongWords()
    ensures TWO64 <= WORDS
  {
    assert Pow256(8) == TWO64;
    Pow256Grows(8, 32);
  }

  lemma {:induction false} Word64(n: nat)
    requires n < TWO64
    ensures BigEndian(WordBytes(n, 32)) == n
  {
    LongWords();
    WordValue(n, 32);
  }

  /** Taking `data[lo:hi]`: out of range is a run-time failure. */
  function Slice(data: seq<Byte>, lo: nat, hi: nat): Option<seq<Byte>> {
    if lo <= hi <= |data| then Some(data[lo..hi]) else None
  }

  datatype Decoded = Rejected | OutOfRange | Text(text: seq<Byte>)

  function Offset(data: seq<Byte>): nat requires |data| >= 32 { BigEndian(data[..32]) % TWO64 }

  /** Reads a string: offset word, length word at the offset, bytes after it. Sums wrap. */
  function DecodeString(data: seq<Byte>): Decoded {
    if |data| < 64 then Rejected
    else
      var offset := Offset(data);
      if (offset + 32) % TWO64 > |data| then Rejected
      else
        match Slice(data, offset, (offset + 32) % TWO64)
        case None => OutOfRange
        case Some(word) =>
          var length := BigEndian(word) % TWO64;
          var end := (offset + 32 + length) % TWO64;
          if end > |data| then Rejected
          else
            match Slice(data, (offset + 32) % TWO64, end)
            case None => OutOfRange
            case Some(text) => Text(text)
  }

  /** A string as a single dynamic argument: offset 32, length, bytes, zero padding. */
  function EncodeString(s: seq<Byte>): seq<Byte> {
    WordBytes(32, 32) + WordBytes(|s|, 32) + s + seq((32 - |s| % 32) % 32, _ => 0)
  }

  lemma DecodeAt32(data: seq<Byte>, n: nat)
    requires 64 + n <= |data| && 64 + n < TWO64
    requires BigEndian(data[..32]) == 32 && BigEndian(data[32..64]) == n
    ensures DecodeString(data) == Text(data[64..64 + n])
  {
  }

  /** Decoding the encoding of any string gives the string back. */
  lemma StringRoundTrip(s: seq<Byte>)
    requires |s| + 64 < TWO64
    ensures DecodeString(EncodeString(s)) == Text(s)
  {
    var tail := seq((32 - |s| % 32) % 32, _ => 0);
    Layout(WordBytes(32, 32), WordBytes(|s|, 32), s, tail);
    Word64(32);
    Word64(|s|);
    DecodeAt32(EncodeString(s), |s|);
  }

  lemma Layout(u: seq<Byte>, v: seq<Byte>, s: seq<Byte>, tail: seq<Byte>)
    requires |u| == |v| == 32
    ensures var data := u + v + s + tail;
      data[..32] == u && data[32..64] == v && data[64..64 + |s|] == s
  {
  }

  /** The exact inputs on which a slice is taken out of range: the offset sum wraps, or the length
      word is readable and the end sum wraps. */
  lemma OutOfRangeExactly(data: seq<Byte>)
    requires |data| < TWO64
    ensures DecodeString(data) == OutOfRange <==>
      |data| >= 64 &&
      (Offset(data) + 32 >= TWO64 ||
       (Offset(data) + 32 <= |data| &&
        Offset(data) + 32 + BigEndian(data[Offset(data)..Offset(data) + 32]) % TWO64 >= TWO64))
  {
    if |data| >= 64 {
      var offset := Offset(data);
      if offset + 32 < TWO64 && offset + 32 <= |data| {
        assert Slice(data, offset, offset + 32) == Some(data[offset..offset + 32]);
      }
    }
  }

  /** Without wrapping, whatever is not rejected is the announced part of the data. */
  lemma DecodedInRange(data: seq<Byte>)
    requires |data| < TWO64 && DecodeString(data).Text?
    ensures var o := Offset(data);
      && o + 32 <= |data|
      && var n := BigEndian(data[o..o + 32]) % TWO64;
         o + 32 + n <= |data| && DecodeString(data).text == data[o + 32..o + 32 + n]
  {
    var o := Offset(data);
    assert o + 32 < TWO64;
    var n := BigEndian(data[o..o + 32]) % TWO64;
    if o + 32 + n >= TWO64 { OutOfRangeExactly(data); }
  }
}
