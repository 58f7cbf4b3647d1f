/** Bytes, little-endian words and the checksum parameter shared by the journal modules. */
module Bytes {

  type Byte = x: int | 0 <= x < 256

  type Digest = s: seq<Byte> | |s| == 32 witness seq(32, _ => 0)

  /** BLAKE3 as an arbitrary function to 32 bytes. No collision freedom is ever needed. */
  type Hasher = seq<Byte> -> Digest

  const U64_MAX: nat := 0xFFFF_FFFF_FFFF_FFFF

  function Pow256(width: nat): (r: nat)
    ensures r > 0
  {
    if width == 0 then 1 else 256 * Pow256(width - 1)
  }

  function LeBytes(value: nat, width: nat): (r: seq<Byte>)
    ensures |r| == width
  {
    if width == 0 then [] else [value % 256] + LeBytes(value / 256, width - 1)
  }

  function LeValue(bytes: seq<Byte>): (r: nat) {
    if bytes == [] then 0 else bytes[0] + 256 * LeValue(bytes[1..])
  }

  /** Printing then reading a word that fits its width returns the word. */
  lemma {:induction false} LeRoundTrip(value: nat, width: nat)
    requires value < Pow256(width)
    ensures LeValue(LeBytes(value, width)) == value
  {
    if width > 0 {
      LeRoundTrip(value / 256, width - 1);
      assert LeBytes(value, width)[1..] == LeBytes(value / 256, width - 1);
    }
  }

  /** Reading then printing any bytes returns the bytes: the encoding is canonical. */
  lemma {:induction false} LeCanonical(bytes: seq<Byte>)
    ensures LeValue(bytes) < Pow256(|bytes|)
    ensures LeBytes(LeValue(bytes), |bytes|) == bytes
  {
    if bytes != [] {
      LeCanonical(bytes[1..]);
      var rest := LeValue(bytes[1..]);
      assert (bytes[0] + 256 * rest) % 256 == bytes[0];
      assert (bytes[0] + 256 * rest) / 256 == rest;
      assert bytes == [bytes[0]] + bytes[1..];
    }
  }

  const WORD_BYTES: nat := 8

  function Le64(value: nat): (r: seq<Byte>)
    ensures |r| == 8
  {
    LeBytes(value, WORD_BYTES)
  }

  lemma Pow256Of8()
    ensures Pow256(8) == U64_MAX + 1
  {
    assert Pow256(4) == 0x1_0000_0000;
    assert Pow256(6) == 0x1_0000_0000_0000;
  }

  /** The little-endian word at an offset. */
  function Word(bytes: seq<Byte>, offset: nat): (r: nat)
    requires offset + 8 <= |bytes|
  {
    LeValue(bytes[offset..offset + 8])
  }

  /** A word read at an offset is `value` exactly when the eight bytes there are its encoding. */
  lemma WordIs(bytes: seq<Byte>, offset: nat, value: nat)
    requires offset + 8 <= |bytes|
    requires value <= U64_MAX
    ensures Word(bytes, offset) == value <==> bytes[offset..offset + 8] == Le64(value)
  {
    Pow256Of8();
    LeRoundTrip(value, 8);
    LeCanonical(bytes[offset..offset + 8]);
  }

  lemma WordBound(bytes: seq<Byte>, offset: nat)
    requires offset + 8 <= |bytes|
    ensures Word(bytes, offset) <= U64_MAX
  {
    Pow256Of8();
    LeCanonical(bytes[offset..offset + 8]);
  }
}
