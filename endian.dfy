/**
 * Network-byte-order integers (ReadBigEndian / WriteBigEndian and their
 * snake_case twins read_big_endian / write_big_endian).
 *
 * The C++ templates are instantiated for the unsigned types of 1, 2, 4 and
 * 8 bytes; here sizeof(T) is the parameter width (any width works the same
 * way) and a value of type T is a natural number below 256^width.
 */
module Endian {
  import opened Types

  /** 256^n, the number of values an n-byte unsigned integer can hold. */
  function Pow256(n: nat): (r: nat)
    ensures r > 0
  {
    if n == 0 then 1 else 256 * Pow256(n - 1)
  }

  /**
   * The big-endian value of a byte string: the sum of s[i] * 256^(|s|-1-i),
   * built by taking everything but the last byte, shifting it up by one
   * byte and adding the last byte.
   */
  function BeValue(s: seq<byte>): (v: nat)
    ensures v < Pow256(|s|)
  {
    if |s| == 0 then 0 else BeValue(s[..|s| - 1]) * 256 + s[|s| - 1]
  }

  /** The n bytes that hold v in network byte order. */
  function BeBytes(v: nat, n: nat): (s: seq<byte>)
    requires v < Pow256(n)
    ensures |s| == n
    ensures BeValue(s) == v
  {
    if n == 0 then [] else BeBytes(v / 256, n - 1) + [v % 256]
  }

  /** Decoding then re-encoding a window gives back the same bytes. */
  lemma {:induction false} BeBytesOfValue(s: seq<byte>)
    ensures BeBytes(BeValue(s), |s|) == s
  {
    if |s| > 0 {
      var init := s[..|s| - 1];
      BeBytesOfValue(init);
      assert BeValue(s) / 256 == BeValue(init);
      assert BeValue(s) % 256 == s[|s| - 1];
      assert s == init + [s[|s| - 1]];
    }
  }

  /** Two windows of equal length with the same value are the same bytes. */
  lemma BeValueInjective(s: seq<byte>, t: seq<byte>)
    requires |s| == |t| && BeValue(s) == BeValue(t)
    ensures s == t
  {
    BeBytesOfValue(s);
    BeBytesOfValue(t);
  }

  /**
   * Most significant byte first: the first byte of a window weighs
   * 256^(|s|-1) and the rest is the value of the remaining bytes.
   */
  lemma {:induction false} BeValueLeadingByte(b: byte, s: seq<byte>)
    ensures BeValue([b] + s) == b * Pow256(|s|) + BeValue(s)
  {
    if |s| > 0 {
      var t := [b] + s;
      var init := s[..|s| - 1];
      assert t[..|t| - 1] == [b] + init;
      BeValueLeadingByte(b, init);
      calc {
        BeValue(t);
        BeValue([b] + init) * 256 + s[|s| - 1];
        (b * Pow256(|init|) + BeValue(init)) * 256 + s[|s| - 1];
        { assert (b * Pow256(|init|)) * 256 == b * (256 * Pow256(|init|)); }
        b * Pow256(|s|) + (BeValue(init) * 256 + s[|s| - 1]);
      }
    }
  }

  /** A 1-byte type is stored unchanged: its encoding is the value itself. */
  lemma SingleByteUnchanged(v: byte)
    ensures BeBytes(v, 1) == [v]
    ensures BeValue([v]) == v
  {
  }

  /**
   * Reads sizeof(T) == width bytes at offset as a big-endian unsigned
   * integer. Each step shifts the accumulator left by 8 bits and ORs in the
   * next byte; the accumulator never holds more than 8 * (width - 1) bits
   * before the shift, so neither operation loses a bit and the pair is
   * exactly "times 256 plus the byte".
   */
  method ReadBigEndian(buf: array<byte>, offset: nat, width: nat) returns (v: nat)
    requires offset + width <= buf.Length
    ensures v == BeValue(buf[offset..offset + width])
    ensures v < Pow256(width)
  {
    v := 0;
    var i := 0;
    while i < width
      invariant 0 <= i <= width
      invariant v == BeValue(buf[offset..offset + i])
    {
      assert buf[offset..offset + i + 1][..i] == buf[offset..offset + i];
      v := v * 256 + buf[offset + i];
      i := i + 1;
    }
  }

  /** Shifting a big-endian value right by one byte drops its last byte. */
  lemma BeValueDropLast(s: seq<byte>)
    requires |s| > 0
    ensures BeValue(s) / 256 == BeValue(s[..|s| - 1])
    ensures BeValue(s) % 256 == s[|s| - 1]
  {
  }

  /**
   * Writes value as sizeof(T) == width bytes at offset, most significant
   * byte at offset and least significant at offset + width - 1: the loop
   * fills the window from its end, taking the low byte of the register and
   * shifting the register right by 8 bits each time. Bytes outside the
   * window keep their values.
   */
  method WriteBigEndian(buf: array<byte>, offset: nat, width: nat, value: nat)
    requires offset + width <= buf.Length
    requires value < Pow256(width)
    modifies buf
    ensures buf[offset..offset + width] == BeBytes(value, width)
    ensures forall k | 0 <= k < buf.Length && !(offset <= k < offset + width) :: buf[k] == old(buf[k])
  {
    ghost var enc := BeBytes(value, width);
    var rest := value;
    var i := 0;
    assert enc[..width] == enc;
    while i < width
      invariant 0 <= i <= width
      invariant rest == BeValue(enc[..width - i])
      invariant forall k | width - i <= k < width :: buf[offset + k] == enc[k]
      invariant forall k | 0 <= k < buf.Length && !(offset + width - i <= k < offset + width) :: buf[k] == old(buf[k])
    {
      BeValueDropLast(enc[..width - i]);
      assert enc[..width - i][..width - i - 1] == enc[..width - i - 1];
      buf[offset + width - i - 1] := rest % 256;
      rest := rest / 256;
      i := i + 1;
    }
    assert forall k | 0 <= k < width :: buf[offset..offset + width][k] == enc[k];
  }

  /**
   * Reading a window just written returns the value written, and the
   * bytes outside the window are the ones that were there before.
   */
  method WriteThenRead(buf: array<byte>, offset: nat, width: nat, value: nat) returns (v: nat)
    requires offset + width <= buf.Length
    requires value < Pow256(width)
    modifies buf
    ensures v == value
    ensures forall k | 0 <= k < buf.Length && !(offset <= k < offset + width) :: buf[k] == old(buf[k])
  {
    WriteBigEndian(buf, offset, width, value);
    v := ReadBigEndian(buf, offset, width);
  }
}
