/** Bytes, fixed-width integers and big-endian encodings. */
module ByteStrings {
  type Byte = b: int | 0 <= b < 0x100 witness 0

  type Bytes = seq<Byte>

  const U16_MAX := 0xFFFF
  const U32_MAX := 0xFFFF_FFFF
  const U64_MAX := 0xFFFF_FFFF_FFFF_FFFF

  type U16 = n: nat | n <= U16_MAX
  type U32 = n: nat | n <= U32_MAX
  type U64 = n: nat | n <= U64_MAX

  function Min(a: int, b: int): int {
    if a <= b then a else b
  }

  function Max(a: int, b: int): int {
    if a >= b then a else b
  }

  /** The number of distinct values a big-endian field of this width holds. */
  function Span(width: nat): (n: nat)
    ensures n >= 1
  {
    if width == 0 then 1 else 0x100 * Span(width - 1)
  }

  function BigEndian(value: nat, width: nat): (bytes: Bytes)
    requires value < Span(width)
    ensures |bytes| == width
  {
    if width == 0 then [] else BigEndian(value / 0x100, width - 1) + [value % 0x100]
  }

  function FromBigEndian(bytes: Bytes): (value: nat)
    ensures value < Span(|bytes|)
  {
    if bytes == [] then 0
    else 0x100 * FromBigEndian(bytes[..|bytes| - 1]) + bytes[|bytes| - 1]
  }

  lemma {:induction false} DecodesEncoded(value: nat, width: nat)
    requires value < Span(width)
    ensures FromBigEndian(BigEndian(value, width)) == value
  {
    if width > 0 {
      DecodesEncoded(value / 0x100, width - 1);
      assert BigEndian(value, width)[..width - 1] == BigEndian(value / 0x100, width - 1);
    }
  }

  lemma {:induction false} EncodesDecoded(bytes: Bytes)
    ensures BigEndian(FromBigEndian(bytes), |bytes|) == bytes
  {
    if bytes != [] {
      EncodesDecoded(bytes[..|bytes| - 1]);
      assert bytes == bytes[..|bytes| - 1] + [bytes[|bytes| - 1]];
    }
  }

  lemma SpanOfWords()
    ensures Span(1) == 0x100 && Span(2) == U16_MAX + 1
    ensures Span(4) == U32_MAX + 1 && Span(8) == U64_MAX + 1
  {
    assert Span(3) == 0x100_0000 && Span(5) == 0x100_0000_0000;
    assert Span(6) == 0x1_0000_0000_0000 && Span(7) == 0x100_0000_0000_0000;
  }

  /** The concatenation of a list of byte strings. */
  function Joined(chunks: seq<Bytes>): Bytes
  {
    if chunks == [] then [] else Joined(chunks[..|chunks| - 1]) + chunks[|chunks| - 1]
  }

  lemma {:induction false} JoinedAppends(chunks: seq<Bytes>, more: seq<Bytes>)
    ensures Joined(chunks + more) == Joined(chunks) + Joined(more)
    decreases |more|
  {
    if more == [] {
      assert chunks + more == chunks;
    } else {
      var n := |more| - 1;
      assert (chunks + more)[..|chunks| + n] == chunks + more[..n];
      JoinedAppends(chunks, more[..n]);
    }
  }
}
