/** UTF-8 (section 3 of RFC 3629) and its character boundaries. */
module Utf8 {
  import opened ByteStrings

  function EncodeChar(c: char): (bytes: Bytes)
    ensures 1 <= |bytes| <= 4
  {
    var code := c as int;
    if code < 0x80 then [code]
    else if code < 0x800 then [0xC0 + code / 0x40, 0x80 + code % 0x40]
    else if code < 0x1_0000 then [0xE0 + code / 0x1000, 0x80 + code / 0x40 % 0x40, 0x80 + code % 0x40]
    else [0xF0 + code / 0x4_0000, 0x80 + code / 0x1000 % 0x40, 0x80 + code / 0x40 % 0x40, 0x80 + code % 0x40]
  }

  function Encode(s: string): Bytes {
    if s == "" then [] else EncodeChar(s[0]) + Encode(s[1..])
  }

  ghost predicate Valid(bytes: Bytes) {
    exists s: string :: bytes == Encode(s)
  }

  predicate IsContinuation(b: Byte) {
    0x80 <= b < 0xC0
  }

  /** Where a text may be cut: at either end, or before a byte that starts a character. */
  predicate IsBoundary(bytes: Bytes, i: nat) {
    i == 0 || i == |bytes| || (i < |bytes| && !IsContinuation(bytes[i]))
  }

  lemma {:induction false} EncodeAppends(a: string, b: string)
    ensures Encode(a + b) == Encode(a) + Encode(b)
  {
    if a == "" {
      assert a + b == b;
    } else {
      assert (a + b)[1..] == a[1..] + b;
      EncodeAppends(a[1..], b);
    }
  }

  lemma CharStartsOnce(c: char)
    ensures !IsContinuation(EncodeChar(c)[0])
    ensures forall i :: 1 <= i < |EncodeChar(c)| ==> IsContinuation(EncodeChar(c)[i])
  {
  }

  lemma CutAfter(a: Bytes, b: Bytes, i: nat)
    requires |a| <= i <= |a| + |b|
    ensures (a + b)[..i] == a + b[..i - |a|] && (a + b)[i..] == b[i - |a|..]
  {
  }

  /** A boundary does not lie inside the first character. */
  lemma BoundaryClearsFirst(c: char, rest: Bytes, i: nat)
    requires 0 < i <= |EncodeChar(c) + rest| && IsBoundary(EncodeChar(c) + rest, i)
    ensures |EncodeChar(c)| <= i && IsBoundary(rest, i - |EncodeChar(c)|)
  {
    var first := EncodeChar(c);
    CharStartsOnce(c);
    assert (first + rest)[..|first|] == first;
    assert i >= |first|;
  }

  /** Every boundary of an encoded text separates whole characters. */
  lemma {:induction false} BoundarySplitsText(s: string, i: nat) returns (k: nat)
    requires i <= |Encode(s)| && IsBoundary(Encode(s), i)
    ensures k <= |s| && Encode(s)[..i] == Encode(s[..k]) && Encode(s)[i..] == Encode(s[k..])
  {
    if i == 0 {
      k := 0;
      assert s[k..] == s;
    } else {
      var first, rest := EncodeChar(s[0]), Encode(s[1..]);
      BoundaryClearsFirst(s[0], rest, i);
      k := BoundarySplitsText(s[1..], i - |first|);
      CutAfter(first, rest, i);
      assert s[..k + 1] == [s[0]] + s[1..][..k] && s[k + 1..] == s[1..][k..];
      k := k + 1;
    }
  }

  /** Conversely, the end of every whole prefix of characters is a boundary. */
  lemma {:induction false} WholePrefixEndsAtBoundary(s: string, k: nat)
    requires k <= |s|
    ensures |Encode(s[..k])| <= |Encode(s)|
    ensures Encode(s)[..|Encode(s[..k])|] == Encode(s[..k])
    ensures IsBoundary(Encode(s), |Encode(s[..k])|)
  {
    assert s == s[..k] + s[k..];
    EncodeAppends(s[..k], s[k..]);
    if k < |s| {
      CharStartsOnce(s[k]);
      assert Encode(s[k..])[0] == EncodeChar(s[k])[0];
    }
  }

  /** Among any four consecutive cut points at least one is a boundary. */
  lemma {:induction false} BoundaryWithinFour(s: string, i: nat)
    requires 3 <= i < |Encode(s)|
    ensures exists j: nat :: i - 3 <= j <= i && IsBoundary(Encode(s), j)
  {
    var first := EncodeChar(s[0]);
    CharStartsOnce(s[0]);
    if i < |first| {
      assert IsBoundary(Encode(s), 0);
    } else if i - |first| < 3 {
      var j := |first|;
      if j < |Encode(s)| {
        assert Encode(s)[j] == Encode(s[1..])[0] == EncodeChar(s[1])[0];
        CharStartsOnce(s[1]);
      }
      assert IsBoundary(Encode(s), j);
    } else {
      BoundaryWithinFour(s[1..], i - |first|);
      var j: nat :| i - |first| - 3 <= j <= i - |first| && IsBoundary(Encode(s[1..]), j);
      if j == 0 && s[1..] != "" {
        CharStartsOnce(s[1]);
        assert Encode(s[1..])[0] == EncodeChar(s[1])[0];
      }
      assert j < |Encode(s[1..])| ==> Encode(s)[j + |first|] == Encode(s[1..])[j];
      assert IsBoundary(Encode(s), j + |first|);
    }
  }
}
