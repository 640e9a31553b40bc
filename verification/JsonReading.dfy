/** Compact JSON text can be read back: where each value ends is clear from its bytes. */
module JsonReading {
  import opened ByteStrings
  import opened JsonText
  import Utf8

  lemma SamePrefix(a: Bytes, x: Bytes, y: Bytes)
    requires a + x == a + y
    ensures x == y
  {
    assert x == (a + x)[|a|..] && y == (a + y)[|a|..];
  }

  lemma SameSizedParts(a: Bytes, b: Bytes, x: Bytes, y: Bytes)
    requires |a| == |b| && a + x == b + y
    ensures a == b && x == y
  {
    assert a == (a + x)[..|a|] && b == (b + y)[..|b|];
    SamePrefix(a, x, y);
  }

  // ---- strings ----

  function HexValue(b: int): int {
    if b < 0x40 then b - 0x30 else b - 0x57
  }

  /** What the second byte of a two-byte escape stands for. */
  function Unescaped(b: int): int {
    match b
    case 0x62 => 0x08
    case 0x74 => 0x09
    case 0x6E => 0x0A
    case 0x66 => 0x0C
    case 0x72 => 0x0D
    case _ => b
  }

  /** The character at the front of a string's inside, and the bytes it takes. */
  function ReadChar(bytes: seq<int>): (int, nat)
    requires |bytes| >= 6
  {
    var b := bytes[0];
    if b == 0x5C && bytes[1] == 0x75 then (16 * HexValue(bytes[4]) + HexValue(bytes[5]), 6)
    else if b == 0x5C then (Unescaped(bytes[1]), 2)
    else if b < 0x80 then (b, 1)
    else if b < 0xE0 then (0x40 * (b - 0xC0) + (bytes[1] - 0x80), 2)
    else if b < 0xF0 then (0x40 * (0x40 * (b - 0xE0) + (bytes[1] - 0x80)) + (bytes[2] - 0x80), 3)
    else (0x40 * (0x40 * (0x40 * (b - 0xF0) + (bytes[1] - 0x80)) + (bytes[2] - 0x80)) + (bytes[3] - 0x80), 4)
  }

  lemma SixBitsAtATime(n: nat)
    ensures n == 0x40 * (n / 0x40) + n % 0x40
    ensures n / 0x40 == 0x40 * (n / 0x1000) + n / 0x40 % 0x40
    ensures n / 0x1000 == 0x40 * (n / 0x4_0000) + n / 0x1000 % 0x40
  {
  }

  lemma ReadsUtf8(c: char, rest: Bytes)
    requires |rest| >= 6 && c as int >= 0x20 && c != '\\'
    ensures ReadChar(Utf8.EncodeChar(c) + rest) == (c as int, |Utf8.EncodeChar(c)|)
  {
    var code, bytes := c as int, Utf8.EncodeChar(c);
    SixBitsAtATime(code);
    assert forall i :: 0 <= i < |bytes| ==> (bytes + rest)[i] == bytes[i];
  }

  lemma ReadsEscapedChar(c: char, rest: Bytes)
    requires |rest| >= 6
    ensures |EscapeChar(c)| >= 1 && ReadChar(EscapeChar(c) + rest) == (c as int, |EscapeChar(c)|)
    ensures EscapeChar(c)[0] != 0x22
  {
    if c as int >= 0x20 && c != '\\' && c != '\"' { ReadsUtf8(c, rest); }
  }

  lemma CharsDelimit(c: char, d: char, x: Bytes, y: Bytes)
    requires EscapeChar(c) + x == EscapeChar(d) + y
    ensures c == d && x == y
  {
    var pad: Bytes := [0, 0, 0, 0, 0, 0];
    ReadsEscapedChar(c, x + pad);
    ReadsEscapedChar(d, y + pad);
    assert EscapeChar(c) + (x + pad) == EscapeChar(c) + x + pad;
    assert EscapeChar(d) + (y + pad) == EscapeChar(d) + y + pad;
    SamePrefix(EscapeChar(c), x, y);
  }

  lemma InsideUnfolds(s: string, x: Bytes)
    ensures s == "" ==> Escape(s) + x == x
    ensures s != "" ==> Escape(s) + x == EscapeChar(s[0]) + (Escape(s[1..]) + x)
    ensures s != "" && Escape(s) + x != [] ==> (Escape(s) + x)[0] != 0x22
  {
    if s != "" {
      var pad: Bytes := [0, 0, 0, 0, 0, 0];
      ReadsEscapedChar(s[0], pad);
      assert Escape(s) + x == EscapeChar(s[0]) + (Escape(s[1..]) + x);
    }
  }

  lemma {:induction false} InsidesDelimit(s: string, t: string, x: Bytes, y: Bytes)
    requires Escape(s) + ([0x22] + x) == Escape(t) + ([0x22] + y)
    ensures s == t && x == y
  {
    InsideUnfolds(s, [0x22] + x);
    InsideUnfolds(t, [0x22] + y);
    assert s == "" <==> t == "";
    if s == "" {
      SamePrefix([0x22], x, y);
    } else {
      CharsDelimit(s[0], t[0], Escape(s[1..]) + ([0x22] + x), Escape(t[1..]) + ([0x22] + y));
      InsidesDelimit(s[1..], t[1..], x, y);
      assert s == [s[0]] + s[1..] && t == [t[0]] + t[1..];
    }
  }

  lemma StringUnfolds(s: string, x: Bytes)
    ensures JsonString(s) + x == [0x22] + (Escape(s) + ([0x22] + x))
  {
  }

  lemma StringsDelimit(s: string, t: string, x: Bytes, y: Bytes)
    requires JsonString(s) + x == JsonString(t) + y
    ensures s == t && x == y
  {
    StringUnfolds(s, x);
    StringUnfolds(t, y);
    SamePrefix([0x22], Escape(s) + ([0x22] + x), Escape(t) + ([0x22] + y));
    InsidesDelimit(s, t, x, y);
  }

  // ---- numbers ----

  predicate IsDigit(b: Byte) {
    0x30 <= b < 0x3A
  }

  function Value(digits: Bytes): int {
    if digits == [] then 0 else 10 * Value(digits[..|digits| - 1]) + digits[|digits| - 1] - 0x30
  }

  lemma {:induction false} DecimalReads(n: nat)
    ensures Value(Decimal(n)) == n
    ensures forall i :: 0 <= i < |Decimal(n)| ==> IsDigit(Decimal(n)[i])
  {
    if n >= 10 {
      DecimalReads(n / 10);
      assert Decimal(n)[..|Decimal(n)| - 1] == Decimal(n / 10);
    } else {
      assert Value([0x30 + n][..0]) == 0;
    }
  }

  /** A number ends where the digits do. */
  lemma NumbersDelimit(a: nat, b: nat, x: Bytes, y: Bytes)
    requires Decimal(a) + x == Decimal(b) + y
    requires x != [] && !IsDigit(x[0]) && y != [] && !IsDigit(y[0])
    ensures a == b && x == y
  {
    DecimalReads(a);
    DecimalReads(b);
    var all, m, n := Decimal(a) + x, |Decimal(a)|, |Decimal(b)|;
    assert all[m] == x[0] && all[n] == y[0];
    assert forall i :: 0 <= i < m ==> all[i] == Decimal(a)[i];
    assert forall i :: 0 <= i < n ==> all[i] == Decimal(b)[i];
    assert m == n;
    SameSizedParts(Decimal(a), Decimal(b), x, y);
  }

  // ---- arrays ----

  /** Texts of names that show where they end and are never mistaken for an array's. */
  ghost predicate Delimiting(text: string -> Bytes) {
    && (forall a, b, x, y :: text(a) + x == text(b) + y ==> a == b && x == y)
    && forall a :: text(a) != [] && text(a)[0] != 0x5D
  }

  function Texts(text: string -> Bytes, names: seq<string>): seq<Bytes> {
    if names == [] then [] else [text(names[0])] + Texts(text, names[1..])
  }

  /** A list of items up to and including the closing bracket. */
  function Items(text: string -> Bytes, names: seq<string>): Bytes {
    Commas(Texts(text, names)) + [0x5D]
  }

  /** What follows the first item: the end of the list, or a comma and the rest. */
  function AfterFirst(text: string -> Bytes, names: seq<string>, x: Bytes): Bytes
    requires names != []
  {
    if |names| == 1 then [0x5D] + x else [0x2C] + (Items(text, names[1..]) + x)
  }

  lemma ItemsUnfold(text: string -> Bytes, names: seq<string>, x: Bytes)
    ensures names == [] ==> Items(text, names) + x == [0x5D] + x
    ensures names != [] ==> Items(text, names) + x == text(names[0]) + AfterFirst(text, names, x)
    ensures Delimiting(text) && names != [] ==> (Items(text, names) + x)[0] != 0x5D
  {
    if names != [] {
      var all := Texts(text, names);
      assert all[0] == text(names[0]) && all[1..] == Texts(text, names[1..]);
      if |names| == 1 {
        assert Texts(text, names[1..]) == [];
      } else {
        assert |Texts(text, names[1..])| >= 1;
      }
    }
  }

  lemma {:induction false} ItemsDelimit(text: string -> Bytes, a: seq<string>, b: seq<string>, x: Bytes, y: Bytes)
    requires Delimiting(text) && Items(text, a) + x == Items(text, b) + y
    ensures a == b && x == y
    decreases |a|
  {
    ItemsUnfold(text, a, x);
    ItemsUnfold(text, b, y);
    assert a == [] <==> b == [];
    if a == [] {
      SamePrefix([0x5D], x, y);
    } else {
      var v, w := AfterFirst(text, a, x), AfterFirst(text, b, y);
      assert a[0] == b[0] && v == w;
      assert v[0] == w[0];
      assert |a| == 1 <==> |b| == 1;
      if |a| == 1 {
        SamePrefix([0x5D], x, y);
        assert a == [a[0]] && b == [b[0]];
      } else {
        SamePrefix([0x2C], Items(text, a[1..]) + x, Items(text, b[1..]) + y);
        ItemsDelimit(text, a[1..], b[1..], x, y);
        assert a == [a[0]] + a[1..] && b == [b[0]] + b[1..];
      }
    }
  }

  lemma {:induction false} TextsAreMapped(text: string -> Bytes, names: seq<string>)
    ensures Texts(text, names) == seq(|names|, i requires 0 <= i < |names| => text(names[i]))
  {
    if names != [] { TextsAreMapped(text, names[1..]); }
  }

  lemma ArraysDelimit(text: string -> Bytes, a: seq<string>, b: seq<string>, x: Bytes, y: Bytes)
    requires Delimiting(text)
    requires JsonArray(Texts(text, a)) + x == JsonArray(Texts(text, b)) + y
    ensures a == b && x == y
  {
    assert JsonArray(Texts(text, a)) + x == [0x5B] + (Items(text, a) + x);
    assert JsonArray(Texts(text, b)) + y == [0x5B] + (Items(text, b) + y);
    SamePrefix([0x5B], Items(text, a) + x, Items(text, b) + y);
    ItemsDelimit(text, a, b, x, y);
  }

  lemma JsonStringsDelimit()
    ensures Delimiting(JsonString)
  {
    forall a, b, x, y | JsonString(a) + x == JsonString(b) + y ensures a == b && x == y {
      StringsDelimit(a, b, x, y);
    }
  }
}
