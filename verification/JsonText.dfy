/** The compact JSON text of the values whose encoded size matters. */
module JsonText {
  import opened ByteStrings
  import Utf8

  /** The bytes of an ASCII literal. */
  function Ascii(s: string): (bytes: Bytes)
    ensures |bytes| == |s|
  {
    seq(|s|, i requires 0 <= i < |s| => (s[i] as int) % 0x100)
  }

  function Decimal(n: nat): (digits: Bytes)
    ensures |digits| >= 1
  {
    if n < 10 then [0x30 + n] else Decimal(n / 10) + [0x30 + n % 10]
  }

  /** A larger number never has fewer digits. */
  lemma {:induction false} DecimalGrows(small: nat, large: nat)
    requires small <= large
    ensures |Decimal(small)| <= |Decimal(large)|
  {
    if small >= 10 {
      DecimalGrows(small / 10, large / 10);
    }
  }

  function Hex(digit: nat): Byte
    requires digit < 16
  {
    if digit < 10 then 0x30 + digit else 0x57 + digit
  }

  /** One character inside a JSON string. */
  function EscapeChar(c: char): Bytes {
    var code := c as int;
    if c == '\"' then [0x5C, 0x22]
    else if c == '\\' then [0x5C, 0x5C]
    else if code == 0x08 then [0x5C, 0x62]
    else if code == 0x09 then [0x5C, 0x74]
    else if code == 0x0A then [0x5C, 0x6E]
    else if code == 0x0C then [0x5C, 0x66]
    else if code == 0x0D then [0x5C, 0x72]
    else if code < 0x20 then [0x5C, 0x75, 0x30, 0x30, Hex(code / 16), Hex(code % 16)]
    else Utf8.EncodeChar(c)
  }

  function Escape(s: string): Bytes {
    if s == "" then [] else EscapeChar(s[0]) + Escape(s[1..])
  }

  function JsonString(s: string): (bytes: Bytes)
    ensures |bytes| >= 2
  {
    [0x22] + Escape(s) + [0x22]
  }

  /** Items separated by commas. */
  function Commas(items: seq<Bytes>): Bytes {
    if items == [] then []
    else if |items| == 1 then items[0]
    else items[0] + [0x2C] + Commas(items[1..])
  }

  function JsonArray(items: seq<Bytes>): Bytes {
    [0x5B] + Commas(items) + [0x5D]
  }

  function TotalLength(items: seq<Bytes>): nat {
    if items == [] then 0 else |items[0]| + TotalLength(items[1..])
  }

  lemma {:induction false} ArrayLength(items: seq<Bytes>)
    ensures |JsonArray(items)| == 2 + TotalLength(items) + if items == [] then 0 else |items| - 1
  {
    if |items| == 1 {
      assert TotalLength(items[1..]) == 0;
    } else if |items| > 1 {
      ArrayLength(items[1..]);
    }
  }

  function Strings(names: seq<string>): (items: seq<Bytes>)
    ensures |items| == |names|
  {
    seq(|names|, i requires 0 <= i < |names| => JsonString(names[i]))
  }
}
