/** The hex text form of a script: `to_hex` writes two lower-case digits per byte and
    `from_hex` reads pairs of digits of either case, skipping ASCII whitespace between pairs,
    the way `bytes.fromhex` does. */
module Hex {
  import opened Results
  import opened Constants

  predicate IsHexDigit(c: char) {
    '0' <= c <= '9' || 'a' <= c <= 'f' || 'A' <= c <= 'F'
  }

  /** The whitespace `bytes.fromhex` skips: space, tab, line feed, vertical tab, form feed and
      carriage return. */
  predicate IsSpace(c: char) {
    c == ' ' || c == '\t' || c == '\n' || c == '\U{B}' || c == '\U{C}' || c == '\r'
  }

  function DigitValue(c: char): (v: int)
    requires IsHexDigit(c)
    ensures 0 <= v < 16
  {
    if '0' <= c <= '9' then c as int - '0' as int
    else if 'a' <= c <= 'f' then c as int - 'a' as int + 10
    else c as int - 'A' as int + 10
  }

  function Digit(v: int): (c: char)
    requires 0 <= v < 16
    ensures IsHexDigit(c) && !IsSpace(c)
    ensures DigitValue(c) == v
  {
    if v < 10 then (v + '0' as int) as char else (v - 10 + 'a' as int) as char
  }

  /** `bytes.hex()`. */
  function HexEncode(b: seq<byte>): (r: string)
    ensures |r| == 2 * |b|
    ensures forall i | 0 <= i < |r| :: IsHexDigit(r[i])
    decreases |b|
  {
    if |b| == 0 then [] else [Digit(b[0] / 16), Digit(b[0] % 16)] + HexEncode(b[1..])
  }

  /** `bytes.fromhex(s)`; `None` where Python raises. */
  function HexDecode(s: string): (r: Option<seq<byte>>)
    ensures r.Some? ==> |r.value| <= |s| / 2
    decreases |s|
  {
    if |s| == 0 then Some([])
    else if IsSpace(s[0]) then HexDecode(s[1..])
    else if |s| >= 2 && IsHexDigit(s[0]) && IsHexDigit(s[1]) then
      match HexDecode(s[2..])
      case None => None
      case Some(rest) => Some([(DigitValue(s[0]) * 16 + DigitValue(s[1])) as byte] + rest)
    else None
  }

  /** Reading back what `to_hex` wrote gives the same bytes. */
  lemma {:induction false} HexRoundTrip(b: seq<byte>)
    ensures HexDecode(HexEncode(b)) == Some(b)
    decreases |b|
  {
    if |b| > 0 {
      var s := HexEncode(b);
      assert s[2..] == HexEncode(b[1..]);
      HexRoundTrip(b[1..]);
      assert (DigitValue(s[0]) * 16 + DigitValue(s[1])) as byte == b[0];
      assert [b[0]] + b[1..] == b;
    }
  }

  /** Text with a character that is neither a hex digit nor whitespace never decodes. */
  lemma {:induction false} StrayCharacterRejected(s: string, i: int)
    requires 0 <= i < |s|
    requires !IsHexDigit(s[i]) && !IsSpace(s[i])
    ensures HexDecode(s) == None
    decreases |s|
  {
    if IsSpace(s[0]) {
      StrayCharacterRejected(s[1..], i - 1);
    } else if |s| >= 2 && IsHexDigit(s[0]) && IsHexDigit(s[1]) {
      StrayCharacterRejected(s[2..], i - 2);
    }
  }
}
