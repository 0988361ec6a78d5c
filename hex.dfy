/** Hexadecimal text as the modelled code reads and writes it:
    `int(s, 16)` and the `:02x` format specifier. */
module Hex {
  import opened Wrappers

  predicate IsHexDigit(c: char) {
    ('0' <= c <= '9') || ('a' <= c <= 'f') || ('A' <= c <= 'F')
  }

  predicate AllHex(s: string) { forall i :: 0 <= i < |s| ==> IsHexDigit(s[i]) }

  function HexValue(c: char): (d: nat)
    requires IsHexDigit(c)
    ensures d < 16
  {
    if '0' <= c <= '9' then c as int - '0' as int
    else if 'a' <= c <= 'f' then c as int - 'a' as int + 10
    else c as int - 'A' as int + 10
  }

  /** The lower-case digit for a value below 16, as `:x` writes it. */
  function HexChar(d: nat): (c: char)
    requires d < 16
    ensures IsHexDigit(c) && HexValue(c) == d
    ensures !('A' <= c <= 'F')
  {
    if d < 10 then (d + '0' as int) as char else (d - 10 + 'a' as int) as char
  }

  /** Lower-cases one hexadecimal digit and leaves every other character alone. */
  function LowerHexChar(c: char): char {
    if 'A' <= c <= 'F' then (c as int - 'A' as int + 'a' as int) as char else c
  }

  function LowerHex(s: string): (r: string)
    ensures |r| == |s|
    ensures forall i :: 0 <= i < |s| ==> r[i] == LowerHexChar(s[i])
  {
    seq(|s|, i requires 0 <= i < |s| => LowerHexChar(s[i]))
  }

  function DigitsValue(s: string): nat
    requires AllHex(s)
  {
    if s == [] then 0 else DigitsValue(s[..|s| - 1]) * 16 + HexValue(s[|s| - 1])
  }

  /** Python's `int(s, 16)`: an optional sign, then at least one hex digit of
      either case; anything else raises ValueError. */
  function ParseHex(s: string): (r: Result<int>)
    ensures r.Ok? <==> (|s| >= 1 && AllHex(s)) ||
                       (|s| >= 2 && (s[0] == '-' || s[0] == '+') && AllHex(s[1..]))
    ensures r.Err? ==> r.error == ValueError
  {
    if |s| >= 2 && s[0] == '-' && AllHex(s[1..]) then var v: int := -(DigitsValue(s[1..]) as int); Ok(v)
    else if |s| >= 2 && s[0] == '+' && AllHex(s[1..]) then var v: int := DigitsValue(s[1..]); Ok(v)
    else if |s| >= 1 && AllHex(s) then var v: int := DigitsValue(s); Ok(v)
    else Err(ValueError)
  }

  /** The lower-case hex digits of `n` with no leading zero. */
  function NatToHex(n: nat): (s: string)
    ensures |s| >= 1 && AllHex(s)
    ensures n < 16 <==> |s| == 1
  {
    if n < 16 then [HexChar(n)] else NatToHex(n / 16) + [HexChar(n % 16)]
  }

  /** Python's `f"{n:02x}"`: the sign, then the lower-case digits of `|n|`,
      zero-padded after the sign to a width of two. */
  function Format02x(n: int): (s: string)
    ensures |s| >= 2
  {
    var digits := NatToHex(if n < 0 then -n else n);
    if n < 0 then "-" + digits else if |digits| < 2 then "0" + digits else digits
  }

  lemma TwoDigitsValue(s: string)
    requires |s| == 2 && AllHex(s)
    ensures ParseHex(s) == Ok(HexValue(s[0]) * 16 + HexValue(s[1]))
  {
    assert s[..1][..0] == [] && s[..1][0] == s[0];
    assert DigitsValue(s[..1]) == HexValue(s[0]);
    assert DigitsValue(s) == DigitsValue(s[..1]) * 16 + HexValue(s[1]);
  }

  /** A channel value 0..255 is written as exactly two lower-case hex digits. */
  lemma Format02xByte(n: int)
    requires 0 <= n < 256
    ensures Format02x(n) == [HexChar(n / 16), HexChar(n % 16)]
  {
    if n >= 16 {
      assert NatToHex(n / 16) == [HexChar(n / 16)];
    }
  }

  /** `int(f"{n:02x}", 16) == n` for a channel value. */
  lemma ByteRoundTrip(n: int)
    requires 0 <= n < 256
    ensures ParseHex(Format02x(n)) == Ok(n)
  {
    Format02xByte(n);
    var s := Format02x(n);
    TwoDigitsValue(s);
  }

  /** Two hex digits denote a byte, and writing that byte back with `:02x`
      gives the digits in lower case. */
  lemma PairRoundTrip(s: string)
    requires |s| == 2 && AllHex(s)
    ensures ParseHex(s).Ok? && 0 <= ParseHex(s).value < 256
    ensures Format02x(ParseHex(s).value) == LowerHex(s)
  {
    TwoDigitsValue(s);
    Format02xByte(ParseHex(s).value);
  }

  /** Lower-casing works character by character, so it distributes over
      concatenation. */
  lemma LowerHexConcat(a: string, b: string)
    ensures LowerHex(a + b) == LowerHex(a) + LowerHex(b)
  {
  }
}
