/**
 The payload encoding of the NativeScript adapter (`stringToHex`): every UTF-16
 code unit of the string, as `charCodeAt` reports it, is rendered with
 `Number.prototype.toString(16)` — lowercase and WITHOUT zero padding — and the
 pieces are concatenated.
 */
module Hex {
  import opened Wrappers

  predicate IsDigit(c: char) {
    '0' <= c <= '9' || 'a' <= c <= 'f'
  }

  function DigitChar(d: nat): (c: char)
    requires d < 16
    ensures IsDigit(c)
  {
    if d < 10 then ('0' as int + d) as char else ('a' as int + d - 10) as char
  }

  function DigitValue(c: char): (d: nat)
    requires IsDigit(c)
    ensures d < 16 && DigitChar(d) == c
  {
    if '0' <= c <= '9' then c as int - '0' as int else c as int - 'a' as int + 10
  }

  /** `n.toString(16)` for a non-negative integer: the shortest lowercase base-16 numeral. */
  function ToHex(n: nat): (r: string)
    ensures 1 <= |r|
    ensures forall i :: 0 <= i < |r| ==> IsDigit(r[i])
    ensures |r| == 1 <==> n < 16
    ensures |r| == 2 <==> 16 <= n < 256
    ensures r[0] == '0' ==> n == 0
    decreases n
  {
    if n < 16 then [DigitChar(n)] else ToHex(n / 16) + [DigitChar(n % 16)]
  }

  /** The number a string of hex digits denotes, read most significant digit
      first; 0 for the empty string. */
  function Value(s: string): nat
    requires forall i :: 0 <= i < |s| ==> IsDigit(s[i])
  {
    if s == [] then 0 else Value(s[..|s| - 1]) * 16 + DigitValue(s[|s| - 1])
  }

  /** `toString(16)` loses nothing: reading the numeral back gives the number. */
  lemma {:induction false} ToHexValue(n: nat)
    ensures Value(ToHex(n)) == n
    decreases n
  {
    if n >= 16 {
      ToHexValue(n / 16);
      var r := ToHex(n);
      assert r[..|r| - 1] == ToHex(n / 16);
    }
  }

  /** The UTF-16 code units of one character: one unit inside the Basic
      Multilingual Plane, a surrogate pair above it. */
  function CodeUnits(c: char): (u: seq<nat>)
    ensures 1 <= |u| <= 2
    ensures |u| == 1 <==> c as int < 0x1_0000
    ensures forall k :: 0 <= k < |u| ==> u[k] < 0x1_0000
    ensures c as int < 0x1_0000 ==> u == [c as int]
  {
    var v := c as int;
    if v < 0x1_0000 then [v]
    else [0xD800 + (v - 0x1_0000) / 0x400, 0xDC00 + (v - 0x1_0000) % 0x400]
  }

  /** Above the Basic Multilingual Plane the two units are a high and a low
      surrogate, and they recombine to the character's code. */
  lemma SurrogatePair(c: char)
    requires c as int >= 0x1_0000
    ensures var u := CodeUnits(c);
      && |u| == 2
      && 0xD800 <= u[0] < 0xDC00 <= u[1] < 0xE000
      && (u[0] - 0xD800) * 0x400 + (u[1] - 0xDC00) + 0x1_0000 == c as int
  {
  }

  /** A string as JavaScript stores it: `s.length` and `s.charCodeAt(i)` read this sequence. */
  function Utf16(s: string): seq<nat> {
    if s == [] then [] else Utf16(s[..|s| - 1]) + CodeUnits(s[|s| - 1])
  }

  function HexOfUnits(units: seq<nat>): string {
    if units == [] then "" else HexOfUnits(units[..|units| - 1]) + ToHex(units[|units| - 1])
  }

  function StringToHex(s: string): string {
    HexOfUnits(Utf16(s))
  }

  /** The loop of `stringToHex`: for each code unit, append its `toString(16)`. */
  method StringToHexLoop(s: string) returns (hex: string)
    ensures hex == StringToHex(s)
    ensures forall i :: 0 <= i < |hex| ==> IsDigit(hex[i])
  {
    var units := Utf16(s);
    hex := "";
    for i := 0 to |units|
      invariant hex == HexOfUnits(units[..i])
      invariant forall k :: 0 <= k < |hex| ==> IsDigit(hex[k])
    {
      assert units[..i + 1][..i] == units[..i];
      hex := hex + ToHex(units[i]);
    }
    assert units[..|units|] == units;
  }

  /** Every character code lies in [16, 255]: the domain on which every code is
      exactly two hex digits. */
  predicate InByteRange(s: string) {
    forall i :: 0 <= i < |s| ==> 16 <= s[i] as int < 256
  }

  /** Reads a hex string back two digits per character; fails on an odd length
      or a non-digit. */
  function DecodePairs(h: string): Option<string>
    decreases |h|
  {
    if |h| == 0 then Some("")
    else if |h| == 1 || !IsDigit(h[|h| - 2]) || !IsDigit(h[|h| - 1]) then None
    else
      match DecodePairs(h[..|h| - 2])
      case None => None
      case Some(prefix) =>
        Some(prefix + [(DigitValue(h[|h| - 2]) * 16 + DigitValue(h[|h| - 1])) as char])
  }

  lemma TwoDigitValue(t: string)
    requires |t| == 2 && IsDigit(t[0]) && IsDigit(t[1])
    ensures Value(t) == DigitValue(t[0]) * 16 + DigitValue(t[1])
  {
    var first := t[..1];
    assert first[..0] == [] && first[0] == t[0];
    assert Value(first) == DigitValue(t[0]);
    assert t[..|t| - 1] == first;
  }

  /** Encoding one more character of the Basic Multilingual Plane appends exactly
      the `toString(16)` of its code. */
  lemma StringToHexSnoc(p: string, c: char)
    requires c as int < 0x1_0000
    ensures StringToHex(p + [c]) == StringToHex(p) + ToHex(c as int)
  {
    var s := p + [c];
    assert s[..|s| - 1] == p;
    var units := Utf16(p);
    assert Utf16(s) == units + [c as int];
    assert (units + [c as int])[..|units|] == units;
  }

  /** Decoding a hex string extended by two digits extends the decoded string by one character. */
  lemma DecodePairsSnoc(hp: string, t: string, p: string)
    requires |t| == 2 && IsDigit(t[0]) && IsDigit(t[1])
    requires DecodePairs(hp) == Some(p)
    ensures DecodePairs(hp + t) == Some(p + [(DigitValue(t[0]) * 16 + DigitValue(t[1])) as char])
  {
    var h := hp + t;
    assert h[..|h| - 2] == hp;
    assert h[|h| - 2] == t[0] && h[|h| - 1] == t[1];
  }

  /** On codes in [16, 255] the encoding doubles the length and decodes back to the input. */
  lemma {:induction false} StringToHexRoundTrip(s: string)
    requires InByteRange(s)
    ensures |StringToHex(s)| == 2 * |s|
    ensures DecodePairs(StringToHex(s)) == Some(s)
  {
    if s != [] {
      var p, c := s[..|s| - 1], s[|s| - 1];
      assert p + [c] == s;
      assert InByteRange(p) by {
        forall i | 0 <= i < |p| ensures 16 <= p[i] as int < 256 {
          assert p[i] == s[i];
        }
      }
      StringToHexRoundTrip(p);
      StringToHexSnoc(p, c);
      var t := ToHex(c as int);
      ToHexValue(c as int);
      TwoDigitValue(t);
      DecodePairsSnoc(StringToHex(p), t, p);
    }
  }

  lemma HexOfEighteen()
    ensures ToHex(18) == "12" && ToHex(1) == "1" && ToHex(2) == "2"
  {
  }

  /** Codes 1 and 2 encode exactly like the one code 18 they spell together. */
  lemma HexOfOneTwo()
    ensures StringToHex([1 as char, 2 as char]) == "12"
  {
    var a, b := 1 as char, 2 as char;
    HexOfEighteen();
    assert StringToHex([]) == "";
    StringToHexSnoc([], a);
    assert [] + [a] == [a];
    StringToHexSnoc([a], b);
    assert [a] + [b] == [a, b];
  }

  lemma HexOfCodeEighteen()
    ensures StringToHex([18 as char]) == "12"
  {
    var c := 18 as char;
    HexOfEighteen();
    assert StringToHex([]) == "";
    StringToHexSnoc([], c);
    assert [] + [c] == [c];
  }

  lemma SingleDigitsCollide()
    ensures StringToHex([1 as char, 2 as char]) == StringToHex([18 as char])
  {
    HexOfOneTwo();
    HexOfCodeEighteen();
  }

  /** Without zero padding the encoding is not injective: codes below 16 give a single digit. */
  lemma StringToHexNotInjective()
    ensures exists a: string, b: string :: a != b && StringToHex(a) == StringToHex(b)
  {
    SingleDigitsCollide();
    var a: string, b: string := [1 as char, 2 as char], [18 as char];
    assert |a| != |b|;
    assert StringToHex(a) == StringToHex(b);
  }
}
