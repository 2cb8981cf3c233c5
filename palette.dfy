/** The colour helper of the theme (frontend/src/theme/palette.ts): `alpha`
    turns a six-digit hex colour into an `rgba(...)` string. Formatting the
    opacity is JavaScript's number-to-string conversion, which is not modelled:
    the opacity arrives as the text it renders to. */
module Palette {
  import opened Common

  /** `s.replace(c, '')` with a string pattern: only the first `c` is removed. */
  function RemoveFirst(s: string, c: char): (r: string)
    ensures c in s ==> |r| == |s| - 1 && r == s[..IndexOf(s, c)] + s[IndexOf(s, c) + 1..]
    ensures c !in s ==> r == s
  {
    var k := IndexOf(s, c);
    if k < |s| then s[..k] + s[k + 1..] else s
  }

  predicate IsHexDigit(c: char) {
    IsDigit(c) || 'a' <= c <= 'f' || 'A' <= c <= 'F'
  }

  function HexDigitValue(c: char): (d: nat)
    requires IsHexDigit(c)
    ensures d < 16
  {
    if IsDigit(c) then DigitValue(c)
    else if 'a' <= c <= 'f' then (c as int - 'a' as int + 10) as nat
    else (c as int - 'A' as int + 10) as nat
  }

  predicate AllHex(s: string) {
    forall i :: 0 <= i < |s| ==> IsHexDigit(s[i])
  }

  /** The value of a string of hex digits, most significant first. */
  function HexValue(s: string): nat
    requires AllHex(s)
  {
    if s == [] then 0 else 16 * HexValue(s[..|s| - 1]) + HexDigitValue(s[|s| - 1])
  }

  /** The length of the run of hex digits at the start of `s`. */
  function HexRun(s: string): (k: nat)
    ensures k <= |s| && AllHex(s[..k])
    ensures k < |s| ==> !IsHexDigit(s[k])
  {
    if s != [] && IsHexDigit(s[0]) then
      var k := HexRun(s[1..]);
      assert s[..1 + k] == [s[0]] + s[1..][..k];
      1 + k
    else 0
  }

  /** `Number.parseInt(s, 16)`: leading white space and a sign are skipped, as
      is a `0x`/`0X` prefix, and the longest run of hex digits that follows is
      read; no digit at all is NaN, written None. */
  function ParseIntHex(s: string): Option<int>
  {
    var t := TrimStart(s);
    var negative := t != [] && t[0] == '-';
    var unsigned := if t != [] && (t[0] == '-' || t[0] == '+') then t[1..] else t;
    var body := if |unsigned| >= 2 && unsigned[0] == '0' && (unsigned[1] == 'x' || unsigned[1] == 'X')
                then unsigned[2..] else unsigned;
    var k := HexRun(body);
    if k == 0 then None
    else
      var v := HexValue(body[..k]);
      Some(if negative then -(v as int) else v)
  }

  /** ToInt32, the conversion the shift operators apply: NaN is 0 and any
      other value wraps into the signed 32-bit range. */
  function ToInt32(v: Option<int>): (r: int)
    ensures -0x8000_0000 <= r < 0x8000_0000
    ensures v.Some? && -0x8000_0000 <= v.value < 0x8000_0000 ==> r == v.value
  {
    if v.None? then 0
    else
      var m := v.value % 0x1_0000_0000;
      if m >= 0x8000_0000 then m - 0x1_0000_0000 else m
  }

  /** `(x >> shift) & 255` on a 32-bit integer: the arithmetic shift rounds
      toward minus infinity and the mask keeps the low byte of the two's
      complement, which is the non-negative remainder modulo 256. */
  function ByteAt(x: int, shift: nat): (b: nat)
    ensures b < 256
  {
    if shift == 16 then (x / 65536) % 256 else if shift == 8 then (x / 256) % 256 else x % 256
  }

  /** The error `alpha` throws. */
  function AlphaError(hex: string): string {
    "alpha() expects a 6-digit hex value. Received \"" + hex + "\""
  }

  function Rgba(r: nat, g: nat, b: nat, opacity: string): string {
    "rgba(" + NatToString(r) + ", " + NatToString(g) + ", " + NatToString(b) + ", " + opacity + ")"
  }

  /** alpha as written: the first '#' is dropped, the rest must have six
      characters, and `parseInt(…, 16)` is split into its three bytes. */
  function Alpha(hex: string, opacity: string): (r: Result<string, string>)
    ensures r.Failure? <==> |RemoveFirst(hex, '#')| != 6
    ensures r.Failure? ==> r.error == AlphaError(hex)
  {
    var normalized := RemoveFirst(hex, '#');
    if |normalized| != 6 then Failure(AlphaError(hex))
    else
      var (r, g, b) := Channels(normalized);
      Success(Rgba(r, g, b, opacity))
  }

  /** `(bigint >> 16) & 255`, `(bigint >> 8) & 255` and `bigint & 255`. */
  function Channels(normalized: string): (rgb: (nat, nat, nat))
    ensures rgb.0 < 256 && rgb.1 < 256 && rgb.2 < 256
  {
    var bigint := ToInt32(ParseIntHex(normalized));
    (ByteAt(bigint, 16), ByteAt(bigint, 8), ByteAt(bigint, 0))
  }

  /** One more digit multiplies the value read so far by 16. */
  lemma HexValueStep(s: string, k: nat)
    requires AllHex(s) && 1 <= k <= |s|
    ensures AllHex(s[..k]) && AllHex(s[..k - 1])
    ensures HexValue(s[..k]) == 16 * HexValue(s[..k - 1]) + HexDigitValue(s[k - 1])
  {
    assert forall i :: 0 <= i < k ==> s[..k][i] == s[i];
    assert s[..k][..k - 1] == s[..k - 1];
  }

  lemma HexValueTwo(t: string)
    requires |t| == 2 && AllHex(t)
    ensures HexValue(t) == 16 * HexDigitValue(t[0]) + HexDigitValue(t[1])
    ensures HexValue(t) < 256
  {
    var u := t[..1];
    assert u == [t[0]] && u[..0] == [] && u[0] == t[0];
    assert HexValue(u) == HexDigitValue(t[0]);
    assert t[..|t| - 1] == u;
  }

  /** Six hex digits are three bytes, most significant first. */
  lemma SixHexDigits(s: string)
    requires |s| == 6 && AllHex(s)
    ensures HexValue(s) == 65536 * HexValue(s[..2]) + 256 * HexValue(s[2..4]) + HexValue(s[4..])
  {
    assert s[..0] == [];
    HexValueStep(s, 1);
    HexValueStep(s, 2);
    HexValueStep(s, 3);
    HexValueStep(s, 4);
    HexValueStep(s, 5);
    HexValueStep(s, 6);
    assert s[..6] == s;
    assert s[..2][0] == s[0] && s[..2][1] == s[1];
    assert s[2..4][0] == s[2] && s[2..4][1] == s[3];
    assert s[4..][0] == s[4] && s[4..][1] == s[5];
    HexValueTwo(s[..2]);
    HexValueTwo(s[2..4]);
    HexValueTwo(s[4..]);
  }

  lemma Bytes(r: nat, g: nat, b: nat)
    requires r < 256 && g < 256 && b < 256
    ensures ByteAt(65536 * r + 256 * g + b, 16) == r
    ensures ByteAt(65536 * r + 256 * g + b, 8) == g
    ensures ByteAt(65536 * r + 256 * g + b, 0) == b
  {
    var v := 65536 * r + 256 * g + b;
    assert v / 65536 == r;
    assert v / 256 == 256 * r + g;
    assert (256 * r + g) % 256 == g;
    assert v % 256 == b;
  }

  /** The text of a colour: an optional '#' and then six hex digits. */
  predicate IsHexColour(hex: string) {
    var normalized := RemoveFirst(hex, '#');
    |normalized| == 6 && AllHex(normalized)
  }

  /** A hex colour is accepted and its three pairs of digits are the red,
      green and blue values. */
  lemma AlphaOfHexColour(hex: string, opacity: string)
    requires IsHexColour(hex)
    ensures var n := RemoveFirst(hex, '#');
            Alpha(hex, opacity) == Success(Rgba(HexValue(n[..2]), HexValue(n[2..4]), HexValue(n[4..]), opacity))
  {
    ChannelsOfHexDigits(RemoveFirst(hex, '#'));
  }

  /** Six hex digits give the values of their three pairs. */
  lemma ChannelsOfHexDigits(n: string)
    requires |n| == 6 && AllHex(n)
    ensures Channels(n) == (HexValue(n[..2]), HexValue(n[2..4]), HexValue(n[4..]))
  {
    var r, g, b := HexValue(n[..2]), HexValue(n[2..4]), HexValue(n[4..]);
    PairBelow256(n[..2]);
    PairBelow256(n[2..4]);
    PairBelow256(n[4..]);
    var v := HexValue(n);
    SixHexDigits(n);
    assert v == 65536 * r + 256 * g + b;
    assert v < 0x8000_0000;
    ParseIntHexOfDigits(n);
    Bytes(r, g, b);
    ChannelsOfValue(n, v);
  }

  lemma PairBelow256(t: string)
    requires |t| == 2 && AllHex(t)
    ensures HexValue(t) < 256
  {
    HexValueTwo(t);
  }

  lemma ChannelsOfValue(n: string, v: int)
    requires ParseIntHex(n) == Some(v) && 0 <= v < 0x8000_0000
    ensures Channels(n) == (ByteAt(v, 16), ByteAt(v, 8), ByteAt(v, 0))
  {
  }

  /** Hex digits are read in full. */
  lemma ParseIntHexOfDigits(s: string)
    requires |s| == 6 && AllHex(s)
    ensures ParseIntHex(s) == Some(HexValue(s))
  {
    assert !IsSpace(s[0]);
    TrimStartOfUnpadded(s);
    assert s[0] != '-' && s[0] != '+';
    assert s[1] != 'x' && s[1] != 'X';
    HexRunAll(s);
    assert s[..6] == s;
  }

  lemma {:induction false} HexRunAll(s: string)
    requires AllHex(s)
    ensures HexRun(s) == |s|
  {
    if s != [] {
      HexRunAll(s[1..]);
    }
  }

  /** parseInt reads hex digits up to the first character that is not one. */
  lemma ParseIntHexPrefix(s: string, k: nat)
    requires 1 <= k < |s| && AllHex(s[..k]) && !IsHexDigit(s[k])
    requires k == 1 ==> !(s[0] == '0' && (s[1] == 'x' || s[1] == 'X'))
    ensures ParseIntHex(s) == Some(HexValue(s[..k]))
  {
    assert s[0] == s[..k][0] && IsHexDigit(s[0]);
    TrimStartOfUnpadded(s);
    assert TrimStart(s) == s && s[0] != '-' && s[0] != '+';
    if k >= 2 {
      assert s[1] == s[..k][1] && IsHexDigit(s[1]);
    }
    HexRunPrefix(s, k);
  }

  lemma {:induction false} HexRunPrefix(s: string, k: nat)
    requires k < |s| && AllHex(s[..k]) && !IsHexDigit(s[k])
    ensures HexRun(s) == k
  {
    if k > 0 {
      assert s[0] == s[..k][0];
      assert s[1..][..k - 1] == s[1..k];
      assert forall i :: 0 <= i < k - 1 ==> s[1..k][i] == s[..k][i + 1];
      HexRunPrefix(s[1..], k - 1);
    }
  }

  /** As written, six characters that are not all hex digits are accepted:
      when two hex digits are followed by anything else, parseInt stops there,
      the last four characters are ignored and the colour is blue only (for
      "#12zz56", rgba(0, 0, 18, …)). */
  lemma AlphaAcceptsNonHex(hex: string, opacity: string)
    requires var n := RemoveFirst(hex, '#'); |n| == 6 && AllHex(n[..2]) && !IsHexDigit(n[2])
    ensures !IsHexColour(hex)
    ensures var n := RemoveFirst(hex, '#');
            Alpha(hex, opacity) == Success(Rgba(0, 0, HexValue(n[..2]), opacity))
  {
    ChannelsOfHexPair(RemoveFirst(hex, '#'));
  }

  lemma ChannelsOfHexPair(n: string)
    requires |n| == 6 && AllHex(n[..2]) && !IsHexDigit(n[2])
    ensures Channels(n) == (0, 0, HexValue(n[..2]))
  {
    ParseIntHexPrefix(n, 2);
    var v := HexValue(n[..2]);
    HexValueTwo(n[..2]);
    ChannelsOfValue(n, v);
    LowByte(v);
  }

  lemma LowByte(v: int)
    requires 0 <= v < 256
    ensures ByteAt(v, 16) == 0 && ByteAt(v, 8) == 0 && ByteAt(v, 0) == v
  {
    assert v / 65536 == 0 && v / 256 == 0;
  }

  /** "#12zz56" is such a colour. */
  lemma AlphaAcceptsNonHexExample(opacity: string)
    ensures Alpha("#12zz56", opacity) == Success(Rgba(0, 0, 18, opacity))
  {
    var hex := "#12zz56";
    var n := RemoveFirst(hex, '#');
    assert n == "12zz56";
    assert n[..2] == "12";
    AlphaAcceptsNonHex(hex, opacity);
    HexValueTwo("12");
  }

  /** alpha as evidently intended: the error names a six-digit hex value, so
      any other six characters are refused too. */
  function AlphaStrict(hex: string, opacity: string): (r: Result<string, string>)
    ensures r.Failure? ==> r.error == AlphaError(hex)
  {
    if !IsHexColour(hex) then Failure(AlphaError(hex)) else Alpha(hex, opacity)
  }

  /** The corrected helper accepts exactly the hex colours, and then gives
      their three bytes. */
  lemma AlphaStrictCorrect(hex: string, opacity: string)
    ensures AlphaStrict(hex, opacity).Success? <==> IsHexColour(hex)
    ensures IsHexColour(hex) ==>
              var n := RemoveFirst(hex, '#');
              AlphaStrict(hex, opacity) == Success(Rgba(HexValue(n[..2]), HexValue(n[2..4]), HexValue(n[4..]), opacity))
  {
    if IsHexColour(hex) {
      AlphaOfHexColour(hex, opacity);
    }
  }

  /** The corrected helper refuses what the written one let through. */
  lemma AlphaStrictRefusesNonHex(opacity: string)
    ensures AlphaStrict("#12zz56", opacity) == Failure(AlphaError("#12zz56"))
  {
    assert RemoveFirst("#12zz56", '#') == "12zz56";
    assert !IsHexDigit("12zz56"[2]);
  }
}
