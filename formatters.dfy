/** Number helpers for forms and labels (frontend/src/shared/utils/formatters.ts):
    reading hours out of free text, pulling the first number out of a string,
    and an inclusive bounds check. */
module Formatters {
  import opened Common

  /** The argument of parseHours and coerceNumber: `null`/`undefined`, a
      number or a string. */
  datatype NumberInput = Missing | Num(n: JsNumber) | Text(s: string)

  const EN_DASH := '\U{2013}'

  // ---------------------------------------------------------------------------
  // parseHours

  /** The characters the regular expression `[^0-9.\-–]` does not remove. */
  predicate KeptChar(c: char) {
    IsDigit(c) || c == '.' || c == '-' || c == EN_DASH
  }

  predicate DigitOrDot(c: char) {
    IsDigit(c) || c == '.'
  }

  /** The two replace calls: every character other than a digit, '.', '-' or
      an en dash is dropped, and en dashes become '-'. Lower-casing comes first
      in the source but cannot add or remove any of these characters, so it is
      not modelled. */
  function Normalize(s: string): (r: string)
    ensures forall i :: 0 <= i < |r| ==> DigitOrDot(r[i]) || r[i] == '-'
  {
    if s == [] then []
    else (if KeptChar(s[0]) then [if s[0] == EN_DASH then '-' else s[0]] else []) + Normalize(s[1..])
  }

  lemma {:induction false} NormalizeAppend(a: string, b: string)
    ensures Normalize(a + b) == Normalize(a) + Normalize(b)
  {
    if a == [] {
      assert a + b == b;
    } else {
      assert (a + b)[0] == a[0];
      assert (a + b)[1..] == a[1..] + b;
      NormalizeAppend(a[1..], b);
    }
  }

  /** A digit of the normalised text is a digit of the input. */
  lemma {:induction false} NormalizeDigits(s: string, k: nat)
    requires k < |Normalize(s)| && IsDigit(Normalize(s)[k])
    ensures exists i :: 0 <= i < |s| && s[i] == Normalize(s)[k]
  {
    if KeptChar(s[0]) && k == 0 {
      assert s[0] == Normalize(s)[0];
    } else {
      var k' := if KeptChar(s[0]) then k - 1 else k;
      assert Normalize(s)[k] == Normalize(s[1..])[k'];
      NormalizeDigits(s[1..], k');
      var i :| 0 <= i < |s[1..]| && s[1..][i] == Normalize(s[1..])[k'];
      assert s[i + 1] == s[1..][i];
    }
  }

  /** Digits need no normalising. */
  lemma {:induction false} NormalizeDigitString(s: string)
    requires forall i :: 0 <= i < |s| ==> IsDigit(s[i])
    ensures Normalize(s) == s
  {
    if s != [] {
      NormalizeDigitString(s[1..]);
    }
  }

  /** `parts.find((value) => !Number.isNaN(value))` over `parts.map(Number)`. */
  function FirstNumber(parts: seq<string>): (r: Option<JsNumber>)
    ensures r.Some? ==> !r.value.NaN?
  {
    if parts == [] then None
    else if !NumberOf(parts[0]).NaN? then Some(NumberOf(parts[0]))
    else FirstNumber(parts[1..])
  }

  /** parseHours as written: a number other than NaN is returned unchanged
      (0 included), other falsy input is null, and a string is normalised,
      split at '-' and read as the first part that is a number. */
  function ParseHours(input: NumberInput): (r: Option<JsNumber>)
    ensures r.Some? ==> !r.value.NaN?
    ensures input.Num? && !input.n.NaN? ==> r == Some(input.n)
    ensures input.Missing? || input == Text("") || input == Num(NaN) ==> r.None?
  {
    match input
    case Num(n) => if n.NaN? then None else Some(n)
    case Missing => None
    case Text(s) =>
      if s == "" then None
      else
        var normalized := Normalize(s);
        if normalized == "" then None else FirstNumber(Split(normalized, '-'))
  }

  predicate HasDigit(s: string) {
    exists i :: 0 <= i < |s| && IsDigit(s[i])
  }

  /** A decimal literal has a digit. */
  lemma UnsignedDecimalHasDigit(s: string)
    requires UnsignedDecimal(s).Some?
    ensures HasDigit(s)
  {
    var d := IndexOf(s, '.');
    if d > 0 {
      assert s[..d][0] == s[0];
      assert IsDigit(s[0]);
    } else {
      assert s[d + 1..][0] == s[d + 1];
      assert IsDigit(s[d + 1]);
    }
  }

  /** A part holding only digits and points reads as NaN or a non-negative
      finite number, and a non-empty one that is a number holds a digit. */
  lemma NumberOfDigitsAndDots(p: string)
    requires forall i :: 0 <= i < |p| ==> DigitOrDot(p[i])
    ensures NumberOf(p).NaN? || (NumberOf(p).Finite? && NumberOf(p).r >= 0.0)
    ensures p != [] && !NumberOf(p).NaN? ==> HasDigit(p)
  {
    if p != [] {
      assert DigitOrDot(p[0]) && DigitOrDot(p[|p| - 1]);
      TrimOfUnpadded(p);
      assert p != "Infinity" by { assert "Infinity"[0] == 'I'; }
      if UnsignedDecimal(p).Some? {
        UnsignedDecimalHasDigit(p);
      }
    }
  }

  /** A character of a part of a split is a character of the string. */
  lemma {:induction false} SplitChars(s: string, c: char, j: nat, k: nat)
    requires j < |Split(s, c)| && k < |Split(s, c)[j]|
    ensures exists i :: 0 <= i < |s| && s[i] == Split(s, c)[j][k]
  {
    var rest := Split(s[1..], c);
    if s[0] == c {
      SplitChars(s[1..], c, j - 1, k);
      var i :| 0 <= i < |s[1..]| && s[1..][i] == rest[j - 1][k];
      assert s[i + 1] == s[1..][i];
    } else if j == 0 && k == 0 {
      assert s[0] == Split(s, c)[0][0];
    } else {
      var j', k' := if j == 0 then 0 else j, if j == 0 then k - 1 else k;
      assert Split(s, c)[j][k] == rest[j'][k'];
      SplitChars(s[1..], c, j', k');
      var i :| 0 <= i < |s[1..]| && s[1..][i] == rest[j'][k'];
      assert s[i + 1] == s[1..][i];
    }
  }

  /** Every part of the normalised text holds only digits and points. */
  lemma PartsOfNormalized(s: string, j: nat)
    requires j < |Split(Normalize(s), '-')|
    ensures forall k :: 0 <= k < |Split(Normalize(s), '-')[j]| ==> DigitOrDot(Split(Normalize(s), '-')[j][k])
  {
    var parts := Split(Normalize(s), '-');
    forall k | 0 <= k < |parts[j]|
      ensures DigitOrDot(parts[j][k])
    {
      SplitChars(Normalize(s), '-', j, k);
    }
  }

  /** The first number of parts holding only digits and points is a
      non-negative finite number. */
  lemma {:induction false} FirstNumberOfParts(s: string, parts: seq<string>)
    requires forall j :: 0 <= j < |parts| ==> parts[j] in Split(Normalize(s), '-')
    requires FirstNumber(parts).Some?
    ensures FirstNumber(parts).value.Finite? && FirstNumber(parts).value.r >= 0.0
  {
    var j :| 0 <= j < |Split(Normalize(s), '-')| && Split(Normalize(s), '-')[j] == parts[0];
    PartsOfNormalized(s, j);
    NumberOfDigitsAndDots(parts[0]);
    if NumberOf(parts[0]).NaN? {
      FirstNumberOfParts(s, parts[1..]);
    }
  }

  /** Text never reads as a negative hour count: '-' only separates parts. */
  lemma ParseHoursTextNonNegative(s: string)
    requires ParseHours(Text(s)).Some?
    ensures ParseHours(Text(s)).value.Finite? && ParseHours(Text(s)).value.r >= 0.0
  {
    FirstNumberOfParts(s, Split(Normalize(s), '-'));
  }

  /** A range "n–m" followed by a unit without digits, points or dashes
      normalises to "n-m". */
  lemma NormalizeRange(n: nat, m: nat, unit: string)
    requires forall i :: 0 <= i < |unit| ==> !KeptChar(unit[i])
    ensures Normalize(NatToString(n) + [EN_DASH] + NatToString(m) + unit)
            == NatToString(n) + "-" + NatToString(m)
  {
    var a, b := NatToString(n), NatToString(m);
    NormalizeDigitString(a);
    NormalizeDigitString(b);
    NormalizeNothingKept(unit);
    var x := a + [EN_DASH];
    NormalizeAppend(a, [EN_DASH]);
    assert Normalize([EN_DASH]) == "-";
    var y := x + b;
    NormalizeAppend(x, b);
    NormalizeAppend(y, unit);
    assert y + unit == NatToString(n) + [EN_DASH] + NatToString(m) + unit;
  }

  /** ... which splits into the two numbers. */
  lemma RangeParts(n: nat, m: nat, unit: string)
    requires forall i :: 0 <= i < |unit| ==> !KeptChar(unit[i])
    ensures Normalize(NatToString(n) + [EN_DASH] + NatToString(m) + unit) != []
    ensures Split(Normalize(NatToString(n) + [EN_DASH] + NatToString(m) + unit), '-')
            == [NatToString(n), NatToString(m)]
  {
    NormalizeRange(n, m, unit);
    SplitDigitRange(NatToString(n), NatToString(m));
  }

  lemma SplitDigitRange(a: string, b: string)
    requires AllDigits(a) && AllDigits(b)
    ensures Split(a + "-" + b, '-') == [a, b]
  {
    assert '-' !in a by { assert forall i :: 0 <= i < |a| ==> IsDigit(a[i]); }
    assert '-' !in b by { assert forall i :: 0 <= i < |b| ==> IsDigit(b[i]); }
    SplitPrefix(a, b, '-');
    SplitNoSeparator(b, '-');
  }

  /** A range such as "14–16 h" reads as its first number. */
  lemma ParseHoursRange(n: nat, m: nat, unit: string)
    requires forall i :: 0 <= i < |unit| ==> !KeptChar(unit[i])
    ensures ParseHours(Text(NatToString(n) + [EN_DASH] + NatToString(m) + unit)) == Some(Finite(n as real))
  {
    RangeParts(n, m, unit);
    NumberOfNatString(n);
  }

  lemma {:induction false} NormalizeNothingKept(s: string)
    requires forall i :: 0 <= i < |s| ==> !KeptChar(s[i])
    ensures Normalize(s) == []
  {
    if s != [] {
      NormalizeNothingKept(s[1..]);
    }
  }

  /** As written, a lone dash reads as 0 hours: splitting "-" gives two empty
      parts and Number("") is 0. */
  lemma ParseHoursLoneDash()
    ensures ParseHours(Text("-")) == Some(Finite(0.0))
    ensures ParseHours(Text([EN_DASH])) == Some(Finite(0.0))
  {
    assert Normalize("-") == "-";
    assert Normalize([EN_DASH]) == "-";
    SplitPrefix("", "", '-');
    NumberOfBlank("");
  }

  /** `parts.filter(p => p !== '')` before the search: empty parts are not
      numbers. */
  function FirstNonEmptyNumber(parts: seq<string>): (r: Option<JsNumber>)
    ensures r.Some? ==> !r.value.NaN?
    ensures r.Some? ==> exists j :: 0 <= j < |parts| && parts[j] != "" && NumberOf(parts[j]) == r.value
  {
    if parts == [] then None
    else if parts[0] != "" && !NumberOf(parts[0]).NaN? then Some(NumberOf(parts[0]))
    else
      var r := FirstNonEmptyNumber(parts[1..]);
      assert r.Some? ==> exists j :: 1 <= j < |parts| && parts[j] != "" && NumberOf(parts[j]) == r.value by {
        if r.Some? {
          var j :| 0 <= j < |parts[1..]| && parts[1..][j] != "" && NumberOf(parts[1..][j]) == r.value;
          assert parts[j + 1] == parts[1..][j];
        }
      }
      r
  }

  /** parseHours as evidently intended: empty parts between dashes are not
      read as 0. */
  function ParseHoursCorrected(input: NumberInput): (r: Option<JsNumber>)
    ensures r.Some? ==> !r.value.NaN?
    ensures input.Num? && !input.n.NaN? ==> r == Some(input.n)
    ensures input.Missing? || input == Text("") || input == Num(NaN) ==> r.None?
  {
    match input
    case Num(n) => if n.NaN? then None else Some(n)
    case Missing => None
    case Text(s) =>
      if s == "" then None
      else
        var normalized := Normalize(s);
        if normalized == "" then None else FirstNonEmptyNumber(Split(normalized, '-'))
  }

  /** Corrected, text yields an hour count only when it holds a digit, so a
      lone dash is null. */
  lemma ParseHoursCorrectedNeedsDigit(s: string)
    requires ParseHoursCorrected(Text(s)).Some?
    ensures HasDigit(s)
  {
    var normalized := Normalize(s);
    var parts := Split(normalized, '-');
    var j :| 0 <= j < |parts| && parts[j] != "" && NumberOf(parts[j]) == ParseHoursCorrected(Text(s)).value;
    PartsOfNormalized(s, j);
    NumberOfDigitsAndDots(parts[j]);
    var k :| 0 <= k < |parts[j]| && IsDigit(parts[j][k]);
    SplitChars(normalized, '-', j, k);
    var m :| 0 <= m < |normalized| && normalized[m] == parts[j][k];
    NormalizeDigits(s, m);
  }

  /** The correction keeps the range reading. */
  lemma ParseHoursCorrectedRange(n: nat, m: nat, unit: string)
    requires forall i :: 0 <= i < |unit| ==> !KeptChar(unit[i])
    ensures ParseHoursCorrected(Text(NatToString(n) + [EN_DASH] + NatToString(m) + unit)) == Some(Finite(n as real))
  {
    RangeParts(n, m, unit);
    NumberOfNatString(n);
    assert NatToString(n) != "";
    assert FirstNonEmptyNumber([NatToString(n), NatToString(m)]) == Some(Finite(n as real));
  }

  // ---------------------------------------------------------------------------
  // coerceNumber

  /** The end of the run of digits starting at `i`. */
  function DigitRun(s: string, i: nat): (j: nat)
    requires i <= |s|
    ensures i <= j <= |s|
    ensures forall k :: i <= k < j ==> IsDigit(s[k])
    ensures j == |s| || !IsDigit(s[j])
    decreases |s| - i
  {
    if i < |s| && IsDigit(s[i]) then DigitRun(s, i + 1) else i
  }

  /** The end of a match of `-?\d+(\.\d+)?` starting at `i`, if one starts
      there: the quantifiers are greedy. */
  function MatchAt(s: string, i: nat): (r: Option<nat>)
    requires i < |s|
    ensures r.Some? ==> i < r.value <= |s|
  {
    var start := if s[i] == '-' then i + 1 else i;
    if start < |s| && IsDigit(s[start]) then
      var j := DigitRun(s, start);
      Some(if j + 1 < |s| && s[j] == '.' && IsDigit(s[j + 1]) then DigitRun(s, j + 1) else j)
    else None
  }

  /** `String.prototype.match` without the g flag: the leftmost match at or
      after `i`, as start and end. */
  function FirstMatch(s: string, i: nat): (r: Option<(nat, nat)>)
    requires i <= |s|
    ensures r.Some? ==> i <= r.value.0 < |s| && MatchAt(s, r.value.0) == Some(r.value.1)
    ensures r.Some? ==> forall k :: i <= k < r.value.0 ==> MatchAt(s, k).None?
    ensures r.None? ==> forall k :: i <= k < |s| ==> MatchAt(s, k).None?
    decreases |s| - i
  {
    if i == |s| then None
    else if MatchAt(s, i).Some? then Some((i, MatchAt(s, i).value))
    else FirstMatch(s, i + 1)
  }

  /** coerceNumber: a number is returned unless NaN; other falsy input is
      null; a string gives the number of its first match, or null. */
  function CoerceNumber(input: NumberInput): (r: Option<JsNumber>)
    ensures r.Some? ==> !r.value.NaN?
    ensures input.Num? && !input.n.NaN? ==> r == Some(input.n)
    ensures input.Missing? || input == Text("") || input == Num(NaN) ==> r.None?
  {
    match input
    case Num(n) => if n.NaN? then None else Some(n)
    case Missing => None
    case Text(s) =>
      if s == "" then None
      else
        match FirstMatch(s, 0)
        case None => None
        case Some((a, b)) => if NumberOf(s[a..b]).NaN? then None else Some(NumberOf(s[a..b]))
  }

  /** Text without a digit holds no number. */
  lemma CoerceNumberNoDigit(s: string)
    requires !HasDigit(s)
    ensures CoerceNumber(Text(s)) == None
  {
    if s != "" {
      forall k | 0 <= k < |s|
        ensures MatchAt(s, k).None?
      {
        var start := if s[k] == '-' then k + 1 else k;
        assert start < |s| ==> !IsDigit(s[start]);
      }
    }
  }

  /** A whole number at the start is read up to the first character that
      neither continues it nor starts a fraction ("25 %" is 25). */
  lemma CoerceNumberLeadingNat(n: nat, rest: string)
    requires rest == [] || (!IsDigit(rest[0]) && rest[0] != '.')
    ensures CoerceNumber(Text(NatToString(n) + rest)) == Some(Finite(n as real))
  {
    var a := NatToString(n);
    var s := a + rest;
    assert s[..|a|] == a;
    assert forall k :: 0 <= k < |a| ==> IsDigit(s[k]);
    assert |a| < |s| ==> s[|a|] == rest[0];
    assert DigitRun(s, 0) == |a|;
    assert MatchAt(s, 0) == Some(|a|);
    NumberOfNatString(n);
  }

  /** A leading minus sign before digits is part of the number. */
  lemma CoerceNumberLeadingNegative(n: nat, rest: string)
    requires rest == [] || (!IsDigit(rest[0]) && rest[0] != '.')
    ensures CoerceNumber(Text("-" + NatToString(n) + rest)) == Some(Finite(-(n as real)))
  {
    var a := NatToString(n);
    var s := "-" + a + rest;
    assert s[..1 + |a|] == "-" + a;
    assert forall k :: 1 <= k < 1 + |a| ==> IsDigit(s[k]);
    assert 1 + |a| < |s| ==> s[1 + |a|] == rest[0];
    assert DigitRun(s, 1) == 1 + |a|;
    assert MatchAt(s, 0) == Some(1 + |a|);
    NumberOfNegatedNatString(n);
  }

  /** The run of digits from `i` ends wherever the digits stop. */
  lemma DigitRunOf(s: string, i: nat, j: nat)
    requires i <= j <= |s|
    requires forall k :: i <= k < j ==> IsDigit(s[k])
    requires j == |s| || !IsDigit(s[j])
    ensures DigitRun(s, i) == j
  {
  }

  /** A match is an optional minus sign, digits, and optionally a point and
      more digits. */
  lemma MatchParts(s: string, i: nat) returns (negative: bool, w: string, f: string)
    requires i < |s| && MatchAt(s, i).Some?
    ensures AllDigits(w) && AllDigits(f) && w != []
    ensures negative ==> s[i..MatchAt(s, i).value] == "-" + DecimalText(w, f)
    ensures !negative ==> s[i..MatchAt(s, i).value] == DecimalText(w, f)
  {
    negative := s[i] == '-';
    var start := if negative then i + 1 else i;
    var j := DigitRun(s, start);
    var e := MatchAt(s, i).value;
    assert start < j;
    w := s[start..j];
    if e == j {
      f := "";
    } else {
      assert s[j] == '.' && j + 1 < e && e == DigitRun(s, j + 1);
      f := s[j + 1..e];
      SliceThree(s, start, j, e);
    }
    assert s[start..e] == DecimalText(w, f);
    if negative {
      assert s[i..e] == [s[i]] + s[start..e];
    }
  }

  /** A slice around one character is the two slices beside it and it. */
  lemma SliceThree(s: string, a: nat, j: nat, e: nat)
    requires a <= j < e <= |s|
    ensures s[a..e] == s[a..j] + [s[j]] + s[j + 1..e]
  {
  }

  /** Every match of `-?\d+(\.\d+)?` reads as a finite number. */
  lemma MatchIsFinite(s: string, i: nat)
    requires i < |s| && MatchAt(s, i).Some?
    ensures NumberOf(s[i..MatchAt(s, i).value]).Finite?
  {
    var negative, w, f := MatchParts(s, i);
    if negative {
      NumberOfNegativeDecimal(w, f);
    } else {
      NumberOfDecimal(w, f);
    }
  }

  /** Text holding a digit always yields a finite number. */
  lemma CoerceNumberHasDigit(s: string)
    requires HasDigit(s)
    ensures CoerceNumber(Text(s)).Some? && CoerceNumber(Text(s)).value.Finite?
  {
    var k :| 0 <= k < |s| && IsDigit(s[k]);
    assert MatchAt(s, k).Some?;
    var m := FirstMatch(s, 0);
    assert m.Some?;
    MatchIsFinite(s, m.value.0);
  }

  /** Digits, a point and digits at the start are matched up to the end of
      the fraction digits. */
  lemma LeadingDecimalMatch(w: string, f: string, rest: string)
    requires AllDigits(w) && AllDigits(f) && w != [] && f != []
    requires rest == [] || !IsDigit(rest[0])
    ensures var s := w + "." + f + rest;
            MatchAt(s, 0) == Some(|w| + 1 + |f|) && s[0..|w| + 1 + |f|] == DecimalText(w, f)
  {
    var s := w + "." + f + rest;
    var e := |w| + 1 + |f|;
    assert s[0..e] == DecimalText(w, f);
    assert forall k :: 0 <= k < |w| ==> s[k] == w[k];
    assert s[|w|] == '.';
    DigitRunOf(s, 0, |w|);
    assert forall k :: |w| + 1 <= k < e ==> s[k] == f[k - |w| - 1];
    assert e < |s| ==> s[e] == rest[0];
    DigitRunOf(s, |w| + 1, e);
  }

  /** A match at the start is the leftmost one. */
  lemma FirstMatchAtStart(s: string)
    requires s != [] && MatchAt(s, 0).Some?
    ensures FirstMatch(s, 0) == Some((0, MatchAt(s, 0).value))
  {
  }

  /** Digits, a point and digits at the start coerce to their decimal value. */
  lemma CoerceNumberLeadingDecimalText(w: string, f: string, rest: string)
    requires AllDigits(w) && AllDigits(f) && w != [] && f != []
    requires rest == [] || !IsDigit(rest[0])
    ensures CoerceNumber(Text(w + "." + f + rest)) == Some(Finite(DecimalValue(w, f)))
  {
    LeadingDecimalMatch(w, f, rest);
    FirstMatchAtStart(w + "." + f + rest);
    NumberOfDecimal(w, f);
  }

  /** A leading number with a fraction reads as its decimal value: "12.5 C"
      is 12.5. */
  lemma CoerceNumberLeadingDecimal(n: nat, f: string, rest: string)
    requires AllDigits(f) && f != []
    requires rest == [] || !IsDigit(rest[0])
    ensures CoerceNumber(Text(NatToString(n) + "." + f + rest))
            == Some(Finite(n as real + DigitsValue(f) as real / Pow10(|f|) as real))
  {
    var a := NatToString(n);
    CoerceNumberLeadingDecimalText(a, f, rest);
    NatToStringRoundTrip(n);
    assert DecimalValue(a, f) == n as real + DigitsValue(f) as real / Pow10(|f|) as real;
  }

  // ---------------------------------------------------------------------------
  // isWithinBounds

  datatype Bounds = Bounds(min: real, max: real)

  /** isWithinBounds: anything that is not a number, or no bounds, passes;
      a number must lie in [min, max], which NaN and the infinities never do. */
  predicate IsWithinBounds(value: Option<JsNumber>, bounds: Option<Bounds>) {
    if value.None? || bounds.None? then true
    else
      match value.value
      case Finite(x) => bounds.value.min <= x <= bounds.value.max
      case _ => false
  }

  /** Inclusive at both ends; a number outside either end fails. */
  lemma WithinBoundsInclusive(x: real, b: Bounds)
    requires b.min <= b.max
    ensures IsWithinBounds(Some(Finite(b.min)), Some(b)) && IsWithinBounds(Some(Finite(b.max)), Some(b))
    ensures x < b.min || x > b.max ==> !IsWithinBounds(Some(Finite(x)), Some(b))
    ensures !IsWithinBounds(Some(NaN), Some(b))
    ensures IsWithinBounds(None, Some(b)) && IsWithinBounds(Some(Finite(x)), None)
  {
  }
}
