/** Shared vocabulary of the model: an Option and a Result, the JavaScript string
    operations the TypeScript code relies on (trim, join, split, case mapping,
    number rendering), the untyped values that JSON and YAML parsers produce, and
    the JavaScript number domain with NaN and the infinities. */
module Common {

  datatype Option<T> = None | Some(value: T) {
    /** The `??` operator: the value, or the default when absent. */
    function GetOr(default: T): T {
      if Some? then value else default
    }
  }

  datatype Result<T, E> = Success(value: T) | Failure(error: E)

  /** A JavaScript number: a finite value, NaN, or one of the infinities. */
  datatype JsNumber = Finite(r: real) | NaN | PosInf | NegInf

  /** A telemetry sample (TelemetrySample of the shared schemas): an ISO
      timestamp and the sensor readings. */
  datatype TelemetrySample = TelemetrySample(
    timestamp: string, temperature: real, humidity: real, soilMoisture: real,
    lightHours: Option<real>, sensor: Option<string>)

  /** getLatestTelemetry: the last stored sample, or null when there is none. */
  function LatestTelemetry(samples: seq<TelemetrySample>): (r: Option<TelemetrySample>)
    ensures r.None? <==> samples == []
    ensures r.Some? ==> r.value in samples && r.value == samples[|samples| - 1]
  {
    if samples == [] then None else Some(samples[|samples| - 1])
  }

  /** An untyped value as JSON.parse or a YAML parser yields it. Numbers are
      integers here; `undefined` (a missing property) is `None` of an Option. */
  datatype Json =
    | JNull
    | JBool(b: bool)
    | JNum(n: int)
    | JStr(s: string)
    | JArr(items: seq<Json>)
    | JObj(fields: seq<(string, Json)>)

  /** Property access `obj[key]` on an object's entries: undefined when absent. */
  function Lookup(fields: seq<(string, Json)>, key: string): (r: Option<Json>)
    ensures r.Some? <==> exists i :: 0 <= i < |fields| && fields[i].0 == key
    ensures r.Some? ==> exists i :: 0 <= i < |fields| && fields[i] == (key, r.value)
  {
    if fields == [] then None
    else if fields[0].0 == key then Some(fields[0].1)
    else Lookup(fields[1..], key)
  }

  /** `typeof v === 'object' && v !== null && !Array.isArray(v)` */
  predicate IsPlainObject(v: Option<Json>) {
    v.Some? && v.value.JObj?
  }

  /** The `??` operator on possibly-missing untyped values: skips undefined and null. */
  function Coalesce(a: Option<Json>, b: Option<Json>): (r: Option<Json>)
    ensures r == a || r == b
    ensures a.Some? && a.value != JNull ==> r == a
  {
    if a.Some? && a.value != JNull then a else b
  }

  // ---------------------------------------------------------------------------
  // Characters and trimming

  /** The characters String.prototype.trim removes: JavaScript's WhiteSpace and
      LineTerminator productions. */
  predicate IsSpace(c: char) {
    c == ' ' || c == '\t' || c == '\n' || c == '\r' || c == '\U{000B}' || c == '\U{000C}'
    || c == '\U{00A0}' || c == '\U{1680}' || ('\U{2000}' <= c <= '\U{200A}')
    || c == '\U{2028}' || c == '\U{2029}' || c == '\U{202F}' || c == '\U{205F}'
    || c == '\U{3000}' || c == '\U{FEFF}'
  }

  predicate IsBlank(s: string) {
    forall i :: 0 <= i < |s| ==> IsSpace(s[i])
  }

  lemma BlankCons(c: char, t: string)
    ensures IsBlank([c] + t) <==> IsSpace(c) && IsBlank(t)
  {
    assert ([c] + t)[0] == c;
    assert forall i :: 0 <= i < |t| ==> ([c] + t)[i + 1] == t[i];
    assert forall i :: 1 <= i < |[c] + t| ==> ([c] + t)[i] == t[i - 1];
  }

  predicate IsDigit(c: char) {
    '0' <= c <= '9'
  }

  function DigitValue(c: char): (d: nat)
    requires IsDigit(c)
    ensures d < 10
  {
    (c as int - '0' as int) as nat
  }

  /** The number of whitespace characters at the start of `s`. */
  function LeadingSpaces(s: string): (k: nat)
    ensures k <= |s|
    ensures forall i :: 0 <= i < k ==> IsSpace(s[i])
    ensures k < |s| ==> !IsSpace(s[k])
  {
    if s != [] && IsSpace(s[0]) then
      var k := LeadingSpaces(s[1..]);
      assert forall i :: 1 <= i < 1 + k ==> s[i] == s[1..][i - 1];
      1 + k
    else 0
  }

  function TrimStart(s: string): (r: string)
    ensures |r| <= |s|
    ensures r == [] || !IsSpace(r[0])
    ensures IsBlank(s[..|s| - |r|])
  {
    s[LeadingSpaces(s)..]
  }

  function TrimEnd(s: string): (r: string)
    ensures |r| <= |s| && r == s[..|r|]
    ensures r == [] || !IsSpace(r[|r| - 1])
    ensures IsBlank(s[|r|..])
  {
    if s != [] && IsSpace(s[|s| - 1]) then
      var r := TrimEnd(s[..|s| - 1]);
      assert s[..|s| - 1][|r|..] == s[|r|..|s| - 1];
      assert forall i :: |r| <= i < |s| ==> IsSpace(s[i]) by {
        forall i | |r| <= i < |s| ensures IsSpace(s[i]) {
          if i < |s| - 1 { assert s[i] == s[|r|..|s| - 1][i - |r|]; }
        }
      }
      r
    else s
  }

  /** String.prototype.trim. */
  function Trim(s: string): (r: string)
    ensures |r| <= |s|
    ensures r == [] || (!IsSpace(r[0]) && !IsSpace(r[|r| - 1]))
    ensures r == [] <==> IsBlank(s)
  {
    var a := TrimStart(s);
    var r := TrimEnd(a);
    assert r == [] ==> IsBlank(s) by {
      if r == [] {
        assert a == [];
        assert s[..|s|] == s;
      }
    }
    r
  }

  lemma {:induction false} TrimStartOfUnpadded(s: string)
    requires s == [] || !IsSpace(s[0])
    ensures TrimStart(s) == s
  {
  }

  lemma {:induction false} TrimEndOfUnpadded(s: string)
    requires s == [] || !IsSpace(s[|s| - 1])
    ensures TrimEnd(s) == s
  {
  }

  /** A string without surrounding whitespace is its own trim. */
  lemma {:induction false} TrimOfUnpadded(t: string)
    requires t == [] || (!IsSpace(t[0]) && !IsSpace(t[|t| - 1]))
    ensures Trim(t) == t
  {
    TrimStartOfUnpadded(t);
    TrimEndOfUnpadded(t);
  }

  /** Trimming is idempotent. */
  lemma {:induction false} TrimIdempotent(s: string)
    ensures Trim(Trim(s)) == Trim(s)
  {
    TrimOfUnpadded(Trim(s));
  }

  /** JavaScript truthiness of a string, with `.trim()`: `v && v.trim()`. */
  predicate NonBlank(v: Option<string>) {
    v.Some? && Trim(v.value) != ""
  }

  /** A string that JavaScript treats as truthy. */
  predicate Truthy(v: Option<string>) {
    v.Some? && v.value != ""
  }

  // ---------------------------------------------------------------------------
  // Joining and splitting

  /** Array.prototype.join on strings. */
  function Join(parts: seq<string>, sep: string): string
  {
    if |parts| == 0 then ""
    else if |parts| == 1 then parts[0]
    else parts[0] + sep + Join(parts[1..], sep)
  }

  lemma {:induction false} JoinAppend(a: seq<string>, b: seq<string>, sep: string)
    requires a != [] && b != []
    ensures Join(a + b, sep) == Join(a, sep) + sep + Join(b, sep)
  {
    if |a| == 1 {
      assert (a + b)[1..] == b;
    } else {
      assert (a + b)[1..] == a[1..] + b;
      JoinAppend(a[1..], b, sep);
    }
  }

  lemma {:induction false} JoinLength(parts: seq<string>, sep: string)
    requires parts != []
    ensures |Join(parts, sep)| >= |parts[0]|
    ensures |parts| > 1 ==> |Join(parts, sep)| >= |parts[0]| + |sep| + |parts[|parts| - 1]|
  {
    if |parts| > 2 {
      JoinLength(parts[1..], sep);
    }
  }

  /** Appending one part adds a separator and that part. */
  lemma JoinSnoc(parts: seq<string>, x: string, sep: string)
    requires parts != []
    ensures Join(parts + [x], sep) == Join(parts, sep) + sep + x
  {
    JoinAppend(parts, [x], sep);
  }

  /** A six-part join written out. */
  lemma JoinSix(a: string, b: string, c: string, d: string, e: string, f: string, sep: string)
    ensures Join([a, b, c, d, e, f], sep) == a + sep + b + sep + c + sep + d + sep + e + sep + f
  {
    assert Join([f], sep) == f;
    assert Join([e, f], sep) == e + sep + Join([f], sep);
    assert Join([d, e, f], sep) == d + sep + Join([e, f], sep);
    assert Join([c, d, e, f], sep) == c + sep + Join([d, e, f], sep);
    assert Join([b, c, d, e, f], sep) == b + sep + Join([c, d, e, f], sep);
    assert Join([a, b, c, d, e, f], sep) == a + sep + Join([b, c, d, e, f], sep);
  }

  /** A prefix of `s` stays a prefix when text is appended to `s`. */
  lemma StartsWithAppend(s: string, p: string, t: string)
    requires StartsWith(s, p)
    ensures StartsWith(s + t, p)
  {
    assert (s + t)[..|p|] == s[..|p|];
  }

  /** A prefix of a prefix is a prefix. */
  lemma StartsWithTrans(s: string, p: string, q: string)
    requires StartsWith(s, p) && StartsWith(p, q)
    ensures StartsWith(s, q)
  {
    assert s[..|q|] == s[..|p|][..|q|];
  }

  /** A string ends with any suffix it was built from. */
  lemma SuffixOfConcat(p: string, t: string)
    ensures EndsWith(p + t, t)
  {
    assert (p + t)[|p|..] == t;
  }

  /** A string begins with any prefix it was built from. */
  lemma PrefixOfConcat(p: string, t: string)
    ensures StartsWith(p + t, p)
  {
    assert (p + t)[..|p|] == p;
  }

  /** String.prototype.split with a one-character separator. */
  function Split(s: string, c: char): (r: seq<string>)
    ensures |r| >= 1
    ensures forall i :: 0 <= i < |r| ==> c !in r[i]
  {
    if s == [] then [""]
    else
      var rest := Split(s[1..], c);
      if s[0] == c then [""] + rest else [[s[0]] + rest[0]] + rest[1..]
  }

  /** Splitting and re-joining with the same separator gives back the string. */
  lemma {:induction false} SplitJoin(s: string, c: char)
    ensures Join(Split(s, c), [c]) == s
  {
    if s != [] {
      var rest := Split(s[1..], c);
      SplitJoin(s[1..], c);
      if s[0] == c {
        assert Split(s, c) == [""] + rest;
        if |rest| == 1 {
          assert Join([""] + rest, [c]) == "" + [c] + rest[0];
        } else {
          assert ([""] + rest)[1..] == rest;
        }
      } else {
        var r := Split(s, c);
        assert r == [[s[0]] + rest[0]] + rest[1..];
        if |rest| == 1 {
          assert Join(r, [c]) == [s[0]] + rest[0];
        } else {
          assert r[1..] == rest[1..];
          assert Join(rest, [c]) == rest[0] + [c] + Join(rest[1..], [c]);
        }
      }
    }
  }

  /** Joining parts that do not contain the separator and splitting again gives
      back the parts. */
  lemma {:induction false} JoinSplit(parts: seq<string>, c: char)
    requires parts != []
    requires forall i :: 0 <= i < |parts| ==> c !in parts[i]
    ensures Split(Join(parts, [c]), c) == parts
  {
    if |parts| == 1 {
      SplitNoSeparator(parts[0], c);
    } else {
      JoinSplit(parts[1..], c);
      SplitPrefix(parts[0], Join(parts[1..], [c]), c);
    }
  }

  lemma {:induction false} SplitNoSeparator(s: string, c: char)
    requires c !in s
    ensures Split(s, c) == [s]
  {
    if s != [] {
      SplitNoSeparator(s[1..], c);
      assert [s[0]] + s[1..] == s;
    }
  }

  lemma {:induction false} SplitPrefix(p: string, t: string, c: char)
    requires c !in p
    ensures Split(p + [c] + t, c) == [p] + Split(t, c)
  {
    if p == [] {
      assert p + [c] + t == [c] + t;
      assert ([c] + t)[1..] == t;
    } else {
      var whole := p + [c] + t;
      assert whole[0] == p[0] && whole[1..] == p[1..] + [c] + t;
      SplitPrefix(p[1..], t, c);
      assert [p[0]] + p[1..] == p;
    }
  }

  // ---------------------------------------------------------------------------
  // Prefixes and infixes

  predicate StartsWith(s: string, p: string) {
    |p| <= |s| && s[..|p|] == p
  }

  /** String.prototype.endsWith. */
  predicate EndsWith(s: string, t: string) {
    |t| <= |s| && s[|s| - |t|..] == t
  }

  /** String.prototype.includes. */
  predicate Contains(s: string, p: string)
    decreases |s|
  {
    StartsWith(s, p) || (s != [] && Contains(s[1..], p))
  }

  // ---------------------------------------------------------------------------
  // Case mapping (ASCII letters; other characters are left unchanged)

  function UpperChar(c: char): char {
    if 'a' <= c <= 'z' then (c as int - 32) as char else c
  }

  function LowerChar(c: char): char {
    if 'A' <= c <= 'Z' then (c as int + 32) as char else c
  }

  /** String.prototype.toUpperCase. */
  function ToUpper(s: string): (r: string)
    ensures |r| == |s| && forall i :: 0 <= i < |s| ==> r[i] == UpperChar(s[i])
  {
    seq(|s|, i requires 0 <= i < |s| => UpperChar(s[i]))
  }

  /** String.prototype.toLowerCase. */
  function ToLower(s: string): (r: string)
    ensures |r| == |s| && forall i :: 0 <= i < |s| ==> r[i] == LowerChar(s[i])
  {
    seq(|s|, i requires 0 <= i < |s| => LowerChar(s[i]))
  }

  // ---------------------------------------------------------------------------
  // Decimal rendering of integers, as template literals render them

  function DigitChar(d: nat): (c: char)
    requires d < 10
    ensures IsDigit(c) && DigitValue(c) == d
  {
    ('0' as int + d) as char
  }

  function NatToString(n: nat): (r: string)
    ensures |r| >= 1
    ensures forall i :: 0 <= i < |r| ==> IsDigit(r[i])
    ensures |r| > 1 ==> r[0] != '0'
  {
    if n < 10 then [DigitChar(n)] else NatToString(n / 10) + [DigitChar(n % 10)]
  }

  /** The value of a string of decimal digits. */
  function DigitsValue(s: string): nat
    requires forall i :: 0 <= i < |s| ==> IsDigit(s[i])
  {
    if s == [] then 0 else 10 * DigitsValue(s[..|s| - 1]) + DigitValue(s[|s| - 1])
  }

  /** Rendering a natural number and reading its digits back gives the number. */
  lemma {:induction false} NatToStringRoundTrip(n: nat)
    ensures DigitsValue(NatToString(n)) == n
  {
    if n >= 10 {
      var s := NatToString(n);
      assert s[..|s| - 1] == NatToString(n / 10);
      NatToStringRoundTrip(n / 10);
    }
  }

  /** Distinct numbers are rendered differently. */
  lemma NatToStringInjective(m: nat, n: nat)
    requires NatToString(m) == NatToString(n)
    ensures m == n
  {
    NatToStringRoundTrip(m);
    NatToStringRoundTrip(n);
  }

  function IntToString(n: int): (r: string)
    ensures |r| >= 1
  {
    if n < 0 then "-" + NatToString(-n) else NatToString(n)
  }

  /** `String(v)` (and template-literal interpolation) of an untyped value. */
  function JsString(v: Json): string
    decreases v, 1
  {
    match v
    case JNull => "null"
    case JBool(b) => if b then "true" else "false"
    case JNum(n) => IntToString(n)
    case JStr(s) => s
    case JArr(items) => ArrayString(items)
    case JObj(_) => "[object Object]"
  }

  /** An array's `String`: its elements joined with ",", null elements as "". */
  function ArrayString(items: seq<Json>): string
    decreases items, 0
  {
    if items == [] then ""
    else
      var head := if items[0].JNull? then "" else JsString(items[0]);
      if |items| == 1 then head else head + "," + ArrayString(items[1..])
  }

  // ---------------------------------------------------------------------------
  // Array.prototype.slice

  /** A relative index as slice resolves it: negative counts from the end. */
  function RelIndex(k: int, n: nat): (r: nat)
    ensures r <= n
    ensures k >= 0 ==> r == if k <= n then k else n
    ensures k < 0 ==> r == if n + k >= 0 then n + k else 0
  {
    if k < 0 then (if n + k < 0 then 0 else n + k) else if k > n then n else k
  }

  function Slice<T>(s: seq<T>, start: int, end: int): seq<T>
  {
    var a, b := RelIndex(start, |s|), RelIndex(end, |s|);
    if a < b then s[a..b] else []
  }

  /** `s.slice(start)`. */
  function SliceFrom<T>(s: seq<T>, start: int): seq<T>
  {
    s[RelIndex(start, |s|)..]
  }

  /** The first `n` elements, or all of them. */
  function Take<T>(s: seq<T>, n: nat): (r: seq<T>)
    ensures |r| == if n < |s| then n else |s|
    ensures r == s[..|r|]
    ensures n >= |s| ==> r == s
  {
    if n < |s| then s[..n] else s
  }

  // ---------------------------------------------------------------------------
  // Number(string), for decimal text

  predicate AllDigits(s: string) {
    forall i :: 0 <= i < |s| ==> IsDigit(s[i])
  }

  /** The index of the first `c` in `s`, or |s|. */
  function IndexOf(s: string, c: char): (k: nat)
    ensures k <= |s|
    ensures forall i :: 0 <= i < k ==> s[i] != c
    ensures k < |s| ==> s[k] == c
  {
    if s == [] || s[0] == c then 0
    else
      var k := IndexOf(s[1..], c);
      assert forall i :: 1 <= i < 1 + k ==> s[i] == s[1..][i - 1];
      1 + k
  }

  function Pow10(n: nat): (r: nat)
    ensures r >= 1
  {
    if n == 0 then 1 else 10 * Pow10(n - 1)
  }

  /** An unsigned decimal literal: digits, optionally a point and more digits,
      with at least one digit in all ("5", "5.", ".5", "0.25"). */
  function UnsignedDecimal(s: string): (r: Option<real>)
    ensures r.Some? ==> r.value >= 0.0
  {
    var d := IndexOf(s, '.');
    var whole := s[..d];
    var frac := if d < |s| then s[d + 1..] else "";
    if AllDigits(whole) && AllDigits(frac) && |whole| + |frac| > 0 then
      Some(DecimalValue(whole, frac))
    else None
  }

  /** The value of the literal with whole digits `w` and fraction digits `f`. */
  function DecimalValue(w: string, f: string): (v: real)
    requires AllDigits(w) && AllDigits(f)
    ensures v >= DigitsValue(w) as real
  {
    DigitsValue(w) as real + DigitsValue(f) as real / Pow10(|f|) as real
  }

  /** `Number(s)`: surrounding white space is ignored, the empty string is 0, a
      sign may precede "Infinity" or a decimal literal, anything else is NaN. */
  function NumberOf(s: string): JsNumber {
    var t := Trim(s);
    if t == "" then Finite(0.0)
    else
      var negative := t[0] == '-';
      var body := if t[0] == '-' || t[0] == '+' then t[1..] else t;
      if body == "Infinity" then (if negative then NegInf else PosInf)
      else
        match UnsignedDecimal(body)
        case None => NaN
        case Some(v) => Finite(if negative then -v else v)
  }

  /** The empty or all-white-space string is the number 0. */
  lemma NumberOfBlank(s: string)
    requires IsBlank(s)
    ensures NumberOf(s) == Finite(0.0)
  {
  }

  lemma DigitsUnpadded(s: string)
    requires AllDigits(s)
    ensures Trim(s) == s
    ensures IndexOf(s, '.') == |s|
  {
    if s != [] {
      DigitNotSpace(s[0]);
      DigitNotSpace(s[|s| - 1]);
    }
    TrimOfUnpadded(s);
    var k := IndexOf(s, '.');
    assert k < |s| ==> s[k] == '.' && IsDigit(s[k]);
  }

  lemma DigitNotSpace(c: char)
    requires IsDigit(c)
    ensures !IsSpace(c) && c != '.'
  {
  }

  lemma UnsignedDecimalOfDigits(s: string)
    requires AllDigits(s) && s != []
    ensures UnsignedDecimal(s) == Some(DigitsValue(s) as real)
  {
    DigitsUnpadded(s);
    assert s[..|s|] == s;
    assert AllDigits("") && DigitsValue("") == 0 && Pow10(0) == 1;
    assert DigitsValue("") as real / Pow10(0) as real == 0.0;
  }

  /** A non-empty string of digits reads as its decimal value. */
  lemma NumberOfDigits(s: string)
    requires AllDigits(s) && s != []
    ensures NumberOf(s) == Finite(DigitsValue(s) as real)
  {
    DigitsUnpadded(s);
    UnsignedDecimalOfDigits(s);
    assert IsDigit(s[0]);
    assert s != "Infinity" by { assert "Infinity"[0] == 'I'; }
  }

  /** The text of a natural number reads back as that number. */
  lemma NumberOfNatString(n: nat)
    ensures NumberOf(NatToString(n)) == Finite(n as real)
  {
    NumberOfDigits(NatToString(n));
    NatToStringRoundTrip(n);
  }

  /** A minus sign before the text of a natural number gives its negation. */
  lemma NumberOfNegatedNatString(n: nat)
    ensures NumberOf("-" + NatToString(n)) == Finite(-(n as real))
  {
    var s := NatToString(n);
    UnsignedDecimalOfDigits(s);
    NatToStringRoundTrip(n);
    NumberOfNegatedText(s, n as real);
  }

  /** Digits, a point and digits: the whole part ends at the point. */
  lemma UnsignedDecimalOfParts(w: string, f: string)
    requires AllDigits(w) && AllDigits(f) && w != []
    ensures UnsignedDecimal(w + "." + f) == Some(DecimalValue(w, f))
  {
    var s := w + "." + f;
    assert forall k :: 0 <= k < |w| ==> s[k] == w[k] && IsDigit(s[k]);
    assert s[|w|] == '.';
    assert IndexOf(s, '.') == |w|;
    assert s[..|w|] == w;
    assert s[|w| + 1..] == f;
  }

  /** Digits, then a point and more digits when there are any. */
  function DecimalText(w: string, f: string): (t: string)
    ensures |t| >= |w|
  {
    if f == [] then w else w + "." + f
  }

  /** Such a literal begins and ends with a digit and reads as its value. */
  lemma DecimalTextValue(w: string, f: string)
    requires AllDigits(w) && AllDigits(f) && w != []
    ensures DecimalText(w, f) != []
    ensures IsDigit(DecimalText(w, f)[0]) && IsDigit(DecimalText(w, f)[|DecimalText(w, f)| - 1])
    ensures UnsignedDecimal(DecimalText(w, f)) == Some(DecimalValue(w, f))
  {
    var t := DecimalText(w, f);
    assert t[0] == w[0];
    if f == [] {
      UnsignedDecimalOfDigits(w);
      assert DigitsValue("") == 0 && Pow10(0) == 1;
    } else {
      UnsignedDecimalOfParts(w, f);
      assert t[|t| - 1] == f[|f| - 1];
    }
  }

  /** Unsigned text that starts and ends with a digit reads as its literal. */
  lemma NumberOfUnsignedText(t: string, v: real)
    requires t != [] && IsDigit(t[0]) && IsDigit(t[|t| - 1]) && UnsignedDecimal(t) == Some(v)
    ensures NumberOf(t) == Finite(v)
  {
    DigitNotSpace(t[0]);
    DigitNotSpace(t[|t| - 1]);
    TrimOfUnpadded(t);
    assert t != "Infinity" by { assert "Infinity"[0] == 'I'; }
  }

  /** The same text after a minus sign reads as the negated literal. */
  lemma NumberOfNegatedText(t: string, v: real)
    requires t != [] && IsDigit(t[0]) && IsDigit(t[|t| - 1]) && UnsignedDecimal(t) == Some(v)
    ensures NumberOf("-" + t) == Finite(-v)
  {
    var u := "-" + t;
    assert u[0] == '-' && u[1..] == t && u[|u| - 1] == t[|t| - 1];
    DigitNotSpace(t[|t| - 1]);
    TrimOfUnpadded(u);
    assert t != "Infinity" by { assert "Infinity"[0] == 'I'; }
    NegativeText(u, v);
  }

  /** Digits, and optionally a point and more digits, read as the decimal
      value. */
  lemma NumberOfDecimal(w: string, f: string)
    requires AllDigits(w) && AllDigits(f) && w != []
    ensures NumberOf(DecimalText(w, f)) == Finite(DecimalValue(w, f))
  {
    DecimalTextValue(w, f);
    NumberOfUnsignedText(DecimalText(w, f), DecimalValue(w, f));
  }

  /** After a minus sign they read as the negated value. */
  lemma NumberOfNegativeDecimal(w: string, f: string)
    requires AllDigits(w) && AllDigits(f) && w != []
    ensures NumberOf("-" + DecimalText(w, f)) == Finite(-DecimalValue(w, f))
  {
    var t := DecimalText(w, f);
    DecimalTextValue(w, f);
    var u := "-" + t;
    assert u[0] == '-' && u[1..] == t && u[|u| - 1] == t[|t| - 1];
    DigitNotSpace(t[|t| - 1]);
    TrimOfUnpadded(u);
    assert t != "Infinity" by { assert "Infinity"[0] == 'I'; }
    NegativeText(u, DecimalValue(w, f));
  }

  lemma NegativeText(t: string, v: real)
    requires Trim(t) == t && t != [] && t[0] == '-'
    requires t[1..] != "Infinity" && UnsignedDecimal(t[1..]) == Some(v)
    ensures NumberOf(t) == Finite(-v)
  {
  }

  // ---------------------------------------------------------------------------
  // Array.prototype.filter

  /** The elements satisfying `p`, in their original order. */
  function Filter<T>(s: seq<T>, p: T -> bool): (r: seq<T>)
    ensures |r| <= |s|
    ensures forall i :: 0 <= i < |r| ==> p(r[i])
  {
    if s == [] then []
    else Filter(s[..|s| - 1], p) + (if p(s[|s| - 1]) then [s[|s| - 1]] else [])
  }

  /** An element is kept exactly when it occurs in the input and satisfies `p`. */
  lemma {:induction false} FilterMembers<T>(s: seq<T>, p: T -> bool, x: T)
    ensures x in Filter(s, p) <==> x in s && p(x)
  {
    if s != [] {
      FilterMembers(s[..|s| - 1], p, x);
      assert s == s[..|s| - 1] + [s[|s| - 1]];
    }
  }

  /** Filtering distributes over concatenation, so the order of the kept
      elements is the order of the input. */
  lemma {:induction false} FilterAppend<T>(a: seq<T>, b: seq<T>, p: T -> bool)
    ensures Filter(a + b, p) == Filter(a, p) + Filter(b, p)
  {
    if b == [] {
      assert a + b == a;
    } else {
      assert (a + b)[..|a + b| - 1] == a + b[..|b| - 1];
      FilterAppend(a, b[..|b| - 1], p);
    }
  }

  /** With every element satisfying `p` nothing is dropped. */
  lemma {:induction false} FilterAll<T>(s: seq<T>, p: T -> bool)
    requires forall i :: 0 <= i < |s| ==> p(s[i])
    ensures Filter(s, p) == s
  {
    if s != [] {
      FilterAll(s[..|s| - 1], p);
    }
  }

  /** With no element satisfying `p` nothing is kept. */
  lemma {:induction false} FilterNone<T>(s: seq<T>, p: T -> bool)
    requires forall i :: 0 <= i < |s| ==> !p(s[i])
    ensures Filter(s, p) == []
  {
    if s != [] {
      FilterNone(s[..|s| - 1], p);
    }
  }
}
