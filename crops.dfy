/** Crop defaults (backend/src/services/crops.ts): the crop's YAML document,
    read from under the RAG root, is projected onto the payload the setup
    wizard shows, and kept in a cache for a configurable time. The file
    system, the YAML parser, JSON.stringify and the clock are parameters. */
module Crops {
  import opened Common

  // ---------------------------------------------------------------------------
  // Paths

  /** An absolute path as its components below the file-system root. */
  type Path = seq<string>

  /** A normalised path: no empty, "." or ".." components and no separators. */
  predicate Normal(p: Path) {
    forall i :: 0 <= i < |p| ==> p[i] != "" && p[i] != "." && p[i] != ".." && '/' !in p[i]
  }

  /** path.resolve moving through the components of one segment: "" and "."
      stay, ".." goes up (never above the root), a name goes down. */
  function Walk(base: Path, comps: seq<string>): Path
    decreases |comps|
  {
    if comps == [] then base
    else
      var c := comps[0];
      var next :=
        if c == "" || c == "." then base
        else if c == ".." then (if base == [] then [] else base[..|base| - 1])
        else base + [c];
      Walk(next, comps[1..])
  }

  /** path.resolve(root, ...segments): an absolute segment starts again from
      the file-system root. */
  function ResolvePath(root: Path, segments: seq<string>): Path
    decreases |segments|
  {
    if segments == [] then root
    else ResolvePath(Walk(if StartsWith(segments[0], "/") then [] else root, Split(segments[0], '/')), segments[1..])
  }

  /** The number of leading components two paths share. */
  function CommonPrefix(a: Path, b: Path): (k: nat)
    ensures k <= |a| && k <= |b| && a[..k] == b[..k]
    ensures k < |a| && k < |b| ==> a[k] != b[k]
  {
    if a == [] || b == [] || a[0] != b[0] then 0
    else
      var k := CommonPrefix(a[1..], b[1..]);
      assert a[..k + 1] == [a[0]] + a[1..][..k];
      assert b[..k + 1] == [b[0]] + b[1..][..k];
      k + 1
  }

  function Ups(n: nat): (r: seq<string>)
    ensures |r| == n && forall i :: 0 <= i < n ==> r[i] == ".."
  {
    if n == 0 then [] else Ups(n - 1) + [".."]
  }

  /** path.relative(from, to): up to the shared part, then down to `to`. */
  function Relative(from: Path, to: Path): string {
    var k := CommonPrefix(from, to);
    Join(Ups(|from| - k) + to[k..], "/")
  }

  const INVALID_PATH := "Invalid path outside RAG root"

  /** buildPath: the resolved path, refused when the path relative to the
      root starts with ".." or contains "../". */
  function BuildPath(root: Path, segments: seq<string>): Result<Path, string> {
    var full := ResolvePath(root, segments);
    var rel := Relative(root, full);
    if StartsWith(rel, "..") || Contains(rel, "../") then Failure(INVALID_PATH) else Success(full)
  }

  lemma JoinStartsWithFirst(parts: seq<string>, sep: string)
    requires parts != []
    ensures StartsWith(Join(parts, sep), parts[0])
  {
    if |parts| > 1 {
      assert (parts[0] + sep + Join(parts[1..], sep))[..|parts[0]|] == parts[0];
    }
  }

  /** A path that buildPath accepts lies inside the root. */
  lemma BuildPathInsideRoot(root: Path, segments: seq<string>)
    requires BuildPath(root, segments).Success?
    ensures var full := BuildPath(root, segments).value;
            |root| <= |full| && full[..|root|] == root
  {
    var full := ResolvePath(root, segments);
    var k := CommonPrefix(root, full);
    if k < |root| {
      JoinStartsWithFirst(Ups(|root| - k) + full[k..], "/");
    }
  }

  /** A file or directory name that cannot climb or hide a separator: not
      empty, no "/", and neither first nor last character is '.'. */
  predicate PlainName(s: string) {
    s != "" && '/' !in s && s[0] != '.' && s[|s| - 1] != '.'
  }

  lemma {:induction false} ResolvePlain(base: Path, names: seq<string>)
    requires forall i :: 0 <= i < |names| ==> PlainName(names[i])
    ensures ResolvePath(base, names) == base + names
    decreases |names|
  {
    if names != [] {
      var n := names[0];
      SplitNoSeparator(n, '/');
      assert !StartsWith(n, "/") by { assert n[0] != '/'; }
      assert Walk(base, [n]) == Walk(base + [n], []);
      ResolvePlain(base + [n], names[1..]);
      assert base + [n] + names[1..] == base + names;
    }
  }

  /** In a join of plain names with "/", no '.' stands before a '/'. */
  lemma {:induction false} NoDotBeforeSlash(names: seq<string>)
    requires forall i :: 0 <= i < |names| ==> PlainName(names[i])
    ensures forall i :: 1 <= i < |Join(names, "/")| && Join(names, "/")[i] == '/' ==> Join(names, "/")[i - 1] != '.'
  {
    if |names| > 1 {
      var n := names[0];
      var rest := Join(names[1..], "/");
      NoDotBeforeSlash(names[1..]);
      var j := Join(names, "/");
      assert j == n + "/" + rest;
      forall i | 1 <= i < |j| && j[i] == '/'
        ensures j[i - 1] != '.'
      {
        if i == |n| {
          assert j[i - 1] == n[|n| - 1];
          assert n[|n| - 1] != '.';
        } else if i == |n| + 1 {
          assert j[i - 1] == '/';
        } else if i > |n| + 1 {
          var i' := i - |n| - 1;
          assert j[i] == rest[i'] && j[i - 1] == rest[i' - 1];
          assert rest[i'] == '/';
          assert rest[i' - 1] != '.';
        }
      }
    }
  }

  /** `p` occurs in `s` at index i. */
  predicate OccursAt(s: string, p: string, i: int) {
    0 <= i && i + |p| <= |s| && s[i..i + |p|] == p
  }

  lemma {:induction false} ContainsWitness(s: string, p: string)
    requires Contains(s, p)
    ensures exists i :: OccursAt(s, p, i)
    decreases |s|
  {
    if StartsWith(s, p) {
      assert OccursAt(s, p, 0);
    } else {
      ContainsWitness(s[1..], p);
      var i :| OccursAt(s[1..], p, i);
      assert s[i + 1..i + 1 + |p|] == s[1..][i..i + |p|];
      assert OccursAt(s, p, i + 1);
    }
  }

  /** Plain names below a normalised root are always accepted, and name the
      path they spell. */
  lemma BuildPathPlainNames(root: Path, names: seq<string>)
    requires Normal(root)
    requires forall i :: 0 <= i < |names| ==> PlainName(names[i])
    ensures BuildPath(root, names) == Success(root + names)
  {
    ResolvePlain(root, names);
    var full := root + names;
    var k := CommonPrefix(root, full);
    assert k == |root|;
    assert full[k..] == names;
    assert Ups(0) + names == names;
    assert Relative(root, full) == Join(names, "/");
    PlainJoinAccepted(names);
  }

  /** The joined plain names neither start with ".." nor contain "../". */
  lemma PlainJoinAccepted(names: seq<string>)
    requires forall i :: 0 <= i < |names| ==> PlainName(names[i])
    ensures var rel := Join(names, "/");
            !StartsWith(rel, "..") && !Contains(rel, "../")
  {
    var rel := Join(names, "/");
    if names != [] {
      JoinStartsWithFirst(names, "/");
      assert rel[0] == names[0][0];
    }
    NoDotStart(rel, "..");
    NoDotBeforeSlash(names);
    NoDotSlash(rel, "../");
  }

  /** A text that does not begin with '.' does not begin with `.?`. */
  lemma NoDotStart(rel: string, p: string)
    requires |p| == 2 && p[0] == '.'
    requires rel == [] || rel[0] != '.'
    ensures !StartsWith(rel, p)
  {
  }

  /** Without a '.' before any '/', no pattern `?./` occurs. */
  lemma NoDotSlash(rel: string, p: string)
    requires |p| == 3 && p[1] == '.' && p[2] == '/'
    requires forall k :: 1 <= k < |rel| && rel[k] == '/' ==> rel[k - 1] != '.'
    ensures !Contains(rel, p)
  {
    if Contains(rel, p) {
      ContainsWitness(rel, p);
    }
  }

  /** What reading one file gives: its text, ENOENT, or another error. */
  datatype FileRead = Content(text: string) | Missing | ReadError(message: string)

  /** readYamlFile: both candidate paths are built first (either may refuse),
      then `<crop>/<variety>/<variety>.yaml` and `<crop>/<variety>.yaml` are
      tried in order; a missing file moves on, another error is thrown. */
  function ReadYamlFile(root: Path, cropId: string, variety: string, readFile: Path -> FileRead)
    : (r: Result<Option<string>, string>)
  {
    match BuildPath(root, [cropId, variety, variety + ".yaml"])
    case Failure(e) => Failure(e)
    case Success(first) =>
      match BuildPath(root, [cropId, variety + ".yaml"])
      case Failure(e) => Failure(e)
      case Success(second) =>
        match readFile(first)
        case Content(text) => Success(Some(text))
        case ReadError(e) => Failure(e)
        case Missing =>
          match readFile(second)
          case Content(text) => Success(Some(text))
          case ReadError(e) => Failure(e)
          case Missing => Success(None)
  }

  /** For plain crop and variety names the nested file is read first, then the
      flat one; nothing else is read. */
  lemma ReadYamlFileOrder(root: Path, cropId: string, variety: string, readFile: Path -> FileRead)
    requires Normal(root) && PlainName(cropId) && PlainName(variety)
    ensures var nested := root + [cropId, variety, variety + ".yaml"];
            var flat := root + [cropId, variety + ".yaml"];
            var r := ReadYamlFile(root, cropId, variety, readFile);
            && (readFile(nested).Content? ==> r == Success(Some(readFile(nested).text)))
            && (readFile(nested).Missing? && readFile(flat).Content? ==> r == Success(Some(readFile(flat).text)))
            && (readFile(nested).Missing? && readFile(flat).Missing? ==> r == Success(None))
  {
    var y := variety + ".yaml";
    assert PlainName(y) by { assert y[0] == variety[0] && y[|y| - 1] == 'l'; }
    BuildPathPlainNames(root, [cropId, variety, y]);
    BuildPathPlainNames(root, [cropId, y]);
  }

  // ---------------------------------------------------------------------------
  // Permissive converters

  /** A numeric range. */
  datatype Range = Range(min: int, max: int)

  /** toRange: a range from an array whose first two entries are numbers, or
      from an object whose min and max are numbers. */
  function ToRange(value: Option<Json>): (r: Option<Range>)
    ensures r.Some? ==> value.Some? && (value.value.JArr? || value.value.JObj?)
  {
    if value.Some? && value.value.JArr? && |value.value.items| >= 2
       && value.value.items[0].JNum? && value.value.items[1].JNum?
    then Some(Range(value.value.items[0].n, value.value.items[1].n))
    else if IsPlainObject(value) then
      var min := Lookup(value.value.fields, "min");
      var max := Lookup(value.value.fields, "max");
      if min.Some? && min.value.JNum? && max.Some? && max.value.JNum? then Some(Range(min.value.n, max.value.n))
      else None
    else None
  }

  /** A pair of numbers at the head of an array is read as a range. */
  lemma ToRangeOfArray(min: int, max: int, rest: seq<Json>)
    ensures ToRange(Some(JArr([JNum(min), JNum(max)] + rest))) == Some(Range(min, max))
  {
  }

  /** An object with numeric min and max is read as a range. */
  lemma ToRangeOfObject(fields: seq<(string, Json)>, min: int, max: int)
    requires Lookup(fields, "min") == Some(JNum(min)) && Lookup(fields, "max") == Some(JNum(max))
    ensures ToRange(Some(JObj(fields))) == Some(Range(min, max))
  {
  }

  /** An array whose head is not two numbers has no range, even when it is longer. */
  lemma ToRangeOfOtherArray(items: seq<Json>)
    requires |items| < 2 || !items[0].JNum? || !items[1].JNum?
    ensures ToRange(Some(JArr(items))).None?
  {
  }

  /** The text after a number or range: " unit", or nothing without a unit. */
  function UnitSuffix(unit: string): (r: string)
    ensures r == "" <==> unit == ""
    ensures unit != "" ==> r[0] == ' ' && r[1..] == unit
  {
    if unit != "" then " " + unit else ""
  }

  /** toRangeString: "min-max", then the unit suffix. */
  function ToRangeString(value: Option<Json>, unit: string): (r: Option<string>)
    ensures r.Some? <==> ToRange(value).Some?
    ensures r.Some? ==>
              var range := ToRange(value).value;
              StartsWith(r.value, IntToString(range.min) + "-" + IntToString(range.max))
              && EndsWith(r.value, UnitSuffix(unit))
              && |r.value| == |IntToString(range.min)| + 1 + |IntToString(range.max)| + |UnitSuffix(unit)|
  {
    match ToRange(value)
    case None => None
    case Some(range) =>
      var head := IntToString(range.min) + "-" + IntToString(range.max);
      PrefixOfConcat(head, UnitSuffix(unit));
      SuffixOfConcat(head, UnitSuffix(unit));
      Some(head + UnitSuffix(unit))
  }

  /** toStringValue on a present value: strings trimmed, numbers with the
      unit suffix, arrays as the ", "-joined non-empty texts of their items,
      objects through JSON.stringify, booleans as "true" / "false"; null has none. */
  function JsonText(v: Json, unit: string, stringify: Json -> string): (r: Option<string>)
    decreases v, 1
  {
    match v
    case JNull => None
    case JStr(s) => Some(Trim(s))
    case JNum(n) => Some(IntToString(n) + UnitSuffix(unit))
    case JArr(items) => Some(Join(ItemTexts(items, stringify), ", "))
    case JObj(_) => Some(stringify(v))
    case JBool(b) => Some(if b then "true" else "false")
  }

  /** `value.map((item) => toStringValue(item) ?? '').filter(Boolean)`. */
  function ItemTexts(items: seq<Json>, stringify: Json -> string): (r: seq<string>)
    ensures |r| <= |items|
    ensures forall i :: 0 <= i < |r| ==> r[i] != ""
    decreases items, 0
  {
    if items == [] then []
    else
      var t := JsonText(items[0], "", stringify).GetOr("");
      (if t == "" then [] else [t]) + ItemTexts(items[1..], stringify)
  }

  /** toStringValue: undefined and null have no text. */
  function ToStringValue(value: Option<Json>, unit: string, stringify: Json -> string): (r: Option<string>)
    ensures r.None? <==> value.None? || value.value.JNull?
    ensures value.Some? && value.value.JStr? ==> r == Some(Trim(value.value.s))
    ensures value.Some? && value.value.JNum? ==> r == Some(IntToString(value.value.n) + UnitSuffix(unit))
  {
    if value.None? then None else JsonText(value.value, unit, stringify)
  }

  /** A string value's text is a fixed point: converting it again changes nothing. */
  lemma ToStringValueIdempotent(s: string, unit: string, stringify: Json -> string)
    ensures var t := ToStringValue(Some(JStr(s)), unit, stringify).value;
            ToStringValue(Some(JStr(t)), unit, stringify) == Some(t)
  {
    TrimIdempotent(s);
  }

  /** The trimmed texts of the strings, blank ones dropped. */
  function TrimmedNonBlank(items: seq<string>): (r: seq<string>)
    ensures |r| <= |items|
  {
    if items == [] then []
    else (if Trim(items[0]) == "" then [] else [Trim(items[0])]) + TrimmedNonBlank(items[1..])
  }

  /** An array of strings keeps the trimmed non-blank ones, in order. */
  lemma {:induction false} ItemTextsOfStrings(items: seq<string>, stringify: Json -> string)
    ensures ItemTexts(seq(|items|, i requires 0 <= i < |items| => JStr(items[i])), stringify) == TrimmedNonBlank(items)
  {
    var js := seq(|items|, i requires 0 <= i < |items| => JStr(items[i]));
    if items != [] {
      var rest := seq(|items| - 1, i requires 0 <= i < |items| - 1 => JStr(items[1..][i]));
      assert js[1..] == rest;
      assert JsonText(js[0], "", stringify) == Some(Trim(items[0]));
      ItemTextsOfStrings(items[1..], stringify);
    }
  }

  /** The non-empty texts of the note values. */
  function NoteParts(values: seq<Option<Json>>, stringify: Json -> string): (r: seq<string>)
    ensures |r| <= |values|
    ensures forall i :: 0 <= i < |r| ==> r[i] != ""
  {
    if values == [] then []
    else
      var t := ToStringValue(values[0], "", stringify);
      (if t.Some? && t.value != "" then [t.value] else []) + NoteParts(values[1..], stringify)
  }

  /** collectNotes: the non-empty texts joined with " | ", or none at all. */
  function CollectNotes(values: seq<Option<Json>>, stringify: Json -> string): (r: Option<string>)
    ensures r.None? <==> NoteParts(values, stringify) == []
    ensures r.Some? ==> r.value != "" && StartsWith(r.value, NoteParts(values, stringify)[0])
  {
    var parts := NoteParts(values, stringify);
    if parts == [] then None
    else
      JoinStartsWithFirst(parts, " | ");
      Some(Join(parts, " | "))
  }

  /** No part means no note: values that are all undefined, null or blank. */
  lemma {:induction false} NotePartsEmpty(values: seq<Option<Json>>, stringify: Json -> string)
    ensures NoteParts(values, stringify) == [] <==>
              forall i :: 0 <= i < |values| ==>
                var t := ToStringValue(values[i], "", stringify); t.None? || t.value == ""
  {
    if values != [] {
      NotePartsEmpty(values[1..], stringify);
      assert forall i :: 1 <= i < |values| ==> values[i] == values[1..][i - 1];
    }
  }

  // ---------------------------------------------------------------------------
  // Default groups

  /** `a ?? b` on texts. */
  function OrElse(a: Option<string>, b: Option<string>): (r: Option<string>)
    ensures a.Some? ==> r == a
    ensures a.None? ==> r == b
  {
    if a.Some? then a else b
  }

  /** `if (x) result.field = x`: only a non-empty text is stored. */
  function Kept(x: Option<string>): (r: Option<string>)
    ensures r.Some? <==> x.Some? && x.value != ""
    ensures r.Some? ==> r == x
  {
    if x.Some? && x.value != "" then x else None
  }

  datatype EnvironmentDefaults = EnvironmentDefaults(
    temperatureDay: Option<string>, temperatureNight: Option<string>,
    humidity: Option<string>, lightHours: Option<string>)

  datatype IrrigationDefaults = IrrigationDefaults(
    growMethod: Option<string>, frequency: Option<string>, notes: Option<string>)

  datatype ContainerDefaults = ContainerDefaults(
    volumeLiters: Option<string>, diameterCm: Option<string>, depthCm: Option<string>)

  datatype SafetyBounds = SafetyBounds(
    temperatureC: Option<Range>, humidityPct: Option<Range>, lightHours: Option<Range>)

  const DEGREES_C := "\U{00B0}C"

  function Field(value: Option<Json>, key: string): Option<Json>
    requires IsPlainObject(value)
  {
    Lookup(value.value.fields, key)
  }

  /** The environment group: each reading as a range when it is one, else as
      text; absent unless the input is an object with some field set. */
  function EnvironmentOf(value: Option<Json>, stringify: Json -> string): Option<EnvironmentDefaults> {
    if !IsPlainObject(value) then None
    else
      var e := EnvironmentDefaults(
        Kept(OrElse(ToRangeString(Field(value, "temperature_day_c"), DEGREES_C),
                    ToStringValue(Field(value, "temperature_day"), "", stringify))),
        Kept(OrElse(ToRangeString(Field(value, "temperature_night_c"), DEGREES_C),
                    ToStringValue(Field(value, "temperature_night"), "", stringify))),
        Kept(OrElse(ToRangeString(Field(value, "humidity_pct"), "%"),
                    ToStringValue(Field(value, "humidity"), "", stringify))),
        Kept(ToStringValue(Field(value, "light_hours"), "", stringify)));
      if e == EnvironmentDefaults(None, None, None, None) then None else Some(e)
  }

  /** mapEnvironmentDefaults. */
  method MapEnvironmentDefaults(value: Option<Json>, stringify: Json -> string) returns (r: Option<EnvironmentDefaults>)
    ensures r == EnvironmentOf(value, stringify)
  {
    if !IsPlainObject(value) {
      return None;
    }
    var temperatureDay := OrElse(ToRangeString(Field(value, "temperature_day_c"), DEGREES_C),
                                 ToStringValue(Field(value, "temperature_day"), "", stringify));
    var temperatureNight := OrElse(ToRangeString(Field(value, "temperature_night_c"), DEGREES_C),
                                   ToStringValue(Field(value, "temperature_night"), "", stringify));
    var humidity := OrElse(ToRangeString(Field(value, "humidity_pct"), "%"),
                           ToStringValue(Field(value, "humidity"), "", stringify));
    var lightHours := ToStringValue(Field(value, "light_hours"), "", stringify);
    var result := EnvironmentDefaults(None, None, None, None);
    var count := 0;
    if temperatureDay.Some? && temperatureDay.value != "" {
      result := result.(temperatureDay := temperatureDay);
      count := count + 1;
    }
    if temperatureNight.Some? && temperatureNight.value != "" {
      result := result.(temperatureNight := temperatureNight);
      count := count + 1;
    }
    if humidity.Some? && humidity.value != "" {
      result := result.(humidity := humidity);
      count := count + 1;
    }
    if lightHours.Some? && lightHours.value != "" {
      result := result.(lightHours := lightHours);
      count := count + 1;
    }
    r := if count > 0 then Some(result) else None;
  }

  /** The environment group is absent for non-objects; a present group has a
      field set and only non-empty texts; a range field wins over its text form. */
  lemma EnvironmentShape(value: Option<Json>, stringify: Json -> string)
    ensures !IsPlainObject(value) ==> EnvironmentOf(value, stringify).None?
    ensures EnvironmentOf(value, stringify).Some? ==>
              var e := EnvironmentOf(value, stringify).value;
              && (e.temperatureDay.Some? || e.temperatureNight.Some? || e.humidity.Some? || e.lightHours.Some?)
              && (e.temperatureDay.Some? ==> e.temperatureDay.value != "")
              && (e.temperatureNight.Some? ==> e.temperatureNight.value != "")
              && (e.humidity.Some? ==> e.humidity.value != "")
              && (e.lightHours.Some? ==> e.lightHours.value != "")
    ensures IsPlainObject(value) && ToRange(Field(value, "temperature_day_c")).Some? ==>
              EnvironmentOf(value, stringify).Some?
              && EnvironmentOf(value, stringify).value.temperatureDay == ToRangeString(Field(value, "temperature_day_c"), DEGREES_C)
  {
    if IsPlainObject(value) && ToRange(Field(value, "temperature_day_c")).Some? {
      var t := ToRangeString(Field(value, "temperature_day_c"), DEGREES_C);
      assert |t.value| > 0;
    }
  }

  /** The irrigation group. The frequency falls back from `frequency` to
      `cadence` to `watering_rule`; the watering rule joins the notes only
      when it differs from the frequency. */
  function IrrigationOf(value: Option<Json>, stringify: Json -> string): Option<IrrigationDefaults> {
    if !IsPlainObject(value) then None
    else
      var wateringRule := ToStringValue(Field(value, "watering_rule"), "", stringify);
      var frequency := OrElse(OrElse(ToStringValue(Field(value, "frequency"), "", stringify),
                                     ToStringValue(Field(value, "cadence"), "", stringify)), wateringRule);
      var notes := CollectNotes(IrrigationNoteValues(value, frequency, wateringRule), stringify);
      var g := IrrigationDefaults(Kept(ToStringValue(Field(value, "method"), "", stringify)), Kept(frequency), Kept(notes));
      if g == IrrigationDefaults(None, None, None) then None else Some(g)
  }

  /** What collectNotes is given for irrigation, in order. */
  function IrrigationNoteValues(value: Option<Json>, frequency: Option<string>, wateringRule: Option<string>)
    : (r: seq<Option<Json>>)
    requires IsPlainObject(value)
    ensures |r| == 6
  {
    [Field(value, "notes"),
     if frequency == wateringRule || wateringRule.None? then None else Some(JStr(wateringRule.value)),
     Field(value, "soil_mix"), Field(value, "substrate"), Field(value, "nutrient_ec"), Field(value, "feed_note")]
  }

  /** mapIrrigationDefaults. */
  method MapIrrigationDefaults(value: Option<Json>, stringify: Json -> string) returns (r: Option<IrrigationDefaults>)
    ensures r == IrrigationOf(value, stringify)
  {
    if !IsPlainObject(value) {
      return None;
    }
    var growMethod := ToStringValue(Field(value, "method"), "", stringify);
    var wateringRule := ToStringValue(Field(value, "watering_rule"), "", stringify);
    var frequency := ToStringValue(Field(value, "frequency"), "", stringify);
    if frequency.None? {
      frequency := ToStringValue(Field(value, "cadence"), "", stringify);
    }
    if frequency.None? {
      frequency := wateringRule;
    }
    var notes := CollectNotes(IrrigationNoteValues(value, frequency, wateringRule), stringify);
    var result := IrrigationDefaults(None, None, None);
    var count := 0;
    if growMethod.Some? && growMethod.value != "" {
      result := result.(growMethod := growMethod);
      count := count + 1;
    }
    if frequency.Some? && frequency.value != "" {
      result := result.(frequency := frequency);
      count := count + 1;
    }
    if notes.Some? && notes.value != "" {
      result := result.(notes := notes);
      count := count + 1;
    }
    r := if count > 0 then Some(result) else None;
  }

  /** Without `frequency` and `cadence` the watering rule becomes the frequency
      and is kept out of the notes. */
  lemma IrrigationFrequencyFallback(value: Option<Json>, stringify: Json -> string)
    requires IsPlainObject(value)
    requires ToStringValue(Field(value, "frequency"), "", stringify).None?
    requires ToStringValue(Field(value, "cadence"), "", stringify).None?
    ensures var w := ToStringValue(Field(value, "watering_rule"), "", stringify);
            IrrigationNoteValues(value, w, w)[1].None?
            && (Kept(w).Some? ==> IrrigationOf(value, stringify).Some? && IrrigationOf(value, stringify).value.frequency == w)
  {
  }

  /** A `frequency` that differs from the watering rule leaves the rule in the notes. */
  lemma IrrigationRuleInNotes(value: Option<Json>, stringify: Json -> string)
    requires IsPlainObject(value)
    requires var f := ToStringValue(Field(value, "frequency"), "", stringify);
             var w := ToStringValue(Field(value, "watering_rule"), "", stringify);
             f.Some? && w.Some? && f != w
    ensures var f := ToStringValue(Field(value, "frequency"), "", stringify);
            var w := ToStringValue(Field(value, "watering_rule"), "", stringify);
            && IrrigationNoteValues(value, f, w)[1] == Some(JStr(w.value))
            && (f.value != "" ==>
                  IrrigationOf(value, stringify).Some? && IrrigationOf(value, stringify).value.frequency == f)
  {
  }

  /** The container group: the volume from the first of three fields that is a
      range, else from the first of them that is present, in litres. */
  function ContainerOf(value: Option<Json>, stringify: Json -> string): Option<ContainerDefaults> {
    if !IsPlainObject(value) then None
    else
      var volume := OrElse(OrElse(OrElse(
        ToRangeString(Field(value, "volume_liters"), "L"),
        ToRangeString(Field(value, "pot_volume_l"), "L")),
        ToRangeString(Field(value, "bag_volume_l"), "L")),
        ToStringValue(Coalesce(Coalesce(Field(value, "volume_liters"), Field(value, "pot_volume_l")),
                               Field(value, "bag_volume_l")), "L", stringify));
      var c := ContainerDefaults(Kept(volume), Kept(ToStringValue(Field(value, "diameter_cm"), "cm", stringify)),
                                 Kept(ToStringValue(Field(value, "depth_cm"), "cm", stringify)));
      if c == ContainerDefaults(None, None, None) then None else Some(c)
  }

  /** mapContainerDefaults. */
  method MapContainerDefaults(value: Option<Json>, stringify: Json -> string) returns (r: Option<ContainerDefaults>)
    ensures r == ContainerOf(value, stringify)
  {
    if !IsPlainObject(value) {
      return None;
    }
    var volume := ToRangeString(Field(value, "volume_liters"), "L");
    if volume.None? {
      volume := ToRangeString(Field(value, "pot_volume_l"), "L");
    }
    if volume.None? {
      volume := ToRangeString(Field(value, "bag_volume_l"), "L");
    }
    if volume.None? {
      var raw := Coalesce(Coalesce(Field(value, "volume_liters"), Field(value, "pot_volume_l")), Field(value, "bag_volume_l"));
      volume := ToStringValue(raw, "L", stringify);
    }
    var diameter := ToStringValue(Field(value, "diameter_cm"), "cm", stringify);
    var depth := ToStringValue(Field(value, "depth_cm"), "cm", stringify);
    var result := ContainerDefaults(None, None, None);
    var count := 0;
    if volume.Some? && volume.value != "" {
      result := result.(volumeLiters := volume);
      count := count + 1;
    }
    if diameter.Some? && diameter.value != "" {
      result := result.(diameterCm := diameter);
      count := count + 1;
    }
    if depth.Some? && depth.value != "" {
      result := result.(depthCm := depth);
      count := count + 1;
    }
    r := if count > 0 then Some(result) else None;
  }

  /** A pot volume given as a number is the volume in litres when no field is a range. */
  lemma ContainerNumericVolume(fields: seq<(string, Json)>, n: int, stringify: Json -> string)
    requires Lookup(fields, "volume_liters").None? && Lookup(fields, "pot_volume_l") == Some(JNum(n))
    requires ToRange(Lookup(fields, "bag_volume_l")).None?
    ensures var c := ContainerOf(Some(JObj(fields)), stringify);
            c.Some? && c.value.volumeLiters == Some(IntToString(n) + " L")
  {
    var v := Some(JObj(fields));
    assert ToRangeString(Field(v, "volume_liters"), "L").None?;
    assert ToRangeString(Field(v, "pot_volume_l"), "L").None?;
    assert ToRangeString(Field(v, "bag_volume_l"), "L").None?;
    var raw := Coalesce(Coalesce(Field(v, "volume_liters"), Field(v, "pot_volume_l")), Field(v, "bag_volume_l"));
    assert raw == Some(JNum(n));
    assert UnitSuffix("L") == " L";
    assert ToStringValue(raw, "L", stringify) == Some(IntToString(n) + " L");
  }

  /** The irrigation group is absent for non-objects; a present group has a
      field set and only non-empty texts. */
  lemma IrrigationShape(value: Option<Json>, stringify: Json -> string)
    ensures !IsPlainObject(value) ==> IrrigationOf(value, stringify).None?
    ensures IrrigationOf(value, stringify).Some? ==>
              var g := IrrigationOf(value, stringify).value;
              && (g.growMethod.Some? || g.frequency.Some? || g.notes.Some?)
              && (g.growMethod.Some? ==> g.growMethod.value != "")
              && (g.frequency.Some? ==> g.frequency.value != "")
              && (g.notes.Some? ==> g.notes.value != "")
  {
  }

  /** The container group is absent for non-objects; a present group has a
      field set and only non-empty texts. */
  lemma ContainerShape(value: Option<Json>, stringify: Json -> string)
    ensures !IsPlainObject(value) ==> ContainerOf(value, stringify).None?
    ensures ContainerOf(value, stringify).Some? ==>
              var c := ContainerOf(value, stringify).value;
              && (c.volumeLiters.Some? || c.diameterCm.Some? || c.depthCm.Some?)
              && (c.volumeLiters.Some? ==> c.volumeLiters.value != "")
              && (c.diameterCm.Some? ==> c.diameterCm.value != "")
              && (c.depthCm.Some? ==> c.depthCm.value != "")
  {
  }

  /** mapOperations: the object itself. */
  function OperationsOf(value: Option<Json>): (r: Option<seq<(string, Json)>>)
    ensures r.Some? <==> IsPlainObject(value)
    ensures r.Some? ==> value == Some(JObj(r.value))
  {
    if IsPlainObject(value) then Some(value.value.fields) else None
  }

  /** The safety bounds: the three ranges that are present. */
  function SafetyBoundsOf(value: Option<Json>): Option<SafetyBounds> {
    if !IsPlainObject(value) then None
    else
      var b := SafetyBounds(ToRange(Field(value, "temperature_c")), ToRange(Field(value, "humidity_pct")),
                            ToRange(Field(value, "light_hours")));
      if b == SafetyBounds(None, None, None) then None else Some(b)
  }

  /** mapSafetyBounds. */
  method MapSafetyBounds(value: Option<Json>) returns (r: Option<SafetyBounds>)
    ensures r == SafetyBoundsOf(value)
  {
    if !IsPlainObject(value) {
      return None;
    }
    var temperature := ToRange(Field(value, "temperature_c"));
    var humidity := ToRange(Field(value, "humidity_pct"));
    var light := ToRange(Field(value, "light_hours"));
    var bounds := SafetyBounds(None, None, None);
    var count := 0;
    if temperature.Some? {
      bounds := bounds.(temperatureC := temperature);
      count := count + 1;
    }
    if humidity.Some? {
      bounds := bounds.(humidityPct := humidity);
      count := count + 1;
    }
    if light.Some? {
      bounds := bounds.(lightHours := light);
      count := count + 1;
    }
    r := if count > 0 then Some(bounds) else None;
  }

  /** Bounds are present exactly when the input is an object with one range. */
  lemma SafetyBoundsPresent(value: Option<Json>)
    ensures SafetyBoundsOf(value).Some? <==>
              IsPlainObject(value) &&
              (ToRange(Field(value, "temperature_c")).Some? || ToRange(Field(value, "humidity_pct")).Some?
               || ToRange(Field(value, "light_hours")).Some?)
  {
  }

  // ---------------------------------------------------------------------------
  // Stages

  datatype CropStage = CropStage(id: string, stageLabel: Option<string>, guidance: Option<string>, cues: Option<seq<string>>)

  /** A string-typed property, or none. */
  function StringField(fields: seq<(string, Json)>, key: string): (r: Option<string>)
    ensures r.Some? ==> Lookup(fields, key) == Some(JStr(r.value))
  {
    var v := Lookup(fields, key);
    if v.Some? && v.value.JStr? then Some(v.value.s) else None
  }

  /** `cues.filter((cue) => typeof cue === 'string')`. */
  function CueStrings(items: seq<Json>): (r: seq<string>)
    ensures |r| <= |items|
    ensures forall k :: 0 <= k < |r| ==> JStr(r[k]) in items
  {
    if items == [] then []
    else (if items[0].JStr? then [items[0].s] else []) + CueStrings(items[1..])
  }

  /** One entry of `stages`: kept when it is an object with a non-empty string
      id; label and guidance when they are strings; cues when some are strings. */
  function StageOf(entry: Json): (r: Option<CropStage>)
    ensures r.Some? ==> entry.JObj? && r.value.id != "" && StringField(entry.fields, "id") == Some(r.value.id)
    ensures r.Some? && r.value.cues.Some? ==> r.value.cues.value != []
  {
    if !entry.JObj? then None
    else
      var id := StringField(entry.fields, "id");
      if id.None? || id.value == "" then None
      else
        var cues := Lookup(entry.fields, "cues");
        var strings := if cues.Some? && cues.value.JArr? then CueStrings(cues.value.items) else [];
        Some(CropStage(id.value, StringField(entry.fields, "label"), StringField(entry.fields, "guidance"),
                       if strings != [] then Some(strings) else None))
  }

  /** The stages of the entries, in order. */
  function StagesFrom(items: seq<Json>): (r: seq<CropStage>)
    ensures |r| <= |items|
    ensures forall k :: 0 <= k < |r| ==> r[k].id != "" && (r[k].cues.Some? ==> r[k].cues.value != [])
  {
    if items == [] then []
    else
      var init := StagesFrom(items[..|items| - 1]);
      match StageOf(items[|items| - 1])
      case None => init
      case Some(stage) => init + [stage]
  }

  /** mapStages's result: nothing unless the value is an array. */
  function StagesOf(value: Option<Json>): seq<CropStage> {
    if value.Some? && value.value.JArr? then StagesFrom(value.value.items) else []
  }

  /** mapStages. */
  method MapStages(value: Option<Json>) returns (stages: seq<CropStage>)
    ensures stages == StagesOf(value)
  {
    if !(value.Some? && value.value.JArr?) {
      return [];
    }
    var items := value.value.items;
    stages := [];
    var i := 0;
    while i < |items|
      invariant 0 <= i <= |items|
      invariant stages == StagesFrom(items[..i])
    {
      assert items[..i + 1][..i] == items[..i];
      var stage := StageOf(items[i]);
      if stage.Some? {
        stages := stages + [stage.value];
      }
      i := i + 1;
    }
    assert items[..|items|] == items;
  }

  /** Every kept entry appears, in order: the stages of a concatenation are the
      stages of its parts. */
  lemma {:induction false} StagesFromAppend(a: seq<Json>, b: seq<Json>)
    ensures StagesFrom(a + b) == StagesFrom(a) + StagesFrom(b)
    decreases |b|
  {
    if b == [] {
      assert a + b == a;
    } else {
      var b' := b[..|b| - 1];
      assert (a + b)[..|a + b| - 1] == a + b';
      StagesFromAppend(a, b');
    }
  }

  /** An entry that is not an object with a string id adds nothing. */
  lemma StagesSkip(a: seq<Json>, entry: Json, b: seq<Json>)
    requires StageOf(entry).None?
    ensures StagesFrom(a + [entry] + b) == StagesFrom(a) + StagesFrom(b)
  {
    StagesFromAppend(a + [entry], b);
    StagesFromAppend(a, [entry]);
    assert [entry][..0] == [];
  }

  // ---------------------------------------------------------------------------
  // The payload

  datatype Defaults = Defaults(
    environment: Option<EnvironmentDefaults>, irrigation: Option<IrrigationDefaults>,
    container: Option<ContainerDefaults>, operations: Option<seq<(string, Json)>>)

  datatype CropDefaultsPayload = CropDefaultsPayload(
    cropId: string, variety: string, lang: string, displayName: Option<string>, overview: Option<string>,
    defaults: Option<Defaults>, safetyBounds: Option<SafetyBounds>, stages: seq<CropStage>)

  const INVALID_PAYLOAD := "Invalid crop YAML payload"

  /** The `defaults` section, present when one of its groups is. */
  function DefaultsOf(section: Option<Json>, stringify: Json -> string): Option<Defaults> {
    var d := Defaults(EnvironmentOf(SubObject(section, "environment"), stringify),
                      IrrigationOf(SubObject(section, "irrigation"), stringify),
                      ContainerOf(SubObject(section, "container"), stringify),
                      OperationsOf(SubObject(section, "operations")));
    if d == Defaults(None, None, None, None) then None else Some(d)
  }

  /** `(isPlainObject(v) ? v : {})[key]`. */
  function SubObject(v: Option<Json>, key: string): Option<Json> {
    if IsPlainObject(v) then Lookup(v.value.fields, key) else None
  }

  /** The `defaults` part of projectPayload. */
  method MapDefaults(section: Option<Json>, stringify: Json -> string) returns (defaults: Option<Defaults>)
    ensures defaults == DefaultsOf(section, stringify)
  {
    var environment := MapEnvironmentDefaults(SubObject(section, "environment"), stringify);
    var irrigation := MapIrrigationDefaults(SubObject(section, "irrigation"), stringify);
    var container := MapContainerDefaults(SubObject(section, "container"), stringify);
    var operations := OperationsOf(SubObject(section, "operations"));
    defaults := None;
    if environment.Some? || irrigation.Some? || container.Some? || operations.Some? {
      defaults := Some(Defaults(environment, irrigation, container, operations));
    }
  }

  /** projectPayload: a non-object document is refused; otherwise the crop's
      language (default "en"), display name, overview, default groups, safety
      bounds and stages. */
  function PayloadOf(raw: Json, cropId: string, variety: string, stringify: Json -> string)
    : Result<CropDefaultsPayload, string>
  {
    if !raw.JObj? then Failure(INVALID_PAYLOAD)
    else
      var crop := SubObject(Some(raw), "crop");
      var lang := if IsPlainObject(crop) then StringField(crop.value.fields, "lang") else None;
      Success(CropDefaultsPayload(
        cropId, variety, lang.GetOr("en"),
        if IsPlainObject(crop) then StringField(crop.value.fields, "displayName") else None,
        StringField(raw.fields, "overview"),
        DefaultsOf(SubObject(Some(raw), "defaults"), stringify),
        SafetyBoundsOf(SubObject(Some(raw), "safety_bounds")),
        StagesOf(SubObject(Some(raw), "stages"))))
  }

  /** projectPayload. */
  method ProjectPayload(raw: Json, cropId: string, variety: string, stringify: Json -> string)
    returns (r: Result<CropDefaultsPayload, string>)
    ensures r == PayloadOf(raw, cropId, variety, stringify)
  {
    if !raw.JObj? {
      return Failure(INVALID_PAYLOAD);
    }
    var crop := SubObject(Some(raw), "crop");
    var lang := "en";
    var displayName: Option<string> := None;
    if IsPlainObject(crop) {
      var l := StringField(crop.value.fields, "lang");
      if l.Some? {
        lang := l.value;
      }
      displayName := StringField(crop.value.fields, "displayName");
    }
    var overview := StringField(raw.fields, "overview");
    var defaults := MapDefaults(SubObject(Some(raw), "defaults"), stringify);
    var safetyBounds := MapSafetyBounds(SubObject(Some(raw), "safety_bounds"));
    var stages := MapStages(SubObject(Some(raw), "stages"));
    r := Success(CropDefaultsPayload(cropId, variety, lang, displayName, overview, defaults, safetyBounds, stages));
  }

  /** The payload keeps the requested crop and variety; a document without a
      `crop` object reads as English with no display name; an empty
      `operations` object alone still makes the defaults present. */
  lemma PayloadShape(raw: Json, cropId: string, variety: string, stringify: Json -> string)
    ensures PayloadOf(raw, cropId, variety, stringify).Success? <==> raw.JObj?
    ensures raw.JObj? ==>
              var p := PayloadOf(raw, cropId, variety, stringify).value;
              && p.cropId == cropId && p.variety == variety
              && (!IsPlainObject(SubObject(Some(raw), "crop")) ==> p.lang == "en" && p.displayName.None?)
              && (SubObject(SubObject(Some(raw), "defaults"), "operations") == Some(JObj([])) ==>
                    p.defaults.Some? && p.defaults.value.operations == Some([]))
  {
  }

  // ---------------------------------------------------------------------------
  // The cache

  const DEFAULT_TTL_MS: real := 60000.0

  /** CACHE_TTL_MS: CROP_DEFAULTS_TTL_MS read by Number; NaN, zero and
      negative values fall back to 60000. */
  function CacheTtl(env: Option<string>): (ttl: JsNumber)
    ensures ttl.Finite? || ttl.PosInf?
    ensures ttl.Finite? ==> ttl.r > 0.0
    ensures env.None? ==> ttl == Finite(DEFAULT_TTL_MS)
  {
    var n := if env.None? then Finite(DEFAULT_TTL_MS) else NumberOf(env.value);
    var v := if n.NaN? || n == Finite(0.0) then Finite(DEFAULT_TTL_MS) else n;
    if v.PosInf? || (v.Finite? && v.r > 0.0) then v else Finite(DEFAULT_TTL_MS)
  }

  /** A decimal setting is the time to live. */
  lemma CacheTtlOfNat(n: nat)
    requires n > 0
    ensures CacheTtl(Some(NatToString(n))) == Finite(n as real)
  {
    NumberOfNatString(n);
  }

  /** A negative setting falls back to the default. */
  lemma CacheTtlNegative(n: nat)
    ensures CacheTtl(Some("-" + NatToString(n))) == Finite(DEFAULT_TTL_MS)
  {
    NumberOfNegatedNatString(n);
  }

  /** shouldBypassCache: RAG_DEBUG lower-cased is "true". */
  predicate ShouldBypassCache(ragDebug: Option<string>) {
    ToLower(ragDebug.GetOr("")) == "true"
  }

  datatype CacheEntry = CacheEntry(expiresAt: JsNumber, payload: CropDefaultsPayload)

  /** `expiresAt > Date.now()`. */
  predicate Fresh(entry: CacheEntry, now: int) {
    entry.expiresAt.PosInf? || (entry.expiresAt.Finite? && entry.expiresAt.r > now as real)
  }

  /** `Date.now() + CACHE_TTL_MS`. */
  function ExpiresAt(now: int, ttl: JsNumber): JsNumber {
    if ttl.Finite? then Finite(now as real + ttl.r) else ttl
  }

  const NOT_FOUND_MESSAGE := "Crop defaults not found"

  /** What getCropDefaults can throw: CropDefaultsNotFoundError, or another error. */
  datatype CropError = NotFound(message: string) | Failed(message: string)

  /** The uncached part of getCropDefaults: read, parse and project. A missing
      or empty file is not found. */
  function Load(root: Path, cropId: string, variety: string, readFile: Path -> FileRead,
                parse: string -> Result<Json, string>, stringify: Json -> string)
    : Result<CropDefaultsPayload, CropError>
  {
    match ReadYamlFile(root, cropId, variety, readFile)
    case Failure(e) => Failure(Failed(e))
    case Success(content) =>
      if content.None? || content.value == "" then Failure(NotFound(NOT_FOUND_MESSAGE))
      else
        match parse(content.value)
        case Failure(e) => Failure(Failed(e))
        case Success(parsed) =>
          match PayloadOf(parsed, cropId, variety, stringify)
          case Failure(e) => Failure(Failed(e))
          case Success(payload) => Success(payload)
  }

  /** One getCropDefaults call: the new cache and the outcome. `now` is the
      clock at the lookup and `later` the clock when the entry is stored. */
  function CacheStep(entries: map<string, CacheEntry>, ttl: JsNumber, bypass: bool, now: int, later: int,
                     root: Path, cropId: string, variety: string, readFile: Path -> FileRead,
                     parse: string -> Result<Json, string>, stringify: Json -> string)
    : (map<string, CacheEntry>, Result<CropDefaultsPayload, CropError>)
  {
    var key := cropId + ":" + variety;
    if !bypass && key in entries && Fresh(entries[key], now) then (entries, Success(entries[key].payload))
    else
      var kept := if !bypass && key in entries then entries - {key} else entries;
      var r := Load(root, cropId, variety, readFile, parse, stringify);
      if r.Success? && !bypass then (kept[key := CacheEntry(ExpiresAt(later, ttl), r.value)], r)
      else (kept, r)
  }

  class CropDefaultsCache {
    /** cache: payloads by "<cropId>:<variety>". */
    var entries: map<string, CacheEntry>
    /** CACHE_TTL_MS. */
    const ttl: JsNumber

    constructor (ttlEnv: Option<string>)
      ensures entries == map[] && ttl == CacheTtl(ttlEnv)
    {
      entries := map[];
      ttl := CacheTtl(ttlEnv);
    }

    /** getCropDefaults. */
    method GetCropDefaults(cropId: string, variety: string, ragDebug: Option<string>, now: int, later: int,
                           root: Path, readFile: Path -> FileRead, parse: string -> Result<Json, string>,
                           stringify: Json -> string)
      returns (r: Result<CropDefaultsPayload, CropError>)
      modifies this
      ensures (entries, r) == CacheStep(old(entries), ttl, ShouldBypassCache(ragDebug), now, later,
                                        root, cropId, variety, readFile, parse, stringify)
    {
      var cacheKey := cropId + ":" + variety;
      var bypass := ShouldBypassCache(ragDebug);
      if !bypass && cacheKey in entries {
        var cached := entries[cacheKey];
        if Fresh(cached, now) {
          return Success(cached.payload);
        }
        entries := entries - {cacheKey};
      }
      var rawContent := ReadYamlFile(root, cropId, variety, readFile);
      if rawContent.Failure? {
        return Failure(Failed(rawContent.error));
      }
      if rawContent.value.None? || rawContent.value.value == "" {
        return Failure(NotFound(NOT_FOUND_MESSAGE));
      }
      var parsed := parse(rawContent.value.value);
      if parsed.Failure? {
        return Failure(Failed(parsed.error));
      }
      var payload := ProjectPayload(parsed.value, cropId, variety, stringify);
      if payload.Failure? {
        return Failure(Failed(payload.error));
      }
      if !bypass {
        entries := entries[cacheKey := CacheEntry(ExpiresAt(later, ttl), payload.value)];
      }
      r := Success(payload.value);
    }
  }

  /** A fresh entry is served as it is, and the cache stays as it was. */
  lemma CacheHit(entries: map<string, CacheEntry>, ttl: JsNumber, now: int, later: int, root: Path,
                 cropId: string, variety: string, readFile: Path -> FileRead,
                 parse: string -> Result<Json, string>, stringify: Json -> string)
    requires var key := cropId + ":" + variety; key in entries && Fresh(entries[key], now)
    ensures CacheStep(entries, ttl, false, now, later, root, cropId, variety, readFile, parse, stringify)
         == (entries, Success(entries[cropId + ":" + variety].payload))
  {
  }

  /** An expired or missing entry is reloaded. A successful load stores an
      entry that is fresh until the time to live has passed; a failed one
      leaves no entry for the key. */
  lemma CacheMiss(entries: map<string, CacheEntry>, ttl: JsNumber, now: int, later: int, root: Path,
                  cropId: string, variety: string, readFile: Path -> FileRead,
                  parse: string -> Result<Json, string>, stringify: Json -> string, at: int)
    requires ttl.PosInf? || (ttl.Finite? && ttl.r > 0.0)
    requires var key := cropId + ":" + variety; key !in entries || !Fresh(entries[key], now)
    ensures var key := cropId + ":" + variety;
            var (e, r) := CacheStep(entries, ttl, false, now, later, root, cropId, variety, readFile, parse, stringify);
            && r == Load(root, cropId, variety, readFile, parse, stringify)
            && (r.Success? ==> key in e && e[key].payload == r.value
                                && (ttl.PosInf? || (ttl.Finite? && (at as real) < later as real + ttl.r) ==> Fresh(e[key], at))
                                && (ttl.Finite? && (at as real) >= later as real + ttl.r ==> !Fresh(e[key], at)))
            && (r.Failure? ==> key !in e)
            && (forall k :: k != key ==> (k in e <==> k in entries) && (k in e ==> e[k] == entries[k]))
  {
  }

  /** With RAG_DEBUG set to "true" the cache is neither read nor written. */
  lemma CacheBypassed(entries: map<string, CacheEntry>, ttl: JsNumber, now: int, later: int, root: Path,
                      cropId: string, variety: string, readFile: Path -> FileRead,
                      parse: string -> Result<Json, string>, stringify: Json -> string)
    ensures CacheStep(entries, ttl, true, now, later, root, cropId, variety, readFile, parse, stringify)
         == (entries, Load(root, cropId, variety, readFile, parse, stringify))
  {
  }

  /** A missing file, or an empty one, is CropDefaultsNotFoundError. */
  lemma LoadNotFound(root: Path, cropId: string, variety: string, readFile: Path -> FileRead,
                     parse: string -> Result<Json, string>, stringify: Json -> string)
    requires var c := ReadYamlFile(root, cropId, variety, readFile);
             c.Success? && (c.value.None? || c.value.value == "")
    ensures Load(root, cropId, variety, readFile, parse, stringify) == Failure(NotFound(NOT_FOUND_MESSAGE))
  {
  }
}
