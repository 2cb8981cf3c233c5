/** The query string and URL of the frontend's API client
    (frontend/src/shared/hooks/useApi.ts). Three conversions the browser
    performs are parameters: `render` is String() of a number, `iso` is
    Date.prototype.toISOString of a valid time, and `encode` is the
    application/x-www-form-urlencoded escaping URLSearchParams applies to each
    name and value. The fetch call and its headers are left out. */
module UseApi {
  import opened Common

  /** QueryValue. A Date is its time value, None for an invalid date. */
  datatype QueryValue = QStr(s: string) | QNum(n: JsNumber) | QBool(b: bool) | QNull | QUndefined
                      | QDate(time: Option<int>)

  /** The RangeError toISOString throws on an invalid date. */
  const INVALID_TIME := "Invalid time value"

  /** What one parameter appends to the search parameters: nothing for null
      and undefined, the ISO text of a date, String(value) otherwise. */
  function EntryValue(v: QueryValue, render: JsNumber -> string, iso: int -> string): (r: Result<Option<string>, string>)
    ensures r.Failure? <==> v == QDate(None)
    ensures r == Success(None) <==> v.QNull? || v.QUndefined?
  {
    match v
    case QNull => Success(None)
    case QUndefined => Success(None)
    case QDate(time) => if time.None? then Failure(INVALID_TIME) else Success(Some(iso(time.value)))
    case QStr(s) => Success(Some(s))
    case QNum(n) => Success(Some(render(n)))
    case QBool(b) => Success(Some(if b then "true" else "false"))
  }

  /** The name-value list of the URLSearchParams after the forEach over
      `params` (in Object.entries order). */
  function SearchEntries(params: seq<(string, QueryValue)>, render: JsNumber -> string, iso: int -> string)
    : Result<seq<(string, string)>, string>
  {
    if params == [] then Success([])
    else
      match SearchEntries(params[..|params| - 1], render, iso)
      case Failure(e) => Failure(e)
      case Success(prefix) =>
        var (key, value) := params[|params| - 1];
        match EntryValue(value, render, iso)
        case Failure(e) => Failure(e)
        case Success(None) => Success(prefix)
        case Success(Some(s)) => Success(prefix + [(key, s)])
  }

  /** Each entry as `name=value`, both escaped. */
  function EncodedPairs(entries: seq<(string, string)>, encode: string -> string): (r: seq<string>)
    ensures |r| == |entries|
    ensures forall i :: 0 <= i < |r| ==> r[i] == encode(entries[i].0) + "=" + encode(entries[i].1)
  {
    if entries == [] then []
    else [encode(entries[0].0) + "=" + encode(entries[0].1)] + EncodedPairs(entries[1..], encode)
  }

  /** URLSearchParams.prototype.toString. */
  function Serialize(entries: seq<(string, string)>, encode: string -> string): string {
    Join(EncodedPairs(entries, encode), "&")
  }

  /** `query ? '?' + query : ''`. */
  function QueryText(entries: seq<(string, string)>, encode: string -> string): string {
    var query := Serialize(entries, encode);
    if query == "" then "" else "?" + query
  }

  /** buildQueryString: appends each parameter that is not null or undefined,
      a date as its ISO text, and serialises the result; an invalid date
      throws. */
  method BuildQueryString(params: seq<(string, QueryValue)>, render: JsNumber -> string, iso: int -> string,
                          encode: string -> string) returns (r: Result<string, string>)
    ensures SearchEntries(params, render, iso).Failure? ==> r == Failure(INVALID_TIME)
    ensures SearchEntries(params, render, iso).Success? ==>
              r == Success(QueryText(SearchEntries(params, render, iso).value, encode))
  {
    var search: seq<(string, string)> := [];
    var i := 0;
    while i < |params|
      invariant 0 <= i <= |params|
      invariant SearchEntries(params[..i], render, iso) == Success(search)
    {
      var (key, value) := params[i];
      assert params[..i + 1][..i] == params[..i];
      assert params[..i + 1][i] == params[i];
      if value.QDate? {
        if value.time.None? {
          assert SearchEntries(params[..i + 1], render, iso).Failure?;
          FailurePersists(params, i + 1, render, iso);
          assert params[..|params|] == params;
          return Failure(INVALID_TIME);
        }
        search := search + [(key, iso(value.time.value))];
      } else if !value.QNull? && !value.QUndefined? {
        var text := if value.QStr? then value.s else if value.QNum? then render(value.n)
                    else if value.b then "true" else "false";
        search := search + [(key, text)];
      }
      i := i + 1;
    }
    assert params[..i] == params;
    var query := Serialize(search, encode);
    r := Success(if query != "" then "?" + query else "");
  }

  /** Once a prefix of the parameters fails, every longer prefix fails with
      the same error. */
  lemma {:induction false} FailurePersists(params: seq<(string, QueryValue)>, k: nat, render: JsNumber -> string,
                                           iso: int -> string)
    requires k <= |params| && SearchEntries(params[..k], render, iso).Failure?
    ensures SearchEntries(params, render, iso) == SearchEntries(params[..k], render, iso)
  {
    if k < |params| {
      var p := params[..|params| - 1];
      assert p[..k] == params[..k];
      FailurePersists(p, k, render, iso);
    } else {
      assert params[..k] == params;
    }
  }

  /** The search holds no more entries than there are parameters, and a
      parameter contributes exactly when it is neither null nor undefined. */
  lemma {:induction false} SearchEntriesMembers(params: seq<(string, QueryValue)>, render: JsNumber -> string,
                                                iso: int -> string, key: string, text: string)
    requires SearchEntries(params, render, iso).Success?
    ensures |SearchEntries(params, render, iso).value| <= |params|
    ensures (key, text) in SearchEntries(params, render, iso).value <==>
              exists i :: 0 <= i < |params| && params[i].0 == key
                          && EntryValue(params[i].1, render, iso) == Success(Some(text))
  {
    if params != [] {
      var p := params[..|params| - 1];
      var last := params[|params| - 1];
      assert SearchEntries(p, render, iso).Success?;
      SearchEntriesMembers(p, render, iso, key, text);
      assert forall i :: 0 <= i < |p| ==> p[i] == params[i];
      if (key, text) in SearchEntries(params, render, iso).value {
        if (key, text) !in SearchEntries(p, render, iso).value {
          assert last.0 == key && EntryValue(last.1, render, iso) == Success(Some(text));
        }
      }
    }
  }

  /** A search without entries serialises to nothing, and one with entries to
      a non-empty query, since every pair holds a '='. */
  lemma QueryTextEmpty(entries: seq<(string, string)>, encode: string -> string)
    ensures QueryText(entries, encode) == "" <==> entries == []
    ensures entries != [] ==> QueryText(entries, encode) == "?" + Serialize(entries, encode)
  {
    var pairs := EncodedPairs(entries, encode);
    if entries != [] {
      JoinLength(pairs, "&");
      assert |pairs[0]| >= 1;
    }
  }

  /** Parameters that are all null or undefined give the empty string. */
  lemma {:induction false} NullsOmitted(params: seq<(string, QueryValue)>, render: JsNumber -> string,
                                        iso: int -> string, encode: string -> string)
    requires forall i :: 0 <= i < |params| ==> params[i].1.QNull? || params[i].1.QUndefined?
    ensures SearchEntries(params, render, iso) == Success([])
    ensures QueryText(SearchEntries(params, render, iso).value, encode) == ""
  {
    if params != [] {
      NullsOmitted(params[..|params| - 1], render, iso, encode);
    }
  }

  /** A date is added as its ISO text, and a null added after the others
      changes nothing. */
  lemma AppendedParameter(params: seq<(string, QueryValue)>, render: JsNumber -> string, iso: int -> string,
                          key: string, time: int)
    requires SearchEntries(params, render, iso).Success?
    ensures SearchEntries(params + [(key, QDate(Some(time)))], render, iso)
            == Success(SearchEntries(params, render, iso).value + [(key, iso(time))])
    ensures SearchEntries(params + [(key, QNull)], render, iso) == SearchEntries(params, render, iso)
    ensures SearchEntries(params + [(key, QUndefined)], render, iso) == SearchEntries(params, render, iso)
  {
    AppendedOne(params, (key, QDate(Some(time))), render, iso);
    AppendedOne(params, (key, QNull), render, iso);
    AppendedOne(params, (key, QUndefined), render, iso);
  }

  /** One parameter appended after the others is handled after them. */
  lemma AppendedOne(params: seq<(string, QueryValue)>, e: (string, QueryValue), render: JsNumber -> string,
                    iso: int -> string)
    requires SearchEntries(params, render, iso).Success?
    ensures SearchEntries(params + [e], render, iso)
            == match EntryValue(e.1, render, iso)
               case Failure(err) => Failure(err)
               case Success(None) => SearchEntries(params, render, iso)
               case Success(Some(s)) => Success(SearchEntries(params, render, iso).value + [(e.0, s)])
  {
    var q := params + [e];
    assert q[..|q| - 1] == params;
    assert q[|q| - 1] == e;
  }

  /** The query fails exactly when some parameter is an invalid date. */
  lemma {:induction false} SearchEntriesFailure(params: seq<(string, QueryValue)>, render: JsNumber -> string,
                                                iso: int -> string)
    ensures SearchEntries(params, render, iso).Failure? <==>
              exists i :: 0 <= i < |params| && params[i].1 == QDate(None)
    ensures SearchEntries(params, render, iso).Failure? ==> SearchEntries(params, render, iso).error == INVALID_TIME
  {
    if params != [] {
      var p := params[..|params| - 1];
      SearchEntriesFailure(p, render, iso);
      assert forall i :: 0 <= i < |p| ==> p[i] == params[i];
      if exists i :: 0 <= i < |params| && params[i].1 == QDate(None) {
        var i :| 0 <= i < |params| && params[i].1 == QDate(None);
        if i < |p| {
          assert p[i].1 == QDate(None);
        }
      }
    }
  }

  /** When the escaping never produces '&', splitting the query at '&' gives
      back one `name=value` pair per entry. */
  lemma QuerySplit(entries: seq<(string, string)>, encode: string -> string)
    requires entries != []
    requires forall s :: '&' !in encode(s)
    ensures Split(Serialize(entries, encode), '&') == EncodedPairs(entries, encode)
  {
    var pairs := EncodedPairs(entries, encode);
    forall i | 0 <= i < |pairs|
      ensures '&' !in pairs[i]
    {
      assert pairs[i] == encode(entries[i].0) + "=" + encode(entries[i].1);
      assert '&' !in encode(entries[i].0) && '&' !in encode(entries[i].1);
    }
    JoinSplit(pairs, '&');
  }

  // ---------------------------------------------------------------------------
  // resolveUrl

  /** A leading '/' is added when the path lacks one. */
  function NormalizePath(path: string): (p: string)
    ensures StartsWith(p, "/")
    ensures StartsWith(path, "/") ==> p == path
    ensures !StartsWith(path, "/") ==> p == "/" + path
  {
    if StartsWith(path, "/") then path else PrefixSlash(path)
  }

  function PrefixSlash(path: string): (p: string)
    ensures StartsWith(p, "/")
    ensures p == "/" + path
  {
    assert ("/" + path)[..1] == "/";
    "/" + path
  }

  /** resolveUrl; API_BASE_URL is the parameter `base`. */
  function ResolveUrl(base: string, path: string, query: string): string {
    base + NormalizePath(path) + query
  }

  /** The URL is the base, then the path with exactly one '/' added when it
      had none, then the query; normalising twice changes nothing. */
  lemma ResolveUrlParts(base: string, path: string, query: string)
    ensures StartsWith(ResolveUrl(base, path, query), base + "/")
    ensures EndsWith(ResolveUrl(base, path, query), query)
    ensures |ResolveUrl(base, path, query)| == |base| + |path| + |query| + (if StartsWith(path, "/") then 0 else 1)
    ensures NormalizePath(NormalizePath(path)) == NormalizePath(path)
    ensures ResolveUrl(base, NormalizePath(path), query) == ResolveUrl(base, path, query)
  {
    var p := NormalizePath(path);
    var url := base + p + query;
    assert url[..|base| + 1] == base + p[..1];
    assert url == (base + p) + query;
    SuffixOfConcat(base + p, query);
  }
}
