/** The assistant's transcript storage (frontend/src/features/assistant/storage.ts):
    the localStorage key of a conversation and the tolerant reading of a stored
    transcript. localStorage itself is left out; `SafeParse` takes what was
    read, and JSON.parse is the `parse` parameter, None standing for a syntax
    error. */
module Storage {
  import opened Common

  const STORAGE_PREFIX := "tg.assistant.v1"
  const ANON := "anon"
  const UNKNOWN := "unknown"
  const DEFAULT_VARIETY := "default"

  /** `v && v.trim() ? v.trim() : fallback`. */
  function KeyPart(v: Option<string>, fallback: string): (r: string)
    ensures NonBlank(v) ==> r == Trim(v.value)
    ensures !NonBlank(v) ==> r == fallback
  {
    if NonBlank(v) then Trim(v.value) else fallback
  }

  /** buildStorageKey: the prefix and the three parts, joined by ':'. */
  function BuildStorageKey(userId: Option<string>, cropId: Option<string>, variety: Option<string>): string {
    Join([STORAGE_PREFIX, KeyPart(userId, ANON), KeyPart(cropId, UNKNOWN), KeyPart(variety, DEFAULT_VARIETY)], ":")
  }

  /** The key is the prefix, then the user, crop and variety parts, each after
      a ':'; a part is its trimmed text, or its fallback when missing or
      blank. */
  lemma StorageKeyShape(userId: Option<string>, cropId: Option<string>, variety: Option<string>)
    ensures BuildStorageKey(userId, cropId, variety)
            == STORAGE_PREFIX + ":" + KeyPart(userId, ANON) + ":" + KeyPart(cropId, UNKNOWN) + ":"
               + KeyPart(variety, DEFAULT_VARIETY)
    ensures StartsWith(BuildStorageKey(userId, cropId, variety), STORAGE_PREFIX + ":")
  {
    JoinFour(STORAGE_PREFIX, KeyPart(userId, ANON), KeyPart(cropId, UNKNOWN), KeyPart(variety, DEFAULT_VARIETY), ":");
  }

  lemma JoinFour(a: string, b: string, c: string, d: string, sep: string)
    ensures Join([a, b, c, d], sep) == a + sep + b + sep + c + sep + d
    ensures StartsWith(Join([a, b, c, d], sep), a + sep)
  {
    PrefixOfConcat(a + sep, b + sep + c + sep + d);
    assert a + sep + b + sep + c + sep + d == (a + sep) + (b + sep + c + sep + d);
    assert Join([d], sep) == d;
    assert Join([c, d], sep) == c + sep + Join([d], sep);
    assert Join([b, c, d], sep) == b + sep + Join([c, d], sep);
    assert Join([a, b, c, d], sep) == a + sep + Join([b, c, d], sep);
  }

  /** Missing and blank parts give the defaults, "tg.assistant.v1:anon:unknown:default". */
  lemma StorageKeyDefaults(userId: Option<string>, cropId: Option<string>, variety: Option<string>)
    requires !NonBlank(userId) && !NonBlank(cropId) && !NonBlank(variety)
    ensures BuildStorageKey(userId, cropId, variety) == "tg.assistant.v1:anon:unknown:default"
  {
    StorageKeyShape(userId, cropId, variety);
  }

  /** A part is never empty and never starts or ends with white space. */
  lemma KeyPartTrimmed(v: Option<string>, fallback: string)
    requires fallback != [] && !IsSpace(fallback[0]) && !IsSpace(fallback[|fallback| - 1])
    ensures var r := KeyPart(v, fallback);
            r != [] && !IsSpace(r[0]) && !IsSpace(r[|r| - 1])
    ensures Trim(KeyPart(v, fallback)) == KeyPart(v, fallback)
  {
    TrimOfUnpadded(KeyPart(v, fallback));
  }

  /** Padding around a part does not change the key. */
  lemma StorageKeyIgnoresPadding(userId: string, pad: string, cropId: Option<string>, variety: Option<string>)
    requires IsBlank(pad)
    requires userId == [] || (!IsSpace(userId[0]) && !IsSpace(userId[|userId| - 1]))
    ensures BuildStorageKey(Some(pad + userId + pad), cropId, variety) == BuildStorageKey(Some(userId), cropId, variety)
  {
    TrimPadded(pad, userId);
  }

  /** Trimming removes white space added on both sides. */
  lemma TrimPadded(pad: string, t: string)
    requires IsBlank(pad)
    requires t == [] || (!IsSpace(t[0]) && !IsSpace(t[|t| - 1]))
    ensures Trim(pad + t + pad) == t
  {
    var s := pad + t + pad;
    if t == [] {
      assert s == pad + pad;
      assert IsBlank(s) by {
        assert forall i :: 0 <= i < |s| ==> s[i] == (if i < |pad| then pad[i] else pad[i - |pad|]);
      }
    } else {
      assert forall i :: 0 <= i < |pad| ==> s[i] == pad[i];
      assert s[|pad|] == t[0];
      assert LeadingSpaces(s) == |pad| by {
        LeadingSpacesOfPadded(pad, t + pad);
        assert s == pad + (t + pad);
      }
      assert TrimStart(s) == t + pad;
      TrimEndPadded(t, pad);
    }
  }

  lemma {:induction false} LeadingSpacesOfPadded(pad: string, t: string)
    requires IsBlank(pad) && t != [] && !IsSpace(t[0])
    ensures LeadingSpaces(pad + t) == |pad|
  {
    if pad == [] {
      assert pad + t == t;
    } else {
      assert (pad + t)[0] == pad[0];
      assert (pad + t)[1..] == pad[1..] + t;
      LeadingSpacesOfPadded(pad[1..], t);
    }
  }

  lemma {:induction false} TrimEndPadded(t: string, pad: string)
    requires IsBlank(pad) && t != [] && !IsSpace(t[|t| - 1])
    ensures TrimEnd(t + pad) == t
  {
    if pad == [] {
      assert t + pad == t;
    } else {
      var s := t + pad;
      assert s[|s| - 1] == pad[|pad| - 1];
      assert s[..|s| - 1] == t + pad[..|pad| - 1];
      TrimEndPadded(t, pad[..|pad| - 1]);
    }
  }

  /** The part, once trimmed, holds no ':'. */
  predicate ColonFree(v: Option<string>) {
    v.None? || ':' !in Trim(v.value)
  }

  /** When no part holds a ':', the key splits back into the prefix and the
      three parts, so different conversations get different keys. */
  lemma StorageKeySplit(userId: Option<string>, cropId: Option<string>, variety: Option<string>)
    requires ColonFree(userId) && ColonFree(cropId) && ColonFree(variety)
    ensures Split(BuildStorageKey(userId, cropId, variety), ':')
            == [STORAGE_PREFIX, KeyPart(userId, ANON), KeyPart(cropId, UNKNOWN), KeyPart(variety, DEFAULT_VARIETY)]
  {
    var parts := [STORAGE_PREFIX, KeyPart(userId, ANON), KeyPart(cropId, UNKNOWN), KeyPart(variety, DEFAULT_VARIETY)];
    assert ':' !in STORAGE_PREFIX;
    assert ':' !in ANON && ':' !in UNKNOWN && ':' !in DEFAULT_VARIETY;
    JoinSplit(parts, ':');
  }

  lemma StorageKeyInjective(u1: Option<string>, c1: Option<string>, v1: Option<string>,
                            u2: Option<string>, c2: Option<string>, v2: Option<string>)
    requires ColonFree(u1) && ColonFree(c1) && ColonFree(v1)
    requires ColonFree(u2) && ColonFree(c2) && ColonFree(v2)
    requires BuildStorageKey(u1, c1, v1) == BuildStorageKey(u2, c2, v2)
    ensures KeyPart(u1, ANON) == KeyPart(u2, ANON)
    ensures KeyPart(c1, UNKNOWN) == KeyPart(c2, UNKNOWN)
    ensures KeyPart(v1, DEFAULT_VARIETY) == KeyPart(v2, DEFAULT_VARIETY)
  {
    StorageKeySplit(u1, c1, v1);
    StorageKeySplit(u2, c2, v2);
  }

  /** safeParse: empty or missing text, text that does not parse, and a value
      that is not an array all give the empty transcript. */
  function SafeParse(raw: Option<string>, parse: string -> Option<Json>): (r: seq<Json>)
    ensures r != [] ==> Truthy(raw) && parse(raw.value) == Some(JArr(r))
  {
    if !Truthy(raw) then []
    else
      match parse(raw.value)
      case Some(JArr(items)) => items
      case _ => []
  }

  /** Each way of failing gives [], and a stored array comes back as it is. */
  lemma SafeParseCases(raw: Option<string>, parse: string -> Option<Json>)
    ensures !Truthy(raw) ==> SafeParse(raw, parse) == []
    ensures Truthy(raw) && parse(raw.value).None? ==> SafeParse(raw, parse) == []
    ensures Truthy(raw) && parse(raw.value).Some? && !parse(raw.value).value.JArr? ==> SafeParse(raw, parse) == []
    ensures Truthy(raw) && parse(raw.value).Some? && parse(raw.value).value.JArr? ==>
              SafeParse(raw, parse) == parse(raw.value).value.items
  {
  }

  /** What saveTranscript writes, loadTranscript reads back: JSON.stringify of
      an array is never empty, and JSON.parse undoes it. */
  lemma SafeParseRoundTrip(messages: seq<Json>, stringify: Json -> string, parse: string -> Option<Json>)
    requires stringify(JArr(messages)) != ""
    requires parse(stringify(JArr(messages))) == Some(JArr(messages))
    ensures SafeParse(Some(stringify(JArr(messages))), parse) == messages
  {
  }
}
