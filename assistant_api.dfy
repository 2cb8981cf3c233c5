/** The assistant's client calls (frontend/src/features/assistant/api.ts): the
    request body built from the form's payload, and the check of the response
    envelope. Posting the request is left out. */
module AssistantApi {
  import opened Common

  /** AssistRequestPayload; `undefined` is None. */
  datatype Payload = Payload(
    message: string, cropId: Option<string>, variety: Option<string>,
    topK: Option<JsNumber>, temperature: Option<JsNumber>)

  /** A property value of the body: a string or a number. */
  datatype BodyValue = BStr(s: string) | BNum(n: JsNumber)

  /** A JavaScript object as its properties in insertion order, which is the
      order JSON.stringify writes them in. */
  type Body = seq<(string, BodyValue)>

  /** The value of a property, or None when the object does not have it. */
  function Field(body: Body, key: string): (r: Option<BodyValue>)
    ensures r.None? <==> forall i :: 0 <= i < |body| ==> body[i].0 != key
  {
    if body == [] then None
    else if body[0].0 == key then Some(body[0].1)
    else Field(body[1..], key)
  }

  /** Where a property of AssistBody stands in the order buildBody adds them;
      5 for anything else. */
  function KeyRank(key: string): (n: nat)
    ensures n <= 5
  {
    if key == "message" then 0
    else if key == "cropId" then 1
    else if key == "variety" then 2
    else if key == "topK" then 3
    else if key == "temperature" then 4
    else 5
  }

  /** Adding a property the object does not have yet. */
  lemma FieldSnoc(body: Body, k: string, v: BodyValue, key: string)
    ensures Field(body + [(k, v)], key) == if Field(body, key).Some? then Field(body, key)
                                           else if k == key then Some(v) else None
  {
    if body == [] {
      assert body + [(k, v)] == [(k, v)];
    } else {
      assert (body + [(k, v)])[1..] == body[1..] + [(k, v)];
      FieldSnoc(body[1..], k, v, key);
    }
  }

  /** The keys appear in buildBody's order, so none appears twice and none
      other than the five AssistBody has. */
  predicate InKeyOrder(body: Body) {
    && (forall i :: 0 <= i < |body| ==> KeyRank(body[i].0) < 5)
    && (forall i, j :: 0 <= i < j < |body| ==> KeyRank(body[i].0) < KeyRank(body[j].0))
  }

  lemma InKeyOrderSnoc(body: Body, key: string, v: BodyValue)
    requires InKeyOrder(body) && KeyRank(key) < 5
    requires forall i :: 0 <= i < |body| ==> KeyRank(body[i].0) < KeyRank(key)
    ensures InKeyOrder(body + [(key, v)])
    ensures forall i :: 0 <= i < |body + [(key, v)]| ==> KeyRank((body + [(key, v)])[i].0) <= KeyRank(key)
  {
    var r := body + [(key, v)];
    assert forall i :: 0 <= i < |body| ==> r[i] == body[i];
    assert r[|body|] == (key, v);
  }

  /** Adds `key` with `v` at the end when `cond` holds. */
  method AddIf(body: Body, cond: bool, key: string, v: BodyValue) returns (r: Body)
    requires InKeyOrder(body) && KeyRank(key) < 5
    requires forall i :: 0 <= i < |body| ==> KeyRank(body[i].0) < KeyRank(key)
    ensures InKeyOrder(r)
    ensures forall i :: 0 <= i < |r| ==> KeyRank(r[i].0) <= KeyRank(key)
    ensures key != "message" ==> Field(r, "message") == Field(body, "message")
    ensures key != "cropId" ==> Field(r, "cropId") == Field(body, "cropId")
    ensures key != "variety" ==> Field(r, "variety") == Field(body, "variety")
    ensures key != "topK" ==> Field(r, "topK") == Field(body, "topK")
    ensures key != "temperature" ==> Field(r, "temperature") == Field(body, "temperature")
    ensures Field(r, key) == if cond then Some(v) else None
    ensures |r| >= |body| && r[..|body|] == body
  {
    r := body;
    if cond {
      r := body + [(key, v)];
      InKeyOrderSnoc(body, key, v);
      FieldSnoc(body, key, v, "message");
      FieldSnoc(body, key, v, "cropId");
      FieldSnoc(body, key, v, "variety");
      FieldSnoc(body, key, v, "topK");
      FieldSnoc(body, key, v, "temperature");
      FieldSnoc(body, key, v, key);
      assert r[..|body|] == body;
    }
  }

  /** buildBody: the message always; cropId and variety when truthy; topK and
      temperature whenever they are numbers, NaN and 0 included. */
  method BuildBody(payload: Payload) returns (body: Body)
    ensures |body| >= 1 && body[0] == ("message", BStr(payload.message))
    ensures Field(body, "message") == Some(BStr(payload.message))
    ensures Field(body, "cropId") == if Truthy(payload.cropId) then Some(BStr(payload.cropId.value)) else None
    ensures Field(body, "variety") == if Truthy(payload.variety) then Some(BStr(payload.variety.value)) else None
    ensures Field(body, "topK") == if payload.topK.Some? then Some(BNum(payload.topK.value)) else None
    ensures Field(body, "temperature") ==
              if payload.temperature.Some? then Some(BNum(payload.temperature.value)) else None
    ensures InKeyOrder(body)
  {
    body := [("message", BStr(payload.message))];
    body := AddIf(body, Truthy(payload.cropId), "cropId",
                  BStr(if payload.cropId.Some? then payload.cropId.value else ""));
    body := AddIf(body, Truthy(payload.variety), "variety",
                  BStr(if payload.variety.Some? then payload.variety.value else ""));
    body := AddIf(body, payload.topK.Some?, "topK", BNum(if payload.topK.Some? then payload.topK.value else NaN));
    body := AddIf(body, payload.temperature.Some?, "temperature",
                  BNum(if payload.temperature.Some? then payload.temperature.value else NaN));
  }

  /** The body never holds more than the five properties, one each. */
  lemma BodySize(body: Body)
    requires InKeyOrder(body)
    ensures |body| <= 5
  {
    if |body| > 5 {
      RanksIncrease(body, 5);
    }
  }

  lemma {:induction false} RanksIncrease(body: Body, k: nat)
    requires InKeyOrder(body) && k < |body|
    ensures KeyRank(body[k].0) >= k
  {
    if k > 0 {
      RanksIncrease(body, k - 1);
    }
  }

  // ---------------------------------------------------------------------------
  // ensureOk

  const REQUEST_FAILED := "Assistant request failed"

  /** What ensureOk throws: an Error with a message, or the TypeError that
      the `in` operator raises on a value that is not an object. */
  datatype Thrown = RequestError(message: string) | InOnPrimitive

  /** JavaScript truthiness of a parsed JSON value. */
  predicate JsonTruthy(v: Json) {
    match v
    case JNull => false
    case JBool(b) => b
    case JNum(n) => n != 0
    case JStr(s) => s != ""
    case _ => true
  }

  /** `payload?.error?.message ?? 'Assistant request failed'`, as the text of
      the Error. Only an object has an `error` property and only an object
      `error` has a `message`. */
  function ErrorMessage(payload: Option<Json>): (m: string)
    ensures (payload.None? || !payload.value.JObj?) ==> m == REQUEST_FAILED
  {
    var error := if payload.Some? && payload.value.JObj? then Lookup(payload.value.fields, "error") else None;
    var message := if error.Some? && error.value.JObj? then Lookup(error.value.fields, "message") else None;
    if message.None? || message.value.JNull? then REQUEST_FAILED else JsString(message.value)
  }

  /** ensureOk: the envelope's `data` when its `ok` is truthy, otherwise an
      Error with the envelope's message. `'ok' in payload` throws on a truthy
      value that is not an object. */
  function EnsureOk(payload: Option<Json>): (r: Result<Option<Json>, Thrown>)
    ensures r.Success? ==> payload.Some? && payload.value.JObj? && r.value == Lookup(payload.value.fields, "data")
  {
    if payload.Some? && JsonTruthy(payload.value) then
      match payload.value
      case JObj(fields) =>
        var ok := Lookup(fields, "ok");
        if ok.Some? && JsonTruthy(ok.value) then Success(Lookup(fields, "data"))
        else Failure(RequestError(ErrorMessage(payload)))
      case JArr(_) => Failure(RequestError(REQUEST_FAILED))
      case _ => Failure(InOnPrimitive)
    else Failure(RequestError(REQUEST_FAILED))
  }

  /** The data comes back exactly when the envelope is an object whose `ok` is
      truthy; a truthy number, string or `true` raises the TypeError; anything
      else is an Error. */
  lemma EnsureOkCases(payload: Option<Json>)
    ensures EnsureOk(payload).Success? <==>
              payload.Some? && payload.value.JObj? && Lookup(payload.value.fields, "ok").Some?
              && JsonTruthy(Lookup(payload.value.fields, "ok").value)
    ensures EnsureOk(payload) == Failure(InOnPrimitive) <==>
              payload.Some? && JsonTruthy(payload.value) && !payload.value.JObj? && !payload.value.JArr?
    ensures EnsureOk(payload).Failure? && EnsureOk(payload) != Failure(InOnPrimitive) ==>
              EnsureOk(payload) == Failure(RequestError(ErrorMessage(payload)))
  {
  }

  /** `{ ok: false, error: { message } }` throws that message; without a
      message, or with a null one, it throws the fallback. */
  lemma EnsureOkErrorMessage(okValue: Json, rest: seq<(string, Json)>, message: Option<Json>)
    requires !JsonTruthy(okValue)
    ensures var error := JObj(if message.Some? then [("message", message.value)] else []);
            var m := if message.None? || message.value.JNull? then REQUEST_FAILED else JsString(message.value);
            EnsureOk(Some(JObj([("ok", okValue), ("error", error)] + rest))) == Failure(RequestError(m))
  {
    var error := JObj(if message.Some? then [("message", message.value)] else []);
    var fields := [("ok", okValue), ("error", error)] + rest;
    assert fields[1..][0] == ("error", error);
    assert Lookup(fields, "error") == Some(error);
  }

  /** A missing or null envelope throws the fallback message. */
  lemma EnsureOkNothing()
    ensures EnsureOk(None) == Failure(RequestError(REQUEST_FAILED))
    ensures EnsureOk(Some(JNull)) == Failure(RequestError(REQUEST_FAILED))
  {
  }

  /** The success envelope `{ ok: true, data }` gives its data. */
  lemma EnsureOkSuccessEnvelope(data: Json, rest: seq<(string, Json)>)
    ensures EnsureOk(Some(JObj([("ok", JBool(true)), ("data", data)] + rest))) == Success(Some(data))
  {
    var fields := [("ok", JBool(true)), ("data", data)] + rest;
    assert fields[0] == ("ok", JBool(true));
    assert Lookup(fields, "ok") == Some(JBool(true));
    assert fields[1..][0] == ("data", data);
    assert Lookup(fields, "data") == Lookup(fields[1..], "data") == Some(data);
  }
}
