/** The alert state machine (backend/src/services/alerts.ts). Each user has a
    store of active alerts, kept in insertion order as a JavaScript Map
    iterates them, and a newest-first history capped at 500 entries.
    `recomputeAlerts` raises or resolves one alert per type from the latest
    telemetry sample. The preferences, the latest sample, the clock, timestamp
    parsing, number rendering and the random part of new ids are parameters. */
module Alerts {
  import opened Common

  datatype AlertType = SoilMoistureLow | TempHigh | SensorStale

  datatype Severity = Info | Warn | Critical

  datatype Alert = Alert(
    id: string, alertType: AlertType, severity: Severity, message: string,
    startedAt: string, resolvedAt: Option<string>, acknowledged: bool,
    sensor: Option<string>, value: Option<real>, threshold: Option<real>)

  /** What upsertAlert is given: an alert without id, acknowledged and resolvedAt. */
  datatype AlertInput = AlertInput(
    alertType: AlertType, severity: Severity, message: string, startedAt: string,
    sensor: Option<string>, value: Option<real>, threshold: Option<real>)

  datatype Store = Store(active: seq<Alert>, history: seq<Alert>)

  /** The notification thresholds of the user's preferences. */
  datatype Thresholds = Thresholds(soilMoistureLow: real, tempHigh: real)

  const SOIL_HYSTERESIS: real := 2.0
  const TEMP_HYSTERESIS: real := 1.0
  const STALE_WARN_MINUTES: int := 10
  const STALE_CRITICAL_MINUTES: int := 60
  const MS_PER_MINUTE: int := 60000
  const HISTORY_CAP: nat := 500

  const NO_DATA_MESSAGE := "No telemetry data available"
  const STALE_MESSAGE := "Sensor data is stale"
  const STALE_CRITICAL_MESSAGE := "Sensor data is stale for over an hour"

  function TypeName(t: AlertType): string {
    match t
    case SoilMoistureLow => "SOIL_MOISTURE_LOW"
    case TempHigh => "TEMP_HIGH"
    case SensorStale => "SENSOR_STALE"
  }

  /** nextId: the type, a dash, then `${Date.now()}-${random}`, given as `suffix`. */
  function NextId(t: AlertType, suffix: string): string {
    TypeName(t) + "-" + suffix
  }

  /** An id made for one type never carries another type's prefix. */
  lemma NextIdFresh(t: AlertType, suffix: string, id: string, u: AlertType)
    requires t != u && StartsWith(id, TypeName(u) + "-")
    ensures NextId(t, suffix) != id
  {
    var k := if TypeName(t)[0] != TypeName(u)[0] then 0 else 1;
    assert TypeName(t)[k] != TypeName(u)[k];
    assert NextId(t, suffix)[k] == TypeName(t)[k];
    assert id[k] == (TypeName(u) + "-")[k];
  }

  /** The shape every store keeps: at most one active alert per type, each with
      an id made for its type and no resolvedAt, and a history within the cap. */
  predicate StoreValid(s: Store) {
    && (forall i, j :: 0 <= i < j < |s.active| ==> s.active[i].alertType != s.active[j].alertType)
    && (forall i :: 0 <= i < |s.active| ==>
          StartsWith(s.active[i].id, TypeName(s.active[i].alertType) + "-") && s.active[i].resolvedAt.None?)
    && |s.history| <= HISTORY_CAP
  }

  /** A second update of the same key overwrites the first. */
  lemma UpdateTwice<K, V>(m: map<K, V>, k: K, a: V, b: V)
    ensures m[k := a][k := b] == m[k := b]
  {
  }

  /** getStore: the user's store, or a new empty one. */
  function StoreOf(stores: map<string, Store>, uid: string): Store {
    if uid in stores then stores[uid] else Store([], [])
  }

  // ---------------------------------------------------------------------------
  // Finding

  /** findActiveByType: the index of the first active alert of the type, or
      the length when there is none. */
  function FindActiveByType(active: seq<Alert>, t: AlertType): (k: nat)
    ensures k <= |active|
    ensures forall i :: 0 <= i < k ==> active[i].alertType != t
    ensures k < |active| ==> active[k].alertType == t
  {
    if active == [] || active[0].alertType == t then 0 else 1 + FindActiveByType(active[1..], t)
  }

  /** The index of the first alert of the type is the one with no earlier match. */
  lemma FirstOfType(active: seq<Alert>, t: AlertType, k: nat)
    requires k <= |active| && (k < |active| ==> active[k].alertType == t)
    requires forall i :: 0 <= i < k ==> active[i].alertType != t
    ensures FindActiveByType(active, t) == k
  {
    var f := FindActiveByType(active, t);
    assert !(f < k) && !(k < f);
  }

  /** The active alert of a type, if any. */
  function ActiveOf(s: Store, t: AlertType): Option<Alert> {
    var k := FindActiveByType(s.active, t);
    if k < |s.active| then Some(s.active[k]) else None
  }

  /** In a valid store the active alert of a type is the one carrying it. */
  lemma ActiveOfAt(s: Store, i: nat)
    requires StoreValid(s) && i < |s.active|
    ensures ActiveOf(s, s.active[i].alertType) == Some(s.active[i])
  {
    var k := FindActiveByType(s.active, s.active[i].alertType);
    assert !(k < i) && !(i < k);
  }

  lemma ActiveOfNone(s: Store, t: AlertType)
    requires forall i :: 0 <= i < |s.active| ==> s.active[i].alertType != t
    ensures ActiveOf(s, t).None?
  {
  }

  /** Active ids are distinct, so an id names at most one active alert. */
  lemma ActiveIdsDistinct(s: Store, i: nat, j: nat)
    requires StoreValid(s) && i < j < |s.active|
    ensures s.active[i].id != s.active[j].id
  {
    var a, b := s.active[i], s.active[j];
    var pa := TypeName(a.alertType) + "-";
    var k := if TypeName(a.alertType)[0] != TypeName(b.alertType)[0] then 0 else 1;
    assert TypeName(a.alertType)[k] != TypeName(b.alertType)[k];
    assert a.id[k] == pa[k];
    assert b.id[k] == (TypeName(b.alertType) + "-")[k];
  }

  // ---------------------------------------------------------------------------
  // Upsert and resolve

  /** The in-place update of an existing alert: severity, message, value,
      threshold and sensor change; id, startedAt and acknowledged stay. */
  function Updated(a: Alert, input: AlertInput): Alert {
    a.(severity := input.severity, message := input.message, value := input.value,
       threshold := input.threshold, sensor := input.sensor)
  }

  /** A newly raised alert: a fresh id, not acknowledged, not resolved. */
  function NewRecord(input: AlertInput, suffix: string): Alert {
    Alert(NextId(input.alertType, suffix), input.alertType, input.severity, input.message,
          input.startedAt, None, false, input.sensor, input.value, input.threshold)
  }

  /** upsertAlert on one store. */
  function Upsert(s: Store, input: AlertInput, suffix: string): Store {
    var k := FindActiveByType(s.active, input.alertType);
    if k < |s.active| then s.(active := s.active[k := Updated(s.active[k], input)])
    else s.(active := s.active + [NewRecord(input, suffix)])
  }

  /** The alert upsertAlert returns. */
  function UpsertedRecord(s: Store, input: AlertInput, suffix: string): Alert {
    var k := FindActiveByType(s.active, input.alertType);
    if k < |s.active| then Updated(s.active[k], input) else NewRecord(input, suffix)
  }

  /** The history after unshift and truncation to the cap. */
  function CapHistory(h: seq<Alert>): (r: seq<Alert>)
    ensures |r| <= HISTORY_CAP
    ensures |h| <= HISTORY_CAP ==> r == h
    ensures |h| > HISTORY_CAP ==> r == h[..HISTORY_CAP]
  {
    if |h| > HISTORY_CAP then h[..HISTORY_CAP] else h
  }

  /** Removing the element at k shifts every later element down by one. */
  lemma RemoveAt(a: seq<Alert>, k: nat, b: seq<Alert>)
    requires k < |a| && b == a[..k] + a[k + 1..]
    ensures |b| == |a| - 1
    ensures forall i :: 0 <= i < |b| ==> b[i] == a[if i < k then i else i + 1]
  {
  }

  /** resolveAlert on one store: the active alert of the type moves to the
      front of the history with its resolvedAt set. */
  function Resolve(s: Store, t: AlertType, resolvedAt: string): Store {
    var k := FindActiveByType(s.active, t);
    if k == |s.active| then s
    else Store(s.active[..k] + s.active[k + 1..],
               CapHistory([s.active[k].(resolvedAt := Some(resolvedAt))] + s.history))
  }

  lemma {:induction false} UpsertKeepsValid(s: Store, input: AlertInput, suffix: string)
    requires StoreValid(s)
    ensures StoreValid(Upsert(s, input, suffix))
  {
    var k := FindActiveByType(s.active, input.alertType);
    var r := Upsert(s, input, suffix).active;
    if k == |s.active| {
      var a := NewRecord(input, suffix);
      assert r == s.active + [a];
      PrefixOfConcat(TypeName(input.alertType) + "-", suffix);
      forall i | 0 <= i < |s.active|
        ensures r[i] == s.active[i] && r[i].alertType != a.alertType
      {
      }
    } else {
      assert r == s.active[k := Updated(s.active[k], input)];
      forall i | 0 <= i < |r|
        ensures r[i].alertType == s.active[i].alertType && r[i].id == s.active[i].id
        ensures r[i].resolvedAt == s.active[i].resolvedAt
      {
      }
    }
  }

  lemma {:induction false} ResolveKeepsValid(s: Store, t: AlertType, resolvedAt: string)
    requires StoreValid(s)
    ensures StoreValid(Resolve(s, t, resolvedAt))
  {
    var k := FindActiveByType(s.active, t);
    if k < |s.active| {
      var r := Resolve(s, t, resolvedAt).active;
      RemoveAt(s.active, k, r);
    }
  }

  /** An existing alert of the type is updated in place: id, startedAt and
      acknowledged stay; nothing else in the store changes. */
  lemma UpsertExisting(s: Store, input: AlertInput, suffix: string, i: nat)
    requires StoreValid(s) && i < |s.active| && s.active[i].alertType == input.alertType
    ensures var r := Upsert(s, input, suffix);
            && |r.active| == |s.active| && r.history == s.history
            && r.active[i].id == s.active[i].id && r.active[i].startedAt == s.active[i].startedAt
            && r.active[i].acknowledged == s.active[i].acknowledged
            && r.active[i].severity == input.severity && r.active[i].message == input.message
            && r.active[i].value == input.value && r.active[i].threshold == input.threshold
            && r.active[i].sensor == input.sensor
            && (forall j :: 0 <= j < |s.active| && j != i ==> r.active[j] == s.active[j])
            && UpsertedRecord(s, input, suffix) == r.active[i]
  {
    ActiveOfAt(s, i);
  }

  /** Without an active alert of the type, a new one is appended: a fresh id,
      not acknowledged and not resolved. */
  lemma UpsertNew(s: Store, input: AlertInput, suffix: string)
    requires StoreValid(s) && ActiveOf(s, input.alertType).None?
    ensures var r := Upsert(s, input, suffix);
            var a := UpsertedRecord(s, input, suffix);
            && r.active == s.active + [a] && r.history == s.history
            && !a.acknowledged && a.resolvedAt.None? && a.startedAt == input.startedAt
            && forall j :: 0 <= j < |s.active| ==> s.active[j].id != a.id
  {
    forall j | 0 <= j < |s.active|
      ensures s.active[j].id != NextId(input.alertType, suffix)
    {
      NextIdFresh(input.alertType, suffix, s.active[j].id, s.active[j].alertType);
    }
  }

  /** After an upsert the type is active with the given severity and message. */
  lemma UpsertMakesActive(s: Store, input: AlertInput, suffix: string)
    requires StoreValid(s)
    ensures var a := ActiveOf(Upsert(s, input, suffix), input.alertType);
            a.Some? && a.value.severity == input.severity && a.value.message == input.message
            && a.value.value == input.value && a.value.threshold == input.threshold
  {
    var r := Upsert(s, input, suffix);
    UpsertKeepsValid(s, input, suffix);
    var k := FindActiveByType(s.active, input.alertType);
    ActiveOfAt(r, k);
  }

  /** resolveAlert changes nothing when no alert of the type is active;
      otherwise the type is no longer active and the history starts with the
      resolved alert, followed by at most 499 older entries. */
  lemma ResolveOutcome(s: Store, t: AlertType, resolvedAt: string)
    requires StoreValid(s)
    ensures ActiveOf(s, t).None? ==> Resolve(s, t, resolvedAt) == s
    ensures ActiveOf(s, t).Some? ==>
              var r := Resolve(s, t, resolvedAt);
              && ActiveOf(r, t).None?
              && r.history != [] && r.history[0] == ActiveOf(s, t).value.(resolvedAt := Some(resolvedAt))
              && r.history[1..] == Take(s.history, HISTORY_CAP - 1)
              && |r.history| <= HISTORY_CAP
  {
    var k := FindActiveByType(s.active, t);
    if k < |s.active| {
      var r := Resolve(s, t, resolvedAt);
      RemoveAt(s.active, k, r.active);
      forall i | 0 <= i < |r.active|
        ensures r.active[i].alertType != t
      {
        if i >= k {
          assert s.active[i + 1].alertType != s.active[k].alertType;
        }
      }
      ActiveOfNone(r, t);
    }
  }

  /** Upserting one type leaves the active alert of every other type alone. */
  lemma UpsertOtherType(s: Store, input: AlertInput, suffix: string, u: AlertType)
    requires StoreValid(s) && u != input.alertType
    ensures ActiveOf(Upsert(s, input, suffix), u) == ActiveOf(s, u)
  {
    var r := Upsert(s, input, suffix);
    UpsertKeepsValid(s, input, suffix);
    var k := FindActiveByType(s.active, u);
    if k < |s.active| {
      ActiveOfAt(r, k);
    } else {
      ActiveOfNone(r, u);
    }
  }

  /** Removing an alert of another type keeps the first alert of `u`. */
  lemma RemoveKeepsFirst(a: seq<Alert>, k: nat, u: AlertType)
    requires k < |a| && a[k].alertType != u
    ensures var b := a[..k] + a[k + 1..];
            var m := FindActiveByType(a, u);
            var f := FindActiveByType(b, u);
            (m < |a| ==> f < |b| && b[f] == a[m]) && (m == |a| ==> f == |b|)
  {
    var b := a[..k] + a[k + 1..];
    RemoveAt(a, k, b);
    var m := FindActiveByType(a, u);
    if m < |a| {
      var m' := if m < k then m else m - 1;
      assert b[m'] == a[m];
      FirstOfType(b, u, m');
    } else {
      forall i | 0 <= i < |b|
        ensures b[i].alertType != u
      {
        assert b[i] == a[if i < k then i else i + 1];
      }
      FirstOfType(b, u, |b|);
    }
  }

  /** Resolving one type leaves the active alert of every other type alone. */
  lemma ResolveOtherType(s: Store, t: AlertType, resolvedAt: string, u: AlertType)
    requires u != t
    ensures ActiveOf(Resolve(s, t, resolvedAt), u) == ActiveOf(s, u)
  {
    var k := FindActiveByType(s.active, t);
    if k < |s.active| {
      RemoveKeepsFirst(s.active, k, u);
    }
  }

  // ---------------------------------------------------------------------------
  // Recomputation

  /** The staleness rule: an alert once the sample is ten minutes old,
      critical from an hour; a fresh sample resolves it. */
  function StaleStep(s: Store, latest: TelemetrySample, sampleTime: int, nowMs: int,
                     nowIso: string, suffix: string): Store {
    var age := nowMs - sampleTime;
    if age >= STALE_WARN_MINUTES * MS_PER_MINUTE then
      var severity := if age >= STALE_CRITICAL_MINUTES * MS_PER_MINUTE then Critical else Warn;
      Upsert(s, AlertInput(SensorStale, severity,
                           if severity == Critical then STALE_CRITICAL_MESSAGE else STALE_MESSAGE,
                           latest.timestamp, None, None, None), suffix)
    else Resolve(s, SensorStale, nowIso)
  }

  function SoilMessage(moisture: real, threshold: real, render: real -> string): string {
    "Soil moisture low: " + render(moisture) + "% < " + render(threshold) + "%"
  }

  function TempMessage(temperature: real, threshold: real, render: real -> string): string {
    "Temperature high: " + render(temperature) + "\U{00B0}C > " + render(threshold) + "\U{00B0}C"
  }

  /** Soil moisture with hysteresis: raise below the threshold, resolve from
      two points above it, otherwise leave the alert as it is. */
  function SoilStep(s: Store, latest: TelemetrySample, th: Thresholds, nowIso: string,
                    render: real -> string, suffix: string): Store {
    var threshold := th.soilMoistureLow;
    if latest.soilMoisture < threshold then
      Upsert(s, AlertInput(SoilMoistureLow, Warn, SoilMessage(latest.soilMoisture, threshold, render),
                           latest.timestamp, None, Some(latest.soilMoisture), Some(threshold)), suffix)
    else if latest.soilMoisture >= threshold + SOIL_HYSTERESIS then Resolve(s, SoilMoistureLow, nowIso)
    else s
  }

  /** Temperature with hysteresis: raise above the threshold, resolve from one
      degree below it, otherwise leave the alert as it is. */
  function TempStep(s: Store, latest: TelemetrySample, th: Thresholds, nowIso: string,
                    render: real -> string, suffix: string): Store {
    var threshold := th.tempHigh;
    if latest.temperature > threshold then
      Upsert(s, AlertInput(TempHigh, Warn, TempMessage(latest.temperature, threshold, render),
                           latest.timestamp, None, Some(latest.temperature), Some(threshold)), suffix)
    else if latest.temperature <= threshold - TEMP_HYSTERESIS then Resolve(s, TempHigh, nowIso)
    else s
  }

  /** recomputeAlerts on a parseable sample: staleness, then soil, then temperature. */
  function RecomputeStore(s: Store, th: Thresholds, latest: TelemetrySample, sampleTime: int,
                          nowMs: int, nowIso: string, render: real -> string, suffix: string): Store {
    var s1 := StaleStep(s, latest, sampleTime, nowMs, nowIso, suffix);
    var s2 := SoilStep(s1, latest, th, nowIso, render, suffix);
    TempStep(s2, latest, th, nowIso, render, suffix)
  }

  /** recomputeAlerts on all stores. No sample raises a critical SENSOR_STALE
      alert; a timestamp that does not parse changes nothing, not even by
      creating the user's store. */
  function Recompute(stores: map<string, Store>, uid: string, th: Thresholds, latest: Option<TelemetrySample>,
                     parseTime: string -> Option<int>, nowMs: int, nowIso: string,
                     render: real -> string, suffix: string): map<string, Store> {
    if latest.None? then
      stores[uid := Upsert(StoreOf(stores, uid),
                           AlertInput(SensorStale, Critical, NO_DATA_MESSAGE, nowIso, None, None, None), suffix)]
    else
      match parseTime(latest.value.timestamp)
      case None => stores
      case Some(sampleTime) =>
        stores[uid := RecomputeStore(StoreOf(stores, uid), th, latest.value, sampleTime, nowMs, nowIso, render, suffix)]
  }

  lemma StaleStepValid(s: Store, latest: TelemetrySample, sampleTime: int, nowMs: int, nowIso: string, suffix: string)
    requires StoreValid(s)
    ensures StoreValid(StaleStep(s, latest, sampleTime, nowMs, nowIso, suffix))
    ensures forall u :: u != SensorStale ==> ActiveOf(StaleStep(s, latest, sampleTime, nowMs, nowIso, suffix), u) == ActiveOf(s, u)
  {
    var input := AlertInput(SensorStale, Warn, "", "", None, None, None);
    forall u | u != SensorStale
      ensures ActiveOf(StaleStep(s, latest, sampleTime, nowMs, nowIso, suffix), u) == ActiveOf(s, u)
    {
      var age := nowMs - sampleTime;
      if age >= STALE_WARN_MINUTES * MS_PER_MINUTE {
        var severity := if age >= STALE_CRITICAL_MINUTES * MS_PER_MINUTE then Critical else Warn;
        UpsertOtherType(s, AlertInput(SensorStale, severity,
                           if severity == Critical then STALE_CRITICAL_MESSAGE else STALE_MESSAGE,
                           latest.timestamp, None, None, None), suffix, u);
      } else {
        ResolveOtherType(s, SensorStale, nowIso, u);
      }
    }
    UpsertKeepsValid(s, AlertInput(SensorStale, Critical, STALE_CRITICAL_MESSAGE, latest.timestamp, None, None, None), suffix);
    UpsertKeepsValid(s, AlertInput(SensorStale, Warn, STALE_MESSAGE, latest.timestamp, None, None, None), suffix);
    ResolveKeepsValid(s, SensorStale, nowIso);
  }

  lemma SoilStepValid(s: Store, latest: TelemetrySample, th: Thresholds, nowIso: string,
                      render: real -> string, suffix: string)
    requires StoreValid(s)
    ensures StoreValid(SoilStep(s, latest, th, nowIso, render, suffix))
    ensures forall u :: u != SoilMoistureLow ==> ActiveOf(SoilStep(s, latest, th, nowIso, render, suffix), u) == ActiveOf(s, u)
  {
    var threshold := th.soilMoistureLow;
    var input := AlertInput(SoilMoistureLow, Warn, SoilMessage(latest.soilMoisture, threshold, render),
                            latest.timestamp, None, Some(latest.soilMoisture), Some(threshold));
    OneTypeStep(s, input, nowIso, suffix, SoilStep(s, latest, th, nowIso, render, suffix));
  }

  lemma TempStepValid(s: Store, latest: TelemetrySample, th: Thresholds, nowIso: string,
                      render: real -> string, suffix: string)
    requires StoreValid(s)
    ensures StoreValid(TempStep(s, latest, th, nowIso, render, suffix))
    ensures forall u :: u != TempHigh ==> ActiveOf(TempStep(s, latest, th, nowIso, render, suffix), u) == ActiveOf(s, u)
  {
    var threshold := th.tempHigh;
    var input := AlertInput(TempHigh, Warn, TempMessage(latest.temperature, threshold, render),
                            latest.timestamp, None, Some(latest.temperature), Some(threshold));
    OneTypeStep(s, input, nowIso, suffix, TempStep(s, latest, th, nowIso, render, suffix));
  }

  /** Raising, resolving or keeping the alert of one type keeps the store
      valid and leaves the other types' active alerts alone. */
  lemma OneTypeStep(s: Store, input: AlertInput, nowIso: string, suffix: string, r: Store)
    requires StoreValid(s)
    requires r == Upsert(s, input, suffix) || r == Resolve(s, input.alertType, nowIso) || r == s
    ensures StoreValid(r)
    ensures forall u :: u != input.alertType ==> ActiveOf(r, u) == ActiveOf(s, u)
  {
    UpsertKeepsValid(s, input, suffix);
    ResolveKeepsValid(s, input.alertType, nowIso);
    forall u | u != input.alertType
      ensures ActiveOf(r, u) == ActiveOf(s, u)
    {
      UpsertOtherType(s, input, suffix, u);
      ResolveOtherType(s, input.alertType, nowIso, u);
    }
  }

  /** Recomputation keeps every store valid. */
  lemma RecomputeKeepsValid(stores: map<string, Store>, uid: string, th: Thresholds, latest: Option<TelemetrySample>,
                            parseTime: string -> Option<int>, nowMs: int, nowIso: string,
                            render: real -> string, suffix: string)
    requires forall v :: v in stores ==> StoreValid(stores[v])
    ensures var r := Recompute(stores, uid, th, latest, parseTime, nowMs, nowIso, render, suffix);
            forall v :: v in r ==> StoreValid(r[v])
  {
    var s := StoreOf(stores, uid);
    if latest.None? {
      UpsertKeepsValid(s, AlertInput(SensorStale, Critical, NO_DATA_MESSAGE, nowIso, None, None, None), suffix);
    } else if parseTime(latest.value.timestamp).Some? {
      var t := parseTime(latest.value.timestamp).value;
      var s1 := StaleStep(s, latest.value, t, nowMs, nowIso, suffix);
      StaleStepValid(s, latest.value, t, nowMs, nowIso, suffix);
      var s2 := SoilStep(s1, latest.value, th, nowIso, render, suffix);
      SoilStepValid(s1, latest.value, th, nowIso, render, suffix);
      TempStepValid(s2, latest.value, th, nowIso, render, suffix);
    }
  }

  /** No sample: SENSOR_STALE is active and critical; the soil and temperature
      alerts are untouched. An unparseable timestamp changes nothing. */
  lemma RecomputeWithoutSample(stores: map<string, Store>, uid: string, th: Thresholds, latest: Option<TelemetrySample>,
                               parseTime: string -> Option<int>, nowMs: int, nowIso: string,
                               render: real -> string, suffix: string)
    requires StoreValid(StoreOf(stores, uid))
    ensures latest.None? ==>
              var r := Recompute(stores, uid, th, latest, parseTime, nowMs, nowIso, render, suffix)[uid];
              && ActiveOf(r, SensorStale).Some? && ActiveOf(r, SensorStale).value.severity == Critical
              && ActiveOf(r, SoilMoistureLow) == ActiveOf(StoreOf(stores, uid), SoilMoistureLow)
              && ActiveOf(r, TempHigh) == ActiveOf(StoreOf(stores, uid), TempHigh)
    ensures latest.Some? && parseTime(latest.value.timestamp).None? ==>
              Recompute(stores, uid, th, latest, parseTime, nowMs, nowIso, render, suffix) == stores
  {
    if latest.None? {
      var s := StoreOf(stores, uid);
      var input := AlertInput(SensorStale, Critical, NO_DATA_MESSAGE, nowIso, None, None, None);
      UpsertMakesActive(s, input, suffix);
      UpsertOtherType(s, input, suffix, SoilMoistureLow);
      UpsertOtherType(s, input, suffix, TempHigh);
    }
  }

  /** Staleness tiers by the sample's age: critical from 60 minutes, warn from
      10, otherwise SENSOR_STALE is not active. */
  lemma RecomputeStaleness(s: Store, th: Thresholds, latest: TelemetrySample, sampleTime: int,
                           nowMs: int, nowIso: string, render: real -> string, suffix: string)
    requires StoreValid(s)
    ensures var a := ActiveOf(RecomputeStore(s, th, latest, sampleTime, nowMs, nowIso, render, suffix), SensorStale);
            var age := nowMs - sampleTime;
            && (age >= STALE_CRITICAL_MINUTES * MS_PER_MINUTE ==> a.Some? && a.value.severity == Critical)
            && (STALE_WARN_MINUTES * MS_PER_MINUTE <= age < STALE_CRITICAL_MINUTES * MS_PER_MINUTE ==>
                  a.Some? && a.value.severity == Warn)
            && (age < STALE_WARN_MINUTES * MS_PER_MINUTE ==> a.None?)
  {
    var s1 := StaleStep(s, latest, sampleTime, nowMs, nowIso, suffix);
    StaleStepValid(s, latest, sampleTime, nowMs, nowIso, suffix);
    var s2 := SoilStep(s1, latest, th, nowIso, render, suffix);
    SoilStepValid(s1, latest, th, nowIso, render, suffix);
    TempStepValid(s2, latest, th, nowIso, render, suffix);
    var age := nowMs - sampleTime;
    if age >= STALE_WARN_MINUTES * MS_PER_MINUTE {
      var severity := if age >= STALE_CRITICAL_MINUTES * MS_PER_MINUTE then Critical else Warn;
      UpsertMakesActive(s, AlertInput(SensorStale, severity,
                           if severity == Critical then STALE_CRITICAL_MESSAGE else STALE_MESSAGE,
                           latest.timestamp, None, None, None), suffix);
    } else {
      ResolveOutcome(s, SensorStale, nowIso);
    }
  }

  /** Soil hysteresis: below the threshold the alert is active with the
      reading; from threshold + 2 it is not; in between it is as before. */
  lemma RecomputeSoil(s: Store, th: Thresholds, latest: TelemetrySample, sampleTime: int,
                      nowMs: int, nowIso: string, render: real -> string, suffix: string)
    requires StoreValid(s)
    ensures var a := ActiveOf(RecomputeStore(s, th, latest, sampleTime, nowMs, nowIso, render, suffix), SoilMoistureLow);
            var m := latest.soilMoisture;
            && (m < th.soilMoistureLow ==> a.Some? && a.value.value == Some(m) && a.value.threshold == Some(th.soilMoistureLow))
            && (m >= th.soilMoistureLow + SOIL_HYSTERESIS ==> a.None?)
            && (th.soilMoistureLow <= m < th.soilMoistureLow + SOIL_HYSTERESIS ==> a == ActiveOf(s, SoilMoistureLow))
  {
    var s1 := StaleStep(s, latest, sampleTime, nowMs, nowIso, suffix);
    StaleStepValid(s, latest, sampleTime, nowMs, nowIso, suffix);
    var s2 := SoilStep(s1, latest, th, nowIso, render, suffix);
    SoilStepValid(s1, latest, th, nowIso, render, suffix);
    TempStepValid(s2, latest, th, nowIso, render, suffix);
    var threshold := th.soilMoistureLow;
    UpsertMakesActive(s1, AlertInput(SoilMoistureLow, Warn, SoilMessage(latest.soilMoisture, threshold, render),
                                     latest.timestamp, None, Some(latest.soilMoisture), Some(threshold)), suffix);
    ResolveOutcome(s1, SoilMoistureLow, nowIso);
  }

  /** Temperature hysteresis: above the threshold the alert is active with the
      reading; at or below threshold - 1 it is not; in between it is as before. */
  lemma RecomputeTemp(s: Store, th: Thresholds, latest: TelemetrySample, sampleTime: int,
                      nowMs: int, nowIso: string, render: real -> string, suffix: string)
    requires StoreValid(s)
    ensures var a := ActiveOf(RecomputeStore(s, th, latest, sampleTime, nowMs, nowIso, render, suffix), TempHigh);
            var t := latest.temperature;
            && (t > th.tempHigh ==> a.Some? && a.value.value == Some(t) && a.value.threshold == Some(th.tempHigh))
            && (t <= th.tempHigh - TEMP_HYSTERESIS ==> a.None?)
            && (th.tempHigh - TEMP_HYSTERESIS < t <= th.tempHigh ==> a == ActiveOf(s, TempHigh))
  {
    var s1 := StaleStep(s, latest, sampleTime, nowMs, nowIso, suffix);
    StaleStepValid(s, latest, sampleTime, nowMs, nowIso, suffix);
    var s2 := SoilStep(s1, latest, th, nowIso, render, suffix);
    SoilStepValid(s1, latest, th, nowIso, render, suffix);
    var threshold := th.tempHigh;
    UpsertMakesActive(s2, AlertInput(TempHigh, Warn, TempMessage(latest.temperature, threshold, render),
                                     latest.timestamp, None, Some(latest.temperature), Some(threshold)), suffix);
    ResolveOutcome(s2, TempHigh, nowIso);
  }

  // ---------------------------------------------------------------------------
  // Acknowledgement

  /** The index of the active alert with the id (`active.get(id)`), or the length. */
  function FindById(active: seq<Alert>, id: string): (k: nat)
    ensures k <= |active|
    ensures forall i :: 0 <= i < k ==> active[i].id != id
    ensures k < |active| ==> active[k].id == id
  {
    if active == [] || active[0].id == id then 0 else 1 + FindById(active[1..], id)
  }

  /** acknowledgeAlert on one store. */
  function Acknowledge(s: Store, id: string): Store {
    var k := FindById(s.active, id);
    if k < |s.active| then s.(active := s.active[k := s.active[k].(acknowledged := true)]) else s
  }

  /** Only the alert with the id gets the flag; an unknown id changes nothing. */
  lemma AcknowledgeOutcome(s: Store, id: string)
    requires StoreValid(s)
    ensures var r := Acknowledge(s, id);
            && StoreValid(r) && r.history == s.history && |r.active| == |s.active|
            && (forall i :: 0 <= i < |s.active| ==>
                  r.active[i] == if s.active[i].id == id then s.active[i].(acknowledged := true) else s.active[i])
  {
    var k := FindById(s.active, id);
    if k < |s.active| {
      forall i | 0 <= i < |s.active| && i != k
        ensures s.active[i].id != id
      {
        if i < k {
        } else {
          ActiveIdsDistinct(s, k, i);
        }
      }
    }
  }

  /** getAlertHistory: `history.slice(0, limit)`; a limit of at least zero
      gives the newest `limit` entries. */
  lemma HistoryPrefix(s: Store, limit: int)
    requires limit >= 0
    ensures Slice(s.history, 0, limit) == Take(s.history, limit)
  {
  }

  // ---------------------------------------------------------------------------
  // The module state

  /** Replacing one store by a valid one keeps every store valid. */
  lemma StoresValidUpdate(stores: map<string, Store>, uid: string, s: Store, updated: map<string, Store>)
    requires forall v :: v in stores ==> StoreValid(stores[v])
    requires StoreValid(s) && updated == stores[uid := s]
    ensures forall v :: v in updated ==> StoreValid(updated[v])
  {
  }

  class AlertCenter {
    /** stores: the per-user alert stores. */
    var stores: map<string, Store>

    ghost predicate Valid()
      reads this
    {
      forall uid :: uid in stores ==> StoreValid(stores[uid])
    }

    constructor ()
      ensures Valid() && stores == map[]
    {
      stores := map[];
    }

    /** getStore: creates the user's empty store on first use. */
    method GetStore(uid: string) returns (store: Store)
      requires Valid()
      modifies this
      ensures Valid()
      ensures store == StoreOf(old(stores), uid)
      ensures stores == old(stores)[uid := store]
    {
      if uid in stores {
        store := stores[uid];
      } else {
        store := Store([], []);
        stores := stores[uid := store];
      }
    }

    /** upsertAlert. */
    method UpsertAlert(uid: string, input: AlertInput, suffix: string) returns (record: Alert)
      requires Valid()
      modifies this
      ensures Valid()
      ensures stores == old(stores)[uid := Upsert(StoreOf(old(stores), uid), input, suffix)]
      ensures record == UpsertedRecord(StoreOf(old(stores), uid), input, suffix)
    {
      var store := GetStore(uid);
      var k := FindActiveByType(store.active, input.alertType);
      if k < |store.active| {
        record := Updated(store.active[k], input);
        stores := stores[uid := store.(active := store.active[k := record])];
      } else {
        record := NewRecord(input, suffix);
        stores := stores[uid := store.(active := store.active + [record])];
      }
      UpsertKeepsValid(store, input, suffix);
    }

    /** resolveAlert. */
    method ResolveAlert(uid: string, t: AlertType, resolvedAt: string)
      requires Valid()
      modifies this
      ensures Valid()
      ensures stores == old(stores)[uid := Resolve(StoreOf(old(stores), uid), t, resolvedAt)]
    {
      var store := GetStore(uid);
      var k := FindActiveByType(store.active, t);
      if k < |store.active| {
        var history := [store.active[k].(resolvedAt := Some(resolvedAt))] + store.history;
        if |history| > HISTORY_CAP {
          history := history[..HISTORY_CAP];
        }
        assert Store(store.active[..k] + store.active[k + 1..], history) == Resolve(store, t, resolvedAt);
        stores := stores[uid := Store(store.active[..k] + store.active[k + 1..], history)];
      }
      ResolveKeepsValid(store, t, resolvedAt);
      StoresValidUpdate(old(stores), uid, Resolve(store, t, resolvedAt), stores);
    }

    /** recomputeAlerts for one user. */
    method RecomputeAlerts(uid: string, th: Thresholds, latest: Option<TelemetrySample>,
                           parseTime: string -> Option<int>, nowMs: int, nowIso: string,
                           render: real -> string, suffix: string)
      requires Valid()
      modifies this
      ensures Valid()
      ensures stores == Recompute(old(stores), uid, th, latest, parseTime, nowMs, nowIso, render, suffix)
    {
      if latest.None? {
        var _ := UpsertAlert(uid, AlertInput(SensorStale, Critical, NO_DATA_MESSAGE, nowIso, None, None, None), suffix);
      } else {
        var sample := latest.value;
        var parsed := parseTime(sample.timestamp);
        if parsed.Some? {
          RecomputeSample(uid, th, sample, parsed.value, nowMs, nowIso, render, suffix);
        }
      }
    }

    /** The three rules of recomputeAlerts, in order, on a parsed sample. */
    method RecomputeSample(uid: string, th: Thresholds, sample: TelemetrySample, sampleTime: int,
                           nowMs: int, nowIso: string, render: real -> string, suffix: string)
      requires Valid()
      modifies this
      ensures Valid()
      ensures stores == old(stores)[uid := RecomputeStore(StoreOf(old(stores), uid), th, sample, sampleTime,
                                                          nowMs, nowIso, render, suffix)]
    {
      ghost var before := stores;
      StaleAlert(uid, sample, sampleTime, nowMs, nowIso, suffix);
      ghost var s1 := stores[uid];
      SoilAlert(uid, sample, th, nowIso, render, suffix);
      ghost var s2 := stores[uid];
      UpdateTwice(before, uid, s1, s2);
      TempAlert(uid, sample, th, nowIso, render, suffix);
      UpdateTwice(before, uid, s2, stores[uid]);
    }

    method StaleAlert(uid: string, sample: TelemetrySample, sampleTime: int, nowMs: int, nowIso: string, suffix: string)
      requires Valid()
      modifies this
      ensures Valid()
      ensures stores == old(stores)[uid := StaleStep(StoreOf(old(stores), uid), sample, sampleTime, nowMs, nowIso, suffix)]
    {
      var minutesSinceMs := nowMs - sampleTime;
      if minutesSinceMs >= STALE_WARN_MINUTES * MS_PER_MINUTE {
        var severity := if minutesSinceMs >= STALE_CRITICAL_MINUTES * MS_PER_MINUTE then Critical else Warn;
        var message := if severity == Critical then STALE_CRITICAL_MESSAGE else STALE_MESSAGE;
        var _ := UpsertAlert(uid, AlertInput(SensorStale, severity, message, sample.timestamp, None, None, None), suffix);
      } else {
        ResolveAlert(uid, SensorStale, nowIso);
      }
    }

    method SoilAlert(uid: string, sample: TelemetrySample, th: Thresholds, nowIso: string,
                     render: real -> string, suffix: string)
      requires Valid()
      modifies this
      ensures Valid()
      ensures stores == old(stores)[uid := SoilStep(StoreOf(old(stores), uid), sample, th, nowIso, render, suffix)]
    {
      var soilThreshold := th.soilMoistureLow;
      if sample.soilMoisture < soilThreshold {
        var _ := UpsertAlert(uid, AlertInput(SoilMoistureLow, Warn, SoilMessage(sample.soilMoisture, soilThreshold, render),
                                             sample.timestamp, None, Some(sample.soilMoisture), Some(soilThreshold)), suffix);
      } else if sample.soilMoisture >= soilThreshold + SOIL_HYSTERESIS {
        ResolveAlert(uid, SoilMoistureLow, nowIso);
      } else {
        var _ := GetStore(uid);
      }
    }

    method TempAlert(uid: string, sample: TelemetrySample, th: Thresholds, nowIso: string,
                     render: real -> string, suffix: string)
      requires Valid()
      modifies this
      ensures Valid()
      ensures stores == old(stores)[uid := TempStep(StoreOf(old(stores), uid), sample, th, nowIso, render, suffix)]
    {
      var tempThreshold := th.tempHigh;
      if sample.temperature > tempThreshold {
        var _ := UpsertAlert(uid, AlertInput(TempHigh, Warn, TempMessage(sample.temperature, tempThreshold, render),
                                             sample.timestamp, None, Some(sample.temperature), Some(tempThreshold)), suffix);
      } else if sample.temperature <= tempThreshold - TEMP_HYSTERESIS {
        ResolveAlert(uid, TempHigh, nowIso);
      } else {
        var _ := GetStore(uid);
      }
    }

    /** getActiveAlerts: the user's active alerts in insertion order. */
    method GetActiveAlerts(uid: string) returns (alerts: seq<Alert>)
      requires Valid()
      modifies this
      ensures Valid()
      ensures alerts == StoreOf(old(stores), uid).active
      ensures stores == old(stores)[uid := StoreOf(old(stores), uid)]
    {
      var store := GetStore(uid);
      alerts := store.active;
    }

    /** getAlertHistory: `history.slice(0, limit)`. */
    method GetAlertHistory(uid: string, limit: int) returns (alerts: seq<Alert>)
      requires Valid()
      modifies this
      ensures Valid()
      ensures alerts == Slice(StoreOf(old(stores), uid).history, 0, limit)
      ensures stores == old(stores)[uid := StoreOf(old(stores), uid)]
    {
      var store := GetStore(uid);
      alerts := Slice(store.history, 0, limit);
    }

    /** acknowledgeAlert. */
    method AcknowledgeAlert(uid: string, id: string)
      requires Valid()
      modifies this
      ensures Valid()
      ensures stores == old(stores)[uid := Acknowledge(StoreOf(old(stores), uid), id)]
    {
      var store := GetStore(uid);
      var k := FindById(store.active, id);
      if k < |store.active| {
        stores := stores[uid := store.(active := store.active[k := store.active[k].(acknowledged := true)])];
      }
      AcknowledgeOutcome(store, id);
    }
  }
}
