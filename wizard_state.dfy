/** The setup wizard's step machine and persisted data
    (frontend/src/features/setup/wizard/state.ts). Reading and writing
    localStorage are left out: `Hydrate` takes the parsed stored object, and
    `Stored` is the JSON round trip that `save` followed by `load` performs. */
module WizardState {
  import opened Common

  /** A property of a parsed JSON object: missing, `null`, or a value. Object
      spread copies `null` but not a missing property. */
  datatype Field<T> = Absent | Null | Present(v: T)

  /** `{ ...defaults, ...persisted }` for one property. */
  function Merge<T>(default: Field<T>, persisted: Field<T>): (r: Field<T>)
    ensures persisted.Absent? ==> r == default
    ensures !persisted.Absent? ==> r == persisted
  {
    if persisted.Absent? then default else persisted
  }

  /** `x ?? d`: both a missing property and `null` give the default. */
  function OrDefault<T>(f: Field<T>, d: T): (r: T)
    ensures f.Present? ==> r == f.v
    ensures !f.Present? ==> r == d
  {
    if f.Present? then f.v else d
  }

  const TOTAL_STEPS := 4
  const LAST_STEP := TOTAL_STEPS - 1

  /** Math.trunc on a finite number: rounds toward zero. */
  function Trunc(x: real): (n: int)
    ensures x >= 0.0 ==> n == x.Floor
    ensures x < 0.0 ==> n == -((-x).Floor)
    ensures -1.0 < x - n as real < 1.0
  {
    if x >= 0.0 then x.Floor else -((-x).Floor)
  }

  /** clampStep: NaN is step 0; any other number is truncated and clamped
      into 0..3 (an infinity clamps to the nearer end). */
  function ClampStep(value: JsNumber): (s: int)
    ensures 0 <= s <= LAST_STEP
  {
    match value
    case NaN => 0
    case PosInf => LAST_STEP
    case NegInf => 0
    case Finite(x) =>
      var t := Trunc(x);
      if t < 0 then 0 else if t > LAST_STEP then LAST_STEP else t
  }

  /** A whole step number 0..3 is kept, a number in 0..4 is rounded down, a
      number below 1 is step 0 and one of at least 3 is the last step. */
  lemma ClampStepCases(x: real)
    ensures 0.0 <= x < TOTAL_STEPS as real ==> ClampStep(Finite(x)) == x.Floor
    ensures x < 1.0 ==> ClampStep(Finite(x)) == 0
    ensures x >= LAST_STEP as real ==> ClampStep(Finite(x)) == LAST_STEP
  {
  }

  /** Clamping a step already in 0..3 keeps it. */
  lemma ClampStepOfStep(s: int)
    requires 0 <= s <= LAST_STEP
    ensures ClampStep(Finite(s as real)) == s
  {
    ClampStepCases(s as real);
  }

  /** CropSelection. */
  datatype CropSelection = CropSelection(kind: Field<string>, variety: Field<string>)

  /** PreferenceSettings. */
  datatype Prefs = Prefs(
    lightHours: Field<JsNumber>, soilMoistureLow: Field<JsNumber>, tempHigh: Field<JsNumber>,
    timelapseHour: Field<JsNumber>, language: Field<string>, growMethod: Field<string>)

  /** SetupData, with the step as a number. */
  datatype SetupData = SetupData(step: int, crop: CropSelection, prefs: Prefs)

  /** The partial object `load` returns. */
  datatype Persisted = Persisted(step: Field<JsNumber>, crop: Field<CropSelection>, prefs: Field<Prefs>)

  /** DEFAULT_SETUP. */
  const DEFAULT_PREFS := Prefs(Present(Finite(12.0)), Present(Finite(30.0)), Present(Finite(30.0)),
                               Present(Finite(9.0)), Present("en"), Present("soil"))
  const DEFAULT_CROP := CropSelection(Absent, Absent)
  const DEFAULT_SETUP := SetupData(0, DEFAULT_CROP, DEFAULT_PREFS)

  /** `{ ...defaults, ...persisted }` for a nested object; spreading a missing
      or null object copies nothing. */
  function MergeCrop(d: CropSelection, p: Field<CropSelection>): CropSelection {
    if p.Present? then CropSelection(Merge(d.kind, p.v.kind), Merge(d.variety, p.v.variety)) else d
  }

  function MergePrefs(d: Prefs, p: Field<Prefs>): Prefs {
    if p.Present? then
      Prefs(Merge(d.lightHours, p.v.lightHours), Merge(d.soilMoistureLow, p.v.soilMoistureLow),
            Merge(d.tempHigh, p.v.tempHigh), Merge(d.timelapseHour, p.v.timelapseHour),
            Merge(d.language, p.v.language), Merge(d.growMethod, p.v.growMethod))
    else d
  }

  /** hydrate: the defaults overlaid with what was stored, the step clamped. */
  function Hydrate(persisted: Persisted): (r: SetupData)
    ensures 0 <= r.step <= LAST_STEP
  {
    SetupData(ClampStep(OrDefault(persisted.step, Finite(DEFAULT_SETUP.step as real))),
              MergeCrop(DEFAULT_SETUP.crop, persisted.crop),
              MergePrefs(DEFAULT_SETUP.prefs, persisted.prefs))
  }

  /** Nothing stored gives exactly the defaults. */
  lemma HydrateNothing()
    ensures Hydrate(Persisted(Absent, Absent, Absent)) == DEFAULT_SETUP
  {
  }

  /** Each preference is the stored one when it was stored (even `null`), the
      default otherwise; the crop fields are the stored ones or absent. */
  lemma HydratePrefs(persisted: Persisted)
    ensures var r := Hydrate(persisted);
            && (persisted.prefs.Present? && !persisted.prefs.v.lightHours.Absent? ==>
                  r.prefs.lightHours == persisted.prefs.v.lightHours)
            && (!persisted.prefs.Present? || persisted.prefs.v.lightHours.Absent? ==>
                  r.prefs.lightHours == Present(Finite(12.0)))
            && (!persisted.prefs.Present? || persisted.prefs.v.timelapseHour.Absent? ==>
                  r.prefs.timelapseHour == Present(Finite(9.0)))
            && (!persisted.crop.Present? ==> r.crop == CropSelection(Absent, Absent))
            && (persisted.crop.Present? ==> r.crop == persisted.crop.v)
            && (!persisted.step.Present? ==> r.step == 0)
  {
  }

  /** A number as JSON.stringify writes it and JSON.parse reads it back: NaN
      and the infinities become `null`. */
  function StoredNumber(f: Field<JsNumber>): Field<JsNumber> {
    if f.Present? && !f.v.Finite? then Null else f
  }

  /** The object `load` returns after `save(state)`: properties that are
      `undefined` are not written, so they come back missing. */
  function Stored(s: SetupData): Persisted {
    Persisted(Present(Finite(s.step as real)), Present(s.crop),
              Present(Prefs(StoredNumber(s.prefs.lightHours), StoredNumber(s.prefs.soilMoistureLow),
                            StoredNumber(s.prefs.tempHigh), StoredNumber(s.prefs.timelapseHour),
                            s.prefs.language, s.prefs.growMethod)))
  }

  /** A numeric preference that JSON writes and reads back unchanged: set,
      and finite unless `null`. */
  predicate SurvivesJson(f: Field<JsNumber>) {
    !f.Absent? && (f.Present? ==> f.v.Finite?)
  }

  /** Saving and hydrating gives the state back when its step is 0..3 and no
      preference is missing or a non-finite number. */
  lemma HydrateStored(s: SetupData)
    requires 0 <= s.step <= LAST_STEP
    requires SurvivesJson(s.prefs.lightHours) && SurvivesJson(s.prefs.soilMoistureLow)
    requires SurvivesJson(s.prefs.tempHigh) && SurvivesJson(s.prefs.timelapseHour)
    requires !s.prefs.language.Absent? && !s.prefs.growMethod.Absent?
    ensures Hydrate(Stored(s)) == s
  {
    ClampStepOfStep(s.step);
  }

  /** A preference that was NaN when saved comes back as `null`, not as the
      default, and then fails the range check. */
  lemma HydrateStoredNaN(s: SetupData)
    requires 0 <= s.step <= LAST_STEP && s.prefs.lightHours == Present(NaN)
    ensures Hydrate(Stored(s)).prefs.lightHours == Null
    ensures !IsStepValid(Hydrate(Stored(s)), 2)
  {
  }

  /** `typeof value === 'number' && value >= min && value <= max`. */
  predicate Within(value: Field<JsNumber>, min: real, max: real) {
    value.Present? && value.v.Finite? && min <= value.v.r <= max
  }

  /** isStepValid. */
  predicate IsStepValid(s: SetupData, step: int) {
    if step == 0 || step == 3 then true
    else if step == 1 then Truthy(OrNone(s.crop.kind)) && Truthy(OrNone(s.crop.variety))
    else if step == 2 then
      && Within(s.prefs.lightHours, 1.0, 24.0)
      && Within(s.prefs.soilMoistureLow, 0.0, 100.0)
      && Within(s.prefs.tempHigh, 5.0, 45.0)
      && Within(s.prefs.timelapseHour, 0.0, 23.0)
    else false
  }

  /** A field as an Option: missing and `null` are both None. */
  function OrNone<T>(f: Field<T>): (r: Option<T>)
    ensures r.Some? <==> f.Present?
  {
    if f.Present? then Some(f.v) else None
  }

  /** Steps 0 and 3 always pass; step 1 needs a non-empty kind and variety;
      step 2 needs every range, inclusive: light 1..24 h, soil 0..100 %,
      temperature 5..45 and time-lapse hour 0..23. */
  lemma StepValidity(s: SetupData)
    ensures IsStepValid(s, 0) && IsStepValid(s, 3)
    ensures IsStepValid(s, 1) <==>
              s.crop.kind.Present? && s.crop.kind.v != "" && s.crop.variety.Present? && s.crop.variety.v != ""
    ensures IsStepValid(s, 2) <==>
              && s.prefs.lightHours.Present? && s.prefs.lightHours.v.Finite?
              && 1.0 <= s.prefs.lightHours.v.r <= 24.0
              && s.prefs.soilMoistureLow.Present? && s.prefs.soilMoistureLow.v.Finite?
              && 0.0 <= s.prefs.soilMoistureLow.v.r <= 100.0
              && s.prefs.tempHigh.Present? && s.prefs.tempHigh.v.Finite?
              && 5.0 <= s.prefs.tempHigh.v.r <= 45.0
              && s.prefs.timelapseHour.Present? && s.prefs.timelapseHour.v.Finite?
              && 0.0 <= s.prefs.timelapseHour.v.r <= 23.0
    ensures forall k :: (k < 0 || k > LAST_STEP) ==> !IsStepValid(s, k)
  {
  }

  /** The default preferences pass step 2, and with no crop chosen step 1
      fails. */
  lemma DefaultSetupValidity()
    ensures IsStepValid(DEFAULT_SETUP, 2) && !IsStepValid(DEFAULT_SETUP, 1)
  {
  }

  /** getNextStep. */
  function NextStep(current: int): int {
    if current + 1 < LAST_STEP then current + 1 else LAST_STEP
  }

  /** getPreviousStep. */
  function PreviousStep(current: int): int {
    if current - 1 > 0 then current - 1 else 0
  }

  /** Both moves stay within 0..3 and saturate at the ends; away from the
      ends each undoes the other. */
  lemma StepMoves(s: int)
    requires 0 <= s <= LAST_STEP
    ensures 0 <= NextStep(s) <= LAST_STEP && 0 <= PreviousStep(s) <= LAST_STEP
    ensures NextStep(LAST_STEP) == LAST_STEP && PreviousStep(0) == 0
    ensures s < LAST_STEP ==> NextStep(s) == s + 1 && PreviousStep(NextStep(s)) == s
    ensures s > 0 ==> PreviousStep(s) == s - 1 && NextStep(PreviousStep(s)) == s
  {
  }
}
