/** The second setup wizard's state (frontend/src/features/setup/state.tsx):
    the selected crop with its fetched defaults, three numeric preferences and
    the notification switches. Its clampStep, getNextStep and getPreviousStep
    are the same code as the first wizard's and are `WizardState.ClampStep`,
    `WizardState.NextStep` and `WizardState.PreviousStep`; the React provider and
    localStorage are left out, and `HydrateState` takes the parsed stored
    object. */
module SetupState {
  import opened Common
  import opened WizardState

  /** The part of CropDefaults the wizard looks at: its overview text, which
      is a string or null. */
  datatype DefaultsView = DefaultsView(overview: Option<string>)

  /** WizardSelection. */
  datatype Selection = Selection(
    cropId: Field<string>, cropLabel: Field<string>, variety: Field<string>,
    varietyLabel: Field<string>, defaults: Field<DefaultsView>)

  /** NotificationSettings; a stored `null` survives the spread. */
  datatype Notifications = Notifications(email: Field<bool>, push: Field<bool>)

  /** WizardPreferences. */
  datatype WizardPrefs = WizardPrefs(
    lightHours: Field<JsNumber>, temperatureCeiling: Field<JsNumber>, humidityTarget: Field<JsNumber>,
    notifications: Notifications)

  /** SetupWizardState, with the step as a number. */
  datatype WizardData = WizardData(step: int, selection: Selection, prefs: WizardPrefs)

  /** The stored preferences: every property may be missing. */
  datatype PersistedPrefs = PersistedPrefs(
    lightHours: Field<JsNumber>, temperatureCeiling: Field<JsNumber>, humidityTarget: Field<JsNumber>,
    notifications: Field<Notifications>)

  /** The partial object `readState` returns. */
  datatype PersistedState = PersistedState(step: Field<JsNumber>, selection: Field<Selection>,
                                           prefs: Field<PersistedPrefs>)

  const NO_SELECTION := Selection(Absent, Absent, Absent, Absent, Absent)
  const DEFAULT_NOTIFICATIONS := Notifications(Present(false), Present(false))

  /** DEFAULT_STATE. */
  const DEFAULT_STATE := WizardData(0, NO_SELECTION, WizardPrefs(Null, Null, Null, DEFAULT_NOTIFICATIONS))

  function MergeSelection(d: Selection, p: Field<Selection>): Selection {
    if p.Present? then
      Selection(Merge(d.cropId, p.v.cropId), Merge(d.cropLabel, p.v.cropLabel), Merge(d.variety, p.v.variety),
                Merge(d.varietyLabel, p.v.varietyLabel), Merge(d.defaults, p.v.defaults))
    else d
  }

  function MergeNotifications(d: Notifications, p: Field<Notifications>): Notifications {
    if p.Present? then Notifications(Merge(d.email, p.v.email), Merge(d.push, p.v.push)) else d
  }

  /** The preferences spread over the defaults, and the notifications spread
      property by property over theirs. */
  function MergeWizardPrefs(d: WizardPrefs, p: Field<PersistedPrefs>): WizardPrefs {
    if p.Present? then
      WizardPrefs(Merge(d.lightHours, p.v.lightHours), Merge(d.temperatureCeiling, p.v.temperatureCeiling),
                  Merge(d.humidityTarget, p.v.humidityTarget),
                  MergeNotifications(d.notifications, p.v.notifications))
    else WizardPrefs(d.lightHours, d.temperatureCeiling, d.humidityTarget, MergeNotifications(d.notifications, Absent))
  }

  /** hydrateState: the defaults overlaid with what was stored, the step
      clamped. */
  function HydrateState(persisted: PersistedState): (r: WizardData)
    ensures 0 <= r.step <= LAST_STEP
  {
    WizardData(ClampStep(OrDefault(persisted.step, Finite(DEFAULT_STATE.step as real))),
               MergeSelection(DEFAULT_STATE.selection, persisted.selection),
               MergeWizardPrefs(DEFAULT_STATE.prefs, persisted.prefs))
  }

  /** Nothing stored gives exactly the defaults. */
  lemma HydrateStateNothing()
    ensures HydrateState(PersistedState(Absent, Absent, Absent)) == DEFAULT_STATE
  {
  }

  /** Each notification switch is the stored one when it was stored, `false`
      otherwise, however much of the preferences was stored; a stored step is
      clamped into 0..3. */
  lemma HydrateStateNotifications(persisted: PersistedState)
    ensures var n := HydrateState(persisted).prefs.notifications;
            var stored := if persisted.prefs.Present? then persisted.prefs.v.notifications else Absent;
            && (stored.Present? && !stored.v.email.Absent? ==> n.email == stored.v.email)
            && (!stored.Present? || stored.v.email.Absent? ==> n.email == Present(false))
            && (stored.Present? && !stored.v.push.Absent? ==> n.push == stored.v.push)
            && (!stored.Present? || stored.v.push.Absent? ==> n.push == Present(false))
    ensures persisted.step.Present? ==> HydrateState(persisted).step == ClampStep(persisted.step.v)
  {
  }

  /** isStepValid of this wizard. */
  predicate IsStepValid(s: WizardData, step: int) {
    if step == 0 || step == 3 then true
    else if step == 1 then
      && Truthy(OrNone(s.selection.cropId))
      && Truthy(OrNone(s.selection.variety))
      && s.selection.defaults.Present?
      && Truthy(s.selection.defaults.v.overview)
    else if step == 2 then
      s.prefs.lightHours.Present? && s.prefs.temperatureCeiling.Present? && s.prefs.humidityTarget.Present?
    else false
  }

  /** Step 1 needs a crop id, a variety and defaults with a non-empty overview;
      step 2 needs the three preferences to be numbers, in any range and NaN
      included; steps 0 and 3 always pass and no other step does. */
  lemma StepValidity(s: WizardData)
    ensures IsStepValid(s, 0) && IsStepValid(s, 3)
    ensures IsStepValid(s, 1) <==>
              && s.selection.cropId.Present? && s.selection.cropId.v != ""
              && s.selection.variety.Present? && s.selection.variety.v != ""
              && s.selection.defaults.Present? && s.selection.defaults.v.overview.Some?
              && s.selection.defaults.v.overview.value != ""
    ensures IsStepValid(s, 2) <==>
              !s.prefs.lightHours.Absent? && !s.prefs.lightHours.Null?
              && !s.prefs.temperatureCeiling.Absent? && !s.prefs.temperatureCeiling.Null?
              && !s.prefs.humidityTarget.Absent? && !s.prefs.humidityTarget.Null?
    ensures IsStepValid(s.(prefs := s.prefs.(lightHours := Present(NaN), temperatureCeiling := Present(NegInf),
                                            humidityTarget := Present(Finite(-1.0)))), 2)
    ensures forall k :: (k < 0 || k > LAST_STEP) ==> !IsStepValid(s, k)
  {
  }

  /** The defaults pass steps 0 and 3 and fail steps 1 and 2. */
  lemma DefaultStateValidity()
    ensures IsStepValid(DEFAULT_STATE, 0) && IsStepValid(DEFAULT_STATE, 3)
    ensures !IsStepValid(DEFAULT_STATE, 1) && !IsStepValid(DEFAULT_STATE, 2)
  {
  }
}
