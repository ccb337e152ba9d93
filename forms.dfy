/**
 * The cross-field validation of inventaris/forms.py. Django's `add_error`
 * only collects one message list per field, so each validation is modelled
 * as the set of fields reported in error; an empty set means the form is
 * valid. Errors accumulate: every failed check adds its field.
 */
module Forms {
  import opened Calendar
  import opened Models

  /**
   * The editable fields of MaintenanceScheduleForm, as submitted. A period
   * is read with `PeriodFromCode`; the blank option of the select arrives as
   * `Unrecognised("")`.
   */
  datatype ScheduleInput = ScheduleInput(
    asset: nat,
    planName: string,
    trigger: TriggerType,
    period: Option<Period>,
    nextDueDate: Option<CalendarDate>,
    usageInterval: Option<nat>,
    usageReadingType: Option<ReadingType>,
    lastUsageValue: Option<nat>,
    nextDueUsage: Option<nat>,
    status: ScheduleStatus)

  datatype ScheduleField =
    | AssetField
    | PlanNameField
    | PeriodField
    | NextDueDateField
    | UsageIntervalField
    | UsageReadingTypeField
    | NextDueUsageField

  /**
   * `MaintenanceScheduleForm.clean` over cleaned values: a time trigger needs
   * a period and a due date; a usage trigger needs a nonzero interval, a
   * reading type and a nonzero due usage (the source tests truthiness, so 0
   * counts as missing); condition and event triggers are never reported.
   */
  function ScheduleCleanErrors(f: ScheduleInput): (errors: set<ScheduleField>)
    ensures PeriodField in errors <==> f.trigger == TimeTrigger && f.period.None?
    ensures NextDueDateField in errors <==> f.trigger == TimeTrigger && f.nextDueDate.None?
    ensures UsageIntervalField in errors <==> f.trigger == UsageTrigger && !Truthy(f.usageInterval)
    ensures UsageReadingTypeField in errors <==> f.trigger == UsageTrigger && f.usageReadingType.None?
    ensures NextDueUsageField in errors <==> f.trigger == UsageTrigger && !Truthy(f.nextDueUsage)
    ensures AssetField !in errors && PlanNameField !in errors
  {
    if f.trigger == TimeTrigger then
      (if f.period.None? then {PeriodField} else {})
      + (if f.nextDueDate.None? then {NextDueDateField} else {})
    else if f.trigger == UsageTrigger then
      (if !Truthy(f.usageInterval) then {UsageIntervalField} else {})
      + (if f.usageReadingType.None? then {UsageReadingTypeField} else {})
      + (if !Truthy(f.nextDueUsage) then {NextDueUsageField} else {})
    else
      {}
  }

  /** The blank option of the period select, which Django cleans to None without an error. */
  predicate BlankPeriod(p: Option<Period>) {
    p == Some(Unrecognised(""))
  }

  /** A submitted period that is neither blank nor one of PERIOD_CHOICES. */
  predicate InvalidPeriod(p: Option<Period>) {
    p.Some? && !IsChoice(p.value) && !BlankPeriod(p)
  }

  /**
   * The cleaned data field validation leaves: a blank or invalid period is
   * not in it, any other field is as submitted.
   */
  function CleanedSchedule(f: ScheduleInput): (c: ScheduleInput)
    ensures c.period.Some? ==> IsChoice(c.period.value)
    ensures f.period.Some? && IsChoice(f.period.value) ==> c == f
    ensures c == f.(period := c.period)
  {
    if f.period.Some? && !IsChoice(f.period.value) then f.(period := None) else f
  }

  /**
   * The whole form: field validation first (the asset must be one of the
   * choices, the plan name is required, a period outside PERIOD_CHOICES is
   * rejected, a blank one is None), then `clean` on the cleaned data.
   */
  function ScheduleFormErrors(f: ScheduleInput, assetKnown: bool): (errors: set<ScheduleField>)
    ensures AssetField in errors <==> !assetKnown
    ensures PlanNameField in errors <==> |f.planName| == 0
    ensures PeriodField in errors <==>
      InvalidPeriod(f.period) || (f.trigger == TimeTrigger && CleanedSchedule(f).period.None?)
    ensures errors == {} ==> ScheduleAccepted(CleanedSchedule(f))
  {
    (if assetKnown then {} else {AssetField})
    + (if |f.planName| == 0 then {PlanNameField} else {})
    + (if InvalidPeriod(f.period) then {PeriodField} else {})
    + ScheduleCleanErrors(CleanedSchedule(f))
  }

  /** A blank period select is the same submission as no period at all. */
  lemma BlankPeriodIsNoPeriod(f: ScheduleInput, assetKnown: bool)
    requires BlankPeriod(f.period)
    ensures ScheduleFormErrors(f, assetKnown) == ScheduleFormErrors(f.(period := None), assetKnown)
    ensures CleanedSchedule(f) == CleanedSchedule(f.(period := None))
  {
  }

  /** What an accepted schedule form guarantees about the fields its trigger relies on. */
  predicate ScheduleAccepted(f: ScheduleInput) {
    && (f.period.Some? ==> IsChoice(f.period.value))
    && (f.trigger == TimeTrigger ==> f.period.Some? && f.nextDueDate.Some?)
    && (f.trigger == UsageTrigger ==>
          Truthy(f.usageInterval) && f.usageReadingType.Some? && Truthy(f.nextDueUsage))
  }

  /** All three missing usage fields are reported together, not just the first. */
  lemma UsageErrorsAccumulate(f: ScheduleInput)
    requires f.trigger == UsageTrigger
    requires f.usageInterval == Some(0) && f.usageReadingType.None? && f.nextDueUsage.None?
    ensures {UsageIntervalField, UsageReadingTypeField, NextDueUsageField} <= ScheduleFormErrors(f, true)
  {
  }

  /** The schedule field of MaintenanceForm after field validation. */
  datatype ScheduleChoice = NoSchedule | Chosen(schedule: Schedule) | InvalidChoice

  datatype MaintenanceField = MaintenanceAssetField | MaintenanceScheduleField | ReadingValueField

  predicate UsageLinked(s: Option<Schedule>) {
    s.Some? && s.value.trigger == UsageTrigger
  }

  /**
   * `MaintenanceForm.clean`: a usage schedule without a reading type is
   * reported on the schedule, and a usage schedule without a reading value on
   * the reading; no schedule, or any other trigger, reports nothing.
   */
  function MaintenanceCleanErrors(schedule: Option<Schedule>, readingValue: Option<int>): (errors: set<MaintenanceField>)
    ensures MaintenanceScheduleField in errors <==> UsageLinked(schedule) && schedule.value.usageReadingType.None?
    ensures ReadingValueField in errors <==> UsageLinked(schedule) && readingValue.None?
    ensures MaintenanceAssetField !in errors
  {
    if UsageLinked(schedule) then
      (if schedule.value.usageReadingType.None? then {MaintenanceScheduleField} else {})
      + (if readingValue.None? then {ReadingValueField} else {})
    else
      {}
  }

  /**
   * The whole MaintenanceForm: the asset and schedule must be valid choices,
   * `reading_value` is optional but at least 0 (a negative value is reported
   * and dropped from the cleaned data), then `clean` on the cleaned values.
   */
  function MaintenanceFormErrors(assetKnown: bool, choice: ScheduleChoice, readingValue: Option<int>): (errors: set<MaintenanceField>)
    ensures MaintenanceAssetField in errors <==> !assetKnown
    ensures ReadingValueField in errors <==>
      (readingValue.Some? && readingValue.value < 0) || (choice.Chosen? && choice.schedule.trigger == UsageTrigger && readingValue.None?)
    ensures MaintenanceScheduleField in errors <==>
      choice.InvalidChoice? || (choice.Chosen? && choice.schedule.trigger == UsageTrigger && choice.schedule.usageReadingType.None?)
    ensures errors == {} && choice.Chosen? && choice.schedule.trigger == UsageTrigger ==>
      choice.schedule.usageReadingType.Some? && readingValue.Some? && readingValue.value >= 0
  {
    var schedule := if choice.Chosen? then Some(choice.schedule) else None;
    var reading := if readingValue.Some? && readingValue.value < 0 then None else readingValue;
    (if assetKnown then {} else {MaintenanceAssetField})
    + (if choice.InvalidChoice? then {MaintenanceScheduleField} else {})
    + (if readingValue.Some? && readingValue.value < 0 then {ReadingValueField} else {})
    + MaintenanceCleanErrors(schedule, reading)
  }
}
