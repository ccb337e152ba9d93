/**
 * The schedule engine of inventaris/views.py: selecting the latest meter
 * reading, advancing a schedule after a maintenance, normalising a submitted
 * schedule, and bucketing schedules for the dashboard. Database queries are
 * modelled as sequences of rows; `today` stands for `date.today()`.
 */
module Engine {
  import opened Calendar
  import opened Models
  import opened Utils
  import opened Forms

  // ---------------------------------------------------------------------
  // Latest reading
  // ---------------------------------------------------------------------

  /** `a` comes no later than `b` in the order `-reading_at, -id`: later time first, then larger id. */
  predicate AtLeastAsLate(a: Reading, b: Reading) {
    a.at > b.at || (a.at == b.at && a.id >= b.id)
  }

  /** The filter `asset=..., reading_type=...`; a missing reading type matches no row. */
  predicate Matches(x: Reading, asset: nat, kind: Option<ReadingType>) {
    x.asset == asset && kind == Some(x.kind)
  }

  /**
   * The first row of the asset's readings of one type, latest first with ties
   * broken by the larger id: None exactly when no row matches, otherwise a
   * matching row at least as late as every matching row.
   */
  function LatestReading(readings: seq<Reading>, asset: nat, kind: Option<ReadingType>): (latest: Option<Reading>)
    ensures latest.None? <==> forall i :: 0 <= i < |readings| ==> !Matches(readings[i], asset, kind)
    ensures latest.Some? ==> latest.value in readings && Matches(latest.value, asset, kind)
    ensures latest.Some? ==>
      forall i :: 0 <= i < |readings| && Matches(readings[i], asset, kind) ==> AtLeastAsLate(latest.value, readings[i])
  {
    if readings == [] then None
    else
      var rest := LatestReading(readings[..|readings| - 1], asset, kind);
      var x := readings[|readings| - 1];
      if !Matches(x, asset, kind) then rest
      else if rest.Some? && AtLeastAsLate(rest.value, x) then rest
      else Some(x)
  }

  /**
   * A reading appended with a larger id than every row, at a time no earlier
   * than any row of its asset and type, becomes the latest of that pair.
   */
  lemma AppendedReadingIsLatest(readings: seq<Reading>, x: Reading)
    requires forall i :: 0 <= i < |readings| ==> readings[i].id < x.id
    requires forall i :: 0 <= i < |readings| && Matches(readings[i], x.asset, Some(x.kind)) ==> readings[i].at <= x.at
    ensures LatestReading(readings + [x], x.asset, Some(x.kind)) == Some(x)
  {
    assert (readings + [x])[..|readings|] == readings;
    var rest := LatestReading(readings, x.asset, Some(x.kind));
    if rest.Some? {
      assert !AtLeastAsLate(rest.value, x);
    }
  }

  // ---------------------------------------------------------------------
  // Advancing a schedule after maintenance
  // ---------------------------------------------------------------------

  /**
   * The usage value a serviced schedule starts from: the latest reading of its
   * asset and type, else the last usage value, else the next due usage (a
   * last usage value of zero counts as absent, since the source tests it for
   * truthiness).
   */
  function UsageBaseline(s: Schedule, readings: seq<Reading>): (v: Option<nat>)
    ensures LatestReading(readings, s.asset, s.usageReadingType).Some? ==>
      v == Some(LatestReading(readings, s.asset, s.usageReadingType).value.value)
    ensures LatestReading(readings, s.asset, s.usageReadingType).None? && Truthy(s.lastUsageValue) ==> v == s.lastUsageValue
    ensures LatestReading(readings, s.asset, s.usageReadingType).None? && !Truthy(s.lastUsageValue) ==> v == s.nextDueUsage
  {
    var latest := LatestReading(readings, s.asset, s.usageReadingType);
    if latest.Some? then Some(latest.value.value)
    else if Truthy(s.lastUsageValue) then s.lastUsageValue
    else s.nextDueUsage
  }

  /** The fields that say what a schedule is, as opposed to where it stands. */
  predicate SameDefinition(r: Schedule, s: Schedule) {
    && r.asset == s.asset && r.planName == s.planName && r.trigger == s.trigger
    && r.period == s.period && r.usageInterval == s.usageInterval
    && r.usageReadingType == s.usageReadingType && r.createdBy == s.createdBy
  }

  /** The date a time schedule is advanced from: the maintenance date when there is one, else the old due date. */
  function BaseDate(performedAt: Option<Instant>, due: CalendarDate): CalendarDate {
    if performedAt.Some? then performedAt.value.date else due
  }

  function TimestampOf(performedAt: Option<Instant>): Option<int> {
    if performedAt.Some? then Some(performedAt.value.ts) else None
  }

  /**
   * The row `_advance_schedule_after_maintenance` persists
   * (views.py:96-141). A time schedule records the service time, moves a
   * set due date by one period from the base date, and takes the status of
   * its due date; a usage schedule records the service time and the
   * baseline, sets the next due usage one interval past the baseline when
   * there is a nonzero interval and a baseline, and is on time. Condition and
   * event schedules are assigned in memory but never saved, so the stored
   * row is unchanged.
   */
  function Advanced(s: Schedule, performedAt: Option<Instant>, readings: seq<Reading>, today: CalendarDate): (r: Schedule)
    ensures SameDefinition(r, s)
    ensures s.trigger != TimeTrigger && s.trigger != UsageTrigger ==> r == s
    ensures s.trigger == TimeTrigger ==>
      && r.lastDoneAt == TimestampOf(performedAt)
      && r.status == StatusFor(r.nextDueDate, today)
      && r.lastUsageValue == s.lastUsageValue && r.nextDueUsage == s.nextDueUsage
      && (s.nextDueDate.Some? && PeriodSet(s.period) ==>
            r.nextDueDate == Some(AddPeriod(BaseDate(performedAt, s.nextDueDate.value), s.period.value)))
      && (!(s.nextDueDate.Some? && PeriodSet(s.period)) ==> r.nextDueDate == s.nextDueDate)
    ensures s.trigger == UsageTrigger ==>
      && r.lastDoneAt == TimestampOf(performedAt)
      && r.status == OnTime
      && r.nextDueDate == s.nextDueDate
      && r.lastUsageValue == UsageBaseline(s, readings)
      && (Truthy(s.usageInterval) && r.lastUsageValue.Some? ==>
            r.nextDueUsage == Some(r.lastUsageValue.value + s.usageInterval.value))
      && (!(Truthy(s.usageInterval) && r.lastUsageValue.Some?) ==> r.nextDueUsage == s.nextDueUsage)
  {
    var done := TimestampOf(performedAt);
    if s.trigger == TimeTrigger then
      var due :=
        if s.nextDueDate.Some? && PeriodSet(s.period)
        then Some(AddPeriod(BaseDate(performedAt, s.nextDueDate.value), s.period.value))
        else s.nextDueDate;
      s.(lastDoneAt := done, nextDueDate := due, status := StatusFor(due, today))
    else if s.trigger == UsageTrigger then
      var current := UsageBaseline(s, readings);
      var nextUsage: Option<nat> :=
        if Truthy(s.usageInterval) && current.Some? then Some(current.value + s.usageInterval.value)
        else s.nextDueUsage;
      s.(lastDoneAt := done, lastUsageValue := current, nextDueUsage := nextUsage, status := OnTime)
    else
      s
  }

  /**
   * A time schedule serviced with a recognised period ends up due strictly
   * after the service date, so on the service day itself (and any earlier
   * day) it is on time.
   */
  lemma ServicedTimeScheduleOnTime(s: Schedule, performedAt: Instant, readings: seq<Reading>, today: CalendarDate)
    requires s.trigger == TimeTrigger && s.nextDueDate.Some? && s.period.Some? && IsChoice(s.period.value)
    requires DayNumber(today) <= DayNumber(performedAt.date)
    ensures Advanced(s, Some(performedAt), readings, today).status == OnTime
    ensures DayNumber(performedAt.date) < DayNumber(Advanced(s, Some(performedAt), readings, today).nextDueDate.value)
  {
    AddPeriodAdvances(performedAt.date, s.period.value);
  }

  /**
   * The base is the maintenance date, not the later of it and the old due
   * date: serviced early on 2024-03-01, a monthly schedule due 2024-03-10
   * becomes due 2024-04-01, earlier than one month after the old due date.
   */
  lemma EarlyServicePullsDueDateForward(s: Schedule, ts: int, readings: seq<Reading>, today: CalendarDate)
    requires s.trigger == TimeTrigger && s.period == Some(Monthly) && s.nextDueDate.Some? && s.nextDueDate.value == Date(2024, 3, 10)
    ensures Advanced(s, Some(Instant(ts, Date(2024, 3, 1))), readings, today).nextDueDate.Some?
    ensures Advanced(s, Some(Instant(ts, Date(2024, 3, 1))), readings, today).nextDueDate.value == Date(2024, 4, 1)
    ensures Before(Date(2024, 4, 1), AddPeriod(Date(2024, 3, 10), Monthly))
  {
  }

  /** Without a maintenance time the old due date is the base. */
  lemma NoServiceTimeUsesOldDueDate(s: Schedule, readings: seq<Reading>, today: CalendarDate)
    requires s.trigger == TimeTrigger && s.nextDueDate.Some? && s.period.Some? && IsChoice(s.period.value)
    ensures Advanced(s, None, readings, today).nextDueDate == Some(AddPeriod(s.nextDueDate.value, s.period.value))
    ensures Before(s.nextDueDate.value, Advanced(s, None, readings, today).nextDueDate.value)
  {
  }

  /**
   * Servicing a usage schedule with a reading recorded at the service time
   * (newer than every earlier reading) sets the next due usage to that
   * reading plus the interval.
   */
  lemma ServiceReadingDrivesNextDue(s: Schedule, readings: seq<Reading>, x: Reading, performedAt: Option<Instant>, today: CalendarDate)
    requires s.trigger == UsageTrigger && Truthy(s.usageInterval)
    requires x.asset == s.asset && s.usageReadingType == Some(x.kind)
    requires forall i :: 0 <= i < |readings| ==> readings[i].id < x.id
    requires forall i :: 0 <= i < |readings| && Matches(readings[i], x.asset, Some(x.kind)) ==> readings[i].at <= x.at
    ensures Advanced(s, performedAt, readings + [x], today).lastUsageValue == Some(x.value)
    ensures Advanced(s, performedAt, readings + [x], today).nextDueUsage == Some(x.value + s.usageInterval.value)
  {
    AppendedReadingIsLatest(readings, x);
  }

  // ---------------------------------------------------------------------
  // Normalising a submitted schedule
  // ---------------------------------------------------------------------

  /** The instance `form.save(commit=False)` builds from a schedule form. */
  function ScheduleFromInput(f: ScheduleInput, lastDoneAt: Option<int>, createdBy: nat): Schedule {
    Schedule(f.asset, f.planName, f.trigger, f.period, f.nextDueDate, f.usageInterval,
             f.usageReadingType, f.lastUsageValue, f.nextDueUsage, lastDoneAt, f.status, createdBy)
  }

  /**
   * The normalisation of the schedule create and update views
   * (views.py:486-494, 509-517): fields of the other trigger kinds are
   * cleared, and the status is recomputed from the due date.
   */
  function Normalized(s: Schedule, today: CalendarDate): (r: Schedule)
    ensures r.asset == s.asset && r.planName == s.planName && r.trigger == s.trigger && r.createdBy == s.createdBy
    ensures r.lastDoneAt == s.lastDoneAt
    ensures s.trigger == TimeTrigger ==> r.period == s.period && r.nextDueDate == s.nextDueDate
    ensures s.trigger != TimeTrigger ==> r.period.None? && r.nextDueDate.None?
    ensures s.trigger == UsageTrigger ==>
      r.usageInterval == s.usageInterval && r.usageReadingType == s.usageReadingType
      && r.lastUsageValue == s.lastUsageValue && r.nextDueUsage == s.nextDueUsage
    ensures s.trigger != UsageTrigger ==>
      r.usageInterval.None? && r.usageReadingType.None? && r.lastUsageValue.None? && r.nextDueUsage.None?
    ensures r.status == StatusFor(r.nextDueDate, today)
    ensures s.trigger != TimeTrigger ==> r.status == OnTime
  {
    var t := if s.trigger != TimeTrigger then s.(period := None, nextDueDate := None) else s;
    var u :=
      if s.trigger != UsageTrigger
      then t.(usageInterval := None, usageReadingType := None, lastUsageValue := None, nextDueUsage := None)
      else t;
    u.(status := StatusFor(u.nextDueDate, today))
  }

  /** A stored schedule that carries exactly the fields its trigger uses, all of them set. */
  predicate WellFormed(s: Schedule) {
    && (s.period.Some? ==> IsChoice(s.period.value))
    && (s.trigger != TimeTrigger ==> s.period.None? && s.nextDueDate.None?)
    && (s.trigger != UsageTrigger ==>
          s.usageInterval.None? && s.usageReadingType.None? && s.lastUsageValue.None? && s.nextDueUsage.None?)
    && (s.trigger == TimeTrigger ==> s.period.Some? && s.nextDueDate.Some?)
    && (s.trigger == UsageTrigger ==>
          Truthy(s.usageInterval) && s.usageReadingType.Some? && Truthy(s.nextDueUsage) && s.status == OnTime)
  }

  /** A schedule the form accepted is well formed once normalised. */
  lemma AcceptedFormNormalizesWellFormed(f: ScheduleInput, lastDoneAt: Option<int>, createdBy: nat, today: CalendarDate)
    requires ScheduleAccepted(f)
    ensures WellFormed(Normalized(ScheduleFromInput(f, lastDoneAt, createdBy), today))
  {
  }

  /**
   * Advancing keeps a well-formed schedule well formed: the time schedule
   * keeps a due date, and the usage schedule's new due usage is a positive
   * interval past a baseline that always exists.
   */
  lemma AdvancePreservesWellFormed(s: Schedule, performedAt: Option<Instant>, readings: seq<Reading>, today: CalendarDate)
    requires WellFormed(s)
    ensures WellFormed(Advanced(s, performedAt, readings, today))
  {
    if s.trigger == UsageTrigger {
      var r := Advanced(s, performedAt, readings, today);
      assert r.lastUsageValue.Some?;
      assert Truthy(r.nextDueUsage);
    }
  }

  // ---------------------------------------------------------------------
  // Dashboard
  // ---------------------------------------------------------------------

  /** Time schedules due exactly today. */
  function TimeDueToday(schedules: seq<Schedule>, today: CalendarDate): (due: seq<Schedule>)
    ensures forall s :: s in due <==> s in schedules && s.trigger == TimeTrigger && s.nextDueDate == Some(today)
  {
    if schedules == [] then []
    else
      var rest := TimeDueToday(schedules[..|schedules| - 1], today);
      var s := schedules[|schedules| - 1];
      if s.trigger == TimeTrigger && s.nextDueDate == Some(today) then rest + [s] else rest
  }

  /** Time schedules whose due date is before today. */
  function TimeOverdue(schedules: seq<Schedule>, today: CalendarDate): (overdue: seq<Schedule>)
    ensures forall s :: s in overdue <==> s in schedules && s.trigger == TimeTrigger && s.nextDueDate.Some? && Before(s.nextDueDate.value, today)
  {
    if schedules == [] then []
    else
      var rest := TimeOverdue(schedules[..|schedules| - 1], today);
      var s := schedules[|schedules| - 1];
      if s.trigger == TimeTrigger && s.nextDueDate.Some? && Before(s.nextDueDate.value, today) then rest + [s] else rest
  }

  /** The dashboard's overdue list and the stored late status agree on every time schedule. */
  lemma OverdueMeansLate(schedules: seq<Schedule>, today: CalendarDate, s: Schedule)
    requires s in schedules && s.trigger == TimeTrigger
    ensures s in TimeOverdue(schedules, today) <==> StatusFor(s.nextDueDate, today) == Late
  {
    if s.nextDueDate.Some? {
      DayNumberOrder(s.nextDueDate.value, today);
    }
  }

  datatype UsageBucket = DueNow | Warning | Overdue

  /** A tenth of the usage interval, rounded down, but never less than one. */
  function WarningMargin(interval: nat): (m: nat)
    ensures interval < 20 ==> m == 1
    ensures interval >= 20 ==> 10 * m <= interval < 10 * (m + 1)
  {
    if interval / 10 > 1 then interval / 10 else 1
  }

  /**
   * The bucket of a usage schedule (views.py:281-292): overdue past the due
   * usage, due at it, warning within the margin before it when the interval
   * and the due usage are both nonzero, otherwise none.
   */
  function ClassifyUsage(current: nat, due: nat, interval: Option<nat>): (b: Option<UsageBucket>)
    ensures b == Some(Overdue) <==> current > due
    ensures b == Some(DueNow) <==> current == due
    ensures b == Some(Warning) ==> Truthy(interval) && 0 < due - current <= WarningMargin(interval.value)
    ensures current < due && Truthy(interval) && due - current <= WarningMargin(interval.value) ==> b == Some(Warning)
  {
    if current > due then Some(Overdue)
    else if current == due then Some(DueNow)
    else if Truthy(interval) && due != 0 && current >= due - WarningMargin(interval.value) then Some(Warning)
    else None
  }

  /** For intervals of ten or more, a warning means less than a tenth of the interval remains. */
  lemma WarningIsLastTenth(current: nat, due: nat, interval: nat)
    requires interval >= 10
    requires ClassifyUsage(current, due, Some(interval)) == Some(Warning)
    ensures 10 * (due - current) <= interval
  {
  }

  /** Interval 500 due at 5000: 4950 warns, 5000 is due, 5100 is overdue, 4000 is in no bucket. */
  lemma DashboardExample()
    ensures ClassifyUsage(4950, 5000, Some(500)) == Some(Warning)
    ensures ClassifyUsage(5000, 5000, Some(500)) == Some(DueNow)
    ensures ClassifyUsage(5100, 5000, Some(500)) == Some(Overdue)
    ensures ClassifyUsage(4000, 5000, Some(500)) == None
  {
  }

  type ReadingKey = (nat, ReadingType)

  function KeyOf(x: Reading): ReadingKey {
    (x.asset, x.kind)
  }

  /** The first row with the given key, the one the dashboard loop keeps. */
  function FirstWithKey(rows: seq<Reading>, key: ReadingKey): (first: Option<Reading>)
    ensures first.None? <==> forall i :: 0 <= i < |rows| ==> KeyOf(rows[i]) != key
    ensures first.Some? ==> first.value in rows && KeyOf(first.value) == key
  {
    if rows == [] then None
    else
      var earlier := FirstWithKey(rows[..|rows| - 1], key);
      if earlier.Some? then earlier
      else if KeyOf(rows[|rows| - 1]) == key then Some(rows[|rows| - 1])
      else None
  }

  /** The dashboard query's order: by asset, then latest first, then larger id first. */
  predicate QueryOrdered(rows: seq<Reading>) {
    forall i, j :: 0 <= i < j < |rows| ==>
      rows[i].asset < rows[j].asset || (rows[i].asset == rows[j].asset && AtLeastAsLate(rows[i], rows[j]))
  }

  /**
   * On rows in query order, keeping the first row per (asset, type) keeps
   * the latest reading of that pair, the same one the per-schedule lookup
   * after a maintenance selects.
   */
  lemma {:induction false} FirstIsLatest(rows: seq<Reading>, asset: nat, kind: ReadingType)
    requires QueryOrdered(rows)
    ensures FirstWithKey(rows, (asset, kind)) == LatestReading(rows, asset, Some(kind))
  {
    if rows != [] {
      var prefix := rows[..|rows| - 1];
      var x := rows[|rows| - 1];
      assert QueryOrdered(prefix);
      FirstIsLatest(prefix, asset, kind);
      var rest := LatestReading(prefix, asset, Some(kind));
      if Matches(x, asset, Some(kind)) && rest.Some? {
        var j :| 0 <= j < |prefix| && prefix[j] == rest.value;
        assert rows[j] == rest.value;
        assert AtLeastAsLate(rest.value, x);
      }
    }
  }

  /**
   * The loop that fills `latest_by_asset_type` (views.py:266-270): each key
   * maps to the first row with that key, and keys without a row are absent.
   */
  method LatestByAssetType(rows: seq<Reading>) returns (latest: map<ReadingKey, Reading>)
    ensures forall k :: FirstWithKey(rows, k) == (if k in latest then Some(latest[k]) else None)
  {
    latest := map[];
    var i := 0;
    while i < |rows|
      invariant 0 <= i <= |rows|
      invariant forall k :: FirstWithKey(rows[..i], k) == (if k in latest then Some(latest[k]) else None)
    {
      var key := KeyOf(rows[i]);
      if key !in latest {
        latest := latest[key := rows[i]];
      }
      assert rows[..i + 1][..i] == rows[..i];
      i := i + 1;
    }
    assert rows[..|rows|] == rows;
  }

  /** One dashboard entry: the schedule, its current usage and its due usage. */
  datatype UsageItem = UsageItem(schedule: Schedule, current: nat, due: nat)

  /** The usage schedules the dashboard considers: usage trigger with a due usage and a reading type. */
  predicate UsageEligible(s: Schedule) {
    s.trigger == UsageTrigger && s.nextDueUsage.Some? && s.usageReadingType.Some?
  }

  /** The current usage of an eligible schedule: its (asset, type) reading, else `last_usage_value`. */
  function CurrentUsage(s: Schedule, rows: seq<Reading>): Option<nat>
    requires UsageEligible(s)
  {
    var first := FirstWithKey(rows, (s.asset, s.usageReadingType.value));
    if first.Some? then Some(first.value.value) else s.lastUsageValue
  }

  /** The bucket an eligible schedule falls into, None when it is skipped or in no bucket. */
  function BucketOf(s: Schedule, rows: seq<Reading>): Option<UsageBucket>
    requires UsageEligible(s)
  {
    var current := CurrentUsage(s, rows);
    if current.None? then None else ClassifyUsage(current.value, s.nextDueUsage.value, s.usageInterval)
  }

  function ItemOf(s: Schedule, rows: seq<Reading>): UsageItem
    requires UsageEligible(s) && CurrentUsage(s, rows).Some?
  {
    UsageItem(s, CurrentUsage(s, rows).value, s.nextDueUsage.value)
  }

  /**
   * The dashboard list of bucket `b`, in schedule order: every entry is an
   * eligible schedule classified `b`, and every such schedule has its entry.
   */
  function ItemsIn(schedules: seq<Schedule>, rows: seq<Reading>, b: UsageBucket): (items: seq<UsageItem>)
    ensures forall it :: it in items ==>
      it.schedule in schedules && UsageEligible(it.schedule) && BucketOf(it.schedule, rows) == Some(b)
      && it == ItemOf(it.schedule, rows)
    ensures forall s :: s in schedules && UsageEligible(s) && BucketOf(s, rows) == Some(b) ==> ItemOf(s, rows) in items
  {
    if schedules == [] then []
    else
      var rest := ItemsIn(schedules[..|schedules| - 1], rows, b);
      var s := schedules[|schedules| - 1];
      if UsageEligible(s) && BucketOf(s, rows) == Some(b) then rest + [ItemOf(s, rows)] else rest
  }

  /**
   * The usage half of `DashboardView.get_context_data` (views.py:261-294):
   * one pass over the readings builds the latest-per-key table, then one
   * pass over the schedules appends each to at most one list. The three
   * lists are disjoint.
   */
  method UsageDashboard(rows: seq<Reading>, schedules: seq<Schedule>)
    returns (due: seq<UsageItem>, warning: seq<UsageItem>, overdue: seq<UsageItem>)
    ensures due == ItemsIn(schedules, rows, DueNow)
    ensures warning == ItemsIn(schedules, rows, Warning)
    ensures overdue == ItemsIn(schedules, rows, Overdue)
    ensures forall it :: it in due ==> it !in warning && it !in overdue
    ensures forall it :: it in warning ==> it !in overdue
  {
    var latest := LatestByAssetType(rows);
    due, warning, overdue := [], [], [];
    var i := 0;
    while i < |schedules|
      invariant 0 <= i <= |schedules|
      invariant due == ItemsIn(schedules[..i], rows, DueNow)
      invariant warning == ItemsIn(schedules[..i], rows, Warning)
      invariant overdue == ItemsIn(schedules[..i], rows, Overdue)
    {
      var s := schedules[i];
      assert schedules[..i + 1][..i] == schedules[..i];
      if UsageEligible(s) {
        var key := (s.asset, s.usageReadingType.value);
        var current := if key in latest then Some(latest[key].value) else s.lastUsageValue;
        assert current == CurrentUsage(s, rows);
        if current.Some? {
          var item := UsageItem(s, current.value, s.nextDueUsage.value);
          var bucket := ClassifyUsage(current.value, s.nextDueUsage.value, s.usageInterval);
          if bucket == Some(Overdue) {
            overdue := overdue + [item];
          } else if bucket == Some(DueNow) {
            due := due + [item];
          } else if bucket == Some(Warning) {
            warning := warning + [item];
          }
        }
      }
      i := i + 1;
    }
    assert schedules[..|schedules|] == schedules;
  }
}
