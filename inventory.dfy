/**
 * The database of the inventory app and the operations that change it:
 * `AssetCodeCounter.next_code`, `Location.save`, `Asset.save` together with
 * its pre_save/post_save audit receivers, the responsible-user m2m receiver,
 * and the `form_valid` bodies of the asset, schedule, maintenance and loan
 * views. Each table is a field of `Store`; each operation is a method that
 * states the new contents of the tables it writes and leaves the others
 * alone. The current user of a request is an explicit parameter.
 */
module Inventory {
  import opened Calendar
  import opened Codes
  import opened Models
  import opened Utils
  import opened Forms
  import opened Signals
  import opened Engine

  datatype Failure =
    | NotFound             // a referenced row does not exist (404 or an invalid choice)
    | UnknownLocation      // a location field (AssetForm's location, LocationForm's parent) is not one of its choices
    | MissingAcquiredDate  // the ValueError of Asset.save
    | IntegrityError       // a database constraint rejects the write
    | InvalidMove(moveErrors: set<MoveField>)
    | MissingReason        // AssetDeleteForm requires a reason
    | InvalidSchedule(scheduleErrors: set<ScheduleField>)
    | InvalidMaintenance(maintenanceErrors: set<MaintenanceField>)

  datatype Result<T> = Ok(value: T) | Err(failure: Failure)

  /** The fields of AssetMoveForm that can be in error. */
  datatype MoveField = ToLocationField | MovedAtField | NoteField

  /** The fields AssetForm edits (the code is not one of them). */
  datatype AssetInput = AssetInput(
    name: string,
    category: nat,
    acquiredDate: CalendarDate,
    status: AssetStatus,
    condition: Condition,
    location: nat)

  /** The fields MaintenanceForm saves. */
  datatype MaintenanceInput = MaintenanceInput(
    asset: nat,
    kind: MaintenanceKind,
    schedule: Option<nat>,
    conditionBefore: Condition,
    conditionAfter: Condition,
    performedAt: Instant,
    note: string)

  /** The fields LoanForm saves. */
  datatype LoanInput = LoanInput(
    asset: nat,
    borrower: nat,
    borrowedAt: int,
    plannedReturn: CalendarDate,
    returnedAt: Option<int>,
    note: string)

  // ---------------------------------------------------------------------
  // Locations
  // ---------------------------------------------------------------------

  function ParentRow(locations: map<nat, Location>, parent: Option<nat>): Option<Location> {
    if parent.Some? && parent.value in locations then Some(locations[parent.value]) else None
  }

  /** The fields LocationForm edits; path and level are derived on save. */
  datatype LocationFields = LocationFields(name: string, parent: Option<nat>, isActive: bool)

  /** The node `Location.save` stores under id `id`: path and level from its stored parent (models.py:50-52). */
  function SavedNode(locations: map<nat, Location>, id: nat, f: LocationFields): Location {
    var parent := ParentRow(locations, f.parent);
    Location(f.name, f.parent, PathFor(parent, id), LevelFor(parent), f.isActive)
  }

  /**
   * The location table after `Location.save` (models.py:48-57): the node gets
   * the path and level derived from its stored parent; no other row, in
   * particular no descendant, changes.
   */
  function SavedTable(locations: map<nat, Location>, id: nat, f: LocationFields): (t: map<nat, Location>)
    requires f.parent.Some? ==> f.parent.value in locations
    ensures t.Keys == locations.Keys + {id}
    ensures forall other :: other in locations && other != id ==> t[other] == locations[other]
    ensures t[id].name == f.name && t[id].parent == f.parent && t[id].isActive == f.isActive
    ensures f.parent.None? ==> t[id].path == Digits(id) && t[id].level == 0
    ensures f.parent.Some? ==>
      t[id].path == locations[f.parent.value].path + "/" + Digits(id)
      && t[id].level == locations[f.parent.value].level + 1
  {
    locations[id := SavedNode(locations, id, f)]
  }

  function FieldsOf(node: Location): LocationFields {
    LocationFields(node.name, node.parent, node.isActive)
  }

  /** Saving a node again, unchanged and not its own parent, changes nothing. */
  lemma ResaveIsIdempotent(locations: map<nat, Location>, id: nat, f: LocationFields)
    requires f.parent.Some? ==> f.parent.value in locations && f.parent.value != id
    ensures var t := SavedTable(locations, id, f); SavedTable(t, id, FieldsOf(t[id])) == t
  {
    var t := SavedTable(locations, id, f);
    assert ParentRow(t, f.parent) == ParentRow(locations, f.parent);
  }

  /**
   * Re-parenting is not propagated: with 1 and 2 roots, 3 under 1 and 4
   * under 3, moving 3 under 2 gives 3 the path "2/3" while 4 keeps "1/3/4",
   * which no longer starts with its parent's path.
   */
  lemma ReparentLeavesChildStale()
    ensures var t0 := map[1 := Location("A", None, "1", 0, true), 2 := Location("B", None, "2", 0, true),
                          3 := Location("C", Some(1), "1/3", 1, true), 4 := Location("D", Some(3), "1/3/4", 2, true)];
      var t1 := SavedTable(t0, 3, LocationFields("C", Some(2), true));
      t1[3].path == "2/3" && t1[4] == t0[4] && !(t1[3].path + "/" <= t1[4].path)
  {
    var t0 := map[1 := Location("A", None, "1", 0, true), 2 := Location("B", None, "2", 0, true),
                  3 := Location("C", Some(1), "1/3", 1, true), 4 := Location("D", Some(3), "1/3/4", 2, true)];
    var t1 := SavedTable(t0, 3, LocationFields("C", Some(2), true));
    assert Digits(3) == "3";
    assert t1[3].path == "2" + "/" + "3";
    assert t1[3].path + "/" == "2/3/";
    assert t1[4].path[0] == '1';
  }

  // ---------------------------------------------------------------------
  // Assets
  // ---------------------------------------------------------------------

  function PeriodOf(d: CalendarDate): CounterKey {
    CounterKey(d.year, d.month)
  }

  /** The counters after `next_code(d)`: that period's counter, created at 0 if absent, plus one. */
  function Incremented(counters: map<CounterKey, nat>, d: CalendarDate): map<CounterKey, nat> {
    counters[PeriodOf(d) := CounterOf(counters, PeriodOf(d)) + 1]
  }

  /** Two successive `next_code` calls never return the same code, whatever their dates. */
  lemma SuccessiveCodesDiffer(counters: map<CounterKey, nat>, d1: CalendarDate, d2: CalendarDate)
    ensures var c1 := Incremented(counters, d1);
      var c2 := Incremented(c1, d2);
      FormatCode(d1.year, d1.month, CounterOf(c1, PeriodOf(d1)))
        != FormatCode(d2.year, d2.month, CounterOf(c2, PeriodOf(d2)))
  {
    var c1 := Incremented(counters, d1);
    var c2 := Incremented(c1, d2);
    if FormatCode(d1.year, d1.month, CounterOf(c1, PeriodOf(d1))) == FormatCode(d2.year, d2.month, CounterOf(c2, PeriodOf(d2))) {
      FormatCodeInjective(d1.year, d1.month, CounterOf(c1, PeriodOf(d1)), d2.year, d2.month, CounterOf(c2, PeriodOf(d2)));
      assert false;
    }
  }

  /** `Asset.save` generates a code exactly when the instance has none and has an acquisition date. */
  predicate GeneratesCode(a: Asset) {
    |a.code| == 0 && a.acquiredDate.Some?
  }

  /** The code the saved row carries, given the counters after the save. */
  function CodeFor(a: Asset, counters: map<CounterKey, nat>): (code: string)
    ensures |a.code| > 0 ==> code == a.code
    ensures GeneratesCode(a) ==> |code| > 0
  {
    if |a.code| > 0 then a.code
    else if a.acquiredDate.None? then ""
    else
      var d := a.acquiredDate.value;
      FormatCode(d.year, d.month, CounterOf(counters, PeriodOf(d)))
  }

  function UsersOf(table: map<nat, set<nat>>, asset: nat): set<nat> {
    if asset in table then table[asset] else {}
  }

  /**
   * The audit entries Django's `set()` on the responsible users produces
   * (signals.py:63-80): removing the dropped users, then adding the new
   * ones, each step only when it has users, and each logged with its own
   * before and after lists.
   */
  function ResponsibleEntries(assetId: nat, before: set<nat>, after: set<nat>, actor: Option<nat>): (entries: seq<AuditEntry>)
    ensures before == after ==> entries == []
    ensures actor.None? ==> entries == []
    ensures actor.Some? ==> |entries| == (if before - after != {} then 1 else 0) + (if after - before != {} then 1 else 0)
    ensures forall e :: e in entries ==>
      e.entity == "asset" && e.entityId == assetId && e.action == "update" && e.changes.Keys == {ResponsibleKey}
    ensures actor.Some? && before - after != {} ==>
      entries[0].changes[ResponsibleKey] == Change(UserIds(before), UserIds(before * after))
    ensures actor.Some? && after - before != {} ==>
      entries[|entries| - 1].changes[ResponsibleKey] == Change(UserIds(before * after), UserIds(after))
  {
    var kept := before * after;
    (if before - after != {} then LogAssetChange(assetId, ResponsibleChanges(before, kept), actor) else [])
    + (if after - before != {} then LogAssetChange(assetId, ResponsibleChanges(kept, after), actor) else [])
  }

  /** The history AssetUpdateView would record for a location change from `previous` to `next`. */
  function HistoryFor(assetId: nat, previous: nat, next: nat, user: nat, at: int): (entries: seq<HistoryEntry>)
    ensures |entries| <= 1
    ensures entries != [] <==> previous != next
    ensures entries != [] ==> entries[0] == HistoryEntry(assetId, Some(previous), next, user, "", at)
  {
    if previous != next then [HistoryEntry(assetId, Some(previous), next, user, "", at)] else []
  }

  /** What AssetForm's validation writes into the instance it edits. */
  function Bound(stored: Asset, input: AssetInput): Asset {
    stored.(name := input.name, category := input.category, acquiredDate := Some(input.acquiredDate),
            status := input.status, condition := input.condition, location := input.location)
  }

  /**
   * AssetUpdateView as written (views.py:332-346): `previous_location` is read
   * from `self.object` after form validation has already copied the new
   * location into that same instance, so both sides of the comparison are
   * the new location.
   */
  function UpdateHistoryAsWritten(assetId: nat, stored: Asset, input: AssetInput, user: nat, at: int): (entries: seq<HistoryEntry>)
    ensures entries == []
  {
    var instance := Bound(stored, input);
    HistoryFor(assetId, instance.location, instance.location, user, at)
  }

  /** As written, a real location change through the edit form leaves no history, where the intended code records one entry. */
  lemma UpdateViewLosesHistory(assetId: nat, stored: Asset, input: AssetInput, user: nat, at: int)
    requires stored.location != input.location
    ensures UpdateHistoryAsWritten(assetId, stored, input, user, at) == []
    ensures HistoryFor(assetId, stored.location, input.location, user, at)
      == [HistoryEntry(assetId, Some(stored.location), input.location, user, "", at)]
  {
  }

  /** The row `Asset.save` writes exists, or is a new one. */
  predicate KnownTarget(id: Option<nat>, assets: map<nat, Asset>) {
    id.None? || id.value in assets
  }

  /** Whether an asset other than `id` already carries `code`. */
  predicate CodeTaken(assets: map<nat, Asset>, id: Option<nat>, code: string) {
    exists b :: b in assets && Some(b) != id && assets[b].code == code
  }

  /** AssetMoveForm's choices: an active location other than the current one. */
  predicate MoveTargetAllowed(locations: map<nat, Location>, current: nat, to: nat) {
    to in locations && locations[to].isActive && to != current
  }

  /** Whether a loan other than `except` is open (not returned) for the asset. */
  predicate HasOpenLoan(loans: map<nat, Loan>, asset: nat, except: Option<nat>) {
    exists id :: id in loans && Some(id) != except && loans[id].asset == asset && loans[id].returnedAt.None?
  }

  /** Every asset has a code, and no two assets share one (`code` is unique); ids lie below `next`. */
  ghost predicate AssetTable(assets: map<nat, Asset>, next: nat) {
    && 0 < next
    && (forall id :: id in assets ==> 0 < id < next && |assets[id].code| > 0)
    && (forall a, b :: a in assets && b in assets && a != b ==> assets[a].code != assets[b].code)
  }

  /** Writing a row whose code is set and not taken by another row keeps the table valid. */
  lemma WriteKeepsAssetTable(assets: map<nat, Asset>, next: nat, id: Option<nat>, target: nat, saved: Asset)
    requires AssetTable(assets, next)
    requires |saved.code| > 0 && !CodeTaken(assets, id, saved.code)
    requires if id.Some? then target == id.value && target in assets else target == next
    ensures AssetTable(assets[target := saved], if id.Some? then next else next + 1)
  {
  }

  /** A stored asset's own code is not taken by any other asset. */
  lemma OwnCodeNotTaken(assets: map<nat, Asset>, next: nat, id: nat)
    requires AssetTable(assets, next) && id in assets
    ensures !CodeTaken(assets, Some(id), assets[id].code)
  {
  }

  /** The asset row AssetCreateView saves: no code yet, the user as creator and last editor. */
  function NewAsset(input: AssetInput, user: nat): Asset {
    Asset([], input.name, input.category, Some(input.acquiredDate), input.status, input.condition,
          input.location, Some(user), Some(user), None)
  }

  /** The asset row AssetUpdateView saves: the form's fields, the user as last editor. */
  function Edited(stored: Asset, input: AssetInput, user: nat): Asset {
    Bound(stored, input).(updatedBy := Some(user))
  }

  /**
   * AssetMoveForm's validation: the target must be one of its choices, the
   * move time is required (the model field has a default but no
   * `blank=True`), and the note, made required by the form, must be given.
   */
  function MoveErrors(locations: map<nat, Location>, current: nat, to: nat, movedAt: Option<int>, note: string): (errors: set<MoveField>)
    ensures ToLocationField in errors <==> !MoveTargetAllowed(locations, current, to)
    ensures MovedAtField in errors <==> movedAt.None?
    ensures NoteField in errors <==> |note| == 0
  {
    (if MoveTargetAllowed(locations, current, to) then {} else {ToLocationField})
    + (if movedAt.None? then {MovedAtField} else {})
    + (if |note| == 0 then {NoteField} else {})
  }

  /** The row AssetMoveView saves. */
  function Moved(stored: Asset, to: nat, user: nat): Asset {
    stored.(location := to, updatedBy := Some(user))
  }

  /**
   * A move is audited as exactly one entry, by the mover, whose only change
   * is the location.
   */
  lemma MoveIsAudited(id: nat, stored: Asset, to: nat, user: nat)
    requires stored.location != 0 && stored.location != to
    ensures LogAssetChange(id, AssetChanges(Some(SnapshotOf(stored)), SnapshotOf(Moved(stored, to, user))), Some(user))
      == [AuditEntry("asset", id, "update", map[LocationKey := Change(LocationValue(stored.location), LocationValue(to))], user)]
  {
    var changes := AssetChanges(Some(SnapshotOf(stored)), SnapshotOf(Moved(stored, to, user)));
    assert changes.Keys == {LocationKey};
    assert changes == map[LocationKey := Change(LocationValue(stored.location), LocationValue(to))];
  }

  /** The row AssetDeleteView saves: removed, stamped, and edited by the user. */
  function Removal(stored: Asset, user: nat, now: int): Asset {
    stored.(status := Removed, deletedAt := Some(now), updatedBy := Some(user))
  }

  /** Whether an AssetDeletion row exists for the asset. */
  predicate HasDeletion(deletions: seq<Deletion>, asset: nat) {
    exists i :: 0 <= i < |deletions| && deletions[i].asset == asset
  }

  /** The loan row LoanForm saves. */
  function LoanOf(input: LoanInput, createdBy: nat): Loan {
    Loan(input.asset, input.borrower, input.borrowedAt, input.plannedReturn, input.returnedAt, input.note, createdBy)
  }

  /**
   * The asset status after LoanCreateView: on loan while the loan is open,
   * active when it was entered as already returned.
   */
  function StatusAfterLoan(returnedAt: Option<int>): AssetStatus {
    if returnedAt.None? then OnLoan else Active
  }

  /** The asset status after LoanUpdateView: active once returned, else as stored. */
  function StatusAfterLoanUpdate(stored: AssetStatus, returnedAt: Option<int>): AssetStatus {
    if returnedAt.Some? then Active else stored
  }

  /**
   * The schedule MaintenanceForm resolves: none, a stored schedule of an
   * asset that is not deleted (the field's queryset), or an invalid choice.
   */
  function ScheduleChoiceOf(schedules: map<nat, Schedule>, assets: map<nat, Asset>, schedule: Option<nat>): (c: ScheduleChoice)
    ensures c.Chosen? ==> schedule.Some? && schedule.value in schedules && c.schedule == schedules[schedule.value]
    ensures c.Chosen? <==>
      schedule.Some? && schedule.value in schedules && schedules[schedule.value].asset in assets
      && assets[schedules[schedule.value].asset].deletedAt.None?
    ensures c.NoSchedule? <==> schedule.None?
  {
    if schedule.None? then NoSchedule
    else if schedule.value in schedules && schedules[schedule.value].asset in assets
            && assets[schedules[schedule.value].asset].deletedAt.None?
    then Chosen(schedules[schedule.value])
    else InvalidChoice
  }

  /** The maintenance row MaintenanceCreateView saves. */
  function MaintenanceOf(input: MaintenanceInput, user: nat): Maintenance {
    Maintenance(input.asset, input.kind, input.schedule, input.conditionBefore, input.conditionAfter,
                input.performedAt, input.note, user)
  }

  /** The row MaintenanceCreateView saves for the serviced asset. */
  function Serviced(stored: Asset, after: Condition, user: nat): Asset {
    stored.(condition := after, updatedBy := Some(user))
  }

  /** The cleaned `reading_value`: the form's `min_value=0` rejects negative values. */
  function Cleaned(readingValue: Option<int>): Option<nat> {
    if readingValue.Some? && readingValue.value >= 0 then Some(readingValue.value as nat) else None
  }

  /**
   * The meter reading MaintenanceCreateView records (views.py:562-572): for
   * a usage schedule and a given value, one reading of the maintained asset,
   * of the schedule's type, at the service time; otherwise none.
   */
  function ServiceReading(choice: ScheduleChoice, input: MaintenanceInput, value: Option<nat>, id: nat, user: nat): (rs: seq<Reading>)
    requires choice.Chosen? && choice.schedule.trigger == UsageTrigger ==> choice.schedule.usageReadingType.Some?
    ensures |rs| <= 1
    ensures rs != [] <==> choice.Chosen? && choice.schedule.trigger == UsageTrigger && value.Some?
    ensures rs != [] ==>
      && rs[0].asset == input.asset && rs[0].kind == choice.schedule.usageReadingType.value
      && rs[0].value == value.value && rs[0].at == input.performedAt.ts && rs[0].recordedBy == user
  {
    if choice.Chosen? && choice.schedule.trigger == UsageTrigger && value.Some?
    then [Reading(id, input.asset, choice.schedule.usageReadingType.value, value.value, input.performedAt.ts, input.note, user)]
    else []
  }

  /** The schedule table after `_advance_schedule_after_maintenance`: the chosen row advanced, if any. */
  function AfterService(schedules: map<nat, Schedule>, schedule: Option<nat>, performedAt: Instant,
                        readings: seq<Reading>, today: CalendarDate): map<nat, Schedule>
  {
    if schedule.Some? && schedule.value in schedules
    then schedules[schedule.value := Advanced(schedules[schedule.value], Some(performedAt), readings, today)]
    else schedules
  }

  /**
   * Servicing without a schedule, with an unknown one, or with a condition or
   * event schedule leaves every schedule row as it was.
   */
  lemma UntrackedServiceKeepsSchedules(schedules: map<nat, Schedule>, schedule: Option<nat>, performedAt: Instant,
                                       readings: seq<Reading>, today: CalendarDate)
    requires schedule.Some? && schedule.value in schedules ==>
      schedules[schedule.value].trigger == ConditionTrigger || schedules[schedule.value].trigger == EventTrigger
    ensures AfterService(schedules, schedule, performedAt, readings, today) == schedules
  {
    if schedule.Some? && schedule.value in schedules {
      var s := schedules[schedule.value];
      assert Advanced(s, Some(performedAt), readings, today) == s;
      assert schedules[schedule.value := s] == schedules;
    }
  }

  class Store {
    var counters: map<CounterKey, nat>
    var locations: map<nat, Location>
    var nextLocationId: nat
    var assets: map<nat, Asset>
    var nextAssetId: nat
    var responsible: map<nat, set<nat>>
    /** `_responsible_before`, stashed per asset by the pre_* m2m actions. */
    var responsibleBefore: map<nat, set<nat>>
    var history: seq<HistoryEntry>
    var deletions: seq<Deletion>
    var readings: seq<Reading>
    var schedules: map<nat, Schedule>
    var nextScheduleId: nat
    var maintenances: seq<Maintenance>
    var loans: map<nat, Loan>
    var nextLoanId: nat
    var auditLog: seq<AuditEntry>

    /** Location ids are allocated below the next id, and every stored node is shaped. */
    ghost predicate LocationsValid()
      reads this`locations, this`nextLocationId
    {
      && 0 < nextLocationId
      && (forall id :: id in locations ==> 0 < id < nextLocationId && Shaped(id, locations[id]))
    }

    ghost predicate AssetsValid()
      reads this`assets, this`nextAssetId
    {
      AssetTable(assets, nextAssetId)
    }

    /** The `current_location` foreign key: every asset sits at a stored location. */
    ghost predicate AssetLocationsValid()
      reads this`assets, this`locations
    {
      forall id :: id in assets ==> assets[id].location in locations
    }

    ghost predicate ResponsibleValid()
      reads this`responsible, this`responsibleBefore, this`assets
    {
      && (forall id :: id in responsible ==> id in assets)
      && (forall id :: id in responsibleBefore ==> id in assets)
    }

    /** The one-to-one AssetDeletion: at most one deletion record per asset. */
    ghost predicate DeletionsValid()
      reads this`deletions
    {
      forall i, j :: 0 <= i < j < |deletions| ==> deletions[i].asset != deletions[j].asset
    }

    /** Reading ids follow insertion order. */
    ghost predicate ReadingsValid()
      reads this`readings
    {
      forall i :: 0 <= i < |readings| ==> readings[i].id == i + 1
    }

    ghost predicate SchedulesValid()
      reads this`schedules, this`nextScheduleId
    {
      && 0 < nextScheduleId
      && (forall id :: id in schedules ==> 0 < id < nextScheduleId && WellFormed(schedules[id]))
    }

    /** `uniq_active_loan_per_asset`: at most one loan per asset is not returned. */
    ghost predicate LoansValid()
      reads this`loans, this`nextLoanId
    {
      && 0 < nextLoanId
      && (forall id :: id in loans ==> 0 < id < nextLoanId)
      && (forall a, b :: a in loans && b in loans && a != b && loans[a].asset == loans[b].asset ==>
            loans[a].returnedAt.Some? || loans[b].returnedAt.Some?)
    }

    /**
     * The whole invariant. Every operation below states which of its parts
     * it keeps: those that read a field the operation modifies. The other
     * parts hold on because their fields are not touched.
     */
    ghost predicate Valid()
      reads this
    {
      LocationsValid() && AssetsValid() && AssetLocationsValid() && ResponsibleValid() && DeletionsValid()
      && ReadingsValid() && SchedulesValid() && LoansValid()
    }

    constructor()
      ensures Valid()
      ensures counters == map[] && locations == map[] && assets == map[] && responsible == map[]
      ensures history == [] && deletions == [] && readings == [] && schedules == map[]
      ensures maintenances == [] && loans == map[] && auditLog == []
    {
      counters := map[];
      locations := map[];
      nextLocationId := 1;
      assets := map[];
      nextAssetId := 1;
      responsible := map[];
      responsibleBefore := map[];
      history := [];
      deletions := [];
      readings := [];
      schedules := map[];
      nextScheduleId := 1;
      maintenances := [];
      loans := map[];
      nextLoanId := 1;
      auditLog := [];
    }

    /**
     * `AssetCodeCounter.next_code` (models.py:74-85): the period's counter is
     * created at 0 if absent and incremented by one, other periods keep
     * theirs, and the code is built from the new value. The serial handed out
     * was never handed out before.
     */
    method NextCode(d: CalendarDate) returns (code: string)
      modifies this`counters
      ensures counters == Incremented(old(counters), d)
      ensures code == FormatCode(d.year, d.month, CounterOf(counters, PeriodOf(d)))
      ensures CodeKey(d.year, d.month, CounterOf(counters, PeriodOf(d))) !in Issued(old(counters))
      ensures Issued(counters) == Issued(old(counters)) + {CodeKey(d.year, d.month, CounterOf(counters, PeriodOf(d)))}
    {
      IssuedAfterIncrement(counters, PeriodOf(d));
      var serial := CounterOf(counters, PeriodOf(d)) + 1;
      counters := counters[PeriodOf(d) := serial];
      code := FormatCode(d.year, d.month, serial);
    }

    /** The write of `Location.save`: the node with its derived path and level replaces row `id`. */
    method StoreSavedNode(id: nat, f: LocationFields)
      requires LocationsValid() && AssetLocationsValid() && 0 < id < nextLocationId
      requires f.parent.Some? ==> f.parent.value in locations
      modifies this`locations
      ensures LocationsValid() && AssetLocationsValid()
      ensures locations == SavedTable(old(locations), id, f)
    {
      var parentRow := ParentRow(locations, f.parent);
      assert parentRow.Some? ==> SlashCount(parentRow.value.path) == parentRow.value.level;
      RecomputedIsShaped(parentRow, id, SavedNode(locations, id, f));
      locations := locations[id := SavedNode(locations, id, f)];
    }

    /**
     * LocationCreateView: LocationForm's parent must be a stored location;
     * then the insert, and `Location.save` derives path and level.
     */
    method CreateLocation(name: string, parent: Option<nat>, isActive: bool) returns (r: Result<nat>)
      requires LocationsValid() && AssetLocationsValid()
      modifies this`locations, this`nextLocationId
      ensures LocationsValid() && AssetLocationsValid()
      ensures r.Err? <==> parent.Some? && parent.value !in old(locations)
      ensures r.Err? ==> r.failure == UnknownLocation && locations == old(locations) && nextLocationId == old(nextLocationId)
      ensures r.Ok? ==>
        r.value !in old(locations)
        && locations == SavedTable(old(locations), r.value, LocationFields(name, parent, isActive))
    {
      if parent.Some? && parent.value !in locations {
        return Err(UnknownLocation);
      }
      var id := nextLocationId;
      nextLocationId := nextLocationId + 1;
      StoreSavedNode(id, LocationFields(name, parent, isActive));
      r := Ok(id);
    }

    /**
     * LocationUpdateView: the parent must be a stored location; the edited
     * node is saved; its descendants are not touched.
     */
    method UpdateLocation(id: nat, name: string, parent: Option<nat>, isActive: bool) returns (r: Result<nat>)
      requires LocationsValid() && AssetLocationsValid()
      modifies this`locations
      ensures LocationsValid() && AssetLocationsValid()
      ensures r == Err(NotFound) <==> id !in old(locations)
      ensures r == Err(UnknownLocation) <==> id in old(locations) && parent.Some? && parent.value !in old(locations)
      ensures r.Err? ==> r.failure in {NotFound, UnknownLocation}
      ensures r.Err? ==> locations == old(locations)
      ensures r.Ok? ==>
        r.value == id
        && locations == SavedTable(old(locations), id, LocationFields(name, parent, isActive))
    {
      if id !in locations {
        return Err(NotFound);
      }
      if parent.Some? && parent.value !in locations {
        return Err(UnknownLocation);
      }
      StoreSavedNode(id, LocationFields(name, parent, isActive));
      r := Ok(id);
    }

    /**
     * `Asset.save` with the pre_save snapshot and post_save audit receivers
     * (models.py:147-152, signals.py:26-60). An empty code is generated from
     * the acquisition date (a ValueError without one) before the row is
     * written; the unique code and the location foreign key are checked on
     * write. A creation is never audited; an update appends the diff against
     * the row as it was stored before the write, if any.
     */
    method SaveAsset(id: Option<nat>, a: Asset, current: CurrentUser) returns (r: Result<nat>)
      requires AssetsValid() && AssetLocationsValid() && ResponsibleValid()
      modifies this`counters, this`assets, this`nextAssetId, this`auditLog
      ensures AssetsValid() && AssetLocationsValid() && ResponsibleValid()
      ensures r == Err(NotFound) <==> !KnownTarget(id, old(assets))
      ensures r == Err(MissingAcquiredDate) <==> KnownTarget(id, old(assets)) && |a.code| == 0 && a.acquiredDate.None?
      ensures KnownTarget(id, old(assets)) && GeneratesCode(a) ==>
        counters == Incremented(old(counters), a.acquiredDate.value)
      ensures !(KnownTarget(id, old(assets)) && GeneratesCode(a)) ==> counters == old(counters)
      ensures r == Err(IntegrityError) <==>
        KnownTarget(id, old(assets)) && !(|a.code| == 0 && a.acquiredDate.None?)
        && (a.location !in locations || CodeTaken(old(assets), id, CodeFor(a, counters)))
      ensures r.Err? ==> r.failure in {NotFound, MissingAcquiredDate, IntegrityError}
      ensures r.Err? ==> assets == old(assets) && auditLog == old(auditLog)
      ensures r.Ok? ==> assets == old(assets)[r.value := a.(code := CodeFor(a, counters))]
      ensures r.Ok? && id.None? ==> r.value !in old(assets) && auditLog == old(auditLog)
      ensures r.Ok? && id.Some? ==>
        r.value == id.value
        && auditLog == old(auditLog) + LogAssetChange(id.value,
             AssetChanges(Some(SnapshotOf(old(assets)[id.value])), SnapshotOf(a)),
             ResolveActor(current, a.updatedBy, a.createdBy))
    {
      if id.Some? && id.value !in assets {
        return Err(NotFound);
      }
      var code := AssignCode(a);
      if code.None? {
        return Err(MissingAcquiredDate);
      }
      if a.location !in locations || CodeTaken(assets, id, code.value) {
        return Err(IntegrityError);
      }
      var target := WriteAsset(id, a.(code := code.value), current);
      r := Ok(target);
    }

    /**
     * The first step of `Asset.save` (models.py:148-151): a set code is kept;
     * an empty one is drawn from the acquisition date's counter, and without
     * a date there is none (the ValueError).
     */
    method AssignCode(a: Asset) returns (code: Option<string>)
      modifies this`counters
      ensures code.None? <==> |a.code| == 0 && a.acquiredDate.None?
      ensures code.Some? ==> code.value == CodeFor(a, counters) && |code.value| > 0
      ensures GeneratesCode(a) ==> counters == Incremented(old(counters), a.acquiredDate.value)
      ensures !GeneratesCode(a) ==> counters == old(counters)
    {
      if |a.code| > 0 {
        return Some(a.code);
      }
      if a.acquiredDate.None? {
        return None;
      }
      var generated := NextCode(a.acquiredDate.value);
      code := Some(generated);
    }

    /**
     * The write itself, once the code is known and the constraints hold:
     * pre_save snapshots the stored row, the row is written (an insert takes
     * the next id), and post_save audits updates only.
     */
    method WriteAsset(id: Option<nat>, saved: Asset, current: CurrentUser) returns (target: nat)
      requires AssetsValid() && AssetLocationsValid() && ResponsibleValid() && KnownTarget(id, assets)
      requires |saved.code| > 0 && saved.location in locations && !CodeTaken(assets, id, saved.code)
      modifies this`assets, this`nextAssetId, this`auditLog
      ensures AssetsValid() && AssetLocationsValid() && ResponsibleValid()
      ensures assets == old(assets)[target := saved]
      ensures id.None? ==> target !in old(assets) && auditLog == old(auditLog)
      ensures id.Some? ==>
        target == id.value && nextAssetId == old(nextAssetId)
        && auditLog == old(auditLog) + LogAssetChange(target,
             AssetChanges(Some(SnapshotOf(old(assets)[target])), SnapshotOf(saved)),
             ResolveActor(current, saved.updatedBy, saved.createdBy))
    {
      // pre_save: the stored row, read before the write; none for an insert.
      var previous := if id.Some? then Some(SnapshotOf(assets[id.value])) else None;
      if id.Some? {
        target := id.value;
      } else {
        target := nextAssetId;
      }
      WriteKeepsAssetTable(assets, nextAssetId, id, target, saved);
      assets := assets[target := saved];
      if id.None? {
        nextAssetId := nextAssetId + 1;
      }
      // post_save: creations are not audited.
      if id.Some? {
        auditLog := auditLog + LogAssetChange(target, AssetChanges(previous, SnapshotOf(saved)),
                                              ResolveActor(current, saved.updatedBy, saved.createdBy));
      }
    }

    /**
     * The responsible-user m2m receiver (signals.py:63-80): a pre_* action
     * stashes the current ids; a post_* action logs the stashed and the
     * current ids, whether or not they differ.
     */
    method ResponsibleSignal(assetId: nat, action: M2MAction, current: CurrentUser)
      requires ResponsibleValid() && assetId in assets
      modifies this`responsibleBefore, this`auditLog
      ensures ResponsibleValid()
      ensures IsPreAction(action) ==>
        responsibleBefore == old(responsibleBefore)[assetId := UsersOf(responsible, assetId)] && auditLog == old(auditLog)
      ensures !IsPreAction(action) ==>
        responsibleBefore == old(responsibleBefore)
        && auditLog == old(auditLog) + LogAssetChange(assetId,
             ResponsibleChanges(UsersOf(old(responsibleBefore), assetId), UsersOf(responsible, assetId)),
             ResolveActor(current, assets[assetId].updatedBy, assets[assetId].createdBy))
    {
      if IsPreAction(action) {
        responsibleBefore := responsibleBefore[assetId := UsersOf(responsible, assetId)];
      } else {
        var changes := ResponsibleChanges(UsersOf(responsibleBefore, assetId), UsersOf(responsible, assetId));
        auditLog := auditLog + LogAssetChange(assetId, changes, ResolveActor(current, assets[assetId].updatedBy, assets[assetId].createdBy));
      }
    }

    /** The actor the m2m receiver resolves for an asset. */
    ghost function ActorOf(assetId: nat, current: CurrentUser): Option<nat>
      reads this`assets
      requires assetId in assets
    {
      ResolveActor(current, assets[assetId].updatedBy, assets[assetId].createdBy)
    }

    /** `responsible_users.remove(*users)`: nothing at all for no users, else pre_remove, delete, post_remove. */
    method RemoveResponsible(assetId: nat, users: set<nat>, current: CurrentUser)
      requires ResponsibleValid() && assetId in assets
      modifies this`responsible, this`responsibleBefore, this`auditLog
      ensures ResponsibleValid()
      ensures users == {} ==>
        responsible == old(responsible) && responsibleBefore == old(responsibleBefore) && auditLog == old(auditLog)
      ensures users != {} ==>
        && responsible == old(responsible)[assetId := UsersOf(old(responsible), assetId) - users]
        && responsibleBefore == old(responsibleBefore)[assetId := UsersOf(old(responsible), assetId)]
        && auditLog == old(auditLog) + LogAssetChange(assetId,
             ResponsibleChanges(UsersOf(old(responsible), assetId), UsersOf(old(responsible), assetId) - users),
             ActorOf(assetId, current))
    {
      if users == {} {
        return;
      }
      ResponsibleSignal(assetId, PreRemove, current);
      responsible := responsible[assetId := UsersOf(responsible, assetId) - users];
      ResponsibleSignal(assetId, PostRemove, current);
    }

    /** `responsible_users.add(*users)`: nothing at all for no users, else pre_add, insert, post_add. */
    method AddResponsible(assetId: nat, users: set<nat>, current: CurrentUser)
      requires ResponsibleValid() && assetId in assets
      modifies this`responsible, this`responsibleBefore, this`auditLog
      ensures ResponsibleValid()
      ensures users == {} ==>
        responsible == old(responsible) && responsibleBefore == old(responsibleBefore) && auditLog == old(auditLog)
      ensures users != {} ==>
        && responsible == old(responsible)[assetId := UsersOf(old(responsible), assetId) + users]
        && responsibleBefore == old(responsibleBefore)[assetId := UsersOf(old(responsible), assetId)]
        && auditLog == old(auditLog) + LogAssetChange(assetId,
             ResponsibleChanges(UsersOf(old(responsible), assetId), UsersOf(old(responsible), assetId) + users),
             ActorOf(assetId, current))
    {
      if users == {} {
        return;
      }
      ResponsibleSignal(assetId, PreAdd, current);
      responsible := responsible[assetId := UsersOf(responsible, assetId) + users];
      ResponsibleSignal(assetId, PostAdd, current);
    }

    /**
     * `form.save_m2m()` on the responsible users, i.e. Django's `set()`:
     * remove the users no longer chosen, then add the newly chosen ones.
     * The stored set becomes exactly `users`, and the audit log grows by
     * the entries of `ResponsibleEntries`.
     */
    method SetResponsible(assetId: nat, users: set<nat>, current: CurrentUser)
      requires ResponsibleValid() && assetId in assets
      modifies this`responsible, this`responsibleBefore, this`auditLog
      ensures ResponsibleValid()
      ensures UsersOf(responsible, assetId) == users
      ensures UsersOf(old(responsible), assetId) == users ==> responsible == old(responsible)
      ensures UsersOf(old(responsible), assetId) != users ==> responsible == old(responsible)[assetId := users]
      ensures auditLog == old(auditLog) + ResponsibleEntries(assetId, UsersOf(old(responsible), assetId), users, ActorOf(assetId, current))
    {
      var before := UsersOf(responsible, assetId);
      var kept := before * users;
      if before - users == {} {
        assert forall x :: x in before ==> x in users by {
          forall x | x in before ensures x in users { assert x !in before - users; }
        }
        assert before == kept;
      }
      if users - before == {} {
        assert forall x :: x in users ==> x in before by {
          forall x | x in users ensures x in before { assert x !in users - before; }
        }
        assert kept == users;
      }
      assert kept + (users - before) == users;
      RemoveResponsible(assetId, before - users, current);
      assert UsersOf(responsible, assetId) == kept;
      AddResponsible(assetId, users - before, current);
    }

    /**
     * `asset.save(update_fields=...)` on a stored asset: its code is already
     * set, so `Asset.save` goes straight to the write, which the
     * pre_save/post_save receivers audit.
     */
    method ResaveAsset(id: nat, row: Asset, current: CurrentUser)
      requires AssetsValid() && AssetLocationsValid() && ResponsibleValid()
      requires id in assets && row.code == assets[id].code && row.location in locations
      modifies this`assets, this`nextAssetId, this`auditLog
      ensures AssetsValid() && AssetLocationsValid() && ResponsibleValid()
      ensures nextAssetId == old(nextAssetId)
      ensures assets == old(assets)[id := row]
      ensures auditLog == old(auditLog) + LogAssetChange(id,
        AssetChanges(Some(SnapshotOf(old(assets)[id])), SnapshotOf(row)),
        ResolveActor(current, row.updatedBy, row.createdBy))
    {
      OwnCodeNotTaken(assets, nextAssetId, id);
      var target := WriteAsset(Some(id), row, current);
    }

    /**
     * AssetCreateView.form_valid (views.py:309-322): the asset is saved with
     * the user as creator and last editor, which draws its code; then the
     * responsible users are set and a history entry records the first
     * location. A location that is not one of the form's choices is rejected
     * before anything is saved; once the save starts, the code's counter is
     * consumed even when the insert fails.
     */
    method CreateAsset(input: AssetInput, users: set<nat>, user: nat, now: int) returns (r: Result<nat>)
      requires AssetsValid() && AssetLocationsValid() && ResponsibleValid()
      modifies this`counters, this`assets, this`nextAssetId, this`responsible, this`responsibleBefore
      modifies this`auditLog, this`history
      ensures AssetsValid() && AssetLocationsValid() && ResponsibleValid()
      ensures r == Err(UnknownLocation) <==> input.location !in locations
      ensures input.location !in locations ==> counters == old(counters) && nextAssetId == old(nextAssetId)
      ensures input.location in locations ==> counters == Incremented(old(counters), input.acquiredDate)
      ensures r == Err(IntegrityError) <==>
        input.location in locations && CodeTaken(old(assets), None, CodeFor(NewAsset(input, user), counters))
      ensures r.Err? ==>
        (r.failure == UnknownLocation || r.failure == IntegrityError) && assets == old(assets) && responsible == old(responsible)
        && history == old(history) && auditLog == old(auditLog)
      ensures r.Ok? ==>
        && r.value !in old(assets)
        && assets == old(assets)[r.value := NewAsset(input, user).(code := CodeFor(NewAsset(input, user), counters))]
        && UsersOf(responsible, r.value) == users
        && (forall b :: b != r.value ==> UsersOf(responsible, b) == UsersOf(old(responsible), b))
        && history == old(history) + [HistoryEntry(r.value, None, input.location, user, [], now)]
        && auditLog == old(auditLog) + ResponsibleEntries(r.value, {}, users, Some(user))
    {
      if input.location !in locations {
        return Err(UnknownLocation);
      }
      r := SaveAsset(None, NewAsset(input, user), Authenticated(user));
      if r.Err? {
        return;
      }
      InitialLinks(r.value, input.location, users, user, now);
    }

    /**
     * What AssetCreateView does after the insert: `form.save_m2m()` sets the
     * responsible users of the new asset, which had none, and the first
     * history entry is created.
     */
    method InitialLinks(id: nat, location: nat, users: set<nat>, user: nat, now: int)
      requires ResponsibleValid() && id in assets && id !in responsible
      requires assets[id].updatedBy == Some(user)
      modifies this`responsible, this`responsibleBefore, this`auditLog, this`history
      ensures ResponsibleValid()
      ensures UsersOf(responsible, id) == users
      ensures forall b :: b != id ==> UsersOf(responsible, b) == UsersOf(old(responsible), b)
      ensures history == old(history) + [HistoryEntry(id, None, location, user, [], now)]
      ensures auditLog == old(auditLog) + ResponsibleEntries(id, {}, users, Some(user))
    {
      SetResponsible(id, users, Authenticated(user));
      history := history + [HistoryEntry(id, None, location, user, [], now)];
    }

    /**
     * AssetUpdateView.form_valid with the location comparison it intends
     * (views.py:332-346): the edited asset is saved, the responsible users
     * are set, and a history entry is recorded exactly when the stored
     * location differs from the submitted one.
     */
    method UpdateAsset(id: nat, input: AssetInput, users: set<nat>, user: nat, now: int) returns (r: Result<nat>)
      requires AssetsValid() && AssetLocationsValid() && ResponsibleValid()
      modifies this`assets, this`nextAssetId, this`responsible, this`responsibleBefore
      modifies this`auditLog, this`history
      ensures AssetsValid() && AssetLocationsValid() && ResponsibleValid()
      ensures r == Err(NotFound) <==> id !in old(assets)
      ensures r == Err(UnknownLocation) <==> id in old(assets) && input.location !in locations
      ensures r.Err? ==> r.failure in {NotFound, UnknownLocation}
      ensures nextAssetId == old(nextAssetId)
      ensures r.Err? ==>
        assets == old(assets) && responsible == old(responsible) && history == old(history) && auditLog == old(auditLog)
      ensures r.Ok? ==>
        && r.value == id
        && assets == old(assets)[id := Edited(old(assets)[id], input, user)]
        && UsersOf(responsible, id) == users
        && (forall b :: b != id ==> UsersOf(responsible, b) == UsersOf(old(responsible), b))
        && history == old(history) + HistoryFor(id, old(assets)[id].location, input.location, user, now)
        && auditLog == old(auditLog)
             + LogAssetChange(id, AssetChanges(Some(SnapshotOf(old(assets)[id])), SnapshotOf(Edited(old(assets)[id], input, user))), Some(user))
             + ResponsibleEntries(id, UsersOf(old(responsible), id), users, Some(user))
    {
      if id !in assets {
        return Err(NotFound);
      }
      var stored := assets[id];
      // The form's location field only accepts a stored location; past it,
      // the stored code is kept, so `Asset.save` only writes.
      if input.location !in locations {
        return Err(UnknownLocation);
      }
      ResaveAsset(id, Edited(stored, input, user), Authenticated(user));
      SetResponsible(id, users, Authenticated(user));
      history := history + HistoryFor(id, stored.location, input.location, user, now);
      r := Ok(id);
    }

    /**
     * AssetMoveView (views.py:396-423): the form offers the active locations
     * other than the current one and requires the move time and a note; the
     * asset moves, the move is audited, and a history entry carries the note
     * and the time given. Since the form requires the time, the view's
     * fallback to the current time never applies.
     */
    method MoveAsset(id: nat, to: nat, note: string, movedAt: Option<int>, user: nat) returns (r: Result<nat>)
      requires LocationsValid() && AssetsValid() && AssetLocationsValid() && ResponsibleValid()
      modifies this`assets, this`nextAssetId, this`auditLog, this`history
      ensures nextAssetId == old(nextAssetId)
      ensures AssetsValid() && AssetLocationsValid() && ResponsibleValid()
      ensures r == Err(NotFound) <==> id !in old(assets)
      ensures id in old(assets) && r.Err? ==> r == Err(InvalidMove(MoveErrors(locations, old(assets)[id].location, to, movedAt, note)))
      ensures id in old(assets) && MoveErrors(locations, old(assets)[id].location, to, movedAt, note) == {} ==> r.Ok?
      ensures r.Err? ==> assets == old(assets) && auditLog == old(auditLog) && history == old(history)
      ensures r.Ok? ==>
        && id in old(assets) && MoveErrors(locations, old(assets)[id].location, to, movedAt, note) == {}
        && r.value == id
        && assets == old(assets)[id := Moved(old(assets)[id], to, user)]
        && history == old(history)
             + [HistoryEntry(id, Some(old(assets)[id].location), to, user, note, movedAt.value)]
        && auditLog == old(auditLog)
             + [AuditEntry("asset", id, "update", map[LocationKey := Change(LocationValue(old(assets)[id].location), LocationValue(to))], user)]
    {
      if id !in assets {
        return Err(NotFound);
      }
      var previous := assets[id];
      var errors := MoveErrors(locations, previous.location, to, movedAt, note);
      if errors != {} {
        return Err(InvalidMove(errors));
      }
      // The form already excludes the current location, so the view's
      // `previous_location != new_location` guard always holds here.
      MoveIsAudited(id, previous, to, user);
      ResaveAsset(id, Moved(previous, to, user), Authenticated(user));
      history := history + [HistoryEntry(id, Some(previous.location), to, user, note, movedAt.value)];
      r := Ok(id);
    }

    /**
     * AssetDeleteView (views.py:452-466): a soft delete. The form requires a
     * reason; an asset already deleted is left alone; otherwise the one
     * AssetDeletion row is created (a second one violates the one-to-one
     * key) and the asset is marked removed.
     */
    method DeleteAsset(id: nat, reason: string, user: nat, now: int) returns (r: Result<nat>)
      requires AssetsValid() && AssetLocationsValid() && ResponsibleValid() && DeletionsValid()
      modifies this`assets, this`nextAssetId, this`auditLog, this`deletions
      ensures nextAssetId == old(nextAssetId)
      ensures AssetsValid() && AssetLocationsValid() && ResponsibleValid() && DeletionsValid()
      ensures r == Err(NotFound) <==> id !in old(assets)
      ensures r == Err(MissingReason) <==> id in old(assets) && |reason| == 0
      ensures r == Err(IntegrityError) <==>
        id in old(assets) && |reason| > 0 && old(assets)[id].deletedAt.None? && HasDeletion(old(deletions), id)
      ensures r.Err? ==> r.failure in {NotFound, MissingReason, IntegrityError}
      ensures r.Ok? ==> r.value == id
      ensures (r.Ok? && old(assets)[id].deletedAt.Some?) || r.Err? ==>
        assets == old(assets) && auditLog == old(auditLog) && deletions == old(deletions)
      ensures r.Ok? && old(assets)[id].deletedAt.None? ==>
        && deletions == old(deletions) + [Deletion(id, reason, user, now)]
        && assets == old(assets)[id := Removal(old(assets)[id], user, now)]
        && auditLog == old(auditLog)
             + LogAssetChange(id, AssetChanges(Some(SnapshotOf(old(assets)[id])), SnapshotOf(Removal(old(assets)[id], user, now))), Some(user))
    {
      if id !in assets {
        return Err(NotFound);
      }
      if |reason| == 0 {
        return Err(MissingReason);
      }
      if assets[id].deletedAt.Some? {
        return Ok(id);
      }
      if HasDeletion(deletions, id) {
        return Err(IntegrityError);
      }
      deletions := deletions + [Deletion(id, reason, user, now)];
      ResaveAsset(id, Removal(assets[id], user, now), Authenticated(user));
      r := Ok(id);
    }

    /**
     * AssetMeterReadingCreateView (views.py:377-384): a reading of a stored
     * asset is appended with the next id. When no earlier reading of that
     * asset and type is later, it becomes the latest one.
     */
    method RecordReading(assetId: nat, kind: ReadingType, value: nat, at: int, note: string, user: nat) returns (r: Result<nat>)
      requires ReadingsValid()
      modifies this`readings
      ensures ReadingsValid()
      ensures r.Err? <==> assetId !in assets
      ensures r.Err? ==> r.failure == NotFound && readings == old(readings)
      ensures r.Ok? ==>
        && r.value == |old(readings)| + 1
        && readings == old(readings) + [Reading(r.value, assetId, kind, value, at, note, user)]
        && ((forall i :: 0 <= i < |old(readings)| && Matches(old(readings)[i], assetId, Some(kind)) ==> old(readings)[i].at <= at) ==>
              LatestReading(readings, assetId, Some(kind)) == Some(readings[|readings| - 1]))
    {
      if assetId !in assets {
        return Err(NotFound);
      }
      var x := Reading(|readings| + 1, assetId, kind, value, at, note, user);
      if forall i :: 0 <= i < |readings| && Matches(readings[i], assetId, Some(kind)) ==> readings[i].at <= at {
        AppendedReadingIsLatest(readings, x);
      }
      readings := readings + [x];
      r := Ok(x.id);
    }

    /**
     * The schedule create and update views (views.py:483-498, 507-521): a
     * form with errors changes nothing; otherwise the cleaned schedule
     * (a blank period is None), normalised for its trigger, is stored. An update keeps the creator and the last
     * service time, which the form does not edit.
     */
    method SubmitSchedule(id: Option<nat>, f: ScheduleInput, user: nat, today: CalendarDate) returns (r: Result<nat>)
      requires SchedulesValid()
      modifies this`schedules, this`nextScheduleId
      ensures SchedulesValid()
      ensures r == Err(NotFound) <==> id.Some? && id.value !in old(schedules)
      ensures (id.None? || id.value in old(schedules)) && r.Err? ==> r == Err(InvalidSchedule(ScheduleFormErrors(f, f.asset in assets)))
      ensures (id.None? || id.value in old(schedules)) && ScheduleFormErrors(f, f.asset in assets) == {} ==> r.Ok?
      ensures r.Err? ==> schedules == old(schedules)
      ensures r.Err? || id.Some? ==> nextScheduleId == old(nextScheduleId)
      ensures r.Ok? ==> ScheduleFormErrors(f, f.asset in assets) == {} && r.value in schedules && WellFormed(schedules[r.value])
      ensures r.Ok? && id.None? ==>
        r.value !in old(schedules)
        && schedules == old(schedules)[r.value := Normalized(ScheduleFromInput(CleanedSchedule(f), None, user), today)]
      ensures r.Ok? && id.Some? ==>
        r.value == id.value
        && schedules == old(schedules)[r.value := Normalized(ScheduleFromInput(CleanedSchedule(f), old(schedules)[r.value].lastDoneAt, old(schedules)[r.value].createdBy), today)]
    {
      if id.Some? && id.value !in schedules {
        return Err(NotFound);
      }
      var errors := ScheduleFormErrors(f, f.asset in assets);
      if errors != {} {
        return Err(InvalidSchedule(errors));
      }
      var target: nat;
      var lastDoneAt: Option<int>;
      var createdBy: nat;
      if id.Some? {
        target := id.value;
        lastDoneAt := schedules[target].lastDoneAt;
        createdBy := schedules[target].createdBy;
      } else {
        target := nextScheduleId;
        nextScheduleId := nextScheduleId + 1;
        lastDoneAt := None;
        createdBy := user;
      }
      AcceptedFormNormalizesWellFormed(CleanedSchedule(f), lastDoneAt, createdBy, today);
      schedules := schedules[target := Normalized(ScheduleFromInput(CleanedSchedule(f), lastDoneAt, createdBy), today)];
      r := Ok(target);
    }

    /**
     * `_advance_schedule_after_maintenance` (views.py:96-141) against the
     * stored schedule: nothing without a schedule, else the row becomes
     * `Advanced` of itself, which keeps it well formed.
     */
    method AdvanceSchedule(schedule: Option<nat>, performedAt: Instant, today: CalendarDate)
      requires SchedulesValid() && (schedule.Some? ==> schedule.value in schedules)
      modifies this`schedules
      ensures SchedulesValid()
      ensures schedules == AfterService(old(schedules), schedule, performedAt, readings, today)
    {
      if schedule.None? {
        return;
      }
      AdvancePreservesWellFormed(schedules[schedule.value], Some(performedAt), readings, today);
      schedules := schedules[schedule.value := Advanced(schedules[schedule.value], Some(performedAt), readings, today)];
    }

    /**
     * MaintenanceCreateView.form_valid (views.py:554-575): a form with
     * errors changes nothing. Otherwise the maintenance is stored, the
     * asset takes the condition after it (an audited save), a usage
     * schedule's reading is recorded on the maintained asset at the service
     * time, and the chosen schedule is advanced against the readings as they
     * then stand.
     */
    method CompleteMaintenance(input: MaintenanceInput, readingValue: Option<int>, user: nat, today: CalendarDate)
      returns (r: Result<nat>)
      requires AssetsValid() && AssetLocationsValid() && ResponsibleValid() && ReadingsValid() && SchedulesValid()
      modifies this`maintenances, this`assets, this`nextAssetId, this`auditLog, this`readings, this`schedules
      ensures nextAssetId == old(nextAssetId)
      ensures AssetsValid() && AssetLocationsValid() && ResponsibleValid() && ReadingsValid() && SchedulesValid()
      ensures var errors := MaintenanceFormErrors(input.asset in old(assets), ScheduleChoiceOf(old(schedules), old(assets), input.schedule), readingValue);
        (r.Err? <==> errors != {}) && (r.Err? ==> r.failure == InvalidMaintenance(errors))
      ensures r.Err? ==>
        maintenances == old(maintenances) && assets == old(assets) && auditLog == old(auditLog)
        && readings == old(readings) && schedules == old(schedules)
      ensures r.Ok? ==>
        && input.asset in old(assets)
        && r.value == |maintenances|
        && maintenances == old(maintenances) + [MaintenanceOf(input, user)]
        && assets == old(assets)[input.asset := Serviced(old(assets)[input.asset], input.conditionAfter, user)]
        && auditLog == old(auditLog) + LogAssetChange(input.asset,
             AssetChanges(Some(SnapshotOf(old(assets)[input.asset])), SnapshotOf(Serviced(old(assets)[input.asset], input.conditionAfter, user))),
             Some(user))
        && readings == old(readings)
             + ServiceReading(ScheduleChoiceOf(old(schedules), old(assets), input.schedule), input, Cleaned(readingValue), |old(readings)| + 1, user)
        && schedules == AfterService(old(schedules), input.schedule, input.performedAt, readings, today)
    {
      var choice := ScheduleChoiceOf(schedules, assets, input.schedule);
      var errors := MaintenanceFormErrors(input.asset in assets, choice, readingValue);
      if errors != {} {
        return Err(InvalidMaintenance(errors));
      }
      ServiceAsset(input, user);
      RecordServiceReading(choice, input, Cleaned(readingValue), user);
      AdvanceSchedule(input.schedule, input.performedAt, today);
      r := Ok(|maintenances|);
    }

    /**
     * The first writes of a valid maintenance form: the maintenance is
     * stored and the asset takes the condition after it (an audited save).
     */
    method ServiceAsset(input: MaintenanceInput, user: nat)
      requires AssetsValid() && AssetLocationsValid() && ResponsibleValid() && input.asset in assets
      modifies this`maintenances, this`assets, this`nextAssetId, this`auditLog
      ensures nextAssetId == old(nextAssetId)
      ensures AssetsValid() && AssetLocationsValid() && ResponsibleValid()
      ensures maintenances == old(maintenances) + [MaintenanceOf(input, user)]
      ensures assets == old(assets)[input.asset := Serviced(old(assets)[input.asset], input.conditionAfter, user)]
      ensures auditLog == old(auditLog) + LogAssetChange(input.asset,
        AssetChanges(Some(SnapshotOf(old(assets)[input.asset])), SnapshotOf(Serviced(old(assets)[input.asset], input.conditionAfter, user))),
        Some(user))
    {
      maintenances := maintenances + [MaintenanceOf(input, user)];
      ResaveAsset(input.asset, Serviced(assets[input.asset], input.conditionAfter, user), Authenticated(user));
    }

    /** The meter reading a usage schedule's maintenance records, with the next reading id. */
    method RecordServiceReading(choice: ScheduleChoice, input: MaintenanceInput, value: Option<nat>, user: nat)
      requires ReadingsValid()
      requires choice.Chosen? && choice.schedule.trigger == UsageTrigger ==> choice.schedule.usageReadingType.Some?
      modifies this`readings
      ensures ReadingsValid()
      ensures readings == old(readings) + ServiceReading(choice, input, value, |old(readings)| + 1, user)
    {
      readings := readings + ServiceReading(choice, input, value, |readings| + 1, user);
    }

    /**
     * LoanCreateView.form_valid (views.py:654-663): a second open loan of
     * the same asset violates `uniq_active_loan_per_asset`; otherwise the
     * loan is stored with the user as creator and the asset's status
     * follows it (an audited save).
     */
    method CreateLoan(input: LoanInput, user: nat) returns (r: Result<nat>)
      requires AssetsValid() && AssetLocationsValid() && ResponsibleValid() && LoansValid()
      modifies this`loans, this`nextLoanId, this`assets, this`nextAssetId, this`auditLog
      ensures nextAssetId == old(nextAssetId)
      ensures AssetsValid() && AssetLocationsValid() && ResponsibleValid() && LoansValid()
      ensures r == Err(NotFound) <==> input.asset !in old(assets)
      ensures r == Err(IntegrityError) <==>
        input.asset in old(assets) && input.returnedAt.None? && HasOpenLoan(old(loans), input.asset, None)
      ensures r.Err? ==> nextLoanId == old(nextLoanId)
      ensures r.Err? ==> r.failure in {NotFound, IntegrityError}
      ensures r.Err? ==> loans == old(loans) && assets == old(assets) && auditLog == old(auditLog)
      ensures r.Ok? ==>
        && r.value !in old(loans)
        && loans == old(loans)[r.value := LoanOf(input, user)]
        && assets == old(assets)[input.asset := old(assets)[input.asset].(status := StatusAfterLoan(input.returnedAt), updatedBy := Some(user))]
        && auditLog == old(auditLog) + LogAssetChange(input.asset,
             AssetChanges(Some(SnapshotOf(old(assets)[input.asset])),
                          SnapshotOf(old(assets)[input.asset].(status := StatusAfterLoan(input.returnedAt), updatedBy := Some(user)))),
             Some(user))
    {
      if input.asset !in assets {
        return Err(NotFound);
      }
      if input.returnedAt.None? && HasOpenLoan(loans, input.asset, None) {
        return Err(IntegrityError);
      }
      var id := nextLoanId;
      loans := loans[id := LoanOf(input, user)];
      nextLoanId := nextLoanId + 1;
      var stored := assets[input.asset];
      ResaveAsset(input.asset, stored.(status := StatusAfterLoan(input.returnedAt), updatedBy := Some(user)), Authenticated(user));
      r := Ok(id);
    }

    /**
     * LoanUpdateView.form_valid (views.py:673-682): the loan is rewritten
     * (its creator kept), subject to the same constraint with the loan
     * itself excluded; the asset becomes active once the loan is returned
     * and is otherwise saved with its status as stored.
     */
    method UpdateLoan(id: nat, input: LoanInput, user: nat) returns (r: Result<nat>)
      requires AssetsValid() && AssetLocationsValid() && ResponsibleValid() && LoansValid()
      modifies this`loans, this`assets, this`nextAssetId, this`auditLog
      ensures nextAssetId == old(nextAssetId)
      ensures AssetsValid() && AssetLocationsValid() && ResponsibleValid() && LoansValid()
      ensures r == Err(NotFound) <==> id !in old(loans) || input.asset !in old(assets)
      ensures r == Err(IntegrityError) <==>
        id in old(loans) && input.asset in old(assets) && input.returnedAt.None? && HasOpenLoan(old(loans), input.asset, Some(id))
      ensures r.Err? ==> r.failure in {NotFound, IntegrityError}
      ensures r.Err? ==> loans == old(loans) && assets == old(assets) && auditLog == old(auditLog)
      ensures r.Ok? ==>
        && r.value == id
        && loans == old(loans)[id := LoanOf(input, old(loans)[id].createdBy)]
        && assets == old(assets)[input.asset := old(assets)[input.asset].(
             status := StatusAfterLoanUpdate(old(assets)[input.asset].status, input.returnedAt), updatedBy := Some(user))]
        && auditLog == old(auditLog) + LogAssetChange(input.asset,
             AssetChanges(Some(SnapshotOf(old(assets)[input.asset])),
                          SnapshotOf(old(assets)[input.asset].(
                            status := StatusAfterLoanUpdate(old(assets)[input.asset].status, input.returnedAt), updatedBy := Some(user)))),
             Some(user))
    {
      if id !in loans || input.asset !in assets {
        return Err(NotFound);
      }
      if input.returnedAt.None? && HasOpenLoan(loans, input.asset, Some(id)) {
        return Err(IntegrityError);
      }
      loans := loans[id := LoanOf(input, loans[id].createdBy)];
      var stored := assets[input.asset];
      ResaveAsset(input.asset, stored.(status := StatusAfterLoanUpdate(stored.status, input.returnedAt), updatedBy := Some(user)),
                  Authenticated(user));
      r := Ok(id);
    }
  }
}
