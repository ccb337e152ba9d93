# inventaris: asset lifecycle and maintenance scheduling in Dafny

This project models the core of *inventaris*, a Django app that tracks an
organisation's physical assets. The model covers:

- **Asset codes.** `AssetCodeCounter.next_code` keeps one counter per
  (year, month) and renders codes as `YYYY-MM-NNNN`. `Asset.save` draws a
  code exactly once.
- **Location tree.** `Location.save` derives a location's path and level from
  its parent.
- **Asset views.** Create, update, move, delete and meter reading. Each is
  modelled together with the `pre_save`/`post_save` audit receivers and the
  responsible-user `m2m_changed` receiver.
- **Maintenance schedules.**
  - The date algebra `add_period` / `schedule_status`.
  - The schedule create/update normalisation.
  - The completion of a maintenance, which records a meter reading and
    advances its schedule.
  - The dashboard's due/warning/overdue bucketing.
- **Form validation.** The cross-field checks of the schedule and maintenance
  forms.
- **Loans.** The loan views, and the database constraints "one open loan per
  asset" and "one deletion record per asset".

Files, one module each:

| file | module | models |
|---|---|---|
| `calendar.dfy` | `Calendar` | Python's proleptic Gregorian `date`: validity, month lengths, the ordinal, adding days |
| `utils.dfy` | `Utils` | `inventaris/utils.py` |
| `codes.dfy` | `Codes` | zero-padded decimal rendering and the asset code format |
| `models.dfy` | `Models` | the enums and rows of `inventaris/models.py`, the issued-code set, location path/level |
| `forms.dfy` | `Forms` | `MaintenanceScheduleForm.clean`, `MaintenanceForm.clean` and their field validation |
| `signals.dfy` | `Signals` | the audit diff, actor fallback and log entry of `inventaris/signals.py` |
| `engine.dfy` | `Engine` | latest reading, schedule advancement, normalisation, dashboard |
| `inventory.dfy` | `Inventory` | the database as the class `Store` (one field per table) and the views' `form_valid` bodies as its methods |

Each `Store` method requires and ensures the parts of the store invariant
that read the fields it modifies. Those parts are:

- unique non-empty asset codes;
- the location foreign key;
- well-formed schedules;
- the one-open-loan and one-deletion constraints;
- shaped location paths.

Each method also states the complete new contents of every table it writes.
A failed form or constraint changes nothing. The one exception is a
duplicate asset code: the insert fails after `next_code` has already used up
its counter (see "Left out").

Three behaviours of the code that a reader might expect to be otherwise, as
modelled:

- **Time schedules.** A serviced time schedule advances from the maintenance
  date whenever one is given, not from the later of that date and the old due
  date (`Engine.EarlyServicePullsDueDateForward`).
- **New asset status.** A new asset takes the status chosen in the form. It
  is not forced to "active".
- **Moves.** A move to the current location is rejected by the move form,
  whose choices exclude it. It is not accepted as a no-op.

One behaviour of the code is modelled as intended instead: the location
history of an asset edit. The code compares
the submitted location with itself, so it never records a move. Here
`Inventory.Store.UpdateAsset` compares it with the stored location, as
intended. `Inventory.UpdateViewLosesHistory` models the code as written
(see "Findings").

## Model

| member | source | states |
|---|---|---|
| Utils.AddPeriod | inventaris/utils.py:9-26 | daily and weekly add exactly 1 and 7 days to the ordinal; monthly goes to the next month (December to January of the next year) with the day clamped to that month's length; yearly keeps the month with the day clamped; every known period yields a strictly later date; an unrecognised period returns the date unchanged |
| Utils.StatusFor | inventaris/utils.py:29-35 | late exactly when a due date is set and lies before today; no due date, or a due date on or after today, is on time |
| Utils.AddPeriodAdvances | inventaris/utils.py:9-26 | each of the four periods moves the date to a strictly later day |
| Utils.MonthlyStepLength | inventaris/utils.py:14-21 | a monthly step spans 28 to 31 days |
| Utils.MonthlyKeepsDay | inventaris/utils.py:14-21 | a day of 28 or less is kept by a monthly step |
| Utils.MonthlyFromJanuary31 | inventaris/utils.py:14-21 | 2024-01-31 advances to 2024-02-29 and then to 2024-03-29: clamping is not undone later |
| Utils.MonthlyWrapsDecember | inventaris/utils.py:16-19 | December advances to January of the next year |
| Utils.YearlyFromLeapDay | inventaris/utils.py:22-25 | Feb 29 advances to Feb 28 of a following non-leap year |
| Utils.DailyAndWeeklyCrossBoundaries | inventaris/utils.py:10-13 | the day and week steps cross year and month ends (2023-12-31 to 2024-01-01, 2024-02-26 to 2024-03-04) |
| Utils.DueDateItselfOnTime | inventaris/utils.py:33-35 | on the due date the status is on time; the next day it is late |
| Codes.DigitsRoundTrip | inventaris/models.py:85 | the decimal rendering of n reads back as n |
| Codes.ZeroPadRoundTrip | inventaris/models.py:85 | zero padding never changes the value the digits denote |
| Codes.ZeroPadLength | inventaris/models.py:85 | a number below 10^w pads to exactly w characters |
| Codes.ZeroPadInjective | inventaris/models.py:85 | two numbers padded to the same width render equally only if they are equal |
| Codes.SplitAtDash | inventaris/models.py:85 | a digit string, a dash and a rest can be split back at the first dash |
| Codes.FormatCodeInjective | inventaris/models.py:85 | distinct (year, month, serial) triples never render to the same code |
| Codes.CodeLayout | inventaris/models.py:85 | with a 4-digit year, a month 1-12 and a serial below 10000, the code is 12 characters with dashes at positions 4 and 7 and digits everywhere else |
| Codes.FifthDigit | inventaris/models.py:85 | the serial is padded, never truncated: serial 10000 of January 2024 gives 2024-01-10000 |
| Models.PeriodFromCode | inventaris/models.py:226-246 | the four PERIOD_CHOICES strings read as their periods; any other string is an unrecognised period that is not a second spelling of a choice; the period is stored back as the string it was read from |
| Models.PeriodCodeRoundTrip | inventaris/models.py:226-246 | storing a well-encoded period and reading it back gives the same period |
| Models.IssuedAfterIncrement | inventaris/models.py:78-84 | incrementing a period's counter (created at 0 when absent) hands out exactly one new serial, never handed out before |
| Models.PathFor | inventaris/models.py:51 | the path ends in the node's own id; it has one more separator than the parent's path and starts with that path and a slash; a root has no separator |
| Models.RecomputedIsShaped | inventaris/models.py:50-52 | a node saved under a shaped parent, or as a root, has one separator per level and ends in its own id |
| Forms.ScheduleCleanErrors | inventaris/forms.py:113-134 | for each field, an error exactly when the trigger needs it and it is missing: period and due date for time; a nonzero interval, a reading type and a nonzero due usage for usage; nothing for condition and event |
| Forms.CleanedSchedule | inventaris/forms.py:94-112 | field validation leaves a period only when it is one of the choices; a blank or invalid one becomes None, and every other field is kept as submitted |
| Forms.ScheduleFormErrors | inventaris/forms.py:94-134 | the asset is in error iff unknown; the plan name iff empty; the period iff it is a non-blank invalid choice, or a time trigger has no period after cleaning; an error-free form has cleaned data with the fields its trigger relies on |
| Forms.BlankPeriodIsNoPeriod | inventaris/forms.py:94-134 | the blank period option gives the same errors and the same cleaned data as no period at all |
| Forms.UsageErrorsAccumulate | inventaris/forms.py:124-133 | all three missing usage fields are reported together |
| Forms.MaintenanceCleanErrors | inventaris/forms.py:153-168 | a usage schedule without a reading type is reported on the schedule, one without a reading value on the reading; anything else reports nothing |
| Forms.MaintenanceFormErrors | inventaris/forms.py:137-168 | the asset, schedule and reading errors, field by field, including an invalid asset or schedule choice and a negative reading; an error-free form with a usage schedule has a reading type and a non-negative reading |
| Signals.AssetChanges | inventaris/signals.py:43-59 | status, condition or location appears exactly when its previous value is set and differs, carrying the before and after values; nothing appears without a pre-image; the responsible key never appears |
| Signals.ResolveActor | inventaris/signals.py:13-16 | the authenticated current user, else `updated_by`, else `created_by`; none only when all three are missing |
| Signals.LogAssetChange | inventaris/signals.py:10-23 | at most one entry; one exactly when the diff is non-empty and an actor resolves; it is an "asset"/"update" entry carrying the id, the diff and the actor |
| Signals.ResponsibleChanges | inventaris/signals.py:72-79 | the diff has only the responsible key, with the before and after id sets, even when they are equal |
| Signals.ConditionOnlyUpdate | inventaris/signals.py:39-60 | a save that changes only the condition logs one entry whose map holds only the condition, before and after |
| Signals.UnchangedSaveLogsNothing | inventaris/signals.py:39-60 | a save that changes no tracked field logs nothing |
| Signals.SelfDiffIsEmpty | inventaris/signals.py:26-36 | diffing an instance against itself finds nothing, which is why the pre-image is read from the stored row |
| Engine.LatestReading | inventaris/views.py:116-123 | none exactly when no reading of the asset and type exists; otherwise a matching reading at least as late as every matching one (time, then id) |
| Engine.AppendedReadingIsLatest | inventaris/views.py:116-123 | a reading appended with the largest id, no earlier than its pair's readings, becomes that pair's latest |
| Engine.UsageBaseline | inventaris/views.py:124-128 | the latest reading's value, else a nonzero last usage value, else the next due usage |
| Engine.Advanced | inventaris/views.py:96-141 | what a schedule is never changes. A time schedule records the service time and, when it has a due date and a period, moves the due date one period past the maintenance date (or the old due date without one); its status is that of the new due date. A usage schedule records the service time and the baseline, its next due usage becomes the baseline plus the interval when both are set, and it is on time. Condition and event schedules are unchanged |
| Engine.ServicedTimeScheduleOnTime | inventaris/views.py:103-111 | a time schedule with a known period serviced today ends up due strictly after the service date, hence on time |
| Engine.EarlyServicePullsDueDateForward | inventaris/views.py:104-110 | serviced on 2024-03-01, a monthly schedule due 2024-03-10 becomes due 2024-04-01, before 2024-04-10 |
| Engine.NoServiceTimeUsesOldDueDate | inventaris/views.py:105-110 | without a maintenance time the due date advances one period from the old due date, to a later date |
| Engine.ServiceReadingDrivesNextDue | inventaris/views.py:115-131 | after the service reading is recorded, the usage schedule's last usage is that reading and its next due usage is that reading plus the interval |
| Engine.Normalized | inventaris/views.py:486-494 | fields of the other trigger kinds are cleared; fields of its own kind and the schedule's identity are kept; the status is that of the due date (on time without one) |
| Engine.AcceptedFormNormalizesWellFormed | inventaris/views.py:483-498 | an accepted form, normalised, is a well-formed schedule (exactly the fields of its trigger, all set) |
| Engine.AdvancePreservesWellFormed | inventaris/views.py:96-141 | advancing keeps a well-formed schedule well formed |
| Engine.TimeDueToday | inventaris/views.py:248-251 | the listed schedules are exactly the time schedules due today |
| Engine.TimeOverdue | inventaris/views.py:252-255 | the listed schedules are exactly the time schedules due before today |
| Engine.OverdueMeansLate | inventaris/views.py:252-255 | a time schedule is on the overdue list exactly when its status for today is late |
| Engine.WarningMargin | inventaris/views.py:291 | one for intervals below 20, otherwise the interval's tenth rounded down |
| Engine.ClassifyUsage | inventaris/views.py:284-294 | overdue iff past the due usage; due iff equal; warning only within the margin before it with a nonzero interval, and always there |
| Engine.WarningIsLastTenth | inventaris/views.py:288-294 | for intervals of ten or more, a warning means at most a tenth of the interval remains |
| Engine.DashboardExample | inventaris/views.py:284-294 | interval 500 due at 5000: 4950 warns, 5000 is due, 5100 is overdue, 4000 is in no bucket |
| Engine.FirstWithKey | inventaris/views.py:265-270 | none iff no row has the key; otherwise a row with that key |
| Engine.FirstIsLatest | inventaris/views.py:261-270 | on rows in the query's order, the first row per (asset, type) is the latest reading of that pair, the same one the post-maintenance lookup selects |
| Engine.LatestByAssetType | inventaris/views.py:265-270 | the loop's dictionary maps each key to its first row and holds no other key |
| Engine.ItemsIn | inventaris/views.py:271-294 | a bucket's list holds exactly the eligible schedules classified into it, each with its current and due usage |
| Engine.UsageDashboard | inventaris/views.py:256-297 | the three lists the loop builds are the due, warning and overdue buckets, and they are disjoint |
| Inventory.SavedTable | inventaris/models.py:48-57 | after a save the node has its parent's path plus a slash and its id, and its parent's level plus one (its id and level 0 as a root); every other row, descendants included, is unchanged |
| Inventory.ResaveIsIdempotent | inventaris/models.py:48-57 | saving a node again with the same fields changes nothing |
| Inventory.ReparentLeavesChildStale | inventaris/models.py:48-57 | re-parenting a node leaves its child's stored path under the old parent's path |
| Inventory.SuccessiveCodesDiffer | inventaris/models.py:74-85 | two successive `next_code` calls never return the same code, whatever their dates |
| Inventory.CodeFor | inventaris/models.py:147-152 | a set code is kept; a generated one is non-empty |
| Inventory.ResponsibleEntries | inventaris/signals.py:63-80 | Django's `set()` logs one entry per non-empty remove and add step, each with only the responsible key: the remove step goes from the old set to the kept users, the add step from the kept users to the new set; nothing when the set is unchanged or no actor resolves |
| Inventory.HistoryFor | inventaris/views.py:338-344 | one history entry from the previous to the new location exactly when they differ |
| Inventory.UpdateHistoryAsWritten | inventaris/views.py:332-346 | the update view as written never records a history entry |
| Inventory.UpdateViewLosesHistory | inventaris/views.py:332-346 | a real location change through the edit form records nothing as written, where the comparison intended records one entry |
| Inventory.MoveErrors | inventaris/views.py:396-403 | the target is in error iff it is not an active location other than the current one; the move time iff it is missing; the note iff it is empty |
| Inventory.MoveIsAudited | inventaris/views.py:411-414 | a move is audited as exactly one entry by the mover whose only change is the location, old to new |
| Inventory.ScheduleChoiceOf | inventaris/forms.py:145-151 | no schedule iff none is given; a schedule is chosen iff it is stored and its asset is stored and not deleted (the field's queryset), and the choice is that stored row; anything else is an invalid choice |
| Inventory.ServiceReading | inventaris/views.py:562-572 | one reading exactly for a usage schedule with a value: of the maintained asset, of the schedule's type, with that value, at the service time, by the user; otherwise none |
| Inventory.UntrackedServiceKeepsSchedules | inventaris/views.py:96-99 | a maintenance without a schedule, or with a condition or event schedule, changes no stored schedule |
| Inventory.Store.NextCode | inventaris/models.py:74-85 | the period's counter goes up by one (from 0 when absent), others are unchanged; the code is built from the new value; its serial was never issued and becomes the only newly issued one |
| Inventory.Store.StoreSavedNode | inventaris/models.py:48-57 | the location table becomes `SavedTable`, and the nodes stay shaped |
| Inventory.Store.CreateLocation | inventaris/models.py:48-57 | an unknown parent is rejected as an invalid form choice and changes nothing, the id allocator included; otherwise a fresh id is saved as `SavedTable` describes |
| Inventory.Store.UpdateLocation | inventaris/models.py:48-57 | an unknown node, or a parent outside the form's choices, is an error that changes nothing, and no other error occurs; otherwise only that node is re-derived |
| Inventory.Store.AssignCode | inventaris/models.py:148-151 | a set code is kept and the counters are untouched; an empty code with a date draws the next code of that period; without a date there is none (the ValueError) |
| Inventory.Store.SaveAsset | inventaris/models.py:147-152 | the failure cases, each exactly when it happens: an unknown row, a missing date, and a taken code or unknown location. The counter is consumed whenever a code is generated. On success the row is written with its code, and only an update is audited, against the stored pre-image |
| Inventory.Store.WriteAsset | inventaris/signals.py:26-60 | the row is written (an insert takes a fresh id); an update appends the audit diff against the row stored before the write; a creation appends nothing |
| Inventory.Store.ResponsibleSignal | inventaris/signals.py:63-80 | a pre action stashes the current ids and logs nothing; a post action logs stashed versus current ids |
| Inventory.Store.RemoveResponsible | inventaris/signals.py:63-80 | removing no users does nothing; otherwise the set shrinks and one entry logs the set before and after |
| Inventory.Store.AddResponsible | inventaris/signals.py:63-80 | adding no users does nothing; otherwise the set grows and one entry logs the set before and after |
| Inventory.Store.SetResponsible | inventaris/signals.py:63-80 | the stored set becomes exactly the chosen users, and the log grows by `ResponsibleEntries` |
| Inventory.Store.ResaveAsset | inventaris/models.py:147-152 | re-saving a stored asset keeps its code, writes the row and appends its audit diff |
| Inventory.Store.CreateAsset | inventaris/views.py:309-322 | a location outside the form's choices is rejected before the save and changes nothing, counters included. Otherwise the counter of the acquisition period is consumed, and a taken code is an integrity error that changes nothing else. Otherwise the new asset carries the generated code, its responsible users are exactly those chosen, one history entry records None to its location, and the only audit entries are those of the responsible users |
| Inventory.Store.InitialLinks | inventaris/views.py:314-320 | sets the new asset's responsible users and appends the first history entry |
| Inventory.Store.UpdateAsset | inventaris/views.py:332-346 | an unknown asset, or a location outside the form's choices, fails and changes nothing, and no other error occurs. Otherwise the edited row is stored with its code and the users are set. History is recorded iff the stored location differs from the submitted one. The log holds the field diff, then the responsible entries |
| Inventory.Store.MoveAsset | inventaris/views.py:405-423 | an unknown asset or an invalid form (target, move time, note) changes nothing; a stored asset with a valid form always moves: one audit entry records only the location, and a history entry records from, to, mover, note and the time given |
| Inventory.Store.DeleteAsset | inventaris/views.py:452-466 | unknown asset and missing reason fail, and no other error occurs apart from the one below. An already deleted asset is left alone. A second deletion record is an integrity error. Otherwise one deletion record is added, and the asset is marked removed and stamped with an audited save. The one-deletion invariant holds |
| Inventory.Store.RecordReading | inventaris/views.py:377-384 | a reading of an unknown asset fails and changes nothing; otherwise it is appended with the next id, and becomes the latest of its pair when no earlier reading of that pair is later |
| Inventory.Store.SubmitSchedule | inventaris/views.py:483-521 | an unknown schedule or a form with errors changes nothing; a known schedule with an error-free form is always stored. The cleaned, normalised schedule is stored: a create takes a fresh id and the user as creator; an update keeps the creator and the last service time. The result is well formed |
| Inventory.Store.AdvanceSchedule | inventaris/views.py:96-141 | the schedule table becomes `AfterService`: the chosen row advanced, the others untouched, all still well formed |
| Inventory.Store.CompleteMaintenance | inventaris/views.py:554-575 | a form with errors changes nothing. Otherwise, in order: the maintenance is stored; the asset takes the condition after it, with its audit entry; the service reading is appended; the chosen schedule is advanced against the readings as they then stand |
| Inventory.Store.ServiceAsset | inventaris/views.py:555-561 | the maintenance is appended and the asset's condition saved and audited |
| Inventory.Store.RecordServiceReading | inventaris/views.py:562-572 | the readings grow by exactly `ServiceReading` |
| Inventory.Store.CreateLoan | inventaris/views.py:654-663 | an unknown asset, or a second open loan of it, fails and changes nothing, the loan id allocator included, and no other error occurs (the borrower is not checked); otherwise the loan is stored, the asset becomes on loan (active if already returned) with an audited save, and the one-open-loan invariant holds |
| Inventory.Store.UpdateLoan | inventaris/views.py:673-682 | the same checks and the same closed set of errors, with the loan itself excluded; the loan keeps its creator; a returned loan makes the asset active, otherwise its status is kept; the asset save is audited |

## Left out

- Utils.AddPeriod: years are unbounded. Past year 9999 Python raises OverflowError for the daily and weekly steps (`timedelta` addition) and ValueError for the monthly and yearly steps (the `date` constructor). The model reproduces neither.
- Engine.WarningMargin: the float product of the interval and 0.1 is modelled as integer division by ten.
- Engine.Advanced: `performed_at.date()` is an input (`Instant.date`), so time-zone conversion is not modelled.
- Transactions and row locking in `next_code`: each operation is one atomic sequential step, so concurrent allocation is not modelled.
- Inventory.Store.CreateAsset: when the insert fails on a taken code, the counter `next_code` used up stays used up. The model keeps this, but database rollback in general is not modelled.
- The thread-local current user is an explicit `CurrentUser` parameter. The views always pass the authenticated request user.
- Audit, history, deletion and reading timestamps are `int` parameters (`now`), not clocks. Audit entries carry no timestamp.
- Django's m2m machinery is reduced to the `set()` behaviour: remove the dropped users, then add the new ones, each step only when it has users. The through-table rows and their `assigned_at` are not modelled.
- User existence is not checked anywhere: there is no user table. This covers responsible users, actors and loan borrowers.
- Forms.MaintenanceFormErrors: the choice checks on `type`, `condition_before` and `condition_after`, and the required `performed_at`, are fixed by the input types (enums and a non-optional `Instant`), so those errors cannot be written down.
- Inventory.Store.CreateLoan and Inventory.Store.UpdateLoan: LoanForm's borrower choice check is not modelled (see the line on user existence). The required `borrowed_at` and `planned_return_at` are fixed by the non-optional input types. So "no other error occurs" holds only for inputs of these types with an existing borrower.
- AssetForm's choice validation is reduced to the location foreign key and the required acquisition date. Category, user and status choices are taken as valid.
- Forms.ScheduleFormErrors: the choice checks on trigger type, status and usage reading type, and the minimum-0 checks on usage interval, last usage value and next due usage, are fixed by the input types (enums and `nat`), so those errors cannot be written down.
- Inventory.Store.MoveAsset, Inventory.Store.DeleteAsset and Forms.ScheduleFormErrors: Django strips whitespace from the required note, reason and plan name. The model treats only the empty string as missing.
- Signals.ResponsibleChanges and Inventory.ResponsibleEntries: the logged id lists are sets, so their query order is not modelled. Duplicates cannot occur, because (asset, user) is unique in AssetResponsibility.
- Inventory.Store.RecordReading: an unknown asset returns NotFound. The view's `Asset.objects.get` raises DoesNotExist, a server error.
- Inventory.Store.CreateLoan and Inventory.Store.UpdateLoan: the form's validation of the one-open-loan constraint and the database's rejection are collapsed into one IntegrityError.
- Inventory.Store.UpdateLoan: the asset saved is the one named in the form. A loan moved to another asset leaves the first asset's status as it was.
- The cost decimal and `max_length` limits, including the 255-character location path, are not modelled.
- MaintenanceUpdateView is not modelled: it does not advance schedules.
- Category and photo views are not modelled: they are plain record-keeping.
- Report exports, QR labels, list/report query filters, role checks, URL routing, admin, management commands, templates and redirects are not modelled: they are I/O or configuration.
- Location cycles are not modelled: nothing in the code prevents a node from being saved under its own descendant. `Inventory.ResaveIsIdempotent` assumes a node is not its own parent.

## Findings

| source | as written | input that shows it | evidently intended | confidence | as-written member | corrected member |
|---|---|---|---|---|---|---|
| inventaris/views.py:332-346 | `previous_location` is read from `self.object` after form validation has copied the submitted location into that same instance, so the comparison is always equal | edit an asset stored at location 1 and submit location 2: no location-history entry is recorded | record one history entry from the stored location to the submitted one when they differ | not executed | Inventory.UpdateViewLosesHistory | Inventory.Store.UpdateAsset |
