/**
 * The records and choice lists of inventaris/models.py, the per-period code
 * counters of `AssetCodeCounter`, and the materialised path and level that
 * `Location.save` derives from a node's parent.
 */
module Models {
  import opened Calendar
  import opened Codes

  datatype Option<T> = None | Some(value: T)

  /** Python truthiness of a nullable integer field: None and 0 are both false. */
  predicate Truthy(o: Option<nat>) {
    o.Some? && o.value != 0
  }

  /** Asset.STATUS_CHOICES: AKTIF, DIPINJAM, RUSAK, DIHAPUS. */
  datatype AssetStatus = Active | OnLoan | Damaged | Removed

  /** Asset.CONDITION_CHOICES: BAIK, RUSAK_RINGAN, RUSAK_BERAT. */
  datatype Condition = Good | LightDamage | HeavyDamage

  /** MaintenanceSchedule.TRIGGER_CHOICES: TIME, USAGE, CONDITION, EVENT. */
  datatype TriggerType = TimeTrigger | UsageTrigger | ConditionTrigger | EventTrigger

  /**
   * MaintenanceSchedule.PERIOD_CHOICES: HARIAN, MINGGUAN, BULANAN, TAHUNAN.
   * Any other stored string is `Unrecognised`; `add_period` leaves the date
   * unchanged for it. Periods are read from their stored strings by
   * `PeriodFromCode`, so an `Unrecognised` code is never one of the four
   * choice strings (`WellEncoded`).
   */
  datatype Period = Daily | Weekly | Monthly | Yearly | Unrecognised(code: string)

  predicate IsChoice(p: Period) {
    !p.Unrecognised?
  }

  /** The string a period is stored as. */
  function PeriodCode(p: Period): string {
    match p
    case Daily => "HARIAN"
    case Weekly => "MINGGUAN"
    case Monthly => "BULANAN"
    case Yearly => "TAHUNAN"
    case Unrecognised(code) => code
  }

  /** A period whose `Unrecognised` code is not a second spelling of a choice. */
  predicate WellEncoded(p: Period) {
    p.Unrecognised? ==> p.code != "HARIAN" && p.code != "MINGGUAN" && p.code != "BULANAN" && p.code != "TAHUNAN"
  }

  /** The period a stored string denotes: the four choice strings, anything else unrecognised. */
  function PeriodFromCode(code: string): (p: Period)
    ensures WellEncoded(p)
    ensures PeriodCode(p) == code
  {
    if code == "HARIAN" then Daily
    else if code == "MINGGUAN" then Weekly
    else if code == "BULANAN" then Monthly
    else if code == "TAHUNAN" then Yearly
    else Unrecognised(code)
  }

  /** Storing a well-encoded period and reading it back gives the same period. */
  lemma PeriodCodeRoundTrip(p: Period)
    requires WellEncoded(p)
    ensures PeriodFromCode(PeriodCode(p)) == p
  {
  }

  /** Python truthiness of the nullable `period` column: None and the empty string are false. */
  predicate PeriodSet(p: Option<Period>) {
    p.Some? && p.value != Unrecognised("")
  }

  /** MaintenanceSchedule.STATUS_CHOICES: TEPAT_WAKTU, TERLAMBAT. */
  datatype ScheduleStatus = OnTime | Late

  /** AssetMeterReading.TYPE_CHOICES: KM, HOUR, CYCLE. */
  datatype ReadingType = Km | Hour | Cycle

  /** Maintenance.TYPE_CHOICES: RUTIN, INSIDENTAL. */
  datatype MaintenanceKind = Routine | Incidental

  /** A point in time (a DateTimeField) together with its local calendar date. */
  datatype Instant = Instant(ts: int, date: CalendarDate)

  /** The user the request runs as: none outside a request, the anonymous user, or a logged-in user. */
  datatype CurrentUser = NoUser | Anonymous | Authenticated(id: nat)

  datatype Location = Location(name: string, parent: Option<nat>, path: string, level: nat, isActive: bool)

  /** An Asset row; its responsible users live in their own table. */
  datatype Asset = Asset(
    code: string,
    name: string,
    category: nat,
    acquiredDate: Option<CalendarDate>,
    status: AssetStatus,
    condition: Condition,
    location: nat,
    createdBy: Option<nat>,
    updatedBy: Option<nat>,
    deletedAt: Option<int>)

  datatype HistoryEntry = HistoryEntry(asset: nat, from: Option<nat>, to: nat, movedBy: nat, note: string, movedAt: int)

  datatype Deletion = Deletion(asset: nat, reason: string, deletedBy: nat, deletedAt: int)

  datatype Reading = Reading(id: nat, asset: nat, kind: ReadingType, value: nat, at: int, note: string, recordedBy: nat)

  datatype Schedule = Schedule(
    asset: nat,
    planName: string,
    trigger: TriggerType,
    period: Option<Period>,
    nextDueDate: Option<CalendarDate>,
    usageInterval: Option<nat>,
    usageReadingType: Option<ReadingType>,
    lastUsageValue: Option<nat>,
    nextDueUsage: Option<nat>,
    lastDoneAt: Option<int>,
    status: ScheduleStatus,
    createdBy: nat)

  datatype Maintenance = Maintenance(
    asset: nat,
    kind: MaintenanceKind,
    schedule: Option<nat>,
    conditionBefore: Condition,
    conditionAfter: Condition,
    performedAt: Instant,
    note: string,
    createdBy: nat)

  datatype Loan = Loan(asset: nat, borrower: nat, borrowedAt: int, plannedReturn: CalendarDate, returnedAt: Option<int>, note: string, createdBy: nat)

  /** The unique (year, month) key of an AssetCodeCounter row. */
  datatype CounterKey = CounterKey(year: int, month: int)

  /** A code's parts: the period and the counter value it was issued with. */
  datatype CodeKey = CodeKey(year: int, month: int, serial: int)

  /** The stored counter of a period; a row that does not exist yet counts as 0. */
  function CounterOf(counters: map<CounterKey, nat>, k: CounterKey): nat {
    if k in counters then counters[k] else 0
  }

  /** Every code the counters have handed out: serials 1..counter of each period. */
  ghost function Issued(counters: map<CounterKey, nat>): set<CodeKey> {
    set k, s | k in counters && 1 <= s <= counters[k] :: CodeKey(k.year, k.month, s)
  }

  /**
   * One increment of a period's counter hands out exactly one new serial,
   * counter + 1, which no earlier call handed out.
   */
  lemma IssuedAfterIncrement(counters: map<CounterKey, nat>, k: CounterKey)
    ensures var issuedNow := CodeKey(k.year, k.month, CounterOf(counters, k) + 1);
      issuedNow !in Issued(counters)
      && Issued(counters[k := CounterOf(counters, k) + 1]) == Issued(counters) + {issuedNow}
  {
    var n := CounterOf(counters, k);
    var after := counters[k := n + 1];
    var issuedNow := CodeKey(k.year, k.month, n + 1);
    forall c | c in Issued(after) ensures c in Issued(counters) + {issuedNow} {
      var k', s :| k' in after && 1 <= s <= after[k'] && CodeKey(k'.year, k'.month, s) == c;
      if k' != k || s <= n {
        assert k' in counters && s <= counters[k'];
      }
    }
    forall c | c in Issued(counters) + {issuedNow} ensures c in Issued(after) {
      if c != issuedNow {
        var k', s :| k' in counters && 1 <= s <= counters[k'] && CodeKey(k'.year, k'.month, s) == c;
        assert k' in after && s <= after[k'];
      }
    }
  }

  // ---- Location path and level ----

  /** Number of '/' separators in a path. */
  function SlashCount(s: string): nat
    decreases |s|
  {
    if s == [] then 0 else SlashCount(s[..|s| - 1]) + (if s[|s| - 1] == '/' then 1 else 0)
  }

  /** The text after the last '/', the whole string when it has none. */
  function LastSegment(s: string): string
    decreases |s|
  {
    if s == [] || s[|s| - 1] == '/' then [] else LastSegment(s[..|s| - 1]) + [s[|s| - 1]]
  }

  /** What every stored node satisfies: one separator per level, and the path ends in its own id. */
  predicate Shaped(id: nat, node: Location) {
    SlashCount(node.path) == node.level && LastSegment(node.path) == Digits(id)
  }

  /** The path `Location.save` derives (models.py:51): the parent's path, a '/', and the id; a root's path is its id. */
  function PathFor(parent: Option<Location>, id: nat): (path: string)
    ensures LastSegment(path) == Digits(id)
    ensures SlashCount(path) == if parent.Some? then SlashCount(parent.value.path) + 1 else 0
    ensures parent.Some? ==> parent.value.path + "/" <= path
  {
    var own := Digits(id);
    DigitSegment(own);
    if parent.Some? then
      PathExtension(parent.value.path, own);
      parent.value.path + "/" + own
    else
      LastSegmentPlain(own);
      own
  }

  /** The level `Location.save` derives (models.py:52): one below the parent, 0 for a root. */
  function LevelFor(parent: Option<Location>): nat {
    if parent.Some? then parent.value.level + 1 else 0
  }

  predicate NoSlash(s: string) {
    forall i :: 0 <= i < |s| ==> s[i] != '/'
  }

  lemma {:induction false} DigitSegment(s: string)
    requires AllDigits(s)
    ensures NoSlash(s) && SlashCount(s) == 0
    decreases |s|
  {
    if s != [] {
      DigitSegment(s[..|s| - 1]);
    }
  }

  lemma {:induction false} LastSegmentPlain(s: string)
    requires NoSlash(s)
    ensures LastSegment(s) == s
    decreases |s|
  {
    if s != [] {
      LastSegmentPlain(s[..|s| - 1]);
      assert s[..|s| - 1] + [s[|s| - 1]] == s;
    }
  }

  /** Appending "/" and a slash-free segment adds one separator and makes that segment the last. */
  lemma {:induction false} PathExtension(prefix: string, seg: string)
    requires NoSlash(seg) && SlashCount(seg) == 0
    ensures SlashCount(prefix + "/" + seg) == SlashCount(prefix) + 1
    ensures LastSegment(prefix + "/" + seg) == seg
    decreases |seg|
  {
    var s := prefix + "/" + seg;
    if seg == [] {
      assert s[..|s| - 1] == prefix;
    } else {
      var init := seg[..|seg| - 1];
      assert s[..|s| - 1] == prefix + "/" + init;
      assert SlashCount(init) == 0 by { DigitFreeInit(seg); }
      PathExtension(prefix, init);
      assert init + [seg[|seg| - 1]] == seg;
    }
  }

  lemma DigitFreeInit(seg: string)
    requires seg != [] && NoSlash(seg) && SlashCount(seg) == 0
    ensures SlashCount(seg[..|seg| - 1]) == 0
  {
  }

  /** A node saved under a shaped parent (or as a root) is shaped itself. */
  lemma RecomputedIsShaped(parent: Option<Location>, id: nat, node: Location)
    requires parent.Some? ==> SlashCount(parent.value.path) == parent.value.level
    ensures Shaped(id, node.(path := PathFor(parent, id), level := LevelFor(parent)))
  {
  }
}
