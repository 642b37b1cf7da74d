/** Civil dates from a day count, in the machine integers the program uses.

  `CivilFromDays` is written over 64-bit newtypes, so Dafny checks every
  intermediate value for overflow. What it means is said by three independent
  definitions: the calendar rules (`Leap`, `DaysInMonth`, `NextDay`), the day
  number of a date (`DayNumber`) and stepping from the epoch one day at a time
  (`Walk`). */
module Calendar {

  newtype i64 = x: int | -0x8000_0000_0000_0000 <= x < 0x8000_0000_0000_0000
  newtype u64 = x: int | 0 <= x < 0x1_0000_0000_0000_0000

  const I64_MAX: i64 := 0x7FFF_FFFF_FFFF_FFFF
  const MAX_CIVIL_DAYS: i64 := I64_MAX / 8 - 719_468

  datatype Date = Date(year: int, month: int, day: int)

  datatype DateTime = DateTime(date: Date, hour: int, minute: int, second: int, millis: int)

  /** Signed machine division, which truncates toward zero. */
  function Quotient(a: i64, b: i64): i64
    requires b > 0 && a > -I64_MAX
  {
    if a >= 0 then a / b else -((-a) / b)
  }

  function Clamp(z: i64, low: i64, high: i64): i64
    requires low <= high
  {
    if z < low then low else if z > high then high else z
  }

  /** The 400 year era a shifted day count falls in. */
  function EraOf(z: i64): i64
    requires -MAX_CIVIL_DAYS + 719_468 <= z <= MAX_CIVIL_DAYS + 719_468
  {
    Quotient(if z >= 0 then z else z - 146_096, 146_097)
  }

  function CivilFromDays(days: i64): Date {
    var z := Clamp(days, -MAX_CIVIL_DAYS, MAX_CIVIL_DAYS) + 719_468;
    var era := EraOf(z);
    EraBounds(z);
    DateInEra((z - era * 146_097) as u64, era)
  }

  /** The date of day `doe` of a 400 year era that starts on a first of March. */
  function DateInEra(doe: u64, era: i64): Date
    requires doe <= 146_096 && -0x1_0000_0000_0000 <= era <= 0x1_0000_0000_0000
  {
    var yoe := (doe - doe / 1460 + doe / 36_524 - doe / 146_096) / 365;
    var y := yoe as i64 + era * 400;
    YearRange(doe, yoe);
    var doy := doe - (365 * yoe + yoe / 4 - yoe / 100);
    var mp := (5 * doy + 2) / 153;
    var d := doy - (153 * mp + 2) / 5 + 1;
    var m := if mp < 10 then mp + 3 else mp - 9;
    Date((if m <= 2 then y + 1 else y) as int, m as int, d as int)
  }

  function FromUnixMillis(millis: i64): DateTime {
    var totalSecs := millis / 1000;
    var ms := millis % 1000;
    var days := totalSecs / 86_400;
    var secsOfDay := totalSecs % 86_400;
    DateTime(CivilFromDays(days),
             (secsOfDay / 3600) as int,
             (secsOfDay % 3600 / 60) as int,
             (secsOfDay % 60) as int,
             ms as int)
  }

  // ---- The calendar rules ----

  predicate Leap(y: int) {
    y % 4 == 0 && (y % 100 != 0 || y % 400 == 0)
  }

  function DaysInMonth(y: int, m: int): int {
    if m == 2 then (if Leap(y) then 29 else 28)
    else if m == 4 || m == 6 || m == 9 || m == 11 then 30
    else 31
  }

  predicate Valid(d: Date) {
    1 <= d.month <= 12 && 1 <= d.day <= DaysInMonth(d.year, d.month)
  }

  function NextDay(d: Date): Date {
    if d.day < DaysInMonth(d.year, d.month) then d.(day := d.day + 1)
    else if d.month < 12 then Date(d.year, d.month + 1, 1)
    else Date(d.year + 1, 1, 1)
  }

  function PreviousDay(d: Date): Date {
    if d.day > 1 then d.(day := d.day - 1)
    else if d.month > 1 then Date(d.year, d.month - 1, DaysInMonth(d.year, d.month - 1))
    else Date(d.year - 1, 12, 31)
  }

  const EPOCH := Date(1970, 1, 1)

  /** The date reached from the epoch by stepping one day at a time. */
  function Walk(n: int): Date
    decreases if n < 0 then -n else n
  {
    if n == 0 then EPOCH
    else if n > 0 then NextDay(Walk(n - 1))
    else PreviousDay(Walk(n + 1))
  }

  predicate Before(a: Date, b: Date) {
    a.year < b.year ||
    (a.year == b.year && (a.month < b.month || (a.month == b.month && a.day < b.day)))
  }

  predicate TimeBefore(a: DateTime, b: DateTime) {
    Before(a.date, b.date) ||
    (a.date == b.date && (a.hour < b.hour ||
    (a.hour == b.hour && (a.minute < b.minute ||
    (a.minute == b.minute && (a.second < b.second ||
    (a.second == b.second && a.millis < b.millis)))))))
  }

  // ---- Day numbers ----

  /** Days from 0000-03-01 to the first of March of year `y`. */
  function MarchFirst(y: int): int {
    365 * y + y / 4 - y / 100 + y / 400
  }

  /** The year a date belongs to when years start in March. */
  function MarchYear(d: Date): int {
    if d.month <= 2 then d.year - 1 else d.year
  }

  /** Months since March, 0 to 11. */
  function MarchMonth(d: Date): int {
    if d.month <= 2 then d.month + 9 else d.month - 3
  }

  function MonthStart(mp: int): int {
    (153 * mp + 2) / 5
  }

  function DayNumber(d: Date): int {
    MarchFirst(MarchYear(d)) + MonthStart(MarchMonth(d)) + d.day - 1 - 719_468
  }

  lemma MarchYearLength(y: int)
    ensures MarchFirst(y + 1) - MarchFirst(y) == if Leap(y + 1) then 366 else 365
  {
    assert (y + 1) / 4 - y / 4 == if (y + 1) % 4 == 0 then 1 else 0;
    assert (y + 1) / 100 - y / 100 == if (y + 1) % 100 == 0 then 1 else 0;
    assert (y + 1) / 400 - y / 400 == if (y + 1) % 400 == 0 then 1 else 0;
    assert (y + 1) % 400 == 0 ==> (y + 1) % 100 == 0;
    assert (y + 1) % 100 == 0 ==> (y + 1) % 4 == 0;
  }

  lemma NextDayNumber(d: Date)
    requires Valid(d)
    ensures Valid(NextDay(d)) && DayNumber(NextDay(d)) == DayNumber(d) + 1
  {
    if d.day == DaysInMonth(d.year, d.month) {
      if d.month == 2 {
        MarchYearLength(d.year - 1);
      } else {
        MonthEnds(d.year, d.month);
      }
    }
  }

  /** Outside February the last day of a month is followed by the next month's start. */
  lemma MonthEnds(y: int, m: int)
    requires 1 <= m <= 12 && m != 2
    ensures var last := Date(y, m, DaysInMonth(y, m));
            && MarchYear(NextDay(last)) == MarchYear(last)
            && MonthStart(MarchMonth(NextDay(last))) == MonthStart(MarchMonth(last)) + last.day
  {
  }

  lemma PreviousDayInvertsNext(d: Date)
    requires Valid(d)
    ensures Valid(PreviousDay(d)) && NextDay(PreviousDay(d)) == d
    ensures PreviousDay(NextDay(d)) == d
  {
  }

  lemma PreviousDayNumber(d: Date)
    requires Valid(d)
    ensures Valid(PreviousDay(d)) && DayNumber(PreviousDay(d)) == DayNumber(d) - 1
  {
    PreviousDayInvertsNext(d);
    NextDayNumber(PreviousDay(d));
  }

  lemma {:induction false} MarchFirstMonotonic(a: int, b: int)
    requires a <= b
    ensures MarchFirst(a) + 365 * (b - a) <= MarchFirst(b)
    decreases b - a
  {
    if a < b {
      MarchFirstMonotonic(a, b - 1);
      MarchYearLength(b - 1);
    }
  }

  lemma DayOfMarchYear(d: Date)
    requires Valid(d)
    ensures 0 <= MonthStart(MarchMonth(d)) + d.day - 1
    ensures MonthStart(MarchMonth(d)) + d.day - 1 < MarchFirst(MarchYear(d) + 1) - MarchFirst(MarchYear(d))
  {
    MarchYearLength(MarchYear(d));
  }

  lemma DayNumberMonotonic(a: Date, b: Date)
    requires Valid(a) && Valid(b) && Before(a, b)
    ensures DayNumber(a) < DayNumber(b)
  {
    if MarchYear(a) < MarchYear(b) {
      DayOfMarchYear(a);
      DayOfMarchYear(b);
      MarchFirstMonotonic(MarchYear(a) + 1, MarchYear(b));
    } else {
      assert MarchYear(a) == MarchYear(b);
      DayWithinMarchYear(a, b);
    }
  }

  lemma DayWithinMarchYear(a: Date, b: Date)
    requires Valid(a) && Valid(b) && Before(a, b) && MarchYear(a) == MarchYear(b)
    ensures MonthStart(MarchMonth(a)) + a.day < MonthStart(MarchMonth(b)) + b.day
  {
  }

  lemma DayNumberInjective(a: Date, b: Date)
    requires Valid(a) && Valid(b) && DayNumber(a) == DayNumber(b)
    ensures a == b
  {
    if Before(a, b) {
      DayNumberMonotonic(a, b);
    } else if Before(b, a) {
      DayNumberMonotonic(b, a);
    }
  }

  // ---- The era arithmetic ----

  /** The year of an era found by the division is the one whose days hold `doe`. */
  lemma YearOfEra(doe: int, yoe: int)
    requires 0 <= doe <= 146_096
    requires yoe == (doe - doe / 1460 + doe / 36_524 - doe / 146_096) / 365
    ensures 0 <= yoe <= 399
    ensures 365 * yoe + yoe / 4 - yoe / 100 <= doe
    ensures doe < MarchFirst(yoe + 1)
  {
    // doe is day t of four-year cycle q of century c
    var c := if doe == 146_096 then 3 else doe / 36_524;
    var r := doe - 36_524 * c;
    var q := if r == 36_524 then 24 else r / 1461;
    var t := r - 1461 * q;
    assert 0 <= c <= 3 && 0 <= q <= 24 && 0 <= t <= 1460;
    FourYearCycle(doe, c, q, t);
    YearInCycle(c, q, if t == 1460 then 3 else t / 365, t);
  }

  lemma YearInCycle(c: int, q: int, a: int, t: int)
    requires 0 <= c <= 3 && 0 <= q <= 24 && 0 <= t <= 1460
    requires a == if t == 1460 then 3 else t / 365
    requires c < 3 ==> 1461 * q + t < 36_524
    ensures var yoe := 100 * c + 4 * q + a;
            && 0 <= yoe <= 399
            && 365 * yoe + yoe / 4 - yoe / 100 <= 36_524 * c + 1461 * q + t < MarchFirst(yoe + 1)
  {
    var yoe := 100 * c + 4 * q + a;
    assert yoe / 4 == 25 * c + q && yoe / 100 == c;
    assert (yoe + 1) / 4 == 25 * c + q + (if a == 3 then 1 else 0);
    assert (yoe + 1) / 100 == c + (if a == 3 && q == 24 then 1 else 0);
  }

  lemma FourYearCycle(doe: int, c: int, q: int, t: int)
    requires 0 <= c <= 3 && 0 <= q <= 24 && 0 <= t <= 1460
    requires doe == 36_524 * c + 1461 * q + t <= 146_096
    requires c < 3 ==> 1461 * q + t < 36_524
    ensures (doe - doe / 1460 + doe / 36_524 - doe / 146_096) / 365
         == 100 * c + 4 * q + if t == 1460 then 3 else t / 365
  {
    var over := 24 * c + q + t;
    assert doe / 1460 == 25 * c + q + (if over >= 1460 then 1 else 0);
    var a := if t == 1460 then 3 else t / 365;
    if doe == 146_096 {
      assert c == 3 && q == 24 && t == 1460;
    } else {
      assert doe / 36_524 == c && doe / 146_096 == 0;
      var n := doe - doe / 1460 + doe / 36_524 - doe / 146_096;
      assert n == 365 * (100 * c + 4 * q) + t - (if over >= 1460 then 1 else 0);
    }
  }

  lemma YearRange(doe: u64, yoe: u64)
    requires 0 <= doe <= 146_096
    requires yoe == (doe - doe / 1460 + doe / 36_524 - doe / 146_096) / 365
    ensures yoe <= 399
    ensures yoe / 100 <= 365 * yoe + yoe / 4
    ensures 365 * yoe + yoe / 4 - yoe / 100 <= doe <= 365 * yoe + yoe / 4 - yoe / 100 + 365
  {
    YearOfEra(doe as int, yoe as int);
    MarchYearLength(yoe as int);
  }

  // ---- Main results ----

  /** Every day number in range gives a valid date with that day number. */
  lemma CivilIsExact(z: i64)
    requires -MAX_CIVIL_DAYS <= z <= MAX_CIVIL_DAYS
    ensures Valid(CivilFromDays(z)) && DayNumber(CivilFromDays(z)) == z as int
  {
    var era, doe := CivilSplits(z);
    CivilInEra(doe, era);
  }

  lemma CivilSplits(z: i64) returns (era: i64, doe: u64)
    requires -MAX_CIVIL_DAYS <= z <= MAX_CIVIL_DAYS
    ensures doe <= 146_096 && -0x1_0000_0000_0000 <= era <= 0x1_0000_0000_0000
    ensures era as int * 146_097 + doe as int == z as int + 719_468
    ensures CivilFromDays(z) == DateInEra(doe, era)
  {
    era := EraOf(z + 719_468);
    EraBounds(z + 719_468);
    doe := (z + 719_468 - era * 146_097) as u64;
  }

  lemma EraBounds(s: i64)
    requires -MAX_CIVIL_DAYS + 719_468 <= s <= MAX_CIVIL_DAYS + 719_468
    ensures -0x1_0000_0000_0000 <= EraOf(s) <= 0x1_0000_0000_0000
    ensures 0 <= s as int - EraOf(s) as int * 146_097 <= 146_096
  {
  }

  lemma CivilInEra(doe: u64, era: i64)
    requires doe <= 146_096 && -0x1_0000_0000_0000 <= era <= 0x1_0000_0000_0000
    ensures Valid(DateInEra(doe, era))
    ensures DayNumber(DateInEra(doe, era)) == era as int * 146_097 + doe as int - 719_468
  {
    var yoe := (doe - doe / 1460 + doe / 36_524 - doe / 146_096) / 365;
    YearOfEra(doe as int, yoe as int);
    CivilOfEra(era as int, doe as int, yoe as int, DateInEra(doe, era));
  }

  lemma CivilOfEra(era: int, doe: int, yoe: int, d: Date)
    requires 0 <= doe <= 146_096 && 0 <= yoe <= 399
    requires 365 * yoe + yoe / 4 - yoe / 100 <= doe < MarchFirst(yoe + 1)
    requires var doy := doe - (365 * yoe + yoe / 4 - yoe / 100);
             var mp := (5 * doy + 2) / 153;
             var m := if mp < 10 then mp + 3 else mp - 9;
             var y := yoe + era * 400;
             d == Date(if m <= 2 then y + 1 else y, m, doy - MonthStart(mp) + 1)
    ensures Valid(d) && DayNumber(d) == era * 146_097 + doe - 719_468
  {
    var y := yoe + era * 400;
    var doy := doe - (365 * yoe + yoe / 4 - yoe / 100);
    EraShift(yoe, era);
    MarchYearLength(yoe);
    assert Leap(y + 1) == Leap(yoe + 1);
    MonthOfDay(doy, Leap(y + 1));
    assert MarchYear(d) == y;
    assert yoe / 400 == 0;
  }

  lemma EraShift(yoe: int, era: int)
    ensures MarchFirst(yoe + era * 400) == MarchFirst(yoe) + era * 146_097
    ensures Leap(yoe + era * 400 + 1) == Leap(yoe + 1)
  {
    Shift(yoe, era);
    Shift(yoe + 1, era);
  }

  lemma Shift(n: int, era: int)
    ensures (n + era * 400) / 4 == n / 4 + era * 100 && (n + era * 400) % 4 == n % 4
    ensures (n + era * 400) / 100 == n / 100 + era * 4 && (n + era * 400) % 100 == n % 100
    ensures (n + era * 400) / 400 == n / 400 + era && (n + era * 400) % 400 == n % 400
  {
  }

  /** The month found by the division is the one whose days hold `doy`. */
  lemma MonthOfDay(doy: int, leap: bool)
    requires 0 <= doy <= if leap then 365 else 364
    ensures var mp := (5 * doy + 2) / 153;
            && 0 <= mp <= 11
            && MonthStart(mp) <= doy
            && (mp < 11 ==> doy < MonthStart(mp + 1))
  {
  }

  /** Every valid date in range is reached, from the day that bears its number and no other. */
  lemma CivilIsOnto(d: Date, z: i64)
    requires Valid(d) && -MAX_CIVIL_DAYS <= z <= MAX_CIVIL_DAYS
    ensures CivilFromDays(z) == d <==> DayNumber(d) == z as int
  {
    CivilIsExact(z);
    if DayNumber(d) == z as int {
      DayNumberInjective(CivilFromDays(z), d);
    }
  }

  /** The division algorithm agrees with stepping one day at a time. */
  lemma CivilIsWalk(z: i64)
    requires -MAX_CIVIL_DAYS <= z <= MAX_CIVIL_DAYS
    ensures CivilFromDays(z) == Walk(z as int)
  {
    WalkIsExact(z as int);
    CivilIsOnto(Walk(z as int), z);
  }

  lemma {:induction false} WalkIsExact(n: int)
    ensures Valid(Walk(n)) && DayNumber(Walk(n)) == n
    decreases if n < 0 then -n else n
  {
    if n > 0 {
      WalkIsExact(n - 1);
      NextDayNumber(Walk(n - 1));
    } else if n < 0 {
      WalkIsExact(n + 1);
      PreviousDayNumber(Walk(n + 1));
    }
  }

  lemma CivilStepsByOneDay(z: i64)
    requires -MAX_CIVIL_DAYS <= z < MAX_CIVIL_DAYS
    ensures CivilFromDays(z + 1) == NextDay(CivilFromDays(z))
  {
    CivilIsWalk(z);
    CivilIsWalk(z + 1);
    WalkSteps(z as int);
  }

  lemma WalkSteps(n: int)
    ensures Walk(n + 1) == NextDay(Walk(n))
  {
    if n < 0 {
      WalkIsExact(n + 1);
      PreviousDayInvertsNext(Walk(n + 1));
    }
  }

  /** Later days give later dates, so no two days share one. */
  lemma CivilIsIncreasing(a: i64, b: i64)
    requires -MAX_CIVIL_DAYS <= a <= MAX_CIVIL_DAYS && -MAX_CIVIL_DAYS <= b <= MAX_CIVIL_DAYS
    ensures a < b <==> Before(CivilFromDays(a), CivilFromDays(b))
  {
    CivilIsExact(a);
    CivilIsExact(b);
    var x, y := CivilFromDays(a), CivilFromDays(b);
    if Before(x, y) {
      DayNumberMonotonic(x, y);
    } else if Before(y, x) {
      DayNumberMonotonic(y, x);
    }
  }

  /** Milliseconds since the epoch of a broken-down time. */
  function ToMillis(t: DateTime): int {
    (((DayNumber(t.date) * 24 + t.hour) * 60 + t.minute) * 60 + t.second) * 1000 + t.millis
  }

  predicate ValidTime(t: DateTime) {
    Valid(t.date) && 0 <= t.hour < 24 && 0 <= t.minute < 60 && 0 <= t.second < 60 && 0 <= t.millis < 1000
  }

  /** No timestamp reaches the clamp, and each is recovered from its fields. */
  lemma MillisRoundTrip(millis: i64)
    ensures -MAX_CIVIL_DAYS < millis / 1000 / 86_400 < MAX_CIVIL_DAYS
    ensures ValidTime(FromUnixMillis(millis)) && ToMillis(FromUnixMillis(millis)) == millis as int
  {
    var secs := millis / 1000;
    CivilIsExact(secs / 86_400);
    TimeOfDay((secs % 86_400) as int);
  }

  lemma TimeOfDay(s: int)
    requires 0 <= s < 86_400
    ensures 0 <= s / 3600 < 24 && 0 <= s % 3600 / 60 < 60
    ensures (s / 3600 * 60 + s % 3600 / 60) * 60 + s % 60 == s
  {
  }

  lemma MillisIncreasing(a: i64, b: i64)
    ensures a < b <==> TimeBefore(FromUnixMillis(a), FromUnixMillis(b))
  {
    MillisRoundTrip(a);
    MillisRoundTrip(b);
    var x, y := FromUnixMillis(a), FromUnixMillis(b);
    if TimeBefore(x, y) {
      LaterMoreMillis(x, y);
    } else if TimeBefore(y, x) {
      LaterMoreMillis(y, x);
    }
  }

  lemma LaterMoreMillis(x: DateTime, y: DateTime)
    requires ValidTime(x) && ValidTime(y) && TimeBefore(x, y)
    ensures ToMillis(x) < ToMillis(y)
  {
    if Before(x.date, y.date) {
      DayNumberMonotonic(x.date, y.date);
    }
  }
}
