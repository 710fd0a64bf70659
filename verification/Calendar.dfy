/** Calendar arithmetic on ISO dates through UTC day numbers.

    Day numbers and the date of a day follow section 21.4.1 of ECMA-262 (Day, DayFromYear, YearFromTime,
    MakeDay, the Date.UTC rule for years 0 to 99, and the ISO string format). */
module Calendar {
  import opened Options
  import opened Text

  datatype Date = Date(year: int, month: nat, day: nat)

  predicate Leap(y: int) {
    y % 4 == 0 && (y % 100 != 0 || y % 400 == 0)
  }

  function DaysInMonth(y: int, m: int): int {
    if m == 2 then (if Leap(y) then 29 else 28)
    else if m == 4 || m == 6 || m == 9 || m == 11 then 30
    else 31
  }

  predicate Valid(d: Date) {
    1 <= d.month <= 12 && 1 <= d.day <= DaysInMonth(d.year, d.month)
  }

  function YearDays(y: int): int {
    if Leap(y) then 366 else 365
  }

  /** The day number of 1 January, counting whole years from 1 January 1970, which is day 0. */
  function YearStart(y: int): int
    decreases if y < 1970 then 1970 - y else y - 1970
  {
    if y == 1970 then 0
    else if y > 1970 then YearStart(y - 1) + YearDays(y - 1)
    else YearStart(y + 1) - YearDays(y)
  }

  /** DayFromYear, the closed form the engine evaluates. */
  function DayFromYear(y: int): int {
    365 * (y - 1970) + (y - 1969) / 4 - (y - 1901) / 100 + (y - 1601) / 400
  }

  /** Days of the year before month `m`; month 13 stands for the year's end. */
  function DaysBefore(y: int, m: int): int
    requires 1 <= m <= 13
  {
    if m == 1 then 0 else DaysBefore(y, m - 1) + DaysInMonth(y, m - 1)
  }

  /** The day number of a calendar date. */
  function DayOf(d: Date): int
    requires 1 <= d.month <= 12
  {
    YearStart(d.year) + DaysBefore(d.year, d.month) + d.day - 1
  }

  /** `Date.UTC(y, m - 1, d)` in days, by the closed form: months carry into years, days into months, and
      a year from 0 to 99 is taken to be in the twentieth century. */
  function UtcDay(y: nat, m: nat, d: nat): int {
    var full := if y <= 99 then 1900 + y else y;
    var year := full + (m - 1) / 12;
    DayFromYear(year) + DaysBefore(year, (m - 1) % 12 + 1) + d - 1
  }

  // ── The order of days ─────────────────────────────────────────────────────

  lemma {:induction false} FourYears(y: int)
    ensures (y - 1968) / 4 == (y - 1969) / 4 + if y % 4 == 0 then 1 else 0
  {}

  lemma {:induction false} Century(y: int)
    ensures (y - 1900) / 100 == (y - 1901) / 100 + if y % 100 == 0 then 1 else 0
  {}

  lemma {:induction false} FourCenturies(y: int)
    ensures (y - 1600) / 400 == (y - 1601) / 400 + if y % 400 == 0 then 1 else 0
  {}

  lemma {:induction false} LeapByParts(y: int, four: int, hundred: int, fourHundred: int)
    requires four == if y % 4 == 0 then 1 else 0
    requires hundred == if y % 100 == 0 then 1 else 0
    requires fourHundred == if y % 400 == 0 then 1 else 0
    ensures YearDays(y) == 365 + four - hundred + fourHundred
  {
    assert y == 400 * (y / 400) + y % 400;
    assert y == 100 * (y / 100) + y % 100;
    assert y == 4 * (y / 4) + y % 4;
  }

  lemma {:induction false} DayFromYearStep(y: int)
    ensures DayFromYear(y + 1) == DayFromYear(y) + YearDays(y)
  {
    FourYears(y);
    Century(y);
    FourCenturies(y);
    LeapByParts(y, (y - 1968) / 4 - (y - 1969) / 4, (y - 1900) / 100 - (y - 1901) / 100,
                (y - 1600) / 400 - (y - 1601) / 400);
  }

  /** The closed form counts the years. */
  lemma {:induction false} YearStartFormula(y: int)
    ensures YearStart(y) == DayFromYear(y)
    decreases if y < 1970 then 1970 - y else y - 1970
  {
    if y > 1970 {
      YearStartFormula(y - 1);
      DayFromYearStep(y - 1);
    } else if y < 1970 {
      YearStartFormula(y + 1);
      DayFromYearStep(y);
    }
  }

  lemma {:induction false} YearLength(y: int)
    ensures YearStart(y + 1) == YearStart(y) + YearDays(y)
  {}

  lemma {:induction false} YearEnd(y: int)
    ensures DaysBefore(y, 13) == YearDays(y)
  {
    assert DaysBefore(y, 2) == 31;
    assert DaysBefore(y, 3) == 31 + DaysInMonth(y, 2);
    assert DaysBefore(y, 5) == DaysBefore(y, 3) + 61;
    assert DaysBefore(y, 7) == DaysBefore(y, 5) + 61;
    assert DaysBefore(y, 9) == DaysBefore(y, 7) + 62;
    assert DaysBefore(y, 11) == DaysBefore(y, 9) + 61;
    assert DaysBefore(y, 13) == DaysBefore(y, 11) + 61;
  }

  lemma {:induction false} MonthStep(y: int, m: int)
    requires 1 <= m <= 12
    ensures DaysBefore(y, m + 1) == DaysBefore(y, m) + DaysInMonth(y, m)
  {}

  lemma {:induction false} YearStartMonotone(a: int, b: int)
    requires a <= b
    ensures YearStart(a) + 365 * (b - a) <= YearStart(b)
    decreases b - a
  {
    if a < b {
      YearStartMonotone(a, b - 1);
      YearLength(b - 1);
    }
  }

  /** The months start after 0, 31, 59, 90 days and so on, a day later from March in a leap year. */
  lemma {:induction false} MonthsStart(y: int)
    ensures var leap := if y % 4 == 0 && (y % 100 != 0 || y % 400 == 0) then 1 else 0;
            && DaysBefore(y, 1) == 0 && DaysBefore(y, 2) == 31 && DaysBefore(y, 3) == 59 + leap
            && DaysBefore(y, 4) == 90 + leap && DaysBefore(y, 5) == 120 + leap && DaysBefore(y, 6) == 151 + leap
            && DaysBefore(y, 7) == 181 + leap && DaysBefore(y, 8) == 212 + leap && DaysBefore(y, 9) == 243 + leap
            && DaysBefore(y, 10) == 273 + leap && DaysBefore(y, 11) == 304 + leap && DaysBefore(y, 12) == 334 + leap
            && DaysBefore(y, 13) == 365 + leap
  {
    assert DaysBefore(y, 1) == 0;
    MonthStep(y, 1); MonthStep(y, 2); MonthStep(y, 3); MonthStep(y, 4); MonthStep(y, 5); MonthStep(y, 6);
    MonthStep(y, 7); MonthStep(y, 8); MonthStep(y, 9); MonthStep(y, 10); MonthStep(y, 11); MonthStep(y, 12);
  }

  lemma {:induction false} DaysBeforeMonotone(y: int, a: int, b: int)
    requires 1 <= a <= b <= 13
    ensures DaysBefore(y, a) + 28 * (b - a) <= DaysBefore(y, b)
    ensures a < b ==> DaysBefore(y, a) + DaysInMonth(y, a) <= DaysBefore(y, b)
    decreases b - a
  {
    if a < b {
      DaysBeforeMonotone(y, a, b - 1);
      MonthStep(y, b - 1);
      MonthStep(y, a);
    }
  }

  /** A valid date's day lies in its year. */
  lemma {:induction false} DayInYear(d: Date)
    requires Valid(d)
    ensures YearStart(d.year) <= DayOf(d) < YearStart(d.year + 1)
  {
    DaysBeforeMonotone(d.year, d.month, 13);
    DaysBeforeMonotone(d.year, 1, d.month);
    YearEnd(d.year);
    YearLength(d.year);
  }

  /** Earlier by year, then month, then day. */
  predicate Earlier(a: Date, b: Date) {
    a.year < b.year || (a.year == b.year && (a.month < b.month || (a.month == b.month && a.day < b.day)))
  }

  lemma {:induction false} EarlierDay(a: Date, b: Date)
    requires Valid(a) && Valid(b) && Earlier(a, b)
    ensures DayOf(a) < DayOf(b)
  {
    DayInYear(a);
    DayInYear(b);
    if a.year < b.year {
      YearStartMonotone(a.year + 1, b.year);
    } else if a.month < b.month {
      DaysBeforeMonotone(a.year, a.month, b.month);
    }
  }

  /** Day numbers order dates as the calendar does, and name each date once. */
  lemma {:induction false} DayOrder(a: Date, b: Date)
    requires Valid(a) && Valid(b)
    ensures Earlier(a, b) <==> DayOf(a) < DayOf(b)
    ensures a == b <==> DayOf(a) == DayOf(b)
  {
    if Earlier(a, b) {
      EarlierDay(a, b);
    } else if Earlier(b, a) {
      EarlierDay(b, a);
    }
  }

  // ── From a day number back to a date ──────────────────────────────────────

  /** The day after, by the rules of the calendar alone. */
  function NextDay(d: Date): Date {
    if d.day < DaysInMonth(d.year, d.month) then d.(day := d.day + 1)
    else if d.month < 12 then Date(d.year, d.month + 1, 1)
    else Date(d.year + 1, 1, 1)
  }

  function DayBefore(d: Date): Date {
    if d.day > 1 then d.(day := d.day - 1)
    else if d.month > 1 then Date(d.year, d.month - 1, DaysInMonth(d.year, d.month - 1))
    else Date(d.year - 1, 12, 31)
  }

  /** The date of day `n`, day 0 being 1 January 1970. */
  function DateOf(n: int): Date
    decreases if n < 0 then -n else n
  {
    if n == 0 then Date(1970, 1, 1)
    else if n > 0 then NextDay(DateOf(n - 1))
    else DayBefore(DateOf(n + 1))
  }

  /** Day numbers count calendar days: the day after is one more. */
  lemma {:induction false} DaysAreCounted(d: Date)
    requires Valid(d)
    ensures Valid(NextDay(d)) && DayOf(NextDay(d)) == DayOf(d) + 1
    ensures Valid(DayBefore(d)) && NextDay(DayBefore(d)) == d
  {
    YearEnd(d.year);
    YearEnd(d.year - 1);
    YearLength(d.year);
    MonthStep(d.year, d.month);
    assert Valid(DayBefore(d));
  }

  /** The date of a day is a valid date, and its day is that day. */
  lemma {:induction false} DateOfIsDate(n: int)
    ensures Valid(DateOf(n)) && DayOf(DateOf(n)) == n
    decreases if n < 0 then -n else n
  {
    if n > 0 {
      DateOfIsDate(n - 1);
      DaysAreCounted(DateOf(n - 1));
    } else if n < 0 {
      DateOfIsDate(n + 1);
      DaysAreCounted(DateOf(n + 1));
      DaysAreCounted(DayBefore(DateOf(n + 1)));
    }
  }

  /** So it is the only date whose day that is: the two directions undo each other. */
  lemma {:induction false} DateOfDay(d: Date, n: int)
    requires Valid(d) && DayOf(d) == n
    ensures DateOf(n) == d
  {
    DateOfIsDate(n);
    DayOrder(DateOf(n), d);
  }

  // ── ISO strings ───────────────────────────────────────────────────────────

  /** The date part of `toISOString().slice(0, 10)`: signed six-digit years outside 0 to 9999. */
  function Iso(d: Date): string {
    var rest := "-" + PadStart(Decimal(d.month), 2) + "-" + PadStart(Decimal(d.day), 2);
    if 0 <= d.year <= 9999 then PadStart(Decimal(d.year), 4) + rest
    else
      var sign, size := if d.year < 0 then "-" else "+", if d.year < 0 then -d.year else d.year;
      (sign + PadStart(Decimal(size), 6) + rest)[..10]
  }

  /** The first dash at or after `i`, or the end. */
  function DashFrom(s: string, i: nat): (p: nat)
    requires i <= |s|
    ensures i <= p <= |s|
    decreases |s| - i
  {
    if i == |s| || s[i] == '-' then i else DashFrom(s, i + 1)
  }

  /** `Number(part)` for a run of digits; an empty part is 0, anything else is taken as not a number. */
  function Number(part: string): Option<nat> {
    if AllDigits(part) then Some(ReadNat(part)) else None
  }

  /** `isoDate.slice(0, 10).split('-').map(Number)`: the first three numbers, if there are three. */
  function Fields(isoDate: string): Option<(nat, nat, nat)> {
    var s := if |isoDate| > 10 then isoDate[..10] else isoDate;
    var p := DashFrom(s, 0);
    if p == |s| then None
    else
      var q := DashFrom(s, p + 1);
      if q == |s| then None
      else
        var (y, m, d) := (Number(s[..p]), Number(s[p + 1..q]), Number(s[q + 1..DashFrom(s, q + 1)]));
        if y.None? || m.None? || d.None? then None else Some((y.value, m.value, d.value))
  }

  /** The day an ISO date names to `Date.UTC`; no value stands for NaN. */
  function ReadDay(isoDate: string): Option<int> {
    match Fields(isoDate)
    case None => None
    case Some((y, m, d)) => Some(UtcDay(y, m, d))
  }

  /** `addDaysIso`; no value stands for the RangeError of an invalid time. */
  function AddDaysIso(isoDate: string, days: int): Option<string> {
    match ReadDay(isoDate)
    case None => None
    case Some(n) => Some(Iso(DateOf(n + days)))
  }

  /** `daysBetweenIso`; no value stands for NaN. */
  function DaysBetweenIso(fromIso: string, toIso: string): Option<int> {
    var f, t := ReadDay(fromIso), ReadDay(toIso);
    if f.None? || t.None? then None else Some(t.value - f.value)
  }

  lemma {:induction false} DashIs(s: string, i: nat, p: nat)
    requires i <= p <= |s| && (forall j :: i <= j < p ==> s[j] != '-') && (p < |s| ==> s[p] == '-')
    ensures DashFrom(s, i) == p
    decreases p - i
  {
    if i < p {
      DashIs(s, i + 1, p);
    }
  }

  lemma {:induction false} Padded(n: nat, width: nat)
    requires 1 <= width && n < PowerOfTen(width)
    ensures var p := PadStart(Decimal(n), width); |p| == width && AllDigits(p) && ReadNat(p) == n
  {
    DecimalLength(n, width);
    ReadPadded(n, width);
  }

  function YearField(d: Date): string
    requires 0 <= d.year
  {
    PadStart(Decimal(d.year), 4)
  }

  function MonthField(d: Date): string {
    PadStart(Decimal(d.month), 2)
  }

  function DayField(d: Date): string {
    PadStart(Decimal(d.day), 2)
  }

  /** The printed fields of a date in years 0 to 9999, and their reading back. */
  lemma {:induction false} IsoShape(d: Date) returns (y: string, m: string, day: string)
    requires Valid(d) && 0 <= d.year <= 9999
    ensures Iso(d) == y + "-" + (m + "-" + day) && |y| == 4 && |m| == 2 && |day| == 2
    ensures AllDigits(y) && AllDigits(m) && AllDigits(day)
    ensures ReadNat(y) == d.year && ReadNat(m) == d.month && ReadNat(day) == d.day
  {
    y, m, day := YearField(d), MonthField(d), DayField(d);
    PowersOfTen();
    Padded(d.year, 4);
    Padded(d.month, 2);
    Padded(d.day, 2);
    assert y + ("-" + m + "-" + day) == y + "-" + (m + "-" + day);
  }

  lemma {:induction false} PowersOfTen()
    ensures PowerOfTen(2) == 100 && PowerOfTen(4) == 10000
  {
    assert PowerOfTen(3) == 10 * PowerOfTen(2);
  }

  lemma {:induction false} FieldsOf(y: string, m: string, d: string)
    requires |y| == 4 && |m| == 2 && |d| == 2 && AllDigits(y) && AllDigits(m) && AllDigits(d)
    ensures Fields(y + "-" + (m + "-" + d)) == Some((ReadNat(y), ReadNat(m), ReadNat(d)))
  {
    var s := y + "-" + (m + "-" + d);
    assert forall j :: 0 <= j < 4 ==> s[j] == y[j];
    assert forall j :: 0 <= j < 2 ==> s[5 + j] == m[j];
    assert forall j :: 0 <= j < 2 ==> s[8 + j] == d[j];
    DashIs(s, 0, 4);
    DashIs(s, 5, 7);
    DashIs(s, 8, 10);
    assert s[..4] == y && s[5..7] == m && s[8..10] == d;
  }

  lemma {:induction false} IsoFields(d: Date)
    requires Valid(d) && 0 <= d.year <= 9999
    ensures |Iso(d)| == 10 && Fields(Iso(d)) == Some((d.year, d.month, d.day))
  {
    var y, m, day := IsoShape(d);
    FieldsOf(y, m, day);
  }

  lemma {:induction false} IsoReads(d: Date)
    requires Valid(d) && 0 <= d.year <= 9999
    ensures |Iso(d)| == 10 && ReadDay(Iso(d)) == Some(UtcDay(d.year, d.month, d.day))
  {
    IsoFields(d);
  }

  /** In years 100 to 9999 an ISO date is read as the calendar day it names. */
  lemma {:induction false} IsoReadsDay(d: Date, n: int)
    requires Valid(d) && 100 <= d.year <= 9999 && n == DayOf(d)
    ensures ReadDay(Iso(d)) == Some(n)
  {
    IsoReads(d);
    UtcDayIsDay(d);
  }

  /** The engine's closed form names the calendar day: of the date itself from the year 100 on, of the
      same date 1900 years later before. */
  lemma {:induction false} UtcDayIsDay(d: Date)
    requires Valid(d) && 0 <= d.year
    ensures UtcDay(d.year, d.month, d.day) == DayOf(if d.year <= 99 then d.(year := d.year + 1900) else d)
  {
    assert (d.month - 1) / 12 == 0 && (d.month - 1) % 12 == d.month - 1;
    YearStartFormula(if d.year <= 99 then d.year + 1900 else d.year);
  }

  lemma {:induction false} AddDaysAt(s: string, read: int, days: int, n: int)
    requires ReadDay(s) == Some(read) && n == read + days
    ensures AddDaysIso(s, days) == Some(Iso(DateOf(n)))
  {}

  lemma {:induction false} SpanAt(s: string, t: string, x: int, y: int, span: int)
    requires ReadDay(s) == Some(x) && ReadDay(t) == Some(y) && span == y - x
    ensures DaysBetweenIso(s, t) == Some(span)
  {}

  /** What `addDaysIso` computes: the date of the day so many days on. */
  lemma {:induction false} AddDaysFrom(d: Date, days: int, read: int, n: int)
    requires Valid(d) && 100 <= d.year <= 9999 && read == DayOf(d) && n == read + days
    ensures AddDaysIso(Iso(d), days) == Some(Iso(DateOf(n)))
  {
    IsoReadsDay(d, read);
    AddDaysAt(Iso(d), read, days, n);
  }

  /** Adding days reaches the calendar date that many days on. */
  lemma {:induction false} AddDaysIsCalendar(d: Date, target: Date, days: int)
    requires Valid(d) && 100 <= d.year <= 9999 && Valid(target) && DayOf(target) == DayOf(d) + days
    ensures AddDaysIso(Iso(d), days) == Some(Iso(target))
  {
    var n := DayOf(target);
    assert DateOf(n) == target by { DateOfDay(target, n); }
    AddDaysFrom(d, days, DayOf(d), n);
  }

  /** What `daysBetweenIso` computes: the calendar days from one date to the other. */
  lemma {:induction false} BetweenIsCalendar(a: Date, b: Date, x: int, y: int, span: int)
    requires Valid(a) && 100 <= a.year <= 9999 && Valid(b) && 100 <= b.year <= 9999
    requires x == DayOf(a) && y == DayOf(b) && span == y - x
    ensures DaysBetweenIso(Iso(a), Iso(b)) == Some(span)
  {
    IsoReadsDay(a, x);
    IsoReadsDay(b, y);
    SpanAt(Iso(a), Iso(b), x, y, span);
  }

  lemma {:induction false} ReachedDay(a: Date, b: Date, days: int, x: int, n: int)
    requires Valid(a) && 100 <= a.year <= 9999 && Valid(b) && 0 <= b.year <= 9999 && x == DayOf(a) && n == x + days
    requires AddDaysIso(Iso(a), days) == Some(Iso(b))
    ensures DateOf(n) == b && DayOf(b) == n
  {
    AddDaysFrom(a, days, x, n);
    DateOfIsDate(n);
    IsoNamesDate(DateOf(n), b);
  }

  /** Adding days and counting the days between undo each other, both ways. */
  lemma {:induction false} AddAndBetweenUndo(a: Date, b: Date, days: int)
    requires Valid(a) && 100 <= a.year <= 9999 && Valid(b) && 100 <= b.year <= 9999
    ensures AddDaysIso(Iso(a), days) == Some(Iso(b)) <==> DaysBetweenIso(Iso(a), Iso(b)) == Some(days)
  {
    var x, y := DayOf(a), DayOf(b);
    var span := y - x;
    BetweenIsCalendar(a, b, x, y, span);
    if AddDaysIso(Iso(a), days) == Some(Iso(b)) {
      ReachedDay(a, b, days, x, x + days);
    }
    if days == span {
      AddDaysIsCalendar(a, b, days);
    }
  }

  /** No other date, in or out of range, prints like one in years 0 to 9999. */
  lemma {:induction false} IsoNamesDate(d: Date, b: Date)
    requires Valid(d) && Valid(b) && 0 <= b.year <= 9999 && Iso(d) == Iso(b)
    ensures d == b
  {
    if 0 <= d.year <= 9999 {
      var s := Iso(b);
      assert Fields(s) == Some((b.year, b.month, b.day)) by { IsoFields(b); }
      assert Fields(s) == Some((d.year, d.month, d.day)) by { IsoFields(d); }
    } else {
      IsoInRange(b);
      IsoOutOfRange(d);
    }
  }

  /** Adding days in two steps is adding their sum, as long as the date between is in range. */
  lemma {:induction false} AddDaysAdds(d: Date, mid: Date, a: int, b: int, sum: int)
    requires Valid(d) && 100 <= d.year <= 9999 && Valid(mid) && 100 <= mid.year <= 9999
    requires AddDaysIso(Iso(d), a) == Some(Iso(mid)) && sum == a + b
    ensures AddDaysIso(Iso(mid), b) == AddDaysIso(Iso(d), sum)
  {
    var x := DayOf(d);
    ReachedDay(d, mid, a, x, x + a);
    SameDayReached(d, mid, sum, b, x, x + a, x + sum);
  }

  lemma {:induction false} SameDayReached(d: Date, mid: Date, a: int, b: int, x: int, y: int, n: int)
    requires Valid(d) && 100 <= d.year <= 9999 && Valid(mid) && 100 <= mid.year <= 9999
    requires x == DayOf(d) && y == DayOf(mid) && n == x + a && n == y + b
    ensures AddDaysIso(Iso(mid), b) == AddDaysIso(Iso(d), a)
  {
    AddDaysFrom(d, a, x, n);
    AddDaysFrom(mid, b, y, n);
  }

  /** Strings order by year, then month, then day. */
  lemma {:induction false} StringOrderIsEarlier(a: Date, b: Date)
    requires Valid(a) && 0 <= a.year <= 9999 && Valid(b) && 0 <= b.year <= 9999
    ensures Less(Iso(a), Iso(b)) <==> Earlier(a, b)
  {
    var y1, m1, d1 := IsoShape(a);
    var y2, m2, d2 := IsoShape(b);
    LessIsNumeric(y1, y2);
    LessIsNumeric(m1, m2);
    LessIsNumeric(d1, d2);
    LessFields(y1, y2, m1 + "-" + d1, m2 + "-" + d2);
    LessFields(m1, m2, d1, d2);
    assert Iso(a) == y1 + "-" + (m1 + "-" + d1);
    assert Iso(b) == y2 + "-" + (m2 + "-" + d2);
  }

  /** Strings order as the calendar does, and each date has its own. */
  lemma {:induction false} StringOrderIsDateOrder(a: Date, b: Date)
    requires Valid(a) && 0 <= a.year <= 9999 && Valid(b) && 0 <= b.year <= 9999
    ensures Less(Iso(a), Iso(b)) <==> DayOf(a) < DayOf(b)
    ensures Iso(a) == Iso(b) <==> a == b
  {
    assert Less(Iso(a), Iso(b)) <==> Earlier(a, b) by { StringOrderIsEarlier(a, b); }
    assert Earlier(a, b) <==> DayOf(a) < DayOf(b) by { DayOrder(a, b); }
    if Iso(a) == Iso(b) {
      IsoNamesDate(a, b);
    }
  }

  /** In years 100 to 9999 string order is the sign of the day count. */
  lemma {:induction false} StringOrderIsSpanSign(a: Date, b: Date)
    requires Valid(a) && 100 <= a.year <= 9999 && Valid(b) && 100 <= b.year <= 9999
    ensures var span := DaysBetweenIso(Iso(a), Iso(b));
            span.Some? && (Less(Iso(a), Iso(b)) <==> span.value > 0)
  {
    var x, y := DayOf(a), DayOf(b);
    BetweenIsCalendar(a, b, x, y, y - x);
    assert Less(Iso(a), Iso(b)) <==> x < y by { StringOrderIsDateOrder(a, b); }
  }

  lemma {:induction false} LessFields(a: string, b: string, x: string, y: string)
    requires |a| == |b|
    ensures Less(a + "-" + x, b + "-" + y) <==> Less(a, b) || (a == b && Less(x, y))
  {
    if a == b {
      LessSamePrefix(a + "-", x, y);
      if Less(a, a) {
        LessAsymmetric(a, a);
      }
    } else {
      assert a + "-" + x == a + ("-" + x) && b + "-" + y == b + ("-" + y);
      LessByHead(a, b, "-" + x, "-" + y);
    }
  }

  // ── Where the functions stop being calendar arithmetic ────────────────────

  lemma {:induction false} IsoOutOfRange(d: Date)
    requires Valid(d) && !(0 <= d.year <= 9999)
    ensures |Iso(d)| == 10 && !IsDigit(Iso(d)[0])
  {
    var size := if d.year < 0 then -d.year else d.year;
    assert |PadStart(Decimal(size), 6)| >= 6;
  }

  lemma {:induction false} IsoInRange(d: Date)
    requires Valid(d) && 0 <= d.year <= 9999
    ensures |Iso(d)| == 10 && IsDigit(Iso(d)[0])
  {
    var y, m, day := IsoShape(d);
    IsoReads(d);
    assert Iso(d)[0] == y[0];
  }

  /** A date string comes back from adding no days exactly when its year is not read as 19xx. */
  lemma {:induction false} YearsBelowHundredMove(d: Date)
    requires Valid(d) && 0 <= d.year <= 9999
    ensures AddDaysIso(Iso(d), 0) == Some(Iso(d)) <==> d.year >= 100
  {
    if d.year >= 100 {
      AddDaysIsCalendar(d, d, 0);
    } else {
      BelowHundredMoves(d, UtcDay(d.year, d.month, d.day));
    }
  }

  lemma {:induction false} BelowHundredMoves(d: Date, n: int)
    requires Valid(d) && 0 <= d.year <= 99 && n == UtcDay(d.year, d.month, d.day)
    ensures AddDaysIso(Iso(d), 0) != Some(Iso(d))
  {
    assert ReadDay(Iso(d)) == Some(n) by { IsoReads(d); }
    AddDaysAt(Iso(d), n, 0, n);
    DateOfIsDate(n);
    MovedCentury(d);
    if Iso(DateOf(n)) == Iso(d) {
      IsoNamesDate(DateOf(n), d);
    }
  }

  lemma {:induction false} MovedCentury(d: Date)
    requires Valid(d) && 0 <= d.year <= 99
    ensures UtcDay(d.year, d.month, d.day) > DayOf(d)
  {
    UtcDayIsDay(d);
    var later := d.year + 1900;
    YearStartMonotone(d.year + 1, later);
    DaysBeforeMonotone(later, 1, d.month);
    DayInYear(d);
  }

  /** Adding days gives a four-digit-year date exactly when the day reached lies in years 0 to 9999. */
  lemma {:induction false} AddDaysKeepsShape(d: Date, target: Date, days: int)
    requires Valid(d) && 100 <= d.year <= 9999 && Valid(target) && DayOf(target) == DayOf(d) + days
    ensures var moved := AddDaysIso(Iso(d), days);
            moved.Some? && |moved.value| == 10 && (IsDigit(moved.value[0]) <==> 0 <= target.year <= 9999)
  {
    AddDaysIsCalendar(d, target, days);
    if 0 <= target.year <= 9999 {
      IsoInRange(target);
    } else {
      IsoOutOfRange(target);
    }
  }
}
