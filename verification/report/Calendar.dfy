/**
 * Calendar arithmetic of the reporting window: ten-character dates, day numbers as a JavaScript date counts
 * them, and the windows built from both.
 */
module Calendar {
  import opened Options
  import opened Arithmetic
  import opened Decimal
  import opened Lexical

  // ---- days and civil dates ----

  predicate Leap(y: int) { y % 4 == 0 && (y % 100 != 0 || y % 400 == 0) }

  /** The number of the first day of a year, counted from 1970. */
  function DayFromYear(y: int): int {
    365 * (y - 1970) + (y - 1969) / 4 - (y - 1901) / 100 + (y - 1601) / 400
  }

  function YearLength(y: int): (n: nat)
    ensures 365 <= n <= 366
  {
    if Leap(y) then 366 else 365
  }

  lemma NextQuotient(x: int, k: int)
    requires k > 1
    ensures (x + 1) / k == x / k + if (x + 1) % k == 0 then 1 else 0
  {
    var q, r := x / k, x % k;
    if r + 1 < k {
      Quotient(x + 1, k, q, r + 1);
    } else {
      assert k * (q + 1) == k * q + k;
      Quotient(x + 1, k, q + 1, 0);
    }
  }

  lemma Shifted(y: int, k: int, c: int)
    requires k > 1
    ensures (y - k * c) % k == y % k
  {
    assert k * (y / k - c) == k * (y / k) - k * c;
    Quotient(y - k * c, k, y / k - c, y % k);
  }

  lemma Coarser(y: int, k: int, c: int)
    requires k > 1 && c > 0 && k * c > 1 && y % (k * c) == 0
    ensures y % k == 0
  {
    assert y == k * (c * (y / (k * c)));
    Quotient(y, k, c * (y / (k * c)), 0);
  }

  lemma YearAfterYear(y: int)
    ensures DayFromYear(y + 1) == DayFromYear(y) + YearLength(y)
  {
    NextQuotient(y - 1969, 4);
    NextQuotient(y - 1901, 100);
    NextQuotient(y - 1601, 400);
    Shifted(y, 4, 492);
    Shifted(y, 100, 19);
    Shifted(y, 400, 4);
    if y % 100 == 0 { Coarser(y, 4, 25); }
    if y % 400 == 0 { Coarser(y, 100, 4); }
  }

  function MonthLength(y: int, m: int): (n: nat)
    ensures 28 <= n <= 31
  {
    if m == 2 then (if Leap(y) then 29 else 28) else if m in {4, 6, 9, 11} then 30 else 31
  }

  /** The days of the year before month `m`, which counts from 1. */
  function DaysBefore(y: int, m: nat): nat {
    if m <= 1 then 0 else DaysBefore(y, m - 1) + MonthLength(y, m - 1)
  }

  lemma MonthsFillYear(y: int)
    ensures DaysBefore(y, 13) == YearLength(y)
  {
    var february := MonthLength(y, 2);
    assert DaysBefore(y, 2) == 31;
    assert DaysBefore(y, 3) == 31 + february;
    assert DaysBefore(y, 5) == DaysBefore(y, 3) + 61;
    assert DaysBefore(y, 7) == DaysBefore(y, 5) + 61;
    assert DaysBefore(y, 9) == DaysBefore(y, 7) + 62;
    assert DaysBefore(y, 11) == DaysBefore(y, 9) + 61;
    assert DaysBefore(y, 13) == DaysBefore(y, 11) + 61;
  }

  lemma {:induction false} MonthsGrow(y: int, m: nat, n: nat)
    requires 1 <= m < n
    ensures DaysBefore(y, m) + MonthLength(y, m) <= DaysBefore(y, n)
  {
    if m + 1 < n { MonthsGrow(y, m, n - 1); }
  }

  datatype Date = Date(year: int, month: nat, day: nat)

  predicate Valid(d: Date) { 1 <= d.month <= 12 && 1 <= d.day <= MonthLength(d.year, d.month) }

  function DayOf(d: Date): int { DayFromYear(d.year) + DaysBefore(d.year, d.month) + d.day - 1 }

  /** The last year from `y` on that begins no later than day `n`. */
  function YearFrom(n: int, y: int): (r: int)
    requires DayFromYear(y) <= n
    ensures DayFromYear(r) <= n < DayFromYear(r + 1)
    decreases n - DayFromYear(y)
  {
    YearAfterYear(y);
    if DayFromYear(y + 1) <= n then YearFrom(n, y + 1) else y
  }

  /** The year of day `n`. */
  function YearOf(n: int): (y: int)
    ensures DayFromYear(y) <= n < DayFromYear(y + 1)
  {
    EarlyStart(n);
    YearFrom(n, if n >= 0 then 1970 else 1970 + n / 365)
  }

  lemma EarlyStart(n: int)
    ensures DayFromYear(1970) == 0 && (n < 0 ==> DayFromYear(1970 + n / 365) <= n)
  {
  }

  /** The last month from `m` on that begins no later than `rest` days into the year. */
  function MonthFrom(y: int, rest: nat, m: nat): (r: nat)
    requires 1 <= m <= 12 && DaysBefore(y, m) <= rest < YearLength(y)
    ensures m <= r <= 12 && DaysBefore(y, r) <= rest < DaysBefore(y, r) + MonthLength(y, r)
    decreases 12 - m
  {
    MonthsFillYear(y);
    if m < 12 && DaysBefore(y, m + 1) <= rest then MonthFrom(y, rest, m + 1) else m
  }

  function DateOf(n: int): (d: Date)
    ensures Valid(d)
  {
    var y := YearOf(n);
    YearAfterYear(y);
    var m := MonthFrom(y, n - DayFromYear(y), 1);
    Date(y, m, n - DayFromYear(y) - DaysBefore(y, m) + 1)
  }

  lemma {:induction false} YearsGrow(y: int, z: int)
    requires y <= z
    ensures DayFromYear(y) + 365 * (z - y) <= DayFromYear(z)
    decreases z - y
  {
    if y < z {
      YearsGrow(y, z - 1);
      YearAfterYear(z - 1);
    }
  }

  lemma InItsYear(d: Date)
    requires Valid(d)
    ensures DayFromYear(d.year) <= DayOf(d) < DayFromYear(d.year + 1)
  {
    YearAfterYear(d.year);
    MonthsFillYear(d.year);
    MonthsGrow(d.year, d.month, 13);
  }

  ghost predicate Earlier(d: Date, e: Date) {
    d.year < e.year || (d.year == e.year && (d.month < e.month || (d.month == e.month && d.day < e.day)))
  }

  /** Day numbers order the dates as their years, months and days do. */
  lemma DaysAreOrdered(d: Date, e: Date)
    requires Valid(d) && Valid(e)
    requires Earlier(d, e)
    ensures DayOf(d) < DayOf(e)
  {
    if d.year < e.year {
      InItsYear(d);
      InItsYear(e);
      YearsGrow(d.year + 1, e.year);
    } else if d.month < e.month {
      MonthsGrow(d.year, d.month, e.month);
    }
  }

  /** Every day number is the day of exactly one date. */
  lemma DayOfDate(n: int)
    ensures DayOf(DateOf(n)) == n
  {
  }

  lemma DateOfDay(d: Date)
    requires Valid(d)
    ensures DateOf(DayOf(d)) == d
  {
    var e := DateOf(DayOf(d));
    if e != d {
      if Earlier(d, e) {
        DaysAreOrdered(d, e);
      } else {
        DaysAreOrdered(e, d);
      }
    }
  }

  const MONTHS: seq<nat> := [31, 28, 31, 30, 31, 30, 31, 31, 30, 31, 30, 31]
  const BEFORE: seq<nat> := [0, 31, 59, 90, 120, 151, 181, 212, 243, 273, 304, 334]

  /** The months of the Gregorian calendar: in every fourth year but for three in four hundred February has a day more. */
  lemma MonthTable(y: int, m: nat)
    requires 1 <= m <= 12
    ensures var more := if y % 400 == 0 || (y % 4 == 0 && y % 100 != 0) then 1 else 0;
            && MonthLength(y, m) == MONTHS[m - 1] + (if m == 2 then more else 0)
            && DaysBefore(y, m) == BEFORE[m - 1] + (if m > 2 then more else 0)
  {
    if y % 400 == 0 { Coarser(y, 4, 100); }
    if m > 1 {
      MonthTable(y, m - 1);
      assert BEFORE[m - 1] == BEFORE[m - 2] + MONTHS[m - 2];
    }
  }

  // ---- as they are written ----

  /** The last `width` digits of `n`, with leading zeros. */
  function Padded(n: nat, width: nat): (s: string)
    ensures |s| == width && Digits(s)
  {
    if width == 0 then "" else Padded(n / 10, width - 1) + [DigitOf(n % 10)]
  }

  function Ten(width: nat): nat { if width == 0 then 1 else 10 * Ten(width - 1) }

  lemma {:induction false} ReadPadded(n: nat, width: nat)
    requires n < Ten(width)
    ensures Read(Padded(n, width)) == n
  {
    if width > 0 {
      ReadPadded(n / 10, width - 1);
      assert Padded(n, width)[..width - 1] == Padded(n / 10, width - 1);
    }
  }

  lemma {:induction false} PaddedRead(s: string)
    requires Digits(s)
    ensures Read(s) < Ten(|s|) && Padded(Read(s), |s|) == s
  {
    if s != "" {
      var t, c := s[..|s| - 1], s[|s| - 1];
      PaddedRead(t);
      assert DigitOf(ValueOf(c)) == c && s == t + [c];
      assert Read(s) / 10 == Read(t) && Read(s) % 10 == ValueOf(c);
    }
  }

  /** Year, month and day of a date in the years 0 to 9999. */
  function Written(d: Date): (s: string)
    requires 0 <= d.year
    ensures |s| == 10
  {
    Padded(d.year, 4) + "-" + Padded(d.month, 2) + "-" + Padded(d.day, 2)
  }

  /** The first ten characters of an ISO timestamp at midnight; other years have a sign and six digits. */
  function Printed(d: Date): string {
    if 0 <= d.year <= 9999 then Written(d)
    else (if d.year < 0 then "-" else "+") + Padded(Abs(d.year), 6) + "-" + Padded(d.month, 2)
  }

  predicate IsoShaped(s: string) {
    |s| == 10 && Digits(s[..4]) && s[4] == '-' && Digits(s[5..7]) && s[7] == '-' && Digits(s[8..])
  }

  const LAST_DAY := 100000000

  /** The day of a JavaScript date made from a year, a month that counts from 0, and a day, none of them checked. */
  function UtcDay(year: int, month: int, day: int): int {
    var y := (if 0 <= year <= 99 then 1900 + year else year) + month / 12;
    DayFromYear(y) + DaysBefore(y, month % 12 + 1) + day - 1
  }

  /** The text to a day number; None where the source throws. */
  function ToUtc(s: string): Option<int> {
    if !IsoShaped(s) then None else Some(UtcDay(Read(s[..4]), Read(s[5..7]) - 1, Read(s[8..])))
  }

  function FromUtc(n: int): Option<string> {
    if n < -LAST_DAY || LAST_DAY < n then None else Some(Printed(DateOf(n)))
  }

  /** A JavaScript date reaches a hundred million days either way. */
  lemma DatesReach(n: int)
    ensures FromUtc(n).Some? <==> -100000000 <= n <= 100000000
  {
  }

  /** The text reads as a day that is written as that very text. */
  predicate IsIsoDate(s: string) { ToUtc(s).Some? && FromUtc(ToUtc(s).value) == Some(s) }

  lemma WrittenFields(d: Date)
    requires 0 <= d.year
    ensures var s := Written(d);
            s[..4] == Padded(d.year, 4) && s[4] == '-' && s[5..7] == Padded(d.month, 2) && s[7] == '-' && s[8..] == Padded(d.day, 2)
  {
  }

  lemma WrittenReads(d: Date)
    requires Valid(d) && 0 <= d.year <= 9999
    ensures IsoShaped(Written(d)) && ToUtc(Written(d)) == Some(UtcDay(d.year, d.month - 1, d.day))
  {
    WrittenFields(d);
    assert Ten(4) == 10000 && Ten(2) == 100 by { assert Ten(3) == 1000; }
    ReadPadded(d.year, 4);
    ReadPadded(d.month, 2);
    ReadPadded(d.day, 2);
  }

  lemma UtcDayOfDate(d: Date)
    requires Valid(d) && d.year >= 100
    ensures UtcDay(d.year, d.month - 1, d.day) == DayOf(d)
  {
  }

  lemma DaysInRange(n: int)
    requires 0 <= DateOf(n).year <= 9999
    ensures FromUtc(n) == Some(Written(DateOf(n)))
  {
    var y := DateOf(n).year;
    InItsYear(DateOf(n));
    DayOfDate(n);
    YearsGrow(0, y);
    YearsGrow(y + 1, 10000);
  }

  /** A date of the years 100 to 9999. */
  predicate Ordinary(d: Date) { Valid(d) && 100 <= d.year <= 9999 }

  /** The written dates of the years 100 to 9999 pass the test, */
  lemma OrdinaryIsIso(d: Date)
    requires Ordinary(d)
    ensures IsIsoDate(Written(d)) && ToUtc(Written(d)) == Some(DayOf(d))
  {
    WrittenReads(d);
    UtcDayOfDate(d);
    DateOfDay(d);
    DaysInRange(DayOf(d));
  }

  function DateIn(s: string): Date
    requires IsoShaped(s)
  {
    Date(Read(s[..4]), Read(s[5..7]), Read(s[8..]))
  }

  lemma ThreeParts(s: string)
    requires |s| == 10 && s[4] == '-' && s[7] == '-'
    ensures s[..4] + "-" + s[5..7] + "-" + s[8..] == s
  {
  }

  lemma WrittenIn(s: string)
    requires IsoShaped(s)
    ensures Written(DateIn(s)) == s && DateIn(s).year <= 9999 && DateIn(s).month <= 99 && DateIn(s).day <= 99
  {
    assert Ten(4) == 10000 && Ten(2) == 100 by { assert Ten(3) == 1000; }
    PaddedRead(s[..4]);
    PaddedRead(s[5..7]);
    PaddedRead(s[8..]);
    ThreeParts(s);
  }

  lemma SameFields(d: Date, e: Date)
    requires 0 <= d.year <= 9999 && 0 <= e.year <= 9999 && d.month <= 99 && e.month <= 99 && d.day <= 99 && e.day <= 99
    requires Written(d) == Written(e)
    ensures d == e
  {
    WrittenFields(d);
    WrittenFields(e);
    assert Ten(4) == 10000 && Ten(2) == 100 by { assert Ten(3) == 1000; }
    ReadPadded(d.year, 4);
    ReadPadded(e.year, 4);
    ReadPadded(d.month, 2);
    ReadPadded(e.month, 2);
    ReadPadded(d.day, 2);
    ReadPadded(e.day, 2);
  }

  /** A year of two digits is taken for one of the twentieth century, and never comes out as it was written. */
  lemma ShortYearsAreMoved(year: nat, month: int, day: nat)
    requires year <= 99 && -1 <= month
    ensures DateOf(UtcDay(year, month, day)).year >= 1898
  {
    var n := UtcDay(year, month, day);
    YearsGrow(1899, 1900 + year + month / 12);
    YearsGrow(1898, 1899);
    YearAfterYear(1898);
    assert n >= DayFromYear(1899) - 1 >= DayFromYear(1898);
    if DateOf(n).year < 1898 {
      YearsGrow(DateOf(n).year + 1, 1898);
      InItsYear(DateOf(n));
      DayOfDate(n);
    }
  }

  lemma IsoIsProper(s: string)
    requires IsIsoDate(s)
    ensures Ordinary(DateIn(s))
  {
    hide UtcDay, DateOf, Read, Written;
    var d, e := DateIn(s), DateOf(ToUtc(s).value);
    WrittenIn(s);
    SignIsNoDigit(e, s);
    if d.year <= 99 { ShortYearsAreMoved(d.year, d.month - 1, d.day); }
    SameFields(d, e);
  }

  /** and nothing else does. */
  lemma IsoIsOrdinary(s: string)
    ensures IsIsoDate(s) <==> IsoShaped(s) && Ordinary(DateIn(s))
  {
    if IsIsoDate(s) {
      IsoIsProper(s);
    } else if IsoShaped(s) && Ordinary(DateIn(s)) {
      WrittenIn(s);
      OrdinaryIsIso(DateIn(s));
    }
  }

  lemma SignIsNoDigit(e: Date, s: string)
    requires Printed(e) == s && IsoShaped(s)
    ensures 0 <= e.year <= 9999
  {
    assert s[0] == s[..4][0] && IsDigit(s[..4][0]);
  }

  // ---- arithmetic on written dates ----

  function AddDays(s: string, n: int): Option<string> {
    match ToUtc(s)
    case None => None
    case Some(t) => FromUtc(t + n)
  }

  function DiffDays(a: string, b: string): int
    requires ToUtc(a).Some? && ToUtc(b).Some?
  {
    ToUtc(b).value - ToUtc(a).value
  }

  const FIRST := Date(100, 1, 1)
  const LAST := Date(9999, 12, 31)

  lemma IsoIsWritten(s: string)
    requires IsIsoDate(s)
    ensures Ordinary(DateIn(s)) && s == Written(DateIn(s)) && ToUtc(s) == Some(DayOf(DateIn(s)))
  {
    IsoIsOrdinary(s);
    WrittenIn(s);
    OrdinaryIsIso(DateIn(s));
  }

  /** The days of the ordinary dates are those from the first to the last of them. */
  lemma OrdinaryDays(n: int)
    ensures Ordinary(DateOf(n)) <==> DayOf(FIRST) <= n <= DayOf(LAST)
  {
    var y := DateOf(n).year;
    InItsYear(DateOf(n));
    DayOfDate(n);
    MonthsFillYear(9999);
    YearAfterYear(9999);
    assert DayOf(LAST) == DayFromYear(10000) - 1 by { assert DaysBefore(9999, 13) == DaysBefore(9999, 12) + 31; }
    if y < 100 { YearsGrow(y + 1, 100); } else { YearsGrow(100, y); }
    if y > 9999 { YearsGrow(10000, y); } else { YearsGrow(y + 1, 10000); }
  }

  lemma PrintedIsIso(e: Date)
    requires Valid(e)
    ensures IsIsoDate(Printed(e)) <==> Ordinary(e)
  {
    if IsIsoDate(Printed(e)) {
      SignIsNoDigit(e, Printed(e));
      IsoIsWritten(Printed(e));
      SameFields(e, DateIn(Printed(e)));
    }
    if Ordinary(e) { OrdinaryIsIso(e); }
  }

  /** Day `t` as a text, and back: a date exactly within the years 100 to 9999. */
  ghost predicate Within(t: int) { DayOf(FIRST) <= t <= DayOf(LAST) }

  lemma FromUtcIsIso(t: int)
    ensures FromUtc(t).Some? && IsIsoDate(FromUtc(t).value) <==> Within(t)
    ensures Within(t) ==> FromUtc(t) == Some(Written(DateOf(t))) && ToUtc(FromUtc(t).value) == Some(t)
  {
    OrdinaryDays(t);
    PrintedIsIso(DateOf(t));
    if Within(t) {
      DaysInRange(t);
      OrdinaryIsIso(DateOf(t));
      DayOfDate(t);
    }
  }

  lemma AddDaysIs(s: string, t: int, n: int)
    requires ToUtc(s) == Some(t)
    ensures AddDays(s, n) == FromUtc(t + n)
  {
    hide ToUtc, FromUtc;
  }

  /** A date moved by days is a date again exactly while it stays in those years; then it is that many days away. */
  lemma AddDaysMoves(s: string, t: int, n: int)
    requires ToUtc(s) == Some(t)
    ensures var r := AddDays(s, n);
            && (r.Some? && IsIsoDate(r.value) <==> Within(t + n))
            && (Within(t + n) ==> ToUtc(r.value) == Some(t + n) && DiffDays(s, r.value) == n)
  {
    hide ToUtc, FromUtc, IsIsoDate, AddDays, Within;
    AddDaysIs(s, t, n);
    FromUtcIsIso(t + n);
  }

  /** Two moves are one. */
  lemma AddDaysTwice(s: string, t: int, a: int, b: int)
    requires ToUtc(s) == Some(t) && Within(t + a)
    ensures AddDays(s, a).Some? && AddDays(AddDays(s, a).value, b) == AddDays(s, a + b)
  {
    hide *;
    AddDaysIs(s, t, a);
    FromUtcIsIso(t + a);
    AddDaysIs(AddDays(s, a).value, t + a, b);
    AddDaysIs(s, t, a + b);
    assert t + a + b == t + (a + b);
  }

  lemma {:induction false} PaddedOrder(m: nat, n: nat, width: nat)
    requires m < n < Ten(width)
    ensures Padded(m, width) != Padded(n, width) && Less(Padded(m, width), Padded(n, width))
  {
    ReadPadded(m, width);
    ReadPadded(n, width);
    var a, b := Padded(m / 10, width - 1), Padded(n / 10, width - 1);
    if m / 10 == n / 10 {
      LessAfter(a, [DigitOf(m % 10)], [DigitOf(n % 10)]);
    } else {
      PaddedOrder(m / 10, n / 10, width - 1);
      LessBefore(a, b, [DigitOf(m % 10)], [DigitOf(n % 10)]);
    }
  }

  lemma Nested(d: Date)
    requires 0 <= d.year
    ensures Written(d) == Padded(d.year, 4) + ("-" + (Padded(d.month, 2) + ("-" + Padded(d.day, 2))))
  {
  }

  lemma WrittenOrder(d: Date, e: Date)
    requires Ordinary(d) && Ordinary(e) && Earlier(d, e)
    ensures Less(Written(d), Written(e))
  {
    Nested(d);
    Nested(e);
    assert Ten(4) == 10000 && Ten(2) == 100 by { assert Ten(3) == 1000; }
    var dMonth, eMonth := Padded(d.month, 2) + ("-" + Padded(d.day, 2)), Padded(e.month, 2) + ("-" + Padded(e.day, 2));
    if d.year < e.year {
      PaddedOrder(d.year, e.year, 4);
      LessBefore(Padded(d.year, 4), Padded(e.year, 4), "-" + dMonth, "-" + eMonth);
    } else {
      LessAfter(Padded(d.year, 4), "-" + dMonth, "-" + eMonth);
      LessAfter("-", dMonth, eMonth);
      if d.month < e.month {
        PaddedOrder(d.month, e.month, 2);
        LessBefore(Padded(d.month, 2), Padded(e.month, 2), "-" + Padded(d.day, 2), "-" + Padded(e.day, 2));
      } else {
        LessAfter(Padded(d.month, 2), "-" + Padded(d.day, 2), "-" + Padded(e.day, 2));
        LessAfter("-", Padded(d.day, 2), Padded(e.day, 2));
        PaddedOrder(d.day, e.day, 2);
      }
    }
  }

  /** Comparing two dates as texts compares their days. */
  lemma TextsCompareAsDays(s: string, t: string)
    requires IsIsoDate(s) && IsIsoDate(t)
    ensures Less(s, t) <==> DiffDays(s, t) > 0
  {
    IsoIsWritten(s);
    IsoIsWritten(t);
    DatesCompare(DateIn(s), DateIn(t));
  }

  lemma DatesCompare(d: Date, e: Date)
    requires Ordinary(d) && Ordinary(e)
    ensures Less(Written(d), Written(e)) <==> DayOf(d) < DayOf(e)
  {
    LessIsTotal(Written(d), Written(e));
    if Earlier(d, e) {
      WrittenOrder(d, e);
      DaysAreOrdered(d, e);
    } else if Earlier(e, d) {
      WrittenOrder(e, d);
      DaysAreOrdered(e, d);
    }
  }

  // ---- months ----

  /** From the first of the month reached, and the day before the next one's first. */
  function MonthsOn(d: Date, n: int): Option<string> {
    var first := UtcDay(d.year, d.month - 1 + n, 1);
    var f := DateOf(first);
    var last := UtcDay(f.year, f.month, 0);
    if first < -LAST_DAY || LAST_DAY < first || last < -LAST_DAY || LAST_DAY < last then None
    else FromUtc(UtcDay(f.year, f.month - 1, Min(d.day, DateOf(last).day)))
  }

  function AddMonths(s: string, n: int): Option<string> {
    if IsoShaped(s) then MonthsOn(DateIn(s), n) else None
  }

  /** The year a JavaScript date takes a year for. */
  function TakenFor(year: int): int { if 0 <= year <= 99 then 1900 + year else year }

  /** Month `k`, counted from the start of year 0. */
  function MonthAt(k: int): (int, nat) { (k / 12, k % 12 + 1) }

  lemma FirstOfMonth(y: int, m: nat, n: int)
    requires 1 <= m && y >= 100
    ensures var (ty, tm) := MonthAt(12 * y + m - 1 + n); UtcDay(y, m - 1 + n, 1) == DayOf(Date(ty, tm, 1))
  {
    var x := m - 1 + n;
    Quotient(12 * y + x, 12, y + x / 12, x % 12);
  }

  lemma LastOfMonth(year: int, m: nat)
    requires 1 <= m <= 12
    ensures var y := TakenFor(year); UtcDay(year, m, 0) == DayOf(Date(y, m, MonthLength(y, m)))
  {
    var y := TakenFor(year);
    if m == 12 {
      YearAfterYear(y);
      MonthsFillYear(y);
      assert DaysBefore(y, 13) == DaysBefore(y, 12) + MonthLength(y, 12);
    }
  }

  lemma DaysAreSmall(d: Date)
    requires Valid(d) && 0 <= d.year <= 9999
    ensures -LAST_DAY <= DayOf(d) <= LAST_DAY && FromUtc(DayOf(d)) == Some(Written(d))
  {
    DateOfDay(d);
    DaysInRange(DayOf(d));
  }

  lemma MonthStart(year: int, m: nat, day: nat)
    requires 1 <= m <= 12
    ensures UtcDay(year, m - 1, day) == DayOf(Date(TakenFor(year), m, day))
  {
  }

  /** The month that lies `n` months after that of `d`, and its year. */
  function MonthAfter(d: Date, n: int): (int, nat) { MonthAt(12 * d.year + d.month - 1 + n) }

  /** `n` months on from `d`; a year below 100 comes out as one of the twentieth century. */
  function Clamped(d: Date, n: int): Date {
    var (year, m) := MonthAfter(d, n);
    var y := TakenFor(year);
    Date(y, m, Min(d.day, MonthLength(y, m)))
  }

  predicate InTime(t: int) { -LAST_DAY <= t <= LAST_DAY }

  lemma MonthsOnIs(d: Date, n: int, f: Date, l: Date)
    requires UtcDay(d.year, d.month - 1 + n, 1) == DayOf(f) && DateOf(DayOf(f)) == f
    requires UtcDay(f.year, f.month, 0) == DayOf(l) && DateOf(DayOf(l)) == l
    ensures MonthsOn(d, n)
            == if InTime(DayOf(f)) && InTime(DayOf(l)) then FromUtc(UtcDay(f.year, f.month - 1, Min(d.day, l.day))) else None
  {
    hide UtcDay, DayOf, DateOf, FromUtc;
  }

  lemma ClampedIsValid(d: Date, n: int)
    requires Ordinary(d)
    ensures Valid(Clamped(d, n)) && (Ordinary(Clamped(d, n)) <==> 0 <= MonthAfter(d, n).0 <= 9999)
  {
  }

  lemma DayAsText(c: Date)
    requires Valid(c)
    ensures FromUtc(DayOf(c)) == if InTime(DayOf(c)) then Some(Printed(c)) else None
  {
    DateOfDay(c);
  }

  /** Whatever comes out is the clamped date as it prints; and in the years 0 to 9999 it does. */
  lemma MonthsOnPrints(d: Date, n: int)
    requires Ordinary(d)
    ensures MonthsOn(d, n) == None || MonthsOn(d, n) == Some(Printed(Clamped(d, n)))
    ensures 0 <= MonthAfter(d, n).0 <= 9999 ==> MonthsOn(d, n) == Some(Printed(Clamped(d, n)))
  {
    hide UtcDay, DayOf, DateOf, FromUtc, Printed, MonthsOn;
    var (year, m) := MonthAfter(d, n);
    var y := TakenFor(year);
    var f, l := Date(year, m, 1), Date(y, m, MonthLength(y, m));
    FirstOfMonth(d.year, d.month, n);
    LastOfMonth(year, m);
    DateOfDay(f);
    DateOfDay(l);
    MonthsOnIs(d, n, f, l);
    MonthStart(year, m, Min(d.day, l.day));
    DayAsText(Clamped(d, n));
    if 0 <= year <= 9999 {
      DaysAreSmall(f);
      DaysAreSmall(l);
      DaysAreSmall(Clamped(d, n));
    }
  }

  lemma OrdinaryPrints(d: Date)
    requires Ordinary(d)
    ensures Printed(d) == Written(d)
  {
  }

  /** `n` months on is the same day of the month that is reached, or its last day where it is shorter. */
  lemma AddMonthsClamps(s: string, n: int)
    requires IsIsoDate(s) && 0 <= MonthAfter(DateIn(s), n).0 <= 9999
    ensures Ordinary(DateIn(s)) && Ordinary(Clamped(DateIn(s), n))
    ensures AddMonths(s, n) == Some(Written(Clamped(DateIn(s), n))) && IsIsoDate(Written(Clamped(DateIn(s), n)))
  {
    var d := DateIn(s);
    hide Printed, Written, MonthsOn, Clamped, IsIsoDate, DateIn;
    IsoIsOrdinary(s);
    MonthsOnPrints(d, n);
    ClampedIsValid(d, n);
    OrdinaryPrints(Clamped(d, n));
    OrdinaryIsIso(Clamped(d, n));
  }

  ghost predicate GivesDate(r: Option<string>) { r.Some? && IsIsoDate(r.value) }

  /** Outside the years 0 to 9999 no date comes out. */
  lemma AddMonthsFails(s: string, n: int)
    requires IsIsoDate(s) && !(0 <= MonthAfter(DateIn(s), n).0 <= 9999)
    ensures !GivesDate(AddMonths(s, n)) && (AddMonths(s, n).Some? ==> !IsoShaped(AddMonths(s, n).value))
  {
    var d := DateIn(s);
    hide Printed, MonthsOn, Clamped, IsIsoDate, DateIn;
    IsoIsOrdinary(s);
    MonthsOnPrints(d, n);
    ClampedIsValid(d, n);
    PrintedIsIso(Clamped(d, n));
    FarIsUnshaped(d, n);
  }

  lemma FarIsUnshaped(d: Date, n: int)
    requires !(0 <= MonthAfter(d, n).0 <= 9999)
    ensures !IsoShaped(Printed(Clamped(d, n)))
  {
    var c := Clamped(d, n);
    if IsoShaped(Printed(c)) { SignIsNoDigit(c, Printed(c)); }
  }

  /**
   * A date moved by months is a date exactly when the month reached lies in the years 0 to 9999, and it lies in
   * that month exactly when the year is not below 100.
   */
  lemma AddMonthsIsDate(s: string, n: int)
    requires IsIsoDate(s)
    ensures var year, r := MonthAfter(DateIn(s), n).0, AddMonths(s, n);
            && (GivesDate(r) <==> 0 <= year <= 9999)
            && (GivesDate(r) && (DateIn(r.value).year, DateIn(r.value).month) == MonthAfter(DateIn(s), n)
                <==> 100 <= year <= 9999)
  {
    var d := DateIn(s);
    hide Written, MonthsOn, AddMonths, IsIsoDate, DateIn, IsoShaped;
    if 0 <= MonthAfter(d, n).0 <= 9999 {
      AddMonthsClamps(s, n);
      FieldsOfWritten(Clamped(d, n));
    } else {
      AddMonthsFails(s, n);
    }
  }

  lemma BeforeYear100(d: Date)
    requires d == Date(100, 1, 15)
    ensures Ordinary(d) && MonthAfter(d, -1) == (99, 12) && Clamped(d, -1) == Date(1999, 12, 15)
  {
  }

  /** One month before the fifteenth of January of the year 100 comes out as that of December 1999. */
  lemma ShortYearMoves(d: Date, s: string)
    requires d == Date(100, 1, 15) && s == Written(d)
    ensures IsIsoDate(s) && AddMonths(s, -1) == Some(Written(Date(1999, 12, 15)))
  {
    hide Written, AddMonths, IsIsoDate, DateIn, IsoShaped, Clamped, Ordinary, MonthAfter;
    BeforeYear100(d);
    OrdinaryIsIso(d);
    FieldsOfWritten(d);
    AddMonthsClamps(s, -1);
  }

  function ThereAndBack(s: string, n: int): Option<string> {
    match AddMonths(s, n)
    case None => None
    case Some(there) => AddMonths(there, -n)
  }

  lemma ClampedBack(d: Date, n: int)
    requires Ordinary(d) && 0 <= MonthAfter(d, n).0 <= 9999
    ensures var (year, m) := MonthAfter(d, n);
            && (Clamped(Clamped(d, n), -n) == d <==> year >= 100 && d.day <= MonthLength(year, m))
            && (year >= 100 ==> 0 <= MonthAfter(Clamped(d, n), -n).0 <= 9999)
  {
    var k := 12 * d.year + d.month - 1;
    var (year, m) := MonthAfter(d, n);
    var e := Clamped(d, n);
    Quotient(k, 12, d.year, d.month - 1);
    if year >= 100 {
      assert 12 * e.year + e.month - 1 == k + n;
      assert MonthAfter(e, -n) == MonthAt(k) == (d.year, d.month);
    } else {
      assert 12 * e.year + e.month - 1 == k + n + 12 * 1900;
      Quotient(k + 12 * 1900, 12, d.year + 1900, d.month - 1);
      assert MonthAfter(e, -n) == MonthAt(k + 12 * 1900) == (d.year + 1900, d.month);
    }
  }

  /** From a date back to an ordinary date: exactly when the clamped one is that. */
  lemma BackText(e: Date, n: int, s: string)
    requires Ordinary(e) && IsIsoDate(s) && (Clamped(e, n) == DateIn(s) ==> 0 <= MonthAfter(e, n).0 <= 9999)
    ensures 0 <= e.year && (AddMonths(Written(e), n) == Some(s) <==> Clamped(e, n) == DateIn(s))
  {
    var d := DateIn(s);
    hide Written, MonthsOn, AddMonths, IsIsoDate, DateIn, IsoShaped, Clamped;
    OrdinaryIsIso(e);
    FieldsOfWritten(e);
    IsoIsWritten(s);
    if 0 <= MonthAfter(e, n).0 <= 9999 {
      AddMonthsClamps(Written(e), n);
      SameText(Clamped(e, n), d);
    } else {
      AddMonthsFails(Written(e), n);
    }
  }

  lemma BackIs(s: string, n: int, there: string)
    requires AddMonths(s, n) == Some(there)
    ensures ThereAndBack(s, n) == AddMonths(there, -n)
  {
  }

  lemma BackWithin(s: string, n: int, d: Date, e: Date, year: int, m: nat)
    requires IsIsoDate(s) && d == DateIn(s) && e == Clamped(d, n) && (year, m) == MonthAfter(d, n) && 0 <= year <= 9999
    ensures ThereAndBack(s, n) == Some(s) <==> year >= 100 && d.day <= MonthLength(year, m)
  {
    hide *;
    AddMonthsClamps(s, n);
    NotNegative(e);
    BackIs(s, n, Written(e));
    ClampedBack(d, n);
    BackText(e, -n, s);
  }

  lemma NotNegative(d: Date)
    requires Ordinary(d)
    ensures d.year >= 0
  {
  }

  lemma UnshapedStays(s: string, n: int)
    requires AddMonths(s, n).Some? ==> !IsoShaped(AddMonths(s, n).value)
    ensures ThereAndBack(s, n) == None
  {
    hide IsoShaped, MonthsOn;
  }

  /** Going back undoes it exactly when the month reached is no earlier than the year 100 and nothing was cut off. */
  lemma AddMonthsBack(s: string, n: int)
    requires IsIsoDate(s)
    ensures var (year, m) := MonthAfter(DateIn(s), n);
            ThereAndBack(s, n) == Some(s) <==> 100 <= year <= 9999 && DateIn(s).day <= MonthLength(year, m)
  {
    var d := DateIn(s);
    hide *;
    var (year, m) := MonthAfter(d, n);
    if 0 <= year <= 9999 {
      BackWithin(s, n, d, Clamped(d, n), year, m);
    } else {
      AddMonthsFails(s, n);
      UnshapedStays(s, n);
    }
  }

  lemma FieldsOfWritten(d: Date)
    requires Ordinary(d)
    ensures IsoShaped(Written(d)) && DateIn(Written(d)) == d
  {
    WrittenReads(d);
    WrittenIn(Written(d));
    SameFields(DateIn(Written(d)), d);
  }

  lemma SameText(d: Date, e: Date)
    requires Ordinary(d) && Ordinary(e)
    ensures Written(d) == Written(e) <==> d == e
  {
    if Written(d) == Written(e) { SameFields(d, e); }
  }

  // ---- windows ----

  function TrailingYear(today: string): Option<string> {
    match AddMonths(today, -12)
    case None => None
    case Some(lastYear) => AddDays(lastYear, 1)
  }

  lemma {:induction false} MonthsDiffer(y: int, z: int, m: nat)
    ensures DaysBefore(y, m) - DaysBefore(z, m) == if m > 2 then MonthLength(y, 2) - MonthLength(z, 2) else 0
  {
    if m > 1 { MonthsDiffer(y, z, m - 1); }
  }

  lemma YearApart(d: Date)
    requires Ordinary(d) && d.year > 100
    ensures Ordinary(Clamped(d, -12)) && 365 <= DayOf(d) - DayOf(Clamped(d, -12)) <= 366
  {
    var y, m := d.year, d.month;
    Quotient(12 * y + m - 1 - 12, 12, y - 1, m - 1);
    YearAfterYear(y - 1);
    MonthsDiffer(y, y - 1, m);
    NotBothLeap(y);
  }

  lemma NotBothLeap(y: int)
    ensures !(Leap(y) && Leap(y - 1))
  {
  }

  /** The trailing year is a date, and it has 365 or 366 days, today included, in every year but the first. */
  lemma TrailingYearLength(today: string)
    requires IsIsoDate(today)
    ensures var from := TrailingYear(today);
            && GivesDate(from)
            && (365 <= DiffDays(from.value, today) + 1 <= 366 <==> DateIn(today).year > 100)
  {
    var d := DateIn(today);
    IsoIsWritten(today);
    var e := Clamped(d, -12);
    Quotient(12 * d.year + d.month - 1 - 12, 12, d.year - 1, d.month - 1);
    AddMonthsClamps(today, -12);
    TrailingFrom(today, d, e);
    if d.year > 100 { YearApart(d); } else { DaysAreOrdered(d, e); }
  }

  lemma TrailingFrom(today: string, d: Date, e: Date)
    requires Ordinary(d) && Ordinary(e) && ToUtc(today) == Some(DayOf(d)) && AddMonths(today, -12) == Some(Written(e))
    requires e.year < 9999
    ensures GivesDate(TrailingYear(today)) && DiffDays(TrailingYear(today).value, today) == DayOf(d) - DayOf(e) - 1
  {
    hide ToUtc, FromUtc, IsIsoDate, AddMonths, Written, DayOf, AddDays;
    OrdinaryIsIso(e);
    NextIsWithin(e);
    AddDaysMoves(Written(e), DayOf(e), 1);
  }

  lemma NextIsWithin(e: Date)
    requires Ordinary(e) && e.year < 9999
    ensures Within(DayOf(e) + 1)
  {
    InRange(e);
    DaysAreOrdered(e, LAST);
  }

  lemma InRange(d: Date)
    requires Ordinary(d)
    ensures Within(DayOf(d))
  {
    DateOfDay(d);
    OrdinaryDays(DayOf(d));
  }

  datatype Window = Window(from: string, until: string, prevFrom: string, prevUntil: string)

  /** The window of equal length just before. */
  function PreviousWindow(from: string, until: string): Option<(string, string)> {
    if ToUtc(from).None? || ToUtc(until).None? then None
    else
      var len := DiffDays(from, until) + 1;
      match AddDays(from, -1)
      case None => None
      case Some(prevUntil) =>
        match AddDays(prevUntil, -(len - 1))
        case None => None
        case Some(prevFrom) => Some((prevFrom, prevUntil))
  }

  const MAX_SPAN_DAYS := 1100

  /** A window asked for by its two dates. */
  function ExplicitWindow(from: string, until: string): Option<Window> {
    if !IsIsoDate(from) || !IsIsoDate(until) || Less(until, from) || DiffDays(from, until) + 1 > MAX_SPAN_DAYS then None
    else
      match PreviousWindow(from, until)
      case None => None
      case Some((prevFrom, prevUntil)) => Some(Window(from, until, prevFrom, prevUntil))
  }

  lemma YearBefore(f: int)
    requires Within(f)
    ensures 99 <= DateOf(f - 1).year <= 9999
  {
    var e := DateOf(f - 1);
    DayOfDate(f - 1);
    InItsYear(e);
    YearAfterYear(99);
    if e.year < 99 { YearsGrow(e.year + 1, 99); }
    if e.year > 9999 {
      YearsGrow(10000, e.year);
      InItsYear(LAST);
    }
  }

  lemma TakenIsSmall(e: Date)
    requires Valid(e) && 0 <= e.year <= 9999
    ensures -1000000 <= DayOf(Date(TakenFor(e.year), e.month, e.day)) <= 5000000
  {
    var y := TakenFor(e.year);
    MonthsFillYear(y);
    MonthsGrow(y, e.month, 13);
    YearIsSmall(y);
  }

  lemma YearIsSmall(y: int)
    requires 0 <= y <= 9999
    ensures -800000 <= DayFromYear(y) <= 4000000
  {
  }

  lemma WrittenDay(e: Date)
    requires Valid(e) && 0 <= e.year <= 9999
    ensures IsoShaped(Written(e)) && ToUtc(Written(e)) == Some(DayOf(Date(TakenFor(e.year), e.month, e.day)))
  {
    WrittenReads(e);
    MonthStart(e.year, e.month, e.day);
  }

  /** The day before an ordinary date has a text of the same shape, although the year 99 reads as 1999. */
  lemma DayBeforeReads(f: int)
    requires Within(f)
    ensures var r := FromUtc(f - 1);
            && r.Some? && ToUtc(r.value).Some? && -1000000 <= ToUtc(r.value).value <= 5000000
            && (Within(f - 1) ==> ToUtc(r.value) == Some(f - 1))
  {
    hide ToUtc, FromUtc, IsIsoDate, IsoShaped, Written, DayOf, DateOf, Within;
    var e := DateOf(f - 1);
    YearBefore(f);
    DaysInRange(f - 1);
    WrittenDay(e);
    TakenIsSmall(e);
    FromUtcIsIso(f - 1);
  }

  lemma SpanIsSmall(f: int)
    requires Within(f)
    ensures -1000000 <= f <= 5000000
  {
  }

  /**
   * The window before a window always exists. It is made of two dates exactly when it does not reach below the
   * year 100; then it has the same length and ends the day before the window begins.
   */
  lemma PreviousIsEqual(from: string, until: string, f: int, u: int)
    requires ToUtc(from) == Some(f) && ToUtc(until) == Some(u) && f <= u && Within(f) && Within(u)
    ensures var p := PreviousWindow(from, until);
            && p.Some?
            && (IsIsoDate(p.value.0) && IsIsoDate(p.value.1) <==> Within(f - 1 - (u - f)))
            && (Within(f - 1 - (u - f)) ==>
                  DiffDays(p.value.0, p.value.1) == DiffDays(from, until) && DiffDays(p.value.1, from) == 1)
  {
    hide ToUtc, FromUtc, IsIsoDate, AddDays, Within;
    DayBeforeReads(f);
    SpanIsSmall(f);
    SpanIsSmall(u);
    AddDaysIs(from, f, -1);
    FromUtcIsIso(f - 1);
    var prevUntil := AddDays(from, -1).value;
    var t := ToUtc(prevUntil).value;
    AddDaysIs(prevUntil, t, -(u - f));
    InBounds(t - (u - f));
    FromUtcIsIso(t - (u - f));
    WithinBefore(f, f - 1 - (u - f));
  }

  lemma WithinBefore(f: int, g: int)
    requires Within(f) && g < f
    ensures Within(g) ==> Within(f - 1)
  {
  }

  lemma InBounds(t: int)
    requires -LAST_DAY <= t <= LAST_DAY
    ensures FromUtc(t).Some?
  {
  }

  /** Which two texts are taken for a window: dates, in order, at most 1100 days apart. */
  lemma WindowIsTakenExactlyWhen(from: string, until: string)
    ensures ExplicitWindow(from, until).Some?
            <==> IsIsoDate(from) && IsIsoDate(until) && 0 <= DiffDays(from, until) < 1100
  {
    hide ToUtc, DiffDays, PreviousWindow, Less;
    if IsIsoDate(from) && IsIsoDate(until) {
      TextsCompareAsDays(until, from);
      Opposite(from, until);
      if 0 <= DiffDays(from, until) {
        IsoIsWithin(from);
        IsoIsWithin(until);
        InOrder(from, until);
        PreviousIsEqual(from, until, ToUtc(from).value, ToUtc(until).value);
      }
    }
  }

  lemma Opposite(s: string, t: string)
    requires IsIsoDate(s) && IsIsoDate(t)
    ensures DiffDays(s, t) == 0 - DiffDays(t, s)
  {
  }

  lemma InOrder(s: string, t: string)
    requires IsIsoDate(s) && IsIsoDate(t) && 0 <= DiffDays(s, t)
    ensures ToUtc(s).value <= ToUtc(t).value
  {
  }

  lemma IsoIsWithin(s: string)
    requires IsIsoDate(s)
    ensures ToUtc(s).Some? && Within(ToUtc(s).value)
  {
    IsoIsWritten(s);
    InRange(DateIn(s));
  }

  // ---- one day ----

  lemma LeapDayReads()
    ensures IsoShaped("2024-02-29") && DateIn("2024-02-29") == Date(2024, 2, 29)
  {
    var s := "2024-02-29";
    assert s[..4] == "2024" && s[5..7] == "02" && s[8..] == "29";
    assert "20"[..1] == "2" && "202"[..2] == "20" && "2024"[..3] == "202";
    assert Read("2") == 2;
    assert Read("20") == 20;
    assert Read("202") == 202;
    assert Read("02") == 2 && Read("29") == 29;
  }

  /** The nineteen thousand seven hundred and eighty-second day after the first of 1970 is a leap day. */
  lemma LeapDay()
    ensures ToUtc("2024-02-29") == Some(19782) && FromUtc(19782) == Some("2024-02-29")
  {
    hide DayOf, Written, IsoShaped, DateIn;
    LeapDayReads();
    WrittenIn("2024-02-29");
    LeapDayNumber();
    OrdinaryIsIso(Date(2024, 2, 29));
  }

  lemma LeapDayNumber()
    ensures DayOf(Date(2024, 2, 29)) == 19782 && Valid(Date(2024, 2, 29))
  {
    MonthTable(2024, 2);
  }
}
