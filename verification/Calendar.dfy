/**
  UTC instants and their text form `2006-01-02T15:04:05.999999999Z07:00` (time.RFC3339Nano), digit by
  digit: the proleptic Gregorian calendar of RFC 3339, fixed-width fields, and a fraction whose
  trailing zeros are dropped. Instants are nanoseconds since 0000-01-01T00:00:00Z.
 */
module Calendar {
  import opened Text

  const SECOND := 1_000_000_000
  const DAY_SECONDS := 86_400

  // ---------- calendar ----------

  predicate Leap(y: nat) { y % 4 == 0 && (y % 100 != 0 || y % 400 == 0) }

  function DaysInMonth(y: nat, m: nat): nat {
    if m == 2 then (if Leap(y) then 29 else 28)
    else if m == 4 || m == 6 || m == 9 || m == 11 then 30 else 31
  }

  function DaysInYear(y: nat): nat { if Leap(y) then 366 else 365 }

  function DaysBeforeYear(y: nat): nat {
    if y == 0 then 0 else DaysBeforeYear(y - 1) + DaysInYear(y - 1)
  }

  function DaysBeforeMonth(y: nat, m: nat): nat
    requires 1 <= m <= 13
  {
    if m == 1 then 0 else DaysBeforeMonth(y, m - 1) + DaysInMonth(y, m - 1)
  }

  lemma MultiplesOf4(y: nat)
    ensures (y + 4) / 4 - (y + 3) / 4 == if y % 4 == 0 then 1 else 0
  {
  }

  lemma MultiplesOf100(y: nat)
    ensures (y + 100) / 100 - (y + 99) / 100 == if y % 100 == 0 then 1 else 0
  {
  }

  lemma MultiplesOf400(y: nat)
    ensures (y + 400) / 400 - (y + 399) / 400 == if y % 400 == 0 then 1 else 0
  {
  }

  lemma Centuries(y: nat)
    ensures y % 400 == 0 ==> y % 100 == 0
    ensures y % 100 == 0 ==> y % 4 == 0
  {
    if y % 400 == 0 { Multiple100(y / 400); }
    if y % 100 == 0 { Multiple4(y / 100); }
  }

  lemma Multiple100(q: nat)
    ensures (400 * q) % 100 == 0
  {
    var d, r := (400 * q) / 100, (400 * q) % 100;
    assert r == 100 * (4 * q - d);
  }

  lemma Multiple4(q: nat)
    ensures (100 * q) % 4 == 0
  {
    var d, r := (100 * q) / 4, (100 * q) % 4;
    assert r == 4 * (25 * q - d);
  }

  function Divides(d: nat, y: nat): nat
    requires d > 0
  {
    if y % d == 0 then 1 else 0
  }

  lemma YearInParts(y: nat)
    ensures DaysInYear(y) == 365 + Divides(4, y) - Divides(100, y) + Divides(400, y)
  {
    Centuries(y);
  }

  /** Multiples of 4, 100 and 400 before the year. */
  function ClosedForm(y: nat): int { 365 * y + (y + 3) / 4 - (y + 99) / 100 + (y + 399) / 400 }

  lemma ClosedStep(y: nat)
    ensures ClosedForm(y + 1) == ClosedForm(y) + 365 + Divides(4, y) - Divides(100, y) + Divides(400, y)
  {
    MultiplesOf4(y);
    MultiplesOf100(y);
    MultiplesOf400(y);
  }

  /** The leap-year rule in closed form. */
  lemma {:induction false} DaysBeforeYearClosed(y: nat)
    ensures DaysBeforeYear(y) == ClosedForm(y)
  {
    if y > 0 {
      DaysBeforeYearClosed(y - 1);
      YearInParts(y - 1);
      ClosedStep(y - 1);
    }
  }

  /** Days before the year 10000. */
  const DAY_LIMIT := 3_652_425

  /** Days whose year has four digits. */
  predicate DayInRange(day: int) { 0 <= day < DAY_LIMIT }

  /** Instants whose year has four digits. */
  predicate InRange(t: int) { 0 <= t < DAY_LIMIT * DAY_SECONDS * SECOND }

  lemma InRangeDay(t: int)
    requires InRange(t)
    ensures DayInRange(t / SECOND / DAY_SECONDS)
  {
  }

  ghost function YearFrom(day: nat, y: nat): (r: nat)
    requires y < 10000 && DaysBeforeYear(y) <= day && DayInRange(day)
    ensures r < 10000 && DaysBeforeYear(r) <= day < DaysBeforeYear(r + 1)
    decreases 10000 - y
  {
    if day < DaysBeforeYear(y + 1) then y
    else
      DaysBeforeYearClosed(y + 1);
      YearFrom(day, y + 1)
  }

  ghost function MonthFrom(y: nat, dayOfYear: nat, m: nat): (r: nat)
    requires 1 <= m <= 12 && DaysBeforeMonth(y, m) <= dayOfYear < DaysInYear(y)
    ensures 1 <= r <= 12 && DaysBeforeMonth(y, r) <= dayOfYear < DaysBeforeMonth(y, r + 1)
    decreases 12 - m
  {
    if m == 12 then YearLength(y); m
    else if dayOfYear < DaysBeforeMonth(y, m + 1) then m
    else MonthFrom(y, dayOfYear, m + 1)
  }

  lemma YearLength(y: nat)
    ensures DaysBeforeMonth(y, 13) == DaysInYear(y)
  {
    assert DaysBeforeMonth(y, 4) == DaysBeforeMonth(y, 3) + 31 == DaysBeforeMonth(y, 2) + DaysInMonth(y, 2) + 31;
    assert DaysBeforeMonth(y, 7) == DaysBeforeMonth(y, 6) + 30 == DaysBeforeMonth(y, 5) + 61 == DaysBeforeMonth(y, 4) + 91;
    assert DaysBeforeMonth(y, 10) == DaysBeforeMonth(y, 9) + 30 == DaysBeforeMonth(y, 8) + 61 == DaysBeforeMonth(y, 7) + 92;
    assert DaysBeforeMonth(y, 13) == DaysBeforeMonth(y, 12) + 31 == DaysBeforeMonth(y, 11) + 61 == DaysBeforeMonth(y, 10) + 92;
  }

  datatype Date = Date(year: nat, month: nat, day: nat)

  ghost predicate ValidDate(d: Date) {
    1 <= d.month <= 12 && 1 <= d.day <= DaysInMonth(d.year, d.month)
  }

  ghost function DayNumber(d: Date): int
    requires ValidDate(d)
  {
    DaysBeforeYear(d.year) + DaysBeforeMonth(d.year, d.month) + d.day - 1
  }

  /** The civil date of a day number. */
  ghost function DateOf(day: int): (d: Date)
    requires DayInRange(day)
    ensures d.year < 10000 && ValidDate(d) && DayNumber(d) == day
  {
    var y := YearFrom(day, 0);
    var m := MonthFrom(y, day - DaysBeforeYear(y), 1);
    Date(y, m, day - DaysBeforeYear(y) - DaysBeforeMonth(y, m) + 1)
  }

  lemma {:induction false} YearsIncrease(a: nat, b: nat)
    requires a <= b
    ensures DaysBeforeYear(a) <= DaysBeforeYear(b)
    decreases b - a
  {
    if a < b { YearsIncrease(a + 1, b); }
  }

  lemma {:induction false} MonthsIncrease(y: nat, a: nat, b: nat)
    requires 1 <= a <= b <= 13
    ensures DaysBeforeMonth(y, a) <= DaysBeforeMonth(y, b)
    decreases b - a
  {
    if a < b { MonthsIncrease(y, a + 1, b); }
  }

  // ---------- fixed-width decimal fields ----------

  function Pow10(w: nat): (p: nat)
    ensures p > 0
  {
    if w == 0 then 1 else 10 * Pow10(w - 1)
  }

  predicate Digits(s: string) {
    forall i :: 0 <= i < |s| ==> '0' <= s[i] <= '9'
  }

  /** `n` in decimal with leading zeros, as %0wd prints it. */
  function Pad(n: nat, w: nat): (s: string)
    ensures |s| == w && Digits(s)
    decreases w
  {
    if w == 0 then "" else Pad(n / 10, w - 1) + [Digit(n % 10)]
  }

  lemma TensFit(n: nat, w: nat)
    requires w > 0 && n < Pow10(w)
    ensures n / 10 < Pow10(w - 1)
  {
  }

  lemma OnesLess(a: nat, b: nat)
    requires a < b
    ensures a / 10 < b / 10 || (a / 10 == b / 10 && a % 10 < b % 10)
  {
  }

  lemma OneDigitLess(a: nat, b: nat)
    requires a < b < 10
    ensures Less([Digit(a)], [Digit(b)])
  {
    DigitOrder(a, b);
  }

  lemma {:induction false} PadIncreases(a: nat, b: nat, w: nat)
    requires a < b < Pow10(w)
    ensures Less(Pad(a, w), Pad(b, w)) && Pad(a, w) != Pad(b, w)
  {
    var p, q, x, y := Pad(a / 10, w - 1), Pad(b / 10, w - 1), [Digit(a % 10)], [Digit(b % 10)];
    OnesLess(a, b);
    TensFit(b, w);
    if a / 10 < b / 10 {
      PadIncreases(a / 10, b / 10, w - 1);
      LessFixedWidth(p, q, x, y);
    } else {
      OneDigitLess(a % 10, b % 10);
      LessCommonPrefix(p, x, y);
    }
    LessIrreflexive(Pad(a, w));
  }

  /** A field is a value, its width and the text after it. */
  datatype Field = Field(value: nat, width: nat, sep: string)

  function PrintFields(fs: seq<Field>): string {
    if fs == [] then "" else Pad(fs[0].value, fs[0].width) + (fs[0].sep + PrintFields(fs[1..]))
  }

  ghost predicate SameLayout(a: seq<Field>, b: seq<Field>) {
    |a| == |b| && forall i :: 0 <= i < |a| ==>
      && a[i].width == b[i].width && a[i].sep == b[i].sep
      && a[i].value < Pow10(a[i].width) && b[i].value < Pow10(b[i].width)
  }

  /** Lexicographic order of the values. */
  ghost predicate LexLess(a: seq<Field>, b: seq<Field>) {
    a != [] && b != [] && (a[0].value < b[0].value || (a[0].value == b[0].value && LexLess(a[1..], b[1..])))
  }

  lemma {:induction false} FieldsOrder(a: seq<Field>, b: seq<Field>)
    requires SameLayout(a, b) && LexLess(a, b)
    ensures Less(PrintFields(a), PrintFields(b)) && |PrintFields(a)| == |PrintFields(b)|
    decreases |a|
  {
    var p, q := Pad(a[0].value, a[0].width), Pad(b[0].value, b[0].width);
    var x, y := a[0].sep + PrintFields(a[1..]), b[0].sep + PrintFields(b[1..]);
    if a[0].value < b[0].value {
      PadIncreases(a[0].value, b[0].value, a[0].width);
      LessFixedWidth(p, q, x, y);
      FieldsLength(a[1..], b[1..]);
    } else {
      FieldsOrder(a[1..], b[1..]);
      LessCommonPrefix(a[0].sep, PrintFields(a[1..]), PrintFields(b[1..]));
      LessCommonPrefix(p, x, y);
    }
  }

  lemma {:induction false} FieldsLength(a: seq<Field>, b: seq<Field>)
    requires SameLayout(a, b)
    ensures |PrintFields(a)| == |PrintFields(b)|
    decreases |a|
  {
    if a != [] { FieldsLength(a[1..], b[1..]); }
  }

  // ---------- seconds ----------

  ghost function DateFields(day: int): seq<Field>
    requires DayInRange(day)
  {
    var d := DateOf(day);
    [Field(d.year, 4, "-"), Field(d.month, 2, "-"), Field(d.day, 2, "")]
  }

  ghost function ClockFields(s: nat): seq<Field>
    requires s < DAY_SECONDS
  {
    [Field(s / 3600, 2, ":"), Field(s / 60 % 60, 2, ":"), Field(s % 60, 2, "")]
  }

  /** time.Format("2006-01-02") */
  ghost function DateText(day: int): string
    requires DayInRange(day)
  {
    PrintFields(DateFields(day))
  }

  ghost function ClockText(s: nat): string
    requires s < DAY_SECONDS
  {
    PrintFields(ClockFields(s))
  }

  /** Everything before the fraction. */
  ghost function SecondText(sec: int): string
    requires 0 <= sec && DayInRange(sec / DAY_SECONDS)
  {
    DateText(sec / DAY_SECONDS) + ("T" + ClockText(sec % DAY_SECONDS))
  }

  /** Earlier days have lexicographically smaller dates. */
  lemma DateOrder(x: Date, y: Date)
    requires ValidDate(x) && ValidDate(y) && DayNumber(x) < DayNumber(y)
    ensures x.year < y.year || (x.year == y.year && (x.month < y.month || (x.month == y.month && x.day < y.day)))
  {
    if x.year > y.year {
      YearsIncrease(y.year + 1, x.year);
      DayOfYearBound(y);
    } else if x.year == y.year && x.month > y.month {
      MonthsIncrease(x.year, y.month + 1, x.month);
    }
  }

  /** Date strings are ordered as their days. */
  lemma DateTextIncreases(a: int, b: int)
    requires DayInRange(a) && DayInRange(b) && a < b
    ensures Less(DateText(a), DateText(b)) && |DateText(a)| == |DateText(b)| && DateText(a) != DateText(b)
  {
    DateOrder(DateOf(a), DateOf(b));
    DateLayout(a, b);
    LexLessThree(DateFields(a), DateFields(b));
    FieldsOrder(DateFields(a), DateFields(b));
    LessIrreflexive(DateText(a));
  }

  lemma LexLessThree(a: seq<Field>, b: seq<Field>)
    requires |a| == |b| == 3
    requires a[0].value < b[0].value || (a[0].value == b[0].value &&
             (a[1].value < b[1].value || (a[1].value == b[1].value && a[2].value < b[2].value)))
    ensures LexLess(a, b)
  {
    assert a[1..][0] == a[1] && b[1..][0] == b[1];
    assert a[1..][1..][0] == a[2] && b[1..][1..][0] == b[2];
  }

  lemma DayOfYearBound(d: Date)
    requires ValidDate(d)
    ensures DaysBeforeMonth(d.year, d.month) + d.day <= DaysInYear(d.year)
  {
    MonthsIncrease(d.year, d.month + 1, 13);
    YearLength(d.year);
  }

  lemma DateLayout(a: int, b: int)
    requires DayInRange(a) && DayInRange(b)
    ensures SameLayout(DateFields(a), DateFields(b))
  {
    DateFits(DateOf(a));
    DateFits(DateOf(b));
    SameFields(DateOf(a), DateOf(b));
  }

  lemma DateFits(d: Date)
    requires ValidDate(d) && d.year < 10000
    ensures d.year < Pow10(4) && d.month < Pow10(2) && d.day < Pow10(2)
  {
    assert Pow10(2) == 100;
    assert Pow10(4) == 100 * Pow10(2);
    MonthBound(d);
  }

  lemma SameFields(d: Date, e: Date)
    requires d.year < Pow10(4) && d.month < Pow10(2) && d.day < Pow10(2)
    requires e.year < Pow10(4) && e.month < Pow10(2) && e.day < Pow10(2)
    ensures SameLayout([Field(d.year, 4, "-"), Field(d.month, 2, "-"), Field(d.day, 2, "")],
                       [Field(e.year, 4, "-"), Field(e.month, 2, "-"), Field(e.day, 2, "")])
  {
  }

  lemma MonthBound(d: Date)
    requires ValidDate(d)
    ensures d.month < 100 && d.day < 100
  {
  }

  lemma ClockTextIncreases(a: nat, b: nat)
    requires a < b < DAY_SECONDS
    ensures Less(ClockText(a), ClockText(b)) && |ClockText(a)| == |ClockText(b)| && ClockText(a) != ClockText(b)
  {
    ClockOrder(a, b);
    FieldsOrder(ClockFields(a), ClockFields(b));
    LessIrreflexive(ClockText(a));
  }

  lemma ClockOrder(a: nat, b: nat)
    requires a < b < DAY_SECONDS
    ensures LexLess(ClockFields(a), ClockFields(b)) && SameLayout(ClockFields(a), ClockFields(b))
  {
    assert Pow10(2) == 100;
    ClockDigits(a, b);
    LexLessThree(ClockFields(a), ClockFields(b));
  }

  lemma ClockDigits(a: nat, b: nat)
    requires a < b < DAY_SECONDS
    ensures a / 3600 < b / 3600 < 24 ||
            (a / 3600 == b / 3600 && (a / 60 % 60 < b / 60 % 60 || (a / 60 % 60 == b / 60 % 60 && a % 60 < b % 60)))
  {
    ClockSplit(a);
    ClockSplit(b);
  }

  lemma ClockSplit(a: nat)
    ensures a == 3600 * (a / 3600) + 60 * (a / 60 % 60) + a % 60
    ensures a % 60 < 60 && a / 60 % 60 < 60
  {
  }

  lemma SecondTextIncreases(a: int, b: int)
    requires 0 <= a < b && DayInRange(a / DAY_SECONDS) && DayInRange(b / DAY_SECONDS)
    ensures Less(SecondText(a), SecondText(b)) && |SecondText(a)| == |SecondText(b)| && SecondText(a) != SecondText(b)
  {
    DayThenClock(a / DAY_SECONDS, a % DAY_SECONDS, b / DAY_SECONDS, b % DAY_SECONDS);
    LessIrreflexive(SecondText(a));
  }

  lemma DayThenClock(da: int, ca: nat, db: int, cb: nat)
    requires DayInRange(da) && DayInRange(db) && ca < DAY_SECONDS && cb < DAY_SECONDS
    requires da < db || (da == db && ca < cb)
    ensures Less(DateText(da) + ("T" + ClockText(ca)), DateText(db) + ("T" + ClockText(cb)))
    ensures |DateText(da)| == |DateText(db)| && |ClockText(ca)| == |ClockText(cb)|
  {
    var x, y := "T" + ClockText(ca), "T" + ClockText(cb);
    if da < db {
      DateTextIncreases(da, db);
      LessFixedWidth(DateText(da), DateText(db), x, y);
      ClockLength(ca, cb);
    } else {
      ClockTextIncreases(ca, cb);
      LessCommonPrefix("T", ClockText(ca), ClockText(cb));
      LessCommonPrefix(DateText(da), x, y);
    }
  }

  lemma ClockLength(a: nat, b: nat)
    requires a < DAY_SECONDS && b < DAY_SECONDS
    ensures |ClockText(a)| == |ClockText(b)|
  {
    assert Pow10(2) == 100;
    FieldsLength(ClockFields(a), ClockFields(b));
  }

  // ---------- fractions ----------

  function TrimZeros(s: string): (r: string)
    ensures r <= s
  {
    if s != "" && s[|s| - 1] == '0' then TrimZeros(s[..|s| - 1]) else s
  }

  /** The fraction digits that are printed: nine digits without trailing zeros. */
  function Fraction(nanos: nat): string { TrimZeros(Pad(nanos, 9)) }

  function FractionText(nanos: nat): string {
    if Fraction(nanos) == "" then "Z" else "." + (Fraction(nanos) + "Z")
  }

  /** t.UTC().Format(time.RFC3339Nano) */
  ghost function Format(t: int): string
    requires InRange(t)
  {
    InRangeDay(t);
    SecondText(t / SECOND) + FractionText(t % SECOND)
  }

  // ---------- what the text says ----------

  lemma {:induction false} PadValue(n: nat, w: nat)
    requires n < Pow10(w)
    ensures Magnitude(Pad(n, w)) == n
  {
    if w > 0 {
      TensFit(n, w);
      DigitValue(n % 10);
      PadValue(n / 10, w - 1);
      assert Pad(n, w)[..w - 1] == Pad(n / 10, w - 1);
    }
  }

  predicate LeapYear(y: nat) { (y % 4 == 0 && y % 100 != 0) || y % 400 == 0 }

  function MonthLength(y: nat, m: nat): nat {
    if m == 2 then (if LeapYear(y) then 29 else 28) else if m in {1, 3, 5, 7, 8, 10, 12} then 31 else 30
  }

  /** The civil date of the next day. */
  function Tomorrow(d: Date): Date {
    if d.day < MonthLength(d.year, d.month) then Date(d.year, d.month, d.day + 1)
    else if d.month < 12 then Date(d.year, d.month + 1, 1)
    else Date(d.year + 1, 1, 1)
  }

  lemma OneDate(a: Date, b: Date)
    requires ValidDate(a) && ValidDate(b) && DayNumber(a) == DayNumber(b)
    ensures a == b
  {
    if a.year < b.year || (a.year == b.year && a.month < b.month) { OtherDay(a, b); }
    if b.year < a.year || (a.year == b.year && b.month < a.month) { OtherDay(b, a); }
  }

  lemma OtherDay(a: Date, b: Date)
    requires ValidDate(a) && ValidDate(b) && (a.year < b.year || (a.year == b.year && a.month < b.month))
    ensures DayNumber(a) < DayNumber(b)
  {
    if a.year < b.year {
      YearsIncrease(a.year + 1, b.year);
      DayOfYearBound(a);
    } else {
      MonthsIncrease(a.year, a.month + 1, b.month);
    }
  }

  /** Day 0 is the first of January of the year 0, */
  lemma FirstDate(day: int)
    requires DayInRange(day) && day < 1
    ensures DateOf(day) == Date(0, 1, 1)
  {
    assert DayNumber(Date(0, 1, 1)) == 0;
    OneDate(DateOf(day), Date(0, 1, 1));
  }

  lemma TomorrowIs(d: Date)
    requires ValidDate(d)
    ensures ValidDate(Tomorrow(d)) && DayNumber(Tomorrow(d)) == DayNumber(d) + 1
  {
    YearLength(d.year);
  }

  /** and every later day has the civil date after that of the day before. */
  lemma NextDate(day: int, next: int)
    requires DayInRange(day) && DayInRange(next) && next == day + 1
    ensures DateOf(next) == Tomorrow(DateOf(day))
  {
    TomorrowIs(DateOf(day));
    OneDate(DateOf(next), Tomorrow(DateOf(day)));
  }

  /** The numbers that a text of digits and separators shows. */
  ghost predicate Shows(text: string, a: nat, b: nat, c: nat, sep: string, width: nat) {
    exists x, y, z :: text == x + (sep + (y + (sep + z))) && |x| == width && |y| == 2 && |z| == 2
                      && Magnitude(x) == a && Magnitude(y) == b && Magnitude(z) == c
                      && Digits(x) && Digits(y) && Digits(z)
  }

  lemma ThreeFields(a: nat, b: nat, c: nat, sep: string, width: nat)
    requires a < Pow10(width) && b < Pow10(2) && c < Pow10(2)
    ensures Shows(PrintFields([Field(a, width, sep), Field(b, 2, sep), Field(c, 2, "")]), a, b, c, sep, width)
  {
    PadValue(a, width);
    PadValue(b, 2);
    PadValue(c, 2);
    var fs := [Field(a, width, sep), Field(b, 2, sep), Field(c, 2, "")];
    assert fs[1..] == [fs[1], fs[2]] && fs[1..][1..] == [fs[2]] && fs[1..][1..][1..] == [];
    assert PrintFields([fs[2]]) == Pad(c, 2) + ("" + "") == Pad(c, 2);
    assert PrintFields(fs) == Pad(a, width) + (sep + (Pad(b, 2) + (sep + Pad(c, 2))));
  }

  /** The time of day in hours, minutes and seconds. */
  ghost predicate ShowsClock(text: string, s: nat) {
    exists h: nat, m: nat :: h < 24 && m < 60 && h * 3600 + m * 60 <= s < h * 3600 + m * 60 + 60
                             && Shows(text, h, m, s - h * 3600 - m * 60, ":", 2)
  }

  lemma ClockMeans(s: nat)
    requires s < DAY_SECONDS
    ensures ShowsClock(ClockText(s), s)
  {
    var h, m, r := s / 3600, s / 60 % 60, s % 60;
    assert Pow10(2) == 100;
    ClockParts(s);
    ThreeFields(h, m, r, ":", 2);
    assert r == s - h * 3600 - m * 60;
  }

  lemma DateMeans(day: int)
    requires DayInRange(day)
    ensures var d := DateOf(day); Shows(DateText(day), d.year, d.month, d.day, "-", 4)
  {
    var d := DateOf(day);
    assert Pow10(2) == 100 && Pow10(4) == 10000;
    MonthDayFit(d);
    ThreeFields(d.year, d.month, d.day, "-", 4);
  }

  /** The text is a date, "T", a time of day and a fraction of a second. */
  ghost predicate ShowsInstant(text: string, d: Date, s: nat, nanos: nat) {
    exists date, clock, fraction ::
      && text == (date + ("T" + clock)) + fraction && Shows(date, d.year, d.month, d.day, "-", 4)
      && ShowsClock(clock, s) && ShowsFraction(fraction, nanos)
  }

  lemma InstantShown(date: string, clock: string, fraction: string, d: Date, s: nat, nanos: nat)
    requires Shows(date, d.year, d.month, d.day, "-", 4) && ShowsClock(clock, s) && ShowsFraction(fraction, nanos)
    ensures ShowsInstant((date + ("T" + clock)) + fraction, d, s, nanos)
  {
  }

  /** A formatted instant shows its UTC date, its time of day and its nanoseconds. */
  lemma FormatMeans(t: int)
    requires InRange(t)
    ensures DayInRange(t / 1_000_000_000 / 86_400)
    ensures ShowsInstant(Format(t), DateOf(t / 1_000_000_000 / 86_400), t / 1_000_000_000 % 86_400, t % 1_000_000_000)
  {
    InRangeDay(t);
    var day, s := t / SECOND / DAY_SECONDS, t / SECOND % DAY_SECONDS;
    DateMeans(day);
    ClockMeans(s);
    FractionMeans(t % SECOND);
    InstantShown(DateText(day), ClockText(s), FractionText(t % SECOND), DateOf(day), s, t % SECOND);
  }

  lemma MonthDayFit(d: Date)
    requires ValidDate(d)
    ensures d.month < 100 && d.day < 100
  {
  }

  lemma ClockParts(s: nat)
    requires s < DAY_SECONDS
    ensures s / 3600 < 24 && s / 60 % 60 < 60 && s == (s / 3600) * 3600 + (s / 60 % 60) * 60 + s % 60
  {
  }

  /** "Z", or a point and up to nine digits without a zero at the end, for the nanoseconds. */
  ghost predicate ShowsFraction(text: string, nanos: nat) {
    if nanos == 0 then text == "Z"
    else exists ds :: text == "." + (ds + "Z") && Digits(ds) && 0 < |ds| <= 9 && ds[|ds| - 1] != '0'
                      && Magnitude(ds) * Pow10(9 - |ds|) == nanos
  }

  lemma {:induction false} TrimValue(s: string)
    requires Digits(s)
    ensures var r := TrimZeros(s); Digits(r) && Magnitude(r) * Pow10(|s| - |r|) == Magnitude(s)
    ensures TrimZeros(s) != "" ==> TrimZeros(s)[|TrimZeros(s)| - 1] != '0'
  {
    if s != "" && s[|s| - 1] == '0' {
      var f := s[..|s| - 1];
      TrimValue(f);
      var r := TrimZeros(f);
      assert Pow10(|s| - |r|) == 10 * Pow10(|f| - |r|);
      TimesTen(Magnitude(r), Pow10(|f| - |r|));
    }
  }

  lemma TimesTen(a: int, b: int)
    ensures a * (10 * b) == 10 * (a * b)
  {
  }

  lemma FractionMeans(nanos: nat)
    requires nanos < SECOND
    ensures ShowsFraction(FractionText(nanos), nanos)
  {
    FractionParts(nanos);
    if nanos == 0 { NoDigits(Fraction(nanos), 9); } else { SomeDigits(Fraction(nanos), nanos); }
  }

  lemma FractionParts(nanos: nat)
    requires nanos < SECOND
    ensures var ds := Fraction(nanos);
      Digits(ds) && |ds| <= 9 && Magnitude(ds) * Pow10(9 - |ds|) == nanos && (ds != "" ==> ds[|ds| - 1] != '0')
  {
    assert Pow10(9) == SECOND;
    PadValue(nanos, 9);
    TrimValue(Pad(nanos, 9));
  }

  lemma SomeDigits(ds: string, nanos: nat)
    requires Digits(ds) && |ds| <= 9 && Magnitude(ds) * Pow10(9 - |ds|) == nanos && (ds != "" ==> ds[|ds| - 1] != '0')
    requires nanos > 0
    ensures ds != "" && ShowsFraction("." + (ds + "Z"), nanos)
  {
    assert Magnitude("") == 0;
  }

  /** Without a value there is no digit that is not zero. */
  lemma NoDigits(ds: string, w: nat)
    requires Digits(ds) && |ds| <= w && Magnitude(ds) * Pow10(w - |ds|) == 0 && (ds != "" ==> ds[|ds| - 1] != '0')
    ensures ds == ""
  {
    if ds != "" {
      MagnitudeNat(ds[..|ds| - 1]);
      assert Magnitude(ds) > 0 && Pow10(w - |ds|) > 0;
      PositiveProduct(Magnitude(ds), Pow10(w - |ds|));
    }
  }

  lemma PositiveProduct(a: int, b: int)
    requires a > 0 && b > 0
    ensures a * b > 0
  {
  }

  lemma {:induction false} MagnitudeNat(s: string)
    requires Digits(s)
    ensures Magnitude(s) >= 0
  {
    if s != "" { MagnitudeNat(s[..|s| - 1]); }
  }

  predicate AllZero(s: string) {
    forall i :: 0 <= i < |s| ==> s[i] == '0'
  }

  /** Trimming from the right, read from the left. */
  lemma {:induction false} TrimZerosFront(s: string)
    requires s != ""
    ensures TrimZeros(s) == if AllZero(s) then "" else [s[0]] + TrimZeros(s[1..])
    decreases |s|
  {
    var n := |s| - 1;
    if s[n] == '0' {
      if n > 0 {
        TrimZerosFront(s[..n]);
        assert s[..n][1..] == s[1..][..n - 1] && s[1..][n - 1] == '0';
        assert AllZero(s) == AllZero(s[..n]);
      } else {
        assert s[..n] == "";
      }
    } else {
      assert !AllZero(s);
      assert [s[0]] + s[1..] == s;
      assert n > 0 ==> s[1..][n - 1] == s[n];
    }
  }

  lemma {:induction false} NothingBelowZero(p: string, q: string)
    requires |p| == |q| && Digits(p) && AllZero(q)
    ensures !Less(p, q)
  {
    if p != "" {
      NothingBelowZero(p[1..], q[1..]);
    }
  }

  predicate ProperPrefix(a: string, b: string) { a < b }

  lemma PrefixCons(c: char, a: string, b: string)
    ensures ProperPrefix([c] + a, [c] + b) <==> ProperPrefix(a, b)
  {
    assert ([c] + a)[1..] == a && ([c] + b)[1..] == b;
  }

  /** Trimmed fractions followed by "Z": the order is right unless one is a proper prefix of the
      other, because 'Z' sorts after the digits. */
  lemma {:induction false} TrimmedOrder(p: string, q: string)
    requires |p| == |q| && Digits(p) && Digits(q) && Less(p, q)
    ensures ProperPrefix(TrimZeros(p), TrimZeros(q)) ==> Less(TrimZeros(q) + "Z", TrimZeros(p) + "Z")
    ensures !ProperPrefix(TrimZeros(p), TrimZeros(q)) ==> Less(TrimZeros(p) + "Z", TrimZeros(q) + "Z")
    ensures TrimZeros(q) != ""
  {
    TrimZerosFront(p);
    TrimZerosFront(q);
    if AllZero(q) {
      NothingBelowZero(p, q);
      assert false;
    }
    var tp, tq := TrimZeros(p), TrimZeros(q);
    if AllZero(p) {
      assert "" + "Z" == "Z" && (tq + "Z")[0] == q[0];
    } else if p[0] == q[0] {
      TrimmedOrder(p[1..], q[1..]);
      ConsZ(p[0], TrimZeros(p[1..]), TrimZeros(q[1..]));
    } else {
      assert (tp + "Z")[0] == p[0] && (tq + "Z")[0] == q[0];
    }
  }

  lemma ConsZ(c: char, a: string, b: string)
    ensures ProperPrefix([c] + a, [c] + b) <==> ProperPrefix(a, b)
    ensures Less(([c] + a) + "Z", ([c] + b) + "Z") <==> Less(a + "Z", b + "Z")
    ensures Less(([c] + b) + "Z", ([c] + a) + "Z") <==> Less(b + "Z", a + "Z")
  {
    PrefixCons(c, a, b);
    assert ([c] + a) + "Z" == [c] + (a + "Z") && ([c] + b) + "Z" == [c] + (b + "Z");
  }

  lemma FractionOrder(a: nat, b: nat)
    requires a < b < SECOND
    ensures ProperPrefix(Fraction(a), Fraction(b)) ==> Less(FractionText(b), FractionText(a))
    ensures !ProperPrefix(Fraction(a), Fraction(b)) ==> Less(FractionText(a), FractionText(b))
  {
    assert Pow10(9) == SECOND by { assert Pow10(4) == 10000; assert Pow10(8) == 10000 * 10000; }
    PadIncreases(a, b, 9);
    TrimmedOrder(Pad(a, 9), Pad(b, 9));
    if Fraction(a) != "" {
      LessCommonPrefix(".", Fraction(a) + "Z", Fraction(b) + "Z");
      LessCommonPrefix(".", Fraction(b) + "Z", Fraction(a) + "Z");
    }
  }

  // ---------- the order of formatted instants ----------

  /** Both instants lie in one second and the printed fraction of the first is a proper prefix of the
      printed fraction of the second. */
  predicate Anomalous(a: nat, b: nat) {
    a / SECOND == b / SECOND && ProperPrefix(Fraction(a % SECOND), Fraction(b % SECOND))
  }

  /** The string order agrees with the time order except exactly on the anomalous pairs, where it is
      reversed. */
  lemma FormatOrder(a: int, b: int)
    requires InRange(a) && InRange(b)
    ensures Less(Format(a), Format(b)) <==> if a < b then !Anomalous(a, b) else Anomalous(b, a)
  {
    if a < b {
      FormatOrderUp(a, b);
    } else if b < a {
      FormatOrderUp(b, a);
    } else {
      LessIrreflexive(Format(a));
    }
  }

  lemma FormatOrderUp(a: int, b: int)
    requires InRange(a) && InRange(b) && a < b
    ensures Less(Format(b), Format(a)) <==> Anomalous(a, b)
    ensures Less(Format(a), Format(b)) <==> !Anomalous(a, b)
  {
    if a / SECOND == b / SECOND {
      SameSecondOrder(SecondText(a / SECOND), a % SECOND, b % SECOND);
    } else {
      SecondTextIncreases(a / SECOND, b / SECOND);
      var x, y := FractionText(a % SECOND), FractionText(b % SECOND);
      LessFixedWidth(SecondText(a / SECOND), SecondText(b / SECOND), x, y);
      LessAsymmetric(Format(a), Format(b));
    }
  }

  lemma SameSecondOrder(p: string, a: nat, b: nat)
    requires a < b < SECOND
    ensures Less(p + FractionText(b), p + FractionText(a)) <==> ProperPrefix(Fraction(a), Fraction(b))
    ensures Less(p + FractionText(a), p + FractionText(b)) <==> !ProperPrefix(Fraction(a), Fraction(b))
  {
    var x, y := FractionText(a), FractionText(b);
    FractionOrder(a, b);
    LessCommonPrefix(p, x, y);
    LessCommonPrefix(p, y, x);
    if Less(x, y) { LessAsymmetric(x, y); } else { LessAsymmetric(y, x); }
  }

  /** A string comparison is never wrong by a second or more. */
  lemma FormatWithinSecond(a: int, b: int)
    requires InRange(a) && InRange(b)
    ensures Less(Format(a), Format(b)) ==> a < b + SECOND
    ensures a + SECOND <= b ==> Less(Format(a), Format(b))
  {
    FormatOrder(a, b);
  }
}
