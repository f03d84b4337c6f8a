/** The timestamp prefix of a migration file: which 14-digit prefixes are accepted, and how the time
    values they stand for are ordered. Days and years follow section 21.4.1 of ECMA-262. */
module MigrationTime {
  import opened Basics

  /** A date and time as written, digits only; seconds carry no fraction. */
  datatype Fields = Fields(year: int, month: int, day: int, hour: int, minute: int, second: int)

  // ---------------------------------------------------------------------------------------------
  // The calendar
  // ---------------------------------------------------------------------------------------------

  predicate LeapYear(y: int) {
    y % 4 == 0 && (y % 100 != 0 || y % 400 == 0)
  }

  function DaysInYear(y: int): int {
    if LeapYear(y) then 366 else 365
  }

  /** Day number of January 1; division rounds down. */
  function DayFromYear(y: int): int {
    365 * (y - 1970) + (y - 1969) / 4 - (y - 1901) / 100 + (y - 1601) / 400
  }

  function DaysInMonth(y: int, m: int): int {
    if m == 2 then (if LeapYear(y) then 29 else 28)
    else if m in {4, 6, 9, 11} then 30
    else 31
  }

  /** Days of the year before month m. */
  function MonthStart(y: int, m: int): int
    requires 1 <= m <= 13
  {
    if m == 1 then 0 else MonthStart(y, m - 1) + DaysInMonth(y, m - 1)
  }

  function DayNumber(y: int, m: int, d: int): int
    requires 1 <= m <= 12
  {
    DayFromYear(y) + MonthStart(y, m) + d - 1
  }

  predicate ValidDate(f: Fields) {
    1 <= f.month <= 12 && 1 <= f.day <= DaysInMonth(f.year, f.month)
  }

  predicate ValidTime(f: Fields) {
    0 <= f.hour <= 23 && 0 <= f.minute <= 59 && 0 <= f.second <= 59
  }

  /** A date and time there is. */
  predicate Civil(f: Fields) {
    ValidDate(f) && ValidTime(f)
  }

  function Every(n: int, y: int): int
    requires n > 0
  {
    if y % n == 0 then 1 else 0
  }

  lemma FourthStep(y: int)
    ensures (y - 1968) / 4 == (y - 1969) / 4 + Every(4, y)
  {
  }

  lemma CenturyStep(y: int)
    ensures (y - 1900) / 100 == (y - 1901) / 100 + Every(100, y)
  {
  }

  lemma CycleStep(y: int)
    ensures (y - 1600) / 400 == (y - 1601) / 400 + Every(400, y)
  {
  }

  lemma YearLength(y: int)
    ensures DaysInYear(y) == 365 + Every(4, y) - Every(100, y) + Every(400, y)
  {
  }

  lemma NextYear(y: int)
    ensures DayFromYear(y + 1) == 365 * (y - 1969) + (y - 1968) / 4 - (y - 1900) / 100 + (y - 1600) / 400
  {
  }

  lemma YearStep(y: int)
    ensures DayFromYear(y + 1) == DayFromYear(y) + DaysInYear(y)
  {
    NextYear(y);
    FourthStep(y);
    CenturyStep(y);
    CycleStep(y);
    YearLength(y);
  }

  lemma {:induction false} YearsAscend(y: int, z: int)
    requires y < z
    ensures DayFromYear(y) + DaysInYear(y) <= DayFromYear(z)
    decreases z - y
  {
    YearStep(y);
    if y + 1 < z {
      YearsAscend(y + 1, z);
    }
  }

  lemma {:induction false} MonthsAscend(y: int, m: int, n: int)
    requires 1 <= m < n <= 13
    ensures MonthStart(y, m) + DaysInMonth(y, m) <= MonthStart(y, n)
    decreases n - m
  {
    if m + 1 < n {
      MonthsAscend(y, m, n - 1);
    }
  }

  lemma YearIsItsMonths(y: int)
    ensures MonthStart(y, 13) == DaysInYear(y)
  {
    assert MonthStart(y, 4) == MonthStart(y, 3) + 31 == MonthStart(y, 2) + DaysInMonth(y, 2) + 31;
    assert MonthStart(y, 7) == MonthStart(y, 6) + 30 == MonthStart(y, 5) + 61 == MonthStart(y, 4) + 91;
    assert MonthStart(y, 10) == MonthStart(y, 9) + 30 == MonthStart(y, 8) + 61 == MonthStart(y, 7) + 92;
    assert MonthStart(y, 13) == MonthStart(y, 12) + 31 == MonthStart(y, 11) + 61 == MonthStart(y, 10) + 92;
  }

  // The standard's own figures

  /** Years by the number of their days. */
  lemma YearLengths(y: int)
    ensures DaysInYear(y) == if y % 4 != 0 then 365 else if y % 100 != 0 then 366 else if y % 400 != 0 then 365 else 366
  {
  }

  /** Months by the day of the year they begin on. */
  lemma MonthsBegin(y: int)
    ensures var leap := if DaysInYear(y) == 366 then 1 else 0;
            && MonthStart(y, 1) == 0 && MonthStart(y, 2) == 31 && MonthStart(y, 3) == 59 + leap
            && MonthStart(y, 4) == 90 + leap && MonthStart(y, 5) == 120 + leap && MonthStart(y, 6) == 151 + leap
            && MonthStart(y, 7) == 181 + leap && MonthStart(y, 8) == 212 + leap && MonthStart(y, 9) == 243 + leap
            && MonthStart(y, 10) == 273 + leap && MonthStart(y, 11) == 304 + leap && MonthStart(y, 12) == 334 + leap
            && MonthStart(y, 13) == 365 + leap
  {
    assert MonthStart(y, 3) == MonthStart(y, 2) + DaysInMonth(y, 2);
    assert MonthStart(y, 5) == MonthStart(y, 4) + 30 == MonthStart(y, 3) + 61;
    assert MonthStart(y, 7) == MonthStart(y, 6) + 30 == MonthStart(y, 5) + 61;
    assert MonthStart(y, 9) == MonthStart(y, 8) + 31 == MonthStart(y, 7) + 62;
    assert MonthStart(y, 11) == MonthStart(y, 10) + 31 == MonthStart(y, 9) + 61;
    assert MonthStart(y, 13) == MonthStart(y, 12) + 31 == MonthStart(y, 11) + 61;
  }

  /** Civil dates by month. */
  lemma MonthsLast(f: Fields)
    ensures ValidDate(f) <==> 1 <= f.month <= 12 && 1 <= f.day <= MonthStart(f.year, f.month + 1) - MonthStart(f.year, f.month)
  {
  }

  // ---------------------------------------------------------------------------------------------
  // Date.parse and toISOString
  // ---------------------------------------------------------------------------------------------

  function Seconds(f: Fields): int {
    (f.hour * 60 + f.minute) * 60 + f.second
  }

  /** Milliseconds since the epoch. */
  function TimeValue(f: Fields): int
    requires 1 <= f.month <= 12
  {
    1000 * (86400 * DayNumber(f.year, f.month, f.day) + Seconds(f))
  }

  /** Date.parse of the written form: none is NaN. A month has any day up to 31, which then counts on
      into the next month, and 24:00:00 is the end of the day. */
  function Parse(f: Fields): Option<int> {
    if 1 <= f.month <= 12 && 1 <= f.day <= 31 && 0 <= f.minute <= 59 && 0 <= f.second <= 59
       && (0 <= f.hour <= 23 || (f.hour == 24 && f.minute == 0 && f.second == 0))
    then Some(TimeValue(f))
    else None
  }

  /** The year a day lies in, looked for from year y on. */
  function YearOf(day: int, y: int): (r: int)
    ensures DayFromYear(r) <= day < DayFromYear(r + 1)
    decreases if day < DayFromYear(y) then 1 else 0, if day < DayFromYear(y) then DayFromYear(y) - day else day - DayFromYear(y)
  {
    if day < DayFromYear(y) then
      YearStep(y - 1);
      YearOf(day, y - 1)
    else if DayFromYear(y + 1) <= day then
      YearStep(y);
      YearOf(day, y + 1)
    else y
  }

  /** The month a day of year y lies in, looked for from month m on. */
  function MonthOf(y: int, dayInYear: int, m: int): (r: int)
    requires 1 <= m <= 12 && MonthStart(y, m) <= dayInYear < DaysInYear(y)
    ensures 1 <= r <= 12 && MonthStart(y, r) <= dayInYear < MonthStart(y, r + 1)
    decreases 12 - m
  {
    YearIsItsMonths(y);
    if dayInYear < MonthStart(y, m + 1) then m else MonthOf(y, dayInYear, m + 1)
  }

  /** Year, month and day of the month. */
  function Date(day: int): (int, int, int) {
    var year := YearOf(day, 1970);
    YearStep(year);
    var dayInYear := day - DayFromYear(year);
    var month := MonthOf(year, dayInYear, 1);
    (year, month, dayInYear - MonthStart(year, month) + 1)
  }

  /** The date and time so many seconds into a day. */
  function OnDay(day: int, within: int): Fields {
    var (year, month, dayOfMonth) := Date(day);
    Fields(year, month, dayOfMonth, within / 3600, within / 60 % 60, within % 60)
  }

  /** The fields toISOString writes for a time value of whole seconds. */
  function Written(t: int): Fields {
    OnDay(t / 1000 / 86400, t / 1000 % 86400)
  }

  /** The check of the loader: the prefix parses, and its time value is written back the same. */
  predicate Accepts(f: Fields) {
    Parse(f).Some? && Written(Parse(f).value) == f
  }

  lemma WrittenIsCivil(t: int)
    ensures Civil(Written(t))
  {
  }

  lemma YearIsUnique(day: int, y: int, z: int)
    requires DayFromYear(y) <= day < DayFromYear(y + 1) && DayFromYear(z) <= day < DayFromYear(z + 1)
    ensures y == z
  {
  }

  lemma MonthIsUnique(y: int, day: int, m: int, n: int)
    requires 1 <= m <= 12 && 1 <= n <= 12
    requires MonthStart(y, m) <= day < MonthStart(y, m + 1) && MonthStart(y, n) <= day < MonthStart(y, n + 1)
    ensures m == n
  {
    if m < n {
      MonthsAscend(y, m, n);
    } else if n < m {
      MonthsAscend(y, n, m);
    }
  }

  lemma DateInYear(y: int, m: int, d: int)
    requires 1 <= m <= 12 && 1 <= d <= DaysInMonth(y, m)
    ensures DayFromYear(y) <= DayNumber(y, m, d) < DayFromYear(y + 1)
    ensures 0 <= MonthStart(y, m)
  {
    YearIsItsMonths(y);
    YearStep(y);
    if m < 12 {
      MonthsAscend(y, m, 13);
    }
    if 1 < m {
      MonthsAscend(y, 1, m);
    }
  }

  lemma ClockFields(f: Fields)
    requires ValidTime(f)
    ensures var within := Seconds(f);
            0 <= within < 86400 && within / 3600 == f.hour && within / 60 % 60 == f.minute && within % 60 == f.second
  {
  }

  lemma DaySplit(day: int, seconds: int)
    requires 0 <= seconds < 86400
    ensures var t := 1000 * (86400 * day + seconds); t / 1000 / 86400 == day && t / 1000 % 86400 == seconds
  {
  }

  lemma DateInverts(y: int, m: int, d: int)
    requires 1 <= m <= 12 && 1 <= d <= DaysInMonth(y, m)
    ensures Date(DayNumber(y, m, d)) == (y, m, d)
  {
    var day := DayNumber(y, m, d);
    DateInYear(y, m, d);
    YearIsUnique(day, YearOf(day, 1970), y);
    YearStep(y);
    MonthIsUnique(y, day - DayFromYear(y), MonthOf(y, day - DayFromYear(y), 1), m);
  }

  lemma OnDayInverts(f: Fields)
    requires Civil(f)
    ensures OnDay(DayNumber(f.year, f.month, f.day), Seconds(f)) == f
  {
    ClockFields(f);
    DateInverts(f.year, f.month, f.day);
  }

  lemma WrittenInvertsTimeValue(f: Fields)
    requires Civil(f)
    ensures Written(TimeValue(f)) == f
  {
    ClockFields(f);
    DaySplit(DayNumber(f.year, f.month, f.day), Seconds(f));
    OnDayInverts(f);
  }

  /** A prefix is accepted exactly when it is a date and a time there is. */
  lemma AcceptsExactlyCivil(f: Fields)
    ensures Accepts(f) <==> Civil(f)
  {
    if Accepts(f) {
      WrittenIsCivil(Parse(f).value);
    }
    if Civil(f) {
      WrittenInvertsTimeValue(f);
    }
  }

  /** What a day, an hour, a minute and a second add. */
  lemma TimeValueCounts(f: Fields)
    requires 1 <= f.month <= 12
    ensures TimeValue(f) == 86_400_000 * (DayFromYear(f.year) + MonthStart(f.year, f.month) + f.day - 1)
                            + 3_600_000 * f.hour + 60_000 * f.minute + 1000 * f.second
  {
    var day := DayFromYear(f.year) + MonthStart(f.year, f.month) + f.day - 1;
    assert TimeValue(f) == 1000 * (86400 * day + Seconds(f));
  }

  lemma EpochYear(y: int)
    requires y == 1970
    ensures DayFromYear(y) == 0
  {
  }

  /** The epoch. */
  lemma EpochIsZero(f: Fields)
    requires f.year == 1970 && f.month == f.day == 1 && f.hour == f.minute == f.second == 0
    ensures TimeValue(f) == 0
  {
    EpochYear(f.year);
  }

  // ---------------------------------------------------------------------------------------------
  // Order
  // ---------------------------------------------------------------------------------------------

  /** The order of the fields, the larger units first. */
  predicate Before(f: Fields, g: Fields) {
    || f.year < g.year
    || (f.year == g.year && f.month < g.month)
    || (f.year == g.year && f.month == g.month && f.day < g.day)
    || (f.year == g.year && f.month == g.month && f.day == g.day && ClockBefore(f, g))
  }

  predicate ClockBefore(f: Fields, g: Fields) {
    || f.hour < g.hour
    || (f.hour == g.hour && f.minute < g.minute)
    || (f.hour == g.hour && f.minute == g.minute && f.second < g.second)
  }

  lemma BeforeIsEarlier(f: Fields, g: Fields)
    requires Civil(f) && Civil(g) && Before(f, g)
    ensures TimeValue(f) < TimeValue(g)
  {
    ClockFields(f);
    ClockFields(g);
    DateInYear(f.year, f.month, f.day);
    DateInYear(g.year, g.month, g.day);
    if f.year < g.year {
      YearsAscend(f.year, g.year);
      YearStep(f.year);
    } else if f.month < g.month {
      MonthsAscend(f.year, f.month, g.month);
    }
    assert DayNumber(f.year, f.month, f.day) < DayNumber(g.year, g.month, g.day)
        || (DayNumber(f.year, f.month, f.day) == DayNumber(g.year, g.month, g.day) && Seconds(f) < Seconds(g));
  }

  /** Time values order dates as their fields do. */
  lemma TimeValueIsMonotone(f: Fields, g: Fields)
    requires Civil(f) && Civil(g)
    ensures TimeValue(f) < TimeValue(g) <==> Before(f, g)
    ensures TimeValue(f) == TimeValue(g) <==> f == g
  {
    if Before(f, g) {
      BeforeIsEarlier(f, g);
    } else if Before(g, f) {
      BeforeIsEarlier(g, f);
    } else {
      ClockFields(f);
      ClockFields(g);
    }
  }

  // ---------------------------------------------------------------------------------------------
  // Digits
  // ---------------------------------------------------------------------------------------------

  predicate Digit(c: char) {
    '0' <= c <= '9'
  }

  predicate Digits(s: string) {
    forall i | 0 <= i < |s| :: Digit(s[i])
  }

  function DigitValue(c: char): (v: nat)
    requires Digit(c)
    ensures v < 10
  {
    c as int - '0' as int
  }

  function Pow10(k: nat): (r: nat)
    ensures r >= 1
  {
    if k == 0 then 1 else 10 * Pow10(k - 1)
  }

  function Value(s: string): nat
    requires Digits(s)
  {
    if s == "" then 0 else 10 * Value(s[..|s| - 1]) + DigitValue(s[|s| - 1])
  }

  function Decimal(n: nat): (s: string)
    ensures Digits(s) && s != ""
  {
    if n < 10 then [n as char + '0'] else Decimal(n / 10) + [(n % 10) as char + '0']
  }

  lemma {:induction false} ValueBelow(s: string)
    requires Digits(s)
    ensures Value(s) < Pow10(|s|)
  {
    if s != "" {
      ValueBelow(s[..|s| - 1]);
    }
  }

  lemma {:induction false} ValueSplit(s: string, i: nat)
    requires Digits(s) && i <= |s|
    ensures Value(s) == Value(s[..i]) * Pow10(|s| - i) + Value(s[i..])
    decreases |s|
  {
    if i < |s| {
      var front := s[..|s| - 1];
      ValueSplit(front, i);
      assert front[..i] == s[..i];
      ValueAppend(s[i..]);
      assert s[i..][..|s[i..]| - 1] == front[i..];
      TimesTen(Value(s[..i]), Pow10(|front| - i));
    } else {
      assert s[..i] == s;
    }
  }

  lemma ValueAppend(s: string)
    requires Digits(s) && s != ""
    ensures Value(s) == 10 * Value(s[..|s| - 1]) + DigitValue(s[|s| - 1])
  {
  }

  lemma TimesTen(a: int, b: int)
    ensures 10 * (a * b) == a * (10 * b)
  {
  }

  lemma {:induction false} DecimalValue(n: nat)
    ensures Value(Decimal(n)) == n
  {
    if n >= 10 {
      DecimalValue(n / 10);
      var s := Decimal(n);
      assert s[..|s| - 1] == Decimal(n / 10);
    }
  }

  lemma {:induction false} DecimalLength(n: nat)
    ensures n > 0 ==> Pow10(|Decimal(n)| - 1) <= n
  {
    if n >= 10 {
      DecimalLength(n / 10);
    }
  }

  lemma {:induction false} PowAscends(j: nat, k: nat)
    requires j <= k
    ensures Pow10(j) <= Pow10(k)
  {
    if j < k {
      PowAscends(j, k - 1);
    }
  }

  /** A number of at least one digit has k digits between the powers of ten. */
  lemma DigitCount(n: nat, k: nat)
    requires k > 0 && Pow10(k - 1) <= n
    ensures |Decimal(n)| >= k
    ensures n < Pow10(k) ==> |Decimal(n)| == k
  {
    DecimalValue(n);
    ValueBelow(Decimal(n));
    DecimalLength(n);
    if |Decimal(n)| < k {
      PowAscends(|Decimal(n)|, k - 1);
    }
    if |Decimal(n)| > k {
      PowAscends(k, |Decimal(n)| - 1);
    }
  }

  lemma FewDigits(n: nat, k: nat)
    requires k > 0 && n < Pow10(k)
    ensures |Decimal(n)| <= k
  {
  }

  // ---------------------------------------------------------------------------------------------
  // The prefix of a file name
  // ---------------------------------------------------------------------------------------------

  predicate IsPrefix(p: string) {
    |p| == 14 && Digits(p)
  }

  function FieldsOf(p: string): Fields
    requires IsPrefix(p)
  {
    Fields(Value(p[..4]), Value(p[4..6]), Value(p[6..8]), Value(p[8..10]), Value(p[10..12]), Value(p[12..]))
  }

  /** Order of texts, the first difference decides. */
  predicate TextBefore(s: string, t: string) {
    s != "" && t != "" && (s[0] < t[0] || (s[0] == t[0] && TextBefore(s[1..], t[1..])))
  }

  lemma OneDigit(c: char)
    requires Digit(c)
    ensures Digits([c]) && Value([c]) == DigitValue(c)
  {
  }

  lemma FirstDigit(s: string)
    requires Digits(s) && s != ""
    ensures Value(s) == DigitValue(s[0]) * Pow10(|s| - 1) + Value(s[1..]) && Value(s[1..]) < Pow10(|s| - 1)
  {
    ValueSplit(s, 1);
    assert s[..1] == [s[0]];
    OneDigit(s[0]);
    ValueBelow(s[1..]);
  }

  lemma LeadingDigitDecides(d: int, e: int, b: int, x: int, y: int)
    requires d < e && 0 <= x < b && 0 <= y
    ensures d * b + x < e * b + y
  {
    assert (d + 1) * b <= e * b;
  }

  lemma {:induction false} TextOrderIsNumeric(s: string, t: string)
    requires |s| == |t| && Digits(s) && Digits(t)
    ensures TextBefore(s, t) <==> Value(s) < Value(t)
    ensures s == t <==> Value(s) == Value(t)
  {
    if s != "" {
      TextOrderIsNumeric(s[1..], t[1..]);
      FirstDigit(s);
      FirstDigit(t);
      assert s == [s[0]] + s[1..] && t == [t[0]] + t[1..];
      if s[0] < t[0] {
        LeadingDigitDecides(DigitValue(s[0]), DigitValue(t[0]), Pow10(|s| - 1), Value(s[1..]), Value(t[1..]));
      } else if t[0] < s[0] {
        LeadingDigitDecides(DigitValue(t[0]), DigitValue(s[0]), Pow10(|s| - 1), Value(t[1..]), Value(s[1..]));
      }
    }
  }

  lemma PairSplit(p: string, i: nat)
    requires Digits(p) && i + 2 <= |p|
    ensures Value(p[..i + 2]) == 100 * Value(p[..i]) + Value(p[i..i + 2])
    ensures Value(p[i..i + 2]) < 100
  {
    ValueSplit(p[..i + 2], i);
    assert p[..i + 2][..i] == p[..i] && p[..i + 2][i..] == p[i..i + 2];
    assert Pow10(2) == 10 * Pow10(1) == 100;
    ValueBelow(p[i..i + 2]);
  }

  function Joined(f: Fields): int {
    ((((f.year * 100 + f.month) * 100 + f.day) * 100 + f.hour) * 100 + f.minute) * 100 + f.second
  }

  predicate TwoDigits(f: Fields) {
    0 <= f.month < 100 && 0 <= f.day < 100 && 0 <= f.hour < 100 && 0 <= f.minute < 100 && 0 <= f.second < 100
  }

  lemma PrefixDate(p: string)
    requires IsPrefix(p)
    ensures Value(p[..8]) == (Value(p[..4]) * 100 + Value(p[4..6])) * 100 + Value(p[6..8])
    ensures Value(p[4..6]) < 100 && Value(p[6..8]) < 100
  {
    PairSplit(p, 4);
    PairSplit(p, 6);
  }

  lemma PrefixClock(p: string)
    requires IsPrefix(p)
    ensures Value(p) == ((Value(p[..8]) * 100 + Value(p[8..10])) * 100 + Value(p[10..12])) * 100 + Value(p[12..])
    ensures Value(p[8..10]) < 100 && Value(p[10..12]) < 100 && Value(p[12..]) < 100
  {
    PairSplit(p, 8);
    PairSplit(p, 10);
    PairSplit(p, 12);
    assert p[..14] == p && p[12..14] == p[12..];
  }

  lemma PrefixValue(p: string)
    requires IsPrefix(p)
    ensures Value(p) == Joined(FieldsOf(p)) && TwoDigits(FieldsOf(p))
  {
    PrefixDate(p);
    PrefixClock(p);
  }

  lemma JoinedOrder(f: Fields, g: Fields)
    requires TwoDigits(f) && TwoDigits(g)
    ensures Joined(f) < Joined(g) <==> Before(f, g)
    ensures Joined(f) == Joined(g) <==> f == g
  {
  }

  /** Prefixes compare as text the way their dates do. */
  lemma PrefixOrder(p: string, q: string)
    requires IsPrefix(p) && IsPrefix(q)
    ensures TextBefore(p, q) <==> Before(FieldsOf(p), FieldsOf(q))
    ensures p == q <==> FieldsOf(p) == FieldsOf(q)
  {
    TextOrderIsNumeric(p, q);
    PrefixValue(p);
    PrefixValue(q);
    JoinedOrder(FieldsOf(p), FieldsOf(q));
  }

  // ---------------------------------------------------------------------------------------------
  // The number a migration is sorted by: the last 13 characters of its name
  // ---------------------------------------------------------------------------------------------

  function TimeText(t: int): string {
    if t < 0 then "-" + Decimal(-t) else Decimal(t)
  }

  function NameOf(id: string, t: int): string {
    id + "_" + TimeText(t)
  }

  function LastThirteen(s: string): string {
    if |s| <= 13 then s else s[|s| - 13..]
  }

  /** The number a text of digits stands for, with or without a minus sign; none is NaN. */
  function Number(s: string): Option<int> {
    if s != "" && Digits(s) then Some(Value(s))
    else if |s| > 1 && s[0] == '-' && Digits(s[1..]) then Some(0 - Value(s[1..]))
    else None
  }

  function SortKey(name: string): Option<int> {
    Number(LastThirteen(name))
  }

  /** Time values the last 13 characters show in full. */
  predicate Shown(t: int) {
    1_000_000_000_000 <= t < 10_000_000_000_000 || -1_000_000_000_000 < t <= -100_000_000_000
  }

  function Magnitude(t: int): nat {
    if t < 0 then -t else t
  }

  /** What the last 13 characters make of a time value. */
  function Key(t: int): Option<int> {
    if Shown(t) then Some(t)
    else if Magnitude(t) < 1_000_000_000_000 then None
    else Some(Magnitude(t) % 10_000_000_000_000)
  }

  lemma Powers()
    ensures Pow10(11) == 100_000_000_000 && Pow10(12) == 1_000_000_000_000 && Pow10(13) == 10_000_000_000_000
  {
  }

  lemma SeparatorIsNotNumeric(id: string, t: int)
    requires |TimeText(t)| < 13 && id != ""
    ensures SortKey(NameOf(id, t)) == None
  {
    var text := LastThirteen(NameOf(id, t));
    var i := |text| - 1 - |TimeText(t)|;
    assert i >= 0 && text[i] == '_';
    assert !Digit(text[i]);
    if i > 0 {
      assert !Digit(text[1..][i - 1]);
    }
  }

  lemma TailValue(s: string)
    requires Digits(s) && |s| >= 13
    ensures Value(s[|s| - 13..]) == Value(s) % Pow10(13)
  {
    var i := |s| - 13;
    ValueBelow(s[i..]);
    ValueSplit(s, i);
    Remainder(Value(s[..i]), Value(s[i..]));
  }

  lemma Remainder(a: nat, r: nat)
    requires r < Pow10(13)
    ensures (a * Pow10(13) + r) % Pow10(13) == r
  {
  }

  lemma LongTail(id: string, t: int)
    requires |Decimal(Magnitude(t))| >= 13
    ensures SortKey(NameOf(id, t)) == Some(Magnitude(t) % Pow10(13))
  {
    var digits := Decimal(Magnitude(t));
    assert LastThirteen(NameOf(id, t)) == digits[|digits| - 13..];
    TailValue(digits);
    DecimalValue(Magnitude(t));
  }

  lemma SignedTail(id: string, t: int)
    requires t < 0 && |Decimal(-t)| == 12
    ensures SortKey(NameOf(id, t)) == Some(t)
  {
    var text := LastThirteen(NameOf(id, t));
    assert text == TimeText(t) && text[1..] == Decimal(-t) && !Digit(text[0]);
    DecimalValue(-t);
  }

  lemma WholeTail(t: int)
    requires Pow10(12) <= t < Pow10(13)
    ensures t % Pow10(13) == t
  {
  }

  lemma SortKeyIs(id: string, t: int)
    requires id != ""
    ensures SortKey(NameOf(id, t)) == Key(t)
  {
    Powers();
    var n := Magnitude(t);
    if n >= Pow10(12) {
      DigitCount(n, 13);
      LongTail(id, t);
      if 0 <= t < Pow10(13) {
        WholeTail(t);
      }
    } else if t < 0 && n >= Pow10(11) {
      DigitCount(n, 12);
      SignedTail(id, t);
    } else {
      FewDigits(n, if t < 0 then 11 else 12);
      SeparatorIsNotNumeric(id, t);
    }
  }

  /** The sort key is the time value itself exactly for the time values shown in full. */
  lemma SortKeyIsTimeExactly(id: string, t: int)
    requires id != ""
    ensures SortKey(NameOf(id, t)) == Some(t) <==> Shown(t)
  {
    SortKeyIs(id, t);
  }

  /** Where both keys are shown in full, sorting by them is sorting by prefix. */
  lemma KeysOrderAsPrefixes(p: string, q: string)
    requires IsPrefix(p) && IsPrefix(q) && Civil(FieldsOf(p)) && Civil(FieldsOf(q))
    requires Shown(TimeValue(FieldsOf(p))) && Shown(TimeValue(FieldsOf(q)))
    ensures var x, y := Key(TimeValue(FieldsOf(p))), Key(TimeValue(FieldsOf(q)));
            (x.value < y.value <==> TextBefore(p, q)) && (x == y <==> p == q)
  {
    TimeValueIsMonotone(FieldsOf(p), FieldsOf(q));
    PrefixOrder(p, q);
  }

  function NewYear(y: int): Fields {
    Fields(y, 1, 1, 0, 0, 0)
  }

  /** The first second of any year is a date and time there is. */
  lemma NewYearIsAccepted(y: int)
    ensures Accepts(NewYear(y))
  {
    AcceptsExactlyCivil(NewYear(y));
  }

  lemma NewYearTime(y: int)
    ensures TimeValue(NewYear(y)) == 86_400_000 * DayFromYear(y)
  {
  }

  lemma NewYearDays(y: int)
    ensures y == 2000 ==> DayFromYear(y) == 10957
    ensures y == 2030 ==> DayFromYear(y) == 21915
    ensures y == 2300 ==> DayFromYear(y) == 120530
  {
  }

  lemma KeyOfDays(d: int)
    ensures d == 10957 ==> Key(86_400_000 * d) == None
    ensures d == 21915 ==> Key(86_400_000 * d) == Some(1_893_456_000_000)
    ensures d == 120530 ==> Key(86_400_000 * d) == Some(413_792_000_000)
  {
  }

  /** Outside that range keys can part from prefixes: the first second of 2000 has no key, and that of
      2300 has a smaller one than that of 2030. */
  lemma KeysDisagreeOutsideRange(y: int)
    ensures y == 2000 ==> Key(TimeValue(NewYear(y))) == None
    ensures y == 2030 ==> Key(TimeValue(NewYear(y))) == Some(1_893_456_000_000)
    ensures y == 2300 ==> Key(TimeValue(NewYear(y))) == Some(413_792_000_000)
  {
    NewYearTime(y);
    NewYearDays(y);
    KeyOfDays(DayFromYear(y));
  }

  /** Sorting two time values by key is sorting them by time. */
  predicate Agree(t: int, u: int) {
    && Key(t).Some? && Key(u).Some?
    && (Key(t).value < Key(u).value <==> t < u)
    && (Key(t) == Key(u) <==> t == u)
  }

  /** A time value that sorts wrongly beside t: the last whole second shown if t is too late, the last
      one shown before the epoch if it is too early or has no key. */
  function Rival(t: int): int {
    if t > 0 then 9_999_999_999_000 else -100_000_000_000
  }

  lemma RivalDisagrees(t: int)
    requires !Shown(t) && t % 1000 == 0
    ensures Shown(Rival(t)) && Rival(t) % 1000 == 0 && !Agree(t, Rival(t))
  {
    if t >= 10_000_000_000_000 {
      var k := t % 10_000_000_000_000;
      assert k % 1000 == 0 by {
        assert k == t - 10_000_000_000_000 * (t / 10_000_000_000_000);
      }
      assert k <= 9_999_999_999_000;
    }
  }

  /** The time values the key shows in full are exactly those it sorts rightly beside all of them. */
  lemma ShownExactly(t: int)
    ensures Shown(t) <==> forall u | Shown(u) :: Agree(t, u)
  {
    if !Shown(t) {
      var u := if t > 0 then 9_999_999_999_999 else -100_000_000_000;
      assert Shown(u) && !Agree(t, u);
    }
  }

  lemma ClockSeconds(within: int)
    requires 0 <= within < 86400
    ensures (within / 3600 * 60 + within / 60 % 60) * 60 + within % 60 == within
  {
    assert within / 3600 == within / 60 / 60;
  }

  /** Whole seconds are the time value of what is written for them. */
  lemma TimeValueInvertsWritten(t: int)
    requires t % 1000 == 0
    ensures TimeValue(Written(t)) == t
  {
    var day, within := t / 1000 / 86400, t / 1000 % 86400;
    ClockSeconds(within);
    var (y, m, d) := Date(day);
    assert DayNumber(y, m, d) == day;
    assert t == 1000 * (86400 * day + within);
  }

  /** Sorting two dates by key is sorting them by date. */
  ghost predicate DatesAgree(f: Fields, g: Fields)
    requires 1 <= f.month <= 12 && 1 <= g.month <= 12
  {
    var x, y := Key(TimeValue(f)), Key(TimeValue(g));
    x.Some? && y.Some? && (x.value < y.value <==> Before(f, g)) && (x == y <==> f == g)
  }

  lemma DatesAgreeAsTimes(f: Fields, g: Fields)
    requires Civil(f) && Civil(g)
    ensures DatesAgree(f, g) <==> Agree(TimeValue(f), TimeValue(g))
  {
    TimeValueIsMonotone(f, g);
  }

  /** So a date is in the range if and only if its key sorts it rightly beside every date in the range. */
  lemma DatesAgreeExactly(f: Fields)
    requires Civil(f)
    ensures Shown(TimeValue(f)) <==> forall g | Civil(g) && Shown(TimeValue(g)) :: DatesAgree(f, g)
  {
    var t := TimeValue(f);
    if Shown(t) {
      forall g | Civil(g) && Shown(TimeValue(g))
        ensures DatesAgree(f, g)
      {
        DatesAgreeAsTimes(f, g);
      }
    } else {
      RivalDate(f);
    }
  }

  lemma RivalDate(f: Fields)
    requires Civil(f) && !Shown(TimeValue(f))
    ensures var g := Written(Rival(TimeValue(f)));
            Civil(g) && Shown(TimeValue(g)) && !DatesAgree(f, g)
  {
    var u := Rival(TimeValue(f));
    RivalDisagrees(TimeValue(f));
    WrittenIsCivil(u);
    TimeValueInvertsWritten(u);
    DatesAgreeAsTimes(f, Written(u));
  }
}
