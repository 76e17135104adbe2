/**
 Calendar arithmetic and timestamp parsing of webhook verification
 (packages/sdk-cpp/src/webhooks.cpp).
 */
module WebhookTime {
  import opened Common

  // ------------------------------------------------------------------
  // The calendar, counted
  // ------------------------------------------------------------------

  predicate IsLeapYear(year: int) {
    (year % 4 == 0 && year % 100 != 0) || year % 400 == 0
  }

  function DaysInMonth(year: int, month: int): int
    requires 1 <= month <= 12
  {
    if month == 2 then (if IsLeapYear(year) then 29 else 28)
    else if month == 4 || month == 6 || month == 9 || month == 11 then 30
    else 31
  }

  datatype Date = Date(year: int, month: int, day: int)

  predicate ValidDate(date: Date) {
    0 <= date.year && 1 <= date.month <= 12 && 1 <= date.day <= DaysInMonth(date.year, date.month)
  }

  const FIRST_DATE := Date(0, 1, 1)

  /** The days of the year's months before `month`. */
  function DaysBeforeMonth(year: int, month: int): (days: int)
    requires 1 <= month <= 13
    ensures 0 <= days
    decreases month
  {
    if month == 1 then 0 else DaysBeforeMonth(year, month - 1) + DaysInMonth(year, month - 1)
  }

  function DaysInYear(year: int): (days: int)
    ensures days == if IsLeapYear(year) then 366 else 365
  {
    DaysBeforeMonth(year, 13)
  }

  /** The days of all years from year 0 up to `year`. */
  function DaysBeforeYear(year: nat): nat {
    if year == 0 then 0 else DaysBeforeYear(year - 1) + DaysInYear(year - 1)
  }

  /** Days from 0000-01-01, counted year by year and month by month. */
  function DayCount(date: Date): int
    requires ValidDate(date)
  {
    DaysBeforeYear(date.year) + DaysBeforeMonth(date.year, date.month) + date.day - 1
  }

  /** The day after `date`. */
  function NextDate(date: Date): (next: Date)
    requires ValidDate(date)
    ensures ValidDate(next)
  {
    if date.day < DaysInMonth(date.year, date.month) then date.(day := date.day + 1)
    else if date.month < 12 then Date(date.year, date.month + 1, 1)
    else Date(date.year + 1, 1, 1)
  }

  lemma NextDateCountsOne(date: Date)
    requires ValidDate(date)
    ensures DayCount(NextDate(date)) == DayCount(date) + 1
  {
    hide IsLeapYear, DaysInMonth;
  }

  // ------------------------------------------------------------------
  // The closed form
  // ------------------------------------------------------------------

  /** C++ integer division: truncates toward zero. */
  function TruncDiv(a: int, b: int): int
    requires 0 < b
  {
    if 0 <= a then a / b else -(-a / b)
  }

  function EraOf(year: int): int {
    TruncDiv(if 0 <= year then year else year - 399, 400)
  }

  /** Days from 1 March to the first of `month`. */
  function MarchMonths(month: int): int {
    TruncDiv(153 * (month + (if month > 2 then -3 else 9)) + 2, 5)
  }

  function EraAndYearDays(era: int, yoe: int): int {
    era * 146097 + (yoe * 365 + TruncDiv(yoe, 4) - TruncDiv(yoe, 100))
  }

  function DaysFromCivil(year0: int, month: int, day: int): int {
    var year := year0 - (if month <= 2 then 1 else 0);
    var era := EraOf(year);
    var yoe := year - era * 400;
    var doy := MarchMonths(month) + day - 1;
    EraAndYearDays(era, yoe) + doy - 719468
  }

  /** Days of the March-based years before `year`, by the leap-year rules alone. */
  function MarchYears(year: int): int {
    365 * year + year / 4 - year / 100 + year / 400
  }

  /** The era decomposition is the leap-year rule. */
  lemma EraDays(year: int)
    ensures EraAndYearDays(EraOf(year), year - EraOf(year) * 400) == MarchYears(year)
  {
    var era := year / 400;
    var yoe := year - era * 400;
    assert EraOf(year) == era && 0 <= yoe < 400;
    assert year / 4 == era * 100 + yoe / 4;
    assert year / 100 == era * 4 + yoe / 100;
  }

  lemma MarchYearsStep(year: int)
    ensures MarchYears(year + 1) - MarchYears(year) == if IsLeapYear(year + 1) then 366 else 365
  {
    Quarters(year);
    Centuries(year);
    Eras(year);
    assert (year + 1) % 400 == 0 ==> (year + 1) % 100 == 0;
    assert (year + 1) % 100 == 0 ==> (year + 1) % 4 == 0;
  }

  lemma Quarters(n: int)
    ensures (n + 1) / 4 - n / 4 == if (n + 1) % 4 == 0 then 1 else 0
  {
  }

  lemma Centuries(n: int)
    ensures (n + 1) / 100 - n / 100 == if (n + 1) % 100 == 0 then 1 else 0
  {
  }

  lemma Eras(n: int)
    ensures (n + 1) / 400 - n / 400 == if (n + 1) % 400 == 0 then 1 else 0
  {
  }

  lemma {:induction false} MarchYearsCount(year: nat)
    ensures DaysBeforeYear(year) == MarchYears(year - 1) + 366
  {
    hide MarchYears, IsLeapYear, DaysBeforeMonth, DaysInMonth;
    MarchYearsBase();
    if 0 < year {
      MarchYearsCount(year - 1);
      MarchYearsStep(year - 2);
    }
  }

  lemma MarchYearsBase()
    ensures MarchYears(-1) == -366
  {
  }

  /** The month formula counts the days before each month, with the year's January and February at its end. */
  lemma MonthFormula(year: int, month: int)
    requires 1 <= month <= 12
    ensures DaysBeforeMonth(year, month)
         == if month <= 2 then MarchMonths(month) - 306 else MarchMonths(month) + 59 + (if IsLeapYear(year) then 1 else 0)
  {
    assert DaysBeforeMonth(year, 3) == 59 + (if IsLeapYear(year) then 1 else 0);
    assert DaysBeforeMonth(year, 5) == DaysBeforeMonth(year, 3) + 61;
    assert DaysBeforeMonth(year, 7) == DaysBeforeMonth(year, 5) + 61;
    assert DaysBeforeMonth(year, 9) == DaysBeforeMonth(year, 7) + 62;
    assert DaysBeforeMonth(year, 11) == DaysBeforeMonth(year, 9) + 61;
  }

  const EPOCH := Date(1970, 1, 1)

  lemma FromYearZero(date: Date)
    requires ValidDate(date)
    ensures DaysFromCivil(date.year, date.month, date.day) == DayCount(date) - 719528
  {
    hide EraOf, EraAndYearDays, MarchMonths, MarchYears, DaysBeforeMonth, DaysBeforeYear, IsLeapYear, DaysInMonth;
    var year := date.year - (if date.month <= 2 then 1 else 0);
    EraDays(year);
    MonthFormula(date.year, date.month);
    MarchYearsCount(date.year);
    MarchYearsStep(date.year - 1);
  }

  lemma EpochCount()
    ensures DayCount(EPOCH) == 719528
  {
    EpochIsZero();
    hide DaysFromCivil, DayCount;
    FromYearZero(EPOCH);
  }

  lemma EpochIsZero()
    ensures DaysFromCivil(1970, 1, 1) == 0 && ValidDate(EPOCH)
  {
  }

  /** `days_from_civil` is the counted number of days from 1970-01-01, for every date from year 0 on. */
  lemma DaysFromCivilCounts(date: Date)
    requires ValidDate(date)
    ensures DaysFromCivil(date.year, date.month, date.day) == DayCount(date) - DayCount(EPOCH)
  {
    hide DaysFromCivil, DayCount;
    FromYearZero(date);
    EpochCount();
  }

  // ------------------------------------------------------------------
  // Day numbers and dates correspond
  // ------------------------------------------------------------------

  predicate Earlier(a: Date, b: Date) {
    a.year < b.year || (a.year == b.year && (a.month < b.month || (a.month == b.month && a.day < b.day)))
  }

  lemma {:induction false} YearsGrow(a: nat, b: nat)
    requires a <= b
    ensures DaysBeforeYear(a) <= DaysBeforeYear(b)
  {
    hide DaysBeforeMonth, DaysInMonth, IsLeapYear;
    if a < b {
      YearsGrow(a, b - 1);
    }
  }

  lemma {:induction false} MonthsGrow(year: int, a: int, b: int)
    requires 1 <= a <= b <= 13
    ensures DaysBeforeMonth(year, a) <= DaysBeforeMonth(year, b)
    decreases b
  {
    if a < b {
      MonthsGrow(year, a, b - 1);
    }
  }

  /** Later dates have larger day numbers, so no two dates share one. */
  lemma DayNumbersFollowDates(a: Date, b: Date)
    requires ValidDate(a) && ValidDate(b)
    ensures Earlier(a, b) <==> DaysFromCivil(a.year, a.month, a.day) < DaysFromCivil(b.year, b.month, b.day)
    ensures a == b <==> DaysFromCivil(a.year, a.month, a.day) == DaysFromCivil(b.year, b.month, b.day)
  {
    hide DaysFromCivil, DayCount;
    DaysFromCivilCounts(a);
    DaysFromCivilCounts(b);
    if Earlier(a, b) {
      EarlierCountsLess(a, b);
    } else if Earlier(b, a) {
      EarlierCountsLess(b, a);
    }
  }

  lemma CountsWithinMonth(date: Date)
    requires ValidDate(date)
    ensures DayCount(date) < DaysBeforeYear(date.year) + DaysBeforeMonth(date.year, date.month + 1)
  {
  }

  lemma YearEnds(year: nat)
    ensures DaysBeforeYear(year + 1) == DaysBeforeYear(year) + DaysBeforeMonth(year, 13)
  {
  }

  lemma EarlierCountsLess(a: Date, b: Date)
    requires ValidDate(a) && ValidDate(b) && Earlier(a, b)
    ensures DayCount(a) < DayCount(b)
  {
    hide DaysBeforeMonth, DaysBeforeYear, DaysInMonth, IsLeapYear;
    CountsWithinMonth(a);
    MonthsGrow(a.year, a.month + 1, 13);
    YearEnds(a.year);
    if a.year < b.year {
      YearsGrow(a.year + 1, b.year);
    } else if a.month < b.month {
      MonthsGrow(a.year, a.month + 1, b.month);
    }
  }

  /** The date `n` days after 0000-01-01, reached one day at a time. */
  function DateAt(n: nat): (date: Date)
    ensures ValidDate(date) && DayCount(date) == n
  {
    if n == 0 then FIRST_DATE
    else
      NextDateCountsOne(DateAt(n - 1));
      NextDate(DateAt(n - 1))
  }

  // ------------------------------------------------------------------
  // Digits
  // ------------------------------------------------------------------

  predicate IsDigit(c: char) {
    '0' <= c <= '9'
  }

  predicate AllDigits(text: string) {
    forall i :: 0 <= i < |text| ==> IsDigit(text[i])
  }

  function Number(digits: string): nat
    requires AllDigits(digits)
  {
    if digits == [] then 0 else 10 * Number(digits[..|digits| - 1]) + (digits[|digits| - 1] as int - '0' as int)
  }

  function Pow10(n: nat): nat {
    if n == 0 then 1 else 10 * Pow10(n - 1)
  }

  function Digits(n: nat, width: nat): (digits: string)
    ensures |digits| == width && AllDigits(digits)
  {
    if width == 0 then [] else Digits(n / 10, width - 1) + [('0' as int + n % 10) as char]
  }

  lemma {:induction false} DigitsReadBack(n: nat, width: nat)
    requires n < Pow10(width)
    ensures Number(Digits(n, width)) == n
  {
    if 0 < width {
      DigitsReadBack(n / 10, width - 1);
      assert Digits(n, width)[..width - 1] == Digits(n / 10, width - 1);
    }
  }

  lemma {:induction false} NumberIsBelow(digits: string)
    requires AllDigits(digits)
    ensures Number(digits) < Pow10(|digits|)
  {
    if digits != [] {
      NumberIsBelow(digits[..|digits| - 1]);
    }
  }

  /** `count` digits at `pos`. */
  predicate DigitsAt(text: string, pos: nat, count: nat) {
    pos + count <= |text| && AllDigits(text[pos..pos + count])
  }

  function NumberAt(text: string, pos: nat, count: nat): nat
    requires DigitsAt(text, pos, count)
  {
    Number(text[pos..pos + count])
  }

  predicate CharAt(text: string, pos: nat, c: char) {
    pos < |text| && text[pos] == c
  }

  method ReadDigits(text: string, pos0: nat, count: nat) returns (ok: bool, pos: nat, out: nat)
    requires pos0 <= |text|
    ensures ok <==> DigitsAt(text, pos0, count)
    ensures ok ==> pos == pos0 + count && out == NumberAt(text, pos0, count)
  {
    pos, out := pos0, 0;
    for i := 0 to count
      invariant pos == pos0 + i && DigitsAt(text, pos0, i) && out == NumberAt(text, pos0, i)
    {
      if |text| <= pos || text[pos] < '0' || '9' < text[pos] {
        assert pos0 + count <= |text| ==> text[pos0..pos0 + count][i] == text[pos];
        return false, pos, 0;
      }
      assert text[pos0..pos0 + i + 1] == text[pos0..pos0 + i] + [text[pos]];
      out := 10 * out + (text[pos] as int - '0' as int);
      pos := pos + 1;
    }
    ok := true;
  }

  // ------------------------------------------------------------------
  // The accepted timestamps
  // ------------------------------------------------------------------

  /** "dddd-dd-ddTdd:dd:dd". */
  predicate HeadShape(text: string) {
    && DigitsAt(text, 0, 4) && CharAt(text, 4, '-') && DigitsAt(text, 5, 2) && CharAt(text, 7, '-')
    && DigitsAt(text, 8, 2) && (CharAt(text, 10, 'T') || CharAt(text, 10, 't'))
    && DigitsAt(text, 11, 2) && CharAt(text, 13, ':') && DigitsAt(text, 14, 2) && CharAt(text, 16, ':')
    && DigitsAt(text, 17, 2)
  }

  /** How many digits follow from `pos`. */
  function DigitRun(text: string, pos: nat): (n: nat)
    requires pos <= |text|
    ensures pos + n <= |text| && AllDigits(text[pos..pos + n])
    ensures pos + n < |text| ==> !IsDigit(text[pos + n])
    decreases |text| - pos
  {
    if pos < |text| && IsDigit(text[pos]) then
      assert text[pos..pos + 1 + DigitRun(text, pos + 1)] == [text[pos]] + text[pos + 1..pos + 1 + DigitRun(text, pos + 1)];
      1 + DigitRun(text, pos + 1)
    else 0
  }

  /** The digits of the optional fraction at position 19. */
  function FractionAt(text: string): Option<string>
    requires 19 <= |text|
  {
    if CharAt(text, 19, '.') then Some(text[20..20 + DigitRun(text, 20)]) else None
  }

  predicate FractionShape(fraction: Option<string>) {
    fraction.Some? ==> 1 <= |fraction.value| <= 9 && AllDigits(fraction.value)
  }

  function AfterFraction(text: string): (pos: nat)
    requires 19 <= |text|
    ensures pos <= |text|
  {
    if CharAt(text, 19, '.') then 20 + DigitRun(text, 20) else 19
  }

  /** A fraction in milliseconds: its first three digits, scaled up when there are fewer. */
  function FractionMillis(fraction: Option<string>): nat
    requires FractionShape(fraction)
  {
    match fraction
    case None => 0
    case Some(digits) =>
      if |digits| < 3 then Number(digits) * Pow10(3 - |digits|) else Number(digits[..3])
  }

  /** A zone that ends the text at `pos`, as minutes east of UTC. */
  function ZoneAt(text: string, pos: nat): Option<int> {
    if |text| == pos + 1 && (text[pos] == 'Z' || text[pos] == 'z') then Some(0)
    else if
      && |text| == pos + 6 && (text[pos] == '+' || text[pos] == '-')
      && DigitsAt(text, pos + 1, 2) && text[pos + 3] == ':' && DigitsAt(text, pos + 4, 2)
      && NumberAt(text, pos + 1, 2) <= 23 && NumberAt(text, pos + 4, 2) <= 59
    then
      var minutes := NumberAt(text, pos + 1, 2) * 60 + NumberAt(text, pos + 4, 2);
      Some(if text[pos] == '-' then -minutes else minutes)
    else None
  }

  datatype Stamp = Stamp(date: Date, hour: nat, minute: nat, second: nat)

  function HeadAt(text: string): Stamp
    requires HeadShape(text)
  {
    Stamp(Date(NumberAt(text, 0, 4), NumberAt(text, 5, 2), NumberAt(text, 8, 2)),
          NumberAt(text, 11, 2), NumberAt(text, 14, 2), NumberAt(text, 17, 2))
  }

  predicate ValidStamp(stamp: Stamp) {
    ValidDate(stamp.date) && stamp.hour <= 23 && stamp.minute <= 59 && stamp.second <= 59
  }

  /** Milliseconds since the epoch of a local time `offset` minutes east of UTC. */
  function EpochMillis(stamp: Stamp, millis: nat, offset: int): int
    requires ValidDate(stamp.date)
  {
    ((DayCount(stamp.date) - DayCount(EPOCH)) * 86400 + stamp.hour * 3600 + stamp.minute * 60 + stamp.second
     - offset * 60) * 1000 + millis
  }

  /** What the text denotes, if it is an accepted timestamp. */
  function Timestamp(text: string): Option<int> {
    if !HeadShape(text) || !FractionShape(FractionAt(text)) || ZoneAt(text, AfterFraction(text)) == None
       || !ValidStamp(HeadAt(text)) then None
    else Some(EpochMillis(HeadAt(text), FractionMillis(FractionAt(text)), ZoneAt(text, AfterFraction(text)).value))
  }

  // ------------------------------------------------------------------
  // The parser
  // ------------------------------------------------------------------

  /** The fixed-width part of the source's parser, field by field. */
  method ParseHead(text: string) returns (head: Option<Stamp>)
    ensures head.Some? <==> HeadShape(text)
    ensures head.Some? ==> head.value == HeadAt(text) && 0 <= head.value.date.year
  {
    hide DigitsAt, NumberAt;
    var ok, pos, year := ReadDigits(text, 0, 4);
    if !ok { return None; }
    if |text| <= pos || text[pos] != '-' { return None; }
    pos := pos + 1;
    var month, day, hour, minute, second;
    ok, pos, month := ReadDigits(text, pos, 2);
    if !ok { return None; }
    if |text| <= pos || text[pos] != '-' { return None; }
    pos := pos + 1;
    ok, pos, day := ReadDigits(text, pos, 2);
    if !ok { return None; }
    if |text| <= pos || (text[pos] != 'T' && text[pos] != 't') { return None; }
    pos := pos + 1;
    ok, pos, hour := ReadDigits(text, pos, 2);
    if !ok { return None; }
    if |text| <= pos || text[pos] != ':' { return None; }
    pos := pos + 1;
    ok, pos, minute := ReadDigits(text, pos, 2);
    if !ok { return None; }
    if |text| <= pos || text[pos] != ':' { return None; }
    pos := pos + 1;
    ok, pos, second := ReadDigits(text, pos, 2);
    if !ok { return None; }
    return Some(Stamp(Date(year, month, day), hour, minute, second));
  }

  /** The value of the first three digits of the first `n` digits of `run`. */
  function LeadingValue(run: string, n: nat): nat
    requires AllDigits(run) && n <= |run|
  {
    Number(run[..if n < 3 then n else 3])
  }

  lemma LeadingValueStep(run: string, n: nat)
    requires AllDigits(run) && n < |run|
    ensures LeadingValue(run, n + 1)
         == if n < 3 then 10 * LeadingValue(run, n) + (run[n] as int - '0' as int) else LeadingValue(run, n)
  {
    if n < 3 {
      assert run[..n + 1][..n] == run[..n];
    }
  }

  /** Counts the digits of a run and keeps the value of its first three. */
  method ReadFraction(text: string) returns (digits: nat, milliseconds: nat)
    requires 20 <= |text|
    ensures digits == DigitRun(text, 20)
    ensures milliseconds == LeadingValue(text[20..20 + digits], digits)
  {
    hide DigitRun, LeadingValue, Number;
    ghost var run := text[20..20 + DigitRun(text, 20)];
    digits, milliseconds := 0, 0;
    var pos := 20;
    LeadingValueNone(run);
    while pos < |text| && '0' <= text[pos] <= '9'
      invariant pos == 20 + digits <= |text| && digits <= |run|
      invariant milliseconds == LeadingValue(run, digits)
      decreases |text| - pos
    {
      assert digits < |run| && run[digits] == text[pos];
      LeadingValueStep(run, digits);
      if digits < 3 {
        milliseconds := 10 * milliseconds + (text[pos] as int - '0' as int);
      }
      digits := digits + 1;
      pos := pos + 1;
    }
    if digits < |run| {
      DigitInRun(text, digits);
    }
  }

  lemma DigitInRun(text: string, k: nat)
    requires 20 <= |text| && k < DigitRun(text, 20)
    ensures 20 + k < |text| && IsDigit(text[20 + k])
  {
    assert text[20..20 + DigitRun(text, 20)][k] == text[20 + k];
  }

  lemma LeadingValueNone(run: string)
    requires AllDigits(run)
    ensures LeadingValue(run, 0) == 0
  {
  }

  lemma LeadingValueAll(run: string)
    requires AllDigits(run)
    ensures LeadingValue(run, |run|) == Number(if |run| < 3 then run else run[..3])
  {
    assert |run| < 3 ==> run[..|run|] == run;
  }

  /** The optional fraction: at most nine digits, of which the first three count. */
  method ParseFraction(text: string) returns (millis: Option<nat>, pos: nat)
    requires 19 <= |text|
    ensures millis.Some? <==> FractionShape(FractionAt(text))
    ensures millis.Some? ==> millis.value == FractionMillis(FractionAt(text)) && pos == AfterFraction(text)
  {
    pos := 19;
    var milliseconds := 0;
    if pos < |text| && text[pos] == '.' {
      var digits;
      digits, milliseconds := ReadFraction(text);
      LeadingValueAll(text[20..20 + digits]);
      pos := 20 + digits;
      if digits == 0 || 9 < digits {
        return None, pos;
      }
      ghost var read := milliseconds;
      for i := digits to if digits < 3 then 3 else digits
        invariant milliseconds == read * Pow10(i - digits)
      {
        ScaleUp(read, i - digits);
        milliseconds := milliseconds * 10;
      }
    }
    millis := Some(milliseconds);
  }

  lemma ScaleUp(n: nat, k: nat)
    ensures n * Pow10(k) * 10 == n * Pow10(k + 1)
  {
  }

  /** The designator or offset, which must end the text. */
  method ParseZone(text: string, pos0: nat) returns (offset: Option<int>)
    requires pos0 <= |text|
    ensures offset == ZoneAt(text, pos0)
  {
    var pos := pos0;
    var offsetMinutes: int := 0;
    if pos < |text| && (text[pos] == 'Z' || text[pos] == 'z') {
      pos := pos + 1;
    } else if pos < |text| && (text[pos] == '+' || text[pos] == '-') {
      hide DigitsAt, NumberAt;
      var negative := text[pos] == '-';
      pos := pos + 1;
      var ok, hours, minutes;
      ok, pos, hours := ReadDigits(text, pos, 2);
      if !ok { return None; }
      if |text| <= pos || text[pos] != ':' { return None; }
      pos := pos + 1;
      ok, pos, minutes := ReadDigits(text, pos, 2);
      if !ok { return None; }
      if 23 < hours || 59 < minutes { return None; }
      offsetMinutes := hours * 60 + minutes;
      if negative {
        offsetMinutes := -offsetMinutes;
      }
    } else {
      return None;
    }
    if pos != |text| { return None; }
    return Some(offsetMinutes);
  }

  method ParseIso8601Ms(text: string) returns (result: Option<int>)
    ensures result == Timestamp(text)
  {
    hide HeadShape, FractionShape, FractionAt, FractionMillis, AfterFraction, ZoneAt, HeadAt, DaysFromCivil, DayCount, IsLeapYear;
    var head := ParseHead(text);
    if head == None { return None; }
    HeadIsLong(text);
    var millis, pos := ParseFraction(text);
    if millis == None { return None; }
    var offset := ParseZone(text, pos);
    if offset == None { return None; }
    var Stamp(date, hour, minute, second) := head.value;
    if date.month < 1 || 12 < date.month { return None; }
    if date.day < 1 || DaysInMonth(date.year, date.month) < date.day { return None; }
    if 23 < hour || 59 < minute || 59 < second { return None; }
    DaysFromCivilCounts(date);
    var days := DaysFromCivil(date.year, date.month, date.day);
    var utcSeconds := days * 86400 + hour * 3600 + minute * 60 + second - offset.value * 60;
    return Some(utcSeconds * 1000 + millis.value);
  }

  lemma HeadIsLong(text: string)
    requires HeadShape(text)
    ensures 19 <= |text|
  {
  }

  // ------------------------------------------------------------------
  // Printing and reading back
  // ------------------------------------------------------------------

  datatype Zone = Utc(designator: char) | Offset(negative: bool, hours: nat, minutes: nat)

  predicate ValidZone(zone: Zone) {
    match zone
    case Utc(designator) => designator == 'Z' || designator == 'z'
    case Offset(_, hours, minutes) => hours <= 23 && minutes <= 59
  }

  function ZoneMinutes(zone: Zone): int {
    match zone
    case Utc(_) => 0
    case Offset(negative, hours, minutes) => if negative then -(hours * 60 + minutes) else hours * 60 + minutes
  }

  function PrintZone(zone: Zone): string {
    match zone
    case Utc(designator) => [designator]
    case Offset(negative, hours, minutes) =>
      [if negative then '-' else '+'] + Digits(hours, 2) + [':'] + Digits(minutes, 2)
  }

  function PrintFraction(fraction: Option<string>): string {
    match fraction case None => "" case Some(digits) => ['.'] + digits
  }

  function PrintHead(stamp: Stamp, t: char): (text: string)
    requires ValidStamp(stamp)
    ensures |text| == 19
  {
    Digits(stamp.date.year, 4) + ['-'] + Digits(stamp.date.month, 2) + ['-'] + Digits(stamp.date.day, 2) + [t]
    + Digits(stamp.hour, 2) + [':'] + Digits(stamp.minute, 2) + [':'] + Digits(stamp.second, 2)
  }

  function Print(stamp: Stamp, t: char, fraction: Option<string>, zone: Zone): string
    requires ValidStamp(stamp)
  {
    PrintHead(stamp, t) + PrintFraction(fraction) + PrintZone(zone)
  }

  predicate Printable(stamp: Stamp, t: char, fraction: Option<string>, zone: Zone) {
    ValidStamp(stamp) && stamp.date.year <= 9999 && (t == 'T' || t == 't') && FractionShape(fraction) && ValidZone(zone)
  }

  /**
   Every accepted form reads back as the instant it denotes: a numeric offset shifts the
   local time by exactly that offset, and digits past the third of a fraction are dropped.
   */
  lemma PrintedTimestampReadsBack(stamp: Stamp, t: char, fraction: Option<string>, zone: Zone)
    requires Printable(stamp, t, fraction, zone)
    ensures Timestamp(Print(stamp, t, fraction, zone))
         == Some(EpochMillis(stamp, FractionMillis(fraction), ZoneMinutes(zone)))
  {
    hide PrintHead, PrintFraction, PrintZone, HeadShape, HeadAt, FractionAt, AfterFraction, ZoneAt, ZoneMinutes, EpochMillis, FractionMillis,
      ValidDate, AllDigits, ValidZone;
    var head, tail := PrintHead(stamp, t), PrintFraction(fraction) + PrintZone(zone);
    var text := Print(stamp, t, fraction, zone);
    assert text == head + tail;
    HeadReadsBack(stamp, t, tail);
    FractionReadsBack(head, fraction, zone);
    assert text == head + PrintFraction(fraction) + PrintZone(zone);
    ZoneReadsBack(head + PrintFraction(fraction), zone);
  }

  /** In milliseconds: the days since the epoch, the time of day and the fraction, less what the zone is east of UTC. */
  lemma PrintedTimestampMeans(stamp: Stamp, t: char, fraction: Option<string>, zone: Zone)
    requires Printable(stamp, t, fraction, zone)
    ensures
      var days := DayCount(stamp.date) - DayCount(Date(1970, 1, 1));
      var local := ((days * 24 + stamp.hour) * 60 + stamp.minute) * 60000 + stamp.second * 1000 + FractionMillis(fraction);
      Timestamp(Print(stamp, t, fraction, zone)) ==
      Some(if zone.Utc? then local
           else if zone.negative then local + (zone.hours * 60 + zone.minutes) * 60000
           else local - (zone.hours * 60 + zone.minutes) * 60000)
  {
    hide Timestamp, Print, DayCount, FractionMillis;
    PrintedTimestampReadsBack(stamp, t, fraction, zone);
  }

  lemma HeadReadsBack(stamp: Stamp, t: char, tail: string)
    requires ValidStamp(stamp) && stamp.date.year <= 9999 && (t == 'T' || t == 't')
    ensures HeadShape(PrintHead(stamp, t) + tail) && HeadAt(PrintHead(stamp, t) + tail) == stamp
  {
    var text := PrintHead(stamp, t) + tail;
    assert text[0..4] == Digits(stamp.date.year, 4) && text[5..7] == Digits(stamp.date.month, 2);
    assert text[8..10] == Digits(stamp.date.day, 2) && text[11..13] == Digits(stamp.hour, 2);
    assert text[14..16] == Digits(stamp.minute, 2) && text[17..19] == Digits(stamp.second, 2);
    assert text[4] == '-' && text[7] == '-' && text[10] == t && text[13] == ':' && text[16] == ':';
    assert Pow10(4) == 10000 && Pow10(2) == 100;
    DigitsReadBack(stamp.date.year, 4);
    DigitsReadBack(stamp.date.month, 2);
    DigitsReadBack(stamp.date.day, 2);
    DigitsReadBack(stamp.hour, 2);
    DigitsReadBack(stamp.minute, 2);
    DigitsReadBack(stamp.second, 2);
  }

  lemma FractionReadsBack(head: string, fraction: Option<string>, zone: Zone)
    requires |head| == 19 && FractionShape(fraction) && ValidZone(zone)
    ensures FractionAt(head + (PrintFraction(fraction) + PrintZone(zone))) == fraction
    ensures AfterFraction(head + (PrintFraction(fraction) + PrintZone(zone))) == 19 + |PrintFraction(fraction)|
  {
    hide PrintZone, DigitRun;
    ZoneStarts(zone);
    if fraction.Some? {
      DigitsReadAt(head, fraction.value, PrintZone(zone));
    } else {
      var text := head + (PrintFraction(fraction) + PrintZone(zone));
      assert text[19] == PrintZone(zone)[0];
    }
  }

  lemma ZoneStarts(zone: Zone)
    requires ValidZone(zone)
    ensures PrintZone(zone) != [] && !IsDigit(PrintZone(zone)[0]) && PrintZone(zone)[0] != '.'
  {
  }

  lemma DigitsReadAt(head: string, digits: string, tail: string)
    requires |head| == 19 && AllDigits(digits) && tail != [] && !IsDigit(tail[0])
    ensures
      var text := head + (("." + digits) + tail);
      && text[19] == '.' && DigitRun(text, 20) == |digits| && text[20..20 + |digits|] == digits && |text| == 20 + |digits| + |tail|
  {
    hide DigitRun;
    var text := head + (("." + digits) + tail);
    assert text == (head + ".") + digits + tail;
    assert text[20..20 + |digits|] == digits && text[20 + |digits|] == tail[0];
    RunIsMaximal(text, 20, |digits|);
  }

  lemma {:induction false} RunIsMaximal(text: string, pos: nat, n: nat)
    requires pos + n <= |text| && AllDigits(text[pos..pos + n])
    requires pos + n < |text| ==> !IsDigit(text[pos + n])
    ensures DigitRun(text, pos) == n
    decreases n
  {
    if 0 < n {
      assert text[pos..pos + n][0] == text[pos];
      assert text[pos + 1..pos + n] == text[pos..pos + n][1..];
      RunIsMaximal(text, pos + 1, n - 1);
    }
  }

  lemma ZoneReadsBack(before: string, zone: Zone)
    requires ValidZone(zone)
    ensures ZoneAt(before + PrintZone(zone), |before|) == Some(ZoneMinutes(zone))
  {
    if zone.Offset? {
      OffsetReadsBack(before, zone.negative, zone.hours, zone.minutes);
    }
  }

  lemma OffsetReadsBack(before: string, negative: bool, hours: nat, minutes: nat)
    requires hours <= 23 && minutes <= 59
    ensures ZoneAt(before + PrintZone(Offset(negative, hours, minutes)), |before|)
         == Some(ZoneMinutes(Offset(negative, hours, minutes)))
  {
    hide Digits, Number, DigitsAt, NumberAt;
    var h, m := Digits(hours, 2), Digits(minutes, 2);
    var sign := [if negative then '-' else '+'];
    var text, p := before + (sign + h + [':'] + m), |before|;
    assert |text| == p + 6 && text[p] == sign[0] && text[p + 3] == ':';
    TwoDigitsReadBack(text, p + 1, hours);
    TwoDigitsReadBack(text, p + 4, minutes);
  }

  lemma TwoDigitsReadBack(text: string, pos: nat, n: nat)
    requires n < 100 && pos + 2 <= |text| && text[pos..pos + 2] == Digits(n, 2)
    ensures DigitsAt(text, pos, 2) && NumberAt(text, pos, 2) == n
  {
    assert Pow10(2) == 100;
    DigitsReadBack(n, 2);
  }

  // ------------------------------------------------------------------
  // Every instant, and the range of results
  // ------------------------------------------------------------------

  const MINUTE_MILLIS: int := 60000

  /** Milliseconds of 0000-01-01T00:00:00.000Z and of the end of year 9999. */
  const FIRST_MILLIS: int := -719528 * 86400000
  const END_MILLIS: int := 2932897 * 86400000

  /** The server's form of an instant: the date reached by counting days, and `toISOString`'s layout. */
  function IsoString(millis: int): string
    requires FIRST_MILLIS <= millis
  {
    var since := millis - FIRST_MILLIS;
    var day, rest := since / 86400000, since % 86400000;
    Print(Stamp(DateAt(day), rest / 3600000, rest / 60000 % 60, rest / 1000 % 60), 'T',
          Some(Digits(rest % 1000, 3)), Utc('Z'))
  }

  lemma ClockSplit(rest: int)
    requires 0 <= rest < 86400000
    ensures 0 <= rest / 3600000 <= 23 && 0 <= rest / 60000 % 60 <= 59 && 0 <= rest / 1000 % 60 <= 59
    ensures (rest / 3600000 * 3600 + rest / 60000 % 60 * 60 + rest / 1000 % 60) * 1000 + rest % 1000 == rest
  {
    var seconds, minutes := rest / 1000, rest / 60000;
    assert minutes == seconds / 60 && rest / 3600000 == minutes / 60;
  }

  lemma YearsBelowTenThousand(date: Date)
    requires ValidDate(date) && DayCount(date) < 3652425
    ensures date.year <= 9999
  {
    hide DaysFromCivil, DayCount, IsLeapYear;
    if 9999 < date.year {
      var limit := Date(10000, 1, 1);
      FromYearZero(limit);
      TenThousand();
      if date != limit {
        EarlierCountsLess(limit, date);
      }
    }
  }

  lemma TenThousand()
    ensures DaysFromCivil(10000, 1, 1) == 2932897 && ValidDate(Date(10000, 1, 1))
  {
  }

  /** The parser inverts the server's printer on every millisecond from year 0 to year 9999. */
  lemma IsoStringReadsBack(millis: int)
    requires FIRST_MILLIS <= millis < END_MILLIS
    ensures Timestamp(IsoString(millis)) == Some(millis)
  {
    hide DayCount, DaysFromCivil, IsLeapYear, Timestamp, Print, Number, Digits, DateAt;
    var since := millis - FIRST_MILLIS;
    var day, rest := since / 86400000, since % 86400000;
    ClockSplit(rest);
    YearsBelowTenThousand(DateAt(day));
    var stamp := Stamp(DateAt(day), rest / 3600000, rest / 60000 % 60, rest / 1000 % 60);
    var fraction := Some(Digits(rest % 1000, 3));
    PrintedTimestampReadsBack(stamp, 'T', fraction, Utc('Z'));
    MillisReadBack(rest % 1000);
    EpochCount();
  }

  lemma MillisReadBack(n: nat)
    requires n < 1000
    ensures FractionShape(Some(Digits(n, 3))) && FractionMillis(Some(Digits(n, 3))) == n
  {
    assert Pow10(3) == 1000;
    DigitsReadBack(n, 3);
    assert Digits(n, 3)[..3] == Digits(n, 3);
  }

  /** A fraction is truncated to milliseconds, never rounded. */
  lemma FractionTruncates(digits: string)
    requires FractionShape(Some(digits))
    ensures FractionMillis(Some(digits)) * Pow10(|digits|) <= Number(digits) * 1000
          < (FractionMillis(Some(digits)) + 1) * Pow10(|digits|)
  {
    hide Number, Pow10;
    if |digits| < 3 {
      ShortFraction(Number(digits), |digits|);
    } else {
      LeadingDigits(digits, 3);
      PowersMultiply(3, |digits| - 3);
      TenCubed();
      InThousandths(Number(digits[..3]), Pow10(|digits| - 3), Number(digits));
    }
  }

  lemma TenCubed()
    ensures Pow10(3) == 1000
  {
  }

  lemma ShortFraction(n: nat, k: nat)
    requires 1 <= k < 3
    ensures n * Pow10(3 - k) * Pow10(k) == n * 1000 < (n * Pow10(3 - k) + 1) * Pow10(k)
  {
    assert Pow10(1) == 10 && Pow10(2) == 100;
    assert k == 1 || k == 2;
  }

  lemma InThousandths(n: nat, p: nat, x: nat)
    requires n * p <= x < (n + 1) * p
    ensures n * (1000 * p) <= x * 1000 < (n + 1) * (1000 * p)
  {
    assert n * (1000 * p) == 1000 * (n * p) && (n + 1) * (1000 * p) == 1000 * ((n + 1) * p);
  }

  lemma OneMoreDigit(n: nat, p: nat, x: nat, d: nat)
    requires n * p <= x < (n + 1) * p && d < 10
    ensures n * (10 * p) <= 10 * x + d < (n + 1) * (10 * p)
  {
    assert n * (10 * p) == 10 * (n * p) && (n + 1) * (10 * p) == 10 * ((n + 1) * p);
  }

  lemma {:induction false} LeadingDigits(digits: string, k: nat)
    requires AllDigits(digits) && k <= |digits|
    ensures Number(digits[..k]) * Pow10(|digits| - k) <= Number(digits) < (Number(digits[..k]) + 1) * Pow10(|digits| - k)
  {
    if k < |digits| {
      var init := digits[..|digits| - 1];
      LeadingDigits(init, k);
      assert init[..k] == digits[..k];
      OneMoreDigit(Number(digits[..k]), Pow10(|init| - k), Number(init), digits[|digits| - 1] as int - '0' as int);
    } else {
      assert digits[..k] == digits;
    }
  }

  lemma {:induction false} PowersMultiply(a: nat, b: nat)
    ensures Pow10(a + b) == Pow10(a) * Pow10(b)
  {
    if 0 < a {
      PowersMultiply(a - 1, b);
    }
  }

  /** Accepted text always denotes a valid local time, and no result comes near the 64-bit limits. */
  lemma ResultsAreBounded(text: string)
    requires Timestamp(text).Some?
    ensures HeadShape(text) && ValidStamp(HeadAt(text)) && HeadAt(text).date.year <= 9999
    ensures FIRST_MILLIS - 1439 * MINUTE_MILLIS <= Timestamp(text).value < END_MILLIS + 1439 * MINUTE_MILLIS
  {
    hide HeadShape, HeadAt, FractionShape, FractionAt, FractionMillis, ZoneAt, AfterFraction, EpochMillis, ValidDate;
    var stamp := HeadAt(text);
    HeadIsSmall(text);
    HeadIsLong(text);
    FractionIsSmall(FractionAt(text));
    ZoneIsSmall(text, AfterFraction(text));
    BoundedMillis(stamp, FractionMillis(FractionAt(text)), ZoneAt(text, AfterFraction(text)).value);
  }

  lemma ZoneIsSmall(text: string, pos: nat)
    requires ZoneAt(text, pos).Some?
    ensures -1439 <= ZoneAt(text, pos).value <= 1439
  {
  }

  lemma BoundedMillis(stamp: Stamp, millis: nat, offset: int)
    requires ValidStamp(stamp) && stamp.date.year <= 9999 && millis < 1000 && -1439 <= offset <= 1439
    ensures FIRST_MILLIS - 1439 * MINUTE_MILLIS <= EpochMillis(stamp, millis, offset) < END_MILLIS + 1439 * MINUTE_MILLIS
  {
    hide DayCount, DaysFromCivil, IsLeapYear;
    CountIsBounded(stamp.date);
    EpochCount();
  }

  lemma CountIsBounded(date: Date)
    requires ValidDate(date) && date.year <= 9999
    ensures 0 <= DayCount(date) < 3652425
  {
    hide DaysFromCivil, IsLeapYear;
    FromYearZero(Date(10000, 1, 1));
    TenThousand();
    EarlierCountsLess(date, Date(10000, 1, 1));
  }

  lemma HeadIsSmall(text: string)
    requires HeadShape(text)
    ensures HeadAt(text).date.year <= 9999
  {
    NumberIsBelow(text[0..4]);
    assert Pow10(4) == 10000;
  }

  lemma FractionIsSmall(fraction: Option<string>)
    requires FractionShape(fraction)
    ensures FractionMillis(fraction) < 1000
  {
    if fraction.Some? {
      var digits := fraction.value;
      assert Pow10(1) == 10 && Pow10(2) == 100 && Pow10(3) == 1000;
      NumberIsBelow(if |digits| < 3 then digits else digits[..3]);
      if |digits| < 3 {
        assert |digits| == 1 || |digits| == 2;
      }
    }
  }

  // ------------------------------------------------------------------
  // Nothing else is accepted
  // ------------------------------------------------------------------

  lemma {:induction false} NumberPrints(digits: string)
    requires AllDigits(digits)
    ensures Digits(Number(digits), |digits|) == digits
  {
    if digits != [] {
      var init, last := digits[..|digits| - 1], digits[|digits| - 1];
      NumberPrints(init);
      assert digits == init + [last] && IsDigit(last);
    }
  }

  lemma PiecePrints(text: string, pos: nat, count: nat)
    requires DigitsAt(text, pos, count)
    ensures Digits(NumberAt(text, pos, count), count) == text[pos..pos + count]
  {
    NumberPrints(text[pos..pos + count]);
  }

  lemma HeadPrints(text: string)
    requires HeadShape(text) && ValidStamp(HeadAt(text))
    ensures PrintHead(HeadAt(text), text[10]) == text[..19]
  {
    hide NumberAt, Digits, AllDigits, ValidDate;
    PiecePrints(text, 0, 4);
    PiecePrints(text, 5, 2);
    PiecePrints(text, 8, 2);
    PiecePrints(text, 11, 2);
    PiecePrints(text, 14, 2);
    PiecePrints(text, 17, 2);
  }

  lemma FractionPrints(text: string)
    requires 19 <= |text|
    ensures text[19..AfterFraction(text)] == PrintFraction(FractionAt(text)) && 19 <= AfterFraction(text)
  {
  }

  function ZoneOf(text: string, pos: nat): Zone
    requires ZoneAt(text, pos).Some?
  {
    if |text| == pos + 1 then Utc(text[pos])
    else Offset(text[pos] == '-', NumberAt(text, pos + 1, 2), NumberAt(text, pos + 4, 2))
  }

  lemma ZonePrints(text: string, pos: nat)
    requires ZoneAt(text, pos).Some?
    ensures pos <= |text| && PrintZone(ZoneOf(text, pos)) == text[pos..] && ValidZone(ZoneOf(text, pos))
  {
    hide NumberAt, Digits, AllDigits;
    if |text| != pos + 1 {
      PiecePrints(text, pos + 1, 2);
      PiecePrints(text, pos + 4, 2);
    }
  }

  /** Every text the parser accepts is one of the printed forms, so acceptance is exactly that grammar. */
  lemma AcceptedIsPrinted(text: string)
    requires Timestamp(text).Some?
    ensures |text| > 10 && HeadShape(text)
    ensures Printable(HeadAt(text), text[10], FractionAt(text), ZoneOf(text, AfterFraction(text)))
    ensures text == Print(HeadAt(text), text[10], FractionAt(text), ZoneOf(text, AfterFraction(text)))
  {
    hide HeadAt, FractionShape, FractionAt, ZoneAt, ZoneOf, AfterFraction, EpochMillis, ValidDate, PrintHead, PrintFraction,
         PrintZone, FractionMillis, DigitsAt;
    HeadIsLong(text);
    var pos := AfterFraction(text);
    HeadIsSmall(text);
    HeadPrints(text);
    FractionPrints(text);
    ZonePrints(text, pos);
    assert text == text[..19] + text[19..pos] + text[pos..];
  }
}
