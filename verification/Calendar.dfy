/** Civil dates from day numbers, as the admin pages print timestamps. */
module Calendar {

  // ---- the proleptic Gregorian calendar, day by day ---------------------------------

  datatype Date = Date(year: int, month: int, day: int)

  predicate IsLeap(year: int) {
    year % 4 == 0 && (year % 100 != 0 || year % 400 == 0)
  }

  function MonthLength(year: int, month: int): int
    requires 1 <= month <= 12
  {
    if month == 2 then (if IsLeap(year) then 29 else 28)
    else if month in {4, 6, 9, 11} then 30 else 31
  }

  predicate ValidDate(d: Date) {
    1 <= d.month <= 12 && 1 <= d.day <= MonthLength(d.year, d.month)
  }

  function NextDay(d: Date): Date
    requires ValidDate(d)
  {
    if d.day < MonthLength(d.year, d.month) then Date(d.year, d.month, d.day + 1)
    else if d.month < 12 then Date(d.year, d.month + 1, 1)
    else Date(d.year + 1, 1, 1)
  }

  const EPOCH := Date(1970, 1, 1)

  predicate Before(a: Date, b: Date) {
    a.year < b.year || (a.year == b.year && (a.month < b.month || (a.month == b.month && a.day < b.day)))
  }

  // ---- the service's algorithm ---------------------------------------------------------

  /** Rust's `/` on i64: rounds towards zero. */
  function TruncDiv(a: int, b: int): int
    requires b > 0
  {
    if a >= 0 then a / b else -((-a) / b)
  }

  function CivilFromDays(days: int): Date {
    var z := days + 719_468;
    var era := TruncDiv(if z >= 0 then z else z - 146_096, 146_097);
    var doe := z - era * 146_097;
    var yoe := TruncDiv(doe - TruncDiv(doe, 1_460) + TruncDiv(doe, 36_524) - TruncDiv(doe, 146_096), 365);
    var year := yoe + era * 400;
    var doy := doe - (365 * yoe + TruncDiv(yoe, 4) - TruncDiv(yoe, 100));
    var mp := TruncDiv(5 * doy + 2, 153);
    var day := doy - TruncDiv(153 * mp + 2, 5) + 1;
    var month := mp + if mp < 10 then 3 else -9;
    Date(year + if month <= 2 then 1 else 0, month, day)
  }

  // ---- years that begin in March --------------------------------------------------------

  /** Days from the start of an era of 400 years to the start of its y-th year. */
  function YearStart(y: int): int {
    365 * y + y / 4 - y / 100
  }

  /** Days from March 1 to the start of the mp-th month after it. */
  function MonthStart(mp: int): int {
    (153 * mp + 2) / 5
  }

  /** A place in the 400-year cycle: era, year of era and day of year, from March. */
  datatype Place = Place(era: int, yoe: int, doy: int)

  /** The year of era y ends with a February of the civil year y + 1. */
  predicate LongYear(yoe: int) {
    (yoe + 1) % 4 == 0 && ((yoe + 1) % 100 != 0 || (yoe + 1) % 400 == 0)
  }

  predicate ValidPlace(p: Place) {
    0 <= p.yoe < 400 && 0 <= p.doy < (if LongYear(p.yoe) then 366 else 365)
  }

  function DayOf(p: Place): int {
    p.era * 146_097 + YearStart(p.yoe) + p.doy - 719_468
  }

  function DateOf(p: Place): Date
    requires ValidPlace(p)
  {
    var mp := (5 * p.doy + 2) / 153;
    var month := if mp < 10 then mp + 3 else mp - 9;
    Date(p.era * 400 + p.yoe + (if month <= 2 then 1 else 0), month, p.doy - MonthStart(mp) + 1)
  }

  lemma Quotient(x: int, d: int, q: int, r: int)
    requires d > 0 && x == d * q + r && 0 <= r < d
    ensures x / d == q
  {
    var p := x / d;
    assert d * (p - q) == r - x % d;
    assert p - q >= 1 ==> d * (p - q) >= d;
    assert p - q <= -1 ==> d * (p - q) <= -d;
  }

  /** Floor division of a negative number, by way of truncation. */
  lemma EraIsFloor(z: int)
    ensures
      var era := TruncDiv(if z >= 0 then z else z - 146_096, 146_097);
      0 <= z - era * 146_097 < 146_097
  {
  }

  /** Centuries, four-year groups and years inside an era. */
  lemma YearOfEra(doe: int)
    requires 0 <= doe < 146_097
    ensures
      var yoe := (doe - doe / 1_460 + doe / 36_524 - doe / 146_096) / 365;
      && 0 <= yoe < 400
      && 0 <= doe - YearStart(yoe) < (if LongYear(yoe) then 366 else 365)
  {
    hide YearStart, LongYear;
    var c := if doe / 36_524 < 4 then doe / 36_524 else 3;
    var r := doe - 36_524 * c;
    assert 0 <= r <= 36_524 && (r == 36_524 ==> c == 3);
    var q := if r / 1_461 < 25 then r / 1_461 else 24;
    var s := r - 1_461 * q;
    assert 0 <= s <= 1_460;
    var y := if s / 365 < 4 then s / 365 else 3;
    var doy := s - 365 * y;
    assert 0 <= doy <= 365 && (doy == 365 ==> y == 3);
    YearWithin(c, q, y, doy);
  }

  lemma YearWithin(c: int, q: int, y: int, doy: int)
    requires 0 <= c < 4 && 0 <= q < 25 && 0 <= y < 4 && 0 <= doy <= 365
    requires doy == 365 ==> y == 3 && (q < 24 || c == 3)
    ensures
      var doe := 36_524 * c + 1_461 * q + 365 * y + doy;
      var yoe := (doe - doe / 1_460 + doe / 36_524 - doe / 146_096) / 365;
      && yoe == 100 * c + 4 * q + y
      && doe - YearStart(yoe) == doy
      && doy < (if LongYear(yoe) then 366 else 365)
  {
    YearFound(c, q, y, doy);
    var yoe := 100 * c + 4 * q + y;
    Quotient(yoe, 4, 25 * c + q, y);
    Quotient(yoe, 100, c, 4 * q + y);
    LeapYearOfEra(c, q, y);
  }

  lemma YearFound(c: int, q: int, y: int, doy: int)
    requires 0 <= c < 4 && 0 <= q < 25 && 0 <= y < 4 && 0 <= doy <= 365
    requires doy == 365 ==> y == 3 && (q < 24 || c == 3)
    ensures
      var doe := 36_524 * c + 1_461 * q + 365 * y + doy;
      (doe - doe / 1_460 + doe / 36_524 - doe / 146_096) / 365 == 100 * c + 4 * q + y
  {
    var doe := 36_524 * c + 1_461 * q + 365 * y + doy;
    var yoe := 100 * c + 4 * q + y;
    var rest := 24 * c + q + 365 * y + doy;
    var e := if rest < 1_460 then 0 else 1;
    Quotient(doe, 1_460, 25 * c + q + e, rest - 1_460 * e);
    var last := if doe == 146_096 then 1 else 0;
    assert 1_461 * q + 365 * y + doy <= 36_524;
    Quotient(doe, 36_524, c + last, doe - 36_524 * (c + last));
    Quotient(doe, 146_096, last, doe - 146_096 * last);
    Quotient(doe - (25 * c + q + e) + c, 365, yoe, doy - e);
  }

  lemma LeapYearOfEra(c: int, q: int, y: int)
    requires 0 <= c < 4 && 0 <= q < 25 && 0 <= y < 4
    ensures LongYear(100 * c + 4 * q + y) <==> y == 3 && (q < 24 || c == 3)
  {
    var next := 100 * c + 4 * q + y + 1;
    if y == 3 {
      Quotient(next, 4, 25 * c + q + 1, 0);
      if q == 24 {
        Quotient(next, 100, c + 1, 0);
      } else {
        Quotient(next, 100, c, 4 * q + 4);
      }
    } else {
      Quotient(next, 4, 25 * c + q, y + 1);
    }
  }

  /** The algorithm finds the place of the day in the 400-year cycle. */
  lemma CivilFindsPlace(days: int) returns (p: Place)
    ensures ValidPlace(p) && DayOf(p) == days && CivilFromDays(days) == DateOf(p)
  {
    var z := days + 719_468;
    EraIsFloor(z);
    var era := TruncDiv(if z >= 0 then z else z - 146_096, 146_097);
    var doe := z - era * 146_097;
    YearOfEra(doe);
    var yoe := (doe - doe / 1_460 + doe / 36_524 - doe / 146_096) / 365;
    p := Place(era, yoe, doe - YearStart(yoe));
    MonthOfDay(p.doy, (5 * p.doy + 2) / 153);
    SameDate(days, era, doe, yoe, p.doy, (5 * p.doy + 2) / 153);
  }

  /** On the values that occur, truncating division is floor division. */
  lemma SameDate(days: int, era: int, doe: int, yoe: int, doy: int, mp: int)
    requires era == TruncDiv(if days + 719_468 >= 0 then days + 719_468 else days + 719_468 - 146_096, 146_097)
    requires doe == days + 719_468 - era * 146_097 && 0 <= doe < 146_097
    requires yoe == (doe - doe / 1_460 + doe / 36_524 - doe / 146_096) / 365 && 0 <= yoe < 400
    requires doy == doe - YearStart(yoe) && 0 <= doy < (if LongYear(yoe) then 366 else 365)
    requires mp == (5 * doy + 2) / 153 && 0 <= mp <= 11
    ensures CivilFromDays(days) == DateOf(Place(era, yoe, doy))
  {
    hide TruncDiv, LongYear;
    TruncIsFloor(doe, 1_460);
    TruncIsFloor(doe, 36_524);
    TruncIsFloor(doe, 146_096);
    assert doe / 1_460 <= doe;
    TruncIsFloor(doe - doe / 1_460 + doe / 36_524 - doe / 146_096, 365);
    TruncIsFloor(yoe, 4);
    TruncIsFloor(yoe, 100);
    TruncIsFloor(5 * doy + 2, 153);
    TruncIsFloor(153 * mp + 2, 5);
  }

  lemma TruncIsFloor(a: int, b: int)
    requires a >= 0 && b > 0
    ensures TruncDiv(a, b) == a / b
  {
  }

  function NextPlace(p: Place): Place
    requires ValidPlace(p)
  {
    if ValidPlace(Place(p.era, p.yoe, p.doy + 1)) then Place(p.era, p.yoe, p.doy + 1)
    else if p.yoe < 399 then Place(p.era, p.yoe + 1, 0)
    else Place(p.era + 1, 0, 0)
  }

  lemma NextPlaceIsNextDay(p: Place)
    requires ValidPlace(p)
    ensures ValidPlace(NextPlace(p)) && DayOf(NextPlace(p)) == DayOf(p) + 1
  {
    var q, y := p.yoe / 4, p.yoe % 4;
    var n := p.yoe + 1;
    if p.doy + 1 >= (if LongYear(p.yoe) then 366 else 365) {
      YearStartStep(p.yoe);
    }
  }

  lemma YearStartStep(yoe: int)
    requires 0 <= yoe < 400
    ensures (if yoe < 399 then YearStart(yoe + 1) else 146_097) == YearStart(yoe) + (if LongYear(yoe) then 366 else 365)
  {
    var c := yoe / 100;
    var q := (yoe % 100) / 4;
    var y := yoe % 4;
    assert yoe == 100 * c + 4 * q + y;
    LeapYearOfEra(c, q, y);
    Quotient(yoe, 4, 25 * c + q, y);
    if y == 3 {
      Quotient(yoe + 1, 4, 25 * c + q + 1, 0);
      if q == 24 {
        Quotient(yoe + 1, 100, c + 1, 0);
      } else {
        Quotient(yoe + 1, 100, c, 4 * q + 4);
      }
    } else {
      Quotient(yoe + 1, 4, 25 * c + q, y + 1);
      Quotient(yoe + 1, 100, c, 4 * q + y + 1);
    }
  }

  lemma DayDeterminesPlace(a: Place, b: Place)
    requires ValidPlace(a) && ValidPlace(b) && DayOf(a) == DayOf(b)
    ensures a == b
  {
    InEra(a);
    InEra(b);
    assert a.era == b.era;
    if a.yoe < b.yoe {
      YearStartsIncrease(a.yoe, b.yoe);
    } else if b.yoe < a.yoe {
      YearStartsIncrease(b.yoe, a.yoe);
    }
  }

  lemma InEra(p: Place)
    requires ValidPlace(p)
    ensures 0 <= YearStart(p.yoe) + p.doy < 146_097
  {
    YearStartStep(p.yoe);
    if p.yoe < 399 {
      YearStartsIncrease(p.yoe + 1, 399);
    }
  }

  lemma {:induction false} YearStartsIncrease(a: int, b: int)
    requires 0 <= a <= b < 400
    ensures YearStart(a) + 365 * (b - a) <= YearStart(b)
    ensures a < b ==> YearStart(a) + (if LongYear(a) then 366 else 365) <= YearStart(b)
    decreases b - a
  {
    if a < b {
      YearStartStep(a);
      YearStartsIncrease(a + 1, b);
    }
  }

  // ---- months -------------------------------------------------------------------------------

  lemma LeapOfPlace(p: Place)
    requires 0 <= p.yoe < 400
    ensures IsLeap(p.era * 400 + p.yoe + 1) <==> LongYear(p.yoe)
  {
    var year := p.era * 400 + p.yoe + 1;
    assert year == (p.era * 100) * 4 + (p.yoe + 1);
    assert year == (p.era * 4) * 100 + (p.yoe + 1);
    assert year == p.era * 400 + (p.yoe + 1);
    ModOfSum(p.yoe + 1, 4, p.era * 100);
    ModOfSum(p.yoe + 1, 100, p.era * 4);
    ModOfSum(p.yoe + 1, 400, p.era);
  }

  lemma ModOfSum(a: int, d: int, k: int)
    requires d > 0
    ensures (k * d + a) % d == a % d
  {
    var x := k * d + a;
    Quotient(x, d, k + a / d, a % d);
  }

  /** The (153 mp + 2) / 5 table has the lengths of the months in it. */
  lemma MonthLengths(p: Place, mp: int)
    requires ValidPlace(p) && mp == (5 * p.doy + 2) / 153
    ensures 0 <= mp <= 11 && MonthStart(mp) <= p.doy
    ensures MonthLength(DateOf(p).year, DateOf(p).month)
         == (if mp < 11 then MonthStart(mp + 1) else if LongYear(p.yoe) then 366 else 365) - MonthStart(mp)
    ensures mp < 11 ==> p.doy < MonthStart(mp + 1)
  {
    MonthOfDay(p.doy, mp);
    LeapOfPlace(p);
  }

  lemma NextDayInYear(p: Place, next: Place)
    requires ValidPlace(p) && ValidPlace(next) && next == Place(p.era, p.yoe, p.doy + 1)
    ensures ValidDate(DateOf(p)) && DateOf(next) == NextDay(DateOf(p))
  {
    hide LongYear, IsLeap, MonthLength;
    var mp := (5 * p.doy + 2) / 153;
    MonthLengths(p, mp);
    NextMonth(p.doy, mp);
  }

  lemma NewYear(p: Place, next: Place)
    requires ValidPlace(p) && !ValidPlace(Place(p.era, p.yoe, p.doy + 1)) && next == NextPlace(p)
    ensures ValidDate(DateOf(p)) && DateOf(next) == NextDay(DateOf(p))
  {
    var mp := (5 * p.doy + 2) / 153;
    MonthLengths(p, mp);
    assert mp == 11;
    assert MonthStart(0) == 0;
    assert next.era * 400 + next.yoe == p.era * 400 + p.yoe + 1;
  }

  /** Dates of consecutive places are consecutive days of the calendar. */
  lemma DateOfNextPlace(p: Place)
    requires ValidPlace(p)
    ensures ValidDate(DateOf(p)) && ValidPlace(NextPlace(p)) && DateOf(NextPlace(p)) == NextDay(DateOf(p))
  {
    var next := Place(p.era, p.yoe, p.doy + 1);
    if ValidPlace(next) {
      NextDayInYear(p, next);
    } else {
      NewYear(p, NextPlace(p));
    }
  }

  lemma NextMonth(doy: int, mp: int)
    requires 0 <= doy < 365 && mp == (5 * doy + 2) / 153
    ensures (5 * (doy + 1) + 2) / 153 == if mp < 11 && doy + 1 == MonthStart(mp + 1) then mp + 1 else mp
  {
    MonthOfDay(doy, mp);
    MonthOfDay(doy + 1, (5 * (doy + 1) + 2) / 153);
  }

  lemma MonthOfDay(doy: int, mp: int)
    requires 0 <= doy <= 365 && mp == (5 * doy + 2) / 153
    ensures 0 <= mp <= 11
    ensures MonthStart(mp) <= doy && (mp < 11 ==> doy < MonthStart(mp + 1))
    ensures MonthStart(0) == 0 && MonthStart(1) == 31 && MonthStart(2) == 61 && MonthStart(3) == 92
         && MonthStart(4) == 122 && MonthStart(5) == 153 && MonthStart(6) == 184 && MonthStart(7) == 214
         && MonthStart(8) == 245 && MonthStart(9) == 275 && MonthStart(10) == 306 && MonthStart(11) == 337
  {
  }

  // ---- the theorems -------------------------------------------------------------------------

  lemma EpochIsDayZero()
    ensures CivilFromDays(0) == EPOCH
  {
    assert TruncDiv(719_468, 146_097) == 4;
    assert TruncDiv(135_080, 1_460) == 92 && TruncDiv(135_080, 36_524) == 3 && TruncDiv(135_080, 146_096) == 0;
    assert TruncDiv(134_991, 365) == 369 && TruncDiv(369, 4) == 92 && TruncDiv(369, 100) == 3;
    assert TruncDiv(1_532, 153) == 10 && TruncDiv(1_532, 5) == 306;
    hide TruncDiv;
  }

  /** For every day number: a valid date, and the next number is the next day. With
      EpochIsDayZero this determines the whole map. */
  lemma CivilFollowsTheCalendar(days: int)
    ensures ValidDate(CivilFromDays(days))
    ensures CivilFromDays(days + 1) == NextDay(CivilFromDays(days))
  {
    var p := CivilFindsPlace(days);
    var next := CivilFindsPlace(days + 1);
    DateOfNextPlace(p);
    NextPlaceIsNextDay(p);
    DayDeterminesPlace(next, NextPlace(p));
  }

  // ---- the day count, counted from the calendar's rules ------------------------------------

  function FloorYears(y: int): int {
    365 * y + y / 4 - y / 100 + y / 400
  }

  function DaysBeforeMonth(year: int, month: int): int
    requires 1 <= month <= 12
    decreases month
  {
    if month == 1 then 0 else DaysBeforeMonth(year, month - 1) + MonthLength(year, month - 1)
  }

  /** Days since 1970-01-01, counted through whole years and whole months. */
  function DayNumber(d: Date): int
    requires ValidDate(d)
  {
    FloorYears(d.year - 1) - FloorYears(1969) + DaysBeforeMonth(d.year, d.month) + d.day - 1
  }

  lemma YearLength(year: int)
    ensures FloorYears(year) - FloorYears(year - 1) == if IsLeap(year) then 366 else 365
    ensures DaysBeforeMonth(year, 12) + 31 == if IsLeap(year) then 366 else 365
  {
    StepDivides(year, 4);
    StepDivides(year, 100);
    StepDivides(year, 400);
    LeapMultiples(year);
    MonthTable(year);
  }

  /** A multiple of four centuries is one of a century, and that one of four years. */
  lemma LeapMultiples(year: int)
    ensures year % 400 == 0 ==> year % 100 == 0
    ensures year % 100 == 0 ==> year % 4 == 0
  {
    if year % 400 == 0 { ModOfSum(0, 100, 4 * (year / 400)); }
    if year % 100 == 0 { ModOfSum(0, 4, 25 * (year / 100)); }
  }

  lemma StepDivides(y: int, d: int)
    requires d > 1
    ensures y / d - (y - 1) / d == if y % d == 0 then 1 else 0
  {
    if y % d == 0 {
      Quotient(y - 1, d, y / d - 1, d - 1);
    } else {
      Quotient(y - 1, d, y / d, y % d - 1);
    }
  }

  lemma MonthTable(year: int)
    ensures
      var extra := if IsLeap(year) then 1 else 0;
      && DaysBeforeMonth(year, 1) == 0 && DaysBeforeMonth(year, 2) == 31
      && DaysBeforeMonth(year, 3) == 59 + extra && DaysBeforeMonth(year, 4) == 90 + extra
      && DaysBeforeMonth(year, 5) == 120 + extra && DaysBeforeMonth(year, 6) == 151 + extra
      && DaysBeforeMonth(year, 7) == 181 + extra && DaysBeforeMonth(year, 8) == 212 + extra
      && DaysBeforeMonth(year, 9) == 243 + extra && DaysBeforeMonth(year, 10) == 273 + extra
      && DaysBeforeMonth(year, 11) == 304 + extra && DaysBeforeMonth(year, 12) == 334 + extra
  {
    assert DaysBeforeMonth(year, 3) == DaysBeforeMonth(year, 2) + MonthLength(year, 2);
    assert DaysBeforeMonth(year, 5) == DaysBeforeMonth(year, 4) + 30;
    assert DaysBeforeMonth(year, 7) == DaysBeforeMonth(year, 6) + 30;
    assert DaysBeforeMonth(year, 9) == DaysBeforeMonth(year, 8) + 31;
    assert DaysBeforeMonth(year, 11) == DaysBeforeMonth(year, 10) + 31;
  }

  lemma NextDayCountsOne(d: Date)
    requires ValidDate(d)
    ensures ValidDate(NextDay(d)) && DayNumber(NextDay(d)) == DayNumber(d) + 1
  {
    if d.day == MonthLength(d.year, d.month) && d.month == 12 {
      YearLength(d.year);
    }
  }

  lemma EpochNumber()
    ensures DayNumber(EPOCH) == 0
  {
  }

  /** The algorithm inverts the day count. */
  lemma {:induction false} CivilInvertsDayNumber(days: int)
    ensures ValidDate(CivilFromDays(days)) && DayNumber(CivilFromDays(days)) == days
    decreases if days < 0 then -days else days
  {
    hide CivilFromDays, DayNumber, NextDay;
    if days == 0 {
      EpochIsDayZero();
      EpochNumber();
    } else if days > 0 {
      CivilInvertsDayNumber(days - 1);
      CivilFollowsTheCalendar(days - 1);
      NextDayCountsOne(CivilFromDays(days - 1));
    } else {
      CivilInvertsDayNumber(days + 1);
      CivilFollowsTheCalendar(days);
      NextDayCountsOne(CivilFromDays(days));
    }
  }

  lemma {:induction false} MonthsIncrease(year: int, a: int, b: int)
    requires 1 <= a < b <= 12
    ensures DaysBeforeMonth(year, a) + MonthLength(year, a) <= DaysBeforeMonth(year, b)
    decreases b
  {
    if a + 1 < b {
      MonthsIncrease(year, a, b - 1);
    }
  }

  lemma {:induction false} YearsIncrease(a: int, b: int)
    requires a <= b
    ensures FloorYears(a) <= FloorYears(b)
    decreases b - a
  {
    if a < b {
      YearLength(b);
      YearsIncrease(a, b - 1);
    }
  }

  lemma WithinYear(d: Date)
    requires ValidDate(d)
    ensures 0 <= DaysBeforeMonth(d.year, d.month) + d.day - 1 < FloorYears(d.year) - FloorYears(d.year - 1)
  {
    YearLength(d.year);
    MonthTable(d.year);
    if d.month < 12 {
      MonthsIncrease(d.year, d.month, 12);
    }
  }

  lemma DayNumberIncreases(a: Date, b: Date)
    requires ValidDate(a) && ValidDate(b) && Before(a, b)
    ensures DayNumber(a) < DayNumber(b)
  {
    hide FloorYears, IsLeap, MonthLength;
    if a.year < b.year {
      WithinYear(a);
      WithinYear(b);
      YearsIncrease(a.year, b.year - 1);
    } else if a.month < b.month {
      MonthsIncrease(a.year, a.month, b.month);
    }
  }

  /** ... and the day count inverts the algorithm. */
  lemma DayNumberInvertsCivil(d: Date)
    requires ValidDate(d)
    ensures CivilFromDays(DayNumber(d)) == d
  {
    hide CivilFromDays, DayNumber, ValidDate;
    var e := CivilFromDays(DayNumber(d));
    CivilInvertsDayNumber(DayNumber(d));
    if Before(d, e) {
      DayNumberIncreases(d, e);
    } else if Before(e, d) {
      DayNumberIncreases(e, d);
    }
  }

  lemma CivilIncreases(a: int, b: int)
    requires a < b
    ensures Before(CivilFromDays(a), CivilFromDays(b))
  {
    hide CivilFromDays, DayNumber, ValidDate;
    CivilInvertsDayNumber(a);
    CivilInvertsDayNumber(b);
    if Before(CivilFromDays(b), CivilFromDays(a)) {
      DayNumberIncreases(CivilFromDays(b), CivilFromDays(a));
    }
  }

  predicate FitsI64(n: int) {
    -0x8000_0000_0000_0000 <= n < 0x8000_0000_0000_0000
  }

  /** No intermediate value leaves i64 unless one of the first two sums does. */
  lemma NothingElseOverflows(days: int)
    requires FitsI64(days) && FitsI64(days + 719_468)
    requires days + 719_468 < 0 ==> FitsI64(days + 719_468 - 146_096)
    ensures
      var z := days + 719_468;
      var era := TruncDiv(if z >= 0 then z else z - 146_096, 146_097);
      var doe := z - era * 146_097;
      var yoe := TruncDiv(doe - TruncDiv(doe, 1_460) + TruncDiv(doe, 36_524) - TruncDiv(doe, 146_096), 365);
      && FitsI64(era) && FitsI64(era * 146_097) && FitsI64(doe) && FitsI64(365 * yoe)
      && FitsI64(era * 400) && FitsI64(yoe + era * 400) && FitsI64(CivilFromDays(days).year)
  {
    var z := days + 719_468;
    EraIsFloor(z);
    var era := TruncDiv(if z >= 0 then z else z - 146_096, 146_097);
    var doe := z - era * 146_097;
    YearOfEra(doe);
    assert doe / 1_460 <= doe;
    assert -0x8000_0000_0000_0000 / 1000 <= era <= 0x8000_0000_0000_0000 / 1000;
  }

  // ---- timestamps ----------------------------------------------------------------------------

  function Digits(n: nat): string {
    if n < 10 then [('0' as int + n) as char] else Digits(n / 10) + [('0' as int + n % 10) as char]
  }

  /** `{n:0width$}`. */
  function Padded(n: nat, width: nat): string {
    var digits := Digits(n);
    seq(if |digits| < width then width - |digits| else 0, _ => '0') + digits
  }

  function DateText(d: Date): string
    requires d.year >= 0 && ValidDate(d)
  {
    Padded(d.year, 4) + "-" + Padded(d.month, 2) + "-" + Padded(d.day, 2)
  }

  function FormatUnix(value: int): string {
    if value <= 0 then "-"
    else
      var days := value / 86_400;
      var seconds := value % 86_400;
      CivilSinceEpoch(days);
      DateText(CivilFromDays(days)) + " " + Padded(seconds / 3_600, 2) + ":"
      + Padded((seconds % 3_600) / 60, 2) + ":" + Padded(seconds % 60, 2)
  }

  lemma CivilSinceEpoch(days: int)
    requires days >= 0
    ensures ValidDate(CivilFromDays(days)) && CivilFromDays(days).year >= 1970
  {
    hide CivilFromDays, DayNumber;
    CivilInvertsDayNumber(days);
    EpochIsDayZero();
    if days > 0 {
      CivilIncreases(0, days);
    }
  }

  function ReadNumber(text: string): int {
    if text == [] then 0 else ReadNumber(text[..|text| - 1]) * 10 + (text[|text| - 1] as int - '0' as int)
  }

  lemma {:induction false} ReadDigits(n: nat)
    ensures ReadNumber(Digits(n)) == n && Digits(n) != []
    ensures n < 100 ==> |Digits(n)| <= 2
  {
    if n >= 10 {
      ReadDigits(n / 10);
      assert Digits(n)[..|Digits(n)| - 1] == Digits(n / 10);
    } else {
      assert Digits(n)[..0] == [];
    }
  }

  lemma {:induction false} ReadZeros(zeros: string, text: string)
    requires forall i :: 0 <= i < |zeros| ==> zeros[i] == '0'
    ensures ReadNumber(zeros + text) == ReadNumber(text)
    decreases |text|, |zeros|
  {
    if text != [] {
      assert (zeros + text)[..|zeros + text| - 1] == zeros + text[..|text| - 1];
      ReadZeros(zeros, text[..|text| - 1]);
    } else if zeros != [] {
      assert (zeros + text)[..|zeros + text| - 1] == zeros[..|zeros| - 1] + text;
      ReadZeros(zeros[..|zeros| - 1], text);
    }
  }

  lemma ReadPadded(n: nat, width: nat)
    ensures ReadNumber(Padded(n, width)) == n
    ensures n < 100 && width == 2 ==> |Padded(n, width)| == 2
  {
    hide ReadNumber, Digits;
    var digits := Digits(n);
    ReadDigits(n);
    var zeros := seq(if |digits| < width then width - |digits| else 0, _ => '0');
    ReadZeros(zeros, digits);
  }

  /** The instant a formatted timestamp denotes: the year is whatever precedes the last
      fifteen characters, the other fields have fixed places. */
  function ReadUnix(text: string): int
    requires |text| >= 15
    requires ValidDate(ReadDate(text[..|text| - 9]))
  {
    var time := text[|text| - 8..];
    DayNumber(ReadDate(text[..|text| - 9])) * 86_400
    + ReadNumber(time[..2]) * 3_600 + ReadNumber(time[3..5]) * 60 + ReadNumber(time[6..8])
  }

  function ReadDate(text: string): Date
    requires |text| >= 6
  {
    Date(ReadNumber(text[..|text| - 6]), ReadNumber(text[|text| - 5..|text| - 3]), ReadNumber(text[|text| - 2..]))
  }

  lemma ReadDateText(d: Date)
    requires d.year >= 0 && ValidDate(d)
    ensures |DateText(d)| >= 6 && ReadDate(DateText(d)) == d
  {
    var y, m, dd := Padded(d.year, 4), Padded(d.month, 2), Padded(d.day, 2);
    ReadPadded(d.year, 4);
    ReadPadded(d.month, 2);
    ReadPadded(d.day, 2);
    var text := DateText(d);
    assert text[..|text| - 6] == y;
    assert text[|text| - 5..|text| - 3] == m;
    assert text[|text| - 2..] == dd;
  }

  /** The fields of a formatted timestamp recombine to the seconds it was made from. */
  lemma FormatUnixRoundTrip(value: int)
    requires value > 0
    ensures
      var text := FormatUnix(value);
      |text| >= 15 && ValidDate(ReadDate(text[..|text| - 9])) && ReadUnix(text) == value
  {
    hide CivilFromDays, DayNumber, DateText, ReadDate, Padded, ReadNumber;
    var days, seconds := value / 86_400, value % 86_400;
    CivilSinceEpoch(days);
    var d := CivilFromDays(days);
    ReadDateText(d);
    var h, mi, s := Padded(seconds / 3_600, 2), Padded((seconds % 3_600) / 60, 2), Padded(seconds % 60, 2);
    ReadPadded(seconds / 3_600, 2);
    ReadPadded((seconds % 3_600) / 60, 2);
    ReadPadded(seconds % 60, 2);
    var text := FormatUnix(value);
    assert text == DateText(d) + (" " + h + ":" + mi + ":" + s);
    assert text[..|text| - 9] == DateText(d);
    var time := text[|text| - 8..];
    assert |h| == 2 && |mi| == 2 && |s| == 2;
    assert time == h + ":" + mi + ":" + s;
    assert time[..2] == h;
    assert time[3..5] == mi;
    assert time[6..8] == s;
    CivilInvertsDayNumber(days);
  }
}
