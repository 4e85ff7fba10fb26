/** Wall-clock time as text: a closed form from day numbers to dates, against the calendar counted day by day. */
module CivilTime {
  import opened Integers
  import opened Numerals

  datatype Date = Date(year: int, month: int, day: int)

  // ---- The calendar --------------------------------------------------------------------------------------

  predicate IsLeap(year: int) {
    year % 4 == 0 && (year % 100 != 0 || year % 400 == 0)
  }

  function MonthLength(year: int, month: int): int {
    if month == 2 then (if IsLeap(year) then 29 else 28)
    else if month == 4 || month == 6 || month == 9 || month == 11 then 30
    else 31
  }

  predicate IsDate(d: Date) {
    1 <= d.month <= 12 && 1 <= d.day <= MonthLength(d.year, d.month)
  }

  function NextDay(d: Date): Date {
    if d.day < MonthLength(d.year, d.month) then d.(day := d.day + 1)
    else if d.month < 12 then Date(d.year, d.month + 1, 1)
    else Date(d.year + 1, 1, 1)
  }

  // ---- The closed form -----------------------------------------------------------------------------------

  /** The year of the era a day falls in, counting years from 1 March. */
  function YearOfEra(doe: int): int {
    (doe - doe / 1460 + doe / 36_524 - doe / 146_096) / 365
  }

  /** The date of a day of a year that starts on 1 March. */
  function FromMarch(year: int, doy: int): Date {
    var mp := (5 * doy + 2) / 153;
    var day := doy - (153 * mp + 2) / 5 + 1;
    var month := if mp < 10 then mp + 3 else mp - 9;
    Date(year + if month <= 2 then 1 else 0, month, day)
  }

  /** The day of the year, counted from March. */
  function DayOfYear(doe: int, yoe: int): int {
    doe - (365 * yoe + yoe / 4 - yoe / 100)
  }

  /** The date of a day of an era of 400 years. */
  function FromEra(era: int, doe: int): Date {
    var yoe := YearOfEra(doe);
    FromMarch(yoe + era * 400, DayOfYear(doe, yoe))
  }

  /** The date of a day, counted from 1970-01-01. */
  function DateOf(days: int): Date {
    var z := days + 719_468;
    FromEra(z / 146_097, z % 146_097)
  }

  /** A number in a field of at least `width` characters; a minus sign takes one of them. */
  function Padded(n: int, width: int): string {
    if n < 0 then "-" + Filled(-n, width - 1) else Filled(n, width)
  }

  function Filled(n: nat, width: int): string {
    Zeros(width - |Digits(n)|) + Digits(n)
  }

  function Zeros(k: int): string {
    if k <= 0 then "" else "0" + Zeros(k - 1)
  }

  /** Seconds of the day as hours, minutes and seconds. */
  datatype Clock = Clock(hour: int, minute: int, second: int)

  function ClockOf(secs: int): Clock {
    var rem := secs % 86_400;
    Clock(rem / 3600, rem % 3600 / 60, rem % 60)
  }

  function Written(d: Date, c: Clock): string {
    Padded(d.year, 4) + AfterYear(Padded(d.month, 2), Padded(d.day, 2),
                                  Padded(c.hour, 2), Padded(c.minute, 2), Padded(c.second, 2))
  }

  function AfterYear(m: string, d: string, h: string, n: string, s: string): string {
    "-" + m + "-" + d + "T" + h + ":" + n + ":" + s + "Z"
  }

  function FmtUtc(ms: int): string {
    Written(DateOf(ms / 1000 / 86_400), ClockOf(ms / 1000))
  }

  // ---- A day in an era -----------------------------------------------------------------------------------

  /** A day's century, four-year cycle, year of the cycle and day of the year, in an era that starts on 1 March. */
  datatype InEra = InEra(c: int, q: int, s: int, t: int)

  /** Whether the year that starts on 1 March has a 29 February at its end. */
  predicate LongYear(c: int, q: int, s: int) {
    s == 3 && (q != 24 || c == 3)
  }

  function YearLength(c: int, q: int, s: int): int {
    if LongYear(c, q, s) then 366 else 365
  }

  predicate IsInEra(e: InEra) {
    && 0 <= e.c < 4 && 0 <= e.q < 25 && 0 <= e.s < 4
    && 0 <= e.t < YearLength(e.c, e.q, e.s)
  }

  function DayOfEra(e: InEra): int {
    36_524 * e.c + 1461 * e.q + 365 * e.s + e.t
  }

  function YearIn(e: InEra): int {
    100 * e.c + 4 * e.q + e.s
  }

  function Cut(doe: int): InEra {
    var c := if doe / 36_524 > 3 then 3 else doe / 36_524;
    var inCentury := doe - 36_524 * c;
    var q := inCentury / 1461;
    var inCycle := inCentury - 1461 * q;
    var s := if inCycle / 365 > 3 then 3 else inCycle / 365;
    InEra(c, q, s, inCycle - 365 * s)
  }

  lemma CutIsInEra(doe: int)
    requires 0 <= doe < 146_097
    ensures IsInEra(Cut(doe)) && DayOfEra(Cut(doe)) == doe
  {
  }

  lemma DayOfEraInRange(e: InEra)
    requires IsInEra(e)
    ensures 0 <= DayOfEra(e) < 146_097
  {
  }

  lemma FourYears(e: InEra)
    requires IsInEra(e)
    ensures DayOfEra(e) / 1460 == 25 * e.c + e.q + Carry(e) && 0 <= e.t - Carry(e) < 365
  {
    var low := 24 * e.c + e.q + 365 * e.s + e.t - 1460 * Carry(e);
    assert DayOfEra(e) == 1460 * (25 * e.c + e.q + Carry(e)) + low;
  }

  /** Whether the days in excess of four years of 365 days fill another four years. */
  function Carry(e: InEra): int {
    if 24 * e.c + e.q + 365 * e.s + e.t >= 1460 then 1 else 0
  }

  lemma Centuries(e: InEra)
    requires IsInEra(e)
    ensures DayOfEra(e) / 36_524 - DayOfEra(e) / 146_096 == e.c
  {
    assert DayOfEra(e) == 36_524 * e.c + (1461 * e.q + 365 * e.s + e.t);
  }

  /** The closed form finds the year. */
  lemma YearIsFound(e: InEra)
    requires IsInEra(e)
    ensures YearOfEra(DayOfEra(e)) == YearIn(e)
  {
    FourYears(e);
    Centuries(e);
  }

  lemma YearStart(e: InEra)
    requires IsInEra(e)
    ensures DayOfYear(DayOfEra(e), YearIn(e)) == e.t
  {
    YearParts(e.c, e.q, e.s);
  }

  lemma YearParts(c: int, q: int, s: int)
    requires 0 <= q < 25 && 0 <= s < 4
    ensures (100 * c + 4 * q + s) / 4 == 25 * c + q && (100 * c + 4 * q + s) / 100 == c
  {
    assert 100 * c + 4 * q + s == 4 * (25 * c + q) + s;
  }

  function MarchYear(era: int, e: InEra): int {
    YearIn(e) + era * 400
  }

  lemma FromEraAt(era: int, doe: int, year: int, t: int)
    requires YearOfEra(doe) == year && DayOfYear(doe, year) == t
    ensures FromEra(era, doe) == FromMarch(year + era * 400, t)
  {
  }

  lemma FromEraIs(era: int, e: InEra)
    requires IsInEra(e)
    ensures FromEra(era, DayOfEra(e)) == FromMarch(MarchYear(era, e), e.t)
  {
    YearIsFound(e);
    YearStart(e);
    FromEraAt(era, DayOfEra(e), YearIn(e), e.t);
  }

  lemma EraOf(days: int, era: int, doe: int)
    requires 0 <= doe < 146_097 && days + 719_468 == 146_097 * era + doe
    ensures DateOf(days) == FromEra(era, doe)
  {
    assert (days + 719_468) / 146_097 == era && (days + 719_468) % 146_097 == doe;
  }

  // ---- One day further -----------------------------------------------------------------------------------

  lemma MultipleBy4(k: int, r: int)
    requires 0 < r <= 4
    ensures (4 * k + r) % 4 == 0 <==> r == 4
  {
  }

  lemma MultipleBy100(k: int, r: int)
    requires 0 < r <= 100
    ensures (100 * k + r) % 100 == 0 <==> r == 100
  {
  }

  lemma MultipleBy400(k: int, r: int)
    requires 0 < r <= 400
    ensures (400 * k + r) % 400 == 0 <==> r == 400
  {
  }

  lemma LeapAtTheEnd(era: int, e: InEra)
    requires IsInEra(e)
    ensures IsLeap(MarchYear(era, e) + 1) <==> LongYear(e.c, e.q, e.s)
  {
    MultipleBy4(100 * era + 25 * e.c + e.q, e.s + 1);
    MultipleBy100(4 * era + e.c, 4 * e.q + e.s + 1);
    MultipleBy400(era, YearIn(e) + 1);
  }

  /** The first day of a month of a year that starts in March. */
  function MonthStart(mp: int): int {
    (153 * mp + 2) / 5
  }

  lemma MonthFound(doy: int) returns (mp: int)
    requires 0 <= doy <= 365
    ensures mp == (5 * doy + 2) / 153 && 0 <= mp <= 11 && MonthStart(mp) <= doy < MonthStart(mp + 1)
  {
    mp := (5 * doy + 2) / 153;
  }

  lemma DateInMarchYear(year: int, doy: int)
    requires 0 <= doy <= if IsLeap(year + 1) then 365 else 364
    ensures IsDate(FromMarch(year, doy))
  {
    var _ := MonthFound(doy);
  }

  lemma DayOfMonth(year: int, mp: int, doy: int)
    requires 0 <= mp <= 11 && MonthStart(mp) <= doy < MonthStart(mp + 1)
    ensures FromMarch(year, doy)
         == Date(year + if mp >= 10 then 1 else 0, if mp < 10 then mp + 3 else mp - 9, doy - MonthStart(mp) + 1)
  {
    assert (5 * doy + 2) / 153 == mp;
  }

  /** The spacing of the formula is the calendar's, but for the end of February. */
  lemma MonthSpacing(year: int, mp: int)
    requires 0 <= mp < 11
    ensures MonthStart(mp + 1) - MonthStart(mp) == MonthLength(year, if mp < 10 then mp + 3 else mp - 9)
  {
  }

  lemma NextInMonth(year: int, mp: int, doy: int)
    requires 0 <= mp <= 11 && MonthStart(mp) <= doy && doy + 1 < MonthStart(mp + 1)
    requires doy - MonthStart(mp) + 1
           < MonthLength(year + if mp >= 10 then 1 else 0, if mp < 10 then mp + 3 else mp - 9)
    ensures FromMarch(year, doy + 1) == NextDay(FromMarch(year, doy))
  {
    DayOfMonth(year, mp, doy);
    DayOfMonth(year, mp, doy + 1);
  }

  lemma NextMonth(year: int, mp: int, doy: int)
    requires 0 <= mp < 11 && doy + 1 == MonthStart(mp + 1)
    ensures FromMarch(year, doy + 1) == NextDay(FromMarch(year, doy))
  {
    MonthSpacing(if mp >= 10 then year + 1 else year, mp);
    DayOfMonth(year, mp, doy);
    DayOfMonth(year, mp + 1, doy + 1);
  }

  lemma InFebruary(year: int, doy: int)
    requires MonthStart(11) <= doy < if IsLeap(year + 1) then 365 else 364
    ensures doy - MonthStart(11) + 1 < MonthLength(year + 1, 2)
  {
  }


  /** A day that is not the last of its month, by the formula, is not the last by the calendar. */
  lemma RoomInMonth(year: int, mp: int, doy: int)
    requires 0 <= mp <= 11 && MonthStart(mp) <= doy && doy + 1 < MonthStart(mp + 1)
    requires doy < if IsLeap(year + 1) then 365 else 364
    ensures doy - MonthStart(mp) + 1
          < MonthLength(year + if mp >= 10 then 1 else 0, if mp < 10 then mp + 3 else mp - 9)
  {
    if mp < 11 {
      MonthSpacing(if mp >= 10 then year + 1 else year, mp);
    } else {
      InFebruary(year, doy);
    }
  }

  lemma NextInYear(year: int, doy: int)
    requires 0 <= doy < if IsLeap(year + 1) then 365 else 364
    ensures FromMarch(year, doy + 1) == NextDay(FromMarch(year, doy))
  {
    var mp := MonthFound(doy);
    if doy + 1 < MonthStart(mp + 1) {
      RoomInMonth(year, mp, doy);
      NextInMonth(year, mp, doy);
    } else {
      NextMonth(year, mp, doy);
    }
  }

  lemma NextYear(year: int)
    ensures FromMarch(year + 1, 0) == NextDay(FromMarch(year, if IsLeap(year + 1) then 365 else 364))
  {
  }

  /** The next day in its era, after as many eras as the carry says. */
  function NextParts(e: InEra): (int, InEra)
    requires IsInEra(e)
  {
    if e.t + 1 < YearLength(e.c, e.q, e.s) then (0, e.(t := e.t + 1))
    else if e.s < 3 then (0, InEra(e.c, e.q, e.s + 1, 0))
    else if e.q < 24 then (0, InEra(e.c, e.q + 1, 0, 0))
    else if e.c < 3 then (0, InEra(e.c + 1, 0, 0, 0))
    else (1, InEra(0, 0, 0, 0))
  }

  lemma NextPartsFollow(e: InEra)
    requires IsInEra(e)
    ensures var (carry, next) := NextParts(e);
            IsInEra(next) && 146_097 * carry + DayOfEra(next) == DayOfEra(e) + 1
  {
  }

  lemma NextMarchDay(year: int, doy: int, year': int, doy': int, last: int)
    requires last == if IsLeap(year + 1) then 365 else 364
    requires 0 <= doy <= last
    requires if doy < last then year' == year && doy' == doy + 1 else year' == year + 1 && doy' == 0
    ensures IsDate(FromMarch(year, doy)) && FromMarch(year', doy') == NextDay(FromMarch(year, doy))
  {
    DateInMarchYear(year, doy);
    if doy' == 0 {
      NextYear(year);
    } else {
      NextInYear(year, doy);
    }
  }

  lemma NextMarchYear(e: InEra)
    requires IsInEra(e)
    ensures var (carry, next) := NextParts(e);
            if e.t + 1 < YearLength(e.c, e.q, e.s) then 400 * carry + YearIn(next) == YearIn(e) && next.t == e.t + 1
            else 400 * carry + YearIn(next) == YearIn(e) + 1 && next.t == 0
  {
  }

  lemma NextDate(era: int, e: InEra)
    requires IsInEra(e)
    ensures var (carry, next) := NextParts(e);
            var d := FromMarch(MarchYear(era, e), e.t);
            IsDate(d) && FromMarch(MarchYear(era + carry, next), next.t) == NextDay(d)
  {
    var (carry, next) := NextParts(e);
    LeapAtTheEnd(era, e);
    NextMarchYear(e);
    NextMarchDay(MarchYear(era, e), e.t, MarchYear(era + carry, next), next.t, YearLength(e.c, e.q, e.s) - 1);
  }

  lemma DateAt(days: int, era: int, e: InEra)
    requires IsInEra(e) && days == 146_097 * era + DayOfEra(e) - 719_468
    ensures DateOf(days) == FromMarch(MarchYear(era, e), e.t)
  {
    DayOfEraInRange(e);
    EraOf(days, era, DayOfEra(e));
    FromEraIs(era, e);
  }

  lemma PartsOf(days: int) returns (era: int, e: InEra)
    ensures IsInEra(e) && days == 146_097 * era + DayOfEra(e) - 719_468
  {
    var z := days + 719_468;
    era, e := z / 146_097, Cut(z % 146_097);
    CutIsInEra(z % 146_097);
  }

  /** The closed form follows the calendar, from every day to the next, before and after 1970. */
  lemma DateFollowsCalendar(days: int)
    ensures IsDate(DateOf(days)) && DateOf(days + 1) == NextDay(DateOf(days))
  {
    var era, e := PartsOf(days);
    var (carry, next) := NextParts(e);
    NextPartsFollow(e);
    NextDate(era, e);
    DateAt(days, era, e);
    DateAt(days + 1, era + carry, next);
  }

  lemma EpochIs1970()
    ensures DateOf(0) == Date(1970, 1, 1)
  {
    var e := InEra(3, 17, 1, 306);
    assert DayOfEra(e) == 719_468 - 4 * 146_097;
    DateAt(0, 4, e);
    assert MarchYear(4, e) == 1969;
    DayOfMonth(1969, 10, MonthStart(10));
  }

  // ---- The calendar leaves no choice ---------------------------------------------------------------------

  predicate Earlier(a: Date, b: Date) {
    a.year < b.year || (a.year == b.year && (a.month < b.month || (a.month == b.month && a.day < b.day)))
  }

  lemma NextIsLater(a: Date, b: Date)
    requires IsDate(b) && (a == b || Earlier(a, b))
    ensures Earlier(a, NextDay(b))
  {
  }

  /** Any dating of the days that follows the calendar ascends. */
  lemma {:induction false} FollowingAscends(date: int -> Date, m: int, n: int)
    requires m < n && forall k :: IsDate(date(k)) && date(k + 1) == NextDay(date(k))
    ensures Earlier(date(m), date(n))
    decreases n - m
  {
    if m < n - 1 {
      FollowingAscends(date, m, n - 1);
    }
    NextIsLater(date(m), date(n - 1));
    assert date(n) == date((n - 1) + 1);
  }

  /** Later days have later dates, so no date is shown for two days. */
  lemma DatesAscend(m: int, n: int)
    requires m < n
    ensures Earlier(DateOf(m), DateOf(n))
  {
    forall k
      ensures IsDate(DateOf(k)) && DateOf(k + 1) == NextDay(DateOf(k))
    {
      DateFollowsCalendar(k);
    }
    FollowingAscends(DateOf, m, n);
  }

  // ---- The text ------------------------------------------------------------------------------------------

  predicate IsClock(c: Clock) {
    0 <= c.hour < 24 && 0 <= c.minute < 60 && 0 <= c.second < 60
  }

  lemma ClockInRange(secs: int)
    ensures var c := ClockOf(secs); IsClock(c) && 3600 * c.hour + 60 * c.minute + c.second == secs % 86_400
  {
  }

  lemma {:induction false} ZerosEnd(k: int)
    requires k > 0
    ensures Zeros(k) == Zeros(k - 1) + "0" && |Zeros(k)| == k
  {
    if k > 1 {
      ZerosEnd(k - 1);
    }
  }

  lemma ZerosLength(k: int)
    ensures |Zeros(k)| == Max(k, 0)
  {
    if k > 0 {
      ZerosEnd(k);
    }
  }

  lemma {:induction false} ParsedZeros(k: int, digits: string)
    ensures Parsed(Zeros(k) + digits) == Parsed(digits)
    decreases |digits|, k
  {
    var t := Zeros(k) + digits;
    if digits != [] {
      assert t[..|t| - 1] == Zeros(k) + digits[..|digits| - 1];
      ParsedZeros(k, digits[..|digits| - 1]);
    } else if k > 0 {
      ZerosEnd(k);
      assert t == Zeros(k - 1) + "0";
      ParsedZeros(k - 1, []);
      assert t[..|t| - 1] == Zeros(k - 1) + [];
    }
  }

  function Pow10(k: nat): nat {
    if k == 0 then 1 else 10 * Pow10(k - 1)
  }

  lemma {:induction false} Pow10Positive(k: nat)
    ensures Pow10(k) > 0
  {
    if k > 0 {
      Pow10Positive(k - 1);
    }
  }

  lemma {:induction false} DigitsFit(n: nat, width: nat)
    requires width > 0
    ensures |Digits(n)| <= width <==> n < Pow10(width)
    decreases n
  {
    var rest := Pow10(width - 1);
    assert Pow10(width) == 10 * rest;
    if n >= 10 {
      DigitsRead(n / 10);
      assert |Digits(n)| == |Digits(n / 10)| + 1;
      if width > 1 {
        DigitsFit(n / 10, width - 1);
        assert n / 10 < rest <==> n < 10 * rest;
      } else {
        assert rest == 1;
      }
    } else if width > 1 {
      assert rest == 10 * Pow10(width - 2);
      Pow10Positive(width - 2);
    }
  }

  /** A field in front of which a sign may stand. */
  function Signed(t: string): int {
    if t != [] && t[0] == '-' then -Parsed(t[1..]) else Parsed(t)
  }

  /** A number fills its field, reads back, and stays within the field exactly when it has no more digits. */
  lemma FilledReadsBack(n: nat, width: nat)
    requires width > 0
    ensures var t := Filled(n, width);
            && Parsed(t) == n && |t| >= width && t[0] != '-'
            && (|t| == width <==> n < Pow10(width))
  {
    var zeros := width - |Digits(n)|;
    DigitsFit(n, width);
    DigitsRead(n);
    ZerosLength(zeros);
    ParsedZeros(zeros, Digits(n));
    FirstOfFilled(zeros, Digits(n));
  }

  lemma FirstOfFilled(zeros: int, digits: string)
    requires digits != [] && forall c :: c in digits ==> IsDigit(c)
    ensures (Zeros(zeros) + digits)[0] != '-'
  {
    if zeros <= 0 {
      assert digits[0] in digits;
    }
  }

  /** Any year reads back, and has four characters from -999 to 9999. */
  lemma YearReadsBack(year: int)
    ensures var t := Padded(year, 4);
            Signed(t) == year && |t| >= 4 && (|t| == 4 <==> -999 <= year <= 9999)
  {
    assert Pow10(4) == 10_000 && Pow10(3) == 1000 by {
      assert Pow10(2) == 10 * Pow10(1) && Pow10(1) == 10;
    }
    if year < 0 {
      FilledReadsBack(-year, 3);
      assert Padded(year, 4)[1..] == Filled(-year, 3);
    } else {
      FilledReadsBack(year, 4);
    }
  }

  lemma TwoDigits(n: int)
    requires 0 <= n < 100
    ensures |Padded(n, 2)| == 2 && Parsed(Padded(n, 2)) == n
  {
    assert Pow10(2) == 10 * Pow10(1) && Pow10(1) == 10;
    FilledReadsBack(n, 2);
  }

  /** Whatever the year, date and clock stand at fixed places counted from the end of the text and read back; the text
      has its usual length in the years -999 to 9999. */
  lemma WrittenReadsBack(d: Date, c: Clock)
    requires IsDate(d) && IsClock(c)
    ensures var t := Written(d, c);
            |t| >= 20
            && (|t| == 20 <==> -999 <= d.year <= 9999)
            && (var y, u := t[..|t| - 16], t[|t| - 16..];
                && u[0] == '-' && u[3] == '-' && u[6] == 'T' && u[9] == ':' && u[12] == ':' && u[15] == 'Z'
                && d == Date(Signed(y), Parsed(u[1..3]), Parsed(u[4..6]))
                && c == Clock(Parsed(u[7..9]), Parsed(u[10..12]), Parsed(u[13..15])))
  {
    YearReadsBack(d.year);
    TwoDigits(d.month);
    TwoDigits(d.day);
    TwoDigits(c.hour);
    TwoDigits(c.minute);
    TwoDigits(c.second);
    AfterYearPlaces(Padded(d.month, 2), Padded(d.day, 2), Padded(c.hour, 2), Padded(c.minute, 2),
                    Padded(c.second, 2));
    Halves(Padded(d.year, 4), AfterYear(Padded(d.month, 2), Padded(d.day, 2), Padded(c.hour, 2),
                                        Padded(c.minute, 2), Padded(c.second, 2)));
  }

  lemma Halves(y: string, u: string)
    ensures (y + u)[..|y|] == y && (y + u)[|y|..] == u
  {
  }

  lemma AfterYearPlaces(m: string, d: string, h: string, n: string, s: string)
    requires |m| == |d| == |h| == |n| == |s| == 2
    ensures var u := AfterYear(m, d, h, n, s);
            && |u| == 16
            && u[0] == '-' && u[3] == '-' && u[6] == 'T' && u[9] == ':' && u[12] == ':' && u[15] == 'Z'
            && u[1..3] == m && u[4..6] == d && u[7..9] == h && u[10..12] == n && u[13..15] == s
  {
    var u := AfterYear(m, d, h, n, s);
    assert u == ['-', m[0], m[1], '-', d[0], d[1], 'T', h[0], h[1], ':', n[0], n[1], ':', s[0], s[1], 'Z'];
    Two(u, 1, m);
    Two(u, 4, d);
    Two(u, 7, h);
    Two(u, 10, n);
    Two(u, 13, s);
  }

  lemma Two(u: string, k: nat, field: string)
    requires |field| == 2 && k + 2 <= |u| && u[k] == field[0] && u[k + 1] == field[1]
    ensures u[k..k + 2] == field
  {
  }

  /** At any time, before the year 0 and after 9999 too, a text stands for one second. */
  lemma SameTextSameSecond(ms: int, ms': int)
    ensures FmtUtc(ms) == FmtUtc(ms') <==> ms / 1000 == ms' / 1000
  {
    if FmtUtc(ms) == FmtUtc(ms') {
      SecondsReadBack(ms / 1000, ms' / 1000);
    }
  }

  lemma SecondsReadBack(secs: int, secs': int)
    requires Written(DateOf(secs / 86_400), ClockOf(secs)) == Written(DateOf(secs' / 86_400), ClockOf(secs'))
    ensures secs == secs'
  {
    FmtReadsBack(secs);
    FmtReadsBack(secs');
    DatesDiffer(secs / 86_400, secs' / 86_400);
  }

  /** The date and the second of the day that a text says. */
  function DateRead(t: string): Date
    requires |t| >= 20
  {
    Date(Signed(t[..|t| - 16]), Parsed(t[|t| - 16..][1..3]), Parsed(t[|t| - 16..][4..6]))
  }

  function SecondRead(t: string): int
    requires |t| >= 20
  {
    var u := t[|t| - 16..];
    3600 * Parsed(u[7..9]) + 60 * Parsed(u[10..12]) + Parsed(u[13..15])
  }

  lemma FmtReadsBack(secs: int)
    ensures var t := Written(DateOf(secs / 86_400), ClockOf(secs));
            && |t| >= 20 && DateRead(t) == DateOf(secs / 86_400)
            && secs == 86_400 * (secs / 86_400) + SecondRead(t)
  {
    DateFollowsCalendar(secs / 86_400);
    ClockInRange(secs);
    WrittenReadsBack(DateOf(secs / 86_400), ClockOf(secs));
  }

  lemma DatesDiffer(m: int, n: int)
    ensures DateOf(m) == DateOf(n) <==> m == n
  {
    if m < n {
      DatesAscend(m, n);
    } else if n < m {
      DatesAscend(n, m);
    }
  }
}
