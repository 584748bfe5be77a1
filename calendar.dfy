/** Calendar dates as Python's `datetime.date` sees them, the VAT-rate rule
    keyed on a `D/M/Y` date string (`get_iva`) and the day count of a year
    (`year_days`). */
module Calendar {
  import opened Outcomes
  import opened Text

  datatype Date = Date(year: int, month: int, day: int)

  /** Gregorian leap year. */
  predicate IsLeap(y: int) {
    y % 4 == 0 && (y % 100 != 0 || y % 400 == 0)
  }

  /** Thirty days have April, June, September and November; February has 29
      in a leap year and 28 otherwise; every other month has 31. */
  function DaysInMonth(y: int, m: int): (n: int)
    requires 1 <= m <= 12
    ensures 28 <= n <= 31
    ensures m == 2 ==> (n == 29 <==> IsLeap(y)) && (n == 28 <==> !IsLeap(y))
    ensures m != 2 ==> (n == 30 <==> m == 4 || m == 6 || m == 9 || m == 11)
    ensures m != 2 ==> (n == 31 <==> !(m == 4 || m == 6 || m == 9 || m == 11))
  {
    if m == 2 then (if IsLeap(y) then 29 else 28)
    else if m == 4 || m == 6 || m == 9 || m == 11 then 30
    else 31
  }

  /** What `datetime.date(y, m, d)` accepts: years 1..9999, months 1..12 and
      a day that exists in that month. */
  predicate ValidDate(d: Date) {
    && 1 <= d.year <= 9999
    && 1 <= d.month <= 12
    && 1 <= d.day <= DaysInMonth(d.year, d.month)
  }

  /** The order of `datetime.date`: by year, then month, then day. */
  predicate DateLe(a: Date, b: Date) {
    || a.year < b.year
    || (a.year == b.year && a.month < b.month)
    || (a.year == b.year && a.month == b.month && a.day <= b.day)
  }

  /** `datetime.date` takes its three fields as C ints. */
  predicate IsCInt(x: int) {
    -0x8000_0000 <= x < 0x8000_0000
  }

  /** `datetime.date(y, m, d)`: OverflowError when a field does not fit a C
      int, ValueError when the date does not exist. */
  function MakeDate(y: int, m: int, d: int): (r: Result<Date>)
    ensures r.Ok? <==> ValidDate(Date(y, m, d))
    ensures r.Ok? ==> r.value == Date(y, m, d)
    ensures r.Err? ==> (r.error == Overflow <==> !(IsCInt(y) && IsCInt(m) && IsCInt(d)))
    ensures r.Err? ==> (r.error == InvalidDate <==> IsCInt(y) && IsCInt(m) && IsCInt(d))
  {
    if !(IsCInt(y) && IsCInt(m) && IsCInt(d)) then Err(Overflow)
    else if ValidDate(Date(y, m, d)) then Ok(Date(y, m, d))
    else Err(InvalidDate)
  }

  /** `datetime.date(int(e[2]), int(e[1]), int(e[0]))` for `e = s.split('/')`:
      IndexError with fewer than three parts (extra parts are ignored),
      ValueError when a part is not an integer or the date does not exist,
      OverflowError when a part is beyond a C int. */
  function ParseDmy(s: string): (r: Result<Date>)
    ensures r.Ok? ==> ValidDate(r.value)
  {
    var e := Split(s, '/');
    if |e| < 3 then Err(MissingField)
    else
      var y :- ParseInt(e[2]);
      var m :- ParseInt(e[1]);
      var d :- ParseInt(e[0]);
      MakeDate(y, m, d)
  }

  // ---------------------------------------------------------------------
  // get_iva
  // ---------------------------------------------------------------------

  const ReducedFrom: Date := Date(2021, 6, 26)
  const ReducedUntil: Date := Date(2021, 12, 31)
  const ReducedRate: real := 0.1
  const StandardRate: real := 0.21

  /** The reduced rate applies from `ReducedFrom` to `ReducedUntil`, both
      days included. */
  predicate InReducedWindow(d: Date) {
    DateLe(ReducedFrom, d) && DateLe(d, ReducedUntil)
  }

  /** `get_iva(s)`: the VAT rate that applies on the date written `D/M/Y`. */
  function VatRate(s: string): (r: Result<real>)
    ensures r.Ok? <==> ParseDmy(s).Ok?
    ensures r.Ok? ==> (r.value == ReducedRate <==> InReducedWindow(ParseDmy(s).value))
    ensures r.Ok? ==> (r.value == StandardRate <==> !InReducedWindow(ParseDmy(s).value))
    ensures r.Err? ==> r.error == ParseDmy(s).error
  {
    var d :- ParseDmy(s);
    if DateLe(ReducedFrom, d) && DateLe(d, ReducedUntil) then Ok(ReducedRate) else Ok(StandardRate)
  }

  /** Every rate `get_iva` returns lies between the reduced and the standard rate. */
  lemma VatRateBounds(s: string)
    requires VatRate(s).Ok?
    ensures ReducedRate <= VatRate(s).value <= StandardRate
  {
  }

  /** A date written with decimal day, month and year reads back as that
      date: parts 0, 1 and 2 are day, month and year. */
  lemma ParseDmyDecimal(d: nat, m: nat, y: nat)
    requires ValidDate(Date(y, m, d))
    ensures ParseDmy(NatToString(d) + "/" + NatToString(m) + "/" + NatToString(y)) == Ok(Date(y, m, d))
  {
    var ds, ms, ys := NatToString(d), NatToString(m), NatToString(y);
    DigitsExclude(ds, '/');
    DigitsExclude(ms, '/');
    DigitsExclude(ys, '/');
    Split3(ds, ms, ys, '/');
    assert ds + "/" + ms + "/" + ys == ds + ['/'] + ms + ['/'] + ys;
    ParseIntToString(d);
    ParseIntToString(m);
    ParseIntToString(y);
  }

  /** `get_iva` on a well-formed `D/M/Y` string: 0.1 exactly inside
      2021-06-26..2021-12-31, 0.21 on every other valid date. */
  lemma VatRateOfDate(d: nat, m: nat, y: nat)
    requires ValidDate(Date(y, m, d))
    ensures VatRate(NatToString(d) + "/" + NatToString(m) + "/" + NatToString(y))
         == Ok(if InReducedWindow(Date(y, m, d)) then ReducedRate else StandardRate)
  {
    ParseDmyDecimal(d, m, y);
  }

  lemma YearText()
    ensures NatToString(2021) == "2021" && NatToString(2022) == "2022"
  {
    assert NatToString(20) == "20";
    assert NatToString(202) == "202";
  }

  /** The window's first day gets the reduced rate. */
  lemma VatRateFirstReducedDay()
    ensures VatRate("26/6/2021") == Ok(ReducedRate)
  {
    YearText();
    assert NatToString(26) == "26";
    assert "26/6/2021" == NatToString(26) + "/" + NatToString(6) + "/" + NatToString(2021);
    VatRateOfDate(26, 6, 2021);
  }

  /** The window's last day gets the reduced rate. */
  lemma VatRateLastReducedDay()
    ensures VatRate("31/12/2021") == Ok(ReducedRate)
  {
    YearText();
    assert NatToString(31) == "31" && NatToString(12) == "12";
    assert "31/12/2021" == NatToString(31) + "/" + NatToString(12) + "/" + NatToString(2021);
    VatRateOfDate(31, 12, 2021);
  }

  /** The day before the window gets the standard rate. */
  lemma VatRateDayBeforeWindow()
    ensures VatRate("25/6/2021") == Ok(StandardRate)
  {
    YearText();
    assert NatToString(25) == "25";
    assert "25/6/2021" == NatToString(25) + "/" + NatToString(6) + "/" + NatToString(2021);
    VatRateOfDate(25, 6, 2021);
  }

  /** The day after the window gets the standard rate. */
  lemma VatRateDayAfterWindow()
    ensures VatRate("1/1/2022") == Ok(StandardRate)
  {
    YearText();
    assert "1/1/2022" == NatToString(1) + "/" + NatToString(1) + "/" + NatToString(2022);
    VatRateOfDate(1, 1, 2022);
  }

  /** A year written with two digits (`26/06/21`) is read as the year 21, so
      it never gets the reduced rate. */
  lemma VatRateEarlyYear(s: string)
    requires ParseDmy(s).Ok? && ParseDmy(s).value.year < 2021
    ensures VatRate(s) == Ok(StandardRate)
  {
  }

  /** An ISO `Y-M-D` string has no `/` parts: IndexError. */
  lemma VatRateIsoText()
    ensures VatRate("2021-06-26") == Err(MissingField)
  {
    SplitNoSep("2021-06-26", '/');
  }

  /** Three runs of digits joined by `/` parse as the date with those
      values, day first; whether that date exists is `datetime.date`'s to
      decide. */
  lemma ParseDmyDigits(d: string, m: string, y: string)
    requires |d| > 0 && |m| > 0 && |y| > 0
    requires AllDigits(d) && AllDigits(m) && AllDigits(y)
    ensures ParseDmy(d + "/" + m + "/" + y) == MakeDate(DigitsValue(y), DigitsValue(m), DigitsValue(d))
  {
    DigitsExclude(d, '/');
    DigitsExclude(m, '/');
    DigitsExclude(y, '/');
    Split3(d, m, y, '/');
    assert d + "/" + m + "/" + y == d + ['/'] + m + ['/'] + y;
    ParseIntDigits(d);
    ParseIntDigits(m);
    ParseIntDigits(y);
  }

  /** Month 13 does not exist: ValueError from `datetime.date`. */
  lemma VatRateBadMonth()
    ensures VatRate("31/13/21") == Err(InvalidDate)
  {
    assert "31/13/21" == "31" + "/" + "13" + "/" + "21";
    ParseDmyDigits("31", "13", "21");
    assert DigitsValue("13") == 13;
  }

  lemma ThreeBillion()
    ensures DigitsValue("3000000000") == 3000000000
  {
    var digits := "3000000000";
    assert DigitsValue(digits[..1]) == 3;
    assert digits[..2][..1] == digits[..1];
    assert DigitsValue(digits[..2]) == 30;
    assert digits[..3][..2] == digits[..2];
    assert DigitsValue(digits[..3]) == 300;
    assert digits[..4][..3] == digits[..3];
    assert DigitsValue(digits[..4]) == 3000;
    assert digits[..5][..4] == digits[..4];
    assert DigitsValue(digits[..5]) == 30000;
    assert digits[..6][..5] == digits[..5];
    assert DigitsValue(digits[..6]) == 300000;
    assert digits[..7][..6] == digits[..6];
    assert DigitsValue(digits[..7]) == 3000000;
    assert digits[..8][..7] == digits[..7];
    assert DigitsValue(digits[..8]) == 30000000;
    assert digits[..9][..8] == digits[..8];
    assert DigitsValue(digits[..9]) == 300000000;
    assert digits[..9] == digits[..|digits| - 1];
  }

  /** A year too large for a C int: OverflowError from `datetime.date`. */
  lemma VatRateHugeYear()
    ensures VatRate("1/1/3000000000") == Err(Overflow)
  {
    assert "1/1/3000000000" == "1" + "/" + "1" + "/" + "3000000000";
    ParseDmyDigits("1", "1", "3000000000");
    ThreeBillion();
    assert MakeDate(3000000000, 1, 1) == Err(Overflow);
  }

  /** A part that is not a number: ValueError from `int()`. */
  lemma VatRateBadNumber()
    ensures VatRate("x/6/2021") == Err(NotANumber)
  {
    Split3("x", "6", "2021", '/');
    assert "x/6/2021" == "x" + ['/'] + "6" + ['/'] + "2021";
    ParseIntDigits("6");
    ParseIntDigits("2021");
  }

  // ---------------------------------------------------------------------
  // year_days
  // ---------------------------------------------------------------------

  /** Days in the months before month `m` of year `y`. */
  function DaysBefore(y: int, m: int): int
    requires 1 <= m <= 13
  {
    if m == 1 then 0 else DaysBefore(y, m - 1) + DaysInMonth(y, m - 1)
  }

  /** `d.timetuple().tm_yday`: the day's position in its year, from 1. */
  function DayOfYear(d: Date): int
    requires ValidDate(d)
  {
    DaysBefore(d.year, d.month) + d.day
  }

  /** The months before December hold 334 days, one more in a leap year. */
  lemma DaysBeforeDecember(y: int)
    ensures DaysBefore(y, 12) == if IsLeap(y) then 335 else 334
  {
    var feb := if IsLeap(y) then 29 else 28;
    assert DaysBefore(y, 2) == 31;
    assert DaysBefore(y, 3) == 31 + feb;
    assert DaysBefore(y, 4) == 62 + feb;
    assert DaysBefore(y, 5) == 92 + feb;
    assert DaysBefore(y, 6) == 123 + feb;
    assert DaysBefore(y, 7) == 153 + feb;
    assert DaysBefore(y, 8) == 184 + feb;
    assert DaysBefore(y, 9) == 215 + feb;
    assert DaysBefore(y, 10) == 245 + feb;
    assert DaysBefore(y, 11) == 276 + feb;
  }

  /** `year_days(y)`: the position of 31 December, i.e. 366 in a leap year and
      365 otherwise; `datetime.date` raises ValueError for a year outside
      1..9999 and OverflowError for one beyond a C int. */
  function YearDays(y: int): (r: Result<int>)
    ensures 1 <= y <= 9999 ==> r == Ok(if IsLeap(y) then 366 else 365)
    ensures !(1 <= y <= 9999) ==> r == Err(if IsCInt(y) then InvalidDate else Overflow)
  {
    var d :- MakeDate(y, 12, 31);
    DaysBeforeDecember(y);
    Ok(DayOfYear(d))
  }
}
