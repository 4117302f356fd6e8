/**
  The calendar-to-table part of `generate_timesheet` (generate_timesheet.py,
  lines 159-247): the language pack, the default file name, the rows of the
  main table (two information rows, the header, one row per Monday-to-Friday
  date from `start_day` to the month's last day, the TOTAL row) and the row
  heights. The PDF layout calls around it are not modelled.
 */
module Timesheet {
  import opened Wrappers
  import opened Calendar
  import opened Text
  import opened Translations

  /** A row of the main table: six cells. */
  type Row = seq<string>

  /** The exceptions `generate_timesheet` raises before any row reaches the PDF. */
  datatype Error =
    | MonthIndexError    // IndexError: `t["months"][month]` with month outside -13..12
    | NameIndexError     // IndexError: `employee_name.split()[0]` on a name with no word
    | DateValueError     // ValueError: `datetime(...)` with a year, month or day out of range
    | DateOverflowError  // OverflowError: a `datetime(...)` argument that does not fit a C int,
                         // or `next_month - timedelta(days=1)` before 0001-01-01
    | DigitLimitError    // ValueError: the f-string `{year}` on a year of more than 4300 digits

  /** A successful call: the file name it returns, the rows of the main table
      and the height of each row in cm. */
  datatype Timesheet = Timesheet(filename: string, data: seq<Row>, rowHeights: seq<real>)

  /** Row heights in cm: the two information rows and the header, then every other row. */
  const InfoRowHeight: real := 0.7
  const BodyRowHeight: real := 0.65

  /** Python's `s[i]`: a negative index counts from the end; anything else out of range raises. */
  function PyIndex<T>(s: seq<T>, i: int): (r: Option<T>)
    ensures r.Some? <==> -|s| <= i < |s|
    ensures 0 <= i < |s| ==> r == Some(s[i])
    ensures -|s| <= i < 0 ==> r == Some(s[|s| + i])
  {
    if 0 <= i < |s| then Some(s[i]) else if -|s| <= i < 0 then Some(s[|s| + i]) else None
  }

  /** The range of a C `int`, to which `datetime` converts each of its arguments. */
  const IntMin: int := -0x8000_0000
  const IntMax: int := 0x7fff_ffff

  predicate FitsCInt(n: int) {
    IntMin <= n <= IntMax
  }

  /** No C int has too many digits for `str`. */
  lemma CIntHasFewDigits(n: int)
    ensures FitsCInt(n) ==> !TooManyDigits(n)
  {
    Pow10Monotone(10, MaxStrDigits);
    assert Pow10(10) == 10000000000;
  }

  /** The f-string `{year}`: `str(year)`, which raises ValueError for a year
      of more than `MaxStrDigits` digits. */
  function YearText(year: int): (r: Result<string, Error>)
    ensures r.Failure? <==> |NatToDecimal(if year < 0 then -year else year)| > MaxStrDigits
    ensures r.Failure? ==> r.error == DigitLimitError
    ensures r.Success? ==> r.value == IntToDecimal(year)
  {
    TooManyDigitsLength(year);
    if TooManyDigits(year) then Failure(DigitLimitError) else Success(IntToDecimal(year))
  }

  /** `datetime(year, month, day)`: an argument too wide for a C int raises
      OverflowError while the arguments are converted; a date outside the
      calendar raises ValueError. */
  function MakeDate(year: int, month: int, day: int): (r: Result<Date, Error>)
    ensures r.Success? <==> ValidDate(Date(year, month, day))
    ensures r.Success? ==> r.value == Date(year, month, day)
    ensures r.Failure? ==> (r.error == DateOverflowError <==> !(FitsCInt(year) && FitsCInt(month) && FitsCInt(day)))
    ensures r.Failure? ==> r.error == DateValueError || r.error == DateOverflowError
  {
    if !(FitsCInt(year) && FitsCInt(month) && FitsCInt(day)) then Failure(DateOverflowError)
    else if ValidDate(Date(year, month, day)) then Success(Date(year, month, day))
    else Failure(DateValueError)
  }

  /** `last_day`: the day of the date one day before the first of the next
      month, December's next month being January of `year + 1`. */
  function LastDay(year: int, month: int): (r: Result<int, Error>)
    ensures r.Success? <==>
              || (1 <= month <= 11 && MinYear <= year <= MaxYear)
              || (month == 12 && MinYear <= year < MaxYear)
              || (month == 0 && MinYear < year <= MaxYear)
    ensures r.Success? && 1 <= month <= 12 ==> r.value == DaysInMonth(year, month)
    ensures month == 12 && year == MinYear - 1 ==> r == Failure(DateOverflowError)
    ensures month == 0 && year == MinYear ==> r == Failure(DateOverflowError)
    ensures month == 12 && year == IntMax ==> r == Failure(DateOverflowError)
  {
    var next :- if month == 12 then MakeDate(year + 1, 1, 1) else MakeDate(year, month + 1, 1);
    if next == Date(MinYear, 1, 1) then
      Failure(DateOverflowError)
    else if 1 <= month <= 12 then
      DayBeforeNextMonth(year, month);
      Success(PrevDay(next).day)
    else
      Success(PrevDay(next).day)
  }

  /** `date.strftime('%d/%m/%Y')`: two-digit day, two-digit month, four-digit year. */
  function FormatDate(d: Date): (s: string)
    requires ValidDate(d)
    ensures |s| == 10 && s[2] == '/' && s[5] == '/'
    ensures AllDigits(s[0..2]) && AllDigits(s[3..5]) && AllDigits(s[6..10])
  {
    assert Pow10(2) == 100 && Pow10(4) == 10000;
    ZeroPadded(d.day, 2) + "/" + ZeroPadded(d.month, 2) + "/" + ZeroPadded(d.year, 4)
  }

  /** Reads a `DD/MM/YYYY` cell back into a date. */
  function ParseDate(s: string): Option<Date> {
    if |s| == 10 && s[2] == '/' && s[5] == '/'
       && AllDigits(s[0..2]) && AllDigits(s[3..5]) && AllDigits(s[6..10])
    then
      Some(Date(DecimalValue(s[6..10]), DecimalValue(s[3..5]), DecimalValue(s[0..2])))
    else
      None
  }

  /** The date cell is a faithful record of the date, whatever the language. */
  lemma FormatDateRoundTrip(d: Date)
    requires ValidDate(d)
    ensures ParseDate(FormatDate(d)) == Some(d)
  {
    assert Pow10(2) == 100 && Pow10(4) == 10000;
    var s := FormatDate(d);
    assert s[0..2] == ZeroPadded(d.day, 2);
    assert s[3..5] == ZeroPadded(d.month, 2);
    assert s[6..10] == ZeroPadded(d.year, 4);
    ZeroPaddedValue(d.day, 2);
    ZeroPaddedValue(d.month, 2);
    ZeroPaddedValue(d.year, 4);
  }

  /** `f"timesheet_{first_name}_{month_name}_{year}.pdf"` with both names lower-cased. */
  function FilenameOf(firstWord: string, monthName: string, year: int): string {
    "timesheet_" + Lower(firstWord) + FilenameTail(Lower(monthName), IntToDecimal(year))
  }

  function FilenameTail(monthPart: string, yearPart: string): (s: string)
    ensures |s| == |monthPart| + |yearPart| + 6 && s[0] == '_' && s[|s| - 4..] == ".pdf"
  {
    var s := "_" + monthPart + "_" + yearPart + ".pdf";
    assert s[|s| - 4..] == ".pdf";
    s
  }

  /** The default `output_filename`: built from the first word of the name,
      the month name and the year. The month lookup comes first, then the
      first word, then `str(year)`: a bad month wins over a bad name, and a bad
      name over a year too long to print. */
  function DefaultFilename(t: LanguagePack, employeeName: string, month: int, year: int): (r: Result<string, Error>)
    ensures r.Success? <==> -|t.months| <= month < |t.months| && !AllSpace(employeeName) && !TooManyDigits(year)
    ensures r.Failure? ==> (r.error == MonthIndexError <==> !(-|t.months| <= month < |t.months|))
    ensures r.Failure? && -|t.months| <= month < |t.months| ==> (r.error == NameIndexError <==> AllSpace(employeeName))
    ensures r.Failure? ==> r.error == MonthIndexError || r.error == NameIndexError || r.error == DigitLimitError
    ensures r.Success? ==> r.value == FilenameOf(FirstWord(employeeName).value, PyIndex(t.months, month).value, year)
  {
    var monthName :- PyIndex(t.months, month).ToResult(MonthIndexError);
    var firstWord :- FirstWord(employeeName).ToResult(NameIndexError);
    var yearText :- YearText(year);
    Success(FilenameOf(firstWord, monthName, year))
  }

  /** The file name starts with `timesheet_`, then the word lower-cased (one run
      of non-blank characters with no capital letter when the word is one),
      then the separator, and ends in `.pdf`. */
  lemma FilenameOfShape(firstWord: string, monthName: string, year: int)
    ensures var f := FilenameOf(firstWord, monthName, year);
            && |f| >= 10 + |firstWord| + 5
            && f[..10] == "timesheet_"
            && f[10..10 + |firstWord|] == Lower(firstWord)
            && f[10 + |firstWord|] == '_'
            && f[|f| - 4..] == ".pdf"
            && (NoSpace(firstWord) ==> NoSpace(f[10..10 + |firstWord|]))
            && (forall i :: 10 <= i < 10 + |firstWord| ==> !IsUpper(f[i]))
  {
    var f := FilenameOf(firstWord, monthName, year);
    var lw := Lower(firstWord);
    var tail := FilenameTail(Lower(monthName), IntToDecimal(year));
    assert f[|f| - 4..] == tail[|tail| - 4..];
    assert forall i :: 10 <= i < 10 + |firstWord| ==> f[i] == lw[i - 10];
    LowerIdempotent(firstWord);
  }

  /** For the default file name the word is the first word of the employee's name. */
  lemma DefaultFilenameNamePart(t: LanguagePack, employeeName: string, month: int, year: int)
    requires DefaultFilename(t, employeeName, month, year).Success?
    ensures var f := DefaultFilename(t, employeeName, month, year).value;
            var w := FirstWord(employeeName).value;
            && w != [] && NoSpace(w)
            && f[..10] == "timesheet_"
            && f[10..10 + |w|] == Lower(w)
            && f[10 + |w|] == '_'
            && NoSpace(f[10..10 + |w|])
            && f[|f| - 4..] == ".pdf"
  {
    FilenameOfShape(FirstWord(employeeName).value, PyIndex(t.months, month).value, year);
  }

  function InfoRow(caption: string, value: string): Row {
    [caption, value, "", "", "", ""]
  }

  function HeaderRow(t: LanguagePack): Row {
    [t.date, t.day, t.entryTime, t.exitTime, t.totalHours, t.balance]
  }

  function TotalRow(t: LanguagePack): Row {
    [t.total, "", "", "", "", ""]
  }

  /** The row of one kept date: the date, its weekday's name, four empty cells. */
  function DateRow(t: LanguagePack, d: Date): Row
    requires WellFormed(t) && ValidDate(d) && IsBusinessDay(d)
  {
    [FormatDate(d), t.weekdays[Weekday(d)], "", "", "", ""]
  }

  /** A month that `datetime` can represent. */
  predicate ValidMonth(year: int, month: int) {
    MinYear <= year <= MaxYear && 1 <= month <= 12
  }

  /** The days `first`..`last` of the month that fall on Monday to Friday, in the order the loop visits them. */
  function BusinessDays(year: int, month: int, first: int, last: int): (r: seq<int>)
    requires ValidMonth(year, month) && 1 <= first && last <= DaysInMonth(year, month)
    ensures forall i :: 0 <= i < |r| ==> first <= r[i] <= last && IsBusinessDay(Date(year, month, r[i]))
    decreases last - first
  {
    if last < first then
      []
    else
      BusinessDays(year, month, first, last - 1) + (if IsBusinessDay(Date(year, month, last)) then [last] else [])
  }

  /** The kept days come in strictly increasing order, as the walk visits them. */
  lemma {:induction false} BusinessDaysIncreasing(year: int, month: int, first: int, last: int)
    requires ValidMonth(year, month) && 1 <= first && last <= DaysInMonth(year, month)
    ensures forall i, j :: 0 <= i < j < |BusinessDays(year, month, first, last)| ==>
              BusinessDays(year, month, first, last)[i] < BusinessDays(year, month, first, last)[j]
    decreases last - first
  {
    if first <= last {
      BusinessDaysIncreasing(year, month, first, last - 1);
      var p := BusinessDays(year, month, first, last - 1);
      var r := BusinessDays(year, month, first, last);
      assert forall i :: 0 <= i < |p| ==> r[i] == p[i] && p[i] < last;
    }
  }

  /** The Monday-to-Friday days `first`..`last` of the month, as a set. */
  function BusinessDaySet(year: int, month: int, first: int, last: int): set<int>
    requires ValidMonth(year, month) && 1 <= first && last <= DaysInMonth(year, month)
  {
    set d | first <= d <= last && IsBusinessDay(Date(year, month, d))
  }

  /** Extending the range by one day adds that day to the set exactly when it is a Monday-to-Friday day. */
  lemma BusinessDaySetStep(year: int, month: int, first: int, last: int)
    requires ValidMonth(year, month) && 1 <= first <= last <= DaysInMonth(year, month)
    ensures last !in BusinessDaySet(year, month, first, last - 1)
    ensures BusinessDaySet(year, month, first, last)
            == BusinessDaySet(year, month, first, last - 1)
               + (if IsBusinessDay(Date(year, month, last)) then {last} else {})
  {
  }

  /** Exactly the Monday-to-Friday days of the range are kept. */
  lemma {:induction false} BusinessDaysMembership(year: int, month: int, first: int, last: int)
    requires ValidMonth(year, month) && 1 <= first && last <= DaysInMonth(year, month)
    ensures forall d :: d in BusinessDays(year, month, first, last) <==> d in BusinessDaySet(year, month, first, last)
    decreases last - first
  {
    if first <= last {
      BusinessDaysMembership(year, month, first, last - 1);
      BusinessDaySetStep(year, month, first, last);
    }
  }

  /** The set of a range that ends before it starts is empty. */
  lemma BusinessDaySetEmpty(year: int, month: int, first: int, last: int)
    requires ValidMonth(year, month) && 1 <= first && last < first && last <= DaysInMonth(year, month)
    ensures BusinessDaySet(year, month, first, last) == {}
  {
  }

  /** Extending the range by one day adds one to the size of the set exactly when that day is a Monday-to-Friday day. */
  lemma BusinessDaySetSizeStep(year: int, month: int, first: int, last: int)
    requires ValidMonth(year, month) && 1 <= first <= last <= DaysInMonth(year, month)
    ensures |BusinessDaySet(year, month, first, last)|
            == |BusinessDaySet(year, month, first, last - 1)| + (if IsBusinessDay(Date(year, month, last)) then 1 else 0)
  {
    BusinessDaySetStep(year, month, first, last);
  }

  /** Each kept day is kept once: there are as many date rows as Monday-to-Friday days. */
  lemma {:induction false} BusinessDaysCount(year: int, month: int, first: int, last: int)
    requires ValidMonth(year, month) && 1 <= first && last <= DaysInMonth(year, month)
    ensures |BusinessDays(year, month, first, last)| == |BusinessDaySet(year, month, first, last)|
    decreases last - first
  {
    if last < first {
      BusinessDaySetEmpty(year, month, first, last);
    } else {
      BusinessDaysCount(year, month, first, last - 1);
      BusinessDaySetSizeStep(year, month, first, last);
    }
  }

  predicate AllBusinessDays(year: int, month: int, days: seq<int>)
    requires ValidMonth(year, month)
  {
    forall i :: 0 <= i < |days| ==>
      1 <= days[i] <= DaysInMonth(year, month) && IsBusinessDay(Date(year, month, days[i]))
  }

  /** One date row per kept day, in the same order. */
  function DateRows(t: LanguagePack, year: int, month: int, days: seq<int>): (rows: seq<Row>)
    requires WellFormed(t) && ValidMonth(year, month) && AllBusinessDays(year, month, days)
  {
    seq(|days|, i requires 0 <= i < |days| => DateRow(t, Date(year, month, days[i])))
  }

  lemma DateRowsAppend(t: LanguagePack, year: int, month: int, days: seq<int>, day: int)
    requires WellFormed(t) && ValidMonth(year, month) && AllBusinessDays(year, month, days)
    requires 1 <= day <= DaysInMonth(year, month) && IsBusinessDay(Date(year, month, day))
    ensures AllBusinessDays(year, month, days + [day])
    ensures DateRows(t, year, month, days + [day]) == DateRows(t, year, month, days) + [DateRow(t, Date(year, month, day))]
  {
    assert forall i :: 0 <= i < |days| ==> (days + [day])[i] == days[i];
  }

  /** The date rows of a month from `startDay` on. */
  function MonthRows(t: LanguagePack, year: int, month: int, startDay: int): seq<Row>
    requires WellFormed(t) && ValidDate(Date(year, month, startDay))
  {
    DateRows(t, year, month, BusinessDays(year, month, startDay, DaysInMonth(year, month)))
  }

  /** The `data` list of the main table for a valid period. */
  function Table(t: LanguagePack, employeeName: string, year: int, month: int, startDay: int): (rows: seq<Row>)
    requires WellFormed(t) && ValidDate(Date(year, month, startDay))
    ensures |rows| == |MonthRows(t, year, month, startDay)| + 4
    ensures rows[0] == InfoRow(t.name, employeeName) && rows[|rows| - 1] == TotalRow(t)
  {
    var head := [InfoRow(t.name, employeeName),
                 InfoRow(t.monthYear, t.months[month] + "/" + IntToDecimal(year)),
                 HeaderRow(t)];
    var rows := head + MonthRows(t, year, month, startDay) + [TotalRow(t)];
    assert rows[0] == head[0] && rows[|rows| - 1] == TotalRow(t);
    rows
  }

  /** `row_heights` for a table of `rowCount` rows. */
  function RowHeightsFor(rowCount: int): seq<real> {
    seq(if rowCount < 3 then 3 else rowCount, i => if i < 3 then InfoRowHeight else BodyRowHeight)
  }

  /** The rows of the main table, or the exception raised while looking up
      the month name, printing the year, or computing the last day of the
      month or the start date. */
  function TableSpec(t: LanguagePack, employeeName: string, month: int, year: int, startDay: int): (r: Result<seq<Row>, Error>)
    requires WellFormed(t)
    ensures r.Success? <==> ValidDate(Date(year, month, startDay)) && !(month == 12 && year == MaxYear)
    ensures !(-13 <= month <= 12) ==> r == Failure(MonthIndexError)
    ensures -13 <= month <= 12 && TooManyDigits(year) ==> r == Failure(DigitLimitError)
    ensures -13 <= month <= 12 && r.Failure? ==> r.error == DateValueError || r.error == DateOverflowError || r.error == DigitLimitError
    ensures r.Success? ==> r.value == Table(t, employeeName, year, month, startDay)
  {
    var monthName :- PyIndex(t.months, month).ToResult(MonthIndexError);
    var yearText :- YearText(year);
    CIntHasFewDigits(year);
    var lastDay :- LastDay(year, month);
    var start :- MakeDate(year, month, startDay);
    Success(Table(t, employeeName, year, month, startDay))
  }

  /** A successful call has one height per row of the table: 0.7 cm for the
      first three rows, 0.65 cm for every other. */
  lemma TimesheetRowHeights(employeeName: string, month: int, year: int, startDay: int,
                            language: string, outputFilename: Option<string>)
    requires TimesheetSpec(employeeName, month, year, startDay, language, outputFilename).Success?
    ensures var r := TimesheetSpec(employeeName, month, year, startDay, language, outputFilename).value;
            && |r.rowHeights| == |r.data| >= 4
            && (forall i :: 0 <= i < 3 ==> r.rowHeights[i] == InfoRowHeight)
            && (forall i :: 3 <= i < |r.data| ==> r.rowHeights[i] == BodyRowHeight)
  {
    TimesheetSucceedsIff(employeeName, month, year, startDay, language, outputFilename);
    TimesheetSpecAccepted(employeeName, month, year, startDay, language, outputFilename);
    TableLayout(SelectPack(language), employeeName, year, month, startDay);
  }

  /** For a representable start date (and a month other than December 9999)
      the lookups all succeed and the result is the table. */
  lemma TableSpecAccepted(t: LanguagePack, employeeName: string, month: int, year: int, startDay: int)
    requires WellFormed(t) && ValidDate(Date(year, month, startDay)) && !(month == 12 && year == MaxYear)
    ensures TableSpec(t, employeeName, month, year, startDay) == Success(Table(t, employeeName, year, month, startDay))
  {
    CIntHasFewDigits(year);
  }

  /** Everything `generate_timesheet` computes before handing the table to the
      layout library, or the exception it raises first. */
  function TimesheetSpec(employeeName: string, month: int, year: int, startDay: int := 1,
                         language: string := "es", outputFilename: Option<string> := None): (r: Result<Timesheet, Error>)
    ensures r.Success? ==> |r.value.rowHeights| == |r.value.data| >= 4
    ensures r.Success? && outputFilename.Some? ==> r.value.filename == outputFilename.value
  {
    var t := SelectPack(language);
    var filename :- if outputFilename.Some? then Success(outputFilename.value)
                    else DefaultFilename(t, employeeName, month, year);
    var data :- TableSpec(t, employeeName, month, year, startDay);
    Success(Timesheet(filename, data, RowHeightsFor(|data|)))
  }

  /** The inputs for which no exception is raised. */
  predicate Accepted(employeeName: string, month: int, year: int, startDay: int, outputFilename: Option<string>) {
    && ValidDate(Date(year, month, startDay))
    && !(month == 12 && year == MaxYear)
    && (outputFilename.Some? || !AllSpace(employeeName))
  }

  /** A call succeeds exactly for a representable month, a start day inside it,
      a December before 9999, and a file name or a name with a word in it; a
      month the month list cannot index fails with IndexError before anything else. */
  lemma TimesheetSucceedsIff(employeeName: string, month: int, year: int, startDay: int,
                             language: string, outputFilename: Option<string>)
    ensures var r := TimesheetSpec(employeeName, month, year, startDay, language, outputFilename);
            && (r.Success? <==> Accepted(employeeName, month, year, startDay, outputFilename))
            && (!(-13 <= month <= 12) ==> r == Failure(MonthIndexError))
            && (-13 <= month <= 12 && outputFilename.None? && AllSpace(employeeName) ==> r == Failure(NameIndexError))
            && (-13 <= month <= 12 && (outputFilename.Some? || !AllSpace(employeeName)) && TooManyDigits(year)
                ==> r == Failure(DigitLimitError))
  {
    CIntHasFewDigits(year);
  }

  /** For accepted inputs the call returns the table, its row heights and the
      given or default file name. */
  lemma TimesheetSpecAccepted(employeeName: string, month: int, year: int, startDay: int,
                              language: string, outputFilename: Option<string>)
    requires Accepted(employeeName, month, year, startDay, outputFilename)
    ensures var t := SelectPack(language);
            var data := Table(t, employeeName, year, month, startDay);
            && (outputFilename.None? ==> DefaultFilename(t, employeeName, month, year).Success?)
            && TimesheetSpec(employeeName, month, year, startDay, language, outputFilename)
               == Success(Timesheet(
                    if outputFilename.Some? then outputFilename.value
                    else DefaultFilename(t, employeeName, month, year).value,
                    data, RowHeightsFor(|data|)))
  {
    CIntHasFewDigits(year);
  }

  /** The shape of the table: two information rows, the header, the date rows
      of the month, the TOTAL row. */
  lemma TableLayout(t: LanguagePack, employeeName: string, year: int, month: int, startDay: int)
    requires WellFormed(t) && ValidDate(Date(year, month, startDay))
    ensures var data := Table(t, employeeName, year, month, startDay);
            && |data| == |MonthRows(t, year, month, startDay)| + 4
            && data[0] == [t.name, employeeName, "", "", "", ""]
            && data[1] == [t.monthYear, t.months[month] + "/" + IntToDecimal(year), "", "", "", ""]
            && data[2] == [t.date, t.day, t.entryTime, t.exitTime, t.totalHours, t.balance]
            && data[|data| - 1] == [t.total, "", "", "", "", ""]
            && data[3..|data| - 1] == MonthRows(t, year, month, startDay)
  {
    var data := Table(t, employeeName, year, month, startDay);
    assert data[3..|data| - 1] == MonthRows(t, year, month, startDay);
  }

  /** Every date row has six cells, the last four of them empty. */
  lemma MonthRowsCells(t: LanguagePack, year: int, month: int, startDay: int)
    requires WellFormed(t) && ValidDate(Date(year, month, startDay))
    ensures forall i :: 0 <= i < |MonthRows(t, year, month, startDay)| ==>
              && |MonthRows(t, year, month, startDay)[i]| == 6
              && forall c :: 2 <= c < 6 ==> MonthRows(t, year, month, startDay)[i][c] == ""
  {
  }

  /** Every row of the table has six cells, and the last four cells of every
      date row and of the TOTAL row are empty. */
  lemma TableCells(t: LanguagePack, employeeName: string, year: int, month: int, startDay: int)
    requires WellFormed(t) && ValidDate(Date(year, month, startDay))
    ensures forall i :: 0 <= i < |Table(t, employeeName, year, month, startDay)| ==>
              |Table(t, employeeName, year, month, startDay)[i]| == 6
    ensures forall i, c :: 3 <= i < |Table(t, employeeName, year, month, startDay)| && 2 <= c < 6 ==>
              Table(t, employeeName, year, month, startDay)[i][c] == ""
  {
    TableLayout(t, employeeName, year, month, startDay);
    MonthRowsCells(t, year, month, startDay);
    var data := Table(t, employeeName, year, month, startDay);
    var rows := MonthRows(t, year, month, startDay);
    assert forall i :: 3 <= i < |data| - 1 ==> data[i] == rows[i - 3];
  }

  /** The date cell of the row for the `i`-th kept day reads back as that day,
      and its weekday cell is that day's weekday name. */
  lemma DateRowsReadBack(t: LanguagePack, year: int, month: int, days: seq<int>)
    requires WellFormed(t) && ValidMonth(year, month) && AllBusinessDays(year, month, days)
    ensures var rows := DateRows(t, year, month, days);
            forall i :: 0 <= i < |days| ==>
              && ParseDate(rows[i][0]) == Some(Date(year, month, days[i]))
              && rows[i][1] == t.weekdays[Weekday(Date(year, month, days[i]))]
  {
    var rows := DateRows(t, year, month, days);
    forall i | 0 <= i < |days|
      ensures ParseDate(rows[i][0]) == Some(Date(year, month, days[i]))
    {
      var d := Date(year, month, days[i]);
      assert rows[i][0] == FormatDate(d);
      FormatDateRoundTrip(d);
    }
  }

  /** Read back through its date cell, every date row names a Monday-to-Friday
      date of the requested month between the start day and the last day,
      under that date's weekday name. */
  lemma MonthRowsInMonth(t: LanguagePack, year: int, month: int, startDay: int)
    requires WellFormed(t) && ValidDate(Date(year, month, startDay))
    ensures var rows := MonthRows(t, year, month, startDay);
            forall i :: 0 <= i < |rows| ==>
              && ParseDate(rows[i][0]).Some?
              && var d := ParseDate(rows[i][0]).value;
                 && ValidDate(d) && d.year == year && d.month == month
                 && startDay <= d.day <= DaysInMonth(year, month)
                 && IsBusinessDay(d) && rows[i][1] == t.weekdays[Weekday(d)]
  {
    var rows := MonthRows(t, year, month, startDay);
    var days := BusinessDays(year, month, startDay, DaysInMonth(year, month));
    DateRowsReadBack(t, year, month, days);
    forall i | 0 <= i < |rows|
      ensures ParseDate(rows[i][0]) == Some(Date(year, month, days[i]))
      ensures startDay <= days[i] <= DaysInMonth(year, month) && IsBusinessDay(Date(year, month, days[i]))
      ensures rows[i][1] == t.weekdays[Weekday(Date(year, month, days[i]))]
    {
    }
  }

  /** The date rows are in strictly increasing date order. */
  lemma MonthRowsOrdered(t: LanguagePack, year: int, month: int, startDay: int)
    requires WellFormed(t) && ValidDate(Date(year, month, startDay))
    ensures var rows := MonthRows(t, year, month, startDay);
            forall i, j :: 0 <= i < j < |rows| ==>
              ParseDate(rows[i][0]).Some? && ParseDate(rows[j][0]).Some? &&
              ParseDate(rows[i][0]).value.day < ParseDate(rows[j][0]).value.day
  {
    var rows := MonthRows(t, year, month, startDay);
    var days := BusinessDays(year, month, startDay, DaysInMonth(year, month));
    DateRowsReadBack(t, year, month, days);
    BusinessDaysIncreasing(year, month, startDay, DaysInMonth(year, month));
    forall i, j | 0 <= i < j < |rows|
      ensures ParseDate(rows[i][0]).Some? && ParseDate(rows[j][0]).Some?
      ensures ParseDate(rows[i][0]).value.day < ParseDate(rows[j][0]).value.day
    {
      assert ParseDate(rows[i][0]) == Some(Date(year, month, days[i]));
      assert ParseDate(rows[j][0]) == Some(Date(year, month, days[j]));
      assert days[i] < days[j];
    }
  }

  /** The date rows differ between languages only in the weekday names: the
      same number of rows and the same `DD/MM/YYYY` date cells. */
  lemma MonthRowsDateCellsLanguageFree(t1: LanguagePack, t2: LanguagePack, year: int, month: int, startDay: int)
    requires WellFormed(t1) && WellFormed(t2) && ValidDate(Date(year, month, startDay))
    ensures |MonthRows(t1, year, month, startDay)| == |MonthRows(t2, year, month, startDay)|
    ensures forall i :: 0 <= i < |MonthRows(t1, year, month, startDay)| ==>
              MonthRows(t1, year, month, startDay)[i][0] == MonthRows(t2, year, month, startDay)[i][0]
  {
  }

  /** Every Monday-to-Friday date from the start day to the end of the month has
      a row, and there are exactly as many date rows as such dates. */
  lemma MonthRowsComplete(t: LanguagePack, year: int, month: int, startDay: int)
    requires WellFormed(t) && ValidDate(Date(year, month, startDay))
    ensures var rows := MonthRows(t, year, month, startDay);
            var last := DaysInMonth(year, month);
            && (forall day :: startDay <= day <= last && IsBusinessDay(Date(year, month, day)) ==>
                  exists i :: 0 <= i < |rows| && rows[i][0] == FormatDate(Date(year, month, day)))
            && |rows| == |BusinessDaySet(year, month, startDay, last)|
  {
    var rows := MonthRows(t, year, month, startDay);
    var last := DaysInMonth(year, month);
    var days := BusinessDays(year, month, startDay, last);
    BusinessDaysMembership(year, month, startDay, last);
    BusinessDaysCount(year, month, startDay, last);
    forall day | startDay <= day <= last && IsBusinessDay(Date(year, month, day))
      ensures exists i :: 0 <= i < |rows| && rows[i][0] == FormatDate(Date(year, month, day))
    {
      assert day in BusinessDaySet(year, month, startDay, last);
      var k :| 0 <= k < |days| && days[k] == day;
      assert rows[k][0] == FormatDate(Date(year, month, day));
    }
  }

  /** `for i in range(3, len(data))` after three 0.7 cm entries. */
  method RowHeights(rowCount: int) returns (heights: seq<real>)
    ensures |heights| == if rowCount < 3 then 3 else rowCount
    ensures forall i :: 0 <= i < |heights| ==> heights[i] == if i < 3 then InfoRowHeight else BodyRowHeight
  {
    heights := [];
    heights := heights + [InfoRowHeight];  // name row
    heights := heights + [InfoRowHeight];  // month/year row
    heights := heights + [InfoRowHeight];  // header row
    var stop := if rowCount < 3 then 3 else rowCount;  // range(3, n) is empty for n <= 3
    for i := 3 to stop
      invariant |heights| == i
      invariant forall k :: 0 <= k < i ==> heights[k] == if k < 3 then InfoRowHeight else BodyRowHeight
    {
      heights := heights + [BodyRowHeight];
    }
  }

  /** Within one month, day numbers differ as the days do. */
  lemma OrdinalWithinMonth(year: int, month: int, a: int, b: int)
    requires ValidDate(Date(year, month, a)) && ValidDate(Date(year, month, b))
    ensures Ordinal(Date(year, month, a)) - Ordinal(Date(year, month, b)) == a - b
  {
  }

  /** One step of the day-by-day walk: the day after day `day` of the month is
      day `day + 1` while the month lasts, and its day number is one higher in
      any case. */
  lemma WalkStep(year: int, month: int, day: int)
    requires ValidDate(Date(year, month, day)) && !(month == 12 && year == MaxYear)
    ensures ValidDate(NextDay(Date(year, month, day)))
    ensures Ordinal(NextDay(Date(year, month, day))) == Ordinal(Date(year, month, day)) + 1
    ensures day < DaysInMonth(year, month) ==> NextDay(Date(year, month, day)) == Date(year, month, day + 1)
  {
  }

  /** The kept days grow by the new day exactly when it is a Monday-to-Friday day. */
  lemma BusinessDaysExtend(t: LanguagePack, year: int, month: int, first: int, day: int, prefix: seq<Row>)
    requires WellFormed(t) && ValidDate(Date(year, month, first)) && ValidDate(Date(year, month, day)) && first <= day
    ensures prefix + DateRows(t, year, month, BusinessDays(year, month, first, day))
            == prefix + DateRows(t, year, month, BusinessDays(year, month, first, day - 1))
               + (if IsBusinessDay(Date(year, month, day)) then [DateRow(t, Date(year, month, day))] else [])
  {
    var kept := BusinessDays(year, month, first, day - 1);
    if IsBusinessDay(Date(year, month, day)) {
      DateRowsAppend(t, year, month, kept, day);
    }
  }

  /** The body of the walk: a Monday-to-Friday date gets its row, formatted
      date first, then the weekday's name and four empty cells. */
  method VisitDay(rows: seq<Row>, t: LanguagePack, currentDate: Date) returns (result: seq<Row>)
    requires WellFormed(t) && ValidDate(currentDate)
    ensures result == rows + (if IsBusinessDay(currentDate) then [DateRow(t, currentDate)] else [])
  {
    result := rows;
    var weekday := Weekday(currentDate);
    if weekday <= 4 {
      var dateFormatted := FormatDate(currentDate);
      var dayName := t.weekdays[weekday];
      result := result + [[dateFormatted, dayName, "", "", "", ""]];
    }
  }

  /** The state of the walk before visiting day `day`: `currentDate` is that
      day (or, once past the last day, the day after it), and the rows of the
      days already visited have been appended to `data`. */
  predicate WalkState(t: LanguagePack, data: seq<Row>, year: int, month: int, startDay: int, lastDay: int,
                      day: int, currentDate: Date, result: seq<Row>)
    requires WellFormed(t) && ValidDate(Date(year, month, startDay)) && lastDay == DaysInMonth(year, month)
  {
    && startDay <= day <= lastDay + 1
    && ValidDate(currentDate)
    && Ordinal(currentDate) == Ordinal(Date(year, month, lastDay)) + day - lastDay
    && (day <= lastDay ==> currentDate == Date(year, month, day))
    && result == data + DateRows(t, year, month, BusinessDays(year, month, startDay, day - 1))
  }

  /** Visiting a date no later than the last day moves the walk on by one day. */
  lemma WalkAdvance(t: LanguagePack, data: seq<Row>, year: int, month: int, startDay: int, lastDay: int,
                    day: int, currentDate: Date, result: seq<Row>)
    requires WellFormed(t) && ValidDate(Date(year, month, startDay)) && !(month == 12 && year == MaxYear)
    requires lastDay == DaysInMonth(year, month)
    requires WalkState(t, data, year, month, startDay, lastDay, day, currentDate, result)
    requires Ordinal(currentDate) <= Ordinal(Date(year, month, lastDay))
    ensures day <= lastDay && currentDate == Date(year, month, day)
    ensures WalkState(t, data, year, month, startDay, lastDay, day + 1, NextDay(currentDate),
                      result + (if IsBusinessDay(currentDate) then [DateRow(t, currentDate)] else []))
  {
    BusinessDaysExtend(t, year, month, startDay, day, data);
    WalkStep(year, month, day);
  }

  /** The `while current_date <= end_date` loop: walks the month one day at a
      time from the start date to the last day and appends a row for each
      Monday-to-Friday date. */
  method AppendDateRows(data: seq<Row>, t: LanguagePack, year: int, month: int, startDay: int, lastDay: int)
    returns (result: seq<Row>)
    requires WellFormed(t) && ValidDate(Date(year, month, startDay)) && !(month == 12 && year == MaxYear)
    requires lastDay == DaysInMonth(year, month)
    ensures result == data + DateRows(t, year, month, BusinessDays(year, month, startDay, lastDay))
  {
    result := data;
    var currentDate := Date(year, month, startDay);
    var endDate := Date(year, month, lastDay);
    ghost var day := startDay;
    OrdinalWithinMonth(year, month, startDay, lastDay);
    while Ordinal(currentDate) <= Ordinal(endDate)
      invariant WalkState(t, data, year, month, startDay, lastDay, day, currentDate, result)
      decreases lastDay + 1 - day
    {
      WalkAdvance(t, data, year, month, startDay, lastDay, day, currentDate, result);
      result := VisitDay(result, t, currentDate);
      currentDate := NextDay(currentDate);
      day := day + 1;
    }
  }

  /** The rows of the main table as `generate_timesheet` appends them: the two
      information rows and the header, then (once the last day and the start
      date exist) the date rows and the TOTAL row. */
  method BuildTable(t: LanguagePack, employeeName: string, month: int, year: int, startDay: int)
    returns (r: Result<seq<Row>, Error>)
    requires WellFormed(t)
    ensures r == TableSpec(t, employeeName, month, year, startDay)
  {
    var data: seq<Row> := [];
    data := data + [[t.name, employeeName, "", "", "", ""]];
    var monthName := PyIndex(t.months, month);
    if monthName.None? {
      return Failure(MonthIndexError);
    }
    var yearText := YearText(year);
    if yearText.Failure? {
      return Failure(yearText.error);
    }
    data := data + [[t.monthYear, monthName.value + "/" + yearText.value, "", "", "", ""]];
    data := data + [[t.date, t.day, t.entryTime, t.exitTime, t.totalHours, t.balance]];

    var lastDay := LastDay(year, month);
    if lastDay.Failure? {
      return Failure(lastDay.error);
    }
    var startDate := MakeDate(year, month, startDay);
    if startDate.Failure? {
      return Failure(startDate.error);
    }

    ghost var prefix := data;
    assert prefix == [InfoRow(t.name, employeeName), InfoRow(t.monthYear, t.months[month] + "/" + IntToDecimal(year)), HeaderRow(t)];
    data := AppendDateRows(data, t, year, month, startDay, lastDay.value);
    data := data + [[t.total, "", "", "", "", ""]];
    assert data == Table(t, employeeName, year, month, startDay);
    TableSpecAccepted(t, employeeName, month, year, startDay);
    r := Success(data);
  }

  /** `generate_timesheet` up to the point where the table goes to the layout
      library: the same appends, the same day-by-day loop, the same exceptions. */
  method GenerateTimesheet(employeeName: string, supervisorName: string, month: int, year: int,
                           startDay: int := 1, language: string := "es", outputFilename: Option<string> := None)
    returns (r: Result<Timesheet, Error>)
    ensures r == TimesheetSpec(employeeName, month, year, startDay, language, outputFilename)
  {
    var t := SelectPack(language);

    var filename: string;
    if outputFilename.None? {
      var f := DefaultFilename(t, employeeName, month, year);
      if f.Failure? {
        return Failure(f.error);
      }
      filename := f.value;
    } else {
      filename := outputFilename.value;
    }

    var data := BuildTable(t, employeeName, month, year, startDay);
    if data.Failure? {
      return Failure(data.error);
    }
    var rowHeights := RowHeights(|data.value|);
    assert rowHeights == RowHeightsFor(|data.value|);
    r := Success(Timesheet(filename, data.value, rowHeights));
  }

  /** December 2025 from the 15th: 31 days, and the rows are for the 15th-19th,
      22nd-26th and 29th-31st (the weekends 20-21 and 27-28 are skipped). */
  lemma ExampleDecember2025()
    ensures LastDay(2025, 12) == Success(31)
    ensures BusinessDays(2025, 12, 15, 31) == [15, 16, 17, 18, 19, 22, 23, 24, 25, 26, 29, 30, 31]
  {
    assert Ordinal(Date(2025, 12, 15)) == 739600;
    forall d | 15 <= d <= 31
      ensures IsBusinessDay(Date(2025, 12, d)) <==> (d - 15) % 7 <= 4
    {
      assert Ordinal(Date(2025, 12, d)) == 739600 + (d - 15);
    }
    assert BusinessDays(2025, 12, 15, 19) == [15, 16, 17, 18, 19];
    assert BusinessDays(2025, 12, 15, 26) == [15, 16, 17, 18, 19, 22, 23, 24, 25, 26];
  }

  /** The first kept day is the start day itself when that is a Monday-to-Friday day. */
  lemma {:induction false} BusinessDaysFirst(year: int, month: int, first: int, last: int)
    requires ValidMonth(year, month) && 1 <= first <= last <= DaysInMonth(year, month)
    requires IsBusinessDay(Date(year, month, first))
    ensures |BusinessDays(year, month, first, last)| > 0 && BusinessDays(year, month, first, last)[0] == first
    decreases last - first
  {
    if first < last {
      BusinessDaysFirst(year, month, first, last - 1);
      assert BusinessDays(year, month, first, last)[0] == BusinessDays(year, month, first, last - 1)[0];
    }
  }

  /** 1 January 2026 is a Thursday. */
  lemma ExampleNewYear2026Weekday()
    ensures Weekday(Date(2026, 1, 1)) == 3
  {
    assert Ordinal(Date(2026, 1, 1)) == 739617;
  }

  /** 1 January 2026 is written `01/01/2026`. */
  lemma ExampleNewYear2026Format()
    ensures FormatDate(Date(2026, 1, 1)) == "01/01/2026"
  {
    assert Pow10(2) == 100 && Pow10(4) == 10000;
    assert ZeroPadded(0, 1) == "0";
    assert ZeroPadded(1, 2) == "01";
    assert ZeroPadded(2, 1) == "2";
    assert ZeroPadded(20, 2) == "20";
    assert ZeroPadded(202, 3) == "202";
    assert ZeroPadded(2026, 4) == "2026";
  }

  /** January 2026 from the 1st under `es`: the first date row is Thursday 1 January. */
  lemma ExampleJanuary2026()
    ensures LastDay(2026, 1) == Success(31)
    ensures |MonthRows(Spanish, 2026, 1, 1)| > 0
            && MonthRows(Spanish, 2026, 1, 1)[0] == ["01/01/2026", "Jueves", "", "", "", ""]
  {
    ExampleNewYear2026Weekday();
    ExampleNewYear2026Format();
    BusinessDaysFirst(2026, 1, 1, 31);
  }

  /** 30 February 2025 does not exist: the call fails with ValueError. */
  lemma ExampleFebruary30(employeeName: string, language: string, outputFilename: Option<string>)
    requires outputFilename.Some? || !AllSpace(employeeName)
    ensures TimesheetSpec(employeeName, 2, 2025, 30, language, outputFilename) == Failure(DateValueError)
  {
  }

  /** The year 10^4300 has 4301 digits: the f-string raises ValueError before
      any date is built, unless the name has no word and there is no file name. */
  lemma ExampleYearTooLong(employeeName: string, language: string, outputFilename: Option<string>)
    ensures outputFilename.Some? || !AllSpace(employeeName)
            ==> TimesheetSpec(employeeName, 1, Pow10(MaxStrDigits), 1, language, outputFilename) == Failure(DigitLimitError)
    ensures outputFilename.None? && AllSpace(employeeName)
            ==> TimesheetSpec(employeeName, 1, Pow10(MaxStrDigits), 1, language, outputFilename) == Failure(NameIndexError)
  {
    TimesheetSucceedsIff(employeeName, 1, Pow10(MaxStrDigits), 1, language, outputFilename);
  }
}
