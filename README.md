# Timesheet generator: the calendar-to-table core in Dafny

The timesheet generator writes a one-page attendance sheet for one employee
and one month. This project models the part of `generate_timesheet` that
decides what goes on the sheet, together with the configuration merge in
`load_config`:

- choosing a language pack, with unknown codes falling back to `es`;
- building the default output file name
  `timesheet_<first name>_<month>_<year>.pdf`;
- the rows of the main table: the name row, the month/year row and the
  column header, then one row `[DD/MM/YYYY, weekday name, "", "", "", ""]`
  for each Monday-to-Friday date from `start_day` to the month's last day,
  then the TOTAL row;
- the month's last day, found as the day before the first of the following
  month (January of `year + 1` after December);
- the `row_heights` list;
- the exceptions raised on the way, in the order the code raises them.

Files:

| file | contents |
|---|---|
| `wrappers.dfy` | `Option` and `Result` with failure propagation |
| `calendar.dfy` | the proleptic Gregorian calendar of Python's `datetime`: valid dates, day numbers counted from 0001-01-01, weekdays (0 = Monday), the next and the previous day |
| `text.dfy` | `str.split()[0]`, `str.lower()`, `str(int)` and the zero-padded fields of `strftime` |
| `translations.dfy` | the three language packs and `translations.get(language, translations["es"])` |
| `config.dfy` | `load_config`: the defaults merged with the contents of `config.json` |
| `timesheet.dfy` | the default file name, the table, the row heights, and `generate_timesheet` as methods |

The methods follow the source statement by statement.

- `BuildTable` appends the name row, looks up the month name and prints the
  year for the month/year row, and appends that row and the header. It then looks up the
  last day and the start date.
- `AppendDateRows` is the `while current_date <= end_date` loop over dates.
  `VisitDay` is its body.
- `RowHeights` is the `for` loop over `range(3, len(data))`.
- `GenerateTimesheet` ties them together. Its parameters `start_day`,
  `language` and `output_filename` take the source's defaults: 1, `"es"`
  and no file name.

Each method is proved equal to a specification function: `TableSpec`,
`TimesheetSpec`, `DateRows` of `BusinessDays`, or `RowHeightsFor`. The
lemmas state what those functions guarantee.

The code raises these errors:

- There is no single invalid-period error.
- A month outside -13..12 raises `IndexError` at the month-name lookup. With
  no file name given, this is line 163, before any row is appended. With a
  file name given, it is line 202, after the name row is appended.
- A month below 0, or a start day outside the month, raises `ValueError`
  from `datetime` (lines 217-223). So does a year outside 1..9999 in a month
  other than December, such as year 0 or 10000: `datetime` raises at line
  219 or 223. By then the three leading rows have been appended.
- Negative months down to -13 pass the month-name lookup, since Python
  indexes lists from the end. They then fail in `datetime`.
- December 9999 fails, because `datetime(10000, 1, 1)` is out of range.
- `OverflowError` is raised in December of year 0 and in month 0 of year 1,
  where the code reaches `datetime(1, 1, 1) - timedelta(days=1)`. It is also
  raised when a `datetime` argument does not fit a C `int`: a start day, or
  a year of at most 4300 digits, outside -2^31..2^31-1, including `year + 1` for December of year
  2^31-1. A month that wide fails earlier, at the month-name lookup.
  Month 0 of a later year gets past `last_day`, then fails with
  `ValueError` at line 223.
- An employee name with no word in it makes the default file name raise
  `IndexError`. This happens only when no output file name is given.
- A year of more than 4300 digits, such as `10**4300`, raises `ValueError`
  when the f-string `{year}` calls `str(year)`: Python 3.11 and later refuse
  by default to convert so long an integer to a string. With no file name
  given this happens at line 164, after the first word of the name is taken.
  With a file name given it happens at line 202, after the month-name lookup.
  Either way it comes before any `datetime` is built.

`Error` has one variant for each of these outcomes.

## Model

| member | source | states |
|---|---|---|
| Calendar.DaysInMonth | timesheet-generator/generate_timesheet.py:216-220 | a month has 28 to 31 days: 29 exactly for February of a Gregorian leap year, 28 for other Februaries, 30 exactly for April, June, September and November |
| Calendar.Weekday | timesheet-generator/generate_timesheet.py:227 | `weekday()` is a number from 0 to 6 |
| Calendar.NextDay | timesheet-generator/generate_timesheet.py:233 | `current_date + timedelta(days=1)` is a valid date whose day number is one higher |
| Calendar.PrevDay | timesheet-generator/generate_timesheet.py:220 | `next_month - timedelta(days=1)` is a valid date whose day number is one lower |
| Calendar.DaysBeforeYearStep | timesheet-generator/generate_timesheet.py:217 | each year adds its own length, 365 or 366 by the leap rule, to the day count |
| Calendar.OrdinalInjective | timesheet-generator/generate_timesheet.py:226 | two valid dates with the same day number are the same date, so comparing dates compares day numbers |
| Calendar.WeekdayAnchor | timesheet-generator/generate_timesheet.py:227 | 0001-01-01 is day number 1 and a Monday |
| Calendar.WeekdayNextDay | timesheet-generator/generate_timesheet.py:227-233 | the weekday of the next day is the weekday of the day plus one, modulo 7 |
| Calendar.DayBeforeNextMonth | timesheet-generator/generate_timesheet.py:216-220 | the day before the first of the following month (January of the next year after December) is the month's last day, and its day number is the month's length |
| Text.FirstWord | timesheet-generator/generate_timesheet.py:164 | `split()[0]` fails exactly when the name is all whitespace; otherwise it is the nonempty whitespace-free run that follows the leading whitespace and ends at whitespace or at the end |
| Text.Lower | timesheet-generator/generate_timesheet.py:163-164 | `lower()` keeps the length, turns every capital letter into its lower-case letter (code point plus 32), and keeps every other character |
| Text.LowerIdempotent | timesheet-generator/generate_timesheet.py:163-164 | lower-casing twice gives the same result as once, and creates no whitespace |
| Text.ZeroPaddedValue | timesheet-generator/generate_timesheet.py:230 | a zero-padded `strftime` field reads back as the number written |
| Text.NatToDecimalValue | timesheet-generator/generate_timesheet.py:202 | `str(n)` of a natural number is a nonempty string of digits that reads back as `n` |
| Text.NatToDecimalLength | timesheet-generator/generate_timesheet.py:164 | `str(n)` has at most `w` digits exactly when `n < 10^w` |
| Text.TooManyDigitsLength | timesheet-generator/generate_timesheet.py:164 | a year is too long to print exactly when the digits of its absolute value number more than 4300 |
| Text.IntToDecimal | timesheet-generator/generate_timesheet.py:164 | `str(year)` has no whitespace; it starts with `-` exactly for a negative year; the digits after the sign denote the absolute value and have no leading zero; the 4300-digit limit on `str` is checked separately, by `YearText` |
| Translations.SelectPack | timesheet-generator/generate_timesheet.py:159 | `es`, `pt` and `en` select their own packs, any other code selects the `es` pack, and the pack selected is always well formed |
| Translations.PacksWellFormed | timesheet-generator/generate_timesheet.py:80-156 | every pack has thirteen month names, the first empty, and a weekday name for every weekday from 0 to 4 |
| Config.Merge | timesheet-generator/generate_timesheet.py:45 | `{**defaults, **config}` has the keys of both, the configuration's value where it has one and the default's elsewhere |
| Config.LoadConfig | timesheet-generator/generate_timesheet.py:27-51 | a decoded JSON object is merged over the defaults; a missing, undecodable, unreadable or non-object file yields exactly the defaults |
| Config.LoadConfigKeepsDefaults | timesheet-generator/generate_timesheet.py:45 | the three keys the program reads are always present, and a key the file does not set keeps its default value |
| Config.MergeKeepsKeySet | timesheet-generator/generate_timesheet.py:45 | an empty configuration changes nothing, and a configuration that sets only known keys adds no key |
| Timesheet.PyIndex | timesheet-generator/generate_timesheet.py:163 | Python list indexing succeeds exactly for indices from `-len` to `len - 1`; a non-negative index gives that element, and a negative index `i` gives element `len + i` |
| Timesheet.CIntHasFewDigits | timesheet-generator/generate_timesheet.py:164 | a year that fits a C `int` has far fewer than 4300 digits, so `str(year)` never raises for a year `datetime` accepts |
| Timesheet.YearText | timesheet-generator/generate_timesheet.py:202 | `str(year)` raises `ValueError` exactly when the year has more than 4300 digits, and otherwise is the decimal text of the year |
| Timesheet.MakeDate | timesheet-generator/generate_timesheet.py:223-224 | `datetime(year, month, day)` succeeds exactly for a valid date; it raises `OverflowError` exactly when an argument does not fit a C `int`, and `ValueError` otherwise |
| Timesheet.LastDay | timesheet-generator/generate_timesheet.py:216-220 | `last_day` exists exactly for month 1-11 of years 1..9999, December of years 1..9998, and month 0 of years 2..9999; for months 1-12 it equals the month's length; December of year 0, month 0 of year 1 and December of year 2^31-1 raise `OverflowError` |
| Timesheet.FormatDate | timesheet-generator/generate_timesheet.py:230 | the date cell has ten characters: two digits, `/`, two digits, `/`, four digits |
| Timesheet.FormatDateRoundTrip | timesheet-generator/generate_timesheet.py:230 | the `DD/MM/YYYY` cell reads back as the very date it was written from |
| Timesheet.DefaultFilename | timesheet-generator/generate_timesheet.py:162-164 | the default name exists exactly when the month indexes the month list, the employee name has a word and the year has at most 4300 digits; a bad month raises `IndexError` first, then a wordless name raises `IndexError`, and only then a long year raises `ValueError`; the name is built from the first word, the month name and the year |
| Timesheet.FilenameOfShape | timesheet-generator/generate_timesheet.py:164 | the name starts `timesheet_`, then the lower-cased word with no capital letters, then `_`, and ends in `.pdf` |
| Timesheet.DefaultFilenameNamePart | timesheet-generator/generate_timesheet.py:164 | in the default name the part after `timesheet_` is the employee's first word lower-cased: nonempty, without whitespace, followed by `_` |
| Timesheet.BusinessDays | timesheet-generator/generate_timesheet.py:226-233 | every kept day lies between the first and the last day and is a Monday to Friday |
| Timesheet.BusinessDaysIncreasing | timesheet-generator/generate_timesheet.py:226-233 | the kept days are strictly increasing |
| Timesheet.BusinessDaysMembership | timesheet-generator/generate_timesheet.py:226-233 | a day is kept if and only if it lies in the range and is a Monday to Friday |
| Timesheet.BusinessDaysCount | timesheet-generator/generate_timesheet.py:226-233 | there are exactly as many kept days as Monday-to-Friday days in the range, so none is kept twice |
| Timesheet.BusinessDaysFirst | timesheet-generator/generate_timesheet.py:226-232 | when the start day is a Monday to Friday it is the first kept day |
| Timesheet.Table | timesheet-generator/generate_timesheet.py:196-236 | the `data` list of a valid period has four rows more than there are date rows; it starts with the name row and ends with the TOTAL row |
| Timesheet.TableSpec | timesheet-generator/generate_timesheet.py:196-236 | building the rows succeeds exactly for a valid start date in a month other than December 9999, and then gives the table; a month outside -13..12 raises `IndexError`; otherwise a year of more than 4300 digits raises `ValueError` when it is printed; any other failure is a `ValueError` or an `OverflowError` from `datetime` |
| Timesheet.TimesheetSpec | timesheet-generator/generate_timesheet.py:54-247 | a successful call has as many row heights as rows, at least four, and returns the given file name when there is one; `start_day`, `language` and `output_filename` default to 1, `es` and none |
| Timesheet.TableLayout | timesheet-generator/generate_timesheet.py:199-236 | the table is the name row, the month/year row (`months[month] + "/" + str(year)`), the header row, the date rows and the TOTAL row: four rows more than there are date rows |
| Timesheet.MonthRowsCells | timesheet-generator/generate_timesheet.py:232 | every date row has six cells, the last four empty |
| Timesheet.TableCells | timesheet-generator/generate_timesheet.py:199-236 | every row of the table has six cells; in every date row and in the TOTAL row the last four cells are empty |
| Timesheet.DateRowsReadBack | timesheet-generator/generate_timesheet.py:229-232 | the date cell of the row for each kept day reads back as that date, and the weekday cell is the pack's name for that date's weekday |
| Timesheet.MonthRowsInMonth | timesheet-generator/generate_timesheet.py:223-232 | every date row names a valid Monday-to-Friday date of the requested month and year, on a day from `start_day` to the last day, under that date's weekday name |
| Timesheet.MonthRowsOrdered | timesheet-generator/generate_timesheet.py:226-233 | the date rows are in strictly increasing date order |
| Timesheet.MonthRowsComplete | timesheet-generator/generate_timesheet.py:226-233 | every Monday-to-Friday date from `start_day` to the last day has a row, and there are exactly as many date rows as such dates |
| Timesheet.MonthRowsDateCellsLanguageFree | timesheet-generator/generate_timesheet.py:229-231 | two language packs give the same number of date rows with the same date cells; only the weekday names differ |
| Timesheet.TableSpecAccepted | timesheet-generator/generate_timesheet.py:199-236 | for a valid start date in a month other than December 9999, every lookup succeeds and the result is the table |
| Timesheet.TimesheetSucceedsIff | timesheet-generator/generate_timesheet.py:159-236 | a call succeeds exactly when the start date is valid, the month is not December 9999, and a file name is given or the name has a word; a month outside -13..12 raises `IndexError` first; with no file name, a wordless name raises `IndexError` next; after that, a year of more than 4300 digits raises `ValueError` |
| Timesheet.TimesheetSpecAccepted | timesheet-generator/generate_timesheet.py:159-247 | an accepted call returns the given file name (or else the default one), the table and its row heights |
| Timesheet.TimesheetRowHeights | timesheet-generator/generate_timesheet.py:242-247 | a successful call has one height per row and at least four rows; the first three heights are 0.7 cm and the others 0.65 cm |
| Timesheet.RowHeights | timesheet-generator/generate_timesheet.py:242-247 | the loop produces three 0.7 cm entries, then one 0.65 cm entry for each further row |
| Timesheet.VisitDay | timesheet-generator/generate_timesheet.py:227-232 | one pass of the loop body appends the date's row exactly when the date is a Monday to Friday, and otherwise leaves the rows unchanged |
| Timesheet.AppendDateRows | timesheet-generator/generate_timesheet.py:223-233 | the walk from `start_day` to the last day appends exactly the rows of the kept days, in order |
| Timesheet.BuildTable | timesheet-generator/generate_timesheet.py:196-236 | the appends and the loop produce the table of `TableSpec`, or the same exception at the same point |
| Timesheet.GenerateTimesheet | timesheet-generator/generate_timesheet.py:54-247 | the whole procedure returns the result of `TimesheetSpec`: the same file name, rows and heights, or the same exception |
| Timesheet.ExampleDecember2025 | timesheet-generator/generate_timesheet.py:216-233 | December 2025 has 31 days; from the 15th the kept days are 15-19, 22-26 and 29-31 |
| Timesheet.ExampleNewYear2026Weekday | timesheet-generator/generate_timesheet.py:227 | 1 January 2026 is a Thursday |
| Timesheet.ExampleNewYear2026Format | timesheet-generator/generate_timesheet.py:230 | 1 January 2026 is written `01/01/2026` |
| Timesheet.ExampleJanuary2026 | timesheet-generator/generate_timesheet.py:226-232 | January 2026 has 31 days, and under `es` its first date row is `["01/01/2026", "Jueves", "", "", "", ""]` |
| Timesheet.ExampleFebruary30 | timesheet-generator/generate_timesheet.py:223 | a start date of 30 February 2025 raises `ValueError` |
| Timesheet.ExampleYearTooLong | timesheet-generator/generate_timesheet.py:164 | the year `10**4300` raises `ValueError` when it is printed, unless a wordless name with no file name raises `IndexError` first |

## Left out

- PDF construction is not modelled: the document template, styles, title,
  column widths, table style, signature table and `doc.build`
  (lines 167-193 and 238-302). These are layout-library calls. The result
  stops at the file name, the rows of the main table and their heights.
- Writing the PDF file is left out, and so are the errors that come from
  writing it.
- Reading `config.json` is not modelled: the path check, opening, JSON
  decoding and the warning prints (lines 27-51). Instead, the four possible
  outcomes of reading are a `ConfigFile` parameter. A decoded JSON value
  that is not an object is treated like any other failure: the merge raises
  `TypeError`, and the broad handler returns the defaults.
- Configuration values are modelled as strings. JSON values of other types
  are not modelled.
- The example runs under `__main__` (lines 307-335) and `kids-project` are not
  modelled: neither has logic of its own.
- `supervisor_name` is taken as a parameter and not used. It appears only
  in the signature table, which is left out.
- Heights are the real numbers 0.7 and 0.65, in cm. The multiplication by
  ReportLab's `cm` and floating-point rounding are not modelled.
- Text.Lower: models `str.lower()` only for ASCII and Latin-1 capital
  letters. Other Unicode case mappings are left out, including those that
  change a string's length.
- Timesheet.FormatDate: writes the year as four zero-padded digits. Python's
  `%Y` is platform-dependent for years below 1000, and that case is not
  modelled.
- Exception messages are not modelled; `Error` keeps only the exception
  type and where it arises. `DigitLimitError` is the `ValueError` of `str`
  on a long integer, which depends on the interpreter's default digit limit
  of 4300 (Python 3.11 and later); changing that limit is not modelled. `DateOverflowError` stands for both kinds of
  `OverflowError`: an argument too wide for a C `int`, and a date before
  0001-01-01.
- Timesheet.AppendDateRows: the loop compares day numbers, which for these
  dates is the same as comparing `datetime` values. Times of day are always
  midnight and are not modelled.
