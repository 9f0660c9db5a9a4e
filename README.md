# Fotmob league match extraction, modelled in Dafny

The repository is a small Streamlit application. It takes a Fotmob league URL
and pulls the league id out of it. It then fetches the league's JSON
document and turns its match list into a table, which the user can download
as CSV. This project models the deterministic core of `FotmobAPI` in
`main.py` and proves properties of that model:

- **`get_id_from_url`** splits the URL on `'/'` and returns piece 4. When
  there is no such piece it raises `ValueError("Invalid URL format")`
  (module `LeagueUrl`).
- **`add_hours_and_format`** parses a UTC kick-off time in one of two
  forms. A text containing a `.` must be `YYYY-MM-DDTHH:MM:SS.ffffffZ`; any
  other text must be `YYYY-MM-DDTHH:MM:SSZ`. The function adds two hours and
  prints the result as `YYYY-MM-DD HH:MM:SS`. The work is split across three
  modules:
  - `Calendar`: a proleptic Gregorian calendar, with leap years and carry
    from hour to day to month to year, plus the two-hour shift;
  - `Timestamp`: parsing and printing;
  - `TimestampExamples`: concrete instances.
- **`get_league_matches`**, from the point where the response has been
  decoded:
  - The list comprehension builds one 13-cell row per match. It uses
    chained `dict.get` lookups, some with a `{}` default.
  - `apply` normalises the kick-off column. The first failure aborts the
    whole build.
  - A `match_name` column is derived and moved to the front.

  The module `Json` models decoded JSON values and the three dictionary
  operations the code uses. The module `MatchRows` is the value-level
  specification of the finished table (`LeagueTable`). The module `Frame`
  models the DataFrame as a `Table` class: a column list and a list of rows,
  updated in place by `concat`, column assignment, `pop` and `insert`.
  `Frame.GetLeagueMatches` performs those steps in order and is proved to
  build exactly the table `LeagueTable` specifies, or to fail with the same
  error.

Python exceptions are modelled as values of `Errors.Result`. The `Error`
constructors name the exception and its cause:

| constructor | Python exception |
|---|---|
| `ValueError` | `ValueError` raised by `get_id_from_url` |
| `TimeDataError` | `strptime` rejects the text |
| `DateOverflow` | `OverflowError` past 9999-12-31 |
| `NotAString` | `TypeError` for a non-string kick-off |
| `MissingKey` | `KeyError` |
| `NotSubscriptable` | `TypeError` on `x[key]` |
| `NotIterable` | `TypeError` on `for x in ...` |
| `NoGetMethod` | `AttributeError` on `.get` |

Where the code and its own comments or documentation disagree, the model
follows the code:

- **Two hours, not three.** The comment at `main.py:25` says "Add 3 hours".
  The statement after it adds `timedelta(hours=2)`. `Calendar.OffsetHours`
  is 2.
- **Null-safety covers absent keys only.** The nested lookups are documented
  as null-safe. They are, for a key that is absent: `.get(k, {})` yields
  `{}`, and the following `.get` yields `None`. A key that is present with
  the value `null` (or a number, string or list) makes `.get(k, {})` return
  that value, and the next `.get` raises `AttributeError`. Such a value under
  a match's `status`, `home` or `away` aborts the whole build
  (`MatchRows.PresentNullAborts`). `details` is read inside the
  comprehension, once per match. Such a value under `details` therefore
  aborts the build when `allMatches` has at least one match, and goes
  unnoticed when it has none (`MatchRows.PresentNullDetails`).

## Model

| member | source | states |
|---|---|---|
| LeagueUrl.Split | main.py:13 | `url.split('/')`: one piece more than there are separators, no piece contains `'/'`, and joining the pieces with `'/'` gives back the input |
| LeagueUrl.SplitJoin | main.py:13 | splitting the join of `'/'`-free pieces gives back exactly those pieces, empty ones included |
| LeagueUrl.GetIdFromUrl | main.py:10-15 | succeeds exactly when the URL has at least four `'/'`, i.e. at least five pieces; otherwise fails with `ValueError("Invalid URL format")`; the id never contains `'/'` |
| LeagueUrl.SplitPiece | main.py:13 | piece k of the split is the text after the k-th separator, up to the next separator |
| LeagueUrl.IdIsTextAfterFourthSeparator | main.py:13 | the returned id is the text between the fourth `'/'` and the next one (or the end) |
| LeagueUrl.SplitAfterPiece | main.py:13 | a `'/'`-free prefix followed by `'/'` splits off as the first piece |
| LeagueUrl.SplitSinglePiece | main.py:13 | a text without `'/'` is one piece |
| LeagueUrl.SplitFirstPiece | main.py:13 | the first piece is the text up to the first `'/'` |
| LeagueUrl.CountAbsent | main.py:13 | a text without the separator has no separators |
| LeagueUrl.CountAppend | main.py:13 | separators of a concatenation add up |
| LeagueUrl.IdBetweenSeparators | main.py:10-13 | for any URL `p0/p1/p2/p3/id` followed by nothing or by `/...`, the result is `id`, whatever the earlier pieces are (empty ones included) |
| LeagueUrl.OverviewUrlExample | main.py:10-13 | `https://<host>/leagues/47/overview/<slug>` yields `"47"` |
| LeagueUrl.HostOnlyUrlExample | main.py:12-15 | `https://<host>` has too few pieces and fails with the "Invalid URL format" error |
| Calendar.DaysInMonth | main.py:21-23 | month lengths lie between 28 and 31; 29 exactly for February of a leap year, 28 exactly for February of any other year |
| Calendar.MonthLength | main.py:26 | day counts before consecutive months differ by the month's length |
| Calendar.YearLength | main.py:26 | day counts before consecutive years differ by the year's length, which the months add up to |
| Calendar.NextDay | main.py:26 | the day after a valid date that is not 9999-12-31 is a valid date whose day number is one more |
| Calendar.AddOffset | main.py:26 | `dt + timedelta(hours=2)`: fails with an overflow exactly for the last two hours of 9999-12-31; otherwise it is a valid date-time exactly 7200 seconds later, with the microseconds kept |
| Calendar.SecondsDetermineDateTime | main.py:26 | two valid date-times at the same instant have the same fields, so the shifted value is determined by its instant |
| Calendar.OrdinalMonotone | main.py:26 | the day number strictly increases with the calendar order of dates |
| Calendar.MonthsBefore | main.py:26 | a month ends before any later month of the year begins |
| Calendar.DaysBeforeYearMonotone | main.py:26 | day counts before years do not decrease |
| Calendar.RolloverExamples | main.py:26 | roll-over cases: within a day, to the next month, 28 Feb to 1 Mar in 2023 and 1900, 28 Feb to 29 Feb in 2024 and 2000, 31 Dec to 1 Jan, microseconds kept, and overflow at 9999-12-31 22:00 |
| Timestamp.Pow10 | main.py:21-23 | powers of ten are positive |
| Timestamp.Number | main.py:21-23 | a digit string of length n denotes a number below 10^n |
| Timestamp.Digits | main.py:29 | zero-padded printing: exactly `width` digits, which read back as the number |
| Timestamp.DigitsOfNumber | main.py:21-29 | printing a parsed digit field at its own width gives the field back |
| Timestamp.FractionMicroseconds | main.py:21 | `%f` yields microseconds in range, padding 1 to 6 digits on the right |
| Timestamp.PowerSplit | main.py:21 | powers of ten multiply by adding exponents |
| Timestamp.Construct | main.py:21-23 | building a datetime from in-range fields gives those fields; out-of-range fields fail |
| Timestamp.ParsePlain | main.py:23 | `strptime` with the plain pattern: accepted exactly when the text has the plain shape and its fields are in range; the value has those fields and no microseconds; every rejection is a parse error |
| Timestamp.ParseFractional | main.py:21 | `strptime` with the fractional pattern: accepted exactly when the text has the fractional shape and its fields are in range; the microseconds are the fraction padded on the right; every rejection is a parse error |
| Timestamp.Parse | main.py:20-23 | accepted exactly when the text has the plain or the fractional shape and its fields form a real date and time; every rejection is a parse error; the result is valid |
| Timestamp.PlainHasNoDot | main.py:20-23 | the plain pattern never contains `.` |
| Timestamp.FractionalHasDot | main.py:20-21 | the fractional pattern always contains `.` |
| Timestamp.PatternChosenByDot | main.py:20-23 | a text with `.` is accepted only in the fractional shape, one without only in the plain shape |
| Timestamp.StampSlices | main.py:29 | the printed stamp has zero-padded year, month, day, hour, minute and second at fixed positions, with `-`, the separator and `:` between them |
| Timestamp.Format | main.py:29 | `strftime('%Y-%m-%d %H:%M:%S')` has the output shape and reads back as the date-time without microseconds |
| Timestamp.OutputLayout | main.py:29 | every output is 19 characters long, with `-` at 4 and 7, a space at 10, `:` at 13 and 16, and digits everywhere else |
| Timestamp.AddHoursAndFormat | main.py:18-29 | fails exactly when parsing fails (parse error) or the shift passes year 9999 (overflow); on success the output is well-formed and denotes the parsed instant plus 2 hours |
| Timestamp.StampReadsBack | main.py:21-23 | a printed stamp with `T` is read back to the same fields |
| Timestamp.HeadSlices | main.py:21-23 | the first 19 characters of a text that starts with a stamp carry that stamp's fields |
| Timestamp.ParseRenderPlain | main.py:23 | a valid date-time written as `YYYY-MM-DDTHH:MM:SSZ` parses back to itself |
| Timestamp.ParseRenderFractional | main.py:21 | a valid date-time written with a 1–6 digit fraction parses back to itself, microseconds included |
| Timestamp.RenderedFractionalFields | main.py:21 | the fractional text has the fractional shape and its fields are the date-time's |
| Timestamp.ParseReadsWrittenFields | main.py:20-29 | printing a parsed date-time gives back the input's date and time text with the `T` replaced by a space |
| Timestamp.FractionDiscarded | main.py:20-29 | inserting a 1–6 digit fraction into a plain timestamp does not change the result, success or failure |
| Timestamp.InsertedFraction | main.py:20-21 | inserting a fraction turns the plain shape into the fractional shape and keeps the date and time fields |
| Timestamp.OffsetKeepsMicrosecond | main.py:26-29 | the microseconds affect neither whether the shift overflows nor the printed result |
| TimestampExamples.NormalizeRendered | main.py:18-29 | a written plain timestamp normalises to the print of its shifted value |
| TimestampExamples.StampText | main.py:29 | the stamp is the four-digit year, two-digit fields and separators, in order |
| TimestampExamples.KickoffExample | main.py:18-29 | `2024-03-10T15:00:00Z` becomes `2024-03-10 17:00:00` |
| TimestampExamples.FractionalKickoffExample | main.py:20-29 | `2024-03-10T15:00:00.123456Z` also becomes `2024-03-10 17:00:00` |
| TimestampExamples.YearEndExample | main.py:26-29 | `2024-12-31T23:30:00Z` becomes `2025-01-01 01:30:00` |
| TimestampExamples.MonthThirteenRejected | main.py:21-23 | month 13 is a parse error |
| TimestampExamples.FebruaryThirtiethRejected | main.py:21-23 | 30 February is a parse error in every year |
| TimestampExamples.NonLeapFebruaryTwentyNinthRejected | main.py:21-23 | 29 February 2023 is a parse error |
| TimestampExamples.HourTwentyFourRejected | main.py:21-23 | hour 24 is a parse error |
| TimestampExamples.LastHoursOverflow | main.py:26 | a kick-off at or after 9999-12-31 22:00 overflows |
| Json.Lookup | main.py:60-72 | a dict's value at a key is found exactly when the key occurs, and it is the last binding of that key |
| Json.Get | main.py:60-72 | `d.get(key, default)`: fails with `AttributeError` exactly when `d` is not a dict; otherwise gives the bound value, or `default` for an absent key |
| Json.Subscript | main.py:57 | `d[key]`: succeeds exactly for a dict holding the key; otherwise `KeyError` on a dict and `TypeError` on anything else |
| Json.Keys | main.py:74 | iterating a dict yields each key once, and exactly the keys it holds |
| Json.Iterate | main.py:74 | `for x in v`: a list yields its items, a dict its keys, a string its characters; null, booleans and numbers are not iterable |
| Json.LookupRebound | main.py:60-72 | a later binding of a key is what a lookup sees, and leaves other keys alone |
| Json.AbsentKeyIsNull | main.py:61-72 | an absent key ends a path lookup with null, whatever path follows |
| Json.NestedGetIsPath | main.py:61-67 | `v.get(a, {}).get(b)`, when it succeeds, equals the null-safe path lookup of `a` then `b` |
| MatchRows.Cells | main.py:58-73 | a row has one cell per base column, with kick-off, home and away names at their positions |
| MatchRows.MatchesList | main.py:57-74 | `league_matches['matches']['allMatches']` then iteration: `TypeError` when the response or its `matches` is not a dict, `KeyError` naming the missing key, otherwise exactly what iterating the value at `matches.allMatches` yields; a list there gives its items |
| MatchRows.RowOf | main.py:59-73 | a row is built exactly when the match is a dict and its `status`, `home`, `away` and the response's `details` are absent or dicts; otherwise `AttributeError` |
| MatchRows.BuildRows | main.py:58-75 | the comprehension succeeds exactly when every match's row does; then there is one row per match, in order |
| MatchRows.NormalizeCell | main.py:79 | a string kick-off is normalised, and its failure is the normaliser's; any other value is a `TypeError` |
| MatchRows.NormalizeCells | main.py:79 | `apply` succeeds exactly when every cell normalises and then gives each cell's result in order; otherwise it fails with the error of the first failing cell, all earlier cells having succeeded |
| MatchRows.MatchName | main.py:80 | the name is a string exactly when both team names are, and is then `home + " vs " + away` |
| MatchRows.OutputRow | main.py:80-81 | a finished row has 14 cells, the kick-off it is given in the `match_datetime` column, and a first cell that is the match name of the row's own home and away cells |
| MatchRows.LeagueTable | main.py:57-81 | a response whose `allMatches` cannot be reached fails with that error before any row is built; a built table has one row per match, each 14 cells wide with its match name first |
| MatchRows.OutputRowCells | main.py:80-81 | a finished row has 14 cells: the match name first, then the base cells with the normalised kick-off in place |
| MatchRows.TableStages | main.py:57-81 | a built table went through every stage and holds one finished row per match |
| MatchRows.RowFieldsArePaths | main.py:60-72 | every cell of a built row is the null-safe path lookup of its key chain in the match or the response |
| MatchRows.SingleGetIsPath | main.py:60-69 | a one-key `get` on a dict is the one-key path lookup |
| MatchRows.AbsentKeysAreNull | main.py:60-72 | an absent `status`, `home`, `away`, `details`, `id`, `round` or `pageUrl` yields null cells rather than a failure |
| MatchRows.PresentNullAborts | main.py:61-72 | a `status`, `home` or `away` that is present but not a dict makes the build fail with `AttributeError` |
| MatchRows.PresentNullDetails | main.py:66-67 | a `details` that is present but not a dict fails the build with `AttributeError` when there is at least one match, and leaves an empty table when there are none |
| MatchRows.OneRowPerMatch | main.py:57-75 | the table has one row per element of `allMatches`, in input order, carrying that match's id, team names, round and page URL |
| MatchRows.LeagueColumnsFromDetails | main.py:66-67 | every row's `league_id` and `season_id` are `details.id` and `details.selectedSeason`, identical across rows |
| MatchRows.KickoffsNormalized | main.py:61-79 | in a built table every match's `status.utcTime` was a string that normalised, and the row's kick-off cell is its normalised form |
| MatchRows.MatchNameFirst | main.py:80-81 | the first column is `match_name`, and each row's name is derived from its home and away cells: `home + " vs " + away` when both are strings |
| MatchRows.KickoffFailureAborts | main.py:79 | when the k-th kick-off is the first that fails to normalise, the whole build fails with that error and no table |
| MatchRows.KickoffCellsArePaths | main.py:61-79 | the kick-off column before normalisation is each match's `status.utcTime` |
| MatchRows.MissingKickoffAborts | main.py:61-79 | a match without `status.utcTime` makes the build fail with `TypeError` once the kick-offs before it have normalised |
| MatchRows.MalformedResponses | main.py:57-74 | a response that is not a dict, lacks `matches`, or lacks `allMatches`, or whose `allMatches` is null, a boolean or a number, fails with the matching exception |
| Frame.IndexOf | main.py:79-81 | a column's position: the first occurrence of its name |
| Frame.Table.Column | main.py:79-80 | `df[name]`: the cells of that column, top to bottom |
| Frame.Table.constructor | main.py:54-56 | `pd.DataFrame(columns=...)`: the given columns and no rows |
| Frame.Table.AppendRows | main.py:78 | `pd.concat(..., ignore_index=True)`: rows appended after the existing ones, columns unchanged |
| Frame.Table.Assign | main.py:79-80 | `df[name] = cells`: an existing column is overwritten in place and every other cell is kept; a new name becomes the last column |
| Frame.Table.Pop | main.py:81 | `df.pop(name)`: returns the column and removes it from the columns and from every row |
| Frame.Table.Insert | main.py:81 | `df.insert(at, name, cells)`: the column appears at position `at` in the columns and in every row |
| Frame.GetLeagueMatches | main.py:54-81 | the in-place DataFrame steps produce a fresh valid table whose columns are `match_name` then the 13 base columns and whose rows are exactly `LeagueTable`'s; it fails exactly when `LeagueTable` does, with the same error |
| Frame.AppendBuilt | main.py:77-78 | after the concat, the frame holds one row of cells per built row |
| Frame.KickoffColumn | main.py:79 | the frame's `match_datetime` column is the built rows' kick-offs |
| Frame.ReplaceKickoffs | main.py:79 | assigning the normalised column replaces every row's kick-off cell and nothing else |
| Frame.AddMatchName | main.py:80-81 | creating `match_name` then popping it and inserting it at 0 leaves every row with its match name in front and the name column first |
| Frame.FinishedRows | main.py:80-81 | rows with the name in front of the updated cells are exactly the finished rows |
| Frame.DistinctWithout | main.py:81 | removing a column keeps the column names distinct |
| Frame.DistinctWith | main.py:81 | inserting a new name keeps the column names distinct |
| Frame.IndexOfLast | main.py:80 | a newly assigned column sits at the end |
| Frame.BaseColumnPositions | main.py:54-56 | `match_datetime`, `home_team` and `away_team` are columns 1, 2 and 4 of the base frame |
| Frame.BaseColumnsDistinct | main.py:54-56 | the 13 base column names are distinct and do not include `match_name` |
| Errors.FirstErr | main.py:79 | the position of the first failure: every earlier element succeeded |
| Errors.Collect | main.py:79 | evaluating in order succeeds exactly when every element does, and then gives their values in order; otherwise the first failure's error |
| Errors.FirstErrAt | main.py:79 | a failure preceded only by successes is the first failure and the collected error |

## Left out

- `request_send` (`main.py:32-47`) is not modelled. It performs an HTTP GET with a randomly chosen User-Agent and decodes the body. The model starts from the decoded response, which `Frame.GetLeagueMatches` takes as a parameter.
- The URL building and fetch at `main.py:51-52` are network I/O and are not modelled.
- The `except requests.exceptions.RequestException` at `main.py:83-85` is not modelled. The only network call sits before the `try`, so no exception inside it can be a `RequestException`. No claim is made that transport errors give an empty table.
- The Streamlit interface and the CSV export (`main.py:87-118`) are UI and library formatting, and are not modelled.
- JSON floating-point numbers are left out of `Json.Json`. No cell the code reads depends on them.
- `Timestamp.Parse` accepts only zero-padded fields of fixed width. Python's `strptime` also accepts unpadded fields (`2024-3-1T…`) and non-ASCII decimal digits; the model rejects them.
- `Timestamp.Format` always pads the year to four digits. For years below 1000, CPython's `%Y` follows the platform's C library, which may not pad.
- `MatchRows.MatchName`: when either name is not a string the model gives a null cell. The pandas behaviour in that case is not modelled: NaN for a missing name, a `TypeError` for a number or a boolean.
- `MatchRows.LeagueTable` types every cell as decoded JSON. `np.array(rows_list)` at `main.py:77` turns every cell into text when no cell is `None`. That changes the types seen by the `apply` at `main.py:79` and by the concatenation at `main.py:80`, and it is not modelled.
- When `allMatches` is empty, the model builds a table with zero rows. pandas' shape check when a zero-length array is given 13 column names (`main.py:78`) is not modelled.
- `Frame.Table` models only the part of a DataFrame this code uses: named columns and rows of cells. It leaves out the index, dtypes and copy-versus-view semantics.
