# camp-little-scrape, modelled in Dafny

camp-little-scrape collects Fairfax County summer-camp listings. It has three commands that run one after another:

- `details` reads every camp's detail page. It builds one record per camp and writes the list of distinct places.
- `commute` estimates the daily commute to each place with four Google Distance Matrix queries.
- `report` adds three derived columns to the records: the commute, the number of days and the session id. It then applies seven filters and sorts the table by commute.

This project models the logic of those steps and proves what it promises.

| module | file | what it models |
|---|---|---|
| `Wrappers` | wrappers.dfy | `Option`, `Result` and `Outcome` values |
| `Text` | text.dfy | the fixed regular expressions the program searches with, `str.strip()` and `readlines()` |
| `Calendar` | calendar.dfy | `datetime.date` as a day number since 1970-01-01, and `date.weekday()` |
| `Seqs` | seqs.dfy | subsequences, and order-preserving de-duplication (`Series.unique`) |
| `Details` | details.dfy | utils_details.py: the `Camp` record, the field lookups on a page, `try_parse_url` and `fetch_details` |
| `Report` | report.dfy | utils_report.py: the derived columns, added in place to a `Frame` class, and the seven filters |
| `Commute` | commute.dfy | utils_commute.py: the routing day and its four queries, the early-exit sum, and the `load_commutes` check |
| `App` | app.dfy | camp.py: the places list of `details`, the commute map of `commute`, and the `report` chain and sort |

Modelling conventions:

- A detail page is a `Page` record holding the text fragments that the BeautifulSoup lookups return.
  - An element that is absent is `None`.
  - Reading the text of an absent element, or a regex group that did not match, is an error value. It stands for the exception Python raises there.
- Fetching is a function from a url to its page.
- A Distance Matrix answer is a function from a query to its status and duration.
- Today's date and the API key are parameters.
- The 9:00 and 16:00 marks of the commute queries are UTC, as the source builds them. Local time and daylight saving are not modelled.
- A date is an `int` day number. `DD/DD/202D` tokens are parsed month first, like `strptime('%m/%d/%Y')`.

Where the code and its documentation disagree, the model follows the code:

- "swim" is matched case-sensitively.
- A Sunday tomorrow moves the routing day to Tuesday.
- `report` reads commutes.json directly and never calls `load_commutes`, so a `null` commute reaches the table. `filter_commute` drops it there.
- Nothing checks that a camp's last day is not before its first.

## Model

| member | source | states |
|---|---|---|
| Text.FindSpec | utils_details.py:62 | `re.search` from a start index finds the leftmost match at or after it, and finds none only when no match exists |
| Text.Search | utils_details.py:77 | a search succeeds exactly when the pattern matches somewhere |
| Text.ContainsLiteral | utils_details.py:83-84 | a literal search, with or without IGNORECASE, succeeds exactly when the literal occurs at some index |
| Text.DigitRun | utils_details.py:61 | the greedy `\d+` run is a slice of digits that stops at the end of the text or at a non-digit |
| Text.CaptureDigits | utils_report.py:18 | a captured `(\d+)` group is non-empty and all digits |
| Text.CaptureDigitsSpec | utils_details.py:61-63 | the group is the maximal digit run after the leftmost prefix that is directly followed by a digit, and is missing exactly when there is no such prefix |
| Text.SkipSpaces | camp.py:60 | the scan of `lstrip` stops at the first character that is not whitespace, with only whitespace before it |
| Text.BackSpaces | camp.py:60 | the scan of `rstrip` stops after the last character that is not whitespace, with only whitespace after it |
| Text.StripSpec | camp.py:60 | `Strip`, that is `strip()`, keeps a slice of its input that neither starts nor ends with whitespace, and cuts off only whitespace on either side |
| Text.StrippedIsFixed | camp.py:60 | a string without surrounding whitespace is its own `strip()` |
| Text.StripIdempotent | camp.py:60 | stripping twice equals stripping once |
| Text.ReadJoinedLines | camp.py:57-58 | `ReadLines`: when no place holds a newline, `readlines()` of the file the places were written to gives each place with its newline, in order |
| Text.StripNewline | camp.py:60 | stripping a stripped line plus its newline gives back the line |
| Text.StripTrailingSpace | camp.py:60 | one more whitespace character at the end, such as a line's newline, does not change `strip()` |
| Calendar.Weekday | utils_commute.py:22 | `date.weekday()` lies in 0..6, computed from the proleptic Gregorian ordinal |
| Calendar.DayNumberCountsDays | utils_report.py:13 | 1970-01-01 is day 0 and a Thursday, and the day after a valid date is a valid date with the next day number, so day-number differences are `timedelta` days |
| Seqs.Unique | camp.py:34 | `unique()` has no duplicates and the same members as its input |
| Seqs.UniquePrefix | camp.py:34 | `unique()` keeps first-appearance order: the distinct values of a prefix come first |
| Seqs.SubsequenceOfSelf | utils_report.py:32 | a frame is a subsequence of itself, the case of a filter switched off by its flag |
| Details.ToDict | utils_details.py:26-37 | `to_dict` has exactly the eleven field keys |
| Details.ToDictRoundTrip | utils_details.py:26-37 | the record is read back unchanged from its `to_dict` |
| Details.FromDictRoundTrip | utils_details.py:26-37 | a dictionary with exactly the field keys that reads back as a record is that record's `to_dict` |
| Details.GetTitle | utils_details.py:52-53 | the title is the heading's text, and a missing heading raises |
| Details.GetDescription | utils_details.py:55-56 | the description is the paragraph's text, and a missing paragraph raises |
| Details.GetMinAge | utils_details.py:58-63 | only the two lookup errors are raised, and the age is never negative |
| Details.GetMinAgeSpec | utils_details.py:58-63 | without the age element the page raises; otherwise the age exists exactly when the pattern matches, and is the value of the digit run after the leftmost match |
| Details.ValidTokenAccepted | utils_details.py:67-68 | `ParseDate`: every token whose first field is a month and whose second is a day of that month parses to that date, month first, in a year 2020 to 2029 |
| Details.MonthOutOfRangeRejected | utils_details.py:67-68 | `ParseDate`: every token whose first field is 00 or above 12 is rejected as an invalid date |
| Details.DayOutsideMonthRejected | utils_details.py:67-68 | `ParseDate`: every token whose day is 00 or past the last day of its month is rejected as an invalid date |
| Details.LeapDay | utils_details.py:67-68 | `ParseDate`: February 29 of a year 202D parses exactly when the year is a leap year |
| Details.ParseDateIsMonthFirst | utils_details.py:67-68 | examples: "07/15/2024" is July 15, 2024, and "15/07/2024" is rejected |
| Details.ParseDateChecksCalendar | utils_details.py:67-68 | examples: "02/29/2024" parses, while "02/29/2023" and "06/31/2025" are rejected |
| Details.TokenAt | utils_details.py:71 | each `findall` match is a ten-character `DD/DD/202D` token |
| Details.GetDates | utils_details.py:65-72 | fewer than two panels and no match raise; a result comes from the first two non-overlapping matches, left to right, parsed as dates, with no order required between them |
| Details.GetDatesOfTokens | utils_details.py:65-72 | given the first two matches, `get_dates` succeeds exactly when both parse, and otherwise raises the first parse's error |
| Details.IsFullDay | utils_details.py:74-80 | with a second panel, the flag is true exactly when "9:00 AM - 4:00 PM" occurs in it; without one, the page raises |
| Details.GetSwim | utils_details.py:82-87 | true exactly when the lowercase literal "swim" occurs in the description |
| Details.SwimIsCaseSensitive | utils_details.py:82-87 | "Swim lessons" gives false and "Learn to swim" gives true |
| Details.IsSchool | utils_details.py:89-94 | true exactly when "school" occurs in the place in any letter case |
| Details.SchoolIsCaseless | utils_details.py:89-94 | "…Elementary SCHOOL" gives true and a place without the word gives false |
| Details.TryParseUrlSpec | utils_details.py:96-124 | `TryParseUrl`, that is `try_parse_url`, gives `None` exactly for a missing or empty place; otherwise a record exactly when every lookup succeeds, with `school`, `swim`, the dates, `full_day`, `available` and `url` taken from the lookups and the link |
| Details.Kept | utils_details.py:128-133 | no more records are kept than there are links |
| Details.KeptMembers | utils_details.py:132-133 | the kept records are exactly the non-`None` results |
| Details.KeptPrefix | utils_details.py:130-133 | link order is kept: the records of the first k links come first, and one record per link is kept when every page gives one |
| Details.ParseAll | utils_details.py:130-133 | the loop succeeds exactly when no page raises, then returns the kept records; otherwise it returns the error of the first page that raises |
| Details.FetchDetails | utils_details.py:126-134 | `fetch_details` on fetched pages: the non-`None` records in link order, at most one per link, or the first page's error |
| Report.CommuteColumn | utils_report.py:8-10 | the column exists exactly when every place is a key, and holds `commutes[place]` per row; otherwise the KeyError concerns the first missing place |
| Report.CommuteColumnFailsAt | utils_report.py:9 | the lookup fails on the first row whose place is missing |
| Report.Frame.AddCommute | utils_report.py:8-10 | sets the commute column as above, leaves the records and the other columns unchanged, and leaves the frame as it was on a KeyError |
| Report.NumDaysColumn | utils_report.py:12-15 | one entry per row, holding `last_day - first_day + 1` |
| Report.DayRange | utils_report.py:13 | the n days from a first day are the integers in that half-open range |
| Report.DayRangeSize | utils_report.py:13 | a range of n days holds n days |
| Report.NumDaysCountsCampDays | utils_report.py:12-15 | with the last day not before the first, `num_days` is the number of calendar days from the first to the last inclusive: at least 1, and 1 when the two are equal |
| Report.Frame.AddNumDays | utils_report.py:12-15 | sets the `num_days` column and changes nothing else |
| Report.ParseSession | utils_report.py:17-18 | a session id is non-empty and all digits |
| Report.ParseSessionSpec | utils_report.py:17-21 | the session id is the maximal digit run after the leftmost "session_id=" followed by a digit, and is missing exactly when there is none |
| Report.SessionColumn | utils_report.py:20-23 | the column exists exactly when every url has a session id, and holds each url's id; otherwise the error is the first url without one |
| Report.SessionColumnFailsAt | utils_report.py:22 | the column fails on the first url without a session id |
| Report.Frame.AddSession | utils_report.py:20-23 | sets the session column as above, changes nothing else, and leaves the frame as it was on error |
| Report.Frame.constructor | camp.py:108 | a frame read from camps.pkl holds the records and no derived column |
| Report.Apply | utils_report.py:26 | boolean indexing returns an order-preserving subsequence that holds exactly the rows passing the mask |
| Report.ApplyCount | utils_report.py:26 | every copy of a passing row is kept and every copy of a failing row is dropped |
| Report.ApplyAllPass | utils_report.py:28-47 | a mask every row passes returns the frame unchanged |
| Report.ApplyIdempotent | utils_report.py:25-53 | filtering twice equals filtering once |
| Report.ApplyCommutes | utils_report.py:25-53 | any two filters commute |
| Report.FilterCommute | utils_report.py:25-26 | keeps the rows whose commute is at most the maximum, dropping `null` commutes |
| Report.FilterSchools | utils_report.py:28-32 | with the flag set, keeps the non-school rows; otherwise returns the frame unchanged |
| Report.FilterFull | utils_report.py:34-38 | with `show_full`, returns the frame unchanged; otherwise keeps the available rows |
| Report.FilterAge | utils_report.py:40-41 | keeps the rows whose minimum age is at most the parameter, inclusive |
| Report.FilterHalfDay | utils_report.py:43-47 | with the flag set, keeps the full-day rows; otherwise returns the frame unchanged |
| Report.FilterFirstDay | utils_report.py:49-50 | keeps the rows whose first day equals the parameter |
| Report.FilterLastDay | utils_report.py:52-53 | keeps the rows whose last day equals the parameter |
| Report.FiltersAreApply | utils_report.py:25-53 | each of the seven functions is its filter's mask applied to the frame, so idempotence and commutation carry over to them |
| Commute.DtToSeconds | utils_commute.py:6-7 | the epoch seconds of hour h of a day divide back into that day and h hours |
| Commute.DtToSecondsSpacing | utils_commute.py:25-26 | the 16:00 UTC mark is 25200 seconds after the 9:00 UTC mark, and a day adds 86400 |
| Commute.CommuteDay | utils_commute.py:21-23 | the routing day is a weekday 1 to 3 days after today, and is tomorrow exactly when tomorrow is a weekday |
| Commute.CommuteDayAfterWeekend | utils_commute.py:22-23 | a Saturday tomorrow gives Monday, and a Sunday tomorrow gives Tuesday, skipping the Monday right after it |
| Commute.CommuteLegs | utils_commute.py:14-52 | four legs, home to camp and back at 9:00 UTC and then at 16:00 UTC; each avoids tolls, carries the key, and has exactly one of arrival and departure time |
| Commute.GetCommuteParams | utils_commute.py:9-54 | the list built by the four appends is the four legs of the routing day |
| Commute.Queried | utils_commute.py:62-67 | the queries sent are a prefix of the legs: all of them, or up to and including the first that is not "OK" |
| Commute.QueriedPrefix | utils_commute.py:62-67 | with every leg before i "OK", the queries stop at leg i if it is not "OK" |
| Commute.EstimateNonNegative | utils_commute.py:65-69 | `Estimate`: with no negative duration, the total and the minutes are not negative |
| Commute.QueryLegs | utils_commute.py:60-69 | the loop returns `Estimate` of the legs: `None` when some leg is not "OK" and the floor of total seconds over 60 otherwise, and sends exactly the queries above |
| Commute.CalculateCommute | utils_commute.py:56-69 | `calculate_commute` for a place is the estimate over the four legs of the routing day, sending no query after the first that is not "OK" |
| Commute.LoadCommutes | utils_commute.py:79-88 | the table is returned unchanged exactly when every value is truthy; otherwise the error names a place whose value is `null` or 0 |
| App.Places | camp.py:34 | with records, the places list has no duplicates and holds exactly the records' places; with none, the lookup raises |
| App.PlacesKeepFirstAppearance | camp.py:34 | places keep first-appearance order: the places of the first k records come first |
| App.WritePlaces | camp.py:35-37 | places.txt is each place followed by a newline, in order |
| App.DetailsCommand | camp.py:29-37 | `details` succeeds exactly when no page raises and some record is kept, and returns the kept records and the text of places.txt |
| App.PlacesFileRoundTrip | camp.py:57-60 | reading back and stripping places.txt gives back a list of stripped, newline-free places |
| App.StrippedLines | camp.py:57-60 | one stripped entry per line of the file |
| App.CommutesFor | camp.py:62-66 | the map has one key per place, each mapped to `calculate_commute` of that place |
| App.BuildCommutes | camp.py:57-66 | the map has one key per stripped line of places.txt, each mapped to that place's estimate from the given home |
| App.CommuteCommandAsWritten | camp.py:43-66 | as written, every estimate is routed from the default home |
| App.CommuteCommand | camp.py:43-66 | with the address passed on, every estimate is routed from `home_address` |
| App.HomeAddressIgnored | camp.py:66 | for any other address, the first leg as written starts at the default home and not at the address |
| App.ReportDefaults | camp.py:73-79 | the options default to min_age 5, max_commute 120, remove_half_day and remove_schools true, and show_full false |
| App.ApplyAllSpec | camp.py:113-124 | a chain of filters keeps exactly the rows that pass all of them, with every copy |
| App.ActiveIsPassesAll | camp.py:113-124 | passing the seven filters of the chain is the same as satisfying every active condition |
| App.ApplyAllStep | camp.py:113-124 | a chain is its first filter followed by the rest |
| App.FilterChainIsApplyAll | camp.py:117-123 | `FilterChain`, the `.pipe` chain, is the seven filters applied in camp.py's order |
| App.Insert | camp.py:126 | an insertion adds the row to the multiset and loses nothing |
| App.InsertSorted | camp.py:126 | insertion into a sorted table keeps it sorted |
| App.SortByCommute | camp.py:126 | `sort_values('commute')` is a permutation in ascending commute order, with missing commutes last |
| App.ReportTableSpec | camp.py:113-126 | `ReportTable`: the table exists exactly when every place has a commute and every url a session id; then row i of the frame holds record i with its commute, its `num_days` and its session id, each table row satisfies every active filter, each frame row that does is kept with all its copies, nothing else is, and the rows are sorted by commute |
| App.EmptyReport | camp.py:113-126 | when no row satisfies the active filters and nothing raises, the table is empty |
| App.PaddedPlaceRaises | utils_report.py:9 | as written, a record whose place has surrounding whitespace is not a key of commutes.json, and `report` raises a KeyError for a missing place |
| App.StripPlaces | utils_report.py:9 | the records with each place replaced by its `strip()`, record for record |
| App.StrippedLookupFindsPlaces | utils_report.py:9 | looking up the stripped place, every record of a `details` run whose places hold no newline finds its commute |
| App.ReportCommand | camp.py:108-126 | `report` with the three columns added in place to a frame gives the table above |

## Left out

- HTTP: `httpx` requests are not modelled. A page is given by a fetch function, and a query's answer by a response function. Both are deterministic, so two fetches of one url give the same page.
- BeautifulSoup: the DOM lookups are replaced by the located fragments of `Page`. `is_class_available` is the `enrollButton` field. A heading found but empty gives the empty string as its text, and `if not place` turns that into `None`, as it does a missing heading.
- Distance Matrix responses: only the first element's status and duration are modelled. A response without `rows` or `elements` raises KeyError or IndexError in the source, and that is not modelled.
- General regular expressions: only the fixed patterns the program uses are modelled. `\d` is ASCII digits only; Python's `\d` also matches other Unicode decimal digits.
- `readlines()`: the model splits at `\n` only. Universal-newline translation of `\r` and `\r\n` is not modelled.
- Text.ReadJoinedLines, App.PlacesFileRoundTrip: the round trip through places.txt is proved only for places that hold no newline, and, after stripping, only for places that are already stripped. `try_place` returns the heading text as it is, so a place holding a newline reads back as several lines, and a padded place reads back stripped (see Findings).
- pandas and files: pickle, CSV and JSON reading and writing, and `save_commutes`, are not modelled. A frame is a sequence of records.
  - A JSON value in commutes.json other than an integer or `null` is not modelled.
  - `report` on a camps.pkl with no records: the source indexes columns that such a frame lacks and raises KeyError. The model returns an empty table.
  - `details` writes camps.pkl before the places lookup that raises for zero records. The model returns only the error.
- The typer command line, file-existence checks, `strptime` of the command-line dates, `print`, `tqdm` and `Path.mkdir` are not modelled. Today's date and `MAP_API_KEY` are parameters.
- `write_table`: the HTML it generates is not modelled.
- The default parameter values of the individual `filter_*` functions are not modelled. `report` always passes every option.
- Report.FilterCommute, App.SortByCommute: pandas `NaN` is modelled as `None`, and no `None` reaches the sort, since `filter_commute` removes them first.
- App.SortByCommute: the order of rows with equal commutes is not stated, because `sort_values` does not promise a stable sort.
- Commute.LoadCommutes: states that the error names *some* place with a falsy value, not the first in the file's key order, because dict order is not modelled.
- App.CommutesFor: a place listed twice gets its entry written twice. It is modelled as the same value both times, since responses are a function of the query.
- Details.GetDates, Report.NumDays: a camp whose last day is before its first is accepted, and gets a `num_days` of zero or less, as in the source.

## Findings

| source | as written | input that shows it | evidently intended | confidence | as-written member | corrected member |
|---|---|---|---|---|---|---|
| camp.py:66 | `commute` calls `calculate_commute` with the place only, so its `home_address` option is never used | `commute --home-address "1 Main St, Reston, VA"`: every leg still starts or ends at 4440 Miniature Ln, Fairfax, VA 22033 | the estimates are routed from `home_address` | not executed | App.CommuteCommandAsWritten, App.HomeAddressIgnored | App.CommuteCommand |
| utils_details.py:48, camp.py:60, utils_report.py:9 | `details` keeps the place heading's text unstripped, `commute` keys commutes.json by the stripped lines of places.txt, and `report` looks up the unstripped place | a place heading whose text is " Oak Hill": its key is "Oak Hill", and `report` raises KeyError: ' Oak Hill' | places and keys agree, for example by looking up `place.strip()` | not executed | App.PaddedPlaceRaises | App.StripPlaces, App.StrippedLookupFindsPlaces |
