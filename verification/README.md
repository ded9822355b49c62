# Rain forecast tools: date rule, verdict and forecast history

Two small Python tools answer "will it rain on date D?": a class, `WeatherForecast`
(`weather_class.py`), and a script (`weather_API.py`). This project models their pure
core in Dafny:

- **The date rule.** A date string is accepted only when it is the zero-padded `YYYY-MM-DD`
  rendering of a real Gregorian date. This is the full-date form of section 5.6 of RFC 3339,
  with the day-of-month and leap-year limits of its section 5.7, and years 0001 to 9999
  as in Python's `datetime`. A blank input resolves to tomorrow. Tomorrow is computed
  the way Python adds `timedelta(days=1)`: from the day number (`toordinal`) plus one,
  which overflows after 9999-12-31. (Modules `Calendar`, `DateText`.)
- **The rain verdict.** A volume of exactly 0 gives "It will not rain.", any other volume
  of at least 0 gives "It will rain." with the volume, and anything else gives
  "I don't know.". (Module `Verdicts`.)
- **The forecast history.** This is a map from the *raw* typed date string to a JSON value.
  The class checks key membership and fetches only on a miss. The script reuses a value
  only when it is not `null`. The place never enters the key. The forecast service is an
  abstract function from a request to an optional reply, and each operation reports the
  requests it issued, so "no fetch on a hit" is a checked property. (Modules `Api`,
  `History`, `Script`.)

Inputs the source takes from the outside world are parameters: `today` stands for
`datetime.now().date()`, `fetch` for the HTTP request, `show` for Python's rendering of a
float inside an f-string, and the coordinates for the geolocation result. The history
file is the map it holds; `None` means the file is absent.

Behaviours of the source worth knowing, all modelled as the code has them:

- A reply with no usable number ends the call with an exception. Examples are no reply,
  a missing `daily.precipitation_sum`, an empty list or a `null` first value. The subscript
  or the comparison raises before the history is written, so the verdict "I don't know."
  is reached only for a negative volume (`Api.Volume`, `ReadError`).
- The class stores verdict sentences; the script keeps raw replies in its map and writes
  the file only after a verdict was read, so neither tool ever writes a `null`
  (`Script.SavesOnlyReadableReplies`). Both tools use the same file name. The script
  reuses a sentence left by the class and cannot read it
  (`Script.StoredSentenceIsUnreadable`). A `null` put into the file some other way is a
  hit for the class and a miss for the script (`Script.NullEntryIsReadDifferently`).
- The script's docstring (weather_API.py:2) promises the weather of the next day when no
  date is entered, but the script has no such default. Any date the check rejects, the
  blank one included, ends the run before the cache is touched. In the source this
  happens through a `NameError` on the undefined `searched_date` (weather_API.py:114).
- The history key is the raw input, so a blank input is stored under that exact blank
  string and answers every later input of the same blank string
  (`History.BlankAnswerIsReused`); a different blank string, such as " " after "", is
  a separate key and a miss.

## Model

| member | source | states |
|---|---|---|
| Calendar.NextDay | weather_class.py:45-48 | the day after a valid date other than 9999-12-31 is a valid date whose day number is one more, rolling over month and year ends |
| Calendar.OrdinalRange | weather_class.py:47 | day numbers of valid dates lie in 1..3652059, and only 9999-12-31 has the largest, so only it overflows when a day is added |
| Calendar.OrdinalOrder | weather_class.py:47 | the day number orders dates exactly as the calendar does, and equal day numbers mean equal dates, so "day number plus one" names a single date |
| Calendar.NextDayIsSuccessor | weather_class.py:45-48 | a date is after `d` exactly when it is tomorrow or after tomorrow: no date lies in between |
| Calendar.LeapDayRollover | weather_class.py:47 | adding a day reaches February 29 only in leap years; from February 28 it reaches February 29 in leap years and March 1 otherwise |
| Calendar.EndRollover | weather_class.py:47 | the next day is the 1st exactly after a month's last day, and it is in the next year exactly after December 31, falling on January 1 |
| Calendar.YearsIncrease | weather_class.py:47 | every day of a year precedes the start of every later year under the closed-form year count |
| DateText.Format | weather_class.py:35 | the rendering is ten characters, digits with dashes at positions 4 and 7, whose three digit fields denote the year, the month and the day of the date |
| DateText.Parse | weather_class.py:33-43 | the strict parse succeeds only on ten-character strings with dashes at positions 4 and 7, and only with a valid date |
| DateText.CheckDate | weather_class.py:30-37 | when the check holds, the input parses and re-rendering the parsed date gives back exactly the input |
| DateText.ParseFormat | weather_class.py:41-44 | parsing the canonical rendering of a valid date gives back that date |
| DateText.FormatParse | weather_class.py:33-35 | any string the strict parser accepts equals the rendering of the date it returns |
| DateText.FormatInjective | weather_class.py:35 | two valid dates have the same rendering only if they are the same date |
| DateText.CheckDateIsCanonical | weather_class.py:30-37 | the check accepts a string if and only if it is the rendering of some valid date |
| DateText.RejectedShapes | weather_API.py:48-56 | "2024-1-5", "01-01-2030" and " 2024-01-05" are rejected: unpadded fields, day-first order and surrounding spaces do not re-render to the input |
| DateText.RejectsThirtyFirstOfApril | weather_API.py:48-56 | "2024-04-31" is rejected: the day lies beyond the month's end |
| DateText.RejectsYearZero | weather_class.py:30-37 | "0000-01-01" is rejected: there is no year zero among Python's dates |
| DateText.AcceptsLeapDay | weather_class.py:30-37 | "2024-02-29" is accepted: a leap day of a leap year |
| DateText.RejectsLeapDayOfCommonYear | weather_API.py:48-56 | "2023-02-29" is rejected |
| DateText.PadDigitsValue | weather_class.py:35 | zero-padding a number that fits the width keeps its value |
| DateText.ValuePadDigits | weather_class.py:35 | each digit string, leading zeros included, is the padding of its own value |
| DateText.IsWhitespace | weather_class.py:45 | a character is whitespace exactly when its code point is one of the 29 for which Python's `str.isspace` holds; no such character is a digit or a dash |
| DateText.IsBlank | weather_class.py:45 | `strip()` of the input is empty exactly when every character of it is whitespace |
| DateText.BlankIsNotADate | weather_class.py:41-45 | no blank string passes the check, so the order of the two tests does not matter |
| DateText.SetDate | weather_class.py:39-50 | an accepted string yields the date it renders; a blank one yields the date one day after today, or an overflow on the last date; anything else yields `InvalidDate` |
| DateText.SetDateRoundTrip | weather_class.py:41-44 | `set_date` on the rendering of a valid date returns that date, whatever today is |
| DateText.BlankIsTomorrow | weather_class.py:45-48 | for a blank input, the date returned is exactly the valid date whose day number is today's plus one |
| Api.Volume | weather_class.py:121 | a volume is read exactly when the value is a reply whose `daily.precipitation_sum` has a numeric first element, and it is that element; a missing reply is the only source of `NoPayload` |
| Verdicts.Classify | weather_class.py:123-128 | zero exactly gives no rain, a positive volume gives rain carrying that volume, a negative one gives "don't know" |
| Verdicts.SentenceDeterminesVerdict | weather_class.py:123-128 | equal sentences come from verdicts of the same kind, and from rain volumes that render the same |
| Verdicts.Sentence | weather_class.py:123-128 | the sentence is the no-rain text exactly for no rain, the don't-know text exactly for "don't know", and starts with the rain prefix exactly for rain |
| Verdicts.SentenceOfVolume | weather_class.py:123-128 | the sentence is the no-rain text iff the volume is 0, the don't-know text iff it is negative, and starts with the rain prefix iff it is positive |
| History.GetForecastAsWritten | weather_class.py:115-137 | the method as written: a hit changes nothing and fetches nothing; a rejected date raises before any request; a miss sends the raw date string as `start_date`; a successful miss adds exactly the raw date key with the verdict sentence and keeps every other entry |
| History.GetForecast | weather_class.py:115-132 | a hit issues no request and changes nothing; a rejected date raises with no request and no write; a failure leaves the history as it was; a successful miss adds exactly the raw date key with the verdict sentence and keeps every other entry |
| History.CorrectionOnlyTouchesBlankDates | weather_class.py:136-137 | for every non-blank input, the corrected method and the method as written behave identically |
| History.BlankRequestAsWritten | weather_class.py:137 | as written, a blank input on a miss sends a request whose `start_date` is the blank string, which is not a date |
| History.BlankRequestCorrected | weather_class.py:136 | corrected, a blank input requests tomorrow's rendering, and the answer is stored under the blank string |
| History.RepeatIsCached | weather_class.py:116-117 | after a successful call, a second call for the same date string fetches nothing and changes nothing, even at another place |
| History.BlankAnswerIsReused | weather_class.py:116-117 | once a blank input has been answered, a later input of the same blank string, on any day, is a hit and fetches nothing, so the stored answer is not refreshed |
| Script.Cached | weather_API.py:122 | `data.get(date) is not None` holds exactly when the file exists, has the date as a key, and holds a non-null value under it |
| Script.CacheStep | weather_API.py:118-132 | a fetch happens exactly when the file is missing or holds no non-null value for the date; the fetched value (`null` included) is stored under the date, every other key keeps its value, and a missing file yields a map with that one key |
| Script.RunScript | weather_API.py:85-151 | a rejected date ends the run before the cache; otherwise the request is for the typed date at the given place, and the file is rewritten with the new map only when a verdict was produced |
| Script.MissingFile | weather_API.py:128-132 | with no file, one fetch is made and the map is exactly the input date mapped to its result |
| Script.RepeatIsCached | weather_API.py:122-123 | after a run that produced a verdict, the next run for the same date fetches nothing and gives the same verdict, at any place |
| Script.NullEntryIsReadDifferently | weather_API.py:122-127 | a `null` under a date, which neither tool writes, is a hit for the class (no request) and a miss for the script (one request for that date) |
| Script.StoredSentenceIsUnreadable | weather_API.py:122-123 | a sentence written by the class is reused by the script, which cannot read it, and the file stays as it was |
| Script.SavesOnlyReadableReplies | weather_API.py:127-151 | every entry of the file after a run was already there or is a reply whose volume can be read; in particular a failed fetch is never saved as `null` |

## Left out

- Geolocation (`get_ip_geolocation`, `get_name_geolocation`, `set_location`) is a thin layer over a network library; coordinates are a parameter. In the class, the named-place path reads `self.latitude` before anything assigns it, so it fails rather than falling back to the IP lookup.
- Building the URL and issuing the HTTP request (`weather_request`) are network I/O. The request is the `Request` value handed to the abstract `fetch`. The distinct exception handlers all end in `None`.
- Loading and saving the JSON history file are file I/O. Only "absent file means empty map" is modelled. A file that is not valid JSON is not modelled, and neither is a failing write (the source prints a message and keeps the in-memory map).
- `datetime.now()` is the `today` parameter. The parser of `dateutil` is not modelled: acceptance is characterised by the canonical rendering, and exceptions it raises but the code does not catch are out of scope.
- DateText.Format: renders years below 1000 with leading zeros, as section 5.6 of RFC 3339 does; the `strftime` of some platforms does not pad such years, and on those the source rejects "0999-01-01" but passes "999-01-01" through the check (the three-digit year re-renders unpadded), after which the `strptime` at weather_class.py:43 and weather_API.py:87 raises `ValueError`; the model rejects "999-01-01".
- `__setitem__`, `__getitem__` and `__next__` cannot be called as written: the first two have unusable signatures, and `__next__` reads an undefined `self.keys`. `items` only passes through the dictionary's pairs.
- Verdicts.Classify: a `real` has no NaN; in the source a NaN volume fails both comparisons and gives "I don't know.".
- Verdicts.Sentence: the rendering of a float inside an f-string is the `show` parameter, not a model of Python's float formatting.
- Console prompts and printed messages are not modelled. This includes the class's hit branch, which looks the entry up and discards it.

## Findings

| source | as written | input that shows it | evidently intended | confidence | as-written member | corrected member |
|---|---|---|---|---|---|---|
| weather_class.py:136-137 | `weather_request` resolves the date with `set_date` but builds the URL from the raw `self.date` | a blank date not yet in the history: the request's `start_date` and `end_date` are the blank string, not tomorrow | request the date `set_date` resolved (tomorrow for a blank input), as the script does with `searched_date`; the answer is still stored under the blank key, so later inputs of the same blank string reuse it (`History.BlankAnswerIsReused`) and the correction only fixes the first day | high, not executed | History.GetForecastAsWritten, History.BlankRequestAsWritten | History.GetForecast, History.BlankRequestCorrected |
