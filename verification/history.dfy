/** `WeatherForecast.get_forecast`: the class-level history consulted before any request,
    and written with the verdict sentence after a successful one. */
module History {
  import opened Wrappers
  import opened Calendar
  import opened DateText
  import opened Api
  import opened Verdicts

  /** The exception a `get_forecast` call ends with instead of writing the history. */
  datatype Fault = BadDate(dateError: DateError) | BadReply(readError: ReadError)

  /** The history after one call, the requests the call issued, and its exception, if any. */
  datatype Run = Run(history: map<string, Entry>, issued: seq<Request>, fault: Option<Fault>)

  /** The miss path once the date has passed `set_date`: one request, then the history
      gains the verdict sentence under `key`, unless reading the reply raises first. */
  function Complete(history: map<string, Entry>, key: string, req: Request,
                    fetch: Request -> Option<Payload>, show: real -> string): (r: Run)
    ensures r.issued == [req]
    ensures r.fault.None? <==> Volume(EntryOf(fetch(req))).Success?
    ensures r.fault.Some? ==> r.history == history
    ensures r.fault.None? ==> r.history.Keys == history.Keys + {key} && r.history[key].Message?
    ensures forall k :: k in history && k != key ==> r.history[k] == history[k]
  {
    match Volume(EntryOf(fetch(req)))
    case Failure(e) => Run(history, [req], Some(BadReply(e)))
    case Success(v) => Run(history[key := Message(Sentence(Classify(v), show))], [req], None)
  }

  /** `get_forecast` as written: on a miss, `weather_request` validates the date through
      `set_date` but then puts the raw `self.date` into the URL. */
  function GetForecastAsWritten(history: map<string, Entry>, date: string, at: Coordinates,
                                today: Date, fetch: Request -> Option<Payload>,
                                show: real -> string): (r: Run)
    requires Valid(today)
    ensures date in history ==> r == Run(history, [], None)
    ensures r.fault.Some? ==> r.history == history
    ensures date !in history && !CheckDate(date) && !IsBlank(date) ==>
      r == Run(history, [], Some(BadDate(InvalidDate)))
    ensures date !in history && (CheckDate(date) || IsBlank(date)) && today != LastDate ==>
      r.issued == [Request(at, date)]
    // a successful miss adds exactly the raw date key, holding the verdict sentence
    ensures date !in history && r.fault.None? ==>
      && |r.issued| == 1
      && Volume(EntryOf(fetch(r.issued[0]))).Success?
      && r.history.Keys == history.Keys + {date}
      && r.history[date] == Message(Sentence(Classify(Volume(EntryOf(fetch(r.issued[0]))).value), show))
    ensures forall k :: k in r.history && k != date ==> k in history && r.history[k] == history[k]
  {
    if date in history then
      Run(history, [], None)
    else
      match SetDate(date, today)
      case Failure(e) => Run(history, [], Some(BadDate(e)))
      case Success(_) => Complete(history, date, Request(at, date), fetch, show)
  }

  /** `get_forecast` with the request dated by the date `set_date` resolved, so that a
      blank input asks for tomorrow. The history is keyed by the raw input string and
      never by the coordinates. */
  function GetForecast(history: map<string, Entry>, date: string, at: Coordinates,
                       today: Date, fetch: Request -> Option<Payload>,
                       show: real -> string): (r: Run)
    requires Valid(today)
    // a hit issues no request and changes nothing
    ensures date in history ==> r == Run(history, [], None)
    ensures |r.issued| <= 1
    ensures r.issued != [] ==> r.issued[0].at == at && CheckDate(r.issued[0].startDate)
    // a date the check rejects raises before any request or write
    ensures date !in history && !CheckDate(date) && !IsBlank(date) ==>
      r == Run(history, [], Some(BadDate(InvalidDate)))
    // a failed call leaves the history as it was
    ensures r.fault.Some? ==> r.history == history
    // a successful miss adds exactly the raw date key, holding the verdict sentence
    ensures date !in history && r.fault.None? ==>
      && |r.issued| == 1
      && Volume(EntryOf(fetch(r.issued[0]))).Success?
      && r.history.Keys == history.Keys + {date}
      && r.history[date] == Message(Sentence(Classify(Volume(EntryOf(fetch(r.issued[0]))).value), show))
    ensures forall k :: k in history ==> k in r.history
    ensures forall k :: k in r.history && k != date ==> k in history && r.history[k] == history[k]
  {
    if date in history then
      Run(history, [], None)
    else
      match SetDate(date, today)
      case Failure(e) => Run(history, [], Some(BadDate(e)))
      case Success(d) =>
        ParseFormat(d);
        Complete(history, date, Request(at, Format(d)), fetch, show)
  }

  /** On every date the check accepts, the corrected request is the request as written. */
  lemma CorrectionOnlyTouchesBlankDates(history: map<string, Entry>, date: string, at: Coordinates,
                                        today: Date, fetch: Request -> Option<Payload>,
                                        show: real -> string)
    requires Valid(today)
    requires !IsBlank(date)
    ensures GetForecastAsWritten(history, date, at, today, fetch, show)
         == GetForecast(history, date, at, today, fetch, show)
  {
  }

  /** As written, a blank date reaches the network as a blank `start_date`, which is
      no date at all. */
  lemma BlankRequestAsWritten(history: map<string, Entry>, date: string, at: Coordinates,
                              today: Date, fetch: Request -> Option<Payload>,
                              show: real -> string)
    requires Valid(today) && today != LastDate
    requires date !in history && IsBlank(date)
    ensures GetForecastAsWritten(history, date, at, today, fetch, show).issued == [Request(at, date)]
    ensures !CheckDate(GetForecastAsWritten(history, date, at, today, fetch, show).issued[0].startDate)
  {
  }

  /** Corrected, a blank date requests the forecast of tomorrow, while the result is
      still stored under the blank string. */
  lemma BlankRequestCorrected(history: map<string, Entry>, date: string, at: Coordinates,
                              today: Date, fetch: Request -> Option<Payload>,
                              show: real -> string)
    requires Valid(today) && today != LastDate
    requires date !in history && IsBlank(date)
    ensures GetForecast(history, date, at, today, fetch, show).issued
         == [Request(at, Format(NextDay(today)))]
    ensures GetForecast(history, date, at, today, fetch, show).fault.None? ==>
      date in GetForecast(history, date, at, today, fetch, show).history
  {
  }

  /** After a successful call, asking again for the same date string performs no fetch,
      even from another place: the answer for `first` is reused for `second`. */
  lemma RepeatIsCached(history: map<string, Entry>, date: string, first: Coordinates,
                       second: Coordinates, today: Date, fetch: Request -> Option<Payload>,
                       later: Request -> Option<Payload>, show: real -> string)
    requires Valid(today)
    requires GetForecast(history, date, first, today, fetch, show).fault.None?
    ensures var r := GetForecast(history, date, first, today, fetch, show);
      GetForecast(r.history, date, second, today, later, show) == Run(r.history, [], None)
  {
  }

  /** The blank key outlives the day it was written for: once a blank input has been
      answered, a blank input on any later day is a hit and fetches nothing, so the
      stored answer is for the first day's tomorrow, not the current one. */
  lemma BlankAnswerIsReused(history: map<string, Entry>, blank: string, at: Coordinates,
                            first: Date, later: Date, fetch: Request -> Option<Payload>,
                            show: real -> string)
    requires Valid(first) && Valid(later) && IsBlank(blank)
    requires GetForecast(history, blank, at, first, fetch, show).fault.None?
    ensures var r := GetForecast(history, blank, at, first, fetch, show);
      GetForecast(r.history, blank, at, later, fetch, show) == Run(r.history, [], None)
  {
  }
}
