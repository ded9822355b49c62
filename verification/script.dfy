/** The script flow of `weather_API.py`: a date that must pass the check, a history file
    whose non-null value for that date is reused, a fetch otherwise, the verdict, and the
    file rewritten only when the verdict could be computed. */
module Script {
  import opened Wrappers
  import opened Calendar
  import opened DateText
  import opened Api
  import opened Verdicts
  import History

  /** The map after the cache step, the value the verdict is read from, and the requests issued. */
  datatype Lookup = Lookup(data: map<string, Entry>, req: Entry, issued: seq<Request>)

  /** The outcome of a run that got past the date check; `saved` is the history file
      afterwards (`None`: there is still no file). */
  datatype ScriptRun = ScriptRun(lookup: Lookup, verdict: Result<Verdict, ReadError>,
                                 saved: Option<map<string, Entry>>)

  /** `dict.get`: the value under `key`, or `None` (JSON `null`) when the key is absent. */
  function Get(m: map<string, Entry>, key: string): Entry {
    if key in m then m[key] else NullEntry
  }

  /** `data.get(date) is not None`: the file exists and holds a non-null value for `key`. */
  function Cached(stored: Option<map<string, Entry>>, key: string): (c: bool)
    ensures c <==> stored.Some? && key in stored.value && stored.value[key] != NullEntry
  {
    stored.Some? && Get(stored.value, key) != NullEntry
  }

  /** The cache step: reuse a non-null stored value, otherwise fetch and store the result
      (even a `None` result, as `null`) under `key`; a missing file starts an empty map. */
  function CacheStep(stored: Option<map<string, Entry>>, key: string, request: Request,
                     fetch: Request -> Option<Payload>): (r: Lookup)
    ensures r.issued == [] <==> Cached(stored, key)
    ensures Cached(stored, key) ==> r.data == stored.value && r.req == stored.value[key]
    ensures !Cached(stored, key) ==> r.issued == [request] && r.req == EntryOf(fetch(request))
    ensures key in r.data && r.data[key] == r.req
    ensures r.data.Keys == (if stored.Some? then stored.value.Keys else {}) + {key}
    ensures forall k :: k in r.data && k != key ==> stored.Some? && r.data[k] == stored.value[k]
  {
    match stored
    case None =>
      var e := EntryOf(fetch(request));
      Lookup(map[key := e], e, [request])
    case Some(m) =>
      if key in m && m[key] != NullEntry then
        Lookup(m, m[key], [])
      else
        var e := EntryOf(fetch(request));
        Lookup(m[key := e], e, [request])
  }

  /** The verdict read from the value the cache step produced. */
  function VerdictOf(e: Entry): (r: Result<Verdict, ReadError>)
    ensures r.Success? <==> Volume(e).Success?
  {
    match Volume(e)
    case Success(v) => Success(Classify(v))
    case Failure(err) => Failure(err)
  }

  /** One run of the script: `stored` is the history file before the run (`None` when
      it does not exist), `input` the typed date, `at` the place. */
  function RunScript(stored: Option<map<string, Entry>>, input: string, at: Coordinates,
                     fetch: Request -> Option<Payload>): (r: Result<ScriptRun, DateError>)
    ensures r.Failure? <==> !CheckDate(input)
    ensures r.Failure? ==> r.error == InvalidDate
    ensures r.Success? ==> r.value.lookup == CacheStep(stored, input, Request(at, input), fetch)
    ensures r.Success? ==> r.value.verdict == VerdictOf(r.value.lookup.req)
    ensures r.Success? ==> r.value.lookup.issued == [] || r.value.lookup.issued == [Request(at, input)]
    ensures r.Success? ==> r.value.lookup.data.Keys
                           == (if stored.Some? then stored.value.Keys else {}) + {input}
    ensures r.Success? ==> (r.value.verdict.Success? <==> Volume(r.value.lookup.req).Success?)
    ensures r.Success? && r.value.verdict.Success? ==> r.value.saved == Some(r.value.lookup.data)
    ensures r.Success? && r.value.verdict.Failure? ==> r.value.saved == stored
  {
    match Parse(input)
    case None => Failure(InvalidDate)
    case Some(searched) =>
      FormatParse(input);
      var l := CacheStep(stored, input, Request(at, Format(searched)), fetch);
      var verdict := VerdictOf(l.req);
      Success(ScriptRun(l, verdict, if verdict.Success? then Some(l.data) else stored))
  }

  /** A missing file: exactly one fetch, and the new map holds only the input date. */
  lemma MissingFile(input: string, at: Coordinates, fetch: Request -> Option<Payload>)
    requires CheckDate(input)
    ensures RunScript(None, input, at, fetch).Success?
    ensures var l := RunScript(None, input, at, fetch).value.lookup;
      l.issued == [Request(at, input)] && l.data == map[input := EntryOf(fetch(Request(at, input)))]
  {
  }

  /** A run that produced a verdict makes the next run for the same date string fetch
      nothing and repeat the verdict, at any place and whatever the service would answer. */
  lemma RepeatIsCached(stored: Option<map<string, Entry>>, input: string, first: Coordinates,
                       second: Coordinates, fetch: Request -> Option<Payload>,
                       later: Request -> Option<Payload>)
    requires RunScript(stored, input, first, fetch).Success?
    requires RunScript(stored, input, first, fetch).value.verdict.Success?
    ensures var r := RunScript(stored, input, first, fetch).value;
      var again := RunScript(r.saved, input, second, later);
      again.Success? && again.value.lookup.issued == [] && again.value.verdict == r.verdict
  {
  }

  /** The two tools read a `null` under a date differently. Neither tool saves one
      (`SavesOnlyReadableReplies`), so it can only come from a file written some other
      way; the class, which tests key membership, treats it as a hit and fetches nothing,
      while the script treats it as a miss and fetches. */
  lemma NullEntryIsReadDifferently(m: map<string, Entry>, input: string, at: Coordinates,
                                   today: Date, fetch: Request -> Option<Payload>,
                                   show: real -> string)
    requires Valid(today) && CheckDate(input)
    requires input in m && m[input] == NullEntry
    ensures History.GetForecast(m, input, at, today, fetch, show).issued == []
    ensures RunScript(Some(m), input, at, fetch).value.lookup.issued == [Request(at, input)]
  {
  }

  /** A verdict sentence the class stored is reused by the script as if it were a reply,
      so the script fails to read it and leaves the file unchanged. */
  lemma StoredSentenceIsUnreadable(m: map<string, Entry>, input: string, at: Coordinates,
                                   fetch: Request -> Option<Payload>)
    requires CheckDate(input)
    requires input in m && m[input].Message?
    ensures var r := RunScript(Some(m), input, at, fetch).value;
      r.lookup.issued == [] && r.verdict == Failure(Malformed) && r.saved == Some(m)
  {
  }

  /** The script never writes a `null` or an unreadable value to the file: every entry of
      the file after a run either was already there or is the reply the verdict was read from. */
  lemma SavesOnlyReadableReplies(stored: Option<map<string, Entry>>, input: string,
                                 at: Coordinates, fetch: Request -> Option<Payload>)
    requires RunScript(stored, input, at, fetch).Success?
    ensures var saved := RunScript(stored, input, at, fetch).value.saved;
      saved.Some? ==> forall k :: k in saved.value ==>
        (stored.Some? && k in stored.value && saved.value[k] == stored.value[k])
        || Volume(saved.value[k]).Success?
  {
  }
}
