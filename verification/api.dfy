/** The forecast service as the tools see it: the request they issue, the part of the
    JSON reply they read, and the values the history file can hold for a date. */
module Api {
  import opened Wrappers

  /** A (latitude, longitude) pair in degrees. */
  datatype Coordinates = Coordinates(latitude: real, longitude: real)

  /** One forecast query; the URL sets both `start_date` and `end_date` to `startDate`. */
  datatype Request = Request(at: Coordinates, startDate: string)

  /** One element of `daily.precipitation_sum`: a number or JSON `null`. */
  datatype Sample = Number(value: real) | Null

  /** The reply body, reduced to `daily.precipitation_sum`; `None` when either key is missing. */
  datatype Payload = Payload(precipitationSum: Option<seq<Sample>>)

  /** A value stored under a date in the history: JSON `null`, a raw reply (what
      `weather_API.py` writes) or a verdict sentence (what `weather_class.py` writes). */
  datatype Entry = NullEntry | Response(payload: Payload) | Message(text: string)

  /** Why `req['daily']['precipitation_sum'][0]` and the comparisons on it fail. */
  datatype ReadError =
    | NoPayload   // the value is `None`: `TypeError`, not subscriptable
    | Malformed   // a string, a missing key, an empty list or a `null` sample

  /** The value a fetch leaves behind: `None` is stored as JSON `null`. */
  function EntryOf(fetched: Option<Payload>): (e: Entry)
    ensures e.NullEntry? <==> fetched.None?
  {
    match fetched
    case None => NullEntry
    case Some(p) => Response(p)
  }

  /** The precipitation volume of the requested day, read from a stored or fetched value:
      the first element of `daily.precipitation_sum`, which must be a number. */
  function Volume(e: Entry): (r: Result<real, ReadError>)
    ensures r.Success? <==>
      e.Response? && e.payload.precipitationSum.Some?
      && |e.payload.precipitationSum.value| > 0
      && e.payload.precipitationSum.value[0].Number?
    ensures r.Success? ==> r.value == e.payload.precipitationSum.value[0].value
    ensures r == Failure(NoPayload) <==> e.NullEntry?
  {
    match e
    case NullEntry => Failure(NoPayload)
    case Message(_) => Failure(Malformed)
    case Response(p) =>
      match p.precipitationSum
      case None => Failure(Malformed)
      case Some(samples) =>
        if |samples| == 0 then Failure(Malformed)
        else match samples[0]
          case Null => Failure(Malformed)
          case Number(v) => Success(v)
  }
}
