/**
 * What one flight-search request for one day comes to: `handleErrorResponse`,
 * the checks of `sendRequest` after the body is read, and the first checks
 * `startBot` makes on the returned data.
 *
 * The JSON body is not modelled as text. `sendRequest` decodes the same bytes
 * three times (as a generic object, as the error shape, as the success shape);
 * a `Body` records what each of those decodings produced.
 */
module Responses {
  import opened Outcomes
  import opened Text
  import opened CivilTime

  const NoFlightsCode: string := "no.flights.available"

  /** One element of `search.optionSets[].options[]`. */
  datatype FlightOption = FlightOption(id: string, available: bool, routeId: string, departure: Instant)

  datatype OptionSet = OptionSet(options: seq<FlightOption>)

  /** The `error` object of the error shape (absent fields decode as ""). */
  datatype ErrorShape = ErrorShape(code: string, text: string)

  /** The success shape: the `warnings` list (its entries are never looked at) and `search.optionSets`. */
  datatype SuccessShape = SuccessShape(warnings: seq<string>, optionSets: seq<OptionSet>)

  /** The outcome of each of the three `json.Unmarshal` calls on one body; `Err` holds the decoder's message. */
  datatype Body = Body(
    asObject: Result<(), string>,
    asError: Result<ErrorShape, string>,
    asSuccess: Result<SuccessShape, string>)

  /** What the HTTP exchange for one day produced. */
  datatype Reply =
    | TransportFailure(cause: string)   // building the request, sending it or reading the body failed
    | Received(status: int, body: Body)

  /** The errors `sendRequest` returns. */
  datatype QueryError =
    | NoFlightsAvailable                // the sentinel `ErrorNoFlightsAvailable`
    | UnknownError(code: string)
    | RequestFailed(message: string)    // transport, status or decoding failure
  {
    function Message(): string
    {
      match this
      case NoFlightsAvailable => "no flights available"
      case UnknownError(code) => "unknown error: " + code
      case RequestFailed(message) => message
    }
  }

  /** `handleErrorResponse`: the one known code, or an unknown error that keeps the code. */
  function HandleErrorResponse(code: string): (e: QueryError)
    ensures e == NoFlightsAvailable <==> code == NoFlightsCode
    ensures code != NoFlightsCode ==> e == UnknownError(code) && e.Message() == "unknown error: " + code
  {
    if code == NoFlightsCode then NoFlightsAvailable else UnknownError(code)
  }

  /** `sendRequest` from the point where the body has been read. */
  function SendRequest(reply: Reply): (r: Result<SuccessShape, QueryError>)
    ensures r.Ok? <==>
              && reply.Received? && reply.status == 200
              && reply.body.asObject.Ok? && reply.body.asError.Ok?
              && reply.body.asError.value.code == ""
              && reply.body.asSuccess.Ok?
    ensures r.Ok? ==> r.value == reply.body.asSuccess.value
    ensures r.Err? && (r.error.NoFlightsAvailable? || r.error.UnknownError?) ==>
              && reply.Received? && reply.status == 200
              && reply.body.asObject.Ok? && reply.body.asError.Ok?
              && r.error == HandleErrorResponse(reply.body.asError.value.code)
  {
    match reply
    case TransportFailure(cause) => Err(RequestFailed(cause))
    case Received(status, body) =>
      if status != 200 then Err(RequestFailed("status code: " + FormatInt(status)))
      else if body.asObject.Err? then Err(RequestFailed(body.asObject.error))
      else if body.asError.Err? then Err(RequestFailed(body.asError.error))
      else if body.asError.value.code != "" then Err(HandleErrorResponse(body.asError.value.code))
      else if body.asSuccess.Err? then Err(RequestFailed(body.asSuccess.error))
      else Ok(body.asSuccess.value)
  }

  /** How `startBot` treats one day's reply. */
  datatype DayOutcome =
    | Failed(error: QueryError)          // logged; the day is skipped
    | Warned                             // "no flights available" for the day; skipped
    | Flights(options: seq<FlightOption>)   // the options of `optionSets[0]`
    | NoOptionSet                        // `optionSets[0]` does not exist: Go panics (index out of range)

  /** The classification of a reply: `sendRequest`, then the warnings check, then `optionSets[0]`. */
  function Classify(reply: Reply): (o: DayOutcome)
    ensures o.Failed? <==> SendRequest(reply).Err?
    ensures o.Failed? ==> o.error == SendRequest(reply).error
    ensures o.Warned? <==> SendRequest(reply).Ok? && |SendRequest(reply).value.warnings| > 0
    ensures o.NoOptionSet? <==>
              SendRequest(reply).Ok? && |SendRequest(reply).value.warnings| == 0
              && |SendRequest(reply).value.optionSets| == 0
    ensures o.Flights? ==>
              && SendRequest(reply).Ok? && |SendRequest(reply).value.warnings| == 0
              && |SendRequest(reply).value.optionSets| > 0
              && o.options == SendRequest(reply).value.optionSets[0].options
  {
    match SendRequest(reply)
    case Err(e) => Failed(e)
    case Ok(data) =>
      if |data.warnings| > 0 then Warned
      else if |data.optionSets| == 0 then NoOptionSet
      else Flights(data.optionSets[0].options)
  }

  /** A decodable 200 body carrying an error code is classified by that code alone, whatever its success shape holds. */
  lemma ErrorCodeWins(status: int, b1: Body, b2: Body)
    requires status == 200
    requires b1.asObject.Ok? && b2.asObject.Ok? && b1.asError.Ok? && b1.asError == b2.asError
    requires b1.asError.value.code != ""
    ensures Classify(Received(status, b1)) == Classify(Received(status, b2))
              == Failed(HandleErrorResponse(b1.asError.value.code))
  {
  }

  /** With a non-empty `warnings` list the options are never examined: any option sets give the same outcome. */
  lemma WarningsHideOptions(status: int, b: Body, sets: seq<OptionSet>)
    requires b.asSuccess.Ok? && |b.asSuccess.value.warnings| > 0
    ensures var b' := b.(asSuccess := Ok(b.asSuccess.value.(optionSets := sets)));
            Classify(Received(status, b')) == Classify(Received(status, b))
  {
  }
}
