/**
 * The `next_trips` tool of the stops topic (server/topics/stops.py): the
 * request it sends, the rendering of one arrival record, and the chain of
 * terminal branches that turns the upstream response into the tool's text.
 *
 * `show` stands for Python's `str()` on values that are not strings; it is
 * only consulted for those values and for the whole response in the
 * malformed-response branch.
 */
module Stops {
  import opened Json
  import opened Strings
  import opened InfobusRequests

  /** What a tool invocation ends in: a returned string, or an exception raised out of the tool. */
  datatype Outcome<T> = Returns(value: T) | Raises

  const NextTripsPath := "/next-trips/"

  const NoArrivalData := "No arrival data available."
  const ErrorPrefix := "The API call did not work. Error: "
  const MalformedPrefix := "Unexpected API response format. Received: "
  const NoArrivals := "No arrivals for this bus stop at this time."
  const Unknown := "Unknown"
  const Separator := "\n---\n"

  /** At most this many arrivals are rendered. */
  const MaxArrivals := 4
  /** At most this many characters of the malformed response are echoed. */
  const MaxEcho := 200

  /** The request `next_trips` sends: the stop and the timestamp, verbatim, as the only parameters. */
  function NextTripsRequest(base: string, stopId: string, timestamp: string): (r: Request)
    ensures r.url == base + NextTripsPath
    ensures r.params.Keys == {"stop_id", "timestamp"}
    ensures r.params["stop_id"] == stopId && r.params["timestamp"] == timestamp
  {
    Request(base + NextTripsPath, map["stop_id" := stopId, "timestamp" := timestamp])
  }

  /** The captions of the four lines of an arrival block. */
  const ShortNameCaption := "Route short name: "
  const LongNameCaption := "Route long name: "
  const HeadsignCaption := "Going to (headsign): "
  const ArrivalTimeCaption := "Arrival time: "

  /** The lines of the block for a non-empty record: an empty line, the four captioned fields, an empty line. */
  function ArrivalLines(fields: map<string, Json>, show: Json -> string): seq<string>
  {
    [ "",
      ShortNameCaption + GetStr(fields, "route_short_name", Unknown, show),
      LongNameCaption + GetStr(fields, "route_long_name", Unknown, show),
      HeadsignCaption + GetStr(fields, "trip_headsign", Unknown, show),
      ArrivalTimeCaption + GetStr(fields, "arrival_time", Unknown, show),
      "" ]
  }

  /** The triple-quoted template: its lines joined with newlines. */
  function ArrivalBlock(fields: map<string, Json>, show: Json -> string): string
  {
    Join("\n", ArrivalLines(fields, show))
  }

  /**
   * `format_next_arrival`: a falsy record gives the no-data message, a
   * non-empty dict its block; any other truthy value has no `.get`, so the
   * call raises.
   */
  function FormatArrival(arrival: Json, show: Json -> string): (r: Outcome<string>)
    ensures !Truthy(arrival) ==> r == Returns(NoArrivalData)
    ensures Truthy(arrival) && arrival.Object? ==> r == Returns(ArrivalBlock(arrival.fields, show))
    ensures r.Raises? <==> Truthy(arrival) && !arrival.Object?
  {
    if !Truthy(arrival) then Returns(NoArrivalData)
    else if arrival.Object? then Returns(ArrivalBlock(arrival.fields, show))
    else Raises
  }

  /**
   * The list comprehension over the selected records: all blocks in order,
   * or `Raises` as soon as one record raises.
   */
  function FormatAll(arrivals: seq<Json>, show: Json -> string): (r: Outcome<seq<string>>)
    ensures r.Returns? <==> forall k :: 0 <= k < |arrivals| ==> FormatArrival(arrivals[k], show).Returns?
    ensures r.Returns? ==> |r.value| == |arrivals|
    ensures r.Returns? ==>
              forall k :: 0 <= k < |arrivals| ==> r.value[k] == FormatArrival(arrivals[k], show).value
  {
    if |arrivals| == 0 then Returns([])
    else
      match FormatArrival(arrivals[0], show)
      case Raises => Raises
      case Returns(block) =>
        match FormatAll(arrivals[1..], show)
        case Raises => Raises
        case Returns(blocks) => Returns([block] + blocks)
  }

  /**
   * The body of `next_trips` after the upstream call: the first matching
   * branch of error, missing `next_arrivals`, no arrivals, and formatted
   * arrivals decides the text.
   */
  function Render(data: map<string, Json>, show: Json -> string): (r: Outcome<string>)
    ensures "error" in data ==> r.Returns? && ErrorPrefix <= r.value
    ensures "error" !in data && "next_arrivals" !in data ==>
              r.Returns? && MalformedPrefix <= r.value && |r.value| <= |MalformedPrefix| + MaxEcho
    ensures r.Raises? ==> "error" !in data && "next_arrivals" in data && Truthy(data["next_arrivals"])
  {
    if "error" in data then
      Returns(ErrorPrefix + PyStr(data["error"], show))
    else if "next_arrivals" !in data then
      Returns(MalformedPrefix + Take(show(Object(data)), MaxEcho))
    else if !Truthy(data["next_arrivals"]) then
      Returns(NoArrivals)
    else
      var arrivals := data["next_arrivals"];
      if !arrivals.List? then
        // slicing a number, a boolean or a dict raises; slicing a string
        // gives characters, and the first one has no `.get`
        Raises
      else
        match FormatAll(Take(arrivals.items, MaxArrivals), show)
        case Raises => Raises
        case Returns(blocks) => Returns(Join(Separator, blocks))
  }

  /**
   * The whole tool: build the request, let `exchange` answer it, normalise,
   * render. A failed exchange is reported as its error text; a decoded body
   * is rendered as it came.
   */
  function NextTrips(base: string, stopId: string, timestamp: string,
                     exchange: Request -> Exchange, show: Json -> string): (r: Outcome<string>)
    ensures var e := exchange(NextTripsRequest(base, stopId, timestamp));
            && (e.Raised? ==> r == Returns(ErrorPrefix + ErrorText(e.exceptionName, e.message)))
            && (e.Decoded? ==> r == Render(e.body, show))
  {
    Render(ResponseData(exchange(NextTripsRequest(base, stopId, timestamp))), show)
  }
}
