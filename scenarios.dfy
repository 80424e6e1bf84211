/**
 * Concrete responses and the text `next_trips` gives for each.
 */
module Scenarios {
  import opened Json
  import opened Strings
  import opened Stops
  import opened StopsProperties

  /** A timed-out upstream call is reported with its exception name and message. */
  lemma TimeoutReported(show: Json -> string)
    ensures Render(map["error" := Str("TimeoutError: connect timed out")], show)
            == Returns(ErrorPrefix + "TimeoutError: connect timed out")
  {
  }

  /** A response without the expected key echoes its own string form after the diagnostic prefix. */
  lemma UnexpectedShapeEchoed(show: Json -> string)
    requires show(Object(map["foo" := Str("bar")])) == "{'foo': 'bar'}"
    ensures Render(map["foo" := Str("bar")], show) == Returns(MalformedPrefix + "{'foo': 'bar'}")
  {
  }

  /** An empty arrival list gives the no-arrivals message. */
  lemma NoArrivalsListed(show: Json -> string)
    ensures Render(map["next_arrivals" := List([])], show) == Returns(NoArrivals)
  {
  }

  /** A single record with only a short route name: one block, "Unknown" for the other three fields. */
  lemma SingleRecordBlock(show: Json -> string)
    ensures var record := Object(map["route_short_name" := Str("12")]);
            && Render(map["next_arrivals" := List([record])], show).Returns?
            && Split(Render(map["next_arrivals" := List([record])], show).value, '\n')
               == ["", ShortNameCaption + "12", LongNameCaption + Unknown,
                   HeadsignCaption + Unknown, ArrivalTimeCaption + Unknown, ""]
  {
    var fields := map["route_short_name" := Str("12")];
    var data := map["next_arrivals" := List([Object(fields)])];
    ListedBranch(data, show);
    assert Take([Object(fields)], MaxArrivals) == [Object(fields)];
    assert Render(data, show).value == FormatArrival(Object(fields), show).value;
    assert "route_long_name" !in fields && "trip_headsign" !in fields && "arrival_time" !in fields;
    assert GetStr(fields, "route_short_name", Unknown, show) == "12";
    assert GetStr(fields, "route_long_name", Unknown, show) == Unknown;
    assert GetStr(fields, "trip_headsign", Unknown, show) == Unknown;
    assert GetStr(fields, "arrival_time", Unknown, show) == Unknown;
    assert '\n' !in "12" && '\n' !in Unknown;
    RecordLines(fields, show);
  }
}
