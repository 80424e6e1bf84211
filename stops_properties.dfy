/**
 * What `next_trips` promises about its text: the branch order, the shape of
 * each branch's text, the four-record limit and the layout of the joined
 * blocks.
 */
module StopsProperties {
  import opened Json
  import opened Strings
  import opened InfobusRequests
  import opened Stops

  /** The four terminal branches of `next_trips`. */
  datatype Branch = UpstreamError | Malformed | Empty | Listed

  /** Which branch a response takes, in the order the tool tests them. */
  function BranchOf(data: map<string, Json>): Branch
  {
    if "error" in data then UpstreamError
    else if "next_arrivals" !in data then Malformed
    else if !Truthy(data["next_arrivals"]) then Empty
    else Listed
  }

  /** Which branch produced a text, read off the text alone. */
  function Classify(text: string): Branch
  {
    if ErrorPrefix <= text then UpstreamError
    else if MalformedPrefix <= text then Malformed
    else if text == NoArrivals then Empty
    else Listed
  }

  /** Whether two records agree on a key: both lack it, or both hold the same value. */
  predicate AgreeOn(f: map<string, Json>, g: map<string, Json>, key: string)
  {
    (key in f <==> key in g) && (key in f ==> f[key] == g[key])
  }

  /**
   * A non-empty record renders as its block, whatever its field values; when
   * no field text itself contains a newline, the block is exactly six lines:
   * an empty one, the four captioned fields, and an empty one.
   */
  lemma RecordLines(fields: map<string, Json>, show: Json -> string)
    requires fields != map[]
    ensures FormatArrival(Object(fields), show) == Returns(ArrivalBlock(fields, show))
    ensures && '\n' !in GetStr(fields, "route_short_name", Unknown, show)
            && '\n' !in GetStr(fields, "route_long_name", Unknown, show)
            && '\n' !in GetStr(fields, "trip_headsign", Unknown, show)
            && '\n' !in GetStr(fields, "arrival_time", Unknown, show)
            ==> Split(ArrivalBlock(fields, show), '\n') == ArrivalLines(fields, show)
  {
    if && '\n' !in GetStr(fields, "route_short_name", Unknown, show)
       && '\n' !in GetStr(fields, "route_long_name", Unknown, show)
       && '\n' !in GetStr(fields, "trip_headsign", Unknown, show)
       && '\n' !in GetStr(fields, "arrival_time", Unknown, show)
    {
      assert '\n' !in ShortNameCaption && '\n' !in LongNameCaption;
      assert '\n' !in HeadsignCaption && '\n' !in ArrivalTimeCaption;
      FramedLinesSplit(ShortNameCaption, GetStr(fields, "route_short_name", Unknown, show),
                       LongNameCaption, GetStr(fields, "route_long_name", Unknown, show),
                       HeadsignCaption, GetStr(fields, "trip_headsign", Unknown, show),
                       ArrivalTimeCaption, GetStr(fields, "arrival_time", Unknown, show));
    }
  }

  /** Four captioned, newline-free lines framed by empty ones, newline-joined, split back into those lines. */
  lemma FramedLinesSplit(c1: string, v1: string, c2: string, v2: string,
                         c3: string, v3: string, c4: string, v4: string)
    requires '\n' !in c1 && '\n' !in c2 && '\n' !in c3 && '\n' !in c4
    requires '\n' !in v1 && '\n' !in v2 && '\n' !in v3 && '\n' !in v4
    ensures Split(Join("\n", ["", c1 + v1, c2 + v2, c3 + v3, c4 + v4, ""]), '\n')
            == ["", c1 + v1, c2 + v2, c3 + v3, c4 + v4, ""]
  {
    var lines := ["", c1 + v1, c2 + v2, c3 + v3, c4 + v4, ""];
    assert '\n' !in lines[0] && '\n' !in lines[5];
    assert '\n' !in lines[1] && '\n' !in lines[2] && '\n' !in lines[3] && '\n' !in lines[4];
    SplitJoin(lines, '\n');
  }

  /** The block, written out: a newline before each of the four captioned values, and one after the last. */
  lemma ArrivalBlockText(fields: map<string, Json>, show: Json -> string)
    ensures ArrivalBlock(fields, show)
            == "\n" + (ShortNameCaption + GetStr(fields, "route_short_name", Unknown, show))
               + "\n" + (LongNameCaption + GetStr(fields, "route_long_name", Unknown, show))
               + "\n" + (HeadsignCaption + GetStr(fields, "trip_headsign", Unknown, show))
               + "\n" + (ArrivalTimeCaption + GetStr(fields, "arrival_time", Unknown, show))
               + "\n"
  {
    var lines := ArrivalLines(fields, show);
    JoinFramedLines(lines[1], lines[2], lines[3], lines[4]);
  }

  /** Four lines framed by empty ones, newline-joined: a newline before and after each line. */
  lemma JoinFramedLines(a: string, b: string, c: string, d: string)
    ensures Join("\n", ["", a, b, c, d, ""]) == "\n" + a + "\n" + b + "\n" + c + "\n" + d + "\n"
  {
    var lines := ["", a, b, c, d, ""];
    assert lines[5..] == [""];
    assert lines[4..][1..] == lines[5..];
    assert lines[3..][1..] == lines[4..];
    assert lines[2..][1..] == lines[3..];
    assert lines[1..][1..] == lines[2..];
    assert Join("\n", lines[5..]) == "";
    var j4 := Join("\n", lines[4..]);
    assert j4 == d + "\n" + "";
    assert d + "\n" + "" == d + "\n";
    var j3 := Join("\n", lines[3..]);
    assert j3 == c + "\n" + j4;
    var j2 := Join("\n", lines[2..]);
    assert j2 == b + "\n" + j3;
    var j1 := Join("\n", lines[1..]);
    assert j1 == a + "\n" + j2;
    assert Join("\n", lines) == "" + "\n" + j1;
  }

  /** Keys other than the four displayed fields never change a record's text. */
  lemma RecordDependsOnFourKeys(f: map<string, Json>, g: map<string, Json>, show: Json -> string)
    requires f != map[] && g != map[]
    requires AgreeOn(f, g, "route_short_name") && AgreeOn(f, g, "route_long_name")
    requires AgreeOn(f, g, "trip_headsign") && AgreeOn(f, g, "arrival_time")
    ensures FormatArrival(Object(f), show) == FormatArrival(Object(g), show)
  {
  }

  /** An upstream error wins over everything else, `next_arrivals` included. */
  lemma ErrorBranch(data: map<string, Json>, show: Json -> string)
    requires "error" in data
    ensures Render(data, show) == Returns(ErrorPrefix + PyStr(data["error"], show))
  {
  }

  /**
   * Without "error" and "next_arrivals" the text is the diagnostic prefix
   * followed by the first `min(200, |show(data)|)` characters of the
   * response's string form.
   */
  lemma MalformedBranch(data: map<string, Json>, show: Json -> string)
    requires "error" !in data && "next_arrivals" !in data
    ensures Render(data, show).Returns?
    ensures MalformedPrefix <= Render(data, show).value
    ensures var echoed := Render(data, show).value[|MalformedPrefix|..];
            && echoed <= show(Object(data))
            && |echoed| == if |show(Object(data))| < MaxEcho then |show(Object(data))| else MaxEcho
  {
  }

  /** A present but falsy `next_arrivals` (an empty list, null, ...) gives the no-arrivals message. */
  lemma EmptyBranch(data: map<string, Json>, show: Json -> string)
    requires "error" !in data && "next_arrivals" in data && !Truthy(data["next_arrivals"])
    ensures Render(data, show) == Returns(NoArrivals)
  {
  }

  /**
   * The tool raises exactly when `next_arrivals` is truthy but not a list, or
   * one of its first four records is truthy but not a dict.
   */
  lemma RaisesExactly(data: map<string, Json>, show: Json -> string)
    ensures Render(data, show).Raises? <==>
              && "error" !in data && "next_arrivals" in data
              && Truthy(data["next_arrivals"])
              && (|| !data["next_arrivals"].List?
                  || exists k :: 0 <= k < |data["next_arrivals"].items| && k < MaxArrivals &&
                                 Truthy(data["next_arrivals"].items[k]) && !data["next_arrivals"].items[k].Object?)
  {
  }

  /**
   * With arrivals to list, the text is the "\n---\n"-join of the blocks of
   * the first `min(N, 4)` records, in order.
   */
  lemma ListedBranch(data: map<string, Json>, show: Json -> string)
    requires "error" !in data && "next_arrivals" in data
    requires data["next_arrivals"].List? && data["next_arrivals"].items != []
    requires forall k :: 0 <= k < |data["next_arrivals"].items| && k < MaxArrivals ==>
               !Truthy(data["next_arrivals"].items[k]) || data["next_arrivals"].items[k].Object?
    ensures var items := data["next_arrivals"].items;
            var first := Take(items, MaxArrivals);
            && FormatAll(first, show).Returns?
            && |FormatAll(first, show).value| == (if |items| < MaxArrivals then |items| else MaxArrivals)
            && (forall k :: 0 <= k < |first| ==>
                  FormatAll(first, show).value[k] == FormatArrival(items[k], show).value)
            && Render(data, show) == Returns(Join(Separator, FormatAll(first, show).value))
  {
  }

  /**
   * Where block `k` sits in the listed text: it starts at
   * `Offset(Separator, blocks, k)` and is record `k`'s text; a separator
   * follows it unless it is the last block, and the last block ends the
   * text. With `ListedBranch`, the text is `min(N, 4)` blocks with one
   * separator between each two and nothing else.
   */
  lemma ListedLayout(data: map<string, Json>, show: Json -> string, k: nat)
    requires "error" !in data && "next_arrivals" in data
    requires data["next_arrivals"].List? && data["next_arrivals"].items != []
    requires forall j :: 0 <= j < |data["next_arrivals"].items| && j < MaxArrivals ==>
               !Truthy(data["next_arrivals"].items[j]) || data["next_arrivals"].items[j].Object?
    requires k < |data["next_arrivals"].items| && k < MaxArrivals
    ensures Render(data, show).Returns?
    ensures var items := data["next_arrivals"].items;
            var blocks := FormatAll(Take(items, MaxArrivals), show).value;
            var t := Render(data, show).value;
            var o := Offset(Separator, blocks, k);
            && k < |blocks|
            && o + |blocks[k]| <= |t|
            && t[o..o + |blocks[k]|] == FormatArrival(items[k], show).value
            && (k + 1 < |blocks| ==>
                  Offset(Separator, blocks, k + 1) <= |t| && t[o + |blocks[k]|..Offset(Separator, blocks, k + 1)] == Separator)
            && (k + 1 == |blocks| ==> |t| == o + |blocks[k]|)
  {
    ListedBranch(data, show);
    JoinLayout(Separator, FormatAll(Take(data["next_arrivals"].items, MaxArrivals), show).value, k);
  }

  /** Records after the fourth never affect the text. */
  lemma TruncationIrrelevant(data: map<string, Json>, a: seq<Json>, b: seq<Json>, show: Json -> string)
    requires Take(a, MaxArrivals) == Take(b, MaxArrivals)
    ensures Render(data["next_arrivals" := List(a)], show) == Render(data["next_arrivals" := List(b)], show)
  {
  }

  /** A record's text begins with a newline or is the no-data message. */
  lemma BlockStart(arrival: Json, show: Json -> string)
    requires FormatArrival(arrival, show).Returns?
    ensures var t := FormatArrival(arrival, show).value;
            t == NoArrivalData || (|t| > 0 && t[0] == '\n')
  {
  }

  /**
   * The four branches give texts that cannot be confused: the branch taken,
   * in the tool's order of tests, can be read back from the text.
   */
  lemma BranchRecoverable(data: map<string, Json>, show: Json -> string)
    requires Render(data, show).Returns?
    ensures Classify(Render(data, show).value) == BranchOf(data)
  {
    var t := Render(data, show).value;
    match BranchOf(data)
    case UpstreamError =>
      UpstreamErrorText(PyStr(data["error"], show));
    case Malformed =>
      MalformedText(t);
    case Empty =>
      EmptyText();
    case Listed =>
      var items := data["next_arrivals"].items;
      var blocks := FormatAll(Take(items, MaxArrivals), show).value;
      assert t == Join(Separator, blocks);
      assert blocks[0] == FormatArrival(items[0], show).value;
      BlockStart(items[0], show);
      JoinStartsWithFirst(Separator, blocks);
      ListedText(t, blocks[0]);
  }

  /** The error branch's text is classified as an upstream error. */
  lemma UpstreamErrorText(rest: string)
    ensures Classify(ErrorPrefix + rest) == UpstreamError
  {
    assert ErrorPrefix <= ErrorPrefix + rest;
  }

  /** A text starting with the diagnostic prefix is classified as malformed. */
  lemma MalformedText(t: string)
    requires MalformedPrefix <= t
    ensures Classify(t) == Malformed
  {
    assert t[0] == MalformedPrefix[0] == 'U';
    assert ErrorPrefix[0] == 'T';
  }

  /** The no-arrivals message is classified as the empty branch. */
  lemma EmptyText()
    ensures Classify(NoArrivals) == Empty
  {
    assert ErrorPrefix[0] == 'T' && MalformedPrefix[0] == 'U' && NoArrivals[0] == 'N';
  }

  /** A text that starts with a record's text is classified as a listing. */
  lemma ListedText(t: string, b: string)
    requires b <= t
    requires b == NoArrivalData || (|b| > 0 && b[0] == '\n')
    ensures Classify(t) == Listed
  {
    if b == NoArrivalData {
      assert NoArrivalData[0] == 'N' && NoArrivalData[10] == ' ';
      assert t[0] == 'N' && t[10] == ' ';
      assert NoArrivals[10] == 's';
    } else {
      assert t[0] == '\n';
    }
    assert ErrorPrefix[0] == 'T' && MalformedPrefix[0] == 'U' && NoArrivals[0] == 'N';
  }

  /** The request carries the stop and the timestamp verbatim: different queries give different requests. */
  lemma RequestInjective(base: string, stop1: string, time1: string, stop2: string, time2: string)
    requires NextTripsRequest(base, stop1, time1) == NextTripsRequest(base, stop2, time2)
    ensures stop1 == stop2 && time1 == time2
  {
  }

  /**
   * A failed upstream call reaches the caller as the error message carrying
   * "<ExceptionName>: <message>", from which the exception name can be read back.
   */
  lemma FailureReported(base: string, stopId: string, timestamp: string,
                        exchange: Request -> Exchange, show: Json -> string)
    requires exchange(NextTripsRequest(base, stopId, timestamp)).Raised?
    requires ':' !in exchange(NextTripsRequest(base, stopId, timestamp)).exceptionName
    ensures var e := exchange(NextTripsRequest(base, stopId, timestamp));
            && NextTrips(base, stopId, timestamp, exchange, show)
                 == Returns(ErrorPrefix + ErrorText(e.exceptionName, e.message))
            && BeforeColon(NextTrips(base, stopId, timestamp, exchange, show).value[|ErrorPrefix|..])
                 == e.exceptionName
  {
    var e := exchange(NextTripsRequest(base, stopId, timestamp));
    var t := NextTrips(base, stopId, timestamp, exchange, show).value;
    assert t[|ErrorPrefix|..] == ErrorText(e.exceptionName, e.message);
    ErrorTextSplits(e.exceptionName, e.message);
  }

  /**
   * A decoded body that carries "error" takes the same branch as a failed
   * call: one holding exactly the failure's error text renders identically,
   * so the read-back in `FailureReported` holds only for real failures.
   */
  lemma DecodedErrorLikeFailure(base: string, stopId: string, timestamp: string,
                                failing: Request -> Exchange, answering: Request -> Exchange,
                                show: Json -> string)
    requires failing(NextTripsRequest(base, stopId, timestamp)).Raised?
    requires var e := failing(NextTripsRequest(base, stopId, timestamp));
             answering(NextTripsRequest(base, stopId, timestamp))
               == Decoded(map["error" := Str(ErrorText(e.exceptionName, e.message))])
    ensures NextTrips(base, stopId, timestamp, failing, show)
            == NextTrips(base, stopId, timestamp, answering, show)
  {
  }
}
