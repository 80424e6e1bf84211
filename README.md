# Next-trips response normalisation, modelled in Dafny

This project models the `next_trips` tool of the stops topic of the Infobús
transit tool server. The tool asks the Infobús HTTP API for the next trips
at a bus stop, given a stop ID and a timestamp. It then turns whatever came
back into a single text for the calling agent:

- a response holding an `"error"` key gives `"The API call did not work. Error: "`
  followed by that value. A caught exception puts `"<ExceptionName>: <message>"`
  there, and a decoded body that carries `"error"` takes the same branch, so
  a decoded `{"error": "Foo: bar"}` gives the same text as a failure with
  exception `Foo` and message `bar`;
- otherwise, a body without `next_arrivals` gives a diagnostic that echoes at
  most 200 characters of the body;
- otherwise, a present but falsy `next_arrivals` gives `"No arrivals for this bus stop at this time."`;
- otherwise the first four arrival records are rendered as four-line blocks,
  joined with `"\n---\n"`.

Modules:

- `Json` (json.dfy): decoded JSON values (`Json`), Python truthiness
  (`Truthy`), `str()` inside an f-string (`PyStr`) and `dict.get` with a
  default (`GetStr`).
- `Strings` (strings.dfy): Python's `s[:n]` (`Take`) and `sep.join`
  (`Join`), with lemmas on the layout of a join. `s.split(c)` (`Split`) is
  not called by the tool; it only serves to state which lines a rendered
  record has.
- `InfobusRequests` (infobus_requests.dfy): what `make_infobus_request`
  returns. The outcome of the HTTP exchange is an input (`Exchange`). A
  raised exception becomes `{"error": "<ExceptionName>: <message>"}`
  (`ResponseData`).
- `Stops` (stops.dfy): the request `next_trips` sends (`NextTripsRequest`),
  `format_next_arrival` (`FormatArrival`), the list comprehension
  (`FormatAll`), the branch chain (`Render`) and the whole tool (`NextTrips`).
- `StopsProperties` (stops_properties.dfy): the branch order, the text of
  each branch, the four-record limit, the block layout, and the failure path.
- `Scenarios` (scenarios.dfy): four concrete responses and their texts.

Python's `str()` of a non-string value is the function parameter
`show: Json -> string`. The same holds for the whole response echoed in the
malformed-response branch. Its exact text is not modelled: a Dafny map does
not keep a dict's insertion order, and the quoting rules of `repr` are
beside the point.

Three behaviours of the code are worth stating outright:

- `next_trips` can raise. When `next_arrivals` is truthy but not a list, the
  slice or the `.get` on its first element fails. When one of the first four
  records is truthy but not a dict, it has no `.get`. `Render` returns
  `Raises` in both cases, and `StopsProperties.RaisesExactly` states when
  this happens.
- `format_next_arrival` tests `not arrival`, so any falsy record renders as
  `"No arrival data available."`: `{}`, `null`, `0`, `""` or `[]`.
- Each field is read with `.get(key, "Unknown")`, so the default is used
  only when the key is absent. A present key renders its value even when
  that value is `""` or `null` (the latter through `show`).

## Model

| member | source | states |
|---|---|---|
| `Stops.NextTripsRequest` | server/topics/stops.py:42-46 | the request goes to the base URL followed by "/next-trips/", and its parameters are exactly `stop_id` and `timestamp`, holding the caller's values unchanged |
| `StopsProperties.RequestInjective` | server/topics/stops.py:42-46 | nothing is validated or normalised: two queries that differ in stop or timestamp send different requests |
| `Stops.FormatArrival` | server/topics/stops.py:11-20 | a falsy record renders as "No arrival data available."; a non-empty dict renders as its block, whatever its values; the call raises exactly when the record is truthy and not a dict |
| `StopsProperties.RecordLines` | server/topics/stops.py:15-20 | every non-empty record renders as its block; when no field text holds a newline, the block splits on newlines into an empty line, the four captioned field lines and an empty line |
| `StopsProperties.ArrivalBlockText` | server/topics/stops.py:15-20 | `ArrivalBlock`, the text of the triple-quoted template, is a newline, then each captioned field followed by a newline |
| `Json.GetStr` | server/topics/stops.py:16-19 | the default ("Unknown") is used only when the key is absent; a present value is rendered as `str()` of it, a present string verbatim, even when empty |
| `StopsProperties.RecordDependsOnFourKeys` | server/topics/stops.py:15-20 | two non-empty records that agree on the four displayed keys render identically, whatever other keys they hold |
| `StopsProperties.BlockStart` | server/topics/stops.py:13-20 | a record's text is the no-data message or starts with a newline |
| `Json.Truthy` | server/topics/stops.py:13 | Python's `not x` (also at line 58): the falsy values are exactly null, false, 0, 0.0, "", [] and {} |
| `Json.PyStr` | server/topics/stops.py:16-19 | an f-string interpolates a string verbatim and any other value through `str()` (also at line 51) |
| `Stops.FormatAll` | server/topics/stops.py:63 | the comprehension returns iff every record formats, then gives one block per record in order, block k being record k's text |
| `Stops.Render` | server/topics/stops.py:49-64 | the error branch always returns and its text starts with the error prefix; a response without "error" and "next_arrivals" returns the diagnostic prefix plus at most 200 characters; the tool raises only when `next_arrivals` is present and truthy |
| `Stops.NextTrips` | server/topics/stops.py:42-64 | the tool sends the request for the stop and timestamp; a failed exchange is reported as the error prefix plus "<ExceptionName>: <message>", a decoded body is rendered unchanged |
| `StopsProperties.ErrorBranch` | server/topics/stops.py:50-51 | with an "error" key the text is the error prefix plus the error value, even when `next_arrivals` is also present |
| `StopsProperties.MalformedBranch` | server/topics/stops.py:54-55 | without "error" and "next_arrivals" the text is the diagnostic prefix followed by a prefix of the response's string form of length min(200, its length) |
| `StopsProperties.EmptyBranch` | server/topics/stops.py:58-59 | a present, falsy `next_arrivals` gives exactly "No arrivals for this bus stop at this time." |
| `StopsProperties.ListedBranch` | server/topics/stops.py:61-64 | otherwise the text is the "\n---\n"-join of min(N, 4) blocks, block k being the text of arrival k |
| `StopsProperties.ListedLayout` | server/topics/stops.py:64 | in the listed text block k sits at its offset, a separator follows each block but the last, and the last block ends the text |
| `StopsProperties.TruncationIrrelevant` | server/topics/stops.py:62 | two arrival lists with the same first four records render identically |
| `StopsProperties.RaisesExactly` | server/topics/stops.py:58-63 | the tool raises iff there is no error key and `next_arrivals` is truthy and either not a list or has a truthy non-dict among its first four records |
| `StopsProperties.BranchRecoverable` | server/topics/stops.py:49-64 | the branch taken (error, malformed, empty, listed, tested in that order) can be read back from the returned text alone |
| `Strings.Take` | server/topics/stops.py:55-62 | a slice `[:n]` is the prefix of length min(n, length): the first 200 characters of the echoed response at line 55, the first four arrivals at line 62 |
| `Strings.JoinLayout` | server/topics/stops.py:64 | `Join(sep, parts)`, Python's `sep.join(parts)`, holds each part at its offset, one separator between consecutive parts, and ends with the last part |
| `InfobusRequests.ResponseData` | server/utils/infobus_requests.py:13-21 | a raised exception yields the dict `{"error": "<ExceptionName>: <message>"}` and nothing else; a decoded body is returned unchanged |
| `InfobusRequests.ErrorText` | server/utils/infobus_requests.py:21 | the error text is the exception name, then ": ", then the message, and nothing else |
| `InfobusRequests.ErrorTextSplits` | server/utils/infobus_requests.py:21 | "<ExceptionName>: <message>" splits at its first colon back into the exception name and, two characters on, the message |
| `StopsProperties.FailureReported` | server/utils/infobus_requests.py:19-21 | a failed upstream call reaches the caller as the error prefix plus "<ExceptionName>: <message>", and the exception name can be read back from it |
| `StopsProperties.DecodedErrorLikeFailure` | server/topics/stops.py:47-51 | a decoded body `{"error": "<Name>: <message>"}` gives the same text as a failed call raising `<Name>` with `<message>`: the text alone does not tell the two apart |
| `Scenarios.TimeoutReported` | server/topics/stops.py:50-51 | `{"error": "TimeoutError: connect timed out"}` renders as the error prefix followed by that string |
| `Scenarios.UnexpectedShapeEchoed` | server/topics/stops.py:54-55 | `{"foo": "bar"}` renders as the diagnostic prefix followed by `{'foo': 'bar'}` |
| `Scenarios.NoArrivalsListed` | server/topics/stops.py:58-59 | `{"next_arrivals": []}` renders as the no-arrivals message |
| `Scenarios.SingleRecordBlock` | server/topics/stops.py:15-20 | one record holding only `route_short_name: "12"` renders as one block with "12" and "Unknown" for the other three fields |

## Left out

- The HTTP exchange in `make_infobus_request` is I/O and is not modelled: the `User-Agent` and `Accept` headers, following redirects, the 30-second timeout, `raise_for_status` and JSON decoding. Its outcome is the input `Exchange`: a decoded JSON object, or the class name and message of the exception raised.
- `Exchange.Raised` stands for every exception of the exchange, but `except Exception` (server/utils/infobus_requests.py:19) does not catch `BaseException` subclasses such as `asyncio.CancelledError` or `KeyboardInterrupt`. Those propagate out of `next_trips` and are not modelled.
- A JSON body that is not an object, such as a top-level list, is not modelled. There `in` tests list membership instead of keys.
- Python's `str()`/`repr` of non-string values and of the whole response is the parameter `show`, not a definition. Key order, quoting and float formatting are therefore not modelled.
- JSON numbers are `Int` or `Float` (a `real`). NaN and infinities, which Python's decoder accepts, are not modelled. Duplicate keys in a JSON object are not modelled either.
- Which exception the tool raises (`AttributeError`, `TypeError` or `KeyError`, depending on the value and the Python version) is not modelled. `Raises` only says that the tool raises.
- The base URL and user agent come from configuration (`decouple.config`). Here the base URL is a parameter, and the user agent belongs to the unmodelled exchange.
- `async`/`await` and the `@tool()` registration are not modelled. The tool holds no shared state, so nothing about concurrency needs modelling.
- The `info` tool of the stops topic (server/topics/stops.py:23-31), the routes and agencies topics, and the server composition in server/transit.py are not modelled. They return fixed or templated strings, or they are framework glue.
