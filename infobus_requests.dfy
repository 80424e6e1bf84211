/**
 * The outcome of `make_infobus_request` (server/utils/infobus_requests.py):
 * one GET whose every failure is caught and turned into a dict with a single
 * "error" entry. The HTTP exchange itself is not modelled; what it produced
 * is an input.
 */
module InfobusRequests {
  import opened Json

  /** A GET request: URL and query parameters. */
  datatype Request = Request(url: string, params: map<string, string>)

  /**
   * What the HTTP exchange produced: a decoded JSON object (2xx status and a
   * body that parsed), or the exception that was raised, as its class name
   * and its `str()` message.
   */
  datatype Exchange =
    | Decoded(body: map<string, Json>)
    | Raised(exceptionName: string, message: string)

  /** The text stored under "error": `"<ExceptionName>: <message>"`. */
  function ErrorText(exceptionName: string, message: string): (t: string)
    ensures |t| == |exceptionName| + 2 + |message|
    ensures t[..|exceptionName|] == exceptionName
    ensures t[|exceptionName|..|exceptionName| + 2] == ": "
    ensures t[|exceptionName| + 2..] == message
  {
    exceptionName + ": " + message
  }

  /**
   * The value `make_infobus_request` returns: the decoded body unchanged, or
   * a dict whose only key is "error" holding the exception's description.
   */
  function ResponseData(e: Exchange): (data: map<string, Json>)
    ensures e.Raised? ==> data == map["error" := Str(ErrorText(e.exceptionName, e.message))]
    ensures e.Decoded? ==> data == e.body
  {
    match e
    case Decoded(body) => body
    case Raised(name, message) => map["error" := Str(ErrorText(name, message))]
  }

  /** Everything before the first ':' of `t` (all of `t` when it has none). */
  function BeforeColon(t: string): (r: string)
    ensures r <= t
    ensures ':' !in r
    ensures |r| < |t| ==> t[|r|] == ':'
  {
    if |t| == 0 || t[0] == ':' then "" else [t[0]] + BeforeColon(t[1..])
  }

  /**
   * An exception class name is a Python identifier, so it has no ':'; the
   * error text then splits back into the name and the message at its first
   * ": ".
   */
  lemma ErrorTextSplits(exceptionName: string, message: string)
    requires ':' !in exceptionName
    ensures BeforeColon(ErrorText(exceptionName, message)) == exceptionName
    ensures ErrorText(exceptionName, message)[|exceptionName| + 2..] == message
  {
    BeforeColonOf(exceptionName, ": " + message);
    assert ErrorText(exceptionName, message) == exceptionName + (": " + message);
  }

  /** Text without ':' followed by text starting with ':' is cut right at that colon. */
  lemma {:induction false} BeforeColonOf(a: string, b: string)
    requires ':' !in a
    requires 0 < |b| && b[0] == ':'
    ensures BeforeColon(a + b) == a
  {
    if |a| > 0 {
      assert ':' !in a[1..] by {
        forall k | 0 <= k < |a[1..]| ensures a[1..][k] != ':' {
          assert a[1..][k] == a[k + 1];
        }
      }
      BeforeColonOf(a[1..], b);
      assert (a + b)[1..] == a[1..] + b;
      assert [a[0]] + a[1..] == a;
    } else {
      assert a + b == b;
    }
  }
}
