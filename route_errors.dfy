/**
 * The errors routing reports, and the access error of the older snapshot,
 * with the messages their Error methods produce.
 */
module RouteErrors {
  import opened Wrappers
  import opened GoStrings

  datatype RouteError =
    | URLNotFound(verb: string, path: string)        // no pattern matched the path
    | MethodNotAllowed(verb: string, path: string)   // the first matching route wants another method

  const URLNotFoundPrefix := "Url Not Found: Method "
  const MethodNotAllowedPrefix := "Method Not Allowed: Method "
  const PathSeparator := ", Path "

  /** Error(): the kind, then the method and the path. */
  function Message(e: RouteError): (m: string)
    ensures e.URLNotFound? ==> HasPrefix(m, URLNotFoundPrefix)
    ensures e.MethodNotAllowed? ==> HasPrefix(m, MethodNotAllowedPrefix)
    ensures HasSuffix(m, e.path)
  {
    match e
    case URLNotFound(v, p) => URLNotFoundPrefix + v + PathSeparator + p
    case MethodNotAllowed(v, p) => MethodNotAllowedPrefix + v + PathSeparator + p
  }

  /** Splits "<method>, Path <path>" at the first comma. */
  function ParseFields(t: string): Option<(string, string)> {
    var k := IndexOf(t, ',');
    if k < 0 || !HasPrefix(t[k..], PathSeparator) then None
    else Some((t[..k], t[k + |PathSeparator|..]))
  }

  /** A reference reader for the messages above. */
  function ParseMessage(s: string): Option<RouteError> {
    if HasPrefix(s, URLNotFoundPrefix) then
      match ParseFields(s[|URLNotFoundPrefix|..])
      case Some((v, p)) => Some(URLNotFound(v, p))
      case None => None
    else if HasPrefix(s, MethodNotAllowedPrefix) then
      match ParseFields(s[|MethodNotAllowedPrefix|..])
      case Some((v, p)) => Some(MethodNotAllowed(v, p))
      case None => None
    else None
  }

  lemma ParseFieldsJoined(v: string, p: string)
    requires ',' !in v
    ensures ParseFields(v + PathSeparator + p) == Some((v, p))
  {
    var t := v + PathSeparator + p;
    assert t[|v|] == ',';
    assert IndexOf(t, ',') == |v| by {
      forall j | 0 <= j < |v| ensures t[j] != ',' {
        assert t[j] == v[j];
      }
    }
    assert t[|v|..] == PathSeparator + p;
    assert t[..|v|] == v;
    assert t[|v| + |PathSeparator|..] == p;
  }

  /** The message names the kind, method and path unambiguously, as long as the method holds no comma. */
  lemma MessageRoundTrip(e: RouteError)
    requires ',' !in e.verb
    ensures ParseMessage(Message(e)) == Some(e)
  {
    var m := Message(e);
    ParseFieldsJoined(e.verb, e.path);
    if e.URLNotFound? {
      assert m[|URLNotFoundPrefix|..] == e.verb + PathSeparator + e.path;
    } else {
      assert !HasPrefix(m, URLNotFoundPrefix) by {
        assert m[0] == 'M';
      }
      assert m[|MethodNotAllowedPrefix|..] == e.verb + PathSeparator + e.path;
    }
  }

  /** Returned by the older snapshot's RPC handler when the service is not allowed. */
  datatype NoAccessError = NoAccessError(dir: string)

  function NoAccessMessage(e: NoAccessError): (m: string)
    ensures HasPrefix(m, "No Access: ") && m[|"No Access: "|..] == e.dir
  {
    "No Access: " + e.dir
  }
}
