/**
 * The `net/http` surface the server touches: the parts of a request it
 * reads, and a response writer. The writer keeps ONE ordered log of what
 * happens while a request is handled, both the calls made on the writer
 * (header set and add, WriteHeader, Write) and the server-side steps taken
 * in between (hooks, existence checks, subprocess calls), so that the order
 * of effects can be stated. Its header map is kept alongside the log.
 */
module Http {
  import opened Os

  /**
   * An inbound request: method, URL path, protocol string, request headers
   * (one value per key) and form values (the decoded query).
   */
  datatype Request = Request(
    verb: string,
    path: string,
    proto: string,
    header: map<string, string>,
    form: map<string, string>)

  /** req.Header.Get(key): the value, or "" when absent. */
  function HeaderGet(r: Request, key: string): (v: string)
    ensures key in r.header ==> v == r.header[key]
    ensures key !in r.header ==> v == ""
  {
    if key in r.header then r.header[key] else ""
  }

  /** req.FormValue(key): the value, or "" when absent. */
  function FormValue(r: Request, key: string): (v: string)
    ensures key in r.form ==> v == r.form[key]
    ensures key !in r.form ==> v == ""
  {
    if key in r.form then r.form[key] else ""
  }

  type Header = map<string, seq<string>>

  datatype Step =
    | HeaderSet(key: string, value: string)     // w.Header().Set
    | HeaderAdded(key: string, value: string)   // w.Header().Add
    | StatusWritten(code: int)                  // w.WriteHeader
    | BodyWritten(data: string)                 // w.Write, or one io.Copy into w
    | HookFired(key: string)                    // a registered event listener ran
    | RepoChecked(repoPath: string, found: bool)
    | CommandStarted(cmd: CommandSpec)          // cmd.Start
    | CommandRan(cmd: CommandSpec)              // cmd.Output: start, capture, wait
    | StdinCopied(ok: bool)                     // request body copied into the stdin pipe
    | StdinClosed
    | CommandWaited(ok: bool)                   // cmd.Wait
    | FileServed(absolutePath: string)          // http.ServeFile
    | CustomHandlerRan(name: string)            // a handler registered by the embedding program
    | Panicked                                  // a run-time panic unwound the handler

  /** Steps that are not calls on the writer itself. */
  predicate IsServerStep(s: Step) {
    !(s.HeaderSet? || s.HeaderAdded? || s.StatusWritten? || s.BodyWritten?)
  }

  function ApplyHeader(h: Header, s: Step): Header {
    match s
    case HeaderSet(k, v) => h[k := [v]]
    case HeaderAdded(k, v) => h[k := (if k in h then h[k] else []) + [v]]
    case _ => h
  }

  /** The header map after the steps, starting from `h`. */
  function HeaderAfter(h: Header, steps: seq<Step>): Header
    decreases |steps|
  {
    if steps == [] then h else HeaderAfter(ApplyHeader(h, steps[0]), steps[1..])
  }

  /** Regrouping a log that grows by whole segments. */
  lemma LogAssoc(a: seq<Step>, b: seq<Step>, c: seq<Step>)
    ensures a + b + c == a + (b + c)
  {
  }

  lemma {:induction false} HeaderAfterAppend(h: Header, a: seq<Step>, b: seq<Step>)
    ensures HeaderAfter(h, a + b) == HeaderAfter(HeaderAfter(h, a), b)
    decreases |a|
  {
    if a != [] {
      assert (a + b)[0] == a[0] && (a + b)[1..] == a[1..] + b;
      HeaderAfterAppend(ApplyHeader(h, a[0]), a[1..], b);
    } else {
      assert a + b == b;
    }
  }

  /** Steps that do not touch the header leave the map as it is. */
  lemma {:induction false} HeaderAfterNoHeaderSteps(h: Header, steps: seq<Step>)
    requires forall i :: 0 <= i < |steps| ==> !steps[i].HeaderSet? && !steps[i].HeaderAdded?
    ensures HeaderAfter(h, steps) == h
    decreases |steps|
  {
    if steps != [] {
      HeaderAfterNoHeaderSteps(h, steps[1..]);
    }
  }

  /** Three Set calls in a row. */
  lemma HeaderAfterThreeSets(h: Header, k1: string, v1: string, k2: string, v2: string, k3: string, v3: string)
    ensures HeaderAfter(h, [HeaderSet(k1, v1), HeaderSet(k2, v2), HeaderSet(k3, v3)])
         == h[k1 := [v1]][k2 := [v2]][k3 := [v3]]
  {
    var s := [HeaderSet(k1, v1), HeaderSet(k2, v2), HeaderSet(k3, v3)];
    assert s[1..] == [HeaderSet(k2, v2), HeaderSet(k3, v3)];
    assert s[1..][1..] == [HeaderSet(k3, v3)];
    assert s[1..][1..][1..] == [];
    var h1, h2, h3 := h[k1 := [v1]], h[k1 := [v1]][k2 := [v2]], h[k1 := [v1]][k2 := [v2]][k3 := [v3]];
    assert HeaderAfter(h2, s[1..][1..]) == HeaderAfter(h3, []) == h3;
    assert HeaderAfter(h1, s[1..]) == HeaderAfter(h2, s[1..][1..]);
    assert HeaderAfter(h, s) == HeaderAfter(h1, s[1..]);
  }

  /** What status the client receives: fixed by the first WriteHeader, by the first Write (200), or by http.ServeFile. */
  datatype StatusView = Unwritten | Sent(code: int) | DecidedByFileServer

  function StatusOf(steps: seq<Step>): StatusView
    decreases |steps|
  {
    if steps == [] then Unwritten
    else match steps[0]
      case StatusWritten(c) => Sent(c)
      case BodyWritten(_) => Sent(200)
      case FileServed(_) => DecidedByFileServer
      case _ => StatusOf(steps[1..])
  }

  /** The response body: the concatenation of all writes, in order. */
  function BodyOf(steps: seq<Step>): string
    decreases |steps|
  {
    if steps == [] then ""
    else (if steps[0].BodyWritten? then steps[0].data else "") + BodyOf(steps[1..])
  }

  /** Once the status is fixed, later WriteHeader calls are superfluous: the client still sees the first. */
  lemma {:induction false} StatusOfAppend(a: seq<Step>, b: seq<Step>)
    ensures StatusOf(a + b) == if StatusOf(a) != Unwritten then StatusOf(a) else StatusOf(b)
    decreases |a|
  {
    if a != [] {
      assert (a + b)[0] == a[0] && (a + b)[1..] == a[1..] + b;
      StatusOfAppend(a[1..], b);
    } else {
      assert a + b == b;
    }
  }

  /** Behind steps that sent nothing, what follows decides the status and extends the body. */
  lemma UnwrittenPrefix(before: seq<Step>, steps: seq<Step>)
    requires StatusOf(before) == Unwritten
    ensures StatusOf(before + steps) == StatusOf(steps)
    ensures BodyOf(before + steps) == BodyOf(before) + BodyOf(steps)
  {
    StatusOfAppend(before, steps);
    BodyOfAppend(before, steps);
  }

  lemma {:induction false} BodyOfAppend(a: seq<Step>, b: seq<Step>)
    ensures BodyOf(a + b) == BodyOf(a) + BodyOf(b)
    decreases |a|
  {
    if a != [] {
      assert (a + b)[0] == a[0] && (a + b)[1..] == a[1..] + b;
      BodyOfAppend(a[1..], b);
    } else {
      assert a + b == b;
    }
  }

  /** A step that fixes the status line and so sends the header. */
  predicate SendsHeader(s: Step) {
    s.StatusWritten? || s.BodyWritten? || s.FileServed?
  }

  /**
   * The header the client receives: net/http sends the header map as it is
   * at the first WriteHeader or Write (or when http.ServeFile takes over);
   * changes made later are not sent. A handler that writes nothing sends the
   * final map.
   */
  function WireHeader(h: Header, steps: seq<Step>): Header
    decreases |steps|
  {
    if steps == [] then h
    else if SendsHeader(steps[0]) then h
    else WireHeader(ApplyHeader(h, steps[0]), steps[1..])
  }

  /** The status is undecided exactly while no step has sent the header. */
  lemma {:induction false} UnwrittenIffNothingSent(steps: seq<Step>)
    ensures StatusOf(steps) == Unwritten <==> forall i :: 0 <= i < |steps| ==> !SendsHeader(steps[i])
    decreases |steps|
  {
    if steps != [] {
      UnwrittenIffNothingSent(steps[1..]);
      assert forall i :: 1 <= i < |steps| ==> steps[i] == steps[1..][i - 1];
    }
  }

  /** While nothing has been sent, the wire header is still open; afterwards later steps cannot change it. */
  lemma {:induction false} WireHeaderAppend(h: Header, a: seq<Step>, b: seq<Step>)
    ensures StatusOf(a) == Unwritten ==> WireHeader(h, a + b) == WireHeader(HeaderAfter(h, a), b)
    ensures StatusOf(a) != Unwritten ==> WireHeader(h, a + b) == WireHeader(h, a)
    decreases |a|
  {
    if a != [] {
      assert (a + b)[0] == a[0] && (a + b)[1..] == a[1..] + b;
      WireHeaderAppend(ApplyHeader(h, a[0]), a[1..], b);
    } else {
      assert a + b == b;
    }
  }

  /**
   * Steps that send nothing neither fix the status nor add to the body: what
   * follows them decides both, on the header map they leave.
   */
  lemma {:induction false} SilentPrefix(h: Header, s: seq<Step>, t: seq<Step>)
    requires forall i :: 0 <= i < |s| ==> !SendsHeader(s[i])
    ensures StatusOf(s + t) == StatusOf(t)
    ensures BodyOf(s + t) == BodyOf(t)
    ensures WireHeader(h, s + t) == WireHeader(HeaderAfter(h, s), t)
    decreases |s|
  {
    if s != [] {
      assert (s + t)[0] == s[0] && (s + t)[1..] == s[1..] + t;
      assert !SendsHeader(s[0]);
      SilentPrefix(ApplyHeader(h, s[0]), s[1..], t);
    } else {
      assert s + t == t;
    }
  }

  /** http.StatusText for the codes the server sends. */
  function StatusText(code: int): string {
    match code
    case 200 => "OK"
    case 400 => "Bad Request"
    case 403 => "Forbidden"
    case 404 => "Not Found"
    case 405 => "Method Not Allowed"
    case 500 => "Internal Server Error"
    case _ => ""
  }

  /** An http.ResponseWriter for one request, with the ordered log described above. */
  class ResponseWriter {
    var header: Header
    var log: seq<Step>

    ghost predicate Valid()
      reads this
    {
      header == HeaderAfter(map[], log)
    }

    constructor ()
      ensures Valid() && log == [] && header == map[]
    {
      header := map[];
      log := [];
    }

    /** Appending one step keeps the header map in step with the log. */
    lemma Extend(s: Step)
      requires Valid()
      ensures HeaderAfter(map[], log + [s]) == ApplyHeader(header, s)
    {
      HeaderAfterAppend(map[], log, [s]);
      assert [s][1..] == [];
    }

    /** w.Header().Set(key, value) */
    method Set(key: string, value: string)
      requires Valid()
      modifies this
      ensures Valid()
      ensures log == old(log) + [HeaderSet(key, value)]
      ensures header == old(header)[key := [value]]
    {
      Extend(HeaderSet(key, value));
      header := header[key := [value]];
      log := log + [HeaderSet(key, value)];
    }

    /** w.Header().Add(key, value) */
    method Add(key: string, value: string)
      requires Valid()
      modifies this
      ensures Valid()
      ensures log == old(log) + [HeaderAdded(key, value)]
      ensures header == old(header)[key := (if key in old(header) then old(header)[key] else []) + [value]]
    {
      Extend(HeaderAdded(key, value));
      header := header[key := (if key in header then header[key] else []) + [value]];
      log := log + [HeaderAdded(key, value)];
    }

    /** A call that leaves the header map alone: WriteHeader, Write, or a server-side step. */
    method Append(s: Step)
      requires Valid() && !s.HeaderSet? && !s.HeaderAdded?
      modifies this
      ensures Valid()
      ensures log == old(log) + [s] && header == old(header)
    {
      Extend(s);
      log := log + [s];
    }

    /** w.WriteHeader(code) */
    method WriteHeader(code: int)
      requires Valid()
      modifies this
      ensures Valid()
      ensures log == old(log) + [StatusWritten(code)] && header == old(header)
    {
      Append(StatusWritten(code));
    }

    /** w.Write(data) */
    method Write(data: string)
      requires Valid()
      modifies this
      ensures Valid()
      ensures log == old(log) + [BodyWritten(data)] && header == old(header)
    {
      Append(BodyWritten(data));
    }

    /** Records a server-side step. */
    method Record(s: Step)
      requires Valid() && IsServerStep(s)
      modifies this
      ensures Valid()
      ensures log == old(log) + [s] && header == old(header)
    {
      Append(s);
    }
  }
}
