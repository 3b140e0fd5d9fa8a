/**
 * The ordered route table of both snapshots. A route pairs an HTTP method
 * with a pattern over the URL path and a handler; Match scans the routes in
 * registration order and the first pattern that fires decides the outcome.
 * githttpxfer's patterns yield a Match (repository and file path),
 * githttptransfer's yield the regexp submatches; `M` stands for either.
 */
module Routing {
  import opened Wrappers
  import opened RouteErrors

  datatype Route<M, H> = Route(verb: string, pattern: string -> Option<M>, handler: H)

  /** The outcome of routing a request. */
  datatype Resolution<M, H> =
    | Matched(m: M, route: Route<M, H>)
    | Refused(err: RouteError)

  /** The index of the first route whose pattern fires on `path`, or |routes| when none does. */
  function FirstFiring<M, H>(routes: seq<Route<M, H>>, path: string): (i: nat)
    ensures i <= |routes|
    ensures i < |routes| ==> routes[i].pattern(path).Some?
    ensures forall k :: 0 <= k < i ==> routes[k].pattern(path).None?
  {
    if routes == [] then 0
    else if routes[0].pattern(path).Some? then 0
    else 1 + FirstFiring(routes[1..], path)
  }

  /** What Match decides for a request with method `verb` on `path`. */
  function Resolve<M, H>(routes: seq<Route<M, H>>, verb: string, path: string): Resolution<M, H> {
    var i := FirstFiring(routes, path);
    if i == |routes| then Refused(URLNotFound(verb, path))
    else if routes[i].verb != verb then Refused(MethodNotAllowed(verb, path))
    else Matched(routes[i].pattern(path).value, routes[i])
  }

  class Router<M, H> {
    var routes: seq<Route<M, H>>

    /** newRouter, and equally the zero router whose nil slice Add initialises. */
    constructor ()
      ensures routes == []
    {
      routes := [];
    }

    /** Appends one route after all earlier ones. */
    method Add(route: Route<M, H>)
      modifies this
      ensures routes == old(routes) + [route]
    {
      routes := routes + [route];
    }

    /** Scans the routes in order; the first whose pattern fires decides. */
    method Match(verb: string, path: string) returns (found: Option<M>, route: Option<Route<M, H>>, err: Option<RouteError>)
      ensures found.Some? <==> route.Some?
      ensures found.Some? <==> err.None?
      ensures Resolve(routes, verb, path).Matched? ==>
        found == Some(Resolve(routes, verb, path).m) && route == Some(Resolve(routes, verb, path).route)
      ensures Resolve(routes, verb, path).Refused? ==> err == Some(Resolve(routes, verb, path).err)
    {
      var i := 0;
      while i < |routes|
        invariant 0 <= i <= |routes|
        invariant forall k :: 0 <= k < i ==> routes[k].pattern(path).None?
      {
        var v := routes[i];
        var m := v.pattern(path);
        if m.Some? {
          if v.verb != verb {
            return None, None, Some(MethodNotAllowed(verb, path));
          }
          return m, Some(v), None;
        }
        i := i + 1;
      }
      return None, None, Some(URLNotFound(verb, path));
    }
  }

  /** A request is served exactly when some route fires, every earlier one stays silent, and the first that fires has its method. */
  lemma MatchedIff<M, H>(routes: seq<Route<M, H>>, verb: string, path: string)
    ensures Resolve(routes, verb, path).Matched? <==>
      exists i :: 0 <= i < |routes| && routes[i].pattern(path).Some? && routes[i].verb == verb
        && forall k :: 0 <= k < i ==> routes[k].pattern(path).None?
    ensures Resolve(routes, verb, path).Matched? ==>
      var r := Resolve(routes, verb, path);
      var i := FirstFiring(routes, path);
      routes[i] == r.route && routes[i].pattern(path) == Some(r.m) && r.route.verb == verb
  {
    var i := FirstFiring(routes, path);
    if exists j :: 0 <= j < |routes| && routes[j].pattern(path).Some? && routes[j].verb == verb
        && forall k :: 0 <= k < j ==> routes[k].pattern(path).None? {
      var j :| 0 <= j < |routes| && routes[j].pattern(path).Some? && routes[j].verb == verb
        && forall k :: 0 <= k < j ==> routes[k].pattern(path).None?;
      assert i == j;
    }
  }

  /** URL-not-found exactly when no pattern fires at all. */
  lemma NotFoundIff<M, H>(routes: seq<Route<M, H>>, verb: string, path: string)
    ensures Resolve(routes, verb, path) == Refused(URLNotFound(verb, path)) <==>
      forall k :: 0 <= k < |routes| ==> routes[k].pattern(path).None?
  {
    var i := FirstFiring(routes, path);
    if i < |routes| {
      assert routes[i].pattern(path).Some?;
    }
  }

  /**
   * The first route that fires with another method refuses the request even
   * when a later route would fire with the request's method.
   */
  lemma MethodNotAllowedDespiteLaterFit<M, H>(routes: seq<Route<M, H>>, verb: string, path: string, i: nat, j: nat)
    requires i < j < |routes|
    requires forall k :: 0 <= k < i ==> routes[k].pattern(path).None?
    requires routes[i].pattern(path).Some? && routes[i].verb != verb
    requires routes[j].pattern(path).Some? && routes[j].verb == verb
    ensures Resolve(routes, verb, path) == Refused(MethodNotAllowed(verb, path))
  {
    assert FirstFiring(routes, path) == i;
  }

  /** Routes registered later are consulted only when none of the earlier ones fires. */
  lemma {:induction false} FirstFiringAppend<M, H>(a: seq<Route<M, H>>, b: seq<Route<M, H>>, path: string)
    ensures FirstFiring(a + b, path) ==
      if FirstFiring(a, path) < |a| then FirstFiring(a, path) else |a| + FirstFiring(b, path)
    decreases |a|
  {
    if a != [] {
      assert (a + b)[1..] == a[1..] + b;
      FirstFiringAppend(a[1..], b, path);
    } else {
      assert a + b == b;
    }
  }

  /** A route table extended at the end resolves as before whenever an earlier route fires. */
  lemma ShadowedByEarlier<M, H>(a: seq<Route<M, H>>, b: seq<Route<M, H>>, verb: string, path: string)
    requires exists k :: 0 <= k < |a| && a[k].pattern(path).Some?
    ensures Resolve(a + b, verb, path) == Resolve(a, verb, path)
  {
    FirstFiringAppend(a, b, path);
    var k :| 0 <= k < |a| && a[k].pattern(path).Some?;
    assert FirstFiring(a, path) <= k;
    assert (a + b)[FirstFiring(a, path)] == a[FirstFiring(a, path)];
  }

  /** Routes that do not fire can be dropped from the front of the table. */
  lemma SkipNonFiring<M, H>(routes: seq<Route<M, H>>, k: nat, verb: string, path: string)
    requires k <= |routes|
    requires forall i :: 0 <= i < k ==> routes[i].pattern(path).None?
    ensures Resolve(routes, verb, path) == Resolve(routes[k..], verb, path)
  {
    assert routes == routes[..k] + routes[k..];
    FallThroughToLater(routes[..k], routes[k..], verb, path);
  }

  /** When no earlier route fires, the routes appended after them decide exactly as they would alone. */
  lemma FallThroughToLater<M, H>(a: seq<Route<M, H>>, b: seq<Route<M, H>>, verb: string, path: string)
    requires forall k :: 0 <= k < |a| ==> a[k].pattern(path).None?
    ensures Resolve(a + b, verb, path) == Resolve(b, verb, path)
  {
    FirstFiringAppend(a, b, path);
    assert FirstFiring(a, path) == |a|;
    var j := FirstFiring(b, path);
    if j < |b| {
      assert (a + b)[|a| + j] == b[j];
    }
  }

  /** When the first route fires, it alone decides: matched for its method, method-not-allowed for any other. */
  lemma FirstRouteDecides<M, H>(routes: seq<Route<M, H>>, verb: string, path: string)
    requires |routes| > 0 && routes[0].pattern(path).Some?
    ensures Resolve(routes, verb, path) ==
      if verb == routes[0].verb then Matched(routes[0].pattern(path).value, routes[0])
      else Refused(MethodNotAllowed(verb, path))
  {
  }
}
