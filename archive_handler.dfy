/**
 * The older snapshot's archive add-on: a route whose handler is the same
 * code as the built-in getArchive (ArchiveResult models both), registered
 * by the embedding program with AddRoute after the built-in routes.
 */
module ArchiveHandler {
  import opened Wrappers
  import opened PathPatterns
  import opened Routing
  import opened TransferHandlers
  import opened TransferServer

  /** The method the add-on's route is registered with. */
  const Method := "GET"

  /** `(.*?)/archive/.*?\.(zip|tar)$`, the same expression as the built-in archive route. */
  function Pattern(path: string): Option<seq<string>> { PrefixGroupMatch(Archive, path) }

  /** The route the embedding program adds for the add-on's HandlerFunc. */
  function ArchiveRoute(): TransferRoute { Route(Method, Pattern, GetArchive) }

  /**
   * Added after the built-in routes, the add-on's route is never the one
   * that decides: wherever its pattern fires, the built-in archive route
   * fires first, so every request is dispatched as without it.
   */
  lemma AddedRouteNeverReached(verb: string, path: string)
    ensures Resolve(BuiltinRoutes() + [ArchiveRoute()], verb, path) == Resolve(BuiltinRoutes(), verb, path)
    ensures Dispatch(BuiltinRoutes() + [ArchiveRoute()], verb, path) == Dispatch(BuiltinRoutes(), verb, path)
  {
    var a := BuiltinRoutes();
    assert a[|a| - 1].pattern == GetArchivePattern;
    CoveredRouteShadowed(a, ArchiveRoute(), verb, path);
  }

  /** A route that fires only where the table's last route fires changes nothing when appended. */
  lemma CoveredRouteShadowed<M, H>(a: seq<Route<M, H>>, r: Route<M, H>, verb: string, path: string)
    requires |a| > 0
    requires r.pattern(path).Some? ==> a[|a| - 1].pattern(path).Some?
    ensures Resolve(a + [r], verb, path) == Resolve(a, verb, path)
  {
    FirstFiringAppend(a, [r], path);
    if FirstFiring(a, path) < |a| {
      ShadowedByEarlier(a, [r], verb, path);
    } else {
      assert [r][1..] == [];
    }
  }
}
