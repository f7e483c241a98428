/** RoutableArtefact: turns one artefact's routing intent into Router API
    requests. `submit` registers the rendering application as a backend,
    stages one route per prefix and per path, and commits; `delete` stages
    the removal of the same routes and commits. Nothing rescues a failing
    request, so the first one that raises ends the operation. */
module RoutableArtefacts {
  import opened Support
  import opened Router

  /** The routing fields of an artefact record; each may be nil. */
  datatype Artefact = Artefact(
    renderingApp: Option<string>,
    owningApp: Option<string>,
    paths: Option<seq<string>>,
    prefixes: Option<seq<string>>)

  /** Plek's `find(name, :force_http => flag)`: the base URL of an
      application, or None when the lookup raises. */
  type ServiceDiscovery = (Option<string>, bool) -> Option<string>

  datatype Error = ServiceDiscoveryError | RouterApiError

  /** How `submit` or `delete` ended: normally, or with an exception. */
  datatype Outcome = Done | Raised(error: Error)

  /** `candidates.reject(&:blank?).first`. */
  function FirstNonBlank(candidates: seq<Option<string>>): (r: Option<string>)
    ensures r.None? <==> forall i :: 0 <= i < |candidates| ==> Blank(candidates[i])
    ensures r.Some? ==> Present(r) && exists j :: 0 <= j < |candidates| && candidates[j] == r &&
                                               forall k :: 0 <= k < j ==> Blank(candidates[k])
  {
    if candidates == [] then None
    else if Present(candidates[0]) then candidates[0]
    else
      var r := FirstNonBlank(candidates[1..]);
      assert forall i :: 1 <= i < |candidates| ==> candidates[i] == candidates[1..][i - 1];
      r
  }

  /** The application that serves the artefact: its rendering app, or else its owning app. */
  function ResolveRenderingApp(a: Artefact): (r: Option<string>)
    ensures Present(a.renderingApp) ==> r == a.renderingApp
    ensures Blank(a.renderingApp) && Present(a.owningApp) ==> r == a.owningApp
    ensures Blank(a.renderingApp) && Blank(a.owningApp) ==> r == None
  {
    var candidates := [a.renderingApp, a.owningApp];
    var r := FirstNonBlank(candidates);
    assert candidates[0] == a.renderingApp && candidates[1] == a.owningApp;
    assert r.Some? ==> r == a.renderingApp || r == a.owningApp;
    r
  }

  /** `@artefact.paths || []`. */
  function Paths(a: Artefact): (paths: seq<string>)
    ensures a.paths.Some? ==> paths == a.paths.value
    ensures a.paths.None? ==> paths == []
  {
    a.paths.GetOr([])
  }

  /** `@artefact.prefixes || []`. */
  function Prefixes(a: Artefact): (prefixes: seq<string>)
    ensures a.prefixes.Some? ==> prefixes == a.prefixes.value
    ensures a.prefixes.None? ==> prefixes == []
  {
    a.prefixes.GetOr([])
  }

  /** The backend URL: the plain-HTTP address of the rendering app with "/" appended. */
  function BackendUrl(a: Artefact, find: ServiceDiscovery): (url: Option<string>)
    ensures url.Some? <==> find(ResolveRenderingApp(a), true).Some?
    ensures url.Some? ==> url.value == find(ResolveRenderingApp(a), true).value + "/"
  {
    match find(ResolveRenderingApp(a), true)
    case None => None
    case Some(base) => Some(base + "/")
  }

  /** One staged `add_route` per path, in order, all to `app`. */
  function RouteAdds(paths: seq<string>, t: RouteType, app: Option<string>): (calls: seq<Call>)
    ensures |calls| == |paths|
    ensures forall i :: 0 <= i < |paths| ==> calls[i] == AddRoute(paths[i], t, app, true)
  {
    if paths == [] then []
    else RouteAdds(paths[..|paths| - 1], t, app) + [AddRoute(paths[|paths| - 1], t, app, true)]
  }

  /** One staged `delete_route` per path, in order. */
  function RouteDeletes(paths: seq<string>, t: RouteType): (calls: seq<Call>)
    ensures |calls| == |paths|
    ensures forall i :: 0 <= i < |paths| ==> calls[i] == DeleteRoute(paths[i], t, true)
  {
    if paths == [] then []
    else RouteDeletes(paths[..|paths| - 1], t) + [DeleteRoute(paths[|paths| - 1], t, true)]
  }

  /** What `submit` and `delete` act on: the rendering app and the
      artefact's prefixes and paths, nil read as empty. */
  datatype Intent = Intent(app: Option<string>, prefixes: seq<string>, paths: seq<string>)

  function IntentOf(a: Artefact): Intent {
    Intent(ResolveRenderingApp(a), Prefixes(a), Paths(a))
  }

  /** The route changes `submit` stages: prefixes first, then exact paths. */
  function SubmitChanges(it: Intent): seq<Call> {
    RouteAdds(it.prefixes, Prefix, it.app) + RouteAdds(it.paths, Exact, it.app)
  }

  /** The route changes `delete` stages: prefixes first, then exact paths. */
  function DeleteChanges(it: Intent): seq<Call> {
    RouteDeletes(it.prefixes, Prefix) + RouteDeletes(it.paths, Exact)
  }

  /** The routes an artefact owns: a prefix route per prefix and an exact route per path. */
  function RoutesOf(it: Intent): set<RouteKey> {
    (set p | p in it.prefixes :: RouteKey(p, Prefix)) + (set p | p in it.paths :: RouteKey(p, Exact))
  }

  /** The staged additions for `paths` touch exactly one route of type `t` per path. */
  lemma TouchedRouteAdds(paths: seq<string>, t: RouteType, app: Option<string>)
    ensures Touched(RouteAdds(paths, t, app)) == set p | p in paths :: RouteKey(p, t)
  {
    var calls := RouteAdds(paths, t, app);
    forall p | p in paths ensures RouteKey(p, t) in Touched(calls) {
      var i :| 0 <= i < |paths| && paths[i] == p;
      assert KeyOf(calls[i]) == Some(RouteKey(p, t));
    }
  }

  /** The staged deletions for `paths` touch exactly one route of type `t` per path. */
  lemma TouchedRouteDeletes(paths: seq<string>, t: RouteType)
    ensures Touched(RouteDeletes(paths, t)) == set p | p in paths :: RouteKey(p, t)
  {
    var calls := RouteDeletes(paths, t);
    forall p | p in paths ensures RouteKey(p, t) in Touched(calls) {
      var i :| 0 <= i < |paths| && paths[i] == p;
      assert KeyOf(calls[i]) == Some(RouteKey(p, t));
    }
  }

  /** `submit` and `delete` each touch exactly the artefact's own routes. */
  lemma ChangesTouchOwnRoutes(it: Intent)
    ensures Touched(SubmitChanges(it)) == RoutesOf(it)
    ensures Touched(DeleteChanges(it)) == RoutesOf(it)
  {
    TouchedAppend(RouteAdds(it.prefixes, Prefix, it.app), RouteAdds(it.paths, Exact, it.app));
    TouchedAppend(RouteDeletes(it.prefixes, Prefix), RouteDeletes(it.paths, Exact));
    TouchedRouteAdds(it.prefixes, Prefix, it.app);
    TouchedRouteAdds(it.paths, Exact, it.app);
    TouchedRouteDeletes(it.prefixes, Prefix);
    TouchedRouteDeletes(it.paths, Exact);
  }

  /** Applying `submit`'s changes leaves every route the artefact does not own as it was. */
  lemma SubmitKeepsOtherRoutes(routes: map<RouteKey, Option<string>>, it: Intent)
    ensures AgreeOutside(ApplyChanges(routes, SubmitChanges(it)), routes, RoutesOf(it))
  {
    ApplyChangesOutside(routes, SubmitChanges(it));
    ChangesTouchOwnRoutes(it);
  }

  /** Applying `delete`'s changes leaves every route the artefact does not own as it was. */
  lemma DeleteKeepsOtherRoutes(routes: map<RouteKey, Option<string>>, it: Intent)
    ensures AgreeOutside(ApplyChanges(routes, DeleteChanges(it)), routes, RoutesOf(it))
  {
    ApplyChangesOutside(routes, DeleteChanges(it));
    ChangesTouchOwnRoutes(it);
  }

  /** Every request `submit` makes when none raises, given the backend URL. */
  function SubmitPlan(it: Intent, url: string): seq<Call> {
    [AddBackend(it.app, url)] + SubmitChanges(it) + [CommitRoutes]
  }

  /** Every request `delete` makes when none raises. */
  function DeletePlan(it: Intent): seq<Call> {
    DeleteChanges(it) + [CommitRoutes]
  }

  /** The order of `submit`'s requests: the backend, each prefix, each path, the commit. */
  lemma SubmitPlanShape(it: Intent, url: string)
    ensures var plan, app, pre, ps := SubmitPlan(it, url), it.app, it.prefixes, it.paths;
      && |plan| == |pre| + |ps| + 2
      && plan[0] == AddBackend(app, url)
      && (forall i :: 0 <= i < |pre| ==> plan[1 + i] == AddRoute(pre[i], Prefix, app, true))
      && (forall j :: 0 <= j < |ps| ==> plan[1 + |pre| + j] == AddRoute(ps[j], Exact, app, true))
      && plan[|plan| - 1] == CommitRoutes
  {
    var app, pre, ps := it.app, it.prefixes, it.paths;
    var plan := SubmitPlan(it, url);
    forall j | 0 <= j < |ps| ensures plan[1 + |pre| + j] == AddRoute(ps[j], Exact, app, true) {
      assert plan[1 + |pre| + j] == RouteAdds(ps, Exact, app)[j];
    }
  }

  /** The order of `delete`'s requests: each prefix, each path, the commit. */
  lemma DeletePlanShape(it: Intent)
    ensures var plan, pre, ps := DeletePlan(it), it.prefixes, it.paths;
      && |plan| == |pre| + |ps| + 1
      && (forall i :: 0 <= i < |pre| ==> plan[i] == DeleteRoute(pre[i], Prefix, true))
      && (forall j :: 0 <= j < |ps| ==> plan[|pre| + j] == DeleteRoute(ps[j], Exact, true))
      && plan[|plan| - 1] == CommitRoutes
  {
    var pre, ps := it.prefixes, it.paths;
    var plan := DeletePlan(it);
    forall j | 0 <= j < |ps| ensures plan[|pre| + j] == DeleteRoute(ps[j], Exact, true) {
      assert plan[|pre| + j] == RouteDeletes(ps, Exact)[j];
    }
  }

  /** `submit`'s plan cut into its blocks: the backend, the prefix block,
      the path block and the commit. */
  lemma SubmitPlanBlocks(it: Intent, url: string)
    ensures var plan, pre, ps := SubmitPlan(it, url), it.prefixes, it.paths;
      && |plan| == |pre| + |ps| + 2
      && plan[0] == AddBackend(it.app, url)
      && plan[1..1 + |pre|] == RouteAdds(pre, Prefix, it.app)
      && plan[1 + |pre|..1 + |pre| + |ps|] == RouteAdds(ps, Exact, it.app)
      && plan[|plan| - 1] == CommitRoutes
  {
    var a, b := RouteAdds(it.prefixes, Prefix, it.app), RouteAdds(it.paths, Exact, it.app);
    var plan := SubmitPlan(it, url);
    assert plan == [AddBackend(it.app, url)] + a + b + [CommitRoutes];
    assert plan[1..1 + |a|] == a;
    assert plan[1 + |a|..1 + |a| + |b|] == b;
  }

  /** `delete`'s plan cut into its blocks: the prefix block, the path block
      and the commit. */
  lemma DeletePlanBlocks(it: Intent)
    ensures var plan, pre, ps := DeletePlan(it), it.prefixes, it.paths;
      && |plan| == |pre| + |ps| + 1
      && plan[..|pre|] == RouteDeletes(pre, Prefix)
      && plan[|pre|..|pre| + |ps|] == RouteDeletes(ps, Exact)
      && plan[|plan| - 1] == CommitRoutes
  {
    var a, b := RouteDeletes(it.prefixes, Prefix), RouteDeletes(it.paths, Exact);
    var plan := DeletePlan(it);
    assert plan == a + b + [CommitRoutes];
    assert plan[..|a|] == a;
    assert plan[|a|..|a| + |b|] == b;
  }

  predicate IsCommit(c: Call) { c.CommitRoutes? }
  predicate IsBackend(c: Call) { c.AddBackend? }
  predicate IsRouteChange(c: Call) { c.AddRoute? || c.DeleteRoute? }

  /** The number of calls in `calls` of the kind `p`. */
  function CountIf(calls: seq<Call>, p: Call -> bool): nat {
    if calls == [] then 0 else (if p(calls[0]) then 1 else 0) + CountIf(calls[1..], p)
  }

  lemma {:induction false} CountIfAppend(a: seq<Call>, b: seq<Call>, p: Call -> bool)
    ensures CountIf(a + b, p) == CountIf(a, p) + CountIf(b, p)
  {
    if a == [] {
      assert a + b == b;
    } else {
      assert (a + b)[1..] == a[1..] + b;
      CountIfAppend(a[1..], b, p);
    }
  }

  /** A sequence whose elements all are (or all are not) of kind `p` counts all (or none) of them. */
  lemma {:induction false} CountIfUniform(calls: seq<Call>, p: Call -> bool, all: bool)
    requires forall i :: 0 <= i < |calls| ==> p(calls[i]) == all
    ensures CountIf(calls, p) == if all then |calls| else 0
  {
    if calls != [] {
      CountIfUniform(calls[1..], p, all);
    }
  }

  /** `submit` makes one backend request, one route request per prefix and
      path, and exactly one commit, which no other request follows. */
  lemma SubmitPlanCounts(it: Intent, url: string)
    ensures var plan := SubmitPlan(it, url);
      && CountIf(plan, IsBackend) == 1
      && CountIf(plan, IsRouteChange) == |it.prefixes| + |it.paths|
      && CountIf(plan, IsCommit) == 1
      && forall i :: 0 <= i < |plan| - 1 ==> !plan[i].CommitRoutes?
  {
    var app := it.app;
    var changes := SubmitChanges(it);
    SubmitPlanShape(it, url);
    var head: seq<Call> := [AddBackend(app, url)];
    var tail: seq<Call> := [CommitRoutes];
    assert forall i :: 0 <= i < |changes| ==> changes[i].AddRoute?;
    CountIfAppend(head, changes, IsBackend);
    CountIfAppend(head + changes, tail, IsBackend);
    CountIfAppend(head, changes, IsRouteChange);
    CountIfAppend(head + changes, tail, IsRouteChange);
    CountIfAppend(head, changes, IsCommit);
    CountIfAppend(head + changes, tail, IsCommit);
    CountIfUniform(changes, IsBackend, false);
    CountIfUniform(changes, IsRouteChange, true);
    CountIfUniform(changes, IsCommit, false);
  }

  /** `delete` makes no backend request, one route request per prefix and
      path, and exactly one commit, which no other request follows. */
  lemma DeletePlanCounts(it: Intent)
    ensures var plan := DeletePlan(it);
      && CountIf(plan, IsBackend) == 0
      && CountIf(plan, IsRouteChange) == |it.prefixes| + |it.paths|
      && CountIf(plan, IsCommit) == 1
      && forall i :: 0 <= i < |plan| - 1 ==> !plan[i].CommitRoutes?
  {
    var changes := DeleteChanges(it);
    DeletePlanShape(it);
    var tail: seq<Call> := [CommitRoutes];
    assert forall i :: 0 <= i < |changes| ==> changes[i].DeleteRoute?;
    CountIfAppend(changes, tail, IsBackend);
    CountIfAppend(changes, tail, IsRouteChange);
    CountIfAppend(changes, tail, IsCommit);
    CountIfUniform(changes, IsBackend, false);
    CountIfUniform(changes, IsRouteChange, true);
    CountIfUniform(changes, IsCommit, false);
  }

  /** `submit` registers the backend before it stages any route, and every
      staged route goes to the rendering app with skip_commit set. */
  lemma SubmitBackendFirst(it: Intent, url: string)
    ensures var plan := SubmitPlan(it, url);
      forall i :: 0 <= i < |plan| && plan[i].AddRoute? ==>
        0 < i && plan[0].AddBackend? && plan[i].backend == it.app && plan[i].skipCommit
  {
    SubmitPlanShape(it, url);
  }

  /** `delete` stages only deletions with skip_commit set, and never touches a backend. */
  lemma DeleteNeverAddsBackend(it: Intent)
    ensures var plan := DeletePlan(it);
      forall i :: 0 <= i < |plan| ==> !plan[i].AddBackend? && (plan[i].DeleteRoute? ==> plan[i].skipCommit)
  {
    DeletePlanShape(it);
  }

  /** An artefact with no paths and no prefixes: `submit` only registers the
      backend and commits; `delete` only commits. */
  lemma NoRoutesPlans(a: Artefact, url: string)
    requires a.paths.None? || a.paths == Some([])
    requires a.prefixes.None? || a.prefixes == Some([])
    ensures SubmitPlan(IntentOf(a), url) == [AddBackend(ResolveRenderingApp(a), url), CommitRoutes]
    ensures DeletePlan(IntentOf(a)) == [CommitRoutes]
  {
    assert Paths(a) == [] && Prefixes(a) == [];
  }

  /** Fail-fast: when a request of `submit` raises, the requests issued are
      those up to and including it, so the commit is issued only if the commit
      itself is what raised. */
  lemma SubmitFailFast(history: seq<Call>, it: Intent, url: string, raises: Raises)
    requires !Completes(history, SubmitPlan(it, url), raises)
    ensures var plan, issued := SubmitPlan(it, url), Issued(history, SubmitPlan(it, url), raises);
      && 0 < |issued| <= |plan|
      && issued == plan[..|issued|]
      && raises(history + issued[..|issued| - 1], issued[|issued| - 1])
      && (CommitRoutes in issued <==> |issued| == |plan|)
  {
    var plan := SubmitPlan(it, url);
    var k := FirstFailure(history, plan, raises);
    IssuedStopsAtFailure(history, plan, k, raises);
    SubmitPlanCounts(it, url);
    SubmitPlanShape(it, url);
    var issued := plan[..k + 1];
    assert issued[..|issued| - 1] == plan[..k];
    if k < |plan| - 1 {
      assert forall i :: 0 <= i < |issued| ==> issued[i] == plan[i];
    }
  }

  /** The same fail-fast rule for `delete`. */
  lemma DeleteFailFast(history: seq<Call>, it: Intent, raises: Raises)
    requires !Completes(history, DeletePlan(it), raises)
    ensures var plan, issued := DeletePlan(it), Issued(history, DeletePlan(it), raises);
      && 0 < |issued| <= |plan|
      && issued == plan[..|issued|]
      && raises(history + issued[..|issued| - 1], issued[|issued| - 1])
      && (CommitRoutes in issued <==> |issued| == |plan|)
  {
    var plan := DeletePlan(it);
    var k := FirstFailure(history, plan, raises);
    IssuedStopsAtFailure(history, plan, k, raises);
    DeletePlanCounts(it);
    DeletePlanShape(it);
    var issued := plan[..k + 1];
    assert issued[..|issued| - 1] == plan[..k];
    if k < |plan| - 1 {
      assert forall i :: 0 <= i < |issued| ==> issued[i] == plan[i];
    }
  }

  /** What a router serves after a completed `submit`, starting with nothing
      staged: the backend at `url`, and each prefix and path routed to the
      rendering app; routes the artefact does not name are untouched. */
  lemma SubmitServes(s: RouteTable, it: Intent, url: string)
    requires s.pending == []
    ensures var t, app := Run(s, SubmitPlan(it, url)), it.app;
      && t.pending == []
      && t.backends == s.backends[app := url]
      && (forall p :: p in it.prefixes ==> RouteKey(p, Prefix) in t.routes && t.routes[RouteKey(p, Prefix)] == app)
      && (forall p :: p in it.paths ==> RouteKey(p, Exact) in t.routes && t.routes[RouteKey(p, Exact)] == app)
      && AgreeOutside(t.routes, s.routes, RoutesOf(it))
  {
    var app := it.app;
    var changes := SubmitChanges(it);
    var a, b := RouteAdds(it.prefixes, Prefix, app), RouteAdds(it.paths, Exact, app);
    SubmitRun(s, it, url);
    SubmitKeepsOtherRoutes(s.routes, it);
    forall p | p in it.prefixes
      ensures RouteKey(p, Prefix) in ApplyChanges(s.routes, changes) && ApplyChanges(s.routes, changes)[RouteKey(p, Prefix)] == app
    {
      var i :| 0 <= i < |it.prefixes| && it.prefixes[i] == p;
      assert changes[i] == a[i];
      assert KeyOf(changes[i]) == Some(RouteKey(p, Prefix));
      ApplyAddsTarget(s.routes, changes, app, RouteKey(p, Prefix));
    }
    forall p | p in it.paths
      ensures RouteKey(p, Exact) in ApplyChanges(s.routes, changes) && ApplyChanges(s.routes, changes)[RouteKey(p, Exact)] == app
    {
      var j :| 0 <= j < |it.paths| && it.paths[j] == p;
      assert changes[|it.prefixes| + j] == b[j];
      assert KeyOf(changes[|it.prefixes| + j]) == Some(RouteKey(p, Exact));
      ApplyAddsTarget(s.routes, changes, app, RouteKey(p, Exact));
    }
  }

  /** A completed `submit` from a router with nothing staged: the backend is
      set and the staged changes are applied at the commit. */
  lemma SubmitRun(s: RouteTable, it: Intent, url: string)
    requires s.pending == []
    ensures Run(s, SubmitPlan(it, url)) ==
      RouteTable(s.backends[it.app := url], ApplyChanges(s.routes, SubmitChanges(it)), [])
  {
    var app := it.app;
    var changes := SubmitChanges(it);
    SubmitPlanShape(it, url);
    assert SubmitPlan(it, url) == [AddBackend(app, url)] + (changes + [CommitRoutes]);
    RunAppend(s, [AddBackend(app, url)], changes + [CommitRoutes]);
    var s1 := Step(s, AddBackend(app, url));
    assert Run(s, [AddBackend(app, url)]) == s1;
    assert forall i :: 0 <= i < |changes| ==> IsStaged(changes[i]);
    RunBatch(s1, changes);
  }

  /** A completed `delete` from a router with nothing staged: the staged
      deletions are applied at the commit; backends are kept. */
  lemma DeleteRun(s: RouteTable, it: Intent)
    requires s.pending == []
    ensures Run(s, DeletePlan(it)) == s.(routes := ApplyChanges(s.routes, DeleteChanges(it)))
  {
    DeletePlanShape(it);
    assert forall i :: 0 <= i < |DeleteChanges(it)| ==> IsStaged(DeleteChanges(it)[i]);
    RunBatch(s, DeleteChanges(it));
  }

  /** After a completed `delete`, none of the artefact's routes is served and
      the backends are as they were. */
  lemma DeleteRemoves(s: RouteTable, it: Intent)
    requires s.pending == []
    ensures var t := Run(s, DeletePlan(it));
      && t.pending == [] && t.backends == s.backends
      && (forall p :: p in it.prefixes ==> RouteKey(p, Prefix) !in t.routes)
      && (forall p :: p in it.paths ==> RouteKey(p, Exact) !in t.routes)
      && AgreeOutside(t.routes, s.routes, RoutesOf(it))
  {
    var changes := DeleteChanges(it);
    var a, b := RouteDeletes(it.prefixes, Prefix), RouteDeletes(it.paths, Exact);
    DeleteRun(s, it);
    DeleteKeepsOtherRoutes(s.routes, it);
    forall p | p in it.prefixes ensures RouteKey(p, Prefix) !in ApplyChanges(s.routes, changes) {
      var i :| 0 <= i < |it.prefixes| && it.prefixes[i] == p;
      assert changes[i] == a[i];
      assert KeyOf(changes[i]) == Some(RouteKey(p, Prefix));
      ApplyDeletesRemove(s.routes, changes, RouteKey(p, Prefix));
    }
    forall p | p in it.paths ensures RouteKey(p, Exact) !in ApplyChanges(s.routes, changes) {
      var j :| 0 <= j < |it.paths| && it.paths[j] == p;
      assert changes[|it.prefixes| + j] == b[j];
      assert KeyOf(changes[|it.prefixes| + j]) == Some(RouteKey(p, Exact));
      ApplyDeletesRemove(s.routes, changes, RouteKey(p, Exact));
    }
  }

  /** Submitting twice leaves the router as submitting once does. */
  lemma SubmitIdempotent(s: RouteTable, it: Intent, url: string)
    requires s.pending == []
    ensures Run(Run(s, SubmitPlan(it, url)), SubmitPlan(it, url)) == Run(s, SubmitPlan(it, url))
  {
    var app := it.app;
    var changes := SubmitChanges(it);
    SubmitRun(s, it, url);
    var t := Run(s, SubmitPlan(it, url));
    SubmitRun(t, it, url);
    ApplyChangesIdempotent(s.routes, changes);
    assert t.backends[app := url] == t.backends;
  }

  /** Deleting twice leaves the router as deleting once does. */
  lemma DeleteIdempotent(s: RouteTable, it: Intent)
    requires s.pending == []
    ensures Run(Run(s, DeletePlan(it)), DeletePlan(it)) == Run(s, DeletePlan(it))
  {
    DeleteRun(s, it);
    DeleteRun(Run(s, DeletePlan(it)), it);
    ApplyChangesIdempotent(s.routes, DeleteChanges(it));
  }

  /** One artefact's routing: `RoutableArtefact.new(artefact)` with its
      Router API client. The rendering app is memoised with `||=`, so a nil
      result is looked up again on the next use. */
  class RoutableArtefact {
    const artefact: Artefact
    const router: RouterApi
    var renderingAppCache: Option<string>

    ghost predicate Valid()
      reads this
    {
      renderingAppCache.None? || renderingAppCache == ResolveRenderingApp(artefact)
    }

    constructor (artefact: Artefact, router: RouterApi)
      ensures this.artefact == artefact && this.router == router
      ensures renderingAppCache == None && Valid()
    {
      this.artefact := artefact;
      this.router := router;
      renderingAppCache := None;
    }

    /** `rendering_app`. */
    method RenderingApp() returns (app: Option<string>)
      requires Valid()
      modifies this
      ensures Valid()
      ensures app == ResolveRenderingApp(artefact) && renderingAppCache == app
    {
      if renderingAppCache.None? {
        renderingAppCache := FirstNonBlank([artefact.renderingApp, artefact.owningApp]);
      }
      app := renderingAppCache;
    }

    /** `ensure_application_exists`: registers the rendering app as a backend
        at its plain-HTTP address with "/" appended. */
    method EnsureApplicationExists(find: ServiceDiscovery) returns (outcome: Outcome)
      requires Valid()
      modifies this, router
      ensures Valid() && renderingAppCache == ResolveRenderingApp(artefact)
      ensures BackendUrl(artefact, find).None? ==>
        router.trace == old(router.trace) && outcome == Raised(ServiceDiscoveryError)
      ensures BackendUrl(artefact, find).Some? ==>
        var call := AddBackend(ResolveRenderingApp(artefact), BackendUrl(artefact, find).value);
        && router.trace == old(router.trace) + [call]
        && (outcome == Done <==> !router.raises(old(router.trace), call))
        && (outcome != Done ==> outcome == Raised(RouterApiError))
    {
      var app := RenderingApp();
      var found := find(app, true);
      if found.None? {
        return Raised(ServiceDiscoveryError);
      }
      var url := found.value + "/";
      app := RenderingApp();
      var ok := router.AddBackend(app, url);
      outcome := if ok then Done else Raised(RouterApiError);
    }

    /** One `each` block of `submit`: an `add_route` of type `t` to the
        rendering app, with skip_commit, for every path in order, stopping
        at the first that raises. These are requests `offset..` of `plan`. */
    method StageAdds(paths: seq<string>, t: RouteType,
                     ghost history: seq<Call>, ghost plan: seq<Call>, ghost offset: nat) returns (ok: bool)
      requires renderingAppCache == ResolveRenderingApp(artefact)
      requires offset + |paths| <= |plan|
      requires plan[offset..offset + |paths|] == RouteAdds(paths, t, ResolveRenderingApp(artefact))
      requires router.trace == history + plan[..offset] && Completes(history, plan[..offset], router.raises)
      modifies this, router
      ensures renderingAppCache == old(renderingAppCache)
      ensures ok ==> router.trace == history + plan[..offset + |paths|] &&
                     Completes(history, plan[..offset + |paths|], router.raises)
      ensures !ok ==> router.trace == history + Issued(history, plan, router.raises) &&
                      !Completes(history, plan, router.raises)
    {
      var i := 0;
      while i < |paths|
        invariant 0 <= i <= |paths|
        invariant renderingAppCache == ResolveRenderingApp(artefact)
        invariant router.trace == history + plan[..offset + i]
        invariant Completes(history, plan[..offset + i], router.raises)
      {
        var app := RenderingApp();
        assert plan[offset + i] == AddRoute(paths[i], t, app, true) by {
          assert plan[offset + i] == plan[offset..offset + |paths|][i];
        }
        ghost var before := router.trace;
        ok := router.AddRoute(paths[i], t, app, true);
        IssueNext(history, plan, offset + i, router.raises, before);
        if !ok {
          return;
        }
        i := i + 1;
      }
      ok := true;
    }

    /** One `each` block of `delete`: a `delete_route` of type `t`, with
        skip_commit, for every path in order, stopping at the first that
        raises. These are requests `offset..` of `plan`. */
    method StageDeletes(paths: seq<string>, t: RouteType,
                        ghost history: seq<Call>, ghost plan: seq<Call>, ghost offset: nat) returns (ok: bool)
      requires offset + |paths| <= |plan|
      requires plan[offset..offset + |paths|] == RouteDeletes(paths, t)
      requires router.trace == history + plan[..offset] && Completes(history, plan[..offset], router.raises)
      modifies router
      ensures ok ==> router.trace == history + plan[..offset + |paths|] &&
                     Completes(history, plan[..offset + |paths|], router.raises)
      ensures !ok ==> router.trace == history + Issued(history, plan, router.raises) &&
                      !Completes(history, plan, router.raises)
    {
      var i := 0;
      while i < |paths|
        invariant 0 <= i <= |paths|
        invariant router.trace == history + plan[..offset + i]
        invariant Completes(history, plan[..offset + i], router.raises)
      {
        assert plan[offset + i] == DeleteRoute(paths[i], t, true) by {
          assert plan[offset + i] == plan[offset..offset + |paths|][i];
        }
        ghost var before := router.trace;
        ok := router.DeleteRoute(paths[i], t, true);
        IssueNext(history, plan, offset + i, router.raises, before);
        if !ok {
          return;
        }
        i := i + 1;
      }
      ok := true;
    }

    /** The closing `commit_routes` of `submit` and `delete`: the last
        request of `plan`, issued once every earlier one has returned. */
    method CommitStaged(ghost history: seq<Call>, ghost plan: seq<Call>) returns (ok: bool)
      requires |plan| > 0 && plan[|plan| - 1] == CommitRoutes
      requires router.trace == history + plan[..|plan| - 1] && Completes(history, plan[..|plan| - 1], router.raises)
      modifies router
      ensures router.trace == history + Issued(history, plan, router.raises)
      ensures ok <==> Completes(history, plan, router.raises)
    {
      ghost var before := router.trace;
      ok := router.CommitRoutes();
      IssueNext(history, plan, |plan| - 1, router.raises, before);
      assert plan[..|plan|] == plan;
      if ok {
        IssuedCompletes(history, plan, router.raises);
      }
    }

    /** `submit`: the backend, then each prefix and each path, then one commit,
        stopping at the first request that raises. */
    method Submit(find: ServiceDiscovery) returns (outcome: Outcome)
      requires Valid()
      modifies this, router
      ensures Valid() && renderingAppCache == ResolveRenderingApp(artefact)
      ensures BackendUrl(artefact, find).None? ==>
        router.trace == old(router.trace) && outcome == Raised(ServiceDiscoveryError)
      ensures BackendUrl(artefact, find).Some? ==>
        var plan := SubmitPlan(IntentOf(artefact), BackendUrl(artefact, find).value);
        && router.trace == old(router.trace) + Issued(old(router.trace), plan, router.raises)
        && (outcome == Done <==> Completes(old(router.trace), plan, router.raises))
        && (outcome != Done ==> outcome == Raised(RouterApiError))
    {
      outcome := EnsureApplicationExists(find);
      if outcome == Raised(ServiceDiscoveryError) {
        return;
      }
      ghost var history := old(router.trace);
      ghost var url := BackendUrl(artefact, find).value;
      ghost var plan := SubmitPlan(IntentOf(artefact), url);
      SubmitPlanBlocks(IntentOf(artefact), url);
      assert history + plan[..0] == history;
      if outcome != Done {
        IssuedStopsAtFailure(history, plan, 0, router.raises);
        return;
      }
      assert plan[..1] == [plan[0]];
      outcome := SubmitRoutes(history, plan, url);
    }

    /** The rest of `submit` once the backend request has returned: each
        prefix, each path, then the commit. `plan` is the whole submit plan. */
    method SubmitRoutes(ghost history: seq<Call>, ghost plan: seq<Call>, ghost url: string) returns (outcome: Outcome)
      requires renderingAppCache == ResolveRenderingApp(artefact)
      requires plan == SubmitPlan(IntentOf(artefact), url)
      requires router.trace == history + plan[..1] && Completes(history, plan[..1], router.raises)
      modifies this, router
      ensures renderingAppCache == old(renderingAppCache)
      ensures router.trace == history + Issued(history, plan, router.raises)
      ensures outcome == Done <==> Completes(history, plan, router.raises)
      ensures outcome != Done ==> outcome == Raised(RouterApiError)
    {
      SubmitPlanBlocks(IntentOf(artefact), url);
      var prefixes := Prefixes(artefact);
      var ok := StageAdds(prefixes, Prefix, history, plan, 1);
      if !ok {
        return Raised(RouterApiError);
      }
      var paths := Paths(artefact);
      ok := StageAdds(paths, Exact, history, plan, 1 + |prefixes|);
      if !ok {
        return Raised(RouterApiError);
      }
      ok := CommitStaged(history, plan);
      outcome := if ok then Done else Raised(RouterApiError);
    }

    /** `delete`: each prefix and each path, then one commit, stopping at the
        first request that raises. It neither registers a backend nor looks
        up the rendering app. */
    method Delete() returns (outcome: Outcome)
      modifies router
      ensures router.trace == old(router.trace) + Issued(old(router.trace), DeletePlan(IntentOf(artefact)), router.raises)
      ensures outcome == Done <==> Completes(old(router.trace), DeletePlan(IntentOf(artefact)), router.raises)
      ensures outcome != Done ==> outcome == Raised(RouterApiError)
    {
      ghost var history := old(router.trace);
      ghost var plan := DeletePlan(IntentOf(artefact));
      DeletePlanBlocks(IntentOf(artefact));
      assert history + plan[..0] == history;

      var prefixes := Prefixes(artefact);
      var paths := Paths(artefact);
      var ok := StageDeletes(prefixes, Prefix, history, plan, 0);
      if !ok {
        return Raised(RouterApiError);
      }
      ok := StageDeletes(paths, Exact, history, plan, |prefixes|);
      if !ok {
        return Raised(RouterApiError);
      }

      ok := CommitStaged(history, plan);
      outcome := if ok then Done else Raised(RouterApiError);
    }
  }
}
