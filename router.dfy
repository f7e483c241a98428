/** The Router API client that RoutableArtefact talks to, seen from outside:
    every request it receives is recorded in a trace, a request may raise
    (the client's transport or HTTP failure), and, separately, the route
    table that a router holding those requests would serve. */
module Router {
  import opened Support

  /** The two kinds of route the Router API accepts. */
  datatype RouteType = Prefix | Exact {
    /** The string sent on the wire. */
    function Name(): string {
      match this
      case Prefix => "prefix"
      case Exact => "exact"
    }
  }

  /** One request made through the client. Backend names are nil when the
      artefact names no application (the caller passes nil on). */
  datatype Call =
    | AddBackend(name: Option<string>, url: string)
    | AddRoute(path: string, routeType: RouteType, backend: Option<string>, skipCommit: bool)
    | DeleteRoute(path: string, routeType: RouteType, skipCommit: bool)
    | CommitRoutes

  /** Decides whether a request raises, given every request issued before it. */
  type Raises = (seq<Call>, Call) -> bool

  /** True when every call of `plan`, issued in order after `history`, returns normally. */
  predicate Completes(history: seq<Call>, plan: seq<Call>, raises: Raises)
    decreases |plan|
  {
    plan == [] || (!raises(history, plan[0]) && Completes(history + [plan[0]], plan[1..], raises))
  }

  /** The calls of `plan` that reach the client when nothing rescues a failure:
      all of them up to and including the first one that raises. */
  function Issued(history: seq<Call>, plan: seq<Call>, raises: Raises): (r: seq<Call>)
    ensures |r| <= |plan| && r == plan[..|r|]
    decreases |plan|
  {
    if plan == [] then []
    else if raises(history, plan[0]) then [plan[0]]
    else [plan[0]] + Issued(history + [plan[0]], plan[1..], raises)
  }

  /** A plan whose calls all return normally is issued in full. */
  lemma {:induction false} IssuedCompletes(history: seq<Call>, plan: seq<Call>, raises: Raises)
    requires Completes(history, plan, raises)
    ensures Issued(history, plan, raises) == plan
    decreases |plan|
  {
    if plan != [] {
      IssuedCompletes(history + [plan[0]], plan[1..], raises);
    }
  }

  /** Issuing `p + q` where `p` completes issues all of `p`, then what `q` issues after it. */
  lemma {:induction false} IssuedAppend(history: seq<Call>, p: seq<Call>, q: seq<Call>, raises: Raises)
    requires Completes(history, p, raises)
    ensures Issued(history, p + q, raises) == p + Issued(history + p, q, raises)
    decreases |p|
  {
    if p == [] {
      assert p + q == q && history + p == history;
    } else {
      var c, rest := p[0], p[1..];
      assert Issued(history, p + q, raises) == [c] + Issued(history + [c], rest + q, raises) by {
        assert (p + q)[0] == c && (p + q)[1..] == rest + q;
      }
      assert Issued(history + [c], rest + q, raises) == rest + Issued(history + p, q, raises) by {
        assert (history + [c]) + rest == history + p;
        IssuedAppend(history + [c], rest, q, raises);
      }
      assert p == [c] + rest;
      SnocRegroup(p, [c], rest, Issued(history + p, q, raises));
    }
  }

  /** A plan completes one call longer exactly when its prefix completes and the new call returns. */
  lemma {:induction false} CompletesSnoc(history: seq<Call>, p: seq<Call>, c: Call, raises: Raises)
    ensures Completes(history, p + [c], raises) <==> Completes(history, p, raises) && !raises(history + p, c)
    decreases |p|
  {
    if p == [] {
      assert p + [c] == [c];
      assert history + p == history;
      assert [c][1..] == [];
    } else {
      assert (p + [c])[0] == p[0];
      assert (p + [c])[1..] == p[1..] + [c];
      assert history + [p[0]] + p[1..] == history + p;
      CompletesSnoc(history + [p[0]], p[1..], c, raises);
    }
  }

  /** Fail-fast: when call `k` is the first to raise, calls `0..k` are issued and no later one is. */
  lemma IssuedStopsAtFailure(history: seq<Call>, plan: seq<Call>, k: nat, raises: Raises)
    requires k < |plan|
    requires Completes(history, plan[..k], raises)
    requires raises(history + plan[..k], plan[k])
    ensures Issued(history, plan, raises) == plan[..k + 1]
    ensures !Completes(history, plan, raises)
  {
    assert plan == plan[..k] + plan[k..];
    IssuedAppend(history, plan[..k], plan[k..], raises);
    assert plan[k..][0] == plan[k];
    assert plan[..k] + [plan[k]] == plan[..k + 1];
    if Completes(history, plan, raises) {
      CompletesPrefix(history, plan, k + 1, raises);
      CompletesSnoc(history, plan[..k], plan[k], raises);
      assert false;
    }
  }

  /** Issuing call `k` of a plan whose first `k` calls returned, on a client
      whose trace was `before`: either the plan goes on, or it stops with
      exactly calls `0..k` issued. */
  lemma IssueNext(history: seq<Call>, plan: seq<Call>, k: nat, raises: Raises, before: seq<Call>)
    requires k < |plan| && before == history + plan[..k] && Completes(history, plan[..k], raises)
    ensures !raises(before, plan[k]) ==>
      before + [plan[k]] == history + plan[..k + 1] && Completes(history, plan[..k + 1], raises)
    ensures raises(before, plan[k]) ==>
      before + [plan[k]] == history + Issued(history, plan, raises) && !Completes(history, plan, raises)
  {
    CompletesSnoc(history, plan[..k], plan[k], raises);
    assert plan[..k] + [plan[k]] == plan[..k + 1];
    if raises(before, plan[k]) {
      IssuedStopsAtFailure(history, plan, k, raises);
    }
  }

  /** A plan that does not complete has a first call that raises, after a prefix that completes. */
  lemma {:induction false} FirstFailure(history: seq<Call>, plan: seq<Call>, raises: Raises) returns (k: nat)
    requires !Completes(history, plan, raises)
    ensures k < |plan| && Completes(history, plan[..k], raises) && raises(history + plan[..k], plan[k])
    decreases |plan|
  {
    if raises(history, plan[0]) {
      k := 0;
      assert history + plan[..0] == history;
    } else {
      var j := FirstFailure(history + [plan[0]], plan[1..], raises);
      k := j + 1;
      assert plan[..k][0] == plan[0] && plan[..k][1..] == plan[1..][..j];
      assert history + [plan[0]] + plan[1..][..j] == history + plan[..k];
      assert plan[1..][j] == plan[k];
    }
  }

  /** Every prefix of a completing plan completes. */
  lemma {:induction false} CompletesPrefix(history: seq<Call>, plan: seq<Call>, n: nat, raises: Raises)
    requires n <= |plan|
    requires Completes(history, plan, raises)
    ensures Completes(history, plan[..n], raises)
    decreases |plan|
  {
    if n > 0 {
      assert plan[..n][0] == plan[0];
      assert plan[..n][1..] == plan[1..][..n - 1];
      CompletesPrefix(history + [plan[0]], plan[1..], n - 1, raises);
    }
  }

  /** The Router API client, as a recorder: `trace` holds every request it
      has been sent, in order; `raises` says which requests fail. */
  class RouterApi {
    var trace: seq<Call>
    const raises: Raises

    constructor (raises: Raises)
      ensures trace == [] && this.raises == raises
    {
      trace := [];
      this.raises := raises;
    }

    /** Sends one request; `ok` is false when the request raised. */
    method Issue(c: Call) returns (ok: bool)
      modifies this
      ensures trace == old(trace) + [c]
      ensures ok == !raises(old(trace), c)
    {
      ok := !raises(trace, c);
      trace := trace + [c];
    }

    /** `add_backend(name, url)`. */
    method AddBackend(name: Option<string>, url: string) returns (ok: bool)
      modifies this
      ensures trace == old(trace) + [Call.AddBackend(name, url)]
      ensures ok == !raises(old(trace), Call.AddBackend(name, url))
    {
      ok := Issue(Call.AddBackend(name, url));
    }

    /** `add_route(path, type, backend, :skip_commit => skipCommit)`. */
    method AddRoute(path: string, routeType: RouteType, backend: Option<string>, skipCommit: bool) returns (ok: bool)
      modifies this
      ensures trace == old(trace) + [Call.AddRoute(path, routeType, backend, skipCommit)]
      ensures ok == !raises(old(trace), Call.AddRoute(path, routeType, backend, skipCommit))
    {
      ok := Issue(Call.AddRoute(path, routeType, backend, skipCommit));
    }

    /** `delete_route(path, type, :skip_commit => skipCommit)`. */
    method DeleteRoute(path: string, routeType: RouteType, skipCommit: bool) returns (ok: bool)
      modifies this
      ensures trace == old(trace) + [Call.DeleteRoute(path, routeType, skipCommit)]
      ensures ok == !raises(old(trace), Call.DeleteRoute(path, routeType, skipCommit))
    {
      ok := Issue(Call.DeleteRoute(path, routeType, skipCommit));
    }

    /** `commit_routes`. */
    method CommitRoutes() returns (ok: bool)
      modifies this
      ensures trace == old(trace) + [Call.CommitRoutes]
      ensures ok == !raises(old(trace), Call.CommitRoutes)
    {
      ok := Issue(Call.CommitRoutes);
    }
  }

  // ---------------------------------------------------------------------
  // The route table a router serves once it has received a trace.
  // Staged route changes take effect at the next commit; a change sent
  // without skip_commit is committed at once, together with what was staged.
  // Deleting a route that is not there is a no-op.

  datatype RouteKey = RouteKey(path: string, routeType: RouteType)

  datatype RouteTable = RouteTable(
    backends: map<Option<string>, string>,
    routes: map<RouteKey, Option<string>>,
    pending: seq<Call>)

  /** The route a staged change is about, if it is a route change. */
  function KeyOf(c: Call): Option<RouteKey> {
    match c
    case AddRoute(p, t, _, _) => Some(RouteKey(p, t))
    case DeleteRoute(p, t, _) => Some(RouteKey(p, t))
    case _ => None
  }

  /** The routes that a list of changes touches: exactly the keys of its route changes. */
  function Touched(changes: seq<Call>): (keys: set<RouteKey>)
    ensures forall i :: 0 <= i < |changes| && KeyOf(changes[i]).Some? ==> KeyOf(changes[i]).value in keys
    ensures forall k :: k in keys ==> exists i :: 0 <= i < |changes| && KeyOf(changes[i]) == Some(k)
  {
    if changes == [] then {}
    else
      var rest := Touched(changes[1..]);
      assert forall k :: k in rest ==> exists i :: 1 <= i < |changes| && KeyOf(changes[i]) == Some(k) by {
        forall k | k in rest ensures exists i :: 1 <= i < |changes| && KeyOf(changes[i]) == Some(k) {
          var j :| 0 <= j < |changes| - 1 && KeyOf(changes[1..][j]) == Some(k);
          assert changes[1..][j] == changes[j + 1];
        }
      }
      (if KeyOf(changes[0]).Some? then {KeyOf(changes[0]).value} else {}) + rest
  }

  /** The routes two lists of changes touch together. */
  lemma {:induction false} TouchedAppend(a: seq<Call>, b: seq<Call>)
    ensures Touched(a + b) == Touched(a) + Touched(b)
    decreases |a|
  {
    if a == [] {
      assert a + b == b;
    } else {
      assert (a + b)[1..] == a[1..] + b;
      TouchedAppend(a[1..], b);
    }
  }

  function ApplyChange(routes: map<RouteKey, Option<string>>, c: Call): map<RouteKey, Option<string>> {
    match c
    case AddRoute(p, t, b, _) => routes[RouteKey(p, t) := b]
    case DeleteRoute(p, t, _) => routes - {RouteKey(p, t)}
    case _ => routes
  }

  function ApplyChanges(routes: map<RouteKey, Option<string>>, changes: seq<Call>): map<RouteKey, Option<string>>
    decreases |changes|
  {
    if changes == [] then routes else ApplyChanges(ApplyChange(routes, changes[0]), changes[1..])
  }

  /** The router's state after it receives one request. */
  function Step(s: RouteTable, c: Call): RouteTable {
    match c
    case AddBackend(n, u) => s.(backends := s.backends[n := u])
    case AddRoute(_, _, _, skip) =>
      if skip then s.(pending := s.pending + [c])
      else s.(routes := ApplyChanges(s.routes, s.pending + [c]), pending := [])
    case DeleteRoute(_, _, skip) =>
      if skip then s.(pending := s.pending + [c])
      else s.(routes := ApplyChanges(s.routes, s.pending + [c]), pending := [])
    case CommitRoutes => s.(routes := ApplyChanges(s.routes, s.pending), pending := [])
  }

  /** The router's state after it receives `calls` in order. */
  function Run(s: RouteTable, calls: seq<Call>): RouteTable
    decreases |calls|
  {
    if calls == [] then s else Run(Step(s, calls[0]), calls[1..])
  }

  /** Two route maps agree on every route outside `keys`. */
  ghost predicate AgreeOutside(r1: map<RouteKey, Option<string>>, r2: map<RouteKey, Option<string>>, keys: set<RouteKey>) {
    forall k :: k !in keys ==> (k in r1 <==> k in r2) && (k in r1 ==> r1[k] == r2[k])
  }

  /** Applying changes leaves every untouched route as it was. */
  lemma {:induction false} ApplyChangesOutside(routes: map<RouteKey, Option<string>>, changes: seq<Call>)
    ensures AgreeOutside(ApplyChanges(routes, changes), routes, Touched(changes))
    decreases |changes|
  {
    if changes != [] {
      ApplyChangesOutside(ApplyChange(routes, changes[0]), changes[1..]);
    }
  }

  /** What a list of changes leaves behind depends only on the routes it does not touch. */
  lemma {:induction false} ApplyChangesDetermined(r1: map<RouteKey, Option<string>>, r2: map<RouteKey, Option<string>>, changes: seq<Call>)
    requires AgreeOutside(r1, r2, Touched(changes))
    ensures ApplyChanges(r1, changes) == ApplyChanges(r2, changes)
    decreases |changes|
  {
    if changes == [] {
      assert r1.Keys == r2.Keys;
    } else {
      var c := changes[0];
      assert AgreeOutside(ApplyChange(r1, c), ApplyChange(r2, c), Touched(changes[1..]));
      ApplyChangesDetermined(ApplyChange(r1, c), ApplyChange(r2, c), changes[1..]);
    }
  }

  /** Applying the same changes twice gives what applying them once gives. */
  lemma ApplyChangesIdempotent(routes: map<RouteKey, Option<string>>, changes: seq<Call>)
    ensures ApplyChanges(ApplyChanges(routes, changes), changes) == ApplyChanges(routes, changes)
  {
    ApplyChangesOutside(routes, changes);
    ApplyChangesDetermined(ApplyChanges(routes, changes), routes, changes);
  }

  /** A staged change: a route change sent with skip_commit. */
  predicate IsStaged(c: Call) {
    (c.AddRoute? || c.DeleteRoute?) && c.skipCommit
  }

  /** Staged changes only accumulate; the served routes do not change until a commit. */
  lemma {:induction false} RunStaged(s: RouteTable, changes: seq<Call>)
    requires forall i :: 0 <= i < |changes| ==> IsStaged(changes[i])
    ensures Run(s, changes) == s.(pending := s.pending + changes)
    decreases |changes|
  {
    if changes != [] {
      assert Step(s, changes[0]) == s.(pending := s.pending + [changes[0]]);
      assert s.pending + [changes[0]] + changes[1..] == s.pending + changes;
      RunStaged(Step(s, changes[0]), changes[1..]);
    }
  }

  /** Running `a + b` runs `a`, then `b` from where `a` left the router. */
  lemma {:induction false} RunAppend(s: RouteTable, a: seq<Call>, b: seq<Call>)
    ensures Run(s, a + b) == Run(Run(s, a), b)
    decreases |a|
  {
    if a == [] {
      assert a + b == b;
    } else {
      assert (a + b)[0] == a[0];
      assert (a + b)[1..] == a[1..] + b;
      RunAppend(Step(s, a[0]), a[1..], b);
      assert Run(s, a + b) == Run(Step(s, a[0]), a[1..] + b);
    }
  }

  /** A batch of staged changes followed by one commit: with nothing pending
      before it, the served routes become the changes applied to them. */
  lemma RunBatch(s: RouteTable, changes: seq<Call>)
    requires s.pending == []
    requires forall i :: 0 <= i < |changes| ==> IsStaged(changes[i])
    ensures Run(s, changes + [CommitRoutes]) == s.(routes := ApplyChanges(s.routes, changes))
  {
    RunAppend(s, changes, [CommitRoutes]);
    RunStaged(s, changes);
    assert [] + changes == changes;
  }

  /** Changes that all add routes to `backend` send every route they touch to `backend`. */
  lemma {:induction false} ApplyAddsTarget(routes: map<RouteKey, Option<string>>, changes: seq<Call>, backend: Option<string>, k: RouteKey)
    requires forall i :: 0 <= i < |changes| ==> changes[i].AddRoute? && changes[i].backend == backend
    requires k in Touched(changes)
    ensures k in ApplyChanges(routes, changes) && ApplyChanges(routes, changes)[k] == backend
    decreases |changes|
  {
    var c := changes[0];
    if k in Touched(changes[1..]) {
      ApplyAddsTarget(ApplyChange(routes, c), changes[1..], backend, k);
    } else {
      assert k == RouteKey(c.path, c.routeType);
      ApplyChangesOutside(ApplyChange(routes, c), changes[1..]);
    }
  }

  /** Changes that all delete routes leave none of the routes they touch. */
  lemma {:induction false} ApplyDeletesRemove(routes: map<RouteKey, Option<string>>, changes: seq<Call>, k: RouteKey)
    requires forall i :: 0 <= i < |changes| ==> changes[i].DeleteRoute?
    requires k in Touched(changes)
    ensures k !in ApplyChanges(routes, changes)
    decreases |changes|
  {
    var c := changes[0];
    if k in Touched(changes[1..]) {
      ApplyDeletesRemove(ApplyChange(routes, c), changes[1..], k);
    } else {
      assert k == RouteKey(c.path, c.routeType);
      ApplyChangesOutside(ApplyChange(routes, c), changes[1..]);
    }
  }
}
