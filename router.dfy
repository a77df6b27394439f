/**
 * The route table: routes in registration order.  The table only grows;
 * `findMatch` asks the routes one by one and stops at the first whose
 * `match` does not return `null`.
 */
module Routing {
  import opened Base
  import opened Reflection
  import opened Routes

  /** The fields of each route of a table, in table order. */
  function Views(rs: seq<Route>): (vs: seq<RouteView>)
    reads set r | r in rs
    ensures |vs| == |rs|
    ensures forall i :: 0 <= i < |rs| ==> vs[i] == rs[i].View()
  {
    if rs == [] then [] else [rs[0].View()] + Views(rs[1..])
  }

  /** Whether `match` on a route in state `v` returns the route or throws, rather than `null`. */
  predicate Hit(v: RouteView, m: string, path: string) {
    Captures(v.httpMethod, v.url, m, path).Some?
  }

  /**
   * The position at which the fold of `findMatch` stops: the first route
   * whose `match` returns the route or throws, or `None` when every route
   * returns `null`.
   */
  function FirstMatch(vs: seq<RouteView>, m: string, path: string): (r: Option<nat>)
    ensures r.Some? ==> r.value < |vs|
  {
    if vs == [] then None
    else if Hit(vs[0], m, path) then Some(0)
    else match FirstMatch(vs[1..], m, path)
      case None => None
      case Some(k) => Some(k + 1)
  }

  /** `FirstMatch` finds the first route that matches, and `None` means that no route matches. */
  lemma {:induction false} FirstMatchSpec(vs: seq<RouteView>, m: string, path: string)
    ensures var r := FirstMatch(vs, m, path);
      && (r.Some? ==> r.value < |vs| && Hit(vs[r.value], m, path))
      && (r.Some? ==> forall j :: 0 <= j < r.value ==> !Hit(vs[j], m, path))
      && (r.None? ==> forall j :: 0 <= j < |vs| ==> !Hit(vs[j], m, path))
  {
    if vs != [] && !Hit(vs[0], m, path) {
      FirstMatchSpec(vs[1..], m, path);
      assert forall j :: 0 < j < |vs| ==> vs[j] == vs[1..][j - 1];
    }
  }

  /** The route found is the one that matches with no match before it. */
  lemma {:induction false} FirstMatchAt(vs: seq<RouteView>, m: string, path: string, i: nat)
    requires i < |vs| && Hit(vs[i], m, path)
    requires forall j :: 0 <= j < i ==> !Hit(vs[j], m, path)
    ensures FirstMatch(vs, m, path) == Some(i)
  {
    if i > 0 {
      FirstMatchAt(vs[1..], m, path, i - 1);
    }
  }

  /** The fold over one more route: it stops there if the route matches, and goes on otherwise. */
  lemma {:induction false} FirstMatchSnoc(vs: seq<RouteView>, m: string, path: string, i: nat)
    requires i < |vs| && FirstMatch(vs[..i], m, path).None?
    ensures Hit(vs[i], m, path) ==> FirstMatch(vs, m, path) == Some(i)
    ensures !Hit(vs[i], m, path) ==> FirstMatch(vs[..i + 1], m, path).None?
  {
    FirstMatchSpec(vs[..i], m, path);
    assert forall j :: 0 <= j < i ==> vs[..i][j] == vs[j];
    if Hit(vs[i], m, path) {
      FirstMatchAt(vs, m, path, i);
    } else {
      assert forall j :: 0 <= j < i + 1 ==> vs[..i + 1][j] == vs[j];
      FirstMatchSpec(vs[..i + 1], m, path);
      NoHitNone(vs[..i + 1], m, path);
    }
  }

  /** When no route matches, the fold finds nothing. */
  lemma {:induction false} NoHitNone(vs: seq<RouteView>, m: string, path: string)
    requires forall j :: 0 <= j < |vs| ==> !Hit(vs[j], m, path)
    ensures FirstMatch(vs, m, path).None?
  {
    if vs != [] {
      assert forall j :: 0 <= j < |vs[1..]| ==> vs[1..][j] == vs[j + 1];
      NoHitNone(vs[1..], m, path);
    }
  }

  /** Adding routes at the end never changes which earlier route is found. */
  lemma AppendKeepsMatch(vs: seq<RouteView>, more: seq<RouteView>, m: string, path: string)
    requires FirstMatch(vs, m, path).Some?
    ensures FirstMatch(vs + more, m, path) == FirstMatch(vs, m, path)
  {
    FirstMatchSpec(vs, m, path);
    var k := FirstMatch(vs, m, path).value;
    assert (vs + more)[k] == vs[k];
    assert forall j :: 0 <= j < k ==> (vs + more)[j] == vs[j];
    FirstMatchAt(vs + more, m, path, k);
  }

  class Router {
    var routes: seq<Route>

    /** A new router has no routes. */
    constructor ()
      ensures routes == []
    {
      routes := [];
    }

    /** `map`: one new route, built from the arguments, goes at the end. */
    method Map(httpMethod: string, path: string, handler: Handler, middlewares: seq<Middleware>)
      modifies this`routes
      ensures |routes| == |old(routes)| + 1 && routes[..|old(routes)|] == old(routes)
      ensures fresh(routes[|old(routes)|])
      ensures routes[|old(routes)|].View() == RouteView(httpMethod, path, handler, middlewares, [])
      ensures forall j :: 0 <= j < |old(routes)| ==> routes[j].View() == old(routes[j].View())
    {
      var route := new Route(httpMethod, path, handler, middlewares);
      routes := routes + [route];
    }

    /** `append`: the given route goes at the end. */
    method Append(route: Route)
      modifies this`routes
      ensures routes == old(routes) + [route]
    {
      routes := routes + [route];
    }

    /**
     * `findMatch`: asks each route in order and stops at the first that
     * does not answer `null`.  Only that route's `params` may change;
     * routes after it are never asked.
     */
    method FindMatch(m: string, path: string) returns (r: Result<Route?>)
      modifies (set x | x in routes)`params
      ensures FirstMatch(old(Views(routes)), m, path).None? ==>
        r == Ok(null) && forall j :: 0 <= j < |routes| ==> routes[j].params == old(routes[j].params)
      ensures FirstMatch(old(Views(routes)), m, path).Some? ==>
        var i := FirstMatch(old(Views(routes)), m, path).value;
        i < |routes| &&
        var step := MatchStep(old(routes[i].View()), m, path);
        r == AsRoute(step.0, routes[i]) && routes[i].params == step.1 &&
        forall j :: 0 <= j < |routes| && routes[j] != routes[i] ==> routes[j].params == old(routes[j].params)
    {
      ghost var vs := Views(routes);
      var i := 0;
      assert vs[..0] == [];
      while i < |routes|
        invariant 0 <= i <= |routes|
        invariant forall j :: 0 <= j < |routes| ==> routes[j].View() == vs[j]
        invariant FirstMatch(vs[..i], m, path).None?
      {
        ghost var step := MatchStep(vs[i], m, path);
        MatchStepFacts(vs[i], m, path);
        FirstMatchSnoc(vs, m, path, i);
        r := routes[i].Match(m, path);
        if r != Ok(null) {
          return;
        }
        i := i + 1;
      }
      assert vs[..i] == vs;
      return Ok(null);
    }
  }
}
