/**
 * `Application`: the router it owns, the container and request it was given,
 * and the application-wide middleware list.  `run` finds the route, builds
 * the controller through the container, wraps the handler call in the
 * middlewares and delivers the response or hands the exception to the error
 * handler.  `Dispatch` says, as a function of the state before the call,
 * what `run` ends with; `Application.Run` is proved to follow it.
 */
module App {
  import opened Base
  import opened PhpArrays
  import opened Reflection
  import opened Routes
  import opened Routing
  import opened ContainerModel
  import opened DI
  import opened Pipeline

  /** The request as `run` reads it: the query parameters and the server variables. */
  datatype Request = Request(queries: Bag, server: map<string, string>)

  /** `getServer($key) ?? $default`. */
  function ServerOr(req: Request, key: string, default: string): (v: string)
    ensures key in req.server ==> v == req.server[key]
    ensures key !in req.server ==> v == default
  {
    if key in req.server then req.server[key] else default
  }

  /** `class_exists`: a declared class; interfaces do not count. */
  predicate ClassExists(ct: ClassTable, cls: string) {
    cls in ct && !ct[cls].isInterface
  }

  const DependencyAttribute: string := "Nayan\\Router\\Middleware\\MiddlewareHasDependenciesAttribute"

  /** How a run of the application ends. */
  datatype RunOutcome =
    | Emitted(response: Response, trace: seq<Event>)  // the response was echoed
    | Handled(error: Error, trace: seq<Event>)        // the error handler received the exception
    | Escaped(error: Error, trace: seq<Event>)        // a PHP Error left `run` uncaught

  /** The `try`/`catch` of `run`: a response is echoed, an `Exception` is handled, anything else escapes. */
  function Deliver(trace: seq<Event>, r: Result<Response>): (out: RunOutcome)
    ensures out.trace == trace
    ensures out.Emitted? <==> r.Ok?
    ensures out.Emitted? ==> out.response == r.value
    ensures out.Handled? <==> r.Err? && IsException(r.error)
    ensures !out.Emitted? ==> out.error == r.error
  {
    if r.Ok? then Emitted(r.value, trace)
    else if IsException(r.error) then Handled(r.error, trace)
    else Escaped(r.error, trace)
  }

  // ---------------------------------------------------------------------
  // getController

  /**
   * The loop of `getController` over the constructor parameters: each typed
   * parameter is fetched with the container's `get`; a parameter without a
   * type makes `getType()` return `null`, and the call on it is a PHP Error.
   */
  function ControllerArgs(ct: ClassTable, s: State, ps: seq<Param>): (r: (Result<seq<Object>>, State))
    ensures r.1.bindings == s.bindings
    ensures r.0.Ok? ==> |r.0.value| == |ps| && r.1.resolving == s.resolving
    ensures r.0.Ok? ==> forall i :: 0 <= i < |ps| ==> ps[i].Typed?
    decreases |ps|
  {
    if ps == [] then (Ok([]), s)
    else match ps[0]
      case Untyped(_) => (Err(Uncaught("getType() returned null")), s)
      case Typed(t) =>
        var first := ContainerModel.Get(ct, s, t);
        if first.0.Err? then (Err(first.0.error), first.1)
        else
          var rest := ControllerArgs(ct, first.1, ps[1..]);
          (if rest.0.Ok? then Ok([first.0.value] + rest.0.value) else rest.0, rest.1)
  }

  /**
   * With every parameter typed, `getController` obtains the constructor
   * arguments exactly as the container's own `resolve` would.
   */
  lemma {:induction false} ControllerArgsAsContainer(ct: ClassTable, s: State, cls: string, ps: seq<Param>)
    requires forall i :: 0 <= i < |ps| ==> ps[i].Typed?
    ensures ControllerArgs(ct, s, ps) == ContainerModel.Dependencies(ct, s, cls, ps)
    decreases |ps|
  {
    if ps != [] {
      var first := ContainerModel.Get(ct, s, ps[0].typeName);
      if first.0.Ok? {
        ControllerArgsAsContainer(ct, first.1, cls, ps[1..]);
      }
    }
  }

  lemma ControllerArgsStep(ct: ClassTable, s: State, ps: seq<Param>, i: nat)
    requires i < |ps| && ps[i].Typed?
    ensures var first := ContainerModel.Get(ct, s, ps[i].typeName);
      ControllerArgs(ct, s, ps[i..]) ==
        if first.0.Err? then (Err(first.0.error), first.1)
        else Prepend([first.0.value], ControllerArgs(ct, first.1, ps[i + 1..]))
  {
    assert ps[i..][0] == ps[i];
    assert ps[i..][1..] == ps[i + 1..];
  }

  /**
   * `getController` for the handler of the matched route: a class without a
   * constructor is instantiated directly (and its method is not checked);
   * otherwise the arguments come from the container, the class is
   * instantiated, and the handler's method must exist.  Instantiating an
   * abstract class is a PHP Error; `newInstanceArgs` on a class whose
   * constructor is not public throws a `ReflectionException`.
   */
  function BuildController(ct: ClassTable, s: State, h: Handler): (r: (Result<Controller>, State))
    requires h.cls in ct
    ensures r.1.bindings == s.bindings
    ensures r.0.Ok? ==> r.0.value.cls == h.cls && ct[h.cls].Instantiable()
    ensures ct[h.cls].ctor.None? ==> r.1 == s && r.0.Ok? == ct[h.cls].Instantiable()
    ensures ct[h.cls].ctor.None? && r.0.Ok? ==> r.0.value.args == []
    ensures ct[h.cls].ctor.Some? && r.0.Ok? ==>
      h.action in ct[h.cls].methods && |r.0.value.args| == |ct[h.cls].ctor.value|
    ensures ct[h.cls].ctor.Some? && r.0.Ok? ==>
      var c := ControllerArgs(ct, s, ct[h.cls].ctor.value);
      c.0.Ok? && r.0.value.args == c.0.value && r.1 == c.1
    ensures (ct[h.cls].ctor.Some? && ct[h.cls].Concrete() && !ct[h.cls].publicCtor &&
      ControllerArgs(ct, s, ct[h.cls].ctor.value).0.Ok?) ==> r.0 == Err(NonPublicConstructor(h.cls))
    ensures (ct[h.cls].ctor.Some? && ct[h.cls].Instantiable() && h.action !in ct[h.cls].methods &&
      ControllerArgs(ct, s, ct[h.cls].ctor.value).0.Ok?) ==> r.0 == Err(ControllerMethodNotFound(h.cls, h.action))
  {
    var d := ct[h.cls];
    match d.ctor
    case None =>
      if d.Concrete() then (Ok(Controller(h.cls, [])), s)
      else (Err(Uncaught("cannot instantiate " + h.cls)), s)
    case Some(ps) =>
      var args := ControllerArgs(ct, s, ps);
      if args.0.Err? then (Err(args.0.error), args.1)
      else if !d.Concrete() then (Err(Uncaught("cannot instantiate " + h.cls)), args.1)
      else if !d.publicCtor then (Err(NonPublicConstructor(h.cls)), args.1)
      else if h.action !in d.methods then (Err(ControllerMethodNotFound(h.cls, h.action)), args.1)
      else (Ok(Controller(h.cls, args.0.value)), args.1)
  }

  // ---------------------------------------------------------------------
  // use

  /**
   * The keys `use` asks the container for: nothing unless the class's first
   * attribute has a non-empty first argument; then the first argument of
   * every `MiddlewareHasDependenciesAttribute`, in attribute order.
   */
  function DeclaredDependencies(attrs: seq<Attribute>): (keys: seq<string>)
    ensures |attrs| == 0 || |attrs[0].args| == 0 || |attrs[0].args[0]| == 0 ==> keys == []
    ensures forall k :: k in keys ==> exists i :: 0 <= i < |attrs| && Declares(attrs[i], k)
  {
    if |attrs| > 0 && |attrs[0].args| > 0 && |attrs[0].args[0]| > 0 then Collect(attrs) else []
  }

  /** Whether an attribute is the dependency attribute and lists `k` in its first argument. */
  predicate Declares(a: Attribute, k: string) {
    a.name == DependencyAttribute && |a.args| > 0 && k in a.args[0]
  }

  /** The loop of `use` over the attributes. */
  function Collect(attrs: seq<Attribute>): (keys: seq<string>)
    ensures forall k :: k in keys <==> exists i :: 0 <= i < |attrs| && Declares(attrs[i], k)
  {
    if attrs == [] then []
    else
      var head := if attrs[0].name == DependencyAttribute && |attrs[0].args| > 0 then attrs[0].args[0] else [];
      var rest := Collect(attrs[1..]);
      assert forall k :: k in rest <==> exists i :: 1 <= i < |attrs| && Declares(attrs[i], k) by {
        forall k | k in rest ensures exists i :: 1 <= i < |attrs| && Declares(attrs[i], k) {
          var j :| 0 <= j < |attrs[1..]| && Declares(attrs[1..][j], k);
          assert Declares(attrs[j + 1], k);
        }
        forall k | (exists i :: 1 <= i < |attrs| && Declares(attrs[i], k)) ensures k in rest {
          var i :| 1 <= i < |attrs| && Declares(attrs[i], k);
          assert Declares(attrs[1..][i - 1], k);
        }
      }
      head + rest
  }

  /** A dependency attribute listed first is honoured. */
  lemma DependencyAttributeFirst(keys: seq<string>)
    requires keys != []
    ensures DeclaredDependencies([Attribute(DependencyAttribute, [keys])]) == keys
  {
    var attrs := [Attribute(DependencyAttribute, [keys])];
    assert attrs[1..] == [];
    assert Collect(attrs[1..]) == [];
    assert keys + [] == keys;
  }

  /**
   * The gate looks at the first attribute whatever its name: behind an
   * attribute without arguments, a dependency attribute is ignored.
   */
  lemma DependencyAttributeHidden(other: string, keys: seq<string>)
    ensures DeclaredDependencies([Attribute(other, []), Attribute(DependencyAttribute, [keys])]) == []
  {
  }

  /** The container's results as constructor arguments. */
  function Instances(objs: seq<Object>): (vs: seq<Value>)
    ensures |vs| == |objs| && forall i :: 0 <= i < |objs| ==> vs[i] == Instance(objs[i])
  {
    seq(|objs|, i requires 0 <= i < |objs| => Instance(objs[i]))
  }

  /**
   * `use(cls, args)` on an application with middlewares `mws`: reflection
   * fails on an unknown class; the declared dependencies are fetched from
   * the container in order; the middleware is built from them followed by
   * `args` and appended.  Any exception leaves the list as it was.
   */
  function UseSpec(ct: ClassTable, s: State, mws: seq<Middleware>, cls: string, args: seq<Value>)
    : (r: (Outcome, seq<Middleware>, State))
    ensures r.2.bindings == s.bindings
    ensures r.0.Fail? ==> r.1 == mws
    ensures cls !in ct ==> r == (Fail(ClassNotFound(cls)), mws, s)
    ensures r.0.Pass? ==>
      cls in ct && ct[cls].Instantiable() && |r.1| == |mws| + 1 && r.1[..|mws|] == mws &&
      var m := r.1[|mws|];
      var n := |DeclaredDependencies(ct[cls].attributes)|;
      m.cls == cls && m.behaviour == ct[cls].behaviour &&
      |m.args| == n + |args| && m.args[n..] == args &&
      forall i :: 0 <= i < n ==> m.args[i].Instance?
    ensures r.0.Pass? ==>
      var d := ContainerModel.Dependencies(ct, s, cls, ClosureParams(DeclaredDependencies(ct[cls].attributes)));
      d.0.Ok? && r.1[|mws|].args == Instances(d.0.value) + args && r.2 == d.1
  {
    if cls !in ct then (Fail(ClassNotFound(cls)), mws, s)
    else
      var keys := DeclaredDependencies(ct[cls].attributes);
      var deps := ContainerModel.Dependencies(ct, s, cls, ClosureParams(keys));
      if deps.0.Err? then (Fail(deps.0.error), mws, deps.1)
      else if !ct[cls].Instantiable() then (Fail(Uncaught("cannot instantiate " + cls)), mws, deps.1)
      else
        var m := Middleware(cls, Instances(deps.0.value) + args, ct[cls].behaviour);
        assert (mws + [m])[..|mws|] == mws;
        assert m.args[|deps.0.value|..] == args;
        (Pass, mws + [m], deps.1)
  }

  /** A middleware with no declared dependencies leaves the container untouched and gets exactly `args`. */
  lemma UseWithoutDependencies(ct: ClassTable, s: State, mws: seq<Middleware>, cls: string, args: seq<Value>)
    requires cls in ct && ct[cls].Instantiable() && DeclaredDependencies(ct[cls].attributes) == []
    ensures UseSpec(ct, s, mws, cls, args) == (Pass, mws + [Middleware(cls, args, ct[cls].behaviour)], s)
  {
    assert ClosureParams([]) == [];
    assert Instances([]) + args == args;
  }

  /**
   * A middleware whose declared dependencies are all cached in the container
   * gets those cached instances, in declaration order, followed by `args`,
   * and the container is left as it was.
   */
  lemma UseCached(ct: ClassTable, s: State, mws: seq<Middleware>, cls: string, args: seq<Value>)
    requires cls in ct && ct[cls].Instantiable()
    requires forall k :: k in DeclaredDependencies(ct[cls].attributes) ==> k in s.instances
    ensures var keys := DeclaredDependencies(ct[cls].attributes);
      var r := UseSpec(ct, s, mws, cls, args);
      r.0.Pass? && r.2 == s && |r.1| == |mws| + 1 && |r.1[|mws|].args| == |keys| + |args| &&
      forall i :: 0 <= i < |keys| ==> r.1[|mws|].args[i] == Instance(s.instances[keys[i]])
  {
    var keys := DeclaredDependencies(ct[cls].attributes);
    var ps := ClosureParams(keys);
    assert forall i :: 0 <= i < |ps| ==> ps[i].Typed? && ps[i].typeName in s.instances by {
      forall i | 0 <= i < |ps| ensures ps[i].Typed? && ps[i].typeName in s.instances {
        assert ps[i] == Typed(keys[i]) && keys[i] in keys;
      }
    }
    DependenciesCached(ct, s, cls, ps);
  }

  // ---------------------------------------------------------------------
  // register

  /** `n` copies of `s`, one after the other. */
  function Repeat<T>(s: seq<T>, n: nat): seq<T> {
    if n == 0 then [] else s + Repeat(s, n - 1)
  }

  lemma {:induction false} RepeatSnoc<T>(s: seq<T>, n: nat)
    ensures Repeat(s, n + 1) == Repeat(s, n) + s
  {
    if n > 0 {
      RepeatSnoc(s, n - 1);
      assert s + (Repeat(s, n - 1) + s) == (s + Repeat(s, n - 1)) + s;
    }
  }

  /** A route in state `v` after `register` has rewritten it `n` times with `url` and `ms`. */
  function Registered(v: RouteView, url: string, ms: seq<Middleware>, n: nat): (w: RouteView)
    ensures w.httpMethod == v.httpMethod && w.handler == v.handler && w.params == v.params
    ensures n == 0 ==> w == v
  {
    v.(url := Repeat(url, n) + v.url, middlewares := v.middlewares + Repeat(ms, n))
  }

  /** A route listed once in the registered router gets the prefix once and the middlewares once. */
  lemma RegisteredOnce(v: RouteView, url: string, ms: seq<Middleware>)
    ensures Registered(v, url, ms, 1) == v.(url := url + v.url, middlewares := v.middlewares + ms)
  {
    assert Repeat(url, 1) == url + Repeat(url, 0) == url + [] == url;
    assert Repeat(ms, 1) == ms + Repeat(ms, 0) == ms + [] == ms;
  }

  /** One more rewrite puts `url` in front once more and `ms` at the end once more. */
  lemma RegisteredAgain(v: RouteView, url: string, ms: seq<Middleware>, n: nat)
    ensures var w := Registered(v, url, ms, n);
      Registered(v, url, ms, n + 1) == w.(url := url + w.url, middlewares := w.middlewares + ms)
  {
    RepeatSnoc(ms, n);
  }

  lemma TakeSnoc<T>(rs: seq<T>, i: nat)
    requires i < |rs|
    ensures rs[..i + 1] == rs[..i] + [rs[i]]
  {
  }

  /** How often `x` occurs in `rs`. */
  function Count<T(==)>(rs: seq<T>, x: T): nat {
    if rs == [] then 0 else Count(rs[..|rs| - 1], x) + (if rs[|rs| - 1] == x then 1 else 0)
  }

  lemma CountSnoc<T>(rs: seq<T>, i: nat)
    requires i < |rs|
    ensures forall x :: Count(rs[..i + 1], x) == Count(rs[..i], x) + (if x == rs[i] then 1 else 0)
  {
    assert rs[..i + 1][..i] == rs[..i];
  }

  // ---------------------------------------------------------------------
  // run

  /**
   * What `run` ends with, from the container state `s`, the routes of the
   * application's router in state `vs`, the application's middlewares
   * `mws` and the request; the second component is the container state
   * afterwards.  The matched route's `params` after `match` are those of
   * `MatchStep`.
   */
  function Dispatch(ct: ClassTable, s: State, vs: seq<RouteView>, mws: seq<Middleware>, req: Request)
    : (r: (RunOutcome, State))
    requires DistinctKeys(req.queries)
    ensures r.1.bindings == s.bindings
    ensures r.0.Handled? ==> IsException(r.0.error)
    ensures r.0.Escaped? ==> !IsException(r.0.error)
    ensures r.0.Escaped? && r.0.error != Uncaught(CallFailed) ==> r.0.trace == []
    ensures r.0.Emitted? ==> FirstMatch(vs, ServerOr(req, "REQUEST_METHOD", "GET"), ServerOr(req, "PATH_INFO", "/")).Some?
  {
    var m := ServerOr(req, "REQUEST_METHOD", "GET");
    var path := ServerOr(req, "PATH_INFO", "/");
    match FirstMatch(vs, m, path)
    case None => (Handled(InvalidRequestUrl, []), s)
    case Some(i) =>
      var step := MatchStep(vs[i], m, path);
      if step.0.Err? then (Escaped(step.0.error, []), s)
      else Serve(ct, s, vs[i].(params := step.1), mws, req)
  }

  /**
   * The rest of `run` once the route (in state `v`, after its `match`) is
   * found: the class check, the controller, the pipeline and its outcome.
   */
  function Serve(ct: ClassTable, s: State, v: RouteView, mws: seq<Middleware>, req: Request)
    : (r: (RunOutcome, State))
    requires DistinctKeys(req.queries)
    ensures r.1.bindings == s.bindings
    ensures r.0.Handled? ==> IsException(r.0.error)
    ensures r.0.Escaped? ==> !IsException(r.0.error)
    ensures r.0.Escaped? && r.0.error != Uncaught(CallFailed) ==> r.0.trace == []
    ensures !ClassExists(ct, v.handler.cls) ==> r == (Handled(ControllerNotFound(v.handler.cls), []), s)
  {
    if !ClassExists(ct, v.handler.cls) then (Handled(ControllerNotFound(v.handler.cls), []), s)
    else
      var c := BuildController(ct, s, v.handler);
      if c.0.Err? then (Deliver([], Err(c.0.error)), c.1)
      else
        var callable := ct[v.handler.cls].Callable(v.handler.action);
        var e := Exec(CreatePipeline(mws + v.middlewares, Action(v.handler, c.0.value, Merge(req.queries, v.params), callable)));
        (Deliver(e.0, e.1), c.1)
  }

  /** No route matches: the error handler receives `InvalidRequestUrlError`, code 404, and nothing else happens. */
  lemma NoRouteIsNotFound(ct: ClassTable, s: State, vs: seq<RouteView>, mws: seq<Middleware>, req: Request)
    requires DistinctKeys(req.queries)
    requires forall j :: 0 <= j < |vs| ==>
      !Hit(vs[j], ServerOr(req, "REQUEST_METHOD", "GET"), ServerOr(req, "PATH_INFO", "/"))
    ensures Dispatch(ct, s, vs, mws, req) == (Handled(InvalidRequestUrl, []), s)
    ensures Code(Dispatch(ct, s, vs, mws, req).0.error) == Some(404)
  {
    NoHitNone(vs, ServerOr(req, "REQUEST_METHOD", "GET"), ServerOr(req, "PATH_INFO", "/"));
  }

  /** The matched route names a class that does not exist: `ControllerNotFoundError`, code 500, container untouched. */
  lemma MissingControllerClass(ct: ClassTable, s: State, vs: seq<RouteView>, mws: seq<Middleware>, req: Request, i: nat)
    requires DistinctKeys(req.queries)
    requires FirstMatch(vs, ServerOr(req, "REQUEST_METHOD", "GET"), ServerOr(req, "PATH_INFO", "/")) == Some(i)
    requires MatchStep(vs[i], ServerOr(req, "REQUEST_METHOD", "GET"), ServerOr(req, "PATH_INFO", "/")).0.Ok?
    requires !ClassExists(ct, vs[i].handler.cls)
    ensures Dispatch(ct, s, vs, mws, req) == (Handled(ControllerNotFound(vs[i].handler.cls), []), s)
    ensures Code(Dispatch(ct, s, vs, mws, req).0.error) == Some(500)
  {
  }

  /**
   * A run that reaches the pipeline with every middleware calling `$next`:
   * the application's middlewares run outside the route's, the handler runs
   * once in the middle, and it receives the query parameters overridden by
   * the route parameters.  If the handler's method does not exist or is not
   * public (a controller without a constructor is built without checking
   * it), the "before" halves run and the call's PHP Error escapes `run`.
   */
  lemma DispatchOnion(ct: ClassTable, s: State, vs: seq<RouteView>, mws: seq<Middleware>, req: Request, i: nat)
    requires DistinctKeys(req.queries)
    requires FirstMatch(vs, ServerOr(req, "REQUEST_METHOD", "GET"), ServerOr(req, "PATH_INFO", "/")) == Some(i)
    requires MatchStep(vs[i], ServerOr(req, "REQUEST_METHOD", "GET"), ServerOr(req, "PATH_INFO", "/")).0.Ok?
    requires ClassExists(ct, vs[i].handler.cls) && BuildController(ct, s, vs[i].handler).0.Ok?
    requires AllPass(mws + vs[i].middlewares)
    ensures var params := MatchStep(vs[i], ServerOr(req, "REQUEST_METHOD", "GET"), ServerOr(req, "PATH_INFO", "/")).1;
      var c := BuildController(ct, s, vs[i].handler);
      var all := mws + vs[i].middlewares;
      Dispatch(ct, s, vs, mws, req) ==
        if ct[vs[i].handler.cls].Callable(vs[i].handler.action) then
          (Emitted(ActionResult(vs[i].handler, c.0.value, Merge(req.queries, params)),
                   Befores(all) + [Invoked(vs[i].handler)] + Afters(all)), c.1)
        else (Escaped(Uncaught(CallFailed), Befores(all)), c.1)
  {
    var params := MatchStep(vs[i], ServerOr(req, "REQUEST_METHOD", "GET"), ServerOr(req, "PATH_INFO", "/")).1;
    var c := BuildController(ct, s, vs[i].handler);
    OnionOrder(mws + vs[i].middlewares, vs[i].handler, c.0.value, Merge(req.queries, params),
      ct[vs[i].handler.cls].Callable(vs[i].handler.action));
  }

  /**
   * A controller class without a constructor is instantiated without
   * checking that the handler's method exists; when it does not, the
   * middlewares' "before" halves run, the call fails with a PHP Error that
   * the error handler never sees, and the container is untouched.
   */
  lemma MissingMethodWithoutConstructor(ct: ClassTable, s: State, vs: seq<RouteView>, mws: seq<Middleware>, req: Request, i: nat)
    requires DistinctKeys(req.queries)
    requires FirstMatch(vs, ServerOr(req, "REQUEST_METHOD", "GET"), ServerOr(req, "PATH_INFO", "/")) == Some(i)
    requires MatchStep(vs[i], ServerOr(req, "REQUEST_METHOD", "GET"), ServerOr(req, "PATH_INFO", "/")).0.Ok?
    requires ClassExists(ct, vs[i].handler.cls)
    requires ct[vs[i].handler.cls].ctor.None? && ct[vs[i].handler.cls].Concrete()
    requires vs[i].handler.action !in ct[vs[i].handler.cls].methods
    requires AllPass(mws + vs[i].middlewares)
    ensures Dispatch(ct, s, vs, mws, req) == (Escaped(Uncaught(CallFailed), Befores(mws + vs[i].middlewares)), s)
    ensures !IsException(Dispatch(ct, s, vs, mws, req).0.error)
  {
    DispatchOnion(ct, s, vs, mws, req, i);
  }

  /** Which value the handler sees for each key: the route parameter's, else the query's. */
  lemma HandlerBag(queries: Bag, params: Bag, k: string)
    requires DistinctKeys(queries) && DistinctKeys(params)
    ensures Lookup(Merge(queries, params), k) == if k in Keys(params) then Lookup(params, k) else Lookup(queries, k)
  {
    MergeLookup(queries, params, k);
  }

  /**
   * The controller method runs exactly when every middleware, the
   * application's and the route's, calls `$next` and the method exists and
   * is public.
   */
  lemma HandlerRunsIffAllMiddlewaresPass(ct: ClassTable, s: State, vs: seq<RouteView>, mws: seq<Middleware>, req: Request, i: nat)
    requires DistinctKeys(req.queries)
    requires FirstMatch(vs, ServerOr(req, "REQUEST_METHOD", "GET"), ServerOr(req, "PATH_INFO", "/")) == Some(i)
    requires MatchStep(vs[i], ServerOr(req, "REQUEST_METHOD", "GET"), ServerOr(req, "PATH_INFO", "/")).0.Ok?
    requires ClassExists(ct, vs[i].handler.cls) && BuildController(ct, s, vs[i].handler).0.Ok?
    ensures Invoked(vs[i].handler) in Dispatch(ct, s, vs, mws, req).0.trace <==>
      AllPass(mws + vs[i].middlewares) && ct[vs[i].handler.cls].Callable(vs[i].handler.action)
  {
    var params := MatchStep(vs[i], ServerOr(req, "REQUEST_METHOD", "GET"), ServerOr(req, "PATH_INFO", "/")).1;
    var c := BuildController(ct, s, vs[i].handler);
    HandlerRunsIffAllPass(mws + vs[i].middlewares, vs[i].handler, c.0.value, Merge(req.queries, params),
      ct[vs[i].handler.cls].Callable(vs[i].handler.action));
  }

  class Application {
    const router: Router
    const container: Container
    const request: Request
    var middlewares: seq<Middleware>

    /** A new application owns a new, empty router and has no middlewares. */
    constructor (request: Request, container: Container)
      ensures this.request == request && this.container == container
      ensures fresh(router) && router.routes == [] && middlewares == []
    {
      this.request := request;
      this.container := container;
      this.router := new Router();
      this.middlewares := [];
    }

    /**
     * `register`: every route of `child` gets `url` in front of its template
     * and `ms` after its middlewares, and is appended to this application's
     * router.  A route listed `n` times in `child` is rewritten `n` times.
     */
    method Register(url: string, child: Router, ms: seq<Middleware>)
      modifies router, (set x | x in child.routes)`url, (set x | x in child.routes)`middlewares
      ensures router.routes == old(router.routes) + old(child.routes)
      ensures forall x :: x in old(child.routes) ==>
        x.View() == Registered(old(x.View()), url, ms, Count(old(child.routes), x))
    {
      var rs := child.routes;
      var i := 0;
      assert old(router.routes) + rs[..0] == old(router.routes);
      while i < |rs|
        invariant 0 <= i <= |rs|
        invariant router.routes == old(router.routes) + rs[..i]
        invariant forall x :: x in rs ==> x.View() == Registered(old(x.View()), url, ms, Count(rs[..i], x))
      {
        var route := rs[i];
        CountSnoc(rs, i);
        RegisteredAgain(old(route.View()), url, ms, Count(rs[..i], route));
        TakeSnoc(rs, i);
        label before:
        PrefixRoute(route, url, ms);
        forall x | x in rs
          ensures x.View() == Registered(old(x.View()), url, ms, Count(rs[..i + 1], x))
        {
          if x != route {
            assert x.View() == old@before(x.View());
          }
        }
        i := i + 1;
      }
      assert rs[..i] == rs;
    }

    /** One pass of the loop of `register`: the route is prefixed, extended and appended. */
    method PrefixRoute(route: Route, url: string, ms: seq<Middleware>)
      modifies router, route`url, route`middlewares
      ensures router.routes == old(router.routes) + [route]
      ensures route.View() == old(route.View()).(url := url + old(route.url), middlewares := old(route.middlewares) + ms)
    {
      var prefixed := route.AddPrefix(url);
      var extended := prefixed.AddMiddlewares(ms);
      router.Append(extended);
    }

    /** The loop of `getController`, fetching each constructor argument from the container. */
    method GetController(ct: ClassTable, h: Handler) returns (r: Result<Controller>)
      requires h.cls in ct
      modifies container`instances, container`resolving, container`created
      ensures (r, container.Snapshot()) == BuildController(ct, old(container.Snapshot()), h)
    {
      var d := ct[h.cls];
      if d.ctor.None? {
        if !d.Concrete() {
          return Err(Uncaught("cannot instantiate " + h.cls));
        }
        return Ok(Controller(h.cls, []));
      }
      var ps := d.ctor.value;
      var deps: seq<Object> := [];
      var i := 0;
      assert ps[0..] == ps;
      PrependNothing(ControllerArgs(ct, container.Snapshot(), ps));
      while i < |ps|
        invariant 0 <= i <= |ps|
        invariant ControllerArgs(ct, old(container.Snapshot()), ps) ==
          Prepend(deps, ControllerArgs(ct, container.Snapshot(), ps[i..]))
      {
        if ps[i].Untyped? {
          assert ps[i..][0] == ps[i];
          return Err(Uncaught("getType() returned null"));
        }
        ControllerArgsStep(ct, container.Snapshot(), ps, i);
        var o := container.Get(ct, ps[i].typeName);
        if o.Err? {
          return Err(o.error);
        }
        PrependAssoc(deps, o.value, ControllerArgs(ct, container.Snapshot(), ps[i + 1..]));
        deps := deps + [o.value];
        i := i + 1;
      }
      assert ps[i..] == [] && deps + [] == deps;
      if !d.Concrete() {
        return Err(Uncaught("cannot instantiate " + h.cls));
      }
      if !d.publicCtor {
        return Err(NonPublicConstructor(h.cls));
      }
      if h.action !in d.methods {
        return Err(ControllerMethodNotFound(h.cls, h.action));
      }
      return Ok(Controller(h.cls, deps));
    }

    /** `use`: builds the middleware with its declared dependencies followed by `args`, and appends it. */
    method Use(ct: ClassTable, cls: string, args: seq<Value>) returns (out: Outcome)
      modifies this`middlewares, container`instances, container`resolving, container`created
      ensures (out, middlewares, container.Snapshot()) ==
        UseSpec(ct, old(container.Snapshot()), old(middlewares), cls, args)
    {
      if cls !in ct {
        return Fail(ClassNotFound(cls));
      }
      var deps := FetchDependencies(ct, cls, DeclaredDependencies(ct[cls].attributes));
      if deps.Err? {
        return Fail(deps.error);
      }
      if !ct[cls].Instantiable() {
        return Fail(Uncaught("cannot instantiate " + cls));
      }
      middlewares := middlewares + [Middleware(cls, Instances(deps.value) + args, ct[cls].behaviour)];
      return Pass;
    }

    /** The loops of `use` over the declared dependencies, each fetched with the container's `get`. */
    method FetchDependencies(ct: ClassTable, cls: string, keys: seq<string>) returns (r: Result<seq<Object>>)
      modifies container`instances, container`resolving, container`created
      ensures (r, container.Snapshot()) ==
        ContainerModel.Dependencies(ct, old(container.Snapshot()), cls, ClosureParams(keys))
    {
      ghost var ps := ClosureParams(keys);
      var deps: seq<Object> := [];
      var i := 0;
      assert ps[0..] == ps;
      PrependNothing(ContainerModel.Dependencies(ct, container.Snapshot(), cls, ps));
      while i < |keys|
        invariant 0 <= i <= |keys|
        invariant ContainerModel.Dependencies(ct, old(container.Snapshot()), cls, ps) ==
          Prepend(deps, ContainerModel.Dependencies(ct, container.Snapshot(), cls, ps[i..]))
      {
        DependenciesStep(ct, container.Snapshot(), cls, ps, i);
        var o := container.Get(ct, keys[i]);
        if o.Err? {
          return Err(o.error);
        }
        PrependAssoc(deps, o.value, ContainerModel.Dependencies(ct, container.Snapshot(), cls, ps[i + 1..]));
        deps := deps + [o.value];
        i := i + 1;
      }
      assert ps[i..] == [] && deps + [] == deps;
      return Ok(deps);
    }

    /**
     * `run`: proved to end as `Dispatch` says; the matched route's `params`
     * are those its `match` wrote, and no other route's change.
     */
    method Run(ct: ClassTable) returns (out: RunOutcome)
      requires DistinctKeys(request.queries)
      modifies container`instances, container`resolving, container`created, (set x | x in router.routes)`params
      ensures (out, container.Snapshot()) ==
        Dispatch(ct, old(container.Snapshot()), old(Views(router.routes)), old(middlewares), request)
      ensures var m := ServerOr(request, "REQUEST_METHOD", "GET");
        var path := ServerOr(request, "PATH_INFO", "/");
        FirstMatch(old(Views(router.routes)), m, path).None? ==>
          forall j :: 0 <= j < |router.routes| ==> router.routes[j].params == old(router.routes[j].params)
      ensures var m := ServerOr(request, "REQUEST_METHOD", "GET");
        var path := ServerOr(request, "PATH_INFO", "/");
        var at := FirstMatch(old(Views(router.routes)), m, path);
        at.Some? ==>
          at.value < |router.routes| &&
          router.routes[at.value].params == MatchStep(old(router.routes[at.value].View()), m, path).1 &&
          forall j :: 0 <= j < |router.routes| && router.routes[j] != router.routes[at.value] ==>
            router.routes[j].params == old(router.routes[j].params)
    {
      var m := ServerOr(request, "REQUEST_METHOD", "GET");
      var path := ServerOr(request, "PATH_INFO", "/");
      ghost var vs := Views(router.routes);
      ghost var s0 := container.Snapshot();
      ghost var at := FirstMatch(vs, m, path);
      FirstMatchSpec(vs, m, path);
      var found := router.FindMatch(m, path);
      if found.Err? {
        MatchStepFacts(vs[at.value], m, path);
        assert MatchStep(vs[at.value], m, path).0 == Err(found.error);
        assert Dispatch(ct, s0, vs, middlewares, request) == (Escaped(found.error, []), s0);
        return Escaped(found.error, []);
      }
      var route := found.value;
      if route == null {
        assert at.None?;
        return Handled(InvalidRequestUrl, []);
      }
      ghost var i := at.value;
      ghost var step := MatchStep(vs[i], m, path);
      MatchStepFacts(vs[i], m, path);
      assert step.0 == Ok(true) && route == router.routes[i];
      assert route.View() == vs[i].(params := step.1);
      assert Dispatch(ct, s0, vs, middlewares, request) == Serve(ct, s0, route.View(), middlewares, request);
      out := ServeRoute(ct, route);
    }

    /** The rest of `run` once `findMatch` returned `route`. */
    method ServeRoute(ct: ClassTable, route: Route) returns (out: RunOutcome)
      requires DistinctKeys(request.queries)
      modifies container`instances, container`resolving, container`created
      ensures (out, container.Snapshot()) == Serve(ct, old(container.Snapshot()), route.View(), middlewares, request)
    {
      if !ClassExists(ct, route.handler.cls) {
        return Handled(ControllerNotFound(route.handler.cls), []);
      }
      var c := GetController(ct, route.handler);
      if c.Err? {
        return Deliver([], Err(c.error));
      }
      var callable := ct[route.handler.cls].Callable(route.handler.action);
      var pipeline := CreatePipeline(middlewares + route.middlewares,
        Action(route.handler, c.value, Merge(request.queries, route.params), callable));
      var result := Exec(pipeline);
      out := Deliver(result.0, result.1);
    }
  }
}
