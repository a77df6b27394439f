/**
 * A route: an HTTP method, a URL template, a handler `[class, method]`, the
 * route's middlewares and the parameters of its last successful match.
 * `match` is the only operation that writes `params`; `addPrefix` and
 * `addMiddlewares` rewrite the template and the middleware list in place.
 */
module Routes {
  import opened Base
  import opened PhpArrays
  import opened Reflection
  import opened Template

  /** The handler array `[ControllerClass::class, 'action']`. */
  datatype Handler = Handler(cls: string, action: string)

  /** The fields of a route at one moment. */
  datatype RouteView = RouteView(
    httpMethod: string,
    url: string,
    handler: Handler,
    middlewares: seq<Middleware>,
    params: Bag)

  /**
   * The groups `preg_match` captures when `match(method, path)` is called on
   * a route with method `routeMethod` and template `url`, or `None`.  The
   * method is compared with `===`; a template holding `@`, the pattern's
   * delimiter, yields an invalid pattern on which `preg_match` fails.
   */
  function Captures(routeMethod: string, url: string, requestMethod: string, path: string): Option<seq<string>> {
    if requestMethod != routeMethod || '@' in url then None else Match(Parse(url), path)
  }

  /**
   * A match happens only for the route's own method and a valid pattern; it
   * captures one non-empty, slash-free group per parameter, and putting the
   * groups back into the template gives the path.
   */
  lemma CapturesSound(routeMethod: string, url: string, requestMethod: string, path: string)
    requires Captures(routeMethod, url, requestMethod, path).Some?
    ensures requestMethod == routeMethod && '@' !in url
    ensures var cs := Captures(routeMethod, url, requestMethod, path).value;
      |cs| == CountParams(Parse(url)) && ValidCaptures(cs) && Render(Parse(url), cs) == path
  {
    MatchSound(Parse(url), path);
  }

  /** Every path a template stands for is matched by a request with the route's method. */
  lemma CapturesComplete(routeMethod: string, url: string, cs: seq<string>)
    requires '@' !in url && |cs| == CountParams(Parse(url)) && ValidCaptures(cs)
    ensures Captures(routeMethod, url, routeMethod, Render(Parse(url), cs)).Some?
  {
    MatchComplete(Parse(url), cs);
  }

  /**
   * The `params` left by a successful match with captures `cs`: the old
   * ones when the pattern has no group, otherwise `array_combine` of the
   * names of line 40 with the captures, which throws a `ValueError` (a PHP
   * `Error`) when their counts differ.
   */
  function NewParams(url: string, params: Bag, cs: seq<string>): (r: Result<Bag>)
    ensures r.Err? <==> cs != [] && |ParamNames(url)| != |cs|
    ensures r.Err? ==> !IsException(r.error)
    ensures cs == [] ==> r == Ok(params)
    ensures r.Ok? && cs != [] ==> DistinctKeys(r.value)
  {
    if cs == [] then Ok(params)
    else if |ParamNames(url)| != |cs| then Err(Uncaught("array_combine: argument counts differ"))
    else Ok(Combine(ParamNames(url), cs))
  }

  /** With distinct names, the new params pair each name, in template order, with its capture. */
  lemma NewParamsZip(url: string, params: Bag, cs: seq<string>)
    requires cs != [] && |ParamNames(url)| == |cs| && Distinct(ParamNames(url))
    ensures NewParams(url, params, cs).Ok?
    ensures Keys(NewParams(url, params, cs).value) == ParamNames(url)
    ensures forall i :: 0 <= i < |cs| ==> Lookup(NewParams(url, params, cs).value, ParamNames(url)[i]) == Some(cs[i])
  {
    CombineKeys(ParamNames(url), cs);
    forall i | 0 <= i < |cs|
      ensures Lookup(Combine(ParamNames(url), cs), ParamNames(url)[i]) == Some(cs[i])
    {
      CombineAt(ParamNames(url), cs, i);
    }
  }

  /** Unless a `:` is directly followed by `-`, a successful match never makes `array_combine` throw. */
  lemma NoColonDashNoError(routeMethod: string, url: string, requestMethod: string, path: string, params: Bag)
    requires NoColonDash(url) && Captures(routeMethod, url, requestMethod, path).Some?
    ensures NewParams(url, params, Captures(routeMethod, url, requestMethod, path).value).Ok?
  {
    CapturesSound(routeMethod, url, requestMethod, path);
    NamesMatchGroups(url);
  }

  /**
   * What `match(m, path)` does to a route in state `v`: its result
   * (`Ok(true)` for the route itself, `Ok(false)` for `null`, or the error
   * thrown) and the route's `params` afterwards.
   */
  function MatchStep(v: RouteView, m: string, path: string): (Result<bool>, Bag) {
    match Captures(v.httpMethod, v.url, m, path)
    case None => (Ok(false), v.params)
    case Some(cs) =>
      match NewParams(v.url, v.params, cs)
      case Ok(p) => (Ok(true), p)
      case Err(e) => (Err(e), v.params)
  }

  /**
   * `match` answers `null` exactly when the route does not match; it leaves
   * `params` alone unless it returns the route; and a template without
   * parameters never makes it throw or touch `params`.
   */
  lemma MatchStepFacts(v: RouteView, m: string, path: string)
    ensures var res := MatchStep(v, m, path);
      && (res.0 == Ok(false) <==> Captures(v.httpMethod, v.url, m, path).None?)
      && (res.0 != Ok(true) ==> res.1 == v.params)
      && (CountParams(Parse(v.url)) == 0 ==> res.0.Ok? && res.1 == v.params)
  {
    var c := Captures(v.httpMethod, v.url, m, path);
    if c.Some? {
      CapturesSound(v.httpMethod, v.url, m, path);
    }
  }

  /** `match`'s PHP return value for a route object: the route, `null`, or the error. */
  function AsRoute(res: Result<bool>, route: Route): Result<Route?> {
    match res
    case Ok(b) => Ok(if b then route else null)
    case Err(e) => Err(e)
  }

  class Route {
    const httpMethod: string
    var url: string
    const handler: Handler
    var middlewares: seq<Middleware>
    var params: Bag

    function View(): RouteView
      reads this
    {
      RouteView(httpMethod, url, handler, middlewares, params)
    }

    /** A new route has no params. */
    constructor (httpMethod: string, url: string, handler: Handler, middlewares: seq<Middleware>)
      ensures View() == RouteView(httpMethod, url, handler, middlewares, [])
    {
      this.httpMethod := httpMethod;
      this.url := url;
      this.handler := handler;
      this.middlewares := middlewares;
      this.params := [];
    }

    /** `match`: the route itself on a match, `null` otherwise; `params` is written only on a match with captures. */
    method Match(m: string, path: string) returns (r: Result<Route?>)
      modifies this`params
      ensures params == MatchStep(old(View()), m, path).1
      ensures r == AsRoute(MatchStep(old(View()), m, path).0, this)
    {
      var c := Captures(httpMethod, url, m, path);
      if c.None? {
        return Ok(null);
      }
      var cs := c.value;
      if |cs| > 0 {
        var names := ParamNames(url);
        if |names| != |cs| {
          return Err(Uncaught("array_combine: argument counts differ"));
        }
        params := Combine(names, cs);
      }
      return Ok(this);
    }

    /** `addPrefix`: the prefix goes in front of the template; the route itself is returned. */
    method AddPrefix(prefix: string) returns (r: Route)
      modifies this`url
      ensures url == prefix + old(url)
      ensures r == this
    {
      url := prefix + url;
      return this;
    }

    /** `addMiddlewares`: the given middlewares go after the route's own, in order. */
    method AddMiddlewares(ms: seq<Middleware>) returns (r: Route)
      modifies this`middlewares
      ensures middlewares == old(middlewares) + ms
      ensures r == this
    {
      middlewares := middlewares + ms;
      return this;
    }
  }

  /** `:id` compiles to one parameter named `id`. */
  lemma IdTemplate()
    ensures Parse(":id") == [Param("id")]
  {
    assert Run("id", IsWordChar) == 2;
    assert ":id"[1..] == "id";
    assert ":id"[1..3] == "id";
    assert ":id"[3..] == "";
  }

  /** `/users/:id` compiles to the literal `/users/` followed by one parameter. */
  lemma UsersTemplate()
    ensures Parse("/users/:id") == Lits("/users/") + [Param("id")]
  {
    var s := "/users/:id";
    ParseLits(s, 7);
    assert s[..7] == "/users/";
    assert s[7..] == ":id";
    IdTemplate();
  }

  /** The users route: `GET /users/:id`. */
  lemma UsersCaptures(path: string)
    ensures Captures("GET", "/users/:id", "GET", path) == Match(Lits("/users/") + [Param("id")], path)
  {
    UsersTemplate();
    UsersNoDelimiter();
  }

  /** The users template holds no `@`, the pattern's delimiter. */
  lemma UsersNoDelimiter()
    ensures '@' !in "/users/:id"
  {
    assert forall i :: 0 <= i < |"/users/:id"| ==> "/users/:id"[i] != '@';
  }

  /**
   * `GET /users/:id` matches `GET /users/42`, capturing `42`, and `match`
   * returns the route with `params` set to `['id' => '42']`, whatever they were.
   */
  lemma UsersMatchesId(h: Handler, ms: seq<Middleware>, params: Bag)
    ensures Captures("GET", "/users/:id", "GET", "/users/42") == Some(["42"])
    ensures MatchStep(RouteView("GET", "/users/:id", h, ms, params), "GET", "/users/42") == (Ok(true), [("id", "42")])
  {
    Users42();
    UsersNewParams(params);
  }

  lemma Users42()
    ensures Captures("GET", "/users/:id", "GET", "/users/42") == Some(["42"])
  {
    UsersCaptures("/users/42");
    MatchLits("/users/", [Param("id")], "42");
    assert "/users/" + "42" == "/users/42";
    LastParam("id", "42");
  }

  /** Pairing the capture `42` with the users template's names gives `['id' => '42']`. */
  lemma UsersNewParams(params: Bag)
    ensures NewParams("/users/:id", params, ["42"]) == Ok([("id", "42")])
  {
    UsersNames();
    assert Combine(["id"], ["42"]) == [("id", "42")];
  }

  /** The name `match` reads from `/users/:id` is `id`. */
  lemma UsersNames()
    ensures ParamNames("/users/:id") == ["id"]
  {
    assert "/users/:id" == "/users/" + ":id";
    NamesSkipLits("/users/", ":id");
    IdName();
  }

  /** The name `match` reads from `:id` is `id`. */
  lemma IdName()
    ensures ParamNames(":id") == ["id"]
  {
    assert Run("id", IsCaptureChar) == 2;
    assert ":id"[1..] == "id" && ":id"[1..3] == "id" && ":id"[3..] == "";
  }

  /** A parameter never spans a `/`: `/users/42/extra` is not matched. */
  lemma UsersRejectsExtra()
    ensures Captures("GET", "/users/:id", "GET", "/users/42/extra") == None
  {
    UsersCaptures("/users/42/extra");
    MatchLits("/users/", [Param("id")], "42/extra");
    ExtraPath();
    LastParam("id", "42/extra");
  }

  lemma ExtraPath()
    ensures "/users/" + "42/extra" == "/users/42/extra"
    ensures !ValidCapture("42/extra")
  {
    SlashNotCaptured("42/extra", 2);
  }

  lemma SlashNotCaptured(s: string, i: nat)
    requires i < |s| && s[i] == '/'
    ensures !ValidCapture(s)
  {
  }

  /** A parameter is never empty: `/users` is not matched. */
  lemma UsersRejectsMissing()
    ensures Captures("GET", "/users/:id", "GET", "/users") == None
  {
    UsersCaptures("/users");
    UsersTokens();
    MatchLits("/users", [Lit('/'), Param("id")], "");
    assert "/users" + "" == "/users";
  }

  lemma UsersTokens()
    ensures Lits("/users/") + [Param("id")] == Lits("/users") + [Lit('/'), Param("id")]
  {
    assert "/users/" == "/users" + "/";
    LitsAppend("/users", "/");
  }
}
