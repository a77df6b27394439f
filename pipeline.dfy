/**
 * `createPipeline` and what running the pipeline does.  The handler call is
 * wrapped in one layer per middleware; the loop over the reversed list puts
 * the first middleware outermost.  Running a layer follows the middleware's
 * behaviour: call `$next` (work before and after it), answer without
 * calling `$next`, or throw a `MiddlewareError`.
 */
module Pipeline {
  import opened Base
  import opened PhpArrays
  import opened Reflection
  import opened Routes

  /** The constructed controller: its class and constructor arguments. */
  datatype Controller = Controller(cls: string, args: seq<Object>)

  /**
   * A composed callable: the handler call, or a middleware around the rest.
   * `callable` says whether the handler's method exists on the controller
   * and is public, so that the call from the application's closure succeeds.
   */
  datatype Stage =
    | Action(handler: Handler, controller: Controller, bag: Bag, callable: bool)
    | Layer(mw: Middleware, next: Stage)

  /** What the trace records of a run. */
  datatype Event =
    | Before(mw: string)           // a middleware's work before `$next`
    | After(mw: string)            // a middleware's work after `$next` returned
    | Answered(mw: string)         // a middleware returned without calling `$next`
    | Raised(mw: string, code: int) // a middleware threw a `MiddlewareError`
    | Invoked(handler: Handler)    // the controller method ran

  /** The response a run returns: the controller's, or one a middleware made itself. */
  datatype Response = ActionResult(handler: Handler, controller: Controller, bag: Bag) | EarlyResponse(mw: string)

  /** The PHP Error raised by calling a method that does not exist or is not public. */
  const CallFailed := "call to undefined or non-public method"

  function Reverse(ms: seq<Middleware>): (r: seq<Middleware>)
    ensures |r| == |ms| && forall i :: 0 <= i < |ms| ==> r[i] == ms[|ms| - 1 - i]
  {
    if ms == [] then [] else Reverse(ms[1..]) + [ms[0]]
  }

  /** The loop of `createPipeline`: each middleware of `rs`, in turn, wraps the pipeline built so far. */
  function Wrap(rs: seq<Middleware>, p: Stage): Stage {
    if rs == [] then p else Wrap(rs[1..], Layer(rs[0], p))
  }

  /** `createPipeline`: the loop runs over `array_reverse` of the middleware list. */
  function CreatePipeline(ms: seq<Middleware>, handler: Stage): Stage {
    Wrap(Reverse(ms), handler)
  }

  /** The onion, written directly: `ms[0]` outermost, the handler innermost. */
  function Nest(ms: seq<Middleware>, inner: Stage): (p: Stage)
    ensures ms == [] ==> p == inner
  {
    if ms == [] then inner else Layer(ms[0], Nest(ms[1..], inner))
  }

  lemma {:induction false} NestAppend(a: seq<Middleware>, b: seq<Middleware>, inner: Stage)
    ensures Nest(a + b, inner) == Nest(a, Nest(b, inner))
  {
    if a != [] {
      assert (a + b)[0] == a[0];
      assert (a + b)[1..] == a[1..] + b;
      NestAppend(a[1..], b, inner);
    } else {
      assert a + b == b;
    }
  }

  /** Folding over the reversed list builds the onion: the first middleware is the outermost layer. */
  lemma {:induction false} CreatePipelineNests(ms: seq<Middleware>, inner: Stage)
    ensures CreatePipeline(ms, inner) == Nest(ms, inner)
    decreases |ms|
  {
    if ms != [] {
      var init, last := ms[..|ms| - 1], ms[|ms| - 1];
      assert Reverse(ms) == [last] + Reverse(init);
      assert ([last] + Reverse(init))[1..] == Reverse(init);
      CreatePipelineNests(init, Layer(last, inner));
      NestAppend(init, [last], inner);
      assert ms == init + [last];
    }
  }

  /**
   * Running a pipeline: the trace of what ran, and the response or the
   * exception.  A method that cannot be called raises a PHP Error, which
   * passes out through the middlewares like any exception.
   */
  function Exec(p: Stage): (r: (seq<Event>, Result<Response>))
    ensures r.1.Err? ==> r.1.error.MiddlewareError? || r.1.error == Uncaught(CallFailed)
  {
    match p
    case Action(h, c, bag, callable) =>
      if callable then ([Invoked(h)], Ok(ActionResult(h, c, bag))) else ([], Err(Uncaught(CallFailed)))
    case Layer(m, next) =>
      match m.behaviour
      case PassThrough =>
        var inner := Exec(next);
        (if inner.1.Ok? then [Before(m.cls)] + inner.0 + [After(m.cls)] else [Before(m.cls)] + inner.0, inner.1)
      case ShortCircuit => ([Answered(m.cls)], Ok(EarlyResponse(m.cls)))
      case Raise(code) => ([Raised(m.cls, code)], Err(MiddlewareError(code)))
  }

  predicate AllPass(ms: seq<Middleware>) {
    forall i :: 0 <= i < |ms| ==> ms[i].behaviour.PassThrough?
  }

  /** The position of the first middleware that does not call `$next`. */
  function FirstStop(ms: seq<Middleware>): (k: nat)
    requires !AllPass(ms)
    ensures k < |ms| && !ms[k].behaviour.PassThrough? && AllPass(ms[..k])
  {
    if !ms[0].behaviour.PassThrough? then 0
    else
      assert !AllPass(ms[1..]) by {
        var j :| 0 <= j < |ms| && !ms[j].behaviour.PassThrough?;
        assert ms[1..][j - 1] == ms[j];
      }
      var k := FirstStop(ms[1..]);
      var prefix := ms[..k + 1];
      assert AllPass(prefix) by {
        forall i | 0 < i < |prefix| ensures prefix[i].behaviour.PassThrough? {
          assert prefix[i] == ms[1..][..k][i - 1];
        }
      }
      k + 1
  }

  function Befores(ms: seq<Middleware>): (es: seq<Event>)
    ensures |es| == |ms| && forall i :: 0 <= i < |ms| ==> es[i] == Before(ms[i].cls)
  {
    if ms == [] then [] else [Before(ms[0].cls)] + Befores(ms[1..])
  }

  /** The "after" halves, innermost first. */
  function Afters(ms: seq<Middleware>): (es: seq<Event>)
    ensures |es| == |ms| && forall i :: 0 <= i < |ms| ==> es[i] == After(ms[|ms| - 1 - i].cls)
  {
    if ms == [] then [] else Afters(ms[1..]) + [After(ms[0].cls)]
  }

  /**
   * Layers that all call `$next` run their "before" halves outside in, then
   * the inner stage, then, if it returned, their "after" halves inside out;
   * an exception from inside passes through them.
   */
  lemma {:induction false} PassLayers(ms: seq<Middleware>, inner: Stage)
    requires AllPass(ms)
    ensures var r := Exec(inner);
      Exec(Nest(ms, inner)) == (Befores(ms) + r.0 + (if r.1.Ok? then Afters(ms) else []), r.1)
  {
    var r := Exec(inner);
    if ms != [] {
      PassLayers(ms[1..], inner);
      assert ms[0].behaviour.PassThrough?;
      assert Befores(ms) == [Before(ms[0].cls)] + Befores(ms[1..]);
      assert Afters(ms) == Afters(ms[1..]) + [After(ms[0].cls)];
      if r.1.Ok? {
        Regroup([Before(ms[0].cls)], Befores(ms[1..]), r.0, Afters(ms[1..]), [After(ms[0].cls)]);
      } else {
        Regroup([Before(ms[0].cls)], Befores(ms[1..]), r.0, [], []);
        assert [Before(ms[0].cls)] + (Befores(ms[1..]) + r.0 + []) == Befores(ms) + r.0 + [];
      }
    } else {
      assert Befores(ms) + r.0 + [] == r.0;
      assert Befores(ms) + r.0 + Afters(ms) == r.0;
    }
  }

  /** Moving the brackets of a trace built from five pieces. */
  lemma Regroup(x: seq<Event>, b: seq<Event>, t: seq<Event>, a: seq<Event>, y: seq<Event>)
    ensures x + (b + t + a) + y == (x + b) + t + (a + y)
  {
  }

  /**
   * With every middleware calling `$next`: M1 before ... Mn before, the
   * handler, Mn after ... M1 after.  When the method cannot be called, the
   * "before" halves have run and the Error leaves without any "after" half.
   */
  lemma OnionOrder(ms: seq<Middleware>, h: Handler, c: Controller, bag: Bag, callable: bool)
    requires AllPass(ms)
    ensures Exec(CreatePipeline(ms, Action(h, c, bag, callable))) ==
      if callable then (Befores(ms) + [Invoked(h)] + Afters(ms), Ok(ActionResult(h, c, bag)))
      else (Befores(ms), Err(Uncaught(CallFailed)))
  {
    CreatePipelineNests(ms, Action(h, c, bag, callable));
    PassLayers(ms, Action(h, c, bag, callable));
    if !callable {
      assert Befores(ms) + [] + [] == Befores(ms);
    }
  }

  /** Without middlewares the pipeline is exactly the handler call. */
  lemma NoMiddleware(h: Handler, c: Controller, bag: Bag, callable: bool)
    ensures CreatePipeline([], Action(h, c, bag, callable)) == Action(h, c, bag, callable)
    ensures Exec(CreatePipeline([], Action(h, c, bag, callable))) ==
      if callable then ([Invoked(h)], Ok(ActionResult(h, c, bag))) else ([], Err(Uncaught(CallFailed)))
  {
    assert Reverse([]) == [];
  }

  /**
   * The first middleware that does not call `$next` decides the run: the
   * handler and every middleware inside it never run.  An answer passes back
   * out through the "after" halves of the outer layers; an exception skips them.
   */
  lemma FirstStopDecides(ms: seq<Middleware>, inner: Stage, k: nat)
    requires k < |ms| && AllPass(ms[..k]) && !ms[k].behaviour.PassThrough?
    ensures var m := ms[k];
      Exec(CreatePipeline(ms, inner)) ==
        if m.behaviour.ShortCircuit? then
          (Befores(ms[..k]) + [Answered(m.cls)] + Afters(ms[..k]), Ok(EarlyResponse(m.cls)))
        else
          (Befores(ms[..k]) + [Raised(m.cls, m.behaviour.code)], Err(MiddlewareError(m.behaviour.code)))
  {
    CreatePipelineNests(ms, inner);
    assert ms == ms[..k] + ms[k..];
    NestAppend(ms[..k], ms[k..], inner);
    assert ms[k..][0] == ms[k];
    PassLayers(ms[..k], Nest(ms[k..], inner));
    if ms[k].behaviour.Raise? {
      assert Befores(ms[..k]) + [Raised(ms[k].cls, ms[k].behaviour.code)] + [] ==
        Befores(ms[..k]) + [Raised(ms[k].cls, ms[k].behaviour.code)];
    }
  }

  /** The handler runs exactly when every middleware calls `$next` and its method can be called. */
  lemma HandlerRunsIffAllPass(ms: seq<Middleware>, h: Handler, c: Controller, bag: Bag, callable: bool)
    ensures Invoked(h) in Exec(CreatePipeline(ms, Action(h, c, bag, callable))).0 <==> AllPass(ms) && callable
  {
    if AllPass(ms) {
      OnionOrder(ms, h, c, bag, callable);
      if callable {
        assert (Befores(ms) + [Invoked(h)] + Afters(ms))[|ms|] == Invoked(h);
      }
    } else {
      FirstStopDecides(ms, Action(h, c, bag, callable), FirstStop(ms));
    }
  }
}
