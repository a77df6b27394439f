/**
 * Shared vocabulary of the router model: optional values, results that carry
 * one of the router's error kinds, and the error kinds themselves.
 */
module Base {

  datatype Option<+T> = None | Some(value: T)

  /** A value, or the error that the PHP code would have thrown instead. */
  datatype Result<+T> = Ok(value: T) | Err(error: Error)

  /** The result of an operation that returns nothing (PHP `void`) or throws. */
  datatype Outcome = Pass | Fail(error: Error)

  /**
   * Everything the core can throw.  All kinds but `Uncaught` are PHP
   * `Exception`s; `Uncaught` stands for a PHP `Error` (a `ValueError` from
   * `array_combine`, a call on `null`, instantiating an abstract class),
   * which the `catch (... Exception $e)` of `Application::run` does not catch.
   */
  datatype Error =
    | InvalidRequestUrl                             // no route matched
    | ControllerNotFound(cls: string)               // handler class does not exist
    | ControllerMethodNotFound(cls: string, action: string)
    | ViewEngineNotFound                            // raised only by the response renderer
    | MiddlewareError(code: int)                    // raised by a middleware, caller-chosen code
    | AbstractNotFound(key: string)                 // container: key neither cached nor bound
    | CircularDependencyDetected(key: string)       // container: key already being resolved
    | ConcreteClassNotInstantiable(cls: string)     // container: interface or abstract class
    | CannotResolveDependency(cls: string, param: string) // container: untyped constructor parameter
    | ClassNotFound(cls: string)                    // ReflectionException: no such class
    | NonPublicConstructor(cls: string)             // ReflectionException: `newInstanceArgs` on a non-public constructor
    | Uncaught(reason: string)                      // a PHP Error, not an Exception

  /** Whether `Application::run` catches the error (it catches `Exception` only). */
  predicate IsException(e: Error) {
    !e.Uncaught?
  }

  /**
   * The exception code the error carries.  Errors constructed without a code
   * carry 0; PHP's `ReflectionClass` constructor throws with code -1; the
   * class of `ControllerMethodNotFound` is not part of this model, so its
   * code is unknown.
   */
  function Code(e: Error): (c: Option<int>)
    ensures e.InvalidRequestUrl? ==> c == Some(404)
    ensures e.ControllerNotFound? || e.ViewEngineNotFound? ==> c == Some(500)
    ensures e.MiddlewareError? ==> c == Some(e.code)
    ensures e.ClassNotFound? ==> c == Some(-1)
    ensures c.None? <==> e.ControllerMethodNotFound? || e.Uncaught?
  {
    match e
    case InvalidRequestUrl => Some(404)
    case ControllerNotFound(_) => Some(500)
    case ViewEngineNotFound => Some(500)
    case MiddlewareError(code) => Some(code)
    case ControllerMethodNotFound(_, _) => None
    case Uncaught(_) => None
    case ClassNotFound(_) => Some(-1)
    case _ => Some(0)
  }
}
