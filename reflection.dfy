/**
 * What the router learns about PHP classes through `ReflectionClass`, written
 * out as explicit declarations: whether a class can be instantiated, the
 * parameters of its constructor (if it has one), its method names, its
 * attributes, and, for a middleware class, how its `handle` behaves.
 * Objects are values with an identity number so that "the same instance"
 * can be told apart from "an equal, new instance".
 */
module Reflection {
  import opened Base

  /** A constructor parameter: with a declared class/interface type, or without any type. */
  datatype Param = Typed(typeName: string) | Untyped(name: string)

  /** A PHP attribute on a class: its name and its positional arguments (each a list of names). */
  datatype Attribute = Attribute(name: string, args: seq<seq<string>>)

  /**
   * What a middleware's `handle($request, $next)` does: call `$next` and
   * return what it returns, answer by itself without calling `$next`, or
   * throw a `MiddlewareError` with the given code.
   */
  datatype Behaviour = PassThrough | ShortCircuit | Raise(code: int)

  /**
   * A declared class or interface: whether it is an interface or an abstract
   * class, the parameters of its constructor (if it declares one) and whether
   * that constructor is public, its methods (each mapped to whether it is
   * public), its attributes and, for a middleware class, how its `handle`
   * behaves.
   */
  datatype ClassDecl = ClassDecl(
    isInterface: bool,
    isAbstract: bool,
    ctor: Option<seq<Param>>,
    publicCtor: bool,
    methods: map<string, bool>,
    attributes: seq<Attribute>,
    behaviour: Behaviour)
  {
    /** Neither an interface nor an abstract class. */
    predicate Concrete() {
      !isInterface && !isAbstract
    }

    /** `ReflectionClass::isInstantiable()`: a concrete class whose constructor, if any, is public. */
    predicate Instantiable() {
      Concrete() && (ctor.None? || publicCtor)
    }

    /**
     * Whether code outside the class may call the method: it exists and is
     * public.  `method_exists` asks only the first half.
     */
    predicate Callable(name: string) {
      name in methods && methods[name]
    }
  }

  /** Every class the program declares, by fully qualified name. */
  type ClassTable = map<string, ClassDecl>

  /** An object: its identity, the name of what built it, and its constructor arguments. */
  datatype Object = Object(id: nat, cls: string, args: seq<Object>)

  /** A constructor argument of a middleware: a resolved dependency or a value the caller passed. */
  datatype Value = Instance(obj: Object) | Scalar(text: string)

  /** A constructed middleware object. */
  datatype Middleware = Middleware(cls: string, args: seq<Value>, behaviour: Behaviour)
}
