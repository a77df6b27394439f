/**
 * `Container`: the bindings, the instance cache and the `resolving` stack
 * are fields that `get` and `resolve` update in place.  Each method is
 * proved to return, and to leave the fields in, exactly what the functions
 * of `ContainerModel` say; the properties proved about those functions
 * therefore hold of the class.
 */
module DI {
  import opened Base
  import opened PhpArrays
  import opened Reflection
  import opened ContainerModel

  /** `Prepend(deps, p)`: the dependencies gathered so far in front of those still to come. */
  function Prepend(deps: seq<Object>, p: (Result<seq<Object>>, State)): (Result<seq<Object>>, State) {
    (if p.0.Ok? then Ok(deps + p.0.value) else p.0, p.1)
  }

  lemma PrependNothing(p: (Result<seq<Object>>, State))
    ensures Prepend([], p) == p
  {
    if p.0.Ok? {
      assert [] + p.0.value == p.0.value;
    }
  }

  lemma PrependAssoc(deps: seq<Object>, v: Object, p: (Result<seq<Object>>, State))
    ensures Prepend(deps, Prepend([v], p)) == Prepend(deps + [v], p)
  {
    if p.0.Ok? {
      assert deps + ([v] + p.0.value) == (deps + [v]) + p.0.value;
    }
  }

  /** One step of the dependency loop: `get` on parameter `i`, then the rest. */
  lemma DependenciesStep(ct: ClassTable, s: State, cls: string, ps: seq<Param>, i: nat)
    requires i < |ps| && ps[i].Typed?
    ensures var first := ContainerModel.Get(ct, s, ps[i].typeName);
      ContainerModel.Dependencies(ct, s, cls, ps[i..]) ==
        if first.0.Err? then (Err(first.0.error), first.1)
        else Prepend([first.0.value], ContainerModel.Dependencies(ct, first.1, cls, ps[i + 1..]))
  {
    assert ps[i..][0] == ps[i];
    assert ps[i..][1..] == ps[i + 1..];
  }

  class Container {
    var configurations: Bag
    var bindings: map<string, Binding>
    var instances: map<string, Object>
    var resolving: seq<string>
    /** Objects built so far; the next object built gets this number as its identity. */
    var created: nat

    function Snapshot(): State
      reads this
    {
      State(bindings, instances, resolving, created)
    }

    /** The `resolving` stack holds distinct keys, each of them bound. */
    predicate Valid()
      reads this
    {
      Wf(Snapshot())
    }

    /** A new container has no configuration, no binding, no instance and an empty stack. */
    constructor ()
      ensures Snapshot() == State(map[], map[], [], 0) && configurations == []
      ensures Valid()
    {
      configurations := [];
      bindings := map[];
      instances := map[];
      resolving := [];
      created := 0;
    }

    /** `registerConfiguration`: replaces the whole configuration. */
    method RegisterConfiguration(configurations: Bag)
      modifies this`configurations
      ensures this.configurations == configurations
    {
      this.configurations := configurations;
    }

    /** `getConfiguration`. */
    function GetConfiguration(): Bag
      reads this
    {
      configurations
    }

    /** `registerSingleton`: binds or rebinds the key as shared; the cache and the stack are untouched. */
    method RegisterSingleton(key: string, concrete: Factory)
      modifies this`bindings
      ensures bindings == old(bindings)[key := Binding(concrete, true)]
      ensures old(Valid()) ==> Valid()
    {
      bindings := bindings[key := Binding(concrete, true)];
    }

    /** `registerTransient`: binds or rebinds the key as not shared; the cache and the stack are untouched. */
    method RegisterTransient(key: string, concrete: Factory)
      modifies this`bindings
      ensures bindings == old(bindings)[key := Binding(concrete, false)]
      ensures old(Valid()) ==> Valid()
    {
      bindings := bindings[key := Binding(concrete, false)];
    }

    /** `get`: the cached instance, or an error, or a newly built object (cached when shared). */
    method Get(ct: ClassTable, key: string) returns (r: Result<Object>)
      modifies this`instances, this`resolving, this`created
      ensures (r, Snapshot()) == ContainerModel.Get(ct, old(Snapshot()), key)
      ensures old(Valid()) ==> Valid()
      decreases Unvisited(Snapshot()), 0, 0
    {
      if key in instances {
        return Ok(instances[key]);
      }
      if key !in bindings {
        return Err(AbstractNotFound(key));
      }
      if key in resolving {
        return Err(CircularDependencyDetected(key));
      }
      PushShrinks(Snapshot(), key);
      ghost var s0 := Snapshot();
      resolving := resolving + [key];
      var binding := bindings[key];
      r := Make(ct, binding.concrete);
      ghost var made := ContainerModel.Make(ct, s0.(resolving := s0.resolving + [key]), binding.concrete);
      assert (r, Snapshot()) == made;
      if r.Err? {
        GetWf(ct, s0, key);
        return;
      }
      assert ContainerModel.Get(ct, s0, key) == (r, Finish(made.1, key, r.value, binding.shared));
      if binding.shared {
        instances := instances[key := r.value];
      }
      resolving := resolving[..|resolving| - 1];
      GetWf(ct, s0, key);
    }

    /** Running a binding's factory: the closure with its declared dependencies, or `resolve` of the class. */
    method Make(ct: ClassTable, f: Factory) returns (r: Result<Object>)
      modifies this`instances, this`resolving, this`created
      ensures (r, Snapshot()) == ContainerModel.Make(ct, old(Snapshot()), f)
      decreases Unvisited(Snapshot()), 3, 0
    {
      match f {
        case Closure(id, keys) =>
          var deps := Dependencies(ct, id, ClosureParams(keys));
          if deps.Err? {
            return Err(deps.error);
          }
          r := New(id, deps.value);
        case ClassName(cls) =>
          r := Resolve(ct, cls);
      }
    }

    /** `resolve`: builds `cls` from its constructor's declared dependencies. */
    method Resolve(ct: ClassTable, cls: string) returns (r: Result<Object>)
      modifies this`instances, this`resolving, this`created
      ensures (r, Snapshot()) == ContainerModel.Resolve(ct, old(Snapshot()), cls)
      decreases Unvisited(Snapshot()), 2, 0
    {
      if cls !in ct {
        return Err(ClassNotFound(cls));
      }
      if !ct[cls].Instantiable() {
        return Err(ConcreteClassNotInstantiable(cls));
      }
      match ct[cls].ctor {
        case None =>
          r := New(cls, []);
        case Some(ps) =>
          var deps := Dependencies(ct, cls, ps);
          if deps.Err? {
            return Err(deps.error);
          }
          r := New(cls, deps.value);
      }
    }

    /** The loop of `resolve` over the constructor parameters, stopping at the first failure. */
    method Dependencies(ct: ClassTable, cls: string, ps: seq<Param>) returns (r: Result<seq<Object>>)
      modifies this`instances, this`resolving, this`created
      ensures (r, Snapshot()) == ContainerModel.Dependencies(ct, old(Snapshot()), cls, ps)
      decreases Unvisited(Snapshot()), 1, |ps|
    {
      var deps: seq<Object> := [];
      var i := 0;
      assert ps[0..] == ps;
      PrependNothing(ContainerModel.Dependencies(ct, Snapshot(), cls, ps));
      while i < |ps|
        invariant 0 <= i <= |ps|
        invariant bindings == old(bindings) && resolving == old(resolving)
        invariant ContainerModel.Dependencies(ct, old(Snapshot()), cls, ps) ==
          Prepend(deps, ContainerModel.Dependencies(ct, Snapshot(), cls, ps[i..]))
      {
        if ps[i].Untyped? {
          return Err(CannotResolveDependency(cls, ps[i].name));
        }
        DependenciesStep(ct, Snapshot(), cls, ps, i);
        var d := Get(ct, ps[i].typeName);
        if d.Err? {
          return Err(d.error);
        }
        PrependAssoc(deps, d.value, ContainerModel.Dependencies(ct, Snapshot(), cls, ps[i + 1..]));
        deps := deps + [d.value];
        i := i + 1;
      }
      assert ps[i..] == [] && deps + [] == deps;
      return Ok(deps);
    }

    /** `new $cls(...$args)`. */
    method New(cls: string, args: seq<Object>) returns (r: Result<Object>)
      modifies this`created
      ensures (r, Snapshot()) == ContainerModel.New(old(Snapshot()), cls, args)
    {
      r := Ok(Object(created, cls, args));
      created := created + 1;
    }
  }
}
