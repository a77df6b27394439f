/**
 * The dependency-injection container as a state machine.  `Get`, `Make`,
 * `Resolve` and `Dependencies` say what `Container::get` and
 * `Container::resolve` return and the state they leave: the bindings, the
 * instance cache, the `resolving` stack and a count of objects built so far
 * (which gives each new object its identity).  The `Container` class is
 * proved to follow these functions step by step.
 */
module ContainerModel {
  import opened Base
  import opened PhpArrays
  import opened Reflection

  /**
   * How a binding builds its object: a closure that asks the container for
   * the given keys, in order, and builds an object tagged `ctorId` from them;
   * or the name of a class that `resolve` constructs.
   */
  datatype Factory = Closure(ctorId: string, keys: seq<string>) | ClassName(cls: string)

  /** A binding: the factory and whether the object is shared (a singleton). */
  datatype Binding = Binding(concrete: Factory, shared: bool)

  datatype State = State(
    bindings: map<string, Binding>,
    instances: map<string, Object>,
    resolving: seq<string>,
    created: nat)

  /** Reachable states: the keys on `resolving` are distinct and bound. */
  predicate Wf(s: State) {
    Distinct(s.resolving) && forall k :: k in s.resolving ==> k in s.bindings
  }

  /**
   * What any call leaves behind: bindings untouched, the old `resolving` a
   * prefix of the new one, cached instances kept, keys that were in the
   * middle of being resolved still uncached, and no object count lost.
   */
  predicate Evolves(s: State, t: State) {
    && t.bindings == s.bindings
    && |s.resolving| <= |t.resolving| && t.resolving[..|s.resolving|] == s.resolving
    && (forall k :: k in s.instances ==> k in t.instances && t.instances[k] == s.instances[k])
    && (forall k :: k in s.resolving && k !in s.instances ==> k !in t.instances)
    && s.created <= t.created
  }

  /** The bound keys not on the stack: a `get` that pushes a key makes this smaller. */
  function Unvisited(s: State): nat {
    |s.bindings.Keys - set k | k in s.resolving|
  }

  lemma PushShrinks(s: State, key: string)
    requires key in s.bindings && key !in s.resolving
    ensures Unvisited(s.(resolving := s.resolving + [key])) < Unvisited(s)
  {
    var before := set k | k in s.resolving;
    var after := set k | k in s.resolving + [key];
    assert after == before + {key};
    assert s.bindings.Keys - after == (s.bindings.Keys - before) - {key};
    assert key in s.bindings.Keys - before;
  }

  /** A closure's keys, read as typed constructor parameters. */
  function ClosureParams(keys: seq<string>): (ps: seq<Param>)
    ensures |ps| == |keys| && forall i :: 0 <= i < |keys| ==> ps[i] == Typed(keys[i])
  {
    seq(|keys|, i requires 0 <= i < |keys| => Typed(keys[i]))
  }

  /** `new $cls(...$args)`: a new object with the next identity. */
  function New(s: State, cls: string, args: seq<Object>): (Result<Object>, State) {
    (Ok(Object(s.created, cls, args)), s.(created := s.created + 1))
  }

  /** `get($key)`. */
  function Get(ct: ClassTable, s: State, key: string): (r: (Result<Object>, State))
    ensures r.1.bindings == s.bindings
    ensures r.0.Ok? ==> r.1.resolving == s.resolving
    ensures key in s.instances ==> r == (Ok(s.instances[key]), s)
    ensures key !in s.instances && key !in s.bindings ==> r == (Err(AbstractNotFound(key)), s)
    ensures key !in s.instances && key in s.bindings && key in s.resolving ==>
      r == (Err(CircularDependencyDetected(key)), s)
    decreases Unvisited(s), 0, 0
  {
    if key in s.instances then (Ok(s.instances[key]), s)
    else if key !in s.bindings then (Err(AbstractNotFound(key)), s)
    else if key in s.resolving then (Err(CircularDependencyDetected(key)), s)
    else
      var s1 := s.(resolving := s.resolving + [key]);
      PushShrinks(s, key);
      var b := s.bindings[key];
      var made := Make(ct, s1, b.concrete);
      match made.0
      case Err(e) => (Err(e), made.1)
      case Ok(obj) => (Ok(obj), Finish(made.1, key, obj, b.shared))
  }

  /** The end of a successful `get`: cache the object if shared, then pop the stack. */
  function Finish(t: State, key: string, obj: Object, shared: bool): (u: State)
    requires |t.resolving| > 0
    ensures u.resolving == t.resolving[..|t.resolving| - 1]
    ensures shared ==> u.instances == t.instances[key := obj]
    ensures !shared ==> u.instances == t.instances
  {
    var t1 := if shared then t.(instances := t.instances[key := obj]) else t;
    t1.(resolving := t1.resolving[..|t1.resolving| - 1])
  }

  /** Running a binding's factory. */
  function Make(ct: ClassTable, s: State, f: Factory): (r: (Result<Object>, State))
    ensures r.1.bindings == s.bindings
    ensures r.0.Ok? ==> r.1.resolving == s.resolving
    decreases Unvisited(s), 3, 0
  {
    match f
    case Closure(id, keys) =>
      var deps := Dependencies(ct, s, id, ClosureParams(keys));
      if deps.0.Err? then (Err(deps.0.error), deps.1) else New(deps.1, id, deps.0.value)
    case ClassName(cls) => Resolve(ct, s, cls)
  }

  /** `resolve($cls)`. */
  function Resolve(ct: ClassTable, s: State, cls: string): (r: (Result<Object>, State))
    ensures r.1.bindings == s.bindings
    ensures r.0.Ok? ==> r.1.resolving == s.resolving
    ensures cls !in ct ==> r == (Err(ClassNotFound(cls)), s)
    ensures cls in ct && !ct[cls].Instantiable() ==> r == (Err(ConcreteClassNotInstantiable(cls)), s)
    ensures r.0.Ok? ==> cls in ct && ct[cls].Instantiable() && r.0.value.cls == cls
    ensures r.0.Ok? && ct[cls].ctor.None? ==> r.0.value.args == []
    ensures r.0.Ok? && ct[cls].ctor.Some? ==> |r.0.value.args| == |ct[cls].ctor.value|
    decreases Unvisited(s), 2, 0
  {
    if cls !in ct then (Err(ClassNotFound(cls)), s)
    else if !ct[cls].Instantiable() then (Err(ConcreteClassNotInstantiable(cls)), s)
    else match ct[cls].ctor
      case None => New(s, cls, [])
      case Some(ps) =>
        var deps := Dependencies(ct, s, cls, ps);
        if deps.0.Err? then (Err(deps.0.error), deps.1) else New(deps.1, cls, deps.0.value)
  }

  /** The constructor arguments of `cls`: `get` on each parameter's type, in order. */
  function Dependencies(ct: ClassTable, s: State, cls: string, ps: seq<Param>): (r: (Result<seq<Object>>, State))
    ensures r.1.bindings == s.bindings
    ensures r.0.Ok? ==> r.1.resolving == s.resolving && |r.0.value| == |ps|
    ensures ps != [] && ps[0].Untyped? ==> r == (Err(CannotResolveDependency(cls, ps[0].name)), s)
    decreases Unvisited(s), 1, |ps|
  {
    if ps == [] then (Ok([]), s)
    else match ps[0]
      case Untyped(name) => (Err(CannotResolveDependency(cls, name)), s)
      case Typed(t) =>
        var first := Get(ct, s, t);
        if first.0.Err? then (Err(first.0.error), first.1)
        else
          var rest := Dependencies(ct, first.1, cls, ps[1..]);
          if rest.0.Err? then (Err(rest.0.error), rest.1)
          else (Ok([first.0.value] + rest.0.value), rest.1)
  }

  /** `resolve` succeeds only when every constructor parameter is typed: an untyped one fails it. */
  lemma {:induction false} DependenciesTyped(ct: ClassTable, s: State, cls: string, ps: seq<Param>)
    ensures Dependencies(ct, s, cls, ps).0.Ok? ==> forall i :: 0 <= i < |ps| ==> ps[i].Typed?
    decreases |ps|
  {
    if ps != [] && ps[0].Typed? {
      var first := Get(ct, s, ps[0].typeName);
      if first.0.Ok? {
        DependenciesTyped(ct, first.1, cls, ps[1..]);
        var r := Dependencies(ct, s, cls, ps);
        if r.0.Ok? {
          forall i | 0 <= i < |ps| ensures ps[i].Typed? {
            if i > 0 { assert ps[i] == ps[1..][i - 1]; }
          }
        }
      }
    }
  }

  /**
   * With every parameter's type already cached, the constructor arguments are
   * the cached instances, in parameter order, and the state is unchanged.
   */
  lemma {:induction false} DependenciesCached(ct: ClassTable, s: State, cls: string, ps: seq<Param>)
    requires forall i :: 0 <= i < |ps| ==> ps[i].Typed? && ps[i].typeName in s.instances
    ensures var r := Dependencies(ct, s, cls, ps);
      r.0.Ok? && r.1 == s && |r.0.value| == |ps| &&
      forall i :: 0 <= i < |ps| ==> r.0.value[i] == s.instances[ps[i].typeName]
    decreases |ps|
  {
    if ps != [] {
      assert ps[0].typeName in s.instances;
      assert forall i :: 0 <= i < |ps[1..]| ==> ps[1..][i] == ps[i + 1];
      DependenciesCached(ct, s, cls, ps[1..]);
      var rest := Dependencies(ct, s, cls, ps[1..]);
      var r := Dependencies(ct, s, cls, ps);
      assert r.0.value == [s.instances[ps[0].typeName]] + rest.0.value;
      forall i | 0 <= i < |ps| ensures r.0.value[i] == s.instances[ps[i].typeName] {
        if i > 0 { assert r.0.value[i] == rest.0.value[i - 1]; }
      }
    }
  }

  /**
   * `resolve` of an instantiable class whose constructor's parameter types
   * are all cached builds one new object of that class, with the cached
   * instances as arguments, and changes nothing but the object count.
   */
  lemma ResolveCached(ct: ClassTable, s: State, cls: string)
    requires cls in ct && ct[cls].Instantiable() && ct[cls].ctor.Some?
    requires forall i :: 0 <= i < |ct[cls].ctor.value| ==>
      ct[cls].ctor.value[i].Typed? && ct[cls].ctor.value[i].typeName in s.instances
    ensures var ps := ct[cls].ctor.value;
      var r := Resolve(ct, s, cls);
      r.0.Ok? && r.0.value.id == s.created && r.0.value.cls == cls &&
      r.1 == s.(created := s.created + 1) && |r.0.value.args| == |ps| &&
      forall i :: 0 <= i < |ps| ==> r.0.value.args[i] == s.instances[ps[i].typeName]
  {
    DependenciesCached(ct, s, cls, ct[cls].ctor.value);
  }

  lemma EvolvesTrans(a: State, b: State, c: State)
    requires Evolves(a, b) && Evolves(b, c)
    ensures Evolves(a, c)
  {
    assert c.resolving[..|a.resolving|] == c.resolving[..|b.resolving|][..|a.resolving|];
  }

  /** Pushing a bound key that is not on the stack keeps the state well formed. */
  /** `get` keeps the state well formed. */
  lemma GetWf(ct: ClassTable, s: State, key: string)
    ensures Wf(s) ==> Wf(Get(ct, s, key).1)
  {
    GetEvolves(ct, s, key);
  }

  lemma PushWf(s: State, key: string)
    requires Wf(s) && key in s.bindings && key !in s.resolving
    ensures Wf(s.(resolving := s.resolving + [key]))
  {
    var rs := s.resolving + [key];
    forall i, j | 0 <= i < j < |rs| ensures rs[i] != rs[j] {
      if j == |s.resolving| {
        assert rs[i] == s.resolving[i];
      }
    }
  }

  /**
   * Every `get` evolves the state as `Evolves` says and keeps it well
   * formed: a key is pushed only when it is bound and not yet on the stack.
   */
  lemma {:induction false} GetEvolves(ct: ClassTable, s: State, key: string)
    ensures Evolves(s, Get(ct, s, key).1)
    ensures Wf(s) ==> Wf(Get(ct, s, key).1)
    decreases Unvisited(s), 0, 0
  {
    if key !in s.instances && key in s.bindings && key !in s.resolving {
      var s1 := s.(resolving := s.resolving + [key]);
      PushShrinks(s, key);
      PushEvolves(s, key);
      var b := s.bindings[key];
      MakeEvolves(ct, s1, b.concrete);
      var made := Make(ct, s1, b.concrete);
      if made.0.Err? {
        EvolvesTrans(s, s1, made.1);
      } else {
        FinishEvolves(s, key, made.1, made.0.value, b.shared);
      }
    }
  }

  lemma PushEvolves(s: State, key: string)
    requires key in s.bindings && key !in s.resolving
    ensures Evolves(s, s.(resolving := s.resolving + [key]))
    ensures Wf(s) ==> Wf(s.(resolving := s.resolving + [key]))
  {
    assert (s.resolving + [key])[..|s.resolving|] == s.resolving;
    if Wf(s) {
      PushWf(s, key);
    }
  }

  /** Caching and popping after the build keeps what the build kept, and restores the stack. */
  lemma FinishEvolves(s: State, key: string, t: State, obj: Object, shared: bool)
    requires key !in s.instances && key !in s.resolving
    requires Evolves(s.(resolving := s.resolving + [key]), t) && t.resolving == s.resolving + [key]
    ensures Finish(t, key, obj, shared).resolving == s.resolving
    ensures Evolves(s, Finish(t, key, obj, shared))
    ensures Wf(s) ==> Wf(Finish(t, key, obj, shared))
  {
    assert (s.resolving + [key])[..|s.resolving|] == s.resolving;
    var u := Finish(t, key, obj, shared);
    forall k | k in s.resolving && k !in s.instances ensures k !in u.instances {
      assert k in s.resolving + [key];
    }
  }

  lemma {:induction false} MakeEvolves(ct: ClassTable, s: State, f: Factory)
    ensures Evolves(s, Make(ct, s, f).1)
    ensures Wf(s) ==> Wf(Make(ct, s, f).1)
    decreases Unvisited(s), 3, 0
  {
    match f
    case Closure(id, keys) =>
      DependenciesEvolves(ct, s, id, ClosureParams(keys));
    case ClassName(cls) =>
      ResolveEvolves(ct, s, cls);
  }

  lemma {:induction false} ResolveEvolves(ct: ClassTable, s: State, cls: string)
    ensures Evolves(s, Resolve(ct, s, cls).1)
    ensures Wf(s) ==> Wf(Resolve(ct, s, cls).1)
    decreases Unvisited(s), 2, 0
  {
    if cls in ct && ct[cls].Instantiable() && ct[cls].ctor.Some? {
      DependenciesEvolves(ct, s, cls, ct[cls].ctor.value);
    }
  }

  lemma {:induction false} DependenciesEvolves(ct: ClassTable, s: State, cls: string, ps: seq<Param>)
    ensures Evolves(s, Dependencies(ct, s, cls, ps).1)
    ensures Wf(s) ==> Wf(Dependencies(ct, s, cls, ps).1)
    decreases Unvisited(s), 1, |ps|
  {
    if ps != [] && ps[0].Typed? {
      var first := Get(ct, s, ps[0].typeName);
      GetEvolves(ct, s, ps[0].typeName);
      if first.0.Ok? {
        DependenciesEvolves(ct, first.1, cls, ps[1..]);
        EvolvesTrans(s, first.1, Dependencies(ct, first.1, cls, ps[1..]).1);
      }
    }
  }

  /** The number of distinct keys on a stack without repeats is its length. */
  lemma {:induction false} DistinctCard(ks: seq<string>)
    requires Distinct(ks)
    ensures |set k | k in ks| == |ks|
  {
    if ks != [] {
      var init := ks[..|ks| - 1];
      assert Distinct(init);
      DistinctCard(init);
      assert (set k | k in ks) == (set k | k in init) + {ks[|ks| - 1]};
      assert ks[|ks| - 1] !in init by {
        forall i | 0 <= i < |init| ensures init[i] != ks[|ks| - 1] {
          assert init[i] == ks[i];
        }
      }
    }
  }

  /** Resolution depth is bounded: the stack never holds more keys than there are bindings. */
  lemma DepthBound(s: State)
    requires Wf(s)
    ensures |s.resolving| <= |s.bindings|
  {
    DistinctCard(s.resolving);
    SubsetCard((set k | k in s.resolving), s.bindings.Keys);
  }

  lemma {:induction false} SubsetCard(a: set<string>, b: set<string>)
    requires a <= b
    ensures |a| <= |b|
  {
    if a != {} {
      var x :| x in a;
      SubsetCard(a - {x}, b - {x});
    }
  }

  /** A built object gets an identity no earlier object has, below the new count. */
  lemma MakeFresh(ct: ClassTable, s: State, f: Factory)
    requires Make(ct, s, f).0.Ok?
    ensures s.created <= Make(ct, s, f).0.value.id < Make(ct, s, f).1.created
  {
    match f
    case Closure(id, keys) =>
      DependenciesEvolves(ct, s, id, ClosureParams(keys));
    case ClassName(cls) =>
      if ct[cls].ctor.Some? {
        DependenciesEvolves(ct, s, cls, ct[cls].ctor.value);
      }
  }

  /**
   * `get` on a key that is not cached either fails or returns a newly built
   * object, which it caches exactly when the binding is shared.
   */
  lemma GetBuilds(ct: ClassTable, s: State, key: string)
    requires key !in s.instances && Get(ct, s, key).0.Ok?
    ensures var r := Get(ct, s, key);
      && key in s.bindings
      && s.created <= r.0.value.id < r.1.created
      && (s.bindings[key].shared ==> key in r.1.instances && r.1.instances[key] == r.0.value)
      && (!s.bindings[key].shared ==> key !in r.1.instances)
  {
    var s1 := s.(resolving := s.resolving + [key]);
    var b := s.bindings[key];
    MakeFresh(ct, s1, b.concrete);
    MakeEvolves(ct, s1, b.concrete);
  }

  /** A singleton: once `get` succeeds, every later `get` returns the same object and changes nothing. */
  lemma SingletonIdentity(ct: ClassTable, s: State, key: string)
    requires key in s.bindings && s.bindings[key].shared && Get(ct, s, key).0.Ok?
    ensures var t := Get(ct, s, key).1; Get(ct, t, key) == (Get(ct, s, key).0, t)
  {
    if key !in s.instances {
      GetBuilds(ct, s, key);
    }
  }

  /** A transient binding: two successive `get`s return two different objects. */
  lemma TransientDistinct(ct: ClassTable, s: State, key: string)
    requires key !in s.instances && key in s.bindings && !s.bindings[key].shared
    requires Get(ct, s, key).0.Ok? && Get(ct, Get(ct, s, key).1, key).0.Ok?
    ensures Get(ct, Get(ct, s, key).1, key).0.value.id != Get(ct, s, key).0.value.id
  {
    var t := Get(ct, s, key).1;
    GetBuilds(ct, s, key);
    GetBuilds(ct, t, key);
  }

  /**
   * A failed `get` leaves its key on the stack (nothing pops it), so every
   * later `get` of that key reports a cycle, even with no cycle present.
   */
  lemma StaleEntryBlocksRetry(ct: ClassTable, s: State, key: string)
    requires key !in s.instances && key in s.bindings && key !in s.resolving
    requires Get(ct, s, key).0.Err?
    ensures var t := Get(ct, s, key).1;
      && |t.resolving| > |s.resolving| && t.resolving[|s.resolving|] == key
      && Get(ct, t, key) == (Err(CircularDependencyDetected(key)), t)
  {
    var s1 := s.(resolving := s.resolving + [key]);
    var b := s.bindings[key];
    MakeEvolves(ct, s1, b.concrete);
    var t := Make(ct, s1, b.concrete).1;
    assert t.resolving[..|s1.resolving|] == s1.resolving;
    assert t.resolving[|s.resolving|] == s1.resolving[|s.resolving|];
  }

  /** Two classes that need each other, and an unrelated class `C` without a constructor. */
  function CycleClasses(): ClassTable {
    map["A" := ClassDecl(false, false, Some([Typed("B")]), true, map[], [], PassThrough),
        "B" := ClassDecl(false, false, Some([Typed("A")]), true, map[], [], PassThrough),
        "C" := ClassDecl(false, false, None, true, map[], [], PassThrough)]
  }

  function CycleStart(): State {
    State(map["A" := Binding(ClassName("A"), true),
              "B" := Binding(ClassName("B"), true),
              "C" := Binding(ClassName("C"), false)], map[], [], 0)
  }

  /** `get('A')` finds the cycle A, B, A and reports it at `A`, leaving both keys on the stack. */
  lemma CycleDetected()
    ensures Get(CycleClasses(), CycleStart(), "A") ==
      (Err(CircularDependencyDetected("A")), CycleStart().(resolving := ["A", "B"]))
  {
    var ct, s := CycleClasses(), CycleStart();
    var s1 := s.(resolving := ["A"]);
    var s2 := s.(resolving := ["A", "B"]);
    assert Get(ct, s2, "A") == (Err(CircularDependencyDetected("A")), s2);
    assert Dependencies(ct, s2, "B", [Typed("A")]) == (Err(CircularDependencyDetected("A")), s2);
    assert Resolve(ct, s2, "B") == (Err(CircularDependencyDetected("A")), s2);
    assert s1.resolving + ["B"] == ["A", "B"];
    assert Get(ct, s1, "B") == (Err(CircularDependencyDetected("A")), s2);
    assert Dependencies(ct, s1, "A", [Typed("B")]) == (Err(CircularDependencyDetected("A")), s2);
    assert Resolve(ct, s1, "A") == (Err(CircularDependencyDetected("A")), s2);
    assert s.resolving + ["A"] == ["A"];
  }

  /**
   * After that failure a class outside the cycle still resolves, but `B`,
   * left on the stack, now reports a cycle of its own.
   */
  lemma AfterCycle()
    ensures var t := CycleStart().(resolving := ["A", "B"]);
      && Get(CycleClasses(), t, "C").0 == Ok(Object(0, "C", []))
      && Get(CycleClasses(), t, "B").0 == Err(CircularDependencyDetected("B"))
  {
    var ct, t := CycleClasses(), CycleStart().(resolving := ["A", "B"]);
    var t1 := t.(resolving := ["A", "B", "C"]);
    assert t.resolving + ["C"] == t1.resolving;
    assert Resolve(ct, t1, "C").0 == Ok(Object(0, "C", []));
  }
}
