# A verified model of the `adnayan/router` core

This project models the core of `adnayan/router`, a small PHP HTTP router, and proves properties of that model. The core has four parts:

- **Routes** (`src/Route.php`). A route is an HTTP method, a URL template such as `/users/:id`, a handler `[class, method]`, a middleware list and the parameters of its last match.
  - `match` compiles the template into an anchored regular expression and tests the request.
  - On a match with captures, it writes `params` by pairing the parameter names with the captures.
  - `addPrefix` and `addMiddlewares` rewrite the route in place.
- **The route table** (`src/Router.php`). An array of routes that only grows. `findMatch` folds over it with a short-circuiting `??` and returns the first route whose `match` does not return `null`.
- **The dependency-injection container** (`src/Container/Container.php`).
  - Bindings map a key to a factory and a *shared* flag. Shared objects are cached in `instances`.
  - A `resolving` stack detects cycles.
  - `get` builds objects through `resolve`, which calls `get` on each constructor parameter's type.
- **The application** (`src/Application.php`).
  - `register` mounts a child router's routes under a prefix.
  - `use` appends a middleware built with its declared dependencies.
  - `run` does four things in turn:
    1. It finds the route.
    2. It builds the controller through the container.
    3. It wraps the handler call in the application's and the route's middlewares. The first middleware is outermost.
    4. It echoes the response, or hands an `Exception` to the error handler.

## How the model is organised

- **Value logic becomes functions and lemmas.**
  - `Template` holds the template language and a matcher. The matcher is PCRE's greedy, backtracking search, restricted to the patterns this router builds.
  - `PhpArrays` holds string-keyed PHP arrays: `array_combine` and the spread merge `[...$a, ...$b]`.
  - `Pipeline` holds the onion of middlewares and what running it does.
- **Objects that the code updates in place become classes.**
  - `Routes.Route`, `Routing.Router`, `DI.Container` and `App.Application` keep the source's fields.
  - Their methods carry `modifies` clauses.
  - Each method is proved to return, and to leave the state in, exactly what a specification function says:
    - `ContainerModel.Get`, `Resolve` and `Dependencies` for the container.
    - `Routing.FirstMatch` and `Routes.MatchStep` for `findMatch`.
    - `App.Dispatch` for `run`.
    - `App.UseSpec` for `use`.
    - `App.Registered` for `register`.
  - The properties of `get`, `findMatch` and `run` are lemmas about those functions. Because each method is tied to its function, the properties hold of the methods too.
- **Reflection becomes declarations.** `ReflectionClass` is replaced by a `ClassTable` of explicit class declarations. Each declaration says whether the class is an interface or abstract, its constructor parameters (typed or untyped) and whether that constructor is public, its methods and whether each is public, its attributes, and how a middleware's `handle` behaves.
- **Closure factories become key lists.** A closure factory is a list of keys it asks the container for, plus a constructor id.
- **Objects have identities.** Each object carries an identity number taken from a count of objects built so far. This lets "the same instance" be told apart from "an equal, new instance".
- **Errors are values.** Every exception is a `Base.Error` value. `Uncaught` stands for a PHP `Error`, which `run`'s `catch (... Exception $e)` does not catch. Examples:
  - a `ValueError` from `array_combine`;
  - `->getName()` on the `null` that `getType()` returns;
  - instantiating a class that cannot be instantiated;
  - calling a controller method that does not exist or is not public.

Four behaviours of the code that a reader might not expect, and which the model keeps:

- **The `resolving` stack on failure.** `get` pops the key it pushed only on success. The code has no `try`/`finally`, so a failed `get` leaves its key (and any keys pushed inside it) on the stack. `ContainerModel.StaleEntryBlocksRetry` and `ContainerModel.AfterCycle` prove the consequence: a later `get` of such a key reports a cycle.
- **The `use` gate.** The gate in `use` tests the *first* attribute of the middleware class, whatever its name (src/Application.php:206-210). `App.DependencyAttributeHidden` shows a dependency attribute being ignored behind another attribute.
- **Hyphens in parameter names.** After `preg_quote`, a parameter name in the compiled pattern stops at a hyphen. The name list of src/Route.php:40 includes hyphens. `:-` is the only way the two lists can differ in length, and, when the pattern has a group, `array_combine` then throws. `Routes.NewParams` and `Template.NamesMatchGroups` model and bound this.
- **Controllers without a constructor.** `getController` checks `method_exists` only for a class with a constructor (src/Application.php:148-151). For a class without one, a missing method is not reported as `ControllerMethodNotFoundError`: the middlewares run their before halves, and the call to the missing method raises a PHP Error that escapes `run`. `App.MissingMethodWithoutConstructor` proves this. A private method passes `method_exists` and fails the same way at the call.

## Model

| member | source | states |
|---|---|---|
| PhpArrays.Lookup | src/Application.php:179 | the array read `$b[$k] ?? null` that states what the handler's merged array holds (see `MergeLookup`, `HandlerBag`): it gives a value exactly when the key is present |
| PhpArrays.Put | src/Route.php:43 | writing an existing key keeps the key order; writing a new key appends it; keys stay distinct |
| PhpArrays.PutLookup | src/Route.php:43 | after a write the written key holds the new value and every other key its old value |
| PhpArrays.Combine | src/Route.php:43 | `array_combine` yields an array with distinct keys |
| PhpArrays.CombineKeys | src/Route.php:43 | with distinct names, the keys of `array_combine` are exactly the names, in order |
| PhpArrays.CombineAt | src/Route.php:43 | with distinct names, each name is paired with the value at the same position |
| PhpArrays.Merge | src/Application.php:179 | the spread merge yields an array with distinct keys |
| PhpArrays.MergeKeys | src/Application.php:179 | the merge keeps the query keys first and in order, and its keys are exactly those of the two operands |
| PhpArrays.MergeLookup | src/Application.php:179 | for a key in the right operand the right value wins; otherwise the left value stays |
| Template.Backtrack | src/Route.php:30-34 | a successful backtracking step captures a non-empty prefix of the remaining path, no longer than the run it started from |
| Template.MatchSound | src/Route.php:28-34 | a successful anchored match yields one capture per parameter, each a non-empty run of `[A-Za-z0-9_-]`, and putting them back into the template gives the path |
| Template.BacktrackSound | src/Route.php:28-34 | the captures of a parameter followed by the rest of the template are valid and rebuild the path |
| Template.MatchComplete | src/Route.php:28-34 | every path obtained by filling the parameters with valid captures is matched |
| Template.BacktrackFinds | src/Route.php:34 | the search succeeds whenever some capture length it tries lets the rest of the template match |
| Template.BacktrackGreedy | src/Route.php:30-34 | the capture chosen is the longest one that lets the rest of the template match |
| Template.WordRunWithinCaptureRun | src/Route.php:29-40 | a parameter name in the compiled pattern never extends past the name `preg_match_all` reads at the same colon |
| Template.NamesMatchGroups | src/Route.php:28-43 | unless a `:` is directly followed by `-`, the names of line 40 are exactly as many as the pattern's groups |
| Template.ParamStep | src/Route.php:29-40 | at a parameter both scans take one name and resume at the same position |
| Template.LiteralStep | src/Route.php:29-40 | at a literal character neither scan takes a name |
| Template.NamesSkipLits | src/Route.php:40 | a colon-free prefix of a template contributes no parameter name |
| Template.SkipLiterals | src/Route.php:28-32 | characters other than `:` compile to literals and add no group |
| Template.Lits | src/Route.php:31 | a colon-free string compiles to one literal token per character |
| Template.ParseLits | src/Route.php:28-32 | a colon-free prefix of a template compiles to its characters taken literally |
| Template.MatchLits | src/Route.php:34 | a literal prefix consumes exactly itself from the path |
| Template.LastParam | src/Route.php:30-34 | a template ending in a single parameter matches the rest of the path exactly when it is a valid capture, and captures all of it |
| Routes.CapturesSound | src/Route.php:24-34 | a match happens only for a method string-equal to the route's and a template without the `@` delimiter; the captures are valid and rebuild the path |
| Routes.CapturesComplete | src/Route.php:24-34 | a request with the route's method and a path of the template's shape is matched |
| Routes.NewParams | src/Route.php:38-44 | `params` is left alone when the pattern has no group; otherwise `array_combine` throws a PHP Error exactly when names and captures differ in number, and gives distinct keys when it does not |
| Routes.NewParamsZip | src/Route.php:40-43 | with distinct names, the new `params` has the names (colon stripped, template order) as keys, each paired with its capture |
| Routes.NoColonDashNoError | src/Route.php:28-43 | unless a `:` is directly followed by `-`, a successful match never makes `array_combine` throw |
| Routes.MatchStepFacts | src/Route.php:24-50 | `match` returns `null` exactly when the route does not match; it changes `params` only when it returns the route; a template without parameters never throws and never touches `params` |
| Routes.SlashNotCaptured | src/Route.php:30 | a string containing `/` is never a capture, so a parameter never spans a path separator |
| Routes.UsersMatchesId | src/Route.php:24-45 | `GET /users/:id` matches `GET /users/42` with the single capture `42`, and `match` returns the route with `params` set to `['id' => '42']`, whatever they were before |
| Routes.UsersRejectsExtra | src/Route.php:28-34 | `GET /users/:id` does not match `/users/42/extra` |
| Routes.UsersRejectsMissing | src/Route.php:28-34 | `GET /users/:id` does not match `/users` |
| Routes.Route.constructor | src/Route.php:15-22 | a new route holds its arguments and empty `params` |
| Routes.Route.Match | src/Route.php:24-50 | returns the route, `null` or the error, and leaves `params`, as `MatchStep` says of the route's state before the call |
| Routes.Route.AddPrefix | src/Route.php:52-56 | the prefix goes in front of the template; the route itself is returned; nothing else changes |
| Routes.Route.AddMiddlewares | src/Route.php:58-63 | the given middlewares go after the route's own, in order; the route itself is returned |
| Routing.FirstMatch | src/Router.php:26-29 | the position the fold stops at lies inside the table |
| Routing.FirstMatchSpec | src/Router.php:26-29 | the fold stops at a route that matches, no earlier route matches, and it finds nothing only when no route matches |
| Routing.FirstMatchAt | src/Router.php:28 | a matching route with no match before it is the one found |
| Routing.FirstMatchSnoc | src/Router.php:28 | one more step of the fold stops at the next route if it matches and goes on otherwise |
| Routing.NoHitNone | src/Router.php:28 | when no route matches, `findMatch` finds nothing |
| Routing.AppendKeepsMatch | src/Router.php:21-29 | appending routes never changes which earlier route is found |
| Routing.Router.constructor | src/Router.php:11-14 | a new router has an empty route table |
| Routing.Router.Map | src/Router.php:16-19 | exactly one new route, built from the arguments with empty `params`, goes at the end; the existing routes and their fields are unchanged |
| Routing.Router.Append | src/Router.php:21-24 | the given route goes at the end and nothing else changes |
| Routing.Router.FindMatch | src/Router.php:26-29 | returns the first route whose `match` does not return `null` (or its error), or `null`; only that route's `params` may change, and routes after it are never asked |
| ContainerModel.PushShrinks | src/Container/Container.php:132-137 | pushing a bound key that is not on the stack shrinks the set of bound keys not on the stack, so resolution terminates |
| ContainerModel.Get | src/Container/Container.php:120-159 | a cached instance is returned first and nothing changes; an uncached unbound key fails with `AbstractNotFoundError`; a key on the stack fails with `CircularDependencyDetectedError` before anything is built; bindings never change; success restores the stack |
| ContainerModel.Finish | src/Container/Container.php:151-156 | a shared object is cached under its key, a transient one is not, and the key is popped |
| ContainerModel.Make | src/Container/Container.php:142-149 | running a factory never changes the bindings, and success leaves the stack as it was |
| ContainerModel.Resolve | src/Container/Container.php:172-204 | an unknown class fails with the `ReflectionException` and a class that is not instantiable with `ConcreteClassNotInstantiableError`, both with the state unchanged; success builds an object of that class, with no arguments when there is no constructor and one per parameter otherwise |
| ContainerModel.ResolveCached | src/Container/Container.php:188-203 | when every constructor parameter's type is cached, `resolve` builds one new object whose arguments are the cached instances in parameter order, and changes nothing but the object count |
| ContainerModel.Dependencies | src/Container/Container.php:188-201 | success yields one argument per parameter and leaves the stack as it was; an untyped first parameter fails with `CannotResolveDependencyError` and the state unchanged |
| ContainerModel.DependenciesTyped | src/Container/Container.php:193-198 | the loop succeeds only when every parameter is typed |
| ContainerModel.DependenciesCached | src/Container/Container.php:191-201 | with every parameter's type cached, argument `i` is the instance cached for parameter `i`'s type and the state is unchanged |
| ContainerModel.PushWf | src/Container/Container.php:132-137 | pushing a bound key that is not on the stack keeps the keys on the stack distinct and bound |
| ContainerModel.GetEvolves | src/Container/Container.php:120-159 | every `get` keeps the bindings and cached instances, only grows the stack above its old contents, never caches a key that was mid-resolution, and keeps the stack distinct and bound |
| ContainerModel.FinishEvolves | src/Container/Container.php:151-156 | caching and popping after a build restores the caller's stack and keeps what the build kept |
| ContainerModel.MakeEvolves | src/Container/Container.php:142-149 | running a factory evolves the state as `get` does |
| ContainerModel.ResolveEvolves | src/Container/Container.php:172-204 | `resolve` evolves the state as `get` does |
| ContainerModel.DependenciesEvolves | src/Container/Container.php:191-201 | the dependency loop evolves the state as `get` does |
| ContainerModel.DepthBound | src/Container/Container.php:132-137 | in a reachable state the stack never holds more keys than there are bindings |
| ContainerModel.MakeFresh | src/Container/Container.php:142-149 | a built object has an identity no earlier object has |
| ContainerModel.GetBuilds | src/Container/Container.php:137-158 | an uncached successful `get` returns a newly built object, cached exactly when the binding is shared |
| ContainerModel.SingletonIdentity | src/Container/Container.php:151-154 | after a successful `get` of a shared key, every later `get` returns the same object and changes nothing |
| ContainerModel.TransientDistinct | src/Container/Container.php:151-154 | two successive `get`s of a transient key return two different objects |
| ContainerModel.StaleEntryBlocksRetry | src/Container/Container.php:132-158 | a failed `get` leaves its key on the stack, so the next `get` of that key reports a cycle |
| ContainerModel.CycleDetected | src/Container/Container.php:132-135 | with classes A and B needing each other, `get('A')` reports a cycle at A and leaves A and B on the stack |
| ContainerModel.AfterCycle | src/Container/Container.php:132-135 | after that failure an unrelated class still resolves, but B now reports a cycle |
| DI.Container.constructor | src/Container/Container.php:28-43 | a new container has no configuration, bindings, instances or stack, and is well formed |
| DI.Container.RegisterConfiguration | src/Container/Container.php:54-57 | the configuration is replaced by the argument |
| DI.Container.RegisterSingleton | src/Container/Container.php:81-87 | binds or rebinds the key as shared; cache and stack untouched, so a cached instance still wins; well-formedness is kept |
| DI.Container.RegisterTransient | src/Container/Container.php:99-105 | binds or rebinds the key as not shared; cache and stack untouched; well-formedness is kept |
| DI.Container.Get | src/Container/Container.php:120-159 | returns, and leaves the fields in, exactly what `ContainerModel.Get` says; a well-formed container (distinct, bound keys on the stack) stays well formed |
| DI.Container.Make | src/Container/Container.php:142-149 | runs the factory exactly as `ContainerModel.Make` says |
| DI.Container.Resolve | src/Container/Container.php:172-204 | returns, and leaves the fields in, exactly what `ContainerModel.Resolve` says |
| DI.Container.Dependencies | src/Container/Container.php:188-201 | the loop over the parameters ends exactly as `ContainerModel.Dependencies` says, stopping at the first failure |
| DI.Container.New | src/Container/Container.php:203 | the new object gets the next identity |
| Pipeline.Reverse | src/Application.php:184 | `array_reverse`: same length, element `i` is element `n-1-i` of the input |
| Pipeline.NestAppend | src/Application.php:184-189 | the onion of two lists is the first list's onion around the second's |
| Pipeline.CreatePipelineNests | src/Application.php:176-191 | folding over the reversed list makes the first middleware the outermost layer |
| Pipeline.Exec | src/Application.php:179-188 | running a pipeline throws nothing but a `MiddlewareError`, or the PHP Error of calling a controller method that does not exist or is not public |
| Pipeline.FirstStop | src/Application.php:184-191 | when some middleware does not call `$next`, there is a first one and all before it do |
| Pipeline.PassLayers | src/Application.php:184-191 | layers that all call `$next` run their before-halves outside in, the inner stage, then their after-halves inside out; an exception passes through |
| Pipeline.OnionOrder | src/Application.php:176-191 | with every middleware calling `$next`: M1 before … Mn before, the handler, Mn after … M1 after; when the method cannot be called, only the before halves run and the PHP Error propagates |
| Pipeline.NoMiddleware | src/Application.php:178-191 | without middlewares the pipeline is exactly the handler invocation, or the PHP Error when the method cannot be called |
| Pipeline.FirstStopDecides | src/Application.php:184-191 | the first middleware that does not call `$next` decides the run; nothing inside it runs |
| Pipeline.HandlerRunsIffAllPass | src/Application.php:176-191 | the handler runs exactly when every middleware calls `$next` and the method can be called |
| App.ControllerArgs | src/Application.php:153-159 | success gives one argument per parameter, all parameters typed, and the stack as it was; bindings never change |
| App.ControllerArgsAsContainer | src/Application.php:153-159 | with every parameter typed, `getController` fetches the arguments exactly as the container's `resolve` would |
| App.BuildController | src/Application.php:143-174 | a class without a constructor is built without arguments and without checking the method; otherwise a built controller has the handler's method and, as arguments, exactly the results of `container->get` on the parameter types in parameter order (`ControllerArgs`), leaving the container as that loop does; a concrete class whose constructor is not public raises the `ReflectionException` of `newInstanceArgs`, which `run` hands to the error handler; a missing method raises `ControllerMethodNotFoundError` |
| App.DeclaredDependencies | src/Application.php:206-227 | nothing is fetched unless the first attribute has a non-empty first argument; every key fetched is declared by a dependency attribute |
| App.Collect | src/Application.php:212-225 | the keys gathered are exactly those listed in the first argument of some dependency attribute |
| App.DependencyAttributeFirst | src/Application.php:206-224 | a dependency attribute listed first is honoured in full |
| App.DependencyAttributeHidden | src/Application.php:206-210 | a dependency attribute behind an attribute without arguments is ignored |
| App.UseSpec | src/Application.php:200-232 | an unknown class fails; a failure leaves the middleware list as it was; success appends exactly one middleware of that class whose arguments are the container's results for the declared keys, in order, followed by `$args`, and leaves the container as fetching those keys does |
| App.UseCached | src/Application.php:212-231 | when every declared key is cached, `use` succeeds, leaves the container unchanged, and passes the cached instances in declaration order before `$args` |
| App.UseWithoutDependencies | src/Application.php:200-232 | a middleware without declared dependencies leaves the container untouched and is built from `$args` alone |
| App.Registered | src/Application.php:81-90 | registering never changes a route's method, handler or parameters, and zero registrations change nothing |
| App.RegisteredOnce | src/Application.php:83-88 | a route registered once gets the prefix once in front and the middlewares once at the end |
| App.RegisteredAgain | src/Application.php:83-88 | each further registration puts the prefix in front once more and the middlewares at the end once more |
| App.Dispatch | src/Application.php:95-141 | `run` never changes the bindings; handled errors are `Exception`s; escaped errors are PHP Errors, raised with nothing run unless they are the failed call of the controller method; a response is emitted only when some route matched |
| App.Serve | src/Application.php:101-123 | a missing handler class is handled as `ControllerNotFoundError` with the container untouched |
| App.NoRouteIsNotFound | src/Application.php:128-133 | when no route matches, the error handler receives `InvalidRequestUrlError` (404) and nothing else happens |
| App.MissingControllerClass | src/Application.php:135-138 | when the matched route names a class that does not exist, the error handler receives `ControllerNotFoundError` (500) and the container is untouched |
| App.DispatchOnion | src/Application.php:99-107 | with every middleware calling `$next`, the application's middlewares run outside the route's, the handler runs once in the middle and receives the merged bag; if the method is missing or not public, the before halves run and a PHP Error escapes |
| App.MissingMethodWithoutConstructor | src/Application.php:148-151 | a controller without a constructor is built without checking its method; when the method is missing, the before halves run, a PHP Error escapes the error handler, and the container is untouched |
| App.HandlerBag | src/Application.php:179 | the handler sees each route parameter's value, and a query value only for keys the route does not set |
| App.HandlerRunsIffAllMiddlewaresPass | src/Application.php:179-191 | the controller method runs exactly when every middleware, the application's and the route's, calls `$next` and the method exists and is public |
| App.Application.constructor | src/Application.php:55-67 | a new application owns a new, empty router and has no middlewares |
| App.Application.Register | src/Application.php:81-90 | the child's routes are appended in order, and each is rewritten in place once per occurrence in the child |
| App.Application.PrefixRoute | src/Application.php:85-88 | one pass of the loop: the route is prefixed, extended and appended |
| App.Application.GetController | src/Application.php:143-174 | the loop builds the controller exactly as `BuildController` says |
| App.Application.Use | src/Application.php:200-232 | ends, and leaves the middleware list and container in, exactly what `UseSpec` says |
| App.Application.FetchDependencies | src/Application.php:212-225 | the loops fetch the declared keys in order, exactly as the container's dependency loop would |
| App.Application.Run | src/Application.php:95-124 | ends as `Dispatch` says of the container and routes before the call; the first matching route's `params` are those its `match` wrote, and every other route's `params` are unchanged |
| App.Application.ServeRoute | src/Application.php:101-123 | the rest of `run` after the route is found ends as `Serve` says |

## Left out

- **Request and response objects.** The request is a value holding the query parameters and the server variables. `getServer` is a map lookup.
  - The response is the value the pipeline returns: the handler's result or a middleware's own answer.
  - `respond()`, its headers, `json_encode` and the view engine are not modelled. So `ViewEngineNotFoundError` is an error kind that nothing in the model raises.
- **The error handler.** `ErrorHandler` and `setErrorHandler` do output and logging only. The model stops at *which* error reaches the handler: the `Handled` outcome.
- **`echo`.** The model stops at the response that would be echoed: the `Emitted` outcome.
- **User code.** The bodies of controller methods and middleware `handle` methods are not modelled.
  - A middleware is one of three behaviours: it calls `$next`, answers by itself, or throws a `MiddlewareError` with a code.
  - Middlewares changing the request, and controller methods throwing, are not modelled.
  - Calling a controller method succeeds exactly when the class declares it as public. `__call` and other magic methods are not modelled.
- **Middleware constructors.** PHP's argument-count errors for a middleware constructor are not modelled: `new $middleware(...)` always succeeds for an instantiable class.
- **Reflection.** Reflection is the class table. Instantiating an abstract class or an interface is a PHP Error. `newInstanceArgs` on a class whose constructor is not public throws a `ReflectionException`, which `run` catches. `new $middleware(...)` on such a class is a PHP Error.
- **`resolve` on an unknown class.** The `ReflectionException` that `new ReflectionClass` throws is the error kind `ClassNotFound`.
- **Closures.** A closure factory is a list of keys it `get`s, in order, plus an identity for the object it builds. What else a user closure does is not modelled.
- **Loose comparison.** The cycle check `in_array($abstract, $this->resolving)` compares loosely in PHP. The model compares keys as strings. The two differ for numeric-string keys: PHP treats `'1e1'` and `'10'` as equal.
- **Distinct query keys.** The query parameters are a PHP array, so their keys are distinct. `App.Dispatch`, `App.Serve` and `App.Application.Run` take this as a precondition on the request value; it is not a demand the code makes of its callers.
- **Integer array keys.** Route parameter names and query keys are strings. PHP's conversion of numeric-string keys to integers is not modelled.
- App.Application.Register: the prefix is `url` alone. The code reads `$this->config["BASE_FOLDER"] ?? ''`, but `$this->config` is not a property of `Application`, so the expression is `''`.
- App.BuildController: the `is_null($controller)` test of src/Application.php:163 can never succeed (`newInstanceArgs` returns an object or throws), so it is not modelled.
- Base.Code: the class of `ControllerMethodNotFoundError` is not part of this model, so its code is left unknown. `ClassNotFound` carries -1, the code of the `ReflectionException` thrown by `ReflectionClass`'s constructor.
- **Case-insensitive class and method names.** PHP compares class names in `class_exists`, `new ReflectionClass` and `new $class`, and method names in `method_exists`, without regard to ASCII case. The model compares names exactly. The members below are therefore weaker for names that differ only in case:
- App.Serve: a handler class named in a different case counts as missing, where `class_exists` finds it.
- App.MissingControllerClass: "does not exist" means no class of exactly that name, where PHP ignores case.
- App.BuildController: a handler method named in a different case raises `ControllerMethodNotFoundError`, where `method_exists` finds it.
- App.UseSpec: a middleware class named in a different case is unknown, where PHP finds it.
- ContainerModel.Resolve: a class named in a different case fails with the `ReflectionException`, where PHP resolves it. Binding keys are array keys and stay case-sensitive, as in PHP.
- **Inputs the declarations cannot express.** Some PHP inputs raise a PHP Error (a `TypeError` or a call on an unsupported reflection type) that escapes `run`. The class table and the factories cannot represent them, so the model never produces those Errors:
- App.UseSpec: an attribute argument is a list of lists of strings. A middleware whose first attribute has a scalar first argument (`#[Foo('x')]`) or only named arguments makes `count()` a `TypeError` at src/Application.php:208-209 and 216-217. That case is not represented.
- ContainerModel.Resolve: a parameter is untyped or has one named type. A union or intersection type, on which `getType()->getName()` is an Error (src/Container/Container.php:200, src/Application.php:158), is not represented.
- ContainerModel.Make: a factory is a closure or a class name. Any other concrete, such as an object instance, is a `TypeError` on `resolve(string $concrete)`; that case is not represented.
- App.NoRouteIsNotFound: the model assumes the server sets `REQUEST_URI`. src/Application.php:132 reads `$_SERVER['REQUEST_URI']` directly, not through the request. When it is unset, for example under the command line, the `null` passed to `InvalidRequestUrlError`'s `string` parameter is a `TypeError`, which escapes `run`.
- **`getConfiguration` and the getters.** `DI.Container.GetConfiguration` is a plain getter. `getRoutes`, `getMiddlewares`, `getHandler` and `getParams` are reads of the fields (`routes`, and `View()` of a route), so they have no separate contract.
- `App.Application.Use` and `App.DeclaredDependencies` fetch the keys of all dependency attributes through one loop, in the order the nested loops of src/Application.php:212-224 ask for them. The container calls happen in the same order, so nothing observable differs.
- **Error messages.** Error values keep the class and the key, not the message text.
