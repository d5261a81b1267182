# ServiceManager resolver, modelled in Dafny

This project models the resolver of `codeinchq/services-manager`. The resolver is the PHP class
`CodeInc\ServiceManager\ServiceManager`, a small dependency-injection container. It keeps two
maps:

- `services`: class name to instance;
- `aliases`: interface, parent-class or alias name to class name.

`getService(name)` returns a registered instance. Otherwise it follows at most one alias and
checks the class: it must exist, it must not be an interface, and it must not implement
`ServiceInterface`. Then it builds the constructor arguments in declaration order, resolving
class-typed parameters recursively, constructs the object and registers it with `addService`.
`addService` also aliases every interface and ancestor of the object's class to that class, but
never overwrites an existing alias.

Layout:

- `types.dfy` (module `Types`): the data model. `Meta` is immutable type metadata that stands for
  PHP reflection: which names `class_exists()` accepts, and for each class whether it is an
  interface or abstract, its interfaces, its parent chain, its constructor parameters, and what
  its constructor throws. `Instance` is an object with an identity drawn from a counter. `Error`
  is the manager's exception family, and `Fault` covers the other throwables.
- `registry.dfy` (module `Registry`): `addAlias` and `addService` as functions on the maps.
- `resolution.dfy` (module `Resolution`): `getService`, `instantiate`, `getCustructorParams` and
  `getCustructorParamValue` as functions that return the result together with the new state.
- `service_manager.dfy` (module `Manager`): the class `ServiceManager`. It has the two maps as
  fields that its methods update in place, with loops where the PHP code loops. Each method's
  postcondition says that its result and new state are exactly those of the function above.
- `resolution_props.dfy` (module `ResolutionProps`): the properties, proved about those functions.

The PHP recursion has no bound. In the model, each recursive resolution of a class-typed
constructor parameter spends one unit of a `fuel` argument. When fuel runs out the result is the
model's own error `DepthExceeded`. `ResolveFuel` shows that fuel only bounds depth: a run that does
not run out of fuel gives the same result and state with any larger fuel.

Where the code and its documentation disagree, the model follows the code:

- `addAlias` always returns `false` (`src/ServiceManager.php:113`). It does not return whether the
  alias was written.
- The registry is checked under the requested name before the alias is followed
  (`src/ServiceManager.php:141-148`). So resolving an alias builds a new object even when its
  target class is registered, and the new object replaces the old one in `services`
  (`AliasedNameRebuilds`). Resolution can therefore overwrite a registered instance. A consequence
  is that after construction, `getService(ServiceInterface)` follows the alias to
  `ServiceManager` and is refused with `NotAnObjectException`, while `getService(ServiceManager)`
  returns the manager (`BootstrapResolution`).
- Only interfaces are refused by a guard (`src/ServiceManager.php:157`). An abstract class gets
  its constructor arguments built, and its dependencies registered, before `newInstanceArgs`
  fails (`AbstractClassFailsAfterArguments`).
- A class that declares no `__construct` and inherits none cannot be resolved (`src/ServiceManager.php:221`). It fails with a
  wrapped instantiation error (`MissingConstructorFails`).
- `class_exists()` is modelled as its own set, so the guard order is modelled exactly as written.
  With PHP's own `class_exists()`, which is false for interfaces, an unaliased interface fails the
  existence check first, with `ClassNotFoundException` (`UnaliasedInterfaceNotFound`).

## Model

| member | source | states |
|---|---|---|
| `Registry.SetAlias` | src/ServiceManager.php:108-114 | the alias is written when `replace` is set or the alias is absent; otherwise the map is unchanged; no other key changes |
| `Registry.AddMissing` | src/ServiceManager.php:88-96 | after non-replacing aliasing of a list of names to a class, exactly the old keys and the listed names are mapped; old entries keep their values; new ones map to the class |
| `Registry.Register` | src/ServiceManager.php:84-96 | the object is stored under its class name, replacing any previous one, with no other services key changed; every interface and ancestor not yet aliased now aliases the class; existing aliases are kept |
| `Registry.AddService` | src/ServiceManager.php:76-97 | a value that is not an object fails with NotAnObject (its gettype name) and leaves both maps unchanged; an object is registered |
| `Manager.Bootstrap` | src/ServiceManager.php:62-65 | after construction exactly the manager is registered, under ServiceManager, and the counter is at 1 |
| `Manager.ServiceManager.constructor` | src/ServiceManager.php:62-65 | the new manager's state is the manager registering itself |
| `Manager.ServiceManager.AddService` | src/ServiceManager.php:76-97 | the loop over interfaces and the walk up the parent chain leave exactly the state and result of `Registry.AddService` |
| `Manager.ServiceManager.AddAlias` | src/ServiceManager.php:108-114 | returns false; `replace` defaults to true; the aliases become `SetAlias` of the old ones; the services are unchanged |
| `Manager.ServiceManager.GetAlias` | src/ServiceManager.php:120-123 | returns the mapped class if the name is aliased, and none otherwise; reads only |
| `Manager.ServiceManager.GetService` | src/ServiceManager.php:138-170 | the result and new state are those of the resolution function |
| `Manager.ServiceManager.Invoke` | src/ServiceManager.php:181-184 | the same result and state as getService |
| `Manager.ServiceManager.Instantiate` | src/ServiceManager.php:191-205 | the result and new state are those of the instantiate function, including the catch clauses |
| `Manager.ServiceManager.NewInstanceArgs` | src/ServiceManager.php:194 | leaves exactly the result and state of `Resolution.NewInstance`: an abstract class fails, an argument of the wrong class is a TypeError, a throwing constructor raises what it throws; otherwise a new object is made from the counter, and the counter advances |
| `Manager.ServiceManager.GetConstructorParams` | src/ServiceManager.php:218-236 | the loop over the parameters leaves the result and state of building the arguments from the first parameter on |
| `Manager.ServiceManager.GetParamValue` | src/ServiceManager.php:250-280 | the result and new state are those of the parameter-value function |
| `Resolution.AliasTarget` | src/ServiceManager.php:146-148 | the name getService works on after one alias hop; defined by its body, stated in `ResolveGuards` and `AliasedNameRebuilds` |
| `Resolution.Resolve` | src/ServiceManager.php:138-170 | getService as a function of the state; defined by its body; its properties are `ResolveRegistered`, `ResolveGuards`, `ResolveRegisters`, `ResolveTwice`, `ResolveGrows` and `ResolveFuel` |
| `Resolution.Catch` | src/ServiceManager.php:196-204 | the two catch clauses of instantiate; defined by its body, stated in `InstantiateCatches` |
| `Resolution.Instantiate` | src/ServiceManager.php:191-205 | instantiate; defined by its body; its properties are `InstantiateCatches`, `InstantiateGrows`, `MissingConstructorFails`, `AbstractClassFailsAfterArguments` and `ConstructorExceptionCaught` |
| `Resolution.Construct` | src/ServiceManager.php:193-195 | the try block of instantiate; defined by its body; stated in `ConstructGrows`, `ConstructFuel` and `ConstructedArgsFitParams` |
| `Resolution.ConstructorParams` | src/ServiceManager.php:218-221 | getCustructorParams; defined by its body; stated in `MissingConstructorFails`, `ConstructorParamsGrows` and `ConstructorParamsFuel` |
| `Resolution.BuildArgs` | src/ServiceManager.php:220-235 | the parameter loop; defined by its body; stated in `BuildArgsShape`, `FailureStopsArgs`, `BuildArgsPrefix`, `BuildArgsGrows` and `BuildArgsFuel` |
| `Resolution.Rewrap` | src/ServiceManager.php:226-233 | the catch clause of the parameter loop; defined by its body, stated in `ParamTypeErrorAt` |
| `Resolution.ArgsTypeCheck` | src/ServiceManager.php:194 | the type check of the constructor call inside `newInstanceArgs`; defined by its body; stated in `NewInstance`, `ArgumentTypeErrorCaught`, `SoundAliasesTypeCheck` and `MisaliasedDependencyFails` |
| `Resolution.ParamValue` | src/ServiceManager.php:250-280 | getCustructorParamValue; defined by its body; stated in `BuildArgsShape`, `ParamValueGrows` and `ParamValueFuel` |
| `Resolution.NewInstance` | src/ServiceManager.php:194 | on success the object has the next identity, the class and the arguments given, and the counter advances; a failure changes nothing; it succeeds exactly when the class is not abstract, the arguments pass the constructor's type check and the constructor does not throw; a failed type check is a TypeError; a throwing constructor raises exactly what it throws; the maps are untouched |
| `ResolutionProps.ResolveGrows` | src/ServiceManager.php:138-170 | resolution never unregisters a class name, never changes or removes an alias, never lowers the counter, and keeps every registered identity below the counter |
| `ResolutionProps.InstantiateGrows` | src/ServiceManager.php:191-205 | the same for instantiate; a built object is of the requested class and has a fresh identity |
| `ResolutionProps.ConstructGrows` | src/ServiceManager.php:193-195 | the same for the try block of instantiate |
| `ResolutionProps.ConstructorParamsGrows` | src/ServiceManager.php:218-236 | the same for getCustructorParams |
| `ResolutionProps.BuildArgsGrows` | src/ServiceManager.php:220-235 | the same for each step of the parameter loop |
| `ResolutionProps.ParamValueGrows` | src/ServiceManager.php:250-280 | the same for getCustructorParamValue |
| `ResolutionProps.RegisterKeeps` | src/ServiceManager.php:84-96 | addService keeps every object registered under its own class name, and keeps every alias pointing to a class that is an instance of the aliased type |
| `ResolutionProps.SetAliasKeepsSound` | src/ServiceManager.php:108-114 | addAlias keeps the aliases sound when the class is an instance of the aliased type |
| `ResolutionProps.ResolveKeyed` | src/ServiceManager.php:138-170 | resolution keeps both invariants; in a registry keyed by class, getService(name) answers an object of class `name` or of the class `name` is aliased to |
| `ResolutionProps.InstantiateKeyed` | src/ServiceManager.php:191-205 | instantiate keeps both invariants |
| `ResolutionProps.ConstructKeyed` | src/ServiceManager.php:193-195 | the try block of instantiate keeps both invariants |
| `ResolutionProps.ConstructorParamsKeyed` | src/ServiceManager.php:218-236 | getCustructorParams keeps both invariants |
| `ResolutionProps.BuildArgsKeyed` | src/ServiceManager.php:220-235 | every step of the parameter loop keeps both invariants |
| `ResolutionProps.ParamValueKeyed` | src/ServiceManager.php:250-280 | getCustructorParamValue keeps both invariants, and injects for a required class-typed parameter an object of the declared class or of the class that type is aliased to |
| `ResolutionProps.ResolveRegistered` | src/ServiceManager.php:141-143 | a registered name returns its instance and changes nothing |
| `ResolutionProps.ResolveGuards` | src/ServiceManager.php:145-164 | after one alias hop the checks run in order: missing class, then interface, then ServiceInterface implementer; each fails with its error and changes nothing |
| `ResolutionProps.ResolveRegisters` | src/ServiceManager.php:166-169 | after success the result is registered under the resolved name, and a newly built object has the resolved class |
| `ResolutionProps.ResolveTwice` | src/ServiceManager.php:141-169 | singleton: after a successful resolution of a name that is not an alias of another class, resolving it again returns the same object and changes nothing |
| `ResolutionProps.AddedServiceIsResolved` | src/ServiceManager.php:141-143 | an object given to addService is what getService of its class returns, with no state change |
| `ResolutionProps.AliasedNameRebuilds` | src/ServiceManager.php:141-148 | resolving an alias whose target class is registered builds a different object and registers it in place of the old one |
| `ResolutionProps.UnaliasedInterfaceNotFound` | src/ServiceManager.php:150-159 | with PHP's class_exists, an unregistered, unaliased interface fails with ClassNotFound and changes nothing |
| `ResolutionProps.InstantiateCatches` | src/ServiceManager.php:193-204 | the manager's exceptions leave instantiate unchanged, any other throwable is wrapped with the class name, and the state is that left by the try block |
| `ResolutionProps.MissingConstructorFails` | src/ServiceManager.php:221 | a class without `__construct` fails with a wrapped instantiation error and changes nothing |
| `ResolutionProps.AbstractClassFailsAfterArguments` | src/ServiceManager.php:194 | an abstract class always fails, after its arguments (and their registrations) were built; when those succeeded, the error is the wrapped abstract-class failure |
| `ResolutionProps.BuildArgsShape` | src/ServiceManager.php:220-235 | a successful parameter loop appends exactly one argument per parameter, in order: the default for an optional parameter, an object for a required class-typed one; in a registry keyed by class, that object is of the declared class or of the class the declared type is aliased to |
| `ResolutionProps.ConstructedArgsFitParams` | src/ServiceManager.php:218-236 | a constructed object holds one argument per constructor parameter, in declaration order: the default, or (in a registry keyed by class) an object of the declared class or of its alias target |
| `ResolutionProps.SoundAliasesTypeCheck` | src/ServiceManager.php:194 | with a keyed registry and sound aliases, the built arguments always pass the constructor's type check; a TypeError needs an alias to an unrelated class |
| `ResolutionProps.FailureStopsArgs` | src/ServiceManager.php:221-234 | once a parameter fails, parameters after it have no effect on the result or the state |
| `ResolutionProps.ParamTypeErrorAt` | src/ServiceManager.php:226-232 | a required untyped or builtin-typed parameter after optional ones fails with its name and 1-based position, and changes nothing |
| `ResolutionProps.BuildArgsPrefix` | src/ServiceManager.php:220-235 | the parameter loop over a list runs its first k parameters exactly as the loop over those k alone, then continues from parameter k with the arguments and state they left |
| `ResolutionProps.ResolveParamTypeError` | src/ServiceManager.php:226-232 | getService of a class whose parameter k is required and untyped or builtin-typed, once the parameters before it are built, fails with that parameter's name and 1-based position and leaves the state those earlier parameters left |
| `ResolutionProps.NotInjectableParamFails` | src/ServiceManager.php:253-269 | getService of an unregistered class with any required untyped or builtin-typed constructor parameter always fails |
| `ResolutionProps.ConstructorExceptionCaught` | src/ServiceManager.php:193-204 | a throwing constructor, after its arguments are built and pass the type check, makes instantiate fail: a manager exception unchanged, any other throwable wrapped with the class name |
| `ResolutionProps.ArgumentTypeErrorCaught` | src/ServiceManager.php:193-204 | arguments that fail the constructor's type check make instantiate fail with the wrapped TypeError, in the state building them left |
| `ResolutionProps.ResolveFuel` | src/ServiceManager.php:138-170 | a resolution that does not run out of fuel gives the same result and state with more fuel |
| `ResolutionProps.InstantiateFuel` | src/ServiceManager.php:191-205 | the same for instantiate |
| `ResolutionProps.ConstructFuel` | src/ServiceManager.php:193-195 | the same for the try block of instantiate |
| `ResolutionProps.ConstructorParamsFuel` | src/ServiceManager.php:218-236 | the same for getCustructorParams |
| `ResolutionProps.BuildArgsFuel` | src/ServiceManager.php:220-235 | the same for the parameter loop |
| `ResolutionProps.ParamValueFuel` | src/ServiceManager.php:250-280 | the same for getCustructorParamValue |
| `ResolutionProps.BootstrapState` | src/ServiceManager.php:62-65 | after construction the only alias is ServiceInterface, and it maps to ServiceManager |
| `ResolutionProps.BootstrapIdsBelow` | src/ServiceManager.php:62-65 | after construction every registered identity is below the counter, so the freshness lemmas apply from the start |
| `ResolutionProps.BootstrapKeyed` | src/ServiceManager.php:62-65 | after construction the registry is keyed by class and the aliases are sound |
| `ResolutionProps.BootstrapResolution` | src/ServiceManager.php:141-164 | after construction getService(ServiceManager) returns the manager itself, and getService(ServiceInterface) fails with NotAnObject |
| `ResolutionProps.SecondAliasCall` | src/ServiceManager.php:110-111 | a second non-replacing addAlias keeps the first target; a replacing one installs the new target |
| `ResolutionProps.LoggerServiceExample` | src/ServiceManager.php:138-170 | resolving a Service whose constructor takes a Logger builds one Logger, injects it and returns the Service; the Logger is then returned as is |
| `ResolutionProps.MisaliasedDependencyFails` | src/ServiceManager.php:108-111 | after addAlias of an interface to a class that does not implement it, getService of a class needing that interface builds and registers the unrelated object, then fails with the wrapped TypeError |

## Left out

- PHP reflection (`ReflectionClass`, `ReflectionParameter`, `class_exists`, `is_object`, `gettype`) is replaced by the immutable `Meta` value and the `Value` datatype. The metadata is assumed to describe the running program.
- `isSubclassOf(ServiceInterface)` is taken to mean that `ServiceInterface` is among the class's interfaces.
- User constructors run by `newInstanceArgs` are reduced to making a new object from a counter. Their own side effects are not modelled. The metadata says what the constructor throws, if anything. A `ServiceManagerException` it throws is rethrown unchanged by `instantiate()`; any other throwable, and a non-public constructor, is `ConstructorThrew` and gets wrapped.
- `Resolution.NewInstance`: the constructor call's type check covers required class-typed parameters only. Other arguments are defaults, which PHP checks against their types when the class is compiled, and an object is an instance of a type when the metadata lists it as its class, one of its interfaces or one of its parents.
- Exception messages and their `sprintf` formatting are not modelled. Each exception class is an `Error` variant carrying the names and positions the message would mention. The manager reference and the `previous` chain of `src/Exceptions/ServiceManagerException.php` are not modelled beyond the wrapped cause.
- The exception classes `ClassNotFoundException`, `InterfaceWithoutAliasException`, `NotAnObjectException` and `ParamTypeException` are not part of this model. They are taken to extend `ServiceManagerException`, so `instantiate()` rethrows them unchanged.
- Manager.Bootstrap: fixes the manager's class to `ServiceManager`. The PHP constructor registers `$this` under its runtime class (`src/ServiceManager.php:64`, `:84`), and the class is not final (`:38`). A subclass would be registered under its own name, with `ServiceManager` among its aliased parents; subclasses are not modelled.
- `src/Exceptions/InstantiatorException.php` belongs to another namespace and is not used by the resolver.
- `Manager.ServiceManager.GetService`: takes a `fuel` bound that the PHP method does not have. A dependency cycle, which in PHP recurses until the stack overflows, ends with `DepthExceeded`.
- Class names are compared as exact strings; PHP's case-insensitive class names are not modelled.
- Object identity is a number drawn from a counter, not a heap reference. Objects given to `addService` from outside may reuse numbers that the counter hands out later; the freshness lemmas assume `IdsBelow`.
- Concurrency is left out: the source is single-threaded and unsynchronised.
