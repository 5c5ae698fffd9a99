# DIContainer resolution engine, in Dafny

This project models the core of DIContainer, a small dependency-injection
container for .NET:

- the service descriptors (type-based, factory-based, instance-based);
- the `ContainerBuilder`, which collects descriptors and keeps the first
  registration of each service type;
- the `RegisterTransient` / `RegisterScoped` / `RegisterSingleton` helpers;
- the `Container` and its `Scope`s, which resolve services by lifetime,
  memoise activators, cache instances and keep a disposal stack.

Layout, one module per file:

- `wrappers.dfy` (`Wrappers`): `Option` for a null out-value, and `Result`
  for a thrown exception.
- `descriptors.dfy` (`Descriptors`): type ids, lifetimes and run-time objects.
  It also holds the descriptor datatype and the
  `ToImmutableDictionary` step of the container's constructor.
- `resolution.dfy` (`Resolution`): `FindDescriptor`, `BuildActivation` and
  ghost functions that specify `Resolve` and the calls under it. They work
  over an `Engine` value: the activator table, the allocation counter, the
  root scope's state, and the state of the child scope the request came in
  on.
- `resolution_properties.dfy` (`ResolutionProperties`): the lifetime rules,
  proved about those functions.
- `disposal.dfy` (`Disposal`): the order and kind of the releases made when
  a disposal stack is torn down.
- `container.dfy` (`Containers`): the classes `Container` and `Scope`.
  Their fields change in place. Each state-changing method is proved to
  leave the fields exactly as the matching `Resolution` function says.
- `container_builder.dfy` (`Building`): the class `ContainerBuilder` and the
  first-registration-wins rule.
- `registration.dfy` (`Registration`): the `RegisterX` extension methods.

Modelling choices:

- A .NET `Type` is a `nat`.
- Object identity is an `ObjId`. `Minted(n)` is an object allocated during
  resolution; it takes the container's counter `nextId`. `External(n)` is
  an object that configuration code built beforehand.
- An object records which of `IDisposable` and `IAsyncDisposable` it
  implements.
- An activator (`Func<IScope, object>`) and a user factory are both
  `Activation` values. A `Constant` one returns a fixed object. An
  `Allocate` one resolves a list of keys from the scope it is invoked on,
  then allocates a new object.
- The activation builder is a parameter. It maps an implementation type to
  the service keys of its constructor parameters and its disposal
  interfaces.
- Disposal returns the sequence of release calls it makes, instead of
  making them.

Where the intended design and the code differ, the model follows the code:

- `Resolve` on an unregistered key reads `Lifetime` off a null descriptor.
  So it fails with `NullReference`, not with a "not registered" error.
  Only `BuildActivation` throws "not registered".
- There is no cycle check. A cyclic registry makes the code recurse
  without end. The model instead requires a ghost ranking under which
  every constructor parameter ranks below the service that needs it.
- `Dispose` and `DisposeAsync` enumerate the stack without popping it. So a
  second call releases every entry again.

## Model

| member | source | states |
|---|---|---|
| `Descriptors.InstanceBasedServiceDescriptor` | DIContainer/Descriptors.cs:23-28 | the instance-based constructor forces lifetime Singleton and stores exactly the given service type and instance |
| `Descriptors.ToDescriptorMap` | DIContainer/Container.cs:15 | on a list with distinct service types, the map's keys are exactly the listed service types, and each descriptor is found under its own type |
| `Resolution.FindDescriptor` | DIContainer/Container.cs:84-88 | the lookup yields nothing exactly when the key is not registered, else the registered descriptor |
| `Resolution.BuildActivation` | DIContainer/Container.cs:90-101 | succeeds exactly for registered keys, else throws "not registered"; an instance descriptor gives a constant activator returning its instance; a factory descriptor gives the factory itself; a type descriptor gives the activation builder's constructor for the implementation type |
| `Resolution.Resolve` | DIContainer/Container.cs:31-45 | resolution keeps the state invariant: activators agree with `BuildActivation`; the root caches only Scoped/Singleton keys and a child only Scoped keys; stacks hold only disposable objects. Activator table, caches and stacks only grow. The request stays on its scope. It adds cache entries only for keys ranked at most as high as the requested one |
| `Resolution.CreateInstanceInternal` | DIContainer/Container.cs:47-54 | creation keeps the invariant and only grows the state; every cache entry it adds is for a key of lower rank than the one being created |
| `Resolution.CreateInstance` | DIContainer/Container.cs:103-106 | getting-or-adding the activator and invoking it keeps the invariant and only grows the state |
| `Resolution.Activate` | DIContainer/Container.cs:100-105 | invoking an activator keeps the invariant; a returned object was allocated before the counter's current value |
| `Resolution.ResolveArguments` | DIContainer/Container.cs:100 | resolving constructor parameters from the same scope yields one object per parameter, keeps the invariant and only adds cache entries for lower-ranked keys |
| `ResolutionProperties.UnregisteredNeverResolves` | DIContainer/Container.cs:33-34 | resolving an unregistered key fails with the null-descriptor error and changes nothing; `BuildActivation` throws "not registered" for it |
| `ResolutionProperties.ActivateAllocatesFresh` | DIContainer/Container.cs:100-105 | an allocating activator returns an object with a serial number not handed out before, held in no cache and on no stack |
| `ResolutionProperties.CreationPushesIffDisposable` | DIContainer/Container.cs:47-54 | a newly created object is on the creating scope's disposal stack if and only if it is disposable, and then it is on top |
| `ResolutionProperties.ConstantActivation` | DIContainer/Container.cs:95-96 | an instance activator returns the stored instance whatever the scope; it allocates nothing, leaves the root cache alone, and pushes the instance exactly when it is disposable |
| `ResolutionProperties.ActivatorBuiltOnce` | DIContainer/Container.cs:103-106 | after a creation the key's activator is in the table and equals what `BuildActivation` builds; an activator already there is reused unchanged |
| `ResolutionProperties.TransientCreatesEveryTime` | DIContainer/Container.cs:34-35 | a Transient key is served by `CreateInstanceInternal` on every request, on the root too, and is in no instance cache afterwards |
| `ResolutionProperties.TransientYieldsFreshInstance` | DIContainer/Container.cs:34-35 | with an allocating activator, each Transient request returns an object not held anywhere before the request |
| `ResolutionProperties.TransientTwiceDistinct` | DIContainer/Container.cs:34-35 | two consecutive Transient requests on one scope return different objects |
| `ResolutionProperties.CachedInstanceReturned` | DIContainer/Container.cs:37-39 | for a Scoped key, or any non-Transient key on the root, a cache hit returns the cached object and changes nothing; in particular nothing is pushed |
| `ResolutionProperties.FirstResolveStores` | DIContainer/Container.cs:37-39 | the first such request returns the created object. The creation never adds the key itself. The object is stored under the key, and every later request on that scope returns it unchanged |
| `ResolutionProperties.ScopedDistinctAcrossScopes` | DIContainer/Container.cs:37-39 | two child scopes of one container get different objects for a Scoped key with an allocating activator |
| `ResolutionProperties.SingletonDelegatesToRoot` | DIContainer/Container.cs:41-44 | a Singleton request on a child scope has exactly the root scope's result and effect; the child's cache and stack are untouched |
| `ResolutionProperties.SingletonSharedAcrossScopes` | DIContainer/Container.cs:37-44 | after a Singleton key was resolved from one child scope, every other scope and the root get the same object, and the request changes nothing |
| `Disposal.ReleaseOf` | DIContainer/Container.cs:56-76 | a disposable entry gets exactly one release of the preferred kind; a non-disposable one gets none |
| `Disposal.TeardownIsLifo` | DIContainer/Container.cs:56-76 | on a stack of disposable objects, teardown releases every entry once, last pushed first, each with the kind its path prefers |
| `Containers.Container.constructor` | DIContainer/Container.cs:13-18 | the new container holds the descriptor list as a map keyed by service type. Its activator table is empty. Its root scope is new and empty |
| `Containers.Container.CreateScope` | DIContainer/Container.cs:79-82 | a new, empty child scope of this container, distinct from the root |
| `Containers.Container.CreateInstance` | DIContainer/Container.cs:103-106 | result and new fields equal `Resolution.CreateInstance` on the old fields |
| `Containers.Container.Activate` | DIContainer/Container.cs:105 | result and new fields equal `Resolution.Activate` on the old fields |
| `Containers.Container.ResolveArguments` | DIContainer/Container.cs:100 | result and new fields equal `Resolution.ResolveArguments` on the old fields |
| `Containers.Container.Dispose` | DIContainer/Container.cs:108 | the container's disposal is the root scope's teardown (synchronous path) and nothing else |
| `Containers.Container.DisposeAsync` | DIContainer/Container.cs:110 | the same on the asynchronous path |
| `Containers.Scope.constructor` | DIContainer/Container.cs:26-29 | a scope starts with an empty cache and an empty disposal stack |
| `Containers.Scope.Resolve` | DIContainer/Container.cs:31-45 | result and new fields of the scope, the root and the container equal `Resolution.Resolve` on the old ones; the object invariant is kept |
| `Containers.Scope.CreateInstanceInternal` | DIContainer/Container.cs:47-54 | result and new fields equal `Resolution.CreateInstanceInternal` on the old ones |
| `Containers.Scope.Dispose` | DIContainer/Container.cs:56-65 | releases the stack from the top down, each entry by `Dispose` if it has it, else by `DisposeAsync`. On a stack of disposable objects this is one release per entry in LIFO order. The stack is not changed |
| `Containers.Scope.DisposeAsync` | DIContainer/Container.cs:67-76 | the same, preferring `DisposeAsync` |
| `Building.FirstWinsDistinct` | DIContainer/ContainerBuilder.cs:13-23 | after any registration history, the builder's list has pairwise distinct service types and covers every registered service type |
| `Building.FirstWinsKeepsOrder` | DIContainer/ContainerBuilder.cs:17 | accepted descriptors are never removed or reordered: the list is a prefix of the list after any further registrations |
| `Building.FirstRegistrationWins` | DIContainer/ContainerBuilder.cs:13-23 | the first registration of each service type is in the list and is what the built map holds for that type |
| `Building.ContainerBuilder.constructor` | DIContainer/ContainerBuilder.cs:8-11 | a new builder has no descriptors and keeps the activation builder |
| `Building.ContainerBuilder.Register` | DIContainer/ContainerBuilder.cs:13-23 | appends the descriptor if and only if its service type is not yet in the list, else leaves the list unchanged; the distinct-keys invariant is kept |
| `Building.ContainerBuilder.Build` | DIContainer/ContainerBuilder.cs:24-27 | the built container's map has exactly the registered service types, each mapped to its first registration. Its activator table and root scope start empty |
| `Registration.RegisterType` | DIContainer/ContainerBuilderExtensions.cs:5-21 | throws and registers nothing when the implementation type is not assignable to the service type, else registers a type-based descriptor with the given lifetime and returns the same builder |
| `Registration.RegisterFactory` | DIContainer/ContainerBuilderExtensions.cs:23-34 | registers a factory-based descriptor with the given lifetime and returns the same builder |
| `Registration.RegisterInstance` | DIContainer/ContainerBuilderExtensions.cs:36-41 | registers an instance-based, hence Singleton, descriptor and returns the same builder |
| `Registration.RegisterSingleton` | DIContainer/ContainerBuilderExtensions.cs:43-46 | registers an instance-based Singleton descriptor and returns the same builder |
| `Registration.RegisterSingletonFactory` | DIContainer/ContainerBuilderExtensions.cs:47-51 | registers a factory-based Singleton descriptor and returns the same builder |
| `Registration.RegisterTransient` | DIContainer/ContainerBuilderExtensions.cs:55-57 | assignability check, then a type-based Transient descriptor; returns the same builder |
| `Registration.RegisterTransientOf` | DIContainer/ContainerBuilderExtensions.cs:59-60 | with the compile-time constraint met, registers a type-based Transient descriptor and returns the same builder |
| `Registration.RegisterTransientFactory` | DIContainer/ContainerBuilderExtensions.cs:62-66 | registers a factory-based Transient descriptor and returns the same builder |
| `Registration.RegisterScoped` | DIContainer/ContainerBuilderExtensions.cs:70-72 | assignability check, then a type-based Scoped descriptor; returns the same builder |
| `Registration.RegisterScopedOf` | DIContainer/ContainerBuilderExtensions.cs:74-75 | with the compile-time constraint met, registers a type-based Scoped descriptor and returns the same builder |
| `Registration.RegisterScopedFactory` | DIContainer/ContainerBuilderExtensions.cs:77-81 | registers a factory-based Scoped descriptor and returns the same builder |

## Left out

- Concurrency is not modelled; every operation runs sequentially. This
  covers the thread safety of `ConcurrentDictionary` and `ConcurrentStack`.
  It also covers the races in which two first requests for one key both run
  the activator builder or the factory.
- `GetOrAdd` re-checks the dictionary after running its value factory. The
  model leaves that re-check out. Sequentially the factory can never add
  the key itself, as `ResolutionProperties.FirstResolveStores` proves.
- The activation strategies are not part of this model:
  `ReflectionBasedActivationBuilder`, `LambdaBasedActivationBuilder` and
  `IActivationBuilder`. The activation builder is a total function from
  implementation type to constructor parameters. So the model cannot fail
  for a type without a usable constructor.
- A user factory is modelled as either returning a captured object or
  resolving keys from its scope and allocating one new object. Arbitrary
  user code is not modelled: side effects, branching on the scope, or
  throwing.
- Unbounded recursion on a cyclic registry is not modelled. Building a
  container requires a ghost ranking that shows the registry is acyclic.
- `Containers.Container.constructor`: requires pairwise distinct service
  types. `ToImmutableDictionary` would throw on a duplicate. That only
  happens when a `Container` is built directly, never through
  `ContainerBuilder.Build`.
- Configuration code must hand in ready-made objects as `External`
  objects: registered instances, and objects captured by factories.
- The `ValueTask`/`await` machinery and blocking on `GetAwaiter().GetResult()`
  are not modelled. Disposal records only which release each entry gets.
  An exception thrown by one release, which would stop the loop, is not
  modelled either.
- `Type.IsAssignableFrom` is a parameter. The model does not look into it.
- The console message for a duplicate registration is not modelled.
- The generic overloads that only pass `typeof(T)` share one member with
  their `Type` overloads, and so does the factory wrapper `s => factory(s)`.
- The interfaces `IScope`, `IContainer` and `IContainerBuilder` give only
  method shapes. The demo and benchmark program `Program.cs` is not part of
  this model.
