/** The `RegisterX` extension methods: each turns its arguments into one
    descriptor, offers it to `Register` on the builder, and returns that same
    builder so that calls can be chained. The generic overloads whose type
    arguments are written `<TService>` are the same calls with
    `typeof(TService)` as the service type, and are not repeated. */
module Registration {
  import opened Wrappers
  import opened Descriptors
  import opened Building

  /** `Type.IsAssignableFrom`, which the model does not look into: the first
      argument is the service type, the second the implementation type. */
  type Assignability = (TypeId, TypeId) -> bool

  /** `RegisterType`: throws, registering nothing, unless the implementation
      type is assignable to the service type; otherwise registers a
      type-based descriptor with the given lifetime. */
  method RegisterType(builder: ContainerBuilder, serviceType: TypeId, implementationType: TypeId,
                      lifetime: Lifetime, isAssignableFrom: Assignability)
    returns (r: Result<ContainerBuilder, Exception>)
    requires builder.Valid()
    modifies builder`descriptors, builder`history
    ensures builder.Valid()
    ensures !isAssignableFrom(serviceType, implementationType) ==>
              r == Failure(Argument(serviceType, implementationType)) &&
              builder.history == old(builder.history) && builder.descriptors == old(builder.descriptors)
    ensures isAssignableFrom(serviceType, implementationType) ==>
              r == Success(builder) &&
              builder.history == old(builder.history) + [TypeBased(serviceType, lifetime, implementationType)] &&
              builder.descriptors == Accept(old(builder.descriptors), TypeBased(serviceType, lifetime, implementationType))
  {
    if !isAssignableFrom(serviceType, implementationType) {
      return Failure(Argument(serviceType, implementationType));
    }
    builder.Register(TypeBased(serviceType, lifetime, implementationType));
    r := Success(builder);
  }

  /** `RegisterFactory`: registers a factory-based descriptor with the given
      lifetime. */
  method RegisterFactory(builder: ContainerBuilder, serviceType: TypeId, factory: Activation, lifetime: Lifetime)
    returns (r: ContainerBuilder)
    requires builder.Valid()
    modifies builder`descriptors, builder`history
    ensures builder.Valid() && r == builder
    ensures builder.history == old(builder.history) + [FactoryBased(serviceType, lifetime, factory)]
    ensures builder.descriptors == Accept(old(builder.descriptors), FactoryBased(serviceType, lifetime, factory))
  {
    builder.Register(FactoryBased(serviceType, lifetime, factory));
    r := builder;
  }

  /** `RegisterInstance`: registers an instance-based descriptor, which is
      Singleton. */
  method RegisterInstance(builder: ContainerBuilder, serviceType: TypeId, instance: Obj)
    returns (r: ContainerBuilder)
    requires builder.Valid()
    modifies builder`descriptors, builder`history
    ensures builder.Valid() && r == builder
    ensures builder.history == old(builder.history) + [InstanceBased(serviceType, Singleton, instance)]
    ensures builder.descriptors == Accept(old(builder.descriptors), InstanceBased(serviceType, Singleton, instance))
  {
    builder.Register(InstanceBasedServiceDescriptor(serviceType, instance));
    r := builder;
  }

  /** `RegisterSingleton(serviceType, instance)` and `RegisterSingleton<T>(instance)`. */
  method RegisterSingleton(builder: ContainerBuilder, serviceType: TypeId, instance: Obj)
    returns (r: ContainerBuilder)
    requires builder.Valid()
    modifies builder`descriptors, builder`history
    ensures builder.Valid() && r == builder
    ensures builder.history == old(builder.history) + [InstanceBased(serviceType, Singleton, instance)]
    ensures builder.descriptors == Accept(old(builder.descriptors), InstanceBased(serviceType, Singleton, instance))
  {
    r := RegisterInstance(builder, serviceType, instance);
  }

  /** `RegisterSingleton(serviceType, factory)` and `RegisterSingleton<TService>(factory)`. */
  method RegisterSingletonFactory(builder: ContainerBuilder, serviceType: TypeId, factory: Activation)
    returns (r: ContainerBuilder)
    requires builder.Valid()
    modifies builder`descriptors, builder`history
    ensures builder.Valid() && r == builder
    ensures builder.history == old(builder.history) + [FactoryBased(serviceType, Singleton, factory)]
  {
    r := RegisterFactory(builder, serviceType, factory, Singleton);
  }

  /** `RegisterTransient(serviceType, serviceImplementation)`. */
  method RegisterTransient(builder: ContainerBuilder, serviceType: TypeId, implementationType: TypeId,
                           isAssignableFrom: Assignability)
    returns (r: Result<ContainerBuilder, Exception>)
    requires builder.Valid()
    modifies builder`descriptors, builder`history
    ensures builder.Valid()
    ensures !isAssignableFrom(serviceType, implementationType) ==>
              r == Failure(Argument(serviceType, implementationType)) && builder.history == old(builder.history)
    ensures isAssignableFrom(serviceType, implementationType) ==>
              r == Success(builder) &&
              builder.history == old(builder.history) + [TypeBased(serviceType, Transient, implementationType)]
  {
    r := RegisterType(builder, serviceType, implementationType, Transient, isAssignableFrom);
  }

  /** `RegisterTransient<TService, TImplementation>()`: the constraint
      `where TImplementation : TService` is checked by the compiler, so the
      call cannot throw. */
  method RegisterTransientOf(builder: ContainerBuilder, serviceType: TypeId, implementationType: TypeId,
                             isAssignableFrom: Assignability)
    returns (r: ContainerBuilder)
    requires builder.Valid()
    requires isAssignableFrom(serviceType, implementationType)
    modifies builder`descriptors, builder`history
    ensures builder.Valid() && r == builder
    ensures builder.history == old(builder.history) + [TypeBased(serviceType, Transient, implementationType)]
  {
    var result := RegisterType(builder, serviceType, implementationType, Transient, isAssignableFrom);
    r := result.value;
  }

  /** `RegisterTransient(serviceType, factory)` and `RegisterTransient<TService>(factory)`. */
  method RegisterTransientFactory(builder: ContainerBuilder, serviceType: TypeId, factory: Activation)
    returns (r: ContainerBuilder)
    requires builder.Valid()
    modifies builder`descriptors, builder`history
    ensures builder.Valid() && r == builder
    ensures builder.history == old(builder.history) + [FactoryBased(serviceType, Transient, factory)]
  {
    r := RegisterFactory(builder, serviceType, factory, Transient);
  }

  /** `RegisterScoped(serviceType, serviceImplementation)`. */
  method RegisterScoped(builder: ContainerBuilder, serviceType: TypeId, implementationType: TypeId,
                        isAssignableFrom: Assignability)
    returns (r: Result<ContainerBuilder, Exception>)
    requires builder.Valid()
    modifies builder`descriptors, builder`history
    ensures builder.Valid()
    ensures !isAssignableFrom(serviceType, implementationType) ==>
              r == Failure(Argument(serviceType, implementationType)) && builder.history == old(builder.history)
    ensures isAssignableFrom(serviceType, implementationType) ==>
              r == Success(builder) &&
              builder.history == old(builder.history) + [TypeBased(serviceType, Scoped, implementationType)]
  {
    r := RegisterType(builder, serviceType, implementationType, Scoped, isAssignableFrom);
  }

  /** `RegisterScoped<TService, TImplementation>()`, constrained like
      `RegisterTransientOf`. */
  method RegisterScopedOf(builder: ContainerBuilder, serviceType: TypeId, implementationType: TypeId,
                          isAssignableFrom: Assignability)
    returns (r: ContainerBuilder)
    requires builder.Valid()
    requires isAssignableFrom(serviceType, implementationType)
    modifies builder`descriptors, builder`history
    ensures builder.Valid() && r == builder
    ensures builder.history == old(builder.history) + [TypeBased(serviceType, Scoped, implementationType)]
  {
    var result := RegisterType(builder, serviceType, implementationType, Scoped, isAssignableFrom);
    r := result.value;
  }

  /** `RegisterScoped(serviceType, factory)` and `RegisterScoped<TService>(factory)`. */
  method RegisterScopedFactory(builder: ContainerBuilder, serviceType: TypeId, factory: Activation)
    returns (r: ContainerBuilder)
    requires builder.Valid()
    modifies builder`descriptors, builder`history
    ensures builder.Valid() && r == builder
    ensures builder.history == old(builder.history) + [FactoryBased(serviceType, Scoped, factory)]
  {
    r := RegisterFactory(builder, serviceType, factory, Scoped);
  }
}
