/** Service keys, lifetimes, run-time objects and the three kinds of
    service descriptor that the container is configured with. */
module Descriptors {

  /** A .NET `Type`: the key of a service, or the type of an implementation. */
  type TypeId = nat

  datatype Lifetime = Transient | Scoped | Singleton

  /** Object identity. A `Minted` object was allocated while the container
      resolved a service, with the container's running serial number; an
      `External` one was built by configuration code before that (the instance
      handed to `RegisterSingleton`, or one a factory captured). */
  datatype ObjId = External(serial: nat) | Minted(serial: nat)

  /** A run-time object: its identity, its concrete type, which of
      `IDisposable` and `IAsyncDisposable` it implements, and the
      constructor arguments it was built from. */
  datatype Obj = Obj(id: ObjId, runtimeType: TypeId, disposable: bool, asyncDisposable: bool, arguments: seq<Obj>)
  {
    /** The test `result is IDisposable or IAsyncDisposable`. */
    predicate IsDisposable() {
      disposable || asyncDisposable
    }
  }

  /** What an activator (a `Func<IScope, object>`) does when it is invoked on
      a scope: hand back one fixed object, or resolve `dependencies` from that
      scope, in order, and allocate a new object of type `implementation`
      from the results. A user factory is one of these two as well. */
  datatype Activation =
    | Constant(instance: Obj)
    | Allocate(implementation: TypeId, dependencies: seq<TypeId>, disposable: bool, asyncDisposable: bool)

  /** What the activation builder finds out about an implementation type:
      the service keys of its constructor parameters, and the disposal
      interfaces the type implements. */
  datatype Constructor = Constructor(parameters: seq<TypeId>, disposable: bool, asyncDisposable: bool)

  /** The exceptions the modelled code throws. */
  datatype Exception =
    | NullReference(service: TypeId)         // `descriptor.Lifetime` read on a null descriptor
    | InvalidOperation(service: TypeId)      // "Service ... is not registered"
    | Argument(serviceType: TypeId, implementationType: TypeId)  // "... doesn't Assignable types"

  /** The abstract `ServiceDescriptor` with its three subclasses; every
      variant carries `serviceType` and `lifetime`. The type-based and
      factory-based ones are built with object initialisers, so any lifetime
      can be given to them. */
  datatype ServiceDescriptor =
    | TypeBased(serviceType: TypeId, lifetime: Lifetime, implementationType: TypeId)
    | FactoryBased(serviceType: TypeId, lifetime: Lifetime, factory: Activation)
    | InstanceBased(serviceType: TypeId, lifetime: Lifetime, instance: Obj)

  /** The only constructor that `InstanceBasedServiceDescriptor` has: it
      forces the Singleton lifetime. */
  function InstanceBasedServiceDescriptor(serviceType: TypeId, instance: Obj): (d: ServiceDescriptor)
    ensures d.InstanceBased? && d.lifetime == Singleton
    ensures d.serviceType == serviceType && d.instance == instance
  {
    InstanceBased(serviceType, Singleton, instance)
  }

  /** The service types occurring in a list of descriptors. */
  function ServiceTypes(descriptors: seq<ServiceDescriptor>): set<TypeId> {
    set i | 0 <= i < |descriptors| :: descriptors[i].serviceType
  }

  /** No two descriptors of the list share a service type. */
  predicate DistinctServiceTypes(descriptors: seq<ServiceDescriptor>) {
    forall i, j :: 0 <= i < j < |descriptors| ==> descriptors[i].serviceType != descriptors[j].serviceType
  }

  /** `ToImmutableDictionary(x => x.ServiceType)` on a list whose keys are
      distinct: every descriptor is found under its own service type, and
      there are no other keys. */
  function ToDescriptorMap(descriptors: seq<ServiceDescriptor>): (m: map<TypeId, ServiceDescriptor>)
    requires DistinctServiceTypes(descriptors)
    ensures m.Keys == ServiceTypes(descriptors)
    ensures forall i :: 0 <= i < |descriptors| ==> m[descriptors[i].serviceType] == descriptors[i]
  {
    if descriptors == [] then map[]
    else
      var last := descriptors[|descriptors| - 1];
      var front := descriptors[..|descriptors| - 1];
      assert ServiceTypes(descriptors) == ServiceTypes(front) + {last.serviceType} by {
        assert forall i :: 0 <= i < |front| ==> front[i] == descriptors[i];
      }
      ToDescriptorMap(front)[last.serviceType := last]
  }
}
