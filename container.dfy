/** The container and its scopes as objects whose fields change in place.
    Every state-changing method is proved to change the fields exactly as the
    matching function of module `Resolution` changes an `Engine`; the lemmas of
    `ResolutionProperties` then apply to the objects. */
module Containers {
  import opened Wrappers
  import opened Descriptors
  import opened Resolution
  import opened Disposal

  class Container {
    /** `_descriptors`, an immutable dictionary keyed by service type. */
    const descriptors: map<TypeId, ServiceDescriptor>
    /** `_builder`, the activation builder for type descriptors. */
    const builder: TypeId -> Constructor
    /** A ranking under which the dependency graph is acyclic (proof only). */
    ghost const rank: TypeId -> nat
    /** `_buildActivators`: the memoised activator of each key built so far. */
    var activators: map<TypeId, Activation>
    /** The serial number the next allocated object receives. */
    var nextId: nat
    /** `_rootScope`; set once, by the constructor. */
    var root: Scope?

    ghost function Cfg(): Config {
      Config(descriptors, builder, rank)
    }

    ghost predicate Valid()
      reads this, root
    {
      root != null && root.container == this &&
      WellFormed(Cfg()) &&
      Inv(Cfg(), Engine(activators, nextId, root.State(), None))
    }

    /** `new Container(descriptors, builder)`: the list is turned into the
        descriptor map and a root scope is created. */
    constructor (descriptors: seq<ServiceDescriptor>, builder: TypeId -> Constructor, ghost rank: TypeId -> nat)
      requires DistinctServiceTypes(descriptors)
      requires WellFormed(Config(ToDescriptorMap(descriptors), builder, rank))
      ensures Valid() && fresh(root)
      ensures this.descriptors == ToDescriptorMap(descriptors) && this.builder == builder && this.rank == rank
      ensures activators == map[] && root.State() == ScopeState(map[], [])
    {
      this.descriptors := ToDescriptorMap(descriptors);
      this.builder := builder;
      this.rank := rank;
      activators := map[];
      nextId := 0;
      new;
      root := new Scope(this);
    }

    /** `CreateScope`: a new, empty child scope of this container. */
    method CreateScope() returns (scope: Scope)
      requires Valid()
      ensures fresh(scope) && scope.container == this && scope != root
      ensures scope.Valid() && scope.State() == ScopeState(map[], [])
    {
      scope := new Scope(this);
    }

    /** `CreateInstance`: get the activator for the key from the table, building
        and adding it on first use, and invoke it on `scope`. */
    method CreateInstance(service: TypeId, scope: Scope) returns (r: Result<Obj, Exception>)
      requires scope.container == this && scope.Valid()
      modifies this`activators, this`nextId, scope, root
      ensures scope.Valid()
      ensures Step(r, scope.View()) == Resolution.CreateInstance(Cfg(), old(scope.View()), service)
      decreases rank(service), 2, 0
    {
      var activator: Activation;
      if service in activators {
        activator := activators[service];
      } else {
        var built := BuildActivation(descriptors, builder, service);
        if built.Failure? {
          return Failure(built.error);
        }
        activator := built.value;
        activators := activators[service := activator];
      }
      r := Activate(service, activator, scope);
    }

    /** Invoking the activator of `service` on `scope`. */
    method Activate(service: TypeId, activator: Activation, scope: Scope) returns (r: Result<Obj, Exception>)
      requires scope.container == this && scope.Valid()
      requires BuildActivation(descriptors, builder, service) == Success(activator)
      modifies this`nextId, this`activators, scope, root
      ensures scope.Valid()
      ensures Step(r, scope.View()) == Resolution.Activate(Cfg(), old(scope.View()), service, activator)
      decreases rank(service), 1, 0
    {
      match activator
      case Constant(instance) =>
        r := Success(instance);
      case Allocate(impl, deps, disposable, asyncDisposable) =>
        assert Dependencies(Cfg(), service) == deps;
        var args := ResolveArguments(service, deps, scope);
        if args.Failure? {
          return Failure(args.error);
        }
        ghost var mid := scope.View();
        r := Success(Obj(Minted(nextId), impl, disposable, asyncDisposable, args.value));
        nextId := nextId + 1;
        assert scope.View() == mid.(nextId := mid.nextId + 1);
    }

    /** Resolving the constructor parameters of `service` from `scope`, left
        to right; the first exception propagates. */
    method ResolveArguments(service: TypeId, deps: seq<TypeId>, scope: Scope) returns (r: Result<seq<Obj>, Exception>)
      requires scope.container == this && scope.Valid()
      requires forall i :: 0 <= i < |deps| ==> rank(deps[i]) < rank(service)
      modifies this`nextId, this`activators, scope, root
      ensures scope.Valid()
      ensures Step(r, scope.View()) == Resolution.ResolveArguments(Cfg(), old(scope.View()), service, deps)
      decreases rank(service), 0, |deps|
    {
      if deps == [] {
        return Success([]);
      }
      var first := scope.Resolve(deps[0]);
      if first.Failure? {
        return Failure(first.error);
      }
      var rest := ResolveArguments(service, deps[1..], scope);
      if rest.Failure? {
        return rest;
      }
      r := Success([first.value] + rest.value);
    }

    /** `Dispose`: disposing the container disposes its root scope only. */
    method Dispose() returns (released: seq<Release>)
      requires Valid()
      ensures released == Teardown(root.disposables, false)
    {
      released := root.Dispose();
    }

    /** `DisposeAsync`: likewise, on the asynchronous path. */
    method DisposeAsync() returns (released: seq<Release>)
      requires Valid()
      ensures released == Teardown(root.disposables, true)
    {
      released := root.DisposeAsync();
    }
  }

  class Scope {
    const container: Container
    /** `_scopedInstances`. */
    var instances: map<TypeId, Obj>
    /** `_disposables`, a stack whose top is the end of the sequence. */
    var disposables: seq<Obj>

    constructor (container: Container)
      ensures this.container == container
      ensures instances == map[] && disposables == []
    {
      this.container := container;
      instances := map[];
      disposables := [];
    }

    ghost function State(): ScopeState
      reads this
    {
      ScopeState(instances, disposables)
    }

    /** The state a request on this scope works on; the child part is absent
        when this is the root scope. */
    ghost function View(): Engine
      reads this, container, container.root
      requires container.root != null
    {
      Engine(container.activators, container.nextId, container.root.State(),
             if container.root == this then None else Some(State()))
    }

    ghost predicate Valid()
      reads this, container, container.root
    {
      container.Valid() && Inv(container.Cfg(), View())
    }

    /** `Resolve`: Transient keys are built anew; Scoped keys, and every key
        on the root, are got-or-added in this scope's cache; Singleton keys on
        a child scope are delegated to the root. */
    method Resolve(service: TypeId) returns (r: Result<Obj, Exception>)
      requires Valid()
      modifies this, container`activators, container`nextId, container.root
      ensures Valid()
      ensures Step(r, View()) == Resolution.Resolve(container.Cfg(), old(View()), service)
      decreases container.rank(service), 5, if container.root == this then 0 else 1
    {
      var descriptor := FindDescriptor(container.descriptors, service);
      if descriptor.None? {
        // reading `Lifetime` off the null descriptor
        return Failure(NullReference(service));
      }
      if descriptor.value.lifetime == Transient {
        r := CreateInstanceInternal(service);
        return;
      }
      if descriptor.value.lifetime == Scoped || container.root == this {
        if service in instances {
          return Success(instances[service]);
        }
        r := CreateInstanceInternal(service);
        if r.Success? {
          instances := instances[service := r.value];
        }
      } else {
        var root := container.root;
        assert root.View() == old(View()).(child := None);
        r := root.Resolve(service);
      }
    }

    /** `CreateInstanceInternal`: create through the container and push the
        result onto this scope's disposal stack when it is disposable. */
    method CreateInstanceInternal(service: TypeId) returns (r: Result<Obj, Exception>)
      requires Valid()
      modifies this, container`activators, container`nextId, container.root
      ensures Valid()
      ensures Step(r, View()) == Resolution.CreateInstanceInternal(container.Cfg(), old(View()), service)
      decreases container.rank(service), 3, 0
    {
      r := container.CreateInstance(service, this);
      if r.Success? && r.value.IsDisposable() {
        disposables := disposables + [r.value];
      }
    }

    /** `Dispose`: walks the disposal stack from the top, preferring
        `IDisposable.Dispose`; the stack is left as it is. */
    method Dispose() returns (released: seq<Release>)
      ensures released == Teardown(disposables, false)
      ensures Settled(disposables) ==>
                |released| == |disposables| &&
                forall j :: 0 <= j < |released| ==>
                  released[j] == Release(disposables[|disposables| - 1 - j], Preferred(disposables[|disposables| - 1 - j], false))
    {
      released := [];
      var i := |disposables|;
      while i > 0
        invariant 0 <= i <= |disposables|
        invariant released == Teardown(disposables[i..], false)
      {
        i := i - 1;
        var entry := disposables[i];
        assert disposables[i..][1..] == disposables[i + 1..];
        if entry.disposable {
          released := released + [Release(entry, Synchronous)];
        } else if entry.asyncDisposable {
          released := released + [Release(entry, Asynchronous)];
        }
      }
      assert disposables[0..] == disposables;
      if Settled(disposables) {
        TeardownIsLifo(disposables, false);
      }
    }

    /** `DisposeAsync`: walks the disposal stack from the top, preferring
        `IAsyncDisposable.DisposeAsync`; the stack is left as it is. */
    method DisposeAsync() returns (released: seq<Release>)
      ensures released == Teardown(disposables, true)
      ensures Settled(disposables) ==>
                |released| == |disposables| &&
                forall j :: 0 <= j < |released| ==>
                  released[j] == Release(disposables[|disposables| - 1 - j], Preferred(disposables[|disposables| - 1 - j], true))
    {
      released := [];
      var i := |disposables|;
      while i > 0
        invariant 0 <= i <= |disposables|
        invariant released == Teardown(disposables[i..], true)
      {
        i := i - 1;
        var entry := disposables[i];
        assert disposables[i..][1..] == disposables[i + 1..];
        if entry.asyncDisposable {
          released := released + [Release(entry, Asynchronous)];
        } else if entry.disposable {
          released := released + [Release(entry, Synchronous)];
        }
      }
      assert disposables[0..] == disposables;
      if Settled(disposables) {
        TeardownIsLifo(disposables, true);
      }
    }
  }
}
