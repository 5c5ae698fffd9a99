/** What the lifetime rules guarantee: a Transient key is built anew on every
    request and never cached, a Scoped key is built once per scope, a
    Singleton key once per container, and the disposal stack receives exactly
    the disposable objects a scope creates. */
module ResolutionProperties {
  import opened Wrappers
  import opened Descriptors
  import opened Resolution

  /** The object is held nowhere in the state: in no instance cache and on no
      disposal stack. */
  ghost predicate Unseen(o: Obj, e: Engine) {
    (forall service :: service in e.root.instances ==> e.root.instances[service] != o) &&
    o !in e.root.disposables &&
    (e.child.Some? ==>
       (forall service :: service in e.child.value.instances ==> e.child.value.instances[service] != o) &&
       o !in e.child.value.disposables)
  }

  /** The activator registered for `service` allocates a new object (a type
      descriptor, or a factory that calls a constructor). */
  ghost predicate Allocates(cfg: Config, service: TypeId) {
    var a := BuildActivation(cfg.descriptors, cfg.builder, service);
    a.Success? && a.value.Allocate?
  }

  ghost predicate LifetimeIs(cfg: Config, service: TypeId, lifetime: Lifetime) {
    service in cfg.descriptors && cfg.descriptors[service].lifetime == lifetime
  }

  /** Whether a request for `service` on the scope `e.Here()` goes through
      that scope's instance cache: Scoped keys on any scope, and every
      non-Transient key on the root. */
  ghost predicate CachedHere(cfg: Config, e: Engine, service: TypeId) {
    service in cfg.descriptors && cfg.descriptors[service].lifetime != Transient &&
    (cfg.descriptors[service].lifetime == Scoped || e.child.None?)
  }

  // ---------------------------------------------------------------------
  // Unregistered keys

  /** Resolving a key with no descriptor never yields an object and changes
      nothing; building an activator for it throws "not registered". */
  lemma UnregisteredNeverResolves(cfg: Config, e: Engine, service: TypeId)
    requires WellFormed(cfg) && Inv(cfg, e)
    requires service !in cfg.descriptors
    ensures Resolve(cfg, e, service) == Step(Failure(NullReference(service)), e)
    ensures BuildActivation(cfg.descriptors, cfg.builder, service) == Failure(InvalidOperation(service))
  {
  }

  // ---------------------------------------------------------------------
  // Allocation

  /** When the activator allocates, the object it returns carries a serial
      number no earlier object has, is held nowhere yet, and is the last
      object allocated. */
  lemma {:induction false} ActivateAllocatesFresh(cfg: Config, e: Engine, service: TypeId, activator: Activation)
    requires WellFormed(cfg) && Inv(cfg, e)
    requires BuildActivation(cfg.descriptors, cfg.builder, service) == Success(activator)
    requires activator.Allocate?
    ensures var s := Activate(cfg, e, service, activator);
            s.result.Success? ==>
              s.result.value.id.Minted? && e.nextId <= s.result.value.id.serial &&
              s.after.nextId == s.result.value.id.serial + 1 &&
              Unseen(s.result.value, s.after)
  {
    var s := Activate(cfg, e, service, activator);
    assert Dependencies(cfg, service) == activator.dependencies;
    var args := ResolveArguments(cfg, e, service, activator.dependencies);
    if args.result.Success? {
      assert s.after == args.after.(nextId := args.after.nextId + 1);
      var o := s.result.value;
      assert o.id == Minted(args.after.nextId);
      assert Owned(args.after.root, args.after.nextId);
      assert o !in args.after.root.disposables by {
        forall i | 0 <= i < |args.after.root.disposables|
          ensures args.after.root.disposables[i] != o
        {
          assert MintedBefore(args.after.root.disposables[i], args.after.nextId);
        }
      }
      if args.after.child.Some? {
        assert Owned(args.after.child.value, args.after.nextId);
        assert o !in args.after.child.value.disposables by {
          forall i | 0 <= i < |args.after.child.value.disposables|
            ensures args.after.child.value.disposables[i] != o
          {
            assert MintedBefore(args.after.child.value.disposables[i], args.after.nextId);
          }
        }
      }
    }
  }

  /** `CreateInstanceInternal` on an allocating activator: the new object is
      fresh, it is on this scope's disposal stack exactly when it is
      disposable, and then it is on top. */
  lemma {:induction false} CreationPushesIffDisposable(cfg: Config, e: Engine, service: TypeId)
    requires WellFormed(cfg) && Inv(cfg, e)
    requires Allocates(cfg, service)
    ensures var s := CreateInstanceInternal(cfg, e, service);
            s.result.Success? ==>
              var o := s.result.value;
              var ledger := s.after.Here().disposables;
              o.id.Minted? && e.nextId <= o.id.serial < s.after.nextId &&
              (o in ledger <==> o.IsDisposable()) &&
              (o.IsDisposable() ==> ledger[|ledger| - 1] == o)
  {
    var activator := BuildActivation(cfg.descriptors, cfg.builder, service).value;
    var c := CreateInstance(cfg, e, service);
    if service in e.activators {
      ActivateAllocatesFresh(cfg, e, service, activator);
    } else {
      ActivateAllocatesFresh(cfg, e.(activators := e.activators[service := activator]), service, activator);
    }
  }

  /** The activator of an instance descriptor, or of a factory returning a
      captured object, hands back that object; creating it allocates nothing,
      touches no cache and pushes it onto this scope's stack if it is
      disposable. */
  lemma {:induction false} ConstantActivation(cfg: Config, e: Engine, service: TypeId, instance: Obj)
    requires WellFormed(cfg) && Inv(cfg, e)
    requires BuildActivation(cfg.descriptors, cfg.builder, service) == Success(Constant(instance))
    ensures var s := CreateInstanceInternal(cfg, e, service);
            s.result == Success(instance) &&
            s.after.nextId == e.nextId &&
            s.after.root.instances == e.root.instances &&
            s.after.Here().disposables == e.Here().disposables + (if instance.IsDisposable() then [instance] else []) &&
            s.after.activators == e.activators[service := Constant(instance)]
  {
    var c := CreateInstance(cfg, e, service);
    if service in e.activators {
      assert e.activators[service] == Constant(instance);
      assert e.activators[service := Constant(instance)] == e.activators;
      assert c == Activate(cfg, e, service, Constant(instance));
    } else {
      assert c == Activate(cfg, e.(activators := e.activators[service := Constant(instance)]), service, Constant(instance));
    }
  }

  /** The activator for a key is built on the first request only: afterwards it
      is in the table, it is what `BuildActivation` gives, and an activator that
      was already there is reused unchanged. */
  lemma {:induction false} ActivatorBuiltOnce(cfg: Config, e: Engine, service: TypeId)
    requires WellFormed(cfg) && Inv(cfg, e)
    requires service in cfg.descriptors
    ensures var s := CreateInstance(cfg, e, service);
            service in s.after.activators &&
            Success(s.after.activators[service]) == BuildActivation(cfg.descriptors, cfg.builder, service) &&
            (service in e.activators ==> s.after.activators[service] == e.activators[service])
  {
    var activator := BuildActivation(cfg.descriptors, cfg.builder, service).value;
    var e' := if service in e.activators then e else e.(activators := e.activators[service := activator]);
    assert service in e'.activators;
    var s := Activate(cfg, e', service, activator);
    assert CreateInstance(cfg, e, service) == s;
  }

  // ---------------------------------------------------------------------
  // Transient

  /** A Transient key is served by invoking its activator again, on whatever
      scope it is requested, root included; it never enters any cache. */
  lemma TransientCreatesEveryTime(cfg: Config, e: Engine, service: TypeId)
    requires WellFormed(cfg) && Inv(cfg, e)
    requires LifetimeIs(cfg, service, Transient)
    ensures Resolve(cfg, e, service) == CreateInstanceInternal(cfg, e, service)
    ensures var s := Resolve(cfg, e, service);
            service !in s.after.root.instances &&
            (s.after.child.Some? ==> service !in s.after.child.value.instances)
  {
  }

  /** Each request for a Transient key with an allocating activator yields an
      object held nowhere before the request. */
  lemma {:induction false} TransientYieldsFreshInstance(cfg: Config, e: Engine, service: TypeId)
    requires WellFormed(cfg) && Inv(cfg, e)
    requires LifetimeIs(cfg, service, Transient) && Allocates(cfg, service)
    ensures var s := Resolve(cfg, e, service);
            s.result.Success? ==>
              s.result.value.id.Minted? && e.nextId <= s.result.value.id.serial && Unseen(s.result.value, e)
  {
    CreationPushesIffDisposable(cfg, e, service);
    var s := Resolve(cfg, e, service);
    if s.result.Success? {
      var o := s.result.value;
      assert o.id.serial >= e.nextId;
      forall k | k in e.root.instances ensures e.root.instances[k] != o {
        assert MintedBefore(e.root.instances[k], e.nextId);
      }
      assert o !in e.root.disposables by {
        forall i | 0 <= i < |e.root.disposables| ensures e.root.disposables[i] != o {
          assert MintedBefore(e.root.disposables[i], e.nextId);
        }
      }
      if e.child.Some? {
        forall k | k in e.child.value.instances ensures e.child.value.instances[k] != o {
          assert MintedBefore(e.child.value.instances[k], e.nextId);
        }
        assert o !in e.child.value.disposables by {
          forall i | 0 <= i < |e.child.value.disposables| ensures e.child.value.disposables[i] != o {
            assert MintedBefore(e.child.value.disposables[i], e.nextId);
          }
        }
      }
    }
  }

  /** Two requests in a row for a Transient key on the same scope give two
      different objects. */
  lemma {:induction false} TransientTwiceDistinct(cfg: Config, e: Engine, service: TypeId)
    requires WellFormed(cfg) && Inv(cfg, e)
    requires LifetimeIs(cfg, service, Transient) && Allocates(cfg, service)
    ensures var first := Resolve(cfg, e, service);
            var second := Resolve(cfg, first.after, service);
            first.result.Success? && second.result.Success? ==> first.result.value != second.result.value
  {
    var first := Resolve(cfg, e, service);
    TransientYieldsFreshInstance(cfg, first.after, service);
  }

  // ---------------------------------------------------------------------
  // Scoped, and everything on the root

  /** A cached key is answered from the cache: the same object, and nothing
      changes, in particular nothing is pushed for disposal. */
  lemma CachedInstanceReturned(cfg: Config, e: Engine, service: TypeId)
    requires WellFormed(cfg) && Inv(cfg, e)
    requires CachedHere(cfg, e, service) && service in e.Here().instances
    ensures Resolve(cfg, e, service) == Step(Success(e.Here().instances[service]), e)
  {
  }

  /** The first request for a cached key creates the object through
      `CreateInstanceInternal` and stores it under the key; every later request
      on the same scope returns that object and changes nothing. */
  lemma {:induction false} FirstResolveStores(cfg: Config, e: Engine, service: TypeId)
    requires WellFormed(cfg) && Inv(cfg, e)
    requires CachedHere(cfg, e, service) && service !in e.Here().instances
    ensures var s := Resolve(cfg, e, service);
            var c := CreateInstanceInternal(cfg, e, service);
            s.result == c.result &&
            (s.result.Success? ==>
               service !in c.after.Here().instances &&
               s.after.Here().instances == c.after.Here().instances[service := s.result.value] &&
               Resolve(cfg, s.after, service) == Step(s.result, s.after))
  {
    var s := Resolve(cfg, e, service);
    var c := CreateInstanceInternal(cfg, e, service);
    if c.result.Success? {
      assert s.after == c.after.WithHere(c.after.Here().(instances := c.after.Here().instances[service := c.result.value]));
      CachedInstanceReturned(cfg, s.after, service);
    }
  }

  /** Two child scopes of one container each get their own object for a
      Scoped key with an allocating activator. */
  lemma {:induction false} ScopedDistinctAcrossScopes(cfg: Config, e: Engine, service: TypeId, other: ScopeState)
    requires WellFormed(cfg) && Inv(cfg, e) && e.child.Some?
    requires LifetimeIs(cfg, service, Scoped) && Allocates(cfg, service)
    requires service !in other.instances
    ensures var first := Resolve(cfg, e, service);
            var e2 := first.after.(child := Some(other));
            Inv(cfg, e2) && first.result.Success? ==>
              var second := Resolve(cfg, e2, service);
              second.result.Success? ==> second.result.value != first.result.value
  {
    var first := Resolve(cfg, e, service);
    var e2 := first.after.(child := Some(other));
    if Inv(cfg, e2) && first.result.Success? {
      var second := Resolve(cfg, e2, service);
      if service in e.Here().instances {
        CachedInstanceReturned(cfg, e, service);
      } else {
        FirstResolveStores(cfg, e, service);
      }
      FirstResolveStores(cfg, e2, service);
      CreationPushesIffDisposable(cfg, e2, service);
    }
  }

  // ---------------------------------------------------------------------
  // Singleton

  /** A child scope hands a Singleton request to the root scope: the result
      and the new container state are the root's, and the child's own cache
      and disposal stack stay as they were. */
  lemma SingletonDelegatesToRoot(cfg: Config, e: Engine, service: TypeId)
    requires WellFormed(cfg) && Inv(cfg, e) && e.child.Some?
    requires LifetimeIs(cfg, service, Singleton)
    ensures var s := Resolve(cfg, e, service);
            var atRoot := Resolve(cfg, e.(child := None), service);
            s.result == atRoot.result && s.after == atRoot.after.(child := e.child)
  {
  }

  /** Once a Singleton key is resolved from one child scope, every other
      scope of the container, and the root, gets that same object, and the
      request changes nothing. */
  lemma {:induction false} SingletonSharedAcrossScopes(cfg: Config, e: Engine, service: TypeId, other: Option<ScopeState>)
    requires WellFormed(cfg) && Inv(cfg, e) && e.child.Some?
    requires LifetimeIs(cfg, service, Singleton)
    ensures var first := Resolve(cfg, e, service);
            var e2 := first.after.(child := other);
            Inv(cfg, e2) && first.result.Success? ==>
              Resolve(cfg, e2, service) == Step(first.result, e2)
  {
    var first := Resolve(cfg, e, service);
    var e2 := first.after.(child := other);
    var atRoot := e.(child := None);
    if Inv(cfg, e2) && first.result.Success? {
      SingletonDelegatesToRoot(cfg, e, service);
      if service in atRoot.root.instances {
        CachedInstanceReturned(cfg, atRoot, service);
      } else {
        FirstResolveStores(cfg, atRoot, service);
      }
      assert service in e2.root.instances && e2.root.instances[service] == first.result.value;
      CachedInstanceReturned(cfg, e2.(child := None), service);
    }
  }
}
