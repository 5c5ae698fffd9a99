/** The resolution engine of the container as functions over a value of its
    state. `Containers.Scope.Resolve` and the methods it calls are proved to
    change the objects' fields exactly as these functions change an `Engine`. */
module Resolution {
  import opened Wrappers
  import opened Descriptors

  /** What a container is built with: the descriptor map, the activation
      builder (which maps an implementation type to its constructor), and a
      ranking of service keys under which every constructor parameter ranks
      below the service that needs it. The ranking is only there to show that
      resolution terminates; the container itself has no cycle check. */
  datatype Config = Config(descriptors: map<TypeId, ServiceDescriptor>, builder: TypeId -> Constructor, rank: TypeId -> nat)

  /** `Container.FindDescriptor`: `TryGetValue`, which leaves null behind
      when the key is missing. */
  function FindDescriptor(descriptors: map<TypeId, ServiceDescriptor>, service: TypeId): (r: Option<ServiceDescriptor>)
    ensures r.None? <==> service !in descriptors
    ensures r.Some? ==> r.value == descriptors[service]
  {
    if service in descriptors then Some(descriptors[service]) else None
  }

  /** `Container.BuildActivation`: a missing key throws; an instance descriptor
      gives an activator that ignores the scope and returns the instance; a
      factory descriptor gives the factory itself; only a type descriptor goes
      to the activation builder. */
  function BuildActivation(descriptors: map<TypeId, ServiceDescriptor>, builder: TypeId -> Constructor, service: TypeId): (r: Result<Activation, Exception>)
    ensures r.Success? <==> service in descriptors
    ensures r.Failure? ==> r.error == InvalidOperation(service)
    ensures service in descriptors && descriptors[service].InstanceBased? ==>
              r.value == Constant(descriptors[service].instance)
    ensures service in descriptors && descriptors[service].FactoryBased? ==>
              r.value == descriptors[service].factory
    ensures service in descriptors && descriptors[service].TypeBased? ==>
              var impl := descriptors[service].implementationType;
              r.value == Allocate(impl, builder(impl).parameters, builder(impl).disposable, builder(impl).asyncDisposable)
  {
    if service !in descriptors then Failure(InvalidOperation(service))
    else match descriptors[service]
      case InstanceBased(_, _, instance) => Success(Constant(instance))
      case FactoryBased(_, _, factory) => Success(factory)
      case TypeBased(_, _, impl) =>
        var ctor := builder(impl);
        Success(Allocate(impl, ctor.parameters, ctor.disposable, ctor.asyncDisposable))
  }

  /** The service keys that the activator built for `service` resolves. */
  ghost function Dependencies(cfg: Config, service: TypeId): seq<TypeId> {
    match BuildActivation(cfg.descriptors, cfg.builder, service)
    case Success(Allocate(_, deps, _, _)) => deps
    case _ => []
  }

  /** The dependency graph of the registered services has no cycle. */
  ghost predicate Acyclic(cfg: Config) {
    forall service, i :: service in cfg.descriptors && 0 <= i < |Dependencies(cfg, service)| ==>
      cfg.rank(Dependencies(cfg, service)[i]) < cfg.rank(service)
  }

  /** Objects handed to the container ready-made were allocated outside it. */
  ghost predicate PreBuilt(d: ServiceDescriptor) {
    match d
    case InstanceBased(_, _, instance) => instance.id.External?
    case FactoryBased(_, _, factory) => factory.Constant? ==> factory.instance.id.External?
    case TypeBased(_, _, _) => true
  }

  ghost predicate WellFormed(cfg: Config) {
    Acyclic(cfg) && forall service :: service in cfg.descriptors ==> PreBuilt(cfg.descriptors[service])
  }

  /** The fields of one scope: `_scopedInstances` and `_disposables` (a stack
      whose top is the end of the sequence). */
  datatype ScopeState = ScopeState(instances: map<TypeId, Obj>, disposables: seq<Obj>)

  /** The mutable state one resolution can touch: the container's activator
      table and allocation counter, the root scope, and the child scope the
      request came in on (`None` when it came in on the root scope itself). */
  datatype Engine = Engine(activators: map<TypeId, Activation>, nextId: nat, root: ScopeState, child: Option<ScopeState>)
  {
    /** The scope the request is running on. */
    function Here(): ScopeState {
      if child.None? then root else child.value
    }

    function WithHere(s: ScopeState): Engine {
      if child.None? then this.(root := s) else this.(child := Some(s))
    }
  }

  /** The outcome of one operation and the state it leaves behind. */
  datatype Step<T> = Step(result: Result<T, Exception>, after: Engine)

  /** The object was allocated before serial number `nextId` was handed out. */
  predicate MintedBefore(o: Obj, nextId: nat) {
    o.id.Minted? ==> o.id.serial < nextId
  }

  /** Every memoised activator is the one `BuildActivation` builds. */
  ghost predicate Consistent(cfg: Config, activators: map<TypeId, Activation>) {
    forall service :: service in activators ==> BuildActivation(cfg.descriptors, cfg.builder, service) == Success(activators[service])
  }

  /** The instance cache of the root holds only Scoped and Singleton keys,
      that of a child scope only Scoped keys. */
  ghost predicate CacheHolds(cfg: Config, s: ScopeState, isRoot: bool) {
    forall service :: service in s.instances ==>
      service in cfg.descriptors &&
      if isRoot then cfg.descriptors[service].lifetime != Transient
      else cfg.descriptors[service].lifetime == Scoped
  }

  /** Everything on the disposal stack is disposable, and every object the
      scope holds was allocated before `nextId`. */
  ghost predicate Owned(s: ScopeState, nextId: nat) {
    (forall service :: service in s.instances ==> MintedBefore(s.instances[service], nextId)) &&
    (forall i :: 0 <= i < |s.disposables| ==> s.disposables[i].IsDisposable() && MintedBefore(s.disposables[i], nextId))
  }

  ghost predicate Inv(cfg: Config, e: Engine) {
    Consistent(cfg, e.activators) &&
    CacheHolds(cfg, e.root, true) && Owned(e.root, e.nextId) &&
    (e.child.Some? ==> CacheHolds(cfg, e.child.value, false) && Owned(e.child.value, e.nextId))
  }

  /** Cache entries are never removed or overwritten; the disposal stack is
      only pushed onto. */
  ghost predicate ScopeGrows(s: ScopeState, t: ScopeState) {
    (forall service :: service in s.instances ==> service in t.instances && t.instances[service] == s.instances[service]) &&
    |s.disposables| <= |t.disposables| && t.disposables[..|s.disposables|] == s.disposables
  }

  /** The activator table only grows and the allocation counter never goes
      back. */
  ghost predicate Grows(e: Engine, f: Engine) {
    (forall service :: service in e.activators ==> service in f.activators && f.activators[service] == e.activators[service]) &&
    e.nextId <= f.nextId &&
    ScopeGrows(e.root, f.root) &&
    (e.child.Some? <==> f.child.Some?) &&
    (e.child.Some? ==> ScopeGrows(e.child.value, f.child.value))
  }

  /** The keys that got a cache entry from `e` to `f` all rank below `bound`. */
  ghost predicate NewKeysBelow(cfg: Config, e: Engine, f: Engine, bound: nat) {
    (forall service :: service in f.root.instances && service !in e.root.instances ==> cfg.rank(service) < bound) &&
    (e.child.Some? && f.child.Some? ==>
       forall service :: service in f.child.value.instances && service !in e.child.value.instances ==> cfg.rank(service) < bound)
  }

  lemma GrowsTransitive(e: Engine, f: Engine, g: Engine)
    requires Grows(e, f) && Grows(f, g)
    ensures Grows(e, g)
  {
    assert g.root.disposables[..|e.root.disposables|] == f.root.disposables[..|e.root.disposables|];
    if e.child.Some? {
      assert g.child.value.disposables[..|e.child.value.disposables|] == f.child.value.disposables[..|e.child.value.disposables|];
    }
  }

  /** `Scope.Resolve` on the scope `e.Here()`. */
  ghost function Resolve(cfg: Config, e: Engine, service: TypeId): (s: Step<Obj>)
    requires WellFormed(cfg) && Inv(cfg, e)
    ensures Inv(cfg, s.after) && Grows(e, s.after)
    ensures NewKeysBelow(cfg, e, s.after, cfg.rank(service) + 1)
    ensures s.result.Success? ==> MintedBefore(s.result.value, s.after.nextId)
    decreases cfg.rank(service), 5, if e.child.None? then 0 else 1
  {
    match FindDescriptor(cfg.descriptors, service)
    case None => Step(Failure(NullReference(service)), e)
    case Some(descriptor) =>
      if descriptor.lifetime == Transient then
        CreateInstanceInternal(cfg, e, service)
      else if descriptor.lifetime == Scoped || e.child.None? then
        // GetOrAdd: the cached object, else create one and add it
        var here := e.Here();
        if service in here.instances then Step(Success(here.instances[service]), e)
        else
          var s := CreateInstanceInternal(cfg, e, service);
          if s.result.Failure? then s
          else
            var now := s.after.Here();
            Step(s.result, s.after.WithHere(now.(instances := now.instances[service := s.result.value])))
      else
        var s := Resolve(cfg, e.(child := None), service);
        Step(s.result, s.after.(child := e.child))
  }

  /** `Scope.CreateInstanceInternal`: create, and push the result onto this
      scope's disposal stack when it is disposable. */
  ghost function CreateInstanceInternal(cfg: Config, e: Engine, service: TypeId): (s: Step<Obj>)
    requires WellFormed(cfg) && Inv(cfg, e)
    ensures Inv(cfg, s.after) && Grows(e, s.after)
    ensures NewKeysBelow(cfg, e, s.after, cfg.rank(service))
    ensures s.result.Success? ==> MintedBefore(s.result.value, s.after.nextId)
    decreases cfg.rank(service), 3, 0
  {
    var s := CreateInstance(cfg, e, service);
    if s.result.Success? && s.result.value.IsDisposable() then
      var here := s.after.Here();
      Step(s.result, s.after.WithHere(here.(disposables := here.disposables + [s.result.value])))
    else s
  }

  /** `Container.CreateInstance`: get or build the activator for the key
      (`GetOrAdd` on the activator table), then invoke it on the scope. */
  ghost function CreateInstance(cfg: Config, e: Engine, service: TypeId): (s: Step<Obj>)
    requires WellFormed(cfg) && Inv(cfg, e)
    ensures Inv(cfg, s.after) && Grows(e, s.after)
    ensures NewKeysBelow(cfg, e, s.after, cfg.rank(service))
    ensures s.result.Success? ==> MintedBefore(s.result.value, s.after.nextId)
    decreases cfg.rank(service), 2, 0
  {
    if service in e.activators then
      Activate(cfg, e, service, e.activators[service])
    else
      match BuildActivation(cfg.descriptors, cfg.builder, service)
      case Failure(error) => Step(Failure(error), e)
      case Success(activator) => Activate(cfg, e.(activators := e.activators[service := activator]), service, activator)
  }

  /** Invoking the activator of `service` on the scope `e.Here()`. */
  ghost function Activate(cfg: Config, e: Engine, service: TypeId, activator: Activation): (s: Step<Obj>)
    requires WellFormed(cfg) && Inv(cfg, e)
    requires BuildActivation(cfg.descriptors, cfg.builder, service) == Success(activator)
    ensures Inv(cfg, s.after) && Grows(e, s.after)
    ensures NewKeysBelow(cfg, e, s.after, cfg.rank(service))
    ensures s.result.Success? ==> MintedBefore(s.result.value, s.after.nextId)
    decreases cfg.rank(service), 1, 0
  {
    match activator
    case Constant(instance) => Step(Success(instance), e)
    case Allocate(impl, deps, disposable, asyncDisposable) =>
      assert Dependencies(cfg, service) == deps;
      var args := ResolveArguments(cfg, e, service, deps);
      if args.result.Failure? then Step(Failure(args.result.error), args.after)
      else
        var made := Obj(Minted(args.after.nextId), impl, disposable, asyncDisposable, args.result.value);
        Step(Success(made), args.after.(nextId := args.after.nextId + 1))
  }

  /** Resolving the constructor parameters `deps` of `service`, left to right,
      from the same scope; the first failure propagates. */
  ghost function ResolveArguments(cfg: Config, e: Engine, service: TypeId, deps: seq<TypeId>): (s: Step<seq<Obj>>)
    requires WellFormed(cfg) && Inv(cfg, e)
    requires forall i :: 0 <= i < |deps| ==> cfg.rank(deps[i]) < cfg.rank(service)
    ensures Inv(cfg, s.after) && Grows(e, s.after)
    ensures NewKeysBelow(cfg, e, s.after, cfg.rank(service))
    ensures s.result.Success? ==> |s.result.value| == |deps|
    decreases cfg.rank(service), 0, |deps|
  {
    if deps == [] then Step(Success([]), e)
    else
      var first := Resolve(cfg, e, deps[0]);
      if first.result.Failure? then Step(Failure(first.result.error), first.after)
      else
        var rest := ResolveArguments(cfg, first.after, service, deps[1..]);
        GrowsTransitive(e, first.after, rest.after);
        if rest.result.Failure? then rest
        else Step(Success([first.result.value] + rest.result.value), rest.after)
  }
}
