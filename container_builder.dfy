/** The builder that collects service descriptors, first registration of a
    key winning, and builds a container from them. */
module Building {
  import opened Descriptors
  import opened Resolution
  import opened Containers

  /** The list after `descriptor` is offered to `Register`: appended when its
      service type is new, ignored otherwise. */
  function Accept(list: seq<ServiceDescriptor>, descriptor: ServiceDescriptor): seq<ServiceDescriptor> {
    if descriptor.serviceType in ServiceTypes(list) then list else list + [descriptor]
  }

  /** The list after offering every descriptor of `history`, in order, to a
      new builder. */
  function FirstWins(history: seq<ServiceDescriptor>): seq<ServiceDescriptor> {
    if history == [] then []
    else Accept(FirstWins(history[..|history| - 1]), history[|history| - 1])
  }

  /** `history[i]` is the first registration of its service type. */
  ghost predicate FirstOfItsKey(history: seq<ServiceDescriptor>, i: int) {
    0 <= i < |history| && forall j :: 0 <= j < i ==> history[j].serviceType != history[i].serviceType
  }

  /** The accepted list never has two descriptors for one service type, and
      has one for every service type ever registered. */
  lemma {:induction false} FirstWinsDistinct(history: seq<ServiceDescriptor>)
    ensures DistinctServiceTypes(FirstWins(history))
    ensures ServiceTypes(FirstWins(history)) == ServiceTypes(history)
  {
    if history != [] {
      var front := history[..|history| - 1];
      var last := history[|history| - 1];
      FirstWinsDistinct(front);
      assert ServiceTypes(history) == ServiceTypes(front) + {last.serviceType} by {
        assert forall i :: 0 <= i < |front| ==> front[i] == history[i];
      }
      var list := FirstWins(front);
      if last.serviceType !in ServiceTypes(list) {
        assert ServiceTypes(list + [last]) == ServiceTypes(list) + {last.serviceType} by {
          assert forall i :: 0 <= i < |list| ==> (list + [last])[i] == list[i];
          assert (list + [last])[|list|] == last;
        }
        forall i, j | 0 <= i < j < |list + [last]|
          ensures (list + [last])[i].serviceType != (list + [last])[j].serviceType
        {
          if j == |list| {
            assert list[i].serviceType in ServiceTypes(list);
          }
        }
      }
    }
  }

  /** Accepted descriptors are never removed nor moved: what is accepted now
      is a prefix of what is accepted after any further registrations. */
  lemma {:induction false} FirstWinsKeepsOrder(history: seq<ServiceDescriptor>, more: seq<ServiceDescriptor>)
    ensures |FirstWins(history)| <= |FirstWins(history + more)|
    ensures FirstWins(history + more)[..|FirstWins(history)|] == FirstWins(history)
  {
    if more != [] {
      var front := history + more[..|more| - 1];
      assert (history + more)[..|history + more| - 1] == front;
      FirstWinsKeepsOrder(history, more[..|more| - 1]);
      var list := FirstWins(front);
      assert FirstWins(history + more) == Accept(list, more[|more| - 1]);
      assert Accept(list, more[|more| - 1])[..|list|] == list;
    } else {
      assert history + more == history;
    }
  }

  /** The first registration of every key is the one in the accepted list. */
  lemma {:induction false} FirstRegistrationWins(history: seq<ServiceDescriptor>, i: int)
    requires FirstOfItsKey(history, i)
    ensures history[i] in FirstWins(history)
    ensures DistinctServiceTypes(FirstWins(history))
    ensures ToDescriptorMap(FirstWins(history))[history[i].serviceType] == history[i]
  {
    FirstWinsDistinct(history);
    var prefix := history[..i];
    var upto := history[..i + 1];
    FirstWinsDistinct(prefix);
    assert history[i].serviceType !in ServiceTypes(prefix) by {
      forall j | 0 <= j < |prefix| ensures prefix[j].serviceType != history[i].serviceType {
        assert prefix[j] == history[j];
      }
    }
    assert upto[..|upto| - 1] == prefix;
    assert FirstWins(upto) == FirstWins(prefix) + [history[i]];
    FirstWinsKeepsOrder(upto, history[i + 1..]);
    assert upto + history[i + 1..] == history;
    var list := FirstWins(history);
    assert list[|FirstWins(prefix)|] == history[i];
  }

  class ContainerBuilder {
    /** `_descriptors`. */
    var descriptors: seq<ServiceDescriptor>
    /** Every descriptor ever offered to `Register`, in order. */
    ghost var history: seq<ServiceDescriptor>
    /** `_builder`, handed on to the container. */
    const activationBuilder: TypeId -> Constructor

    ghost predicate Valid()
      reads this
    {
      descriptors == FirstWins(history) && DistinctServiceTypes(descriptors)
    }

    constructor (activationBuilder: TypeId -> Constructor)
      ensures Valid() && descriptors == [] && history == []
      ensures this.activationBuilder == activationBuilder
    {
      this.activationBuilder := activationBuilder;
      descriptors := [];
      history := [];
    }

    /** `Register`: append the descriptor unless one with its service type is
        already in the list; a duplicate only produces a console message. */
    method Register(descriptor: ServiceDescriptor)
      requires Valid()
      modifies this`descriptors, this`history
      ensures Valid() && history == old(history) + [descriptor]
      ensures descriptor.serviceType !in ServiceTypes(old(descriptors)) ==> descriptors == old(descriptors) + [descriptor]
      ensures descriptor.serviceType in ServiceTypes(old(descriptors)) ==> descriptors == old(descriptors)
    {
      if descriptor.serviceType !in ServiceTypes(descriptors) {
        descriptors := descriptors + [descriptor];
      }
      history := history + [descriptor];
      assert history[..|history| - 1] == old(history);
      FirstWinsDistinct(history);
    }

    /** `Build`: a container over the accepted descriptors. The ghost `rank`
        witnesses that the registered services have no dependency cycle. */
    method Build(ghost rank: TypeId -> nat) returns (c: Container)
      requires Valid()
      requires WellFormed(Config(ToDescriptorMap(descriptors), activationBuilder, rank))
      ensures fresh(c) && c.Valid() && fresh(c.root)
      ensures c.descriptors.Keys == ServiceTypes(history)
      ensures forall i :: FirstOfItsKey(history, i) ==> c.descriptors[history[i].serviceType] == history[i]
      ensures c.builder == activationBuilder && c.activators == map[]
      ensures c.root.State() == ScopeState(map[], [])
    {
      c := new Container(descriptors, activationBuilder, rank);
      FirstWinsDistinct(history);
      forall i | FirstOfItsKey(history, i)
        ensures c.descriptors[history[i].serviceType] == history[i]
      {
        FirstRegistrationWins(history, i);
      }
    }
  }
}
