/** Which release each entry of a disposal stack receives, and in what order. */
module Disposal {
  import opened Descriptors

  /** `IDisposable.Dispose` or `IAsyncDisposable.DisposeAsync`. */
  datatype ReleaseKind = Synchronous | Asynchronous

  /** One call that releases one object. */
  datatype Release = Release(target: Obj, kind: ReleaseKind)

  /** The release a disposable object gets: the asynchronous path takes
      `DisposeAsync` when the object has it, the synchronous path `Dispose`
      when the object has it; otherwise the other one. */
  function Preferred(o: Obj, preferAsync: bool): ReleaseKind {
    if preferAsync then (if o.asyncDisposable then Asynchronous else Synchronous)
    else (if o.disposable then Synchronous else Asynchronous)
  }

  /** The releases one entry of the stack gets: one if it is disposable,
      none otherwise. */
  function ReleaseOf(o: Obj, preferAsync: bool): (r: seq<Release>)
    ensures o.IsDisposable() ==> r == [Release(o, Preferred(o, preferAsync))]
    ensures !o.IsDisposable() ==> r == []
  {
    if preferAsync then
      if o.asyncDisposable then [Release(o, Asynchronous)]
      else if o.disposable then [Release(o, Synchronous)]
      else []
    else
      if o.disposable then [Release(o, Synchronous)]
      else if o.asyncDisposable then [Release(o, Asynchronous)]
      else []
  }

  /** Enumerating the stack `ledger` (bottom first, top last) from its top
      down, and releasing each entry. */
  function Teardown(ledger: seq<Obj>, preferAsync: bool): seq<Release> {
    if ledger == [] then []
    else Teardown(ledger[1..], preferAsync) + ReleaseOf(ledger[0], preferAsync)
  }

  /** Every entry on the stack is disposable, as a scope keeps it. */
  predicate Settled(ledger: seq<Obj>) {
    forall i :: 0 <= i < |ledger| ==> ledger[i].IsDisposable()
  }

  /** Teardown releases every entry once, the last pushed first. */
  lemma {:induction false} TeardownIsLifo(ledger: seq<Obj>, preferAsync: bool)
    requires Settled(ledger)
    ensures var released := Teardown(ledger, preferAsync);
            |released| == |ledger| &&
            forall j :: 0 <= j < |released| ==>
              released[j] == Release(ledger[|ledger| - 1 - j], Preferred(ledger[|ledger| - 1 - j], preferAsync))
  {
    if ledger != [] {
      TeardownIsLifo(ledger[1..], preferAsync);
      var rest := Teardown(ledger[1..], preferAsync);
      assert Teardown(ledger, preferAsync) == rest + [Release(ledger[0], Preferred(ledger[0], preferAsync))];
      forall j | 0 <= j < |rest|
        ensures rest[j] == Release(ledger[|ledger| - 1 - j], Preferred(ledger[|ledger| - 1 - j], preferAsync))
      {
        assert ledger[1..][|ledger| - 2 - j] == ledger[|ledger| - 1 - j];
      }
    }
  }
}
