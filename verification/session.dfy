/**
  The provider's view of the enclave's lifetime: loaded or not. Initialize
  loads the enclave when it is not loaded yet; Finalize unloads it when it
  is. Whether a load attempt succeeds is decided outside this layer and is a
  parameter here. The other calls do not consult this state.
 */
module Session {
  import opened EnclaveHsm

  datatype State = Unloaded | Loaded

  datatype InitResult = InitResult(rv: Rv, state: State)

  /** `loadSucceeds` is the result of the load attempt; it is consulted only when nothing is loaded. */
  function Initialize(s: State, loadSucceeds: bool): (r: InitResult)
    ensures r.rv == Ok <==> r.state == Loaded
    ensures r.rv != Ok ==> r.rv == DeviceError && r.state == Unloaded && s == Unloaded
    ensures s == Loaded ==> r == InitResult(Ok, Loaded)
    ensures s == Unloaded ==> (r.state == Loaded <==> loadSucceeds)
  {
    match s
    case Loaded => InitResult(Ok, Loaded)
    case Unloaded => if loadSucceeds then InitResult(Ok, Loaded) else InitResult(DeviceError, Unloaded)
  }

  function Finalize(s: State): (t: State)
    ensures t == Unloaded
  {
    match s
    case Loaded => Unloaded
    case Unloaded => s
  }

  /** One lifecycle call, with the outcome of the load attempt for Initialize. */
  datatype LifecycleCall = Init(loadSucceeds: bool) | Fini

  function Step(s: State, c: LifecycleCall): State {
    match c
    case Init(ok) => Initialize(s, ok).state
    case Fini => Finalize(s)
  }

  /** The state after a sequence of lifecycle calls. */
  function Replay(s: State, calls: seq<LifecycleCall>): State
    decreases |calls|
  {
    if calls == [] then s else Replay(Step(s, calls[0]), calls[1..])
  }

  /** How many of the calls actually bring an enclave up. */
  function Loads(s: State, calls: seq<LifecycleCall>): (n: nat)
    ensures n <= |calls|
    decreases |calls|
  {
    if calls == [] then 0
    else
      var t := Step(s, calls[0]);
      (if s == Unloaded && t == Loaded then 1 else 0) + Loads(t, calls[1..])
  }

  /** How many of the calls actually tear an enclave down. */
  function Unloads(s: State, calls: seq<LifecycleCall>): (n: nat)
    ensures n <= |calls|
    decreases |calls|
  {
    if calls == [] then 0
    else
      var t := Step(s, calls[0]);
      (if s == Loaded && t == Unloaded then 1 else 0) + Unloads(t, calls[1..])
  }

  function Live(s: State): nat {
    if s == Loaded then 1 else 0
  }

  /**
    Over any sequence of lifecycle calls, the loads and the unloads differ by
    the change in the number of live enclaves: every load is matched by a
    later unload or by the enclave still being up at the end.
   */
  lemma {:induction false} LoadsBalanceUnloads(s: State, calls: seq<LifecycleCall>)
    ensures Loads(s, calls) + Live(s) == Unloads(s, calls) + Live(Replay(s, calls))
    decreases |calls|
  {
    if calls != [] {
      LoadsBalanceUnloads(Step(s, calls[0]), calls[1..]);
    }
  }

  /** How many of the calls are an Initialize whose load attempt succeeds. */
  function SuccessfulInits(calls: seq<LifecycleCall>): nat
    decreases |calls|
  {
    if calls == [] then 0 else (if calls[0] == Init(true) then 1 else 0) + SuccessfulInits(calls[1..])
  }

  /** How many of the calls are a Finalize. */
  function Finalizes(calls: seq<LifecycleCall>): nat
    decreases |calls|
  {
    if calls == [] then 0 else (if calls[0] == Fini then 1 else 0) + Finalizes(calls[1..])
  }

  /**
    Only an Initialize whose load attempt succeeds brings an enclave up, and
    only a Finalize tears one down; an Initialize on a loaded enclave loads
    nothing, so there are never more loads than successful load attempts.
   */
  lemma {:induction false} LoadsNeedSuccessfulInits(s: State, calls: seq<LifecycleCall>)
    ensures Loads(s, calls) <= SuccessfulInits(calls)
    ensures Unloads(s, calls) <= Finalizes(calls)
    decreases |calls|
  {
    if calls != [] {
      LoadsNeedSuccessfulInits(Step(s, calls[0]), calls[1..]);
    }
  }

  /** No Finalize among the calls. */
  predicate NoFinalize(calls: seq<LifecycleCall>) {
    forall i :: 0 <= i < |calls| ==> calls[i] != Fini
  }

  /**
    The enclave is up after the calls exactly when some Initialize with a
    successful load attempt is followed by no Finalize, or it was up at the
    start and no Finalize came at all.
   */
  predicate UpAfter(s: State, calls: seq<LifecycleCall>) {
    || (s == Loaded && NoFinalize(calls))
    || exists i :: 0 <= i < |calls| && calls[i] == Init(true) && NoFinalize(calls[i + 1..])
  }

  /** `UpAfter` looks through the first call the way `Step` does. */
  lemma UpAfterStep(s: State, calls: seq<LifecycleCall>)
    requires calls != []
    ensures UpAfter(s, calls) <==> UpAfter(Step(s, calls[0]), calls[1..])
  {
  }

  /** Replaying the lifecycle calls leaves the enclave up exactly when `UpAfter` says so. */
  lemma {:induction false} ReplayUpIff(s: State, calls: seq<LifecycleCall>)
    ensures Replay(s, calls) == Loaded <==> UpAfter(s, calls)
    decreases |calls|
  {
    if calls != [] {
      UpAfterStep(s, calls);
      ReplayUpIff(Step(s, calls[0]), calls[1..]);
    }
  }

  /** Initialize on a loaded enclave changes nothing and never loads, whatever the load attempt would do. */
  lemma InitializeWhenLoadedIsNoOp(loadSucceeds: bool, calls: seq<LifecycleCall>)
    ensures Replay(Loaded, [Init(loadSucceeds)] + calls) == Replay(Loaded, calls)
    ensures Loads(Loaded, [Init(loadSucceeds)] + calls) == Loads(Loaded, calls)
  {
  }

  /** Finalize twice is Finalize once, and neither call after the first tears anything down. */
  lemma FinalizeIdempotent(s: State, calls: seq<LifecycleCall>)
    ensures Replay(s, [Fini, Fini] + calls) == Replay(s, [Fini] + calls)
    ensures Unloads(s, [Fini, Fini] + calls) == Unloads(s, [Fini] + calls)
  {
  }
}
