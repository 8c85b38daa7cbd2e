/**
  * Callbacks from Rust in the life of a machine: the stores of CgoBlockstores.dfy reached through the
  * registry of Registries.dfy at the steps of Lifecycle.dfy.
  */
module Callbacks {
  import opened Common
  import opened Cids
  import opened Framing
  import opened CgoBlockstores
  import opened Registries
  import opened Lifecycle

  /** What Rust may ask of its blockstore; `answers` says whether the client's store answers a read. */
  datatype Operation =
    | Get(k: Cid, answers: bool)
    | Has(k: Cid, answers: bool)
    | PutKeyed(k: Cid, data: Bytes)
    | PutManyKeyed(blocks: seq<Block>)

  /** A callback of a run with fewer than 2^64 registrations. */
  ghost predicate IsCallback(steps: seq<Step>, k: nat) {
    && Exec(steps).Some? && |Exec(steps).value.machines| < TWO_64
    && k < |steps| && steps[k].Callback?
  }

  /** The machine that calls back. */
  ghost function Caller(steps: seq<Step>, k: nat): Machine
    requires IsCallback(steps, k)
  {
    Prefix(steps, k);
    Exec(steps[..k]).value.machines[steps[k].m]
  }

  /** The store behind the caller's handle, with the registry as it is when it calls back. */
  ghost predicate Serves(go: GoStore, steps: seq<Step>, k: nat)
    requires IsCallback(steps, k)
    reads go.registry
  {
    Prefix(steps, k);
    go.registry.Contents() == Exec(steps[..k]).value.table && go.handle == Caller(steps, k).handle
  }

  method Perform(store: CgoBlockstore, op: Operation) returns (panicked: bool)
    requires store.go.Valid()
    modifies store.go
    ensures store.go.Valid()
    ensures panicked <==> !store.go.Registered() && op != PutManyKeyed([])
  {
    match op {
      case Get(k, answers) =>
        var r := store.Get(k, answers);
        panicked := r.Panicked?;
      case Has(k, answers) =>
        var r := store.Has(k, answers);
        panicked := r.Panicked?;
      case PutKeyed(k, data) =>
        var r := store.PutKeyed(k, data);
        panicked := r.Panicked?;
      case PutManyKeyed(blocks) =>
        var r, _ := store.PutManyKeyed(blocks);
        panicked := r.Panicked?;
    }
  }

  /** At every callback of a run the handle leads somewhere, unless the machine's client registered nil. */
  lemma {:induction false} CallbackRegistered(steps: seq<Step>, k: nat, go: GoStore)
    requires IsCallback(steps, k) && Serves(go, steps, k)
    ensures go.Registered() <==> Caller(steps, k).externs != NilExterns
  {
    CallbacksFindExterns(steps, k);
    hide Exec;
  }

  /**
    * In every interleaving of machines, calls and finalizers, an operation at a callback panics only if
    * the machine's client registered nil, and then it does, unless it is a list of no blocks.
    */
  method PerformAtCallback(ghost steps: seq<Step>, ghost k: nat, store: CgoBlockstore, op: Operation)
    returns (panicked: bool)
    requires IsCallback(steps, k) && Serves(store.go, steps, k) && store.go.Valid()
    modifies store.go
    ensures store.go.Valid()
    ensures panicked <==> Caller(steps, k).externs == NilExterns && op != PutManyKeyed([])
  {
    CallbackRegistered(steps, k, store.go);
    hide Exec;
    panicked := Perform(store, op);
  }
}
