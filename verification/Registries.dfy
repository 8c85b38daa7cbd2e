/** The handle registry of cgo/registry.go and the machine object of fvm.go that holds a handle. */
module Registries {
  import opened Common
  import opened BigInts

  /** A client's externs, told apart by `id`, or the nil that a client may register as well. */
  datatype Externs = NilExterns | Externs(id: nat)

  datatype Table = Table(entries: map<u64, Externs>, nextId: u64)

  /** The counter is a uint64 and wraps. */
  function Add(t: Table, e: Externs): Table {
    Table(t.entries[t.nextId := e], (t.nextId + 1) % TWO_64)
  }

  function Remove(t: Table, handle: u64): Table {
    t.(entries := t.entries - {handle})
  }

  /** A handle that is not in the table gives nil, which its callers take for an invalid handle. */
  function Find(t: Table, handle: u64): Externs {
    if handle in t.entries then t.entries[handle] else NilExterns
  }

  /** The guarded globals; each method holds the lock throughout. */
  class Registry {
    var entries: map<u64, Externs>
    var nextId: u64

    function Contents(): Table
      reads this
    {
      Table(entries, nextId)
    }

    constructor ()
      ensures Contents() == Table(map[], 0)
    {
      entries, nextId := map[], 0;
    }

    method Register(externs: Externs) returns (id: u64)
      modifies this
      ensures Contents() == Add(old(Contents()), externs)
      ensures id == old(nextId) && id in entries && Find(Contents(), id) == externs
    {
      id := nextId;
      nextId := (nextId + 1) % TWO_64;
      entries := entries[id := externs];
    }

    method Unregister(handle: u64)
      modifies this
      ensures Contents() == Remove(old(Contents()), handle)
      ensures Find(Contents(), handle) == NilExterns
    {
      entries := entries - {handle};
    }

    method Lookup(handle: u64) returns (externs: Externs)
      ensures externs == Find(Contents(), handle)
    {
      externs := if handle in entries then entries[handle] else NilExterns;
    }
  }

  /** A machine of the foreign library. */
  datatype Executor = Executor(id: nat)

  datatype CreateError = InvalidBaseFee | InvalidCircSupply | MachineError

  class FVM {
    var executor: Option<Executor>
    const exHandle: u64
    const registry: Registry

    constructor (e: Option<Executor>, handle: u64, r: Registry)
      ensures executor == e && exHandle == handle && registry == r
    {
      executor, exHandle, registry := e, handle, r;
    }

    /**
      * `machine` is the foreign constructor, given the two amounts as Rust packs them and the handle.
      * When it fails the handle stays registered.
      */
    static method CreateFVM(registry: Registry, externs: Externs, baseFee: BigInt, circSupply: BigInt,
                            machine: (nat, nat, u64) -> Option<Executor>) returns (r: Result<FVM, CreateError>)
      requires Normal(baseFee) && Normal(circSupply)
      modifies registry
      ensures r.Ok? <==> && 0 <= Value(baseFee) < TWO_128 && 0 <= Value(circSupply) < TWO_128
                         && machine(Value(baseFee), Value(circSupply), old(registry.nextId)).Some?
      ensures r.Err? ==> r.error == if !(0 <= Value(baseFee) < TWO_128) then InvalidBaseFee
                                    else if !(0 <= Value(circSupply) < TWO_128) then InvalidCircSupply
                                    else MachineError
      ensures r.Ok? ==> && fresh(r.value) && r.value.registry == registry && r.value.exHandle == old(registry.nextId)
                        && r.value.executor == machine(Value(baseFee), Value(circSupply), old(registry.nextId))
      ensures registry.Contents()
           == if r.Ok? || r.error == MachineError then Add(old(registry.Contents()), externs)
              else old(registry.Contents())
    {
      SplitIff(baseFee);
      SplitIff(circSupply);
      var fee := Split(baseFee);
      if fee.Err? {
        return Err(InvalidBaseFee);
      }
      var supply := Split(circSupply);
      if supply.Err? {
        return Err(InvalidCircSupply);
      }
      var exHandle := registry.Register(externs);
      var executor := machine(Pack(fee.value), Pack(supply.value), exHandle);
      if executor.None? {
        return Err(MachineError);
      }
      var fvm := new FVM(executor, exHandle, registry);
      return Ok(fvm);
    }

    /** `destroyed` is the executor this run handed to the foreign destructor; a second run has none. */
    method Finalizer() returns (destroyed: Option<Executor>)
      modifies this, registry
      ensures executor == None && destroyed == old(executor)
      ensures registry.Contents()
           == if old(executor).None? then old(registry.Contents()) else Remove(old(registry.Contents()), exHandle)
    {
      if executor.None? {
        return None;
      }
      destroyed := executor;
      executor := None;
      registry.Unregister(exHandle);
    }
  }
}
