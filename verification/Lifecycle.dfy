/**
  * Interleavings of machine creation, calls, callbacks and finalizers (fvm.go over cgo/registry.go).
  * Each step is one registry operation under its lock, or one event at which control changes hands.
  */
module Lifecycle {
  import opened Common
  import opened Registries

  datatype Phase =
    | Creating             // registered; the foreign constructor is running
    | CreateFailed         // the constructor failed; nobody will unregister the handle
    | Created              // an FVM with a finalizer was returned

  /**
    * `executor` says whether the FVM still has its executor, and `calls` counts the methods running
    * on it. Finalizer runs that took an executor are counted by how far they are: `taken` are about
    * to destroy it, `destroyed` about to unregister the handle, `removed` are over.
    */
  datatype Machine = Machine(externs: Externs, handle: u64, phase: Phase, executor: bool, calls: nat,
                             taken: nat, destroyed: nat, removed: nat)

  function NewMachine(externs: Externs, handle: u64): Machine {
    Machine(externs, handle, Creating, false, 0, 0, 0, 0)
  }

  datatype State = State(table: Table, machines: seq<Machine>)

  datatype Step =
    | Register(externs: Externs)
    | Return(m: nat, ok: bool)
    | Enter(m: nat)
    | Callback(m: nat)
    | Leave(m: nat)
    | Finalize(m: nat)
    | Destroy(m: nat)
    | Unregister(m: nat)

  const INIT: State := State(Table(map[], 0), [])

  /**
    * `runtime.KeepAlive` keeps a finalizer from starting while a call is running. Apart from that it
    * may start at any time and any number of times, also while earlier runs are under way.
    */
  predicate Enabled(s: State, step: Step) {
    if step.Register? then true
    else if step.m >= |s.machines| then false
    else
      var machine := s.machines[step.m];
      match step
      case Return(_, _) => machine.phase.Creating?
      case Enter(_) => machine.executor
      case Callback(_) => machine.phase.Creating? || machine.calls > 0
      case Leave(_) => machine.calls > 0
      case Finalize(_) => machine.phase.Created? && machine.calls == 0
      case Destroy(_) => machine.taken > 0
      case Unregister(_) => machine.destroyed > 0
  }

  /** A finalizer that starts takes the executor, or returns at once if it is gone. */
  function Next(step: Step, machine: Machine): Machine
    requires !step.Register?
    requires match step
             case Leave(_) => machine.calls > 0
             case Destroy(_) => machine.taken > 0
             case Unregister(_) => machine.destroyed > 0
             case _ => true
  {
    match step
    case Return(_, ok) => if ok then machine.(phase := Created, executor := true) else machine.(phase := CreateFailed)
    case Enter(_) => machine.(calls := machine.calls + 1)
    case Callback(_) => machine
    case Leave(_) => machine.(calls := machine.calls - 1)
    case Finalize(_) =>
      if !machine.executor then machine
      else machine.(executor := false, taken := machine.taken + 1)
    case Destroy(_) => machine.(taken := machine.taken - 1, destroyed := machine.destroyed + 1)
    case Unregister(_) => machine.(destroyed := machine.destroyed - 1, removed := machine.removed + 1)
  }

  function Apply(s: State, step: Step): State
    requires Enabled(s, step)
  {
    match step
    case Register(e) =>
      State(Add(s.table, e), s.machines + [NewMachine(e, s.table.nextId)])
    case _ =>
      var machine := s.machines[step.m];
      State(if step.Unregister? then Remove(s.table, machine.handle) else s.table,
            s.machines[step.m := Next(step, machine)])
  }

  /** The state after the steps, unless one of them was not enabled. */
  function Exec(steps: seq<Step>): Option<State> {
    if steps == [] then Some(INIT)
    else
      var n := |steps| - 1;
      var s := Exec(steps[..n]);
      if s.Some? && Enabled(s.value, steps[n]) then Some(Apply(s.value, steps[n])) else None
  }

  /** No registration takes a handle that is still in the table. */
  ghost predicate Unclobbered(steps: seq<Step>) {
    steps == []
    || var n := |steps| - 1;
       && Unclobbered(steps[..n])
       && (Exec(steps[..n]).Some? && steps[n].Register? ==>
             Exec(steps[..n]).value.table.nextId !in Exec(steps[..n]).value.table.entries)
  }

  // ---------------------------------------------------------------- the invariant

  /** A machine that still owns its handle; one whose creation failed owns it forever. */
  predicate Holds(m: Machine) {
    m.removed == 0
  }

  /** The executor of a created machine is in one place: in the FVM, or with one finalizer run. */
  predicate Sound(m: Machine) {
    && (if m.executor then 1 else 0) + m.taken + m.destroyed + m.removed == (if m.phase.Created? then 1 else 0)
    && (m.calls > 0 ==> m.executor)
  }

  ghost predicate AllSound(s: State) {
    forall i | 0 <= i < |s.machines| :: Sound(s.machines[i])
  }

  ghost predicate Mapped(s: State) {
    forall i | 0 <= i < |s.machines| && Holds(s.machines[i]) ::
      s.machines[i].handle in s.table.entries && s.table.entries[s.machines[i].handle] == s.machines[i].externs
  }

  ghost predicate Distinct(s: State) {
    forall i, j | 0 <= i < j < |s.machines| && Holds(s.machines[i]) && Holds(s.machines[j]) ::
      s.machines[i].handle != s.machines[j].handle
  }

  /** The table holds the handles of the machines that own one, and no others. */
  ghost predicate Exact(s: State) {
    forall h | h in s.table.entries ::
      exists i :: 0 <= i < |s.machines| && Holds(s.machines[i]) && s.machines[i].handle == h
  }

  ghost predicate Inv(s: State) {
    AllSound(s) && Mapped(s) && Distinct(s) && Exact(s)
  }

  lemma {:induction false} RegisterExact(s: State, e: Externs)
    requires Exact(s)
    ensures Exact(Apply(s, Register(e)))
  {
    var s' := Apply(s, Register(e));
    forall h | h in s'.table.entries
      ensures exists i :: 0 <= i < |s'.machines| && Holds(s'.machines[i]) && s'.machines[i].handle == h
    {
      if h == s.table.nextId {
        assert s'.machines[|s.machines|].handle == h;
      } else {
        var i :| 0 <= i < |s.machines| && Holds(s.machines[i]) && s.machines[i].handle == h;
        assert s'.machines[i].handle == h;
      }
    }
  }

  lemma {:induction false} RegisterKeeps(s: State, e: Externs)
    requires Inv(s) && s.table.nextId !in s.table.entries
    ensures Inv(Apply(s, Register(e)))
  {
    RegisterExact(s, e);
    hide Exact;
    var s' := Apply(s, Register(e));
    assert forall i | 0 <= i < |s.machines| :: s'.machines[i] == s.machines[i];
  }

  /** Any other step changes one machine, and the table only when that machine lets go. */
  lemma {:induction false} StepEffect(s: State, step: Step)
    requires AllSound(s) && Enabled(s, step) && !step.Register?
    ensures var s', m := Apply(s, step), s.machines[step.m];
            && |s'.machines| == |s.machines| && (step.Unregister? ==> Holds(m))
            && (forall i | 0 <= i < |s.machines| && i != step.m :: s'.machines[i] == s.machines[i])
            && s'.machines[step.m].handle == m.handle && s'.machines[step.m].externs == m.externs
            && Sound(s'.machines[step.m])
            && (Holds(s'.machines[step.m]) <==> Holds(m) && !step.Unregister?)
            && s'.table == if step.Unregister? then Remove(s.table, m.handle) else s.table
  {
  }

  lemma {:induction false} StepExact(s: State, step: Step)
    requires AllSound(s) && Exact(s) && Enabled(s, step) && !step.Register?
    ensures Exact(Apply(s, step))
  {
    StepEffect(s, step);
    hide Apply, Enabled, Holds, Sound;
    var s' := Apply(s, step);
    forall h | h in s'.table.entries
      ensures exists i :: 0 <= i < |s'.machines| && Holds(s'.machines[i]) && s'.machines[i].handle == h
    {
      var i :| 0 <= i < |s.machines| && Holds(s.machines[i]) && s.machines[i].handle == h;
      assert s'.machines[i].handle == h && Holds(s'.machines[i]);
    }
  }

  lemma {:induction false} StepMapped(s: State, step: Step)
    requires AllSound(s) && Mapped(s) && Distinct(s) && Enabled(s, step) && !step.Register?
    ensures Mapped(Apply(s, step))
  {
    StepEffect(s, step);
    hide Apply, Enabled, Holds, Sound;
  }

  lemma {:induction false} StepDistinct(s: State, step: Step)
    requires AllSound(s) && Distinct(s) && Enabled(s, step) && !step.Register?
    ensures Distinct(Apply(s, step))
  {
    StepEffect(s, step);
    hide Apply, Enabled, Holds, Sound;
  }

  lemma {:induction false} StepKeeps(s: State, step: Step)
    requires Inv(s) && Enabled(s, step) && !step.Register?
    ensures Inv(Apply(s, step))
  {
    StepExact(s, step);
    StepMapped(s, step);
    StepDistinct(s, step);
    StepEffect(s, step);
    hide Apply, Enabled, Holds, Sound, Exact, Mapped, Distinct;
  }

  /** The invariant holds after every run in which no registration reuses a handle in use. */
  lemma {:induction false} RunKeeps(steps: seq<Step>)
    requires Unclobbered(steps) && Exec(steps).Some?
    ensures Inv(Exec(steps).value)
  {
    if steps != [] {
      var n := |steps| - 1;
      RunKeeps(steps[..n]);
      var s := Exec(steps[..n]).value;
      if steps[n].Register? {
        RegisterKeeps(s, steps[n].externs);
      } else {
        StepKeeps(s, steps[n]);
      }
    }
  }

  // ---------------------------------------------------------------- runs with fewer than 2^64 registrations

  ghost predicate Numbered(s: State) {
    && s.table.nextId == |s.machines|
    && forall i | 0 <= i < |s.machines| :: s.machines[i].handle == i
  }

  lemma {:induction false} NumberedStep(s: State, step: Step)
    requires Numbered(s) && AllSound(s) && Exact(s) && Enabled(s, step) && |Apply(s, step).machines| < TWO_64
    ensures Numbered(Apply(s, step))
    ensures step.Register? ==> s.table.nextId !in s.table.entries
  {
    if !step.Register? {
      StepEffect(s, step);
    }
  }

  lemma {:induction false} ShortRuns(steps: seq<Step>)
    requires Exec(steps).Some? && |Exec(steps).value.machines| < TWO_64
    ensures Unclobbered(steps) && Numbered(Exec(steps).value) && Inv(Exec(steps).value)
  {
    if steps != [] {
      var n := |steps| - 1;
      LastStep(steps);
      ShortRuns(steps[..n]);
      var s := Exec(steps[..n]).value;
      hide Apply, Enabled, AllSound, Mapped, Distinct, Exact, Numbered;
      NumberedStep(s, steps[n]);
      if steps[n].Register? {
        RegisterKeeps(s, steps[n].externs);
      } else {
        StepKeeps(s, steps[n]);
      }
    }
  }

  lemma {:induction false} LastStep(steps: seq<Step>)
    requires Exec(steps).Some? && steps != []
    ensures var n := |steps| - 1;
            && Exec(steps[..n]).Some? && Enabled(Exec(steps[..n]).value, steps[n])
            && Exec(steps).value == Apply(Exec(steps[..n]).value, steps[n])
            && |Exec(steps[..n]).value.machines| <= |Exec(steps).value.machines|
  {
  }

  /**
    * Over every run with fewer than 2^64 registrations: whoever still owns a handle owns its own one,
    * below the counter and mapped to the externs it was created with.
    */
  lemma {:induction false} HandlesSafe(steps: seq<Step>, i: nat, j: nat)
    requires Exec(steps).Some? && |Exec(steps).value.machines| < TWO_64
    requires i < |Exec(steps).value.machines| && Holds(Exec(steps).value.machines[i])
    ensures var s := Exec(steps).value;
            && s.machines[i].handle < s.table.nextId
            && s.machines[i].handle in s.table.entries
            && Find(s.table, s.machines[i].handle) == s.machines[i].externs
            && (j < |s.machines| && j != i ==> s.machines[j].handle != s.machines[i].handle)
  {
    ShortRuns(steps);
  }

  lemma {:induction false} Prefix(steps: seq<Step>, k: nat)
    requires Exec(steps).Some? && k <= |steps|
    ensures Exec(steps[..k]).Some? && |Exec(steps[..k]).value.machines| <= |Exec(steps).value.machines|
    ensures k < |steps| ==> Enabled(Exec(steps[..k]).value, steps[k])
  {
    if k == |steps| {
      assert steps[..k] == steps;
    } else {
      LastStep(steps);
      hide Exec, Enabled, Apply;
      var n := |steps| - 1;
      Prefix(steps[..n], k);
      assert steps[..n][..k] == steps[..k];
    }
  }

  /**
    * At every callback of the run the lookup finds the externs that the machine was created with, so
    * that only a machine whose client registered nil is told that its handle is invalid.
    */
  lemma {:induction false} CallbacksFindExterns(steps: seq<Step>, k: nat)
    requires Exec(steps).Some? && |Exec(steps).value.machines| < TWO_64
    requires k < |steps| && steps[k].Callback?
    ensures Exec(steps[..k]).Some? && steps[k].m < |Exec(steps[..k]).value.machines|
    ensures var s := Exec(steps[..k]).value;
            && s.machines[steps[k].m].handle in s.table.entries
            && Find(s.table, s.machines[steps[k].m].handle) == s.machines[steps[k].m].externs
  {
    Prefix(steps, k);
    ShortRuns(steps[..k]);
  }

  // ---------------------------------------------------------------- how often, and in which order

  function Count(steps: seq<Step>, step: Step): nat {
    if steps == [] then 0
    else var n := |steps| - 1; Count(steps[..n], step) + (if steps[n] == step then 1 else 0)
  }

  /** A machine tells how often each end-of-life step has happened to it, and whether a finalizer ran. */
  lemma {:induction false} CountsByMachine(steps: seq<Step>, m: nat)
    requires Exec(steps).Some?
    ensures var s := Exec(steps).value;
            if m < |s.machines| then
              && Sound(s.machines[m])
              && Count(steps, Destroy(m)) == s.machines[m].destroyed + s.machines[m].removed
              && Count(steps, Unregister(m)) == s.machines[m].removed
              && (Count(steps, Finalize(m)) == 0 <==> !s.machines[m].phase.Created? || s.machines[m].executor)
            else
              Count(steps, Finalize(m)) == Count(steps, Destroy(m)) == Count(steps, Unregister(m)) == 0
  {
    if steps != [] {
      CountsByMachine(steps[..|steps| - 1], m);
    }
  }

  /** However often its finalizer runs, each machine is destroyed and unregistered at most once. */
  lemma {:induction false} AtMostOnce(steps: seq<Step>, m: nat)
    requires Exec(steps).Some?
    ensures Count(steps, Unregister(m)) <= Count(steps, Destroy(m)) <= 1
    ensures Count(steps, Destroy(m)) <= Count(steps, Finalize(m))
  {
    CountsByMachine(steps, m);
  }

  /** Every finalizer run of a machine after its first changes nothing at all. */
  lemma {:induction false} LaterFinalizers(steps: seq<Step>, k: nat)
    requires Exec(steps).Some? && k < |steps| && steps[k].Finalize?
    ensures Exec(steps[..k]).Some?
    ensures Count(steps[..k], steps[k]) > 0 <==> Exec(steps[..k + 1]) == Exec(steps[..k])
  {
    Prefix(steps, k);
    var s, m := Exec(steps[..k]).value, steps[k].m;
    CountsByMachine(steps[..k], m);
    assert steps[..k + 1][..k] == steps[..k];
    if Count(steps[..k], steps[k]) > 0 {
      assert s.machines[m := s.machines[m]] == s.machines;
    } else {
      assert Exec(steps[..k + 1]).value.machines[m].executor != s.machines[m].executor;
    }
  }

  /** The externs of the registrations of a run, in order. */
  function Registered(steps: seq<Step>): seq<Externs> {
    if steps == [] then []
    else
      var n := |steps| - 1;
      Registered(steps[..n]) + (if steps[n].Register? then [steps[n].externs] else [])
  }

  /** There is one machine for each registration, with its externs and the counter of then. */
  lemma {:induction false} MachinesByHistory(steps: seq<Step>)
    requires Exec(steps).Some?
    ensures var s, es := Exec(steps).value, Registered(steps);
            && |s.machines| == |es| && s.table.nextId == |es| % TWO_64
            && forall i | 0 <= i < |es| :: s.machines[i].externs == es[i] && s.machines[i].handle == i % TWO_64
  {
    if steps != [] {
      LastStep(steps);
      MachinesByHistory(steps[..|steps| - 1]);
      ModStep(|Registered(steps[..|steps| - 1])|);
      hide Enabled, Exec;
    }
  }

  /** What is known of a machine follows from how often each step happened to it. */
  lemma {:induction false} PhaseByCounts(steps: seq<Step>, m: nat)
    requires Exec(steps).Some?
    ensures var s, made, failed := Exec(steps).value, Count(steps, Return(m, true)), Count(steps, Return(m, false));
            if m < |s.machines| then
              && made + failed <= 1
              && (s.machines[m].phase == Creating <==> made == 0 && failed == 0)
              && (s.machines[m].phase == CreateFailed <==> failed == 1)
              && (s.machines[m].phase == Created <==> made == 1)
            else
              made == failed == 0
  {
    if steps != [] {
      PhaseByCounts(steps[..|steps| - 1], m);
    }
  }

  lemma {:induction false} CallsByCounts(steps: seq<Step>, m: nat)
    requires Exec(steps).Some?
    ensures var s := Exec(steps).value;
            if m < |s.machines| then
              s.machines[m].calls == Count(steps, Enter(m)) - Count(steps, Leave(m))
            else
              Count(steps, Enter(m)) == Count(steps, Leave(m)) == 0
  {
    if steps != [] {
      CallsByCounts(steps[..|steps| - 1], m);
    }
  }

  /**
    * Which runs there are, without their states: a run may go on with a step exactly if the steps
    * so far allow it. The constructor returns once; calls start on a machine that was created and
    * that no finalizer has touched; finalizers start while no call is running; and the first of
    * them destroys the executor once and then removes the handle once.
    */
  lemma {:induction false} RunIff(steps: seq<Step>, step: Step)
    requires Exec(steps).Some?
    ensures Exec(steps + [step]).Some? <==>
            match step
            case Register(_) => true
            case Return(m, _) =>
              m < |Registered(steps)| && Count(steps, Return(m, true)) == Count(steps, Return(m, false)) == 0
            case Enter(m) => Count(steps, Return(m, true)) > 0 && Count(steps, Finalize(m)) == 0
            case Callback(m) =>
              || Count(steps, Enter(m)) > Count(steps, Leave(m))
              || (m < |Registered(steps)| && Count(steps, Return(m, true)) == Count(steps, Return(m, false)) == 0)
            case Leave(m) => Count(steps, Enter(m)) > Count(steps, Leave(m))
            case Finalize(m) => Count(steps, Return(m, true)) > 0 && Count(steps, Enter(m)) == Count(steps, Leave(m))
            case Destroy(m) => Count(steps, Finalize(m)) > 0 && Count(steps, Destroy(m)) == 0
            case Unregister(m) => Count(steps, Destroy(m)) > 0 && Count(steps, Unregister(m)) == 0
  {
    var more := steps + [step];
    assert more[..|more| - 1] == steps && more[|more| - 1] == step;
    MachinesByHistory(steps);
    if !step.Register? {
      CountsByMachine(steps, step.m);
      PhaseByCounts(steps, step.m);
      CallsByCounts(steps, step.m);
    }
    hide Count, Registered;
    assert Exec(more).Some? <==> Enabled(Exec(steps).value, step);
  }

  /** With fewer than 2^64 registrations the table holds exactly the registrations not removed. */
  lemma {:induction false} TableByHistory(steps: seq<Step>, h: u64)
    requires Exec(steps).Some? && |Registered(steps)| < TWO_64
    ensures var entries := Exec(steps).value.table.entries;
            && (h in entries <==> h < |Registered(steps)| && Count(steps, Unregister(h)) == 0)
            && (h in entries ==> entries[h] == Registered(steps)[h])
  {
    MachinesByHistory(steps);
    ShortRuns(steps);
    CountsByMachine(steps, h);
    var s := Exec(steps).value;
    hide Exec, Registered, Count;
    if h < |s.machines| {
      assert s.machines[h].handle == h;
    }
  }

  /** When a handle is removed its machine was destroyed before, and the handle was still its own. */
  lemma {:induction false} DestroyedBeforeRemoved(steps: seq<Step>, k: nat)
    requires Exec(steps).Some? && |Exec(steps).value.machines| < TWO_64
    requires k < |steps| && steps[k].Unregister?
    ensures Count(steps[..k], Destroy(steps[k].m)) == 1 && Count(steps[..k], Unregister(steps[k].m)) == 0
    ensures Exec(steps[..k]).Some? && steps[k].m < |Exec(steps[..k]).value.machines|
    ensures var s := Exec(steps[..k]).value;
            && s.machines[steps[k].m].handle in s.table.entries
            && Find(s.table, s.machines[steps[k].m].handle) == s.machines[steps[k].m].externs
  {
    Prefix(steps, k);
    ShortRuns(steps[..k]);
    CountsByMachine(steps[..k], steps[k].m);
  }

  /** At rest the table holds exactly the handles of failed creations, which nothing ever removes. */
  lemma {:induction false} AtRest(steps: seq<Step>)
    requires Exec(steps).Some? && |Exec(steps).value.machines| < TWO_64
    requires forall i | 0 <= i < |Exec(steps).value.machines| ::
               Exec(steps).value.machines[i].phase == CreateFailed || Exec(steps).value.machines[i].removed > 0
    ensures var s := Exec(steps).value;
            forall h: u64 :: h in s.table.entries
              <==> h < |s.machines| && s.machines[h].phase == CreateFailed
  {
    ShortRuns(steps);
    var s := Exec(steps).value;
    forall h: u64 | h < |s.machines| && s.machines[h].phase == CreateFailed ensures h in s.table.entries {
      assert Sound(s.machines[h]) && Holds(s.machines[h]) && s.machines[h].handle == h;
    }
    forall h: u64 | h in s.table.entries ensures h < |s.machines| && s.machines[h].phase == CreateFailed {
      assert h < |s.machines| && Holds(s.machines[h]);
    }
  }

  // ---------------------------------------------------------------- when the counter wraps

  /**
    * A registration keeps everybody's lookups right exactly when the handle it takes is not in use by
    * a machine with other externs.
    */
  lemma {:induction false} RegisterSafeIff(s: State, e: Externs)
    requires Mapped(s)
    ensures Mapped(Apply(s, Register(e)))
       <==> forall i | 0 <= i < |s.machines| && Holds(s.machines[i]) ::
              s.machines[i].handle == s.table.nextId ==> s.machines[i].externs == e
  {
    var s' := Apply(s, Register(e));
    assert forall i | 0 <= i < |s.machines| :: s'.machines[i] == s.machines[i];
    if Mapped(s') {
      forall i | 0 <= i < |s.machines| && Holds(s.machines[i]) && s.machines[i].handle == s.table.nextId
        ensures s.machines[i].externs == e
      {
        assert s'.table.entries[s'.machines[i].handle] == s'.machines[i].externs;
      }
    }
  }

  lemma {:induction false} OnlyRegistrations(steps: seq<Step>, e: Externs)
    requires forall i | 0 <= i < |steps| :: steps[i] == Register(e)
    ensures Exec(steps).Some? && Exec(steps).value.table.nextId == |steps| % TWO_64
    ensures var ms := Exec(steps).value.machines;
            |ms| == |steps| && (steps != [] ==> ms[0] == NewMachine(e, 0))
  {
    if steps != [] {
      var n := |steps| - 1;
      OnlyRegistrations(steps[..n], e);
      assert steps[n] == Register(e);
      ModStep(n);
    }
  }

  lemma {:induction false} ModStep(k: nat)
    ensures (k % TWO_64 + 1) % TWO_64 == (k + 1) % TWO_64
  {
  }

  /** The bound is tight: after 2^64 registrations the next one takes over the first machine's handle. */
  lemma {:induction false} WrapTakesOver(steps: seq<Step>, e: Externs, e': Externs)
    requires |steps| == TWO_64 && e != e' && forall i | 0 <= i < |steps| :: steps[i] == Register(e)
    ensures Exec(steps + [Register(e')]).Some?
    ensures var s := Exec(steps + [Register(e')]).value;
            && s.machines != [] && s.machines[0].externs == e && Enabled(s, Callback(0))
            && Find(s.table, s.machines[0].handle) == e'
  {
    OnlyRegistrations(steps, e);
    var more := steps + [Register(e')];
    assert more[..|more| - 1] == steps;
  }
}
