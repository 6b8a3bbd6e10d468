/** push_off, pop_off and the interrupt flag (riscv/kernel/spinlock.c:93-119, riscv/kernel/proc.c:497-515), on top of
    the step system of Scheduling: every acquire() starts with push_off() and every release() ends with pop_off(). Code
    that holds no spinlock may turn interrupts on or off at any time. */
module Interrupts {
  import opened Values
  import S = Scheduling

  /** intr: interrupts are enabled on a CPU; intena: c->intena; kept: the copy of it that sched() keeps for a process
      that is switched away. The field first records what intr was when a process took the first of the locks that it
      holds; no step reads it. */
  datatype State = State(s: S.State, intr: seq<bool>, intena: seq<bool>, kept: seq<Option<bool>>,
                         first: seq<Option<bool>>)

  /** A step of Scheduling, or intr_on() or intr_off() in code without spinlocks. */
  datatype Event = Step(k: nat, a: S.Choice) | Toggle(k: nat, on: bool)

  predicate Sized(g: S.Config, f: State) {
    S.Sized(g, f.s) && |f.intr| == |f.intena| == g.ncpu && |f.kept| == |f.first| == g.nproc
  }

  predicate CanDo(g: S.Config, f: State, e: Event)
    requires Sized(g, f)
  {
    match e
    case Step(k, _) => S.CanStep(g, f.s, k)
    case Toggle(k, _) => k < g.ncpu && f.s.noff[k] == 0
  }

  predicate Takes(g: S.Config, s: S.State, k: nat)
    requires S.Sized(g, s) && k < g.ncpu
  {
    S.CpuWants(g, s, k).Some?
  }

  predicate Drops(g: S.Config, s: S.State, k: nat)
    requires S.Sized(g, s) && k < g.ncpu
  {
    S.CpuDrops(g, s, k).Some?
  }

  /** The flag after push_off() or pop_off() with the counter at n. */
  function IntrAfter(n: nat, intr: bool, intena: bool, take: bool, drop: bool): (r: bool) {
    if take then false else if drop && n == 1 && intena then true else intr
  }

  function IntenaAfter(n: nat, intr: bool, intena: bool, take: bool): (r: bool) {
    if take && n == 0 then intr else intena
  }

  /** Process p calls sched() on CPU k. */
  predicate Leaving(g: S.Config, s: S.State, k: nat)
    requires S.Sized(g, s) && k < g.ncpu
  {
    s.cur[k].Some? && s.cur[k].value < g.nproc && S.Leaves(s.pc[s.cur[k].value])
  }

  /** The scheduler of CPU k switches to a process, which goes on in sched(). */
  predicate Entering(g: S.Config, s: S.State, k: nat)
    requires S.Sized(g, s) && k < g.ncpu
  {
    s.cur[k].None? && s.loop[k].LoopSwitch? && s.loop[k].i < g.nproc
  }

  function First(g: S.Config, f: State, k: nat): (r: seq<Option<bool>>)
    requires Sized(g, f) && k < g.ncpu
    ensures |r| == |f.first|
  {
    match f.s.cur[k]
    case None => f.first
    case Some(p) =>
      if p >= g.nproc then f.first
      else if Takes(g, f.s, k) && f.s.noff[k] == 0 then f.first[p := Some(f.intr[k])]
      else if Drops(g, f.s, k) && f.s.noff[k] == 1 then f.first[p := None]
      else f.first
  }

  function Apply(g: S.Config, f: State, e: Event): (r: State)
    requires Sized(g, f) && CanDo(g, f, e)
  {
    match e
    case Toggle(k, on) => f.(intr := f.intr[k := on])
    case Step(k, a) =>
      var s, n, take, drop := f.s, f.s.noff[k], Takes(g, f.s, k), Drops(g, f.s, k);
      var intena := IntenaAfter(n, f.intr[k], f.intena[k], take);
      State(S.Apply(g, s, k, a),
            f.intr[k := IntrAfter(n, f.intr[k], f.intena[k], take, drop)],
            if Entering(g, s, k) && f.kept[s.loop[k].i].Some? then f.intena[k := f.kept[s.loop[k].i].value]
            else f.intena[k := intena],
            if Leaving(g, s, k) then f.kept[s.cur[k].value := Some(f.intena[k])]
            else if Entering(g, s, k) then f.kept[s.loop[k].i := None]
            else f.kept,
            First(g, f, k))
  }

  // The invariant

  predicate OffCpu(s: S.State, p: nat) { forall k | 0 <= k < |s.cur| :: s.cur[k] != Some(p) }

  /** A CPU that counts a lock has interrupts off. */
  predicate Quiet(f: State)
    requires |f.intr| == |f.s.noff|
  {
    forall k | 0 <= k < |f.intr| :: f.s.noff[k] >= 1 ==> !f.intr[k]
  }

  /** The flag from before a process's first lock is in intena, or kept while it is away. */
  predicate Remembered(g: S.Config, f: State, p: nat)
    requires Sized(g, f) && p < g.nproc
  {
    f.first[p].Some? ==>
      && (forall k | 0 <= k < g.ncpu :: f.s.cur[k] == Some(p) ==> f.s.noff[k] >= 1 && f.intena[k] == f.first[p].value)
      && (OffCpu(f.s, p) ==> f.kept[p] == f.first[p])
  }

  ghost predicate Inv(g: S.Config, f: State) {
    Sized(g, f) && S.Inv(g, f.s) && Quiet(f) && forall p | 0 <= p < g.nproc :: Remembered(g, f, p)
  }

  // Every event keeps it

  /** What a step does to the counters and to what the CPUs execute. */
  lemma StepShape(g: S.Config, s: S.State, k: nat, a: S.Choice)
    requires S.Inv(g, s) && S.CanStep(g, s, k)
    ensures var s' := S.Apply(g, s, k, a);
            && S.Sized(g, s')
            && s'.noff == s.noff[k := S.NoffAfter(s.noff[k], Takes(g, s, k), Drops(g, s, k))]
            && s'.cur == (if Leaving(g, s, k) then s.cur[k := None]
                          else if Entering(g, s, k) then s.cur[k := Some(s.loop[k].i)]
                          else s.cur)
  {
    hide S.Locks, S.Cpus, S.Procs, S.Wakes, S.Conds, S.NextPc, S.NextState, S.NextChan, S.NextCond, S.Wants, S.Drops;
    match s.cur[k]
    case Some(p) =>
      S.StepIsFields(g, s, k, p, a);
    case None =>
      assert s.noff[k := s.noff[k]] == s.noff;
  }

  lemma Alone(g: S.Config, s: S.State, k: nat, j: nat, p: nat)
    requires S.Inv(g, s) && k < g.ncpu && j < g.ncpu && s.cur[k] == Some(p) && s.cur[j] == Some(p)
    ensures j == k
  {
    hide S.Locks, S.Procs, S.Wakes, S.Conds;
    S.CpuOfProc(g, s, k, p);
    S.CpuOfProc(g, s, j, p);
  }

  /** A process that a scheduler is about to switch to runs nowhere. */
  lemma EntersFromOff(g: S.Config, s: S.State, k: nat)
    requires S.Inv(g, s) && k < g.ncpu && Entering(g, s, k)
    ensures OffCpu(s, s.loop[k].i) && s.noff[k] == 1
  {
    hide S.Locks, S.Procs, S.Wakes, S.Conds;
    assert S.CpuOk(g, s, k);
    forall j | 0 <= j < |s.cur|
      ensures s.cur[j] != Some(s.loop[k].i)
    {
      if s.cur[j] == Some(s.loop[k].i) {
        S.CpuOfProc(g, s, j, s.loop[k].i);
      }
    }
  }

  lemma KeepsQuiet(g: S.Config, f: State, k: nat, a: S.Choice)
    requires Inv(g, f) && S.CanStep(g, f.s, k)
    ensures |Apply(g, f, Step(k, a)).s.noff| == g.ncpu && Quiet(Apply(g, f, Step(k, a)))
  {
    hide S.Locks, S.Cpus, S.Procs, S.Wakes, S.Conds, S.Apply, Takes, Drops, Remembered, Leaving, Entering, First;
    StepShape(g, f.s, k, a);
  }

  lemma KeepsRemembered(g: S.Config, f: State, k: nat, a: S.Choice, p: nat)
    requires Inv(g, f) && S.CanStep(g, f.s, k) && p < g.nproc && Sized(g, Apply(g, f, Step(k, a)))
    ensures Remembered(g, Apply(g, f, Step(k, a)), p)
  {
    hide S.Locks, S.Cpus, S.Procs, S.Wakes, S.Conds, S.Apply, Takes, Drops, Quiet;
    StepShape(g, f.s, k, a);
    var s, r := f.s, Apply(g, f, Step(k, a));
    assert Remembered(g, f, p);
    if s.cur[k] == Some(p) {
      Running(g, f, k, a, p);
    } else {
      Elsewhere(g, f, k, a, p);
    }
  }

  /** The process that the CPU runs. */
  lemma Running(g: S.Config, f: State, k: nat, a: S.Choice, p: nat)
    requires Inv(g, f) && S.CanStep(g, f.s, k) && p < g.nproc && f.s.cur[k] == Some(p)
    requires Sized(g, Apply(g, f, Step(k, a)))
    ensures Remembered(g, Apply(g, f, Step(k, a)), p)
  {
    hide S.Locks, S.Cpus, S.Procs, S.Wakes, S.Conds, S.Apply, Quiet;
    StepShape(g, f.s, k, a);
    var s, r := f.s, Apply(g, f, Step(k, a));
    assert Remembered(g, f, p);
    NoLockLeaving(g, s, k);
    forall j | 0 <= j < g.ncpu && r.s.cur[j] == Some(p)
      ensures j == k
    {
      if j != k {
        Alone(g, s, k, j, p);
      }
    }
    if !Leaving(g, s, k) {
      assert r.s.cur[k] == Some(p);
    }
  }

  /** sched() itself takes and releases no lock. */
  lemma NoLockLeaving(g: S.Config, s: S.State, k: nat)
    requires S.Sized(g, s) && k < g.ncpu
    ensures Leaving(g, s, k) ==> !Takes(g, s, k) && !Drops(g, s, k)
    ensures !(Takes(g, s, k) && Drops(g, s, k))
  {
  }

  /** Any other process. */
  lemma Elsewhere(g: S.Config, f: State, k: nat, a: S.Choice, p: nat)
    requires Inv(g, f) && S.CanStep(g, f.s, k) && p < g.nproc && f.s.cur[k] != Some(p)
    requires Sized(g, Apply(g, f, Step(k, a)))
    ensures Remembered(g, Apply(g, f, Step(k, a)), p)
  {
    hide S.Locks, S.Cpus, S.Procs, S.Wakes, S.Conds, S.Apply, Quiet, Takes, Drops;
    StepShape(g, f.s, k, a);
    var s, r := f.s, Apply(g, f, Step(k, a));
    assert Remembered(g, f, p) && r.first[p] == f.first[p];
    if Entering(g, s, k) {
      EntersFromOff(g, s, k);
      NoLockEntering(g, s, k);
    }
    if OffCpu(r.s, p) {
      forall j | 0 <= j < |s.cur|
        ensures s.cur[j] != Some(p)
      {
        assert r.s.cur[j] != Some(p);
      }
    }
  }

  lemma NoLockEntering(g: S.Config, s: S.State, k: nat)
    requires S.Sized(g, s) && k < g.ncpu && Entering(g, s, k)
    ensures !Takes(g, s, k) && !Drops(g, s, k)
  {
  }

  lemma EventKeepsInv(g: S.Config, f: State, e: Event)
    requires Inv(g, f) && CanDo(g, f, e)
    ensures Inv(g, Apply(g, f, e))
  {
    hide S.Locks, S.Cpus, S.Procs, S.Wakes, S.Conds, S.Apply, Remembered, Quiet, Takes, Drops;
    match e
    case Toggle(k, on) =>
      ToggleKeeps(g, f, k, on);
    case Step(k, a) =>
      S.StepKeepsInv(g, f.s, k, a);
      StepShape(g, f.s, k, a);
      KeepsQuiet(g, f, k, a);
      forall p | 0 <= p < g.nproc
        ensures Remembered(g, Apply(g, f, e), p)
      {
        KeepsRemembered(g, f, k, a, p);
      }
  }

  lemma ToggleKeeps(g: S.Config, f: State, k: nat, on: bool)
    requires Inv(g, f) && CanDo(g, f, Toggle(k, on))
    ensures Inv(g, Apply(g, f, Toggle(k, on)))
  {
    hide S.Locks, S.Cpus, S.Procs, S.Wakes, S.Conds;
    forall p | 0 <= p < g.nproc
      ensures Remembered(g, Apply(g, f, Toggle(k, on)), p)
    {
      assert Remembered(g, f, p);
    }
  }

  // Whole runs

  ghost predicate Init(g: S.Config, f: State) {
    && Sized(g, f) && S.Init(g, f.s)
    && forall p | 0 <= p < g.nproc :: f.kept[p].None? && f.first[p].None?
  }

  ghost predicate RunFrom(g: S.Config, f: State, run: seq<Event>)
    decreases |run|
  {
    run != [] ==> Sized(g, f) && CanDo(g, f, run[0]) && RunFrom(g, Apply(g, f, run[0]), run[1..])
  }

  ghost function After(g: S.Config, f: State, run: seq<Event>): (r: State)
    requires RunFrom(g, f, run)
    decreases |run|
  {
    if run == [] then f else After(g, Apply(g, f, run[0]), run[1..])
  }

  lemma {:induction false} RunKeepsInv(g: S.Config, f: State, run: seq<Event>)
    requires Inv(g, f) && RunFrom(g, f, run)
    ensures Inv(g, After(g, f, run))
    decreases |run|
  {
    hide Inv, Apply, CanDo;
    if run != [] {
      EventKeepsInv(g, f, run[0]);
      RunKeepsInv(g, Apply(g, f, run[0]), run[1..]);
    }
  }

  lemma Reached(g: S.Config, f0: State, run: seq<Event>)
    requires Init(g, f0) && RunFrom(g, f0, run)
    ensures Inv(g, After(g, f0, run))
  {
    hide S.Locks, S.Cpus, S.Procs, S.Wakes, S.Conds;
    S.InitHasInv(g, f0.s);
    RunKeepsInv(g, f0, run);
  }

  /** In every run, a CPU that holds a lock, calls sched() or comes to pop_off() has interrupts off: their checks pass,
      and no handler can ask for a lock that the code it interrupts holds. */
  lemma OffWhileLocked(g: S.Config, f0: State, run: seq<Event>, k: nat, p: nat, l: S.Lock)
    requires Init(g, f0) && RunFrom(g, f0, run) && k < g.ncpu && p < g.nproc
    ensures var f := After(g, f0, run);
            && Sized(g, f)
            && (S.CallsSched(f.s, k, p) || S.CpuDrops(g, f.s, k).Some? || (l in f.s.held && f.s.held[l] == k) ==>
                  !f.intr[k])
  {
    Reached(g, f0, run);
    hide After, RunFrom, S.Locks, S.Cpus, S.Procs, S.Wakes, S.Conds, Remembered;
    var f := After(g, f0, run);
    Counted(g, f.s, k, p, l);
  }

  lemma Counted(g: S.Config, s: S.State, k: nat, p: nat, l: S.Lock)
    requires S.Inv(g, s) && k < g.ncpu && p < g.nproc
    ensures S.CallsSched(s, k, p) || S.CpuDrops(g, s, k).Some? || (l in s.held && s.held[l] == k) ==> s.noff[k] >= 1
  {
    hide S.Procs, S.Wakes, S.Conds, S.Wants;
    assert S.CpuOk(g, s, k) && S.LockOk(g, s, l);
  }

  /** In every run, when a process releases the last of its locks, interrupts are as they were when it took the first
      one, although it may have slept and gone on elsewhere in between. */
  lemma RestoresInterrupts(g: S.Config, f0: State, run: seq<Event>, k: nat, a: S.Choice, p: nat)
    requires Init(g, f0) && RunFrom(g, f0, run) && k < g.ncpu && p < g.nproc
    requires var f := After(g, f0, run);
             && Sized(g, f) && S.CanStep(g, f.s, k) && f.s.cur[k] == Some(p) && f.first[p].Some?
             && S.CpuDrops(g, f.s, k).Some? && f.s.noff[k] == 1
    ensures var f := After(g, f0, run);
            Apply(g, f, Step(k, a)).intr[k] == f.first[p].value
  {
    Reached(g, f0, run);
    hide After, RunFrom, S.Locks, S.Cpus, S.Procs, S.Wakes, S.Conds, S.Apply;
    var f := After(g, f0, run);
    assert Remembered(g, f, p);
    NoLockLeaving(g, f.s, k);
  }
}
