/** Spinlocks, the scheduler, sleep, wakeup, yield and kill (riscv/kernel/proc.c:447-636,
    riscv/kernel/spinlock.c:21-119) as a step system for any number of processes, CPUs and channels.

    One step is one access to shared state by the thread that a CPU executes: a process's kernel
    thread or the CPU's own scheduler loop. Every channel has a condition that is tested and changed
    under the channel's lock, as sleep() demands of its callers; several channels may share a lock. */
module Scheduling {
  import opened Values

  datatype Config = Config(nproc: nat, ncpu: nat, lockOf: seq<nat>)

  datatype PState = Unused | Sleeping | Runnable | Running

  datatype Lock = ProcLock(p: nat) | CondLock(l: nat)

  /** Where a process is in the kernel; User stands for all code that holds no spinlock. */
  datatype Pc =
    | User
    // a waiter: acquire(lk); while(!cond) sleep(chan, lk); use; release(lk)
    | WaitAcquire(c: nat) | WaitTest(c: nat) | WaitRelease(c: nat)
    // sleep(chan, lk)
    | SleepAcquire(c: nat) | SleepRelease(c: nat) | SleepChan(c: nat) | SleepState(c: nat) | SleepSched(c: nat)
    | SleepTidy(c: nat) | SleepUnlock(c: nat)
    // a waker: acquire(lk); cond = 1; wakeup(chan); release(lk)
    | WakeAcquire(c: nat) | WakeSet(c: nat) | WakeLock(c: nat, i: nat) | WakeCheck(c: nat, i: nat)
    | WakeUnlock(c: nat, i: nat)
    // yield()
    | YieldAcquire | YieldState | YieldSched | YieldUnlock
    // kkill()
    | KillLock(i: nat) | KillCheck(i: nat) | KillUnlock(i: nat)

  /** Where a CPU's scheduler loop is, with the process it looks at. */
  datatype LoopPc = LoopLock(i: nat) | LoopCheck(i: nat) | LoopProc(i: nat) | LoopSwitch(i: nat) | Away(i: nat)
                  | LoopBack(i: nat) | LoopUnlock(i: nat)

  /** proc is c->proc; cur is the process whose thread the CPU executes, None for its scheduler. The
      field home records which CPU has dispatched a process; no step reads it. */
  datatype State = State(
    state: seq<PState>, chan: seq<Option<nat>>, pc: seq<Pc>, home: seq<Option<nat>>,
    loop: seq<LoopPc>, cur: seq<Option<nat>>, proc: seq<Option<nat>>, noff: seq<nat>,
    held: map<Lock, nat>, cond: seq<bool>)

  /** What a process in user code does next, and whether a waiter that got its turn uses the condition up. */
  datatype Choice = ToWait(c: nat) | ToWake(c: nat) | ToYield | ToKill(i: nat) | Go(flag: bool)

  // Steps

  function Acquire(s: State, k: nat, l: Lock): (s': State)
    requires k < |s.noff|
  {
    s.(held := s.held[l := k], noff := s.noff[k := s.noff[k] + 1])
  }

  function Release(s: State, k: nat, l: Lock): (s': State)
    requires k < |s.noff|
  {
    s.(held := s.held - {l}, noff := s.noff[k := if s.noff[k] > 0 then s.noff[k] - 1 else 0])
  }

  function At(s: State, p: nat, pc: Pc): (s': State)
    requires p < |s.pc|
  {
    s.(pc := s.pc[p := pc])
  }

  function LoopAt(s: State, k: nat, pc: LoopPc): (s': State)
    requires k < |s.loop|
  {
    s.(loop := s.loop[k := pc])
  }

  predicate Sized(g: Config, s: State) {
    && |s.state| == |s.chan| == |s.pc| == |s.home| == g.nproc
    && |s.loop| == |s.cur| == |s.proc| == |s.noff| == g.ncpu
    && |s.cond| == |g.lockOf|
  }

  function CLock(g: Config, c: nat): (l: Lock)
    requires c < |g.lockOf|
  {
    CondLock(g.lockOf[c])
  }

  /** A lock that the step needs is free; a step that waits for a lock spins until it is. */
  predicate FreeLock(s: State, l: Lock) { l !in s.held }

  predicate GoodPc(g: Config, pc: Pc) {
    match pc
    case User | YieldAcquire | YieldState | YieldSched | YieldUnlock => true
    case WaitAcquire(c) => c < |g.lockOf|
    case WaitTest(c) => c < |g.lockOf|
    case WaitRelease(c) => c < |g.lockOf|
    case SleepAcquire(c) => c < |g.lockOf|
    case SleepRelease(c) => c < |g.lockOf|
    case SleepChan(c) => c < |g.lockOf|
    case SleepState(c) => c < |g.lockOf|
    case SleepSched(c) => c < |g.lockOf|
    case SleepTidy(c) => c < |g.lockOf|
    case SleepUnlock(c) => c < |g.lockOf|
    case WakeAcquire(c) => c < |g.lockOf|
    case WakeSet(c) => c < |g.lockOf|
    case WakeLock(c, i) => c < |g.lockOf| && i <= g.nproc
    case WakeCheck(c, i) => c < |g.lockOf| && i < g.nproc
    case WakeUnlock(c, i) => c < |g.lockOf| && i < g.nproc
    case KillLock(i) => i < g.nproc
    case KillCheck(i) => i < g.nproc
    case KillUnlock(i) => i < g.nproc
  }

  /** acquire(lk); while(!cond) sleep(chan, lk); use the condition; release(lk). */
  function WaitStep(g: Config, s: State, k: nat, p: nat, a: Choice): (s': State)
    requires Sized(g, s) && k < g.ncpu && p < g.nproc && GoodPc(g, s.pc[p])
    requires s.pc[p].WaitAcquire? || s.pc[p].WaitTest? || s.pc[p].WaitRelease?
  {
    match s.pc[p]
    case WaitAcquire(c) => At(Acquire(s, k, CLock(g, c)), p, WaitTest(c))
    case WaitTest(c) =>
      if s.cond[c] then At(s.(cond := s.cond[c := a != Go(true)]), p, WaitRelease(c)) else At(s, p, SleepAcquire(c))
    case WaitRelease(c) => At(Release(s, k, CLock(g, c)), p, User)
  }

  predicate InSleep(pc: Pc) {
    || pc.SleepAcquire? || pc.SleepRelease? || pc.SleepChan? || pc.SleepState? || pc.SleepSched? || pc.SleepTidy?
    || pc.SleepUnlock?
  }

  /** sleep(chan, lk): the swtch in sched() lets the CPU's scheduler go on. */
  function SleepStep(g: Config, s: State, k: nat, p: nat): (s': State)
    requires Sized(g, s) && k < g.ncpu && p < g.nproc && GoodPc(g, s.pc[p]) && InSleep(s.pc[p])
  {
    match s.pc[p]
    case SleepAcquire(c) => At(Acquire(s, k, ProcLock(p)), p, SleepRelease(c))
    case SleepRelease(c) => At(Release(s, k, CLock(g, c)), p, SleepChan(c))
    case SleepChan(c) => At(s.(chan := s.chan[p := Some(c)]), p, SleepState(c))
    case SleepState(c) => At(s.(state := s.state[p := Sleeping]), p, SleepSched(c))
    case SleepSched(c) => Swtch(At(s, p, SleepTidy(c)), k)
    case SleepTidy(c) => At(s.(chan := s.chan[p := None]), p, SleepUnlock(c))
    case SleepUnlock(c) => At(Release(s, k, ProcLock(p)), p, WaitAcquire(c))
  }

  /** From a process's thread back to the scheduler of its CPU. */
  function Swtch(s: State, k: nat): (s': State)
    requires k < |s.loop| && k < |s.cur|
  {
    LoopAt(s.(cur := s.cur[k := None]), k, LoopBack(s.loop[k].i))
  }

  predicate InWake(pc: Pc) { pc.WakeAcquire? || pc.WakeSet? || pc.WakeLock? || pc.WakeCheck? || pc.WakeUnlock? }

  /** acquire(lk); make the condition true; wakeup(chan); release(lk). */
  function WakeStep(g: Config, s: State, k: nat, p: nat): (s': State)
    requires Sized(g, s) && k < g.ncpu && p < g.nproc && GoodPc(g, s.pc[p]) && InWake(s.pc[p])
  {
    match s.pc[p]
    case WakeAcquire(c) => At(Acquire(s, k, CLock(g, c)), p, WakeSet(c))
    case WakeSet(c) => At(s.(cond := s.cond[c := true]), p, WakeLock(c, 0))
    case WakeLock(c, i) =>
      if i == g.nproc then At(Release(s, k, CLock(g, c)), p, User)
      else if i == p then At(s, p, WakeLock(c, i + 1))
      else At(Acquire(s, k, ProcLock(i)), p, WakeCheck(c, i))
    case WakeCheck(c, i) =>
      var s1 := if s.state[i].Sleeping? && s.chan[i] == Some(c) then s.(state := s.state[i := Runnable]) else s;
      At(s1, p, WakeUnlock(c, i))
    case WakeUnlock(c, i) => At(Release(s, k, ProcLock(i)), p, WakeLock(c, i + 1))
  }

  predicate InYield(pc: Pc) { pc.YieldAcquire? || pc.YieldState? || pc.YieldSched? || pc.YieldUnlock? }

  /** yield(); a new process starts in forkret() as if it came back from here. */
  function YieldStep(g: Config, s: State, k: nat, p: nat): (s': State)
    requires Sized(g, s) && k < g.ncpu && p < g.nproc && InYield(s.pc[p])
  {
    match s.pc[p]
    case YieldAcquire => At(Acquire(s, k, ProcLock(p)), p, YieldState)
    case YieldState => At(s.(state := s.state[p := Runnable]), p, YieldSched)
    case YieldSched => Swtch(At(s, p, YieldUnlock), k)
    case YieldUnlock => At(Release(s, k, ProcLock(p)), p, User)
  }

  /** kkill() at table entry i, which may or may not be the victim. */
  function KillStep(g: Config, s: State, k: nat, p: nat, a: Choice): (s': State)
    requires Sized(g, s) && k < g.ncpu && p < g.nproc && GoodPc(g, s.pc[p])
    requires s.pc[p].KillLock? || s.pc[p].KillCheck? || s.pc[p].KillUnlock?
  {
    match s.pc[p]
    case KillLock(i) => At(Acquire(s, k, ProcLock(i)), p, KillCheck(i))
    case KillCheck(i) =>
      var s1 := if a == Go(true) && s.state[i].Sleeping? then s.(state := s.state[i := Runnable]) else s;
      At(s1, p, KillUnlock(i))
    case KillUnlock(i) => At(Release(s, k, ProcLock(i)), p, User)
  }

  /** What code without locks goes on to do. */
  function Start(g: Config, a: Choice): (pc: Pc)
    ensures GoodPc(g, pc) && ProcDepth(pc) == 0
  {
    match a
    case ToWait(c) => if c < |g.lockOf| then WaitAcquire(c) else User
    case ToWake(c) => if c < |g.lockOf| then WakeAcquire(c) else User
    case ToYield => YieldAcquire
    case ToKill(i) => if i < g.nproc then KillLock(i) else User
    case Go(_) => User
  }

  /** The step of process p, which CPU k executes. */
  function ProcStep(g: Config, s: State, k: nat, p: nat, a: Choice): (s': State)
    requires Sized(g, s) && k < g.ncpu && p < g.nproc && GoodPc(g, s.pc[p])
  {
    var pc := s.pc[p];
    if pc.User? then At(s, p, Start(g, a))
    else if pc.WaitAcquire? || pc.WaitTest? || pc.WaitRelease? then WaitStep(g, s, k, p, a)
    else if InSleep(pc) then SleepStep(g, s, k, p)
    else if InWake(pc) then WakeStep(g, s, k, p)
    else if InYield(pc) then YieldStep(g, s, k, p)
    else KillStep(g, s, k, p, a)
  }

  /** The step of the scheduler loop of CPU k. */
  function LoopStep(g: Config, s: State, k: nat): (s': State)
    requires Sized(g, s) && k < g.ncpu && s.loop[k].i < g.nproc
  {
    match s.loop[k]
    case LoopLock(i) => LoopAt(Acquire(s, k, ProcLock(i)), k, LoopCheck(i))
    case LoopCheck(i) =>
      if s.state[i].Runnable? then
        LoopAt(s.(state := s.state[i := Running], home := s.home[i := Some(k)]), k, LoopProc(i))
      else LoopAt(s, k, LoopUnlock(i))
    case LoopProc(i) => LoopAt(s.(proc := s.proc[k := Some(i)]), k, LoopSwitch(i))
    case LoopSwitch(i) => LoopAt(s.(cur := s.cur[k := Some(i)]), k, Away(i))
    case Away(i) => s
    case LoopBack(i) => LoopAt(s.(proc := s.proc[k := None], home := s.home[i := None]), k, LoopUnlock(i))
    case LoopUnlock(i) => LoopAt(Release(s, k, ProcLock(i)), k, LoopLock(if i + 1 < g.nproc then i + 1 else 0))
  }

  /** The lock that the next step of process p acquires, if any. */
  function Wants(g: Config, s: State, p: nat): (l: Option<Lock>)
    requires Sized(g, s) && p < g.nproc && GoodPc(g, s.pc[p])
  {
    match s.pc[p]
    case WaitAcquire(c) => Some(CLock(g, c))
    case WakeAcquire(c) => Some(CLock(g, c))
    case SleepAcquire(_) => Some(ProcLock(p))
    case WakeLock(_, i) => if i < g.nproc && i != p then Some(ProcLock(i)) else None
    case YieldAcquire => Some(ProcLock(p))
    case KillLock(i) => Some(ProcLock(i))
    case _ => None
  }

  predicate CanStep(g: Config, s: State, k: nat)
    requires Sized(g, s)
  {
    && k < g.ncpu
    && match s.cur[k]
       case Some(p) => p < g.nproc && GoodPc(g, s.pc[p]) && (Wants(g, s, p).Some? ==> FreeLock(s, Wants(g, s, p).value))
       case None => s.loop[k].i < g.nproc && (s.loop[k].LoopLock? ==> FreeLock(s, ProcLock(s.loop[k].i)))
  }

  function Apply(g: Config, s: State, k: nat, a: Choice): (s': State)
    requires Sized(g, s) && CanStep(g, s, k)
  {
    match s.cur[k]
    case Some(p) => ProcStep(g, s, k, p, a)
    case None => LoopStep(g, s, k)
  }

  // The invariant

  /** The locks that a process holds at each point of its code. */
  predicate ProcHolds(g: Config, pc: Pc, p: nat, l: Lock)
    requires GoodPc(g, pc)
  {
    match pc
    case User | WaitAcquire(_) | WakeAcquire(_) | YieldAcquire | KillLock(_) => false
    case WaitTest(c) => l == CLock(g, c)
    case WaitRelease(c) => l == CLock(g, c)
    case SleepAcquire(c) => l == CLock(g, c)
    case SleepRelease(c) => l == CLock(g, c) || l == ProcLock(p)
    case SleepChan(_) | SleepState(_) | SleepSched(_) | SleepTidy(_) | SleepUnlock(_) => l == ProcLock(p)
    case WakeSet(c) => l == CLock(g, c)
    case WakeLock(c, _) => l == CLock(g, c)
    case WakeCheck(c, i) => l == CLock(g, c) || l == ProcLock(i)
    case WakeUnlock(c, i) => l == CLock(g, c) || l == ProcLock(i)
    case YieldState | YieldSched | YieldUnlock => l == ProcLock(p)
    case KillCheck(i) => l == ProcLock(i)
    case KillUnlock(i) => l == ProcLock(i)
  }

  function ProcDepth(pc: Pc): (n: nat) {
    match pc
    case User | WaitAcquire(_) | WakeAcquire(_) | YieldAcquire | KillLock(_) => 0
    case SleepRelease(_) | WakeCheck(_, _) | WakeUnlock(_, _) => 2
    case _ => 1
  }

  predicate LoopHolds(loop: LoopPc, l: Lock) {
    !loop.LoopLock? && !loop.Away? && l == ProcLock(loop.i)
  }

  /** CPU k, by what it executes, holds lock l. */
  predicate Holds(g: Config, s: State, k: nat, l: Lock)
    requires Sized(g, s) && k < g.ncpu
  {
    match s.cur[k]
    case Some(p) => p < g.nproc && GoodPc(g, s.pc[p]) && ProcHolds(g, s.pc[p], p, l)
    case None => LoopHolds(s.loop[k], l)
  }

  function Depth(g: Config, s: State, k: nat): (n: nat)
    requires Sized(g, s) && k < g.ncpu
  {
    match s.cur[k]
    case Some(p) => if p < g.nproc then ProcDepth(s.pc[p]) else 0
    case None => if s.loop[k].LoopLock? || s.loop[k].Away? then 0 else 1
  }

  ghost predicate LockOk(g: Config, s: State, l: Lock)
    requires Sized(g, s)
  {
    && (l in s.held ==> s.held[l] < g.ncpu && Holds(g, s, s.held[l], l))
    && (forall k :: 0 <= k < g.ncpu && Holds(g, s, k, l) ==> l in s.held && s.held[l] == k)
  }

  /** The scheduler of a CPU has dispatched process i. */
  predicate Busy(loop: LoopPc) { loop.LoopProc? || loop.LoopSwitch? || loop.Away? || loop.LoopBack? }

  ghost predicate CpuOk(g: Config, s: State, k: nat)
    requires Sized(g, s) && k < g.ncpu
  {
    var loop := s.loop[k];
    && loop.i < g.nproc
    && s.cur[k] == (if loop.Away? then Some(loop.i) else None)
    && s.proc[k] == (if loop.LoopSwitch? || loop.Away? || loop.LoopBack? then Some(loop.i) else None)
    && (Busy(loop) ==> s.home[loop.i] == Some(k))
    && s.noff[k] == Depth(g, s, k)
  }

  predicate Resumes(pc: Pc) { pc.SleepTidy? || pc.YieldUnlock? }

  ghost predicate ProcOk(g: Config, s: State, p: nat)
    requires Sized(g, s) && p < g.nproc
  {
    && GoodPc(g, s.pc[p])
    && (s.home[p].Some? ==> s.home[p].value < g.ncpu && s.loop[s.home[p].value].i == p && Busy(s.loop[s.home[p].value]))
    && (s.pc[p].SleepTidy? || s.pc[p].SleepSched? || s.pc[p].SleepState? ==> s.chan[p] == Some(s.pc[p].c))
    && (s.state[p].Sleeping? ==> s.pc[p].SleepTidy? || s.pc[p].SleepSched?)
    && match s.home[p]
       case None => !s.state[p].Running? && Resumes(s.pc[p])
       case Some(k) =>
         match s.loop[k]
         case Away(_) => s.state[p] == (if s.pc[p].SleepSched? then Sleeping else if s.pc[p].YieldSched? then Runnable
             else Running)
         case LoopBack(_) => !s.state[p].Running? && !s.state[p].Unused? && Resumes(s.pc[p])
         case _ => s.state[p].Running? && Resumes(s.pc[p])
  }

  /** p sleeps on c, or has released the condition lock on its way there. */
  predicate Asleep(s: State, p: nat, c: nat)
    requires p < |s.pc| && p < |s.state| && p < |s.chan|
  {
    || s.pc[p] == SleepChan(c) || s.pc[p] == SleepState(c) || s.pc[p] == SleepSched(c)
    || (s.state[p].Sleeping? && s.chan[p] == Some(c))
  }

  /** How far a waker's scan of the process table has come. */
  function Scanned(pc: Pc): (n: nat) {
    if pc.WakeLock? || pc.WakeCheck? then pc.i else if pc.WakeUnlock? then pc.i + 1 else 0
  }

  predicate Waking(pc: Pc, c: nat) {
    (pc.WakeLock? || pc.WakeCheck? || pc.WakeUnlock?) && pc.c == c
  }

  /** Nobody that the scan has passed is asleep on the channel. */
  ghost predicate WakeOk(g: Config, s: State, w: nat)
    requires Sized(g, s) && w < g.nproc
  {
    forall q, c :: 0 <= q < g.nproc && q < Scanned(s.pc[w]) && q != w && Waking(s.pc[w], c) ==> !Asleep(s, q, c)
  }

  /** A waker that holds the lock of c has yet to come to p. */
  ghost predicate Pending(g: Config, s: State, c: nat, p: nat)
    requires Sized(g, s) && c < |g.lockOf|
  {
    var l := CLock(g, c);
    && l in s.held && s.held[l] < g.ncpu && s.cur[s.held[l]].Some?
    && var w := s.cur[s.held[l]].value;
    && w < g.nproc && w != p && Waking(s.pc[w], c) && Scanned(s.pc[w]) <= p
  }

  ghost predicate CondOk(g: Config, s: State, p: nat, c: nat)
    requires Sized(g, s) && p < g.nproc && c < |g.lockOf|
  {
    && (Asleep(s, p, c) && s.cond[c] ==> Pending(g, s, c, p))
    && (s.pc[p] == SleepAcquire(c) || s.pc[p] == SleepRelease(c) ==> !s.cond[c])
  }

  ghost predicate Locks(g: Config, s: State)
    requires Sized(g, s)
  {
    forall l :: LockOk(g, s, l)
  }

  ghost predicate Cpus(g: Config, s: State)
    requires Sized(g, s)
  {
    forall k :: 0 <= k < g.ncpu ==> CpuOk(g, s, k)
  }

  ghost predicate Procs(g: Config, s: State)
    requires Sized(g, s)
  {
    forall p :: 0 <= p < g.nproc ==> ProcOk(g, s, p)
  }

  ghost predicate Wakes(g: Config, s: State)
    requires Sized(g, s)
  {
    forall w :: 0 <= w < g.nproc ==> WakeOk(g, s, w)
  }

  ghost predicate Conds(g: Config, s: State)
    requires Sized(g, s)
  {
    forall p, c :: 0 <= p < g.nproc && 0 <= c < |g.lockOf| ==> CondOk(g, s, p, c)
  }

  ghost predicate Inv(g: Config, s: State) {
    Sized(g, s) && Locks(g, s) && Cpus(g, s) && Procs(g, s) && Wakes(g, s) && Conds(g, s)
  }

  // Every step keeps it

  lemma CpuOfProc(g: Config, s: State, k: nat, p: nat)
    requires Sized(g, s) && Cpus(g, s) && k < g.ncpu && s.cur[k] == Some(p)
    ensures p < g.nproc && s.loop[k] == Away(p) && s.home[p] == Some(k)
  {
    assert CpuOk(g, s, k);
  }

  /** The lock that a step of p gives up, if any. */
  function Drops(g: Config, s: State, p: nat): (l: Option<Lock>)
    requires Sized(g, s) && p < g.nproc && GoodPc(g, s.pc[p])
  {
    match s.pc[p]
    case WaitRelease(c) => Some(CLock(g, c))
    case SleepRelease(c) => Some(CLock(g, c))
    case SleepUnlock(_) => Some(ProcLock(p))
    case WakeLock(c, i) => if i == g.nproc then Some(CLock(g, c)) else None
    case WakeUnlock(_, i) => Some(ProcLock(i))
    case YieldUnlock => Some(ProcLock(p))
    case KillUnlock(i) => Some(ProcLock(i))
    case _ => None
  }

  // A step seen field by field

  function NextPc(g: Config, s: State, p: nat, a: Choice): (pc: Pc)
    requires Sized(g, s) && p < g.nproc && GoodPc(g, s.pc[p])
    ensures GoodPc(g, pc)
  {
    match s.pc[p]
    case User => Start(g, a)
    case WaitAcquire(c) => WaitTest(c)
    case WaitTest(c) => if s.cond[c] then WaitRelease(c) else SleepAcquire(c)
    case WaitRelease(c) => User
    case SleepAcquire(c) => SleepRelease(c)
    case SleepRelease(c) => SleepChan(c)
    case SleepChan(c) => SleepState(c)
    case SleepState(c) => SleepSched(c)
    case SleepSched(c) => SleepTidy(c)
    case SleepTidy(c) => SleepUnlock(c)
    case SleepUnlock(c) => WaitAcquire(c)
    case WakeAcquire(c) => WakeSet(c)
    case WakeSet(c) => WakeLock(c, 0)
    case WakeLock(c, i) => if i == g.nproc then User else if i == p then WakeLock(c, i + 1) else WakeCheck(c, i)
    case WakeCheck(c, i) => WakeUnlock(c, i)
    case WakeUnlock(c, i) => WakeLock(c, i + 1)
    case YieldAcquire => YieldState
    case YieldState => YieldSched
    case YieldSched => YieldUnlock
    case YieldUnlock => User
    case KillLock(i) => KillCheck(i)
    case KillCheck(i) => KillUnlock(i)
    case KillUnlock(i) => User
  }

  function NextState(g: Config, s: State, p: nat, a: Choice): (q: seq<PState>)
    requires Sized(g, s) && p < g.nproc && GoodPc(g, s.pc[p])
    ensures |q| == |s.state|
  {
    match s.pc[p]
    case SleepState(_) => s.state[p := Sleeping]
    case YieldState => s.state[p := Runnable]
    case WakeCheck(c, i) => if s.state[i].Sleeping? && s.chan[i] == Some(c) then s.state[i := Runnable] else s.state
    case KillCheck(i) => if a == Go(true) && s.state[i].Sleeping? then s.state[i := Runnable] else s.state
    case _ => s.state
  }

  function NextChan(g: Config, s: State, p: nat): (q: seq<Option<nat>>)
    requires Sized(g, s) && p < g.nproc
    ensures |q| == |s.chan|
  {
    match s.pc[p]
    case SleepChan(c) => s.chan[p := Some(c)]
    case SleepTidy(_) => s.chan[p := None]
    case _ => s.chan
  }

  function NextCond(g: Config, s: State, p: nat, a: Choice): (q: seq<bool>)
    requires Sized(g, s) && p < g.nproc && GoodPc(g, s.pc[p])
    ensures |q| == |s.cond|
  {
    match s.pc[p]
    case WaitTest(c) => if s.cond[c] then s.cond[c := a != Go(true)] else s.cond
    case WakeSet(c) => s.cond[c := true]
    case _ => s.cond
  }

  predicate Leaves(pc: Pc) { pc.SleepSched? || pc.YieldSched? }

  function NoffAfter(n: nat, take: bool, drop: bool): (m: nat) {
    if take then n + 1 else if drop && n > 0 then n - 1 else n
  }

  function Fields(g: Config, s: State, k: nat, p: nat, a: Choice): (s': State)
    requires Sized(g, s) && k < g.ncpu && p < g.nproc && GoodPc(g, s.pc[p])
    ensures Sized(g, s')
  {
    var take, drop, off := Wants(g, s, p), Drops(g, s, p), Leaves(s.pc[p]);
    State(NextState(g, s, p, a), NextChan(g, s, p), s.pc[p := NextPc(g, s, p, a)], s.home,
          if off then s.loop[k := LoopBack(s.loop[k].i)] else s.loop, if off then s.cur[k := None] else s.cur, s.proc,
          s.noff[k := NoffAfter(s.noff[k], take.Some?, drop.Some?)], HeldAfter(s.held, k, take, drop),
              NextCond(g, s, p, a))
  }

  lemma WaitIsFields(g: Config, s: State, k: nat, p: nat, a: Choice)
    requires Sized(g, s) && k < g.ncpu && p < g.nproc && GoodPc(g, s.pc[p])
    requires s.pc[p].WaitAcquire? || s.pc[p].WaitTest? || s.pc[p].WaitRelease?
    ensures ProcStep(g, s, k, p, a) == Fields(g, s, k, p, a)
  {
    assert s.noff[k := s.noff[k]] == s.noff;
  }

  lemma SleepIsFields(g: Config, s: State, k: nat, p: nat, a: Choice)
    requires Sized(g, s) && k < g.ncpu && p < g.nproc && GoodPc(g, s.pc[p])
    requires InSleep(s.pc[p])
    ensures ProcStep(g, s, k, p, a) == Fields(g, s, k, p, a)
  {
    assert s.noff[k := s.noff[k]] == s.noff;
  }

  lemma WakeIsFields(g: Config, s: State, k: nat, p: nat, a: Choice)
    requires Sized(g, s) && k < g.ncpu && p < g.nproc && GoodPc(g, s.pc[p])
    requires InWake(s.pc[p])
    ensures ProcStep(g, s, k, p, a) == Fields(g, s, k, p, a)
  {
    assert s.noff[k := s.noff[k]] == s.noff;
  }

  lemma RestIsFields(g: Config, s: State, k: nat, p: nat, a: Choice)
    requires Sized(g, s) && k < g.ncpu && p < g.nproc && GoodPc(g, s.pc[p])
    requires !InSleep(s.pc[p]) && !InWake(s.pc[p]) && !s.pc[p].WaitAcquire? && !s.pc[p].WaitTest?
             && !s.pc[p].WaitRelease?
    ensures ProcStep(g, s, k, p, a) == Fields(g, s, k, p, a)
  {
    assert s.noff[k := s.noff[k]] == s.noff;
  }

  lemma StepIsFields(g: Config, s: State, k: nat, p: nat, a: Choice)
    requires Sized(g, s) && k < g.ncpu && p < g.nproc && GoodPc(g, s.pc[p])
    ensures ProcStep(g, s, k, p, a) == Fields(g, s, k, p, a)
  {
    hide ProcStep, Fields, InSleep, InWake;
    if InSleep(s.pc[p]) {
      SleepIsFields(g, s, k, p, a);
    } else if InWake(s.pc[p]) {
      WakeIsFields(g, s, k, p, a);
    } else if s.pc[p].WaitAcquire? || s.pc[p].WaitTest? || s.pc[p].WaitRelease? {
      WaitIsFields(g, s, k, p, a);
    } else {
      RestIsFields(g, s, k, p, a);
    }
  }

  function HeldAfter(held: map<Lock, nat>, k: nat, take: Option<Lock>, drop: Option<Lock>): (h: map<Lock, nat>) {
    if take.Some? then held[take.value := k] else if drop.Some? then held - {drop.value} else held
  }

  /** The lock that a step takes or drops is what its place in the code says. */
  lemma PcLock(g: Config, s: State, p: nat, a: Choice, l: Lock)
    requires Sized(g, s) && p < g.nproc && GoodPc(g, s.pc[p])
    ensures var take, drop, pc, pc' := Wants(g, s, p), Drops(g, s, p), s.pc[p], NextPc(g, s, p, a);
            && (drop.Some? ==> ProcHolds(g, pc, p, drop.value) && take.None?)
            && (take.Some? ==> !Leaves(pc)) && (drop.Some? ==> !Leaves(pc))
            && (Leaves(pc) ==> forall l2 :: ProcHolds(g, pc, p, l2) <==> l2 == ProcLock(p))
            && (!Leaves(pc) ==>
                  (ProcHolds(g, pc', p, l) <==>
                     if take.Some? then ProcHolds(g, pc, p, l) || l == take.value
                     else if drop.Some? then ProcHolds(g, pc, p, l) && l != drop.value
                     else ProcHolds(g, pc, p, l)))
            && ProcDepth(pc') == NoffAfter(ProcDepth(pc), take.Some?, drop.Some?)
  {
  }

  /** Taking a free lock or dropping one's own keeps the bookkeeping of locks. */
  lemma LockStep(g: Config, s: State, s': State, k: nat, take: Option<Lock>, drop: Option<Lock>)
    requires Sized(g, s) && Sized(g, s') && Locks(g, s) && k < g.ncpu
    requires s'.held == HeldAfter(s.held, k, take, drop)
    requires take.Some? ==> FreeLock(s, take.value)
    requires drop.Some? ==> Holds(g, s, k, drop.value)
    requires forall k2, l :: 0 <= k2 < g.ncpu && k2 != k ==> Holds(g, s', k2, l) == Holds(g, s, k2, l)
    requires forall l :: Holds(g, s', k, l) <==>
               if take.Some? then Holds(g, s, k, l) || l == take.value
               else if drop.Some? then Holds(g, s, k, l) && l != drop.value
               else Holds(g, s, k, l)
    ensures Locks(g, s')
  {
    hide Holds;
    forall l
      ensures LockOk(g, s', l)
    {
      assert LockOk(g, s, l);
      if drop.Some? {
        assert LockOk(g, s, drop.value);
      }
    }
  }

  lemma OthersHold(g: Config, s: State, s': State, k: nat, p: nat)
    requires Sized(g, s) && Cpus(g, s) && k < g.ncpu && s.cur[k] == Some(p) && p < g.nproc && Sized(g, s')
    requires s'.pc == s.pc[p := s'.pc[p]] && s'.cur == s.cur[k := s'.cur[k]] && s'.loop == s.loop[k := s'.loop[k]]
    ensures forall k2, l :: 0 <= k2 < g.ncpu && k2 != k ==> Holds(g, s', k2, l) == Holds(g, s, k2, l)
  {
    hide ProcHolds, GoodPc, LoopHolds;
    forall k2, l | 0 <= k2 < g.ncpu && k2 != k
      ensures Holds(g, s', k2, l) == Holds(g, s, k2, l)
    {
      assert CpuOk(g, s, k2) && CpuOk(g, s, k);
    }
  }

  lemma ProcKeepsLocks(g: Config, s: State, k: nat, p: nat, a: Choice)
    requires Inv(g, s) && CanStep(g, s, k) && s.cur[k] == Some(p)
    ensures p < g.nproc && GoodPc(g, s.pc[p]) && Locks(g, Fields(g, s, k, p, a))
  {
    hide Wakes, Conds, Procs, Wants, Drops, Locks, GoodPc, ProcHolds, NextPc, NextState, NextChan, NextCond, ProcDepth;
    CpuOfProc(g, s, k, p);
    var s' := Fields(g, s, k, p, a);
    OthersHold(g, s, s', k, p);
    forall l
      ensures Holds(g, s', k, l) <==>
                if Wants(g, s, p).Some? then Holds(g, s, k, l) || l == Wants(g, s, p).value
                else if Drops(g, s, p).Some? then Holds(g, s, k, l) && l != Drops(g, s, p).value
                else Holds(g, s, k, l)
      ensures Drops(g, s, p).Some? ==> Holds(g, s, k, Drops(g, s, p).value)
    {
      PcLock(g, s, p, a, l);
    }
    LockStep(g, s, s', k, Wants(g, s, p), Drops(g, s, p));
  }

  lemma ProcKeepsCpus(g: Config, s: State, k: nat, p: nat, a: Choice)
    requires Inv(g, s) && CanStep(g, s, k) && s.cur[k] == Some(p)
    ensures p < g.nproc && GoodPc(g, s.pc[p]) && Cpus(g, Fields(g, s, k, p, a))
  {
    hide Wakes, Conds, Procs, Locks, Wants, Drops, GoodPc, ProcHolds, NextPc, NextState, NextChan, NextCond, ProcDepth,
         Leaves;
    CpuOfProc(g, s, k, p);
    var s' := Fields(g, s, k, p, a);
    PcLock(g, s, p, a, ProcLock(p));
    OnlyLeaves(g, s, p, a);
    forall k2 | 0 <= k2 < g.ncpu
      ensures CpuOk(g, s', k2)
    {
      assert CpuOk(g, s, k2) && CpuOk(g, s, k);
    }
  }

  lemma OnlyLeaves(g: Config, s: State, p: nat, a: Choice)
    requires Sized(g, s) && p < g.nproc && GoodPc(g, s.pc[p])
    ensures Leaves(s.pc[p]) ==> ProcDepth(NextPc(g, s, p, a)) == 1 && Wants(g, s, p).None? && Drops(g, s, p).None?
  {
  }

  /** Where p is, from the CPU that runs it. */
  lemma RunningProc(g: Config, s: State, k: nat, p: nat)
    requires Inv(g, s) && k < g.ncpu && s.cur[k] == Some(p)
    ensures p < g.nproc && GoodPc(g, s.pc[p]) && s.home[p] == Some(k) && s.loop[k] == Away(p)
    ensures s.state[p] == (if s.pc[p].SleepSched? then Sleeping else if s.pc[p].YieldSched? then Runnable else Running)
    ensures s.pc[p].SleepTidy? || s.pc[p].SleepSched? || s.pc[p].SleepState? ==> s.chan[p] == Some(s.pc[p].c)
  {
    hide Wakes, Conds, Locks, GoodPc;
    CpuOfProc(g, s, k, p);
    assert ProcOk(g, s, p);
  }

  /** The state of a process only changes by its own steps or under its lock, when it is off its CPU. */
  lemma SleeperIsOff(g: Config, s: State, k: nat, i: nat)
    requires Inv(g, s) && k < g.ncpu && i < g.nproc && Holds(g, s, k, ProcLock(i)) && s.state[i].Sleeping?
    requires s.cur[k] != Some(i) && !(s.cur[k].None? && s.loop[k] == LoopBack(i))
    ensures s.home[i].None? && s.pc[i].SleepTidy?
  {
    hide Wakes, Conds;
    assert ProcOk(g, s, i) && LockOk(g, s, ProcLock(i));
    assert s.home[i].Some? ==> CpuOk(g, s, s.home[i].value) && Holds(g, s, s.home[i].value, ProcLock(i));
  }

  lemma ProcKeepsProcs(g: Config, s: State, k: nat, p: nat, a: Choice)
    requires Inv(g, s) && CanStep(g, s, k) && s.cur[k] == Some(p)
    ensures p < g.nproc && GoodPc(g, s.pc[p]) && Procs(g, Fields(g, s, k, p, a))
  {
    hide Wakes, Conds, Locks, Wants, Drops, Cpus;
    RunningProc(g, s, k, p);
    var s' := Fields(g, s, k, p, a);
    forall q | 0 <= q < g.nproc
      ensures ProcOk(g, s', q)
    {
      assert ProcOk(g, s, q);
      if (s.pc[p].WakeCheck? || s.pc[p].KillCheck?) && s.pc[p].i == q && q != p && s.state[q].Sleeping? {
        assert Holds(g, s, k, ProcLock(q));
        SleeperIsOff(g, s, k, q);
      }
    }
  }

  /** A process that is in the middle of its code is running, and its CPU holds its locks. */
  lemma MidCode(g: Config, s: State, q: nat, l: Lock)
    requires Inv(g, s) && q < g.nproc && !Resumes(s.pc[q])
    ensures s.home[q].Some? && s.home[q].value < g.ncpu && s.cur[s.home[q].value] == Some(q) && GoodPc(g, s.pc[q])
    ensures ProcHolds(g, s.pc[q], q, l) ==> l in s.held && s.held[l] == s.home[q].value
  {
    hide Wakes, Conds, ProcHolds;
    assert ProcOk(g, s, q);
    var k := s.home[q].value;
    assert CpuOk(g, s, k);
    assert LockOk(g, s, l);
    assert ProcHolds(g, s.pc[q], q, l) ==> Holds(g, s, k, l);
  }

  /** Nobody is on the way to sleep while another CPU holds their lock. */
  lemma NotFallingAsleep(g: Config, s: State, k: nat, i: nat)
    requires Inv(g, s) && k < g.ncpu && i < g.nproc && Holds(g, s, k, ProcLock(i)) && s.cur[k] != Some(i)
    ensures !s.pc[i].SleepChan? && !s.pc[i].SleepState? && !s.pc[i].SleepSched?
  {
    hide Wakes, Conds, Holds;
    assert LockOk(g, s, ProcLock(i));
    if s.pc[i].SleepChan? || s.pc[i].SleepState? || s.pc[i].SleepSched? {
      MidCode(g, s, i, ProcLock(i));
      assert false;
    }
  }

  /** Who enters the sleep on c holds the lock of c. */
  lemma AsleepAfter(g: Config, s: State, k: nat, p: nat, a: Choice, q: nat, c: nat)
    requires Inv(g, s) && k < g.ncpu && s.cur[k] == Some(p) && q < g.nproc && p < g.nproc && GoodPc(g, s.pc[p])
    requires Asleep(Fields(g, s, k, p, a), q, c)
    ensures Asleep(s, q, c) || (q == p && s.pc[p] == SleepRelease(c))
    ensures s.pc[p] == WakeCheck(c, q) ==> q == p
    ensures q == p ==> !Waking(s.pc[p], c) && s.pc[p] != WakeSet(c)
  {
    hide Wakes, Conds, Locks, Cpus, Wants, Drops, HeldAfter, NoffAfter, NextCond;
    RunningProc(g, s, k, p);
    assert ProcOk(g, s, q);
    if s.pc[p] == WakeCheck(c, q) && q != p {
      assert Holds(g, s, k, ProcLock(q));
      NotFallingAsleep(g, s, k, q);
    }
  }

  lemma ProcKeepsWakes(g: Config, s: State, k: nat, p: nat, a: Choice)
    requires Inv(g, s) && CanStep(g, s, k) && s.cur[k] == Some(p)
    ensures p < g.nproc && GoodPc(g, s.pc[p]) && Wakes(g, Fields(g, s, k, p, a))
  {
    hide Conds, Locks, Cpus, Procs, Wants, Drops, HeldAfter, NoffAfter, NextCond, NextState, NextChan, GoodPc,
         ProcHolds, Asleep;
    RunningProc(g, s, k, p);
    var s' := Fields(g, s, k, p, a);
    forall w | 0 <= w < g.nproc
      ensures WakeOk(g, s', w)
    {
      assert WakeOk(g, s, w);
      forall q, c | 0 <= q < g.nproc && q < Scanned(s'.pc[w]) && q != w && Waking(s'.pc[w], c)
        ensures !Asleep(s', q, c)
      {
        if Asleep(s', q, c) {
          AsleepAfter(g, s, k, p, a, q, c);
          WakerExcludes(g, s, k, p, w, c);
          assert false;
        }
      }
    }
  }

  /** While w wakes the sleepers of c, nobody else gets to sleep on c. */
  lemma WakerExcludes(g: Config, s: State, k: nat, p: nat, w: nat, c: nat)
    requires Inv(g, s) && k < g.ncpu && s.cur[k] == Some(p) && p < g.nproc && w < g.nproc
    ensures s.pc[p] == SleepRelease(c) ==> !Waking(s.pc[w], c)
  {
    hide Wakes, Conds;
    RunningProc(g, s, k, p);
    if s.pc[p] == SleepRelease(c) && Waking(s.pc[w], c) {
      MidCode(g, s, p, CLock(g, c));
      MidCode(g, s, w, CLock(g, c));
      assert false;
    }
  }

  /** A condition only changes under the lock of its channel. */
  lemma CondAfter(g: Config, s: State, p: nat, a: Choice, c: nat)
    requires Sized(g, s) && p < g.nproc && GoodPc(g, s.pc[p]) && c < |g.lockOf|
    ensures NextCond(g, s, p, a)[c] != s.cond[c] ==> ProcHolds(g, s.pc[p], p, CLock(g, c))
    ensures NextCond(g, s, p, a)[c] && !s.cond[c] ==> s.pc[p] == WakeSet(c)
  {
  }

  /** A waker that has not come to q yet does not get past q in one step, except by looking at q. */
  lemma PendingAfter(g: Config, s: State, k: nat, p: nat, a: Choice, q: nat, c: nat)
    requires Inv(g, s) && CanStep(g, s, k) && s.cur[k] == Some(p) && p < g.nproc && GoodPc(g, s.pc[p])
    requires q < g.nproc && c < |g.lockOf| && Pending(g, s, c, q) && s.pc[p] != WakeCheck(c, q)
    ensures Pending(g, Fields(g, s, k, p, a), c, q)
  {
    hide Wakes, Conds, Procs, Locks, NextCond, NextState, NextChan, NoffAfter, Start;
    var l := CLock(g, c);
    var w := s.cur[s.held[l]].value;
    MidCode(g, s, w, l);
    RunningProc(g, s, k, p);
    if w != p {
      assert CpuOk(g, s, s.held[l]);
      NotDropped(g, s, k, p, l);
    }
  }

  lemma NotDropped(g: Config, s: State, k: nat, p: nat, l: Lock)
    requires Inv(g, s) && CanStep(g, s, k) && s.cur[k] == Some(p) && p < g.nproc && GoodPc(g, s.pc[p])
    requires l in s.held && s.held[l] != k
    ensures Wants(g, s, p) != Some(l) && Drops(g, s, p) != Some(l)
  {
    hide Wakes, Conds, Procs;
    PcLock(g, s, p, Go(false), l);
    assert LockOk(g, s, l) && !Holds(g, s, k, l);
  }

  lemma ProcKeepsConds(g: Config, s: State, k: nat, p: nat, a: Choice)
    requires Inv(g, s) && CanStep(g, s, k) && s.cur[k] == Some(p)
    ensures p < g.nproc && GoodPc(g, s.pc[p]) && Conds(g, Fields(g, s, k, p, a))
  {
    hide Locks, Cpus, Procs, Wakes, Wants, Drops, HeldAfter, NoffAfter, NextCond, NextState, NextChan, GoodPc,
         ProcHolds, Asleep, Pending, NextPc;
    RunningProc(g, s, k, p);
    var s' := Fields(g, s, k, p, a);
    forall q, c | 0 <= q < g.nproc && 0 <= c < |g.lockOf|
      ensures CondOk(g, s', q, c)
    {
      assert CondOk(g, s, q, c);
      CondAfter(g, s, p, a, c);
      SleepPcAfter(g, s, k, p, a, q, c);
      if Asleep(s', q, c) && s'.cond[c] {
        AsleepAfter(g, s, k, p, a, q, c);
        if s.cond[c] {
          LooksAt(g, s, k, p, a, q, c);
          PendingAfter(g, s, k, p, a, q, c);
        } else {
          WakerStarts(g, s, k, p, a, q, c);
        }
      }
    }
  }

  lemma LooksAt(g: Config, s: State, k: nat, p: nat, a: Choice, q: nat, c: nat)
    requires Inv(g, s) && k < g.ncpu && s.cur[k] == Some(p) && p < g.nproc && GoodPc(g, s.pc[p]) && q < g.nproc
             && c < |g.lockOf|
    requires Pending(g, s, c, q) && (s.pc[p] == WakeCheck(c, q) ==> q == p)
    ensures s.pc[p] != WakeCheck(c, q)
  {
    hide Wakes, Conds, Procs;
    if s.pc[p] == WakeCheck(c, q) {
      MidCode(g, s, p, CLock(g, c));
    }
  }

  lemma WakerStarts(g: Config, s: State, k: nat, p: nat, a: Choice, q: nat, c: nat)
    requires Inv(g, s) && k < g.ncpu && s.cur[k] == Some(p) && p < g.nproc && GoodPc(g, s.pc[p]) && q < g.nproc
             && c < |g.lockOf|
    requires s.pc[p] == WakeSet(c) && q != p
    ensures Pending(g, Fields(g, s, k, p, a), c, q)
  {
    hide Wakes, Conds, Procs, Locks;
    MidCode(g, s, p, CLock(g, c));
  }

  lemma SleepPcAfter(g: Config, s: State, k: nat, p: nat, a: Choice, q: nat, c: nat)
    requires Inv(g, s) && k < g.ncpu && s.cur[k] == Some(p) && p < g.nproc && GoodPc(g, s.pc[p]) && q < g.nproc
             && c < |g.lockOf|
    ensures var s' := Fields(g, s, k, p, a);
            s'.pc[q] == SleepAcquire(c) || s'.pc[q] == SleepRelease(c) ==> !s'.cond[c]
  {
    hide Wakes, Locks, Procs, Cpus;
    var s' := Fields(g, s, k, p, a);
    assert CondOk(g, s, q, c);
    RunningProc(g, s, k, p);
    if q != p && (s.pc[q] == SleepAcquire(c) || s.pc[q] == SleepRelease(c)) {
      MidCode(g, s, q, CLock(g, c));
      if !Resumes(s.pc[p]) {
        MidCode(g, s, p, CLock(g, c));
      }
      CondAfter(g, s, p, a, c);
    }
  }

  // The scheduler's own steps

  lemma LoopShape(g: Config, s: State, k: nat)
    requires Inv(g, s) && CanStep(g, s, k) && s.cur[k].None?
    ensures s.loop[k].i < g.nproc && !s.loop[k].Away?
    ensures var s', i := LoopStep(g, s, k), s.loop[k].i;
            && Sized(g, s') && s'.pc == s.pc && s'.chan == s.chan && s'.cond == s.cond
            && s'.cur == (if s.loop[k].LoopSwitch? then s.cur[k := Some(i)] else s.cur)
            && s'.loop == s.loop[k := s'.loop[k]] && s'.noff == s.noff[k := s'.noff[k]]
                 && s'.proc == s.proc[k := s'.proc[k]]
            && s'.home == s.home[i := s'.home[i]] && s'.state == s.state[i := s'.state[i]]
            && s'.held == HeldAfter(s.held, k, if s.loop[k].LoopLock? then Some(ProcLock(i)) else None,
                                    if s.loop[k].LoopUnlock? then Some(ProcLock(i)) else None)
            && (s'.state[i].Sleeping? <==> s.state[i].Sleeping?)
  {
    hide Wakes, Conds, Procs, Locks;
    assert CpuOk(g, s, k);
  }

  lemma LoopKeepsLocks(g: Config, s: State, k: nat)
    requires Inv(g, s) && CanStep(g, s, k) && s.cur[k].None?
    ensures s.loop[k].i < g.nproc && Sized(g, LoopStep(g, s, k)) && Locks(g, LoopStep(g, s, k))
  {
    hide Wakes, Conds, Locks;
    LoopShape(g, s, k);
    var s', i := LoopStep(g, s, k), s.loop[k].i;
    assert CpuOk(g, s, k) && ProcOk(g, s, i);
    forall k2, l | 0 <= k2 < g.ncpu && k2 != k
      ensures Holds(g, s', k2, l) == Holds(g, s, k2, l)
    {
    }
    LockStep(g, s, s', k, if s.loop[k].LoopLock? then Some(ProcLock(i)) else None,
             if s.loop[k].LoopUnlock? then Some(ProcLock(i)) else None);
  }

  /** A process that the scheduler finds runnable is on no CPU. */
  lemma RunnableIsOff(g: Config, s: State, k: nat, i: nat)
    requires Inv(g, s) && k < g.ncpu && s.cur[k].None? && s.loop[k] == LoopCheck(i)
    ensures i < g.nproc && (s.state[i].Runnable? ==> s.home[i].None?)
  {
    hide Wakes, Conds;
    assert CpuOk(g, s, k) && ProcOk(g, s, i) && LockOk(g, s, ProcLock(i)) && Holds(g, s, k, ProcLock(i));
    assert s.state[i].Runnable? && s.home[i].Some? ==>
        CpuOk(g, s, s.home[i].value) && Holds(g, s, s.home[i].value, ProcLock(i));
  }

  lemma LoopKeepsCpus(g: Config, s: State, k: nat)
    requires Inv(g, s) && CanStep(g, s, k) && s.cur[k].None?
    ensures s.loop[k].i < g.nproc && Sized(g, LoopStep(g, s, k)) && Cpus(g, LoopStep(g, s, k))
  {
    hide Wakes, Conds, Locks;
    LoopShape(g, s, k);
    var s', i := LoopStep(g, s, k), s.loop[k].i;
    assert CpuOk(g, s, k) && ProcOk(g, s, i);
    if s.loop[k].LoopCheck? {
      RunnableIsOff(g, s, k, i);
    }
    forall k2 | 0 <= k2 < g.ncpu
      ensures CpuOk(g, s', k2)
    {
      assert CpuOk(g, s, k2);
    }
  }

  lemma LoopKeepsProcs(g: Config, s: State, k: nat)
    requires Inv(g, s) && CanStep(g, s, k) && s.cur[k].None?
    ensures s.loop[k].i < g.nproc && Sized(g, LoopStep(g, s, k)) && Procs(g, LoopStep(g, s, k))
  {
    hide Wakes, Conds, Locks, GoodPc;
    LoopShape(g, s, k);
    var s', i := LoopStep(g, s, k), s.loop[k].i;
    assert CpuOk(g, s, k);
    if s.loop[k].LoopCheck? {
      RunnableIsOff(g, s, k, i);
    }
    forall q | 0 <= q < g.nproc
      ensures ProcOk(g, s', q)
    {
      assert ProcOk(g, s, q) && ProcOk(g, s, i);
    }
  }

  lemma LoopKeepsWakes(g: Config, s: State, k: nat)
    requires Inv(g, s) && CanStep(g, s, k) && s.cur[k].None?
    ensures s.loop[k].i < g.nproc && Sized(g, LoopStep(g, s, k)) && Wakes(g, LoopStep(g, s, k))
            && Conds(g, LoopStep(g, s, k))
  {
    hide Locks, GoodPc, LoopStep, Procs;
    LoopShape(g, s, k);
    var s' := LoopStep(g, s, k);
    forall q, c: nat | 0 <= q < g.nproc
      ensures Asleep(s', q, c) == Asleep(s, q, c)
    {
    }
    forall w | 0 <= w < g.nproc
      ensures WakeOk(g, s', w)
    {
      assert WakeOk(g, s, w);
    }
    forall q, c | 0 <= q < g.nproc && 0 <= c < |g.lockOf|
      ensures CondOk(g, s', q, c)
    {
      assert CondOk(g, s, q, c);
    }
  }

  lemma StepKeepsInv(g: Config, s: State, k: nat, a: Choice)
    requires Inv(g, s) && CanStep(g, s, k)
    ensures Inv(g, Apply(g, s, k, a))
  {
    hide Locks, Cpus, Procs, Wakes, Conds, ProcStep, LoopStep, Fields, GoodPc, Wants;
    match s.cur[k]
    case Some(p) =>
      ProcKeepsLocks(g, s, k, p, a);
      ProcKeepsCpus(g, s, k, p, a);
      ProcKeepsProcs(g, s, k, p, a);
      ProcKeepsWakes(g, s, k, p, a);
      ProcKeepsConds(g, s, k, p, a);
      StepIsFields(g, s, k, p, a);
    case None =>
      LoopKeepsLocks(g, s, k);
      LoopKeepsCpus(g, s, k);
      LoopKeepsProcs(g, s, k);
      LoopKeepsWakes(g, s, k);
  }

  // Whole runs

  /** No lock is held, every CPU is in its scheduler, and the processes that exist can be run. */
  ghost predicate Init(g: Config, s: State) {
    && Sized(g, s) && s.held == map[] && g.nproc > 0
    && (forall k :: 0 <= k < g.ncpu ==> s.loop[k] == LoopLock(0) && s.cur[k].None? && s.proc[k].None? && s.noff[k] == 0)
    && (forall p :: 0 <= p < g.nproc ==> s.home[p].None? && s.pc[p] == YieldUnlock && s.chan[p].None?)
    && (forall p :: 0 <= p < g.nproc ==> s.state[p].Unused? || s.state[p].Runnable?)
  }

  lemma InitHasInv(g: Config, s: State)
    requires Init(g, s)
    ensures Inv(g, s)
  {
    forall k | 0 <= k < g.ncpu
      ensures CpuOk(g, s, k)
    {
    }
    forall p | 0 <= p < g.nproc
      ensures ProcOk(g, s, p)
    {
    }
  }

  datatype Event = Event(k: nat, a: Choice)

  /** The events can happen one after the other from s. */
  ghost predicate RunFrom(g: Config, s: State, run: seq<Event>)
    decreases |run|
  {
    run != [] ==> Sized(g, s) && CanStep(g, s, run[0].k) && RunFrom(g, Apply(g, s, run[0].k, run[0].a), run[1..])
  }

  ghost function After(g: Config, s: State, run: seq<Event>): (s': State)
    requires RunFrom(g, s, run)
    decreases |run|
  {
    if run == [] then s else After(g, Apply(g, s, run[0].k, run[0].a), run[1..])
  }

  lemma {:induction false} RunKeepsInv(g: Config, s: State, run: seq<Event>)
    requires Inv(g, s) && RunFrom(g, s, run)
    ensures Inv(g, After(g, s, run))
    decreases |run|
  {
    hide Inv, Apply, CanStep;
    if run != [] {
      StepKeepsInv(g, s, run[0].k, run[0].a);
      RunKeepsInv(g, Apply(g, s, run[0].k, run[0].a), run[1..]);
    }
  }

  lemma Reached(g: Config, s0: State, run: seq<Event>)
    requires Init(g, s0) && RunFrom(g, s0, run)
    ensures Inv(g, After(g, s0, run))
  {
    InitHasInv(g, s0);
    RunKeepsInv(g, s0, run);
  }

  /** In every run, whenever the lock of a channel is free, nobody sleeps on it while its condition holds. */
  lemma NoLostWakeup(g: Config, s0: State, run: seq<Event>, p: nat, c: nat)
    requires Init(g, s0) && RunFrom(g, s0, run) && p < g.nproc && c < |g.lockOf|
    ensures var s := After(g, s0, run);
            Sized(g, s) && (CLock(g, c) !in s.held && s.state[p].Sleeping? && s.chan[p] == Some(c) ==> !s.cond[c])
  {
    Reached(g, s0, run);
    hide Locks, Cpus, Procs, Wakes;
    assert CondOk(g, After(g, s0, run), p, c);
  }

  /** In every run, when wakeup() has gone through the table, nobody is left asleep on its channel. */
  lemma WakeupWakesAll(g: Config, s0: State, run: seq<Event>, k: nat, w: nat, c: nat, p: nat)
    requires Init(g, s0) && RunFrom(g, s0, run) && k < g.ncpu && p < g.nproc
    ensures var s := After(g, s0, run);
            && Sized(g, s)
            && (s.cur[k] == Some(w) && w < g.nproc && s.pc[w] == WakeLock(c, g.nproc) ==>
                  !(s.state[p].Sleeping? && s.chan[p] == Some(c)))
  {
    Reached(g, s0, run);
    var s := After(g, s0, run);
    hide Locks, Conds;
    if s.cur[k] == Some(w) && w < g.nproc && s.pc[w] == WakeLock(c, g.nproc) {
      assert WakeOk(g, s, w) && ProcOk(g, s, w);
      RunningProc(g, s, k, w);
      assert Waking(s.pc[w], c) && Scanned(s.pc[w]) == g.nproc;
      assert p != w ==> !Asleep(s, p, c);
    }
  }

  /** In every run, whenever p->lock is free, p is RUNNING exactly when some CPU's c->proc is p, and that CPU is the
      only one. */
  lemma RunningOnOneCpu(g: Config, s0: State, run: seq<Event>, p: nat)
    requires Init(g, s0) && RunFrom(g, s0, run) && p < g.nproc
    ensures var s := After(g, s0, run);
            && Sized(g, s)
            && (ProcLock(p) !in s.held ==>
                  (s.state[p].Running? <==> exists k :: 0 <= k < g.ncpu && s.proc[k] == Some(p)))
            && (forall k, k2 :: 0 <= k < g.ncpu && 0 <= k2 < g.ncpu && s.proc[k] == Some(p) && s.proc[k2] == Some(p) ==>
                    k == k2)
  {
    Reached(g, s0, run);
    var s := After(g, s0, run);
    hide Wakes, Conds, Inv;
    OneCpu(g, s, p);
  }

  lemma OneCpu(g: Config, s: State, p: nat)
    requires Inv(g, s) && p < g.nproc
    ensures ProcLock(p) !in s.held && s.state[p].Running? ==> exists k :: 0 <= k < g.ncpu && s.proc[k] == Some(p)
    ensures forall k :: 0 <= k < g.ncpu && s.proc[k] == Some(p) ==>
              s.home[p] == Some(k) && (ProcLock(p) !in s.held ==> s.state[p].Running?)
  {
    hide Wakes, Conds;
    assert ProcOk(g, s, p) && LockOk(g, s, ProcLock(p));
    if s.home[p].Some? {
      assert CpuOk(g, s, s.home[p].value);
      assert Holds(g, s, s.home[p].value, ProcLock(p)) || s.proc[s.home[p].value] == Some(p);
    }
    forall k | 0 <= k < g.ncpu && s.proc[k] == Some(p)
      ensures s.home[p] == Some(k) && (ProcLock(p) !in s.held ==> s.state[p].Running?)
    {
      assert CpuOk(g, s, k);
      assert s.pc[p].SleepSched? || s.pc[p].YieldSched? || !s.loop[k].Away? ==> Holds(g, s, k, ProcLock(p));
    }
  }

  /** The lock that the next step of CPU k acquires or releases, be it for a process or for its scheduler loop. */
  function CpuWants(g: Config, s: State, k: nat): (l: Option<Lock>)
    requires Sized(g, s) && k < g.ncpu
  {
    match s.cur[k]
    case Some(p) => if p < g.nproc && GoodPc(g, s.pc[p]) then Wants(g, s, p) else None
    case None => if s.loop[k].LoopLock? then Some(ProcLock(s.loop[k].i)) else None
  }

  function CpuDrops(g: Config, s: State, k: nat): (l: Option<Lock>)
    requires Sized(g, s) && k < g.ncpu
  {
    match s.cur[k]
    case Some(p) => if p < g.nproc && GoodPc(g, s.pc[p]) then Drops(g, s, p) else None
    case None => if s.loop[k].LoopUnlock? then Some(ProcLock(s.loop[k].i)) else None
  }

  /** CPU k calls sched(), for the process p that it runs. */
  predicate CallsSched(s: State, k: nat, p: nat)
    requires k < |s.cur| && p < |s.pc|
  {
    s.cur[k] == Some(p) && Leaves(s.pc[p])
  }

  /** In every run the checks of sched(), acquire(), release() and pop_off() pass on every CPU, in processes and in
      the scheduler loop: who calls sched() holds p->lock and no other lock and is not RUNNING, nobody acquires a lock
      that its CPU holds, only the holder releases a lock, and its CPU has interrupts off then. */
  lemma LocksNeverPanic(g: Config, s0: State, run: seq<Event>, k: nat, p: nat)
    requires Init(g, s0) && RunFrom(g, s0, run) && k < g.ncpu && p < g.nproc
    ensures var s := After(g, s0, run);
            && Sized(g, s)
            && (CallsSched(s, k, p) ==>
                  ProcLock(p) in s.held && s.held[ProcLock(p)] == k && s.noff[k] == 1 && !s.state[p].Running?)
            && (CpuWants(g, s, k).Some? && CpuWants(g, s, k).value in s.held ==> s.held[CpuWants(g, s, k).value] != k)
            && (CpuDrops(g, s, k).Some? ==>
                  CpuDrops(g, s, k).value in s.held && s.held[CpuDrops(g, s, k).value] == k && s.noff[k] >= 1)
  {
    Reached(g, s0, run);
    var s := After(g, s0, run);
    hide Wakes, Conds, Inv, Wants, Drops, ProcHolds;
    match s.cur[k]
    case Some(q) =>
      RunningProc(g, s, k, q);
      Checks(g, s, k, q);
    case None =>
      LoopChecks(g, s, k);
  }

  lemma LoopChecks(g: Config, s: State, k: nat)
    requires Inv(g, s) && k < g.ncpu && s.cur[k].None?
    ensures s.loop[k].LoopLock? && ProcLock(s.loop[k].i) in s.held ==> s.held[ProcLock(s.loop[k].i)] != k
    ensures s.loop[k].LoopUnlock? ==>
              ProcLock(s.loop[k].i) in s.held && s.held[ProcLock(s.loop[k].i)] == k && s.noff[k] == 1
  {
    hide Wakes, Conds, Procs;
    var l := ProcLock(s.loop[k].i);
    assert CpuOk(g, s, k) && LockOk(g, s, l);
    assert s.loop[k].LoopLock? ==> !Holds(g, s, k, l);
    assert s.loop[k].LoopUnlock? ==> Holds(g, s, k, l);
  }

  lemma Checks(g: Config, s: State, k: nat, p: nat)
    requires Inv(g, s) && k < g.ncpu && s.cur[k] == Some(p) && p < g.nproc && GoodPc(g, s.pc[p])
    ensures Leaves(s.pc[p]) ==>
              ProcLock(p) in s.held && s.held[ProcLock(p)] == k && s.noff[k] == 1 && !s.state[p].Running?
    ensures Wants(g, s, p).Some? && Wants(g, s, p).value in s.held ==> s.held[Wants(g, s, p).value] != k
    ensures Drops(g, s, p).Some? ==>
              Drops(g, s, p).value in s.held && s.held[Drops(g, s, p).value] == k && s.noff[k] >= 1
  {
    hide Wakes, Conds;
    assert CpuOk(g, s, k) && ProcOk(g, s, p) && LockOk(g, s, ProcLock(p));
    assert Leaves(s.pc[p]) ==> Holds(g, s, k, ProcLock(p));
    if Wants(g, s, p).Some? {
      assert LockOk(g, s, Wants(g, s, p).value) && !Holds(g, s, k, Wants(g, s, p).value);
    }
    if Drops(g, s, p).Some? {
      assert LockOk(g, s, Drops(g, s, p).value) && Holds(g, s, k, Drops(g, s, p).value);
    }
  }

  // Nobody spins for ever on a lock whose holder is stuck

  /** The CPU that holds the lock that CPU k spins on. */
  function Holder(g: Config, s: State, k: nat): (h: Option<nat>)
    requires Sized(g, s) && k < g.ncpu
    ensures h.Some? ==> CpuWants(g, s, k).Some? && CpuWants(g, s, k).value in s.held
  {
    var l := CpuWants(g, s, k);
    if l.Some? && l.value in s.held then Some(s.held[l.value]) else None
  }

  lemma StepsOrSpins(g: Config, s: State, k: nat)
    requires Inv(g, s) && k < g.ncpu
    ensures CanStep(g, s, k) <==> Holder(g, s, k).None?
    ensures Holder(g, s, k).Some? ==> Holder(g, s, k).value < g.ncpu
  {
    hide Wakes, Conds, Procs, Wants, ProcHolds;
    assert CpuOk(g, s, k);
    if s.cur[k].Some? {
      RunningProc(g, s, k, s.cur[k].value);
    }
    if Holder(g, s, k).Some? {
      assert LockOk(g, s, CpuWants(g, s, k).value);
    }
  }

  /** Who holds the lock of a process takes no other lock before releasing it. */
  lemma ProcLockMoves(g: Config, s: State, k: nat, i: nat)
    requires Inv(g, s) && k < g.ncpu && Holds(g, s, k, ProcLock(i))
    ensures CanStep(g, s, k)
  {
    hide Wakes, Conds, Procs, Locks;
    assert CpuOk(g, s, k);
    assert CpuWants(g, s, k).None?;
    hide Wants, ProcHolds;
    StepsOrSpins(g, s, k);
  }

  /** In every run every CPU can step, or spins on a lock whose holder can, or the holder spins on the lock of a process
      and its holder can: spinlocks never deadlock. */
  lemma NoDeadlock(g: Config, s0: State, run: seq<Event>, k: nat)
    requires Init(g, s0) && RunFrom(g, s0, run) && k < g.ncpu
    ensures var s := After(g, s0, run);
            && Sized(g, s)
            && (|| CanStep(g, s, k)
                || (&& Holder(g, s, k).Some? && Holder(g, s, k).value < g.ncpu
                    && var k2 := Holder(g, s, k).value;
                    || CanStep(g, s, k2)
                    || (Holder(g, s, k2).Some? && CanStep(g, s, Holder(g, s, k2).value))))
  {
    Reached(g, s0, run);
    var s := After(g, s0, run);
    hide Locks, Cpus, Procs, Wakes, Conds, After, RunFrom, CanStep, Holder;
    StepsOrSpins(g, s, k);
    if Holder(g, s, k).Some? {
      var k2 := Holder(g, s, k).value;
      StepsOrSpins(g, s, k2);
      if Holder(g, s, k2).Some? {
        HolderOfHolder(g, s, k, k2);
      }
    }
  }

  lemma HolderOfHolder(g: Config, s: State, k: nat, k2: nat)
    requires Inv(g, s) && k < g.ncpu && k2 < g.ncpu && Holder(g, s, k) == Some(k2) && Holder(g, s, k2).Some?
    ensures CanStep(g, s, Holder(g, s, k2).value)
  {
    hide Wakes, Conds, Procs, CanStep;
    var l, l2 := CpuWants(g, s, k).value, CpuWants(g, s, k2).value;
    assert LockOk(g, s, l) && LockOk(g, s, l2);
    assert Holds(g, s, k2, l);
    StepsOrSpins(g, s, k2);
    if l.ProcLock? {
      ProcLockMoves(g, s, k2, l.p);
      assert false;
    }
    assert l2.ProcLock?;
    ProcLockMoves(g, s, Holder(g, s, k2).value, l2.p);
  }

  // Who changes a process's state, and when a wait ends

  /** What a step of CPU k does to the places in the code, the states and what the CPUs execute. */
  lemma StepMoves(g: Config, s: State, k: nat, a: Choice)
    requires Inv(g, s) && CanStep(g, s, k)
    ensures Sized(g, Apply(g, s, k, a))
    ensures forall k2 :: 0 <= k2 < g.ncpu && k2 != k ==> Apply(g, s, k, a).cur[k2] == s.cur[k2]
    ensures s.cur[k].Some? ==>
              && s.cur[k].value < g.nproc && GoodPc(g, s.pc[s.cur[k].value])
              && Apply(g, s, k, a).state == NextState(g, s, s.cur[k].value, a)
              && Apply(g, s, k, a).pc == s.pc[s.cur[k].value := NextPc(g, s, s.cur[k].value, a)]
    ensures s.cur[k].None? ==>
              && s.loop[k].i < g.nproc && Apply(g, s, k, a).pc == s.pc
              && Apply(g, s, k, a).state ==
                   if s.loop[k].LoopCheck? && s.state[s.loop[k].i].Runnable? then s.state[s.loop[k].i := Running]
                   else s.state
  {
    hide Locks, Procs, Wakes, Conds, GoodPc, Wants, Drops, ProcStep, NextPc, NextState, NextChan, NextCond, HeldAfter,
         NoffAfter;
    match s.cur[k]
    case Some(p) =>
      CpuOfProc(g, s, k, p);
      StepIsFields(g, s, k, p, a);
    case None =>
      LoopShape(g, s, k);
  }

  /** A process's state only changes while the CPU that changes it holds the process's lock. */
  lemma StateNeedsLock(g: Config, s: State, k: nat, a: Choice, i: nat)
    requires Inv(g, s) && CanStep(g, s, k) && i < g.nproc
    ensures var s' := Apply(g, s, k, a);
            Sized(g, s') && (s'.state[i] != s.state[i] ==> ProcLock(i) in s.held && s.held[ProcLock(i)] == k)
  {
    hide Wakes, Conds, Procs, Apply, NextPc;
    StepMoves(g, s, k, a);
    assert CpuOk(g, s, k) && LockOk(g, s, ProcLock(i));
    if Apply(g, s, k, a).state[i] != s.state[i] {
      assert Holds(g, s, k, ProcLock(i));
    }
  }

  /** The step of CPU k wakes process i: wakeup() on the channel that i sleeps on, or kkill() of i. */
  predicate Awakes(g: Config, s: State, k: nat, a: Choice, i: nat)
    requires Sized(g, s) && CanStep(g, s, k) && i < g.nproc
  {
    && s.cur[k].Some?
    && var pc := s.pc[s.cur[k].value];
    (pc.WakeCheck? && pc.i == i && s.chan[i] == Some(pc.c)) || (pc == KillCheck(i) && a == Go(true))
  }

  lemma Awakened(g: Config, s: State, k: nat, a: Choice, i: nat)
    requires Inv(g, s) && CanStep(g, s, k) && i < g.nproc && s.state[i].Sleeping?
    ensures var s' := Apply(g, s, k, a);
            Sized(g, s') && s'.state[i] == if Awakes(g, s, k, a, i) then Runnable else Sleeping
  {
    hide Wakes, Conds, Locks, Apply, NextPc, Wants;
    StepMoves(g, s, k, a);
    assert ProcOk(g, s, i);
    if s.cur[k].Some? {
      RunningProc(g, s, k, s.cur[k].value);
    }
  }

  /** In every run, a sleeping process stays asleep until wakeup() on its channel or kkill() finds it, and then it is
      runnable. */
  lemma WokenExactly(g: Config, s0: State, run: seq<Event>, k: nat, a: Choice, i: nat)
    requires Init(g, s0) && RunFrom(g, s0, run) && i < g.nproc
    ensures var s := After(g, s0, run);
            && Sized(g, s)
            && (CanStep(g, s, k) && s.state[i].Sleeping? ==>
                  && Sized(g, Apply(g, s, k, a))
                  && Apply(g, s, k, a).state[i] == if Awakes(g, s, k, a, i) then Runnable else Sleeping)
  {
    Reached(g, s0, run);
    var s := After(g, s0, run);
    hide Locks, Cpus, Procs, Wakes, Conds, After, RunFrom, Apply, CanStep, Awakes;
    if CanStep(g, s, k) && s.state[i].Sleeping? {
      Awakened(g, s, k, a, i);
    }
  }

  /** CPU k has come, in process p, to the table entry i that kkill() looks for. */
  predicate FindsVictim(g: Config, s: State, k: nat, p: nat, i: nat) {
    Sized(g, s) && CanStep(g, s, k) && s.cur[k] == Some(p) && s.pc[p] == KillCheck(i)
  }

  /** In every run, a process that sleeps when kkill() finds it is runnable until kkill() releases its lock: `more` is
      what the other CPUs do meanwhile. */
  lemma KillWakes(g: Config, s0: State, run: seq<Event>, k: nat, p: nat, i: nat, more: seq<Event>)
    requires Init(g, s0) && RunFrom(g, s0, run) && FindsVictim(g, After(g, s0, run), k, p, i)
    requires RunFrom(g, Apply(g, After(g, s0, run), k, Go(true)), more) && forall e <- more :: e.k != k
    ensures var s, s' := After(g, s0, run), After(g, Apply(g, After(g, s0, run), k, Go(true)), more);
            && Sized(g, s') && p < g.nproc && i < g.nproc && s'.pc[p] == KillUnlock(i)
            && s'.state[i] == if s.state[i].Sleeping? then Runnable else s.state[i]
  {
    Reached(g, s0, run);
    var s := After(g, s0, run);
    hide Locks, Cpus, Procs, Wakes, Conds, After, RunFrom, Apply;
    StepMoves(g, s, k, Go(true));
    StepKeepsInv(g, s, k, Go(true));
    OnItsCpu(g, s, k, p, Go(true));
    StateKept(g, Apply(g, s, k, Go(true)), k, p, i, more);
  }

  lemma OnItsCpu(g: Config, s: State, k: nat, p: nat, a: Choice)
    requires Inv(g, s) && CanStep(g, s, k) && s.cur[k] == Some(p) && !Leaves(s.pc[p])
    ensures Sized(g, Apply(g, s, k, a)) && Apply(g, s, k, a).cur[k] == Some(p)
  {
    hide Locks, Procs, Wakes, Conds, GoodPc, Wants, Drops, ProcStep, NextPc, NextState, NextChan, NextCond, HeldAfter,
         NoffAfter;
    CpuOfProc(g, s, k, p);
    StepIsFields(g, s, k, p, a);
  }

  lemma {:induction false} StateKept(g: Config, s: State, k: nat, p: nat, i: nat, run: seq<Event>)
    requires Inv(g, s) && RunFrom(g, s, run) && (forall e <- run :: e.k != k) && k < g.ncpu && i < g.nproc
    requires s.cur[k] == Some(p) && p < g.nproc && s.pc[p] == KillUnlock(i)
    ensures var s' := After(g, s, run); Sized(g, s') && s'.pc[p] == KillUnlock(i) && s'.state[i] == s.state[i]
    decreases |run|
  {
    hide Locks, Cpus, Procs, Wakes, Conds, Apply, CanStep;
    if run != [] {
      assert run[0] in run;
      KillerWaits(g, s, k, p, i, run[0].k, run[0].a);
      StepKeepsInv(g, s, run[0].k, run[0].a);
      StateKept(g, Apply(g, s, run[0].k, run[0].a), k, p, i, run[1..]);
    }
  }

  lemma KillerWaits(g: Config, s: State, k: nat, p: nat, i: nat, k2: nat, a: Choice)
    requires Inv(g, s) && CanStep(g, s, k2) && k2 != k && k < g.ncpu && i < g.nproc
    requires s.cur[k] == Some(p) && p < g.nproc && s.pc[p] == KillUnlock(i)
    ensures var s' := Apply(g, s, k2, a);
            Sized(g, s') && s'.cur[k] == Some(p) && s'.pc[p] == s.pc[p] && s'.state[i] == s.state[i]
  {
    hide Wakes, Conds, Procs, Apply, NextPc, NextState;
    assert CpuOk(g, s, k) && CpuOk(g, s, k2) && LockOk(g, s, ProcLock(i)) && Holds(g, s, k, ProcLock(i));
    StepMoves(g, s, k2, a);
    StateNeedsLock(g, s, k2, a, i);
  }

  /** A process is in the loop that waits for the condition of c. */
  predicate InLoop(pc: Pc, c: nat) { (pc.WaitAcquire? || pc.WaitTest? || InSleep(pc)) && pc.c == c }

  /** In the run, process p tests the condition of c while its CPU holds the lock of c, and finds it true. */
  ghost predicate FindsTrue(g: Config, s: State, run: seq<Event>, p: nat, c: nat)
    requires RunFrom(g, s, run) && p < g.nproc && c < |g.lockOf|
    decreases |run|
  {
    && run != []
    && (|| (&& s.cur[run[0].k] == Some(p) && s.pc[p] == WaitTest(c) && s.cond[c]
            && CLock(g, c) in s.held && s.held[CLock(g, c)] == run[0].k)
        || FindsTrue(g, Apply(g, s, run[0].k, run[0].a), run[1..], p, c))
  }

  /** In every run, a process leaves its waiting loop only after it has found the condition true under its lock. */
  lemma {:induction false} WaitsForCondition(g: Config, s: State, run: seq<Event>, p: nat, c: nat)
    requires Inv(g, s) && RunFrom(g, s, run) && p < g.nproc && c < |g.lockOf| && InLoop(s.pc[p], c)
    ensures var s' := After(g, s, run); Sized(g, s') && (!InLoop(s'.pc[p], c) ==> FindsTrue(g, s, run, p, c))
    decreases |run|
  {
    hide Locks, Cpus, Procs, Wakes, Conds, Apply, CanStep, InLoop;
    if run != [] {
      var k, a := run[0].k, run[0].a;
      StepKeepsInv(g, s, k, a);
      LoopExit(g, s, k, a, p, c);
      if InLoop(Apply(g, s, k, a).pc[p], c) {
        WaitsForCondition(g, Apply(g, s, k, a), run[1..], p, c);
      } else {
        RunKeepsInv(g, s, run);
      }
    }
  }

  lemma LoopExit(g: Config, s: State, k: nat, a: Choice, p: nat, c: nat)
    requires Inv(g, s) && CanStep(g, s, k) && p < g.nproc && c < |g.lockOf| && InLoop(s.pc[p], c)
    ensures Sized(g, Apply(g, s, k, a))
    ensures !InLoop(Apply(g, s, k, a).pc[p], c) ==>
              && s.cur[k] == Some(p) && s.pc[p] == WaitTest(c) && s.cond[c]
              && CLock(g, c) in s.held && s.held[CLock(g, c)] == k
  {
    hide Wakes, Conds, Locks, Procs, Apply, NextState;
    StepMoves(g, s, k, a);
    if !InLoop(Apply(g, s, k, a).pc[p], c) {
      assert CpuOk(g, s, k);
      MidCode(g, s, p, CLock(g, c));
      assert CpuOk(g, s, s.home[p].value);
    }
  }
}
