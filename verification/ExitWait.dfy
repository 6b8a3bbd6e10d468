/** fork, exit and wait (riscv/kernel/proc.c:110-190, 278-438) as a step system for any number of
    processes. A step is one action of one process under the locks that it holds; any process that
    is RUNNING or RUNNABLE (here: Live) may take the next step. wakeup(p) is one step, since only p
    itself sleeps on its own address, and it needs p->lock as the original does. */
module ExitWait {
  import opened Values

  /** Live is RUNNABLE, RUNNING or asleep elsewhere than in wait; Sleeping is asleep in wait. */
  datatype PState = Unused | Used | Live | Sleeping | Zombie

  /** How kwait() ends: with the pid of a child, or with -1 because there is no child, the caller has been killed, or
      the status of a child could not be copied out. */
  datatype Outcome = Reaped(pid: nat) | NoKids | WasKilled | NoCopy

  datatype Pc =
    | Unborn
    | User
    | ForkLocked(c: nat) | ForkAcquire(c: nat) | ForkParent(c: nat) | ForkRelease(c: nat) | ForkRun(c: nat)
    | ExitAcquire | Reparent(i: nat) | ReparentWake(i: nat)
    | ExitWake | ExitLock | ExitZombie | ExitRelease | ExitSwitch
    | Dead
    | WaitAcquire | WaitScan(i: nat, kids: bool) | WaitLook(i: nat)
    | WaitNext(i: nat) | WaitFound(i: nat, o: Outcome) | WaitRelease(o: Outcome)
    | WaitSleep | WaitDrop | WaitFall | WaitBack

  /** waitLock and the entries of lock name the process that holds wait_lock and p->lock. The field
      reaped lists the pids that wait has returned; no step reads it. */
  datatype State = State(
    state: seq<PState>, parent: seq<Option<nat>>, pid: seq<nat>, pc: seq<Pc>,
    killed: seq<bool>, waitLock: Option<nat>, lock: seq<Option<nat>>, nextpid: nat, reaped: seq<nat>)

  datatype Choice = Fork(c: nat) | Exit | Wait | Go(flag: bool)

  datatype Event = Run(p: nat, a: Choice) | Switch(p: nat) | Kill(p: nat)

  predicate Sized(n: nat, s: State) {
    |s.state| == |s.parent| == |s.pid| == |s.pc| == |s.killed| == |s.lock| == n
  }

  predicate GoodPc(n: nat, pc: Pc) {
    match pc
    case ForkLocked(c) => c < n
    case ForkAcquire(c) => c < n
    case ForkParent(c) => c < n
    case ForkRelease(c) => c < n
    case ForkRun(c) => c < n
    case Reparent(i) => i <= n
    case ReparentWake(i) => i < n
    case WaitScan(i, _) => i <= n
    case WaitLook(i) => i < n
    case WaitNext(i) => i < n
    case WaitFound(i, _) => i < n
    case _ => true
  }

  function At(s: State, p: nat, pc: Pc): (s': State)
    requires p < |s.pc|
  {
    s.(pc := s.pc[p := pc])
  }

  /** freeproc(). */
  function FreeProc(s: State, c: nat): (s': State)
    requires c < |s.state| && c < |s.parent| && c < |s.pid| && c < |s.pc| && c < |s.killed|
  {
    s.(state := s.state[c := Unused], parent := s.parent[c := None], pid := s.pid[c := 0], pc := s.pc[c := Unborn],
       killed := s.killed[c := false])
  }

  predicate InFork(pc: Pc) { pc.ForkLocked? || pc.ForkAcquire? || pc.ForkParent? || pc.ForkRelease? || pc.ForkRun? }

  /** kfork() for the slot c that allocproc() found; a failure frees the slot. */
  function ForkStep(n: nat, s: State, p: nat, a: Choice): (s': State)
    requires Sized(n, s) && p < n && GoodPc(n, s.pc[p]) && InFork(s.pc[p])
  {
    match s.pc[p]
    case ForkLocked(c) =>
      var s1 := if a == Go(true) then FreeProc(s, c) else s;
      At(s1.(lock := s.lock[c := None]), p, if a == Go(true) then User else ForkAcquire(c))
    case ForkAcquire(c) => At(s.(waitLock := Some(p)), p, ForkParent(c))
    case ForkParent(c) => At(s.(parent := s.parent[c := Some(p)]), p, ForkRelease(c))
    case ForkRelease(c) => At(s.(waitLock := None), p, ForkRun(c))
    case ForkRun(c) => At(At(s.(state := s.state[c := Live]), c, User), p, User)
  }

  predicate InExit(pc: Pc) {
    || pc.ExitAcquire? || pc.Reparent? || pc.ReparentWake? || pc.ExitWake? || pc.ExitLock? || pc.ExitZombie?
    || pc.ExitRelease?
  }

  function Woken(state: seq<PState>, x: nat): (q: seq<PState>) {
    if x < |state| && state[x].Sleeping? then state[x := Live] else state
  }

  /** kexit() and reparent(); init is process 0. */
  function ExitStep(n: nat, s: State, p: nat): (s': State)
    requires Sized(n, s) && p < n && GoodPc(n, s.pc[p]) && InExit(s.pc[p])
  {
    match s.pc[p]
    case ExitAcquire => At(s.(waitLock := Some(p)), p, Reparent(0))
    case Reparent(i) =>
      if i == n then At(s, p, ExitWake)
      else if s.parent[i] == Some(p) then At(s.(parent := s.parent[i := Some(0)]), p, ReparentWake(i))
      else At(s, p, Reparent(i + 1))
    case ReparentWake(i) => At(s.(state := Woken(s.state, 0)), p, Reparent(i + 1))
    case ExitWake => At(s.(state := if s.parent[p].Some? then Woken(s.state, s.parent[p].value) else s.state), p,
        ExitLock)
    case ExitLock => At(s.(lock := s.lock[p := Some(p)]), p, ExitZombie)
    case ExitZombie => At(s.(state := s.state[p := Zombie]), p, ExitRelease)
    case ExitRelease => At(s.(waitLock := None), p, ExitSwitch)
  }

  predicate InWait(pc: Pc) {
    || pc.WaitAcquire? || pc.WaitScan? || pc.WaitLook? || pc.WaitNext? || pc.WaitFound? || pc.WaitRelease?
    || pc.WaitSleep? || pc.WaitDrop? || pc.WaitFall? || pc.WaitBack?
  }

  /** kwait(); the choice says whether copyout fails. */
  function WaitStep(n: nat, s: State, p: nat, a: Choice): (s': State)
    requires Sized(n, s) && p < n && GoodPc(n, s.pc[p]) && InWait(s.pc[p])
  {
    match s.pc[p]
    case WaitAcquire => At(s.(waitLock := Some(p)), p, WaitScan(0, false))
    case WaitScan(i, kids) =>
      if i == n then
        At(s, p, if !kids then WaitRelease(NoKids) else if s.killed[p] then WaitRelease(WasKilled) else WaitSleep)
      else if s.parent[i] == Some(p) then At(s.(lock := s.lock[i := Some(p)]), p, WaitLook(i))
      else At(s, p, WaitScan(i + 1, kids))
    case WaitLook(i) =>
      if !s.state[i].Zombie? then At(s, p, WaitNext(i))
      else if a == Go(true) then At(s, p, WaitFound(i, NoCopy))
      else At(FreeProc(s, i).(reaped := s.reaped + [s.pid[i]]), p, WaitFound(i, Reaped(s.pid[i])))
    case WaitNext(i) => At(s.(lock := s.lock[i := None]), p, WaitScan(i + 1, true))
    case WaitFound(i, o) => At(s.(lock := s.lock[i := None]), p, WaitRelease(o))
    case WaitRelease(_) => At(s.(waitLock := None), p, User)
    case WaitSleep => At(s.(lock := s.lock[p := Some(p)]), p, WaitDrop)
    case WaitDrop => At(s.(waitLock := None), p, WaitFall)
    case WaitFall => At(s.(state := s.state[p := Sleeping], lock := s.lock[p := None]), p, WaitBack)
    case WaitBack => At(s.(waitLock := Some(p)), p, WaitScan(0, false))
  }

  /** A process outside these calls starts one, or goes on; init does not exit. */
  function UserStep(n: nat, s: State, p: nat, a: Choice): (s': State)
    requires Sized(n, s) && p < n
  {
    match a
    case Fork(c) =>
      if c < n && s.state[c].Unused? && s.lock[c].None? then
        At(s.(state := s.state[c := Used], pid := s.pid[c := s.nextpid], nextpid := s.nextpid + 1,
              lock := s.lock[c := Some(p)]), p, ForkLocked(c))
      else s
    case Exit => if p == 0 then s else At(s, p, ExitAcquire)
    case Wait => At(s, p, WaitAcquire)
    case Go(_) => s
  }

  /** The locks that the next step of p takes are free. */
  predicate CanRun(n: nat, s: State, p: nat)
    requires Sized(n, s)
  {
    && p < n && (s.state[p].Live? || s.pc[p].ExitRelease?) && GoodPc(n, s.pc[p])
    && match s.pc[p]
       case ForkAcquire(_) => s.waitLock.None?
       case ForkRun(c) => s.lock[c].None?
       case ExitAcquire => s.waitLock.None?
       case ReparentWake(_) => 0 < n && s.lock[0].None?
       case ExitWake => s.parent[p].Some? && s.parent[p].value < n ==> s.lock[s.parent[p].value].None?
       case ExitLock => s.lock[p].None?
       case WaitAcquire => s.waitLock.None?
       case WaitScan(i, kids) =>
         if i < n then s.parent[i] == Some(p) ==> s.lock[i].None? else kids ==> s.lock[p].None?
       case WaitSleep => s.lock[p].None?
       case WaitBack => s.waitLock.None?
       case _ => true
  }

  predicate Can(n: nat, s: State, e: Event)
    requires Sized(n, s)
  {
    match e
    case Run(p, _) => CanRun(n, s, p)
    case Switch(p) => p < n && s.pc[p].ExitSwitch?
    case Kill(p) => p < n && s.lock[p].None?
  }

  function Apply(n: nat, s: State, e: Event): (s': State)
    requires Sized(n, s) && Can(n, s, e)
  {
    match e
    case Run(p, a) =>
      if InFork(s.pc[p]) then ForkStep(n, s, p, a)
      else if InExit(s.pc[p]) then ExitStep(n, s, p)
      else if InWait(s.pc[p]) then WaitStep(n, s, p, a)
      else if s.pc[p].User? then UserStep(n, s, p, a)
      else s
    case Switch(p) => At(s.(lock := s.lock[p := None]), p, Dead)
    case Kill(p) => s.(state := Woken(s.state, p), killed := s.killed[p := true])
  }

  // The invariant

  predicate HoldsWait(pc: Pc) {
    || pc.ForkParent? || pc.ForkRelease? || pc.Reparent? || pc.ReparentWake? || pc.ExitWake? || pc.ExitLock?
    || pc.ExitZombie? || pc.ExitRelease? || pc.WaitScan? || pc.WaitLook? || pc.WaitNext? || pc.WaitFound?
    || pc.WaitRelease? || pc.WaitSleep? || pc.WaitDrop?
  }

  /** p at pc holds the lock of process i. */
  predicate HoldsLock(pc: Pc, p: nat, i: nat) {
    match pc
    case ForkLocked(c) => i == c
    case ExitZombie | ExitRelease | ExitSwitch | WaitDrop | WaitFall => i == p
    case WaitLook(j) => i == j
    case WaitNext(j) => i == j
    case WaitFound(j, _) => i == j
    case _ => false
  }

  /** A process below this index is no child of a process at pc. */
  function KidsFrom(n: nat, pc: Pc): (k: nat) {
    match pc
    case Reparent(i) => i
    case ReparentWake(i) => i + 1
    case ExitWake | ExitLock | ExitZombie | ExitRelease | ExitSwitch | Dead | Unborn => n
    case _ => 0
  }

  /** The first process that a scan of wait has not found to be no zombie child. */
  function SeenTo(n: nat, pc: Pc): (k: nat) {
    match pc
    case WaitScan(i, _) => i
    case WaitLook(i) => i
    case WaitNext(i) => i + 1
    case WaitSleep | WaitDrop => n
    case _ => 0
  }

  ghost predicate LocksOk(n: nat, s: State)
    requires Sized(n, s)
  {
    && (s.waitLock.Some? ==> s.waitLock.value < n)
    && (forall p :: 0 <= p < n ==> (s.waitLock == Some(p) <==> HoldsWait(s.pc[p])))
    && (forall p, i :: 0 <= p < n && 0 <= i < n ==> (s.lock[i] == Some(p) <==> HoldsLock(s.pc[p], p, i)))
    && (forall i :: 0 <= i < n && s.lock[i].Some? ==> s.lock[i].value < n)
  }

  ghost predicate StateOk(n: nat, s: State, p: nat)
    requires Sized(n, s) && p < n
  {
    && GoodPc(n, s.pc[p])
    && (s.pc[p].Unborn? <==> s.state[p].Unused? || s.state[p].Used?)
    && (s.pc[p].ExitRelease? || s.pc[p].ExitSwitch? || s.pc[p].Dead? <==> s.state[p].Zombie?)
    && (s.state[p].Sleeping? ==> s.pc[p].WaitBack?)
    && (s.state[p].Unused? ==> s.parent[p].None?)
    && (s.state[p].Live? || s.state[p].Sleeping? || s.state[p].Zombie? ==> p == 0 || s.parent[p].Some?)
  }

  /** Who forks c: c is in use by nobody else, and its parent is set once the forker has come that far. */
  ghost predicate ForkOk(n: nat, s: State, p: nat)
    requires Sized(n, s) && p < n
  {
    InFork(s.pc[p]) ==>
      && s.pc[p].c < n && s.state[s.pc[p].c].Used?
      && s.parent[s.pc[p].c] == (if s.pc[p].ForkRelease? || s.pc[p].ForkRun? then Some(p) else None)
      && (forall q :: 0 <= q < n && q != p && InFork(s.pc[q]) ==> s.pc[q].c != s.pc[p].c)
  }

  ghost predicate ChildOk(n: nat, s: State, q: nat)
    requires Sized(n, s) && q < n
  {
    s.parent[q].Some? ==> s.parent[q].value < n && q >= KidsFrom(n, s.pc[s.parent[q].value])
  }

  ghost predicate ScanOk(n: nat, s: State, p: nat)
    requires Sized(n, s) && p < n
  {
    && (forall q :: 0 <= q < n && q < SeenTo(n, s.pc[p]) && s.parent[q] == Some(p) ==> !s.state[q].Zombie?)
    && (s.pc[p].WaitLook? && s.pc[p].i < n ==> s.parent[s.pc[p].i] == Some(p))
    && (s.pc[p].WaitNext? && s.pc[p].i < n ==> !s.state[s.pc[p].i].Zombie?)
  }

  /** p sleeps in wait, or has released wait_lock to do so. */
  predicate Napping(s: State, p: nat)
    requires p < |s.state| && p < |s.pc|
  {
    s.state[p].Sleeping? || s.pc[p].WaitFall?
  }

  /** Init got a new child and is about to be woken. */
  ghost predicate Handover(s: State) {
    s.waitLock.Some? && s.waitLock.value < |s.pc| && s.pc[s.waitLock.value].ReparentWake?
  }

  ghost predicate NapOk(n: nat, s: State, q: nat)
    requires Sized(n, s) && q < n
  {
    s.parent[q].Some? && s.parent[q].value < n && Napping(s, s.parent[q].value) ==>
      && !s.pc[q].ExitLock? && !s.pc[q].ExitZombie?
      && (s.state[q].Zombie? ==> s.parent[q].value == 0 && Handover(s))
  }

  ghost predicate PidsOk(n: nat, s: State)
    requires Sized(n, s)
  {
    && (forall p :: 0 <= p < n && !s.state[p].Unused? ==> s.pid[p] < s.nextpid && s.pid[p] !in s.reaped)
    && (forall p, q :: 0 <= p < q < n && !s.state[p].Unused? && !s.state[q].Unused? ==> s.pid[p] != s.pid[q])
    && (forall i :: 0 <= i < |s.reaped| ==> s.reaped[i] < s.nextpid)
    && (forall i, j :: 0 <= i < j < |s.reaped| ==> s.reaped[i] != s.reaped[j])
  }

  ghost predicate InitOk(n: nat, s: State)
    requires Sized(n, s)
  {
    0 < n && (s.state[0].Live? || s.state[0].Sleeping?) && !InExit(s.pc[0])
  }

  ghost predicate States(n: nat, s: State)
    requires Sized(n, s)
  {
    InitOk(n, s) && (forall p :: 0 <= p < n ==> StateOk(n, s, p))
  }

  ghost predicate Forks(n: nat, s: State)
    requires Sized(n, s)
  {
    forall p :: 0 <= p < n ==> ForkOk(n, s, p)
  }

  ghost predicate Children(n: nat, s: State)
    requires Sized(n, s)
  {
    forall q :: 0 <= q < n ==> ChildOk(n, s, q)
  }

  ghost predicate Scans(n: nat, s: State)
    requires Sized(n, s)
  {
    forall p :: 0 <= p < n ==> ScanOk(n, s, p)
  }

  ghost predicate Naps(n: nat, s: State)
    requires Sized(n, s)
  {
    forall q :: 0 <= q < n ==> NapOk(n, s, q)
  }

  /** One of the first k processes is a child of p. */
  ghost predicate HasKid(s: State, p: nat, k: nat) {
    exists q | 0 <= q < k && q < |s.parent| :: s.parent[q] == Some(p)
  }

  ghost predicate HasZombie(s: State, p: nat) {
    exists q | 0 <= q < |s.parent| && q < |s.state| :: s.parent[q] == Some(p) && s.state[q].Zombie?
  }

  /** What kwait() knows when it has decided on how to end. */
  ghost predicate OutcomeOk(n: nat, s: State, p: nat, o: Outcome)
    requires Sized(n, s) && p < n
  {
    match o
    case Reaped(pid) => s.reaped != [] && s.reaped[|s.reaped| - 1] == pid
    case NoKids => !HasKid(s, p, n)
    case WasKilled => s.killed[p]
    case NoCopy => HasZombie(s, p)
  }

  /** havekids is exact, and who goes to sleep has a child. */
  ghost predicate KidOk(n: nat, s: State, p: nat)
    requires Sized(n, s) && p < n
  {
    match s.pc[p]
    case WaitScan(i, kids) => kids <==> HasKid(s, p, i)
    case WaitNext(i) => i < n && s.parent[i] == Some(p)
    case WaitFound(_, o) => OutcomeOk(n, s, p, o)
    case WaitRelease(o) => OutcomeOk(n, s, p, o)
    case WaitSleep | WaitDrop | WaitFall | WaitBack => HasKid(s, p, n)
    case _ => true
  }

  ghost predicate Kids(n: nat, s: State)
    requires Sized(n, s)
  {
    forall p :: 0 <= p < n ==> KidOk(n, s, p)
  }

  /** A slot that allocproc() has taken belongs to a fork that is still going on. */
  ghost predicate SlotOk(n: nat, s: State, c: nat)
    requires Sized(n, s) && c < n
  {
    s.state[c].Used? ==> exists p | 0 <= p < n :: InFork(s.pc[p]) && s.pc[p].c == c
  }

  ghost predicate Slots(n: nat, s: State)
    requires Sized(n, s)
  {
    forall c :: 0 <= c < n ==> SlotOk(n, s, c)
  }

  ghost predicate Inv(n: nat, s: State) {
    && Sized(n, s) && LocksOk(n, s) && States(n, s) && Forks(n, s) && Children(n, s) && Scans(n, s) && Naps(n, s)
    && PidsOk(n, s) && Kids(n, s) && Slots(n, s)
  }

  // A step seen field by field

  /** The slot that the step of p claims for a new process, sets going, or frees. */
  function Claims(n: nat, s: State, p: nat, a: Choice): (c: Option<nat>)
    requires Sized(n, s) && p < n
  {
    if s.pc[p].User? && a.Fork? && a.c < n && s.state[a.c].Unused? && s.lock[a.c].None? then Some(a.c) else None
  }

  function Births(n: nat, s: State, p: nat): (c: Option<nat>)
    requires Sized(n, s) && p < n
  {
    if s.pc[p].ForkRun? then Some(s.pc[p].c) else None
  }

  function Frees(n: nat, s: State, p: nat, a: Choice): (c: Option<nat>)
    requires Sized(n, s) && p < n && GoodPc(n, s.pc[p])
  {
    match s.pc[p]
    case ForkLocked(c) => if a == Go(true) then Some(c) else None
    case WaitLook(i) => if s.state[i].Zombie? && a != Go(true) then Some(i) else None
    case _ => None
  }

  /** The process that the step of p wakes if it sleeps in wait. */
  function Wakes(n: nat, s: State, p: nat): (x: Option<nat>)
    requires Sized(n, s) && p < n
  {
    if s.pc[p].ReparentWake? then Some(0) else if s.pc[p].ExitWake? then s.parent[p] else None
  }

  /** The child that the step of p gives to init. */
  function Gives(n: nat, s: State, p: nat): (x: Option<nat>)
    requires Sized(n, s) && p < n && GoodPc(n, s.pc[p])
  {
    if s.pc[p].Reparent? && s.pc[p].i < n && s.parent[s.pc[p].i] == Some(p) then Some(s.pc[p].i) else None
  }

  function NextPc(n: nat, s: State, p: nat, a: Choice): (pc: Pc)
    requires Sized(n, s) && p < n && GoodPc(n, s.pc[p])
    ensures GoodPc(n, pc)
  {
    match s.pc[p]
    case User =>
      if Claims(n, s, p, a).Some? then ForkLocked(a.c)
      else if a.Exit? && p != 0 then ExitAcquire
      else if a.Wait? then WaitAcquire
      else User
    case ForkLocked(c) => if a == Go(true) then User else ForkAcquire(c)
    case ForkAcquire(c) => ForkParent(c)
    case ForkParent(c) => ForkRelease(c)
    case ForkRelease(c) => ForkRun(c)
    case ForkRun(_) => User
    case ExitAcquire => Reparent(0)
    case Reparent(i) => if i == n then ExitWake else if s.parent[i] == Some(p) then ReparentWake(i) else Reparent(i + 1)
    case ReparentWake(i) => Reparent(i + 1)
    case ExitWake => ExitLock
    case ExitLock => ExitZombie
    case ExitZombie => ExitRelease
    case ExitRelease => ExitSwitch
    case WaitAcquire => WaitScan(0, false)
    case WaitScan(i, kids) =>
      if i == n then
        if !kids then WaitRelease(NoKids) else if s.killed[p] then WaitRelease(WasKilled) else WaitSleep
      else if s.parent[i] == Some(p) then WaitLook(i)
      else WaitScan(i + 1, kids)
    case WaitLook(i) =>
      if s.state[i].Zombie? then WaitFound(i, if a == Go(true) then NoCopy else Reaped(s.pid[i])) else WaitNext(i)
    case WaitNext(i) => WaitScan(i + 1, true)
    case WaitFound(_, o) => WaitRelease(o)
    case WaitRelease(_) => User
    case WaitSleep => WaitDrop
    case WaitDrop => WaitFall
    case WaitFall => WaitBack
    case WaitBack => WaitScan(0, false)
    case Unborn | ExitSwitch | Dead => s.pc[p]
  }

  function Put<T>(q: seq<T>, i: Option<nat>, x: T): (r: seq<T>)
    ensures |r| == |q|
    ensures forall j :: 0 <= j < |q| ==> r[j] == if i == Some(j) then x else q[j]
  {
    if i.Some? && i.value < |q| then q[i.value := x] else q
  }

  function Own(b: bool, p: nat): (i: Option<nat>) { if b then Some(p) else None }

  function NextStates(n: nat, s: State, p: nat, a: Choice): (q: seq<PState>)
    requires Sized(n, s) && p < n && GoodPc(n, s.pc[p])
    ensures |q| == |s.state|
  {
    var q1 := Put(Put(Put(s.state, Claims(n, s, p, a), Used), Births(n, s, p), Live), Frees(n, s, p, a), Unused);
    var q2 := Put(Put(q1, Own(s.pc[p].ExitZombie?, p), Zombie), Own(s.pc[p].WaitFall?, p), Sleeping);
    if Wakes(n, s, p).Some? then Woken(q2, Wakes(n, s, p).value) else q2
  }

  function NextParents(n: nat, s: State, p: nat, a: Choice): (q: seq<Option<nat>>)
    requires Sized(n, s) && p < n && GoodPc(n, s.pc[p])
    ensures |q| == |s.parent|
  {
    Put(Put(Put(s.parent, if s.pc[p].ForkParent? then Some(s.pc[p].c) else None, Some(p)), Gives(n, s, p), Some(0)),
        Frees(n, s, p, a), None)
  }

  function NextPcs(n: nat, s: State, p: nat, a: Choice): (q: seq<Pc>)
    requires Sized(n, s) && p < n && GoodPc(n, s.pc[p])
    ensures |q| == |s.pc|
  {
    Put(Put(s.pc, Births(n, s, p), User), Frees(n, s, p, a), Unborn)[p := NextPc(n, s, p, a)]
  }

  function TakesWait(pc: Pc): (b: bool) { pc.ForkAcquire? || pc.ExitAcquire? || pc.WaitAcquire? || pc.WaitBack? }
  function DropsWait(pc: Pc): (b: bool) { pc.ForkRelease? || pc.ExitRelease? || pc.WaitRelease? || pc.WaitDrop? }

  function TakesLock(n: nat, s: State, p: nat, a: Choice): (i: Option<nat>)
    requires Sized(n, s) && p < n && GoodPc(n, s.pc[p])
  {
    match s.pc[p]
    case User => Claims(n, s, p, a)
    case ExitLock | WaitSleep => Some(p)
    case WaitScan(i, _) => if i < n && s.parent[i] == Some(p) then Some(i) else None
    case _ => None
  }

  function DropsLock(n: nat, s: State, p: nat): (i: Option<nat>)
    requires Sized(n, s) && p < n
  {
    match s.pc[p]
    case ForkLocked(c) => Some(c)
    case WaitNext(i) => Some(i)
    case WaitFound(i, _) => Some(i)
    case WaitFall => Some(p)
    case _ => None
  }

  function Fields(n: nat, s: State, p: nat, a: Choice): (s': State)
    requires Sized(n, s) && p < n && GoodPc(n, s.pc[p])
    ensures Sized(n, s')
  {
    var claim, free := Claims(n, s, p, a), Frees(n, s, p, a);
    State(NextStates(n, s, p, a), NextParents(n, s, p, a), Put(Put(s.pid, claim, s.nextpid), free, 0),
          NextPcs(n, s, p, a), Put(s.killed, free, false),
          if TakesWait(s.pc[p]) then Some(p) else if DropsWait(s.pc[p]) then None else s.waitLock,
          Put(Put(s.lock, TakesLock(n, s, p, a), Some(p)), DropsLock(n, s, p), None),
          if claim.Some? then s.nextpid + 1 else s.nextpid,
          if s.pc[p].WaitLook? && free.Some? then s.reaped + [s.pid[free.value]] else s.reaped)
  }

  lemma ForkIsFields(n: nat, s: State, p: nat, a: Choice)
    requires Sized(n, s) && p < n && GoodPc(n, s.pc[p]) && InFork(s.pc[p]) && s.pc[p].c != p
    ensures Fields(n, s, p, a) == ForkStep(n, s, p, a)
  {
  }

  lemma ExitIsFields(n: nat, s: State, p: nat, a: Choice)
    requires Sized(n, s) && p < n && GoodPc(n, s.pc[p]) && InExit(s.pc[p])
    ensures Fields(n, s, p, a) == ExitStep(n, s, p)
  {
  }

  lemma LookIsFields(n: nat, s: State, p: nat, a: Choice)
    requires Sized(n, s) && p < n && GoodPc(n, s.pc[p]) && s.pc[p].WaitLook?
    requires s.pc[p].i != p || !s.state[p].Zombie?
    ensures Fields(n, s, p, a) == WaitStep(n, s, p, a)
  {
  }

  lemma WaitIsFields(n: nat, s: State, p: nat, a: Choice)
    requires Sized(n, s) && p < n && GoodPc(n, s.pc[p]) && InWait(s.pc[p])
    requires s.pc[p].WaitLook? ==> s.pc[p].i != p || !s.state[p].Zombie?
    ensures Fields(n, s, p, a) == WaitStep(n, s, p, a)
  {
    if s.pc[p].WaitLook? {
      LookIsFields(n, s, p, a);
    }
  }

  lemma UserIsFields(n: nat, s: State, p: nat, a: Choice)
    requires Sized(n, s) && p < n && s.pc[p].User?
    ensures Fields(n, s, p, a) == UserStep(n, s, p, a)
  {
  }

  // Every step keeps the invariant

  /** The slots that a step of p changes are not in the middle of anything. */
  lemma OtherSlots(n: nat, s: State, p: nat, a: Choice)
    requires Inv(n, s) && CanRun(n, s, p)
    ensures s.pc[p].ExitRelease? || s.state[p].Live?
    ensures InFork(s.pc[p]) ==> s.pc[p].c != p
    ensures var c := Births(n, s, p); c.Some? ==>
              c.value < n && c.value != p && s.state[c.value].Used? && s.pc[c.value].Unborn?
    ensures var c := Claims(n, s, p, a); c.Some? ==>
              c.value < n && c.value != p && s.state[c.value].Unused? && s.pc[c.value].Unborn?
    ensures var c := Frees(n, s, p, a);
            c.Some? ==> c.value < n && c.value != p
                        && if s.pc[p].WaitLook? then s.state[c.value].Zombie? && s.pc[c.value].Dead?
                             && s.parent[c.value] == Some(p)
                           else s.state[c.value].Used? && s.pc[c.value].Unborn? && s.parent[c.value].None?
  {
    hide Naps, PidsOk, KidsFrom, SeenTo, Children;
    assert StateOk(n, s, p) && ForkOk(n, s, p) && ScanOk(n, s, p);
    var c := Births(n, s, p);
    assert c.Some? ==> StateOk(n, s, c.value);
    var d := Claims(n, s, p, a);
    assert d.Some? ==> StateOk(n, s, d.value);
    var f := Frees(n, s, p, a);
    if f.Some? {
      assert StateOk(n, s, f.value);
      assert s.lock[f.value] == Some(p);
    }
  }

  lemma KeepsLocks(n: nat, s: State, p: nat, a: Choice)
    requires Inv(n, s) && CanRun(n, s, p)
    ensures LocksOk(n, Fields(n, s, p, a))
  {
    hide Scans, Naps, PidsOk, KidsFrom, SeenTo, Children, Forks, States, NextStates, NextParents, GoodPc, NextPc,
         InFork, HoldsLock, HoldsWait, TakesWait, DropsWait, TakesLock, DropsLock, Births, Frees, Claims;
    var s' := Fields(n, s, p, a);
    OthersLocks(n, s, p, a);
    SelfLocks(n, s, p, a);
    WaitFrom(n, s, s', p, TakesWait(s.pc[p]), DropsWait(s.pc[p]));
    LockFrom(n, s, s', p, TakesLock(n, s, p, a), DropsLock(n, s, p));
  }

  lemma OthersLocks(n: nat, s: State, p: nat, a: Choice)
    requires Inv(n, s) && CanRun(n, s, p)
    ensures var s' := Fields(n, s, p, a);
            forall q, i: nat | 0 <= q < n && q != p ::
              HoldsWait(s'.pc[q]) == HoldsWait(s.pc[q]) && HoldsLock(s'.pc[q], q, i) == HoldsLock(s.pc[q], q, i)
  {
    hide Scans, Naps, PidsOk, KidsFrom, SeenTo, Children, Forks, States, NextStates, NextParents, GoodPc, NextPc,
         InFork, HoldsLock, HoldsWait, TakesWait, DropsWait, TakesLock, DropsLock, Births, Frees, Claims;
    OtherSlots(n, s, p, a);
    var s' := Fields(n, s, p, a);
    forall q, i: nat | 0 <= q < n && q != p
      ensures HoldsWait(s'.pc[q]) == HoldsWait(s.pc[q])
      ensures HoldsLock(s'.pc[q], q, i) == HoldsLock(s.pc[q], q, i)
    {
      IdleHoldsNothing(s'.pc[q], s.pc[q], q);
    }
  }

  lemma WaitFrom(n: nat, s: State, s': State, p: nat, take: bool, drop: bool)
    requires Sized(n, s) && Sized(n, s') && LocksOk(n, s) && p < n
    requires s'.waitLock == if take then Some(p) else if drop then None else s.waitLock
    requires take ==> s.waitLock.None?
    requires drop ==> HoldsWait(s.pc[p])
    requires HoldsWait(s'.pc[p]) <==> if take then true else if drop then false else HoldsWait(s.pc[p])
    requires forall q :: 0 <= q < n && q != p ==> HoldsWait(s'.pc[q]) == HoldsWait(s.pc[q])
    ensures s'.waitLock.Some? ==> s'.waitLock.value < n
    ensures forall q :: 0 <= q < n ==> (s'.waitLock == Some(q) <==> HoldsWait(s'.pc[q]))
  {
    hide HoldsWait, HoldsLock;
  }

  lemma LockFrom(n: nat, s: State, s': State, p: nat, take: Option<nat>, drop: Option<nat>)
    requires Sized(n, s) && Sized(n, s') && LocksOk(n, s) && p < n
    requires s'.lock == Put(Put(s.lock, take, Some(p)), drop, None)
    requires take.Some? ==> take.value < n && s.lock[take.value].None?
    requires drop.Some? ==> HoldsLock(s.pc[p], p, drop.value) && take.None?
    requires forall i :: 0 <= i < n ==>
               (HoldsLock(s'.pc[p], p, i) <==> take == Some(i) || (HoldsLock(s.pc[p], p, i) && drop != Some(i)))
    requires forall q, i: nat :: 0 <= q < n && q != p ==> HoldsLock(s'.pc[q], q, i) == HoldsLock(s.pc[q], q, i)
    ensures forall q, i :: 0 <= q < n && 0 <= i < n ==> (s'.lock[i] == Some(q) <==> HoldsLock(s'.pc[q], q, i))
    ensures forall i :: 0 <= i < n && s'.lock[i].Some? ==> s'.lock[i].value < n
  {
    hide HoldsWait, HoldsLock;
    forall q, i | 0 <= q < n && 0 <= i < n
      ensures s'.lock[i] == Some(q) <==> HoldsLock(s'.pc[q], q, i)
    {
      assert s.lock[i] == Some(q) <==> HoldsLock(s.pc[q], q, i);
    }
  }

  lemma IdleHoldsNothing(pc: Pc, pc2: Pc, q: nat)
    ensures pc.Unborn? || pc.User? || pc.Dead? ==> !HoldsWait(pc) && forall i :: !HoldsLock(pc, q, i)
    ensures pc2.Unborn? || pc2.User? || pc2.Dead? ==> !HoldsWait(pc2) && forall i :: !HoldsLock(pc2, q, i)
  {
  }

  lemma SelfLocks(n: nat, s: State, p: nat, a: Choice)
    requires Sized(n, s) && CanRun(n, s, p)
    ensures var pc, pc' := s.pc[p], NextPc(n, s, p, a);
            && (HoldsWait(pc') <==> if TakesWait(pc) then true else if DropsWait(pc) then false else HoldsWait(pc))
            && (TakesWait(pc) ==> s.waitLock.None?) && (DropsWait(pc) ==> HoldsWait(pc))
            && (TakesLock(n, s, p, a).Some? ==>
                    TakesLock(n, s, p, a).value < n && s.lock[TakesLock(n, s, p, a).value].None?)
            && (DropsLock(n, s, p).Some? ==> HoldsLock(pc, p, DropsLock(n, s, p).value) && TakesLock(n, s, p, a).None?)
            && (forall i :: 0 <= i < n ==>
                  (HoldsLock(pc', p, i) <==>
                       TakesLock(n, s, p, a) == Some(i) || (HoldsLock(pc, p, i) && DropsLock(n, s, p) != Some(i))))
  {
  }

  /** What the step of p makes of process q. */
  lemma StateOf(n: nat, s: State, p: nat, a: Choice, q: nat)
    requires Sized(n, s) && p < n && GoodPc(n, s.pc[p]) && q < n
    ensures var s' := Fields(n, s, p, a);
            var was := if Frees(n, s, p, a) == Some(q) then Unused else if Births(n, s, p) == Some(q) then Live
                       else if Claims(n, s, p, a) == Some(q) then Used else s.state[q];
            && s'.state[q] == (if q == p && s.pc[p].WaitFall? then Sleeping
                 else if q == p && s.pc[p].ExitZombie? then Zombie
                               else if Wakes(n, s, p) == Some(q) && was.Sleeping? then Live else was)
            && s'.pc[q] == (if q == p then NextPc(n, s, p, a) else if Frees(n, s, p, a) == Some(q) then Unborn
                            else if Births(n, s, p) == Some(q) then User else s.pc[q])
            && s'.parent[q] == (if Frees(n, s, p, a) == Some(q) then None else if Gives(n, s, p) == Some(q) then Some(0)
                                else if s.pc[p].ForkParent? && s.pc[p].c == q then Some(p) else s.parent[q])
  {
    hide NextPc, Claims, Births, Frees, Gives;
  }

  /** Where the step takes p itself. */
  lemma SelfPc(n: nat, s: State, p: nat, a: Choice)
    requires Sized(n, s) && p < n && GoodPc(n, s.pc[p]) && !s.pc[p].Unborn?
    ensures var pc, pc' := s.pc[p], NextPc(n, s, p, a);
            && GoodPc(n, pc') && !pc'.Unborn? && (pc.WaitFall? ==> pc'.WaitBack?)
            && (!pc.Dead? && !pc.ExitSwitch? ==>
                    (pc'.ExitRelease? || pc'.ExitSwitch? || pc'.Dead? <==> pc.ExitZombie? || pc.ExitRelease?))
            && (p == 0 && !InExit(pc) ==> !InExit(pc'))
  {
  }

  lemma KeepsStates(n: nat, s: State, p: nat, a: Choice)
    requires Inv(n, s) && CanRun(n, s, p)
    ensures States(n, Fields(n, s, p, a))
  {
    hide Scans, Naps, PidsOk, KidsFrom, SeenTo, Children, HoldsLock, HoldsWait, NextPc, Claims, Births, Frees,
         NextStates, NextPcs, NextParents, LocksOk, InExit, GoodPc, InFork;
    var s' := Fields(n, s, p, a);
    forall q | 0 <= q < n
      ensures StateOk(n, s', q)
    {
      KeepsState(n, s, p, a, q);
    }
    OtherSlots(n, s, p, a);
    StateOf(n, s, p, a, 0);
    assert StateOk(n, s, 0) && StateOk(n, s, p);
    SelfPc(n, s, p, a);
    InitNotExiting(n, s);
  }

  lemma KeepsState(n: nat, s: State, p: nat, a: Choice, q: nat)
    requires Inv(n, s) && CanRun(n, s, p) && q < n
    ensures StateOk(n, Fields(n, s, p, a), q)
  {
    hide Scans, Naps, PidsOk, KidsFrom, SeenTo, Children, HoldsLock, HoldsWait, NextPc, Claims, Births, Frees,
         NextStates, NextPcs, NextParents, LocksOk, InExit, GoodPc, InFork;
    OtherSlots(n, s, p, a);
    assert StateOk(n, s, p) && StateOk(n, s, q);
    SelfPc(n, s, p, a);
    BirthParent(n, s, p);
    StateOf(n, s, p, a, q);
    IdleIsGood(n);
    UnusedParent(n, s, p, q);
  }

  lemma IdleIsGood(n: nat)
    ensures GoodPc(n, User) && GoodPc(n, Unborn)
  {
  }

  /** Only a process in use gets a parent. */
  lemma UnusedParent(n: nat, s: State, p: nat, q: nat)
    requires Inv(n, s) && p < n && q < n
    ensures s.pc[p].ForkParent? && s.pc[p].c == q ==> s.state[q].Used?
    ensures GoodPc(n, s.pc[p]) && Gives(n, s, p) == Some(q) ==> s.parent[q].Some?
  {
    assert ForkOk(n, s, p) && StateOk(n, s, p);
  }

  lemma InitNotExiting(n: nat, s: State)
    requires Inv(n, s)
    ensures !InExit(s.pc[0]) && (s.pc[0].ExitZombie? || s.pc[0].ExitRelease? ==> false) && !InExit(User)
            && !InExit(Unborn)
  {
  }

  lemma BirthParent(n: nat, s: State, p: nat)
    requires Inv(n, s) && p < n
    ensures Births(n, s, p).Some? ==> Births(n, s, p).value < n && s.parent[Births(n, s, p).value] == Some(p)
  {
    assert ForkOk(n, s, p);
  }

  lemma ForkApart(n: nat, s: State, p: nat, a: Choice, q: nat, r: nat)
    requires Inv(n, s) && CanRun(n, s, p) && q < n && r < n && q != r
    ensures var s' := Fields(n, s, p, a); InFork(s'.pc[q]) && InFork(s'.pc[r]) ==> s'.pc[q].c != s'.pc[r].c
  {
    hide Scans, Naps, PidsOk, KidsFrom, SeenTo, Children, HoldsLock, HoldsWait, NextStates, NextPcs, NextParents,
         LocksOk, InExit, GoodPc, NextPc, Claims, Frees, Gives, Births;
    OtherSlots(n, s, p, a);
    ForkPc(n, s, p, a);
    assert ForkOk(n, s, q) && ForkOk(n, s, r);
    StateOf(n, s, p, a, q);
    StateOf(n, s, p, a, r);
  }

  lemma ForkOne(n: nat, s: State, p: nat, a: Choice, q: nat)
    requires Inv(n, s) && CanRun(n, s, p) && q < n && InFork(Fields(n, s, p, a).pc[q])
    ensures var s' := Fields(n, s, p, a);
            && s'.pc[q].c < n && s'.state[s'.pc[q].c].Used?
            && s'.parent[s'.pc[q].c] == (if s'.pc[q].ForkRelease? || s'.pc[q].ForkRun? then Some(q) else None)
  {
    hide Scans, Naps, PidsOk, KidsFrom, SeenTo, Children, HoldsLock, HoldsWait, NextStates, NextPcs, NextParents,
         LocksOk, InExit, GoodPc, NextPc, Claims, Frees, Gives, Births;
    OtherSlots(n, s, p, a);
    ForkPc(n, s, p, a);
    assert ForkOk(n, s, p) && ForkOk(n, s, q) && StateOk(n, s, p);
    StateOf(n, s, p, a, q);
    var c := Fields(n, s, p, a).pc[q].c;
    assert c < n;
    StateOf(n, s, p, a, c);
    assert StateOk(n, s, c);
    GivesOwn(n, s, p, c);
  }

  lemma KeepsForks(n: nat, s: State, p: nat, a: Choice)
    requires Inv(n, s) && CanRun(n, s, p)
    ensures Forks(n, Fields(n, s, p, a))
  {
    hide LocksOk, States, Scans, Naps, PidsOk, Children, Fields, GoodPc;
    RunIsSized(n, s, p, a);
    var s' := Fields(n, s, p, a);
    forall q | 0 <= q < n
      ensures ForkOk(n, s', q)
    {
      forall r | 0 <= r < n && r != q && InFork(s'.pc[q]) && InFork(s'.pc[r])
        ensures s'.pc[r].c != s'.pc[q].c
      {
        ForkApart(n, s, p, a, q, r);
      }
      if InFork(s'.pc[q]) {
        ForkOne(n, s, p, a, q);
      }
    }
  }

  lemma RunIsSized(n: nat, s: State, p: nat, a: Choice)
    requires Inv(n, s) && CanRun(n, s, p)
    ensures Sized(n, Fields(n, s, p, a))
  {
  }

  lemma GivesOwn(n: nat, s: State, p: nat, c: nat)
    requires Sized(n, s) && p < n && GoodPc(n, s.pc[p]) && c < n
    ensures Gives(n, s, p) == Some(c) ==> s.parent[c] == Some(p) && s.pc[p].Reparent?
  {
  }

  lemma ForkPc(n: nat, s: State, p: nat, a: Choice)
    requires Sized(n, s) && p < n && GoodPc(n, s.pc[p])
    ensures var pc, pc' := s.pc[p], NextPc(n, s, p, a);
            && (InFork(pc') <==> (InFork(pc) && !pc.ForkRun? && Frees(n, s, p, a).None?) || Claims(n, s, p, a).Some?)
            && (InFork(pc) && InFork(pc') ==>
                    pc'.c == pc.c && (pc'.ForkRelease? || pc'.ForkRun? <==> pc.ForkParent? || pc.ForkRelease?))
            && (Claims(n, s, p, a).Some? ==>
                 pc.User? && pc'.ForkLocked? && pc'.c == Claims(n, s, p, a).value && Frees(n, s, p, a).None?)
            && (Births(n, s, p).Some? <==> pc.ForkRun?) && (pc.ForkRun? ==> Births(n, s, p) == Some(pc.c))
            && (Frees(n, s, p, a).Some? ==> (pc.ForkLocked? && Frees(n, s, p, a) == Some(pc.c)) || pc.WaitLook?)
  {
  }

  lemma KeepsChildren(n: nat, s: State, p: nat, a: Choice)
    requires Inv(n, s) && CanRun(n, s, p)
    ensures Children(n, Fields(n, s, p, a))
  {
    hide Scans, Naps, PidsOk, SeenTo, HoldsLock, HoldsWait, NextStates, NextPcs, NextParents, LocksOk, GoodPc, Claims,
         Frees, Births, NextPc, KidsFrom, Forks, InFork;
    var s' := Fields(n, s, p, a);
    OtherSlots(n, s, p, a);
    KidsPc(n, s, p, a);
    InitHasKids(n, s);
    forall q | 0 <= q < n
      ensures ChildOk(n, s', q)
    {
      assert ChildOk(n, s, q);
      StateOf(n, s, p, a, q);
      if s'.parent[q].Some? {
        var x := s'.parent[q].value;
        if x < n {
          StateOf(n, s, p, a, x);
        }
        StateOf(n, s, p, a, 0);
        GivesOwn(n, s, p, q);
      }
    }
  }

  lemma InitHasKids(n: nat, s: State)
    requires Inv(n, s)
    ensures KidsFrom(n, s.pc[0]) == 0 && KidsFrom(n, Unborn) == n && KidsFrom(n, Dead) == n && KidsFrom(n, User) == 0
  {
    assert StateOk(n, s, 0);
  }

  lemma KidsPc(n: nat, s: State, p: nat, a: Choice)
    requires Sized(n, s) && p < n && GoodPc(n, s.pc[p])
    ensures var pc, pc' := s.pc[p], NextPc(n, s, p, a);
            && (KidsFrom(n, pc') == KidsFrom(n, pc)
                  || (pc.Reparent? && pc.i < n && KidsFrom(n, pc') == pc.i + 1 && KidsFrom(n, pc) == pc.i
                  && (s.parent[pc.i] == Some(p) ==> Gives(n, s, p) == Some(pc.i))))
            && (pc.ForkParent? ==> KidsFrom(n, pc) == 0)
            && (p == 0 && !InExit(pc) && KidsFrom(n, pc) == 0 ==> KidsFrom(n, pc') == 0)
  {
  }

  lemma KeepsScans(n: nat, s: State, p: nat, a: Choice)
    requires Inv(n, s) && CanRun(n, s, p)
    ensures Scans(n, Fields(n, s, p, a))
  {
    hide Naps, PidsOk, NextStates, NextPcs, NextParents, GoodPc, Claims, Frees, Births, NextPc, KidsFrom, Forks, InFork,
         SeenTo, LocksOk, HoldsLock, HoldsWait, Children, Wakes;
    var s' := Fields(n, s, p, a);
    OtherSlots(n, s, p, a);
    ScanPc(n, s, p, a);
    forall q | 0 <= q < n
      ensures ScanOk(n, s', q)
    {
      assert ScanOk(n, s, q) && ScanOk(n, s, p);
      StateOf(n, s, p, a, q);
      if q != p {
        ScanExcludes(n, s, p, a, q);
      }
      IdleScans(n);
      forall r | 0 <= r < n && (r < SeenTo(n, s'.pc[q]) || s'.pc[q] == WaitLook(r) || s'.pc[q] == WaitNext(r))
        ensures s'.parent[r] == Some(q) && r < SeenTo(n, s'.pc[q]) ==> !s'.state[r].Zombie?
        ensures s'.pc[q] == WaitLook(r) ==> s'.parent[r] == Some(q)
        ensures s'.pc[q] == WaitNext(r) ==> !s'.state[r].Zombie?
      {
        StateOf(n, s, p, a, r);
        GivesOwn(n, s, p, r);
      }
    }
  }

  lemma IdleScans(n: nat)
    ensures SeenTo(n, User) == 0 && SeenTo(n, Unborn) == 0
  {
  }

  /** Where a scan goes: past processes that are no children or no zombies. */
  lemma ScanPc(n: nat, s: State, p: nat, a: Choice)
    requires Sized(n, s) && p < n && GoodPc(n, s.pc[p])
    ensures var pc, pc' := s.pc[p], NextPc(n, s, p, a);
            && (forall r :: 0 <= r < n && r < SeenTo(n, pc') ==>
                  r < SeenTo(n, pc) || (pc == WaitLook(r) && !s.state[r].Zombie?)
                      || (pc.WaitScan? && pc.i == r && s.parent[r] != Some(p)))
            && (pc'.WaitLook? ==> pc.WaitScan? && pc'.i < n && s.parent[pc'.i] == Some(p))
            && (pc'.WaitNext? ==> pc.WaitLook? && pc'.i < n && pc'.i == pc.i && !s.state[pc'.i].Zombie?)
            && (SeenTo(n, pc') > 0 || pc'.WaitLook? || pc'.WaitNext? ==>
                  Frees(n, s, p, a).None? && Gives(n, s, p).None? && !pc.ForkParent? && !pc.ExitZombie?
                      && Births(n, s, p).None?)
  {
  }

  /** While q scans its children under wait_lock, nobody becomes a zombie and no parent changes. */
  lemma ScanExcludes(n: nat, s: State, p: nat, a: Choice, q: nat)
    requires Inv(n, s) && CanRun(n, s, p) && q < n && q != p
    ensures SeenTo(n, s.pc[q]) > 0 || s.pc[q].WaitLook? || s.pc[q].WaitNext? ==>
              !s.pc[p].ExitZombie? && !s.pc[p].ForkParent? && Gives(n, s, p).None? && !s.pc[p].WaitLook?
  {
    hide Naps, PidsOk, Scans, Forks, Children, States;
  }

  /** Who falls asleep in wait has no zombie child and no child about to become one. */
  lemma FallsAsleep(n: nat, s: State, p: nat, q: nat)
    requires Inv(n, s) && p < n && q < n && s.pc[p].WaitDrop? && s.parent[q] == Some(p)
    ensures !s.state[q].Zombie? && !s.pc[q].ExitLock? && !s.pc[q].ExitZombie?
  {
    hide Naps, PidsOk, Forks, Children, HoldsLock;
    assert ScanOk(n, s, p);
    assert HoldsWait(s.pc[p]);
    assert q != p ==> !HoldsWait(s.pc[q]);
  }

  /** Whom the step of p wakes is then awake. */
  lemma WokenUp(n: nat, s: State, p: nat, a: Choice, x: nat)
    requires Inv(n, s) && CanRun(n, s, p) && x < n && Wakes(n, s, p) == Some(x)
    ensures !Napping(Fields(n, s, p, a), x)
  {
    hide Naps, PidsOk, Forks, Children, Scans, NextPc, NextStates, NextPcs, NextParents, Frees, Births, Claims, InFork;
    OtherSlots(n, s, p, a);
    StateOf(n, s, p, a, x);
    assert StateOk(n, s, x) && StateOk(n, s, p);
    assert s.lock[x].None?;
    assert !HoldsLock(s.pc[x], x, x);
    NapPc(n, s, p, a);
  }

  lemma NapPc(n: nat, s: State, p: nat, a: Choice)
    requires Sized(n, s) && p < n && GoodPc(n, s.pc[p])
    ensures var pc, pc' := s.pc[p], NextPc(n, s, p, a);
            && (pc'.WaitFall? <==> pc.WaitDrop?) && (pc'.ExitLock? <==> pc.ExitWake?)
                  && (pc'.ExitZombie? <==> pc.ExitLock?)
            && (Gives(n, s, p).Some? <==> pc'.ReparentWake?) && (pc'.ReparentWake? ==> pc.Reparent?)
            && (Wakes(n, s, p).Some? ==> pc.ReparentWake? || pc.ExitWake?)
            && (pc.ReparentWake? || pc.ExitWake? || pc.ExitLock? || pc.ExitZombie? || pc.Reparent? || pc.ForkParent? ==>
                  Frees(n, s, p, a).None? && Births(n, s, p).None? && Claims(n, s, p, a).None?)
  {
  }

  lemma KeepsNap(n: nat, s: State, p: nat, a: Choice, q: nat)
    requires Inv(n, s) && CanRun(n, s, p) && q < n
    ensures Sized(n, Fields(n, s, p, a)) && NapOk(n, Fields(n, s, p, a), q)
  {
    hide PidsOk, Forks, NextPc, NextStates, NextPcs, NextParents, Frees, Births, Claims, InFork, GoodPc, HoldsLock,
         HoldsWait, KidsFrom, SeenTo, LocksOk, Wakes, Scans, Handover;
    var s' := Fields(n, s, p, a);
    OtherSlots(n, s, p, a);
    NapPc(n, s, p, a);
    StateOf(n, s, p, a, q);
    assert NapOk(n, s, q) && ChildOk(n, s, q) && StateOk(n, s, p);
    if s'.parent[q].Some? && s'.parent[q].value < n && Napping(s', s'.parent[q].value) {
      var x := s'.parent[q].value;
      StateOf(n, s, p, a, x);
      assert StateOk(n, s, x) && StateOk(n, s, q);
      HandoverFacts(n, s, p, a, q);
      if Wakes(n, s, p) == Some(x) {
        WokenUp(n, s, p, a, x);
      }
      if s.pc[p].WaitDrop? && s.parent[q] == Some(p) {
        FallsAsleep(n, s, p, q);
      }
    }
  }

  /** The hand-over of children to init happens under wait_lock, and the wakeup of init ends it. */
  lemma GivenFacts(n: nat, s: State, p: nat, a: Choice, q: nat)
    requires Inv(n, s) && CanRun(n, s, p) && q < n && Gives(n, s, p) == Some(q)
    ensures Handover(Fields(n, s, p, a)) && !s.pc[q].ExitLock? && !s.pc[q].ExitZombie? && s.parent[q] == Some(p)
  {
    hide PidsOk, Forks, Naps, Scans, Children, NextStates, NextParents, KidsFrom, SeenTo, GoodPc;
    assert StateOk(n, s, p);
    assert HoldsWait(s.pc[p]);
    assert q != p ==> !HoldsWait(s.pc[q]);
  }

  lemma HandoverFacts(n: nat, s: State, p: nat, a: Choice, q: nat)
    requires Inv(n, s) && CanRun(n, s, p) && q < n
    ensures var s' := Fields(n, s, p, a);
            && (Gives(n, s, p) == Some(q) ==>
                    Handover(s') && !s.pc[q].ExitLock? && !s.pc[q].ExitZombie? && s.parent[q] == Some(p))
            && (Handover(s) && !s.pc[p].ReparentWake? ==> Handover(s'))
            && (s.pc[p].ReparentWake? ==> Wakes(n, s, p) == Some(0))
            && (s.pc[p].ExitWake? ==> Wakes(n, s, p) == s.parent[p])
  {
    hide PidsOk, Forks, Naps, Scans, Children, NextStates, NextParents, KidsFrom, SeenTo, Gives;
    OtherSlots(n, s, p, a);
    assert StateOk(n, s, p);
    if Gives(n, s, p) == Some(q) {
      GivenFacts(n, s, p, a, q);
    }
    if Handover(s) && !s.pc[p].ReparentWake? {
      var w := s.waitLock.value;
      assert w != p;
      assert !HoldsWait(s.pc[p]);
    }
  }

  lemma KeepsPids(n: nat, s: State, p: nat, a: Choice)
    requires Inv(n, s) && CanRun(n, s, p)
    ensures PidsOk(n, Fields(n, s, p, a))
  {
    hide Forks, Naps, Scans, Children, NextPc, NextStates, NextPcs, NextParents, Births, Claims, Frees, InFork, GoodPc,
         HoldsLock, HoldsWait, KidsFrom, SeenTo, LocksOk;
    var s' := Fields(n, s, p, a);
    OtherSlots(n, s, p, a);
    assert StateOk(n, s, p);
    forall q | 0 <= q < n
      ensures s'.state[q].Unused? <==>
                Frees(n, s, p, a) == Some(q) || (s.state[q].Unused? && Claims(n, s, p, a) != Some(q))
    {
      StateOf(n, s, p, a, q);
    }
  }

  /** A child of q stays one when another process takes a step, and keeps being a zombie. */
  lemma KidStays(n: nat, s: State, p: nat, a: Choice, q: nat, r: nat)
    requires Inv(n, s) && CanRun(n, s, p) && q < n && q != p && r < n && s.parent[r] == Some(q)
    ensures Fields(n, s, p, a).parent[r] == Some(q)
    ensures s.state[r].Zombie? ==> Fields(n, s, p, a).state[r].Zombie?
  {
    hide Naps, PidsOk, Scans, Children, Kids, NextPc, NextStates, NextPcs, NextParents, KidsFrom, SeenTo, LocksOk;
    OtherSlots(n, s, p, a);
    StateOf(n, s, p, a, r);
    assert ForkOk(n, s, p) && StateOk(n, s, r) && StateOk(n, s, p);
  }

  /** While q holds wait_lock, no step of another process gives it a child or reaps. */
  lemma NoNewKid(n: nat, s: State, p: nat, a: Choice, q: nat, r: nat)
    requires Inv(n, s) && CanRun(n, s, p) && q < n && q != p && r < n && HoldsWait(s.pc[q])
    ensures Fields(n, s, p, a).parent[r] == Some(q) ==> s.parent[r] == Some(q)
    ensures Fields(n, s, p, a).reaped == s.reaped
  {
    hide Naps, PidsOk, Scans, Children, Kids, NextPc, NextStates, NextPcs, NextParents, KidsFrom, SeenTo, Forks, States,
         HoldsLock;
    assert s.waitLock == Some(q) && !HoldsWait(s.pc[p]);
    StateOf(n, s, p, a, r);
  }

  lemma KidOther(n: nat, s: State, p: nat, a: Choice, q: nat)
    requires Inv(n, s) && CanRun(n, s, p) && q < n && q != p
    ensures KidOk(n, Fields(n, s, p, a), q)
  {
    hide Naps, PidsOk, Scans, Children, LocksOk, NextPc, NextStates, NextPcs, NextParents, KidsFrom, SeenTo, Forks,
         States, HoldsLock, Fields;
    var s' := Fields(n, s, p, a);
    StateOf(n, s, p, a, q);
    KilledStays(n, s, p, a, q);
    assert KidOk(n, s, q);
    forall r | 0 <= r < n
      ensures s.parent[r] == Some(q) ==> s'.parent[r] == Some(q) && (s.state[r].Zombie? ==> s'.state[r].Zombie?)
      ensures HoldsWait(s.pc[q]) && s'.parent[r] == Some(q) ==> s.parent[r] == Some(q)
    {
      if s.parent[r] == Some(q) {
        KidStays(n, s, p, a, q, r);
      }
      if HoldsWait(s.pc[q]) {
        NoNewKid(n, s, p, a, q, r);
      }
    }
    if HoldsWait(s.pc[q]) {
      NoNewKid(n, s, p, a, q, q);
    }
    SameKids(n, s, s', q);
  }

  lemma KilledStays(n: nat, s: State, p: nat, a: Choice, q: nat)
    requires Inv(n, s) && CanRun(n, s, p) && q < n
    ensures Fields(n, s, p, a).killed[q] == (s.killed[q] && Frees(n, s, p, a) != Some(q))
  {
    hide Inv, NextPc, NextStates, NextPcs, NextParents, Frees, Claims;
  }

  lemma SameKids(n: nat, s: State, s': State, q: nat)
    requires Sized(n, s) && Sized(n, s') && q < n
    requires forall r | 0 <= r < n :: s.parent[r] == Some(q) ==>
               s'.parent[r] == Some(q) && (s.state[r].Zombie? ==> s'.state[r].Zombie?)
    ensures forall k | 0 <= k <= n :: HasKid(s, q, k) ==> HasKid(s', q, k)
    ensures HasZombie(s, q) ==> HasZombie(s', q)
    ensures (forall r | 0 <= r < n :: s'.parent[r] == Some(q) ==> s.parent[r] == Some(q)) ==>
              forall k | 0 <= k <= n :: HasKid(s', q, k) ==> HasKid(s, q, k)
  {
    forall k | 0 <= k <= n && HasKid(s, q, k)
      ensures HasKid(s', q, k)
    {
      var r :| 0 <= r < k && r < |s.parent| && s.parent[r] == Some(q);
      assert s'.parent[r] == Some(q);
    }
    if HasZombie(s, q) {
      var r :| 0 <= r < |s.parent| && r < |s.state| && s.parent[r] == Some(q) && s.state[r].Zombie?;
      assert s'.parent[r] == Some(q) && s'.state[r].Zombie?;
    }
  }

  lemma KidSelf(n: nat, s: State, p: nat, a: Choice)
    requires Inv(n, s) && CanRun(n, s, p)
    ensures KidOk(n, Fields(n, s, p, a), p)
  {
    hide Naps, PidsOk, Children, LocksOk, NextStates, NextPcs, NextParents, KidsFrom, SeenTo, Forks, States, HoldsLock,
         Fields, HasKid, HasZombie;
    var s' := Fields(n, s, p, a);
    StateOf(n, s, p, a, p);
    KilledStays(n, s, p, a, p);
    assert KidOk(n, s, p) && ScanOk(n, s, p);
    if InWait(s.pc[p]) {
      WaitKids(n, s, p, a);
    }
  }

  /** kwait() changes no parent before it reaps. */
  lemma WaitKids(n: nat, s: State, p: nat, a: Choice)
    requires Inv(n, s) && CanRun(n, s, p) && InWait(s.pc[p])
    ensures var s' := Fields(n, s, p, a);
            && (Frees(n, s, p, a).None? ==>
                  && (forall k | 0 <= k <= n :: HasKid(s', p, k) <==> HasKid(s, p, k))
                  && (HasZombie(s, p) ==> HasZombie(s', p)) && s'.reaped == s.reaped)
            && (Frees(n, s, p, a).Some? ==>
                  s.pc[p].WaitLook? && s'.reaped == s.reaped + [s.pid[s.pc[p].i]] && s'.killed[p] == s.killed[p])
            && !HasKid(s', p, 0)
            && (s.pc[p].WaitScan? && s.pc[p].i < n && s.parent[s.pc[p].i] != Some(p) ==>
                  (HasKid(s, p, s.pc[p].i + 1) <==> HasKid(s, p, s.pc[p].i)))
            && (s.pc[p].WaitNext? && s.pc[p].i < n && s.parent[s.pc[p].i] == Some(p) ==> HasKid(s, p, s.pc[p].i + 1))
            && (s.pc[p].WaitLook? && s.pc[p].i < n && Frees(n, s, p, a).None? && s.state[s.pc[p].i].Zombie? ==>
                  HasZombie(s', p))
            && (s.pc[p].WaitLook? && s.pc[p].i < n && Frees(n, s, p, a).None? ==> s'.parent[s.pc[p].i] == Some(p))
            && (s.pc[p].WaitNext? ==> s.pc[p].i < n)
  {
    hide Naps, PidsOk, Children, LocksOk, NextStates, NextPcs, NextParents, KidsFrom, SeenTo, Forks, HoldsLock, NextPc;
    var s' := Fields(n, s, p, a);
    OtherSlots(n, s, p, a);
    assert KidOk(n, s, p) && ScanOk(n, s, p) && StateOk(n, s, p);
    if Frees(n, s, p, a).None? {
      forall r | 0 <= r < n
        ensures s'.parent[r] == s.parent[r] && (s.state[r].Zombie? ==> s'.state[r].Zombie?)
      {
        StateOf(n, s, p, a, r);
      }
      SameKids(n, s, s', p);
    }
  }

  lemma KeepsKids(n: nat, s: State, p: nat, a: Choice)
    requires Inv(n, s) && CanRun(n, s, p)
    ensures Sized(n, Fields(n, s, p, a)) && Kids(n, Fields(n, s, p, a))
  {
    hide LocksOk, States, Forks, Children, Scans, Naps, PidsOk, GoodPc, KidOk, Fields;
    RunIsSized(n, s, p, a);
    forall q | 0 <= q < n
      ensures KidOk(n, Fields(n, s, p, a), q)
    {
      if q == p {
        KidSelf(n, s, p, a);
      } else {
        KidOther(n, s, p, a, q);
      }
    }
  }

  lemma ForkGoesOn(n: nat, s: State, p: nat, a: Choice)
    requires Sized(n, s) && p < n && GoodPc(n, s.pc[p])
    ensures var pc, pc' := s.pc[p], NextPc(n, s, p, a);
            && (InFork(pc) ==> (InFork(pc') && pc'.c == pc.c) || Births(n, s, p) == Some(pc.c)
                               || Frees(n, s, p, a) == Some(pc.c))
            && (Claims(n, s, p, a).Some? ==> InFork(pc') && pc'.c == Claims(n, s, p, a).value)
  {
  }

  lemma KeepsSlots(n: nat, s: State, p: nat, a: Choice)
    requires Inv(n, s) && CanRun(n, s, p)
    ensures Sized(n, Fields(n, s, p, a)) && Slots(n, Fields(n, s, p, a))
  {
    hide LocksOk, Children, Scans, Naps, PidsOk, Kids, NextPc, NextStates, NextPcs, NextParents, Claims, Births, Frees,
         InFork, GoodPc, Fields;
    RunIsSized(n, s, p, a);
    var s' := Fields(n, s, p, a);
    OtherSlots(n, s, p, a);
    ForkGoesOn(n, s, p, a);
    forall c | 0 <= c < n
      ensures SlotOk(n, s', c)
    {
      StateOf(n, s, p, a, c);
      StateOf(n, s, p, a, p);
      if s'.state[c].Used? {
        if Claims(n, s, p, a) == Some(c) {
          assert InFork(s'.pc[p]) && s'.pc[p].c == c;
        } else {
          SlotStays(n, s, p, a, c);
        }
      }
    }
  }

  lemma SlotStays(n: nat, s: State, p: nat, a: Choice, c: nat)
    requires Inv(n, s) && CanRun(n, s, p) && c < n && s.state[c].Used?
    requires Frees(n, s, p, a) != Some(c) && Births(n, s, p) != Some(c)
    ensures SlotOk(n, Fields(n, s, p, a), c)
  {
    hide LocksOk, Children, Scans, Naps, PidsOk, Kids, NextPc, NextStates, NextPcs, NextParents, Claims, Births, Frees,
         GoodPc, Fields;
    var s' := Fields(n, s, p, a);
    OtherSlots(n, s, p, a);
    ForkGoesOn(n, s, p, a);
    assert SlotOk(n, s, c);
    var q :| 0 <= q < n && InFork(s.pc[q]) && s.pc[q].c == c;
    StateOf(n, s, p, a, q);
    assert StateOk(n, s, q);
    assert InFork(s'.pc[q]) && s'.pc[q].c == c;
  }

  lemma RunKeeps(n: nat, s: State, p: nat, a: Choice)
    requires Inv(n, s) && CanRun(n, s, p)
    ensures Inv(n, Apply(n, s, Run(p, a)))
  {
    hide LocksOk, States, Forks, Children, Scans, Naps, PidsOk, Kids, Slots, Fields, GoodPc, ForkStep, ExitStep,
         WaitStep, UserStep;
    KeepsLocks(n, s, p, a);
    KeepsStates(n, s, p, a);
    KeepsForks(n, s, p, a);
    KeepsChildren(n, s, p, a);
    KeepsScans(n, s, p, a);
    KeepsPids(n, s, p, a);
    NapsFrom(n, s, p, a);
    KeepsKids(n, s, p, a);
    KeepsSlots(n, s, p, a);
    RunIsFields(n, s, p, a);
  }

  lemma NapsFrom(n: nat, s: State, p: nat, a: Choice)
    requires Inv(n, s) && CanRun(n, s, p)
    ensures Sized(n, Fields(n, s, p, a)) && Naps(n, Fields(n, s, p, a))
  {
    hide LocksOk, States, Forks, Children, Scans, PidsOk, GoodPc, NapOk, Fields;
    RunIsSized(n, s, p, a);
    forall q | 0 <= q < n
      ensures NapOk(n, Fields(n, s, p, a), q)
    {
      KeepsNap(n, s, p, a, q);
    }
  }

  lemma RunIsFields(n: nat, s: State, p: nat, a: Choice)
    requires Inv(n, s) && CanRun(n, s, p)
    ensures Apply(n, s, Run(p, a)) == Fields(n, s, p, a)
  {
    hide LocksOk, Forks, Children, Scans, Naps, PidsOk, Fields, ForkStep, ExitStep, WaitStep, UserStep, GoodPc;
    OtherSlots(n, s, p, a);
    assert StateOk(n, s, p);
    if InFork(s.pc[p]) {
      ForkIsFields(n, s, p, a);
    } else if InExit(s.pc[p]) {
      ExitIsFields(n, s, p, a);
    } else if InWait(s.pc[p]) {
      WaitIsFields(n, s, p, a);
    } else {
      UserIsFields(n, s, p, a);
    }
  }

  lemma SwitchLocks(n: nat, s: State, p: nat)
    requires Inv(n, s) && p < n && s.pc[p].ExitSwitch?
    ensures var s' := Apply(n, s, Switch(p)); Sized(n, s') && LocksOk(n, s') && PidsOk(n, s') && InitOk(n, s')
  {
    hide Forks, Children, Scans, Naps;
    var s' := Apply(n, s, Switch(p));
    assert s'.pc == s.pc[p := Dead] && s'.lock == s.lock[p := None] && s'.waitLock == s.waitLock;
    assert StateOk(n, s, p);
    forall q, i | 0 <= q < n && 0 <= i < n
      ensures s'.lock[i] == Some(q) <==> HoldsLock(s'.pc[q], q, i)
    {
      assert s.lock[i] == Some(q) <==> HoldsLock(s.pc[q], q, i);
      assert s.lock[p] == Some(q) <==> HoldsLock(s.pc[q], q, p);
      assert s.lock[p] == Some(p) <==> HoldsLock(s.pc[p], p, p);
    }
  }

  lemma SwitchSlot(n: nat, s: State, p: nat, q: nat)
    requires Inv(n, s) && p < n && s.pc[p].ExitSwitch? && q < n
    ensures Sized(n, Apply(n, s, Switch(p)))
    ensures var s' := Apply(n, s, Switch(p)); StateOk(n, s', q) && ChildOk(n, s', q) && NapOk(n, s', q)
    ensures var s' := Apply(n, s, Switch(p)); ForkOk(n, s', q) && ScanOk(n, s', q) && SlotOk(n, s', q)
  {
    hide LocksOk, PidsOk;
    assert StateOk(n, s, p);
    assert StateOk(n, s, q) && ChildOk(n, s, q) && NapOk(n, s, q) && ForkOk(n, s, q) && ScanOk(n, s, q);
    SlotKept(n, s, Apply(n, s, Switch(p)), q);
  }

  lemma SlotKept(n: nat, s: State, s': State, c: nat)
    requires Sized(n, s) && Sized(n, s') && c < n && SlotOk(n, s, c) && (s'.state[c].Used? ==> s.state[c].Used?)
    requires forall q | 0 <= q < n :: InFork(s.pc[q]) ==> s'.pc[q] == s.pc[q]
    ensures SlotOk(n, s', c)
  {
    if s.state[c].Used? {
      var p :| 0 <= p < n && InFork(s.pc[p]) && s.pc[p].c == c;
      assert InFork(s'.pc[p]) && s'.pc[p].c == c;
    }
  }

  /** Steps that change no parent, and make nobody less of a zombie. */
  lemma KidsKept(n: nat, s: State, s': State)
    requires Sized(n, s) && Sized(n, s') && Kids(n, s) && s'.parent == s.parent && s'.reaped == s.reaped
    requires forall q | 0 <= q < n :: s.killed[q] ==> s'.killed[q]
    requires forall q | 0 <= q < n :: s.state[q].Zombie? ==> s'.state[q].Zombie?
    requires forall q | 0 <= q < n :: GoodPc(n, s.pc[q]) && (s'.pc[q] == s.pc[q] || s'.pc[q].Dead?)
    ensures Kids(n, s')
  {
    hide HasKid, HasZombie;
    forall q | 0 <= q < n
      ensures KidOk(n, s', q)
    {
      assert KidOk(n, s, q);
      SameKids(n, s, s', q);
    }
  }

  lemma SwitchKeeps(n: nat, s: State, p: nat)
    requires Inv(n, s) && p < n && s.pc[p].ExitSwitch?
    ensures Inv(n, Apply(n, s, Switch(p)))
  {
    hide LocksOk, PidsOk, InitOk, StateOk, ChildOk, NapOk, ForkOk, ScanOk, SlotOk, Kids, Apply;
    SwitchLocks(n, s, p);
    SwitchKids(n, s, p);
    forall q | 0 <= q < n
      ensures var s' := Apply(n, s, Switch(p)); StateOk(n, s', q) && ChildOk(n, s', q) && NapOk(n, s', q)
      ensures var s' := Apply(n, s, Switch(p)); ForkOk(n, s', q) && ScanOk(n, s', q) && SlotOk(n, s', q)
    {
      SwitchSlot(n, s, p, q);
    }
  }

  lemma SwitchKids(n: nat, s: State, p: nat)
    requires Inv(n, s) && p < n && s.pc[p].ExitSwitch?
    ensures Sized(n, Apply(n, s, Switch(p))) && Kids(n, Apply(n, s, Switch(p)))
  {
    hide LocksOk, PidsOk, Forks, Children, Scans, Naps, KidOk;
    forall q | 0 <= q < n
      ensures GoodPc(n, s.pc[q])
    {
      assert StateOk(n, s, q);
    }
    KidsKept(n, s, Apply(n, s, Switch(p)));
  }

  lemma KillKids(n: nat, s: State, p: nat)
    requires Inv(n, s) && p < n && s.lock[p].None?
    ensures Sized(n, Apply(n, s, Kill(p))) && Kids(n, Apply(n, s, Kill(p)))
  {
    hide LocksOk, PidsOk, Forks, Children, Scans, Naps, KidOk;
    forall q | 0 <= q < n
      ensures GoodPc(n, s.pc[q])
    {
      assert StateOk(n, s, q);
    }
    KidsKept(n, s, Apply(n, s, Kill(p)));
  }

  lemma KillKeeps(n: nat, s: State, p: nat)
    requires Inv(n, s) && p < n && s.lock[p].None?
    ensures Inv(n, Apply(n, s, Kill(p)))
  {
    hide Kids;
    var s' := Apply(n, s, Kill(p));
    KillKids(n, s, p);
    forall q | 0 <= q < n
      ensures StateOk(n, s', q) && ChildOk(n, s', q) && NapOk(n, s', q)
      ensures ForkOk(n, s', q) && ScanOk(n, s', q) && SlotOk(n, s', q)
    {
      SlotKept(n, s, s', q);
      assert StateOk(n, s, q) && ChildOk(n, s, q) && NapOk(n, s, q) && ForkOk(n, s, q) && ScanOk(n, s, q);
    }
  }

  lemma StepKeepsInv(n: nat, s: State, e: Event)
    requires Inv(n, s) && Can(n, s, e)
    ensures Inv(n, Apply(n, s, e))
  {
    hide Inv, Apply, CanRun;
    match e
    case Run(p, a) => RunKeeps(n, s, p, a);
    case Switch(p) => SwitchKeeps(n, s, p);
    case Kill(p) => KillKeeps(n, s, p);
  }

  // Whole runs

  /** Only init exists; no lock is held. */
  ghost predicate Init(n: nat, s: State) {
    && Sized(n, s) && n > 0 && s.waitLock.None? && s.reaped == [] && s.pid[0] < s.nextpid
    && s.state[0].Live? && s.pc[0].User? && s.parent[0].None?
    && (forall p :: 0 <= p < n ==> s.lock[p].None? && s.parent[p].None?)
    && (forall p :: 0 < p < n ==> s.state[p].Unused? && s.pc[p].Unborn?)
  }

  lemma InitHasInv(n: nat, s: State)
    requires Init(n, s)
    ensures Inv(n, s)
  {
    forall p | 0 <= p < n
      ensures StateOk(n, s, p)
    {
    }
  }

  ghost predicate RunFrom(n: nat, s: State, run: seq<Event>)
    decreases |run|
  {
    run != [] ==> Sized(n, s) && Can(n, s, run[0]) && RunFrom(n, Apply(n, s, run[0]), run[1..])
  }

  ghost function After(n: nat, s: State, run: seq<Event>): (s': State)
    requires RunFrom(n, s, run)
    decreases |run|
  {
    if run == [] then s else After(n, Apply(n, s, run[0]), run[1..])
  }

  lemma {:induction false} RunKeepsInv(n: nat, s: State, run: seq<Event>)
    requires Inv(n, s) && RunFrom(n, s, run)
    ensures Inv(n, After(n, s, run))
    decreases |run|
  {
    hide Inv, Apply, Can;
    if run != [] {
      StepKeepsInv(n, s, run[0]);
      RunKeepsInv(n, Apply(n, s, run[0]), run[1..]);
    }
  }

  lemma Reached(n: nat, s0: State, run: seq<Event>)
    requires Init(n, s0) && RunFrom(n, s0, run)
    ensures Inv(n, After(n, s0, run))
  {
    InitHasInv(n, s0);
    RunKeepsInv(n, s0, run);
  }

  predicate Alive(st: PState) { st.Live? || st.Sleeping? }

  /** In every run, each live or zombie process but init has a parent that is alive. */
  lemma ParentsAlive(n: nat, s0: State, run: seq<Event>, q: nat)
    requires Init(n, s0) && RunFrom(n, s0, run) && 0 < q < n
    ensures var s := After(n, s0, run);
            && Sized(n, s)
            && (Alive(s.state[q]) || s.state[q].Zombie? ==>
                  s.parent[q].Some? && s.parent[q].value < n && Alive(s.state[s.parent[q].value]))
  {
    Reached(n, s0, run);
    var s := After(n, s0, run);
    hide Forks, Scans, Naps, PidsOk, LocksOk;
    assert StateOk(n, s, q) && ChildOk(n, s, q);
    assert s.parent[q].Some? ==> StateOk(n, s, s.parent[q].value);
  }

  /** In every run, a process leaves the zombie state only by its parent's wait, which holds wait_lock, after it has
      left the CPU, and wait returns its pid. */
  lemma ReapedByParent(n: nat, s0: State, run: seq<Event>, e: Event, q: nat)
    requires Init(n, s0) && RunFrom(n, s0, run) && q < n
    requires Sized(n, After(n, s0, run)) && Can(n, After(n, s0, run), e)
    ensures var s := After(n, s0, run);
            var s' := Apply(n, s, e);
            && Sized(n, s')
            && (s.state[q].Zombie? && !s'.state[q].Zombie? ==>
                  && e.Run? && s.parent[q] == Some(e.p) && s.waitLock == Some(e.p) && s.pc[q].Dead?
                  && s'.state[q].Unused? && s'.reaped == s.reaped + [s.pid[q]])
  {
    Reached(n, s0, run);
    var s := After(n, s0, run);
    hide Naps, PidsOk, Children, KidsFrom, SeenTo;
    StepKeepsInv(n, s, e);
    if e.Run? && s.state[q].Zombie? {
      ReapStep(n, s, e.p, e.a, q);
    }
  }

  lemma ReapStep(n: nat, s: State, p: nat, a: Choice, q: nat)
    requires Inv(n, s) && CanRun(n, s, p) && q < n && s.state[q].Zombie?
    ensures var s' := Apply(n, s, Run(p, a));
            && Sized(n, s')
            && (!s'.state[q].Zombie? ==>
                  && s.parent[q] == Some(p) && s.waitLock == Some(p) && s.pc[q].Dead?
                  && s'.state[q].Unused? && s'.reaped == s.reaped + [s.pid[q]])
  {
    hide Naps, PidsOk, Children, KidsFrom, SeenTo, Forks, NextPc, NextStates, NextPcs, NextParents, HoldsLock;
    RunIsFields(n, s, p, a);
    OtherSlots(n, s, p, a);
    StateOf(n, s, p, a, q);
    assert StateOk(n, s, p) && StateOk(n, s, q);
    assert s.pc[p].WaitLook? ==> HoldsWait(s.pc[p]);
  }

  /** In every run, no pid is returned by wait twice. */
  lemma ReapedOnce(n: nat, s0: State, run: seq<Event>, i: nat, j: nat)
    requires Init(n, s0) && RunFrom(n, s0, run) && i < j < |After(n, s0, run).reaped|
    ensures After(n, s0, run).reaped[i] != After(n, s0, run).reaped[j]
  {
    Reached(n, s0, run);
  }

  /** In every run, whenever wait_lock is free, nobody sleeps in wait with a zombie child. */
  lemma NoSleepingParent(n: nat, s0: State, run: seq<Event>, p: nat, q: nat)
    requires Init(n, s0) && RunFrom(n, s0, run) && p < n && q < n
    ensures var s := After(n, s0, run);
            && Sized(n, s)
            && (s.waitLock.None? && s.state[p].Sleeping? && s.parent[q] == Some(p) ==> !s.state[q].Zombie?)
  {
    Reached(n, s0, run);
    assert NapOk(n, After(n, s0, run), q);
  }

  /** In every run, a scan of kwait() that has found no zombie ends in sleep exactly if there is a child and the caller
      has not been killed. */
  lemma WaitDecides(n: nat, s0: State, run: seq<Event>, p: nat, a: Choice)
    requires Init(n, s0) && RunFrom(n, s0, run)
    requires Sized(n, After(n, s0, run)) && CanRun(n, After(n, s0, run), p)
    requires var pc := After(n, s0, run).pc[p]; pc.WaitScan? && pc.i == n
    ensures var s := After(n, s0, run);
            Apply(n, s, Run(p, a)).pc[p] ==
              if !HasKid(s, p, n) then WaitRelease(NoKids)
              else if s.killed[p] then WaitRelease(WasKilled)
              else WaitSleep
  {
    Reached(n, s0, run);
    hide LocksOk, PidsOk, States, Forks, Children, Scans, Naps, HasKid;
    assert KidOk(n, After(n, s0, run), p);
  }

  /** In every run, kwait() that comes to a child takes it exactly if it is a zombie, and then returns its pid, unless
      the status cannot be copied out. */
  lemma WaitFinds(n: nat, s0: State, run: seq<Event>, p: nat, a: Choice)
    requires Init(n, s0) && RunFrom(n, s0, run)
    requires Sized(n, After(n, s0, run)) && CanRun(n, After(n, s0, run), p) && After(n, s0, run).pc[p].WaitLook?
    ensures var s := After(n, s0, run);
            var s', i := Apply(n, s, Run(p, a)), s.pc[p].i;
            && s.parent[i] == Some(p)
            && s'.pc[p] == (if !s.state[i].Zombie? then WaitNext(i)
                            else WaitFound(i, if a == Go(true) then NoCopy else Reaped(s.pid[i])))
            && s'.state[i] == (if s.state[i].Zombie? && a != Go(true) then Unused else s.state[i])
            && s'.reaped == (if s.state[i].Zombie? && a != Go(true) then s.reaped + [s.pid[i]] else s.reaped)
  {
    Reached(n, s0, run);
    var s := After(n, s0, run);
    hide LocksOk, PidsOk, Forks, Children, Naps, Kids, Fields;
    assert ScanOk(n, s, p) && StateOk(n, s, p);
    RunIsFields(n, s, p, a);
  }

  /** In every run, kwait() that is about to return says the truth: it has no child, it has been killed, or there is a
      zombie child whose status it could not deliver; or it has just reaped the process whose pid it returns. */
  lemma WaitReturns(n: nat, s0: State, run: seq<Event>, p: nat)
    requires Init(n, s0) && RunFrom(n, s0, run) && p < n
    ensures var s := After(n, s0, run);
            Sized(n, s) && (s.pc[p].WaitRelease? ==> OutcomeOk(n, s, p, s.pc[p].o))
  {
    Reached(n, s0, run);
    hide LocksOk, PidsOk, States, Forks, Children, Scans, Naps, OutcomeOk;
    assert KidOk(n, After(n, s0, run), p);
  }

  /** In every run, who sleeps in kwait() has a child. */
  lemma SleepersHaveKids(n: nat, s0: State, run: seq<Event>, p: nat)
    requires Init(n, s0) && RunFrom(n, s0, run) && p < n
    ensures var s := After(n, s0, run);
            Sized(n, s) && (s.state[p].Sleeping? ==> HasKid(s, p, n))
  {
    Reached(n, s0, run);
    hide LocksOk, PidsOk, Forks, Children, Scans, Naps, HasKid;
    assert KidOk(n, After(n, s0, run), p) && StateOk(n, After(n, s0, run), p);
  }

  /** In every run, kkill() marks its victim and leaves it awake; nobody else changes. */
  lemma KilledWakes(n: nat, s0: State, run: seq<Event>, p: nat, q: nat)
    requires Init(n, s0) && RunFrom(n, s0, run) && q < n
    requires Sized(n, After(n, s0, run)) && Can(n, After(n, s0, run), Kill(p))
    ensures var s := After(n, s0, run);
            var s' := Apply(n, s, Kill(p));
            && Sized(n, s') && s'.killed[p] && !s'.state[p].Sleeping?
            && (s.state[p].Sleeping? ==> CanRun(n, s', p) || s.waitLock.Some?)
            && (q != p ==> s'.state[q] == s.state[q] && s'.killed[q] == s.killed[q])
            && s'.pc == s.pc && s'.parent == s.parent
  {
    Reached(n, s0, run);
    var s := After(n, s0, run);
    hide LocksOk, PidsOk, Forks, Children, Scans, Naps, Kids;
    assert StateOk(n, s, p);
  }

  /** In every run, a slot that is neither free nor a process is one that some fork is working on: no failure of fork
      loses one. */
  lemma NoLostSlot(n: nat, s0: State, run: seq<Event>, c: nat)
    requires Init(n, s0) && RunFrom(n, s0, run) && c < n
    ensures var s := After(n, s0, run);
            && Sized(n, s)
            && (s.state[c].Used? ==> exists p | 0 <= p < n :: InFork(s.pc[p]) && s.pc[p].c == c)
  {
    Reached(n, s0, run);
    assert SlotOk(n, After(n, s0, run), c);
  }
}
