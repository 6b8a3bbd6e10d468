/** The memory of all processes over whole runs (riscv/kernel/proc.c:126-329, riscv/kernel/sysproc.c:39-63).
    Any number of address spaces are created, grown, shrunk, faulted in, copied and released in any order;
    every frame stays accounted for. */
module ProcessMemory {
  import opened PageTable
  import opened VirtualMemory
  import opened UserMemory
  import opened UserCopy
  import opened AddressSpace
  import opened Values

  /** The memory and the size of each address space. */
  datatype Mem = Mem(s: State, sz: map<nat, nat>)

  /** One operation with its outcome. An access is a page fault, a copyin or a copyout. Take and Give are
      pages that the kernel allocates and frees for itself. */
  datatype Event =
    | Create(r: nat, trampoline: nat, trapframe: nat)
    | CreateFailed
    | Grow(r: nat, newsz: nat, xperm: nat, ok: bool)
    | Shrink(r: nat, newsz: nat)
    | Lazy(r: nat, newsz: nat)
    | Access(r: nat)
    | Copy(r0: nat, r1: nat, ok: bool)
    | Free(r: nat)
    | Take(f: nat)
    | Give(f: nat)

  /** What the operations promise. */
  ghost predicate Step(m: Mem, e: Event, m': Mem) {
    Inv(m'.s) && match e
    case Create(r, trampoline, trapframe) =>
      && r !in m.s.users && m'.s.users == m.s.users + {r} && NoneNames(m.s, r) && Touches(m.s, m'.s, r)
      && TopMapped(m.s, m'.s, r, trampoline / PGSIZE, trapframe / PGSIZE) && m'.sz == m.sz[r := 0]
    case CreateFailed =>
      && |m.s.freelist| < 3 && m'.s.role == m.s.role && m'.s.users == m.s.users && SameLeaves(m.s, m'.s)
      && m'.sz == m.sz
    case Grow(r, newsz, xperm, ok) =>
      && r in m.sz && m.sz[r] <= newsz <= TRAPFRAME && m'.s.users == m.s.users
      && (if ok then
            && Takes(m.s, m'.s, r) && m'.sz == m.sz[r := newsz]
            && GrownBy(m.s, m'.s, r, Pages(m.sz[r]), Pages(newsz) - Pages(m.sz[r]), V + R + U + xperm)
          else
            && |m.s.freelist| < 3 * (Pages(newsz) - Pages(m.sz[r]))
            && Touches(m.s, m'.s, r) && SameLeaves(m.s, m'.s) && m'.sz == m.sz)
    case Shrink(r, newsz) =>
      && r in m.sz && newsz <= m.sz[r] && m'.sz == m.sz[r := newsz]
      && Unmapped(m.s, m'.s, r, Pages(newsz), Pages(m.sz[r]) - Pages(newsz), Role.Free)
    case Lazy(r, newsz) =>
      r in m.sz && m.sz[r] <= newsz <= TRAPFRAME && m'.s == m.s && m'.sz == m.sz[r := newsz]
    case Access(r) =>
      r in m.sz && Lazily(m.s, m'.s, r, m.sz[r]) && m'.sz == m.sz
    case Copy(r0, r1, ok) =>
      && r0 in m.sz && r1 in m.sz && r0 != r1 && m.sz[r1] == 0 && m'.s.users == m.s.users
      && (if ok then
            && Takes(m.s, m'.s, r1) && Copied(m.s, m'.s, r0, r1, Pages(m.sz[r0])) && m'.sz == m.sz[r1 := m.sz[r0]]
          else
            && |m.s.freelist| < 3 * Pages(m.sz[r0])
            && Touches(m.s, m'.s, r1) && SameLeaves(m.s, m'.s) && m'.sz == m.sz)
    case Free(r) =>
      r in m.sz && Vacated(m.s, m'.s, r) && m'.sz == m.sz - {r}
    case Take(f) =>
      m.s.freelist != [] && f == m.s.freelist[0] && m'.s == Taken(m.s) && m'.sz == m.sz
    case Give(f) =>
      f in m.s.role && m.s.role[f].Used? && m'.s == Released(m.s, f) && m'.sz == m.sz
  }

  /** No page of r is mapped at or above its size, apart from the trampoline and the trap frame. */
  ghost predicate Within(m: Mem, r: nat) {
    r in m.sz && m.sz[r] <= TRAPFRAME && Confined(m.s, r, m.sz[r], 2)
  }

  ghost predicate Good(m: Mem) {
    Inv(m.s) && m.sz.Keys == m.s.users && forall r :: r in m.s.users ==> Within(m, r)
  }

  // Frames

  /** f is a table of the kernel's own. */
  ghost predicate KernelTable(s: State, f: nat) {
    f in s.role && s.role[f].Tab? && s.role[f].key.root !in s.users
  }

  /** The kernel's own tables are the same. */
  ghost predicate Kept(s: State, s': State) {
    && s'.role.Keys == s.role.Keys
    && forall f :: f in s.role && (KernelTable(s, f) || KernelTable(s', f)) ==>
         KernelTable(s, f) && KernelTable(s', f) && s'.role[f] == s.role[f]
  }

  /** The pages that the kernel has allocated for itself. */
  ghost function Held(s: State): (h: set<nat>) {
    set f | f in s.role && s.role[f].Used?
  }

  ghost function HeldAfter(h: set<nat>, e: Event): (h': set<nat>) {
    if e.Take? then h + {e.f} else if e.Give? then h - {e.f} else h
  }

  lemma TouchKept(s: State, s': State, r: nat)
    requires Touches(s, s', r)
    requires || (s'.users == s.users && r in s.users)
             || (s'.users == s.users + {r} && NoneNames(s, r))
             || (s'.users == s.users - {r} && r in s.users && NoneNames(s', r))
    ensures Kept(s, s') && Held(s') == Held(s)
  {
  }

  lemma SameRoleKept(s: State, s': State)
    requires s'.role == s.role && s'.users == s.users
    ensures Kept(s, s') && Held(s') == Held(s)
  {
  }

  lemma KeptTrans(s: State, s1: State, s2: State)
    requires Kept(s, s1) && Kept(s1, s2)
    ensures Kept(s, s2)
  {
  }

  lemma PageTaken(s: State)
    requires Inv(s) && s.freelist != []
    ensures Kept(s, Taken(s)) && Held(Taken(s)) == Held(s) + {s.freelist[0]} && Taken(s).users == s.users
  {
    hide TabsOk, LinksOk, UsersOk;
    assert s.freelist[0] in s.freelist;
  }

  lemma PageGiven(s: State, f: nat)
    requires Inv(s) && f in s.role && s.role[f].Used?
    ensures Kept(s, Released(s, f)) && Held(Released(s, f)) == Held(s) - {f} && Released(s, f).users == s.users
  {
    hide TabsOk, LinksOk, UsersOk;
  }

  /** What a step does to the frames: the kernel's tables stay, and its own pages change by Take and Give only. */
  lemma StepFrames(m: Mem, e: Event, m': Mem)
    requires Good(m) && Step(m, e, m')
    ensures Kept(m.s, m'.s) && Held(m'.s) == HeldAfter(Held(m.s), e)
  {
    hide Inv, Kept, Held, Touches, Takes, TakesBut, Vacated, Unmapped, SameLeaves, GrownBy, Copied, TopMapped, Within,
         NoneNames, Taken, Released;
    match e
    case Create(r, _, _) => TouchKept(m.s, m'.s, r);
    case CreateFailed => SameRoleKept(m.s, m'.s);
    case Grow(r, _, _, ok) =>
      if ok { TakesTouches(m.s, m'.s, r); }
      TouchKept(m.s, m'.s, r);
    case Shrink(r, newsz) =>
      UnmappedTouches(m.s, m'.s, r, Pages(newsz), Pages(m.sz[r]) - Pages(newsz));
      UnmappedUsers(m.s, m'.s, r, Pages(newsz), Pages(m.sz[r]) - Pages(newsz));
      TouchKept(m.s, m'.s, r);
    case Lazy(r, _) => SameRoleKept(m.s, m'.s);
    case Access(r) =>
      LazyTakes(m.s, m'.s, r, m.sz[r]);
      TakesTouches(m.s, m'.s, r);
      TouchKept(m.s, m'.s, r);
    case Copy(_, r1, ok) =>
      if ok { TakesTouches(m.s, m'.s, r1); }
      TouchKept(m.s, m'.s, r1);
    case Free(r) =>
      VacatedTouches(m.s, m'.s, r);
      VacatedUsers(m.s, m'.s, r);
      TouchKept(m.s, m'.s, r);
    case Take(f) => PageTaken(m.s);
    case Give(f) => PageGiven(m.s, f);
  }

  lemma UnmappedUsers(s: State, s': State, r: nat, vpn: nat, n: nat)
    requires Unmapped(s, s', r, vpn, n, Role.Free)
    ensures s'.users == s.users
  {
  }

  lemma VacatedUsers(s: State, s': State, r: nat)
    requires Vacated(s, s', r)
    ensures s'.users == s.users - {r}
  {
  }

  lemma LazyTakes(s: State, s': State, r: nat, sz: nat)
    requires Lazily(s, s', r, sz)
    ensures Takes(s, s', r) && s'.users == s.users
  {
  }

  // Sizes

  /** An address space that a step does not touch stays within its size. */
  lemma OtherWithin(m: Mem, m': Mem, r: nat)
    requires Within(m, r) && r in m'.sz && m'.sz[r] == m.sz[r]
    requires forall v: nat :: Leaf(m'.s, r, v) == Leaf(m.s, r, v)
    ensures Within(m', r)
  {
    hide Leaf;
  }

  lemma CreatedWithin(m: Mem, m': Mem, r: nat, a: nat, b: nat, q: nat)
    requires Good(m) && NoneNames(m.s, r) && TopMapped(m.s, m'.s, r, a, b) && m'.sz == m.sz[r := 0]
    requires q == r || q in m.s.users
    ensures Within(m', q)
  {
    hide Leaf, Inv;
    if q == r {
      NoLeaves0(m.s, r);
    } else {
      OtherWithin(m, m', q);
    }
  }

  lemma NoLeaves0(s: State, r: nat)
    requires Inv(s) && NoneNames(s, r)
    ensures forall v: nat :: Leaf(s, r, v) == 0
  {
    hide FreeOk, LinksOk, UsersOk;
    forall v: nat
      ensures Leaf(s, r, v) == 0
    {
      assert Low(r, v / ENTRIES) in s.tabs ==> TabOk(s, Low(r, v / ENTRIES));
    }
  }

  lemma SameWithin(m: Mem, m': Mem, q: nat)
    requires Within(m, q) && SameLeaves(m.s, m'.s) && q in m'.sz && m.sz[q] <= m'.sz[q] <= TRAPFRAME
    ensures Within(m', q)
  {
    hide Leaf;
    assert Pages(m.sz[q]) <= Pages(m'.sz[q]);
  }

  lemma GrownWithin(m: Mem, m': Mem, r: nat, newsz: nat, flags: nat, q: nat)
    requires Within(m, q) && r in m.sz && m.sz[r] <= newsz <= TRAPFRAME && m'.sz == m.sz[r := newsz]
    requires GrownBy(m.s, m'.s, r, Pages(m.sz[r]), Pages(newsz) - Pages(m.sz[r]), flags)
    ensures Within(m', q)
  {
    hide Leaf, NewPage;
    if q != r {
      OtherWithin(m, m', q);
    }
  }

  lemma ShrunkWithin(m: Mem, m': Mem, r: nat, newsz: nat, q: nat)
    requires Within(m, q) && r in m.sz && newsz <= m.sz[r] && m'.sz == m.sz[r := newsz]
    requires ClearedRange(m.s, m'.s, r, Pages(newsz), Pages(m.sz[r]) - Pages(newsz))
    ensures Within(m', q)
  {
    hide Leaf, Valid;
    assert !Valid(0) by { ZeroInvalid(); }
    if q != r {
      OtherWithin(m, m', q);
    }
  }

  lemma ZeroInvalid()
    ensures !Valid(0)
  {
  }

  lemma AccessWithin(m: Mem, m': Mem, r: nat, q: nat)
    requires Within(m, q) && r in m.sz && Lazily(m.s, m'.s, r, m.sz[r]) && m'.sz == m.sz
    ensures Within(m', q)
  {
    hide Leaf, TakesBut;
    if q != r {
      OtherWithin(m, m', q);
    }
  }

  lemma CopiedWithin(m: Mem, m': Mem, r0: nat, r1: nat, q: nat)
    requires Within(m, q) && Within(m, r0) && r0 in m.sz && r1 in m.sz && m.sz[r1] == 0
    requires Copied(m.s, m'.s, r0, r1, Pages(m.sz[r0])) && m'.sz == m.sz[r1 := m.sz[r0]]
    ensures Within(m', q)
  {
    hide Leaf, NewPage;
    if q != r1 {
      OtherWithin(m, m', q);
    }
  }

  lemma FreedWithin(m: Mem, m': Mem, r: nat, q: nat)
    requires Within(m, q) && q != r && Vacated(m.s, m'.s, r) && m'.sz == m.sz - {r}
    ensures Within(m', q)
  {
    hide Leaf;
    OtherWithin(m, m', q);
  }

  lemma UnmappedCleared(s: State, s': State, r: nat, vpn: nat, n: nat)
    requires Unmapped(s, s', r, vpn, n, Role.Free)
    ensures ClearedRange(s, s', r, vpn, n)
  {
  }

  /** Every operation leaves every address space within its size, whichever it works on. */
  lemma StepKeepsGood(m: Mem, e: Event, m': Mem)
    requires Good(m) && Step(m, e, m')
    ensures Good(m')
  {
    hide Inv, Touches, TakesBut, Takes, Vacated, Unmapped, SameLeaves, GrownBy, Copied, TopMapped, Within, NoneNames,
         Taken, Released, ClearedRange, Lazily;
    UsersAfter(m, e, m');
    forall q | q in m'.s.users
      ensures Within(m', q)
    {
      StepWithin(m, e, m', q);
    }
  }

  lemma UsersAfter(m: Mem, e: Event, m': Mem)
    requires Good(m) && Step(m, e, m')
    ensures m'.sz.Keys == m'.s.users
    ensures m'.s.users == if e.Create? then m.s.users + {e.r} else if e.Free? then m.s.users - {e.r} else m.s.users
  {
    hide Inv, Touches, TakesBut, Vacated, Unmapped, SameLeaves, GrownBy, Copied, TopMapped, Within, NoneNames, Lazily;
    match e
    case Shrink(r, newsz) => UnmappedUsers(m.s, m'.s, r, Pages(newsz), Pages(m.sz[r]) - Pages(newsz));
    case Access(r) => LazyTakes(m.s, m'.s, r, m.sz[r]);
    case Free(r) => VacatedUsers(m.s, m'.s, r);
    case _ =>
  }

  lemma StepWithin(m: Mem, e: Event, m': Mem, q: nat)
    requires Good(m) && Step(m, e, m') && q in m'.s.users && m'.sz.Keys == m'.s.users
    requires m'.s.users == if e.Create? then m.s.users + {e.r} else if e.Free? then m.s.users - {e.r} else m.s.users
    ensures Within(m', q)
  {
    hide Inv, Touches, TakesBut, Takes, Vacated, Unmapped, SameLeaves, GrownBy, Copied, TopMapped, Within, NoneNames,
         Taken, Released, ClearedRange, Lazily;
    match e
    case Create(r, a, b) => CreatedWithin(m, m', r, a / PGSIZE, b / PGSIZE, q);
    case CreateFailed => WithinSize(m, q); SameWithin(m, m', q);
    case Grow(r, newsz, xperm, ok) =>
      if ok { GrownWithin(m, m', r, newsz, V + R + U + xperm, q); } else { WithinSize(m, q); SameWithin(m, m', q); }
    case Shrink(r, newsz) =>
      UnmappedCleared(m.s, m'.s, r, Pages(newsz), Pages(m.sz[r]) - Pages(newsz));
      ShrunkWithin(m, m', r, newsz, q);
    case Lazy(r, _) => WithinSize(m, q); NothingChanged(m.s); SameWithin(m, m', q);
    case Access(r) => AccessWithin(m, m', r, q);
    case Copy(r0, r1, ok) =>
      if ok { CopiedWithin(m, m', r0, r1, q); } else { WithinSize(m, q); SameWithin(m, m', q); }
    case Free(r) => FreedWithin(m, m', r, q);
    case Take(f) => WithinSize(m, q); TakenKeepsInv(m.s); SameWithin(m, m', q);
    case Give(f) => WithinSize(m, q); ReleasedKeepsInv(m.s, f); SameWithin(m, m', q);
  }

  lemma WithinSize(m: Mem, q: nat)
    requires Within(m, q)
    ensures q in m.sz && m.sz[q] <= TRAPFRAME
  {
    hide Confined;
  }

  // Whole runs

  /** ms are the states that a run with the events es goes through. */
  ghost predicate Run(ms: seq<Mem>, es: seq<Event>) {
    |ms| == |es| + 1 && forall i :: 0 <= i < |es| ==> Step(ms[i], es[i], ms[i + 1])
  }

  ghost function HeldAll(h: set<nat>, es: seq<Event>): (h': set<nat>)
    decreases |es|
  {
    if es == [] then h else HeldAfter(HeldAll(h, es[..|es| - 1]), es[|es| - 1])
  }

  /** Any interleaving of operations on any number of address spaces keeps every one of them within its size,
      keeps the kernel's tables, and changes the kernel's own pages only where it takes or gives them. */
  lemma {:induction false} RunKeepsGood(ms: seq<Mem>, es: seq<Event>)
    requires Run(ms, es) && Good(ms[0])
    ensures var m := ms[|es|];
            Good(m) && Kept(ms[0].s, m.s) && Held(m.s) == HeldAll(Held(ms[0].s), es)
    decreases |es|
  {
    hide Good, Step, Kept, Held, HeldAfter;
    if es == [] {
      SameRoleKept(ms[0].s, ms[0].s);
    } else {
      var n := |es| - 1;
      var ms', es' := ms[..n + 1], es[..n];
      assert forall i :: 0 <= i < |es'| ==> Step(ms'[i], es'[i], ms'[i + 1]);
      RunKeepsGood(ms', es');
      StepKeepsGood(ms[n], es[n], ms[n + 1]);
      StepFrames(ms[n], es[n], ms[n + 1]);
      KeptTrans(ms[0].s, ms[n].s, ms[n + 1].s);
    }
  }

  /** In every state of a run that starts without address spaces, a frame that was free then is free and on the
      free list once, or is held by the kernel, or is the table of one live address space, or is the one page
      below its size that this frame is mapped at. */
  lemma FrameAccounted(ms: seq<Mem>, es: seq<Event>, f: nat)
    requires Run(ms, es) && Good(ms[0]) && ms[0].s.users == {} && f in ms[0].s.freelist
    ensures var m := ms[|es|];
            && f in m.s.role
            && match m.s.role[f]
               case Free => multiset(m.s.freelist)[f] == 1
               case Used => f in HeldAll(Held(ms[0].s), es)
               case Tab(k) => k.root in m.s.users && k in m.s.tabs && m.s.tabs[k] == f
               case User(r, v) =>
                 && r in m.s.users && r in m.sz && v < Pages(m.sz[r])
                 && Valid(Leaf(m.s, r, v)) && Ppn(Leaf(m.s, r, v)) == f
  {
    hide Step, Leaf, Valid, Ppn, LinksOk, Pages;
    RunKeepsGood(ms, es);
    var s, m := ms[0].s, ms[|es|];
    assert f in s.role && s.role[f].Free?;
    NoDupOnce(m.s.freelist);
    if m.s.role[f].User? {
      assert FrameOk(m.s, f);
      assert Within(m, m.s.role[f].root);
    }
  }

  /** Once all address spaces are released and the kernel has given back the pages that it took for itself, every
      frame is what it was at the start: none is lost and none is on the free list twice. */
  lemma FramesConserved(ms: seq<Mem>, es: seq<Event>)
    requires Run(ms, es) && Good(ms[0]) && ms[0].s.users == {} && ms[|es|].s.users == {}
    requires HeldAll(Held(ms[0].s), es) == Held(ms[0].s)
    ensures ms[|es|].s.role == ms[0].s.role
    ensures multiset(ms[|es|].s.freelist) == multiset(ms[0].s.freelist)
  {
    hide Step;
    RunKeepsGood(ms, es);
    SameFrames(ms[0].s, ms[|es|].s);
  }

  lemma SameFrames(s: State, s': State)
    requires Inv(s) && Inv(s') && Kept(s, s') && Held(s') == Held(s) && s.users == {} && s'.users == {}
    ensures s'.role == s.role && multiset(s'.freelist) == multiset(s.freelist)
  {
    hide TabsOk, LinksOk, Leaf;
    assert s'.role.Keys == s.role.Keys;
    forall f | f in s.role
      ensures s'.role[f] == s.role[f]
    {
      assert FrameOk(s, f) && FrameOk(s', f);
      assert f in Held(s) <==> f in Held(s');
      assert KernelTable(s, f) || KernelTable(s', f) ==> s'.role[f] == s.role[f];
    }
    NoDupOnce(s.freelist);
    NoDupOnce(s'.freelist);
  }

  lemma {:induction false} NoDupOnce(q: seq<nat>)
    requires NoDup(q)
    ensures forall f :: multiset(q)[f] == if f in q then 1 else 0
  {
    if q != [] {
      TailMembers(q);
      NoDupOnce(q[1..]);
      assert q == [q[0]] + q[1..];
    }
  }

  // The operations

  const WORD64 := 0x1_0000_0000_0000_0000

  class Machine {
    const vm: Vm
    var sz: map<nat, nat>

    ghost function M(): (m: Mem)
      reads this, vm
    {
      Mem(vm.S(), sz)
    }

    /** No process yet, and all pages free. */
    constructor (lo: nat, hi: nat)
      requires 0 < lo <= hi
      ensures fresh(vm) && Good(M()) && sz == map[] && vm.users == {} && Held(M().s) == {}
      ensures forall f :: f in vm.freelist <==> lo <= f < hi
    {
      vm := new Vm(lo, hi);
      sz := map[];
      new;
      hide TabsOk, LinksOk, UsersOk;
    }

    /** The page table of a new process. */
    method Create(trampoline: nat, trapframe: nat) returns (r: nat, ghost e: Event)
      requires Good(M())
      modifies this, vm
      ensures Step(old(M()), e, M()) && Good(M())
      ensures e == if r != 0 then Event.Create(r, trampoline, trapframe) else CreateFailed
    {
      hide Inv, Touches, NoneNames, TopMapped, SameLeaves, Within, SameBytes;
      ghost var m := M();
      r := ProcPagetable(vm, trampoline, trapframe);
      e := CreateFailed;
      if r != 0 {
        sz := sz[r := 0];
        e := Event.Create(r, trampoline, trapframe);
      }
      StepKeepsGood(m, e, M());
    }

    /** growproc: n more bytes, at once; or -n bytes less. */
    method Growproc(r: nat, n: int) returns (ret: int, ghost e: Event)
      requires Good(M()) && r in sz && sz[r] + n <= TRAPFRAME && n > -WORD64
      modifies this, vm
      ensures Step(old(M()), e, M()) && Good(M())
      ensures ret == 0 || ret == -1
      ensures n > 0 ==> e == Grow(r, old(sz)[r] + n, W, ret == 0)
      ensures n <= 0 ==> ret == 0 && e == Shrink(r, if old(sz)[r] + n >= 0 then old(sz)[r] + n else old(sz)[r])
    {
      hide Inv, Touches, Takes, TakesBut, SameLeaves, GrownBy, Unmapped, Within, SameBytes, Pages;
      ghost var m := M();
      GoodFacts(m, r);
      ret := 0;
      if n > 0 {
        ghost var ok;
        RoomAbove(m, r, sz[r] + n);
        var newsz;
        newsz, ok := Uvmalloc(vm, r, sz[r], sz[r] + n, W);
        e := Grow(r, m.sz[r] + n, W, ok);
        if newsz == 0 {
          ret := -1;
        } else {
          sz := sz[r := newsz];
        }
      } else {
        // A size below zero wraps around, so that nothing is released.
        var to := if sz[r] + n >= 0 then sz[r] + n else sz[r] + n + WORD64;
        var newsz := Uvmdealloc(vm, r, sz[r], to);
        if to >= sz[r] {
          UnmapNowhere(m.s, vm.S(), r, Pages(to), Pages(newsz));
        }
        sz := sz[r := newsz];
        e := Shrink(r, newsz);
      }
      StepKeepsGood(m, e, M());
    }

    /** sbrk that leaves the allocation to later faults. It refuses nothing but a sum that overflows, so a size may come
        to lie above the trap frame; the operations below need that it does not. */
    method SbrkLazy(r: nat, n: nat) returns (ret: int, ghost e: Event)
      requires Good(M()) && r in sz
      modifies this`sz
      ensures ret == (if old(sz)[r] + n >= WORD64 then -1 else old(sz)[r])
      ensures ret == -1 ==> sz == old(sz)
      ensures ret != -1 ==> sz == old(sz)[r := old(sz)[r] + n]
      ensures Good(M()) <==> ret == -1 || old(sz)[r] + n <= TRAPFRAME
      ensures ret != -1 && old(sz)[r] + n <= TRAPFRAME ==> Step(old(M()), e, M()) && e == Lazy(r, old(sz)[r] + n)
    {
      hide Inv;
      ghost var m := M();
      ret := sz[r];
      e := Lazy(r, sz[r] + n);
      if sz[r] + n >= WORD64 {
        return -1, e;
      }
      sz := sz[r := sz[r] + n];
      if m.sz[r] + n <= TRAPFRAME {
        StepKeepsGood(m, e, M());
      } else {
        assert !Within(M(), r);
      }
    }

    method Fault(r: nat, va: nat) returns (pa: nat, ghost e: Event)
      requires Good(M()) && r in sz
      modifies vm
      ensures Step(old(M()), e, M()) && Good(M()) && e == Access(r)
      ensures pa == 0 ==> va >= sz[r] || Valid(Leaf(old(vm.S()), r, va / PGSIZE)) || |old(vm.freelist)| < 3
      ensures pa == 0 ==> SameLeaves(old(vm.S()), vm.S())
      ensures pa != 0 ==>
                && va < sz[r] && !Valid(Leaf(old(vm.S()), r, va / PGSIZE))
                && LeavesBut(old(vm.S()), vm.S(), r, va / PGSIZE, Pte(pa / PGSIZE, V + R + W + U))
                && NewPage(old(vm.S()), vm.S(), Pte(pa / PGSIZE, V + R + W + U), ZeroPage(), V + R + W + U)
    {
      hide Inv, Takes, TakesBut, SameLeaves, LeavesBut, NewPage, Within, SameBytes, Lazily, Pte, Leaf, ZeroPage;
      ghost var m := M();
      GoodFacts(m, r);
      pa := Vmfault(vm, r, sz[r], va);
      LazyFault(m.s, vm.S(), r, sz[r], va, Pte(pa / PGSIZE, V + R + W + U));
      e := Access(r);
      StepKeepsGood(m, e, M());
    }

    method WriteUser(r: nat, va: nat, src: seq<Byte>) returns (ret: int, ghost done: nat, ghost e: Event)
      requires Good(M()) && r in sz
      modifies vm
      ensures Step(old(M()), e, M()) && Good(M()) && e == Access(r)
      ensures done <= |src| && ret == (if done == |src| then 0 else -1)
      ensures Viewed(old(vm.S()), vm.S(), r, va, src[..done]) && Granted(old(vm.S()), r, sz[r], va, done, true)
      ensures ret == -1 ==>
                Denied(old(vm.S()), r, sz[r], va + done, true) || |old(vm.freelist)| < 3 * PageSpan(va, |src|)
    {
      hide Inv, Within, Lazily, Viewed, KeepsReach, Writable, MayWrite, Denied, Granted, PageSpan;
      ghost var m := M();
      GoodFacts(m, r);
      ret, done := Copyout(vm, r, sz[r], va, src);
      e := Access(r);
      StepKeepsGood(m, e, M());
    }

    method ReadUser(r: nat, va: nat, len: nat) returns (ret: int, dst: seq<Byte>, ghost e: Event)
      requires Good(M()) && r in sz
      modifies vm
      ensures Step(old(M()), e, M()) && Good(M()) && e == Access(r)
      ensures |dst| <= len && ret == (if |dst| == len then 0 else -1)
      ensures dst == Seen(old(vm.S()), r, va, |dst|) && Granted(old(vm.S()), r, sz[r], va, |dst|, false)
      ensures Viewed(old(vm.S()), vm.S(), r, 0, [])
      ensures ret == -1 ==>
                Denied(old(vm.S()), r, sz[r], va + |dst|, false) || |old(vm.freelist)| < 3 * PageSpan(va, len)
    {
      hide Inv, Within, Lazily, Viewed, KeepsReach, Reach, Seen, Denied, Granted, PageSpan;
      ghost var m := M();
      GoodFacts(m, r);
      ret, dst := Copyin(vm, r, sz[r], va, len);
      e := Access(r);
      StepKeepsGood(m, e, M());
    }

    /** Gives the empty address space r1 a copy of the memory of r0. */
    method CopySpace(r0: nat, r1: nat) returns (ret: int, ghost e: Event)
      requires Good(M()) && r0 in sz && r1 in sz && r0 != r1 && sz[r1] == 0
      modifies this, vm
      ensures Step(old(M()), e, M()) && Good(M()) && (ret == 0 || ret == -1) && e == Copy(r0, r1, ret == 0)
    {
      hide Inv, Within, Takes, TakesBut, Touches, SameLeaves, Copied, SameBytes, Pages;
      ghost var m := M();
      GoodFacts(m, r0);
      GoodFacts(m, r1);
      RoomAbove(m, r1, sz[r0]);
      ret := Uvmcopy(vm, r0, r1, sz[r0]);
      if ret == 0 {
        sz := sz[r1 := sz[r0]];
      }
      e := Copy(r0, r1, ret == 0);
      StepKeepsGood(m, e, M());
    }

    /** Releases everything that belongs to r. freewalk's panic cannot happen: nothing of r is mapped any more. */
    method Freeproc(r: nat) returns (ghost e: Event)
      requires Good(M()) && r in sz
      modifies this, vm
      ensures Step(old(M()), e, M()) && Good(M()) && e == Event.Free(r)
    {
      hide Inv, Vacated, Confined;
      ghost var m := M();
      assert Within(m, r);
      ProcFreepagetable(vm, r, sz[r]);
      sz := sz - {r};
      e := Event.Free(r);
      StepKeepsGood(m, e, M());
    }

    /** kfork's work on memory: a new address space with a copy, or none at all. */
    method Kfork(r0: nat, trampoline: nat, trapframe: nat) returns (r: nat, ghost ms: seq<Mem>, ghost es: seq<Event>)
      requires Good(M()) && r0 in sz
      modifies this, vm
      ensures Run(ms, es) && ms[0] == old(M()) && ms[|es|] == M() && Good(M())
      ensures r != 0 ==> es == [Event.Create(r, trampoline, trapframe), Copy(r0, r, true)]
      ensures r == 0 ==> sz == old(sz)
      ensures r == 0 ==>
                || es == [CreateFailed]
                || (|es| == 3 && es[0].Create? && es == [es[0], Copy(r0, es[0].r, false), Event.Free(es[0].r)])
    {
      hide Step, Good;
      ms, es := [M()], [];
      ghost var e;
      CreateFresh(M(), r0);
      r, e := Create(trampoline, trapframe);
      ms, es := ms + [M()], es + [e];
      ForkFacts(ms[0], es[0], ms[1], r0);
      if r == 0 {
        return;
      }
      var ret;
      ret, e := CopySpace(r0, r);
      ms, es := ms + [M()], es + [e];
      if ret != 0 {
        CopyFailed(ms[1], r0, r, ms[2]);
        e := Freeproc(r);
        ms, es := ms + [M()], es + [e];
        FreedSize(ms[2], r, ms[3]);
        assert ms[0].sz[r := 0] - {r} == ms[0].sz;
        r := 0;
      }
    }

    /** A page for the kernel itself. */
    method TakePage() returns (f: nat, ghost e: Event)
      requires Good(M())
      modifies vm
      ensures Good(M())
      ensures f != 0 ==> Step(old(M()), e, M()) && e == Take(f)
      ensures f == 0 ==> M() == old(M()) && vm.freelist == []
    {
      hide Within, Taken, TabsOk, LinksOk, UsersOk;
      ghost var m := M();
      if vm.freelist != [] {
        TakenKeepsInv(m.s);
      }
      f := vm.Kalloc();
      e := Take(f);
      if f != 0 {
        StepKeepsGood(m, e, M());
      }
    }

    method GivePage(f: nat) returns (ghost e: Event)
      requires Good(M()) && f in vm.role && vm.role[f].Used?
      modifies vm
      ensures Step(old(M()), e, M()) && Good(M()) && e == Give(f)
    {
      hide Within, Released, TabsOk, LinksOk, UsersOk;
      ghost var m := M();
      ReleasedKeepsInv(m.s, f);
      vm.Kfree(f);
      e := Give(f);
      StepKeepsGood(m, e, M());
    }
  }

  lemma GoodFacts(m: Mem, r: nat)
    requires Good(m) && r in m.sz
    ensures r in m.s.users && Root(r) in m.s.tabs && m.sz[r] <= TRAPFRAME && Inv(m.s)
  {
    hide FreeOk, TabsOk, LinksOk, Confined;
    assert Within(m, r);
  }

  /** Nothing is mapped between the size of an address space and the top of user memory. */
  lemma RoomAbove(m: Mem, r: nat, to: nat)
    requires Good(m) && r in m.sz && to <= TRAPFRAME
    ensures forall v :: Pages(m.sz[r]) <= v < Pages(to) ==> !Valid(Leaf(m.s, r, v))
    ensures m.sz[r] == 0 ==> forall v :: 0 <= v < Pages(to) ==> !Valid(Leaf(m.s, r, v))
  {
    hide Leaf, Inv, Valid;
    assert Within(m, r);
    assert Pages(to) <= USERTOP;
  }

  /** Unmapping no page is the same anywhere. */
  lemma UnmapNowhere(s: State, s': State, r: nat, a: nat, b: nat)
    requires Unmapped(s, s', r, a, 0, Role.Free)
    ensures Unmapped(s, s', r, b, 0, Role.Free)
  {
    hide Leaf, Valid;
  }

  lemma CreateFresh(m: Mem, r0: nat)
    requires Good(m) && r0 in m.sz
    ensures r0 in m.s.users
  {
    hide Inv, Within;
  }

  lemma ForkFacts(m: Mem, e: Event, m': Mem, r0: nat)
    requires Step(m, e, m') && Good(m) && r0 in m.s.users && (e.Create? || e.CreateFailed?)
    ensures e.CreateFailed? ==> m'.sz == m.sz
    ensures e.Create? ==> m'.sz == m.sz[e.r := 0] && e.r != r0 && r0 in m'.sz && e.r !in m.sz
  {
    hide Inv, Within, Touches, NoneNames, TopMapped, SameLeaves;
  }

  lemma CopyFailed(m: Mem, r0: nat, r1: nat, m': Mem)
    requires Step(m, Copy(r0, r1, false), m')
    ensures m'.sz == m.sz && r1 in m'.sz
  {
    hide Inv, Touches, SameLeaves;
  }

  lemma FreedSize(m: Mem, r: nat, m': Mem)
    requires Step(m, Event.Free(r), m')
    ensures m'.sz == m.sz - {r}
  {
    hide Inv, Vacated;
  }
}
