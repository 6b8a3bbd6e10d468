/** User address spaces on top of VirtualMemory: growing, shrinking, lazy faults and copies
    (riscv/kernel/vm.c:239-281, 326-354, 482-516). */
module UserMemory {
  import opened PageTable
  import opened VirtualMemory
  import opened Values

  function PgRoundUp(sz: nat): (r: nat) { (sz + PGSIZE - 1) / PGSIZE * PGSIZE }
  function PgRoundDown(a: nat): (r: nat) { a / PGSIZE * PGSIZE }

  /** The number of pages that hold sz bytes. */
  function Pages(sz: nat): (n: nat) { (sz + PGSIZE - 1) / PGSIZE }

  ghost predicate NewPage(s: State, s': State, e: nat, page: seq<Byte>, flags: nat) {
    && Valid(e) && Flags(e) == flags && Ppn(e) in s'.mem && s'.mem[Ppn(e)] == Data(page)
    && Ppn(e) in s.role && s.role[Ppn(e)].Free?
  }

  /** The state in which a kalloc'ed page f has been filled. */
  ghost function Fill(s: State, f: nat, page: seq<Byte>): (s': State) {
    s.(mem := s.mem[f := Data(page)])
  }

  lemma FilledKeepsInv(s: State, page: seq<Byte>)
    requires Inv(s) && s.freelist != [] && |page| == PGSIZE
    ensures var f, s1 := s.freelist[0], Fill(Taken(s), s.freelist[0], page);
            && Inv(s1) && OnlyFrame(s, s1, f) && SameLeaves(s, s1) && s1.tabs == s.tabs && s1.users == s.users
            && f != 0 && f in s.role && s.role[f].Free? && FrameFor(s1, f) && s1.mem[f] == Data(page)
  {
    hide TabsOk, LinksOk, UsersOk, SameLeaves;
    var f, s1 := s.freelist[0], Fill(Taken(s), s.freelist[0], page);
    TakenKeepsInv(s);
    assert FreeOk(Taken(s));
    OnlyFrameKeeps(s, s1, f);
  }

  /** Allocates a page, fills it and maps it at va: the common part of uvmalloc, uvmcopy and vmfault. */
  method MapFresh(vm: Vm, r: nat, va: nat, page: seq<Byte>, perm: nat) returns (f: nat)
    requires Inv(vm.S()) && r in vm.users && Root(r) in vm.tabs && perm < 1024 && |page| == PGSIZE
    requires va % PGSIZE == 0 && va / PGSIZE < USERTOP && !Valid(Leaf(vm.S(), r, va / PGSIZE))
    modifies vm
    ensures Inv(vm.S()) && Root(r) in vm.tabs && vm.users == old(vm.users)
    ensures Takes(old(vm.S()), vm.S(), r) && SameBytes(old(vm.S()), vm.S(), {})
    ensures f == 0 ==> SameLeaves(old(vm.S()), vm.S()) && |old(vm.freelist)| < 3
    ensures f != 0 ==> |vm.freelist| + 3 >= |old(vm.freelist)|
    ensures f != 0 ==> LeavesBut(old(vm.S()), vm.S(), r, va / PGSIZE, Pte(f, WithV(perm)))
    ensures f != 0 ==> NewPage(old(vm.S()), vm.S(), Pte(f, WithV(perm)), page, WithV(perm))
  {
    hide Inv, TakesBut, Takes, SameBytes, SameLeaves, LeavesBut, NewPage, MappedRange, Leaf, Taken, Released, FrameFor,
         OnlyFrame, MapOk, WithV, Pte, Names;
    ghost var s := vm.S();
    MapFreshNothing(s, r);
    TakenIs(s);
    f := vm.Kalloc();
    if f == 0 {
      return;
    }
    FilledKeepsInv(s, page);
    MapOkOne(s, Fill(Taken(s), f, page), r, va / PGSIZE, f, perm);
    vm.mem := vm.mem[f := Data(page)];
    ghost var s1 := vm.S();
    assert s1 == Fill(Taken(s), f, page);
    assert f * PGSIZE / PGSIZE == f;
    var ret, done := vm.Mappages(r, va, PGSIZE, f * PGSIZE, perm);
    ghost var s2 := vm.S();
    if ret != 0 {
      MapFreshFailed(s, s1, s2, r, va / PGSIZE, f, WithV(perm));
      vm.Kfree(f);
      f := 0;
      return;
    }
    FlagsFit(perm);
    MapFreshDone(s, s1, s2, r, va / PGSIZE, f, page, WithV(perm));
  }

  lemma TakenIs(s: State)
    ensures s.freelist != [] ==> |Taken(s).freelist| == |s.freelist| - 1
  {
  }

  lemma MapOkOne(s: State, s1: State, r: nat, vpn: nat, f: nat, perm: nat)
    requires SameLeaves(s, s1) && !Valid(Leaf(s, r, vpn)) && FrameFor(s1, f) && vpn < USERTOP
    ensures MapOk(s1, r, vpn, 1, f, perm)
  {
    hide Leaf;
  }

  lemma MapFreshFailed(s: State, s1: State, s2: State, r: nat, vpn: nat, f: nat, flags: nat)
    requires OnlyFrame(s, s1, f) && SameLeaves(s, s1) && f in s.role && s.role[f].Free? && FrameFor(s1, f)
    requires Inv(s2) && MappedRange(s1, s2, r, vpn, 0, f, flags) && TakesBut(s1, s2, r, f, 0) && SameBytes(s1, s2, {})
    ensures f in s2.role
    ensures var s3 := Released(s2, f);
            && Inv(s3) && s3.users == s.users && s3.tabs == s2.tabs
            && Takes(s, s3, r) && SameBytes(s, s3, {}) && SameLeaves(s, s3)
  {
    hide Inv, Leaf, SameBytes, SameLeaves, MappedRange;
    ReleasedKeepsInv(s2, f);
    var s3 := Released(s2, f);
    assert s3.role.Keys == s.role.Keys;
    BytesOverFrame(s, s1, s2, f);
    BytesReleased(s, s2, f);
    LeavesFailed(s, s1, s2, s3, r, vpn, f, flags);
  }

  lemma BytesReleased(s: State, s2: State, f: nat)
    requires SameBytes(s, s2, {})
    ensures SameBytes(s, Released(s2, f), {})
  {
  }

  lemma LeavesFailed(s: State, s1: State, s2: State, s3: State, r: nat, vpn: nat, f: nat, flags: nat)
    requires SameLeaves(s, s1) && MappedRange(s1, s2, r, vpn, 0, f, flags) && SameLeaves(s2, s3)
    ensures SameLeaves(s, s3)
  {
    hide Leaf;
  }

  lemma MapFreshDone(s: State, s1: State, s2: State, r: nat, vpn: nat, f: nat, page: seq<Byte>, flags: nat)
    requires OnlyFrame(s, s1, f) && SameLeaves(s, s1) && f in s.role && s.role[f].Free? && FrameFor(s1, f)
    requires Inv(s2) && MappedRange(s1, s2, r, vpn, 1, f, flags) && TakesBut(s1, s2, r, f, 1) && SameBytes(s1, s2, {})
    requires s1.mem[f] == Data(page) && flags < 1024 && Valid(flags) && r in s.users && vpn < USERTOP
    ensures Takes(s, s2, r) && SameBytes(s, s2, {}) && s2.users == s.users
    ensures LeavesBut(s, s2, r, vpn, Pte(f, flags)) && NewPage(s, s2, Pte(f, flags), page, flags)
  {
    hide Inv, Leaf, Valid, Pte, Ppn, Flags, SameBytes, MappedRange, SameLeaves, LeavesBut;
    PteParts(f, flags);
    MappedOne(s, s1, s2, r, vpn, f, flags);
    UserEntry(s2, r, vpn);
    BytesOverFrame(s, s1, s2, f);
    assert s2.role.Keys == s.role.Keys;
  }

  lemma MappedOne(s: State, s1: State, s2: State, r: nat, vpn: nat, f: nat, flags: nat)
    requires SameLeaves(s, s1) && MappedRange(s1, s2, r, vpn, 1, f, flags)
    ensures LeavesBut(s, s2, r, vpn, Pte(f, flags)) && Leaf(s2, r, vpn) == Pte(f, flags)
  {
    hide Leaf, Pte;
    assert Leaf(s2, r, vpn) == Pte(f + vpn - vpn, flags);
  }

  lemma UserEntry(s: State, r: nat, vpn: nat)
    requires Inv(s) && IsUser(s, r, vpn) && Valid(Leaf(s, r, vpn))
    ensures var f := Ppn(Leaf(s, r, vpn)); f in s.role && s.role[f] == User(r, vpn) && IsData(s, f)
  {
    assert UserOk(s, r, vpn);
  }

  lemma BytesOverFrame(s: State, s1: State, s2: State, f: nat)
    requires OnlyFrame(s, s1, f) && f in s.role && s.role[f].Free? && SameBytes(s1, s2, {})
    ensures SameBytes(s, s2, {})
    ensures f in s2.role && IsDataRole(s2.role[f]) && s1.role[f].Used? ==> f in s2.mem && s2.mem[f] == s1.mem[f]
  {
  }

  lemma MapFreshNothing(s: State, r: nat)
    requires Inv(s)
    ensures Takes(s, s, r) && SameBytes(s, s, {}) && SameLeaves(s, s)
    ensures s.freelist != [] ==> s.freelist[0] != 0
  {
    hide Leaf;
    assert s.freelist != [] ==> s.freelist[0] in s.freelist;
  }

  // Growing and shrinking

  /** Shrinks r from oldsz to newsz bytes. */
  method Uvmdealloc(vm: Vm, r: nat, oldsz: nat, newsz: nat) returns (ret: nat)
    requires Inv(vm.S()) && r in vm.users && Root(r) in vm.tabs && oldsz <= TRAPFRAME
    modifies vm
    ensures Inv(vm.S()) && ret == (if newsz >= oldsz then oldsz else newsz)
    ensures Unmapped(old(vm.S()), vm.S(), r, Pages(newsz), if newsz < oldsz then Pages(oldsz) - Pages(newsz)
            else 0, Free)
  {
    hide Inv, Unmapped;
    UnmapNone(vm.S(), r, Pages(newsz), Free);
    if newsz >= oldsz {
      return oldsz;
    }
    if PgRoundUp(newsz) < PgRoundUp(oldsz) {
      var npages := (PgRoundUp(oldsz) - PgRoundUp(newsz)) / PGSIZE;
      vm.Uvmunmap(r, PgRoundUp(newsz), npages, true);
    }
    ret := newsz;
  }

  function ZeroPage(): (p: seq<Byte>)
    ensures |p| == PGSIZE
  {
    Filled(0, PGSIZE)
  }

  /** n pages from lo are new zeroed pages; everything else is mapped as before. */
  ghost predicate GrownBy(s: State, s': State, r: nat, lo: nat, n: nat, flags: nat) {
    && (forall v: nat :: lo <= v < lo + n ==> NewPage(s, s', Leaf(s', r, v), ZeroPage(), flags))
    && (forall r2: nat, v: nat :: !(r2 == r && lo <= v < lo + n) ==> Leaf(s', r2, v) == Leaf(s, r2, v))
  }

  /** Grows r from oldsz to newsz bytes; on failure everything is unmapped again. */
  method Uvmalloc(vm: Vm, r: nat, oldsz: nat, newsz: nat, xperm: nat) returns (ret: nat, ghost ok: bool)
    requires Inv(vm.S()) && r in vm.users && Root(r) in vm.tabs
    requires newsz <= TRAPFRAME && (xperm == 0 || xperm == W || xperm == X || xperm == W + X)
    requires forall v :: Pages(oldsz) <= v < Pages(newsz) ==> !Valid(Leaf(vm.S(), r, v))
    modifies vm
    ensures Inv(vm.S()) && vm.users == old(vm.users) && Root(r) in vm.tabs
    ensures newsz < oldsz ==> ok && ret == oldsz && vm.S() == old(vm.S())
    ensures newsz >= oldsz && ok ==> ret == newsz && Takes(old(vm.S()), vm.S(), r)
    ensures newsz >= oldsz && ok ==>
              GrownBy(old(vm.S()), vm.S(), r, Pages(oldsz), Pages(newsz) - Pages(oldsz), V + R + U + xperm)
    ensures !ok ==> ret == 0 && SameLeaves(old(vm.S()), vm.S()) && Touches(old(vm.S()), vm.S(), r)
    ensures !ok ==> |old(vm.freelist)| < 3 * (Pages(newsz) - Pages(oldsz))
    ensures SameBytes(old(vm.S()), vm.S(), {})
  {
    hide Inv, Takes, TakesBut, Touches, SameBytes, SameLeaves, LeavesBut, NewPage, Leaf, GrownBy, Unmapped, Pte,
         ZeroPage;
    ghost var s0, lo, flags := vm.S(), Pages(oldsz), V + R + U + xperm;
    GrownNone(s0, r, lo, flags);
    if newsz < oldsz {
      return oldsz, true;
    }
    var start := PgRoundUp(oldsz);
    var a := start;
    ghost var n := 0;
    while a < newsz
      invariant a == (lo + n) * PGSIZE && lo + n <= Pages(newsz)
      invariant Inv(vm.S()) && vm.users == s0.users && Root(r) in vm.tabs
      invariant |vm.freelist| + 3 * n >= |s0.freelist|
      invariant GrownBy(s0, vm.S(), r, lo, n, flags) && Takes(s0, vm.S(), r) && SameBytes(s0, vm.S(), {})
      decreases newsz - a
    {
      ghost var s1 := vm.S();
      GrownRest(s0, s1, r, lo, n, flags, Pages(newsz));
      var f := MapFresh(vm, r, a, ZeroPage(), R + U + xperm);
      if f == 0 {
        ghost var s2 := vm.S();
        var d := Uvmdealloc(vm, r, a, start);
        GrownUndone(s0, s1, s2, vm.S(), r, lo, n, flags, Pages(newsz));
        return 0, false;
      }
      GrownMore(s0, s1, vm.S(), r, lo, n, flags, Pte(f, WithV(R + U + xperm)));
      a := a + PGSIZE;
      n := n + 1;
    }
    ret, ok := newsz, true;
  }

  lemma GrownNone(s: State, r: nat, lo: nat, flags: nat)
    requires Inv(s)
    ensures GrownBy(s, s, r, lo, 0, flags) && Takes(s, s, r) && Touches(s, s, r) && SameBytes(s, s, {})
  {
    hide Leaf;
  }

  lemma GrownRest(s: State, s1: State, r: nat, lo: nat, n: nat, flags: nat, top: nat)
    requires GrownBy(s, s1, r, lo, n, flags) && forall v :: lo <= v < top ==> !Valid(Leaf(s, r, v))
    ensures lo + n < top ==> !Valid(Leaf(s1, r, lo + n))
  {
    hide Leaf;
  }

  lemma GrownMore(s: State, s1: State, s2: State, r: nat, lo: nat, n: nat, flags: nat, e: nat)
    requires Inv(s1) && Inv(s2) && r in s1.users && lo + n < USERTOP
    requires GrownBy(s, s1, r, lo, n, flags) && Takes(s, s1, r) && SameBytes(s, s1, {})
    requires LeavesBut(s1, s2, r, lo + n, e) && NewPage(s1, s2, e, ZeroPage(), flags)
    requires Takes(s1, s2, r) && SameBytes(s1, s2, {})
    ensures GrownBy(s, s2, r, lo, n + 1, flags) && Takes(s, s2, r) && SameBytes(s, s2, {})
  {
    hide Inv, Leaf, Valid, Ppn, Flags, ZeroPage;
    forall v: nat | lo <= v < lo + n + 1
      ensures NewPage(s, s2, Leaf(s2, r, v), ZeroPage(), flags)
    {
      if v < lo + n {
        assert NewPage(s, s1, Leaf(s1, r, v), ZeroPage(), flags);
        UserEntry(s1, r, v);
        UserEntry(s2, r, v);
      }
    }
  }

  /** An entry that is not valid is zero. */
  lemma LeafOrZero(s: State, r: nat, v: nat)
    requires Inv(s)
    ensures Valid(Leaf(s, r, v)) || Leaf(s, r, v) == 0
  {
    assert Low(r, v / ENTRIES) in s.tabs ==> LinkOk(s, Low(r, v / ENTRIES), v % ENTRIES);
  }

  lemma GrownUndone(s: State, s1: State, s2: State, s3: State, r: nat, lo: nat, n: nat, flags: nat, top: nat)
    requires Inv(s) && GrownBy(s, s1, r, lo, n, flags) && Takes(s, s1, r) && SameBytes(s, s1, {})
    requires SameLeaves(s1, s2) && Takes(s1, s2, r) && SameBytes(s1, s2, {})
    requires Unmapped(s2, s3, r, lo, n, Free) && lo + n <= top
    requires forall v :: lo <= v < top ==> !Valid(Leaf(s, r, v))
    ensures SameLeaves(s, s3) && Touches(s, s3, r) && SameBytes(s, s3, {}) && s3.tabs == s2.tabs && s3.users == s.users
  {
    hide Leaf, Inv, Flags, ZeroPage, Ppn;
    forall v: nat
      ensures Valid(Leaf(s, r, v)) || Leaf(s, r, v) == 0
    {
      LeafOrZero(s, r, v);
    }
  }

  // Lazy faults

  method Ismapped(vm: Vm, r: nat, va: nat) returns (b: bool)
    requires Inv(vm.S()) && Root(r) in vm.tabs && va < MAXVA
    modifies vm
    ensures vm.S() == old(vm.S()) && b == Valid(Leaf(vm.S(), r, va / PGSIZE))
  {
    hide Inv, OnlyTables, HasLow, Leaf, Px;
    var t := vm.Walk(r, va, false);
    if t == 0 {
      return false;
    }
    LeafIs(vm.S(), r, va);
    var e := vm.mem[t].ptes[Px(0, va)];
    b := Valid(e);
  }

  /** Gives a page of the first sz bytes that is not mapped yet a zeroed frame. */
  method Vmfault(vm: Vm, r: nat, sz: nat, va: nat) returns (pa: nat)
    requires Inv(vm.S()) && r in vm.users && Root(r) in vm.tabs && sz <= TRAPFRAME
    modifies vm
    ensures Inv(vm.S()) && vm.users == old(vm.users) && Root(r) in vm.tabs
    ensures Takes(old(vm.S()), vm.S(), r) && SameBytes(old(vm.S()), vm.S(), {})
    ensures pa == 0 ==> SameLeaves(old(vm.S()), vm.S())
    ensures pa == 0 ==> va >= sz || Valid(Leaf(old(vm.S()), r, va / PGSIZE)) || |old(vm.freelist)| < 3
    ensures pa != 0 ==> va < sz && !Valid(Leaf(old(vm.S()), r, va / PGSIZE))
    ensures pa != 0 ==> |vm.freelist| + 3 >= |old(vm.freelist)|
    ensures pa != 0 ==> LeavesBut(old(vm.S()), vm.S(), r, va / PGSIZE, Pte(pa / PGSIZE, V + R + W + U))
    ensures pa != 0 ==> NewPage(old(vm.S()), vm.S(), Pte(pa / PGSIZE, V + R + W + U), ZeroPage(), V + R + W + U)
    ensures pa % PGSIZE == 0
  {
    hide Inv, Takes, TakesBut, SameBytes, SameLeaves, LeavesBut, NewPage, Leaf, Pte, ZeroPage;
    MapFreshNothing(vm.S(), r);
    if va >= sz {
      return 0;
    }
    var va0 := PgRoundDown(va);
    assert va0 / PGSIZE == va / PGSIZE;
    var b := Ismapped(vm, r, va0);
    if b {
      return 0;
    }
    var f := MapFresh(vm, r, va0, ZeroPage(), W + U + R);
    pa := f * PGSIZE;
  }

  // Copying an address space

  ghost function BytesOf(s: State, e: nat): (b: seq<Byte>) {
    if Ppn(e) in s.mem && s.mem[Ppn(e)].Data? then s.mem[Ppn(e)].bytes else []
  }

  /** The first n pages of r1 are copies, on fresh frames, of those of r0; nothing else is mapped differently. */
  ghost predicate Copied(s: State, s': State, r0: nat, r1: nat, n: nat) {
    && (forall v: nat :: v < n && Valid(Leaf(s, r0, v)) ==>
          NewPage(s, s', Leaf(s', r1, v), BytesOf(s, Leaf(s, r0, v)), Flags(Leaf(s, r0, v))))
    && (forall v: nat :: v < n && !Valid(Leaf(s, r0, v)) ==> Leaf(s', r1, v) == Leaf(s, r1, v))
    && (forall r2: nat, v: nat :: !(r2 == r1 && v < n) ==> Leaf(s', r2, v) == Leaf(s, r2, v))
  }

  method Uvmcopy(vm: Vm, r0: nat, r1: nat, sz: nat) returns (ret: int)
    requires Inv(vm.S()) && r0 in vm.users && r1 in vm.users && r0 != r1 && Root(r0) in vm.tabs && Root(r1) in vm.tabs
    requires sz <= TRAPFRAME && forall v :: 0 <= v < Pages(sz) ==> !Valid(Leaf(vm.S(), r1, v))
    modifies vm
    ensures Inv(vm.S()) && vm.users == old(vm.users) && Root(r0) in vm.tabs && Root(r1) in vm.tabs
    ensures ret == 0 || ret == -1
    ensures ret == 0 ==> Copied(old(vm.S()), vm.S(), r0, r1, Pages(sz)) && Takes(old(vm.S()), vm.S(), r1)
    ensures ret == -1 ==> SameLeaves(old(vm.S()), vm.S()) && Touches(old(vm.S()), vm.S(), r1)
    ensures ret == -1 ==> |old(vm.freelist)| < 3 * Pages(sz)
    ensures SameBytes(old(vm.S()), vm.S(), {})
  {
    hide Inv, Takes, TakesBut, Touches, SameBytes, SameLeaves, LeavesBut, NewPage, Leaf, Pte, Copied, Unmapped, Px,
         HasLow, OnlyTables, Valid, Ppn, BytesOf, WithV;
    ghost var s0 := vm.S();
    CopiedNone(s0, r0, r1);
    var i := 0;
    ghost var n := 0;
    while i < sz
      invariant i == n * PGSIZE && n <= Pages(sz)
      invariant Inv(vm.S()) && vm.users == s0.users && Root(r0) in vm.tabs && Root(r1) in vm.tabs
      invariant |vm.freelist| + 3 * n >= |s0.freelist|
      invariant Copied(s0, vm.S(), r0, r1, n) && Takes(s0, vm.S(), r1) && SameBytes(s0, vm.S(), {})
      decreases sz - i
    {
      ghost var s1 := vm.S();
      CopiedSkip(s0, s1, r0, r1, n, Pages(sz));
      var t := vm.Walk(r0, i, false);
      if t != 0 {
        LeafIs(vm.S(), r0, i);
        var e := vm.mem[t].ptes[Px(0, i)];
        if Valid(e) {
          CopyFacts(s0, s1, r0, r1, n, e);
          var f := MapFresh(vm, r1, i, vm.mem[Ppn(e)].bytes, Flags(e));
          if f == 0 {
            ghost var s2 := vm.S();
            vm.Uvmunmap(r1, 0, i / PGSIZE, true);
            CopyUndone(s0, s1, s2, vm.S(), r0, r1, n, Pages(sz));
            UserRoot(vm.S(), r0);
            return -1;
          }
          CopyMore(s0, s1, vm.S(), r0, r1, n, Pte(f, WithV(Flags(e))));
        }
      }
      UserRoot(vm.S(), r0);
      i := i + PGSIZE;
      n := n + 1;
    }
    ret := 0;
  }

  lemma UserRoot(s: State, r: nat)
    requires Inv(s) && r in s.users
    ensures Root(r) in s.tabs
  {
  }

  lemma CopiedNone(s: State, r0: nat, r1: nat)
    requires Inv(s)
    ensures Copied(s, s, r0, r1, 0) && Takes(s, s, r1) && SameBytes(s, s, {}) && SameLeaves(s, s) && Touches(s, s, r1)
  {
    hide Leaf;
  }

  lemma CopiedSkip(s: State, s1: State, r0: nat, r1: nat, n: nat, top: nat)
    requires Inv(s) && Copied(s, s1, r0, r1, n) && r0 != r1 && forall v :: 0 <= v < top ==> !Valid(Leaf(s, r1, v))
    ensures Leaf(s1, r0, n) == Leaf(s, r0, n)
    ensures !Valid(Leaf(s1, r0, n)) ==> Copied(s, s1, r0, r1, n + 1)
    ensures n < top ==> !Valid(Leaf(s1, r1, n))
    ensures !Valid(0)
  {
    hide Leaf, NewPage;
  }

  lemma CopyFacts(s: State, s1: State, r0: nat, r1: nat, n: nat, e: nat)
    requires Inv(s) && Inv(s1) && Takes(s, s1, r1) && SameBytes(s, s1, {}) && r0 in s.users && n < USERTOP && r0 != r1
    requires Valid(e) && Leaf(s, r0, n) == e && Leaf(s1, r0, n) == e
    ensures Ppn(e) in s1.mem && s1.mem[Ppn(e)].Data? && |s1.mem[Ppn(e)].bytes| == PGSIZE
    ensures s1.mem[Ppn(e)].bytes == BytesOf(s, e) && Flags(e) < 1024 && WithV(Flags(e)) == Flags(e)
  {
    hide Inv, Leaf;
    UserEntry(s, r0, n);
    UserEntry(s1, r0, n);
  }

  lemma CopyMore(s: State, s1: State, s2: State, r0: nat, r1: nat, n: nat, e: nat)
    requires Inv(s1) && Inv(s2) && r1 in s1.users && n < USERTOP && r0 != r1
    requires Copied(s, s1, r0, r1, n) && Takes(s, s1, r1) && SameBytes(s, s1, {})
    requires Valid(Leaf(s, r0, n)) && LeavesBut(s1, s2, r1, n, e)
    requires NewPage(s1, s2, e, BytesOf(s, Leaf(s, r0, n)), Flags(Leaf(s, r0, n)))
    requires Takes(s1, s2, r1) && SameBytes(s1, s2, {})
    ensures Copied(s, s2, r0, r1, n + 1) && Takes(s, s2, r1) && SameBytes(s, s2, {})
  {
    hide Inv, Leaf, Valid, Ppn, Flags, BytesOf;
    forall v: nat | v < n && Valid(Leaf(s, r0, v))
      ensures NewPage(s, s2, Leaf(s2, r1, v), BytesOf(s, Leaf(s, r0, v)), Flags(Leaf(s, r0, v)))
    {
      assert NewPage(s, s1, Leaf(s1, r1, v), BytesOf(s, Leaf(s, r0, v)), Flags(Leaf(s, r0, v)));
      UserEntry(s1, r1, v);
      UserEntry(s2, r1, v);
    }
  }

  lemma CopyUndone(s: State, s1: State, s2: State, s3: State, r0: nat, r1: nat, n: nat, top: nat)
    requires Inv(s) && Copied(s, s1, r0, r1, n) && Takes(s, s1, r1) && SameBytes(s, s1, {})
    requires SameLeaves(s1, s2) && Takes(s1, s2, r1) && SameBytes(s1, s2, {})
    requires Unmapped(s2, s3, r1, 0, n, Free) && n <= top
    requires forall v :: 0 <= v < top ==> !Valid(Leaf(s, r1, v))
    ensures SameLeaves(s, s3) && Touches(s, s3, r1) && SameBytes(s, s3, {}) && s3.tabs == s2.tabs && s3.users == s.users
  {
    hide Leaf, Inv, Flags, Ppn, BytesOf;
    forall v: nat
      ensures Valid(Leaf(s, r1, v)) || Leaf(s, r1, v) == 0
    {
      LeafOrZero(s, r1, v);
    }
  }
}
