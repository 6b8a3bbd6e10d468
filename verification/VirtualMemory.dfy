/** The operations of riscv/kernel/kalloc.c and riscv/kernel/vm.c on the state of PageTable. */
module VirtualMemory {
  import opened PageTable

  /** The leaf entries of n pages from vpn now map the frames from f0; all others are as before. */
  ghost predicate MappedRange(s: State, s': State, r: nat, vpn: nat, n: nat, f0: nat, flags: nat) {
    forall r2: nat, v2: nat :: Leaf(s', r2, v2) ==
      if r2 == r && vpn <= v2 < vpn + n then Pte(f0 + v2 - vpn, flags) else Leaf(s, r2, v2)
  }

  /** The leaf entries of n pages from vpn are gone if they were valid; all others are as before. */
  ghost predicate ClearedRange(s: State, s': State, r: nat, vpn: nat, n: nat) {
    forall r2: nat, v2: nat :: Leaf(s', r2, v2) ==
      if r2 == r && vpn <= v2 < vpn + n && Valid(Leaf(s, r2, v2)) then 0 else Leaf(s, r2, v2)
  }

  class Vm {
    var mem: map<nat, Page>
    var freelist: seq<nat>
    ghost var tabs: map<Key, nat>
    ghost var role: map<nat, Role>
    ghost var users: set<nat>

    ghost function S(): (s: State)
      reads this
    {
      State(mem, freelist, tabs, role, users)
    }

    /** kinit: the pages from lo on are freed one by one, and nothing else exists yet. */
    constructor (lo: nat, hi: nat)
      requires 0 < lo <= hi
      ensures Inv(S()) && tabs == map[] && users == {}
      ensures forall f :: f in role <==> lo <= f < hi
      ensures forall f :: f in role ==> role[f].Free?
      ensures |freelist| == hi - lo && forall i :: 0 <= i < hi - lo ==> freelist[i] == hi - 1 - i
    {
      mem := Everywhere(lo, hi, JunkPage(0));
      freelist, tabs, users := [], map[], {};
      role := Everywhere(lo, hi, Used);
      new;
      NothingFreeYet(S(), lo, hi);
      hide Inv, Everywhere;
      Freerange(lo, hi);
    }

    /** Frees the pages from lo to hi, in ascending order. */
    method Freerange(lo: nat, hi: nat)
      requires Inv(S()) && lo <= hi && forall f :: lo <= f < hi ==> f in role && role[f].Used?
      modifies this
      ensures Inv(S()) && tabs == old(tabs) && users == old(users) && role.Keys == old(role).Keys
      ensures forall f :: f in role ==> role[f] == if lo <= f < hi then Free else old(role)[f]
      ensures |freelist| == hi - lo + |old(freelist)| && freelist[hi - lo..] == old(freelist)
      ensures forall i :: 0 <= i < hi - lo ==> freelist[i] == hi - 1 - i
    {
      hide Inv, Released;
      var p := lo;
      while p < hi
        invariant lo <= p <= hi && Inv(S()) && tabs == old(tabs) && users == old(users) && role.Keys == old(role).Keys
        invariant forall f :: f in role ==> role[f] == if lo <= f < p then Free else old(role)[f]
        invariant |freelist| == p - lo + |old(freelist)| && freelist[p - lo..] == old(freelist)
        invariant forall i :: 0 <= i < p - lo ==> freelist[i] == p - 1 - i
      {
        ReleasedKeepsInv(S(), p);
        ReleasedIs(S(), p);
        Kfree(p);
        p := p + 1;
      }
    }

    method Kalloc() returns (f: nat)
      modifies this
      ensures old(freelist) == [] ==> f == 0 && S() == old(S())
      ensures old(freelist) != [] ==> f == old(freelist)[0] && S() == Taken(old(S()))
    {
      if freelist == [] {
        return 0;
      }
      f := freelist[0];
      freelist := freelist[1..];
      mem := mem[f := JunkPage(5)];
      role := role[f := Used];
    }

    /** Frees a page; the argument is a page of the allocator's range, so the panic is not reached. */
    method Kfree(f: nat)
      requires f in role
      modifies this
      ensures S() == Released(old(S()), f)
    {
      mem := mem[f := JunkPage(1)];
      freelist := [f] + freelist;
      role := role[f := Free];
    }

    /** One turn of the loop of walk(): the table below entry Px(level, va), made if need be. */
    method Descend(t: nat, level: nat, va: nat, alloc: bool, ghost r: nat) returns (c: nat)
      requires Inv(S()) && 1 <= level <= 2 && va < MAXVA
      requires KeyAt(r, va / PGSIZE, level) in tabs && t == tabs[KeyAt(r, va / PGSIZE, level)]
      modifies this
      ensures Inv(S()) && OnlyTables(old(S()), S(), r)
      ensures c != 0 ==> KeyAt(r, va / PGSIZE, level - 1) in tabs && c == tabs[KeyAt(r, va / PGSIZE, level - 1)]
      ensures c == 0 ==> S() == old(S()) && KeyAt(r, va / PGSIZE, level - 1) !in tabs && (alloc ==> freelist == [])
      ensures !alloc ==> S() == old(S())
      ensures |freelist| + 1 >= |old(freelist)|
    {
      hide Inv, OnlyTables, KeyAt, Px, Child;
      ghost var k := KeyAt(r, va / PGSIZE, level);
      StepDown(r, va, level);
      LevelFacts(S(), r, va, level);
      var i := Px(level, va);
      var e := mem[t].ptes[i];
      if Valid(e) {
        c := Ppn(e);
        OnlyTablesRefl(S(), r);
      } else {
        if !alloc || freelist == [] {
          OnlyTablesRefl(S(), r);
          return 0;
        }
        HeadFacts(S(), k);
        GrowKeepsInv(S(), k, i);
        c := freelist[0];
        GrowIs(S(), k, i);
        freelist := freelist[1..];
        mem := mem[c := ZeroTable()];
        role := role[c := Tab(Child(k, i))];
        tabs := tabs[Child(k, i) := c];
        mem := SetPte(mem, t, i, Pte(c, V));
      }
    }

    /** The level-0 table for va, or 0; with alloc, the missing tables are made. */
    method Walk(r: nat, va: nat, alloc: bool) returns (t: nat)
      requires Inv(S()) && Root(r) in tabs && va < MAXVA
      modifies this
      ensures Inv(S()) && OnlyTables(old(S()), S(), r) && Root(r) in tabs
      ensures t != 0 ==> HasLow(S(), r, va / PGSIZE) && t == tabs[Low(r, va / PGSIZE / ENTRIES)]
      ensures t == 0 ==> Low(r, va / PGSIZE / ENTRIES) !in tabs && Leaf(S(), r, va / PGSIZE) == 0
      ensures t == 0 && alloc ==> |old(freelist)| < 2
      ensures !alloc ==> S() == old(S())
      ensures |freelist| + 2 >= |old(freelist)|
    {
      hide Inv, OnlyTables, KeyAt, Leaf, IsTable;
      KeysOfLevels(r, va / PGSIZE);
      RootFrame(S(), r);
      OnlyTablesRefl(S(), r);
      t := r;
      var level := 2;
      while level > 0
        invariant 0 <= level <= 2
        invariant Inv(S()) && OnlyTables(old(S()), S(), r) && Root(r) in tabs
        invariant KeyAt(r, va / PGSIZE, level) in tabs && t == tabs[KeyAt(r, va / PGSIZE, level)]
        invariant !alloc ==> S() == old(S())
        invariant |freelist| + 2 >= |old(freelist)| + level
      {
        ghost var s1 := S();
        t := Descend(t, level, va, alloc, r);
        OnlyTablesTrans(old(S()), s1, S(), r);
        level := level - 1;
        if t == 0 {
          NoLeaf(S(), r, va / PGSIZE, level);
          return;
        }
      }
      LowFacts(S(), r, va / PGSIZE);
    }

    /** The physical address of the user page of va, or 0. */
    method Walkaddr(r: nat, va: nat) returns (pa: nat)
      requires Inv(S()) && Root(r) in tabs
      modifies this
      ensures S() == old(S())
      ensures va >= MAXVA ==> pa == 0
      ensures va < MAXVA ==> var e := Leaf(S(), r, va / PGSIZE);
                             pa == if Valid(e) && HasU(e) then Ppn(e) * PGSIZE else 0
    {
      hide Inv, OnlyTables, HasLow;
      if va >= MAXVA {
        return 0;
      }
      var t := Walk(r, va, false);
      if t == 0 {
        return 0;
      }
      LeafIs(S(), r, va);
      var e := mem[t].ptes[Px(0, va)];
      if !Valid(e) {
        return 0;
      }
      if !HasU(e) {
        return 0;
      }
      pa := Ppn(e) * PGSIZE;
    }

    /** Maps size bytes from va to the physical memory from pa; `done` pages get their entry. */
    method Mappages(r: nat, va: nat, size: nat, pa: nat, perm: nat) returns (ret: int, ghost done: nat)
      requires Inv(S()) && Root(r) in tabs && perm < 1024
      requires va % PGSIZE == 0 && size % PGSIZE == 0 && size > 0 && va + size <= MAXVA
      requires MapOk(S(), r, va / PGSIZE, size / PGSIZE, pa / PGSIZE, perm)
      modifies this
      ensures Inv(S()) && Root(r) in tabs && users == old(users)
      ensures done <= size / PGSIZE && ret == (if done == size / PGSIZE then 0 else -1)
      ensures ret == -1 ==> |old(freelist)| < 2 * done + 2 && Low(r, (va / PGSIZE + done) / ENTRIES) !in tabs
      ensures ret == 0 ==> |freelist| + 2 * done >= |old(freelist)|
      ensures forall k :: k in old(tabs) ==> k in tabs
      ensures done > 0 ==> Low(r, va / PGSIZE / ENTRIES) in tabs
      ensures MappedRange(old(S()), S(), r, va / PGSIZE, done, pa / PGSIZE, WithV(perm))
      ensures TakesBut(old(S()), S(), r, pa / PGSIZE, done) && SameBytes(old(S()), S(), {})
    {
      hide Inv, OnlyTables, Leaf, HasLow, PutLeaf, MappedRange, TakesBut, SameBytes, MapOk, Px, Pte, WithV;
      ghost var s0, vpn, f0, n := S(), va / PGSIZE, pa / PGSIZE, size / PGSIZE;
      var a, last, p := va, va + size - PGSIZE, pa;
      done := 0;
      MapNothing(S(), r, vpn, f0, WithV(perm));
      while true
        invariant done < n && a == va + done * PGSIZE && p == pa + done * PGSIZE && last == va + size - PGSIZE
        invariant Inv(S()) && Root(r) in tabs && users == s0.users
        invariant MappedRange(s0, S(), r, vpn, done, f0, WithV(perm))
        invariant TakesBut(s0, S(), r, f0, done) && SameBytes(s0, S(), {})
        invariant |freelist| + 2 * done >= |s0.freelist| && (forall k :: k in s0.tabs ==> k in tabs)
        invariant done > 0 ==> Low(r, vpn / ENTRIES) in tabs
        decreases n - done
      {
        ghost var s1 := S();
        var t := Walk(r, a, true);
        OnlyTablesKeep(s0, s1, S(), r, vpn, done, f0, WithV(perm));
        OnlyTablesGrow(s1, S(), r);
        assert users == s0.users;
        if t == 0 {
          return -1, done;
        }
        assert a / PGSIZE == vpn + done && p / PGSIZE == f0 + done;
        LeafIs(S(), r, a);
        LowIs(S(), r, a / PGSIZE);
        var e := Pte(p / PGSIZE, WithV(perm));
        MapNext(s0, S(), r, vpn, done, f0, perm, n, PutLeaf(S(), r, vpn + done, e));
        PutIs(S(), r, a, e);
        role := PutLeaf(S(), r, vpn + done, e).role;
        mem := SetPte(mem, t, Px(0, a), e);
        done := done + 1;
        if a == last {
          break;
        }
        a := a + PGSIZE;
        p := p + PGSIZE;
      }
      ret := 0;
    }

    /** Removes the mappings of npages pages from va, and with doFree gives their frames back. */
    method Uvmunmap(r: nat, va: nat, npages: nat, doFree: bool)
      requires Inv(S()) && Root(r) in tabs && va % PGSIZE == 0 && va + npages * PGSIZE <= MAXVA
      requires doFree ==> r in users && va / PGSIZE + npages <= USERTOP
      modifies this
      ensures Inv(S()) && Unmapped(old(S()), S(), r, va / PGSIZE, npages, if doFree then Free else Used)
    {
      hide Inv, Unmapped, HasLow, OnlyTables, PutLeaf, Leaf, Px, Ppn, Dropped;
      ghost var s0, vpn, to := S(), va / PGSIZE, if doFree then Free else Used;
      UnmapNone(S(), r, vpn, to);
      var a := va;
      ghost var i := 0;
      while a < va + npages * PGSIZE
        invariant 0 <= i <= npages && a == va + i * PGSIZE
        invariant Inv(S()) && Unmapped(s0, S(), r, vpn, i, to) && S().tabs == s0.tabs && users == s0.users
      {
        assert a / PGSIZE == vpn + i;
        ghost var s1 := S();
        UnmapSkip(s0, s1, r, vpn, i, to);
        var t := Walk(r, a, false);
        if t != 0 {
          LeafIs(S(), r, a);
          var e := mem[t].ptes[Px(0, a)];
          if Valid(e) {
            assert UnmapOk(s1, r, vpn + i, doFree);
            DroppedIs(s1, r, a, doFree);
            UnmapStep(s0, s1, r, vpn, i, doFree, Dropped(s1, r, vpn + i, doFree));
            if doFree {
              Kfree(Ppn(e));
            }
            role := Dropped(s1, r, vpn + i, doFree).role;
            mem := SetPte(mem, t, Px(0, a), 0);
          }
        }
        a := a + PGSIZE;
        i := i + 1;
      }
    }
  }

  function Everywhere<T>(lo: nat, hi: nat, v: T): (m: map<nat, T>)
    requires lo <= hi
    ensures forall f :: f in m <==> lo <= f < hi
    ensures forall f :: f in m ==> m[f] == v
    decreases hi - lo
  {
    if lo == hi then map[] else Everywhere(lo, hi - 1, v)[hi - 1 := v]
  }

  lemma NothingFreeYet(s: State, lo: nat, hi: nat)
    requires s.freelist == [] && s.tabs == map[] && s.users == {} && s.mem.Keys == s.role.Keys
    requires 0 < lo && (forall f :: f in s.role <==> lo <= f < hi) && forall f :: f in s.role ==> s.role[f].Used?
    ensures Inv(s)
  {
  }

  lemma ReleasedIs(s: State, f: nat)
    requires f in s.role
    ensures var s' := Released(s, f);
            && s'.freelist == [f] + s.freelist && s'.tabs == s.tabs && s'.users == s.users
            && s'.role == s.role[f := Free]
  {
  }

  lemma KeysOfLevels(r: nat, vpn: nat)
    ensures KeyAt(r, vpn, 2) == Root(r) && KeyAt(r, vpn, 0) == Low(r, vpn / ENTRIES)
  {
  }

  lemma RootFrame(s: State, r: nat)
    requires Inv(s) && Root(r) in s.tabs
    ensures s.tabs[Root(r)] == r
  {
    assert TabOk(s, Root(r));
  }

  lemma LowFacts(s: State, r: nat, vpn: nat)
    requires Inv(s) && Low(r, vpn / ENTRIES) in s.tabs
    ensures HasLow(s, r, vpn) && s.tabs[Low(r, vpn / ENTRIES)] != 0
  {
    assert TabOk(s, Low(r, vpn / ENTRIES));
  }

  lemma NoLeaf(s: State, r: nat, vpn: nat, level: nat)
    requires Inv(s) && level <= 1 && KeyAt(r, vpn, level) !in s.tabs
    ensures Leaf(s, r, vpn) == 0 && Low(r, vpn / ENTRIES) !in s.tabs
  {
    NoTableBelow(s, r, vpn, level);
  }

  lemma LeafIs(s: State, r: nat, va: nat)
    requires HasLow(s, r, va / PGSIZE)
    ensures var t := s.tabs[Low(r, va / PGSIZE / ENTRIES)];
            && t in s.mem && s.mem[t].Table? && Px(0, va) < |s.mem[t].ptes|
            && Px(0, va) == va / PGSIZE % ENTRIES
            && s.mem[t].ptes[Px(0, va)] == Leaf(s, r, va / PGSIZE)
  {
  }

  lemma OnlyTablesGrow(s: State, s': State, r: nat)
    requires OnlyTables(s, s', r)
    ensures s'.users == s.users && forall k :: k in s.tabs ==> k in s'.tabs
  {
  }

  lemma LowIs(s: State, r: nat, vpn: nat)
    requires HasLow(s, r, vpn)
    ensures Low(r, vpn / ENTRIES) in s.tabs
  {
  }

  lemma OnlyTablesTrans(s: State, s1: State, s2: State, r: nat)
    requires OnlyTables(s, s1, r) && OnlyTables(s1, s2, r)
    ensures OnlyTables(s, s2, r) && forall k :: k in s.tabs ==> k in s2.tabs
  {
    hide Leaf;
  }

  lemma LevelFacts(s: State, r: nat, va: nat, level: nat)
    requires Inv(s) && 1 <= level <= 2 && va < MAXVA && KeyAt(r, va / PGSIZE, level) in s.tabs
    ensures var k, c, i := KeyAt(r, va / PGSIZE, level), KeyAt(r, va / PGSIZE, level - 1), Px(level, va);
            && !k.Low? && k.root == r && IsTable(s, s.tabs[k]) && i < ENTRIES && c == Child(k, i)
            && var e := s.mem[s.tabs[k]].ptes[i];
            && (Valid(e) <==> c in s.tabs) && (c in s.tabs ==> Ppn(e) == s.tabs[c] && s.tabs[c] != 0)
  {
    hide UsersOk, Px, Leaf, Pte, Ppn, NoDup;
    var k, c, i := KeyAt(r, va / PGSIZE, level), KeyAt(r, va / PGSIZE, level - 1), Px(level, va);
    StepDown(r, va, level);
    assert TabOk(s, k) && LinkOk(s, k, i);
    if c in s.tabs {
      assert TabOk(s, c);
      PteParts(s.tabs[c], V);
    }
  }

  lemma OnlyTablesRefl(s: State, r: nat)
    requires Inv(s)
    ensures OnlyTables(s, s, r)
  {
  }

  lemma HeadFacts(s: State, k: Key)
    requires Inv(s) && s.freelist != [] && k in s.tabs
    ensures s.freelist[0] != s.tabs[k] && s.freelist[0] != 0 && s.freelist[0] in s.mem
  {
    assert s.freelist[0] in s.freelist;
    assert TabOk(s, k);
  }

  lemma GrowIs(s: State, k: Key, i: nat)
    requires GrowOk(s, k, i)
    ensures var f := s.freelist[0];
            && s.tabs[k] in s.mem[f := ZeroTable()] && IsTable(s, s.tabs[k]) && i < |s.mem[s.tabs[k]].ptes|
            && Grow(s, k, i) == State(SetPte(s.mem[f := ZeroTable()], s.tabs[k], i, Pte(f, V)), s.freelist[1..],
                                      s.tabs[Child(k, i) := f], s.role[f := Tab(Child(k, i))], s.users)
  {
  }

  /** The pages are not mapped yet, and frames that are to become user pages are free for that. */
  ghost predicate MapOk(s: State, r: nat, vpn: nat, n: nat, f0: nat, perm: nat) {
    && (r in s.users && vpn + n > USERTOP ==> !HasU(perm))
    && (forall v :: vpn <= v < vpn + n ==> !Valid(Leaf(s, r, v)))
    && (forall v :: vpn <= v < vpn + n && IsUser(s, r, v) ==> FrameFor(s, f0 + v - vpn))
  }

  ghost predicate FrameFor(s: State, f: nat) {
    f in s.role && s.role[f].Used? && IsData(s, f)
  }

  lemma MapNothing(s: State, r: nat, vpn: nat, f0: nat, flags: nat)
    requires Inv(s)
    ensures MappedRange(s, s, r, vpn, 0, f0, flags) && TakesBut(s, s, r, f0, 0) && SameBytes(s, s, {})
  {
    hide Leaf;
  }

  lemma OnlyTablesKeep(s: State, s1: State, s2: State, r: nat, vpn: nat, n: nat, f0: nat, flags: nat)
    requires MappedRange(s, s1, r, vpn, n, f0, flags) && TakesBut(s, s1, r, f0, n) && SameBytes(s, s1, {})
    requires OnlyTables(s1, s2, r)
    ensures MappedRange(s, s2, r, vpn, n, f0, flags) && TakesBut(s, s2, r, f0, n) && SameBytes(s, s2, {})
  {
    hide Leaf;
  }

  lemma MapNext(s: State, s1: State, r: nat, vpn: nat, i: nat, f0: nat, perm: nat, n: nat, s2: State)
    requires HasLow(s1, r, vpn + i) && s2 == PutLeaf(s1, r, vpn + i, Pte(f0 + i, WithV(perm)))
    requires MapOk(s, r, vpn, n, f0, perm) && i < n && perm < 1024 && Inv(s1)
    requires MappedRange(s, s1, r, vpn, i, f0, WithV(perm)) && TakesBut(s, s1, r, f0, i) && SameBytes(s, s1, {})
    ensures Inv(s2) && s2.tabs == s1.tabs
    ensures MappedRange(s, s2, r, vpn, i + 1, f0, WithV(perm)) && TakesBut(s, s2, r, f0, i + 1) && SameBytes(s, s2, {})
  {
    hide Leaf, PutLeaf, Inv, PutOk, MapOk, MappedRange, TakesBut, SameBytes, LeavesBut, WithV, Pte, Ppn, Valid, HasLow;
    var e := Pte(f0 + i, WithV(perm));
    FlagsFit(perm);
    PteParts(f0 + i, WithV(perm));
    MapNextOk(s, s1, r, vpn, i, f0, perm, n);
    PutKeepsInv(s1, r, vpn + i, e);
    PutTakes(s1, r, vpn + i, e);
    MapOneMore(s, s1, s2, r, vpn, i, f0, WithV(perm));
  }

  lemma PutIs(s: State, r: nat, va: nat, e: nat)
    requires HasLow(s, r, va / PGSIZE)
    ensures var t, s' := s.tabs[Low(r, va / PGSIZE / ENTRIES)], PutLeaf(s, r, va / PGSIZE, e);
            && t in s.mem && s.mem[t].Table? && Px(0, va) < |s.mem[t].ptes|
            && s' == State(SetPte(s.mem, t, Px(0, va), e), s.freelist, s.tabs, s'.role, s.users)
  {
  }

  lemma FlagsFit(perm: nat)
    requires perm < 1024
    ensures WithV(perm) < 1024 && Valid(WithV(perm)) && (HasU(WithV(perm)) <==> HasU(perm))
  {
  }

  lemma MapOneMore(s: State, s1: State, s2: State, r: nat, vpn: nat, i: nat, f0: nat, flags: nat)
    requires MappedRange(s, s1, r, vpn, i, f0, flags) && TakesBut(s, s1, r, f0, i) && SameBytes(s, s1, {})
    requires LeavesBut(s1, s2, r, vpn + i, Pte(f0 + i, flags)) && TakesBut(s1, s2, r, f0 + i, 1)
             && SameBytes(s1, s2, {})
    requires forall f :: f in s1.role && IsDataRole(s1.role[f]) <==> f in s2.role && IsDataRole(s2.role[f])
    ensures MappedRange(s, s2, r, vpn, i + 1, f0, flags) && TakesBut(s, s2, r, f0, i + 1) && SameBytes(s, s2, {})
  {
    hide Leaf, Pte, Names;
    MapOneMoreLeaf(s, s1, s2, r, vpn, i, f0, flags);
  }

  lemma MapOneMoreLeaf(s: State, s1: State, s2: State, r: nat, vpn: nat, i: nat, f0: nat, flags: nat)
    requires MappedRange(s, s1, r, vpn, i, f0, flags)
    requires LeavesBut(s1, s2, r, vpn + i, Pte(f0 + i, flags))
    ensures MappedRange(s, s2, r, vpn, i + 1, f0, flags)
  {
    hide Leaf, Pte;
  }

  lemma MapNextOk(s: State, s1: State, r: nat, vpn: nat, i: nat, f0: nat, perm: nat, n: nat)
    requires MapOk(s, r, vpn, n, f0, perm) && i < n && perm < 1024 && Inv(s1)
    requires MappedRange(s, s1, r, vpn, i, f0, WithV(perm)) && TakesBut(s, s1, r, f0, i) && SameBytes(s, s1, {})
    requires HasLow(s1, r, vpn + i)
    ensures PutOk(s1, r, vpn + i, Pte(f0 + i, WithV(perm))) && Valid(Pte(f0 + i, WithV(perm)))
  {
    hide Leaf, Inv;
    FlagsFit(perm);
    PteParts(f0 + i, WithV(perm));
    PteHas(f0 + i, WithV(perm));
    assert IsUser(s, r, vpn + i) ==> FrameFor(s, f0 + i);
  }

  lemma PutTakes(s: State, r: nat, vpn: nat, e: nat)
    requires PutOk(s, r, vpn, e) && Valid(e)
    ensures TakesBut(s, PutLeaf(s, r, vpn, e), r, Ppn(e), 1) && SameBytes(s, PutLeaf(s, r, vpn, e), {})
    ensures PutLeaf(s, r, vpn, e).tabs == s.tabs
    ensures var s' := PutLeaf(s, r, vpn, e);
            forall f :: f in s.role && IsDataRole(s.role[f]) <==> f in s'.role && IsDataRole(s'.role[f])
  {
    assert TabOk(s, Low(r, vpn / ENTRIES));
  }

  // Unmapping

  /** Of n pages from vpn the valid entries are cleared and their frames get the role `to`; nothing else changes. */
  ghost predicate Unmapped(s: State, s': State, r: nat, vpn: nat, n: nat, to: Role) {
    && s'.tabs == s.tabs && s'.users == s.users && s'.role.Keys == s.role.Keys
    && ClearedRange(s, s', r, vpn, n) && SameBytes(s, s', {})
    && (forall f :: f in s.role ==>
          s'.role[f] == if s.role[f].User? && s.role[f].root == r && vpn <= s.role[f].vpn < vpn + n then to
              else s.role[f])
  }

  /** One valid leaf entry goes, and its frame if doFree. */
  ghost function Dropped(s: State, r: nat, vpn: nat, doFree: bool): (s': State)
    requires HasLow(s, r, vpn)
  {
    var s1 := PutLeaf(s, r, vpn, 0);
    if doFree then Released(s1, Ppn(Leaf(s, r, vpn))) else s1
  }

  ghost predicate UnmapOk(s: State, r: nat, vpn: nat, doFree: bool) {
    Inv(s) && HasLow(s, r, vpn) && Valid(Leaf(s, r, vpn)) && (doFree ==> IsUser(s, r, vpn))
  }

  lemma DroppedKeepsInv(s: State, r: nat, vpn: nat, doFree: bool)
    requires UnmapOk(s, r, vpn, doFree)
    ensures Inv(Dropped(s, r, vpn, doFree)) && LeavesBut(s, Dropped(s, r, vpn, doFree), r, vpn, 0)
  {
    hide Inv, Leaf, PutLeaf, Released, Ppn;
    DroppedRole(s, r, vpn);
    PutKeepsInv(s, r, vpn, 0);
    var s1 := PutLeaf(s, r, vpn, 0);
    if doFree {
      ReleasedKeepsInv(s1, Ppn(Leaf(s, r, vpn)));
    }
  }

  lemma DroppedRole(s: State, r: nat, vpn: nat)
    requires Inv(s) && HasLow(s, r, vpn) && Valid(Leaf(s, r, vpn))
    ensures PutOk(s, r, vpn, 0)
    ensures var s1, f := PutLeaf(s, r, vpn, 0), Ppn(Leaf(s, r, vpn));
            && s1.tabs == s.tabs && s1.users == s.users && SameBytes(s, s1, {})
            && (IsUser(s, r, vpn) ==> f in s.role && s.role[f] == User(r, vpn) && s1.role == s.role[f := Used])
            && (!IsUser(s, r, vpn) ==> s1.role == s.role)
  {
    assert TabOk(s, Low(r, vpn / ENTRIES));
    assert IsUser(s, r, vpn) ==> UserOk(s, r, vpn);
  }

  /** A frame is the user page it says it is. */
  lemma UserFrame(s: State, r: nat, vpn: nat, f: nat)
    requires Inv(s) && f in s.role && s.role[f] == User(r, vpn)
    ensures IsUser(s, r, vpn) && Valid(Leaf(s, r, vpn)) && Ppn(Leaf(s, r, vpn)) == f
  {
    assert FrameOk(s, f);
  }

  lemma UnmapNone(s: State, r: nat, vpn: nat, to: Role)
    requires Inv(s)
    ensures Unmapped(s, s, r, vpn, 0, to)
  {
    hide Leaf;
  }

  /** A page that is not mapped counts as unmapped. */
  lemma UnmapSkip(s: State, s1: State, r: nat, vpn: nat, i: nat, to: Role)
    requires Inv(s) && Inv(s1) && Unmapped(s, s1, r, vpn, i, to)
    ensures !Valid(Leaf(s1, r, vpn + i)) ==> Unmapped(s, s1, r, vpn, i + 1, to)
  {
    hide Leaf, Inv, TakesBut;
    if !Valid(Leaf(s1, r, vpn + i)) {
      assert !Valid(Leaf(s, r, vpn + i));
      forall f | f in s.role && s.role[f] == User(r, vpn + i)
        ensures false
      {
        UserFrame(s, r, vpn + i, f);
      }
    }
  }

  lemma DroppedIs(s: State, r: nat, va: nat, doFree: bool)
    requires UnmapOk(s, r, va / PGSIZE, doFree)
    ensures var t, f := s.tabs[Low(r, va / PGSIZE / ENTRIES)], Ppn(Leaf(s, r, va / PGSIZE));
            var m := if doFree then s.mem[f := JunkPage(1)] else s.mem;
            var s' := Dropped(s, r, va / PGSIZE, doFree);
            && (doFree ==> f in s.role) && t in m && m[t].Table? && Px(0, va) < |m[t].ptes|
            && s' == State(SetPte(m, t, Px(0, va), 0), if doFree then [f] + s.freelist else s.freelist,
                           s.tabs, s'.role, s.users)
  {
    hide LinksOk, UsersOk, FreeOk, PutOk, SameBytes, Leaf, PutLeaf, Px, Ppn;
    DroppedRole(s, r, va / PGSIZE);
    assert TabOk(s, Low(r, va / PGSIZE / ENTRIES));
    PutIs(s, r, va, 0);
  }

  lemma DroppedOthers(s: State, r: nat, vpn: nat, doFree: bool)
    requires UnmapOk(s, r, vpn, doFree)
    ensures var s2 := Dropped(s, r, vpn, doFree);
            && s2.tabs == s.tabs && s2.users == s.users && s2.role.Keys == s.role.Keys && SameBytes(s, s2, {})
            && (forall f :: f in s.role ==>
                  s2.role[f] == if s.role[f] == User(r, vpn) then if doFree then Free else Used else s.role[f])
            && (forall f :: f in s2.role && IsDataRole(s2.role[f]) ==> f in s.role && IsDataRole(s.role[f]))
  {
    hide Inv, Leaf, PutLeaf, Ppn;
    DroppedRole(s, r, vpn);
    forall f | f in s.role && s.role[f] == User(r, vpn)
      ensures IsUser(s, r, vpn) && f == Ppn(Leaf(s, r, vpn))
    {
      UserFrame(s, r, vpn, f);
    }
  }

  lemma UnmapStep(s: State, s1: State, r: nat, vpn: nat, i: nat, doFree: bool, s2: State)
    requires HasLow(s1, r, vpn + i) && s2 == Dropped(s1, r, vpn + i, doFree)
    requires Inv(s) && Unmapped(s, s1, r, vpn, i, if doFree then Free else Used) && UnmapOk(s1, r, vpn + i, doFree)
    ensures Inv(s2) && Unmapped(s, s2, r, vpn, i + 1, if doFree then Free else Used)
  {
    hide Inv, Leaf, UnmapOk, Dropped, Unmapped, HasLow;
    DroppedKeepsInv(s1, r, vpn + i, doFree);
    DroppedOthers(s1, r, vpn + i, doFree);
    StillValid(s1, r, vpn + i, doFree);
    UnmapOneMore(s, s1, s2, r, vpn, i, if doFree then Free else Used);
  }

  lemma StillValid(s: State, r: nat, vpn: nat, doFree: bool)
    requires UnmapOk(s, r, vpn, doFree)
    ensures Valid(Leaf(s, r, vpn)) && HasLow(s, r, vpn)
  {
  }

  lemma UnmapOneMore(s: State, s1: State, s2: State, r: nat, vpn: nat, i: nat, to: Role)
    requires Unmapped(s, s1, r, vpn, i, to) && (to.Free? || to.Used?)
    requires s2.tabs == s1.tabs && s2.users == s1.users && s2.role.Keys == s1.role.Keys && SameBytes(s1, s2, {})
    requires forall f :: f in s1.role ==> s2.role[f] == if s1.role[f] == User(r, vpn + i) then to else s1.role[f]
    requires forall f :: f in s2.role && IsDataRole(s2.role[f]) ==> f in s1.role && IsDataRole(s1.role[f])
    requires Valid(Leaf(s1, r, vpn + i)) && LeavesBut(s1, s2, r, vpn + i, 0)
    ensures Unmapped(s, s2, r, vpn, i + 1, to)
  {
    hide Leaf, Valid;
    ClearOneMore(s, s1, s2, r, vpn, i);
    hide ClearedRange, LeavesBut;
  }

  lemma ClearOneMore(s: State, s1: State, s2: State, r: nat, vpn: nat, i: nat)
    requires ClearedRange(s, s1, r, vpn, i) && Valid(Leaf(s1, r, vpn + i)) && LeavesBut(s1, s2, r, vpn + i, 0)
    ensures ClearedRange(s, s2, r, vpn, i + 1)
  {
    hide Leaf, Valid;
  }
}
