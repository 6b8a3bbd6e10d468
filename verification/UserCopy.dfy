/** Copies between the kernel and user memory (riscv/kernel/vm.c:372-433). User memory is seen as one
    byte per address; a page that a lazy fault has not filled in yet reads as zeros, so that faults
    are invisible. */
module UserCopy {
  import opened PageTable
  import opened VirtualMemory
  import opened UserMemory
  import opened Values

  /** The byte that user code sees at address a. */
  ghost function View(s: State, r: nat, a: nat): (b: Byte) {
    var e := Leaf(s, r, a / PGSIZE);
    if Valid(e) && IsData(s, Ppn(e)) then s.mem[Ppn(e)].bytes[a % PGSIZE] else 0
  }

  /** User memory with src laid over the bytes from `at` of r; all else is seen as before. */
  ghost predicate Viewed(s: State, s': State, r: nat, at: nat, src: seq<Byte>) {
    && s'.users == s.users
    && (forall r2, a: nat :: r2 in s.users && a < TRAPFRAME ==>
          View(s', r2, a) == if r2 == r && at <= a < at + |src| then src[a - at] else View(s, r2, a))
  }

  /** The page of address a is mapped for user code. */
  ghost predicate Reach(s: State, r: nat, a: nat) {
    a < MAXVA && Valid(Leaf(s, r, a / PGSIZE)) && HasU(Leaf(s, r, a / PGSIZE))
  }

  ghost predicate MayWrite(s: State, r: nat, a: nat) {
    Reach(s, r, a) && HasW(Leaf(s, r, a / PGSIZE))
  }

  /** Pages that user code can reach stay as they are. */
  ghost predicate KeepsReach(s: State, s': State) {
    forall r: nat, a: nat :: Reach(s, r, a) ==> Leaf(s', r, a / PGSIZE) == Leaf(s, r, a / PGSIZE)
  }

  /** Only pages of r below sz may have become mapped, on frames from the free list. */
  ghost predicate Lazily(s: State, s': State, r: nat, sz: nat) {
    && Takes(s, s', r)
    && forall r2: nat, v: nat :: Leaf(s', r2, v) == Leaf(s, r2, v) || (r2 == r && v < Pages(sz))
  }

  lemma LazyFault(s: State, s': State, r: nat, sz: nat, va: nat, e: nat)
    requires Takes(s, s', r) && (SameLeaves(s, s') || (va < sz && LeavesBut(s, s', r, va / PGSIZE, e)))
    ensures Lazily(s, s', r, sz)
  {
    hide Leaf;
  }

  lemma LazyTrans(s: State, s1: State, s2: State, r: nat, sz: nat)
    requires Lazily(s, s1, r, sz) && Lazily(s1, s2, r, sz)
    ensures Lazily(s, s2, r, sz)
  {
    hide Leaf;
  }

  lemma LazyRefl(s: State, r: nat, sz: nat)
    ensures Lazily(s, s, r, sz)
  {
    hide Leaf;
  }

  lemma LazyNone(s: State, s': State, r: nat, sz: nat)
    requires SameLeaves(s, s') && s'.role == s.role && s'.users == s.users
    ensures Lazily(s, s', r, sz)
  {
    hide Leaf;
  }

  /** A copy cannot go on at a, however much memory is free: the page is mapped, but not for this use, or it is not
      mapped and lies past the size. */
  ghost predicate Denied(s: State, r: nat, sz: nat, a: nat, write: bool) {
    var e := Leaf(s, r, a / PGSIZE);
    if Valid(e) then !HasU(e) || (write && !HasW(e)) else a - a % PGSIZE >= sz
  }

  /** No address of the range is denied. */
  ghost predicate Granted(s: State, r: nat, sz: nat, at: nat, n: nat, write: bool) {
    forall a: nat :: at <= a < at + n ==> !Denied(s, r, sz, a, write)
  }

  lemma GrantedMore(s: State, s1: State, r: nat, sz: nat, at: nat, n: nat, m: nat, write: bool)
    requires Granted(s, r, sz, at, n, write) && (at + n) % PGSIZE + m <= PGSIZE
    requires !Denied(s1, r, sz, at + n, write) && Leaf(s1, r, (at + n) / PGSIZE) == Leaf(s, r, (at + n) / PGSIZE)
    ensures Granted(s, r, sz, at, n + m, write)
  {
    hide Leaf, Valid, HasU, HasW;
    forall a: nat | at + n <= a < at + n + m
      ensures !Denied(s, r, sz, a, write)
    {
      assert a / PGSIZE == (at + n) / PGSIZE && a - a % PGSIZE == at + n - (at + n) % PGSIZE;
    }
  }

  lemma GrantedNone(s: State, r: nat, sz: nat, at: nat, write: bool)
    ensures Granted(s, r, sz, at, 0, write)
  {
  }

  /** How many pages the n bytes from `at` lie in. */
  function PageSpan(at: nat, n: nat): (k: nat) {
    if n == 0 then 0 else (at + n - 1) / PGSIZE - at / PGSIZE + 1
  }

  /** Only page v of r may have become mapped. */
  ghost predicate OnlyPage(s: State, s': State, r: nat, v: nat) {
    forall r2: nat, v2: nat :: Leaf(s', r2, v2) == Leaf(s, r2, v2) || (r2 == r && v2 == v && !Valid(Leaf(s, r, v)))
  }

  /** Page v of r and the pages behind it are mapped as before. */
  ghost predicate SameFrom(s: State, s': State, r: nat, v: nat) {
    forall v2: nat :: v2 >= v ==> Leaf(s', r, v2) == Leaf(s, r, v2)
  }

  lemma SameFromNext(s: State, s1: State, s2: State, s3: State, r: nat, v: nat)
    requires SameFrom(s, s1, r, v) && OnlyPage(s1, s2, r, v) && SameLeaves(s2, s3)
    ensures SameFrom(s, s3, r, v + 1)
  {
    hide Leaf, Valid;
  }

  lemma SameFromAt(s: State, s1: State, r: nat, v: nat)
    requires SameFrom(s, s1, r, v)
    ensures Leaf(s1, r, v) == Leaf(s, r, v)
  {
    hide Leaf;
  }

  lemma OnlyPageFault(s: State, s': State, r: nat, v: nat, e: nat)
    requires SameLeaves(s, s') || (LeavesBut(s, s', r, v, e) && !Valid(Leaf(s, r, v)))
    ensures OnlyPage(s, s', r, v)
  {
    hide Leaf, Valid;
  }

  lemma ReachFacts(s: State, r: nat, a: nat)
    requires Inv(s) && r in s.users && Reach(s, r, a)
    ensures a < TRAPFRAME && IsUser(s, r, a / PGSIZE)
    ensures var f := Ppn(Leaf(s, r, a / PGSIZE));
            f != 0 && f in s.role && s.role[f] == User(r, a / PGSIZE) && IsData(s, f)
  {
    hide Leaf, HasU, Ppn, TabsOk, LinksOk;
    assert a / PGSIZE >= USERTOP ==> HighOk(s, r, a / PGSIZE);
    UserEntry(s, r, a / PGSIZE);
  }

  /** Nothing above the trap frame is mapped for user code. */
  lemma HighDenied(s: State, r: nat, sz: nat, a: nat, write: bool)
    requires Inv(s) && r in s.users && sz <= TRAPFRAME && a >= MAXVA
    ensures Denied(s, r, sz, a, write)
  {
    hide Leaf, HasU, Ppn, TabsOk, LinksOk, Valid;
    assert HighOk(s, r, a / PGSIZE);
  }

  lemma ViewRefl(s: State, r: nat, at: nat)
    ensures Viewed(s, s, r, at, []) && KeepsReach(s, s)
  {
  }

  /** A lazy fault is invisible. */
  lemma FaultUnseen(s: State, s': State, r: nat, vpn: nat, e: nat, at: nat)
    requires Inv(s) && Inv(s') && Takes(s, s', r) && SameBytes(s, s', {}) && r in s.users
    requires LeavesBut(s, s', r, vpn, e) && NewPage(s, s', e, ZeroPage(), Flags(e)) && !Valid(Leaf(s, r, vpn))
    ensures Viewed(s, s', r, at, []) && KeepsReach(s, s')
  {
    hide Leaf, Inv, Valid, Ppn, HasU, ZeroPage, Flags;
    forall r2, a: nat | r2 in s.users && a < TRAPFRAME
      ensures View(s', r2, a) == View(s, r2, a)
    {
      if r2 == r && a / PGSIZE == vpn {
        ZeroBytes(a % PGSIZE);
      } else if Valid(Leaf(s, r2, a / PGSIZE)) {
        UserEntry(s, r2, a / PGSIZE);
        UserEntry(s', r2, a / PGSIZE);
      }
    }
  }

  lemma ZeroBytes(i: nat)
    requires i < PGSIZE
    ensures ZeroPage()[i] == 0
  {
  }

  lemma UnseenTables(s: State, s': State, r: nat, at: nat)
    requires Inv(s) && Inv(s') && Takes(s, s', r) && SameBytes(s, s', {}) && SameLeaves(s, s')
    ensures Viewed(s, s', r, at, []) && KeepsReach(s, s')
  {
    hide Leaf, Inv, Valid, Ppn, HasU;
    forall r2, a: nat | r2 in s.users && a < TRAPFRAME
      ensures View(s', r2, a) == View(s, r2, a)
    {
      if Valid(Leaf(s, r2, a / PGSIZE)) {
        UserEntry(s, r2, a / PGSIZE);
        UserEntry(s', r2, a / PGSIZE);
      }
    }
  }

  /** The frame of the user page va0, which a lazy fault may have to provide; 0 if there is none. */
  method UserPage(vm: Vm, r: nat, sz: nat, va0: nat) returns (pa: nat)
    requires Inv(vm.S()) && r in vm.users && sz <= TRAPFRAME && va0 % PGSIZE == 0
    modifies vm
    ensures Inv(vm.S()) && vm.users == old(vm.users)
    ensures Viewed(old(vm.S()), vm.S(), r, 0, []) && KeepsReach(old(vm.S()), vm.S())
            && Lazily(old(vm.S()), vm.S(), r, sz)
    ensures pa == 0 <==> !Reach(vm.S(), r, va0)
    ensures pa != 0 ==> pa == Ppn(Leaf(vm.S(), r, va0 / PGSIZE)) * PGSIZE
    ensures pa == 0 ==> Denied(old(vm.S()), r, sz, va0, false) || |old(vm.freelist)| < 3
    ensures pa != 0 ==> !Denied(old(vm.S()), r, sz, va0, false) && |vm.freelist| + 3 >= |old(vm.freelist)|
    ensures OnlyPage(old(vm.S()), vm.S(), r, va0 / PGSIZE)
    ensures pa != 0 && !Valid(Leaf(old(vm.S()), r, va0 / PGSIZE)) ==> HasW(Leaf(vm.S(), r, va0 / PGSIZE))
  {
    hide Inv, Leaf, Viewed, KeepsReach, Takes, TakesBut, SameBytes, SameLeaves, LeavesBut, NewPage, Valid, HasU, HasW,
         Ppn, Pte, ZeroPage, Lazily, OnlyPage;
    ghost var s := vm.S();
    UserRoot(s, r);
    ViewRefl(s, r, 0);
    LazyRefl(s, r, sz);
    SameLeavesRefl(s);
    OnlyPageFault(s, s, r, va0 / PGSIZE, 0);
    pa := vm.Walkaddr(r, va0);
    if Reach(s, r, va0) {
      ReachFacts(s, r, va0);
    }
    if va0 >= MAXVA {
      HighDenied(s, r, sz, va0, false);
    }
    if pa == 0 {
      pa := Vmfault(vm, r, sz, va0);
      LazyFault(s, vm.S(), r, sz, va0, Pte(pa / PGSIZE, V + R + W + U));
      OnlyPageFault(s, vm.S(), r, va0 / PGSIZE, Pte(pa / PGSIZE, V + R + W + U));
      if pa == 0 {
        UnseenTables(s, vm.S(), r, 0);
        LeafKept(s, vm.S(), r, va0);
      } else {
        NewEntry(s, vm.S(), r, va0, pa / PGSIZE);
        FaultUnseen(s, vm.S(), r, va0 / PGSIZE, Pte(pa / PGSIZE, V + R + W + U), 0);
      }
    }
  }

  lemma SameLeavesRefl(s: State)
    ensures SameLeaves(s, s)
  {
    hide Leaf;
  }

  lemma LeafKept(s: State, s': State, r: nat, a: nat)
    requires SameLeaves(s, s')
    ensures Leaf(s', r, a / PGSIZE) == Leaf(s, r, a / PGSIZE)
  {
    hide Leaf;
  }

  lemma NewEntry(s: State, s': State, r: nat, a: nat, f: nat)
    requires LeavesBut(s, s', r, a / PGSIZE, Pte(f, V + R + W + U))
    ensures var e := Pte(f, V + R + W + U);
            Leaf(s', r, a / PGSIZE) == e && Valid(e) && HasU(e) && HasW(e) && Ppn(e) == f && Flags(e) == V + R + W + U
  {
    hide Leaf;
    PteParts(f, V + R + W + U);
    PteHas(f, V + R + W + U);
  }

  // Writing user memory

  function Over(page: seq<Byte>, off: nat, src: seq<Byte>): (q: seq<Byte>)
    requires off + |src| <= |page|
    ensures |q| == |page|
    ensures forall i :: 0 <= i < |page| ==> q[i] == if off <= i < off + |src| then src[i - off] else page[i]
  {
    page[..off] + src + page[off + |src|..]
  }

  lemma RewriteKeepsInv(s: State, f: nat, page: seq<Byte>)
    requires Inv(s) && f in s.role && s.role[f].User? && IsData(s, f) && |page| == PGSIZE
    ensures Inv(Fill(s, f, page)) && SameLeaves(s, Fill(s, f, page))
  {
    var s' := Fill(s, f, page);
    forall k, i: nat
      ensures Entry(s', k, i) == Entry(s, k, i)
      ensures k in s.tabs ==> TabOk(s', k)
    {
      assert k in s.tabs ==> TabOk(s, k);
    }
    assert SameLeaves(s, s');
    RewriteUsers(s, f, page);
    hide Entry, Leaf;
    forall k, i | k in s'.tabs && 0 <= i < ENTRIES
      ensures LinkOk(s', k, i)
    {
      assert LinkOk(s, k, i);
    }
  }

  lemma RewriteUsers(s: State, f: nat, page: seq<Byte>)
    requires UsersOk(s) && SameLeaves(s, Fill(s, f, page)) && |page| == PGSIZE
    ensures UsersOk(Fill(s, f, page))
  {
    hide Leaf, Valid, Ppn;
    var s' := Fill(s, f, page);
    forall r, v: nat | r in s'.users && v < USERTOP
      ensures UserOk(s', r, v)
    {
      assert UserOk(s, r, v);
    }
    forall r, v: nat | r in s'.users && v >= USERTOP
      ensures HighOk(s', r, v)
    {
      assert HighOk(s, r, v);
    }
    forall g | g in s'.role
      ensures FrameOk(s', g)
    {
      assert FrameOk(s, g);
    }
  }

  /** Bytes written into the frame of a user page are seen at its addresses and nowhere else. */
  lemma WriteSeen(s: State, r: nat, a: nat, src: seq<Byte>)
    requires Inv(s) && r in s.users && Reach(s, r, a) && a % PGSIZE + |src| <= PGSIZE
    ensures var f := Ppn(Leaf(s, r, a / PGSIZE));
            && f in s.mem && s.mem[f].Data? && |s.mem[f].bytes| == PGSIZE
            && var s' := Fill(s, f, Over(s.mem[f].bytes, a % PGSIZE, src));
            && Inv(s') && Viewed(s, s', r, a, src) && SameLeaves(s, s')
  {
    hide Inv, Leaf, Valid, Ppn, HasU, Over;
    ReachFacts(s, r, a);
    var f := Ppn(Leaf(s, r, a / PGSIZE));
    var s' := Fill(s, f, Over(s.mem[f].bytes, a % PGSIZE, src));
    RewriteKeepsInv(s, f, Over(s.mem[f].bytes, a % PGSIZE, src));
    forall r2, b: nat | r2 in s.users && b < TRAPFRAME
      ensures View(s', r2, b) == if r2 == r && a <= b < a + |src| then src[b - a] else View(s, r2, b)
    {
      if Valid(Leaf(s, r2, b / PGSIZE)) {
        UserEntry(s, r2, b / PGSIZE);
      }
    }
  }

  lemma ViewMore(s: State, s1: State, s2: State, r: nat, at: nat, src: seq<Byte>, more: seq<Byte>)
    requires Viewed(s, s1, r, at, src) && Viewed(s1, s2, r, at + |src|, more)
    ensures Viewed(s, s2, r, at, src + more)
  {
    hide View;
  }

  lemma ViewSame(s: State, s1: State, s2: State, r: nat, at: nat, src: seq<Byte>)
    requires Viewed(s, s1, r, at, src) && Viewed(s1, s2, r, 0, [])
    ensures Viewed(s, s2, r, at, src)
  {
    hide View;
  }

  lemma ReachTrans(s: State, s1: State, s2: State)
    requires KeepsReach(s, s1) && KeepsReach(s1, s2)
    ensures KeepsReach(s, s2)
  {
    hide Leaf, Valid, HasU;
  }

  lemma SameLeavesReach(s: State, s': State)
    requires SameLeaves(s, s')
    ensures KeepsReach(s, s')
  {
    hide Leaf, Valid, HasU;
  }

  /** All addresses of the range can be written. */
  ghost predicate Writable(s: State, r: nat, at: nat, n: nat) {
    forall a: nat :: at <= a < at + n ==> MayWrite(s, r, a)
  }

  lemma WritableKept(s: State, s': State, r: nat, at: nat, n: nat)
    requires Writable(s, r, at, n) && KeepsReach(s, s')
    ensures Writable(s', r, at, n)
  {
    hide Leaf, Valid, HasU, HasW;
    forall a: nat | at <= a < at + n
      ensures MayWrite(s', r, a)
    {
      assert MayWrite(s, r, a) && Reach(s, r, a);
    }
  }

  /** A run of addresses within one page. */
  lemma WritableMore(s: State, r: nat, at: nat, n: nat, m: nat)
    requires Writable(s, r, at, n) && MayWrite(s, r, at + n) && (at + n) % PGSIZE + m <= PGSIZE
    ensures Writable(s, r, at, n + m)
  {
    hide Leaf, Valid, HasU, HasW;
    forall a: nat | at + n <= a < at + n + m
      ensures MayWrite(s, r, a)
    {
      assert a / PGSIZE == (at + n) / PGSIZE;
    }
  }

  /** Copies src to dstva of r; `done` bytes get there. */
  method Copyout(vm: Vm, r: nat, sz: nat, dstva: nat, src: seq<Byte>) returns (ret: int, ghost done: nat)
    requires Inv(vm.S()) && r in vm.users && sz <= TRAPFRAME
    modifies vm
    ensures Inv(vm.S()) && vm.users == old(vm.users)
    ensures done <= |src| && Viewed(old(vm.S()), vm.S(), r, dstva, src[..done])
    ensures KeepsReach(old(vm.S()), vm.S()) && Writable(vm.S(), r, dstva, done) && Lazily(old(vm.S()), vm.S(), r, sz)
    ensures ret == (if done == |src| then 0 else -1)
    ensures ret == -1 ==> !MayWrite(vm.S(), r, dstva + done)
    ensures ret == -1 ==>
              Denied(old(vm.S()), r, sz, dstva + done, true) || |old(vm.freelist)| < 3 * PageSpan(dstva, |src|)
    ensures Granted(old(vm.S()), r, sz, dstva, done, true)
  {
    hide Inv, Leaf, Viewed, KeepsReach, Valid, HasU, Ppn, Over, SameLeaves, Writable, Fill, HasLow, OnlyTables, Px,
         Lazily, Denied, Granted, OnlyPage, SameFrom;
    ghost var s0 := vm.S();
    ViewRefl(s0, r, dstva);
    LazyRefl(s0, r, sz);
    var at, rest := dstva, src;
    done := 0;
    assert src[..0] == [];
    WritableNone(s0, r, dstva);
    GrantedNone(s0, r, sz, dstva, true);
    SameFromRefl(s0, r, dstva / PGSIZE);
    ghost var pages := 0;
    while |rest| > 0
      invariant done <= |src| && rest == src[done..] && (rest != [] ==> at == dstva + done)
      invariant Inv(vm.S()) && vm.users == s0.users && Lazily(s0, vm.S(), r, sz)
      invariant Viewed(s0, vm.S(), r, dstva, src[..done]) && KeepsReach(s0, vm.S()) && Writable(vm.S(), r, dstva, done)
      invariant Granted(s0, r, sz, dstva, done, true) && |vm.freelist| + 3 * pages >= |s0.freelist|
      invariant rest != [] ==> pages == at / PGSIZE - dstva / PGSIZE && SameFrom(s0, vm.S(), r, at / PGSIZE)
      decreases |rest|
    {
      var va0 := PgRoundDown(at);
      ghost var s1 := vm.S();
      assert va0 / PGSIZE == at / PGSIZE;
      if va0 >= MAXVA {
        HighDenied(s0, r, sz, at, true);
        return -1, done;
      }
      var pa0 := UserPage(vm, r, sz, va0);
      ghost var s2 := vm.S();
      CopyStops(s0, s1, s2, r, sz, va0, at);
      ViewSame(s0, s1, s2, r, dstva, src[..done]);
      LazyTrans(s0, s1, s2, r, sz);
      ReachTrans(s0, s1, s2);
      WritableKept(s1, s2, r, dstva, done);
      if pa0 == 0 {
        return -1, done;
      }
      ReachFacts(s2, r, va0);
      UserRoot(s2, r);
      var t := vm.Walk(r, va0, false);
      NotZero(s2, r, va0);
      LeafIs(vm.S(), r, va0);
      var e := vm.mem[t].ptes[Px(0, va0)];
      if !HasW(e) {
        return -1, done;
      }
      var n := PGSIZE - (at - va0);
      if n > |rest| {
        n := |rest|;
      }
      WriteSeen(s2, r, at, rest[..n]);
      var f := pa0 / PGSIZE;
      assert at - va0 == at % PGSIZE;
      FillIs(s2, f, Over(s2.mem[f].bytes, at % PGSIZE, rest[..n]));
      vm.mem := vm.mem[f := Data(Over(vm.mem[f].bytes, at - va0, rest[..n]))];
      ViewMore(s0, s2, vm.S(), r, dstva, src[..done], rest[..n]);
      assert src[..done] + rest[..n] == src[..done + n];
      SameLeavesReach(s2, vm.S());
      GrantedMore(s0, s1, r, sz, dstva, done, n, true);
      SameFromNext(s0, s1, s2, vm.S(), r, at / PGSIZE);
      LazyNone(s2, vm.S(), r, sz);
      LazyTrans(s0, s2, vm.S(), r, sz);
      ReachTrans(s0, s2, vm.S());
      WritableMore(s2, r, dstva, done, n);
      WritableKept(s2, vm.S(), r, dstva, done + n);
      rest := rest[n..];
      done := done + n;
      at := va0 + PGSIZE;
      pages := pages + 1;
    }
    ret := 0;
    assert src[..done] == src;
  }

  lemma SameFromRefl(s: State, r: nat, v: nat)
    ensures SameFrom(s, s, r, v)
  {
    hide Leaf;
  }

  /** What the page that a copy has reached says about the start of the copy. */
  lemma CopyStops(s: State, s1: State, s2: State, r: nat, sz: nat, va0: nat, at: nat)
    requires SameFrom(s, s1, r, at / PGSIZE) && OnlyPage(s1, s2, r, at / PGSIZE) && va0 == at - at % PGSIZE
    ensures va0 / PGSIZE == at / PGSIZE && Leaf(s1, r, at / PGSIZE) == Leaf(s, r, at / PGSIZE)
    ensures forall write :: Denied(s1, r, sz, va0, write) <==> Denied(s, r, sz, at, write)
    ensures forall write :: Denied(s1, r, sz, at, write) <==> Denied(s, r, sz, at, write)
    ensures Denied(s, r, sz, at, true) <==>
              Denied(s, r, sz, at, false) || (Valid(Leaf(s, r, at / PGSIZE)) && !HasW(Leaf(s, r, at / PGSIZE)))
    ensures Valid(Leaf(s1, r, at / PGSIZE)) ==> Leaf(s2, r, at / PGSIZE) == Leaf(s1, r, at / PGSIZE)
  {
    hide Leaf, Valid, HasU, HasW;
    SameFromAt(s, s1, r, at / PGSIZE);
  }

  lemma WritableNone(s: State, r: nat, at: nat)
    ensures Writable(s, r, at, 0)
  {
  }

  lemma NotZero(s: State, r: nat, a: nat)
    requires Reach(s, r, a)
    ensures Leaf(s, r, a / PGSIZE) != 0
  {
  }

  lemma FillIs(s: State, f: nat, page: seq<Byte>)
    ensures Fill(s, f, page) == State(s.mem[f := Data(page)], s.freelist, s.tabs, s.role, s.users)
  {
  }

  // Reading user memory

  /** The n bytes that user code sees from `at`. */
  ghost function Seen(s: State, r: nat, at: nat, n: nat): (q: seq<Byte>)
    ensures |q| == n && forall i :: 0 <= i < n ==> q[i] == View(s, r, at + i)
  {
    if n == 0 then [] else Seen(s, r, at, n - 1) + [View(s, r, at + n - 1)]
  }

  /** What a page holds is what user code sees there. */
  lemma PageSeen(s: State, r: nat, a: nat, n: nat)
    requires Inv(s) && r in s.users && Reach(s, r, a) && a % PGSIZE + n <= PGSIZE
    ensures var f := Ppn(Leaf(s, r, a / PGSIZE));
            && f in s.mem && s.mem[f].Data? && |s.mem[f].bytes| == PGSIZE
            && s.mem[f].bytes[a % PGSIZE..a % PGSIZE + n] == Seen(s, r, a, n)
  {
    hide Inv, Leaf, Valid, Ppn, HasU;
    ReachFacts(s, r, a);
    var f := Ppn(Leaf(s, r, a / PGSIZE));
    var got, seen := s.mem[f].bytes[a % PGSIZE..a % PGSIZE + n], Seen(s, r, a, n);
    forall i | 0 <= i < n
      ensures got[i] == seen[i]
    {
      assert (a + i) / PGSIZE == a / PGSIZE && (a + i) % PGSIZE == a % PGSIZE + i;
    }
  }

  lemma SeenMore(s: State, s': State, r: nat, at: nat, n: nat, m: nat)
    requires Viewed(s, s', r, 0, []) && r in s.users && at + n + m <= TRAPFRAME
    ensures Seen(s, r, at, n + m) == Seen(s, r, at, n) + Seen(s', r, at + n, m)
  {
    hide View;
  }

  /** Copies len bytes from srcva of r. */
  method Copyin(vm: Vm, r: nat, sz: nat, srcva: nat, len: nat) returns (ret: int, dst: seq<Byte>)
    requires Inv(vm.S()) && r in vm.users && sz <= TRAPFRAME
    modifies vm
    ensures Inv(vm.S()) && vm.users == old(vm.users)
    ensures Viewed(old(vm.S()), vm.S(), r, 0, []) && KeepsReach(old(vm.S()), vm.S())
            && Lazily(old(vm.S()), vm.S(), r, sz)
    ensures |dst| <= len && dst == Seen(old(vm.S()), r, srcva, |dst|)
    ensures ret == (if |dst| == len then 0 else -1)
    ensures ret == -1 ==> !Reach(vm.S(), r, srcva + |dst|)
    ensures ret == -1 ==>
              Denied(old(vm.S()), r, sz, srcva + |dst|, false) || |old(vm.freelist)| < 3 * PageSpan(srcva, len)
    ensures Granted(old(vm.S()), r, sz, srcva, |dst|, false)
  {
    hide Inv, Leaf, Viewed, KeepsReach, Valid, HasU, Ppn, Reach, Lazily, Denied, Granted, OnlyPage, SameFrom;
    ghost var s0 := vm.S();
    ViewRefl(s0, r, 0);
    LazyRefl(s0, r, sz);
    var at, left := srcva, len;
    dst := [];
    SameFromRefl(s0, r, srcva / PGSIZE);
    GrantedNone(s0, r, sz, srcva, false);
    ghost var pages := 0;
    while left > 0
      invariant left >= 0 && left + |dst| == len && (left > 0 ==> at == srcva + |dst|)
      invariant Inv(vm.S()) && vm.users == s0.users && Lazily(s0, vm.S(), r, sz)
      invariant Viewed(s0, vm.S(), r, 0, []) && KeepsReach(s0, vm.S())
      invariant dst == Seen(s0, r, srcva, |dst|)
      invariant Granted(s0, r, sz, srcva, |dst|, false) && |vm.freelist| + 3 * pages >= |s0.freelist|
      invariant left > 0 ==> pages == at / PGSIZE - srcva / PGSIZE && SameFrom(s0, vm.S(), r, at / PGSIZE)
      decreases left
    {
      var va0 := PgRoundDown(at);
      ghost var s1 := vm.S();
      assert va0 / PGSIZE == at / PGSIZE;
      var pa0 := UserPage(vm, r, sz, va0);
      ghost var s2 := vm.S();
      CopyStops(s0, s1, s2, r, sz, va0, at);
      ViewSame(s0, s1, s2, r, 0, []);
      LazyTrans(s0, s1, s2, r, sz);
      ReachTrans(s0, s1, s2);
      SameReach(s2, r, va0, at);
      if pa0 == 0 {
        return -1, dst;
      }
      ReachFacts(s2, r, va0);
      var n := PGSIZE - (at - va0);
      if n > left {
        n := left;
      }
      GrantedMore(s0, s1, r, sz, srcva, |dst|, n, false);
      SameLeavesRefl(s2);
      SameFromNext(s0, s1, s2, s2, r, at / PGSIZE);
      PageSeen(s2, r, at, n);
      SeenMore(s0, s2, r, srcva, |dst|, n);
      var f := pa0 / PGSIZE;
      dst := dst + vm.mem[f].bytes[at - va0..at - va0 + n];
      left := left - n;
      at := va0 + PGSIZE;
      pages := pages + 1;
    }
    ret := 0;
  }

  lemma SameReach(s: State, r: nat, a: nat, b: nat)
    requires a / PGSIZE == b / PGSIZE && a % PGSIZE == 0
    ensures Reach(s, r, a) <==> Reach(s, r, b)
  {
  }

  /** What copyout wrote, copyin reads back, and nothing else that user code sees has changed. */
  method CopyoutCopyin(vm: Vm, r: nat, sz: nat, va: nat, src: seq<Byte>)
      returns (ret: int, dst: seq<Byte>, ghost wrote: bool)
    requires Inv(vm.S()) && r in vm.users && sz <= TRAPFRAME
    modifies vm
    ensures Inv(vm.S()) && vm.users == old(vm.users)
    ensures ret == 0 <==> wrote
    ensures wrote ==> dst == src && Viewed(old(vm.S()), vm.S(), r, va, src)
  {
    hide Inv, Leaf, Viewed, KeepsReach, Valid, HasU, HasW, View;
    ghost var s0 := vm.S();
    ghost var done;
    ret, done := Copyout(vm, r, sz, va, src);
    dst := [];
    wrote := ret == 0;
    if ret == 0 {
      assert src[..done] == src;
      ghost var s1 := vm.S();
      ret, dst := Copyin(vm, r, sz, va, |src|);
      ReadBack(s0, s1, vm.S(), r, va, src, |dst|);
      ViewSame(s0, s1, vm.S(), r, va, src);
    }
  }

  lemma ReadBack(s: State, s1: State, s2: State, r: nat, va: nat, src: seq<Byte>, n: nat)
    requires r in s.users && Inv(s1) && r in s1.users && Viewed(s, s1, r, va, src) && Writable(s1, r, va, |src|)
             && KeepsReach(s1, s2)
    requires n <= |src|
    ensures Seen(s1, r, va, |src|) == src
    ensures n < |src| ==> Reach(s2, r, va + n)
  {
    hide Inv, Leaf, Valid, HasU, HasW, View;
    forall i | 0 <= i < |src|
      ensures View(s1, r, va + i) == src[i]
    {
      assert MayWrite(s1, r, va + i);
      ReachFacts(s1, r, va + i);
    }
    if n < |src| {
      assert MayWrite(s1, r, va + n) && Reach(s1, r, va + n);
    }
  }
}
