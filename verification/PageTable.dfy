/** The Sv39 page tables of riscv/kernel/vm.c over the page allocator of riscv/kernel/kalloc.c.

    A frame is a physical page number. The state keeps the pages themselves and the free list, and
    ghost maps that say what each frame is for: the tables of every address space are named by
    their place in the tree, so that the three-level walk can be compared with a flat map. */
module PageTable {
  import opened Values

  const PGSIZE := 4096
  const ENTRIES := 512
  const MAXVA := 0x40_0000_0000
  const MAXVPN := MAXVA / PGSIZE
  /** Page number of TRAPFRAME: user memory lies below it. */
  const USERTOP := MAXVPN - 2
  const TRAMPOLINE := MAXVA - PGSIZE
  const TRAPFRAME := TRAMPOLINE - PGSIZE


  datatype Page = Table(ptes: seq<nat>) | Data(bytes: seq<Byte>)

  /** A table of the address space whose root table is the frame root. */
  datatype Key = Root(root: nat) | Mid(root: nat, i: nat) | Low(root: nat, j: nat)

  datatype Role = Free | Tab(key: Key) | User(root: nat, vpn: nat) | Used

  datatype State = State(mem: map<nat, Page>, freelist: seq<nat>, tabs: map<Key, nat>, role: map<nat, Role>,
                         users: set<nat>)

  // Page-table entries

  const V := 1
  const R := 2
  const W := 4
  const X := 8
  const U := 16

  function Pte(f: nat, flags: nat): (e: nat) { f * 1024 + flags }
  function Ppn(e: nat): (f: nat) { e / 1024 }
  function Flags(e: nat): (m: nat) { e % 1024 }
  predicate Valid(e: nat) { e % 2 == 1 }
  predicate HasW(e: nat) { e / 4 % 2 == 1 }
  predicate HasU(e: nat) { e / 16 % 2 == 1 }
  function WithV(flags: nat): (r: nat) { if flags % 2 == 1 then flags else flags + 1 }

  lemma PteParts(f: nat, flags: nat)
    requires flags < 1024
    ensures Ppn(Pte(f, flags)) == f && Flags(Pte(f, flags)) == flags
    ensures Valid(Pte(f, flags)) <==> Valid(flags)
  {
  }

  lemma ShiftedSum(f: nat, flags: nat)
    ensures (f * 1024 + flags) / 16 == 64 * f + flags / 16
    ensures (f * 1024 + flags) / 4 == 256 * f + flags / 4
  {
  }

  lemma EvenSum(f: nat, a: nat, b: nat)
    ensures (64 * f + a) % 2 == a % 2 && (256 * f + b) % 2 == b % 2
  {
  }

  lemma PteHas(f: nat, flags: nat)
    requires flags < 1024
    ensures HasU(Pte(f, flags)) <==> HasU(flags)
    ensures HasW(Pte(f, flags)) <==> HasW(flags)
  {
    ShiftedSum(f, flags);
    EvenSum(f, flags / 16, flags / 4);
  }

  // The index fields of a virtual address

  function PxShift(level: nat): (n: nat)
    requires level <= 2
    ensures n > 0
  {
    if level == 0 then 1 else if level == 1 then ENTRIES else ENTRIES * ENTRIES
  }

  function Px(level: nat, va: nat): (i: nat)
    requires level <= 2
    ensures i < ENTRIES
  {
    va / PGSIZE / PxShift(level) % ENTRIES
  }

  /** The table that holds the entry for page vpn at a level. */
  function KeyAt(r: nat, vpn: nat, level: nat): (k: Key)
    requires level <= 2
  {
    if level == 2 then Root(r) else if level == 1 then Mid(r, vpn / (ENTRIES * ENTRIES)) else Low(r, vpn / ENTRIES)
  }

  function Child(k: Key, i: nat): (c: Key)
    requires !k.Low?
  {
    if k.Root? then Mid(k.root, i) else Low(k.root, k.i * ENTRIES + i)
  }

  function Parent(k: Key): (p: Key)
    requires !k.Root?
    ensures !p.Low?
  {
    if k.Mid? then Root(k.root) else Mid(k.root, k.j / ENTRIES)
  }

  function Index(k: Key): (i: nat)
    requires !k.Root?
  {
    if k.Mid? then k.i else k.j % ENTRIES
  }

  lemma ChildOfParent(k: Key)
    requires !k.Root?
    ensures Child(Parent(k), Index(k)) == k
  {
  }

  lemma ParentOfChild(k: Key, i: nat)
    requires !k.Low? && i < ENTRIES
    ensures Parent(Child(k, i)) == k && Index(Child(k, i)) == i
  {
  }

  /** Stepping down through the index fields reaches the tables that belong to the page. */
  lemma StepDown(r: nat, va: nat, level: nat)
    requires va < MAXVA && 1 <= level <= 2
    ensures Child(KeyAt(r, va / PGSIZE, level), Px(level, va)) == KeyAt(r, va / PGSIZE, level - 1)
  {
  }

  // The invariant

  ghost predicate NoDup(q: seq<nat>) {
    forall i, j :: 0 <= i < j < |q| ==> q[i] != q[j]
  }

  ghost predicate FreeOk(s: State) {
    && NoDup(s.freelist)
    && (forall f :: f in s.role && s.role[f].Free? <==> f in s.freelist)
    && (forall f :: f in s.role <==> f in s.mem) && 0 !in s.role
  }

  ghost predicate IsTable(s: State, f: nat) {
    f in s.mem && s.mem[f].Table? && |s.mem[f].ptes| == ENTRIES
  }

  ghost predicate TabOk(s: State, k: Key) {
    && k in s.tabs && s.tabs[k] in s.role && s.role[s.tabs[k]] == Tab(k) && IsTable(s, s.tabs[k])
    && (!k.Root? ==> Parent(k) in s.tabs && Index(k) < ENTRIES)
    && (k.Root? ==> s.tabs[k] == k.root)
  }

  ghost predicate TabsOk(s: State) {
    && (forall k :: k in s.tabs ==> TabOk(s, k))
    && (forall f :: f in s.role && s.role[f].Tab? ==> s.role[f].key in s.tabs && s.tabs[s.role[f].key] == f)
  }

  /** Entry i of table k; zero if there is no such table. */
  ghost function Entry(s: State, k: Key, i: nat): (e: nat) {
    if k in s.tabs && IsTable(s, s.tabs[k]) && i < ENTRIES then s.mem[s.tabs[k]].ptes[i] else 0
  }

  /** An inner entry points at the next table, or is zero; a leaf entry is valid, or zero. */
  ghost predicate LinkOk(s: State, k: Key, i: nat) {
    if k.Low? then Valid(Entry(s, k, i)) || Entry(s, k, i) == 0
    else Entry(s, k, i) == if Child(k, i) in s.tabs then Pte(s.tabs[Child(k, i)], V) else 0
  }

  ghost predicate LinksOk(s: State) {
    forall k, i :: k in s.tabs && 0 <= i < ENTRIES ==> LinkOk(s, k, i)
  }

  /** The flat view of an address space: the leaf entry of every page, zero if it has none. */
  ghost function Leaf(s: State, r: nat, vpn: nat): (e: nat) {
    Entry(s, Low(r, vpn / ENTRIES), vpn % ENTRIES)
  }

  ghost predicate IsData(s: State, f: nat) {
    f in s.mem && s.mem[f].Data? && |s.mem[f].bytes| == PGSIZE
  }

  /** Each mapped user page has a frame of its own. */
  ghost predicate UserOk(s: State, r: nat, vpn: nat) {
    Valid(Leaf(s, r, vpn)) ==>
      && Ppn(Leaf(s, r, vpn)) in s.role && s.role[Ppn(Leaf(s, r, vpn))] == User(r, vpn)
      && IsData(s, Ppn(Leaf(s, r, vpn)))
  }

  ghost predicate FrameOk(s: State, f: nat)
    requires f in s.role
  {
    s.role[f].User? ==>
      && s.role[f].root in s.users && s.role[f].vpn < USERTOP
      && Valid(Leaf(s, s.role[f].root, s.role[f].vpn)) && Ppn(Leaf(s, s.role[f].root, s.role[f].vpn)) == f
  }

  /** The pages above user memory are not for user code. */
  ghost predicate HighOk(s: State, r: nat, vpn: nat) {
    Valid(Leaf(s, r, vpn)) ==> !HasU(Leaf(s, r, vpn))
  }

  ghost predicate UsersOk(s: State) {
    && (forall r, vpn: nat :: r in s.users && vpn < USERTOP ==> UserOk(s, r, vpn))
    && (forall r, vpn: nat :: r in s.users && vpn >= USERTOP ==> HighOk(s, r, vpn))
    && (forall f :: f in s.role ==> FrameOk(s, f))
    && (forall r :: r in s.users ==> Root(r) in s.tabs)
  }

  ghost predicate Inv(s: State) {
    FreeOk(s) && TabsOk(s) && LinksOk(s) && UsersOk(s)
  }

  // What operations leave alone

  ghost predicate SameLeaves(s: State, s': State) {
    forall r, vpn :: Leaf(s', r, vpn) == Leaf(s, r, vpn)
  }

  /** The role belongs to the address space r. */
  predicate Names(role: Role, r: nat) {
    (role.Tab? && role.key.root == r) || (role.User? && role.root == r)
  }

  /** Frames only go from the free list to the address space r; the n frames from lo may also become its pages. */
  ghost predicate TakesBut(s: State, s': State, r: nat, lo: nat, n: nat) {
    && s'.role.Keys == s.role.Keys && s'.users == s.users
    && (forall f :: f in s.role && s'.role[f] != s.role[f] ==>
          || (s.role[f].Free? && Names(s'.role[f], r))
          || (lo <= f < lo + n && s'.role[f].User? && s'.role[f].root == r))
  }

  ghost predicate Takes(s: State, s': State, r: nat) {
    TakesBut(s, s', r, 0, 0)
  }

  /** Frames only move between the free list and the address space r. */
  ghost predicate Touches(s: State, s': State, r: nat) {
    && s'.role.Keys == s.role.Keys
    && (forall f :: f in s.role && s'.role[f] != s.role[f] ==>
          (s.role[f].Free? || Names(s.role[f], r)) && (s'.role[f].Free? || Names(s'.role[f], r)))
  }

  /** Pages that hold data on both sides keep their bytes, except those in `but`. */
  ghost predicate SameBytes(s: State, s': State, but: set<nat>) {
    forall f :: f in s.role && f in s'.role && IsDataRole(s.role[f]) && IsDataRole(s'.role[f]) && f !in but ==>
      f in s.mem && f in s'.mem && s'.mem[f] == s.mem[f]
  }

  predicate IsDataRole(role: Role) { role.User? || role.Used? }

  /** Walking changes nothing but tables. */
  ghost predicate OnlyTables(s: State, s': State, r: nat) {
    && SameLeaves(s, s') && Takes(s, s', r) && SameBytes(s, s', {})
    && s.tabs.Keys <= s'.tabs.Keys
    && (forall f :: f in s.role && f in s'.role && (IsDataRole(s.role[f]) || IsDataRole(s'.role[f])) ==>
            s'.role[f] == s.role[f])
  }

  // The raw walk through memory

  /** The leaf entry for va as the hardware finds it; zero if a table is missing. */
  ghost function RawWalk(mem: map<nat, Page>, t: nat, level: nat, va: nat): (e: nat)
    requires level <= 2
    decreases level
  {
    if t !in mem || !mem[t].Table? || |mem[t].ptes| != ENTRIES then 0 else
    var e := mem[t].ptes[Px(level, va)];
    if level == 0 then e else if Valid(e) then RawWalk(mem, Ppn(e), level - 1, va) else 0
  }

  lemma {:induction false} RawWalkFrom(s: State, r: nat, va: nat, level: nat)
    requires Inv(s) && va < MAXVA && level <= 2 && KeyAt(r, va / PGSIZE, level) in s.tabs
    ensures RawWalk(s.mem, s.tabs[KeyAt(r, va / PGSIZE, level)], level, va) == Leaf(s, r, va / PGSIZE)
  {
    var vpn := va / PGSIZE;
    var k := KeyAt(r, vpn, level);
    assert TabOk(s, k);
    if level > 0 {
      StepDown(r, va, level);
      var c := KeyAt(r, vpn, level - 1);
      assert LinkOk(s, k, Px(level, va));
      if c in s.tabs {
        PteParts(s.tabs[c], V);
        RawWalkFrom(s, r, va, level - 1);
      } else {
        NoTableBelow(s, r, vpn, level - 1);
      }
    }
  }

  /** Where a table is missing, so are the tables under it. */
  lemma NoTableBelow(s: State, r: nat, vpn: nat, level: nat)
    requires TabsOk(s) && level <= 1 && KeyAt(r, vpn, level) !in s.tabs
    ensures Low(r, vpn / ENTRIES) !in s.tabs && Leaf(s, r, vpn) == 0
  {
    assert Low(r, vpn / ENTRIES) in s.tabs ==> TabOk(s, Low(r, vpn / ENTRIES));
  }

  /** The three-level tree is the flat map: the walk from the root finds the leaf entry of every address. */
  lemma TreeIsFlat(s: State, r: nat, va: nat)
    requires Inv(s) && va < MAXVA && Root(r) in s.tabs
    ensures RawWalk(s.mem, r, 2, va) == Leaf(s, r, va / PGSIZE)
  {
    assert TabOk(s, Root(r));
    RawWalkFrom(s, r, va, 2);
  }

  // The steps that change the state

  function Filled<T>(x: T, n: nat): (q: seq<T>)
    ensures |q| == n && forall i :: 0 <= i < n ==> q[i] == x
  {
    seq(n, _ => x)
  }

  function ZeroTable(): (p: Page) { Table(Filled(0, ENTRIES)) }
  function JunkPage(b: Byte): (p: Page) { Data(Filled(b, PGSIZE)) }

  function SetPte(mem: map<nat, Page>, t: nat, i: nat, e: nat): (m: map<nat, Page>)
    requires t in mem && mem[t].Table? && i < |mem[t].ptes|
  {
    mem[t := Table(mem[t].ptes[i := e])]
  }

  /** walk() adds the table below entry i of table k. */
  ghost function Grow(s: State, k: Key, i: nat): (s': State)
    requires s.freelist != [] && k in s.tabs && IsTable(s, s.tabs[k]) && i < ENTRIES && !k.Low?
    requires s.freelist[0] != s.tabs[k]
  {
    var f := s.freelist[0];
    State(SetPte(s.mem[f := ZeroTable()], s.tabs[k], i, Pte(f, V)), s.freelist[1..], s.tabs[Child(k, i) := f],
          s.role[f := Tab(Child(k, i))], s.users)
  }

  ghost predicate GrowOk(s: State, k: Key, i: nat) {
    && Inv(s) && k in s.tabs && IsTable(s, s.tabs[k]) && i < ENTRIES && !k.Low? && Child(k, i) !in s.tabs
    && s.freelist != [] && s.freelist[0] != s.tabs[k]
  }

  lemma GrowEntries(s: State, k: Key, i: nat, k2: Key, i2: nat)
    requires GrowOk(s, k, i)
    ensures var s' := Grow(s, k, i);
            Entry(s', k2, i2) == if k2 == k && i2 == i then Pte(s.freelist[0], V)
                                 else if k2 == Child(k, i) then 0 else Entry(s, k2, i2)
  {
    var f := s.freelist[0];
    assert f in s.freelist;
    assert k2 in s.tabs ==> TabOk(s, k2);
  }

  lemma GrowFree(s: State, k: Key, i: nat)
    requires GrowOk(s, k, i)
    ensures FreeOk(Grow(s, k, i))
  {
    var f := s.freelist[0];
    assert f in s.freelist && f in s.role;
    TailMembers(s.freelist);
    assert TabOk(s, k);
  }

  lemma TailMembers(q: seq<nat>)
    requires q != [] && NoDup(q)
    ensures NoDup(q[1..]) && forall f :: f in q[1..] <==> f in q && f != q[0]
  {
    forall f | f in q && f != q[0]
      ensures f in q[1..]
    {
      var i :| 0 <= i < |q| && q[i] == f;
      assert q[1..][i - 1] == f;
    }
  }

  lemma GrowTabs(s: State, k: Key, i: nat)
    requires GrowOk(s, k, i)
    ensures TabsOk(Grow(s, k, i))
  {
    var s', f := Grow(s, k, i), s.freelist[0];
    assert f in s.freelist && f in s.role && s.role[f].Free?;
    ParentOfChild(k, i);
    assert TabOk(s, k);
    forall k2 | k2 in s'.tabs
      ensures TabOk(s', k2)
    {
      assert k2 in s.tabs ==> TabOk(s, k2);
    }
  }

  lemma GrowLinks(s: State, k: Key, i: nat)
    requires GrowOk(s, k, i)
    ensures LinksOk(Grow(s, k, i))
  {
    hide Entry;
    var s' := Grow(s, k, i);
    ParentOfChild(k, i);
    forall k2, i2 | k2 in s'.tabs && 0 <= i2 < ENTRIES
      ensures LinkOk(s', k2, i2)
    {
      GrowEntries(s, k, i, k2, i2);
      if !k2.Low? {
        ParentOfChild(k2, i2);
      }
      if k2 in s.tabs {
        assert LinkOk(s, k2, i2);
      } else {
        assert k2 == Child(k, i);
        assert !k2.Low? && Child(k2, i2) in s.tabs ==> TabOk(s, Child(k2, i2));
      }
    }
  }

  lemma GrowLeaves(s: State, k: Key, i: nat)
    requires GrowOk(s, k, i)
    ensures SameLeaves(s, Grow(s, k, i))
  {
    hide Entry, Grow, Inv;
    forall r: nat, vpn: nat
      ensures Leaf(Grow(s, k, i), r, vpn) == Leaf(s, r, vpn)
    {
      GrowEntries(s, k, i, Low(r, vpn / ENTRIES), vpn % ENTRIES);
      NoEntryYet(s, k, i, Low(r, vpn / ENTRIES), vpn % ENTRIES);
    }
  }

  lemma NoEntryYet(s: State, k: Key, i: nat, k2: Key, i2: nat)
    requires GrowOk(s, k, i)
    ensures k2 == Child(k, i) ==> Entry(s, k2, i2) == 0
    ensures !k.Low?
  {
  }

  lemma GrowOthers(s: State, k: Key, i: nat)
    requires GrowOk(s, k, i)
    ensures OnlyTables(s, Grow(s, k, i), k.root)
  {
    hide Leaf, SameLeaves, LinksOk, UsersOk;
    GrowLeaves(s, k, i);
    var f, s' := s.freelist[0], Grow(s, k, i);
    assert f in s.freelist && f in s.role && s.role[f].Free?;
    assert TabOk(s, k);
    assert s'.role.Keys == s.role.Keys;
    forall g | g in s.role && IsDataRole(s.role[g])
      ensures g in s.mem && g in s'.mem && s'.mem[g] == s.mem[g]
    {
      assert g != f && g != s.tabs[k];
    }
  }

  /** Steps that keep the flat view and the data keep the ownership of user pages. */
  lemma UsersKept(s: State, s': State)
    requires UsersOk(s) && (exists r :: OnlyTables(s, s', r)) && FreeOk(s) && FreeOk(s')
    ensures UsersOk(s')
  {
    hide Leaf;
    var r0 :| OnlyTables(s, s', r0);
    forall r, vpn: nat | r in s'.users && vpn >= USERTOP
      ensures HighOk(s', r, vpn)
    {
      assert HighOk(s, r, vpn);
    }
    forall r, vpn: nat | r in s'.users && vpn < USERTOP
      ensures UserOk(s', r, vpn)
    {
      assert UserOk(s, r, vpn);
    }
    forall f | f in s'.role
      ensures FrameOk(s', f)
    {
      assert FrameOk(s, f);
    }
  }

  lemma GrowKeepsInv(s: State, k: Key, i: nat)
    requires GrowOk(s, k, i)
    ensures Inv(Grow(s, k, i)) && OnlyTables(s, Grow(s, k, i), k.root)
  {
    hide FreeOk, TabsOk, LinksOk, UsersOk, OnlyTables;
    GrowFree(s, k, i);
    GrowTabs(s, k, i);
    GrowLinks(s, k, i);
    GrowOthers(s, k, i);
    UsersKept(s, Grow(s, k, i));
  }

  ghost predicate IsUser(s: State, r: nat, vpn: nat) { r in s.users && vpn < USERTOP }

  ghost predicate HasLow(s: State, r: nat, vpn: nat) {
    Low(r, vpn / ENTRIES) in s.tabs && IsTable(s, s.tabs[Low(r, vpn / ENTRIES)])
  }

  /** A leaf entry is written; the frame of a user page changes hands with it. */
  ghost function PutLeaf(s: State, r: nat, vpn: nat, e: nat): (s': State)
    requires HasLow(s, r, vpn)
  {
    var was := Leaf(s, r, vpn);
    var role1 := if IsUser(s, r, vpn) && Valid(was) then s.role[Ppn(was) := Used] else s.role;
    s.(mem := SetPte(s.mem, s.tabs[Low(r, vpn / ENTRIES)], vpn % ENTRIES, e),
       role := if IsUser(s, r, vpn) && Valid(e) then role1[Ppn(e) := User(r, vpn)] else role1)
  }

  /** A user page may be given a frame that nothing else uses. */
  ghost predicate PutOk(s: State, r: nat, vpn: nat, e: nat) {
    && Inv(s) && HasLow(s, r, vpn) && (Valid(e) || e == 0)
    && (Valid(e) ==> !Valid(Leaf(s, r, vpn)))
    && (r in s.users && vpn >= USERTOP && Valid(e) ==> !HasU(e))
    && (IsUser(s, r, vpn) && Valid(e) ==> Ppn(e) in s.role && s.role[Ppn(e)].Used? && IsData(s, Ppn(e)))
  }

  lemma PutEntries(s: State, r: nat, vpn: nat, e: nat, k2: Key, i2: nat)
    requires PutOk(s, r, vpn, e)
    ensures var s' := PutLeaf(s, r, vpn, e);
            Entry(s', k2, i2) == if k2 == Low(r, vpn / ENTRIES) && i2 == vpn % ENTRIES then e else Entry(s, k2, i2)
  {
    assert k2 in s.tabs ==> TabOk(s, k2);
    assert TabOk(s, Low(r, vpn / ENTRIES));
  }

  lemma SamePage(vpn: nat, vpn2: nat)
    ensures vpn / ENTRIES == vpn2 / ENTRIES && vpn % ENTRIES == vpn2 % ENTRIES <==> vpn == vpn2
  {
  }

  ghost predicate LeavesBut(s: State, s': State, r: nat, vpn: nat, e: nat) {
    forall r2, vpn2 :: Leaf(s', r2, vpn2) == if r2 == r && vpn2 == vpn then e else Leaf(s, r2, vpn2)
  }

  lemma PutLeaves(s: State, r: nat, vpn: nat, e: nat)
    requires PutOk(s, r, vpn, e)
    ensures LeavesBut(s, PutLeaf(s, r, vpn, e), r, vpn, e)
  {
    hide Entry, PutLeaf, Inv;
    forall r2: nat, vpn2: nat
      ensures Leaf(PutLeaf(s, r, vpn, e), r2, vpn2) == if r2 == r && vpn2 == vpn then e else Leaf(s, r2, vpn2)
    {
      SamePage(vpn, vpn2);
      PutEntries(s, r, vpn, e, Low(r2, vpn2 / ENTRIES), vpn2 % ENTRIES);
    }
  }

  lemma PutTabs(s: State, r: nat, vpn: nat, e: nat)
    requires PutOk(s, r, vpn, e)
    ensures FreeOk(PutLeaf(s, r, vpn, e)) && TabsOk(PutLeaf(s, r, vpn, e))
  {
    var s', was := PutLeaf(s, r, vpn, e), Leaf(s, r, vpn);
    assert TabOk(s, Low(r, vpn / ENTRIES));
    assert IsUser(s, r, vpn) ==> UserOk(s, r, vpn);
    hide Leaf, Entry;
    forall k | k in s'.tabs
      ensures TabOk(s', k)
    {
      assert TabOk(s, k);
    }
  }

  lemma PutLinks(s: State, r: nat, vpn: nat, e: nat)
    requires PutOk(s, r, vpn, e)
    ensures LinksOk(PutLeaf(s, r, vpn, e))
  {
    var s' := PutLeaf(s, r, vpn, e);
    hide Entry;
    forall k, i | k in s'.tabs && 0 <= i < ENTRIES
      ensures LinkOk(s', k, i)
    {
      PutEntries(s, r, vpn, e, k, i);
      assert LinkOk(s, k, i);
    }
  }

  lemma PutUsers(s: State, r: nat, vpn: nat, e: nat)
    requires PutOk(s, r, vpn, e)
    ensures UsersOk(PutLeaf(s, r, vpn, e))
  {
    var s' := PutLeaf(s, r, vpn, e);
    assert TabOk(s, Low(r, vpn / ENTRIES));
    assert IsUser(s, r, vpn) ==> UserOk(s, r, vpn);
    PutLeaves(s, r, vpn, e);
    hide Leaf, Entry;
    forall r2, vpn2: nat | r2 in s'.users && vpn2 >= USERTOP
      ensures HighOk(s', r2, vpn2)
    {
      assert HighOk(s, r2, vpn2);
    }
    forall r2, vpn2: nat | r2 in s'.users && vpn2 < USERTOP
      ensures UserOk(s', r2, vpn2)
    {
      assert UserOk(s, r2, vpn2);
    }
    forall f | f in s'.role
      ensures FrameOk(s', f)
    {
      assert f in s.role ==> FrameOk(s, f);
    }
  }

  lemma PutKeepsInv(s: State, r: nat, vpn: nat, e: nat)
    requires PutOk(s, r, vpn, e)
    ensures Inv(PutLeaf(s, r, vpn, e)) && LeavesBut(s, PutLeaf(s, r, vpn, e), r, vpn, e)
  {
    hide PutLeaf, PutOk, FreeOk, TabsOk, LinksOk, UsersOk, LeavesBut;
    PutTabs(s, r, vpn, e);
    PutLinks(s, r, vpn, e);
    PutUsers(s, r, vpn, e);
    PutLeaves(s, r, vpn, e);
  }

  ghost function Taken(s: State): (s': State)
    requires s.freelist != []
  {
    var f := s.freelist[0];
    s.(mem := s.mem[f := JunkPage(5)], freelist := s.freelist[1..], role := s.role[f := Used])
  }

  ghost function Released(s: State, f: nat): (s': State) {
    s.(mem := s.mem[f := JunkPage(1)], freelist := [f] + s.freelist, role := s.role[f := Free])
  }

  /** Steps on a frame that neither holds a table nor a user page keep all entries. */
  ghost predicate OnlyFrame(s: State, s': State, f: nat) {
    && s'.tabs == s.tabs && s'.users == s.users && f in s.role && f in s'.role && f in s.mem && f in s'.mem
    && !s.role[f].Tab? && !s.role[f].User? && !s'.role[f].Tab? && !s'.role[f].User?
    && (forall g :: g in s.role && g != f <==> g in s'.role && g != f)
    && (forall g :: g in s.mem && g != f <==> g in s'.mem && g != f)
    && (forall g :: g in s.role && g != f ==> s'.role[g] == s.role[g])
    && (forall g :: g in s.mem && g != f ==> s'.mem[g] == s.mem[g])
  }

  lemma OnlyFrameKeeps(s: State, s': State, f: nat)
    requires Inv(s) && OnlyFrame(s, s', f) && FreeOk(s')
    ensures Inv(s') && SameLeaves(s, s')
  {
    forall k, i: nat
      ensures Entry(s', k, i) == Entry(s, k, i)
      ensures k in s.tabs ==> TabOk(s', k)
    {
      assert k in s.tabs ==> TabOk(s, k);
    }
    assert SameLeaves(s, s');
    hide Entry, Leaf;
    forall k, i | k in s'.tabs && 0 <= i < ENTRIES
      ensures LinkOk(s', k, i)
    {
      assert LinkOk(s, k, i);
    }
    forall r, vpn: nat | r in s'.users && vpn >= USERTOP
      ensures HighOk(s', r, vpn)
    {
      assert HighOk(s, r, vpn);
    }
    forall r, vpn: nat | r in s'.users && vpn < USERTOP
      ensures UserOk(s', r, vpn)
    {
      assert UserOk(s, r, vpn);
    }
    forall g | g in s'.role
      ensures FrameOk(s', g)
    {
      assert FrameOk(s, g);
    }
  }

  lemma TakenKeepsInv(s: State)
    requires Inv(s) && s.freelist != []
    ensures Inv(Taken(s)) && SameLeaves(s, Taken(s)) && OnlyFrame(s, Taken(s), s.freelist[0])
    ensures s.freelist[0] != 0 && s.freelist[0] in s.role && s.role[s.freelist[0]].Free?
  {
    var f := s.freelist[0];
    assert f in s.freelist && f in s.role;
    TailMembers(s.freelist);
    OnlyFrameKeeps(s, Taken(s), f);
  }

  lemma ReleasedKeepsInv(s: State, f: nat)
    requires Inv(s) && f in s.role && s.role[f].Used?
    ensures Inv(Released(s, f)) && SameLeaves(s, Released(s, f)) && OnlyFrame(s, Released(s, f), f)
  {
    OnlyFrameKeeps(s, Released(s, f), f);
  }
}
