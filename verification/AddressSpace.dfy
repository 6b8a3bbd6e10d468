/** The life of an address space: its creation and the release of its pages and tables
    (riscv/kernel/vm.c:196-205, 286-318, riscv/kernel/proc.c:194-242). */
module AddressSpace {
  import opened PageTable
  import opened VirtualMemory
  import opened UserMemory

  function Depth(k: Key): (d: nat) { if k.Root? then 2 else if k.Mid? then 1 else 0 }

  /** k2 is k or a table below it. */
  ghost predicate Under(k2: Key, k: Key)
    decreases 2 - Depth(k2)
  {
    k2 == k || (!k2.Root? && Under(Parent(k2), k))
  }

  lemma {:induction false} UnderFacts(k2: Key, k: Key)
    requires Under(k2, k)
    ensures k2.root == k.root && Depth(k2) <= Depth(k)
    ensures Depth(k2) == Depth(k) ==> k2 == k
    decreases 2 - Depth(k2)
  {
    if k2 != k {
      UnderFacts(Parent(k2), k);
    }
  }

  lemma {:induction false} UnderChild(k2: Key, k: Key, i: nat)
    requires !k.Low? && i < ENTRIES && Under(k2, Child(k, i))
    ensures Under(k2, k) && k2 != k
    decreases 2 - Depth(k2)
  {
    ParentOfChild(k, i);
    UnderFacts(k2, Child(k, i));
    if k2 != Child(k, i) {
      UnderChild(Parent(k2), k, i);
    }
  }

  /** A table strictly under k is reached through an entry of k. */
  lemma {:induction false} ThroughChild(s: State, k: Key, k2: Key)
    requires TabsOk(s) && k2 in s.tabs && Under(k2, k)
    ensures k2 == k || (!k.Low? && exists i: nat :: i < ENTRIES && Child(k, i) in s.tabs)
    decreases 2 - Depth(k2)
  {
    if k2 != k {
      assert TabOk(s, k2);
      if Parent(k2) == k {
        ChildOfParent(k2);
        assert Child(k, Index(k2)) in s.tabs;
      } else {
        ThroughChild(s, k, Parent(k2));
      }
    }
  }

  /** The tables in gone are free; everything else is as before. */
  ghost predicate Cut(s: State, s': State, gone: set<Key>) {
    && s'.role.Keys == s.role.Keys && SameBytes(s, s', {}) && SameLeaves(s, s')
    && (forall k :: k in s'.tabs <==> k in s.tabs && k !in gone)
    && (forall k :: k in s'.tabs ==> s'.tabs[k] == s.tabs[k])
    && (forall f :: f in s.role ==>
          s'.role[f] == if s.role[f].Tab? && s.role[f].key in gone then Free else s.role[f])
  }

  lemma CutTrans(s: State, s1: State, s2: State, g1: set<Key>, g2: set<Key>)
    requires Cut(s, s1, g1) && Cut(s1, s2, g2)
    ensures Cut(s, s2, g1 + g2)
  {
    hide Leaf;
  }

  /** No page below k is mapped. */
  ghost predicate NoLeaves(s: State, k: Key) {
    forall v: nat :: Under(Low(k.root, v / ENTRIES), k) ==> Leaf(s, k.root, v) == 0
  }

  ghost predicate SameEntries(s: State, s': State, k: Key) {
    forall k2, i: nat :: !Under(k2, k) ==> Entry(s', k2, i) == Entry(s, k2, i)
  }

  /** Everything but the entry that points at k is in order. */
  ghost predicate InvBut(s: State, k: Key) {
    && FreeOk(s) && TabsOk(s) && UsersOk(s)
    && (forall k2, i :: k2 in s.tabs && 0 <= i < ENTRIES && (k2.Low? || Child(k2, i) != k) ==> LinkOk(s, k2, i))
  }

  ghost function Below(s: State, k: Key): (g: set<Key>) {
    set k2 | k2 in s.tabs && Under(k2, k)
  }

  /** The last step of freewalk: table k goes. */
  ghost function Pruned(s: State, k: Key): (s': State)
    requires k in s.tabs
  {
    State(s.mem[s.tabs[k] := JunkPage(1)], [s.tabs[k]] + s.freelist, s.tabs - {k}, s.role[s.tabs[k] := Free],
          if k.Root? then s.users - {k.root} else s.users)
  }

  ghost predicate PruneOk(s: State, k: Key) {
    && Inv(s) && k in s.tabs && (forall i :: 0 <= i < ENTRIES ==> Entry(s, k, i) == 0)
    && (!k.Low? ==> forall i :: 0 <= i < ENTRIES ==> Child(k, i) !in s.tabs)
  }

  lemma PrunedEntries(s: State, k: Key, k2: Key, i: nat)
    requires PruneOk(s, k)
    ensures Entry(Pruned(s, k), k2, i) == Entry(s, k2, i)
  {
    hide UsersOk, LinksOk, FreeOk;
    assert k2 in s.tabs ==> TabOk(s, k2);
    assert TabOk(s, k);
  }

  lemma PrunedTabs(s: State, k: Key)
    requires PruneOk(s, k)
    ensures FreeOk(Pruned(s, k)) && TabsOk(Pruned(s, k))
  {
    hide UsersOk, LinksOk, Entry;
    var s' := Pruned(s, k);
    assert TabOk(s, k);
    assert s.tabs[k] !in s.freelist;
    forall k2 | k2 in s'.tabs
      ensures TabOk(s', k2)
    {
      assert TabOk(s, k2);
      if !k2.Root? {
        ChildOfParent(k2);
      }
    }
  }

  lemma PrunedUsers(s: State, k: Key)
    requires PruneOk(s, k) && NoLeaves(s, k)
    ensures UsersOk(Pruned(s, k)) && SameLeaves(s, Pruned(s, k))
  {
    var s' := Pruned(s, k);
    assert TabOk(s, k);
    forall r: nat, v: nat
      ensures Leaf(s', r, v) == Leaf(s, r, v)
    {
      PrunedEntries(s, k, Low(r, v / ENTRIES), v % ENTRIES);
    }
    NoUserFrames(s, k);
    hide Leaf, Entry, LinksOk;
    forall r, v: nat | r in s'.users && v < USERTOP
      ensures UserOk(s', r, v)
    {
      assert UserOk(s, r, v);
    }
    forall r, v: nat | r in s'.users && v >= USERTOP
      ensures HighOk(s', r, v)
    {
      assert HighOk(s, r, v);
    }
    forall f | f in s'.role
      ensures FrameOk(s', f)
    {
      assert FrameOk(s, f);
    }
  }

  lemma NoUserFrames(s: State, k: Key)
    requires Inv(s) && NoLeaves(s, k)
    ensures k.Root? ==> forall f :: f in s.role && s.role[f].User? ==> s.role[f].root != k.root
  {
    hide Leaf, Inv;
    forall f | k.Root? && f in s.role && s.role[f].User? && s.role[f].root == k.root
      ensures false
    {
      UserFrame(s, k.root, s.role[f].vpn, f);
      LowUnderRoot(k.root, s.role[f].vpn / ENTRIES);
    }
  }

  lemma LowUnderRoot(r: nat, j: nat)
    ensures Under(Low(r, j), Root(r))
  {
    assert Under(Parent(Parent(Low(r, j))), Root(r));
  }

  lemma PrunedKeeps(s: State, k: Key)
    requires PruneOk(s, k) && NoLeaves(s, k)
    ensures InvBut(Pruned(s, k), k) && Cut(s, Pruned(s, k), {k}) && SameEntries(s, Pruned(s, k), k)
  {
    hide Entry, UsersOk, Leaf, FreeOk, TabsOk, Cut, Pruned, NoLeaves;
    var s' := Pruned(s, k);
    PrunedTabs(s, k);
    PrunedUsers(s, k);
    PrunedCut(s, k);
    forall k2, i: nat
      ensures Entry(s', k2, i) == Entry(s, k2, i)
    {
      PrunedEntries(s, k, k2, i);
    }
    forall k2, i | k2 in s'.tabs && 0 <= i < ENTRIES && (k2.Low? || Child(k2, i) != k)
      ensures LinkOk(s', k2, i)
    {
      PrunedLink(s, k, k2, i);
    }
  }

  lemma PrunedLink(s: State, k: Key, k2: Key, i: nat)
    requires PruneOk(s, k) && k2 in Pruned(s, k).tabs && i < ENTRIES && (k2.Low? || Child(k2, i) != k)
    requires Entry(Pruned(s, k), k2, i) == Entry(s, k2, i)
    ensures LinkOk(Pruned(s, k), k2, i)
  {
    hide Entry, UsersOk, Leaf, FreeOk, TabsOk;
    assert LinkOk(s, k2, i);
  }

  lemma PrunedCut(s: State, k: Key)
    requires PruneOk(s, k) && SameLeaves(s, Pruned(s, k))
    ensures Cut(s, Pruned(s, k), {k})
  {
    hide Entry, UsersOk, Leaf, SameLeaves, LinksOk;
    var s' := Pruned(s, k);
    assert TabOk(s, k);
    assert s'.role.Keys == s.role.Keys;
  }

  /** The dangling entry is cleared. */
  ghost function Cleared(s: State, k: Key, i: nat): (s': State)
    requires k in s.tabs && IsTable(s, s.tabs[k]) && i < ENTRIES
  {
    s.(mem := SetPte(s.mem, s.tabs[k], i, 0))
  }

  lemma ClearedKeeps(s: State, k: Key, i: nat)
    requires !k.Low? && k in s.tabs && IsTable(s, s.tabs[k]) && i < ENTRIES
    requires InvBut(s, Child(k, i)) && Child(k, i) !in s.tabs
    ensures Inv(Cleared(s, k, i)) && Cut(s, Cleared(s, k, i), {}) && SameEntries(s, Cleared(s, k, i), k)
    ensures Cleared(s, k, i).tabs == s.tabs && Cleared(s, k, i).users == s.users
  {
    hide Leaf, UsersOk, FreeOk, LinksOk, LinkOk, Entry, Cut, SameEntries, TabsOk;
    ClearedTabs(s, k, i);
    ClearedLeaves(s, k, i);
    ClearedUsers(s, k, i);
    ClearedCut(s, k, i);
    ClearedLinks(s, k, i);
  }

  lemma ClearedLeaves(s: State, k: Key, i: nat)
    requires !k.Low? && k in s.tabs && IsTable(s, s.tabs[k]) && i < ENTRIES
    requires forall k2, i2: nat :: Entry(Cleared(s, k, i), k2, i2) == if k2 == k && i2 == i then 0 else Entry(s, k2, i2)
    ensures SameLeaves(s, Cleared(s, k, i)) && SameEntries(s, Cleared(s, k, i), k)
  {
    hide Entry;
    assert Under(k, k);
  }

  lemma ClearedCut(s: State, k: Key, i: nat)
    requires k in s.tabs && IsTable(s, s.tabs[k]) && i < ENTRIES
    requires SameLeaves(s, Cleared(s, k, i)) && SameBytes(s, Cleared(s, k, i), {})
    ensures Cut(s, Cleared(s, k, i), {}) && Cleared(s, k, i).tabs == s.tabs
  {
    hide SameLeaves, SameBytes;
  }

  lemma ClearedTabs(s: State, k: Key, i: nat)
    requires k in s.tabs && IsTable(s, s.tabs[k]) && i < ENTRIES && FreeOk(s) && TabsOk(s)
    ensures var s' := Cleared(s, k, i);
            && FreeOk(s') && TabsOk(s')
            && forall k2, i2: nat :: Entry(s', k2, i2) == if k2 == k && i2 == i then 0 else Entry(s, k2, i2)
  {
    hide Leaf;
    var s' := Cleared(s, k, i);
    assert TabOk(s, k);
    forall k2 | k2 in s.tabs
      ensures TabOk(s', k2)
    {
      assert TabOk(s, k2);
    }
    forall k2, i2: nat
      ensures Entry(s', k2, i2) == if k2 == k && i2 == i then 0 else Entry(s, k2, i2)
    {
      assert k2 in s.tabs ==> TabOk(s, k2);
    }
  }

  lemma ClearedLinks(s: State, k: Key, i: nat)
    requires !k.Low? && k in s.tabs && IsTable(s, s.tabs[k]) && i < ENTRIES
    requires InvBut(s, Child(k, i)) && Child(k, i) !in s.tabs
    requires forall k2, i2: nat :: Entry(Cleared(s, k, i), k2, i2) == if k2 == k && i2 == i then 0 else Entry(s, k2, i2)
    ensures LinksOk(Cleared(s, k, i))
  {
    hide Entry, Leaf, UsersOk, FreeOk, TabsOk;
    var s' := Cleared(s, k, i);
    forall k2, i2 | k2 in s'.tabs && 0 <= i2 < ENTRIES
      ensures LinkOk(s', k2, i2)
    {
      if !(k2 == k && i2 == i) {
        if !k2.Low? {
          ParentOfChild(k2, i2);
        }
        ParentOfChild(k, i);
        assert LinkOk(s, k2, i2);
      }
    }
  }

  lemma ClearedUsers(s: State, k: Key, i: nat)
    requires !k.Low? && k in s.tabs && IsTable(s, s.tabs[k]) && i < ENTRIES
    requires FreeOk(s) && TabsOk(s) && UsersOk(s) && SameLeaves(s, Cleared(s, k, i))
    ensures UsersOk(Cleared(s, k, i)) && SameBytes(s, Cleared(s, k, i), {})
  {
    var s' := Cleared(s, k, i);
    assert TabOk(s, k);
    hide Entry, Leaf, Valid, Ppn;
    forall r, v: nat | r in s'.users && v < USERTOP
      ensures UserOk(s', r, v)
    {
      assert UserOk(s, r, v);
    }
    forall r, v: nat | r in s'.users && v >= USERTOP
      ensures HighOk(s', r, v)
    {
      assert HighOk(s, r, v);
    }
    forall f | f in s'.role
      ensures FrameOk(s', f)
    {
      assert FrameOk(s, f);
    }
  }

  /** What freewalk finds in an entry: a table to descend into, or nothing, and never a leaf. */
  lemma FreewalkEntry(s: State, k: Key, i: nat)
    requires Inv(s) && k in s.tabs && NoLeaves(s, k) && i < ENTRIES
    ensures IsTable(s, s.tabs[k]) && s.mem[s.tabs[k]].ptes[i] == Entry(s, k, i)
    ensures var e := Entry(s, k, i);
            if Valid(e) then
              && e / 2 % 8 == 0 && !k.Low? && Child(k, i) in s.tabs && Ppn(e) == s.tabs[Child(k, i)]
              && NoLeaves(s, Child(k, i)) && Depth(Child(k, i)) < Depth(k)
            else e == 0
  {
    assert TabOk(s, k) && LinkOk(s, k, i);
    if k.Low? {
      assert (k.j * ENTRIES + i) / ENTRIES == k.j && (k.j * ENTRIES + i) % ENTRIES == i;
      assert Under(Low(k.root, (k.j * ENTRIES + i) / ENTRIES), k);
      assert Leaf(s, k.root, k.j * ENTRIES + i) == 0;
    } else {
      NoLeavesChild(s, k, i);
      if Child(k, i) in s.tabs {
        PteParts(s.tabs[Child(k, i)], V);
        TablePte(s.tabs[Child(k, i)]);
      }
    }
  }

  lemma TablePte(f: nat)
    ensures Pte(f, V) / 2 % 8 == 0 && Valid(Pte(f, V))
  {
    assert Pte(f, V) / 2 == 512 * f;
  }

  lemma NoLeavesChild(s: State, k: Key, i: nat)
    requires NoLeaves(s, k) && !k.Low? && i < ENTRIES
    ensures NoLeaves(s, Child(k, i))
  {
    hide Leaf;
    forall v: nat | Under(Low(k.root, v / ENTRIES), Child(k, i))
      ensures Leaf(s, k.root, v) == 0
    {
      UnderChild(Low(k.root, v / ENTRIES), k, i);
    }
  }

  /** Progress of the loop of freewalk over the first i entries of table k. */
  ghost predicate Walked(s: State, s': State, k: Key, i: nat, gone: set<Key>) {
    && Inv(s') && k in s.tabs && k in s'.tabs && s'.users == s.users
    && gone <= Below(s, k) - {k} && Cut(s, s', gone) && SameEntries(s, s', k)
    && (forall j: nat :: j < i && j < ENTRIES ==> Entry(s', k, j) == 0)
  }

  lemma WalkedChild(s: State, s1: State, s2: State, k: Key, i: nat, gone: set<Key>)
    requires Walked(s, s1, k, i, gone) && !k.Low? && i < ENTRIES && Child(k, i) in s1.tabs
    requires InvBut(s2, Child(k, i)) && Cut(s1, s2, Below(s1, Child(k, i))) && SameEntries(s1, s2, Child(k, i))
    requires s2.users == s1.users
    ensures k in s2.tabs && IsTable(s2, s2.tabs[k]) && s2.tabs[k] == s1.tabs[k]
    ensures Walked(s, Cleared(s2, k, i), k, i + 1, gone + Below(s1, Child(k, i)))
  {
    hide Leaf, Entry, Inv, InvBut, Cut, Below, Cleared, SameEntries;
    var c := Child(k, i);
    ChildFacts(s, s1, s2, k, i, gone);
    ClearedKeeps(s2, k, i);
    CutTrans(s, s1, s2, gone, Below(s1, c));
    CutTrans(s, s2, Cleared(s2, k, i), gone + Below(s1, c), {});
    assert gone + Below(s1, c) + {} == gone + Below(s1, c);
    WalkedEntries(s, s1, s2, Cleared(s2, k, i), k, i);
  }

  lemma ChildFacts(s: State, s1: State, s2: State, k: Key, i: nat, gone: set<Key>)
    requires Walked(s, s1, k, i, gone) && !k.Low? && i < ENTRIES && Child(k, i) in s1.tabs
    requires InvBut(s2, Child(k, i)) && Cut(s1, s2, Below(s1, Child(k, i)))
    ensures k in s2.tabs && IsTable(s2, s2.tabs[k]) && s2.tabs[k] == s1.tabs[k]
    ensures Child(k, i) !in s2.tabs && !Under(k, Child(k, i)) && Below(s1, Child(k, i)) <= Below(s, k) - {k}
  {
    hide Leaf, Entry, Inv, UsersOk, FreeOk, LinksOk, SameBytes, SameLeaves, SameEntries;
    var c := Child(k, i);
    NotUnderChild(k, i);
    assert Under(c, c);
    assert TabOk(s2, k);
    forall k2 | k2 in Below(s1, c)
      ensures k2 in Below(s, k) - {k}
    {
      UnderChild(k2, k, i);
    }
  }

  lemma NotUnderChild(k: Key, i: nat)
    requires !k.Low? && i < ENTRIES
    ensures !Under(k, Child(k, i))
  {
    if Under(k, Child(k, i)) {
      UnderFacts(k, Child(k, i));
      assert false;
    }
  }

  lemma WalkedEntries(s: State, s1: State, s2: State, s3: State, k: Key, i: nat)
    requires !k.Low? && i < ENTRIES && !Under(k, Child(k, i))
    requires SameEntries(s, s1, k) && SameEntries(s1, s2, Child(k, i)) && SameEntries(s2, s3, k)
    requires forall j: nat :: j < i ==> Entry(s1, k, j) == 0
    requires k in s2.tabs && IsTable(s2, s2.tabs[k]) && s3 == Cleared(s2, k, i)
    ensures SameEntries(s, s3, k)
    ensures forall j: nat :: j < i + 1 && j < ENTRIES ==> Entry(s3, k, j) == 0
  {
    forall k2, j: nat | !Under(k2, k)
      ensures Entry(s3, k2, j) == Entry(s, k2, j)
    {
      if Under(k2, Child(k, i)) {
        UnderChild(k2, k, i);
        assert false;
      }
    }
    forall j: nat | j < i + 1 && j < ENTRIES
      ensures Entry(s3, k, j) == 0
    {
      assert j < i ==> Entry(s2, k, j) == Entry(s1, k, j);
    }
  }

  lemma WalkedAll(s: State, s': State, k: Key, gone: set<Key>)
    requires Walked(s, s', k, ENTRIES, gone)
    ensures PruneOk(s', k) && gone + {k} == Below(s, k)
  {
    hide Leaf, Entry, UsersOk, FreeOk;
    if !k.Low? {
      forall i: nat | i < ENTRIES
        ensures Child(k, i) !in s'.tabs
      {
        assert LinkOk(s', k, i);
      }
    }
    forall k2 | k2 in Below(s, k)
      ensures k2 in gone + {k}
    {
      if k2 in s'.tabs {
        ThroughChild(s', k, k2);
      }
    }
    assert Under(k, k);
  }

  /** Frees table t, which is k, and the tables below it; all leaf mappings must be gone already. */
  method Freewalk(vm: Vm, t: nat, ghost k: Key)
    requires Inv(vm.S()) && k in vm.tabs && vm.tabs[k] == t && NoLeaves(vm.S(), k)
    modifies vm
    ensures InvBut(vm.S(), k) && Cut(old(vm.S()), vm.S(), Below(old(vm.S()), k)) && SameEntries(old(vm.S()), vm.S(), k)
    ensures vm.users == if k.Root? then old(vm.users) - {k.root} else old(vm.users)
    decreases Depth(k)
  {
    hide Inv, NoLeaves, InvBut, Cut, SameEntries, Below, Walked, Entry, Leaf, Cleared, Pruned, PruneOk, Valid, Ppn;
    ghost var s0 := vm.S();
    ghost var gone: set<Key> := {};
    WalkedNone(s0, k);
    var i := 0;
    while i < 512
      invariant 0 <= i <= 512 && Walked(s0, vm.S(), k, i, gone) && k in vm.tabs && vm.tabs[k] == t
      invariant Inv(vm.S()) && NoLeaves(vm.S(), k) && vm.users == s0.users
    {
      FreewalkEntry(vm.S(), k, i);
      var pte := vm.mem[t].ptes[i];
      if Valid(pte) && pte / 2 % 8 == 0 {
        var child := Ppn(pte);
        ghost var s1 := vm.S();
        Freewalk(vm, child, Child(k, i));
        ghost var s2 := vm.S();
        WalkedChild(s0, s1, s2, k, i, gone);
        gone := gone + Below(s1, Child(k, i));
        ClearedIs(s2, k, i);
        vm.mem := SetPte(vm.mem, t, i, 0);
        WalkedFacts(s0, vm.S(), k, i + 1, gone);
      } else if Valid(pte) {
        assert false;
      } else {
        WalkedSkip(s0, vm.S(), k, i, gone);
      }
      i := i + 1;
    }
    WalkedAll(s0, vm.S(), k, gone);
    ghost var s3 := vm.S();
    PrunedKeeps(s3, k);
    PrunedIs(s3, k);
    CutLast(s0, s3, Pruned(s3, k), k, gone);
    vm.Kfree(t);
    vm.tabs := vm.tabs - {k};
    vm.users := if k.Root? then vm.users - {k.root} else vm.users;
  }

  lemma WalkedNone(s: State, k: Key)
    requires Inv(s) && k in s.tabs
    ensures Walked(s, s, k, 0, {})
  {
    hide Leaf, Entry;
  }

  lemma WalkedSkip(s: State, s': State, k: Key, i: nat, gone: set<Key>)
    requires Walked(s, s', k, i, gone) && Entry(s', k, i) == 0
    ensures Walked(s, s', k, i + 1, gone)
  {
    hide Leaf, Entry, Inv;
  }

  lemma WalkedFacts(s: State, s': State, k: Key, i: nat, gone: set<Key>)
    requires Walked(s, s', k, i, gone) && NoLeaves(s, k)
    ensures Inv(s') && k in s'.tabs && s'.users == s.users && NoLeaves(s', k) && s'.tabs[k] == s.tabs[k]
  {
    hide Leaf, Entry, Inv;
  }

  lemma ClearedIs(s: State, k: Key, i: nat)
    requires k in s.tabs && IsTable(s, s.tabs[k]) && i < ENTRIES
    ensures Cleared(s, k, i) == State(SetPte(s.mem, s.tabs[k], i, 0), s.freelist, s.tabs, s.role, s.users)
  {
  }

  lemma PrunedIs(s: State, k: Key)
    requires k in s.tabs && Inv(s)
    ensures var t := s.tabs[k];
            && t in s.role
            && Pruned(s, k) == State(s.mem[t := JunkPage(1)], [t] + s.freelist, s.tabs - {k}, s.role[t := Free],
                                     if k.Root? then s.users - {k.root} else s.users)
  {
    assert TabOk(s, k);
  }

  lemma CutLast(s: State, s1: State, s2: State, k: Key, gone: set<Key>)
    requires Walked(s, s1, k, ENTRIES, gone) && Cut(s1, s2, {k}) && SameEntries(s1, s2, k) && gone + {k} == Below(s, k)
    ensures Cut(s, s2, Below(s, k)) && SameEntries(s, s2, k)
  {
    hide Leaf, Entry, Inv;
    CutTrans(s, s1, s2, gone, {k});
  }

  // Creation

  /** The free frame f becomes the root table of a new user address space. */
  ghost function Created(s: State): (s': State)
    requires s.freelist != []
  {
    var f := s.freelist[0];
    State(s.mem[f := ZeroTable()], s.freelist[1..], s.tabs[Root(f) := f], s.role[f := Tab(Root(f))], s.users + {f})
  }

  /** Nothing is known as the address space f before its root table exists. */
  lemma {:induction false} NoTables(s: State, k: Key)
    requires TabsOk(s) && Root(k.root) !in s.tabs
    ensures k !in s.tabs
    decreases 2 - Depth(k)
  {
    if !k.Root? {
      NoTables(s, Parent(k));
      assert k in s.tabs ==> TabOk(s, k);
    }
  }

  lemma CreatedFacts(s: State)
    requires Inv(s) && s.freelist != []
    ensures var f := s.freelist[0];
            && f in s.role && s.role[f].Free? && f != 0 && Root(f) !in s.tabs && f !in s.users
            && (forall k: Key :: k.root == f ==> k !in s.tabs)
            && (forall v: nat :: Leaf(s, f, v) == 0)
            && (forall g :: g in s.role ==> !Names(s.role[g], f))
  {
    var f := s.freelist[0];
    assert f in s.freelist;
    assert Root(f) in s.tabs ==> TabOk(s, Root(f));
    forall k: Key | k.root == f
      ensures k !in s.tabs
    {
      NoTables(s, k);
    }
    forall g | g in s.role
      ensures !Names(s.role[g], f)
    {
      assert FrameOk(s, g);
    }
  }

  lemma CreatedTabs(s: State)
    requires Inv(s) && s.freelist != []
    ensures FreeOk(Created(s)) && TabsOk(Created(s))
  {
    hide Leaf, UsersOk, LinksOk;
    CreatedFacts(s);
    TailMembers(s.freelist);
    var s' := Created(s);
    forall k | k in s'.tabs
      ensures TabOk(s', k)
    {
      assert k in s.tabs ==> TabOk(s, k);
    }
  }

  lemma CreatedEntries(s: State, k: Key, i: nat)
    requires Inv(s) && s.freelist != []
    ensures Entry(Created(s), k, i) == Entry(s, k, i)
  {
    hide Leaf, UsersOk, LinksOk;
    CreatedFacts(s);
    assert k in s.tabs ==> TabOk(s, k);
  }

  lemma CreatedLinks(s: State)
    requires Inv(s) && s.freelist != []
    ensures LinksOk(Created(s)) && SameLeaves(s, Created(s))
  {
    hide Entry, FreeOk, UsersOk, TabsOk;
    var s', f := Created(s), s.freelist[0];
    CreatedFacts(s);
    forall k, i: nat
      ensures Entry(s', k, i) == Entry(s, k, i)
    {
      CreatedEntries(s, k, i);
    }
    NoEntries(s, Root(f));
    forall k, i | k in s'.tabs && 0 <= i < ENTRIES
      ensures LinkOk(s', k, i)
    {
      if k != Root(f) {
        assert LinkOk(s, k, i);
      }
    }
  }

  lemma NoEntries(s: State, k: Key)
    requires k !in s.tabs
    ensures forall i :: Entry(s, k, i) == 0
  {
  }

  lemma CreatedUsers(s: State)
    requires Inv(s) && s.freelist != [] && SameLeaves(s, Created(s))
    ensures UsersOk(Created(s)) && SameBytes(s, Created(s), {}) && Touches(s, Created(s), s.freelist[0])
  {
    hide Leaf, TabsOk, LinksOk;
    CreatedFacts(s);
    var s', f := Created(s), s.freelist[0];
    assert s'.role.Keys == s.role.Keys;
    forall r, v: nat | r in s'.users && v < USERTOP
      ensures UserOk(s', r, v)
    {
      assert r != f ==> UserOk(s, r, v);
    }
    forall r, v: nat | r in s'.users && v >= USERTOP
      ensures HighOk(s', r, v)
    {
      assert r != f ==> HighOk(s, r, v);
    }
    forall g | g in s'.role
      ensures FrameOk(s', g)
    {
      assert FrameOk(s, g);
    }
  }

  lemma CreatedKeepsInv(s: State)
    requires Inv(s) && s.freelist != []
    ensures Inv(Created(s)) && SameLeaves(s, Created(s)) && SameBytes(s, Created(s), {})
    ensures Touches(s, Created(s), s.freelist[0])
  {
    hide FreeOk, TabsOk, LinksOk, UsersOk, Created, Touches, SameBytes, SameLeaves;
    CreatedTabs(s);
    CreatedLinks(s);
    CreatedUsers(s);
  }

  /** A new empty address space; 0 if there is no memory. */
  method Uvmcreate(vm: Vm) returns (r: nat)
    requires Inv(vm.S())
    modifies vm
    ensures Inv(vm.S())
    ensures r == 0 ==> old(vm.freelist) == [] && vm.S() == old(vm.S())
    ensures r != 0 ==> old(vm.freelist) != [] && r == old(vm.freelist)[0] && vm.S() == Created(old(vm.S()))
  {
    hide Inv, Created, Taken;
    ghost var s := vm.S();
    if vm.freelist != [] {
      CreatedFacts(s);
      CreatedKeepsInv(s);
    }
    r := vm.Kalloc();
    if r == 0 {
      return;
    }
    CreatedIs(s);
    vm.mem := vm.mem[r := ZeroTable()];
    vm.tabs := vm.tabs[Root(r) := r];
    vm.role := vm.role[r := Tab(Root(r))];
    vm.users := vm.users + {r};
  }

  lemma CreatedIs(s: State)
    requires s.freelist != []
    ensures var f, t := s.freelist[0], Taken(s);
            Created(s) == State(t.mem[f := ZeroTable()], t.freelist, t.tabs[Root(f) := f], t.role[f := Tab(Root(f))],
                t.users + {f})
  {
  }

  // Release

  /** Every frame that belonged to r is free, and all else is as before. */
  ghost predicate Vacated(s: State, s': State, r: nat) {
    && s'.role.Keys == s.role.Keys && s'.users == s.users - {r} && SameBytes(s, s', {})
    && (forall f :: f in s.role ==> s'.role[f] == if Names(s.role[f], r) then Free else s.role[f])
    && (forall r2: nat, v: nat :: Leaf(s', r2, v) == if r2 == r then 0 else Leaf(s, r2, v))
    && (forall k: Key :: k in s'.tabs <==> k in s.tabs && k.root != r)
  }

  /** Pages of r are mapped only below sz, apart from the two at the top. */
  ghost predicate Confined(s: State, r: nat, sz: nat, top: nat) {
    forall v: nat :: Valid(Leaf(s, r, v)) ==> v < Pages(sz) || USERTOP <= v < USERTOP + top
  }

  /** Frees the user pages below sz, then the tables. */
  method Uvmfree(vm: Vm, r: nat, sz: nat)
    requires Inv(vm.S()) && r in vm.users && sz <= TRAPFRAME && Confined(vm.S(), r, sz, 0)
    modifies vm
    ensures Inv(vm.S()) && Vacated(old(vm.S()), vm.S(), r)
  {
    hide Inv, Unmapped, Confined, Vacated, NoLeaves, Cut, InvBut, SameEntries, Below;
    ghost var s0 := vm.S();
    UserRoot(s0, r);
    UnmapNone(s0, r, 0, Free);
    if sz > 0 {
      assert PgRoundUp(sz) / PGSIZE == Pages(sz);
      vm.Uvmunmap(r, 0, PgRoundUp(sz) / PGSIZE, true);
    } else {
      assert Pages(sz) == 0;
    }
    ghost var s1 := vm.S();
    AllUnmapped(s0, s1, r, sz);
    Freewalk(vm, r, Root(r));
    VacatedAll(s0, s1, vm.S(), r, sz);
  }

  lemma AllUnmapped(s: State, s1: State, r: nat, sz: nat)
    requires Inv(s) && Inv(s1) && Confined(s, r, sz, 0) && Unmapped(s, s1, r, 0, Pages(sz), Free) && Root(r) in s.tabs
    ensures NoLeaves(s1, Root(r)) && Root(r) in s1.tabs && s1.tabs[Root(r)] == r
    ensures forall v: nat :: Leaf(s1, r, v) == 0
  {
    hide Leaf, Inv, Valid;
    RootFrame(s1, r);
    forall v: nat
      ensures Leaf(s1, r, v) == 0
    {
      LeafOrZero(s, r, v);
    }
  }

  lemma {:induction false} UnderRoot(k: Key)
    ensures Under(k, Root(k.root))
    decreases 2 - Depth(k)
  {
    if !k.Root? {
      UnderRoot(Parent(k));
    }
  }

  lemma VacatedAll(s: State, s1: State, s2: State, r: nat, sz: nat)
    requires Inv(s) && Confined(s, r, sz, 0) && Unmapped(s, s1, r, 0, Pages(sz), Free) && Inv(s1)
    requires (forall v: nat :: Leaf(s1, r, v) == 0)
    requires InvBut(s2, Root(r)) && Cut(s1, s2, Below(s1, Root(r))) && s2.users == s1.users - {r}
    ensures Inv(s2) && Vacated(s, s2, r)
  {
    hide Leaf, Valid, FreeOk, UsersOk, TabsOk;
    forall k: Key
      ensures Under(k, Root(r)) <==> k.root == r
    {
      UnderRoot(k);
      if Under(k, Root(r)) {
        UnderFacts(k, Root(r));
      }
    }
    VacatedRoles(s, s1, s2, r, sz);
  }

  lemma VacatedRoles(s: State, s1: State, s2: State, r: nat, sz: nat)
    requires Inv(s) && Confined(s, r, sz, 0) && Unmapped(s, s1, r, 0, Pages(sz), Free) && Inv(s1)
    requires Cut(s1, s2, Below(s1, Root(r))) && forall k: Key :: Under(k, Root(r)) <==> k.root == r
    ensures forall f :: f in s.role ==> f in s2.role && s2.role[f] == if Names(s.role[f], r) then Free else s.role[f]
  {
    hide Leaf, Valid, FreeOk, UsersOk, LinksOk, Inv, ClearedRange, SameBytes, SameLeaves, Under;
    forall f | f in s.role
      ensures s2.role[f] == if Names(s.role[f], r) then Free else s.role[f]
    {
      if s.role[f].User? && s.role[f].root == r {
        UserFrame(s, r, s.role[f].vpn, f);
      }
      if s1.role[f].Tab? {
        TabFrame(s1, f);
      }
    }
  }

  lemma TabFrame(s: State, f: nat)
    requires Inv(s) && f in s.role && s.role[f].Tab?
    ensures s.role[f].key in s.tabs
  {
  }

  // The address space of a process

  /** Only the two pages at the top of r are mapped, and nothing else has changed. */
  ghost predicate TopMapped(s: State, s': State, r: nat, trampoline: nat, trapframe: nat) {
    forall r2: nat, v: nat :: Leaf(s', r2, v) ==
      if r2 == r && v == USERTOP + 1 then Pte(trampoline, V + R + X)
      else if r2 == r && v == USERTOP then Pte(trapframe, V + R + W)
      else Leaf(s, r2, v)
  }

  ghost predicate NoneNames(s: State, r: nat) {
    forall f :: f in s.role ==> !Names(s.role[f], r)
  }

  /** A page table for a process: only the trampoline and its trap frame are mapped; 0 if there is no memory. */
  method ProcPagetable(vm: Vm, trampoline: nat, trapframe: nat) returns (r: nat)
    requires Inv(vm.S())
    modifies vm
    ensures Inv(vm.S())
    ensures r != 0 ==> r !in old(vm.users) && vm.users == old(vm.users) + {r} && NoneNames(old(vm.S()), r)
    ensures r != 0 ==> Touches(old(vm.S()), vm.S(), r) && SameBytes(old(vm.S()), vm.S(), {})
    ensures r != 0 ==> TopMapped(old(vm.S()), vm.S(), r, trampoline / PGSIZE, trapframe / PGSIZE)
    ensures r == 0 ==> |old(vm.freelist)| < 3
    ensures r == 0 ==> vm.role == old(vm.role) && vm.users == old(vm.users) && SameLeaves(old(vm.S()), vm.S())
  {
    hide Inv, Created, Touches, SameBytes, SameLeaves, TopMapped, MappedRange, TakesBut, MapOk, Confined, Vacated, Leaf,
         NoneNames, WithV, HasU;
    ghost var s0 := vm.S();
    NothingChanged(s0);
    r := Uvmcreate(vm);
    if r == 0 {
      return;
    }
    ghost var s1 := vm.S();
    CreatedRoot(s0);
    MapOkHigh(s0, s1, r, USERTOP + 1, trampoline / PGSIZE, R + X);
    var ok, done := vm.Mappages(r, TRAMPOLINE, PGSIZE, trampoline, R + X);
    ghost var s2 := vm.S();
    if ok < 0 {
      FirstFailed(s0, s1, s2, r, trampoline / PGSIZE);
      Uvmfree(vm, r, 0);
      Undone(s0, s1, s2, vm.S(), r, trampoline / PGSIZE);
      return 0;
    }
    MapOkSecond(s0, s1, s2, r, trampoline / PGSIZE, trapframe / PGSIZE);
    ok, done := vm.Mappages(r, TRAPFRAME, PGSIZE, trapframe, R + W);
    if ok < 0 {
      // Both pages are in the same level-0 table, so the second one needs no memory.
      assert false;
    }
    BothMapped(s0, s1, s2, vm.S(), r, trampoline / PGSIZE, trapframe / PGSIZE);
  }

  lemma NothingChanged(s: State)
    ensures SameLeaves(s, s)
  {
  }

  lemma CreatedRoot(s: State)
    requires Inv(s) && s.freelist != []
    ensures var f, s' := s.freelist[0], Created(s);
            && Root(f) in s'.tabs && f in s'.users && s'.users == s.users + {f} && f !in s.users
            && |s'.freelist| == |s.freelist| - 1 && NoneNames(s, f)
            && SameLeaves(s, s') && (forall v: nat :: Leaf(s', f, v) == 0) && SameBytes(s, s', {}) && Touches(s, s', f)
  {
    CreatedFacts(s);
    CreatedKeepsInv(s);
    hide Leaf, Inv;
  }

  lemma MapOkHigh(s0: State, s: State, r: nat, vpn: nat, f: nat, perm: nat)
    requires (forall v: nat :: Leaf(s, r, v) == 0) && vpn >= USERTOP && perm == R + X
    ensures MapOk(s, r, vpn, 1, f, perm)
  {
    hide Leaf;
  }

  lemma FirstFailed(s: State, s1: State, s2: State, r: nat, f: nat)
    requires (forall v: nat :: Leaf(s1, r, v) == 0) && MappedRange(s1, s2, r, USERTOP + 1, 0, f, WithV(R + X))
    ensures Confined(s2, r, 0, 0)
  {
    hide Leaf;
  }

  lemma Undone(s: State, s1: State, s2: State, s3: State, r: nat, f: nat)
    requires Inv(s) && r !in s.users && s1.users == s.users + {r} && NoneNames(s, r)
    requires SameLeaves(s, s1) && (forall v: nat :: Leaf(s1, r, v) == 0) && Touches(s, s1, r)
    requires MappedRange(s1, s2, r, USERTOP + 1, 0, f, WithV(R + X)) && TakesBut(s1, s2, r, f, 0)
    requires Vacated(s2, s3, r)
    ensures s3.role == s.role && s3.users == s.users && SameLeaves(s, s3)
  {
    hide Leaf, Inv, SameBytes;
    assert s3.role.Keys == s.role.Keys;
    forall g | g in s.role
      ensures s3.role[g] == s.role[g]
    {
    }
  }

  lemma MapOkSecond(s: State, s1: State, s2: State, r: nat, tramp: nat, trap: nat)
    requires (forall v: nat :: Leaf(s1, r, v) == 0) && MappedRange(s1, s2, r, USERTOP + 1, 1, tramp, WithV(R + X))
    ensures MapOk(s2, r, USERTOP, 1, trap, R + W)
  {
    hide Leaf;
  }

  /** A page above user memory takes no frame. */
  lemma HighTakes(s: State, s': State, r: nat, vpn: nat, f: nat, flags: nat)
    requires Inv(s) && Inv(s') && MappedRange(s, s', r, vpn, 1, f, flags) && vpn >= USERTOP && TakesBut(s, s', r, f, 1)
    requires forall v: nat :: v < USERTOP ==> Leaf(s, r, v) == 0
    ensures Touches(s, s', r) && SameDataRoles(s, s')
    ensures forall v: nat :: v < USERTOP ==> Leaf(s', r, v) == 0
  {
    hide Leaf, Inv;
    forall g | g in s'.role && s'.role[g].User? && s'.role[g].root == r
      ensures false
    {
      UserFrame(s', r, s'.role[g].vpn, g);
    }
  }

  ghost predicate SameDataRoles(s: State, s': State) {
    forall f :: f in s.role && f in s'.role && IsDataRole(s'.role[f]) ==> IsDataRole(s.role[f])
  }

  lemma TouchesTrans(s: State, s1: State, s2: State, r: nat)
    requires Touches(s, s1, r) && Touches(s1, s2, r)
    ensures Touches(s, s2, r)
  {
  }

  lemma BothMapped(s: State, s1: State, s2: State, s3: State, r: nat, tramp: nat, trap: nat)
    requires Inv(s1) && Inv(s2) && Inv(s3) && SameLeaves(s, s1) && SameBytes(s, s1, {}) && Touches(s, s1, r)
    requires forall v: nat :: Leaf(s1, r, v) == 0
    requires MappedRange(s1, s2, r, USERTOP + 1, 1, tramp, WithV(R + X)) && TakesBut(s1, s2, r, tramp, 1)
             && SameBytes(s1, s2, {})
    requires MappedRange(s2, s3, r, USERTOP, 1, trap, WithV(R + W)) && TakesBut(s2, s3, r, trap, 1)
             && SameBytes(s2, s3, {})
    ensures TopMapped(s, s3, r, tramp, trap) && Touches(s, s3, r) && SameBytes(s, s3, {})
  {
    hide Leaf, Inv, SameBytes, Touches, TakesBut, SameDataRoles;
    HighTakes(s1, s2, r, USERTOP + 1, tramp, WithV(R + X));
    HighTakes(s2, s3, r, USERTOP, trap, WithV(R + W));
    TouchesTrans(s, s1, s2, r);
    TouchesTrans(s, s2, s3, r);
    BytesChain(s, s1, s2, s3, r);
  }

  lemma BytesChain(s: State, s1: State, s2: State, s3: State, r: nat)
    requires SameBytes(s, s1, {}) && SameBytes(s1, s2, {}) && SameBytes(s2, s3, {})
    requires SameDataRoles(s1, s2) && SameDataRoles(s2, s3)
    requires Touches(s, s1, r) && Touches(s1, s2, r) && Touches(s2, s3, r)
    ensures SameBytes(s, s3, {})
  {
  }

  /** Frees a process's page table and the memory below sz that it maps. */
  method ProcFreepagetable(vm: Vm, r: nat, sz: nat)
    requires Inv(vm.S()) && r in vm.users && sz <= TRAPFRAME && Confined(vm.S(), r, sz, 2)
    modifies vm
    ensures Inv(vm.S()) && Vacated(old(vm.S()), vm.S(), r)
  {
    hide Inv, Unmapped, Confined, Vacated;
    ghost var s0 := vm.S();
    UserRoot(s0, r);
    vm.Uvmunmap(r, TRAMPOLINE, 1, false);
    ghost var s1 := vm.S();
    TopCleared(s0, s1, r, sz, 1);
    UserRoot(s1, r);
    vm.Uvmunmap(r, TRAPFRAME, 1, false);
    ghost var s2 := vm.S();
    TopCleared(s1, s2, r, sz, 0);
    Uvmfree(vm, r, sz);
    VacatedAfter(s1, s2, vm.S(), r, 0);
    VacatedAfter(s0, s1, vm.S(), r, 1);
  }

  lemma TopCleared(s: State, s': State, r: nat, sz: nat, i: nat)
    requires Inv(s) && Confined(s, r, sz, i + 1) && Unmapped(s, s', r, USERTOP + i, 1, Used)
    ensures Confined(s', r, sz, i) && s'.users == s.users
  {
    hide Leaf, Inv;
    forall v: nat
      ensures Valid(Leaf(s', r, v)) ==> Valid(Leaf(s, r, v)) && v != USERTOP + i
    {
    }
  }

  lemma VacatedAfter(s: State, s1: State, s2: State, r: nat, i: nat)
    requires Inv(s) && Unmapped(s, s1, r, USERTOP + i, 1, Used) && Vacated(s1, s2, r)
    ensures Vacated(s, s2, r)
  {
    hide Leaf, Inv, Valid;
    forall f | f in s.role && s.role[f].User? && s.role[f].root == r && s.role[f].vpn == USERTOP + i
      ensures false
    {
      UserFrame(s, r, USERTOP + i, f);
    }
  }

  // What the operations do to the frames

  lemma TakesTouches(s: State, s': State, r: nat)
    requires Takes(s, s', r)
    ensures Touches(s, s', r)
  {
  }

  lemma UnmappedTouches(s: State, s': State, r: nat, vpn: nat, n: nat)
    requires Unmapped(s, s', r, vpn, n, Free)
    ensures Touches(s, s', r)
  {
  }

  lemma VacatedTouches(s: State, s': State, r: nat)
    requires Vacated(s, s', r)
    ensures Touches(s, s', r) && NoneNames(s', r)
  {
  }
}
