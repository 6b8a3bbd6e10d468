/** Directories and link counts (riscv/kernel/sysfile.c:123-302, riscv/kernel/fs.c:574-629). Directories are
    sequences of entries, as readi and writei present them; an entry with inode number 0 is empty. Each
    system call is one atomic operation here, with the inodes that its paths lead to as parameters. */
module Links {
  import opened Values

  const ROOT := 1

  /** Names are at most DIRSIZ characters long: longer ones have been cut off. */
  datatype Entry = Entry(inum: nat, name: string)

  datatype Kind = Free | File | Device | Dir

  datatype Node = Node(kind: Kind, nlink: nat, ents: seq<Entry>)

  // Counting links

  function Names(e: Entry, x: nat): (n: nat) { if e.inum == x && x != 0 && e.name != "." then 1 else 0 }

  /** Entries that name x, other than ".". */
  function CountIn(ents: seq<Entry>, x: nat): (n: nat)
    decreases |ents|
  {
    if ents == [] then 0 else CountIn(ents[..|ents| - 1], x) + Names(ents[|ents| - 1], x)
  }

  predicate Live(v: Node) { v.kind.Dir? && v.nlink > 0 }

  /** Only the entries of linked directories count. */
  function Contrib(v: Node, x: nat): (n: nat) { if Live(v) then CountIn(v.ents, x) else 0 }

  function Count(nodes: seq<Node>, x: nat): (n: nat)
    decreases |nodes|
  {
    if nodes == [] then 0 else Count(nodes[..|nodes| - 1], x) + Contrib(nodes[|nodes| - 1], x)
  }

  lemma {:induction false} CountInSet(ents: seq<Entry>, k: nat, e: Entry, x: nat)
    requires k < |ents|
    ensures CountIn(ents[k := e], x) == CountIn(ents, x) - Names(ents[k], x) + Names(e, x)
    ensures CountIn(ents, x) >= Names(ents[k], x)
    decreases |ents|
  {
    var n := |ents| - 1;
    if k < n {
      CountInSet(ents[..n], k, e, x);
      assert ents[k := e][..n] == ents[..n][k := e];
    } else {
      assert ents[k := e][..n] == ents[..n];
    }
  }

  lemma CountInAdd(ents: seq<Entry>, e: Entry, x: nat)
    ensures CountIn(ents + [e], x) == CountIn(ents, x) + Names(e, x)
  {
    assert (ents + [e])[..|ents|] == ents;
  }

  lemma {:induction false} CountSet(nodes: seq<Node>, d: nat, v: Node, x: nat)
    requires d < |nodes|
    ensures Count(nodes[d := v], x) == Count(nodes, x) - Contrib(nodes[d], x) + Contrib(v, x)
    ensures Count(nodes, x) >= Contrib(nodes[d], x)
    decreases |nodes|
  {
    var n := |nodes| - 1;
    if d < n {
      CountSet(nodes[..n], d, v, x);
      assert nodes[d := v][..n] == nodes[..n][d := v];
    } else {
      assert nodes[d := v][..n] == nodes[..n];
    }
  }

  lemma {:induction false} CountInNone(ents: seq<Entry>, x: nat)
    requires forall k :: 0 <= k < |ents| ==> Names(ents[k], x) == 0
    ensures CountIn(ents, x) == 0
    decreases |ents|
  {
    if ents != [] {
      CountInNone(ents[..|ents| - 1], x);
    }
  }

  lemma {:induction false} CountOnly(nodes: seq<Node>, d: nat, x: nat)
    requires d < |nodes| && forall i :: 0 <= i < |nodes| && i != d ==> Contrib(nodes[i], x) == 0
    ensures Count(nodes, x) == Contrib(nodes[d], x)
    decreases |nodes|
  {
    var n := |nodes| - 1;
    if d < n {
      CountOnly(nodes[..n], d, x);
    } else {
      CountNone(nodes[..n], x);
    }
  }

  lemma {:induction false} CountNone(nodes: seq<Node>, x: nat)
    requires forall i :: 0 <= i < |nodes| ==> Contrib(nodes[i], x) == 0
    ensures Count(nodes, x) == 0
    decreases |nodes|
  {
    if nodes != [] {
      CountNone(nodes[..|nodes| - 1], x);
    }
  }

  // The invariant

  /** An entry other than "." and "..". */
  predicate Proper(e: Entry) { e.inum != 0 && e.name != "." && e.name != ".." }

  /** A linked directory starts with "." and ".."; all its other entries are proper or empty. */
  ghost predicate DirOk(nodes: seq<Node>, d: nat)
    requires d < |nodes|
  {
    var v := nodes[d];
    && |v.ents| >= 2 && v.ents[0] == Entry(d, ".") && v.ents[1].name == ".." && 0 < v.ents[1].inum < |nodes|
    && (forall k :: 2 <= k < |v.ents| && v.ents[k].inum != 0 ==> Proper(v.ents[k]) && v.ents[k].inum < |nodes|)
  }

  /** Directory v, which was x and has been unlinked, is empty; its ".." is one of the n inodes. */
  ghost predicate OrphanOk(n: nat, x: nat, v: Node) {
    && |v.ents| >= 2 && v.ents[0] == Entry(x, ".") && v.ents[1].name == ".." && 0 < v.ents[1].inum < n
    && v.ents[1].inum != x && (forall k :: 2 <= k < |v.ents| ==> v.ents[k].inum == 0)
  }

  /** The parent of a directory, where "..", and its place there. */
  ghost predicate At(nodes: seq<Node>, x: nat, d: nat, k: nat) {
    d < |nodes| && x < |nodes| && Live(nodes[d]) && 2 <= k < |nodes[d].ents| && nodes[d].ents[k].inum == x
  }

  /** A linked directory other than the root has one name, in its parent; the root has none. */
  ghost predicate PlaceOk(nodes: seq<Node>, where: seq<(nat, nat)>, x: nat)
    requires x < |nodes| == |where|
  {
    if x == ROOT then |nodes[x].ents| >= 2 && nodes[x].ents[1].inum == ROOT && forall d, k :: !At(nodes, x, d, k)
    else
      && At(nodes, x, where[x].0, where[x].1) && |nodes[x].ents| >= 2 && nodes[x].ents[1].inum == where[x].0
      && (forall d, k :: At(nodes, x, d, k) ==> d == where[x].0 && k == where[x].1)
  }

  ghost predicate NodeOk(nodes: seq<Node>, where: seq<(nat, nat)>, x: nat)
    requires x < |nodes| == |where|
  {
    && nodes[x].nlink == Count(nodes, x)
    && (nodes[x].kind.Free? ==> nodes[x].nlink == 0) && (!nodes[x].kind.Dir? ==> nodes[x].ents == [])
    && (Live(nodes[x]) ==> DirOk(nodes, x) && PlaceOk(nodes, where, x))
    && (nodes[x].kind.Dir? && nodes[x].nlink == 0 ==> OrphanOk(|nodes|, x, nodes[x]))
  }

  ghost predicate Inv(nodes: seq<Node>, where: seq<(nat, nat)>) {
    && |nodes| == |where| && ROOT < |nodes| && Live(nodes[ROOT]) && nodes[0].kind.Free?
    && (forall x :: 0 <= x < |nodes| ==> NodeOk(nodes, where, x))
  }

  // The changes that the system calls make

  /** The entries with e in slot k, which may be the one after the last. */
  function PutAt(ents: seq<Entry>, k: nat, e: Entry): (r: seq<Entry>)
    requires k <= |ents|
  {
    if k < |ents| then ents[k := e] else ents + [e]
  }

  /** Slot k is not in use. */
  predicate Vacant(ents: seq<Entry>, k: nat) { k <= |ents| && (k < |ents| ==> ents[k].inum == 0) }

  lemma CountInPut(ents: seq<Entry>, k: nat, e: Entry, x: nat)
    requires Vacant(ents, k)
    ensures CountIn(PutAt(ents, k, e), x) == CountIn(ents, x) + Names(e, x)
  {
    if k < |ents| {
      CountInSet(ents, k, e, x);
    } else {
      CountInAdd(ents, e, x);
    }
  }

  function WithEntry(v: Node, k: nat, e: Entry): (r: Node)
    requires k <= |v.ents|
  {
    v.(ents := PutAt(v.ents, k, e))
  }

  /** A new entry for x in slot k of d; more is what it adds to the link count of d. */
  ghost function Linked(nodes: seq<Node>, d: nat, k: nat, name: string, x: nat, u: Node, more: nat): (r: seq<Node>)
    requires d < |nodes| && x < |nodes| && d != x && k <= |nodes[d].ents|
  {
    nodes[d := WithEntry(nodes[d], k, Entry(x, name)).(nlink := nodes[d].nlink + more)][x := u]
  }

  ghost predicate LinkOk(nodes: seq<Node>, where: seq<(nat, nat)>, d: nat, k: nat, name: string, x: nat) {
    && Inv(nodes, where) && d < |nodes| && 0 < x < |nodes| && d != x && Live(nodes[d]) && Vacant(nodes[d].ents, k)
    && name != "." && name != ".."
  }

  /** Empty slots come after the first two entries. */
  lemma SlotBehind(nodes: seq<Node>, where: seq<(nat, nat)>, d: nat, k: nat)
    requires Inv(nodes, where) && d < |nodes| && Live(nodes[d]) && Vacant(nodes[d].ents, k)
    ensures k >= 2 && d > 0
  {
    assert NodeOk(nodes, where, d);
  }

  lemma LinkedCount(nodes: seq<Node>, d: nat, k: nat, name: string, x: nat, u: Node, more: nat, y: nat)
    requires d < |nodes| && x < |nodes| && d != x && Live(nodes[d]) && Vacant(nodes[d].ents, k) && x != 0
    requires name != "."
    ensures Count(Linked(nodes, d, k, name, x, u, more), y) ==
            Count(nodes, y) + (if y == x then 1 else 0) - Contrib(nodes[x], y) + Contrib(u, y)
  {
    var v := WithEntry(nodes[d], k, Entry(x, name)).(nlink := nodes[d].nlink + more);
    CountInPut(nodes[d].ents, k, Entry(x, name), y);
    CountSet(nodes, d, v, y);
    CountSet(nodes[d := v], x, u, y);
  }

  /** What the new entry adds to where things are named. */
  lemma LinkedAt(nodes: seq<Node>, d: nat, k: nat, name: string, x: nat, u: Node, more: nat, y: nat, d2: nat, k2: nat)
    requires d < |nodes| && x < |nodes| && d != x && Live(nodes[d]) && Vacant(nodes[d].ents, k) && y != 0 && k >= 2
    requires !Live(nodes[x]) && |u.ents| <= 2
    ensures At(Linked(nodes, d, k, name, x, u, more), y, d2, k2) <==>
              At(nodes, y, d2, k2) || (y == x && d2 == d && k2 == k)
  {
  }

  /** link(), and create() of a file: x is no directory. */
  lemma FileLinked(nodes: seq<Node>, where: seq<(nat, nat)>, d: nat, k: nat, name: string, x: nat, u: Node)
    requires LinkOk(nodes, where, d, k, name, x) && !nodes[x].kind.Dir? && (u.kind.File? || u.kind.Device?)
             && u.ents == []
    requires u.nlink == nodes[x].nlink + 1
    ensures Inv(Linked(nodes, d, k, name, x, u, 0), where)
  {
    var nodes' := Linked(nodes, d, k, name, x, u, 0);
    SlotBehind(nodes, where, d, k);
    forall y | 0 <= y < |nodes'|
      ensures NodeOk(nodes', where, y)
    {
      assert NodeOk(nodes, where, y) && NodeOk(nodes, where, x) && NodeOk(nodes, where, d);
      LinkedCount(nodes, d, k, name, x, u, 0, y);
      if Live(nodes'[y]) {
        FilePlace(nodes, where, d, k, name, x, u, y);
      }
    }
  }

  lemma FilePlace(nodes: seq<Node>, where: seq<(nat, nat)>, d: nat, k: nat, name: string, x: nat, u: Node, y: nat)
    requires LinkOk(nodes, where, d, k, name, x) && !nodes[x].kind.Dir? && !u.kind.Dir? && u.ents == [] && k >= 2
    requires 0 < y < |nodes| && y != x && Live(nodes[y])
    ensures var nodes' := Linked(nodes, d, k, name, x, u, 0); DirOk(nodes', y) && PlaceOk(nodes', where, y)
  {
    hide Count;
    assert NodeOk(nodes, where, y);
    var nodes' := Linked(nodes, d, k, name, x, u, 0);
    forall d2: nat, k2: nat
      ensures At(nodes', y, d2, k2) <==> At(nodes, y, d2, k2)
    {
      LinkedAt(nodes, d, k, name, x, u, 0, y, d2, k2);
    }
  }

  function NewDir(x: nat, d: nat): (v: Node) { Node(Dir, 1, [Entry(x, "."), Entry(d, "..")]) }

  /** create() of a directory. */
  lemma DirMade(nodes: seq<Node>, where: seq<(nat, nat)>, d: nat, k: nat, name: string, x: nat)
    requires LinkOk(nodes, where, d, k, name, x) && nodes[x].kind.Free?
    ensures Inv(Linked(nodes, d, k, name, x, NewDir(x, d), 1), where[x := (d, k)])
  {
    var u := NewDir(x, d);
    var nodes', where' := Linked(nodes, d, k, name, x, u, 1), where[x := (d, k)];
    SlotBehind(nodes, where, d, k);
    forall y | 0 <= y < |nodes'|
      ensures NodeOk(nodes', where', y)
    {
      assert NodeOk(nodes, where, y) && NodeOk(nodes, where, x) && NodeOk(nodes, where, d);
      LinkedCount(nodes, d, k, name, x, u, 1, y);
      NewDirCounts(x, d, y);
      if Live(nodes'[y]) {
        DirPlace(nodes, where, d, k, name, x, y);
      }
    }
  }

  lemma NewDirCounts(x: nat, d: nat, y: nat)
    ensures Contrib(NewDir(x, d), y) == if y == d && d != 0 then 1 else 0
  {
    var ents := NewDir(x, d).ents;
    assert ents[..1] == [Entry(x, ".")] && ents[..1][..0] == [];
    assert CountIn(ents[..1], y) == CountIn(ents[..1][..0], y) + Names(ents[..1][0], y);
  }

  lemma DirPlace(nodes: seq<Node>, where: seq<(nat, nat)>, d: nat, k: nat, name: string, x: nat, y: nat)
    requires LinkOk(nodes, where, d, k, name, x) && nodes[x].kind.Free? && k >= 2 && 0 < y < |nodes|
    requires y == x || Live(nodes[y])
    ensures var nodes' := Linked(nodes, d, k, name, x, NewDir(x, d), 1);
              DirOk(nodes', y) && PlaceOk(nodes', where[x := (d, k)], y)
  {
    hide Count;
    assert NodeOk(nodes, where, y) && NodeOk(nodes, where, x) && NodeOk(nodes, where, ROOT);
    var nodes' := Linked(nodes, d, k, name, x, NewDir(x, d), 1);
    forall d2: nat, k2: nat
      ensures At(nodes', y, d2, k2) <==> At(nodes, y, d2, k2) || (y == x && d2 == d && k2 == k)
    {
      LinkedAt(nodes, d, k, name, x, NewDir(x, d), 1, y, d2, k2);
    }
    if y == x {
      forall d2: nat, k2: nat
        ensures !At(nodes, x, d2, k2)
      {
        NotNamed(nodes, where, x, d2, k2);
      }
    }
  }

  /** What is named in a linked directory has a link. */
  lemma NotNamed(nodes: seq<Node>, where: seq<(nat, nat)>, x: nat, d: nat, k: nat)
    requires Inv(nodes, where) && 0 < x < |nodes| && nodes[x].nlink == 0
    ensures !At(nodes, x, d, k)
  {
    if At(nodes, x, d, k) {
      NamedHasLink(nodes, where, x, d, k);
    }
  }

  lemma NamedHasLink(nodes: seq<Node>, where: seq<(nat, nat)>, x: nat, d: nat, k: nat)
    requires Inv(nodes, where) && 0 < x < |nodes| && At(nodes, x, d, k)
    ensures nodes[x].nlink > 0
  {
    assert NodeOk(nodes, where, x) && NodeOk(nodes, where, d);
    CountInSet(nodes[d].ents, k, Entry(0, ""), x);
    CountSet(nodes, d, nodes[d], x);
  }

  // Unlinking

  /** Entry k of d is cleared, and x, which it named, becomes u; less is what d loses in links. */
  ghost function Unlinked(nodes: seq<Node>, d: nat, k: nat, x: nat, u: Node, less: nat): (r: seq<Node>)
    requires d < |nodes| && x < |nodes| && d != x && k < |nodes[d].ents| && less <= nodes[d].nlink
  {
    nodes[d := nodes[d].(ents := nodes[d].ents[k := Entry(0, "")], nlink := nodes[d].nlink - less)][x := u]
  }

  ghost predicate UnlinkOk(nodes: seq<Node>, where: seq<(nat, nat)>, d: nat, k: nat, x: nat) {
    Inv(nodes, where) && At(nodes, x, d, k) && d != x && x != 0
  }

  lemma UnlinkedCount(nodes: seq<Node>, where: seq<(nat, nat)>, d: nat, k: nat, x: nat, u: Node, less: nat, y: nat)
    requires UnlinkOk(nodes, where, d, k, x) && less < nodes[d].nlink
    ensures Count(Unlinked(nodes, d, k, x, u, less), y) + (if y == x then 1 else 0) + Contrib(nodes[x], y) ==
            Count(nodes, y) + Contrib(u, y)
  {
    assert NodeOk(nodes, where, d);
    var v := nodes[d].(ents := nodes[d].ents[k := Entry(0, "")], nlink := nodes[d].nlink - less);
    CountInSet(nodes[d].ents, k, Entry(0, ""), y);
    CountSet(nodes, d, v, y);
    CountSet(nodes[d := v], x, u, y);
  }

  lemma UnlinkedAt(nodes: seq<Node>, where: seq<(nat, nat)>, d: nat, k: nat, x: nat, u: Node, less: nat, y: nat,
      d2: nat, k2: nat)
    requires UnlinkOk(nodes, where, d, k, x) && less < nodes[d].nlink && y != 0
    requires !Live(u) && (forall j :: 2 <= j < |nodes[x].ents| ==> nodes[x].ents[j].inum == 0)
    ensures At(Unlinked(nodes, d, k, x, u, less), y, d2, k2) <==> At(nodes, y, d2, k2) && !(d2 == d && k2 == k)
  {
  }

  lemma UnlinkedPlace(nodes: seq<Node>, where: seq<(nat, nat)>, d: nat, k: nat, x: nat, u: Node, less: nat, y: nat)
    requires UnlinkOk(nodes, where, d, k, x) && less < nodes[d].nlink && 0 < y < |nodes| && y != x && Live(nodes[y])
    requires !Live(u) && (forall j :: 2 <= j < |nodes[x].ents| ==> nodes[x].ents[j].inum == 0)
    ensures var nodes' := Unlinked(nodes, d, k, x, u, less); DirOk(nodes', y) && PlaceOk(nodes', where, y)
  {
    hide Count;
    assert NodeOk(nodes, where, y) && NodeOk(nodes, where, d);
    var nodes' := Unlinked(nodes, d, k, x, u, less);
    forall d2: nat, k2: nat
      ensures At(nodes', y, d2, k2) <==> At(nodes, y, d2, k2) && !(d2 == d && k2 == k)
    {
      UnlinkedAt(nodes, where, d, k, x, u, less, y, d2, k2);
    }
  }

  /** unlink() of a file. */
  lemma FileUnlinked(nodes: seq<Node>, where: seq<(nat, nat)>, d: nat, k: nat, x: nat)
    requires UnlinkOk(nodes, where, d, k, x) && !nodes[x].kind.Dir?
    ensures nodes[x].nlink > 0 && Inv(Unlinked(nodes, d, k, x, nodes[x].(nlink := nodes[x].nlink - 1), 0), where)
  {
    NamedHasLink(nodes, where, x, d, k);
    var u := nodes[x].(nlink := nodes[x].nlink - 1);
    var nodes' := Unlinked(nodes, d, k, x, u, 0);
    forall y | 0 <= y < |nodes'|
      ensures NodeOk(nodes', where, y)
    {
      assert NodeOk(nodes, where, y) && NodeOk(nodes, where, x);
      UnlinkedCount(nodes, where, d, k, x, u, 0, y);
      if Live(nodes'[y]) {
        UnlinkedPlace(nodes, where, d, k, x, u, 0, y);
      }
    }
  }

  /** No entries but "." and "..". */
  predicate EmptyDir(v: Node) { forall j :: 2 <= j < |v.ents| ==> v.ents[j].inum == 0 }

  lemma CountTwo(nodes: seq<Node>, a: nat, b: nat, y: nat)
    requires a < |nodes| && b < |nodes| && a != b
    ensures Count(nodes, y) >= Contrib(nodes[a], y) + Contrib(nodes[b], y)
  {
    var none := Node(Free, 0, []);
    CountSet(nodes, a, none, y);
    CountSet(nodes[a := none], b, none, y);
  }

  /** Nobody's ".." is an empty directory. */
  lemma NotParent(nodes: seq<Node>, where: seq<(nat, nat)>, x: nat, i: nat)
    requires Inv(nodes, where) && x < |nodes| && x != ROOT && EmptyDir(nodes[x]) && i < |nodes| && Live(nodes[i])
    ensures |nodes[i].ents| >= 2 && nodes[i].ents[1].inum != x
  {
    assert NodeOk(nodes, where, i);
  }

  /** An empty directory contributes the link of its parent, and nothing else. */
  lemma EmptyContrib(nodes: seq<Node>, where: seq<(nat, nat)>, x: nat, y: nat)
    requires Inv(nodes, where) && x < |nodes| && Live(nodes[x]) && EmptyDir(nodes[x]) && y != 0
    ensures |nodes[x].ents| >= 2 && Contrib(nodes[x], y) == if nodes[x].ents[1].inum == y then 1 else 0
  {
    assert NodeOk(nodes, where, x);
    var ents := nodes[x].ents;
    CountInSet(ents, 1, Entry(0, ""), y);
    var rest := ents[1 := Entry(0, "")];
    assert forall k :: 0 <= k < |rest| ==> Names(rest[k], y) == 0;
    CountInNone(rest, y);
  }

  /** An empty directory has one link: its name in its parent. */
  lemma EmptyHasOneLink(nodes: seq<Node>, where: seq<(nat, nat)>, d: nat, k: nat, x: nat)
    requires Inv(nodes, where) && At(nodes, x, d, k) && x != 0 && Live(nodes[x]) && EmptyDir(nodes[x])
    ensures x != ROOT && d != x && nodes[x].nlink == 1 && |nodes[x].ents| >= 2 && nodes[x].ents[1].inum == d
  {
    assert NodeOk(nodes, where, x) && NodeOk(nodes, where, d);
    assert x != ROOT;
    forall i | 0 <= i < |nodes|
      ensures Contrib(nodes[i], x) == if i == d then 1 else 0
    {
      if Live(nodes[i]) {
        OneName(nodes, where, d, k, x, i);
      }
    }
    CountOnly(nodes, d, x);
  }

  lemma OnlyName(nodes: seq<Node>, where: seq<(nat, nat)>, d: nat, k: nat, x: nat, i: nat, j: nat)
    requires Inv(nodes, where) && At(nodes, x, d, k) && x != ROOT && Live(nodes[x])
    requires i < |nodes| && Live(nodes[i]) && 2 <= j < |nodes[i].ents|
    ensures nodes[i].ents[j].inum == x ==> i == d && j == k
  {
    hide Count, DirOk;
    assert NodeOk(nodes, where, x);
    assert nodes[i].ents[j].inum == x ==> At(nodes, x, i, j);
  }

  lemma OneName(nodes: seq<Node>, where: seq<(nat, nat)>, d: nat, k: nat, x: nat, i: nat)
    requires Inv(nodes, where) && At(nodes, x, d, k) && x != 0 && x != ROOT && Live(nodes[x]) && EmptyDir(nodes[x])
    requires i < |nodes| && Live(nodes[i])
    ensures Contrib(nodes[i], x) == if i == d then 1 else 0
  {
    hide Count;
    assert NodeOk(nodes, where, x) && NodeOk(nodes, where, i);
    NotParent(nodes, where, x, i);
    var ents := nodes[i].ents;
    if i == d {
      CountInSet(ents, k, Entry(0, ""), x);
      var rest := ents[k := Entry(0, "")];
      forall j: nat | j < |rest|
        ensures Names(rest[j], x) == 0
      {
        if j >= 2 {
          OnlyName(nodes, where, d, k, x, i, j);
        }
      }
      CountInNone(rest, x);
    } else {
      forall j: nat | j < |ents|
        ensures Names(ents[j], x) == 0
      {
        if j >= 2 {
          OnlyName(nodes, where, d, k, x, i, j);
        }
      }
      CountInNone(ents, x);
    }
  }

  /** The parent of a linked directory keeps a link when that goes. */
  lemma ParentKeepsLink(nodes: seq<Node>, where: seq<(nat, nat)>, d: nat, k: nat, x: nat)
    requires Inv(nodes, where) && At(nodes, x, d, k) && x != 0 && Live(nodes[x]) && EmptyDir(nodes[x])
    ensures nodes[d].nlink > 1
  {
    EmptyHasOneLink(nodes, where, d, k, x);
    assert NodeOk(nodes, where, d) && NodeOk(nodes, where, ROOT);
    EmptyContrib(nodes, where, x, d);
    if d == ROOT {
      CountInSet(nodes[d].ents, 1, Entry(0, ""), d);
      CountTwo(nodes, x, d, d);
    } else {
      var p, j := where[d].0, where[d].1;
      assert NodeOk(nodes, where, p);
      CountInSet(nodes[p].ents, j, Entry(0, ""), d);
      CountTwo(nodes, x, p, d);
    }
  }

  /** unlink() of a directory. */
  lemma DirRemoved(nodes: seq<Node>, where: seq<(nat, nat)>, d: nat, k: nat, x: nat)
    requires Inv(nodes, where) && At(nodes, x, d, k) && x != 0 && Live(nodes[x]) && EmptyDir(nodes[x])
    ensures d != x && nodes[x].nlink == 1 && nodes[d].nlink > 1
    ensures Inv(Unlinked(nodes, d, k, x, nodes[x].(nlink := 0), 1), where)
  {
    EmptyHasOneLink(nodes, where, d, k, x);
    ParentKeepsLink(nodes, where, d, k, x);
    var u := nodes[x].(nlink := 0);
    var nodes' := Unlinked(nodes, d, k, x, u, 1);
    forall y | 0 <= y < |nodes'|
      ensures NodeOk(nodes', where, y)
    {
      assert NodeOk(nodes, where, y) && NodeOk(nodes, where, x) && NodeOk(nodes, where, d);
      UnlinkedCount(nodes, where, d, k, x, u, 1, y);
      if y != 0 {
        EmptyContrib(nodes, where, x, y);
      } else {
        ZeroCount(nodes', 0);
      }
      if Live(nodes'[y]) {
        UnlinkedPlace(nodes, where, d, k, x, u, 1, y);
      }
    }
  }

  lemma {:induction false} ZeroCount(nodes: seq<Node>, x: nat)
    requires x == 0
    ensures Count(nodes, x) == 0
    decreases |nodes|
  {
    if nodes != [] {
      ZeroCount(nodes[..|nodes| - 1], x);
      var ents := nodes[|nodes| - 1].ents;
      assert forall k :: 0 <= k < |ents| ==> Names(ents[k], 0) == 0;
      CountInNone(ents, 0);
    }
  }

  /** A node without links changes: create() that fails, and the release of the last reference. */
  lemma UnnamedChanged(nodes: seq<Node>, where: seq<(nat, nat)>, x: nat, u: Node)
    requires Inv(nodes, where) && 0 < x < |nodes| && nodes[x].nlink == 0 && u.nlink == 0
    requires (u.kind.Dir? ==> OrphanOk(|nodes|, x, u)) && (!u.kind.Dir? ==> u.ents == [])
    ensures Inv(nodes[x := u], where)
  {
    var nodes' := nodes[x := u];
    forall y | 0 <= y < |nodes'|
      ensures NodeOk(nodes', where, y)
    {
      assert NodeOk(nodes, where, y) && NodeOk(nodes, where, x);
      CountSet(nodes, x, u, y);
      if Live(nodes'[y]) {
        UnnamedPlace(nodes, where, x, u, y);
      }
    }
  }

  lemma UnnamedPlace(nodes: seq<Node>, where: seq<(nat, nat)>, x: nat, u: Node, y: nat)
    requires Inv(nodes, where) && 0 < x < |nodes| && nodes[x].nlink == 0 && u.nlink == 0 && y < |nodes| && y != x
             && Live(nodes[y])
    ensures DirOk(nodes[x := u], y) && PlaceOk(nodes[x := u], where, y)
  {
    hide Count;
    assert NodeOk(nodes, where, y);
    var nodes' := nodes[x := u];
    forall d2: nat, k2: nat
      ensures At(nodes', y, d2, k2) <==> At(nodes, y, d2, k2)
    {
    }
  }

  // The system calls

  /** The entry that dirlookup() finds: the first in use with the name. */
  predicate FoundAt(ents: seq<Entry>, name: string, k: int) {
    && 0 <= k < |ents| && ents[k].inum != 0 && ents[k].name == name
    && (forall j :: 0 <= j < k ==> ents[j].inum == 0 || ents[j].name != name)
  }

  predicate Absent(ents: seq<Entry>, name: string) {
    forall j :: 0 <= j < |ents| ==> ents[j].inum == 0 || ents[j].name != name
  }

  function Blanks(n: nat): (nodes: seq<Node>)
    ensures |nodes| == n && forall x | 0 <= x < n :: nodes[x] == Node(Free, 0, [])
  {
    seq(n, _ => Node(Free, 0, []))
  }

  function FileEntries(names: seq<string>, n: nat): (ents: seq<Entry>)
    requires n <= |names|
  {
    if n == 0 then [] else FileEntries(names, n - 1) + [Entry(1 + n, names[n - 1])]
  }

  /** The empty entries with which mkfs fills up the root directory to the end of a block, 64 entries each. */
  function Padding(n: nat): (ents: seq<Entry>)
    ensures (n + |ents|) % 64 == 0 && |ents| > 0 && forall k | 0 <= k < |ents| :: ents[k] == Entry(0, "")
  {
    seq(64 - n % 64, _ => Entry(0, ""))
  }

  lemma PadOne(nodes: seq<Node>, where: seq<(nat, nat)>, d: nat)
    requires Inv(nodes, where) && d < |nodes| && Live(nodes[d])
    ensures Inv(nodes[d := nodes[d].(ents := nodes[d].ents + [Entry(0, "")])], where)
  {
    var nodes' := nodes[d := nodes[d].(ents := nodes[d].ents + [Entry(0, "")])];
    forall y | 0 <= y < |nodes'|
      ensures NodeOk(nodes', where, y)
    {
      assert NodeOk(nodes, where, y);
      CountInAdd(nodes[d].ents, Entry(0, ""), y);
      CountSet(nodes, d, nodes'[d], y);
      if Live(nodes[y]) {
        PadPlace(nodes, where, d, y);
      }
    }
  }

  lemma PadPlace(nodes: seq<Node>, where: seq<(nat, nat)>, d: nat, y: nat)
    requires Inv(nodes, where) && d < |nodes| && Live(nodes[d]) && 0 < y < |nodes| && Live(nodes[y])
    ensures var nodes' := nodes[d := nodes[d].(ents := nodes[d].ents + [Entry(0, "")])];
              DirOk(nodes', y) && PlaceOk(nodes', where, y)
  {
    hide Count;
    assert NodeOk(nodes, where, y);
    var nodes' := nodes[d := nodes[d].(ents := nodes[d].ents + [Entry(0, "")])];
    forall d2: nat, k2: nat
      ensures At(nodes', y, d2, k2) <==> At(nodes, y, d2, k2)
    {
    }
  }

  /** Empty entries at the end of a directory change nothing. */
  lemma {:induction false} Padded(nodes: seq<Node>, where: seq<(nat, nat)>, d: nat, pad: seq<Entry>)
    requires Inv(nodes, where) && d < |nodes| && Live(nodes[d])
    requires forall k | 0 <= k < |pad| :: pad[k] == Entry(0, "")
    ensures Inv(nodes[d := nodes[d].(ents := nodes[d].ents + pad)], where)
    decreases |pad|
  {
    hide Inv;
    var v := nodes[d];
    if pad == [] {
      assert v.ents + pad == v.ents;
      assert nodes[d := v] == nodes;
    } else {
      var nodes1 := nodes[d := v.(ents := v.ents + [Entry(0, "")])];
      PadOne(nodes, where, d);
      Padded(nodes1, where, d, pad[1..]);
      assert nodes1[d].ents + pad[1..] == v.ents + pad;
      assert nodes1[d := v.(ents := v.ents + pad)] == nodes[d := v.(ents := v.ents + pad)];
    }
  }

  lemma RootOnly(n: nat, where: seq<(nat, nat)>)
    requires n >= 2 && |where| == n
    ensures Inv(Blanks(n)[ROOT := NewDir(ROOT, ROOT)], where)
  {
    hide Blanks;
    var nodes := Blanks(n)[ROOT := NewDir(ROOT, ROOT)];
    forall x: nat | x < n
      ensures NodeOk(nodes, where, x)
    {
      CountNone(Blanks(n), x);
      CountSet(Blanks(n), ROOT, NewDir(ROOT, ROOT), x);
      RootCounts(x);
    }
  }

  lemma RootCounts(x: nat)
    ensures Contrib(NewDir(ROOT, ROOT), x) == if x == ROOT then 1 else 0
  {
    CountInAdd([], Entry(ROOT, "."), x);
    CountInAdd([Entry(ROOT, ".")], Entry(ROOT, ".."), x);
    assert [] + [Entry(ROOT, ".")] == [Entry(ROOT, ".")];
    assert NewDir(ROOT, ROOT).ents == [Entry(ROOT, ".")] + [Entry(ROOT, "..")];
  }

  /** There is an empty place, or the directory can grow. */
  predicate HasRoom(ents: seq<Entry>, full: bool) { !full || exists j :: 0 <= j < |ents| && ents[j].inum == 0 }

  class Tree {
    var nodes: seq<Node>
    ghost var where: seq<(nat, nat)>

    ghost predicate Valid()
      reads this
    {
      Inv(nodes, where)
    }

    /** The tree that mkfs makes: a root directory with one link, its own "..", and a file for every name, filled up
        with empty entries to the end of a block. */
    constructor (ninodes: nat, names: seq<string>)
      requires 2 + |names| <= ninodes && forall k | 0 <= k < |names| :: names[k] != "." && names[k] != ".."
      ensures Valid() && |nodes| == ninodes
      ensures nodes[ROOT] ==
              Node(Dir, 1, NewDir(ROOT, ROOT).ents + FileEntries(names, |names|) + Padding(2 + |names|))
      ensures forall x | 2 <= x < ninodes :: nodes[x] == if x < 2 + |names| then Node(File, 1, [])
              else Node(Free, 0, [])
    {
      nodes := Blanks(ninodes)[ROOT := NewDir(ROOT, ROOT)];
      where := seq(ninodes, _ => (0, 0));
      new;
      hide Inv, Count;
      RootOnly(ninodes, where);
      var i := 0;
      while i < |names|
        invariant 0 <= i <= |names| && Inv(nodes, where) && |nodes| == ninodes
        invariant nodes[ROOT] == Node(Dir, 1, NewDir(ROOT, ROOT).ents + FileEntries(names, i))
        invariant forall x | 2 <= x < ninodes :: nodes[x] == if x < 2 + i then Node(File, 1, []) else Node(Free, 0, [])
      {
        ghost var was := nodes;
        var root := nodes[ROOT];
        FileLinked(was, where, ROOT, |root.ents|, names[i], 2 + i, Node(File, 1, []));
        nodes := nodes[ROOT := root.(ents := root.ents + [Entry(2 + i, names[i])])][2 + i := Node(File, 1, [])];
        assert nodes == Linked(was, ROOT, |root.ents|, names[i], 2 + i, Node(File, 1, []), 0);
        i := i + 1;
      }
      Padded(nodes, where, ROOT, Padding(2 + |names|));
      nodes := nodes[ROOT := nodes[ROOT].(ents := nodes[ROOT].ents + Padding(2 + |names|))];
    }

    method DirLookup(dp: nat, name: string) returns (k: int)
      requires dp < |nodes|
      ensures k == -1 ==> Absent(nodes[dp].ents, name)
      ensures k != -1 ==> FoundAt(nodes[dp].ents, name, k)
    {
      var off := 0;
      while off < |nodes[dp].ents|
        invariant 0 <= off <= |nodes[dp].ents|
        invariant forall j :: 0 <= j < off ==> nodes[dp].ents[j].inum == 0 || nodes[dp].ents[j].name != name
      {
        if nodes[dp].ents[off].inum != 0 && nodes[dp].ents[off].name == name {
          return off;
        }
        off := off + 1;
      }
      k := -1;
    }

    /** Adds an entry in the first empty slot, or at the end unless the disk is full. */
    method DirLink(dp: nat, name: string, inum: nat, full: bool) returns (ok: bool, ghost k: nat)
      requires dp < |nodes|
      modifies this`nodes
      ensures !ok ==> nodes == old(nodes)
      ensures ok ==> Absent(old(nodes)[dp].ents, name) && Vacant(old(nodes)[dp].ents, k)
      ensures ok ==> forall j :: 0 <= j < k ==> old(nodes)[dp].ents[j].inum != 0
      ensures ok ==>
                k <= |old(nodes)[dp].ents| && nodes == old(nodes)[dp := WithEntry(old(nodes)[dp], k, Entry(inum, name))]
      ensures ok <==> Absent(old(nodes)[dp].ents, name) && HasRoom(old(nodes)[dp].ents, full)
    {
      k := 0;
      var found := DirLookup(dp, name);
      if found != -1 {
        return false, k;
      }
      var off := 0;
      while off < |nodes[dp].ents|
        invariant 0 <= off <= |nodes[dp].ents|
        invariant forall j :: 0 <= j < off ==> nodes[dp].ents[j].inum != 0
      {
        if nodes[dp].ents[off].inum == 0 {
          break;
        }
        off := off + 1;
      }
      if off == |nodes[dp].ents| && full {
        return false, k;
      }
      k := off;
      nodes := nodes[dp := WithEntry(nodes[dp], off, Entry(inum, name))];
      ok := true;
    }

    method IsDirEmpty(x: nat) returns (b: bool)
      requires x < |nodes|
      ensures b <==> EmptyDir(nodes[x])
    {
      var off := 2;
      while off < |nodes[x].ents|
        invariant 2 <= off
        invariant forall j :: 2 <= j < off && j < |nodes[x].ents| ==> nodes[x].ents[j].inum == 0
      {
        if nodes[x].ents[off].inum != 0 {
          return false;
        }
        off := off + 1;
      }
      b := true;
    }

    /** link(old, new): ip is what old leads to, dp the directory of new. */
    method Link(ip: Option<nat>, dp: Option<nat>, name: string, full: bool) returns (ret: int)
      requires Valid() && (ip.Some? ==> 0 < ip.value < |nodes| && !nodes[ip.value].kind.Free?)
      requires dp.Some? ==> dp.value < |nodes| && nodes[dp.value].kind.Dir?
      modifies this
      ensures (ret == 0 || ret == -1) && |nodes| == |old(nodes)|
      ensures ret == -1 ==> Valid() && nodes == old(nodes)
      ensures ret == 0 ==>
                && ip.Some? && dp.Some? && (Valid() <==> Live(old(nodes)[dp.value]))
                && (!Live(old(nodes)[dp.value]) ==> nodes[ip.value].nlink == Count(nodes, ip.value) + 1)
      ensures ret == 0 ==>
                && ip.Some? && dp.Some? && !old(nodes)[ip.value].kind.Dir?
                && nodes[ip.value].nlink == old(nodes)[ip.value].nlink + 1
                && Absent(old(nodes)[dp.value].ents, name) && Entry(ip.value, name) in nodes[dp.value].ents
      ensures ret == 0 ==> forall y :: 0 <= y < |nodes| && y != ip.value && y != dp.value ==> nodes[y] == old(nodes)[y]
      ensures ret == 0 ==>
                && nodes[ip.value] == old(nodes)[ip.value].(nlink := old(nodes)[ip.value].nlink + 1)
                && (exists k :: Vacant(old(nodes)[dp.value].ents, k)
                                && nodes[dp.value] == WithEntry(old(nodes)[dp.value], k, Entry(ip.value, name)))
      ensures ret == 0 <==>
                && ip.Some? && dp.Some? && !old(nodes)[ip.value].kind.Dir?
                && Absent(old(nodes)[dp.value].ents, name) && HasRoom(old(nodes)[dp.value].ents, full)
    {
      if ip.None? {
        return -1;
      }
      var x := ip.value;
      if nodes[x].kind.Dir? {
        return -1;
      }
      ghost var nodes0 := nodes;
      nodes := nodes[x := nodes[x].(nlink := nodes[x].nlink + 1)];
      if dp.None? {
        nodes := nodes[x := nodes[x].(nlink := nodes[x].nlink - 1)];
        assert nodes == nodes0;
        return -1;
      }
      var ok, k := DirLink(dp.value, name, x, full);
      if !ok {
        nodes := nodes[x := nodes[x].(nlink := nodes[x].nlink - 1)];
        assert nodes == nodes0;
        return -1;
      }
      if Live(nodes0[dp.value]) {
        LinkDone(nodes0, where, dp.value, k, name, x, nodes);
      } else {
        LinkIntoOrphan(nodes0, where, dp.value, k, name, x, nodes0[x].(nlink := nodes0[x].nlink + 1));
        assert nodes == Linked(nodes0, dp.value, k, name, x, nodes0[x].(nlink := nodes0[x].nlink + 1), 0);
        assert nodes[dp.value].ents[k] == Entry(x, name);
      }
      ret := 0;
    }

    /** unlink(path): dp is the directory of the path. */
    method Unlink(dp: Option<nat>, name: string) returns (ret: int, ghost x: nat)
      requires Valid() && (dp.Some? ==> dp.value < |nodes| && nodes[dp.value].kind.Dir?)
      modifies this
      ensures Valid() && (ret == 0 || ret == -1) && |nodes| == |old(nodes)|
      ensures ret == -1 ==> nodes == old(nodes)
      ensures ret == 0 ==>
                && dp.Some? && name != "." && name != ".." && 0 < x < |nodes| && old(nodes)[x].nlink > 0
                && nodes[x] == old(nodes)[x].(nlink := old(nodes)[x].nlink - 1)
      ensures ret == 0 ==> forall k :: FoundAt(old(nodes)[dp.value].ents, name, k) ==>
                nodes[dp.value].ents == old(nodes)[dp.value].ents[k := Entry(0, "")]
      ensures ret == 0 ==>
                && nodes[dp.value].kind.Dir?
                && nodes[dp.value].nlink == old(nodes)[dp.value].nlink - if old(nodes)[x].kind.Dir? then 1 else 0
      ensures ret == 0 ==> forall y :: 0 <= y < |nodes| && y != x && y != dp.value ==> nodes[y] == old(nodes)[y]
      ensures ret == 0 ==>
                Entry(x, name) in old(nodes)[dp.value].ents && (old(nodes)[x].kind.Dir? ==> EmptyDir(old(nodes)[x]))
      ensures dp.Some? && name != "." && name != ".." && !Absent(old(nodes)[dp.value].ents, name) && ret == -1 ==>
                0 < x < |nodes| && Entry(x, name) in nodes[dp.value].ents && nodes[x].kind.Dir? && !EmptyDir(nodes[x])
    {
      x := 0;
      if dp.None? {
        return -1, x;
      }
      if name == "." || name == ".." {
        return -1, x;
      }
      var d := dp.value;
      var k := DirLookup(d, name);
      if k == -1 {
        return -1, x;
      }
      UnlinkFacts(nodes, where, d, k, name);
      var ip := nodes[d].ents[k].inum;
      x := ip;
      assert nodes[ip].nlink >= 1;
      if nodes[ip].kind.Dir? {
        var empty := IsDirEmpty(ip);
        if !empty {
          return -1, x;
        }
      }
      ghost var nodes0 := nodes;
      UnlinkDone(nodes0, where, d, k, ip);
      nodes := nodes[d := nodes[d].(ents := nodes[d].ents[k := Entry(0, "")])];
      if nodes[ip].kind.Dir? {
        nodes := nodes[d := nodes[d].(nlink := nodes[d].nlink - 1)];
      }
      nodes := nodes[ip := nodes[ip].(nlink := nodes[ip].nlink - 1)];
      assert nodes == After(nodes0, d, k, ip);
      ret := 0;
    }

    /** ialloc(): the first free inode, or 0. */
    method Ialloc(kind: Kind) returns (x: nat)
      requires !kind.Free?
      modifies this`nodes
      ensures x == 0 ==> nodes == old(nodes) && forall y :: 1 <= y < |nodes| ==> !nodes[y].kind.Free?
      ensures x != 0 ==> x < |old(nodes)| && old(nodes)[x].kind.Free? && nodes == old(nodes)[x := Node(kind, 0, [])]
      ensures x != 0 ==> forall y :: 1 <= y < x ==> !old(nodes)[y].kind.Free?
    {
      var inum := 1;
      while inum < |nodes|
        invariant 1 <= inum && nodes == old(nodes)
        invariant forall y :: 1 <= y < inum && y < |nodes| ==> !nodes[y].kind.Free?
      {
        if nodes[inum].kind.Free? {
          nodes := nodes[inum := Node(kind, 0, [])];
          return inum;
        }
        inum := inum + 1;
      }
      x := 0;
    }

    /** The release of the last reference to an inode: one without links is freed. */
    method Put(x: nat)
      requires Valid() && 0 < x < |nodes| && !nodes[x].kind.Free?
      modifies this
      ensures Valid() && nodes == if old(nodes)[x].nlink == 0 then old(nodes)[x := Node(Free, 0, [])] else old(nodes)
    {
      if nodes[x].nlink == 0 {
        UnnamedChanged(nodes, where, x, Node(Free, 0, []));
        nodes := nodes[x := Node(Free, 0, [])];
      }
    }

    /** The entries "." and ".." of a new directory x. */
    method DotEntries(x: nat, d: nat, full1: bool, full2: bool) returns (ok: bool)
      requires 0 < x < |nodes| && nodes[x] == Node(Dir, 1, []) && d != 0
      modifies this`nodes
      ensures |nodes| == |old(nodes)| && nodes == old(nodes)[x := nodes[x]]
      ensures ok <==> !full1 && !full2
      ensures ok ==> nodes[x] == NewDir(x, d)
    {
      ghost var k;
      ok, k := DirLink(x, ".", x, full1);
      if ok {
        assert k == 0;
        ghost var nodes1 := nodes;
        assert nodes1[x].ents == [Entry(x, ".")];
        ok, k := DirLink(x, "..", d, full2);
        if ok {
          assert k == 1;
          assert nodes[x].ents == [Entry(x, ".")] + [Entry(d, "..")];
        }
      }
    }

    /** Allocates an inode and gives it its entries: "." and ".." if it is a directory, and name in d. On failure the
        inode is free again. */
    method NewEntry(d: nat, name: string, kind: Kind, full1: bool, full2: bool, full3: bool)
        returns (x: nat, ghost u: Node, ghost slot: nat)
      requires d < |nodes| && !kind.Free? && nodes[d].kind.Dir? && d != 0 && Absent(nodes[d].ents, name)
      requires forall y :: 0 <= y < |nodes| && nodes[y].kind.Free? ==> nodes[y] == Node(Free, 0, [])
      modifies this`nodes
      ensures x == 0 ==> nodes == old(nodes)
      ensures x == 0 <==>
                !HasFree(old(nodes)) || (kind.Dir? && (full1 || full2)) || !HasRoom(old(nodes)[d].ents, full3)
      ensures x != 0 ==>
                && x < |old(nodes)| && old(nodes)[x].kind.Free? && x != d && Vacant(old(nodes)[d].ents, slot)
                && u == (if kind.Dir? then NewDir(x, d) else Node(kind, 1, []))
                && nodes == old(nodes)[x := u][d := WithEntry(old(nodes)[d], slot, Entry(x, name))]
    {
      slot := 0;
      ghost var nodes0 := nodes;
      x := Ialloc(kind);
      u := Node(kind, 1, []);
      if x == 0 {
        return;
      }
      nodes := nodes[x := Node(kind, 1, [])];
      var ok := true;
      if kind.Dir? {
        ok := DotEntries(x, d, full1, full2);
      }
      u := nodes[x];
      if ok {
        ok, slot := DirLink(d, name, x, full3);
      }
      if !ok {
        nodes := nodes[x := Node(Free, 0, [])];
        assert nodes == nodes0;
        x := 0;
      }
    }

    /** create(path): dp is the directory of the path. The last three parameters say at which of the three new entries
        the disk is full. The link counts stay right exactly if that directory has not been removed. */
    method Create(dp: Option<nat>, name: string, kind: Kind, full1: bool, full2: bool, full3: bool)
        returns (r: Option<nat>, ghost slot: nat)
      requires Valid() && !kind.Free? && (dp.Some? ==> dp.value < |nodes| && nodes[dp.value].kind.Dir?)
      modifies this
      ensures |nodes| == |old(nodes)|
      ensures r.None? ==> Valid() && nodes == old(nodes)
      ensures r.Some? ==> dp.Some? && 0 < r.value < |nodes| && Entry(r.value, name) in nodes[dp.value].ents
      ensures dp.Some? && !Absent(old(nodes)[dp.value].ents, name) ==> Valid() && nodes == old(nodes)
      ensures dp.Some? ==> Opens(old(nodes), dp.value, name, kind, r)
      ensures r.Some? && Absent(old(nodes)[dp.value].ents, name) ==>
                && old(nodes)[r.value].kind.Free? && r.value != dp.value
                && nodes[r.value] == (if kind.Dir? then NewDir(r.value, dp.value) else Node(kind, 1, []))
                && Vacant(old(nodes)[dp.value].ents, slot)
                && nodes[dp.value] == WithEntry(old(nodes)[dp.value], slot, Entry(r.value, name))
                                      .(nlink := old(nodes)[dp.value].nlink + if kind.Dir? then 1 else 0)
                && (Valid() <==> Live(old(nodes)[dp.value]))
      ensures r.Some? && Absent(old(nodes)[dp.value].ents, name) && !Live(old(nodes)[dp.value]) ==>
                if kind.Dir? then BreaksParent(old(nodes), nodes, dp.value)
                else nodes[r.value].nlink == Count(nodes, r.value) + 1
      ensures r.Some? ==> forall y :: 0 <= y < |nodes| && y != r.value && y != dp.value ==> nodes[y] == old(nodes)[y]
      ensures dp.Some? && Absent(old(nodes)[dp.value].ents, name) ==>
                (r.Some? <==>
                   HasFree(old(nodes)) && !(kind.Dir? && (full1 || full2)) && HasRoom(old(nodes)[dp.value].ents, full3))
    {
      hide Inv, Count, BreaksParent, HasRoom, HasFree;
      slot := 0;
      if dp.None? {
        return None, slot;
      }
      var d := dp.value;
      var k := DirLookup(d, name);
      if k != -1 {
        FoundInRange(nodes, where, d, k);
        var ip := nodes[d].ents[k].inum;
        assert nodes[d].ents[k] == Entry(ip, name);
        if kind.File? && (nodes[ip].kind.File? || nodes[ip].kind.Device?) {
          return Some(ip), slot;
        }
        return None, slot;
      }
      ghost var nodes0 := nodes;
      AbsentProper(nodes, where, d, name);
      FreeNodes(nodes, where);
      var x;
      ghost var u;
      x, u, slot := NewEntry(d, name, kind, full1, full2, full3);
      if x == 0 {
        return None, slot;
      }
      if kind.Dir? {
        nodes := nodes[d := nodes[d].(nlink := nodes[d].nlink + 1)];
      }
      assert nodes == Linked(nodes0, d, slot, name, x, u, if kind.Dir? then 1 else 0);
      ghost var where0 := where;
      where := if Live(nodes0[d]) && kind.Dir? then where[x := (d, slot)] else where;
      CreateEnds(nodes0, where0, d, slot, name, x, u, nodes, where);
      r := Some(x);
    }
  }

  /** How create() leaves the counts. */
  lemma CreateEnds(nodes: seq<Node>, where: seq<(nat, nat)>, d: nat, k: nat, name: string, x: nat, u: Node,
                   nodes': seq<Node>, where': seq<(nat, nat)>)
    requires Inv(nodes, where) && d < |nodes| && nodes[d].kind.Dir? && 0 < x < |nodes| && nodes[x] == Node(Free, 0, [])
    requires Absent(nodes[d].ents, name) && Vacant(nodes[d].ents, k) && d != x
    requires if u.kind.Dir? then u == NewDir(x, d) else !u.kind.Free? && u.nlink == 1 && u.ents == []
    requires nodes' == Linked(nodes, d, k, name, x, u, if u.kind.Dir? then 1 else 0)
    requires where' == if Live(nodes[d]) && u.kind.Dir? then where[x := (d, k)] else where
    ensures Inv(nodes', where') <==> Live(nodes[d])
    ensures Entry(x, name) in nodes'[d].ents
    ensures !Live(nodes[d]) ==>
              if u.kind.Dir? then BreaksParent(nodes, nodes', d) else nodes'[x].nlink == Count(nodes', x) + 1
  {
    hide Inv, Count, BreaksParent;
    AbsentProper(nodes, where, d, name);
    assert nodes'[d].ents[k] == Entry(x, name);
    if Live(nodes[d]) {
      assert nodes' == nodes[x := u][d := WithEntry(nodes[d], k, Entry(x, name)).(nlink := nodes[d].nlink
                 + if u.kind.Dir? then 1 else 0)];
      CreateDone(nodes, where, d, k, name, x, u, nodes');
    } else if u.kind.Dir? {
      MkdirInOrphan(nodes, where, d, k, name, x);
    } else {
      LinkIntoOrphan(nodes, where, d, k, name, x, u);
    }
  }

  /** create() of a name that exists gives its inode exactly if a file is asked for and a file or device is there. */
  ghost predicate Opens(nodes: seq<Node>, d: nat, name: string, kind: Kind, r: Option<nat>)
    requires d < |nodes|
  {
    forall k :: FoundAt(nodes[d].ents, name, k) ==>
      var ip := nodes[d].ents[k].inum;
      && ip < |nodes|
      && r == if kind.File? && (nodes[ip].kind.File? || nodes[ip].kind.Device?) then Some(ip) else None
  }

  predicate HasFree(nodes: seq<Node>) { exists y :: 1 <= y < |nodes| && nodes[y].kind.Free? }

  lemma FoundInRange(nodes: seq<Node>, where: seq<(nat, nat)>, d: nat, k: nat)
    requires Inv(nodes, where) && d < |nodes| && nodes[d].kind.Dir? && k < |nodes[d].ents| && nodes[d].ents[k].inum != 0
    ensures nodes[d].ents[k].inum < |nodes|
  {
    assert NodeOk(nodes, where, d);
  }

  lemma FreeNodes(nodes: seq<Node>, where: seq<(nat, nat)>)
    requires Inv(nodes, where)
    ensures |where| == |nodes|
    ensures forall y :: 0 <= y < |nodes| && nodes[y].kind.Free? ==> nodes[y] == Node(Free, 0, [])
  {
    hide Count, DirOk, PlaceOk, OrphanOk;
    forall y | 0 <= y < |nodes| && nodes[y].kind.Free?
      ensures nodes[y] == Node(Free, 0, [])
    {
      assert NodeOk(nodes, where, y);
    }
  }

  lemma CreateDone(nodes: seq<Node>, where: seq<(nat, nat)>, d: nat, k: nat, name: string, x: nat, u: Node,
      nodes': seq<Node>)
    requires Inv(nodes, where) && d < |nodes| && Live(nodes[d]) && 0 < x < |nodes| && nodes[x] == Node(Free, 0, [])
    requires Absent(nodes[d].ents, name) && Vacant(nodes[d].ents, k) && d != x
    requires if u.kind.Dir? then u == NewDir(x, d) else !u.kind.Free? && u.nlink == 1 && u.ents == []
    requires nodes' == nodes[x := u][d := WithEntry(nodes[d], k, Entry(x, name)).(nlink := nodes[d].nlink
             + if u.kind.Dir? then 1 else 0)]
    ensures Inv(nodes', if u.kind.Dir? then where[x := (d, k)] else where) && Entry(x, name) in nodes'[d].ents
  {
    hide Inv, Count;
    AbsentProper(nodes, where, d, name);
    SlotBehind(nodes, where, d, k);
    assert nodes'[d].ents[k] == Entry(x, name);
    if u.kind.Dir? {
      DirMade(nodes, where, d, k, name, x);
      assert nodes' == Linked(nodes, d, k, name, x, u, 1);
    } else {
      FileLinked(nodes, where, d, k, name, x, u);
      assert nodes' == Linked(nodes, d, k, name, x, u, 0);
    }
  }

  /** Why the target directory has to be linked: an entry in one that is not gives a link that is not counted. */
  lemma LinkIntoOrphan(nodes: seq<Node>, where: seq<(nat, nat)>, d: nat, k: nat, name: string, x: nat, u: Node)
    requires Inv(nodes, where) && d < |nodes| && nodes[d].kind.Dir? && nodes[d].nlink == 0 && k <= |nodes[d].ents|
    requires 0 < x < |nodes| && x != d && !Live(nodes[x]) && !u.kind.Dir? && u.nlink == nodes[x].nlink + 1
    ensures var nodes' := Linked(nodes, d, k, name, x, u, 0);
            nodes'[x].nlink == Count(nodes', x) + 1 && forall w :: !Inv(nodes', w)
  {
    assert NodeOk(nodes, where, x);
    var v := WithEntry(nodes[d], k, Entry(x, name)).(nlink := nodes[d].nlink + 0);
    CountSet(nodes, d, v, x);
    CountSet(nodes[d := v], x, u, x);
    var nodes' := Linked(nodes, d, k, name, x, u, 0);
    WrongCount(nodes', x);
  }

  lemma WrongCount(nodes: seq<Node>, x: nat)
    requires x < |nodes| && nodes[x].nlink != Count(nodes, x)
    ensures forall w :: !Inv(nodes, w)
  {
    hide Count, DirOk, PlaceOk, OrphanOk;
    forall w: seq<(nat, nat)>
      ensures !Inv(nodes, w)
    {
      assert |w| == |nodes| ==> !NodeOk(nodes, w, x);
    }
  }

  /** After a directory has been made in the removed directory d: d has a link again, but no name, and so its ".."
      counts again for its old parent, which was told that it is gone. */
  ghost predicate BreaksParent(nodes: seq<Node>, nodes': seq<Node>, d: nat) {
    && d < |nodes| == |nodes'| && |nodes[d].ents| >= 2 && nodes[d].ents[1].inum < |nodes|
    && nodes'[d].nlink == 1 == Count(nodes', d) && (forall e, j :: !At(nodes', d, e, j))
    && var p := nodes[d].ents[1].inum; Count(nodes', p) == nodes'[p].nlink + 1
  }

  /** create() of a directory in a directory that has been removed. */
  lemma MkdirInOrphan(nodes: seq<Node>, where: seq<(nat, nat)>, d: nat, k: nat, name: string, x: nat)
    requires Inv(nodes, where) && d < |nodes| && nodes[d].kind.Dir? && nodes[d].nlink == 0 && Vacant(nodes[d].ents, k)
    requires 0 < x < |nodes| && nodes[x] == Node(Free, 0, []) && name != "."
    ensures var nodes' := Linked(nodes, d, k, name, x, NewDir(x, d), 1);
            BreaksParent(nodes, nodes', d) && forall w :: !Inv(nodes', w)
  {
    assert NodeOk(nodes, where, d);
    var nodes', p := Linked(nodes, d, k, name, x, NewDir(x, d), 1), nodes[d].ents[1].inum;
    assert NodeOk(nodes, where, p) && NodeOk(nodes, where, x);
    OrphanCount(nodes, where, d, k, name, x, d);
    OrphanCount(nodes, where, d, k, name, x, p);
    forall e: nat, j: nat
      ensures !At(nodes', d, e, j)
    {
      NotNamed(nodes, where, d, e, j);
    }
    WrongCount(nodes', p);
  }

  /** How the counts change: x is named in d, d in the ".." of x, and the old parent of d in its "..". */
  lemma OrphanCount(nodes: seq<Node>, where: seq<(nat, nat)>, d: nat, k: nat, name: string, x: nat, y: nat)
    requires Inv(nodes, where) && d < |nodes| && nodes[d].kind.Dir? && nodes[d].nlink == 0 && Vacant(nodes[d].ents, k)
    requires 0 < x < |nodes| && nodes[x] == Node(Free, 0, []) && name != "." && 0 < y < |nodes|
    ensures |nodes[d].ents| >= 2
    ensures Count(Linked(nodes, d, k, name, x, NewDir(x, d), 1), y) ==
            Count(nodes, y) + (if y == x then 1 else 0) + (if y == d then 1 else 0)
            + (if y == nodes[d].ents[1].inum then 1 else 0)
  {
    assert NodeOk(nodes, where, d);
    var ents := nodes[d].ents;
    var v := WithEntry(nodes[d], k, Entry(x, name)).(nlink := 1);
    CountInSet(ents, 1, Entry(0, ""), y);
    var rest := ents[1 := Entry(0, "")];
    assert forall j :: 0 <= j < |rest| ==> Names(rest[j], y) == 0;
    CountInNone(rest, y);
    CountInPut(ents, k, Entry(x, name), y);
    NewDirCounts(x, d, y);
    CountSet(nodes, d, v, y);
    CountSet(nodes[d := v], x, NewDir(x, d), y);
  }

  /** In a tree as mkfs makes it: a directory is made and removed, and then the file is linked into it. */
  method LinkInRemoved() returns (t: Tree, d: nat)
    ensures fresh(t) && !t.Valid() && |t.nodes| == 5
    ensures t.nodes[2].nlink == 2 && Count(t.nodes, 2) == 1
  {
    t, d := Removed();
    var ret := t.Link(Some(2), Some(d), "b", false);
  }

  /** The same, and then a directory is made in it. */
  method MkdirInRemoved() returns (t: Tree, d: nat)
    ensures fresh(t) && !t.Valid() && |t.nodes| == 5 && t.nodes[ROOT].nlink == 1 && Count(t.nodes, ROOT) == 2
  {
    t, d := Removed();
    ghost var slot;
    var r;
    r, slot := t.Create(Some(d), "b", Dir, false, false, false);
  }

  /** The directory d, which has just been made in the root of a new tree. */
  method Made() returns (t: Tree, d: nat)
    ensures fresh(t) && t.Valid() && |t.nodes| == 5 && 2 < d < 5 && t.nodes[d] == NewDir(d, ROOT)
    ensures t.nodes[ROOT].kind.Dir? && t.nodes[ROOT].nlink == 2 && t.nodes[2] == Node(File, 1, []) && HasFree(t.nodes)
    ensures !Absent(t.nodes[ROOT].ents, "d")
    ensures forall e | e in t.nodes[ROOT].ents && e.name == "d" && e.inum != 0 :: e.inum == d
  {
    hide Inv, Count, Opens, BreaksParent, Absent, FoundAt, PutAt, Padding, FileEntries;
    t := new Tree(5, ["a"]);
    NoneNamed();
    assert HasFree(t.nodes) by { assert t.nodes[3].kind.Free?; }
    ghost var ents := t.nodes[ROOT].ents;
    var r;
    ghost var slot;
    r, slot := t.Create(Some(ROOT), "d", Dir, false, false, false);
    d := r.value;
    OneNamed(ents, slot, d, "d");
    assert t.nodes[if d == 3 then 4 else 3].kind.Free?;
  }

  lemma NoneNamed()
    ensures Absent(NewDir(ROOT, ROOT).ents + FileEntries(["a"], 1) + Padding(3), "d")
  {
    assert FileEntries(["a"], 1) == [Entry(2, "a")];
  }

  lemma OneNamed(ents: seq<Entry>, k: nat, d: nat, name: string)
    requires Absent(ents, name) && Vacant(ents, k) && d != 0
    ensures !Absent(PutAt(ents, k, Entry(d, name)), name)
    ensures forall e | e in PutAt(ents, k, Entry(d, name)) && e.name == name && e.inum != 0 :: e.inum == d
  {
    assert PutAt(ents, k, Entry(d, name))[k] == Entry(d, name);
  }

  /** The directory d, which has been made and removed. */
  method Removed() returns (t: Tree, d: nat)
    ensures fresh(t) && t.Valid() && |t.nodes| == 5 && 2 < d < 5 && t.nodes[d] == Node(Dir, 0, NewDir(d, ROOT).ents)
    ensures t.nodes[ROOT].nlink == 1 && t.nodes[2] == Node(File, 1, []) && HasFree(t.nodes)
  {
    hide Inv, Count, Absent, FoundAt;
    t, d := Made();
    ghost var x, free :| 1 <= free < |t.nodes| && t.nodes[free].kind.Free? && x == 0;
    var ret;
    ret, x := t.Unlink(Some(ROOT), "d");
    assert t.nodes[free].kind.Free?;
  }

  /** What unlink() finds: the directory is linked, and so is what the entry names. */
  lemma UnlinkFacts(nodes: seq<Node>, where: seq<(nat, nat)>, d: nat, k: nat, name: string)
    requires Inv(nodes, where) && d < |nodes| && nodes[d].kind.Dir? && FoundAt(nodes[d].ents, name, k)
    requires name != "." && name != ".."
    ensures var x := nodes[d].ents[k].inum;
            0 < x < |nodes| && At(nodes, x, d, k) && nodes[x].nlink >= 1 && Entry(x, name) in nodes[d].ents
            && (nodes[x].kind.Dir? ==> Live(nodes[x]))
  {
    hide Count;
    assert NodeOk(nodes, where, d);
    var x := nodes[d].ents[k].inum;
    assert nodes[d].nlink > 0;
    NamedHasLink(nodes, where, x, d, k);
    assert nodes[d].ents[k] == Entry(x, name);
  }

  ghost function After(nodes: seq<Node>, d: nat, k: nat, x: nat): (r: seq<Node>)
    requires d < |nodes| && x < |nodes| && d != x && k < |nodes[d].ents| && nodes[x].nlink >= 1 && nodes[d].nlink >= 1
  {
    Unlinked(nodes, d, k, x, nodes[x].(nlink := nodes[x].nlink - 1), if nodes[x].kind.Dir? then 1 else 0)
  }

  lemma UnlinkDone(nodes: seq<Node>, where: seq<(nat, nat)>, d: nat, k: nat, x: nat)
    requires Inv(nodes, where) && 0 < x < |nodes| && At(nodes, x, d, k) && nodes[x].nlink >= 1
    requires nodes[x].kind.Dir? ==> Live(nodes[x]) && EmptyDir(nodes[x])
    ensures d != x && nodes[d].nlink >= 1 && Inv(After(nodes, d, k, x), where)
  {
    hide Inv, Count;
    if nodes[x].kind.Dir? {
      DirRemoved(nodes, where, d, k, x);
    } else {
      FileUnlinked(nodes, where, d, k, x);
    }
  }

  /** A name that is not there yet is not one of the first two. */
  lemma AbsentProper(nodes: seq<Node>, where: seq<(nat, nat)>, d: nat, name: string)
    requires Inv(nodes, where) && d < |nodes| && nodes[d].kind.Dir? && Absent(nodes[d].ents, name)
    ensures name != "." && name != ".." && d != 0
  {
    assert NodeOk(nodes, where, d);
    assert nodes[d].ents[0].inum == d && nodes[d].ents[1].inum != 0;
  }

  lemma LinkDone(nodes: seq<Node>, where: seq<(nat, nat)>, d: nat, k: nat, name: string, x: nat, nodes': seq<Node>)
    requires Inv(nodes, where) && d < |nodes| && Live(nodes[d]) && 0 < x < |nodes| && !nodes[x].kind.Dir?
             && !nodes[x].kind.Free?
    requires Absent(nodes[d].ents, name) && Vacant(nodes[d].ents, k)
    requires nodes' == nodes[x := nodes[x].(nlink := nodes[x].nlink + 1)][d := WithEntry(nodes[d], k, Entry(x, name))]
    ensures Inv(nodes', where) && Entry(x, name) in nodes'[d].ents
  {
    hide Inv;
    AbsentProper(nodes, where, d, name);
    InvNode(nodes, where, x);
    var u := nodes[x].(nlink := nodes[x].nlink + 1);
    FileLinked(nodes, where, d, k, name, x, u);
    assert nodes' == Linked(nodes, d, k, name, x, u, 0);
    assert nodes'[d].ents[k] == Entry(x, name);
  }

  lemma InvNode(nodes: seq<Node>, where: seq<(nat, nat)>, x: nat)
    requires Inv(nodes, where) && x < |nodes|
    ensures |nodes| == |where| && NodeOk(nodes, where, x)
  {
  }
}
