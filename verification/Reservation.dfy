/** How tight the log reservation of filewrite is (riscv/kernel/file.c:149-173): file systems in which a chunk
    of the largest size logs exactly MAXOPBLOCKS = 10 blocks, and in which two bytes more log 12. */
module Reservation {
  import opened Blocks
  import opened Inodes
  import opened FileSystem
  import opened Mkfs
  import opened File
  import opened Values

  // ------------------------------------------------------------ counting logged blocks

  /** The bits of any two free blocks are in different blocks of the free map. */
  ghost predicate OneFreePerMap(g: Geometry, d: Disk)
    requires GeometryOk(g) && |d| == g.size
  {
    forall b, c | 0 <= b < c < g.size && !Used(g, d, b) && !Used(g, d, c) :: BitmapBlock(g, b) != BitmapBlock(g, c)
  }

  ghost function FreeBlocks(g: Geometry, d: Disk): (r: set<nat>)
    requires GeometryOk(g) && |d| == g.size
  {
    set b: nat | b < g.size && !Used(g, d, b)
  }

  ghost function Maps(g: Geometry, n: set<nat>): (r: set<nat>)
    requires GeometryOk(g) && forall b | b in n :: b < g.size
  {
    set b | b in n :: BitmapBlock(g, b)
  }

  lemma {:induction false} MapsSize(g: Geometry, d: Disk, n: set<nat>)
    requires GeometryOk(g) && |d| == g.size && OneFreePerMap(g, d) && n <= FreeBlocks(g, d)
    ensures |Maps(g, n)| == |n|
  {
    hide Used, BitmapBlock;
    if n != {} {
      var b :| b in n;
      MapsSize(g, d, n - {b});
      assert Maps(g, n) == Maps(g, n - {b}) + {BitmapBlock(g, b)};
      forall c | c in n - {b}
        ensures BitmapBlock(g, c) != BitmapBlock(g, b)
      {
      }
    } else {
      assert Maps(g, n) == {};
    }
  }

  /** A block is new if it has an owner now and had none before; then it was free. */
  lemma NewWasFree(g: Geometry, d0: Disk, ns0: seq<Inode>, own0: map<nat, Slot>, b: nat)
    requires Owned(g, d0, ns0, own0, {}) && g.nmeta <= b < g.size && b !in own0
    ensures b in FreeBlocks(g, d0)
  {
    hide Used, Ref;
  }

  /** New blocks are logged with one free-map block each; the inode and other data blocks come on top. */
  lemma LoggedMany(g: Geometry, d0: Disk, ns0: seq<Inode>, own0: map<nat, Slot>, own: map<nat, Slot>, lg: set<nat>,
                   n: set<nat>, data: set<nat>, ib: nat)
    requires WellFormed(g, d0, ns0) && Owned(g, d0, ns0, own0, {}) && OneFreePerMap(g, d0)
    requires AllocsLogged(g, own0, {}, own, lg) && data <= lg && ib in lg
    requires forall b | b in n :: g.nmeta <= b < g.size && b in own && b !in own0
    requires forall b | b in data :: g.nmeta <= b && b !in n
    requires ib < g.nmeta && forall b | 0 <= b < g.size :: BitmapBlock(g, b) != ib
    ensures |lg| >= 2 * |n| + |data| + 1
  {
    hide Used, Owned, OneFreePerMap, FreeBlocks, BitmapBlock, Maps, AllocsLogged;
    forall b | b in n
      ensures b in FreeBlocks(g, d0)
    {
      NewWasFree(g, d0, ns0, own0, b);
    }
    assert n <= FreeBlocks(g, d0);
    MapsSize(g, d0, n);
    MapsLogged(g, own0, own, lg, n, ib);
    AddUp(n, data, Maps(g, n), ib, lg);
  }

  lemma MapsLogged(g: Geometry, own0: map<nat, Slot>, own: map<nat, Slot>, lg: set<nat>, n: set<nat>, ib: nat)
    requires GeometryOk(g) && AllocsLogged(g, own0, {}, own, lg)
    requires forall b | b in n :: b < g.size && b in own && b !in own0
    requires forall b | 0 <= b < g.size :: BitmapBlock(g, b) != ib
    ensures n <= lg && Maps(g, n) <= lg && ib !in Maps(g, n)
    ensures forall x | x in Maps(g, n) :: x < g.nmeta
  {
    hide BitmapBlock;
  }

  lemma AddUp(n: set<nat>, data: set<nat>, maps: set<nat>, ib: nat, lg: set<nat>)
    requires n !! data && maps !! (n + data) && ib !in n + data + maps
    requires n <= lg && data <= lg && maps <= lg && ib in lg
    ensures |lg| >= |n| + |data| + |maps| + 1
  {
    var all := n + data + maps + {ib};
    assert |n + data| == |n| + |data|;
    assert |n + data + maps| == |n + data| + |maps|;
    SubsetCard(all, lg);
  }

  // ------------------------------------------------------------ a write that logs as much as it can

  /** File i ends in its twelfth block, has no indirect block, and a write of k further blocks takes k + 1 new
      blocks, each from another block of the free map. */
  ghost predicate Scattered(g: Geometry, d: Disk, ns: seq<Inode>, own: map<nat, Slot>, i: nat, k: nat) {
    && WellFormed(g, d, ns) && Owned(g, d, ns, own, {}) && i < |ns| && |d| == g.size
    && 11 * BSIZE < ns[i].size <= 12 * BSIZE && NoHoles(g, d, ns, i) && ns[i].addrs[NDIRECT] == 0
    && OneFreePerMap(g, d) && |FreeBlocks(g, d)| >= k + 2
    && InodeBlock(g, i) < g.nmeta && forall b | 0 <= b < g.size :: BitmapBlock(g, b) != InodeBlock(g, i)
  }

  /** The blocks of file i from the thirteenth on. */
  ghost function Tail(g: Geometry, d: Disk, ns: seq<Inode>, i: nat, k: nat): (r: set<nat>)
    requires WellFormed(g, d, ns) && i < |ns| && 12 + k <= MAXFILE
  {
    set bn | 12 <= bn < 12 + k :: Ref(g, d, ns, DataSlot(i, bn))
  }

  lemma {:induction false} TailSize(g: Geometry, d: Disk, ns: seq<Inode>, own: map<nat, Slot>, i: nat, k: nat)
    requires WellFormed(g, d, ns) && Owned(g, d, ns, own, {}) && i < |ns| && 12 + k <= MAXFILE
    requires forall bn | 12 <= bn < 12 + k :: Ref(g, d, ns, DataSlot(i, bn)) != 0
    ensures |Tail(g, d, ns, i, k)| == k
  {
    hide Ref, Owned, WellFormed;
    if k > 0 {
      TailSize(g, d, ns, own, i, k - 1);
      var b := Ref(g, d, ns, DataSlot(i, 11 + k));
      assert Tail(g, d, ns, i, k) == Tail(g, d, ns, i, k - 1) + {b};
      forall bn | 12 <= bn < 11 + k
        ensures Ref(g, d, ns, DataSlot(i, bn)) != b
      {
        Different(g, d, ns, own, DataSlot(i, bn), DataSlot(i, 11 + k));
      }
    } else {
      assert Tail(g, d, ns, i, 0) == {};
    }
  }

  /** A slot that was empty and is mapped now holds a new block. */
  lemma NewSlot(g: Geometry, d0: Disk, ns0: seq<Inode>, own0: map<nat, Slot>, d: Disk, ns: seq<Inode>,
      own: map<nat, Slot>,
                t: Slot)
    requires WellFormed(g, d0, ns0) && WellFormed(g, d, ns) && Owned(g, d0, ns0, own0, {}) && Owned(g, d, ns, own, {})
    requires StillMapped(g, d0, ns0, d, ns) && SlotOk(ns, t) && |ns0| == |ns|
    requires Ref(g, d0, ns0, t) == 0 && Ref(g, d, ns, t) != 0
    ensures var b := Ref(g, d, ns, t); g.nmeta <= b < g.size && b in own && b !in own0
  {
    hide Ref, Used, WellFormed;
    var b := Ref(g, d, ns, t);
    assert Owns(own, t, b);
  }

  /** Without an indirect block nothing is mapped behind the twelfth block. */
  lemma NoTail(g: Geometry, d: Disk, ns: seq<Inode>, i: nat)
    requires WellFormed(g, d, ns) && i < |ns| && ns[i].addrs[NDIRECT] == 0
    ensures forall bn | 12 <= bn < MAXFILE :: Ref(g, d, ns, DataSlot(i, bn)) == 0
    ensures Ref(g, d, ns, Slot(i, NDIRECT)) == 0
  {
  }

  /** With an entry there is an indirect block. */
  lemma TailHasIndirect(g: Geometry, d: Disk, ns: seq<Inode>, i: nat)
    requires WellFormed(g, d, ns) && i < |ns| && Ref(g, d, ns, DataSlot(i, 12)) != 0
    ensures Ref(g, d, ns, Slot(i, NDIRECT)) != 0
  {
  }

  /** The complete write: k + 1 data blocks, k of them new, and a new indirect block. */
  lemma CompleteLogs(g: Geometry, d0: Disk, ns0: seq<Inode>, own0: map<nat, Slot>, d: Disk, ns: seq<Inode>,
                     own: map<nat, Slot>, lg: set<nat>, i: nat, off: nat, n: nat, k: nat)
    requires Scattered(g, d0, ns0, own0, i, k) && WellFormed(g, d, ns) && Owned(g, d, ns, own, {}) && |ns| == |ns0|
    requires 11 * BSIZE < off <= ns0[i].size && off < 12 * BSIZE && 1 <= k && 12 + k <= MAXFILE
    requires 0 < n && (off + n - 1) / BSIZE == 11 + k
    requires StillMapped(g, d0, ns0, d, ns) && Mapped(g, d, ns, i, off, off + n)
    requires DataLogged(g, d, ns, i, off, off + n, lg) && AllocsLogged(g, own0, {}, own, lg) && InodeBlock(g, i) in lg
    ensures |lg| >= 2 * k + 4
  {
    hide Ref, Owned, OneFreePerMap, NoHoles, FreeBlocks, BitmapBlock, StillMapped, AllocsLogged, Owns, InodeBlock;
    NoTail(g, d0, ns0, i);
    forall bn | 12 <= bn < 12 + k
      ensures Ref(g, d, ns, DataSlot(i, bn)) != 0
    {
      assert bn * BSIZE < off + n;
    }
    TailHasIndirect(g, d, ns, i);
    TailSize(g, d, ns, own, i, k);
    var x, ind, tail := Ref(g, d, ns, DataSlot(i, 11)), Ref(g, d, ns, Slot(i, NDIRECT)), Tail(g, d, ns, i, k);
    assert x in lg && x != 0;
    forall bn | 12 <= bn < 12 + k
      ensures var b := Ref(g, d, ns, DataSlot(i, bn));
                g.nmeta <= b < g.size && b in own && b !in own0 && b != ind && b != x
    {
      NewSlot(g, d0, ns0, own0, d, ns, own, DataSlot(i, bn));
      Different(g, d, ns, own, DataSlot(i, bn), Slot(i, NDIRECT));
      Different(g, d, ns, own, DataSlot(i, bn), DataSlot(i, 11));
    }
    NewSlot(g, d0, ns0, own0, d, ns, own, Slot(i, NDIRECT));
    Different(g, d, ns, own, DataSlot(i, 11), Slot(i, NDIRECT));
    RefInRange(g, d, ns, own, DataSlot(i, 11));
    assert |tail + {ind}| == k + 1;
    LoggedMany(g, d0, ns0, own0, own, lg, tail + {ind}, {x}, InodeBlock(g, i));
  }

  lemma Different(g: Geometry, d: Disk, ns: seq<Inode>, own: map<nat, Slot>, s: Slot, t: Slot)
    requires WellFormed(g, d, ns) && Owned(g, d, ns, own, {}) && SlotOk(ns, s) && SlotOk(ns, t) && s != t
    ensures Ref(g, d, ns, s) != 0 ==> Ref(g, d, ns, s) != Ref(g, d, ns, t)
  {
    hide Ref, Owned;
    if Ref(g, d, ns, s) != 0 && Ref(g, d, ns, s) == Ref(g, d, ns, t) {
      OwnedOnce(g, d, ns, own, {}, s, t);
    }
  }

  /** A write that fills the disk would have to log more than it can. */
  lemma FullLogs(g: Geometry, d0: Disk, ns0: seq<Inode>, own0: map<nat, Slot>, d: Disk, ns: seq<Inode>,
                 own: map<nat, Slot>, lg: set<nat>, i: nat, k: nat)
    requires Scattered(g, d0, ns0, own0, i, k) && WellFormed(g, d, ns) && Owned(g, d, ns, own, {})
    requires AllUsed(g, d) && AllocsLogged(g, own0, {}, own, lg) && InodeBlock(g, i) in lg
    ensures |lg| >= 2 * k + 5
  {
    hide Ref, Used, OneFreePerMap, NoHoles, BitmapBlock, AllocsLogged, Owns, InodeBlock;
    var n := FreeBlocks(g, d0);
    forall b | b in n
      ensures g.nmeta <= b < g.size && b in own && b !in own0
    {
    }
    LoggedMany(g, d0, ns0, own0, own, lg, n, {}, InodeBlock(g, i));
  }

  lemma ScatteredBound(off: nat, n: nat, k: nat)
    requires 11 * BSIZE < off < 12 * BSIZE && 0 < n && (off + n - 1) / BSIZE == 11 + k
    ensures WriteBound(off, n) == 2 * k + 4 && off + n <= (12 + k) * BSIZE
  {
  }

  /** In such a file system, a write from inside the twelfth block into the k-th block behind it succeeds and logs
      exactly 2k + 4 blocks: k + 1 data blocks, k + 1 free-map blocks, the indirect block and the inode. */
  method WriteLogsExactly(fs: Fs, inum: nat, off: nat, src: seq<Byte>, k: nat) returns (r: int)
    requires fs.Inv() && Scattered(fs.g, fs.disk, fs.inodes, fs.owner, inum, k) && fs.logged == {}
    requires 11 * BSIZE < off <= fs.inodes[inum].size && off < 12 * BSIZE && 1 <= k && 12 + k <= MAXFILE
    requires 0 < |src| && (off + |src| - 1) / BSIZE == 11 + k
    modifies fs
    ensures fs.Inv() && r == |src| && |fs.logged| == 2 * k + 4 && |fs.inodes| == old(|fs.inodes|)
    ensures fs.ContentOf(inum) == WriteOver(old(fs.ContentOf(inum)), off, src)
  {
    hide Owned, Ref, BlockAt, NoHoles, Used, AllUsed, Content, ByteAt, Scattered, AllocsLogged, DataLogged, Mapped,
         StillMapped, OthersSame, WriteBound;
    ScatteredBound(off, |src|, k);
    ScatteredNoHoles(fs.g, fs.disk, fs.inodes, fs.owner, inum, k);
    ghost var d0, ns0, own0 := fs.disk, fs.inodes, fs.owner;
    ghost var stray, lost;
    r, stray, lost := fs.Writei(inum, off, src, |src|);
    if r < |src| {
      FullLogs(fs.g, d0, ns0, own0, fs.disk, fs.inodes, fs.owner, fs.logged, inum, k);
      assert false;
    }
    assert src[..r] == src;
    CompleteLogs(fs.g, d0, ns0, own0, fs.disk, fs.inodes, fs.owner, fs.logged, inum, off, |src|, k);
  }

  lemma ScatteredNoHoles(g: Geometry, d: Disk, ns: seq<Inode>, own: map<nat, Slot>, i: nat, k: nat)
    requires Scattered(g, d, ns, own, i, k)
    ensures WellFormed(g, d, ns) && i < |ns| && NoHoles(g, d, ns, i)
  {
  }

  // ------------------------------------------------------------ such a file system exists

  /** A disk of 40961 blocks as mkfs lays it out for 130416 inodes and 30 log blocks. Of each of the five full free-map
      blocks only the last bit is clear; block 40960 is free too. All other blocks from nmeta on are direct blocks,
      twelve to an inode, from inode 1 on. */
  const SMALL := Geometry(40961, 8191, 8185, 33)
  const TAKEN := 32764
  const NINODE := 130416
  const FILE := 2

  lemma SmallIsMkfs()
    ensures MetaBlocks(40961, NINODE, 30) <= 40961 && SMALL == Layout(40961, NINODE, 30)
  {
  }

  predicate IsData(b: nat) { 8192 <= b < 40960 && b % 8192 != 8191 }

  function BlockNo(t: nat): (b: nat) { 8192 * (t / 8191 + 1) + t % 8191 }
  function Rank(b: nat): (t: nat)
    requires b >= 8192
  {
    8191 * (b / 8192 - 1) + b % 8192
  }

  lemma RankOfBlock(t: nat)
    requires t < TAKEN
    ensures IsData(BlockNo(t)) && Rank(BlockNo(t)) == t
  {
    var q, m := t / 8191, t % 8191;
    assert t == 8191 * q + m && q < 4;
    assert BlockNo(t) == 8192 * (q + 1) + m;
    assert BlockNo(t) / 8192 == q + 1 && BlockNo(t) % 8192 == m;
  }

  lemma BlockOfRank(b: nat)
    requires IsData(b)
    ensures Rank(b) < TAKEN && BlockNo(Rank(b)) == b
  {
    var q, m := b / 8192, b % 8192;
    assert b == 8192 * q + m && 1 <= q < 5 && m < 8191;
    assert Rank(b) == 8191 * (q - 1) + m;
    assert Rank(b) / 8191 == q - 1 && Rank(b) % 8191 == m;
  }

  function FullMap(): (b: Block) {
    seq(BSIZE, p => if p == BSIZE - 1 then 127 else 255)
  }

  function SmallBlock(x: int): (b: Block) { if 8185 <= x < 8190 then FullMap() else ZeroBlock() }

  function SmallDisk(): (d: Disk)
    ensures |d| == SMALL.size && forall x | 0 <= x < SMALL.size :: d[x] == SmallBlock(x)
  {
    seq(40961, x => SmallBlock(x))
  }

  function SmallAddr(j: nat, k: nat): (b: nat) {
    if j >= 1 && k < NDIRECT && 12 * (j - 1) + k < TAKEN then BlockNo(12 * (j - 1) + k) else 0
  }

  function SmallSize(j: nat, size: nat): (n: nat)
    ensures n <= 12 * BSIZE || n == size
  {
    if j == FILE then size
    else if j >= 1 && 12 * (j - 1) < TAKEN then (if 12 * j <= TAKEN then 12 else TAKEN - 12 * (j - 1)) * BSIZE
    else 0
  }

  function SmallAddrs(j: nat): (q: seq<nat>)
    ensures |q| == NDIRECT + 1 && forall k | 0 <= k <= NDIRECT :: q[k] == SmallAddr(j, k)
  {
    seq(NDIRECT + 1, k requires 0 <= k <= NDIRECT => SmallAddr(j, k))
  }

  function SmallInodes(size: nat): (ns: seq<Inode>)
    ensures |ns| == NINODE
    ensures forall j | 0 <= j < NINODE :: ns[j] == Inode(SmallAddrs(j), SmallSize(j, size))
  {
    seq(NINODE, j requires 0 <= j < NINODE => Inode(SmallAddrs(j), SmallSize(j, size)))
  }

  ghost function SmallOwners(): (own: map<nat, Slot>) {
    map b: nat | b < 40960 && IsData(b) :: Slot(Rank(b) / 12 + 1, Rank(b) % 12)
  }

  lemma ByteBits(p: nat)
    requires p < 8
    ensures Bit(255, p) && (Bit(127, p) <==> p < 7) && !Bit(0, p)
  {
    assert Bit(255, 0) && Bit(255, 1) && Bit(255, 2) && Bit(255, 3);
    assert Bit(15, 0) && Bit(15, 1) && Bit(15, 2) && Bit(15, 3);
    assert Bit(255, 4) && Bit(255, 5) && Bit(255, 6) && Bit(255, 7);
    assert Bit(127, 0) && Bit(127, 1) && Bit(127, 2) && Bit(127, 3);
    assert Bit(7, 0) && Bit(7, 1) && Bit(7, 2) && !Bit(7, 3);
    assert Bit(127, 4) && Bit(127, 5) && Bit(127, 6) && !Bit(127, 7);
    assert !Bit(0, 0) && !Bit(0, 1) && !Bit(0, 2) && !Bit(0, 3);
    assert !Bit(0, 4) && !Bit(0, 5) && !Bit(0, 6) && !Bit(0, 7);
  }

  lemma SmallUsed(b: nat)
    requires b < 40961
    ensures GeometryOk(SMALL) && (Used(SMALL, SmallDisk(), b) <==> b < 40960 && b % 8192 != 8191)
  {
    hide Bit;
    var q, m := b / 8192, b % 8192;
    ByteBits(m % 8);
    assert BitmapBlock(SMALL, b) == q + 8185;
    assert q < 5 ==> SmallDisk()[q + 8185] == FullMap();
    assert q == 5 ==> SmallDisk()[q + 8185] == ZeroBlock();
  }

  lemma SmallRef(size: nat, s: Slot)
    requires s.inum < NINODE && s.k < NSLOTS
    ensures WellFormed(SMALL, SmallDisk(), SmallInodes(size))
    ensures Ref(SMALL, SmallDisk(), SmallInodes(size), s) ==
              if s.inum >= 1 && s.k < NDIRECT && 12 * (s.inum - 1) + s.k < TAKEN then BlockNo(12 * (s.inum - 1) + s.k)
              else 0
  {
    hide SmallDisk, SmallInodes, SmallAddrs, BlockNo;
    SmallWellFormed(size);
  }

  lemma SmallWellFormed(size: nat)
    ensures WellFormed(SMALL, SmallDisk(), SmallInodes(size))
  {
    hide BlockNo, SmallDisk, SmallInodes, SmallAddrs;
    var ns := SmallInodes(size);
    forall j | 0 <= j < NINODE
      ensures InodeOk(SMALL, ns[j])
    {
      forall k | 0 <= k <= NDIRECT
        ensures ns[j].addrs[k] < SMALL.size
      {
        if j >= 1 && k < NDIRECT && 12 * (j - 1) + k < TAKEN {
          RankOfBlock(12 * (j - 1) + k);
        }
      }
    }
  }

  lemma SmallOwned(size: nat)
    ensures Owned(SMALL, SmallDisk(), SmallInodes(size), SmallOwners(), {})
  {
    hide Ref, Used, BlockNo, Rank, SmallInodes, SmallDisk, SmallAddrs, WellFormed;
    var d, ns, own := SmallDisk(), SmallInodes(size), SmallOwners();
    SmallWellFormed(size);
    SmallLengths(size);
    forall s | SlotOk(ns, s) && Ref(SMALL, d, ns, s) != 0
      ensures Owns(own, s, Ref(SMALL, d, ns, s))
    {
      SmallRef(size, s);
      var t := 12 * (s.inum - 1) + s.k;
      RankOfBlock(t);
      assert t / 12 == s.inum - 1 && t % 12 == s.k;
    }
    forall b | b in own
      ensures SMALL.nmeta <= b < SMALL.size && SlotOk(ns, own[b]) && Ref(SMALL, d, ns, own[b]) == b
    {
      BlockOfRank(b);
      SmallRef(size, own[b]);
    }
    forall b | 0 <= b < SMALL.size
      ensures Used(SMALL, d, b) <==> b < SMALL.nmeta || b in own
    {
      SmallUsed(b);
    }
  }

  lemma SmallLengths(size: nat)
    ensures |SmallInodes(size)| == NINODE && |SmallDisk()| == SMALL.size && GeometryOk(SMALL)
  {
  }

  /** The file system fits the description for up to four more blocks. */
  lemma SmallScattered(size: nat, k: nat)
    requires 11 * BSIZE < size <= 12 * BSIZE && k <= 4
    ensures Scattered(SMALL, SmallDisk(), SmallInodes(size), SmallOwners(), FILE, k)
  {
    hide Ref, Used, BlockNo, Rank, SmallDisk, SmallInodes, SmallAddrs, SmallOwners, Owned;
    var d, ns := SmallDisk(), SmallInodes(size);
    SmallOwned(size);
    SmallWellFormed(size);
    forall b: nat | b < SMALL.size
      ensures Used(SMALL, d, b) <==> b < 40960 && b % 8192 != 8191
    {
      SmallUsed(b);
    }
    var six: set<nat> := {8191, 16383, 24575, 32767, 40959, 40960};
    assert six <= FreeBlocks(SMALL, d);
    SubsetCard(six, FreeBlocks(SMALL, d));
    forall bn | 0 <= bn < MAXFILE && bn * BSIZE < ns[FILE].size
      ensures Ref(SMALL, d, ns, DataSlot(FILE, bn)) != 0
    {
      SmallRef(size, DataSlot(FILE, bn));
      RankOfBlock(12 + bn);
    }
  }

  /** The largest chunk of filewrite can fill a reservation of 10 blocks, and two bytes more need 12. */
  method ChunkBoundIsTight(chunk: seq<Byte>, more: seq<Byte>) returns (full: Fs, over: Fs)
    requires |chunk| == ChunkSize(10) && |more| == ChunkSize(10) + 2
    ensures MetaBlocks(40961, NINODE, 30) <= 40961 && full.g == over.g == Layout(40961, NINODE, 30)
    ensures fresh(full) && full.Inv() && |full.inodes| > FILE && |full.logged| == 10
    ensures |full.ContentOf(FILE)| == 11 * BSIZE + 1 + |chunk| && full.ContentOf(FILE)[11 * BSIZE + 1..] == chunk
    ensures fresh(over) && over.Inv() && |over.inodes| > FILE && |over.logged| == 12
    ensures |over.ContentOf(FILE)| == 12 * BSIZE - 1 + |more| && over.ContentOf(FILE)[12 * BSIZE - 1..] == more
  {
    hide Owned, Ref, Used, SmallDisk, SmallInodes, SmallAddrs, SmallOwners, Scattered, WellFormed, Content;
    SmallIsMkfs();
    full := Small(11 * BSIZE + 1);
    SmallScattered(11 * BSIZE + 1, 3);
    var r := WriteLogsExactly(full, FILE, 11 * BSIZE + 1, chunk, 3);
    over := Small(12 * BSIZE - 1);
    SmallScattered(12 * BSIZE - 1, 4);
    r := WriteLogsExactly(over, FILE, 12 * BSIZE - 1, more, 4);
  }

  method Small(size: nat) returns (fs: Fs)
    requires 11 * BSIZE < size <= 12 * BSIZE
    ensures fresh(fs) && fs.Inv() && fs.g == SMALL && fs.disk == SmallDisk() && fs.inodes == SmallInodes(size)
    ensures fs.owner == SmallOwners() && fs.logged == {} && fs.inodes[FILE].size == size
  {
    hide Owned, Ref, Used, SmallDisk, SmallInodes, SmallAddrs, SmallOwners, WellFormed;
    SmallOwned(size);
    SmallWellFormed(size);
    fs := new Fs(SMALL, SmallDisk(), SmallInodes(size), SmallOwners());
  }
}
