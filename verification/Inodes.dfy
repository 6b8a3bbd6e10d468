/** Inodes, the free map and who owns which block.

    A slot is a place that can hold a block number: in inode i, slots 0..11 are the direct
    addresses, slot 12 is the address of the indirect block, and slots 13..268 are the words of
    that block. Every data block in use sits in exactly one slot. */
module Inodes {
  import opened Blocks

  type Disk = seq<Block>

  const NDIRECT := 12
  const NINDIRECT := NWORDS
  const MAXFILE := NDIRECT + NINDIRECT
  const NSLOTS := NDIRECT + 1 + NINDIRECT
  const BPB := 8 * BSIZE

  /** Blocks below nmeta (boot, super, log, inodes, free map) are never handed out. */
  datatype Geometry = Geometry(size: nat, nmeta: nat, bmapstart: nat, inodestart: nat)

  predicate GeometryOk(g: Geometry) {
    && 0 < g.nmeta <= g.size <= WORD_LIMIT
    && g.bmapstart + (g.size - 1) / BPB < g.nmeta
  }

  datatype Inode = Inode(addrs: seq<nat>, size: nat)

  datatype Slot = Slot(inum: nat, k: nat)

  /** The slot of the bn-th block of a file. */
  function DataSlot(inum: nat, bn: nat): (s: Slot)
    requires bn < MAXFILE
  {
    Slot(inum, if bn < NDIRECT then bn else bn + 1)
  }

  ghost predicate WellFormed(g: Geometry, d: Disk, ns: seq<Inode>) {
    && GeometryOk(g) && |d| == g.size
    && forall i | 0 <= i < |ns| :: InodeOk(g, ns[i])
  }

  predicate InodeOk(g: Geometry, n: Inode) {
    |n.addrs| == NDIRECT + 1 && forall k | 0 <= k <= NDIRECT :: n.addrs[k] < g.size
  }

  predicate SlotOk(ns: seq<Inode>, s: Slot) {
    s.inum < |ns| && s.k < NSLOTS
  }

  /** The block number in a slot, 0 when there is none. */
  function Ref(g: Geometry, d: Disk, ns: seq<Inode>, s: Slot): (b: nat)
    requires WellFormed(g, d, ns) && SlotOk(ns, s)
  {
    var a := ns[s.inum].addrs;
    if s.k <= NDIRECT then a[s.k]
    else if a[NDIRECT] == 0 then 0
    else Word(d[a[NDIRECT]], s.k - NDIRECT - 1)
  }

  // ------------------------------------------------------------ the free map

  function BitmapBlock(g: Geometry, b: nat): (r: nat)
    requires GeometryOk(g) && b < g.size
    ensures r < g.nmeta
  {
    b / BPB + g.bmapstart
  }

  predicate Used(g: Geometry, d: Disk, b: nat)
    requires GeometryOk(g) && |d| == g.size && b < g.size
  {
    Bit(d[BitmapBlock(g, b)][b % BPB / 8], b % BPB % 8)
  }

  function MarkUsed(g: Geometry, d: Disk, b: nat): (r: Disk)
    requires GeometryOk(g) && |d| == g.size && b < g.size
    ensures |r| == |d|
    ensures forall x | 0 <= x < g.size && x != BitmapBlock(g, b) :: r[x] == d[x]
  {
    var m, at := d[BitmapBlock(g, b)], b % BPB / 8;
    SetBitBits(m[at], b % BPB % 8, 0);
    d[BitmapBlock(g, b) := m[at := SetBit(m[at], b % BPB % 8)]]
  }

  function MarkFree(g: Geometry, d: Disk, b: nat): (r: Disk)
    requires GeometryOk(g) && |d| == g.size && b < g.size
    ensures |r| == |d|
    ensures forall x | 0 <= x < g.size && x != BitmapBlock(g, b) :: r[x] == d[x]
  {
    var m, at := d[BitmapBlock(g, b)], b % BPB / 8;
    ClearBitBits(m[at], b % BPB % 8, 0);
    d[BitmapBlock(g, b) := m[at := ClearBit(m[at], b % BPB % 8)]]
  }

  lemma BitPlace(b: nat, c: nat)
    requires b / BPB == c / BPB && b % BPB / 8 == c % BPB / 8 && b % BPB % 8 == c % BPB % 8
    ensures b == c
  {
  }

  lemma UsedAfterMarkUsed(g: Geometry, d: Disk, b: nat, c: nat)
    requires GeometryOk(g) && |d| == g.size && b < g.size && c < g.size
    ensures Used(g, MarkUsed(g, d, b), c) <==> b == c || Used(g, d, c)
  {
    SetBitBits(d[BitmapBlock(g, b)][b % BPB / 8], b % BPB % 8, c % BPB % 8);
    if b / BPB == c / BPB && b % BPB / 8 == c % BPB / 8 && b % BPB % 8 == c % BPB % 8 {
      BitPlace(b, c);
    }
  }

  lemma UsedAfterMarkFree(g: Geometry, d: Disk, b: nat, c: nat)
    requires GeometryOk(g) && |d| == g.size && b < g.size && c < g.size
    ensures Used(g, MarkFree(g, d, b), c) <==> b != c && Used(g, d, c)
  {
    ClearBitBits(d[BitmapBlock(g, b)][b % BPB / 8], b % BPB % 8, c % BPB % 8);
    if b / BPB == c / BPB && b % BPB / 8 == c % BPB / 8 && b % BPB % 8 == c % BPB % 8 {
      BitPlace(b, c);
    }
  }

  // ------------------------------------------------------------ ownership

  /** Every nonzero slot is the owner of its block, every owned block sits in its owner's slot, and a
      bit of the free map is set exactly for metadata, owned blocks and blocks in `spare`
      (allocated, not stored in a slot yet). */
  ghost predicate Owned(g: Geometry, d: Disk, ns: seq<Inode>, owner: map<nat, Slot>, spare: set<nat>) {
    && WellFormed(g, d, ns)
    && (forall s | SlotOk(ns, s) && Ref(g, d, ns, s) != 0 :: Owns(owner, s, Ref(g, d, ns, s)))
    && (forall b | b in owner :: g.nmeta <= b < g.size && SlotOk(ns, owner[b]) && Ref(g, d, ns, owner[b]) == b)
    && (forall b | b in spare :: g.nmeta <= b < g.size && b !in owner)
    && (forall b | 0 <= b < g.size :: Used(g, d, b) <==> b < g.nmeta || b in owner || b in spare)
  }

  ghost predicate Owns(owner: map<nat, Slot>, s: Slot, b: nat) {
    b in owner && owner[b] == s
  }

  /** No two slots hold the same block. */
  lemma OwnedOnce(g: Geometry, d: Disk, ns: seq<Inode>, owner: map<nat, Slot>, spare: set<nat>, s: Slot, t: Slot)
    requires Owned(g, d, ns, owner, spare) && SlotOk(ns, s) && SlotOk(ns, t)
    requires Ref(g, d, ns, s) == Ref(g, d, ns, t) != 0
    ensures s == t
  {
  }

  // ------------------------------------------------------------ steps that keep ownership

  /** Slots depend on the disk through the indirect blocks only. */
  lemma RefFrame(g: Geometry, d: Disk, e: Disk, ns: seq<Inode>, s: Slot)
    requires WellFormed(g, d, ns) && WellFormed(g, e, ns) && SlotOk(ns, s)
    requires s.k > NDIRECT ==> var a := ns[s.inum].addrs[NDIRECT]; a == 0 || d[a] == e[a]
    ensures Ref(g, d, ns, s) == Ref(g, e, ns, s)
  {
  }

  /** An indirect block is owned by slot 12 of its inode. */
  lemma IndirectOwner(g: Geometry, d: Disk, ns: seq<Inode>, owner: map<nat, Slot>, spare: set<nat>, i: nat)
    requires Owned(g, d, ns, owner, spare) && i < |ns|
    ensures var a := ns[i].addrs[NDIRECT];
            a == 0 || (a in owner && owner[a] == Slot(i, NDIRECT) && a !in spare && g.nmeta <= a < g.size)
  {
    assert Ref(g, d, ns, Slot(i, NDIRECT)) == ns[i].addrs[NDIRECT];
  }

  /** Changing disk blocks that are not indirect blocks, with the free map adjusted for `spare`. */
  lemma OwnedFrame(g: Geometry, d: Disk, e: Disk, ns: seq<Inode>, owner: map<nat, Slot>, spare: set<nat>,
      spare': set<nat>)
    requires Owned(g, d, ns, owner, spare) && |e| == |d|
    requires forall b | b in owner && owner[b].k == NDIRECT :: e[b] == d[b]
    requires forall b | b in spare' :: g.nmeta <= b < g.size && b !in owner
    requires forall b | 0 <= b < g.size :: Used(g, e, b) <==> b < g.nmeta || b in owner || b in spare'
    ensures Owned(g, e, ns, owner, spare')
    ensures forall s | SlotOk(ns, s) :: Ref(g, e, ns, s) == Ref(g, d, ns, s)
  {
    hide Word, Used;
    forall s | SlotOk(ns, s)
      ensures Ref(g, e, ns, s) == Ref(g, d, ns, s)
    {
      IndirectOwner(g, d, ns, owner, spare, s.inum);
      RefFrame(g, d, e, ns, s);
    }
  }

  /** balloc: a clear bit is set and the block is zeroed. */
  lemma AllocSpare(g: Geometry, d: Disk, ns: seq<Inode>, owner: map<nat, Slot>, spare: set<nat>, b: nat)
    requires Owned(g, d, ns, owner, spare) && b < g.size && !Used(g, d, b)
    ensures g.nmeta <= b && b !in owner && b !in spare
    ensures var e := MarkUsed(g, d, b)[b := ZeroBlock()];
            Owned(g, e, ns, owner, spare + {b}) && forall s | SlotOk(ns, s) :: Ref(g, e, ns, s) == Ref(g, d, ns, s)
  {
    var e := MarkUsed(g, d, b)[b := ZeroBlock()];
    forall c | 0 <= c < g.size
      ensures Used(g, e, c) <==> b == c || Used(g, d, c)
    {
      UsedAfterMarkUsed(g, d, b, c);
      assert e[BitmapBlock(g, c)] == MarkUsed(g, d, b)[BitmapBlock(g, c)];
    }
    hide Used, MarkUsed, Word;
    OwnedFrame(g, d, e, ns, owner, spare, spare + {b});
  }

  /** bfree: the bit of a block that no slot holds is cleared. */
  lemma FreeSpare(g: Geometry, d: Disk, ns: seq<Inode>, owner: map<nat, Slot>, spare: set<nat>, b: nat)
    requires Owned(g, d, ns, owner, spare) && b in spare
    ensures var e := MarkFree(g, d, b);
            Owned(g, e, ns, owner, spare - {b}) && forall s | SlotOk(ns, s) :: Ref(g, e, ns, s) == Ref(g, d, ns, s)
  {
    var e := MarkFree(g, d, b);
    forall c | 0 <= c < g.size
      ensures Used(g, e, c) <==> b != c && Used(g, d, c)
    {
      UsedAfterMarkFree(g, d, b, c);
    }
    hide Used, MarkFree, Word;
    OwnedFrame(g, d, e, ns, owner, spare, spare - {b});
  }

  /** Writing a block that is neither metadata nor an indirect block. */
  lemma WriteData(g: Geometry, d: Disk, ns: seq<Inode>, owner: map<nat, Slot>, spare: set<nat>, x: nat, c: Block)
    requires Owned(g, d, ns, owner, spare) && g.nmeta <= x < g.size
    requires x in owner ==> owner[x].k != NDIRECT
    ensures Owned(g, d[x := c], ns, owner, spare)
    ensures forall s | SlotOk(ns, s) :: Ref(g, d[x := c], ns, s) == Ref(g, d, ns, s)
  {
    var e := d[x := c];
    forall b | 0 <= b < g.size
      ensures Used(g, e, b) == Used(g, d, b)
    {
      assert e[BitmapBlock(g, b)] == d[BitmapBlock(g, b)];
    }
    hide Used, Word;
    OwnedFrame(g, d, e, ns, owner, spare, spare);
  }

  /** A spare block is stored in an empty address of an inode. A new indirect block must be zero. */
  lemma AttachAddr(g: Geometry, d: Disk, ns: seq<Inode>, owner: map<nat, Slot>, spare: set<nat>, i: nat, k: nat, b: nat)
    requires Owned(g, d, ns, owner, spare) && b in spare && i < |ns| && k <= NDIRECT
    requires ns[i].addrs[k] == 0 && (k == NDIRECT ==> d[b] == ZeroBlock())
    ensures var ms := ns[i := ns[i].(addrs := ns[i].addrs[k := b])];
            && Owned(g, d, ms, owner[b := Slot(i, k)], spare - {b})
            && forall s | SlotOk(ns, s) :: Ref(g, d, ms, s) == if s == Slot(i, k) then b else Ref(g, d, ns, s)
  {
    hide Used;
    var ms := ns[i := ns[i].(addrs := ns[i].addrs[k := b])];
    assert WellFormed(g, d, ms);
    forall s | SlotOk(ns, s)
      ensures Ref(g, d, ms, s) == if s == Slot(i, k) then b else Ref(g, d, ns, s)
    {
      if s.inum == i && k == NDIRECT && s.k > NDIRECT {
        WordOfZero(s.k - NDIRECT - 1);
      }
    }
    hide Ref, WellFormed;
    OwnedAdd(g, d, ns, ms, d, owner, spare, Slot(i, k), b);
  }

  /** A spare block is stored in an empty word of an indirect block. */
  lemma AttachEntry(g: Geometry, d: Disk, ns: seq<Inode>, owner: map<nat, Slot>, spare: set<nat>, i: nat, j: nat,
      b: nat)
    requires Owned(g, d, ns, owner, spare) && b in spare && i < |ns| && j < NINDIRECT
    requires var a := ns[i].addrs[NDIRECT]; a != 0 && Word(d[a], j) == 0
    ensures var a := ns[i].addrs[NDIRECT];
            var e := d[a := WithWord(d[a], j, b)];
            && Owned(g, e, ns, owner[b := Slot(i, NDIRECT + 1 + j)], spare - {b})
            && forall s | SlotOk(ns, s) ::
                 Ref(g, e, ns, s) == if s == Slot(i, NDIRECT + 1 + j) then b else Ref(g, d, ns, s)
  {
    var a := ns[i].addrs[NDIRECT];
    var e := d[a := WithWord(d[a], j, b)];
    IndirectOwner(g, d, ns, owner, spare, i);
    forall x | 0 <= x < g.size
      ensures Used(g, e, x) == Used(g, d, x)
    {
      assert e[BitmapBlock(g, x)] == d[BitmapBlock(g, x)];
    }
    hide Used, WithWord;
    forall s | SlotOk(ns, s)
      ensures Ref(g, e, ns, s) == if s == Slot(i, NDIRECT + 1 + j) then b else Ref(g, d, ns, s)
    {
      IndirectOwner(g, d, ns, owner, spare, s.inum);
      if s.inum == i && s.k > NDIRECT {
        WordOfWithWord(d[a], j, b, s.k - NDIRECT - 1);
      }
    }
    hide Ref, Word;
    OwnedAdd(g, d, ns, ns, e, owner, spare, Slot(i, NDIRECT + 1 + j), b);
  }

  lemma OwnedAdd(g: Geometry, d: Disk, ns: seq<Inode>, ms: seq<Inode>, e: Disk, owner: map<nat, Slot>, spare: set<nat>,
                 t: Slot, b: nat)
    requires Owned(g, d, ns, owner, spare) && b in spare && WellFormed(g, e, ms) && |ms| == |ns|
    requires SlotOk(ns, t) && Ref(g, d, ns, t) == 0
    requires forall s | SlotOk(ns, s) :: Ref(g, e, ms, s) == if s == t then b else Ref(g, d, ns, s)
    requires forall x | 0 <= x < g.size :: Used(g, e, x) == Used(g, d, x)
    ensures Owned(g, e, ms, owner[b := t], spare - {b})
  {
    hide Used, Ref;
  }

  /** The slots in `gone` are emptied; their blocks become spare. */
  lemma OwnedDrop(g: Geometry, d: Disk, ns: seq<Inode>, ms: seq<Inode>, owner: map<nat, Slot>, spare: set<nat>,
      gone: set<nat>)
    requires Owned(g, d, ns, owner, spare) && WellFormed(g, d, ms) && |ms| == |ns| && gone <= owner.Keys
    requires forall s | SlotOk(ns, s) :: Ref(g, d, ms, s) == if Ref(g, d, ns, s) in gone then 0 else Ref(g, d, ns, s)
    ensures Owned(g, d, ms, owner - gone, spare + gone)
  {
    hide Used, Ref, WellFormed;
  }
}
