/** Blocks and files of fs.c: the block allocator, the block map, truncation, and reading and
    writing a file through direct and indirect blocks.

    `disk` is the file system as the buffer cache shows it and `logged` is the set of blocks the
    current operation passed to log_write. */
module FileSystem {
  import opened Blocks
  import opened Inodes
  import opened Values

  const MAXBYTES := MAXFILE * BSIZE

  // ------------------------------------------------------------ files

  /** The bn-th block of file i; a block that is not mapped reads as zeros. */
  ghost function BlockAt(g: Geometry, d: Disk, ns: seq<Inode>, i: nat, bn: nat): (c: Block)
    requires WellFormed(g, d, ns) && i < |ns| && bn < MAXFILE
  {
    var b := Ref(g, d, ns, DataSlot(i, bn));
    if b == 0 || b >= g.size then ZeroBlock() else d[b]
  }

  /** A file is the sequence of its bytes. */
  ghost function Content(g: Geometry, d: Disk, ns: seq<Inode>, i: nat): (s: seq<Byte>)
    requires WellFormed(g, d, ns) && i < |ns| && ns[i].size <= MAXBYTES
    ensures |s| == ns[i].size
  {
    seq(ns[i].size, p requires 0 <= p < ns[i].size => ByteAt(g, d, ns, i, p))
  }

  /** Byte p of the address space of file i. */
  ghost function ByteAt(g: Geometry, d: Disk, ns: seq<Inode>, i: nat, p: nat): (c: Byte)
    requires WellFormed(g, d, ns) && i < |ns| && p < MAXBYTES
  {
    BlockAt(g, d, ns, i, p / BSIZE)[p % BSIZE]
  }

  /** All blocks of all files are the same on both sides. */
  ghost predicate SameBlocks(g: Geometry, d: Disk, ns: seq<Inode>, e: Disk, ms: seq<Inode>)
    requires WellFormed(g, d, ns) && WellFormed(g, e, ms)
  {
    && |ns| == |ms|
    && forall i, bn | 0 <= i < |ns| && 0 <= bn < MAXFILE :: BlockAt(g, d, ns, i, bn) == BlockAt(g, e, ms, i, bn)
  }

  /** Every block below the file's size is mapped. */
  ghost predicate NoHoles(g: Geometry, d: Disk, ns: seq<Inode>, i: nat)
    requires WellFormed(g, d, ns) && i < |ns|
  {
    forall bn | 0 <= bn < MAXFILE && bn * BSIZE < ns[i].size :: Ref(g, d, ns, DataSlot(i, bn)) != 0
  }

  ghost predicate AllUsed(g: Geometry, d: Disk)
    requires GeometryOk(g) && |d| == g.size
  {
    forall b | 0 <= b < g.size :: Used(g, d, b)
  }

  lemma SameRefsSameBlocks(g: Geometry, d: Disk, e: Disk, ns: seq<Inode>, owner: map<nat, Slot>, spare: set<nat>)
    requires Owned(g, d, ns, owner, spare) && WellFormed(g, e, ns)
    requires forall s | SlotOk(ns, s) :: Ref(g, e, ns, s) == Ref(g, d, ns, s)
    requires forall b | b in owner :: e[b] == d[b]
    ensures SameBlocks(g, d, ns, e, ns)
  {
    hide Ref, Used;
    forall i, bn | 0 <= i < |ns| && 0 <= bn < MAXFILE
      ensures BlockAt(g, d, ns, i, bn) == BlockAt(g, e, ns, i, bn)
    {
      assert SlotOk(ns, DataSlot(i, bn));
    }
  }

  /** Storing a zero block in an empty slot shows no difference. */
  lemma ZeroBlockSameBlocks(g: Geometry, d: Disk, ns: seq<Inode>, e: Disk, ms: seq<Inode>, owner: map<nat, Slot>,
                            spare: set<nat>, t: Slot, b: nat)
    requires Owned(g, d, ns, owner, spare) && WellFormed(g, e, ms) && |ms| == |ns|
    requires b in spare && SlotOk(ns, t) && Ref(g, d, ns, t) == 0 && d[b] == e[b] == ZeroBlock()
    requires forall s | SlotOk(ns, s) :: Ref(g, e, ms, s) == if s == t then b else Ref(g, d, ns, s)
    requires forall x | x in owner && owner[x].k != NDIRECT :: e[x] == d[x]
    ensures SameBlocks(g, d, ns, e, ms)
  {
    hide Ref, Used;
    forall i, bn | 0 <= i < |ns| && 0 <= bn < MAXFILE
      ensures BlockAt(g, d, ns, i, bn) == BlockAt(g, e, ms, i, bn)
    {
      var s := DataSlot(i, bn);
      assert SlotOk(ns, s) && s.k != NDIRECT;
      if Ref(g, d, ns, s) != 0 {
        assert Owns(owner, s, Ref(g, d, ns, s));
      }
    }
  }

  lemma BitInBlock(g: Geometry, d: Disk, b: nat, bi: nat)
    requires GeometryOk(g) && |d| == g.size && b % BPB == 0 && bi < BPB && b + bi < g.size
    ensures BitmapBlock(g, b + bi) == BitmapBlock(g, b) && (b + bi) % BPB == bi
    ensures Used(g, d, b + bi) <==> Bit(d[BitmapBlock(g, b)][bi / 8], bi % 8)
  {
  }

  lemma MarkIs(g: Geometry, d: Disk, b: nat, bi: nat)
    requires GeometryOk(g) && |d| == g.size && b % BPB == 0 && bi < BPB && b + bi < g.size
    ensures SetBit(d[BitmapBlock(g, b)][bi / 8], bi % 8) < 256
    ensures var bp := d[BitmapBlock(g, b)];
            MarkUsed(g, d, b + bi) == d[BitmapBlock(g, b) := bp[bi / 8 := SetBit(bp[bi / 8], bi % 8)]]
  {
    hide Bit, SetBit, Used;
    BitInBlock(g, d, b, bi);
    SetBitBits(d[BitmapBlock(g, b)][bi / 8], bi % 8, 0);
  }

  lemma AllUsedIs(g: Geometry, d: Disk)
    requires GeometryOk(g) && |d| == g.size
    ensures AllUsed(g, d) <==> forall b | 0 <= b < g.size :: Used(g, d, b)
  {
    hide Used;
  }

  lemma SameBlocksSameContent(g: Geometry, d: Disk, ns: seq<Inode>, e: Disk, ms: seq<Inode>, i: nat)
    requires WellFormed(g, d, ns) && WellFormed(g, e, ms) && SameBlocks(g, d, ns, e, ms)
    requires i < |ns| && ns[i].size == ms[i].size <= MAXBYTES
    ensures Content(g, d, ns, i) == Content(g, e, ms, i)
  {
    hide BlockAt;
  }

  lemma ContentPiece(g: Geometry, d: Disk, ns: seq<Inode>, i: nat, off: nat, m: nat)
    requires WellFormed(g, d, ns) && i < |ns| && off + m <= ns[i].size <= MAXBYTES
    requires off % BSIZE + m <= BSIZE && off < MAXBYTES
    ensures Content(g, d, ns, i)[off..off + m] == BlockAt(g, d, ns, i, off / BSIZE)[off % BSIZE..off % BSIZE + m]
  {
    hide BlockAt;
    var s, c := Content(g, d, ns, i), BlockAt(g, d, ns, i, off / BSIZE);
    forall p | off <= p < off + m
      ensures s[p] == c[p - off + off % BSIZE]
    {
      assert p / BSIZE == off / BSIZE && p % BSIZE == p - off + off % BSIZE;
    }
    var a, b := s[off..off + m], c[off % BSIZE..off % BSIZE + m];
    forall k | 0 <= k < m
      ensures a[k] == b[k]
    {
      assert a[k] == s[off + k];
    }
  }

  /** memmove of a piece into a block. */
  function Splice(c: Block, at: nat, piece: seq<Byte>): (r: Block)
    requires at + |piece| <= BSIZE
  {
    c[..at] + piece + c[at + |piece|..]
  }

  /** Writing a piece into a mapped block changes those bytes of that file and nothing else. */
  lemma WritePiece(g: Geometry, d: Disk, ns: seq<Inode>, owner: map<nat, Slot>, i: nat, off: nat, piece: seq<Byte>)
    requires Owned(g, d, ns, owner, {}) && i < |ns| && off < MAXBYTES && off % BSIZE + |piece| <= BSIZE
    requires Ref(g, d, ns, DataSlot(i, off / BSIZE)) != 0
    ensures var addr := Ref(g, d, ns, DataSlot(i, off / BSIZE));
            && addr < g.size
            && var e := d[addr := Splice(d[addr], off % BSIZE, piece)];
            && Owned(g, e, ns, owner, {})
            && (forall s | SlotOk(ns, s) :: Ref(g, e, ns, s) == Ref(g, d, ns, s))
            && (forall p | 0 <= p < MAXBYTES ::
                  ByteAt(g, e, ns, i, p) == if off <= p < off + |piece| then piece[p - off] else ByteAt(g, d, ns, i, p))
            && (forall j, bn | 0 <= j < |ns| && j != i && 0 <= bn < MAXFILE ::
                  BlockAt(g, e, ns, j, bn) == BlockAt(g, d, ns, j, bn))
  {
    var t, bn := DataSlot(i, off / BSIZE), off / BSIZE;
    var addr := Ref(g, d, ns, t);
    assert Owns(owner, t, addr);
    var e := d[addr := Splice(d[addr], off % BSIZE, piece)];
    WriteData(g, d, ns, owner, {}, addr, e[addr]);
    hide Ref, Used;
    forall j, k | 0 <= j < |ns| && 0 <= k < MAXFILE
      ensures BlockAt(g, e, ns, j, k) == if j == i && k == bn then e[addr] else BlockAt(g, d, ns, j, k)
    {
      var s := DataSlot(j, k);
      if Ref(g, d, ns, s) == addr {
        assert Owns(owner, s, addr);
      }
    }
    hide BlockAt, Owned;
    forall p | 0 <= p < MAXBYTES
      ensures ByteAt(g, e, ns, i, p) == if off <= p < off + |piece| then piece[p - off] else ByteAt(g, d, ns, i, p)
    {
      assert BlockAt(g, d, ns, i, bn) == d[addr] by { BlockOfRef(g, d, ns, i, bn); }
      PieceByte(d[addr], off, piece, p);
    }
  }

  lemma BlockOfRef(g: Geometry, d: Disk, ns: seq<Inode>, i: nat, bn: nat)
    requires WellFormed(g, d, ns) && i < |ns| && bn < MAXFILE
    ensures var b := Ref(g, d, ns, DataSlot(i, bn)); 0 < b < g.size ==> BlockAt(g, d, ns, i, bn) == d[b]
  {
  }

  lemma PieceByte(c: Block, off: nat, piece: seq<Byte>, p: nat)
    requires off % BSIZE + |piece| <= BSIZE
    ensures p / BSIZE != off / BSIZE ==> !(off <= p < off + |piece|)
    ensures p / BSIZE == off / BSIZE ==>
              Splice(c, off % BSIZE, piece)[p % BSIZE] == if off <= p < off + |piece| then piece[p - off]
                  else c[p % BSIZE]
  {
  }

  function IndirectSet(n: Inode): (r: set<nat>)
    requires |n.addrs| == NDIRECT + 1
    ensures |r| <= 1
  {
    if n.addrs[NDIRECT] == 0 then {} else {n.addrs[NDIRECT]}
  }

  /** The block of the inode table that holds inode inum: 16 inodes of 64 bytes per block. */
  function InodeBlock(g: Geometry, inum: nat): (b: nat) {
    inum / 16 + g.inodestart
  }

  /** No file but i changes. */
  ghost predicate OthersSame(g: Geometry, d: Disk, ns: seq<Inode>, e: Disk, ms: seq<Inode>, i: nat)
    requires WellFormed(g, d, ns) && WellFormed(g, e, ms)
  {
    && |ns| == |ms|
    && forall j, bn | 0 <= j < |ns| && j != i && 0 <= bn < MAXFILE ::
         BlockAt(g, d, ns, j, bn) == BlockAt(g, e, ms, j, bn)
  }

  /** The bytes of file i on the right are those on the left with src laid over them at off. */
  ghost predicate Overlaid(g: Geometry, d: Disk, ns: seq<Inode>, e: Disk, ms: seq<Inode>, i: nat, off: nat,
      src: seq<Byte>)
    requires WellFormed(g, d, ns) && WellFormed(g, e, ms) && i < |ns| && i < |ms|
  {
    forall p | 0 <= p < MAXBYTES ::
      ByteAt(g, e, ms, i, p) == if off <= p < off + |src| then src[p - off] else ByteAt(g, d, ns, i, p)
  }

  /** Mapped slots keep their blocks. */
  ghost predicate StillMapped(g: Geometry, d: Disk, ns: seq<Inode>, e: Disk, ms: seq<Inode>)
    requires WellFormed(g, d, ns) && WellFormed(g, e, ms)
  {
    && |ns| == |ms|
    && forall s | SlotOk(ns, s) && Ref(g, d, ns, s) != 0 :: Ref(g, e, ms, s) == Ref(g, d, ns, s)
  }

  /** Every newly owned block has been logged, and the free-map block that holds its bit. */
  ghost predicate AllocsLogged(g: Geometry, own0: map<nat, Slot>, lg0: set<nat>, own: map<nat, Slot>, lg: set<nat>)
    requires GeometryOk(g)
  {
    && lg0 <= lg
    && forall b | b in own && b !in own0 :: b < g.size && b in lg && BitmapBlock(g, b) in lg
  }

  lemma AllocsNone(g: Geometry, own: map<nat, Slot>, lg: set<nat>, more: set<nat>)
    requires GeometryOk(g)
    ensures AllocsLogged(g, own, lg, own, lg + more)
  {
  }

  lemma AllocsSame(g: Geometry, own: map<nat, Slot>, lg: set<nat>)
    requires GeometryOk(g)
    ensures AllocsLogged(g, own, lg, own, lg)
  {
  }

  lemma AllocsOne(g: Geometry, own: map<nat, Slot>, lg: set<nat>, b: nat, t: Slot, lg': set<nat>)
    requires GeometryOk(g) && b < g.size && lg <= lg' && b in lg' && BitmapBlock(g, b) in lg'
    ensures AllocsLogged(g, own, lg, own[b := t], lg')
  {
  }

  lemma AllocsTrans(g: Geometry, own0: map<nat, Slot>, lg0: set<nat>, own1: map<nat, Slot>, lg1: set<nat>,
                    own2: map<nat, Slot>, lg2: set<nat>)
    requires GeometryOk(g) && AllocsLogged(g, own0, lg0, own1, lg1) && AllocsLogged(g, own1, lg1, own2, lg2)
    ensures AllocsLogged(g, own0, lg0, own2, lg2)
  {
    hide BitmapBlock;
  }

  /** The blocks that hold the bytes from off0 up to off have been logged. */
  ghost predicate DataLogged(g: Geometry, d: Disk, ns: seq<Inode>, i: nat, off0: nat, off: nat, lg: set<nat>)
    requires WellFormed(g, d, ns) && i < |ns|
  {
    off0 < off ==>
      forall bn | off0 / BSIZE <= bn < MAXFILE && bn * BSIZE < off :: Ref(g, d, ns, DataSlot(i, bn)) in lg
  }

  lemma DataLoggedNone(g: Geometry, d: Disk, ns: seq<Inode>, i: nat, off: nat, lg: set<nat>)
    requires WellFormed(g, d, ns) && i < |ns|
    ensures DataLogged(g, d, ns, i, off, off, lg)
  {
  }

  lemma AllocsMono(g: Geometry, own: map<nat, Slot>, lg: set<nat>, own': map<nat, Slot>, lg': set<nat>)
    requires GeometryOk(g) && AllocsLogged(g, own, lg, own', lg')
    ensures lg <= lg'
  {
    hide BitmapBlock;
  }

  lemma DataLoggedGrow(g: Geometry, d: Disk, ns: seq<Inode>, e: Disk, ms: seq<Inode>, i: nat, off0: nat, off: nat,
      m: nat,
                       lg: set<nat>, lg': set<nat>)
    requires WellFormed(g, d, ns) && WellFormed(g, e, ms) && i < |ns| && StillMapped(g, d, ns, e, ms)
    requires Mapped(g, d, ns, i, off0, off) && DataLogged(g, d, ns, i, off0, off, lg) && lg <= lg'
    requires off0 <= off && off + m <= MAXBYTES && off % BSIZE + m <= BSIZE && off < MAXBYTES
    requires m > 0 ==> Ref(g, e, ms, DataSlot(i, off / BSIZE)) in lg'
    ensures DataLogged(g, e, ms, i, off0, off + m, lg')
  {
    hide Ref;
    forall bn | off0 < off + m && off0 / BSIZE <= bn < MAXFILE && bn * BSIZE < off + m
      ensures Ref(g, e, ms, DataSlot(i, bn)) in lg'
    {
      if m == 0 || bn != off / BSIZE {
        assert bn * BSIZE < off;
        assert Ref(g, d, ns, DataSlot(i, bn)) != 0;
      }
    }
  }

  /** Every block whose contents changed from d to e is among the logged ones, apart from those in `but`; what was
      logged stays logged. */
  ghost predicate ChangesLogged(d: Disk, e: Disk, lg: set<nat>, lg': set<nat>, but: set<nat>) {
    && lg <= lg' && |e| == |d|
    && forall b: nat | b < |d| && b !in but && e[b] != d[b] :: b in lg'
  }

  lemma NoChanges(d: Disk, lg: set<nat>)
    ensures ChangesLogged(d, d, lg, lg, {})
  {
  }

  lemma ChangesTrans(d: Disk, e: Disk, f: Disk, lg: set<nat>, lg1: set<nat>, lg2: set<nat>, but: set<nat>)
    requires ChangesLogged(d, e, lg, lg1, {}) && ChangesLogged(e, f, lg1, lg2, but)
    ensures ChangesLogged(d, f, lg, lg2, but)
  {
  }

  lemma MoreLogged(d: Disk, e: Disk, lg: set<nat>, lg1: set<nat>, lg2: set<nat>, but: set<nat>)
    requires ChangesLogged(d, e, lg, lg1, but) && lg1 <= lg2
    ensures ChangesLogged(d, e, lg, lg2, but)
  {
  }

  lemma OneChange(d: Disk, e: Disk, lg: set<nat>, lg': set<nat>, b: nat)
    requires lg <= lg' && b < |d| == |e| && e == d[b := e[b]]
    ensures ChangesLogged(d, e, lg, lg', {b})
    ensures e[b] == d[b] ==> ChangesLogged(d, e, lg, lg', {})
  {
  }

  lemma MarkLogged(g: Geometry, d: Disk, r: nat, lg: set<nat>)
    requires GeometryOk(g) && |d| == g.size && r < g.size
    ensures ChangesLogged(d, MarkUsed(g, d, r)[r := ZeroBlock()], lg, lg + {BitmapBlock(g, r), r}, {})
    ensures ChangesLogged(d, MarkFree(g, d, r), lg, lg + {BitmapBlock(g, r)}, {})
  {
    hide Bit, SetBit, ClearBit;
  }

  /** The log holds what was allocated, every block that changed apart from those in `but`, and the data blocks of the
      bytes off0 up to off of inode i. */
  ghost predicate LogComplete(g: Geometry, d: Disk, own: map<nat, Slot>, lg: set<nat>, e: Disk, ms: seq<Inode>,
                              own': map<nat, Slot>, lg': set<nat>, i: nat, off0: nat, off: nat, but: set<nat>)
    requires WellFormed(g, e, ms) && i < |ms|
  {
    && AllocsLogged(g, own, lg, own', lg') && ChangesLogged(d, e, lg, lg', but)
    && DataLogged(g, e, ms, i, off0, off, lg')
  }

  lemma NothingLogged(g: Geometry, d: Disk, ns: seq<Inode>, own: map<nat, Slot>, lg: set<nat>, i: nat, off0: nat)
    requires WellFormed(g, d, ns) && i < |ns|
    ensures LogComplete(g, d, own, lg, d, ns, own, lg, i, off0, off0, {})
  {
    hide AllocsLogged, ChangesLogged, DataLogged;
    AllocsSame(g, own, lg);
    NoChanges(d, lg);
    DataLoggedNone(g, d, ns, i, off0, lg);
  }

  lemma RoundLogged(g: Geometry, d0: Disk, own0: map<nat, Slot>, lg0: set<nat>, d: Disk, ns: seq<Inode>,
                    own: map<nat, Slot>, lg: set<nat>, e: Disk, ms: seq<Inode>, own': map<nat, Slot>, lg': set<nat>,
                    i: nat, off0: nat, off: nat, m: nat, but: set<nat>)
    requires WellFormed(g, d, ns) && WellFormed(g, e, ms) && i < |ns| && StillMapped(g, d, ns, e, ms)
    requires LogComplete(g, d0, own0, lg0, d, ns, own, lg, i, off0, off, {}) && Mapped(g, d, ns, i, off0, off)
    requires AllocsLogged(g, own, lg, own', lg') && ChangesLogged(d, e, lg, lg', but)
    requires off0 <= off && off + m <= MAXBYTES && off % BSIZE + m <= BSIZE && off < MAXBYTES
    requires m > 0 ==> Ref(g, e, ms, DataSlot(i, off / BSIZE)) in lg'
    ensures LogComplete(g, d0, own0, lg0, e, ms, own', lg', i, off0, off + m, but)
  {
    hide AllocsLogged, ChangesLogged, DataLogged, Ref, Mapped, StillMapped;
    AllocsTrans(g, own0, lg0, own, lg, own', lg');
    ChangesTrans(d0, d, e, lg0, lg, lg', but);
    AllocsMono(g, own, lg, own', lg');
    DataLoggedGrow(g, d, ns, e, ms, i, off0, off, m, lg, lg');
  }

  class Fs {
    const g: Geometry
    var disk: Disk
    var inodes: seq<Inode>
    var logged: set<nat>
    ghost var owner: map<nat, Slot>

    ghost predicate Inv()
      reads this
    {
      && WellFormed(g, disk, inodes) && Owned(g, disk, inodes, owner, {})
      && forall i | 0 <= i < |inodes| :: inodes[i].size <= MAXBYTES
    }

    /** A file system whose blocks all have their owner, such as the one that mkfs makes. */
    constructor (g: Geometry, disk: Disk, inodes: seq<Inode>, ghost owner: map<nat, Slot>)
      requires WellFormed(g, disk, inodes) && Owned(g, disk, inodes, owner, {})
      requires forall i | 0 <= i < |inodes| :: inodes[i].size <= MAXBYTES
      ensures Inv() && this.g == g && this.disk == disk && this.inodes == inodes && this.owner == owner && logged == {}
    {
      this.g, this.disk, this.inodes, this.owner, this.logged := g, disk, inodes, owner, {};
    }

    /** Modify a buffer and pass it to log_write. */
    method LogWrite(b: nat, data: Block)
      requires b < |disk|
      modifies this`disk, this`logged
      ensures disk == old(disk)[b := data] && logged == old(logged) + {b}
      ensures ChangesLogged(old(disk), disk, old(logged), logged, {})
    {
      disk := disk[b := data];
      logged := logged + {b};
    }

    // ---------------------------------------------------------- blocks

    /** balloc's inner loop: the first clear bit in the free-map block whose bits start with block b. */
    method ScanBits(b: nat) returns (bi: nat)
      requires GeometryOk(g) && |disk| == g.size && b % BPB == 0 && b < g.size
      ensures bi <= BPB && b + bi <= g.size && forall c | b <= c < b + bi :: Used(g, disk, c)
      ensures bi < BPB && b + bi < g.size ==> !Used(g, disk, b + bi)
    {
      hide Used, Bit, BitmapBlock;
      var bp := disk[BitmapBlock(g, b)];
      bi := 0;
      while bi < BPB && b + bi < g.size
        invariant 0 <= bi <= BPB && b + bi <= g.size && forall c | b <= c < b + bi :: Used(g, disk, c)
      {
        BitInBlock(g, disk, b, bi);
        if !Bit(bp[bi / 8], bi % 8) {
          return;
        }
        bi := bi + 1;
      }
    }

    /** Sets the bit of a block and zeroes the block. */
    method MarkAndZero(b: nat, bi: nat)
      requires GeometryOk(g) && |disk| == g.size && b % BPB == 0 && bi < BPB && b + bi < g.size
      modifies this`disk, this`logged
      ensures |disk| == g.size
      ensures disk == MarkUsed(g, old(disk), b + bi)[b + bi := ZeroBlock()]
      ensures logged == old(logged) + {BitmapBlock(g, b + bi), b + bi}
      ensures ChangesLogged(old(disk), disk, old(logged), logged, {})
    {
      hide Used, Bit, SetBit, BitmapBlock, MarkUsed, ChangesLogged;
      BitInBlock(g, disk, b, bi);
      MarkIs(g, disk, b, bi);
      MarkLogged(g, disk, b + bi, logged);
      var bp := disk[BitmapBlock(g, b)];
      bp := bp[bi / 8 := SetBit(bp[bi / 8], bi % 8)];
      LogWrite(BitmapBlock(g, b), bp);
      LogWrite(b + bi, ZeroBlock());
    }

    /** Takes the lowest free block, marks it and zeroes it; 0 when the disk is full. */
    method Balloc() returns (r: nat)
      requires GeometryOk(g) && |disk| == g.size
      modifies this`disk, this`logged
      ensures |disk| == g.size
      ensures AllUsed(g, old(disk)) ==> r == 0 && disk == old(disk) && logged == old(logged)
      ensures Used(g, old(disk), 0) && r == 0 ==> AllUsed(g, old(disk))
      ensures !AllUsed(g, old(disk)) ==>
                && r < g.size && !Used(g, old(disk), r) && (forall b | 0 <= b < r :: Used(g, old(disk), b))
                && disk == MarkUsed(g, old(disk), r)[r := ZeroBlock()]
                && logged == old(logged) + {BitmapBlock(g, r), r}
      ensures ChangesLogged(old(disk), disk, old(logged), logged, {})
    {
      hide Used, BitmapBlock, MarkUsed, AllUsed, ChangesLogged;
      AllUsedIs(g, disk);
      NoChanges(disk, logged);
      var b := 0;
      while b < g.size
        invariant b % BPB == 0 && disk == old(disk) && logged == old(logged)
        invariant forall c | 0 <= c < b && c < g.size :: Used(g, disk, c)
      {
        var bi := ScanBits(b);
        if bi < BPB && b + bi < g.size {
          MarkAndZero(b, bi);
          return b + bi;
        }
        b := b + BPB;
      }
      return 0;
    }

    /** Clears the bit of block b; false stands for the panic "freeing free block". */
    method Bfree(b: nat) returns (ok: bool)
      requires GeometryOk(g) && |disk| == g.size && b < g.size
      modifies this`disk, this`logged
      ensures |disk| == g.size
      ensures ok <==> Used(g, old(disk), b)
      ensures !ok ==> disk == old(disk) && logged == old(logged)
      ensures ok ==> disk == MarkFree(g, old(disk), b) && logged == old(logged) + {BitmapBlock(g, b)}
      ensures ChangesLogged(old(disk), disk, old(logged), logged, {})
    {
      var bp := disk[BitmapBlock(g, b)];
      var bi := b % BPB;
      if !Bit(bp[bi / 8], bi % 8) {
        return false;
      }
      ClearBitBits(bp[bi / 8], bi % 8, 0);
      bp := bp[bi / 8 := ClearBit(bp[bi / 8], bi % 8)];
      LogWrite(BitmapBlock(g, b), bp);
      ok := true;
    }

    // ---------------------------------------------------------- the block map

    /** Address k of an inode (a direct block or the indirect block), allocated if missing. */
    method BmapAddr(inum: nat, k: nat) returns (addr: nat)
      requires Inv() && inum < |inodes| && k <= NDIRECT
      modifies this
      ensures Inv() && |inodes| == old(|inodes|)
      ensures addr == inodes[inum].addrs[k] && addr < g.size
      ensures old(inodes[inum].addrs[k]) != 0 || addr == 0 ==>
                disk == old(disk) && inodes == old(inodes) && logged == old(logged) && owner == old(owner)
      ensures addr == 0 ==> AllUsed(g, disk)
      ensures addr != 0 && old(inodes[inum].addrs[k]) == 0 ==>
                && inodes == old(inodes)[inum := old(inodes)[inum].(addrs := old(inodes)[inum].addrs[k := addr])]
                && logged == old(logged) + {BitmapBlock(g, addr), addr}
      ensures AllocsLogged(g, old(owner), old(logged), owner, logged)
      ensures forall s | SlotOk(inodes, s) && s != Slot(inum, k) ::
              Ref(g, disk, inodes, s) == Ref(g, old(disk), old(inodes), s)
      ensures SameBlocks(g, old(disk), old(inodes), disk, inodes)
      ensures ChangesLogged(old(disk), disk, old(logged), logged, {})
    {
      hide Ref, Used, AllUsed, MarkUsed, Owned, AllocsLogged, ChangesLogged;
      addr := inodes[inum].addrs[k];
      ZeroIsUsed(g, disk, inodes, owner);
      AllocsSame(g, owner, logged);
      NoChanges(disk, logged);
      if addr == 0 {
        addr := Balloc();
        if addr == 0 {
          return;
        }
        AllocSpare(g, old(disk), inodes, owner, {}, addr);
        ghost var d := disk;
        BlocksAfterAlloc(g, old(disk), inodes, owner, addr);
        assert Ref(g, d, inodes, Slot(inum, k)) == 0 by { AddrRef(g, d, inodes, inum, k); }
        AttachAddr(g, d, inodes, owner, {} + {addr}, inum, k, addr);
        assert {} + {addr} - {addr} == {};
        ghost var ns := inodes;
        inodes := inodes[inum := inodes[inum].(addrs := inodes[inum].addrs[k := addr])];
        ZeroBlockSameBlocks(g, d, ns, d, inodes, owner, {} + {addr}, Slot(inum, k), addr);
        AllocsOne(g, old(owner), old(logged), addr, Slot(inum, k), logged);
        owner := owner[addr := Slot(inum, k)];
      }
    }

    /** Word j of the indirect block, allocated if missing. */
    method BmapEntry(inum: nat, j: nat) returns (addr: nat)
      requires Inv() && inum < |inodes| && j < NINDIRECT && inodes[inum].addrs[NDIRECT] != 0
      modifies this
      ensures Inv() && inodes == old(inodes)
      ensures addr == Ref(g, disk, inodes, Slot(inum, NDIRECT + 1 + j)) && addr < g.size
      ensures Ref(g, old(disk), old(inodes), Slot(inum, NDIRECT + 1 + j)) != 0 || addr == 0 ==>
                disk == old(disk) && logged == old(logged) && owner == old(owner)
      ensures addr == 0 ==> AllUsed(g, disk)
      ensures addr != 0 && Ref(g, old(disk), old(inodes), Slot(inum, NDIRECT + 1 + j)) == 0 ==>
                logged == old(logged) + {BitmapBlock(g, addr), addr} + {inodes[inum].addrs[NDIRECT]}
      ensures AllocsLogged(g, old(owner), old(logged), owner, logged)
      ensures forall s | SlotOk(inodes, s) && s != Slot(inum, NDIRECT + 1 + j) ::
              Ref(g, disk, inodes, s) == Ref(g, old(disk), old(inodes), s)
      ensures SameBlocks(g, old(disk), old(inodes), disk, inodes)
      ensures ChangesLogged(old(disk), disk, old(logged), logged, {})
    {
      hide Ref, Used, AllUsed, MarkUsed, Word, WithWord, Owned, SameBlocks, AllocsLogged, ChangesLogged;
      AllocsSame(g, owner, logged);
      NoChanges(disk, logged);
      var ind := inodes[inum].addrs[NDIRECT];
      ghost var t := Slot(inum, NDIRECT + 1 + j);
      addr := Word(disk[ind], j);
      EntryRef(g, disk, inodes, inum, j);
      SameBlocksRefl(g, disk, inodes);
      ZeroIsUsed(g, disk, inodes, owner);
      if addr != 0 {
        RefInRange(g, disk, inodes, owner, t);
        return;
      }
      addr := Balloc();
      if addr == 0 {
        return;
      }
      ghost var d, lg := disk, logged;
      EntryAttached(g, old(disk), inodes, owner, inum, j, addr);
      LogWrite(ind, WithWord(disk[ind], j, addr));
      ChangesTrans(old(disk), d, disk, old(logged), lg, logged, {});
      AllocsOne(g, old(owner), old(logged), addr, t, logged);
      owner := owner[addr := t];
    }

    /** Block number of the bn-th block of a file, allocating it (and the indirect block) if missing;
        0 when the disk is full. `maps` are the free-map blocks it logged. */
    method Bmap(inum: nat, bn: nat) returns (addr: nat, ghost maps: set<nat>)
      requires Inv() && inum < |inodes| && bn < MAXFILE
      modifies this
      ensures Inv() && |inodes| == old(|inodes|)
      ensures forall i | 0 <= i < |inodes| ::
                inodes[i].size == old(inodes[i].size) && (i != inum ==> inodes[i] == old(inodes[i]))
      ensures addr == Ref(g, disk, inodes, DataSlot(inum, bn)) && addr < g.size
      ensures Ref(g, old(disk), old(inodes), DataSlot(inum, bn)) != 0 ==>
                disk == old(disk) && inodes == old(inodes) && logged == old(logged) && owner == old(owner)
      ensures addr == 0 ==> AllUsed(g, disk)
      ensures forall s | SlotOk(inodes, s)
              && (Ref(g, old(disk), old(inodes), s) != 0 || !(s == DataSlot(inum, bn) || s == Slot(inum, NDIRECT))) ::
                Ref(g, disk, inodes, s) == Ref(g, old(disk), old(inodes), s)
      ensures SameBlocks(g, old(disk), old(inodes), disk, inodes)
      ensures logged <= old(logged) + maps + (if addr == 0 then {} else {addr}) + IndirectSet(inodes[inum])
      ensures |maps| <= if Ref(g, old(disk), old(inodes), DataSlot(inum, bn)) != 0 then 0
                        else if bn < NDIRECT || old(inodes[inum].addrs[NDIRECT]) != 0 then 1 else 2
      ensures AllocsLogged(g, old(owner), old(logged), owner, logged)
      ensures ChangesLogged(old(disk), disk, old(logged), logged, {})
    {
      maps := {};
      hide Used, Word, Owned, AllocsLogged, ChangesLogged;
      if bn < NDIRECT {
        addr := BmapAddr(inum, bn);
        if addr != 0 && old(inodes[inum].addrs[bn]) == 0 {
          maps := {BitmapBlock(g, addr)};
        }
        return;
      }
      var ind := BmapAddr(inum, NDIRECT);
      if ind == 0 {
        return 0, {};
      }
      if old(inodes[inum].addrs[NDIRECT]) == 0 {
        maps := {BitmapBlock(g, ind)};
      }
      ghost var d, ns, own, lg := disk, inodes, owner, logged;
      addr := BmapEntry(inum, bn - NDIRECT);
      AllocsTrans(g, old(owner), old(logged), own, lg, owner, logged);
      ChangesTrans(old(disk), d, disk, old(logged), lg, logged, {});
      SameBlocksTrans(g, old(disk), old(inodes), d, ns, disk, inodes);
      if addr != 0 && Ref(g, d, ns, DataSlot(inum, bn)) == 0 {
        maps := maps + {BitmapBlock(g, addr)};
      }
    }

    // ---------------------------------------------------------- reading and writing

    ghost function ContentOf(inum: nat): (s: seq<Byte>)
      requires Inv() && inum < |inodes|
      reads this
    {
      Content(g, disk, inodes, inum)
    }

    /** One round of readi's loop: m bytes at off, all in one block. */
    method ReadPiece(inum: nat, off: nat, m: nat) returns (ok: bool, piece: seq<Byte>)
      requires Inv() && inum < |inodes| && off + m <= inodes[inum].size && off % BSIZE + m <= BSIZE && m > 0
      modifies this
      ensures Inv() && |inodes| == old(|inodes|) && SameBlocks(g, old(disk), old(inodes), disk, inodes)
      ensures forall i | 0 <= i < |inodes| :: inodes[i].size == old(inodes[i].size)
      ensures ok ==> piece == old(ContentOf(inum))[off..off + m]
      ensures !ok ==> AllUsed(g, disk)
      ensures old(NoHoles(g, disk, inodes, inum)) ==>
                ok && disk == old(disk) && inodes == old(inodes) && logged == old(logged) && owner == old(owner)
      ensures ChangesLogged(old(disk), disk, old(logged), logged, {})
    {
      hide Owned, Ref, BlockAt, Used, ChangesLogged;
      var addr, _ := Bmap(inum, off / BSIZE);
      if addr == 0 {
        return false, [];
      }
      SameBlocksSameContent(g, old(disk), old(inodes), disk, inodes, inum);
      ContentPiece(g, disk, inodes, inum, off, m);
      BlockOfRef(g, disk, inodes, inum, off / BSIZE);
      return true, disk[addr][off % BSIZE..off % BSIZE + m];
    }

    /** Reads a slice of the file. Of the destination only the first `reach` bytes can be written to; data is what
        arrives there, and r is -1 if not everything fits. A file without holes is not changed by reading it. */
    method Readi(inum: nat, off0: nat, n0: nat, reach: nat) returns (r: int, data: seq<Byte>)
      requires Inv() && inum < |inodes| && off0 < WORD_LIMIT && n0 < WORD_LIMIT
      modifies this
      ensures Inv() && |inodes| == old(|inodes|) && SameBlocks(g, old(disk), old(inodes), disk, inodes)
      ensures forall i | 0 <= i < |inodes| :: inodes[i].size == old(inodes[i].size)
      ensures off0 > old(inodes[inum].size) || off0 + n0 >= WORD_LIMIT ==> r == 0 && data == []
      ensures off0 <= old(inodes[inum].size) && off0 + n0 < WORD_LIMIT ==>
                var all := ReadSlice(old(ContentOf(inum)), off0, n0);
                && data <= all && (r == -1 || r == |data|)
                && (r == -1 ==> |data| == reach < |all|)
                && (r != -1 ==> |data| <= reach && (data == all || AllUsed(g, disk)))
      ensures old(NoHoles(g, disk, inodes, inum)) ==>
                && disk == old(disk) && inodes == old(inodes) && logged == old(logged) && owner == old(owner)
                && (off0 <= inodes[inum].size && off0 + n0 < WORD_LIMIT ==>
                      var all := ReadSlice(ContentOf(inum), off0, n0);
                      data == all[..Min(reach, |all|)] && (r == -1 <==> reach < |all|))
      ensures ChangesLogged(old(disk), disk, old(logged), logged, {})
    {
      hide Owned, Ref, BlockAt, Used, NoHoles, Content, AllUsed, SameBlocks, ChangesLogged;
      data := [];
      SameBlocksRefl(g, disk, inodes);
      NoChanges(disk, logged);
      if off0 > inodes[inum].size || off0 + n0 >= WORD_LIMIT {
        return 0, [];
      }
      var n := n0;
      if off0 + n > inodes[inum].size {
        n := inodes[inum].size - off0;
      }
      r, data := ReadLoop(inum, off0, n, reach);
    }

    /** readi's loop. */
    method ReadLoop(inum: nat, off0: nat, n: nat, reach: nat) returns (r: int, data: seq<Byte>)
      requires Inv() && inum < |inodes| && off0 + n <= inodes[inum].size
      modifies this
      ensures Inv() && |inodes| == old(|inodes|) && SameBlocks(g, old(disk), old(inodes), disk, inodes)
      ensures forall i | 0 <= i < |inodes| :: inodes[i].size == old(inodes[i].size)
      ensures |data| <= n && data == old(ContentOf(inum))[off0..off0 + |data|] && (r == -1 || r == |data|)
      ensures r == -1 ==> |data| == reach < n
      ensures r != -1 ==> |data| <= reach && (|data| == n || AllUsed(g, disk))
      ensures old(NoHoles(g, disk, inodes, inum)) ==>
                && disk == old(disk) && inodes == old(inodes) && logged == old(logged) && owner == old(owner)
                && |data| == Min(reach, n) && (r == -1 <==> reach < n)
      ensures ChangesLogged(old(disk), disk, old(logged), logged, {})
    {
      hide Owned, Ref, BlockAt, Used, NoHoles, Content, AllUsed, SameBlocks, ChangesLogged;
      SameBlocksRefl(g, disk, inodes);
      ghost var file := ContentOf(inum);
      NoChanges(disk, logged);
      var tot, off := 0, off0;
      data := [];
      while tot < n
        invariant Inv() && |inodes| == old(|inodes|) && 0 <= tot <= n && off == off0 + tot && tot <= reach
        invariant forall i | 0 <= i < |inodes| :: inodes[i].size == old(inodes[i].size)
        invariant SameBlocks(g, old(disk), old(inodes), disk, inodes)
        invariant data == file[off0..off] && ChangesLogged(old(disk), disk, old(logged), logged, {})
        invariant old(NoHoles(g, disk, inodes, inum)) ==>
                    disk == old(disk) && inodes == old(inodes) && logged == old(logged) && owner == old(owner)
      {
        var m := Min(n - tot, BSIZE - off % BSIZE);
        ghost var d, ns, lg := disk, inodes, logged;
        SameBlocksSameContent(g, old(disk), old(inodes), disk, inodes, inum);
        var ok, piece := ReadPiece(inum, off, m);
        SameBlocksTrans(g, old(disk), old(inodes), d, ns, disk, inodes);
        ChangesTrans(old(disk), d, disk, old(logged), lg, logged, {});
        if !ok {
          return tot, data;
        }
        if tot + m > reach {
          SliceJoins(file, off0, off, piece, reach - tot);
          return -1, data + piece[..reach - tot];
        }
        SliceJoins(file, off0, off, piece, m);
        data := data + piece;
        tot, off := tot + m, off + m;
      }
      r := tot;
    }

    /** One round of writei's loop: a piece that lies in one block, of which only the first `reach` bytes can be read
        from user space. They reach the buffer in any case, but if they are not all of the piece it is not logged. */
    method WriteOne(inum: nat, off: nat, piece: seq<Byte>, reach: nat)
      returns (ok: bool, ghost done: nat, ghost addr: nat, ghost maps: set<nat>)
      requires Inv() && inum < |inodes| && off < MAXBYTES && off % BSIZE + |piece| <= BSIZE && reach <= |piece|
      modifies this
      ensures Inv() && |inodes| == old(|inodes|)
      ensures forall i | 0 <= i < |inodes| ::
                inodes[i].size == old(inodes[i].size) && (i != inum ==> inodes[i] == old(inodes[i]))
      ensures OthersSame(g, old(disk), old(inodes), disk, inodes, inum)
      ensures done == if Ref(g, disk, inodes, DataSlot(inum, off / BSIZE)) != 0 then reach else 0
      ensures Overlaid(g, old(disk), old(inodes), disk, inodes, inum, off, piece[..done])
      ensures StillMapped(g, old(disk), old(inodes), disk, inodes)
      ensures ok <==> Ref(g, disk, inodes, DataSlot(inum, off / BSIZE)) != 0 && reach == |piece|
      ensures Ref(g, disk, inodes, DataSlot(inum, off / BSIZE)) == 0 ==> AllUsed(g, disk)
      ensures logged <= old(logged) + maps + {addr} + IndirectSet(inodes[inum])
      ensures |maps| <= if Ref(g, old(disk), old(inodes), DataSlot(inum, off / BSIZE)) != 0 then 0
                        else if off / BSIZE < NDIRECT || old(inodes[inum].addrs[NDIRECT]) != 0 then 1 else 2
      ensures AllocsLogged(g, old(owner), old(logged), owner, logged)
      ensures ok ==> Ref(g, disk, inodes, DataSlot(inum, off / BSIZE)) in logged
      ensures ChangesLogged(old(disk), disk, old(logged), logged, if ok then {} else {addr})
      ensures done == 0 ==> ChangesLogged(old(disk), disk, old(logged), logged, {})
    {
      hide Used, AllUsed, Owned, Ref, BlockAt, AllocsLogged, ChangesLogged;
      var b;
      b, maps := Bmap(inum, off / BSIZE);
      AllocsNone(g, owner, logged, {b});
      AllocsTrans(g, old(owner), old(logged), owner, logged, owner, logged + {b});
      addr := b;
      ghost var d, lg := disk, logged;
      if b == 0 {
        ChangesTrans(old(disk), disk, disk, old(logged), logged, logged, {addr});
        return false, 0, 0, maps;
      }
      WritePiece(g, disk, inodes, owner, inum, off, piece[..reach]);
      done := reach;
      if reach < |piece| {
        disk := disk[b := Splice(disk[b], off % BSIZE, piece[..reach])];
        OneChange(d, disk, lg, logged, b);
        ChangesTrans(old(disk), d, disk, old(logged), lg, logged, {b});
        ChangesTrans(old(disk), d, disk, old(logged), lg, logged, if reach == 0 then {} else {b});
        return false, reach, b, maps;
      }
      LogWrite(b, Splice(disk[b], off % BSIZE, piece[..reach]));
      ChangesTrans(old(disk), d, disk, old(logged), lg, logged, {});
      ok := true;
    }

    /** Writes src over the file at off0, extending it as needed; only the first `reach` bytes of src can be read from
        user space. -1 when the offset is past the end or the file would become too long; otherwise the number of
        bytes written, short only when src cannot be read or a block is missing on a full disk. `stray` more bytes
        then lie in a buffer that this write does not log. */
    method Writei(inum: nat, off0: nat, src: seq<Byte>, reach: nat)
      returns (r: int, ghost stray: nat, ghost lost: nat)
      requires Inv() && inum < |inodes| && off0 < WORD_LIMIT && |src| < WORD_LIMIT
      modifies this
      ensures Inv() && |inodes| == old(|inodes|)
      ensures r == -1 <==> off0 > old(inodes[inum].size) || off0 + |src| >= WORD_LIMIT || off0 + |src| > MAXBYTES
      ensures r == -1 ==> disk == old(disk) && inodes == old(inodes) && logged == old(logged) && owner == old(owner)
      ensures r != -1 ==>
                && 0 <= r && WriteEnds(off0, |src|, reach, r, stray)
                && (r + stray < Min(reach, |src|) ==>
                      AllUsed(g, disk) && Ref(g, disk, inodes, DataSlot(inum, (off0 + r) / BSIZE)) == 0)
                && inodes[inum].size == Max(old(inodes[inum].size), off0 + r)
                && ContentOf(inum) == WriteOver(old(ContentOf(inum)), off0, src[..r + stray])[..inodes[inum].size]
                && (stray == 0 ==> ContentOf(inum) == WriteOver(old(ContentOf(inum)), off0, src[..r]))
      ensures ChangesLogged(old(disk), disk, old(logged), logged, if stray == 0 then {} else {lost})
      ensures OthersSame(g, old(disk), old(inodes), disk, inodes, inum)
      ensures forall i | 0 <= i < |inodes| && i != inum :: inodes[i] == old(inodes[i])
      ensures StillMapped(g, old(disk), old(inodes), disk, inodes)
      ensures old(NoHoles(g, disk, inodes, inum)) ==> NoHoles(g, disk, inodes, inum)
      ensures old(NoHoles(g, disk, inodes, inum)) ==> |logged| <= |old(logged)| + WriteBound(off0, |src|)
      ensures r != -1 ==>
                && AllocsLogged(g, old(owner), old(logged), owner, logged) && InodeBlock(g, inum) in logged
                && Mapped(g, disk, inodes, inum, off0, off0 + r)
                && DataLogged(g, disk, inodes, inum, off0, off0 + r, logged)
    {
      hide Used, AllUsed, Owned, Ref, BlockAt, NoHoles, Content, AllocsLogged, DataLogged, Mapped, WriteEnds, WriteOver,
            ChangesLogged;
      NoChanges(disk, logged);
      if off0 > inodes[inum].size || off0 + |src| >= WORD_LIMIT {
        return -1, 0, 0;
      }
      if off0 + |src| > MAXBYTES {
        return -1, 0, 0;
      }
      var tot;
      tot, stray, lost := WriteLoop(inum, off0, src, reach);
      MoreLogged(old(disk), disk, old(logged), logged, logged + {InodeBlock(g, inum)},
                 if stray == 0 then {} else {lost});
      ghost var ns, lg := inodes, logged;
      if off0 + tot > inodes[inum].size {
        inodes := inodes[inum := inodes[inum].(size := off0 + tot)];
      }
      AllocsNone(g, owner, logged, {InodeBlock(g, inum)});
      AllocsTrans(g, old(owner), old(logged), owner, logged, owner, logged + {InodeBlock(g, inum)});
      logged := logged + {InodeBlock(g, inum)};
      MappedLess(g, disk, ns, inum, off0, off0 + tot, off0 + tot + stray);
      ResizedLog(g, disk, ns, inodes, owner, inum, off0, off0 + tot, lg, logged);
      Resized(g, old(disk), old(inodes), disk, ns, inodes, owner, inum, off0, src[..tot + stray], tot);
      WriteOverWhole(old(ContentOf(inum)), off0, src[..tot]);
      return tot, stray, lost;
    }

    /** One round of writei's loop, which has written tot bytes since the state d0, ns0: the piece up to the end of the
        block or of src. Of its m bytes k are written, into the block addr. */
    method WriteRound(inum: nat, off0: nat, src: seq<Byte>, reach: nat, tot: nat, ghost d0: Disk,
                      ghost ns0: seq<Inode>, ghost own0: map<nat, Slot>, ghost lg0: set<nat>,
                      ghost dataB: set<nat>, ghost maps: set<nat>)
      returns (ok: bool, m: nat, ghost k: nat, ghost addr: nat, ghost more: set<nat>)
      requires Inv() && WellFormed(g, d0, ns0) && inum < |ns0| == |inodes| && off0 <= ns0[inum].size
      requires off0 + |src| <= MAXBYTES && tot < |src| && tot <= reach && (tot > 0 ==> (off0 + tot) % BSIZE == 0)
      requires NoHoles(g, d0, ns0, inum) ==> |maps| <= NewIn(off0, tot) + NewIndirect(ns0[inum], inodes[inum])
      requires WriteProgress(g, d0, ns0, lg0, disk, inodes, logged, inum, off0, src, tot, tot, dataB, maps)
      requires LogComplete(g, d0, own0, lg0, disk, inodes, owner, logged, inum, off0, off0 + tot, {})
      modifies this
      ensures Inv() && |inodes| == |ns0|
      ensures m == PieceLength(off0 + tot, |src| - tot) && (k == 0 || k == Min(m, reach - tot)) && (ok <==> k == m)
      ensures k < Min(m, reach - tot) ==>
                AllUsed(g, disk) && Ref(g, disk, inodes, DataSlot(inum, (off0 + tot) / BSIZE)) == 0
      ensures WriteProgress(g, d0, ns0, lg0, disk, inodes, logged, inum, off0, src, tot + k, tot + m, dataB + {addr},
              maps + more)
      ensures ok && NoHoles(g, d0, ns0, inum) ==>
                |maps + more| <= NewIn(off0, tot + m) + NewIndirect(ns0[inum], inodes[inum])
      ensures LogComplete(g, d0, own0, lg0, disk, inodes, owner, logged, inum, off0,
              off0 + tot + if ok then m else 0, if ok || k == 0 then {} else {addr})
    {
      hide Used, AllUsed, Owned, Ref, BlockAt, NoHoles, Content, WriteProgress, OthersSame, StillMapped, Overlaid,
           Mapped, LogComplete, PieceLength, NewIn, NewIndirect, IndirectSet;
      var off := off0 + tot;
      m := PieceLength(off, |src| - tot);
      ghost var d, ns, own, lg := disk, inodes, owner, logged;
      ProgressMapped(g, d0, ns0, lg0, disk, inodes, logged, inum, off0, src, tot, dataB, maps);
      ok, k, addr, more := WriteOne(inum, off, src[tot..tot + m], Min(m, reach - tot));
      RoundLogged(g, d0, own0, lg0, d, ns, own, lg, disk, inodes, owner, logged, inum, off0, off,
                  if ok then m else 0, if ok || k == 0 then {} else {addr});
      ProgressStep(g, d0, ns0, lg0, d, ns, lg, disk, inodes, logged,
                   inum, off0, src, tot, m, k, dataB, maps, addr, more, ok);
    }

    /** writei's loop. */
    method WriteLoop(inum: nat, off0: nat, src: seq<Byte>, reach: nat)
      returns (tot: nat, ghost stray: nat, ghost lost: nat)
      requires Inv() && inum < |inodes| && off0 <= inodes[inum].size && off0 + |src| <= MAXBYTES
      modifies this
      ensures Inv() && |inodes| == old(|inodes|)
      ensures WriteEnds(off0, |src|, reach, tot, stray) && tot + stray <= |src|
      ensures tot + stray < Min(reach, |src|) ==>
                AllUsed(g, disk) && Ref(g, disk, inodes, DataSlot(inum, (off0 + tot) / BSIZE)) == 0
      ensures forall j | 0 <= j < |inodes| ::
                inodes[j].size == old(inodes[j].size) && (j != inum ==> inodes[j] == old(inodes[j]))
      ensures OthersSame(g, old(disk), old(inodes), disk, inodes, inum)
      ensures StillMapped(g, old(disk), old(inodes), disk, inodes)
      ensures Overlaid(g, old(disk), old(inodes), disk, inodes, inum, off0, src[..tot + stray])
      ensures Mapped(g, disk, inodes, inum, off0, off0 + tot + stray)
      ensures old(NoHoles(g, disk, inodes, inum)) ==>
                |logged + {InodeBlock(g, inum)}| <= |old(logged)| + WriteBound(off0, |src|)
      ensures LogComplete(g, old(disk), old(owner), old(logged), disk, inodes, owner, logged, inum, off0, off0 + tot,
              if stray == 0 then {} else {lost})
    {
      hide Used, AllUsed, Owned, Ref, BlockAt, NoHoles, Content, WriteProgress, OthersSame, StillMapped, Overlaid,
           Mapped, LogComplete, PieceLength, WriteEnds, NewIn, NewIndirect, IndirectSet, WriteBound;
      NothingLogged(g, disk, inodes, owner, logged, inum, off0);
      var off, n := off0, |src|;
      tot, stray := 0, 0;
      ghost var seen := 0;
      lost := 0;
      ghost var dataB: set<nat>, maps: set<nat> := {}, {};
      ProgressStart(g, disk, inodes, logged, inum, off0, src);
      while tot < n
        invariant Inv() && |inodes| == old(|inodes|) && 0 <= tot <= n && off == off0 + tot && tot <= reach
        invariant stray == 0 && seen == tot
        invariant 0 < tot < n ==> off % BSIZE == 0
        invariant old(NoHoles(g, disk, inodes, inum)) ==>
                    |maps| <= NewIn(off0, tot) + NewIndirect(old(inodes[inum]), inodes[inum])
        invariant WriteProgress(g, old(disk), old(inodes), old(logged), disk, inodes, logged, inum, off0, src, tot,
                  tot, dataB, maps)
        invariant LogComplete(g, old(disk), old(owner), old(logged), disk, inodes, owner, logged, inum, off0, off, {})
      {
        var ok, m; ghost var k, more;
        ok, m, k, lost, more := WriteRound(inum, off0, src, reach, tot, old(disk), old(inodes), old(owner), old(logged),
                                           dataB, maps);
        maps, dataB := maps + more, dataB + {lost};
        seen := tot + m;
        if !ok {
          stray := k;
          EndsShort(off0, n, reach, tot, k);
          break;
        }
        tot, off := tot + m, off + m;
        EndsWhole(off0, n, reach, tot);
      }
      EndsWhole(off0, n, reach, tot);
      ProgressEnd(g, old(disk), old(inodes), old(logged), disk, inodes, logged, inum, off0, src, tot + stray, seen,
                  dataB, maps);
    }

    // ---------------------------------------------------------- truncation

    /** itrunc's first loop. */
    method FreeDirect(inum: nat) returns (ok: bool)
      requires Inv() && inum < |inodes|
      modifies this
      ensures ok && Inv() && |inodes| == old(|inodes|) && inodes[inum].size == old(inodes[inum].size)
      ensures forall i | 0 <= i < |inodes| && i != inum :: inodes[i] == old(inodes[i])
      ensures inodes[inum].addrs[NDIRECT] == old(inodes[inum].addrs[NDIRECT])
      ensures forall k | 0 <= k < NDIRECT :: inodes[inum].addrs[k] == 0
      ensures forall b | g.nmeta <= b < g.size :: disk[b] == old(disk)[b]
      ensures owner == Without(old(owner), inum, NDIRECT)
      ensures ChangesLogged(old(disk), disk, old(logged), logged, {})
    {
      hide Owned, Ref, Used, MarkFree, ChangesLogged;
      ok := true;
      var i := 0;
      WithoutNone(owner, inum);
      NoChanges(disk, logged);
      while i < NDIRECT
        invariant 0 <= i <= NDIRECT && ok && Inv() && |inodes| == old(|inodes|)
                  && inodes[inum].size == old(inodes[inum].size)
        invariant forall j | 0 <= j < |inodes| && j != inum :: inodes[j] == old(inodes[j])
        invariant forall k | 0 <= k <= NDIRECT :: inodes[inum].addrs[k] == if k < i then 0
                  else old(inodes[inum].addrs[k])
        invariant forall b | g.nmeta <= b < g.size :: disk[b] == old(disk)[b]
        invariant owner == Without(old(owner), inum, i)
        invariant ChangesLogged(old(disk), disk, old(logged), logged, {})
      {
        var b := inodes[inum].addrs[i];
        WithoutNext(g, disk, inodes, old(owner), owner, inum, i);
        if b != 0 {
          DetachAddr(g, disk, inodes, owner, inum, i);
          ghost var ms := inodes[inum := inodes[inum].(addrs := inodes[inum].addrs[i := 0])];
          FreeSpare(g, disk, ms, owner - {b}, {} + {b}, b);
          assert {} + {b} - {b} == {};
          ghost var d, lg := disk, logged;
          ok := Bfree(b);
          ChangesTrans(old(disk), d, disk, old(logged), lg, logged, {});
          inodes := inodes[inum := inodes[inum].(addrs := inodes[inum].addrs[i := 0])];
          owner := owner - {b};
        }
        i := i + 1;
      }
    }

    /** itrunc's second loop: frees the blocks that the words of `a` name. */
    method FreeWords(a: Block, ghost ind: nat, ghost ms: seq<Inode>, ghost own: map<nat, Slot>) returns (ok: bool)
      requires WellFormed(g, disk, ms) && Owned(g, disk, ms, own, {ind} + Words(a, 0)) && WordsDistinct(a, ind)
               && ind != 0
      modifies this`disk, this`logged
      ensures ok && WellFormed(g, disk, ms) && Owned(g, disk, ms, own, {ind})
      ensures forall b | g.nmeta <= b < g.size :: disk[b] == old(disk)[b]
      ensures ChangesLogged(old(disk), disk, old(logged), logged, {})
    {
      hide Owned, Ref, Used, MarkFree, Word, Words, WordsDistinct, ChangesLogged;
      ok := true;
      var j := 0;
      NoChanges(disk, logged);
      while j < NINDIRECT
        invariant 0 <= j <= NINDIRECT && ok && WellFormed(g, disk, ms)
        invariant Owned(g, disk, ms, own, {ind} + Words(a, j))
        invariant ChangesLogged(old(disk), disk, old(logged), logged, {})
        invariant forall b | g.nmeta <= b < g.size :: disk[b] == old(disk)[b]
      {
        WordsNext(a, ind, j);
        if Word(a, j) != 0 {
          SpareIsUsed(g, disk, ms, own, {ind} + Words(a, j), Word(a, j));
          FreeSpare(g, disk, ms, own, {ind} + Words(a, j), Word(a, j));
          ghost var d, lg := disk, logged;
          ok := Bfree(Word(a, j));
          ChangesTrans(old(disk), d, disk, old(logged), lg, logged, {});
        }
        j := j + 1;
      }
      WordsNone(a);
      assert {ind} + {} == {ind};
    }

    /** Frees the blocks that an indirect block lists, and then that block itself. */
    method FreeList(ind: nat, ghost ms: seq<Inode>, ghost own: map<nat, Slot>) returns (ok: bool)
      requires 0 < ind < |disk| && WellFormed(g, disk, ms) && WordsDistinct(disk[ind], ind)
      requires Owned(g, disk, ms, own, {ind} + Words(disk[ind], 0))
      modifies this`disk, this`logged
      ensures ok && WellFormed(g, disk, ms) && Owned(g, disk, ms, own, {})
      ensures forall b | g.nmeta <= b < g.size :: disk[b] == old(disk)[b]
      ensures ChangesLogged(old(disk), disk, old(logged), logged, {})
    {
      hide Owned, Ref, Used, MarkFree, Word, Words, WordsDistinct, ChangesLogged;
      ok := FreeWords(disk[ind], ind, ms, own);
      SpareIsUsed(g, disk, ms, own, {ind}, ind);
      FreeSpare(g, disk, ms, own, {ind}, ind);
      assert {ind} - {ind} == {};
      ghost var d, lg := disk, logged;
      var last := Bfree(ind);
      ChangesTrans(old(disk), d, disk, old(logged), lg, logged, {});
      ok := ok && last;
    }

    /** The rest of itrunc: the blocks named by the indirect block, then the indirect block itself. */
    method FreeIndirect(inum: nat) returns (ok: bool)
      requires Inv() && inum < |inodes| && inodes[inum].addrs[NDIRECT] != 0
      requires forall k | 0 <= k < NDIRECT :: inodes[inum].addrs[k] == 0
      modifies this
      ensures ok && Inv()
      ensures inodes == old(inodes)[inum := old(inodes)[inum].(addrs := old(inodes)[inum].addrs[NDIRECT := 0])]
      ensures forall b | g.nmeta <= b < g.size :: disk[b] == old(disk)[b]
      ensures owner == Without(old(owner), inum, NSLOTS)
      ensures ChangesLogged(old(disk), disk, old(logged), logged, {})
    {
      hide Owned, Ref, Used, MarkFree, Word, Words, WordsDistinct, Without, ChangesLogged;
      var ind := inodes[inum].addrs[NDIRECT];
      var ms := inodes[inum := inodes[inum].(addrs := inodes[inum].addrs[NDIRECT := 0])];
      ghost var own := Without(owner, inum, NSLOTS);
      DetachIndirect(g, disk, inodes, owner, inum);
      ok := FreeList(ind, ms, own);
      inodes := ms;
      owner := own;
    }

    /** Discards a file's contents and frees every block it has; "freeing free block" cannot happen. */
    method Itrunc(inum: nat) returns (ok: bool)
      requires Inv() && inum < |inodes|
      modifies this
      ensures ok && Inv() && |inodes| == old(|inodes|)
      ensures inodes[inum].size == 0 && forall k | 0 <= k <= NDIRECT :: inodes[inum].addrs[k] == 0
      ensures forall i | 0 <= i < |inodes| && i != inum ::
                inodes[i] == old(inodes[i]) && ContentOf(i) == old(ContentOf(i))
      ensures owner == Without(old(owner), inum, NSLOTS)
      ensures forall b | b in old(owner) && old(owner)[b].inum == inum :: 0 <= b < g.size && !Used(g, disk, b)
      ensures ChangesLogged(old(disk), disk, old(logged), logged, {}) && InodeBlock(g, inum) in logged
    {
      hide Owned, Ref, Used, ChangesLogged;
      ok := FreeDirect(inum);
      ghost var own, d, lg := owner, disk, logged;
      if inodes[inum].addrs[NDIRECT] != 0 {
        var more := FreeIndirect(inum);
        ok := ok && more;
        ChangesTrans(old(disk), d, disk, old(logged), lg, logged, {});
      }
      NothingLeft(g, disk, inodes, old(owner), own, owner, inum);
      ghost var ns := inodes;
      inodes := inodes[inum := inodes[inum].(size := 0)];
      MoreLogged(old(disk), disk, old(logged), logged, logged + {InodeBlock(g, inum)}, {});
      logged := logged + {InodeBlock(g, inum)};
      SizeOnly(g, disk, ns, inodes, owner, inum);
      FreedAreFree(g, old(disk), old(inodes), old(owner), disk, inodes, owner, inum);
      forall i | 0 <= i < |inodes| && i != inum
        ensures ContentOf(i) == old(ContentOf(i))
      {
        OtherContent(g, old(disk), old(inodes), old(owner), disk, inodes, i);
      }
    }
  }

  /** The nonzero words of an indirect block from j on. */
  ghost function Words(a: Block, j: nat): (r: set<nat>) {
    set k | j <= k < NINDIRECT && Word(a, k) != 0 :: Word(a, k)
  }

  ghost predicate WordsDistinct(a: Block, ind: nat) {
    && (forall j, k | 0 <= j < k < NINDIRECT && Word(a, j) != 0 :: Word(a, j) != Word(a, k))
    && (forall j | 0 <= j < NINDIRECT :: Word(a, j) != ind)
  }

  lemma WordsNext(a: Block, ind: nat, j: nat)
    requires WordsDistinct(a, ind) && j < NINDIRECT && ind != 0
    ensures Word(a, j) == 0 ==> Words(a, j + 1) == Words(a, j)
    ensures Word(a, j) != 0 ==>
              Word(a, j) in {ind} + Words(a, j) && {ind} + Words(a, j) - {Word(a, j)} == {ind} + Words(a, j + 1)
  {
    hide Word;
    if Word(a, j) != 0 {
      assert Words(a, j) == Words(a, j + 1) + {Word(a, j)};
      assert Word(a, j) !in Words(a, j + 1);
    } else {
      assert Words(a, j) == Words(a, j + 1);
    }
  }

  lemma WordsNone(a: Block)
    ensures Words(a, NINDIRECT) == {}
  {
  }

  lemma SpareIsUsed(g: Geometry, d: Disk, ns: seq<Inode>, owner: map<nat, Slot>, spare: set<nat>, b: nat)
    requires Owned(g, d, ns, owner, spare) && b in spare
    ensures g.nmeta <= b < g.size && Used(g, d, b)
  {
    hide Used, Ref;
  }

  /** Dropping the indirect address makes the indirect block and the blocks it names spare. */
  lemma DetachIndirect(g: Geometry, d: Disk, ns: seq<Inode>, owner: map<nat, Slot>, i: nat)
    requires Owned(g, d, ns, owner, {}) && i < |ns| && ns[i].addrs[NDIRECT] != 0
    requires forall k | 0 <= k < NDIRECT :: ns[i].addrs[k] == 0
    ensures var ind := ns[i].addrs[NDIRECT];
            var ms := ns[i := ns[i].(addrs := ns[i].addrs[NDIRECT := 0])];
            && g.nmeta <= ind < g.size && WordsDistinct(d[ind], ind) && WellFormed(g, d, ms)
            && Owned(g, d, ms, Without(owner, i, NSLOTS), {ind} + Words(d[ind], 0))
  {
    var ind := ns[i].addrs[NDIRECT];
    var ms := ns[i := ns[i].(addrs := ns[i].addrs[NDIRECT := 0])];
    assert WellFormed(g, d, ms);
    IndirectOwner(g, d, ns, owner, {}, i);
    forall j | 0 <= j < NINDIRECT
      ensures Ref(g, d, ns, Slot(i, NDIRECT + 1 + j)) == Word(d[ind], j)
    {
    }
    IndirectDistinct(g, d, ns, owner, i);
    var gone := {ind} + Words(d[ind], 0);
    GoneIsFile(g, d, ns, owner, i);
    hide Used, Word, Words;
    forall s | SlotOk(ns, s)
      ensures Ref(g, d, ms, s) == if Ref(g, d, ns, s) in gone then 0 else Ref(g, d, ns, s)
    {
    }
    hide Ref, WellFormed;
    OwnedDrop(g, d, ns, ms, owner, {}, gone);
    assert {} + gone == gone;
  }

  lemma IndirectDistinct(g: Geometry, d: Disk, ns: seq<Inode>, owner: map<nat, Slot>, i: nat)
    requires Owned(g, d, ns, owner, {}) && i < |ns| && ns[i].addrs[NDIRECT] != 0
    ensures WordsDistinct(d[ns[i].addrs[NDIRECT]], ns[i].addrs[NDIRECT])
  {
    hide Word, Used;
    var ind := ns[i].addrs[NDIRECT];
    forall j | 0 <= j < NINDIRECT
      ensures Ref(g, d, ns, Slot(i, NDIRECT + 1 + j)) == Word(d[ind], j)
      ensures Word(d[ind], j) != 0 ==> Owns(owner, Slot(i, NDIRECT + 1 + j), Word(d[ind], j))
    {
    }
    IndirectOwner(g, d, ns, owner, {}, i);
  }

  /** The blocks of file i are its indirect block and the words of it, when it has no direct blocks. */
  lemma GoneIsFile(g: Geometry, d: Disk, ns: seq<Inode>, owner: map<nat, Slot>, i: nat)
    requires Owned(g, d, ns, owner, {}) && i < |ns| && ns[i].addrs[NDIRECT] != 0
    requires forall k | 0 <= k < NDIRECT :: ns[i].addrs[k] == 0
    ensures var gone := {ns[i].addrs[NDIRECT]} + Words(d[ns[i].addrs[NDIRECT]], 0);
            && gone <= owner.Keys && owner - gone == Without(owner, i, NSLOTS) && 0 !in gone
            && forall s | SlotOk(ns, s) && Ref(g, d, ns, s) != 0 :: Ref(g, d, ns, s) in gone <==> s.inum == i
  {
    hide Word, Used;
    var ind := ns[i].addrs[NDIRECT];
    var gone := {ind} + Words(d[ind], 0);
    IndirectOwner(g, d, ns, owner, {}, i);
    forall b | b in gone
      ensures b in owner && owner[b].inum == i && b != 0
    {
      if b != ind {
        var k :| 0 <= k < NINDIRECT && Word(d[ind], k) != 0 && Word(d[ind], k) == b;
        assert Ref(g, d, ns, Slot(i, NDIRECT + 1 + k)) == b;
        assert Owns(owner, Slot(i, NDIRECT + 1 + k), b);
      }
    }
    forall s | SlotOk(ns, s) && s.inum == i && Ref(g, d, ns, s) != 0
      ensures Ref(g, d, ns, s) in gone
    {
      if s.k > NDIRECT {
        assert Ref(g, d, ns, s) == Word(d[ind], s.k - NDIRECT - 1);
      }
    }
    forall s | SlotOk(ns, s) && Ref(g, d, ns, s) != 0
      ensures Owns(owner, s, Ref(g, d, ns, s))
    {
    }
  }

  lemma NothingLeft(g: Geometry, d: Disk, ns: seq<Inode>, was: map<nat, Slot>, mid: map<nat, Slot>,
      owner: map<nat, Slot>, i: nat)
    requires Owned(g, d, ns, owner, {}) && i < |ns| && forall k | 0 <= k <= NDIRECT :: ns[i].addrs[k] == 0
    requires mid == Without(was, i, NDIRECT) && (owner == mid || owner == Without(mid, i, NSLOTS))
    ensures owner == Without(was, i, NSLOTS)
  {
    hide Used;
    forall b | b in owner
      ensures owner[b].inum != i
    {
      assert Ref(g, d, ns, owner[b]) == b != 0;
    }
  }

  lemma FreedAreFree(g: Geometry, d0: Disk, ns0: seq<Inode>, was: map<nat, Slot>, d: Disk, ns: seq<Inode>,
                     owner: map<nat, Slot>, i: nat)
    requires Owned(g, d0, ns0, was, {}) && Owned(g, d, ns, owner, {}) && owner == Without(was, i, NSLOTS)
    ensures forall b | b in was && was[b].inum == i :: 0 <= b < g.size && !Used(g, d, b)
  {
    hide Ref;
    forall b | b in was && was[b].inum == i
      ensures 0 <= b < g.size && !Used(g, d, b)
    {
      assert SlotOk(ns0, was[b]);
    }
  }

  lemma OtherContent(g: Geometry, d: Disk, ns: seq<Inode>, owner: map<nat, Slot>, e: Disk, ms: seq<Inode>, i: nat)
    requires Owned(g, d, ns, owner, {}) && WellFormed(g, e, ms) && i < |ns| == |ms| && ns[i] == ms[i]
             && ns[i].size <= MAXBYTES
    requires forall b | g.nmeta <= b < g.size :: e[b] == d[b]
    ensures Content(g, d, ns, i) == Content(g, e, ms, i)
  {
    hide Used;
    IndirectOwner(g, d, ns, owner, {}, i);
    forall bn | 0 <= bn < MAXFILE
      ensures BlockAt(g, d, ns, i, bn) == BlockAt(g, e, ms, i, bn)
    {
      var s := DataSlot(i, bn);
      assert Ref(g, d, ns, s) == Ref(g, e, ms, s);
      if Ref(g, d, ns, s) != 0 {
        assert Owns(owner, s, Ref(g, d, ns, s));
      }
    }
    hide BlockAt;
  }

  /** The owners that remain when the first n slots of file i are dropped. */
  ghost function Without(owner: map<nat, Slot>, i: nat, n: nat): (r: map<nat, Slot>) {
    map b | b in owner && !(owner[b].inum == i && owner[b].k < n) :: owner[b]
  }

  lemma WithoutNone(owner: map<nat, Slot>, i: nat)
    ensures Without(owner, i, 0) == owner
  {
  }

  lemma WithoutNext(g: Geometry, d: Disk, ns: seq<Inode>, was: map<nat, Slot>, owner: map<nat, Slot>, i: nat, k: nat)
    requires Owned(g, d, ns, owner, {}) && i < |ns| && k <= NDIRECT && owner == Without(was, i, k)
    ensures Without(was, i, k + 1) == if ns[i].addrs[k] == 0 then owner else owner - {ns[i].addrs[k]}
  {
    AddrRef(g, d, ns, i, k);
    hide Ref, Used;
    var b := ns[i].addrs[k];
    assert b != 0 ==> Owns(owner, Slot(i, k), b);
    assert forall x | x in owner && owner[x] == Slot(i, k) :: x == b;
  }

  /** Clearing one direct address makes its block spare; its bit is set. */
  lemma DetachAddr(g: Geometry, d: Disk, ns: seq<Inode>, owner: map<nat, Slot>, i: nat, k: nat)
    requires Owned(g, d, ns, owner, {}) && i < |ns| && k < NDIRECT && ns[i].addrs[k] != 0
    ensures var b := ns[i].addrs[k];
            var ms := ns[i := ns[i].(addrs := ns[i].addrs[k := 0])];
            Owned(g, d, ms, owner - {b}, {} + {b}) && g.nmeta <= b < g.size && Used(g, d, b)
  {
    hide Used;
    var b := ns[i].addrs[k];
    var ms := ns[i := ns[i].(addrs := ns[i].addrs[k := 0])];
    assert WellFormed(g, d, ms);
    AddrRef(g, d, ns, i, k);
    assert Owns(owner, Slot(i, k), b);
    forall s | SlotOk(ns, s)
      ensures Ref(g, d, ms, s) == if Ref(g, d, ns, s) in {b} then 0 else Ref(g, d, ns, s)
    {
      if Ref(g, d, ns, s) == b {
        OwnedOnce(g, d, ns, owner, {}, s, Slot(i, k));
      }
    }
    hide Ref, WellFormed;
    OwnedDrop(g, d, ns, ms, owner, {}, {b});
  }

  /** How much of the rest goes into the block at off. */
  function PieceLength(off: nat, rest: nat): (m: nat)
    requires rest > 0
    ensures 0 < m <= rest && off % BSIZE + m <= BSIZE
    ensures m < rest ==> (off + m) % BSIZE == 0
  {
    Min(rest, BSIZE - off % BSIZE)
  }

  /** How writei of n bytes at off ends when only the first `reach` bytes can be read: r bytes are counted and stray
      more are copied, which is all that can be read unless a block is missing. Stray bytes are left exactly when the
      readable part ends inside a block. */
  predicate WriteEnds(off: nat, n: nat, reach: nat, r: nat, stray: nat) {
    var most := Min(reach, n);
    && r + stray <= most
    && (r + stray < most ==> stray == 0)
    && (r + stray == most ==> (stray == 0 <==> most == n || most == 0 || (off + most) % BSIZE == 0))
    && (r < n ==> r == 0 || (off + r) % BSIZE == 0)
  }

  lemma EndsShort(off: nat, n: nat, reach: nat, tot: nat, k: nat)
    requires tot < n && tot <= reach && (tot > 0 ==> (off + tot) % BSIZE == 0)
    requires k == 0 || k == Min(PieceLength(off + tot, n - tot), reach - tot)
    requires k < PieceLength(off + tot, n - tot)
    ensures WriteEnds(off, n, reach, tot, k)
  {
    var x := off + tot;
    var q, m := x / BSIZE, x % BSIZE;
    assert x == BSIZE * q + m && m + k < BSIZE;
    assert (x + k) % BSIZE == m + k;
  }

  lemma EndsWhole(off: nat, n: nat, reach: nat, tot: nat)
    requires tot <= n && tot <= reach && (0 < tot < n ==> (off + tot) % BSIZE == 0)
    ensures tot == n ==> WriteEnds(off, n, reach, tot, 0)
  {
  }

  /** Cutting at the new size leaves a write alone that counted all its bytes. */
  lemma WriteOverWhole(f: seq<Byte>, off: nat, s: seq<Byte>)
    requires off <= |f|
    ensures |WriteOver(f, off, s)| == Max(|f|, off + |s|)
    ensures WriteOver(f, off, s)[..Max(|f|, off + |s|)] == WriteOver(f, off, s)
  {
  }

  /** When the bytes of s after the first r are not counted, they show exactly if one of them lies inside the old file
      and differs from it. */
  lemma StrayBytesShow(f: seq<Byte>, off: nat, s: seq<Byte>, r: nat)
    requires off <= |f| && r <= |s|
    ensures var size := Max(|f|, off + r);
            && size <= |WriteOver(f, off, s)|
            && (WriteOver(f, off, s)[..size] == WriteOver(f, off, s[..r])
                <==> forall k | r <= k < |s| && off + k < |f| :: s[k] == f[off + k])
  {
    var size := Max(|f|, off + r);
    var all, counted := WriteOver(f, off, s)[..size], WriteOver(f, off, s[..r]);
    forall p | 0 <= p < size
      ensures all[p] == counted[p] <==> !(off + r <= p < off + |s| && p < |f| && s[p - off] != f[p])
    {
    }
    forall k | r <= k < |s| && off + k < |f|
      ensures s[k] == f[off + k] <==> all[off + k] == counted[off + k]
    {
    }
  }

  lemma MappedLess(g: Geometry, d: Disk, ns: seq<Inode>, i: nat, off0: nat, off: nat, off': nat)
    requires WellFormed(g, d, ns) && i < |ns| && off <= off' && Mapped(g, d, ns, i, off0, off')
    ensures Mapped(g, d, ns, i, off0, off)
  {
    hide Ref;
  }

  /** What holds after tot bytes of a writei that started in (d0, ns0, lg0), which has looked for the blocks of
      seen bytes. */
  ghost predicate WriteProgress(g: Geometry, d0: Disk, ns0: seq<Inode>, lg0: set<nat>,
                                d: Disk, ns: seq<Inode>, lg: set<nat>,
                                i: nat, off0: nat, src: seq<Byte>, tot: nat, seen: nat,
                                dataB: set<nat>, maps: set<nat>)
    requires WellFormed(g, d0, ns0) && WellFormed(g, d, ns) && i < |ns0| == |ns| && tot <= |src|
  {
    && FileProgress(g, d0, ns0, d, ns, i, off0, src[..tot])
    && LogProgress(lg0, lg, dataB, maps, IndirectSet(ns[i]), BlocksIn(off0, seen))
    && (NoHoles(g, d0, ns0, i) ==> |maps| <= NewIn(off0, |src|) + 1)
  }

  ghost predicate FileProgress(g: Geometry, d0: Disk, ns0: seq<Inode>, d: Disk, ns: seq<Inode>, i: nat, off0: nat,
      done: seq<Byte>)
    requires WellFormed(g, d0, ns0) && WellFormed(g, d, ns) && i < |ns0| == |ns|
  {
    && (forall j | 0 <= j < |ns| :: ns[j].size == ns0[j].size && (j != i ==> ns[j] == ns0[j]))
    && OthersSame(g, d0, ns0, d, ns, i) && StillMapped(g, d0, ns0, d, ns)
    && Overlaid(g, d0, ns0, d, ns, i, off0, done) && Mapped(g, d, ns, i, off0, off0 + |done|)
  }

  /** dataB and maps are the data and free-map blocks logged so far. */
  ghost predicate LogProgress(lg0: set<nat>, lg: set<nat>, dataB: set<nat>, maps: set<nat>, ind: set<nat>,
      blocks: nat) {
    lg <= lg0 + dataB + maps + ind && |dataB| <= blocks
  }

  lemma ProgressStart(g: Geometry, d: Disk, ns: seq<Inode>, lg: set<nat>, i: nat, off0: nat, src: seq<Byte>)
    requires WellFormed(g, d, ns) && i < |ns|
    ensures WriteProgress(g, d, ns, lg, d, ns, lg, i, off0, src, 0, 0, {}, {})
  {
    hide Ref, BlockAt;
    assert src[..0] == [];
  }

  lemma ProgressMapped(g: Geometry, d0: Disk, ns0: seq<Inode>, lg0: set<nat>, d: Disk, ns: seq<Inode>, lg: set<nat>,
                       i: nat, off0: nat, src: seq<Byte>, tot: nat, dataB: set<nat>, maps: set<nat>)
    requires WellFormed(g, d0, ns0) && WellFormed(g, d, ns) && i < |ns0| == |ns| && tot <= |src|
    requires WriteProgress(g, d0, ns0, lg0, d, ns, lg, i, off0, src, tot, tot, dataB, maps)
    ensures Mapped(g, d, ns, i, off0, off0 + tot)
  {
    hide Mapped, Overlaid, OthersSame, StillMapped, LogProgress, NoHoles;
  }

  lemma ProgressStep(g: Geometry, d0: Disk, ns0: seq<Inode>, lg0: set<nat>, d: Disk, ns: seq<Inode>, lg: set<nat>,
                     e: Disk, ms: seq<Inode>, lh: set<nat>, i: nat, off0: nat, src: seq<Byte>, tot: nat, m: nat,
                     k: nat, dataB: set<nat>, maps: set<nat>, addr: nat, more: set<nat>, ok: bool)
    requires WellFormed(g, d0, ns0) && WellFormed(g, d, ns) && WellFormed(g, e, ms) && i < |ns0| == |ns| == |ms|
    requires off0 <= ns0[i].size && off0 + |src| <= MAXBYTES && m > 0 && tot + m <= |src| && k <= m
    requires (tot > 0 ==> (off0 + tot) % BSIZE == 0) && (off0 + tot) % BSIZE + m <= BSIZE
    requires WriteProgress(g, d0, ns0, lg0, d, ns, lg, i, off0, src, tot, tot, dataB, maps)
    requires NoHoles(g, d0, ns0, i) ==> |maps| <= NewIn(off0, tot) + NewIndirect(ns0[i], ns[i])
    requires forall j | 0 <= j < |ns| :: ms[j].size == ns[j].size && (j != i ==> ms[j] == ns[j])
    requires OthersSame(g, d, ns, e, ms, i) && StillMapped(g, d, ns, e, ms)
    requires Overlaid(g, d, ns, e, ms, i, off0 + tot, src[tot..tot + m][..k])
    requires (ok ==> k == m) && (k > 0 ==> Ref(g, e, ms, DataSlot(i, (off0 + tot) / BSIZE)) != 0)
    requires lh <= lg + more + {addr} + IndirectSet(ms[i])
    requires |more| <= if Ref(g, d, ns, DataSlot(i, (off0 + tot) / BSIZE)) != 0 then 0
                       else if (off0 + tot) / BSIZE < NDIRECT || ns[i].addrs[NDIRECT] != 0 then 1 else 2
    ensures WriteProgress(g, d0, ns0, lg0, e, ms, lh, i, off0, src, tot + k, tot + m, dataB + {addr}, maps + more)
    ensures ok && NoHoles(g, d0, ns0, i) ==> |maps + more| <= NewIn(off0, tot + m) + NewIndirect(ns0[i], ms[i])
  {
    hide Ref, BlockAt, NoHoles, ByteAt, OthersSame, StillMapped, Overlaid, Mapped, FileProgress, LogProgress, NewIn,
         NewIndirect, BlocksIn, IndirectSet;
    assert src[tot..tot + m][..k] == src[tot..tot + k];
    FileStep(g, d0, ns0, d, ns, e, ms, i, off0, src, tot, k);
    var mapped := Ref(g, e, ms, DataSlot(i, (off0 + tot) / BSIZE)) != 0;
    MapsBound(g, d0, ns0, d, ns, e, ms, i, off0, tot, m, |src|, maps, more, mapped);
    BlocksGrow(off0, tot, m);
    IndirectStays(g, d, ns, e, ms, i);
    LogStep(lg0, lg, lh, dataB, maps, more, IndirectSet(ns[i]), IndirectSet(ms[i]), BlocksIn(off0, tot), addr);
  }

  lemma MapsBound(g: Geometry, d0: Disk, ns0: seq<Inode>, d: Disk, ns: seq<Inode>, e: Disk, ms: seq<Inode>, i: nat,
                  off0: nat, tot: nat, m: nat, n: nat, maps: set<nat>, more: set<nat>, ok: bool)
    requires WellFormed(g, d0, ns0) && WellFormed(g, d, ns) && WellFormed(g, e, ms) && |ns0| == |ns| == |ms|
    requires i < |ns| && off0 <= ns0[i].size && off0 + tot < MAXBYTES && 0 < m && tot + m <= n
    requires (tot > 0 ==> (off0 + tot) % BSIZE == 0) && (off0 + tot) % BSIZE + m <= BSIZE
    requires StillMapped(g, d0, ns0, d, ns) && StillMapped(g, d, ns, e, ms)
    requires NoHoles(g, d0, ns0, i) ==> |maps| <= NewIn(off0, tot) + NewIndirect(ns0[i], ns[i])
    requires ok <==> Ref(g, e, ms, DataSlot(i, (off0 + tot) / BSIZE)) != 0
    requires |more| <= if Ref(g, d, ns, DataSlot(i, (off0 + tot) / BSIZE)) != 0 then 0
                       else if (off0 + tot) / BSIZE < NDIRECT || ns[i].addrs[NDIRECT] != 0 then 1 else 2
    ensures NoHoles(g, d0, ns0, i) ==>
              && |maps + more| <= NewIn(off0, n) + 1
              && (ok ==> |maps + more| <= NewIn(off0, tot + m) + NewIndirect(ns0[i], ms[i]))
  {
    hide Ref, NoHoles, StillMapped, NewIn;
    MapsGrow(g, d0, ns0, d, ns, e, ms, i, off0, tot, m, maps, more, ok);
    BlocksMono(off0, tot + m, n);
  }

  lemma LogStep(lg0: set<nat>, lg: set<nat>, lh: set<nat>, dataB: set<nat>, maps: set<nat>, more: set<nat>,
                ind: set<nat>, ind': set<nat>, blocks: nat, addr: nat)
    requires LogProgress(lg0, lg, dataB, maps, ind, blocks) && ind <= ind'
    requires lh <= lg + more + {addr} + ind'
    ensures LogProgress(lg0, lh, dataB + {addr}, maps + more, ind', blocks + 1)
  {
    UnionCard(dataB, {addr});
  }

  lemma FileStep(g: Geometry, d0: Disk, ns0: seq<Inode>, d: Disk, ns: seq<Inode>, e: Disk, ms: seq<Inode>, i: nat,
                 off0: nat, src: seq<Byte>, tot: nat, k: nat)
    requires WellFormed(g, d0, ns0) && WellFormed(g, d, ns) && WellFormed(g, e, ms) && i < |ns0| == |ns| == |ms|
    requires off0 + |src| <= MAXBYTES && tot + k <= |src| && (off0 + tot) % BSIZE + k <= BSIZE && off0 + tot < MAXBYTES
    requires FileProgress(g, d0, ns0, d, ns, i, off0, src[..tot])
    requires forall j | 0 <= j < |ns| :: ms[j].size == ns[j].size && (j != i ==> ms[j] == ns[j])
    requires OthersSame(g, d, ns, e, ms, i) && StillMapped(g, d, ns, e, ms)
    requires Overlaid(g, d, ns, e, ms, i, off0 + tot, src[tot..tot + k])
    requires k > 0 ==> Ref(g, e, ms, DataSlot(i, (off0 + tot) / BSIZE)) != 0
    ensures FileProgress(g, d0, ns0, e, ms, i, off0, src[..tot + k]) && StillMapped(g, d0, ns0, d, ns)
  {
    hide Ref, BlockAt, ByteAt, OthersSame, StillMapped, Overlaid, Mapped;
    RoundDone(g, d0, ns0, d, ns, e, ms, i, off0, src, tot, k);
    MappedGrow(g, d, ns, e, ms, i, off0, off0 + tot, k);
  }

  lemma IndirectStays(g: Geometry, d: Disk, ns: seq<Inode>, e: Disk, ms: seq<Inode>, i: nat)
    requires WellFormed(g, d, ns) && WellFormed(g, e, ms) && i < |ns| && StillMapped(g, d, ns, e, ms)
    ensures IndirectSet(ns[i]) <= IndirectSet(ms[i])
  {
    AddrRef(g, d, ns, i, NDIRECT);
    AddrRef(g, e, ms, i, NDIRECT);
    hide Ref;
    assert SlotOk(ns, Slot(i, NDIRECT));
  }

  lemma ProgressEnd(g: Geometry, d0: Disk, ns0: seq<Inode>, lg0: set<nat>, d: Disk, ns: seq<Inode>, lg: set<nat>,
                    i: nat, off0: nat, src: seq<Byte>, tot: nat, seen: nat, dataB: set<nat>,
                    maps: set<nat>)
    requires WellFormed(g, d0, ns0) && WellFormed(g, d, ns) && i < |ns0| == |ns| && tot <= |src| && seen <= |src|
    requires WriteProgress(g, d0, ns0, lg0, d, ns, lg, i, off0, src, tot, seen, dataB, maps)
    ensures forall j | 0 <= j < |ns| :: ns[j].size == ns0[j].size && (j != i ==> ns[j] == ns0[j])
    ensures OthersSame(g, d0, ns0, d, ns, i) && StillMapped(g, d0, ns0, d, ns)
    ensures Overlaid(g, d0, ns0, d, ns, i, off0, src[..tot]) && Mapped(g, d, ns, i, off0, off0 + tot)
    ensures NoHoles(g, d0, ns0, i) ==> |lg + {InodeBlock(g, i)}| <= |lg0| + WriteBound(off0, |src|)
  {
    hide Ref, BlockAt, NoHoles;
    BlocksMono(off0, seen, |src|);
    CountLogged(lg, lg0, dataB, maps, IndirectSet(ns[i]), InodeBlock(g, i));
  }

  function Max(a: nat, b: nat): (r: nat) {
    if a < b then b else a
  }

  /** What a write of s at off leaves of file f. */
  function WriteOver(f: seq<Byte>, off: nat, s: seq<Byte>): (r: seq<Byte>)
    requires off <= |f|
  {
    f[..off] + s + (if off + |s| < |f| then f[off + |s|..] else [])
  }

  /** How many blocks n bytes at off touch. */
  function BlocksIn(off: nat, n: nat): (r: nat) {
    if n == 0 then 0 else (off + n - 1) / BSIZE - off / BSIZE + 1
  }

  /** How many of them can be new in a file without holes: not the first one when off is inside it. */
  function NewIn(off: nat, n: nat): (r: nat) {
    if n == 0 then 0 else BlocksIn(off, n) - (if off % BSIZE == 0 then 0 else 1)
  }

  function NewIndirect(was: Inode, now: Inode): (r: nat)
    requires |was.addrs| == |now.addrs| == NDIRECT + 1
  {
    if was.addrs[NDIRECT] == 0 && now.addrs[NDIRECT] != 0 then 1 else 0
  }

  /** Most blocks one writei of n bytes can log: data, free map, indirect block, inode. */
  function WriteBound(off: nat, n: nat): (r: nat) {
    BlocksIn(off, n) + (NewIn(off, n) + 1) + 1 + 1
  }

  /** The blocks from off0's up to off are mapped. */
  ghost predicate Mapped(g: Geometry, d: Disk, ns: seq<Inode>, i: nat, off0: nat, off: nat)
    requires WellFormed(g, d, ns) && i < |ns|
  {
    off0 < off ==>
      forall bn | off0 / BSIZE <= bn < MAXFILE && bn * BSIZE < off :: Ref(g, d, ns, DataSlot(i, bn)) != 0
  }

  lemma MappedGrow(g: Geometry, d: Disk, ns: seq<Inode>, e: Disk, ms: seq<Inode>, i: nat, off0: nat, off: nat, m: nat)
    requires WellFormed(g, d, ns) && WellFormed(g, e, ms) && i < |ns| && StillMapped(g, d, ns, e, ms)
    requires Mapped(g, d, ns, i, off0, off) && off0 <= off && off + m <= MAXBYTES && off % BSIZE + m <= BSIZE
             && off < MAXBYTES
    requires m > 0 ==> Ref(g, e, ms, DataSlot(i, off / BSIZE)) != 0
    ensures Mapped(g, e, ms, i, off0, off + m)
  {
    hide Ref;
    forall bn | off0 < off + m && off0 / BSIZE <= bn < MAXFILE && bn * BSIZE < off + m
      ensures Ref(g, e, ms, DataSlot(i, bn)) != 0
    {
      if m == 0 || bn != off / BSIZE {
        assert bn * BSIZE < off;
        assert Ref(g, d, ns, DataSlot(i, bn)) != 0;
      }
    }
  }

  lemma RoundDone(g: Geometry, d0: Disk, ns0: seq<Inode>, d: Disk, ns: seq<Inode>, e: Disk, ms: seq<Inode>, i: nat,
                  off0: nat, src: seq<Byte>, tot: nat, m: nat)
    requires WellFormed(g, d0, ns0) && WellFormed(g, d, ns) && WellFormed(g, e, ms) && |ns0| == |ns| == |ms|
    requires i < |ns| && tot + m <= |src|
    requires OthersSame(g, d0, ns0, d, ns, i) && OthersSame(g, d, ns, e, ms, i)
    requires Overlaid(g, d0, ns0, d, ns, i, off0, src[..tot])
    requires Overlaid(g, d, ns, e, ms, i, off0 + tot, src[tot..tot + m])
    requires StillMapped(g, d0, ns0, d, ns) && StillMapped(g, d, ns, e, ms)
    ensures OthersSame(g, d0, ns0, e, ms, i) && StillMapped(g, d0, ns0, e, ms)
    ensures Overlaid(g, d0, ns0, e, ms, i, off0, src[..tot + m])
  {
    hide Ref, BlockAt;
    forall p | 0 <= p < MAXBYTES
      ensures ByteAt(g, e, ms, i, p) == if off0 <= p < off0 + tot + m then src[p - off0] else ByteAt(g, d0, ns0, i, p)
    {
      hide ByteAt;
      assert ByteAt(g, e, ms, i, p) ==
             if off0 + tot <= p < off0 + tot + m then src[tot..tot + m][p - off0 - tot] else ByteAt(g, d, ns, i, p);
    }
  }

  lemma BlocksMono(off0: nat, k: nat, n: nat)
    requires k <= n
    ensures BlocksIn(off0, k) <= BlocksIn(off0, n) && NewIn(off0, k) <= NewIn(off0, n)
  {
  }

  lemma CountLogged(logged: set<nat>, was: set<nat>, dataB: set<nat>, maps: set<nat>, ind: set<nat>, ib: nat)
    requires logged <= was + dataB + maps + ind && |ind| <= 1
    ensures |logged + {ib}| <= |was| + |dataB| + |maps| + 1 + 1
  {
    UnionCard(was, dataB);
    UnionCard(was + dataB, maps);
    UnionCard(was + dataB + maps, ind);
    SubsetCard(logged, was + dataB + maps + ind);
    UnionCard(logged, {ib});
  }

  /** The free-map blocks logged stay within the new blocks plus the indirect block. */
  lemma MapsGrow(g: Geometry, d0: Disk, ns0: seq<Inode>, d: Disk, ns: seq<Inode>, e: Disk, ms: seq<Inode>, i: nat,
                 off0: nat, tot: nat, m: nat, maps: set<nat>, more: set<nat>, ok: bool)
    requires WellFormed(g, d0, ns0) && WellFormed(g, d, ns) && WellFormed(g, e, ms) && |ns0| == |ns| == |ms|
    requires i < |ns| && off0 <= ns0[i].size && off0 + tot < MAXBYTES && m > 0
    requires (tot > 0 ==> (off0 + tot) % BSIZE == 0) && (off0 + tot) % BSIZE + m <= BSIZE
    requires StillMapped(g, d0, ns0, d, ns) && StillMapped(g, d, ns, e, ms)
    requires NoHoles(g, d0, ns0, i) ==> |maps| <= NewIn(off0, tot) + NewIndirect(ns0[i], ns[i])
    requires ok <==> Ref(g, e, ms, DataSlot(i, (off0 + tot) / BSIZE)) != 0
    requires |more| <= if Ref(g, d, ns, DataSlot(i, (off0 + tot) / BSIZE)) != 0 then 0
                       else if (off0 + tot) / BSIZE < NDIRECT || ns[i].addrs[NDIRECT] != 0 then 1 else 2
    ensures NoHoles(g, d0, ns0, i) ==>
              |maps + more| <= NewIn(off0, tot + m) + (if ok then NewIndirect(ns0[i], ms[i]) else 1)
  {
    if NoHoles(g, d0, ns0, i) {
      var bn := (off0 + tot) / BSIZE;
      UnionCard(maps, more);
      BlocksGrow(off0, tot, m);
      AddrRef(g, d0, ns0, i, NDIRECT);
      AddrRef(g, d, ns, i, NDIRECT);
      AddrRef(g, e, ms, i, NDIRECT);
      assert ok && bn >= NDIRECT ==> ms[i].addrs[NDIRECT] != 0;
      hide Ref;
      if tot == 0 && off0 % BSIZE != 0 {
        assert bn * BSIZE < off0;
        assert Ref(g, d0, ns0, DataSlot(i, bn)) != 0;
      }
    }
  }

  lemma ResizedLog(g: Geometry, d: Disk, ns: seq<Inode>, ms: seq<Inode>, owner: map<nat, Slot>, i: nat, off0: nat,
      off: nat,
                   lg: set<nat>, lg': set<nat>)
    requires WellFormed(g, d, ns) && Owned(g, d, ns, owner, {}) && i < |ns| == |ms|
    requires ms == ns[i := ns[i].(size := ms[i].size)] && lg <= lg'
    requires Mapped(g, d, ns, i, off0, off) && DataLogged(g, d, ns, i, off0, off, lg)
    ensures WellFormed(g, d, ms) && Mapped(g, d, ms, i, off0, off) && DataLogged(g, d, ms, i, off0, off, lg')
    ensures forall bn | 0 <= bn < MAXFILE :: Ref(g, d, ms, DataSlot(i, bn)) == Ref(g, d, ns, DataSlot(i, bn))
  {
    hide Ref, Owned, BlockAt, WellFormed;
    SizeOnly(g, d, ns, ms, owner, i);
    forall bn | 0 <= bn < MAXFILE
      ensures Ref(g, d, ms, DataSlot(i, bn)) == Ref(g, d, ns, DataSlot(i, bn))
    {
      assert SlotOk(ns, DataSlot(i, bn));
    }
  }

  /** Setting the size after the loop. */
  lemma Resized(g: Geometry, d0: Disk, ns0: seq<Inode>, d: Disk, ns: seq<Inode>, ms: seq<Inode>, owner: map<nat, Slot>,
                i: nat, off: nat, s: seq<Byte>, n: nat)
    requires WellFormed(g, d0, ns0) && WellFormed(g, d, ns) && Owned(g, d, ns, owner, {}) && |ns0| == |ns|
    requires i < |ns| && off <= ns0[i].size == ns[i].size <= MAXBYTES && n <= |s| && off + |s| <= MAXBYTES
    requires ms == ns[i := ns[i].(size := Max(ns[i].size, off + n))]
    requires OthersSame(g, d0, ns0, d, ns, i) && Overlaid(g, d0, ns0, d, ns, i, off, s)
    requires StillMapped(g, d0, ns0, d, ns) && Mapped(g, d, ns, i, off, off + n)
    ensures WellFormed(g, d, ms) && Owned(g, d, ms, owner, {})
    ensures OthersSame(g, d0, ns0, d, ms, i) && StillMapped(g, d0, ns0, d, ms)
    ensures ms[i].size <= |WriteOver(Content(g, d0, ns0, i), off, s)|
    ensures Content(g, d, ms, i) == WriteOver(Content(g, d0, ns0, i), off, s)[..ms[i].size]
    ensures NoHoles(g, d0, ns0, i) ==> NoHoles(g, d, ms, i)
  {
    hide Ref, BlockAt, Owned, WellFormed, ByteAt, NoHoles, Mapped, Content, WriteOver, Overlaid;
    SizeOnly(g, d, ns, ms, owner, i);
    ResizedMap(g, d0, ns0, d, ns, ms, i, off, n);
    ResizedBytes(g, d0, ns0, d, ns, ms, i, off, s, n);
  }

  lemma ResizedMap(g: Geometry, d0: Disk, ns0: seq<Inode>, d: Disk, ns: seq<Inode>, ms: seq<Inode>, i: nat, off: nat,
      n: nat)
    requires WellFormed(g, d0, ns0) && WellFormed(g, d, ns) && WellFormed(g, d, ms) && i < |ns0| == |ns| == |ms|
    requires off <= ns0[i].size && off + n <= MAXBYTES && ms[i].size == Max(ns0[i].size, off + n)
    requires StillMapped(g, d0, ns0, d, ns) && Mapped(g, d, ns, i, off, off + n)
    requires forall t | SlotOk(ns, t) :: Ref(g, d, ms, t) == Ref(g, d, ns, t)
    ensures NoHoles(g, d0, ns0, i) ==> NoHoles(g, d, ms, i)
  {
    hide Ref, WellFormed;
    if NoHoles(g, d0, ns0, i) {
      forall bn | 0 <= bn < MAXFILE && bn * BSIZE < ms[i].size
        ensures Ref(g, d, ms, DataSlot(i, bn)) != 0
      {
        assert SlotOk(ns, DataSlot(i, bn));
        if bn * BSIZE < ns0[i].size {
          assert Ref(g, d0, ns0, DataSlot(i, bn)) != 0;
        } else {
          assert off / BSIZE <= bn && off < off + n;
          assert Ref(g, d, ns, DataSlot(i, bn)) != 0;
        }
      }
    }
  }

  lemma ResizedBytes(g: Geometry, d0: Disk, ns0: seq<Inode>, d: Disk, ns: seq<Inode>, ms: seq<Inode>, i: nat, off: nat,
                     s: seq<Byte>, n: nat)
    requires WellFormed(g, d0, ns0) && WellFormed(g, d, ns) && WellFormed(g, d, ms) && i < |ns0| == |ns| == |ms|
    requires off <= ns0[i].size <= MAXBYTES && n <= |s| && off + |s| <= MAXBYTES
    requires ms[i].size == Max(ns0[i].size, off + n)
    requires Overlaid(g, d0, ns0, d, ns, i, off, s)
    requires forall j, bn | 0 <= j < |ns| && 0 <= bn < MAXFILE :: BlockAt(g, d, ms, j, bn) == BlockAt(g, d, ns, j, bn)
    ensures ms[i].size <= |WriteOver(Content(g, d0, ns0, i), off, s)|
    ensures Content(g, d, ms, i) == WriteOver(Content(g, d0, ns0, i), off, s)[..ms[i].size]
  {
    hide BlockAt, WellFormed;
    forall p | 0 <= p < MAXBYTES
      ensures ByteAt(g, d, ms, i, p) == ByteAt(g, d, ns, i, p)
    {
    }
    hide ByteAt;
    var f, h := Content(g, d0, ns0, i), Content(g, d, ms, i);
    forall p | 0 <= p < |h|
      ensures h[p] == WriteOver(f, off, s)[p]
    {
      assert h[p] == ByteAt(g, d, ms, i, p);
    }
  }

  /** Slots, ownership and blocks do not depend on an inode's size. */
  lemma SizeOnly(g: Geometry, d: Disk, ns: seq<Inode>, ms: seq<Inode>, owner: map<nat, Slot>, i: nat)
    requires WellFormed(g, d, ns) && Owned(g, d, ns, owner, {}) && i < |ns|
    requires |ms| == |ns| && ms == ns[i := ns[i].(size := ms[i].size)]
    ensures WellFormed(g, d, ms) && Owned(g, d, ms, owner, {})
    ensures forall t | SlotOk(ns, t) :: Ref(g, d, ms, t) == Ref(g, d, ns, t)
    ensures forall j, bn | 0 <= j < |ns| && 0 <= bn < MAXFILE :: BlockAt(g, d, ms, j, bn) == BlockAt(g, d, ns, j, bn)
  {
    assert WellFormed(g, d, ms);
    forall t | SlotOk(ns, t)
      ensures Ref(g, d, ms, t) == Ref(g, d, ns, t)
    {
    }
    hide Ref, Used, WellFormed;
    assert Owned(g, d, ms, owner, {});
    forall j, bn | 0 <= j < |ns| && 0 <= bn < MAXFILE
      ensures BlockAt(g, d, ms, j, bn) == BlockAt(g, d, ns, j, bn)
    {
      assert SlotOk(ns, DataSlot(j, bn));
    }
  }

  lemma BlocksGrow(off0: nat, tot: nat, m: nat)
    requires m > 0 && (tot > 0 ==> (off0 + tot) % BSIZE == 0) && (off0 + tot) % BSIZE + m <= BSIZE
    ensures BlocksIn(off0, tot + m) == BlocksIn(off0, tot) + 1
    ensures NewIn(off0, tot + m) == NewIn(off0, tot) + (if tot == 0 && off0 % BSIZE != 0 then 0 else 1)
  {
  }

  lemma UnionCard(a: set<nat>, b: set<nat>)
    ensures |a + b| <= |a| + |b|
  {
    assert a + b == a + (b - a);
    assert |a + b| == |a| + |b - a|;
    SubsetCard(b - a, b);
  }

  lemma {:induction false} SubsetCard(a: set<nat>, b: set<nat>)
    requires a <= b
    ensures |a| <= |b|
  {
    if a != {} {
      var x :| x in a;
      SubsetCard(a - {x}, b - {x});
    }
  }

  function Min(a: nat, b: nat): (r: nat) {
    if a < b then a else b
  }

  /** What a read of n bytes at off returns. */
  function ReadSlice(file: seq<Byte>, off: nat, n: nat): (r: seq<Byte>)
    requires off <= |file|
  {
    file[off..Min(off + n, |file|)]
  }

  lemma SameBlocksRefl(g: Geometry, d: Disk, ns: seq<Inode>)
    requires WellFormed(g, d, ns)
    ensures SameBlocks(g, d, ns, d, ns)
  {
    hide BlockAt;
  }

  lemma SliceJoins(s: seq<Byte>, a: nat, b: nat, piece: seq<Byte>, k: nat)
    requires a <= b && k <= |piece| && b + |piece| <= |s| && piece == s[b..b + |piece|]
    ensures s[a..b] + piece[..k] == s[a..b + k] && (k == |piece| ==> piece[..k] == piece)
  {
    assert piece[..k] == s[b..b + k];
  }

  lemma SameBlocksTrans(g: Geometry, d: Disk, ns: seq<Inode>, e: Disk, ms: seq<Inode>, f: Disk, os: seq<Inode>)
    requires WellFormed(g, d, ns) && WellFormed(g, e, ms) && WellFormed(g, f, os)
    requires SameBlocks(g, d, ns, e, ms) && SameBlocks(g, e, ms, f, os)
    ensures SameBlocks(g, d, ns, f, os)
  {
    hide BlockAt;
  }

  /** Block 0 is metadata, so balloc returns 0 only when the disk is full. */
  lemma ZeroIsUsed(g: Geometry, d: Disk, ns: seq<Inode>, owner: map<nat, Slot>)
    requires Owned(g, d, ns, owner, {})
    ensures Used(g, d, 0)
  {
    hide Used;
  }

  lemma AddrRef(g: Geometry, d: Disk, ns: seq<Inode>, i: nat, k: nat)
    requires WellFormed(g, d, ns) && i < |ns| && k <= NDIRECT
    ensures Ref(g, d, ns, Slot(i, k)) == ns[i].addrs[k]
  {
  }

  lemma RefInRange(g: Geometry, d: Disk, ns: seq<Inode>, owner: map<nat, Slot>, s: Slot)
    requires Owned(g, d, ns, owner, {}) && SlotOk(ns, s)
    ensures Ref(g, d, ns, s) != 0 ==> g.nmeta <= Ref(g, d, ns, s) < g.size
  {
    hide Ref, Used;
    if Ref(g, d, ns, s) != 0 {
      assert Owns(owner, s, Ref(g, d, ns, s));
    }
  }

  lemma EntryRef(g: Geometry, d: Disk, ns: seq<Inode>, i: nat, j: nat)
    requires WellFormed(g, d, ns) && i < |ns| && j < NINDIRECT && ns[i].addrs[NDIRECT] != 0
    ensures Ref(g, d, ns, Slot(i, NDIRECT + 1 + j)) == Word(d[ns[i].addrs[NDIRECT]], j)
  {
    hide Word;
  }

  /** balloc followed by the update of an indirect block. */
  lemma EntryAttached(g: Geometry, d: Disk, ns: seq<Inode>, owner: map<nat, Slot>, i: nat, j: nat, b: nat)
    requires Owned(g, d, ns, owner, {}) && WellFormed(g, d, ns) && b < g.size && !Used(g, d, b) && i < |ns|
             && j < NINDIRECT
    requires ns[i].addrs[NDIRECT] != 0 && Word(d[ns[i].addrs[NDIRECT]], j) == 0
    ensures var ind, t := ns[i].addrs[NDIRECT], Slot(i, NDIRECT + 1 + j);
            var a := MarkUsed(g, d, b)[b := ZeroBlock()];
            var e := a[ind := WithWord(a[ind], j, b)];
            && WellFormed(g, e, ns) && Owned(g, e, ns, owner[b := t], {}) && SameBlocks(g, d, ns, e, ns)
            && forall s | SlotOk(ns, s) :: Ref(g, e, ns, s) == if s == t then b else Ref(g, d, ns, s)
  {
    hide Ref, Used, MarkUsed, Word, WithWord, Owned, SameBlocks;
    var ind, t := ns[i].addrs[NDIRECT], Slot(i, NDIRECT + 1 + j);
    var a := MarkUsed(g, d, b)[b := ZeroBlock()];
    var e := a[ind := WithWord(a[ind], j, b)];
    IndirectOwner(g, d, ns, owner, {}, i);
    AllocSpare(g, d, ns, owner, {}, b);
    var spare := {} + {b};
    assert spare - {b} == {};
    BlocksAfterAlloc(g, d, ns, owner, b);
    EntryRef(g, a, ns, i, j);
    AttachEntry(g, a, ns, owner, spare, i, j, b);
    OwnedWellFormed(g, e, ns, owner[b := t], {});
    IndirectOwner(g, a, ns, owner, spare, i);
    forall x | x in owner && owner[x].k != NDIRECT
      ensures 0 <= x < g.size && e[x] == a[x]
    {
      OwnerRange(g, a, ns, owner, spare, x);
    }
    ZeroBlockSameBlocks(g, a, ns, e, ns, owner, spare, t, b);
    SameBlocksTrans(g, d, ns, a, ns, e, ns);
  }

  lemma OwnerRange(g: Geometry, d: Disk, ns: seq<Inode>, owner: map<nat, Slot>, spare: set<nat>, b: nat)
    requires Owned(g, d, ns, owner, spare) && b in owner
    ensures g.nmeta <= b < g.size
  {
    hide WellFormed, Ref, Used, Owns;
  }

  lemma OwnedWellFormed(g: Geometry, d: Disk, ns: seq<Inode>, owner: map<nat, Slot>, spare: set<nat>)
    requires Owned(g, d, ns, owner, spare)
    ensures WellFormed(g, d, ns)
  {
    hide WellFormed, Ref, Used, Owns;
  }

  lemma BlocksAfterAlloc(g: Geometry, d: Disk, ns: seq<Inode>, owner: map<nat, Slot>, b: nat)
    requires Owned(g, d, ns, owner, {}) && b < g.size && !Used(g, d, b)
    ensures var e := MarkUsed(g, d, b)[b := ZeroBlock()];
            WellFormed(g, e, ns) && SameBlocks(g, d, ns, e, ns) && forall x | x in owner :: e[x] == d[x]
  {
    AllocSpare(g, d, ns, owner, {}, b);
    hide Ref, Used;
    var e := MarkUsed(g, d, b)[b := ZeroBlock()];
    SameRefsSameBlocks(g, d, e, ns, owner, {});
  }
}
