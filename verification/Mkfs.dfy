/** mkfs (riscv/mkfs/mkfs.c:68-296): the first image of a disk. Blocks are handed out by counting
    `freeblock` up, and the free map is written once, at the end, for all the blocks below it. */
module Mkfs {
  import opened Blocks
  import opened Inodes
  import opened FileSystem
  import opened Values

  const DIRSIZ := 14
  const ROOTINO := 1

  // ------------------------------------------------------------ layout

  /** boot | super | log | inodes | free map */
  function MetaBlocks(size: nat, ninodes: nat, logblocks: nat): (n: nat) {
    2 + (logblocks + 1) + (ninodes / 16 + 1) + (size / BPB + 1)
  }

  /** The areas follow each other; the inodes and the bits of all blocks fit in theirs. */
  function Layout(size: nat, ninodes: nat, logblocks: nat): (g: Geometry)
    requires MetaBlocks(size, ninodes, logblocks) <= size <= WORD_LIMIT
    ensures GeometryOk(g) && LayoutOk(g)
    ensures forall i | 0 <= i < ninodes :: g.inodestart <= InodeBlock(g, i) < g.bmapstart
    ensures forall b | 0 <= b < g.size :: g.bmapstart <= BitmapBlock(g, b) < g.nmeta
  {
    Geometry(size, MetaBlocks(size, ninodes, logblocks), 2 + (logblocks + 1) + (ninodes / 16 + 1), 2 + (logblocks + 1))
  }

  predicate LayoutOk(g: Geometry) {
    GeometryOk(g) && 1 < g.inodestart < g.bmapstart < g.nmeta
  }

  // ------------------------------------------------------------ the free map

  /** The disk with the bits of the first n blocks set. */
  function Marked(g: Geometry, d: Disk, n: nat): (r: Disk)
    requires GeometryOk(g) && |d| == g.size && n <= g.size
    ensures |r| == |d|
  {
    if n == 0 then d else MarkUsed(g, Marked(g, d, n - 1), n - 1)
  }

  lemma {:induction false} MarkedUsed(g: Geometry, d: Disk, n: nat, c: nat)
    requires GeometryOk(g) && |d| == g.size && n <= g.size && c < g.size
    ensures Used(g, Marked(g, d, n), c) <==> c < n || Used(g, d, c)
  {
    hide Used, MarkUsed;
    if n > 0 {
      MarkedUsed(g, d, n - 1, c);
      UsedAfterMarkUsed(g, Marked(g, d, n - 1), n - 1, c);
    }
  }

  /** Only the free map changes. */
  lemma {:induction false} MarkedSame(g: Geometry, d: Disk, n: nat, x: nat)
    requires GeometryOk(g) && |d| == g.size && n <= g.size && x < g.size
    requires x < g.bmapstart || g.nmeta <= x
    ensures Marked(g, d, n)[x] == d[x]
  {
    hide MarkUsed;
    if n > 0 {
      MarkedSame(g, d, n - 1, x);
      assert x != BitmapBlock(g, n - 1);
    }
  }

  /** Writing a data block and marking commute. */
  lemma {:induction false} MarkedWrite(g: Geometry, d: Disk, n: nat, x: nat, c: Block)
    requires GeometryOk(g) && |d| == g.size && n <= g.size && g.nmeta <= x < g.size
    ensures Marked(g, d[x := c], n) == Marked(g, d, n)[x := c]
  {
    if n > 0 {
      MarkedWrite(g, d, n - 1, x, c);
      MarkWrite(g, Marked(g, d, n - 1), n - 1, x, c);
    }
  }

  lemma MarkWrite(g: Geometry, d: Disk, b: nat, x: nat, c: Block)
    requires GeometryOk(g) && |d| == g.size && b < g.size && g.nmeta <= x < g.size
    ensures MarkUsed(g, d[x := c], b) == MarkUsed(g, d, b)[x := c]
  {
    var m := BitmapBlock(g, b);
    assert d[x := c][m] == d[m];
    var p, q := MarkUsed(g, d[x := c], b), MarkUsed(g, d, b)[x := c];
    assert p[m] == q[m];
    hide MarkUsed;
    forall y | 0 <= y < g.size
      ensures p[y] == q[y]
    {
    }
  }

  // ------------------------------------------------------------ the image under construction

  ghost predicate Blank(g: Geometry, d: Disk, fb: nat)
    requires |d| == g.size
  {
    && (forall b | g.bmapstart <= b < g.nmeta && b < g.size :: d[b] == ZeroBlock())
    && (forall b | fb <= b < g.size :: d[b] == ZeroBlock())
  }

  /** With the bits below fb set, every block from nmeta to fb has one owner; the free map and the blocks
      from fb on are still zero. */
  ghost predicate Good(g: Geometry, d: Disk, fb: nat, ns: seq<Inode>, owner: map<nat, Slot>) {
    && LayoutOk(g) && |d| == g.size && g.nmeta <= fb <= g.size && Blank(g, d, fb)
    && Owned(g, Marked(g, d, fb), ns, owner, {})
  }

  /** The mapped blocks of file i are those below its size, it has an indirect block if it needs one, and its bytes
      past the size are zero. */
  ghost predicate Shape(g: Geometry, d: Disk, ns: seq<Inode>, i: nat)
    requires WellFormed(g, d, ns) && i < |ns|
  {
    && ns[i].size <= MAXBYTES
    && (forall bn | 0 <= bn < MAXFILE :: Ref(g, d, ns, DataSlot(i, bn)) != 0 <==> bn * BSIZE < ns[i].size)
    && (ns[i].addrs[NDIRECT] != 0 <==> NDIRECT * BSIZE < ns[i].size)
    && (forall p | ns[i].size <= p < MAXBYTES :: ByteAt(g, d, ns, i, p) == 0)
  }

  ghost predicate Shapes(g: Geometry, d: Disk, ns: seq<Inode>)
    requires WellFormed(g, d, ns)
  {
    forall i | 0 <= i < |ns| :: Shape(g, d, ns, i)
  }

  lemma GoodWellFormed(g: Geometry, d: Disk, fb: nat, ns: seq<Inode>, owner: map<nat, Slot>)
    requires Good(g, d, fb, ns, owner)
    ensures WellFormed(g, Marked(g, d, fb), ns)
  {
    hide Marked, WellFormed, Ref, Used, Owns;
  }

  lemma {:induction false} ZeroUnused(g: Geometry, d: Disk, fb: nat, b: nat)
    requires LayoutOk(g) && |d| == g.size && Blank(g, d, fb) && b < g.size
    ensures !Used(g, d, b)
  {
    ZeroBits(b % BPB % 8);
  }

  lemma {:induction false} ZeroBits(i: nat)
    ensures !Bit(0, i)
  {
    if i > 0 {
      ZeroBits(i - 1);
    }
  }

  /** freeblock++: the next block becomes spare. */
  lemma TakeBlock(g: Geometry, d: Disk, fb: nat, ns: seq<Inode>, owner: map<nat, Slot>)
    requires Good(g, d, fb, ns, owner) && fb < g.size
    ensures var D, E := Marked(g, d, fb), Marked(g, d, fb + 1);
            && WellFormed(g, D, ns) && WellFormed(g, E, ns) && Owned(g, E, ns, owner, {fb}) && E[fb] == ZeroBlock()
            && fb !in owner
            && (forall s | SlotOk(ns, s) :: Ref(g, E, ns, s) == Ref(g, D, ns, s))
            && SameBlocks(g, D, ns, E, ns) && (forall x | x in owner && 0 <= x < g.size :: E[x] == D[x])
  {
    hide Used, MarkUsed, Ref, BlockAt, WellFormed;
    GoodWellFormed(g, d, fb, ns, owner);
    var D, E := Marked(g, d, fb), Marked(g, d, fb + 1);
    MarkedUsed(g, d, fb, fb);
    ZeroUnused(g, d, fb, fb);
    MarkedSame(g, d, fb, fb);
    MarkedSame(g, d, fb + 1, fb);
    assert E == MarkUsed(g, D, fb)[fb := ZeroBlock()];
    AllocSpare(g, D, ns, owner, {}, fb);
    assert {} + {fb} == {fb};
    BlocksAfterAlloc(g, D, ns, owner, fb);
  }

  /** What placing block b in the empty slot t does: no other slot and no byte of any file changes. */
  ghost predicate Placed(g: Geometry, D: Disk, ns: seq<Inode>, E: Disk, ms: seq<Inode>, t: Slot, b: nat)
    requires WellFormed(g, D, ns) && WellFormed(g, E, ms)
  {
    && |ms| == |ns| && SlotOk(ns, t)
    && (forall s | SlotOk(ns, s) :: Ref(g, E, ms, s) == if s == t then b else Ref(g, D, ns, s))
    && SameBlocks(g, D, ns, E, ms)
  }

  function WithAddr(ns: seq<Inode>, i: nat, addrs: seq<nat>): (ms: seq<Inode>)
    requires i < |ns|
  {
    ns[i := ns[i].(addrs := addrs)]
  }

  /** The next block goes into an empty address of an inode. */
  lemma GoodAddr(g: Geometry, d: Disk, fb: nat, ns: seq<Inode>, owner: map<nat, Slot>, i: nat, k: nat)
    requires Good(g, d, fb, ns, owner) && fb < g.size && i < |ns| && k <= NDIRECT
    requires |ns[i].addrs| == NDIRECT + 1 && ns[i].addrs[k] == 0
    ensures var ms := WithAddr(ns, i, ns[i].addrs[k := fb]);
            var D, E := Marked(g, d, fb), Marked(g, d, fb + 1);
            && Good(g, d, fb + 1, ms, owner[fb := Slot(i, k)])
            && WellFormed(g, D, ns) && WellFormed(g, E, ms) && Placed(g, D, ns, E, ms, Slot(i, k), fb)
  {
    hide Used, Marked, Ref, BlockAt, WellFormed, Owned, SameBlocks;
    var ms := WithAddr(ns, i, ns[i].addrs[k := fb]);
    var D, E := Marked(g, d, fb), Marked(g, d, fb + 1);
    TakeBlock(g, d, fb, ns, owner);
    AttachAddr(g, E, ns, owner, {fb}, i, k, fb);
    assert {fb} - {fb} == {};
    OwnedWellFormed(g, E, ms, owner[fb := Slot(i, k)], {});
    AddrRef(g, E, ns, i, k);
    ZeroBlockSameBlocks(g, E, ns, E, ms, owner, {fb}, Slot(i, k), fb);
    SameBlocksTrans(g, D, ns, E, ns, E, ms);
  }

  /** The next block goes into an empty word of an indirect block. */
  lemma GoodEntry(g: Geometry, d: Disk, fb: nat, ns: seq<Inode>, owner: map<nat, Slot>, i: nat, j: nat)
    requires Good(g, d, fb, ns, owner) && fb < g.size <= WORD_LIMIT && i < |ns| && j < NINDIRECT
    requires |ns[i].addrs| == NDIRECT + 1 && 0 < ns[i].addrs[NDIRECT] < g.size && Word(d[ns[i].addrs[NDIRECT]], j) == 0
    ensures var ind, t := ns[i].addrs[NDIRECT], Slot(i, NDIRECT + 1 + j);
            var e := d[ind := WithWord(d[ind], j, fb)];
            var D, E := Marked(g, d, fb), Marked(g, e, fb + 1);
            && g.nmeta <= ind < fb && Good(g, e, fb + 1, ns, owner[fb := t])
            && WellFormed(g, D, ns) && WellFormed(g, E, ns) && Placed(g, D, ns, E, ns, t, fb)
  {
    hide Used, Marked, Ref, BlockAt, WellFormed, Owned, SameBlocks, Word, WithWord;
    var ind, t := ns[i].addrs[NDIRECT], Slot(i, NDIRECT + 1 + j);
    var e := d[ind := WithWord(d[ind], j, fb)];
    var D, M, E := Marked(g, d, fb), Marked(g, d, fb + 1), Marked(g, e, fb + 1);
    IndirectBelow(g, d, fb, ns, owner, i);
    TakeBlock(g, d, fb, ns, owner);
    MarkedSame(g, d, fb + 1, ind);
    MarkedWrite(g, d, fb + 1, ind, WithWord(d[ind], j, fb));
    AttachEntry(g, M, ns, owner, {fb}, i, j, fb);
    assert {fb} - {fb} == {};
    OwnedWellFormed(g, E, ns, owner[fb := t], {});
    EntryRef(g, M, ns, i, j);
    IndirectOwner(g, M, ns, owner, {fb}, i);
    forall x | x in owner && owner[x].k != NDIRECT
      ensures 0 <= x < g.size && E[x] == M[x]
    {
      OwnerRange(g, M, ns, owner, {fb}, x);
    }
    ZeroBlockSameBlocks(g, M, ns, E, ns, owner, {fb}, t, fb);
    SameBlocksTrans(g, D, ns, M, ns, E, ns);
  }

  /** A mapped block is one that was handed out. */
  lemma RefBelow(g: Geometry, d: Disk, fb: nat, ns: seq<Inode>, owner: map<nat, Slot>, s: Slot)
    requires Good(g, d, fb, ns, owner) && SlotOk(ns, s)
    ensures WellFormed(g, Marked(g, d, fb), ns)
    ensures var b := Ref(g, Marked(g, d, fb), ns, s); b != 0 ==> g.nmeta <= b < fb && Owns(owner, s, b)
  {
    hide Used, Marked, Ref, WellFormed;
    GoodWellFormed(g, d, fb, ns, owner);
    var D := Marked(g, d, fb);
    var b := Ref(g, D, ns, s);
    if b != 0 {
      assert Owns(owner, s, b);
      MarkedUsed(g, d, fb, b);
      ZeroUnused(g, d, fb, b);
    }
  }

  lemma IndirectBelow(g: Geometry, d: Disk, fb: nat, ns: seq<Inode>, owner: map<nat, Slot>, i: nat)
    requires Good(g, d, fb, ns, owner) && i < |ns| && |ns[i].addrs| == NDIRECT + 1 && ns[i].addrs[NDIRECT] != 0
    ensures g.nmeta <= ns[i].addrs[NDIRECT] < fb
  {
    hide Used, Marked, Ref, WellFormed, Owned;
    RefBelow(g, d, fb, ns, owner, Slot(i, NDIRECT));
    AddrRef(g, Marked(g, d, fb), ns, i, NDIRECT);
  }

  /** A piece is written into a mapped block of file i. */
  lemma GoodWrite(g: Geometry, d: Disk, fb: nat, ns: seq<Inode>, owner: map<nat, Slot>, i: nat, off: nat,
      piece: seq<Byte>)
    requires Good(g, d, fb, ns, owner) && i < |ns| && off < MAXBYTES && off % BSIZE + |piece| <= BSIZE
    requires WellFormed(g, Marked(g, d, fb), ns) && Ref(g, Marked(g, d, fb), ns, DataSlot(i, off / BSIZE)) != 0
    ensures var D, x := Marked(g, d, fb), Ref(g, Marked(g, d, fb), ns, DataSlot(i, off / BSIZE));
            && g.nmeta <= x < fb
            && var e := d[x := Splice(d[x], off % BSIZE, piece)];
            var E := Marked(g, e, fb);
            && Good(g, e, fb, ns, owner) && WellFormed(g, E, ns)
            && (forall s | SlotOk(ns, s) :: Ref(g, E, ns, s) == Ref(g, D, ns, s))
            && Overlaid(g, D, ns, E, ns, i, off, piece) && OthersSame(g, D, ns, E, ns, i)
  {
    hide Used, Marked, Ref, BlockAt, WellFormed, Owned, ByteAt;
    var D, x := Marked(g, d, fb), Ref(g, Marked(g, d, fb), ns, DataSlot(i, off / BSIZE));
    RefBelow(g, d, fb, ns, owner, DataSlot(i, off / BSIZE));
    var e := d[x := Splice(d[x], off % BSIZE, piece)];
    MarkedSame(g, d, fb, x);
    MarkedWrite(g, d, fb, x, Splice(d[x], off % BSIZE, piece));
    WritePiece(g, D, ns, owner, i, off, piece);
    OwnedWellFormed(g, Marked(g, e, fb), ns, owner, {});
  }

  // ------------------------------------------------------------ growing a file

  /** Slots of (D, ns) and (E, ms) are mapped alike, but for the bn-th block of file i, which is mapped now.
      (The address of an indirect block, slot 12, does not count.) */
  ghost predicate MappedMore(g: Geometry, D: Disk, ns: seq<Inode>, E: Disk, ms: seq<Inode>, i: nat, bn: nat)
    requires WellFormed(g, D, ns) && WellFormed(g, E, ms) && bn < MAXFILE
  {
    && |ms| == |ns|
    && (forall j | 0 <= j < |ns| :: ms[j].size == ns[j].size && (j != i ==> ms[j] == ns[j]))
    && (forall s | SlotOk(ns, s) && s.k != NDIRECT ::
          Ref(g, E, ms, s) != 0 <==> Ref(g, D, ns, s) != 0 || s == DataSlot(i, bn))
    && (bn < NDIRECT && i < |ns| ==> ms[i].addrs[NDIRECT] == ns[i].addrs[NDIRECT])
  }

  /** The contents of file i grow by `more`; no other file changes. */
  ghost predicate Grown(g: Geometry, D: Disk, ns: seq<Inode>, E: Disk, ms: seq<Inode>, i: nat, more: seq<Byte>)
    requires WellFormed(g, D, ns) && WellFormed(g, E, ms)
  {
    && |ms| == |ns| && i < |ns|
    && (forall j | 0 <= j < |ns| :: ns[j].size <= MAXBYTES && ms[j].size <= MAXBYTES && (j != i ==> ms[j] == ns[j]))
    && (forall j | 0 <= j < |ns| :: Content(g, E, ms, j) == Content(g, D, ns, j) + if j == i then more else [])
  }

  lemma GrownTrans(g: Geometry, D: Disk, ns: seq<Inode>, E: Disk, ms: seq<Inode>, F: Disk, os: seq<Inode>, i: nat,
                   a: seq<Byte>, b: seq<Byte>)
    requires WellFormed(g, D, ns) && WellFormed(g, E, ms) && WellFormed(g, F, os)
    requires Grown(g, D, ns, E, ms, i, a) && Grown(g, E, ms, F, os, i, b)
    ensures Grown(g, D, ns, F, os, i, a + b)
  {
    hide Content, WellFormed;
    forall j | 0 <= j < |ns|
      ensures Content(g, F, os, j) == Content(g, D, ns, j) + if j == i then a + b else []
    {
      assert Content(g, E, ms, j) == Content(g, D, ns, j) + if j == i then a else [];
    }
  }

  /** The contract of one round of iappend, on values. */
  lemma Appended(g: Geometry, D: Disk, ns: seq<Inode>, F: Disk, ms: seq<Inode>, os: seq<Inode>, owner: map<nat, Slot>,
                 i: nat, off: nat, piece: seq<Byte>)
    requires WellFormed(g, D, ns) && WellFormed(g, F, ms) && Owned(g, F, ms, owner, {}) && Shapes(g, D, ns)
    requires i < |ns| && off == ns[i].size < MAXBYTES && 0 < |piece| <= BSIZE - off % BSIZE
    requires MappedMore(g, D, ns, F, ms, i, off / BSIZE)
    requires Overlaid(g, D, ns, F, ms, i, off, piece) && OthersSame(g, D, ns, F, ms, i)
    requires |ms| == |ns| && os == ms[i := ms[i].(size := off + |piece|)]
    ensures Owned(g, F, os, owner, {}) && WellFormed(g, F, os) && Shapes(g, F, os) && Grown(g, D, ns, F, os, i, piece)
  {
    hide Ref, BlockAt, Owned, WellFormed, ByteAt, Content;
    SizeOnly(g, F, ms, os, owner, i);
    forall j | 0 <= j < |ns|
      ensures Shape(g, F, os, j) && ns[j].size <= MAXBYTES
      ensures Content(g, F, os, j) == Content(g, D, ns, j) + if j == i then piece else []
    {
      assert Shape(g, D, ns, j);
      SameBytes(g, F, ms, os, j);
      if j == i {
        AppendedMap(g, D, ns, F, ms, os, i, off, piece);
        AppendedBytes(g, D, ns, F, os, i, off, piece);
      } else {
        OtherMap(g, D, ns, F, ms, os, i, off / BSIZE, j);
        OtherBytes(g, D, ns, F, ms, os, i, j);
        assert Content(g, D, ns, j) + [] == Content(g, D, ns, j);
      }
    }
  }

  lemma SameBytes(g: Geometry, d: Disk, ms: seq<Inode>, os: seq<Inode>, j: nat)
    requires WellFormed(g, d, ms) && WellFormed(g, d, os) && |os| == |ms| && j < |ms|
    requires forall k, bn | 0 <= k < |ms| && 0 <= bn < MAXFILE :: BlockAt(g, d, os, k, bn) == BlockAt(g, d, ms, k, bn)
    ensures forall p | 0 <= p < MAXBYTES :: ByteAt(g, d, os, j, p) == ByteAt(g, d, ms, j, p)
  {
    hide BlockAt, WellFormed;
  }

  lemma AppendedMap(g: Geometry, D: Disk, ns: seq<Inode>, F: Disk, ms: seq<Inode>, os: seq<Inode>, i: nat, off: nat,
                    piece: seq<Byte>)
    requires WellFormed(g, D, ns) && WellFormed(g, F, ms) && WellFormed(g, F, os) && i < |ns| && Shape(g, D, ns, i)
    requires off == ns[i].size < MAXBYTES && 0 < |piece| <= BSIZE - off % BSIZE
    requires MappedMore(g, D, ns, F, ms, i, off / BSIZE) && os == ms[i := ms[i].(size := off + |piece|)]
    requires forall t | SlotOk(ms, t) :: Ref(g, F, os, t) == Ref(g, F, ms, t)
    ensures os[i].size <= MAXBYTES
    ensures forall bn | 0 <= bn < MAXFILE :: Ref(g, F, os, DataSlot(i, bn)) != 0 <==> bn * BSIZE < os[i].size
    ensures os[i].addrs[NDIRECT] != 0 <==> NDIRECT * BSIZE < os[i].size
  {
    hide Ref, ByteAt;
    if off / BSIZE >= NDIRECT {
      assert SlotOk(ns, DataSlot(i, off / BSIZE));
      EntryNeedsIndirect(g, F, ms, i, off / BSIZE);
    }
    forall bn | 0 <= bn < MAXFILE
      ensures Ref(g, F, os, DataSlot(i, bn)) != 0 <==> bn * BSIZE < os[i].size
    {
      var s := DataSlot(i, bn);
      assert SlotOk(ns, s) && s.k != NDIRECT;
      assert Ref(g, F, os, s) == Ref(g, F, ms, s);
      assert Ref(g, D, ns, s) != 0 <==> bn * BSIZE < off;
    }
  }

  lemma EntryNeedsIndirect(g: Geometry, d: Disk, ns: seq<Inode>, i: nat, bn: nat)
    requires WellFormed(g, d, ns) && i < |ns| && NDIRECT <= bn < MAXFILE
    ensures Ref(g, d, ns, DataSlot(i, bn)) != 0 ==> ns[i].addrs[NDIRECT] != 0
  {
  }

  lemma AppendedBytes(g: Geometry, D: Disk, ns: seq<Inode>, F: Disk, os: seq<Inode>, i: nat, off: nat, piece: seq<Byte>)
    requires WellFormed(g, D, ns) && WellFormed(g, F, os) && i < |ns| == |os| && Shape(g, D, ns, i)
    requires off == ns[i].size && os[i].size == off + |piece| <= MAXBYTES
    requires Overlaid(g, D, ns, F, os, i, off, piece)
    ensures forall p | os[i].size <= p < MAXBYTES :: ByteAt(g, F, os, i, p) == 0
    ensures Content(g, F, os, i) == Content(g, D, ns, i) + piece
  {
    hide Ref, WellFormed, ByteAt;
    var a, b := Content(g, F, os, i), Content(g, D, ns, i) + piece;
    forall p | 0 <= p < off + |piece|
      ensures a[p] == b[p]
    {
      assert a[p] == ByteAt(g, F, os, i, p);
    }
  }

  lemma OtherMap(g: Geometry, D: Disk, ns: seq<Inode>, F: Disk, ms: seq<Inode>, os: seq<Inode>, i: nat, bn0: nat,
      j: nat)
    requires WellFormed(g, D, ns) && WellFormed(g, F, ms) && WellFormed(g, F, os) && i < |ns| && j < |ns| && j != i
    requires bn0 < MAXFILE && MappedMore(g, D, ns, F, ms, i, bn0) && |os| == |ms| && os[j] == ms[j]
             && Shape(g, D, ns, j)
    requires forall t | SlotOk(ms, t) :: Ref(g, F, os, t) == Ref(g, F, ms, t)
    ensures forall bn | 0 <= bn < MAXFILE :: Ref(g, F, os, DataSlot(j, bn)) != 0 <==> bn * BSIZE < os[j].size
  {
    hide Ref, WellFormed, ByteAt;
    forall bn | 0 <= bn < MAXFILE
      ensures Ref(g, F, os, DataSlot(j, bn)) != 0 <==> bn * BSIZE < os[j].size
    {
      var s := DataSlot(j, bn);
      assert SlotOk(ns, s) && s.k != NDIRECT;
      assert Ref(g, F, os, s) == Ref(g, F, ms, s);
    }
  }

  lemma OtherBytes(g: Geometry, D: Disk, ns: seq<Inode>, F: Disk, ms: seq<Inode>, os: seq<Inode>, i: nat, j: nat)
    requires WellFormed(g, D, ns) && WellFormed(g, F, ms) && WellFormed(g, F, os) && j < |ns| == |ms| == |os| && j != i
    requires OthersSame(g, D, ns, F, ms, i) && ns[j] == ms[j] == os[j] && Shape(g, D, ns, j)
    requires forall p | 0 <= p < MAXBYTES :: ByteAt(g, F, os, j, p) == ByteAt(g, F, ms, j, p)
    ensures forall p | os[j].size <= p < MAXBYTES :: ByteAt(g, F, os, j, p) == 0
    ensures Content(g, F, os, j) == Content(g, D, ns, j)
  {
    hide Ref, WellFormed, BlockAt, Owned;
    forall p | 0 <= p < MAXBYTES
      ensures ByteAt(g, F, os, j, p) == ByteAt(g, D, ns, j, p)
    {
      assert BlockAt(g, D, ns, j, p / BSIZE) == BlockAt(g, F, ms, j, p / BSIZE);
      assert ByteAt(g, F, ms, j, p) == ByteAt(g, D, ns, j, p);
    }
  }

  // ------------------------------------------------------------ finding the block to write

  /** Slot t is mapped on the right; no other slot and no byte of any file differs. */
  ghost predicate Filled(g: Geometry, D: Disk, ns: seq<Inode>, E: Disk, ms: seq<Inode>, t: Slot)
    requires WellFormed(g, D, ns) && WellFormed(g, E, ms)
  {
    && |ms| == |ns| && SlotOk(ns, t) && Ref(g, E, ms, t) != 0
    && (forall s | SlotOk(ns, s) && s != t :: Ref(g, E, ms, s) == Ref(g, D, ns, s))
    && SameBlocks(g, D, ns, E, ms)
  }

  lemma FilledAlready(g: Geometry, D: Disk, ns: seq<Inode>, t: Slot)
    requires WellFormed(g, D, ns) && SlotOk(ns, t) && Ref(g, D, ns, t) != 0
    ensures Filled(g, D, ns, D, ns, t)
  {
    hide Ref, BlockAt, WellFormed;
  }

  lemma FilledPlaced(g: Geometry, D: Disk, ns: seq<Inode>, E: Disk, ms: seq<Inode>, t: Slot, b: nat)
    requires WellFormed(g, D, ns) && WellFormed(g, E, ms) && Placed(g, D, ns, E, ms, t, b) && b != 0
    ensures Filled(g, D, ns, E, ms, t)
  {
    hide Ref, SameBlocks, WellFormed;
  }

  /** One slot is enough for a direct block. */
  lemma DirectMapped(g: Geometry, D: Disk, ns: seq<Inode>, E: Disk, ms: seq<Inode>, i: nat, bn: nat)
    requires WellFormed(g, D, ns) && WellFormed(g, E, ms) && bn < MAXFILE && Filled(g, D, ns, E, ms, DataSlot(i, bn))
    requires forall j | 0 <= j < |ns| :: ms[j].size == ns[j].size && (j != i ==> ms[j] == ns[j])
    ensures MappedMore(g, D, ns, E, ms, i, bn)
  {
    hide Ref, SameBlocks, WellFormed;
    AddrRef(g, D, ns, i, NDIRECT);
    AddrRef(g, E, ms, i, NDIRECT);
  }

  /** An indirect block may need two. */
  lemma IndirectMapped(g: Geometry, D: Disk, ns: seq<Inode>, E: Disk, ms: seq<Inode>, F: Disk, i: nat, bn: nat)
    requires WellFormed(g, D, ns) && WellFormed(g, E, ms) && WellFormed(g, F, ms) && NDIRECT <= bn < MAXFILE
    requires Filled(g, D, ns, E, ms, Slot(i, NDIRECT)) && Filled(g, E, ms, F, ms, DataSlot(i, bn))
    requires forall j | 0 <= j < |ns| :: ms[j].size == ns[j].size && (j != i ==> ms[j] == ns[j])
    ensures MappedMore(g, D, ns, F, ms, i, bn) && SameBlocks(g, D, ns, F, ms)
  {
    hide Ref, SameBlocks, WellFormed;
    SameBlocksTrans(g, D, ns, E, ms, F, ms);
    forall s | SlotOk(ns, s) && s.k != NDIRECT
      ensures Ref(g, F, ms, s) != 0 <==> Ref(g, D, ns, s) != 0 || s == DataSlot(i, bn)
    {
      assert Ref(g, E, ms, s) == Ref(g, D, ns, s);
    }
  }

  /** Bytes laid over equal blocks. */
  lemma PlacedThenWritten(g: Geometry, D: Disk, ns: seq<Inode>, E: Disk, F: Disk, ms: seq<Inode>, i: nat, off: nat,
                          piece: seq<Byte>)
    requires WellFormed(g, D, ns) && WellFormed(g, E, ms) && WellFormed(g, F, ms) && i < |ns| && off < MAXBYTES
    requires SameBlocks(g, D, ns, E, ms) && MappedMore(g, D, ns, E, ms, i, off / BSIZE)
    requires forall s | SlotOk(ms, s) :: Ref(g, F, ms, s) == Ref(g, E, ms, s)
    requires Overlaid(g, E, ms, F, ms, i, off, piece) && OthersSame(g, E, ms, F, ms, i)
    ensures MappedMore(g, D, ns, F, ms, i, off / BSIZE)
    ensures Overlaid(g, D, ns, F, ms, i, off, piece) && OthersSame(g, D, ns, F, ms, i)
  {
    hide Ref, BlockAt, WellFormed;
    forall p | 0 <= p < MAXBYTES
      ensures ByteAt(g, E, ms, i, p) == ByteAt(g, D, ns, i, p)
    {
      assert BlockAt(g, D, ns, i, p / BSIZE) == BlockAt(g, E, ms, i, p / BSIZE);
    }
    hide ByteAt;
  }

  // ------------------------------------------------------------ mkfs

  class Image {
    const g: Geometry
    var disk: Disk
    var inodes: seq<Inode>
    var freeblock: nat
    var freeinode: nat
    ghost var owner: map<nat, Slot>

    /** The image as it is once the free map is written. */
    ghost function Final(): (d: Disk)
      requires GeometryOk(g) && |disk| == g.size && freeblock <= g.size
      reads this
    {
      Marked(g, disk, freeblock)
    }

    /** A disk of zeros with the superblock in block 1; no inode and no data block is in use. */
    constructor (size: nat, ninodes: nat, logblocks: nat)
      requires MetaBlocks(size, ninodes, logblocks) <= size < WORD_LIMIT && 0 < ninodes < WORD_LIMIT
      ensures Inv() && g == Layout(size, ninodes, logblocks) && |inodes| == ninodes
      ensures freeinode == ROOTINO && freeblock == g.nmeta && owner == map[]
      ensures SuperblockOk(disk[1], g, ninodes, logblocks)
    {
      hide Used, Ref, ByteAt, Marked, Word, WithWord;
      var geo := Layout(size, ninodes, logblocks);
      g := geo;
      var zeros: Disk := seq(size, _ => ZeroBlock());
      var sb := Superblock(geo, ninodes, logblocks);
      disk := zeros[1 := sb];
      inodes := seq(ninodes, _ => EmptyInode());
      freeblock := geo.nmeta;
      freeinode := ROOTINO;
      owner := map[];
      new;
      EmptyGood(g, disk, inodes);
      SuperblockRead(g, ninodes, logblocks);
    }

    /** Returns address k, after storing the next block number there if it is 0. False: the block lies past
        the end of the image, so reading it fails and mkfs gives up. */
    method PlaceAddr(ghost ns: seq<Inode>, inum: nat, addrs: seq<nat>, k: nat) returns (ok: bool, out: seq<nat>)
      requires Good(g, disk, freeblock, ns, owner) && inum < |ns| && addrs == ns[inum].addrs && |addrs| == NDIRECT + 1
               && k <= NDIRECT
      requires addrs[k] < g.size && WellFormed(g, Final(), ns)
      modifies this`freeblock, this`owner
      ensures freeblock == old(freeblock) + if addrs[k] == 0 then 1 else 0
      ensures ok <==> freeblock <= g.size
      ensures ok ==> var ms := WithAddr(ns, inum, out);
                     && Good(g, disk, freeblock, ms, owner) && WellFormed(g, Final(), ms) && |out| == NDIRECT + 1
                     && 0 < out[k] < g.size && Filled(g, old(Final()), ns, Final(), ms, Slot(inum, k))
    {
      hide Good, Marked, WellFormed, Ref, Filled, Placed;
      ok, out := true, addrs;
      if addrs[k] == 0 {
        GoodRange(g, disk, freeblock, ns, owner);
        ghost var D := Final();
        out := addrs[k := freeblock];
        freeblock := freeblock + 1;
        ok := out[k] < g.size;
        if ok {
          GoodAddr(g, disk, freeblock - 1, ns, owner, inum, k);
          owner := owner[freeblock - 1 := Slot(inum, k)];
          FilledPlaced(g, D, ns, Final(), WithAddr(ns, inum, out), Slot(inum, k), freeblock - 1);
        }
      } else {
        GoodRange(g, disk, freeblock, ns, owner);
        AddrRef(g, Final(), ns, inum, k);
        FilledAlready(g, Final(), ns, Slot(inum, k));
        assert WithAddr(ns, inum, out) == ns;
      }
    }

    /** Word j of the indirect block, likewise. */
    method PlaceEntry(ghost ns: seq<Inode>, inum: nat, ind: nat, j: nat) returns (ok: bool, x: nat)
      requires Good(g, disk, freeblock, ns, owner) && inum < |ns| && |ns[inum].addrs| == NDIRECT + 1 && j < NINDIRECT
      requires ind == ns[inum].addrs[NDIRECT] && 0 < ind < g.size == |disk| && WellFormed(g, Final(), ns)
      modifies this`disk, this`freeblock, this`owner
      ensures |disk| == g.size
      ensures freeblock == old(freeblock) + if Ref(g, old(Final()), ns, Slot(inum, NDIRECT + 1 + j)) == 0 then 1 else 0
      ensures ok <==> freeblock <= g.size
      ensures ok ==> && Good(g, disk, freeblock, ns, owner) && WellFormed(g, Final(), ns)
                     && Filled(g, old(Final()), ns, Final(), ns, Slot(inum, NDIRECT + 1 + j))
                     && x == Ref(g, Final(), ns, Slot(inum, NDIRECT + 1 + j))
    {
      hide Good, Marked, WellFormed, Ref, Filled, Placed, Word, WithWord;
      GoodRange(g, disk, freeblock, ns, owner);
      IndirectBelow(g, disk, freeblock, ns, owner, inum);
      MarkedSame(g, disk, freeblock, ind);
      EntryRef(g, Final(), ns, inum, j);
      ghost var D, t := Final(), Slot(inum, NDIRECT + 1 + j);
      ok, x := true, Word(disk[ind], j);
      if x == 0 {
        GoodEntryStep(ns, inum, ind, j);
        x := freeblock;
        freeblock := freeblock + 1;
        ok := x < g.size;
        if ok {
          disk := disk[ind := WithWord(disk[ind], j, x)];
          owner := owner[x := t];
          FilledPlaced(g, D, ns, Final(), ns, t, x);
          PlacedRef(g, D, ns, Final(), ns, t, x);
        }
      } else {
        FilledAlready(g, D, ns, t);
      }
    }

    lemma GoodEntryStep(ns: seq<Inode>, inum: nat, ind: nat, j: nat)
      requires Good(g, disk, freeblock, ns, owner) && inum < |ns| && |ns[inum].addrs| == NDIRECT + 1 && j < NINDIRECT
      requires ind == ns[inum].addrs[NDIRECT] && 0 < ind < g.size == |disk|
               && WellFormed(g, Marked(g, disk, freeblock), ns)
      requires Word(disk[ind], j) == 0
      ensures freeblock < g.size ==>
                var t, e := Slot(inum, NDIRECT + 1 + j), disk[ind := WithWord(disk[ind], j, freeblock)];
                && Good(g, e, freeblock + 1, ns, owner[freeblock := t])
                     && WellFormed(g, Marked(g, e, freeblock + 1), ns)
                && Placed(g, Marked(g, disk, freeblock), ns, Marked(g, e, freeblock + 1), ns, t, freeblock)
    {
      hide Good, Marked, WellFormed, Placed, Word, WithWord;
      if freeblock < g.size {
        GoodRange(g, disk, freeblock, ns, owner);
        GoodEntry(g, disk, freeblock, ns, owner, inum, j);
      }
    }

    /** The number of the fbn-th block of a file whose addresses are `addrs`, and the new addresses. */
    method PlaceBlock(ghost ns: seq<Inode>, inum: nat, addrs: seq<nat>, fbn: nat)
        returns (ok: bool, x: nat, out: seq<nat>)
      requires Good(g, disk, freeblock, ns, owner) && inum < |ns| && addrs == ns[inum].addrs && fbn < MAXFILE
      requires WellFormed(g, Final(), ns)
      modifies this`disk, this`freeblock, this`owner
      ensures ok <==> old(freeblock) + Cost(g, old(Final()), ns, inum, fbn) <= g.size
      ensures ok ==> freeblock == old(freeblock) + Cost(g, old(Final()), ns, inum, fbn) <= g.size
      ensures ok ==> var ms := WithAddr(ns, inum, out);
                     && Good(g, disk, freeblock, ms, owner) && WellFormed(g, Final(), ms)
                     && MappedMore(g, old(Final()), ns, Final(), ms, inum, fbn)
                          && SameBlocks(g, old(Final()), ns, Final(), ms)
                     && x == Ref(g, Final(), ms, DataSlot(inum, fbn)) != 0
    {
      hide Good, Marked, Ref, Filled, MappedMore, SameBlocks, WellFormed;
      GoodRange(g, disk, freeblock, ns, owner);
      AddrsOk(g, Final(), ns, inum);
      ghost var D := Final();
      x := 0;
      if fbn < NDIRECT {
        ok, out := PlaceAddr(ns, inum, addrs, fbn);
        if ok {
          x := out[fbn];
          ghost var ms := WithAddr(ns, inum, out);
          DirectMapped(g, D, ns, Final(), ms, inum, fbn);
          FilledSame(g, D, ns, Final(), ms, DataSlot(inum, fbn));
          AddrRef(g, Final(), ms, inum, fbn);
        }
        AddrRef(g, D, ns, inum, fbn);
      } else {
        CostFacts(g, D, ns, inum, fbn);
        ok, out := PlaceAddr(ns, inum, addrs, NDIRECT);
        if ok {
          ghost var ms, E := WithAddr(ns, inum, out), Final();
          FilledOther(g, D, ns, E, ms, Slot(inum, NDIRECT), DataSlot(inum, fbn));
          ok, x := PlaceEntry(ms, inum, out[NDIRECT], fbn - NDIRECT);
          if ok {
            IndirectMapped(g, D, ns, E, ms, Final(), inum, fbn);
            FilledSame(g, E, ms, Final(), ms, DataSlot(inum, fbn));
          }
        }
      }
    }

    // ---------------------------------------------------------- inodes and files

    ghost predicate Inv()
      reads this
    {
      && GeometryOk(g) && |disk| == g.size && freeblock <= g.size
      && Good(g, disk, freeblock, inodes, owner) && WellFormed(g, Final(), inodes) && Shapes(g, Final(), inodes)
      && ROOTINO <= freeinode <= |inodes|
      && (forall i | 0 <= i < |inodes| && (i == 0 || freeinode <= i) :: inodes[i] == EmptyInode())
    }

    /** The next inode number. */
    method Ialloc() returns (inum: nat)
      requires Inv() && freeinode < |inodes|
      modifies this`freeinode, this`inodes
      ensures Inv() && inum == old(freeinode) && freeinode == inum + 1 && inodes == old(inodes)
    {
      hide Good, Marked, WellFormed, Shapes;
      inum := freeinode;
      freeinode := freeinode + 1;
      inodes := inodes[inum := EmptyInode()];
      assert inodes == old(inodes);
    }

    /** One round of iappend's loop: `piece` goes to the end of a file that has size off and addresses addrs. */
    method AppendOne(ghost ns: seq<Inode>, inum: nat, addrs: seq<nat>, off: nat, piece: seq<Byte>)
        returns (ok: bool, out: seq<nat>)
      requires Good(g, disk, freeblock, ns, owner) && WellFormed(g, Final(), ns) && Shapes(g, Final(), ns)
      requires inum < |ns| && ns[inum] == Inode(addrs, off) && off < MAXBYTES && 0 < |piece| <= BSIZE - off % BSIZE
      modifies this`disk, this`freeblock, this`owner
      ensures ok <==> old(freeblock) + Need(off + |piece|) - Need(off) <= g.size
      ensures ok ==> freeblock == old(freeblock) + Need(off + |piece|) - Need(off) <= g.size
      ensures ok ==> var os := ns[inum := Inode(out, off + |piece|)];
                     && Good(g, disk, freeblock, os, owner) && WellFormed(g, Final(), os) && Shapes(g, Final(), os)
                     && Grown(g, old(Final()), ns, Final(), os, inum, piece)
    {
      hide Good, Marked, Ref, MappedMore, SameBlocks, WellFormed, Shapes, Grown, Overlaid, OthersSame, Splice, Need,
           Cost;
      GoodRange(g, disk, freeblock, ns, owner);
      ghost var D := Final();
      CostIs(g, D, ns, inum, off, |piece|);
      var x;
      ok, x, out := PlaceBlock(ns, inum, addrs, off / BSIZE);
      if ok {
        ghost var ms := WithAddr(ns, inum, out);
        GoodRange(g, disk, freeblock, ms, owner);
        ghost var E := Final();
        GoodWrite(g, disk, freeblock, ms, owner, inum, off, piece);
        disk := disk[x := Splice(disk[x], off % BSIZE, piece)];
        PlacedThenWritten(g, D, ns, E, Final(), ms, inum, off, piece);
        ghost var os := ns[inum := Inode(out, off + |piece|)];
        GoodOwned(g, disk, freeblock, ms, owner);
        Appended(g, D, ns, Final(), ms, os, owner, inum, off, piece);
        GoodResized(g, disk, freeblock, ms, os, owner);
      }
    }

    /** Appends p to file inum; gives up exactly when the file would be too long or needs more blocks than are left. */
    method Iappend(inum: nat, p: seq<Byte>) returns (ok: bool)
      requires Inv() && 0 < inum < freeinode
      modifies this`disk, this`freeblock, this`owner, this`inodes
      ensures ok <==> var size := old(inodes[inum].size);
                      size + |p| <= MAXBYTES && old(freeblock) + Need(size + |p|) - Need(size) <= g.size
      ensures ok ==> var size := old(inodes[inum].size); freeblock == old(freeblock) + Need(size + |p|) - Need(size)
      ensures ok ==> Inv() && Grown(g, old(Final()), old(inodes), Final(), inodes, inum, p)
    {
      hide Good, Marked, WellFormed, Shapes, Grown, Need;
      GoodRange(g, disk, freeblock, inodes, owner);
      GrownNone(g, Final(), inodes, inum);
      var addrs, off := inodes[inum].addrs, inodes[inum].size;
      var at := 0;
      ghost var ns := inodes;
      while at < |p|
        invariant 0 <= at <= |p| && off == old(inodes[inum].size) + at <= MAXBYTES && freeblock <= g.size
                  && GeometryOk(g) && |disk| == g.size
        invariant inodes == old(inodes) && ns == inodes[inum := Inode(addrs, off)]
        invariant freeblock == old(freeblock) + Need(off) - Need(old(inodes[inum].size))
        invariant Good(g, disk, freeblock, ns, owner) && WellFormed(g, Final(), ns) && Shapes(g, Final(), ns)
        invariant Grown(g, old(Final()), old(inodes), Final(), ns, inum, p[..at])
      {
        var fbn := off / BSIZE;
        if fbn >= MAXFILE {
          return false;
        }
        var n1 := Min(|p| - at, (fbn + 1) * BSIZE - off);
        ghost var D, was := Final(), ns;
        NeedGrows(off + n1, old(inodes[inum].size) + |p|);
        ok, addrs := AppendOne(ns, inum, addrs, off, p[at..at + n1]);
        if !ok {
          return false;
        }
        off, at := off + n1, at + n1;
        ns := inodes[inum := Inode(addrs, off)];
        assert ns == was[inum := Inode(addrs, off)];
        GoodRange(g, disk, freeblock, ns, owner);
        GrownTrans(g, old(Final()), old(inodes), D, was, Final(), ns, inum, p[..at - n1], p[at - n1..at]);
        assert p[..at - n1] + p[at - n1..at] == p[..at];
        ShapeSize(g, Final(), ns, inum);
      }
      assert p[..at] == p;
      inodes := inodes[inum := Inode(addrs, off)];
      ok := true;
    }

    /** Writes the free map: one block of it is enough as long as fewer than BPB blocks are in use. */
    method WriteFreeMap() returns (ok: bool)
      requires Good(g, disk, freeblock, inodes, owner)
      modifies this`disk
      ensures ok <==> freeblock < BPB
      ensures ok ==> disk == old(Final())
    {
      hide Owned, Marked, MarkUsed, Bit, SetBit;
      if freeblock >= BPB {
        return false;
      }
      var buf, i := ZeroBlock(), 0;
      MarkedStart(g, disk);
      while i < freeblock
        invariant 0 <= i <= freeblock && disk == old(disk)
        invariant Marked(g, disk, i) == disk[g.bmapstart := buf]
      {
        MarkedNext(g, disk, i, buf);
        buf := buf[i / 8 := SetBit(buf[i / 8], i % 8)];
        i := i + 1;
      }
      disk := disk[g.bmapstart := buf];
      ok := true;
    }

    // ---------------------------------------------------------- the whole image

    /** Appends the bytes of one host file, in the pieces in which they are read. */
    method CopyFile(inum: nat, chunks: seq<seq<Byte>>) returns (ok: bool)
      requires Inv() && 0 < inum < freeinode
      modifies this`disk, this`freeblock, this`owner, this`inodes
      ensures ok <==> var size := old(inodes[inum].size);
                      && size + |Joined(chunks)| <= MAXBYTES
                      && old(freeblock) + Need(size + |Joined(chunks)|) - Need(size) <= g.size
      ensures ok ==> var size := old(inodes[inum].size);
                     freeblock == old(freeblock) + Need(size + |Joined(chunks)|) - Need(size)
      ensures ok ==> Inv() && Grown(g, old(Final()), old(inodes), Final(), inodes, inum, Joined(chunks))
    {
      hide Good, Marked, WellFormed, Shapes, Grown, Need;
      GoodRange(g, disk, freeblock, inodes, owner);
      GrownNone(g, Final(), inodes, inum);
      var c := 0;
      while c < |chunks|
        invariant 0 <= c <= |chunks| && Inv()
        invariant Grown(g, old(Final()), old(inodes), Final(), inodes, inum, Joined(chunks[..c]))
        invariant var size := old(inodes[inum].size);
                    freeblock == old(freeblock) + Need(size + |Joined(chunks[..c])|) - Need(size)
      {
        ghost var D, ns := Final(), inodes;
        GrownContents(g, old(Final()), old(inodes), D, ns, inum, Joined(chunks[..c]));
        JoinedNext(chunks, c);
        NeedGrows(old(inodes[inum].size) + |Joined(chunks[..c + 1])|, old(inodes[inum].size) + |Joined(chunks)|);
        ok := Iappend(inum, chunks[c]);
        if !ok {
          return;
        }
        GrownTrans(g, old(Final()), old(inodes), D, ns, Final(), inodes, inum, Joined(chunks[..c]), chunks[c]);
        c := c + 1;
      }
      assert chunks[..c] == chunks;
      GrownContents(g, old(Final()), old(inodes), Final(), inodes, inum, Joined(chunks));
      ok := true;
    }

    ghost predicate Holds(files: seq<HostFile>, n: nat)
      requires n <= |files|
      reads this
    {
      Inv() && freeinode == 2 + n <= |inodes| && HoldsIn(g, Final(), inodes, files, n)
    }

    /** The root inode with its two entries. */
    method MakeRoot(ghost files: seq<HostFile>) returns (ok: bool)
      requires Inv() && freeinode == ROOTINO < |inodes|
      modifies this
      ensures ok ==> Holds(files, 0) && |inodes| == old(|inodes|) && freeblock == old(freeblock) + 1
      ensures ok <==> old(freeblock) < g.size
    {
      hide Good, Marked, WellFormed, Shapes, Grown, Content, Entry;
      var root := Ialloc();
      EmptyContent(g, Final(), inodes, root);
      ghost var D, ns := Final(), inodes;
      ok := Iappend(root, Entry(root, ['.' as int]));
      if !ok {
        return;
      }
      GrownContents(g, D, ns, Final(), inodes, root, Entry(root, ['.' as int]));
      D, ns := Final(), inodes;
      ok := Iappend(root, Entry(root, ['.' as int, '.' as int]));
      if !ok {
        return;
      }
      GrownContents(g, D, ns, Final(), inodes, root, Entry(root, ['.' as int, '.' as int]));
    }

    /** One turn of the loop over the host files. */
    method AddFile(files: seq<HostFile>, n: nat) returns (ok: bool)
      requires n < |files| && Holds(files, n) && freeinode < |inodes|
      modifies this
      ensures ok ==>
                Holds(files, n + 1) && |inodes| == old(|inodes|) && freeblock == old(freeblock) + AddedBlocks(files, n)
      ensures ok <==> FileFits(files, n) && |RootData(files, n)| + 16 <= MAXBYTES
                      && old(freeblock) + AddedBlocks(files, n) <= g.size
    {
      hide Good, Marked, WellFormed, Shapes, Grown, Content, Entry, HoldsIn, RootData, Joined, Need;
      NeedGrows(|RootData(files, n)|, |RootData(files, n)| + 16);
      NeedNone();
      if |files[n].name| > DIRSIZ {
        return false;
      }
      var inum := Ialloc();
      ghost var D, ns := Final(), inodes;
      HoldsSize(g, D, ns, files, n);
      ok := Iappend(ROOTINO, Entry(inum, files[n].name));
      if !ok {
        return;
      }
      ghost var E, ms := Final(), inodes;
      GrownContents(g, D, ns, E, ms, ROOTINO, Entry(inum, files[n].name));
      ok := CopyFile(inum, files[n].chunks);
      if !ok {
        return;
      }
      GrownContents(g, E, ms, Final(), inodes, inum, Joined(files[n].chunks));
      HoldsNext(g, D, ns, E, ms, Final(), inodes, files, n);
    }

    /** mkfs: writes the files into the root directory of a fresh image. The image it leaves is one the file
        system can start from: each block below freeblock is metadata or has one owner, and each file holds the
        bytes of its host file. The root's size is rounded up past its entries, which leaves a hole at the end
        exactly when the entries fill their last block. */
    method Populate(files: seq<HostFile>) returns (ok: bool)
      requires Inv() && freeinode == ROOTINO && 2 + |files| <= |inodes|
      modifies this
      ensures ok ==>
                GeometryOk(g) && |disk| == g.size && WellFormed(g, disk, inodes) && Owned(g, disk, inodes, owner, {})
      ensures ok ==> forall b | 0 <= b < g.size :: Used(g, disk, b) <==> b < freeblock
      ensures ok ==> FilesIn(g, disk, inodes, files) && RootIn(g, disk, inodes, RootData(files, |files|))
      ensures ok && 16 * (2 + |files|) < MAXBYTES ==>
                && ROOTINO < |inodes| && inodes[ROOTINO].size <= MAXBYTES
                && ReadsAsRoot(Content(g, disk, inodes, ROOTINO), files)
      ensures ok ==> |inodes| == old(|inodes|) && forall i | 0 <= i < |inodes| && i != ROOTINO ::
              inodes[i].size <= MAXBYTES
      ensures ok <==> CanPopulate(g, old(freeblock), files)
    {
      hide Good, Marked, WellFormed, Shapes, Content, NoHoles, Owned, Joined, RootData, HoldsIn, FilesIn, RootIn,
           AddedBlocks, FileFits, BlocksNeeded, CanPopulate, ReadsAsRoot;
      NeedsAtStart(g, freeblock, files);
      ok := MakeRoot(files);
      if !ok {
        return;
      }
      var i := 0;
      while i < |files|
        invariant 0 <= i <= |files| && Holds(files, i) && |inodes| == old(|inodes|)
        invariant freeblock == old(freeblock) + BlocksNeeded(files, i) && forall k | 0 <= k < i :: FileFits(files, k)
      {
        NeedsNext(g, old(freeblock), files, i);
        ok := AddFile(files, i);
        if !ok {
          return;
        }
        i := i + 1;
      }
      GoodRange(g, disk, freeblock, inodes, owner);
      ghost var D, ns := Final(), inodes;
      HoldsSize(g, D, ns, files, |files|);
      ShapeSize(g, D, ns, ROOTINO);
      NeedsAtEnd(g, old(freeblock), files);
      var off := inodes[ROOTINO].size;
      off := (off / BSIZE + 1) * BSIZE;
      inodes := inodes[ROOTINO := inodes[ROOTINO].(size := off)];
      GoodOwned(g, disk, freeblock, ns, owner);
      RoundedIn(g, D, ns, inodes, owner, files);
      GoodResized(g, disk, freeblock, ns, inodes, owner);
      FinalUsed(g, disk, freeblock, inodes, owner);
      ok := WriteFreeMap();
      if ok && 16 * (2 + |files|) < MAXBYTES {
        RootReads(g, disk, inodes, files);
      }
    }
  }

  // ------------------------------------------------------------ files of the host

  /** A file named on the command line: its name in the image, and its bytes as read returns them. */
  datatype HostFile = HostFile(name: seq<Byte>, chunks: seq<seq<Byte>>)

  function Zeros(n: nat): (r: seq<Byte>)
    ensures |r| == n
  {
    seq(n, _ => 0)
  }

  /** A directory entry: 16-bit inode number, then the name padded with zeros. */
  function Entry(inum: nat, name: seq<Byte>): (r: seq<Byte>)
    ensures |name| <= DIRSIZ ==> |r| == 16
  {
    [inum % 256, inum / 256 % 256] + name + Zeros(if |name| <= DIRSIZ then DIRSIZ - |name| else 0)
  }

  function Joined(chunks: seq<seq<Byte>>): (r: seq<Byte>) {
    if chunks == [] then [] else Joined(chunks[..|chunks| - 1]) + chunks[|chunks| - 1]
  }

  lemma {:induction false} JoinedNext(chunks: seq<seq<Byte>>, c: nat)
    requires c < |chunks|
    ensures Joined(chunks[..c + 1]) == Joined(chunks[..c]) + chunks[c]
    ensures |Joined(chunks[..c + 1])| <= |Joined(chunks)|
    decreases |chunks| - c
  {
    assert chunks[..c + 1][..c] == chunks[..c];
    if c + 1 < |chunks| {
      JoinedNext(chunks, c + 1);
    } else {
      assert chunks[..c + 1] == chunks;
    }
  }

  /** The entries of the root directory after n files: ".", "..", then the files with inodes 2, 3, ... */
  function RootData(files: seq<HostFile>, n: nat): (r: seq<Byte>)
    requires n <= |files|
  {
    if n == 0 then Entry(ROOTINO, ['.' as int]) + Entry(ROOTINO, ['.' as int, '.' as int])
    else RootData(files, n - 1) + Entry(1 + n, files[n - 1].name)
  }

  /** Inode 2 + k holds the bytes of file k, with every block mapped. */
  ghost predicate FilesIn(g: Geometry, d: Disk, ns: seq<Inode>, files: seq<HostFile>)
    requires WellFormed(g, d, ns)
  {
    && 2 + |files| <= |ns|
    && forall k | 0 <= k < |files| ::
         && ns[2 + k].size <= MAXBYTES && NoHoles(g, d, ns, 2 + k)
         && Content(g, d, ns, 2 + k) == Joined(files[k].chunks)
  }

  function RoundUp(n: nat): (r: nat) {
    (n / BSIZE + 1) * BSIZE
  }

  /** The root directory holds data and then zeros up to its size. It has a hole exactly when data ends at the
      end of a block (and the file is not of maximal length, in which case the size is past the last block). */
  ghost predicate RootIn(g: Geometry, d: Disk, ns: seq<Inode>, data: seq<Byte>)
    requires WellFormed(g, d, ns)
  {
    && ROOTINO < |ns| && ns[ROOTINO].size == RoundUp(|data|) && |data| <= MAXBYTES
    && (NoHoles(g, d, ns, ROOTINO) <==> |data| % BSIZE != 0 || |data| == MAXBYTES)
    && (|data| < MAXBYTES ==>
          && |data| <= ns[ROOTINO].size <= MAXBYTES
          && Content(g, d, ns, ROOTINO) == data + Zeros(ns[ROOTINO].size - |data|))
  }

  // ------------------------------------------------------------ the root directory as it is read

  /** Entry k of a directory as dirlookup reads it: a little-endian inode number and the 14 bytes of the name. */
  function EntryAt(data: seq<Byte>, k: nat): (e: (nat, seq<Byte>))
    requires 16 * k + 16 <= |data|
  {
    var lo: int, hi: int := data[16 * k], data[16 * k + 1];
    (lo + 256 * hi, data[16 * k + 2..16 * k + 16])
  }

  function Padded(name: seq<Byte>): (r: seq<Byte>)
    requires |name| <= DIRSIZ
  {
    name + Zeros(DIRSIZ - |name|)
  }

  /** What entry k of the root directory should be: the directory itself, itself again as its parent, the files in
      order with the inodes from 2 on, and free entries. */
  function RootEntry(files: seq<HostFile>, k: nat): (e: (nat, seq<Byte>))
    requires forall j | 0 <= j < |files| :: |files[j].name| <= DIRSIZ
  {
    if k == 0 then (ROOTINO, Padded(['.' as int]))
    else if k == 1 then (ROOTINO, Padded(['.' as int, '.' as int]))
    else if k < 2 + |files| then (k, Padded(files[k - 2].name))
    else (0, Zeros(DIRSIZ))
  }

  /** The entries of the root directory of a disk with n files fill whole blocks of 64. */
  function RootSlots(n: nat): (m: nat)
    ensures m >= 2 + n
  {
    64 * ((2 + n) / 64 + 1)
  }

  /** data is the root directory of a disk with these files. */
  ghost predicate ReadsAsRoot(data: seq<Byte>, files: seq<HostFile>) {
    && (forall j | 0 <= j < |files| :: |files[j].name| <= DIRSIZ)
    && |data| == 16 * RootSlots(|files|)
    && forall k | 0 <= k < RootSlots(|files|) :: EntryAt(data, k) == RootEntry(files, k)
  }

  lemma EntryRead(inum: nat, name: seq<Byte>)
    requires inum < 65536 && |name| <= DIRSIZ
    ensures EntryAt(Entry(inum, name), 0) == (inum, Padded(name))
  {
    var e := Entry(inum, name);
    assert e[2..16] == name + Zeros(DIRSIZ - |name|);
    assert inum / 256 % 256 == inum / 256;
  }

  /** Appending an entry, or zeros, changes no entry before. */
  lemma EntryInside(a: seq<Byte>, b: seq<Byte>, k: nat)
    requires |a| % 16 == 0 && 16 * k + 16 <= |a| + |b|
    ensures 16 * k + 16 <= |a| ==> EntryAt(a + b, k) == EntryAt(a, k)
    ensures |a| <= 16 * k ==> EntryAt(a + b, k) == EntryAt(b, k - |a| / 16)
  {
    if |a| <= 16 * k {
      assert (a + b)[16 * k + 2..16 * k + 16] == b[16 * k - |a| + 2..16 * k - |a| + 16];
    } else {
      assert (a + b)[16 * k + 2..16 * k + 16] == a[16 * k + 2..16 * k + 16];
    }
  }

  lemma {:induction false} RootDataReads(files: seq<HostFile>, n: nat, k: nat)
    requires n <= |files| && 2 + n < 65536 && forall j | 0 <= j < |files| :: FileFits(files, j)
    requires k < 2 + n && forall j | 0 <= j < |files| :: |files[j].name| <= DIRSIZ
    ensures |RootData(files, n)| == 16 * (2 + n) && EntryAt(RootData(files, n), k) == RootEntry(files, k)
    decreases n
  {
    hide Entry, EntryAt, Padded;
    RootDataSize(files, n);
    if n == 0 {
      var a, b := Entry(ROOTINO, ['.' as int]), Entry(ROOTINO, ['.' as int, '.' as int]);
      EntryInside(a, b, k);
      EntryRead(ROOTINO, ['.' as int]);
      EntryRead(ROOTINO, ['.' as int, '.' as int]);
    } else {
      RootDataSize(files, n - 1);
      assert FileFits(files, n - 1);
      var a, b := RootData(files, n - 1), Entry(1 + n, files[n - 1].name);
      EntryInside(a, b, k);
      if k < 1 + n {
        RootDataReads(files, n - 1, k);
      } else {
        EntryRead(1 + n, files[n - 1].name);
      }
    }
  }

  lemma RootWithZeros(files: seq<HostFile>, n: nat, k: nat)
    requires 2 + |files| < 65536 && forall j | 0 <= j < |files| :: FileFits(files, j)
    requires forall j | 0 <= j < |files| :: |files[j].name| <= DIRSIZ
    requires |RootData(files, |files|)| == 16 * (2 + |files|) && 16 * k + 16 <= 16 * (2 + |files|) + n
    ensures EntryAt(RootData(files, |files|) + Zeros(n), k) == RootEntry(files, k)
  {
    hide RootData, EntryAt, RootEntry, FileFits, Zeros;
    EntryInside(RootData(files, |files|), Zeros(n), k);
    if k < 2 + |files| {
      RootDataReads(files, |files|, k);
    } else {
      ZerosRead(n, k - (2 + |files|), files, k);
    }
  }

  lemma PaddedReads(files: seq<HostFile>, n: nat)
    requires 2 + |files| < 65536 && n == 16 * RootSlots(|files|) - 16 * (2 + |files|)
    requires forall j | 0 <= j < |files| :: FileFits(files, j)
    ensures ReadsAsRoot(RootData(files, |files|) + Zeros(n), files)
  {
    hide RootData, EntryAt, RootEntry, Zeros, FileFits, RootSlots;
    RootDataSize(files, |files|);
    NamesFit(files);
    var data, m := RootData(files, |files|) + Zeros(n), RootSlots(|files|);
    forall k | 0 <= k < m
      ensures EntryAt(data, k) == RootEntry(files, k)
    {
      RootWithZeros(files, n, k);
    }
  }

  lemma RoundedBy(n: nat)
    ensures RoundUp(16 * (2 + n)) == 16 * RootSlots(n)
  {
  }

  /** The root directory reads as the names of all files with their inodes. */
  lemma RootReads(g: Geometry, d: Disk, ns: seq<Inode>, files: seq<HostFile>)
    requires WellFormed(g, d, ns) && RootIn(g, d, ns, RootData(files, |files|))
    requires 16 * (2 + |files|) < MAXBYTES && forall j | 0 <= j < |files| :: FileFits(files, j)
    ensures ROOTINO < |ns| && ns[ROOTINO].size <= MAXBYTES && ReadsAsRoot(Content(g, d, ns, ROOTINO), files)
  {
    hide NoHoles, Content, WellFormed, RootData, ReadsAsRoot, Zeros, FileFits, RoundUp, RootSlots;
    RootDataSize(files, |files|);
    RoundedBy(|files|);
    PaddedReads(files, ns[ROOTINO].size - 16 * (2 + |files|));
  }

  lemma NamesFit(files: seq<HostFile>)
    requires forall j | 0 <= j < |files| :: FileFits(files, j)
    ensures forall j | 0 <= j < |files| :: |files[j].name| <= DIRSIZ
  {
    hide Joined;
    forall j | 0 <= j < |files|
      ensures |files[j].name| <= DIRSIZ
    {
      assert FileFits(files, j);
    }
  }

  lemma ZerosRead(n: nat, i: nat, files: seq<HostFile>, k: nat)
    requires 16 * i + 16 <= n && k >= 2 + |files| && forall j | 0 <= j < |files| :: |files[j].name| <= DIRSIZ
    ensures EntryAt(Zeros(n), i) == RootEntry(files, k)
  {
    assert Zeros(n)[16 * i + 2..16 * i + 16] == Zeros(DIRSIZ);
  }

  // ------------------------------------------------------------ how many blocks are needed

  /** The blocks of a file of size bytes, with its indirect block. */
  function Need(size: nat): (n: nat) {
    (size + BSIZE - 1) / BSIZE + if size > NDIRECT * BSIZE then 1 else 0
  }

  lemma NeedGrows(a: nat, b: nat)
    ensures a <= b ==> Need(a) <= Need(b)
  {
    if a <= b {
      assert (a + BSIZE - 1) / BSIZE <= (b + BSIZE - 1) / BSIZE;
    }
  }

  lemma NeedNone()
    ensures Need(0) == 0
  {
  }

  /** The blocks that placing the fbn-th block of a file takes. */
  ghost function Cost(g: Geometry, D: Disk, ns: seq<Inode>, i: nat, fbn: nat): (n: nat)
    requires WellFormed(g, D, ns) && i < |ns| && fbn < MAXFILE
  {
    if Ref(g, D, ns, DataSlot(i, fbn)) != 0 then 0
    else if fbn >= NDIRECT && ns[i].addrs[NDIRECT] == 0 then 2
    else 1
  }

  lemma CostFacts(g: Geometry, D: Disk, ns: seq<Inode>, i: nat, fbn: nat)
    requires WellFormed(g, D, ns) && i < |ns| && NDIRECT <= fbn < MAXFILE
    ensures ns[i].addrs[NDIRECT] == 0 ==> Ref(g, D, ns, DataSlot(i, fbn)) == 0
    ensures DataSlot(i, fbn) == Slot(i, NDIRECT + 1 + (fbn - NDIRECT))
  {
  }

  lemma FilledOther(g: Geometry, D: Disk, ns: seq<Inode>, E: Disk, ms: seq<Inode>, t: Slot, s: Slot)
    requires WellFormed(g, D, ns) && WellFormed(g, E, ms) && Filled(g, D, ns, E, ms, t) && SlotOk(ns, s) && s != t
    ensures SlotOk(ms, s) && Ref(g, E, ms, s) == Ref(g, D, ns, s)
  {
    hide Ref, SameBlocks, WellFormed;
  }

  /** Appending a piece takes the blocks that the size grows by. */
  lemma CostIs(g: Geometry, D: Disk, ns: seq<Inode>, i: nat, off: nat, n: nat)
    requires WellFormed(g, D, ns) && i < |ns| && Shapes(g, D, ns) && ns[i].size == off < MAXBYTES
    requires 0 < n <= BSIZE - off % BSIZE
    ensures Cost(g, D, ns, i, off / BSIZE) == Need(off + n) - Need(off)
  {
    hide Ref, ByteAt;
    assert Shape(g, D, ns, i);
    var bn, m := off / BSIZE, off % BSIZE;
    assert off == BSIZE * bn + m;
    assert (off + n + BSIZE - 1) / BSIZE == bn + 1;
    assert (off + BSIZE - 1) / BSIZE == if m == 0 then bn else bn + 1;
  }

  predicate FileFits(files: seq<HostFile>, k: nat)
    requires k < |files|
  {
    |files[k].name| <= DIRSIZ && |Joined(files[k].chunks)| <= MAXBYTES
  }

  /** The blocks that the k-th file takes, with its entry in the root directory. */
  function AddedBlocks(files: seq<HostFile>, k: nat): (n: int)
    requires k < |files|
  {
    Need(|RootData(files, k)| + 16) - Need(|RootData(files, k)|) + Need(|Joined(files[k].chunks)|)
  }

  function BlocksNeeded(files: seq<HostFile>, n: nat): (b: int)
    requires n <= |files|
  {
    if n == 0 then 1 else BlocksNeeded(files, n - 1) + AddedBlocks(files, n - 1)
  }

  /** When mkfs succeeds with fb as the first free block: names and files fit, and so do the blocks, in the image and
      in one block of the free map. */
  predicate CanPopulate(g: Geometry, fb: nat, files: seq<HostFile>) {
    && (forall k | 0 <= k < |files| :: FileFits(files, k))
    && 16 * (2 + |files|) <= MAXBYTES
    && fb + BlocksNeeded(files, |files|) <= g.size && fb + BlocksNeeded(files, |files|) < BPB
  }

  lemma {:induction false} RootDataSize(files: seq<HostFile>, n: nat)
    requires n <= |files| && forall k | 0 <= k < n :: FileFits(files, k)
    ensures |RootData(files, n)| == 16 * (2 + n)
  {
    if n > 0 {
      RootDataSize(files, n - 1);
      assert FileFits(files, n - 1);
    }
  }

  lemma {:induction false} NeededGrows(files: seq<HostFile>, n: nat, m: nat)
    requires n <= m <= |files|
    ensures 1 <= BlocksNeeded(files, n) <= BlocksNeeded(files, m)
    decreases m
  {
    hide Need;
    if m > 0 {
      NeedGrows(|RootData(files, m - 1)|, |RootData(files, m - 1)| + 16);
      NeededGrows(files, if n < m then n else m - 1, m - 1);
    }
  }

  lemma NeedsAtStart(g: Geometry, fb: nat, files: seq<HostFile>)
    ensures fb >= g.size ==> !CanPopulate(g, fb, files)
    ensures BlocksNeeded(files, 0) == 1
  {
    NeededGrows(files, 0, |files|);
  }

  lemma NeedsNext(g: Geometry, fb: nat, files: seq<HostFile>, i: nat)
    requires i < |files| && forall k | 0 <= k < i :: FileFits(files, k)
    ensures BlocksNeeded(files, i + 1) == BlocksNeeded(files, i) + AddedBlocks(files, i)
    ensures !FileFits(files, i) || |RootData(files, i)| + 16 > MAXBYTES || fb + BlocksNeeded(files, i + 1) > g.size ==>
              !CanPopulate(g, fb, files)
  {
    hide Need, AddedBlocks, FileFits;
    NeededGrows(files, i + 1, |files|);
    RootDataSize(files, i);
  }

  lemma NeedsAtEnd(g: Geometry, fb: nat, files: seq<HostFile>)
    requires forall k | 0 <= k < |files| :: FileFits(files, k)
    ensures |RootData(files, |files|)| <= MAXBYTES && fb + BlocksNeeded(files, |files|) <= g.size ==>
              (CanPopulate(g, fb, files) <==> fb + BlocksNeeded(files, |files|) < BPB)
  {
    hide FileFits, BlocksNeeded;
    RootDataSize(files, |files|);
  }

  /** The root directory starts with a hole for 62 files, 126 files, and so on. */
  lemma HoleForWhichFiles(g: Geometry, d: Disk, ns: seq<Inode>, files: seq<HostFile>)
    requires WellFormed(g, d, ns) && RootIn(g, d, ns, RootData(files, |files|))
    requires forall k | 0 <= k < |files| :: FileFits(files, k)
    ensures NoHoles(g, d, ns, ROOTINO) <==> (2 + |files|) % 64 != 0 || 16 * (2 + |files|) == MAXBYTES
  {
    hide NoHoles, Content, RootData, WellFormed, FileFits, RoundUp, Zeros;
    RootDataSize(files, |files|);
    EntriesPerBlock(2 + |files|);
  }

  lemma EntriesPerBlock(n: nat)
    ensures 16 * n % BSIZE == 0 <==> n % 64 == 0
  {
    var q, m := n / 64, n % 64;
    assert 16 * n == 1024 * q + 16 * m;
  }

  /** A disk as the Makefile asks for it, with 62 files: the root directory ends in a block that does not exist. */
  method RootWithHole() returns (img: Image)
    ensures fresh(img) && WellFormed(img.g, img.disk, img.inodes) && Owned(img.g, img.disk, img.inodes, img.owner, {})
    ensures |img.inodes| == 200 && !NoHoles(img.g, img.disk, img.inodes, ROOTINO)
  {
    hide NoHoles, Content, WellFormed, Owned, Used, FilesIn, RootIn;
    img := new Image(2000, 200, 30);
    var files := seq(62, k requires 0 <= k < 62 => HostFile([k + 48], []));
    SixtyTwo(files);
    var ok := img.Populate(files);
    HoleForWhichFiles(img.g, img.disk, img.inodes, files);
  }

  lemma SixtyTwo(files: seq<HostFile>)
    requires |files| == 62 && forall k | 0 <= k < 62 :: |files[k].name| == 1 && files[k].chunks == []
    ensures forall k | 0 <= k < 62 :: FileFits(files, k)
    ensures CanPopulate(Layout(2000, 200, 30), Layout(2000, 200, 30).nmeta, files)
  {
    FewBlocks(files, 62);
  }

  lemma {:induction false} FewBlocks(files: seq<HostFile>, n: nat)
    requires |files| == 62 && forall k | 0 <= k < 62 :: |files[k].name| == 1 && files[k].chunks == []
    requires n <= 62
    ensures BlocksNeeded(files, n) == 1
  {
    if n > 0 {
      FewBlocks(files, n - 1);
      RootDataSize(files, n - 1);
    }
  }

  // ------------------------------------------------------------ from the image to the file system

  /** mkfs followed by the file system on its image: it starts with every block in its place. */
  method Mount(size: nat, ninodes: nat, logblocks: nat, files: seq<HostFile>) returns (fs: Fs?)
    requires MetaBlocks(size, ninodes, logblocks) <= size < WORD_LIMIT && 2 + |files| <= ninodes < WORD_LIMIT
    requires |files| + 2 < MAXBYTES / 16
    ensures fs == null <==> !CanPopulate(Layout(size, ninodes, logblocks), Layout(size, ninodes, logblocks).nmeta,
            files)
    ensures fs != null ==>
              && fresh(fs) && fs.Inv() && fs.g == Layout(size, ninodes, logblocks)
                   && FilesIn(fs.g, fs.disk, fs.inodes, files)
              && RootIn(fs.g, fs.disk, fs.inodes, RootData(files, |files|))
              && ReadsAsRoot(fs.ContentOf(ROOTINO), files)
  {
    hide NoHoles, Content, WellFormed, Owned, Used, FilesIn, RootIn, CanPopulate, Layout, RootData, ReadsAsRoot;
    var img := new Image(size, ninodes, logblocks);
    var ok := img.Populate(files);
    if !ok {
      return null;
    }
    RootFits(img.g, img.disk, img.inodes, files, img.g.nmeta);
    fs := new Fs(img.g, img.disk, img.inodes, img.owner);
  }

  lemma RootFits(g: Geometry, d: Disk, ns: seq<Inode>, files: seq<HostFile>, fb: nat)
    requires WellFormed(g, d, ns) && RootIn(g, d, ns, RootData(files, |files|)) && CanPopulate(g, fb, files)
    requires |files| + 2 < MAXBYTES / 16
    ensures ROOTINO < |ns| && ns[ROOTINO].size <= MAXBYTES
  {
    hide NoHoles, Content, RootData, WellFormed, FileFits, BlocksNeeded, Zeros;
    RootDataSize(files, |files|);
  }

  /** A file holds the one byte 0. Writing two bytes 1 over it, of which only the first can be read from user space,
      counts nothing, and yet the file now holds the byte 1. */
  method UncountedByte() returns (fs: Fs, r: int, ghost was: seq<Byte>)
    ensures fresh(fs) && fs.Inv() && |fs.inodes| > 2
    ensures was == [0] && r == 0 && fs.ContentOf(2) == [1]
  {
    hide NoHoles, Content, WellFormed, Owned, Used, RootIn, CanPopulate, Layout, RootData, OthersSame, StillMapped,
         AllUsed, Ref;
    var files := [HostFile([97], [[0]])];
    OneByte(files);
    var m := Mount(2000, 200, 30, files);
    fs := m;
    was := fs.ContentOf(2);
    OneByteIn(fs.g, fs.disk, fs.inodes, files);
    ghost var d, ns := fs.disk, fs.inodes;
    ghost var stray, lost;
    r, stray, lost := fs.Writei(2, 0, [1, 1], 1);
    BlockStays(fs.g, d, ns, fs.disk, fs.inodes, 2);
    assert WriteOver([0], 0, [1]) == [1];
  }

  lemma OneByte(files: seq<HostFile>)
    requires files == [HostFile([97], [[0]])]
    ensures CanPopulate(Layout(2000, 200, 30), Layout(2000, 200, 30).nmeta, files)
  {
    RootDataSize(files, 0);
    assert Joined([[0]]) == [0];
  }

  lemma OneByteIn(g: Geometry, d: Disk, ns: seq<Inode>, files: seq<HostFile>)
    requires files == [HostFile([97], [[0]])] && WellFormed(g, d, ns) && FilesIn(g, d, ns, files)
    ensures 2 < |ns| && ns[2].size == 1 && NoHoles(g, d, ns, 2) && Content(g, d, ns, 2) == [0]
  {
    hide NoHoles;
    assert files[0].chunks == [[0]];
    assert Joined([[0]]) == [0];
  }

  lemma BlockStays(g: Geometry, d: Disk, ns: seq<Inode>, e: Disk, ms: seq<Inode>, i: nat)
    requires WellFormed(g, d, ns) && WellFormed(g, e, ms) && i < |ns| == |ms| && StillMapped(g, d, ns, e, ms)
    requires NoHoles(g, d, ns, i) && ns[i].size > 0
    ensures Ref(g, e, ms, DataSlot(i, 0)) != 0
  {
    hide Ref;
    assert Ref(g, d, ns, DataSlot(i, 0)) != 0;
    assert SlotOk(ns, DataSlot(i, 0));
  }

  // ------------------------------------------------------------ contents

  lemma GrownContents(g: Geometry, D: Disk, ns: seq<Inode>, E: Disk, ms: seq<Inode>, i: nat, more: seq<Byte>)
    requires WellFormed(g, D, ns) && WellFormed(g, E, ms) && Grown(g, D, ns, E, ms, i, more)
    ensures |ms| == |ns| && i < |ns| && ms[i].size == ns[i].size + |more|
    ensures forall j | 0 <= j < |ns| :: ns[j].size <= MAXBYTES && ms[j].size <= MAXBYTES && (j != i ==> ms[j] == ns[j])
    ensures Content(g, E, ms, i) == Content(g, D, ns, i) + more
    ensures forall j | 0 <= j < |ns| && j != i :: Content(g, E, ms, j) == Content(g, D, ns, j)
  {
    hide Content, WellFormed;
    forall j | 0 <= j < |ns| && j != i
      ensures Content(g, E, ms, j) == Content(g, D, ns, j)
    {
      assert Content(g, D, ns, j) + [] == Content(g, D, ns, j);
    }
    assert Content(g, E, ms, i) == Content(g, D, ns, i) + more;
  }

  /** The root directory holds RootData(files, n), and inode 2 + k the bytes of file k, for the first n files. */
  ghost predicate HoldsIn(g: Geometry, d: Disk, ns: seq<Inode>, files: seq<HostFile>, n: nat)
    requires WellFormed(g, d, ns) && n <= |files|
  {
    && 2 + n <= |ns| && ns[ROOTINO].size <= MAXBYTES && Content(g, d, ns, ROOTINO) == RootData(files, n)
    && forall k | 0 <= k < n :: ns[2 + k].size <= MAXBYTES && Content(g, d, ns, 2 + k) == Joined(files[k].chunks)
  }

  lemma HoldsSize(g: Geometry, d: Disk, ns: seq<Inode>, files: seq<HostFile>, n: nat)
    requires WellFormed(g, d, ns) && n <= |files| && HoldsIn(g, d, ns, files, n)
    ensures ROOTINO < |ns| && ns[ROOTINO].size == |RootData(files, n)|
  {
    hide WellFormed, ByteAt, RootData, Joined;
  }

  lemma HoldsNext(g: Geometry, D: Disk, ns: seq<Inode>, E: Disk, ms: seq<Inode>, F: Disk, os: seq<Inode>,
                  files: seq<HostFile>, n: nat)
    requires WellFormed(g, D, ns) && WellFormed(g, E, ms) && WellFormed(g, F, os)
    requires n < |files| && HoldsIn(g, D, ns, files, n) && 2 + n < |ns| && ns[2 + n].size == 0
    requires Grown(g, D, ns, E, ms, ROOTINO, Entry(2 + n, files[n].name))
    requires Grown(g, E, ms, F, os, 2 + n, Joined(files[n].chunks))
    ensures HoldsIn(g, F, os, files, n + 1)
  {
    hide WellFormed, Content, Entry, Joined, Grown;
    EmptyContent(g, D, ns, 2 + n);
    GrownContents(g, D, ns, E, ms, ROOTINO, Entry(2 + n, files[n].name));
    GrownContents(g, E, ms, F, os, 2 + n, Joined(files[n].chunks));
  }

  lemma EmptyContent(g: Geometry, D: Disk, ns: seq<Inode>, i: nat)
    requires WellFormed(g, D, ns) && i < |ns| && ns[i].size == 0
    ensures Content(g, D, ns, i) == []
  {
    hide WellFormed, ByteAt;
  }

  /** The bits that are set are those of the blocks handed out. */
  lemma FinalUsed(g: Geometry, d: Disk, fb: nat, ns: seq<Inode>, owner: map<nat, Slot>)
    requires Good(g, d, fb, ns, owner)
    ensures forall b | 0 <= b < g.size :: Used(g, Marked(g, d, fb), b) <==> b < fb
  {
    hide Owned, Used, Marked;
    forall b | 0 <= b < g.size
      ensures Used(g, Marked(g, d, fb), b) <==> b < fb
    {
      MarkedUsed(g, d, fb, b);
      ZeroUnused(g, d, fb, b);
    }
  }

  /** Rounding a size up past the end of the last block: the bytes gained are zeros, and block size / BSIZE
      is the one that may be missing. */
  lemma RoundedRoot(g: Geometry, D: Disk, ns: seq<Inode>, ms: seq<Inode>, owner: map<nat, Slot>, i: nat)
    requires WellFormed(g, D, ns) && Owned(g, D, ns, owner, {}) && Shapes(g, D, ns) && i < |ns|
    requires ms == ns[i := ns[i].(size := RoundUp(ns[i].size))]
    ensures WellFormed(g, D, ms) && Owned(g, D, ms, owner, {})
    ensures ns[i].size <= MAXBYTES
    ensures NoHoles(g, D, ms, i) <==> ns[i].size % BSIZE != 0 || ns[i].size == MAXBYTES
    ensures ns[i].size < MAXBYTES ==>
              ns[i].size <= ms[i].size <= MAXBYTES
                  && Content(g, D, ms, i) == Content(g, D, ns, i) + Zeros(ms[i].size - ns[i].size)
    ensures forall j | 0 <= j < |ns| && j != i ::
              ns[j].size <= MAXBYTES && NoHoles(g, D, ms, j) && Content(g, D, ms, j) == Content(g, D, ns, j)
  {
    hide Ref, BlockAt, Owned, WellFormed, ByteAt, Content, NoHoles;
    SizeOnly(g, D, ns, ms, owner, i);
    RoundedHole(g, D, ns, ms, i);
    RoundedContent(g, D, ns, ms, i);
    forall j | 0 <= j < |ns| && j != i
      ensures ns[j].size <= MAXBYTES && NoHoles(g, D, ms, j) && Content(g, D, ms, j) == Content(g, D, ns, j)
    {
      assert Shape(g, D, ns, j);
      ShapeNoHoles(g, D, ns, ms, j);
      SameBytes(g, D, ns, ms, j);
      BytesContent(g, D, ns, ms, j);
    }
  }

  lemma RoundedIn(g: Geometry, D: Disk, ns: seq<Inode>, ms: seq<Inode>, owner: map<nat, Slot>, files: seq<HostFile>)
    requires WellFormed(g, D, ns) && Owned(g, D, ns, owner, {}) && Shapes(g, D, ns) && HoldsIn(g, D, ns, files, |files|)
    requires ROOTINO < |ns| && ms == ns[ROOTINO := ns[ROOTINO].(size := RoundUp(ns[ROOTINO].size))]
    ensures WellFormed(g, D, ms) && Owned(g, D, ms, owner, {})
    ensures FilesIn(g, D, ms, files) && RootIn(g, D, ms, RootData(files, |files|))
    ensures forall i | 0 <= i < |ms| && i != ROOTINO :: ms[i].size <= MAXBYTES
  {
    hide WellFormed, Content, NoHoles, Owned, Joined, RootData, Shapes, RoundUp;
    HoldsSize(g, D, ns, files, |files|);
    RoundedRoot(g, D, ns, ms, owner, ROOTINO);
    forall k | 0 <= k < |files|
      ensures ms[2 + k].size <= MAXBYTES && NoHoles(g, D, ms, 2 + k)
      ensures Content(g, D, ms, 2 + k) == Joined(files[k].chunks)
    {
      assert Content(g, D, ms, 2 + k) == Content(g, D, ns, 2 + k);
    }
  }

  lemma RoundedHole(g: Geometry, D: Disk, ns: seq<Inode>, ms: seq<Inode>, i: nat)
    requires WellFormed(g, D, ns) && WellFormed(g, D, ms) && Shapes(g, D, ns) && i < |ns| == |ms|
    requires ms[i].size == RoundUp(ns[i].size)
    requires forall t | SlotOk(ns, t) :: Ref(g, D, ms, t) == Ref(g, D, ns, t)
    ensures ns[i].size <= MAXBYTES
    ensures NoHoles(g, D, ms, i) <==> ns[i].size % BSIZE != 0 || ns[i].size == MAXBYTES
  {
    hide Ref, WellFormed, ByteAt;
    assert Shape(g, D, ns, i);
    var last := ns[i].size / BSIZE;
    forall bn | 0 <= bn < MAXFILE
      ensures Ref(g, D, ms, DataSlot(i, bn)) != 0 <==> bn * BSIZE < ns[i].size
    {
      assert SlotOk(ns, DataSlot(i, bn));
    }
    if ns[i].size % BSIZE == 0 && ns[i].size < MAXBYTES {
      assert last < MAXFILE && last * BSIZE < ms[i].size && Ref(g, D, ms, DataSlot(i, last)) == 0;
    }
  }

  lemma RoundedContent(g: Geometry, D: Disk, ns: seq<Inode>, ms: seq<Inode>, i: nat)
    requires WellFormed(g, D, ns) && WellFormed(g, D, ms) && Shapes(g, D, ns) && i < |ns| == |ms|
    requires ms[i].size == RoundUp(ns[i].size)
    requires forall k, bn | 0 <= k < |ns| && 0 <= bn < MAXFILE :: BlockAt(g, D, ms, k, bn) == BlockAt(g, D, ns, k, bn)
    ensures ns[i].size <= MAXBYTES
    ensures ns[i].size < MAXBYTES ==>
              ns[i].size <= ms[i].size <= MAXBYTES
                  && Content(g, D, ms, i) == Content(g, D, ns, i) + Zeros(ms[i].size - ns[i].size)
  {
    hide Ref, WellFormed, ByteAt;
    assert Shape(g, D, ns, i);
    SameBytes(g, D, ns, ms, i);
    if ns[i].size < MAXBYTES {
      assert ms[i].size <= MAXBYTES;
      var a, b := Content(g, D, ms, i), Content(g, D, ns, i) + Zeros(ms[i].size - ns[i].size);
      forall p | 0 <= p < ms[i].size
        ensures a[p] == b[p]
      {
        assert a[p] == ByteAt(g, D, ns, i, p);
      }
    }
  }

  lemma ShapeNoHoles(g: Geometry, D: Disk, ns: seq<Inode>, ms: seq<Inode>, j: nat)
    requires WellFormed(g, D, ns) && WellFormed(g, D, ms) && j < |ns| == |ms| && Shape(g, D, ns, j) && ns[j] == ms[j]
    requires forall t | SlotOk(ns, t) :: Ref(g, D, ms, t) == Ref(g, D, ns, t)
    ensures NoHoles(g, D, ms, j)
  {
    hide Ref, WellFormed, ByteAt;
    forall bn | 0 <= bn < MAXFILE && bn * BSIZE < ms[j].size
      ensures Ref(g, D, ms, DataSlot(j, bn)) != 0
    {
      assert SlotOk(ns, DataSlot(j, bn));
    }
  }

  lemma BytesContent(g: Geometry, D: Disk, ns: seq<Inode>, ms: seq<Inode>, j: nat)
    requires WellFormed(g, D, ns) && WellFormed(g, D, ms) && j < |ns| == |ms| && ns[j] == ms[j]
             && ns[j].size <= MAXBYTES
    requires forall p | 0 <= p < MAXBYTES :: ByteAt(g, D, ms, j, p) == ByteAt(g, D, ns, j, p)
    ensures Content(g, D, ms, j) == Content(g, D, ns, j)
  {
    hide WellFormed, ByteAt;
  }

  function EmptyInode(): (n: Inode) {
    Inode(seq(NDIRECT + 1, _ => 0), 0)
  }

  lemma GoodOwned(g: Geometry, d: Disk, fb: nat, ns: seq<Inode>, owner: map<nat, Slot>)
    requires Good(g, d, fb, ns, owner)
    ensures Owned(g, Marked(g, d, fb), ns, owner, {})
  {
    hide Owned, Blank, Marked;
  }

  lemma GoodResized(g: Geometry, d: Disk, fb: nat, ms: seq<Inode>, os: seq<Inode>, owner: map<nat, Slot>)
    requires Good(g, d, fb, ms, owner) && Owned(g, Marked(g, d, fb), os, owner, {})
    ensures Good(g, d, fb, os, owner)
  {
    hide Owned, Blank, Marked;
  }

  lemma GrownNone(g: Geometry, D: Disk, ns: seq<Inode>, i: nat)
    requires WellFormed(g, D, ns) && i < |ns| && Shapes(g, D, ns)
    ensures Grown(g, D, ns, D, ns, i, []) && ns[i].size <= MAXBYTES
  {
    hide Content, WellFormed, Ref, ByteAt;
    forall j | 0 <= j < |ns|
      ensures ns[j].size <= MAXBYTES && Content(g, D, ns, j) == Content(g, D, ns, j) + []
    {
      assert Shape(g, D, ns, j);
    }
  }

  lemma ShapeSize(g: Geometry, D: Disk, ns: seq<Inode>, i: nat)
    requires WellFormed(g, D, ns) && i < |ns| && Shapes(g, D, ns)
    ensures ns[i].size <= MAXBYTES
  {
    hide WellFormed, Ref, ByteAt;
    assert Shape(g, D, ns, i);
  }

  lemma MarkedStart(g: Geometry, d: Disk)
    requires GeometryOk(g) && |d| == g.size && g.bmapstart < g.size && d[g.bmapstart] == ZeroBlock()
    ensures Marked(g, d, 0) == d[g.bmapstart := ZeroBlock()]
  {
  }

  lemma MarkFirst(g: Geometry, d: Disk, b: nat)
    requires LayoutOk(g) && |d| == g.size && b < g.size && b < BPB
    ensures SetBit(d[g.bmapstart][b / 8], b % 8) < 256
    ensures MarkUsed(g, d, b) == d[g.bmapstart := d[g.bmapstart][b / 8 := SetBit(d[g.bmapstart][b / 8], b % 8)]]
  {
    hide Bit, SetBit, Mask;
    SetBitBits(d[g.bmapstart][b / 8], b % 8, 0);
    assert b % BPB == b && b / BPB == 0;
  }

  lemma MarkedNext(g: Geometry, d: Disk, i: nat, buf: Block)
    requires LayoutOk(g) && |d| == g.size && i < g.size && i < BPB && Marked(g, d, i) == d[g.bmapstart := buf]
    ensures SetBit(buf[i / 8], i % 8) < 256
    ensures Marked(g, d, i + 1) == d[g.bmapstart := buf[i / 8 := SetBit(buf[i / 8], i % 8)]]
  {
    hide Bit, SetBit, Mask, MarkUsed;
    var m := Marked(g, d, i);
    SetBitBits(buf[i / 8], i % 8, 0);
    MarkFirst(g, m, i);
    assert m[g.bmapstart] == buf;
  }

  lemma GoodRange(g: Geometry, d: Disk, fb: nat, ns: seq<Inode>, owner: map<nat, Slot>)
    requires Good(g, d, fb, ns, owner)
    ensures GeometryOk(g) && |d| == g.size <= WORD_LIMIT && 0 < g.nmeta <= fb <= g.size
  {
    hide Owned, Blank, Marked;
  }

  lemma AddrsOk(g: Geometry, d: Disk, ns: seq<Inode>, i: nat)
    requires WellFormed(g, d, ns) && i < |ns|
    ensures |ns[i].addrs| == NDIRECT + 1 && forall k | 0 <= k <= NDIRECT :: ns[i].addrs[k] < g.size
  {
  }

  lemma PlacedRef(g: Geometry, D: Disk, ns: seq<Inode>, E: Disk, ms: seq<Inode>, t: Slot, b: nat)
    requires WellFormed(g, D, ns) && WellFormed(g, E, ms) && Placed(g, D, ns, E, ms, t, b)
    ensures SlotOk(ms, t) && Ref(g, E, ms, t) == b
  {
    hide Ref, SameBlocks, WellFormed;
  }

  lemma FilledSame(g: Geometry, D: Disk, ns: seq<Inode>, E: Disk, ms: seq<Inode>, t: Slot)
    requires WellFormed(g, D, ns) && WellFormed(g, E, ms) && Filled(g, D, ns, E, ms, t)
    ensures SameBlocks(g, D, ns, E, ms) && SlotOk(ms, t) && Ref(g, E, ms, t) != 0
  {
    hide Ref, SameBlocks, WellFormed;
  }

  // ------------------------------------------------------------ the superblock

  const FSMAGIC := 0x10203040

  function Superblock(g: Geometry, ninodes: nat, logblocks: nat): (b: Block)
    requires LayoutOk(g) && g.size < WORD_LIMIT && ninodes < WORD_LIMIT && logblocks + 1 < WORD_LIMIT
  {
    var b := WithWord(ZeroBlock(), 0, FSMAGIC);
    var b := WithWord(WithWord(b, 1, g.size), 2, g.size - g.nmeta);
    var b := WithWord(WithWord(b, 3, ninodes), 4, logblocks + 1);
    WithWord(WithWord(WithWord(b, 5, 2), 6, g.inodestart), 7, g.bmapstart)
  }

  /** What the kernel reads from the superblock: magic, size, nblocks, ninodes, nlog, logstart, inodestart
      and bmapstart. */
  predicate SuperblockOk(b: Block, g: Geometry, ninodes: nat, logblocks: nat) {
    && Word(b, 0) == FSMAGIC && Word(b, 1) == g.size && Word(b, 2) == g.size - g.nmeta && Word(b, 3) == ninodes
    && Word(b, 4) == logblocks + 1 && Word(b, 5) == 2 && Word(b, 6) == g.inodestart && Word(b, 7) == g.bmapstart
  }

  lemma SuperblockRead(g: Geometry, ninodes: nat, logblocks: nat)
    requires LayoutOk(g) && g.size < WORD_LIMIT && ninodes < WORD_LIMIT && logblocks + 1 < WORD_LIMIT
    ensures SuperblockOk(Superblock(g, ninodes, logblocks), g, ninodes, logblocks)
  {
    hide Word, WithWord;
    var b0 := WithWord(ZeroBlock(), 0, FSMAGIC);
    var b1 := WithWord(b0, 1, g.size);
    var b2 := WithWord(b1, 2, g.size - g.nmeta);
    var b3 := WithWord(b2, 3, ninodes);
    var b4 := WithWord(b3, 4, logblocks + 1);
    var b5 := WithWord(b4, 5, 2);
    var b6 := WithWord(b5, 6, g.inodestart);
    forall j: nat | j < 8
      ensures Word(Superblock(g, ninodes, logblocks), j) ==
                [FSMAGIC, g.size, g.size - g.nmeta, ninodes, logblocks + 1, 2, g.inodestart, g.bmapstart][j]
    {
      WordOfWithWord(ZeroBlock(), 0, FSMAGIC, j);
      WordOfWithWord(b0, 1, g.size, j);
      WordOfWithWord(b1, 2, g.size - g.nmeta, j);
      WordOfWithWord(b2, 3, ninodes, j);
      WordOfWithWord(b3, 4, logblocks + 1, j);
      WordOfWithWord(b4, 5, 2, j);
      WordOfWithWord(b5, 6, g.inodestart, j);
      WordOfWithWord(b6, 7, g.bmapstart, j);
    }
  }

  /** The image without files. */
  lemma EmptyGood(g: Geometry, d: Disk, ns: seq<Inode>)
    requires LayoutOk(g) && |d| == g.size && Blank(g, d, g.nmeta) && forall i | 0 <= i < |ns| :: ns[i] == EmptyInode()
    ensures Good(g, d, g.nmeta, ns, map[]) && WellFormed(g, Marked(g, d, g.nmeta), ns)
            && Shapes(g, Marked(g, d, g.nmeta), ns)
  {
    hide Used, Marked, Word;
    var D := Marked(g, d, g.nmeta);
    assert WellFormed(g, D, ns);
    forall b | 0 <= b < g.size
      ensures Used(g, D, b) <==> b < g.nmeta
    {
      MarkedUsed(g, d, g.nmeta, b);
      ZeroUnused(g, d, g.nmeta, b);
    }
    forall s | SlotOk(ns, s)
      ensures Ref(g, D, ns, s) == 0
    {
    }
    hide Ref;
    forall i | 0 <= i < |ns|
      ensures Shape(g, D, ns, i)
    {
      forall p | 0 <= p < MAXBYTES
        ensures ByteAt(g, D, ns, i, p) == 0
      {
        assert SlotOk(ns, DataSlot(i, p / BSIZE));
      }
      forall bn | 0 <= bn < MAXFILE
        ensures Ref(g, D, ns, DataSlot(i, bn)) == 0
      {
        assert SlotOk(ns, DataSlot(i, bn));
      }
    }
  }
}
