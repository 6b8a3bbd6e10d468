/** filewrite of file.c: a long write is cut into pieces small enough that each one,
    as one log transaction, stays within its reservation of MAXOPBLOCKS blocks. */
module File {
  import opened Blocks
  import opened Inodes
  import opened FileSystem
  import opened Values

  /** The most bytes that filewrite puts in one transaction. */
  function ChunkSize(maxOp: nat): (r: nat)
    requires maxOp >= 6
    ensures r >= BSIZE
  {
    (maxOp - 4) / 2 * BSIZE
  }

  /** A chunk at any offset of a file without holes logs at most MAXOPBLOCKS blocks. */
  lemma ChunkFitsReservation(maxOp: nat, off: nat, n: nat)
    requires maxOp >= 6 && n <= ChunkSize(maxOp)
    ensures WriteBound(off, n) <= maxOp
  {
    var k := (maxOp - 4) / 2;
    if n > 0 {
      var first, last := off / BSIZE, (off + n - 1) / BSIZE;
      assert off == BSIZE * first + off % BSIZE && BSIZE * last <= off + n - 1;
      assert off % BSIZE == 0 ==> last - first <= k - 1;
      assert last - first <= k;
    }
  }

  lemma WriteOverTwice(f: seq<Byte>, off: nat, a: seq<Byte>, b: seq<Byte>)
    requires off <= |f|
    ensures off + |a| <= |WriteOver(f, off, a)|
    ensures WriteOver(WriteOver(f, off, a), off + |a|, b) == WriteOver(f, off, a + b)
  {
    var g := WriteOver(f, off, a);
    assert g[..off + |a|] == f[..off] + a;
    if off + |a| + |b| < |f| {
      assert g[off + |a| + |b|..] == f[off + |a| + |b|..];
    }
  }

  /** The file after s was written at off; nothing changes when nothing is written. */
  function Laid(f: seq<Byte>, off: nat, s: seq<Byte>): (r: seq<Byte>)
    requires s != [] ==> off <= |f|
  {
    if s == [] then f else WriteOver(f, off, s)
  }

  /** The file after s was written at off, when only the first n bytes of s count. */
  function LaidCut(f: seq<Byte>, off: nat, s: seq<Byte>, n: nat): (r: seq<Byte>)
    requires s != [] ==> off <= |f|
    requires n <= |s|
  {
    if s == [] then f else WriteOver(f, off, s)[..Max(|f|, off + n)]
  }

  /** One transaction: begin_op, writei, end_op. The first `reach` bytes of src can be read. */
  method WriteChunk(fs: Fs, inum: nat, off: nat, src: seq<Byte>, reach: nat, maxOp: nat)
    returns (r: int, ghost stray: nat)
    requires fs.Inv() && inum < |fs.inodes| && maxOp >= 6 && |src| <= ChunkSize(maxOp)
    requires off < WORD_LIMIT && |src| < WORD_LIMIT
    modifies fs
    ensures fs.Inv() && |fs.inodes| == old(|fs.inodes|)
    ensures -1 <= r <= |src|
    ensures r == -1 <==> off > old(fs.inodes[inum].size) || off + |src| >= WORD_LIMIT || off + |src| > MAXBYTES
    ensures r == -1 ==> stray == 0
    ensures r != -1 ==> WriteEnds(off, |src|, reach, r, stray)
    ensures r != -1 && r + stray < Min(reach, |src|) ==> AllUsed(fs.g, fs.disk)
    ensures fs.ContentOf(inum) ==
            LaidCut(old(fs.ContentOf(inum)), off, if r >= 0 then src[..r + stray] else [], if r >= 0 then r else 0)
    ensures OthersSame(fs.g, old(fs.disk), old(fs.inodes), fs.disk, fs.inodes, inum)
    ensures old(NoHoles(fs.g, fs.disk, fs.inodes, inum)) ==>
              NoHoles(fs.g, fs.disk, fs.inodes, inum) && |fs.logged| <= maxOp
  {
    hide Owned, Ref, BlockAt, NoHoles, Used, AllUsed, Content, ByteAt;
    fs.logged := {};
    ghost var f := fs.ContentOf(inum);
    ghost var lost;
    r, stray, lost := fs.Writei(inum, off, src, reach);
    ChunkFitsReservation(maxOp, off, |src|);
    if r == -1 {
      stray := 0;
    } else if r + stray == 0 {
      assert src[..0] == [];
      assert WriteOver(f, off, []) == f;
    }
  }

  /** Writes src, of which the first `reach` bytes can be read, at the file's offset. `done` bytes reach the file and
      count, `stray` more reach it and do not; `most` is the largest number of blocks that any of its transactions
      logged. */
  method Filewrite(fs: Fs, inum: nat, off0: nat, src: seq<Byte>, reach: nat, maxOp: nat)
    returns (ret: int, off: nat, ghost done: nat, ghost stray: nat, ghost most: nat)
    requires fs.Inv() && inum < |fs.inodes| && maxOp >= 6
    requires off0 < WORD_LIMIT && |src| < WORD_LIMIT
    modifies fs
    ensures fs.Inv() && |fs.inodes| == old(|fs.inodes|)
    ensures done + stray <= Min(reach, |src|) && off == off0 + done
    ensures ret == if done == |src| then |src| else -1
    ensures done + stray > 0 ==> off0 <= old(fs.inodes[inum].size)
    ensures fs.ContentOf(inum) == LaidCut(old(fs.ContentOf(inum)), off0, src[..done + stray], done)
    ensures stray > 0 ==> done + stray == reach < |src| && (off0 + reach) % BSIZE != 0
    ensures stray == 0 ==> fs.ContentOf(inum) == Laid(old(fs.ContentOf(inum)), off0, src[..done])
    ensures done + stray < Min(reach, |src|) ==>
              || AllUsed(fs.g, fs.disk)
              || off0 > old(fs.inodes[inum].size) || off0 + |src| > MAXBYTES
    ensures OthersSame(fs.g, old(fs.disk), old(fs.inodes), fs.disk, fs.inodes, inum)
    ensures old(NoHoles(fs.g, fs.disk, fs.inodes, inum)) ==> NoHoles(fs.g, fs.disk, fs.inodes, inum) && most <= maxOp
  {
    hide Owned, Ref, BlockAt, NoHoles, Used, AllUsed, Content, ByteAt, OthersSame, Laid, LaidCut, InodeOk, WriteEnds,
         WellFormed, GeometryOk, WriteOver, ChunkSize;
    var max := ChunkSize(maxOp);
    var i, n := 0, |src|;
    off, done, stray, most := off0, 0, 0, 0;
    ghost var f0 := fs.ContentOf(inum);
    LaidStart(f0, off0, src);
    OthersRefl(fs.g, fs.disk, fs.inodes, inum);
    while i < n
      invariant fs.Inv() && |fs.inodes| == old(|fs.inodes|)
      invariant 0 <= i <= n && i <= reach && done == i && stray == 0 && off == off0 + i
      invariant i > 0 ==> off <= MAXBYTES && off0 <= |f0| && off <= |fs.ContentOf(inum)|
      invariant i == 0 ==> |f0| == |fs.ContentOf(inum)|
      invariant fs.ContentOf(inum) == Laid(f0, off0, src[..i])
      invariant OthersSame(fs.g, old(fs.disk), old(fs.inodes), fs.disk, fs.inodes, inum)
      invariant old(NoHoles(fs.g, fs.disk, fs.inodes, inum)) ==>
                  NoHoles(fs.g, fs.disk, fs.inodes, inum) && most <= maxOp
      decreases n - i
    {
      var n1 := if n - i > max then max else n - i;
      ghost var d, ns, was := fs.disk, fs.inodes, fs.ContentOf(inum);
      var r;
      r, stray := WriteChunk(fs, inum, off, src[i..i + n1], reach - i, maxOp);
      OthersTrans(fs.g, old(fs.disk), old(fs.inodes), d, ns, fs.disk, fs.inodes, inum);
      most := if |fs.logged| > most then |fs.logged| else most;
      ghost var r0 := if r >= 0 then r else 0;
      ChunkEnds(off0, n, reach, i, n1, r, stray);
      ChunkLaid(f0, was, off0, src, i, n1, r0, stray);
      if r > 0 {
        off := off + r;
        done := done + r;
      }
      if r != n1 {
        break;
      }
      i := i + r;
    }
    LaidIsCut(f0, off0, src[..done + stray], done);
    ret := if i == n then n else -1;
  }

  lemma LaidStart(f: seq<Byte>, off: nat, src: seq<Byte>)
    ensures Laid(f, off, src[..0]) == f
  {
  }

  lemma LaidIsCut(f: seq<Byte>, off: nat, s: seq<Byte>, n: nat)
    requires s != [] ==> off <= |f|
    requires n <= |s|
    ensures n == |s| ==> LaidCut(f, off, s, n) == Laid(f, off, s)
  {
  }

  /** How the whole write ends when one of its chunks ends so. */
  lemma ChunkEnds(off0: nat, n: nat, reach: nat, i: nat, n1: nat, r: int, stray: nat)
    requires i <= reach && 0 < n1 && i + n1 <= n
    requires r == -1 ==> stray == 0
    requires r != -1 ==> 0 <= r && WriteEnds(off0 + i, n1, reach - i, r, stray)
    ensures r != -1 ==> i + r + stray <= Min(reach, n) && r + stray <= n1
    ensures r == n1 ==> stray == 0
    ensures stray > 0 ==> i + r + stray == reach < n && (off0 + reach) % BSIZE != 0
    ensures r != -1 && r != n1 && i + r + stray < Min(reach, n) ==> r + stray < Min(reach - i, n1)
  {
  }

  lemma ChunkLaid(f0: seq<Byte>, f: seq<Byte>, off0: nat, src: seq<Byte>, i: nat, n1: nat, r: nat, stray: nat)
    requires i + n1 <= |src| && r + stray <= n1
    requires r + stray > 0 ==> off0 + i <= |f|
    requires i > 0 ==> off0 <= |f0|
    requires f == Laid(f0, off0, src[..i])
    ensures var piece := src[i..i + n1][..r + stray];
            && (i + r + stray > 0 ==> off0 <= |f0|)
            && LaidCut(f, off0 + i, piece, r) == LaidCut(f0, off0, src[..i + r + stray], i + r)
            && (stray == 0 ==> LaidCut(f, off0 + i, piece, r) == Laid(f0, off0, src[..i + r]))
            && (r > 0 ==> off0 + i + r <= |LaidCut(f, off0 + i, piece, r)|)
  {
    hide WriteOver;
    var k := r + stray;
    assert src[i..i + n1][..k] == src[i..i + k];
    if k == 0 {
      assert src[..i + k] == src[..i];
      LaidIsCut(f0, off0, src[..i], i);
    } else if i == 0 {
      assert src[..0] == [];
      LaidIsCut(f0, off0, src[..k], r);
      CutSize(f0, off0, src[..k], r);
    } else {
      assert src[..i] + src[i..i + k] == src[..i + k];
      CutTwice(f0, off0, src[..i], src[i..i + k], r);
      LaidIsCut(f0, off0, src[..i + k], i + r);
    }
  }

  lemma CutSize(f: seq<Byte>, off: nat, s: seq<Byte>, n: nat)
    requires s != [] && off <= |f| && n <= |s|
    ensures |LaidCut(f, off, s, n)| == Max(|f|, off + n)
  {
  }

  /** Laying a and then b over a file, when of b only the first n bytes count. */
  lemma CutTwice(f: seq<Byte>, off: nat, a: seq<Byte>, b: seq<Byte>, n: nat)
    requires a != [] && b != [] && off <= |f| && n <= |b|
    ensures off + |a| <= |Laid(f, off, a)|
    ensures LaidCut(Laid(f, off, a), off + |a|, b, n) == LaidCut(f, off, a + b, |a| + n)
    ensures |LaidCut(f, off, a + b, |a| + n)| == Max(|f|, off + |a| + n)
  {
    WriteOverTwice(f, off, a, b);
    CutSize(f, off, a + b, |a| + n);
  }

  lemma OthersRefl(g: Geometry, d: Disk, ns: seq<Inode>, i: nat)
    requires WellFormed(g, d, ns)
    ensures OthersSame(g, d, ns, d, ns, i)
  {
  }

  lemma OthersTrans(g: Geometry, d0: Disk, ns0: seq<Inode>, d: Disk, ns: seq<Inode>, e: Disk, ms: seq<Inode>, i: nat)
    requires WellFormed(g, d0, ns0) && WellFormed(g, d, ns) && WellFormed(g, e, ms)
    requires OthersSame(g, d0, ns0, d, ns, i) && OthersSame(g, d, ns, e, ms, i)
    ensures OthersSame(g, d0, ns0, e, ms, i)
  {
    hide BlockAt;
  }
}
