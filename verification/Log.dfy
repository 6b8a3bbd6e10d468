/** The log layer as the kernel runs it: the in-memory header, the admission
    counters, and the write loops of commit and recovery. `trace` records every
    disk a crash could leave behind, so that RedoLog's theorems apply to each of them. */
module Log {
  import opened Blocks
  import opened RedoLog

  datatype EndResult = Panic | LastOut | OthersRemain

  class LogState {
    const L: Layout
    const maxOp: nat            // MAXOPBLOCKS
    var outstanding: nat
    var committing: bool
    var lh: seq<nat>            // the in-memory header: lh.n is its length, at most LOGBLOCKS
    var disk: Disk
    var pinned: map<nat, Block> // contents of the buffers that bpin keeps in the cache
    ghost var trace: seq<Disk>  // the disk after each write so far

    ghost predicate Valid()
      reads this
    {
      && LayoutOk(L) && |disk| == L.size
      && |lh| <= L.logBlocks
      && (forall b | b in pinned :: Home(L, b))
    }

    /** Every logged block is pinned, once. */
    ghost predicate Pinned()
      requires Valid()
      reads this
    {
      && (forall i | 0 <= i < |lh| :: lh[i] in pinned)
      && (forall i, j | 0 <= i < j < |lh| :: lh[i] != lh[j])
      && (forall b | b in pinned :: b in lh)
    }

    /** What bread returns: a pinned block's buffer is still in the cache, other blocks come from the disk. */
    ghost function Cached(b: nat): (r: Block)
      requires Valid() && b < L.size
      reads this
    {
      if b in pinned then pinned[b] else disk[b]
    }

    constructor (L: Layout, maxOp: nat, disk: Disk)
      requires DiskOk(L, disk)
      ensures Valid() && this.L == L && this.maxOp == maxOp && this.disk == disk
      ensures lh == [] && outstanding == 0 && !committing && pinned == map[] && trace == []
    {
      this.L, this.maxOp, this.disk := L, maxOp, disk;
      outstanding, committing, lh := 0, false, [];
      pinned, trace := map[], [];
    }

    method Bread(b: nat) returns (data: Block)
      requires Valid() && b < L.size
      ensures data == Cached(b)
    {
      data := if b in pinned then pinned[b] else disk[b];
    }

    method Bwrite(b: nat, data: Block)
      requires Valid() && b < L.size
      modifies this`disk, this`trace
      ensures Valid()
      ensures disk == old(disk)[b := data] && trace == old(trace) + [disk]
    {
      disk := disk[b := data];
      trace := trace + [disk];
    }

    // ---------------------------------------------------------- commit and recovery

    method WriteLogBlocks()
      requires Valid() && Pinned() && DiskOk(L, disk)
      modifies this`disk, this`trace
      ensures Valid() && Loggable(L, lh, pinned)
      ensures disk == WriteLog(L, old(disk), lh, pinned, |lh|)
      ensures trace == old(trace) + CommitTrace(L, old(disk), lh, pinned, |lh|)
    {
      hide Word, WithWord, WriteLog, CommitTrace, CommitDisk;
      var tail := 0;
      assert Loggable(L, lh, pinned);
      WriteLogStep(L, disk, lh, pinned, 0);
      while tail < |lh|
        invariant 0 <= tail <= |lh| && Valid()
        invariant disk == WriteLog(L, old(disk), lh, pinned, tail)
        invariant trace == old(trace) + CommitTrace(L, old(disk), lh, pinned, tail)
      {
        var from := Bread(lh[tail]);
        Bwrite(L.start + tail + 1, from);
        WriteLogStep(L, old(disk), lh, pinned, tail);
        tail := tail + 1;
      }
    }

    method WriteHead()
      requires Valid() && forall i | 0 <= i < |lh| :: lh[i] < WORD_LIMIT
      modifies this`disk, this`trace
      ensures Valid()
      ensures disk == old(disk)[L.start := HeaderWith(old(disk)[L.start], lh, |lh|)]
      ensures trace == old(trace) + [disk]
    {
      var hb := Bread(L.start);
      hb := WithWord(hb, 0, |lh|);
      var i := 0;
      while i < |lh|
        invariant 0 <= i <= |lh| && hb == HeaderWith(disk[L.start], lh, i)
      {
        hb := WithWord(hb, i + 1, lh[i]);
        i := i + 1;
      }
      Bwrite(L.start, hb);
    }

    method InstallTrans(recovering: bool)
      requires Valid() && DiskOk(L, disk) && Count(L, disk) == |lh|
      requires forall i | 0 <= i < |lh| :: Target(L, disk, i) == lh[i]
      modifies this`disk, this`trace, this`pinned
      ensures Valid() && disk == Install(L, old(disk), |lh|)
      ensures forall b :: b in pinned <==> b in old(pinned) && (recovering || b !in lh)
      ensures trace == old(trace) + RecoveryTrace(L, old(disk), |lh|)
    {
      hide Word, WithWord;
      var tail := 0;
      while tail < |lh|
        invariant 0 <= tail <= |lh| && Valid()
        invariant disk == Install(L, old(disk), tail)
        invariant forall b :: b in pinned <==> b in old(pinned) && (recovering || b !in lh[..tail])
        invariant trace == old(trace) + RecoveryTrace(L, old(disk), tail)
      {
        var lbuf := Bread(L.start + tail + 1);
        Bwrite(lh[tail], lbuf);
        if !recovering {
          pinned := pinned - {lh[tail]};
        }
        assert lh[..tail + 1] == lh[..tail] + [lh[tail]];
        tail := tail + 1;
      }
    }

    method ReadHead()
      requires Valid() && DiskOk(L, disk) && pinned == map[]
      modifies this`lh
      ensures Valid() && |lh| == Count(L, disk)
      ensures forall i | 0 <= i < |lh| :: Target(L, disk, i) == lh[i]
    {
      var hb := Bread(L.start);
      var n := Word(hb, 0);
      lh := [];
      var i := 0;
      while i < n
        invariant 0 <= i == |lh| <= n == Count(L, disk) && Valid()
        invariant forall j | 0 <= j < i :: Target(L, disk, j) == lh[j]
      {
        lh := lh + [Word(hb, i + 1)];
        assert Target(L, disk, i) == lh[i];
        i := i + 1;
      }
    }

    /** The tail that commit and recovery share: install, then erase the header. */
    method InstallAndErase(recovering: bool)
      requires Valid() && DiskOk(L, disk) && Count(L, disk) == |lh|
      requires forall i | 0 <= i < |lh| :: Target(L, disk, i) == lh[i]
      modifies this`disk, this`trace, this`pinned, this`lh
      ensures Valid() && lh == []
      ensures forall b :: b in pinned <==> b in old(pinned) && (recovering || b !in old(lh))
      ensures disk == RecoveryDisk(L, old(disk), |old(lh)| + 1)
      ensures trace == old(trace) + RecoveryTrace(L, old(disk), |old(lh)| + 1)
    {
      hide Word, WithWord;
      InstallTrans(recovering);
      InstallKeepsOk(L, old(disk), |lh|);
      lh := [];
      WriteHead();
    }

    /** Runs at boot on whatever disk the crash left. Each write leaves the disk that
        RedoLog.RecoveryDisk names, and the last one has an empty log. */
    method RecoverFromLog()
      requires Valid() && DiskOk(L, disk) && pinned == map[]
      modifies this`disk, this`trace, this`pinned, this`lh
      ensures Valid() && lh == [] && pinned == map[]
      ensures disk == RecoveryDisk(L, old(disk), Count(L, old(disk)) + 1)
      ensures trace == old(trace) + RecoveryTrace(L, old(disk), Count(L, old(disk)) + 1)
    {
      hide Word, WithWord;
      ReadHead();
      InstallAndErase(true);
    }

    /** The part of commit up to and including the header write, the commit point. */
    method LogAndRecord()
      requires Valid() && Pinned() && DiskOk(L, disk)
      modifies this`disk, this`trace
      ensures Valid() && Loggable(L, lh, pinned)
      ensures disk == CommitRecord(L, old(disk), lh, pinned)
      ensures trace == old(trace) + CommitTrace(L, old(disk), lh, pinned, |lh| + 1)
    {
      hide Word, WithWord;
      WriteLogBlocks();
      WriteHead();
      assert disk == CommitRecord(L, old(disk), lh, pinned);
      CommitRecordOk(L, old(disk), lh, pinned);
    }

    method CommitLogged()
      requires Valid() && Pinned() && DiskOk(L, disk) && Count(L, disk) == 0
      modifies this`disk, this`trace, this`pinned, this`lh
      ensures Valid() && lh == [] && pinned == map[]
      ensures Loggable(L, old(lh), old(pinned))
      ensures disk == CommitDisk(L, old(disk), old(lh), old(pinned), 2 * |old(lh)| + 2)
      ensures trace == old(trace) + CommitTrace(L, old(disk), old(lh), old(pinned), 2 * |old(lh)| + 2)
    {
      hide Word, WithWord, Install, WriteLog, HeaderWith, CommitRecord, CommitDisk, RecoveryDisk, CommitTrace,
           RecoveryTrace;
      ghost var lh, mem, d0, n := lh, pinned, disk, |lh|;
      LogAndRecord();
      CommitAssembled(L, d0, lh, mem);
      assert |lh| == n;
      ghost var before, t1, t2 := old(trace), CommitTrace(L, d0, lh, mem, n + 1), RecoveryTrace(L, disk, n + 1);
      InstallAndErase(false);
      ghost var t := CommitTrace(L, d0, lh, mem, 2 * n + 2);
      assert t1 + t2 == t;
      assert trace == before + t by { assert trace == before + (t1 + t2); }
    }

    /** Commits the logged blocks, or does nothing when none were logged. */
    method Commit()
      requires Valid() && Pinned() && DiskOk(L, disk) && Count(L, disk) == 0
      modifies this`disk, this`trace, this`pinned, this`lh
      ensures Valid() && lh == [] && pinned == map[]
      ensures Loggable(L, old(lh), old(pinned)) && DiskOk(L, disk) && Count(L, disk) == 0
      ensures |old(lh)| == 0 ==> disk == old(disk) && trace == old(trace)
      ensures |old(lh)| > 0 ==>
                trace == old(trace) + CommitTrace(L, old(disk), old(lh), old(pinned), 2 * |old(lh)| + 2)
      ensures forall b | 0 <= b < L.size && Home(L, b) :: disk[b] == old(Cached(b))
    {
      hide Word, WithWord;
      if |lh| > 0 {
        CommitAssembled(L, disk, lh, pinned);
        CommitLogged();
      }
    }

    // ---------------------------------------------------------- admission and absorption

    /** One pass of begin_op's loop: admits the caller, or reports that it must sleep. */
    method BeginOp() returns (admitted: bool)
      requires Valid()
      modifies this`outstanding
      ensures admitted <==> !committing && |lh| + (old(outstanding) + 1) * maxOp <= L.logBlocks
      ensures outstanding == if admitted then old(outstanding) + 1 else old(outstanding)
    {
      if committing {
        admitted := false;
      } else if |lh| + (outstanding + 1) * maxOp > L.logBlocks {
        admitted := false;
      } else {
        outstanding := outstanding + 1;
        admitted := true;
      }
    }

    /** The critical section of end_op that decides whether to commit. */
    method EndOp() returns (r: EndResult)
      requires Valid() && outstanding >= 1
      modifies this`outstanding, this`committing
      ensures outstanding == old(outstanding) - 1
      ensures r.Panic? <==> old(committing)
      ensures r.LastOut? <==> !old(committing) && outstanding == 0
      ensures committing <==> old(committing) || outstanding == 0
    {
      outstanding := outstanding - 1;
      if committing {
        return Panic;
      }
      if outstanding == 0 {
        r := LastOut;
        committing := true;
      } else {
        r := OthersRemain;
      }
    }

    /** Records block b, whose buffer now holds data. A block already in the header is absorbed. */
    method LogWrite(b: nat, data: Block) returns (ok: bool)
      requires Valid() && Pinned() && Home(L, b)
      modifies this`lh, this`pinned
      ensures Valid() && Pinned()
      ensures ok <==> |old(lh)| < L.logBlocks && outstanding >= 1
      ensures !ok ==> lh == old(lh) && pinned == old(pinned)
      ensures ok ==> lh == if b in old(lh) then old(lh) else old(lh) + [b]
      ensures ok ==> pinned == old(pinned)[b := data]
    {
      if |lh| >= L.logBlocks || outstanding < 1 {
        return false;
      }
      var i := 0;
      while i < |lh| && lh[i] != b
        invariant 0 <= i <= |lh|
        invariant b !in lh[..i]
      {
        i := i + 1;
      }
      lh := if i == |lh| then lh + [b] else lh[i := b];
      pinned := pinned[b := data];
      ok := true;
    }
  }

  /** The disks left by writes 1 .. k of a recovery. */
  ghost function RecoveryTrace(L: Layout, d: Disk, k: nat): (t: seq<Disk>)
    requires DiskOk(L, d) && k <= Count(L, d) + 1
    ensures |t| == k
    ensures forall i | 0 <= i < k :: t[i] == RecoveryDisk(L, d, i + 1)
  {
    if k == 0 then [] else RecoveryTrace(L, d, k - 1) + [RecoveryDisk(L, d, k)]
  }

  /** The disks left by writes 1 .. k of a commit. */
  ghost function CommitTrace(L: Layout, d: Disk, lh: seq<nat>, mem: map<nat, Block>, k: nat): (t: seq<Disk>)
    requires Loggable(L, lh, mem) && DiskOk(L, d) && k <= 2 * |lh| + 2
    ensures |t| == k
    ensures forall i | 0 <= i < k :: t[i] == CommitDisk(L, d, lh, mem, i + 1)
  {
    if k == 0 then [] else CommitTrace(L, d, lh, mem, k - 1) + [CommitDisk(L, d, lh, mem, k)]
  }

  lemma WriteLogStep(L: Layout, d: Disk, lh: seq<nat>, mem: map<nat, Block>, k: nat)
    requires Loggable(L, lh, mem) && DiskOk(L, d) && k <= |lh|
    ensures WriteLog(L, d, lh, mem, 0) == d && CommitTrace(L, d, lh, mem, 0) == []
    ensures k < |lh| ==>
              && WriteLog(L, d, lh, mem, k + 1) == WriteLog(L, d, lh, mem, k)[L.start + k + 1 := mem[lh[k]]]
              && CommitTrace(L, d, lh, mem, k + 1)
              == CommitTrace(L, d, lh, mem, k) + [WriteLog(L, d, lh, mem, k + 1)]
  {
    hide Word, WithWord;
  }

  /** After its header write a commit leaves the disks that a recovery from there leaves. */
  lemma {:induction false} CommitTraceTail(L: Layout, d: Disk, lh: seq<nat>, mem: map<nat, Block>, j: nat)
    requires Loggable(L, lh, mem) && DiskOk(L, d) && j <= |lh| + 1
    ensures var rec := CommitRecord(L, d, lh, mem);
            && DiskOk(L, rec) && Count(L, rec) == |lh|
            && CommitTrace(L, d, lh, mem, |lh| + 1 + j)
            == CommitTrace(L, d, lh, mem, |lh| + 1) + RecoveryTrace(L, rec, j)
  {
    hide Word, WithWord, Install, WriteLog, HeaderWith, CommitRecord;
    CommitRecordOk(L, d, lh, mem);
    if j > 0 {
      CommitTraceTail(L, d, lh, mem, j - 1);
      var rec := CommitRecord(L, d, lh, mem);
      assert CommitDisk(L, d, lh, mem, |lh| + 1 + j) == RecoveryDisk(L, rec, j);
      assert RecoveryTrace(L, rec, j) == RecoveryTrace(L, rec, j - 1) + [RecoveryDisk(L, rec, j)];
    }
  }

  /** The two halves of a commit put together: the disks in between, and the disk at the end,
      where every home block holds what the cache held. */
  lemma CommitAssembled(L: Layout, d: Disk, lh: seq<nat>, mem: map<nat, Block>)
    requires Loggable(L, lh, mem) && DiskOk(L, d) && Count(L, d) == 0
    ensures var rec, n := CommitRecord(L, d, lh, mem), |lh|;
            && DiskOk(L, rec) && Count(L, rec) == n
            && (forall i | 0 <= i < n :: Target(L, rec, i) == lh[i])
            && CommitTrace(L, d, lh, mem, n + 1) + RecoveryTrace(L, rec, n + 1)
            == CommitTrace(L, d, lh, mem, 2 * n + 2)
            && var r := RecoveryDisk(L, rec, n + 1);
            && r == CommitDisk(L, d, lh, mem, 2 * n + 2) && Count(L, r) == 0
            && forall b | 0 <= b < L.size && Home(L, b) :: r[b] == if b in lh then mem[b] else d[b]
  {
    var n := |lh|;
    CommitRecordOk(L, d, lh, mem);
    assert n + 1 + (n + 1) == 2 * n + 2;
    CommitTraceTail(L, d, lh, mem, n + 1);
    CommitRecordView(L, d, lh, mem);
    RecoveryCompletes(L, CommitRecord(L, d, lh, mem));
    assert Install(L, d, 0) == d;
  }
}
