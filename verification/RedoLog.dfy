/** The on-disk redo log: what each single-block write of a commit or of a
    recovery does to the file system that a reboot would find.

    A disk is the sequence of its blocks, every write replaces one block
    atomically, and the machine may stop between any two writes. */
module RedoLog {
  import opened Blocks

  type Disk = seq<Block>

  /** Header block `start`, log blocks start+1 .. start+logBlocks, `size` blocks in all. */
  datatype Layout = Layout(start: nat, logBlocks: nat, size: nat)

  predicate LayoutOk(L: Layout) {
    && L.start + L.logBlocks < L.size <= WORD_LIMIT
    && 4 * (L.logBlocks + 1) < BSIZE
  }

  /** Blocks outside the log area: the file system proper. */
  predicate Home(L: Layout, b: nat) {
    b < L.size && !(L.start <= b <= L.start + L.logBlocks)
  }

  /** Block number i of a header block. */
  function Entry(h: Block, i: nat): (b: nat)
    requires i + 1 < NWORDS
    ensures b < WORD_LIMIT
  {
    Word(h, i + 1)
  }

  predicate HeaderOk(L: Layout, h: Block)
    requires LayoutOk(L)
  {
    && Word(h, 0) <= L.logBlocks
    && forall i | 0 <= i < Word(h, 0) :: Home(L, Entry(h, i))
  }

  predicate DiskOk(L: Layout, d: Disk) {
    LayoutOk(L) && |d| == L.size && HeaderOk(L, d[L.start])
  }

  /** Number of committed log entries named by the header on disk. */
  function Count(L: Layout, d: Disk): (n: nat)
    requires DiskOk(L, d)
    ensures n <= L.logBlocks
  {
    Word(d[L.start], 0)
  }

  function Target(L: Layout, d: Disk, i: nat): (b: nat)
    requires DiskOk(L, d) && i < Count(L, d)
    ensures Home(L, b)
  {
    Entry(d[L.start], i)
  }

  // ------------------------------------------------------------ the file system a reboot shows

  /** The disk after the first k log entries were copied home. */
  function Install(L: Layout, d: Disk, k: nat): (r: Disk)
    requires DiskOk(L, d) && k <= Count(L, d)
    ensures |r| == |d|
    ensures forall b | 0 <= b < L.size && !Home(L, b) :: r[b] == d[b]
  {
    if k == 0 then d else Install(L, d, k - 1)[Target(L, d, k - 1) := d[L.start + k]]
  }

  /** The header with a count of zero. */
  function Erase(L: Layout, d: Disk): (r: Disk)
    requires DiskOk(L, d)
    ensures |r| == |d|
  {
    d[L.start := WithWord(d[L.start], 0, 0)]
  }

  /** The home blocks as they are once the committed log is replayed. */
  ghost function View(L: Layout, d: Disk): (v: map<nat, Block>)
    requires DiskOk(L, d)
  {
    map b | 0 <= b < L.size && Home(L, b) :: Install(L, d, Count(L, d))[b]
  }

  /** The last of the first k entries that names block b, or -1. */
  function LastEntry(L: Layout, d: Disk, b: nat, k: nat): (j: int)
    requires DiskOk(L, d) && k <= Count(L, d)
    ensures -1 <= j < k
    ensures j >= 0 ==> Target(L, d, j) == b
    ensures forall i | j < i < k :: Target(L, d, i) != b
  {
    if k == 0 then -1 else if Target(L, d, k - 1) == b then k - 1 else LastEntry(L, d, b, k - 1)
  }

  lemma {:induction false} InstallAt(L: Layout, d: Disk, k: nat, b: nat)
    requires DiskOk(L, d) && k <= Count(L, d) && Home(L, b)
    ensures var j := LastEntry(L, d, b, k);
            Install(L, d, k)[b] == if j < 0 then d[b] else d[L.start + 1 + j]
  {
    hide Word, WithWord;
    if k > 0 {
      InstallAt(L, d, k - 1, b);
    }
  }

  lemma InstallKeepsOk(L: Layout, d: Disk, k: nat)
    requires DiskOk(L, d) && k <= Count(L, d)
    ensures DiskOk(L, Install(L, d, k)) && Count(L, Install(L, d, k)) == Count(L, d)
  {
  }

  lemma SameHeaderSameEntries(L: Layout, d: Disk, e: Disk, b: nat, k: nat)
    requires DiskOk(L, d) && DiskOk(L, e) && d[L.start] == e[L.start] && k <= Count(L, d)
    ensures LastEntry(L, d, b, k) == LastEntry(L, e, b, k)
  {
  }

  lemma EraseIsOk(L: Layout, d: Disk)
    requires DiskOk(L, d)
    ensures DiskOk(L, Erase(L, d)) && Count(L, Erase(L, d)) == 0
  {
    WordOfWithWord(d[L.start], 0, 0, 0);
  }

  // ------------------------------------------------------------ recovery

  /** The disk after the first k writes of recover_from_log: Count(d) installs, then the erase. */
  function RecoveryDisk(L: Layout, d: Disk, k: nat): (r: Disk)
    requires DiskOk(L, d) && k <= Count(L, d) + 1
    ensures DiskOk(L, r)
  {
    InstallKeepsOk(L, d, if k <= Count(L, d) then k else k - 1);
    if k <= Count(L, d) then Install(L, d, k)
    else
      EraseIsOk(L, Install(L, d, k - 1));
      Erase(L, Install(L, d, k - 1))
  }

  lemma PartialInstallKeepsBlock(L: Layout, d: Disk, k: nat, b: nat)
    requires DiskOk(L, d) && k <= Count(L, d) && Home(L, b)
    requires DiskOk(L, Install(L, d, k))
    ensures Install(L, Install(L, d, k), Count(L, d))[b] == Install(L, d, Count(L, d))[b]
  {
    hide Word, WithWord;
    var e, n := Install(L, d, k), Count(L, d);
    InstallAt(L, e, n, b);
    InstallAt(L, d, n, b);
    InstallAt(L, d, k, b);
    SameHeaderSameEntries(L, d, e, b, n);
  }

  /** A partial install changes nothing that a later replay shows. */
  lemma PartialInstallKeepsView(L: Layout, d: Disk, k: nat)
    requires DiskOk(L, d) && k <= Count(L, d)
    ensures DiskOk(L, Install(L, d, k)) && View(L, Install(L, d, k)) == View(L, d)
  {
    hide Word, WithWord;
    InstallKeepsOk(L, d, k);
    var e := Install(L, d, k);
    forall b | 0 <= b < L.size && Home(L, b)
      ensures View(L, e)[b] == View(L, d)[b]
    {
      PartialInstallKeepsBlock(L, d, k, b);
    }
  }

  lemma EraseAfterInstallKeepsView(L: Layout, d: Disk)
    requires DiskOk(L, d)
    ensures var e := Install(L, d, Count(L, d));
            DiskOk(L, e) && DiskOk(L, Erase(L, e)) && View(L, Erase(L, e)) == View(L, d)
  {
    hide Word, WithWord;
    var e := Install(L, d, Count(L, d));
    InstallKeepsOk(L, d, Count(L, d));
    EraseIsOk(L, e);
    assert Install(L, Erase(L, e), 0) == Erase(L, e);
  }

  /** Recovery may stop after any of its writes: the file system a reboot shows is unchanged. */
  lemma RecoveryKeepsView(L: Layout, d: Disk, k: nat)
    requires DiskOk(L, d) && k <= Count(L, d) + 1
    ensures View(L, RecoveryDisk(L, d, k)) == View(L, d)
  {
    hide Word, WithWord;
    if k <= Count(L, d) {
      PartialInstallKeepsView(L, d, k);
    } else {
      EraseAfterInstallKeepsView(L, d);
    }
  }

  /** A complete recovery leaves an empty log and the replayed blocks in their home places. */
  lemma RecoveryCompletes(L: Layout, d: Disk)
    requires DiskOk(L, d)
    ensures var r := RecoveryDisk(L, d, Count(L, d) + 1);
            && Count(L, r) == 0
            && forall b | 0 <= b < L.size && Home(L, b) :: r[b] == View(L, d)[b]
  {
    hide Word, WithWord;
    InstallKeepsOk(L, d, Count(L, d));
    EraseIsOk(L, Install(L, d, Count(L, d)));
  }

  // ------------------------------------------------------------ commit

  /** The disk after write_log copied the first k cached blocks into the log area. */
  function WriteLog(L: Layout, d: Disk, lh: seq<nat>, mem: map<nat, Block>, k: nat): (r: Disk)
    requires LayoutOk(L) && |d| == L.size && k <= |lh| <= L.logBlocks
    requires forall b | b in lh :: b in mem
    ensures |r| == |d|
    ensures forall b | 0 <= b < L.size && !(L.start < b <= L.start + k) :: r[b] == d[b]
    ensures forall i | 0 <= i < k :: r[L.start + 1 + i] == mem[lh[i]]
  {
    if k == 0 then d else WriteLog(L, d, lh, mem, k - 1)[L.start + k := mem[lh[k - 1]]]
  }

  /** The header block with count n and the first k block numbers stored; the rest is left as it was. */
  function HeaderWith(h: Block, lh: seq<nat>, k: nat): (r: Block)
    requires k <= |lh| < NWORDS
    requires forall i | 0 <= i < |lh| :: lh[i] < WORD_LIMIT
  {
    if k == 0 then WithWord(h, 0, |lh|) else WithWord(HeaderWith(h, lh, k - 1), k, lh[k - 1])
  }

  lemma {:induction false} HeaderWords(h: Block, lh: seq<nat>, k: nat, i: nat)
    requires k <= |lh| < NWORDS && i <= k
    requires forall i | 0 <= i < |lh| :: lh[i] < WORD_LIMIT
    ensures Word(HeaderWith(h, lh, k), i) == if i == 0 then |lh| else lh[i - 1]
  {
    if k == 0 {
      WordOfWithWord(h, 0, |lh|, 0);
    } else {
      WordOfWithWord(HeaderWith(h, lh, k - 1), k, lh[k - 1], i);
      if i < k {
        HeaderWords(h, lh, k - 1, i);
      }
    }
  }

  /** What commit() needs of the in-memory header: home blocks, all pinned in the cache. */
  predicate Loggable(L: Layout, lh: seq<nat>, mem: map<nat, Block>) {
    && LayoutOk(L) && |lh| <= L.logBlocks
    && forall i | 0 <= i < |lh| :: lh[i] in mem && Home(L, lh[i])
  }

  function CommitRecord(L: Layout, d: Disk, lh: seq<nat>, mem: map<nat, Block>): (r: Disk)
    requires Loggable(L, lh, mem) && |d| == L.size
    ensures |r| == |d|
  {
    var w := WriteLog(L, d, lh, mem, |lh|);
    w[L.start := HeaderWith(w[L.start], lh, |lh|)]
  }

  lemma CommitRecordOk(L: Layout, d: Disk, lh: seq<nat>, mem: map<nat, Block>)
    requires Loggable(L, lh, mem) && |d| == L.size
    ensures var r := CommitRecord(L, d, lh, mem);
            && DiskOk(L, r) && Count(L, r) == |lh|
            && forall i | 0 <= i < |lh| :: Target(L, r, i) == lh[i]
  {
    var r := CommitRecord(L, d, lh, mem);
    HeaderWords(WriteLog(L, d, lh, mem, |lh|)[L.start], lh, |lh|, 0);
    forall i | 0 <= i < |lh|
      ensures Entry(r[L.start], i) == lh[i]
    {
      HeaderWords(WriteLog(L, d, lh, mem, |lh|)[L.start], lh, |lh|, i + 1);
    }
  }

  /** The disk after the first k of the 2n+2 writes of commit(). */
  function CommitDisk(L: Layout, d: Disk, lh: seq<nat>, mem: map<nat, Block>, k: nat): (r: Disk)
    requires Loggable(L, lh, mem) && DiskOk(L, d) && k <= 2 * |lh| + 2
    ensures DiskOk(L, r)
  {
    CommitRecordOk(L, d, lh, mem);
    if k <= |lh| then WriteLog(L, d, lh, mem, k)
    else RecoveryDisk(L, CommitRecord(L, d, lh, mem), k - |lh| - 1)
  }

  ghost function Overlay(v: map<nat, Block>, lh: seq<nat>, mem: map<nat, Block>): (r: map<nat, Block>)
    requires forall b | b in lh :: b in mem
  {
    map b | b in v :: if b in lh then mem[b] else v[b]
  }

  lemma CommitRecordView(L: Layout, d: Disk, lh: seq<nat>, mem: map<nat, Block>)
    requires Loggable(L, lh, mem) && DiskOk(L, d) && Count(L, d) == 0
    ensures var r := CommitRecord(L, d, lh, mem);
            DiskOk(L, r) && View(L, r) == Overlay(View(L, d), lh, mem)
  {
    hide Word, WithWord;
    var r := CommitRecord(L, d, lh, mem);
    CommitRecordOk(L, d, lh, mem);
    assert Install(L, d, 0) == d;
    forall b | 0 <= b < L.size && Home(L, b)
      ensures Install(L, r, |lh|)[b] == if b in lh then mem[b] else d[b]
    {
      InstallAt(L, r, |lh|, b);
      var j := LastEntry(L, r, b, |lh|);
      if j >= 0 {
        assert lh[j] == b;
        assert r[L.start + 1 + j] == mem[lh[j]];
      }
    }
  }

  /** Crash atomicity of commit: up to and including the last log-block write a reboot shows the
      file system before the transaction, and from the header write on the one after it. */
  lemma CommitAtomic(L: Layout, d: Disk, lh: seq<nat>, mem: map<nat, Block>, k: nat)
    requires Loggable(L, lh, mem) && DiskOk(L, d) && Count(L, d) == 0 && k <= 2 * |lh| + 2
    ensures View(L, CommitDisk(L, d, lh, mem, k))
         == if k <= |lh| then View(L, d) else Overlay(View(L, d), lh, mem)
  {
    hide Word, WithWord;
    if k <= |lh| {
      var w := WriteLog(L, d, lh, mem, k);
      assert Install(L, w, 0) == w && Install(L, d, 0) == d;
    } else {
      CommitRecordOk(L, d, lh, mem);
      CommitRecordView(L, d, lh, mem);
      RecoveryKeepsView(L, CommitRecord(L, d, lh, mem), k - |lh| - 1);
    }
  }

  // ------------------------------------------------------------ crashes, any number of them

  /** The disk left by reboots that each cut recovery after cuts[i] writes
      (or let it finish, when cuts[i] is larger than the number of writes). */
  ghost function Reboots(L: Layout, d: Disk, cuts: seq<nat>): (r: Disk)
    requires DiskOk(L, d)
    ensures DiskOk(L, r)
    decreases |cuts|
  {
    if cuts == [] then d
    else Reboots(L, RecoveryDisk(L, d, if cuts[0] <= Count(L, d) then cuts[0] else Count(L, d) + 1), cuts[1..])
  }

  lemma {:induction false} RebootsKeepView(L: Layout, d: Disk, cuts: seq<nat>)
    requires DiskOk(L, d)
    ensures View(L, Reboots(L, d, cuts)) == View(L, d)
    decreases |cuts|
  {
    hide Word, WithWord;
    if cuts != [] {
      var k := if cuts[0] <= Count(L, d) then cuts[0] else Count(L, d) + 1;
      RecoveryKeepsView(L, d, k);
      RebootsKeepView(L, RecoveryDisk(L, d, k), cuts[1..]);
    }
  }

  /** Cut commit() anywhere, cut any number of recoveries anywhere, then let one recovery finish:
      the home blocks are all as before the transaction or all as logged. */
  lemma CrashAtomicity(L: Layout, d: Disk, lh: seq<nat>, mem: map<nat, Block>, k: nat, cuts: seq<nat>)
    requires Loggable(L, lh, mem) && DiskOk(L, d) && Count(L, d) == 0 && k <= 2 * |lh| + 2
    ensures var e := Reboots(L, CommitDisk(L, d, lh, mem, k), cuts);
            var r := RecoveryDisk(L, e, Count(L, e) + 1);
            && Count(L, r) == 0
            && forall b | 0 <= b < L.size && Home(L, b) ::
                 r[b] == if k > |lh| && b in lh then mem[b] else d[b]
  {
    hide Word, WithWord;
    var c := CommitDisk(L, d, lh, mem, k);
    var v := View(L, c);
    RecoveryCompletes(L, Reboots(L, c, cuts));
    assert View(L, Reboots(L, c, cuts)) == v by { RebootsKeepView(L, c, cuts); }
    forall b | 0 <= b < L.size && Home(L, b)
      ensures v[b] == if k > |lh| && b in lh then mem[b] else d[b]
    {
      CommitAtomic(L, d, lh, mem, k);
      assert Install(L, d, 0) == d;
      assert View(L, d)[b] == d[b];
    }
  }
}
