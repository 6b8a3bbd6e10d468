/** The buffer cache and the log together, run by any number of processes and
    stopped by crashes. One step is one critical section of bio.c or log.c, or one
    disk transfer; processes interleave in any order.

    Two history variables say what the run means: `cur` is the file system as processes see it through the
    cache, `dur` is the file system of the last commit point. A modified buffer need not be passed to log_write
    before it is released; such a modification stays in `cur` until the buffer is recycled. */
module LogCache {
  import opened Blocks
  import opened RedoLog
  import opened Values

  type Pid = nat
  type Fs = map<nat, Block>

  datatype Config = Config(L: Layout, nbuf: nat, maxOp: nat)

  /** users: the processes inside bget .. brelse on this buffer; holder: owner of its sleep-lock;
      dirty: modified and since then neither passed to log_write nor installed. A buffer never used has id None. */
  datatype Buf = Buf(id: Option<nat>, valid: bool, refcnt: int, users: set<Pid>, holder: Option<Pid>,
                     dirty: bool, data: Block)

  /** Where the commit or recovery thread `who` stands. */
  datatype Phase =
    | Idle
    | WritingLog(who: Pid, tail: nat)
    | Installing(who: Pid, tail: nat, recovering: bool)
    | Booting

  /** ops: for each open file-system call, how many blocks it added to the header. */
  datatype State = State(disk: Disk, bufs: seq<Buf>, lh: seq<nat>, ops: map<Pid, nat>, phase: Phase,
                         cur: Fs, dur: Fs)

  // ------------------------------------------------------------ steps

  datatype Step =
    | BeginOp(p: Pid)
    | BgetHit(p: Pid, i: nat)
    | BgetMiss(p: Pid, i: nat, b: nat)
    | AcquireSleep(p: Pid, i: nat)
    | ReadIn(p: Pid, i: nat)
    | Modify(p: Pid, i: nat, data: Block)
    | LogWrite(p: Pid, i: nat)
    | ReleaseSleep(p: Pid, i: nat)
    | Unref(p: Pid, i: nat)
    | EndOp(p: Pid)
    | EmptyCommit
    | WriteLogBlock(i: nat, j: nat)
    | WriteHead(i: nat)
    | InstallBlock(i: nat, j: nat)
    | EraseHead(i: nat)
    | Crash
    | ReadHead(p: Pid, i: nat)

  ghost predicate Holds(s: State, p: Pid, i: nat) {
    i < |s.bufs| && s.bufs[i].holder == Some(p)
  }

  ghost predicate HoldsValid(s: State, p: Pid, i: nat, b: nat) {
    Holds(s, p, i) && s.bufs[i].valid && s.bufs[i].id == Some(b)
  }

  ghost predicate Cached(s: State, b: nat) {
    exists i | 0 <= i < |s.bufs| :: s.bufs[i].id == Some(b)
  }

  /** log_write panics when the header is full, before it looks for the block. */
  ghost predicate LogWritePanics(c: Config, s: State) {
    |s.lh| >= c.L.logBlocks || |s.ops| < 1
  }

  ghost predicate Enabled(c: Config, s: State, t: Step)
    requires DiskOk(c.L, s.disk)
  {
    match t
    case BeginOp(p) =>
      p !in s.ops && s.phase.Idle? && |s.lh| + (|s.ops| + 1) * c.maxOp <= c.L.logBlocks
    case BgetHit(p, i) =>
      i < |s.bufs| && s.bufs[i].id.Some? && p !in s.bufs[i].users
    case BgetMiss(p, i, b) =>
      i < |s.bufs| && b < c.L.size && !Cached(s, b) && s.bufs[i].refcnt == 0
    case AcquireSleep(p, i) =>
      i < |s.bufs| && p in s.bufs[i].users && s.bufs[i].holder.None?
    case ReadIn(p, i) =>
      Holds(s, p, i) && !s.bufs[i].valid && s.bufs[i].id.Some? && s.bufs[i].id.value < c.L.size
    case Modify(p, i, data) =>
      Holds(s, p, i) && s.bufs[i].valid && s.bufs[i].id.Some? && Home(c.L, s.bufs[i].id.value) && p in s.ops
    case LogWrite(p, i) =>
      // callers stay within their reservation of maxOp new blocks; a block that is listed already adds nothing
      && Holds(s, p, i) && s.bufs[i].valid && s.bufs[i].id.Some? && Home(c.L, s.bufs[i].id.value)
      && p in s.ops && (s.ops[p] < c.maxOp || (s.bufs[i].id.value in s.lh && |s.lh| < c.L.logBlocks))
    case ReleaseSleep(p, i) =>
      Holds(s, p, i)
    case Unref(p, i) =>
      i < |s.bufs| && p in s.bufs[i].users && s.bufs[i].holder != Some(p)
    case EndOp(p) =>
      p in s.ops
    case EmptyCommit =>
      s.phase.WritingLog? && s.lh == []
    case WriteLogBlock(i, j) =>
      && s.phase.WritingLog? && s.phase.tail < |s.lh|
      && HoldsValid(s, s.phase.who, i, c.L.start + s.phase.tail + 1)
      && HoldsValid(s, s.phase.who, j, s.lh[s.phase.tail])
    case WriteHead(i) =>
      s.phase.WritingLog? && s.phase.tail == |s.lh| > 0 && HoldsValid(s, s.phase.who, i, c.L.start)
    case InstallBlock(i, j) =>
      && s.phase.Installing? && s.phase.tail < |s.lh|
      && HoldsValid(s, s.phase.who, i, c.L.start + s.phase.tail + 1)
      && HoldsValid(s, s.phase.who, j, s.lh[s.phase.tail])
    case EraseHead(i) =>
      s.phase.Installing? && s.phase.tail == |s.lh| && HoldsValid(s, s.phase.who, i, c.L.start)
    case Crash => true
    case ReadHead(p, i) =>
      s.phase.Booting? && HoldsValid(s, p, i, c.L.start)
  }

  ghost function EmptyBuf(): (b: Buf) {
    Buf(None, false, 0, {}, None, false, ZeroBlock())
  }

  /** The block numbers in the header on disk. */
  ghost function Entries(L: Layout, d: Disk): (lh: seq<nat>)
    requires DiskOk(L, d)
    ensures |lh| == Count(L, d)
    ensures forall i | 0 <= i < |lh| :: lh[i] == Target(L, d, i)
  {
    seq(Count(L, d), i requires 0 <= i < Count(L, d) => Target(L, d, i))
  }

  ghost function WithBuf(s: State, i: nat, b: Buf): (r: State)
    requires i < |s.bufs|
  {
    s.(bufs := s.bufs[i := b])
  }

  /** What is visible after buffer i is given to another block: a modification that was not logged is lost. */
  ghost function AfterRecycle(s: State, i: nat): (m: Fs)
    requires i < |s.bufs|
  {
    var b := s.bufs[i];
    if b.dirty && b.id.Some? && b.id.value < |s.disk| && b.id.value in s.cur then
      s.cur[b.id.value := s.disk[b.id.value]]
    else s.cur
  }

  /** The file system dur with the blocks of lh as in cur. */
  ghost function Committed(dur: Fs, cur: Fs, lh: seq<nat>): (m: Fs)
    ensures m.Keys == dur.Keys
    ensures forall b | b in m :: m[b] == if b in lh && b in cur then cur[b] else dur[b]
  {
    map b | b in dur :: if b in lh && b in cur then cur[b] else dur[b]
  }

  ghost function Apply(c: Config, s: State, t: Step): (r: State)
    requires Shape(c, s) && Enabled(c, s, t) && (t.LogWrite? ==> !LogWritePanics(c, s))
  {
    match t
    case BeginOp(p) =>
      s.(ops := s.ops[p := 0])
    case BgetHit(p, i) =>
      var b := s.bufs[i];
      WithBuf(s, i, b.(refcnt := b.refcnt + 1, users := b.users + {p}))
    case BgetMiss(p, i, blk) =>
      WithBuf(s, i, s.bufs[i].(id := Some(blk), valid := false, refcnt := 1, users := {p}, dirty := false))
      .(cur := AfterRecycle(s, i))
    case AcquireSleep(p, i) =>
      WithBuf(s, i, s.bufs[i].(holder := Some(p)))
    case ReadIn(p, i) =>
      WithBuf(s, i, s.bufs[i].(valid := true, data := s.disk[s.bufs[i].id.value]))
    case Modify(p, i, data) =>
      WithBuf(s, i, s.bufs[i].(data := data, dirty := true)).(cur := s.cur[s.bufs[i].id.value := data])
    case LogWrite(p, i) =>
      var b := s.bufs[i];
      if b.id.value in s.lh then WithBuf(s, i, b.(dirty := false))
      else WithBuf(s, i, b.(dirty := false, refcnt := b.refcnt + 1))
           .(lh := s.lh + [b.id.value], ops := s.ops[p := s.ops[p] + 1])
    case ReleaseSleep(p, i) =>
      WithBuf(s, i, s.bufs[i].(holder := None))
    case Unref(p, i) =>
      var b := s.bufs[i];
      WithBuf(s, i, b.(refcnt := b.refcnt - 1, users := b.users - {p}))
    case EndOp(p) =>
      var ops := s.ops - {p};
      s.(ops := ops, phase := if ops == map[] then WritingLog(p, 0) else s.phase)
    case EmptyCommit =>
      s.(phase := Idle)
    case WriteLogBlock(i, j) =>
      var data := s.bufs[j].data;
      WithBuf(s, i, s.bufs[i].(data := data))
      .(disk := s.disk[c.L.start + s.phase.tail + 1 := data], phase := WritingLog(s.phase.who, s.phase.tail + 1))
    case WriteHead(i) =>
      var data := HeaderWith(s.bufs[i].data, s.lh, |s.lh|);
      WithBuf(s, i, s.bufs[i].(data := data))
      .(disk := s.disk[c.L.start := data], phase := Installing(s.phase.who, 0, false),
        dur := Committed(s.dur, s.cur, s.lh))
    case InstallBlock(i, j) =>
      var data, b := s.bufs[i].data, s.bufs[j];
      WithBuf(s, j, b.(data := data, dirty := false,
                       refcnt := if s.phase.recovering then b.refcnt else b.refcnt - 1))
      .(disk := s.disk[s.lh[s.phase.tail] := data],
        phase := Installing(s.phase.who, s.phase.tail + 1, s.phase.recovering))
    case EraseHead(i) =>
      var data := WithWord(s.bufs[i].data, 0, 0);
      WithBuf(s, i, s.bufs[i].(data := data)).(disk := s.disk[c.L.start := data], lh := [], phase := Idle)
    case Crash =>
      s.(bufs := seq(c.nbuf, _ => EmptyBuf()), lh := [], ops := map[], phase := Booting, cur := s.dur)
    case ReadHead(p, i) =>
      s.(lh := Entries(c.L, s.disk), phase := Installing(p, 0, true))
  }

  // ------------------------------------------------------------ the invariant

  /** A file system assigns contents to exactly the home blocks. */
  ghost predicate FsOver(L: Layout, m: Fs) {
    forall b: nat :: b in m <==> Home(L, b)
  }

  /** A header names home blocks, each once. */
  ghost predicate HeaderList(L: Layout, lh: seq<nat>) {
    && |lh| <= L.logBlocks
    && (forall k | 0 <= k < |lh| :: Home(L, lh[k]))
    && (forall k, m | 0 <= k < m < |lh| :: lh[k] != lh[m])
  }

  /** The first n log blocks hold the contents that m gives to lh[..n]. */
  ghost predicate LogFilled(L: Layout, d: Disk, lh: seq<nat>, m: Fs, n: nat)
    requires LayoutOk(L) && |d| == L.size && HeaderList(L, lh) && FsOver(L, m) && n <= |lh|
  {
    forall k | 0 <= k < n :: d[L.start + 1 + k] == m[lh[k]]
  }

  /** The first n blocks of lh are home. */
  ghost predicate Installed(L: Layout, d: Disk, lh: seq<nat>, m: Fs, n: nat)
    requires |d| == L.size && HeaderList(L, lh) && FsOver(L, m) && n <= |lh|
  {
    forall k | 0 <= k < n :: d[lh[k]] == m[lh[k]]
  }

  ghost predicate Shape(c: Config, s: State) {
    && DiskOk(c.L, s.disk) && |s.bufs| == c.nbuf
    && HeaderList(c.L, s.lh) && FsOver(c.L, s.cur) && FsOver(c.L, s.dur)
  }

  /** Logged blocks whose pin has not been dropped by install_trans yet. */
  ghost predicate Pinned(s: State, b: nat) {
    match s.phase
    case Idle => b in s.lh
    case WritingLog(_, _) => b in s.lh
    case Installing(_, tail, recovering) => !recovering && tail <= |s.lh| && b in s.lh[tail..]
    case Booting => false
  }

  /** Reference counts, sleep-locks and block identities of one buffer. */
  ghost predicate BufOk(c: Config, s: State, b: Buf)
    requires Shape(c, s)
  {
    && (b.id.Some? ==> b.id.value < c.L.size)
    && b.refcnt == |b.users| + (if b.id.Some? && Pinned(s, b.id.value) then 1 else 0)
    && (b.holder.Some? ==> b.holder.value in b.users)
    && (b.valid ==> b.id.Some?)
    && (b.users != {} ==> b.id.Some?)
    && (b.dirty ==> b.valid && !Recovering(s) && Home(c.L, b.id.value))
    && (b.valid ==> b.data == BlockValue(c, s, b.id.value))
  }

  ghost predicate Recovering(s: State) {
    s.phase.Booting? || (s.phase.Installing? && s.phase.recovering)
  }

  /** What a valid buffer of block b holds: the current file system, or the raw disk
      for log blocks and while recovery runs. */
  ghost function BlockValue(c: Config, s: State, b: nat): (d: Block)
    requires Shape(c, s) && b < c.L.size
  {
    if !Home(c.L, b) || Recovering(s) then s.disk[b] else s.cur[b]
  }

  ghost predicate Dirty(s: State, b: nat) {
    exists i | 0 <= i < |s.bufs| :: s.bufs[i].id == Some(b) && s.bufs[i].dirty
  }

  ghost predicate BufsOk(c: Config, s: State)
    requires Shape(c, s)
  {
    && (forall i | 0 <= i < |s.bufs| :: BufOk(c, s, s.bufs[i]))
    && (forall i, j | 0 <= i < j < |s.bufs| && s.bufs[i].id.Some? :: s.bufs[i].id != s.bufs[j].id)
    && (forall b: nat :: Pinned(s, b) ==> exists i | 0 <= i < |s.bufs| :: s.bufs[i].id == Some(b) && s.bufs[i].valid)
  }

  /** The disk holds `dur`: its log entries hold their blocks, all other blocks are home. */
  ghost predicate DurOk(L: Layout, d: Disk, dur: Fs)
    requires DiskOk(L, d) && FsOver(L, dur)
  {
    && HeaderList(L, Entries(L, d)) && LogFilled(L, d, Entries(L, d), dur, Count(L, d))
    && (forall b: nat | Home(L, b) && b !in Entries(L, d) :: d[b] == dur[b])
  }

  /** The last commit and memory agree on all blocks that are logged or not modified. */
  ghost predicate LoggedAgree(c: Config, s: State)
    requires Shape(c, s)
  {
    forall b: nat | Home(c.L, b) && (b in s.lh || !Dirty(s, b)) :: s.cur[b] == s.dur[b]
  }

  ghost predicate PhaseOk(c: Config, s: State)
    requires Shape(c, s)
  {
    match s.phase
    case Idle =>
      Count(c.L, s.disk) == 0
    case WritingLog(_, tail) =>
      && Count(c.L, s.disk) == 0 && s.ops == map[]
      && tail <= |s.lh| && LogFilled(c.L, s.disk, s.lh, s.cur, tail)
    case Installing(_, tail, _) =>
      && Entries(c.L, s.disk) == s.lh && s.ops == map[] && LoggedAgree(c, s)
      && tail <= |s.lh| && Installed(c.L, s.disk, s.lh, s.cur, tail)
    case Booting =>
      s.ops == map[] && s.cur == s.dur && s.lh == []
  }

  /** Unlogged, unmodified blocks are the same in memory and on disk. */
  ghost predicate CleanOk(c: Config, s: State)
    requires Shape(c, s)
  {
    s.phase.Idle? || s.phase.WritingLog? ==>
      forall b: nat | Home(c.L, b) && b !in s.lh && !Dirty(s, b) :: s.cur[b] == s.disk[b]
  }

  /** What the open operations may still add to the header. */
  ghost function Unused(ops: map<Pid, nat>, maxOp: nat): (r: int)
    decreases |ops|
  {
    if ops == map[] then 0 else
      var p :| p in ops;
      maxOp - ops[p] + Unused(ops - {p}, maxOp)
  }

  ghost predicate ReserveOk(c: Config, s: State) {
    && (forall p | p in s.ops :: s.ops[p] <= c.maxOp)
    && |s.lh| + Unused(s.ops, c.maxOp) <= c.L.logBlocks
  }

  ghost predicate Inv(c: Config, s: State) {
    Shape(c, s) && BufsOk(c, s) && DurOk(c.L, s.disk, s.dur) && PhaseOk(c, s) && CleanOk(c, s) && ReserveOk(c, s)
  }

  // ------------------------------------------------------------ reservations

  lemma {:induction false} UnusedSplit(ops: map<Pid, nat>, maxOp: nat, p: Pid)
    requires p in ops
    ensures Unused(ops, maxOp) == maxOp - ops[p] + Unused(ops - {p}, maxOp)
    decreases |ops|
  {
    var q :| q in ops && Unused(ops, maxOp) == maxOp - ops[q] + Unused(ops - {q}, maxOp);
    if q != p {
      UnusedSplit(ops - {q}, maxOp, p);
      UnusedSplit(ops - {p}, maxOp, q);
      assert ops - {q} - {p} == ops - {p} - {q};
    }
  }

  lemma {:induction false} UnusedBound(ops: map<Pid, nat>, maxOp: nat)
    ensures Unused(ops, maxOp) <= |ops| * maxOp
    decreases |ops|
  {
    if ops != map[] {
      var p :| p in ops;
      UnusedSplit(ops, maxOp, p);
      UnusedBound(ops - {p}, maxOp);
      assert |ops - {p}| == |ops| - 1;
      Distribute(|ops - {p}|, maxOp);
    }
  }

  lemma UnusedAfter(ops: map<Pid, nat>, maxOp: nat, p: Pid, n: nat)
    ensures Unused(ops[p := n], maxOp) == maxOp - n + Unused(ops - {p}, maxOp)
  {
    UnusedSplit(ops[p := n], maxOp, p);
    assert ops[p := n] - {p} == ops - {p};
  }

  // ------------------------------------------------------------ every step keeps the invariant

  /** Replacing one buffer by one that fits keeps the invariant. */
  lemma BufStep(c: Config, s: State, i: nat, b: Buf)
    requires Inv(c, s) && i < |s.bufs| && BufOk(c, s, b)
    requires b.dirty == s.bufs[i].dirty && (b.dirty ==> b.id == s.bufs[i].id)
    requires b.id == s.bufs[i].id || (b.id.Some? && !Cached(s, b.id.value))
    requires s.bufs[i].id.Some? && Pinned(s, s.bufs[i].id.value) ==>
               b.id == s.bufs[i].id && (s.bufs[i].valid ==> b.valid)
    ensures Inv(c, WithBuf(s, i, b))
  {
    hide Word, DiskOk, DurOk;
    var r := WithBuf(s, i, b);
    assert Shape(c, r);
    assert BufsOk(c, r) by { BufStepBufs(c, s, i, b); }
    forall x: nat | Dirty(s, x)
      ensures Dirty(r, x)
    {
      var k :| 0 <= k < |s.bufs| && s.bufs[k].id == Some(x) && s.bufs[k].dirty;
      assert r.bufs[k].id == Some(x) && r.bufs[k].dirty;
    }
    assert PhaseOk(c, r) && CleanOk(c, r) && ReserveOk(c, r);
  }

  lemma BufStepBufs(c: Config, s: State, i: nat, b: Buf)
    requires Shape(c, s) && BufsOk(c, s) && i < |s.bufs| && BufOk(c, s, b)
    requires b.id == s.bufs[i].id || (b.id.Some? && !Cached(s, b.id.value))
    requires s.bufs[i].id.Some? && Pinned(s, s.bufs[i].id.value) ==>
               b.id == s.bufs[i].id && (s.bufs[i].valid ==> b.valid)
    ensures Shape(c, WithBuf(s, i, b)) && BufsOk(c, WithBuf(s, i, b))
  {
    hide Word, DiskOk;
    var r := WithBuf(s, i, b);
    assert Shape(c, r);
    assert forall x: nat :: Pinned(r, x) <==> Pinned(s, x);
    forall k | 0 <= k < |r.bufs|
      ensures BufOk(c, r, r.bufs[k])
    {
      assert BufOk(c, s, r.bufs[k]);
    }
    forall x: nat | Pinned(r, x)
      ensures exists k | 0 <= k < |r.bufs| :: r.bufs[k].id == Some(x) && r.bufs[k].valid
    {
      var k :| 0 <= k < |s.bufs| && s.bufs[k].id == Some(x) && s.bufs[k].valid;
      assert r.bufs[k].id == Some(x) && r.bufs[k].valid;
    }
  }

  /** A block that has to be read from disk is not logged, so the disk copy is the current one. */
  lemma DiskCopyIsCurrent(c: Config, s: State, i: nat)
    requires Inv(c, s) && i < |s.bufs| && !s.bufs[i].valid && s.bufs[i].id.Some?
    ensures s.bufs[i].id.value < c.L.size
    ensures s.disk[s.bufs[i].id.value] == BlockValue(c, s, s.bufs[i].id.value)
  {
    hide Word, DiskOk;
    var b := s.bufs[i].id.value;
    assert BufOk(c, s, s.bufs[i]);
    if Home(c.L, b) && !Recovering(s) {
      assert !Pinned(s, b);
      assert !Dirty(s, b);
      if s.phase.Installing? {
        if b in s.lh {
          var k :| 0 <= k < |s.lh| && s.lh[k] == b;
          assert k < s.phase.tail;
        } else {
          assert Entries(c.L, s.disk) == s.lh;
        }
      }
    }
  }

  lemma KeepBgetHit(c: Config, s: State, p: Pid, i: nat)
    requires Inv(c, s) && Enabled(c, s, BgetHit(p, i))
    ensures Inv(c, Apply(c, s, BgetHit(p, i)))
  {
    hide Word, DiskOk, DurOk, PhaseOk, CleanOk, ReserveOk, Pinned;
    var b := s.bufs[i];
    assert BufOk(c, s, b);
    BufStep(c, s, i, b.(refcnt := b.refcnt + 1, users := b.users + {p}));
  }

  /** Buffer i without its modification, which was not logged. */
  ghost function Forgotten(s: State, i: nat): (r: State)
    requires i < |s.bufs|
  {
    WithBuf(s, i, s.bufs[i].(valid := false, dirty := false)).(cur := AfterRecycle(s, i))
  }

  lemma Forget(c: Config, s: State, i: nat)
    requires Inv(c, s) && i < |s.bufs| && s.bufs[i].dirty && s.bufs[i].refcnt == 0
    ensures Inv(c, Forgotten(s, i))
  {
    hide Word, DiskOk, DurOk, PhaseOk, CleanOk, ReserveOk, Unused, BufsOk;
    ForgetBufs(c, s, i);
    ForgetPhase(c, s, i);
    SameReserve(c, s, Forgotten(s, i));
  }

  /** What the disk holds for a block that has an unlogged modification and no pin: the last commit. */
  lemma UnloggedDisk(c: Config, s: State, i: nat)
    requires Inv(c, s) && i < |s.bufs| && s.bufs[i].dirty && s.bufs[i].refcnt == 0
    ensures s.bufs[i].id.Some? && Home(c.L, s.bufs[i].id.value) && !Pinned(s, s.bufs[i].id.value)
    ensures var x := s.bufs[i].id.value; x < |s.disk| && x in s.cur && x in s.dur && s.disk[x] == s.dur[x]
    ensures s.phase.Idle? || s.phase.WritingLog? ==> s.bufs[i].id.value !in s.lh
  {
    hide Word, HeaderOk, CleanOk, ReserveOk;
    assert BufOk(c, s, s.bufs[i]);
    var x := s.bufs[i].id.value;
    if s.phase.Installing? && x in s.lh {
      var k :| 0 <= k < |s.lh| && s.lh[k] == x;
    }
  }

  lemma ForgetBufs(c: Config, s: State, i: nat)
    requires Inv(c, s) && i < |s.bufs| && s.bufs[i].dirty && s.bufs[i].refcnt == 0
    ensures Shape(c, Forgotten(s, i)) && BufsOk(c, Forgotten(s, i))
  {
    hide Word, DiskOk, DurOk, PhaseOk, CleanOk, ReserveOk, Pinned, BufOk, FsOver, HeaderList;
    UnloggedDisk(c, s, i);
    ForgetShape(c, s, i);
    var r := Forgotten(s, i);
    SamePins(s, r);
    forall k | 0 <= k < |r.bufs|
      ensures BufOk(c, r, r.bufs[k])
    {
      ForgetBuf(c, s, i, k);
    }
    forall b: nat | Pinned(r, b)
      ensures exists k | 0 <= k < |r.bufs| :: r.bufs[k].id == Some(b) && r.bufs[k].valid
    {
      var k :| 0 <= k < |s.bufs| && s.bufs[k].id == Some(b) && s.bufs[k].valid;
      assert r.bufs[k].id == Some(b) && r.bufs[k].valid;
    }
  }

  lemma ForgetShape(c: Config, s: State, i: nat)
    requires Inv(c, s) && i < |s.bufs| && s.bufs[i].dirty && s.bufs[i].refcnt == 0
    ensures Shape(c, Forgotten(s, i))
  {
    hide Word, DiskOk, DurOk, PhaseOk, CleanOk, ReserveOk, Pinned, BufsOk, HeaderList;
  }

  lemma ForgetBuf(c: Config, s: State, i: nat, k: nat)
    requires Inv(c, s) && i < |s.bufs| && s.bufs[i].dirty && s.bufs[i].refcnt == 0 && k < |s.bufs|
    requires Shape(c, Forgotten(s, i))
    ensures BufOk(c, Forgotten(s, i), Forgotten(s, i).bufs[k])
  {
    hide Word, DiskOk, DurOk, PhaseOk, CleanOk, ReserveOk, Pinned, BufsOk, FsOver, HeaderList;
    UnloggedDisk(c, s, i);
    SamePins(s, Forgotten(s, i));
    OneBuffer(c, s, i, s.bufs[i].id.value);
    BufAt(c, s, k);
  }

  lemma ForgetPhase(c: Config, s: State, i: nat)
    requires Inv(c, s) && i < |s.bufs| && s.bufs[i].dirty && s.bufs[i].refcnt == 0
    requires Shape(c, Forgotten(s, i))
    ensures PhaseOk(c, Forgotten(s, i)) && CleanOk(c, Forgotten(s, i))
  {
    hide Word, DiskOk, DurOk, ReserveOk, BufsOk, Pinned, Dirty, HeaderList, FsOver;
    UnloggedDisk(c, s, i);
    ForgetDirty(s, i);
  }

  lemma ForgetDirty(s: State, i: nat)
    requires i < |s.bufs| && s.bufs[i].id.Some?
    ensures forall b: nat | Dirty(s, b) && b != s.bufs[i].id.value :: Dirty(Forgotten(s, i), b)
  {
    forall b: nat | Dirty(s, b) && b != s.bufs[i].id.value
      ensures Dirty(Forgotten(s, i), b)
    {
      StillDirty(s, Forgotten(s, i), b);
    }
  }

  lemma KeepBgetMiss(c: Config, s: State, p: Pid, i: nat, blk: nat)
    requires Inv(c, s) && Enabled(c, s, BgetMiss(p, i, blk))
    ensures Inv(c, Apply(c, s, BgetMiss(p, i, blk)))
  {
    hide Word, DiskOk, DurOk, PhaseOk, CleanOk, ReserveOk, Pinned;
    var b := s.bufs[i];
    assert BufOk(c, s, b);
    assert !(b.id.Some? && Pinned(s, b.id.value));
    assert !Pinned(s, blk);
    var b' := b.(id := Some(blk), valid := false, refcnt := 1, users := {p}, dirty := false);
    if b.dirty {
      Forget(c, s, i);
      var r := Forgotten(s, i);
      SamePins(s, r);
      BufStep(c, r, i, b');
      assert WithBuf(r, i, b') == Apply(c, s, BgetMiss(p, i, blk));
    } else {
      BufStep(c, s, i, b');
    }
  }

  lemma KeepAcquireSleep(c: Config, s: State, p: Pid, i: nat)
    requires Inv(c, s) && Enabled(c, s, AcquireSleep(p, i))
    ensures Inv(c, Apply(c, s, AcquireSleep(p, i)))
  {
    hide Word, DiskOk, DurOk, PhaseOk, CleanOk, ReserveOk, Pinned;
    var b := s.bufs[i];
    assert BufOk(c, s, b);
    BufStep(c, s, i, b.(holder := Some(p)));
  }

  lemma KeepReadIn(c: Config, s: State, p: Pid, i: nat)
    requires Inv(c, s) && Enabled(c, s, ReadIn(p, i))
    ensures Inv(c, Apply(c, s, ReadIn(p, i)))
  {
    hide Word, DurOk, PhaseOk, CleanOk, ReserveOk, Pinned;
    var b := s.bufs[i];
    assert BufOk(c, s, b);
    DiskCopyIsCurrent(c, s, i);
    assert |s.disk| == c.L.size;
    BufStep(c, s, i, b.(valid := true, data := s.disk[b.id.value]));
  }

  lemma KeepReleaseSleep(c: Config, s: State, p: Pid, i: nat)
    requires Inv(c, s) && Enabled(c, s, ReleaseSleep(p, i))
    ensures Inv(c, Apply(c, s, ReleaseSleep(p, i)))
  {
    hide Word, DiskOk, DurOk, PhaseOk, CleanOk, ReserveOk, Pinned;
    var b := s.bufs[i];
    assert BufOk(c, s, b);
    BufStep(c, s, i, b.(holder := None));
  }

  lemma KeepUnref(c: Config, s: State, p: Pid, i: nat)
    requires Inv(c, s) && Enabled(c, s, Unref(p, i))
    ensures Inv(c, Apply(c, s, Unref(p, i)))
  {
    hide Word, DiskOk, DurOk, PhaseOk, CleanOk, ReserveOk, Pinned;
    var b := s.bufs[i];
    assert BufOk(c, s, b);
    BufStep(c, s, i, b.(refcnt := b.refcnt - 1, users := b.users - {p}));
  }

  lemma KeepBeginOp(c: Config, s: State, p: Pid)
    requires Inv(c, s) && Enabled(c, s, BeginOp(p))
    ensures Inv(c, Apply(c, s, BeginOp(p)))
  {
    hide Word, DiskOk, DurOk, Unused, BufsOk, CleanOk, HeaderList, FsOver, ReserveOk, Pinned;
    var r := s.(ops := s.ops[p := 0]);
    BeginReserve(c, s, p, r);
    assert forall b: nat :: Pinned(r, b) <==> Pinned(s, b) by { SamePins(s, r); }
    SameBufs(c, s, r);
  }

  lemma SamePins(s: State, r: State)
    requires r.phase == s.phase && r.lh == s.lh
    ensures forall b: nat :: Pinned(r, b) <==> Pinned(s, b)
  {
  }

  lemma BeginReserve(c: Config, s: State, p: Pid, r: State)
    requires ReserveOk(c, s) && p !in s.ops && r == s.(ops := s.ops[p := 0])
    requires |s.lh| + (|s.ops| + 1) * c.maxOp <= c.L.logBlocks
    ensures ReserveOk(c, r)
  {
    hide Unused;
    UnusedAfter(s.ops, c.maxOp, p, 0);
    assert s.ops - {p} == s.ops;
    UnusedBound(s.ops, c.maxOp);
    Distribute(|s.ops|, c.maxOp);
  }

  lemma Distribute(n: nat, m: nat)
    ensures (n + 1) * m == n * m + m
  {
  }

  /** Steps that leave disk, buffers, header and file systems alone keep the buffer and disk invariants. */
  lemma SameBufs(c: Config, s: State, r: State)
    requires Shape(c, s) && BufsOk(c, s) && CleanOk(c, s)
    requires r == s.(ops := r.ops, phase := r.phase)
    requires forall b: nat :: Pinned(r, b) <==> Pinned(s, b)
    requires Recovering(s) == Recovering(r)
    ensures Shape(c, r) && BufsOk(c, r)
    ensures s.phase.Idle? || s.phase.WritingLog? ==> CleanOk(c, r)
  {
    hide Word, DiskOk;
    assert Shape(c, r);
    forall k | 0 <= k < |r.bufs|
      ensures BufOk(c, r, r.bufs[k])
    {
      assert BufOk(c, s, s.bufs[k]);
    }
    assert forall b: nat :: Dirty(r, b) <==> Dirty(s, b);
  }

  /** An open operation means that nobody is committing or recovering. */
  lemma OpenMeansIdle(c: Config, s: State, p: Pid)
    requires Inv(c, s) && p in s.ops
    ensures s.phase.Idle?
  {
    hide Word, DiskOk;
  }

  lemma KeepEndOp(c: Config, s: State, p: Pid)
    requires Inv(c, s) && Enabled(c, s, EndOp(p))
    ensures Inv(c, Apply(c, s, EndOp(p)))
  {
    var r := Apply(c, s, EndOp(p));
    OpenMeansIdle(c, s, p);
    hide Word, DiskOk, DurOk, Unused, BufsOk, CleanOk, HeaderList, FsOver;
    UnusedSplit(s.ops, c.maxOp, p);
    SameBufs(c, s, r);
  }

  lemma KeepEmptyCommit(c: Config, s: State)
    requires Inv(c, s) && Enabled(c, s, EmptyCommit)
    ensures Inv(c, Apply(c, s, EmptyCommit))
  {
    hide Word, DiskOk, DurOk, Unused, BufsOk, CleanOk, FsOver;
    SameBufs(c, s, Apply(c, s, EmptyCommit));
  }

  /** Steps that rewrite buffers but not their identities. */
  lemma SameIds(c: Config, s: State, r: State)
    requires Shape(c, s) && BufsOk(c, s) && Shape(c, r) && |r.bufs| == |s.bufs|
    requires forall k | 0 <= k < |s.bufs| :: r.bufs[k].id == s.bufs[k].id && (s.bufs[k].valid ==> r.bufs[k].valid)
    requires forall k | 0 <= k < |s.bufs| :: BufOk(c, r, r.bufs[k])
    requires forall b: nat | Pinned(r, b) && !Pinned(s, b) ::
               exists i | 0 <= i < |r.bufs| :: r.bufs[i].id == Some(b) && r.bufs[i].valid
    ensures BufsOk(c, r)
  {
    hide Word, DiskOk, Pinned, BufOk;
    forall b: nat | Pinned(r, b)
      ensures exists k | 0 <= k < |r.bufs| :: r.bufs[k].id == Some(b) && r.bufs[k].valid
    {
      if Pinned(s, b) {
        var k :| 0 <= k < |s.bufs| && s.bufs[k].id == Some(b) && s.bufs[k].valid;
        assert r.bufs[k].id == Some(b) && r.bufs[k].valid;
      }
    }
  }

  lemma StillDirty(s: State, r: State, b: nat)
    requires |r.bufs| == |s.bufs| && Dirty(s, b)
    requires forall k | 0 <= k < |s.bufs| && s.bufs[k].id == Some(b) ::
               r.bufs[k].id == Some(b) && (s.bufs[k].dirty ==> r.bufs[k].dirty)
    ensures Dirty(r, b)
  {
    var k :| 0 <= k < |s.bufs| && s.bufs[k].id == Some(b) && s.bufs[k].dirty;
    assert r.bufs[k].id == Some(b) && r.bufs[k].dirty;
  }

  lemma KeepModify(c: Config, s: State, p: Pid, i: nat, data: Block)
    requires Inv(c, s) && Enabled(c, s, Modify(p, i, data))
    ensures Inv(c, Apply(c, s, Modify(p, i, data)))
  {
    hide Word, DiskOk, DurOk, BufsOk, ReserveOk, Dirty, HeaderList;
    var r, x := Apply(c, s, Modify(p, i, data)), s.bufs[i].id.value;
    OpenMeansIdle(c, s, p);
    assert Shape(c, r);
    ModifyBufs(c, s, p, i, data, r);
    ModifyDirty(s, i, x, r);
    SameReserve(c, s, r);
  }

  lemma ModifyBufs(c: Config, s: State, p: Pid, i: nat, data: Block, r: State)
    requires Inv(c, s) && Enabled(c, s, Modify(p, i, data)) && s.phase.Idle?
    requires r == Apply(c, s, Modify(p, i, data)) && Shape(c, r)
    ensures BufsOk(c, r)
  {
    hide Word, DiskOk, DurOk, PhaseOk, CleanOk, ReserveOk, Pinned, HeaderList;
    SamePins(s, r);
    forall k | 0 <= k < |r.bufs|
      ensures BufOk(c, r, r.bufs[k])
    {
      assert BufOk(c, s, s.bufs[k]);
    }
    SameIds(c, s, r);
  }

  lemma ModifyDirty(s: State, i: nat, x: nat, r: State)
    requires i < |s.bufs| == |r.bufs| && s.bufs[i].id == Some(x)
    requires r.bufs == s.bufs[i := s.bufs[i].(data := r.bufs[i].data, dirty := true)]
    ensures Dirty(r, x) && forall b: nat | Dirty(s, b) :: Dirty(r, b)
  {
    assert r.bufs[i].id == Some(x) && r.bufs[i].dirty;
    forall b: nat | Dirty(s, b)
      ensures Dirty(r, b)
    {
      StillDirty(s, r, b);
    }
  }

  lemma KeepLogWrite(c: Config, s: State, p: Pid, i: nat)
    requires Inv(c, s) && Enabled(c, s, LogWrite(p, i)) && !LogWritePanics(c, s)
    ensures Inv(c, Apply(c, s, LogWrite(p, i)))
  {
    hide Word, DiskOk, DurOk, Unused, BufsOk, CleanOk;
    var r := Apply(c, s, LogWrite(p, i));
    OpenMeansIdle(c, s, p);
    UnusedSplit(s.ops, c.maxOp, p);
    UnusedAfter(s.ops, c.maxOp, p, s.ops[p] + 1);
    assert Shape(c, r);
    LogWriteBufs(c, s, p, i, r);
    LogWriteClean(c, s, p, i, r);
  }

  lemma LogWriteBufs(c: Config, s: State, p: Pid, i: nat, r: State)
    requires Inv(c, s) && Enabled(c, s, LogWrite(p, i)) && !LogWritePanics(c, s) && s.phase.Idle?
    requires r == Apply(c, s, LogWrite(p, i)) && Shape(c, r)
    ensures BufsOk(c, r)
  {
    hide Word, DiskOk, DurOk, CleanOk, ReserveOk, PhaseOk;
    var x := s.bufs[i].id.value;
    assert forall b: nat :: Pinned(r, b) <==> Pinned(s, b) || b == x;
    forall k | 0 <= k < |r.bufs|
      ensures BufOk(c, r, r.bufs[k])
    {
      assert BufOk(c, s, s.bufs[k]);
    }
    assert r.bufs[i].id == Some(x) && r.bufs[i].valid;
    SameIds(c, s, r);
  }

  lemma LogWriteClean(c: Config, s: State, p: Pid, i: nat, r: State)
    requires Inv(c, s) && Enabled(c, s, LogWrite(p, i)) && !LogWritePanics(c, s) && s.phase.Idle?
    requires r == Apply(c, s, LogWrite(p, i)) && Shape(c, r)
    ensures CleanOk(c, r)
  {
    hide Word, DiskOk, DurOk, BufsOk, ReserveOk, PhaseOk;
    var x := s.bufs[i].id.value;
    assert x in r.lh;
    forall b: nat | Dirty(s, b) && b != x
      ensures Dirty(r, b)
    {
      StillDirty(s, r, b);
    }
  }

  // ------------------------------------------------------------ disk writes of the commit thread

  /** Writing the buffer m of block x to disk keeps every buffer equal to what its block holds. */
  lemma DiskWriteBufs(c: Config, s: State, r: State, m: nat, x: nat)
    requires Shape(c, s) && BufsOk(c, s) && Shape(c, r) && |r.bufs| == |s.bufs|
    requires m < |s.bufs| && s.bufs[m].id == Some(x) && s.bufs[m].valid
    requires forall k | 0 <= k < |s.bufs| && k != m :: r.bufs[k] == s.bufs[k]
    requires r.bufs[m] == s.bufs[m].(data := r.bufs[m].data, refcnt := r.bufs[m].refcnt, dirty := r.bufs[m].dirty)
    requires r.bufs[m].dirty ==> s.bufs[m].dirty
    requires r.bufs[m].refcnt == |s.bufs[m].users| + (if Pinned(r, x) then 1 else 0)
    requires x < c.L.size && r.disk == s.disk[x := r.bufs[m].data]
    requires r.cur == s.cur && r.ops == s.ops && Recovering(r) == Recovering(s)
    requires Home(c.L, x) && !Recovering(s) ==> r.bufs[m].data == s.cur[x]
    requires forall b: nat | b != x :: Pinned(r, b) <==> Pinned(s, b)
    requires Pinned(r, x) ==> Pinned(s, x)
    ensures BufsOk(c, r)
  {
    assert |s.disk| == c.L.size;
    hide Word, DiskOk, Pinned;
    assert BufOk(c, s, s.bufs[m]);
    forall k | 0 <= k < |r.bufs|
      ensures BufOk(c, r, r.bufs[k])
    {
      assert BufOk(c, s, s.bufs[k]);
    }
    SameIds(c, s, r);
  }

  lemma KeepWriteLogBlock(c: Config, s: State, i: nat, j: nat)
    requires Inv(c, s) && Enabled(c, s, WriteLogBlock(i, j))
    ensures Inv(c, Apply(c, s, WriteLogBlock(i, j)))
  {
    hide BufsOk, DurOk, PhaseOk, CleanOk, ReserveOk, DiskOk;
    LogBlockWritten(c, s, i, j, Apply(c, s, WriteLogBlock(i, j)));
  }

  lemma LogBlockWritten(c: Config, s: State, i: nat, j: nat, r: State)
    requires Inv(c, s) && s.phase.WritingLog? && s.phase.tail < |s.lh|
    requires HoldsValid(s, s.phase.who, i, c.L.start + s.phase.tail + 1)
    requires HoldsValid(s, s.phase.who, j, s.lh[s.phase.tail])
    requires r == WithBuf(s, i, s.bufs[i].(data := s.bufs[j].data))
                  .(disk := s.disk[c.L.start + s.phase.tail + 1 := s.bufs[j].data],
                    phase := WritingLog(s.phase.who, s.phase.tail + 1))
    ensures Inv(c, r)
  {
    hide Word, Unused, HeaderOk, BufsOk, Pinned;
    assert r.disk[c.L.start] == s.disk[c.L.start] && |s.disk| == c.L.size;
    LogBlockBufs(c, s, i, j, r);
    assert PhaseOk(c, r) by { BufAt(c, s, j); }
    hide HeaderList, LogFilled;
    assert DurOk(c.L, r.disk, r.dur) by {
      assert Entries(c.L, r.disk) == [] == Entries(c.L, s.disk);
      LogFilledFrame(c.L, s.disk, r.disk, [], s.dur, 0);
    }
    assert CleanOk(c, r) by { assert forall b: nat :: Dirty(r, b) <==> Dirty(s, b) by { SameDirty(s, r); } }
  }

  lemma SameDirty(s: State, r: State)
    requires |r.bufs| == |s.bufs|
    requires forall k | 0 <= k < |s.bufs| :: r.bufs[k].id == s.bufs[k].id && r.bufs[k].dirty == s.bufs[k].dirty
    ensures forall b: nat :: Dirty(r, b) <==> Dirty(s, b)
  {
  }

  lemma LogBlockBufs(c: Config, s: State, i: nat, j: nat, r: State)
    requires Inv(c, s) && s.phase.WritingLog? && s.phase.tail < |s.lh|
    requires HoldsValid(s, s.phase.who, i, c.L.start + s.phase.tail + 1)
    requires HoldsValid(s, s.phase.who, j, s.lh[s.phase.tail])
    requires r == WithBuf(s, i, s.bufs[i].(data := s.bufs[j].data))
                  .(disk := s.disk[c.L.start + s.phase.tail + 1 := s.bufs[j].data],
                    phase := WritingLog(s.phase.who, s.phase.tail + 1))
    requires Shape(c, r)
    ensures BufsOk(c, r)
  {
    hide BufsOk, DurOk, PhaseOk, CleanOk, ReserveOk, DiskOk;
    BufAt(c, s, i);
    DiskWriteBufs(c, s, r, i, c.L.start + s.phase.tail + 1);
  }

  lemma BufAt(c: Config, s: State, i: nat)
    requires Shape(c, s) && BufsOk(c, s) && i < |s.bufs|
    ensures BufOk(c, s, s.bufs[i])
  {
  }

  lemma HeaderOnDisk(c: Config, s: State, i: nat)
    requires Inv(c, s) && Enabled(c, s, WriteHead(i))
    ensures var d := s.disk[c.L.start := HeaderWith(s.bufs[i].data, s.lh, |s.lh|)];
            DiskOk(c.L, d) && Count(c.L, d) == |s.lh| && Entries(c.L, d) == s.lh
  {
    hide Word, HeaderWith, BufsOk, DurOk, PhaseOk, CleanOk, ReserveOk, FsOver, HeaderOk;
    var h := HeaderWith(s.bufs[i].data, s.lh, |s.lh|);
    HeaderBlock(c.L, s.bufs[i].data, s.lh);
    var d := s.disk[c.L.start := h];
    assert d[c.L.start] == h;
    EntriesOf(c.L, d, s.lh);
  }

  lemma HeaderBlock(L: Layout, h0: Block, lh: seq<nat>)
    requires LayoutOk(L) && HeaderList(L, lh)
    ensures HeaderOk(L, HeaderWith(h0, lh, |lh|)) && Word(HeaderWith(h0, lh, |lh|), 0) == |lh|
    ensures forall k | 0 <= k < |lh| :: Entry(HeaderWith(h0, lh, |lh|), k) == lh[k]
  {
    hide Word, HeaderWith;
    HeaderWords(h0, lh, |lh|, 0);
    forall k | 0 <= k < |lh|
      ensures Entry(HeaderWith(h0, lh, |lh|), k) == lh[k]
    {
      HeaderWords(h0, lh, |lh|, k + 1);
    }
  }

  lemma EntriesOf(L: Layout, d: Disk, lh: seq<nat>)
    requires DiskOk(L, d) && Word(d[L.start], 0) == |lh| <= L.logBlocks
    requires forall k | 0 <= k < |lh| :: Entry(d[L.start], k) == lh[k]
    ensures Count(L, d) == |lh| && Entries(L, d) == lh
  {
    hide Word, HeaderOk;
  }

  lemma KeepWriteHead(c: Config, s: State, i: nat)
    requires Inv(c, s) && Enabled(c, s, WriteHead(i))
    ensures Inv(c, Apply(c, s, WriteHead(i)))
  {
    hide Word, HeaderWith, HeaderOk, BufsOk, DurOk, ReserveOk, Dirty, LogFilled, HeaderList, FsOver;
    var r := Apply(c, s, WriteHead(i));
    HeaderOnDisk(c, s, i);
    WriteHeadDur(c, s, r);
    assert Shape(c, r);
    WriteHeadBufs(c, s, i, r);
    SameDirty(s, r);
    SameReserve(c, s, r);
    assert Installed(c.L, r.disk, r.lh, r.cur, 0);
  }

  lemma WriteHeadBufs(c: Config, s: State, i: nat, r: State)
    requires Inv(c, s) && Enabled(c, s, WriteHead(i)) && r == Apply(c, s, WriteHead(i)) && Shape(c, r)
    ensures BufsOk(c, r)
  {
    hide Word, HeaderWith, Unused, HeaderOk, BufsOk, DurOk, CleanOk, PhaseOk;
    BufAt(c, s, i);
    assert forall b: nat :: Pinned(r, b) <==> Pinned(s, b) by { assert s.lh[0..] == s.lh; }
    DiskWriteBufs(c, s, r, i, c.L.start);
  }

  lemma WriteHeadDur(c: Config, s: State, r: State)
    requires Inv(c, s) && s.phase.WritingLog? && s.phase.tail == |s.lh| && DiskOk(c.L, r.disk)
    requires forall b | 0 <= b < c.L.size && b != c.L.start :: r.disk[b] == s.disk[b]
    requires Entries(c.L, r.disk) == s.lh
    ensures FsOver(c.L, Committed(s.dur, s.cur, s.lh)) && DurOk(c.L, r.disk, Committed(s.dur, s.cur, s.lh))
    ensures forall b: nat | Home(c.L, b) && (b in s.lh || !Dirty(s, b)) ::
              s.cur[b] == Committed(s.dur, s.cur, s.lh)[b]
  {
    hide Word, HeaderOk, BufsOk, ReserveOk, Dirty, HeaderList, LogFilled, CleanOk, DurOk;
    LogFilledFrame(c.L, s.disk, r.disk, s.lh, s.cur, |s.lh|);
    LogFilledSame(c.L, r.disk, s.lh, s.cur, Committed(s.dur, s.cur, s.lh), |s.lh|);
    AtCommit(c, s);
    assert DurOk(c.L, r.disk, Committed(s.dur, s.cur, s.lh)) by { CommittedDur(c, s, r); }
  }

  lemma CommittedDur(c: Config, s: State, r: State)
    requires Shape(c, s) && DiskOk(c.L, r.disk) && FsOver(c.L, Committed(s.dur, s.cur, s.lh))
    requires forall b: nat | Home(c.L, b) :: s.disk[b] == s.dur[b]
    requires forall b | 0 <= b < c.L.size && b != c.L.start :: r.disk[b] == s.disk[b]
    requires Entries(c.L, r.disk) == s.lh
    requires LogFilled(c.L, r.disk, s.lh, Committed(s.dur, s.cur, s.lh), |s.lh|)
    ensures DurOk(c.L, r.disk, Committed(s.dur, s.cur, s.lh))
  {
    hide Word, HeaderOk, HeaderList, LogFilled;
  }

  /** Before the commit the disk holds the last one, and where nothing is modified memory does, too. */
  lemma AtCommit(c: Config, s: State)
    requires Inv(c, s) && s.phase.WritingLog?
    ensures forall b: nat | Home(c.L, b) :: s.disk[b] == s.dur[b]
    ensures forall b: nat | Home(c.L, b) && b !in s.lh && !Dirty(s, b) :: s.cur[b] == s.dur[b]
  {
    hide Word, HeaderOk, BufsOk, ReserveOk, Dirty, HeaderList, LogFilled;
    assert Entries(c.L, s.disk) == [];
  }

  lemma LogFilledSame(L: Layout, d: Disk, lh: seq<nat>, m: Fs, m': Fs, n: nat)
    requires LayoutOk(L) && |d| == L.size && HeaderList(L, lh) && FsOver(L, m) && FsOver(L, m') && n <= |lh|
    requires LogFilled(L, d, lh, m, n) && forall b | b in lh && b in m :: m'[b] == m[b]
    ensures LogFilled(L, d, lh, m', n)
  {
  }

  lemma LogFilledFrame(L: Layout, d: Disk, e: Disk, lh: seq<nat>, m: Fs, n: nat)
    requires LayoutOk(L) && |d| == |e| == L.size && HeaderList(L, lh) && FsOver(L, m) && n <= |lh|
    requires LogFilled(L, d, lh, m, n)
    requires forall b | L.start < b <= L.start + n :: d[b] == e[b]
    ensures LogFilled(L, e, lh, m, n)
  {
    forall k | 0 <= k < n
      ensures e[L.start + 1 + k] == m[lh[k]]
    {
      assert d[L.start + 1 + k] == e[L.start + 1 + k];
    }
  }

  lemma KeepInstallBlock(c: Config, s: State, i: nat, j: nat)
    requires Inv(c, s) && Enabled(c, s, InstallBlock(i, j))
    ensures Inv(c, Apply(c, s, InstallBlock(i, j)))
  {
    hide BufsOk, DurOk, PhaseOk, CleanOk, ReserveOk, DiskOk;
    BlockInstalled(c, s, i, j, Apply(c, s, InstallBlock(i, j)));
  }

  lemma BlockInstalled(c: Config, s: State, i: nat, j: nat, r: State)
    requires Inv(c, s) && s.phase.Installing? && s.phase.tail < |s.lh|
    requires HoldsValid(s, s.phase.who, i, c.L.start + s.phase.tail + 1)
    requires HoldsValid(s, s.phase.who, j, s.lh[s.phase.tail])
    requires r == WithBuf(s, j, s.bufs[j].(data := s.bufs[i].data, dirty := false,
                                           refcnt := s.bufs[j].refcnt - (if s.phase.recovering then 0 else 1)))
                  .(disk := s.disk[s.lh[s.phase.tail] := s.bufs[i].data],
                    phase := Installing(s.phase.who, s.phase.tail + 1, s.phase.recovering))
    ensures Inv(c, r)
  {
    hide Word, Unused, DiskOk, HeaderList, BufsOk, ReserveOk, LogFilled, DurOk, Installed, FsOver, BlockValue, Pinned,
         LoggedAgree, Dirty;
    InstallData(c, s, i);
    InstalledDur(c.L, s.disk, s.dur, s.phase.tail);
    InstallBufs(c, s, i, j, r);
    InstalledMore(c.L, s.disk, s.lh, s.cur, s.phase.tail);
    InstallAgrees(c, s, j, r);
    SameReserve(c, s, r);
  }

  lemma InstallAgrees(c: Config, s: State, j: nat, r: State)
    requires Shape(c, s) && Shape(c, r) && LoggedAgree(c, s) && r.cur == s.cur && r.dur == s.dur && r.lh == s.lh
    requires j < |s.bufs| && s.bufs[j].id.Some? && s.bufs[j].id.value in s.lh
    requires r.bufs == s.bufs[j := r.bufs[j]] && r.bufs[j].id == s.bufs[j].id
    ensures LoggedAgree(c, r)
  {
    hide DiskOk, HeaderList;
    forall b: nat | Dirty(s, b) && b !in s.lh
      ensures Dirty(r, b)
    {
      StillDirty(s, r, b);
    }
  }

  /** The log block holds what the file system has for its home block. */
  lemma InstallData(c: Config, s: State, i: nat)
    requires Inv(c, s) && s.phase.Installing? && s.phase.tail < |s.lh|
    requires HoldsValid(s, s.phase.who, i, c.L.start + s.phase.tail + 1)
    ensures |s.disk| == c.L.size && c.L.start + 1 + s.phase.tail < c.L.size
    ensures s.phase.tail < Count(c.L, s.disk) && Target(c.L, s.disk, s.phase.tail) == s.lh[s.phase.tail]
    ensures Home(c.L, s.lh[s.phase.tail]) && s.lh[s.phase.tail] in s.cur
    ensures s.bufs[i].data == s.cur[s.lh[s.phase.tail]] == s.disk[c.L.start + 1 + s.phase.tail]
  {
    hide Word, Unused, HeaderOk, BufsOk, ReserveOk, CleanOk, Installed, Pinned;
    BufAt(c, s, i);
  }

  lemma SameReserve(c: Config, s: State, r: State)
    requires ReserveOk(c, s) && r.ops == s.ops && r.lh == s.lh
    ensures ReserveOk(c, r)
  {
  }

  lemma InstalledMore(L: Layout, d: Disk, lh: seq<nat>, m: Fs, n: nat)
    requires |d| == L.size && HeaderList(L, lh) && FsOver(L, m) && n < |lh| && Installed(L, d, lh, m, n)
    ensures Home(L, lh[n]) && Installed(L, d[lh[n] := m[lh[n]]], lh, m, n + 1)
  {
  }

  lemma InstallBufs(c: Config, s: State, i: nat, j: nat, r: State)
    requires Inv(c, s) && s.phase.Installing? && s.phase.tail < |s.lh| && i < |s.bufs|
    requires HoldsValid(s, s.phase.who, j, s.lh[s.phase.tail])
    requires r == WithBuf(s, j, s.bufs[j].(data := s.bufs[i].data, dirty := false,
                                           refcnt := s.bufs[j].refcnt - (if s.phase.recovering then 0 else 1)))
                  .(disk := s.disk[s.lh[s.phase.tail] := s.bufs[i].data],
                    phase := Installing(s.phase.who, s.phase.tail + 1, s.phase.recovering))
    requires Shape(c, r) && s.bufs[i].data == s.cur[s.lh[s.phase.tail]]
    ensures BufsOk(c, r)
  {
    hide BufsOk, DurOk, PhaseOk, CleanOk, ReserveOk, DiskOk;
    var x, tail := s.lh[s.phase.tail], s.phase.tail;
    BufAt(c, s, j);
    assert s.lh[tail..] == [x] + s.lh[tail + 1..];
    DiskWriteBufs(c, s, r, j, x);
  }

  lemma InstalledDur(L: Layout, d: Disk, dur: Fs, k: nat)
    requires DiskOk(L, d) && FsOver(L, dur) && DurOk(L, d, dur) && k < Count(L, d)
    ensures var e := d[Target(L, d, k) := d[L.start + 1 + k]];
            DiskOk(L, e) && DurOk(L, e, dur) && Entries(L, e) == Entries(L, d)
  {
    hide Word, HeaderOk, HeaderList, LogFilled;
    var e := d[Target(L, d, k) := d[L.start + 1 + k]];
    assert e[L.start] == d[L.start];
    assert Entries(L, e) == Entries(L, d);
    assert Entries(L, d)[k] == Target(L, d, k);
    LogFilledFrame(L, d, e, Entries(L, d), dur, Count(L, d));
  }

  lemma KeepEraseHead(c: Config, s: State, i: nat)
    requires Inv(c, s) && Enabled(c, s, EraseHead(i))
    ensures Inv(c, Apply(c, s, EraseHead(i)))
  {
    hide Word, WithWord, Unused, HeaderOk, DurOk, BufsOk, CleanOk;
    var r := Apply(c, s, EraseHead(i));
    EraseHeadDisk(c, s, i, r);
    EraseHeadBufs(c, s, i, r);
    EraseHeadClean(c, s, i, r);
  }

  /** When all entries are installed, the home blocks hold the last commit. */
  lemma AllInstalled(c: Config, s: State)
    requires Inv(c, s) && s.phase.Installing? && s.phase.tail == |s.lh|
    ensures |s.disk| == c.L.size
    ensures forall b: nat | Home(c.L, b) :: s.disk[b] == s.dur[b]
  {
    hide Word, HeaderOk, BufsOk, CleanOk, ReserveOk, Dirty, LogFilled;
    forall b: nat | Home(c.L, b)
      ensures s.disk[b] == s.dur[b]
    {
      if b in s.lh {
        var k :| 0 <= k < |s.lh| && s.lh[k] == b;
        assert s.disk[s.lh[k]] == s.cur[s.lh[k]];
      } else {
        assert Entries(c.L, s.disk) == s.lh;
      }
    }
  }

  lemma EraseHeadDisk(c: Config, s: State, i: nat, r: State)
    requires Inv(c, s) && Enabled(c, s, EraseHead(i)) && r == Apply(c, s, EraseHead(i))
    ensures Shape(c, r) && DurOk(c.L, r.disk, r.dur) && Count(c.L, r.disk) == 0
    ensures forall b: nat | Home(c.L, b) :: r.disk[b] == s.dur[b]
  {
    AllInstalled(c, s);
    hide Word, WithWord, Unused, HeaderOk, CleanOk, ReserveOk, PhaseOk;
    assert BufOk(c, s, s.bufs[i]);
    assert r.disk == Erase(c.L, s.disk);
    EraseIsOk(c.L, s.disk);
    assert Shape(c, r);
  }

  lemma EraseHeadClean(c: Config, s: State, i: nat, r: State)
    requires Inv(c, s) && Enabled(c, s, EraseHead(i)) && r == Apply(c, s, EraseHead(i)) && Shape(c, r)
    requires forall b: nat | Home(c.L, b) :: r.disk[b] == s.dur[b]
    ensures CleanOk(c, r)
  {
    hide Word, WithWord, Unused, DiskOk, DurOk, BufsOk, ReserveOk;
    SameDirty(s, r);
  }

  /** During recovery no buffer is modified. */
  lemma RecoveryIsClean(c: Config, s: State, b: nat)
    requires Shape(c, s) && BufsOk(c, s) && Recovering(s)
    ensures !Dirty(s, b)
  {
    hide Word, DiskOk, Pinned, BlockValue;
    forall i | 0 <= i < |s.bufs|
      ensures !s.bufs[i].dirty
    {
      assert BufOk(c, s, s.bufs[i]);
    }
  }

  lemma EraseHeadBufs(c: Config, s: State, i: nat, r: State)
    requires Inv(c, s) && Enabled(c, s, EraseHead(i)) && r == Apply(c, s, EraseHead(i)) && Shape(c, r)
    requires forall b: nat | Home(c.L, b) :: r.disk[b] == s.dur[b]
    ensures BufsOk(c, r)
  {
    hide Word, WithWord, DiskOk, Unused, DurOk, CleanOk, ReserveOk, BufsOk, BufOk, BlockValue;
    assert forall b: nat :: !Pinned(r, b) && !Pinned(s, b);
    forall k | 0 <= k < |r.bufs|
      ensures BufOk(c, r, r.bufs[k])
    {
      EraseHeadBuf(c, s, i, r, k);
    }
    SameIds(c, s, r);
  }

  lemma EraseHeadBuf(c: Config, s: State, i: nat, r: State, k: nat)
    requires Inv(c, s) && Enabled(c, s, EraseHead(i)) && r == Apply(c, s, EraseHead(i)) && Shape(c, r)
    requires forall b: nat | Home(c.L, b) :: r.disk[b] == s.dur[b]
    requires k < |r.bufs|
    ensures BufOk(c, r, r.bufs[k])
  {
    assert |s.disk| == c.L.size;
    hide Word, WithWord, DiskOk, Unused, DurOk, CleanOk, ReserveOk, Dirty;
    assert !Pinned(r, c.L.start);
    assert BufOk(c, s, s.bufs[k]) && BufOk(c, s, s.bufs[i]);
    if s.bufs[k].id.Some? && Recovering(s) {
      RecoveryIsClean(c, s, s.bufs[k].id.value);
    }
  }

  lemma KeepCrash(c: Config, s: State)
    requires Inv(c, s)
    ensures Inv(c, Apply(c, s, Crash))
  {
    hide Word, DiskOk, DurOk;
  }

  lemma KeepReadHead(c: Config, s: State, p: Pid, i: nat)
    requires Inv(c, s) && Enabled(c, s, ReadHead(p, i))
    ensures Inv(c, Apply(c, s, ReadHead(p, i)))
  {
    hide Word, HeaderOk;
    var r := Apply(c, s, ReadHead(p, i));
    assert Shape(c, r);
    forall k | 0 <= k < |r.bufs|
      ensures BufOk(c, r, r.bufs[k])
    {
      assert BufOk(c, s, s.bufs[k]);
    }
    SameIds(c, s, r);
  }

  // ------------------------------------------------------------ whole runs

  lemma NoLogWritePanic(c: Config, s: State, p: Pid)
    requires ReserveOk(c, s) && p in s.ops
    ensures s.ops[p] < c.maxOp ==> !LogWritePanics(c, s)
    ensures LogWritePanics(c, s) <==> |s.lh| >= c.L.logBlocks
  {
    hide Unused;
    UnusedSplit(s.ops, c.maxOp, p);
    UnusedNonNeg(s.ops - {p}, c.maxOp);
    assert |s.ops| == 0 ==> s.ops == map[];
  }

  lemma {:induction false} UnusedNonNeg(ops: map<Pid, nat>, maxOp: nat)
    requires forall p | p in ops :: ops[p] <= maxOp
    ensures Unused(ops, maxOp) >= 0
    decreases |ops|
  {
    if ops != map[] {
      var p :| p in ops;
      UnusedSplit(ops, maxOp, p);
      UnusedNonNeg(ops - {p}, maxOp);
    }
  }

  lemma StepKeepsInv(c: Config, s: State, t: Step)
    requires Inv(c, s) && Enabled(c, s, t) && (t.LogWrite? ==> !LogWritePanics(c, s))
    ensures Inv(c, Apply(c, s, t))
  {
    hide *;
    match t
    case BeginOp(p) => KeepBeginOp(c, s, p);
    case BgetHit(p, i) => KeepBgetHit(c, s, p, i);
    case BgetMiss(p, i, b) => KeepBgetMiss(c, s, p, i, b);
    case AcquireSleep(p, i) => KeepAcquireSleep(c, s, p, i);
    case ReadIn(p, i) => KeepReadIn(c, s, p, i);
    case Modify(p, i, data) => KeepModify(c, s, p, i, data);
    case LogWrite(p, i) => KeepLogWrite(c, s, p, i);
    case ReleaseSleep(p, i) => KeepReleaseSleep(c, s, p, i);
    case Unref(p, i) => KeepUnref(c, s, p, i);
    case EndOp(p) => KeepEndOp(c, s, p);
    case EmptyCommit => KeepEmptyCommit(c, s);
    case WriteLogBlock(i, j) => KeepWriteLogBlock(c, s, i, j);
    case WriteHead(i) => KeepWriteHead(c, s, i);
    case InstallBlock(i, j) => KeepInstallBlock(c, s, i, j);
    case EraseHead(i) => KeepEraseHead(c, s, i);
    case Crash => KeepCrash(c, s);
    case ReadHead(p, i) => KeepReadHead(c, s, p, i);
  }

  /** A machine about to boot from a disk with an empty log. */
  ghost predicate Init(c: Config, s: State) {
    && DiskOk(c.L, s.disk) && Count(c.L, s.disk) == 0
    && FsOver(c.L, s.dur) && (forall b: nat | Home(c.L, b) :: s.dur[b] == s.disk[b])
    && s == State(s.disk, seq(c.nbuf, _ => EmptyBuf()), [], map[], Booting, s.dur, s.dur)
  }

  lemma InitInv(c: Config, s: State)
    requires Init(c, s)
    ensures Inv(c, s)
  {
    hide Word, HeaderOk;
    assert Entries(c.L, s.disk) == [];
  }

  /** The steps ts can be taken in order from s, none of them a panicking log_write. */
  ghost predicate RunOf(c: Config, s: State, ts: seq<Step>)
    decreases |ts|
  {
    ts == [] ||
    (&& Shape(c, s) && Enabled(c, s, ts[0]) && (ts[0].LogWrite? ==> !LogWritePanics(c, s))
     && RunOf(c, Apply(c, s, ts[0]), ts[1..]))
  }

  ghost function After(c: Config, s: State, ts: seq<Step>): (r: State)
    requires RunOf(c, s, ts)
    decreases |ts|
  {
    if ts == [] then s else After(c, Apply(c, s, ts[0]), ts[1..])
  }

  lemma {:induction false} RunKeepsInv(c: Config, s: State, ts: seq<Step>)
    requires Inv(c, s) && RunOf(c, s, ts)
    ensures Inv(c, After(c, s, ts))
    decreases |ts|
  {
    hide Shape, BufsOk, DurOk, PhaseOk, CleanOk, ReserveOk, Enabled, Apply;
    if ts != [] {
      StepKeepsInv(c, s, ts[0]);
      RunKeepsInv(c, Apply(c, s, ts[0]), ts[1..]);
    }
  }

  lemma ReachableInv(c: Config, s: State, ts: seq<Step>)
    requires Init(c, s) && RunOf(c, s, ts)
    ensures Inv(c, After(c, s, ts))
  {
    InitInv(c, s);
    RunKeepsInv(c, s, ts);
  }

  lemma ViewIsDur(L: Layout, d: Disk, dur: Fs)
    requires DiskOk(L, d) && FsOver(L, dur) && DurOk(L, d, dur)
    ensures View(L, d) == dur
  {
    hide Word, HeaderOk, Install, LastEntry, DurOk, FsOver;
    var n := Count(L, d);
    forall b: nat | Home(L, b)
      ensures b in dur && Install(L, d, n)[b] == dur[b]
    {
      HomeIsDur(L, d, dur, b);
    }
    SameFs(L, d, dur);
  }

  lemma HomeIsDur(L: Layout, d: Disk, dur: Fs, b: nat)
    requires DiskOk(L, d) && FsOver(L, dur) && DurOk(L, d, dur) && Home(L, b)
    ensures b in dur && Install(L, d, Count(L, d))[b] == dur[b]
  {
    hide Word, HeaderOk, Install;
    InstallAt(L, d, Count(L, d), b);
    var j := LastEntry(L, d, b, Count(L, d));
    if j >= 0 {
      assert Entries(L, d)[j] == b;
    }
  }

  lemma SameFs(L: Layout, d: Disk, dur: Fs)
    requires DiskOk(L, d) && FsOver(L, dur)
    requires forall b: nat | Home(L, b) :: b in dur && Install(L, d, Count(L, d))[b] == dur[b]
    ensures View(L, d) == dur
  {
    hide Word, HeaderOk, Install;
  }

  /** Crash refinement. Whatever the processes did and wherever they were stopped, replaying the log
      on the disk as it is gives exactly the file system of the last commit point. */
  lemma CrashShowsLastCommit(c: Config, s: State, ts: seq<Step>)
    requires Init(c, s) && RunOf(c, s, ts)
    ensures var r := After(c, s, ts);
            DiskOk(c.L, r.disk) && View(c.L, r.disk) == r.dur
  {
    ReachableInv(c, s, ts);
    hide Word, HeaderOk, BufsOk, PhaseOk, CleanOk, ReserveOk, RunOf, After;
    var r := After(c, s, ts);
    ViewIsDur(c.L, r.disk, r.dur);
  }

  /** The commit point is the header write. It happens only while no operation is open, so what becomes durable is a
      set of whole operations: every logged block as the cache holds it. Nothing else changes what a reboot finds. */
  lemma CommitsWholeOperations(c: Config, s: State, ts: seq<Step>, t: Step)
    requires Init(c, s) && RunOf(c, s, ts)
    requires Shape(c, After(c, s, ts)) && Enabled(c, After(c, s, ts), t)
    requires t.LogWrite? ==> !LogWritePanics(c, After(c, s, ts))
    ensures var r := After(c, s, ts);
            var q := Apply(c, r, t);
            && DiskOk(c.L, q.disk)
            && (View(c.L, q.disk) != View(c.L, r.disk) ==> t.WriteHead?)
            && (t.WriteHead? ==>
                  r.ops == map[] && View(c.L, q.disk) == Committed(View(c.L, r.disk), r.cur, r.lh))
  {
    ReachableInv(c, s, ts);
    hide *;
    var r := After(c, s, ts);
    OnlyWriteHeadCommits(c, r, t);
    if t.WriteHead? {
      CommitIsQuiet(c, r, t);
    }
  }

  lemma CommitIsQuiet(c: Config, r: State, t: Step)
    requires Inv(c, r) && Enabled(c, r, t) && t.WriteHead?
    ensures r.ops == map[]
  {
    hide DiskOk, BufsOk, DurOk, CleanOk, ReserveOk, LogFilled, HeaderList;
  }

  /** What a reboot finds before and after one step. */
  lemma OnlyWriteHeadCommits(c: Config, r: State, t: Step)
    requires Inv(c, r) && Enabled(c, r, t) && (t.LogWrite? ==> !LogWritePanics(c, r))
    ensures var q := Apply(c, r, t);
            && DiskOk(c.L, q.disk)
            && View(c.L, q.disk) ==
               if t.WriteHead? then Committed(View(c.L, r.disk), r.cur, r.lh) else View(c.L, r.disk)
  {
    hide Word, HeaderOk, BufsOk, PhaseOk, CleanOk, ReserveOk, DurOk, Enabled, View;
    StepKeepsInv(c, r, t);
    var q := Apply(c, r, t);
    assert Shape(c, q);
    ViewIsDur(c.L, r.disk, r.dur);
    ViewIsDur(c.L, q.disk, q.dur);
    DurAfter(c, r, t);
  }

  lemma DurAfter(c: Config, r: State, t: Step)
    requires Shape(c, r) && Enabled(c, r, t) && (t.LogWrite? ==> !LogWritePanics(c, r))
    ensures Apply(c, r, t).dur == if t.WriteHead? then Committed(r.dur, r.cur, r.lh) else r.dur
  {
    hide Shape, DiskOk, Enabled, HeaderWith, WithWord, Entries, LogWritePanics;
  }

  /** Every modified buffer of b holds what the disk holds. */
  ghost predicate NothingUnlogged(s: State, b: nat)
    requires b < |s.disk|
  {
    forall i | 0 <= i < |s.bufs| && s.bufs[i].id == Some(b) && s.bufs[i].dirty :: s.bufs[i].data == s.disk[b]
  }

  /** For a block that is not logged, memory and disk agree exactly if no unlogged modification is left. */
  lemma UnloggedDiffers(c: Config, s: State, b: nat)
    requires Inv(c, s) && (s.phase.Idle? || s.phase.WritingLog?) && Home(c.L, b) && b !in s.lh
    ensures b < |s.disk| && b in s.cur && b in s.dur && s.disk[b] == s.dur[b]
    ensures s.cur[b] == s.disk[b] <==> NothingUnlogged(s, b)
  {
    hide Word, HeaderOk, ReserveOk, Pinned;
    assert Entries(c.L, s.disk) == [];
    if Dirty(s, b) {
      var i :| 0 <= i < |s.bufs| && s.bufs[i].id == Some(b) && s.bufs[i].dirty;
      assert BufOk(c, s, s.bufs[i]);
      OneBuffer(c, s, i, b);
    }
  }

  /** A commit makes the file system that processes see durable, except exactly where an unlogged modification is left
      in a block that is not logged. */
  lemma CommitMissesUnlogged(c: Config, s: State, ts: seq<Step>, i: nat, b: nat)
    requires Init(c, s) && RunOf(c, s, ts) && Home(c.L, b)
    requires Shape(c, After(c, s, ts)) && Enabled(c, After(c, s, ts), WriteHead(i))
    ensures var r := After(c, s, ts);
            var q := Apply(c, r, WriteHead(i));
            && DiskOk(c.L, q.disk) && b in q.cur
            && (View(c.L, q.disk)[b] == q.cur[b] <==> b in r.lh || NothingUnlogged(r, b))
  {
    ReachableInv(c, s, ts);
    hide *;
    MissedByHead(c, After(c, s, ts), i, b);
  }

  lemma HomeFits(c: Config, s: State, b: nat)
    requires Shape(c, s) && Home(c.L, b)
    ensures b < |s.disk| && b in s.cur && b in s.dur
  {
    hide HeaderOk, HeaderList;
  }

  lemma MissedByHead(c: Config, r: State, i: nat, b: nat)
    requires Inv(c, r) && Enabled(c, r, WriteHead(i)) && Home(c.L, b)
    ensures var q := Apply(c, r, WriteHead(i));
            && DiskOk(c.L, q.disk) && b < |r.disk| && b in q.cur
            && (View(c.L, q.disk)[b] == q.cur[b] <==> b in r.lh || NothingUnlogged(r, b))
  {
    hide Word, HeaderOk, BufsOk, CleanOk, ReserveOk, DurOk, HeaderList, View, PhaseOk, NothingUnlogged, DiskOk,
         HeaderWith, Home;
    HomeFits(c, r, b);
    OnlyWriteHeadCommits(c, r, WriteHead(i));
    ViewIsDur(c.L, r.disk, r.dur);
    if b !in r.lh {
      UnloggedDiffers(c, r, b);
    }
  }

  /** Recycling a buffer with an unlogged modification brings back what the last commit has for that block, and
      changes nothing else that processes see. Recycling any other buffer changes nothing. */
  lemma RecyclingForgets(c: Config, s: State, ts: seq<Step>, p: Pid, i: nat, b: nat)
    requires Init(c, s) && RunOf(c, s, ts)
    requires Shape(c, After(c, s, ts)) && Enabled(c, After(c, s, ts), BgetMiss(p, i, b))
    ensures var r := After(c, s, ts);
            var q := Apply(c, r, BgetMiss(p, i, b));
            && (r.bufs[i].dirty ==>
                  && r.bufs[i].id.Some? && Home(c.L, r.bufs[i].id.value)
                  && q.cur == r.cur[r.bufs[i].id.value := View(c.L, r.disk)[r.bufs[i].id.value]])
            && (!r.bufs[i].dirty ==> q.cur == r.cur)
  {
    ReachableInv(c, s, ts);
    hide *;
    RecycledBuffer(c, After(c, s, ts), p, i, b);
  }

  lemma RecycledBuffer(c: Config, r: State, p: Pid, i: nat, b: nat)
    requires Inv(c, r) && Enabled(c, r, BgetMiss(p, i, b))
    ensures var q := Apply(c, r, BgetMiss(p, i, b));
            && (r.bufs[i].dirty ==>
                  && r.bufs[i].id.Some? && Home(c.L, r.bufs[i].id.value)
                  && q.cur == r.cur[r.bufs[i].id.value := View(c.L, r.disk)[r.bufs[i].id.value]])
            && (!r.bufs[i].dirty ==> q.cur == r.cur)
  {
    hide Word, HeaderOk, BufsOk, CleanOk, ReserveOk, DurOk, View, PhaseOk, FsOver, HeaderList, Cached;
    ViewIsDur(c.L, r.disk, r.dur);
    if r.bufs[i].dirty {
      UnloggedDisk(c, r, i);
    }
  }

  /** No logged block loses its buffer before it is installed, so write_log finds it in the cache and copies its
      latest contents. Which blocks are pinned is stated by PinnedFromLogToInstall. */
  lemma LoggedBlocksStayCached(c: Config, s: State, ts: seq<Step>, k: nat)
    requires Init(c, s) && RunOf(c, s, ts)
    requires var r := After(c, s, ts);
             k < |r.lh| && Pinned(r, r.lh[k])
    ensures var r := After(c, s, ts);
            exists i | 0 <= i < |r.bufs| ::
              && r.bufs[i].id == Some(r.lh[k]) && r.bufs[i].valid && r.bufs[i].refcnt > 0
              && r.lh[k] in r.cur && r.bufs[i].data == r.cur[r.lh[k]]
              && forall j | 0 <= j < |r.bufs| && r.bufs[j].id == Some(r.lh[k]) :: j == i
  {
    hide Word, DiskOk, CleanOk, ReserveOk, DurOk, RunOf, After, BufsOk, FsOver, HeaderList;
    ReachableInv(c, s, ts);
    var r := After(c, s, ts);
    PinnedCached(c, r, r.lh[k]);
    HomeInCur(c, r, k);
  }

  /** A block is pinned from the log_write that lists it until install_trans has put it home. */
  lemma PinnedFromLogToInstall(s: State, k: nat)
    requires k < |s.lh| && forall i, j | 0 <= i < j < |s.lh| :: s.lh[i] != s.lh[j]
    ensures Pinned(s, s.lh[k]) <==>
              s.phase.Idle? || s.phase.WritingLog? || (s.phase.Installing? && !s.phase.recovering && s.phase.tail <= k)
  {
    if s.phase.Installing? && s.phase.tail <= k {
      assert s.lh[s.phase.tail..][k - s.phase.tail] == s.lh[k];
    }
  }

  lemma HomeInCur(c: Config, s: State, k: nat)
    requires Shape(c, s) && k < |s.lh|
    ensures Home(c.L, s.lh[k]) && s.lh[k] in s.cur
  {
    hide DiskOk;
  }

  /** A pinned block has one buffer, which is in use and holds the block's contents. */
  lemma PinnedCached(c: Config, s: State, b: nat)
    requires Shape(c, s) && BufsOk(c, s) && Pinned(s, b)
    ensures b < c.L.size
    ensures exists i | 0 <= i < |s.bufs| ::
              && s.bufs[i].id == Some(b) && s.bufs[i].valid && s.bufs[i].refcnt > 0
              && s.bufs[i].data == BlockValue(c, s, b)
              && forall j | 0 <= j < |s.bufs| && s.bufs[j].id == Some(b) :: j == i
  {
    hide DiskOk, BlockValue, FsOver, HeaderList, Pinned;
    var i :| 0 <= i < |s.bufs| && s.bufs[i].id == Some(b) && s.bufs[i].valid;
    assert BufOk(c, s, s.bufs[i]);
    OneBuffer(c, s, i, b);
  }

  lemma OneBuffer(c: Config, s: State, i: nat, b: nat)
    requires Shape(c, s) && BufsOk(c, s) && i < |s.bufs| && s.bufs[i].id == Some(b)
    ensures forall j | 0 <= j < |s.bufs| && s.bufs[j].id == Some(b) :: j == i
  {
    hide DiskOk, BufOk, FsOver, HeaderList, Pinned;
    forall j | 0 <= j < |s.bufs| && s.bufs[j].id == Some(b)
      ensures j == i
    {
    }
  }

  /** In every run a block has at most one buffer. */
  lemma OneBufferPerBlock(c: Config, s: State, ts: seq<Step>, i: nat, b: nat)
    requires Init(c, s) && RunOf(c, s, ts)
    requires i < |After(c, s, ts).bufs| && After(c, s, ts).bufs[i].id == Some(b)
    ensures var r := After(c, s, ts);
            forall j | 0 <= j < |r.bufs| && r.bufs[j].id == Some(b) :: j == i
  {
    hide DiskOk, BufsOk, FsOver, HeaderList, RunOf, After;
    ReachableInv(c, s, ts);
    OneBuffer(c, After(c, s, ts), i, b);
  }

  /** Neither panic of the log is reachable: end_op never finds a commit in progress, and log_write by an
      operation that has added fewer than MAXOPBLOCKS blocks always finds room. An operation that has added that
      many can only log a listed block again; this panics exactly when the header is full. */
  lemma LogNeverPanics(c: Config, s: State, ts: seq<Step>, p: Pid)
    requires Init(c, s) && RunOf(c, s, ts)
    ensures var r := After(c, s, ts);
            && DiskOk(c.L, r.disk)
            && (p in r.ops ==> r.phase.Idle?)
            && (p in r.ops && r.ops[p] < c.maxOp ==> !LogWritePanics(c, r))
            && (p in r.ops ==> (LogWritePanics(c, r) <==> |r.lh| == c.L.logBlocks))
            && |r.lh| + Unused(r.ops, c.maxOp) <= c.L.logBlocks
  {
    ReachableInv(c, s, ts);
    hide Word, HeaderOk, BufsOk, CleanOk, DurOk, RunOf, After, Enabled;
    var r := After(c, s, ts);
    if p in r.ops {
      OpenMeansIdle(c, r, p);
      NoLogWritePanic(c, r, p);
    }
  }

  /** Outside commits and recoveries, with no open operation and nothing logged, the disk is the last commit, and
      memory agrees with it exactly on the blocks without an unlogged modification. */
  lemma QuietStateIsDurable(c: Config, s: State, ts: seq<Step>, b: nat)
    requires Init(c, s) && RunOf(c, s, ts) && Home(c.L, b)
    requires var r := After(c, s, ts);
             r.phase.Idle? && r.ops == map[] && r.lh == []
    ensures var r := After(c, s, ts);
            && DiskOk(c.L, r.disk) && b in r.cur
            && r.disk[b] == View(c.L, r.disk)[b]
            && (r.cur[b] == r.disk[b] <==> NothingUnlogged(r, b))
  {
    ReachableInv(c, s, ts);
    hide Word, HeaderOk, BufsOk, ReserveOk, CleanOk, DurOk, PhaseOk, RunOf, After, View, NothingUnlogged;
    var r := After(c, s, ts);
    UnloggedDiffers(c, r, b);
    ViewIsDur(c.L, r.disk, r.dur);
  }

  // ------------------------------------------------------------ a modification that is lost

  ghost predicate CanStep(c: Config, s: State, t: Step) {
    Shape(c, s) && Enabled(c, s, t) && (t.LogWrite? ==> !LogWritePanics(c, s))
  }

  /** One step more. */
  lemma {:induction false} RunOn(c: Config, s: State, ts: seq<Step>, t: Step)
    requires RunOf(c, s, ts) && CanStep(c, After(c, s, ts), t)
    ensures RunOf(c, s, ts + [t]) && After(c, s, ts + [t]) == Apply(c, After(c, s, ts), t)
    decreases |ts|
  {
    hide Shape, Enabled, Apply, LogWritePanics;
    if ts == [] {
      assert ([] + [t])[1..] == [];
    } else {
      assert (ts + [t])[1..] == ts[1..] + [t];
      RunOn(c, Apply(c, s, ts[0]), ts[1..], t);
    }
  }

  /** Where a run from s has led, when only buffer 0 has been used. */
  ghost predicate At(c: Config, s: State, ts: seq<Step>, q: State) {
    && RunOf(c, s, ts) && After(c, s, ts) == q && Inv(c, q)
    && |q.bufs| > 0 && forall k | 0 < k < |q.bufs| :: q.bufs[k].id.None?
  }

  lemma NextAt(c: Config, s: State, ts: seq<Step>, q: State, t: Step, q': State)
    requires At(c, s, ts, q) && Enabled(c, q, t) && (t.LogWrite? ==> !LogWritePanics(c, q)) && q' == Apply(c, q, t)
    requires q'.bufs == q.bufs || (|q'.bufs| == |q.bufs| && q'.bufs == q.bufs[0 := q'.bufs[0]])
    ensures At(c, s, ts + [t], q')
  {
    hide Shape, Enabled, Apply, LogWritePanics, RunOf, After, BufsOk, DurOk, PhaseOk, CleanOk, ReserveOk;
    RunOn(c, s, ts, t);
    StepKeepsInv(c, q, t);
  }

  lemma StartAt(c: Config, s: State)
    requires Init(c, s) && c.nbuf > 0
    ensures At(c, s, [], s)
  {
    hide Shape, BufsOk, DurOk, PhaseOk, CleanOk, ReserveOk;
    InitInv(c, s);
  }

  /** bread by p into buffer 0. */
  lemma Loaded(c: Config, s: State, ts: seq<Step>, q: State, p: Pid, x: nat) returns (us: seq<Step>)
    requires At(c, s, ts, q) && q.bufs[0].refcnt == 0 && q.bufs[0].id != Some(x) && x < c.L.size
    ensures x < |q.disk|
    ensures At(c, s, us, WithBuf(q, 0, Buf(Some(x), true, 1, {p}, Some(p), false, q.disk[x]))
                         .(cur := AfterRecycle(q, 0)))
  {
    hide Word, HeaderOk, RunOf, After, DurOk, PhaseOk, CleanOk, ReserveOk, HeaderList, FsOver;
    assert BufOk(c, q, q.bufs[0]);
    var q1 := Apply(c, q, BgetMiss(p, 0, x));
    NextAt(c, s, ts, q, BgetMiss(p, 0, x), q1);
    var q2 := Apply(c, q1, AcquireSleep(p, 0));
    NextAt(c, s, ts + [BgetMiss(p, 0, x)], q1, AcquireSleep(p, 0), q2);
    us := ts + [BgetMiss(p, 0, x)] + [AcquireSleep(p, 0)];
    var q3 := Apply(c, q2, ReadIn(p, 0));
    NextAt(c, s, us, q2, ReadIn(p, 0), q3);
    us := us + [ReadIn(p, 0)];
    assert q3.bufs == q.bufs[0 := Buf(Some(x), true, 1, {p}, Some(p), false, q.disk[x])];
  }

  /** brelse of buffer 0 by p, who is its only user. */
  lemma Released(c: Config, s: State, ts: seq<Step>, q: State, p: Pid) returns (us: seq<Step>)
    requires At(c, s, ts, q) && q.bufs[0].holder == Some(p) && q.bufs[0].users == {p} && q.bufs[0].refcnt == 1
    ensures At(c, s, us, WithBuf(q, 0, q.bufs[0].(holder := None, users := {}, refcnt := 0)))
  {
    hide Word, DiskOk, RunOf, After, DurOk, PhaseOk, CleanOk, ReserveOk, HeaderList, FsOver, BufsOk;
    var q1 := Apply(c, q, ReleaseSleep(p, 0));
    NextAt(c, s, ts, q, ReleaseSleep(p, 0), q1);
    us := ts + [ReleaseSleep(p, 0)];
    var q2 := Apply(c, q1, Unref(p, 0));
    NextAt(c, s, us, q1, Unref(p, 0), q2);
    us := us + [Unref(p, 0)];
    assert q2.bufs == q.bufs[0 := q.bufs[0].(holder := None, users := {}, refcnt := 0)] by { assert {p} - {p} == {}; }
  }

  /** Boot from an empty log, and start an operation of p. */
  lemma Booted(c: Config, s: State, p: Pid) returns (us: seq<Step>, q: State)
    requires Init(c, s) && c.nbuf > 0 && c.maxOp <= c.L.logBlocks
    ensures At(c, s, us, q) && q.phase.Idle? && q.lh == [] && q.ops == map[p := 0] && q.cur == s.dur && q.dur == s.dur
    ensures q.bufs[0].refcnt == 0 && q.bufs[0].id == Some(c.L.start) && !q.bufs[0].dirty
    ensures |q.disk| == |s.disk| == c.L.size && forall b: nat | Home(c.L, b) :: q.disk[b] == s.disk[b]
  {
    hide Word, WithWord, HeaderOk, After, DurOk, CleanOk, ReserveOk, HeaderList, FsOver, BufsOk;
    StartAt(c, s);
    us := Loaded(c, s, [], s, p, c.L.start);
    q := WithBuf(s, 0, Buf(Some(c.L.start), true, 1, {p}, Some(p), false, s.disk[c.L.start]))
         .(cur := AfterRecycle(s, 0));
    var q1 := Apply(c, q, ReadHead(p, 0));
    NextAt(c, s, us, q, ReadHead(p, 0), q1);
    us := us + [ReadHead(p, 0)];
    var q2 := Apply(c, q1, EraseHead(0));
    NextAt(c, s, us, q1, EraseHead(0), q2);
    us := Released(c, s, us + [EraseHead(0)], q2, p);
    var q3 := WithBuf(q2, 0, q2.bufs[0].(holder := None, users := {}, refcnt := 0));
    q := Apply(c, q3, BeginOp(p));
    NextAt(c, s, us, q3, BeginOp(p), q);
    us := us + [BeginOp(p)];
  }

  /** For any block and any new contents: a run in which an operation modifies the block, releases it unlogged and
      ends, so that memory differs from the disk with no operation open and nothing to commit; and how it goes on
      until the old contents are read again. */
  lemma AbandonedBytes(c: Config, s: State, p: Pid, b: nat, data: Block) returns (ts: seq<Step>, us: seq<Step>)
    requires Init(c, s) && c.nbuf > 0 && c.maxOp <= c.L.logBlocks && Home(c.L, b)
    ensures RunOf(c, s, ts) && RunOf(c, s, us) && b < |s.disk|
    ensures var r := After(c, s, ts);
            && r.phase.Idle? && r.ops == map[] && r.lh == [] && b < |r.disk| && b in r.cur
            && r.cur[b] == data && r.disk[b] == s.disk[b]
    ensures var r := After(c, s, us);
            && |r.bufs| > 0 && HoldsValid(r, p, 0, b) && r.bufs[0].data == s.disk[b]
            && b in r.cur && r.cur[b] == s.disk[b]
  {
    hide Word, HeaderOk, RunOf, After, DurOk, CleanOk, ReserveOk, HeaderList, BufsOk;
    var q;
    ts, q := Booted(c, s, p);
    ts := Loaded(c, s, ts, q, p, b);
    var q1 := WithBuf(q, 0, Buf(Some(b), true, 1, {p}, Some(p), false, q.disk[b])).(cur := AfterRecycle(q, 0));
    var q2 := Apply(c, q1, Modify(p, 0, data));
    NextAt(c, s, ts, q1, Modify(p, 0, data), q2);
    ts := Released(c, s, ts + [Modify(p, 0, data)], q2, p);
    var q3 := WithBuf(q2, 0, q2.bufs[0].(holder := None, users := {}, refcnt := 0));
    var q4 := Apply(c, q3, EndOp(p));
    assert map[p := 0] - {p} == map[];
    NextAt(c, s, ts, q3, EndOp(p), q4);
    var q5 := Apply(c, q4, EmptyCommit);
    NextAt(c, s, ts + [EndOp(p)], q4, EmptyCommit, q5);
    ts := ts + [EndOp(p)] + [EmptyCommit];
    us := Loaded(c, s, ts, q5, p, c.L.start);
    var q6 := WithBuf(q5, 0, Buf(Some(c.L.start), true, 1, {p}, Some(p), false, q5.disk[c.L.start]))
              .(cur := AfterRecycle(q5, 0));
    us := Released(c, s, us, q6, p);
    var q7 := WithBuf(q6, 0, q6.bufs[0].(holder := None, users := {}, refcnt := 0));
    us := Loaded(c, s, us, q7, p, b);
  }
}
