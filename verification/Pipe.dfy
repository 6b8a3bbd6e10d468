/** Pipes (riscv/kernel/pipe.c:58-130) as a step system for any number of readers and writers. Each step
    is one turn of a loop or one action under pi->lock. sleep() is one step here: it gives up the lock
    and leaves the caller asleep, and wakeup() wakes everybody who sleeps on the channel. The counters
    are 32 bits wide and wrap. */
module Pipe {
  import opened RingIndex
  import opened Values

  const WRAP := 0x1_0000_0000

  /** Sleepers wait for room (&pi->nwrite) or for data (&pi->nread). */
  datatype Chan = Room | Data

  datatype Pc =
    | Idle
    | WriteAcquire(src: seq<Byte>, i: nat) | WriteLoop(src: seq<Byte>, i: nat)
    | WriteEnd(src: seq<Byte>, i: nat, failed: bool)
    | ReadAcquire(n: nat) | ReadTest(n: nat) | ReadLoop(n: nat, i: nat) | ReadEnd(n: nat, i: nat, failed: bool)
    | CloseAcquire(writable: bool) | CloseNow(writable: bool) | CloseEnd(writable: bool)

  /** data, nread, nwrite, readopen, writeopen and lock are the pipe's fields. pc, asleep and killed
      describe the processes, and ret what their last calls returned. The other fields are records that no step
      reads: sent and got are all bytes ever put into and taken out of the pipe,
          and who says which process put them; start is
      the length of sent when the last call of a process began, and out is what that call copied to user memory. */
  datatype State = State(
    data: seq<Byte>, nread: nat, nwrite: nat, readopen: bool, writeopen: bool, lock: Option<nat>,
    pc: seq<Pc>, asleep: seq<Option<Chan>>, killed: seq<bool>, ret: seq<int>,
    sent: seq<Byte>, who: seq<nat>, got: seq<Byte>, start: seq<nat>, out: seq<seq<Byte>>)

  /** What an idle process does, and whether a copy to or from user memory fails. */
  datatype Choice = Write(src: seq<Byte>) | Read(n: nat) | Close(writable: bool) | Go(fails: bool)

  datatype Event = Run(p: nat, a: Choice) | Kill(p: nat)

  /** A 32-bit counter one further. */
  function Next32(k: nat): (j: nat)
    ensures j < WRAP
  {
    (k + 1) % WRAP
  }

  function At(s: State, p: nat, pc: Pc): (s': State)
    requires p < |s.pc|
  {
    s.(pc := s.pc[p := pc])
  }

  /** A call of p begins, or ends with the result r. */
  function Calls(s: State, p: nat, pc: Pc): (s': State)
    requires p < |s.pc| && p < |s.start| && p < |s.out|
  {
    At(s.(start := s.start[p := |s.sent|], out := s.out[p := []]), p, pc)
  }

  function Returns(s: State, p: nat, r: int): (s': State)
    requires p < |s.pc| && p < |s.ret|
  {
    At(s.(ret := s.ret[p := r], lock := None), p, Idle)
  }

  /** wakeup(): nobody sleeps on the channel any more. */
  function Woken(asleep: seq<Option<Chan>>, c: Chan): (q: seq<Option<Chan>>)
    ensures |q| == |asleep|
    ensures forall i :: 0 <= i < |q| ==> q[i] == if asleep[i] == Some(c) then None else asleep[i]
    decreases |asleep|
  {
    if asleep == [] then [] else
    Woken(asleep[..|asleep| - 1], c) + [if asleep[|asleep| - 1] == Some(c) then None else asleep[|asleep| - 1]]
  }

  predicate Sized(n: nat, size: nat, s: State) {
    && |s.pc| == |s.asleep| == |s.killed| == |s.ret| == |s.start| == |s.out| == n && |s.data| == size
    && size > 0 && s.nread < WRAP && s.nwrite < WRAP
  }

  predicate Full(size: nat, s: State) { s.nwrite == (s.nread + size) % WRAP }

  predicate Empty(s: State) { s.nread == s.nwrite }

  /** pipewrite(): one turn of its loop, or its end. */
  function WriteStep(n: nat, size: nat, s: State, p: nat, a: Choice): (s': State)
    requires Sized(n, size, s) && p < n && (s.pc[p].WriteLoop? || s.pc[p].WriteEnd?)
  {
    match s.pc[p]
    case WriteLoop(src, i) =>
      if i >= |src| then At(s, p, WriteEnd(src, i, false))
      else if !s.readopen || s.killed[p] then Returns(s, p, -1)
      else if Full(size, s) then
        At(s.(asleep := Woken(s.asleep, Data)[p := Some(Room)], lock := None), p, WriteAcquire(src, i))
      else if a == Go(true) then At(s, p, WriteEnd(src, i, true))
      else
        At(s.(data := s.data[Slot(size, s.nwrite) := src[i]], nwrite := Next32(s.nwrite), sent := s.sent + [src[i]],
              who := s.who + [p]),
           p, WriteLoop(src, i + 1))
    case WriteEnd(_, i, _) => Returns(s.(asleep := Woken(s.asleep, Data)), p, i)
  }

  /** piperead(): the wait for data, one turn of the copy loop, or its end. */
  function ReadStep(n: nat, size: nat, s: State, p: nat, a: Choice): (s': State)
    requires Sized(n, size, s) && p < n && (s.pc[p].ReadTest? || s.pc[p].ReadLoop? || s.pc[p].ReadEnd?)
  {
    match s.pc[p]
    case ReadTest(m) =>
      if Empty(s) && s.writeopen then
        if s.killed[p] then Returns(s, p, -1)
        else At(s.(asleep := s.asleep[p := Some(Data)], lock := None), p, ReadAcquire(m))
      else At(s, p, ReadLoop(m, 0))
    case ReadLoop(m, i) =>
      if i >= m || Empty(s) then At(s, p, ReadEnd(m, i, false))
      else
        var ch := s.data[Slot(size, s.nread)];
        var s1 := s.(nread := Next32(s.nread), got := s.got + [ch]);
        if a == Go(true) then At(s1, p, ReadEnd(m, i, true))
        else At(s1.(out := s.out[p := s.out[p] + [ch]]), p, ReadLoop(m, i + 1))
    case ReadEnd(_, i, _) => Returns(s.(asleep := Woken(s.asleep, Room)), p, i)
  }

  /** pipeclose(). */
  function CloseStep(n: nat, size: nat, s: State, p: nat): (s': State)
    requires Sized(n, size, s) && p < n && (s.pc[p].CloseNow? || s.pc[p].CloseEnd?)
  {
    match s.pc[p]
    case CloseNow(w) =>
      if w then At(s.(writeopen := false, asleep := Woken(s.asleep, Data)), p, CloseEnd(w))
      else At(s.(readopen := false, asleep := Woken(s.asleep, Room)), p, CloseEnd(w))
    case CloseEnd(_) => At(s.(lock := None), p, Idle)
  }

  predicate Acquires(pc: Pc) { pc.WriteAcquire? || pc.ReadAcquire? || pc.CloseAcquire? }

  function Acquired(pc: Pc): (r: Pc)
    requires Acquires(pc)
  {
    match pc
    case WriteAcquire(src, i) => WriteLoop(src, i)
    case ReadAcquire(m) => ReadTest(m)
    case CloseAcquire(w) => CloseNow(w)
  }

  predicate Reads(pc: Pc) { pc.ReadAcquire? || pc.ReadTest? || pc.ReadLoop? || pc.ReadEnd? }
  predicate Writes(pc: Pc) { pc.WriteAcquire? || pc.WriteLoop? || pc.WriteEnd? }

  /** A call holds a reference to its file, so an end of the pipe is closed only when no call uses it. */
  predicate MayClose(s: State, writable: bool) {
    forall q :: 0 <= q < |s.pc| ==> if writable then !Writes(s.pc[q]) else !Reads(s.pc[q])
  }

  /** The last reference to an end is gone and it is being closed. */
  predicate Closing(s: State, writable: bool) {
    exists q :: 0 <= q < |s.pc| && (s.pc[q] == CloseAcquire(writable) || s.pc[q] == CloseNow(writable))
  }

  predicate Can(n: nat, size: nat, s: State, e: Event)
    requires Sized(n, size, s)
  {
    match e
    case Run(p, a) =>
      && p < n && s.asleep[p].None? && (Acquires(s.pc[p]) ==> s.lock.None?)
      && (s.pc[p].Idle? && a.Close? ==> MayClose(s, a.writable) && !Closing(s, a.writable))
      && (s.pc[p].Idle? && a.Read? ==> !Closing(s, false))
      && (s.pc[p].Idle? && a.Write? ==> !Closing(s, true))
    case Kill(p) => p < n
  }

  function Apply(n: nat, size: nat, s: State, e: Event): (s': State)
    requires Sized(n, size, s) && Can(n, size, s, e)
  {
    match e
    case Run(p, a) =>
      var pc := s.pc[p];
      if pc.Idle? then
        match a
        case Write(src) => if s.writeopen then Calls(s, p, WriteAcquire(src, 0)) else s
        case Read(m) => if s.readopen then Calls(s, p, ReadAcquire(m)) else s
        case Close(w) => if (if w then s.writeopen else s.readopen) then At(s, p, CloseAcquire(w)) else s
        case Go(_) => s
      else if Acquires(pc) then At(s.(lock := Some(p)), p, Acquired(pc))
      else if pc.WriteLoop? || pc.WriteEnd? then WriteStep(n, size, s, p, a)
      else if pc.CloseNow? || pc.CloseEnd? then CloseStep(n, size, s, p)
      else ReadStep(n, size, s, p, a)
    case Kill(p) => s.(killed := s.killed[p := true], asleep := s.asleep[p := None])
  }

  // The invariant

  /** What was taken out is the start of what was put in, and the ring holds the rest. */
  ghost predicate StreamOk(size: nat, s: State)
    requires size > 0 && |s.data| == size
  {
    && size < WRAP && WRAP % size == 0
    && |s.got| <= |s.sent| && s.got == s.sent[..|s.got|] && |s.sent| - |s.got| <= size
    && s.nread == |s.got| % WRAP && s.nwrite == |s.sent| % WRAP
    && Holds(size, s.data, |s.got|, s.sent[|s.got|..])
  }

  predicate InSection(pc: Pc) { !pc.Idle? && !Acquires(pc) }

  ghost predicate LockOk(n: nat, s: State)
    requires |s.pc| == n
  {
    && (s.lock.Some? ==> s.lock.value < n)
    && (forall p :: 0 <= p < n ==> (s.lock == Some(p) <==> InSection(s.pc[p])))
  }

  /** The process that holds the lock is in the part of piperead or pipewrite that ends with a wakeup. */
  predicate ReaderBusy(s: State) {
    s.lock.Some? && s.lock.value < |s.pc| && (s.pc[s.lock.value].ReadLoop? || s.pc[s.lock.value].ReadEnd?)
  }

  predicate WriterBusy(s: State) {
    s.lock.Some? && s.lock.value < |s.pc| && (s.pc[s.lock.value].WriteLoop? || s.pc[s.lock.value].WriteEnd?)
  }

  ghost predicate SleepOk(size: nat, s: State, q: nat)
    requires q < |s.asleep| && q < |s.pc|
  {
    && (s.asleep[q] == Some(Room) ==>
         s.pc[q].WriteAcquire? && s.readopen && (|s.sent| == |s.got| + size || ReaderBusy(s)))
    && (s.asleep[q] == Some(Data) ==> s.pc[q].ReadAcquire? && s.writeopen)
  }

  ghost predicate Sleeps(n: nat, size: nat, s: State)
    requires Sized(n, size, s)
  {
    forall q :: 0 <= q < n ==> SleepOk(size, s, q)
  }

  ghost predicate ReadersOk(n: nat, s: State)
    requires |s.pc| == n
  {
    !s.readopen || Closing(s, false) ==> forall q :: 0 <= q < n ==> !Reads(s.pc[q])
  }

  ghost predicate Inv(n: nat, size: nat, s: State) {
    && Sized(n, size, s) && StreamOk(size, s) && LockOk(n, s) && Sleeps(n, size, s) && ReadersOk(n, s)
  }

  /** With 32-bit counters, the tests for a full and an empty pipe are exact. */
  lemma TestsAreExact(n: nat, size: nat, s: State)
    requires Sized(n, size, s) && StreamOk(size, s)
    ensures Full(size, s) <==> |s.sent| == |s.got| + size
    ensures Empty(s) <==> s.sent == s.got
  {
    hide Holds;
    var d := |s.sent| - |s.got|;
    if d > 0 {
      ModApart(WRAP, |s.got|, |s.sent|);
    }
    FullMod(|s.got|, size);
    if d < size {
      ModApart(WRAP, |s.sent|, |s.got| + size);
    }
    assert s.sent[..|s.sent|] == s.sent;
  }

  lemma FullMod(k: nat, size: nat)
    ensures (k % WRAP + size) % WRAP == (k + size) % WRAP
  {
  }

  lemma NextMod(k: nat)
    ensures Next32(k % WRAP) == (k + 1) % WRAP
  {
  }

  lemma PutByte(n: nat, size: nat, s: State, x: Byte)
    requires Sized(n, size, s) && StreamOk(size, s) && !Full(size, s)
    ensures var s' := s.(data := s.data[Slot(size, s.nwrite) := x], nwrite := Next32(s.nwrite), sent := s.sent + [x]);
            Sized(n, size, s') && StreamOk(size, s')
  {
    hide Holds, Slot, Full, Next32;
    TestsAreExact(n, size, s);
    ModMod(|s.sent|, WRAP, size);
    SlotOfIndex(size, |s.sent|);
    NextMod(|s.sent|);
    Append(size, s.data, |s.got|, s.sent[|s.got|..], x);
    assert (s.sent + [x])[|s.got|..] == s.sent[|s.got|..] + [x];
    assert (s.sent + [x])[..|s.got|] == s.sent[..|s.got|];
  }

  lemma SlotOfIndex(size: nat, k: nat)
    requires size > 0 && k % WRAP % size == k % size
    ensures Slot(size, k % WRAP) == Slot(size, k)
  {
  }

  lemma TakeByte(n: nat, size: nat, s: State)
    requires Sized(n, size, s) && StreamOk(size, s) && !Empty(s)
    ensures var s' := s.(nread := Next32(s.nread), got := s.got + [s.data[Slot(size, s.nread)]]);
            Sized(n, size, s') && StreamOk(size, s') && |s'.got| == |s.got| + 1
  {
    hide Holds, Slot, Full, Next32;
    TestsAreExact(n, size, s);
    ModMod(|s.got|, WRAP, size);
    SlotOfIndex(size, |s.got|);
    NextMod(|s.got|);
    Consume(size, s.data, |s.got|, s.sent[|s.got|..]);
    assert s.sent[|s.got|..][1..] == s.sent[|s.got| + 1..];
    assert s.sent[..|s.got| + 1] == s.sent[..|s.got|] + [s.sent[|s.got|]];
    assert s.sent[|s.got|..][0] == s.sent[|s.got|];
  }

  // Every step keeps the invariant

  /** A step that leaves the ring and its counters alone. */
  predicate SameStream(s: State, s': State) {
    && s'.data == s.data && s'.nread == s.nread && s'.nwrite == s.nwrite && s'.sent == s.sent && s'.got == s.got
  }

  lemma StreamKept(size: nat, s: State, s': State)
    requires size > 0 && |s.data| == size && StreamOk(size, s) && SameStream(s, s')
    ensures StreamOk(size, s')
  {
  }

  lemma ClosingAfter(n: nat, s: State, s': State, p: nat)
    requires |s.pc| == |s'.pc| == n && p < n && s'.pc == s.pc[p := s'.pc[p]]
    requires s'.pc[p] != CloseAcquire(false) && s'.pc[p] != CloseNow(false)
    ensures Closing(s', false) ==> Closing(s, false)
  {
    if Closing(s', false) {
      var q :| 0 <= q < |s'.pc| && (s'.pc[q] == CloseAcquire(false) || s'.pc[q] == CloseNow(false));
      assert s.pc[q] == s'.pc[q];
    }
  }

  lemma WriteStream(n: nat, size: nat, s: State, p: nat, a: Choice)
    requires Inv(n, size, s) && p < n && (s.pc[p].WriteLoop? || s.pc[p].WriteEnd?) && s.asleep[p].None?
    ensures Sized(n, size, WriteStep(n, size, s, p, a)) && StreamOk(size, WriteStep(n, size, s, p, a))
  {
    hide StreamOk, Holds, Slot, Full, Next32, Woken, Sleeps, LockOk, ReadersOk;
    var s' := WriteStep(n, size, s, p, a);
    if SameStream(s, s') {
      StreamKept(size, s, s');
    } else {
      PutByte(n, size, s, s.pc[p].src[s.pc[p].i]);
      StreamKept(size, s.(data := s'.data, nwrite := s'.nwrite, sent := s'.sent), s');
    }
  }

  lemma WriteLock(n: nat, size: nat, s: State, p: nat, a: Choice)
    requires Inv(n, size, s) && p < n && (s.pc[p].WriteLoop? || s.pc[p].WriteEnd?) && s.asleep[p].None?
    ensures Sized(n, size, WriteStep(n, size, s, p, a)) && LockOk(n, WriteStep(n, size, s, p, a))
  {
    hide StreamOk, Holds, Slot, Full, Next32, Woken, Sleeps, ReadersOk, Empty;
  }

  lemma WriteSleep(n: nat, size: nat, s: State, p: nat, a: Choice)
    requires Inv(n, size, s) && p < n && (s.pc[p].WriteLoop? || s.pc[p].WriteEnd?) && s.asleep[p].None?
    ensures Sized(n, size, WriteStep(n, size, s, p, a)) && Sleeps(n, size, WriteStep(n, size, s, p, a))
  {
    hide StreamOk, Holds, Slot, Full, Next32, Woken, Empty, ReadersOk, Reads, Writes, Closing;
    var s' := WriteStep(n, size, s, p, a);
    TestsAreExact(n, size, s);
    forall q | 0 <= q < n
      ensures SleepOk(size, s', q)
    {
      assert SleepOk(size, s, q);
    }
  }

  lemma WriteShape(n: nat, size: nat, s: State, p: nat, a: Choice)
    requires Sized(n, size, s) && p < n && (s.pc[p].WriteLoop? || s.pc[p].WriteEnd?)
    ensures var s' := WriteStep(n, size, s, p, a);
            && Sized(n, size, s') && s'.pc == s.pc[p := s'.pc[p]] && s'.readopen == s.readopen
                 && s'.writeopen == s.writeopen
            && (s'.pc[p].Idle? || Writes(s'.pc[p]))
  {
    hide Slot, Full, Next32, Woken;
  }

  lemma WriteReaders(n: nat, size: nat, s: State, p: nat, a: Choice)
    requires Inv(n, size, s) && p < n && (s.pc[p].WriteLoop? || s.pc[p].WriteEnd?) && s.asleep[p].None?
    ensures Sized(n, size, WriteStep(n, size, s, p, a)) && ReadersOk(n, WriteStep(n, size, s, p, a))
  {
    hide StreamOk, Sleeps, LockOk, WriteStep;
    var s' := WriteStep(n, size, s, p, a);
    WriteShape(n, size, s, p, a);
    ClosingAfter(n, s, s', p);
  }

  lemma ReadStream(n: nat, size: nat, s: State, p: nat, a: Choice)
    requires Inv(n, size, s) && p < n && (s.pc[p].ReadTest? || s.pc[p].ReadLoop? || s.pc[p].ReadEnd?)
             && s.asleep[p].None?
    ensures Sized(n, size, ReadStep(n, size, s, p, a)) && StreamOk(size, ReadStep(n, size, s, p, a))
  {
    hide StreamOk, Holds, Slot, Full, Next32, Woken, Sleeps, LockOk, ReadersOk;
    var s' := ReadStep(n, size, s, p, a);
    if SameStream(s, s') {
      StreamKept(size, s, s');
    } else {
      TakeByte(n, size, s);
      StreamKept(size, s.(nread := s'.nread, got := s'.got), s');
    }
  }

  lemma ReadLock(n: nat, size: nat, s: State, p: nat, a: Choice)
    requires Inv(n, size, s) && p < n && (s.pc[p].ReadTest? || s.pc[p].ReadLoop? || s.pc[p].ReadEnd?)
             && s.asleep[p].None?
    ensures Sized(n, size, ReadStep(n, size, s, p, a)) && LockOk(n, ReadStep(n, size, s, p, a))
  {
    hide StreamOk, Holds, Slot, Full, Next32, Woken, Sleeps, ReadersOk, Empty;
  }

  lemma ReadSleep(n: nat, size: nat, s: State, p: nat, a: Choice)
    requires Inv(n, size, s) && p < n && (s.pc[p].ReadTest? || s.pc[p].ReadLoop? || s.pc[p].ReadEnd?)
             && s.asleep[p].None?
    ensures Sized(n, size, ReadStep(n, size, s, p, a)) && Sleeps(n, size, ReadStep(n, size, s, p, a))
  {
    hide StreamOk, Holds, Slot, Full, Next32, Woken, Empty, ReadersOk, Reads, Writes, Closing;
    var s' := ReadStep(n, size, s, p, a);
    TestsAreExact(n, size, s);
    forall q | 0 <= q < n
      ensures SleepOk(size, s', q)
    {
      assert SleepOk(size, s, q);
    }
  }

  lemma ReadShape(n: nat, size: nat, s: State, p: nat, a: Choice)
    requires Sized(n, size, s) && p < n && (s.pc[p].ReadTest? || s.pc[p].ReadLoop? || s.pc[p].ReadEnd?)
    ensures var s' := ReadStep(n, size, s, p, a);
            && Sized(n, size, s') && s'.pc == s.pc[p := s'.pc[p]] && s'.readopen == s.readopen
                 && s'.writeopen == s.writeopen
            && (s'.pc[p].Idle? || Reads(s'.pc[p]))
  {
    hide Slot, Full, Next32, Woken;
  }

  lemma ReadReaders(n: nat, size: nat, s: State, p: nat, a: Choice)
    requires Inv(n, size, s) && p < n && (s.pc[p].ReadTest? || s.pc[p].ReadLoop? || s.pc[p].ReadEnd?)
             && s.asleep[p].None?
    ensures Sized(n, size, ReadStep(n, size, s, p, a)) && ReadersOk(n, ReadStep(n, size, s, p, a))
  {
    hide StreamOk, Sleeps, LockOk, ReadStep;
    var s' := ReadStep(n, size, s, p, a);
    ReadShape(n, size, s, p, a);
    ClosingAfter(n, s, s', p);
  }

  lemma WriteKeeps(n: nat, size: nat, s: State, p: nat, a: Choice)
    requires Inv(n, size, s) && p < n && (s.pc[p].WriteLoop? || s.pc[p].WriteEnd?) && s.asleep[p].None?
    ensures Inv(n, size, WriteStep(n, size, s, p, a))
  {
    hide StreamOk, LockOk, Sleeps, ReadersOk, WriteStep;
    WriteStream(n, size, s, p, a);
    WriteLock(n, size, s, p, a);
    WriteSleep(n, size, s, p, a);
    WriteReaders(n, size, s, p, a);
  }

  lemma ReadKeeps(n: nat, size: nat, s: State, p: nat, a: Choice)
    requires Inv(n, size, s) && p < n && (s.pc[p].ReadTest? || s.pc[p].ReadLoop? || s.pc[p].ReadEnd?)
             && s.asleep[p].None?
    ensures Inv(n, size, ReadStep(n, size, s, p, a))
  {
    hide StreamOk, LockOk, Sleeps, ReadersOk, ReadStep;
    ReadStream(n, size, s, p, a);
    ReadLock(n, size, s, p, a);
    ReadSleep(n, size, s, p, a);
    ReadReaders(n, size, s, p, a);
  }

  /** The steps outside the loops of pipewrite and piperead. */
  predicate Simple(pc: Pc) { pc.Idle? || Acquires(pc) || pc.CloseNow? || pc.CloseEnd? }

  lemma SimpleShape(n: nat, size: nat, s: State, p: nat, a: Choice)
    requires Sized(n, size, s) && Can(n, size, s, Run(p, a)) && Simple(s.pc[p])
    ensures var s' := Apply(n, size, s, Run(p, a));
            && Sized(n, size, s') && SameStream(s, s') && s'.pc == s.pc[p := s'.pc[p]]
            && s'.killed == s.killed
  {
    hide Woken, Closing, MayClose;
  }

  lemma SimpleLock(n: nat, size: nat, s: State, p: nat, a: Choice)
    requires Inv(n, size, s) && Can(n, size, s, Run(p, a)) && Simple(s.pc[p])
    ensures Sized(n, size, Apply(n, size, s, Run(p, a)))
    ensures LockOk(n, Apply(n, size, s, Run(p, a)))
  {
    hide StreamOk, Sleeps, ReadersOk, Woken, Closing, MayClose, Reads, Writes;
  }

  lemma SimpleSleep(n: nat, size: nat, s: State, p: nat, a: Choice)
    requires Inv(n, size, s) && Can(n, size, s, Run(p, a)) && Simple(s.pc[p])
    ensures Sized(n, size, Apply(n, size, s, Run(p, a))) && Sleeps(n, size, Apply(n, size, s, Run(p, a)))
  {
    hide StreamOk, ReadersOk, Woken, Closing, MayClose, Reads, Writes;
    var s' := Apply(n, size, s, Run(p, a));
    forall q | 0 <= q < n
      ensures SleepOk(size, s', q)
    {
      assert SleepOk(size, s, q);
    }
  }

  lemma SimpleReaders(n: nat, size: nat, s: State, p: nat, a: Choice)
    requires Inv(n, size, s) && Can(n, size, s, Run(p, a)) && Simple(s.pc[p])
    ensures Sized(n, size, Apply(n, size, s, Run(p, a))) && ReadersOk(n, Apply(n, size, s, Run(p, a)))
  {
    hide StreamOk, Sleeps, Woken, LockOk;
    var s' := Apply(n, size, s, Run(p, a));
    if s.pc[p] == CloseAcquire(false) || s.pc[p] == CloseNow(false) {
      assert Closing(s, false);
    }
    if s'.pc[p] != CloseAcquire(false) && s'.pc[p] != CloseNow(false) {
      ClosingAfter(n, s, s', p);
    }
  }

  lemma KillKeeps(n: nat, size: nat, s: State, p: nat)
    requires Inv(n, size, s) && p < n
    ensures Inv(n, size, Apply(n, size, s, Kill(p)))
  {
    hide StreamOk, ReadersOk, LockOk;
    var s' := Apply(n, size, s, Kill(p));
    StreamKept(size, s, s');
    forall q | 0 <= q < n
      ensures SleepOk(size, s', q)
    {
      assert SleepOk(size, s, q);
    }
    KillRest(n, size, s, p);
  }

  lemma KillRest(n: nat, size: nat, s: State, p: nat)
    requires Inv(n, size, s) && p < n
    ensures LockOk(n, Apply(n, size, s, Kill(p))) && ReadersOk(n, Apply(n, size, s, Kill(p)))
  {
    hide StreamOk, Sleeps;
    assert Closing(Apply(n, size, s, Kill(p)), false) ==> Closing(s, false);
  }

  lemma StepKeepsInv(n: nat, size: nat, s: State, e: Event)
    requires Inv(n, size, s) && Can(n, size, s, e)
    ensures Inv(n, size, Apply(n, size, s, e))
  {
    hide StreamOk, LockOk, Sleeps, ReadersOk, WriteStep, ReadStep, CloseStep;
    match e
    case Run(p, a) =>
      if s.pc[p].WriteLoop? || s.pc[p].WriteEnd? {
        WriteKeeps(n, size, s, p, a);
      } else if s.pc[p].ReadTest? || s.pc[p].ReadLoop? || s.pc[p].ReadEnd? {
        ReadKeeps(n, size, s, p, a);
      } else {
        SimpleShape(n, size, s, p, a);
        StreamKept(size, s, Apply(n, size, s, e));
        SimpleLock(n, size, s, p, a);
        SimpleSleep(n, size, s, p, a);
        SimpleReaders(n, size, s, p, a);
      }
    case Kill(p) => KillKeeps(n, size, s, p);
  }

  // Whole runs

  ghost predicate Init(n: nat, size: nat, s: State) {
    && Sized(n, size, s) && size < WRAP && WRAP % size == 0
    && s.nread == 0 && s.nwrite == 0 && s.readopen && s.writeopen && s.lock.None?
    && s.sent == [] && s.who == [] && s.got == []
    && (forall p :: 0 <= p < n ==> s.pc[p].Idle? && s.asleep[p].None? && !s.killed[p])
  }

  ghost predicate RunFrom(n: nat, size: nat, s: State, run: seq<Event>)
    decreases |run|
  {
    run != [] ==> Sized(n, size, s) && Can(n, size, s, run[0]) && RunFrom(n, size, Apply(n, size, s, run[0]), run[1..])
  }

  ghost function After(n: nat, size: nat, s: State, run: seq<Event>): (s': State)
    requires RunFrom(n, size, s, run)
    decreases |run|
  {
    if run == [] then s else After(n, size, Apply(n, size, s, run[0]), run[1..])
  }

  lemma InitHasInv(n: nat, size: nat, s: State)
    requires Init(n, size, s)
    ensures Inv(n, size, s)
  {
    assert s.sent[..0] == [] && s.sent[0..] == [];
  }

  lemma {:induction false} RunKeepsInv(n: nat, size: nat, s: State, run: seq<Event>)
    requires Inv(n, size, s) && RunFrom(n, size, s, run)
    ensures Inv(n, size, After(n, size, s, run))
    decreases |run|
  {
    hide Inv, Apply, Can;
    if run != [] {
      StepKeepsInv(n, size, s, run[0]);
      RunKeepsInv(n, size, Apply(n, size, s, run[0]), run[1..]);
    }
  }

  /** In every run, the bytes read are the first of the bytes written, in order, and at most size bytes
      are under way. */
  lemma BytesInOrder(n: nat, size: nat, s0: State, run: seq<Event>)
    requires Init(n, size, s0) && RunFrom(n, size, s0, run)
    ensures var s := After(n, size, s0, run); s.got <= s.sent && |s.sent| - |s.got| <= size
  {
    InitHasInv(n, size, s0);
    RunKeepsInv(n, size, s0, run);
  }

  // What one call does

  /** The bytes from position k on that process p put. */
  function PutBy(sent: seq<Byte>, who: seq<nat>, p: nat, k: nat): (q: seq<Byte>)
    requires |who| == |sent|
    decreases |sent|
  {
    if |sent| <= k then [] else
      var m := |sent| - 1;
      PutBy(sent[..m], who[..m], p, k) + (if who[m] == p then [sent[m]] else [])
  }

  lemma PutByMore(sent: seq<Byte>, who: seq<nat>, p: nat, k: nat, x: Byte, q: nat)
    requires |who| == |sent| && k <= |sent|
    ensures PutBy(sent + [x], who + [q], p, k) == PutBy(sent, who, p, k) + (if q == p then [x] else [])
  {
    assert (sent + [x])[..|sent|] == sent && (who + [q])[..|sent|] == who;
  }

  /** The call of p has put exactly the first i bytes of src into the pipe. */
  ghost predicate HasPut(n: nat, s: State, p: nat, src: seq<Byte>, i: nat)
    requires |s.start| == n && |s.who| == |s.sent| && p < n
  {
    i <= |src| && s.start[p] <= |s.sent| && PutBy(s.sent, s.who, p, s.start[p]) == src[..i]
  }

  /** The call of p has copied the last i bytes taken out of the pipe, apart from the very last if that copy failed. */
  ghost predicate HasTaken(n: nat, s: State, p: nat, m: nat, i: nat, failed: bool)
    requires |s.out| == n && p < n
  {
    var k := |s.got| - (if failed then 1 else 0);
    && i <= m && i <= k && |s.out[p]| == i && s.out[p] == s.got[k - i..k]
    && (failed ==> i < m)
  }

  ghost predicate CallOk(n: nat, s: State, p: nat)
    requires |s.pc| == |s.start| == |s.out| == n && |s.who| == |s.sent| && p < n
  {
    match s.pc[p]
    case WriteAcquire(src, i) => HasPut(n, s, p, src, i)
    case WriteLoop(src, i) => HasPut(n, s, p, src, i)
    case WriteEnd(src, i, failed) => HasPut(n, s, p, src, i) && (failed <==> i < |src|)
    case ReadAcquire(_) => s.out[p] == []
    case ReadTest(_) => s.out[p] == []
    case ReadLoop(m, i) => HasTaken(n, s, p, m, i, false) && (i == 0 ==> s.sent != s.got || !s.writeopen)
    case ReadEnd(m, i, failed) =>
      && HasTaken(n, s, p, m, i, failed)
      && (!failed && i < m ==> s.sent == s.got && (i == 0 ==> !s.writeopen))
    case CloseEnd(w) => if w then !s.writeopen else !s.readopen
    case _ => true
  }

  ghost predicate CallsOk(n: nat, size: nat, s: State)
    requires Sized(n, size, s)
  {
    |s.who| == |s.sent| && forall p :: 0 <= p < n ==> CallOk(n, s, p)
  }

  /** What a step of p may do to the records: only a writer puts a byte, only a reader takes one, and only a close
      closes an end. */
  ghost predicate Recorded(n: nat, s: State, p: nat, s': State)
    requires |s.pc| == |s.start| == |s.out| == n && |s'.pc| == |s'.start| == |s'.out| == n && p < n
  {
    && s'.pc == s.pc[p := s'.pc[p]] && s'.start == s.start[p := s'.start[p]] && s'.out == s.out[p := s'.out[p]]
    && (if s.pc[p].WriteLoop? && s.pc[p].i < |s.pc[p].src| && s'.sent != s.sent then
          s'.sent == s.sent + [s.pc[p].src[s.pc[p].i]] && s'.who == s.who + [p]
        else s'.sent == s.sent && s'.who == s.who)
    && (!s.pc[p].ReadLoop? ==> s'.got == s.got)
    && (!s.pc[p].CloseNow? ==> s'.writeopen == s.writeopen && s'.readopen == s.readopen)
    && (s'.writeopen ==> s.writeopen) && (s'.readopen ==> s.readopen)
  }

  lemma WriteRecords(n: nat, size: nat, s: State, p: nat, a: Choice)
    requires Sized(n, size, s) && p < n && (s.pc[p].WriteLoop? || s.pc[p].WriteEnd?)
    ensures Sized(n, size, WriteStep(n, size, s, p, a)) && Recorded(n, s, p, WriteStep(n, size, s, p, a))
  {
    hide Full, Slot, Next32, Woken;
  }

  lemma ReadRecords(n: nat, size: nat, s: State, p: nat, a: Choice)
    requires Sized(n, size, s) && p < n && (s.pc[p].ReadTest? || s.pc[p].ReadLoop? || s.pc[p].ReadEnd?)
    ensures Sized(n, size, ReadStep(n, size, s, p, a)) && Recorded(n, s, p, ReadStep(n, size, s, p, a))
  {
    hide Empty, Slot, Next32, Woken;
  }

  lemma SimpleRecords(n: nat, size: nat, s: State, p: nat, a: Choice)
    requires Sized(n, size, s) && Can(n, size, s, Run(p, a)) && Simple(s.pc[p])
    ensures Sized(n, size, Apply(n, size, s, Run(p, a))) && Recorded(n, s, p, Apply(n, size, s, Run(p, a)))
  {
    hide Woken, Closing, MayClose;
  }

  lemma StepRecords(n: nat, size: nat, s: State, p: nat, a: Choice)
    requires Sized(n, size, s) && p < n && Can(n, size, s, Run(p, a))
    ensures Sized(n, size, Apply(n, size, s, Run(p, a))) && Recorded(n, s, p, Apply(n, size, s, Run(p, a)))
  {
    hide Recorded, WriteStep, ReadStep, CloseStep, Can;
    if s.pc[p].WriteLoop? || s.pc[p].WriteEnd? {
      WriteRecords(n, size, s, p, a);
    } else if s.pc[p].ReadTest? || s.pc[p].ReadLoop? || s.pc[p].ReadEnd? {
      ReadRecords(n, size, s, p, a);
    } else {
      SimpleRecords(n, size, s, p, a);
    }
  }

  lemma CallKept(n: nat, s: State, s': State, q: nat)
    requires |s.pc| == |s.start| == |s.out| == n && |s'.pc| == |s'.start| == |s'.out| == n && q < n
    requires |s.who| == |s.sent| && CallOk(n, s, q)
    requires s'.pc[q] == s.pc[q] && s'.start[q] == s.start[q] && s'.out[q] == s.out[q]
    requires s'.sent == s.sent && s'.who == s.who && s'.got == s.got
    requires s'.writeopen == s.writeopen && s'.readopen == s.readopen
    ensures CallOk(n, s', q)
  {
    hide PutBy;
  }

  /** The call of another process is not disturbed. */
  lemma CallOther(n: nat, size: nat, s: State, p: nat, a: Choice, q: nat)
    requires Inv(n, size, s) && CallsOk(n, size, s) && p < n && Can(n, size, s, Run(p, a)) && q < n && q != p
    ensures var s' := Apply(n, size, s, Run(p, a));
            Sized(n, size, s') && |s'.who| == |s'.sent| && CallOk(n, s', q)
  {
    hide StreamOk, Sleeps, ReadersOk, Apply, Can, PutBy, HasPut, HasTaken;
    var s' := Apply(n, size, s, Run(p, a));
    StepRecords(n, size, s, p, a);
    assert s'.pc[q] == s.pc[q] && s'.start[q] == s.start[q] && s'.out[q] == s.out[q];
    assert CallOk(n, s, q);
    if InSection(s.pc[q]) {
      assert s.lock == Some(q) && !InSection(s.pc[p]);
      CallKept(n, s, s', q);
    } else if s.pc[q].WriteAcquire? {
      PutKept(n, s, s', p, q, s.pc[q].src, s.pc[q].i);
    }
  }

  /** Bytes that another process puts do not count. */
  lemma PutKept(n: nat, s: State, s': State, p: nat, q: nat, src: seq<Byte>, i: nat)
    requires |s.pc| == |s.start| == |s.out| == n && |s'.pc| == |s'.start| == |s'.out| == n && p < n && q < n && q != p
    requires |s.who| == |s.sent| && Recorded(n, s, p, s') && HasPut(n, s, q, src, i)
    ensures |s'.who| == |s'.sent| && HasPut(n, s', q, src, i)
  {
    hide PutBy;
    if s'.sent != s.sent {
      PutByMore(s.sent, s.who, q, s.start[q], s.pc[p].src[s.pc[p].i], p);
    }
  }

  lemma CallSelf(n: nat, size: nat, s: State, p: nat, a: Choice)
    requires Inv(n, size, s) && CallsOk(n, size, s) && p < n && Can(n, size, s, Run(p, a))
    ensures var s' := Apply(n, size, s, Run(p, a));
            Sized(n, size, s') && |s'.who| == |s'.sent| && CallOk(n, s', p)
  {
    hide LockOk, Sleeps, ReadersOk, StreamOk, Apply, Can, WriteStep, ReadStep;
    StepRecords(n, size, s, p, a);
    if s.pc[p].WriteLoop? || s.pc[p].WriteEnd? {
      WriteCall(n, size, s, p, a);
    } else if s.pc[p].ReadTest? || s.pc[p].ReadLoop? || s.pc[p].ReadEnd? {
      ReadCall(n, size, s, p, a);
    } else {
      SimpleCall(n, size, s, p, a);
    }
  }

  lemma SimpleCall(n: nat, size: nat, s: State, p: nat, a: Choice)
    requires Inv(n, size, s) && CallsOk(n, size, s) && Can(n, size, s, Run(p, a)) && Simple(s.pc[p])
    ensures var s' := Apply(n, size, s, Run(p, a));
            Sized(n, size, s') && |s'.who| == |s'.sent| && CallOk(n, s', p)
  {
    hide LockOk, Sleeps, ReadersOk, StreamOk, Woken, Closing, MayClose;
    assert CallOk(n, s, p);
  }

  lemma WriteCall(n: nat, size: nat, s: State, p: nat, a: Choice)
    requires Inv(n, size, s) && CallsOk(n, size, s) && Can(n, size, s, Run(p, a))
    requires s.pc[p].WriteLoop? || s.pc[p].WriteEnd?
    ensures var s' := Apply(n, size, s, Run(p, a));
            Sized(n, size, s') && |s'.who| == |s'.sent| && CallOk(n, s', p)
  {
    hide LockOk, Sleeps, ReadersOk, StreamOk, Woken, Closing, MayClose, Slot, Full, Next32, PutBy;
    assert CallOk(n, s, p);
    if s.pc[p].WriteLoop? && s.pc[p].i < |s.pc[p].src| {
      var src, i := s.pc[p].src, s.pc[p].i;
      PutByMore(s.sent, s.who, p, s.start[p], src[i], p);
      assert src[..i] + [src[i]] == src[..i + 1];
    }
  }

  lemma ReadCall(n: nat, size: nat, s: State, p: nat, a: Choice)
    requires Inv(n, size, s) && CallsOk(n, size, s) && Can(n, size, s, Run(p, a))
    requires s.pc[p].ReadTest? || s.pc[p].ReadLoop? || s.pc[p].ReadEnd?
    ensures var s' := Apply(n, size, s, Run(p, a));
            Sized(n, size, s') && |s'.who| == |s'.sent| && CallOk(n, s', p)
  {
    hide LockOk, Sleeps, ReadersOk, StreamOk, Woken, Closing, MayClose, Slot, Empty, Next32, HasTaken;
    assert CallOk(n, s, p);
    TestsAreExact(n, size, s);
    var s' := Apply(n, size, s, Run(p, a));
    if s.pc[p].ReadTest? {
      TakenNone(n, s', p, s.pc[p].n);
    } else if s.pc[p].ReadLoop? {
      var m, i := s.pc[p].n, s.pc[p].i;
      if i < m && !Empty(s) {
        TakenMore(n, s, s', p, m, i, s.data[Slot(size, s.nread)]);
      } else {
        TakenSame(n, s, s', p, m, i);
      }
    }
  }

  lemma TakenNone(n: nat, s: State, p: nat, m: nat)
    requires |s.out| == n && p < n && s.out[p] == []
    ensures HasTaken(n, s, p, m, 0, false)
  {
  }

  lemma TakenSame(n: nat, s: State, s': State, p: nat, m: nat, i: nat)
    requires |s.out| == |s'.out| == n && p < n && s'.out == s.out && s'.got == s.got
    ensures HasTaken(n, s, p, m, i, false) ==> HasTaken(n, s', p, m, i, false)
  {
  }

  lemma TakenMore(n: nat, s: State, s': State, p: nat, m: nat, i: nat, x: Byte)
    requires |s.out| == |s'.out| == n && p < n && HasTaken(n, s, p, m, i, false) && i < m && s'.got == s.got + [x]
    ensures s'.out[p] == s.out[p] ==> HasTaken(n, s', p, m, i, true)
    ensures s'.out[p] == s.out[p] + [x] ==> HasTaken(n, s', p, m, i + 1, false)
  {
    assert s'.got[|s.got| - i..|s.got|] == s.got[|s.got| - i..|s.got|];
    assert s'.got[|s.got| - i..|s.got| + 1] == s.got[|s.got| - i..|s.got|] + [x];
  }

  lemma StepKeepsCalls(n: nat, size: nat, s: State, e: Event)
    requires Inv(n, size, s) && CallsOk(n, size, s) && Can(n, size, s, e)
    ensures Sized(n, size, Apply(n, size, s, e)) && CallsOk(n, size, Apply(n, size, s, e))
  {
    hide StreamOk, LockOk, Sleeps, ReadersOk, WriteStep, ReadStep, CloseStep, CallOk;
    match e
    case Run(p, a) =>
      CallSelf(n, size, s, p, a);
      forall q | 0 <= q < n
        ensures CallOk(n, Apply(n, size, s, e), q)
      {
        if q != p {
          CallOther(n, size, s, p, a, q);
        }
      }
    case Kill(p) =>
      KillCalls(n, size, s, p);
  }

  lemma KillCalls(n: nat, size: nat, s: State, p: nat)
    requires Inv(n, size, s) && CallsOk(n, size, s) && p < n
    ensures Sized(n, size, Apply(n, size, s, Kill(p))) && CallsOk(n, size, Apply(n, size, s, Kill(p)))
  {
    hide StreamOk, LockOk, Sleeps, ReadersOk, CallOk;
    forall q | 0 <= q < n
      ensures CallOk(n, Apply(n, size, s, Kill(p)), q)
    {
      CallKept(n, s, Apply(n, size, s, Kill(p)), q);
    }
  }

  lemma {:induction false} RunKeepsCalls(n: nat, size: nat, s: State, run: seq<Event>)
    requires Inv(n, size, s) && CallsOk(n, size, s) && RunFrom(n, size, s, run)
    ensures Inv(n, size, After(n, size, s, run)) && CallsOk(n, size, After(n, size, s, run))
    decreases |run|
  {
    hide Apply, Can, StreamOk, LockOk, Sleeps, ReadersOk, CallsOk;
    if run != [] {
      StepKeepsInv(n, size, s, run[0]);
      StepKeepsCalls(n, size, s, run[0]);
      RunKeepsCalls(n, size, Apply(n, size, s, run[0]), run[1..]);
    }
  }

  lemma ReachedCalls(n: nat, size: nat, s0: State, run: seq<Event>)
    requires Init(n, size, s0) && RunFrom(n, size, s0, run)
    ensures Inv(n, size, After(n, size, s0, run)) && CallsOk(n, size, After(n, size, s0, run))
  {
    InitHasInv(n, size, s0);
    RunKeepsCalls(n, size, s0, run);
  }

  /** In every run, a pipewrite() call has at any time put the first i bytes of its source into the pipe, each once
      and in order, however often it slept and whatever others wrote in between; if it ends without a failed copy,
      it has put all of them. */
  lemma WriterPutsItsBytes(n: nat, size: nat, s0: State, run: seq<Event>, p: nat)
    requires Init(n, size, s0) && RunFrom(n, size, s0, run) && p < n
    ensures var s := After(n, size, s0, run);
            && Sized(n, size, s) && |s.who| == |s.sent|
            && (Writes(s.pc[p]) ==> HasPut(n, s, p, s.pc[p].src, s.pc[p].i))
            && (s.pc[p].WriteEnd? ==> (s.pc[p].failed <==> s.pc[p].i < |s.pc[p].src|))
  {
    hide StreamOk, LockOk, Sleeps, ReadersOk, RunFrom, After;
    ReachedCalls(n, size, s0, run);
    assert CallOk(n, After(n, size, s0, run), p);
  }

  /** In every run, a piperead() call has copied the last i bytes that left the pipe. If it ends with fewer than asked
      for and no copy has failed, the pipe is empty; with none, its write end is closed, too. */
  lemma ReaderTakesItsBytes(n: nat, size: nat, s0: State, run: seq<Event>, p: nat)
    requires Init(n, size, s0) && RunFrom(n, size, s0, run) && p < n
    ensures var s := After(n, size, s0, run);
            && Sized(n, size, s)
            && (s.pc[p].ReadLoop? ==> HasTaken(n, s, p, s.pc[p].n, s.pc[p].i, false))
            && (s.pc[p].ReadEnd? ==>
                  && HasTaken(n, s, p, s.pc[p].n, s.pc[p].i, s.pc[p].failed)
                  && (!s.pc[p].failed && s.pc[p].i < s.pc[p].n ==> Empty(s) && (s.pc[p].i == 0 ==> !s.writeopen)))
  {
    hide StreamOk, LockOk, Sleeps, ReadersOk, RunFrom, After, Empty;
    ReachedCalls(n, size, s0, run);
    assert CallOk(n, After(n, size, s0, run), p);
    TestsAreExact(n, size, After(n, size, s0, run));
  }

  /** How calls end, in every run: with the number of bytes, or with -1, which is so for pipewrite() exactly if the read
      end is closed or the caller killed before all is written, and for piperead() exactly if the caller is killed and
      would have to wait. Nobody else's result changes. */
  lemma CallReturns(n: nat, size: nat, s0: State, run: seq<Event>, p: nat, a: Choice)
    requires Init(n, size, s0) && RunFrom(n, size, s0, run) && p < n
    requires Sized(n, size, After(n, size, s0, run)) && Can(n, size, After(n, size, s0, run), Run(p, a))
    ensures var s := After(n, size, s0, run);
            Sized(n, size, Apply(n, size, s, Run(p, a))) && EndsRight(n, size, s, p, Apply(n, size, s, Run(p, a)))
  {
    hide RunFrom, After, Init, EndsRight, WriteStep, ReadStep, CloseStep, Can;
    var s := After(n, size, s0, run);
    if s.pc[p].WriteLoop? || s.pc[p].WriteEnd? {
      WriteEndsRight(n, size, s, p, a);
    } else if s.pc[p].ReadTest? || s.pc[p].ReadLoop? || s.pc[p].ReadEnd? {
      ReadEndsRight(n, size, s, p, a);
    } else {
      SimpleEndsRight(n, size, s, p, a);
    }
  }

  predicate EndsRight(n: nat, size: nat, s: State, p: nat, s': State)
    requires Sized(n, size, s) && Sized(n, size, s') && p < n
  {
    && s'.ret == s.ret[p := s'.ret[p]]
    && match s.pc[p]
       case WriteEnd(_, i, _) => s'.pc[p].Idle? && s'.ret[p] == i
       case ReadEnd(_, i, _) => s'.pc[p].Idle? && s'.ret[p] == i
       case WriteLoop(src, i) =>
         && (s'.pc[p].Idle? <==> i < |src| && (!s.readopen || s.killed[p]))
         && s'.ret[p] == if s'.pc[p].Idle? then -1 else s.ret[p]
       case ReadTest(_) =>
         && (s'.pc[p].Idle? <==> Empty(s) && s.writeopen && s.killed[p])
         && s'.ret[p] == if s'.pc[p].Idle? then -1 else s.ret[p]
       case _ => s'.ret[p] == s.ret[p] && (s'.pc[p].Idle? ==> s.pc[p].Idle? || s.pc[p].CloseEnd?)
  }

  lemma WriteEndsRight(n: nat, size: nat, s: State, p: nat, a: Choice)
    requires Sized(n, size, s) && p < n && (s.pc[p].WriteLoop? || s.pc[p].WriteEnd?)
    ensures Sized(n, size, WriteStep(n, size, s, p, a)) && EndsRight(n, size, s, p, WriteStep(n, size, s, p, a))
  {
    hide Full, Slot, Next32, Woken;
  }

  lemma ReadEndsRight(n: nat, size: nat, s: State, p: nat, a: Choice)
    requires Sized(n, size, s) && p < n && (s.pc[p].ReadTest? || s.pc[p].ReadLoop? || s.pc[p].ReadEnd?)
    ensures Sized(n, size, ReadStep(n, size, s, p, a)) && EndsRight(n, size, s, p, ReadStep(n, size, s, p, a))
  {
    hide Empty, Slot, Next32, Woken;
  }

  lemma SimpleEndsRight(n: nat, size: nat, s: State, p: nat, a: Choice)
    requires Sized(n, size, s) && Can(n, size, s, Run(p, a)) && Simple(s.pc[p])
    ensures Sized(n, size, Apply(n, size, s, Run(p, a))) && EndsRight(n, size, s, p, Apply(n, size, s, Run(p, a)))
  {
    hide Woken, Closing, MayClose;
  }

  /** No copy of process p fails in the run. */
  predicate CopiesSucceed(run: seq<Event>, p: nat) {
    forall i | 0 <= i < |run| :: run[i].Run? && run[i].p == p ==> run[i].a != Go(true)
  }

  predicate Failed(pc: Pc) { (pc.WriteEnd? || pc.ReadEnd?) && pc.failed }

  /** A call ends as failed only if a copy of its caller fails. */
  lemma {:induction false} FailsOnlyByCopy(n: nat, size: nat, s: State, run: seq<Event>, p: nat)
    requires Inv(n, size, s) && RunFrom(n, size, s, run) && p < n && !Failed(s.pc[p]) && CopiesSucceed(run, p)
    ensures Sized(n, size, After(n, size, s, run)) && !Failed(After(n, size, s, run).pc[p])
    decreases |run|
  {
    hide StreamOk, LockOk, Sleeps, ReadersOk, Apply, Can, Failed;
    if run != [] {
      StepKeepsInv(n, size, s, run[0]);
      StepNotFailed(n, size, s, run[0], p);
      FailsOnlyByCopy(n, size, Apply(n, size, s, run[0]), run[1..], p);
    }
  }

  lemma StepNotFailed(n: nat, size: nat, s: State, e: Event, p: nat)
    requires Inv(n, size, s) && Can(n, size, s, e) && p < n && !Failed(s.pc[p])
    requires e.Run? && e.p == p ==> e.a != Go(true)
    ensures Sized(n, size, Apply(n, size, s, e)) && !Failed(Apply(n, size, s, e).pc[p])
  {
    hide StreamOk, LockOk, Sleeps, ReadersOk, WriteStep, ReadStep, CloseStep, Failed, Closing, MayClose, Recorded;
    if e.Run? && e.p < n {
      if e.p != p {
        StepRecords(n, size, s, e.p, e.a);
        PcOfOther(n, s, e.p, Apply(n, size, s, e), p);
      } else if s.pc[p].WriteLoop? || s.pc[p].WriteEnd? {
        WriteNotFailed(n, size, s, p, e.a);
      } else if s.pc[p].ReadTest? || s.pc[p].ReadLoop? || s.pc[p].ReadEnd? {
        ReadNotFailed(n, size, s, p, e.a);
      } else {
        SimpleNotFailed(n, size, s, p, e.a);
      }
    }
  }

  lemma PcOfOther(n: nat, s: State, p: nat, s': State, q: nat)
    requires |s.pc| == |s.start| == |s.out| == n && |s'.pc| == |s'.start| == |s'.out| == n && p < n && q < n && q != p
    requires Recorded(n, s, p, s')
    ensures s'.pc[q] == s.pc[q]
  {
  }

  lemma WriteNotFailed(n: nat, size: nat, s: State, p: nat, a: Choice)
    requires Sized(n, size, s) && p < n && (s.pc[p].WriteLoop? || s.pc[p].WriteEnd?) && a != Go(true)
    ensures var s' := WriteStep(n, size, s, p, a); Sized(n, size, s') && !Failed(s'.pc[p])
  {
    hide Full, Slot, Next32, Woken;
  }

  lemma ReadNotFailed(n: nat, size: nat, s: State, p: nat, a: Choice)
    requires Sized(n, size, s) && p < n && (s.pc[p].ReadTest? || s.pc[p].ReadLoop? || s.pc[p].ReadEnd?)
    requires a != Go(true)
    ensures var s' := ReadStep(n, size, s, p, a); Sized(n, size, s') && !Failed(s'.pc[p])
  {
    hide Empty, Slot, Next32, Woken;
  }

  lemma SimpleNotFailed(n: nat, size: nat, s: State, p: nat, a: Choice)
    requires Sized(n, size, s) && Can(n, size, s, Run(p, a)) && Simple(s.pc[p])
    ensures var s' := Apply(n, size, s, Run(p, a)); Sized(n, size, s') && !Failed(s'.pc[p])
  {
    hide Woken, Closing, MayClose;
  }

  /** In every run in which no copy of a writer fails, its pipewrite() that ends normally has put all its bytes. */
  lemma WholeWrites(n: nat, size: nat, s0: State, run: seq<Event>, p: nat)
    requires Init(n, size, s0) && RunFrom(n, size, s0, run) && p < n && CopiesSucceed(run, p)
    ensures var s := After(n, size, s0, run);
            && Sized(n, size, s) && |s.who| == |s.sent|
            && (s.pc[p].WriteEnd? ==>
                  s.pc[p].i == |s.pc[p].src| && PutBy(s.sent, s.who, p, s.start[p]) == s.pc[p].src)
  {
    hide StreamOk, LockOk, Sleeps, ReadersOk, RunFrom, After;
    InitHasInv(n, size, s0);
    FailsOnlyByCopy(n, size, s0, run, p);
    WriterPutsItsBytes(n, size, s0, run, p);
  }

  /** In every run, whenever the lock is free, a writer sleeps only if the pipe is full and can still be read. */
  lemma WritersSleepWhenFull(n: nat, size: nat, s0: State, run: seq<Event>, p: nat)
    requires Init(n, size, s0) && RunFrom(n, size, s0, run) && p < n
    ensures var s := After(n, size, s0, run);
            Sized(n, size, s) && (s.lock.None? && s.asleep[p] == Some(Room) ==> Full(size, s) && s.readopen)
  {
    InitHasInv(n, size, s0);
    RunKeepsInv(n, size, s0, run);
    var s := After(n, size, s0, run);
    hide StreamOk, LockOk, ReadersOk, Full;
    TestsAreExact(n, size, s);
    assert SleepOk(size, s, p);
  }

  /** A reader sleeps although there is data. */
  predicate Waits(s: State) { s.sent != s.got && exists q :: 0 <= q < |s.asleep| && s.asleep[q] == Some(Data) }

  /** Whoever sleeps although there is data is about to be woken by the writer that holds the lock. */
  predicate Covered(s: State) { Waits(s) ==> WriterBusy(s) }

  /** A killed writer returns while a reader sleeps and there is data: the one way out of pipewrite without a wakeup. */
  predicate Strands(s: State, e: Event) {
    && e.Run? && e.p < |s.pc| && e.p < |s.killed| && s.pc[e.p].WriteLoop? && s.pc[e.p].i < |s.pc[e.p].src|
    && s.readopen && s.killed[e.p] && Waits(s)
  }

  predicate ReaderSleeps(s: State) { exists q :: 0 <= q < |s.asleep| && s.asleep[q] == Some(Data) }

  /** A step that puts no reader to sleep does not make one sleep. */
  lemma SleepersAfter(s: State, s': State)
    requires |s'.asleep| == |s.asleep|
    requires forall q :: 0 <= q < |s.asleep| && s'.asleep[q] == Some(Data) ==> s.asleep[q] == Some(Data)
    ensures ReaderSleeps(s') ==> ReaderSleeps(s)
  {
    if ReaderSleeps(s') {
      var q :| 0 <= q < |s'.asleep| && s'.asleep[q] == Some(Data);
      assert s.asleep[q] == Some(Data);
    }
  }

  /** Nobody sleeps for data once the read end is closed. */
  lemma NoReadersAsleep(n: nat, size: nat, s: State)
    requires Inv(n, size, s) && !s.readopen
    ensures !ReaderSleeps(s)
  {
    hide StreamOk, LockOk;
    forall q | 0 <= q < n
      ensures s.asleep[q] != Some(Data)
    {
      assert SleepOk(size, s, q);
    }
  }

  lemma WriteCovers(n: nat, size: nat, s: State, p: nat, a: Choice)
    requires Inv(n, size, s) && p < n && (s.pc[p].WriteLoop? || s.pc[p].WriteEnd?) && s.asleep[p].None?
    ensures Covered(WriteStep(n, size, s, p, a)) <==> !Strands(s, Run(p, a))
  {
    hide StreamOk, Sleeps, ReadersOk, Full, Slot, Next32, Woken;
    var s' := WriteStep(n, size, s, p, a);
    SleepersAfter(s, s');
    if s'.asleep == s.asleep {
      SleepersAfter(s', s);
    }
    assert InSection(s.pc[p]);
    if !s.readopen {
      NoReadersAsleep(n, size, s);
    }
  }

  lemma ReadCovers(n: nat, size: nat, s: State, p: nat, a: Choice)
    requires Inv(n, size, s) && p < n && (s.pc[p].ReadTest? || s.pc[p].ReadLoop? || s.pc[p].ReadEnd?)
             && s.asleep[p].None?
    requires Covered(s)
    ensures Covered(ReadStep(n, size, s, p, a))
  {
    hide StreamOk, Sleeps, ReadersOk, Empty, Slot, Next32, Woken;
    var s' := ReadStep(n, size, s, p, a);
    TestsAreExact(n, size, s);
    assert InSection(s.pc[p]);
    assert !Waits(s);
    if s'.sent != s'.got {
      SleepersAfter(s, s');
    }
  }

  lemma RestCovers(n: nat, size: nat, s: State, e: Event)
    requires Inv(n, size, s) && Can(n, size, s, e) && (e.Run? ==> Simple(s.pc[e.p])) && Covered(s)
    ensures Covered(Apply(n, size, s, e))
  {
    hide StreamOk, Sleeps, ReadersOk, Woken, Closing, MayClose, Reads, Writes;
    var s' := Apply(n, size, s, e);
    SleepersAfter(s, s');
  }

  /** A step leaves a reader asleep beside data exactly if it is such a return of a killed writer. */
  lemma CoveredExactly(n: nat, size: nat, s: State, e: Event)
    requires Inv(n, size, s) && Can(n, size, s, e) && Covered(s)
    ensures Covered(Apply(n, size, s, e)) <==> !Strands(s, e)
  {
    hide Inv, WriteStep, ReadStep, CloseStep, Covered, Waits;
    RunSized(n, size, s);
    match e
    case Run(p, a) =>
      if s.pc[p].WriteLoop? || s.pc[p].WriteEnd? {
        WriteCovers(n, size, s, p, a);
      } else if s.pc[p].ReadTest? || s.pc[p].ReadLoop? || s.pc[p].ReadEnd? {
        ReadCovers(n, size, s, p, a);
      } else {
        RestCovers(n, size, s, e);
      }
    case Kill(p) =>
      RestCovers(n, size, s, e);
  }

  lemma RunSized(n: nat, size: nat, s: State)
    requires Inv(n, size, s)
    ensures Sized(n, size, s)
  {
  }

  /** No killed writer returns beside a sleeping reader anywhere in the run. */
  ghost predicate NoneStrands(n: nat, size: nat, s: State, run: seq<Event>)
    requires RunFrom(n, size, s, run)
    decreases |run|
  {
    run != [] ==> !Strands(s, run[0]) && NoneStrands(n, size, Apply(n, size, s, run[0]), run[1..])
  }

  lemma {:induction false} RunKeepsCovered(n: nat, size: nat, s: State, run: seq<Event>)
    requires Inv(n, size, s) && Covered(s) && RunFrom(n, size, s, run) && NoneStrands(n, size, s, run)
    ensures Inv(n, size, After(n, size, s, run)) && Covered(After(n, size, s, run))
    decreases |run|
  {
    hide Inv, Apply, Can, Covered, Strands;
    if run != [] {
      StepKeepsInv(n, size, s, run[0]);
      CoveredExactly(n, size, s, run[0]);
      RunKeepsCovered(n, size, Apply(n, size, s, run[0]), run[1..]);
    }
  }

  /** In every run without such a return, whenever the lock is free, a reader sleeps only if the pipe is empty and can
      still be written. */
  lemma ReadersSleepWhenEmpty(n: nat, size: nat, s0: State, run: seq<Event>, p: nat)
    requires Init(n, size, s0) && RunFrom(n, size, s0, run) && NoneStrands(n, size, s0, run) && p < n
    ensures var s := After(n, size, s0, run);
            Sized(n, size, s) && (s.lock.None? && s.asleep[p] == Some(Data) ==> Empty(s) && s.writeopen)
  {
    InitHasInv(n, size, s0);
    assert Covered(s0);
    RunKeepsCovered(n, size, s0, run);
    var s := After(n, size, s0, run);
    hide StreamOk, LockOk, ReadersOk, Empty;
    TestsAreExact(n, size, s);
    assert SleepOk(size, s, p);
  }

  lemma {:induction false} RunConcat(n: nat, size: nat, s: State, run: seq<Event>, more: seq<Event>)
    requires RunFrom(n, size, s, run) && RunFrom(n, size, After(n, size, s, run), more)
    ensures RunFrom(n, size, s, run + more)
            && After(n, size, s, run + more) == After(n, size, After(n, size, s, run), more)
    decreases |run|
  {
    hide Apply, Can;
    if run == [] {
      assert run + more == more;
    } else {
      assert (run + more)[1..] == run[1..] + more;
      RunConcat(n, size, Apply(n, size, s, run[0]), run[1..], more);
    }
  }

  lemma RunThree(n: nat, size: nat, s: State, e1: Event, e2: Event, e3: Event)
    requires Sized(n, size, s) && Can(n, size, s, e1)
    requires var s1 := Apply(n, size, s, e1);
             && Sized(n, size, s1) && Can(n, size, s1, e2)
             && var s2 := Apply(n, size, s1, e2); Sized(n, size, s2) && Can(n, size, s2, e3)
    ensures RunFrom(n, size, s, [e1, e2, e3])
    ensures After(n, size, s, [e1, e2, e3]) == Apply(n, size, Apply(n, size, Apply(n, size, s, e1), e2), e3)
  {
    hide Apply, Can, Sized;
    var s1 := Apply(n, size, s, e1);
    var s2 := Apply(n, size, s1, e2);
    RunOne(n, size, s2, e3, []);
    RunOne(n, size, s1, e2, [e3]);
    RunOne(n, size, s, e1, [e2, e3]);
    assert [e3] + [] == [e3] && [e2] + [e3] == [e2, e3] && [e1] + [e2, e3] == [e1, e2, e3];
  }

  lemma RunOne(n: nat, size: nat, s: State, e: Event, rest: seq<Event>)
    requires Sized(n, size, s) && Can(n, size, s, e) && RunFrom(n, size, Apply(n, size, s, e), rest)
    ensures RunFrom(n, size, s, [e] + rest)
            && After(n, size, s, [e] + rest) == After(n, size, Apply(n, size, s, e), rest)
  {
    assert ([e] + rest)[1..] == rest;
  }

  /** The reader finds the pipe empty and goes to sleep. */
  lemma ReaderNaps(n: nat, size: nat, s: State) returns (run: seq<Event>)
    requires Init(n, size, s) && n >= 2
    ensures RunFrom(n, size, s, run)
    ensures After(n, size, s, run) == s.(pc := s.pc[0 := ReadAcquire(1)], asleep := s.asleep[0 := Some(Data)],
                                         start := s.start[0 := 0], out := s.out[0 := []])
  {
    hide Slot;
    var e1, e2 := Run(0, Read(1)), Run(0, Go(false));
    RunThree(n, size, s, e1, e2, e2);
    run := [e1, e2, e2];
    assert s.pc[0 := ReadAcquire(1)][0 := ReadTest(1)][0 := ReadAcquire(1)] == s.pc[0 := ReadAcquire(1)];
  }

  /** A writer puts the first of two bytes. */
  lemma WriterPuts(n: nat, size: nat, s: State, x: Byte, y: Byte) returns (run: seq<Event>)
    requires Sized(n, size, s) && n >= 2 && s.pc[1].Idle? && s.asleep[1].None? && s.lock.None? && !Full(size, s)
             && !Closing(s, true)
    requires s.writeopen && s.readopen && !s.killed[1]
    ensures RunFrom(n, size, s, run)
    ensures var s' := After(n, size, s, run);
            && Sized(n, size, s') && s'.pc[1] == WriteLoop([x, y], 1) && s'.asleep == s.asleep && s'.lock == Some(1)
            && s'.sent == s.sent + [x] && s'.got == s.got && s'.nread == s.nread && s'.nwrite == Next32(s.nwrite)
            && s'.killed == s.killed
  {
    hide Slot, Closing, Next32;
    var e1, e2 := Run(1, Write([x, y])), Run(1, Go(false));
    RunThree(n, size, s, e1, e2, e2);
    run := [e1, e2, e2];
  }

  /** A writer in its loop is killed and returns at once. */
  lemma WriterLeaves(n: nat, size: nat, s: State) returns (run: seq<Event>)
    requires Sized(n, size, s) && n >= 2 && s.pc[1].WriteLoop? && s.pc[1].i < |s.pc[1].src| && s.asleep[1].None?
    ensures RunFrom(n, size, s, run)
    ensures var s' := After(n, size, s, run);
            && Sized(n, size, s') && s'.lock.None? && s'.asleep[0] == s.asleep[0] && s'.nread == s.nread
                 && s'.nwrite == s.nwrite
  {
    hide Slot, Full, Next32;
    var e1, e2, e3 := Kill(1), Run(1, Go(false)), Run(1, Go(false));
    RunThree(n, size, s, e1, e2, e3);
    run := [e1, e2, e3];
  }

  /** It does happen: a reader goes to sleep, a writer puts one byte and is killed before its second, and the reader
      stays asleep beside the byte. */
  lemma StrandedReader(n: nat, size: nat, s0: State, x: Byte, y: Byte) returns (run: seq<Event>)
    requires Init(n, size, s0) && n >= 2
    ensures RunFrom(n, size, s0, run)
    ensures var s := After(n, size, s0, run);
            Sized(n, size, s) && s.lock.None? && s.asleep[0] == Some(Data) && !Empty(s)
  {
    hide Apply, Can, Slot, RunFrom, After;
    var run1 := ReaderNaps(n, size, s0);
    var s1 := After(n, size, s0, run1);
    var run2 := WriterPuts(n, size, s1, x, y);
    var s2 := After(n, size, s1, run2);
    var run3 := WriterLeaves(n, size, s2);
    RunConcat(n, size, s0, run1, run2);
    RunConcat(n, size, s0, run1 + run2, run3);
    run := run1 + run2 + run3;
  }
}
