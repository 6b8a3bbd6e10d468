/** The virtio block driver of riscv/kernel/virtio_disk.c, with the device as an environment that takes
    chains from the avail ring and completes each of them once, successfully, in any order. The split
    virtqueue and the three-descriptor requests are those of sections 2.6 and 5.2 of virtio v1.1.

    The driver's code runs under vdisk_lock; each of its critical sections up to a sleep() is one
    method here, and the device may act between any two of them and between two turns of the
    interrupt handler's loop. */
module VirtioDisk {

  import opened RingIndex

  const F_NEXT := 1
  const F_WRITE := 2
  const BUSY := 0xff
  const WRAP := 0x1_0000

  type Block = seq<int>

  /** What a descriptor points at: the request header of a chain, a buffer's data, or a status byte. */
  datatype Addr = Null | Header(h: nat) | BufData(b: nat) | StatusOf(h: nat)

  datatype Desc = Desc(addr: Addr, flags: nat, next: nat)

  datatype Req = Req(write: bool, sector: nat)

  datatype Info = Info(b: nat, status: nat)

  /** Where a request is on its way. Served(at) names its entry in the record of what the device did. */
  datatype Phase = Waiting | Taken | Served(at: nat) | Noted(at: nat)

  /** A request in flight: its three descriptors, the buffer, what is to be done, and how much the device had done
      when it was submitted. */
  datatype Chain = Chain(d: seq<nat>, b: nat, req: Req, since: nat, phase: Phase)

  datatype Access = Access(b: nat, req: Req, value: Block)

  /** A 16-bit counter one further. */
  function Next16(i: nat): (j: nat) { (i + 1) % WRAP }

  lemma {:induction false} SetBound(a: set<nat>, n: nat)
    requires forall x :: x in a ==> x < n
    ensures |a| <= n
  {
    if n == 0 {
      assert a == {};
    } else {
      SetBound(a - {n - 1}, n - 1);
      assert a <= (a - {n - 1}) + {n - 1};
      CardUnion(a - {n - 1}, n - 1, a);
    }
  }

  lemma CardUnion(b: set<nat>, x: nat, a: set<nat>)
    requires a == b || a == b + {x}
    ensures |a| <= |b| + 1
  {
  }

  lemma {:induction false} DistinctCard(q: seq<nat>, a: set<nat>)
    requires Distinct(q) && forall x :: x in a <==> x in q
    ensures |q| == |a|
  {
    if q == [] {
      assert a == {};
    } else {
      forall x | x in a - {q[0]}
        ensures x in q[1..]
      {
        var i :| 0 <= i < |q| && q[i] == x;
        assert q[1..][i - 1] == x;
      }
      DistinctCard(q[1..], a - {q[0]});
    }
  }

  /** Distinct numbers below n are at most n. */
  lemma Pigeonhole(q: seq<nat>, n: nat)
    requires Distinct(q) && forall x :: x in q ==> x < n
    ensures |q| <= n
  {
    var a := set x | x in q;
    DistinctCard(q, a);
    SetBound(a, n);
  }

  // State

  /** The driver's and the device's memory. The fields from chains on record what is in flight: wait holds the
      heads in the avail ring that the device has not taken, fin those in the used ring that the driver has
      not looked at, taken and seen count the entries consumed from the two rings, own gives the chain that
      a descriptor belongs to, and log lists what the device has done. */
  datatype State = State(
    free: seq<bool>, desc: seq<Desc>, ops: seq<Req>, info: seq<Info>,
    availIdx: nat, availRing: seq<nat>, devIdx: nat, usedRing: seq<nat>, usedIdx: nat,
    busy: set<nat>, data: map<nat, Block>, disk: map<nat, Block>,
    chains: map<nat, Chain>, own: seq<nat>, wait: seq<nat>, fin: seq<nat>, taken: nat, seen: nat, log: seq<Access>)

  /** The number of descriptors divides the range of the 16-bit indices. */
  ghost predicate RingSize(n: nat) {
    0 < n <= WRAP / 2 && WRAP % n == 0
  }

  ghost predicate Sized(n: nat, s: State) {
    && n > 0 && RingSize(n)
    && |s.free| == |s.desc| == |s.ops| == |s.info| == |s.availRing| == |s.usedRing| == |s.own| == n
  }

  ghost predicate Shaped(n: nat, c: Chain, h: nat) {
    && |c.d| == 3 && c.d[0] == h && c.d[0] < n && c.d[1] < n && c.d[2] < n
    && c.d[0] != c.d[1] && c.d[0] != c.d[2] && c.d[1] != c.d[2]
  }

  /** The descriptors, the request header and the driver's note say what the chain is for. */
  ghost predicate Formatted(n: nat, s: State, h: nat)
    requires Sized(n, s) && h in s.chains && Shaped(n, s.chains[h], h)
  {
    var c := s.chains[h];
    && s.desc[h] == Desc(Header(h), F_NEXT, c.d[1]) && s.ops[h] == c.req
    && s.desc[c.d[1]] == Desc(BufData(c.b), if c.req.write then F_NEXT else F_WRITE + F_NEXT, c.d[2])
    && s.desc[c.d[2]] == Desc(StatusOf(h), F_WRITE, 0)
    && s.info[h].b == c.b
    && s.info[h].status == (if c.phase.Waiting? || c.phase.Taken? then BUSY else 0)
  }

  ghost predicate ChainOk(n: nat, s: State, h: nat)
    requires Sized(n, s) && h in s.chains
  {
    var c := s.chains[h];
    && Shaped(n, c, h) && Formatted(n, s, h)
    && (forall k :: 0 <= k < 3 ==> !s.free[c.d[k]] && s.own[c.d[k]] == h)
    && c.b in s.data && c.req.sector in s.disk
    && (c.b in s.busy <==> !c.phase.Noted?)
    && c.since <= |s.log|
    && (c.phase.Served? || c.phase.Noted? ==>
          c.since <= c.phase.at < |s.log| && s.log[c.phase.at] == Access(c.b, c.req, s.data[c.b]))
  }

  ghost predicate Chains(n: nat, s: State)
    requires Sized(n, s)
  {
    && (forall h :: h in s.chains ==> ChainOk(n, s, h))
    && (forall i :: 0 <= i < n && !s.free[i] ==> s.own[i] in s.chains && i in s.chains[s.own[i]].d)
    && (forall h, h2 :: h in s.chains && h2 in s.chains && h != h2 ==> s.chains[h].b != s.chains[h2].b)
  }

  ghost predicate Distinct(q: seq<nat>) {
    forall i, j :: 0 <= i < j < |q| ==> q[i] != q[j]
  }

  ghost predicate Rings(n: nat, s: State)
    requires Sized(n, s)
  {
    && Distinct(s.wait) && Distinct(s.fin)
    && (forall h :: h in s.wait <==> h in s.chains && s.chains[h].phase.Waiting?)
    && (forall h :: h in s.fin <==> h in s.chains && s.chains[h].phase.Served?)
    && s.availIdx == (s.taken + |s.wait|) % WRAP && Holds(n, s.availRing, s.taken, s.wait)
    && s.devIdx == (s.seen + |s.fin|) % WRAP && s.usedIdx == s.seen % WRAP && Holds(n, s.usedRing, s.seen, s.fin)
  }

  ghost predicate Inv(n: nat, s: State) {
    Sized(n, s) && Chains(n, s) && Rings(n, s)
  }

  // The steps

  /** The descriptors of d belong to the chain that starts with the first of them. */
  ghost function Claimed(own: seq<nat>, d: seq<nat>): (r: seq<nat>)
    requires |d| == 3 && d[0] < |own| && d[1] < |own| && d[2] < |own|
  {
    own[d[0] := d[0]][d[1] := d[0]][d[2] := d[0]]
  }

  /** virtio_disk_rw up to the notification of the device, with the descriptors d. */
  ghost function Submitted(n: nat, s: State, d: seq<nat>, b: nat, req: Req): (s': State)
    requires Sized(n, s) && |d| == 3 && d[0] < n && d[1] < n && d[2] < n
  {
    s.(free := s.free[d[0] := false][d[1] := false][d[2] := false],
       desc := s.desc[d[0] := Desc(Header(d[0]), F_NEXT, d[1])]
               [d[1] := Desc(BufData(b), if req.write then F_NEXT else F_WRITE + F_NEXT, d[2])]
               [d[2] := Desc(StatusOf(d[0]), F_WRITE, 0)],
       ops := s.ops[d[0] := req], info := s.info[d[0] := Info(b, BUSY)],
       busy := s.busy + {b}, chains := s.chains[d[0] := Chain(d, b, req, |s.log|, Waiting)],
       own := Claimed(s.own, d),
       availRing := s.availRing[Slot(n, s.taken + |s.wait|) := d[0]], availIdx := Next16(s.availIdx),
       wait := s.wait + [d[0]])
  }

  ghost predicate SubmitOk(n: nat, s: State, d: seq<nat>, b: nat, req: Req) {
    && Inv(n, s) && |d| == 3 && d[0] < n && d[1] < n && d[2] < n && d[0] != d[1] && d[0] != d[2] && d[1] != d[2]
    && s.free[d[0]] && s.free[d[1]] && s.free[d[2]]
    && b in s.data && req.sector in s.disk && NotInFlight(s.chains, b)
  }

  ghost predicate AllFree(free: seq<bool>, d: seq<nat>) {
    forall k :: 0 <= k < |d| ==> d[k] < |free| && free[d[k]]
  }

  ghost predicate SameInUse(free: seq<bool>, desc: seq<Desc>, desc': seq<Desc>)
    requires |desc| == |desc'| == |free|
  {
    forall j :: 0 <= j < |free| && !free[j] ==> desc'[j] == desc[j]
  }

  ghost predicate NotInFlight(chains: map<nat, Chain>, b: nat) {
    forall h :: h in chains ==> chains[h].b != b
  }

  lemma SubmittedChain(n: nat, s: State, d: seq<nat>, b: nat, req: Req, h: nat)
    requires SubmitOk(n, s, d, b, req) && h in Submitted(n, s, d, b, req).chains
    ensures ChainOk(n, Submitted(n, s, d, b, req), h)
  {
    hide Rings;
    if h != d[0] {
      assert ChainOk(n, s, h);
    }
  }

  lemma SubmittedChains(n: nat, s: State, d: seq<nat>, b: nat, req: Req)
    requires SubmitOk(n, s, d, b, req)
    ensures Sized(n, Submitted(n, s, d, b, req)) && Chains(n, Submitted(n, s, d, b, req))
  {
    hide Rings, ChainOk;
    var s' := Submitted(n, s, d, b, req);
    forall h | h in s'.chains
      ensures ChainOk(n, s', h)
    {
      SubmittedChain(n, s, d, b, req, h);
    }
    NewHead(n, s, d, b, req);
    forall i | 0 <= i < n && !s'.free[i]
      ensures s'.own[i] in s'.chains && i in s'.chains[s'.own[i]].d
    {
      assert d[0] in d && d[1] in d && d[2] in d;
      assert i != d[0] && i != d[1] && i != d[2] ==> s.own[i] in s.chains;
    }
  }

  lemma NewHead(n: nat, s: State, d: seq<nat>, b: nat, req: Req)
    requires SubmitOk(n, s, d, b, req)
    ensures d[0] !in s.chains
  {
    assert d[0] in s.chains ==> ChainOk(n, s, d[0]);
  }

  /** A queue of distinct heads that all lie below n, and one head more, leave the next slot of the ring unused. */
  lemma RoomInRing(n: nat, q: seq<nat>, h: nat)
    requires Distinct(q) && (forall x :: x in q ==> x < n) && h < n && h !in q
    ensures |q| < n
  {
    assert forall x :: x in q + [h] ==> x in q || x == h;
    Pigeonhole(q + [h], n);
  }

  lemma DistinctAppend(q: seq<nat>, h: nat)
    requires Distinct(q) && h !in q
    ensures Distinct(q + [h]) && forall x :: x in q + [h] <==> x in q || x == h
  {
  }

  lemma DistinctTail(q: seq<nat>)
    requires Distinct(q) && q != []
    ensures Distinct(q[1..]) && forall x :: x in q[1..] <==> x in q && x != q[0]
  {
    forall x | x in q && x != q[0]
      ensures x in q[1..]
    {
      var i :| 0 <= i < |q| && q[i] == x;
      assert q[1..][i - 1] == x;
    }
  }

  lemma HeadsBelow(n: nat, s: State, h: nat)
    requires Sized(n, s) && Chains(n, s) && h in s.chains
    ensures h < n
  {
    assert ChainOk(n, s, h);
  }

  /** The 16-bit index gives the slot of the entry it counts. */
  lemma IndexSlot(n: nat, k: nat)
    requires n > 0 && WRAP % n == 0
    ensures Slot(n, k % WRAP) == Slot(n, k) && Next16(k % WRAP) == (k + 1) % WRAP
  {
    hide Next16;
    ModMod(k, WRAP, n);
    NextWraps(k);
  }

  lemma NextWraps(k: nat)
    ensures Next16(k % WRAP) == (k + 1) % WRAP
  {
  }

  lemma SubmittedRings(n: nat, s: State, d: seq<nat>, b: nat, req: Req)
    requires SubmitOk(n, s, d, b, req)
    ensures Sized(n, Submitted(n, s, d, b, req)) && Rings(n, Submitted(n, s, d, b, req))
  {
    hide ChainOk, Holds, Slot, Distinct;
    var s' := Submitted(n, s, d, b, req);
    NewHead(n, s, d, b, req);
    forall h | h in s.wait
      ensures h < n
    {
      HeadsBelow(n, s, h);
    }
    RoomInRing(n, s.wait, d[0]);
    Append(n, s.availRing, s.taken, s.wait, d[0]);
    DistinctAppend(s.wait, d[0]);
    IndexSlot(n, s.taken + |s.wait|);
  }

  ghost function WithPhase(chains: map<nat, Chain>, h: nat, ph: Phase): (c: map<nat, Chain>)
    requires h in chains
  {
    chains[h := chains[h].(phase := ph)]
  }

  /** The device takes the next chain from the avail ring. */
  ghost function DeviceTook(s: State): (s': State)
    requires s.wait != [] && s.wait[0] in s.chains
  {
    s.(chains := WithPhase(s.chains, s.wait[0], Taken), wait := s.wait[1..], taken := s.taken + 1)
  }

  lemma TookKeeps(n: nat, s: State)
    requires Inv(n, s) && s.wait != []
    ensures s.wait[0] in s.chains && Inv(n, DeviceTook(s)) && s.availRing[Slot(n, s.taken)] == s.wait[0]
  {
    hide ChainOk, Holds, Slot, Distinct;
    assert s.wait[0] in s.wait;
    var s' := DeviceTook(s);
    forall h | h in s'.chains
      ensures ChainOk(n, s', h)
    {
      TookChain(n, s, h);
    }
    Consume(n, s.availRing, s.taken, s.wait);
    DistinctTail(s.wait);
  }

  lemma TookChain(n: nat, s: State, h: nat)
    requires Inv(n, s) && s.wait != [] && s.wait[0] in s.chains && h in s.chains && s.chains[s.wait[0]].phase.Waiting?
    ensures Sized(n, DeviceTook(s)) && ChainOk(n, DeviceTook(s), h)
  {
    hide Rings;
    assert ChainOk(n, s, h);
  }

  /** The device performs the request of a chain that it took, reports success, and puts the chain in the used ring. */
  ghost function DeviceDid(n: nat, s: State, h: nat): (s': State)
    requires Sized(n, s) && h in s.chains && h < n
    requires s.chains[h].b in s.data && s.chains[h].req.sector in s.disk
  {
    var c := s.chains[h];
    var v := if c.req.write then s.data[c.b] else s.disk[c.req.sector];
    s.(data := s.data[c.b := v], disk := s.disk[c.req.sector := v], info := s.info[h := s.info[h].(status := 0)],
       usedRing := s.usedRing[Slot(n, s.seen + |s.fin|) := h], devIdx := Next16(s.devIdx),
       chains := WithPhase(s.chains, h, Served(|s.log|)), fin := s.fin + [h], log := s.log + [Access(c.b, c.req, v)])
  }

  ghost predicate DidOk(n: nat, s: State, h: nat) {
    && Inv(n, s) && h in s.chains && s.chains[h].phase.Taken? && h < n
    && s.chains[h].b in s.data && s.chains[h].req.sector in s.disk
  }

  lemma DidChain(n: nat, s: State, h: nat, h2: nat)
    requires DidOk(n, s, h) && h2 in s.chains
    ensures Sized(n, DeviceDid(n, s, h)) && ChainOk(n, DeviceDid(n, s, h), h2)
  {
    hide Rings, Slot;
    assert ChainOk(n, s, h2) && ChainOk(n, s, h);
  }

  lemma DidKeeps(n: nat, s: State, h: nat)
    requires DidOk(n, s, h)
    ensures Inv(n, DeviceDid(n, s, h))
  {
    hide ChainOk, Holds, Slot, Distinct;
    var s' := DeviceDid(n, s, h);
    forall h2 | h2 in s'.chains
      ensures ChainOk(n, s', h2)
    {
      DidChain(n, s, h, h2);
    }
    forall x | x in s.fin
      ensures x < n
    {
      HeadsBelow(n, s, x);
    }
    RoomInRing(n, s.fin, h);
    Append(n, s.usedRing, s.seen, s.fin, h);
    DistinctAppend(s.fin, h);
    IndexSlot(n, s.seen + |s.fin|);
  }

  /** One turn of the interrupt handler's loop. */
  ghost function Seen(s: State): (s': State)
    requires s.fin != [] && s.fin[0] in s.chains && s.chains[s.fin[0]].phase.Served?
  {
    var h := s.fin[0];
    s.(chains := WithPhase(s.chains, h, Noted(s.chains[h].phase.at)), fin := s.fin[1..], seen := s.seen + 1,
       usedIdx := Next16(s.usedIdx), busy := s.busy - {s.chains[h].b})
  }

  lemma SeenKeeps(n: nat, s: State)
    requires Inv(n, s) && s.fin != []
    ensures s.fin[0] in s.chains && s.chains[s.fin[0]].phase.Served? && Inv(n, Seen(s))
    ensures s.usedRing[Slot(n, s.seen)] == s.fin[0]
  {
    hide ChainOk, Holds, Slot, Distinct;
    assert s.fin[0] in s.fin;
    var s' := Seen(s);
    forall h | h in s'.chains
      ensures ChainOk(n, s', h)
    {
      SeenChain(n, s, h);
    }
    Consume(n, s.usedRing, s.seen, s.fin);
    DistinctTail(s.fin);
    IndexSlot(n, s.seen);
  }

  lemma SeenChain(n: nat, s: State, h: nat)
    requires Inv(n, s) && s.fin != [] && s.fin[0] in s.chains && s.chains[s.fin[0]].phase.Served? && h in s.chains
    ensures Sized(n, Seen(s)) && ChainOk(n, Seen(s), h)
  {
    hide Rings, Chains, RingSize, Next16;
    ChainAt(n, s, h);
    BuffersApart(n, s, h, s.fin[0]);
  }

  lemma ChainAt(n: nat, s: State, h: nat)
    requires Inv(n, s) && h in s.chains
    ensures Sized(n, s) && ChainOk(n, s, h)
  {
    hide Rings, RingSize;
  }

  lemma BuffersApart(n: nat, s: State, h: nat, h2: nat)
    requires Inv(n, s) && h in s.chains && h2 in s.chains
    ensures h != h2 ==> s.chains[h].b != s.chains[h2].b
  {
    hide Rings, RingSize, ChainOk;
  }

  /** The used ring is drained exactly when the two 16-bit indices agree. */
  lemma IndicesAgree(n: nat, s: State)
    requires Inv(n, s)
    ensures s.usedIdx == s.devIdx <==> s.fin == []
  {
    hide ChainOk, Holds, Slot;
    forall x | x in s.fin
      ensures x < n
    {
      HeadsBelow(n, s, x);
    }
    Pigeonhole(s.fin, n);
    if s.fin != [] {
      ModApart(WRAP, s.seen, s.seen + |s.fin|);
    }
  }

  /** virtio_disk_rw after its wait: the driver forgets the buffer and frees the chain. */
  ghost function Finished(n: nat, s: State, h: nat): (s': State)
    requires Sized(n, s) && h in s.chains && Shaped(n, s.chains[h], h)
  {
    var d, z := s.chains[h].d, Desc(Null, 0, 0);
    s.(free := s.free[d[0] := true][d[1] := true][d[2] := true], desc := s.desc[d[0] := z][d[1] := z][d[2] := z],
       info := s.info[h := s.info[h].(b := 0)], chains := s.chains - {h})
  }

  lemma FinishedKeeps(n: nat, s: State, h: nat)
    requires Inv(n, s) && h in s.chains && s.chains[h].phase.Noted?
    ensures Shaped(n, s.chains[h], h) && Inv(n, Finished(n, s, h))
  {
    hide ChainOk, Holds, Slot, Distinct, Formatted;
    ChainShape(n, s, h);
    var s' := Finished(n, s, h);
    forall h2 | h2 in s'.chains
      ensures ChainOk(n, s', h2)
    {
      FinishedChain(n, s, h, h2);
    }
    FinishedParts(n, s, h);
  }

  lemma ChainShape(n: nat, s: State, h: nat)
    requires Inv(n, s) && h in s.chains
    ensures h < n && Shaped(n, s.chains[h], h) && Formatted(n, s, h)
    ensures forall k :: 0 <= k < 3 ==> !s.free[s.chains[h].d[k]] && s.own[s.chains[h].d[k]] == h
  {
    hide Rings;
    assert ChainOk(n, s, h);
  }

  lemma FinishedParts(n: nat, s: State, h: nat)
    requires Inv(n, s) && h in s.chains && Shaped(n, s.chains[h], h)
    ensures var s' := Finished(n, s, h);
            forall i :: 0 <= i < n && !s'.free[i] ==> s'.own[i] in s'.chains && i in s'.chains[s'.own[i]].d
  {
    hide Rings, ChainOk;
    var s', d := Finished(n, s, h), s.chains[h].d;
    forall i | 0 <= i < n && !s'.free[i]
      ensures s'.own[i] in s'.chains && i in s'.chains[s'.own[i]].d
    {
      assert i != d[0] && i != d[1] && i != d[2];
      assert i !in d;
    }
  }

  lemma FinishedChain(n: nat, s: State, h: nat, h2: nat)
    requires Inv(n, s) && h in s.chains && Shaped(n, s.chains[h], h) && h2 in s.chains && h2 != h
    ensures Sized(n, Finished(n, s, h)) && ChainOk(n, Finished(n, s, h), h2)
  {
    hide Rings, Chains, Holds;
    ChainShape(n, s, h);
    ChainShape(n, s, h2);
    var d, d2 := s.chains[h].d, s.chains[h2].d;
    assert d2[0] !in {d[0], d[1], d[2]} && d2[1] !in {d[0], d[1], d[2]} && d2[2] !in {d[0], d[1], d[2]};
    StillOk(n, s, h2);
  }

  lemma StillOk(n: nat, s: State, h: nat)
    requires Inv(n, s) && h in s.chains
    ensures ChainOk(n, s, h)
  {
    hide Rings, ChainOk;
  }

  // The driver

  /** Number of free descriptors among the first k. */
  function FreeCount(free: seq<bool>, k: nat): (c: nat)
    requires k <= |free|
  {
    if k == 0 then 0 else FreeCount(free, k - 1) + (if free[k - 1] then 1 else 0)
  }

  lemma {:induction false} FreeCountSet(free: seq<bool>, k: nat, i: nat, v: bool)
    requires k <= |free| && i < |free| && free[i] != v
    ensures FreeCount(free[i := v], k) == FreeCount(free, k) + (if i >= k then 0 else if v then 1 else -1)
  {
    if k > 0 {
      FreeCountSet(free, k - 1, i, v);
    }
  }

  lemma {:induction false} NoneFree(free: seq<bool>, k: nat)
    requires k <= |free| && forall i :: 0 <= i < k ==> !free[i]
    ensures FreeCount(free, k) == 0
  {
    if k > 0 {
      NoneFree(free, k - 1);
    }
  }

  class Driver {
    const n: nat
    var free: seq<bool>
    var desc: seq<Desc>
    var ops: seq<Req>
    var info: seq<Info>
    var availIdx: nat
    var availRing: seq<nat>
    var devIdx: nat
    var usedRing: seq<nat>
    var usedIdx: nat
    var busy: set<nat>
    var data: map<nat, Block>
    var disk: map<nat, Block>
    ghost var chains: map<nat, Chain>
    ghost var own: seq<nat>
    ghost var wait: seq<nat>
    ghost var fin: seq<nat>
    var taken: nat
    ghost var seen: nat
    ghost var log: seq<Access>

    ghost function S(): (s: State)
      reads this
    {
      State(free, desc, ops, info, availIdx, availRing, devIdx, usedRing, usedIdx, busy, data, disk, chains, own,
          wait, fin,
            taken, seen, log)
    }

    /** The first free descriptor, marked as used; -1 if there is none. */
    method AllocDesc() returns (r: int)
      modifies this`free
      ensures |free| == |old(free)|
      ensures r == -1 ==> free == old(free) && forall i :: 0 <= i < |free| ==> !free[i]
      ensures r != -1 ==> 0 <= r < |free| && old(free)[r] && free == old(free)[r := false]
      ensures r != -1 ==> forall i :: 0 <= i < r ==> !old(free)[i]
    {
      var i := 0;
      while i < |free|
        invariant 0 <= i <= |free| && free == old(free)
        invariant forall j :: 0 <= j < i ==> !free[j]
      {
        if free[i] {
          free := free[i := false];
          return i;
        }
        i := i + 1;
      }
      r := -1;
    }

    /** Frees a descriptor; it is one, and it is in use, so that neither panic is reached. */
    method FreeDesc(i: nat)
      requires i < |free| == |desc| && !free[i]
      modifies this`free, this`desc
      ensures free == old(free)[i := true] && desc == old(desc)[i := Desc(Null, 0, 0)]
    {
      desc := desc[i := Desc(Null, 0, 0)];
      free := free[i := true];
    }

    /** Gives the descriptors in d back. */
    method Rollback(d: seq<nat>, ghost f0: seq<bool>)
      requires |free| == |desc| == |f0| && Distinct(d) && (forall k :: 0 <= k < |d| ==> d[k] < |f0| && f0[d[k]])
      requires free == Marked(f0, d)
      modifies this`free, this`desc
      ensures free == f0 && |desc| == |old(desc)|
      ensures forall k :: 0 <= k < |f0| && !f0[k] ==> desc[k] == old(desc)[k]
    {
      var j := 0;
      assert d[0..] == d;
      while j < |d|
        invariant 0 <= j <= |d| && |free| == |f0| && |desc| == |old(desc)|
        invariant free == Marked(f0, d[j..])
        invariant forall k :: 0 <= k < |f0| && !f0[k] ==> desc[k] == old(desc)[k]
      {
        Unmark(f0, d[j..]);
        assert d[j..][1..] == d[j + 1..] && d[j..][0] == d[j];
        assert d[j] in d[j..];
        FreeDesc(d[j]);
        j := j + 1;
      }
    }

    /** Three free descriptors, or none of them if there are fewer. */
    method Alloc3Desc() returns (ok: bool, d: seq<nat>)
      requires |free| == |desc|
      modifies this`free, this`desc
      ensures |free| == |old(free)| && |desc| == |old(desc)|
      ensures Distinct(d) && AllFree(old(free), d)
      ensures ok ==> |d| == 3 && free == Marked(old(free), d) && desc == old(desc)
      ensures !ok ==> free == old(free) && SameInUse(free, old(desc), desc)
      ensures ok <==> FreeCount(old(free), |old(free)|) >= 3
    {
      hide FreeCount, Marked;
      d := [];
      ghost var f0 := free;
      MarkNone(f0);
      var i := 0;
      while i < 3
        invariant 0 <= i <= 3 && |d| == i && |free| == |f0| && desc == old(desc)
        invariant Distinct(d) && AllFree(f0, d)
        invariant free == Marked(f0, d)
        invariant FreeCount(free, |free|) == FreeCount(f0, |f0|) - i
      {
        ghost var f1 := free;
        var x := AllocDesc();
        if x < 0 {
          NoneFree(free, |free|);
          Rollback(d, f0);
          return false, d;
        }
        FreeCountSet(f1, |f1|, x, false);
        MarkOne(f0, d, x);
        assert x !in d;
        d := d + [x];
        i := i + 1;
      }
      ok := true;
    }

    /** The part of virtio_disk_rw up to the notification of the device; false if there are no descriptors and the
        caller has to sleep. Nobody else has the buffer in flight, since the caller holds its sleep lock. */
    method Submit(b: nat, write: bool, sector: nat) returns (ok: bool, h: nat)
      requires Inv(n, S()) && b in data && sector in disk && NotInFlight(chains, b)
      modifies this
      ensures Inv(n, S()) && data == old(data) && disk == old(disk) && log == old(log)
      ensures ok <==> FreeCount(old(free), |old(free)|) >= 3
      ensures !ok ==> chains == old(chains) && free == old(free) && busy == old(busy)
      ensures ok ==> h !in old(chains) && h in chains && chains == old(chains)[h := chains[h]] && b in busy
      ensures ok ==>
                chains[h].b == b && chains[h].req == Req(write, sector) && chains[h].phase == Waiting
                && chains[h].since == |log|
    {
      hide Inv, FreeCount, Marked, Submitted, SubmitOk, Slot, Distinct, NotInFlight, AllFree, SameInUse, FormatDone,
           Claimed, Next16;
      ghost var s0 := S();
      SizedFacts(n, s0);
      var d;
      ok, d := Alloc3Desc();
      h := 0;
      if !ok {
        DescUnused(n, s0, desc);
        return;
      }
      var req := Req(write, sector);
      SubmitReady(n, s0, d, b, req);
      h := d[0];
      ghost var s1 := S();
      Format(d, b, req);
      ghost var s2 := S();
      FormatSized(n, s1, s2, d, b, req);
      Publish(h, b);
      ghost var s3 := S();
      Record(d, b, req);
      SubmittedTo(n, s0, d, b, req, s1, s2, s3, S());
    }

    /** Fills in the three descriptors of a request. */
    method Format(d: seq<nat>, b: nat, req: Req)
      requires |d| == 3 && d[0] < n && d[1] < n && d[2] < n && Sized(n, S())
      modifies this
      ensures FormatDone(n, old(S()), S(), d, b, req)
    {
      hide Slot, RingSize;
      ops := ops[d[0] := req];
      desc := desc[d[0] := Desc(Header(d[0]), F_NEXT, d[1])];
      desc := desc[d[1] := Desc(BufData(b), if req.write then F_NEXT else F_WRITE + F_NEXT, d[2])];
      info := info[d[0] := Info(b, BUSY)];
      desc := desc[d[2] := Desc(StatusOf(d[0]), F_WRITE, 0)];
    }

    /** Marks the buffer as in flight and puts the chain in the avail ring. */
    method Publish(h: nat, b: nat)
      requires Sized(n, S())
      modifies this
      ensures S() == old(S()).(busy := old(busy) + {b}, availRing := old(availRing)[Slot(n, old(availIdx)) := h],
                               availIdx := Next16(old(availIdx)))
    {
      hide Slot, Next16, RingSize;
      busy := busy + {b};
      availRing, availIdx := availRing[Slot(n, availIdx) := h], Next16(availIdx);
    }

    /** Records the new request. */
    ghost method Record(d: seq<nat>, b: nat, req: Req)
      requires |d| == 3 && d[0] < n && d[1] < n && d[2] < n && |own| == n
      modifies this`chains, this`own, this`wait
      ensures S() == old(S()).(chains := old(chains)[d[0] := Chain(d, b, req, |log|, Waiting)], wait := old(wait)
              + [d[0]],
                               own := Claimed(old(own), d))
    {
      hide Claimed;
      chains, own, wait := chains[d[0] := Chain(d, b, req, |log|, Waiting)], Claimed(own, d), wait + [d[0]];
    }

    /** One turn of the loop of virtio_disk_intr. */
    method NoteOne()
      requires Inv(n, S()) && usedIdx != devIdx
      modifies this
      ensures Inv(n, S()) && old(fin) != [] && fin == old(fin)[1..]
      ensures old(fin)[0] in old(chains) && old(chains)[old(fin)[0]].phase.Served? && S() == Seen(old(S()))
    {
      hide Inv, Seen, Slot;
      ghost var s0 := S();
      IndicesAgree(n, s0);
      SeenKeeps(n, s0);
      SeenFacts(n, s0);
      var id := usedRing[Slot(n, usedIdx)];
      assert info[id].status == 0;
      var b := info[id].b;
      busy := busy - {b};
      usedIdx := Next16(usedIdx);
      chains := WithPhase(s0.chains, id, Noted(chains[id].phase.at));
      fin := fin[1..];
      seen := seen + 1;
      SeenIs(s0);
    }

    /** The interrupt handler, when the device adds nothing meanwhile. */
    method Intr()
      requires Inv(n, S())
      modifies this
      ensures Inv(n, S()) && fin == [] && chains.Keys == old(chains.Keys)
      ensures data == old(data) && disk == old(disk) && log == old(log) && free == old(free)
      ensures forall h :: h in chains ==>
                chains[h].b == old(chains)[h].b && chains[h].req == old(chains)[h].req
                    && chains[h].since == old(chains)[h].since
      ensures forall h :: h in chains ==>
                chains[h].phase == (if old(chains)[h].phase.Served? then Noted(old(chains)[h].phase.at)
                    else old(chains)[h].phase)
    {
      hide Inv;
      ghost var c0 := chains;
      while usedIdx != devIdx
        invariant Inv(n, S()) && chains.Keys == c0.Keys
        invariant data == old(data) && disk == old(disk) && log == old(log) && free == old(free)
        invariant forall h :: h in chains ==>
                    chains[h].b == c0[h].b && chains[h].req == c0[h].req && chains[h].since == c0[h].since
        invariant forall h :: h in chains && chains[h].phase != c0[h].phase ==>
                    c0[h].phase.Served? && chains[h].phase == Noted(c0[h].phase.at)
        decreases |fin|
      {
        NoteOne();
      }
      IndicesAgree(n, S());
      Drained(n, S());
    }

    /** Frees the descriptors of the chain that starts at h, following the links. */
    method FreeChain(h: nat, ghost d: seq<nat>)
      requires Linked(n, S(), d) && d[0] == h
      modifies this`free, this`desc
      ensures S() == Freed(n, old(S()), d, 3)
    {
      hide Freed;
      ghost var s0 := S();
      FreedNone(n, s0, d);
      var i := h;
      ghost var k := 0;
      while true
        invariant 0 <= k < 3 && i == d[k] && S() == Freed(n, s0, d, k)
        decreases 3 - k
      {
        FreedStep(n, s0, d, k);
        var flag := desc[i].flags;
        var nxt := desc[i].next;
        FreeDesc(i);
        k := k + 1;
        if flag % 2 == 1 {
          i := nxt;
        } else {
          break;
        }
      }
    }

    /** The part of virtio_disk_rw after its wait for b->disk: by then the device has served this very request. */
    method Finish(h: nat) returns (ghost at: nat)
      requires Inv(n, S()) && h in chains && chains[h].b !in busy
      modifies this
      ensures Inv(n, S()) && chains == old(chains) - {h} && data == old(data) && disk == old(disk) && log == old(log)
      ensures busy == old(busy)
      ensures old(chains)[h].since <= at < |log|
      ensures log[at] == Access(old(chains)[h].b, old(chains)[h].req, data[old(chains)[h].b])
    {
      hide Inv, Freed, Finished;
      ghost var s0 := S();
      Resumed(n, s0, h);
      at := chains[h].phase.at;
      FinishedKeeps(n, s0, h);
      FinishedIs(n, s0, h);
      info := info[h := info[h].(b := 0)];
      FreeChain(h, chains[h].d);
      chains := chains - {h};
    }

    /** The device takes the next chain that the avail ring offers. */
    method DeviceTake() returns (h: nat)
      requires Inv(n, S()) && wait != []
      modifies this
      ensures Inv(n, S()) && h == old(wait)[0] && h in old(chains) && S() == DeviceTook(old(S()))
    {
      hide Inv, DeviceTook, Slot;
      ghost var s0 := S();
      TookKeeps(n, s0);
      SizedFacts(n, s0);
      TookIs(s0);
      h := availRing[Slot(n, taken)];
      chains := WithPhase(s0.chains, wait[0], Taken);
      wait := wait[1..];
      taken := taken + 1;
    }

    /** The device performs a request that it took, as the descriptors say, and reports it in the used ring. */
    method DeviceComplete(h: nat)
      requires Inv(n, S()) && h in chains && chains[h].phase.Taken?
      modifies this
      ensures DidOk(n, old(S()), h) && Inv(n, S()) && S() == DeviceDid(n, old(S()), h)
    {
      hide Inv, DeviceDid, Slot, Next16, ChainOk, DidOk, WithPhase, RingSize;
      ghost var s0 := S();
      DidReady(n, s0, h);
      DidKeeps(n, s0, h);
      DidIs(n, s0, h);
      var b, req, v := Transfer(h);
      ghost var s1 := S();
      usedRing, devIdx := usedRing[Slot(n, devIdx) := h], Next16(devIdx);
      ghost var s2 := S();
      assert s2 == s1.(usedRing := s1.usedRing[Slot(n, s1.devIdx) := h], devIdx := Next16(s1.devIdx));
      Serve(h, Access(b, req, v));
    }

    /** The transfer itself, through the three descriptors. */
    method Transfer(h: nat) returns (b: nat, req: Req, v: Block)
      requires DidOk(n, S(), h) && Sized(n, S()) && ChainOk(n, S(), h)
      modifies this`data, this`disk, this`info
      ensures h < n == |old(info)| && b == chains[h].b && req == chains[h].req && b in old(data)
              && req.sector in old(disk)
      ensures v == if req.write then old(data)[b] else old(disk)[req.sector]
      ensures data == old(data)[b := v] && disk == old(disk)[req.sector := v]
      ensures info == old(info)[h := old(info)[h].(status := 0)]
    {
      hide DidOk, RingSize;
      var first := desc[h];
      req := ops[first.addr.h];
      var second := desc[first.next];
      b := second.addr.b;
      var third := desc[second.next];
      v := if req.write then data[b] else disk[req.sector];
      data, disk := data[b := v], disk[req.sector := v];
      info := info[third.addr.h := info[third.addr.h].(status := 0)];
    }

    /** Records the completion. */
    ghost method Serve(h: nat, x: Access)
      requires h in chains
      modifies this`chains, this`fin, this`log
      ensures S() == old(S()).(chains := WithPhase(old(chains), h, Served(|old(log)|)), fin := old(fin) + [h],
              log := old(log) + [x])
    {
      chains, fin, log := WithPhase(chains, h, Served(|log|)), fin + [h], log + [x];
    }

    /** virtio_disk_init: all descriptors are free and both rings are empty. */
    constructor (num: nat, store: map<nat, Block>, bufs: map<nat, Block>)
      requires RingSize(num)
      ensures Inv(n, S()) && n == num && chains == map[] && data == bufs && disk == store && log == []
    {
      n := num;
      free, desc := seq(num, _ => true), seq(num, _ => Desc(Null, 0, 0));
      ops, info := seq(num, _ => Req(false, 0)), seq(num, _ => Info(0, 0));
      availIdx, devIdx, usedIdx := 0, 0, 0;
      availRing, usedRing := seq(num, _ => 0), seq(num, _ => 0);
      busy, data, disk := {}, bufs, store;
      chains, own, wait, fin, taken, seen, log := map[], seq(num, _ => 0), [], [], 0, 0, [];
    }
  }

  /** The table with the descriptors of d marked as used. */
  function Marked(free: seq<bool>, d: seq<nat>): (r: seq<bool>)
    requires forall k :: 0 <= k < |d| ==> d[k] < |free|
    ensures |r| == |free|
    ensures forall i :: 0 <= i < |free| ==> r[i] == (free[i] && i !in d)
    decreases |d|
  {
    if d == [] then free else Marked(free, d[..|d| - 1])[d[|d| - 1] := false]
  }

  lemma MarkOne(free: seq<bool>, d: seq<nat>, x: nat)
    requires (forall k :: 0 <= k < |d| ==> d[k] < |free|) && x < |free|
    ensures Marked(free, d + [x]) == Marked(free, d)[x := false]
  {
    assert (d + [x])[..|d|] == d;
  }

  lemma Unmark(free: seq<bool>, d: seq<nat>)
    requires d != [] && (forall k :: 0 <= k < |d| ==> d[k] < |free| && free[d[k]])
    requires forall k, l :: 0 <= k < l < |d| ==> d[k] != d[l]
    ensures Marked(free, d[1..]) == Marked(free, d)[d[0] := true]
  {
    hide Marked;
    var r := Marked(free, d)[d[0] := true];
    forall i | 0 <= i < |free|
      ensures r[i] == Marked(free, d[1..])[i]
    {
      assert i in d <==> i == d[0] || i in d[1..];
    }
  }

  lemma MarkNone(free: seq<bool>)
    ensures Marked(free, []) == free
  {
  }

  lemma SizedFacts(n: nat, s: State)
    requires Inv(n, s)
    ensures Sized(n, s) && WRAP % n == 0
  {
  }

  /** What free descriptors hold does not matter. */
  lemma DescUnused(n: nat, s: State, desc: seq<Desc>)
    requires Inv(n, s) && |desc| == |s.desc| && SameInUse(s.free, s.desc, desc)
    ensures Inv(n, s.(desc := desc))
  {
    hide Rings;
    var s' := s.(desc := desc);
    forall h | h in s'.chains
      ensures ChainOk(n, s', h)
    {
      assert ChainOk(n, s, h);
    }
    SameRings(n, s, s');
  }

  lemma SameRings(n: nat, s: State, s': State)
    requires Sized(n, s) && Sized(n, s') && Rings(n, s) && s' == s.(desc := s'.desc)
    ensures Rings(n, s')
  {
  }

  lemma SubmitReady(n: nat, s: State, d: seq<nat>, b: nat, req: Req)
    requires Inv(n, s) && |d| == 3 && Distinct(d) && AllFree(s.free, d)
    requires b in s.data && req.sector in s.disk && NotInFlight(s.chains, b)
    ensures SubmitOk(n, s, d, b, req) && d[0] !in s.chains && d[0] < n && d[1] < n && d[2] < n
  {
    hide Chains, Rings;
    assert SubmitOk(n, s, d, b, req);
    NewHead(n, s, d, b, req);
  }

  lemma SubmittedIs(n: nat, s: State, d: seq<nat>, b: nat, req: Req)
    requires SubmitOk(n, s, d, b, req)
    ensures Inv(n, Submitted(n, s, d, b, req)) && WRAP % n == 0 && n > 0 && |s.availRing| == n
    ensures Submitted(n, s, d, b, req) ==
            s.(free := Marked(s.free, d),
               desc := s.desc[d[0] := Desc(Header(d[0]), F_NEXT, d[1])]
                       [d[1] := Desc(BufData(b), if req.write then F_NEXT else F_WRITE + F_NEXT, d[2])]
                       [d[2] := Desc(StatusOf(d[0]), F_WRITE, 0)],
               ops := s.ops[d[0] := req], info := s.info[d[0] := Info(b, BUSY)],
               busy := s.busy + {b}, chains := s.chains[d[0] := Chain(d, b, req, |s.log|, Waiting)],
               own := Claimed(s.own, d),
               availRing := s.availRing[Slot(n, s.availIdx) := d[0]], availIdx := Next16(s.availIdx),
               wait := s.wait + [d[0]])
  {
    hide Chains, Slot, Holds, Distinct;
    SubmittedChains(n, s, d, b, req);
    SubmittedRings(n, s, d, b, req);
    IndexSlot(n, s.taken + |s.wait|);
    MarkThree(s.free, d);
  }

  ghost predicate FormatDone(n: nat, s: State, s': State, d: seq<nat>, b: nat, req: Req)
    requires Sized(n, s) && |d| == 3 && d[0] < n && d[1] < n && d[2] < n
  {
    s' == s.(desc := s.desc[d[0] := Desc(Header(d[0]), F_NEXT, d[1])]
                     [d[1] := Desc(BufData(b), if req.write then F_NEXT else F_WRITE + F_NEXT, d[2])]
                     [d[2] := Desc(StatusOf(d[0]), F_WRITE, 0)],
             ops := s.ops[d[0] := req], info := s.info[d[0] := Info(b, BUSY)])
  }

  lemma SubmittedTo(n: nat, s: State, d: seq<nat>, b: nat, req: Req, s1: State, s2: State, s3: State, s': State)
    requires SubmitOk(n, s, d, b, req) && |d| == 3 && d[0] < n && d[1] < n && d[2] < n
    requires Sized(n, s1) && s1 == s.(free := Marked(s.free, d)) && FormatDone(n, s1, s2, d, b, req)
    requires Sized(n, s2)
    requires s3 == s2.(busy := s2.busy + {b}, availRing := s2.availRing[Slot(n, s2.availIdx) := d[0]],
             availIdx := Next16(s2.availIdx))
    requires s' == s3.(chains := s3.chains[d[0] := Chain(d, b, req, |s3.log|, Waiting)], wait := s3.wait + [d[0]],
             own := Claimed(s3.own, d))
    ensures Inv(n, s') && s'.chains == s.chains[d[0] := Chain(d, b, req, |s.log|, Waiting)] && b in s'.busy
    ensures s'.data == s.data && s'.disk == s.disk && s'.log == s.log
  {
    hide Inv, Marked, Submitted, SubmitOk, Slot;
    SubmittedIs(n, s, d, b, req);
    assert s' == Submitted(n, s, d, b, req);
  }

  lemma FormatSized(n: nat, s: State, s': State, d: seq<nat>, b: nat, req: Req)
    requires Sized(n, s) && |d| == 3 && d[0] < n && d[1] < n && d[2] < n && FormatDone(n, s, s', d, b, req)
    ensures Sized(n, s')
  {
  }

  lemma MarkThree(free: seq<bool>, d: seq<nat>)
    requires |d| == 3 && d[0] < |free| && d[1] < |free| && d[2] < |free|
    ensures Marked(free, d) == free[d[0] := false][d[1] := false][d[2] := false]
  {
    hide Marked;
    MarkNone(free);
    MarkOne(free, [], d[0]);
    MarkOne(free, [d[0]], d[1]);
    MarkOne(free, [d[0], d[1]], d[2]);
    assert [] + [d[0]] == [d[0]] && [d[0]] + [d[1]] == [d[0], d[1]] && [d[0], d[1]] + [d[2]] == d;
  }

  /** What the interrupt handler finds: the head of a chain that the device has served, with status 0. */
  lemma SeenFacts(n: nat, s: State)
    requires Inv(n, s) && s.fin != []
    ensures n > 0 && |s.usedRing| == n && |s.info| == n && Slot(n, s.usedIdx) == Slot(n, s.seen)
    ensures var h := s.usedRing[Slot(n, s.seen)];
            && h == s.fin[0] && h < n && h in s.chains && s.chains[h].phase.Served?
            && s.info[h].status == 0 && s.info[h].b == s.chains[h].b
  {
    hide Slot;
    SeenKeeps(n, s);
    ChainShape(n, s, s.fin[0]);
    IndexSlot(n, s.seen);
  }

  lemma SeenIs(s: State)
    requires s.fin != [] && s.fin[0] in s.chains && s.chains[s.fin[0]].phase.Served?
    ensures var h := s.fin[0];
            Seen(s) == s.(chains := WithPhase(s.chains, h, Noted(s.chains[h].phase.at)), fin := s.fin[1..],
                seen := s.seen + 1,
                          usedIdx := Next16(s.usedIdx), busy := s.busy - {s.chains[h].b})
  {
  }

  lemma Drained(n: nat, s: State)
    requires Inv(n, s) && s.fin == []
    ensures forall h :: h in s.chains ==> !s.chains[h].phase.Served?
  {
  }

  /** The first k descriptors of d freed. */
  ghost function Freed(n: nat, s: State, d: seq<nat>, k: nat): (s': State)
    requires Sized(n, s) && |d| == 3 && d[0] < n && d[1] < n && d[2] < n && k <= 3
    ensures Sized(n, s')
    decreases k
  {
    if k == 0 then s else
    var s1 := Freed(n, s, d, k - 1);
    s1.(free := s1.free[d[k - 1] := true], desc := s1.desc[d[k - 1] := Desc(Null, 0, 0)])
  }

  /** Three descriptors in use that are linked to each other. */
  ghost predicate Linked(n: nat, s: State, d: seq<nat>) {
    && Sized(n, s) && |d| == 3 && d[0] < n && d[1] < n && d[2] < n && d[0] != d[1] && d[0] != d[2] && d[1] != d[2]
    && (forall k :: 0 <= k < 3 ==> !s.free[d[k]])
    && s.desc[d[0]].flags % 2 == 1 && s.desc[d[1]].flags % 2 == 1 && s.desc[d[2]].flags % 2 == 0
    && s.desc[d[0]].next == d[1] && s.desc[d[1]].next == d[2]
  }

  lemma FreedNone(n: nat, s: State, d: seq<nat>)
    requires Sized(n, s) && |d| == 3 && d[0] < n && d[1] < n && d[2] < n
    ensures Freed(n, s, d, 0) == s
  {
  }

  lemma {:induction false} FreedOthers(n: nat, s: State, d: seq<nat>, k: nat, i: nat)
    requires Sized(n, s) && |d| == 3 && d[0] < n && d[1] < n && d[2] < n && k <= 3 && i < n
    requires forall j :: 0 <= j < k ==> d[j] != i
    ensures Freed(n, s, d, k).free[i] == s.free[i] && Freed(n, s, d, k).desc[i] == s.desc[i]
  {
    if k > 0 {
      FreedOthers(n, s, d, k - 1, i);
    }
  }

  /** The next descriptor of a chain that is being freed still holds its link. */
  lemma FreedStep(n: nat, s: State, d: seq<nat>, k: nat)
    requires Linked(n, s, d) && k < 3
    ensures var s1 := Freed(n, s, d, k);
            && d[k] < |s1.free| == |s1.desc| && !s1.free[d[k]]
            && (s1.desc[d[k]].flags % 2 == 1 <==> k < 2) && (k < 2 ==> s1.desc[d[k]].next == d[k + 1])
            && Freed(n, s, d, k + 1) == s1.(free := s1.free[d[k] := true], desc := s1.desc[d[k] := Desc(Null, 0, 0)])
  {
    FreedOthers(n, s, d, k, d[k]);
  }

  /** A waiter that finds its buffer no longer in flight: the device has served its chain. */
  lemma Resumed(n: nat, s: State, h: nat)
    requires Inv(n, s) && h in s.chains && s.chains[h].b !in s.busy
    ensures s.chains[h].phase.Noted? && s.chains[h].b in s.data && s.chains[h].since <= s.chains[h].phase.at < |s.log|
    ensures s.log[s.chains[h].phase.at] == Access(s.chains[h].b, s.chains[h].req, s.data[s.chains[h].b])
    ensures h < n && |s.info| == n
  {
    hide Rings;
    assert ChainOk(n, s, h);
  }

  lemma FinishedIs(n: nat, s: State, h: nat)
    requires Inv(n, s) && h in s.chains
    ensures Sized(n, s) && h < n && Shaped(n, s.chains[h], h)
    ensures var s1 := s.(info := s.info[h := s.info[h].(b := 0)]);
            && Sized(n, s1) && Linked(n, s1, s.chains[h].d)
            && Finished(n, s, h) == Freed(n, s1, s.chains[h].d, 3).(chains := s.chains - {h})
  {
    hide Chains, Rings;
    ChainShape(n, s, h);
    var s1, d := s.(info := s.info[h := s.info[h].(b := 0)]), s.chains[h].d;
    assert Freed(n, s1, d, 1) == s1.(free := s1.free[d[0] := true], desc := s1.desc[d[0] := Desc(Null, 0, 0)]);
    assert Freed(n, s1, d, 2) == Freed(n, s1, d, 1).(free := Freed(n, s1, d, 1).free[d[1] := true],
                                                     desc := Freed(n, s1, d, 1).desc[d[1] := Desc(Null, 0, 0)]);
  }

  lemma TookIs(s: State)
    requires s.wait != [] && s.wait[0] in s.chains
    ensures DeviceTook(s) == s.(chains := WithPhase(s.chains, s.wait[0], Taken), wait := s.wait[1..], taken := s.taken
            + 1)
  {
  }

  /** What the device finds when it follows a chain. */
  lemma DidReady(n: nat, s: State, h: nat)
    requires Inv(n, s) && h in s.chains && s.chains[h].phase.Taken?
    ensures DidOk(n, s, h) && Sized(n, s) && ChainOk(n, s, h)
  {
    hide Rings;
    assert ChainOk(n, s, h);
  }

  lemma DidIs(n: nat, s: State, h: nat)
    requires DidOk(n, s, h)
    ensures Sized(n, s)
    ensures var c := s.chains[h];
            var v := if c.req.write then s.data[c.b] else s.disk[c.req.sector];
            DeviceDid(n, s, h) == s.(data := s.data[c.b := v], disk := s.disk[c.req.sector := v],
                                     info := s.info[h := s.info[h].(status := 0)],
                                     usedRing := s.usedRing[Slot(n, s.devIdx) := h], devIdx := Next16(s.devIdx),
                                     chains := WithPhase(s.chains, h, Served(|s.log|)), fin := s.fin + [h],
                                     log := s.log + [Access(c.b, c.req, v)])
  {
    hide Chains, Holds, Slot, Next16, Distinct;
    IndexSlot(n, s.seen + |s.fin|);
  }

  /** Free descriptors and the chains in flight partition the descriptors. */
  lemma DescriptorsPartitioned(n: nat, s: State, i: nat)
    requires Inv(n, s) && i < n
    ensures s.free[i] ==> forall h :: h in s.chains ==> i !in s.chains[h].d
    ensures !s.free[i] ==> s.own[i] in s.chains && i in s.chains[s.own[i]].d
    ensures forall h, h2 :: h in s.chains && h2 in s.chains && i in s.chains[h].d && i in s.chains[h2].d ==> h == h2
  {
    hide Rings, ChainOk;
    forall h | h in s.chains && i in s.chains[h].d
      ensures !s.free[i] && s.own[i] == h
    {
      ChainShape(n, s, h);
      var k :| 0 <= k < |s.chains[h].d| && s.chains[h].d[k] == i;
    }
  }
}
