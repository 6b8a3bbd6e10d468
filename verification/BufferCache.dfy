/** The buffer cache of bio.c: NBUF buffers on a circular doubly linked list through a
    sentinel, kept in order of use. Pointers are indices; index nbuf is bcache.head. */
module BufferCache {

  datatype Buf = Buf(dev: nat, blockno: nat, valid: bool, refcnt: int)

  datatype Found = Hit(b: nat) | Recycled(b: nat) | NoBuffers

  // ------------------------------------------------------------ the ring

  ghost predicate Distinct(s: seq<nat>) {
    forall i, j | 0 <= i < j < |s| :: s[i] != s[j]
  }

  /** Neighbouring positions on a ring of n. */
  function Up(i: nat, n: nat): (r: nat)
    requires i < n
    ensures r < n
  {
    if i + 1 == n then 0 else i + 1
  }

  function Down(i: nat, n: nat): (r: nat)
    requires i < n
    ensures r < n
  {
    if i == 0 then n - 1 else i - 1
  }

  /** Following next visits ring in order and comes back; prev goes the other way. */
  ghost predicate Linked(ring: seq<nat>, next: seq<nat>, prev: seq<nat>) {
    && |ring| >= 1 && |next| == |prev| && Distinct(ring)
    && (forall i | 0 <= i < |ring| :: ring[i] < |next|)
    && (forall i | 0 <= i < |ring| :: next[ring[i]] == ring[Up(i, |ring|)] && prev[ring[i]] == ring[Down(i, |ring|)])
  }

  ghost function Without(s: seq<nat>, i: nat): (r: seq<nat>)
    requires i < |s|
    ensures |r| == |s| - 1
    ensures forall k | 0 <= k < |r| :: r[k] == s[if k < i then k else k + 1]
  {
    s[..i] + s[i + 1..]
  }

  /** Taking an element out of the ring: its two neighbours become neighbours. */
  lemma UnlinkRing(ring: seq<nat>, next: seq<nat>, prev: seq<nat>, i: nat)
    requires Linked(ring, next, prev) && 1 <= i < |ring|
    ensures next[ring[i]] < |next| && prev[ring[i]] < |next|
    ensures var b := ring[i];
            Linked(Without(ring, i), next[prev[b] := next[b]], prev[next[b] := prev[b]])
  {
    hide Linked, Without, Distinct, Up, Down;
    var r := Without(ring, i);
    LinkedAt(ring, next, prev, i);
    var nx, pv := next[prev[ring[i]] := next[ring[i]]], prev[next[ring[i]] := prev[ring[i]]];
    forall k | 0 <= k < |r|
      ensures r[k] < |next| && nx[r[k]] == r[Up(k, |r|)] && pv[r[k]] == r[Down(k, |r|)]
    {
      UnlinkStep(ring, next, prev, i, k);
    }
    DistinctWithout(ring, next, prev, i);
    LinkedIntro(r, nx, pv);
  }

  lemma LinkedAt(ring: seq<nat>, next: seq<nat>, prev: seq<nat>, i: nat)
    requires Linked(ring, next, prev) && i < |ring|
    ensures |next| == |prev| && ring[i] < |next|
    ensures next[ring[i]] == ring[Up(i, |ring|)] < |next| && prev[ring[i]] == ring[Down(i, |ring|)] < |next|
  {
    hide Distinct;
  }

  /** The neighbours of the k-th element that stays. */
  lemma UnlinkStep(ring: seq<nat>, next: seq<nat>, prev: seq<nat>, i: nat, k: nat)
    requires Linked(ring, next, prev) && 1 <= i < |ring| && k < |ring| - 1
    requires next[ring[i]] < |next| == |prev| && prev[ring[i]] < |next|
    ensures var b, r, n := ring[i], Without(ring, i), |ring| - 1;
            && r[k] < |next|
            && next[prev[b] := next[b]][r[k]] == r[Up(k, n)] && prev[next[b] := prev[b]][r[k]] == r[Down(k, n)]
  {
    hide Linked, Up, Down, Distinct;
    UnlinkAt(ring, next, prev, i, if k < i then k else k + 1);
    UpWithout(i, k, |ring|);
  }

  lemma LinkedIntro(ring: seq<nat>, next: seq<nat>, prev: seq<nat>)
    requires |ring| >= 1 && |next| == |prev| && Distinct(ring)
    requires forall i | 0 <= i < |ring| :: ring[i] < |next|
    requires forall i | 0 <= i < |ring| ::
               next[ring[i]] == ring[Up(i, |ring|)] && prev[ring[i]] == ring[Down(i, |ring|)]
    ensures Linked(ring, next, prev)
  {
  }

  lemma DistinctWithout(ring: seq<nat>, next: seq<nat>, prev: seq<nat>, i: nat)
    requires Linked(ring, next, prev) && i < |ring|
    ensures Distinct(Without(ring, i))
  {
  }

  lemma UpWithout(i: nat, k: nat, n: nat)
    requires i < n && k < n - 1
    ensures var m, u, d := (if k < i then k else k + 1), Up(k, n - 1), Down(k, n - 1);
            && (if u < i then u else u + 1) == (if Up(m, n) == i then Up(i, n) else Up(m, n))
            && (if d < i then d else d + 1) == (if Down(m, n) == i then Down(i, n) else Down(m, n))
  {
  }

  lemma Apart(ring: seq<nat>, next: seq<nat>, prev: seq<nat>, i: nat, j: nat)
    requires Linked(ring, next, prev) && i < |ring| && j < |ring|
    ensures i != j ==> ring[i] != ring[j]
  {
  }

  lemma UnlinkAt(ring: seq<nat>, next: seq<nat>, prev: seq<nat>, i: nat, m: nat)
    requires Linked(ring, next, prev) && 1 <= i < |ring| && m < |ring| && m != i
    ensures var n, b := |ring|, ring[i];
            && next[b] < |next| && prev[b] < |next| && ring[m] < |next|
            && next[prev[b] := next[b]][ring[m]] == ring[if Up(m, n) == i then Up(i, n) else Up(m, n)]
            && prev[next[b] := prev[b]][ring[m]] == ring[if Down(m, n) == i then Down(i, n) else Down(m, n)]
  {
    hide Linked, Distinct;
    LinkedAt(ring, next, prev, i);
    LinkedAt(ring, next, prev, m);
    Apart(ring, next, prev, m, Down(i, |ring|));
    Apart(ring, next, prev, m, Up(i, |ring|));
  }

  /** Inserting b behind the sentinel. */
  lemma PushRing(ring: seq<nat>, next: seq<nat>, prev: seq<nat>, b: nat)
    requires Linked(ring, next, prev) && b < |next| && b !in ring
    ensures next[ring[0]] < |next|
    ensures var h := ring[0];
            var n, p := next[b := next[h]], prev[b := h];
            Linked([h, b] + ring[1..], n[h := b], p[n[h] := b])
  {
    var h, r := ring[0], [ring[0], b] + ring[1..];
    var n, p := next[b := next[h]][h := b], prev[b := h][next[h] := b];
    forall k | 2 <= k < |r|
      ensures r[k] == ring[k - 1]
    {
    }
    forall k | 0 <= k < |r|
      ensures n[r[k]] == r[Up(k, |r|)] && p[r[k]] == r[Down(k, |r|)]
    {
      if k >= 2 {
        assert k - 1 != Up(0, |ring|) ==> ring[k - 1] != next[h];
      } else if k == 0 {
        assert |ring| > 1 ==> ring[0] != next[h];
      }
    }
  }

  /** Both together: the element at position i of the list moves behind the sentinel h. */
  lemma RelinkFront(h: nat, order: seq<nat>, next: seq<nat>, prev: seq<nat>, i: nat)
    requires Linked([h] + order, next, prev) && i < |order|
    ensures Distinct(order)
    ensures var b := order[i];
            && b < |next| && next[b] < |next| && prev[b] < |next| && h < |next|
            && var n1, p1 := next[prev[b] := next[b]], prev[next[b] := prev[b]];
            && n1[h] < |next|
            && var n2, p2 := n1[b := n1[h]], p1[b := h];
            && n2[h] < |next|
            && Linked([h] + ([b] + Without(order, i)), n2[h := b], p2[n2[h] := b])
  {
    var rest, b := Without(order, i), order[i];
    TailDistinct(h, order);
    WithoutShift(h, order, i);
    UnlinkRing([h] + order, next, prev, i + 1);
    assert ([h] + order)[0] == h && ([h] + order)[i + 1] == b;
    var n1, p1 := next[prev[b] := next[b]], prev[next[b] := prev[b]];
    hide Distinct, Without;
    PushRing([h] + rest, n1, p1, b);
  }

  lemma TailDistinct(h: nat, order: seq<nat>)
    requires Distinct([h] + order)
    ensures Distinct(order) && h !in order
  {
    var ring := [h] + order;
    forall k | 0 <= k < |order|
      ensures order[k] == ring[k + 1] && order[k] != h
    {
      assert ring[0] == h;
    }
  }

  lemma WithoutShift(h: nat, order: seq<nat>, i: nat)
    requires Distinct(order) && h !in order && i < |order|
    ensures var rest, b := Without(order, i), order[i];
            && Without([h] + order, i + 1) == [h] + rest
            && b !in [h] + rest
            && [h, b] + ([h] + rest)[1..] == [h] + ([b] + rest)
  {
    var rest, b := Without(order, i), order[i];
    assert ([h] + order)[..i + 1] == [h] + order[..i];
    assert ([h] + order)[i + 2..] == order[i + 1..];
    assert ([h] + rest)[1..] == rest;
    assert [h, b] + rest == [h] + ([b] + rest);
  }

  /** The list holds every buffer, the one put at the front last coming first. */
  ghost predicate Ranked(order: seq<nat>, stamp: seq<nat>, clock: nat) {
    && |order| == |stamp|
    && (forall i | 0 <= i < |order| :: order[i] < |stamp|)
    && (forall b | 0 <= b < |stamp| :: b in order && stamp[b] < clock)
    && (forall i, j | 0 <= i < j < |order| :: stamp[order[i]] > stamp[order[j]])
  }

  predicate SameBlock(a: Buf, b: Buf) { a.dev == b.dev && a.blockno == b.blockno }

  /** No two buffers stand for the same block, apart from buffers that have never been used, which all say (0, 0).
      Of these at most one is in use, and bget's search comes to it first. */
  ghost predicate OneEach(bufs: seq<Buf>, stamp: seq<nat>)
    requires |stamp| == |bufs|
  {
    forall i, j | 0 <= i < |bufs| && 0 <= j < |bufs| && i != j && SameBlock(bufs[i], bufs[j]) ::
      bufs[i].dev == bufs[i].blockno == 0 && (bufs[i].refcnt != 0 ==> bufs[j].refcnt == 0 && stamp[j] < stamp[i])
  }

  /** No block has two buffers that are in use. */
  lemma InUseOnce(bufs: seq<Buf>, stamp: seq<nat>, i: nat, j: nat)
    requires |stamp| == |bufs| && OneEach(bufs, stamp) && i < |bufs| && j < |bufs| && i != j
    requires bufs[i].refcnt != 0 && bufs[j].refcnt != 0
    ensures !SameBlock(bufs[i], bufs[j])
  {
  }

  lemma HitKeeps(bufs: seq<Buf>, stamp: seq<nat>, b: nat)
    requires |stamp| == |bufs| && OneEach(bufs, stamp) && b < |bufs|
    requires forall x | 0 <= x < |bufs| && x != b && SameBlock(bufs[x], bufs[b]) :: stamp[x] < stamp[b]
    ensures OneEach(bufs[b := bufs[b].(refcnt := bufs[b].refcnt + 1)], stamp)
  {
    var now := bufs[b := bufs[b].(refcnt := bufs[b].refcnt + 1)];
    forall i, j | 0 <= i < |now| && 0 <= j < |now| && i != j && SameBlock(now[i], now[j])
      ensures now[i].dev == now[i].blockno == 0 && (now[i].refcnt != 0 ==> now[j].refcnt == 0 && stamp[j] < stamp[i])
    {
      assert SameBlock(bufs[i], bufs[j]) && SameBlock(bufs[j], bufs[i]);
    }
  }

  lemma RecycleKeeps(bufs: seq<Buf>, stamp: seq<nat>, b: nat, now: Buf)
    requires |stamp| == |bufs| && OneEach(bufs, stamp) && b < |bufs|
    requires forall x | 0 <= x < |bufs| :: !SameBlock(bufs[x], now)
    ensures OneEach(bufs[b := now], stamp)
  {
  }

  lemma ReleaseKeeps(bufs: seq<Buf>, stamp: seq<nat>, b: nat, more: int, stamp': seq<nat>)
    requires |stamp| == |bufs| == |stamp'| && OneEach(bufs, stamp) && b < |bufs| && bufs[b].refcnt > 0
    requires stamp' == stamp || (bufs[b].refcnt + more == 0 && stamp' == stamp[b := stamp'[b]])
    ensures OneEach(bufs[b := bufs[b].(refcnt := bufs[b].refcnt + more)], stamp')
  {
    var now := bufs[b := bufs[b].(refcnt := bufs[b].refcnt + more)];
    forall i, j | 0 <= i < |now| && 0 <= j < |now| && i != j && SameBlock(now[i], now[j])
      ensures now[i].dev == now[i].blockno == 0 && (now[i].refcnt != 0 ==> now[j].refcnt == 0 && stamp'[j] < stamp'[i])
    {
      assert SameBlock(bufs[i], bufs[j]) && SameBlock(bufs[j], bufs[i]);
    }
  }

  class Cache {
    const nbuf: nat
    var bufs: seq<Buf>
    var next: seq<nat>
    var prev: seq<nat>
    ghost var order: seq<nat>  // the buffers from most to least recently used
    ghost var stamp: seq<nat>  // when each buffer was last put at the front
    ghost var clock: nat

    ghost predicate Valid()
      reads this
    {
      && |bufs| == |order| == |stamp| == nbuf && |next| == |prev| == nbuf + 1
      && Linked([nbuf] + order, next, prev)
      && Ranked(order, stamp, clock)
    }

    ghost predicate Unique()
      reads this
    {
      |stamp| == |bufs| && OneEach(bufs, stamp)
    }

    ghost predicate Caches(dev: nat, blockno: nat)
      reads this
    {
      exists i | 0 <= i < |bufs| :: bufs[i].dev == dev && bufs[i].blockno == blockno
    }

    ghost function Position(b: nat): (i: nat)
      requires Valid() && b < nbuf
      reads this
      ensures i < |order| && order[i] == b
    {
      assert b in order;
      var i :| 0 <= i < |order| && order[i] == b;
      i
    }

    constructor (nbuf: nat)
      ensures Valid() && Unique() && this.nbuf == nbuf
      ensures forall i | 0 <= i < nbuf :: bufs[i] == Buf(0, 0, false, 0)
      ensures forall i | 0 <= i < nbuf :: order[i] == nbuf - 1 - i
    {
      this.nbuf := nbuf;
      bufs := seq(nbuf, _ => Buf(0, 0, false, 0));
      next := seq(nbuf + 1, _ => nbuf);
      prev := seq(nbuf + 1, _ => nbuf);
      order, stamp, clock := [], seq(nbuf, i => i), nbuf;
      new;
      var b := 0;
      while b < nbuf
        invariant 0 <= b <= nbuf == this.nbuf && |order| == b && |next| == nbuf + 1
        invariant forall i | 0 <= i < b :: order[i] == b - 1 - i
        invariant Linked([nbuf] + order, next, prev)
        invariant bufs == seq(nbuf, _ => Buf(0, 0, false, 0)) && stamp == seq(nbuf, i => i) && clock == nbuf
      {
        PushRing([nbuf] + order, next, prev, b);
        assert [nbuf, b] + ([nbuf] + order)[1..] == [nbuf] + ([b] + order);
        PushFront(b);
        order := [b] + order;
        b := b + 1;
      }
      forall x | 0 <= x < nbuf
        ensures x in order
      {
        assert order[nbuf - 1 - x] == x;
      }
    }

    method PushFront(b: nat)
      requires b <= nbuf && |next| == |prev| == nbuf + 1 && next[nbuf] <= nbuf
      modifies this`next, this`prev
      ensures var n := old(next)[b := old(next)[nbuf]];
              next == n[nbuf := b] && prev == old(prev)[b := nbuf][n[nbuf] := b]
    {
      next := next[b := next[nbuf]];
      prev := prev[b := nbuf];
      prev := prev[next[nbuf] := b];
      next := next[nbuf := b];
    }

    /** bget's first loop: from the most recently used end. */
    method FindCached(dev: nat, blockno: nat) returns (b: nat)
      requires Valid()
      ensures b <= nbuf && (b < nbuf <==> Caches(dev, blockno))
      ensures b < nbuf ==> bufs[b].dev == dev && bufs[b].blockno == blockno
      ensures b < nbuf ==> forall x | 0 <= x < nbuf && x != b && SameBlock(bufs[x], bufs[b]) :: stamp[x] < stamp[b]
    {
      ghost var ring := [nbuf] + order;
      assert ring[0] == nbuf;
      b := next[nbuf];
      ghost var at := Up(0, |ring|);
      while b != nbuf && !(bufs[b].dev == dev && bufs[b].blockno == blockno)
        invariant at < |ring| && b == ring[at] && (at == 0 <==> b == nbuf)
        invariant at > 0 ==> b < nbuf
        invariant forall i | 1 <= i < (if at == 0 then |ring| else at) ::
                    !(bufs[ring[i]].dev == dev && bufs[ring[i]].blockno == blockno)
        decreases if at == 0 then 0 else |ring| - at
      {
        b := next[b];
        at := Up(at, |ring|);
        assert at > 0 ==> ring[at] == order[at - 1];
      }
      if b == nbuf {
        forall x | 0 <= x < nbuf
          ensures !(bufs[x].dev == dev && bufs[x].blockno == blockno)
        {
          assert ring[Position(x) + 1] == x;
        }
      } else {
        forall x | 0 <= x < nbuf && x != b && SameBlock(bufs[x], bufs[b])
          ensures stamp[x] < stamp[b]
        {
          assert ring[Position(x) + 1] == x && order[at - 1] == b;
        }
      }
    }

    /** bget's second loop: from the least recently used end. */
    method FindFree() returns (b: nat)
      requires Valid()
      ensures b <= nbuf
      ensures b < nbuf ==>
                bufs[b].refcnt == 0 && forall x | 0 <= x < nbuf && x != b && bufs[x].refcnt == 0 :: stamp[b] < stamp[x]
      ensures b == nbuf ==> forall x | 0 <= x < nbuf :: bufs[x].refcnt != 0
    {
      ghost var ring := [nbuf] + order;
      assert ring[0] == nbuf;
      b := prev[nbuf];
      ghost var at := |order|;
      while b != nbuf && bufs[b].refcnt != 0
        invariant 0 <= at <= |order| && b == ring[at] && (at == 0 <==> b == nbuf)
        invariant at > 0 ==> b < nbuf
        invariant forall i | at <= i < |order| :: bufs[order[i]].refcnt != 0
        decreases at
      {
        assert b == order[at - 1];
        b := prev[b];
        at := at - 1;
        assert at > 0 ==> ring[at] == order[at - 1];
      }
      forall x | 0 <= x < nbuf && x != b && bufs[x].refcnt == 0
        ensures b < nbuf && stamp[b] < stamp[x]
      {
        assert order[Position(x)] == x;
        assert at > 0 ==> b == order[at - 1];
      }
    }

    /** The buffer for a block, with its reference taken: the cached one if there is one, otherwise the
        least recently used buffer that nobody refers to. */
    method Bget(dev: nat, blockno: nat) returns (r: Found)
      requires Valid()
      modifies this`bufs
      ensures Valid()
      ensures r.Hit? <==> old(Caches(dev, blockno))
      ensures r.Hit? ==>
                && r.b < nbuf && old(bufs)[r.b].dev == dev && old(bufs)[r.b].blockno == blockno
                && bufs == old(bufs)[r.b := old(bufs)[r.b].(refcnt := old(bufs)[r.b].refcnt + 1)]
      ensures r.Recycled? ==>
                && r.b < nbuf && old(bufs)[r.b].refcnt == 0
                && bufs == old(bufs)[r.b := Buf(dev, blockno, false, 1)]
                && forall x | 0 <= x < nbuf && x != r.b && old(bufs)[x].refcnt == 0 :: stamp[r.b] < stamp[x]
      ensures r.NoBuffers? ==> bufs == old(bufs) && forall x | 0 <= x < nbuf :: bufs[x].refcnt != 0
      ensures old(Unique()) ==> Unique()
    {
      hide OneEach;
      var b := FindCached(dev, blockno);
      if b != nbuf {
        if Unique() {
          HitKeeps(bufs, stamp, b);
        }
        bufs := bufs[b := bufs[b].(refcnt := bufs[b].refcnt + 1)];
        return Hit(b);
      }
      b := FindFree();
      if b == nbuf {
        return NoBuffers;
      }
      if Unique() {
        RecycleKeeps(bufs, stamp, b, Buf(dev, blockno, false, 1));
      }
      bufs := bufs[b := Buf(dev, blockno, false, 1)];
      return Recycled(b);
    }

    /** Relinks b at the front. */
    method MoveFirst(b: nat)
      requires Valid() && b < nbuf
      modifies this`next, this`prev, this`order, this`stamp, this`clock
      ensures Valid()
      ensures order == [b] + Without(old(order), old(Position(b))) && stamp == old(stamp)[b := old(clock)]
    {
      hide Linked, Without, Distinct, Ranked;
      ghost var i := Position(b);
      RelinkFront(nbuf, order, next, prev, i);
      MoveToFront(order, stamp, i, clock);
      prev, next := prev[next[b] := prev[b]], next[prev[b] := next[b]];
      PushFront(b);
      order, stamp, clock := [b] + Without(order, i), stamp[b := clock], clock + 1;
    }

    /** Drops a reference; the last one moves the buffer to the front of the list. */
    method Brelse(b: nat)
      requires Valid() && b < nbuf
      modifies this
      ensures Valid()
      ensures bufs == old(bufs)[b := old(bufs)[b].(refcnt := old(bufs)[b].refcnt - 1)]
      ensures old(Unique()) && old(bufs)[b].refcnt > 0 ==> Unique()
      ensures bufs[b].refcnt != 0 ==> order == old(order) && stamp == old(stamp)
      ensures bufs[b].refcnt == 0 ==>
                order == [b] + Without(old(order), old(Position(b))) && stamp == old(stamp)[b := old(clock)]
    {
      hide OneEach;
      bufs := bufs[b := bufs[b].(refcnt := bufs[b].refcnt - 1)];
      assert Position(b) == old(Position(b));
      if bufs[b].refcnt == 0 {
        MoveFirst(b);
      }
      if old(Unique()) && old(bufs)[b].refcnt > 0 {
        ReleaseKeeps(old(bufs), old(stamp), b, -1, stamp);
      }
    }

    method Bpin(b: nat)
      requires Valid() && b < nbuf
      modifies this`bufs
      ensures Valid() && (old(Unique()) && old(bufs)[b].refcnt > 0 ==> Unique())
      ensures bufs == old(bufs)[b := old(bufs)[b].(refcnt := old(bufs)[b].refcnt + 1)]
    {
      hide OneEach;
      if Unique() && bufs[b].refcnt > 0 {
        ReleaseKeeps(bufs, stamp, b, 1, stamp);
      }
      bufs := bufs[b := bufs[b].(refcnt := bufs[b].refcnt + 1)];
    }

    method Bunpin(b: nat)
      requires Valid() && b < nbuf
      modifies this`bufs
      ensures Valid() && (old(Unique()) && old(bufs)[b].refcnt > 0 ==> Unique())
      ensures bufs == old(bufs)[b := old(bufs)[b].(refcnt := old(bufs)[b].refcnt - 1)]
    {
      hide OneEach;
      if Unique() && bufs[b].refcnt > 0 {
        ReleaseKeeps(bufs, stamp, b, -1, stamp);
      }
      bufs := bufs[b := bufs[b].(refcnt := bufs[b].refcnt - 1)];
    }
  }

  /** Moving an element to the front with a new largest stamp keeps the list complete and in stamp order. */
  lemma MoveToFront(order: seq<nat>, stamp: seq<nat>, i: nat, now: nat)
    requires i < |order| && Distinct(order) && Ranked(order, stamp, now)
    ensures order[i] < |stamp| && Ranked([order[i]] + Without(order, i), stamp[order[i] := now], now + 1)
  {
    var o, t := [order[i]] + Without(order, i), stamp[order[i] := now];
    forall k | 1 <= k < |o|
      ensures o[k] == order[if k <= i then k - 1 else k] && t[o[k]] == stamp[o[k]]
    {
    }
    forall b | 0 <= b < |stamp|
      ensures b in o
    {
      assert b in order;
      var k :| 0 <= k < |order| && order[k] == b;
      assert b == if k == i then o[0] else if k < i then o[k + 1] else o[k];
    }
  }
}
