/** The user-level allocator of riscv/user/umalloc.c: a circular, address-ordered free list whose
    blocks are merged with their neighbours when they are freed. Addresses count header units, so
    a block at address a with size n occupies the units a .. a + n, the first being its header. */
module UserAlloc {
  import opened Values

  const UNIT := 16
  const MIN_UNITS := 4096
  const INT_LIMIT := 0x8000_0000

  /** The block after index i in the circular list. */
  function Next(list: seq<int>, i: nat): (a: int)
    requires i < |list|
  {
    if i + 1 < |list| then list[i + 1] else list[0]
  }

  function NextIndex(n: nat, i: nat): (j: nat)
    requires i < n
    ensures j < n
  {
    if i + 1 < n then i + 1 else 0
  }

  /** Steps from index i to index f along a circular list of n blocks. */
  function Dist(n: nat, i: nat, f: nat): (d: nat)
    requires i < n && f < n
  {
    if i <= f then f - i else n - i + f
  }

  /** Headers exist in the memory that the allocator got and in its sentinel, nowhere else. */
  ghost predicate Domain(m: map<int, int>, memory: set<int>, base: int) {
    m.Keys == memory + {base}
  }

  lemma DomainKept(m: map<int, int>, memory: set<int>, base: int, a: int, v: int)
    requires Domain(m, memory, base) && a in m
    ensures Domain(m[a := v], memory, base)
  {
    assert m[a := v].Keys == m.Keys;
  }

  ghost predicate LinkedAt(ptr: map<int, int>, list: seq<int>, i: int) {
    0 <= i < |list| && list[i] in ptr && ptr[list[i]] == Next(list, i)
  }

  ghost predicate Ring(ptr: map<int, int>, list: seq<int>) {
    forall i :: 0 <= i < |list| ==> LinkedAt(ptr, list, i)
  }

  /** The list starts at the sentinel and its addresses go up. */
  ghost predicate Ascending(list: seq<int>, base: int) {
    && |list| >= 1 && list[0] == base
    && (forall i, j :: 0 <= i < j < |list| ==> list[i] < list[j])
  }

  /** Free neighbours other than the blocks t and t + 1 have been merged; t == 0 is the sentinel. */
  ghost predicate MergedBut(size: map<int, int>, list: seq<int>, t: nat) {
    forall i :: 0 < i && i + 1 < |list| && i != t ==>
      list[i] in size && list[i] + size[list[i]] != list[i + 1]
  }

  ghost predicate Merged(size: map<int, int>, list: seq<int>) {
    MergedBut(size, list, 0)
  }

  ghost predicate Covers(own: map<int, int>, a: int, n: int) {
    forall u :: a <= u < a + n ==> u in own && own[u] == a
  }

  /** The blocks tile the memory: own gives the one block that each unit belongs to. */
  ghost predicate Tiled(size: map<int, int>, blocks: set<int>, own: map<int, int>, base: int) {
    && (forall u :: u in own ==> u > base && u in size && own[u] in blocks && own[u] <= u)
    && (forall u :: u in own ==> own[u] in size && u < own[u] + size[own[u]])
    && (forall a :: a in blocks ==> a in own && own[a] == a)
    && (forall a :: a in blocks && a in size ==> Covers(own, a, size[a]))
  }

  ghost function Blocks(list: seq<int>, live: set<int>, base: int): (r: set<int>) {
    (set a | a in list && a != base) + live
  }

  /** Every block is live or in the free list, never both, and the blocks tile the memory. */
  ghost predicate Body(size: map<int, int>, list: seq<int>, live: set<int>, own: map<int, int>, base: int) {
    && Ascending(list, base) && base !in live
    && (forall i :: 0 <= i < |list| ==> list[i] in size) && size[base] == 0
    && (forall a :: a in live ==> a !in list)
    && Tiled(size, Blocks(list, live, base), own, base)
  }

  function Inserted(list: seq<int>, t: nat, bp: int): (r: seq<int>)
    requires t < |list|
  {
    list[..t + 1] + [bp] + list[t + 1..]
  }

  function Without(list: seq<int>, i: nat): (r: seq<int>)
    requires i < |list|
  {
    list[..i] + list[i + 1..]
  }

  /** The units of block b handed over to block a. */
  ghost function Moved(own: map<int, int>, a: int, b: int): (r: map<int, int>) {
    map u | u in own :: if own[u] == b then a else own[u]
  }

  /** bp goes between two list neighbours. */
  ghost predicate Place(list: seq<int>, t: nat, bp: int) {
    && t < |list| && list[t] < bp
    && (t + 1 < |list| ==> bp < list[t + 1])
  }

  lemma InsertedIsAscending(list: seq<int>, base: int, t: nat, bp: int)
    requires Ascending(list, base) && Place(list, t, bp)
    ensures Ascending(Inserted(list, t, bp), base)
    ensures forall a :: a in Inserted(list, t, bp) <==> a in list || a == bp
  {
    var r := Inserted(list, t, bp);
    assert r[t + 1] == bp;
    forall a | a in list
      ensures a in r
    {
      var i :| 0 <= i < |list| && list[i] == a;
      assert r[if i <= t then i else i + 1] == a;
    }
  }

  lemma WithoutIsAscending(list: seq<int>, base: int, k: nat)
    requires Ascending(list, base) && 0 < k < |list|
    ensures Ascending(Without(list, k), base)
    ensures forall a :: a in Without(list, k) <==> a in list && a != list[k]
  {
    var r := Without(list, k);
    forall a | a in list && a != list[k]
      ensures a in r
    {
      var i :| 0 <= i < |list| && list[i] == a;
      assert r[if i < k then i else i - 1] == a;
    }
  }

  /** Two blocks cannot overlap, because every unit has one owner. */
  lemma Apart(size: map<int, int>, blocks: set<int>, own: map<int, int>, base: int, a: int, b: int)
    requires Tiled(size, blocks, own, base) && a in blocks && b in blocks && a < b
    ensures a + size[a] <= b
  {
  }

  /** Block a takes over the block that starts where a ends. */
  lemma MergeKeepsTiling(size: map<int, int>, blocks: set<int>, own: map<int, int>, base: int, a: int, b: int)
    requires Tiled(size, blocks, own, base) && a in blocks && b in blocks && a + size[a] == b
    ensures Tiled(size[a := size[a] + size[b]], blocks - {b}, Moved(own, a, b), base)
  {
  }

  /** The units of block a from b on handed over to block b. */
  ghost function CutOff(own: map<int, int>, a: int, b: int): (r: map<int, int>) {
    map u | u in own :: if own[u] == a && u >= b then b else own[u]
  }

  /** Block a gives its last n units to a new block. */
  lemma CutKeepsTiling(size: map<int, int>, blocks: set<int>, own: map<int, int>, base: int, a: int, n: int,
                       b: int, size': map<int, int>, blocks': set<int>, own': map<int, int>)
    requires Tiled(size, blocks, own, base) && a in blocks && 0 < n < size[a] && b == a + size[a] - n
    requires size' == size[a := size[a] - n][b := n]
    requires blocks' == blocks + {b} && own' == CutOff(own, a, b)
    ensures b in own && own[b] == a && b !in blocks
    ensures Tiled(size', blocks', own', base)
  {
    assert Covers(own, a, size[a]);
    assert b in own && own[b] == a && b !in blocks;
    forall u | u in own'
      ensures own'[u] in size' && u < own'[u] + size'[own'[u]]
    {
      assert own[u] in blocks;
    }
    forall x | x in blocks' && x in size'
      ensures Covers(own', x, size'[x])
    {
      if x != a && x != b {
        assert Covers(own, x, size[x]);
      }
    }
  }

  lemma BodyInsert(size: map<int, int>, list: seq<int>, live: set<int>, own: map<int, int>, base: int, t: nat, bp: int)
    requires Body(size, list, live, own, base) && bp in live && Place(list, t, bp)
    ensures Body(size, Inserted(list, t, bp), live - {bp}, own, base)
  {
    assert bp in own;
    hide Tiled;
    InsertedIsAscending(list, base, t, bp);
    assert Blocks(Inserted(list, t, bp), live - {bp}, base) == Blocks(list, live, base);
  }

  lemma BodyMerge(size: map<int, int>, list: seq<int>, live: set<int>, own: map<int, int>, base: int, i: nat)
    requires Body(size, list, live, own, base)
    requires 0 < i && i + 1 < |list| && list[i] in size && list[i + 1] in size && list[i] + size[list[i]] == list[i + 1]
    ensures Body(size[list[i] := size[list[i]] + size[list[i + 1]]], Without(list, i + 1), live,
                 Moved(own, list[i], list[i + 1]), base)
  {
    var a, b := list[i], list[i + 1];
    assert a in list && b in list;
    MergeKeepsTiling(size, Blocks(list, live, base), own, base, a, b);
    hide Tiled, Without, Moved;
    WithoutIsAscending(list, base, i + 1);
    assert Blocks(Without(list, i + 1), live, base) == Blocks(list, live, base) - {b};
  }

  /** A free block leaves the list whole. */
  lemma BodyUnlink(size: map<int, int>, list: seq<int>, live: set<int>, own: map<int, int>, base: int, k: nat)
    requires Body(size, list, live, own, base) && 0 < k < |list|
    ensures Body(size, Without(list, k), live + {list[k]}, own, base)
  {
    hide Tiled;
    assert list[k] in list;
    WithoutIsAscending(list, base, k);
    assert Blocks(Without(list, k), live + {list[k]}, base) == Blocks(list, live, base);
  }

  /** The last n units of a free block become live. */
  lemma BodyCut(size: map<int, int>, list: seq<int>, live: set<int>, own: map<int, int>, base: int, k: nat, n: int,
                b: int, size': map<int, int>)
    requires Body(size, list, live, own, base) && 0 < k < |list|
    requires list[k] in size && 0 < n < size[list[k]] && b == list[k] + size[list[k]] - n
    requires size' == size[list[k] := size[list[k]] - n][b := n]
    ensures Body(size', list, live + {b}, CutOff(own, list[k], b), base)
    ensures b !in live && b in own && own[b] == list[k]
  {
    var a := list[k];
    assert a in list;
    CutKeepsTiling(size, Blocks(list, live, base), own, base, a, n, b, size', Blocks(list, live, base) + {b},
        CutOff(own, a, b));
    assert own[b] != base;
    hide Tiled, CutOff;
    assert b != base;
    assert Blocks(list, live + {b}, base) == Blocks(list, live, base) + {b};
  }

  // The pointers

  ghost predicate RingBut(ptr: map<int, int>, list: seq<int>, t: nat) {
    forall i :: 0 <= i < |list| && i != t ==> LinkedAt(ptr, list, i)
  }

  lemma LinkBp(ptr: map<int, int>, list: seq<int>, base: int, t: nat, bp: int)
    requires Ring(ptr, list) && Ascending(list, base) && Place(list, t, bp)
    ensures RingBut(ptr[bp := Next(list, t)], Inserted(list, t, bp), t)
  {
    var r, ptr' := Inserted(list, t, bp), ptr[bp := Next(list, t)];
    forall i | 0 <= i < |r| && i != t
      ensures LinkedAt(ptr', r, i)
    {
      assert i <= t ==> LinkedAt(ptr, list, i);
      assert i > t + 1 ==> LinkedAt(ptr, list, i - 1);
    }
  }

  lemma LinkBpMerged(ptr: map<int, int>, list: seq<int>, base: int, t: nat, bp: int)
    requires Ring(ptr, list) && Ascending(list, base) && Place(list, t, bp) && t + 1 < |list|
    ensures RingBut(ptr[bp := Next(list, t + 1)], list[t + 1 := bp], t)
  {
    var r, ptr' := list[t + 1 := bp], ptr[bp := Next(list, t + 1)];
    forall i | 0 <= i < |r| && i != t
      ensures LinkedAt(ptr', r, i)
    {
      assert LinkedAt(ptr, list, i);
    }
  }

  lemma LinkP(ptr: map<int, int>, list: seq<int>, base: int, t: nat)
    requires RingBut(ptr, list, t) && Ascending(list, base) && t + 1 < |list|
    ensures Ring(ptr[list[t] := list[t + 1]], list)
  {
    var ptr' := ptr[list[t] := list[t + 1]];
    forall i | 0 <= i < |list|
      ensures LinkedAt(ptr', list, i)
    {
      assert i != t ==> LinkedAt(ptr, list, i);
    }
  }

  lemma LinkPMerged(ptr: map<int, int>, list: seq<int>, base: int, t: nat)
    requires RingBut(ptr, list, t) && Ascending(list, base) && t + 1 < |list|
    ensures Ring(ptr[list[t] := Next(list, t + 1)], Without(list, t + 1))
  {
    var r, ptr' := Without(list, t + 1), ptr[list[t] := Next(list, t + 1)];
    forall i | 0 <= i < |r|
      ensures LinkedAt(ptr', r, i)
    {
      assert i < t ==> LinkedAt(ptr, list, i);
      assert i > t ==> LinkedAt(ptr, list, i + 1);
    }
  }

  /** What a step must leave alone: the contents of every live block. */
  ghost predicate Kept(ptr: map<int, int>, size: map<int, int>, own: map<int, int>, live: set<int>,
                       ptr': map<int, int>, size': map<int, int>, own': map<int, int>) {
    forall u :: u in own && own[u] in live ==>
                  && u in own' && own'[u] == own[u]
                  && u in ptr && u in ptr' && ptr'[u] == ptr[u]
                  && u in size && u in size' && size'[u] == size[u]
  }

  /** free(), first step: bp joins the list after index t and, if it can, takes over the next block. */
  lemma StepRight(size: map<int, int>, list: seq<int>, live: set<int>, own: map<int, int>, base: int,
                  t: nat, bp: int, size': map<int, int>, list': seq<int>, own': map<int, int>)
    requires Body(size, list, live, own, base) && Merged(size, list) && bp in live && Place(list, t, bp)
    requires bp in size && t + 1 < |list| && bp + size[bp] == list[t + 1]
    requires size' == size[bp := size[bp] + size[list[t + 1]]]
    requires list' == Without(Inserted(list, t, bp), t + 2) && own' == Moved(own, bp, list[t + 1])
    ensures Body(size', list', live - {bp}, own', base) && MergedBut(size', list', t)
    ensures list' == list[t + 1 := bp]
  {
    hide Tiled, Blocks, Moved;
    BodyInsert(size, list, live, own, base, t, bp);
    assert Inserted(list, t, bp)[t + 1] == bp && Inserted(list, t, bp)[t + 2] == list[t + 1];
    BodyMerge(size, Inserted(list, t, bp), live - {bp}, own, base, t + 1);
    MergedRight(size, list, t, bp, size', list');
  }

  lemma MergedRight(size: map<int, int>, list: seq<int>, t: nat, bp: int, size': map<int, int>, list': seq<int>)
    requires Merged(size, list) && t + 1 < |list| && list[t + 1] in size && bp !in list && bp in size
    requires bp + size[bp] == list[t + 1] && size' == size[bp := size[bp] + size[list[t + 1]]]
    requires list' == Without(Inserted(list, t, bp), t + 2)
    ensures list' == list[t + 1 := bp] && MergedBut(size', list', t)
  {
    assert list' == list[t + 1 := bp];
  }

  lemma StepNoRight(size: map<int, int>, list: seq<int>, live: set<int>, own: map<int, int>, base: int, t: nat, bp: int)
    requires Body(size, list, live, own, base) && Merged(size, list) && bp in live && Place(list, t, bp)
    requires bp in size && bp + size[bp] != Next(list, t)
    ensures Body(size, Inserted(list, t, bp), live - {bp}, own, base) && MergedBut(size, Inserted(list, t, bp), t)
  {
    BodyInsert(size, list, live, own, base, t, bp);
    hide Tiled, Blocks;
  }

  /** free(), second step: the block before bp takes it over. */
  lemma StepLeft(size: map<int, int>, list: seq<int>, live: set<int>, own: map<int, int>, base: int, t: nat,
                 size': map<int, int>)
    requires Body(size, list, live, own, base) && MergedBut(size, list, t)
    requires 0 < t && t + 1 < |list| && list[t] + size[list[t]] == list[t + 1]
    requires size' == size[list[t] := size[list[t]] + size[list[t + 1]]]
    ensures Body(size', Without(list, t + 1), live, Moved(own, list[t], list[t + 1]), base)
    ensures Merged(size', Without(list, t + 1))
  {
    BodyMerge(size, list, live, own, base, t);
    hide Tiled, Blocks, Moved;
  }

  /** Why the search stops: it moves closer to the place of bp until it is there. */
  lemma SearchStep(list: seq<int>, base: int, k: nat, t: nat, bp: int)
    requires Ascending(list, base) && Place(list, t, bp) && base < bp && k < |list|
    ensures var p, q := list[k], Next(list, k);
            if (p < bp < q) || (p >= q && (bp > p || bp < q)) then Place(list, k, bp)
            else Dist(|list|, NextIndex(|list|, k), t) < Dist(|list|, k, t)
  {
  }

  class Allocator {
    const base: int
    var ptr: map<int, int>
    var size: map<int, int>
    var freep: int
    ghost var list: seq<int>
    ghost var live: set<int>
    ghost var own: map<int, int>

    ghost predicate Valid()
      reads this
    {
      && base > 0 && Domain(ptr, own.Keys, base) && Domain(size, own.Keys, base)
      && if freep == 0 then list == [base] && live == {} && own == map[] else
           freep in list && Ring(ptr, list) && Body(size, list, live, own, base) && Merged(size, list)
    }

    constructor (at: int)
      requires at > 0
      ensures Valid() && live == {} && own == map[]
    {
      base, freep := at, 0;
      ptr, size := map[at := 0], map[at := 0];
      list, live, own := [at], {}, map[];
    }

    lemma ValidFacts(bp: int)
      requires Valid() && bp in live
      ensures base > 0 && freep != 0 && freep in list && Ring(ptr, list) && Merged(size, list)
      ensures Body(size, list, live, own, base) && Ascending(list, base)
      ensures Domain(ptr, own.Keys, base) && Domain(size, own.Keys, base)
      ensures bp in own && bp in ptr && bp in size && bp > base && bp !in list
    {
      assert bp in Blocks(list, live, base);
    }

    /** The search of free(): the list position that bp belongs to. */
    method FindPlace(bp: int) returns (p: int, ghost t: nat)
      requires Valid() && bp in live
      ensures t < |list| && Place(list, t, bp) && p == list[t]
    {
      hide Tiled, Body, Merged, Blocks, Ascending, Place, Dist, Valid;
      ValidFacts(bp);
      p := freep;
      ghost var k :| 0 <= k < |list| && list[k] == p;
      ghost var goal := Below(list, base, bp);
      SearchStep(list, base, k, goal, bp);
      assert LinkedAt(ptr, list, k);
      while !(bp > p && bp < ptr[p])
        invariant 0 <= k < |list| && p == list[k]
        invariant LinkedAt(ptr, list, k)
        invariant p < bp < Next(list, k) ==> Place(list, k, bp)
        decreases Dist(|list|, k, goal)
      {
        SearchStep(list, base, k, goal, bp);
        if p >= ptr[p] && (bp > p || bp < ptr[p]) {
          break;
        }
        p := ptr[p];
        k := NextIndex(|list|, k);
        SearchStep(list, base, k, goal, bp);
      }
      t := k;
    }

    /** The first half of free(): bp points at the block after it, or takes that block over. */
    method JoinRight(bp: int, p: int, ghost t: nat)
      requires Valid() && bp in live && t < |list| && Place(list, t, bp) && p == list[t]
      modifies this`ptr, this`size, this`list, this`live, this`own
      ensures RightDone(old(ptr), old(size), old(list), old(live), old(own), ptr, size, list, own, base, t, bp)
      ensures live == old(live) - {bp}
    {
      hide *;
      ValidFacts(bp);
      PlaceFacts(ptr, size, list, live, own, base, t, bp);
      var q := ptr[p];
      if bp + size[bp] == q {
        RightMerges(ptr, size, list, live, own, base, t, bp);
        ptr, size := ptr[bp := ptr[q]], size[bp := size[bp] + size[q]];
        list, own := list[t + 1 := bp], Moved(own, bp, q);
      } else {
        RightLinks(ptr, size, list, live, own, base, t, bp);
        ptr := ptr[bp := q];
        list := Inserted(list, t, bp);
      }
      live := live - {bp};
    }

    /** The second half of free(): the block before bp points at it, or takes it over. */
    method JoinLeft(bp: int, p: int, ghost t: nat)
      requires Half(ptr, size, list, live, own, base, t) && base > 0
      requires Domain(ptr, own.Keys, base) && Domain(size, own.Keys, base)
      requires t + 1 < |list| && list[t] == p && list[t + 1] == bp && bp in size
      modifies this
      ensures Valid() && live == old(live) && own.Keys == old(own.Keys) && freep == p
      ensures Kept(old(ptr), old(size), old(own), live, ptr, size, own)
      ensures HoldsRange(size, list, base, bp, old(size[bp]))
    {
      hide *;
      LeftFacts(ptr, size, list, live, own, base, t);
      if p + size[p] == bp {
        LeftMerges(ptr, size, list, live, own, base, t);
        ptr, size := ptr[p := ptr[bp]], size[p := size[p] + size[bp]];
        own, list := Moved(own, p, bp), Without(list, t + 1);
      } else {
        LeftLinks(ptr, size, list, live, own, base, t);
        ptr := ptr[p := bp];
      }
      freep := p;
      LeftValid(old(ptr), old(size), old(list), old(own), t);
    }

    lemma LeftValid(ptr0: map<int, int>, size0: map<int, int>, list0: seq<int>, own0: map<int, int>, t: nat)
      requires base > 0 && t + 1 < |list0| && freep == list0[t]
      requires LeftDone(ptr0, size0, list0, live, own0, ptr, size, list, own, base, t)
      ensures Valid() && own.Keys == own0.Keys && Kept(ptr0, size0, own0, live, ptr, size, own)
      ensures list0[t + 1] in size0 && HoldsRange(size, list, base, list0[t + 1], size0[list0[t + 1]])
    {
      assert list[0] == base && 0 < base <= freep;
    }

    /** Gives a live block back: it ends up in the free list, joined with the free blocks next to it. */
    method Free(ap: int)
      requires Valid() && ap - 1 in live
      modifies this
      ensures Valid() && live == old(live) - {ap - 1} && own.Keys == old(own.Keys) && freep != 0
      ensures Kept(old(ptr), old(size), old(own), live, ptr, size, own)
      ensures ap - 1 in old(size) && HoldsRange(size, list, base, ap - 1, old(size[ap - 1]))
    {
      hide *;
      var bp := ap - 1;
      ValidFacts(bp);
      var p, t := FindPlace(bp);
      JoinRight(bp, p, t);
      RightFacts(old(ptr), old(size), old(list), old(live), old(own), ptr, size, list, own, base, t, bp);
      ghost var ptr1, size1, own1 := ptr, size, own;
      JoinLeft(bp, p, t);
      KeptTrans(old(ptr), old(size), old(own), live, ptr1, size1, own1, ptr, size, own);
      HoldsLess(size, list, base, bp, old(size[bp]), size1[bp]);
    }

    lemma RingFacts(k: nat)
      requires Valid() && freep != 0 && k < |list|
      ensures base > 0 && freep in list && Ring(ptr, list) && Merged(size, list)
      ensures Body(size, list, live, own, base) && Ascending(list, base)
      ensures Domain(ptr, own.Keys, base) && Domain(size, own.Keys, base)
      ensures list[k] in ptr && list[k] in size && ptr[list[k]] == Next(list, k)
      ensures list[k] in list && list[k] > 0 && (list[k] == base <==> k == 0) && size[base] == 0
    {
      assert LinkedAt(ptr, list, k);
    }

    lemma FoldValid()
      requires base > 0 && freep != 0 && freep in list && Ring(ptr, list) && Merged(size, list)
      requires Body(size, list, live, own, base)
      requires Domain(ptr, own.Keys, base) && Domain(size, own.Keys, base)
      ensures Valid()
    {
    }

    /** Gets memory from sbrk and frees it into the list; `more` is what sbrk answers. */
    method MoreCore(nu: nat, more: Option<int>) returns (r: int)
      requires Valid() && freep != 0
      requires more.Some? ==> more.value > base && (forall u :: u in own ==> u < more.value)
      modifies this
      ensures Valid() && live == old(live) && freep != 0
      ensures more.None? ==> r == 0 && unchanged(this)
      ensures more.Some? ==> r == freep
      ensures more.Some? ==> own.Keys == old(own.Keys) + Units(more.value, CoreUnits(nu))
      ensures more.Some? ==> HoldsRange(size, list, base, more.value, CoreUnits(nu))
      ensures Kept(old(ptr), old(size), old(own), live, ptr, size, own)
    {
      hide *;
      NotEmpty();
      RingFacts(0);
      KeptRefl(ptr, size, own, live, base);
      if more.None? {
        return 0;
      }
      var n := CoreUnits(nu);
      var hp := more.value;
      CoreIsPositive(nu);
      GrownBody(ptr, size, list, live, own, base, hp, n);
      GrownKept(ptr, size, live, own, base, hp, n);
      GrownDomain(ptr, own, base, hp, n, 0);
      GrownDomain(size, own, base, hp, n, n);
      ptr, size := Grown(ptr, hp, n, 0), Grown(size, hp, n, n);
      own, live := Given(own, hp, n), live + {hp};
      FoldValid();
      ghost var ptr1, size1, own1 := ptr, size, own;
      GrownAt(old(size), hp, n, n);
      Free(hp + 1);
      assert live == old(live);
      KeptTrans(old(ptr), old(size), old(own), live, ptr1, size1, own1, ptr, size, own);
      r := freep;
    }

    /** After morecore the search goes on behind freep, and a block that fits lies ahead. */
    lemma Refilled(nu: nat, hp: int) returns (goal: nat, f: nat)
      requires Valid() && freep != 0 && HoldsRange(size, list, base, hp, CoreUnits(nu))
      ensures goal < |list| && f < |list| && list[f] == freep && list[goal] in size && size[list[goal]] >= nu
      ensures Dist(|list|, NextIndex(|list|, f), goal) <= Dist(|list|, NextIndex(|list|, f), f)
    {
      hide *;
      CoreIsPositive(nu);
      goal := FitIndex(size, list, base, hp, CoreUnits(nu));
      NotEmpty();
      RingFacts(0);
      f := IndexOf(list, freep);
      NextIsLast(|list|, f, goal);
    }

    lemma NotEmpty()
      requires Valid()
      ensures |list| > 0
    {
    }

    /** malloc asks for memory: a block that is large enough is then found before the search is back where it is. */
    method Refill(nu: nat, more: Option<int>) returns (r: int, ghost goal: nat, ghost f: nat)
      requires Valid() && freep != 0
      requires more.Some? ==> more.value > base && (forall u :: u in own ==> u < more.value)
      modifies this
      ensures Valid() && live == old(live) && freep != 0
      ensures more.None? ==> r == 0 && unchanged(this)
      ensures more.Some? ==> r == freep
      ensures more.Some? ==> own.Keys == old(own.Keys) + Units(more.value, CoreUnits(nu))
      ensures more.Some? ==> goal < |list| && f < |list| && list[f] == freep
      ensures more.Some? ==> list[goal] in size && size[list[goal]] >= nu
      ensures more.Some? ==> Dist(|list|, NextIndex(|list|, f), goal) <= Dist(|list|, NextIndex(|list|, f), f)
      ensures Kept(old(ptr), old(size), old(own), live, ptr, size, own)
    {
      hide *;
      r := MoreCore(nu, more);
      goal, f := 0, 0;
      if more.Some? {
        goal, f := Refilled(nu, more.value);
      }
    }

    /** The end of a successful malloc: takes nunits units out of the free block p. */
    method Take(prevp: int, p: int, nunits: nat, ghost k: nat) returns (r: int)
      requires Valid() && freep != 0 && 0 < k < |list| && list[k - 1] == prevp && list[k] == p
      requires nunits >= 1 && p in size && size[p] >= nunits
      modifies this
      ensures Valid() && freep != 0 && own.Keys == old(own.Keys)
      ensures r - 1 !in old(live) && live == old(live) + {r - 1} && r > base && r - 1 in size && size[r - 1] == nunits
      ensures Kept(old(ptr), old(size), old(own), old(live), ptr, size, own)
    {
      hide *;
      RingFacts(k);
      RingFacts(k - 1);
      if size[p] == nunits {
        Unlinked(ptr, size, list, live, own, base, k);
        ptr := ptr[prevp := ptr[p]];
        list, live := Without(list, k), live + {p};
        r := p + 1;
      } else {
        ghost var b := p + size[p] - nunits;
        CutInHalf(ptr, size, list, live, own, base, k, nunits);
        own := CutOff(own, p, b);
        size := size[p := size[p] - nunits];
        r := p + size[p];
        size := size[r := nunits];
        live := live + {r};
        r := r + 1;
      }
      freep := prevp;
      FoldValid();
    }

    lemma FreshBody()
      requires Valid() && freep == 0
      ensures base > 0 && base in ptr && base in size && list == [base] && live == {} && own == map[]
      ensures Ring(ptr[base := base], list) && Body(size[base := 0], list, live, own, base)
      ensures Merged(size[base := 0], list) && base in list
      ensures Domain(ptr[base := base], own.Keys, base) && Domain(size[base := 0], own.Keys, base)
    {
      assert LinkedAt(ptr[base := base], list, 0);
      assert Blocks(list, live, base) == {};
    }

    /** The first call of malloc: the list holds only the sentinel. */
    method Start()
      requires Valid()
      modifies this`ptr, this`size, this`freep
      ensures Valid() && freep != 0
      ensures SameSizes(size, old(size), list, base)
      ensures Kept(old(ptr), old(size), old(own), live, ptr, size, own)
    {
      hide *;
      NotEmpty();
      if freep == 0 {
        FreshBody();
        ptr, size := ptr[base := base], size[base := 0];
        freep := base;
        FoldValid();
        KeptNothing(old(ptr), old(size), ptr, size);
        SameSizesNone(size, old(size), base);
      } else {
        RingFacts(0);
        KeptRefl(ptr, size, own, live, base);
        SameSizesRefl(size, list, live, own, base);
      }
    }

    /** Allocates nbytes bytes; `more` is what sbrk answers if it is asked, namely memory of the size asked for, which
        it cannot be for the largest requests (SbrkArgument). */
    method Malloc(nbytes: nat, more: Option<int>) returns (r: int, ghost asked: bool)
      requires Valid() && nbytes < 2 * INT_LIMIT
      requires more.Some? && NoneFits(size, list, base, NUnits(nbytes)) ==> nbytes <= INT_LIMIT - 2 * UNIT
      requires more.Some? ==> more.value > base && (forall u :: u in own ==> u < more.value)
      modifies this
      ensures Valid()
      ensures r == 0 <==> asked && more.None?
      ensures r == 0 ==> live == old(live)
      ensures r != 0 ==> r - 1 !in old(live) && live == old(live) + {r - 1}
      ensures r != 0 ==> r - 1 in size && size[r - 1] == NUnits(nbytes)
      ensures asked <==> NoneFits(old(size), old(list), base, NUnits(nbytes))
      ensures own.Keys == if asked && r != 0 then old(own.Keys) + Units(more.value, CoreUnits(NUnits(nbytes)))
              else old(own.Keys)
      ensures Kept(old(ptr), old(size), old(own), old(live), ptr, size, own)
    {
      hide *;
      UnitsArePositive(nbytes);
      var nunits := NUnits(nbytes);
      Start();
      ghost var ptr1, size1, own1 := ptr, size, own;
      SameFits(size, old(size), list, base, nunits);
      r, asked := Search(nunits, more);
      KeptTrans(old(ptr), old(size), old(own), old(live), ptr1, size1, own1, ptr, size, own);
    }

    /** Takes the block p that the search has reached; ptr0, size0, own0 and live0 are the state in which the
        search began. */
    method Found(prevp: int, p: int, nunits: nat, ghost kp: nat, ghost ptr0: map<int, int>, ghost size0: map<int, int>,
                 ghost own0: map<int, int>, ghost live0: set<int>) returns (r: int)
      requires Valid() && freep != 0 && kp < |list| && list[kp] == prevp && list[NextIndex(|list|, kp)] == p
      requires nunits >= 1 && p in size && size[p] >= nunits && live == live0
      requires Kept(ptr0, size0, own0, live0, ptr, size, own)
      modifies this
      ensures Valid() && own.Keys == old(own.Keys)
      ensures r != 0 && r - 1 !in live0 && live == live0 + {r - 1} && r - 1 in size && size[r - 1] == nunits
      ensures !NoneFits(old(size), old(list), base, nunits)
      ensures Kept(ptr0, size0, own0, live0, ptr, size, own)
    {
      hide *;
      ghost var k := NextIndex(|list|, kp);
      RingFacts(k);
      BeforeIndex(|list|, kp);
      Fits(size, list, base, k, nunits);
      ghost var ptr1, size1, own1 := ptr, size, own;
      r := Take(prevp, p, nunits, k);
      KeptTrans(ptr0, size0, own0, live0, ptr1, size1, own1, ptr, size, own);
    }

    /** malloc's loop. */
    method Search(nunits: nat, more: Option<int>) returns (r: int, ghost asked: bool)
      requires Valid() && freep != 0 && nunits >= 1
      requires more.Some? ==> more.value > base && (forall u :: u in own ==> u < more.value)
      modifies this
      ensures Valid()
      ensures r == 0 <==> asked && more.None?
      ensures r == 0 ==> live == old(live)
      ensures r != 0 ==> r - 1 !in old(live) && live == old(live) + {r - 1}
      ensures r != 0 ==> r - 1 in size && size[r - 1] == nunits
      ensures asked <==> NoneFits(old(size), old(list), base, nunits)
      ensures own.Keys == if asked && r != 0 then old(own.Keys) + Units(more.value, CoreUnits(nunits))
              else old(own.Keys)
      ensures Kept(old(ptr), old(size), old(own), old(live), ptr, size, own)
    {
      hide *;
      asked := false;
      var prevp := freep;
      NotEmpty();
      RingFacts(0);
      KeptRefl(ptr, size, own, live, base);
      ghost var kp: nat := IndexOf(list, freep);
      ghost var goal: nat, f: nat := kp, kp;
      ghost var k: nat := NextIndex(|list|, kp);
      NextIsAt(list, kp);
      RingFacts(kp);
      ScanStart(size, list, goal, nunits);
      var p := ptr[prevp];
      while true
        invariant Valid() && freep != 0 && live == old(live)
        invariant kp < |list| && k < |list| && goal < |list| && f < |list|
        invariant list[kp] == prevp && list[k] == p && k == NextIndex(|list|, kp) && list[f] == freep
        invariant !asked ==>
                    goal == f && Scanned(size, list, f, k, nunits) && list == old(list) && own == old(own)
                    && size == old(size)
        invariant asked ==>
                    list[goal] in size && size[list[goal]] >= nunits && Dist(|list|, k, goal) <= Dist(|list|, k, f)
        invariant asked ==> more.Some? && NoneFits(old(size), old(list), base, nunits)
        invariant asked ==> own.Keys == old(own.Keys) + Units(more.value, CoreUnits(nunits))
        invariant Kept(old(ptr), old(size), old(own), old(live), ptr, size, own)
        decreases !asked, Dist(|list|, k, goal)
      {
        RingFacts(k);
        if size[p] >= nunits {
          r := Found(prevp, p, nunits, kp, old(ptr), old(size), old(own), old(live));
          return;
        }
        DistFacts(|list|, k, goal);
        DistFacts(|list|, k, f);
        if p == freep {
          SameIndex(list, base, k, f);
          assert !asked;
          ScanDone(size, list, base, f, nunits);
          asked := true;
          ghost var ptr1, size1, own1 := ptr, size, own;
          p, goal, f := Refill(nunits, more);
          KeptTrans(old(ptr), old(size), old(own), old(live), ptr1, size1, own1, ptr, size, own);
          if p == 0 {
            return 0, asked;
          }
          k := f;
        } else {
          ScanStep(size, list, goal, k, nunits, asked);
        }
        NextIsAt(list, k);
        RingFacts(k);
        prevp, p := p, ptr[p];
        kp, k := k, NextIndex(|list|, k);
      }
    }
  }

  function NUnits(nbytes: nat): (n: nat) {
    (nbytes + UNIT - 1) / UNIT + 1
  }

  /** The last list entry below bp. */
  ghost function Below(list: seq<int>, base: int, bp: int): (t: nat)
    requires Ascending(list, base) && base < bp && bp !in list
    ensures t < |list| && Place(list, t, bp)
  {
    if list[|list| - 1] < bp then |list| - 1 else
      assert |list| > 1 && list[|list| - 1] > bp;
      Below(list[..|list| - 1], base, bp)
  }

  /** Between the two halves of free(): the list holds bp, but the block before it does not point there yet. */
  ghost predicate Half(ptr: map<int, int>, size: map<int, int>, list: seq<int>, live: set<int>, own: map<int, int>,
                       base: int, t: nat) {
    RingBut(ptr, list, t) && Body(size, list, live, own, base) && MergedBut(size, list, t)
  }

  lemma PlaceFacts(ptr: map<int, int>, size: map<int, int>, list: seq<int>, live: set<int>, own: map<int, int>,
                   base: int, t: nat, bp: int)
    requires Ring(ptr, list) && Body(size, list, live, own, base) && bp in live && Place(list, t, bp)
    ensures bp in own && bp in size && own[bp] == bp && bp > base && size[bp] >= 1
    ensures Ascending(list, base)
    ensures list[t] in ptr && ptr[list[t]] == Next(list, t) && Next(list, t) in size && Next(list, t) in ptr
    ensures t + 1 < |list| <==> bp < Next(list, t)
    ensures t + 1 < |list| ==>
              list[t + 1] == Next(list, t) && list[t + 1] in ptr && ptr[list[t + 1]] == Next(list, t + 1)
    ensures t + 1 < |list| ==>
              list[t + 1] !in live && list[t + 1] in own && own[list[t + 1]] == list[t + 1] && size[list[t + 1]] >= 1
    ensures |Inserted(list, t, bp)| == |list| + 1
    ensures Inserted(list, t, bp)[t] == list[t] && Inserted(list, t, bp)[t + 1] == bp
  {
    assert LinkedAt(ptr, list, t) && LinkedAt(ptr, list, 0);
    if t + 1 < |list| {
      assert list[t + 1] in list;
      assert LinkedAt(ptr, list, t + 1);
      assert list[t + 1] in Blocks(list, live, base);
    }
    assert bp in Blocks(list, live, base);
  }

  /** What the first half of free() leaves. */
  ghost predicate RightDone(ptr: map<int, int>, size: map<int, int>, list: seq<int>, live: set<int>, own: map<int, int>,
                            ptr': map<int, int>, size': map<int, int>, list': seq<int>, own': map<int, int>,
                            base: int, t: nat, bp: int) {
    && Half(ptr', size', list', live - {bp}, own', base, t)
    && Domain(ptr', own.Keys, base) && Domain(size', own.Keys, base) && own'.Keys == own.Keys
    && t + 1 < |list'| && t < |list| && list'[t] == list[t] && list'[t + 1] == bp
    && bp in size && bp in size' && size'[bp] >= size[bp]
    && Kept(ptr, size, own, live - {bp}, ptr', size', own')
  }

  lemma RightLinks(ptr: map<int, int>, size: map<int, int>, list: seq<int>, live: set<int>, own: map<int, int>,
                   base: int, t: nat, bp: int)
    requires Ring(ptr, list) && Body(size, list, live, own, base) && Merged(size, list)
    requires Domain(ptr, own.Keys, base) && Domain(size, own.Keys, base)
    requires bp in live && Place(list, t, bp) && bp in size && bp + size[bp] != Next(list, t)
    ensures RightDone(ptr, size, list, live, own, ptr[bp := Next(list, t)], size, Inserted(list, t, bp), own, base, t,
            bp)
  {
    PlaceFacts(ptr, size, list, live, own, base, t, bp);
    StepNoRight(size, list, live, own, base, t, bp);
    LinkBp(ptr, list, base, t, bp);
    assert bp in ptr;
    DomainKept(ptr, own.Keys, base, bp, Next(list, t));
    KeptHeader(ptr, size, own, live - {bp}, base, bp, Next(list, t), size[bp]);
    assert size[bp := size[bp]] == size;
    hide Ring, RingBut, Body, MergedBut, Merged, Place, Next;
  }

  lemma RightMerges(ptr: map<int, int>, size: map<int, int>, list: seq<int>, live: set<int>, own: map<int, int>,
                    base: int, t: nat, bp: int)
    requires Ring(ptr, list) && Body(size, list, live, own, base) && Merged(size, list)
    requires Domain(ptr, own.Keys, base) && Domain(size, own.Keys, base)
    requires bp in live && t < |list| && Place(list, t, bp)
    requires bp in size && bp in ptr && Next(list, t) in size && Next(list, t) in ptr
    requires bp + size[bp] == Next(list, t)
    ensures t + 1 < |list|
    ensures var q := Next(list, t);
            RightDone(ptr, size, list, live, own, ptr[bp := ptr[q]], size[bp := size[bp] + size[q]],
                      list[t + 1 := bp], Moved(own, bp, q), base, t, bp)
  {
    hide Body, Ring, RingBut, MergedBut, Merged, Next, Place, Moved, Kept, Domain, Inserted, Without, Ascending;
    var q := Next(list, t);
    PlaceFacts(ptr, size, list, live, own, base, t, bp);
    var size', own' := size[bp := size[bp] + size[q]], Moved(own, bp, q);
    StepRight(size, list, live, own, base, t, bp, size', Without(Inserted(list, t, bp), t + 2), own');
    LinkBpMerged(ptr, list, base, t, bp);
    DomainKept(ptr, own.Keys, base, bp, ptr[q]);
    DomainKept(size, own.Keys, base, bp, size[bp] + size[q]);
    KeptMove(ptr, size, own, live - {bp}, base, bp, q, ptr[q], size[bp] + size[q]);
    MovedKeys(own, bp, q);
  }

  lemma MovedKeys(own: map<int, int>, a: int, b: int)
    ensures Moved(own, a, b).Keys == own.Keys
  {
  }

  /** Some free block holds the n units from lo. */
  ghost predicate HoldsRange(size: map<int, int>, list: seq<int>, base: int, lo: int, n: int) {
    exists a :: a in list && a != base && a in size && a <= lo && lo + n <= a + size[a]
  }

  lemma HoldsLess(size: map<int, int>, list: seq<int>, base: int, lo: int, n: int, n': int)
    requires HoldsRange(size, list, base, lo, n') && n <= n'
    ensures HoldsRange(size, list, base, lo, n)
  {
  }

  lemma KeptTrans(ptr: map<int, int>, size: map<int, int>, own: map<int, int>, live: set<int>,
                  ptr1: map<int, int>, size1: map<int, int>, own1: map<int, int>,
                  ptr2: map<int, int>, size2: map<int, int>, own2: map<int, int>)
    requires Kept(ptr, size, own, live, ptr1, size1, own1) && Kept(ptr1, size1, own1, live, ptr2, size2, own2)
    ensures Kept(ptr, size, own, live, ptr2, size2, own2)
  {
  }

  lemma RightFacts(ptr: map<int, int>, size: map<int, int>, list: seq<int>, live: set<int>, own: map<int, int>,
                   ptr': map<int, int>, size': map<int, int>, list': seq<int>, own': map<int, int>,
                   base: int, t: nat, bp: int)
    requires RightDone(ptr, size, list, live, own, ptr', size', list', own', base, t, bp)
    ensures Half(ptr', size', list', live - {bp}, own', base, t)
    ensures Domain(ptr', own'.Keys, base) && Domain(size', own'.Keys, base) && own'.Keys == own.Keys
    ensures t + 1 < |list'| && t < |list| && list'[t] == list[t] && list'[t + 1] == bp
    ensures bp in size && bp in size' && size'[bp] >= size[bp]
    ensures Kept(ptr, size, own, live - {bp}, ptr', size', own')
  {
  }

  /** What the second half of free() leaves. */
  ghost predicate LeftDone(ptr: map<int, int>, size: map<int, int>, list: seq<int>, live: set<int>, own: map<int, int>,
                           ptr': map<int, int>, size': map<int, int>, list': seq<int>, own': map<int, int>,
                           base: int, t: nat)
  {
    && Ring(ptr', list') && Body(size', list', live, own', base) && Merged(size', list')
    && Domain(ptr', own.Keys, base) && Domain(size', own.Keys, base) && own'.Keys == own.Keys
    && t + 1 < |list| && list[t] in list' && base <= list[t]
    && list[t + 1] in size && HoldsRange(size', list', base, list[t + 1], size[list[t + 1]])
    && Kept(ptr, size, own, live, ptr', size', own')
  }

  lemma LeftFacts(ptr: map<int, int>, size: map<int, int>, list: seq<int>, live: set<int>, own: map<int, int>,
                  base: int, t: nat)
    requires Half(ptr, size, list, live, own, base, t) && t + 1 < |list|
    requires Domain(ptr, own.Keys, base) && Domain(size, own.Keys, base)
    ensures Ascending(list, base) && RingBut(ptr, list, t) && Body(size, list, live, own, base)
            && MergedBut(size, list, t)
    ensures list[t] in ptr && list[t] in size && list[t + 1] in ptr && list[t + 1] in size && base in size
    ensures base <= list[t] < list[t + 1] && ptr[list[t + 1]] == Next(list, t + 1)
    ensures t == 0 <==> list[t] == base
    ensures t == 0 ==> list[t] + size[list[t]] != list[t + 1]
    ensures list[t] in list && list[t + 1] in list && list[t + 1] != base
    ensures list[t] !in live && list[t + 1] !in live
    ensures list[t] in own ==> own[list[t]] == list[t]
  {
    assert LinkedAt(ptr, list, t + 1);
    assert list[t + 1] in list && list[t] in list;
    assert list[t + 1] in Blocks(list, live, base);
    assert t > 0 ==> list[t] in Blocks(list, live, base);
  }

  lemma LeftLinks(ptr: map<int, int>, size: map<int, int>, list: seq<int>, live: set<int>, own: map<int, int>,
                  base: int, t: nat)
    requires Half(ptr, size, list, live, own, base, t) && t + 1 < |list|
    requires Domain(ptr, own.Keys, base) && Domain(size, own.Keys, base)
    requires list[t] in size && list[t] + size[list[t]] != list[t + 1]
    ensures LeftDone(ptr, size, list, live, own, ptr[list[t] := list[t + 1]], size, list, own, base, t)
  {
    hide Half, Ring, RingBut, Body, Ascending, Kept, Domain;
    LeftFacts(ptr, size, list, live, own, base, t);
    LinkP(ptr, list, base, t);
    DomainKept(ptr, own.Keys, base, list[t], list[t + 1]);
    KeptHeader(ptr, size, own, live, base, list[t], list[t + 1], size[list[t]]);
    assert size[list[t] := size[list[t]]] == size;
  }

  lemma LeftMerges(ptr: map<int, int>, size: map<int, int>, list: seq<int>, live: set<int>, own: map<int, int>,
                   base: int, t: nat)
    requires Half(ptr, size, list, live, own, base, t) && t + 1 < |list|
    requires Domain(ptr, own.Keys, base) && Domain(size, own.Keys, base)
    requires list[t] in size && list[t + 1] in size && list[t + 1] in ptr && list[t] + size[list[t]] == list[t + 1]
    ensures var p, bp := list[t], list[t + 1];
            LeftDone(ptr, size, list, live, own, ptr[p := ptr[bp]], size[p := size[p] + size[bp]],
                     Without(list, t + 1), Moved(own, p, bp), base, t)
  {
    hide Half, Ring, RingBut, Body, Merged, MergedBut, Ascending, Kept, Domain, Next, Moved;
    LeftFacts(ptr, size, list, live, own, base, t);
    var p, bp := list[t], list[t + 1];
    var size' := size[p := size[p] + size[bp]];
    StepLeft(size, list, live, own, base, t, size');
    LinkPMerged(ptr, list, base, t);
    DomainKept(ptr, own.Keys, base, p, ptr[bp]);
    DomainKept(size, own.Keys, base, p, size[p] + size[bp]);
    KeptMove(ptr, size, own, live, base, p, bp, ptr[bp], size[p] + size[bp]);
    MovedKeys(own, p, bp);
    assert Without(list, t + 1)[t] == p;
  }

  lemma KeptHeader(ptr: map<int, int>, size: map<int, int>, own: map<int, int>, live: set<int>, base: int,
                   a: int, v: int, n: int)
    requires Domain(ptr, own.Keys, base) && Domain(size, own.Keys, base)
    requires a in own ==> own[a] !in live
    ensures Kept(ptr, size, own, live, ptr[a := v], size[a := n], own)
  {
  }

  lemma KeptMove(ptr: map<int, int>, size: map<int, int>, own: map<int, int>, live: set<int>, base: int,
                 p: int, q: int, v: int, n: int)
    requires p in own ==> own[p] !in live
    requires q !in live && Domain(ptr, own.Keys, base) && Domain(size, own.Keys, base)
    ensures Kept(ptr, size, own, live, ptr[p := v], size[p := n], Moved(own, p, q))
  {
  }

  /** The units that morecore asks for. */
  function CoreUnits(nu: nat): (n: nat) {
    if nu < MIN_UNITS then MIN_UNITS else nu
  }

  predicate Within(lo: int, n: nat, u: int) {
    lo <= u < lo + n
  }

  function Units(lo: int, n: nat): (r: set<int>) {
    set u: int | lo <= u < lo + n && Within(lo, n, u)
  }

  lemma KeptRefl(ptr: map<int, int>, size: map<int, int>, own: map<int, int>, live: set<int>, base: int)
    requires Domain(ptr, own.Keys, base) && Domain(size, own.Keys, base)
    ensures Kept(ptr, size, own, live, ptr, size, own)
  {
  }

  /** The map after sbrk added n zeroed units from hp, the header of which then holds v. */
  function Grown(m: map<int, int>, hp: int, n: nat, v: int): (r: map<int, int>) {
    map u | u in m.Keys + Units(hp, n) :: if u == hp then v else if u in m then m[u] else 0
  }

  ghost function Given(own: map<int, int>, hp: int, n: nat): (r: map<int, int>) {
    map u | u in own.Keys + Units(hp, n) :: if u in own then own[u] else hp
  }

  lemma GrownDomain(m: map<int, int>, own: map<int, int>, base: int, hp: int, n: nat, v: int)
    requires Domain(m, own.Keys, base)
    ensures n > 0 ==> Domain(Grown(m, hp, n, v), Given(own, hp, n).Keys, base)
    ensures Given(own, hp, n).Keys == own.Keys + Units(hp, n)
  {
  }

  lemma GrownAt(m: map<int, int>, hp: int, n: nat, v: int)
    requires n > 0
    ensures forall u :: u in Grown(m, hp, n, v) <==> u in m || hp <= u < hp + n
    ensures forall u :: u in m && u != hp ==> Grown(m, hp, n, v)[u] == m[u]
    ensures Grown(m, hp, n, v)[hp] == v
  {
    assert hp in Units(hp, n);
  }

  lemma GivenAt(own: map<int, int>, hp: int, n: nat)
    ensures forall u :: u in Given(own, hp, n) <==> u in own || hp <= u < hp + n
    ensures forall u :: u in Given(own, hp, n) ==> Given(own, hp, n)[u] == if u in own then own[u] else hp
  {
  }

  lemma GrownKept(ptr: map<int, int>, size: map<int, int>, live: set<int>, own: map<int, int>, base: int, hp: int,
      n: nat)
    requires Domain(ptr, own.Keys, base) && Domain(size, own.Keys, base)
    requires n > 0 && (forall u :: u in own ==> u < hp)
    ensures Kept(ptr, size, own, live, Grown(ptr, hp, n, 0), Grown(size, hp, n, n), Given(own, hp, n))
  {
    hide Grown, Given, Units, Within;
    GrownAt(size, hp, n, n);
    GrownAt(ptr, hp, n, 0);
    GivenAt(own, hp, n);
  }

  lemma GrownBody(ptr: map<int, int>, size: map<int, int>, list: seq<int>, live: set<int>, own: map<int, int>,
      base: int,
                  hp: int, n: nat)
    requires Ring(ptr, list) && Body(size, list, live, own, base) && Merged(size, list)
    requires Domain(ptr, own.Keys, base) && Domain(size, own.Keys, base)
    requires n > 0 && hp > base && (forall u :: u in own ==> u < hp)
    ensures Body(Grown(size, hp, n, n), list, live + {hp}, Given(own, hp, n), base)
    ensures Merged(Grown(size, hp, n, n), list) && Ring(Grown(ptr, hp, n, 0), list)
    ensures hp !in live && hp !in list
  {
    hide Grown, Given, Units, Within, Tiled, Covers, Ring, MergedBut;
    GrownAt(size, hp, n, n);
    ListIsOwned(size, list, live, own, base);
    GrownTiled(size, Blocks(list, live, base), own, base, hp, n);
    assert Blocks(list, live + {hp}, base) == Blocks(list, live, base) + {hp};
    GrownRing(ptr, size, list, base, hp, n);
  }

  lemma ListIsOwned(size: map<int, int>, list: seq<int>, live: set<int>, own: map<int, int>, base: int)
    requires Body(size, list, live, own, base)
    ensures forall a :: a in list ==> a == base || a in own
    ensures forall a :: a in live ==> a in own
  {
    hide Covers, Within;
    forall a | a in list && a != base
      ensures a in own
    {
      assert a in Blocks(list, live, base);
    }
    forall a | a in live
      ensures a in own
    {
      assert a in Blocks(list, live, base);
    }
  }

  lemma GrownTiled(size: map<int, int>, blocks: set<int>, own: map<int, int>, base: int, hp: int, n: nat)
    requires Tiled(size, blocks, own, base) && n > 0 && hp > base && (forall u :: u in own ==> u < hp)
    ensures Tiled(Grown(size, hp, n, n), blocks + {hp}, Given(own, hp, n), base)
  {
    hide Grown, Given, Units;
    var size', own' := Grown(size, hp, n, n), Given(own, hp, n);
    GrownAt(size, hp, n, n);
    GivenAt(own, hp, n);
    forall a | a in blocks + {hp}
      ensures a in own' && own'[a] == a
      ensures a in size' && Covers(own', a, size'[a])
    {
      if a != hp {
        assert Covers(own, a, size[a]);
      }
    }
  }

  lemma GrownRing(ptr: map<int, int>, size: map<int, int>, list: seq<int>, base: int, hp: int, n: nat)
    requires Ring(ptr, list) && Merged(size, list) && (forall i :: 0 <= i < |list| ==> list[i] in size)
    requires n > 0 && hp !in list
    ensures Ring(Grown(ptr, hp, n, 0), list) && Merged(Grown(size, hp, n, n), list)
  {
    hide Grown, Units;
    GrownAt(size, hp, n, n);
    GrownAt(ptr, hp, n, 0);
    forall i | 0 <= i < |list|
      ensures LinkedAt(Grown(ptr, hp, n, 0), list, i) && list[i] != hp
    {
      assert LinkedAt(ptr, list, i);
    }
  }

  lemma CoreIsPositive(nu: nat)
    ensures CoreUnits(nu) > 0 && CoreUnits(nu) >= nu
  {
  }

  /** The argument of sbrk is an int: the low 32 bits of the number of bytes, with a sign. */
  function SbrkArg(nu: nat): (n: int) {
    var low := CoreUnits(nu) * UNIT % (2 * INT_LIMIT);
    if low < INT_LIMIT then low else low - 2 * INT_LIMIT
  }

  /** malloc asks sbrk for the memory that it goes on to use exactly if the request is below 2^31 - 31 bytes; for any
      larger one it asks for less, or for a negative amount. */
  lemma SbrkArgument(nbytes: nat)
    requires nbytes < 2 * INT_LIMIT
    ensures SbrkArg(NUnits(nbytes)) == CoreUnits(NUnits(nbytes)) * UNIT <==> nbytes <= INT_LIMIT - 2 * UNIT
    ensures nbytes > INT_LIMIT - 2 * UNIT ==> SbrkArg(NUnits(nbytes)) < CoreUnits(NUnits(nbytes)) * UNIT
  {
    var q := (nbytes + 15) / 16;
    assert NUnits(nbytes) == q + 1;
    assert nbytes <= INT_LIMIT - 2 * UNIT <==> q + 1 <= INT_LIMIT / 16 - 1;
  }

  /** The smallest request that fails so. */
  lemma SbrkArgumentWraps()
    ensures SbrkArg(NUnits(INT_LIMIT - 2 * UNIT + 1)) == -INT_LIMIT
  {
  }

  /** The size of a process of size sz after sbrk(n) has succeeded. A size below zero wraps around, and is then taken
      for one above the old size, which changes nothing. */
  function SizeAfterSbrk(sz: nat, n: int): (r: nat) {
    if sz + n >= 0 then sz + n else sz
  }

  /** When sbrk succeeds, the block that morecore() puts at the old end of the heap lies in the memory of the process
      exactly if the request is at most 2^31 - 32 bytes. For larger ones, the 15 largest aside, not even its header
      does; and a process of at least the size that the argument takes away loses memory. */
  lemma BlockBeyondHeap(sz: nat, nbytes: nat)
    requires nbytes < 2 * INT_LIMIT
    ensures var n := SbrkArg(NUnits(nbytes));
            && (sz + CoreUnits(NUnits(nbytes)) * UNIT <= SizeAfterSbrk(sz, n) <==> nbytes <= INT_LIMIT - 2 * UNIT)
            && (INT_LIMIT - 2 * UNIT < nbytes <= 2 * INT_LIMIT - UNIT ==> SizeAfterSbrk(sz, n) <= sz)
            && (INT_LIMIT - 2 * UNIT < nbytes <= 2 * INT_LIMIT - 2 * UNIT ==>
                  n < 0 && (SizeAfterSbrk(sz, n) < sz <==> sz >= -n))
  {
    var q := (nbytes + 15) / 16;
    assert NUnits(nbytes) == q + 1;
    assert nbytes <= INT_LIMIT - 2 * UNIT <==> q + 1 <= INT_LIMIT / 16 - 1;
    assert nbytes <= 2 * INT_LIMIT - UNIT <==> q + 1 <= INT_LIMIT / 8;
    assert nbytes <= 2 * INT_LIMIT - 2 * UNIT <==> q + 1 <= INT_LIMIT / 8 - 1;
  }

  lemma Unlinked(ptr: map<int, int>, size: map<int, int>, list: seq<int>, live: set<int>, own: map<int, int>,
                 base: int, k: nat)
    requires Ring(ptr, list) && Body(size, list, live, own, base) && Merged(size, list)
    requires Domain(ptr, own.Keys, base) && Domain(size, own.Keys, base)
    requires 0 < k < |list| && list[k - 1] in ptr && list[k] in ptr
    ensures var ptr', list' := ptr[list[k - 1] := ptr[list[k]]], Without(list, k);
            && Ring(ptr', list') && Body(size, list', live + {list[k]}, own, base) && Merged(size, list')
            && Domain(ptr', own.Keys, base) && list[k - 1] in list'
            && Kept(ptr, size, own, live, ptr', size, own)
    ensures list[k] !in live
  {
    assert LinkedAt(ptr, list, k);
    assert list[k] in list && list[k - 1] in list;
    LinkPMerged(ptr, list, base, k - 1);
    BodyUnlink(size, list, live, own, base, k);
    DomainKept(ptr, own.Keys, base, list[k - 1], ptr[list[k]]);
    assert k > 1 ==> list[k - 1] in Blocks(list, live, base);
    KeptHeader(ptr, size, own, live, base, list[k - 1], ptr[list[k]], size[list[k]]);
    assert Without(list, k)[k - 1] == list[k - 1];
    UnlinkedMerged(size, list, live, own, base, k);
  }

  lemma UnlinkedMerged(size: map<int, int>, list: seq<int>, live: set<int>, own: map<int, int>, base: int, k: nat)
    requires Body(size, list, live, own, base) && Merged(size, list) && 0 < k < |list|
    ensures Merged(size, Without(list, k))
  {
    if 1 < k {
      assert list[k] in list && list[k - 1] in list;
      Apart(size, Blocks(list, live, base), own, base, list[k - 1], list[k]);
    }
  }

  lemma CutInHalf(ptr: map<int, int>, size: map<int, int>, list: seq<int>, live: set<int>, own: map<int, int>,
                  base: int, k: nat, n: nat)
    requires Ring(ptr, list) && Body(size, list, live, own, base) && Merged(size, list)
    requires Domain(ptr, own.Keys, base) && Domain(size, own.Keys, base)
    requires 0 < k < |list| && list[k] in size && 0 < n < size[list[k]]
    ensures var b := list[k] + size[list[k]] - n;
            var size' := size[list[k] := size[list[k]] - n][b := n];
            var own' := CutOff(own, list[k], b);
            && Body(size', list, live + {b}, own', base) && Merged(size', list)
            && Domain(size', own.Keys, base) && own'.Keys == own.Keys && b !in live && b > base
            && Kept(ptr, size, own, live, ptr, size', own')
  {
    hide Ring, Body, Merged, MergedBut, Domain, Kept, CutOff;
    var a := list[k];
    var b := a + size[a] - n;
    var size' := size[a := size[a] - n][b := n];
    BodyCut(size, list, live, own, base, k, n, b, size');
    CutFacts(size, list, live, own, base, k, n, b);
    DomainKept(size, own.Keys, base, a, size[a] - n);
    DomainKept(size[a := size[a] - n], own.Keys, base, b, n);
    CutKept(ptr, size, own, live, base, a, b, size[a] - n, n);
  }

  lemma CutFacts(size: map<int, int>, list: seq<int>, live: set<int>, own: map<int, int>, base: int, k: nat, n: nat,
      b: int)
    requires Body(size, list, live, own, base) && Merged(size, list)
    requires 0 < k < |list| && list[k] in size && 0 < n < size[list[k]] && b == list[k] + size[list[k]] - n
    requires b in own && own[b] == list[k]
    ensures Merged(size[list[k] := size[list[k]] - n][b := n], list)
    ensures list[k] !in live && list[k] in own && own[list[k]] == list[k] && b in size && b > base
  {
    assert list[k] in list;
    assert list[k] in Blocks(list, live, base);
    forall i | 0 < i < |list|
      ensures list[i] != b
    {
      assert list[i] in list && list[i] in Blocks(list, live, base);
    }
    if k + 1 < |list| {
      assert list[k + 1] in list;
      Apart(size, Blocks(list, live, base), own, base, list[k], list[k + 1]);
    }
  }

  lemma CutKept(ptr: map<int, int>, size: map<int, int>, own: map<int, int>, live: set<int>, base: int,
                a: int, b: int, m: int, n: int)
    requires Domain(ptr, own.Keys, base) && Domain(size, own.Keys, base)
    requires a in own && own[a] == a && b in own && own[b] == a && a !in live
    ensures Kept(ptr, size, own, live, ptr, size[a := m][b := n], CutOff(own, a, b))
    ensures CutOff(own, a, b).Keys == own.Keys
  {
  }

  lemma UnitsArePositive(nbytes: nat)
    ensures NUnits(nbytes) >= 1 && (NUnits(nbytes) - 1) * UNIT >= nbytes
  {
  }

  ghost predicate SameSizes(size: map<int, int>, size0: map<int, int>, list: seq<int>, base: int) {
    forall a :: a in list && a != base ==> a in size && a in size0 && size[a] == size0[a]
  }

  /** No free block has n units. */
  ghost predicate NoneFits(size: map<int, int>, list: seq<int>, base: int, n: int) {
    forall a :: a in list && a != base ==> a in size && size[a] < n
  }

  /** The blocks that the search of malloc went past on its way from f to k. */
  ghost predicate Scanned(size: map<int, int>, list: seq<int>, f: nat, k: nat, n: int)
    requires f < |list| && k < |list|
  {
    forall i :: 0 <= i < |list| && Dist(|list|, i, f) > Dist(|list|, k, f) ==> list[i] in size && size[list[i]] < n
  }

  ghost function IndexOf(list: seq<int>, a: int): (i: nat)
    requires a in list
    ensures i < |list| && list[i] == a
  {
    var i: nat :| i < |list| && list[i] == a;
    i
  }

  lemma KeptNothing(ptr: map<int, int>, size: map<int, int>, ptr': map<int, int>, size': map<int, int>)
    ensures Kept(ptr, size, map[], {}, ptr', size', map[])
  {
  }

  lemma SameSizesNone(size: map<int, int>, size0: map<int, int>, base: int)
    ensures SameSizes(size, size0, [base], base)
  {
  }

  lemma SameSizesRefl(size: map<int, int>, list: seq<int>, live: set<int>, own: map<int, int>, base: int)
    requires Body(size, list, live, own, base)
    ensures SameSizes(size, size, list, base)
  {
  }

  lemma NextIsAt(list: seq<int>, k: nat)
    requires k < |list|
    ensures Next(list, k) == list[NextIndex(|list|, k)]
  {
  }

  lemma BeforeIndex(n: nat, kp: nat)
    requires kp < n
    ensures NextIndex(n, kp) > 0 ==> NextIndex(n, kp) == kp + 1
  {
  }

  lemma DistFacts(n: nat, k: nat, f: nat)
    requires k < n && f < n
    ensures Dist(n, k, f) == 0 <==> k == f
    ensures k != f ==> Dist(n, NextIndex(n, k), f) == Dist(n, k, f) - 1
  {
  }

  lemma NextIsLast(n: nat, f: nat, goal: nat)
    requires f < n && goal < n
    ensures Dist(n, NextIndex(n, f), goal) <= Dist(n, NextIndex(n, f), f)
  {
  }

  lemma SameIndex(list: seq<int>, base: int, i: nat, j: nat)
    requires Ascending(list, base) && i < |list| && j < |list| && list[i] == list[j]
    ensures i == j
  {
  }

  lemma ScanStart(size: map<int, int>, list: seq<int>, f: nat, n: int)
    requires f < |list|
    ensures Scanned(size, list, f, NextIndex(|list|, f), n)
  {
  }

  lemma ScanStep(size: map<int, int>, list: seq<int>, f: nat, k: nat, n: int, asked: bool)
    requires f < |list| && k < |list| && k != f && list[k] in size && size[list[k]] < n
    requires !asked ==> Scanned(size, list, f, k, n)
    ensures !asked ==> Scanned(size, list, f, NextIndex(|list|, k), n)
  {
  }

  /** After a full turn without success no free block fits. */
  lemma ScanDone(size: map<int, int>, list: seq<int>, base: int, f: nat, n: int)
    requires f < |list| && Scanned(size, list, f, f, n) && list[f] in size && size[list[f]] < n
    ensures NoneFits(size, list, base, n)
  {
    forall a | a in list && a != base
      ensures a in size && size[a] < n
    {
      var i := IndexOf(list, a);
      assert i != f ==> Dist(|list|, i, f) > Dist(|list|, f, f);
    }
  }

  lemma SameFits(size: map<int, int>, size0: map<int, int>, list: seq<int>, base: int, n: int)
    requires SameSizes(size, size0, list, base)
    ensures NoneFits(size, list, base, n) <==> NoneFits(size0, list, base, n)
  {
  }

  lemma Fits(size: map<int, int>, list: seq<int>, base: int, k: nat, n: int)
    requires k < |list| && list[k] in size && size[list[k]] >= n && list[k] != base
    ensures !NoneFits(size, list, base, n)
  {
    assert list[k] in list;
  }

  ghost function FitIndex(size: map<int, int>, list: seq<int>, base: int, lo: int, n: int): (i: nat)
    requires HoldsRange(size, list, base, lo, n)
    ensures i < |list| && list[i] in size && size[list[i]] >= n
  {
    var a :| a in list && a != base && a in size && a <= lo && lo + n <= a + size[a];
    IndexOf(list, a)
  }

  /** Live and free blocks tile the memory: every unit is in exactly one block. */
  lemma UnitsHaveOneBlock(size: map<int, int>, list: seq<int>, live: set<int>, own: map<int, int>, base: int, u: int,
      a: int)
    requires Body(size, list, live, own, base)
    ensures u in own <==> exists b :: b in Blocks(list, live, base) && b in size && b <= u < b + size[b]
    ensures a in Blocks(list, live, base) && a in size && a <= u < a + size[a] ==> u in own && own[u] == a
    ensures a in live ==> a !in list
  {
    if a in Blocks(list, live, base) && a in size && a <= u < a + size[a] {
      assert Covers(own, a, size[a]);
    }
    if exists b :: b in Blocks(list, live, base) && b in size && b <= u < b + size[b] {
      var b :| b in Blocks(list, live, base) && b in size && b <= u < b + size[b];
      assert Covers(own, b, size[b]);
    }
  }

  /** No free block of the heap ends where another one starts, wherever they are in the list. */
  lemma FreeBlocksApart(size: map<int, int>, list: seq<int>, live: set<int>, own: map<int, int>, base: int, a: int,
      b: int)
    requires Body(size, list, live, own, base) && Merged(size, list)
    requires a in list && b in list && a != base && b != base && a in size
    ensures a + size[a] != b
  {
    var i, j := IndexOf(list, a), IndexOf(list, b);
    if i + 1 < j {
      assert list[i + 1] in list;
      Apart(size, Blocks(list, live, base), own, base, a, list[i + 1]);
    }
    assert a in Blocks(list, live, base);
  }
}
