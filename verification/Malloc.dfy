/**
 The user-level memory allocator (umalloc.c), after Kernighan and Ritchie, The C
 Programming Language, 2nd edition, section 8.7.

 Memory is measured in units of one Header. The free blocks are on a circular list, linked
 through headers kept in the blocks themselves, in address order starting from the static
 header `base`, which has size 0 and lies below all of the heap.
 */
module Malloc {
  import opened Options

  datatype Header = Header(ptr: int, size: nat)

  datatype Block = Block(addr: int, size: nat) {
    function End(): int { addr + size }
    predicate Has(u: int) { addr <= u < End() }
  }

  // ---- Lists of blocks ---------------------------------------------------------

  /** In address order and apart; only the first, which is base, may have size 0. */
  ghost predicate Ordered(bs: seq<Block>) {
    && (forall i, j :: 0 <= i < j < |bs| ==> bs[i].End() <= bs[j].addr)
    && (forall i :: 0 < i < |bs| ==> bs[i].size > 0)
  }

  predicate Touch(bs: seq<Block>, i: nat) {
    i + 1 < |bs| && bs[i].End() == bs[i + 1].addr
  }

  /** Fully coalesced: no block ends where the next begins. */
  ghost predicate Coalesced(bs: seq<Block>) {
    Ordered(bs) && forall i: nat :: i < |bs| ==> !Touch(bs, i)
  }

  ghost predicate InSome(bs: seq<Block>, u: int) {
    exists i :: 0 <= i < |bs| && bs[i].Has(u)
  }

  /** b lies between bs[t] and the block after it, overlapping neither and not touching base. */
  ghost predicate FitsAfter(bs: seq<Block>, t: nat, b: Block) {
    && t < |bs| && b.size > 0
    && bs[t].End() <= b.addr && (t + 1 < |bs| ==> b.End() <= bs[t + 1].addr)
    && bs[0].End() < b.addr
  }

  /** The list with b after bs[t]. */
  function Put(bs: seq<Block>, t: nat, b: Block): seq<Block>
    requires t < |bs|
  {
    bs[..t + 1] + [b] + bs[t + 1..]
  }

  /** r is bs with b after bs[t], said index by index. */
  ghost predicate IsPut(r: seq<Block>, bs: seq<Block>, t: nat, b: Block)
    requires t < |bs|
  {
    && |r| == |bs| + 1 && r[t + 1] == b
    && (forall i :: 0 <= i <= t ==> r[i] == bs[i])
    && (forall i :: t + 1 < i < |r| ==> r[i] == bs[i - 1])
  }

  /** The list with blocks k and k + 1 made one. */
  function Merged(bs: seq<Block>, k: nat): seq<Block>
    requires k + 1 < |bs|
  {
    bs[..k] + [Block(bs[k].addr, bs[k].size + bs[k + 1].size)] + bs[k + 2..]
  }

  ghost predicate IsMerged(r: seq<Block>, bs: seq<Block>, k: nat)
    requires k + 1 < |bs|
  {
    && |r| == |bs| - 1 && r[k] == Block(bs[k].addr, bs[k].size + bs[k + 1].size)
    && (forall i :: 0 <= i < k ==> r[i] == bs[i])
    && (forall i :: k < i < |r| ==> r[i] == bs[i + 1])
  }

  function MergedIfTouching(bs: seq<Block>, k: nat): seq<Block> {
    if Touch(bs, k) then Merged(bs, k) else bs
  }

  /** The list with b put in after bs[t], merged with each neighbour it touches. */
  function Inserted(bs: seq<Block>, t: nat, b: Block): seq<Block>
    requires t < |bs|
  {
    MergedIfTouching(MergedIfTouching(Put(bs, t, b), t + 1), t)
  }

  lemma MergedOrdered(r: seq<Block>, bs: seq<Block>, k: nat)
    requires Ordered(bs) && Touch(bs, k) && bs[k].size + bs[k + 1].size > 0 && IsMerged(r, bs, k)
    ensures Ordered(r)
    ensures forall i: nat :: Touch(r, i) ==> Touch(bs, if i < k then i else i + 1)
  {
  }

  lemma MergedCovers(r: seq<Block>, bs: seq<Block>, k: nat, u: int)
    requires Touch(bs, k) && IsMerged(r, bs, k)
    ensures InSome(r, u) <==> InSome(bs, u)
  {
    if InSome(r, u) {
      var i :| 0 <= i < |r| && r[i].Has(u);
      assert bs[if i < k then i else if i > k then i + 1 else if bs[k].Has(u) then k else k + 1].Has(u);
    }
    if InSome(bs, u) {
      var i :| 0 <= i < |bs| && bs[i].Has(u);
      assert r[if i <= k then i else i - 1].Has(u);
    }
  }

  lemma PutInOrder(r: seq<Block>, bs: seq<Block>, t: nat, b: Block)
    requires Ordered(bs) && FitsAfter(bs, t, b) && IsPut(r, bs, t, b)
    ensures Ordered(r)
  {
    forall i, j | 0 <= i < j < |r| ensures r[i].End() <= r[j].addr {
      if j == t + 1 {
        assert i < t ==> bs[i].End() <= bs[t].addr;
      } else if i == t + 1 {
        assert j > t + 2 ==> bs[t + 1].End() <= bs[j - 1].addr;
      }
    }
  }

  lemma PutOrdered(r: seq<Block>, bs: seq<Block>, t: nat, b: Block)
    requires Coalesced(bs) && FitsAfter(bs, t, b) && IsPut(r, bs, t, b)
    ensures Ordered(r) && !Touch(r, 0)
    ensures forall i: nat :: Touch(r, i) ==> i == t || i == t + 1
  {
    PutInOrder(r, bs, t, b);
    hide Ordered;
    forall i: nat | i != t && i != t + 1 ensures !Touch(r, i) {
      if i < t { assert Touch(r, i) == Touch(bs, i); } else { assert Touch(r, i) == Touch(bs, i - 1); }
    }
    assert t > 0 ==> Touch(r, 0) == Touch(bs, 0);
  }

  lemma PutCovers(r: seq<Block>, bs: seq<Block>, t: nat, b: Block, u: int)
    requires t < |bs| && IsPut(r, bs, t, b)
    ensures InSome(r, u) <==> InSome(bs, u) || b.Has(u)
  {
    if InSome(r, u) {
      var i :| 0 <= i < |r| && r[i].Has(u);
      if i != t + 1 { assert bs[if i <= t then i else i - 1].Has(u); }
    }
    if InSome(bs, u) {
      var i :| 0 <= i < |bs| && bs[i].Has(u);
      assert r[if i <= t then i else i + 1].Has(u);
    }
    if b.Has(u) { assert r[t + 1].Has(u); }
  }

  lemma PutIs(bs: seq<Block>, t: nat, b: Block)
    requires t < |bs|
    ensures IsPut(Put(bs, t, b), bs, t, b)
  {
  }

  lemma MergedIs(bs: seq<Block>, k: nat)
    requires k + 1 < |bs|
    ensures IsMerged(Merged(bs, k), bs, k)
  {
  }

  /** Merging at one place, if the blocks there touch. */
  lemma MergeStep(bs: seq<Block>, k: nat)
    requires Ordered(bs) && !Touch(bs, 0) && bs != []
    requires forall i: nat :: Touch(bs, i) ==> i == k || i + 1 == k
    ensures var r := MergedIfTouching(bs, k);
            && Ordered(r) && r != [] && r[0] == bs[0]
            && (forall i: nat :: Touch(r, i) ==> i + 1 == k && Touch(bs, i))
            && (forall u :: InSome(r, u) <==> InSome(bs, u))
  {
    if Touch(bs, k) {
      var r := Merged(bs, k);
      MergedIs(bs, k);
      hide Merged;
      MergedOrdered(r, bs, k);
      forall u ensures InSome(r, u) <==> InSome(bs, u) { MergedCovers(r, bs, k, u); }
    }
  }

  /** Putting a block in keeps the list coalesced and adds exactly its units. */
  lemma InsertedOk(bs: seq<Block>, t: nat, b: Block)
    requires Coalesced(bs) && FitsAfter(bs, t, b)
    ensures Coalesced(Inserted(bs, t, b))
    ensures Inserted(bs, t, b)[0] == bs[0]
    ensures forall u :: InSome(Inserted(bs, t, b), u) <==> InSome(bs, u) || b.Has(u)
  {
    var l0 := Put(bs, t, b);
    PutIs(bs, t, b);
    PutOrdered(l0, bs, t, b);
    assert l0[0] == bs[0];
    forall u ensures InSome(l0, u) <==> InSome(bs, u) || b.Has(u) { PutCovers(l0, bs, t, b, u); }
    hide Put, MergedIfTouching, Ordered, Touch, InSome;
    MergeStep(l0, t + 1);
    MergeStep(MergedIfTouching(l0, t + 1), t);
  }

  // ---- The links ------------------------------------------------------------------

  ghost function NextOf(bs: seq<Block>, i: nat): int
    requires i < |bs|
  {
    bs[if i + 1 < |bs| then i + 1 else 0].addr
  }

  /** The headers form a circle through the blocks in order, and give their sizes. */
  ghost predicate Linked(hdr: map<int, Header>, bs: seq<Block>) {
    forall i :: 0 <= i < |bs| ==> bs[i].addr in hdr && hdr[bs[i].addr] == Header(NextOf(bs, i), bs[i].size)
  }

  ghost predicate DistinctAddrs(bs: seq<Block>) {
    forall i, j :: 0 <= i < j < |bs| ==> bs[i].addr != bs[j].addr
  }

  lemma PutNext(r: seq<Block>, bs: seq<Block>, t: nat, b: Block, i: nat)
    requires t < |bs| && IsPut(r, bs, t, b) && i < |r|
    ensures NextOf(r, i) == if i < t then NextOf(bs, i) else if i == t then b.addr else NextOf(bs, i - 1)
  {
  }

  lemma MergedNext(r: seq<Block>, bs: seq<Block>, k: nat, i: nat)
    requires k + 1 < |bs| && IsMerged(r, bs, k) && i < |r|
    ensures NextOf(r, i) == NextOf(bs, if i < k then i else i + 1)
  {
  }

  lemma PutLinks(hdr: map<int, Header>, r: seq<Block>, bs: seq<Block>, t: nat, b: Block)
    requires Linked(hdr, bs) && t < |bs| && IsPut(r, bs, t, b) && DistinctAddrs(r)
    ensures bs[t].addr in hdr
    ensures Linked(hdr[b.addr := Header(hdr[bs[t].addr].ptr, b.size)][bs[t].addr := hdr[bs[t].addr].(ptr := b.addr)], r)
  {
    hide NextOf;
    var h := hdr[b.addr := Header(hdr[bs[t].addr].ptr, b.size)][bs[t].addr := hdr[bs[t].addr].(ptr := b.addr)];
    forall i | 0 <= i < |r| ensures r[i].addr in h && h[r[i].addr] == Header(NextOf(r, i), r[i].size) {
      PutNext(r, bs, t, b, i);
      if i <= t { assert r[i] == bs[i]; } else if i > t + 1 { assert r[i] == bs[i - 1]; }
    }
  }

  lemma MergeLinks(hdr: map<int, Header>, r: seq<Block>, bs: seq<Block>, k: nat)
    requires Linked(hdr, bs) && k + 1 < |bs| && IsMerged(r, bs, k) && DistinctAddrs(bs)
    ensures bs[k].addr in hdr && bs[k + 1].addr in hdr
    ensures Linked(hdr[bs[k].addr := Header(hdr[bs[k + 1].addr].ptr, bs[k].size + bs[k + 1].size)], r)
  {
    hide NextOf;
    var h := hdr[bs[k].addr := Header(hdr[bs[k + 1].addr].ptr, bs[k].size + bs[k + 1].size)];
    forall i | 0 <= i < |r| ensures r[i].addr in h && h[r[i].addr] == Header(NextOf(r, i), r[i].size) {
      MergedNext(r, bs, k, i);
      if i < k { assert r[i] == bs[i]; } else if i > k { assert r[i] == bs[i + 1]; }
    }
  }

  lemma OrderedDistinct(bs: seq<Block>)
    requires Ordered(bs) && !Touch(bs, 0)
    ensures DistinctAddrs(bs)
  {
  }

  /** The header writes of free once it has found p, the block before bp. */
  function Relinked(hdr: map<int, Header>, p: int, bp: int): map<int, Header>
    requires p in hdr && bp in hdr && hdr[p].ptr in hdr && p != bp
  {
    var up := hdr[p].ptr;
    var h1 := hdr[bp := if bp + hdr[bp].size == up then Header(hdr[up].ptr, hdr[bp].size + hdr[up].size)
                        else Header(up, hdr[bp].size)];
    h1[p := if p + h1[p].size == bp then Header(h1[bp].ptr, h1[p].size + h1[bp].size)
            else Header(bp, h1[p].size)]
  }

  /** Linking bp in after p, and merging it with the block above if they touch. */
  ghost function LinkedIn(hdr: map<int, Header>, p: int, bp: int): map<int, Header>
    requires p in hdr && bp in hdr && hdr[p].ptr in hdr
  {
    var up := hdr[p].ptr;
    var h0 := hdr[bp := Header(up, hdr[bp].size)][p := Header(bp, hdr[p].size)];
    if bp + hdr[bp].size == up then h0[bp := Header(h0[up].ptr, hdr[bp].size + hdr[up].size)] else h0
  }

  /** free's writes are that, then merging with the block below if they touch. */
  lemma RelinkedSplit(hdr: map<int, Header>, p: int, bp: int)
    requires p in hdr && bp in hdr && hdr[p].ptr in hdr && p < bp && hdr[p].ptr != bp
    ensures var h1 := LinkedIn(hdr, p, bp);
            && p in h1 && bp in h1
            && Relinked(hdr, p, bp)
               == if p + hdr[p].size == bp then h1[p := Header(h1[bp].ptr, hdr[p].size + h1[bp].size)] else h1
  {
  }

  /** The neighbours of the place where b goes, as the headers show them. */
  lemma Neighbours(hdr: map<int, Header>, bs: seq<Block>, t: nat, b: Block)
    requires Coalesced(bs) && FitsAfter(bs, t, b) && Linked(hdr, bs)
    ensures bs[t].addr in hdr && hdr[bs[t].addr].ptr in hdr && hdr[bs[t].addr].size == bs[t].size
    ensures bs[t].addr < b.addr && hdr[bs[t].addr].ptr != b.addr
    ensures hdr[bs[t].addr].ptr == NextOf(bs, t)
    ensures b.End() == hdr[bs[t].addr].ptr <==> t + 1 < |bs| && b.End() == bs[t + 1].addr
    ensures t + 1 < |bs| ==> bs[t + 1].addr in hdr && hdr[bs[t + 1].addr].size == bs[t + 1].size
  {
    assert hdr[bs[t].addr] == Header(NextOf(bs, t), bs[t].size);
    assert NextOf(bs, t) in hdr;
  }

  lemma LinkedInPut(hdr: map<int, Header>, bs: seq<Block>, t: nat, b: Block)
    requires Coalesced(bs) && FitsAfter(bs, t, b) && Linked(hdr, bs)
    requires b.addr in hdr && hdr[b.addr].size == b.size
    ensures bs[t].addr in hdr && hdr[bs[t].addr].ptr in hdr
    ensures Linked(LinkedIn(hdr, bs[t].addr, b.addr), MergedIfTouching(Put(bs, t, b), t + 1))
  {
    hide Put, Merged, Linked, Ordered, Coalesced, DistinctAddrs, NextOf;
    var p, l0 := bs[t].addr, Put(bs, t, b);
    Neighbours(hdr, bs, t, b);
    PutIs(bs, t, b);
    PutOrdered(l0, bs, t, b);
    OrderedDistinct(l0);
    PutLinks(hdr, l0, bs, t, b);
    assert l0[t + 1] == b && (t + 2 < |l0| ==> l0[t + 2] == bs[t + 1]);
    if Touch(l0, t + 1) {
      MergedIs(l0, t + 1);
      var h0 := hdr[b.addr := Header(hdr[p].ptr, b.size)][p := hdr[p].(ptr := b.addr)];
      MergeLinks(h0, Merged(l0, t + 1), l0, t + 1);
    }
  }

  lemma LinkedSize(hdr: map<int, Header>, bs: seq<Block>, i: nat)
    requires Linked(hdr, bs) && i < |bs|
    ensures bs[i].addr in hdr && hdr[bs[i].addr].size == bs[i].size
  {
  }

  lemma PutMergedAt(bs: seq<Block>, t: nat, b: Block)
    requires t < |bs|
    ensures var l1 := MergedIfTouching(Put(bs, t, b), t + 1);
            t + 1 < |l1| && l1[t] == bs[t] && l1[t + 1].addr == b.addr && l1[t + 1].size >= b.size
  {
  }

  /** free's writes put the block on the list, merged with the neighbours it touches. */
  lemma RelinkedLinks(hdr: map<int, Header>, bs: seq<Block>, t: nat, b: Block)
    requires Coalesced(bs) && FitsAfter(bs, t, b) && Linked(hdr, bs)
    requires b.addr in hdr && hdr[b.addr].size == b.size
    ensures var p, r := bs[t].addr, Inserted(bs, t, b);
            && p in hdr && hdr[p].ptr in hdr && p != b.addr
            && Linked(Relinked(hdr, p, b.addr), r)
            && t < |r| && r[t].addr == p
            && (r[t].size >= b.size || (t + 1 < |r| && r[t + 1].size >= b.size))
  {
    hide Put, Merged, Relinked, NextOf, Ordered, Coalesced, Linked, LinkedIn, DistinctAddrs, InSome;
    var p := bs[t].addr;
    Neighbours(hdr, bs, t, b);
    LinkedInPut(hdr, bs, t, b);
    RelinkedSplit(hdr, p, b.addr);
    PutMergedAt(bs, t, b);
    var l0 := Put(bs, t, b);
    PutIs(bs, t, b);
    PutOrdered(l0, bs, t, b);
    MergeStep(l0, t + 1);
    var l1, h1 := MergedIfTouching(l0, t + 1), LinkedIn(hdr, p, b.addr);
    OrderedDistinct(l1);
    LinkedSize(h1, l1, t + 1);
    if Touch(l1, t) {
      MergedIs(l1, t);
      MergeLinks(h1, Merged(l1, t), l1, t);
    }
  }

  // ---- Taking memory off the list ---------------------------------------------------

  /** bs without block k. */
  ghost predicate IsRemoved(r: seq<Block>, bs: seq<Block>, k: nat)
    requires k < |bs|
  {
    && |r| == |bs| - 1
    && (forall i :: 0 <= i < k ==> r[i] == bs[i])
    && (forall i :: k <= i < |r| ==> r[i] == bs[i + 1])
  }

  lemma RemovedCoalesced(r: seq<Block>, bs: seq<Block>, k: nat)
    requires Coalesced(bs) && 0 < k < |bs| && IsRemoved(r, bs, k)
    ensures Coalesced(r)
  {
    forall i: nat | i < |r| ensures !Touch(r, i) {
      if i >= k {
        assert Touch(r, i) == Touch(bs, i + 1);
      } else if i < k - 1 {
        assert Touch(r, i) == Touch(bs, i);
      } else if i + 1 < |r| {
        assert bs[i].End() <= bs[k].addr && bs[k].End() <= bs[k + 1].addr;
      }
    }
  }

  lemma RemovedNext(r: seq<Block>, bs: seq<Block>, k: nat, i: nat)
    requires 0 < k < |bs| && IsRemoved(r, bs, k) && i < |r|
    ensures NextOf(r, i) == NextOf(bs, if i + 1 < k then i else i + 1)
  {
  }

  /** Unlinking a whole block. */
  lemma RemovedLinks(hdr: map<int, Header>, r: seq<Block>, bs: seq<Block>, k: nat)
    requires DistinctAddrs(bs) && Linked(hdr, bs) && 0 < k < |bs| && IsRemoved(r, bs, k)
    ensures bs[k - 1].addr in hdr && bs[k].addr in hdr
    ensures Linked(hdr[bs[k - 1].addr := hdr[bs[k - 1].addr].(ptr := hdr[bs[k].addr].ptr)], r)
  {
    hide NextOf;
    var h := hdr[bs[k - 1].addr := hdr[bs[k - 1].addr].(ptr := hdr[bs[k].addr].ptr)];
    forall i | 0 <= i < |r| ensures r[i].addr in h && h[r[i].addr] == Header(NextOf(r, i), r[i].size) {
      RemovedNext(r, bs, k, i);
      if i < k { assert r[i] == bs[i]; } else { assert r[i] == bs[i + 1]; }
    }
  }

  /** The units of the other blocks are those of the list less the block's own. */
  lemma RemovedCovers(r: seq<Block>, bs: seq<Block>, k: nat, u: int)
    requires Coalesced(bs) && k < |bs| && IsRemoved(r, bs, k)
    ensures InSome(r, u) <==> InSome(bs, u) && !bs[k].Has(u)
  {
    hide Touch;
    if InSome(r, u) {
      var i :| 0 <= i < |r| && r[i].Has(u);
      var j := if i < k then i else i + 1;
      assert r[i] == bs[j];
      if j < k { assert bs[j].End() <= bs[k].addr; } else { assert bs[k].End() <= bs[j].addr; }
    }
    if InSome(bs, u) && !bs[k].Has(u) {
      var i :| 0 <= i < |bs| && bs[i].Has(u);
      var m := if i < k then i else i - 1;
      assert r[m] == bs[i];
    }
  }

  lemma ShrunkCoalesced(bs: seq<Block>, k: nat, n: nat)
    requires Coalesced(bs) && 0 < k < |bs| && n < bs[k].size
    ensures Coalesced(bs[k := Block(bs[k].addr, bs[k].size - n)])
  {
    var r := bs[k := Block(bs[k].addr, bs[k].size - n)];
    forall i: nat | i < |r| ensures !Touch(r, i) {
      if i != k {
        assert Touch(r, i) == Touch(bs, i);
      } else if i + 1 < |r| {
        assert bs[k].End() <= bs[k + 1].addr;
        assert n == 0 ==> Touch(r, i) == Touch(bs, i);
      }
    }
  }

  lemma ShrunkNext(bs: seq<Block>, k: nat, n: nat, i: nat)
    requires k < |bs| && n < bs[k].size && i < |bs|
    ensures NextOf(bs[k := Block(bs[k].addr, bs[k].size - n)], i) == NextOf(bs, i)
  {
  }

  /** Cutting n units off the end of a block. */
  lemma ShrunkLinks(hdr: map<int, Header>, bs: seq<Block>, k: nat, n: nat)
    requires DistinctAddrs(bs) && Linked(hdr, bs) && k < |bs| && n < bs[k].size
    ensures bs[k].addr in hdr
    ensures Linked(hdr[bs[k].addr := Header(hdr[bs[k].addr].ptr, bs[k].size - n)],
                   bs[k := Block(bs[k].addr, bs[k].size - n)])
  {
    hide NextOf;
    var r := bs[k := Block(bs[k].addr, bs[k].size - n)];
    var h := hdr[bs[k].addr := Header(hdr[bs[k].addr].ptr, bs[k].size - n)];
    forall i | 0 <= i < |r| ensures r[i].addr in h && h[r[i].addr] == Header(NextOf(r, i), r[i].size) {
      ShrunkNext(bs, k, n, i);
      if i != k { assert r[i] == bs[i]; }
    }
  }

  lemma ShrunkCovers(bs: seq<Block>, k: nat, n: nat, u: int)
    requires Coalesced(bs) && k < |bs| && n < bs[k].size
    ensures InSome(bs[k := Block(bs[k].addr, bs[k].size - n)], u)
       <==> InSome(bs, u) && !Block(bs[k].End() - n, n).Has(u)
  {
    var r := bs[k := Block(bs[k].addr, bs[k].size - n)];
    if InSome(r, u) {
      var i :| 0 <= i < |r| && r[i].Has(u);
      assert bs[i].Has(u);
    }
    if InSome(bs, u) && !Block(bs[k].End() - n, n).Has(u) {
      var i :| 0 <= i < |bs| && bs[i].Has(u);
      assert r[i].Has(u);
    }
  }

  // ---- What belongs to whom ---------------------------------------------------------

  ghost predicate InUsed(used: map<int, nat>, u: int) {
    exists a :: a in used && Block(a, used[a]).Has(u)
  }

  /** Handed-out blocks are apart, lie above base, and keep their size in their header. */
  ghost predicate UsedOk(base: int, hdr: map<int, Header>, used: map<int, nat>) {
    && (forall a :: a in used ==> a > base && used[a] > 0 && a in hdr && hdr[a].size == used[a])
    && UsedApart(used)
  }

  ghost predicate UsedApart(used: map<int, nat>) {
    forall a: int, b: int :: a in used && b in used && a < b ==> a + used[a] <= b
  }

  /** Every unit obtained from sbrk is in a free block or a handed-out one, and not in both. */
  ghost predicate Partition(heap: set<int>, bs: seq<Block>, used: map<int, nat>) {
    && (forall u :: u in heap <==> InSome(bs, u) || InUsed(used, u))
    && (forall u :: !(InSome(bs, u) && InUsed(used, u)))
  }

  ghost predicate ListOk(base: int, hdr: map<int, Header>, bs: seq<Block>) {
    bs != [] && bs[0] == Block(base, 0) && Coalesced(bs) && Linked(hdr, bs)
  }

  /** A handed-out block lies in a gap of the free list. */
  lemma UsedFits(base: int, hdr: map<int, Header>, bs: seq<Block>, used: map<int, nat>, heap: set<int>, t: nat, bp: int)
    requires ListOk(base, hdr, bs) && UsedOk(base, hdr, used) && Partition(heap, bs, used)
    requires bp in used && t < |bs| && bs[t].addr < bp && (t + 1 < |bs| ==> bp < bs[t + 1].addr)
    ensures FitsAfter(bs, t, Block(bp, used[bp]))
  {
    var b := Block(bp, used[bp]);
    if bs[t].End() > bp {
      assert bs[t].Has(bp) && b.Has(bp);
      assert InSome(bs, bp) && InUsed(used, bp);
    }
    if t + 1 < |bs| && b.End() > bs[t + 1].addr {
      var u := bs[t + 1].addr;
      assert bs[t + 1].Has(u) && b.Has(u);
      assert InSome(bs, u) && InUsed(used, u);
    }
  }

  lemma UsedNotFree(base: int, hdr: map<int, Header>, bs: seq<Block>, used: map<int, nat>, heap: set<int>, bp: int,
                    i: nat)
    requires ListOk(base, hdr, bs) && UsedOk(base, hdr, used) && Partition(heap, bs, used)
    requires bp in used && i < |bs|
    ensures bs[i].addr != bp
  {
    if i > 0 && bs[i].addr == bp {
      assert bs[i].Has(bp) && Block(bp, used[bp]).Has(bp);
      assert InSome(bs, bp) && InUsed(used, bp);
    }
  }

  /** Giving a block back moves its units from the used side to the free side. */
  lemma PartitionFree(heap: set<int>, bs: seq<Block>, bs': seq<Block>, used: map<int, nat>, bp: int)
    requires Partition(heap, bs, used) && bp in used
    requires UsedApart(used)
    requires forall u :: InSome(bs', u) <==> InSome(bs, u) || Block(bp, used[bp]).Has(u)
    ensures Partition(heap, bs', used - {bp})
  {
    forall u ensures InUsed(used, u) <==> InUsed(used - {bp}, u) || Block(bp, used[bp]).Has(u) {
      UsedAdd(used - {bp}, Block(bp, used[bp]));
      assert (used - {bp})[bp := used[bp]] == used;
    }
    forall u ensures !(InUsed(used - {bp}, u) && Block(bp, used[bp]).Has(u)) {
      if InUsed(used - {bp}, u) {
        var a :| a in used - {bp} && Block(a, (used - {bp})[a]).Has(u);
        assert a in used && (used - {bp})[a] == used[a];
        if a < bp { assert a + used[a] <= bp; } else { assert bp + used[bp] <= a; }
      }
    }
  }

  /** Handing a block out moves its units the other way. */
  lemma PartitionTake(heap: set<int>, bs: seq<Block>, bs': seq<Block>, used: map<int, nat>, b: Block)
    requires Partition(heap, bs, used) && b.addr !in used
    requires forall u :: b.Has(u) ==> InSome(bs, u)
    requires forall u :: InSome(bs', u) <==> InSome(bs, u) && !b.Has(u)
    ensures Partition(heap, bs', used[b.addr := b.size])
  {
    UsedAdd(used, b);
  }

  lemma UsedAdd(used: map<int, nat>, b: Block)
    requires b.addr !in used
    ensures forall u :: InUsed(used[b.addr := b.size], u) <==> InUsed(used, u) || b.Has(u)
  {
    var used' := used[b.addr := b.size];
    forall u ensures InUsed(used', u) <==> InUsed(used, u) || b.Has(u) {
      if InUsed(used, u) {
        var a :| a in used && Block(a, used[a]).Has(u);
        assert a in used' && Block(a, used'[a]).Has(u);
      }
      if b.Has(u) { assert b.addr in used' && Block(b.addr, used'[b.addr]).Has(u); }
    }
  }

  lemma UsedAfterFree(base: int, hdr: map<int, Header>, used: map<int, nat>, p: int, bp: int)
    requires UsedOk(base, hdr, used) && p in hdr && bp in hdr && hdr[p].ptr in hdr && p != bp && p !in used
    ensures UsedOk(base, Relinked(hdr, p, bp), used - {bp})
  {
  }

  /** bp goes after block j. */
  ghost predicate Spot(bs: seq<Block>, j: nat, bp: int) {
    j < |bs| && bs[j].addr < bp && (j + 1 < |bs| ==> bp < bs[j + 1].addr)
  }

  lemma SpotExists(bs: seq<Block>, bp: int) returns (t: nat)
    requires bs != [] && bs[0].addr < bp && (forall i :: 0 <= i < |bs| ==> bs[i].addr != bp)
    ensures Spot(bs, t, bp)
  {
    t := 0;
    while t + 1 < |bs| && bs[t + 1].addr < bp
      invariant t < |bs| && bs[t].addr < bp
    {
      t := t + 1;
    }
  }

  /** The two tests of free's loop, which stop it, hold exactly at the right place. */
  lemma SpotWhen(bs: seq<Block>, j: nat, bp: int)
    requires Coalesced(bs) && j < |bs| && bs[0].addr < bp
    ensures var p, up := bs[j].addr, NextOf(bs, j);
            Spot(bs, j, bp) <==> (bp > p && bp < up) || (p >= up && (bp > p || bp < up))
  {
    assert !Touch(bs, j);
  }

  lemma AboveBase(bs: seq<Block>, i: nat)
    requires Coalesced(bs) && i < |bs|
    ensures bs[i].addr >= bs[0].addr
  {
    assert i > 0 ==> bs[0].End() <= bs[i].addr;
  }

  lemma SpotInRange(bs: seq<Block>, t: nat, bp: int)
    requires Spot(bs, t, bp)
    ensures t < |bs| && bs[t].addr < bp
  {
  }

  lemma NextIs(bs: seq<Block>, i: nat)
    requires i < |bs|
    ensures NextOf(bs, i) == bs[if i + 1 < |bs| then i + 1 else 0].addr
  {
  }

  // ---- Handing memory out -----------------------------------------------------------

  /** Units that belong to nobody become a handed-out block. */
  lemma UsedTake(base: int, hdr: map<int, Header>, hdr': map<int, Header>, used: map<int, nat>, b: Block)
    requires UsedOk(base, hdr, used) && b.size > 0 && b.addr > base
    requires forall u :: b.Has(u) ==> !InUsed(used, u)
    requires b.addr in hdr' && hdr'[b.addr].size == b.size
    requires forall a :: a in used && a in hdr && a != b.addr ==> a in hdr' && hdr'[a].size == hdr[a].size
    ensures b.addr !in used && UsedOk(base, hdr', used[b.addr := b.size])
  {
    assert b.Has(b.addr);
    forall a: int | a in used ensures a != b.addr && (a + used[a] <= b.addr || b.End() <= a) {
      assert Block(a, used[a]).Has(a) && InUsed(used, a);
      assert !b.Has(a) && !Block(a, used[a]).Has(b.addr);
    }
  }

  /** Writing a header that is not on the list. */
  lemma LinkedElsewhere(hdr: map<int, Header>, bs: seq<Block>, a: int, h: Header)
    requires Linked(hdr, bs) && forall i :: 0 <= i < |bs| ==> bs[i].addr != a
    ensures Linked(hdr[a := h], bs)
  {
    hide NextOf;
  }

  /** The units morecore asks for. */
  function Asked(nu: nat): nat {
    if nu < 4096 then 4096 else nu
  }

  /** The units a block of n starting at a takes up. */
  ghost function Units(a: int, n: nat): set<int> {
    set u: int | a <= u < a + n && Block(a, n).Has(u)
  }

  lemma PartitionGrow(heap: set<int>, bs: seq<Block>, used: map<int, nat>, b: Block)
    requires Partition(heap, bs, used) && b.addr !in used && Units(b.addr, b.size) !! heap
    ensures Partition(heap + Units(b.addr, b.size), bs, used[b.addr := b.size])
  {
    UsedAdd(used, b);
    var heap', used' := heap + Units(b.addr, b.size), used[b.addr := b.size];
    forall u ensures u in heap' <==> InSome(bs, u) || InUsed(used', u) {
      assert b.Has(u) <==> u in Units(b.addr, b.size);
    }
    forall u ensures !(InSome(bs, u) && InUsed(used', u)) {
      assert b.Has(u) <==> u in Units(b.addr, b.size);
    }
  }

  /** A new region above base clashes with no header that is in use. */
  lemma RegionNew(base: int, hdr: map<int, Header>, bs: seq<Block>, used: map<int, nat>, heap: set<int>, b: Block)
    requires ListOk(base, hdr, bs) && UsedOk(base, hdr, used) && Partition(heap, bs, used)
    requires b.addr > base && b.size > 0 && Units(b.addr, b.size) !! heap
    ensures forall i :: 0 <= i < |bs| ==> bs[i].addr != b.addr
    ensures forall u :: b.Has(u) ==> !InUsed(used, u)
  {
    assert b.addr in Units(b.addr, b.size);
    forall i | 0 <= i < |bs| ensures bs[i].addr != b.addr {
      assert i > 0 ==> !bs[i].Has(b.addr);
    }
    forall u | b.Has(u) ensures !InUsed(used, u) { assert u in Units(b.addr, b.size); }
  }

  /** Units of a free block belong to no handed-out block. */
  lemma FreeUnits(bs: seq<Block>, used: map<int, nat>, heap: set<int>, k: nat, b: Block)
    requires Partition(heap, bs, used) && k < |bs|
    requires forall u :: b.Has(u) ==> bs[k].Has(u)
    ensures forall u :: b.Has(u) ==> InSome(bs, u) && !InUsed(used, u)
  {
  }

  lemma CoalescedFacts(bs: seq<Block>, k: nat)
    requires Coalesced(bs) && 0 < k < |bs|
    ensures DistinctAddrs(bs) && bs[k].size > 0 && bs[k].addr > bs[0].addr
  {
    assert !Touch(bs, 0);
    OrderedDistinct(bs);
  }

  /** malloc hands out block k whole, by the one link it changes. */
  lemma TakeWhole(base: int, hdr: map<int, Header>, bs: seq<Block>, used: map<int, nat>, heap: set<int>, k: nat)
      returns (r: seq<Block>)
    requires ListOk(base, hdr, bs) && UsedOk(base, hdr, used) && Partition(heap, bs, used) && 0 < k < |bs|
    ensures bs[k - 1].addr in hdr && bs[k].addr in hdr && bs[k].addr !in used
    ensures var h := hdr[bs[k - 1].addr := hdr[bs[k - 1].addr].(ptr := hdr[bs[k].addr].ptr)];
            var used' := used[bs[k].addr := bs[k].size];
            ListOk(base, h, r) && UsedOk(base, h, used') && Partition(heap, r, used')
    ensures k - 1 < |r| && r[k - 1] == bs[k - 1]
  {
    hide Coalesced, Linked, Partition, InSome, InUsed, DistinctAddrs, UsedOk;
    r := bs[..k] + bs[k + 1..];
    var b := bs[k];
    CoalescedFacts(bs, k);
    RemovedCoalesced(r, bs, k);
    RemovedLinks(hdr, r, bs, k);
    LinkedSize(hdr, bs, k);
    FreeUnits(bs, used, heap, k, b);
    forall u ensures InSome(r, u) <==> InSome(bs, u) && !b.Has(u) { RemovedCovers(r, bs, k, u); }
    var h := hdr[bs[k - 1].addr := hdr[bs[k - 1].addr].(ptr := hdr[b.addr].ptr)];
    UsedTake(base, hdr, h, used, b);
    PartitionTake(heap, bs, r, used, b);
  }

  /** malloc hands out the last n units of block k; x is what the new header's link holds. */
  lemma TakeTail(base: int, hdr: map<int, Header>, bs: seq<Block>, used: map<int, nat>, heap: set<int>, k: nat,
                 n: nat, x: int)
    requires ListOk(base, hdr, bs) && UsedOk(base, hdr, used) && Partition(heap, bs, used)
    requires 0 < k < |bs| && 0 < n < bs[k].size
    ensures bs[k].addr in hdr
    ensures var p, rest := bs[k].addr, bs[k].size - n;
            var h := hdr[p := Header(hdr[p].ptr, rest)][p + rest := Header(x, n)];
            var r, used' := bs[k := Block(p, rest)], used[p + rest := n];
            p + rest !in used && ListOk(base, h, r) && UsedOk(base, h, used') && Partition(heap, r, used')
  {
    hide Coalesced, Linked, Partition, InSome, InUsed, DistinctAddrs, UsedOk;
    var p, rest := bs[k].addr, bs[k].size - n;
    var b := Block(p + rest, n);
    var r := bs[k := Block(p, rest)];
    CoalescedFacts(bs, k);
    ShrunkCoalesced(bs, k, n);
    ShrunkLinks(hdr, bs, k, n);
    forall i | 0 <= i < |r| ensures r[i].addr != b.addr { OutsideBlock(bs, k, i, b.addr); }
    LinkedElsewhere(hdr[p := Header(hdr[p].ptr, rest)], r, b.addr, Header(x, n));
    FreeUnits(bs, used, heap, k, b);
    forall u ensures InSome(r, u) <==> InSome(bs, u) && !b.Has(u) { ShrunkCovers(bs, k, n, u); }
    forall a | a in used ensures a != p { UsedNotFree(base, hdr, bs, used, heap, a, k); }
    UsedTake(base, hdr, hdr[p := Header(hdr[p].ptr, rest)][b.addr := Header(x, n)], used, b);
    PartitionTake(heap, bs, r, used, b);
  }

  lemma OutsideBlock(bs: seq<Block>, k: nat, i: nat, a: int)
    requires Coalesced(bs) && k < |bs| && i < |bs| && bs[k].addr < a < bs[k].End()
    ensures bs[i].addr != a
  {
  }

  // ---- The search of malloc ---------------------------------------------------------

  /** The units a request of nbytes takes, header included, in 32-bit arithmetic. */
  function Nunits(nbytes: nat): (n: nat)
    requires nbytes < 0x1_0000_0000
    ensures n >= 1
  {
    (nbytes + 7) % 0x1_0000_0000 / 8 + 1
  }

  /** The units after the header hold the request, with less than a unit to spare, unless
      the rounding wraps; and below 2^31 - 15 bytes neither it nor the argument of sbrk does. */
  lemma Rounding(nbytes: nat)
    requires nbytes < 0x1_0000_0000
    ensures nbytes <= (Nunits(nbytes) - 1) * 8 < nbytes + 8 <==> nbytes + 7 < 0x1_0000_0000
    ensures Nunits(nbytes) * 8 < 0x8000_0000 <==> nbytes < 0x7fff_fff1 || nbytes + 7 >= 0x1_0000_0000
  {
  }

  ghost predicate AllSmall(bs: seq<Block>, n: nat) {
    forall i :: 0 <= i < |bs| ==> bs[i].size < n
  }

  /** How many links lead from block i to block f. */
  ghost function Ahead(bs: seq<Block>, i: nat, f: nat): nat
    requires i < |bs| && f < |bs|
  {
    if i <= f then f - i else f - i + |bs|
  }

  ghost function After(bs: seq<Block>, i: nat): (j: nat)
    requires i < |bs|
    ensures j < |bs|
  {
    if i + 1 < |bs| then i + 1 else 0
  }

  /** The blocks passed on the way from f to i are too small. */
  ghost predicate PassedSmall(bs: seq<Block>, i: nat, f: nat, n: nat)
    requires i < |bs| && f < |bs|
  {
    forall m :: 0 <= m < |bs| && Ahead(bs, m, f) > Ahead(bs, i, f) ==> bs[m].size < n
  }

  lemma PassOne(bs: seq<Block>, i: nat, f: nat, n: nat)
    requires i < |bs| && f < |bs| && bs[i].size < n && PassedSmall(bs, i, f, n)
    ensures i != f ==> PassedSmall(bs, After(bs, i), f, n) && Ahead(bs, After(bs, i), f) < Ahead(bs, i, f)
    ensures i == f ==> AllSmall(bs, n)
  {
    if i == f {
      forall m | 0 <= m < |bs| ensures bs[m].size < n {
        assert m == i || Ahead(bs, m, f) > Ahead(bs, i, f);
      }
    } else {
      forall m | 0 <= m < |bs| && Ahead(bs, m, f) > Ahead(bs, After(bs, i), f) ensures bs[m].size < n {
        assert m == i || Ahead(bs, m, f) > Ahead(bs, i, f);
      }
    }
  }

  lemma OneBig(bs: seq<Block>, i: nat, n: nat)
    requires i < |bs| && bs[i].size >= n
    ensures !AllSmall(bs, n)
  {
  }

  lemma EmptySmall(base: int, n: nat)
    requires n >= 1
    ensures AllSmall([], n) && AllSmall([Block(base, 0)], n)
  {
  }

  lemma SameBlock(bs: seq<Block>, i: nat, j: nat)
    requires Coalesced(bs) && i < |bs| && j < |bs|
    ensures bs[i].addr == bs[j].addr ==> i == j
  {
    assert !Touch(bs, 0);
    OrderedDistinct(bs);
  }

  lemma StartPassed(bs: seq<Block>, f: nat, n: nat)
    requires f < |bs|
    ensures PassedSmall(bs, After(bs, f), f, n)
  {
  }

  lemma LinkedNext(hdr: map<int, Header>, bs: seq<Block>, i: nat)
    requires Linked(hdr, bs) && i < |bs|
    ensures bs[i].addr in hdr && hdr[bs[i].addr] == Header(bs[After(bs, i)].addr, bs[i].size)
  {
  }

  lemma FirstList(base: int, hdr: map<int, Header>, heap: set<int>)
    requires Partition(heap, [], map[])
    ensures ListOk(base, hdr[base := Header(base, 0)], [Block(base, 0)])
    ensures Partition(heap, [Block(base, 0)], map[])
  {
    forall u ensures InSome([Block(base, 0)], u) <==> InSome([], u) {
      assert !Block(base, 0).Has(u);
    }
  }

  class Heap {
    const base: int
    var hdr: map<int, Header>
    var freep: int // 0 is the null pointer
    ghost var bs: seq<Block>
    ghost var used: map<int, nat>
    ghost var heap: set<int>
    ghost var calls: nat // of sbrk

    ghost predicate Valid()
      reads this
    {
      && base > 0
      && UsedOk(base, hdr, used) && Partition(heap, bs, used)
      && (freep == 0 ==> bs == [] && used == map[])
      && (freep != 0 ==> ListOk(base, hdr, bs) && exists j :: FreepAt(j))
    }

    ghost predicate FreepAt(j: int)
      reads this
    {
      0 <= j < |bs| && bs[j].addr == freep
    }

    constructor (base: int)
      requires base > 0
      ensures Valid() && this.base == base && freep == 0 && heap == {}
    {
      this.base := base;
      hdr, freep := map[], 0;
      bs, used, heap, calls := [], map[], {}, 0;
    }

    /** free's search for the block to put bp after. */
    method FindSpot(bp: int) returns (p: int, ghost t: nat)
      requires freep != 0 && ListOk(base, hdr, bs) && bp > base && exists j :: FreepAt(j)
      requires forall i :: 0 <= i < |bs| ==> bs[i].addr != bp
      ensures Spot(bs, t, bp) && p == bs[t].addr
    {
      hide NextOf, Coalesced, Spot;
      ghost var stop := SpotExists(bs, bp);
      ghost var n := |bs|;
      ghost var j :| FreepAt(j);
      p, t := freep, j;
      SpotInRange(bs, stop, bp);
      SpotWhen(bs, t, bp);
      while !(bp > p && bp < hdr[p].ptr)
        invariant t < n && p == bs[t].addr && p in hdr && hdr[p].ptr == NextOf(bs, t)
        invariant Spot(bs, t, bp) <==>
                    (bp > p && bp < NextOf(bs, t)) || (p >= NextOf(bs, t) && (bp > p || bp < NextOf(bs, t)))
        decreases if t <= stop then stop - t else stop - t + n
      {
        if p >= hdr[p].ptr && (bp > p || bp < hdr[p].ptr) {
          break;
        }
        NextIs(bs, t);
        p := hdr[p].ptr;
        t := if t + 1 < n then t + 1 else 0;
        SpotWhen(bs, t, bp);
      }
    }

    /** The header writes of free. */
    method Relink(p: int, bp: int)
      requires p in hdr && bp in hdr && hdr[p].ptr in hdr && p != bp
      modifies this`hdr
      ensures hdr == Relinked(old(hdr), p, bp)
    {
      var up := hdr[p].ptr;
      if bp + hdr[bp].size == up {
        hdr := hdr[bp := Header(hdr[up].ptr, hdr[bp].size + hdr[up].size)];
      } else {
        hdr := hdr[bp := Header(up, hdr[bp].size)];
      }
      if p + hdr[p].size == bp {
        hdr := hdr[p := Header(hdr[bp].ptr, hdr[p].size + hdr[bp].size)];
      } else {
        hdr := hdr[p := Header(bp, hdr[p].size)];
      }
    }

    /** free, on a block that was handed out: its units, and no others, become free. */
    method Free(ap: int)
      requires Valid() && ap - 1 in used
      modifies this
      ensures Valid() && freep != 0
      ensures used == old(used) - {ap - 1} && heap == old(heap) && calls == old(calls)
      ensures exists t :: FreepAt(t) && BigAt(t, old(used)[ap - 1])
    {
      hide Coalesced, Linked, Inserted, Partition, FitsAfter, Relinked;
      var bp := ap - 1;
      ghost var b := Block(bp, used[bp]);
      forall i | 0 <= i < |bs| ensures bs[i].addr != bp { UsedNotFree(base, hdr, bs, used, heap, bp, i); }
      var p, t := FindSpot(bp);
      AboveBase(bs, t);
      UsedFits(base, hdr, bs, used, heap, t, bp);
      RelinkedLinks(hdr, bs, t, b);
      InsertedOk(bs, t, b);
      PartitionFree(heap, bs, Inserted(bs, t, b), used, bp);
      forall a | a in used ensures a != p { UsedNotFree(base, hdr, bs, used, heap, a, t); }
      UsedAfterFree(base, hdr, used, p, bp);
      Relink(p, bp);
      freep := p;
      bs, used := Inserted(bs, t, b), used - {bp};
      assert FreepAt(t);
    }

    /** The block at j or the one after it has at least n units. */
    ghost predicate BigAt(j: int, n: nat)
      reads this
    {
      0 <= j < |bs| && (bs[j].size >= n || (j + 1 < |bs| && bs[j + 1].size >= n))
    }

    /** Where sbrk may put n new units: above base, apart from all it gave before. */
    ghost predicate MayGrant(a: int, n: nat)
      reads this
    {
      a > base && Units(a, n) !! heap
    }

    /** morecore; `grant` is what sbrk answers, None for its -1. */
    method Morecore(nu: nat, grant: Option<int>) returns (p: int)
      requires Valid() && freep != 0
      requires grant.Some? ==> MayGrant(grant.value, Asked(nu))
      modifies this
      ensures Valid() && freep != 0 && used == old(used) && calls == old(calls) + 1
      ensures grant.None? ==> p == 0 && hdr == old(hdr) && freep == old(freep) && bs == old(bs) && heap == old(heap)
      ensures grant.Some? ==> p == freep && heap == old(heap) + Units(grant.value, Asked(nu))
                              && exists t :: FreepAt(t) && BigAt(t, Asked(nu))
    {
      hide Coalesced, Linked, Partition, Units;
      var n := if nu < 4096 then 4096 else nu;
      ghost var j :| FreepAt(j);
      calls := calls + 1;
      assert FreepAt(j);
      if grant.None? {
        return 0;
      }
      var hp := grant.value;
      ghost var b := Block(hp, n);
      RegionNew(base, hdr, bs, used, heap, b);
      var h := Header(if hp in hdr then hdr[hp].ptr else 0, n);
      LinkedElsewhere(hdr, bs, hp, h);
      UsedTake(base, hdr, hdr[hp := h], used, b);
      PartitionGrow(heap, bs, used, b);
      hdr := hdr[hp := h];
      heap, used := heap + Units(hp, n), used[hp := n];
      assert used - {hp} == old(used);
      assert FreepAt(j);
      Free(hp + 1);
      p := freep;
    }

    /** malloc hands out n units of block k, which is big enough; prevp is the block before it. */
    method Take(prevp: int, p: int, n: nat, ghost k: nat) returns (h: int)
      requires Valid() && freep != 0 && 0 < k < |bs| && 0 < n <= bs[k].size
      requires prevp == bs[k - 1].addr && p == bs[k].addr
      modifies this
      ensures Valid() && freep == prevp && freep != 0
      ensures h > base && h !in old(used) && used == old(used)[h := n] && heap == old(heap) && calls == old(calls)
    {
      hide Coalesced, Linked, Partition, UsedOk;
      LinkedSize(hdr, bs, k - 1);
      LinkedSize(hdr, bs, k);
      AboveBase(bs, k - 1);
      CoalescedFacts(bs, k);
      h := p;
      if hdr[p].size == n {
        ghost var r := TakeWhole(base, hdr, bs, used, heap, k);
        hdr := hdr[prevp := hdr[prevp].(ptr := hdr[p].ptr)];
        bs := r;
      } else {
        h := p + (hdr[p].size - n);
        var x := if h in hdr then hdr[h].ptr else 0;
        TakeTail(base, hdr, bs, used, heap, k, n, x);
        hdr := hdr[p := Header(hdr[p].ptr, hdr[p].size - n)];
        hdr := hdr[h := Header(x, n)];
        bs := bs[k := Block(p, bs[k].size - n)];
      }
      used := used[h := n];
      freep := prevp;
      assert FreepAt(k - 1);
    }

    /** malloc's first call: the list is base alone. */
    method Start()
      requires Valid()
      modifies this
      ensures Valid() && freep != 0
      ensures old(freep) != 0 ==> hdr == old(hdr) && freep == old(freep) && bs == old(bs)
      ensures old(freep) == 0 ==> bs == [Block(base, 0)]
      ensures used == old(used) && heap == old(heap) && calls == old(calls)
    {
      if freep == 0 {
        FirstList(base, hdr, heap);
        hide ListOk, Partition;
        hdr := hdr[base := Header(base, 0)];
        freep := base;
        bs := [Block(base, 0)];
        assert FreepAt(0);
      }
    }

    /** malloc. It asks sbrk exactly when no free block is big enough, and then once; `grant`
        is the answer. */
    method Malloc(nbytes: nat, grant: Option<int>) returns (ap: int)
      requires Valid() && nbytes < 0x7fff_fff1
      requires grant.Some? ==> MayGrant(grant.value, Asked(Nunits(nbytes)))
      modifies this
      ensures Valid() && freep != 0
      ensures calls == old(calls) + if AllSmall(old(bs), Nunits(nbytes)) then 1 else 0
      ensures ap == 0 <==> AllSmall(old(bs), Nunits(nbytes)) && grant.None?
      ensures ap == 0 ==> used == old(used)
      ensures ap != 0 ==> ap - 1 !in old(used) && used == old(used)[ap - 1 := Nunits(nbytes)]
      ensures heap == old(heap)
                + if AllSmall(old(bs), Nunits(nbytes)) && grant.Some? then Units(grant.value, Asked(Nunits(nbytes)))
                  else {}
    {
      hide Coalesced, Linked, Partition, UsedOk, Units, AllSmall, PassedSmall, Ahead, Nunits;
      var nunits := Nunits(nbytes);
      assert nunits >= 1 by { Rounding(nbytes); }
      Start();
      ghost var asked := false;
      ghost var f: nat :| FreepAt(f);
      ghost var small := AllSmall(bs, nunits);
      assert small == AllSmall(old(bs), nunits) by { EmptySmall(base, nunits); }
      LinkedNext(hdr, bs, f);
      StartPassed(bs, f, nunits);
      var prevp := freep;
      var p := hdr[prevp].ptr;
      ghost var j: nat := f;
      while true
        invariant Valid() && freep != 0 && FreepAt(f)
        invariant j < |bs| && prevp == bs[j].addr && p == bs[After(bs, j)].addr
        invariant calls == old(calls) + if asked then 1 else 0
        invariant used == old(used)
        invariant asked ==> small && grant.Some?
        invariant heap == old(heap) + if asked then Units(grant.value, Asked(nunits)) else {}
        invariant !asked ==> small == AllSmall(bs, nunits)
        invariant PassedSmall(bs, After(bs, j), f, nunits)
        invariant asked ==> bs[f].size >= nunits || (j == f && bs[After(bs, f)].size >= nunits)
        decreases !asked, Ahead(bs, After(bs, j), f)
      {
        ghost var i: nat := After(bs, j);
        LinkedNext(hdr, bs, i);
        if hdr[p].size >= nunits {
          OneBig(bs, i, nunits);
          ap := Take(prevp, p, nunits, i);
          ap := ap + 1;
          return;
        }
        PassOne(bs, i, f, nunits);
        SameBlock(bs, i, f);
        if p == freep {
          asked := true;
          p := Morecore(nunits, grant);
          if p == 0 {
            return 0;
          }
          f :| FreepAt(f) && BigAt(f, Asked(nunits));
          i := f;
          StartPassed(bs, f, nunits);
          LinkedNext(hdr, bs, f);
        }
        prevp, p, j := p, hdr[p].ptr, i;
      }
    }
  }
}
