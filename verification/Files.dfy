/**
 The file system operations of fs.c on inodes and blocks, and the chunked writes of file.c.

 A buffer read and written back through the cache is a read or an update of `store`; the
 update is what log_write records, in `logged`. Every inode has an in-memory copy, which
 stands for the cached one, or, when there is none, for what ilock would load. A panic is a
 result.
 */
module Files {
  import opened Blocks
  import opened FileSpec
  import opened Options
  import LogSpec

  datatype Ret = Panic | Ret(value: int)

  /** Every block that differs from the first store to the second is in `logged`, whose blocks are
      the file system's. */
  ghost predicate OnlyLogged(sb: Super, s: Store, s': Store, logged: set<nat>) {
    && (forall b: nat :: b !in logged ==> Get(s', b) == Get(s, b))
    && (forall b: nat :: b in logged ==> sb.inodestart <= b < sb.size)
  }

  predicate Empty(ip: Inode) {
    ip.size == 0 && ip.addrs == NO_ADDRS
  }

  /** The inodes as ilock would load them. */
  function LoadInodes(sb: Super, s: Store, n: nat): (ins: seq<Inode>)
    ensures |ins| == n && forall i: nat :: i < n ==> ins[i] == InodeAt(Get(s, sb.IBlock(i)), i % IPB)
  {
    if n == 0 then [] else LoadInodes(sb, s, n - 1) + [InodeAt(Get(s, sb.IBlock(n - 1)), (n - 1) % IPB)]
  }

  lemma EmptyFiles(sb: Super, s: Store, ins: seq<Inode>)
    requires sb.Sane() && |ins| == sb.ninodes
    requires forall i: nat :: i < |ins| ==> OnDisk(sb, s, i, ins[i]) && Empty(ins[i])
    requires forall b: nat :: b < sb.size ==> (Bit(sb, s, b) <==> b < sb.DataStart())
    ensures Core(sb, s, ins, map[]) && FilesOk(sb, s, ins)
    ensures forall i: nat :: i < |ins| ==> ins[i].size <= MAXBYTES && AllContents(s, ins)[i] == []
  {
    hide Bit, OnDisk;
    assert forall i: nat, k: nat :: i < |ins| && k < NSLOT ==> Ptr(s, ins[i], k) == 0;
    hide Ptr;
    assert forall i: nat :: i < |ins| ==> Contents(s, ins[i]) == [];
  }

  class Fs {
    const sb: Super
    var store: Store
    var inodes: seq<Inode>
    ghost var owner: map<nat, Slot>
    var logged: set<nat>
    ghost var base: Store // as the operation found it

    ghost predicate Owned()
      reads this
    {
      Core(sb, store, inodes, owner) && OnlyLogged(sb, base, store, logged)
    }

    /** A file system whose inodes are all empty, in use or not. */
    constructor (sb: Super, store: Store)
      requires sb.Sane()
      requires forall i: nat :: i < sb.ninodes ==> Empty(InodeAt(Get(store, sb.IBlock(i)), i % IPB))
      requires forall b: nat :: b < sb.size ==> (Bit(sb, store, b) <==> b < sb.DataStart())
      ensures Valid() && this.sb == sb && this.store == store && logged == {}
      ensures |inodes| == sb.ninodes && forall i: nat :: i < sb.ninodes ==> Bytes()[i] == []
    {
      hide Bit, InodeAt;
      this.sb, this.store := sb, store;
      inodes := LoadInodes(sb, store, sb.ninodes);
      owner, logged, base := map[], {}, store;
      new;
      EmptyFiles(sb, store, inodes);
    }

    /** A file system found on disk. */
    constructor Mount(sb: Super, store: Store, ghost owner: map<nat, Slot>)
      requires var ins := LoadInodes(sb, store, sb.ninodes); Core(sb, store, ins, owner) && FilesOk(sb, store, ins)
      ensures Valid() && this.sb == sb && this.store == store && logged == {}
      ensures inodes == LoadInodes(sb, store, sb.ninodes)
    {
      hide Core, FilesOk;
      this.sb, this.store, this.owner := sb, store, owner;
      inodes := LoadInodes(sb, store, sb.ninodes);
      logged, base := {}, store;
    }

    /** Change a buffer and log_write it. */
    method LogWrite(b: nat, data: Block)
      modifies this`store, this`logged
      ensures store == old(store)[b := data] && logged == old(logged) + {b}
      ensures old(OnlyLogged(sb, base, store, logged)) && sb.inodestart <= b < sb.size ==>
                OnlyLogged(sb, base, store, logged)
    {
      store := store[b := data];
      logged := logged + {b};
    }

    /** balloc returns the first block the bitmap has as free, marked and zeroed, and panics
        when there is none. */
    method Balloc() returns (r: Option<nat>)
      requires Owned()
      modifies this`store, this`logged
      ensures r.None? ==> store == old(store) && logged == old(logged)
      ensures r.None? ==> forall c: nat :: c < sb.size ==> Bit(sb, store, c)
      ensures r.Some? ==>
                Balloced(sb, old(store), store, r.value) && logged == old(logged) + {sb.BBlock(r.value), r.value}
      ensures r.Some? ==> forall c: nat :: c < r.value ==> Bit(sb, old(store), c)
      ensures OnlyLogged(sb, base, store, logged)
    {
      hide Bit, BitAt, SetBit, Balloced, Core, OnlyLogged;
      var b := 0;
      while b < sb.size
        invariant b % BPB == 0 && store == old(store) && logged == old(logged)
        invariant forall c: nat :: c < b && c < sb.size ==> Bit(sb, store, c)
      {
        var data := Get(store, sb.BBlock(b));
        var bi := 0;
        while bi < BPB && b + bi < sb.size
          invariant 0 <= bi <= BPB && store == old(store) && logged == old(logged)
          invariant forall c: nat :: c < b + bi && c < sb.size ==> Bit(sb, store, c)
        {
          BitHere(sb, store, b, bi);
          if !BitAt(data, bi) {
            BallocedBy(sb, store, inodes, owner, b + bi);
            InBitmapRange(sb, b + bi);
            LogWrite(sb.BBlock(b), SetBit(data, bi));
            LogWrite(b + bi, ZERO_BLOCK);
            return Some(b + bi);
          }
          bi := bi + 1;
        }
        b := b + BPB;
      }
      return None;
    }

    /** The part of bmap that fills slot k of the inode itself, if it is empty. */
    method FillInode(inum: nat, k: nat) returns (r: Option<nat>, ghost maps: set<nat>)
      requires Owned() && inum < |inodes| && k <= NDIRECT
      modifies this`store, this`inodes, this`owner, this`logged
      ensures Owned() && Kept(sb, old(store), old(inodes), store, inodes, inum)
      ensures SameBlks(old(store), old(inodes), store, inodes)
      ensures old(inodes[inum].addrs[k]) != 0 ==> unchanged(this) && r.Some? && maps == {}
      ensures r.Some? ==> r.value == inodes[inum].addrs[k] != 0
      ensures r.Some? ==> forall l: nat :: l < NSLOT && l != k ==>
                Ptr(store, inodes[inum], l) == old(Ptr(store, inodes[inum], l))
      ensures r.Some? && old(inodes[inum].addrs[k]) == 0 ==> |maps| == 1 && logged == old(logged) + maps + {r.value}
      ensures r.Some? ==> |owner| == |old(owner)| + if old(inodes[inum].addrs[k]) == 0 then 1 else 0
      ensures r.None? ==> unchanged(this) && forall c: nat :: c < sb.size ==> Bit(sb, store, c)
    {
      hide Core, OnlyLogged, Balloced, Bit, Ptr, Blk, Get, SamePtrs;
      maps := {};
      if inodes[inum].addrs[k] != 0 {
        KeptSame(sb, store, inodes, inum);
        return Some(inodes[inum].addrs[k]), maps;
      }
      r := Balloc();
      if r.None? {
        KeptSame(sb, store, inodes, inum);
        return;
      }
      GrowInode(sb, old(store), inodes, owner, store, inum, k, r.value);
      BallocedLow(sb, old(store), inodes, owner, store, r.value);
      ghost var ins' := inodes[inum := inodes[inum].(addrs := inodes[inum].addrs[k := r.value])];
      CoreHas(sb, old(store), inodes, owner);
      GrewKept(sb, old(store), inodes, owner, store, ins', Slot(inum, k), r.value);
      GrewOthers(old(store), inodes, owner, store, ins', Slot(inum, k), r.value);
      inodes := inodes[inum := inodes[inum].(addrs := inodes[inum].addrs[k := r.value])];
      owner := owner[r.value := Slot(inum, k)];
      maps := {sb.BBlock(r.value)};
    }

    /** The part of bmap that fills entry e of the indirect block, if it is empty. */
    method FillIndirect(inum: nat, e: nat) returns (r: Option<nat>, ghost maps: set<nat>)
      requires Owned() && inum < |inodes| && e < NINDIRECT && inodes[inum].addrs[NDIRECT] != 0
      modifies this`store, this`inodes, this`owner, this`logged
      ensures Owned() && Kept(sb, old(store), old(inodes), store, inodes, inum) && inodes == old(inodes)
      ensures SameBlks(old(store), old(inodes), store, inodes)
      ensures old(Ptr(store, inodes[inum], NDIRECT + 1 + e)) != 0 ==> unchanged(this) && r.Some? && maps == {}
      ensures r.Some? ==> r.value == Ptr(store, inodes[inum], NDIRECT + 1 + e) != 0
      ensures r.Some? ==> forall l: nat :: l < NSLOT && l != NDIRECT + 1 + e ==>
                Ptr(store, inodes[inum], l) == old(Ptr(store, inodes[inum], l))
      ensures r.Some? && old(Ptr(store, inodes[inum], NDIRECT + 1 + e)) == 0 ==>
                |maps| == 1 && logged == old(logged) + maps + {r.value, inodes[inum].addrs[NDIRECT]}
      ensures r.Some? ==> |owner| == |old(owner)| + if old(Ptr(store, inodes[inum], NDIRECT + 1 + e)) == 0 then 1 else 0
      ensures r.None? ==> unchanged(this) && forall c: nat :: c < sb.size ==> Bit(sb, store, c)
    {
      hide Core, OnlyLogged, Balloced, Bit, Blk, Get, SamePtrs, Word, SetWord;
      maps := {};
      var x := inodes[inum].addrs[NDIRECT];
      var a := Word(Get(store, x), e);
      if a != 0 {
        KeptSame(sb, store, inodes, inum);
        return Some(a), maps;
      }
      r := Balloc();
      if r.None? {
        KeptSame(sb, store, inodes, inum);
        return;
      }
      ghost var s1, sl := store, Slot(inum, NDIRECT + 1 + e);
      GrowIndirect(sb, old(store), inodes, owner, s1, inum, e, r.value);
      BallocedLow(sb, old(store), inodes, owner, s1, r.value);
      CoreHas(sb, old(store), inodes, owner);
      OwnerOf(sb, old(store), inodes, owner, inum, NDIRECT);
      LogWrite(x, SetWord(Get(store, x), e, r.value));
      StoreLow(sb, old(store), s1, x, SetWord(Get(s1, x), e, r.value));
      GrewKept(sb, old(store), inodes, owner, store, inodes, sl, r.value);
      GrewOthers(old(store), inodes, owner, store, inodes, sl, r.value);
      owner := owner[r.value := sl];
      maps := {sb.BBlock(r.value)};
    }

    /** bmap: the block's address. It allocates exactly where there was no block, never a block
        that is in use, and changes no byte of any file. It panics past the largest file and
        when no block is free. */
    method Bmap(inum: nat, bn: nat) returns (r: Option<nat>, ghost maps: set<nat>)
      requires Owned() && inum < |inodes|
      modifies this`store, this`inodes, this`owner, this`logged
      ensures Owned() && Kept(sb, old(store), old(inodes), store, inodes, inum)
      ensures SameBlks(old(store), old(inodes), store, inodes)
      ensures r.Some? ==> bn < MAXFILE && r.value == Ptr(store, inodes[inum], DataSlot(bn)) != 0
      ensures bn < MAXFILE && old(Ptr(store, inodes[inum], DataSlot(bn))) != 0 ==>
                unchanged(this) && r.Some? && maps == {}
      ensures r.None? ==> bn >= MAXFILE || forall c: nat :: c < sb.size ==> Bit(sb, store, c)
      ensures r.Some? ==> logged <= old(logged) + maps + {r.value} + Indirect(inodes[inum])
      ensures r.Some? ==> |maps| <= 1 + NewIndirect(old(inodes[inum]), inodes[inum])
      ensures r.Some? ==> PtrsBut(old(store), old(inodes[inum]), store, inodes[inum], bn)
      ensures r.Some? ==> |owner| == |old(owner)| + old(Lack(store, inodes[inum], bn))
      ensures r.None? && bn < MAXFILE ==> |owner| < |old(owner)| + old(Lack(store, inodes[inum], bn))
    {
      hide Core, OnlyLogged, Bit, Blk, Get, SamePtrs, SameBlks, SameLow, Word, SetWord;
      if bn < NDIRECT {
        r, maps := FillInode(inum, bn);
        return;
      }
      if bn - NDIRECT < NINDIRECT {
        r, maps := FillInode(inum, NDIRECT);
        if r.None? {
          return;
        }
        ghost var s1, ins1 := store, inodes;
        ghost var more;
        r, more := FillIndirect(inum, bn - NDIRECT);
        KeptTwice(sb, old(store), old(inodes), s1, ins1, store, inodes, inum);
        SameBlksTwice(old(store), old(inodes), s1, ins1, store, inodes);
        UnionSize(maps, more);
        maps := maps + more;
        return;
      }
      KeptSame(sb, store, inodes, inum);
      return None, {};
    }

    ghost predicate Valid()
      reads this
    {
      Owned() && FilesOk(sb, store, inodes)
    }

    /** iupdate: the inode on disk is the one in memory; nothing else changes. */
    method Iupdate(inum: nat)
      requires Owned() && inum < |inodes|
      modifies this`store, this`logged
      ensures Owned() && SamePtrs(old(store), inodes, store, inodes) && SameBlks(old(store), inodes, store, inodes)
      ensures forall i: nat, k: nat :: i < |inodes| && k < NSLOT ==>
                Ptr(store, inodes[i], k) == Ptr(old(store), inodes[i], k)
      ensures OnDisk(sb, store, inum, inodes[inum])
      ensures forall i: nat, ip: Inode :: i != inum && OnDisk(sb, old(store), i, ip) ==> OnDisk(sb, store, i, ip)
      ensures logged == old(logged) + {sb.IBlock(inum)}
    {
      hide Core, OnlyLogged, Ptr, Blk, InodeAt, PutWordsAt, InodeWords;
      var b, sl := sb.IBlock(inum), inum % IPB;
      var data := PutWordsAt(Get(store, b), 16 * sl, InodeWords(inodes[inum]));
      InodeBlockFree(sb, store, inodes, owner, inum);
      StoreKeeps(sb, store, inodes, owner, b, data);
      LogWrite(b, data);
      forall j: nat | j < IPB
        ensures InodeAt(data, j) == if j == sl then inodes[inum] else InodeAt(Get(old(store), b), j)
      {
        PutInode(Get(old(store), b), sl, inodes[inum], j);
      }
      CoreHas(sb, old(store), inodes, owner);
      forall i: nat, bn: nat | i < |inodes| && bn < MAXFILE
        ensures Blk(store, inodes[i], bn) == Blk(old(store), inodes[i], bn)
      {
        BlkKept(old(store), inodes, owner, b, data, i, bn);
      }
    }

    /** The bitmap has no free block. */
    ghost predicate Full()
      reads this
    {
      forall c: nat :: c < sb.size ==> Bit(sb, store, c)
    }

    /** One trip of writei's loop: bmap, and bytes copied into the block. */
    method WritePiece(inum: nat, bn: nat, a: nat, bytes: seq<byte>)
        returns (ok: bool, ghost d: nat, ghost maps: set<nat>)
      requires Owned() && inum < |inodes| && bn < MAXFILE && a + |bytes| <= BSIZE
      modifies this`store, this`inodes, this`owner, this`logged
      ensures Owned() && Kept(sb, old(store), old(inodes), store, inodes, inum)
      ensures SameOthers(old(store), old(inodes), store, inodes, inum)
      ensures ok ==>
                Ptr(store, inodes[inum], DataSlot(bn)) != 0
                && SameBlksBut(old(store), old(inodes), store, inodes, inum, bn)
      ensures ok ==> Blk(store, inodes[inum], bn) == Patch(old(Blk(store, inodes[inum], bn)), a, bytes)
      ensures ok ==> logged <= old(logged) + maps + {d} + Indirect(inodes[inum])
      ensures ok ==> |maps| <= 1 + NewIndirect(old(inodes[inum]), inodes[inum])
      ensures old(Ptr(store, inodes[inum], DataSlot(bn))) != 0 ==> ok && maps == {} && inodes == old(inodes)
      ensures !ok ==> Full() && |owner| < |old(owner)| + old(Lack(store, inodes[inum], bn))
      ensures ok ==> PtrsBut(old(store), old(inodes[inum]), store, inodes[inum], bn)
      ensures ok ==> |owner| == |old(owner)| + old(Lack(store, inodes[inum], bn))
      ensures ok && bn >= NDIRECT ==> inodes[inum].addrs[NDIRECT] != 0
    {
      hide Core, OnlyLogged, Bit, Ptr, Patch, SameLow, SamePtrs, Lack;
      var r: Option<nat>;
      r, maps := Bmap(inum, bn);
      if r.None? {
        return false, 0, maps;
      }
      d := r.value;
      ghost var s1 := store;
      IndirectThere(store, inodes[inum], bn);
      OwnerOf(sb, store, inodes, owner, inum, DataSlot(bn));
      DataOutside(sb, store, inodes, owner, r.value);
      assert Get(store, r.value) == Blk(store, inodes[inum], bn);
      var data := Patch(Get(store, r.value), a, bytes);
      StoreKeeps(sb, store, inodes, owner, r.value, data);
      LogWrite(r.value, data);
      StoredKept(sb, s1, inodes, r.value, data, inum);
      KeptTwice(sb, old(store), old(inodes), s1, inodes, store, inodes, inum);
      assert Ptr(store, inodes[inum], DataSlot(bn)) == r.value;
      CoreHas(sb, s1, inodes, owner);
      forall i: nat, b: nat | i < |inodes| && b < MAXFILE && (i != inum || b != bn)
        ensures Blk(store, inodes[i], b) == Blk(s1, inodes[i], b)
      {
        BlkKept(s1, inodes, owner, r.value, data, i, b);
      }
      ok := true;
    }

    /** Where writei's loop is after tot bytes. */
    ghost predicate Going(s0: Store, ins0: seq<Inode>, owner0: map<nat, Slot>, l0: set<nat>, inum: nat, off0: nat,
                          src: seq<byte>, tot: nat, d: set<nat>, maps: set<nat>)
      requires inum < |ins0| && tot <= |src| && off0 + tot <= MAXBYTES
      reads this
    {
      && Owned() && |inodes| == |ins0|
      && Progress(sb, s0, ins0, store, inodes, inum, off0, src, tot)
      && Counted(l0, logged, d, maps, ins0[inum], inodes[inum], off0, tot)
      && Spends(s0, ins0[inum], owner0, store, inodes[inum], owner, off0, off0 + tot)
    }

    /** What it has done at the end. */
    ghost predicate Wrote(s0: Store, ins0: seq<Inode>, owner0: map<nat, Slot>, l0: set<nat>, inum: nat, off0: nat,
                          src: seq<byte>, d: set<nat>, maps: set<nat>)
      requires inum < |ins0| && off0 + |src| <= MAXBYTES
      reads this
    {
      && |inodes| == |ins0| && Spliced(s0, ins0[inum], store, inodes[inum], off0, src)
      && Filled(store, inodes[inum], off0, off0 + |src|)
      && (off0 + |src| <= ins0[inum].size ==> inodes == ins0)
      && logged <= l0 + d + maps + Indirect(inodes[inum]) && |d| <= Span(off0, |src|)
      && |maps| <= Fresh(off0, |src|) + NewIndirect(ins0[inum], inodes[inum])
      && Spends(s0, ins0[inum], owner0, store, inodes[inum], owner, off0, off0 + |src|)
    }

    /** One trip as a part of the whole loop: m bytes more are written. */
    method WriteStep(inum: nat, src: seq<byte>, off0: nat, tot: nat, m: nat,
                     ghost s0: Store, ghost ins0: seq<Inode>, ghost owner0: map<nat, Slot>, ghost l0: set<nat>,
                     ghost d: set<nat>, ghost maps: set<nat>)
        returns (ok: bool, ghost d': set<nat>, ghost maps': set<nat>)
      requires inum < |ins0| && off0 + |src| <= MAXBYTES && 0 < m && tot + m <= |src|
      requires (off0 + tot) % BSIZE + m <= BSIZE && Span(off0, tot + m) == Span(off0, tot) + 1
      requires NoHoles(s0, ins0[inum]) && off0 <= ins0[inum].size
      requires Going(s0, ins0, owner0, l0, inum, off0, src, tot, d, maps)
      modifies this`store, this`inodes, this`owner, this`logged
      ensures ok ==> Going(s0, ins0, owner0, l0, inum, off0, src, tot + m, d', maps')
      ensures !ok ==> Owned() && Full() && |owner| < |owner0| + Lacks(s0, ins0[inum], off0, off0 + |src|)
      ensures Kept(sb, s0, ins0, store, inodes, inum) && SameOthers(s0, ins0, store, inodes, inum)
    {
      hide Core, OnlyLogged, Bit, Ptr, Blk, ByteAt, Patch, Span, Fresh, Filled, Spliced, NoHoles, SameBlksBut,
           SameOthers, Kept, Progress, Counted, Indirect, NewIndirect, Fs.Full, Spends, Lacks, Lack, PtrsBut;
      ghost var s, ins, l, own := store, inodes, logged, owner;
      var off := off0 + tot;
      ghost var d0, maps0;
      ok, d0, maps0 := WritePiece(inum, off / BSIZE, off % BSIZE, src[tot..tot + m]);
      d', maps' := d + {d0}, maps + maps0;
      KeptSize(sb, s, ins, store, inodes, inum);
      ProgressKeeps(sb, s0, ins0, s, ins, store, inodes, inum, off0, src, tot, m, ok);
      if ok {
        if ins[inum].addrs[NDIRECT] != 0 { IndirectKept(sb, s, ins, store, inodes, inum); }
        FirstThere(sb, s0, ins0, s, ins, inum, off0, src, tot);
        CountStep(l0, l, logged, d, maps, d0, maps0, ins0[inum], ins[inum], inodes[inum], off0, tot, m);
        SpendsMore(s0, ins0[inum], owner0, s, ins[inum], own, store, inodes[inum], owner, off0, off, m);
      } else {
        SpendsShort(s0, ins0[inum], owner0, s, ins[inum], own, |owner|, off0, off, off0 + |src|);
      }
    }

    lemma StartGoing(inum: nat, off0: nat, src: seq<byte>)
      requires Valid() && inum < |inodes| && off0 <= inodes[inum].size && off0 + |src| <= MAXBYTES
      ensures NoHoles(store, inodes[inum]) && Going(store, inodes, owner, logged, inum, off0, src, 0, {}, {})
    {
      hide Core, OnlyLogged, Ptr, Progress, Counted, Spends, FilesOk, NoHoles;
      FilesHas(sb, store, inodes, inum);
      ProgressStart(sb, store, inodes, inum, off0, src);
      CountStart(logged, inodes[inum], off0);
      SpendsNothing(store, inodes[inum], owner, off0);
    }

    lemma EndGoing(s0: Store, ins0: seq<Inode>, owner0: map<nat, Slot>, l0: set<nat>, inum: nat, off0: nat,
                   src: seq<byte>, d: set<nat>, maps: set<nat>)
      requires inum < |ins0| && off0 + |src| <= MAXBYTES && Going(s0, ins0, owner0, l0, inum, off0, src, |src|, d, maps)
      ensures Owned() && Wrote(s0, ins0, owner0, l0, inum, off0, src, d, maps)
      ensures Kept(sb, s0, ins0, store, inodes, inum) && SameOthers(s0, ins0, store, inodes, inum)
    {
      hide Core, OnlyLogged, Ptr, Progress, Counted, Spends, Kept, SameOthers, Spliced, Filled, Span, Fresh;
      ProgressHas(sb, s0, ins0, store, inodes, inum, off0, src, |src|);
      CountHas(l0, logged, d, maps, ins0[inum], inodes[inum], off0, |src|);
    }

    /** writei's loop. */
    method WriteBlocks(inum: nat, src: seq<byte>, off0: nat)
        returns (ok: bool, ghost d: set<nat>, ghost maps: set<nat>)
      requires Valid() && inum < |inodes| && off0 <= inodes[inum].size && off0 + |src| <= MAXBYTES
      modifies this`store, this`inodes, this`owner, this`logged
      ensures Owned() && (!ok ==> Full())
      ensures !ok ==> |owner| < |old(owner)| + Lacks(old(store), old(inodes[inum]), off0, off0 + |src|)
      ensures Kept(sb, old(store), old(inodes), store, inodes, inum)
      ensures SameOthers(old(store), old(inodes), store, inodes, inum)
      ensures ok ==> Wrote(old(store), old(inodes), old(owner), old(logged), inum, off0, src, d, maps)
    {
      hide Core, OnlyLogged, FilesOk, SameOthers, Kept, Fs.Going, Fs.Wrote, Fs.Full, Lacks, Piece, Span;
      var off, tot, n := off0, 0, |src|;
      d, maps := {}, {};
      ghost var s0, ins0 := store, inodes;
      StartGoing(inum, off0, src);
      while tot < n
        invariant 0 <= tot <= n && off == off0 + tot
        invariant tot == 0 || tot == n || off % BSIZE == 0
        invariant Going(s0, ins0, old(owner), old(logged), inum, off0, src, tot, d, maps)
      {
        var m := Piece(off, n - tot);
        SpanMore(off0, tot, m, n);
        ok, d, maps := WriteStep(inum, src, off0, tot, m, s0, ins0, old(owner), old(logged), d, maps);
        if !ok {
          return;
        }
        tot, off := tot + m, off + m;
      }
      EndGoing(s0, ins0, old(owner), old(logged), inum, off0, src, d, maps);
      ok := true;
    }

    /** The files, as sequences of bytes. */
    ghost function Bytes(): (f: seq<seq<byte>>)
      requires Valid()
      reads this
      ensures |f| == |inodes|
    {
      AllContents(store, inodes)
    }

    /** Blocks were had, or not, exactly if there were enough. */
    lemma Affords(s0: Store, ins0: seq<Inode>, owner0: map<nat, Slot>, l0: set<nat>, inum: nat, off: nat,
                  src: seq<byte>, ok: bool, d: set<nat>, maps: set<nat>)
      requires Core(sb, s0, ins0, owner0) && Owned() && inum < |ins0| && off + |src| <= MAXBYTES
      requires ok ==> Wrote(s0, ins0, owner0, l0, inum, off, src, d, maps)
      requires !ok ==> Full() && |owner| < |owner0| + Lacks(s0, ins0[inum], off, off + |src|)
      ensures !ok <==> TooFew(sb, s0, ins0[inum], off, off + |src|)
    {
      hide Core, OnlyLogged, Lacks, Bit, Spliced, Filled, Span, Fresh;
      FreeCount(sb, s0, ins0, owner0);
      FreeCount(sb, store, inodes, owner);
      if ok {
        LacksNone(store, inodes[inum], off + |src|);
      } else {
        assert FreeBlocks(sb, store) == {};
      }
    }

    lemma WroteHas(s0: Store, ins0: seq<Inode>, owner0: map<nat, Slot>, l0: set<nat>, inum: nat, off: nat,
                   src: seq<byte>, d: set<nat>, maps: set<nat>)
      requires inum < |ins0| && off <= ins0[inum].size && off + |src| <= MAXBYTES
      requires Wrote(s0, ins0, owner0, l0, inum, off, src, d, maps)
      ensures |inodes| == |ins0| && Spliced(s0, ins0[inum], store, inodes[inum], off, src)
      ensures Filled(store, inodes[inum], off, off + |src|)
      ensures off + |src| <= ins0[inum].size ==> inodes == ins0
      ensures Spends(s0, ins0[inum], owner0, store, inodes[inum], owner, off, off + |src|)
      ensures var own := d + maps + Indirect(inodes[inum]) + {sb.IBlock(inum)};
              && logged <= l0 + own && logged + {sb.IBlock(inum)} <= l0 + own
              && |own| <= 2 * Span(off, |src|) + if off % BSIZE != 0 then 2 else 3
    {
      hide Spliced, Filled, Spends, Indirect;
      OwnSize(d, maps, inodes[inum], sb.IBlock(inum));
    }

    /** What writei does at off, and returns: it refuses and nothing changes, or there are not enough blocks, or
        src is spliced into the file. */
    ghost predicate WriteResult(s0: Store, ins0: seq<Inode>, owner0: map<nat, Slot>, files: seq<seq<byte>>, inum: nat,
                                off: uint, src: seq<byte>, r: Ret)
      requires inum < |ins0| && |src| < 0x1_0000_0000
      reads this
    {
      if BadWrite(ins0[inum].size, off, |src|) then
        r == Ret(-1) && Valid() && Bytes() == files && store == s0 && inodes == ins0 && owner == owner0
      else
        && off + |src| <= MAXBYTES
        && if TooFew(sb, s0, ins0[inum], off, off + |src|) then r.Panic? && Full()
           else
             && r == Ret(|src|) && Valid() && WroteAt(files, Bytes(), inum, off, src)
             && |inodes| == |ins0| && off + |src| <= inodes[inum].size
             && Spends(s0, ins0[inum], owner0, store, inodes[inum], owner, off, off + |src|)
    }

    /** writei: the file is a sequence of bytes, and src is spliced into it at off. All files
        stay free of holes and their inodes are on disk as they are in memory. Beyond what was
        logged, at most the blocks in `own` are. It panics if and only if the file lacks more blocks
        for what is to be written than are free. */
    method Writei(inum: nat, src: seq<byte>, off: uint) returns (r: Ret, ghost own: set<nat>)
      requires Valid() && inum < |inodes| && |src| < 0x1_0000_0000
      modifies this`store, this`inodes, this`owner, this`logged
      ensures WriteResult(old(store), old(inodes), old(owner), old(Bytes()), inum, off, src, r)
      ensures r == Ret(-1) ==> unchanged(this) && own == {}
      ensures r == Ret(|src|) ==> forall i: nat :: i < |inodes| && i != inum ==> inodes[i] == old(inodes[i])
      ensures r == Ret(|src|) ==>
                logged <= old(logged) + own && |own| <= 2 * Span(off, |src|) + if off % BSIZE != 0 then 2 else 3
    {
      hide Core, OnlyLogged, Bit, Ptr, Blk, ByteAt, Span, Filled, Spliced, NoHoles, FilesOk, Contents, Splice,
           SameOthers, Kept, SameBlks, SamePtrs, OnDisk, Indirect, BadWrite, Spends, Lacks, FreeBlocks, AllContents,
           Fs.Full, Fs.Wrote, WroteAt;
      var n := |src|;
      FilesHas(sb, store, inodes, inum);
      SizeHas(store, inodes[inum]);
      GoodWrite(inodes[inum].size, off, n);
      if off > inodes[inum].size || (off + n) % 0x1_0000_0000 < off {
        return Ret(-1), {};
      }
      if (off + n) % 0x1_0000_0000 > MAXFILE * BSIZE {
        return Ret(-1), {};
      }
      ghost var s0, ins0 := store, inodes;
      CoreSane(sb, store, inodes, owner);
      ghost var d, maps;
      var ok;
      ok, d, maps := WriteBlocks(inum, src, off);
      KeptSize(sb, s0, ins0, store, inodes, inum);
      Affords(s0, ins0, old(owner), old(logged), inum, off, src, ok, d, maps);
      if !ok {
        return Panic, {};
      }
      own := d + maps + Indirect(inodes[inum]) + {sb.IBlock(inum)};
      WroteHas(s0, ins0, old(owner), old(logged), inum, off, src, d, maps);
      ghost var s1, ins1 := store, inodes;
      if n > 0 && off + n > inodes[inum].size {
        SizeKeeps(sb, store, inodes, owner, inum, off + n);
        inodes := inodes[inum := inodes[inum].(size := off + n)];
        Iupdate(inum);
        SpendsAfter(s0, ins0[inum], old(owner), s1, ins1[inum], store, inodes[inum], owner, off, off + n);
        Extended(sb, s0, ins0, s1, ins1, store, inodes, inum, off, src);
      } else {
        Overwritten(sb, s0, ins0, s1, inum, off, src);
      }
      WrittenAll(sb, s0, ins0, store, inodes, inum, off, src);
      r := Ret(n);
    }

    /** One trip of readi's loop: bmap, and bytes copied out of the block. */
    method ReadPiece(inum: nat, off: nat, m: nat) returns (bytes: seq<byte>)
      requires Valid() && inum < |inodes| && NoHoles(store, inodes[inum]) && inodes[inum].size <= MAXBYTES
      requires m > 0 && off + m <= inodes[inum].size && off % BSIZE + m <= BSIZE
      modifies this`store, this`inodes, this`owner, this`logged
      ensures unchanged(this) && bytes == Contents(store, inodes[inum])[off..off + m]
    {
      hide Core, OnlyLogged, Bit, Ptr, Blk, ByteAt, FilesOk, Contents, Kept, SameBlks, Indirect, NewIndirect, Lack,
           PtrsBut;
      BlockThere(store, inodes[inum], off);
      var a, maps := Bmap(inum, off / BSIZE);
      BytesInBlock(store, inodes[inum], off, m);
      bytes := Get(store, a.value)[off % BSIZE..off % BSIZE + m];
    }

    /** readi returns the bytes at off, clipped to the size of the file. It goes through bmap
        for each block, yet allocates nothing and cannot panic. */
    method Readi(inum: nat, off0: uint, n0: uint) returns (r: Ret, dst: seq<byte>)
      requires Valid() && inum < |inodes|
      modifies this`store, this`inodes, this`owner, this`logged
      ensures unchanged(this)
      ensures off0 > inodes[inum].size || off0 + n0 >= 0x1_0000_0000 ==> r == Ret(-1) && dst == []
      ensures off0 <= inodes[inum].size && off0 + n0 < 0x1_0000_0000 ==>
                var c := Bytes()[inum];
                off0 <= |c| && dst == c[off0..if off0 + n0 < |c| then off0 + n0 else |c|] && r == Ret(|dst|)
    {
      hide Core, OnlyLogged, NoHoles, FilesOk, Contents, Piece;
      dst := [];
      if off0 > inodes[inum].size || (off0 + n0) % 0x1_0000_0000 < off0 {
        return Ret(-1), dst;
      }
      FilesHas(sb, store, inodes, inum);
      SizeHas(store, inodes[inum]);
      var n := if off0 + n0 > inodes[inum].size then inodes[inum].size - off0 else n0;
      ghost var c := Bytes()[inum];
      var off, tot := off0, 0;
      while tot < n
        invariant 0 <= tot <= n && off == off0 + tot && unchanged(this)
        invariant dst == c[off0..off]
      {
        var m := Piece(off, n - tot);
        var bytes := ReadPiece(inum, off, m);
        Joined(c, off0, off, off + m);
        dst := dst + bytes;
        tot, off := tot + m, off + m;
      }
      r := Ret(n);
    }

    /** writei would refuse the next chunk of the n bytes left to write. */
    ghost predicate Refused(f: OpenFile, n: int)
      requires n > 0
      reads this, f
    {
      f.inum < |inodes| && BadWrite(inodes[f.inum].size, f.off, Chunk(n))
    }

    /** One chunk of filewrite, from begin_op to end_op. Every block it logs fits in what one
        operation may log. */
    method WriteOp(f: OpenFile, src: seq<byte>) returns (r: Ret)
      requires Valid() && f.inum < |inodes| && |src| <= CHUNK
      modifies this, f`off
      ensures WriteResult(old(store), old(inodes), old(owner), old(Bytes()), f.inum, old(f.off), src, r)
      ensures f.off == old(f.off) + if r.Ret? && r.value > 0 then r.value else 0
      ensures base == old(store)
      ensures !r.Panic? ==> |logged| <= if old(f.off) % BSIZE == 0 then LogSpec.MAXOPBLOCKS - 1 else LogSpec.MAXOPBLOCKS
    {
      hide Core, Bit, FilesOk, AllContents, WroteAt, Splice, Span, BadWrite, TooFew, Spends, Fs.Full;
      logged, base := {}, store;
      ghost var own;
      r, own := Writei(f.inum, src, f.off);
      GoodWrite(old(inodes[f.inum].size), f.off, |src|);
      if r.Ret? && r.value > 0 {
        f.off := f.off + r.value;
      }
      ChunkSpan(old(f.off), |src|);
      if r.Ret? && r.value >= 0 {
        SubsetSize(logged, own);
      }
    }

    /** filewrite when i of n bytes are written. */
    ghost predicate Writing(s0: Store, ins0: seq<Inode>, owner0: map<nat, Slot>, files: seq<seq<byte>>, off0: nat,
                            f: OpenFile, src: seq<byte>, i: nat, n: int)
      reads this, f
    {
      && Valid() && f.inum < |inodes| && f.off == off0 + i && i <= |src|
      && (if i == 0 then Bytes() == files else WroteAt(files, Bytes(), f.inum, off0, src[..i]))
      && Paying(sb, s0, ins0, owner0, store, inodes, owner, f.inum, off0, i, n)
    }

    /** The next chunk. */
    method NextOp(f: OpenFile, src: seq<byte>, i: nat, n: int, ghost s0: Store, ghost ins0: seq<Inode>,
                  ghost owner0: map<nat, Slot>, ghost files: seq<seq<byte>>, ghost off0: nat) returns (r: Ret)
      requires i < n <= |src| && Writing(s0, ins0, owner0, files, off0, f, src, i, n) && f.inum < |ins0|
      modifies this, f`off
      ensures !r.Panic? ==> r == Ret(Chunk(n - i)) || r == Ret(-1)
      ensures r == Ret(Chunk(n - i)) ==> Writing(s0, ins0, owner0, files, off0, f, src, i + Chunk(n - i), n)
      ensures r == Ret(-1) ==> Writing(s0, ins0, owner0, files, off0, f, src, i, n) && Refused(f, n - i)
      ensures r.Panic? ==> Full() && off0 <= ins0[f.inum].size && off0 + Accepted(off0, n) <= MAXBYTES
      ensures r.Panic? ==> TooFew(sb, s0, ins0[f.inum], off0, off0 + Accepted(off0, n))
    {
      hide Core, OnlyLogged, Bit, FilesOk, AllContents, WroteAt, Splice, BadWrite, TooFew, Spends, Accepted, Paying,
           Fs.Full;
      var n1 := Chunk(n - i);
      ghost var before, s, ins, own := Bytes(), store, inodes, owner;
      GoodWrite(inodes[f.inum].size, f.off, n1);
      r := WriteOp(f, src[i..i + n1]);
      if r.Panic? {
        Unpaid(sb, s0, ins0, owner0, s, ins, own, f.inum, off0, i, n);
      } else if r.value >= 0 {
        WroteTwice(files, before, Bytes(), f.inum, off0, src, i, n1);
        PayMore(sb, s0, ins0, owner0, s, ins, own, store, inodes, owner, f.inum, off0, i, n1, n);
      }
    }

    /** filewrite, to an inode: `done` bytes are written, in chunks of one operation each, and
        the offset moves past them. It stops early exactly at a chunk that writei refuses, and
        panics exactly if the file lacks more blocks than are free for what comes before that. */
    method Filewrite(f: OpenFile, src: seq<byte>, n: int) returns (r: Ret, ghost done: nat)
      requires Valid() && f.inum < |inodes| && n <= |src| < 0x8000_0000
      modifies this, f`off
      ensures r.Panic? ==> Full()
      ensures !r.Panic? ==> Valid() && f.off == old(f.off) + done
      ensures !r.Panic? && done == 0 ==> Bytes() == old(Bytes())
      ensures !r.Panic? && done > 0 ==> done <= n && WroteAt(old(Bytes()), Bytes(), f.inum, old(f.off), src[..done])
      ensures !f.writable ==> r == Ret(-1) && done == 0
      ensures f.writable && !r.Panic? ==> r == Ret(if done == n then n else -1)
      ensures f.writable && !r.Panic? && done < n ==> Refused(f, n - done)
      ensures old(f.off) > old(inodes[f.inum].size) ==> !r.Panic? && done == 0
      ensures f.writable && old(f.off) <= old(inodes[f.inum].size) ==>
                var end := old(f.off) + Accepted(old(f.off), n);
                && end <= MAXBYTES && (r.Panic? <==> TooFew(sb, old(store), old(inodes[f.inum]), old(f.off), end))
                && (!r.Panic? ==> old(f.off) + done == end)
    {
      hide Core, OnlyLogged, Bit, FilesOk, AllContents, WroteAt, Splice, BadWrite, TooFew, Accepted, Paying, Fs.Full,
           Fs.Refused;
      done := 0;
      if !f.writable {
        return Ret(-1), 0;
      }
      ghost var s0, ins0, owner0, files := store, inodes, owner, Bytes();
      StartPaying(sb, store, inodes, owner, f.inum, f.off, n);
      var i := 0;
      while i < n
        invariant 0 <= i && (i <= n || i == 0) && Writing(s0, ins0, owner0, files, old(f.off), f, src, i, n)
      {
        r := NextOp(f, src, i, n, s0, ins0, owner0, files, old(f.off));
        if r.Panic? {
          return;
        }
        if r.value < 0 {
          done := i;
          Stopped(f, s0, ins0, owner0, old(f.off), i, n);
          return Ret(-1), done;
        }
        i := i + Chunk(n - i);
      }
      done := i;
      Paid(sb, s0, ins0, owner0, store, inodes, owner, f.inum, old(f.off), i, n);
      return Ret(if i == n then n else -1), done;
    }

    lemma Stopped(f: OpenFile, s0: Store, ins0: seq<Inode>, owner0: map<nat, Slot>, off0: nat, i: nat, n: int)
      requires i < n && Refused(f, n - i) && f.off == off0 + i
      requires Paying(sb, s0, ins0, owner0, store, inodes, owner, f.inum, off0, i, n)
      ensures off0 > ins0[f.inum].size ==> i == 0
      ensures off0 <= ins0[f.inum].size ==>
                i == Accepted(off0, n) && off0 + i <= MAXBYTES && !TooFew(sb, s0, ins0[f.inum], off0, off0 + i)
    {
      hide Paying, TooFew, Accepted, BadWrite;
      GoodWrite(inodes[f.inum].size, f.off, Chunk(n - i));
      Paid(sb, s0, ins0, owner0, store, inodes, owner, f.inum, off0, i, n);
    }

    /** bfree clears the block's bit; it panics if the bit is clear. */
    method Bfree(b: nat) returns (ok: bool)
      modifies this`store, this`logged
      ensures ok <==> Bit(sb, old(store), b)
      ensures !ok ==> store == old(store) && logged == old(logged)
      ensures ok ==> store == old(store)[sb.BBlock(b) := ClearBit(Get(old(store), sb.BBlock(b)), b % BPB)]
                     && logged == old(logged) + {sb.BBlock(b)}
      ensures old(OnlyLogged(sb, base, store, logged)) && sb.Sane() && b < sb.size ==>
                OnlyLogged(sb, base, store, logged)
    {
      hide BitAt, ClearBit, OnlyLogged;
      if sb.Sane() && b < sb.size { InBitmapRange(sb, b); }
      var data := Get(store, sb.BBlock(b));
      if !BitAt(data, b % BPB) {
        return false;
      }
      LogWrite(sb.BBlock(b), ClearBit(data, b % BPB));
      ok := true;
    }

    /** itrunc's loop over the direct blocks. */
    method FreeDirect(inum: nat)
      requires Owned() && inum < |inodes|
      modifies this`store, this`logged, this`inodes
      ensures OnlyLogged(sb, base, store, logged)
      ensures Freed(sb, old(store), owner, store, inum, NDIRECT, NDIRECT + 1)
      ensures |inodes| == old(|inodes|) && inodes == old(inodes)[inum := inodes[inum]]
      ensures inodes[inum] == old(inodes[inum]).(addrs := inodes[inum].addrs)
      ensures inodes[inum].addrs == NO_ADDRS[NDIRECT := old(inodes[inum].addrs[NDIRECT])]
    {
      hide Core, Bit, ClearBit, Freed, OnlyLogged;
      var i := 0;
      ghost var s0, ins0 := store, inodes;
      FreedNone(sb, s0, owner, inum);
      while i < NDIRECT
        invariant 0 <= i <= NDIRECT && Freed(sb, s0, owner, store, inum, i, NDIRECT + 1)
                  && OnlyLogged(sb, base, store, logged)
        invariant |inodes| == |ins0| && inodes == ins0[inum := inodes[inum]]
        invariant inodes[inum] == ins0[inum].(addrs := inodes[inum].addrs)
        invariant forall k: nat :: k <= NDIRECT ==> inodes[inum].addrs[k] == if k < i then 0 else ins0[inum].addrs[k]
      {
        FreedOne(sb, s0, ins0, owner, store, inum, i, NDIRECT + 1, i);
        if inodes[inum].addrs[i] != 0 {
          var ok := Bfree(inodes[inum].addrs[i]);
          assert ok;
          inodes := inodes[inum := inodes[inum].(addrs := inodes[inum].addrs[i := 0])];
        }
        i := i + 1;
      }
    }

    /** The rest of itrunc's freeing: the blocks the indirect block lists, then the block itself.
        s0 and ins0 are the blocks and inodes as itrunc found them. */
    method FreeIndirect(inum: nat, ghost s0: Store, ghost ins0: seq<Inode>)
      requires Core(sb, s0, ins0, owner) && inum < |ins0| == |inodes|
               && Freed(sb, s0, owner, store, inum, NDIRECT, NDIRECT + 1)
      requires inodes[inum].addrs[NDIRECT] == ins0[inum].addrs[NDIRECT] && OnlyLogged(sb, base, store, logged)
      modifies this`store, this`logged, this`inodes
      ensures Freed(sb, s0, owner, store, inum, NDIRECT + 1, NSLOT) && OnlyLogged(sb, base, store, logged)
      ensures inodes == old(inodes)[inum := old(inodes[inum]).(addrs := old(inodes[inum].addrs)[NDIRECT := 0])]
    {
      hide Core, Bit, ClearBit, Freed, Word, OnlyLogged;
      var x := inodes[inum].addrs[NDIRECT];
      if x == 0 {
        FreedAbsent(sb, s0, ins0, owner, store, inum);
        assert inodes[inum].addrs == inodes[inum].addrs[NDIRECT := 0];
        return;
      }
      var a := Get(store, x);
      FreedGet(sb, s0, ins0, owner, store, inum);
      var j := 0;
      while j < NINDIRECT
        invariant 0 <= j <= NINDIRECT && inodes == old(inodes) && OnlyLogged(sb, base, store, logged)
        invariant Freed(sb, s0, owner, store, inum, NDIRECT, NDIRECT + 1 + j)
      {
        FreedOne(sb, s0, ins0, owner, store, inum, NDIRECT, NDIRECT + 1 + j, NDIRECT + 1 + j);
        if Word(a, j) != 0 {
          var ok := Bfree(Word(a, j));
          assert ok;
        }
        j := j + 1;
      }
      FreedOne(sb, s0, ins0, owner, store, inum, NDIRECT, NSLOT, NDIRECT);
      var ok := Bfree(x);
      assert ok;
      inodes := inodes[inum := inodes[inum].(addrs := inodes[inum].addrs[NDIRECT := 0])];
    }

    /** itrunc: the file is empty, and exactly the blocks its inode pointed to are free again.
        It does not panic. */
    method Itrunc(inum: nat)
      requires Valid() && inum < |inodes|
      modifies this`store, this`inodes, this`owner, this`logged
      ensures Valid() && Bytes() == old(Bytes())[inum := []] && owner == OthersOf(old(owner), inum)
      ensures inodes == old(inodes)[inum := old(inodes[inum]).(size := 0, addrs := NO_ADDRS)]
      ensures forall b: nat :: b < sb.size ==>
                (Bit(sb, store, b) <==> Bit(sb, old(store), b) && !PointedBy(old(store), old(inodes[inum]), b))
    {
      hide Core, OnlyLogged, Bit, ClearBit, Freed, FilesOk, OthersOf, AllContents, Ptr, Blk, OnDisk, SameOthers,
           SameLow, SameBlks, PointedBy;
      ghost var s0, ins0 := store, inodes;
      FreeDirect(inum);
      FreeIndirect(inum, s0, ins0);
      ghost var s1 := store;
      inodes := inodes[inum := inodes[inum].(size := 0)];
      FreedAll(sb, s0, ins0, owner, store, inum, inodes[inum]);
      assert inodes == ins0[inum := inodes[inum]];
      owner := OthersOf(owner, inum);
      Iupdate(inum);
      CoreSane(sb, s0, ins0, old(owner));
      FreedLow(sb, s0, old(owner), s1, inum);
      Truncated(sb, s0, ins0, s1, store, inodes, inum);
      forall b: nat | b < sb.size
        ensures Bit(sb, store, b) <==> Bit(sb, s0, b) && !PointedBy(s0, ins0[inum], b)
      {
        TruncatedBits(sb, s0, ins0, old(owner), store, inodes, inum, b);
      }
    }
  }

  /** Without an indirect block there is nothing more to free. */
  lemma FreedAbsent(sb: Super, s0: Store, ins0: seq<Inode>, owner: map<nat, Slot>, s: Store, inum: nat)
    requires Core(sb, s0, ins0, owner) && inum < |ins0| && ins0[inum].addrs[NDIRECT] == 0
    requires Freed(sb, s0, owner, s, inum, NDIRECT, NDIRECT + 1)
    ensures Freed(sb, s0, owner, s, inum, NDIRECT + 1, NSLOT)
  {
    hide Bit;
    assert forall k: nat :: NDIRECT <= k < NSLOT ==> Ptr(s0, ins0[inum], k) == 0;
    hide Ptr;
    var n := NDIRECT + 1;
    assert forall c: nat :: Gone(owner, inum, n, NSLOT, c) <==> Gone(owner, inum, NDIRECT, n, c);
  }

  lemma FreedGet(sb: Super, s0: Store, ins0: seq<Inode>, owner: map<nat, Slot>, s: Store, inum: nat)
    requires Core(sb, s0, ins0, owner) && inum < |ins0| && ins0[inum].addrs[NDIRECT] != 0
    requires Freed(sb, s0, owner, s, inum, NDIRECT, NDIRECT + 1)
    ensures var x := ins0[inum].addrs[NDIRECT]; Get(s, x) == Get(s0, x)
  {
    hide Bit;
    assert Ptr(s0, ins0[inum], NDIRECT) == ins0[inum].addrs[NDIRECT];
    OwnerOf(sb, s0, ins0, owner, inum, NDIRECT);
  }

  lemma FreedLow(sb: Super, s: Store, owner: map<nat, Slot>, s': Store, inum: nat)
    requires Freed(sb, s, owner, s', inum, NDIRECT + 1, NSLOT)
    ensures SameLow(sb, s, s')
  {
    hide Bit, Get;
  }

  /** A file whose inode, pointers and blocks have stayed is as well-formed as it was. */
  lemma SameFile(sb: Super, s: Store, s': Store, i: nat, ip: Inode)
    requires sb.Sane() && i < sb.ninodes && NoHoles(s, ip) && OnDisk(sb, s, i, ip) && SameLow(sb, s, s')
    requires forall k: nat :: k < NSLOT ==> Ptr(s', ip, k) == Ptr(s, ip, k)
    requires forall b: nat :: b < MAXFILE ==> Blk(s', ip, b) == Blk(s, ip, b)
    ensures NoHoles(s', ip) && OnDisk(sb, s', i, ip) && Contents(s', ip) == Contents(s, ip)
  {
    hide Ptr, Blk, InodeAt;
    assert sb.IBlock(i) < sb.bmapstart;
    SameContents(s, ip, s', ip);
  }

  lemma Truncated(sb: Super, s0: Store, ins0: seq<Inode>, s1: Store, s2: Store, ins2: seq<Inode>, inum: nat)
    requires sb.Sane() && |ins0| == sb.ninodes && FilesOk(sb, s0, ins0) && inum < |ins0| == |ins2|
    requires ins2 == ins0[inum := ins2[inum]] && ins2[inum].size == 0
    requires SameOthers(s0, ins0, s1, ins2, inum) && SameLow(sb, s0, s1)
    requires forall i: nat, k: nat :: i < |ins0| && i != inum && k < NSLOT ==>
               Ptr(s1, ins0[i], k) == Ptr(s0, ins0[i], k)
    requires forall i: nat, k: nat :: i < |ins2| && k < NSLOT ==> Ptr(s2, ins2[i], k) == Ptr(s1, ins2[i], k)
    requires SameBlks(s1, ins2, s2, ins2) && OnDisk(sb, s2, inum, ins2[inum])
    requires forall i: nat, ip: Inode :: i != inum && OnDisk(sb, s1, i, ip) ==> OnDisk(sb, s2, i, ip)
    ensures FilesOk(sb, s2, ins2)
    ensures forall i :: 0 <= i < |ins0| ==> ins0[i].size <= MAXBYTES && ins2[i].size <= MAXBYTES
    ensures AllContents(s2, ins2) == AllContents(s0, ins0)[inum := []]
  {
    hide Ptr, Blk, OnDisk, Contents;
    forall i: nat | i < |ins0| && i != inum
      ensures NoHoles(s2, ins0[i]) && OnDisk(sb, s2, i, ins0[i]) && Contents(s2, ins0[i]) == Contents(s0, ins0[i])
    {
      assert ins2[i] == ins0[i];
      SameFile(sb, s0, s1, i, ins0[i]);
      SameContents(s1, ins0[i], s2, ins0[i]);
    }
    SizeHas(s2, ins2[inum]);
  }

  lemma TruncatedBits(sb: Super, s0: Store, ins0: seq<Inode>, owner: map<nat, Slot>, s2: Store, ins2: seq<Inode>,
                      inum: nat, b: nat)
    requires Core(sb, s0, ins0, owner) && Core(sb, s2, ins2, OthersOf(owner, inum)) && inum < |ins0| && b < sb.size
    ensures Bit(sb, s2, b) <==> Bit(sb, s0, b) && !PointedBy(s0, ins0[inum], b)
  {
    hide Bit, Ptr;
    if b in owner && owner[b].inum == inum {
      assert Ptr(s0, ins0[inum], owner[b].k) == b;
    }
  }

  /** The inode points to block b. */
  ghost predicate PointedBy(s: Store, ip: Inode, b: nat) {
    b != 0 && exists k: nat :: k < NSLOT && Ptr(s, ip, k) == b
  }

  lemma WroteTwice(f0: seq<seq<byte>>, f1: seq<seq<byte>>, f2: seq<seq<byte>>, inum: nat, off: nat, src: seq<byte>,
                   i: nat, n: nat)
    requires i + n <= |src| && WroteAt(f1, f2, inum, off + i, src[i..i + n])
    requires if i == 0 then f1 == f0 else WroteAt(f0, f1, inum, off, src[..i])
    ensures WroteAt(f0, f2, inum, off, src[..i + n]) && |f2| == |f0|
  {
    hide Splice;
    SpliceTwice(f0[inum], off, src, i, n);
  }

  /** Two splices, the second where the first ends, are one. */
  lemma SpliceTwice(c: seq<byte>, off: nat, src: seq<byte>, i: nat, n: nat)
    requires i + n <= |src|
    ensures off <= |c| ==> off + i <= |Splice(c, off, src[..i])|
                           && Splice(Splice(c, off, src[..i]), off + i, src[i..i + n]) == Splice(c, off, src[..i + n])
    ensures off <= |c| && i == 0 ==> Splice(c, off, src[..i]) == c
  {
    if off <= |c| {
      var s1 := Splice(c, off, src[..i]);
      assert src[..i] + src[i..i + n] == src[..i + n];
      assert s1[..off + i] == c[..off] + src[..i];
    }
  }

  /** The size of the next chunk when n bytes are left. */
  function Chunk(n: int): (m: nat)
    requires n > 0
    ensures 0 < m <= n && m <= CHUNK
  {
    if n > CHUNK then CHUNK else n
  }

  /** How many of n bytes filewrite gets past writei's tests, from an offset inside the file. */
  function Accepted(off: nat, n: int): (a: nat)
    ensures (a > 0 ==> off + a <= MAXBYTES) && (n >= 0 ==> a <= n) && (n <= 0 ==> a == 0)
    decreases if n > 0 then n else 0
  {
    if n <= 0 || off + Chunk(n) > MAXBYTES then 0 else Chunk(n) + Accepted(off + Chunk(n), n - Chunk(n))
  }

  /** All of them if they end within the longest file; otherwise as many pieces of three blocks as do. */
  lemma {:induction false} AcceptedIs(off: nat, n: nat)
    requires off <= 71680
    ensures Accepted(off, n) == if off + n <= 71680 then n else (71680 - off) / 1536 * 1536
    decreases n
  {
    if n > 0 && off + Chunk(n) <= MAXBYTES {
      AcceptedIs(off + Chunk(n), n - Chunk(n));
    }
  }

  /** What filewrite has taken when i of n bytes are written. */
  ghost predicate Paying(sb: Super, s0: Store, ins0: seq<Inode>, owner0: map<nat, Slot>, s: Store, ins: seq<Inode>,
                         owner: map<nat, Slot>, inum: nat, off0: nat, i: nat, n: int) {
    && inum < |ins0| == |ins| && Core(sb, s0, ins0, owner0) && Core(sb, s, ins, owner)
    && if off0 > ins0[inum].size then i == 0 && ins == ins0
       else
         && off0 + i <= ins[inum].size && off0 + i <= MAXBYTES && Accepted(off0, n) == i + Accepted(off0 + i, n - i)
         && Spends(s0, ins0[inum], owner0, s, ins[inum], owner, off0, off0 + i)
  }

  lemma StartPaying(sb: Super, s: Store, ins: seq<Inode>, owner: map<nat, Slot>, inum: nat, off: nat, n: int)
    requires Core(sb, s, ins, owner) && FilesOk(sb, s, ins) && inum < |ins|
    ensures Paying(sb, s, ins, owner, s, ins, owner, inum, off, 0, n)
  {
    hide Core, Spends, Accepted, OnDisk, Ptr;
    SpendsNothing(s, ins[inum], owner, off);
    assert NoHoles(s, ins[inum]);
  }

  lemma PayMore(sb: Super, s0: Store, ins0: seq<Inode>, owner0: map<nat, Slot>, s: Store, ins: seq<Inode>,
                owner: map<nat, Slot>, s': Store, ins': seq<Inode>, owner': map<nat, Slot>, inum: nat, off0: nat,
                i: nat, m: nat, n: int)
    requires Paying(sb, s0, ins0, owner0, s, ins, owner, inum, off0, i, n) && i < n && m == Chunk(n - i)
    requires off0 + i <= ins[inum].size && off0 + i + m <= MAXBYTES && Core(sb, s', ins', owner') && |ins'| == |ins|
    requires off0 + i + m <= ins'[inum].size
    requires Spends(s, ins[inum], owner, s', ins'[inum], owner', off0 + i, off0 + i + m)
    ensures Paying(sb, s0, ins0, owner0, s', ins', owner', inum, off0, i + m, n)
  {
    hide Core, Spends;
    SpendsTwice(s0, ins0[inum], owner0, s, ins[inum], owner, s', ins'[inum], owner', off0, off0 + i, off0 + i + m);
  }

  /** Filewrite stops when all is written or refused: then there were enough blocks. */
  lemma Paid(sb: Super, s0: Store, ins0: seq<Inode>, owner0: map<nat, Slot>, s: Store, ins: seq<Inode>,
             owner: map<nat, Slot>, inum: nat, off0: nat, i: nat, n: int)
    requires Paying(sb, s0, ins0, owner0, s, ins, owner, inum, off0, i, n)
    requires i >= n || (off0 + i <= ins[inum].size ==> off0 + i + Chunk(n - i) > MAXBYTES)
    ensures off0 > ins0[inum].size ==> i == 0
    ensures off0 <= ins0[inum].size ==>
              i == Accepted(off0, n) && off0 + i <= MAXBYTES && !TooFew(sb, s0, ins0[inum], off0, off0 + i)
  {
    hide Core;
    if off0 <= ins0[inum].size {
      assert Accepted(off0 + i, n - i) == 0;
      hide Accepted, FreeBlocks;
      FreeCount(sb, s0, ins0, owner0);
      FreeCount(sb, s, ins, owner);
      LacksNone(s, ins[inum], off0 + i);
      hide Lacks;
    }
  }

  lemma LacksMore(s: Store, ip: Inode, off: nat, end: nat, end': nat)
    requires end <= end' <= MAXBYTES
    ensures Lacks(s, ip, off, end) <= Lacks(s, ip, off, end')
  {
    hide BlocksLacking;
    LackingMore(s, ip, off / BSIZE, end, end');
  }

  /** A chunk for which there are not enough blocks. */
  lemma Unpaid(sb: Super, s0: Store, ins0: seq<Inode>, owner0: map<nat, Slot>, s: Store, ins: seq<Inode>,
               owner: map<nat, Slot>, inum: nat, off0: nat, i: nat, n: int)
    requires Paying(sb, s0, ins0, owner0, s, ins, owner, inum, off0, i, n) && i < n
    requires off0 + i <= ins[inum].size && off0 + i + Chunk(n - i) <= MAXBYTES
    requires TooFew(sb, s, ins[inum], off0 + i, off0 + i + Chunk(n - i))
    ensures off0 <= ins0[inum].size && off0 + Accepted(off0, n) <= MAXBYTES
    ensures TooFew(sb, s0, ins0[inum], off0, off0 + Accepted(off0, n))
  {
    hide Core, FreeBlocks;
    var end := off0 + Accepted(off0, n);
    assert off0 + i + Chunk(n - i) <= end <= MAXBYTES;
    hide Accepted, Lacks;
    LacksMore(s, ins[inum], off0 + i, off0 + i + Chunk(n - i), end);
    FreeCount(sb, s0, ins0, owner0);
    FreeCount(sb, s, ins, owner);
  }

  const CHUNK := (LogSpec.MAXOPBLOCKS - 1 - 1 - 2) / 2 * 512

  /** An open file: the inode it is of and the offset. */
  class OpenFile {
    const inum: nat
    const writable: bool
    var off: uint

    constructor (inum: nat, writable: bool)
      ensures this.inum == inum && this.writable == writable && off == 0
    {
      this.inum, this.writable, off := inum, writable, 0;
    }
  }

  lemma ChunkSpan(off: nat, n: nat)
    requires n <= CHUNK
    ensures 2 * Span(off, n) + (if off % BSIZE != 0 then 2 else 3)
         <= if off % BSIZE == 0 then LogSpec.MAXOPBLOCKS - 1 else LogSpec.MAXOPBLOCKS
  {
  }

  lemma SubsetSize(a: set<nat>, b: set<nat>)
    requires a <= b
    ensures |a| <= |b|
  {
    assert b == a + (b - a);
  }

  lemma BlockThere(s: Store, ip: Inode, off: nat)
    requires NoHoles(s, ip) && off < ip.size
    ensures off / BSIZE < MAXFILE && Ptr(s, ip, DataSlot(off / BSIZE)) != 0
  {
    assert off / BSIZE * BSIZE < ip.size;
  }

  lemma Joined(c: seq<byte>, i: nat, j: nat, k: nat)
    requires i <= j <= k <= |c|
    ensures c[i..j] + c[j..k] == c[i..k]
  {
  }

  lemma BytesInBlock(s: Store, ip: Inode, off: nat, m: nat)
    requires ip.size <= MAXBYTES && off + m <= ip.size && off % BSIZE + m <= BSIZE && off < ip.size
    requires Ptr(s, ip, DataSlot(off / BSIZE)) != 0
    ensures Contents(s, ip)[off..off + m] == Get(s, Ptr(s, ip, DataSlot(off / BSIZE)))[off % BSIZE..off % BSIZE + m]
  {
    hide Ptr, Get;
    var u, v := Contents(s, ip)[off..off + m], Blk(s, ip, off / BSIZE)[off % BSIZE..off % BSIZE + m];
    forall i | 0 <= i < m ensures u[i] == v[i] {
      assert (off + i) / BSIZE == off / BSIZE;
      assert u[i] == ByteAt(s, ip, off + i);
    }
  }

  lemma CoreSane(sb: Super, s: Store, ins: seq<Inode>, owner: map<nat, Slot>)
    requires Core(sb, s, ins, owner)
    ensures sb.Sane() && |ins| == sb.ninodes
  {
  }

  lemma SizeHas(s: Store, ip: Inode)
    requires NoHoles(s, ip)
    ensures ip.size <= MAXBYTES && |Contents(s, ip)| == ip.size
  {
  }

  lemma KeptSize(sb: Super, s: Store, ins: seq<Inode>, s': Store, ins': seq<Inode>, inum: nat)
    requires Kept(sb, s, ins, s', ins', inum) && inum < |ins|
    ensures |ins'| == |ins| && ins'[inum].size == ins[inum].size
  {
  }

  lemma OwnSize(d: set<nat>, maps: set<nat>, ip: Inode, b: nat)
    ensures |d + maps + Indirect(ip) + {b}| <= |d| + |maps| + 2
  {
    UnionSize(d, maps);
    UnionSize(d + maps, Indirect(ip));
    UnionSize(d + maps + Indirect(ip), {b});
  }

  /** Pointers and file blocks do not depend on the size field. */
  lemma SizeKeeps(sb: Super, s: Store, ins: seq<Inode>, owner: map<nat, Slot>, inum: nat, size: uint)
    requires Core(sb, s, ins, owner) && inum < |ins|
    ensures var ins' := ins[inum := ins[inum].(size := size)];
            Core(sb, s, ins', owner) && forall k: nat :: k < NSLOT ==> Ptr(s, ins'[inum], k) == Ptr(s, ins[inum], k)
  {
    hide Bit, Get;
    var ins' := ins[inum := ins[inum].(size := size)];
    assert forall i: nat, k: nat :: i < |ins| && k < NSLOT ==> Ptr(s, ins'[i], k) == Ptr(s, ins[i], k);
    hide Ptr;
    assert Points(s, ins', owner);
  }

  /** What writei achieves. */
  ghost predicate Written(sb: Super, s: Store, ins: seq<Inode>, s': Store, ins': seq<Inode>, inum: nat, off: nat,
                          src: seq<byte>)
    requires inum < |ins| == |ins'|
  {
    && FilesOk(sb, s', ins')
    && off <= ins[inum].size <= MAXBYTES && ins'[inum].size <= MAXBYTES
    && Contents(s', ins'[inum]) == Splice(Contents(s, ins[inum]), off, src)
    && forall i: nat :: i < |ins| && i != inum ==>
         ins'[i] == ins[i] && ins[i].size <= MAXBYTES && Contents(s', ins[i]) == Contents(s, ins[i])
  }

  /** The files in f' are those in f, except that src is spliced into file inum. */
  ghost predicate WroteAt(f: seq<seq<byte>>, f': seq<seq<byte>>, inum: nat, off: nat, src: seq<byte>) {
    inum < |f| && off <= |f[inum]| && f' == f[inum := Splice(f[inum], off, src)]
  }

  lemma WrittenAll(sb: Super, s: Store, ins: seq<Inode>, s': Store, ins': seq<Inode>, inum: nat, off: nat,
                   src: seq<byte>)
    requires inum < |ins| == |ins'| && FilesOk(sb, s, ins) && Written(sb, s, ins, s', ins', inum, off, src)
    ensures forall i :: 0 <= i < |ins| ==> ins[i].size <= MAXBYTES && ins'[i].size <= MAXBYTES
    ensures WroteAt(AllContents(s, ins), AllContents(s', ins'), inum, off, src)
    ensures FilesOk(sb, s', ins') && forall i: nat :: i < |ins| && i != inum ==> ins'[i] == ins[i]
  {
    hide Contents, Splice, Ptr, OnDisk;
    var f, f' := AllContents(s, ins), AllContents(s', ins');
    assert |Contents(s, ins[inum])| == ins[inum].size by { SizeHas(s, ins[inum]); }
    forall i | 0 <= i < |f'| ensures f'[i] == f[inum := Splice(f[inum], off, src)][i] {
    }
  }

  lemma OtherFile(sb: Super, s: Store, ins: seq<Inode>, s': Store, ins': seq<Inode>, inum: nat, i: nat)
    requires sb.Sane() && |ins| == sb.ninodes && FilesOk(sb, s, ins) && i < |ins| && i != inum
    requires Kept(sb, s, ins, s', ins', inum) && SameOthers(s, ins, s', ins', inum)
    ensures ins'[i] == ins[i] && NoHoles(s', ins[i]) && OnDisk(sb, s', i, ins[i])
    ensures ins[i].size <= MAXBYTES && Contents(s', ins[i]) == Contents(s, ins[i])
  {
    hide Ptr, Blk, OnDisk;
    KeptFileOk(sb, s, ins, s', ins', inum, i);
    SameContents(s, ins[i], s', ins[i]);
  }

  lemma SizeFree(s: Store, ip: Inode, size: uint)
    ensures forall k: nat :: k < NSLOT ==> Ptr(s, ip.(size := size), k) == Ptr(s, ip, k)
    ensures forall b: nat :: b < MAXFILE ==> Blk(s, ip.(size := size), b) == Blk(s, ip, b)
  {
    hide Get, Word;
  }

  /** The file written to, when the write extends it: s1 is after the loop, s2 after iupdate. */
  lemma ExtendedFile(s0: Store, ip0: Inode, s1: Store, ip1: Inode, s2: Store, ip2: Inode, off: nat, src: seq<byte>)
    requires NoHoles(s0, ip0) && off <= ip0.size < off + |src| <= MAXBYTES
    requires Spliced(s0, ip0, s1, ip1, off, src) && Filled(s1, ip1, off, off + |src|)
    requires forall k: nat :: k < NSLOT && Ptr(s0, ip0, k) != 0 ==> Ptr(s1, ip1, k) != 0
    requires ip2 == ip1.(size := off + |src|)
    requires forall k: nat :: k < NSLOT ==> Ptr(s2, ip2, k) == Ptr(s1, ip2, k)
    requires forall b: nat :: b < MAXFILE ==> Blk(s2, ip2, b) == Blk(s1, ip2, b)
    ensures NoHoles(s2, ip2) && Contents(s2, ip2) == Splice(Contents(s0, ip0), off, src)
  {
    hide Ptr, Blk, Contents, Splice;
    SizeFree(s1, ip1, off + |src|);
    assert Filled(s2, ip2, off, off + |src|);
    ExtendNoHoles(s0, ip0, s2, ip2, off, off + |src|);
    forall x: nat | x < MAXBYTES ensures ByteAt(s2, ip2, x) == ByteAt(s1, ip1, x) {
      assert x / BSIZE < MAXFILE;
    }
    hide ByteAt;
    assert Spliced(s0, ip0, s2, ip2, off, src);
    SplicedContents(s0, ip0, s2, ip2, off, src);
  }

  lemma Extended(sb: Super, s0: Store, ins0: seq<Inode>, s1: Store, ins1: seq<Inode>, s2: Store, ins2: seq<Inode>,
                 inum: nat, off: nat, src: seq<byte>)
    requires sb.Sane() && |ins0| == sb.ninodes && FilesOk(sb, s0, ins0) && inum < |ins0|
    requires Kept(sb, s0, ins0, s1, ins1, inum) && SameOthers(s0, ins0, s1, ins1, inum)
    requires off <= ins0[inum].size < off + |src| <= MAXBYTES
    requires Spliced(s0, ins0[inum], s1, ins1[inum], off, src) && Filled(s1, ins1[inum], off, off + |src|)
    requires ins2 == ins1[inum := ins1[inum].(size := off + |src|)]
    requires forall i: nat, k: nat :: i < |ins2| && k < NSLOT ==> Ptr(s2, ins2[i], k) == Ptr(s1, ins2[i], k)
    requires SameBlks(s1, ins2, s2, ins2) && OnDisk(sb, s2, inum, ins2[inum])
    requires forall i: nat, ip: Inode :: i != inum && OnDisk(sb, s1, i, ip) ==> OnDisk(sb, s2, i, ip)
    ensures Written(sb, s0, ins0, s2, ins2, inum, off, src)
  {
    hide Ptr, Blk, OnDisk, Contents, Splice, Spliced, Filled;
    FilesHas(sb, s0, ins0, inum);
    ExtendedFile(s0, ins0[inum], s1, ins1[inum], s2, ins2[inum], off, src);
    forall i: nat | i < |ins0| && i != inum
      ensures ins2[i] == ins0[i] && ins0[i].size <= MAXBYTES && Contents(s2, ins0[i]) == Contents(s0, ins0[i])
      ensures NoHoles(s2, ins0[i]) && OnDisk(sb, s2, i, ins0[i])
    {
      OtherFile(sb, s0, ins0, s1, ins1, inum, i);
      assert ins2[i] == ins0[i];
      SameContents(s1, ins0[i], s2, ins0[i]);
    }
  }

  /** A write within the file. */
  lemma Overwritten(sb: Super, s0: Store, ins: seq<Inode>, s1: Store, inum: nat, off: nat, src: seq<byte>)
    requires sb.Sane() && |ins| == sb.ninodes && FilesOk(sb, s0, ins) && inum < |ins|
    requires Kept(sb, s0, ins, s1, ins, inum) && SameOthers(s0, ins, s1, ins, inum)
    requires off + |src| <= ins[inum].size <= MAXBYTES && Spliced(s0, ins[inum], s1, ins[inum], off, src)
    ensures Written(sb, s0, ins, s1, ins, inum, off, src)
  {
    hide Ptr, Blk, OnDisk, Contents, Splice, Spliced, NoHoles, Kept, FilesOk;
    KeptFiles(sb, s0, ins, s1, inum);
    SplicedContents(s0, ins[inum], s1, ins[inum], off, src);
    forall i: nat | i < |ins| && i != inum
      ensures ins[i].size <= MAXBYTES && Contents(s1, ins[i]) == Contents(s0, ins[i])
    {
      OtherFile(sb, s0, ins, s1, ins, inum, i);
    }
  }

  /** How far writei's loop has come. */
  ghost predicate Progress(sb: Super, s0: Store, ins0: seq<Inode>, s: Store, ins: seq<Inode>, inum: nat,
                           off: nat, src: seq<byte>, tot: nat)
    requires tot <= |src| && off + tot <= MAXBYTES
  {
    && inum < |ins0| && Kept(sb, s0, ins0, s, ins, inum) && SameOthers(s0, ins0, s, ins, inum)
    && Spliced(s0, ins0[inum], s, ins[inum], off, src[..tot])
    && Filled(s, ins[inum], off, off + tot)
    && (off + tot <= ins0[inum].size ==> ins == ins0)
  }

  lemma FilesHas(sb: Super, s: Store, ins: seq<Inode>, inum: nat)
    requires FilesOk(sb, s, ins) && inum < |ins|
    ensures NoHoles(s, ins[inum])
  {
    hide NoHoles, OnDisk;
  }

  lemma ProgressStart(sb: Super, s: Store, ins: seq<Inode>, inum: nat, off: nat, src: seq<byte>)
    requires inum < |ins| && off + |src| <= MAXBYTES && NoHoles(s, ins[inum]) && off <= ins[inum].size
    ensures Progress(sb, s, ins, s, ins, inum, off, src, 0)
  {
    hide Ptr, Blk, ByteAt, Get;
    if off % BSIZE != 0 { FirstBlockThere(s, ins[inum], off); }
    assert forall bn: nat :: off < (bn + 1) * BSIZE && bn * BSIZE < off ==> bn == off / BSIZE && off % BSIZE != 0;
  }

  lemma IndirectKept(sb: Super, s: Store, ins: seq<Inode>, s': Store, ins': seq<Inode>, inum: nat)
    requires Kept(sb, s, ins, s', ins', inum) && inum < |ins| && ins[inum].addrs[NDIRECT] != 0
    ensures ins'[inum].addrs[NDIRECT] == ins[inum].addrs[NDIRECT]
  {
    assert Ptr(s, ins[inum], NDIRECT) == ins[inum].addrs[NDIRECT];
  }

  lemma ProgressHas(sb: Super, s0: Store, ins0: seq<Inode>, s: Store, ins: seq<Inode>, inum: nat,
                    off: nat, src: seq<byte>, tot: nat)
    requires tot == |src| && off + tot <= MAXBYTES && Progress(sb, s0, ins0, s, ins, inum, off, src, tot)
    ensures Kept(sb, s0, ins0, s, ins, inum) && SameOthers(s0, ins0, s, ins, inum)
    ensures Spliced(s0, ins0[inum], s, ins[inum], off, src)
    ensures Filled(s, ins[inum], off, off + tot)
    ensures off + tot <= ins0[inum].size ==> ins == ins0
  {
    hide Ptr, Blk, ByteAt, Get;
    assert src[..tot] == src;
  }

  lemma ProgressKeeps(sb: Super, s0: Store, ins0: seq<Inode>, s: Store, ins: seq<Inode>, s': Store, ins': seq<Inode>,
                      inum: nat, off: nat, src: seq<byte>, tot: nat, m: nat, ok: bool)
    requires tot + m <= |src| && off + |src| <= MAXBYTES && (off + tot) % BSIZE + m <= BSIZE && m > 0
    requires Progress(sb, s0, ins0, s, ins, inum, off, src, tot) && NoHoles(s0, ins0[inum])
    requires Kept(sb, s, ins, s', ins', inum)
    requires var bn := (off + tot) / BSIZE;
             && (Ptr(s, ins[inum], DataSlot(bn)) != 0 ==> ins' == ins)
             && (!ok ==> SameOthers(s, ins, s', ins', inum))
             && (ok ==> Ptr(s', ins'[inum], DataSlot(bn)) != 0 && SameBlksBut(s, ins, s', ins', inum, bn)
                        && Blk(s', ins'[inum], bn) == Patch(Blk(s, ins[inum], bn), (off + tot) % BSIZE,
                                                            src[tot..tot + m]))
    ensures Kept(sb, s0, ins0, s', ins', inum) && SameOthers(s0, ins0, s', ins', inum)
    ensures ok ==> Progress(sb, s0, ins0, s', ins', inum, off, src, tot + m)
  {
    hide Ptr, Blk, ByteAt, Get, Patch;
    KeptTwice(sb, s0, ins0, s, ins, s', ins', inum);
    if ok {
      SplicedMore(s0, ins0[inum], s, ins[inum], s', ins'[inum], off, src, tot, m);
      hide Spliced;
      FilledMore(s, ins[inum], s', ins'[inum], off, off + tot, m);
    }
  }

  lemma FirstThere(sb: Super, s0: Store, ins0: seq<Inode>, s: Store, ins: seq<Inode>, inum: nat,
                   off: nat, src: seq<byte>, tot: nat)
    requires tot <= |src| && off + tot < MAXBYTES && Progress(sb, s0, ins0, s, ins, inum, off, src, tot)
    requires NoHoles(s0, ins0[inum]) && off <= ins0[inum].size
    ensures tot == 0 && off % BSIZE != 0 ==> Ptr(s, ins[inum], DataSlot((off + tot) / BSIZE)) != 0
    ensures off + tot < ins0[inum].size ==> Ptr(s, ins[inum], DataSlot((off + tot) / BSIZE)) != 0
  {
    hide Blk, ByteAt, Get, Ptr;
    if off % BSIZE != 0 { FirstBlockThere(s0, ins0[inum], off); }
    assert off + tot < ins0[inum].size ==> Ptr(s0, ins0[inum], DataSlot((off + tot) / BSIZE)) != 0;
  }

  /** The blocks logged so far: the file's own, bitmap blocks, and the indirect block. */
  ghost predicate Counted(l0: set<nat>, l: set<nat>, d: set<nat>, maps: set<nat>, ip0: Inode, ip: Inode, off: nat,
                          tot: nat) {
    && l <= l0 + d + maps + Indirect(ip)
    && |d| <= Span(off, tot) && |maps| <= Fresh(off, tot) + NewIndirect(ip0, ip)
    && (ip0.addrs[NDIRECT] != 0 ==> ip.addrs[NDIRECT] == ip0.addrs[NDIRECT])
  }

  lemma CountStart(l0: set<nat>, ip: Inode, off: nat)
    ensures Counted(l0, l0, {}, {}, ip, ip, off, 0)
  {
  }

  lemma CountHas(l0: set<nat>, l: set<nat>, d: set<nat>, maps: set<nat>, ip0: Inode, ip: Inode, off: nat, tot: nat)
    requires Counted(l0, l, d, maps, ip0, ip, off, tot)
    ensures l <= l0 + d + maps + Indirect(ip)
    ensures |d| <= Span(off, tot) && |maps| <= Fresh(off, tot) + NewIndirect(ip0, ip)
  {
  }

  lemma CountStep(l0: set<nat>, l: set<nat>, l': set<nat>, d: set<nat>, maps: set<nat>, d0: nat, maps0: set<nat>,
                  ip0: Inode, ip: Inode, ip': Inode, off: nat, tot: nat, m: nat)
    requires Counted(l0, l, d, maps, ip0, ip, off, tot) && Span(off, tot + m) == Span(off, tot) + 1 && m > 0
    requires l' <= l + maps0 + {d0} + Indirect(ip') && |maps0| <= 1 + NewIndirect(ip, ip')
    requires tot == 0 && off % BSIZE != 0 ==> maps0 == {} && ip' == ip
    requires ip.addrs[NDIRECT] != 0 ==> ip'.addrs[NDIRECT] == ip.addrs[NDIRECT]
    ensures Counted(l0, l', d + {d0}, maps + maps0, ip0, ip', off, tot + m)
  {
    hide Span;
    UnionSize(d, {d0});
    UnionSize(maps, maps0);
  }

  /** The most blocks n bytes at off can be first to use, in a file without holes. */
  ghost function Fresh(off: nat, n: nat): int {
    Span(off, n) - if off % BSIZE != 0 && n > 0 then 1 else 0
  }

  lemma InodeBlockFree(sb: Super, s: Store, ins: seq<Inode>, owner: map<nat, Slot>, inum: nat)
    requires Core(sb, s, ins, owner) && inum < |ins|
    ensures sb.IBlock(inum) !in owner && !InBitmap(sb, sb.IBlock(inum)) && sb.inodestart <= sb.IBlock(inum) < sb.size
  {
    hide Bit, Ptr;
  }

  lemma DataOutside(sb: Super, s: Store, ins: seq<Inode>, owner: map<nat, Slot>, p: nat)
    requires Core(sb, s, ins, owner) && p >= sb.DataStart()
    ensures !InBitmap(sb, p)
  {
    hide Bit, Ptr;
  }

  lemma LacksNone(s: Store, ip: Inode, end: nat)
    requires end <= MAXBYTES
    ensures Lacks(s, ip, end, end) == 0
  {
  }

  /** What lacks does not depend on the size. */
  lemma SpendsAfter(s0: Store, ip0: Inode, owner0: map<nat, Slot>, s: Store, ip: Inode, s': Store, ip': Inode,
                    owner: map<nat, Slot>, off0: nat, off: nat)
    requires Spends(s0, ip0, owner0, s, ip, owner, off0, off)
    requires forall k: nat :: k < NSLOT ==> Ptr(s', ip', k) == Ptr(s, ip, k)
    ensures Spends(s0, ip0, owner0, s', ip', owner, off0, off)
  {
    assert Ptr(s', ip', NDIRECT) == ip'.addrs[NDIRECT] && Ptr(s, ip, NDIRECT) == ip.addrs[NDIRECT];
    hide Ptr;
    forall end: nat | off <= end <= MAXBYTES ensures Lacks(s', ip', off, end) == Lacks(s, ip, off, end) {
      LackingSame(s, ip, s', ip', off / BSIZE, end);
    }
  }

  /** A block behind the indirect block needs it. */
  lemma IndirectThere(s: Store, ip: Inode, bn: nat)
    requires bn < MAXFILE && Ptr(s, ip, DataSlot(bn)) != 0
    ensures bn >= NDIRECT ==> ip.addrs[NDIRECT] != 0
  {
  }

  lemma StoredKept(sb: Super, s: Store, ins: seq<Inode>, p: nat, data: Block, inum: nat)
    requires forall i: nat, k: nat :: i < |ins| && k < NSLOT ==> Ptr(s[p := data], ins[i], k) == Ptr(s, ins[i], k)
    requires p >= sb.bmapstart
    ensures Kept(sb, s, ins, s[p := data], ins, inum)
  {
    hide Ptr;
  }

  /** The indirect block, if there is one. */
  ghost function Indirect(ip: Inode): set<nat> {
    if ip.addrs[NDIRECT] == 0 then {} else {ip.addrs[NDIRECT]}
  }

  /** 1 if the second has an indirect block that the first did not. */
  ghost function NewIndirect(ip: Inode, ip': Inode): nat {
    if ip.addrs[NDIRECT] == 0 && ip'.addrs[NDIRECT] != 0 then 1 else 0
  }

  lemma UnionSize(a: set<nat>, b: set<nat>)
    ensures |a + b| <= |a| + |b|
  {
    assert a + b == a + (b - a);
    assert b == (b - a) + (b * a);
  }

  lemma SameBlksTwice(s: Store, ins: seq<Inode>, s1: Store, ins1: seq<Inode>, s2: Store, ins2: seq<Inode>)
    requires |ins| == |ins1| == |ins2| && SameBlks(s, ins, s1, ins1) && SameBlks(s1, ins1, s2, ins2)
    ensures SameBlks(s, ins, s2, ins2)
  {
    hide Blk;
  }

  lemma StoreLow(sb: Super, s: Store, s1: Store, x: nat, blk: Block)
    requires SameLow(sb, s, s1) && x >= sb.bmapstart
    ensures SameLow(sb, s, s1[x := blk])
  {
  }

  lemma KeptSame(sb: Super, s: Store, ins: seq<Inode>, inum: nat)
    ensures Kept(sb, s, ins, s, ins, inum) && SameBlks(s, ins, s, ins)
  {
  }

  lemma CoreHas(sb: Super, s: Store, ins: seq<Inode>, owner: map<nat, Slot>)
    requires Core(sb, s, ins, owner)
    ensures Points(s, ins, owner)
  {
  }

  lemma BallocedLow(sb: Super, s: Store, ins: seq<Inode>, owner: map<nat, Slot>, s': Store, r: nat)
    requires Core(sb, s, ins, owner) && Balloced(sb, s, s', r)
    ensures SameLow(sb, s, s') && 0 < r < 0x1_0000_0000
  {
    hide Bit;
    BallocedFresh(sb, s, ins, owner, s', r);
  }

  lemma GrewOthers(s: Store, ins: seq<Inode>, owner: map<nat, Slot>, s': Store, ins': seq<Inode>, sl: Slot, r: nat)
    requires Grew(s, ins, owner, s', ins', sl, r)
    ensures forall l: nat :: l < NSLOT && l != sl.k ==> Ptr(s', ins'[sl.inum], l) == Ptr(s, ins[sl.inum], l)
    ensures Ptr(s', ins'[sl.inum], sl.k) == r
  {
    hide Ptr, Get;
  }

  lemma BitHere(sb: Super, s: Store, b: nat, bi: nat)
    requires b % BPB == 0 && bi < BPB
    ensures (b + bi) % BPB == bi && sb.BBlock(b + bi) == sb.BBlock(b)
    ensures Bit(sb, s, b + bi) <==> BitAt(Get(s, sb.BBlock(b)), bi)
  {
    hide BitAt;
  }

  /** The bitmap is part of the file system. */
  lemma InBitmapRange(sb: Super, b: nat)
    requires sb.Sane() && b < sb.size
    ensures sb.inodestart <= sb.BBlock(b) < sb.DataStart() <= sb.size
  {
  }

  /** The two block writes of balloc. */
  lemma BallocedBy(sb: Super, s: Store, ins: seq<Inode>, owner: map<nat, Slot>, r: nat)
    requires Core(sb, s, ins, owner) && r < sb.size && !Bit(sb, s, r)
    ensures sb.Sane() && sb.DataStart() <= r
    ensures Balloced(sb, s, s[sb.BBlock(r) := SetBit(Get(s, sb.BBlock(r)), r % BPB)][r := ZERO_BLOCK], r)
  {
    hide Bit, SetBit;
    var s1 := s[sb.BBlock(r) := SetBit(Get(s, sb.BBlock(r)), r % BPB)];
    var s2 := s1[r := ZERO_BLOCK];
    assert r >= sb.DataStart();
    forall c: nat | c < sb.size ensures Bit(sb, s2, c) <==> c == r || Bit(sb, s, c) {
      MarkBit(sb, s, r, c);
      BitElsewhere(sb, s1, r, ZERO_BLOCK, c);
    }
    assert InBitmap(sb, sb.BBlock(r));
  }
}
