/**
 The write-ahead log (log.c) over the buffer cache (bio.c).

 begin_op, log_write and end_op are the critical sections under log.lock; during commit no
 operation is in progress, though other processes may be reading. The block writes of commit
 and recovery go through the cache and are proved to be exactly the disk states of LogSpec, so
 its crash theorems apply.
 */
module Log {
  import opened Blocks
  import opened BufferCache
  import opened LogSpec
  import opened Options
  import R = Reservation

  // ---- Room in the cache ----------------------------------------------------

  /** The dirty buffers of the first k listed blocks. */
  ghost function DirtyOf(buf: seq<Buf>, l: Layout, bs: seq<uint>, k: nat): set<int>
    requires k <= |bs|
  {
    set b | 0 <= b < |buf| && buf[b].dirty && buf[b].name.dev == l.dev && buf[b].name.blockno in bs[..k]
  }

  lemma DirtyNone(buf: seq<Buf>, l: Layout, bs: seq<uint>)
    ensures DirtyOf(buf, l, bs, 0) == {}
  {
  }

  lemma DirtyStep(buf: seq<Buf>, l: Layout, bs: seq<uint>, k: nat, b: nat)
    requires 0 < k <= |bs| && (forall i, j :: 0 <= i < j < |bs| ==> bs[i] != bs[j])
    requires b < |buf| && buf[b].name == l.Home(bs[k - 1]) && buf[b].dirty
    requires forall a :: 0 <= a < |buf| && buf[a].dirty && a != b ==> buf[a].name != buf[b].name
    ensures DirtyOf(buf, l, bs, k) == DirtyOf(buf, l, bs, k - 1) + {b} && b !in DirtyOf(buf, l, bs, k - 1)
  {
    assert bs[..k] == bs[..k - 1] + [bs[k - 1]] && bs[k - 1] !in bs[..k - 1];
  }

  /** There is one dirty buffer for each logged block. */
  lemma {:induction false} DirtyCount(buf: seq<Buf>, order: seq<nat>, store: Disk, disk: Disk, l: Layout,
                                      bs: seq<uint>, k: nat)
    requires Inv(buf, order, store, disk) && PinnedBy(buf, l, bs) && k <= |bs|
    requires forall i, j :: 0 <= i < j < |bs| ==> bs[i] != bs[j]
    ensures |DirtyOf(buf, l, bs, k)| == k
  {
    hide Coherent, OneNamed, Nodes, DirtyOf;
    if k == 0 {
      DirtyNone(buf, l, bs);
    } else {
      DirtyCount(buf, order, store, disk, l, bs, k - 1);
      assert DirtyIn(buf, l.Home(bs[k - 1]));
      var b :| 0 <= b < |buf| && buf[b].name == l.Home(bs[k - 1]) && buf[b].dirty;
      forall a | 0 <= a < |buf| && buf[a].dirty && a != b ensures buf[a].name != buf[b].name {
        OneBufferPerBlock(buf, order, store, disk, a, b);
      }
      DirtyStep(buf, l, bs, k, b);
    }
  }

  /** The buffers that are not dirty but that some process is using. */
  ghost function InUse(buf: seq<Buf>): set<int> {
    set b | 0 <= b < |buf| && buf[b].refcnt > 0 && !buf[b].dirty
  }

  /** A set of buffers has all NBUF of them exactly when it has NBUF members. */
  lemma {:induction false} Bounded(s: set<int>, n: nat)
    requires forall a: int :: a in s ==> 0 <= a < n
    ensures |s| <= n && (|s| == n <==> forall a: int :: 0 <= a < n ==> a in s)
  {
    if n > 0 {
      Bounded(s - {n - 1}, n - 1);
      assert n - 1 in s ==> s == (s - {n - 1}) + {n - 1};
      assert n - 1 !in s ==> s == s - {n - 1};
    } else {
      assert forall a: int :: a !in s;
    }
  }

  lemma Taken(buf: seq<Buf>, l: Layout, bs: seq<uint>, b: int)
    requires PinnedBy(buf, l, bs) && 0 <= b < |buf|
    ensures b in DirtyOf(buf, l, bs, |bs|) || b in InUse(buf) <==> !buf[b].Recyclable()
    ensures !(b in DirtyOf(buf, l, bs, |bs|) && b in InUse(buf))
  {
    if buf[b].dirty { assert DirtyIn(buf, buf[b].name) && bs[..|bs|] == bs; }
  }

  /** A buffer can be recycled if and only if the logged blocks and the buffers in use leave one. */
  lemma RoomCount(buf: seq<Buf>, order: seq<nat>, store: Disk, disk: Disk, l: Layout, bs: seq<uint>)
    requires Inv(buf, order, store, disk) && PinnedBy(buf, l, bs)
    requires forall i, j :: 0 <= i < j < |bs| ==> bs[i] != bs[j]
    ensures (exists b :: 0 <= b < NBUF && buf[b].Recyclable()) <==> |bs| + |InUse(buf)| < NBUF
  {
    DirtyCount(buf, order, store, disk, l, bs, |bs|);
    hide Coherent, OneNamed, Nodes, PinnedBy;
    var dirty, used := DirtyOf(buf, l, bs, |bs|), InUse(buf);
    forall b: int | 0 <= b < NBUF
      ensures (b in dirty || b in used <==> !buf[b].Recyclable()) && !(b in dirty && b in used)
    {
      Taken(buf, l, bs, b);
    }
    assert dirty !! used;
    Bounded(dirty + used, NBUF);
  }

  /** Dirty buffers are exactly those of the listed blocks. */
  ghost predicate PinnedBy(buf: seq<Buf>, l: Layout, bs: seq<uint>) {
    && (forall n :: DirtyIn(buf, n) ==> n.dev == l.dev && n.blockno in bs)
    && (forall i :: 0 <= i < |bs| ==> DirtyIn(buf, l.Home(bs[i])))
  }

  /** Adding a block to the list and marking its buffer dirty go together. */
  lemma MarkPins(buf: seq<Buf>, l: Layout, bs: seq<uint>, bs': seq<uint>, b: nat, n: uint)
    requires PinnedBy(buf, l, bs) && b < |buf| && buf[b].name == l.Home(n)
    requires n in bs' && (bs' == bs || bs' == bs + [n])
    ensures PinnedBy(buf[b := buf[b].(dirty := true)], l, bs')
  {
    var buf' := buf[b := buf[b].(dirty := true)];
    forall m | DirtyIn(buf', m) ensures m.dev == l.dev && m.blockno in bs' {
      var a :| 0 <= a < |buf'| && buf'[a].name == m && buf'[a].dirty;
      if a != b { assert DirtyIn(buf, m); }
    }
    forall i | 0 <= i < |bs'| ensures DirtyIn(buf', l.Home(bs'[i])) {
      if bs'[i] == n {
        assert buf'[b].dirty;
      } else {
        assert DirtyIn(buf, l.Home(bs[i]));
        var a :| 0 <= a < |buf| && buf[a].name == l.Home(bs[i]) && buf[a].dirty;
        assert buf'[a].dirty;
      }
    }
  }

  lemma SamePins(buf: seq<Buf>, buf': seq<Buf>, l: Layout, bs: seq<uint>)
    requires forall n :: DirtyIn(buf', n) <==> DirtyIn(buf, n)
    ensures PinnedBy(buf, l, bs) ==> PinnedBy(buf', l, bs)
    ensures (forall b :: 0 <= b < |buf| ==> !buf[b].dirty) ==> forall b :: 0 <= b < |buf'| ==> !buf'[b].dirty
  {
    if forall b :: 0 <= b < |buf| ==> !buf[b].dirty {
      forall b | 0 <= b < |buf'| ensures !buf'[b].dirty {
        if buf'[b].dirty { assert DirtyIn(buf', buf'[b].name); }
      }
    }
  }

  /** Writing a block of the log leaves the transaction pinned. */
  lemma KeepPins(buf: seq<Buf>, buf': seq<Buf>, l: Layout, bs: seq<uint>, dst: Name)
    requires PinnedBy(buf, l, bs) && Loggable(l, bs) && l.InLog(dst)
    requires forall n :: DirtyIn(buf', n) <==> DirtyIn(buf, n) && n != dst
    ensures PinnedBy(buf', l, bs)
  {
    forall i | 0 <= i < |bs| ensures DirtyIn(buf', l.Home(bs[i])) {
      assert DirtyIn(buf, l.Home(bs[i]));
    }
  }

  /** Writing out the first listed block leaves the rest pinned. */
  lemma UnpinFirst(buf: seq<Buf>, buf': seq<Buf>, l: Layout, bs: seq<uint>)
    requires bs != [] && (forall i, j :: 0 <= i < j < |bs| ==> bs[i] != bs[j])
    requires forall n :: DirtyIn(buf', n) <==> DirtyIn(buf, n) && n != l.Home(bs[0])
    ensures PinnedBy(buf, l, bs) ==> PinnedBy(buf', l, bs[1..])
    ensures (forall b :: 0 <= b < |buf| ==> !buf[b].dirty) ==> forall b :: 0 <= b < |buf'| ==> !buf'[b].dirty
  {
    if forall b :: 0 <= b < |buf| ==> !buf[b].dirty {
      forall b | 0 <= b < |buf'| ensures !buf'[b].dirty {
        if buf'[b].dirty { assert DirtyIn(buf', buf'[b].name); }
      }
    }
    if PinnedBy(buf, l, bs) {
      forall n | DirtyIn(buf', n) ensures n.dev == l.dev && n.blockno in bs[1..] {
        assert DirtyIn(buf, n);
      }
      forall i | 0 <= i < |bs[1..]| ensures DirtyIn(buf', l.Home(bs[1..][i])) {
        assert DirtyIn(buf, l.Home(bs[i + 1]));
      }
    }
  }

  ghost predicate NoLogUsers(buf: seq<Buf>, l: Layout) {
    forall b :: 0 <= b < |buf| && buf[b].refcnt > 0 ==> !l.InLog(buf[b].name)
  }

  /** A buffer as brelse leaves it. */
  function Released(b: Buf): Buf
    requires b.refcnt > 0
  {
    b.(lock := Unlocked, refcnt := b.refcnt - 1)
  }

  /** Of the buffers of a block that is dirty, or when nothing is in use, none is locked. */
  lemma HomeFree(buf: seq<Buf>, order: seq<nat>, store: Disk, disk: Disk, home: Name, b: nat)
    requires Inv(buf, order, store, disk) && ReadersOf(buf, disk) && b < NBUF && buf[b].name == home
    requires DirtyIn(buf, home) || forall a :: 0 <= a < NBUF ==> buf[a].refcnt == 0
    ensures buf[b].lock.Unlocked? && (buf[b].refcnt > 0 ==> buf[b].dirty && buf[b].valid)
  {
    if buf[b].refcnt > 0 { DirtyHere(buf, order, store, disk, b); }
  }

  /** What a copy of one block over another leaves to the other processes. */
  lemma CopyLeaves(buf: seq<Buf>, order: seq<nat>, store: Disk, disk: Disk, l: Layout, slot: Name, home: Name,
                   buf': seq<Buf>, disk': Disk, dst: Name, b1: nat, b2: nat)
    requires Inv(buf, order, store, disk) && ReadersOf(buf, disk) && NoLogUsers(buf, l) && l.InLog(slot)
             && !l.InLog(home)
    requires DirtyIn(buf, home) || forall a :: 0 <= a < NBUF ==> buf[a].refcnt == 0
    requires |buf'| == NBUF && b1 < NBUF && b2 < NBUF && b1 != b2 && (dst == slot || dst == home)
    requires forall b :: 0 <= b < NBUF && b != b1 && b != b2 ==> buf'[b] == buf[b]
    requires buf[b1].refcnt == 0 && buf'[b1].refcnt == 0 && buf'[b1].lock.Unlocked?
    requires buf[b2].refcnt > 0 ==> buf[b2].name == home
    requires buf'[b2] == Buf(home, true, buf'[b2].dirty, buf[b2].refcnt, Unlocked, buf'[b2].data)
    requires forall n :: n != dst ==> Read(disk', n) == Read(disk, n)
    ensures SameUsers(buf, buf') && ReadersOf(buf', disk') && NoLogUsers(buf', l)
  {
    hide Coherent, OneNamed;
    if buf[b2].refcnt > 0 { HomeFree(buf, order, store, disk, home, b2); }
    forall b | 0 <= b < NBUF && buf'[b].lock.HeldBy?
      ensures !buf'[b].dirty && (buf'[b].valid ==> Read(disk', buf'[b].name) == buf'[b].data)
    {
      assert buf'[b] == buf[b] && buf[b].refcnt > 0;
      if buf[b].name == home { HomeFree(buf, order, store, disk, home, b); }
    }
  }

  /** What rewriting one block of the log leaves to the other processes. */
  lemma HeadLeaves(buf: seq<Buf>, disk: Disk, l: Layout, buf': seq<Buf>, disk': Disk, dst: Name, b: nat)
    requires ReadersOf(buf, disk) && NoLogUsers(buf, l) && l.InLog(dst) && b < |buf| == |buf'|
    requires forall a :: 0 <= a < |buf| && buf[a].lock.HeldBy? ==> buf[a].refcnt > 0
    requires forall a :: 0 <= a < |buf| && a != b ==> buf'[a] == buf[a]
    requires buf[b].refcnt == 0 && buf'[b].refcnt == 0 && buf'[b].lock.Unlocked?
    requires forall n :: n != dst ==> Read(disk', n) == Read(disk, n)
    ensures SameUsers(buf, buf') && ReadersOf(buf', disk') && NoLogUsers(buf', l)
  {
  }

  lemma UsersTwice(a: seq<Buf>, b: seq<Buf>, c: seq<Buf>)
    requires SameUsers(a, b) && SameUsers(b, c)
    ensures SameUsers(a, c)
  {
  }

  lemma UsersSame(buf: seq<Buf>)
    requires forall b :: 0 <= b < |buf| && buf[b].lock.HeldBy? ==> buf[b].refcnt > 0
    ensures SameUsers(buf, buf)
  {
  }

  /** What the listed blocks hold. */
  ghost function Contents(store: Disk, l: Layout, bs: seq<uint>): (cs: seq<Block>)
    ensures |cs| == |bs|
    ensures forall i :: 0 <= i < |bs| ==> cs[i] == Read(store, l.Home(bs[i]))
  {
    if bs == [] then [] else [Read(store, l.Home(bs[0]))] + Contents(store, l, bs[1..])
  }

  /** A block of the transaction holds what it did, as long as only the log has changed. */
  lemma HomeKept(store: Disk, store': Disk, l: Layout, bs: seq<uint>, i: nat)
    requires SameHome(l, store, store') && Loggable(l, bs) && i < |bs|
    ensures Read(store', l.Home(bs[i])) == Contents(store, l, bs)[i]
  {
  }

  lemma HomeTwice(l: Layout, a: Disk, b: Disk, c: Disk)
    ensures SameHome(l, a, a)
    ensures SameHome(l, a, b) && SameHome(l, b, c) ==> SameHome(l, a, c)
  {
  }

  class Log {
    const cache: Cache
    const l: Layout
    var block: seq<uint> // lh.block[..lh.n]
    var outstanding: nat
    var committing: bool
    ghost var ops: seq<set<uint>> // what each operation in progress has logged

    constructor (cache: Cache, l: Layout)
      ensures this.cache == cache && this.l == l
      ensures block == [] && outstanding == 0 && !committing && ops == []
    {
      this.cache, this.l := cache, l;
      block, outstanding, committing := [], 0, false;
      ops := [];
    }

    lemma NotLogged(n: nat)
      requires Pins() && n !in block
      ensures !cache.DirtyBlock(l.Home(n))
    {
    }

    /** A new log over a cache with nothing in it, on a disk whose log is clear. */
    lemma StartValid()
      requires cache.Valid() && cache.Quiet() && NothingDirty() && Clear(cache.disk, l)
      requires block == [] && outstanding == 0 && !committing && ops == []
      ensures Valid()
    {
      cache.QuietReadOnly();
      AllOnDisk();
    }

    ghost predicate Pins()
      reads this, cache
    {
      PinnedBy(cache.buf, l, block)
    }

    ghost function Admission(): R.State
      reads this
    {
      R.State(block, ops, committing)
    }

    ghost predicate Valid()
      reads this, cache
    {
      && cache.Valid() && Pins() && Clear(cache.disk, l)
      && Loggable(l, block) && outstanding == |ops| && R.Inv(Admission())
    }

    /** begin_op, one turn of its loop; false is a process put to sleep. */
    method BeginOp() returns (admitted: bool)
      requires Valid()
      modifies this`outstanding, this`ops
      ensures Valid()
      ensures admitted <==> R.Enabled(old(Admission()), l.size, R.Begin)
      ensures Admission() == if admitted then R.Next(old(Admission()), R.Begin) else old(Admission())
    {
      if committing {
        return false;
      } else if |block| + (outstanding + 1) * MAXOPBLOCKS > LOGSIZE {
        return false;
      }
      R.StepKeeps(Admission(), l.size, R.Begin);
      outstanding := outstanding + 1;
      ops := ops + [{}];
      return true;
    }

    /** log_write's search for the block in the log. */
    method Find(n: uint) returns (i: nat)
      ensures i <= |block| && n !in block[..i]
      ensures i < |block| ==> block[i] == n
    {
      i := 0;
      while i < |block|
        invariant i <= |block|
        invariant n !in block[..i]
      {
        if block[i] == n {
          return;
        }
        i := i + 1;
      }
    }

    /** log_write, called by operation o on a buffer it holds; false is a panic. */
    method LogWrite(ghost o: nat, b: nat, pid: nat) returns (ok: bool)
      requires Valid() && cache.Held(b, pid) && cache.buf[b].valid
      requires cache.buf[b].name.dev == l.dev && !l.InLog(cache.buf[b].name)
      requires cache.buf[b].name.blockno < 0x1_0000_0000
      requires R.InBudget(Admission(), o, cache.buf[b].name.blockno)
      modifies this`block, this`ops, cache`buf
      ensures Valid()
      ensures ok <==> R.Fits(|old(block)|, l.size)
      ensures !ok ==> Admission() == old(Admission()) && cache.buf == old(cache.buf)
      ensures ok ==>
                && Admission() == R.Next(old(Admission()), R.Write(o, old(cache.buf)[b].name.blockno))
                && cache.buf == old(cache.buf)[b := old(cache.buf)[b].(dirty := true)]
    {
      hide Inv, Ring, PinnedBy, Clear, R.Unspent, DirtyIn;
      if |block| >= LOGSIZE || |block| >= l.size - 1 {
        return false;
      }
      assert outstanding >= 1; // the "outside of trans" panic is not reached
      var n: uint := cache.buf[b].name.blockno;
      R.StepKeeps(Admission(), l.size, R.Write(o, n));
      var i := Find(n);
      cache.MarkDirty(b, pid);
      if i == |block| {
        assert block[..i] == block;
        block := block + [n];
      } else {
        block := block[i := n];
        assert block == old(block) && block[i] == n;
      }
      ops := ops[o := ops[o] + {n}];
      MarkPins(old(cache.buf), l, old(block), block, b, n);
      return true;
    }

    /**
     The use log_write is for: bread, change the data, log_write, brelse. False is a panic, of
     bget for want of a buffer or of log_write for want of log space.
     */
    method Put(ghost o: nat, n: uint, data: Block, pid: nat) returns (ok: bool)
      requires Valid() && !l.InLog(l.Home(n)) && cache.Unheld(l.Home(n)) && R.InBudget(Admission(), o, n)
      modifies this`block, this`ops, cache
      ensures ok <==> old(cache.Cached(l.Home(n)) || cache.Room()) && R.Fits(|old(block)|, l.size)
      ensures cache.disk == old(cache.disk) && cache.trace == old(cache.trace)
      ensures !ok ==> block == old(block) && (R.Fits(|block|, l.size) ==> cache.buf == old(cache.buf))
      ensures ok ==> Valid() && Admission() == R.Next(old(Admission()), R.Write(o, n))
      ensures ok ==>
                && cache.store == old(cache.store)[l.Home(n) := data]
                && (forall b :: 0 <= b < NBUF ==>
                      && cache.buf[b].refcnt == old(cache.buf)[b].refcnt && cache.buf[b].lock == old(cache.buf)[b].lock
                      && (cache.buf[b].refcnt > 0 ==> cache.buf[b].name == old(cache.buf)[b].name)
                      && (cache.buf[b].dirty || cache.buf[b] == old(cache.buf)[b]))
    {
      hide Ring, Nodes, OneNamed, Coherent, PinnedBy, DirtyIn, Clear, Loggable, R.Unspent, R.InBudget, R.Inv, R.Next;
      var r := cache.Bread(l.Home(n), pid);
      if r.None? { return false; }
      SamePins(old(cache.buf), cache.buf, l, block);
      ghost var buf := cache.buf;
      cache.Update(r.value, pid, data);
      SamePins(buf, cache.buf, l, block);
      ok := LogWrite(o, r.value, pid);
      if !ok { return; }
      buf := cache.buf;
      cache.Brelse(r.value, pid);
      SamePins(buf, cache.buf, l, block);
    }

    /** end_op's critical section; true tells the caller to commit. */
    method EndOp(ghost o: nat) returns (doCommit: bool)
      requires Valid() && o < |ops|
      modifies this`outstanding, this`committing, this`ops
      ensures Valid()
      ensures Admission() == R.Next(old(Admission()), R.End(o))
      ensures doCommit == committing
    {
      hide Inv, Ring, PinnedBy, Clear, R.Unspent, Loggable;
      assert !committing; // the "log.committing" panic is not reached
      R.StepKeeps(Admission(), l.size, R.End(o));
      outstanding := outstanding - 1;
      ops := ops[..o] + ops[o + 1..];
      doCommit := outstanding == 0;
      if doCommit {
        committing := true;
      }
    }

    /** The end of end_op, after commit. */
    method EndCommit()
      requires Valid() && committing && block == []
      modifies this`committing
      ensures Valid() && !committing
    {
      committing := false;
    }

    /** Other processes use no block of the log, and only read what they have locked. */
    ghost predicate Apart()
      reads this, cache
    {
      cache.ReadOnly() && NoLogUsers(cache.buf, l)
    }

    ghost predicate NothingDirty()
      reads cache
    {
      forall b :: 0 <= b < |cache.buf| ==> !cache.buf[b].dirty
    }

    /** Block n can be read once one buffer has been taken: it is dirty, or nothing is in use. */
    ghost predicate Ready(n: Name)
      reads this, cache
    {
      Apart() && (cache.DirtyBlock(n) || (cache.Quiet() && NothingDirty()))
    }

    /** The two breads of one turn of write_log or install_trans; None is the "no buffers" panic. */
    method ReadTwo(slot: Name, home: Name, pid: nat) returns (r1: Option<nat>, r2: Option<nat>)
      requires cache.Valid() && Ready(home) && l.InLog(slot) && !l.InLog(home) && !cache.DirtyBlock(slot)
      modifies cache`buf
      ensures cache.Valid()
      ensures r1.Some? && r2.Some? <==> old(cache.Room())
      ensures r1.Some? && r2.Some? ==>
                var b1, b2 := r1.value, r2.value;
                && cache.Held(b1, pid) && cache.Held(b2, pid) && b1 != b2
                && old(cache.buf)[b1].refcnt == 0 && (old(cache.buf)[b2].refcnt > 0 ==> old(cache.buf)[b2].name == home)
                && cache.buf[b1] == Buf(slot, true, false, 1, HeldBy(pid), Read(cache.store, slot))
                && cache.buf[b2] == Buf(home, true, old(cache.DirtyBlock(home)), old(cache.buf)[b2].refcnt + 1,
                                        HeldBy(pid),
                                        Read(cache.store, home))
                && (forall b :: 0 <= b < NBUF && b != b1 && b != b2 ==> cache.buf[b] == old(cache.buf)[b])
      ensures r1.Some? && r2.Some? ==> forall n :: DirtyIn(cache.buf, n) <==> DirtyIn(old(cache.buf), n)
    {
      hide Ring, Coherent, OneNamed, Nodes;
      r2 := None;
      SlotUnheld(slot);
      HomeUnheld(home);
      r1 := cache.Bread(slot, pid);
      if r1.Some? {
        assert cache.DirtyBlock(home) ==> cache.Cached(home);
        ghost var other := if r1.value == 0 then 1 else 0;
        assert cache.buf[other] == old(cache.buf)[other];
        r2 := cache.Bread(home, pid);
      }
    }

    /** No other process has a block of the log, so its buffer is free if it has one. */
    lemma SlotUnheld(slot: Name)
      requires cache.Valid() && Apart() && l.InLog(slot) && !cache.DirtyBlock(slot)
      ensures cache.Unheld(slot) && (cache.Cached(slot) ==> cache.Room())
      ensures forall b :: 0 <= b < NBUF && cache.buf[b].name == slot ==> cache.buf[b].Recyclable()
    {
      forall b | 0 <= b < NBUF && cache.buf[b].name == slot
        ensures cache.buf[b].Recyclable() && cache.buf[b].lock.Unlocked?
      {
        assert !DirtyIn(cache.buf, cache.buf[b].name);
      }
    }

    lemma HomeUnheld(home: Name)
      requires cache.Valid() && Ready(home)
      ensures cache.Unheld(home)
    {
      if cache.DirtyBlock(home) { cache.DirtyUnheld(home); } else { cache.QuietReadOnly(); }
    }

    /** Copy one held buffer over another, write it, and release both. */
    method CopyHeld(src: nat, dst: nat, pid: nat)
      requires cache.Valid() && cache.Held(src, pid) && cache.Held(dst, pid) && src != dst
      requires cache.buf[src].valid && cache.buf[dst].valid && cache.buf[src].name != cache.buf[dst].name
      requires cache.buf[src].dirty || Read(cache.disk, cache.buf[src].name) == cache.buf[src].data
      modifies cache
      ensures cache.Valid()
      ensures var data, d := old(cache.buf)[src].data, old(cache.buf)[dst].name;
              && cache.buf[src] == Released(old(cache.buf)[src])
                && cache.buf[dst] == Released(old(cache.buf)[dst]).(data := data, dirty := false)
              && (forall b :: 0 <= b < NBUF && b != src && b != dst ==> cache.buf[b] == old(cache.buf)[b])
              && cache.store == old(cache.store)[d := data]
              && cache.disk == old(cache.disk)[d := data]
              && cache.trace == Wrote(old(cache.trace), cache.disk)
              && (forall n :: DirtyIn(cache.buf, n) <==> DirtyIn(old(cache.buf), n) && n != d)
    {
      hide Nodes, Forward, Backward, Coherent;
      var data := cache.buf[src].data;
      cache.Update(dst, pid, data);
      cache.Bwrite(dst, pid);
      cache.Brelse(src, pid);
      cache.Brelse(dst, pid);
    }

    /** Block src was copied over dst and dst written, with nothing else changed. */
    ghost predicate Copied(store: Disk, disk: Disk, trace: History, buf: seq<Buf>, src: Name, dst: Name)
      reads this, cache
    {
      && Apart() && cache.Room() && SameUsers(buf, cache.buf)
      && cache.store == store[dst := Read(store, src)]
      && cache.disk == disk[dst := Read(store, src)]
      && cache.trace == Wrote(trace, cache.disk)
      && (forall n :: DirtyIn(cache.buf, n) <==> DirtyIn(buf, n) && n != dst)
    }

    /**
     One turn of the loops of write_log (toSlot) and install_trans (!toSlot): read two
     blocks, copy one over the other and write it. False is bget's "no buffers" panic.
     */
    method Copy(slot: Name, home: Name, toSlot: bool, pid: nat) returns (ok: bool)
      requires cache.Valid() && Ready(home) && l.InLog(slot) && !l.InLog(home) && !cache.DirtyBlock(slot)
      modifies cache
      ensures cache.Valid()
      ensures ok <==> old(cache.Room())
      ensures !ok ==> cache.disk == old(cache.disk) && cache.trace == old(cache.trace)
      ensures ok ==> Copied(old(cache.store), old(cache.disk), old(cache.trace), old(cache.buf),
                            if toSlot then home else slot, if toSlot then slot else home)
    {
      hide Ring, Coherent, OneNamed, Nodes, DirtyIn, ReadersOf, NoLogUsers, SameUsers;
      ghost var src, dst := if toSlot then home else slot, if toSlot then slot else home;
      if !cache.DirtyBlock(src) { cache.CleanReads(src); }
      ghost var buf, order, disk := cache.buf, cache.order, cache.disk;
      var r1, r2 := ReadTwo(slot, home, pid);
      if r1.None? || r2.None? { return false; }
      if toSlot {
        CopyHeld(r2.value, r1.value, pid);
      } else {
        CopyHeld(r1.value, r2.value, pid);
      }
      CopyLeaves(buf, order, old(cache.store), disk, l, slot, home, cache.buf, cache.disk, dst, r1.value, r2.value);
      assert cache.buf[r1.value].Recyclable();
      return true;
    }

    /** write_head's loop: the header block with the list filled in. */
    method FillHead(b: Block, bs: seq<uint>) returns (hb: Block)
      requires |bs| <= LOGSIZE
      ensures hb == EncodeHead(b, bs)
    {
      hb := SetWord(b, 0, |bs|);
      var i := 0;
      while i < |bs|
        invariant 0 <= i <= |bs|
        invariant hb == PutWords(SetWord(b, 0, |bs|), bs, i)
      {
        hb := SetWord(hb, i + 1, bs[i]);
        i := i + 1;
      }
    }

    /** write_head: one block write that makes the header list bs. */
    method WriteHead(bs: seq<uint>, pid: nat) returns (ok: bool)
      requires cache.Valid() && Apart() && |bs| <= LOGSIZE && 0 < l.size && !cache.DirtyBlock(l.Header())
      modifies cache
      ensures cache.Valid()
      ensures ok <==> old(cache.Room())
      ensures !ok ==> cache.disk == old(cache.disk) && cache.trace == old(cache.trace)
      ensures ok ==>
                && Apart() && cache.Room() && SameUsers(old(cache.buf), cache.buf)
                && cache.store == Headed(old(cache.store), l, bs)
                && cache.disk == Headed(old(cache.disk), l, bs)
                && cache.trace == Wrote(old(cache.trace), cache.disk)
                && (forall n :: DirtyIn(cache.buf, n) <==> DirtyIn(old(cache.buf), n))
    {
      hide Ring, Coherent, OneNamed, ReadersOf, NoLogUsers, SameUsers, DirtyIn, EncodeHead;
      ghost var buf, disk := cache.buf, cache.disk;
      cache.CleanReads(l.Header());
      SlotUnheld(l.Header());
      var r := cache.Bread(l.Header(), pid);
      if r.None? { return false; }
      var hb := FillHead(cache.buf[r.value].data, bs);
      cache.WriteOut(r.value, pid, hb);
      HeadLeaves(buf, disk, l, cache.buf, cache.disk, l.Header(), r.value);
      assert cache.buf[r.value].Recyclable();
      return true;
    }

    lemma HeaderClean()
      requires Pins() && Loggable(l, block)
      ensures !cache.DirtyBlock(l.Header())
    {
      assert l.InLog(l.Header());
    }

    /** One turn of write_log. */
    method LogBlock(tail: nat, pid: nat) returns (ok: bool)
      requires cache.Valid() && Apart() && Pins() && Loggable(l, block) && tail < |block|
      modifies cache
      ensures cache.Valid()
      ensures ok <==> old(cache.Room())
      ensures !ok ==> cache.disk == old(cache.disk) && cache.trace == old(cache.trace)
      ensures ok ==>
                && Apart() && cache.Room() && Pins() && SameUsers(old(cache.buf), cache.buf)
                && SameHome(l, old(cache.store), cache.store)
                && cache.disk == old(cache.disk)[l.Slot(tail) := Read(old(cache.store), l.Home(block[tail]))]
                && cache.trace == Wrote(old(cache.trace), cache.disk)
    {
      hide Inv, Ring, ReadersOf, NoLogUsers, SameUsers, DirtyIn;
      var slot, home := l.Slot(tail), l.Home(block[tail]);
      assert l.InLog(slot) && cache.DirtyBlock(home) && !l.InLog(home);
      ok := Copy(slot, home, true, pid);
      if ok { KeepPins(old(cache.buf), cache.buf, l, block, slot); }
    }

    /** write_log: copy each block of the transaction from the cache into the log. */
    method WriteLog(pid: nat) returns (ok: bool, ghost k: nat)
      requires cache.Valid() && Apart() && Pins() && Loggable(l, block)
      modifies cache
      ensures cache.Valid()
      ensures ok <==> block == [] || old(cache.Room())
      ensures k <= |block| && (ok ==> k == |block|)
      ensures var d, cs := old(cache.disk), Contents(old(cache.store), l, block);
              && cache.disk == Logged(d, l, cs, k)
              && cache.trace == LogTrace(old(cache.trace), d, l, cs, k)
      ensures ok ==>
                Apart() && Pins() && SameUsers(old(cache.buf), cache.buf)
                && SameHome(l, old(cache.store), cache.store)
      ensures ok && block != [] ==> cache.Room()
    {
      hide Inv, Ring, PinnedBy, SameHome, Loggable, Contents, Cache.Room, ReadersOf, NoLogUsers, SameUsers;
      ghost var d, cs, store, buf := cache.disk, Contents(cache.store, l, block), cache.store, cache.buf;
      var tail := 0;
      HomeTwice(l, store, store, store);
      UsersStart();
      while tail < |block|
        invariant 0 <= tail <= |block|
        invariant cache.Valid() && Apart() && Pins() && SameUsers(buf, cache.buf)
        invariant cache.Room() == old(cache.Room()) && (tail > 0 ==> cache.Room())
        invariant SameHome(l, old(cache.store), cache.store)
        invariant cache.disk == Logged(d, l, cs, tail)
        invariant cache.trace == LogTrace(old(cache.trace), d, l, cs, tail)
      {
        ghost var before, users := cache.store, cache.buf;
        HomeKept(store, before, l, block, tail);
        ok := LogBlock(tail, pid);
        if !ok { return false, tail; }
        HomeTwice(l, store, before, cache.store);
        UsersTwice(buf, users, cache.buf);
        tail := tail + 1;
      }
      return true, tail;
    }

    lemma UsersStart()
      requires cache.Valid()
      ensures SameUsers(cache.buf, cache.buf)
    {
      UsersSame(cache.buf);
    }

    /** What install_trans finds: the blocks from `tail` on pinned, or, in recovery, an unused cache. */
    ghost predicate ToInstall(tail: nat)
      requires tail <= |block|
      reads this, cache
    {
      Apart() && (PinnedBy(cache.buf, l, block[tail..]) || (cache.Quiet() && NothingDirty()))
    }

    /** One turn of install_trans. */
    method InstallBlock(tail: nat, pid: nat) returns (ok: bool)
      requires cache.Valid() && Loggable(l, block) && tail < |block| && ToInstall(tail)
      modifies cache
      ensures cache.Valid()
      ensures ok <==> old(cache.Room())
      ensures !ok ==> cache.disk == old(cache.disk) && cache.trace == old(cache.trace)
      ensures ok ==>
                && cache.Room() && ToInstall(tail + 1) && SameUsers(old(cache.buf), cache.buf)
                && cache.disk == old(cache.disk)[l.Home(block[tail]) := Read(old(cache.disk), l.Slot(tail))]
                && cache.trace == Wrote(old(cache.trace), cache.disk)
    {
      hide Inv, Ring, ReadersOf, NoLogUsers;
      var slot, home := l.Slot(tail), l.Home(block[tail]);
      var left := block[tail..];
      assert l.InLog(slot) && left[0] == block[tail] && !l.InLog(home);
      assert !cache.DirtyBlock(slot);
      cache.CleanReads(slot);
      ok := Copy(slot, home, false, pid);
      if ok {
        UnpinFirst(old(cache.buf), cache.buf, l, left);
        assert left[1..] == block[tail + 1..];
      }
    }

    lemma NonePinned()
      ensures PinnedBy(cache.buf, l, []) ==> NothingDirty()
    {
      if PinnedBy(cache.buf, l, []) {
        forall b | 0 <= b < |cache.buf| ensures !cache.buf[b].dirty {
          assert cache.buf[b].dirty ==> DirtyIn(cache.buf, cache.buf[b].name);
        }
      }
    }

    /** install_trans: copy each logged block to its home. */
    method InstallTrans(pid: nat) returns (ok: bool, ghost k: nat)
      requires cache.Valid() && Loggable(l, block) && ToInstall(0)
      modifies cache
      ensures cache.Valid()
      ensures ok <==> block == [] || old(cache.Room())
      ensures k <= |block| && (ok ==> k == |block|)
      ensures cache.disk == Installed(old(cache.disk), l, block, k)
      ensures cache.trace == InstallTrace(old(cache.trace), old(cache.disk), l, block, k)
      ensures ok ==> Apart() && NothingDirty() && SameUsers(old(cache.buf), cache.buf)
      ensures ok ==> cache.Room() == old(cache.Room())
    {
      hide Inv, Ring, Cache.Quiet, Cache.Room, Word, SetWord, PutWords, Headed, NothingDirty, PinnedBy, ReadersOf,
           NoLogUsers, SameUsers;
      ghost var d, buf := cache.disk, cache.buf;
      var tail := 0;
      UsersStart();
      while tail < |block|
        invariant 0 <= tail <= |block|
        invariant cache.Valid() && ToInstall(tail) && SameUsers(buf, cache.buf)
        invariant cache.Room() == old(cache.Room()) && (tail > 0 ==> cache.Room())
        invariant cache.disk == Installed(d, l, block, tail)
        invariant cache.trace == InstallTrace(old(cache.trace), d, l, block, tail)
      {
        ghost var users := cache.buf;
        ok := InstallBlock(tail, pid);
        if !ok { return false, tail; }
        UsersTwice(buf, users, cache.buf);
        tail := tail + 1;
      }
      assert block[tail..] == [];
      NonePinned();
      return true, tail;
    }

    lemma AllOnDisk()
      requires cache.Valid() && cache.ReadOnly() && NothingDirty()
      ensures forall n :: Read(cache.store, n) == Read(cache.disk, n)
      ensures PinnedBy(cache.buf, l, [])
    {
      forall n ensures Read(cache.store, n) == Read(cache.disk, n) { cache.CleanReads(n); }
    }

    /** Applying the transaction to the disk gives what every home block was left holding. */
    lemma AppliedIsStore()
      requires cache.Valid() && cache.ReadOnly() && Pins() && Loggable(l, block)
      ensures SameHome(l, Applied(cache.disk, l, block, Contents(cache.store, l, block)), cache.store)
    {
      var cs := Contents(cache.store, l, block);
      AppliedReads(cache.disk, l, block, cs);
      forall n | !l.InLog(n) ensures Read(Applied(cache.disk, l, block, cs), n) == Read(cache.store, n) {
        if i :| 0 <= i < |block| && n == l.Home(block[i]) {
        } else {
          cache.CleanReads(n);
        }
      }
    }

    /** commit has a buffer to spare exactly when the logged blocks and the clean buffers in use leave one. */
    lemma RoomToCommit()
      requires cache.Valid() && Pins() && Loggable(l, block)
      ensures cache.Room() <==> |block| + |InUse(cache.buf)| < NBUF
    {
      RoomCount(cache.buf, cache.order, cache.store, cache.disk, l, block);
    }

    /** With no buffer in use and a log no larger than the cache, as mkfs makes it, there always is one. */
    lemma RoomAlone()
      requires cache.Valid() && cache.Quiet() && Pins() && Loggable(l, block) && l.size <= NBUF
      ensures |block| + |InUse(cache.buf)| < NBUF && cache.Room()
    {
      assert InUse(cache.buf) == {};
      RoomToCommit();
    }

    /** commit up to and including the header write that commits the transaction. */
    method LogAndHead(pid: nat) returns (ok: bool, ghost k: nat)
      requires cache.Valid() && Apart() && Pins() && Loggable(l, block) && block != []
      modifies cache
      ensures cache.Valid()
      ensures ok <==> old(cache.Room())
      ensures var d, cs := old(cache.disk), Contents(old(cache.store), l, block);
              && k <= |block| + 1 && (ok ==> k == |block| + 1)
              && cache.disk == CommitState(d, l, block, cs, k)
              && cache.trace == CommitTrace(old(cache.trace), d, l, block, cs, k)
      ensures ok ==> Apart() && Pins() && cache.Room() && SameUsers(old(cache.buf), cache.buf)
    {
      hide Inv, Ring, DecodeHead, EncodeHead, Cache.Room, PinnedBy, SameHome, Headed, LogTrace, ReadersOf, NoLogUsers,
           SameUsers;
      ghost var d, cs := cache.disk, Contents(cache.store, l, block);
      ok, k := WriteLog(pid);
      CommitTraceLogs(old(cache.trace), d, l, block, cs, k);
      if !ok { return; }
      ghost var was := cache.buf;
      HeaderClean();
      ok := WriteHead(block, pid);
      if !ok { return; }
      SamePins(was, cache.buf, l, block);
      UsersTwice(old(cache.buf), was, cache.buf);
      k := k + 1;
    }

    /** commit after its header write; also the whole of recovery. */
    method InstallAndClear(pid: nat) returns (ok: bool, ghost k: nat)
      requires cache.Valid() && Loggable(l, block) && ToInstall(0)
      modifies this`block, cache
      ensures cache.Valid()
      ensures ok <==> old(cache.Room())
      ensures var d, bs := old(cache.disk), old(block);
              && k <= |bs| + 1 && (ok ==> k == |bs| + 1)
              && cache.disk == InstallState(d, l, bs, k)
              && cache.trace == InstallTrace(old(cache.trace), d, l, bs, k)
      ensures ok ==> block == [] && Apart() && NothingDirty() && SameUsers(old(cache.buf), cache.buf)
    {
      hide Inv, Ring, Installed, DecodeHead, EncodeHead, Cache.Quiet, Cache.Room, ReadersOf, NoLogUsers, SameUsers;
      ok, k := InstallTrans(pid);
      if !ok { return; }
      block := [];
      ghost var was := cache.buf;
      ok := WriteHead(block, pid);
      if !ok { return; }
      SamePins(was, cache.buf, l, block);
      UsersTwice(old(cache.buf), was, cache.buf);
      k := k + 1;
    }

    /** The steps of commit on a transaction that is not empty. */
    method CommitWrites(pid: nat) returns (ok: bool, ghost k: nat)
      requires cache.Valid() && Apart() && Pins() && Loggable(l, block) && block != []
      modifies this`block, cache
      ensures cache.Valid()
      ensures ok <==> old(cache.Room())
      ensures var d, bs, cs := old(cache.disk), old(block), Contents(old(cache.store), l, old(block));
              && k <= 2 * |bs| + 2 && (ok ==> k == 2 * |bs| + 2)
              && cache.disk == CommitState(d, l, bs, cs, k)
              && cache.trace == CommitTrace(old(cache.trace), d, l, bs, cs, k)
      ensures ok ==> block == [] && Apart() && NothingDirty() && SameUsers(old(cache.buf), cache.buf)
    {
      hide Inv, Ring, Cache.Quiet, Cache.Room, PinnedBy, CommitState, InstallState, CommitTrace, InstallTrace,
           ReadersOf, NoLogUsers, SameUsers;
      ghost var d, bs, cs := cache.disk, block, Contents(cache.store, l, block);
      ok, k := LogAndHead(pid);
      if !ok { return; }
      ghost var was := cache.buf;
      assert block[0..] == block;
      ok, k := InstallAndClear(pid);
      CommitTraceInstalls(old(cache.trace), d, l, bs, cs, k);
      CommitStateInstalls(d, l, bs, cs, k);
      k := |bs| + 1 + k;
      if ok { UsersTwice(old(cache.buf), was, cache.buf); }
    }

    /** What commit has done, k block writes of it, and what it leaves if it got to the end. */
    ghost predicate CommitResult(store: Disk, disk: Disk, trace: History, buf: seq<Buf>, bs: seq<uint>, ok: bool,
                                 k: nat)
      requires |bs| <= LOGSIZE
      reads this, cache
    {
      var cs := Contents(store, l, bs);
      && k <= 2 * |bs| + 2
      && cache.disk == CommitState(disk, l, bs, cs, k)
      && cache.trace == CommitTrace(trace, disk, l, bs, cs, k)
      && (ok ==>
           && k == (if bs == [] then 0 else 2 * |bs| + 2)
           && Valid() && block == [] && Apart() && SameUsers(buf, cache.buf)
           && SameHome(l, cache.disk, store) && SameHome(l, cache.store, store))
    }

    lemma CommitFinished(store: Disk, disk: Disk, bs: seq<uint>)
      requires Clear(disk, l) && Loggable(l, bs)
      requires SameHome(l, Applied(disk, l, bs, Contents(store, l, bs)), store)
      requires cache.Valid() && cache.ReadOnly() && NothingDirty() && block == [] && ops == [] && outstanding == 0
      requires cache.disk == CommitState(disk, l, bs, Contents(store, l, bs), 2 * |bs| + 2)
      ensures Valid() && SameHome(l, cache.disk, store) && SameHome(l, cache.store, store)
    {
      hide Inv, Ring, CommitState, Applied;
      CommitDone(disk, l, bs, Contents(store, l, bs));
      AllOnDisk();
    }

    lemma NothingToCommit()
      requires Valid() && Apart() && block == []
      ensures CommitResult(cache.store, cache.disk, cache.trace, cache.buf, block, true, 0)
    {
      UsersStart();
      forall n ensures Read(cache.store, n) == Read(cache.disk, n) { cache.CleanReads(n); }
    }

    /** Recovery after a commit cut off here gives all of the transaction or none of it. */
    ghost predicate AllOrNothing(store: Disk, disk: Disk, bs: seq<uint>, k: nat)
      reads this, cache
    {
      && HasHead(cache.disk, l)
      && SameHome(l, Recovered(cache.disk, l), if Committed(bs, k) then store else disk)
    }

    lemma CutOff(store: Disk, disk: Disk, bs: seq<uint>, k: nat)
      requires Clear(disk, l) && Loggable(l, bs) && k <= 2 * |bs| + 2
      requires SameHome(l, Applied(disk, l, bs, Contents(store, l, bs)), store)
      requires cache.disk == CommitState(disk, l, bs, Contents(store, l, bs), k)
      ensures AllOrNothing(store, disk, bs, k)
    {
      hide CommitState, Applied, Recovered, SameHome;
      CommitCrash(disk, l, bs, Contents(store, l, bs), k);
      if Committed(bs, k) {
        HomeTwice(l, Recovered(cache.disk, l), Applied(disk, l, bs, Contents(store, l, bs)), store);
      }
    }

    /**
     commit: the block writes done are exactly the first k of the commit of this
     transaction, all of them unless the cache ran out of buffers, which depends on how many
     blocks are logged and how many clean buffers others are using. Whatever was done,
     recovery would give what every home block was left holding if the header write was among
     it, and the disk of before otherwise. When commit got to the end, the disk holds what
     every home block was left holding, the log is empty, and others have what they had.
     */
    method Commit(pid: nat) returns (ok: bool, ghost k: nat)
      requires Valid() && committing && Apart()
      modifies this`block, cache
      ensures ok <==> old(block) == [] || |old(block)| + |InUse(old(cache.buf))| < NBUF
      ensures CommitResult(old(cache.store), old(cache.disk), old(cache.trace), old(cache.buf), old(block), ok, k)
      ensures AllOrNothing(old(cache.store), old(cache.disk), old(block), k)
    {
      hide Inv, Ring, CommitState, CommitTrace, Applied, PinnedBy, SameHome, Clear, Cache.Quiet, Cache.Room,
           ReadersOf, NoLogUsers, SameUsers, InUse, AllOrNothing;
      ghost var store, disk, bs := cache.store, cache.disk, block;
      AppliedIsStore();
      RoomToCommit();
      ok, k := true, 0;
      if |block| > 0 {
        ok, k := CommitWrites(pid);
        if ok { CommitFinished(store, disk, bs); }
      } else {
        NothingToCommit();
      }
      CutOff(store, disk, bs, k);
    }

    /** read_head's loop. */
    method ParseHead(hb: Block) returns (bs: seq<uint>)
      requires Word(hb, 0) < NWORDS
      ensures bs == DecodeHead(hb)
    {
      bs := [];
      var i := 0;
      while i < Word(hb, 0)
        invariant 0 <= i <= Word(hb, 0)
        invariant bs == TakeWords(hb, i)
      {
        bs := bs + [Word(hb, i + 1)];
        i := i + 1;
      }
    }

    /** read_head: the list in the on-disk header becomes the one in memory. */
    method ReadHead(pid: nat) returns (ok: bool)
      requires cache.Valid() && cache.Quiet() && NothingDirty() && HasHead(cache.disk, l)
      modifies this`block, cache
      ensures cache.Valid() && cache.disk == old(cache.disk) && cache.trace == old(cache.trace)
      ensures ok && cache.Quiet() && NothingDirty() && cache.Room()
      ensures block == Head(cache.disk, l)
    {
      assert cache.buf[0].Recyclable();
      cache.QuietReadOnly();
      cache.CleanReads(l.Header());
      var r := cache.Bread(l.Header(), pid);
      block := ParseHead(cache.buf[r.value].data);
      cache.Brelse(r.value, pid);
      assert cache.buf[r.value].Recyclable();
      return true;
    }

    /**
     recover_from_log, on a cache in which nothing is dirty or in use, as after a crash:
     the writes done are exactly those of recovery, and it does not run out of buffers.
     */
    method Recover(pid: nat) returns (ok: bool)
      requires cache.Valid() && cache.Quiet() && NothingDirty() && HasHead(cache.disk, l)
      requires ops == [] && outstanding == 0 && !committing
      modifies this`block, cache
      ensures ok && Valid() && block == [] && cache.Quiet()
      ensures cache.disk == Recovered(old(cache.disk), l)
      ensures var bs := Head(old(cache.disk), l);
              cache.trace == InstallTrace(old(cache.trace), old(cache.disk), l, bs, |bs| + 1)
    {
      hide Inv, Ring, Recovered, InstallTrace, InstallState, Loggable, HasHead, PinnedBy, ReadersOf, NoLogUsers,
           SameUsers, NothingDirty, Cache.Room;
      ghost var k, d := 0, cache.disk;
      ok := ReadHead(pid);
      RecoveryReady();
      RecoveredClear(cache.disk, l);
      ghost var buf := cache.buf;
      assert forall b :: 0 <= b < |buf| ==> buf[b].refcnt == 0;
      ok, k := InstallAndClear(pid);
      RecoveryDone(d, buf);
    }

    lemma RecoveryReady()
      requires cache.Valid() && cache.Quiet() && NothingDirty() && HasHead(cache.disk, l)
               && block == Head(cache.disk, l)
      ensures Loggable(l, block) && ToInstall(0)
      ensures Recovered(cache.disk, l) == InstallState(cache.disk, l, block, |block| + 1)
    {
      cache.QuietReadOnly();
    }

    lemma RecoveryDone(d: Disk, buf: seq<Buf>)
      requires cache.Valid() && NothingDirty() && HasHead(d, l) && cache.disk == Recovered(d, l) && Clear(cache.disk, l)
      requires block == [] && ops == [] && outstanding == 0 && !committing
      requires SameUsers(buf, cache.buf) && forall b :: 0 <= b < |buf| ==> buf[b].refcnt == 0
      ensures Valid() && cache.Quiet()
    {
      hide Recovered, HasHead;
      cache.QuietReadOnly();
      AllOnDisk();
    }
  }

  // ---- A commit that panics ------------------------------------------------------------

  /** Three operations in progress in the log that mkfs lays out have logged blocks 100 to 99 + j. */
  ghost predicate Filling(g: Log, j: nat)
    reads g, g.cache
  {
    && g.Valid() && g.cache.Quiet() && !g.committing && g.l == Layout(1, 2, LOGSIZE)
    && |g.block| == j && (forall x :: x in g.block ==> 100 <= x < 100 + j)
    && |g.ops| == 3 && |g.ops[0]| <= Share(0, j) && |g.ops[1]| <= Share(1, j) && |g.ops[2]| <= Share(2, j)
  }

  /** How many of the first j blocks are operation o's. */
  function Share(o: nat, j: nat): nat {
    if j < 10 * o then 0 else if j < 10 * o + 10 then j - 10 * o else 10
  }

  method EmptyLog() returns (g: Log)
    ensures fresh(g) && fresh(g.cache) && g.Valid() && g.cache.Quiet() && g.l == Layout(1, 2, LOGSIZE)
    ensures g.block == [] && g.ops == [] && !g.committing
  {
    hide Ring, Nodes, OneNamed, Coherent;
    var cache := new Cache(map[]);
    g := new Log(cache, Layout(1, 2, LOGSIZE));
    ZeroWord(0);
    g.StartValid();
  }

  method StartLog() returns (g: Log)
    ensures fresh(g) && fresh(g.cache) && Filling(g, 0)
  {
    hide Inv, Ring, Clear, PinnedBy, Loggable, R.Inv;
    g := EmptyLog();
    var ok := g.BeginOp();
    ok := g.BeginOp();
    ok := g.BeginOp();
  }

  /** The next block of the next operation. */
  lemma NextShare(g: Log, j: nat)
    requires Filling(g, j) && j < NBUF - 1
    ensures R.InBudget(g.Admission(), j / 10, 100 + j) && R.Fits(j, g.l.size) && (100 + j) as uint !in g.block
    ensures var s := R.Next(g.Admission(), R.Write(j / 10, 100 + j));
            && |s.block| == j + 1 && |s.ops| == 3 && !s.committing && (forall x :: x in s.block ==> 100 <= x < 101 + j)
            && |s.ops[0]| <= Share(0, j + 1) && |s.ops[1]| <= Share(1, j + 1) && |s.ops[2]| <= Share(2, j + 1)
  {
    hide Inv, Ring, Clear, PinnedBy, Loggable, R.Inv;
    var o, n: uint := j / 10, 100 + j;
    assert |g.ops[o] + {n}| <= |g.ops[o]| + 1;
  }

  method FillOne(g: Log, j: nat)
    requires Filling(g, j) && j < NBUF - 1
    modifies g, g.cache
    ensures Filling(g, j + 1)
  {
    hide Inv, Ring, Clear, PinnedBy, Loggable, R.Inv, R.Next, R.InBudget;
    NextShare(g, j);
    g.RoomAlone();
    g.cache.QuietReadOnly();
    SameSize(g.cache);
    ghost var s := R.Next(g.Admission(), R.Write(j / 10, 100 + j));
    var ok := g.Put(j / 10, 100 + j, ZERO_BLOCK, 0);
    assert ok;
    SameSize(g.cache);
    assert g.block == s.block && g.ops == s.ops && g.committing == s.committing;
    assert g.cache.Quiet();
  }

  lemma SameSize(c: Cache)
    requires c.Valid()
    ensures |c.buf| == NBUF
  {
  }

  /** They log NBUF - 1 blocks, one less than the log holds, and end. */
  method FillLog() returns (g: Log)
    ensures fresh(g) && fresh(g.cache) && g.Valid() && g.cache.Quiet() && g.committing
    ensures g.l == Layout(1, 2, LOGSIZE) && |g.block| == NBUF - 1 && 200 !in g.block
  {
    hide Filling;
    g := StartLog();
    var j := 0;
    while j < NBUF - 1
      invariant 0 <= j <= NBUF - 1 && Filling(g, j) && fresh(g) && fresh(g.cache)
    {
      FillOne(g, j);
      j := j + 1;
    }
    EndAll(g);
  }

  method EndAll(g: Log)
    requires Filling(g, NBUF - 1)
    modifies g`outstanding, g`committing, g`ops
    ensures g.Valid() && g.cache.Quiet() && g.committing
    ensures g.l == Layout(1, 2, LOGSIZE) && |g.block| == NBUF - 1 && 200 !in g.block
  {
    hide Inv, Ring, Clear, PinnedBy, Loggable, R.Inv;
    var ok := g.EndOp(0);
    ok := g.EndOp(0);
    ok := g.EndOp(0);
  }

  /** A process starts to read block n, which is not logged. */
  method StartReading(g: Log, n: nat, pid: nat)
    requires g.Valid() && g.cache.Quiet() && g.cache.Room() && !g.l.InLog(g.l.Home(n)) && n !in g.block
    modifies g.cache
    ensures g.Valid() && g.Apart() && |InUse(g.cache.buf)| == 1
  {
    hide Ring, Nodes, OneNamed, Coherent, PinnedBy, Clear, Loggable, R.Inv;
    var home := g.l.Home(n);
    ghost var buf := g.cache.buf;
    g.NotLogged(n);
    g.cache.QuietReadOnly();
    g.cache.CleanReads(home);
    var r := g.cache.Bread(home, pid);
    SamePins(buf, g.cache.buf, g.l, g.block);
    assert InUse(g.cache.buf) == {r.value};
  }

  /**
   commit can panic with fewer than NBUF blocks logged: a process that only reads, and so is in
   no operation, has the last buffer.
   */
  method ReaderStopsCommit() returns (ok: bool, ghost logged: nat, ghost users: nat, ghost size: nat)
    ensures !ok && logged == NBUF - 1 && users == 1 && size == LOGSIZE
  {
    hide Inv, Ring, PinnedBy, Clear, Loggable, R.Inv, InUse;
    var g := FillLog();
    g.RoomAlone();
    StartReading(g, 200, 1);
    logged, users, size := |g.block|, |InUse(g.cache.buf)|, g.l.size;
    ghost var k;
    ok, k := g.Commit(0);
  }
}
