/**
 The file system of fs.c on the log of log.c: what a power failure leaves of the files.

 The blocks that an operation of Files logs go through Log.Put, each with the contents the
 operation left in it, between begin_op and end_op. The disk is judged by what mounting it
 after recovery would find.
 */
module Storage {
  import opened Blocks
  import opened BufferCache
  import opened FileSpec
  import opened Files
  import opened LogSpec
  import L = Log
  import R = Reservation

  type FileBytes = seq<seq<byte>>

  /** The blocks of one device, by number. */
  function OnDevice(d: Disk, dev: nat): (s: Store)
    ensures forall b: nat :: Get(s, b) == Read(d, Name(dev, b))
  {
    map n | n in d && n.dev == dev :: n.blockno := d[n]
  }

  /** Two stores agree on the blocks of the file system, which come after the log. */
  ghost predicate Agree(sb: Super, s: Store, s': Store) {
    forall b: nat :: b >= sb.inodestart ==> Get(s', b) == Get(s, b)
  }

  /** Some block ownership makes these inodes and this bitmap consistent. */
  ghost predicate Consistent(sb: Super, s: Store, ins: seq<Inode>) {
    exists owner: map<nat, Slot> :: Core(sb, s, ins, owner)
  }

  /** Mounting the disk finds a consistent file system, and in its files these bytes. */
  ghost predicate MountsAs(d: Disk, l: Layout, sb: Super, files: FileBytes) {
    var s := OnDevice(d, l.dev);
    var ins := LoadInodes(sb, s, sb.ninodes);
    Consistent(sb, s, ins) && FilesOk(sb, s, ins) && AllContents(s, ins) == files
  }

  // ---- Only the blocks of the file system count ----------------------------------------

  lemma AgreePtr(sb: Super, s: Store, ins: seq<Inode>, owner: map<nat, Slot>, s': Store, i: nat, k: nat)
    requires Core(sb, s, ins, owner) && Agree(sb, s, s') && i < |ins| && k < NSLOT
    ensures Ptr(s', ins[i], k) == Ptr(s, ins[i], k)
  {
    if ins[i].addrs[NDIRECT] != 0 {
      assert Ptr(s, ins[i], NDIRECT) == ins[i].addrs[NDIRECT];
    }
  }

  lemma AgreeCore(sb: Super, s: Store, ins: seq<Inode>, owner: map<nat, Slot>, s': Store)
    requires Core(sb, s, ins, owner) && Agree(sb, s, s')
    ensures Core(sb, s', ins, owner)
  {
    forall i: nat, k: nat | i < |ins| && k < NSLOT ensures Ptr(s', ins[i], k) == Ptr(s, ins[i], k) {
      AgreePtr(sb, s, ins, owner, s', i, k);
    }
    forall b: nat | b < sb.size ensures Bit(sb, s', b) <==> Bit(sb, s, b) {
      assert sb.BBlock(b) >= sb.inodestart;
    }
    hide Ptr, Bit;
  }

  lemma AgreeBlk(sb: Super, s: Store, ins: seq<Inode>, owner: map<nat, Slot>, s': Store, i: nat, bn: nat)
    requires Core(sb, s, ins, owner) && Agree(sb, s, s') && i < |ins| && bn < MAXFILE
    ensures Blk(s', ins[i], bn) == Blk(s, ins[i], bn)
  {
    AgreePtr(sb, s, ins, owner, s', i, DataSlot(bn));
    hide Ptr, Bit;
    var p := Ptr(s, ins[i], DataSlot(bn));
    if p != 0 { assert p in owner; }
  }

  lemma AgreeFiles(sb: Super, s: Store, ins: seq<Inode>, owner: map<nat, Slot>, s': Store)
    requires Core(sb, s, ins, owner) && FilesOk(sb, s, ins) && Agree(sb, s, s')
    ensures FilesOk(sb, s', ins) && AllContents(s', ins) == AllContents(s, ins)
    ensures LoadInodes(sb, s', sb.ninodes) == ins
  {
    hide Core, Ptr, InodeAt, Blk, Contents;
    forall i: nat | i < |ins|
      ensures NoHoles(s', ins[i]) && OnDisk(sb, s', i, ins[i]) && Contents(s', ins[i]) == Contents(s, ins[i])
    {
      forall k: nat | k < NSLOT ensures Ptr(s', ins[i], k) == Ptr(s, ins[i], k) {
        AgreePtr(sb, s, ins, owner, s', i, k);
      }
      forall bn: nat | bn < MAXFILE ensures Blk(s', ins[i], bn) == Blk(s, ins[i], bn) {
        AgreeBlk(sb, s, ins, owner, s', i, bn);
      }
      SameContents(s, ins[i], s', ins[i]);
      assert sb.IBlock(i) >= sb.inodestart;
    }
    CoreSane(sb, s, ins, owner);
  }

  /** A disk that holds the blocks of a file system mounts as its files. */
  lemma MountsStore(d: Disk, l: Layout, sb: Super, s: Store, ins: seq<Inode>, owner: map<nat, Slot>)
    requires Core(sb, s, ins, owner) && FilesOk(sb, s, ins) && Agree(sb, s, OnDevice(d, l.dev))
    ensures MountsAs(d, l, sb, AllContents(s, ins))
  {
    hide Core, FilesOk, OnDevice, AllContents, LoadInodes, Agree;
    AgreeCore(sb, s, ins, owner, OnDevice(d, l.dev));
    AgreeFiles(sb, s, ins, owner, OnDevice(d, l.dev));
  }

  /** What is in the log makes no difference to mounting. */
  lemma MountsHome(d: Disk, d': Disk, l: Layout, sb: Super, files: FileBytes)
    requires MountsAs(d, l, sb, files) && SameHome(l, d', d) && l.start + l.size <= sb.inodestart
    ensures MountsAs(d', l, sb, files)
  {
    hide Core, FilesOk, AllContents;
    var s := OnDevice(d, l.dev);
    var ins := LoadInodes(sb, s, sb.ninodes);
    var owner: map<nat, Slot> :| Core(sb, s, ins, owner);
    forall b: nat | b >= sb.inodestart ensures Get(OnDevice(d', l.dev), b) == Get(s, b) {
      assert !l.InLog(Name(l.dev, b));
    }
    MountsStore(d', l, sb, s, ins, owner);
  }

  // ---- Every disk a run goes through -----------------------------------------------------

  /** Recovering from this disk, and mounting it, finds the files in one of the allowed states. */
  ghost predicate RecoversTo(d: Disk, l: Layout, sb: Super, allowed: iset<FileBytes>) {
    HasHead(d, l) && exists files :: files in allowed && MountsAs(Recovered(d, l), l, sb, files)
  }

  /** So it is after every block write since `from`. */
  ghost predicate Survives(t: History, from: History, l: Layout, sb: Super, allowed: iset<FileBytes>) {
    t == from || (t.Wrote? && RecoversTo(t.disk, l, sb, allowed) && Survives(t.before, from, l, sb, allowed))
  }

  lemma {:induction false} SurvivesMore(t: History, from: History, l: Layout, sb: Super, allowed: iset<FileBytes>,
                                        more: iset<FileBytes>)
    requires Survives(t, from, l, sb, allowed) && allowed <= more
    ensures Survives(t, from, l, sb, more)
  {
    if t != from { SurvivesMore(t.before, from, l, sb, allowed, more); }
  }

  lemma {:induction false} SurvivesOn(t: History, mid: History, from: History, l: Layout, sb: Super,
                                      allowed: iset<FileBytes>)
    requires Survives(mid, from, l, sb, allowed) && Survives(t, mid, l, sb, allowed)
    ensures Survives(t, from, l, sb, allowed)
  {
    if t != mid { SurvivesOn(t.before, mid, from, l, sb, allowed); }
  }

  /** Between commits the log is clear and recovery changes no file. */
  lemma ClearRecovers(d: Disk, l: Layout, sb: Super, files: FileBytes)
    requires Clear(d, l) && MountsAs(d, l, sb, files) && l.start + l.size <= sb.inodestart
    ensures HasHead(d, l) && MountsAs(Recovered(d, l), l, sb, files)
  {
    hide MountsAs;
    ClearHasHead(d, l);
    RecoveredClear(d, l);
    MountsHome(d, Recovered(d, l), l, sb, files);
  }

  /** Cut off after any number of its block writes, a commit leaves the files of before or of after. */
  lemma CutCommit(d: Disk, l: Layout, sb: Super, bs: seq<uint>, cs: seq<Block>, k: nat, before: FileBytes,
                  after: FileBytes)
    requires Clear(d, l) && Loggable(l, bs) && |bs| == |cs| && k <= 2 * |bs| + 2 && l.start + l.size <= sb.inodestart
    requires MountsAs(d, l, sb, before) && MountsAs(Applied(d, l, bs, cs), l, sb, after)
    ensures var d' := CommitState(d, l, bs, cs, k);
            HasHead(d', l) && MountsAs(Recovered(d', l), l, sb, if Committed(bs, k) then after else before)
  {
    hide MountsAs, CommitState, Applied, Recovered, SameHome;
    CommitCrash(d, l, bs, cs, k);
    var d' := Recovered(CommitState(d, l, bs, cs, k), l);
    if Committed(bs, k) {
      MountsHome(Applied(d, l, bs, cs), d', l, sb, after);
    } else {
      MountsHome(d, d', l, sb, before);
    }
  }

  lemma {:induction false} CommitSurvives(t: History, d: Disk, l: Layout, sb: Super, bs: seq<uint>, cs: seq<Block>,
                                          k: nat,
                                          before: FileBytes, after: FileBytes)
    requires Clear(d, l) && Loggable(l, bs) && |bs| == |cs| && k <= 2 * |bs| + 2 && l.start + l.size <= sb.inodestart
    requires MountsAs(d, l, sb, before) && MountsAs(Applied(d, l, bs, cs), l, sb, after)
    ensures Survives(CommitTrace(t, d, l, bs, cs, k), t, l, sb, iset{before, after})
  {
    hide MountsAs, CommitState, Applied, Recovered, HasHead, Loggable, Clear;
    if k > 0 {
      CommitSurvives(t, d, l, sb, bs, cs, k - 1, before, after);
      CutCommit(d, l, sb, bs, cs, k, before, after);
    }
  }

  // ---- Operations through the log -----------------------------------------------------

  /** The file system is what the cache and the log have, with the log before it on the disk. */
  ghost predicate Mounted(g: L.Log, fs: Fs)
    reads g, g.cache, fs
  {
    && g.Valid() && fs.Valid() && g.l.start + g.l.size <= fs.sb.inodestart
    && Agree(fs.sb, fs.store, OnDevice(g.cache.store, g.l.dev))
  }

  /** No process is in the middle of using a buffer, though some may be about to; none wants the log's. */
  ghost predicate Idle(g: L.Log)
    reads g, g.cache
  {
    (forall b :: 0 <= b < |g.cache.buf| ==> g.cache.buf[b].lock.Unlocked?) && L.NoLogUsers(g.cache.buf, g.l)
  }

  lemma MountedStore(g: L.Log, fs: Fs)
    requires Mounted(g, fs)
    ensures MountsAs(g.cache.store, g.l, fs.sb, fs.Bytes())
  {
    hide Inv, Core, FilesOk, OnlyLogged, Agree, OnDevice, MountsAs, AllContents, L.Log.Valid;
    MountsStore(g.cache.store, g.l, fs.sb, fs.store, fs.inodes, fs.owner);
  }

  /**
   commit, with the files on disk as `files`: after every one of its block writes a power failure
   leaves either those or the files as they are now, and from its end on the latter.
   */
  method CommitFiles(g: L.Log, fs: Fs, pid: nat, ghost files: FileBytes) returns (ok: bool)
    requires Mounted(g, fs) && g.committing && g.Apart() && MountsAs(g.cache.disk, g.l, fs.sb, files)
    modifies g`block, g.cache
    ensures ok <==> old(g.block) == [] || |old(g.block)| + |L.InUse(old(g.cache.buf))| < NBUF
    ensures Survives(g.cache.trace, old(g.cache.trace), g.l, fs.sb, iset{files, fs.Bytes()})
    ensures RecoversTo(g.cache.disk, g.l, fs.sb, iset{files, fs.Bytes()})
    ensures ok ==> Mounted(g, fs) && g.block == [] && g.Apart() && SameUsers(old(g.cache.buf), g.cache.buf)
    ensures ok ==> MountsAs(g.cache.disk, g.l, fs.sb, fs.Bytes())
  {
    hide Inv, Core, FilesOk, OnlyLogged, MountsAs, AllContents, CommitState, Applied, L.PinnedBy;
    ghost var d, store, bs := g.cache.disk, g.cache.store, g.block;
    ghost var cs := L.Contents(store, g.l, bs);
    MountedStore(g, fs);
    g.AppliedIsStore();
    MountsHome(store, Applied(d, g.l, bs, cs), g.l, fs.sb, fs.Bytes());
    ghost var k;
    ok, k := g.Commit(pid);
    CommitSurvives(old(g.cache.trace), d, g.l, fs.sb, bs, cs, k, files, fs.Bytes());
    CutCommit(d, g.l, fs.sb, bs, cs, k, files, fs.Bytes());
    if ok {
      MountsHome(store, g.cache.disk, g.l, fs.sb, fs.Bytes());
    }
  }

  /** The blocks from the inodes on are those of `s`, except that the ones in `todo` are still those of `was`. */
  ghost predicate Between(g: L.Log, sb: Super, was: Store, s: Store, todo: set<nat>)
    reads g, g.cache
  {
    forall b: nat :: b >= sb.inodestart ==> Read(g.cache.store, g.l.Home(b)) == Get(if b in todo then was else s, b)
  }

  /** Operation o has logged the blocks in `logged` that are not in `todo`. */
  ghost predicate Spent(g: L.Log, o: nat, logged: set<nat>, todo: set<nat>)
    reads g
  {
    o < |g.ops| && forall x: uint :: x in g.ops[o] <==> x in logged && x !in todo
  }

  lemma SpentBudget(g: L.Log, o: nat, logged: set<nat>, todo: set<nat>, b: uint)
    requires Spent(g, o, logged, todo) && b in todo && todo <= logged && |logged| <= MAXOPBLOCKS
    ensures R.InBudget(g.Admission(), o, b)
  {
    SubsetSize(g.ops[o] + {b}, logged);
  }

  /** What one Put does to the buffers in use. */
  lemma PutUses(buf: seq<Buf>, buf': seq<Buf>, l: Layout)
    requires |buf| == |buf'| && forall b :: 0 <= b < |buf| ==>
               && buf'[b].refcnt == buf[b].refcnt && buf'[b].lock == buf[b].lock
               && (buf'[b].refcnt > 0 ==> buf'[b].name == buf[b].name) && (buf'[b].dirty || buf'[b] == buf[b])
    ensures |L.InUse(buf')| <= |L.InUse(buf)|
    ensures L.NoLogUsers(buf, l) ==> L.NoLogUsers(buf', l)
  {
    var used, used' := L.InUse(buf), L.InUse(buf');
    assert used' <= used;
    assert used == used' + (used - used');
  }

  /** Every buffer has as many users as before. */
  ghost predicate SameCounts(buf: seq<Buf>, buf': seq<Buf>) {
    |buf'| == |buf| && forall b :: 0 <= b < |buf| ==> buf'[b].refcnt == buf[b].refcnt
  }

  /** The log and the buffers in use are at most this much larger than `logged` and `used`. */
  ghost predicate Within(g: L.Log, logged: nat, used: nat, more: nat)
    reads g, g.cache
  {
    |g.block| <= logged + more && |L.InUse(g.cache.buf)| <= used
  }

  /** An operation may find no slot left in the log, or no buffer for a block. */
  ghost predicate TooFull(logged: nat, used: nat, size: nat) {
    logged + MAXOPBLOCKS > LOGSIZE || logged + MAXOPBLOCKS >= size || logged + used + MAXOPBLOCKS >= NBUF
  }

  /** One block of an operation. */
  method PutOne(g: L.Log, fs: Fs, ghost o: nat, b: uint, ghost todo: set<nat>, pid: nat) returns (ok: bool)
    requires g.Valid() && Idle(g) && g.l.start + g.l.size <= fs.sb.inodestart <= b && b in todo && todo <= fs.logged
    requires Spent(g, o, fs.logged, todo) && |fs.logged| <= MAXOPBLOCKS && Between(g, fs.sb, fs.base, fs.store, todo)
    modifies g`block, g`ops, g.cache
    ensures g.cache.disk == old(g.cache.disk) && g.cache.trace == old(g.cache.trace)
    ensures !ok ==> !R.Fits(|old(g.block)|, g.l.size) || |old(g.block)| + |L.InUse(old(g.cache.buf))| >= NBUF
    ensures ok ==>
              g.Valid() && Idle(g) && |g.ops| == |old(g.ops)|
              && Within(g, |old(g.block)|, |L.InUse(old(g.cache.buf))|, 1)
    ensures ok ==> SameCounts(old(g.cache.buf), g.cache.buf)
    ensures ok ==> Spent(g, o, fs.logged, todo - {b}) && Between(g, fs.sb, fs.base, fs.store, todo - {b})
  {
    hide Inv, Ring, L.PinnedBy, Loggable, Clear, R.Inv, L.InUse, L.NoLogUsers;
    SpentBudget(g, o, fs.logged, todo, b);
    g.RoomToCommit();
    L.SameSize(g.cache);
    ghost var buf := g.cache.buf;
    ok := g.Put(o, b, Get(fs.store, b), pid);
    if ok {
      L.SameSize(g.cache);
      PutUses(buf, g.cache.buf, g.l);
    }
  }

  /** The blocks an operation has logged go through the log, in whatever order. */
  method PutAll(g: L.Log, fs: Fs, ghost o: nat, pid: nat) returns (ok: bool)
    requires g.Valid() && Idle(g) && g.l.start + g.l.size <= fs.sb.inodestart && fs.sb.size < 0x8000_0000
    requires o < |g.ops| && g.ops[o] == {} && |fs.logged| <= MAXOPBLOCKS
    requires OnlyLogged(fs.sb, fs.base, fs.store, fs.logged) && Agree(fs.sb, fs.base, OnDevice(g.cache.store, g.l.dev))
    modifies g`block, g`ops, g.cache
    ensures g.cache.disk == old(g.cache.disk) && g.cache.trace == old(g.cache.trace)
    ensures !ok ==> TooFull(|old(g.block)|, |L.InUse(old(g.cache.buf))|, g.l.size)
    ensures ok ==>
              g.Valid() && Idle(g) && |g.ops| == |old(g.ops)|
              && Agree(fs.sb, fs.store, OnDevice(g.cache.store, g.l.dev))
    ensures ok ==>
              Within(g, |old(g.block)|, |L.InUse(old(g.cache.buf))|, MAXOPBLOCKS)
              && SameCounts(old(g.cache.buf), g.cache.buf)
  {
    hide Inv, Ring, L.PinnedBy, Loggable, Clear, R.Inv, L.InUse, L.NoLogUsers, L.Log.Valid, Spent, Between, OnDevice;
    var todo := fs.logged;
    ghost var logged, used, done := |g.block|, |L.InUse(g.cache.buf)|, 0;
    NothingSpent(g, fs, o);
    while todo != {}
      invariant SameCounts(old(g.cache.buf), g.cache.buf)
      invariant todo <= fs.logged && g.Valid() && Idle(g) && |g.ops| == |old(g.ops)|
      invariant g.cache.disk == old(g.cache.disk) && g.cache.trace == old(g.cache.trace)
      invariant Spent(g, o, fs.logged, todo) && Between(g, fs.sb, fs.base, fs.store, todo)
      invariant 0 <= done == |fs.logged| - |todo| && Within(g, logged, used, done)
    {
      var b: nat :| b in todo;
      ok := PutOne(g, fs, o, b, todo, pid);
      if !ok { return; }
      todo, done := todo - {b}, done + 1;
    }
    AllSpent(g, fs);
    ok := true;
  }

  lemma NothingSpent(g: L.Log, fs: Fs, o: nat)
    requires o < |g.ops| && g.ops[o] == {}
    requires OnlyLogged(fs.sb, fs.base, fs.store, fs.logged) && Agree(fs.sb, fs.base, OnDevice(g.cache.store, g.l.dev))
    ensures Spent(g, o, fs.logged, fs.logged) && Between(g, fs.sb, fs.base, fs.store, fs.logged)
  {
    hide OnDevice;
  }

  lemma AllSpent(g: L.Log, fs: Fs)
    requires Between(g, fs.sb, fs.base, fs.store, {})
    ensures Agree(fs.sb, fs.store, OnDevice(g.cache.store, g.l.dev))
  {
    forall b: nat | b >= fs.sb.inodestart ensures Get(OnDevice(g.cache.store, g.l.dev), b) == Get(fs.store, b) {
      assert Read(g.cache.store, g.l.Home(b)) == Get(fs.store, b);
    }
  }

  /** What a chunk does to the inodes, the offset and the files, and returns: writei may refuse it. */
  ghost predicate Chunk(ins: seq<Inode>, off: uint, ins': seq<Inode>, off': int, files: FileBytes, files': FileBytes,
                        inum: nat, src: seq<byte>, r: Ret)
    requires inum < |ins| && |src| <= CHUNK
  {
    if BadWrite(ins[inum].size, off, |src|) then
      r == Ret(-1) && off' == off && ins' == ins && files' == files
    else
      r == Ret(|src|) && off' == off + |src| && WroteAt(files, files', inum, off, src)
  }

  /** A chunk of filewrite from begin_op up to the critical section of end_op: no block is written. */
  method WriteLogged(g: L.Log, fs: Fs, f: OpenFile, src: seq<byte>, pid: nat)
      returns (admitted: bool, r: Ret, doCommit: bool)
    requires Mounted(g, fs) && Idle(g) && f.inum < |fs.inodes| && |src| <= CHUNK
    modifies g, g.cache, fs, f`off
    ensures admitted <==> R.Enabled(old(g.Admission()), g.l.size, R.Begin)
    ensures g.cache.disk == old(g.cache.disk) && g.cache.trace == old(g.cache.trace)
    ensures !admitted ==>
              !r.Panic? && unchanged(f, g.cache) && Mounted(g, fs) && Idle(g) && fs.Bytes() == old(fs.Bytes())
    ensures r.Panic? ==> fs.Full() || TooFull(|old(g.block)|, |L.InUse(old(g.cache.buf))|, g.l.size)
    ensures admitted && !r.Panic? ==>
              && Mounted(g, fs) && Idle(g) && |g.ops| == |old(g.ops)| && SameCounts(old(g.cache.buf), g.cache.buf)
              && Within(g, |old(g.block)|, |L.InUse(old(g.cache.buf))|, MAXOPBLOCKS)
              && doCommit == g.committing == (old(g.ops) == [])
    ensures admitted && !r.Panic? ==>
              Chunk(old(fs.inodes), old(f.off), fs.inodes, f.off, old(fs.Bytes()), fs.Bytes(), f.inum, src, r)
  {
    hide Inv, Ring, Core, FilesOk, L.PinnedBy, Loggable, Clear, R.Inv, L.InUse, L.NoLogUsers, L.Log.Valid, OnDevice,
         AllContents, WroteAt, BadWrite, Agree, OnlyLogged, Fs.Full;
    CoreSane(fs.sb, fs.store, fs.inodes, fs.owner);
    doCommit, r := false, Ret(-1);
    admitted := g.BeginOp();
    if !admitted { return; }
    ghost var o := |g.ops| - 1;
    r := fs.WriteOp(f, src);
    if r.Panic? { return; }
    var ok := PutAll(g, fs, o, pid);
    if !ok { r := Panic; return; }
    doCommit := g.EndOp(o);
  }

  lemma IdleApart(g: L.Log)
    requires Idle(g)
    ensures g.Apart()
  {
  }

  lemma StillIdle(g: L.Log, buf0: seq<Buf>, buf: seq<Buf>)
    requires SameCounts(buf0, buf) && SameUsers(buf, g.cache.buf) && g.Apart()
    requires forall b :: 0 <= b < |buf| ==> buf[b].lock.Unlocked?
    ensures Idle(g) && SameCounts(buf0, g.cache.buf)
  {
  }

  /**
   A chunk of filewrite, with the files on disk as `files`. It commits if no other operation is in
   progress. `after` is the files with the chunk written, or as they were if writei refused it.
   After every block write a power failure leaves `files` or `after`; when a chunk that commits
   returns, the disk has `after`.
   */
  method WriteChunk(g: L.Log, fs: Fs, f: OpenFile, src: seq<byte>, pid: nat, ghost files: FileBytes)
      returns (admitted: bool, r: Ret, ghost after: FileBytes)
    requires Mounted(g, fs) && Idle(g) && f.inum < |fs.inodes| && |src| <= CHUNK
    requires MountsAs(g.cache.disk, g.l, fs.sb, files)
    modifies g, g.cache, fs, f`off
    ensures admitted <==> R.Enabled(old(g.Admission()), g.l.size, R.Begin)
    ensures after == old(fs.Bytes()) || WroteAt(old(fs.Bytes()), after, f.inum, old(f.off), src)
    ensures Survives(g.cache.trace, old(g.cache.trace), g.l, fs.sb, iset{files, after})
    ensures RecoversTo(g.cache.disk, g.l, fs.sb, iset{files, after})
    ensures r.Panic? ==> fs.Full() || TooFull(|old(g.block)|, |L.InUse(old(g.cache.buf))|, g.l.size)
    ensures !r.Panic? ==> Mounted(g, fs) && Idle(g) && fs.Bytes() == after && SameCounts(old(g.cache.buf), g.cache.buf)
    ensures admitted && !r.Panic? ==>
              Chunk(old(fs.inodes), old(f.off), fs.inodes, f.off, old(fs.Bytes()), after, f.inum, src, r)
    ensures admitted && !r.Panic? && old(g.ops) == [] ==>
              g.Admission() == R.State([], [], false) && MountsAs(g.cache.disk, g.l, fs.sb, after)
    ensures !admitted || (!r.Panic? && old(g.ops) != []) ==> g.cache.disk == old(g.cache.disk)
  {
    hide Inv, Ring, Core, FilesOk, L.PinnedBy, Loggable, R.Inv, L.InUse, L.NoLogUsers, OnDevice, AllContents, WroteAt,
         BadWrite, Agree, OnlyLogged, Fs.Full, MountsAs, Recovered, ReadersOf, SameUsers, Clear, HasHead;
    after := fs.Bytes();
    ClearRecovers(g.cache.disk, g.l, fs.sb, files);
    var doCommit;
    admitted, r, doCommit := WriteLogged(g, fs, f, src, pid);
    if !admitted || r.Panic? { return; }
    after := fs.Bytes();
    if doCommit {
      IdleApart(g);
      ghost var buf := g.cache.buf;
      var ok := CommitFiles(g, fs, pid, files);
      if !ok { r := Panic; return; }
      StillIdle(g, old(g.cache.buf), buf);
      g.EndCommit();
    }
  }

  // ---- filewrite -----------------------------------------------------------------------

  /** Nothing, or the first bytes of src, has been written: all n, or a number of pieces of three blocks. */
  ghost predicate WrotePrefix(files: FileBytes, files': FileBytes, inum: nat, off: nat, src: seq<byte>, n: int) {
    || files' == files
    || exists j: nat :: j <= |src| && (j == n || j % 1536 == 0) && WroteAt(files, files', inum, off, src[..j])
  }

  ghost function Prefixes(files: FileBytes, inum: nat, off: nat, src: seq<byte>, n: int): iset<FileBytes> {
    iset files' | WrotePrefix(files, files', inum, off, src, n)
  }

  lemma AddPrefix(files: FileBytes, files': FileBytes, inum: nat, off: nat, src: seq<byte>, n: int, j: nat)
    requires j <= |src| && (j == n || j % 1536 == 0)
    requires (j == 0 && files' == files) || WroteAt(files, files', inum, off, src[..j])
    ensures files' in Prefixes(files, inum, off, src, n)
  {
  }

  /** One chunk more, or none. */
  lemma NextPrefix(files: FileBytes, before: FileBytes, after: FileBytes, inum: nat, off: nat, src: seq<byte>, n: int,
                   i: nat, m: nat)
    requires i + m <= |src| && i % 1536 == 0 && (m == 1536 || i + m == n)
    requires if i == 0 then before == files else WroteAt(files, before, inum, off, src[..i])
    requires after == before || WroteAt(before, after, inum, off + i, src[i..i + m])
    ensures before in Prefixes(files, inum, off, src, n) && after in Prefixes(files, inum, off, src, n)
    ensures WroteAt(before, after, inum, off + i, src[i..i + m]) ==> WroteAt(files, after, inum, off, src[..i + m])
  {
    hide Prefixes, WroteAt;
    AddPrefix(files, before, inum, off, src, n, i);
    if WroteAt(before, after, inum, off + i, src[i..i + m]) {
      WroteTwice(files, before, after, inum, off, src, i, m);
      AddPrefix(files, after, inum, off, src, n, i + m);
    }
  }

  /** The buffers that have a user, as filewrite finds them. */
  ghost function Users(buf: seq<Buf>): set<int> {
    set b | 0 <= b < |buf| && buf[b].refcnt > 0
  }

  lemma UsersBound(buf: seq<Buf>, buf': seq<Buf>)
    requires SameCounts(buf, buf')
    ensures |L.InUse(buf')| <= |Users(buf)|
  {
    assert L.InUse(buf') <= Users(buf);
    assert Users(buf) == L.InUse(buf') + (Users(buf) - L.InUse(buf'));
  }

  /** Nothing is logged or being logged, and the disk has the files as they are. */
  ghost predicate Settled(g: L.Log, fs: Fs)
    reads g, g.cache, fs
  {
    Mounted(g, fs) && Idle(g) && g.Admission() == R.State([], [], false)
      && MountsAs(g.cache.disk, g.l, fs.sb, fs.Bytes())
  }

  /** filewrite's state when i bytes are written and on disk. */
  ghost predicate WrittenSoFar(g: L.Log, fs: Fs, f: OpenFile, src: seq<byte>, i: int, files: FileBytes, off: nat)
    reads g, g.cache, fs, f
  {
    && Settled(g, fs) && f.inum < |fs.inodes| && f.off == off + i && 0 <= i <= |src|
    && (if i == 0 then fs.Bytes() == files else WroteAt(files, fs.Bytes(), f.inum, off, src[..i]))
  }

  /** One chunk of filewrite, with no other operation in progress. */
  method NextChunk(g: L.Log, fs: Fs, f: OpenFile, src: seq<byte>, i: nat, n1: nat, pid: nat, ghost files: FileBytes,
                   ghost off: nat, ghost n: int)
      returns (r: Ret)
    requires i % 1536 == 0 && (n1 == 1536 || i + n1 == n)
    requires i + n1 <= |src| && n1 <= CHUNK && WrittenSoFar(g, fs, f, src, i, files, off) && n1 > 0
    modifies g, g.cache, fs, f`off
    ensures r == Ret(-1) ==> f.inum < |fs.inodes| && BadWrite(fs.inodes[f.inum].size, f.off, n1)
    ensures Survives(g.cache.trace, old(g.cache.trace), g.l, fs.sb, Prefixes(files, f.inum, off, src, n))
    ensures RecoversTo(g.cache.disk, g.l, fs.sb, Prefixes(files, f.inum, off, src, n))
    ensures r.Panic? ==> fs.Full() || TooFull(0, |L.InUse(old(g.cache.buf))|, g.l.size)
    ensures !r.Panic? ==> SameCounts(old(g.cache.buf), g.cache.buf) && (r == Ret(n1) || r == Ret(-1))
    ensures r == Ret(n1) ==> WrittenSoFar(g, fs, f, src, i + n1, files, off)
    ensures r == Ret(-1) ==> WrittenSoFar(g, fs, f, src, i, files, off)
  {
    hide Inv, Ring, Core, FilesOk, L.PinnedBy, Loggable, R.Inv, L.InUse, L.NoLogUsers, OnDevice, AllContents, Splice,
         BadWrite, Agree, OnlyLogged, Fs.Full, MountsAs, Recovered, Clear, HasHead, WrotePrefix, L.Log.Valid;
    ghost var before := fs.Bytes();
    ghost var after;
    var admitted;
    admitted, r, after := WriteChunk(g, fs, f, src[i..i + n1], pid, before);
    NextPrefix(files, before, after, f.inum, off, src, n, i, n1);
    SurvivesMore(g.cache.trace, old(g.cache.trace), g.l, fs.sb, iset{before, after},
                 Prefixes(files, f.inum, off, src, n));
  }

  /**
   filewrite down to the disk, which has `files`, with no other operation in progress: after every block write a power
   failure leaves the file with the first bytes of src written, without a gap, a number of pieces of three
   blocks or all of them, and every other file as it was. When filewrite returns,
       what it reports as written is on the disk.
   */
  method WriteFile(g: L.Log, fs: Fs, f: OpenFile, src: seq<byte>, n: int, pid: nat, ghost files: FileBytes)
      returns (r: Ret, ghost done: nat)
    requires Settled(g, fs) && files == fs.Bytes() && f.inum < |fs.inodes| && n <= |src| < 0x8000_0000
    modifies g, g.cache, fs, f`off
    ensures f.writable && !r.Panic? && done < n ==> fs.Refused(f, n - done)
    ensures Survives(g.cache.trace, old(g.cache.trace), g.l, fs.sb, Prefixes(files, f.inum, old(f.off), src, n))
    ensures RecoversTo(g.cache.disk, g.l, fs.sb, Prefixes(files, f.inum, old(f.off), src, n))
    ensures r.Panic? ==> fs.Full() || TooFull(0, |Users(old(g.cache.buf))|, g.l.size)
    ensures !r.Panic? ==> done <= |src| && WrittenSoFar(g, fs, f, src, done, files, old(f.off))
    ensures !f.writable ==> r == Ret(-1) && done == 0
    ensures f.writable && !r.Panic? ==> r == Ret(if done == n then n else -1)
  {
    hide Inv, Ring, Core, FilesOk, L.PinnedBy, Loggable, R.Inv, L.InUse, L.NoLogUsers, OnDevice, AllContents, WroteAt,
         BadWrite, Agree, OnlyLogged, Fs.Full, MountsAs, Recovered, Clear, HasHead, WrotePrefix, L.Log.Valid,
         WrittenSoFar;
    ghost var off := f.off;
    StartWriting(g, fs, f, src, n);
    done := 0;
    if !f.writable {
      return Ret(-1), 0;
    }
    var i := 0;
    while i < n
      invariant 0 <= i && (i <= n || i == 0) && (i >= n || i % 1536 == 0) && WrittenSoFar(g, fs, f, src, i, files, off)
      invariant SameCounts(old(g.cache.buf), g.cache.buf)
      invariant Survives(g.cache.trace, old(g.cache.trace), g.l, fs.sb, Prefixes(files, f.inum, off, src, n))
      invariant RecoversTo(g.cache.disk, g.l, fs.sb, Prefixes(files, f.inum, off, src, n))
    {
      var n1 := if n - i > CHUNK then CHUNK else n - i;
      ghost var t := g.cache.trace;
      UsersBound(old(g.cache.buf), g.cache.buf);
      r := NextChunk(g, fs, f, src, i, n1, pid, files, off, n);
      SurvivesOn(g.cache.trace, t, old(g.cache.trace), g.l, fs.sb, Prefixes(files, f.inum, off, src, n));
      if r.Panic? {
        return;
      }
      if r.value < 0 {
        done := i;
        return Ret(-1), done;
      }
      i := i + n1;
    }
    done := i;
    return Ret(if i == n then n else -1), done;
  }

  lemma StartWriting(g: L.Log, fs: Fs, f: OpenFile, src: seq<byte>, n: int)
    requires Settled(g, fs) && f.inum < |fs.inodes|
    ensures WrittenSoFar(g, fs, f, src, 0, fs.Bytes(), f.off)
    ensures RecoversTo(g.cache.disk, g.l, fs.sb, Prefixes(fs.Bytes(), f.inum, f.off, src, n))
  {
    hide Inv, Core, FilesOk, L.PinnedBy, Loggable, R.Inv, OnDevice, AllContents, MountsAs, Recovered;
    ClearRecovers(g.cache.disk, g.l, fs.sb, fs.Bytes());
    AddPrefix(fs.Bytes(), fs.Bytes(), f.inum, f.off, src, n, 0);
  }

  // ---- Booting -----------------------------------------------------------------------------

  /**
   initlog and the first use of the file system after it: on a disk from which recovery gives
   `files`, whatever happened before, everything is in order again and the files are those.
   */
  method Boot(disk: Disk, l: Layout, sb: Super, pid: nat, ghost files: FileBytes) returns (g: L.Log, fs: Fs)
    requires HasHead(disk, l) && MountsAs(Recovered(disk, l), l, sb, files) && l.start + l.size <= sb.inodestart
    ensures fresh(g) && fresh(g.cache) && fresh(fs) && g.l == l && fs.sb == sb
    ensures Settled(g, fs) && fs.Bytes() == files
  {
    hide Inv, Ring, Core, FilesOk, L.PinnedBy, Loggable, R.Inv, AllContents, Recovered, HasHead, LoadInodes;
    var cache := new Cache(disk);
    L.SameSize(cache);
    g := new L.Log(cache, l);
    var ok := g.Recover(pid);
    ghost var d := g.cache.disk;
    ghost var owner: map<nat, Slot> :| Core(sb, OnDevice(d, l.dev), LoadInodes(sb, OnDevice(d, l.dev), sb.ninodes),
                                            owner);
    fs := new Fs.Mount(sb, OnDevice(g.cache.disk, l.dev), owner);
    QuietAgrees(g, sb);
  }

  lemma QuietAgrees(g: L.Log, sb: Super)
    requires g.Valid() && g.cache.Quiet() && g.block == []
    ensures Idle(g) && Agree(sb, OnDevice(g.cache.disk, g.l.dev), OnDevice(g.cache.store, g.l.dev))
  {
    hide OnDevice;
    g.cache.QuietReadOnly();
    forall b: nat ensures Read(g.cache.store, Name(g.l.dev, b)) == Read(g.cache.disk, Name(g.l.dev, b)) {
      g.cache.CleanReads(Name(g.l.dev, b));
    }
  }
}
