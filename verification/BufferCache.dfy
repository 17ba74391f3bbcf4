/**
 The buffer cache (bio.c): NBUF buffers on a doubly linked ring in most recently
 used order, found by name, recycled from the least recently used end.

 Each method below is one stretch of code that the source runs without interruption
 (under bcache.lock or under a buffer's sleep lock), so that any interleaving of
 processes is some sequence of these calls. The ghost field `store` is what each
 block was last left holding; every method keeps it except Update, which is the
 memmove or memset a holder does on a buffer's data.
 */
module BufferCache {
  import opened Blocks
  import opened Options

  const NBUF := 30
  const HEAD := NBUF // the list head, after the buffers proper

  datatype Lock = Unlocked | HeldBy(pid: nat)

  datatype Buf = Buf(name: Name, valid: bool, dirty: bool, refcnt: nat, lock: Lock, data: Block) {
    /** As binit leaves it: all fields zero. */
    ghost predicate Fresh() {
      name == Name(0, 0) && !valid && !dirty && refcnt == 0 && lock.Unlocked?
    }

    predicate Recyclable() {
      refcnt == 0 && !dirty
    }
  }

  // ---- The ring -------------------------------------------------------------

  ghost function At(order: seq<nat>, i: int): nat {
    if 0 <= i < |order| then order[i] else HEAD
  }

  ghost predicate Nodes(order: seq<nat>) {
    && (forall i :: 0 <= i < |order| ==> order[i] < NBUF)
    && (forall i, j :: 0 <= i < j < |order| ==> order[i] != order[j])
  }

  ghost predicate Forward(next: seq<nat>, order: seq<nat>) {
    && |next| == NBUF + 1
    && (forall i :: -1 <= i < |order| ==> At(order, i) < |next| && next[At(order, i)] == At(order, i + 1))
  }

  ghost predicate Backward(prev: seq<nat>, order: seq<nat>) {
    && |prev| == NBUF + 1
    && (forall i :: 0 <= i <= |order| ==> At(order, i) < |prev| && prev[At(order, i)] == At(order, i - 1))
  }

  /** Following next from the head visits `order` and returns; prev goes backwards. */
  ghost predicate Ring(next: seq<nat>, prev: seq<nat>, order: seq<nat>) {
    Nodes(order) && Forward(next, order) && Backward(prev, order)
  }

  ghost function Without(order: seq<nat>, k: nat): seq<nat>
    requires k < |order|
  {
    order[..k] + order[k + 1..]
  }

  lemma AtWithout(order: seq<nat>, k: nat, i: int)
    requires k < |order| && -1 <= i < |order|
    ensures At(Without(order, k), i) == At(order, if i < k then i else i + 1)
  {
  }

  /** Taking node order[k] out of the ring. */
  lemma UnlinkRing(next: seq<nat>, prev: seq<nat>, order: seq<nat>, k: nat)
    requires Ring(next, prev, order) && k < |order|
    ensures var b := order[k];
            && next[b] <= NBUF && prev[b] <= NBUF
            && Ring(next[prev[b] := next[b]], prev[next[b] := prev[b]], Without(order, k))
  {
    var b, rest := order[k], Without(order, k);
    assert b == At(order, k);
    assert next[b] == At(order, k + 1) && prev[b] == At(order, k - 1);
    var next', prev' := next[prev[b] := next[b]], prev[next[b] := prev[b]];
    forall i | -1 <= i < |rest|
      ensures At(rest, i) < |next'| && next'[At(rest, i)] == At(rest, i + 1)
    {
      AtWithout(order, k, i);
      AtWithout(order, k, i + 1);
      var j := if i < k then i else i + 1;
      assert next[At(order, j)] == At(order, j + 1);
    }
    forall i | 0 <= i <= |rest|
      ensures At(rest, i) < |prev'| && prev'[At(rest, i)] == At(rest, i - 1)
    {
      AtWithout(order, k, i);
      AtWithout(order, k, i - 1);
      var j := if i < k then i else i + 1;
      assert prev[At(order, j)] == At(order, j - 1);
    }
  }

  /** Linking a node that is not on the ring in behind the head. */
  lemma LinkRing(next: seq<nat>, prev: seq<nat>, order: seq<nat>, b: nat)
    requires Ring(next, prev, order) && b < NBUF && b !in order
    ensures var next1, prev1 := next[b := next[HEAD]], prev[b := HEAD];
            && next1[HEAD] <= NBUF
            && Ring(next1[HEAD := b], prev1[next1[HEAD] := b], [b] + order)
  {
    var next1, prev1 := next[b := next[HEAD]], prev[b := HEAD];
    assert next[At(order, -1)] == At(order, 0);
    var next2, prev2 := next1[HEAD := b], prev1[next1[HEAD] := b];
    var all := [b] + order;
    forall i | -1 <= i < |all|
      ensures At(all, i) < |next2| && next2[At(all, i)] == At(all, i + 1)
    {
      if i > 0 {
        assert At(all, i) == At(order, i - 1) && At(all, i + 1) == At(order, i);
        assert next[At(order, i - 1)] == At(order, i);
      }
    }
    forall i | 0 <= i <= |all|
      ensures At(all, i) < |prev2| && prev2[At(all, i)] == At(all, i - 1)
    {
      if i > 1 {
        assert At(all, i) == At(order, i - 1) && At(all, i - 1) == At(order, i - 2);
        assert prev[At(order, i - 1)] == At(order, i - 2);
      } else if i == 1 {
        assert At(all, 1) == At(order, 0);
      }
    }
  }

  // ---- Names and contents -----------------------------------------------------

  /** Of two buffers with one name, the one further down the ring was never used. */
  ghost predicate OneNamed(buf: seq<Buf>, order: seq<nat>)
    requires |buf| == NBUF && forall i :: 0 <= i < |order| ==> order[i] < NBUF
  {
    forall i, j :: 0 <= i < j < |order| && buf[order[i]].name == buf[order[j]].name ==> buf[order[j]].Fresh()
  }

  /** Some buffer may hold contents for this block that the disk does not. */
  ghost predicate Pinned(buf: seq<Buf>, n: Name) {
    exists b :: 0 <= b < |buf| && buf[b].name == n && buf[b].valid && (buf[b].dirty || buf[b].lock.HeldBy?)
  }

  ghost predicate DirtyIn(buf: seq<Buf>, n: Name) {
    exists b :: 0 <= b < |buf| && buf[b].name == n && buf[b].dirty
  }

  ghost predicate Coherent(buf: seq<Buf>, store: Disk, disk: Disk) {
    && (forall b :: 0 <= b < |buf| && buf[b].valid ==> buf[b].data == Read(store, buf[b].name))
    && (forall n :: Pinned(buf, n) || Read(store, n) == Read(disk, n))
  }

  /** What every method keeps, apart from the shape of the ring. */
  ghost predicate Inv(buf: seq<Buf>, order: seq<nat>, store: Disk, disk: Disk) {
    && |buf| == NBUF && |order| == NBUF
    && Nodes(order) && (forall b :: 0 <= b < NBUF ==> b in order)
    && OneNamed(buf, order)
    && (forall b :: 0 <= b < NBUF && buf[b].lock.HeldBy? ==> buf[b].refcnt > 0)
    && (forall b :: 0 <= b < NBUF && buf[b].dirty ==> buf[b].valid)
    && Coherent(buf, store, disk)
  }

  /** b can be recycled, and no buffer behind it on the ring can. */
  ghost predicate LeastRecent(buf: seq<Buf>, order: seq<nat>, b: nat)
    requires |buf| == NBUF && Nodes(order)
  {
    b < NBUF && buf[b].Recyclable()
    && forall i, j :: 0 <= i < j < |order| && order[i] == b ==> !buf[order[j]].Recyclable()
  }

  /** No buffer ahead of b on the ring has its name. */
  ghost predicate First(buf: seq<Buf>, order: seq<nat>, b: nat)
    requires b < |buf| && forall i :: 0 <= i < |order| ==> order[i] < |buf|
  {
    forall i, j :: 0 <= i < j < |order| && order[j] == b ==> buf[order[i]].name != buf[b].name
  }

  /** Two buffers with one name: if one is in use, or first, the other is fresh. */
  lemma OthersFresh(buf: seq<Buf>, order: seq<nat>, store: Disk, disk: Disk, a: nat, b: nat)
    requires Inv(buf, order, store, disk) && a < NBUF && b < NBUF && a != b
    requires buf[a].name == buf[b].name && (First(buf, order, b) || !buf[b].Fresh())
    ensures buf[a].Fresh()
  {
    assert a in order && b in order;
    var i :| 0 <= i < NBUF && order[i] == a;
    var j :| 0 <= j < NBUF && order[j] == b;
    assert i != j;
  }

  /** No two buffers that are in use, or hold valid contents, name one block. */
  lemma OneBufferPerBlock(buf: seq<Buf>, order: seq<nat>, store: Disk, disk: Disk, a: nat, b: nat)
    requires Inv(buf, order, store, disk) && a < NBUF && b < NBUF && a != b
    requires buf[a].refcnt > 0 || buf[a].valid
    requires buf[b].refcnt > 0 || buf[b].valid
    ensures buf[a].name != buf[b].name
  {
    if buf[a].name == buf[b].name {
      OthersFresh(buf, order, store, disk, a, b);
    }
  }

  lemma InUseFirst(buf: seq<Buf>, order: seq<nat>, store: Disk, disk: Disk, b: nat)
    requires Inv(buf, order, store, disk) && b < NBUF && !buf[b].Fresh()
    ensures First(buf, order, b)
  {
  }

  /** Only the buffer of that name that is in use, or first, can pin a block. */
  lemma PinnedHere(buf: seq<Buf>, order: seq<nat>, store: Disk, disk: Disk, b: nat)
    requires Inv(buf, order, store, disk) && b < NBUF && (First(buf, order, b) || !buf[b].Fresh())
    ensures (buf[b].valid && (buf[b].dirty || buf[b].lock.HeldBy?))
            || Read(store, buf[b].name) == Read(disk, buf[b].name)
  {
    var n := buf[b].name;
    if Pinned(buf, n) {
      var a :| 0 <= a < NBUF && buf[a].name == n && buf[a].valid && (buf[a].dirty || buf[a].lock.HeldBy?);
      if a != b { OthersFresh(buf, order, store, disk, a, b); }
    }
  }

  /** Changing one buffer, and the contents of its own block only, keeps the invariant. */
  lemma UpdateKeeps(buf: seq<Buf>, order: seq<nat>, store: Disk, disk: Disk, b: nat, nb: Buf, store': Disk, disk': Disk)
    requires Inv(buf, order, store, disk) && b < NBUF
    requires First(buf, order, b) || !buf[b].Fresh()
    requires nb.name == buf[b].name
    requires nb.lock.HeldBy? ==> nb.refcnt > 0
    requires nb.dirty ==> nb.valid
    requires forall n :: n != nb.name ==> Read(store', n) == Read(store, n) && Read(disk', n) == Read(disk, n)
    requires nb.valid ==> nb.data == Read(store', nb.name)
    requires (nb.valid && (nb.dirty || nb.lock.HeldBy?)) || Read(store', nb.name) == Read(disk', nb.name)
    ensures Inv(buf[b := nb], order, store', disk')
  {
    var buf' := buf[b := nb];
    forall i, j | 0 <= i < j < NBUF && buf'[order[i]].name == buf'[order[j]].name
      ensures buf'[order[j]].Fresh()
    {
      assert buf[order[i]].name == buf[order[j]].name;
      assert order[j] != b;
    }
    forall a | 0 <= a < NBUF && buf'[a].valid
      ensures buf'[a].data == Read(store', buf'[a].name)
    {
      if a != b && buf[a].name == nb.name { OthersFresh(buf, order, store, disk, a, b); }
    }
    forall n ensures Pinned(buf', n) || Read(store', n) == Read(disk', n) {
      if n == nb.name {
        if nb.valid && (nb.dirty || nb.lock.HeldBy?) { assert buf'[b].name == n; }
      } else if Pinned(buf, n) {
        var a :| 0 <= a < NBUF && buf[a].name == n && buf[a].valid && (buf[a].dirty || buf[a].lock.HeldBy?);
        assert buf'[a] == buf[a];
      }
    }
  }

  ghost predicate ReadersOf(buf: seq<Buf>, disk: Disk) {
    forall b :: 0 <= b < |buf| && buf[b].lock.HeldBy? ==>
      !buf[b].dirty && (buf[b].valid ==> Read(disk, buf[b].name) == buf[b].data)
  }

  /** What other processes have is as it was, except that a dirty buffer may have been written out. */
  ghost predicate SameUsers(buf: seq<Buf>, buf': seq<Buf>) {
    && |buf'| == |buf|
    && (forall b :: 0 <= b < |buf| && buf[b].refcnt == 0 ==> buf'[b].refcnt == 0 && buf'[b].lock.Unlocked?)
    && (forall b :: 0 <= b < |buf| && buf[b].refcnt > 0 ==>
          buf'[b] == buf[b] || (buf[b].dirty && buf'[b] == buf[b].(dirty := buf'[b].dirty, data := buf'[b].data)))
  }

  /** A block is dirty when the buffer in use for it is. */
  lemma DirtyHere(buf: seq<Buf>, order: seq<nat>, store: Disk, disk: Disk, b: nat)
    requires Inv(buf, order, store, disk) && b < NBUF && (First(buf, order, b) || !buf[b].Fresh())
    ensures DirtyIn(buf, buf[b].name) <==> buf[b].dirty
  {
    if DirtyIn(buf, buf[b].name) {
      var a :| 0 <= a < NBUF && buf[a].name == buf[b].name && buf[a].dirty;
      if a != b { OthersFresh(buf, order, store, disk, a, b); }
    }
  }

  /** Whether a block is dirty after the buffer in use for one is changed. */
  lemma DirtyAt(buf: seq<Buf>, order: seq<nat>, store: Disk, disk: Disk, b: nat, nb: Buf, n: Name)
    requires Inv(buf, order, store, disk) && b < NBUF && (First(buf, order, b) || !buf[b].Fresh())
    requires nb.name == buf[b].name
    ensures DirtyIn(buf[b := nb], n) <==> if n == nb.name then nb.dirty else DirtyIn(buf, n)
  {
    var buf' := buf[b := nb];
    if DirtyIn(buf, n) {
      var a :| 0 <= a < NBUF && buf[a].name == n && buf[a].dirty;
      if a != b { assert buf'[a].dirty; }
    }
    if DirtyIn(buf', n) {
      var a :| 0 <= a < NBUF && buf'[a].name == n && buf'[a].dirty;
      if a != b {
        assert buf[a].dirty;
        if n == nb.name { OthersFresh(buf, order, store, disk, a, b); }
      }
    }
    if n == nb.name && nb.dirty { assert buf'[b].dirty; }
  }

  lemma DirtyChange(buf: seq<Buf>, order: seq<nat>, store: Disk, disk: Disk, b: nat, nb: Buf)
    requires Inv(buf, order, store, disk) && b < NBUF && (First(buf, order, b) || !buf[b].Fresh())
    requires nb.name == buf[b].name
    ensures forall n :: DirtyIn(buf[b := nb], n) <==> if n == nb.name then nb.dirty else DirtyIn(buf, n)
  {
    hide DirtyIn, First;
    forall n ensures DirtyIn(buf[b := nb], n) <==> if n == nb.name then nb.dirty else DirtyIn(buf, n) {
      DirtyAt(buf, order, store, disk, b, nb, n);
    }
  }

  lemma DirtyRename(buf: seq<Buf>, b: nat, nb: Buf)
    requires b < |buf| && !buf[b].dirty && !nb.dirty
    ensures forall n :: DirtyIn(buf[b := nb], n) <==> DirtyIn(buf, n)
  {
    var buf' := buf[b := nb];
    forall n ensures DirtyIn(buf', n) <==> DirtyIn(buf, n) {
      if DirtyIn(buf, n) {
        var a :| 0 <= a < |buf| && buf[a].name == n && buf[a].dirty;
        assert buf'[a].dirty;
      }
      if DirtyIn(buf', n) {
        var a :| 0 <= a < |buf| && buf'[a].name == n && buf'[a].dirty;
        assert buf[a].dirty;
      }
    }
  }

  /** Renaming a recyclable buffer loses nothing: what it held is on the disk. */
  lemma RecycleKeeps(buf: seq<Buf>, order: seq<nat>, store: Disk, disk: Disk, b: nat, n: Name)
    requires Inv(buf, order, store, disk) && b < NBUF && buf[b].Recyclable()
    requires forall a :: 0 <= a < NBUF ==> buf[a].name != n
    ensures Inv(buf[b := Buf(n, false, false, 1, buf[b].lock, buf[b].data)], order, store, disk)
  {
    var buf' := buf[b := Buf(n, false, false, 1, buf[b].lock, buf[b].data)];
    forall m ensures Pinned(buf', m) || Read(store, m) == Read(disk, m) {
      if Pinned(buf, m) {
        var a :| 0 <= a < NBUF && buf[a].name == m && buf[a].valid && (buf[a].dirty || buf[a].lock.HeldBy?);
        assert buf'[a] == buf[a];
      }
    }
  }

  /** The ring's order with its k-th buffer moved to the front. */
  lemma FrontOrder(order: seq<nat>, k: nat)
    requires |order| == NBUF && Nodes(order) && k < NBUF && forall b :: 0 <= b < NBUF ==> b in order
    ensures var order' := [order[k]] + Without(order, k);
            && |order'| == NBUF && Nodes(order') && (forall b :: 0 <= b < NBUF ==> b in order')
            && (forall j :: 0 < j < NBUF ==> order'[j] == order[if j <= k then j - 1 else j])
  {
    var order' := [order[k]] + Without(order, k);
    forall a | 0 <= a < NBUF ensures a in order' {
      assert a in order;
      var i :| 0 <= i < NBUF && order[i] == a;
      assert order'[if i == k then 0 else if i < k then i + 1 else i] == a;
    }
  }

  /** Moving a buffer that was in use to the front keeps the invariant. */
  lemma FrontKeeps(buf: seq<Buf>, order: seq<nat>, store: Disk, disk: Disk, k: nat)
    requires Inv(buf, order, store, disk) && k < NBUF && First(buf, order, order[k])
    ensures Inv(buf, [order[k]] + Without(order, k), store, disk)
  {
    hide Coherent, First, Without;
    var b := order[k];
    var order' := [b] + Without(order, k);
    FrontOrder(order, k);
    forall i, j | 0 <= i < j < NBUF && buf[order'[i]].name == buf[order'[j]].name
      ensures buf[order'[j]].Fresh()
    {
      if i == 0 { OthersFresh(buf, order, store, disk, order'[j], b); }
    }
  }

  class Cache {
    var buf: seq<Buf>
    var next: seq<nat>
    var prev: seq<nat>
    var disk: Disk
    ghost var order: seq<nat>
    ghost var store: Disk
    ghost var trace: History

    ghost predicate Valid()
      reads this
    {
      Ring(next, prev, order) && Inv(buf, order, store, disk)
    }

    ghost predicate Held(b: nat, pid: nat)
      reads this
    {
      b < |buf| && buf[b].lock == HeldBy(pid)
    }

    ghost predicate Cached(n: Name)
      reads this
    {
      exists b :: 0 <= b < |buf| && buf[b].name == n
    }

    /** binit: every buffer on the ring, none naming a block. */
    constructor (d: Disk)
      ensures Valid() && disk == d && store == d && trace == Boot
      ensures forall b :: 0 <= b < NBUF ==> buf[b].Fresh()
    {
      buf := seq(NBUF, _ => Buf(Name(0, 0), false, false, 0, Unlocked, ZERO_BLOCK));
      next := seq(NBUF + 1, _ => HEAD);
      prev := seq(NBUF + 1, _ => HEAD);
      order := [];
      disk, store, trace := d, d, Boot;
      new;
      var b := 0;
      while b < NBUF
        invariant 0 <= b <= NBUF && |order| == b
        invariant Ring(next, prev, order)
        invariant forall a :: 0 <= a < NBUF ==> (a in order <==> a < b)
        invariant disk == d && store == d && trace == Boot
        invariant |buf| == NBUF && forall a :: 0 <= a < NBUF ==> buf[a].Fresh()
      {
        LinkRing(next, prev, order, b);
        next := next[b := next[HEAD]];
        prev := prev[b := HEAD];
        prev := prev[next[HEAD] := b];
        next := next[HEAD := b];
        order := [b] + order;
        b := b + 1;
      }
    }

    /** bget's first loop: the buffer naming the block, or HEAD. */
    method FindCached(n: Name) returns (b: nat)
      requires Valid()
      ensures b == HEAD ==> !Cached(n)
      ensures b != HEAD ==> b < NBUF && buf[b].name == n && First(buf, order, b)
    {
      assert next[At(order, -1)] == At(order, 0);
      b := next[HEAD];
      ghost var i := 0;
      while b != HEAD && buf[b].name != n
        invariant 0 <= i <= NBUF && b == At(order, i)
        invariant forall j :: 0 <= j < i ==> buf[order[j]].name != n
        decreases NBUF - i
      {
        b := next[b];
        i := i + 1;
      }
      if b == HEAD {
        forall a | 0 <= a < NBUF ensures buf[a].name != n { assert a in order; }
      }
    }

    /** bget's second loop: the least recently used buffer that may be recycled, or HEAD. */
    method FindVictim() returns (b: nat)
      requires Valid()
      ensures b == HEAD ==> forall a :: 0 <= a < NBUF ==> !buf[a].Recyclable()
      ensures b != HEAD ==> LeastRecent(buf, order, b)
    {
      assert prev[At(order, NBUF)] == At(order, NBUF - 1);
      b := prev[HEAD];
      ghost var i := NBUF - 1;
      while b != HEAD && !buf[b].Recyclable()
        invariant -1 <= i < NBUF && b == At(order, i)
        invariant forall j :: i < j < NBUF ==> !buf[order[j]].Recyclable()
        decreases i
      {
        b := prev[b];
        i := i - 1;
      }
      if b == HEAD {
        forall a | 0 <= a < NBUF ensures !buf[a].Recyclable() { assert a in order; }
      }
    }

    /**
     bget's critical section: a buffer already naming the block gains a reference;
     otherwise a recyclable buffer is renamed. None is the "no buffers" panic.
     */
    method Bget(n: Name) returns (r: Option<nat>)
      requires Valid()
      modifies this`buf
      ensures Valid()
      ensures r.None? ==> buf == old(buf)
      ensures r.None? <==> !old(Cached(n)) && forall b :: 0 <= b < NBUF ==> !old(buf)[b].Recyclable()
      ensures r.Some? ==> r.value < NBUF && buf[r.value].name == n
      ensures r.Some? && old(Cached(n)) ==>
                && old(buf)[r.value].name == n && First(old(buf), order, r.value)
                && buf == old(buf)[r.value := old(buf)[r.value].(refcnt := old(buf)[r.value].refcnt + 1)]
      ensures r.Some? && !old(Cached(n)) ==>
                && LeastRecent(old(buf), order, r.value)
                && buf == old(buf)[r.value := Buf(n, false, false, 1, Unlocked, old(buf)[r.value].data)]
    {
      var b := FindCached(n);
      if b != HEAD {
        PinnedHere(buf, order, store, disk, b);
        UpdateKeeps(buf, order, store, disk, b, buf[b].(refcnt := buf[b].refcnt + 1), store, disk);
        buf := buf[b := buf[b].(refcnt := buf[b].refcnt + 1)];
        return Some(b);
      }
      b := FindVictim();
      if b != HEAD {
        RecycleKeeps(buf, order, store, disk, b, n);
        buf := buf[b := Buf(n, false, false, 1, buf[b].lock, buf[b].data)];
        return Some(b);
      }
      return None;
    }

    /** acquiresleep: takes the lock if it is free; false is a process put to sleep. */
    method AcquireSleep(b: nat, pid: nat) returns (ok: bool)
      requires Valid() && b < NBUF && buf[b].refcnt > 0
      modifies this`buf
      ensures Valid()
      ensures ok <==> old(buf)[b].lock.Unlocked?
      ensures buf == if ok then old(buf)[b := old(buf)[b].(lock := HeldBy(pid))] else old(buf)
    {
      if buf[b].lock.HeldBy? {
        return false;
      }
      PinnedHere(buf, order, store, disk, b);
      UpdateKeeps(buf, order, store, disk, b, buf[b].(lock := HeldBy(pid)), store, disk);
      buf := buf[b := buf[b].(lock := HeldBy(pid))];
      return true;
    }

    /** bread once its buffer is locked: the buffer then holds what the block was left holding. */
    method Fill(b: nat, pid: nat)
      requires Valid() && Held(b, pid)
      modifies this`buf
      ensures Valid()
      ensures buf == old(buf)[b := old(buf)[b].(valid := true, data := buf[b].data)]
      ensures buf[b].data == Read(store, buf[b].name)
    {
      if !buf[b].valid {
        PinnedHere(buf, order, store, disk, b);
        var nb := buf[b].(valid := true, data := Read(disk, buf[b].name));
        UpdateKeeps(buf, order, store, disk, b, nb, store, disk);
        buf := buf[b := nb];
      }
    }

    /** A holder overwrites the data; this is the only way the contents of a block change. */
    method Update(b: nat, pid: nat, data: Block)
      requires Valid() && Held(b, pid) && buf[b].valid
      modifies this`buf, this`store
      ensures Valid()
      ensures buf == old(buf)[b := old(buf)[b].(data := data)]
      ensures store == old(store)[buf[b].name := data]
      ensures forall m :: DirtyIn(buf, m) <==> DirtyIn(old(buf), m)
    {
      DirtyHere(buf, order, store, disk, b);
      DirtyChange(buf, order, store, disk, b, buf[b].(data := data));
      var nb := buf[b].(data := data);
      UpdateKeeps(buf, order, store, disk, b, nb, store[nb.name := data], disk);
      buf := buf[b := nb];
      store := store[nb.name := data];
    }

    /** log_write's mark: the buffer may not be recycled until it has been written. */
    method MarkDirty(b: nat, pid: nat)
      requires Valid() && Held(b, pid) && buf[b].valid
      modifies this`buf
      ensures Valid()
      ensures buf == old(buf)[b := old(buf)[b].(dirty := true)]
    {
      UpdateKeeps(buf, order, store, disk, b, buf[b].(dirty := true), store, disk);
      buf := buf[b := buf[b].(dirty := true)];
    }

    /** bwrite: one block write; the buffer is then clean. */
    method Bwrite(b: nat, pid: nat)
      requires Valid() && Held(b, pid) && buf[b].valid
      modifies this`buf, this`disk, this`trace
      ensures Valid()
      ensures buf == old(buf)[b := old(buf)[b].(dirty := false)]
      ensures disk == old(disk)[buf[b].name := buf[b].data]
      ensures trace == Wrote(old(trace), disk)
      ensures forall m :: DirtyIn(buf, m) <==> DirtyIn(old(buf), m) && m != buf[b].name
    {
      hide DirtyIn;
      var nb := buf[b].(dirty := false);
      forall m ensures DirtyIn(buf[b := nb], m) <==> DirtyIn(buf, m) && m != nb.name {
        DirtyAt(buf, order, store, disk, b, nb, m);
      }
      UpdateKeeps(buf, order, store, disk, b, nb, store, disk[nb.name := nb.data]);
      buf := buf[b := nb];
      disk := disk[nb.name := nb.data];
      trace := Wrote(trace, disk);
    }

    /**
     releasesleep. A holder that changed the data must have marked the buffer dirty or
     written it; otherwise the change could be lost when the buffer is recycled.
     */
    method ReleaseSleep(b: nat, pid: nat)
      requires Valid() && Held(b, pid) && buf[b].valid
      requires buf[b].dirty || Read(disk, buf[b].name) == buf[b].data
      modifies this`buf
      ensures Valid()
      ensures buf == old(buf)[b := old(buf)[b].(lock := Unlocked)]
    {
      var nb := buf[b].(lock := Unlocked);
      UpdateKeeps(buf, order, store, disk, b, nb, store, disk);
      buf := buf[b := nb];
    }

    /** brelse's relinking: unlink b and put it behind the head. */
    method MoveToFront(b: nat, ghost k: nat)
      requires Ring(next, prev, order) && k < |order| && order[k] == b
      modifies this`next, this`prev, this`order
      ensures Ring(next, prev, order)
      ensures order == [b] + Without(old(order), k)
    {
      UnlinkRing(next, prev, order, k);
      ghost var rest := Without(order, k);
      assert b !in rest && next[At(order, k)] == At(order, k + 1);
      prev := prev[next[b] := prev[b]];
      next := next[prev[b] := next[b]];
      LinkRing(next, prev, rest, b);
      next := next[b := next[HEAD]];
      prev := prev[b := HEAD];
      prev := prev[next[HEAD] := b];
      next := next[HEAD := b];
      order := [b] + rest;
    }

    /** The rest of brelse: drop a reference, and on the last one move to the front. */
    method Bput(b: nat)
      requires Valid() && b < NBUF && buf[b].refcnt > 0
      requires buf[b].refcnt == 1 ==> buf[b].lock.Unlocked? // no other process has it
      modifies this`buf, this`next, this`prev, this`order
      ensures Valid()
      ensures buf == old(buf)[b := old(buf)[b].(refcnt := old(buf)[b].refcnt - 1)]
      ensures buf[b].refcnt > 0 ==> order == old(order)
      ensures buf[b].refcnt == 0 ==>
                exists k :: 0 <= k < NBUF && old(order)[k] == b && order == [b] + Without(old(order), k)
    {
      var nb := buf[b].(refcnt := buf[b].refcnt - 1);
      PinnedHere(buf, order, store, disk, b);
      UpdateKeeps(buf, order, store, disk, b, nb, store, disk);
      InUseFirst(buf, order, store, disk, b);
      buf := buf[b := nb];
      if nb.refcnt == 0 {
        assert b in order;
        ghost var k :| 0 <= k < NBUF && order[k] == b;
        FrontKeeps(buf, order, store, disk, k);
        MoveToFront(b, k);
      }
    }

    /** No process is using any buffer. */
    ghost predicate Quiet()
      reads this
    {
      forall b :: 0 <= b < |buf| ==> buf[b].refcnt == 0
    }

    /** Whoever has a buffer locked has not changed it, and it is not dirty. */
    ghost predicate ReadOnly()
      reads this
    {
      ReadersOf(buf, disk)
    }

    /** No process has this block's buffer locked. */
    ghost predicate Unheld(n: Name)
      reads this
    {
      forall b :: 0 <= b < |buf| && buf[b].name == n ==> buf[b].lock.Unlocked?
    }

    /** Some buffer could be recycled. */
    ghost predicate Room()
      reads this
    {
      exists b :: 0 <= b < |buf| && buf[b].Recyclable()
    }

    ghost predicate DirtyBlock(n: Name)
      reads this
    {
      DirtyIn(buf, n)
    }

    /** With only readers about, a block that is not dirty holds on disk what it was left holding. */
    lemma CleanReads(n: Name)
      requires Valid() && ReadOnly() && !DirtyBlock(n)
      ensures Read(store, n) == Read(disk, n)
    {
      if Pinned(buf, n) {
        var b :| 0 <= b < |buf| && buf[b].name == n && buf[b].valid && (buf[b].dirty || buf[b].lock.HeldBy?);
      }
    }

    lemma QuietReadOnly()
      requires Valid() && Quiet()
      ensures ReadOnly() && forall n :: Unheld(n)
    {
    }

    /** A dirty block is then unlocked. */
    lemma DirtyUnheld(n: Name)
      requires Valid() && ReadOnly() && DirtyBlock(n)
      ensures Unheld(n)
    {
      var a :| 0 <= a < |buf| && buf[a].name == n && buf[a].dirty;
      forall b | 0 <= b < |buf| && buf[b].name == n ensures buf[b].lock.Unlocked? {
        if buf[b].lock.HeldBy? { OneBufferPerBlock(buf, order, store, disk, a, b); }
      }
    }

    /** bread, on a block no other process has locked. */
    method Bread(n: Name, pid: nat) returns (r: Option<nat>)
      requires Valid() && Unheld(n)
      modifies this`buf
      ensures Valid()
      ensures r.None? ==> buf == old(buf)
      ensures r.None? <==> !old(Cached(n)) && forall b :: 0 <= b < NBUF ==> !old(buf)[b].Recyclable()
      ensures r.Some? ==>
                && r.value < NBUF && old(buf)[r.value].lock.Unlocked?
                && (old(buf)[r.value].name == n || LeastRecent(old(buf), order, r.value))
                && buf == old(buf)[r.value := buf[r.value]]
                && buf[r.value] == Buf(n, true, DirtyIn(old(buf), n), old(buf)[r.value].refcnt + 1, HeldBy(pid),
                                       Read(store, n))
                && (forall m :: DirtyIn(buf, m) <==> DirtyIn(old(buf), m))
    {
      ghost var was := buf;
      r := Bget(n);
      if r.Some? {
        var ok := AcquireSleep(r.value, pid);
        Fill(r.value, pid);
        if old(Cached(n)) {
          DirtyHere(was, order, store, disk, r.value);
          DirtyChange(was, order, store, disk, r.value, buf[r.value]);
        } else {
          DirtyRename(was, r.value, buf[r.value]);
        }
      }
    }

    method Brelse(b: nat, pid: nat)
      requires Valid() && Held(b, pid) && buf[b].valid
      requires buf[b].dirty || Read(disk, buf[b].name) == buf[b].data
      modifies this`buf, this`next, this`prev, this`order
      ensures Valid()
      ensures buf == old(buf)[b := old(buf)[b].(lock := Unlocked, refcnt := old(buf)[b].refcnt - 1)]
      ensures forall m :: DirtyIn(buf, m) <==> DirtyIn(old(buf), m)
    {
      DirtyHere(buf, order, store, disk, b);
      DirtyChange(buf, order, store, disk, b, buf[b].(lock := Unlocked, refcnt := buf[b].refcnt - 1));
      ReleaseSleep(b, pid);
      Bput(b);
    }

    /** A holder changes the data, writes the block and releases the buffer. */
    method WriteOut(b: nat, pid: nat, data: Block)
      requires Valid() && Held(b, pid) && buf[b].valid
      modifies this
      ensures Valid()
      ensures buf == old(buf)[b := old(buf)[b].(data := data, dirty := false, lock := Unlocked,
                                                refcnt := old(buf)[b].refcnt - 1)]
      ensures store == old(store)[buf[b].name := data]
      ensures disk == old(disk)[buf[b].name := data]
      ensures trace == Wrote(old(trace), disk)
      ensures forall m :: DirtyIn(buf, m) <==> DirtyIn(old(buf), m) && m != buf[b].name
    {
      Update(b, pid, data);
      Bwrite(b, pid);
      Brelse(b, pid);
    }
  }
}
