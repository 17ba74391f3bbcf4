/**
 The virtual memory operations of vm.c over the page allocator of kalloc.c.

 `free` is the free list, head first. `tables` holds the pages that serve as directories and
 page tables, `data` the contents of the others. The directories in use are `spaces`.
 */
module Vm {
  import opened VmSpec
  import opened Options

  /** The pages that are free or owned are the same ones. */
  ghost predicate SameFrames(free: seq<nat>, owner: map<nat, Use>, free': seq<nat>, owner': map<nat, Use>) {
    forall f: nat :: f in free' || f in owner' <==> f in free || f in owner
  }

  /** Only page tables of d have been added. */
  ghost predicate TabsOnly(owner: map<nat, Use>, owner': map<nat, Use>, d: nat) {
    && (forall f :: f in owner ==> f in owner' && owner'[f] == owner[f])
    && (forall f :: f in owner' && f !in owner ==> owner'[f].Tab? && owner'[f].d == d)
  }

  ghost predicate SameLookups(t: Tables, t': Tables, spaces: set<nat>) {
    forall d: nat, w: nat :: d in spaces && w < NPAGES ==> Lookup(t', d, w) == Lookup(t, d, w)
  }

  datatype Mapping = Mapped | NoMemory | Remap

  class Memory {
    const lo: nat
    const hi: nat
    const kdata: nat // the page of the linker's symbol `data`
    var free: seq<nat>
    var tables: Tables
    var data: map<nat, Page>
    ghost var spaces: set<nat>
    ghost var owner: map<nat, Use>

    ghost predicate Valid()
      reads this
    {
      Core(lo, hi, free, tables, spaces, owner)
    }

    constructor (lo: nat, hi: nat, kdata: nat)
      requires lo > 0
      ensures Valid() && free == [] && spaces == {} && owner == map[]
      ensures this.lo == lo && this.hi == hi && this.kdata == kdata
    {
      this.lo, this.hi, this.kdata := lo, hi, kdata;
      free, tables, data := [], map[], map[];
      spaces, owner := {}, map[];
    }

    /** freerange: every whole page from a up to b, in bytes, goes on the free list. */
    method Freerange(a: nat, b: nat)
      requires Valid() && lo <= PageUp(a) && b <= hi * PGSIZE
      requires forall f: nat :: PageUp(a) <= f && (f + 1) * PGSIZE <= b ==> f !in free && f !in owner
      modifies this`free, this`data
      ensures Valid()
      ensures forall f: nat :: f in free <==> f in old(free) || (PageUp(a) <= f && (f + 1) * PGSIZE <= b)
    {
      hide Core, PageUp;
      PageUpIs(a);
      var p := (a + PGSIZE - 1) / PGSIZE * PGSIZE;
      while p + PGSIZE <= b
        invariant p % PGSIZE == 0 && PageUp(a) <= p / PGSIZE && Valid()
        invariant forall f: nat :: f in free <==>
                    f in old(free) || (PageUp(a) <= f < p / PGSIZE && (f + 1) * PGSIZE <= b)
        decreases b - p
      {
        ghost var v, free1 := p / PGSIZE, free;
        HandFree(lo, hi, free, tables, spaces, owner, v);
        var ok := Kfree(p / PGSIZE);
        assert ok;
        assert forall f :: f in free <==> f == v || f in free1;
        p := p + PGSIZE;
      }
    }

    /** kalloc takes the head of the free list. */
    method Kalloc() returns (r: Option<nat>)
      modifies this`free
      ensures r.None? ==> free == old(free) == []
      ensures r.Some? ==> old(free) == [r.value] + free
    {
      if |free| == 0 {
        return None;
      }
      r := Some(free[0]);
      free := free[1..];
    }

    /** kfree puts the page at the head, filled with junk; it panics on a page that is not
        the allocator's. */
    method Kfree(f: nat) returns (ok: bool)
      modifies this`free, this`data
      ensures ok <==> lo <= f < hi
      ensures ok ==> free == [f] + old(free) && data == old(data)[f := JUNK]
      ensures !ok ==> free == old(free) && data == old(data)
    {
      if f < lo || f >= hi {
        return false;
      }
      data := data[f := JUNK];
      free := [f] + free;
      ok := true;
    }

    /** walkpgdir: the page table for page v. Making one changes no translation. */
    method Walk(d: nat, v: nat, alloc: bool) returns (pt: Option<nat>)
      requires Valid() && d in spaces && v < NPAGES
      modifies this`free, this`tables, this`owner
      ensures Valid() && SameLookups(old(tables), tables, spaces)
      ensures SameFrames(old(free), old(owner), free, owner) && TabsOnly(old(owner), owner, d)
      ensures pt.Some? ==> HasTable(tables, d, v, pt.value)
      ensures HasEntry(old(tables), d, v) || !alloc ==>
                free == old(free) && tables == old(tables) && owner == old(owner)
      ensures pt.None? <==> !HasEntry(old(tables), d, v) && (alloc ==> old(free) == [])
      ensures pt.None? ==> tables == old(tables) && free == old(free) && owner == old(owner)
      ensures forall f :: f in free ==> f in old(free)
      ensures Took(old(tables), |old(free)|, tables, |free|, d, if pt.Some? then {v / NENT} else {}, 0)
    {
      hide Core, Lookup, AddTable, Tabs, Took;
      TookNothing(tables, |free|, d, v);
      CoreHas(lo, hi, free, tables, spaces, owner);
      var pde := tables[d][v / NENT];
      if pde.Present() {
        DirTable(tables, spaces, owner, d, v);
        return Some(pde.frame);
      }
      if !alloc {
        return None;
      }
      var r := Kalloc();
      if r.None? {
        return None;
      }
      TakeFirst(lo, hi, old(free), tables, spaces, owner, r.value, free);
      AddTableOk(lo, hi, free, tables, spaces, owner, d, v / NENT, r.value);
      AddTableHas(tables, d, v, r.value);
      OneTabMore(tables, d, v / NENT, r.value, |old(free)|);
      tables := AddTable(tables, d, v / NENT, r.value);
      owner := owner[r.value := Tab(d, v / NENT)];
      pt := r;
    }

    /** A page taken from the allocator and not yet used. */
    ghost predicate InHand(f: nat)
      reads this
    {
      lo <= f < hi && f !in free && f !in owner
    }

    /** One trip of mappages' loop. A user page becomes the owner of v; above KERNBASE nothing does. */
    method MapOne(d: nat, v: nat, f: nat, perm: nat) returns (r: Mapping)
      requires Valid() && d in spaces && v < NPAGES && (v < UPAGES ==> InHand(f))
      modifies this`free, this`tables, this`owner
      ensures Valid() && (r.Remap? <==> Lookup(old(tables), d, v).Present()) && (r.NoMemory? ==> free == [])
      ensures !r.Mapped? ==> SameLookups(old(tables), tables, spaces)
      ensures r.Mapped? ==> OneLookup(old(tables), tables, spaces, d, v, Pte(f, WithP(perm)))
      ensures r.Mapped? && v < UPAGES ==> f in owner && owner[f] == User(d, v)
      ensures var tabs := if r.Mapped? && v < UPAGES then owner - {f} else owner;
              TabsOnly(old(owner), tabs, d) && SameFrames(old(free), old(owner), free, tabs)
      ensures forall x :: x in free ==> x in old(free)
      ensures Took(old(tables), |old(free)|, tables, |free|, d, if r.Mapped? then {v / NENT} else {}, 0)
      ensures r.NoMemory? ==> v / NENT !in Tabs(tables, d)
    {
      hide Core, Lookup, OneEntry, SetEntry, Tabs, Took, HasEntry;
      HasTab(tables, d, v);
      if !HasEntry(tables, d, v) { NoEntryNoPage(tables, d, v); } else { TookNothing(tables, |free|, d, v); }
      var w := Walk(d, v, true);
      CoreHas(lo, hi, free, tables, spaces, owner);
      if w.None? {
        NoEntryNoPage(tables, d, v);
        return NoMemory;
      }
      var pt := w.value;
      EntryIs(tables, d, v, pt);
      if tables[pt][v % NENT].Present() {
        return Remap;
      }
      ghost var t, e := tables, Pte(f, WithP(perm));
      SetOne(tables, spaces, owner, d, v, pt, e);
      OneEntryLookup(old(tables), t, SetEntry(tables, pt, v, e), spaces, d, v, e);
      TookSame(old(tables), |old(free)|, t, SetEntry(tables, pt, v, e), |free|, d, {v / NENT});
      tables := SetEntry(tables, pt, v, Pte(f, WithP(perm)));
      if v < UPAGES {
        MapUser(lo, hi, free, t, tables, spaces, owner, d, v, f, WithP(perm));
        assert owner[f := User(d, v)] - {f} == owner;
        owner := owner[f := User(d, v)];
      } else {
        MapKernel(lo, hi, free, t, tables, spaces, owner, d, v, e);
      }
      r := Mapped;
    }

    /** mappages: the pages that va up to va + size touch map to consecutive physical pages from
        pa. It stops at a page that is mapped already (a panic) or when there is no memory for a
        page table; the pages before `stop` are then mapped. */
    method Mappages(d: nat, va: nat, size: nat, pa: nat, perm: nat) returns (r: Mapping, ghost stop: nat)
      requires Valid() && d in spaces && size > 0 && va + size <= 0x1_0000_0000 && pa % PGSIZE == 0
      requires UPAGES <= va / PGSIZE || (va / PGSIZE == (va + size - 1) / PGSIZE && InHand(pa / PGSIZE))
      modifies this`free, this`tables, this`owner
      ensures Valid() && va / PGSIZE <= stop <= (va + size - 1) / PGSIZE + 1
      ensures r.Mapped? <==> stop == (va + size - 1) / PGSIZE + 1
      ensures RangeLookup(old(tables), tables, spaces, d, va / PGSIZE, stop, pa / PGSIZE, WithP(perm))
      ensures r.Remap? ==> Lookup(old(tables), d, stop).Present()
      ensures r.NoMemory? ==> free == [] && stop / NENT !in Tabs(tables, d)
      ensures r.Mapped? && va / PGSIZE < UPAGES ==> pa / PGSIZE in owner && owner[pa / PGSIZE] == User(d, va / PGSIZE)
      ensures var tabs := if r.Mapped? && va / PGSIZE < UPAGES then owner - {pa / PGSIZE} else owner;
              TabsOnly(old(owner), tabs, d) && SameFrames(old(free), old(owner), free, tabs)
      ensures forall x :: x in free ==> x in old(free)
      ensures Tabled(old(tables), |old(free)|, tables, |free|, d, va / PGSIZE, stop)
    {
      hide Core, Lookup, RangeLookup, OneLookup, SameLookups, HasEntry, SameFrames, TabsOnly, Tabs, Tabled, Took;
      var first, last := va / PGSIZE, (va + size - 1) % 0x1_0000_0000 / PGSIZE;
      var v, f := first, pa / PGSIZE;
      RangeStart(tables, spaces, d, first, pa / PGSIZE, WithP(perm));
      NothingKept(free, owner, d);
      TabledStart(tables, |free|, d, first);
      while true
        invariant Valid() && first <= v <= last && f == pa / PGSIZE + (v - first)
        invariant first < UPAGES ==> v == first && free == old(free) && tables == old(tables) && owner == old(owner)
        invariant RangeLookup(old(tables), tables, spaces, d, first, v, pa / PGSIZE, WithP(perm))
        invariant TabsOnly(old(owner), owner, d) && SameFrames(old(free), old(owner), free, owner)
        invariant forall x :: x in free ==> x in old(free)
        invariant Tabled(old(tables), |old(free)|, tables, |free|, d, first, v)
        decreases last - v
      {
        ghost var t, free1, owner1 := tables, free, owner;
        stop := v;
        r := MapOne(d, v, f, perm);
        TabledStep(old(tables), |old(free)|, t, |free1|, tables, |free|, d, first, v, r);
        RangeStep(old(tables), t, tables, spaces, d, first, v, pa / PGSIZE, WithP(perm), r);
        KeptStep(old(free), old(owner), free1, owner1, free, if r.Mapped? && v < UPAGES then owner - {f} else owner, d);
        if !r.Mapped? {
          return;
        }
        stop := v + 1;
        if v == last {
          break;
        }
        v, f := v + 1, f + 1;
      }
    }

    ghost function Now(): Mem
      reads this
    {
      Mem(free, tables, data)
    }

    /** The body of deallocuvm's loop, but for the jump where there is no page table. */
    method UnmapPage(d: nat, v: nat) returns (present: bool)
      requires Valid() && d in spaces && v < UPAGES
      modifies this`free, this`tables, this`data, this`owner
      ensures Valid() && d in tables && (present <==> HasEntry(old(tables), d, v))
      ensures present ==> Now() == Unmap(old(Now()), d, v)
      ensures !present ==> Now() == old(Now())
    {
      hide Core, Lookup, Unmapped, Less, SetEntry, Took;
      CoreHas(lo, hi, free, tables, spaces, owner);
      UnmapOk(lo, hi, Now(), spaces, owner, d, v);
      var pt := Walk(d, v, false);
      present := pt.Some?;
      if present {
        EntryIs(tables, d, v, pt.value);
        if tables[pt.value][v % NENT].Present() {
          UserPage(lo, hi, free, tables, spaces, owner, d, v);
          var ok := Kfree(tables[pt.value][v % NENT].frame);
          assert ok;
          tables := SetEntry(tables, pt.value, v, NONE);
        }
        owner := Less(owner, d, v, v + 1);
        CoreHas(lo, hi, free, tables, spaces, owner);
      }
    }

    /** deallocuvm leaves memory as if every page from newsz up to oldsz had been visited, although
        it jumps over the range of an absent page table. */
    method Deallocuvm(d: nat, oldsz: nat, newsz: nat) returns (r: nat)
      requires Valid() && d in spaces && oldsz <= KERNBASE
      modifies this`free, this`tables, this`data, this`owner
      ensures Valid() && r == if newsz >= oldsz then oldsz else newsz
      ensures PageUp(oldsz) <= UPAGES && Now() == UnmapAll(old(Now()), d, PageUp(newsz), PageUp(oldsz))
      ensures Unmapped(old(Now()), Now(), spaces, old(owner), d, PageUp(newsz), PageUp(oldsz))
      ensures owner == Less(old(owner), d, PageUp(newsz), PageUp(oldsz))
    {
      hide Core, UnmapAll, Unmap, Unmapped, Less, PageUp;
      PageUpIs(newsz);
      PageUpIs(oldsz);
      ghost var m, v0, end := Now(), PageUp(newsz), PageUp(oldsz);
      UnmapAllOk(lo, hi, m, spaces, owner, d, v0, end);
      if newsz >= oldsz {
        NoUnmap(m, d, v0, end);
        owner := Less(owner, d, v0, end);
        return oldsz;
      }
      var a := (newsz + PGSIZE - 1) / PGSIZE * PGSIZE;
      while a < oldsz
        invariant a % PGSIZE == 0 && Valid() && UnmapAll(Now(), d, a / PGSIZE, end) == UnmapAll(m, d, v0, end)
        decreases oldsz - a
      {
        var v := a / PGSIZE;
        PageBelow(a, oldsz);
        UnmapUnfold(Now(), d, v, end);
        var present := UnmapPage(d, v);
        if !present {
          Jump(Now(), d, v, end);
          NextGroup(v);
          a := (v / NENT + 1) * NENT * PGSIZE - PGSIZE;
        }
        a := a + PGSIZE;
      }
      NoUnmap(Now(), d, a / PGSIZE, end);
      owner := Less(old(owner), d, v0, end);
      r := newsz;
    }

    /** freevm's loop over the directory. */
    method FreeTables(d: nat)
      requires Valid() && d in spaces
      modifies this`free, this`data
      ensures FreedTabs(old(free), free, owner, d, NENT)
      ensures forall f: nat :: f !in free ==> PageAt(data, f) == PageAt(old(data), f)
    {
      hide Core, FreedTabs;
      CoreHas(lo, hi, free, tables, spaces, owner);
      FreedStart(lo, hi, free, tables, spaces, owner, d);
      var i := 0;
      while i < NENT
        invariant 0 <= i <= NENT && FreedTabs(old(free), free, owner, d, i)
        invariant forall f: nat :: f !in free ==> PageAt(data, f) == PageAt(old(data), f)
      {
        FreedStep(lo, hi, old(free), free, tables, spaces, owner, d, i);
        if tables[d][i].Present() {
          ghost var free2 := free;
          var ok := Kfree(tables[d][i].frame);
          assert ok;
          assert forall f :: f in free <==> f == tables[d][i].frame || f in free2;
        }
        i := i + 1;
      }
    }

    /** freevm: every page of the address space (user pages, page tables, directory) is on the
        free list, once, and the other address spaces keep theirs. */
    method Freevm(d: nat)
      requires Valid() && d in spaces
      modifies this
      ensures Valid() && spaces == old(spaces) - {d} && owner == Without(old(owner), d)
      ensures forall f: nat :: f in free <==> f in old(free) || (f in old(owner) && old(owner)[f].d == d)
      ensures SameLookups(old(tables), tables, spaces)
      ensures forall f: nat :: f !in free ==> PageAt(data, f) == PageAt(old(data), f)
    {
      hide Core, Lookup, UnmapAll, Unmapped, Less, Without, FreedTabs, PageUp, SameLookups;
      CoreHas(lo, hi, free, tables, spaces, owner);
      PageUpEnds();
      var r := Deallocuvm(d, KERNBASE, 0);
      ghost var m1 := Now();
      LessAll(old(owner), spaces, d, 0, UPAGES, old(tables));
      FreeTables(d);
      FreedEnd(lo, hi, m1.free, free, tables, spaces, owner, d);
      ghost var free2 := free;
      var ok := Kfree(d);
      assert ok;
      FreevmDone(old(Now()), m1, Now(), free2, spaces, old(owner), d);
      spaces := spaces - {d};
      owner := Without(owner, d);
    }

    /** One page for allocuvm or copyuvm: taken, given its contents and mapped. */
    method GrowPage(d: nat, v: nat, page: Page, perm: nat) returns (r: Grow)
      requires Valid() && d in spaces && v < UPAGES && !Lookup(tables, d, v).Present()
      modifies this`free, this`tables, this`data, this`owner
      ensures Valid() && SamePages(old(data), data, old(owner))
      ensures r.Got? ==>
                PageAt(data, r.f) == page && OneLookup(old(tables), tables, spaces, d, v, Pte(r.f, WithP(perm)))
      ensures r.Got? ==> r.f in owner && owner[r.f] == User(d, v) && TabsOnly(old(owner), owner - {r.f}, d)
      ensures r.Got? ==> SameFrames(old(free), old(owner), free, owner)
      ensures r.Got? ==> Took(old(tables), |old(free)|, tables, |free|, d, {v / NENT}, 1)
      ensures !r.Got? ==> SameLookups(old(tables), tables, spaces) && TabsOnly(old(owner), owner, d)
      ensures !r.Got? ==> Short(old(tables), |old(free)|, d, v)
      ensures !r.Got? ==> SameFrames(old(free), old(owner), Hand(r) + free, owner) && (r.NoTable? ==> InHand(r.f))
    {
      hide Core, Lookup, OneLookup, RangeLookup, SameLookups, TabsOnly, Tabs, Took, Short, Tabled;
      var mem := Kalloc();
      if mem.None? {
        SameLooked(tables, spaces);
        NoneLeft(tables, d, v);
        NothingKept(free, owner, d);
        return NoPage;
      }
      var f := mem.value;
      TakeFirst(lo, hi, old(free), tables, spaces, owner, f, free);
      data := data[f := page];
      ghost var free1, owner1 := free, owner;
      PageNumbers(v);
      PageNumbers(f);
      var m, stop := Mappages(d, v * PGSIZE, PGSIZE, f * PGSIZE, perm);
      RangeOne(old(tables), tables, spaces, d, v, stop, f, WithP(perm));
      OnePage(old(tables), |old(free)|, tables, |free|, d, v, stop, m);
      OldStay(owner1, if m.Mapped? then owner - {f} else owner, d);
      if m.Mapped? {
        FramesMove(old(free), owner1, f, free1, free, owner);
        return Got(f);
      }
      FramesHand(old(free), owner1, f, free1, free, owner);
      r := NoTable(f);
    }

    /** allocuvm's two ways out when memory runs out at page v; m0 is the state it found, m the one
        before that page. */
    method GiveUp(d: nat, oldsz: nat, newsz: nat, g: Grow,
                  ghost m0: Mem, ghost owner0: map<nat, Use>, ghost m: Mem, ghost owner1: map<nat, Use>, ghost v: nat)
      requires Valid() && d in spaces && !g.Got? && (g.NoTable? ==> InHand(g.f)) && oldsz <= newsz < KERNBASE
               && v <= PageUp(newsz)
      requires Core(lo, hi, m0.free, m0.tables, spaces, owner0)
      requires Grown(m0, owner0, m, owner1, spaces, d, PageUp(oldsz), v)
      requires forall w: nat :: PageUp(oldsz) <= w < PageUp(newsz) && w < NPAGES ==> !Lookup(m0.tables, d, w).Present()
      requires SameLookups(m.tables, tables, spaces) && TabsOnly(owner1, owner, d) && SamePages(m.data, data, owner1)
      requires SameFrames(m.free, owner1, Hand(g) + free, owner)
      modifies this`free, this`tables, this`data, this`owner
      ensures Valid() && GaveUp(m0, owner0, Now(), owner, spaces, d)
    {
      hide Core, Lookup, Grown, Unmapped, UnmapAll, Less, SameMapped, SameFrames, TabsOnly, PageUp, SameLookups,
           SamePages;
      ghost var m1, owner2, v0, end := Now(), owner, PageUp(oldsz), PageUp(newsz);
      PageUpIs(newsz);
      CoreHas(lo, hi, m0.free, m0.tables, spaces, owner0);
      var z := Deallocuvm(d, newsz, oldsz);
      ghost var m2 := Now();
      GrownTabs(m0, owner0, m, owner1, owner2, spaces, d, v0, v, end);
      GrownFrames(m0, owner0, m, owner1, m1, owner2, m2, spaces, d, v0, v, end, Hand(g));
      GrownPages(lo, hi, m0, owner0, m, owner1, m1, owner2, m2, spaces, d, v0, v, end);
      if g.NoTable? {
        HandStays(lo, hi, m1, m2, spaces, owner2, d, v0, end, g.f);
        HandPage(m0, owner0, m, owner1, owner2, spaces, d, v0, v, m2.data, g.f);
        var ok := Kfree(g.f);
        assert ok;
      } else {
        assert Hand(g) + free == free;
      }
    }

    /** One trip of allocuvm's loop: page v is taken, cleared and mapped, or everything is given back. */
    method AllocPage(d: nat, v: nat, oldsz: nat, newsz: nat, ghost m0: Mem, ghost owner0: map<nat, Use>)
        returns (ok: bool)
      requires Valid() && d in spaces && oldsz <= newsz < KERNBASE && PageUp(oldsz) <= v < PageUp(newsz) <= UPAGES
      requires Core(lo, hi, m0.free, m0.tables, spaces, owner0)
      requires Grown(m0, owner0, Now(), owner, spaces, d, PageUp(oldsz), v)
      requires forall w: nat :: PageUp(oldsz) <= w < PageUp(newsz) && w < NPAGES ==> !Lookup(m0.tables, d, w).Present()
      requires Paid(m0.tables, |m0.free|, tables, |free|, d, PageUp(oldsz), v)
      modifies this`free, this`tables, this`data, this`owner
      ensures Valid()
      ensures ok ==> Grown(m0, owner0, Now(), owner, spaces, d, PageUp(oldsz), v + 1)
                     && Paid(m0.tables, |m0.free|, tables, |free|, d, PageUp(oldsz), v + 1)
      ensures !ok ==> GaveUp(m0, owner0, Now(), owner, spaces, d)
                      && |m0.free| < Cost(m0.tables, d, PageUp(oldsz), PageUp(newsz))
    {
      hide Core, Lookup, Grown, Unmapped, UnmapAll, Less, SameMapped, SameFrames, TabsOnly, PageUp, OneLookup,
           SameLookups, GaveUp, Paid, Cost, Tabs, Took, Short;
      ghost var v0, m, owner1 := PageUp(oldsz), Now(), owner;
      GrownHas(m0, owner0, m, owner, spaces, d, v0, v);
      CoreHas(lo, hi, free, tables, spaces, owner);
      var g := GrowPage(d, v, ZEROES, PTE_W + PTE_U);
      if !g.Got? {
        PaidShort(m0.tables, |m0.free|, m.tables, |m.free|, d, v0, v, PageUp(newsz));
        GiveUp(d, oldsz, newsz, g, m0, owner0, m, owner1, v);
        return false;
      }
      PaidMore(m0.tables, |m0.free|, m.tables, |m.free|, tables, |free|, d, v0, v);
      GrownStep(m0, owner0, m, owner1, Now(), owner, spaces, d, v0, v, g.f);
      ok := true;
    }

    /** allocuvm. On success the pages from oldsz up to newsz are new, cleared and writable by the
        user. When memory runs out every translation is as before and every page it took is free
        again, except page tables, which stay in the directory. */
    method Allocuvm(d: nat, oldsz: nat, newsz: nat) returns (r: nat, ghost failed: bool)
      requires Valid() && d in spaces
      requires newsz < KERNBASE ==> forall v: nat :: PageUp(oldsz) <= v < PageUp(newsz) && v < NPAGES ==>
                 !Lookup(tables, d, v).Present()
      modifies this`free, this`tables, this`data, this`owner
      ensures Valid() && SameFrames(old(free), old(owner), free, owner)
      ensures newsz >= KERNBASE ==> r == 0 && unchanged(this)
      ensures newsz < oldsz && newsz < KERNBASE ==> r == oldsz && unchanged(this) && !failed
      ensures oldsz <= newsz < KERNBASE && !failed ==>
                r == newsz && Grown(old(Now()), old(owner), Now(), owner, spaces, d, PageUp(oldsz), PageUp(newsz))
      ensures oldsz <= newsz < KERNBASE && !failed ==> Cleared(Now(), d, PageUp(oldsz), PageUp(newsz))
      ensures failed && newsz < KERNBASE ==> r == 0 && GaveUp(old(Now()), old(owner), Now(), owner, spaces, d)
      ensures oldsz <= newsz < KERNBASE ==>
                (failed <==> |old(free)| < Cost(old(tables), d, PageUp(oldsz), PageUp(newsz)))
    {
      hide Core, Lookup, Grown, Unmapped, UnmapAll, Less, SameMapped, SameFrames, TabsOnly, PageUp, OneLookup,
           SameLookups, Cost, Tabs;
      failed := false;
      if newsz >= KERNBASE {
        NothingKept(free, owner, d);
        return 0, true;
      }
      if newsz < oldsz {
        NothingKept(free, owner, d);
        return oldsz, false;
      }
      PageUpIs(oldsz);
      PageUpIs(newsz);
      ghost var m0, v0, end := Now(), PageUp(oldsz), PageUp(newsz);
      CoreHas(lo, hi, free, tables, spaces, owner);
      GrownStart(m0, owner, spaces, d, v0);
      PaidNothing(tables, |free|, d, v0);
      var a := (oldsz + PGSIZE - 1) / PGSIZE * PGSIZE;
      while a < newsz
        invariant a % PGSIZE == 0 && v0 <= a / PGSIZE <= end && Valid()
        invariant Grown(m0, old(owner), Now(), owner, spaces, d, v0, a / PGSIZE)
        invariant Paid(m0.tables, |m0.free|, tables, |free|, d, v0, a / PGSIZE)
      {
        PageBelow(a, newsz);
        var ok := AllocPage(d, a / PGSIZE, oldsz, newsz, m0, old(owner));
        if !ok {
          return 0, true;
        }
        a := a + PGSIZE;
      }
      GrownHas(m0, old(owner), Now(), owner, spaces, d, v0, end);
      NewPages(lo, hi, m0, old(owner), Now(), owner, spaces, d, v0, end);
      r := newsz;
    }

    /** The failure exits of setupkvm and copyuvm: the new address space d is freed, and all is as
        in m, before it was made. */
    method Undo(d: nat, ghost m: Mem, ghost spaces0: set<nat>, ghost owner0: map<nat, Use>)
      requires Valid() && d in spaces && d !in spaces0 && spaces == spaces0 + {d} && OwnersOf(owner0, owner, d)
      requires Core(lo, hi, m.free, m.tables, spaces0, owner0)
      requires SameFrames(m.free, owner0, free, owner) && SamePages(m.data, data, owner0)
               && SameLookups(m.tables, tables, spaces0)
      modifies this
      ensures Valid() && spaces == spaces0 && owner == owner0
      ensures SameFrames(m.free, owner0, free, owner) && SamePages(m.data, data, owner0)
              && SameLookups(m.tables, tables, spaces0)
    {
      hide Core, Lookup, SameFrames, SamePages, SameLookups, OwnersOf, Without;
      ghost var m1, owner1 := Now(), owner;
      Freevm(d);
      assert spaces == spaces0;
      GivenBack(lo, hi, m, m1, Now(), spaces0, owner0, owner1, d);
    }

    /** setupkvm: a new address space that maps the kernel as every one does, and no user page. When
        memory runs out everything it took is given back. */
    method Setupkvm() returns (r: Option<nat>)
      requires Valid() && KDATA_MIN < kdata < KDATA_MAX
      modifies this
      ensures Valid() && SameFrames(old(free), old(owner), free, owner) && SamePages(old(data), data, old(owner))
      ensures SameLookups(old(tables), tables, old(spaces))
      ensures r.None? <==> |old(free)| < 65
      ensures r.None? ==> spaces == old(spaces) && owner == old(owner)
      ensures r.Some? ==>
                r.value !in old(spaces) && spaces == old(spaces) + {r.value} && OwnersOf(old(owner), owner, r.value)
      ensures r.Some? ==> KernUpTo(tables, r.value, kdata, 4) && |free| == |old(free)| - 65
      ensures r.Some? ==> |Tabs(tables, r.value)| == 64 && forall i :: i in Tabs(tables, r.value) ==> i >= 512
      ensures r.Some? ==> KernelSeen(tables, r.value, kdata, 0)
    {
      hide Core, Lookup, SameFrames, SamePages, SameLookups, OwnersOf, KernUpTo, RangeLookup, Without, Tabs, Tabled,
           KernPaid;
      var mem := Kalloc();
      if mem.None? {
        AllSame(free, owner, data, tables, spaces);
        return None;
      }
      var d := mem.value;
      NewSpace(lo, hi, old(free), free, tables, spaces, owner, d, kdata);
      AllSame(free, owner, data, tables, spaces);
      tables := tables[d := ZERO_TABLE];
      spaces, owner := spaces + {d}, owner[d := Dir(d)];
      KernFirst(tables, |free| + 1, d, kdata);
      var k := 0;
      while k < 4
        invariant 0 <= k <= 4 && Valid() && spaces == old(spaces) + {d} && data == old(data)
        invariant SameFrames(old(free), old(owner), free, owner) && OwnersOf(old(owner), owner, d)
        invariant SameLookups(old(tables), tables, old(spaces)) && KernUpTo(tables, d, kdata, k)
        invariant KernPaid(tables, |free| + 1, d, kdata, k, |old(free)|)
      {
        var e := Kmaps(kdata)[k];
        ghost var t, free1, owner1 := tables, free, owner;
        KmapIs(kdata, k);
        var m, stop := Mappages(d, e.virt, (e.end - e.start) % 0x1_0000_0000, e.start, e.perm);
        KernNext(t, tables, spaces, d, kdata, k, stop, WithP(e.perm));
        RangeOthers(old(tables), t, tables, old(spaces), spaces, d, KStart(kdata, k), stop, KFrame(kdata, k),
                    WithP(e.perm));
        OwnersMore(old(free), old(owner), free1, owner1, free, owner, d);
        if !m.Mapped? {
          assert m.NoMemory?;
          KernShort(t, |free1|, tables, |free|, d, kdata, k, stop, |old(free)|);
          Undo(d, old(Now()), old(spaces), old(owner));
          return None;
        }
        KernMore(t, |free1|, tables, |free|, d, kdata, k, |old(free)|);
        k := k + 1;
      }
      KernLast(tables, |free|, d, kdata, |old(free)|);
      KernelAll(tables, d, kdata);
      EntriesSeen(lo, hi, free, tables, spaces, owner, d, kdata, 0);
      r := Some(d);
    }

    /** copyuvm's way out when memory runs out; m0 is the state it found, m the one before the page
        that it could not copy. */
    method CopyBad(d: nat, g: Grow, ghost m0: Mem, ghost spaces0: set<nat>, ghost owner0: map<nat, Use>,
                   ghost m: Mem, ghost owner1: map<nat, Use>)
      requires Valid() && d !in spaces0 && spaces == spaces0 + {d} && Core(lo, hi, m0.free, m0.tables, spaces0, owner0)
      requires !g.Got? && (g.NoTable? ==> InHand(g.f)) && OwnersOf(owner0, owner1, d) && TabsOnly(owner1, owner, d)
      requires SameFrames(m0.free, owner0, m.free, owner1) && SameFrames(m.free, owner1, Hand(g) + free, owner)
      requires SamePages(m0.data, m.data, owner0) && SamePages(m.data, data, owner1)
      requires SameLookups(m0.tables, m.tables, spaces0) && SameLookups(m.tables, tables, spaces)
      modifies this
      ensures Valid() && spaces == spaces0 && owner == owner0
      ensures SameFrames(m0.free, owner0, free, owner) && SamePages(m0.data, data, owner0)
              && SameLookups(m0.tables, tables, spaces0)
    {
      hide Core, Lookup, SameFrames, SamePages, SameLookups, OwnersOf, TabsOnly;
      OwnersMore(m0.free, owner0, m.free, owner1, Hand(g) + free, owner, d);
      PagesMore(m0.data, m.data, data, owner0, owner1, d);
      LookupsMore(m0.tables, m.tables, tables, spaces0, spaces);
      if g.NoTable? {
        HandFree(lo, hi, free, tables, spaces, owner, g.f);
        HandOld(m0.data, data, owner0, owner, d, g.f);
        var ok := Kfree(g.f);
        assert ok;
      } else {
        assert Hand(g) + free == free;
      }
      Undo(d, m0, spaces0, owner0);
    }

    /** copyuvm: the child has, on every page below sz, the parent's contents and flags, in pages of
        its own, and no other user page. On failure every page it took is given back. It panics
        only if a page below sz is missing. */
    method Copyuvm(p: nat, sz: nat) returns (r: Copy)
      requires Valid() && p in spaces && sz <= KERNBASE && KDATA_MIN < kdata < KDATA_MAX
      modifies this
      ensures r.Panicked? ==> exists v: nat :: v < PageUp(sz) && v < NPAGES && !Lookup(old(tables), p, v).Present()
      ensures !r.Panicked? ==> Valid() && SameFrames(old(free), old(owner), free, owner)
      ensures !r.Panicked? ==> SamePages(old(data), data, old(owner)) && SameLookups(old(tables), tables, old(spaces))
      ensures r.NoSpace? ==> spaces == old(spaces) && owner == old(owner) && |old(free)| < CopyCost(PageUp(sz))
      ensures r.Child? ==> |free| == |old(free)| - CopyCost(PageUp(sz))
      ensures r.Child? <==> |old(free)| >= CopyCost(PageUp(sz))
                            && forall v: nat :: v < PageUp(sz) && v < NPAGES ==> Lookup(old(tables), p, v).Present()
      ensures r.Child? ==> r.d !in old(spaces) && spaces == old(spaces) + {r.d} && OwnersOf(old(owner), owner, r.d)
      ensures r.Child? ==> CopiedTo(Now(), p, r.d, kdata, PageUp(sz)) && CopySeen(Now(), p, r.d, kdata, PageUp(sz))
    {
      hide Core, Lookup, SameFrames, SamePages, SameLookups, OwnersOf, OneLookup, CopiedTo, KernUpTo, PageUp,
           CopyPaid, Tabs, Took, Short, KernelSeen, CopySeen;
      PageUpIs(sz);
      CopyCosts(0, PageUp(sz));
      var s := Setupkvm();
      if s.None? {
        return NoSpace;
      }
      var d := s.value;
      CopyStart(Now(), p, d, kdata);
      CopyFirst(tables, |free|, d, |old(free)|);
      ghost var m0 := Now();
      var i := 0;
      while i < sz
        invariant i % PGSIZE == 0 && i / PGSIZE <= PageUp(sz) && Valid() && spaces == old(spaces) + {d}
        invariant SameFrames(old(free), old(owner), free, owner) && SamePages(old(data), data, old(owner))
        invariant SameLookups(old(tables), tables, old(spaces)) && OwnersOf(old(owner), owner, d)
        invariant CopiedTo(Now(), p, d, kdata, i / PGSIZE)
        invariant CopyPaid(tables, |free|, d, i / PGSIZE, |old(free)|)
        invariant forall v: nat :: v < i / PGSIZE && v < NPAGES ==> Lookup(old(tables), p, v).Present()
        decreases sz - i
      {
        PageBelow(i, sz);
        var v := i / PGSIZE;
        var pt := Walk(p, v, false);
        if pt.None? {
          NoEntryNoPage(tables, p, v);
          SameEntry(old(tables), tables, old(spaces), p, v);
          return Panicked;
        }
        var pte := tables[pt.value][v % NENT];
        EntryIs(tables, p, v, pt.value);
        SameEntry(old(tables), tables, old(spaces), p, v);
        if !pte.Present() {
          return Panicked;
        }
        ghost var m, owner1 := Now(), owner;
        CopyNotYet(m, p, d, kdata, v);
        CoreHas(lo, hi, free, tables, spaces, owner);
        var g := GrowPage(d, v, PageAt(data, pte.frame), pte.flags);
        if !g.Got? {
          CopyShort(m.tables, |m.free|, d, v, PageUp(sz), |old(free)|);
          CopyBad(d, g, old(Now()), old(spaces), old(owner), m, owner1);
          return NoSpace;
        }
        CopyMore(m.tables, |m.free|, tables, |free|, d, v, |old(free)|);
        CopyStep(m, owner1, Now(), spaces, p, d, kdata, v, g.f);
        CopyKeeps(old(Now()), old(owner), m, owner1, Now(), owner, old(spaces), d, v, g.f, pte.flags);
        i := i + PGSIZE;
      }
      PageBelow(i, sz);
      CopyLast(tables, |free|, d, PageUp(sz), |old(free)|);
      EntriesCopied(lo, hi, Now(), spaces, owner, p, d, kdata, PageUp(sz));
      r := Child(d);
    }
  }

  datatype Copy = Child(d: nat) | NoSpace | Panicked

  /** What a copy of the first v pages takes: a directory and 64 page tables for the kernel's map, the pages,
      and a page table for every 1024 of them. */
  function CopyCost(v: nat): nat {
    1 + 64 + v + (v + 1023) / 1024
  }

  lemma CopyCosts(v: nat, w: nat)
    requires v <= w
    ensures 65 <= CopyCost(v) <= CopyCost(w)
  {
  }

  /** What there is of n pages when the first v are copied to d. */
  ghost predicate CopyPaid(t: Tables, free: nat, d: nat, v: nat, n: nat) {
    && free + |Tabs(t, d)| + v == n - 1 && |Tabs(t, d)| == 64 + (v + 1023) / 1024
    && forall i :: 0 <= i < 512 ==> (i in Tabs(t, d) <==> i < (v + 1023) / 1024)
  }

  lemma CopyFirst(t: Tables, free: nat, d: nat, n: nat)
    requires free == n - 65 && |Tabs(t, d)| == 64 && forall i :: i in Tabs(t, d) ==> i >= 512
    ensures CopyPaid(t, free, d, 0, n)
  {
    hide Tabs;
  }

  lemma CopyMore(t: Tables, free: nat, t': Tables, free': nat, d: nat, v: nat, n: nat)
    requires CopyPaid(t, free, d, v, n) && v < UPAGES && Took(t, free, t', free', d, {v / NENT}, 1)
    ensures CopyPaid(t', free', d, v + 1, n)
  {
    hide Tabs;
    if v % 1024 != 0 { assert Tabs(t', d) == Tabs(t, d); }
  }

  lemma CopyShort(t: Tables, free: nat, d: nat, v: nat, end: nat, n: nat)
    requires CopyPaid(t, free, d, v, n) && v < UPAGES && v < end && Short(t, free, d, v)
    ensures n < CopyCost(end)
  {
    hide Tabs;
    CopyCosts(v + 1, end);
    if v % 1024 != 0 { assert Tabs(t, d) + {v / NENT} == Tabs(t, d); }
  }

  lemma CopyLast(t: Tables, free: nat, d: nat, v: nat, n: nat)
    requires CopyPaid(t, free, d, v, n)
    ensures free == n - CopyCost(v)
  {
    hide Tabs;
  }

  lemma SameEntry(t: Tables, t': Tables, spaces: set<nat>, p: nat, v: nat)
    requires SameLookups(t, t', spaces) && p in spaces && v < NPAGES
    ensures Lookup(t', p, v) == Lookup(t, p, v)
  {
    hide Lookup;
  }

  lemma PagesMore(data: map<nat, Page>, data1: map<nat, Page>, data2: map<nat, Page>, owner: map<nat, Use>,
                  owner1: map<nat, Use>, d: nat)
    requires SamePages(data, data1, owner) && SamePages(data1, data2, owner1) && OwnersOf(owner, owner1, d)
    ensures SamePages(data, data2, owner)
  {
    hide PageAt;
  }

  lemma LookupsMore(t: Tables, t1: Tables, t2: Tables, spaces0: set<nat>, spaces: set<nat>)
    requires SameLookups(t, t1, spaces0) && SameLookups(t1, t2, spaces) && spaces0 <= spaces
    ensures SameLookups(t, t2, spaces0)
  {
    hide Lookup;
  }

  lemma HandFree(lo: nat, hi: nat, free: seq<nat>, t: Tables, spaces: set<nat>, owner: map<nat, Use>, f: nat)
    requires Core(lo, hi, free, t, spaces, owner) && lo <= f < hi && f !in free && f !in owner
    ensures Core(lo, hi, [f] + free, t, spaces, owner)
  {
    hide Lookup, TabsOk, UsersOk, OwnerOk;
    Pushed(free, f);
  }

  lemma HandOld(data: map<nat, Page>, data1: map<nat, Page>, owner: map<nat, Use>, owner1: map<nat, Use>, d: nat,
                f: nat)
    requires SamePages(data, data1, owner) && OwnersOf(owner, owner1, d) && f !in owner1
    ensures SamePages(data, data1[f := JUNK], owner)
  {
  }

  /** One more page copied keeps what copyuvm must leave alone. */
  lemma CopyKeeps(m0: Mem, owner0: map<nat, Use>, m: Mem, owner: map<nat, Use>, m': Mem, owner': map<nat, Use>,
                  spaces0: set<nat>, d: nat, v: nat, f: nat, flags: nat)
    requires SameFrames(m0.free, owner0, m.free, owner) && SameFrames(m.free, owner, m'.free, owner')
    requires OwnersOf(owner0, owner, d) && TabsOnly(owner, owner' - {f}, d) && f in owner' && owner'[f] == User(d, v)
    requires SamePages(m0.data, m.data, owner0) && SamePages(m.data, m'.data, owner) && d !in spaces0
    requires SameLookups(m0.tables, m.tables, spaces0)
             && OneLookup(m.tables, m'.tables, spaces0 + {d}, d, v, Pte(f, flags))
    ensures SameFrames(m0.free, owner0, m'.free, owner') && OwnersOf(owner0, owner', d)
    ensures SamePages(m0.data, m'.data, owner0) && SameLookups(m0.tables, m'.tables, spaces0)
  {
    hide Lookup, PageAt;
  }

  lemma CopyStart(m: Mem, p: nat, d: nat, kd: nat)
    requires KDATA_MIN < kd && KernUpTo(m.tables, d, kd, 4)
    ensures CopiedTo(m, p, d, kd, 0)
  {
    hide Lookup;
  }

  lemma CopyNotYet(m: Mem, p: nat, d: nat, kd: nat, v: nat)
    requires KDATA_MIN < kd && CopiedTo(m, p, d, kd, v) && v < UPAGES
    ensures Lookup(m.tables, d, v) == NONE
  {
    hide Lookup, SamePage;
  }

  lemma CopyStep(m: Mem, owner: map<nat, Use>, m': Mem, spaces: set<nat>, p: nat, d: nat, kd: nat, v: nat, f: nat)
    requires KDATA_MIN < kd && CopiedTo(m, p, d, kd, v) && v < UPAGES && UsersOk(m.tables, spaces, owner)
    requires p in spaces && d in spaces && p != d && Lookup(m.tables, p, v).Present()
    requires OneLookup(m.tables, m'.tables, spaces, d, v, Pte(f, Lookup(m.tables, p, v).flags))
    requires PageAt(m'.data, f) == PageAt(m.data, Lookup(m.tables, p, v).frame) && SamePages(m.data, m'.data, owner)
    ensures CopiedTo(m', p, d, kd, v + 1)
  {
    hide Lookup, PageAt;
    forall w: nat | w < v + 1 && w < UPAGES ensures SamePage(m', p, d, w) {
      assert w < v ==> SamePage(m, p, d, w);
    }
  }

  /** The first v pages of d are copies of p's; d has no other user page, and the kernel's map. */
  ghost predicate CopiedTo(m: Mem, p: nat, d: nat, kd: nat, v: nat)
    requires KDATA_MIN < kd
  {
    && (forall w: nat :: w < v && w < UPAGES ==> SamePage(m, p, d, w))
    && (forall w: nat :: v <= w < NPAGES ==> Lookup(m.tables, d, w) == KernPte(kd, w))
  }

  /** The processor sees in the first v pages of d what it sees in p's, in other pages; of the rest, the kernel's. */
  ghost predicate CopySeen(m: Mem, p: nat, d: nat, kd: nat, v: nat) {
    && (forall w: nat :: w < v && w < UPAGES ==>
          var x, y := Seen(m.tables, p, w), Seen(m.tables, d, w);
          && x.View? && y.View? && y.write == x.write && y.user == x.user && y.frame != x.frame
          && PageAt(m.data, y.frame) == PageAt(m.data, x.frame))
    && KernelSeen(m.tables, d, kd, v)
  }

  lemma EntriesCopied(lo: nat, hi: nat, m: Mem, spaces: set<nat>, owner: map<nat, Use>, p: nat, d: nat, kd: nat, v: nat)
    requires Core(lo, hi, m.free, m.tables, spaces, owner) && p in spaces && d in spaces && p != d
    requires KDATA_MIN < kd < KDATA_MAX && CopiedTo(m, p, d, kd, v)
    ensures CopySeen(m, p, d, kd, v)
  {
    hide Lookup, Seen, PageAt, KernelSeen;
    forall w: nat | w < v && w < UPAGES
      ensures var x, y := Seen(m.tables, p, w), Seen(m.tables, d, w);
              && x.View? && y.View? && y.write == x.write && y.user == x.user && y.frame != x.frame
              && PageAt(m.data, y.frame) == PageAt(m.data, x.frame)
    {
      SeenIs(m.tables, spaces, owner, p, w);
      SeenIs(m.tables, spaces, owner, d, w);
      assert SamePage(m, p, d, w);
    }
    EntriesSeen(lo, hi, m.free, m.tables, spaces, owner, d, kd, v);
  }

  /** Page w of both is present, with the same flags and contents. */
  ghost predicate SamePage(m: Mem, p: nat, d: nat, w: nat)
    requires w < UPAGES
  {
    var e, e' := Lookup(m.tables, p, w), Lookup(m.tables, d, w);
    e'.Present() && e'.flags == e.flags && PageAt(m.data, e'.frame) == PageAt(m.data, e.frame)
  }

  // The kernel's part of every address space, in pages; kd is the page of the linker's `data`.

  const EXTMEM := 0x10_0000
  const PHYSTOP := 0xE00_0000
  const DEVSPACE := 0xFE00_0000
  const KDATA_MIN := 0x8_0100
  const KDATA_MAX := 0x8_E000

  datatype Kmap = Kmap(virt: nat, start: nat, end: nat, perm: nat)

  function Kmaps(kd: nat): seq<Kmap>
    requires KDATA_MIN < kd < KDATA_MAX
  {
    [Kmap(KERNBASE, 0, EXTMEM, PTE_W),
     Kmap(KERNBASE + EXTMEM, EXTMEM, kd * PGSIZE - KERNBASE, 0),
     Kmap(kd * PGSIZE, kd * PGSIZE - KERNBASE, PHYSTOP, PTE_W),
     Kmap(DEVSPACE, DEVSPACE, 0, PTE_W)]
  }

  /** How the kernel maps page w: low physical memory at KERNBASE, its text read-only, and the
      devices at their own addresses. */
  function KernPte(kd: nat, w: nat): Pte
    requires KDATA_MIN < kd
  {
    if 0x8_0000 <= w < 0x8_0100 || kd <= w < 0x8_E000 then Pte(w - 0x8_0000, PTE_W + PTE_P)
    else if 0x8_0100 <= w < kd then Pte(w - 0x8_0000, PTE_P)
    else if 0xF_E000 <= w then Pte(w, PTE_W + PTE_P)
    else NONE
  }

  function KStart(kd: nat, k: nat): nat
    requires k <= 4
  {
    if k == 0 then 0x8_0000 else if k == 1 then 0x8_0100 else if k == 2 then kd else if k == 3 then 0xF_E000 else NPAGES
  }

  function KEnd(kd: nat, k: nat): nat
    requires k < 4
  {
    if k == 0 then 0x8_0100 else if k == 1 then kd else if k == 2 then 0x8_E000 else NPAGES
  }

  function KFrame(kd: nat, k: nat): nat
    requires k < 4 && kd > KDATA_MIN
  {
    if k == 0 then 0 else if k == 1 then 0x100 else if k == 2 then kd - 0x8_0000 else 0xF_E000
  }

  lemma KmapIs(kd: nat, k: nat)
    requires k < 4 && KDATA_MIN < kd < KDATA_MAX
    ensures var e := Kmaps(kd)[k];
            var size := (e.end - e.start) % 0x1_0000_0000;
            && size > 0 && e.virt + size <= 0x1_0000_0000 && e.start % PGSIZE == 0
            && e.virt / PGSIZE == KStart(kd, k) && (e.virt + size - 1) / PGSIZE + 1 == KEnd(kd, k)
            && e.start / PGSIZE == KFrame(kd, k) && UPAGES <= KStart(kd, k)
  {
  }

  /** What the processor sees of pages v on: of those that are the kernel's, low physical memory with the
      text read-only, and the devices, none of it the user's; and nothing else. */
  ghost predicate KernelSeen(t: Tables, d: nat, kd: nat, v: nat) {
    forall w: nat :: v <= w < NPAGES ==>
      Seen(t, d, w) == if 0x8_0000 <= w < 0x8_E000 then View(w - 0x8_0000, !(0x8_0100 <= w < kd), false)
                       else if 0xF_E000 <= w then View(w, true, false)
                       else Absent
  }

  lemma EntriesSeen(lo: nat, hi: nat, free: seq<nat>, t: Tables, spaces: set<nat>, owner: map<nat, Use>, d: nat,
                    kd: nat, v: nat)
    requires Core(lo, hi, free, t, spaces, owner) && d in spaces && KDATA_MIN < kd < KDATA_MAX
    requires forall w: nat :: v <= w < NPAGES ==> Lookup(t, d, w) == KernPte(kd, w)
    ensures KernelSeen(t, d, kd, v)
  {
    hide Lookup, Seen;
    forall w: nat | v <= w < NPAGES
      ensures Seen(t, d, w) == if 0x8_0000 <= w < 0x8_E000 then View(w - 0x8_0000, !(0x8_0100 <= w < kd), false)
                               else if 0xF_E000 <= w then View(w, true, false)
                               else Absent
    {
      SeenIs(t, spaces, owner, d, w);
      assert Lookup(t, d, w) == KernPte(kd, w);
    }
  }

  lemma KernelAll(t: Tables, d: nat, kd: nat)
    requires KDATA_MIN < kd && KernUpTo(t, d, kd, 4)
    ensures forall w: nat :: w < NPAGES ==> Lookup(t, d, w) == KernPte(kd, w)
  {
    hide Lookup;
  }

  /** The first k entries of the kernel's map are in, and nothing else is mapped. */
  ghost predicate KernUpTo(t: Tables, d: nat, kd: nat, k: nat)
    requires k <= 4 && KDATA_MIN < kd
  {
    forall w: nat :: w < NPAGES ==> Lookup(t, d, w) == if w < KStart(kd, k) then KernPte(kd, w) else NONE
  }

  lemma KernNext(t: Tables, t': Tables, spaces: set<nat>, d: nat, kd: nat, k: nat, stop: nat, flags: nat)
    requires k < 4 && KDATA_MIN < kd < KDATA_MAX && d in spaces && KernUpTo(t, d, kd, k)
             && flags == WithP(Kmaps(kd)[k].perm)
    requires KStart(kd, k) <= stop <= KEnd(kd, k)
             && RangeLookup(t, t', spaces, d, KStart(kd, k), stop, KFrame(kd, k), flags)
    ensures stop == KEnd(kd, k) ==> KernUpTo(t', d, kd, k + 1)
    ensures KStart(kd, k) <= stop < NPAGES ==> !Lookup(t, d, stop).Present()
  {
    hide Lookup;
  }

  lemma RangeOthers(t0: Tables, t: Tables, t': Tables, spaces0: set<nat>, spaces: set<nat>, d: nat, first: nat,
                    stop: nat, f0: nat, flags: nat)
    requires SameLookups(t0, t, spaces0) && spaces == spaces0 + {d} && d !in spaces0
    requires RangeLookup(t, t', spaces, d, first, stop, f0, flags)
    ensures SameLookups(t0, t', spaces0)
  {
    hide Lookup;
  }

  /** The page tables that the first k entries are under. */
  ghost function KernTabs(kd: nat, k: nat): set<int>
    requires k <= 4
  {
    if k == 0 then {} else KernTabs(kd, k - 1) + Under(KStart(kd, k - 1), KEnd(kd, k - 1))
  }

  lemma UnderJoin(a: nat, b: nat, c: nat)
    requires a < b < c
    ensures Under(a, b) + Under(b, c) == Under(a, c)
  {
    assert (b - 1) / NENT == b / NENT || (b - 1) / NENT + 1 == b / NENT;
    assert a / NENT <= (b - 1) / NENT && b / NENT <= (c - 1) / NENT;
  }

  /** The kernel's map takes 64 page tables, none of them the user's. */
  lemma KernSize(kd: nat)
    requires KDATA_MIN < kd < KDATA_MAX
    ensures |KernTabs(kd, 4)| == 64 && forall i :: i in KernTabs(kd, 4) ==> i >= 512
  {
    hide Span;
    assert Under(0x8_0000, 0x8_E000) == Span(512, 567) && Under(0xF_E000, NPAGES) == Span(1016, 1023);
    hide Under;
    UnderJoin(0x8_0000, 0x8_0100, kd);
    UnderJoin(0x8_0000, kd, 0x8_E000);
    KernUnder(kd);
    SpanSize(512, 567);
    SpanSize(1016, 1023);
    SumSize(Span(512, 567), Span(1016, 1023));
    assert Span(1016, 1023) - Span(512, 567) == Span(1016, 1023);
  }

  lemma KernUnder(kd: nat)
    ensures KernTabs(kd, 4) == Under(0x8_0000, 0x8_0100) + Under(0x8_0100, kd) + Under(kd,
                                                                                       0x8_E000) + Under(0xF_E000,
                                                                                                         NPAGES)
  {
    hide Under;
    assert KernTabs(kd, 1) == Under(0x8_0000, 0x8_0100);
    assert KernTabs(kd, 2) == KernTabs(kd, 1) + Under(0x8_0100, kd);
    assert KernTabs(kd, 3) == KernTabs(kd, 2) + Under(kd, 0x8_E000);
  }

  /** The first k entries have their page tables, taken from the n pages there were. */
  ghost predicate KernPaid(t: Tables, free: nat, d: nat, kd: nat, k: nat, n: nat)
    requires k <= 4
  {
    Tabs(t, d) == KernTabs(kd, k) && free + |Tabs(t, d)| == n
  }

  lemma KernFirst(t: Tables, free: nat, d: nat, kd: nat)
    requires d in t && t[d] == ZERO_TABLE
    ensures KernPaid(t, free, d, kd, 0, free)
  {
    NoTabs(t, d);
  }

  lemma KernMore(t: Tables, free: nat, t': Tables, free': nat, d: nat, kd: nat, k: nat, n: nat)
    requires k < 4 && KernPaid(t, free + 1, d, kd, k, n) && Tabled(t, free, t', free', d, KStart(kd, k), KEnd(kd, k))
    ensures KernPaid(t', free' + 1, d, kd, k + 1, n)
  {
    hide Tabs, Under;
  }

  lemma KernLast(t: Tables, free: nat, d: nat, kd: nat, n: nat)
    requires KDATA_MIN < kd < KDATA_MAX && KernPaid(t, free + 1, d, kd, 4, n)
    ensures free == n - 65 && |Tabs(t, d)| == 64 && forall i :: i in Tabs(t, d) ==> i >= 512
  {
    hide Tabs, Under;
    KernSize(kd);
  }

  /** A page of the kernel's map that can get no page table is under one of those 64. */
  lemma KernShort(t: Tables, free: nat, t': Tables, free': nat, d: nat, kd: nat, k: nat, stop: nat, n: nat)
    requires k < 4 && KDATA_MIN < kd < KDATA_MAX && KStart(kd, k) <= stop < KEnd(kd, k)
    requires KernPaid(t, free + 1, d, kd, k, n) && Tabled(t, free, t', free', d, KStart(kd, k), stop)
    requires free' == 0 && stop / NENT !in Tabs(t', d)
    ensures n < 65
  {
    hide Tabs, Under;
    KernSize(kd);
    KernGrow(kd, k);
    UnderStep(KStart(kd, k), stop);
    UnderMore(KStart(kd, k), stop + 1, KEnd(kd, k));
    SubsetSize(Tabs(t', d) + {stop / NENT}, KernTabs(kd, 4));
  }

  lemma KernGrow(kd: nat, k: nat)
    requires k < 4
    ensures KernTabs(kd, k + 1) <= KernTabs(kd, 4)
    decreases 4 - k
  {
    hide Under;
    if k < 3 { KernGrow(kd, k + 1); }
  }

  /** The owners of before, and pages of d. */
  ghost predicate OwnersOf(owner: map<nat, Use>, owner': map<nat, Use>, d: nat) {
    && (forall f :: f in owner ==> f in owner' && owner'[f] == owner[f])
    && (forall f :: f in owner' && f !in owner ==> owner'[f].d == d)
  }

  lemma AllSame(free: seq<nat>, owner: map<nat, Use>, data: map<nat, Page>, t: Tables, spaces: set<nat>)
    ensures SameFrames(free, owner, free, owner) && SamePages(data, data, owner) && SameLookups(t, t, spaces)
  {
    hide Lookup;
  }

  lemma NewLookups(t: Tables, spaces: set<nat>, owner: map<nat, Use>, d: nat)
    requires TabsOk(t, spaces, owner) && d !in owner
    ensures SameLookups(t, t[d := ZERO_TABLE], spaces)
    ensures var t' := t[d := ZERO_TABLE]; forall w: nat :: w < NPAGES ==> Lookup(t', d, w) == NONE
  {
    assert forall i: nat :: i < NENT ==> !ZERO_TABLE[i].Present();
  }

  /** An empty directory in a page that kalloc returned. */
  lemma NewSpace(lo: nat, hi: nat, free: seq<nat>, free': seq<nat>, t: Tables, spaces: set<nat>,
                 owner: map<nat, Use>, d: nat, kd: nat)
    requires Core(lo, hi, free, t, spaces, owner) && free == [d] + free' && KDATA_MIN < kd < KDATA_MAX
    ensures d !in spaces && Core(lo, hi, free', t[d := ZERO_TABLE], spaces + {d}, owner[d := Dir(d)])
    ensures SameLookups(t, t[d := ZERO_TABLE], spaces) && KernUpTo(t[d := ZERO_TABLE], d, kd, 0)
    ensures OwnersOf(owner, owner[d := Dir(d)], d) && SameFrames(free, owner, free', owner[d := Dir(d)])
  {
    hide Lookup;
    TakeFirst(lo, hi, free, t, spaces, owner, d, free');
    var t', spaces', owner' := t[d := ZERO_TABLE], spaces + {d}, owner[d := Dir(d)];
    assert forall i: nat :: i < NENT ==> !t'[d][i].Present();
    NewLookups(t, spaces, owner, d);
    assert FreeOk(lo, hi, free', owner');
    assert TabsOk(t', spaces', owner');
    assert UsersOk(t', spaces', owner');
    assert OwnerOk(t', spaces', owner');
  }

  lemma OwnersMore(free: seq<nat>, owner: map<nat, Use>, free1: seq<nat>, owner1: map<nat, Use>, free2: seq<nat>,
                   owner2: map<nat, Use>, d: nat)
    requires SameFrames(free, owner, free1, owner1) && OwnersOf(owner, owner1, d)
    requires TabsOnly(owner1, owner2, d) && SameFrames(free1, owner1, free2, owner2)
    ensures SameFrames(free, owner, free2, owner2) && OwnersOf(owner, owner2, d)
  {
  }

  lemma GivenBack(lo: nat, hi: nat, m: Mem, m1: Mem, m2: Mem, spaces: set<nat>, owner: map<nat, Use>,
                  owner1: map<nat, Use>, d: nat)
    requires Core(lo, hi, m.free, m.tables, spaces, owner) && d !in spaces && OwnersOf(owner, owner1, d)
    requires SameFrames(m.free, owner, m1.free, owner1) && SamePages(m.data, m1.data, owner)
             && SameLookups(m.tables, m1.tables, spaces)
    requires forall f: nat :: f in m2.free <==> f in m1.free || (f in owner1 && owner1[f].d == d)
    requires Core(lo, hi, m2.free, m2.tables, spaces, Without(owner1, d))
    requires SameLookups(m1.tables, m2.tables, spaces)
    requires forall f: nat :: f !in m2.free ==> PageAt(m2.data, f) == PageAt(m1.data, f)
    ensures Without(owner1, d) == owner
    ensures SameFrames(m.free, owner, m2.free, owner) && SamePages(m.data, m2.data, owner)
            && SameLookups(m.tables, m2.tables, spaces)
  {
    hide Lookup, PageAt, TabsOk, UsersOk;
    assert forall f :: f in owner ==> owner[f].d in spaces;
    assert Without(owner1, d) == owner;
  }

  /** Pages v0 up to v of d are new: cleared, present, writable and the user's; nothing else that
      was mapped or owned has changed. */
  ghost predicate Grown(m0: Mem, owner0: map<nat, Use>, m: Mem, owner: map<nat, Use>, spaces: set<nat>, d: nat,
                        v0: nat, v: nat) {
    && LookupsBut(m0.tables, m.tables, spaces, d, v0, v) && ClearedEntries(m, d, v0, v)
    && SameFrames(m0.free, owner0, m.free, owner) && TabsOnly(owner0, Less(owner, d, v0, v), d)
    && SamePages(m0.data, m.data, owner0)
  }

  ghost predicate LookupsBut(t: Tables, t': Tables, spaces: set<nat>, d: nat, v0: nat, v: nat) {
    forall d2: nat, w: nat :: d2 in spaces && w < NPAGES && (d2 != d || w < v0 || w >= v) ==>
        Lookup(t', d2, w) == Lookup(t, d2, w)
  }

  /** The processor sees pages v0 up to v of d as the user's, writable and full of zeroes. */
  ghost predicate Cleared(m: Mem, d: nat, v0: nat, v: nat) {
    forall w: nat :: v0 <= w < v && w < NPAGES ==>
      var x := Seen(m.tables, d, w);
      x.View? && x.write && x.user && PageAt(m.data, x.frame) == ZEROES
  }

  lemma NewPages(lo: nat, hi: nat, m0: Mem, owner0: map<nat, Use>, m: Mem, owner: map<nat, Use>, spaces: set<nat>,
                 d: nat, v0: nat, v: nat)
    requires Core(lo, hi, m.free, m.tables, spaces, owner) && d in spaces
    requires Grown(m0, owner0, m, owner, spaces, d, v0, v)
    ensures Cleared(m, d, v0, v)
  {
    hide Lookup, Seen, PageAt, FreeOk, UsersOk, OwnerOk, TabsOk, LookupsBut, SameFrames, TabsOnly, SamePages;
    forall w: nat | v0 <= w < v && w < NPAGES
      ensures var x := Seen(m.tables, d, w); x.View? && x.write && x.user && PageAt(m.data, x.frame) == ZEROES
    {
      SeenIs(m.tables, spaces, owner, d, w);
    }
  }

  ghost predicate ClearedEntries(m: Mem, d: nat, v0: nat, v: nat) {
    forall w: nat :: v0 <= w < v && w < NPAGES ==>
      Lookup(m.tables, d, w).flags == PTE_P + PTE_W + PTE_U && PageAt(m.data, Lookup(m.tables, d, w).frame) == ZEROES
  }

  /** The pages that have an owner have their contents. */
  ghost predicate SamePages(data: map<nat, Page>, data': map<nat, Page>, owner: map<nat, Use>) {
    forall f: nat :: f in owner ==> PageAt(data', f) == PageAt(data, f)
  }

  /** Translations and contents are as before; only page tables have been added. */
  ghost predicate GaveUp(m: Mem, owner: map<nat, Use>, m': Mem, owner': map<nat, Use>, spaces: set<nat>, d: nat) {
    && SameMapped(m.tables, m'.tables, spaces) && SamePages(m.data, m'.data, owner)
    && SameFrames(m.free, owner, m'.free, owner') && TabsOnly(owner, owner', d)
  }

  /** The same pages are mapped, to the same pages with the same flags. */
  ghost predicate SameMapped(t: Tables, t': Tables, spaces: set<nat>) {
    forall d: nat, w: nat :: d in spaces && w < NPAGES ==>
      (Lookup(t', d, w).Present() <==> Lookup(t, d, w).Present())
      && (Lookup(t, d, w).Present() ==> Lookup(t', d, w) == Lookup(t, d, w))
  }

  lemma GrownStart(m: Mem, owner: map<nat, Use>, spaces: set<nat>, d: nat, v: nat)
    ensures Grown(m, owner, m, owner, spaces, d, v, v)
  {
    hide Lookup;
    assert Less(owner, d, v, v) == owner;
  }

  lemma GrownHas(m0: Mem, owner0: map<nat, Use>, m: Mem, owner: map<nat, Use>, spaces: set<nat>, d: nat, v0: nat,
                 v: nat)
    requires Grown(m0, owner0, m, owner, spaces, d, v0, v) && d in spaces
    ensures forall w: nat :: v <= w < NPAGES ==> Lookup(m.tables, d, w) == Lookup(m0.tables, d, w)
    ensures SameFrames(m0.free, owner0, m.free, owner)
  {
    hide Lookup;
  }

  lemma LessSub(owner: map<nat, Use>, d: nat, v0: nat, v: nat)
    ensures forall f :: f in Less(owner, d, v0, v) <==>
              f in owner && !(owner[f].User? && owner[f].d == d && v0 <= owner[f].v < v)
    ensures forall f :: f in Less(owner, d, v0, v) ==> Less(owner, d, v0, v)[f] == owner[f]
  {
  }

  lemma ClearedMore(m: Mem, owner: map<nat, Use>, m': Mem, spaces: set<nat>, d: nat, v0: nat, v: nat, f: nat)
    requires ClearedEntries(m, d, v0, v) && v0 <= v < UPAGES && d in spaces && UsersOk(m.tables, spaces, owner)
    requires OneLookup(m.tables, m'.tables, spaces, d, v, Pte(f, PTE_P + PTE_W + PTE_U)) && PageAt(m'.data, f) == ZEROES
    requires SamePages(m.data, m'.data, owner)
    ensures ClearedEntries(m', d, v0, v + 1)
  {
    hide Lookup, PageAt;
    forall w: nat | v0 <= w < v + 1 && w < NPAGES
      ensures Lookup(m'.tables, d, w).flags == PTE_P + PTE_W + PTE_U
              && PageAt(m'.data, Lookup(m'.tables, d, w).frame) == ZEROES
    {
      if w < v { assert Lookup(m'.tables, d, w) == Lookup(m.tables, d, w); }
    }
  }

  lemma TabsMore(owner0: map<nat, Use>, owner: map<nat, Use>, owner': map<nat, Use>, d: nat, v0: nat, v: nat, f: nat)
    requires TabsOnly(owner0, Less(owner, d, v0, v), d) && v0 <= v
    requires f in owner' && owner'[f] == User(d, v) && TabsOnly(owner, owner' - {f}, d)
    requires forall x :: x in owner ==> owner[x] != User(d, v)
    ensures TabsOnly(owner0, Less(owner', d, v0, v + 1), d)
    ensures forall x :: x in owner0 ==> x in owner
  {
    hide Less;
    LessSub(owner, d, v0, v);
    LessSub(owner', d, v0, v + 1);
  }

  /** The page just mapped joins the new ones. */
  lemma GrownStep(m0: Mem, owner0: map<nat, Use>, m: Mem, owner: map<nat, Use>, m': Mem, owner': map<nat, Use>,
                  spaces: set<nat>, d: nat, v0: nat, v: nat, f: nat)
    requires Grown(m0, owner0, m, owner, spaces, d, v0, v) && v0 <= v < UPAGES && d in spaces
    requires UsersOk(m.tables, spaces, owner) && OwnerOk(m.tables, spaces, owner) && !Lookup(m.tables, d, v).Present()
    requires OneLookup(m.tables, m'.tables, spaces, d, v, Pte(f, PTE_P + PTE_W + PTE_U)) && PageAt(m'.data, f) == ZEROES
    requires f in owner' && owner'[f] == User(d, v) && TabsOnly(owner, owner' - {f}, d)
    requires SameFrames(m.free, owner, m'.free, owner') && SamePages(m.data, m'.data, owner)
    ensures Grown(m0, owner0, m', owner', spaces, d, v0, v + 1)
  {
    hide Lookup, PageAt, Less, UsersOk, ClearedEntries, TabsOnly;
    ClearedMore(m, owner, m', spaces, d, v0, v, f);
    forall x | x in owner ensures owner[x] != User(d, v) { assert UsedAs(m.tables, x, owner[x]); }
    TabsMore(owner0, owner, owner', d, v0, v, f);
  }

  /** After a failure, with the new pages unmapped again: only page tables are left over. */
  lemma GrownTabs(m0: Mem, owner0: map<nat, Use>, m: Mem, owner: map<nat, Use>, owner2: map<nat, Use>,
                  spaces: set<nat>, d: nat, v0: nat, v: nat, end: nat)
    requires Grown(m0, owner0, m, owner, spaces, d, v0, v) && v <= end <= UPAGES && TabsOnly(owner, owner2, d)
    requires OwnerOk(m0.tables, spaces, owner0)
    requires forall w: nat :: v0 <= w < end ==> !Lookup(m0.tables, d, w).Present()
    ensures TabsOnly(owner0, Less(owner2, d, v0, end), d)
  {
    hide Lookup, Less;
    LessSub(owner, d, v0, v);
    LessSub(owner2, d, v0, end);
    forall f | f in owner0 ensures !(owner0[f].User? && owner0[f].d == d && v0 <= owner0[f].v < end) {
      assert UsedAs(m0.tables, f, owner0[f]);
    }
  }

  lemma GrownFrames(m0: Mem, owner0: map<nat, Use>, m: Mem, owner: map<nat, Use>, m1: Mem, owner2: map<nat, Use>,
                    m2: Mem,
                    spaces: set<nat>, d: nat, v0: nat, v: nat, end: nat, hand: seq<nat>)
    requires Grown(m0, owner0, m, owner, spaces, d, v0, v) && SameFrames(m.free, owner, hand + m1.free, owner2)
    requires Unmapped(m1, m2, spaces, owner2, d, v0, end)
    ensures SameFrames(m0.free, owner0, hand + m2.free, Less(owner2, d, v0, end))
  {
    hide Lookup, Less;
    LessSub(owner2, d, v0, end);
  }

  lemma GrownPages(lo: nat, hi: nat, m0: Mem, owner0: map<nat, Use>, m: Mem, owner: map<nat, Use>, m1: Mem,
                   owner2: map<nat, Use>, m2: Mem,
                   spaces: set<nat>, d: nat, v0: nat, v: nat, end: nat)
    requires Grown(m0, owner0, m, owner, spaces, d, v0, v) && v <= end <= UPAGES
    requires SameLookups(m.tables, m1.tables, spaces) && Unmapped(m1, m2, spaces, owner2, d, v0, end)
    requires forall w: nat :: v0 <= w < end ==> !Lookup(m0.tables, d, w).Present()
    requires SamePages(m.data, m1.data, owner)
    requires TabsOnly(owner0, Less(owner2, d, v0, end), d)
             && Core(lo, hi, m2.free, m2.tables, spaces, Less(owner2, d, v0, end))
    ensures SameMapped(m0.tables, m2.tables, spaces) && SamePages(m0.data, m2.data, owner0)
  {
    hide Lookup, Less, PageAt, TabsOk, UsersOk, OwnerOk, ClearedEntries;
    LessSub(owner, d, v0, v);
  }

  /** The page in hand had no owner. */
  lemma HandPage(m0: Mem, owner0: map<nat, Use>, m: Mem, owner: map<nat, Use>, owner2: map<nat, Use>, spaces: set<nat>,
                 d: nat, v0: nat, v: nat, data: map<nat, Page>, f: nat)
    requires Grown(m0, owner0, m, owner, spaces, d, v0, v) && TabsOnly(owner, owner2, d) && f !in owner2
    requires SamePages(m0.data, data, owner0)
    ensures SamePages(m0.data, data[f := JUNK], owner0)
  {
    hide Lookup, Less, ClearedEntries;
    LessSub(owner, d, v0, v);
  }

  lemma HandStays(lo: nat, hi: nat, m1: Mem, m2: Mem, spaces: set<nat>, owner2: map<nat, Use>, d: nat, v0: nat,
                  end: nat, f: nat)
    requires Unmapped(m1, m2, spaces, owner2, d, v0, end) && f !in m1.free && f !in owner2 && lo <= f < hi
    requires Core(lo, hi, m2.free, m2.tables, spaces, Less(owner2, d, v0, end))
    ensures Core(lo, hi, [f] + m2.free, m2.tables, spaces, Less(owner2, d, v0, end))
  {
    hide Lookup, Less, TabsOk, UsersOk, OwnerOk;
    LessSub(owner2, d, v0, end);
    Pushed(m2.free, f);
  }

  datatype Grow = Got(f: nat) | NoPage | NoTable(f: nat)

  /** The page that was taken but not mapped. */
  ghost function Hand(g: Grow): seq<nat> {
    if g.NoTable? then [g.f] else []
  }

  lemma PageNumbers(v: nat)
    ensures v * PGSIZE / PGSIZE == v && (v * PGSIZE + PGSIZE - 1) / PGSIZE == v && v * PGSIZE % PGSIZE == 0
  {
  }

  lemma SameLooked(t: Tables, spaces: set<nat>)
    ensures SameLookups(t, t, spaces)
  {
    hide Lookup;
  }

  lemma RangeOne(t: Tables, t': Tables, spaces: set<nat>, d: nat, v: nat, stop: nat, f: nat, flags: nat)
    requires RangeLookup(t, t', spaces, d, v, stop, f, flags) && v <= stop <= v + 1
    ensures stop == v + 1 ==> OneLookup(t, t', spaces, d, v, Pte(f, flags))
    ensures stop == v ==> SameLookups(t, t', spaces)
  {
    hide Lookup;
  }

  lemma OldStay(owner: map<nat, Use>, owner': map<nat, Use>, d: nat)
    requires TabsOnly(owner, owner', d)
    ensures forall f :: f in owner ==> f in owner' && owner'[f] == owner[f]
  {
  }

  lemma FramesMove(free: seq<nat>, owner: map<nat, Use>, f: nat, free1: seq<nat>, free': seq<nat>, owner': map<nat,
                   Use>)
    requires free == [f] + free1 && f in owner' && SameFrames(free1, owner, free', owner' - {f})
    ensures SameFrames(free, owner, free', owner')
  {
  }

  lemma FramesHand(free: seq<nat>, owner: map<nat, Use>, f: nat, free1: seq<nat>, free': seq<nat>, owner': map<nat,
                   Use>)
    requires free == [f] + free1 && f !in free1 && f !in owner && SameFrames(free1, owner, free', owner')
    ensures SameFrames(free, owner, [f] + free', owner') && f !in free' && f !in owner'
  {
  }

  lemma FreevmDone(m: Mem, m1: Mem, m': Mem, free: seq<nat>, spaces: set<nat>, owner: map<nat, Use>, d: nat)
    requires Unmapped(m, m1, spaces, owner, d, 0, UPAGES) && m'.tables == m1.tables && m'.free == [d] + free
    requires forall f :: f in Less(owner, d, 0, UPAGES) ==> f in owner && Less(owner, d, 0, UPAGES)[f] == owner[f]
    requires forall f :: f in owner && owner[f].d != d ==> f in Less(owner, d, 0, UPAGES)
    requires forall f: nat :: f in m'.free <==>
               f in m1.free || (f in Less(owner, d, 0, UPAGES) && Less(owner, d, 0, UPAGES)[f].d == d)
    requires forall f: nat :: f !in m'.free ==> PageAt(m'.data, f) == PageAt(m1.data, f)
    ensures forall f: nat :: f in m'.free <==> f in m.free || (f in owner && owner[f].d == d)
    ensures SameLookups(m.tables, m'.tables, spaces - {d})
    ensures forall f: nat :: f !in m'.free ==> PageAt(m'.data, f) == PageAt(m.data, f)
  {
    hide Lookup, Less, PageAt;
  }

  ghost function Without(owner: map<nat, Use>, d: nat): map<nat, Use> {
    map f | f in owner && owner[f].d != d :: owner[f]
  }

  /** freevm's loop has freed page tables 0 up to i. */
  ghost predicate FreedTabs(free1: seq<nat>, free: seq<nat>, owner: map<nat, Use>, d: nat, i: nat) {
    && NoDup(free)
    && forall f: nat :: f in free <==> f in free1 || (f in owner && owner[f].Tab? && owner[f].d == d && owner[f].i < i)
  }

  lemma FreedStart(lo: nat, hi: nat, free: seq<nat>, t: Tables, spaces: set<nat>, owner: map<nat, Use>, d: nat)
    requires Core(lo, hi, free, t, spaces, owner)
    ensures FreedTabs(free, free, owner, d, 0)
  {
    hide Lookup;
  }

  lemma FreedStep(lo: nat, hi: nat, free1: seq<nat>, free: seq<nat>, t: Tables, spaces: set<nat>, owner: map<nat,
                  Use>, d: nat, i: nat)
    requires Core(lo, hi, free1, t, spaces, owner) && d in spaces && i < NENT && FreedTabs(free1, free, owner, d, i)
    ensures d in t && (t[d][i].Present() ==> lo <= t[d][i].frame < hi)
    ensures FreedTabs(free1, if t[d][i].Present() then [t[d][i].frame] + free else free, owner, d, i + 1)
  {
    hide Lookup, UsersOk;
    if t[d][i].Present() {
      var f := t[d][i].frame;
      assert owner[f] == Tab(d, i);
      Pushed(free, f);
    }
    forall f: nat | f in owner && owner[f] == Tab(d, i) ensures t[d][i].Present() && t[d][i].frame == f {
      assert UsedAs(t, f, owner[f]);
    }
  }

  /** With its user pages gone, the address space has its page tables and directory left. */
  lemma LessAll(owner: map<nat, Use>, spaces: set<nat>, d: nat, v: nat, end: nat, t0: Tables)
    requires OwnerOk(t0, spaces, owner) && v == 0 && end == UPAGES
    ensures Without(Less(owner, d, v, end), d) == Without(owner, d)
    ensures forall f :: f in Less(owner, d, v, end) ==> !(owner[f].User? && owner[f].d == d)
    ensures forall f :: f in Less(owner, d, v, end) ==> f in owner && Less(owner, d, v, end)[f] == owner[f]
    ensures forall f :: f in owner && owner[f].d != d ==> f in Less(owner, d, v, end)
  {
    hide Lookup;
    forall f | f in owner && owner[f].User? ensures owner[f].v < UPAGES { assert UsedAs(t0, f, owner[f]); }
  }

  lemma FreedEnd(lo: nat, hi: nat, free1: seq<nat>, free: seq<nat>, t: Tables, spaces: set<nat>, owner: map<nat,
                 Use>, d: nat)
    requires Core(lo, hi, free1, t, spaces, owner) && d in spaces && FreedTabs(free1, free, owner, d, NENT)
    requires forall f :: f in owner ==> !(owner[f].User? && owner[f].d == d)
    ensures lo <= d < hi && Core(lo, hi, [d] + free, t, spaces - {d}, Without(owner, d))
    ensures forall f: nat :: f in [d] + free <==> f in free1 || (f in owner && owner[f].d == d)
  {
    hide Lookup;
    assert owner[d] == Dir(d);
    Pushed(free, d);
    forall f: nat ensures f in [d] + free <==> f in free1 || (f in owner && owner[f].d == d) {
      if f in owner { assert UsedAs(t, f, owner[f]); }
    }
    var spaces', owner' := spaces - {d}, Without(owner, d);
    assert FreeOk(lo, hi, [d] + free, owner');
    assert TabsOk(t, spaces', owner');
    assert UsersOk(t, spaces', owner');
    assert OwnerOk(t, spaces', owner');
  }

  /** PGROUNDUP, as a page number. */
  function PageUp(sz: nat): nat {
    (sz + PGSIZE - 1) / PGSIZE
  }

  lemma PageUpIs(sz: nat)
    ensures PageUp(sz) == (sz + PGSIZE - 1) / PGSIZE && (sz <= KERNBASE ==> PageUp(sz) <= UPAGES)
  {
  }

  lemma PageUpEnds()
    ensures PageUp(0) == 0 && PageUp(KERNBASE) == UPAGES
  {
  }

  lemma PageBelow(a: nat, sz: nat)
    requires a % PGSIZE == 0
    ensures a < sz <==> a / PGSIZE < PageUp(sz)
    ensures (a + PGSIZE) % PGSIZE == 0 && (a + PGSIZE) / PGSIZE == a / PGSIZE + 1
  {
  }

  lemma UnmapUnfold(m: Mem, d: nat, v: nat, end: nat)
    requires v < end <= NPAGES
    ensures UnmapAll(m, d, v, end) == UnmapAll(Unmap(m, d, v), d, v + 1, end)
  {
  }

  lemma NoUnmap(m: Mem, d: nat, v: nat, end: nat)
    requires end <= v && end <= NPAGES
    ensures UnmapAll(m, d, v, end) == m
  {
  }

  lemma Jump(m: Mem, d: nat, v: nat, end: nat)
    requires v < end <= NPAGES && d in m.tables && !HasEntry(m.tables, d, v)
    ensures UnmapAll(m, d, v, end) == UnmapAll(m, d, (v / NENT + 1) * NENT, end)
  {
    hide Unmap;
    var next := (v / NENT + 1) * NENT;
    Skip(m, d, v, if next <= end then next else end, end);
  }

  lemma NextGroup(v: nat)
    ensures var w := (v / NENT + 1) * NENT; v < w && w * PGSIZE % PGSIZE == 0 && w * PGSIZE / PGSIZE == w
  {
  }

  lemma UserPage(lo: nat, hi: nat, free: seq<nat>, t: Tables, spaces: set<nat>, owner: map<nat, Use>, d: nat, v: nat)
    requires Core(lo, hi, free, t, spaces, owner) && d in spaces && v < UPAGES && Lookup(t, d, v).Present()
    ensures var f := Lookup(t, d, v).frame; f in owner && owner[f] == User(d, v) && lo <= f < hi && f !in free
  {
    hide Lookup;
  }

  ghost function Span(a: int, b: int): (g: set<int>)
    ensures forall i :: i in g <==> a <= i <= b
    decreases b - a
  {
    if b < a then {} else Span(a, b - 1) + {b}
  }

  lemma {:induction false} SpanSize(a: int, b: int)
    requires a <= b + 1
    ensures |Span(a, b)| == b - a + 1
    decreases b - a
  {
    if a <= b { SpanSize(a, b - 1); }
  }

  /** The page tables that pages first up to end are under, by their place in the directory. */
  ghost function Under(first: nat, end: nat): set<int> {
    if end <= first then {} else Span(first / NENT, (end - 1) / NENT)
  }

  lemma UnderStep(first: nat, v: nat)
    requires first <= v
    ensures Under(first, v + 1) == Under(first, v) + {v / NENT} && (first == v ==> Under(first, v) == {})
  {
    if first < v { assert (v - 1) / NENT == v / NENT || (v - 1) / NENT + 1 == v / NENT; }
  }

  lemma UnderMore(first: nat, v: nat, end: nat)
    requires v <= end
    ensures Under(first, v) <= Under(first, end)
  {
    if first < v { assert (v - 1) / NENT <= (end - 1) / NENT; }
  }

  /** Pages first up to end need pages of their own and the page tables that are missing. */
  ghost function Cost(t: Tables, d: nat, first: nat, end: nat): int {
    end - first + |Under(first, end) - Tabs(t, d)|
  }

  lemma SubsetSize(a: set<int>, b: set<int>)
    requires a <= b
    ensures |a| <= |b|
  {
    assert b == a + (b - a);
  }

  lemma SumSize(a: set<int>, b: set<int>)
    ensures |a + b| == |a| + |b - a|
  {
    assert a + b == a + (b - a);
  }

  /** Page tables g have been added to d, and they and n pages are what was taken from the free ones. */
  ghost predicate Took(t: Tables, free: nat, t': Tables, free': nat, d: nat, g: set<int>, n: nat) {
    Tabs(t', d) == Tabs(t, d) + g && free' + |Tabs(t', d)| + n == free + |Tabs(t, d)|
  }

  /** The free pages are too few for page v and its page table. */
  ghost predicate Short(t: Tables, free: nat, d: nat, v: nat) {
    free + |Tabs(t, d)| < 1 + |Tabs(t, d) + {v / NENT}|
  }

  lemma TookNothing(t: Tables, free: nat, d: nat, v: nat)
    requires v < NPAGES
    ensures Took(t, free, t, free, d, {}, 0) && (HasEntry(t, d, v) ==> Took(t, free, t, free, d, {v / NENT}, 0))
  {
    HasTab(t, d, v);
  }

  lemma TookSame(t0: Tables, free0: nat, t: Tables, t': Tables, free: nat, d: nat, g: set<int>)
    requires Took(t0, free0, t, free, d, g, 0) && d in t && d in t' && t'[d] == t[d]
    ensures Took(t0, free0, t', free, d, g, 0)
  {
    SameTabs(t, t', d);
  }

  /** Pages first up to v have their page tables, and that is all that was taken from the free pages. */
  ghost predicate Tabled(t0: Tables, free0: nat, t: Tables, free: nat, d: nat, first: nat, v: nat) {
    Tabs(t, d) == Tabs(t0, d) + Under(first, v) && free + |Tabs(t, d)| == free0 + |Tabs(t0, d)|
  }

  lemma TabledStart(t: Tables, free: nat, d: nat, first: nat)
    ensures Tabled(t, free, t, free, d, first, first)
  {
    hide Tabs;
    assert Under(first, first) == {};
  }

  lemma TabledStep(t0: Tables, free0: nat, t: Tables, free: nat, t': Tables, free': nat, d: nat, first: nat, v: nat,
                   r: Mapping)
    requires first <= v && Tabled(t0, free0, t, free, d, first, v)
    requires Took(t, free, t', free', d, if r.Mapped? then {v / NENT} else {}, 0)
    ensures Tabled(t0, free0, t', free', d, first, if r.Mapped? then v + 1 else v)
  {
    hide Tabs;
    assert Tabs(t, d) + {} == Tabs(t, d);
    UnderStep(first, v);
    assert Tabs(t0, d) + Under(first, v) + {v / NENT} == Tabs(t0, d) + (Under(first, v) + {v / NENT});
  }

  lemma OnePage(t0: Tables, free0: nat, t: Tables, free: nat, d: nat, v: nat, stop: nat, r: Mapping)
    requires free0 > 0 && Tabled(t0, free0 - 1, t, free, d, v, stop) && v <= stop <= v + 1
             && (r.Mapped? <==> stop == v + 1)
    requires r.NoMemory? ==> free == 0 && stop / NENT !in Tabs(t, d)
    ensures r.Mapped? ==> Took(t0, free0, t, free, d, {v / NENT}, 1)
    ensures r.NoMemory? ==> Short(t0, free0, d, v)
  {
    hide Tabs, Tabled;
    TabledOne(t0, free0 - 1, t, free, d, v, stop);
  }

  lemma NoneLeft(t: Tables, d: nat, v: nat)
    ensures Short(t, 0, d, v)
  {
    hide Tabs;
    SubsetSize(Tabs(t, d), Tabs(t, d) + {v / NENT});
  }

  lemma TabledOne(t0: Tables, free0: nat, t: Tables, free: nat, d: nat, v: nat, stop: nat)
    requires Tabled(t0, free0, t, free, d, v, stop) && v <= stop <= v + 1
    ensures Took(t0, free0, t, free, d, if stop == v then {} else {v / NENT}, 0)
  {
    hide Tabs;
    UnderStep(v, v);
  }

  /** What there is when pages first up to v are done. */
  ghost predicate Paid(t0: Tables, free0: nat, t: Tables, free: nat, d: nat, first: nat, v: nat) {
    Tabs(t, d) == Tabs(t0, d) + Under(first, v) && free == free0 - Cost(t0, d, first, v)
  }

  lemma PaidNothing(t: Tables, free: nat, d: nat, first: nat)
    ensures Paid(t, free, t, free, d, first, first)
  {
    hide Tabs;
    assert Under(first, first) - Tabs(t, d) == {};
  }

  lemma PaidMore(t0: Tables, free0: nat, t: Tables, free: nat, t': Tables, free': nat, d: nat, first: nat, v: nat)
    requires first <= v && Paid(t0, free0, t, free, d, first, v)
    requires Took(t, free, t', free', d, {v / NENT}, 1)
    ensures Paid(t0, free0, t', free', d, first, v + 1)
  {
    hide Tabs, Span;
    UnderStep(first, v);
    SumSize(Tabs(t0, d), Under(first, v));
    SumSize(Tabs(t0, d), Under(first, v + 1));
    assert Tabs(t', d) == Tabs(t0, d) + Under(first, v + 1);
  }

  lemma PaidShort(t0: Tables, free0: nat, t: Tables, free: nat, d: nat, first: nat, v: nat, end: nat)
    requires first <= v < end && Paid(t0, free0, t, free, d, first, v)
    requires Short(t, free, d, v)
    ensures free0 < Cost(t0, d, first, end)
  {
    hide Tabs, Span;
    UnderStep(first, v);
    SumSize(Tabs(t0, d), Under(first, v));
    SumSize(Tabs(t0, d), Under(first, v + 1));
    assert Tabs(t, d) + {v / NENT} == Tabs(t0, d) + Under(first, v + 1);
    UnderMore(first, v + 1, end);
    SubsetSize(Under(first, v + 1) - Tabs(t0, d), Under(first, end) - Tabs(t0, d));
  }

  /** Pages first up to end of d map to consecutive pages from f0; no other page has changed. */
  ghost predicate RangeLookup(t: Tables, t': Tables, spaces: set<nat>, d: nat, first: nat, end: nat, f0: nat,
                              flags: nat) {
    forall d2: nat, w: nat :: d2 in spaces && w < NPAGES ==>
      Lookup(t', d2, w) == if d2 == d && first <= w < end then Pte(f0 + (w - first), flags) else Lookup(t, d2, w)
  }

  lemma RangeStart(t: Tables, spaces: set<nat>, d: nat, first: nat, f0: nat, flags: nat)
    ensures RangeLookup(t, t, spaces, d, first, first, f0, flags)
  {
    hide Lookup;
  }

  lemma RangeStep(t0: Tables, t: Tables, t': Tables, spaces: set<nat>, d: nat, first: nat, v: nat, f0: nat,
                  flags: nat, r: Mapping)
    requires RangeLookup(t0, t, spaces, d, first, v, f0, flags) && first <= v < NPAGES && d in spaces
    requires if r.Mapped? then OneLookup(t, t', spaces, d, v, Pte(f0 + (v - first), flags))
             else SameLookups(t, t', spaces)
    ensures RangeLookup(t0, t', spaces, d, first, if r.Mapped? then v + 1 else v, f0, flags)
    ensures Lookup(t, d, v) == Lookup(t0, d, v)
  {
    hide Lookup;
  }

  lemma NothingKept(free: seq<nat>, owner: map<nat, Use>, d: nat)
    ensures TabsOnly(owner, owner, d) && SameFrames(free, owner, free, owner)
  {
  }

  lemma KeptStep(free: seq<nat>, owner: map<nat, Use>, free1: seq<nat>, owner1: map<nat, Use>, free2: seq<nat>,
                 owner2: map<nat, Use>, d: nat)
    requires TabsOnly(owner, owner1, d) && SameFrames(free, owner, free1, owner1)
    requires TabsOnly(owner1, owner2, d) && SameFrames(free1, owner1, free2, owner2)
    ensures TabsOnly(owner, owner2, d) && SameFrames(free, owner, free2, owner2)
  {
  }

  /** Page v of d translates to e, every other page as before. */
  ghost predicate OneLookup(t: Tables, t': Tables, spaces: set<nat>, d: nat, v: nat, e: Pte) {
    forall d2: nat, w: nat :: d2 in spaces && w < NPAGES ==> Lookup(t', d2, w) == if d2 == d && w == v then e
      else Lookup(t, d2, w)
  }

  lemma EntryIs(t: Tables, d: nat, v: nat, pt: nat)
    requires HasTable(t, d, v, pt)
    ensures Lookup(t, d, v) == t[pt][v % NENT]
  {
  }

  lemma NoEntryNoPage(t: Tables, d: nat, v: nat)
    requires v < NPAGES && !HasEntry(t, d, v)
    ensures Lookup(t, d, v) == NONE
  {
  }

  lemma OneEntryLookup(t0: Tables, t: Tables, t': Tables, spaces: set<nat>, d: nat, v: nat, e: Pte)
    requires SameLookups(t0, t, spaces) && OneEntry(t, t', spaces, d, v, e) && d in spaces
    ensures OneLookup(t0, t', spaces, d, v, e) && d in t && d in t' && t'[d] == t[d]
  {
    hide Lookup;
  }

  predicate HasEntry(t: Tables, d: nat, v: nat)
    requires v < NPAGES
  {
    d in t && t[d][v / NENT].Present()
  }

  lemma DirTable(t: Tables, spaces: set<nat>, owner: map<nat, Use>, d: nat, v: nat)
    requires TabsOk(t, spaces, owner) && d in spaces && v < NPAGES && t[d][v / NENT].Present()
    ensures HasTable(t, d, v, t[d][v / NENT].frame)
  {
  }

  /** The page kalloc hands out is nobody's. */
  lemma TakeFirst(lo: nat, hi: nat, free: seq<nat>, t: Tables, spaces: set<nat>, owner: map<nat, Use>, f: nat,
                  free': seq<nat>)
    requires Core(lo, hi, free, t, spaces, owner) && free == [f] + free'
    ensures Core(lo, hi, free', t, spaces, owner) && f !in free' && f !in owner && lo <= f < hi
    ensures forall x :: x in free <==> x == f || x in free'
  {
    hide Lookup, TabsOk, UsersOk, OwnerOk;
    assert free' == free[1..] && free[0] == f && f in free;
    assert forall x :: x in free' ==> x in free;
    assert NoDup(free');
  }

  lemma AddTableHas(t: Tables, d: nat, v: nat, f: nat)
    requires d in t && v < NPAGES && f != d && !t[d][v / NENT].Present()
    ensures HasTable(AddTable(t, d, v / NENT, f), d, v, f)
  {
  }

  /** The page tables of d, by their place in the directory. */
  ghost function Tabs(t: Tables, d: nat): set<int> {
    set i | 0 <= i < NENT && d in t && t[d][i].Present()
  }

  lemma SameTabs(t: Tables, t': Tables, d: nat)
    requires d in t && d in t' && t'[d] == t[d]
    ensures Tabs(t', d) == Tabs(t, d)
  {
  }

  lemma NoTabs(t: Tables, d: nat)
    requires d in t && t[d] == ZERO_TABLE
    ensures Tabs(t, d) == {}
  {
  }

  lemma HasTab(t: Tables, d: nat, v: nat)
    requires v < NPAGES
    ensures HasEntry(t, d, v) <==> v / NENT in Tabs(t, d)
    ensures HasEntry(t, d, v) ==> Tabs(t, d) + {v / NENT} == Tabs(t, d)
  {
  }

  lemma OneTabMore(t: Tables, d: nat, i: nat, f: nat, free: nat)
    requires free > 0 && d in t && i < NENT && f != d && !t[d][i].Present()
    ensures Tabs(AddTable(t, d, i, f), d) == Tabs(t, d) + {i} && i !in Tabs(t, d)
    ensures Took(t, free, AddTable(t, d, i, f), free - 1, d, {i}, 0)
  {
    assert Tabs(AddTable(t, d, i, f), d) == Tabs(t, d) + {i};
  }
}
