/**
 Two-level page tables (vm.c, mmu.h) in physical pages handed out by the page allocator
 (kalloc.c), and who owns each page.

 Physical pages are named by their number. A directory or page-table entry is the page number
 it holds and its low 12 bits. Virtual pages are numbered too: page v has directory index
 v / NENT and table index v % NENT.
 */
module VmSpec {

  const PGSIZE := 4096
  const NENT := 1024
  const NPAGES := 0x10_0000
  /** Virtual pages below KERNBASE. */
  const UPAGES := 0x8_0000
  const KERNBASE := 0x8000_0000

  datatype Pte = Pte(frame: nat, flags: nat) {
    predicate Present() { flags % 2 == 1 }
  }

  const NONE := Pte(0, 0)
  const PTE_P := 1
  const PTE_W := 2
  const PTE_U := 4

  /** perm | PTE_P. */
  function WithP(perm: nat): (f: nat)
    ensures f % 2 == 1 && (perm % 2 == 1 ==> f == perm)
  {
    if perm % 2 == 1 then perm else perm + 1
  }

  type Table = t: seq<Pte> | |t| == NENT witness NoEntries(NENT)

  function NoEntries(n: nat): (t: seq<Pte>)
    ensures |t| == n && forall i :: 0 <= i < n ==> t[i] == NONE
  {
    if n == 0 then [] else NoEntries(n - 1) + [NONE]
  }

  const ZERO_TABLE: Table := NoEntries(NENT)

  type Tables = map<nat, Table>

  /** The entry walkpgdir finds for page v in directory d; NONE where there is no page table. */
  function Lookup(t: Tables, d: nat, v: nat): Pte
    requires v < NPAGES
  {
    if d in t && t[d][v / NENT].Present() && t[d][v / NENT].frame in t
    then t[t[d][v / NENT].frame][v % NENT] else NONE
  }

  /** The entry has this flag. */
  predicate Allows(e: Pte, flag: nat)
    requires flag > 0
  {
    e.flags / flag % 2 == 1
  }

  /** What the processor finds at a virtual page: nothing, or a page and what may be done with it. */
  datatype View = Absent | View(frame: nat, write: bool, user: bool)

  /** The processor's walk: both levels must be present, and allow what both allow. */
  function Seen(t: Tables, d: nat, v: nat): View
    requires v < NPAGES
  {
    if d !in t || !t[d][v / 1024].Present() || t[d][v / 1024].frame !in t then Absent
    else
      var pde := t[d][v / 1024];
      var pte := t[pde.frame][v % 1024];
      if !pte.Present() then Absent
      else View(pte.frame, Allows(pde, PTE_W) && Allows(pte, PTE_W), Allows(pde, PTE_U) && Allows(pte, PTE_U))
  }

  /** In an address space the directory takes nothing away from what the page's own entry allows. */
  lemma SeenIs(t: Tables, spaces: set<nat>, owner: map<nat, Use>, d: nat, v: nat)
    requires TabsOk(t, spaces, owner) && d in spaces && v < NPAGES
    ensures var e := Lookup(t, d, v);
            Seen(t, d, v) == if e.Present() then View(e.frame, Allows(e, PTE_W), Allows(e, PTE_U)) else Absent
  {
  }

  /** What a page is used for: a directory, page table i of directory d, or page v of it. */
  datatype Use = Dir(d: nat) | Tab(d: nat, i: nat) | User(d: nat, v: nat)

  ghost predicate NoDup(s: seq<nat>) {
    forall i, j :: 0 <= i < j < |s| ==> s[i] != s[j]
  }

  /** Free pages are listed once, and are nobody's. */
  ghost predicate FreeOk(lo: nat, hi: nat, free: seq<nat>, owner: map<nat, Use>) {
    && 0 < lo && NoDup(free)
    && (forall f :: f in free ==> lo <= f < hi && f !in owner)
    && (forall f :: f in owner ==> lo <= f < hi)
  }

  ghost predicate TabsOk(t: Tables, spaces: set<nat>, owner: map<nat, Use>) {
    && (forall d :: d in spaces ==> d in t && d in owner && owner[d] == Dir(d))
    && (forall d: nat, i: nat :: d in spaces && i < NENT && d in t && t[d][i].Present() ==>
          && t[d][i].frame in t && t[d][i].frame in owner && owner[t[d][i].frame] == Tab(d, i)
          && Allows(t[d][i], PTE_W) && Allows(t[d][i], PTE_U))
  }

  ghost predicate UsersOk(t: Tables, spaces: set<nat>, owner: map<nat, Use>) {
    forall d: nat, v: nat :: d in spaces && v < UPAGES && Lookup(t, d, v).Present() ==>
      Lookup(t, d, v).frame in owner && owner[Lookup(t, d, v).frame] == User(d, v)
  }

  /** A page that is owned is used as `owner` says. */
  predicate UsedAs(t: Tables, f: nat, u: Use) {
    match u
    case Dir(d) => f == d
    case Tab(d, i) => d in t && i < NENT && t[d][i] == Pte(f, t[d][i].flags) && t[d][i].Present()
    case User(d, v) => v < UPAGES && Lookup(t, d, v).Present() && Lookup(t, d, v).frame == f
  }

  ghost predicate OwnerOk(t: Tables, spaces: set<nat>, owner: map<nat, Use>) {
    forall f :: f in owner ==> owner[f].d in spaces && UsedAs(t, f, owner[f])
  }

  /** The pages of every address space are distinct, and none is free. */
  ghost predicate Core(lo: nat, hi: nat, free: seq<nat>, t: Tables, spaces: set<nat>, owner: map<nat, Use>) {
    FreeOk(lo, hi, free, owner) && TabsOk(t, spaces, owner) && UsersOk(t, spaces, owner) && OwnerOk(t, spaces, owner)
  }

  // ---- One entry written -------------------------------------------------------------

  /** walkpgdir found page table pt for page v. */
  ghost predicate HasTable(t: Tables, d: nat, v: nat, pt: nat) {
    v < NPAGES && d in t && t[d][v / NENT].Present() && t[d][v / NENT].frame == pt && pt in t
  }

  function SetEntry(t: Tables, pt: nat, v: nat, e: Pte): Tables
    requires pt in t
  {
    t[pt := t[pt][v % NENT := e]]
  }

  lemma SetLookup(t: Tables, spaces: set<nat>, owner: map<nat, Use>, d: nat, v: nat, pt: nat, e: Pte, d2: nat, w: nat)
    requires TabsOk(t, spaces, owner) && d in spaces && HasTable(t, d, v, pt) && d2 in spaces && w < NPAGES
    ensures SetEntry(t, pt, v, e)[d2] == t[d2]
    ensures Lookup(SetEntry(t, pt, v, e), d2, w) == if d2 == d && w == v then e else Lookup(t, d2, w)
  {
    assert owner[pt] == Tab(d, v / NENT);
    if t[d2][w / NENT].Present() {
      assert owner[t[d2][w / NENT].frame] == Tab(d2, w / NENT);
    }
  }

  /** Every directory is as it was and every entry found, except that page v of d has e. */
  ghost predicate OneEntry(t: Tables, t': Tables, spaces: set<nat>, d: nat, v: nat, e: Pte) {
    && (forall d2 :: d2 in spaces ==> d2 in t && d2 in t' && t'[d2] == t[d2])
    && (forall f :: f in t ==> f in t')
    && (forall d2: nat, w: nat :: d2 in spaces && w < NPAGES ==>
          Lookup(t', d2, w) == if d2 == d && w == v then e else Lookup(t, d2, w))
  }

  lemma SetOne(t: Tables, spaces: set<nat>, owner: map<nat, Use>, d: nat, v: nat, pt: nat, e: Pte)
    requires TabsOk(t, spaces, owner) && d in spaces && HasTable(t, d, v, pt)
    ensures OneEntry(t, SetEntry(t, pt, v, e), spaces, d, v, e)
  {
    hide Lookup;
    forall d2: nat, w: nat | d2 in spaces && w < NPAGES
      ensures Lookup(SetEntry(t, pt, v, e), d2, w) == if d2 == d && w == v then e else Lookup(t, d2, w)
    {
      SetLookup(t, spaces, owner, d, v, pt, e, d2, w);
    }
    forall d2 | d2 in spaces ensures SetEntry(t, pt, v, e)[d2] == t[d2] {
      SetLookup(t, spaces, owner, d, v, pt, e, d2, v);
    }
  }

  /** Page f, taken from the allocator, becomes user page v. */
  lemma MapUser(lo: nat, hi: nat, free: seq<nat>, t: Tables, t': Tables, spaces: set<nat>, owner: map<nat, Use>,
                d: nat, v: nat, f: nat, flags: nat)
    requires Core(lo, hi, free, t, spaces, owner) && OneEntry(t, t', spaces, d, v, Pte(f, flags))
    requires d in spaces && v < UPAGES && !Lookup(t, d, v).Present() && flags % 2 == 1
    requires lo <= f < hi && f !in free && f !in owner
    ensures Core(lo, hi, free, t', spaces, owner[f := User(d, v)])
  {
    hide Lookup;
    var owner' := owner[f := User(d, v)];
    assert TabsOk(t', spaces, owner');
    assert UsersOk(t', spaces, owner');
    assert OwnerOk(t', spaces, owner');
  }

  /** An entry above KERNBASE owns nothing. */
  lemma MapKernel(lo: nat, hi: nat, free: seq<nat>, t: Tables, t': Tables, spaces: set<nat>, owner: map<nat, Use>,
                  d: nat, v: nat, e: Pte)
    requires Core(lo, hi, free, t, spaces, owner) && OneEntry(t, t', spaces, d, v, e) && UPAGES <= v
    ensures Core(lo, hi, free, t', spaces, owner)
  {
    hide Lookup;
    assert TabsOk(t', spaces, owner);
    assert UsersOk(t', spaces, owner);
    assert OwnerOk(t', spaces, owner);
  }

  lemma Pushed(free: seq<nat>, f: nat)
    requires NoDup(free) && f !in free
    ensures NoDup([f] + free) && forall x :: x in [f] + free <==> x == f || x in free
  {
  }

  /** User page v is unmapped and its page freed. */
  lemma UnmapUser(lo: nat, hi: nat, free: seq<nat>, t: Tables, t': Tables, spaces: set<nat>, owner: map<nat, Use>,
                  d: nat, v: nat)
    requires Core(lo, hi, free, t, spaces, owner) && OneEntry(t, t', spaces, d, v, NONE)
    requires d in spaces && v < UPAGES && Lookup(t, d, v).Present()
    ensures var f := Lookup(t, d, v).frame;
            f in owner && owner[f] == User(d, v) && lo <= f < hi && Core(lo, hi, [f] + free, t', spaces, owner - {f})
  {
    hide Lookup;
    var f := Lookup(t, d, v).frame;
    var owner' := owner - {f};
    Pushed(free, f);
    assert FreeOk(lo, hi, [f] + free, owner');
    assert TabsOk(t', spaces, owner');
    assert UsersOk(t', spaces, owner');
    assert OwnerOk(t', spaces, owner');
  }

  /** An empty page table, in a page taken from the allocator, put into a directory. */
  function AddTable(t: Tables, d: nat, i: nat, f: nat): Tables
    requires d in t && i < NENT
  {
    t[f := ZERO_TABLE][d := t[d][i := Pte(f, PTE_P + PTE_W + PTE_U)]]
  }

  lemma AddLookup(t: Tables, spaces: set<nat>, owner: map<nat, Use>, d: nat, i: nat, f: nat, d2: nat, w: nat)
    requires TabsOk(t, spaces, owner) && d in spaces && i < NENT && !t[d][i].Present() && f !in owner
    requires d2 in spaces && w < NPAGES
    ensures Lookup(AddTable(t, d, i, f), d2, w) == Lookup(t, d2, w)
  {
    assert f != d && f != d2;
    if t[d2][w / NENT].Present() {
      assert owner[t[d2][w / NENT].frame] == Tab(d2, w / NENT);
      assert owner[d] == Dir(d);
    }
  }

  lemma AddTableOk(lo: nat, hi: nat, free: seq<nat>, t: Tables, spaces: set<nat>, owner: map<nat, Use>, d: nat,
                   i: nat, f: nat)
    requires Core(lo, hi, free, t, spaces, owner) && d in spaces && i < NENT && !t[d][i].Present()
    requires lo <= f < hi && f !in free && f !in owner
    ensures Core(lo, hi, free, AddTable(t, d, i, f), spaces, owner[f := Tab(d, i)])
    ensures forall d2: nat, w: nat :: d2 in spaces && w < NPAGES ==>
              Lookup(AddTable(t, d, i, f), d2, w) == Lookup(t, d2, w)
  {
    hide Lookup;
    var t', owner' := AddTable(t, d, i, f), owner[f := Tab(d, i)];
    forall d2: nat, w: nat | d2 in spaces && w < NPAGES ensures Lookup(t', d2, w) == Lookup(t, d2, w) {
      AddLookup(t, spaces, owner, d, i, f, d2, w);
    }
    AddTableTabs(t, spaces, owner, d, i, f);
    hide TabsOk, AddTable;
    assert UsersOk(t', spaces, owner');
    OwnerAfterAdd(t, spaces, owner, d, i, f);
  }

  lemma AddTableTabs(t: Tables, spaces: set<nat>, owner: map<nat, Use>, d: nat, i: nat, f: nat)
    requires TabsOk(t, spaces, owner) && d in spaces && i < NENT && !t[d][i].Present() && f !in owner
    ensures TabsOk(AddTable(t, d, i, f), spaces, owner[f := Tab(d, i)])
  {
  }

  lemma OwnerAfterAdd(t: Tables, spaces: set<nat>, owner: map<nat, Use>, d: nat, i: nat, f: nat)
    requires TabsOk(t, spaces, owner) && OwnerOk(t, spaces, owner)
    requires d in spaces && i < NENT && !t[d][i].Present() && f !in owner
    requires forall d2: nat, w: nat :: d2 in spaces && w < NPAGES ==>
               Lookup(AddTable(t, d, i, f), d2, w) == Lookup(t, d2, w)
    ensures OwnerOk(AddTable(t, d, i, f), spaces, owner[f := Tab(d, i)])
  {
    hide Lookup;
  }

  // ---- Unmapping page by page ----------------------------------------------------------

  type Page = seq<int>

  function Filled(n: nat, x: int): seq<int> {
    if n == 0 then [] else Filled(n - 1, x) + [x]
  }

  /** What kfree and memset leave in a page. */
  const JUNK := Filled(PGSIZE, 1)
  const ZEROES := Filled(PGSIZE, 0)

  function PageAt(data: map<nat, Page>, f: nat): Page {
    if f in data then data[f] else ZEROES
  }

  datatype Mem = Mem(free: seq<nat>, tables: Tables, data: map<nat, Page>)

  /** Page v unmapped and its page freed, if it is mapped. */
  function Unmap(m: Mem, d: nat, v: nat): Mem
    requires v < NPAGES
  {
    var e := Lookup(m.tables, d, v);
    if !e.Present() then m
    else Mem([e.frame] + m.free, SetEntry(m.tables, m.tables[d][v / NENT].frame, v, NONE), m.data[e.frame := JUNK])
  }

  /** Every page from v up to end, visited one by one. */
  function UnmapAll(m: Mem, d: nat, v: nat, end: nat): Mem
    requires end <= NPAGES
    decreases end - v
  {
    if v >= end then m else UnmapAll(Unmap(m, d, v), d, v + 1, end)
  }

  /** deallocuvm's jump: where there is no page table, the pages up to the next one are not
      mapped, and visiting them does nothing. */
  lemma {:induction false} Skip(m: Mem, d: nat, v: nat, w: nat, end: nat)
    requires v <= w <= end <= NPAGES && w <= (v / NENT + 1) * NENT
    requires d in m.tables && (v < end ==> !m.tables[d][v / NENT].Present())
    ensures UnmapAll(m, d, v, end) == UnmapAll(m, d, w, end)
    decreases w - v
  {
    if v < w {
      assert Unmap(m, d, v) == m;
      assert v + 1 < w ==> (v + 1) / NENT == v / NENT;
      if v + 1 < w { Skip(m, d, v + 1, w, end); }
    }
  }

  /** The owners that are left when pages v up to end of d are gone. */
  ghost function Less(owner: map<nat, Use>, d: nat, v: nat, end: nat): map<nat, Use> {
    map f | f in owner && !(owner[f].User? && owner[f].d == d && v <= owner[f].v < end) :: owner[f]
  }

  /** What unmapping pages v up to end of d does: those pages that were mapped are not, no other
      entry changes, and their pages are free. */
  ghost predicate Unmapped(m: Mem, m': Mem, spaces: set<nat>, owner: map<nat, Use>, d: nat, v: nat, end: nat) {
    && (forall d2 :: d2 in spaces ==> d2 in m.tables && d2 in m'.tables && m'.tables[d2] == m.tables[d2])
    && (forall d2: nat, w: nat :: d2 in spaces && w < NPAGES ==>
          Lookup(m'.tables, d2, w)
          == if d2 == d && v <= w < end && Lookup(m.tables, d2, w).Present() then NONE else Lookup(m.tables, d2, w))
    && (forall f: nat :: f in m'.free <==> f in m.free || (f in owner && f !in Less(owner, d, v, end)))
    && (forall f: nat :: f !in m'.free ==> PageAt(m'.data, f) == PageAt(m.data, f))
  }

  lemma LessOne(t: Tables, spaces: set<nat>, owner: map<nat, Use>, d: nat, v: nat)
    requires UsersOk(t, spaces, owner) && OwnerOk(t, spaces, owner) && d in spaces && v < UPAGES
    ensures Less(owner, d, v, v + 1) == if Lookup(t, d, v).Present() then owner - {Lookup(t, d, v).frame} else owner
  {
    hide Lookup;
  }

  lemma LessTwice(owner: map<nat, Use>, d: nat, v: nat, end: nat)
    requires v < end
    ensures Less(Less(owner, d, v, v + 1), d, v + 1, end) == Less(owner, d, v, end)
  {
  }

  lemma CoreHas(lo: nat, hi: nat, free: seq<nat>, t: Tables, spaces: set<nat>, owner: map<nat, Use>)
    requires Core(lo, hi, free, t, spaces, owner)
    ensures TabsOk(t, spaces, owner) && UsersOk(t, spaces, owner) && OwnerOk(t, spaces, owner)
    ensures forall d :: d in spaces ==> d in t
  {
  }

  /** Taking one mapped page off. */
  lemma OneUnmapped(m: Mem, m': Mem, spaces: set<nat>, owner: map<nat, Use>, d: nat, v: nat, f: nat)
    requires OneEntry(m.tables, m'.tables, spaces, d, v, NONE) && v < NPAGES && Lookup(m.tables, d, v).Present()
    requires m'.free == [f] + m.free && m'.data == m.data[f := JUNK] && Less(owner, d, v, v + 1) == owner - {f}
             && f in owner
    ensures Unmapped(m, m', spaces, owner, d, v, v + 1)
  {
    hide Lookup, Less;
  }

  lemma UnmapOk(lo: nat, hi: nat, m: Mem, spaces: set<nat>, owner: map<nat, Use>, d: nat, v: nat)
    requires Core(lo, hi, m.free, m.tables, spaces, owner) && d in spaces && v < UPAGES
    ensures var m' := Unmap(m, d, v);
            Core(lo, hi, m'.free, m'.tables, spaces, Less(owner, d, v, v + 1))
              && Unmapped(m, m', spaces, owner, d, v, v + 1)
  {
    hide Core, TabsOk, UsersOk, OwnerOk, Less, SetEntry, OneEntry;
    CoreHas(lo, hi, m.free, m.tables, spaces, owner);
    LessOne(m.tables, spaces, owner, d, v);
    var e := Lookup(m.tables, d, v);
    if e.Present() {
      var pt := m.tables[d][v / NENT].frame;
      SetOne(m.tables, spaces, owner, d, v, pt, NONE);
      UnmapUser(lo, hi, m.free, m.tables, SetEntry(m.tables, pt, v, NONE), spaces, owner, d, v);
      OneUnmapped(m, Unmap(m, d, v), spaces, owner, d, v, e.frame);
    }
  }

  lemma UnmappedTwice(m: Mem, m1: Mem, m2: Mem, spaces: set<nat>, owner: map<nat, Use>, d: nat, v: nat, end: nat)
    requires v < end && Unmapped(m, m1, spaces, owner, d, v, v + 1)
    requires Unmapped(m1, m2, spaces, Less(owner, d, v, v + 1), d, v + 1, end)
    ensures Unmapped(m, m2, spaces, owner, d, v, end)
  {
    hide Lookup;
    LessTwice(owner, d, v, end);
    var l1, l := Less(owner, d, v, v + 1), Less(owner, d, v, end);
    assert forall f :: f in l ==> f in l1;
    assert forall f :: f in l1 ==> f in owner;
    hide Less;
  }

  lemma {:induction false} UnmapAllOk(lo: nat, hi: nat, m: Mem, spaces: set<nat>, owner: map<nat, Use>, d: nat,
                                      v: nat, end: nat)
    requires Core(lo, hi, m.free, m.tables, spaces, owner) && d in spaces && end <= UPAGES
    ensures var m' := UnmapAll(m, d, v, end);
            Core(lo, hi, m'.free, m'.tables, spaces, Less(owner, d, v, end))
              && Unmapped(m, m', spaces, owner, d, v, end)
    decreases end - v
  {
    hide Core, Lookup, Unmap, Less, Unmapped;
    if v >= end {
      CoreHas(lo, hi, m.free, m.tables, spaces, owner);
      NoneUnmapped(m, spaces, owner, d, v, end);
    } else {
      UnmapOk(lo, hi, m, spaces, owner, d, v);
      var m1, owner1 := Unmap(m, d, v), Less(owner, d, v, v + 1);
      UnmapAllOk(lo, hi, m1, spaces, owner1, d, v + 1, end);
      LessTwice(owner, d, v, end);
      UnmappedTwice(m, m1, UnmapAll(m1, d, v + 1, end), spaces, owner, d, v, end);
    }
  }

  lemma NoneUnmapped(m: Mem, spaces: set<nat>, owner: map<nat, Use>, d: nat, v: nat, end: nat)
    requires v >= end && forall d :: d in spaces ==> d in m.tables
    ensures Less(owner, d, v, end) == owner && Unmapped(m, m, spaces, owner, d, v, end)
  {
    hide Lookup;
  }
}
