/**
 The page allocator and the page-table code as they run: a free list, page contents written in
 place, loops over virtual pages. Each panic is shown not to happen.
 */
module Vm {
  import opened PageTables

  const PGSIZE := 4096
  const KERNBASE := 0x80000000

  /** PGROUNDUP(sz) / PGSIZE */
  function PageUp(sz: int): int { (sz + PGSIZE - 1) / PGSIZE }

  // ---------------------------------------------------- changes of state

  function PageOf(s: State, f: int): Page { if f in s.mem then s.mem[f] else [] }

  /** Page f, in use in s, is used for the same and has the same contents in t. */
  ghost predicate KeptPage(s: State, t: State, f: int) {
    t.Of(f) == s.Of(f) && PageOf(t, f) == PageOf(s, f)
  }

  /** A held page, or a user page other than those from lo to hi in d. */
  predicate InUse(r: Role, d: int, lo: int, hi: int) {
    r == Held || (r.User? && !(r.dir == d && lo <= r.v < hi))
  }

  ghost predicate Keeps(s: State, t: State, d: int, lo: int, hi: int) {
    forall f {:trigger s.Of(f)} :: InUse(s.Of(f), d, lo, hi) ==> KeptPage(s, t, f)
  }

  /** Pages only went from the free list (or from x, unless it is 0) into directory d. */
  ghost predicate GrewBy(s: State, t: State, d: int, x: int) {
    forall f :: t.Of(f) == s.Of(f) || ((s.Of(f) == Free || (f == x && x != 0)) && Names(t.Of(f), d, f))
  }

  /** m pages from v are mapped to pages from f; nothing else changes. */
  ghost predicate Added(s: State, t: State, d: int, v: int, m: int, f: int, perm: int)
    requires 0 <= perm < 4096
  {
    forall e, u :: e in s.dirs ==>
      t.Pte(e, u) == if e == d && v <= u < v + m then Word(f + (u - v), perm) else s.Pte(e, u)
  }

  /** The page tables from lo to hi of d map new zeroed pages; nothing else changes. */
  ghost predicate Grown(s: State, t: State, d: int, lo: int, hi: int) {
    && (forall e, u :: e in s.dirs && !(e == d && lo <= u < hi) ==> t.Pte(e, u) == s.Pte(e, u))
    && (forall u :: lo <= u < hi ==> NewPage(s, t, t.Pte(d, u), 7, Zeros()))
  }

  /** The word w maps, with these flags, a page that was free in s and holds p in t. */
  ghost predicate NewPage(s: State, t: State, w: int, flags: int, p: Page) {
    w != 0 && Flags(w) == flags && s.Of(Frame(w)) == Free && PageOf(t, Frame(w)) == p
  }

  /** The tables from lo to hi of d map nothing any more; nothing else changes. */
  ghost predicate Shrunk(s: State, t: State, d: int, lo: int, hi: int) {
    forall e, u :: e in s.dirs ==> t.Pte(e, u) == if e == d && lo <= u < hi then 0 else s.Pte(e, u)
  }

  // ------------------------------------------------ freeing page by page

  /** What a scan over every page from lo to hi frees. */
  function Scan(s: State, d: int, lo: int, hi: int): State
    decreases hi - lo
  {
    if lo >= hi then s
    else Scan(if s.Pte(d, lo) != 0 then Give(Unmap(s, d, lo), Frame(s.Pte(d, lo))) else s, d, lo + 1, hi)
  }

  /** The pages that the scan meets, last first. */
  function Met(s: State, d: int, lo: int, hi: int): seq<int>
    decreases hi - lo
  {
    if lo >= hi then []
    else Met(s, d, lo + 1, hi) + if s.Pte(d, lo) != 0 then [Frame(s.Pte(d, lo))] else []
  }

  lemma {:induction false} FreeOne(s: State, d: int, v: int)
    requires Sound(s) && d in s.dirs && 0 <= v < KERNPAGE && s.Pte(d, v) != 0
    ensures var t := Give(Unmap(s, d, v), Frame(s.Pte(d, v)));
            && Sound(t) && t.dirs == s.dirs && Shrunk(s, t, d, v, v + 1) && Keeps(s, t, d, v, v + 1)
            && s.Of(Frame(s.Pte(d, v))) == User(d, v) && t.free == [Frame(s.Pte(d, v))] + s.free
            && forall g :: t.Of(g) == if s.Of(g) == User(d, v) then Free else s.Of(g)
  {
    hide Sound, PteOf;
    var f, u := Frame(s.Pte(d, v)), Unmap(s, d, v);
    UnmapSound(s, d, v);
    GiveSound(u, f);
    OneUser(s, d, v);
    UnmapPages(s, d, v);
  }

  lemma {:induction false} OneUser(s: State, d: int, v: int)
    requires Sound(s) && s.Pte(d, v) != 0
    ensures forall g :: s.Of(g) == User(d, v) ==> g == Frame(s.Pte(d, v))
  {
    hide PteOf;
    forall g | s.Of(g) == User(d, v)
      ensures g == Frame(s.Pte(d, v))
    {
      assert RoleOk(s, g);
    }
  }

  /** Only page-table pages and the freed page are written. */
  lemma {:induction false} UnmapPages(s: State, d: int, v: int)
    requires Sound(s) && d in s.dirs && s.Pte(d, v) != 0
    ensures forall g :: InUse(s.Of(g), 0, 0, 0) ==> PageOf(Unmap(s, d, v), g) == PageOf(s, g)
  {
    hide Lo, Frame;
    assert TableOk(s, d, Hi(v));
  }

  lemma {:induction false} ScanResult(s: State, d: int, lo: int, hi: int)
    requires Sound(s) && d in s.dirs && 0 <= lo <= hi <= KERNPAGE
    ensures var t := Scan(s, d, lo, hi);
            && Sound(t) && t.dirs == s.dirs
            && Shrunk(s, t, d, lo, hi)
            && Keeps(s, t, d, lo, hi)
            && (forall g :: t.Of(g) == if s.Of(g).User? && s.Of(g).dir == d && lo <= s.Of(g).v < hi then Free
               else s.Of(g))
            && t.free == Met(s, d, lo, hi) + s.free
    decreases hi - lo
  {
    hide Sound, PteOf, Unmap, PageOf;
    if lo < hi {
      var w := s.Pte(d, lo);
      if w != 0 {
        FreeOne(s, d, lo);
        var t := Give(Unmap(s, d, lo), Frame(w));
        ScanResult(t, d, lo + 1, hi);
        MetSame(s, t, d, lo + 1, hi);
        assert Met(s, d, lo + 1, hi) + ([Frame(w)] + s.free) == Met(s, d, lo, hi) + s.free;
      } else {
        ScanResult(s, d, lo + 1, hi);
        NoUser(s, d, lo);
        assert Met(s, d, lo, hi) == Met(s, d, lo + 1, hi);
      }
    } else {
      assert Met(s, d, lo, hi) + s.free == s.free;
    }
  }

  lemma NoUser(s: State, d: int, v: int)
    requires Sound(s) && s.Pte(d, v) == 0
    ensures forall g :: s.Of(g) != User(d, v)
  {
    hide PteOf;
    forall g
      ensures s.Of(g) != User(d, v)
    {
      assert RoleOk(s, g);
    }
  }

  lemma {:induction false} MetSame(s: State, t: State, d: int, lo: int, hi: int)
    requires forall u :: lo <= u < hi ==> t.Pte(d, u) == s.Pte(d, u)
    ensures Met(t, d, lo, hi) == Met(s, d, lo, hi)
    decreases hi - lo
  {
    if lo < hi {
      MetSame(s, t, d, lo + 1, hi);
    }
  }

  /** A scan may go on after the whole reach of an absent table. */
  lemma {:induction false} SkipAbsent(s: State, d: int, lo: int, hi: int, next: int)
    requires lo <= next <= (Hi(lo) + 1) * NENT && !Present(s.Dirent(d, Hi(lo)))
    ensures Scan(s, d, lo, hi) == Scan(s, d, next, hi)
    decreases next - lo
  {
    if lo < next && lo < hi {
      assert s.Pte(d, lo) == 0;
      if lo + 1 < next {
        assert Hi(lo + 1) == Hi(lo);
        SkipAbsent(s, d, lo + 1, hi, next);
      }
    }
  }

  // ------------------------------------------------------ kernel mappings

  /** Some `kmap` rows: first virtual page, pages, first physical page, permissions. */
  datatype Region = Region(virt: int, pages: int, phys: int, perm: int)

  const PHYSPAGES := 0xE000   // PHYSTOP / PGSIZE

  /** `kmap`; the kernel's data starts at physical page dataPage. */
  function Kmap(dataPage: int): seq<Region> {
    [Region(KERNPAGE, 0x100, 0, 2),
     Region(KERNPAGE + 0x100, dataPage - 0x100, 0x100, 0),
     Region(KERNPAGE + dataPage, PHYSPAGES - dataPage, dataPage, 2),
     Region(0xFE000, 0x2000, 0xFE000, 2)]
  }

  /**
   What every directory maps above KERNBASE: physical memory in order, read-only in the kernel's
   text, and the devices one to one.
   */
  function KernelPte(dataPage: int, v: int): int {
    if KERNPAGE <= v < KERNPAGE + PHYSPAGES then
      Word(v - KERNPAGE, if 0x100 <= v - KERNPAGE < dataPage then 0 else 2)
    else if 0xFE000 <= v < VPAGES then Word(v, 2)
    else 0
  }

  /** The page tables of d after the first k rows of `kmap`. */
  function RowsPte(dataPage: int, k: int, v: int): int
    requires 0 <= k <= 4
    decreases k
  {
    if k == 0 then 0
    else
      var r := Kmap(dataPage)[k - 1];
      if r.virt <= v < r.virt + r.pages then Word(r.phys + (v - r.virt), r.perm) else RowsPte(dataPage, k - 1, v)
  }

  lemma RowsUnfold(dataPage: int, v: int)
    requires 0x100 < dataPage < PHYSPAGES
    ensures RowsPte(dataPage, 1, v) == if KERNPAGE <= v < KERNPAGE + 0x100 then Word(v - KERNPAGE, 2) else 0
    ensures RowsPte(dataPage, 2, v) ==
            if KERNPAGE + 0x100 <= v < KERNPAGE + dataPage then Word(v - KERNPAGE, 0) else RowsPte(dataPage, 1, v)
    ensures RowsPte(dataPage, 3, v) ==
            if KERNPAGE + dataPage <= v < KERNPAGE + PHYSPAGES then Word(v - KERNPAGE, 2) else RowsPte(dataPage, 2, v)
  {
    hide Word;
  }

  lemma RowsAreDirect(dataPage: int, v: int)
    requires 0x100 < dataPage < PHYSPAGES
    ensures RowsPte(dataPage, 4, v) == KernelPte(dataPage, v)
  {
    hide Word;
    RowsUnfold(dataPage, v);
  }

  lemma RowsApart(dataPage: int, k: int, v: int)
    requires 0x100 < dataPage < PHYSPAGES && 0 <= k < 4
    requires var r := Kmap(dataPage)[k]; r.virt <= v < r.virt + r.pages
    ensures RowsPte(dataPage, k, v) == 0
  {
    hide Word;
    RowsUnfold(dataPage, v);
  }

  // ------------------------------------------------------- giving up d

  /** Every page of d is free and every other page is used as before. */
  ghost predicate Released(s: State, t: State, d: int) {
    forall f :: t.Of(f) == if Names(s.Of(f), d, f) then Free else s.Of(f)
  }

  /** The role of page f while `freevm` has freed the first k tables of d. */
  function Leaving(r: Role, d: int, f: int, k: int): Role {
    if r.Table? && r.dir == d && r.i < k then Free else DropRole(r, d, f)
  }

  // ---------------------------------------------- what mappings will cost

  /** Words i to j of directory d that name no table. */
  function Absent(s: State, d: int, i: int, j: int): nat
    decreases j - i
  {
    if i >= j then 0 else (if Present(s.Dirent(d, i)) then 0 else 1) + Absent(s, d, i + 1, j)
  }

  /** The page tables that are missing for the pages lo to hi of d. */
  function Missing(s: State, d: int, lo: int, hi: int): nat {
    if lo >= hi then 0 else Absent(s, d, Hi(lo), Hi(hi - 1) + 1)
  }

  /** Directory d gets the tables i to j. */
  ghost predicate Tabled(s: State, t: State, d: int, i: int, j: int) {
    forall k :: Present(t.Dirent(d, k)) <==> Present(s.Dirent(d, k)) || i <= k < j
  }

  lemma {:induction false} AbsentSame(s: State, t: State, d: int, i: int, j: int)
    requires forall k :: i <= k < j ==> (Present(t.Dirent(d, k)) <==> Present(s.Dirent(d, k)))
    ensures Absent(t, d, i, j) == Absent(s, d, i, j)
    decreases j - i
  {
    if i < j {
      AbsentSame(s, t, d, i + 1, j);
    }
  }

  /** Present up to m, absent from there on. */
  lemma {:induction false} AbsentFrom(s: State, d: int, i: int, m: int, j: int)
    requires i <= m <= j && forall k :: i <= k < j ==> (Present(s.Dirent(d, k)) <==> k < m)
    ensures Absent(s, d, i, j) == j - m
    decreases j - i
  {
    if i < j {
      AbsentFrom(s, d, i + 1, if m == i then i + 1 else m, j);
    }
  }

  /** The first table is there. */
  lemma MissingNext(s: State, d: int, a: int, hi: int)
    requires a < hi && Present(s.Dirent(d, Hi(a)))
    ensures Missing(s, d, a, hi) == Missing(s, d, a + 1, hi)
  {
    assert Hi(a + 1) == Hi(a) || Hi(a + 1) == Hi(a) + 1;
    assert Hi(a) <= Hi(hi - 1) && Absent(s, d, Hi(a) + 1, Hi(a) + 1) == 0;
  }

  /** After the table for a there is one missing less, if it was missing. */
  lemma {:induction false} MissingGot(s: State, t: State, d: int, a: int, hi: int)
    requires a < hi && Tabled(s, t, d, Hi(a), Hi(a) + 1)
    ensures Missing(s, d, a, hi) == Missing(t, d, a, hi) + if Present(s.Dirent(d, Hi(a))) then 0 else 1
    ensures Missing(t, d, a, hi) == Missing(t, d, a + 1, hi)
    ensures Missing(s, d, a, a + 1) == if Present(s.Dirent(d, Hi(a))) then 0 else 1
  {
    assert Hi(hi - 1) >= Hi(a);
    AbsentSame(s, t, d, Hi(a) + 1, Hi(hi - 1) + 1);
    assert Present(t.Dirent(d, Hi(a)));
    MissingNext(t, d, a, hi);
    assert Absent(s, d, Hi(a) + 1, Hi(a) + 1) == 0;
  }

  lemma MissingOne(s: State, d: int, a: int, hi: int)
    requires a < hi && !Present(s.Dirent(d, Hi(a)))
    ensures Missing(s, d, a, hi) >= 1
  {
    assert Hi(hi - 1) >= Hi(a);
  }

  /** The tables for the pages from v to a, and the one for a. */
  lemma TabledOn(s: State, s1: State, s2: State, s3: State, d: int, v: int, a: int)
    requires v <= a && Tabled(s, s1, d, Hi(v), Reach(v, a))
    requires Tabled(s1, s2, d, Hi(a), Hi(a) + 1) && Tabled(s2, s3, d, 0, 0)
    ensures Tabled(s, s3, d, Hi(v), Reach(v, a + 1))
  {
    assert Reach(v, a) == Hi(a) || Reach(v, a) == Hi(a) + 1;
  }

  /** One more than the last table for the pages from v to a. */
  function Reach(v: int, a: int): int { if a <= v then Hi(v) else Hi(a - 1) + 1 }

  /** Pages and tables that mapping new pages from lo to hi takes. */
  function Cost(s: State, d: int, lo: int, hi: int): nat { if lo >= hi then 0 else hi - lo + Missing(s, d, lo, hi) }

  lemma CostBounds(s: State, d: int, lo: int, hi: int)
    ensures if lo >= hi then Cost(s, d, lo, hi) == 0 else Cost(s, d, lo, hi) >= 1
  {
  }

  /** A page is taken and filled (s2), then mapped (s3). */
  lemma {:induction false} CostNext(s1: State, s2: State, s3: State, d: int, a: int, hi: int, ok: bool)
    requires Sound(s1) && d in s1.dirs && s1.free != [] && Filled(s1, s2, s1.free[0], PageOf(s2, s1.free[0])) && a < hi
    requires |s2.free| == |s1.free| - 1 && (ok <==> |s2.free| >= Missing(s2, d, a, a + 1))
    requires ok ==> |s3.free| == |s2.free| - Missing(s2, d, a, a + 1) && Tabled(s2, s3, d, Hi(a), Hi(a) + 1)
    ensures ok ==> |s3.free| - Cost(s3, d, a + 1, hi) == |s1.free| - Cost(s1, d, a, hi)
    ensures !ok ==> |s1.free| < Cost(s1, d, a, hi)
  {
    hide Absent, Hi;
    assert s1.Of(d) == Dir && s1.Of(s1.free[0]) == Free;
    OtherPage(s1, s2, d);
    MissingSame(s1, s2, d, a, hi);
    if ok {
      MissingGot(s2, s3, d, a, hi);
    } else if Present(s2.Dirent(d, Hi(a))) {
      MissingGot(s2, s2, d, a, hi);
    } else {
      MissingOne(s2, d, a, hi);
      MissingOnly(s2, d, a);
    }
  }

  lemma MissingOnly(s: State, d: int, a: int)
    ensures Missing(s, d, a, a + 1) == if Present(s.Dirent(d, Hi(a))) then 0 else 1
  {
    assert Absent(s, d, Hi(a) + 1, Hi(a) + 1) == 0;
  }

  lemma MissingSame(s: State, t: State, d: int, lo: int, hi: int)
    requires Tabled(s, t, d, 0, 0)
    ensures Missing(t, d, lo, hi) == Missing(s, d, lo, hi)
  {
    if lo < hi {
      AbsentSame(s, t, d, Hi(lo), Hi(hi - 1) + 1);
    }
  }

  /** Writing a page that is not the directory leaves its tables. */
  lemma OtherPage(s: State, t: State, d: int)
    requires PageOf(t, d) == PageOf(s, d)
    ensures Tabled(s, t, d, 0, 0)
  {
    assert forall k :: t.Dirent(d, k) == s.Dirent(d, k);
  }

  /** A page-table word is not in a directory. */
  lemma {:induction false} PteTables(s: State, t: State, d: int, v: int, w: int)
    requires Sound(s) && d in s.dirs && Present(s.Dirent(d, Hi(v))) && t.mem == SetPte(s, d, v, w).mem
    ensures Tabled(s, t, d, 0, 0)
  {
    hide Frame, Lo;
    assert TableOk(s, d, Hi(v));
    OtherPage(s, t, d);
  }

  // -------------------------------------------- what the kernel's map costs

  const KERNTABLES := 64

  /** The tables that the first k rows of `kmap` need: the direct map from 512 on, the devices from 1016 on. */
  function Top(dataPage: int, k: int): int {
    if k == 0 then 512 else if k == 1 then 513 else if k == 2 then Hi(KERNPAGE + dataPage - 1) + 1 else 568
  }

  predicate InRows(dataPage: int, k: int, i: int) { 512 <= i < Top(dataPage, k) || (k >= 4 && 1016 <= i < 1024) }

  function RowTables(dataPage: int, k: int): int { Top(dataPage, k) - 512 + if k >= 4 then 8 else 0 }

  /** Directory d has the tables of the first k rows. */
  ghost predicate HasRows(s: State, d: int, dataPage: int, k: int) {
    forall i :: Present(s.Dirent(d, i)) <==> InRows(dataPage, k, i)
  }

  lemma {:induction false} RowsCost(s: State, d: int, dataPage: int, k: int)
    requires 0x100 < dataPage < PHYSPAGES && 0 <= k < 4 && HasRows(s, d, dataPage, k)
    ensures var r := Kmap(dataPage)[k];
            Missing(s, d, r.virt, r.virt + r.pages) == RowTables(dataPage, k + 1) - RowTables(dataPage, k)
    ensures 0 <= RowTables(dataPage, k) <= RowTables(dataPage, k + 1) <= KERNTABLES == RowTables(dataPage, 4)
  {
    var r := Kmap(dataPage)[k];
    var i, j := Hi(r.virt), Hi(r.virt + r.pages - 1) + 1;
    AbsentFrom(s, d, i, if k == 3 then 1016 else if Top(dataPage, k) < i then i else Top(dataPage, k), j);
  }

  lemma {:induction false} RowsTabled(s: State, t: State, d: int, dataPage: int, k: int)
    requires 0x100 < dataPage < PHYSPAGES && 0 <= k < 4 && HasRows(s, d, dataPage, k)
    requires var r := Kmap(dataPage)[k]; Tabled(s, t, d, Hi(r.virt), Hi(r.virt + r.pages - 1) + 1)
    ensures HasRows(t, d, dataPage, k + 1)
  {
    var r := Kmap(dataPage)[k];
    var i, j := Hi(r.virt), Hi(r.virt + r.pages - 1) + 1;
    assert k < 3 ==> 512 <= i <= Top(dataPage, k) <= j == Top(dataPage, k + 1);
  }

  /** What a copy of n pages takes besides the kernel's map: the pages, and a table for each NENT of them. */
  function CopyCost(n: int): int { n + (n + NENT - 1) / NENT }

  lemma {:induction false} CopyCosts(s: State, d: int, dataPage: int, n: int)
    requires HasRows(s, d, dataPage, 4) && 0 <= n <= KERNPAGE
    ensures Cost(s, d, 0, n) == CopyCost(n)
  {
    if n > 0 {
      AbsentFrom(s, d, 0, 0, Hi(n - 1) + 1);
    }
  }

  /** The first of the pages v to n that d does not map, or n. */
  function FirstAbsent(s: State, d: int, v: int, n: int): (r: int)
    ensures v <= n ==> v <= r <= n
    decreases n - v
  {
    if v >= n then n else if s.Pte(d, v) == 0 then v else FirstAbsent(s, d, v + 1, n)
  }

  lemma {:induction false} AbsentBefore(s: State, d: int, v: int, i: int, n: int)
    requires v <= i <= FirstAbsent(s, d, v, n) && i < n
    ensures i == FirstAbsent(s, d, v, n) <==> s.Pte(d, i) == 0
    decreases n - v
  {
    hide PteOf;
    if v < i {
      AbsentBefore(s, d, v + 1, i, n);
    }
  }

  lemma AbsentAt(s: State, d: int, i: int, n: int)
    requires 0 <= i <= FirstAbsent(s, d, 0, n) && i < n
    ensures i == FirstAbsent(s, d, 0, n) <==> s.Pte(d, i) == 0
  {
    AbsentBefore(s, d, 0, i, n);
  }

  lemma CopyCostPositive(n: int)
    ensures n >= 0 ==> CopyCost(n) >= 0
  {
  }

  /** A new directory has no tables, and takes one page. */
  lemma NoRows(s: State, t: State, d: int, dataPage: int)
    requires s.free != [] && t == NewDir(Take(s), d)
    ensures HasRows(t, d, dataPage, 0) && |t.free| == |s.free| - 1 && RowTables(dataPage, 0) == 0
  {
  }

  // ----------------------------------------------------------- the machine

  class Memory {
    const dataPage: int            // first page of kernel data
    var mem: map<int, Page>        // contents of the pool's pages
    var free: seq<int>             // kmem.freelist
    ghost var dirs: set<int>       // the page directories in use
    ghost var own: map<int, Role>

    ghost function S(): State
      reads this
    {
      State(mem, free, dirs, own)
    }

    ghost predicate Valid()
      reads this
    {
      Sound(S()) && 0x100 < dataPage < PHYSPAGES
    }

    /** `freerange` on an empty list: every whole page from lo to hi goes to the free list, the last first. */
    constructor (dataPage: int, lo: int, hi: int)
      requires 0x100 < dataPage < PHYSPAGES && 0 < lo <= hi
      ensures Valid() && this.dataPage == dataPage && dirs == {} && free == seq(hi - lo, i => hi - 1 - i)
      ensures forall f :: f in mem <==> lo <= f < hi
    {
      this.dataPage, mem, free, dirs, own := dataPage, map[], [], {}, map[];
      new;
      var p := lo;
      while p < hi
        invariant lo <= p <= hi && dirs == {} && free == seq(p - lo, i => p - 1 - i)
        invariant forall f :: f in mem <==> lo <= f < p
        invariant forall f :: f in own <==> lo <= f < p
        invariant forall f :: lo <= f < p ==> |mem[f]| == NENT && own[f] == Free
        modifies this
      {
        mem := mem[p := Junk()];
        free := [p] + free;
        own := own[p := Free];
        p := p + 1;
      }
      AllFree(S(), lo, hi);
    }

    method Kalloc() returns (f: int)
      requires Valid()
      modifies this
      ensures Valid() && dirs == old(dirs) && mem == old(mem)
      ensures old(free) == [] ==> f == 0 && S() == old(S())
      ensures old(free) != [] ==> f == old(free[0]) && f != 0 && S() == Take(old(S())) && old(S()).Of(f) == Free
      ensures SameMaps(old(S()), S())
    {
      f := 0;
      if free != [] {
        TakeSound(S());
        f := free[0];
        free := free[1..];
        own := own[f := Held];
      }
    }

    /** The caller says which use of f ends. */
    method Kfree(f: int)
      requires f in mem
      modifies this
      ensures S() == Give(old(S()), f)
    {
      mem := mem[f := Junk()];
      free := [f] + free;
      own := own[f := Free];
    }

    /** `walkpgdir`: the table page for v, or 0. */
    method WalkPgdir(d: int, v: int, alloc: bool) returns (t: int)
      requires Valid() && d in dirs && 0 <= v < VPAGES
      modifies this
      ensures Valid() && dirs == old(dirs)
      ensures t == 0 <==> !Present(old(S()).Dirent(d, Hi(v))) && (!alloc || old(free) == [])
      ensures t != 0 ==> Present(S().Dirent(d, Hi(v))) && t == Frame(S().Dirent(d, Hi(v))) && t in mem
      ensures t == 0 || Present(old(S()).Dirent(d, Hi(v))) ==> S() == old(S())
      ensures SameMaps(old(S()), S()) && GrewBy(old(S()), S(), d, 0) && Keeps(old(S()), S(), 0, 0, 0)
      ensures t != 0 ==> Tabled(old(S()), S(), d, Hi(v), Hi(v) + 1)
      ensures t != 0 ==> |free| == |old(free)| - if Present(old(S()).Dirent(d, Hi(v))) then 0 else 1
    {
      hide Sound, PteOf, At;
      ghost var s := S();
      DirPage(s, d, v);
      var pde := mem[d][Hi(v)];
      if Present(pde) {
        t := Frame(pde);
      } else {
        if !alloc {
          return 0;
        }
        t := Kalloc();
        if t == 0 {
          return 0;
        }
        AddTableSound(S(), d, v, t);
        TableAdded(s, d, v);
        mem := mem[t := Zeros()];
        mem := Put(mem, d, Hi(v), Word(t, 6));
        own := own[t := Table(d, Hi(v))];
        assert S() == AddTable(Take(s), d, v, t);
        DirPage(S(), d, v);
      }
    }

    /** `mappages`: n pages from v to physical pages from `first`; m of them are mapped. */
    method MapPages(d: int, v: int, n: int, first: int, perm: int) returns (ok: bool, ghost m: int)
      requires Valid() && d in dirs && 0 <= v && 0 < n && v + n <= VPAGES && 0 <= perm < 4096
      requires forall u :: v <= u < v + n ==> S().Pte(d, u) == 0
      requires v >= KERNPAGE || (n == 1 && S().Of(first) == Held)
      modifies this
      ensures Valid() && dirs == old(dirs) && 0 <= m <= n && (ok <==> m == n) && (!ok ==> free == [])
      ensures ok <==> |old(free)| >= Missing(old(S()), d, v, v + n)
      ensures ok ==> |free| == |old(free)| - Missing(old(S()), d, v, v + n)
      ensures ok ==> Tabled(old(S()), S(), d, Hi(v), Hi(v + n - 1) + 1)
      ensures Added(old(S()), S(), d, v, m, first, perm)
      ensures v >= KERNPAGE ==> GrewBy(old(S()), S(), d, 0) && Keeps(old(S()), S(), 0, 0, 0)
      ensures v < KERNPAGE ==> UserStep(old(S()), S(), d, first, if ok then User(d, v) else Held)
    {
      hide Sound, PteOf, At, Word, TableOk, Absent, Hi;
      var a, pa, last := v, first, v + n - 1;
      ghost var s := S();
      m := 0;
      while true
        invariant v <= a <= last && m == a - v == pa - first
        invariant Valid() && dirs == old(dirs) && Added(s, S(), d, v, m, first, perm)
        invariant v < KERNPAGE ==> UserStep(s, S(), d, first, Held)
        invariant v >= KERNPAGE ==> GrewBy(s, S(), d, 0) && Keeps(s, S(), 0, 0, 0)
        invariant |free| - Missing(S(), d, a, v + n) == |s.free| - Missing(s, d, v, v + n)
        invariant Tabled(s, S(), d, Hi(v), Reach(v, a))
        decreases last - a
      {
        ghost var s1 := S();
        var t := WalkPgdir(d, a, true);
        WalkAdds(s, s1, S(), d, v, m, first, perm);
        if v < KERNPAGE {
          WalkUser(s, s1, S(), d, first);
        } else {
          GrewOn(s, s1, S(), d);
        }
        if t == 0 {
          MissingOne(s1, d, a, v + n);
          ok := false;
          return;
        }
        ghost var s2 := S();
        MissingGot(s1, s2, d, a, v + n);
        assert s2.Pte(d, a) == 0;
        PteWord(s2, d, a);
        assert !Present(mem[t][Lo(a)]);    // no "remap" panic
        mem := Put(mem, t, Lo(a), Word(pa, perm));
        if v < KERNPAGE {
          own := own[pa := User(d, a)];
          MapUserSound(s2, d, a, pa, perm);
          UserMapped(s, s2, d, a, pa, perm);
          assert S() == MapUser(s2, d, a, pa, perm);
        } else {
          MapKernelSound(s2, d, a, Word(pa, perm));
          KernelMapped(s, s2, d, a, Word(pa, perm));
          assert S() == SetPte(s2, d, a, Word(pa, perm));
        }
        PteTables(s2, S(), d, a, Word(pa, perm));
        MissingSame(s2, S(), d, a + 1, v + n);
        TabledOn(s, s1, s2, S(), d, v, a);
        m := m + 1;
        AddedOne(s, s2, S(), d, v, m - 1, first, perm);
        if a == last {
          ok := true;
          return;
        }
        a, pa := a + 1, pa + 1;
      }
    }

    /** `deallocuvm` does what a scan of every page does. */
    method DeallocUvm(d: int, oldsz: int, newsz: int) returns (r: int)
      requires Valid() && d in dirs && 0 <= newsz && 0 <= oldsz <= KERNBASE
      modifies this
      ensures Valid() && dirs == old(dirs)
      ensures newsz >= oldsz ==> r == oldsz && S() == old(S())
      ensures newsz < oldsz ==> r == newsz && S() == Scan(old(S()), d, PageUp(newsz), PageUp(oldsz))
    {
      hide Sound, PteOf, At, TableOk, Unmap, Give, Frame;
      if newsz >= oldsz {
        return oldsz;
      }
      ghost var lo, hi := PageUp(newsz), PageUp(oldsz);
      var a := PageUp(newsz);
      while a * PGSIZE < oldsz
        invariant lo <= a && Valid() && dirs == old(dirs)
        invariant Scan(old(S()), d, lo, hi) == Scan(S(), d, a, hi)
        decreases hi - a
      {
        ghost var s := S();
        var pte := WalkPgdir(d, a, false);
        if pte == 0 {
          SkipAbsent(s, d, a, hi, (Hi(a) + 1) * NENT);
          a := (Hi(a) + 1) * NENT - 1;
        } else {
          PteWord(s, d, a);
          var w := mem[pte][Lo(a)];
          if Present(w) {
            FreeOne(s, d, a);
            FreeOrder(s, d, a);
            assert Frame(w) != 0;          // no "kfree" panic
            Kfree(Frame(w));
            mem := Put(mem, pte, Lo(a), 0);
            assert S() == Give(Unmap(s, d, a), Frame(w));
          }
        }
        a := a + 1;
      }
      r := newsz;
    }

    /** `allocuvm`; no page of the new part may be mapped already ("remap"). */
    method AllocUvm(d: int, oldsz: int, newsz: int) returns (r: int)
      requires Valid() && d in dirs && 0 <= oldsz && 0 <= newsz
      requires newsz < KERNBASE ==> forall u :: PageUp(oldsz) <= u < PageUp(newsz) ==> S().Pte(d, u) == 0
      modifies this
      ensures Valid() && dirs == old(dirs)
      ensures newsz >= KERNBASE ==> r == 0 && S() == old(S())
      ensures newsz < oldsz && newsz < KERNBASE ==> r == oldsz && S() == old(S())
      ensures oldsz <= newsz < KERNBASE ==> r in {0, newsz}
      ensures oldsz <= newsz < KERNBASE ==>
                Grown(old(S()), S(), d, PageUp(oldsz), if r == newsz then PageUp(newsz) else PageUp(oldsz))
      ensures GrewBy(old(S()), S(), d, 0) && Keeps(old(S()), S(), 0, 0, 0)
      ensures oldsz <= newsz < KERNBASE ==>
                (r == newsz <==> |old(free)| >= Cost(old(S()), d, PageUp(oldsz), PageUp(newsz)))
      ensures oldsz <= newsz < KERNBASE && r == newsz ==>
                |free| == |old(free)| - Cost(old(S()), d, PageUp(oldsz), PageUp(newsz))
      ensures oldsz <= newsz < KERNBASE && r != newsz ==> |free| <= PageUp(newsz) - PageUp(oldsz)
    {
      hide Sound, PteOf, At, Word, TableOk, Scan, Take, Fill, Give, Missing, Hi, Cost, Tabled;
      hide Grown, GrewBy, Keeps, UserStep, Added, Filled, NewPage, GrewHeld, InUse, Names;
      NothingGrown(S(), d, PageUp(oldsz));
      if newsz >= KERNBASE {
        return 0;
      }
      if newsz < oldsz {
        return oldsz;
      }
      ghost var s, lo, hi := S(), PageUp(oldsz), PageUp(newsz);
      var a := PageUp(oldsz);
      while a * PGSIZE < newsz
        invariant lo <= a && (a <= hi || a == lo) && Valid() && dirs == old(dirs)
        invariant Grown(s, S(), d, lo, a) && GrewBy(s, S(), d, 0) && Keeps(s, S(), 0, 0, 0)
        invariant |free| - Cost(S(), d, a, hi) == |s.free| - Cost(s, d, lo, hi)
        decreases hi - a
      {
        ghost var s1 := S();
        CostBounds(s1, d, a, hi);
        var page := Kalloc();
        if page == 0 {
          NoneHeld(s, s1, d);
          var _ := DeallocUvm(d, newsz, oldsz);
          RolledBack(s, s1, d, lo, a, hi, 0);
          NoneHeld(s, S(), d);
          return 0;
        }
        FillTaken(s1, Zeros());
        mem := mem[page := Zeros()];
        ghost var s2 := S();
        assert s2 == Fill(Take(s1), page, Zeros()) by { SameFill(Take(s1), page, Zeros()); }
        ghost var m;
        var ok;
        StillUnmapped(s, s1, s2, d, lo, a, page);
        ok, m := MapPages(d, a, 1, page, 6);
        CostNext(s1, s2, S(), d, a, hi, ok);
        if !ok {
          ghost var s3 := S();
          NotMapped(s, s1, s2, s3, d, lo, a, page);
          var _ := DeallocUvm(d, newsz, oldsz);
          RolledBack(s, s3, d, lo, a, hi, page);
          GiveBack(s, S(), d, page);
          NoneGrown(s, S(), Give(S(), page), d, lo);
          Kfree(page);
          return 0;
        }
        Mapped(s, s1, s2, S(), d, a, page, 6, Zeros());
        GrownOne(s, s1, S(), d, lo, a, page);
        a := a + 1;
      }
      CostBounds(S(), d, a, hi);
      r := newsz;
    }

    /** `freevm` */
    method FreeVm(d: int)
      requires Valid() && d in dirs
      modifies this
      ensures Valid() && dirs == old(dirs) - {d} && Released(old(S()), S(), d)
      ensures SameButFor(old(S()), S(), d)
    {
      hide Sound, PteOf, At, TableOk, Scan, Give, DropDir, Released, SameButFor;
      ghost var s := S();
      var _ := DeallocUvm(d, KERNBASE, 0);
      ScanResult(s, d, 0, KERNPAGE);
      ghost var s1 := S();
      NoUsers(s, s1, d);
      DropDirSound(s1, d);
      Left(s1, d);
      dirs, own := dirs - {d}, DropDir(s1, d).own;
      assert S() == DropDir(s1, d) by { DropIs(s1, d); }
      var i := 0;
      while i < NENT
        invariant 0 <= i <= NENT && Valid() && dirs == old(dirs) - {d} && Leave(s1, S(), d, i)
      {
        ghost var s2 := S();
        LeaveOne(s1, s2, d, i);
        var e := mem[d][i];
        if Present(e) {
          Kfree(Frame(e));
        }
        i := i + 1;
      }
      ghost var s3 := S();
      LeaveLast(s, s1, s3, d);
      Kfree(d);
    }

    /** `setupkvm`: a new directory with the kernel's mappings, or 0 and nothing taken. */
    method SetupKvm() returns (d: int)
      requires Valid()
      modifies this
      ensures Valid() && SameMaps(old(S()), S())
      ensures d == 0 ==> dirs == old(dirs) && forall f :: S().Of(f) == old(S()).Of(f)
      ensures d != 0 <==> old(|free|) >= 1 + KERNTABLES
      ensures d != 0 ==> |free| == old(|free|) - 1 - KERNTABLES && HasRows(S(), d, dataPage, 4)
      ensures d != 0 ==> d !in old(dirs) && dirs == old(dirs) + {d}
      ensures d != 0 ==> forall v :: S().Pte(d, v) == KernelPte(dataPage, v)
      ensures GrewBy(old(S()), S(), d, 0) && Keeps(old(S()), S(), 0, 0, 0)
    {
      hide Sound, PteOf, At, Word, TableOk, Take, Fill, NewDir, KernelPte, Missing, Tabled, HasRows, RowTables, Hi;
      ghost var s := S();
      d := Kalloc();
      if d == 0 {
        return;
      }
      DirTaken(s, d);
      mem, dirs, own := mem[d := Zeros()], dirs + {d}, own[d := Dir];
      assert S() == NewDir(Take(s), d) by { NewDirIs(Take(s), d); }
      NoRows(s, S(), d, dataPage);
      var k := 0;
      while k < 4
        invariant 0 <= k <= 4 && Valid() && dirs == old(dirs) + {d}
        invariant forall v :: S().Pte(d, v) == RowsPte(dataPage, k, v)
        invariant SameMaps(s, S()) && GrewBy(s, S(), d, 0) && Keeps(s, S(), 0, 0, 0)
        invariant HasRows(S(), d, dataPage, k) && |free| == |s.free| - 1 - RowTables(dataPage, k)
        invariant k == 4 ==> RowTables(dataPage, k) == KERNTABLES
      {
        RowsCost(S(), d, dataPage, k);
        var r := Kmap(dataPage)[k];
        forall v | r.virt <= v < r.virt + r.pages
          ensures RowsPte(dataPage, k, v) == 0
        {
          RowsApart(dataPage, k, v);
        }
        ghost var s1 := S();
        ghost var m;
        var ok;
        ok, m := MapPages(d, r.virt, r.pages, r.phys, r.perm);
        OtherMaps(s, s1, S(), d, r.virt, m, r.phys, r.perm);
        GrewOn(s, s1, S(), d);
        if !ok {
          ghost var s2 := S();
          FreeVm(d);
          AllBack(s, s2, S(), d);
          return 0;
        }
        NextRow(s1, S(), d, dataPage, k);
        RowsTabled(s1, S(), d, dataPage, k);
        k := k + 1;
      }
      forall v
        ensures S().Pte(d, v) == KernelPte(dataPage, v)
      {
        RowsAreDirect(dataPage, v);
      }
    }

    /** `copyuvm`: a copy of the first sz bytes of d, or 0 and nothing taken; or the panic at an absent page. */
    method CopyUvm(d: int, sz: int) returns (c: int, panics: bool)
      requires Valid() && d in dirs && 0 <= sz <= KERNBASE
      modifies this
      ensures Valid() && SameMaps(old(S()), S())
      ensures var n := FirstAbsent(old(S()), d, 0, PageUp(sz));
              && 0 <= n <= PageUp(sz)
              && (c == 0 <==> old(|free|) < 1 + KERNTABLES + CopyCost(n))
              && (panics <==> n < PageUp(sz) && c != 0)
              && (c != 0 ==> |free| == old(|free|) - 1 - KERNTABLES - CopyCost(n))
              && (c != 0 ==> Copied(old(S()), S(), d, c, n, dataPage))
      ensures c == 0 ==> dirs == old(dirs) && forall f :: S().Of(f) == old(S()).Of(f)
      ensures c != 0 ==> c !in old(dirs) && dirs == old(dirs) + {c}
      ensures GrewBy(old(S()), S(), c, 0) && Keeps(old(S()), S(), 0, 0, 0)
    {
      hide Sound, PteOf, At, Word, TableOk, Take, Fill, Give, KernelPte, Frame, Flags;
      hide GrewBy, Keeps, Copied, UserStep, Added, Filled, NewPage, Released, SameButFor, GrewHeld, InUse, Names;
      hide Cost, CopyCost, Missing, Tabled, HasRows, Hi, FirstAbsent;
      ghost var s := S();
      ghost var n := FirstAbsent(s, d, 0, PageUp(sz));
      panics := false;
      CopyCostPositive(n);
      c := SetupKvm();
      if c == 0 {
        return;
      }
      CopyCosts(S(), c, dataPage, n);
      CopiedNone(s, S(), d, c, dataPage);
      var i := 0;
      while i * PGSIZE < sz
        invariant 0 <= i <= n && Valid() && dirs == old(dirs) + {c}
        invariant SameMaps(s, S()) && GrewBy(s, S(), c, 0) && Keeps(s, S(), 0, 0, 0)
        invariant Copied(s, S(), d, c, i, dataPage)
        invariant |free| - Cost(S(), c, i, n) == |s.free| - 1 - KERNTABLES - CopyCost(n)
        decreases PageUp(sz) - i
      {
        ghost var s1 := S();
        CostBounds(s1, c, i, n);
        AbsentAt(s, d, i, PageUp(sz));
        var pt := WalkPgdir(d, i, false);
        if pt == 0 {                                 // "pte should exist"
          NoTable(s1, d, i);
          panics := true;
          return;
        }
        PteWord(s1, d, i);
        var pte := mem[pt][Lo(i)];
        if !Present(pte) {                           // "page not present"
          panics := true;
          return;
        }
        CopyReady(s, s1, d, c, i, dataPage);
        var pa, flags := Frame(pte), Flags(pte);
        var page := Kalloc();
        if page == 0 {
          NoneHeld(s, s1, c);
          FreeVm(c);
          AllBack(s, s1, S(), c);
          c := 0;
          return;
        }
        ghost var p := mem[pa];
        FillTaken(s1, mem[pa]);
        mem := mem[page := mem[pa]];
        ghost var s2 := S();
        assert s2 == Fill(Take(s1), page, p) by { SameFill(Take(s1), page, p); }
        ghost var m;
        var ok;
        ok, m := MapPages(c, i, 1, page, flags);
        CostNext(s1, s2, S(), c, i, n, ok);
        if !ok {
          ghost var s3 := S();
          UserNotMapped(s, s1, s2, s3, c, i, page, flags, p);
          GiveBack(s, s3, c, page);
          Kfree(page);
          ghost var s4 := S();
          MapsAgain(s, s3, s4);
          FreeVm(c);
          AllBack(s, s4, S(), c);
          c := 0;
          return;
        }
        Mapped(s, s1, s2, S(), c, i, page, flags, p);
        CopiedOne(s, s1, S(), d, c, i, dataPage);
        i := i + 1;
      }
      CostBounds(S(), c, i, n);
    }

    /** `getphysicalpages` */
    method GetPhysicalPages(d: int, sz: int) returns (cnt: int)
      requires Valid() && d in dirs && 0 <= sz <= KERNBASE
      modifies this
      ensures S() == old(S()) && cnt == CountUsers(mem, d, PageUp(sz))
    {
      hide Sound, PteOf, At, TableOk, Frame;
      cnt := 0;
      var i := 0;
      while i * PGSIZE < sz
        invariant 0 <= i <= PageUp(sz) && S() == old(S()) && cnt == CountUsers(mem, d, i)
        decreases PageUp(sz) - i
      {
        var pt := WalkPgdir(d, i, false);
        if pt == 0 {
          NoTable(S(), d, i);
        } else {
          PteWord(S(), d, i);
          if Present(mem[pt][Lo(i)]) {
            cnt := cnt + 1;
          }
        }
        i := i + 1;
      }
    }

    /** `getSizePgTable` */
    method GetSizePgTable(d: int) returns (cnt: int)
      requires Valid() && d in dirs
      ensures cnt == 1 + CountTables(mem, d, NENT)
    {
      DirPage(S(), d, 0);
      var i := 0;
      cnt := 1;
      while i < NENT
        invariant 0 <= i <= NENT && cnt == 1 + CountTables(mem, d, i)
      {
        if Present(mem[d][i]) {
          cnt := cnt + 1;
        }
        i := i + 1;
      }
    }

    /** `freememstat` */
    method FreeMemStat() returns (bytes: int)
      ensures bytes == |free| * PGSIZE
    {
      var cnt, r := 0, free;
      while r != []
        invariant cnt + |r| == |free|
      {
        cnt, r := cnt + 1, r[1..];
      }
      bytes := cnt * PGSIZE;
    }
  }

  // ------------------------------------------------- steps of the methods

  /** A pool that is all on the free list. */
  lemma {:induction false} AllFree(s: State, lo: int, hi: int)
    requires 0 < lo <= hi && s.dirs == {} && s.free == seq(hi - lo, i => hi - 1 - i)
    requires (forall f :: f in s.mem <==> lo <= f < hi) && (forall f :: f in s.own <==> lo <= f < hi)
    requires forall f :: lo <= f < hi ==> |s.mem[f]| == NENT && s.own[f] == Free
    ensures Sound(s)
  {
    forall f
      ensures f in s.mem.Keys <==> f in s.own.Keys
    {
    }
    assert s.mem.Keys == s.own.Keys;
    forall f
      ensures RoleOk(s, f)
    {
      if lo <= f < hi {
        assert s.free[hi - 1 - f] == f;
      }
    }
  }

  lemma DirPage(s: State, d: int, v: int)
    requires Sound(s) && d in s.dirs && 0 <= v < VPAGES
    ensures d in s.mem && 0 <= Hi(v) < |s.mem[d]| == NENT && s.mem[d][Hi(v)] == s.Dirent(d, Hi(v))
    ensures Present(s.Dirent(d, Hi(v))) ==>
              Frame(s.Dirent(d, Hi(v))) in s.mem && Frame(s.Dirent(d, Hi(v))) != 0
  {
    assert TableOk(s, d, Hi(v));
  }

  lemma {:induction false} TableAdded(s: State, d: int, v: int)
    requires Sound(s) && d in s.dirs && 0 <= v < VPAGES && s.free != [] && !Present(s.Dirent(d, Hi(v)))
    ensures var t := AddTable(Take(s), d, v, s.free[0]);
            GrewBy(s, t, d, 0) && Keeps(s, t, 0, 0, 0) && Tabled(s, t, d, Hi(v), Hi(v) + 1)
  {
    TakeSound(s);
    AddTableTables(Take(s), d, v, s.free[0]);
    hide At, Present;
  }

  lemma {:induction false} AddTableTables(s: State, d: int, v: int, f: int)
    requires Sound(s) && d in s.dirs && 0 <= v < VPAGES && s.Of(f) == Held
    ensures Tabled(s, AddTable(s, d, v, f), d, Hi(v), Hi(v) + 1)
  {
    hide Frame, Hi;
    HiBound(v);
    assert s.Of(d) == Dir && d in s.mem && |s.mem[d]| == NENT;
    assert Present(Word(f, 6));
  }

  /** Page x goes from held to role r; the rest as in GrewBy and Keeps. */
  ghost predicate UserStep(s: State, t: State, d: int, x: int, r: Role) {
    && GrewBy(s, t, d, x) && t.Of(x) == r && PageOf(t, x) == PageOf(s, x)
    && forall f {:trigger s.Of(f)} :: f != x && InUse(s.Of(f), 0, 0, 0) ==> KeptPage(s, t, f)
  }

  lemma WalkAdds(s: State, t: State, u: State, d: int, v: int, m: int, f: int, perm: int)
    requires 0 <= perm < 4096 && Added(s, t, d, v, m, f, perm) && SameMaps(t, u) && s.dirs == t.dirs
    ensures Added(s, u, d, v, m, f, perm)
  {
    hide PteOf, Word;
  }

  lemma WalkUser(s: State, t: State, u: State, d: int, x: int)
    requires UserStep(s, t, d, x, Held) && GrewBy(t, u, d, 0) && Keeps(t, u, 0, 0, 0)
    ensures UserStep(s, u, d, x, Held)
  {
  }

  lemma GrewOn(s: State, t: State, u: State, d: int)
    requires GrewBy(s, t, d, 0) && Keeps(s, t, 0, 0, 0) && GrewBy(t, u, d, 0) && Keeps(t, u, 0, 0, 0)
    ensures GrewBy(s, u, d, 0) && Keeps(s, u, 0, 0, 0)
  {
  }

  lemma PteWord(s: State, d: int, v: int)
    requires Sound(s) && d in s.dirs && Present(s.Dirent(d, Hi(v)))
    ensures var t := Frame(s.Dirent(d, Hi(v)));
            t in s.mem && |s.mem[t]| == NENT && s.Pte(d, v) == IfPresent(s.mem[t][Lo(v)])
  {
    assert TableOk(s, d, Hi(v));
  }

  lemma {:induction false} UserMapped(s: State, t: State, d: int, v: int, x: int, perm: int)
    requires Sound(t) && d in t.dirs && 0 <= v < KERNPAGE && 0 <= perm < 4096
    requires Present(t.Dirent(d, Hi(v))) && UserStep(s, t, d, x, Held)
    ensures UserStep(s, MapUser(t, d, v, x, perm), d, x, User(d, v))
  {
    hide Present, Frame, At, Word, Lo;
    assert TableOk(t, d, Hi(v));
    assert forall f :: f != x ==> MapUser(t, d, v, x, perm).Of(f) == t.Of(f);
  }

  lemma {:induction false} KernelMapped(s: State, t: State, d: int, v: int, w: int)
    requires Sound(t) && d in t.dirs && Present(t.Dirent(d, Hi(v)))
    requires GrewBy(s, t, d, 0) && Keeps(s, t, 0, 0, 0)
    ensures GrewBy(s, SetPte(t, d, v, w), d, 0) && Keeps(s, SetPte(t, d, v, w), 0, 0, 0)
  {
    hide Present, Frame, At, Lo;
    assert TableOk(t, d, Hi(v));
  }

  lemma AddedOne(s: State, t: State, u: State, d: int, v: int, m: int, f: int, perm: int)
    requires 0 <= perm < 4096 && 0 <= m && s.dirs == t.dirs && Added(s, t, d, v, m, f, perm)
    requires forall e, w :: e in t.dirs ==>
               u.Pte(e, w) == if e == d && w == v + m then Word(f + m, perm) else t.Pte(e, w)
    ensures Added(s, u, d, v, m + 1, f, perm)
  {
    hide PteOf, Word;
  }

  /** Freeing the page before or after clearing its word makes no difference. */
  lemma {:induction false} FreeOrder(s: State, d: int, v: int)
    requires Sound(s) && d in s.dirs && 0 <= v < KERNPAGE && s.Pte(d, v) != 0
    ensures var f, t := Frame(s.Pte(d, v)), Frame(s.Dirent(d, Hi(v)));
            && f in s.mem && t in s.mem && f != 0
            && Give(s, f).(mem := Put(Give(s, f).mem, t, Lo(v), 0)) == Give(Unmap(s, d, v), f)
  {
    hide Lo, Frame;
    var f, t := Frame(s.Pte(d, v)), Frame(s.Dirent(d, Hi(v)));
    assert TableOk(s, d, Hi(v));
    assert UserOk(s, d, v);
    assert Give(s, f).(mem := Put(Give(s, f).mem, t, Lo(v), 0)).mem == Give(Unmap(s, d, v), f).mem;
    assert Give(s, f).own == Give(Unmap(s, d, v), f).own;
  }

  // ---------------------------------------------------- steps of allocuvm

  /** As GrewBy, with page x held for d and not yet in it. */
  ghost predicate GrewHeld(s: State, t: State, d: int, x: int) {
    forall f :: t.Of(f) == s.Of(f) || (s.Of(f) == Free && ((f == x && t.Of(f) == Held) || Names(t.Of(f), d, f)))
  }

  /** Page f has just been taken and filled with p. */
  ghost predicate Filled(s: State, t: State, f: int, p: Page) {
    && s.Of(f) == Free && SameMaps(s, t) && t.dirs == s.dirs
    && (forall g :: t.Of(g) == if g == f then Held else s.Of(g))
    && (forall g :: PageOf(t, g) == if g == f then p else PageOf(s, g))
  }

  lemma {:induction false} FillTaken(s: State, p: Page)
    requires Sound(s) && s.free != [] && |p| == NENT
    ensures var t := Fill(Take(s), s.free[0], p);
            Sound(t) && Filled(s, t, s.free[0], p) && t.Of(s.free[0]) == Held && SameMaps(s, t) && t.dirs == s.dirs
            && |t.free| == |s.free| - 1
  {
    hide PteOf;
    TakeSound(s);
    FillSound(Take(s), s.free[0], p);
  }

  lemma NothingGrown(s: State, d: int, lo: int)
    ensures Grown(s, s, d, lo, lo) && GrewBy(s, s, d, 0) && Keeps(s, s, 0, 0, 0)
  {
  }

  lemma NoneGrown(s: State, t: State, u: State, d: int, lo: int)
    requires Grown(s, t, d, lo, lo) && SameMaps(t, u) && t.dirs == s.dirs
    ensures Grown(s, u, d, lo, lo)
  {
    hide PteOf;
  }

  /** A page that has been filled (s2) for the next address is held, and nothing is mapped there. */
  lemma StillUnmapped(s: State, s1: State, s2: State, d: int, lo: int, a: int, x: int)
    requires Grown(s, s1, d, lo, a) && Filled(s1, s2, x, Zeros()) && d in s.dirs && s1.dirs == s.dirs
    requires s.Pte(d, a) == 0
    ensures s2.Pte(d, a) == 0 && s2.Of(x) == Held && PageOf(s2, x) == Zeros()
  {
    hide PteOf, Zeros;
  }

  lemma SameFill(s: State, f: int, p: Page)
    ensures Fill(s, f, p) == s.(mem := s.mem[f := p])
  {
  }

  /** Going back over everything from lo to hi leaves only page tables behind. */
  lemma {:induction false} RolledBack(s: State, s1: State, d: int, lo: int, a: int, hi: int, x: int)
    requires Sound(s) && Sound(s1) && d in s.dirs && s1.dirs == s.dirs && 0 <= lo <= a <= hi <= KERNPAGE
    requires Grown(s, s1, d, lo, a) && GrewHeld(s, s1, d, x) && Keeps(s, s1, 0, 0, 0)
    requires forall u :: lo <= u < hi ==> s.Pte(d, u) == 0
    ensures var t := Scan(s1, d, lo, hi);
            Sound(t) && Grown(s, t, d, lo, lo) && GrewHeld(s, t, d, x) && Keeps(s, t, 0, 0, 0)
            && (s1.Of(x) == Held ==> t.Of(x) == Held) && |t.free| <= |s1.free| + a - lo
  {
    hide Scan, Sound, PteOf, PageOf;
    ScanResult(s1, d, lo, hi);
    MetLength(s1, d, lo, a, hi);
    forall f
      ensures !(s.Of(f).User? && s.Of(f).dir == d && lo <= s.Of(f).v < hi)
    {
      SoundRole(s, f);
    }
    var t := Scan(s1, d, lo, hi);
    forall f | InUse(s.Of(f), 0, 0, 0)
      ensures KeptPage(s, t, f)
    {
      assert KeptPage(s, s1, f) && InUse(s1.Of(f), d, lo, hi);
    }
  }

  lemma {:induction false} MetLength(s: State, d: int, lo: int, a: int, hi: int)
    requires lo <= a <= hi && forall u :: a <= u < hi ==> s.Pte(d, u) == 0
    ensures |Met(s, d, lo, hi)| <= a - lo
    decreases hi - lo
  {
    hide PteOf;
    if lo < hi {
      MetLength(s, d, lo + 1, if a == lo then a + 1 else a, hi);
    }
  }

  lemma SoundRole(s: State, f: int)
    requires Sound(s)
    ensures RoleOk(s, f)
  {
  }

  lemma NoneHeld(s: State, t: State, d: int)
    requires Sound(s) && Sound(t)
    ensures GrewHeld(s, t, d, 0) <==> GrewBy(s, t, d, 0)
  {
    assert s.Of(0) == Outside && t.Of(0) == Outside;
  }

  lemma {:induction false} GiveBack(s: State, t: State, d: int, x: int)
    requires Sound(t) && t.Of(x) == Held && s.Of(x) == Free && GrewHeld(s, t, d, x) && Keeps(s, t, 0, 0, 0)
    ensures x in t.mem && Give(t, x).dirs == t.dirs && |Give(t, x).free| == |t.free| + 1
    ensures var u := Give(t, x); Sound(u) && SameMaps(t, u) && GrewBy(s, u, d, 0) && Keeps(s, u, 0, 0, 0)
  {
    GiveSound(t, x);
    hide Sound, PteOf;
  }

  lemma {:induction false} NotMapped(s: State, s1: State, s2: State, s3: State, d: int, lo: int, a: int, x: int)
    requires Sound(s1) && s1.dirs == s.dirs && Filled(s1, s2, x, Zeros())
    requires Grown(s, s1, d, lo, a) && GrewBy(s, s1, d, 0) && Keeps(s, s1, 0, 0, 0) && d in s.dirs
    requires 0 <= lo && a < KERNPAGE && UserStep(s2, s3, d, x, Held) && Added(s2, s3, d, a, 0, x, 6)
    ensures Grown(s, s3, d, lo, a) && GrewHeld(s, s3, d, x) && Keeps(s, s3, 0, 0, 0)
    ensures s.Of(x) == Free && s3.Of(x) == Held
  {
    hide PteOf, Frame, Flags, Zeros;
    OldPages(s1, s2, s3, d, x);
  }

  /** The pages that d maps are not written while x is mapped. */
  lemma {:induction false} OldPages(s1: State, s2: State, s3: State, d: int, x: int)
    requires Sound(s1) && s1.Of(x) == Free && d in s1.dirs
    requires forall g :: g != x ==> s2.Of(g) == s1.Of(g) && PageOf(s2, g) == PageOf(s1, g)
    requires forall f {:trigger s2.Of(f)} :: f != x && InUse(s2.Of(f), 0, 0, 0) ==> KeptPage(s2, s3, f)
    ensures forall u :: 0 <= u < KERNPAGE && s1.Pte(d, u) != 0 ==>
              PageOf(s3, Frame(s1.Pte(d, u))) == PageOf(s1, Frame(s1.Pte(d, u)))
  {
    hide PteOf, Frame, PageOf;
    forall u | 0 <= u < KERNPAGE && s1.Pte(d, u) != 0
      ensures PageOf(s3, Frame(s1.Pte(d, u))) == PageOf(s1, Frame(s1.Pte(d, u)))
    {
      var f := Frame(s1.Pte(d, u));
      assert UserOk(s1, d, u);
      assert s2.Of(f) == s1.Of(f) && KeptPage(s2, s3, f);
    }
  }

  /** One page more in d. */
  lemma {:induction false} Mapped(s: State, s1: State, s2: State, s3: State, d: int, a: int, x: int, perm: int, p: Page)
    requires Sound(s1) && Filled(s1, s2, x, p) && 0 <= perm < 4096
    requires GrewBy(s, s1, d, 0) && Keeps(s, s1, 0, 0, 0) && d in s1.dirs
    requires UserStep(s2, s3, d, x, User(d, a)) && Added(s2, s3, d, a, 1, x, perm)
    ensures GrewBy(s, s3, d, 0) && Keeps(s, s3, 0, 0, 0)
    ensures NewPage(s, s3, s3.Pte(d, a), if perm % 2 == 1 then perm else perm + 1, p)
    ensures forall u :: 0 <= u < KERNPAGE && u != a && s1.Pte(d, u) != 0 ==>
              s3.Pte(d, u) == s1.Pte(d, u) && PageOf(s3, Frame(s1.Pte(d, u))) == PageOf(s1, Frame(s1.Pte(d, u)))
    ensures forall e, u :: e in s1.dirs && !(e == d && u == a) ==> s3.Pte(e, u) == s1.Pte(e, u)
  {
    OldPages(s1, s2, s3, d, x);
    hide Sound, PteOf, Frame, Flags;
  }

  lemma {:induction false} GrownOne(s: State, s1: State, s3: State, d: int, lo: int, a: int, x: int)
    requires s1.dirs == s.dirs && d in s.dirs && 0 <= lo <= a < KERNPAGE && Grown(s, s1, d, lo, a)
    requires NewPage(s, s3, s3.Pte(d, a), 7, Zeros())
    requires forall u :: 0 <= u < KERNPAGE && u != a && s1.Pte(d, u) != 0 ==>
               s3.Pte(d, u) == s1.Pte(d, u) && PageOf(s3, Frame(s1.Pte(d, u))) == PageOf(s1, Frame(s1.Pte(d, u)))
    requires forall e, u :: e in s1.dirs && !(e == d && u == a) ==> s3.Pte(e, u) == s1.Pte(e, u)
    ensures Grown(s, s3, d, lo, a + 1)
  {
    hide PteOf, Frame, PageOf;
  }

  // ------------------------------------------------------ steps of freevm

  /** Other directories and all pages not of d are as before. */
  ghost predicate SameButFor(s: State, t: State, d: int) {
    && (forall e, u :: e in s.dirs && e != d ==> t.Pte(e, u) == s.Pte(e, u))
    && (forall f {:trigger s.Of(f)} :: InUse(s.Of(f), 0, 0, 0) && !Names(s.Of(f), d, f) ==> KeptPage(s, t, f))
  }

  /** `freevm` has freed the first i tables of d, which has no user pages in s. */
  ghost predicate Leave(s: State, t: State, d: int, i: int) {
    && (forall f :: t.Of(f) == Leaving(s.Of(f), d, f, i))
    && (forall e, u :: e in s.dirs && e != d ==> t.Pte(e, u) == s.Pte(e, u))
    && (forall f {:trigger s.Of(f)} :: InUse(s.Of(f), 0, 0, 0) ==> KeptPage(s, t, f))
    && PageOf(t, d) == PageOf(s, d) && Sound(s) && d in s.dirs && t.dirs == s.dirs - {d}
  }

  lemma NoUsers(s: State, t: State, d: int)
    requires Shrunk(s, t, d, 0, KERNPAGE) && d in s.dirs
    ensures forall v :: 0 <= v < KERNPAGE ==> t.Pte(d, v) == 0
  {
    hide PteOf;
  }

  lemma DropIs(s: State, d: int)
    ensures DropDir(s, d).mem == s.mem && DropDir(s, d).free == s.free && DropDir(s, d).dirs == s.dirs - {d}
  {
  }

  lemma Left(s: State, d: int)
    requires Sound(s) && d in s.dirs && forall v :: 0 <= v < KERNPAGE ==> s.Pte(d, v) == 0
    ensures Leave(s, DropDir(s, d), d, 0)
  {
    hide PteOf;
    forall f
      ensures DropDir(s, d).Of(f) == Leaving(s.Of(f), d, f, 0)
    {
      assert RoleOk(s, f);
    }
  }

  lemma {:induction false} LeaveOne(s: State, t: State, d: int, i: int)
    requires Sound(t) && Leave(s, t, d, i) && 0 <= i < NENT
    ensures d in t.mem && |t.mem[d]| == NENT && t.mem[d][i] == s.Dirent(d, i)
    ensures var e := s.Dirent(d, i);
            && (!Present(e) ==> Leave(s, t, d, i + 1))
            && (Present(e) ==> Frame(e) in t.mem && Sound(Give(t, Frame(e))) && Leave(s, Give(t, Frame(e)), d, i + 1)
                               && Give(t, Frame(e)).dirs == t.dirs)
  {
    hide PteOf, Frame, Present;
    var e := s.Dirent(d, i);
    assert TableOk(s, d, i);
    TableFrame(s, d, i);
    if Present(e) {
      GiveSound(t, Frame(e));
    }
  }

  lemma TableFrame(s: State, d: int, i: int)
    requires Sound(s)
    ensures forall f :: s.Of(f) == Table(d, i) ==> Present(s.Dirent(d, i)) && f == Frame(s.Dirent(d, i))
  {
    forall f | s.Of(f) == Table(d, i)
      ensures Present(s.Dirent(d, i)) && f == Frame(s.Dirent(d, i))
    {
      assert RoleOk(s, f);
    }
  }

  lemma {:induction false} LeaveLast(s: State, s1: State, t: State, d: int)
    requires Sound(s) && d in s.dirs && s1.dirs == s.dirs && Sound(t) && Leave(s1, t, d, NENT)
    requires Shrunk(s, s1, d, 0, KERNPAGE) && Keeps(s, s1, d, 0, KERNPAGE)
    requires forall g :: s1.Of(g) == if s.Of(g).User? && s.Of(g).dir == d && 0 <= s.Of(g).v < KERNPAGE then Free
             else s.Of(g)
    ensures d in t.mem && Sound(Give(t, d)) && Released(s, Give(t, d), d) && SameButFor(s, Give(t, d), d)
    ensures Give(t, d).dirs == t.dirs
  {
    hide PteOf, PageOf, Junk;
    assert RoleOk(s, d) && s.Of(d) == Dir;
    GiveSound(t, d);
    forall f
      ensures Give(t, d).Of(f) == if Names(s.Of(f), d, f) then Free else s.Of(f)
    {
      assert RoleOk(s, f);
    }
    LastPages(s, s1, t, d);
  }

  lemma LastPages(s: State, s1: State, t: State, d: int)
    requires Keeps(s, s1, d, 0, KERNPAGE) && s.Of(d) == Dir
    requires forall f {:trigger s1.Of(f)} :: InUse(s1.Of(f), 0, 0, 0) ==> KeptPage(s1, t, f)
    ensures forall f {:trigger s.Of(f)} :: InUse(s.Of(f), 0, 0, 0) && !Names(s.Of(f), d, f) ==>
              KeptPage(s, Give(t, d), f)
  {
    forall f | InUse(s.Of(f), 0, 0, 0) && !Names(s.Of(f), d, f)
      ensures KeptPage(s, Give(t, d), f)
    {
      assert f != d && InUse(s.Of(f), d, 0, KERNPAGE) && KeptPage(s, s1, f) && KeptPage(s1, t, f);
    }
  }

  // ---------------------------------------------------- steps of setupkvm

  lemma NewDirIs(s: State, d: int)
    ensures NewDir(s, d) == State(s.mem[d := Zeros()], s.free, s.dirs + {d}, s.own[d := Dir])
  {
  }

  lemma {:induction false} DirTaken(s: State, d: int)
    requires Sound(s) && s.free != [] && d == s.free[0]
    ensures var t := NewDir(Take(s), d);
            && Sound(t) && SameMaps(s, t) && GrewBy(s, t, d, 0) && Keeps(s, t, 0, 0, 0)
            && d !in s.dirs && forall v :: t.Pte(d, v) == 0
  {
    hide PteOf;
    TakeSound(s);
    NewDirSound(Take(s), d);
    assert s.Of(d) == Free;
  }

  lemma OtherMaps(s: State, t: State, u: State, d: int, v: int, m: int, f: int, perm: int)
    requires 0 <= perm < 4096 && SameMaps(s, t) && d !in s.dirs && t.dirs == s.dirs + {d}
    requires Added(t, u, d, v, m, f, perm)
    ensures SameMaps(s, u)
  {
    hide PteOf, Word;
  }

  lemma NextRow(t: State, u: State, d: int, dataPage: int, k: int)
    requires 0 <= k < 4 && d in t.dirs && forall v :: t.Pte(d, v) == RowsPte(dataPage, k, v)
    requires var r := Kmap(dataPage)[k]; Added(t, u, d, r.virt, r.pages, r.phys, r.perm)
    ensures forall v :: u.Pte(d, v) == RowsPte(dataPage, k + 1, v)
  {
    hide PteOf, Word;
  }

  /** What grew into d and is released again leaves no trace. */
  lemma {:induction false} AllBack(s: State, t: State, u: State, d: int)
    requires Sound(s) && d !in s.dirs && t.dirs == s.dirs + {d} && SameMaps(s, t)
    requires GrewBy(s, t, d, 0) && Keeps(s, t, 0, 0, 0)
    requires Released(t, u, d) && SameButFor(t, u, d)
    ensures SameMaps(s, u) && (forall f :: u.Of(f) == s.Of(f))
    ensures GrewBy(s, u, 0, 0) && Keeps(s, u, 0, 0, 0)
    ensures t.dirs - {d} == s.dirs
  {
    hide PteOf, PageOf;
    forall f
      ensures !Names(s.Of(f), d, f)
    {
      assert RoleOk(s, f);
    }
    forall f | InUse(s.Of(f), 0, 0, 0)
      ensures KeptPage(s, u, f)
    {
      assert KeptPage(s, t, f) && InUse(t.Of(f), 0, 0, 0) && KeptPage(t, u, f);
    }
  }

  // ------------------------------------------------------ steps of copyuvm

  /**
   Directory c maps new pages with d's flags and contents for the first n pages, the kernel as every
   directory does, and nothing else.
   */
  ghost predicate Copied(s: State, t: State, d: int, c: int, n: int, dataPage: int) {
    && (forall v :: 0 <= v < n ==>
          NewPage(s, t, t.Pte(c, v), Flags(s.Pte(d, v)), PageOf(s, Frame(s.Pte(d, v)))))
    && (forall v :: !(0 <= v < n) ==> t.Pte(c, v) == KernelPte(dataPage, v))
  }

  lemma {:induction false} CopyReady(s: State, t: State, d: int, c: int, v: int, dataPage: int)
    requires Sound(s) && Sound(t) && d in s.dirs && 0 <= v < KERNPAGE && s.Pte(d, v) != 0
    requires SameMaps(s, t) && Keeps(s, t, 0, 0, 0) && Copied(s, t, d, c, v, dataPage)
    ensures var w := s.Pte(d, v);
            && t.Pte(d, v) == w && Frame(w) in t.mem && t.mem[Frame(w)] == PageOf(s, Frame(w))
            && |t.mem[Frame(w)]| == NENT && 0 <= Flags(w) < 4096 && Flags(w) % 2 == 1
    ensures t.Pte(c, v) == 0
  {
    hide PteOf, Frame;
    assert UserOk(s, d, v);
    assert KeptPage(s, t, Frame(s.Pte(d, v)));
  }

  lemma CopiedNone(s: State, t: State, d: int, c: int, dataPage: int)
    requires forall v :: t.Pte(c, v) == KernelPte(dataPage, v)
    ensures Copied(s, t, d, c, 0, dataPage)
  {
  }

  lemma NoTable(s: State, d: int, v: int)
    requires !Present(s.Dirent(d, Hi(v)))
    ensures s.Pte(d, v) == 0
  {
  }

  lemma {:induction false} UserNotMapped(s: State, s1: State, s2: State, s3: State, c: int, v: int, x: int, perm: int,
        p: Page)
    requires Filled(s1, s2, x, p) && 0 <= perm < 4096 && s1.dirs == s.dirs + {c}
    requires SameMaps(s, s1) && GrewBy(s, s1, c, 0) && Keeps(s, s1, 0, 0, 0)
    requires UserStep(s2, s3, c, x, Held) && Added(s2, s3, c, v, 0, x, perm)
    ensures SameMaps(s, s3) && GrewHeld(s, s3, c, x) && Keeps(s, s3, 0, 0, 0)
    ensures s.Of(x) == Free && s3.Of(x) == Held
  {
    hide PteOf, Frame, Flags;
  }

  lemma MapsAgain(s: State, t: State, u: State)
    requires SameMaps(s, t) && SameMaps(t, u) && s.dirs <= t.dirs
    ensures SameMaps(s, u)
  {
    hide PteOf;
  }

  lemma {:induction false} CopiedOne(s: State, s1: State, s3: State, d: int, c: int, v: int, dataPage: int)
    requires c in s1.dirs && 0 <= v < KERNPAGE && Copied(s, s1, d, c, v, dataPage)
    requires NewPage(s, s3, s3.Pte(c, v), Flags(s.Pte(d, v)), PageOf(s, Frame(s.Pte(d, v))))
    requires forall u :: 0 <= u < KERNPAGE && u != v && s1.Pte(c, u) != 0 ==>
               s3.Pte(c, u) == s1.Pte(c, u) && PageOf(s3, Frame(s1.Pte(c, u))) == PageOf(s1, Frame(s1.Pte(c, u)))
    requires forall e, u :: e in s1.dirs && !(e == c && u == v) ==> s3.Pte(e, u) == s1.Pte(e, u)
    ensures Copied(s, s3, d, c, v + 1, dataPage)
  {
    hide PteOf, Frame, PageOf, Flags, KernelPte;
  }
}
