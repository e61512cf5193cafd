/**
 Physical pages, two-level page tables and who owns each page, as a value: the steps that the
 page-table code is made of, what each keeps, and the accounting that follows.

 Pages are numbered; a page is NENT 32-bit words. A virtual page number v (a virtual address
 divided by PGSIZE) selects word Hi(v) of a directory and word Lo(v) of a table.
 */
module PageTables {

  const NENT := 1024
  const KERNPAGE := 0x80000   // KERNBASE / PGSIZE
  const VPAGES := 0x100000    // virtual pages

  type Page = seq<int>

  // --------------------------------------------------- page-table words

  predicate Present(w: int) { w % 2 == 1 }

  function Frame(w: int): int { w / 4096 }

  function Flags(w: int): int { w % 4096 }

  /** `pa | perm | PTE_P` */
  function Word(f: int, perm: int): (w: int)
    requires 0 <= perm < 4096
    ensures Present(w) && Frame(w) == f && w != 0
    ensures Flags(w) == if perm % 2 == 1 then perm else perm + 1
  {
    f * 4096 + if perm % 2 == 1 then perm else perm + 1
  }

  function Hi(v: int): int { v / NENT }

  function Lo(v: int): (k: int)
    ensures 0 <= k < NENT
  {
    v % NENT
  }

  lemma HiLo(v: int, w: int)
    requires Hi(v) == Hi(w) && Lo(v) == Lo(w)
    ensures v == w
  {
  }

  lemma HiBound(v: int)
    ensures 0 <= v < VPAGES ==> 0 <= Hi(v) < NENT
  {
  }

  function At(mem: map<int, Page>, f: int, k: int): int {
    if f in mem && 0 <= k < |mem[f]| then mem[f][k] else 0
  }

  /** The present page-table word that maps v in directory d, or 0. */
  function PteOf(mem: map<int, Page>, d: int, v: int): (w: int)
    ensures w == 0 || Present(w)
  {
    var e := At(mem, d, Hi(v));
    if Present(e) && Present(At(mem, Frame(e), Lo(v))) then At(mem, Frame(e), Lo(v)) else 0
  }

  function Put(mem: map<int, Page>, f: int, k: int, w: int): map<int, Page> {
    if f in mem && 0 <= k < |mem[f]| then mem[f := mem[f][k := w]] else mem
  }

  lemma PutAt(mem: map<int, Page>, f: int, k: int, w: int)
    requires f in mem && 0 <= k < |mem[f]|
    ensures forall g, l :: At(Put(mem, f, k, w), g, l) == if g == f && l == k then w else At(mem, g, l)
    ensures Put(mem, f, k, w).Keys == mem.Keys
    ensures forall g :: g in mem && |mem[g]| == NENT ==> |Put(mem, f, k, w)[g]| == NENT
  {
  }

  function Zeros(): (p: Page)
    ensures |p| == NENT
  {
    seq(NENT, _ => 0)
  }

  /** What `kfree` leaves in a page. */
  function Junk(): (p: Page)
    ensures |p| == NENT
  {
    seq(NENT, _ => 0x01010101)
  }

  // ------------------------------------------------------------ ownership

  /**
   The single use of a page: on the free list, held by other parts of the kernel, a directory, the
   i-th table of a directory, or the user page mapped at v in a directory.
   */
  datatype Role = Free | Held | Dir | Table(dir: int, i: int) | User(dir: int, v: int) | Outside

  datatype State = State(mem: map<int, Page>, free: seq<int>, dirs: set<int>, own: map<int, Role>) {
    function Of(f: int): Role { if f in own then own[f] else Outside }

    function As(f: int, r: Role): State { this.(own := own[f := r]) }

    function Pte(d: int, v: int): int { PteOf(mem, d, v) }

    function Dirent(d: int, i: int): int { At(mem, d, i) }
  }

  ghost predicate TableOk(s: State, d: int, i: int) {
    d in s.dirs && Present(s.Dirent(d, i)) ==> s.Of(Frame(s.Dirent(d, i))) == Table(d, i)
  }

  ghost predicate UserOk(s: State, d: int, v: int) {
    d in s.dirs && 0 <= v < KERNPAGE && s.Pte(d, v) != 0 ==> s.Of(Frame(s.Pte(d, v))) == User(d, v)
  }

  ghost predicate RoleOk(s: State, f: int) {
    match s.Of(f)
    case Free => f in s.free
    case Dir => f in s.dirs
    case Table(d, i) => d in s.dirs && 0 <= i < NENT && Present(s.Dirent(d, i)) && Frame(s.Dirent(d, i)) == f
    case User(d, v) => d in s.dirs && 0 <= v < KERNPAGE && s.Pte(d, v) != 0 && Frame(s.Pte(d, v)) == f
    case _ => true
  }

  ghost predicate Pool(s: State) {
    && 0 !in s.own && s.mem.Keys == s.own.Keys
    && (forall f :: f in s.mem ==> |s.mem[f]| == NENT)
    && (forall f :: f in s.own ==> s.own[f] != Outside)
  }

  ghost predicate FreeOk(s: State) {
    && (forall i, j :: 0 <= i < j < |s.free| ==> s.free[i] != s.free[j])
    && (forall f :: f in s.free ==> s.Of(f) == Free)
  }

  /** Every page has exactly one use, and the tables agree. */
  ghost predicate Sound(s: State) {
    && Pool(s) && FreeOk(s)
    && (forall d :: d in s.dirs ==> s.Of(d) == Dir)
    && (forall d, i {:trigger TableOk(s, d, i)} :: TableOk(s, d, i))
    && (forall d, v {:trigger UserOk(s, d, v)} :: UserOk(s, d, v))
    && (forall f {:trigger RoleOk(s, f)} :: RoleOk(s, f))
  }

  /** All mappings of all directories of s are the same in t. */
  ghost predicate SameMaps(s: State, t: State) {
    forall d, v :: d in s.dirs ==> t.Pte(d, v) == s.Pte(d, v)
  }

  // ---------------------------------------------------------------- steps

  /** `kalloc` takes the head of the free list. */
  function Take(s: State): State
    requires s.free != []
  {
    s.(free := s.free[1..], own := s.own[s.free[0] := Held])
  }

  lemma TailFreeOk(s: State)
    requires FreeOk(s) && s.free != []
    ensures FreeOk(Take(s)) && s.free[0] !in s.free[1..]
  {
    var tail := s.free[1..];
    assert forall i :: 0 <= i < |tail| ==> tail[i] == s.free[i + 1];
    forall f | f in tail
      ensures f in s.free && f != s.free[0]
    {
    }
  }

  lemma {:induction false} TakeSound(s: State)
    requires Sound(s) && s.free != []
    ensures Sound(Take(s)) && SameMaps(s, Take(s)) && s.Of(s.free[0]) == Free
  {
    var t, f := Take(s), s.free[0];
    assert s.free == [f] + t.free && s.Of(f) == Free;
    TailFreeOk(s);
    Kept(s, t, f);
  }

  /** A page that no directory uses may change its role to another such. */
  lemma {:induction false} Kept(s: State, t: State, f: int)
    requires Sound(s) && f in s.own && (s.Of(f) == Free || s.Of(f) == Held)
    requires t.dirs == s.dirs && Pool(t) && FreeOk(t)
    requires forall g :: g != f ==> t.Of(g) == s.Of(g)
    requires forall g, k :: g != f ==> At(t.mem, g, k) == At(s.mem, g, k)
    requires t.Of(f) == Held || (t.Of(f) == Free && f in t.free)
    requires forall g :: g != f && g in s.free ==> g in t.free
    ensures Sound(t) && SameMaps(s, t)
  {
    hide Pool, FreeOk, PteOf, At, Frame, Present, Hi, Lo;
    forall d, v | d in s.dirs
      ensures t.Pte(d, v) == s.Pte(d, v)
    {
      SamePte(s, t, d, v, f);
    }
    forall d, i
      ensures TableOk(t, d, i)
    {
      assert TableOk(s, d, i);
    }
    forall d, v
      ensures UserOk(t, d, v)
    {
      assert UserOk(s, d, v);
    }
    forall g
      ensures RoleOk(t, g)
    {
      assert RoleOk(s, g);
    }
  }

  lemma {:induction false} SamePte(s: State, t: State, d: int, v: int, f: int)
    requires Sound(s) && d in s.dirs && (s.Of(f) == Free || s.Of(f) == Held)
    requires forall g, k :: g != f ==> At(t.mem, g, k) == At(s.mem, g, k)
    ensures t.Pte(d, v) == s.Pte(d, v)
  {
    assert TableOk(s, d, Hi(v));
  }

  /** `kfree` */
  function Give(s: State, f: int): State {
    s.(mem := s.mem[f := Junk()], free := [f] + s.free, own := s.own[f := Free])
  }

  lemma {:induction false} GiveSound(s: State, f: int)
    requires Sound(s) && s.Of(f) == Held
    ensures Sound(Give(s, f)) && SameMaps(s, Give(s, f))
  {
    Kept(s, Give(s, f), f);
  }

  /** Filling a held page. */
  function Fill(s: State, f: int, p: Page): State {
    s.(mem := s.mem[f := p])
  }

  lemma {:induction false} FillSound(s: State, f: int, p: Page)
    requires Sound(s) && s.Of(f) == Held && |p| == NENT
    ensures Sound(Fill(s, f, p)) && SameMaps(s, Fill(s, f, p))
  {
    Kept(s, Fill(s, f, p), f);
  }

  /** A cleared page becomes the table for v. */
  function AddTable(s: State, d: int, v: int, f: int): State {
    s.(mem := Put(s.mem[f := Zeros()], d, Hi(v), Word(f, 6)), own := s.own[f := Table(d, Hi(v))])
  }

  lemma {:induction false} AddTableSound(s: State, d: int, v: int, f: int)
    requires Sound(s) && d in s.dirs && 0 <= v < VPAGES
    requires s.Of(f) == Held && !Present(s.Dirent(d, Hi(v)))
    ensures Sound(AddTable(s, d, v, f)) && SameMaps(s, AddTable(s, d, v, f))
    ensures AddTable(s, d, v, f).Dirent(d, Hi(v)) == Word(f, 6)
  {
    hide Frame, Present, Hi, Lo;
    var t := AddTable(s, d, v, f);
    HiBound(v);
    AddTableAt(s, d, v, f);
    forall e, w | e in s.dirs
      ensures t.Pte(e, w) == s.Pte(e, w)
    {
      AddTablePte(s, t, d, v, f, e, w);
    }
    forall e, i
      ensures TableOk(t, e, i)
    {
      assert TableOk(s, e, i);
    }
    forall e, w
      ensures UserOk(t, e, w)
    {
      assert UserOk(s, e, w);
    }
    forall g
      ensures RoleOk(t, g)
    {
      assert RoleOk(s, g);
    }
  }

  lemma {:induction false} AddTableAt(s: State, d: int, v: int, f: int)
    requires Sound(s) && d in s.dirs && 0 <= Hi(v) < NENT && s.Of(f) == Held
    ensures var t := AddTable(s, d, v, f);
            (forall g, k :: At(t.mem, g, k) == if g == d && k == Hi(v) then Word(f, 6)
                                               else if g == f then 0 else At(s.mem, g, k))
            && Pool(t) && FreeOk(t)
  {
    PutAt(s.mem[f := Zeros()], d, Hi(v), Word(f, 6));
  }

  lemma {:induction false} AddTablePte(s: State, t: State, d: int, v: int, f: int, e: int, w: int)
    requires Sound(s) && e in s.dirs && d in s.dirs && s.Of(f) == Held && !Present(s.Dirent(d, Hi(v)))
    requires forall g, k :: At(t.mem, g, k) == if g == d && k == Hi(v) then Word(f, 6)
                                               else if g == f then 0 else At(s.mem, g, k)
    ensures t.Pte(e, w) == s.Pte(e, w)
  {
    hide Hi, Lo, At;
    assert TableOk(s, e, Hi(w));
  }

  /** Writing the table word for v, whose table is present. */
  function SetPte(s: State, d: int, v: int, w: int): State {
    s.(mem := Put(s.mem, Frame(s.Dirent(d, Hi(v))), Lo(v), w))
  }

  function IfPresent(w: int): int { if Present(w) then w else 0 }

  lemma {:induction false} SetPteAt(s: State, d: int, v: int, w: int)
    requires Sound(s) && d in s.dirs && Present(s.Dirent(d, Hi(v)))
    ensures var t, f := SetPte(s, d, v, w), Frame(s.Dirent(d, Hi(v)));
            && s.Of(f) == Table(d, Hi(v))
            && (forall g, k :: At(t.mem, g, k) == if g == f && k == Lo(v) then w else At(s.mem, g, k))
            && Pool(t) && FreeOk(t)
  {
    assert TableOk(s, d, Hi(v));
    PutAt(s.mem, Frame(s.Dirent(d, Hi(v))), Lo(v), w);
  }

  /** Exactly one mapping of one directory changes. */
  lemma {:induction false} SetPteMaps(s: State, d: int, v: int, w: int, e: int, u: int)
    requires Sound(s) && d in s.dirs && Present(s.Dirent(d, Hi(v))) && e in s.dirs
    ensures var t := SetPte(s, d, v, w);
            t.Pte(e, u) == if e == d && u == v then IfPresent(w) else s.Pte(e, u)
  {
    hide Hi, Lo, At, Frame, Present;
    SetPteAt(s, d, v, w);
    assert TableOk(s, e, Hi(u));
    if Hi(u) == Hi(v) && Lo(u) == Lo(v) {
      HiLo(u, v);
    }
  }

  /** A held page becomes the user page at v. */
  function MapUser(s: State, d: int, v: int, f: int, perm: int): State
    requires 0 <= perm < 4096
  {
    SetPte(s, d, v, Word(f, perm)).As(f, User(d, v))
  }

  lemma {:induction false} MapUserSound(s: State, d: int, v: int, f: int, perm: int)
    requires Sound(s) && d in s.dirs && 0 <= v < KERNPAGE && 0 <= perm < 4096
    requires s.Of(f) == Held && Present(s.Dirent(d, Hi(v))) && s.Pte(d, v) == 0
    ensures Sound(MapUser(s, d, v, f, perm))
    ensures forall e, u :: e in s.dirs ==>
              MapUser(s, d, v, f, perm).Pte(e, u) == if e == d && u == v then Word(f, perm) else s.Pte(e, u)
  {
    hide Hi, Lo, At, Frame, Present, Word, PteOf, Pool, FreeOk;
    var w := Word(f, perm);
    var t := MapUser(s, d, v, f, perm);
    SetPteAt(s, d, v, w);
    RolePool(SetPte(s, d, v, w), f, User(d, v));
    forall e, u | e in s.dirs
      ensures t.Pte(e, u) == if e == d && u == v then w else s.Pte(e, u)
    {
      SetPteMaps(s, d, v, w, e, u);
    }
    forall e, i
      ensures TableOk(t, e, i)
    {
      assert TableOk(s, e, i);
    }
    forall e, u
      ensures UserOk(t, e, u)
    {
      assert UserOk(s, e, u);
    }
    forall g
      ensures RoleOk(t, g)
    {
      assert RoleOk(s, g);
    }
  }

  lemma RolePool(s: State, f: int, r: Role)
    requires Pool(s) && FreeOk(s) && (s.Of(f) == Held || s.Of(f).User?) && r != Outside && r != Free
    ensures Pool(s.As(f, r)) && FreeOk(s.As(f, r))
  {
  }

  /** A kernel mapping; its page is not from the pool. */
  lemma {:induction false} MapKernelSound(s: State, d: int, v: int, w: int)
    requires Sound(s) && d in s.dirs && KERNPAGE <= v < VPAGES && Present(s.Dirent(d, Hi(v)))
    ensures Sound(SetPte(s, d, v, w))
    ensures forall e, u :: e in s.dirs ==>
              SetPte(s, d, v, w).Pte(e, u) == if e == d && u == v then IfPresent(w) else s.Pte(e, u)
  {
    hide Hi, Lo, At, Frame, Present, PteOf, Pool, FreeOk, IfPresent;
    var t := SetPte(s, d, v, w);
    SetPteAt(s, d, v, w);
    forall e, u | e in s.dirs
      ensures t.Pte(e, u) == if e == d && u == v then IfPresent(w) else s.Pte(e, u)
    {
      SetPteMaps(s, d, v, w, e, u);
    }
    forall e, i
      ensures TableOk(t, e, i)
    {
      assert TableOk(s, e, i);
    }
    forall e, u
      ensures UserOk(t, e, u)
    {
      assert UserOk(s, e, u);
    }
    forall g
      ensures RoleOk(t, g)
    {
      assert RoleOk(s, g);
    }
  }

  /** The user page at v is unmapped and held. */
  function Unmap(s: State, d: int, v: int): State {
    SetPte(s, d, v, 0).As(Frame(s.Pte(d, v)), Held)
  }

  lemma {:induction false} UnmapSound(s: State, d: int, v: int)
    requires Sound(s) && d in s.dirs && 0 <= v < KERNPAGE && s.Pte(d, v) != 0
    ensures Sound(Unmap(s, d, v)) && s.Of(Frame(s.Pte(d, v))) == User(d, v)
    ensures forall e, u :: e in s.dirs ==>
              Unmap(s, d, v).Pte(e, u) == if e == d && u == v then 0 else s.Pte(e, u)
  {
    hide Hi, Lo, At, Frame, Present, Pool, FreeOk;
    var t, f := Unmap(s, d, v), Frame(s.Pte(d, v));
    assert UserOk(s, d, v);
    SetPteAt(s, d, v, 0);
    RolePool(SetPte(s, d, v, 0), f, Held);
    UnmapMaps(s, d, v);
    hide PteOf;
    forall e, i
      ensures TableOk(t, e, i)
    {
      assert TableOk(s, e, i);
    }
    forall e, u
      ensures UserOk(t, e, u)
    {
      assert UserOk(s, e, u);
    }
    forall g
      ensures RoleOk(t, g)
    {
      assert RoleOk(s, g);
    }
  }

  lemma {:induction false} UnmapMaps(s: State, d: int, v: int)
    requires Sound(s) && d in s.dirs && s.Pte(d, v) != 0
    ensures Present(s.Dirent(d, Hi(v)))
    ensures forall e, u :: e in s.dirs ==>
              SetPte(s, d, v, 0).Pte(e, u) == if e == d && u == v then 0 else s.Pte(e, u)
  {
    hide Hi, Lo, At, Frame;
    forall e, u | e in s.dirs
      ensures SetPte(s, d, v, 0).Pte(e, u) == if e == d && u == v then 0 else s.Pte(e, u)
    {
      SetPteMaps(s, d, v, 0, e, u);
    }
  }

  /** A cleared held page becomes a directory. */
  function NewDir(s: State, d: int): State {
    Fill(s, d, Zeros()).(dirs := s.dirs + {d}, own := s.own[d := Dir])
  }

  lemma {:induction false} NewDirSound(s: State, d: int)
    requires Sound(s) && s.Of(d) == Held
    ensures Sound(NewDir(s, d)) && SameMaps(s, NewDir(s, d)) && d !in s.dirs
    ensures forall v :: NewDir(s, d).Pte(d, v) == 0
  {
    hide Hi, Lo, Frame, Present;
    var t := NewDir(s, d);
    NewDirMaps(s, d);
    hide PteOf, At;
    forall e, i
      ensures TableOk(t, e, i)
    {
      assert TableOk(s, e, i);
    }
    forall e, u
      ensures UserOk(t, e, u)
    {
      assert UserOk(s, e, u);
    }
    forall g
      ensures RoleOk(t, g)
    {
      assert RoleOk(s, g);
    }
  }

  lemma {:induction false} NewDirMaps(s: State, d: int)
    requires Sound(s) && s.Of(d) == Held
    ensures var t := NewDir(s, d);
            && (forall v :: t.Pte(d, v) == 0) && (forall i :: !Present(t.Dirent(d, i))) && SameMaps(s, t)
            && (forall e, i :: e in s.dirs ==> t.Dirent(e, i) == s.Dirent(e, i))
  {
    hide Hi, Lo, Frame;
    var t := NewDir(s, d);
    forall e, v | e in s.dirs
      ensures t.Pte(e, v) == s.Pte(e, v)
    {
      assert TableOk(s, e, Hi(v));
    }
  }

  /** A directory without user pages is given up: its page and its tables are held. */
  function DropDir(s: State, d: int): State {
    s.(dirs := s.dirs - {d}, own := map f | f in s.own :: DropRole(s.own[f], d, f))
  }

  function DropRole(r: Role, d: int, f: int): Role {
    if f == d || (r.Table? && r.dir == d) then Held else r
  }

  lemma {:induction false} DropDirSound(s: State, d: int)
    requires Sound(s) && d in s.dirs && forall v :: 0 <= v < KERNPAGE ==> s.Pte(d, v) == 0
    ensures Sound(DropDir(s, d)) && SameMaps(DropDir(s, d), s)
  {
    hide Hi, Lo, Frame, Present, PteOf, At;
    var t := DropDir(s, d);
    forall e, i
      ensures TableOk(t, e, i)
    {
      assert TableOk(s, e, i);
    }
    forall e, u
      ensures UserOk(t, e, u)
    {
      assert UserOk(s, e, u);
    }
    forall g
      ensures RoleOk(t, g)
    {
      assert RoleOk(s, g);
    }
  }

  // ----------------------------------------------------------- accounting

  /** Tables of d below index n, and their number (`getSizePgTable` less one). */
  function Tables(s: State, d: int, n: int): (r: set<int>)
  {
    set i | 0 <= i < n && Present(s.Dirent(d, i)) :: Frame(s.Dirent(d, i))
  }

  function CountTables(mem: map<int, Page>, d: int, n: int): (c: int)
    ensures 0 <= c
    decreases if n < 0 then 0 else n
  {
    if n <= 0 then 0 else CountTables(mem, d, n - 1) + if Present(At(mem, d, n - 1)) then 1 else 0
  }

  /** User pages of d below v, and their number (`getphysicalpages`). */
  function Users(s: State, d: int, n: int): set<int> {
    set v | 0 <= v < n && s.Pte(d, v) != 0 :: Frame(s.Pte(d, v))
  }

  function CountUsers(mem: map<int, Page>, d: int, n: int): (c: int)
    ensures 0 <= c
    decreases if n < 0 then 0 else n
  {
    if n <= 0 then 0 else CountUsers(mem, d, n - 1) + if PteOf(mem, d, n - 1) != 0 then 1 else 0
  }

  function Owned(s: State, d: int): set<int> {
    {d} + Tables(s, d, NENT) + Users(s, d, KERNPAGE)
  }

  function HeldPages(s: State): set<int> {
    set f | f in s.own && s.own[f] == Held
  }

  lemma SoundAt(s: State, d: int, k: int)
    requires Sound(s)
    ensures TableOk(s, d, k) && UserOk(s, d, k)
  {
  }

  lemma {:induction false} TablesCounted(s: State, d: int, n: int)
    requires Sound(s) && d in s.dirs && 0 <= n
    ensures |Tables(s, d, n)| == CountTables(s.mem, d, n)
    ensures forall f :: f in Tables(s, d, n) ==> s.Of(f).Table? && s.Of(f).dir == d && 0 <= s.Of(f).i < n
  {
    hide Present, Frame, At, Sound;
    if n > 0 {
      TablesCounted(s, d, n - 1);
      SoundAt(s, d, n - 1);
      var w := s.Dirent(d, n - 1);
      if Present(w) {
        assert Tables(s, d, n) == Tables(s, d, n - 1) + {Frame(w)};
      } else {
        assert Tables(s, d, n) == Tables(s, d, n - 1);
      }
    }
  }

  lemma {:induction false} UsersCounted(s: State, d: int, n: int)
    requires Sound(s) && d in s.dirs && 0 <= n <= KERNPAGE
    ensures |Users(s, d, n)| == CountUsers(s.mem, d, n)
    ensures forall f :: f in Users(s, d, n) ==> s.Of(f).User? && s.Of(f).dir == d && 0 <= s.Of(f).v < n
  {
    hide Frame, PteOf, Sound;
    if n > 0 {
      UsersCounted(s, d, n - 1);
      SoundAt(s, d, n - 1);
      var w := s.Pte(d, n - 1);
      if w != 0 {
        assert Users(s, d, n) == Users(s, d, n - 1) + {Frame(w)};
      } else {
        assert Users(s, d, n) == Users(s, d, n - 1);
      }
    }
  }

  /** A role that makes f a page of directory d. */
  predicate Names(r: Role, d: int, f: int) {
    match r
    case Dir => f == d
    case Table(e, _) => e == d
    case User(e, _) => e == d
    case _ => false
  }

  /** The pages a directory owns are exactly those whose role names it. */
  lemma {:induction false} OwnedRoles(s: State, d: int, f: int)
    requires Sound(s) && d in s.dirs
    ensures f in Owned(s, d) <==> Names(s.Of(f), d, f)
  {
    hide Frame, PteOf, Present, At;
    TablesCounted(s, d, NENT);
    UsersCounted(s, d, KERNPAGE);
    assert RoleOk(s, f);
  }

  lemma Apart(a: set<int>, b: set<int>)
    requires forall f :: f in a ==> f !in b
    ensures |a + b| == |a| + |b| && a !! b
  {
    forall f | f in a
      ensures f !in b
    {
    }
  }

  lemma {:induction false} OwnedCounted(s: State, d: int)
    requires Sound(s) && d in s.dirs
    ensures |Owned(s, d)| == 1 + CountTables(s.mem, d, NENT) + CountUsers(s.mem, d, KERNPAGE)
  {
    hide Frame, PteOf, Present, At, Tables, Users, CountTables, CountUsers;
    TablesCounted(s, d, NENT);
    UsersCounted(s, d, KERNPAGE);
    var a, b := Tables(s, d, NENT), Users(s, d, KERNPAGE);
    assert forall f :: f in a ==> s.Of(f).Table?;
    assert forall f :: f in b ==> s.Of(f).User?;
    assert Owned(s, d) == ({d} + a) + b;
    Apart({d}, a);
    Apart({d} + a, b);
  }

  ghost predicate OwnedBy(s: State, f: int) {
    exists d :: d in s.dirs && f in Owned(s, d)
  }

  /**
   The free list, the pages held elsewhere and the pages that each directory owns partition the
   pool.
   */
  lemma {:induction false} Partition(s: State)
    requires Sound(s)
    ensures forall d, e :: d in s.dirs && e in s.dirs && d != e ==> Owned(s, d) !! Owned(s, e)
    ensures forall d, f :: d in s.dirs && f in Owned(s, d) ==> f in s.mem && f !in s.free && f !in HeldPages(s)
    ensures forall f :: f in s.free ==> f in s.mem && f !in HeldPages(s)
    ensures forall f :: f in s.mem ==> f in s.free || f in HeldPages(s) || OwnedBy(s, f)
  {
    hide Owned, PteOf, At, Frame, Present;
    forall d, f | d in s.dirs
      ensures f in Owned(s, d) <==> Names(s.Of(f), d, f)
    {
      OwnedRoles(s, d, f);
    }
    forall d, f | d in s.dirs && f in Owned(s, d)
      ensures f in s.mem && f !in s.free && f !in HeldPages(s)
    {
      assert Names(s.Of(f), d, f);
    }
    forall d, e | d in s.dirs && e in s.dirs && d != e
      ensures Owned(s, d) !! Owned(s, e)
    {
      forall f | f in Owned(s, d)
        ensures f !in Owned(s, e)
      {
        assert Names(s.Of(f), d, f);
      }
    }
    forall f | f in s.mem
      ensures f in s.free || f in HeldPages(s) || OwnedBy(s, f)
    {
      assert RoleOk(s, f);
      match s.Of(f)
      case Dir => assert f in Owned(s, f);
      case Table(d, _) => assert f in Owned(s, d);
      case User(d, _) => assert f in Owned(s, d);
      case _ =>
    }
  }

  /** All pages of the listed directories, and what the counters report for them. */
  function AllOwned(s: State, ds: seq<int>): set<int> {
    if ds == [] then {} else Owned(s, ds[0]) + AllOwned(s, ds[1..])
  }

  function Reported(s: State, ds: seq<int>): int {
    if ds == [] then 0
    else 1 + CountTables(s.mem, ds[0], NENT) + CountUsers(s.mem, ds[0], KERNPAGE) + Reported(s, ds[1..])
  }

  predicate Listing(ds: seq<int>, dirs: set<int>) {
    (forall i, j :: 0 <= i < j < |ds| ==> ds[i] != ds[j]) && forall d :: d in ds ==> d in dirs
  }

  lemma {:induction false} DisjointFromRest(s: State, ds: seq<int>)
    requires ds != [] && Listing(ds, s.dirs)
    requires forall d, e :: d in s.dirs && e in s.dirs && d != e ==> Owned(s, d) !! Owned(s, e)
    requires forall f :: f in AllOwned(s, ds[1..]) ==> InSome(s, ds[1..], f)
    ensures Owned(s, ds[0]) !! AllOwned(s, ds[1..])
  {
    hide Owned, AllOwned;
    forall f | f in AllOwned(s, ds[1..])
      ensures f !in Owned(s, ds[0])
    {
      assert InSome(s, ds[1..], f);
      var d :| d in ds[1..] && f in Owned(s, d);
      assert d != ds[0] && Owned(s, d) !! Owned(s, ds[0]);
    }
  }

  ghost predicate InSome(s: State, ds: seq<int>, f: int) {
    exists d :: d in ds && f in Owned(s, d)
  }

  lemma {:induction false} AllCounted(s: State, ds: seq<int>)
    requires Sound(s) && Listing(ds, s.dirs)
    ensures |AllOwned(s, ds)| == Reported(s, ds)
    ensures forall f :: f in AllOwned(s, ds) ==> InSome(s, ds, f)
    ensures forall d :: d in ds ==> Owned(s, d) <= AllOwned(s, ds)
  {
    hide Owned, CountTables, CountUsers, Sound;
    if ds != [] {
      AllCounted(s, ds[1..]);
      OwnedCounted(s, ds[0]);
      Partition(s);
      DisjointFromRest(s, ds);
    }
  }

  /** The free list as a set has as many pages as the list. */
  lemma {:induction false} FreeCounted(free: seq<int>) returns (r: set<int>)
    requires forall i, j :: 0 <= i < j < |free| ==> free[i] != free[j]
    ensures |r| == |free| && forall f :: f in r <==> f in free
  {
    if free == [] {
      r := {};
    } else {
      var rest := FreeCounted(free[1..]);
      assert forall i :: 0 <= i < |free[1..]| ==> free[1..][i] == free[i + 1];
      r := rest + {free[0]};
      forall f
        ensures f in r <==> f in free
      {
        assert f in free <==> f == free[0] || f in free[1..];
      }
    }
  }

  /**
   Conservation: free pages, pages held elsewhere and what the counters report for all directories
   add up to the pool.
   */
  lemma {:induction false} Conservation(s: State, ds: seq<int>)
    requires Sound(s) && Listing(ds, s.dirs) && forall d :: d in s.dirs ==> d in ds
    ensures |s.mem| == |s.free| + |HeldPages(s)| + Reported(s, ds)
  {
    hide Owned, Reported, AllOwned, Sound;
    var free := FreePages(s);
    AllCounted(s, ds);
    Partition(s);
    var owned := AllOwned(s, ds);
    forall f
      ensures f in s.mem <==> f in free + HeldPages(s) + owned
    {
      HeldInPool(s);
    }
    Apart(free, HeldPages(s));
    Apart(free + HeldPages(s), owned);
    assert s.mem.Keys == free + HeldPages(s) + owned;
  }

  lemma FreePages(s: State) returns (r: set<int>)
    requires Sound(s)
    ensures |r| == |s.free| && forall f :: f in r <==> f in s.free
  {
    r := FreeCounted(s.free);
  }

  lemma HeldInPool(s: State)
    requires Sound(s)
    ensures forall f :: f in HeldPages(s) ==> f in s.mem
  {
  }
}
