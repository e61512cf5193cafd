/**
 The user-level allocator. Addresses count header-sized units (8 bytes), so pointer
 arithmetic on headers is addition; 0 is the null pointer.
 */
module Umalloc {

  const UNIT: nat := 8
  const WORD: nat := 0x1_0000_0000
  const MINCORE: nat := 4096

  datatype Header = Header(ptr: nat, size: nat)
  type Mem = map<nat, Header>

  /** The number of units requested, in unsigned 32-bit arithmetic. */
  function Units(nbytes: nat): (n: nat)
    ensures n > 0
  {
    ((nbytes + UNIT - 1) % WORD) / UNIT + 1
  }

  /**
   The block is large enough for the request exactly when the rounding does not wrap, and then one
   unit less would not be enough.
   */
  lemma UnitsFit(nbytes: nat)
    requires nbytes < WORD
    ensures (Units(nbytes) - 1) * UNIT >= nbytes <==> nbytes <= WORD - UNIT
    ensures nbytes <= WORD - UNIT ==> (Units(nbytes) - 2) * UNIT < nbytes
  {
  }

  // ------------------------------------------------------------- free list

  function End(mem: Mem, a: nat): nat
    requires a in mem
  {
    a + mem[a].size
  }

  /** The i-th block of the ring, where index |ring| is the first again. */
  function Wrap(ring: seq<nat>, i: nat): nat
    requires i <= |ring| && ring != []
  {
    if i < |ring| then ring[i] else ring[0]
  }

  /** The i-th block points to the next one and ends before it; only the first is empty. */
  ghost predicate RingAt(mem: Mem, ring: seq<nat>, i: nat)
    requires i < |ring|
  {
    && ring[i] in mem
    && mem[ring[i]].ptr == Wrap(ring, i + 1)
    && (mem[ring[i]].size == 0 <==> i == 0)
    && (i + 1 < |ring| ==> End(mem, ring[i]) < ring[i + 1])
  }

  /** One circular list in address order from `base`, with a gap between any two blocks. */
  ghost predicate Ring(mem: Mem, ring: seq<nat>, base: nat) {
    && ring != [] && ring[0] == base
    && (forall i :: 0 <= i < |ring| ==> ring[i] in mem)
    && (forall i {:trigger RingAt(mem, ring, i)} :: 0 <= i < |ring| ==> RingAt(mem, ring, i))
  }

  /** All blocks with units of their own: the allocated ones and those of the ring but its base. */
  function Blocks(ring: seq<nat>, alloc: set<nat>, base: nat): set<nat> {
    alloc + (set a | a in ring) - {base}
  }

  /** Every owned unit lies in the block that owns it. */
  ghost predicate Inside(mem: Mem, blocks: set<nat>, owner: map<nat, nat>) {
    forall u :: u in owner ==> owner[u] in blocks && owner[u] in mem && owner[u] <= u < End(mem, owner[u])
  }

  /** Every block owns all its units. */
  ghost predicate Owns(mem: Mem, blocks: set<nat>, owner: map<nat, nat>) {
    forall a, u :: a in blocks && a in mem && a <= u < End(mem, a) ==> u in owner && owner[u] == a
  }

  /** Every unit obtained from the kernel lies in exactly one free or allocated block. */
  ghost predicate Tiled(mem: Mem, blocks: set<nat>, owner: map<nat, nat>, base: nat, brk: nat) {
    && (forall a :: a in blocks ==> base < a && a in mem && mem[a].size > 0)
    && (forall u :: u in owner ==> base < u < brk)
    && Inside(mem, blocks, owner) && Owns(mem, blocks, owner)
  }

  /** Two blocks never overlap. */
  lemma Disjoint(mem: Mem, blocks: set<nat>, owner: map<nat, nat>, base: nat, brk: nat, a: nat, b: nat)
    requires Tiled(mem, blocks, owner, base, brk)
    requires a in blocks && b in blocks && a < b
    ensures End(mem, a) <= b && End(mem, b) <= brk
  {
    assert b in owner && owner[b] == b;
    assert End(mem, b) - 1 in owner;
  }

  lemma {:induction false} Ordered(mem: Mem, ring: seq<nat>, base: nat, i: nat, j: nat)
    requires Ring(mem, ring, base) && i < j < |ring|
    ensures End(mem, ring[i]) < ring[j]
  {
    assert RingAt(mem, ring, j - 1);
    if i < j - 1 {
      Ordered(mem, ring, base, i, j - 1);
    }
  }

  // ----------------------------------------------------------- list updates

  function Linked(ring: seq<nat>, j: nat, bp: nat, after: nat): seq<nat>
    requires j < after <= |ring|
  {
    ring[..j + 1] + [bp] + ring[after..]
  }

  function Merged(ring: seq<nat>, j: nat, after: nat): seq<nat>
    requires j < after <= |ring|
  {
    ring[..j + 1] + ring[after..]
  }

  /** Linking in `bp` after the j-th block, replacing the blocks before index `after`. */
  lemma LinkRing(mem: Mem, mem': Mem, ring: seq<nat>, base: nat, j: nat, after: nat, bp: nat)
    requires Ring(mem, ring, base) && j < after <= |ring| && bp !in ring
    requires End(mem, ring[j]) < bp && bp in mem' && mem'[bp].size > 0
    requires after < |ring| ==> End(mem', bp) < ring[after]
    requires mem'[bp].ptr == Wrap(ring, after)
    requires forall i :: 0 <= i < |ring| && i != j ==> ring[i] in mem' && mem'[ring[i]] == mem[ring[i]]
    requires ring[j] in mem' && mem'[ring[j]] == mem[ring[j]].(ptr := bp)
    ensures Ring(mem', Linked(ring, j, bp, after), base)
  {
    var r := Linked(ring, j, bp, after);
    forall i: nat | i < |r| ensures RingAt(mem', r, i) {
      if i != j + 1 {
        var o := if i <= j then i else i - (j + 2) + after;
        assert RingAt(mem, ring, o);
      }
    }
  }

  /** Changing the size of the j-th block, leaving out the blocks before index `after`. */
  lemma GrowRing(mem: Mem, mem': Mem, ring: seq<nat>, base: nat, j: nat, after: nat)
    requires Ring(mem, ring, base) && j < after <= |ring|
    requires ring[j] in mem' && (mem'[ring[j]].size == 0 <==> j == 0) && mem'[ring[j]].ptr == Wrap(ring, after)
    requires after < |ring| ==> End(mem', ring[j]) < ring[after]
    requires forall i :: 0 <= i < |ring| && i != j ==> ring[i] in mem' && mem'[ring[i]] == mem[ring[i]]
    ensures Ring(mem', Merged(ring, j, after), base)
  {
    var r := Merged(ring, j, after);
    forall i: nat | i < |r| ensures RingAt(mem', r, i) {
      var o := if i <= j then i else i - (j + 1) + after;
      assert RingAt(mem, ring, o);
    }
  }

  // ------------------------------------------------------------------ free

  /** `free` belongs after the j-th block. */
  predicate After(ring: seq<nat>, j: nat, bp: nat) {
    && j < |ring| && ring[j] < bp
    && (j + 1 < |ring| ==> bp < ring[j + 1])
  }

  /** There is one place for `bp` in the ring. */
  lemma {:induction false} Place(mem: Mem, ring: seq<nat>, base: nat, bp: nat, n: nat) returns (j: nat)
    requires Ring(mem, ring, base) && base < bp && bp !in ring
    requires n < |ring| && ring[n] < bp
    ensures After(ring, j, bp)
    decreases |ring| - n
  {
    if n + 1 < |ring| && ring[n + 1] < bp {
      j := Place(mem, ring, base, bp, n + 1);
    } else {
      j := n;
    }
  }

  /** The two exits of the search together: they are taken at that place and nowhere else. */
  lemma SearchStops(mem: Mem, ring: seq<nat>, base: nat, bp: nat, j: nat, k: nat)
    requires Ring(mem, ring, base) && base < bp && bp !in ring && After(ring, j, bp) && k < |ring|
    ensures var p, next := ring[k], mem[ring[k]].ptr;
            (bp > p && bp < next) || (p >= next && (bp > p || bp < next)) <==> k == j
  {
    assert RingAt(mem, ring, k);
    if k < j {
      Ordered(mem, ring, base, k, j);
      if k + 1 < j { Ordered(mem, ring, base, k + 1, j); }
    }
    if j < k && j + 1 < k {
      Ordered(mem, ring, base, j + 1, k);
    }
    if k > 0 {
      Ordered(mem, ring, base, 0, k);
    }
  }

  /** Uniting two adjacent blocks. */
  lemma Unite(mem: Mem, mem': Mem, blocks: set<nat>, owner: map<nat, nat>, base: nat, brk: nat, a: nat, b: nat)
    requires Tiled(mem, blocks, owner, base, brk)
    requires a in blocks && b in blocks && a < b && End(mem, a) == b
    requires blocks <= mem'.Keys
    requires mem'[a].size == mem[a].size + mem[b].size
    requires forall x :: x in blocks && x != a && x != b ==> mem'[x].size == mem[x].size
    ensures Tiled(mem', blocks - {b}, Absorb(owner, b, a), base, brk)
  {
    UniteOwns(mem, mem', blocks, owner, a, b);
    UniteInside(mem, mem', blocks, owner, a, b);
    hide Inside, Owns;
  }

  lemma UniteOwns(mem: Mem, mem': Mem, blocks: set<nat>, owner: map<nat, nat>, a: nat, b: nat)
    requires blocks <= mem.Keys && blocks <= mem'.Keys
    requires Owns(mem, blocks, owner) && a in blocks && b in blocks && a < b && End(mem, a) == b
    requires mem'[a].size == mem[a].size + mem[b].size
    requires forall x :: x in blocks && x != a && x != b ==> mem'[x].size == mem[x].size
    ensures Owns(mem', blocks - {b}, Absorb(owner, b, a))
  {
    forall x, u | x in blocks - {b} && x <= u < End(mem', x)
      ensures u in owner && Absorb(owner, b, a)[u] == x
    {
      assert u in owner && owner[u] == if x == a && u >= b then b else x;
    }
  }

  lemma UniteInside(mem: Mem, mem': Mem, blocks: set<nat>, owner: map<nat, nat>, a: nat, b: nat)
    requires blocks <= mem.Keys && blocks <= mem'.Keys
    requires Inside(mem, blocks, owner) && a in blocks && b in blocks && a < b && End(mem, a) == b
    requires mem'[a].size == mem[a].size + mem[b].size
    requires forall x :: x in blocks && x != a && x != b ==> mem'[x].size == mem[x].size
    ensures Inside(mem', blocks - {b}, Absorb(owner, b, a))
  {
  }

  lemma SameSizes(mem: Mem, mem': Mem, blocks: set<nat>, owner: map<nat, nat>, base: nat, brk: nat)
    requires Tiled(mem, blocks, owner, base, brk)
    requires blocks <= mem'.Keys && forall x :: x in blocks ==> x in mem && mem'[x].size == mem[x].size
    ensures Tiled(mem', blocks, owner, base, brk)
  {
  }

  /** The headers after the two conditionals of `free`. */
  function Coalesced(mem: Mem, p: nat, bp: nat): Mem
    requires p in mem && bp in mem && mem[p].ptr in mem && p != bp
  {
    var next := mem[p].ptr;
    var m := if End(mem, bp) == next
             then mem[bp := Header(mem[next].ptr, mem[bp].size + mem[next].size)]
             else mem[bp := mem[bp].(ptr := next)];
    if p + m[p].size == bp
    then m[p := Header(m[bp].ptr, m[p].size + m[bp].size)]
    else m[p := m[p].(ptr := bp)]
  }

  function Freed(mem: Mem, ring: seq<nat>, j: nat, bp: nat): seq<nat>
    requires j < |ring| && ring[j] in mem && bp in mem
  {
    var after := if j + 1 < |ring| && End(mem, bp) == ring[j + 1] then j + 2 else j + 1;
    if End(mem, ring[j]) == bp then Merged(ring, j, after) else Linked(ring, j, bp, after)
  }

  lemma FreeRing(mem: Mem, ring: seq<nat>, alloc: set<nat>, owner: map<nat, nat>, base: nat, brk: nat, j: nat, bp: nat)
    requires Ring(mem, ring, base) && Tiled(mem, Blocks(ring, alloc, base), owner, base, brk)
    requires bp in alloc && bp !in ring && After(ring, j, bp)
    ensures mem[ring[j]].ptr in mem && Ring(Coalesced(mem, ring[j], bp), Freed(mem, ring, j, bp), base)
  {
    assert RingAt(mem, ring, j);
    RingDistinct(mem, ring, base, j);
    if j > 0 {
      Disjoint(mem, Blocks(ring, alloc, base), owner, base, brk, ring[j], bp);
    }
    if j + 1 < |ring| {
      RingDistinct(mem, ring, base, j + 1);
      Disjoint(mem, Blocks(ring, alloc, base), owner, base, brk, bp, ring[j + 1]);
      assert RingAt(mem, ring, j + 1);
    }
    var m := Coalesced(mem, ring[j], bp);
    var after := if j + 1 < |ring| && End(mem, bp) == ring[j + 1] then j + 2 else j + 1;
    if End(mem, ring[j]) == bp {
      GrowRing(mem, m, ring, base, j, after);
    } else {
      LinkRing(mem, m, ring, base, j, after, bp);
    }
  }

  lemma RingDistinct(mem: Mem, ring: seq<nat>, base: nat, j: nat)
    requires Ring(mem, ring, base) && j < |ring|
    ensures forall i :: 0 <= i < |ring| && i != j ==> ring[i] != ring[j]
  {
    forall i | 0 <= i < |ring| && i != j ensures ring[i] != ring[j] {
      Ordered(mem, ring, base, if i < j then i else j, if i < j then j else i);
    }
  }

  /** Who owns each unit once `bp` is free: absorbed blocks pass theirs to the block they joined. */
  function Absorb(owner: map<nat, nat>, b: nat, a: nat): map<nat, nat> {
    map u | u in owner :: if owner[u] == b then a else owner[u]
  }

  function FreedOwner(mem: Mem, owner: map<nat, nat>, p: nat, bp: nat): (r: map<nat, nat>)
    requires p in mem && bp in mem
    ensures r.Keys == owner.Keys
  {
    var o := if End(mem, bp) == mem[p].ptr then Absorb(owner, mem[p].ptr, bp) else owner;
    if End(mem, p) == bp then Absorb(o, bp, p) else o
  }

  lemma FreeTiled(mem: Mem, ring: seq<nat>, alloc: set<nat>, owner: map<nat, nat>, base: nat, brk: nat, j: nat, bp: nat)
    requires Ring(mem, ring, base) && Tiled(mem, Blocks(ring, alloc, base), owner, base, brk)
    requires bp in alloc && bp in mem && Apart(ring, alloc) && After(ring, j, bp)
    ensures mem[ring[j]].ptr in mem
    ensures Tiled(Coalesced(mem, ring[j], bp), Blocks(Freed(mem, ring, j, bp), alloc - {bp}, base),
                  FreedOwner(mem, owner, ring[j], bp), base, brk)
  {
    assert RingAt(mem, ring, j);
    RingDistinct(mem, ring, base, j);
    if j + 1 < |ring| {
      RingDistinct(mem, ring, base, j + 1);
    }
    var p, next := ring[j], mem[ring[j]].ptr;
    var up, down := End(mem, bp) == next, End(mem, p) == bp;
    var blocks := Blocks(ring, alloc, base);
    assert blocks <= mem.Keys && p in mem && bp in blocks && bp != p && base < bp;
    assert up ==> next in blocks && bp < next && next != p;
    assert down ==> p in blocks;
    FreedBlocks(mem, ring, alloc, base, j, bp);
    hide Tiled, Ring, Absorb, Freed, Apart, Blocks;
    var m := if up then mem[bp := Header(mem[next].ptr, mem[bp].size + mem[next].size)]
        else mem[bp := mem[bp].(ptr := next)];
    var o := if up then Absorb(owner, next, bp) else owner;
    var rest := if up then blocks - {next} else blocks;
    if up {
      Unite(mem, m, blocks, owner, base, brk, bp, next);
    } else {
      SameSizes(mem, m, blocks, owner, base, brk);
    }
    var m' := Coalesced(mem, p, bp);
    if down {
      Unite(m, m', rest, o, base, brk, p, bp);
    } else {
      SameSizes(m, m', rest, o, base, brk);
    }
    assert Blocks(Freed(mem, ring, j, bp), alloc - {bp}, base) == if down then rest - {bp} else rest;
    assert m'.Keys == mem.Keys;
  }

  /** The ring and the allocated blocks have nothing in common. */
  ghost predicate Apart(ring: seq<nat>, alloc: set<nat>) {
    forall i :: 0 <= i < |ring| ==> ring[i] !in alloc
  }

  /** The blocks that remain: all but those absorbed. */
  lemma FreedBlocks(mem: Mem, ring: seq<nat>, alloc: set<nat>, base: nat, j: nat, bp: nat)
    requires Ring(mem, ring, base) && bp in mem && base < bp
    requires bp in alloc && Apart(ring, alloc) && After(ring, j, bp)
    ensures var p, next := ring[j], mem[ring[j]].ptr;
            Blocks(Freed(mem, ring, j, bp), alloc - {bp}, base) ==
            Blocks(ring, alloc, base)
            - (if End(mem, bp) == next then {next} else {}) - (if End(mem, p) == bp then {bp} else {})
  {
    var r := Freed(mem, ring, j, bp);
    forall x
      ensures x in r <==>
                (x in ring && !(j + 1 < |ring| && End(mem, bp) == ring[j + 1] == x))
                || (End(mem, ring[j]) != bp && x == bp)
    {
      FreedMember(mem, ring, base, j, bp, x);
    }
    assert RingAt(mem, ring, j);
  }

  lemma FreedMember(mem: Mem, ring: seq<nat>, base: nat, j: nat, bp: nat, x: nat)
    requires Ring(mem, ring, base) && bp in mem && j < |ring|
    ensures x in Freed(mem, ring, j, bp) <==>
              (x in ring && !(j + 1 < |ring| && End(mem, bp) == ring[j + 1] == x))
              || (End(mem, ring[j]) != bp && x == bp)
  {
    assert ring == ring[..j + 1] + ring[j + 1..];
    if j + 1 < |ring| {
      assert ring[j + 1..] == [ring[j + 1]] + ring[j + 2..];
      RingDistinct(mem, ring, base, j + 1);
    }
  }

  // ---------------------------------------------------------------- malloc

  /** The tail of `p` becomes a block of its own. */
  function Split(mem: Mem, p: nat, n: nat): Mem
    requires p in mem && n < mem[p].size
  {
    var rest := mem[p].size - n;
    var a := p + rest;
    mem[p := mem[p].(size := rest)][a := Header(if a in mem then mem[a].ptr else 0, n)]
  }

  function SplitOwner(owner: map<nat, nat>, p: nat, a: nat): (r: map<nat, nat>)
    ensures r.Keys == owner.Keys
  {
    map u | u in owner :: if owner[u] == p && u >= a then a else owner[u]
  }

  lemma SplitRing(mem: Mem, ring: seq<nat>, base: nat, i: nat, n: nat)
    requires Ring(mem, ring, base) && 0 < i < |ring| && 0 < n < mem[ring[i]].size
    requires End(mem, ring[i]) - n !in ring
    ensures Ring(Split(mem, ring[i], n), ring, base)
  {
    var m := Split(mem, ring[i], n);
    RingDistinct(mem, ring, base, i);
    forall k: nat | k < |ring| ensures RingAt(m, ring, k) {
      assert RingAt(mem, ring, k);
    }
  }

  lemma SplitTiled(mem: Mem, blocks: set<nat>, owner: map<nat, nat>, base: nat, brk: nat, p: nat, n: nat)
    requires Tiled(mem, blocks, owner, base, brk) && p in blocks && 0 < n < mem[p].size
    ensures var a := End(mem, p) - n;
            a !in blocks && Tiled(Split(mem, p, n), blocks + {a}, SplitOwner(owner, p, a), base, brk)
  {
    var a := End(mem, p) - n;
    SplitFresh(mem, blocks, owner, base, brk, p, n);
    SplitOwns(mem, blocks, owner, p, n);
    SplitInside(mem, blocks, owner, p, n);
    hide Inside, Owns;
  }

  /** The cut falls inside the block, where no other block starts. */
  lemma SplitFresh(mem: Mem, blocks: set<nat>, owner: map<nat, nat>, base: nat, brk: nat, p: nat, n: nat)
    requires Tiled(mem, blocks, owner, base, brk) && p in blocks && 0 < n < mem[p].size
    ensures var a := End(mem, p) - n; a !in blocks && a in owner && owner[a] == p
  {
    var a := End(mem, p) - n;
    assert a in owner && owner[a] == p;
  }

  lemma SplitInside(mem: Mem, blocks: set<nat>, owner: map<nat, nat>, p: nat, n: nat)
    requires blocks <= mem.Keys && Inside(mem, blocks, owner) && p in blocks && 0 < n < mem[p].size
    requires End(mem, p) - n !in blocks
    ensures var a := End(mem, p) - n; Inside(Split(mem, p, n), blocks + {a}, SplitOwner(owner, p, a))
  {
  }

  lemma SplitOwns(mem: Mem, blocks: set<nat>, owner: map<nat, nat>, p: nat, n: nat)
    requires blocks <= mem.Keys && Owns(mem, blocks, owner) && p in blocks && 0 < n < mem[p].size
    requires End(mem, p) - n !in blocks
    ensures var a := End(mem, p) - n; Owns(Split(mem, p, n), blocks + {a}, SplitOwner(owner, p, a))
  {
    var a, m := End(mem, p) - n, Split(mem, p, n);
    forall x, u | x in blocks + {a} && x <= u < End(m, x) ensures u in owner && SplitOwner(owner, p, a)[u] == x {
      assert u in owner && owner[u] == if x == a then p else x;
    }
  }

  /** Unlinking a whole block. */
  lemma UnlinkRing(mem: Mem, ring: seq<nat>, base: nat, i: nat)
    requires Ring(mem, ring, base) && 0 < i < |ring|
    ensures mem[ring[i]].ptr == Wrap(ring, i + 1)
    ensures Ring(mem[ring[i - 1] := mem[ring[i - 1]].(ptr := mem[ring[i]].ptr)], Merged(ring, i - 1, i + 1), base)
    ensures forall x :: x in Merged(ring, i - 1, i + 1) <==> x in ring && x != ring[i]
  {
    assert RingAt(mem, ring, i - 1) && RingAt(mem, ring, i);
    if i + 1 < |ring| {
      Ordered(mem, ring, base, i - 1, i + 1);
    }
    RingDistinct(mem, ring, base, i - 1);
    RingDistinct(mem, ring, base, i);
    GrowRing(mem, mem[ring[i - 1] := mem[ring[i - 1]].(ptr := mem[ring[i]].ptr)], ring, base, i - 1, i + 1);
    assert ring == ring[..i] + [ring[i]] + ring[i + 1..];
  }

  /** The whole allocator state: a ring, apart from the allocated blocks, and all units tiled. */
  ghost predicate Sound(mem: Mem, ring: seq<nat>, alloc: set<nat>, owner: map<nat, nat>, base: nat, brk: nat) {
    Ring(mem, ring, base) && Apart(ring, alloc) && Tiled(mem, Blocks(ring, alloc, base), owner, base, brk)
  }

  /** `morecore` never asks for less than MINCORE units. */
  function CoreUnits(nunits: nat): (n: nat)
    ensures n >= nunits && n >= MINCORE && (n == nunits || n == MINCORE)
  {
    if nunits < MINCORE then MINCORE else nunits
  }

  function With(alloc: set<nat>, a: nat): set<nat> {
    alloc + {a}
  }

  lemma AddedSizes(mem: Mem, hp: nat, h: Header, alloc: set<nat>)
    requires hp !in alloc
    ensures forall a :: a in alloc && a in mem ==> a in mem[hp := h] && mem[hp := h][a] == mem[a]
  {
  }

  datatype Option<T> = None | Some(value: T)

  function Next(ring: seq<nat>, k: nat): nat {
    if k + 1 < |ring| then k + 1 else 0
  }

  /** Steps along the ring from index k to index f. */
  function Ahead(ring: seq<nat>, k: nat, f: nat): int {
    if k <= f then f - k else |ring| - k + f
  }

  function Position(ring: seq<nat>, a: nat): (k: nat)
    requires a in ring
    ensures k < |ring| && ring[k] == a
  {
    if ring[0] == a then 0 else 1 + Position(ring[1..], a)
  }

  /** The first of `left` blocks from index k on that has n units. */
  ghost function NextFit(mem: Mem, ring: seq<nat>, k: nat, left: nat, n: nat): (r: Option<nat>)
    decreases left
    ensures r.Some? ==> r.value < |ring| && ring[r.value] in mem && mem[ring[r.value]].size >= n
  {
    if left == 0 || k >= |ring| then Option.None
    else if ring[k] in mem && mem[ring[k]].size >= n then Some(k)
    else NextFit(mem, ring, Next(ring, k), left - 1, n)
  }

  class Heap {
    const base: nat
    var mem: Mem
    var freep: nat
    var brk: nat
    var sbrks: nat                    // calls of sbrk so far
    ghost var ring: seq<nat>          // the free list from `base` on
    ghost var alloc: set<nat>         // headers of allocated blocks
    ghost var owner: map<nat, nat>    // units obtained from the kernel, and their blocks

    ghost predicate Valid()
      reads this
    {
      && 0 < base < brk
      && (freep == 0 ==> ring == [] && alloc == {} && owner == map[])
      && (freep != 0 ==> freep in ring && Sound(mem, ring, alloc, owner, base, brk))
    }

    constructor (base: nat, brk: nat)
      requires 0 < base < brk
      ensures Valid() && this.base == base && this.brk == brk && alloc == {} && owner == map[] && sbrks == 0
    {
      this.base, this.brk, mem, freep, sbrks := base, brk, map[], 0, 0;
      ring, alloc, owner := [], {}, map[];
    }

    /** The loop of `free`: it ends at the one block that `bp` belongs after. */
    method Search(bp: nat, ghost j: nat) returns (p: nat)
      requires Ring(mem, ring, base) && freep in ring
      requires base < bp && bp !in ring && After(ring, j, bp)
      ensures p == ring[j]
    {
      ghost var k :| 0 <= k < |ring| && ring[k] == freep;
      p := freep;
      while !(bp > p && bp < mem[p].ptr)
        invariant k < |ring| && p == ring[k]
        decreases if k <= j then j - k else |ring| - k + j
      {
        SearchStops(mem, ring, base, bp, j, k);
        assert RingAt(mem, ring, k);
        if p >= mem[p].ptr && (bp > p || bp < mem[p].ptr) {
          break;
        }
        p := mem[p].ptr;
        k := if k + 1 < |ring| then k + 1 else 0;
      }
      SearchStops(mem, ring, base, bp, j, k);
    }

    /** The two conditionals of `free`: join `bp` to its upper neighbour, then `p` to `bp`. */
    method Join(p: nat, bp: nat)
      requires p in mem && bp in mem && mem[p].ptr in mem && p != bp
      modifies this`mem
      ensures mem == Coalesced(old(mem), p, bp)
    {
      var next := mem[p].ptr;
      if bp + mem[bp].size == next {
        mem := mem[bp := Header(mem[next].ptr, mem[bp].size + mem[next].size)];
      } else {
        mem := mem[bp := mem[bp].(ptr := next)];
      }
      if p + mem[p].size == bp {
        mem := mem[p := Header(mem[bp].ptr, mem[p].size + mem[bp].size)];
      } else {
        mem := mem[p := mem[p].(ptr := bp)];
      }
    }

    /**
     `free`: the units of the block are kept, adjacent blocks are united, and nothing else
     that is allocated changes. `j` is the place in the new ring of `freep`, whose block or
     whose successor now has the freed units.
     */
    method Free(ap: nat) returns (ghost j: nat)
      requires Valid() && ap > 0 && ap - 1 in alloc
      modifies this`mem, this`freep, this`ring, this`alloc, this`owner
      ensures Valid() && freep != 0
      ensures alloc == old(alloc) - {ap - 1} && owner.Keys == old(owner.Keys)
      ensures forall a :: a in alloc ==> mem[a].size == old(mem)[a].size
      ensures j < |ring| && ring[j] == freep && freep in mem && (j + 1 < |ring| ==> ring[j + 1] in mem)
      ensures || mem[freep].size >= old(mem)[ap - 1].size
              || (j + 1 < |ring| && mem[ring[j + 1]].size >= old(mem)[ap - 1].size)
    {
      var bp := ap - 1;
      FreeRequest(mem, ring, alloc, owner, base, brk, bp);
      j := Place(mem, ring, base, bp, 0);
      var p := Search(bp, j);
      FreeSound(mem, ring, alloc, owner, base, brk, j, bp);
      hide Sound, Freed, FreedOwner, After, Coalesced;
      ring, alloc, owner := Freed(mem, ring, j, bp), alloc - {bp}, FreedOwner(mem, owner, p, bp);

      Join(p, bp);
      freep := p;
    }

    /** The memory sbrk grants, with its size written into its header. */
    method NewBlock(nu: nat, gap: nat) returns (hp: nat)
      requires Valid() && freep != 0 && nu > 0
      modifies this`mem, this`brk, this`alloc, this`owner
      ensures Valid() && hp == old(brk) + gap && brk == hp + nu
      ensures hp !in old(alloc) && alloc == old(alloc) + {hp} && mem[hp].size == nu
      ensures owner.Keys == old(owner.Keys) + Span(hp, nu)
      ensures forall a :: a in old(alloc) ==> mem[a].size == old(mem)[a].size
    {
      hide Sound, Span, Granted;
      hp := brk + gap;
      var h := Header(if hp in mem then mem[hp].ptr else 0, nu);
      AddCore(mem, ring, alloc, owner, base, brk, hp, h);
      AddedSizes(mem, hp, h, alloc);
      mem, brk := mem[hp := h], hp + nu;
      alloc, owner := With(alloc, hp), Granted(owner, hp, nu);
    }

    /** `morecore`: sbrk either refuses or yields `gap` units beyond the last break. */
    method MoreCore(nunits: nat, grant: bool, gap: nat) returns (p: nat, ghost f: nat)
      requires Valid() && freep != 0
      requires 0 < nunits && nunits * UNIT < WORD / 2
      modifies this
      ensures Valid() && freep != 0 && sbrks == old(sbrks) + 1
      ensures alloc == old(alloc) && forall a :: a in alloc ==> mem[a].size == old(mem)[a].size
      ensures p == if grant then freep else 0
      ensures !grant ==>
                mem == old(mem) && ring == old(ring) && owner == old(owner) && freep == old(freep) && brk == old(brk)
      ensures grant ==> brk == old(brk) + gap + CoreUnits(nunits)
      ensures grant ==> owner.Keys == old(owner.Keys) + Span(old(brk) + gap, CoreUnits(nunits))
      ensures grant ==>
                f < |ring| && mem[ring[f]].size >= nunits && (ring[f] == freep || (f > 0 && ring[f - 1] == freep))
    {
      hide Sound, Span;
      sbrks := sbrks + 1;
      f := 0;
      if !grant {
        return 0, f;
      }
      var nu := CoreUnits(nunits);
      var hp := NewBlock(nu, gap);
      ghost var j := Free(hp + 1);
      f := if mem[freep].size >= nunits then j else j + 1;
      p := freep;
    }

    /** Shrink `p` and write the size of the block cut off its end. */
    method Carve(p: nat, nunits: nat)
      requires p in mem && 0 < nunits < mem[p].size
      modifies this`mem
      ensures mem == Split(old(mem), p, nunits)
    {
      mem := mem[p := mem[p].(size := mem[p].size - nunits)];
      var a := p + mem[p].size;
      mem := mem[a := Header(if a in mem then mem[a].ptr else 0, nunits)];
    }

    /** The first conditional of `malloc`: the whole of `p`, or its tail. */
    method Take(prevp: nat, p: nat, nunits: nat, ghost i: nat) returns (r: nat)
      requires Valid() && freep != 0 && 0 < nunits
      requires 0 < i < |ring| && ring[i] == p && ring[i - 1] == prevp && mem[p].size >= nunits
      modifies this`mem, this`freep, this`ring, this`alloc, this`owner
      ensures Valid() && freep == prevp && owner.Keys == old(owner.Keys)
      ensures r > 0 && r - 1 == End(old(mem), p) - nunits
      ensures r - 1 !in old(alloc) && alloc == old(alloc) + {r - 1}
      ensures r - 1 in mem && mem[r - 1].size == nunits
      ensures forall a :: a in old(alloc) ==> mem[a].size == old(mem)[a].size
    {
      hide Sound, Merged, SplitOwner, Split;
      RingMembers(mem, ring, alloc, owner, base, brk, i);
      if mem[p].size == nunits {
        TakeWhole(mem, ring, alloc, owner, base, brk, i);
        ring, alloc := Merged(ring, i - 1, i + 1), alloc + {p};
        mem := mem[prevp := mem[prevp].(ptr := mem[p].ptr)];
        r := p + 1;
      } else {
        TakeTail(mem, ring, alloc, owner, base, brk, i, nunits);
        var a := p + mem[p].size - nunits;
        alloc, owner := alloc + {a}, SplitOwner(owner, p, a);
        Carve(p, nunits);
        r := a + 1;
      }
      freep := prevp;
    }

    /** The block that `malloc` takes without asking for more memory, if there is one. */
    ghost function Candidate(n: nat): (c: Option<nat>)
      reads this
      ensures c.Some? ==> c.value < |ring| && ring[c.value] in mem && mem[ring[c.value]].size >= n
    {
      if freep == 0 || freep !in ring then None
      else NextFit(mem, ring, Next(ring, Position(ring, freep)), |ring|, n)
    }

    /**
     `malloc`: a new block of exactly the units requested, cut from the first free block after
     `freep` that is large enough; otherwise from memory that one call of sbrk has added.
     */
    method Malloc(nbytes: nat, grant: bool, gap: nat) returns (r: nat)
      requires Valid() && nbytes < WORD && Units(nbytes) * UNIT < WORD / 2
      modifies this
      ensures Valid()
      ensures var c := old(Candidate(Units(nbytes)));
              && (r == 0 <==> c.None? && !grant)
              && sbrks == old(sbrks) + (if c.None? then 1 else 0)
              && (c.Some? ==> r == End(old(mem), old(ring)[c.value]) - Units(nbytes) + 1)
      ensures r == 0 ==> alloc == old(alloc)
      ensures r != 0 ==> r - 1 !in old(alloc) && alloc == old(alloc) + {r - 1} && mem[r - 1].size == Units(nbytes)
      ensures forall a :: a in old(alloc) ==> mem[a].size == old(mem)[a].size
      ensures owner.Keys == old(owner.Keys) ||
                (sbrks > old(sbrks) && owner.Keys == old(owner.Keys) + Span(old(brk) + gap, CoreUnits(Units(nbytes))))
    {
      hide Sound, Units, CoreUnits, Span, NextFit;
      var nunits := Units(nbytes);
      var prevp := freep;
      if prevp == 0 {
        mem := mem[base := Header(base, 0)];
        freep, prevp := base, base;
        ring := [base];
        FirstRing(mem, base, brk, nunits);
      }
      ghost var m, r0, g := mem, ring, Position(ring, freep);
      ghost var c := NextFit(m, r0, Next(r0, g), |r0|, nunits);
      ghost var k: nat, left: nat, f: nat, grown := g, |ring|, 0, false;
      RingNext(mem, ring, alloc, owner, base, brk, g);
      var p := mem[prevp].ptr;
      while mem[p].size < nunits
        invariant Valid() && freep != 0 && alloc == old(alloc) && p in mem
        invariant k < |ring| && prevp == ring[k] && p == ring[Next(ring, k)]
        invariant sbrks == old(sbrks) + (if grown then 1 else 0)
        invariant forall a :: a in alloc ==> a in old(mem) && a in mem && mem[a].size == old(mem)[a].size
        invariant !grown ==> mem == m && ring == r0 && freep == r0[g] && owner == old(owner) && brk == old(brk)
        invariant !grown ==> Searching(m, r0, g, Next(ring, k), left, nunits, c)
        invariant grown ==> c.None? && grant && owner.Keys == old(owner.Keys) + Span(old(brk) + gap, CoreUnits(nunits))
        invariant grown ==> f < |ring| && ring[f] in mem && mem[ring[f]].size >= nunits
        invariant grown ==> ring[f] == freep || (f > 0 && k == f - 1)
        decreases if grown then 0 else 1, if grown then Ahead(ring, Next(ring, k), f) else left
      {
        RingNext(mem, ring, alloc, owner, base, brk, Next(ring, k));
        if !grown {
          SearchOn(m, r0, alloc, owner, base, brk, g, Next(ring, k), left, nunits, c);
        }
        if p == freep {
          p, f := MoreCore(nunits, grant, gap);
          grown := true;
          if p == 0 {
            return 0;
          }
          k := if ring[f] == freep then f else f - 1;
          RingNext(mem, ring, alloc, owner, base, brk, k);
        } else {
          k, left := Next(ring, k), if grown then left else left - 1;
        }
        prevp := p;
        p := mem[p].ptr;
      }
      if !grown {
        SearchFound(m, r0, g, Next(ring, k), left, nunits, c);
      }
      TakeIndex(mem, ring, alloc, owner, base, brk, k);
      r := Take(prevp, p, nunits, k + 1);
    }
  }

  /** While no memory has been added: `left` blocks from index k on remain before `freep` has been tried. */
  ghost predicate Searching(mem: Mem, ring: seq<nat>, g: nat, k: nat, left: nat, n: nat, c: Option<nat>) {
    && g < |ring| && 1 <= left <= |ring|
    && k == (if left > g + 1 then g + 1 + |ring| - left else g + 1 - left)
    && NextFit(mem, ring, k, left, n) == c
  }

  lemma SearchOn(mem: Mem, ring: seq<nat>, alloc: set<nat>, owner: map<nat, nat>, base: nat, brk: nat,
                 g: nat, k: nat, left: nat, n: nat, c: Option<nat>)
    requires Sound(mem, ring, alloc, owner, base, brk)
    requires Searching(mem, ring, g, k, left, n, c) && ring[k] in mem && mem[ring[k]].size < n
    ensures ring[k] == ring[g] <==> left == 1
    ensures left == 1 ==> c.None?
    ensures left > 1 ==> Searching(mem, ring, g, Next(ring, k), left - 1, n, c)
  {
    RingDistinct(mem, ring, base, g);
  }

  lemma SearchFound(mem: Mem, ring: seq<nat>, g: nat, k: nat, left: nat, n: nat, c: Option<nat>)
    requires Searching(mem, ring, g, k, left, n, c) && ring[k] in mem && mem[ring[k]].size >= n
    ensures c == Some(k)
  {
  }

  lemma RingNext(mem: Mem, ring: seq<nat>, alloc: set<nat>, owner: map<nat, nat>, base: nat, brk: nat, k: nat)
    requires Sound(mem, ring, alloc, owner, base, brk) && k < |ring|
    ensures ring[k] in mem && Next(ring, k) < |ring|
    ensures mem[ring[k]].ptr == ring[Next(ring, k)] && ring[Next(ring, k)] in mem
    ensures forall a :: a in alloc ==> a in mem
  {
    assert RingAt(mem, ring, k);
    forall a | a in alloc ensures a in mem {
      assert a in Blocks(ring, alloc, base);
    }
  }

  lemma TakeIndex(mem: Mem, ring: seq<nat>, alloc: set<nat>, owner: map<nat, nat>, base: nat, brk: nat, k: nat)
    requires Sound(mem, ring, alloc, owner, base, brk) && k < |ring|
    requires ring[Next(ring, k)] in mem && mem[ring[Next(ring, k)]].size > 0
    ensures k + 1 < |ring|
  {
    assert RingAt(mem, ring, Next(ring, k));
  }

  /** The list that the first call of `malloc` sets up: `base` alone, pointing to itself. */
  lemma FirstRing(mem: Mem, base: nat, brk: nat, n: nat)
    requires base in mem && mem[base] == Header(base, 0) && n > 0
    ensures Sound(mem, [base], {}, map[], base, brk)
    ensures NextFit(mem, [base], 0, 1, n) == None
  {
    assert RingAt(mem, [base], 0);
  }

  /** Facts about two neighbours of the ring that taking a block relies on. */
  lemma RingMembers(mem: Mem, ring: seq<nat>, alloc: set<nat>, owner: map<nat, nat>, base: nat, brk: nat, i: nat)
    requires Sound(mem, ring, alloc, owner, base, brk) && 0 < i < |ring|
    ensures ring[i] in mem && ring[i - 1] in mem && ring[i - 1] != ring[i] && ring[i - 1] >= base
    ensures ring[i - 1] in ring && ring[i] !in alloc && ring[i - 1] !in alloc
    ensures forall a :: a in alloc ==> a in mem
  {
    RingDistinct(mem, ring, base, i);
    if i > 1 {
      Ordered(mem, ring, base, 0, i - 1);
    }
    forall a | a in alloc ensures a in mem {
      assert a in Blocks(ring, alloc, base);
    }
  }

  function Span(p: nat, n: nat): (s: set<nat>)
    ensures forall u :: u in s <==> p <= u < p + n
  {
    if n == 0 then {} else Span(p, n - 1) + {p + n - 1}
  }

  function Granted(owner: map<nat, nat>, p: nat, n: nat): (r: map<nat, nat>)
    ensures r.Keys == owner.Keys + Span(p, n)
  {
    owner + map u | u in Span(p, n) :: p
  }

  /** New units from the kernel, as one block that counts as allocated until it is freed. */
  lemma AddCore(mem: Mem, ring: seq<nat>, alloc: set<nat>, owner: map<nat, nat>, base: nat, brk: nat, p: nat, h: Header)
    requires Sound(mem, ring, alloc, owner, base, brk) && base < brk <= p && h.size > 0
    ensures p !in alloc && Span(p, h.size) !! owner.Keys
    ensures Sound(mem[p := h], ring, alloc + {p}, Granted(owner, p, h.size), base, p + h.size)
  {
    var blocks := Blocks(ring, alloc, base);
    hide Inside, Owns, RingAt, Span, Granted;
    forall a | a in blocks ensures a < brk {
      BlockBelow(mem, blocks, owner, base, brk, a);
    }
    assert p !in blocks && p != base;
    assert p !in ring && p !in alloc;
    SameRing(mem, mem[p := h], ring, base);
    AddTile(mem, blocks, owner, base, brk, p, h);
    assert Blocks(ring, alloc + {p}, base) == blocks + {p};
  }

  lemma BlockBelow(mem: Mem, blocks: set<nat>, owner: map<nat, nat>, base: nat, brk: nat, a: nat)
    requires Tiled(mem, blocks, owner, base, brk) && a in blocks
    ensures a < brk
  {
    assert a in owner && owner[a] == a;
  }

  lemma AddTile(mem: Mem, blocks: set<nat>, owner: map<nat, nat>, base: nat, brk: nat, p: nat, h: Header)
    requires Tiled(mem, blocks, owner, base, brk) && base < brk <= p && h.size > 0 && p !in blocks
    ensures Tiled(mem[p := h], blocks + {p}, Granted(owner, p, h.size), base, p + h.size)
  {
    AddOwns(mem, blocks, owner, p, h);
    AddInside(mem, blocks, owner, p, h);
    hide Inside, Owns, Span;
  }

  lemma AddOwns(mem: Mem, blocks: set<nat>, owner: map<nat, nat>, p: nat, h: Header)
    requires blocks <= mem.Keys && Owns(mem, blocks, owner) && p !in blocks
    requires forall u :: u in owner ==> u < p
    ensures Owns(mem[p := h], blocks + {p}, Granted(owner, p, h.size))
  {
    hide Span;
    var m, o := mem[p := h], Granted(owner, p, h.size);
    forall a, u | a in blocks + {p} && a <= u < End(m, a) ensures u in o && o[u] == a {
      if a != p {
        assert u in owner && owner[u] == a;
      } else {
        assert u in Span(p, h.size);
      }
    }
  }

  lemma AddInside(mem: Mem, blocks: set<nat>, owner: map<nat, nat>, p: nat, h: Header)
    requires blocks <= mem.Keys && Inside(mem, blocks, owner) && p !in blocks
    ensures Inside(mem[p := h], blocks + {p}, Granted(owner, p, h.size))
  {
    hide Span;
  }

  lemma SameRing(mem: Mem, mem': Mem, ring: seq<nat>, base: nat)
    requires Ring(mem, ring, base) && forall i :: 0 <= i < |ring| ==> ring[i] in mem' && mem'[ring[i]] == mem[ring[i]]
    ensures Ring(mem', ring, base)
  {
    forall i: nat | i < |ring| ensures RingAt(mem', ring, i) {
      assert RingAt(mem, ring, i);
    }
  }

  /** Taking the whole i-th block of the ring. */
  lemma TakeWhole(mem: Mem, ring: seq<nat>, alloc: set<nat>, owner: map<nat, nat>, base: nat, brk: nat, i: nat)
    requires Sound(mem, ring, alloc, owner, base, brk) && 0 < i < |ring|
    ensures var m, r := mem[ring[i - 1] := mem[ring[i - 1]].(ptr := mem[ring[i]].ptr)], Merged(ring, i - 1, i + 1);
            Sound(m, r, alloc + {ring[i]}, owner, base, brk) && ring[i - 1] in r && ring[i] !in alloc
  {
    UnlinkRing(mem, ring, base, i);
    RingDistinct(mem, ring, base, i);
    var m, r := mem[ring[i - 1] := mem[ring[i - 1]].(ptr := mem[ring[i]].ptr)], Merged(ring, i - 1, i + 1);
    assert Blocks(r, alloc + {ring[i]}, base) == Blocks(ring, alloc, base);
    SameSizes(mem, m, Blocks(ring, alloc, base), owner, base, brk);
    assert forall k :: 0 <= k < |r| ==> r[k] in r;
    hide Inside, Owns, Blocks, Merged;
  }

  lemma SplitKeeps(mem: Mem, ring: seq<nat>, alloc: set<nat>, owner: map<nat, nat>, base: nat, brk: nat, i: nat, n: nat)
    requires Sound(mem, ring, alloc, owner, base, brk) && 0 < i < |ring| && 0 < n < mem[ring[i]].size
    requires End(mem, ring[i]) - n !in alloc
    ensures var m := Split(mem, ring[i], n);
            && End(mem, ring[i]) - n in m && m[End(mem, ring[i]) - n].size == n
            && forall x :: x in alloc ==> x in mem && x in m && m[x].size == mem[x].size
  {
    RingMembers(mem, ring, alloc, owner, base, brk, i);
  }

  /** Taking the tail of the i-th block of the ring. */
  lemma TakeTail(mem: Mem, ring: seq<nat>, alloc: set<nat>, owner: map<nat, nat>, base: nat, brk: nat, i: nat, n: nat)
    requires Sound(mem, ring, alloc, owner, base, brk) && 0 < i < |ring| && 0 < n < mem[ring[i]].size
    ensures var a := End(mem, ring[i]) - n;
            && a !in alloc && a !in ring
            && Sound(Split(mem, ring[i], n), ring, alloc + {a}, SplitOwner(owner, ring[i], a), base, brk)
            && a in Split(mem, ring[i], n) && Split(mem, ring[i], n)[a].size == n
            && forall x :: x in alloc ==>
                 x in mem && x in Split(mem, ring[i], n) && Split(mem, ring[i], n)[x].size == mem[x].size
  {
    hide Inside, Owns, Split;
    var a := End(mem, ring[i]) - n;
    RingDistinct(mem, ring, base, i);
    SplitTiled(mem, Blocks(ring, alloc, base), owner, base, brk, ring[i], n);
    assert a !in ring by {
      Ordered(mem, ring, base, 0, i);
    }
    SplitRing(mem, ring, base, i, n);
    assert Blocks(ring, alloc + {a}, base) == Blocks(ring, alloc, base) + {a};
    SplitKeeps(mem, ring, alloc, owner, base, brk, i, n);
  }

  lemma FreeRequest(mem: Mem, ring: seq<nat>, alloc: set<nat>, owner: map<nat, nat>, base: nat, brk: nat, bp: nat)
    requires Sound(mem, ring, alloc, owner, base, brk) && bp in alloc
    ensures Ring(mem, ring, base) && base < bp && bp !in ring && bp in mem
  {
    assert bp in Blocks(ring, alloc, base);
  }

  /** `free` keeps the state sound, and the new ring shows the freed units at its j-th block or the next. */
  lemma FreeSound(mem: Mem, ring: seq<nat>, alloc: set<nat>, owner: map<nat, nat>, base: nat, brk: nat, j: nat, bp: nat)
    requires Sound(mem, ring, alloc, owner, base, brk) && base > 0
    requires bp in alloc && bp in mem && After(ring, j, bp)
    ensures ring[j] in mem && mem[ring[j]].ptr in mem && ring[j] != bp
    ensures var r, m := Freed(mem, ring, j, bp), Coalesced(mem, ring[j], bp);
            && Sound(m, r, alloc - {bp}, FreedOwner(mem, owner, ring[j], bp), base, brk)
            && j < |r| && r[j] == ring[j] > 0 && r[j] in m && (j + 1 < |r| ==> r[j + 1] in m)
            && (forall a :: a in alloc && a != bp ==> a in mem && a in m && m[a].size == mem[a].size)
            && (m[r[j]].size >= mem[bp].size || (j + 1 < |r| && m[r[j + 1]].size >= mem[bp].size))
  {
    FreeRing(mem, ring, alloc, owner, base, brk, j, bp);
    FreeTiled(mem, ring, alloc, owner, base, brk, j, bp);
    FreeKeeps(mem, ring, alloc, owner, base, brk, j, bp);
    hide Inside, Owns;
  }

  lemma FreeKeeps(mem: Mem, ring: seq<nat>, alloc: set<nat>, owner: map<nat, nat>, base: nat, brk: nat, j: nat, bp: nat)
    requires Ring(mem, ring, base) && Tiled(mem, Blocks(ring, alloc, base), owner, base, brk)
    requires bp in alloc && Apart(ring, alloc) && After(ring, j, bp)
    ensures mem[ring[j]].ptr in mem
    ensures var r, m := Freed(mem, ring, j, bp), Coalesced(mem, ring[j], bp);
            && Apart(r, alloc - {bp}) && j < |r| && r[j] == ring[j] && ring[j] >= base
            && (forall a :: a in alloc && a != bp ==> a in mem && a in m && m[a].size == mem[a].size)
            && (m[r[j]].size >= mem[bp].size || (j + 1 < |r| && m[r[j + 1]].size >= mem[bp].size))
  {
    assert RingAt(mem, ring, j);
    forall x ensures x in Freed(mem, ring, j, bp) ==> x in ring || x == bp {
      FreedMember(mem, ring, base, j, bp, x);
    }
    if j > 0 {
      Ordered(mem, ring, base, 0, j);
    }
  }
}
