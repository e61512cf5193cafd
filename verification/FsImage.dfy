/**
 The blocks of a file system as values: bitmap, block contents and inodes, the references
 from inodes to blocks, and the bytes of a file.
 */
module FsImage {

  const BSIZE: nat := 512
  const NDIRECT: nat := 12
  const NINDIRECT: nat := 128
  const MAXFILE: nat := NDIRECT + NINDIRECT
  const BPB: nat := 4096
  const IPB: nat := 8
  const WORD: nat := 0x1_0000_0000

  type Block = seq<int>   // BSIZE bytes

  datatype Inode = Inode(addrs: seq<nat>, size: nat)
  datatype Image = Image(used: seq<bool>, data: seq<Block>, inodes: seq<Inode>)

  // ------------------------------------------------------ words in blocks

  /** The j-th 32-bit word of a block, least significant byte first. */
  function Get(b: Block, j: nat): int
    requires |b| == BSIZE && j < NINDIRECT
  {
    b[4 * j] + 0x100 * b[4 * j + 1] + 0x1_0000 * b[4 * j + 2] + 0x100_0000 * b[4 * j + 3]
  }

  function Put(b: Block, j: nat, v: nat): (r: Block)
    requires |b| == BSIZE && j < NINDIRECT && v < WORD
    ensures |r| == BSIZE && Get(r, j) == v
  {
    var q := v / 0x100;
    var p := q / 0x100;
    b[4 * j := v % 0x100][4 * j + 1 := q % 0x100][4 * j + 2 := p % 0x100][4 * j + 3 := p / 0x100]
  }

  lemma PutOther(b: Block, j: nat, v: nat, k: nat)
    requires |b| == BSIZE && j < NINDIRECT && k < NINDIRECT && v < WORD && k != j
    ensures Get(Put(b, j, v), k) == Get(b, k)
  {
  }

  function Zeroes(): (b: Block)
    ensures |b| == BSIZE && forall j :: 0 <= j < NINDIRECT ==> Get(b, j) == 0
  {
    seq(BSIZE, _ => 0)
  }

  // ------------------------------------------------------------ references

  const SLOTS: nat := NDIRECT + 1 + NINDIRECT

  /** Slots of an inode: the direct blocks, the indirect block, the entries of the indirect block. */
  function RefAt(m: Image, i: nat, s: nat): int
    requires Sized(m) && i < |m.inodes| && s < SLOTS
  {
    var addrs := m.inodes[i].addrs;
    if s <= NDIRECT then addrs[s]
    else if addrs[NDIRECT] == 0 then 0
    else Get(m.data[addrs[NDIRECT]], s - NDIRECT - 1)
  }

  /** The slot of the k-th block of a file. */
  function Slot(k: nat): nat {
    if k < NDIRECT then k else k + 1
  }

  /** Lengths, and indirect blocks that exist. */
  ghost predicate Sized(m: Image) {
    && |m.used| == |m.data| < WORD
    && (forall b :: 0 <= b < |m.data| ==> |m.data[b]| == BSIZE)
    && (forall i :: 0 <= i < |m.inodes| ==>
          |m.inodes[i].addrs| == NDIRECT + 1 && m.inodes[i].addrs[NDIRECT] < |m.data|)
  }

  ghost predicate IsSlot(m: Image, i: int, s: int) {
    0 <= i < |m.inodes| && 0 <= s < SLOTS
  }

  /** Every reference is to a data block (from block `lo` on) whose bit is set. */
  ghost predicate InUse(m: Image, lo: nat)
    requires Sized(m)
  {
    && (forall b :: 0 <= b < lo && b < |m.used| ==> m.used[b])
    && (forall i, s :: IsSlot(m, i, s) && RefAt(m, i, s) != 0 ==>
          lo <= RefAt(m, i, s) < |m.used| && m.used[RefAt(m, i, s)])
  }

  /** No block is referenced twice. */
  ghost predicate Unshared(m: Image)
    requires Sized(m)
  {
    forall i, s, i', s' {:trigger RefAt(m, i, s), RefAt(m, i', s')} ::
      IsSlot(m, i, s) && IsSlot(m, i', s') && RefAt(m, i, s) == RefAt(m, i', s') != 0 ==> i == i' && s == s'
  }

  ghost predicate Consistent(m: Image, lo: nat) {
    0 < lo && Sized(m) && InUse(m, lo) && Unshared(m)
  }

  /** All blocks below the size of the i-th inode are mapped. */
  ghost predicate NoHoles(m: Image, i: nat)
    requires Sized(m) && i < |m.inodes|
  {
    && m.inodes[i].size <= MAXFILE * BSIZE
    && forall k :: 0 <= k < MAXFILE && k * BSIZE < m.inodes[i].size ==> RefAt(m, i, Slot(k)) != 0
  }

  lemma SizeBound(m: Image, i: nat)
    requires Sized(m) && i < |m.inodes| && NoHoles(m, i)
    ensures m.inodes[i].size <= MAXFILE * BSIZE
  {
  }

  // ----------------------------------------------------- giving a slot a block

  /** `balloc` and the store of its result: slot s of inode i gets the free block b, zeroed. */
  function Assign(m: Image, i: nat, s: nat, b: nat): Image
    requires Sized(m) && i < |m.inodes| && s < SLOTS && b < |m.used|
  {
    var data := m.data[b := Zeroes()];
    var used := m.used[b := true];
    var addrs := m.inodes[i].addrs;
    if s <= NDIRECT then Image(used, data, m.inodes[i := m.inodes[i].(addrs := addrs[s := b])])
    else Image(used, data[addrs[NDIRECT] := Put(data[addrs[NDIRECT]], s - NDIRECT - 1, b)], m.inodes)
  }

  /** Only that slot changes. */
  lemma AssignRefs(m: Image, lo: nat, i: nat, s: nat, b: nat)
    requires Consistent(m, lo) && IsSlot(m, i, s) && lo <= b < |m.used| && !m.used[b]
    requires RefAt(m, i, s) == 0 && (s > NDIRECT ==> RefAt(m, i, NDIRECT) != 0)
    ensures var m' := Assign(m, i, s, b);
            && Sized(m')
            && forall i', s' :: IsSlot(m, i', s') ==>
                 RefAt(m', i', s') == if i' == i && s' == s then b else RefAt(m, i', s')
  {
    var m' := Assign(m, i, s, b);
    forall i', s' | IsSlot(m, i', s')
      ensures RefAt(m', i', s') == if i' == i && s' == s then b else RefAt(m, i', s')
    {
      AssignRefAt(m, lo, i, s, b, i', s');
    }
  }

  lemma AssignRefAt(m: Image, lo: nat, i: nat, s: nat, b: nat, i': nat, s': nat)
    requires Consistent(m, lo) && IsSlot(m, i, s) && lo <= b < |m.used| && !m.used[b]
    requires RefAt(m, i, s) == 0 && (s > NDIRECT ==> RefAt(m, i, NDIRECT) != 0)
    requires IsSlot(m, i', s')
    ensures Sized(Assign(m, i, s, b))
    ensures RefAt(Assign(m, i, s, b), i', s') == if i' == i && s' == s then b else RefAt(m, i', s')
  {
    assert RefAt(m, i', NDIRECT) == m.inodes[i'].addrs[NDIRECT];
    assert RefAt(m, i, NDIRECT) == m.inodes[i].addrs[NDIRECT];
    if s > NDIRECT && i == i' && s' > NDIRECT && s' != s {
      PutOther(m.data[RefAt(m, i, NDIRECT)], s - NDIRECT - 1, b, s' - NDIRECT - 1);
    }
  }

  lemma AssignConsistent(m: Image, lo: nat, i: nat, s: nat, b: nat)
    requires Consistent(m, lo) && IsSlot(m, i, s) && lo <= b < |m.used| && !m.used[b]
    requires RefAt(m, i, s) == 0 && (s > NDIRECT ==> RefAt(m, i, NDIRECT) != 0)
    ensures Consistent(Assign(m, i, s, b), lo)
  {
    AssignRefs(m, lo, i, s, b);
    hide RefAt;
  }

  // ---------------------------------------------------------- file contents

  /** Byte p of the i-th file; 0 where nothing is mapped. */
  function Byte(m: Image, i: nat, p: nat): int
    requires Sized(m) && i < |m.inodes| && p < MAXFILE * BSIZE
  {
    var r := RefAt(m, i, Slot(p / BSIZE));
    if 0 < r < |m.data| then m.data[r][p % BSIZE] else 0
  }

  function Content(m: Image, i: nat): (c: seq<int>)
    requires Sized(m) && i < |m.inodes| && m.inodes[i].size <= MAXFILE * BSIZE
    ensures |c| == m.inodes[i].size
  {
    seq(m.inodes[i].size, p requires 0 <= p < m.inodes[i].size => Byte(m, i, p))
  }

  /** `c` with `src` written at `off`, growing at the end where it must. */
  function Splice(c: seq<int>, off: nat, src: seq<int>): seq<int>
    requires off <= |c|
  {
    if off + |src| <= |c| then c[..off] + src + c[off + |src|..] else c[..off] + src
  }

  /** Every file but the i-th is as it was: references, block contents, size. */
  ghost predicate OthersKept(m: Image, m': Image, i: nat) {
    && Sized(m) && Sized(m') && |m'.inodes| == |m.inodes| && |m'.data| == |m.data|
    && (forall i' :: 0 <= i' < |m.inodes| && i' != i ==> m'.inodes[i'] == m.inodes[i'])
    && (forall i', s :: IsSlot(m, i', s) && i' != i ==>
          RefAt(m', i', s) == RefAt(m, i', s) && (0 < RefAt(m, i', s) < |m.data| ==>
              m'.data[RefAt(m, i', s)] == m.data[RefAt(m, i', s)]))
  }

  /** Mapped blocks of the i-th file stay where they are, with their contents. */
  ghost predicate MapGrows(m: Image, m': Image, i: nat)
    requires i < |m.inodes|
  {
    && Sized(m) && Sized(m') && |m'.inodes| == |m.inodes| && |m'.data| == |m.data|
    && m'.inodes[i].size == m.inodes[i].size
    && (forall k :: 0 <= k < MAXFILE && RefAt(m, i, Slot(k)) != 0 ==>
          && RefAt(m', i, Slot(k)) == RefAt(m, i, Slot(k))
          && (0 < RefAt(m, i, Slot(k)) < |m.data| ==> m'.data[RefAt(m, i, Slot(k))] == m.data[RefAt(m, i, Slot(k))]))
  }

  lemma AssignKeeps(m: Image, lo: nat, i: nat, s: nat, b: nat)
    requires Consistent(m, lo) && IsSlot(m, i, s) && lo <= b < |m.used| && !m.used[b]
    requires RefAt(m, i, s) == 0 && (s > NDIRECT ==> RefAt(m, i, NDIRECT) != 0)
    ensures OthersKept(m, Assign(m, i, s, b), i) && MapGrows(m, Assign(m, i, s, b), i)
    ensures s != NDIRECT ==> Assign(m, i, s, b).data[b] == Zeroes()
  {
    AssignRefs(m, lo, i, s, b);
    assert RefAt(m, i, NDIRECT) == m.inodes[i].addrs[NDIRECT];
    forall i', s' | IsSlot(m, i', s') && 0 < RefAt(m, i', s') < |m.data| && !(i' == i && s' == NDIRECT)
      ensures Assign(m, i, s, b).data[RefAt(m, i', s')] == m.data[RefAt(m, i', s')]
    {
    }
  }

  lemma KeptTransitive(m: Image, m1: Image, m2: Image, i: nat)
    requires OthersKept(m, m1, i) && OthersKept(m1, m2, i)
    ensures OthersKept(m, m2, i)
  {
    hide RefAt;
  }

  lemma GrowsTransitive(m: Image, m1: Image, m2: Image, i: nat)
    requires i < |m.inodes| == |m1.inodes| && MapGrows(m, m1, i) && MapGrows(m1, m2, i)
    ensures MapGrows(m, m2, i)
  {
    hide RefAt;
  }

  /** New contents for a block that a file slot refers to. */
  function Fill(m: Image, b: nat, x: Block): Image
    requires b < |m.data|
  {
    m.(data := m.data[b := x])
  }

  /** Filling a mapped block changes no reference and no other block of any file. */
  lemma FillKeeps(m: Image, lo: nat, i: nat, k: nat, x: Block)
    requires Consistent(m, lo) && i < |m.inodes| && k < MAXFILE && RefAt(m, i, Slot(k)) != 0 && |x| == BSIZE
    ensures var b := RefAt(m, i, Slot(k));
            && 0 < b < |m.data| && Consistent(Fill(m, b, x), lo)
            && OthersKept(m, Fill(m, b, x), i)
            && (forall s :: 0 <= s < SLOTS ==> RefAt(Fill(m, b, x), i, s) == RefAt(m, i, s))
            && (forall s :: 0 <= s < SLOTS && s != Slot(k) && 0 < RefAt(m, i, s) < |m.data| ==>
                  Fill(m, b, x).data[RefAt(m, i, s)] == m.data[RefAt(m, i, s)])
  {
    var b := RefAt(m, i, Slot(k));
    var m' := Fill(m, b, x);
    assert IsSlot(m, i, Slot(k));
    forall i', s | IsSlot(m, i', s) ensures RefAt(m', i', s) == RefAt(m, i', s) {
      assert RefAt(m, i', NDIRECT) == m.inodes[i'].addrs[NDIRECT] && IsSlot(m, i', NDIRECT);
    }
    FillConsistent(m, lo, b, x);
    hide RefAt;
  }

  lemma FillConsistent(m: Image, lo: nat, b: nat, x: Block)
    requires Consistent(m, lo) && b < |m.data| && |x| == BSIZE
    requires forall i, s :: IsSlot(m, i, s) ==> Sized(Fill(m, b, x)) && RefAt(Fill(m, b, x), i, s) == RefAt(m, i, s)
    ensures Consistent(Fill(m, b, x), lo)
  {
    hide RefAt;
  }

  // ------------------------------------------------------------------ bmap

  /** What `bmap` achieves: block bn of file i is at `addr`; a new block is zeroed, an old one left alone. */
  ghost predicate MapsTo(m: Image, m': Image, lo: nat, i: nat, bn: nat, addr: nat)
    requires Sized(m) && i < |m.inodes|
  {
    && bn < MAXFILE && Consistent(m', lo) && OthersKept(m, m', i) && MapGrows(m, m', i)
    && RefAt(m', i, Slot(bn)) == addr && 0 < addr < |m'.data|
    && (forall k :: 0 <= k < MAXFILE && k != bn ==> RefAt(m', i, Slot(k)) == RefAt(m, i, Slot(k)))
    && (if RefAt(m, i, Slot(bn)) != 0 then m' == m else m'.data[addr] == Zeroes())
    && (RefAt(m, i, NDIRECT) != 0 ==> RefAt(m', i, NDIRECT) == RefAt(m, i, NDIRECT))
  }

  lemma MappedAlready(m: Image, lo: nat, i: nat, bn: nat)
    requires Consistent(m, lo) && i < |m.inodes| && bn < MAXFILE && RefAt(m, i, Slot(bn)) != 0
    ensures RefAt(m, i, Slot(bn)) > 0 && MapsTo(m, m, lo, i, bn, RefAt(m, i, Slot(bn)))
  {
    assert IsSlot(m, i, Slot(bn));
    hide RefAt;
  }

  lemma AttachMaps(m: Image, lo: nat, i: nat, bn: nat, b: nat)
    requires Consistent(m, lo) && i < |m.inodes| && bn < MAXFILE && lo <= b < |m.used| && !m.used[b]
    requires RefAt(m, i, Slot(bn)) == 0 && (bn >= NDIRECT ==> RefAt(m, i, NDIRECT) != 0)
    ensures MapsTo(m, Assign(m, i, Slot(bn), b), lo, i, bn, b)
    ensures RefAt(Assign(m, i, Slot(bn), b), i, NDIRECT) == RefAt(m, i, NDIRECT)
  {
    assert IsSlot(m, i, Slot(bn)) && IsSlot(m, i, NDIRECT);
    AssignRefs(m, lo, i, Slot(bn), b);
    AssignKeeps(m, lo, i, Slot(bn), b);
    AssignConsistent(m, lo, i, Slot(bn), b);
    assert forall k :: 0 <= k < MAXFILE ==> IsSlot(m, i, Slot(k)) && (k != bn ==> Slot(k) != Slot(bn));
    hide RefAt, Consistent, OthersKept, MapGrows, Assign;
  }

  /** Attaching the indirect block first changes no block of the file. */
  lemma TableThenMaps(m: Image, m1: Image, m2: Image, lo: nat, i: nat, bn: nat, t: nat, b: nat)
    requires Consistent(m, lo) && IsSlot(m, i, NDIRECT) && RefAt(m, i, NDIRECT) == 0 && NDIRECT <= bn < MAXFILE
    requires lo <= t < |m.used| && !m.used[t] && m1 == Assign(m, i, NDIRECT, t)
    requires Sized(m1) && i < |m1.inodes| && RefAt(m1, i, Slot(bn)) == 0 && MapsTo(m1, m2, lo, i, bn, b)
    ensures RefAt(m, i, Slot(bn)) == 0 && MapsTo(m, m2, lo, i, bn, b)
  {
    AssignRefs(m, lo, i, NDIRECT, t);
    AssignKeeps(m, lo, i, NDIRECT, t);
    KeptTransitive(m, m1, m2, i);
    GrowsTransitive(m, m1, m2, i);
    assert forall k :: 0 <= k < MAXFILE ==> IsSlot(m, i, Slot(k)) && Slot(k) != NDIRECT;
    hide RefAt, Consistent, OthersKept, MapGrows, Assign;
  }

  lemma TableAttached(m: Image, lo: nat, i: nat, bn: nat, t: nat)
    requires Consistent(m, lo) && IsSlot(m, i, NDIRECT) && RefAt(m, i, NDIRECT) == 0 && NDIRECT <= bn < MAXFILE
    requires lo <= t < |m.used| && !m.used[t]
    ensures Consistent(Assign(m, i, NDIRECT, t), lo)
    ensures var m1 := Assign(m, i, NDIRECT, t);
            RefAt(m1, i, NDIRECT) == t > 0 && RefAt(m1, i, Slot(bn)) == 0 && RefAt(m, i, Slot(bn)) == 0
  {
    AssignRefs(m, lo, i, NDIRECT, t);
    AssignConsistent(m, lo, i, NDIRECT, t);
    assert IsSlot(m, i, Slot(bn));
  }

  // ---------------------------------------------------------------- itrunc

  /** The blocks that slots a to b - 1 of an inode refer to. */
  ghost function Held(m: Image, i: nat, a: nat, b: nat): set<int>
    requires Sized(m) && i < |m.inodes| && b <= SLOTS
  {
    set s | a <= s < b && RefAt(m, i, s) != 0 :: RefAt(m, i, s)
  }

  const EMPTY: Inode := Inode(seq(NDIRECT + 1, _ => 0), 0)

  /** An empty file in place of the i-th, its blocks free. */
  ghost function Truncated(m: Image, i: nat): Image
    requires Sized(m) && i < |m.inodes|
  {
    var held := Held(m, i, 0, SLOTS);
    Image(seq(|m.used|, b requires 0 <= b < |m.used| => m.used[b] && b !in held), m.data, m.inodes[i := EMPTY])
  }

  lemma TruncatedRefs(m: Image, i: nat)
    requires Sized(m) && i < |m.inodes|
    ensures Sized(Truncated(m, i))
    ensures forall i', s :: IsSlot(m, i', s) ==> RefAt(Truncated(m, i), i', s) == if i' == i then 0 else RefAt(m, i', s)
  {
  }

  lemma TruncatedConsistent(m: Image, lo: nat, i: nat)
    requires Consistent(m, lo) && i < |m.inodes|
    ensures Consistent(Truncated(m, i), lo) && OthersKept(m, Truncated(m, i), i)
  {
    TruncatedRefs(m, i);
    var m' := Truncated(m, i);
    forall b | b in Held(m, i, 0, SLOTS) ensures b >= lo {
      var s :| 0 <= s < SLOTS && b == RefAt(m, i, s) != 0;
      assert IsSlot(m, i, s);
    }
    forall i', s | IsSlot(m, i', s) && i' != i && RefAt(m, i', s) != 0
      ensures RefAt(m, i', s) !in Held(m, i, 0, SLOTS)
    {
    }
    hide RefAt;
  }

  /** A slot outside a to b - 1 has a block in use that is none of theirs. */
  lemma HeldFresh(m: Image, lo: nat, i: nat, a: nat, b: nat, s: nat)
    requires Consistent(m, lo) && i < |m.inodes| && b <= SLOTS && s < SLOTS && !(a <= s < b)
    ensures RefAt(m, i, s) != 0 ==>
              lo <= RefAt(m, i, s) < |m.used| && m.used[RefAt(m, i, s)] && RefAt(m, i, s) !in Held(m, i, a, b)
  {
    assert IsSlot(m, i, s);
  }

  lemma HeldNext(m: Image, i: nat, a: nat, b: nat)
    requires Sized(m) && i < |m.inodes| && a <= b < SLOTS
    ensures Held(m, i, a, b + 1) == Held(m, i, a, b) + if RefAt(m, i, b) != 0 then {RefAt(m, i, b)} else {}
    ensures Held(m, i, a, a) == {}
  {
    hide RefAt;
  }

  /** Direct blocks, table entries and the table are all that an inode holds. */
  lemma HeldAll(m: Image, i: nat)
    requires Sized(m) && i < |m.inodes|
    ensures var t := m.inodes[i].addrs[NDIRECT];
            && Held(m, i, 0, SLOTS) ==
               Held(m, i, 0, NDIRECT) + Held(m, i, NDIRECT + 1, SLOTS) + (if t != 0 then {t} else {})
            && (t == 0 ==> Held(m, i, NDIRECT + 1, SLOTS) == {})
  {
    assert RefAt(m, i, NDIRECT) == m.inodes[i].addrs[NDIRECT];
    assert m.inodes[i].addrs[NDIRECT] == 0 ==> forall s :: NDIRECT < s < SLOTS ==> RefAt(m, i, s) == 0;
    hide RefAt;
  }

  lemma DirectSlot(m: Image, i: nat, s: nat)
    requires Sized(m) && i < |m.inodes| && s <= NDIRECT
    ensures RefAt(m, i, s) == m.inodes[i].addrs[s]
  {
  }

  lemma TableSlot(m: Image, i: nat, j: nat)
    requires Sized(m) && i < |m.inodes| && j < NINDIRECT && m.inodes[i].addrs[NDIRECT] != 0
    ensures RefAt(m, i, NDIRECT + 1 + j) == Get(m.data[m.inodes[i].addrs[NDIRECT]], j)
  {
  }

  // ------------------------------------------------------- reads and writes

  function Min(a: nat, b: nat): nat { if a < b then a else b }

  function Max(a: nat, b: nat): nat { if a < b then b else a }

  /** The bytes of one block of a file, read at once. */
  lemma BlockBytes(m: Image, lo: nat, i: nat, off: nat, c: nat)
    requires Consistent(m, lo) && i < |m.inodes| && NoHoles(m, i)
    requires 0 < c <= BSIZE - off % BSIZE && off + c <= m.inodes[i].size
    ensures var addr := RefAt(m, i, Slot(off / BSIZE));
            && 0 < addr < |m.data|
            && Content(m, i)[off..off + c] == m.data[addr][off % BSIZE..off % BSIZE + c]
  {
    var k := off / BSIZE;
    assert IsSlot(m, i, Slot(k)) && RefAt(m, i, Slot(k)) != 0;
    var addr := RefAt(m, i, Slot(k));
    var s, t := Content(m, i)[off..off + c], m.data[addr][off % BSIZE..off % BSIZE + c];
    forall q: nat | q < c ensures s[q] == t[q] {
      SameBlock(off, q);
    }
    hide RefAt;
  }

  lemma Rejoin(c: seq<int>, a: nat, b: nat, d: nat)
    requires a <= b <= d <= |c|
    ensures c[a..b] + c[b..d] == c[a..d]
  {
  }

  lemma SameBlock(p: nat, q: nat)
    requires q < BSIZE - p % BSIZE
    ensures (p + q) / BSIZE == p / BSIZE && (p + q) % BSIZE == p % BSIZE + q
  {
  }

  /** A block with `src` stored at byte r. */
  function Store(x: Block, r: nat, src: seq<int>): (y: Block)
    requires r + |src| <= |x|
    ensures |y| == |x|
  {
    x[..r] + src + x[r + |src|..]
  }

  /** File i of `m0` after the first `tot` bytes of `src` have been written at `off`, but for its size. */
  ghost predicate Progress(m0: Image, m: Image, lo: nat, i: nat, off: nat, src: seq<int>, tot: nat) {
    && i < |m0.inodes| == |m.inodes| && Consistent(m, lo) && OthersKept(m0, m, i)
    && off <= m0.inodes[i].size == m.inodes[i].size && tot <= |src|
    && m.inodes[i].size <= MAXFILE * BSIZE && off + |src| <= MAXFILE * BSIZE
    && (forall k :: 0 <= k < MAXFILE && k * BSIZE < Max(m.inodes[i].size, off + tot) ==> RefAt(m, i, Slot(k)) != 0)
    && (forall p :: 0 <= p < Max(m.inodes[i].size, off + tot) ==>
          Byte(m, i, p) == if off <= p < off + tot then src[p - off] else Byte(m0, i, p))
    && (off + tot <= m.inodes[i].size ==> m.inodes == m0.inodes)
  }

  lemma ProgressFacts(m0: Image, m: Image, lo: nat, i: nat, off: nat, src: seq<int>, tot: nat)
    requires Progress(m0, m, lo, i, off, src, tot)
    ensures Consistent(m, lo) && Sized(m) && i < |m.inodes| == |m0.inodes| && |m.inodes[i].addrs| == NDIRECT + 1
    ensures off + |src| <= MAXFILE * BSIZE && m.inodes[i].size == m0.inodes[i].size
    ensures off + tot <= m.inodes[i].size ==> m.inodes == m0.inodes
  {
  }

  lemma ProgressStart(m: Image, lo: nat, i: nat, off: nat, src: seq<int>)
    requires Consistent(m, lo) && i < |m.inodes| && NoHoles(m, i)
    requires off <= m.inodes[i].size && off + |src| <= MAXFILE * BSIZE
    ensures Progress(m, m, lo, i, off, src, 0)
  {
    hide RefAt;
  }

  /** A block that the write has reached or the file already had is mapped. */
  lemma ProgressMapped(m0: Image, m: Image, lo: nat, i: nat, off: nat, src: seq<int>, tot: nat)
    requires Progress(m0, m, lo, i, off, src, tot) && tot < |src|
    requires (off + tot) % BSIZE != 0 || off + tot < m.inodes[i].size
    ensures RefAt(m, i, Slot((off + tot) / BSIZE)) != 0
  {
    var k := (off + tot) / BSIZE;
    assert k * BSIZE < Max(m.inodes[i].size, off + tot);
    hide RefAt;
  }

  /** One round of the loop of `writei`: map the block, store c bytes in it. */
  lemma ProgressStep(m0: Image, m: Image, m1: Image, lo: nat, i: nat, off: nat, src: seq<int>, tot: nat, c: nat,
        addr: nat)
    requires Progress(m0, m, lo, i, off, src, tot) && 0 < c <= |src| - tot && c <= BSIZE - (off + tot) % BSIZE
    requires MapsTo(m, m1, lo, i, (off + tot) / BSIZE, addr)
    ensures Progress(m0, Fill(m1, addr, Store(m1.data[addr], (off + tot) % BSIZE, src[tot..tot + c])), lo, i, off, src,
            tot + c)
  {
    hide RefAt, Byte, InUse, Unshared, Store;
    var at := off + tot;
    var k := at / BSIZE;
    var x := Store(m1.data[addr], at % BSIZE, src[tot..tot + c]);
    var m2 := Fill(m1, addr, x);
    FillKeeps(m1, lo, i, k, x);
    KeptTransitive(m0, m, m1, i);
    KeptTransitive(m0, m1, m2, i);
    StepMapped(m0, m, m1, m2, lo, i, off, src, tot, c);
    forall p | 0 <= p < Max(m.inodes[i].size, off + tot + c)
      ensures Byte(m2, i, p) == if off <= p < off + tot + c then src[p - off] else Byte(m0, i, p)
    {
      StepByte(m0, m, m1, lo, i, off, src, tot, c, addr, p);
    }
    StepInodes(m0, m, m1, lo, i, off, src, tot, c, addr);
  }

  lemma StepMapped(m0: Image, m: Image, m1: Image, m2: Image, lo: nat, i: nat, off: nat, src: seq<int>, tot: nat,
        c: nat)
    requires Progress(m0, m, lo, i, off, src, tot) && 0 < c <= |src| - tot && c <= BSIZE - (off + tot) % BSIZE
    requires MapGrows(m, m1, i) && RefAt(m1, i, Slot((off + tot) / BSIZE)) != 0
    requires Sized(m2) && i < |m2.inodes| && forall s :: 0 <= s < SLOTS ==> RefAt(m2, i, s) == RefAt(m1, i, s)
    ensures forall k :: 0 <= k < MAXFILE && k * BSIZE < Max(m.inodes[i].size, off + tot + c) ==>
              RefAt(m2, i, Slot(k)) != 0
  {
    forall k | 0 <= k < MAXFILE && k * BSIZE < Max(m.inodes[i].size, off + tot + c) ensures RefAt(m2, i, Slot(k)) != 0 {
      if k != (off + tot) / BSIZE {
        assert k * BSIZE < Max(m.inodes[i].size, off + tot);
      }
    }
    hide RefAt;
  }

  lemma StepByte(m0: Image, m: Image, m1: Image, lo: nat, i: nat, off: nat, src: seq<int>, tot: nat, c: nat, addr: nat,
        p: nat)
    requires Progress(m0, m, lo, i, off, src, tot) && 0 < c <= |src| - tot && c <= BSIZE - (off + tot) % BSIZE
    requires MapsTo(m, m1, lo, i, (off + tot) / BSIZE, addr) && p < Max(m.inodes[i].size, off + tot + c)
    ensures var m2 := Fill(m1, addr, Store(m1.data[addr], (off + tot) % BSIZE, src[tot..tot + c]));
            && Sized(m2) && i < |m2.inodes|
            && Byte(m2, i, p) == if off <= p < off + tot + c then src[p - off] else Byte(m0, i, p)
  {
    hide RefAt, OthersKept, InUse, Unshared, Byte;
    var at := off + tot;
    var k := at / BSIZE;
    var x := Store(m1.data[addr], at % BSIZE, src[tot..tot + c]);
    FillByte(m1, lo, i, k, x, p);
    if p < Max(m.inodes[i].size, at) {
      assert p / BSIZE * BSIZE < Max(m.inodes[i].size, at);
      GrowsByte(m, m1, lo, i, p);
    } else {
      SameBlock(at, p - at);
    }
    if p / BSIZE == k {
      StoredByte(m1, i, k, at, addr, src[tot..tot + c], p);
    }
  }

  lemma GrowsByte(m: Image, m1: Image, lo: nat, i: nat, p: nat)
    requires Consistent(m, lo) && i < |m.inodes| && MapGrows(m, m1, i) && p < MAXFILE * BSIZE
    requires RefAt(m, i, Slot(p / BSIZE)) != 0
    ensures Byte(m1, i, p) == Byte(m, i, p)
  {
    assert IsSlot(m, i, Slot(p / BSIZE));
    hide RefAt;
  }

  lemma FillByte(m: Image, lo: nat, i: nat, k: nat, x: Block, p: nat)
    requires Consistent(m, lo) && i < |m.inodes| && k < MAXFILE && RefAt(m, i, Slot(k)) != 0 && |x| == BSIZE
    requires p < MAXFILE * BSIZE
    ensures var b := RefAt(m, i, Slot(k));
            && 0 < b < |m.data| && Sized(Fill(m, b, x))
            && Byte(Fill(m, b, x), i, p) == if p / BSIZE == k then x[p % BSIZE] else Byte(m, i, p)
  {
    FillKeeps(m, lo, i, k, x);
    assert IsSlot(m, i, Slot(p / BSIZE));
    assert p / BSIZE != k ==> Slot(p / BSIZE) != Slot(k);
    hide RefAt, InUse, Unshared, OthersKept;
  }

  lemma StoredByte(m: Image, i: nat, k: nat, at: nat, addr: nat, src: seq<int>, p: nat)
    requires Sized(m) && i < |m.inodes| && k < MAXFILE && RefAt(m, i, Slot(k)) == addr && 0 < addr < |m.data|
    requires k == at / BSIZE && |src| <= BSIZE - at % BSIZE && p / BSIZE == k && p < MAXFILE * BSIZE
    ensures Store(m.data[addr], at % BSIZE, src)[p % BSIZE] == if at <= p < at + |src| then src[p - at]
            else Byte(m, i, p)
  {
    hide RefAt;
  }

  lemma StepInodes(m0: Image, m: Image, m1: Image, lo: nat, i: nat, off: nat, src: seq<int>, tot: nat, c: nat,
        addr: nat)
    requires Progress(m0, m, lo, i, off, src, tot) && 0 < c <= |src| - tot
    requires MapsTo(m, m1, lo, i, (off + tot) / BSIZE, addr)
    ensures off + tot + c <= m.inodes[i].size ==> m1.inodes == m0.inodes
  {
    if off + tot + c <= m.inodes[i].size {
      ProgressMapped(m0, m, lo, i, off, src, tot);
    }
    hide RefAt;
  }

  /** When all is written and the size is set, the file is the old one with `src` spliced in. */
  lemma ProgressEnd(m0: Image, m: Image, lo: nat, i: nat, off: nat, src: seq<int>)
    requires Progress(m0, m, lo, i, off, src, |src|) && i < |m0.inodes| && Sized(m0)
             && m0.inodes[i].size <= MAXFILE * BSIZE
    ensures var m' := m.(inodes := m.inodes[i := m.inodes[i].(size := Max(m.inodes[i].size, off + |src|))]);
            && Consistent(m', lo) && NoHoles(m', i) && OthersKept(m0, m', i)
            && Content(m', i) == Splice(Content(m0, i), off, src)
  {
    hide RefAt, OthersKept, Byte, InUse, Unshared, Splice;
    var size := Max(m.inodes[i].size, off + |src|);
    var m' := m.(inodes := m.inodes[i := m.inodes[i].(size := size)]);
    ResizeRefs(m, i, size);
    ResizeConsistent(m, lo, i, size);
    KeptTransitive(m0, m, m', i);
    SpliceAt(Content(m0, i), off, src);
    assert Content(m', i) == Splice(Content(m0, i), off, src);
  }

  lemma SpliceAt(c: seq<int>, off: nat, src: seq<int>)
    requires off <= |c|
    ensures var d := Splice(c, off, src);
            && |d| == Max(|c|, off + |src|)
            && forall p :: 0 <= p < |d| ==> d[p] == if off <= p < off + |src| then src[p - off] else c[p]
  {
  }

  lemma ResizeRefs(m: Image, i: nat, size: nat)
    requires Sized(m) && i < |m.inodes|
    ensures var m' := m.(inodes := m.inodes[i := m.inodes[i].(size := size)]);
            && Sized(m') && OthersKept(m, m', i)
            && (forall i', s :: IsSlot(m, i', s) ==> RefAt(m', i', s) == RefAt(m, i', s))
            && (forall k :: 0 <= k < MAXFILE ==> RefAt(m', i, Slot(k)) == RefAt(m, i, Slot(k)))
            && (forall p :: 0 <= p < MAXFILE * BSIZE ==> Byte(m', i, p) == Byte(m, i, p))
  {
  }

  lemma ResizeConsistent(m: Image, lo: nat, i: nat, size: nat)
    requires Consistent(m, lo) && i < |m.inodes|
    ensures Consistent(m.(inodes := m.inodes[i := m.inodes[i].(size := size)]), lo)
  {
    ResizeRefs(m, i, size);
    hide RefAt;
  }

  lemma KeptReflexive(m: Image, i: nat)
    requires Sized(m)
    ensures OthersKept(m, m, i)
  {
  }

  // ------------------------------------------------------------ log budget

  /**
   The blocks a write has logged: one data block a round, one bitmap block an allocation
   (`added` data blocks, `tables` indirect blocks), and the indirect block.
   */
  datatype Spend = Spend(data: set<nat>, bits: set<nat>, table: set<nat>, rounds: nat, added: nat, tables: nat)

  ghost predicate Accounts(sp: Spend, before: set<nat>, logged: set<nat>) {
    && logged <= before + sp.data + sp.bits + sp.table
    && |sp.data| <= sp.rounds && |sp.bits| <= sp.added + sp.tables && |sp.table| <= 1
  }

  lemma {:induction false} SubsetSize(a: set<nat>, b: set<nat>)
    requires a <= b
    ensures |a| <= |b|
  {
    assert b == a + (b - a);
  }

  lemma SpendTotal(sp: Spend, before: set<nat>, logged: set<nat>)
    requires Accounts(sp, before, logged)
    ensures |logged - before| <= sp.rounds + sp.added + sp.tables + 1
  {
    SubsetSize(logged - before, sp.data + sp.bits + sp.table);
  }

  /** A round of the write: the blocks of an allocation, if there was one, and the data block. */
  lemma SpendRound(sp: Spend, before: set<nat>, logged: set<nat>, addr: nat, bits: set<nat>, table: set<nat>, t: nat,
        added: nat, tables: nat)
    returns (sp': Spend)
    requires Accounts(sp, before, logged) && |bits| <= added + tables && sp.table <= {t} && table <= {t}
    ensures sp' == Spend(sp.data + {addr}, sp.bits + bits, sp.table + table, sp.rounds + 1, sp.added + added,
            sp.tables + tables)
    ensures Accounts(sp', before, logged + bits + table + {addr})
  {
    sp' := Spend(sp.data + {addr}, sp.bits + bits, sp.table + table, sp.rounds + 1, sp.added + added,
      sp.tables + tables);
    SubsetSize(sp.table + table, {t});
  }

  /** How far the rounds have come: each but the last fills its block; an unaligned write's first was there. */
  ghost predicate Paced(sp: Spend, off: nat, tot: nat, n: nat) {
    && (sp.rounds == 0 || off % BSIZE + tot == BSIZE * sp.rounds || tot == n)
    && (sp.rounds > 0 ==> BSIZE * (sp.rounds - 1) < off % BSIZE + tot)
    && sp.added <= sp.rounds - (if sp.rounds > 0 && off % BSIZE != 0 then 1 else 0)
    && sp.tables <= 1 && (sp.rounds == 0 ==> tot == 0)
  }

  lemma PacedRound(sp: Spend, sp': Spend, off: nat, tot: nat, n: nat, c: nat)
    requires Paced(sp, off, tot, n) && tot < n && c == Min(n - tot, BSIZE - (off + tot) % BSIZE)
    requires sp'.rounds == sp.rounds + 1 && sp'.tables <= 1
    requires sp'.added == sp.added || (sp'.added == sp.added + 1 && !(sp.rounds == 0 && off % BSIZE != 0))
    ensures Paced(sp', off, tot + c, n)
  {
    assert (off + tot) % BSIZE == (off % BSIZE + tot) % BSIZE;
  }

  /** Three blocks' worth of bytes cost at most nine blocks, the inode not counted. */
  lemma PacedTotal(sp: Spend, off: nat, n: nat)
    requires Paced(sp, off, n, n) && n <= 3 * BSIZE
    ensures sp.rounds + sp.added + sp.tables + 1 <= 9
  {
  }

  lemma OneMore(before: set<nat>, logged: set<nat>, b: nat)
    ensures |logged + {b} - before| <= |logged - before| + 1
  {
    SubsetSize(logged + {b} - before, (logged - before) + {b});
  }

  lemma TableThere(m: Image, i: nat, bn: nat)
    requires Sized(m) && i < |m.inodes| && NDIRECT <= bn < MAXFILE && RefAt(m, i, Slot(bn)) != 0
    ensures m.inodes[i].addrs[NDIRECT] != 0
  {
  }

  /** Writing in pieces, each where the last one ended. */
  lemma SpliceTwice(c: seq<int>, off: nat, a: seq<int>, b: seq<int>)
    requires off <= |c|
    ensures Splice(Splice(c, off, a), off + |a|, b) == Splice(c, off, a + b)
  {
    SpliceAt(c, off, a);
    SpliceAt(Splice(c, off, a), off + |a|, b);
    SpliceAt(c, off, a + b);
    hide Splice;
  }

  lemma SpliceNothing(c: seq<int>, off: nat)
    requires off <= |c|
    ensures Splice(c, off, []) == c
  {
  }

  /** File i of m is that of m0 with `src` written at `off`, which is in the file. */
  ghost predicate Written(m0: Image, m: Image, i: nat, off: nat, src: seq<int>) {
    && Sized(m0) && Sized(m) && i < |m0.inodes| && i < |m.inodes|
    && m0.inodes[i].size <= MAXFILE * BSIZE && m.inodes[i].size <= MAXFILE * BSIZE
    && off <= m0.inodes[i].size && off + |src| <= m.inodes[i].size
    && Content(m, i) == Splice(Content(m0, i), off, src)
  }

  lemma WrittenSize(m0: Image, m: Image, i: nat, off: nat, src: seq<int>)
    ensures Written(m0, m, i, off, src) ==>
              && Sized(m0) && Sized(m) && i < |m0.inodes| && i < |m.inodes|
              && m0.inodes[i].size <= MAXFILE * BSIZE && m.inodes[i].size <= MAXFILE * BSIZE
              && off <= m0.inodes[i].size && off + |src| <= m.inodes[i].size
              && Content(m, i) == Splice(Content(m0, i), off, src)
  {
  }

  lemma WrittenNothing(m: Image, i: nat, off: nat)
    requires Sized(m) && i < |m.inodes| && off <= m.inodes[i].size <= MAXFILE * BSIZE
    ensures Written(m, m, i, off, [])
  {
    SpliceNothing(Content(m, i), off);
    hide Content, Splice;
  }

  /** The next piece of a write in pieces. */
  lemma WrittenNext(m0: Image, m1: Image, m: Image, i: nat, off: nat, src: seq<int>, k: nat, n: nat)
    requires k + n <= |src| && Written(m0, m1, i, off, src[..k])
    requires Sized(m) && i < |m.inodes| && off + k + n <= m.inodes[i].size <= MAXFILE * BSIZE
    requires Content(m, i) == Splice(Content(m1, i), off + k, src[k..k + n])
    ensures Written(m0, m, i, off, src[..k + n])
  {
    SpliceTwice(Content(m0, i), off, src[..k], src[k..k + n]);
    assert src[..k] + src[k..k + n] == src[..k + n];
    hide Content, Splice;
  }
}
