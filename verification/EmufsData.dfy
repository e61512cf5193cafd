/**
 Reading and writing files of the emulated file system: the blocks a write takes, what it leaves behind
 when they run out, and the bytes.
 */
module EmufsData {

  import opened Emufs

  // ------------------------------------------------------ files of blocks

  /** Files grow by whole, distinct blocks; mappings that are not in use are -1. */
  predicate FileOk(x: Inode) {
    && InodeOk(x)
    && (!x.isDir ==>
          && x.size % BLOCKSIZE == 0
          && (forall i :: 0 <= i < ENTRIES ==> (x.mappings[i] == -1 <==> i * BLOCKSIZE >= x.size))
          && (forall i, j :: 0 <= i < j < x.size / BLOCKSIZE ==> x.mappings[i] != x.mappings[j]))
  }

  ghost predicate FilesOk(s: Fs) {
    forall n :: n in Live(s.m.inodeBits) ==> 0 <= n < |s.inodes| && FileOk(s.inodes[n])
  }

  /** One more block at the end of a file. */
  function Longer(x: Inode, b: int): Inode
    requires 0 <= x.size / BLOCKSIZE < |x.mappings|
  {
    x.(mappings := x.mappings[x.size / BLOCKSIZE := b], size := x.size + BLOCKSIZE)
  }

  /** Block b is marked in use. */
  function Marked(s: Fs, b: int): Fs
    requires 0 <= b < |s.m.blockBits|
  {
    s.(m := s.m.(blockBits := s.m.blockBits[b := true]), usedBlocks := s.usedBlocks + 1)
  }

  predicate CanGrow(s: Fs, n: int, b: int) {
    && 0 <= n < |s.inodes| && 0 <= s.inodes[n].size / BLOCKSIZE < |s.inodes[n].mappings|
    && 3 <= b < |s.m.blockBits| && !s.m.blockBits[b]
  }

  function GrownOne(s: Fs, n: int, b: int): Fs
    requires CanGrow(s, n, b)
  {
    Marked(s, b).(inodes := s.inodes[n := Longer(s.inodes[n], b)])
  }

  lemma {:induction false} LongerBlocks(x: Inode, b: int)
    requires FileOk(x) && !x.isDir && x.size < ENTRIES * BLOCKSIZE && b >= 3 && b !in BlocksOf1(x)
    ensures var y := Longer(x, b); FileOk(y) && BlocksOf1(y) == BlocksOf1(x) + {b}
  {
    var y := Longer(x, b);
    var k := x.size / BLOCKSIZE;
    assert NumBlocks(x.size) == k && NumBlocks(y.size) == k + 1;
    assert forall i :: 0 <= i < k ==> x.mappings[i] in FileBlocks(x, k) && y.mappings[i] == x.mappings[i];
    forall c
      ensures c in FileBlocks(y, k + 1) <==> c in FileBlocks(x, k) + {b}
    {
      assert y.mappings[k] == b;
    }
  }

  lemma {:induction false} GrownTree(s: Fs, live: set<int>, rank: seq<nat>, n: int, y: Inode)
    requires Rooted(s, live, rank) && n in live && !s.inodes[n].isDir
    requires !y.isDir && InodeOk(y) && y.parent == s.inodes[n].parent
    ensures Rooted(s.(inodes := s.inodes[n := y]), live, rank)
  {
    var t := s.(inodes := s.inodes[n := y]);
    forall d, k | d in live
      ensures ChildOk(t.inodes, live, rank, d, k)
    {
      assert ChildOk(s.inodes, live, rank, d, k);
    }
    forall x | x in live && x != 0
      ensures Linked(t.inodes, live, x)
    {
      assert Linked(s.inodes, live, x);
    }
  }

  lemma {:induction false} GrownBlocks(inodes: seq<Inode>, live: set<int>, bits: seq<bool>, n: int, y: Inode, b: int)
    requires |bits| == MAXBLOCKS && Fit(inodes, live) && BlocksOk(inodes, live, bits) && n in live
    requires InodeOk(y) && 3 <= b < MAXBLOCKS && !bits[b] && BlocksOf1(y) == BlocksOf1(inodes[n]) + {b}
    ensures Fit(inodes[n := y], live) && BlocksOk(inodes[n := y], live, bits[b := true])
  {
    hide BlocksOf1;
  }

  /** Taking a free block for a file keeps the file system well-formed. */
  lemma {:induction false} GrownKeeps(s: Fs, rank: seq<nat>, n: int, b: int)
    requires WellFormed(s, rank) && FilesOk(s) && n in Live(s.m.inodeBits) && !s.inodes[n].isDir
    requires s.inodes[n].size < ENTRIES * BLOCKSIZE && 3 <= b < MAXBLOCKS && !s.m.blockBits[b]
    ensures CanGrow(s, n, b) && WellFormed(GrownOne(s, n, b), rank) && FilesOk(GrownOne(s, n, b))
  {
    var x := s.inodes[n];
    assert FileOk(x);
    LongerBlocks(x, b);
    RootedSizes(s, Live(s.m.inodeBits), rank);
    var y, t := Longer(x, b), GrownOne(s, n, b);
    GrownTree(s, Live(s.m.inodeBits), rank, n, y);
    GrownBlocks(s.inodes, Live(s.m.inodeBits), s.m.blockBits, n, y, b);
    CountOne(t.m.blockBits, b);
    assert t.m.blockBits[b := false] == s.m.blockBits;
  }

  // ----------------------------------------------- several blocks at once

  /** `alloc_datablock` takes the first free block after the metadata. */
  predicate FirstBlock(bits: seq<bool>, b: int) {
    3 <= b < |bits| && !bits[b] && forall j :: 3 <= j < b ==> bits[j]
  }

  /** Blocks bs can be taken in turn for file n, each the first free one. */
  predicate CanGrowBy(s: Fs, n: int, bs: seq<int>)
    decreases |bs|, 0
  {
    bs == [] ||
    (CanGrowBy(s, n, bs[..|bs| - 1]) &&
     var t := Grown(s, n, bs[..|bs| - 1]);
     CanGrow(t, n, bs[|bs| - 1]) && FirstBlock(t.m.blockBits, bs[|bs| - 1]))
  }

  function Grown(s: Fs, n: int, bs: seq<int>): Fs
    requires CanGrowBy(s, n, bs)
    decreases |bs|, 1
  {
    if bs == [] then s else GrownOne(Grown(s, n, bs[..|bs| - 1]), n, bs[|bs| - 1])
  }

  lemma GrownOn(s: Fs, n: int, bs: seq<int>, b: int)
    requires CanGrowBy(s, n, bs) && CanGrow(Grown(s, n, bs), n, b) && FirstBlock(Grown(s, n, bs).m.blockBits, b)
    ensures CanGrowBy(s, n, bs + [b]) && Grown(s, n, bs + [b]) == GrownOne(Grown(s, n, bs), n, b)
  {
    assert (bs + [b])[..|bs|] == bs;
  }

  /** How many blocks are free. */
  function Unmarked(bits: seq<bool>, i: nat): nat
    decreases |bits| - i
  {
    if i >= |bits| then 0 else (if bits[i] then 0 else 1) + Unmarked(bits, i + 1)
  }

  lemma {:induction false} UnmarkedOne(bits: seq<bool>, i: nat, b: int)
    requires i <= b < |bits| && !bits[b]
    ensures Unmarked(bits[b := true], i) == Unmarked(bits, i) - 1
    decreases |bits| - i
  {
    if i < b {
      UnmarkedOne(bits, i + 1, b);
    } else {
      UnmarkedSame(bits, bits[b := true], i + 1);
    }
  }

  lemma {:induction false} UnmarkedSame(bits: seq<bool>, bits': seq<bool>, i: nat)
    requires |bits'| == |bits| && forall j :: i <= j < |bits| ==> bits'[j] == bits[j]
    ensures Unmarked(bits', i) == Unmarked(bits, i)
    decreases |bits| - i
  {
    if i < |bits| {
      UnmarkedSame(bits, bits', i + 1);
    }
  }

  lemma {:induction false} NoneUnmarked(bits: seq<bool>, i: nat)
    requires forall j :: i <= j < |bits| ==> bits[j]
    ensures Unmarked(bits, i) == 0
    decreases |bits| - i
  {
    if i < |bits| {
      NoneUnmarked(bits, i + 1);
    }
  }

  /** All bits from i on are set. */
  function Filled(bits: seq<bool>, i: nat): (r: seq<bool>)
    ensures |r| == |bits|
  {
    seq(|bits|, b requires 0 <= b < |bits| => b >= i || bits[b])
  }

  /** All blocks are marked. */
  function Drained(s: Fs): Fs {
    s.(m := s.m.(blockBits := Filled(s.m.blockBits, 3)), usedBlocks := s.usedBlocks + Unmarked(s.m.blockBits, 3))
  }

  lemma {:induction false} CountFilled(bits: seq<bool>, i: nat)
    ensures Count(Filled(bits, i)) == Count(bits) + Unmarked(bits, i)
    decreases |bits| - i
  {
    if i < |bits| {
      var next := bits[i := true];
      if bits[i] {
        assert next == bits;
      } else {
        CountOne(next, i);
        assert next[i := false] == bits;
      }
      UnmarkedSame(bits, next, i + 1);
      CountFilled(next, i + 1);
      assert Filled(next, i + 1) == Filled(bits, i);
    } else {
      assert Filled(bits, i) == bits;
    }
  }

  // ---------------------------------------------------------- lost blocks

  ghost function Owned(s: Fs): set<int>
    requires Fit(s.inodes, Live(s.m.inodeBits))
  {
    BlocksOf(s.inodes, Live(s.m.inodeBits))
  }

  /** Blocks that are marked in use although no file has them. */
  ghost function Lost(s: Fs): set<int>
    requires Fit(s.inodes, Live(s.m.inodeBits))
  {
    set b | 3 <= b < |s.m.blockBits| && s.m.blockBits[b] && b !in Owned(s)
  }

  lemma LiveFit(s: Fs, rank: seq<nat>)
    requires WellFormed(s, rank)
    ensures Fit(s.inodes, Live(s.m.inodeBits)) && |s.m.blockBits| == MAXBLOCKS
    ensures forall b :: b in Owned(s) ==> 3 <= b < MAXBLOCKS && s.m.blockBits[b]
  {
  }

  lemma {:induction false} GrownOwned(s: Fs, rank: seq<nat>, n: int, b: int)
    requires WellFormed(s, rank) && FilesOk(s) && n in Live(s.m.inodeBits) && !s.inodes[n].isDir
    requires CanGrow(s, n, b) && s.inodes[n].size < ENTRIES * BLOCKSIZE
    requires Fit(s.inodes, Live(s.m.inodeBits)) && Fit(GrownOne(s, n, b).inodes, Live(s.m.inodeBits))
    ensures Owned(GrownOne(s, n, b)) == Owned(s) + {b}
  {
    LiveFit(s, rank);
    LongerBlocks(s.inodes[n], b);
    var t := GrownOne(s, n, b);
    hide WellFormed, FilesOk, BlocksOf1, InodeOk, Live;
    forall c
      ensures c in Owned(t) <==> c in Owned(s) + {b}
    {
      if c in Owned(s) {
        var q :| q in Live(s.m.inodeBits) && c in BlocksOf1(s.inodes[q]);
        assert c in BlocksOf1(t.inodes[q]);
      }
      assert b in BlocksOf1(t.inodes[n]);
    }
  }

  lemma {:induction false} GrownOneLost(s: Fs, rank: seq<nat>, n: int, b: int)
    requires WellFormed(s, rank) && FilesOk(s) && n in Live(s.m.inodeBits) && 0 <= n < |s.inodes| && !s.inodes[n].isDir
    requires CanGrow(s, n, b)
    ensures WellFormed(GrownOne(s, n, b), rank) && FilesOk(GrownOne(s, n, b))
    ensures Fit(s.inodes, Live(s.m.inodeBits)) && Fit(GrownOne(s, n, b).inodes, Live(s.m.inodeBits))
    ensures Lost(GrownOne(s, n, b)) == Lost(s)
  {
    SizeFacts(s, n);
    LiveFit(s, rank);
    GrownKeeps(s, rank, n, b);
    LiveFit(GrownOne(s, n, b), rank);
    GrownOwned(s, rank, n, b);
    hide WellFormed, FilesOk, Owned, Live;
    forall c
      ensures c in Lost(GrownOne(s, n, b)) <==> c in Lost(s)
    {
    }
  }

  /** A write that has all its blocks keeps the file system sound and loses nothing. */
  lemma {:induction false} GrownSound(s: Fs, rank: seq<nat>, n: int, bs: seq<int>)
    requires WellFormed(s, rank) && FilesOk(s) && n in Live(s.m.inodeBits) && !s.inodes[n].isDir && CanGrowBy(s, n, bs)
    ensures var t := Grown(s, n, bs);
            && WellFormed(t, rank) && FilesOk(t) && Live(t.m.inodeBits) == Live(s.m.inodeBits)
            && Fit(s.inodes, Live(s.m.inodeBits)) && Fit(t.inodes, Live(t.m.inodeBits)) && Lost(t) == Lost(s)
            && 0 <= n < |t.inodes| && !t.inodes[n].isDir
    decreases |bs|
  {
    LiveFit(s, rank);
    hide WellFormed, FilesOk, Live, Lost, Fit;
    if bs != [] {
      var u, b := Grown(s, n, bs[..|bs| - 1]), bs[|bs| - 1];
      GrownSound(s, rank, n, bs[..|bs| - 1]);
      GrownOneLost(u, rank, n, b);
    }
  }

  /** A write that runs out of blocks loses all that were free. */
  lemma {:induction false} DrainedLost(s: Fs, rank: seq<nat>)
    requires WellFormed(s, rank) && FilesOk(s)
    ensures Fit(s.inodes, Live(s.m.inodeBits)) && Fit(Drained(s).inodes, Live(Drained(s).m.inodeBits))
    ensures forall b :: b in Lost(Drained(s)) <==> b in Lost(s) || (3 <= b < MAXBLOCKS && !s.m.blockBits[b])
    ensures Lost(Drained(s)) == Lost(s) <==> Unmarked(s.m.blockBits, 3) == 0
  {
    LiveFit(s, rank);
    var t := Drained(s);
    assert Owned(t) == Owned(s);
    hide WellFormed, FilesOk;
    if Unmarked(s.m.blockBits, 3) == 0 {
      NoneLeft(s.m.blockBits, 3);
    } else if Lost(t) == Lost(s) {
      forall b | 3 <= b < MAXBLOCKS
        ensures s.m.blockBits[b]
      {
        assert b in Lost(t) || b in Owned(t);
      }
      NoneUnmarked(s.m.blockBits, 3);
    }
  }

  lemma {:induction false} NoneLeft(bits: seq<bool>, i: nat)
    requires Unmarked(bits, i) == 0
    ensures forall j :: i <= j < |bits| ==> bits[j]
    decreases |bits| - i
  {
    if i < |bits| {
      NoneLeft(bits, i + 1);
    }
  }

  lemma {:induction false} CountIsSize(bits: seq<bool>)
    ensures Count(bits) == |Live(bits)|
  {
    CountCleared(bits, Live(bits));
    NoneSet(Cleared(bits, Live(bits)));
  }

  lemma {:induction false} NoneSet(bits: seq<bool>)
    requires forall i :: 0 <= i < |bits| ==> !bits[i]
    ensures Count(bits) == 0
  {
    if bits != [] {
      NoneSet(bits[..|bits| - 1]);
    }
  }

  ghost predicate Reserved(s: Fs) { |s.m.blockBits| == MAXBLOCKS && forall b :: 0 <= b < 3 ==> s.m.blockBits[b] }

  /** `used_blocks` counts the metadata, the blocks of the files and the lost ones. */
  lemma {:induction false} BlocksCounted(s: Fs, rank: seq<nat>)
    requires WellFormed(s, rank) && Reserved(s)
    ensures Fit(s.inodes, Live(s.m.inodeBits)) && s.usedBlocks == 3 + |Owned(s)| + |Lost(s)|
  {
    LiveFit(s, rank);
    BitsSplit(s.m.blockBits, Owned(s), Lost(s));
  }

  lemma {:induction false} BitsSplit(bits: seq<bool>, o: set<int>, l: set<int>)
    requires |bits| == MAXBLOCKS && bits[0] && bits[1] && bits[2]
    requires forall b :: b in o ==> 3 <= b < MAXBLOCKS && bits[b]
    requires l == set b | 3 <= b < |bits| && bits[b] && b !in o
    ensures Count(bits) == 3 + |o| + |l|
  {
    CountIsSize(bits);
    var a := {0, 1, 2};
    forall b
      ensures b in Live(bits) <==> b in a + o + l
    {
    }
    assert Live(bits) == a + o + l;
    Disjoint(a, o);
    Disjoint(a + o, l);
  }

  lemma {:induction false} Disjoint(a: set<int>, b: set<int>)
    requires forall x :: x in a ==> x !in b
    ensures |a + b| == |a| + |b|
  {
    forall x
      ensures x !in a * b
    {
    }
    assert a * b == {};
  }

  // ----------------------------------------------------------------- bytes

  predicate Mapped(blocks: seq<seq<int>>, x: Inode) {
    && FileOk(x) && !x.isDir && |blocks| == MAXBLOCKS && (forall b :: 0 <= b < |blocks| ==> |blocks[b]| == BLOCKSIZE)
    && forall i :: 0 <= i < x.size / BLOCKSIZE ==> 3 <= x.mappings[i] < MAXBLOCKS
  }

  function ByteOf(blocks: seq<seq<int>>, x: Inode, i: int): int
    requires Mapped(blocks, x) && 0 <= i < x.size
  {
    blocks[x.mappings[i / BLOCKSIZE]][i % BLOCKSIZE]
  }

  function Content(blocks: seq<seq<int>>, x: Inode): seq<int>
    requires Mapped(blocks, x)
  {
    seq(x.size, i requires 0 <= i < x.size => ByteOf(blocks, x, i))
  }

  lemma FileMapped(s: Fs, rank: seq<nat>, blocks: seq<seq<int>>, n: int)
    requires WellFormed(s, rank) && FilesOk(s) && n in Live(s.m.inodeBits) && !s.inodes[n].isDir
    requires |blocks| == MAXBLOCKS && forall b :: 0 <= b < |blocks| ==> |blocks[b]| == BLOCKSIZE
    ensures Mapped(blocks, s.inodes[n])
  {
    var x := s.inodes[n];
    assert FileOk(x) && NumBlocks(x.size) == x.size / BLOCKSIZE;
    assert forall i :: 0 <= i < x.size / BLOCKSIZE ==> x.mappings[i] in BlocksOf1(x);
  }

  /** memcpy */
  method Copy(to: array<int>, at: int, from: seq<int>)
    requires 0 <= at && at + |from| <= to.Length
    modifies to
    ensures forall i :: 0 <= i < to.Length ==>
              to[i] == if at <= i < at + |from| then from[i - at] else old(to[i])
  {
    var j := 0;
    while j < |from|
      invariant 0 <= j <= |from|
      invariant forall i :: 0 <= i < to.Length ==> to[i] == if at <= i < at + j then from[i - at] else old(to[i])
    {
      to[at + j] := from[j];
      j := j + 1;
    }
  }

  /** The loop that reads all of a file's blocks. */
  method ReadBlocks(blocks: seq<seq<int>>, x: Inode, all: array<int>) returns (data: int)
    requires Mapped(blocks, x) && all.Length == ENTRIES * BLOCKSIZE
    modifies all
    ensures data == x.size && forall i :: 0 <= i < data ==> all[i] == ByteOf(blocks, x, i)
  {
    data := 0;
    var i := 0;
    while i < ENTRIES
      invariant 0 <= i <= ENTRIES && data == i * BLOCKSIZE <= x.size
      invariant forall j :: 0 <= j < data ==> all[j] == ByteOf(blocks, x, j)
    {
      if x.mappings[i] == -1 {
        break;
      }
      Copy(all, data, blocks[x.mappings[i]]);
      data := data + BLOCKSIZE;
      i := i + 1;
    }
  }

  /** How many blocks a write up to `final` adds to a file. */
  function Needed(x: Inode, final: int): (r: int)
    ensures r >= 0
  {
    if NumBlocks(final) > x.size / BLOCKSIZE then NumBlocks(final) - x.size / BLOCKSIZE else 0
  }

  /** The bytes of buf are at off, those of c elsewhere; what is beyond both is not determined. */
  ghost predicate Spliced(c: seq<int>, c': seq<int>, off: int, buf: seq<int>) {
    && |c| <= |c'| && 0 <= off && off + |buf| <= |c'|
    && c'[off..off + |buf|] == buf
    && forall i :: 0 <= i < |c| && !(off <= i < off + |buf|) ==> c'[i] == c[i]
  }

  lemma {:induction false} OtherKept(s: Fs, rank: seq<nat>, blocks: seq<seq<int>>, blocks': seq<seq<int>>, n: int,
        q: int)
    requires WellFormed(s, rank) && FilesOk(s) && n in Live(s.m.inodeBits) && q in Live(s.m.inodeBits) && q != n
    requires Mapped(blocks, s.inodes[q]) && |blocks'| == |blocks| && Mapped(blocks', s.inodes[q])
    requires forall b :: 0 <= b < |blocks| && b !in BlocksOf1(s.inodes[n]) ==> blocks'[b] == blocks[b]
    ensures Content(blocks', s.inodes[q]) == Content(blocks, s.inodes[q])
  {
    var x := s.inodes[q];
    assert NumBlocks(x.size) == x.size / BLOCKSIZE;
    forall i | 0 <= i < x.size
      ensures ByteOf(blocks', x, i) == ByteOf(blocks, x, i)
    {
      var b := x.mappings[i / BLOCKSIZE];
      assert b in BlocksOf1(x);
    }
  }

  lemma DrainedKeeps(s: Fs, rank: seq<nat>)
    requires WellFormed(s, rank) && FilesOk(s)
    ensures WellFormed(Drained(s), rank) && FilesOk(Drained(s))
  {
    hide Tree, Linked, FileOk, BlocksOf1;
    var t, live := Drained(s), Live(s.m.inodeBits);
    RootedSizes(s, live, rank);
    CountFilled(s.m.blockBits, 3);
    assert Rooted(t, live, rank);
    forall n, b | n in live && b in BlocksOf1(t.inodes[n])
      ensures 0 <= b < MAXBLOCKS && t.m.blockBits[b]
    {
      assert s.m.blockBits[b];
    }
    assert BlocksOk(t.inodes, live, t.m.blockBits);
  }

  /** State u is s with the blocks bs marked; y is the file with them, not yet written. */
  ghost predicate Taking(s: Fs, u: Fs, rank: seq<nat>, n: int, y: Inode, bs: seq<int>) {
    && CanGrowBy(s, n, bs) && 0 <= n < |u.inodes| && Grown(s, n, bs) == u.(inodes := u.inodes[n := y])
    && u.inodes == s.inodes && WellFormed(Grown(s, n, bs), rank) && FilesOk(Grown(s, n, bs))
    && |u.m.blockBits| == |s.m.blockBits| == MAXBLOCKS && n in Live(u.m.inodeBits) && !y.isDir
  }

  lemma {:induction false} TakeOne(s: Fs, u: Fs, rank: seq<nat>, n: int, y: Inode, bs: seq<int>, b: int)
    requires Taking(s, u, rank, n, y, bs) && y.size < ENTRIES * BLOCKSIZE && FirstBlock(u.m.blockBits, b)
    ensures 0 <= y.size / BLOCKSIZE < |y.mappings|
    ensures Taking(s, Marked(u, b), rank, n, Longer(y, b), bs + [b])
  {
    var g := Grown(s, n, bs);
    assert Live(g.m.inodeBits) == Live(u.m.inodeBits);
    GrownKeeps(g, rank, n, b);
    GrownOn(s, n, bs, b);
    hide WellFormed, FilesOk, CanGrowBy, Grown;
    assert GrownOne(g, n, b).inodes == u.inodes[n := Longer(y, b)];
  }

  /** What the file keeps. */
  lemma {:induction false} GrownFacts(s: Fs, n: int, bs: seq<int>)
    requires CanGrowBy(s, n, bs) && 0 <= n < |s.inodes| && s.inodes[n].size >= 0 && s.inodes[n].size % BLOCKSIZE == 0
    ensures var t := Grown(s, n, bs);
            && |t.inodes| == |s.inodes| && (forall q :: 0 <= q < |s.inodes| && q != n ==> t.inodes[q] == s.inodes[q])
            && t.m == s.m.(blockBits := t.m.blockBits)
            && t.inodes[n].isDir == s.inodes[n].isDir && t.inodes[n].parent == s.inodes[n].parent
            && t.inodes[n].size == s.inodes[n].size + BLOCKSIZE * |bs|
            && |t.inodes[n].mappings| == |s.inodes[n].mappings|
            && (forall i :: 0 <= i < s.inodes[n].size / BLOCKSIZE && i < |s.inodes[n].mappings| ==>
                  t.inodes[n].mappings[i] == s.inodes[n].mappings[i])
    decreases |bs|
  {
    if bs != [] {
      GrownFacts(s, n, bs[..|bs| - 1]);
    }
  }

  lemma AllMapped(s: Fs, rank: seq<nat>, blocks: seq<seq<int>>)
    requires WellFormed(s, rank) && FilesOk(s)
    requires |blocks| == MAXBLOCKS && forall b :: 0 <= b < |blocks| ==> |blocks[b]| == BLOCKSIZE
    ensures forall q :: q in Live(s.m.inodeBits) ==>
              0 <= q < |s.inodes| && (!s.inodes[q].isDir ==> Mapped(blocks, s.inodes[q]))
  {
    hide WellFormed, Live, Mapped;
    forall q | q in Live(s.m.inodeBits)
      ensures 0 <= q < |s.inodes| && (!s.inodes[q].isDir ==> Mapped(blocks, s.inodes[q]))
    {
      assert FilesOk(s);
      if !s.inodes[q].isDir {
        FileMapped(s, rank, blocks, q);
      }
    }
  }

  /** The other files hold what they did. */
  lemma {:induction false} OthersKept(s: Fs, rank: seq<nat>, n: int, bs: seq<int>, blocks: seq<seq<int>>,
        blocks': seq<seq<int>>)
    requires WellFormed(s, rank) && FilesOk(s) && n in Live(s.m.inodeBits) && 0 <= n < |s.inodes| && !s.inodes[n].isDir
    requires CanGrowBy(s, n, bs) && WellFormed(Grown(s, n, bs), rank) && FilesOk(Grown(s, n, bs))
    requires Mapped(blocks, s.inodes[n]) && |Grown(s, n, bs).inodes| == |s.inodes|
             && Mapped(blocks', Grown(s, n, bs).inodes[n])
    requires forall b :: 0 <= b < MAXBLOCKS && b !in BlocksOf1(Grown(s, n, bs).inodes[n]) ==> blocks'[b] == blocks[b]
    ensures var t := Grown(s, n, bs);
            forall q :: q in Live(t.m.inodeBits) && q != n ==>
              && 0 <= q < |s.inodes| && t.inodes[q] == s.inodes[q]
              && (!t.inodes[q].isDir ==>
                    Mapped(blocks, s.inodes[q]) && Mapped(blocks', t.inodes[q])
                    && Content(blocks', t.inodes[q]) == Content(blocks, s.inodes[q]))
  {
    var t := Grown(s, n, bs);
    SizeFacts(s, n);
    GrownFacts(s, n, bs);
    AllMapped(s, rank, blocks);
    AllMapped(t, rank, blocks');
    hide WellFormed, FilesOk, Grown, CanGrowBy, Mapped, Content, Live, BlocksOf1;
    forall q | q in Live(t.m.inodeBits) && q != n && !t.inodes[q].isDir
      ensures Mapped(blocks, s.inodes[q]) && Mapped(blocks', t.inodes[q])
      ensures Content(blocks', t.inodes[q]) == Content(blocks, s.inodes[q])
    {
      assert q in Live(s.m.inodeBits);
      OtherKept(t, rank, blocks, blocks', n, q);
    }
  }

  /** The file x, now y, holds buf, and around it the old bytes. */
  lemma {:induction false} Wrote(blocks: seq<seq<int>>, blocks': seq<seq<int>>, x: Inode, y: Inode, all: seq<int>,
        off: int, buf: seq<int>)
    requires Mapped(blocks, x) && Mapped(blocks', y) && 0 <= x.size <= y.size <= |all|
    requires 0 <= off && off + |buf| <= y.size
    requires forall i :: 0 <= i < |buf| ==> all[off + i] == buf[i]
    requires forall i :: 0 <= i < x.size && !(off <= i < off + |buf|) ==> all[i] == ByteOf(blocks, x, i)
    requires forall i :: 0 <= i < y.size ==> ByteOf(blocks', y, i) == all[i]
    ensures Spliced(Content(blocks, x), Content(blocks', y), off, buf)
  {
    hide ByteOf, Mapped;
    assert Content(blocks', y)[off..off + |buf|] == buf;
  }

  lemma SizeFacts(s: Fs, n: int)
    requires FilesOk(s) && n in Live(s.m.inodeBits) && 0 <= n < |s.inodes| && !s.inodes[n].isDir
    ensures 0 <= s.inodes[n].size <= ENTRIES * BLOCKSIZE && s.inodes[n].size % BLOCKSIZE == 0
  {
  }

  lemma TakeNone(s: Fs, rank: seq<nat>, n: int)
    requires WellFormed(s, rank) && FilesOk(s) && n in Live(s.m.inodeBits) && !s.inodes[n].isDir
    ensures 0 <= n < |s.inodes| && Taking(s, s, rank, n, s.inodes[n], [])
  {
    RootedSizes(s, Live(s.m.inodeBits), rank);
    assert s.inodes[n := s.inodes[n]] == s.inodes;
  }

  /** Handle h moves by so many bytes. */
  function Advanced(s: Fs, h: int, delta: int): Fs
    requires 0 <= h < |s.m.files|
  {
    s.(m := s.m.(files := s.m.files[h := s.m.files[h].(offset := s.m.files[h].offset + delta)]))
  }

  /** Handle h is `delta` bytes further on; its inode and mount, and all other handles, are as before. */
  predicate Moved(s: Fs, t: Fs, h: int, delta: int) {
    && 0 <= h < |s.m.files| == |t.m.files| && t.m.dirs == s.m.dirs
    && t.m.files[h].offset == s.m.files[h].offset + delta
    && t.m.files[h].inode == s.m.files[h].inode && t.m.files[h].mount == s.m.files[h].mount
    && forall i :: 0 <= i < |s.m.files| && i != h ==> t.m.files[i] == s.m.files[i]
  }

  lemma AdvancedKeeps(s: Fs, rank: seq<nat>, h: int, delta: int)
    requires WellFormed(s, rank) && FilesOk(s) && 0 <= h < |s.m.files|
    ensures WellFormed(Advanced(s, h, delta), rank) && FilesOk(Advanced(s, h, delta))
  {
    hide Tree, Linked, BlocksOk, Count, FileOk;
    assert Rooted(Advanced(s, h, delta), Live(s.m.inodeBits), rank);
  }

  lemma ContentSize(blocks: seq<seq<int>>, x: Inode)
    requires Mapped(blocks, x)
    ensures |Content(blocks, x)| == x.size
  {
  }

  /** Bytes laid behind others that were just laid. */
  lemma JoinSplices(c: seq<int>, c': seq<int>, off: int, buf: seq<int>, more: seq<int>)
    requires 0 <= off && off + |buf| <= |c| && c[off..off + |buf|] == buf && Spliced(c, c', off + |buf|, more)
    ensures off + |buf + more| <= |c'| && c'[off..off + |buf + more|] == buf + more
  {
    forall i | 0 <= i < |buf|
      ensures c'[off + i] == buf[i]
    {
      assert c[off..off + |buf|][i] == c[off + i];
    }
    assert c'[off..off + |buf + more|] == c'[off..off + |buf|] + c'[off + |buf|..off + |buf| + |more|];
  }

  /** A write leaves a file a file. */
  lemma StillOnFile(s: Fs, t: Fs, n: int, rank: seq<nat>)
    requires WellFormed(t, rank) && n in Live(s.m.inodeBits) && t.m.inodeBits == s.m.inodeBits
    ensures n in Live(t.m.inodeBits) && 0 <= n < |t.inodes|
  {
    RootedSizes(t, Live(t.m.inodeBits), rank);
  }

  /** A write that starts within the file, or at its end, determines every byte up to its own end. */
  lemma NoGap(c: seq<int>, c': seq<int>, off: int, buf: seq<int>)
    requires Spliced(c, c', off, buf) && off <= |c|
    ensures c'[..off + |buf|] == c[..off] + buf
    ensures off + |buf| <= |c| ==> c'[off + |buf|..|c|] == c[off + |buf|..]
  {
    assert c'[..off + |buf|] == c'[..off] + c'[off..off + |buf|];
  }

  class Volume {
    var fs: Fs                     // the superblock and the inodes
    var blocks: seq<seq<int>>

    ghost predicate Valid(rank: seq<nat>)
      reads this
    {
      && WellFormed(fs, rank) && FilesOk(fs)
      && |blocks| == MAXBLOCKS && forall b :: 0 <= b < |blocks| ==> |blocks[b]| == BLOCKSIZE
    }

    /** `alloc_datablock`: the first free block, or -1. */
    method AllocDatablock() returns (b: int)
      requires |fs.m.blockBits| == MAXBLOCKS
      modifies this`fs
      ensures b == -1 <==> Unmarked(old(fs).m.blockBits, 3) == 0
      ensures b == -1 ==> fs == old(fs) && forall i :: 3 <= i < MAXBLOCKS ==> fs.m.blockBits[i]
      ensures b != -1 ==> FirstBlock(old(fs).m.blockBits, b) && fs == Marked(old(fs), b)
    {
      b := 3;
      while b < MAXBLOCKS
        invariant 3 <= b <= MAXBLOCKS && fs == old(fs) && forall i :: 3 <= i < b ==> fs.m.blockBits[i]
      {
        if !fs.m.blockBits[b] {
          UnmarkedOne(fs.m.blockBits, 3, b);
          fs := Marked(fs, b);
          return;
        }
        b := b + 1;
      }
      NoneUnmarked(fs.m.blockBits, 3);
      b := -1;
    }

    /** What `emufs_read` reads from file n at offset off. */
    method ReadAt(n: int, off: int, size: int, ghost rank: seq<nat>) returns (ok: bool, out: seq<int>)
      requires Valid(rank) && n in Live(fs.m.inodeBits) && !fs.inodes[n].isDir && 0 <= off && 0 <= size
      ensures Mapped(blocks, fs.inodes[n])
      ensures ok <==> off + size <= fs.inodes[n].size
      ensures ok ==> out == Content(blocks, fs.inodes[n])[off..off + size]
    {
      FileMapped(fs, rank, blocks, n);
      var all := new int[ENTRIES * BLOCKSIZE];
      var data := ReadBlocks(blocks, fs.inodes[n], all);
      if off + size > data {
        return false, [];
      }
      assert all[..data] == Content(blocks, fs.inodes[n]);
      ok, out := true, all[off..off + size];
    }

    /** The loop that writes all of a file's blocks back. */
    method WriteBlocks(x: Inode, all: array<int>, data: int)
      requires Mapped(blocks, x) && all.Length == ENTRIES * BLOCKSIZE && data == x.size
      modifies this`blocks
      ensures Mapped(blocks, x) && forall i :: 0 <= i < data ==> ByteOf(blocks, x, i) == all[i]
      ensures forall b :: 0 <= b < MAXBLOCKS && b !in BlocksOf1(x) ==> blocks[b] == old(blocks)[b]
    {
      assert NumBlocks(x.size) == x.size / BLOCKSIZE;
      var i := 0;
      while i < data / BLOCKSIZE
        invariant 0 <= i <= data / BLOCKSIZE && Mapped(blocks, x)
        invariant forall k :: 0 <= k < i ==> blocks[x.mappings[k]] == all[k * BLOCKSIZE..(k + 1) * BLOCKSIZE]
        invariant forall b :: 0 <= b < MAXBLOCKS && b !in BlocksOf1(x) ==> blocks[b] == old(blocks)[b]
      {
        assert x.mappings[i] in BlocksOf1(x);
        blocks := blocks[x.mappings[i] := all[i * BLOCKSIZE..(i + 1) * BLOCKSIZE]];
        i := i + 1;
      }
    }

    /** The loop that takes blocks for file n until it reaches `final`. */
    method Extend(n: int, final: int, ghost rank: seq<nat>) returns (ok: bool, y: Inode, ghost bs: seq<int>)
      requires WellFormed(fs, rank) && FilesOk(fs) && n in Live(fs.m.inodeBits) && !fs.inodes[n].isDir
      requires 0 <= final <= ENTRIES * BLOCKSIZE
      modifies this`fs
      ensures 0 <= n < |old(fs).inodes|
      ensures ok <==> Needed(old(fs).inodes[n], final) <= Unmarked(old(fs).m.blockBits, 3)
      ensures ok ==> Taking(old(fs), fs, rank, n, y, bs) && |bs| == Needed(old(fs).inodes[n], final)
      ensures !ok ==> fs == Drained(old(fs))
    {
      hide WellFormed, FilesOk, Count, CanGrowBy, Grown, Unmarked;
      TakeNone(fs, rank, n);
      ghost var s := fs;
      ghost var x := fs.inodes[n];
      SizeFacts(s, n);
      y, bs := fs.inodes[n], [];
      var data := y.size;
      while final > data
        invariant Taking(s, fs, rank, n, y, bs) && data == y.size == x.size + BLOCKSIZE * |bs|
        invariant data <= ENTRIES * BLOCKSIZE && |bs| <= Needed(x, final)
        invariant Unmarked(fs.m.blockBits, 3) == Unmarked(s.m.blockBits, 3) - |bs|
        invariant fs == s.(m := s.m.(blockBits := fs.m.blockBits), usedBlocks := s.usedBlocks + |bs|)
        invariant forall i :: 0 <= i < 3 ==> fs.m.blockBits[i] == s.m.blockBits[i]
        decreases final - data
      {
        ghost var u := fs;
        var b := AllocDatablock();
        if b == -1 {
          assert fs.m.blockBits == Filled(s.m.blockBits, 3);
          ok := false;
          return;
        }
        TakeOne(s, u, rank, n, y, bs, b);
        UnmarkedOne(u.m.blockBits, 3, b);
        y := y.(mappings := y.mappings[y.size / BLOCKSIZE := b]);
        y := y.(size := y.size + BLOCKSIZE);
        bs := bs + [b];
        data := data + BLOCKSIZE;
      }
      ok := true;
    }

    /** What `emufs_write` does to file n at offset off. */
    method WriteAt(n: int, off: int, buf: seq<int>, ghost rank: seq<nat>) returns (ok: bool, ghost bs: seq<int>)
      requires Valid(rank) && n in Live(fs.m.inodeBits) && !fs.inodes[n].isDir && 0 <= off
      modifies this
      ensures Valid(rank) && 0 <= n < |old(fs).inodes| && fs.m.inodeBits == old(fs).m.inodeBits
      ensures var need := Needed(old(fs).inodes[n], off + |buf|);
              ok <==> off + |buf| <= ENTRIES * BLOCKSIZE && need <= Unmarked(old(fs).m.blockBits, 3)
      ensures !ok ==> blocks == old(blocks)
      ensures !ok ==> fs == if off + |buf| > ENTRIES * BLOCKSIZE then old(fs) else Drained(old(fs))
      ensures ok ==>
                CanGrowBy(old(fs), n, bs) && fs == Grown(old(fs), n, bs)
                  && |bs| == Needed(old(fs).inodes[n], off + |buf|)
      ensures Mapped(old(blocks), old(fs).inodes[n]) && Mapped(blocks, fs.inodes[n])
      ensures ok ==> Spliced(Content(old(blocks), old(fs).inodes[n]), Content(blocks, fs.inodes[n]), off, buf)
      ensures forall q :: q in Live(fs.m.inodeBits) && !fs.inodes[q].isDir && q != n ==>
                Mapped(old(blocks), old(fs).inodes[q]) && Mapped(blocks, fs.inodes[q])
                && Content(blocks, fs.inodes[q]) == Content(old(blocks), old(fs).inodes[q])
    {
      hide WellFormed, FilesOk, Count, Live, Unmarked, Grown, CanGrowBy, BlocksOf1, FileOk, Spliced;
      ghost var s := fs;
      ghost var was := blocks;
      TakeNone(fs, rank, n);
      SizeFacts(fs, n);
      AllMapped(fs, rank, blocks);
      bs := [];
      var final := off + |buf|;
      if final > ENTRIES * BLOCKSIZE {
        return false, [];
      }
      var all := new int[ENTRIES * BLOCKSIZE];
      var data := ReadBlocks(blocks, fs.inodes[n], all);
      var y;
      ok, y, bs := Extend(n, final, rank);
      if !ok {
        DrainedKeeps(s, rank);
        return false, [];
      }
      ghost var g := Grown(s, n, bs);
      GrownFacts(s, n, bs);
      SizeFacts(g, n);
      AllMapped(g, rank, blocks);
      Copy(all, off, buf);
      WriteBlocks(y, all, y.size);
      Wrote(was, blocks, s.inodes[n], y, all[..], off, buf);
      OthersKept(s, rank, n, bs, was, blocks);
      fs := fs.(inodes := fs.inodes[n := y]);
    }

    /** Handle h is out of range, or open on a file. */
    ghost predicate OnFile(h: int)
      reads this
    {
      0 <= h < |fs.m.files| ==>
        var x := fs.m.files[h];
        0 <= x.inode < |fs.inodes| && x.inode in Live(fs.m.inodeBits) && !fs.inodes[x.inode].isDir && 0 <= x.offset
    }

    /** `emufs_read` */
    method Read(h: int, size: int, ghost rank: seq<nat>) returns (ok: bool, out: seq<int>)
      requires Valid(rank) && OnFile(h) && 0 <= size
      modifies this`fs
      ensures Valid(rank)
      ensures ok <==> 0 <= h < |old(fs).m.files| &&
                      old(fs).m.files[h].offset + size <= old(fs).inodes[old(fs).m.files[h].inode].size
      ensures !ok ==> fs == old(fs)
      ensures ok ==> Moved(old(fs), fs, h, size)
      ensures ok ==> var x := old(fs).m.files[h];
                     && fs == Advanced(old(fs), h, size) && Mapped(blocks, fs.inodes[x.inode])
                     && out == Content(blocks, fs.inodes[x.inode])[x.offset..x.offset + size]
    {
      hide WellFormed, FilesOk, Live;
      if h < 0 || h >= |fs.m.files| {
        return false, [];
      }
      ok, out := ReadAt(fs.m.files[h].inode, fs.m.files[h].offset, size, rank);
      if ok {
        AdvancedKeeps(fs, rank, h, size);
        fs := Advanced(fs, h, size);
      }
    }

    /** `emufs_write` */
    method Write(h: int, buf: seq<int>, ghost rank: seq<nat>) returns (ok: bool, ghost bs: seq<int>)
      requires Valid(rank) && OnFile(h)
      modifies this
      ensures Valid(rank) && |old(blocks)| == MAXBLOCKS
      ensures !(0 <= h < |old(fs).m.files|) ==> !ok && fs == old(fs) && blocks == old(blocks)
      ensures ok ==> Moved(old(fs), fs, h, |buf|)
      ensures 0 <= h < |old(fs).m.files| ==>
                var s, x, final := old(fs), old(fs).m.files[h], old(fs).m.files[h].offset + |buf|;
                && (ok <==>
                      final <= ENTRIES * BLOCKSIZE && Needed(s.inodes[x.inode], final) <= Unmarked(s.m.blockBits, 3))
                && (!ok ==> blocks == old(blocks) && fs == if final > ENTRIES * BLOCKSIZE then s else Drained(s))
                && (ok ==> CanGrowBy(s, x.inode, bs) && |Grown(s, x.inode, bs).m.files| == |s.m.files|
                           && |bs| == Needed(s.inodes[x.inode], final)
                           && fs == Advanced(Grown(s, x.inode, bs), h, |buf|))
                && x.inode < |fs.inodes| && Mapped(old(blocks), s.inodes[x.inode]) && Mapped(blocks, fs.inodes[x.inode])
                && (ok ==>
                      var was, now := Content(old(blocks), s.inodes[x.inode]), Content(blocks, fs.inodes[x.inode]);
                      Spliced(was, now, x.offset, buf))
                && (forall q :: q in Live(fs.m.inodeBits) && !fs.inodes[q].isDir && q != x.inode ==>
                      Mapped(old(blocks), s.inodes[q]) && Mapped(blocks, fs.inodes[q])
                      && Content(blocks, fs.inodes[q]) == Content(old(blocks), s.inodes[q]))
    {
      hide WellFormed, FilesOk, Live, Unmarked, Grown, CanGrowBy, Spliced, Mapped, Content, Needed;
      bs := [];
      if h < 0 || h >= |fs.m.files| {
        return false, [];
      }
      ghost var s := fs;
      var n, off := fs.m.files[h].inode, fs.m.files[h].offset;
      SizeFacts(s, n);
      ok, bs := WriteAt(n, off, buf, rank);
      if ok {
        GrownFacts(s, n, bs);
        AdvancedKeeps(fs, rank, h, |buf|);
        fs := Advanced(fs, h, |buf|);
      }
    }

    /** `emufs_seek`: the offset stays within the file, and before its end. */
    method Seek(h: int, nseek: int) returns (r: int)
      requires 0 <= h < |fs.m.files| ==> 0 <= fs.m.files[h].inode < |fs.inodes|
      modifies this`fs
      ensures r == 1 <==> 0 <= h < |old(fs).m.files| &&
                          0 <= old(fs).m.files[h].offset + nseek < old(fs).inodes[old(fs).m.files[h].inode].size
      ensures r == 1 || r == -1
      ensures r == -1 ==> fs == old(fs)
      ensures r == 1 ==> fs == Advanced(old(fs), h, nseek) && Moved(old(fs), fs, h, nseek)
    {
      if h < 0 || h >= |fs.m.files| {
        return -1;
      }
      var final := fs.m.files[h].offset + nseek;
      if final < 0 || final >= fs.inodes[fs.m.files[h].inode].size {
        return -1;
      }
      fs := fs.(m := fs.m.(files := fs.m.files[h := fs.m.files[h].(offset := final)]));
      r := 1;
    }

    /** Two reads in a row give the file's bytes in a row. */
    method ReadTwice(h: int, a: int, b: int, ghost rank: seq<nat>) returns (ok: bool, out: seq<int>)
      requires Valid(rank) && OnFile(h) && 0 <= a && 0 <= b && 0 <= h < |fs.m.files|
      modifies this`fs
      ensures var x := old(fs).m.files[h];
              && (ok <==> x.offset + a + b <= old(fs).inodes[x.inode].size)
              && (ok ==> Mapped(blocks, old(fs).inodes[x.inode])
                         && out == Content(blocks, old(fs).inodes[x.inode])[x.offset..x.offset + a + b])
    {
      hide WellFormed, FilesOk, Live, Mapped;
      ghost var s := fs;
      var first;
      ok, first := Read(h, a, rank);
      if !ok {
        return false, [];
      }
      assert fs.inodes == s.inodes;
      ok, out := Read(h, b, rank);
      out := first + out;
    }

    /** Two writes in a row leave their bytes in a row. */
    method WriteTwice(h: int, buf: seq<int>, more: seq<int>, ghost rank: seq<nat>) returns (ok: bool)
      requires Valid(rank) && OnFile(h) && 0 <= h < |fs.m.files|
      modifies this
      ensures Valid(rank)
      ensures var x := old(fs).m.files[h];
              ok ==> && 0 <= x.inode < |fs.inodes| && 0 <= x.offset && Mapped(blocks, fs.inodes[x.inode])
                     && x.offset + |buf + more| <= fs.inodes[x.inode].size
                     && Content(blocks, fs.inodes[x.inode])[x.offset..x.offset + |buf + more|] == buf + more
                     && h < |fs.m.files| && fs.m.files[h].offset == x.offset + |buf + more|
    {
      hide WellFormed, FilesOk, Live, Unmarked, Grown, CanGrowBy, Mapped, Content, Needed;
      ghost var s := fs;
      ghost var n, off := fs.m.files[h].inode, fs.m.files[h].offset;
      ghost var bs;
      ok, bs := Write(h, buf, rank);
      if !ok {
        return;
      }
      SizeFacts(s, n);
      GrownFacts(s, n, bs);
      ghost var c := Content(blocks, fs.inodes[n]);
      StillOnFile(s, fs, n, rank);
      ok, bs := Write(h, more, rank);
      if ok {
        JoinSplices(c, Content(blocks, fs.inodes[n]), off, buf, more);
        ContentSize(blocks, fs.inodes[n]);
      }
    }

    /** A read after a seek starts where the seek went. */
    method SeekRead(h: int, nseek: int, size: int, ghost rank: seq<nat>) returns (ok: bool, out: seq<int>)
      requires Valid(rank) && OnFile(h) && 0 <= size && 0 <= h < |fs.m.files|
      modifies this`fs
      ensures var x := old(fs).m.files[h];
              ok ==> && Mapped(blocks, old(fs).inodes[x.inode])
                     && 0 <= x.offset + nseek && x.offset + nseek + size <= old(fs).inodes[x.inode].size
                     && out == Content(blocks, old(fs).inodes[x.inode])[x.offset + nseek..x.offset + nseek + size]
    {
      hide WellFormed, FilesOk, Live, Mapped;
      AdvancedKeeps(fs, rank, h, nseek);
      var r := Seek(h, nseek);
      if r == -1 {
        return false, [];
      }
      ok, out := Read(h, size, rank);
    }
  }
}
