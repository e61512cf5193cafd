/**
 The free blocks of a file system: how many of them a write needs, and that no block is lost,
 that is, marked in use while no inode refers to it.
 */
module FsSpace {
  import opened FsImage

  // ------------------------------------------------------------ free blocks

  function Free(used: seq<bool>): nat {
    if used == [] then 0 else Free(used[..|used| - 1]) + if used[|used| - 1] then 0 else 1
  }

  lemma {:induction false} FreeTaken(used: seq<bool>, b: nat)
    requires b < |used| && !used[b]
    ensures Free(used[b := true]) == Free(used) - 1
  {
    var n := |used| - 1;
    if b < n {
      assert used[b := true][..n] == used[..n][b := true];
      FreeTaken(used[..n], b);
    } else {
      assert used[b := true][..n] == used[..n];
    }
  }

  lemma {:induction false} FreeNone(used: seq<bool>)
    ensures Free(used) == 0 <==> forall c :: 0 <= c < |used| ==> used[c]
  {
    if used != [] {
      FreeNone(used[..|used| - 1]);
    }
  }

  // ------------------------------------------------------------ lost blocks

  ghost predicate Lost(m: Image, lo: nat, b: int)
    requires Sized(m)
  {
    lo <= b < |m.used| && m.used[b] && forall i, s :: IsSlot(m, i, s) ==> RefAt(m, i, s) != b
  }

  ghost predicate SameLost(m: Image, m': Image, lo: nat) {
    Sized(m) && Sized(m') && forall b :: Lost(m', lo, b) <==> Lost(m, lo, b)
  }

  lemma SameLostStart(m: Image, lo: nat)
    requires Sized(m)
    ensures SameLost(m, m, lo)
  {
  }

  lemma SameLostThen(m: Image, m1: Image, m2: Image, lo: nat)
    requires SameLost(m, m1, lo) && SameLost(m1, m2, lo)
    ensures SameLost(m, m2, lo)
  {
    hide Lost;
  }

  /** One block is taken, and the slot that got it refers to it. */
  lemma AssignSpace(m: Image, lo: nat, i: nat, s: nat, b: nat)
    requires Consistent(m, lo) && IsSlot(m, i, s) && lo <= b < |m.used| && !m.used[b]
    requires RefAt(m, i, s) == 0 && (s > NDIRECT ==> RefAt(m, i, NDIRECT) != 0)
    ensures SameLost(m, Assign(m, i, s, b), lo) && Free(Assign(m, i, s, b).used) == Free(m.used) - 1
  {
    var m' := Assign(m, i, s, b);
    AssignRefs(m, lo, i, s, b);
    FreeTaken(m.used, b);
    assert m'.used == m.used[b := true] && |m'.inodes| == |m.inodes|;
    hide RefAt, Assign;
    assert RefAt(m', i, s) == b;
    forall c ensures Lost(m', lo, c) <==> Lost(m, lo, c) {
      LostSame(m, m', lo, i, s, c);
    }
  }

  lemma LostSame(m: Image, m': Image, lo: nat, i: nat, s: nat, c: int)
    requires Sized(m) && Sized(m') && 0 < lo && IsSlot(m, i, s) && |m'.inodes| == |m.inodes| && RefAt(m, i, s) == 0
    requires 0 < RefAt(m', i, s) < |m.used| && !m.used[RefAt(m', i, s)] && m'.used == m.used[RefAt(m', i, s) := true]
    requires forall i', s' :: IsSlot(m, i', s') && !(i' == i && s' == s) ==> RefAt(m', i', s') == RefAt(m, i', s')
    ensures Lost(m', lo, c) <==> Lost(m, lo, c)
  {
    hide RefAt, Sized;
    assert IsSlot(m', i, s);
    if c != RefAt(m', i, s) {
      assert forall i', s' :: IsSlot(m, i', s') <==> IsSlot(m', i', s');
    }
  }

  /** References and bits alone say which blocks are lost. */
  lemma SameRefsSameLost(m: Image, m': Image, lo: nat)
    requires Sized(m) && Sized(m') && m'.used == m.used && |m'.inodes| == |m.inodes|
    requires forall i, s :: IsSlot(m, i, s) ==> RefAt(m', i, s) == RefAt(m, i, s)
    ensures SameLost(m, m', lo)
  {
    hide RefAt;
    assert forall i, s :: IsSlot(m, i, s) <==> IsSlot(m', i, s);
  }

  lemma FillLost(m: Image, lo: nat, i: nat, k: nat, x: Block)
    requires Consistent(m, lo) && i < |m.inodes| && k < MAXFILE && RefAt(m, i, Slot(k)) != 0 && |x| == BSIZE
    ensures 0 < RefAt(m, i, Slot(k)) < |m.data| && SameLost(m, Fill(m, RefAt(m, i, Slot(k)), x), lo)
  {
    var b := RefAt(m, i, Slot(k));
    var m' := Fill(m, b, x);
    FillKeeps(m, lo, i, k, x);
    forall i', s | IsSlot(m, i', s) ensures RefAt(m', i', s) == RefAt(m, i', s) {
    }
    SameRefsSameLost(m, m', lo);
  }

  lemma ResizeLost(m: Image, lo: nat, i: nat, size: nat)
    requires Sized(m) && i < |m.inodes|
    ensures SameLost(m, m.(inodes := m.inodes[i := m.inodes[i].(size := size)]), lo)
  {
    ResizeRefs(m, i, size);
    SameRefsSameLost(m, m.(inodes := m.inodes[i := m.inodes[i].(size := size)]), lo);
  }

  /** Truncation loses no block: those that the file held become free. */
  lemma TruncatedLost(m: Image, lo: nat, i: nat)
    requires Consistent(m, lo) && i < |m.inodes|
    ensures SameLost(m, Truncated(m, i), lo)
  {
    var m' := Truncated(m, i);
    TruncatedRefs(m, i);
    TruncatedConsistent(m, lo, i);
    hide RefAt;
    assert forall i', s :: IsSlot(m, i', s) <==> IsSlot(m', i', s);
    forall b | lo <= b < |m.used| ensures Lost(m', lo, b) <==> Lost(m, lo, b) {
      if Lost(m', lo, b) {
        forall i', s | IsSlot(m, i', s) ensures RefAt(m, i', s) != b {
          if i' != i {
            assert RefAt(m', i', s) == RefAt(m, i', s);
          }
        }
      }
    }
  }

  // ------------------------------------------------------ what a write needs

  /** Blocks a to b - 1 of the file that have no block on disk. */
  function Unmapped(m: Image, i: nat, a: nat, b: nat): nat
    requires Sized(m) && i < |m.inodes| && a <= b <= MAXFILE
    decreases b - a
  {
    if a == b then 0 else (if RefAt(m, i, Slot(a)) == 0 then 1 else 0) + Unmapped(m, i, a + 1, b)
  }

  /** Free blocks that mapping the blocks a to b - 1 takes: with the above, an indirect block. */
  function Need(m: Image, i: nat, a: nat, b: nat): nat
    requires Sized(m) && i < |m.inodes| && a < b <= MAXFILE
  {
    Unmapped(m, i, a, b) + if b > NDIRECT && RefAt(m, i, NDIRECT) == 0 then 1 else 0
  }

  lemma NeedOne(m: Image, i: nat, bn: nat)
    requires Sized(m) && i < |m.inodes| && bn < MAXFILE
    ensures Need(m, i, bn, bn + 1) == (if RefAt(m, i, Slot(bn)) == 0 then 1 else 0)
                                      + if bn >= NDIRECT && RefAt(m, i, NDIRECT) == 0 then 1 else 0
  {
    hide RefAt;
    assert Unmapped(m, i, bn + 1, bn + 1) == 0;
  }

  /** Free blocks that writing n bytes at `off` takes. */
  function WriteNeed(m: Image, i: nat, off: nat, n: nat): nat
    requires Sized(m) && i < |m.inodes| && off + n <= MAXFILE * BSIZE
  {
    if n == 0 then 0 else Need(m, i, off / BSIZE, (off + n - 1) / BSIZE + 1)
  }

  lemma {:induction false} UnmappedSame(m: Image, m': Image, i: nat, a: nat, b: nat)
    requires Sized(m) && Sized(m') && i < |m.inodes| && i < |m'.inodes| && a <= b <= MAXFILE
    requires forall k :: a <= k < b ==> RefAt(m', i, Slot(k)) == RefAt(m, i, Slot(k))
    ensures Unmapped(m', i, a, b) == Unmapped(m, i, a, b)
    decreases b - a
  {
    if a < b {
      UnmappedSame(m, m', i, a + 1, b);
    }
  }

  /** The indirect block after `bmap` of block bn: as before, or there if bn needs it. */
  ghost predicate TableAfter(m: Image, m': Image, i: nat, bn: nat)
    requires Sized(m) && Sized(m') && i < |m.inodes| && i < |m'.inodes|
  {
    if bn < NDIRECT then RefAt(m', i, NDIRECT) == RefAt(m, i, NDIRECT) else RefAt(m', i, NDIRECT) != 0
  }

  /** Mapping one block lowers what the rest of the write needs by what that block took. */
  lemma NeedNext(m: Image, m': Image, lo: nat, i: nat, a: nat, b: nat, addr: nat)
    requires Sized(m) && Sized(m') && i < |m.inodes| && a + 1 < b <= MAXFILE
    requires MapsTo(m, m', lo, i, a, addr) && i < |m'.inodes| && TableAfter(m, m', i, a)
    ensures Need(m', i, a + 1, b) == Need(m, i, a, b) - Need(m, i, a, a + 1)
  {
    hide RefAt, Consistent, OthersKept, MapGrows;
    UnmappedSame(m, m', i, a + 1, b);
    assert Unmapped(m, i, a + 1, a + 1) == 0;
  }

  /** Free blocks to spare when n bytes are to be written at `at`. */
  function Spare(m: Image, i: nat, at: nat, n: nat): int
    requires Sized(m) && i < |m.inodes| && at + n <= MAXFILE * BSIZE
  {
    Free(m.used) - WriteNeed(m, i, at, n)
  }

  /** One round of the loop of `writei` maps the block of `at` and stores c bytes: as many blocks are to spare. */
  lemma SpaceRound(m: Image, m1: Image, m2: Image, lo: nat, i: nat, at: nat, c: nat, n: nat, addr: nat)
    requires Sized(m) && Sized(m1) && Sized(m2) && i < |m.inodes| && i < |m1.inodes| && i < |m2.inodes|
    requires 0 < c <= n && c <= BSIZE - at % BSIZE && at + n <= MAXFILE * BSIZE
    requires MapsTo(m, m1, lo, i, at / BSIZE, addr) && TableAfter(m, m1, i, at / BSIZE)
    requires Free(m1.used) == Free(m.used) - Need(m, i, at / BSIZE, at / BSIZE + 1)
    requires m2.used == m1.used && forall s :: 0 <= s < SLOTS ==> RefAt(m2, i, s) == RefAt(m1, i, s)
    ensures Spare(m2, i, at + c, n - c) == Spare(m, i, at, n)
  {
    hide RefAt, MapsTo, TableAfter, Need;
    var bn, end := at / BSIZE, (at + n - 1) / BSIZE + 1;
    var next := if c == BSIZE - at % BSIZE then bn + 1 else bn;
    if bn + 1 < end {
      NeedNext(m, m1, lo, i, bn, end, addr);
    }
    NeedMapped(m, m1, lo, i, bn, end, addr);
    if c < n {
      assert (at + c) / BSIZE == next && ((at + c) + (n - c) - 1) / BSIZE + 1 == end;
      NeedSame(m1, m2, i, next, end);
    } else {
      assert end == bn + 1;
    }
  }

  lemma NeedSame(m: Image, m': Image, i: nat, a: nat, b: nat)
    requires Sized(m) && Sized(m') && i < |m.inodes| && i < |m'.inodes| && a < b <= MAXFILE
    requires forall s :: 0 <= s < SLOTS ==> RefAt(m', i, s) == RefAt(m, i, s)
    ensures Need(m', i, a, b) == Need(m, i, a, b)
  {
    hide RefAt;
    UnmappedSame(m, m', i, a, b);
  }

  /** A block that has been mapped needs nothing more. */
  lemma NeedMapped(m: Image, m': Image, lo: nat, i: nat, a: nat, b: nat, addr: nat)
    requires Sized(m) && Sized(m') && i < |m.inodes| && a < b <= MAXFILE
    requires MapsTo(m, m', lo, i, a, addr) && i < |m'.inodes| && TableAfter(m, m', i, a)
    ensures Need(m', i, a, b) == if a + 1 < b then Need(m', i, a + 1, b) else 0
  {
    hide RefAt, Consistent, OthersKept, MapGrows;
    assert Unmapped(m', i, a, b) == Unmapped(m', i, a + 1, b) && Unmapped(m', i, b, b) == 0;
  }

  /** What the first block needs is no more than what the write needs. */
  lemma NeedFirst(m: Image, i: nat, at: nat, n: nat)
    requires Sized(m) && i < |m.inodes| && 0 < n && at + n <= MAXFILE * BSIZE
    ensures Need(m, i, at / BSIZE, at / BSIZE + 1) <= WriteNeed(m, i, at, n)
  {
    hide RefAt;
    assert Unmapped(m, i, at / BSIZE + 1, at / BSIZE + 1) == 0;
  }

  lemma SpareNothing(m: Image, i: nat, off: nat)
    requires Sized(m) && i < |m.inodes| && off <= MAXFILE * BSIZE
    ensures Spare(m, i, off, 0) == Free(m.used)
  {
  }

  /** Writing more needs no less. */
  lemma NeedMore(m: Image, i: nat, at: nat, n: nat, more: nat)
    requires Sized(m) && i < |m.inodes| && at + n + more <= MAXFILE * BSIZE
    ensures WriteNeed(m, i, at, n) <= WriteNeed(m, i, at, n + more)
  {
    hide RefAt;
    if n > 0 {
      UnmappedMore(m, i, at / BSIZE, (at + n - 1) / BSIZE + 1, (at + n + more - 1) / BSIZE + 1);
    }
  }

  lemma {:induction false} UnmappedMore(m: Image, i: nat, a: nat, b: nat, c: nat)
    requires Sized(m) && i < |m.inodes| && a <= b <= c <= MAXFILE
    ensures Unmapped(m, i, a, b) <= Unmapped(m, i, a, c)
    decreases b - a
  {
    hide RefAt;
    if a < b {
      UnmappedMore(m, i, a + 1, b, c);
    }
  }

  lemma ResizeSpare(m: Image, i: nat, size: nat, at: nat, n: nat)
    requires Sized(m) && i < |m.inodes| && at + n <= MAXFILE * BSIZE
    ensures var m' := m.(inodes := m.inodes[i := m.inodes[i].(size := size)]);
            Sized(m') && i < |m'.inodes| && Spare(m', i, at, n) == Spare(m, i, at, n)
  {
    ResizeRefs(m, i, size);
    var m' := m.(inodes := m.inodes[i := m.inodes[i].(size := size)]);
    assert forall s :: 0 <= s < SLOTS ==> IsSlot(m, i, s);
    if n > 0 {
      NeedSame(m, m', i, at / BSIZE, (at + n - 1) / BSIZE + 1);
    }
    hide RefAt;
  }

  lemma SpareMore(m: Image, i: nat, at: nat, n: nat, more: nat)
    requires Sized(m) && i < |m.inodes| && at + n + more <= MAXFILE * BSIZE
    requires Free(m.used) < WriteNeed(m, i, at, n)
    ensures Spare(m, i, at, n + more) < 0
  {
    NeedMore(m, i, at, n, more);
  }
}
