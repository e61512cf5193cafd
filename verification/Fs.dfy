/**
 Block allocation, block mapping, truncation, reads and writes of files, with the blocks
 that each operation logs. A `false` first result is the source's panic.
 */
module Fs {
  import opened FsImage
  import opened FsSpace

  const MAXOPBLOCKS: nat := 10

  class FileSystem {
    const lo: nat          // first data block
    const bmapstart: nat   // first block of the free bitmap
    const inodestart: nat  // first block of inodes
    var m: Image
    var dinodes: seq<Inode>        // inodes on disk
    ghost var logged: set<nat>     // blocks passed to log_write in the current operation

    ghost predicate Valid()
      reads this
    {
      Consistent(m, lo) && |dinodes| == |m.inodes|
    }

    function Bblock(b: nat): nat { b / BPB + bmapstart }

    function Iblock(i: nat): nat { i / IPB + inodestart }

    /** `begin_op`: an operation starts with nothing logged. */
    method Begin()
      modifies this`logged
      ensures logged == {}
    {
      logged := {};
    }

    /** The first free block, now in use and zeroed. */
    method Balloc() returns (ok: bool, b: nat)
      requires Sized(m)
      modifies this`m, this`logged
      ensures |m.used| == |m.data| == |old(m).used|
      ensures ok ==> b < |m.used| && !old(m).used[b] && (forall c :: 0 <= c < b ==> old(m).used[c])
      ensures ok ==> m == old(m).(used := old(m).used[b := true], data := old(m).data[b := Zeroes()])
      ensures ok ==> logged == old(logged) + {Bblock(b), b}
      ensures !ok ==> m == old(m) && forall c :: 0 <= c < |m.used| ==> m.used[c]
    {
      b := 0;
      while b < |m.used|
        invariant Sized(m) && m == old(m) && logged == old(logged)
        invariant forall c :: 0 <= c < b && c < |m.used| ==> m.used[c]
        decreases |m.used| - b
      {
        var bi := 0;
        while bi < BPB && b + bi < |m.used|
          invariant 0 <= bi <= BPB && m == old(m) && Sized(m) && logged == old(logged)
          invariant forall c :: 0 <= c < b + bi && c < |m.used| ==> m.used[c]
        {
          if !m.used[b + bi] {
            logged := logged + {Bblock(b + bi), b + bi};
            m := m.(used := m.used[b + bi := true], data := m.data[b + bi := Zeroes()]);
            return true, b + bi;
          }
          bi := bi + 1;
        }
        b := b + BPB;
      }
      ok := false;
    }

    /** Clears the bit of a block; freeing a free block panics. */
    method Bfree(b: nat) returns (ok: bool)
      requires b < |m.used|
      modifies this`m, this`logged
      ensures |m.used| == |old(m).used| && ok == old(m).used[b]
      ensures m == if ok then old(m).(used := old(m).used[b := false]) else old(m)
      ensures logged == if ok then old(logged) + {Bblock(b)} else old(logged)
    {
      if !m.used[b] {
        return false;
      }
      m := m.(used := m.used[b := false]);
      logged := logged + {Bblock(b)};
      ok := true;
    }

    /** Slot s of inode i gets a block of its own. */
    method Attach(i: nat, s: nat) returns (ok: bool, b: nat)
      requires Valid() && IsSlot(m, i, s) && RefAt(m, i, s) == 0 && (s > NDIRECT ==> RefAt(m, i, NDIRECT) != 0)
      modifies this`m, this`logged
      ensures |m.used| == |old(m).used|
      ensures ok ==> lo <= b < |m.used| && !old(m).used[b] && m == Assign(old(m), i, s, b)
      ensures ok ==>
                logged == old(logged) + {Bblock(b), b} + if s > NDIRECT then {old(m).inodes[i].addrs[NDIRECT]} else {}
      ensures !ok ==> m == old(m) && forall c :: 0 <= c < |m.used| ==> m.used[c]
    {
      hide Unshared, Zeroes, Put;
      assert s > NDIRECT ==> RefAt(m, i, NDIRECT) == m.inodes[i].addrs[NDIRECT] && IsSlot(m, i, NDIRECT);
      ok, b := Balloc();
      if ok {
        var t := m.inodes[i].addrs[NDIRECT];
        if s <= NDIRECT {
          m := m.(inodes := m.inodes[i := m.inodes[i].(addrs := m.inodes[i].addrs[s := b])]);
        } else {
          m := m.(data := m.data[t := Put(m.data[t], s - NDIRECT - 1, b)]);
          logged := logged + {t};
        }
      }
    }

    /** The bitmap blocks that `bmap` logs: that of a new block, and that of a new indirect block. */
    ghost function MapBits(m0: Image, m1: Image, i: nat, bn: nat, addr: nat): set<nat>
      requires Sized(m0) && Sized(m1) && i < |m0.inodes| && i < |m1.inodes| && bn < MAXFILE
    {
      if RefAt(m0, i, Slot(bn)) != 0 then {}
      else if bn >= NDIRECT && RefAt(m0, i, NDIRECT) == 0 then {Bblock(addr), Bblock(m1.inodes[i].addrs[NDIRECT])}
      else {Bblock(addr)}
    }

    /** The indirect block, logged when it gets a new entry. */
    ghost function MapTable(m0: Image, m1: Image, i: nat, bn: nat): set<nat>
      requires Sized(m0) && Sized(m1) && i < |m0.inodes| && i < |m1.inodes| && bn < MAXFILE
    {
      if RefAt(m0, i, Slot(bn)) != 0 || bn < NDIRECT then {} else {m1.inodes[i].addrs[NDIRECT]}
    }

    /** All that `bmap` logs: with the above, the contents of a new block. */
    ghost function MapLog(m0: Image, m1: Image, i: nat, bn: nat, addr: nat): set<nat>
      requires Sized(m0) && Sized(m1) && i < |m0.inodes| && i < |m1.inodes| && bn < MAXFILE
    {
      MapBits(m0, m1, i, bn, addr) + MapTable(m0, m1, i, bn) + if RefAt(m0, i, Slot(bn)) != 0 then {} else {addr}
    }

    /** The address of block bn of file i, allocated if there is none. */
    method Bmap(i: nat, bn: nat) returns (ok: bool, addr: nat)
      requires Valid() && i < |m.inodes|
      modifies this`m, this`logged
      ensures bn < MAXFILE && RefAt(old(m), i, Slot(bn)) != 0 ==> ok
      ensures ok ==> Valid() && MapsTo(old(m), m, lo, i, bn, addr)
      ensures ok ==> logged == old(logged) + MapLog(old(m), m, i, bn, addr)
      ensures ok ==> SameLost(old(m), m, lo) && TableAfter(old(m), m, i, bn)
      ensures ok ==> Free(m.used) == Free(old(m).used) - Need(old(m), i, bn, bn + 1)
      ensures !ok ==> bn >= MAXFILE || forall c :: 0 <= c < |m.used| ==> m.used[c]
      ensures !ok && bn < MAXFILE ==> Free(old(m).used) < Need(old(m), i, bn, bn + 1)
    {
      hide InUse, Unshared, OthersKept, MapGrows, Get, Bblock, Zeroes, SameLost, Lost, Free, Need;
      ghost var m0 := m;
      FreeNone(m.used);
      SameLostStart(m, lo);
      if bn < MAXFILE {
        NeedOne(m, i, bn);
      }
      assert IsSlot(m, i, NDIRECT);
      if bn < NDIRECT {
        addr := m.inodes[i].addrs[bn];
        if addr == 0 {
          ok, addr := Attach(i, bn);
          if !ok { return; }
          AttachMaps(m0, lo, i, bn, addr);
          AssignSpace(m0, lo, i, bn, addr);
        } else {
          MappedAlready(m, lo, i, bn);
        }
        return true, addr;
      }
      if bn >= MAXFILE {
        return false, 0;
      }
      var t := m.inodes[i].addrs[NDIRECT];
      if t == 0 {
        ok, t := Attach(i, NDIRECT);
        if !ok { return false, 0; }
        TableAttached(m0, lo, i, bn, t);
        AssignSpace(m0, lo, i, NDIRECT, t);
      }
      ghost var m1 := m;
      assert IsSlot(m, i, NDIRECT) && RefAt(m, i, NDIRECT) == t && IsSlot(m, i, Slot(bn));
      var a := Get(m.data[t], bn - NDIRECT);
      assert a == RefAt(m, i, Slot(bn));
      if a == 0 {
        FreeNone(m.used);
        ok, addr := Attach(i, Slot(bn));
        if !ok { return; }
        AttachMaps(m1, lo, i, bn, addr);
        AssignSpace(m1, lo, i, Slot(bn), addr);
        if m1 != m0 {
          TableThenMaps(m0, m1, m, lo, i, bn, t, addr);
          SameLostThen(m0, m1, m, lo);
        }
      } else {
        MappedAlready(m, lo, i, bn);
        addr := a;
      }
      ok := true;
    }

    /** Only the bits of `held` have been cleared. */
    ghost predicate Cleared(m0: Image, held: set<int>)
      reads this`m
    {
      && |m.used| == |m0.used| && m.data == m0.data
      && forall b :: 0 <= b < |m.used| ==> m.used[b] == (m0.used[b] && b !in held)
    }

    /** `iupdate`: the inode as it is in memory goes to its place on disk. */
    method Iupdate(i: nat)
      requires i < |m.inodes| == |dinodes|
      modifies this`dinodes, this`logged
      ensures dinodes == old(dinodes)[i := m.inodes[i]] && logged == old(logged) + {Iblock(i)}
    {
      dinodes := dinodes[i := m.inodes[i]];
      logged := logged + {Iblock(i)};
    }

    /** The bitmap blocks of a set of blocks. */
    ghost function Bits(held: set<int>): set<nat> {
      set b: nat | b in held :: Bblock(b)
    }

    lemma BitsNone()
      ensures Bits({}) == {}
    {
    }

    lemma BitsNext(m: Image, i: nat, a: nat, b: nat)
      requires Consistent(m, lo) && i < |m.inodes| && a <= b < SLOTS
      ensures RefAt(m, i, b) >= 0
      ensures Bits(Held(m, i, a, b + 1)) ==
              Bits(Held(m, i, a, b)) + if RefAt(m, i, b) > 0 then {Bblock(RefAt(m, i, b))} else {}
    {
      assert IsSlot(m, i, b);
      HeldNext(m, i, a, b);
      hide RefAt, Held, Bblock;
    }

    lemma BitsAll(m: Image, i: nat)
      requires Sized(m) && i < |m.inodes|
      ensures var t := m.inodes[i].addrs[NDIRECT];
              Bits(Held(m, i, 0, SLOTS)) ==
              Bits(Held(m, i, 0, NDIRECT)) + Bits(Held(m, i, NDIRECT + 1, SLOTS)) + if t != 0 then {Bblock(t)} else {}
    {
      HeldAll(m, i);
      hide Held, Bblock;
    }

    /** `itrunc`: frees exactly the blocks of file i, never a free one, and leaves an empty inode. */
    method Itrunc(i: nat) returns (ok: bool)
      requires Valid() && i < |m.inodes|
      modifies this`m, this`dinodes, this`logged
      ensures ok && Valid() && m == Truncated(old(m), i) && SameLost(old(m), m, lo)
      ensures dinodes == old(dinodes)[i := EMPTY]
      ensures logged == old(logged) + Bits(Held(old(m), i, 0, SLOTS)) + {Iblock(i)}
    {
      hide Unshared, InUse, RefAt, Bblock, Iblock, Held, Get, SameLost, Bits;
      ghost var m0 := m;
      TruncatedLost(m, lo, i);
      BitsNone();
      BitsAll(m, i);
      HeldNext(m0, i, 0, 0);
      HeldAll(m0, i);
      var j := 0;
      while j < NDIRECT
        invariant 0 <= j <= NDIRECT
        invariant Cleared(m0, Held(m0, i, 0, j)) && |m.inodes| == |m0.inodes| && dinodes == old(dinodes)
        invariant logged == old(logged) + Bits(Held(m0, i, 0, j))
        invariant |m.inodes[i].addrs| == NDIRECT + 1
                  && m.inodes == m0.inodes[i := m0.inodes[i].(addrs := m.inodes[i].addrs)]
        invariant forall k :: 0 <= k <= NDIRECT ==> m.inodes[i].addrs[k] == if k < j then 0 else m0.inodes[i].addrs[k]
      {
        HeldFresh(m0, lo, i, 0, j, j);
        HeldNext(m0, i, 0, j);
        BitsNext(m0, i, 0, j);
        DirectSlot(m0, i, j);
        if m.inodes[i].addrs[j] != 0 {
          ok := Bfree(m.inodes[i].addrs[j]);
          if !ok { return; }
          m := m.(inodes := m.inodes[i := m.inodes[i].(addrs := m.inodes[i].addrs[j := 0])]);
        }
        j := j + 1;
      }
      var t := m.inodes[i].addrs[NDIRECT];
      if t != 0 {
        ok := FreeTable(m0, i, t);
        if !ok { return; }
        m := m.(inodes := m.inodes[i := m.inodes[i].(addrs := m.inodes[i].addrs[NDIRECT := 0])]);
      }
      m := m.(inodes := m.inodes[i := m.inodes[i].(size := 0)]);
      assert m.inodes[i] == EMPTY;
      TruncatedConsistent(m0, lo, i);
      assert m.used == Truncated(m0, i).used;
      assert m == Truncated(m0, i);
      hide Truncated, Cleared;
      Iupdate(i);
      ok := true;
    }

    /** The blocks listed in the indirect block t, then t itself. */
    method FreeTable(ghost m0: Image, i: nat, t: nat) returns (ok: bool)
      requires Consistent(m0, lo) && i < |m0.inodes| && t == m0.inodes[i].addrs[NDIRECT] != 0
      requires Cleared(m0, Held(m0, i, 0, NDIRECT))
      modifies this`m, this`logged
      ensures ok && m.inodes == old(m).inodes && Cleared(m0, Held(m0, i, 0, SLOTS))
      ensures logged == old(logged) + Bits(Held(m0, i, NDIRECT + 1, SLOTS)) + {Bblock(t)}
    {
      hide Unshared, InUse, RefAt, Bblock, Iblock, Held, Get, Bits;
      var a := m.data[t];
      HeldNext(m0, i, NDIRECT + 1, NDIRECT + 1);
      BitsNone();
      var j := 0;
      while j < NINDIRECT
        invariant 0 <= j <= NINDIRECT && m.inodes == old(m).inodes
        invariant Cleared(m0, Held(m0, i, 0, NDIRECT) + Held(m0, i, NDIRECT + 1, NDIRECT + 1 + j))
        invariant logged == old(logged) + Bits(Held(m0, i, NDIRECT + 1, NDIRECT + 1 + j))
      {
        var s := NDIRECT + 1 + j;
        HeldFresh(m0, lo, i, 0, NDIRECT, s);
        HeldFresh(m0, lo, i, NDIRECT + 1, s, s);
        HeldNext(m0, i, NDIRECT + 1, s);
        BitsNext(m0, i, NDIRECT + 1, s);
        TableSlot(m0, i, j);
        if Get(a, j) != 0 {
          ok := Bfree(Get(a, j));
          if !ok { return; }
        }
        j := j + 1;
      }
      HeldFresh(m0, lo, i, 0, NDIRECT, NDIRECT);
      HeldFresh(m0, lo, i, NDIRECT + 1, SLOTS, NDIRECT);
      HeldAll(m0, i);
      DirectSlot(m0, i, NDIRECT);
      ok := Bfree(t);
    }

    /** `readi`: -1 outside the file or on wrap-around, otherwise the bytes there are; nothing changes. */
    method Readi(i: nat, off: nat, n: nat) returns (r: int, dst: seq<int>)
      requires Valid() && i < |m.inodes| && NoHoles(m, i) && off < WORD && n < WORD
      modifies this`m, this`logged
      ensures m == old(m) && logged == old(logged)
      ensures if off > m.inodes[i].size || off + n >= WORD then r == -1
              else r == Min(n, m.inodes[i].size - off) && dst == Content(m, i)[off..off + r]
    {
      hide Unshared, InUse, OthersKept, MapGrows, RefAt, Content, Bblock, SameLost, TableAfter, Free, Need;
      dst := [];
      if off > m.inodes[i].size || (off + n) % WORD < off {
        return -1, dst;
      }
      var size, len, tot := m.inodes[i].size, n, 0;
      if (off + n) % WORD > size {
        len := size - off;
      }
      while tot < len
        invariant tot <= len && off + len <= size && m == old(m) && logged == old(logged)
        invariant dst == Content(m, i)[off..off + tot]
      {
        var at := off + tot;
        var c := Min(len - tot, BSIZE - at % BSIZE);
        BlockBytes(m, lo, i, at, c);
        Rejoin(Content(m, i), off, at, at + c);
        var ok, addr := Bmap(i, at / BSIZE);
        dst := dst + m.data[addr][at % BSIZE..at % BSIZE + c];
        tot := tot + c;
      }
      r := len;
    }

    /** The indirect block that the account names is the inode's. */
    ghost predicate TableKnown(m: Image, i: nat, sp: Spend) {
      && i < |m.inodes| && |m.inodes[i].addrs| == NDIRECT + 1
      && sp.table <= {m.inodes[i].addrs[NDIRECT]}
      && (sp.table != {} || sp.tables > 0 ==> m.inodes[i].addrs[NDIRECT] != 0)
    }

    lemma SpendStart(m: Image, i: nat, off: nat, n: nat, logged: set<nat>) returns (sp: Spend)
      requires Sized(m) && i < |m.inodes|
      ensures Accounts(sp, logged, logged) && Paced(sp, off, 0, n) && TableKnown(m, i, sp)
    {
      sp := Spend({}, {}, {}, 0, 0, 0);
    }

    /** The account after one round of `writei`. */
    lemma SpendBlock(m0: Image, m1: Image, m2: Image, i: nat, off: nat, src: seq<int>, tot: nat, addr: nat,
                     sp: Spend, base: set<nat>, before: set<nat>) returns (sp': Spend)
      requires Progress(m0, m1, lo, i, off, src, tot) && tot < |src|
      requires MapsTo(m1, m2, lo, i, (off + tot) / BSIZE, addr)
      requires Accounts(sp, base, before) && Paced(sp, off, tot, |src|) && TableKnown(m1, i, sp)
      ensures var bn := (off + tot) / BSIZE;
              Accounts(sp', base, before + MapBits(m1, m2, i, bn, addr) + MapTable(m1, m2, i, bn) + {addr})
      ensures Paced(sp', off, tot + Min(|src| - tot, BSIZE - (off + tot) % BSIZE), |src|) && TableKnown(m2, i, sp')
    {
      var bn, t := (off + tot) / BSIZE, m2.inodes[i].addrs[NDIRECT];
      DirectSlot(m1, i, NDIRECT);
      DirectSlot(m2, i, NDIRECT);
      hide RefAt, OthersKept, MapGrows, InUse, Unshared, Bblock, Accounts, Paced, MapBits, MapTable, Get;
      var mapped := RefAt(m1, i, Slot(bn)) != 0;
      if bn >= NDIRECT {
        TableThere(m2, i, bn);
      }
      if (off + tot) % BSIZE != 0 {
        ProgressMapped(m0, m1, lo, i, off, src, tot);
      }
      var newTable := !mapped && bn >= NDIRECT && RefAt(m1, i, NDIRECT) == 0;
      sp' := SpendParts(m1, m2, i, bn, addr, sp, base, before);
      SpendPace(sp, sp', off, tot, |src|, mapped, newTable);
    }

    lemma SpendParts(m1: Image, m2: Image, i: nat, bn: nat, addr: nat, sp: Spend, base: set<nat>, before: set<nat>)
      returns (sp': Spend)
      requires Sized(m1) && Sized(m2) && i < |m1.inodes| && i < |m2.inodes| && bn < MAXFILE
      requires Accounts(sp, base, before) && TableKnown(m1, i, sp)
      requires m1.inodes[i].addrs[NDIRECT] != 0 ==> m2.inodes[i].addrs[NDIRECT] == m1.inodes[i].addrs[NDIRECT]
      requires bn >= NDIRECT ==> m2.inodes[i].addrs[NDIRECT] != 0
      ensures Accounts(sp', base, before + MapBits(m1, m2, i, bn, addr) + MapTable(m1, m2, i, bn) + {addr})
              && TableKnown(m2, i, sp')
      ensures var mapped := RefAt(m1, i, Slot(bn)) != 0;
              var newTable := !mapped && bn >= NDIRECT && RefAt(m1, i, NDIRECT) == 0;
              && sp'.rounds == sp.rounds + 1 && sp'.added == sp.added + (if mapped then 0 else 1)
              && sp'.tables == sp.tables + (if newTable then 1 else 0)
              && (newTable ==> sp.tables == 0)
    {
      var t := m2.inodes[i].addrs[NDIRECT];
      DirectSlot(m1, i, NDIRECT);
      assert |m2.inodes[i].addrs| == NDIRECT + 1;
      hide Bblock, RefAt, Sized, Accounts;
      var mapped := RefAt(m1, i, Slot(bn)) != 0;
      var newTable := !mapped && bn >= NDIRECT && RefAt(m1, i, NDIRECT) == 0;
      var bits, table := MapBits(m1, m2, i, bn, addr), MapTable(m1, m2, i, bn);
      assert |bits| <= (if mapped then 0 else 1) + (if newTable then 1 else 0);
      assert table <= {t} && sp.table <= {t} && (table != {} ==> t != 0);
      hide MapBits, MapTable;
      var added, tables := if mapped then 0 else 1, if newTable then 1 else 0;
      sp' := SpendRound(sp, base, before, addr, bits, table, t, added, tables);
      TableNext(m1.inodes[i].addrs[NDIRECT], t, sp, table, newTable);
    }

    lemma TableNext(t1: nat, t: nat, sp: Spend, table: set<nat>, newTable: bool)
      requires sp.table <= {t1} && (sp.table != {} || sp.tables > 0 ==> t1 != 0) && (t1 != 0 ==> t == t1)
      requires table <= {t} && (table != {} || newTable ==> t != 0)
      ensures sp.table + table <= {t} && (sp.table + table != {} || sp.tables > 0 || newTable ==> t != 0)
    {
      if sp.table + table != {} {
        assert sp.table != {} || table != {};
      }
    }

    lemma SpendPace(sp: Spend, sp': Spend, off: nat, tot: nat, n: nat, mapped: bool, newTable: bool)
      requires Paced(sp, off, tot, n) && tot < n
      requires sp'.rounds == sp.rounds + 1 && sp'.added == sp.added + (if mapped then 0 else 1)
      requires sp'.tables == sp.tables + (if newTable then 1 else 0) && (newTable ==> sp.tables == 0)
      requires (off + tot) % BSIZE != 0 ==> mapped
      ensures Paced(sp', off, tot + Min(n - tot, BSIZE - (off + tot) % BSIZE), n)
    {
      PacedRound(sp, sp', off, tot, n, Min(n - tot, BSIZE - (off + tot) % BSIZE));
    }

    /** The account of blocks after one round of `writei`. */
    lemma FilledSpace(m: Image, m1: Image, i: nat, at: nat, c: nat, n: nat, addr: nat, x: Block)
      requires Sized(m) && i < |m.inodes| && 0 < c <= n && at + n <= MAXFILE * BSIZE && |x| == BSIZE
      requires c <= BSIZE - at % BSIZE
      requires MapsTo(m, m1, lo, i, at / BSIZE, addr) && i < |m1.inodes| && TableAfter(m, m1, i, at / BSIZE)
      requires SameLost(m, m1, lo) && Free(m1.used) == Free(m.used) - Need(m, i, at / BSIZE, at / BSIZE + 1)
      ensures var m2 := Fill(m1, addr, x);
              && Sized(m2) && i < |m2.inodes| && SameLost(m, m2, lo)
              && Spare(m2, i, at + c, n - c) == Spare(m, i, at, n)
    {
      var m2 := Fill(m1, addr, x);
      FillKeeps(m1, lo, i, at / BSIZE, x);
      FillLost(m1, lo, i, at / BSIZE, x);
      SameLostThen(m, m1, m2, lo);
      hide RefAt, TableAfter, Free, Need, Spare, MapGrows, OthersKept, SameLost;
      SpaceRound(m, m1, m2, lo, i, at, c, n, addr);
    }

    /** The loop body of `writei`: map the block, store as much as fits, log it. */
    method WriteBlock(i: nat, at: nat, src: seq<int>, ghost more: nat)
      returns (ok: bool, c: nat, ghost m1: Image, ghost addr: nat)
      requires Valid() && i < |m.inodes| && src != [] && at + |src| + more <= MAXFILE * BSIZE
      modifies this`m, this`logged
      ensures !ok ==> forall c :: 0 <= c < |m.used| ==> m.used[c]
      ensures c == Min(|src|, BSIZE - at % BSIZE)
      ensures ok ==> MapsTo(old(m), m1, lo, i, at / BSIZE, addr)
      ensures ok ==> m == Fill(m1, addr, Store(m1.data[addr], at % BSIZE, src[..c]))
      ensures ok ==>
                var bn := at / BSIZE;
                logged == old(logged) + MapBits(old(m), m1, i, bn, addr) + MapTable(old(m), m1, i, bn) + {addr}
      ensures ok ==> SameLost(old(m), m, lo) && Sized(m) && i < |m.inodes|
      ensures ok ==> Spare(m, i, at + c, |src| - c) == Spare(old(m), i, at, |src|)
      ensures ok ==> Spare(m, i, at + c, |src| + more - c) == Spare(old(m), i, at, |src| + more)
      ensures !ok ==> Spare(old(m), i, at, |src|) < 0
    {
      hide Unshared, InUse, MapGrows, OthersKept, RefAt, Store, Bblock, MapBits, MapTable, SameLost, TableAfter, Free,
        Need, WriteNeed;
      NeedFirst(m, i, at, |src|);
      c := Min(|src|, BSIZE - at % BSIZE);
      m1 := m;
      var a;
      ok, a := Bmap(i, at / BSIZE);
      addr := a;
      if !ok { return; }
      m1 := m;
      FilledSpace(old(m), m, i, at, c, |src|, a, Store(m.data[a], at % BSIZE, src[..c]));
      FilledSpace(old(m), m, i, at, c, |src| + more, a, Store(m.data[a], at % BSIZE, src[..c]));
      m := Fill(m, a, Store(m.data[a], at % BSIZE, src[..c]));
      logged := logged + {a};
    }

    /** The loop of `writei`. */
    method WriteLoop(i: nat, off: nat, src: seq<int>, ghost more: nat) returns (ok: bool, ghost sp: Spend)
      requires Valid() && i < |m.inodes| && NoHoles(m, i)
      requires off <= m.inodes[i].size && off + |src| + more <= MAXFILE * BSIZE
      modifies this`m, this`logged
      ensures !ok ==> forall c :: 0 <= c < |m.used| ==> m.used[c]
      ensures ok ==> Progress(old(m), m, lo, i, off, src, |src|)
      ensures ok ==> Accounts(sp, old(logged), logged) && Paced(sp, off, |src|, |src|)
      ensures ok <==> Spare(old(m), i, off, |src|) >= 0
      ensures ok ==> SameLost(old(m), m, lo)
      ensures ok ==> Spare(m, i, off + |src|, more) == Spare(old(m), i, off, |src| + more)
    {
      hide InUse, Unshared, OthersKept, Accounts, Paced, Progress, MapsTo, TableKnown, Store, MapBits, MapTable, RefAt,
        SameLost, Spare;
      ghost var m0, n := m, |src|;
      SameLostStart(m, lo);
      ProgressStart(m, lo, i, off, src);
      sp := SpendStart(m, i, off, n, logged);
      var tot := 0;
      while tot < |src|
        invariant tot <= n && Progress(m0, m, lo, i, off, src, tot)
        invariant Accounts(sp, old(logged), logged) && Paced(sp, off, tot, n) && TableKnown(m, i, sp)
        invariant SameLost(m0, m, lo) && Sized(m) && i < |m.inodes|
        invariant Spare(m, i, off + tot, n - tot) == Spare(m0, i, off, n)
        invariant Spare(m, i, off + tot, n + more - tot) == Spare(m0, i, off, n + more)
      {
        ProgressFacts(m0, m, lo, i, off, src, tot);
        ghost var m1, before := m, logged;
        var c;
        ghost var m2, addr;
        ok, c, m2, addr := WriteBlock(i, off + tot, src[tot..], more);
        if !ok { return; }
        SameLostThen(m0, m1, m, lo);
        assert src[tot..][..c] == src[tot..tot + c];
        ProgressStep(m0, m1, m2, lo, i, off, src, tot, c, addr);
        sp := SpendBlock(m0, m1, m2, i, off, src, tot, addr, sp, old(logged), before);
        SameTable(m2, m, i, sp);
        tot := tot + c;
      }
      ok := true;
      SpareNothing(m, i, off + tot);
    }

    /**
     `writei`: -1 and no change when the range does not fit, otherwise `src` is spliced into the
     file, no block below the new size is missing, and the inode on disk is the one in memory.
     It panics exactly when there are fewer free blocks than it needs, and otherwise loses none; a later
     write of `more` bytes behind it has as many blocks to spare as one write of all would have had.
     A write of at most three blocks' worth of bytes logs at most MAXOPBLOCKS blocks.
     */
    method Writei(i: nat, off: nat, src: seq<int>, ghost more: nat) returns (ok: bool, r: int)
      requires Valid() && i < |m.inodes| && NoHoles(m, i) && off < WORD && |src| < WORD
      requires dinodes[i] == m.inodes[i]
      modifies this
      ensures !ok ==> forall c :: 0 <= c < |m.used| ==> m.used[c]
      ensures ok ==> Valid() && OthersKept(old(m), m, i)
      ensures ok ==> NoHoles(m, i) && dinodes == old(dinodes)[i := m.inodes[i]]
      ensures ok ==> r == if off <= old(m).inodes[i].size && off + |src| <= MAXFILE * BSIZE then |src| else -1
      ensures ok && r == -1 ==> m == old(m) && logged == old(logged)
      ensures ok && r >= 0 ==> Content(m, i) == Splice(Content(old(m), i), off, src)
      ensures ok && |src| <= 3 * BSIZE ==> |logged - old(logged)| <= MAXOPBLOCKS
      ensures ok <==> off > old(m).inodes[i].size || off + |src| > MAXFILE * BSIZE
                      || Free(old(m).used) >= WriteNeed(old(m), i, off, |src|)
      ensures ok ==> SameLost(old(m), m, lo)
      ensures ok && r >= 0 && off + |src| + more <= MAXFILE * BSIZE ==>
                Spare(m, i, off + |src|, more) == Spare(old(m), i, off, |src| + more)
    {
      hide InUse, Unshared, OthersKept, Content, Splice, Accounts, Paced, Progress, MapsTo, TableKnown, Store, MapBits,
        MapTable, RefAt, SameLost, Free, WriteNeed;
      SameLostStart(m, lo);
      ghost var later := if off + |src| + more <= MAXFILE * BSIZE then more else 0;
      r := -1;
      var size, n := m.inodes[i].size, |src|;
      KeptReflexive(m, i);
      if off > size || (off + n) % WORD < off {
        return true, -1;
      }
      if off + n > MAXFILE * BSIZE {
        return true, -1;
      }
      ghost var m0 := m;
      ghost var sp;
      ok, sp := WriteLoop(i, off, src, later);
      if !ok { return; }
      ProgressFacts(m0, m, lo, i, off, src, n);
      ProgressEnd(m0, m, lo, i, off, src);
      SpendTotal(sp, old(logged), logged);
      if n <= 3 * BSIZE {
        PacedTotal(sp, off, n);
      }
      assert m.inodes[i := m.inodes[i].(size := m.inodes[i].size)] == m.inodes;
      if n > 0 && off + n > size {
        ResizeLost(m, lo, i, off + n);
        ResizeSpare(m, i, off + n, off + n, later);
        SameLostThen(m0, m, m.(inodes := m.inodes[i := m.inodes[i].(size := off + n)]), lo);
        m := m.(inodes := m.inodes[i := m.inodes[i].(size := off + n)]);
        OneMore(old(logged), logged, Iblock(i));
        Iupdate(i);
      }
      return true, n;
    }

    lemma SameTable(m2: Image, m: Image, i: nat, sp: Spend)
      requires TableKnown(m2, i, sp) && m.inodes == m2.inodes
      ensures TableKnown(m, i, sp)
    {
    }
  }

  /** The most bytes that `filewrite` passes to one operation. */
  const CHUNK: nat := (MAXOPBLOCKS - 1 - 1 - 2) / 2 * 512

  /** How many of n bytes `filewrite` writes at `off`: all, or the chunks that end before a file's greatest size. */
  function Reach(size: nat, off: nat, n: nat): (r: nat)
    requires size <= MAXFILE * BSIZE
    ensures r <= n && (off <= size ==> off + r <= MAXFILE * BSIZE)
  {
    if off > size then 0 else if off + n <= MAXFILE * BSIZE then n else (MAXFILE * BSIZE - off) / CHUNK * CHUNK
  }

  lemma ReachNext(size: nat, off: nat, n: nat, i: nat, n1: nat)
    requires off <= size <= MAXFILE * BSIZE && i <= Reach(size, off, n) && i < n && i % CHUNK == 0
    requires n1 == if n - i > CHUNK then CHUNK else n - i
    ensures if off + i + n1 <= MAXFILE * BSIZE then i + n1 <= Reach(size, off, n) else i == Reach(size, off, n)
  {
    var room, k := MAXFILE * BSIZE - off, i / CHUNK;
    var q := room / CHUNK;
    assert CHUNK == 1536;
    if off + n > MAXFILE * BSIZE {
      assert i == k * 1536 && q * 1536 <= room < q * 1536 + 1536;
    }
  }

  /** `filewrite` of `addr` to file i at `off` after `done` bytes: they are in, and the blocks to spare are kept. */
  ghost predicate Wrote(m0: Image, m: Image, i: nat, off: nat, addr: seq<int>, done: nat) {
    && done <= |addr| && Written(m0, m, i, off, addr[..done])
    && var reach := Reach(m0.inodes[i].size, off, |addr|);
       done <= reach && Spare(m, i, off + done, reach - done) == Spare(m0, i, off, reach)
  }

  lemma WroteStart(m: Image, i: nat, off: nat, addr: seq<int>)
    requires Sized(m) && i < |m.inodes| && off <= m.inodes[i].size <= MAXFILE * BSIZE
    ensures Wrote(m, m, i, off, addr, 0)
  {
    assert addr[..0] == [];
    WrittenNothing(m, i, off);
    hide Written, Reach, Spare;
  }

  lemma WroteSize(m0: Image, m: Image, i: nat, off: nat, addr: seq<int>, done: nat)
    requires Wrote(m0, m, i, off, addr, done)
    ensures Sized(m0) && Sized(m) && i < |m0.inodes| && i < |m.inodes|
    ensures m0.inodes[i].size <= MAXFILE * BSIZE && m.inodes[i].size <= MAXFILE * BSIZE
    ensures off <= m0.inodes[i].size && off + done <= m.inodes[i].size
    ensures done <= Reach(m0.inodes[i].size, off, |addr|)
    ensures Content(m, i) == Splice(Content(m0, i), off, addr[..done])
  {
    hide Content, Splice, Reach, Spare;
  }

  /** What the write reaches behind the next chunk. */
  ghost function Later(m0: Image, i: nat, off: nat, n: nat, done: nat, n1: nat): nat {
    if i < |m0.inodes| && m0.inodes[i].size <= MAXFILE * BSIZE && done + n1 <= Reach(m0.inodes[i].size, off, n)
    then Reach(m0.inodes[i].size, off, n) - done - n1 else 0
  }

  lemma WroteNext(m0: Image, m1: Image, m: Image, i: nat, off: nat, addr: seq<int>, done: nat, n1: nat)
    requires Wrote(m0, m1, i, off, addr, done) && done < |addr| && done % CHUNK == 0
    requires n1 == if |addr| - done > CHUNK then CHUNK else |addr| - done
    requires Sized(m1) && Sized(m) && i < |m1.inodes| && i < |m.inodes|
    requires off + done + n1 <= m.inodes[i].size <= MAXFILE * BSIZE
    requires off + done <= m1.inodes[i].size <= MAXFILE * BSIZE
    requires Content(m, i) == Splice(Content(m1, i), off + done, addr[done..done + n1])
    requires var more := Later(m0, i, off, |addr|, done, n1);
             off + done + n1 + more <= MAXFILE * BSIZE ==>
               Spare(m, i, off + done + n1, more) == Spare(m1, i, off + done, n1 + more)
    ensures Wrote(m0, m, i, off, addr, done + n1)
  {
    hide Content, Splice, Spare;
    WrittenNext(m0, m1, m, i, off, addr, done, n1);
    WrittenSize(m0, m1, i, off, addr[..done]);
    ReachNext(m0.inodes[i].size, off, |addr|, done, n1);
    hide Written, Reach;
  }

  /** The chunk that does not fit is where the write's reach ends. */
  lemma WroteAll(m0: Image, m1: Image, i: nat, off: nat, addr: seq<int>, done: nat)
    requires Wrote(m0, m1, i, off, addr, done) && (done < |addr| ==> done % CHUNK == 0)
    requires var n1 := if |addr| - done > CHUNK then CHUNK else |addr| - done;
             done == |addr| || off + done + n1 > MAXFILE * BSIZE
    ensures Sized(m0) && i < |m0.inodes| && m0.inodes[i].size <= MAXFILE * BSIZE && off <= m0.inodes[i].size
    ensures done == Reach(m0.inodes[i].size, off, |addr|) && Free(m0.used) >= WriteNeed(m0, i, off, done)
  {
    hide Content, Splice, WriteNeed;
    WrittenSize(m0, m1, i, off, addr[..done]);
    if done < |addr| {
      ReachNext(m0.inodes[i].size, off, |addr|, done, if |addr| - done > CHUNK then CHUNK else |addr| - done);
    }
    hide Written, Reach;
    SpareNothing(m1, i, off + done);
  }

  /** An operation that panics shows that there were too few blocks from the start. */
  lemma WrotePanic(m0: Image, m1: Image, i: nat, off: nat, addr: seq<int>, done: nat, n1: nat)
    requires Wrote(m0, m1, i, off, addr, done) && done < |addr| && done % CHUNK == 0
    requires n1 == if |addr| - done > CHUNK then CHUNK else |addr| - done
    requires off + done + n1 <= MAXFILE * BSIZE && Sized(m1) && i < |m1.inodes|
    requires Free(m1.used) < WriteNeed(m1, i, off + done, n1)
    ensures Sized(m0) && i < |m0.inodes| && m0.inodes[i].size <= MAXFILE * BSIZE && off <= m0.inodes[i].size
    ensures Free(m0.used) < WriteNeed(m0, i, off, Reach(m0.inodes[i].size, off, |addr|))
  {
    hide Content, Splice, WriteNeed;
    WrittenSize(m0, m1, i, off, addr[..done]);
    ReachNext(m0.inodes[i].size, off, |addr|, done, n1);
    hide Written, Reach;
    SpareMore(m1, i, off + done, n1, Reach(m0.inodes[i].size, off, |addr|) - done - n1);
  }

  /** An open file: `filewrite`. */
  class OpenFile {
    const fs: FileSystem
    const ip: nat
    var off: nat
    ghost var peak: nat   // most blocks that one operation of the last write has logged

    constructor (fs: FileSystem, ip: nat, off: nat)
      requires fs.Valid() && ip < |fs.m.inodes| && NoHoles(fs.m, ip) && fs.dinodes[ip] == fs.m.inodes[ip] && off < WORD
      ensures this.fs == fs && this.ip == ip && this.off == off && Valid()
    {
      this.fs, this.ip, this.off, peak := fs, ip, off, 0;
    }

    ghost predicate Valid()
      reads this, fs
    {
      && fs.Valid() && ip < |fs.m.inodes| && NoHoles(fs.m, ip) && fs.dinodes[ip] == fs.m.inodes[ip]
      && off < WORD
    }

    /** Whether a write of n bytes at the present offset can be completed. */
    ghost predicate Fits(n: nat)
      reads this, fs
      requires ip < |fs.m.inodes|
    {
      off <= fs.m.inodes[ip].size && off + n <= MAXFILE * BSIZE
    }

    /** One operation of the loop: at most CHUNK bytes between `begin_op` and `end_op`. */
    method Operation(src: seq<int>, ghost more: nat) returns (ok: bool, r: int)
      requires Valid() && |src| <= CHUNK && peak <= MAXOPBLOCKS
      modifies this, fs
      ensures !ok ==> forall c :: 0 <= c < |fs.m.used| ==> fs.m.used[c]
      ensures ok ==> Valid() && peak <= MAXOPBLOCKS && |fs.logged| <= peak
      ensures ok ==> r == if old(Fits(|src|)) then |src| else -1
      ensures ok && r < 0 ==> fs.m == old(fs.m) && off == old(off)
      ensures ok && r >= 0 ==>
                && off == old(off) + |src| <= fs.m.inodes[ip].size
                && Content(fs.m, ip) == Splice(Content(old(fs.m), ip), old(off), src)
      ensures ok <==> !old(Fits(|src|)) || Free(old(fs.m).used) >= WriteNeed(old(fs.m), ip, old(off), |src|)
      ensures ok ==> SameLost(old(fs.m), fs.m, fs.lo)
      ensures ok && r >= 0 && old(off) + |src| + more <= MAXFILE * BSIZE ==>
                Spare(fs.m, ip, off, more) == Spare(old(fs.m), ip, old(off), |src| + more)
    {
      hide InUse, Unshared, RefAt, Content, Splice, OthersKept, SameLost, Free, WriteNeed, Spare;
      fs.Begin();
      ghost var m0 := fs.m;
      ok, r := fs.Writei(ip, off, src, more);
      if !ok { return; }
      assert fs.logged - {} == fs.logged;
      peak := Max(peak, |fs.logged|);
      if r >= 0 {
        SpliceAt(Content(m0, ip), off, src);
      }
      if r > 0 {
        off := off + r;
      }
    }

    /** The loop body of `filewrite`: the chunk of n1 bytes from byte i on. */
    method Turn(addr: seq<int>, i: nat, n1: nat, ghost m0: Image, ghost start: nat) returns (ok: bool, r: int)
      requires Valid() && peak <= MAXOPBLOCKS && off == start + i && i < |addr| && i % CHUNK == 0
      requires n1 == if |addr| - i > CHUNK then CHUNK else |addr| - i
      requires SameLost(m0, fs.m, fs.lo) && ip < |m0.inodes|
      requires start <= m0.inodes[ip].size ==> Wrote(m0, fs.m, ip, start, addr, i)
      requires start > m0.inodes[ip].size ==> fs.m == m0 && i == 0
      modifies this, fs
      ensures !ok ==> forall c :: 0 <= c < |fs.m.used| ==> fs.m.used[c]
      ensures !ok ==> start <= m0.inodes[ip].size <= MAXFILE * BSIZE && Sized(m0)
      ensures !ok ==> Free(m0.used) < WriteNeed(m0, ip, start, Reach(m0.inodes[ip].size, start, |addr|))
      ensures ok ==> Valid() && peak <= MAXOPBLOCKS && SameLost(m0, fs.m, fs.lo)
      ensures ok ==> r == if old(Fits(n1)) then n1 else -1
      ensures ok && r < 0 ==>
                && fs.m == old(fs.m) && off == old(off)
                && (start > m0.inodes[ip].size || start + i + n1 > MAXFILE * BSIZE)
      ensures ok && r >= 0 ==>
                off == old(off) + n1 && start <= m0.inodes[ip].size && Wrote(m0, fs.m, ip, start, addr, i + n1)
    {
      hide InUse, Unshared, Sized, RefAt, Content, Splice, OthersKept, SameLost, Free, WriteNeed, NoHoles, Wrote,
        Reach, Spare, Later;
      ghost var m1 := fs.m;
      SizeBound(fs.m, ip);
      if start <= m0.inodes[ip].size {
        WroteSize(m0, fs.m, ip, start, addr, i);
      }
      ok, r := Operation(addr[i..i + n1], Later(m0, ip, start, |addr|, i, n1));
      if !ok {
        WrotePanic(m0, m1, ip, start, addr, i, n1);
        return;
      }
      SameLostThen(m0, m1, fs.m, fs.lo);
      SizeBound(fs.m, ip);
      if r >= 0 {
        WroteNext(m0, m1, fs.m, ip, start, addr, i, n1);
      }
    }

    /**
     `filewrite` in operations of at most three blocks' worth of bytes. It succeeds exactly when the
     whole write fits; otherwise the chunks before the first that does not fit have been written. `done` is
     the number of bytes written. It panics exactly when these bytes need more blocks than are free.
     */
    method Write(addr: seq<int>) returns (ok: bool, r: int, ghost done: nat)
      requires Valid() && |addr| < WORD / 2
      modifies this, fs
      ensures !ok ==> forall c :: 0 <= c < |fs.m.used| ==> fs.m.used[c]
      ensures ok ==> Valid() && peak <= MAXOPBLOCKS && SameLost(old(fs.m), fs.m, fs.lo)
      ensures ok ==> r == if |addr| == 0 || old(Fits(|addr|)) then |addr| else -1
      ensures old(fs.m).inodes[ip].size <= MAXFILE * BSIZE
      ensures ok ==> done == Reach(old(fs.m).inodes[ip].size, old(off), |addr|) && off == old(off) + done
      ensures ok && old(off) <= old(fs.m).inodes[ip].size ==>
                Content(fs.m, ip) == Splice(Content(old(fs.m), ip), old(off), addr[..done])
      ensures ok <==> old(off) > old(fs.m).inodes[ip].size ||
                      var reach := Reach(old(fs.m).inodes[ip].size, old(off), |addr|);
                      Free(old(fs.m).used) >= WriteNeed(old(fs.m), ip, old(off), reach)
    {
      hide InUse, Unshared, Sized, RefAt, Content, Splice, OthersKept, SameLost, Free, WriteNeed, NoHoles, Wrote,
        Reach, Spare, Later;
      SameLostStart(fs.m, fs.lo);
      SizeBound(fs.m, ip);
      var i, n := 0, |addr|;
      r, done, peak := 0, 0, 0;
      ghost var start, m0 := off, fs.m;
      if start <= m0.inodes[ip].size {
        WroteStart(m0, ip, start, addr);
      }
      while i < n
        invariant i <= n && done == i && off == start + i && Valid() && peak <= MAXOPBLOCKS
        invariant i == n || i % CHUNK == 0
        invariant start > m0.inodes[ip].size ==> i == 0 && fs.m == m0
        invariant start <= m0.inodes[ip].size ==> Wrote(m0, fs.m, ip, start, addr, i)
        invariant SameLost(m0, fs.m, fs.lo)
      {
        var n1 := if n - i > CHUNK then CHUNK else n - i;
        ok, r := Turn(addr, i, n1, m0, start);
        if !ok { return; }
        if r < 0 {
          break;
        }
        i := i + r;
        done := i;
      }
      if start <= m0.inodes[ip].size {
        WroteSize(m0, fs.m, ip, start, addr, i);
        WroteAll(m0, fs.m, ip, start, addr, i);
      }
      ReachWhole(m0.inodes[ip].size, start, n);
      ok := true;
      r := if i == n then n else -1;
    }
  }

  lemma ReachWhole(size: nat, off: nat, n: nat)
    requires size <= MAXFILE * BSIZE
    ensures Reach(size, off, n) == n <==> n == 0 || (off <= size && off + n <= MAXFILE * BSIZE)
    ensures off > size ==> Reach(size, off, n) == 0
  {
  }
}
