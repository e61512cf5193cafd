/**
 log.c over one disk: the loops that copy blocks between cache, log and home
 locations, and the operations that call them, changing the disk one block
 write at a time. `writes` records every block write since the disk was attached.
 A `false` result is the source's panic (or, for `BeginOp`, its sleep).
 */
module LogDevice {
  import opened RedoLog

  lemma {:induction false} ApplyConcat(d: Disk, xs: seq<Write>, ys: seq<Write>)
    requires forall i :: 0 <= i < |xs| ==> xs[i].block < |d|
    requires forall i :: 0 <= i < |ys| ==> ys[i].block < |d|
    ensures forall i :: 0 <= i < |xs + ys| ==> (xs + ys)[i].block < |d|
    ensures Apply(d, xs + ys) == Apply(Apply(d, xs), ys)
  {
    if ys == [] {
      assert xs + ys == xs;
    } else {
      ApplyConcat(d, xs, ys[..|ys| - 1]);
      assert (xs + ys)[..|xs + ys| - 1] == xs + ys[..|ys| - 1];
    }
  }

  lemma TakeOneMore<T>(before: seq<T>, all: seq<T>, k: nat)
    requires k < |all|
    ensures before + all[..k + 1] == before + all[..k] + [all[k]]
  {
  }

  /** The writes of `install_trans` for the blocks `bs`, read from the log blocks of `d`. */
  function InstallWrites(d: Disk, a: Area, bs: seq<nat>): seq<Write>
    requires a.start + |bs| < |d|
  {
    seq(|bs|, i requires 0 <= i < |bs| => Write(bs[i], d[a.start + 1 + i]))
  }

  /** The four phases of `commit`, each as its own loop or call issues it. */
  lemma CommitPhases(d: Disk, a: Area, bs: seq<nat>, cache: map<nat, Block>, d1: Disk)
    requires CanCommit(d, a, bs, cache) && bs != []
    requires d1 == CommitState(d, a, bs, cache, |bs|)
    ensures d1[a.start] == d[a.start]
    ensures var h := Header(d[a.start], bs);
            CommitWrites(d, a, bs, cache) ==
            CommitWrites(d, a, bs, cache)[..|bs|] + [Write(a.start, h)] +
            InstallWrites(d1, a, bs) + [Write(a.start, Header(h, []))]
  {
  }

  lemma AfterWriteLog(boot: Disk, ws: seq<Write>, d: Disk, a: Area, bs: seq<nat>, cache: map<nat, Block>)
    requires forall i :: 0 <= i < |ws| ==> ws[i].block < |boot|
    requires d == Apply(boot, ws) && CanCommit(d, a, bs, cache) && bs != []
    ensures var xs := CommitWrites(d, a, bs, cache)[..|bs|];
            (forall i :: 0 <= i < |ws + xs| ==> (ws + xs)[i].block < |boot|) &&
            Apply(boot, ws + xs) == CommitState(d, a, bs, cache, |bs|)
  {
    var xs := CommitWrites(d, a, bs, cache)[..|bs|];
    CommitInRange(d, a, bs, cache);
    ApplyConcat(boot, ws, xs);
    CommitPrefix(d, a, bs, cache, xs);
  }

  lemma Gather<T>(ws: seq<T>, p: seq<T>, q: seq<T>, r: seq<T>, s: seq<T>)
    ensures ws + (p + q + r + s) == ws + p + q + r + s
  {
  }

  /** From the writes of `write_log` on, the remaining phases complete `CommitWrites`. */
  lemma CommitCompletes(boot: Disk, ws: seq<Write>, d: Disk, a: Area, bs: seq<nat>, cache: map<nat, Block>, d1: Disk)
    requires forall i :: 0 <= i < |ws| ==> ws[i].block < |boot|
    requires d == Apply(boot, ws) && CanCommit(d, a, bs, cache) && bs != []
    requires var xs := CommitWrites(d, a, bs, cache)[..|bs|];
             (forall i :: 0 <= i < |ws + xs| ==> (ws + xs)[i].block < |boot|) && d1 == Apply(boot, ws + xs)
    ensures |d1| == |d| && d1[a.start] == d[a.start]
    ensures var h := Header(d[a.start], bs);
            ws + CommitWrites(d, a, bs, cache) ==
            ws + CommitWrites(d, a, bs, cache)[..|bs|] + [Write(a.start, h)] +
            InstallWrites(d1, a, bs) + [Write(a.start, Header(h, []))]
  {
    AfterWriteLog(boot, ws, d, a, bs, cache);
    CommitPhases(d, a, bs, cache, d1);
    var h := Header(d[a.start], bs);
    Gather(ws, CommitWrites(d, a, bs, cache)[..|bs|], [Write(a.start, h)],
           InstallWrites(d1, a, bs), [Write(a.start, Header(h, []))]);
  }

  lemma RecoverPhases(ws: seq<Write>, d: Disk, a: Area)
    requires Intact(d, a)
    ensures var h := d[a.start];
            ws + InstallWrites(d, a, Listed(h)) + [Write(a.start, Header(h, []))] == ws + RecoverWrites(d, a)
  {
    var h := d[a.start];
    assert RecoverWrites(d, a) == InstallWrites(d, a, Listed(h)) + [Write(a.start, Header(h, []))];
  }

  lemma RecoverMeaning(boot: Disk, ws: seq<Write>, d: Disk, a: Area)
    requires forall i :: 0 <= i < |ws| ==> ws[i].block < |boot|
    requires d == Apply(boot, ws) && Intact(d, a)
    ensures forall i :: 0 <= i < |ws + RecoverWrites(d, a)| ==> (ws + RecoverWrites(d, a))[i].block < |boot|
    ensures SameHome(Apply(boot, ws + RecoverWrites(d, a)), View(d, a), a)
  {
    var rs := RecoverWrites(d, a);
    forall k: nat | k < |rs| ensures rs[k].block < |boot| {
      RecoverStep(d, a, k);
    }
    ApplyConcat(boot, ws, rs);
    RecoverPrefix(d, a, rs);
    RecoverView(d, a, |rs|);
  }

  class Log {
    const area: Area
    var disk: Disk
    var cache: map<nat, Block>   // contents of the cached buffers
    var dirty: set<nat>          // blocks whose buffer has B_DIRTY
    var n: nat                   // lh.n
    var block: array<nat>        // lh.block
    var outstanding: nat
    var committing: bool
    ghost var boot: Disk
    ghost var writes: seq<Write>

    ghost predicate Recorded()
      reads this
    {
      && (forall i :: 0 <= i < |writes| ==> writes[i].block < |boot|)
      && disk == Apply(boot, writes)
    }

    /** Clean buffers hold what the disk holds. */
    ghost predicate Coherent()
      reads this
    {
      forall b :: b in cache ==> b < |disk| && (b !in dirty ==> cache[b] == disk[b])
    }

    /** Everything but the state of the on-disk header. */
    ghost predicate Valid()
      reads this, block
    {
      && Recorded() && Mounted(disk, area)
      && block.Length == LOGSIZE && n <= LOGSIZE
      && Loggable(|disk|, area, block[..n])
      && Coherent()
      && (forall b :: b in dirty <==> b in block[..n])
      && (forall b :: b in dirty ==> b in cache)
    }

    /** `bread`: a cached buffer as it is, any other block from the disk. */
    method Bread(b: nat) returns (data: Block)
      requires b < |disk|
      modifies this`cache
      ensures data == if b in old(cache) then old(cache)[b] else disk[b]
      ensures cache == old(cache)[b := data]
    {
      if b !in cache {
        cache := cache[b := disk[b]];
      }
      data := cache[b];
    }

    /** `bwrite`: the buffer goes to the disk and is clean afterwards. */
    method Bwrite(b: nat, data: Block)
      requires b < |disk| && Recorded()
      modifies this`disk, this`cache, this`dirty, this`writes
      ensures Recorded()
      ensures disk == old(disk)[b := data] && writes == old(writes) + [Write(b, data)]
      ensures cache == old(cache)[b := data] && dirty == old(dirty) - {b}
    {
      cache := cache[b := data];
      disk := disk[b := data];
      dirty := dirty - {b};
      writes := writes + [Write(b, data)];
      assert writes[..|writes| - 1] == old(writes);
    }

    /** One round of the loop in `write_log`. */
    method CopyToLog(tail: nat)
      requires tail < n <= block.Length && Recorded() && Coherent()
      requires area.start + area.size <= |disk| && n < area.size
      requires block[tail] in cache && block[tail] < |disk|
      modifies this`disk, this`cache, this`dirty, this`writes
      ensures Recorded() && Coherent() && |disk| == old(|disk|)
      ensures var w := Write(area.start + tail + 1, old(cache[block[tail]]));
              && writes == old(writes) + [w]
              && disk == old(disk)[w.block := w.data]
              && dirty == old(dirty) - {w.block}
              && cache == old(cache)[w.block := w.data]
    {
      hide Apply;
      var to := Bread(area.start + tail + 1);
      var from := Bread(block[tail]);
      assert cache == old(cache)[area.start + tail + 1 := to];
      Bwrite(area.start + tail + 1, from);
    }

    /** What `write_log` needs of the header list: every entry a cached home block. */
    ghost predicate Cached()
      reads this, block
    {
      && 0 < n <= block.Length && n < area.size && n < WORDS
      && (forall i :: 0 <= i < n ==> block[i] in cache && !area.Holds(block[i]) && block[i] < |disk|)
    }

    method WriteLog()
      requires Recorded() && Coherent() && Mounted(disk, area) && Cached()
      requires forall b :: b in dirty ==> !area.Holds(b)
      modifies this`disk, this`cache, this`dirty, this`writes
      ensures Recorded() && Coherent() && |disk| == old(|disk|)
      ensures dirty == old(dirty)
      ensures writes == old(writes) + CommitWrites(old(disk), area, block[..n], old(cache))[..n]
      ensures forall b :: b in old(cache) && !area.Holds(b) ==> b in cache && cache[b] == old(cache)[b]
    {
      hide Apply;
      ghost var d, bs, c, ws := disk, block[..n], cache, writes;
      ghost var all := CommitWrites(d, area, bs, c);
      var tail := 0;
      while tail < n
        invariant 0 <= tail <= n
        invariant Recorded() && Coherent() && dirty == old(dirty) && |disk| == |d|
        invariant forall b :: b in c && !area.Holds(b) ==> b in cache && cache[b] == c[b]
        invariant writes == ws + all[..tail]
      {
        CopyToLog(tail);
        TakeOneMore(ws, all, tail);
        assert all[tail] == CommitWrite(d, area, bs, c, tail);
        tail := tail + 1;
      }
    }

    /** One round of the loop in `install_trans`. */
    method CopyHome(tail: nat)
      requires tail < n <= block.Length && Recorded() && Coherent()
      requires area.start + area.size <= |disk| && n < area.size
      requires forall b :: b in dirty ==> !area.Holds(b)
      requires block[tail] < |disk|
      modifies this`disk, this`cache, this`dirty, this`writes
      ensures Recorded() && Coherent()
      ensures var w := Write(block[tail], old(disk)[area.start + tail + 1]);
              && writes == old(writes) + [w]
              && disk == old(disk)[w.block := w.data]
              && dirty == old(dirty) - {w.block}
    {
      hide Apply;
      var lbuf := Bread(area.start + tail + 1);
      assert lbuf == disk[area.start + tail + 1];
      var dbuf := Bread(block[tail]);
      Bwrite(block[tail], lbuf);
    }

    method InstallTrans()
      requires Recorded() && Coherent() && Mounted(disk, area)
      requires n <= block.Length && n < area.size
      requires forall b :: b in dirty ==> !area.Holds(b)
      requires forall i :: 0 <= i < n ==> block[i] < |disk| && !area.Holds(block[i])
      modifies this`disk, this`cache, this`dirty, this`writes
      ensures Recorded() && Coherent() && |disk| == old(|disk|)
      ensures writes == old(writes) + InstallWrites(old(disk), area, block[..n])
      ensures forall b :: 0 <= b < |disk| && area.Holds(b) ==> disk[b] == old(disk)[b]
      ensures forall b :: b in dirty <==> b in old(dirty) && b !in block[..n]
    {
      hide Apply;
      ghost var d, ws := disk, writes;
      ghost var all := InstallWrites(d, area, block[..n]);
      var tail := 0;
      while tail < n
        invariant 0 <= tail <= n
        invariant Recorded() && Coherent() && |disk| == |d|
        invariant forall b :: 0 <= b < |d| && area.Holds(b) ==> disk[b] == d[b]
        invariant forall b :: b in dirty <==> b in old(dirty) && b !in block[..tail]
        invariant writes == ws + all[..tail]
      {
        CopyHome(tail);
        TakeOneMore(ws, all, tail);
        assert block[..tail + 1] == block[..tail] + [block[tail]];
        tail := tail + 1;
      }
      assert all[..n] == all;
    }

    /** `write_head`: the header buffer, with the in-memory list copied into it entry by entry. */
    method WriteHead()
      requires Recorded() && Coherent() && Mounted(disk, area)
      requires n <= block.Length <= LOGSIZE
      requires forall b :: b in dirty ==> !area.Holds(b)
      modifies this`disk, this`cache, this`dirty, this`writes
      ensures Recorded() && Coherent() && dirty == old(dirty)
      ensures disk == old(disk)[area.start := Header(old(disk)[area.start], block[..n])]
      ensures writes == old(writes) + [Write(area.start, Header(old(disk)[area.start], block[..n]))]
      ensures forall b :: b in old(cache) && !area.Holds(b) ==> b in cache && cache[b] == old(cache)[b]
    {
      hide Apply, Listed;
      var hb := Bread(area.start);
      ghost var h := hb;
      assert h == disk[area.start];
      hb := hb[0 := n];
      var i := 0;
      while i < n
        invariant 0 <= i <= n && |hb| == WORDS
        invariant hb == [n] + block[..i] + h[1 + i..]
      {
        hb := hb[1 + i := block[i]];
        i := i + 1;
      }
      Bwrite(area.start, hb);
    }

    /** The last two statements of both `commit` and `recover_from_log`. */
    method ClearLog()
      requires Recorded() && Coherent() && Mounted(disk, area)
      requires block.Length == LOGSIZE && dirty == {}
      modifies this`disk, this`cache, this`dirty, this`writes, this`n
      ensures Valid() && n == 0 && disk[area.start][0] == 0
      ensures writes == old(writes) + [Write(area.start, Header(old(disk)[area.start], []))]
      ensures disk == old(disk)[area.start := Header(old(disk)[area.start], [])]
    {
      hide Apply, Listed;
      n := 0;
      WriteHead();
    }

    /** `commit`: exactly the writes of `CommitWrites`, then an empty log. */
    method Commit()
      requires Valid() && disk[area.start][0] == 0
      modifies this`disk, this`cache, this`dirty, this`writes, this`n
      ensures Valid() && disk[area.start][0] == 0 && n == 0
      ensures writes == old(writes) + CommitWrites(old(disk), area, old(block[..n]), old(cache))
    {
      hide Apply, Listed, Header;
      if n > 0 {
        ghost var d, bs, c, ws := disk, block[..n], cache, writes;
        WriteLog();
        CommitCompletes(boot, ws, d, area, bs, c, disk);
        ghost var d1 := disk;
        WriteHead();
        assert InstallWrites(disk, area, bs) == InstallWrites(d1, area, bs);
        InstallTrans();
        ClearLog();
      }
    }

    /** `read_head`: the on-disk list into the in-memory header. */
    method ReadHead()
      requires Coherent() && Intact(disk, area) && area.start !in dirty
      requires block.Length == LOGSIZE
      modifies this`cache, this`n, block
      ensures Coherent()
      ensures n <= LOGSIZE && block[..n] == Listed(disk[area.start])
    {
      var lh := Bread(area.start);
      assert lh == disk[area.start];
      assert |Listed(lh)| == lh[0];
      n := lh[0];
      var i := 0;
      while i < n
        invariant 0 <= i <= n && n == lh[0]
        invariant block[..i] == lh[1..1 + i]
        modifies block
      {
        block[i] := lh[1 + i];
        i := i + 1;
      }
    }

    /** `recover_from_log` at boot, with an empty cache: exactly the writes of `RecoverWrites`. */
    method RecoverFromLog()
      requires Recorded() && Intact(disk, area) && block.Length == LOGSIZE
      requires cache == map[] && dirty == {}
      modifies this`disk, this`cache, this`dirty, this`writes, this`n, block
      ensures Valid() && n == 0
      ensures writes == old(writes) + RecoverWrites(old(disk), area)
      ensures disk[area.start][0] == 0 && SameHome(disk, View(old(disk), area), area)
    {
      ghost var d, ws := disk, writes;
      ReadHead();
      assert forall i :: 0 <= i < n ==> block[i] == Listed(d[area.start])[i];
      InstallTrans();
      ClearLog();
      RecoverPhases(ws, d, area);
      RecoverMeaning(boot, ws, d, area);
    }

    /**
     `log_write` on a buffer the caller has filled with `data`. The size test comes first,
     so it also refuses a block that is already in the list.
     */
    method LogWrite(b: nat, data: Block) returns (ok: bool)
      requires Valid()
      requires b < |disk| && !area.Holds(b)
      modifies this`cache, this`dirty, this`n, block
      ensures Valid()
      ensures ok <==> old(n) < LOGSIZE && old(n) < area.size - 1 && outstanding >= 1
      ensures ok ==> block[..n] == (if b in old(block[..n]) then old(block[..n]) else old(block[..n]) + [b])
      ensures ok ==> cache == old(cache)[b := data] && dirty == old(dirty) + {b}
      ensures !ok ==> n == old(n) && block[..n] == old(block[..n]) && cache == old(cache) && dirty == old(dirty)
    {
      if n >= LOGSIZE || n >= area.size - 1 || outstanding < 1 {
        return false;
      }
      ghost var bs := block[..n];
      var i := 0;
      while i < n && block[i] != b
        invariant 0 <= i <= n
        invariant b !in block[..i]
      {
        i := i + 1;
      }
      block[i] := b;
      if i == n {
        n := n + 1;
      }
      cache := cache[b := data];
      dirty := dirty + {b};
      assert block[..n] == if b in bs then bs else bs + [b];
      ok := true;
    }

    /** One test of the loop in `begin_op`; `false` is the sleep. */
    method BeginOp() returns (ok: bool)
      modifies this`outstanding
      ensures ok <==> !committing && n + (old(outstanding) + 1) * MAXOPBLOCKS <= LOGSIZE
      ensures outstanding == if ok then old(outstanding) + 1 else old(outstanding)
    {
      if committing || n + (outstanding + 1) * MAXOPBLOCKS > LOGSIZE {
        return false;
      }
      outstanding := outstanding + 1;
      ok := true;
    }

    /** `end_op`: the last operation out commits everything logged since the previous commit. */
    method EndOp() returns (ok: bool)
      requires Valid() && disk[area.start][0] == 0 && outstanding >= 1
      modifies this
      ensures outstanding == old(outstanding) - 1 && committing == old(committing)
      ensures ok <==> !old(committing)
      ensures Valid() && disk[area.start][0] == 0
      ensures ok && outstanding == 0 ==>
                && n == 0
                && writes == old(writes) + CommitWrites(old(disk), area, old(block[..n]), old(cache))
      ensures !ok || outstanding > 0 ==>
                && writes == old(writes) && n == old(n) && dirty == old(dirty)
                && disk == old(disk) && cache == old(cache)
      ensures boot == old(boot)
    {
      outstanding := outstanding - 1;
      if committing {
        return false;
      }
      if outstanding == 0 {
        committing := true;
        Commit();
        committing := false;
      }
      ok := true;
    }
  }
}
