/**
 Buffers and the log. NBUF equals LOGSIZE, and logged blocks stay pinned in their buffers until `commit`
 installs them: exactly when `bget` can run out of buffers while operations keep their promise.
 */
module LogBuffers {
  import opened RedoLog
  import opened LogMachine
  import opened LogSpace

  /** Buffers that `bget` cannot recycle even when nobody refers to any. */
  ghost function Pinned(s: State): set<nat> { set b | b in s.cache && s.cache[b].dirty }

  /** `commit` is about to read its first log block, nobody else uses the cache, and there is no buffer. */
  ghost predicate Starved(s: State) {
    && s.phase == Committing(0) && |Pinned(s)| >= NBUF
    && forall b :: b in s.cache ==> s.cache[b].user == Nobody
  }

  lemma {:induction false} SetSize(bs: seq<nat>, a: set<nat>)
    requires Distinct(bs) && forall b :: b in a <==> b in bs
    ensures |a| == |bs|
  {
    if bs == [] {
      forall b
        ensures b !in a
      {
      }
      assert a == {};
    } else {
      var n := |bs| - 1;
      forall b
        ensures b in a - {bs[n]} <==> b in bs[..n]
      {
      }
      SetSize(bs[..n], a - {bs[n]});
    }
  }

  /** When `commit` starts, the pinned buffers are those of the listed blocks. */
  lemma PinnedIsListed(s: State)
    requires Inv(s) && s.phase == Committing(0)
    ensures |Pinned(s)| == |s.lh| < s.area.size
  {
    hide DiskInv, TraceInv, HeaderInv, HomeInv, OpsInv, TraceShape;
    forall b
      ensures b in Pinned(s) <==> b in s.lh
    {
      assert Pending(s.lh, s.phase, b) <==> b in s.lh;
    }
    SetSize(s.lh, Pinned(s));
  }

  /** Three operations fill a log of more than LOGSIZE blocks and end. */
  lemma StarvedRun(c: Count, s0: State) returns (steps: seq<Step>, s: State)
    requires Boot(s0) && Inv(s0) && Room(s0) && s0.area.size > LOGSIZE
    ensures Inv(s) && Reached(c, s0, steps, s) && Starved(s) && Frugal(1, s0, steps)
  {
    hide DiskInv, OpsInv, TraceInv, HeaderInv, CacheInv, HomeInv, Loggable, TraceShape, Reached, Frugal;
    steps, s := FillTo(c, s0, LOGSIZE);
    ghost var full := s;
    for n := 0 to 3
      invariant Inv(s) && Reached(c, s0, steps, s) && Frugal(1, s0, steps) && s.lh == full.lh && s.cache == full.cache
      invariant |s.ops| == 3 - n && if n < 3 then s.phase == Running else s.phase == Committing(0)
    {
      Extend(c, s0, steps, s, End(0));
      DoInv(s, End(0));
      steps, s := steps + [End(0)], Do(s, End(0)).value;
    }
    PinnedIsListed(s);
  }

  ghost predicate Starves(c: Count, s0: State, steps: seq<Step>)
    requires Inv(s0)
  {
    Keeps(c, s0, steps) && Frugal(1, s0, steps) && Run(s0, steps).Some? && Starved(Run(s0, steps).value)
  }

  /**
   A commit that has the cache to itself can find every buffer pinned by the log, and so meet the panic of
   `bget`, exactly when the log area has more than LOGSIZE blocks; mkfs makes it LOGSIZE. One buffer in use
   at a time, and NBUF in all, are enough to get there.
   */
  lemma BuffersExactly(c: Count, s0: State)
    requires Boot(s0) && Inv(s0) && Room(s0)
    ensures (exists steps :: Starves(c, s0, steps)) <==> s0.area.size > LOGSIZE
  {
    hide DiskInv, OpsInv, TraceInv, HeaderInv, CacheInv, HomeInv, Loggable, TraceShape, Starved;
    if s0.area.size > LOGSIZE {
      var steps, s := StarvedRun(c, s0);
      assert Starves(c, s0, steps);
    } else {
      forall steps
        ensures !Starves(c, s0, steps)
      {
        if Starves(c, s0, steps) {
          NotStarved(s0, steps);
        }
      }
    }
  }

  lemma {:induction false} NotStarved(s: State, steps: seq<Step>)
    requires Inv(s) && s.area.size <= LOGSIZE && Run(s, steps).Some?
    ensures !Starved(Run(s, steps).value)
    decreases |steps|
  {
    hide DiskInv, OpsInv, TraceInv, HeaderInv, CacheInv, HomeInv, Loggable, TraceShape;
    if steps != [] {
      DoInv(s, steps[0]);
      Durability(s, steps[0]);
      NotStarved(Do(s, steps[0]).value, steps[1..]);
    } else if s.phase == Committing(0) {
      PinnedIsListed(s);
    }
  }

  // ---------------------------------------------------- operations' buffers

  /** Buffers that `bget` cannot recycle: in use, or pinned by the log. */
  ghost function Busy(s: State): set<nat> { set b | b in s.cache && (s.cache[b].user != Nobody || s.cache[b].dirty) }

  predicate SameUser(x: User, y: User) {
    x == y || (x.Writer? && y.Writer? && x.op == y.op)
  }

  /**
   No step but a crash takes a buffer away from whoever uses it, or one that the log pins: it stays in the cache,
   and with its user until that one releases it.
   */
  lemma {:induction false} BusyStays(s: State, step: Step, b: nat)
    requires Inv(s) && Do(s, step).Some? && step != Crash && b in Busy(s)
    ensures var t := Do(s, step).value;
            && b in t.cache
            && (s.cache[b].user != Nobody && step != Brelse(b) ==> SameUser(s.cache[b].user, t.cache[b].user))
  {
    hide OpsInv, TraceInv, HeaderInv, CacheInv, HomeInv, Loggable, TraceShape, CommitInv, RecoveryInv;
  }

  /** A buffer can be taken for another block exactly if it is not busy, and only this one leaves the cache. */
  lemma {:induction false} RecycleExactly(s: State, b: nat)
    requires Inv(s) && Live(s) && b in s.cache
    ensures Do(s, Recycle(b)).Some? <==> b !in Busy(s)
    ensures b !in Busy(s) ==> Do(s, Recycle(b)).value == s.(cache := map x | x in s.cache && x != b :: s.cache[x])
  {
    hide Inv;
    assert s.cache - {b} == map x | x in s.cache && x != b :: s.cache[x];
  }

  /** `who` may call `bread` for block b, with fewer than u buffers in use, and there is no buffer for it. */
  ghost predicate Meets(u: nat, s: State, b: nat, who: User)
    requires Shape(s)
  {
    BreadBlock(s, b, who).Some? && b !in s.cache && |InUse(s)| < u && |Busy(s)| >= NBUF
  }

  /** The log's longest header. */
  function MostLogged(a: Area): int { if a.size > LOGSIZE then LOGSIZE else a.size - 1 }

  lemma {:induction false} UnionAtMost(a: set<nat>, b: set<nat>, c: set<nat>)
    requires forall x :: x in a ==> x in b || x in c
    ensures |a| <= |b| + |c|
  {
    var rest := a * c;
    forall x
      ensures x in a <==> x in (a - c) + rest
    {
    }
    assert a == (a - c) + rest;
    SubsetSize(a - c, b);
    SubsetSize(rest, c);
    assert |a| == |(a - c) + rest| <= |a - c| + |rest|;
  }

  lemma {:induction false} SubsetSize(a: set<nat>, b: set<nat>)
    requires forall x :: x in a ==> x in b
    ensures |a| <= |b|
  {
    forall x
      ensures x in b <==> x in a + (b - a)
    {
    }
    assert b == a + (b - a);
  }

  /** What is busy is listed or in use. */
  lemma BusyBound(s: State)
    requires Inv(s) && Live(s)
    ensures |Busy(s)| <= MostLogged(s.area) + |InUse(s)|
  {
    hide DiskInv, TraceInv, HeaderInv, HomeInv, OpsInv, TraceShape;
    forall b | b in Pinned(s)
      ensures b in s.lh
    {
      assert BufInv(b, s.cache[b], s.ops, s.lh, s.phase, Now(s));
    }
    AtMost(s.lh, Pinned(s));
    forall b | b in Busy(s)
      ensures b in Pinned(s) || b in InUse(s)
    {
    }
    UnionAtMost(Busy(s), Pinned(s), InUse(s));
  }

  /** The log is as full as it gets, all its blocks are pinned, and j other blocks are being read. */
  ghost predicate Reading(s: State, m: nat, j: nat) {
    && s.phase == Running && |s.lh| == m && Distinct(s.lh) && |s.ops| == 3 && Quiet(s.ops, s.ops[0].id)
    && (forall b :: b in s.cache <==> b in s.lh || Base(s.area) + m <= b < Base(s.area) + m + j)
    && (forall b :: b in s.lh ==> b < Base(s.area) + m && s.cache[b] == Buf(s.cache[b].data, true, Nobody))
    && (forall b :: Base(s.area) + m <= b < Base(s.area) + m + j ==> s.cache[b].user == Reader)
  }

  function Span(lo: nat, n: nat): (r: seq<nat>)
    ensures |r| == n && Distinct(r)
  {
    seq(n, i requires 0 <= i < n => lo + i)
  }

  lemma SpanHas(lo: nat, n: nat)
    ensures forall b: nat :: b in Span(lo, n) <==> lo <= b < lo + n
  {
    forall b: nat | lo <= b < lo + n
      ensures b in Span(lo, n)
    {
      assert Span(lo, n)[b - lo] == b;
    }
  }

  lemma ReadingSizes(s: State, m: nat, j: nat)
    requires Reading(s, m, j)
    ensures |InUse(s)| == j && |s.cache| == m + j && |Busy(s)| == m + j
  {
    var read := Span(Base(s.area) + m, j);
    SpanHas(Base(s.area) + m, j);
    SetSize(read, InUse(s));
    assert Distinct(s.lh + read) by {
      forall x, y | 0 <= x < y < |s.lh + read|
        ensures (s.lh + read)[x] != (s.lh + read)[y]
      {
        if x < |s.lh| <= y {
          assert s.lh[x] in s.lh && read[y - |s.lh|] in read;
        }
      }
    }
    SetSize(s.lh + read, Busy(s));
    SetSize(s.lh + read, s.cache.Keys);
    assert |s.cache| == |s.cache.Keys|;
  }

  /** A filled log, with nothing being read yet. */
  lemma FilledReading(s: State, m: nat)
    requires Inv(s) && Filled(s, m)
    ensures Reading(s, m, 0)
  {
    hide DiskInv, TraceInv, HeaderInv, HomeInv, TraceShape;
    forall b | b in s.lh
      ensures b in s.cache && s.cache[b].dirty
    {
      assert Pending(s.lh, s.phase, b);
      assert BufInv(b, s.cache[b], s.ops, s.lh, s.phase, Now(s));
    }
  }

  lemma ReadingNext(s: State, m: nat, j: nat)
    requires Reading(s, m, j) && Base(s.area) + m + j < |s.disk|
    ensures var b := Base(s.area) + m + j;
            && b !in s.cache && !s.area.Holds(b) && BreadBlock(s, b, Reader).Some?
            && var t := BreadBlock(s, b, Reader).value;
               Reading(t, m, j + 1) && t.area == s.area && t.disk == s.disk
  {
  }

  /** One more reader. */
  lemma ReadMore(c: Count, u: nat, s0: State, steps: seq<Step>, s: State, m: nat, j: nat)
    returns (steps': seq<Step>, s': State)
    requires Inv(s0) && Inv(s) && Reached(c, s0, steps, s) && Frugal(u, s0, steps)
    requires Reading(s, m, j) && j < u && m + j < NBUF && Base(s.area) + m + j < |s.disk|
    ensures Inv(s') && Reached(c, s0, steps', s') && Frugal(u, s0, steps')
    ensures Reading(s', m, j + 1) && s'.area == s.area && |s'.disk| == |s.disk|
  {
    hide DiskInv, OpsInv, TraceInv, HeaderInv, CacheInv, HomeInv, Shape, Frugal, Reading, BreadBlock, InUse, Busy,
      Keeps;
    ReadingSizes(s, m, j);
    ReadingNext(s, m, j);
    var read := Bread(Base(s.area) + m + j, Reader);
    Extend(c, s0, steps, s, read);
    ExtendFrugal(u, s0, steps, s, read);
    DoInv(s, read);
    steps', s' := steps + [read], Do(s, read).value;
  }

  lemma {:induction false} MoreFrugal(u: nat, s: State, steps: seq<Step>)
    requires Inv(s) && u >= 1 && Frugal(1, s, steps)
    ensures Frugal(u, s, steps)
    decreases |steps|
  {
    hide DiskInv, OpsInv, TraceInv, HeaderInv, CacheInv, HomeInv, Loggable, TraceShape, Do;
    if steps != [] {
      DoInv(s, steps[0]);
      MoreFrugal(u, Do(s, steps[0]).value, steps[1..]);
    }
  }

  /** A run into the panic: the log is filled, then other blocks are read until no buffer is left. */
  lemma BusyRun(c: Count, u: nat, s0: State) returns (steps: seq<Step>, s: State, b: nat, who: User)
    requires Boot(s0) && Inv(s0) && Room(s0) && Base(s0.area) + NBUF < |s0.disk|
    requires u >= 1 && MostLogged(s0.area) + u > NBUF
    ensures Inv(s) && Reached(c, s0, steps, s) && Frugal(u, s0, steps) && Meets(u, s, b, who)
  {
    hide DiskInv, OpsInv, TraceInv, HeaderInv, CacheInv, HomeInv, Loggable, TraceShape, Frugal, Reached;
    var m: nat := MostLogged(s0.area);
    steps, s := FillTo(c, s0, m);
    MoreFrugal(u, s0, steps);
    FilledReading(s, m);
    var j := 0;
    while m + j < NBUF
      invariant Inv(s) && Reached(c, s0, steps, s) && Frugal(u, s0, steps) && m + j <= NBUF
      invariant Reading(s, m, j) && s.area == s0.area && |s.disk| == |s0.disk|
    {
      steps, s := ReadMore(c, u, s0, steps, s, m, j);
      j := j + 1;
    }
    ReadingSizes(s, m, j);
    b, who := Base(s.area) + NBUF, Writer(s.ops[0].id, false);
    assert Open(s.ops, s.ops[0].id);
  }

  ghost predicate MeetsPanic(c: Count, u: nat, s0: State, steps: seq<Step>, b: nat, who: User)
    requires Inv(s0)
  {
    Keeps(c, s0, steps) && Frugal(u, s0, steps) && Run(s0, steps).Some? && Meets(u, Run(s0, steps).value, b, who)
  }

  /**
   Exactly when operations that keep their promise, or readers beside them, can meet "bget: no buffers":
   with at most u buffers in use at a time, the one asked for included, when u and the longest header
   together exceed NBUF. With mkfs's log two buffers in use are enough.
   */
  lemma BuffersRunOut(c: Count, u: nat, s0: State)
    requires Boot(s0) && Inv(s0) && Room(s0) && Base(s0.area) + NBUF < |s0.disk| && u >= 1
    ensures (exists steps, b, who :: MeetsPanic(c, u, s0, steps, b, who)) <==> MostLogged(s0.area) + u > NBUF
  {
    hide DiskInv, OpsInv, TraceInv, HeaderInv, CacheInv, HomeInv, Loggable, TraceShape, Frugal, Keeps, Meets;
    if MostLogged(s0.area) + u > NBUF {
      var steps, s, b, who := BusyRun(c, u, s0);
      assert MeetsPanic(c, u, s0, steps, b, who);
    } else {
      forall steps, b, who
        ensures !MeetsPanic(c, u, s0, steps, b, who)
      {
        if MeetsPanic(c, u, s0, steps, b, who) {
          SameArea(s0, steps);
          NotMet(u, Run(s0, steps).value, b, who);
        }
      }
    }
  }

  lemma {:induction false} SameArea(s: State, steps: seq<Step>)
    requires Inv(s) && Run(s, steps).Some?
    ensures Run(s, steps).value.area == s.area
    decreases |steps|
  {
    hide DiskInv, OpsInv, TraceInv, HeaderInv, CacheInv, HomeInv, Loggable, TraceShape;
    if steps != [] {
      DoInv(s, steps[0]);
      Durability(s, steps[0]);
      SameArea(Do(s, steps[0]).value, steps[1..]);
    }
  }

  lemma NotMet(u: nat, s: State, b: nat, who: User)
    requires Inv(s) && Meets(u, s, b, who)
    ensures MostLogged(s.area) + u > NBUF
  {
    hide DiskInv, OpsInv, TraceInv, HeaderInv, CacheInv, HomeInv, Loggable, TraceShape;
    BusyBound(s);
  }
}
