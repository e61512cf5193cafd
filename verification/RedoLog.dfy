/**
 The on-disk side of the redo log: the header block, the block writes that
 `commit` and `recover_from_log` issue, and what a recovery makes of the disk
 when the machine stops between any two of those writes.

 A block is a sequence of 32-bit words (BSIZE / 4 of them in the header block);
 a disk is the sequence of its blocks; one block write is atomic.
 */
module RedoLog {

  const LOGSIZE: nat := 30
  const MAXOPBLOCKS: nat := 10
  const WORDS: nat := 128

  type Block = seq<nat>
  type Disk = seq<Block>

  datatype Write = Write(block: nat, data: Block)

  /** The log area: the header at `start`, then `size - 1` log blocks. */
  datatype Area = Area(start: nat, size: nat) {
    predicate Holds(b: nat) { start <= b < start + size }
  }

  // ---------------------------------------------------------------- header

  /** The block numbers a header block lists. */
  function Listed(h: Block): seq<nat>
    requires |h| == WORDS && h[0] < WORDS
  {
    h[1..1 + h[0]]
  }

  /** `write_head`: overwrite the count and the first |bs| entries, keep the rest. */
  function Header(h: Block, bs: seq<nat>): (r: Block)
    requires |h| == WORDS && |bs| < WORDS
    ensures |r| == WORDS && r[0] < WORDS && Listed(r) == bs
  {
    [|bs|] + bs + h[1 + |bs|..]
  }

  predicate Distinct(bs: seq<nat>) {
    forall i, j :: 0 <= i < j < |bs| ==> bs[i] != bs[j]
  }

  /** A list the log can hold: distinct home blocks of a disk of `n` blocks. */
  ghost predicate Loggable(n: nat, a: Area, bs: seq<nat>) {
    && |bs| < a.size && |bs| <= LOGSIZE
    && Distinct(bs)
    && (forall i :: 0 <= i < |bs| ==> bs[i] < n && !a.Holds(bs[i]))
  }

  predicate Mounted(d: Disk, a: Area) {
    0 < a.size && a.start + a.size <= |d| && |d[a.start]| == WORDS
  }

  /** The header on disk describes a transaction that recovery can install. */
  ghost predicate Intact(d: Disk, a: Area) {
    && Mounted(d, a)
    && d[a.start][0] < WORDS
    && Loggable(|d|, a, Listed(d[a.start]))
  }

  /** Equal outside the log area. */
  ghost predicate SameHome(x: Disk, y: Disk, a: Area) {
    |x| == |y| && forall b :: 0 <= b < |x| && !a.Holds(b) ==> x[b] == y[b]
  }

  /** The first position of `b` in `bs`. */
  function IndexOf(bs: seq<nat>, b: nat): (i: nat)
    requires b in bs
    ensures i < |bs| && bs[i] == b
  {
    if bs[0] == b then 0 else 1 + IndexOf(bs[1..], b)
  }

  /** What the disk means: its blocks, with the listed ones taken from the log. */
  function View(d: Disk, a: Area): (v: Disk)
    requires Mounted(d, a) && d[a.start][0] < WORDS && d[a.start][0] < a.size
    ensures |v| == |d|
  {
    seq(|d|, b requires 0 <= b < |d| => ViewAt(d, a, b))
  }

  function ViewAt(d: Disk, a: Area, b: nat): Block
    requires Mounted(d, a) && d[a.start][0] < WORDS && d[a.start][0] < a.size && b < |d|
  {
    var bs := Listed(d[a.start]);
    if b in bs then d[a.start + 1 + IndexOf(bs, b)] else d[b]
  }

  /** The disk after the transaction: listed blocks hold their cached contents. */
  function Installed(d: Disk, bs: seq<nat>, cache: map<nat, Block>): (r: Disk)
    requires forall b :: b in bs ==> b in cache
    ensures |r| == |d|
  {
    seq(|d|, b requires 0 <= b < |d| => if b in bs then cache[b] else d[b])
  }

  function Apply(d: Disk, ws: seq<Write>): (r: Disk)
    requires forall i :: 0 <= i < |ws| ==> ws[i].block < |d|
    ensures |r| == |d|
  {
    if ws == [] then d
    else
      var last := ws[|ws| - 1];
      Apply(d, ws[..|ws| - 1])[last.block := last.data]
  }

  // ---------------------------------------------------------------- commit

  ghost predicate CanCommit(d: Disk, a: Area, bs: seq<nat>, cache: map<nat, Block>) {
    && Mounted(d, a) && d[a.start][0] == 0
    && Loggable(|d|, a, bs)
    && forall b :: b in bs ==> b in cache
  }

  /**
   The k-th block write of `commit` (log blocks, header, home blocks, cleared header), given the
   present header block and the contents being copied.
   */
  function WriteNow(a: Area, bs: seq<nat>, k: nat, head: Block, body: Block): Write
    requires |bs| < WORDS && |head| == WORDS && k < 2 * |bs| + 2
  {
    var n := |bs|;
    if k < n then Write(a.start + 1 + k, body)
    else if k == n then Write(a.start, Header(head, bs))
    else if k <= 2 * n then Write(bs[k - n - 1], body)
    else Write(a.start, Header(head, []))
  }

  function CommitWrite(d: Disk, a: Area, bs: seq<nat>, cache: map<nat, Block>, k: nat): Write
    requires Mounted(d, a) && |bs| < WORDS && k < 2 * |bs| + 2
    requires forall b :: b in bs ==> b in cache
  {
    var n := |bs|;
    var head := if k <= n then d[a.start] else Header(d[a.start], bs);
    var body := if k < n then cache[bs[k]] else if n < k <= 2 * n then cache[bs[k - n - 1]] else [];
    WriteNow(a, bs, k, head, body)
  }

  /** All block writes of `commit`; none when nothing was logged. */
  function CommitWrites(d: Disk, a: Area, bs: seq<nat>, cache: map<nat, Block>): (ws: seq<Write>)
    requires Mounted(d, a) && |bs| < WORDS
    requires forall b :: b in bs ==> b in cache
    ensures |ws| == if bs == [] then 0 else 2 * |bs| + 2
  {
    if bs == [] then [] else
    seq(2 * |bs| + 2, k requires 0 <= k < 2 * |bs| + 2 => CommitWrite(d, a, bs, cache, k))
  }

  /** Block `b` after the first k writes of `commit`. */
  function CommitAt(d: Disk, a: Area, bs: seq<nat>, cache: map<nat, Block>, k: nat, b: nat): Block
    requires Mounted(d, a) && |bs| < WORDS && k <= 2 * |bs| + 2 && b < |d|
    requires forall b :: b in bs ==> b in cache
  {
    var n := |bs|;
    if b == a.start then
      if k <= n then d[b]
      else if k <= 2 * n + 1 then Header(d[b], bs)
      else Header(Header(d[b], bs), [])
    else if a.start < b <= a.start + n && b <= a.start + k then cache[bs[b - a.start - 1]]
    else if b in bs && IndexOf(bs, b) + n + 1 < k then cache[b]
    else d[b]
  }

  function CommitState(d: Disk, a: Area, bs: seq<nat>, cache: map<nat, Block>, k: nat): (r: Disk)
    requires Mounted(d, a) && |bs| < WORDS && k <= 2 * |bs| + 2
    requires forall b :: b in bs ==> b in cache
    ensures |r| == |d|
  {
    seq(|d|, b requires 0 <= b < |d| => CommitAt(d, a, bs, cache, k, b))
  }

  lemma IndexOfDistinct(bs: seq<nat>, i: nat)
    requires Distinct(bs) && i < |bs|
    ensures IndexOf(bs, bs[i]) == i
  {
  }

  /** One more write of `commit` takes one closed form to the next. */
  lemma CommitStep(d: Disk, a: Area, bs: seq<nat>, cache: map<nat, Block>, k: nat)
    requires CanCommit(d, a, bs, cache) && k < 2 * |bs| + 2
    ensures var w := CommitWrite(d, a, bs, cache, k);
            w.block < |d| &&
            CommitState(d, a, bs, cache, k + 1) == CommitState(d, a, bs, cache, k)[w.block := w.data]
  {
    var w := CommitWrite(d, a, bs, cache, k);
    forall b: nat | b < |d|
      ensures CommitAt(d, a, bs, cache, k + 1, b) == if b == w.block then w.data else CommitAt(d, a, bs, cache, k, b)
    {
      CommitStepAt(d, a, bs, cache, k, b);
    }
  }

  lemma CommitStepAt(d: Disk, a: Area, bs: seq<nat>, cache: map<nat, Block>, k: nat, b: nat)
    requires CanCommit(d, a, bs, cache) && k < 2 * |bs| + 2 && b < |d|
    ensures var w := CommitWrite(d, a, bs, cache, k);
            w.block < |d| &&
            CommitAt(d, a, bs, cache, k + 1, b) == if b == w.block then w.data else CommitAt(d, a, bs, cache, k, b)
  {
    hide Header;
    if |bs| < k <= 2 * |bs| {
      IndexOfDistinct(bs, k - |bs| - 1);
    }
  }

  lemma CommitInRange(d: Disk, a: Area, bs: seq<nat>, cache: map<nat, Block>)
    requires CanCommit(d, a, bs, cache)
    ensures forall w :: w in CommitWrites(d, a, bs, cache) ==> w.block < |d|
  {
    forall k: nat | k < |CommitWrites(d, a, bs, cache)|
      ensures CommitWrites(d, a, bs, cache)[k].block < |d|
    {
      CommitStep(d, a, bs, cache, k);
    }
  }

  /** Writing the first k blocks of `commit` gives the closed form. */
  lemma {:induction false} CommitPrefix(d: Disk, a: Area, bs: seq<nat>, cache: map<nat, Block>, ws: seq<Write>)
    requires CanCommit(d, a, bs, cache)
    requires ws <= CommitWrites(d, a, bs, cache)
    requires forall w :: w in ws ==> w.block < |d|
    ensures |ws| <= 2 * |bs| + 2
    ensures Apply(d, ws) == CommitState(d, a, bs, cache, |ws|)
  {
    var k := |ws|;
    if k == 0 {
      assert CommitState(d, a, bs, cache, 0) == d;
    } else {
      var before := ws[..k - 1];
      CommitPrefix(d, a, bs, cache, before);
      CommitStep(d, a, bs, cache, k - 1);
      assert ws[k - 1] == CommitWrites(d, a, bs, cache)[k - 1];
    }
  }

  /** A crash after k writes leaves the old blocks up to the header write and the new ones from it on. */
  lemma CommitView(d: Disk, a: Area, bs: seq<nat>, cache: map<nat, Block>, k: nat)
    requires CanCommit(d, a, bs, cache) && k <= 2 * |bs| + 2
    ensures Intact(CommitState(d, a, bs, cache, k), a)
    ensures SameHome(View(CommitState(d, a, bs, cache, k), a),
                     if k <= |bs| then d else Installed(d, bs, cache), a)
  {
    var n := |bs|;
    var c := CommitState(d, a, bs, cache, k);
    if n < k <= 2 * n + 1 {
      CommitViewPending(d, a, bs, cache, k);
    } else {
      assert c[a.start][0] == 0;
      assert Listed(c[a.start]) == [];
    }
  }

  lemma CommitViewPending(d: Disk, a: Area, bs: seq<nat>, cache: map<nat, Block>, k: nat)
    requires CanCommit(d, a, bs, cache) && |bs| < k <= 2 * |bs| + 1
    ensures Intact(CommitState(d, a, bs, cache, k), a)
    ensures SameHome(View(CommitState(d, a, bs, cache, k), a), Installed(d, bs, cache), a)
  {
    var c := CommitState(d, a, bs, cache, k);
    assert c[a.start] == Header(d[a.start], bs);
    forall b: nat | b < |d| && !a.Holds(b) ensures ViewAt(c, a, b) == Installed(d, bs, cache)[b] {
      if b in bs {
        CommittedLog(d, a, bs, cache, k, IndexOf(bs, b));
      }
    }
  }

  lemma CommittedLog(d: Disk, a: Area, bs: seq<nat>, cache: map<nat, Block>, k: nat, i: nat)
    requires CanCommit(d, a, bs, cache) && |bs| < k <= 2 * |bs| + 2 && i < |bs|
    ensures CommitState(d, a, bs, cache, k)[a.start + 1 + i] == cache[bs[i]]
  {
  }

  // -------------------------------------------------------------- recovery

  function RecoverLength(d: Disk, a: Area): nat
    requires Mounted(d, a)
  {
    d[a.start][0] + 1
  }

  /** The k-th block write of `recover_from_log`: home blocks, then the cleared header. */
  function RecoverWrite(d: Disk, a: Area, k: nat): Write
    requires Mounted(d, a) && d[a.start][0] < WORDS && d[a.start][0] < a.size
    requires k < RecoverLength(d, a)
  {
    var bs := Listed(d[a.start]);
    if k < |bs| then Write(bs[k], d[a.start + 1 + k]) else Write(a.start, Header(d[a.start], []))
  }

  function RecoverWrites(d: Disk, a: Area): seq<Write>
    requires Mounted(d, a) && d[a.start][0] < WORDS && d[a.start][0] < a.size
  {
    seq(RecoverLength(d, a), k requires 0 <= k < RecoverLength(d, a) => RecoverWrite(d, a, k))
  }

  /** Block `b` after the first k writes of `recover_from_log`. */
  function RecoverAt(d: Disk, a: Area, k: nat, b: nat): Block
    requires Mounted(d, a) && d[a.start][0] < WORDS && d[a.start][0] < a.size
    requires k <= RecoverLength(d, a) && b < |d|
  {
    var bs := Listed(d[a.start]);
    if b == a.start then if k <= |bs| then d[b] else Header(d[b], [])
    else if b in bs && IndexOf(bs, b) < k then d[a.start + 1 + IndexOf(bs, b)]
    else d[b]
  }

  function RecoverState(d: Disk, a: Area, k: nat): (r: Disk)
    requires Mounted(d, a) && d[a.start][0] < WORDS && d[a.start][0] < a.size
    requires k <= RecoverLength(d, a)
    ensures |r| == |d|
  {
    seq(|d|, b requires 0 <= b < |d| => RecoverAt(d, a, k, b))
  }

  lemma RecoverStep(d: Disk, a: Area, k: nat)
    requires Intact(d, a) && k < RecoverLength(d, a)
    ensures var w := RecoverWrite(d, a, k);
            w.block < |d| && RecoverState(d, a, k + 1) == RecoverState(d, a, k)[w.block := w.data]
  {
    var w := RecoverWrite(d, a, k);
    forall b: nat | b < |d|
      ensures RecoverAt(d, a, k + 1, b) == if b == w.block then w.data else RecoverAt(d, a, k, b)
    {
      RecoverStepAt(d, a, k, b);
    }
  }

  lemma RecoverStepAt(d: Disk, a: Area, k: nat, b: nat)
    requires Intact(d, a) && k < RecoverLength(d, a) && b < |d|
    ensures var w := RecoverWrite(d, a, k);
            w.block < |d| && RecoverAt(d, a, k + 1, b) == if b == w.block then w.data else RecoverAt(d, a, k, b)
  {
    var bs := Listed(d[a.start]);
    if k < |bs| {
      IndexOfDistinct(bs, k);
    }
  }

  lemma {:induction false} RecoverPrefix(d: Disk, a: Area, ws: seq<Write>)
    requires Intact(d, a)
    requires ws <= RecoverWrites(d, a)
    requires forall w :: w in ws ==> w.block < |d|
    ensures Apply(d, ws) == RecoverState(d, a, |ws|)
  {
    var k := |ws|;
    if k == 0 {
      assert RecoverState(d, a, 0) == d;
    } else {
      assert ws[k - 1] == RecoverWrite(d, a, k - 1);
      RecoverPrefix(d, a, ws[..k - 1]);
      RecoverStep(d, a, k - 1);
    }
  }

  /** A recovery stopped after any number of its writes still means the same disk. */
  lemma RecoverView(d: Disk, a: Area, k: nat)
    requires Intact(d, a) && k <= RecoverLength(d, a)
    ensures Intact(RecoverState(d, a, k), a)
    ensures SameHome(View(RecoverState(d, a, k), a), View(d, a), a)
    ensures k == RecoverLength(d, a) ==>
              SameHome(RecoverState(d, a, k), View(d, a), a) && RecoverState(d, a, k)[a.start][0] == 0
  {
    var c := RecoverState(d, a, k);
    if k < RecoverLength(d, a) {
      assert c[a.start] == d[a.start];
      forall b: nat | b < |d| && !a.Holds(b) ensures ViewAt(c, a, b) == ViewAt(d, a, b) {
        RecoverViewAt(d, a, k, b);
      }
    } else {
      assert c[a.start] == Header(d[a.start], []);
      forall b: nat | b < |d| && !a.Holds(b) ensures ViewAt(c, a, b) == c[b] == ViewAt(d, a, b) {
      }
    }
  }

  lemma RecoverViewAt(d: Disk, a: Area, k: nat, b: nat)
    requires Intact(d, a) && k < RecoverLength(d, a) && b < |d| && !a.Holds(b)
    requires RecoverState(d, a, k)[a.start] == d[a.start]
    ensures ViewAt(RecoverState(d, a, k), a, b) == ViewAt(d, a, b)
  {
    var bs := Listed(d[a.start]);
    if b in bs {
      RecoverKeepsLog(d, a, k, IndexOf(bs, b));
    }
  }

  lemma RecoverKeepsLog(d: Disk, a: Area, k: nat, i: nat)
    requires Intact(d, a) && k <= RecoverLength(d, a) && i < |Listed(d[a.start])|
    ensures RecoverState(d, a, k)[a.start + 1 + i] == d[a.start + 1 + i]
  {
    assert a.Holds(a.start + 1 + i);
  }

  /** Recoveries interrupted after the given numbers of writes (or finished, for large numbers). */
  ghost function Interrupted(d: Disk, a: Area, stops: seq<nat>): (r: Disk)
    requires Intact(d, a)
    ensures Intact(r, a) && SameHome(View(r, a), View(d, a), a)
    decreases |stops|
  {
    if stops == [] then d else
    var n := RecoverLength(d, a);
    var k := if stops[0] < n then stops[0] else n;
    RecoverView(d, a, k);
    Interrupted(RecoverState(d, a, k), a, stops[1..])
  }

  /**
   Crash atomicity. Stop `commit` after any prefix `ws` of its writes, stop the recovery any number
   of times, then let one recovery finish: the home blocks are all old when the header write is not
   in the prefix, all new when it is, and the log is empty.
   */
  lemma CrashAtomicity(d: Disk, a: Area, bs: seq<nat>, cache: map<nat, Block>, ws: seq<Write>, stops: seq<nat>)
    requires CanCommit(d, a, bs, cache)
    requires ws <= CommitWrites(d, a, bs, cache)
    requires forall w :: w in ws ==> w.block < |d|
    ensures Intact(Apply(d, ws), a)
    ensures var c := Interrupted(Apply(d, ws), a, stops);
            var r := RecoverState(c, a, RecoverLength(c, a));
            && SameHome(r, if |ws| <= |bs| then d else Installed(d, bs, cache), a)
            && r[a.start][0] == 0
  {
    CommitPrefix(d, a, bs, cache, ws);
    CommitView(d, a, bs, cache, |ws|);
    var c := Interrupted(Apply(d, ws), a, stops);
    RecoverView(c, a, RecoverLength(c, a));
  }

  // ------------------------------------------------- a log that is too long

  /** Some log copy of `commit` goes to a block past the log area exactly when the list has area.size blocks. */
  lemma PastArea(d: Disk, a: Area, bs: seq<nat>, cache: map<nat, Block>)
    requires Mounted(d, a) && |bs| < WORDS && forall b :: b in bs ==> b in cache
    ensures (exists k :: 0 <= k < |bs| && !a.Holds(CommitWrite(d, a, bs, cache, k).block)) <==> |bs| >= a.size
  {
    if |bs| >= a.size {
      assert !a.Holds(CommitWrite(d, a, bs, cache, a.size - 1).block);
    }
  }

  /** The first k log copies leave the header and write the blocks after it. */
  lemma {:induction false} CopiesOnly(d: Disk, a: Area, bs: seq<nat>, cache: map<nat, Block>, k: nat)
    requires Mounted(d, a) && |bs| < WORDS && k <= |bs| && a.start + |bs| < |d| && forall b :: b in bs ==> b in cache
    ensures var ws := CommitWrites(d, a, bs, cache)[..k];
            && (forall i :: 0 <= i < |ws| ==> ws[i].block < |d|)
            && Apply(d, ws)[a.start] == d[a.start] && (k > 0 ==> Apply(d, ws)[a.start + k] == cache[bs[k - 1]])
  {
    if k > 0 {
      CopiesOnly(d, a, bs, cache, k - 1);
      var all := CommitWrites(d, a, bs, cache);
      assert all[..k][..k - 1] == all[..k - 1];
    }
  }

  /**
   With area.size blocks in the list, the last log copy overwrites the home block behind the log area.
   Nothing is committed yet, so a crash now leaves that block changed.
   */
  lemma Spill(d: Disk, a: Area, bs: seq<nat>, cache: map<nat, Block>)
    requires Mounted(d, a) && d[a.start][0] == 0 && a.start + a.size < |d|
    requires |bs| == a.size < WORDS && forall b :: b in bs ==> b in cache
    ensures var ws := CommitWrites(d, a, bs, cache)[..|bs|];
            && (forall i :: 0 <= i < |ws| ==> ws[i].block < |d|)
            && Mounted(Apply(d, ws), a) && Apply(d, ws)[a.start][0] == 0 && !a.Holds(a.start + a.size)
            && View(Apply(d, ws), a)[a.start + a.size] == cache[bs[|bs| - 1]]
  {
    CopiesOnly(d, a, bs, cache, |bs|);
    var r := Apply(d, CommitWrites(d, a, bs, cache)[..|bs|]);
    assert Listed(r[a.start]) == [];
  }
}
