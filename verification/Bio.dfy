/**
 The buffer cache as a machine of atomic steps, taken by any processes in any order: finding or
 recycling a buffer, taking its lock, disk transfers, changes by the lock's holder, release. The
 cache is transparent: a block's contents, seen through it, change only when a holder changes them.
 */
module Bio {

  const NBUF := 30

  type Block = seq<int>
  datatype Key = Key(dev: int, blockno: int)

  datatype Buf = Buf(key: Key, refcnt: int, valid: bool, dirty: bool, locked: bool, data: Block)

  /** `order` is the list from most to least recently used; stamp[b] is when b was last released. */
  datatype State = State(bufs: seq<Buf>, order: seq<int>, disk: map<Key, Block>, stamp: seq<int>, now: int)

  function OnDisk(disk: map<Key, Block>, k: Key): Block { if k in disk then disk[k] else [] }

  // ---------------------------------------------------------------- bget

  /** The first buffer of the list that caches k, or -1. */
  function FindKey(bufs: seq<Buf>, order: seq<int>, k: Key): int
    requires InRange(order, |bufs|)
  {
    if order == [] then -1 else if bufs[order[0]].key == k then order[0] else FindKey(bufs, order[1..], k)
  }

  predicate InRange(order: seq<int>, n: int) { forall i :: 0 <= i < |order| ==> 0 <= order[i] < n }

  predicate Spare(b: Buf) { b.refcnt == 0 && !b.dirty }

  /** The last buffer of the list that may be recycled, or -1. */
  function FindSpare(bufs: seq<Buf>, order: seq<int>): int
    requires InRange(order, |bufs|)
  {
    if order == [] then -1
    else if Spare(bufs[order[|order| - 1]]) then order[|order| - 1]
    else FindSpare(bufs, order[..|order| - 1])
  }

  /** The buffer that `bget` picks, or -1 for its panic. */
  function Pick(s: State, k: Key): int
    requires Shape(s)
  {
    var hit := FindKey(s.bufs, s.order, k);
    if hit != -1 then hit else FindSpare(s.bufs, s.order)
  }

  /** What `bget` makes of the buffer it picked. */
  function Claimed(b: Buf, k: Key): Buf {
    if b.key == k then b.(refcnt := b.refcnt + 1) else Buf(k, 1, false, false, b.locked, b.data)
  }

  function Set(s: State, b: int, buf: Buf): State
    requires 0 <= b < |s.bufs|
  {
    s.(bufs := s.bufs[b := buf])
  }

  // --------------------------------------------------------------- steps

  datatype Step =
    | Get(k: Key)                    // bget, up to its release of bcache.lock
    | Lock(b: int)                   // acquiresleep
    | ReadIn(b: int)                 // iderw of a buffer that is not valid
    | Modify(b: int, data: Block)    // the holder changes the data, to be logged or written
    | MarkDirty(b: int)              // log_write
    | WriteOut(b: int)               // bwrite
    | Unlock(b: int)                 // releasesleep in brelse
    | Put(b: int)                    // the rest of brelse

  /** The list after b has gone to its head. */
  function ToFront(order: seq<int>, b: int): seq<int> { [b] + Without(order, b) }

  function Without(order: seq<int>, b: int): seq<int> {
    if order == [] then [] else (if order[0] == b then [] else [order[0]]) + Without(order[1..], b)
  }

  predicate Shape(s: State) {
    |s.bufs| == NBUF == |s.stamp| && InRange(s.order, NBUF)
  }

  /** What the code's own checks and its callers' discipline demand of a step. */
  predicate May(s: State, step: Step) {
    && Shape(s)
    && match step
       case Get(k) => k.dev != 0 && Pick(s, k) != -1
       case Lock(b) => 0 <= b < NBUF && !s.bufs[b].locked && s.bufs[b].refcnt > 0
       case ReadIn(b) => 0 <= b < NBUF && s.bufs[b].locked && !s.bufs[b].valid
       case Modify(b, _) => 0 <= b < NBUF && s.bufs[b].locked && s.bufs[b].valid
       case MarkDirty(b) => 0 <= b < NBUF && s.bufs[b].locked && s.bufs[b].valid
       case WriteOut(b) => 0 <= b < NBUF && s.bufs[b].locked && s.bufs[b].valid
       case Unlock(b) => 0 <= b < NBUF && s.bufs[b].locked && s.bufs[b].valid && Saved(s, b)
       case Put(b) => 0 <= b < NBUF && s.bufs[b].refcnt > if s.bufs[b].locked then 1 else 0
  }

  /** The holder's changes, if any, have been logged or written. */
  predicate Saved(s: State, b: int)
    requires 0 <= b < |s.bufs|
  {
    s.bufs[b].dirty || s.bufs[b].data == OnDisk(s.disk, s.bufs[b].key)
  }

  function Do(s: State, step: Step): State
    requires May(s, step)
  {
    match step
    case Get(k) => var b := Pick(s, k); PickRange(s, k); Set(s, b, Claimed(s.bufs[b], k))
    case Lock(b) => Set(s, b, s.bufs[b].(locked := true))
    case ReadIn(b) => Set(s, b, s.bufs[b].(valid := true, data := OnDisk(s.disk, s.bufs[b].key)))
    case Modify(b, data) => Set(s, b, s.bufs[b].(data := data))
    case MarkDirty(b) => Set(s, b, s.bufs[b].(dirty := true))
    case WriteOut(b) =>
      Set(s, b, s.bufs[b].(dirty := false)).(disk := s.disk[s.bufs[b].key := s.bufs[b].data])
    case Unlock(b) => Set(s, b, s.bufs[b].(locked := false))
    case Put(b) =>
      var t := Set(s, b, s.bufs[b].(refcnt := s.bufs[b].refcnt - 1));
      if s.bufs[b].refcnt != 1 then t
      else t.(order := ToFront(s.order, b), stamp := s.stamp[b := s.now], now := s.now + 1)
  }

  lemma PickRange(s: State, k: Key)
    requires Shape(s) && Pick(s, k) != -1
    ensures 0 <= Pick(s, k) < NBUF
  {
    Finds(s.bufs, s.order, k);
    FindsSpare(s.bufs, s.order);
  }

  lemma {:induction false} Finds(bufs: seq<Buf>, order: seq<int>, k: Key)
    requires InRange(order, |bufs|)
    ensures var b := FindKey(bufs, order, k);
            if b == -1 then forall i :: 0 <= i < |order| ==> bufs[order[i]].key != k
            else b in order && 0 <= b < |bufs| && bufs[b].key == k
  {
    if order != [] {
      Finds(bufs, order[1..], k);
      assert forall i :: 0 < i < |order| ==> order[i] == order[1..][i - 1];
    }
  }

  /** The recycled buffer is the last in the list of those that may be. */
  lemma {:induction false} FindsSpare(bufs: seq<Buf>, order: seq<int>)
    requires InRange(order, |bufs|)
    ensures var b := FindSpare(bufs, order);
            if b == -1 then forall i :: 0 <= i < |order| ==> !Spare(bufs[order[i]])
            else 0 <= b < |bufs| && Spare(bufs[b]) && LastSpare(bufs, order, b)
  {
    if order != [] {
      var n := |order| - 1;
      if Spare(bufs[order[n]]) {
        assert At(order, n, order[n]);
      } else {
        FindsSpare(bufs, order[..n]);
        var b := FindSpare(bufs, order);
        if b != -1 {
          var i :| At(order[..n], i, b) && forall j :: i < j < n ==> !Spare(bufs[order[..n][j]]);
          assert forall j :: i < j < n ==> order[..n][j] == order[j];
          assert At(order, i, b);
        }
      }
    }
  }

  predicate At(order: seq<int>, i: int, b: int) { 0 <= i < |order| && order[i] == b }

  ghost predicate LastSpare(bufs: seq<Buf>, order: seq<int>, b: int)
    requires InRange(order, |bufs|)
  {
    exists i :: At(order, i, b) && forall j :: i < j < |order| ==> !Spare(bufs[order[j]])
  }

  // ------------------------------------------------------------ invariant

  /** Facts about one buffer. */
  predicate BufOk(s: State, b: int)
    requires 0 <= b < |s.bufs|
  {
    var x := s.bufs[b];
    && 0 <= x.refcnt && (x.locked ==> x.refcnt > 0) && (x.dirty ==> x.valid)
    && (x.key.dev == 0 ==> !x.valid && x.refcnt == 0)
    && (x.valid && !x.dirty && !x.locked ==> x.data == OnDisk(s.disk, x.key))
  }

  /** No block of a real device is in two buffers. */
  predicate Unique(s: State) {
    forall i, j :: 0 <= i < j < |s.bufs| && s.bufs[i].key == s.bufs[j].key ==> s.bufs[i].key.dev == 0
  }

  /** The list holds every buffer once, latest release first. */
  ghost predicate Ordered(s: State)
    requires Shape(s)
  {
    && |s.order| == NBUF && Descending(s.order, s.stamp)
    && (forall b :: 0 <= b < NBUF ==> s.stamp[b] < s.now && b in s.order)
  }

  ghost predicate Inv(s: State) {
    Shape(s) && Ordered(s) && Unique(s) && forall b :: 0 <= b < NBUF ==> BufOk(s, b)
  }

  /** `binit`: each buffer is inserted at the head, the last one in front. */
  function Init(disk: map<Key, Block>): State {
    State(seq(NBUF, _ => Buf(Key(0, 0), 0, false, false, false, [])), seq(NBUF, i => NBUF - 1 - i), disk,
          seq(NBUF, i => i), NBUF)
  }

  lemma {:induction false} InitInv(disk: map<Key, Block>)
    ensures Inv(Init(disk))
  {
    var s := Init(disk);
    forall b | 0 <= b < NBUF
      ensures s.stamp[b] < s.now && b in s.order
    {
      assert s.order[NBUF - 1 - b] == b;
    }
  }

  predicate Descending(order: seq<int>, stamp: seq<int>)
    requires InRange(order, |stamp|)
  {
    forall i, j :: 0 <= i < j < |order| ==> stamp[order[i]] > stamp[order[j]]
  }

  lemma {:induction false} WithoutMembers(order: seq<int>, b: int)
    ensures forall x :: x in Without(order, b) <==> x in order && x != b
  {
    if order != [] {
      WithoutMembers(order[1..], b);
      assert order == [order[0]] + order[1..];
    }
  }

  lemma DescendingTail(order: seq<int>, stamp: seq<int>)
    requires order != [] && InRange(order, |stamp|) && Descending(order, stamp)
    ensures InRange(order[1..], |stamp|) && Descending(order[1..], stamp)
    ensures forall x :: x in order[1..] ==> stamp[order[0]] > stamp[x]
  {
    var tail := order[1..];
    assert forall i :: 0 <= i < |tail| ==> tail[i] == order[i + 1];
  }

  lemma DescendingCons(x: int, r: seq<int>, stamp: seq<int>)
    requires InRange(r, |stamp|) && Descending(r, stamp) && 0 <= x < |stamp|
    requires forall y :: y in r ==> stamp[x] > stamp[y]
    ensures InRange([x] + r, |stamp|) && Descending([x] + r, stamp)
  {
    var q := [x] + r;
    assert forall i :: 0 < i < |q| ==> q[i] == r[i - 1] && q[i] in r;
  }

  lemma {:induction false} WithoutOrder(order: seq<int>, b: int, stamp: seq<int>)
    requires InRange(order, |stamp|) && Descending(order, stamp)
    ensures var r := Without(order, b);
            |r| == |order| - (if b in order then 1 else 0) && InRange(r, |stamp|) && Descending(r, stamp)
  {
    hide Descending, InRange;
    if order == [] {
      NothingDescends(stamp);
    } else {
      var tail := order[1..];
      assert order == [order[0]] + tail;
      DescendingTail(order, stamp);
      WithoutOrder(tail, b, stamp);
      WithoutMembers(tail, b);
      if order[0] != b {
        HeadInRange(order, |stamp|);
        DescendingCons(order[0], Without(tail, b), stamp);
      } else {
        assert b !in tail && Without(order, b) == Without(tail, b);
      }
    }
  }

  lemma NothingDescends(stamp: seq<int>)
    ensures InRange([], |stamp|) && Descending([], stamp)
  {
  }

  lemma HeadInRange(order: seq<int>, n: int)
    requires order != [] && InRange(order, n)
    ensures 0 <= order[0] < n
  {
  }

  /** A step that changes buffer b alone, and perhaps its block on disk. */
  lemma {:induction false} SetInv(s: State, b: int, x: Buf, disk: map<Key, Block>)
    requires Inv(s) && 0 <= b < NBUF
    requires x.key.dev != 0 && (forall i :: 0 <= i < NBUF && i != b ==> s.bufs[i].key != x.key)
    requires forall k :: k != x.key ==> OnDisk(disk, k) == OnDisk(s.disk, k)
    requires BufOk(Set(s, b, x).(disk := disk), b)
    ensures Inv(Set(s, b, x).(disk := disk))
  {
    var t := Set(s, b, x).(disk := disk);
    assert Ordered(t) by { SameOrder(s, t); }
    forall i | 0 <= i < NBUF
      ensures BufOk(t, i)
    {
      assert BufOk(s, i);
    }
  }

  lemma SameOrder(s: State, t: State)
    requires Shape(s) && Shape(t) && Ordered(s) && t.order == s.order && t.stamp == s.stamp && t.now == s.now
    ensures Ordered(t)
  {
  }

  /** A referenced buffer's block is in no other buffer. */
  lemma Alone(s: State, b: int)
    requires Inv(s) && 0 <= b < NBUF && (s.bufs[b].refcnt > 0 || s.bufs[b].valid)
    ensures s.bufs[b].key.dev != 0 && forall i :: 0 <= i < NBUF && i != b ==> s.bufs[i].key != s.bufs[b].key
  {
    hide Ordered;
    assert BufOk(s, b);
  }

  lemma {:induction false} GetInv(s: State, k: Key)
    requires Inv(s) && May(s, Get(k))
    ensures Inv(Do(s, Get(k)))
  {
    hide Ordered, Pick;
    var b := Pick(s, k);
    PickRange(s, k);
    PickKey(s, k);
    assert BufOk(s, b);
    if s.bufs[b].key == k {
      Alone'(s, b);
    }
    SetInv(s, b, Claimed(s.bufs[b], k), s.disk);
  }

  lemma Alone'(s: State, b: int)
    requires Unique(s) && 0 <= b < |s.bufs| && s.bufs[b].key.dev != 0
    ensures forall i :: 0 <= i < |s.bufs| && i != b ==> s.bufs[i].key != s.bufs[b].key
  {
  }

  /** `bget` picks the buffer of k, or one that may be recycled when no buffer has k. */
  lemma {:induction false} PickKey(s: State, k: Key)
    requires Inv(s) && Pick(s, k) != -1
    ensures 0 <= Pick(s, k) < NBUF
    ensures var b := s.bufs[Pick(s, k)];
            b.key == k || (Spare(b) && forall i :: 0 <= i < NBUF ==> s.bufs[i].key != k)
  {
    Finds(s.bufs, s.order, k);
    FindsSpare(s.bufs, s.order);
    SearchedAll(s, k);
  }

  /** What the two searches of the list did not find is in no buffer. */
  lemma {:induction false} SearchedAll(s: State, k: Key)
    requires Shape(s) && Ordered(s)
    ensures FindKey(s.bufs, s.order, k) == -1 ==> forall b :: 0 <= b < NBUF ==> s.bufs[b].key != k
    ensures FindSpare(s.bufs, s.order) == -1 ==> forall b :: 0 <= b < NBUF ==> !Spare(s.bufs[b])
  {
    hide FindKey, FindSpare, Spare;
    Finds(s.bufs, s.order, k);
    FindsSpare(s.bufs, s.order);
    forall b | 0 <= b < NBUF
      ensures FindKey(s.bufs, s.order, k) == -1 ==> s.bufs[b].key != k
      ensures FindSpare(s.bufs, s.order) == -1 ==> !Spare(s.bufs[b])
    {
      assert b in s.order;
      var i :| 0 <= i < |s.order| && s.order[i] == b;
    }
  }

  lemma {:induction false} PutInv(s: State, b: int)
    requires Inv(s) && May(s, Put(b))
    ensures Inv(Do(s, Put(b)))
  {
    hide Ordered;
    var x := s.bufs[b].(refcnt := s.bufs[b].refcnt - 1);
    assert BufOk(s, b);
    Alone(s, b);
    SetInv(s, b, x, s.disk);
    var t := Do(s, Put(b));
    assert t.bufs == Set(s, b, x).bufs && t.disk == s.disk;
    if s.bufs[b].refcnt == 1 {
      FrontOrdered(s, b);
      SameOrder(s.(order := ToFront(s.order, b), stamp := s.stamp[b := s.now], now := s.now + 1), t);
      forall i | 0 <= i < NBUF
        ensures BufOk(t, i)
      {
        assert BufOk(Set(s, b, x), i);
      }
    }
  }

  lemma {:induction false} FrontOrdered(s: State, b: int)
    requires Shape(s) && Ordered(s) && 0 <= b < NBUF
    ensures InRange(ToFront(s.order, b), NBUF)
    ensures Ordered(s.(order := ToFront(s.order, b), stamp := s.stamp[b := s.now], now := s.now + 1))
  {
    WithoutOrder(s.order, b, s.stamp);
    WithoutMembers(s.order, b);
    var r, order, stamp := Without(s.order, b), ToFront(s.order, b), s.stamp[b := s.now];
    forall i, j | 0 <= i < j < |order|
      ensures stamp[order[i]] > stamp[order[j]]
    {
      assert order[j] == r[j - 1] && r[j - 1] in r;
      if i > 0 {
        assert order[i] == r[i - 1] && r[i - 1] in r;
      }
    }
    assert order[0] == b;
    forall c | 0 <= c < NBUF
      ensures c in order
    {
      assert c == b || c in r;
    }
  }

  /** Every step keeps the invariant. */
  lemma {:induction false} DoInv(s: State, step: Step)
    requires Inv(s) && May(s, step)
    ensures Inv(Do(s, step))
  {
    hide Ordered, Inv, Unique;
    match step
    case Get(k) => GetInv(s, k);
    case Put(b) => PutInv(s, b);
    case Lock(b) => HolderInv(s, step, b);
    case ReadIn(b) => HolderInv(s, step, b);
    case Modify(b, _) => HolderInv(s, step, b);
    case MarkDirty(b) => HolderInv(s, step, b);
    case WriteOut(b) => HolderInv(s, step, b);
    case Unlock(b) => HolderInv(s, step, b);
  }

  lemma {:induction false} HolderInv(s: State, step: Step, b: int)
    requires Inv(s) && May(s, step) && !step.Get? && !step.Put? && step.b == b
    ensures Inv(Do(s, step))
  {
    hide Ordered;
    assert BufOk(s, b);
    Alone(s, b);
    var t := Do(s, step);
    SetInv(s, b, t.bufs[b], t.disk);
    assert t == Set(s, b, t.bufs[b]).(disk := t.disk);
  }

  // --------------------------------------------------------- transparency

  /** The block k as the machine's processes see it: from its valid buffer, else from the disk. */
  function Latest(s: State, k: Key): Block {
    var b := FindValid(s.bufs, k);
    if b < |s.bufs| then s.bufs[b].data else OnDisk(s.disk, k)
  }

  /** The first valid buffer of k, or |bufs|. */
  function FindValid(bufs: seq<Buf>, k: Key): (b: int)
    ensures 0 <= b <= |bufs|
    ensures b < |bufs| ==> bufs[b].valid && bufs[b].key == k
    ensures forall i :: 0 <= i < b ==> !(bufs[i].valid && bufs[i].key == k)
  {
    if bufs == [] || (bufs[0].valid && bufs[0].key == k) then 0 else 1 + FindValid(bufs[1..], k)
  }

  /** The invariant makes that buffer the only one. */
  lemma {:induction false} LatestAt(s: State, b: int)
    requires Inv(s) && 0 <= b < NBUF && s.bufs[b].valid
    ensures Latest(s, s.bufs[b].key) == s.bufs[b].data
  {
    hide Ordered;
    Alone(s, b);
  }

  lemma {:induction false} LatestNone(s: State, k: Key)
    requires Shape(s) && forall i :: 0 <= i < NBUF ==> !(s.bufs[i].valid && s.bufs[i].key == k)
    ensures Latest(s, k) == OnDisk(s.disk, k)
  {
  }

  /** The change a step makes to the blocks as seen through the cache: only a holder's own. */
  function Change(s: State, step: Step, k: Key): Block
    requires May(s, step)
  {
    if step.Modify? && s.bufs[step.b].key == k then step.data else Latest(s, k)
  }

  lemma {:induction false} Transparent(s: State, step: Step, k: Key)
    requires Inv(s) && May(s, step)
    ensures Latest(Do(s, step), k) == Change(s, step, k)
  {
    hide Ordered, Latest, Pick, FindValid;
    DoInv(s, step);
    var t := Do(s, step);
    var b := if step.Get? then Pick(s, step.k) else step.b;
    if step.Get? { PickRange(s, step.k); PickKey(s, step.k); }
    OthersSame(s, step, b);
    if i :| 0 <= i < NBUF && t.bufs[i].valid && t.bufs[i].key == k {
      SeenIn(s, step, b, i, k);
    } else {
      GoneFrom(s, step, b, k);
    }
  }

  lemma {:induction false} OthersSame(s: State, step: Step, b: int)
    requires May(s, step) && b == if step.Get? then Pick(s, step.k) else step.b
    ensures 0 <= b < NBUF
    ensures forall i :: 0 <= i < NBUF && i != b ==> Do(s, step).bufs[i] == s.bufs[i]
  {
    hide Pick;
    if step.Get? { PickRange(s, step.k); }
  }

  /** After the step, buffer i holds k. */
  lemma {:induction false} SeenIn(s: State, step: Step, b: int, i: int, k: Key)
    requires Inv(s) && May(s, step) && Inv(Do(s, step)) && 0 <= i < NBUF && 0 <= b < NBUF
    requires b == if step.Get? then Pick(s, step.k) else step.b
    requires var t := Do(s, step); t.bufs[i].valid && t.bufs[i].key == k
    requires forall j :: 0 <= j < NBUF && j != b ==> Do(s, step).bufs[j] == s.bufs[j]
    ensures Latest(Do(s, step), k) == Change(s, step, k)
  {
    hide Ordered, Latest, Pick, FindValid, Unique;
    LatestAt(Do(s, step), i);
    Alone(Do(s, step), i);
    if s.bufs[i].valid && s.bufs[i].key == k {
      LatestAt(s, i);
      Alone(s, i);
    } else {
      assert i == b && step.ReadIn?;
      assert BufOk(s, b);
      Alone(s, b);
      LatestNone(s, k);
    }
  }

  /** After the step, no valid buffer holds k. */
  lemma {:induction false} GoneFrom(s: State, step: Step, b: int, k: Key)
    requires Inv(s) && May(s, step) && Inv(Do(s, step)) && 0 <= b < NBUF
    requires b == if step.Get? then Pick(s, step.k) else step.b
    requires forall j :: 0 <= j < NBUF ==> !(Do(s, step).bufs[j].valid && Do(s, step).bufs[j].key == k)
    requires forall j :: 0 <= j < NBUF && j != b ==> Do(s, step).bufs[j] == s.bufs[j]
    ensures Latest(Do(s, step), k) == Change(s, step, k)
  {
    hide Ordered, Latest, Pick, FindValid, Unique;
    LatestNone(Do(s, step), k);
    assert BufOk(s, b);
    var x := Do(s, step).bufs[b];
    assert !(x.valid && x.key == k);
    if s.bufs[b].valid && s.bufs[b].key == k {
      assert step.Get?;
      PickKey(s, step.k);
      LatestAt(s, b);
    } else {
      LatestNone(s, k);
    }
  }

  // ---------------------------------------------------------------- runs

  ghost predicate Runs(s: State, steps: seq<Step>)
    decreases |steps|
  {
    steps == [] || (May(s, steps[0]) && Runs(Do(s, steps[0]), steps[1..]))
  }

  ghost function After(s: State, steps: seq<Step>): State
    requires Runs(s, steps)
    decreases |steps|
  {
    if steps == [] then s else After(Do(s, steps[0]), steps[1..])
  }

  /** A plain memory of blocks that only the holders' changes write. */
  ghost function Memory(s: State, steps: seq<Step>, k: Key, x: Block): Block
    requires Runs(s, steps)
    decreases |steps|
  {
    if steps == [] then x
    else
      var x' := if steps[0].Modify? && s.bufs[steps[0].b].key == k then steps[0].data else x;
      Memory(Do(s, steps[0]), steps[1..], k, x')
  }

  /**
   In every run, by any processes, the cache shows what a plain memory would: the blocks at the start
   with the changes that lock holders made, in order.
   */
  lemma {:induction false} RunTransparent(s: State, steps: seq<Step>, k: Key)
    requires Inv(s) && Runs(s, steps)
    ensures Inv(After(s, steps))
    ensures Latest(After(s, steps), k) == Memory(s, steps, k, Latest(s, k))
    decreases |steps|
  {
    hide Do, Latest, Ordered, Unique, BufOk;
    if steps != [] {
      DoInv(s, steps[0]);
      Transparent(s, steps[0], k);
      RunTransparent(Do(s, steps[0]), steps[1..], k);
    }
  }

  lemma {:induction false} BootTransparent(disk: map<Key, Block>, steps: seq<Step>, k: Key)
    requires Runs(Init(disk), steps)
    ensures Inv(After(Init(disk), steps))
    ensures Latest(After(Init(disk), steps), k) == Memory(Init(disk), steps, k, OnDisk(disk, k))
  {
    hide Runs, After, Memory;
    InitInv(disk);
    RunTransparent(Init(disk), steps, k);
    LatestNone(Init(disk), k);
  }

  /**
   The panic "no buffers" happens exactly when the block is not cached and every buffer is referenced
   or dirty; otherwise a recycled buffer is the one released longest ago of those that are neither.
   */
  lemma {:induction false} Recycled(s: State, k: Key)
    requires Inv(s)
    ensures Pick(s, k) == -1 <==> forall b :: 0 <= b < NBUF ==> s.bufs[b].key != k && !Spare(s.bufs[b])
    ensures var b := Pick(s, k);
            b != -1 ==> 0 <= b < NBUF && (s.bufs[b].key == k || (NotCached(s, k) && Oldest(s, b)))
  {
    Finds(s.bufs, s.order, k);
    FindsSpare(s.bufs, s.order);
    var b := Pick(s, k);
    SearchedAll(s, k);
    if b != -1 && s.bufs[b].key != k {
      OldestSpare(s, b);
    }
  }

  predicate NotCached(s: State, k: Key) {
    forall b :: 0 <= b < |s.bufs| ==> s.bufs[b].key != k
  }

  /** Buffer b may be recycled and was released before all others that may. */
  predicate Oldest(s: State, b: int)
    requires Shape(s) && 0 <= b < NBUF
  {
    Spare(s.bufs[b]) && forall c :: 0 <= c < NBUF && c != b && Spare(s.bufs[c]) ==> s.stamp[b] < s.stamp[c]
  }

  lemma {:induction false} OldestSpare(s: State, b: int)
    requires Shape(s) && Ordered(s) && 0 <= b < NBUF && Spare(s.bufs[b]) && LastSpare(s.bufs, s.order, b)
    ensures Oldest(s, b)
  {
    var i :| At(s.order, i, b) && forall j :: i < j < |s.order| ==> !Spare(s.bufs[s.order[j]]);
    forall c | 0 <= c < NBUF && c != b && Spare(s.bufs[c])
      ensures s.stamp[b] < s.stamp[c]
    {
      assert c in s.order;
      var j :| 0 <= j < |s.order| && s.order[j] == c;
    }
  }

  // --------------------------------------------------- one use of a buffer

  /** How a holder makes its change last: `bwrite`, or `log_write` that leaves the writing to the log. */
  function Saving(b: int, now: bool): Step {
    if now then WriteOut(b) else MarkDirty(b)
  }

  lemma RunsOn(s: State, step: Step, rest: seq<Step>)
    requires May(s, step) && Runs(Do(s, step), rest)
    ensures Runs(s, [step] + rest) && After(s, [step] + rest) == After(Do(s, step), rest)
  {
    hide May, Do;
    assert ([step] + rest)[1..] == rest;
  }

  /** Buffer b after a step of the process that holds it. */
  lemma HolderStep(s: State, step: Step, b: int)
    requires Inv(s) && 0 <= b < NBUF && s.bufs[b].locked && !step.Get? && !step.Lock? && !step.Put? && step.b == b
    requires step.ReadIn? <==> !s.bufs[b].valid
    requires step.Unlock? ==> Saved(s, b)
    ensures May(s, step) && Inv(Do(s, step))
    ensures var t, x := Do(s, step), s.bufs[b];
            && t.bufs == s.bufs[b := t.bufs[b]]
            && t.bufs[b].key == x.key && t.bufs[b].refcnt == x.refcnt && t.bufs[b].locked == !step.Unlock?
            && t.bufs[b].valid && t.bufs[b].dirty == (step.MarkDirty? || (x.dirty && !step.WriteOut?))
            && (step.Modify? ==> t.bufs[b].data == step.data) && (x.valid && !step.Modify? ==> t.bufs[b].data == x.data)
            && t.disk == if step.WriteOut? then s.disk[x.key := x.data] else s.disk
  {
    assert BufOk(s, b);
    hide Ordered, Unique;
    DoInv(s, step);
  }

  /** After `bwrite` or `log_write`, and only then or if nothing has changed, the holder may release the buffer. */
  lemma SavedThen(s: State, b: int, now: bool)
    requires Inv(s) && 0 <= b < NBUF && s.bufs[b].locked && s.bufs[b].valid
    ensures May(s, Saving(b, now)) && Saved(Do(s, Saving(b, now)), b)
    ensures !Saved(s, b) <==> !s.bufs[b].dirty && s.bufs[b].data != OnDisk(s.disk, s.bufs[b].key)
  {
  }

  /** The part of a use under the lock, from when the data is there. */
  lemma {:induction false} Saves(s: State, b: int, data: Block, now: bool)
    requires Inv(s) && 0 <= b < NBUF && s.bufs[b].locked && s.bufs[b].valid
    ensures var steps, x := [Modify(b, data), Saving(b, now), Unlock(b), Put(b)], s.bufs[b];
            && Runs(s, steps)
            && var t := After(s, steps);
               && Inv(t) && t.bufs == s.bufs[b := x.(locked := false, data := data, refcnt := x.refcnt - 1,
                                                     dirty := if now then false else true)]
               && t.disk == if now then s.disk[x.key := data] else s.disk
  {
    hide Do, Ordered, Unique, Saved;
    var s1 := Do(s, Modify(b, data));
    HolderStep(s, Modify(b, data), b);
    var s2 := Do(s1, Saving(b, now));
    HolderStep(s1, Saving(b, now), b);
    SavedThen(s1, b, now);
    var s3 := Do(s2, Unlock(b));
    HolderStep(s2, Unlock(b), b);
    assert BufOk(s, b);
    var s4 := Do(s3, Put(b));
    DoInv(s3, Put(b));
    Releases(s3, b);
    RunsOn(s3, Put(b), []);
    RunsOn(s2, Unlock(b), [Put(b)]);
    RunsOn(s1, Saving(b, now), [Unlock(b), Put(b)]);
    RunsOn(s, Modify(b, data), [Saving(b, now), Unlock(b), Put(b)]);
    assert [Put(b)] + [] == [Put(b)] && [Unlock(b)] + [Put(b)] == [Unlock(b), Put(b)];
    assert [Saving(b, now)] + [Unlock(b), Put(b)] == [Saving(b, now), Unlock(b), Put(b)];
    assert [Modify(b, data)] + [Saving(b, now), Unlock(b), Put(b)] ==
           [Modify(b, data), Saving(b, now), Unlock(b), Put(b)];
  }

  lemma Releases(s: State, b: int)
    requires Shape(s) && 0 <= b < NBUF && May(s, Put(b))
    ensures var t := Do(s, Put(b));
            t.disk == s.disk && t.bufs == s.bufs[b := s.bufs[b].(refcnt := s.bufs[b].refcnt - 1)]
  {
  }

  /** `bread`: the data is there, and the other buffers and the disk are as before. */
  function Read(s: State, k: Key): seq<Step>
    requires Shape(s) && Pick(s, k) != -1
  {
    PickRange(s, k);
    var b := Pick(s, k);
    [Get(k), Lock(b)] + if s.bufs[b].key == k && s.bufs[b].valid then [] else [ReadIn(b)]
  }

  lemma {:induction false} Reads(s: State, k: Key)
    requires Inv(s) && k.dev != 0 && Pick(s, k) != -1
    requires 0 <= Pick(s, k) < NBUF && !s.bufs[Pick(s, k)].locked
    ensures var b := Pick(s, k);
            && Runs(s, Read(s, k))
            && var t := After(s, Read(s, k));
               && Inv(t) && t.disk == s.disk && t.bufs == s.bufs[b := t.bufs[b]]
               && t.bufs[b].key == k && t.bufs[b].locked && t.bufs[b].valid && t.bufs[b].data == Latest(s, k)
               && t.bufs[b].refcnt == 1 + (if s.bufs[b].key == k then s.bufs[b].refcnt else 0)
               && (t.bufs[b].dirty <==> s.bufs[b].key == k && s.bufs[b].dirty)
  {
    hide Do, Ordered, Unique, Pick, Latest;
    var b := Pick(s, k);
    PickKey(s, k);
    Claims(s, k);
    var s1 := Do(s, Get(k));
    DoInv(s, Get(k));
    Locks(s1, b);
    var s2 := Do(s1, Lock(b));
    Transparent(s, Get(k), k);
    Transparent(s1, Lock(b), k);
    assert [Lock(b)] + [ReadIn(b)] == [Lock(b), ReadIn(b)];
    assert [Get(k)] + [Lock(b), ReadIn(b)] == [Get(k), Lock(b)] + [ReadIn(b)];
    assert [Lock(b)] + [] == [Lock(b)] && [Get(k)] + [Lock(b)] == [Get(k), Lock(b)] + [];
    if s2.bufs[b].valid {
      LatestAt(s2, b);
      RunsOn(s1, Lock(b), []);
      RunsOn(s, Get(k), [Lock(b)]);
    } else {
      HolderStep(s2, ReadIn(b), b);
      Transparent(s2, ReadIn(b), k);
      LatestAt(Do(s2, ReadIn(b)), b);
      RunsOn(s2, ReadIn(b), []);
      assert [ReadIn(b)] + [] == [ReadIn(b)];
      RunsOn(s1, Lock(b), [ReadIn(b)]);
      RunsOn(s, Get(k), [Lock(b), ReadIn(b)]);
    }
  }

  lemma Claims(s: State, k: Key)
    requires Inv(s) && May(s, Get(k))
    ensures var t, b := Do(s, Get(k)), Pick(s, k);
            && 0 <= b < NBUF && t.disk == s.disk && t.bufs == s.bufs[b := t.bufs[b]]
            && t.bufs[b].key == k && t.bufs[b].locked == s.bufs[b].locked
            && t.bufs[b].refcnt == 1 + (if s.bufs[b].key == k then s.bufs[b].refcnt else 0) > 0
            && (t.bufs[b].valid <==> s.bufs[b].key == k && s.bufs[b].valid)
            && (t.bufs[b].dirty <==> s.bufs[b].key == k && s.bufs[b].dirty)
  {
    hide Pick;
    PickRange(s, k);
    assert BufOk(s, Pick(s, k));
  }

  lemma Locks(s: State, b: int)
    requires Inv(s) && 0 <= b < NBUF && !s.bufs[b].locked && s.bufs[b].refcnt > 0
    ensures May(s, Lock(b)) && Inv(Do(s, Lock(b)))
    ensures Do(s, Lock(b)) == s.(bufs := s.bufs[b := s.bufs[b].(locked := true)])
  {
    DoInv(s, Lock(b));
  }

  lemma {:induction false} RunsJoin(s: State, a: seq<Step>, b: seq<Step>)
    requires Runs(s, a) && Runs(After(s, a), b)
    ensures Runs(s, a + b) && After(s, a + b) == After(After(s, a), b)
    decreases |a|
  {
    hide May, Do;
    if a == [] {
      assert a + b == b;
    } else {
      RunsJoin(Do(s, a[0]), a[1..], b);
      assert (a + b)[1..] == a[1..] + b;
    }
  }

  /** Steps that change no data leave all blocks as they are seen through the cache. */
  lemma {:induction false} Unmodified(s: State, steps: seq<Step>, k: Key)
    requires Inv(s) && Runs(s, steps) && forall i :: 0 <= i < |steps| ==> !steps[i].Modify?
    ensures Latest(After(s, steps), k) == Latest(s, k)
    decreases |steps|
  {
    hide May, Do, Latest, Inv;
    if steps != [] {
      DoInv(s, steps[0]);
      Transparent(s, steps[0], k);
      Unmodified(Do(s, steps[0]), steps[1..], k);
    }
  }

  /**
   One use of a buffer that nobody holds, from `bget` to `brelse`: it runs to its end; the block then has the new
   contents, through the cache and, after `bwrite`, on disk; no other block has changed, in the cache or on disk;
   and no reference and no lock is left over.
   */
  lemma {:induction false} UseOnce(s: State, k: Key, data: Block, now: bool, j: Key)
    requires Inv(s) && k.dev != 0 && Pick(s, k) != -1
    requires 0 <= Pick(s, k) < NBUF && !s.bufs[Pick(s, k)].locked
    ensures var b := Pick(s, k);
            var steps := Read(s, k) + [Modify(b, data), Saving(b, now), Unlock(b), Put(b)];
            && Runs(s, steps)
            && var t := After(s, steps);
               && Inv(t) && Latest(t, j) == (if j == k then data else Latest(s, j))
               && OnDisk(t.disk, j) == (if j == k && now then data else OnDisk(s.disk, j))
               && t.bufs == s.bufs[b := t.bufs[b]] && t.bufs[b].key == k && !t.bufs[b].locked
               && t.bufs[b].refcnt == (if s.bufs[b].key == k then s.bufs[b].refcnt else 0)
               && t.bufs[b].dirty == !now
  {
    var b := Pick(s, k);
    var a, z := Read(s, k), [Modify(b, data), Saving(b, now), Unlock(b), Put(b)];
    hide Do, Ordered, Unique, Pick, Latest, May;
    Reads(s, k);
    var m := After(s, a);
    Saves(m, b, data, now);
    RunsJoin(s, a, z);
    var t := After(m, z);
    if j == k {
      LatestAt(t, b);
    } else {
      Unmodified(s, a, j);
      Transparent(m, z[0], j);
      DoInv(m, z[0]);
      Unmodified(Do(m, z[0]), z[1..], j);
    }
  }
}
