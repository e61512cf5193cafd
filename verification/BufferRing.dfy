/**
 The buffer cache as the code keeps it: buffers in an array, linked into a ring through `next` and
 `prev`. Place HEAD of the arrays is the ring's head; pointers are indices.
 */
module BufferRing {
  import opened Bio

  const HEAD := NBUF

  // ------------------------------------------------------------- the ring

  /** The place k links after the head; the head itself at both ends. */
  function Pos(order: seq<int>, k: int): int {
    if 1 <= k <= |order| then order[k - 1] else HEAD
  }

  predicate LinkAt(next: seq<int>, prev: seq<int>, order: seq<int>, k: int)
    requires |next| == |prev| == NBUF + 1 && InRange(order, NBUF)
  {
    next[Pos(order, k)] == Pos(order, k + 1) && prev[Pos(order, k + 1)] == Pos(order, k)
  }

  /** From the head, `next` visits `order` and comes back; `prev` visits it backwards. */
  predicate Linked(next: seq<int>, prev: seq<int>, order: seq<int>) {
    && |next| == |prev| == NBUF + 1 && InRange(order, NBUF)
    && (forall i, j :: 0 <= i < j < |order| ==> order[i] != order[j])
    && forall k {:trigger LinkAt(next, prev, order, k)} :: 0 <= k <= |order| ==> LinkAt(next, prev, order, k)
  }

  lemma PosDistinct(order: seq<int>)
    requires InRange(order, NBUF) && forall i, j :: 0 <= i < j < |order| ==> order[i] != order[j]
    ensures forall j, k :: 0 <= j <= |order| && 0 <= k <= |order| && j != k ==> Pos(order, j) != Pos(order, k)
  {
  }

  /** The ring without its p-th buffer. */
  function Cut(order: seq<int>, p: int): seq<int>
    requires 0 <= p < |order|
  {
    order[..p] + order[p + 1..]
  }

  lemma {:induction false} CutPos(order: seq<int>, p: int)
    requires InRange(order, NBUF) && 0 <= p < |order|
    ensures InRange(Cut(order, p), NBUF)
    ensures forall k :: 0 <= k <= |order| ==> Pos(Cut(order, p), k) == Pos(order, if k <= p then k else k + 1)
  {
    var r := Cut(order, p);
    assert forall i :: 0 <= i < |r| ==> r[i] == order[if i < p then i else i + 1];
  }

  lemma {:induction false} Unlink(next: seq<int>, prev: seq<int>, order: seq<int>, p: int)
    requires Linked(next, prev, order) && 0 <= p < |order|
    ensures var b := order[p];
            0 <= next[b] <= HEAD && 0 <= prev[b] <= HEAD
            && Linked(next[prev[b] := next[b]], prev[next[b] := prev[b]], Cut(order, p))
  {
    var b, r := order[p], Cut(order, p);
    assert LinkAt(next, prev, order, p) && LinkAt(next, prev, order, p + 1);
    var n, q := next[prev[b] := next[b]], prev[next[b] := prev[b]];
    CutPos(order, p);
    PosDistinct(order);
    assert forall i :: 0 <= i < |r| ==> r[i] == order[if i < p then i else i + 1];
    forall k | 0 <= k <= |r|
      ensures LinkAt(n, q, r, k)
    {
      assert LinkAt(next, prev, order, if k < p then k else k + 1);
      assert Pos(order, |order| + 1) == Pos(order, 0);
    }
  }

  lemma {:induction false} PushFront(next: seq<int>, prev: seq<int>, order: seq<int>, b: int)
    requires Linked(next, prev, order) && 0 <= b < NBUF && b !in order
    ensures 0 <= next[HEAD] <= HEAD && next[HEAD] != b
    ensures Linked(next[b := next[HEAD]][HEAD := b], prev[b := HEAD][next[HEAD] := b], [b] + order)
  {
    var r := [b] + order;
    assert LinkAt(next, prev, order, 0);
    var n, q := next[b := next[HEAD]][HEAD := b], prev[b := HEAD][next[HEAD] := b];
    PosDistinct(order);
    forall k | 0 <= k <= |r|
      ensures LinkAt(n, q, r, k)
    {
      if k > 0 {
        assert LinkAt(next, prev, order, k - 1);
        assert Pos(r, k) == if k == 1 then b else Pos(order, k - 1);
      }
    }
  }

  lemma {:induction false} WithoutCut(order: seq<int>, p: int)
    requires 0 <= p < |order| && forall i, j :: 0 <= i < j < |order| ==> order[i] != order[j]
    ensures Without(order, order[p]) == Cut(order, p) && order[p] !in Cut(order, p)
  {
    var tail := order[1..];
    assert forall i :: 0 <= i < |tail| ==> tail[i] == order[i + 1];
    if p == 0 {
      WithoutNone(tail, order[0]);
    } else {
      WithoutCut(tail, p - 1);
      assert Cut(order, p) == [order[0]] + Cut(tail, p - 1);
    }
  }

  lemma {:induction false} WithoutNone(order: seq<int>, b: int)
    requires b !in order
    ensures Without(order, b) == order
  {
    if order != [] {
      WithoutNone(order[1..], b);
    }
  }

  // ------------------------------------------------------------ the cache

  class Cache {
    const bufs: array<Buf>
    const next: array<int>
    const prev: array<int>
    var disk: map<Key, Block>
    ghost var order: seq<int>
    ghost var stamp: seq<int>
    ghost var now: int

    ghost predicate Arrays()
      reads this
    {
      bufs.Length == NBUF && next.Length == prev.Length == NBUF + 1 && next != prev
    }

    ghost function S(): State
      reads this, bufs
    {
      State(bufs[..], order, disk, stamp, now)
    }

    ghost predicate Valid()
      reads this, bufs, next, prev
    {
      Arrays() && Inv(S()) && Linked(next[..], prev[..], order)
    }

    /** `binit` */
    constructor (disk: map<Key, Block>)
      ensures Valid() && S() == Init(disk) && fresh(bufs) && fresh(next) && fresh(prev)
    {
      bufs := new Buf[NBUF](_ => Buf(Key(0, 0), 0, false, false, false, []));
      next, prev := new int[NBUF + 1](_ => HEAD), new int[NBUF + 1](_ => HEAD);
      this.disk, order, stamp, now := disk, [], seq(NBUF, i => i), NBUF;
      new;
      hide Inv, Linked;
      EmptyRing(next[..], prev[..]);
      var b := 0;
      while b < NBUF
        invariant 0 <= b <= NBUF && Arrays() && Linked(next[..], prev[..], order)
        invariant order == seq(b, i => b - 1 - i)
        invariant S().(order := Init(disk).order) == Init(disk)
        modifies next, prev, this`order
      {
        NotYet(order, b);
        PushFront(next[..], prev[..], order, b);
        var first := next[HEAD];
        ghost var n, p := next[..][b := first][HEAD := b], prev[..][b := HEAD][first := b];
        next[b] := first;
        prev[b] := HEAD;
        prev[first] := b;
        next[HEAD] := b;
        assert next[..] == n && prev[..] == p;
        order := [b] + order;
        b := b + 1;
      }
      InitInv(disk);
    }

    /** The search of `bget` for k, from the head. */
    method FindCached(k: Key) returns (b: int)
      requires Valid()
      ensures b == FindKey(S().bufs, order, k)
    {
      hide Inv, Linked, LinkAt;
      ListShape();
      b := next[HEAD];
      LinkedAt(next[..], prev[..], order, 0);
      ghost var p := 1;
      while b != HEAD
        invariant 1 <= p <= NBUF + 1 && b == Pos(order, p)
        invariant FindKey(S().bufs, order, k) == FindKey(S().bufs, order[p - 1..], k)
        decreases NBUF + 1 - p
      {
        if bufs[b].key == k {
          return;
        }
        LinkedAt(next[..], prev[..], order, p);
        assert order[p - 1..][1..] == order[p..];
        b, p := next[b], p + 1;
      }
      assert order[p - 1..] == [];
      b := -1;
    }

    /** The search of `bget` for a buffer to recycle, from the tail. */
    method FindVictim() returns (b: int)
      requires Valid()
      ensures b == FindSpare(S().bufs, order)
    {
      hide Inv, Linked, LinkAt;
      ListShape();
      b := prev[HEAD];
      LinkedAt(next[..], prev[..], order, NBUF);
      ghost var p := NBUF;
      assert order[..p] == order;
      while b != HEAD
        invariant 0 <= p <= NBUF && b == Pos(order, p)
        invariant FindSpare(S().bufs, order) == FindSpare(S().bufs, order[..p])
        decreases p
      {
        if bufs[b].refcnt == 0 && !bufs[b].dirty {
          return;
        }
        LinkedAt(next[..], prev[..], order, p - 1);
        assert order[..p][..p - 1] == order[..p - 1];
        b, p := prev[b], p - 1;
      }
      assert order[..p] == [];
      b := -1;
    }

    lemma ListShape()
      requires Valid()
      ensures |order| == NBUF && InRange(order, NBUF) && Shape(S())
    {
    }

    /** `bget` up to the release of bcache.lock; -1 is its panic. */
    method Bget(k: Key) returns (b: int)
      requires Valid() && k.dev != 0
      modifies this, bufs
      ensures Valid() && b == Pick(old(S()), k)
      ensures S() == if b == -1 then old(S()) else Do(old(S()), Get(k))
    {
      hide Inv, Linked, FindKey, FindSpare;
      ghost var s := S();
      ListShape();
      b := FindCached(k);
      if b != -1 {
        PickKey(s, k);
        CachedHere(s, k);
        GetInv(s, k);
        bufs[b] := bufs[b].(refcnt := bufs[b].refcnt + 1);
        assert S() == Do(s, Get(k));
        return;
      }
      b := FindVictim();
      if b != -1 {
        PickKey(s, k);
        CachedHere(s, k);
        GetInv(s, k);
        bufs[b] := Buf(k, 1, false, false, bufs[b].locked, bufs[b].data);
        assert S() == Do(s, Get(k));
      }
    }

    /** The pointer changes of `brelse`. */
    method MoveToFront(b: int)
      requires Arrays() && Linked(next[..], prev[..], order) && b in order
      modifies next, prev, this`order
      ensures Linked(next[..], prev[..], order) && order == ToFront(old(order), b)
    {
      hide Linked, Without;
      ghost var p := PlaceOf(order, b);
      ghost var n, q := next[..], prev[..];
      LinkedParts(n, q, order);
      Unlink(n, q, order, p);
      WithoutCut(order, p);
      prev[next[b]] := prev[b];
      next[prev[b]] := next[b];
      assert prev[..] == q[n[b] := q[b]] && next[..] == n[q[b] := n[b]];
      ghost var n', q' := next[..], prev[..];
      PushFront(n', q', Cut(order, p), b);
      next[b] := next[HEAD];
      prev[b] := HEAD;
      prev[next[HEAD]] := b;
      next[HEAD] := b;
      assert next[..] == n'[b := n'[HEAD]][HEAD := b] && prev[..] == q'[b := HEAD][n'[HEAD] := b];
      order := ToFront(order, b);
    }

    /** `bread`, when no other process has the buffer locked. */
    method Bread(dev: int, blockno: int) returns (b: int)
      requires Valid() && dev != 0
      requires forall i :: 0 <= i < NBUF && bufs[i].key == Key(dev, blockno) ==> !bufs[i].locked
      modifies this, bufs
      ensures Valid() && b == Pick(old(S()), Key(dev, blockno))
      ensures b == -1 ==> S() == old(S())
      ensures b != -1 ==> 0 <= b < NBUF && bufs[b].locked && bufs[b].valid && bufs[b].key == Key(dev, blockno)
      ensures b != -1 ==> bufs[b].data == Latest(old(S()), Key(dev, blockno))
      ensures forall k :: Latest(S(), k) == Latest(old(S()), k)
    {
      ghost var s := S();
      var k := Key(dev, blockno);
      b := Bget(k);
      if b == -1 {
        return;
      }
      ghost var t := S();
      GotBuffer(s, k);
      Quiet(s, Get(k));
      DoInv(t, Lock(b));
      Quiet(t, Lock(b));
      bufs[b] := bufs[b].(locked := true);
      assert S() == Do(t, Lock(b));
      if !bufs[b].valid {
        ghost var u := S();
        DoInv(u, ReadIn(b));
        Quiet(u, ReadIn(b));
        bufs[b] := bufs[b].(valid := true, data := OnDisk(disk, bufs[b].key));
        assert S() == Do(u, ReadIn(b));
      }
      LatestAt(S(), b);
    }

    /** `bwrite` by the holder of the lock */
    method Bwrite(b: int)
      requires Valid() && 0 <= b < NBUF && bufs[b].locked && bufs[b].valid
      modifies this, bufs
      ensures Valid() && S() == Do(old(S()), WriteOut(b))
      ensures disk == old(disk)[old(bufs[b]).key := old(bufs[b]).data] && bufs[b] == old(bufs[b]).(dirty := false)
    {
      ghost var s := S();
      DoInv(s, WriteOut(b));
      bufs[b] := bufs[b].(dirty := true);
      disk := disk[bufs[b].key := bufs[b].data];
      bufs[b] := bufs[b].(dirty := false);
      assert S() == Do(s, WriteOut(b));
    }

    /** `brelse` by the holder of the lock */
    method Brelse(b: int)
      requires Valid() && 0 <= b < NBUF && bufs[b].locked && bufs[b].valid && Saved(S(), b)
      modifies this, bufs, next, prev
      ensures Valid() && May(old(S()), Unlock(b)) && May(Do(old(S()), Unlock(b)), Put(b))
      ensures S() == Do(Do(old(S()), Unlock(b)), Put(b))
    {
      hide Inv, Linked, ToFront;
      ghost var s := S();
      ListShape();
      DoInv(s, Unlock(b));
      bufs[b] := bufs[b].(locked := false);
      ghost var t := S();
      assert t == Do(s, Unlock(b));
      HolderRefs(s, b);
      DoInv(t, Put(b));
      bufs[b] := bufs[b].(refcnt := bufs[b].refcnt - 1);
      if bufs[b].refcnt == 0 {
        ListHolds(s, b);
        MoveToFront(b);
        stamp, now := stamp[b := now], now + 1;
      }
      assert S() == Do(t, Put(b));
    }
  }

  lemma EmptyRing(next: seq<int>, prev: seq<int>)
    requires |next| == |prev| == NBUF + 1 && next[HEAD] == HEAD && prev[HEAD] == HEAD
    ensures Linked(next, prev, [])
  {
  }

  lemma NotYet(order: seq<int>, b: int)
    requires b >= 0 && order == seq(b, i => b - 1 - i)
    ensures b !in order
  {
  }

  lemma LinkedParts(next: seq<int>, prev: seq<int>, order: seq<int>)
    requires Linked(next, prev, order)
    ensures InRange(order, NBUF) && forall i, j :: 0 <= i < j < |order| ==> order[i] != order[j]
  {
  }

  lemma ListHolds(s: State, b: int)
    requires Inv(s) && 0 <= b < NBUF
    ensures b in s.order
  {
  }

  /** A hit is k's buffer; a recycled one is not. */
  lemma {:induction false} CachedHere(s: State, k: Key)
    requires Inv(s) && Pick(s, k) != -1
    ensures 0 <= Pick(s, k) < NBUF
    ensures FindKey(s.bufs, s.order, k) != -1 <==> s.bufs[Pick(s, k)].key == k
  {
    Finds(s.bufs, s.order, k);
    PickKey(s, k);
    SearchedAll(s, k);
  }

  lemma LinkedAt(next: seq<int>, prev: seq<int>, order: seq<int>, k: int)
    requires Linked(next, prev, order) && 0 <= k <= |order|
    ensures next[Pos(order, k)] == Pos(order, k + 1) && prev[Pos(order, k + 1)] == Pos(order, k)
  {
    assert LinkAt(next, prev, order, k);
  }

  lemma HolderRefs(s: State, b: int)
    requires Inv(s) && 0 <= b < NBUF && s.bufs[b].locked
    ensures s.bufs[b].refcnt > 0
  {
    assert BufOk(s, b);
  }

  ghost function PlaceOf(order: seq<int>, b: int): (p: int)
    requires b in order
    ensures 0 <= p < |order| && order[p] == b
  {
    if order[0] == b then 0 else 1 + PlaceOf(order[1..], b)
  }

  /** The claimed buffer holds k and, if it was not locked as k's buffer, is not locked. */
  lemma {:induction false} GotBuffer(s: State, k: Key)
    requires Inv(s) && May(s, Get(k))
    requires forall i :: 0 <= i < NBUF && s.bufs[i].key == k ==> !s.bufs[i].locked
    ensures var b, t := Pick(s, k), Do(s, Get(k));
            Inv(t) && 0 <= b < NBUF && t.bufs[b].key == k && !t.bufs[b].locked && t.bufs[b].refcnt > 0
  {
    GetInv(s, k);
    PickKey(s, k);
    assert BufOk(s, Pick(s, k));
  }

  /** Steps other than changes by a holder show in no block. */
  lemma {:induction false} Quiet(s: State, step: Step)
    requires Inv(s) && May(s, step) && !step.Modify?
    ensures forall k :: Latest(Do(s, step), k) == Latest(s, k)
  {
    hide Latest, Do;
    forall k
      ensures Latest(Do(s, step), k) == Latest(s, k)
    {
      Transparent(s, step, k);
    }
  }
}
