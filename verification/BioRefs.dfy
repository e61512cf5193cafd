/**
 Who refers to a buffer. Processes call `bread`, change what they have locked, and call `brelse`; the history
 of a run lists the references that `bget` has given out and `brelse` has not yet taken back. The machine
 of Bio decides nothing by it.
 */
module BioRefs {
  import opened Bio

  /** Process q has called `bget` for k and got buffer b; `locked` says that it holds the buffer's lock. */
  datatype Ref = Ref(q: int, b: int, k: Key, locked: bool)

  datatype Run = Run(s: State, refs: seq<Ref>)

  /** A step of Bio by the process that has reference r; `bget` gives a new one. */
  datatype Act = Act(step: Step, q: int, r: nat)

  /** What the callers' discipline demands: a process uses what it has asked for, and changes it under its lock. */
  predicate Entitled(u: Run, a: Act) {
    match a.step
    case Get(k) => k.dev != 0 && |u.s.bufs| == NBUF
    case _ =>
      && a.r < |u.refs| && u.refs[a.r].q == a.q && u.refs[a.r].b == a.step.b
      && (u.refs[a.r].locked <==> !a.step.Lock? && !a.step.Put?)
  }

  function Cut(refs: seq<Ref>, r: nat): seq<Ref>
    requires r < |refs|
  {
    refs[..r] + refs[r + 1..]
  }

  function Next(u: Run, a: Act): Run
    requires Entitled(u, a) && May(u.s, a.step)
  {
    var t := Do(u.s, a.step);
    match a.step
    case Get(k) => Run(t, u.refs + [Ref(a.q, Pick(u.s, k), k, false)])
    case Lock(_) => Run(t, u.refs[a.r := u.refs[a.r].(locked := true)])
    case Unlock(_) => Run(t, u.refs[a.r := u.refs[a.r].(locked := false)])
    case Put(_) => Run(t, Cut(u.refs, a.r))
    case _ => Run(t, u.refs)
  }

  /** References to buffer b, all of them or the locked ones. */
  function Count(refs: seq<Ref>, b: int, lockedOnly: bool): nat {
    if refs == [] then 0
    else
      var x := refs[|refs| - 1];
      Count(refs[..|refs| - 1], b, lockedOnly) + if x.b == b && (lockedOnly ==> x.locked) then 1 else 0
  }

  lemma {:induction false} CountCut(refs: seq<Ref>, r: nat, b: int, l: bool)
    requires r < |refs|
    ensures Count(refs, b, l) == Count(Cut(refs, r), b, l) + if refs[r].b == b && (l ==> refs[r].locked) then 1 else 0
  {
    var n := |refs| - 1;
    if r == n {
      assert Cut(refs, r) == refs[..n];
    } else {
      CountCut(refs[..n], r, b, l);
      assert Cut(refs, r)[..n - 1] == Cut(refs[..n], r);
    }
  }

  lemma {:induction false} CountSet(refs: seq<Ref>, r: nat, x: Ref, b: int, l: bool)
    requires r < |refs|
    ensures Count(refs[r := x], b, l) + (if refs[r].b == b && (l ==> refs[r].locked) then 1 else 0)
            == Count(refs, b, l) + (if x.b == b && (l ==> x.locked) then 1 else 0)
  {
    CountCut(refs, r, b, l);
    CountCut(refs[r := x], r, b, l);
    assert Cut(refs[r := x], r) == Cut(refs, r);
  }

  lemma {:induction false} CountMore(refs: seq<Ref>, x: Ref, b: int, l: bool)
    ensures Count(refs + [x], b, l) == Count(refs, b, l) + if x.b == b && (l ==> x.locked) then 1 else 0
  {
    assert (refs + [x])[..|refs|] == refs;
  }

  /** The count of a buffer is that of the references to it, and its lock is held by one of them. */
  predicate CountOk(u: Run, b: int)
    requires 0 <= b < |u.s.bufs|
  {
    && u.s.bufs[b].refcnt == Count(u.refs, b, false)
    && Count(u.refs, b, true) == if u.s.bufs[b].locked then 1 else 0
  }

  /** A buffer that somebody refers to caches the block that was asked for. */
  predicate RefOk(s: State, x: Ref) { 0 <= x.b < |s.bufs| && s.bufs[x.b].key == x.k && x.k.dev != 0 }

  ghost predicate Sound(u: Run) {
    && Inv(u.s)
    && (forall b :: 0 <= b < NBUF ==> CountOk(u, b))
    && forall r :: 0 <= r < |u.refs| ==> RefOk(u.s, u.refs[r])
  }

  lemma {:induction false} Referenced(u: Run, r: nat)
    requires Sound(u) && r < |u.refs|
    ensures 0 <= u.refs[r].b < NBUF == |u.s.bufs| && u.s.bufs[u.refs[r].b].refcnt >= 1
    ensures u.refs[r].locked ==> u.s.bufs[u.refs[r].b].locked
    ensures !u.refs[r].locked && u.s.bufs[u.refs[r].b].locked ==> u.s.bufs[u.refs[r].b].refcnt >= 2
  {
    hide Ordered, Unique;
    var b := u.refs[r].b;
    assert RefOk(u.s, u.refs[r]) && CountOk(u, b);
    CountCut(u.refs, r, b, false);
    CountCut(u.refs, r, b, true);
    LockedFewer(Cut(u.refs, r), b);
  }

  lemma {:induction false} LockedFewer(refs: seq<Ref>, b: int)
    ensures Count(refs, b, true) <= Count(refs, b, false)
  {
    if refs != [] {
      LockedFewer(refs[..|refs| - 1], b);
    }
  }

  /** Nothing that `bget` has done since can be in a process's way: it may always go on as the code does. */
  lemma {:induction false} CanGoOn(u: Run, r: nat)
    requires Sound(u) && r < |u.refs|
    ensures var x := u.refs[r];
            && 0 <= x.b < NBUF && Shape(u.s)
            && (!x.locked && !u.s.bufs[x.b].locked ==> May(u.s, Lock(x.b)))
            && (!x.locked ==> May(u.s, Put(x.b)))
            && (x.locked && !u.s.bufs[x.b].valid ==> May(u.s, ReadIn(x.b)))
            && (x.locked && u.s.bufs[x.b].valid ==>
                  May(u.s, WriteOut(x.b)) && forall data :: May(u.s, Modify(x.b, data)))
  {
    hide Ordered, Unique;
    Referenced(u, r);
  }

  /** `bget` counts a reference, and gives a buffer that caches k; it takes no buffer that is referred to. */
  lemma {:induction false} GetSound(u: Run, q: int, k: Key)
    requires Sound(u) && May(u.s, Get(k))
    ensures Sound(Next(u, Act(Get(k), q, 0)))
  {
    hide Ordered, Unique, Pick;
    var a := Act(Get(k), q, 0);
    var v, b := Next(u, a), Pick(u.s, k);
    DoInv(u.s, Get(k));
    PickKey(u.s, k);
    OthersSame(u.s, Get(k), b);
    forall c | 0 <= c < NBUF
      ensures CountOk(v, c)
    {
      assert CountOk(u, c);
      CountMore(u.refs, Ref(q, b, k, false), c, false);
      CountMore(u.refs, Ref(q, b, k, false), c, true);
    }
    forall r | 0 <= r < |u.refs|
      ensures RefOk(v.s, u.refs[r])
    {
      Referenced(u, r);
      assert RefOk(u.s, u.refs[r]);
    }
  }

  lemma {:induction false} NextSound(u: Run, a: Act)
    requires Sound(u) && Entitled(u, a) && May(u.s, a.step) && !a.step.Get?
    ensures Sound(Next(u, a))
  {
    hide Ordered, Unique;
    var v, b := Next(u, a), a.step.b;
    DoInv(u.s, a.step);
    OthersSame(u.s, a.step, b);
    Referenced(u, a.r);
    assert RefOk(u.s, u.refs[a.r]) && CountOk(u, b);
    forall c | 0 <= c < NBUF
      ensures CountOk(v, c)
    {
      assert CountOk(u, c);
      CountCut(u.refs, a.r, c, false);
      CountCut(u.refs, a.r, c, true);
      CountSet(u.refs, a.r, u.refs[a.r].(locked := a.step.Lock?), c, false);
      CountSet(u.refs, a.r, u.refs[a.r].(locked := a.step.Lock?), c, true);
    }
    forall r | 0 <= r < |v.refs|
      ensures RefOk(v.s, v.refs[r])
    {
      assert RefOk(u.s, u.refs[if a.step.Put? && r >= a.r then r + 1 else r]);
    }
  }

  // ------------------------------------------------------------------ runs

  ghost predicate Possible(u: Run, acts: seq<Act>)
    decreases |acts|
  {
    acts == [] || (Entitled(u, acts[0]) && May(u.s, acts[0].step) && Possible(Next(u, acts[0]), acts[1..]))
  }

  ghost function End(u: Run, acts: seq<Act>): Run
    requires Possible(u, acts)
    decreases |acts|
  {
    if acts == [] then u else End(Next(u, acts[0]), acts[1..])
  }

  lemma {:induction false} RunSound(u: Run, acts: seq<Act>)
    requires Sound(u) && Possible(u, acts)
    ensures Sound(End(u, acts))
    decreases |acts|
  {
    hide Sound, Next, May, Entitled;
    if acts != [] {
      SoundNext(u, acts[0]);
      RunSound(Next(u, acts[0]), acts[1..]);
    }
  }

  lemma SoundNext(u: Run, a: Act)
    requires Sound(u) && Entitled(u, a) && May(u.s, a.step)
    ensures Sound(Next(u, a))
  {
    hide Sound, May;
    if a.step.Get? {
      GetSound(u, a.q, a.step.k);
      assert Next(u, a) == Next(u, Act(a.step, a.q, 0));
    } else {
      NextSound(u, a);
    }
  }

  /**
   In every run from boot of any processes: the reference count of each buffer is the number of processes'
   references to it, its lock is held by one of them or free, and whoever has asked for a block has a
   buffer that caches this block, however long it waits for the lock.
   */
  lemma {:induction false} CountsRight(disk: map<Key, Block>, acts: seq<Act>)
    requires Possible(Run(Init(disk), []), acts)
    ensures var v := End(Run(Init(disk), []), acts);
            && |v.s.bufs| == NBUF
            && (forall b :: 0 <= b < NBUF ==> CountOk(v, b))
            && forall r :: 0 <= r < |v.refs| ==>
                 0 <= v.refs[r].b < NBUF && v.s.bufs[v.refs[r].b].key == v.refs[r].k
                 && v.s.bufs[v.refs[r].b].refcnt >= 1
  {
    var u := Run(Init(disk), []);
    InitInv(disk);
    forall b | 0 <= b < NBUF
      ensures CountOk(u, b)
    {
    }
    RunSound(u, acts);
    var v := End(u, acts);
    hide Possible, End, Ordered, Unique, Count;
    forall r | 0 <= r < |v.refs|
      ensures 0 <= v.refs[r].b < NBUF && v.s.bufs[v.refs[r].b].key == v.refs[r].k
      ensures v.s.bufs[v.refs[r].b].refcnt >= 1
    {
      Referenced(v, r);
      assert RefOk(v.s, v.refs[r]);
    }
  }

  /** A buffer that a process refers to is not recycled for another block, and two hits give the same buffer. */
  lemma {:induction false} NotVictim(u: Run, k: Key, r: nat)
    requires Sound(u) && May(u.s, Get(k)) && r < |u.refs|
    ensures Pick(u.s, k) == u.refs[r].b <==> u.refs[r].k == k
  {
    hide Ordered, Pick;
    Referenced(u, r);
    assert RefOk(u.s, u.refs[r]);
    PickKey(u.s, k);
    Alone(u.s, u.refs[r].b);
  }
}
