/**
 The process table as a machine of steps, each one a stretch of code under ptable.lock (or, in
 `fork`, on an entry that nobody else uses yet): fork, sleep, wakeup, kill, scheduling, exit, wait.
 */
module ProcTable {

  const NPROC := 64
  const INIT := 0       // the entry of initproc
  const NONE := -1

  datatype ProcState = UNUSED | EMBRYO | SLEEPING | RUNNABLE | RUNNING | ZOMBIE

  /** What a process sleeps on: nothing, a process (in `wait`), or any other address. */
  datatype Chan = NoChan | OfProc(i: int) | Other(addr: int)

  datatype Proc = Proc(state: ProcState, pid: int, parent: int, chan: Chan, killed: bool,
                       wtime: int, rutime: int, snap: int)

  // ------------------------------------------------- changes of one entry

  function Born(x: Proc, pid: int, t: int): Proc {
    x.(state := EMBRYO, pid := pid, wtime := 0, rutime := 0, snap := t)
  }

  /** `scheduler` reads the clock twice. */
  function Dispatched(x: Proc, t: int, t': int): Proc {
    x.(state := RUNNING, wtime := x.wtime + (t - x.snap), snap := t')
  }

  /** So does `yield`. */
  function Yielded(x: Proc, t: int, t': int): Proc {
    x.(state := RUNNABLE, rutime := x.rutime + (t - x.snap), snap := t')
  }

  function Asleep(x: Proc, chan: Chan, t: int): Proc {
    x.(state := SLEEPING, chan := chan, rutime := x.rutime + (t - x.snap))
  }

  function Awake(x: Proc, t: int): Proc { x.(state := RUNNABLE, snap := t) }

  function Dead(x: Proc, t: int): Proc { x.(state := ZOMBIE, rutime := x.rutime + (t - x.snap)) }

  /** `wait2` clears the entry; `wait` leaves the times for `allocproc` to clear. */
  function Cleared(x: Proc): Proc {
    x.(state := UNUSED, pid := 0, parent := NONE, killed := false, wtime := 0, rutime := 0)
  }

  // --------------------------------------------------- changes of the table

  function WakeOne(x: Proc, chan: Chan, t: int): Proc {
    if x.state == SLEEPING && x.chan == chan then Awake(x, t) else x
  }

  /** `wakeup1` */
  function Wakened(ps: seq<Proc>, chan: Chan, t: int): (r: seq<Proc>)
    ensures |r| == |ps|
  {
    seq(|ps|, i requires 0 <= i < |ps| => WakeOne(ps[i], chan, t))
  }

  /** The loop of `exit` over the first k entries: children of p go to init. */
  function Orphaned(ps: seq<Proc>, p: int, k: int, t: int): (r: seq<Proc>)
    requires 0 <= k <= |ps|
    ensures |r| == |ps|
    decreases k
  {
    if k == 0 then ps
    else
      var q := Orphaned(ps, p, k - 1, t);
      if q[k - 1].parent != p then q
      else
        var r := q[k - 1 := q[k - 1].(parent := INIT)];
        if r[k - 1].state == ZOMBIE then Wakened(r, OfProc(INIT), t) else r
  }

  function Exited(ps: seq<Proc>, p: int, t: int): (r: seq<Proc>)
    requires 0 <= p < |ps|
    ensures |r| == |ps|
  {
    var q := Orphaned(Wakened(ps, OfProc(ps[p].parent), t), p, |ps|, t);
    q[p := Dead(q[p], t)]
  }

  /** The first entry from k on that satisfies the test, or |ps|. */
  function FirstUnused(ps: seq<Proc>, k: int): (r: int)
    requires 0 <= k <= |ps|
    ensures k <= r <= |ps| && (r < |ps| ==> ps[r].state == UNUSED) && forall i :: k <= i < r ==> ps[i].state != UNUSED
    decreases |ps| - k
  {
    if k == |ps| || ps[k].state == UNUSED then k else FirstUnused(ps, k + 1)
  }

  function FirstZombie(ps: seq<Proc>, p: int, k: int): (r: int)
    requires 0 <= k <= |ps|
    ensures k <= r <= |ps| && (r < |ps| ==> ps[r].parent == p && ps[r].state == ZOMBIE)
    ensures forall i :: k <= i < r ==> ps[i].parent != p || ps[i].state != ZOMBIE
    decreases |ps| - k
  {
    if k == |ps| || (ps[k].parent == p && ps[k].state == ZOMBIE) then k else FirstZombie(ps, p, k + 1)
  }

  function FirstPid(ps: seq<Proc>, pid: int, k: int): (r: int)
    requires 0 <= k <= |ps|
    ensures k <= r <= |ps| && (r < |ps| ==> ps[r].pid == pid) && forall i :: k <= i < r ==> ps[i].pid != pid
    decreases |ps| - k
  {
    if k == |ps| || ps[k].pid == pid then k else FirstPid(ps, pid, k + 1)
  }

  predicate HasKids(ps: seq<Proc>, p: int) { exists i :: 0 <= i < |ps| && ps[i].parent == p }

  // -------------------------------------------------------------- machine

  /** fork[p] is the entry that p is making a child in, or NONE. */
  datatype State = State(ps: seq<Proc>, fork: seq<int>, nextpid: int, ticks: int)

  datatype Step =
    | Alloc(p: int)              // p in fork: allocproc
    | Drop(p: int)               // fork gives the entry up
    | Adopt(p: int)              // np->parent = curproc
    | Start(p: int)              // np->state = RUNNABLE
    | Schedule(p: int)
    | Yield(p: int)
    | Sleep(p: int, addr: int)   // sleep on something that is not a process
    | Wakeup(addr: int)
    | Kill(pid: int)
    | Wait(p: int)               // one round of wait or wait2
    | Exit(p: int)
    | Tick

  predicate Runs(s: State, p: int) {
    0 <= p < |s.ps| && s.ps[p].state == RUNNING
  }

  predicate Shape(s: State) { |s.ps| == NPROC == |s.fork| }

  predicate Making(s: State, p: int) {
    Shape(s) && Runs(s, p) && 0 <= s.fork[p] < NPROC
  }

  /** When the code takes the step. */
  predicate May(s: State, step: Step) {
    && Shape(s)
    && match step
       case Alloc(p) => Runs(s, p) && s.fork[p] == NONE && FirstUnused(s.ps, 0) < NPROC
       case Drop(p) => Making(s, p) && s.ps[s.fork[p]].parent == NONE
       case Adopt(p) => Making(s, p)
       case Start(p) => Making(s, p) && s.ps[s.fork[p]].parent == p
       case Schedule(p) => 0 <= p < NPROC && s.ps[p].state == RUNNABLE
       case Yield(p) => Runs(s, p)
       case Sleep(p, _) => Runs(s, p)
       case Wait(p) => Runs(s, p) && s.fork[p] == NONE
       case Exit(p) => Runs(s, p) && s.fork[p] == NONE && p != INIT
       case _ => true
  }

  function Put(s: State, p: int, x: Proc): State
    requires 0 <= p < |s.ps|
  {
    s.(ps := s.ps[p := x])
  }

  /** One round of `wait`: reap the first zombie child, give up, or sleep. */
  function Waited(ps: seq<Proc>, p: int, t: int): seq<Proc>
    requires 0 <= p < |ps|
  {
    var z := FirstZombie(ps, p, 0);
    if z < |ps| then ps[z := Cleared(ps[z])]
    else if !HasKids(ps, p) || ps[p].killed then ps
    else ps[p := Asleep(ps[p], OfProc(p), t)]
  }

  function Killed(x: Proc, t: int): Proc {
    var y := x.(killed := true);
    if y.state == SLEEPING then Awake(y, t) else y
  }

  function Do(s: State, step: Step): State
    requires May(s, step)
  {
    match step
    case Alloc(p) =>
      var c := FirstUnused(s.ps, 0);
      Put(s, c, Born(s.ps[c], s.nextpid, s.ticks)).(fork := s.fork[p := c], nextpid := s.nextpid + 1)
    case Drop(p) => var c := s.fork[p]; Put(s, c, s.ps[c].(state := UNUSED)).(fork := s.fork[p := NONE])
    case Adopt(p) => var c := s.fork[p]; Put(s, c, s.ps[c].(parent := p))
    case Start(p) => var c := s.fork[p]; Put(s, c, s.ps[c].(state := RUNNABLE)).(fork := s.fork[p := NONE])
    case Schedule(p) => Put(s, p, Dispatched(s.ps[p], s.ticks, s.ticks).(chan := NoChan))
    case Yield(p) => Put(s, p, Yielded(s.ps[p], s.ticks, s.ticks))
    case Sleep(p, addr) => Put(s, p, Asleep(s.ps[p], Other(addr), s.ticks))
    case Wakeup(addr) => s.(ps := Wakened(s.ps, Other(addr), s.ticks))
    case Kill(pid) =>
      var p := FirstPid(s.ps, pid, 0);
      if p < |s.ps| then Put(s, p, Killed(s.ps[p], s.ticks)) else s
    case Wait(p) => s.(ps := Waited(s.ps, p, s.ticks))
    case Exit(p) => s.(ps := Exited(s.ps, p, s.ticks))
    case Tick => s.(ticks := s.ticks + 1)
  }

  // ------------------------------------------------------------ invariant

  predicate Alive(s: State, p: int) {
    0 <= p < |s.ps| && s.ps[p].state in {SLEEPING, RUNNABLE, RUNNING}
  }

  predicate Started(x: Proc) { x.state != UNUSED && x.state != EMBRYO }

  /** Entry c has the parent it should have. */
  predicate ParentOk(s: State, c: int)
    requires Shape(s) && 0 <= c < NPROC
  {
    var x := s.ps[c];
    && (x.state == UNUSED ==> x.parent == NONE) && x.parent != c
    && (x.state == EMBRYO && x.parent != NONE ==> 0 <= x.parent < NPROC && s.fork[x.parent] == c)
    && (Started(x) && c != INIT ==> Alive(s, x.parent))
    && (c == INIT ==> x.parent == NONE && Alive(s, INIT))
  }

  predicate ForkOk(s: State, p: int)
    requires Shape(s) && 0 <= p < NPROC
  {
    var c := s.fork[p];
    c != NONE ==> 0 <= c < NPROC && s.ps[c].state == EMBRYO && s.ps[c].parent in {NONE, p} && Alive(s, p)
  }

  /** A process asleep in `wait` has no zombie child. */
  predicate WaitOk(s: State, p: int, c: int)
    requires Shape(s) && 0 <= p < NPROC && 0 <= c < NPROC
  {
    s.ps[p].state == SLEEPING && s.ps[p].chan == OfProc(p) && s.ps[c].parent == p ==> s.ps[c].state != ZOMBIE
  }

  predicate ChanOk(s: State, p: int)
    requires Shape(s) && 0 <= p < NPROC
  {
    s.ps[p].state == SLEEPING && s.ps[p].chan.OfProc? ==> s.ps[p].chan == OfProc(p)
  }

  ghost predicate Inv(s: State) {
    && Shape(s)
    && (forall c {:trigger ParentOk(s, c)} :: 0 <= c < NPROC ==> ParentOk(s, c))
    && (forall p {:trigger ForkOk(s, p)} :: 0 <= p < NPROC ==> ForkOk(s, p))
    && (forall p, q :: 0 <= p < q < NPROC && s.fork[p] == s.fork[q] ==> s.fork[p] == NONE)
    && (forall p, c {:trigger WaitOk(s, p, c)} :: 0 <= p < NPROC && 0 <= c < NPROC ==> WaitOk(s, p, c))
    && (forall p {:trigger ChanOk(s, p)} :: 0 <= p < NPROC ==> ChanOk(s, p))
  }

  /** userinit: process INIT can run, no other entry is in use. */
  ghost predicate Boot(s: State) {
    && Shape(s) && (forall p :: 0 <= p < NPROC ==> s.fork[p] == NONE && s.ps[p].parent == NONE)
    && s.ps[INIT].state == RUNNABLE && forall p :: 0 < p < NPROC ==> s.ps[p].state == UNUSED
  }

  lemma BootInv(s: State)
    requires Boot(s)
    ensures Inv(s)
  {
  }

  /** Entry y is entry x after changes that matter neither to its parent nor to waiters. */
  predicate Mild(x: Proc, y: Proc) {
    && y.parent == x.parent
    && (y.state == x.state || (x.state in {SLEEPING, RUNNABLE, RUNNING} && y.state in {SLEEPING, RUNNABLE, RUNNING}))
    && (y.state == SLEEPING && y.chan.OfProc? ==> x.state == SLEEPING && x.chan == y.chan)
  }

  lemma {:induction false} MildInv(s: State, t: State)
    requires Inv(s) && Shape(t) && t.fork == s.fork && forall i :: 0 <= i < NPROC ==> Mild(s.ps[i], t.ps[i])
    ensures Inv(t)
  {
    forall c | 0 <= c < NPROC
      ensures ParentOk(t, c) && ForkOk(t, c) && ChanOk(t, c)
    {
      assert ParentOk(s, c) && ForkOk(s, c) && ChanOk(s, c);
    }
    forall p, c | 0 <= p < NPROC && 0 <= c < NPROC
      ensures WaitOk(t, p, c)
    {
      assert WaitOk(s, p, c);
    }
  }

  /** What is left to check when one entry changes and perhaps one fork[p]. */
  lemma {:induction false} EntryInv(s: State, t: State, c: int)
    requires Inv(s) && Shape(t) && 0 <= c < NPROC
    requires forall i :: 0 <= i < NPROC && i != c ==> t.ps[i] == s.ps[i]
    requires Alive(s, c) ==> Alive(t, c)
    requires forall i :: 0 <= i < NPROC && i != c && s.ps[i].state == EMBRYO && s.ps[i].parent != NONE ==>
               0 <= s.ps[i].parent < NPROC && t.fork[s.ps[i].parent] == i
    requires ParentOk(t, c) && ChanOk(t, c)
    requires forall p :: 0 <= p < NPROC ==> ForkOk(t, p)
    requires forall p, q :: 0 <= p < q < NPROC && t.fork[p] == t.fork[q] ==> t.fork[p] == NONE
    requires forall p :: 0 <= p < NPROC ==> WaitOk(t, p, c) && WaitOk(t, c, p)
    ensures Inv(t)
  {
    forall i | 0 <= i < NPROC
      ensures ParentOk(t, i) && ChanOk(t, i)
    {
      assert ParentOk(s, i) && ChanOk(s, i);
    }
    forall p, q | 0 <= p < NPROC && 0 <= q < NPROC
      ensures WaitOk(t, p, q)
    {
      assert WaitOk(s, p, q);
    }
  }

  lemma {:induction false} AllocInv(s: State, p: int)
    requires Inv(s) && May(s, Alloc(p))
    ensures Inv(Do(s, Alloc(p)))
  {
    var c, t := FirstUnused(s.ps, 0), Do(s, Alloc(p));
    assert ParentOk(s, c);
    forall q | 0 <= q < NPROC
      ensures ForkOk(t, q) && WaitOk(t, q, c) && WaitOk(t, c, q) && s.fork[q] != c
    {
      assert ForkOk(s, q) && WaitOk(s, q, c) && WaitOk(s, c, q) && ParentOk(s, q);
    }
    EmbryosKept(s, t, p, c);
    EntryInv(s, t, c);
  }

  /** A fork that p begins or ends does not touch other entries being made. */
  lemma {:induction false} EmbryosKept(s: State, t: State, p: int, c: int)
    requires Inv(s) && Shape(t) && 0 <= p < NPROC && (s.fork[p] == NONE || s.fork[p] == c)
    requires forall q :: 0 <= q < NPROC && q != p ==> t.fork[q] == s.fork[q]
    ensures forall i :: 0 <= i < NPROC && i != c && s.ps[i].state == EMBRYO && s.ps[i].parent != NONE ==>
              0 <= s.ps[i].parent < NPROC && t.fork[s.ps[i].parent] == i
  {
    forall i | 0 <= i < NPROC && i != c && s.ps[i].state == EMBRYO && s.ps[i].parent != NONE
      ensures 0 <= s.ps[i].parent < NPROC && t.fork[s.ps[i].parent] == i
    {
      assert ParentOk(s, i);
    }
  }

  lemma {:induction false} MakingInv(s: State, step: Step, p: int)
    requires Inv(s) && May(s, step) && (step == Drop(p) || step == Adopt(p) || step == Start(p))
    ensures Inv(Do(s, step))
  {
    var c, t := s.fork[p], Do(s, step);
    assert ForkOk(s, p) && ParentOk(s, c) && ParentOk(s, p);
    forall q | 0 <= q < NPROC
      ensures ForkOk(t, q) && WaitOk(t, q, c) && WaitOk(t, c, q)
    {
      assert ForkOk(s, q) && WaitOk(s, q, c) && WaitOk(s, c, q) && ParentOk(s, q);
    }
    EmbryosKept(s, t, p, c);
    EntryInv(s, t, c);
  }

  lemma {:induction false} WaitInv(s: State, p: int)
    requires Inv(s) && May(s, Wait(p))
    ensures Inv(Do(s, Wait(p)))
  {
    var z, t := FirstZombie(s.ps, p, 0), Do(s, Wait(p));
    var c := if z < NPROC then z else p;
    assert ParentOk(s, c) && ForkOk(s, c);
    forall q | 0 <= q < NPROC
      ensures ForkOk(t, q) && WaitOk(t, q, c) && WaitOk(t, c, q)
    {
      assert ForkOk(s, q) && WaitOk(s, q, c) && WaitOk(s, c, q) && ParentOk(s, q);
    }
    EmbryosKept(s, t, c, NONE);
    EntryInv(s, t, c);
  }

  // ------------------------------------------------------------------ exit

  /** A child of p goes to init. */
  function Passed(x: Proc, p: int): Proc {
    if x.parent == p then x.(parent := INIT) else x
  }

  /** What the loop of `exit` has done to entry i; `left` tells whether it has found a zombie. */
  predicate OrphanOk(x: Proc, y: Proc, i: int, p: int, k: int, left: bool, t: int) {
    var z := if i < k then Passed(x, p) else x;
    y == if left && x.state == SLEEPING && x.chan == OfProc(INIT) then z.(state := RUNNABLE, snap := t) else z
  }

  ghost predicate LeftZombie(ps: seq<Proc>, p: int, k: int) {
    exists j :: 0 <= j < k && j < |ps| && ps[j].parent == p && ps[j].state == ZOMBIE
  }

  lemma {:induction false} OrphanedAt(ps: seq<Proc>, p: int, k: int, t: int)
    requires 0 <= k <= |ps| && p != INIT
    ensures var r, left := Orphaned(ps, p, k, t), LeftZombie(ps, p, k);
            forall i :: 0 <= i < |ps| ==> OrphanOk(ps[i], r[i], i, p, k, left, t)
  {
    if k > 0 {
      OrphanedAt(ps, p, k - 1, t);
      var q, r := Orphaned(ps, p, k - 1, t), Orphaned(ps, p, k, t);
      var left := LeftZombie(ps, p, k - 1);
      assert OrphanOk(ps[k - 1], q[k - 1], k - 1, p, k - 1, left, t);
      assert LeftZombie(ps, p, k) <==> left || (ps[k - 1].parent == p && ps[k - 1].state == ZOMBIE) by {
        if ps[k - 1].parent == p && ps[k - 1].state == ZOMBIE {
          assert LeftZombie(ps, p, k);
        }
      }
      forall i | 0 <= i < |ps|
        ensures OrphanOk(ps[i], r[i], i, p, k, LeftZombie(ps, p, k), t)
      {
        assert OrphanOk(ps[i], q[i], i, p, k - 1, left, t);
      }
    }
  }

  /**
   What `exit` of p does to entry i: p becomes a zombie with its running time; its children go to init; those
   asleep in p's parent's `wait` run on, and those in init's if it gets a zombie. Nothing else changes.
   */
  predicate ExitOk(x: Proc, y: Proc, i: int, p: int, parent: int, left: bool, t: int) {
    var z := Passed(x, p);
    y == if i == p then z.(state := ZOMBIE, rutime := x.rutime + (t - x.snap))
         else if x.state == SLEEPING && (x.chan == OfProc(parent) || (left && x.chan == OfProc(INIT)))
         then z.(state := RUNNABLE, snap := t) else z
  }

  lemma {:induction false} ExitedAt(ps: seq<Proc>, p: int, t: int)
    requires 0 <= p < |ps| && p != INIT && ps[p].state != SLEEPING
    ensures var r, left := Exited(ps, p, t), LeftZombie(ps, p, |ps|);
            forall i :: 0 <= i < |ps| ==> ExitOk(ps[i], r[i], i, p, ps[p].parent, left, t)
  {
    hide Orphaned;
    var w := Wakened(ps, OfProc(ps[p].parent), t);
    OrphanedAt(w, p, |ps|, t);
    var q, r, left := Orphaned(w, p, |ps|, t), Exited(ps, p, t), LeftZombie(ps, p, |ps|);
    assert LeftZombie(w, p, |ps|) <==> left by {
      if left {
        var j :| 0 <= j < |ps| && ps[j].parent == p && ps[j].state == ZOMBIE;
        assert w[j].parent == p && w[j].state == ZOMBIE;
      }
    }
    forall i | 0 <= i < |ps|
      ensures ExitOk(ps[i], r[i], i, p, ps[p].parent, left, t)
    {
      assert OrphanOk(w[i], q[i], i, p, |ps|, left, t);
    }
  }

  lemma {:induction false} ExitInv(s: State, p: int)
    requires Inv(s) && May(s, Exit(p))
    ensures Inv(Do(s, Exit(p)))
  {
    hide Exited, ParentOk, ForkOk, ChanOk, WaitOk;
    var t := Do(s, Exit(p));
    ExitedAt(s.ps, p, s.ticks);
    hide ExitOk, LeftZombie;
    forall c | 0 <= c < NPROC
      ensures ParentOk(t, c) && ForkOk(t, c) && ChanOk(t, c)
    {
      ExitEntry(s, t, p, c);
    }
    forall q, c | 0 <= q < NPROC && 0 <= c < NPROC
      ensures WaitOk(t, q, c)
    {
      ExitWait(s, t, p, q, c);
    }
  }

  lemma {:induction false} ExitEntry(s: State, t: State, p: int, c: int)
    requires Inv(s) && Shape(t) && May(s, Exit(p)) && t.fork == s.fork && 0 <= c < NPROC
    requires var left := LeftZombie(s.ps, p, NPROC);
             forall i :: 0 <= i < NPROC ==> ExitOk(s.ps[i], t.ps[i], i, p, s.ps[p].parent, left, s.ticks)
    ensures ParentOk(t, c) && ForkOk(t, c) && ChanOk(t, c)
  {
    var left := LeftZombie(s.ps, p, NPROC);
    assert ParentOk(s, p) && ParentOk(s, INIT) && ParentOk(s, c) && ForkOk(s, c) && ChanOk(s, c);
    hide Inv, LeftZombie;
    assert ExitOk(s.ps[c], t.ps[c], c, p, s.ps[p].parent, left, s.ticks);
    assert ExitOk(s.ps[INIT], t.ps[INIT], INIT, p, s.ps[p].parent, left, s.ticks);
  }

  /** Whoever gets a zombie child by p's exit is woken. */
  lemma {:induction false} ExitWait(s: State, t: State, p: int, q: int, c: int)
    requires Inv(s) && Shape(t) && May(s, Exit(p)) && 0 <= q < NPROC && 0 <= c < NPROC
    requires var left := LeftZombie(s.ps, p, NPROC);
             forall i :: 0 <= i < NPROC ==> ExitOk(s.ps[i], t.ps[i], i, p, s.ps[p].parent, left, s.ticks)
    ensures WaitOk(t, q, c)
  {
    var left := LeftZombie(s.ps, p, NPROC);
    assert ExitOk(s.ps[c], t.ps[c], c, p, s.ps[p].parent, left, s.ticks);
    assert ExitOk(s.ps[q], t.ps[q], q, p, s.ps[p].parent, left, s.ticks);
    assert WaitOk(s, q, c) && ParentOk(s, p);
    if c != p && s.ps[c].parent == p && s.ps[c].state == ZOMBIE {
      assert left;
    }
  }

  // ----------------------------------------------------------------- runs

  /** Every step keeps the invariant. */
  lemma {:induction false} DoInv(s: State, step: Step)
    requires Inv(s) && May(s, step)
    ensures Inv(Do(s, step))
  {
    hide Inv, Waited, Exited, FirstPid, FirstUnused;
    match step
    case Alloc(p) => AllocInv(s, p);
    case Drop(p) => MakingInv(s, step, p);
    case Adopt(p) => MakingInv(s, step, p);
    case Start(p) => MakingInv(s, step, p);
    case Wait(p) => WaitInv(s, p);
    case Exit(p) => ExitInv(s, p);
    case _ => MildInv(s, Do(s, step));
  }

  ghost predicate Possible(s: State, steps: seq<Step>)
    decreases |steps|
  {
    steps == [] || (May(s, steps[0]) && Possible(Do(s, steps[0]), steps[1..]))
  }

  ghost function After(s: State, steps: seq<Step>): State
    requires Possible(s, steps)
    decreases |steps|
  {
    if steps == [] then s else After(Do(s, steps[0]), steps[1..])
  }

  /**
   In every run from boot: no process asleep in `wait` has a zombie child, every started process but
   init has a parent that is neither unused nor exited, and init has not exited.
   */
  lemma {:induction false} NoLostExit(s: State, steps: seq<Step>)
    requires Inv(s) && Possible(s, steps)
    ensures Inv(After(s, steps))
    decreases |steps|
  {
    hide Inv, Do, May;
    if steps != [] {
      DoInv(s, steps[0]);
      NoLostExit(Do(s, steps[0]), steps[1..]);
    }
  }

  /** A zombie's parent can still reap it: it has not exited and does not sleep in `wait`. */
  lemma {:induction false} ZombieIsReaped(s: State, steps: seq<Step>, c: int)
    requires Boot(s) && Possible(s, steps) && 0 <= c < NPROC
    requires var t := After(s, steps); |t.ps| == NPROC && t.ps[c].state == ZOMBIE
    ensures var t := After(s, steps);
            var p := t.ps[c].parent;
            && Alive(t, p) && !(t.ps[p].state == SLEEPING && t.ps[p].chan.OfProc?)
            && FirstZombie(t.ps, p, 0) < NPROC
  {
    hide Possible, After;
    BootInv(s);
    NoLostExit(s, steps);
    var t := After(s, steps);
    assert ParentOk(t, c) && WaitOk(t, t.ps[c].parent, c) && ChanOk(t, t.ps[c].parent);
  }
}
