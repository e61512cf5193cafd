/**
 Who waits for what, told by what processes did and not by where the table says they sleep: the history of a
 run keeps, for each process, the call in which it last gave up the CPU to wait. Nothing in ProcTable
 decides anything by it.
 */
module ProcWaits {
  import opened ProcTable

  /** The process went to sleep in `wait` with living children only, or in `sleep(addr)`; or it has run since. */
  datatype Why = Awake | InWait | InSleep(addr: int)

  datatype Run = Run(s: State, why: seq<Why>)

  /** A round of `wait` by p has a reason to wait: it has children, none is a zombie, it is not killed. */
  predicate MustWait(ps: seq<Proc>, p: int)
    requires 0 <= p < |ps|
  {
    && (exists c :: 0 <= c < |ps| && ps[c].parent == p) && !ps[p].killed
    && forall c :: 0 <= c < |ps| && ps[c].parent == p ==> ps[c].state != ZOMBIE
  }

  predicate MayNext(u: Run, step: Step) { May(u.s, step) && |u.why| == NPROC }

  function Next(u: Run, step: Step): Run
    requires MayNext(u, step)
  {
    var t := Do(u.s, step);
    match step
    case Wait(p) => Run(t, if MustWait(u.s.ps, p) then u.why[p := InWait] else u.why)
    case Sleep(p, addr) => Run(t, u.why[p := InSleep(addr)])
    case Schedule(p) => Run(t, u.why[p := Why.Awake])
    case Alloc(_) => Run(t, u.why[FirstUnused(u.s.ps, 0) := Why.Awake])
    case _ => Run(t, u.why)
  }

  /** A sleeper sleeps on what it waits for. */
  predicate WhyOk(x: Proc, why: Why, p: int) {
    && (x.state == SLEEPING ==> (why == InWait && x.chan == OfProc(p)) || (why.InSleep? && x.chan == Other(why.addr)))
    && (x.state == RUNNING ==> why == Why.Awake)
  }

  ghost predicate Sound(u: Run) {
    Inv(u.s) && |u.why| == NPROC && forall p :: 0 <= p < NPROC ==> WhyOk(u.s.ps[p], u.why[p], p)
  }

  /** Entry y is entry x, or one that cannot sleep. */
  predicate Quieter(x: Proc, y: Proc) {
    && (y.state == SLEEPING ==> x.state == SLEEPING && y.chan == x.chan) && (y.state == RUNNING ==> x.state == RUNNING)
  }

  lemma {:induction false} Others(s: State, step: Step, i: int)
    requires Inv(s) && May(s, step) && 0 <= i < NPROC
    requires step.Wait? || step.Sleep? || step.Schedule? ==> i != step.p
    ensures |Do(s, step).ps| == NPROC && Quieter(s.ps[i], Do(s, step).ps[i])
  {
    hide Inv, Exited, FirstPid, FirstUnused, FirstZombie;
    if step.Exit? {
      ExitedAt(s.ps, step.p, s.ticks);
      assert ExitOk(s.ps[i], Do(s, step).ps[i], i, step.p, s.ps[step.p].parent, LeftZombie(s.ps, step.p, NPROC),
                    s.ticks);
    }
  }

  /** A round of `wait` reaps, gives up or sleeps. */
  lemma {:induction false} Rounds(s: State, p: int)
    requires May(s, Wait(p))
    ensures var t := Do(s, Wait(p));
            && |t.ps| == NPROC && (t.ps[p].state == SLEEPING <==> MustWait(s.ps, p))
            && (t.ps[p].state == SLEEPING ==> t.ps[p].chan == OfProc(p))
            && (t.ps[p].state == RUNNING || t.ps[p].state == SLEEPING || s.ps[p].parent == p)
            && (t.ps[p].state == SLEEPING ==> forall i :: 0 <= i < NPROC && i != p ==> t.ps[i] == s.ps[i])
  {
    var z := FirstZombie(s.ps, p, 0);
    if z < NPROC {
      assert s.ps[z].parent == p && s.ps[z].state == ZOMBIE;
    }
  }

  lemma {:induction false} NextSound(u: Run, step: Step)
    requires Sound(u) && MayNext(u, step)
    ensures Sound(Next(u, step))
  {
    hide ParentOk, ForkOk, WaitOk, ChanOk, Do;
    DoInv(u.s, step);
    var v := Next(u, step);
    if step.Wait? {
      Rounds(u.s, step.p);
    }
    forall i | 0 <= i < NPROC
      ensures WhyOk(v.s.ps[i], v.why[i], i)
    {
      assert WhyOk(u.s.ps[i], u.why[i], i);
      if (step.Wait? || step.Sleep? || step.Schedule?) && i == step.p {
        Actor(u.s, step);
      } else {
        Others(u.s, step, i);
        if step.Alloc? && i == FirstUnused(u.s.ps, 0) {
          Fresh(u.s, step.p);
        }
      }
    }
  }

  lemma Fresh(s: State, p: int)
    requires May(s, Alloc(p))
    ensures Do(s, Alloc(p)).ps[FirstUnused(s.ps, 0)].state == EMBRYO
  {
  }

  lemma {:induction false} Actor(s: State, step: Step)
    requires Inv(s) && May(s, step) && (step.Wait? || step.Sleep? || step.Schedule?)
    ensures |Do(s, step).ps| == NPROC
    ensures var y := Do(s, step).ps[step.p];
            match step
            case Sleep(_, addr) => y.state == SLEEPING && y.chan == Other(addr)
            case Schedule(_) => y.state == RUNNING
            case Wait(p) => y.state == SLEEPING || y.state == RUNNING
            case _ => true
  {
    assert ParentOk(s, step.p);
    hide Inv;
  }

  // ------------------------------------------------------------------ runs

  ghost predicate Possible(u: Run, steps: seq<Step>)
    decreases |steps|
  {
    steps == [] || (MayNext(u, steps[0]) && Possible(Next(u, steps[0]), steps[1..]))
  }

  ghost function End(u: Run, steps: seq<Step>): Run
    requires Possible(u, steps)
    decreases |steps|
  {
    if steps == [] then u else End(Next(u, steps[0]), steps[1..])
  }

  lemma {:induction false} RunSound(u: Run, steps: seq<Step>)
    requires Sound(u) && Possible(u, steps)
    ensures Sound(End(u, steps))
    decreases |steps|
  {
    hide Sound, Next, MayNext;
    if steps != [] {
      NextSound(u, steps[0]);
      RunSound(Next(u, steps[0]), steps[1..]);
    }
  }

  /** `userinit`; nobody waits yet. */
  ghost predicate Start(u: Run) { Boot(u.s) && u.why == seq(NPROC, _ => Why.Awake) }

  lemma StartSound(u: Run)
    requires Start(u)
    ensures Sound(u)
  {
    hide Inv;
    BootInv(u.s);
  }

  /**
   In every run from boot, whoever went to sleep in `wait` and still sleeps has no zombie child, and the exit
   of any child wakes it; whoever went to sleep in `sleep(addr)` and still sleeps is woken by `wakeup(addr)`.
   */
  lemma {:induction false} WaitersWoken(u: Run, steps: seq<Step>, p: int, step: Step)
    requires Start(u) && Possible(u, steps) && 0 <= p < NPROC && MayNext(End(u, steps), step)
    requires End(u, steps).s.ps[p].state == SLEEPING
    ensures var v, t := End(u, steps), Do(End(u, steps).s, step);
            && |t.ps| == NPROC
            && (v.why[p] == InWait ==>
                  forall c :: 0 <= c < NPROC && v.s.ps[c].parent == p ==> v.s.ps[c].state != ZOMBIE)
            && (v.why[p] == InWait && step.Exit? && v.s.ps[step.p].parent == p ==> t.ps[p].state == RUNNABLE)
            && (step.Wakeup? && v.why[p] == InSleep(step.addr) ==> t.ps[p].state == RUNNABLE)
  {
    StartSound(u);
    RunSound(u, steps);
    var v := End(u, steps);
    hide Possible, End, Inv, Exited;
    assert WhyOk(v.s.ps[p], v.why[p], p);
    if v.why[p] == InWait {
      WaitersKids(v.s, p);
    }
    if step.Exit? {
      ExitedAt(v.s.ps, step.p, v.s.ticks);
      var left := LeftZombie(v.s.ps, step.p, NPROC);
      assert ExitOk(v.s.ps[p], Do(v.s, step).ps[p], p, step.p, v.s.ps[step.p].parent, left, v.s.ticks);
    }
  }

  lemma WaitersKids(s: State, p: int)
    requires Inv(s) && 0 <= p < NPROC && s.ps[p].state == SLEEPING && s.ps[p].chan == OfProc(p)
    ensures forall c :: 0 <= c < NPROC && s.ps[c].parent == p ==> s.ps[c].state != ZOMBIE
  {
    forall c | 0 <= c < NPROC && s.ps[c].parent == p
      ensures s.ps[c].state != ZOMBIE
    {
      assert WaitOk(s, p, c);
    }
  }

  /** `wakeup(addr)` makes exactly those runnable that sleep in `sleep(addr)`, and changes nobody else. */
  lemma {:induction false} WakeupExactly(u: Run, addr: int, p: int)
    requires Sound(u) && MayNext(u, Wakeup(addr)) && 0 <= p < NPROC
    ensures var x, y := u.s.ps[p], Do(u.s, Wakeup(addr)).ps[p];
            if x.state == SLEEPING && u.why[p] == InSleep(addr)
            then y == x.(state := RUNNABLE, snap := u.s.ticks) else y == x
  {
    hide Inv;
    assert WhyOk(u.s.ps[p], u.why[p], p);
  }

  /** A call that has to wait does sleep, and nobody else is touched. */
  lemma {:induction false} Sleeps(u: Run, step: Step, i: int)
    requires Sound(u) && MayNext(u, step) && 0 <= i < NPROC
    requires step.Sleep? || (step.Wait? && MustWait(u.s.ps, step.p))
    ensures var v := Next(u, step);
            && |v.s.ps| == NPROC && v.s.ps[step.p].state == SLEEPING
            && v.why[step.p] == (if step.Sleep? then InSleep(step.addr) else InWait)
            && (i != step.p ==> v.s.ps[i] == u.s.ps[i])
  {
    hide Inv;
    if step.Wait? {
      Rounds(u.s, step.p);
    }
  }
}
