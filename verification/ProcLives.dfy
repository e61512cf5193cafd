/**
 The lives of processes: which pid a process was born with, who made it, whether `kill` was told its pid,
 and what a whole life leaves in the table. Kept beside a run; nothing in ProcTable decides anything by it.
 */
module ProcLives {
  import opened ProcTable

  /** Of the latest process in an entry: its pid, the pid of the process that forked it, whether `kill` named it. */
  datatype Life = Life(pid: int, maker: int, named: bool)

  /** stale[c]: since entry c was last reaped, a `kill` hit it outside the life of its present process. */
  datatype Run = Run(s: State, lives: seq<Life>, stale: seq<bool>)

  predicate InUse(x: Proc) { x.state != UNUSED }

  predicate MayNext(u: Run, step: Step) { May(u.s, step) && |u.lives| == |u.stale| == NPROC }

  /** Nobody has the pid, but a free entry still holds it: 0, or that of a process whose fork gave up. */
  predicate Stray(s: State, pid: int) {
    && (forall c :: 0 <= c < |s.ps| && InUse(s.ps[c]) ==> s.ps[c].pid != pid)
    && (exists c :: 0 <= c < |s.ps| && s.ps[c].pid == pid)
  }

  function Named(lives: seq<Life>, s: State, pid: int): (r: seq<Life>)
    requires |lives| == |s.ps|
    ensures |r| == |lives|
  {
    seq(|lives|, c requires 0 <= c < |lives| =>
      if InUse(s.ps[c]) && lives[c].pid == pid then lives[c].(named := true) else lives[c])
  }

  function Next(u: Run, step: Step): Run
    requires MayNext(u, step)
  {
    var t := Do(u.s, step);
    match step
    case Alloc(p) =>
      var c := FirstUnused(u.s.ps, 0);
      Run(t, u.lives[c := Life(u.s.nextpid, u.lives[p].pid, false)], u.stale)
    case Drop(p) =>
      var c := u.s.fork[p];
      Run(t, u.lives, u.stale[c := u.stale[c] || u.lives[c].named])
    case Wait(p) =>
      var z := FirstZombie(u.s.ps, p, 0);
      Run(t, u.lives, if z < NPROC then u.stale[z := false] else u.stale)
    case Kill(pid) =>
      if Stray(u.s, pid) then Run(t, u.lives, u.stale[FirstPid(u.s.ps, pid, 0) := true])
      else Run(t, Named(u.lives, u.s, pid), u.stale)
    case _ => Run(t, u.lives, u.stale)
  }

  // ------------------------------------------------------------ invariant

  predicate Living(x: Proc) { x.state in {SLEEPING, RUNNABLE, RUNNING} }

  /** Entry c holds the process whose life is recorded. */
  predicate LifeOk(u: Run, c: int)
    requires Shape(u.s) && |u.lives| == |u.stale| == NPROC && 0 <= c < NPROC
  {
    var x, l := u.s.ps[c], u.lives[c];
    && 0 <= x.pid < u.s.nextpid && l.maker < u.s.nextpid
    && (InUse(x) ==> x.pid == l.pid && x.pid > 0)
    && (x.killed <==> u.stale[c] || (InUse(x) && l.named))
    && (x.state == RUNNING ==> x.chan == NoChan)
  }

  /** No two entries hold the same pid, but for 0. */
  ghost predicate PidsDiffer(ps: seq<Proc>) {
    forall c, d :: 0 <= c < d < |ps| && ps[c].pid == ps[d].pid ==> ps[c].pid == 0
  }

  /** The parent is the maker, as long as that lives, and init afterwards. */
  ghost predicate MakerOk(u: Run, c: int)
    requires Shape(u.s) && |u.lives| == NPROC && 0 <= c < NPROC
  {
    var x, l := u.s.ps[c], u.lives[c];
    Started(x) && c != INIT ==>
      && 0 <= x.parent < NPROC
      && (u.s.ps[x.parent].pid == l.maker
          || (x.parent == INIT && forall d :: 0 <= d < NPROC && Living(u.s.ps[d]) ==> u.s.ps[d].pid != l.maker))
  }

  /** A process that is being made was made by the one that is in `fork`, and has made none itself. */
  ghost predicate MakingOk(u: Run, p: int)
    requires Shape(u.s) && |u.lives| == NPROC && 0 <= p < NPROC
  {
    && (0 <= u.s.fork[p] < NPROC ==> u.lives[u.s.fork[p]].maker == u.s.ps[p].pid)
    && (u.s.ps[p].state == EMBRYO ==> forall d :: 0 <= d < NPROC ==> u.lives[d].maker != u.s.ps[p].pid)
  }

  ghost predicate Sound(u: Run) {
    && Inv(u.s) && |u.lives| == |u.stale| == NPROC && PidsDiffer(u.s.ps)
    && (forall c {:trigger LifeOk(u, c)} :: 0 <= c < NPROC ==> LifeOk(u, c))
    && (forall c {:trigger MakerOk(u, c)} :: 0 <= c < NPROC ==> MakerOk(u, c))
    && (forall p {:trigger MakingOk(u, p)} :: 0 <= p < NPROC ==> MakingOk(u, p))
  }

  /** Steps that make no process, reap none and kill none leave pids and `killed` alone. */
  predicate Plain(x: Proc, y: Proc) {
    && y.pid == x.pid && y.killed == x.killed && (InUse(y) <==> InUse(x))
    && (y.state == EMBRYO ==> x.state == EMBRYO) && (y.state == RUNNING && x.state != RUNNING ==> y.chan == NoChan)
    && (y.state == RUNNING && x.state == RUNNING ==> y.chan == x.chan)
  }

  predicate Makes(step: Step) { step.Alloc? || step.Drop? || step.Adopt? || step.Start? || step.Wait? || step.Kill? }

  lemma {:induction false} PlainStep(s: State, step: Step, i: int)
    requires Inv(s) && May(s, step) && 0 <= i < NPROC && !Makes(step)
    ensures |Do(s, step).ps| == NPROC && Plain(s.ps[i], Do(s, step).ps[i])
  {
    hide Inv, Exited;
    if step.Exit? {
      ExitedAt(s.ps, step.p, s.ticks);
      assert ExitOk(s.ps[i], Do(s, step).ps[i], i, step.p, s.ps[step.p].parent, LeftZombie(s.ps, step.p, NPROC),
                    s.ticks);
    }
  }

  lemma {:induction false} ForkLife(u: Run, step: Step, i: int)
    requires Inv(u.s) && MayNext(u, step) && 0 <= i < NPROC && LifeOk(u, i)
    requires (step.Alloc? || step.Drop? || step.Adopt? || step.Start?) && LifeOk(u, step.p)
    ensures Shape(Next(u, step).s) && LifeOk(Next(u, step), i)
  {
    assert ForkOk(u.s, step.p);
    hide Inv;
  }

  lemma {:induction false} WaitLife(u: Run, p: int, i: int)
    requires MayNext(u, Wait(p)) && 0 <= i < NPROC && LifeOk(u, i)
    ensures Shape(Next(u, Wait(p)).s) && LifeOk(Next(u, Wait(p)), i)
  {
    hide HasKids;
  }

  lemma {:induction false} LifeStep(u: Run, step: Step, i: int)
    requires Sound(u) && MayNext(u, step) && 0 <= i < NPROC
    ensures Shape(Next(u, step).s) && LifeOk(Next(u, step), i)
  {
    assert LifeOk(u, i);
    if !Makes(step) {
      PlainStep(u.s, step, i);
      hide Do;
    } else if step.Kill? {
      KillStep(u, step.pid, i);
    } else if step.Wait? {
      WaitLife(u, step.p, i);
    } else {
      assert LifeOk(u, step.p);
      ForkLife(u, step, i);
    }
  }

  /** `kill` finds the process with the pid, if there is one. */
  lemma {:induction false} KillFinds(u: Run, pid: int)
    requires Sound(u)
    ensures var p := FirstPid(u.s.ps, pid, 0);
            && (Stray(u.s, pid) <==> p < NPROC && !InUse(u.s.ps[p]))
            && forall c :: 0 <= c < NPROC && InUse(u.s.ps[c]) ==> (c == p <==> u.s.ps[c].pid == pid)
  {
    var p := FirstPid(u.s.ps, pid, 0);
    forall c | 0 <= c < NPROC && InUse(u.s.ps[c])
      ensures c == p <==> u.s.ps[c].pid == pid
    {
      assert LifeOk(u, c);
    }
    hide Inv;
  }

  /** What `kill` does to the processes in use: only the one with the pid is marked, and woken if it slept. */
  lemma {:induction false} KillExactly(u: Run, pid: int, i: int)
    requires Sound(u) && MayNext(u, Kill(pid)) && 0 <= i < NPROC && InUse(u.s.ps[i])
    ensures var x, y := u.s.ps[i], Do(u.s, Kill(pid)).ps[i];
            if x.pid != pid then y == x
            else if x.state == SLEEPING then y == x.(killed := true, state := RUNNABLE, snap := u.s.ticks)
            else y == x.(killed := true)
  {
    KillFinds(u, pid);
    hide Inv, LifeOk, MakerOk, MakingOk, Stray;
  }

  lemma {:induction false} KillStep(u: Run, pid: int, i: int)
    requires Sound(u) && MayNext(u, Kill(pid)) && 0 <= i < NPROC
    ensures Shape(Next(u, Kill(pid)).s) && LifeOk(Next(u, Kill(pid)), i)
  {
    KillFinds(u, pid);
    assert LifeOk(u, i);
    hide Inv, MakerOk, MakingOk, Stray;
  }

  /** Pids stay as they are but for a new one and a reaped one. */
  lemma {:induction false} PidStep(u: Run, step: Step, i: int)
    requires Sound(u) && MayNext(u, step) && 0 <= i < NPROC
    ensures |Do(u.s, step).ps| == NPROC
    ensures var pid := Do(u.s, step).ps[i].pid;
            if step.Alloc? && i == FirstUnused(u.s.ps, 0) then pid == u.s.nextpid
            else pid == u.s.ps[i].pid || (step.Wait? && pid == 0)
  {
    if !Makes(step) {
      PlainStep(u.s, step, i);
      hide Do;
    } else {
      hide Inv, LifeOk, PidsDiffer, MakerOk, MakingOk, Orphaned;
    }
  }

  lemma {:induction false} PidsStep(u: Run, step: Step)
    requires Sound(u) && MayNext(u, step)
    ensures PidsDiffer(Do(u.s, step).ps)
  {
    var t := Do(u.s, step);
    forall c, d | 0 <= c < d < |t.ps| && t.ps[c].pid == t.ps[d].pid
      ensures t.ps[c].pid == 0
    {
      PidStep(u, step, c);
      PidStep(u, step, d);
      assert LifeOk(u, c) && LifeOk(u, d);
      hide Do, Inv, MakerOk, MakingOk;
    }
  }

  // ------------------------------------------------------------- the maker

  /** What a step other than `exit` can do to the facts about makers. */
  lemma {:induction false} FamilyStep(s: State, step: Step, i: int)
    requires Inv(s) && May(s, step) && 0 <= i < NPROC && !step.Exit?
    ensures |Do(s, step).ps| == NPROC
    ensures var x, y := s.ps[i], Do(s, step).ps[i];
            && (Started(y) && i != INIT ==>
                  (Started(x) && y.parent == x.parent) || (step.Start? && i == s.fork[step.p] && y.parent == step.p))
            && (Living(y) ==> Living(x) || (step.Start? && i == s.fork[step.p]))
            && (Living(x) ==> Living(y))
  {
    if step.Start? {
      assert ForkOk(s, step.p);
    } else if step.Adopt? {
      assert ForkOk(s, step.p);
    } else if step.Drop? {
      assert ForkOk(s, step.p);
    }
    hide Inv;
  }

  /** Steps keep the makers of all processes but the one that a fork begins to make. */
  lemma SameMaker(u: Run, step: Step, i: int)
    requires MayNext(u, step) && 0 <= i < NPROC && !(step.Alloc? && i == FirstUnused(u.s.ps, 0))
    ensures |Next(u, step).lives| == NPROC && Next(u, step).lives[i].maker == u.lives[i].maker
  {
    hide Do, Stray;
  }

  lemma {:induction false} MakerStep(u: Run, step: Step, i: int)
    requires Sound(u) && MayNext(u, step) && 0 <= i < NPROC && !step.Exit?
    ensures Shape(Next(u, step).s) && |Next(u, step).lives| == NPROC && MakerOk(Next(u, step), i)
  {
    hide Do, Next, LifeOk, PidsDiffer, ForkOk, WaitOk, ChanOk;
    DoInv(u.s, step);
    SameTable(u, step);
    var v := Next(u, step);
    FamilyStep(u.s, step, i);
    if Started(v.s.ps[i]) && i != INIT {
      SameMaker(u, step, i);
      assert MakerOk(u, i) && ParentOk(v.s, i);
      var q := v.s.ps[i].parent;
      LivingPid(u, step, q);
      if Started(u.s.ps[i]) {
        assert ParentOk(u.s, i);
        forall d | 0 <= d < NPROC && Living(v.s.ps[d]) && u.s.ps[q].pid != u.lives[i].maker
          ensures v.s.ps[d].pid != u.lives[i].maker
        {
          LivingPid(u, step, d);
          FamilyStep(u.s, step, d);
          if !Living(u.s.ps[d]) {
            StartedEmbryo(u, step, d);
          }
        }
      } else {
        assert MakingOk(u, step.p);
      }
    }
  }

  lemma SameTable(u: Run, step: Step)
    requires MayNext(u, step)
    ensures Next(u, step).s == Do(u.s, step) && |Next(u, step).lives| == |Next(u, step).stale| == NPROC
  {
    hide Do;
  }

  lemma StartedEmbryo(u: Run, step: Step, d: int)
    requires Sound(u) && MayNext(u, step) && step.Start? && d == u.s.fork[step.p]
    ensures 0 <= d < NPROC && u.s.ps[d].state == EMBRYO && MakingOk(u, d)
  {
    assert ForkOk(u.s, step.p);
  }

  /** A process that lives after the step had the same pid before. */
  lemma {:induction false} LivingPid(u: Run, step: Step, d: int)
    requires Sound(u) && MayNext(u, step) && 0 <= d < NPROC
    requires |Do(u.s, step).ps| == NPROC && Living(Do(u.s, step).ps[d])
    ensures Do(u.s, step).ps[d].pid == u.s.ps[d].pid
  {
    PidStep(u, step, d);
    LifeStep(u, step, d);
    SameTable(u, step);
    if step.Alloc? {
      NewIsEmbryo(u.s, step.p);
    }
    hide Do, Next;
  }

  lemma NewIsEmbryo(s: State, p: int)
    requires May(s, Alloc(p))
    ensures Do(s, Alloc(p)).ps[FirstUnused(s.ps, 0)].state == EMBRYO
  {
  }

  lemma {:induction false} ExitMaker(u: Run, p: int, i: int)
    requires Sound(u) && MayNext(u, Exit(p)) && 0 <= i < NPROC
    ensures Shape(Next(u, Exit(p)).s) && MakerOk(Next(u, Exit(p)), i)
  {
    hide Exited, Inv, PidsDiffer;
    var v, left := Next(u, Exit(p)), LeftZombie(u.s.ps, p, NPROC);
    ExitedAt(u.s.ps, p, u.s.ticks);
    assert ExitOk(u.s.ps[i], v.s.ps[i], i, p, u.s.ps[p].parent, left, u.s.ticks);
    assert MakerOk(u, i);
    var q := u.s.ps[i].parent;
    if Started(v.s.ps[i]) && i != INIT {
      assert ExitOk(u.s.ps[q], v.s.ps[q], q, p, u.s.ps[p].parent, left, u.s.ticks);
      forall d | 0 <= d < NPROC && Living(v.s.ps[d])
        ensures Living(u.s.ps[d]) && v.s.ps[d].pid == u.s.ps[d].pid != u.s.ps[p].pid
      {
        assert ExitOk(u.s.ps[d], v.s.ps[d], d, p, u.s.ps[p].parent, left, u.s.ticks);
        OtherPid(u, d, p);
      }
    }
  }

  lemma OtherPid(u: Run, c: int, d: int)
    requires Sound(u) && 0 <= c < NPROC && 0 <= d < NPROC && c != d && InUse(u.s.ps[d])
    ensures u.s.ps[c].pid != u.s.ps[d].pid
  {
    assert LifeOk(u, d);
  }

  lemma {:induction false} MakingStep(u: Run, step: Step, q: int)
    requires Sound(u) && MayNext(u, step) && 0 <= q < NPROC
    ensures Shape(Next(u, step).s) && |Next(u, step).lives| == NPROC && MakingOk(Next(u, step), q)
  {
    hide Do, Next, PidsDiffer, ParentOk, WaitOk, ChanOk;
    DoInv(u.s, step);
    SameTable(u, step);
    assert MakingOk(u, q);
    if step.Alloc? {
      AllocMaking(u, step.p, q);
    } else {
      ForksEnd(u.s, step, q);
      PidStep(u, step, q);
      LifeStep(u, step, q);
      forall i | 0 <= i < NPROC
        ensures Next(u, step).lives[i].maker == u.lives[i].maker
      {
        SameMaker(u, step, i);
      }
    }
  }

  lemma {:induction false} ForksEnd(s: State, step: Step, q: int)
    requires Inv(s) && May(s, step) && 0 <= q < NPROC && !step.Alloc?
    ensures var t := Do(s, step);
            && Shape(t) && (t.fork[q] == s.fork[q] || t.fork[q] == NONE)
            && (t.ps[q].state == EMBRYO ==> s.ps[q].state == EMBRYO)
            && (s.fork[q] != NONE ==> InUse(t.ps[q]))
  {
    assert ForkOk(s, q);
    if !Makes(step) {
      PlainStep(s, step, q);
    } else if step.Drop? {
      assert ForkOk(s, step.p);
    }
    hide Inv, Exited;
  }

  lemma {:induction false} AllocMaking(u: Run, p: int, q: int)
    requires Sound(u) && MayNext(u, Alloc(p)) && 0 <= q < NPROC
    ensures Shape(Next(u, Alloc(p)).s) && |Next(u, Alloc(p)).lives| == NPROC && MakingOk(Next(u, Alloc(p)), q)
  {
    assert MakingOk(u, q) && ForkOk(u.s, q) && LifeOk(u, p) && LifeOk(u, q);
    if q != p {
      OtherPid(u, q, p);
    }
    forall d | 0 <= d < NPROC
      ensures u.lives[d].maker < u.s.nextpid
    {
      assert LifeOk(u, d);
    }
    hide Inv, LifeOk, PidsDiffer, MakerOk;
  }

  lemma {:induction false} NextSound(u: Run, step: Step)
    requires Sound(u) && MayNext(u, step)
    ensures Sound(Next(u, step))
  {
    hide Inv, Next, LifeOk, MakerOk, MakingOk, PidsDiffer;
    DoInv(u.s, step);
    SameTable(u, step);
    PidsStep(u, step);
    hide Do;
    var v := Next(u, step);
    forall i | 0 <= i < NPROC
      ensures Shape(v.s) && |v.lives| == |v.stale| == NPROC && LifeOk(v, i) && MakerOk(v, i) && MakingOk(v, i)
    {
      LifeStep(u, step, i);
      if step.Exit? {
        ExitMaker(u, step.p, i);
      } else {
        MakerStep(u, step, i);
      }
      MakingStep(u, step, i);
    }
  }

  // ------------------------------------------------------------------ runs

  /** `userinit`: process 1 in the first entry, pid 2 next. */
  ghost predicate Start(u: Run) {
    && Boot(u.s) && u.s.ps[INIT].pid == 1 && u.s.nextpid == 2
    && (forall c :: 0 <= c < NPROC ==> (c != INIT ==> u.s.ps[c].pid == 0) && !u.s.ps[c].killed)
    && u.lives == seq(NPROC, c => Life(u.s.ps[INIT].pid, 0, false)) && u.stale == seq(NPROC, _ => false)
  }

  lemma {:induction false} StartSound(u: Run)
    requires Start(u)
    ensures Sound(u)
  {
    BootInv(u.s);
    hide Inv;
  }

  ghost predicate Possible(u: Run, steps: seq<Step>)
    decreases |steps|
  {
    steps == [] || (MayNext(u, steps[0]) && Possible(Next(u, steps[0]), steps[1..]))
  }

  ghost function End(u: Run, steps: seq<Step>): Run
    requires Possible(u, steps)
    decreases |steps|
  {
    if steps == [] then u else End(Next(u, steps[0]), steps[1..])
  }

  lemma {:induction false} RunSound(u: Run, steps: seq<Step>)
    requires Sound(u) && Possible(u, steps)
    ensures Sound(End(u, steps))
    decreases |steps|
  {
    hide Sound, Next, MayNext;
    if steps != [] {
      NextSound(u, steps[0]);
      RunSound(Next(u, steps[0]), steps[1..]);
    }
  }

  /** In every run no two processes have the same pid, and a process keeps the pid it was born with. */
  lemma {:induction false} PidsUnique(u: Run, steps: seq<Step>, c: int, d: int)
    requires Start(u) && Possible(u, steps) && 0 <= c < NPROC && 0 <= d < NPROC
    ensures var v := End(u, steps);
            && |v.s.ps| == |v.lives| == NPROC
            && (InUse(v.s.ps[c]) ==> v.s.ps[c].pid == v.lives[c].pid)
            && (InUse(v.s.ps[c]) && v.s.ps[c].pid == v.s.ps[d].pid ==> c == d)
  {
    StartSound(u);
    RunSound(u, steps);
    hide Possible, End, Inv, Start;
    var v := End(u, steps);
    assert LifeOk(v, c);
    if InUse(v.s.ps[c]) && c != d {
      OtherPid(v, d, c);
    }
  }

  /**
   In every run the parent of a process is the one that forked it, as long as that one has not exited, and init
   from then on; a process that has exited is a parent of nobody.
   */
  lemma {:induction false} Families(u: Run, steps: seq<Step>, c: int, p: int)
    requires Start(u) && Possible(u, steps) && 0 <= c < NPROC && c != INIT && 0 <= p < NPROC
    requires |End(u, steps).s.ps| == NPROC && Started(End(u, steps).s.ps[c])
    ensures var v := End(u, steps);
            && |v.s.ps| == |v.lives| == NPROC && 0 <= v.s.ps[c].parent < NPROC
            && Living(v.s.ps[v.s.ps[c].parent])
            && (Living(v.s.ps[p]) && v.s.ps[p].pid == v.lives[c].maker ==> v.s.ps[c].parent == p)
            && ((forall q :: 0 <= q < NPROC && Living(v.s.ps[q]) ==> v.s.ps[q].pid != v.lives[c].maker) ==>
                  v.s.ps[c].parent == INIT)
  {
    StartSound(u);
    RunSound(u, steps);
    hide Possible, End, Start;
    var v := End(u, steps);
    assert MakerOk(v, c) && ParentOk(v.s, c);
    hide Inv;
    var q := v.s.ps[c].parent;
    if Living(v.s.ps[p]) && p != q {
      OtherPid(v, q, p);
    }
  }

  /**
   In every run a process is marked as killed exactly when `kill` was called with its pid while it existed, or
   its entry holds the mark from before: a `kill` that hit the entry while it was free (with pid 0, or the pid
   of a process whose fork gave up), or hit a process whose fork gave up.
   */
  lemma {:induction false} KilledExactly(u: Run, steps: seq<Step>, c: int)
    requires Start(u) && Possible(u, steps) && 0 <= c < NPROC
    ensures var v := End(u, steps);
            && |v.s.ps| == |v.lives| == |v.stale| == NPROC
            && (InUse(v.s.ps[c]) ==> (v.s.ps[c].killed <==> v.lives[c].named || v.stale[c]))
  {
    StartSound(u);
    RunSound(u, steps);
    hide Possible, End, Inv, Start;
    assert LifeOk(End(u, steps), c);
  }

  /** From any start: `kill(0)` marks the next process that init forks, which nobody named. */
  lemma {:induction false} StrayKill(u: Run) returns (steps: seq<Step>)
    requires Start(u)
    ensures Possible(u, steps)
    ensures var v := End(u, steps);
            && |v.s.ps| == |v.lives| == |v.stale| == NPROC
            && v.s.ps[1].state == RUNNABLE && v.s.ps[1].killed && !v.lives[1].named
            && forall pid :: Kill(pid) in steps ==> pid == 0
  {
    var a := [Step.Start(INIT)];
    var b, c, d, e := [Adopt(INIT)] + a, [Alloc(INIT), Adopt(INIT)] + a, [Kill(0), Alloc(INIT), Adopt(INIT)] + a,
      [Schedule(INIT), Kill(0), Alloc(INIT), Adopt(INIT)] + a;
    steps := e;
    var u1 := Next(u, Schedule(INIT));
    FirstIsOne(u1.s);
    var u2 := Next(u1, Kill(0));
    assert FirstUnused(u2.s.ps, 0) == 1;
    var u3 := Next(u2, Alloc(INIT));
    var u4 := Next(u3, Adopt(INIT));
    var u5 := Next(u4, Step.Start(INIT));
    assert e[1..] == d && d[1..] == c && c[1..] == b && b[1..] == a && a[1..] == [];
    assert Possible(u5, []) && Possible(u4, a) && Possible(u3, b) && Possible(u2, c) && Possible(u1, d);
    assert End(u5, []) == u5 && End(u4, a) == u5 && End(u3, b) == u5 && End(u2, c) == u5 && End(u1, d) == u5;
  }

  lemma FirstIsOne(s: State)
    requires Shape(s) && s.ps[0].state == RUNNING && s.ps[0].pid == 1 && s.ps[1].state == UNUSED && s.ps[1].pid == 0
    ensures FirstUnused(s.ps, 0) == 1 && FirstPid(s.ps, 0, 0) == 1
  {
  }

  // ------------------------------------------------------------ a whole life

  /** The table after p has forked a process into entry c. */
  function Forked(s: State, p: int, c: int): State
    requires 0 <= c < |s.ps|
  {
    var x := s.ps[c].(state := RUNNABLE, pid := s.nextpid, parent := p, wtime := 0, rutime := 0, snap := s.ticks);
    s.(ps := s.ps[c := x], nextpid := s.nextpid + 1)
  }

  /** p runs, is not in `fork`, and there is a free entry. */
  predicate CanFork(s: State, p: int) {
    Shape(s) && Runs(s, p) && s.fork[p] == NONE && FirstUnused(s.ps, 0) < NPROC
  }

  /** `fork` that succeeds: only the child's entry changes. */
  lemma {:induction false} ForkRun(s: State, p: int)
    requires Inv(s) && CanFork(s, p)
    ensures var c, steps := FirstUnused(s.ps, 0), [Alloc(p), Adopt(p), Step.Start(p)];
            ProcTable.Possible(s, steps) && ProcTable.After(s, steps) == Forked(s, p, c)
  {
    var c := FirstUnused(s.ps, 0);
    assert ParentOk(s, c);
    hide Inv;
    var s1 := Do(s, Alloc(p));
    var s2 := Do(s1, Adopt(p));
    var s3 := Do(s2, Step.Start(p));
    assert s3.fork == s.fork && s3.ps == Forked(s, p, c).ps;
    ThreeSteps(s, Alloc(p), Adopt(p), Step.Start(p));
  }

  lemma ThreeSteps(s: State, a: Step, b: Step, c: Step)
    requires May(s, a) && May(Do(s, a), b) && May(Do(Do(s, a), b), c)
    ensures ProcTable.Possible(s, [a, b, c])
    ensures ProcTable.After(s, [a, b, c]) == Do(Do(Do(s, a), b), c)
  {
    hide May, Do;
    assert [a, b, c][1..] == [b, c] && [b, c][1..] == [c] && [c][1..] == [];
    assert ProcTable.Possible(Do(Do(s, a), b), [c]) && ProcTable.Possible(Do(s, a), [b, c]);
    assert ProcTable.After(Do(Do(s, a), b), [c]) == Do(Do(Do(s, a), b), c);
    assert ProcTable.After(Do(s, a), [b, c]) == Do(Do(Do(s, a), b), c);
  }

  /** `fork` that gives up: the entry is free again and is nobody's child. */
  lemma {:induction false} ForkGivenUp(s: State, p: int)
    requires Inv(s) && CanFork(s, p)
    ensures var c := FirstUnused(s.ps, 0);
            && May(s, Alloc(p)) && May(Do(s, Alloc(p)), Drop(p))
            && Do(Do(s, Alloc(p)), Drop(p)) ==
               s.(ps := s.ps[c := s.ps[c].(pid := s.nextpid, wtime := 0, rutime := 0, snap := s.ticks)],
                  nextpid := s.nextpid + 1)
  {
    var c := FirstUnused(s.ps, 0);
    assert ParentOk(s, c);
    hide Inv;
    var t := Do(Do(s, Alloc(p)), Drop(p));
    assert t.fork == s.fork;
  }

  predicate NoZombieChild(ps: seq<Proc>, p: int) {
    forall i :: 0 <= i < |ps| && ps[i].parent == p ==> ps[i].state != ZOMBIE
  }

  /**
   A whole life: the child that p has forked runs and exits, and p, which has no other zombie child, reaps it.
   The entry is free again and all other entries are as they were.
   */
  lemma {:induction false} WholeLife(s: State, p: int)
    requires Inv(s) && CanFork(s, p) && NoZombieChild(s.ps, p)
    ensures var c := FirstUnused(s.ps, 0);
            && Inv(Forked(s, p, c))
            && ProcTable.Possible(Forked(s, p, c), [Schedule(c), Exit(c), Wait(p)])
            && ProcTable.After(Forked(s, p, c), [Schedule(c), Exit(c), Wait(p)]) ==
               s.(ps := s.ps[c := Proc(UNUSED, 0, NONE, NoChan, false, 0, 0, s.ticks)], nextpid := s.nextpid + 1)
  {
    var c := FirstUnused(s.ps, 0);
    var f := Forked(s, p, c);
    assert ParentOk(s, c);
    ForkedInv(s, p);
    var s1 := Do(f, Schedule(c));
    DoInv(f, Schedule(c));
    ChildExits(s, p);
    var s2 := Do(s1, Exit(c));
    hide Inv, Exited;
    ChildReaped(s, s2, p, c);
    ThreeSteps(f, Schedule(c), Exit(c), Wait(p));
  }

  lemma {:induction false} ForkedInv(s: State, p: int)
    requires Inv(s) && CanFork(s, p)
    ensures Inv(Forked(s, p, FirstUnused(s.ps, 0))) && p != FirstUnused(s.ps, 0) && FirstUnused(s.ps, 0) != INIT
  {
    ForkRun(s, p);
    NoLostExit(s, [Alloc(p), Adopt(p), Step.Start(p)]);
    assert ParentOk(s, INIT);
    hide Inv;
  }

  /** The exit of the new child: it becomes a zombie and nobody else changes. */
  lemma {:induction false} ChildExits(s: State, p: int)
    requires Inv(s) && CanFork(s, p) && Inv(Forked(s, p, FirstUnused(s.ps, 0)))
    requires p != FirstUnused(s.ps, 0) && FirstUnused(s.ps, 0) != INIT
    ensures var c := FirstUnused(s.ps, 0);
            var f := Forked(s, p, c);
            && May(f, Schedule(c)) && May(Do(f, Schedule(c)), Exit(c))
            && Do(Do(f, Schedule(c)), Exit(c)) ==
               f.(ps := f.ps[c := f.ps[c].(state := ZOMBIE, chan := NoChan)])
  {
    var c := FirstUnused(s.ps, 0);
    var f := Forked(s, p, c);
    var s1 := Do(f, Schedule(c));
    assert ForkOk(s, c);
    DoInv(f, Schedule(c));
    hide Inv, Exited, ForkOk;
    ExitedAt(s1.ps, c, s1.ticks);
    var t := Do(s1, Exit(c));
    forall i | 0 <= i < NPROC
      ensures s1.ps[i].parent != c
    {
      ChildOfNone(s, c, i);
    }
    assert !LeftZombie(s1.ps, c, NPROC);
    forall i | 0 <= i < NPROC
      ensures t.ps[i] == if i == c then f.ps[c].(state := ZOMBIE, chan := NoChan) else f.ps[i]
    {
      ChildExit(s1, t, c, p, i);
    }
  }

  lemma {:induction false} ChildExit(s1: State, t: State, c: int, p: int, i: int)
    requires Inv(s1) && |t.ps| == NPROC && 0 <= i < NPROC && 0 <= p < NPROC && s1.ps[p].state == RUNNING
    requires ExitOk(s1.ps[i], t.ps[i], i, c, p, false, s1.ticks) && s1.ps[i].parent != c
    requires 0 <= c < NPROC && s1.ps[c].snap == s1.ticks
    ensures t.ps[i] == if i == c then s1.ps[c].(state := ZOMBIE) else s1.ps[i]
  {
    assert ChanOk(s1, i);
    hide Inv;
  }

  lemma ChildOfNone(s: State, c: int, i: int)
    requires Inv(s) && 0 <= c < NPROC && 0 <= i < NPROC && s.ps[c].state == UNUSED
    ensures s.ps[i].parent != c
  {
    assert ParentOk(s, i) && ForkOk(s, c);
  }

  lemma {:induction false} ChildReaped(s: State, t: State, p: int, c: int)
    requires CanFork(s, p) && NoZombieChild(s.ps, p) && c == FirstUnused(s.ps, 0) != p
    requires var f := Forked(s, p, c); t == f.(ps := f.ps[c := f.ps[c].(state := ZOMBIE, chan := NoChan)])
    requires s.ps[c].parent == NONE && s.ps[c].state == UNUSED
    ensures May(t, Wait(p))
    ensures Do(t, Wait(p)) ==
            s.(ps := s.ps[c := Proc(UNUSED, 0, NONE, NoChan, false, 0, 0, s.ticks)], nextpid := s.nextpid + 1)
  {
    var z := FirstZombie(t.ps, p, 0);
    assert t.ps[c].state == ZOMBIE && t.ps[c].parent == p;
    assert forall i :: 0 <= i < c ==> t.ps[i] == s.ps[i];
  }

  // ------------------------------------------------------------- the clock

  function Ticks(steps: seq<Step>): nat {
    if steps == [] then 0 else (if steps[0].Tick? then 1 else 0) + Ticks(steps[1..])
  }

  /** Only a tick moves the clock, and by one. */
  lemma {:induction false} TicksCounted(s: State, steps: seq<Step>)
    requires ProcTable.Possible(s, steps)
    ensures ProcTable.After(s, steps).ticks == s.ticks + Ticks(steps)
    decreases |steps|
  {
    hide May;
    if steps != [] {
      TicksCounted(Do(s, steps[0]), steps[1..]);
    }
  }
}
