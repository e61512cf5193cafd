/**
 Time accounting: the snapshots that the process table keeps, against counters bumped once per tick.
 The clock may tick (on another CPU) while a section runs that changes a process's state and then
 reads the clock; the steps say how often it does.
 */
module Accounting {
  import opened ProcTable

  /**
   What counting tick by tick gives since the entry was last allocated: ticks while RUNNABLE, EMBRYO
   and RUNNING; and the ticks that fell inside a section, with the sign in which the snapshots err.
   */
  datatype Count = Count(ready: int, embryo: int, run: int, waitError: int, runError: int)

  datatype Clock = Clock(ps: seq<Proc>, ticks: int, counts: seq<Count>)

  // ----------------------------------------------------- the per-tick count

  /** `updatestatistics` for one process, n times; EMBRYO is counted apart. */
  function Counted(c: Count, st: ProcState, n: int): Count {
    match st
    case RUNNABLE => c.(ready := c.ready + n)
    case EMBRYO => c.(embryo := c.embryo + n)
    case RUNNING => c.(run := c.run + n)
    case _ => c
  }

  function Passed(s: Clock, n: int): (t: Clock)
    requires |s.ps| == |s.counts|
    ensures t.ps == s.ps && t.ticks == s.ticks + n && |t.counts| == |s.counts|
  {
    s.(ticks := s.ticks + n,
       counts := seq(|s.ps|, i requires 0 <= i < |s.ps| => Counted(s.counts[i], s.ps[i].state, n)))
  }

  // --------------------------------------------------------------- steps

  /**
   g ticks fall between the change of state and the first reading of the clock, h between the first
   reading and the second.
   */
  datatype Step =
    | Tick
    | Alloc(p: int, g: nat)
    | Free(p: int)                        // a failed fork
    | Start(p: int)
    | Schedule(p: int, g: nat, h: nat)
    | Yield(p: int, g: nat, h: nat)
    | Sleep(p: int, chan: Chan, g: nat)
    | Wake(p: int, g: nat)                // one iteration of wakeup1, or kill
    | Exit(p: int, g: nat)
    | Reap(p: int)

  predicate May(s: Clock, step: Step) {
    && |s.ps| == |s.counts|
    && (step.Tick? || (0 <= step.p < |s.ps| &&
        var st := s.ps[step.p].state;
        match step
        case Alloc(_, _) => st == UNUSED
        case Free(_) => st == EMBRYO
        case Start(_) => st == EMBRYO
        case Schedule(_, _, _) => st == RUNNABLE
        case Yield(_, _, _) => st == RUNNING
        case Sleep(_, _, _) => st == RUNNING
        case Wake(_, _) => st == SLEEPING
        case Exit(_, _) => st == RUNNING
        case Reap(_) => st == ZOMBIE
        case Tick => true))
  }

  /** Process p enters state st, n ticks pass, and then its entry is x. */
  function Section(s: Clock, p: int, st: ProcState, n: int, x: Proc): (t: Clock)
    requires |s.ps| == |s.counts| && 0 <= p < |s.ps|
    ensures |t.ps| == |s.ps| == |t.counts|
  {
    var u := Passed(s.(ps := s.ps[p := s.ps[p].(state := st)]), n);
    u.(ps := u.ps[p := x])
  }

  function Err(s: Clock, p: int, wait: int, run: int): (t: Clock)
    requires |s.ps| == |s.counts| && 0 <= p < |s.ps|
    ensures |t.ps| == |s.ps| == |t.counts|
  {
    var c := s.counts[p];
    s.(counts := s.counts[p := c.(waitError := c.waitError + wait, runError := c.runError + run)])
  }

  function Do(s: Clock, step: Step): Clock
    requires May(s, step)
  {
    if step.Tick? then Passed(s, 1)
    else
      var p, x := step.p, s.ps[step.p];
      match step
      case Alloc(_, g) =>
        var fresh' := s.(counts := s.counts[p := Count(0, 0, 0, 0, 0)]);
        Err(Section(fresh', p, EMBRYO, g, Born(x, x.pid, s.ticks + g)), p, 0 - g, 0)
      case Free(_) => Section(s, p, UNUSED, 0, x.(state := UNUSED))
      case Start(_) => Section(s, p, RUNNABLE, 0, x.(state := RUNNABLE))
      case Schedule(_, g, h) =>
        Err(Section(s, p, RUNNING, g + h, Dispatched(x, s.ticks + g, s.ticks + g + h)), p, g, 0 - g - h)
      case Yield(_, g, h) =>
        Err(Section(s, p, RUNNABLE, g + h, Yielded(x, s.ticks + g, s.ticks + g + h)), p, 0 - g - h, g)
      case Sleep(_, chan, g) => Err(Section(s, p, SLEEPING, g, Asleep(x, chan, s.ticks + g)), p, 0, g)
      case Wake(_, g) => Err(Section(s, p, RUNNABLE, g, Awake(x, s.ticks + g)), p, 0 - g, 0)
      case Exit(_, g) => Err(Section(s, p, ZOMBIE, g, Dead(x, s.ticks + g)), p, 0, g)
      case Reap(_) => Section(s, p, UNUSED, 0, Cleared(x))
      case Tick => s
  }

  // ------------------------------------------------------------ invariant

  /** Ticks since the last snapshot, if the process is in one of the states. */
  function Pending(s: Clock, x: Proc, states: set<ProcState>): int {
    if x.state in states then s.ticks - x.snap else 0
  }

  predicate CountOk(s: Clock, p: int)
    requires |s.ps| == |s.counts| && 0 <= p < |s.ps|
  {
    var x, c := s.ps[p], s.counts[p];
    x.state != UNUSED ==>
      && x.wtime + Pending(s, x, {EMBRYO, RUNNABLE}) == c.ready + c.embryo + c.waitError
      && x.rutime + Pending(s, x, {RUNNING}) == c.run + c.runError
  }

  ghost predicate Inv(s: Clock) {
    |s.ps| == |s.counts| && forall p :: 0 <= p < |s.ps| ==> CountOk(s, p)
  }

  /** The table before the first process is allocated. */
  ghost predicate Boot(s: Clock) {
    |s.ps| == |s.counts| && forall p :: 0 <= p < |s.ps| ==>
        s.ps[p].state == UNUSED && s.counts[p] == Count(0, 0, 0, 0, 0)
  }

  /** How far a step lets the clock run. */
  function Elapsed(step: Step): int {
    match step
    case Tick => 1
    case Alloc(_, g) => g
    case Schedule(_, g, h) => g + h
    case Yield(_, g, h) => g + h
    case Sleep(_, _, g) => g
    case Wake(_, g) => g
    case Exit(_, g) => g
    case _ => 0
  }

  /** For other processes a step is just time passing. */
  lemma {:induction false} Bystander(s: Clock, step: Step, q: int)
    requires May(s, step) && 0 <= q < |s.ps| && (step.Tick? || q != step.p)
    ensures var t := Do(s, step);
            && |t.ps| == |s.ps| == |t.counts| && t.ps[q] == s.ps[q] && t.ticks == s.ticks + Elapsed(step)
            && t.counts[q] == Counted(s.counts[q], s.ps[q].state, Elapsed(step))
  {
    hide Counted, Born, Dispatched, Yielded, Asleep, Awake, Dead, Cleared;
    NoTime(s.counts[q], s.ps[q].state);
  }

  lemma NoTime(c: Count, st: ProcState)
    ensures Counted(c, st, 0) == c
  {
  }

  lemma {:induction false} BystanderOk(s: Clock, step: Step, q: int)
    requires May(s, step) && 0 <= q < |s.ps| && (step.Tick? || q != step.p) && CountOk(s, q)
    ensures |Do(s, step).ps| == |s.ps| == |Do(s, step).counts| && CountOk(Do(s, step), q)
  {
    hide Do;
    Bystander(s, step, q);
  }

  /** The count of process p itself after its section. */
  function OwnCount(c: Count, step: Step): Count {
    match step
    case Tick => c
    case Alloc(_, g) => Count(0, g, 0, 0 - g, 0)
    case Free(_) => c
    case Start(_) => c
    case Schedule(_, g, h) => Count(c.ready, c.embryo, c.run + g + h, c.waitError + g, c.runError - g - h)
    case Yield(_, g, h) => Count(c.ready + g + h, c.embryo, c.run, c.waitError - g - h, c.runError + g)
    case Sleep(_, _, g) => c.(runError := c.runError + g)
    case Wake(_, g) => c.(ready := c.ready + g, waitError := c.waitError - g)
    case Exit(_, g) => c.(runError := c.runError + g)
    case Reap(_) => c
  }

  lemma {:induction false} Own(s: Clock, step: Step)
    requires May(s, step) && !step.Tick?
    ensures var t := Do(s, step);
            && |t.ps| == |s.ps| == |t.counts| && t.ticks == s.ticks + Elapsed(step)
            && t.counts[step.p] == OwnCount(s.counts[step.p], step)
  {
    hide Born, Dispatched, Yielded, Asleep, Awake, Dead, Cleared;
  }

  lemma {:induction false} OwnOk(s: Clock, step: Step)
    requires May(s, step) && !step.Tick? && CountOk(s, step.p)
    ensures |Do(s, step).ps| == |s.ps| == |Do(s, step).counts| && CountOk(Do(s, step), step.p)
  {
    Own(s, step);
    hide Err, Counted;
  }

  lemma {:induction false} DoInv(s: Clock, step: Step)
    requires Inv(s) && May(s, step)
    ensures Inv(Do(s, step))
  {
    hide Do, CountOk;
    forall q | 0 <= q < |s.ps|
      ensures |Do(s, step).ps| == |s.ps| == |Do(s, step).counts| && CountOk(Do(s, step), q)
    {
      if step.Tick? || q != step.p {
        BystanderOk(s, step, q);
      } else {
        OwnOk(s, step);
      }
    }
    SameSize(s, step);
  }

  lemma SameSize(s: Clock, step: Step)
    requires May(s, step)
    ensures |Do(s, step).ps| == |s.ps| == |Do(s, step).counts|
  {
  }

  ghost predicate Possible(s: Clock, steps: seq<Step>)
    decreases |steps|
  {
    steps == [] || (May(s, steps[0]) && Possible(Do(s, steps[0]), steps[1..]))
  }

  ghost function After(s: Clock, steps: seq<Step>): Clock
    requires Possible(s, steps)
    decreases |steps|
  {
    if steps == [] then s else After(Do(s, steps[0]), steps[1..])
  }

  /**
   In every run from boot, `wtime` and `rutime` with the ticks pending since the snapshot are the
   per-tick counts, up to the ticks that fell inside sections.
   */
  lemma {:induction false} Totals(s: Clock, steps: seq<Step>)
    requires Inv(s) && Possible(s, steps)
    ensures Inv(After(s, steps))
    decreases |steps|
  {
    hide Inv;
    if steps != [] {
      DoInv(s, steps[0]);
      Totals(Do(s, steps[0]), steps[1..]);
    }
  }

  /** No tick falls inside a section. */
  predicate Whole(step: Step) {
    match step
    case Alloc(_, g) => g == 0
    case Schedule(_, g, h) => g == 0 && h == 0
    case Yield(_, g, h) => g == 0 && h == 0
    case Sleep(_, _, g) => g == 0
    case Wake(_, g) => g == 0
    case Exit(_, g) => g == 0
    case _ => true
  }

  predicate NoError(s: Clock, p: int)
    requires |s.ps| == |s.counts| && 0 <= p < |s.ps|
  {
    s.ps[p].state != UNUSED ==> s.counts[p].waitError == 0 && s.counts[p].runError == 0
  }

  ghost predicate NoErrors(s: Clock) {
    |s.ps| == |s.counts| && forall p :: 0 <= p < |s.ps| ==> NoError(s, p)
  }

  lemma {:induction false} WholeRun(s: Clock, steps: seq<Step>)
    requires NoErrors(s) && Possible(s, steps) && forall i :: 0 <= i < |steps| ==> Whole(steps[i])
    ensures NoErrors(After(s, steps))
    decreases |steps|
  {
    hide Do;
    if steps != [] {
      var t := Do(s, steps[0]);
      assert Whole(steps[0]);
      SameSize(s, steps[0]);
      forall p | 0 <= p < |s.ps|
        ensures NoError(t, p)
      {
        assert NoError(s, p);
        if steps[0].Tick? || p != steps[0].p {
          Bystander(s, steps[0], p);
        } else {
          Own(s, steps[0]);
          Unused(s, steps[0]);
        }
      }
      WholeRun(t, steps[1..]);
    }
  }

  /** An unused entry only becomes used by being allocated. */
  lemma Unused(s: Clock, step: Step)
    requires May(s, step) && !step.Tick?
    ensures s.ps[step.p].state == UNUSED ==> step.Alloc?
  {
  }

  /**
   `wait2` returns exact totals when the clock does not tick inside sections: the waiting time is part
   3's count plus the ticks spent EMBRYO, the running time is part 3's count.
   */
  lemma {:induction false} Wait2Exact(s: Clock, steps: seq<Step>, p: int)
    requires Boot(s) && Possible(s, steps) && forall i :: 0 <= i < |steps| ==> Whole(steps[i])
    requires 0 <= p < |After(s, steps).ps| && After(s, steps).ps[p].state == ZOMBIE
    ensures |After(s, steps).counts| == |After(s, steps).ps|
    ensures var x, c := After(s, steps).ps[p], After(s, steps).counts[p];
            x.wtime == c.ready + c.embryo && x.rutime == c.run
  {
    hide Possible, After;
    Totals(s, steps);
    WholeRun(s, steps);
    assert CountOk(After(s, steps), p) && NoError(After(s, steps), p);
  }

  // ------------------------------------------------ ticks inside sections

  /** How far the sections of process p since its allocation put `wtime` ahead, step by step. */
  function WaitSum(steps: seq<Step>, p: int, sum: int): int {
    if steps == [] then sum else WaitSum(steps[1..], p, WaitNext(steps[0], p, sum))
  }

  function WaitNext(step: Step, p: int, sum: int): int {
    if step.Tick? || step.p != p then sum
    else
      match step
      case Alloc(_, g) => 0 - g
      case Schedule(_, g, h) => sum + g
      case Yield(_, g, h) => sum - g - h
      case Wake(_, g) => sum - g
      case _ => sum
  }

  /** The same for `rutime`. */
  function RunSum(steps: seq<Step>, p: int, sum: int): int {
    if steps == [] then sum else RunSum(steps[1..], p, RunNext(steps[0], p, sum))
  }

  function RunNext(step: Step, p: int, sum: int): int {
    if step.Tick? || step.p != p then sum
    else
      match step
      case Alloc(_, g) => 0
      case Schedule(_, g, h) => sum - g - h
      case Yield(_, g, h) => sum + g
      case Sleep(_, _, g) => sum + g
      case Exit(_, g) => sum + g
      case _ => sum
  }

  lemma {:induction false} ErrorsAreSums(s: Clock, steps: seq<Step>, p: int)
    requires Possible(s, steps) && |s.ps| == |s.counts| && 0 <= p < |s.ps|
    ensures var t := After(s, steps);
            && |t.ps| == |t.counts| == |s.ps|
            && t.counts[p].waitError == WaitSum(steps, p, s.counts[p].waitError)
            && t.counts[p].runError == RunSum(steps, p, s.counts[p].runError)
    decreases |steps|
  {
    hide Do, May;
    if steps != [] {
      SameSize(s, steps[0]);
      if steps[0].Tick? || p != steps[0].p {
        Bystander(s, steps[0], p);
      } else {
        Own(s, steps[0]);
      }
      ErrorsAreSums(Do(s, steps[0]), steps[1..], p);
    }
  }

  /**
   In every run `wait2` is off by exactly those sums, so it is right if and only if the ticks inside the
   sections of the process cancel out.
   */
  lemma {:induction false} Wait2Exactly(s: Clock, steps: seq<Step>, p: int)
    requires Boot(s) && Possible(s, steps)
    requires 0 <= p < |After(s, steps).ps| && After(s, steps).ps[p].state == ZOMBIE
    ensures |After(s, steps).counts| == |After(s, steps).ps|
    ensures var x, c := After(s, steps).ps[p], After(s, steps).counts[p];
            && x.wtime == c.ready + c.embryo + WaitSum(steps, p, 0) && x.rutime == c.run + RunSum(steps, p, 0)
            && (x.wtime == c.ready + c.embryo <==> WaitSum(steps, p, 0) == 0)
            && (x.rutime == c.run <==> RunSum(steps, p, 0) == 0)
  {
    hide Possible, After, WaitSum, RunSum;
    Totals(s, steps);
    assert CountOk(After(s, steps), p);
    SameTable(s, steps);
    ErrorsAreSums(s, steps, p);
  }

  lemma {:induction false} SameTable(s: Clock, steps: seq<Step>)
    requires Possible(s, steps)
    ensures |After(s, steps).ps| == |s.ps|
    decreases |steps|
  {
    hide Do, May;
    if steps != [] {
      SameSize(s, steps[0]);
      SameTable(Do(s, steps[0]), steps[1..]);
    }
  }

  /**
   Where a step can run: sections hold a lock, so interrupts are off on their CPU, and only CPU 0 counts
   ticks. A tick inside a section needs another CPU.
   */
  predicate OnCpu(step: Step, cpu: int, ncpu: int) {
    0 <= cpu < ncpu && (cpu == 0 ==> Whole(step))
  }

  /** With one CPU, as configured, `wait2` is always exact. */
  lemma {:induction false} OneCpuExact(s: Clock, steps: seq<Step>, cpus: seq<int>, p: int)
    requires Boot(s) && Possible(s, steps) && |cpus| == |steps|
    requires forall i :: 0 <= i < |steps| ==> OnCpu(steps[i], cpus[i], 1)
    requires 0 <= p < |After(s, steps).ps| && After(s, steps).ps[p].state == ZOMBIE
    ensures |After(s, steps).counts| == |After(s, steps).ps|
    ensures var x, c := After(s, steps).ps[p], After(s, steps).counts[p];
            x.wtime == c.ready + c.embryo && x.rutime == c.run
  {
    hide Possible, After;
    forall i | 0 <= i < |steps|
      ensures Whole(steps[i])
    {
      assert OnCpu(steps[i], cpus[i], 1);
    }
    Wait2Exact(s, steps, p);
  }

  /** The state that a step leaves its process in. */
  function Target(step: Step): ProcState {
    match step
    case Alloc(_, _) => EMBRYO
    case Free(_) => UNUSED
    case Start(_) => RUNNABLE
    case Schedule(_, _, _) => RUNNING
    case Yield(_, _, _) => RUNNABLE
    case Sleep(_, _, _) => SLEEPING
    case Wake(_, _) => RUNNABLE
    case Exit(_, _) => ZOMBIE
    case Reap(_) => UNUSED
    case Tick => UNUSED
  }

  lemma Reaches(s: Clock, step: Step)
    requires May(s, step) && !step.Tick?
    ensures var t := Do(s, step);
            |t.ps| == |s.ps| == |t.counts| && t.ps[step.p].state == Target(step)
  {
  }

  /** One life of process p: allocated, started, scheduled once and ended, with h ticks in `scheduler`. */
  function Life(p: int, h: nat): seq<Step> {
    [Step.Alloc(p, 0), Step.Start(p), Step.Schedule(p, 0, h), Step.Exit(p, 0)]
  }

  /**
   With a second CPU the clock can tick between the two readings in `scheduler`: a run from boot in which
   `wait2` reports h ticks less than the process has run.
   */
  lemma {:induction false} LostTicks(s: Clock, p: int, h: nat)
    requires Boot(s) && 0 <= p < |s.ps|
    ensures Possible(s, Life(p, h)) && forall i :: 0 <= i < |Life(p, h)| ==> OnCpu(Life(p, h)[i], 1, 2)
    ensures var t := After(s, Life(p, h));
            && |t.ps| == |t.counts| == |s.ps| && t.ps[p].state == ZOMBIE
            && t.ps[p].rutime == t.counts[p].run - h
  {
    var steps := Life(p, h);
    hide Do, Boot;
    BootStates(s, p);
    var a := Do(s, steps[0]);
    Reaches(s, steps[0]);
    var b := Do(a, steps[1]);
    Reaches(a, steps[1]);
    var c := Do(b, steps[2]);
    Reaches(b, steps[2]);
    var d := Do(c, steps[3]);
    Reaches(c, steps[3]);
    assert steps[3..] == [steps[3]] && steps[2..][1..] == steps[3..] && steps[1..][1..] == steps[2..];
    assert [steps[3]][1..] == [];
    hide May;
    assert Possible(c, steps[3..]) && After(c, steps[3..]) == d by {
      assert Possible(d, []);
    }
    assert Possible(b, steps[2..]) && After(b, steps[2..]) == d;
    assert Possible(a, steps[1..]) && After(a, steps[1..]) == d;
    Wait2Exactly(s, steps, p);
    SumOfLife(p, h);
    SameTable(s, steps);
  }

  lemma BootStates(s: Clock, p: int)
    requires Boot(s) && 0 <= p < |s.ps|
    ensures |s.ps| == |s.counts| && s.ps[p].state == UNUSED
  {
  }

  lemma {:induction false} SumOfLife(p: int, h: nat)
    ensures RunSum(Life(p, h), p, 0) == 0 - h
  {
    var steps := Life(p, h);
    assert steps[1..][1..] == steps[2..] && steps[2..][1..] == steps[3..] && steps[3..][1..] == [];
    assert RunSum(steps[3..], p, 0 - h) == 0 - h;
    assert RunSum(steps[2..], p, 0) == 0 - h;
    assert RunSum(steps[1..], p, 0) == 0 - h;
  }

  lemma {:induction false} Joined(s: Clock, a: seq<Step>, b: seq<Step>)
    requires Possible(s, a) && Possible(After(s, a), b)
    ensures Possible(s, a + b) && After(s, a + b) == After(After(s, a), b)
    decreases |a|
  {
    hide May, Do;
    if a == [] {
      assert a + b == b;
    } else {
      Joined(Do(s, a[0]), a[1..], b);
      assert (a + b)[1..] == a[1..] + b;
    }
  }

  lemma OneStep(s: Clock, step: Step)
    requires May(s, step)
    ensures Possible(s, [step]) && After(s, [step]) == Do(s, step)
  {
    hide May, Do;
    assert [step][1..] == [];
    assert Possible(Do(s, step), []);
  }

  function Wait(n: nat): seq<Step> {
    if n == 0 then [] else [Step.Tick] + Wait(n - 1)
  }

  /** The clock can always tick. */
  lemma {:induction false} Waits(s: Clock, n: nat)
    requires |s.ps| == |s.counts|
    ensures Possible(s, Wait(n))
    ensures var t := After(s, Wait(n)); t.ps == s.ps && t.ticks == s.ticks + n && |t.counts| == |s.counts|
    decreases n
  {
    if n > 0 {
      Waits(Do(s, Step.Tick), n - 1);
      assert Wait(n)[1..] == Wait(n - 1);
    }
  }

  /** The entry of p after its step, by the clock. */
  lemma StepTimes(s: Clock, step: Step)
    requires May(s, step) && !step.Tick? && Elapsed(step) == 0
    ensures var t, x := Do(s, step), s.ps[step.p];
            && |t.ps| == |s.ps| == |t.counts| && t.ticks == s.ticks
            && var y := t.ps[step.p];
               && y.state == Target(step)
               && (step.Alloc? ==> y.wtime == y.rutime == 0 && y.snap == s.ticks)
               && (step.Start? ==> y.wtime == x.wtime && y.rutime == x.rutime && y.snap == x.snap)
               && (step.Schedule? ==>
                     y.wtime == x.wtime + (s.ticks - x.snap) && y.rutime == x.rutime && y.snap == s.ticks)
               && (step.Exit? ==> y.wtime == x.wtime && y.rutime == x.rutime + (s.ticks - x.snap))
  {
  }

  lemma {:induction false} IsBorn(s: Clock, p: int)
    requires Boot(s) && 0 <= p < |s.ps|
    ensures Possible(s, [Step.Alloc(p, 0)] + [Step.Start(p)])
    ensures var t := After(s, [Step.Alloc(p, 0)] + [Step.Start(p)]);
            && |t.ps| == |s.ps| == |t.counts| && t.ps[p].state == RUNNABLE
            && t.ps[p].wtime == t.ps[p].rutime == 0 && t.ps[p].snap == t.ticks
  {
    var alloc, start := Step.Alloc(p, 0), Step.Start(p);
    BootStates(s, p);
    hide Do, Boot;
    StepTimes(s, alloc);
    StepTimes(Do(s, alloc), start);
    hide May;
    OneStep(s, alloc);
    OneStep(Do(s, alloc), start);
    Joined(s, [alloc], [start]);
  }

  /** It waits n ticks more and is scheduled, or runs m ticks more and exits. */
  lemma {:induction false} Then(s: Clock, p: int, n: nat, step: Step)
    requires |s.ps| == |s.counts| && 0 <= p < |s.ps|
    requires (step == Step.Schedule(p, 0, 0) && s.ps[p].state == RUNNABLE)
             || (step == Step.Exit(p, 0) && s.ps[p].state == RUNNING)
    ensures Possible(s, Wait(n) + [step])
    ensures var t, x := After(s, Wait(n) + [step]), s.ps[p];
            && |t.ps| == |s.ps| == |t.counts| && t.ps[p].state == Target(step)
            && var w := s.ticks + n - x.snap;
               if step.Schedule?
               then t.ps[p].wtime == x.wtime + w && t.ps[p].rutime == x.rutime && t.ps[p].snap == t.ticks
               else t.ps[p].wtime == x.wtime && t.ps[p].rutime == x.rutime + w
  {
    Waits(s, n);
    var c := After(s, Wait(n));
    hide Do;
    StepTimes(c, step);
    hide May;
    OneStep(c, step);
    Joined(s, Wait(n), [step]);
  }

  /** A process that waits n ticks for the CPU and then runs for m ticks ends with these times. */
  lemma {:induction false} LifeTimes(s: Clock, p: int, n: nat, m: nat)
    requires Boot(s) && 0 <= p < |s.ps|
    ensures var born := [Step.Alloc(p, 0)] + [Step.Start(p)];
            var waits, runs := Wait(n) + [Step.Schedule(p, 0, 0)], Wait(m) + [Step.Exit(p, 0)];
            && Possible(s, born + (waits + runs))
            && var t := After(s, born + (waits + runs));
               |t.ps| == |s.ps| && t.ps[p].state == ZOMBIE && t.ps[p].wtime == n && t.ps[p].rutime == m
  {
    var born := [Step.Alloc(p, 0)] + [Step.Start(p)];
    var waits, runs := Wait(n) + [Step.Schedule(p, 0, 0)], Wait(m) + [Step.Exit(p, 0)];
    hide Do, Boot, May, Possible, After, Wait;
    IsBorn(s, p);
    Then(After(s, born), p, n, Step.Schedule(p, 0, 0));
    Then(After(After(s, born), waits), p, m, Step.Exit(p, 0));
    Joined(After(s, born), waits, runs);
    Joined(s, born, waits + runs);
  }
}
