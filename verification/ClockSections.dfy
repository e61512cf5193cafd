/**
 Why the clock cannot tick inside a section of CPU 0: interrupts, `pushcli` and `ptable.lock`, as a machine of
 any number of CPUs. Each store and each reading of the clock in a section is an event of its own; the
 sections it completes are a run of Accounting.
 */
module ClockSections {
  import ProcTable
  import opened Accounting

  /** Where a CPU is with `ptable.lock`; `pushcli` comes before the exchange, `popcli` after the unlock. */
  datatype Place = Outside | Spinning | Inside | Leaving

  /** `enabled` is the interrupt flag; `others` counts the other `pushcli`s that have not been undone. */
  datatype Cpu = Cpu(enabled: bool, ncli: nat, intena: bool, others: nat, place: Place)

  /** A section of which `step` counts the ticks so far; `read` says that the clock has been read once. */
  datatype Open = Shut | Section(cpu: int, step: Step, read: bool)

  datatype Done = Done(step: Step, cpu: int)

  /** `log` is history: the steps completed, and by which CPU. */
  datatype Machine = Machine(cpus: seq<Cpu>, clock: Clock, open: Open, log: seq<Done>)

  datatype Event =
    | Push(c: int)                  // pushcli for another lock
    | Pop(c: int)                   // its popcli
    | Acquire(c: int)               // pushcli for ptable.lock
    | Exchange(c: int)              // xchg finds it free
    | Unlock(c: int)
    | Release(c: int)               // popcli after the unlock
    | Resched(c: int, intena: bool) // sched restores the process's intena
    | Sti(c: int)                   // scheduler, or a return from an interrupt
    | Trap(c: int)                  // an interrupt that is not the timer's on CPU 0
    | Timer                         // CPU 0 takes the timer's interrupt and counts a tick
    | Change(c: int, step: Step)    // the store to p->state that opens a section
    | Read(c: int)                  // the first of two readings
    | Close(c: int)                 // the last reading
    | Plain(c: int, step: Step)     // a change of state without a reading

  /** Sections that read the clock, with no ticks yet. */
  predicate Opens(step: Step) { Whole(step) && !step.Tick? && !step.Free? && !step.Start? && !step.Reap? }

  predicate Twice(step: Step) { step.Schedule? || step.Yield? }

  /** One tick more, before or after the first reading. */
  function Longer(step: Step, read: bool): Step {
    match step
    case Alloc(p, g) => Alloc(p, g + 1)
    case Schedule(p, g, h) => if read then Schedule(p, g, h + 1) else Schedule(p, g + 1, h)
    case Yield(p, g, h) => if read then Yield(p, g, h + 1) else Yield(p, g + 1, h)
    case Sleep(p, chan, g) => Sleep(p, chan, g + 1)
    case Wake(p, g) => Wake(p, g + 1)
    case Exit(p, g) => Exit(p, g + 1)
    case _ => step
  }

  predicate NobodyInside(m: Machine) { forall c :: 0 <= c < |m.cpus| ==> m.cpus[c].place != Inside }

  predicate OpenBy(m: Machine, c: int) { m.open.Section? && m.open.cpu == c }

  predicate May(m: Machine, e: Event) {
    && 0 <= (if e.Timer? then 0 else e.c) < |m.cpus|
    && match e
       case Push(_) => true
       case Pop(c) => m.cpus[c].others > 0
       case Acquire(c) => m.cpus[c].place == Outside
       case Exchange(c) => m.cpus[c].place == Spinning && NobodyInside(m)
       case Unlock(c) => m.cpus[c].place == Inside && m.open == Shut
       case Release(c) => m.cpus[c].place == Leaving
       case Resched(c, _) => m.cpus[c].place == Inside && m.open == Shut
       case Sti(c) => m.cpus[c].ncli == 0
       case Trap(c) => m.cpus[c].enabled
       case Timer => m.cpus[0].enabled
       case Change(c, step) =>
         m.cpus[c].place == Inside && m.open == Shut && Opens(step) && Accounting.May(m.clock, step)
       case Read(c) => OpenBy(m, c) && !m.open.read && Twice(m.open.step)
       case Close(c) => OpenBy(m, c) && (Twice(m.open.step) ==> m.open.read)
       case Plain(c, step) =>
         && (step.Free? || ((step.Start? || step.Reap?) && m.cpus[c].place == Inside && m.open == Shut))
         && Accounting.May(m.clock, step)
  }

  function PushOne(u: Cpu): Cpu {
    u.(enabled := false, ncli := u.ncli + 1, intena := if u.ncli == 0 then u.enabled else u.intena)
  }

  /** The last `popcli` lets interrupts in again if they were before the first `pushcli`. */
  function PopOne(u: Cpu): Cpu
    requires u.ncli > 0
  {
    u.(ncli := u.ncli - 1, enabled := u.enabled || (u.ncli == 1 && u.intena))
  }

  /** The section or the tick is complete. */
  function Emit(m: Machine, step: Step, cpu: int): Machine
    requires Accounting.May(m.clock, step)
  {
    m.(clock := Accounting.Do(m.clock, step), log := m.log + [Done(step, cpu)])
  }

  ghost predicate CpuOk(u: Cpu) {
    && u.ncli == u.others + (if u.place == Outside then 0 else 1)
    && (u.ncli > 0 ==> !u.enabled)
  }

  /** Interrupts are off where `ptable.lock` is wanted or held; one CPU is inside; only it has a section open. */
  ghost predicate Inv(m: Machine) {
    && |m.clock.ps| == |m.clock.counts|
    && (forall c :: 0 <= c < |m.cpus| ==> CpuOk(m.cpus[c]))
    && (forall c, d :: 0 <= c < d < |m.cpus| ==> !(m.cpus[c].place == Inside && m.cpus[d].place == Inside))
    && (m.open.Section? ==>
          && 0 <= m.open.cpu < |m.cpus| && m.cpus[m.open.cpu].place == Inside
          && Accounting.May(m.clock, m.open.step) && !m.open.step.Tick? && !m.open.step.Free?
          && !m.open.step.Start? && !m.open.step.Reap? && (m.open.cpu == 0 ==> Whole(m.open.step)))
  }

  function SetCpu(m: Machine, c: int, u: Cpu): Machine
    requires 0 <= c < |m.cpus|
  {
    m.(cpus := m.cpus[c := u])
  }

  ghost function Do(m: Machine, e: Event): Machine
    requires Inv(m) && May(m, e)
  {
    match e
    case Push(c) => SetCpu(m, c, PushOne(m.cpus[c]).(others := m.cpus[c].others + 1))
    case Pop(c) => assert CpuOk(m.cpus[c]); SetCpu(m, c, PopOne(m.cpus[c]).(others := m.cpus[c].others - 1))
    case Acquire(c) => SetCpu(m, c, PushOne(m.cpus[c]).(place := Spinning))
    case Exchange(c) => SetCpu(m, c, m.cpus[c].(place := Inside))
    case Unlock(c) => SetCpu(m, c, m.cpus[c].(place := Leaving))
    case Release(c) => assert CpuOk(m.cpus[c]); SetCpu(m, c, PopOne(m.cpus[c]).(place := Outside))
    case Resched(c, intena) => SetCpu(m, c, m.cpus[c].(intena := intena))
    case Sti(c) => SetCpu(m, c, m.cpus[c].(enabled := true))
    case Trap(c) => SetCpu(m, c, m.cpus[c].(enabled := false))
    case Timer =>
      var t := SetCpu(m, 0, m.cpus[0].(enabled := false));
      if m.open.Section? then t.(open := m.open.(step := Longer(m.open.step, m.open.read)))
      else Emit(t, Tick, 0)
    case Change(c, step) => m.(open := Section(c, step, false))
    case Read(_) => m.(open := m.open.(read := true))
    case Close(c) => Emit(m.(open := Shut), m.open.step, c)
    case Plain(c, step) => Emit(m, step, c)
  }

  /** A section in progress can still be completed, and its CPU, if it is CPU 0, takes no tick. */
  lemma {:induction false} DoInv(m: Machine, e: Event)
    requires Inv(m) && May(m, e)
    ensures Inv(Do(m, e))
  {
    hide Accounting.Do;
    match e
    case Timer =>
      assert CpuOk(m.cpus[0]);
      if m.open == Shut {
        SameSize(m.clock, Tick);
      }
    case Close(_) => SameSize(m.clock, m.open.step);
    case Plain(_, step) =>
      SameSize(m.clock, step);
      if m.open.Section? {
        StillMay(m.clock, step, m.open.step);
      }
    case _ => assert CpuOk(m.cpus[e.c]);
  }

  /** A failed fork does not stand in the way of a section. */
  lemma StillMay(s: Clock, step: Step, later: Step)
    requires Accounting.May(s, step) && Accounting.May(s, later) && step.Free?
    requires !later.Tick? && !later.Free? && !later.Start? && !later.Reap?
    ensures Accounting.May(Accounting.Do(s, step), later)
  {
  }

  // ------------------------------------------------------------------ runs

  ghost predicate CanRun(m: Machine, es: seq<Event>)
    requires Inv(m)
    decreases |es|
  {
    es == [] || (May(m, es[0]) && (DoInv(m, es[0]); CanRun(Do(m, es[0]), es[1..])))
  }

  ghost function Run(m: Machine, es: seq<Event>): Machine
    requires Inv(m) && CanRun(m, es)
    decreases |es|
  {
    if es == [] then m else DoInv(m, es[0]); Run(Do(m, es[0]), es[1..])
  }

  /** CPUs outside all locks, an empty process table, nothing logged. */
  ghost predicate Start(m: Machine): (b: bool)
    ensures b ==> Inv(m)
  {
    && Boot(m.clock) && m.open == Shut && m.log == []
    && forall c :: 0 <= c < |m.cpus| ==> m.cpus[c].ncli == m.cpus[c].others == 0 && m.cpus[c].place == Outside
  }

  function Steps(log: seq<Done>): (r: seq<Step>)
    ensures |r| == |log|
  {
    seq(|log|, i requires 0 <= i < |log| => log[i].step)
  }

  /** The log is a run of Accounting from s0 to the present clock, each step on a CPU where it can run. */
  ghost predicate Logged(s0: Clock, m: Machine) {
    && Possible(s0, Steps(m.log)) && After(s0, Steps(m.log)) == m.clock
    && forall i :: 0 <= i < |m.log| ==> OnCpu(m.log[i].step, m.log[i].cpu, |m.cpus|)
  }

  lemma {:induction false} OneMore(s: Clock, steps: seq<Step>, step: Step)
    requires Possible(s, steps) && Accounting.May(After(s, steps), step)
    ensures Possible(s, steps + [step]) && After(s, steps + [step]) == Accounting.Do(After(s, steps), step)
    decreases |steps|
  {
    hide Accounting.May, Accounting.Do;
    if steps == [] {
      assert [] + [step] == [step] && [step][1..] == [];
      assert Possible(Accounting.Do(s, step), []);
    } else {
      assert (steps + [step])[1..] == steps[1..] + [step];
      OneMore(Accounting.Do(s, steps[0]), steps[1..], step);
    }
  }

  lemma {:induction false} EmitLogged(s0: Clock, m: Machine, step: Step, cpu: int)
    requires Logged(s0, m) && Accounting.May(m.clock, step) && OnCpu(step, cpu, |m.cpus|)
    ensures Logged(s0, Emit(m, step, cpu))
  {
    hide Accounting.May, Accounting.Do, Possible, After, OnCpu;
    OneMore(s0, Steps(m.log), step);
    assert Steps(m.log + [Done(step, cpu)]) == Steps(m.log) + [step];
  }

  lemma {:induction false} DoLogged(s0: Clock, m: Machine, e: Event)
    requires Inv(m) && May(m, e) && Logged(s0, m)
    ensures Logged(s0, Do(m, e)) && |Do(m, e).cpus| == |m.cpus|
  {
    hide Accounting.Do, Possible, After;
    match e
    case Timer =>
      if m.open == Shut {
        EmitLogged(s0, SetCpu(m, 0, m.cpus[0].(enabled := false)), Tick, 0);
      }
    case Close(c) => EmitLogged(s0, m.(open := Shut), m.open.step, c);
    case Plain(c, step) => EmitLogged(s0, m, step, c);
    case _ =>
  }

  /**
   Whatever any number of CPUs do, with interrupts, nested locks and `sched`, the sections they complete are a
   run of Accounting in which no tick falls inside a section of CPU 0.
   */
  lemma {:induction false} SectionsRun(s0: Clock, m: Machine, es: seq<Event>)
    requires Inv(m) && Logged(s0, m) && CanRun(m, es)
    ensures var t := Run(m, es); Inv(t) && Logged(s0, t) && |t.cpus| == |m.cpus|
    decreases |es|
  {
    hide Inv, Logged, May, Do;
    if es != [] {
      DoInv(m, es[0]);
      DoLogged(s0, m, es[0]);
      SectionsRun(s0, Do(m, es[0]), es[1..]);
    }
  }

  /** On one CPU, as configured, the totals that `wait2` returns are right in every run. */
  lemma {:induction false} OneCpuRun(m: Machine, es: seq<Event>, p: int)
    requires Start(m) && |m.cpus| == 1 && CanRun(m, es)
    requires 0 <= p < |Run(m, es).clock.ps| && Run(m, es).clock.ps[p].state == ProcTable.ZOMBIE
    ensures |Run(m, es).clock.counts| == |Run(m, es).clock.ps|
    ensures var x, c := Run(m, es).clock.ps[p], Run(m, es).clock.counts[p];
            x.wtime == c.ready + c.embryo && x.rutime == c.run
  {
    hide CanRun, Run, Inv;
    assert Steps(m.log) == [] && Logged(m.clock, m);
    SectionsRun(m.clock, m, es);
    var t := Run(m, es);
    OneCpuExact(m.clock, Steps(t.log), seq(|t.log|, i requires 0 <= i < |t.log| => t.log[i].cpu), p);
  }

  lemma Then(m: Machine, e: Event, es: seq<Event>)
    requires Inv(m) && May(m, e) && Inv(Do(m, e)) && CanRun(Do(m, e), es)
    ensures CanRun(m, [e] + es) && Run(m, [e] + es) == Run(Do(m, e), es)
  {
    hide Inv, May, Do;
    assert ([e] + es)[1..] == es;
  }

  /** A second CPU does take sections with ticks in them: here `allocproc` on CPU 1. */
  lemma {:induction false} TickInside(m: Machine, p: int) returns (es: seq<Event>)
    requires Start(m) && |m.cpus| >= 2 && m.cpus[0].enabled && 0 <= p < |m.clock.ps|
    ensures CanRun(m, es) && Run(m, es).log == [Done(Alloc(p, 1), 1)]
  {
    hide Accounting.Do, Inv, CanRun, Run;
    var a := Do(m, Acquire(1));
    DoInv(m, Acquire(1));
    var b := Do(a, Exchange(1));
    DoInv(a, Exchange(1));
    var c := Do(b, Change(1, Alloc(p, 0)));
    DoInv(b, Change(1, Alloc(p, 0)));
    var d := Do(c, Timer);
    DoInv(c, Timer);
    var e := Do(d, Close(1));
    DoInv(d, Close(1));
    assert CanRun(e, []) && Run(e, []) == e by { Nothing(e); }
    Then(d, Close(1), []);
    Then(c, Timer, [Close(1)] + []);
    Then(b, Change(1, Alloc(p, 0)), [Timer] + ([Close(1)] + []));
    Then(a, Exchange(1), [Change(1, Alloc(p, 0))] + ([Timer] + ([Close(1)] + [])));
    Then(m, Acquire(1), [Exchange(1)] + ([Change(1, Alloc(p, 0))] + ([Timer] + ([Close(1)] + []))));
    es := [Acquire(1)] + ([Exchange(1)] + ([Change(1, Alloc(p, 0))] + ([Timer] + ([Close(1)] + []))));
  }

  lemma Nothing(m: Machine)
    requires Inv(m)
    ensures CanRun(m, []) && Run(m, []) == m
  {
  }
}
