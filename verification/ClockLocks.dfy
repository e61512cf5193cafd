/**
 What `pushcli`, `popcli`, interrupts and `ptable.lock` promise a CPU over whole runs, beside what other CPUs do:
 nested calls restore the interrupt flag, every interrupt of the timer is counted once, sections can be completed.
 */
module ClockLocks {
  import ProcTable
  import Accounting
  import opened ClockSections

  // ------------------------------------------------------ nested pushcli

  /** The run takes CPU c from under no `pushcli` through some, and only its last event undoes the last of them. */
  ghost predicate Nests(m: Machine, es: seq<Event>, c: int)
    requires Inv(m) && CanRun(m, es)
    decreases |es|
  {
    es != [] && 0 <= c < |m.cpus| && c < |Do(m, es[0]).cpus|
    && (DoInv(m, es[0]);
        if |es| == 1 then Do(m, es[0]).cpus[c].ncli == 0
        else Do(m, es[0]).cpus[c].ncli > 0 && Nests(Do(m, es[0]), es[1..], c))
  }

  predicate Reschedules(es: seq<Event>, c: int) {
    exists i :: 0 <= i < |es| && es[i].Resched? && es[i].c == c
  }

  /** Under a `pushcli` only `sched` changes what the last `popcli` will restore. */
  lemma {:induction false} Under(m: Machine, e: Event, c: int)
    requires Inv(m) && May(m, e) && 0 <= c < |m.cpus| && m.cpus[c].ncli > 0 && !(e.Resched? && e.c == c)
    ensures |Do(m, e).cpus| == |m.cpus|
    ensures var u := Do(m, e).cpus[c];
            if u.ncli > 0 then u.intena == m.cpus[c].intena && !u.enabled else u.enabled == m.cpus[c].intena
  {
    assert CpuOk(m.cpus[c]);
    hide Accounting.Do;
  }

  lemma {:induction false} NestedTail(m: Machine, es: seq<Event>, c: int)
    requires Inv(m) && CanRun(m, es) && Nests(m, es, c) && !Reschedules(es, c)
    requires 0 <= c < |m.cpus| && m.cpus[c].ncli > 0
    ensures |Run(m, es).cpus| == |m.cpus| && Run(m, es).cpus[c].enabled == m.cpus[c].intena
    decreases |es|
  {
    hide Inv, May, Do, CpuOk;
    var e := es[0];
    DoInv(m, e);
    Under(m, e, c);
    if |es| == 1 {
      assert es[1..] == [];
    } else {
      var m' := Do(m, e);
      NestedTail(m', es[1..], c);
    }
  }

  /**
   It takes as many `popcli`s to undo as many `pushcli`s: however they nest, and whatever other CPUs do, the last one
   leaves the interrupt flag as the first found it, unless `sched` has switched processes in between.
   */
  lemma {:induction false} Nested(m: Machine, es: seq<Event>, c: int)
    requires Inv(m) && CanRun(m, es) && Nests(m, es, c) && !Reschedules(es, c)
    requires |es| > 1 && 0 <= c < |m.cpus| && m.cpus[c].ncli == 0
    ensures |Run(m, es).cpus| == |m.cpus| && Run(m, es).cpus[c].enabled == m.cpus[c].enabled
  {
    var e := es[0];
    DoInv(m, e);
    FirstPush(m, e, c);
    hide Inv, May, Do, CpuOk;
    NestedTail(Do(m, e), es[1..], c);
  }

  lemma {:induction false} FirstPush(m: Machine, e: Event, c: int)
    requires Inv(m) && May(m, e) && 0 <= c < |m.cpus| && m.cpus[c].ncli == 0
    requires |Do(m, e).cpus| == |m.cpus| ==> Do(m, e).cpus[c].ncli > 0
    ensures |Do(m, e).cpus| == |m.cpus| && Do(m, e).cpus[c].intena == m.cpus[c].enabled
  {
    assert CpuOk(m.cpus[c]);
    hide Accounting.Do;
  }

  // ------------------------------------------------------------ interrupts

  /** Interrupts are off, and no `popcli` will let them in. */
  predicate Off(u: Cpu) { !u.enabled && (u.ncli > 0 ==> !u.intena) }

  /** Neither `sti` nor a switch of processes on CPU c. */
  predicate Undisturbed(es: seq<Event>, c: int) {
    forall i :: 0 <= i < |es| ==> !((es[i].Sti? || es[i].Resched?) && es[i].c == c)
  }

  lemma {:induction false} OffStep(m: Machine, e: Event, c: int)
    requires Inv(m) && May(m, e) && 0 <= c < |m.cpus| && Off(m.cpus[c])
    requires !((e.Sti? || e.Resched?) && e.c == c)
    ensures |Do(m, e).cpus| == |m.cpus| && Off(Do(m, e).cpus[c])
  {
    assert CpuOk(m.cpus[c]);
    hide Accounting.Do;
  }

  /** With interrupts off, pairs of `pushcli` and `popcli` leave them off. */
  lemma {:induction false} StaysOff(m: Machine, es: seq<Event>, c: int)
    requires Inv(m) && CanRun(m, es) && 0 <= c < |m.cpus| && Off(m.cpus[c]) && Undisturbed(es, c)
    ensures |Run(m, es).cpus| == |m.cpus| && Off(Run(m, es).cpus[c])
    decreases |es|
  {
    hide Inv, May, Do, Off;
    if es != [] {
      DoInv(m, es[0]);
      OffStep(m, es[0], c);
      StaysOff(Do(m, es[0]), es[1..], c);
    }
  }

  /** So a handler, of the timer or another interrupt, is not interrupted before it returns. */
  lemma {:induction false} HandlerAlone(m: Machine, e: Event, es: seq<Event>, c: int)
    requires Inv(m) && May(m, e) && (e == Trap(c) || (e == Timer && c == 0)) && Inv(Do(m, e))
    requires CanRun(Do(m, e), es) && Undisturbed(es, c)
    ensures var t := Run(Do(m, e), es);
            0 <= c < |t.cpus| && !May(t, Trap(c)) && (c == 0 ==> !May(t, Timer))
  {
    assert CpuOk(m.cpus[c]);
    hide Accounting.Do, CanRun, Run;
    StaysOff(Do(m, e), es, c);
  }

  // ------------------------------------------------------------- the clock

  /** Ticks counted so far, in the section that is open too. */
  function Ticks(m: Machine): int {
    m.clock.ticks + if m.open.Section? then Accounting.Elapsed(m.open.step) else 0
  }

  function Timers(es: seq<Event>): nat {
    if es == [] then 0 else (if es[0].Timer? then 1 else 0) + Timers(es[1..])
  }

  lemma TickStep(m: Machine, e: Event)
    requires Inv(m) && May(m, e)
    ensures Ticks(Do(m, e)) == Ticks(m) + (if e.Timer? then 1 else 0)
  {
  }

  /** Each interrupt of the timer is counted once, inside a section or between sections. */
  lemma {:induction false} TimersCounted(m: Machine, es: seq<Event>)
    requires Inv(m) && CanRun(m, es)
    ensures Ticks(Run(m, es)) == Ticks(m) + Timers(es)
    decreases |es|
  {
    hide Inv, May, Do, Ticks;
    if es != [] {
      DoInv(m, es[0]);
      TickStep(m, es[0]);
      TimersCounted(Do(m, es[0]), es[1..]);
    }
  }

  // -------------------------------------------------------- whole sections

  lemma Two(m: Machine, a: Event, b: Event)
    requires Inv(m) && May(m, a) && Inv(Do(m, a)) && May(Do(m, a), b)
    ensures CanRun(m, [a, b]) && Run(m, [a, b]) == Do(Do(m, a), b) && Inv(Do(Do(m, a), b))
  {
    DoInv(Do(m, a), b);
    Nothing(Do(Do(m, a), b));
    hide Inv, May, Do;
    Then(Do(m, a), b, []);
    Then(m, a, [b] + []);
    assert [a] + ([b] + []) == [a, b];
  }

  lemma {:induction false} Joined(m: Machine, a: seq<Event>, b: seq<Event>)
    requires Inv(m) && CanRun(m, a) && Inv(Run(m, a)) && CanRun(Run(m, a), b)
    ensures CanRun(m, a + b) && Run(m, a + b) == Run(Run(m, a), b)
    decreases |a|
  {
    hide Inv, May, Do;
    if a == [] {
      assert a + b == b;
    } else {
      DoInv(m, a[0]);
      Joined(Do(m, a[0]), a[1..], b);
      assert (a + b)[1..] == a[1..] + b;
    }
  }

  /** CPU c is as before, but for what the first `pushcli` has noted. */
  predicate Back(m: Machine, t: Machine, c: int) {
    && |t.cpus| == |m.cpus| && 0 <= c < |m.cpus| && t.cpus == m.cpus[c := t.cpus[c]]
    && t.cpus[c].(intena := m.cpus[c].intena) == m.cpus[c]
  }

  /** `pushcli` and `popcli` alone. */
  lemma {:induction false} PushPop(m: Machine, c: int)
    requires Inv(m) && 0 <= c < |m.cpus|
    ensures CanRun(m, [Push(c), Pop(c)])
    ensures var t := Run(m, [Push(c), Pop(c)]);
            Back(m, t, c) && t.clock == m.clock && t.open == m.open && t.log == m.log
  {
    assert CpuOk(m.cpus[c]);
    DoInv(m, Push(c));
    Two(m, Push(c), Pop(c));
    hide Inv;
  }

  predicate CanLock(m: Machine, c: int) {
    0 <= c < |m.cpus| && m.cpus[c].place == Outside && NobodyInside(m) && m.open == Shut
  }

  /** CPU c has `ptable.lock`. */
  ghost predicate Locked(m: Machine, t: Machine, c: int) {
    && Inv(t) && t.clock == m.clock && t.log == m.log && t.open == Shut && |t.cpus| == |m.cpus| && 0 <= c < |m.cpus|
    && t.cpus == m.cpus[c := PushOne(m.cpus[c]).(place := Inside)]
  }

  lemma {:induction false} Locks(m: Machine, c: int)
    requires Inv(m) && CanLock(m, c)
    ensures CanRun(m, [Acquire(c), Exchange(c)]) && Locked(m, Run(m, [Acquire(c), Exchange(c)]), c)
  {
    DoInv(m, Acquire(c));
    Two(m, Acquire(c), Exchange(c));
    hide Inv;
  }

  /** Leaving the lock after a section restores the CPU. */
  lemma {:induction false} Unlocks(m: Machine, t: Machine, c: int)
    requires Inv(m) && Inv(t) && 0 <= c < |m.cpus| == |t.cpus| && t.open == Shut && m.cpus[c].place == Outside
    requires t.cpus == m.cpus[c := PushOne(m.cpus[c]).(place := Inside)]
    ensures CanRun(t, [Unlock(c), Release(c)])
    ensures var r := Run(t, [Unlock(c), Release(c)]);
            Inv(r) && Back(m, r, c) && r.clock == t.clock && r.log == t.log && r.open == Shut
  {
    assert CpuOk(m.cpus[c]) && CpuOk(t.cpus[c]);
    hide Inv, Accounting.Do, Accounting.May, CanRun, Run;
    DoInv(t, Unlock(c));
    Two(t, Unlock(c), Release(c));
    var u, r := m.cpus[c], Do(Do(t, Unlock(c)), Release(c));
    assert r.cpus[c] == PopOne(PushOne(u)).(place := Outside);
    assert r.cpus == m.cpus[c := r.cpus[c]];
  }

  /** The events of a section without a tick in it. */
  function Body(c: int, step: Accounting.Step): seq<Event> {
    if Twice(step) then [Change(c, step)] + [Read(c), Close(c)] else [Change(c, step), Close(c)]
  }

  lemma {:induction false} Completes(m: Machine, c: int, step: Accounting.Step)
    requires Inv(m) && 0 <= c < |m.cpus| && m.cpus[c].place == Inside && m.open == Shut
    requires Opens(step) && Accounting.May(m.clock, step)
    ensures CanRun(m, Body(c, step))
    ensures var t := Run(m, Body(c, step));
            && Inv(t) && t.cpus == m.cpus && t.open == Shut && t.log == m.log + [Done(step, c)]
            && t.clock == Accounting.Do(m.clock, step)
  {
    hide Accounting.Do;
    DoInv(m, Change(c, step));
    var a := Do(m, Change(c, step));
    if Twice(step) {
      DoInv(a, Read(c));
      Two(a, Read(c), Close(c));
      Then(m, Change(c, step), [Read(c), Close(c)]);
    } else {
      Two(m, Change(c, step), Close(c));
    }
    hide Inv;
  }

  /**
   With `ptable.lock` free any CPU can take it, carry out any section that is possible, and release it: the step is
   taken and logged, and the CPU and all others are as before.
   */
  lemma {:induction false} WholeSection(m: Machine, c: int, step: Accounting.Step)
    requires Inv(m) && CanLock(m, c) && Opens(step) && Accounting.May(m.clock, step)
    ensures var es := [Acquire(c), Exchange(c)] + (Body(c, step) + [Unlock(c), Release(c)]);
            && CanRun(m, es)
            && var t := Run(m, es);
               && Inv(t) && Back(m, t, c) && t.open == Shut && t.log == m.log + [Done(step, c)]
               && t.clock == Accounting.Do(m.clock, step)
  {
    Locks(m, c);
    var a := Run(m, [Acquire(c), Exchange(c)]);
    Completes(a, c, step);
    var b := Run(a, Body(c, step));
    Unlocks(m, b, c);
    hide Inv, May, Do, Accounting.Do, Accounting.May;
    Joined(a, Body(c, step), [Unlock(c), Release(c)]);
    Joined(m, [Acquire(c), Exchange(c)], Body(c, step) + [Unlock(c), Release(c)]);
  }

  /** So with a change of state that reads no clock. */
  lemma {:induction false} PlainSection(m: Machine, c: int, step: Accounting.Step)
    requires Inv(m) && CanLock(m, c) && (step.Start? || step.Reap?) && Accounting.May(m.clock, step)
    ensures var es := [Acquire(c), Exchange(c)] + ([Plain(c, step)] + [Unlock(c), Release(c)]);
            && CanRun(m, es)
            && var t := Run(m, es);
               && Inv(t) && Back(m, t, c) && t.open == Shut && t.log == m.log + [Done(step, c)]
               && t.clock == Accounting.Do(m.clock, step)
  {
    Locks(m, c);
    var a := Run(m, [Acquire(c), Exchange(c)]);
    DoInv(a, Plain(c, step));
    var b := Do(a, Plain(c, step));
    Unlocks(m, b, c);
    Then(a, Plain(c, step), [Unlock(c), Release(c)]);
    hide Inv, May, Do, Accounting.Do, Accounting.May;
    Joined(m, [Acquire(c), Exchange(c)], [Plain(c, step)] + [Unlock(c), Release(c)]);
  }

  /** After `sched` has switched back, the release leaves interrupts as the process had them. */
  lemma {:induction false} SchedRestores(m: Machine, c: int, intena: bool)
    requires Inv(m) && 0 <= c < |m.cpus| && m.cpus[c].place == Inside && m.cpus[c].ncli == 1 && m.open == Shut
    ensures CanRun(m, [Resched(c, intena)] + [Unlock(c), Release(c)])
    ensures var t := Run(m, [Resched(c, intena)] + [Unlock(c), Release(c)]);
            && |t.cpus| == |m.cpus| && t.cpus[c].enabled == intena && t.cpus[c].ncli == 0
            && t.cpus[c].place == Outside
  {
    assert CpuOk(m.cpus[c]);
    DoInv(m, Resched(c, intena));
    var a := Do(m, Resched(c, intena));
    DoInv(a, Unlock(c));
    Two(a, Unlock(c), Release(c));
    Then(m, Resched(c, intena), [Unlock(c), Release(c)]);
    hide Inv;
  }

  /** A CPU outside all `pushcli`s can let interrupts in, and then takes the timer's or another one. */
  lemma {:induction false} Interruptible(m: Machine, c: int)
    requires Inv(m) && 0 <= c < |m.cpus| && m.cpus[c].ncli == 0
    ensures May(m, Sti(c)) && Do(m, Sti(c)) == m.(cpus := m.cpus[c := m.cpus[c].(enabled := true)])
    ensures May(Do(m, Sti(c)), Trap(c)) && (c == 0 ==> May(Do(m, Sti(c)), Timer))
  {
  }

  /** A tick in another CPU's section of two readings is counted on the side of the first reading where it falls. */
  lemma {:induction false} ReadingSplits(m: Machine, c: int, p: int, g: nat, h: nat)
    requires Inv(m) && m.open == Section(c, Accounting.Schedule(p, g, h), false) && May(m, Timer)
    ensures CanRun(m, [Timer] + [Read(c), Close(c)]) && CanRun(m, [Read(c)] + [Timer, Close(c)])
    ensures Run(m, [Timer] + [Read(c), Close(c)]).log == m.log + [Done(Accounting.Schedule(p, g + 1, h), c)]
    ensures Run(m, [Read(c)] + [Timer, Close(c)]).log == m.log + [Done(Accounting.Schedule(p, g, h + 1), c)]
  {
    hide Accounting.Do;
    DoInv(m, Timer);
    var a := Do(m, Timer);
    DoInv(a, Read(c));
    Two(a, Read(c), Close(c));
    Then(m, Timer, [Read(c), Close(c)]);
    DoInv(m, Read(c));
    var b := Do(m, Read(c));
    DoInv(b, Timer);
    Two(b, Timer, Close(c));
    Then(m, Read(c), [Timer, Close(c)]);
    hide Inv;
  }
}
