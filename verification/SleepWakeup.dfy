/**
 `sleep` and `wakeup` at the granularity of lock operations, for any number of processes on any
 number of CPUs: a lock lk guards a condition, waiters loop `while(!cond) sleep(chan, lk)`, and a
 process that makes the condition true calls `wakeup(chan)` before it releases lk.
 */
module SleepWakeup {

  const NOBODY := -1

  /** Where a process is. */
  datatype Pc =
    | Outside     // holds neither lock
    | Inside      // holds lk
    | Due         // holds lk, has made the condition true, is about to call wakeup
    | Entering    // in sleep: holds lk and ptable.lock
    | Falling     // in sleep: has released lk, holds ptable.lock
    | Sleeping    // SLEEPING on chan
    | Ready       // RUNNABLE again
    | Resumed     // scheduled, still holds ptable.lock
    | Returning   // at the end of sleep: waits for lk
    | Waking      // in wakeup: holds both locks
    | Elsewhere   // holds ptable.lock for something else

  datatype State = State(pc: seq<Pc>, lk: int, pt: int, cond: bool)

  datatype Step =
    | Acquire(p: int) | Release(p: int) | MakeTrue(p: int) | MakeFalse(p: int)
    | BeginSleep(p: int) | DropLk(p: int) | FallAsleep(p: int) | Schedule(p: int) | Resume(p: int)
    | BeginWakeup(p: int) | WakeAll(p: int) | Kill(p: int) | TakePt(p: int) | DropPt(p: int)

  predicate May(s: State, step: Step) {
    && 0 <= step.p < |s.pc|
    && var pc := s.pc[step.p];
       match step
       case Acquire(_) => (pc == Outside || pc == Returning) && s.lk == NOBODY
       case Release(_) => pc == Inside
       case MakeTrue(_) => pc == Inside || pc == Due
       case MakeFalse(_) => pc == Inside
       case BeginSleep(_) => pc == Inside && !s.cond && s.pt == NOBODY
       case DropLk(_) => pc == Entering
       case FallAsleep(_) => pc == Falling
       case Schedule(_) => pc == Ready && s.pt == NOBODY
       case Resume(_) => pc == Resumed
       case BeginWakeup(_) => pc == Due && s.pt == NOBODY
       case WakeAll(_) => pc == Waking
       case Kill(_) => pc == Sleeping && s.pt == NOBODY
       case TakePt(_) => pc == Outside && s.pt == NOBODY
       case DropPt(_) => pc == Elsewhere
  }

  function Wake(pc: seq<Pc>): (r: seq<Pc>)
    ensures |r| == |pc|
  {
    seq(|pc|, i requires 0 <= i < |pc| => if pc[i] == Sleeping then Ready else pc[i])
  }

  function Do(s: State, step: Step): State
    requires May(s, step)
  {
    var p := step.p;
    match step
    case Acquire(_) => s.(pc := s.pc[p := Inside], lk := p)
    case Release(_) => s.(pc := s.pc[p := Outside], lk := NOBODY)
    case MakeTrue(_) => s.(pc := s.pc[p := Due], cond := true)
    case MakeFalse(_) => s.(cond := false)
    case BeginSleep(_) => s.(pc := s.pc[p := Entering], pt := p)
    case DropLk(_) => s.(pc := s.pc[p := Falling], lk := NOBODY)
    case FallAsleep(_) => s.(pc := s.pc[p := Sleeping], pt := NOBODY)
    case Schedule(_) => s.(pc := s.pc[p := Resumed], pt := p)
    case Resume(_) => s.(pc := s.pc[p := Returning], pt := NOBODY)
    case BeginWakeup(_) => s.(pc := s.pc[p := Waking], pt := p)
    case WakeAll(_) => s.(pc := Wake(s.pc)[p := Inside], pt := NOBODY)
    case Kill(_) => s.(pc := s.pc[p := Ready])
    case TakePt(_) => s.(pc := s.pc[p := Elsewhere], pt := p)
    case DropPt(_) => s.(pc := s.pc[p := Outside], pt := NOBODY)
  }

  predicate HoldsLk(pc: Pc) { pc in {Inside, Due, Entering, Waking} }

  predicate HoldsPt(pc: Pc) { pc in {Entering, Falling, Resumed, Waking, Elsewhere} }

  /** Has released lk in `sleep`, or is about to, and has not been woken. */
  predicate Waits(pc: Pc) { pc in {Entering, Falling, Sleeping} }

  predicate PcOk(s: State, p: int)
    requires 0 <= p < |s.pc|
  {
    && (HoldsLk(s.pc[p]) <==> s.lk == p)
    && (HoldsPt(s.pc[p]) <==> s.pt == p)
    && (s.cond && Waits(s.pc[p]) ==> 0 <= s.lk < |s.pc| && s.pc[s.lk] in {Due, Waking})
  }

  ghost predicate Inv(s: State) {
    && (s.lk == NOBODY || 0 <= s.lk < |s.pc|) && (s.pt == NOBODY || 0 <= s.pt < |s.pc|)
    && forall p :: 0 <= p < |s.pc| ==> PcOk(s, p)
  }

  ghost predicate Start(s: State) {
    (forall p :: 0 <= p < |s.pc| ==> s.pc[p] == Outside) && s.lk == s.pt == NOBODY
  }

  lemma {:induction false} DoInv(s: State, step: Step)
    requires Inv(s) && May(s, step)
    ensures Inv(Do(s, step))
  {
    var t := Do(s, step);
    assert PcOk(s, step.p);
    forall p | 0 <= p < |t.pc|
      ensures PcOk(t, p)
    {
      assert PcOk(s, p);
    }
  }

  ghost predicate Possible(s: State, steps: seq<Step>)
    decreases |steps|
  {
    steps == [] || (May(s, steps[0]) && Possible(Do(s, steps[0]), steps[1..]))
  }

  ghost function After(s: State, steps: seq<Step>): State
    requires Possible(s, steps)
    decreases |steps|
  {
    if steps == [] then s else After(Do(s, steps[0]), steps[1..])
  }

  lemma {:induction false} RunInv(s: State, steps: seq<Step>)
    requires Inv(s) && Possible(s, steps)
    ensures Inv(After(s, steps)) && |After(s, steps).pc| == |s.pc|
    decreases |steps|
  {
    hide Inv;
    if steps != [] {
      DoInv(s, steps[0]);
      RunInv(Do(s, steps[0]), steps[1..]);
    }
  }

  /**
   No wakeup is lost: in every run, when lk is free and the condition holds, nobody sleeps on the
   channel or is on the way to.
   */
  lemma {:induction false} NoLostWakeup(s: State, steps: seq<Step>)
    requires Start(s) && Possible(s, steps) && After(s, steps).lk == NOBODY && After(s, steps).cond
    ensures var t := After(s, steps); forall p :: 0 <= p < |t.pc| ==> !Waits(t.pc[p])
  {
    hide Possible, After;
    RunInv(s, steps);
    var t := After(s, steps);
    forall p | 0 <= p < |t.pc|
      ensures !Waits(t.pc[p])
    {
      assert PcOk(t, p);
    }
  }

  /**
   `wakeup` by a holder of lk reaches everyone: each process that has released lk in `sleep` and was
   still waiting is RUNNABLE afterwards, and nobody is between releasing lk and sleeping.
   */
  lemma {:induction false} WakeupReachesAll(s: State, steps: seq<Step>, w: int)
    requires Start(s) && Possible(s, steps) && May(After(s, steps), WakeAll(w))
    ensures var t := After(s, steps);
            forall p :: 0 <= p < |t.pc| && Waits(t.pc[p]) ==> Do(t, WakeAll(w)).pc[p] == Ready
  {
    hide Possible, After;
    RunInv(s, steps);
    var t := After(s, steps);
    assert PcOk(t, w);
    forall p | 0 <= p < |t.pc| && Waits(t.pc[p])
      ensures Do(t, WakeAll(w)).pc[p] == Ready
    {
      assert PcOk(t, p);
    }
  }

  // ---------------------------------------------------------- whole rounds

  lemma Then(s: State, step: Step, steps: seq<Step>)
    requires May(s, step) && Possible(Do(s, step), steps)
    ensures Possible(s, [step] + steps) && After(s, [step] + steps) == After(Do(s, step), steps)
  {
    hide May, Do;
    assert ([step] + steps)[1..] == steps;
  }

  lemma Four(s: State, a: Step, b: Step, c: Step, d: Step)
    requires May(s, a) && May(Do(s, a), b) && May(Do(Do(s, a), b), c) && May(Do(Do(Do(s, a), b), c), d)
    ensures Possible(s, [a, b, c, d]) && After(s, [a, b, c, d]) == Do(Do(Do(Do(s, a), b), c), d)
  {
    hide May, Do;
    var s1, s2, s3 := Do(s, a), Do(Do(s, a), b), Do(Do(Do(s, a), b), c);
    Then(s3, d, []);
    Then(s2, c, [d] + []);
    Then(s1, b, [c] + ([d] + []));
    Then(s, a, [b] + ([c] + ([d] + [])));
    assert [a] + ([b] + ([c] + ([d] + []))) == [a, b, c, d];
  }

  /** With both locks free a process that finds the condition false falls asleep, and both locks are free again. */
  lemma FallsAsleep(s: State, p: int)
    requires 0 <= p < |s.pc| && s.pc[p] == Outside && s.lk == s.pt == NOBODY && !s.cond
    ensures var steps := [Acquire(p), BeginSleep(p), DropLk(p), FallAsleep(p)];
            Possible(s, steps) && After(s, steps) == s.(pc := s.pc[p := Sleeping])
  {
    Four(s, Acquire(p), BeginSleep(p), DropLk(p), FallAsleep(p));
  }

  /** A process that makes the condition true and calls `wakeup` leaves everyone awake. */
  lemma {:induction false} MakesTrue(s: State, w: int)
    requires 0 <= w < |s.pc| && s.pc[w] == Outside && s.lk == s.pt == NOBODY
    ensures var steps := [Acquire(w)] + [MakeTrue(w), BeginWakeup(w), WakeAll(w), Release(w)];
            Possible(s, steps) && After(s, steps) == s.(pc := Wake(s.pc), cond := true)
  {
    var a := Do(s, Acquire(w));
    Four(a, MakeTrue(w), BeginWakeup(w), WakeAll(w), Release(w));
    Then(s, Acquire(w), [MakeTrue(w), BeginWakeup(w), WakeAll(w), Release(w)]);
    var t := After(a, [MakeTrue(w), BeginWakeup(w), WakeAll(w), Release(w)]);
    assert t.pc == Wake(s.pc);
  }

  /** A woken process gets lk back when it is free; it then tests the condition, and may make it false and leave. */
  lemma {:induction false} Continues(s: State, p: int)
    requires 0 <= p < |s.pc| && s.pc[p] == Ready && s.lk == s.pt == NOBODY
    ensures var steps := [Schedule(p), Resume(p), Acquire(p), MakeFalse(p)];
            && Possible(s, steps)
            && After(s, steps) == s.(pc := s.pc[p := Inside], lk := p, cond := false)
            && May(After(s, steps), Release(p))
            && Do(After(s, steps), Release(p)) == s.(pc := s.pc[p := Outside], cond := false)
  {
    Four(s, Schedule(p), Resume(p), Acquire(p), MakeFalse(p));
    var t := Do(Do(Do(Do(s, Schedule(p)), Resume(p)), Acquire(p)), MakeFalse(p));
    assert t.pc == s.pc[p := Inside];
    assert t.pc[p := Outside] == s.pc[p := Outside];
  }

  /** `kill` gets a sleeper out of `sleep` too, with the condition as it was. */
  lemma {:induction false} KilledContinues(s: State, p: int)
    requires 0 <= p < |s.pc| && s.pc[p] == Sleeping && s.lk == s.pt == NOBODY
    ensures var steps := [Kill(p), Schedule(p), Resume(p), Acquire(p)];
            Possible(s, steps) && After(s, steps) == s.(pc := s.pc[p := Inside], lk := p)
  {
    Four(s, Kill(p), Schedule(p), Resume(p), Acquire(p));
    var t := Do(Do(Do(Do(s, Kill(p)), Schedule(p)), Resume(p)), Acquire(p));
    assert t.pc == s.pc[p := Inside];
  }

  /** The step that takes a holder of a lock on. */
  function Onward(s: State, p: int): Step
    requires 0 <= p < |s.pc|
  {
    match s.pc[p]
    case Inside => Release(p)
    case Due => BeginWakeup(p)
    case Entering => DropLk(p)
    case Falling => FallAsleep(p)
    case Resumed => Resume(p)
    case Waking => WakeAll(p)
    case _ => DropPt(p)
  }

  /**
   The two locks cannot deadlock: in every run the holder of ptable.lock can go on, and the holder of lk can unless
   it waits for the holder of ptable.lock.
   */
  lemma {:induction false} LocksProgress(s: State, steps: seq<Step>)
    requires Start(s) && Possible(s, steps)
    ensures var t := After(s, steps);
            && (t.pt != NOBODY ==> 0 <= t.pt < |t.pc| && May(t, Onward(t, t.pt)))
            && (t.lk != NOBODY ==> 0 <= t.lk < |t.pc| && (t.pt == NOBODY || t.pt == t.lk ==> May(t, Onward(t, t.lk))))
  {
    hide Possible, After;
    RunInv(s, steps);
    var t := After(s, steps);
    if t.pt != NOBODY {
      assert PcOk(t, t.pt);
    }
    if t.lk != NOBODY {
      assert PcOk(t, t.lk);
    }
  }
}
