/**
 What whole calls do and how they end: a read or a write that need not wait, a read after the last writer has
 closed, a write after the last reader has, and a sleeper that is killed.
 */
module PipeEnds {
  import opened Pipe

  lemma {:induction false} Join(s: State, a: seq<Step>, b: seq<Step>)
    requires Possible(s, a) && Possible(After(s, a), b)
    ensures Possible(s, a + b) && After(s, a + b) == After(After(s, a), b)
    decreases |a|
  {
    hide Do, May;
    if a == [] {
      assert a + b == b;
    } else {
      assert (a + b)[0] == a[0] && (a + b)[1..] == a[1..] + b;
      Join(Do(s, a[0]), a[1..], b);
    }
  }

  lemma TwoSteps(s: State, a: Step, b: Step)
    requires May(s, a) && May(Do(s, a), b)
    ensures Possible(s, [a, b]) && After(s, [a, b]) == Do(Do(s, a), b)
  {
    hide Do, May;
    assert [a, b][1..] == [b];
    OneStep(Do(s, a), b);
  }

  /** k bytes taken by process p, one after another. */
  function Takes(p: int, k: nat): seq<Step> {
    if k == 0 then [] else [TakeByte(p)] + Takes(p, k - 1)
  }

  lemma {:induction false} TakesRun(s: State, p: int, k: nat)
    requires Inv(s) && 0 <= p < |s.pc| && s.pc[p].Taking? && k <= |s.sent| - |s.got|
    requires k > 0 ==> s.pc[p].i + k <= s.pc[p].n
    ensures Possible(s, Takes(p, k)) && |s.got| + k <= |s.sent|
    ensures var t := After(s, Takes(p, k));
            && Inv(t) && t.sent == s.sent && t.got == s.sent[..|s.got| + k]
            && t.pc == s.pc[p := Taking(s.pc[p].n, s.pc[p].i + k)]
            && t.lock == s.lock && t.readopen == s.readopen && t.writeopen == s.writeopen
    decreases k
  {
    GotPart(s);
    if k > 0 {
      TakeOne(s, p);
      var s1 := Do(s, TakeByte(p));
      assert Takes(p, k)[1..] == Takes(p, k - 1);
      hide Inv, Do, May;
      TakesRun(s1, p, k - 1);
      assert s1.pc[p := Taking(s1.pc[p].n, s1.pc[p].i + (k - 1))] == s.pc[p := Taking(s.pc[p].n, s.pc[p].i + k)];
    } else {
      assert s.pc[p := s.pc[p]] == s.pc;
    }
  }

  lemma GotPart(s: State)
    requires Inv(s)
    ensures |s.got| <= |s.sent| && s.got == s.sent[..|s.got|]
  {
  }

  lemma {:induction false} TakeOne(s: State, p: int)
    requires Inv(s) && 0 <= p < |s.pc| && s.pc[p].Taking? && s.pc[p].i < s.pc[p].n && |s.got| < |s.sent|
    ensures May(s, TakeByte(p)) && Inv(Do(s, TakeByte(p)))
    ensures var t := Do(s, TakeByte(p));
            && t.sent == s.sent && |t.got| == |s.got| + 1
            && t.pc == s.pc[p := Taking(s.pc[p].n, s.pc[p].i + 1)]
            && t.lock == s.lock && t.readopen == s.readopen && t.writeopen == s.writeopen
  {
    Tests(s.ring, s.sent, s.got);
    assert PcOk(s, p);
    DoInv(s, TakeByte(p));
    hide Inv;
  }

  /** How many bytes a read of n finds. */
  function Finds(s: State, n: int): nat {
    if n < 0 || |s.sent| <= |s.got| then 0 else if n < |s.sent| - |s.got| then n else |s.sent| - |s.got|
  }

  /**
   A read with the lock free that finds bytes, or the write end closed: it takes as many bytes as it finds,
   none when there are none, does not sleep, and leaves no writer asleep.
   */
  lemma {:induction false} WholeRead(s: State, p: int, n: int)
    requires Inv(s) && 0 <= p < |s.pc| && s.pc[p].Idle? && s.readopen && s.lock == NOBODY
    requires s.got != s.sent || !s.writeopen
    ensures var steps := [BeginRead(p, n), BeginCopy(p)] + (Takes(p, Finds(s, n)) + [EndRead(p)]);
            && Possible(s, steps) && |s.got| + Finds(s, n) <= |s.sent|
            && var t := After(s, steps);
               && Inv(t) && t.sent == s.sent && t.got == s.sent[..|s.got| + Finds(s, n)] && t.lock == NOBODY
               && |t.pc| == |s.pc| && t.pc[p].Idle? && (forall q :: 0 <= q < |t.pc| ==> !t.pc[q].WriteAsleep?)
               && t.readopen && t.writeopen == s.writeopen
  {
    hide Inv;
    var k := Finds(s, n);
    ReadBegins(s, p, n);
    var s2 := Do(Do(s, BeginRead(p, n)), BeginCopy(p));
    TakesRun(s2, p, k);
    var s3 := After(s2, Takes(p, k));
    ReadStops(s3, p);
    OneStep(s3, EndRead(p));
    hide Do, May;
    Join(s2, Takes(p, k), [EndRead(p)]);
    Join(s, [BeginRead(p, n), BeginCopy(p)], Takes(p, k) + [EndRead(p)]);
  }

  lemma {:induction false} ReadBegins(s: State, p: int, n: int)
    requires Inv(s) && 0 <= p < |s.pc| && s.pc[p].Idle? && s.readopen && s.lock == NOBODY
    requires s.got != s.sent || !s.writeopen
    ensures |s.got| <= |s.sent| && May(s, BeginRead(p, n)) && May(Do(s, BeginRead(p, n)), BeginCopy(p))
    ensures Possible(s, [BeginRead(p, n), BeginCopy(p)])
    ensures var t := Do(Do(s, BeginRead(p, n)), BeginCopy(p));
            && After(s, [BeginRead(p, n), BeginCopy(p)]) == t
            && Inv(t) && t == s.(pc := s.pc[p := Taking(n, 0)], lock := p)
  {
    Tests(s.ring, s.sent, s.got);
    DoInv(s, BeginRead(p, n));
    DoInv(Do(s, BeginRead(p, n)), BeginCopy(p));
    TwoSteps(s, BeginRead(p, n), BeginCopy(p));
    hide Inv;
  }

  lemma {:induction false} ReadStops(s: State, p: int)
    requires Inv(s) && 0 <= p < |s.pc| && s.pc[p].Taking? && (s.pc[p].i >= s.pc[p].n || |s.got| == |s.sent|)
    ensures May(s, EndRead(p)) && Inv(Do(s, EndRead(p)))
    ensures var t := Do(s, EndRead(p));
            && t.sent == s.sent && t.got == s.got && t.lock == NOBODY && |t.pc| == |s.pc| && t.pc[p].Idle?
            && t.readopen == s.readopen && t.writeopen == s.writeopen
            && forall q :: 0 <= q < |t.pc| ==> !t.pc[q].WriteAsleep?
  {
    Tests(s.ring, s.sent, s.got);
    DoInv(s, EndRead(p));
    hide Inv;
  }

  /** A write with the lock free that finds room: all its bytes go in, in order, and no reader is left asleep. */
  lemma {:induction false} WholeWrite(s: State, p: int, bytes: seq<Byte>)
    requires Inv(s) && 0 <= p < |s.pc| && s.pc[p].Idle? && s.writeopen && s.lock == NOBODY
    requires |s.sent| - |s.got| + |bytes| <= PIPESIZE
    ensures var steps := [BeginWrite(p, bytes)] + (Puts(p, |bytes|) + [EndWrite(p)]);
            && Possible(s, steps)
            && var t := After(s, steps);
               && Inv(t) && t.sent == s.sent + bytes && t.got == s.got && t.lock == NOBODY
               && |t.pc| == |s.pc| && t.pc[p].Idle? && (forall q :: 0 <= q < |t.pc| ==> !t.pc[q].ReadAsleep?)
  {
    hide Carries, Puts, Wrote;
    RingSize(s);
    var s1 := Do(s, BeginWrite(p, bytes));
    DoInv(s, BeginWrite(p, bytes));
    var s2 := Wrote(s1, p, |bytes|);
    PutsRun(s1, p, |bytes|, [EndWrite(p)]);
    WroteAll(s1, p, |bytes|);
    DoInv(s2, EndWrite(p));
    OneStep(s2, EndWrite(p));
    OneStep(s, BeginWrite(p, bytes));
    hide Inv;
    Join(s, [BeginWrite(p, bytes)], Puts(p, |bytes|) + [EndWrite(p)]);
  }

  lemma {:induction false} WroteAll(s: State, p: int, n: nat)
    requires 0 <= p < |s.pc| && |s.ring.data| == PIPESIZE
    requires s.pc[p].Putting? && 0 <= s.pc[p].i && s.pc[p].i + n <= |s.pc[p].bytes|
    ensures Wrote(s, p, n).sent == s.sent + s.pc[p].bytes[s.pc[p].i..s.pc[p].i + n]
    ensures |Wrote(s, p, n).ring.data| == PIPESIZE
    decreases n
  {
    if n > 0 {
      var b := s.pc[p].bytes[s.pc[p].i];
      var t := Goto(s, p, Putting(s.pc[p].bytes, s.pc[p].i + 1), p)
               .(ring := Put(s.ring, b), sent := s.sent + [b], due := true);
      WroteAll(t, p, n - 1);
    }
  }

  // -------------------------------------------------------------- closing

  /** The last close of the write end wakes all readers and changes nothing else. */
  lemma {:induction false} CloseWriteEnd(s: State, p: int)
    requires Inv(s) && 0 <= p < |s.pc| && s.lock == NOBODY && forall q :: 0 <= q < |s.pc| ==> !Writes(s.pc[q])
    ensures May(s, CloseWrite(p)) && Inv(Do(s, CloseWrite(p)))
    ensures var t := Do(s, CloseWrite(p));
            && !t.writeopen && t.readopen == s.readopen && t.lock == NOBODY && t.sent == s.sent && t.got == s.got
            && |t.pc| == |s.pc|
            && forall q :: 0 <= q < |s.pc| ==>
                 t.pc[q] == if s.pc[q].ReadAsleep? then ReadWoken(s.pc[q].n) else s.pc[q]
  {
    RingSize(s);
    DoInv(s, CloseWrite(p));
    hide Inv;
  }

  /** So does that of the read end with the writers. */
  lemma {:induction false} CloseReadEnd(s: State, p: int)
    requires Inv(s) && 0 <= p < |s.pc| && s.lock == NOBODY && forall q :: 0 <= q < |s.pc| ==> !Reads(s.pc[q])
    ensures May(s, CloseRead(p)) && Inv(Do(s, CloseRead(p)))
    ensures var t := Do(s, CloseRead(p));
            && !t.readopen && t.writeopen == s.writeopen && t.lock == NOBODY && t.sent == s.sent && t.got == s.got
            && |t.pc| == |s.pc|
            && forall q :: 0 <= q < |s.pc| ==>
                 t.pc[q] == if s.pc[q].WriteAsleep? then WriteWoken(s.pc[q].bytes, s.pc[q].i) else s.pc[q]
  {
    RingSize(s);
    DoInv(s, CloseRead(p));
    hide Inv;
  }

  lemma {:induction false} StepClosed(s: State, step: Step)
    requires Inv(s) && May(s, step)
    ensures Inv(Do(s, step))
    ensures !s.writeopen ==> !Do(s, step).writeopen && Do(s, step).sent == s.sent
    ensures !s.readopen ==> !Do(s, step).readopen && Do(s, step).got == s.got
  {
    DoInv(s, step);
    assert PcOk(s, step.p);
    hide Inv, Put, Drop, Full, Empty;
  }

  /** An end that is closed stays closed, and no byte goes through it again. */
  lemma {:induction false} StaysClosed(s: State, steps: seq<Step>)
    requires Inv(s) && Possible(s, steps)
    ensures Inv(After(s, steps))
    ensures !s.writeopen ==> !After(s, steps).writeopen && After(s, steps).sent == s.sent
    ensures !s.readopen ==> !After(s, steps).readopen && After(s, steps).got == s.got
    decreases |steps|
  {
    hide Do, May, Inv;
    if steps != [] {
      StepClosed(s, steps[0]);
      StaysClosed(Do(s, steps[0]), steps[1..]);
    }
  }

  /**
   After the last close of the write end, whatever happens next: every read gets bytes written before the close,
   as many as it asks for while they last, then none; and it never waits for more.
   */
  lemma {:induction false} EndOfFile(s: State, q: int, steps: seq<Step>, p: int, n: int)
    requires Inv(s) && May(s, CloseWrite(q)) && Possible(Do(s, CloseWrite(q)), steps)
    requires var t := After(Do(s, CloseWrite(q)), steps);
             0 <= p < |t.pc| && t.pc[p].Idle? && t.readopen && t.lock == NOBODY
    ensures var t := After(Do(s, CloseWrite(q)), steps);
            var read := [BeginRead(p, n), BeginCopy(p)] + (Takes(p, Finds(t, n)) + [EndRead(p)]);
            && t.sent == s.sent && |t.got| + Finds(t, n) <= |s.sent|
            && Possible(t, read) && After(t, read).got == s.sent[..|t.got| + Finds(t, n)]
            && forall r :: 0 <= r < |t.pc| ==> !May(t, SleepEmpty(r))
  {
    CloseWriteEnd(s, q);
    var c := Do(s, CloseWrite(q));
    hide Do, Inv, May;
    StaysClosed(c, steps);
    var t := After(c, steps);
    WholeRead(t, p, n);
    forall r | 0 <= r < |t.pc|
      ensures !May(t, SleepEmpty(r))
    {
      ReadsOn(t, r);
    }
  }

  lemma ReadsOn(s: State, r: int)
    requires !s.writeopen
    ensures !May(s, SleepEmpty(r))
  {
  }

  /**
   After the last close of the read end, whatever happens next: nothing is read any more, a writer does not wait
   for room, and one that meets a full pipe fails.
   */
  lemma {:induction false} BrokenPipe(s: State, q: int, steps: seq<Step>, p: int)
    requires Inv(s) && May(s, CloseRead(q)) && Possible(Do(s, CloseRead(q)), steps)
    requires var t := After(Do(s, CloseRead(q)), steps);
             0 <= p < |t.pc| && t.pc[p].Putting? && t.pc[p].i < |t.pc[p].bytes| && Full(t.ring)
    ensures var t := After(Do(s, CloseRead(q)), steps);
            t.got == s.got && May(t, AbortWrite(p, false)) && !May(t, SleepFull(p)) && !May(t, PutByte(p))
  {
    CloseReadEnd(s, q);
    var c := Do(s, CloseRead(q));
    StaysClosed(c, steps);
    RingSize(After(c, steps));
    hide Do, Inv, Possible, After;
  }

  // -------------------------------------------------------- sleep and kill

  /** A read that finds nothing, and a write that finds no room, go to sleep and leave the lock. */
  lemma {:induction false} MustSleep(s: State, p: int)
    requires Inv(s) && 0 <= p < |s.pc|
    ensures s.pc[p].Testing? && s.got == s.sent && s.writeopen ==>
              && May(s, SleepEmpty(p))
              && Do(s, SleepEmpty(p)) == s.(pc := s.pc[p := ReadAsleep(s.pc[p].n)], lock := NOBODY)
    ensures s.pc[p].Putting? && s.pc[p].i < |s.pc[p].bytes| && |s.sent| - |s.got| == PIPESIZE && s.readopen ==>
              && May(s, SleepFull(p))
              && var t := Do(s, SleepFull(p));
                 && |t.pc| == |s.pc| && t.pc[p] == WriteAsleep(s.pc[p].bytes, s.pc[p].i) && t.lock == NOBODY
                 && t.sent == s.sent && forall r :: 0 <= r < |t.pc| ==> !t.pc[r].ReadAsleep?
  {
    Tests(s.ring, s.sent, s.got);
  }

  /** A sleeper that is killed runs, takes the lock when it is free, and gives the call up if it would sleep again. */
  lemma {:induction false} KilledGivesUp(s: State, p: int)
    requires Inv(s) && 0 <= p < |s.pc| && s.lock == NOBODY && (s.pc[p].ReadAsleep? || s.pc[p].WriteAsleep?)
    ensures May(s, Signal(p))
    ensures var t := Do(s, Signal(p));
            if s.pc[p].ReadAsleep? then
              && May(t, ResumeRead(p))
              && (Empty(s.ring) && s.writeopen ==>
                   && May(Do(t, ResumeRead(p)), AbortRead(p))
                   && Do(Do(t, ResumeRead(p)), AbortRead(p)) == s.(pc := s.pc[p := Idle]))
            else
              && May(t, ResumeWrite(p))
              && (Full(s.ring) ==>
                   && May(Do(t, ResumeWrite(p)), AbortWrite(p, true))
                   && Do(Do(t, ResumeWrite(p)), AbortWrite(p, true)).sent == s.sent
                   && Do(Do(t, ResumeWrite(p)), AbortWrite(p, true)).pc == s.pc[p := Idle])
  {
    RingSize(s);
    assert PcOk(s, p);
    hide Inv;
  }
}
