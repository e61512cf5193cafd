/**
 The process-table code as it runs: loops over an array of entries. Each method does to the table
 what the corresponding step of ProcTable does.
 */
module ProcCode {
  import opened ProcTable
  import opened Accounting

  class Table {
    const ps: array<Proc>
    var ticks: int
    var nextpid: int

    ghost predicate Valid()
      reads this
    {
      ps.Length == NPROC
    }

    /** `allocproc` up to the release of ptable.lock; NPROC when no entry is free. */
    method AllocProc() returns (p: int)
      requires Valid()
      modifies ps, this`nextpid
      ensures p == FirstUnused(old(ps[..]), 0)
      ensures p == NPROC ==> ps[..] == old(ps[..]) && nextpid == old(nextpid)
      ensures p < NPROC ==>
                && nextpid == old(nextpid) + 1 && ps[..] == old(ps[..])[p := Born(old(ps[p]), old(nextpid), ticks)]
                && ps[p] == old(ps[p]).(state := EMBRYO, pid := old(nextpid), wtime := 0, rutime := 0, snap := ticks)
    {
      p := 0;
      while p < NPROC
        invariant 0 <= p <= NPROC && FirstUnused(ps[..], 0) == FirstUnused(ps[..], p)
      {
        if ps[p].state == UNUSED {
          ps[p] := ps[p].(state := EMBRYO, pid := nextpid, wtime := 0, rutime := 0, snap := ticks);
          nextpid := nextpid + 1;
          return;
        }
        p := p + 1;
      }
    }

    /** `wakeup1` */
    method Wakeup1(chan: Chan)
      requires Valid()
      modifies ps
      ensures ps[..] == Wakened(old(ps[..]), chan, ticks)
      ensures forall i :: 0 <= i < NPROC ==>
                ps[i] == if old(ps[i]).state == SLEEPING && old(ps[i]).chan == chan
                         then old(ps[i]).(state := RUNNABLE, snap := ticks) else old(ps[i])
    {
      ghost var was := ps[..];
      var p := 0;
      while p < NPROC
        invariant 0 <= p <= NPROC
        invariant forall i :: 0 <= i < NPROC ==> ps[i] == if i < p then WakeOne(was[i], chan, ticks) else was[i]
      {
        if ps[p].state == SLEEPING && ps[p].chan == chan {
          ps[p] := ps[p].(state := RUNNABLE, snap := ticks);
        }
        p := p + 1;
      }
    }

    /** `exit` under ptable.lock, up to the call of sched */
    method Exit(cur: int)
      requires Valid() && 0 <= cur < NPROC
      modifies ps
      ensures ps[..] == Exited(old(ps[..]), cur, ticks)
      ensures cur != INIT && old(ps[cur]).state != SLEEPING ==>
                var left := LeftZombie(old(ps[..]), cur, NPROC);
                forall i :: 0 <= i < NPROC ==> ExitOk(old(ps[i]), ps[i], i, cur, old(ps[cur]).parent, left, ticks)
    {
      hide ExitOk, LeftZombie;
      if cur != INIT && ps[cur].state != SLEEPING {
        ExitedAt(ps[..], cur, ticks);
      }
      Wakeup1(OfProc(ps[cur].parent));
      ghost var w := ps[..];
      var p := 0;
      while p < NPROC
        invariant 0 <= p <= NPROC && ps[..] == Orphaned(w, cur, p, ticks)
      {
        if ps[p].parent == cur {
          ghost var q := ps[..];
          ps[p] := ps[p].(parent := INIT);
          assert ps[..] == q[p := q[p].(parent := INIT)];
          if ps[p].state == ZOMBIE {
            Wakeup1(OfProc(INIT));
          }
        }
        p := p + 1;
      }
      ghost var q := ps[..];
      ps[cur] := ps[cur].(state := ZOMBIE, rutime := ps[cur].rutime + (ticks - ps[cur].snap));
      assert ps[..] == q[cur := Dead(q[cur], ticks)];
    }

    /** One round of `wait2`: a reaped child with its times, -1 to give up, or asleep. */
    method Wait2(cur: int) returns (pid: int, slept: bool, wtime: int, rutime: int)
      requires Valid() && 0 <= cur < NPROC
      modifies ps
      ensures ps[..] == Waited(old(ps[..]), cur, ticks)
      ensures var z := FirstZombie(old(ps[..]), cur, 0);
              if z < NPROC then !slept && pid == old(ps[z].pid) && wtime == old(ps[z].wtime)
                && rutime == old(ps[z].rutime)
              else pid == -1
      ensures slept <==> && FirstZombie(old(ps[..]), cur, 0) == NPROC && !old(ps[cur].killed)
                         && exists i :: 0 <= i < NPROC && old(ps[i]).parent == cur
      ensures var z := FirstZombie(old(ps[..]), cur, 0);
              forall i :: 0 <= i < NPROC && !slept ==>
                ps[i] == if i == z then Proc(UNUSED, 0, NONE, old(ps[i]).chan, false, 0, 0, old(ps[i]).snap)
                         else old(ps[i])
      ensures slept ==> ps[cur].state == SLEEPING && ps[cur].chan == OfProc(cur)
      ensures slept ==> forall i :: 0 <= i < NPROC && i != cur ==> ps[i] == old(ps[i])
    {
      ghost var was := ps[..];
      pid, slept, wtime, rutime := -1, false, 0, 0;
      var havekids := false;
      var p := 0;
      while p < NPROC
        invariant 0 <= p <= NPROC && ps[..] == was && !slept && pid == -1
        invariant FirstZombie(was, cur, 0) == FirstZombie(was, cur, p)
        invariant havekids <==> exists i :: 0 <= i < p && was[i].parent == cur
      {
        if ps[p].parent == cur {
          havekids := true;
          if ps[p].state == ZOMBIE {
            wtime, rutime, pid := ps[p].wtime, ps[p].rutime, ps[p].pid;
            ps[p] := ps[p].(state := UNUSED, pid := 0, parent := NONE, killed := false, wtime := 0, rutime := 0);
            assert ps[..] == was[p := Cleared(was[p])];
            return;
          }
        }
        p := p + 1;
      }
      if !havekids || ps[cur].killed {
        return;
      }
      ps[cur] := Asleep(ps[cur], OfProc(cur), ticks);
      assert ps[..] == was[cur := Asleep(was[cur], OfProc(cur), ticks)];
      slept := true;
    }

    /** `kill` */
    method Kill(pid: int) returns (r: int)
      requires Valid()
      modifies ps
      ensures var p := FirstPid(old(ps[..]), pid, 0);
              if p < NPROC then r == 0 && ps[..] == old(ps[..])[p := Killed(old(ps[p]), ticks)]
              else r == -1 && ps[..] == old(ps[..])
      ensures var p := FirstPid(old(ps[..]), pid, 0);
              p < NPROC ==>
                ps[p] == if old(ps[p]).state == SLEEPING
                         then old(ps[p]).(killed := true, state := RUNNABLE, snap := ticks)
                         else old(ps[p]).(killed := true)
    {
      var p := 0;
      while p < NPROC
        invariant 0 <= p <= NPROC && ps[..] == old(ps[..]) && FirstPid(ps[..], pid, 0) == FirstPid(ps[..], pid, p)
      {
        if ps[p].pid == pid {
          ps[p] := ps[p].(killed := true);
          if ps[p].state == SLEEPING {
            ps[p] := ps[p].(state := RUNNABLE, snap := ticks);
          }
          return 0;
        }
        p := p + 1;
      }
      r := -1;
    }

    /** Part 3's `updatestatistics`: what counting one tick does, with EMBRYO not counted. */
    method UpdateStatistics()
      requires Valid()
      modifies ps
      ensures forall i :: 0 <= i < NPROC ==>
                var x := old(ps[i]);
                var c := Counted(Count(x.wtime, 0, x.rutime, 0, 0), x.state, 1);
                ps[i] == x.(wtime := c.ready, rutime := c.run)
    {
      var p := 0;
      while p < NPROC
        invariant 0 <= p <= NPROC && forall i :: p <= i < NPROC ==> ps[i] == old(ps[i])
        invariant forall i :: 0 <= i < p ==>
                    var x := old(ps[i]);
                    var c := Counted(Count(x.wtime, 0, x.rutime, 0, 0), x.state, 1);
                    ps[i] == x.(wtime := c.ready, rutime := c.run)
      {
        match ps[p].state {
          case RUNNABLE => ps[p] := ps[p].(wtime := ps[p].wtime + 1);
          case RUNNING => ps[p] := ps[p].(rutime := ps[p].rutime + 1);
          case _ =>
        }
        p := p + 1;
      }
    }
  }
}
