/**
 Log space: what the reservation in `begin_op` guarantees, exactly when `log_write` can panic, and
 exactly when its unlocked test lets the log outgrow its area. An operation promises to stay within
 MAXOPBLOCKS, counting either all its calls of `log_write` or only those that add a header entry.
 */
module LogSpace {
  import opened RedoLog
  import opened LogMachine

  datatype Count = Calls | Entries

  function Used(c: Count, op: Op): nat {
    match c
    case Calls => op.calls
    case Entries => op.added
  }

  /** The step is part of a call that counts. */
  predicate Counts(c: Count, s: State, step: Step) {
    match step
    case LogTest(_) => c.Calls?
    case LogWrite(b) => c.Calls? || b !in s.lh
    case _ => false
  }

  /** The step keeps the promise of the operation that takes it. */
  predicate Within(c: Count, s: State, step: Step) {
    Counts(c, s, step) && step.b in s.cache && s.cache[step.b].user.Writer? ==>
      forall i :: 0 <= i < |s.ops| && s.ops[i].id == s.cache[step.b].user.op ==> Used(c, s.ops[i]) < MAXOPBLOCKS
  }

  /** The run is possible and keeps the promise at every step. */
  ghost predicate Keeps(c: Count, s: State, steps: seq<Step>)
    requires Inv(s)
    decreases |steps|
  {
    steps != [] ==>
      && Within(c, s, steps[0]) && Do(s, steps[0]).Some?
      && (DoInv(s, steps[0]); Keeps(c, Do(s, steps[0]).value, steps[1..]))
  }

  /** What the outstanding operations have not yet used of their MAXOPBLOCKS each. */
  function Unused(c: Count, ops: seq<Op>): int {
    if ops == [] then 0 else MAXOPBLOCKS - Used(c, ops[0]) + Unused(c, ops[1..])
  }

  /** The reservation: header entries in use and unused budgets together fit the log. */
  ghost predicate Reserved(c: Count, s: State) {
    && (forall i :: 0 <= i < |s.ops| ==> Used(c, s.ops[i]) <= MAXOPBLOCKS)
    && |s.lh| + Unused(c, s.ops) <= LOGSIZE
  }

  // ------------------------------------------------ sums over operations

  lemma {:induction false} UnusedConcat(c: Count, xs: seq<Op>, ys: seq<Op>)
    ensures Unused(c, xs + ys) == Unused(c, xs) + Unused(c, ys)
  {
    if xs == [] {
      assert xs + ys == ys;
    } else {
      assert (xs + ys)[1..] == xs[1..] + ys;
      UnusedConcat(c, xs[1..], ys);
    }
  }

  lemma UnusedAt(c: Count, ops: seq<Op>, i: nat)
    requires i < |ops|
    ensures Unused(c, ops) == Unused(c, ops[..i]) + (MAXOPBLOCKS - Used(c, ops[i])) + Unused(c, ops[i + 1..])
  {
    assert ops == ops[..i] + ops[i..];
    UnusedConcat(c, ops[..i], ops[i..]);
    assert ops[i..][1..] == ops[i + 1..];
  }

  lemma {:induction false} UnusedBounds(c: Count, ops: seq<Op>)
    ensures Unused(c, ops) <= MAXOPBLOCKS * |ops|
    ensures (forall i :: 0 <= i < |ops| ==> Used(c, ops[i]) <= MAXOPBLOCKS) ==> Unused(c, ops) >= 0
  {
    if ops != [] {
      UnusedBounds(c, ops[1..]);
    }
  }

  predicate DistinctOps(ops: seq<Op>) {
    forall j, k :: 0 <= j < k < |ops| ==> ops[j].id != ops[k].id
  }

  /** Charging the i-th operation, the only one with its id. */
  lemma UnusedCharge(c: Count, ops: seq<Op>, i: nat, added: nat)
    requires i < |ops| && DistinctOps(ops)
    ensures Charge(ops, ops[i].id, added) ==
            ops[i := Op(ops[i].id, ops[i].calls + 1, ops[i].added + added, None)]
    ensures Unused(c, Charge(ops, ops[i].id, added)) == Unused(c, ops) - if c.Calls? then 1 else added
  {
    var cs := Charge(ops, ops[i].id, added);
    UnusedAt(c, ops, i);
    UnusedAt(c, cs, i);
    assert cs[..i] == ops[..i] && cs[i + 1..] == ops[i + 1..];
  }

  lemma EnterAt(ops: seq<Op>, i: nat, b: nat)
    requires i < |ops| && DistinctOps(ops)
    ensures Enter(ops, ops[i].id, b) == ops[i := ops[i].(pending := Some(b))]
  {
  }

  /** Passing the test uses nothing up. */
  lemma {:induction false} UnusedEnter(c: Count, ops: seq<Op>, id: nat, b: nat)
    ensures Unused(c, Enter(ops, id, b)) == Unused(c, ops)
  {
    if ops != [] {
      UnusedEnter(c, ops[1..], id, b);
      assert Enter(ops, id, b)[1..] == Enter(ops[1..], id, b);
    }
  }

  // ----------------------------------------------------------- reservation

  lemma ReservedStep(c: Count, s: State, step: Step)
    requires Inv(s) && Do(s, step).Some? && Within(c, s, step) && Reserved(c, s)
    ensures Reserved(c, Do(s, step).value)
  {
    hide DiskInv, TraceInv, HeaderInv, HomeInv, OpsInv, CacheInv, Loggable, TraceShape, Mounted, Within;
    match step
    case Begin =>
      UnusedConcat(c, s.ops, [Op(s.nextId, 0, 0, None)]);
      UnusedBounds(c, s.ops);
    case LogTest(b) => UnusedEnter(c, s.ops, s.cache[b].user.op, b);
    case LogWrite(b) =>
      WriterIsOpen(s, b);
      ReservedLogWrite(c, s, b);
    case End(i) => ReservedEnd(c, s, i);
    case _ =>
  }

  lemma WriterIsOpen(s: State, b: nat)
    requires Inv(s) && LogWriteBuf(s, b).Some?
    ensures OpsInv(s.ops, s.nextId) && Open(s.ops, s.cache[b].user.op)
  {
    hide DiskInv, TraceInv, HeaderInv, HomeInv, Loggable, TraceShape, Mounted;
    assert BufInv(b, s.cache[b], s.ops, s.lh, s.phase, Now(s));
  }

  lemma ReservedLogWrite(c: Count, s: State, b: nat)
    requires OpsInv(s.ops, s.nextId) && LogWriteBuf(s, b).Some? && Within(c, s, LogWrite(b)) && Reserved(c, s)
    requires Open(s.ops, s.cache[b].user.op)
    ensures Reserved(c, LogWriteBuf(s, b).value)
  {
    var i :| 0 <= i < |s.ops| && s.ops[i].id == s.cache[b].user.op;
    UnusedCharge(c, s.ops, i, if b in s.lh then 0 else 1);
  }

  lemma ReservedEnd(c: Count, s: State, i: nat)
    requires EndOp(s, i).Some? && Reserved(c, s)
    ensures Reserved(c, EndOp(s, i).value)
  {
    UnusedAt(c, s.ops, i);
    UnusedConcat(c, s.ops[..i], s.ops[i + 1..]);
  }

  /**
   If no operation exceeds its promise, header entries plus unused budgets never exceed LOGSIZE;
   so the header index stays in range and every operation can still use its whole budget.
   */
  lemma {:induction false} Reservation(c: Count, s: State, steps: seq<Step>)
    requires Inv(s) && Reserved(c, s) && Keeps(c, s, steps)
    ensures Run(s, steps).Some? && Reserved(c, Run(s, steps).value)
    ensures |Run(s, steps).value.lh| <= LOGSIZE
    decreases |steps|
  {
    if steps != [] {
      DoInv(s, steps[0]);
      ReservedStep(c, s, steps[0]);
      Reservation(c, Do(s, steps[0]).value, steps[1..]);
    } else {
      UnusedBounds(c, s.ops);
    }
  }

  // ------------------------------------------------ the panic, the overrun

  /** An operation within its promise finds room in the header. */
  lemma RoomLeft(c: Count, s: State, step: Step)
    requires Inv(s) && Reserved(c, s) && Within(c, s, step) && Counts(c, s, step)
    requires step.b in s.cache && s.cache[step.b].user.Writer? && s.phase.Running?
    ensures |s.lh| < LOGSIZE
  {
    hide DiskInv, TraceInv, HeaderInv, HomeInv, Loggable, TraceShape, Mounted;
    var op := s.cache[step.b].user.op;
    assert BufInv(step.b, s.cache[step.b], s.ops, s.lh, s.phase, Now(s));
    var i :| 0 <= i < |s.ops| && s.ops[i].id == op;
    UnusedAt(c, s.ops, i);
    UnusedBounds(c, s.ops[..i]);
    UnusedBounds(c, s.ops[i + 1..]);
  }

  /** With calls counted and a log area larger than LOGSIZE, no call meets the panic. */
  lemma {:induction false} NoPanic(s: State, steps: seq<Step>)
    requires Inv(s) && Reserved(Calls, s) && Keeps(Calls, s, steps)
    requires s.area.size > LOGSIZE && !s.phase.Panicked?
    ensures Run(s, steps).Some? && !Run(s, steps).value.phase.Panicked?
    decreases |steps|
  {
    hide DiskInv, TraceInv, HeaderInv, HomeInv, CacheInv, OpsInv, Loggable, TraceShape, Mounted;
    if steps != [] {
      DoInv(s, steps[0]);
      Durability(s, steps[0]);
      ReservedStep(Calls, s, steps[0]);
      if steps[0].LogTest? {
        RoomLeft(Calls, s, steps[0]);
      }
      NoPanic(Do(s, steps[0]).value, steps[1..]);
    }
  }

  /** Whatever is counted, the log then never outgrows its area either. */
  lemma {:induction false} NoOverrun(c: Count, s: State, steps: seq<Step>)
    requires Inv(s) && Reserved(c, s) && Keeps(c, s, steps)
    requires s.area.size > LOGSIZE && !s.phase.Overrun?
    ensures Run(s, steps).Some? && !Run(s, steps).value.phase.Overrun?
    decreases |steps|
  {
    hide DiskInv, TraceInv, HeaderInv, HomeInv, CacheInv, OpsInv, Loggable, TraceShape, Mounted;
    if steps != [] {
      DoInv(s, steps[0]);
      Durability(s, steps[0]);
      ReservedStep(c, s, steps[0]);
      if steps[0].LogWrite? && steps[0].b !in s.lh {
        RoomLeft(c, s, steps[0]);
      }
      NoOverrun(c, Do(s, steps[0]).value, steps[1..]);
    }
  }

  /** No operation is between the two halves of `log_write`. */
  predicate NonePending(s: State) {
    forall i :: 0 <= i < |s.ops| ==> s.ops[i].pending == None
  }

  lemma NoCallPassesStep(s: State, step: Step)
    requires Shape(s) && s.area.size <= 1 && NonePending(s) && !s.phase.Overrun? && Do(s, step).Some?
    ensures NonePending(Do(s, step).value) && !Do(s, step).value.phase.Overrun?
  {
    hide Shape, NextWrite, RecoverWrite;
  }

  /** A log area of one block lets no call past its test. */
  lemma {:induction false} NoCallPasses(s: State, steps: seq<Step>)
    requires Inv(s) && s.area.size <= 1 && NonePending(s) && !s.phase.Overrun? && Run(s, steps).Some?
    ensures !Run(s, steps).value.phase.Overrun?
    decreases |steps|
  {
    hide DiskInv, TraceInv, HeaderInv, HomeInv, CacheInv, OpsInv, Loggable, TraceShape, Mounted, Do, NonePending;
    if steps != [] {
      DoInv(s, steps[0]);
      Durability(s, steps[0]);
      NoCallPassesStep(s, steps[0]);
      NoCallPasses(Do(s, steps[0]).value, steps[1..]);
    }
  }

  /**
   Group commit for operations that keep their promise, on a log area larger than LOGSIZE: the log
   never outgrows its area, and the disk always means whole committed operations.
   */
  lemma GroupCommitKept(c: Count, s0: State, steps: seq<Step>)
    requires Boot(s0) && Inv(s0) && Keeps(c, s0, steps) && s0.area.size > LOGSIZE
    ensures Run(s0, steps).Some?
    ensures var s := Run(s0, steps).value;
            && !s.phase.Overrun? && Shape(s) && |s.lh| <= LOGSIZE && s.origin == s0.disk && Intact(s.disk, s.area)
            && SameHome(View(s.disk, s.area), Replay(s.origin, s.trace[..s.durable]), s.area)
            && WholeOperations(s) && (s.phase.Committing? ==> s.ops == [])
            && (s.phase.Running? && s.ops == [] ==>
                  s.durable == |s.trace| && SameHome(s.disk, Replay(s.origin, s.trace), s.area))
  {
    hide DiskInv, TraceInv, HeaderInv, HomeInv, CacheInv, OpsInv, Loggable, TraceShape, Mounted, WholeOperations;
    NoOverrun(c, s0, steps);
    Reservation(c, s0, steps);
    GroupCommit(s0, steps);
  }

  // ------------------------------------------------------------ few buffers

  const NBUF: nat := 3 * MAXOPBLOCKS

  /** Buffers that some process has locked. */
  ghost function InUse(s: State): set<nat> { set b | b in s.cache && s.cache[b].user != Nobody }

  /** A call of `bread` with fewer than u buffers in use finds the block, or one of the NBUF buffers for it. */
  ghost predicate Found(u: nat, s: State, step: Step) {
    step.Bread? ==> |InUse(s)| < u && (step.b in s.cache || |s.cache| < NBUF)
  }

  /** All calls of `bread` in the run do. */
  ghost predicate Frugal(u: nat, s: State, steps: seq<Step>)
    requires Inv(s)
    decreases |steps|
  {
    steps != [] ==>
      && Found(u, s, steps[0]) && Do(s, steps[0]).Some?
      && (DoInv(s, steps[0]); Frugal(u, Do(s, steps[0]).value, steps[1..]))
  }

  lemma {:induction false} ExtendFrugal(u: nat, s0: State, steps: seq<Step>, s: State, step: Step)
    requires Inv(s0) && Frugal(u, s0, steps) && Run(s0, steps) == Some(s)
    requires Inv(s) && Found(u, s, step) && Do(s, step).Some?
    ensures Frugal(u, s0, steps + [step])
    decreases |steps|
  {
    hide Shape, DiskInv, OpsInv, TraceInv, HeaderInv, CacheInv, HomeInv, Found, Do;
    DoInv(s, step);
    if steps == [] {
      assert steps + [step] == [step] && [step][1..] == [];
      assert Frugal(u, Do(s, step).value, []);
    } else {
      DoInv(s0, steps[0]);
      assert (steps + [step])[1..] == steps[1..] + [step];
      ExtendFrugal(u, Do(s0, steps[0]).value, steps[1..], s, step);
    }
  }

  // -------------------------------------------------- a run that panics

  /** `s` is reached from `s0` by a run that keeps the promise. */
  ghost predicate Reached(c: Count, s0: State, steps: seq<Step>, s: State)
    requires Inv(s0)
  {
    Keeps(c, s0, steps) && Run(s0, steps) == Some(s)
  }

  lemma {:induction false} Extend(c: Count, s0: State, steps: seq<Step>, s: State, step: Step)
    requires Inv(s0) && Reached(c, s0, steps, s) && Inv(s) && Within(c, s, step) && Do(s, step).Some?
    ensures Reached(c, s0, steps + [step], Do(s, step).value)
    ensures Frugal(1, s0, steps) && Found(1, s, step) ==> Frugal(1, s0, steps + [step])
    decreases |steps|
  {
    hide DiskInv, OpsInv, TraceInv, HeaderInv, CacheInv, HomeInv, Loggable, TraceShape, Within, Frugal, Found;
    if Frugal(1, s0, steps) && Found(1, s, step) {
      ExtendFrugal(1, s0, steps, s, step);
    }
    DoInv(s, step);
    if steps == [] {
      assert steps + [step] == [step] && [step][1..] == [];
      assert Run(s, [step]) == Run(Do(s, step).value, [step][1..]);
      assert Keeps(c, Do(s, step).value, []);
      assert Keeps(c, s, [step]);
    } else {
      DoInv(s0, steps[0]);
      assert (steps + [step])[1..] == steps[1..] + [step];
      var s1 := Do(s0, steps[0]).value;
      assert Reached(c, s1, steps[1..], s);
      Extend(c, s1, steps[1..], s, step);
      assert Run(s0, steps + [step]) == Run(s1, (steps + [step])[1..]);
      assert Keeps(c, s0, steps + [step]);
    }
  }

  /** No buffer is in use, and not all are taken. */
  ghost predicate Vacant(s: State) { InUse(s) == {} && |s.cache| < NBUF }

  /** Of m calls that three operations take in turn, the share of the i-th. */
  function Share(m: nat, i: nat): nat
    requires i < 3
  {
    (m + 2 - i) / 3
  }

  /** The block behind the log area, and the one after it. */
  function First(a: Area): nat { a.start + a.size }

  function Base(a: Area): nat { First(a) + 1 }

  /** Three operations have logged m different blocks in turn, and nobody holds a buffer. */
  ghost predicate Filled(s: State, m: nat) {
    && s.phase == Running && |s.lh| == m
    && |s.ops| == 3 && (forall i {:trigger s.ops[i]} :: 0 <= i < 3 ==>
          s.ops[i].calls == Share(m, i) && s.ops[i].added == Share(m, i) && s.ops[i].pending == None)
    && (forall b :: b in s.lh ==> First(s.area) < b < Base(s.area) + m)
    && (forall b :: b in s.cache ==> b in s.lh && s.cache[b].user == Nobody)
  }

  /** Nothing has been committed since t. */
  predicate SameDisk(s: State, t: State) { s.area == t.area && s.disk == t.disk && s.durable == t.durable }

  /** Blocks enough for a full log outside the log area. */
  predicate Room(s: State) { First(s.area) + LOGSIZE < |s.disk| }

  lemma Opened(c: Count, s0: State) returns (steps: seq<Step>, s: State)
    requires Boot(s0) && Inv(s0) && Room(s0)
    ensures Inv(s) && Reached(c, s0, steps, s) && Filled(s, 0) && SameDisk(s, s0) && Room(s)
    ensures Frugal(1, s0, steps)
  {
    hide DiskInv, OpsInv, TraceInv, HeaderInv, CacheInv, HomeInv, Loggable, TraceShape;
    steps, s := [], s0;
    for n := 0 to 3
      invariant Inv(s) && Reached(c, s0, steps, s) && SameDisk(s, s0) && Room(s)
      invariant Frugal(1, s0, steps)
      invariant s.phase == Running && s.lh == [] && s.cache == map[] && |s.ops| == n
      invariant forall i :: 0 <= i < n ==> s.ops[i].calls == 0 && s.ops[i].added == 0 && s.ops[i].pending == None
    {
      Extend(c, s0, steps, s, Begin);
      DoInv(s, Begin);
      steps, s := steps + [Begin], Do(s, Begin).value;
    }
  }

  lemma DistinctIds(s: State)
    requires Inv(s)
    ensures DistinctOps(s.ops)
  {
  }

  /** The state after the i-th operation has read block b, changed it and called `log_write` up to its test. */
  function Tested(s: State, b: nat, i: nat, data: Block): State
    requires b < |s.disk| && i < |s.ops|
  {
    s.(cache := s.cache[b := Buf(data, BreadBuf(s, b).dirty, Writer(s.ops[i].id, true))],
       ops := s.ops[i := s.ops[i].(pending := Some(b))])
  }

  /** The state after the i-th operation has read block b and changed it. */
  function Changed(s: State, b: nat, i: nat, data: Block): State
    requires b < |s.disk| && i < |s.ops|
  {
    s.(cache := s.cache[b := Buf(data, BreadBuf(s, b).dirty, Writer(s.ops[i].id, true))])
  }

  /** An operation reads a block that nobody holds and changes it. */
  lemma ReadOne(c: Count, s0: State, steps: seq<Step>, s: State, b: nat, i: nat, data: Block)
    returns (steps': seq<Step>, s': State)
    requires Inv(s0) && Inv(s) && Reached(c, s0, steps, s)
    requires s.phase == Running && b < |s.disk| && !s.area.Holds(b) && i < |s.ops| && s.ops[i].pending == None
    requires b in s.cache ==> s.cache[b].user == Nobody
    ensures Inv(s') && Reached(c, s0, steps', s') && s' == Changed(s, b, i, data)
    ensures Frugal(1, s0, steps) && Vacant(s) ==> Frugal(1, s0, steps')
  {
    hide DiskInv, TraceInv, HeaderInv, CacheInv, HomeInv, Loggable, TraceShape, Reached, Frugal, InUse;
    DistinctIds(s);
    assert Open(s.ops, s.ops[i].id);
    var read := Bread(b, Writer(s.ops[i].id, false));
    Extend(c, s0, steps, s, read);
    DoInv(s, read);
    var t := Do(s, read).value;
    Extend(c, s0, steps + [read], t, Modify(b, data));
    DoInv(t, Modify(b, data));
    steps', s' := steps + [read] + [Modify(b, data)], Do(t, Modify(b, data)).value;
  }

  /** An operation reads a block that nobody holds, changes it and calls `log_write`, with calls to spare. */
  lemma PassOne(c: Count, s0: State, steps: seq<Step>, s: State, b: nat, i: nat, data: Block)
    returns (steps': seq<Step>, s': State)
    requires Inv(s0) && Inv(s) && Reached(c, s0, steps, s)
    requires s.phase == Running && b < |s.disk| && !s.area.Holds(b) && i < |s.ops| && s.ops[i].pending == None
    requires b in s.cache ==> s.cache[b].user == Nobody
    requires c.Calls? ==> s.ops[i].calls < MAXOPBLOCKS
    ensures Inv(s') && Reached(c, s0, steps', s')
    ensures if LogFull(s) then s'.phase.Panicked? else s' == Tested(s, b, i, data)
    ensures Frugal(1, s0, steps) && Vacant(s) ==> Frugal(1, s0, steps')
  {
    hide DiskInv, TraceInv, HeaderInv, CacheInv, HomeInv, Loggable, TraceShape, Reached, Frugal, Vacant;
    DistinctIds(s);
    var t: State;
    steps', t := ReadOne(c, s0, steps, s, b, i, data);
    Extend(c, s0, steps', t, LogTest(b));
    DoInv(t, LogTest(b));
    EnterAt(s.ops, i, b);
    steps', s' := steps' + [LogTest(b)], Do(t, LogTest(b)).value;
  }

  /** The state after it has logged block b, which is new to the log. */
  function Logged(s: State, b: nat, i: nat): State
    requires b in s.cache && s.cache[b].user.Writer? && i < |s.ops|
  {
    var op, buf := s.ops[i], s.cache[b];
    s.(lh := s.lh + [b], cache := s.cache[b := buf.(dirty := true, user := buf.user.(unlogged := false))],
       trace := s.trace + [Entry(buf.user.op, b, buf.data)],
       ops := s.ops[i := Op(op.id, op.calls + 1, op.added + 1, None)])
  }

  lemma WriteIs(c: Count, s: State, b: nat, i: nat)
    requires DistinctOps(s.ops) && s.phase == Running
    requires i < |s.ops| && s.ops[i].pending == Some(b) && Used(c, s.ops[i]) < MAXOPBLOCKS
    requires b in s.cache && s.cache[b].user == Writer(s.ops[i].id, true) && b !in s.lh
    ensures Within(c, s, LogWrite(b))
    ensures LogWriteBuf(s, b) == Some(if LogFull(s) then s.(phase := Overrun(b)) else Logged(s, b, i))
  {
    assert Passed(s.ops, s.ops[i].id, b);
    UnusedCharge(c, s.ops, i, 1);
  }

  /** Under the lock, the operation appends its new block or overruns the log. */
  lemma AppendOne(c: Count, s0: State, steps: seq<Step>, s: State, b: nat, i: nat)
    returns (steps': seq<Step>, s': State)
    requires Inv(s0) && Inv(s) && Reached(c, s0, steps, s) && s.phase == Running
    requires i < |s.ops| && s.ops[i].pending == Some(b) && Used(c, s.ops[i]) < MAXOPBLOCKS
    requires b in s.cache && s.cache[b].user == Writer(s.ops[i].id, true) && b !in s.lh
    ensures Inv(s') && Reached(c, s0, steps', s')
    ensures s' == if LogFull(s) then s.(phase := Overrun(b)) else Logged(s, b, i)
    ensures Frugal(1, s0, steps) ==> Frugal(1, s0, steps')
  {
    hide DiskInv, TraceInv, HeaderInv, CacheInv, HomeInv, OpsInv, Loggable, TraceShape, Reached, Frugal, Vacant;
    DistinctIds(s);
    WriteIs(c, s, b, i);
    hide LogWriteBuf, Within, Logged;
    Extend(c, s0, steps, s, LogWrite(b));
    DoInv(s, LogWrite(b));
    steps', s' := steps + [LogWrite(b)], Do(s, LogWrite(b)).value;
  }

  /** The next operation in turn reads, logs and releases the next block. */
  lemma LogOne(c: Count, s0: State, steps: seq<Step>, s: State) returns (steps': seq<Step>, s': State)
    requires Inv(s0) && Inv(s) && Reached(c, s0, steps, s) && Room(s)
    requires Filled(s, |s.lh|) && !LogFull(s)
    ensures Inv(s') && Reached(c, s0, steps', s') && SameDisk(s', s) && Room(s') && |s'.lh| == |s.lh| + 1
    ensures Filled(s', |s'.lh|) && (Frugal(1, s0, steps) ==> Frugal(1, s0, steps'))
  {
    hide DiskInv, OpsInv, TraceInv, HeaderInv, CacheInv, HomeInv, Loggable, TraceShape, Reached, Frugal, Vacant;
    var b, i := Base(s.area) + |s.lh|, |s.lh| % 3;
    TurnHasRoom(c, s, b, i);
    FilledVacant(s);
    var t, u: State;
    steps', t := PassOne(c, s0, steps, s, b, i, []);
    steps', u := AppendOne(c, s0, steps', t, b, i);
    FilledNext(s, b, i);
    hide Filled, Tested, Logged;
    Extend(c, s0, steps', u, Brelse(b));
    DoInv(u, Brelse(b));
    steps', s' := steps' + [Brelse(b)], Do(u, Brelse(b)).value;
  }

  /** The operation whose turn it is has calls left, and the next block is new. */
  lemma TurnHasRoom(c: Count, s: State, b: nat, i: nat)
    requires Filled(s, |s.lh|) && |s.lh| < LOGSIZE && Room(s) && b == Base(s.area) + |s.lh| && i == |s.lh| % 3
    ensures b < |s.disk| && !s.area.Holds(b) && b !in s.cache && b !in s.lh
    ensures s.ops[i].pending == None && s.ops[i].calls < MAXOPBLOCKS && Used(c, s.ops[i]) < MAXOPBLOCKS
  {
  }

  lemma FilledVacant(s: State)
    requires Inv(s) && Filled(s, |s.lh|) && |s.lh| < NBUF
    ensures Vacant(s)
  {
    hide DiskInv, OpsInv, TraceInv, HeaderInv, CacheInv, HomeInv, TraceShape;
    forall b
      ensures b !in InUse(s)
    {
    }
    AtMost(s.lh, s.cache.Keys);
    assert |s.cache| == |s.cache.Keys|;
  }

  lemma {:induction false} AtMost(bs: seq<nat>, a: set<nat>)
    requires forall b :: b in a ==> b in bs
    ensures |a| <= |bs|
  {
    if bs == [] {
      forall b
        ensures b !in a
      {
      }
      assert a == {};
    } else {
      var n := |bs| - 1;
      forall b | b in a - {bs[n]}
        ensures b in bs[..n]
      {
      }
      AtMost(bs[..n], a - {bs[n]});
    }
  }

  lemma FilledNext(s: State, b: nat, i: nat)
    requires Filled(s, |s.lh|) && b < |s.disk| && b == Base(s.area) + |s.lh| && i == |s.lh| % 3
    ensures var u := Logged(Tested(s, b, i, []), b, i);
            && u.phase == Running && u.area == s.area && |u.disk| == |s.disk| && |u.lh| == |s.lh| + 1
            && b in u.cache && u.cache[b].user == Writer(s.ops[i].id, false) && Quiet(u.ops, s.ops[i].id)
            && Filled(u.(cache := u.cache[b := u.cache[b].(user := Nobody)]), |u.lh|)
  {
  }

  /** A run that logs m different blocks. */
  lemma FillTo(c: Count, s0: State, m: nat) returns (steps: seq<Step>, s: State)
    requires Boot(s0) && Inv(s0) && Room(s0) && m <= LOGSIZE && m <= s0.area.size - 1
    ensures Inv(s) && Reached(c, s0, steps, s) && SameDisk(s, s0) && Room(s) && Filled(s, m)
    ensures Frugal(1, s0, steps)
  {
    hide DiskInv, OpsInv, TraceInv, HeaderInv, CacheInv, HomeInv, Loggable, TraceShape, Reached, Frugal, Vacant;
    steps, s := Opened(c, s0);
    while |s.lh| < m
      invariant Inv(s) && Reached(c, s0, steps, s) && SameDisk(s, s0) && Room(s)
      invariant Filled(s, |s.lh|) && |s.lh| <= m && Frugal(1, s0, steps)
      decreases m - |s.lh|
    {
      steps, s := LogOne(c, s0, steps, s);
    }
  }

  /** A run of promise-keeping operations into the panic. */
  lemma PanicRun(c: Count, s0: State) returns (steps: seq<Step>, s: State)
    requires Boot(s0) && Inv(s0) && Room(s0) && (c.Entries? || s0.area.size <= LOGSIZE)
    ensures Inv(s) && Reached(c, s0, steps, s) && s.phase.Panicked?
  {
    hide DiskInv, OpsInv, TraceInv, HeaderInv, HomeInv, TraceShape, Reached;
    var m := if s0.area.size <= LOGSIZE then s0.area.size - 1 else LOGSIZE;
    steps, s := FillTo(c, s0, m);
    if m < LOGSIZE {
      steps, s := PassOne(c, s0, steps, s, Base(s.area) + m, m % 3, []);
    } else {
      assert Pending(s.lh, s.phase, s.lh[0]);
      steps, s := PassOne(c, s0, steps, s, s.lh[0], 0, []);
    }
  }

  /** A run of promise-keeping operations that ends in the panic. */
  ghost predicate Panics(c: Count, s0: State, steps: seq<Step>)
    requires Inv(s0)
  {
    Keeps(c, s0, steps) && Run(s0, steps).Some? && Run(s0, steps).value.phase.Panicked?
  }

  /**
   Exactly when operations that keep their promise can still run into the panic of `log_write`:
   counting entries, always, because a full log refuses even a block that it already holds;
   counting calls, when the log area has no more than LOGSIZE blocks (mkfs makes it LOGSIZE).
   */
  lemma PanicExactly(c: Count, s0: State)
    requires Boot(s0) && Inv(s0) && Room(s0)
    ensures (exists steps :: Panics(c, s0, steps)) <==> c.Entries? || s0.area.size <= LOGSIZE
  {
    hide DiskInv, OpsInv, TraceInv, HeaderInv, CacheInv, HomeInv, Loggable, TraceShape;
    if c.Entries? || s0.area.size <= LOGSIZE {
      var steps, s := PanicRun(c, s0);
      assert Panics(c, s0, steps);
    } else {
      forall steps | Keeps(c, s0, steps) ensures !Panics(c, s0, steps) {
        NoPanic(s0, steps);
      }
    }
  }

  /** Two operations have passed the test for new blocks while there is room for one entry. */
  ghost predicate BothPassed(c: Count, s: State, b: nat, data: Block) {
    && s.phase == Running && |s.lh| == s.area.size - 2 && |s.lh| + 2 <= LOGSIZE && |s.ops| == 3
    && s.ops[1].pending == Some(b) && s.ops[2].pending == Some(b + 1)
    && Used(c, s.ops[1]) < MAXOPBLOCKS && Used(c, s.ops[2]) < MAXOPBLOCKS
    && b in s.cache && b + 1 in s.cache && b !in s.lh && b + 1 !in s.lh
    && s.cache[b].user == Writer(s.ops[1].id, true) && s.cache[b + 1].user == Writer(s.ops[2].id, true)
    && s.cache[b + 1].data == data && First(s.area) < b && b + 1 < |s.disk|
    && (forall x :: x in s.lh ==> x > First(s.area))
  }

  lemma BothPass(c: Count, s0: State, data: Block) returns (steps: seq<Step>, s: State, b: nat)
    requires Boot(s0) && Inv(s0) && Room(s0) && 2 <= s0.area.size <= LOGSIZE
    ensures Inv(s) && Reached(c, s0, steps, s) && SameDisk(s, s0) && Room(s) && BothPassed(c, s, b, data)
  {
    hide DiskInv, OpsInv, TraceInv, HeaderInv, CacheInv, HomeInv, Loggable, TraceShape, Reached, Frugal, Vacant;
    var t, u: State;
    steps, t := FillTo(c, s0, s0.area.size - 2);
    b := Base(t.area) + |t.lh|;
    TwoHaveRoom(c, t, b);
    TwoPassed(c, t, b, data);
    steps, u := PassOne(c, s0, steps, t, b, 1, []);
    steps, s := PassOne(c, s0, steps, u, b + 1, 2, data);
  }

  /** Both append: the second entry, with these data, does not fit. */
  lemma OverrunRun(c: Count, s0: State, data: Block) returns (steps: seq<Step>, s: State)
    requires Boot(s0) && Inv(s0) && Room(s0) && 2 <= s0.area.size <= LOGSIZE
    ensures Inv(s) && Reached(c, s0, steps, s) && SameDisk(s, s0) && Room(s) && s.phase.Overrun?
    ensures |s.lh| == s.area.size - 1 && (forall x :: x in s.lh ==> x > First(s.area)) && s.phase.entry !in s.lh
    ensures First(s.area) < s.phase.entry < |s.disk| && s.phase.entry in s.cache && s.cache[s.phase.entry].data == data
  {
    hide DiskInv, OpsInv, TraceInv, HeaderInv, CacheInv, HomeInv, Loggable, TraceShape, Reached, Frugal, Vacant;
    var t, u: State;
    var b: nat;
    steps, t, b := BothPass(c, s0, data);
    steps, u := AppendOne(c, s0, steps, t, b, 1);
    OneAppended(c, t, b, data);
    hide BothPassed;
    steps, s := AppendOne(c, s0, steps, u, b + 1, 2);
  }

  lemma OneAppended(c: Count, s: State, b: nat, data: Block)
    requires BothPassed(c, s, b, data) && Room(s)
    ensures !LogFull(s)
    ensures var u := Logged(s, b, 1);
            && u.phase == Running && SameDisk(u, s) && Room(u) && |u.lh| == s.area.size - 1 && LogFull(u)
            && |u.ops| == 3 && u.ops[2].pending == Some(b + 1) && Used(c, u.ops[2]) < MAXOPBLOCKS
            && b + 1 in u.cache && b + 1 !in u.lh && u.cache[b + 1].user == Writer(u.ops[2].id, true)
            && u.cache[b + 1].data == data && First(u.area) < b + 1 < |u.disk|
               && (forall x :: x in u.lh ==> x > First(u.area))
  {
  }

  /** With room for one entry, two operations still have calls left. */
  lemma TwoHaveRoom(c: Count, s: State, b: nat)
    requires Filled(s, |s.lh|) && |s.lh| + 2 <= LOGSIZE && Room(s) && b == Base(s.area) + |s.lh|
    ensures b + 1 < |s.disk| && !s.area.Holds(b) && !s.area.Holds(b + 1)
    ensures b !in s.cache && b + 1 !in s.cache && b !in s.lh && b + 1 !in s.lh
    ensures forall i {:trigger s.ops[i]} :: 1 <= i <= 2 ==>
              s.ops[i].pending == None && s.ops[i].calls < MAXOPBLOCKS && Used(c, s.ops[i]) < MAXOPBLOCKS
  {
  }

  lemma TwoPassed(c: Count, s: State, b: nat, data: Block)
    requires Filled(s, |s.lh|) && |s.lh| + 2 <= LOGSIZE && Room(s) && b == Base(s.area) + |s.lh|
             && |s.lh| == s.area.size - 2
    ensures b + 1 < |s.disk| && !LogFull(s) && BothPassed(c, Tested(Tested(s, b, 1, []), b + 1, 2, data), b, data)
  {
  }

  /**
   Exactly when operations that keep their promise can make the log outgrow its area: when it has
   from 2 to LOGSIZE blocks, because two of them may pass the unlocked test for the last entry.
   */
  lemma OverrunExactly(c: Count, s0: State)
    requires Boot(s0) && Inv(s0) && Room(s0)
    ensures (exists steps :: Keeps(c, s0, steps) && Run(s0, steps).Some? && Run(s0, steps).value.phase.Overrun?)
            <==> 2 <= s0.area.size <= LOGSIZE
  {
    hide DiskInv, OpsInv, TraceInv, HeaderInv, CacheInv, HomeInv, Loggable, TraceShape;
    if 2 <= s0.area.size <= LOGSIZE {
      var steps, s := OverrunRun(c, s0, []);
      assert Keeps(c, s0, steps) && Run(s0, steps).Some? && Run(s0, steps).value.phase.Overrun?;
    } else {
      forall steps | Keeps(c, s0, steps) && Run(s0, steps).Some? ensures !Run(s0, steps).value.phase.Overrun? {
        if s0.area.size > LOGSIZE {
          NoOverrun(c, s0, steps);
        } else {
          NoCallPasses(s0, steps);
        }
      }
    }
  }

  /**
   What an overrun leads to: when the operations end, the log copies of `commit` overwrite the home
   block behind the log area with the last entry's contents, before the header write commits anything.
   */
  lemma OverrunSpills(s: State, contents: map<nat, Block>)
    requires Inv(s) && s.phase.Overrun? && s.area.size <= LOGSIZE && Room(s) && |s.lh| == s.area.size - 1
    requires s.phase.entry in contents && forall b :: b in s.lh ==> b in contents
    ensures var bs := s.lh + [s.phase.entry];
            && Mounted(s.disk, s.area) && |bs| == s.area.size && (forall b :: b in bs ==> b in contents)
            && var ws := CommitWrites(s.disk, s.area, bs, contents)[..|bs|];
               && (forall i :: 0 <= i < |ws| ==> ws[i].block < |s.disk|)
               && Intact(Apply(s.disk, ws), s.area) && First(s.area) < |s.disk| && !s.area.Holds(First(s.area))
               && View(Apply(s.disk, ws), s.area)[First(s.area)] == contents[s.phase.entry]
  {
    hide OpsInv, TraceInv, HeaderInv, CacheInv, HomeInv, TraceShape, Apply, CommitWrites, View;
    var bs := s.lh + [s.phase.entry];
    Spill(s.disk, s.area, bs, contents);
    var r := Apply(s.disk, CommitWrites(s.disk, s.area, bs, contents)[..|bs|]);
    assert Listed(r[s.area.start]) == [];
  }

  /** What the buffers hold. */
  function Contents(cache: map<nat, Buf>): map<nat, Block> { map b | b in cache :: cache[b].data }

  /** The log has just been overrun, and its blocks are in the cache. */
  ghost predicate Spilling(s: State) {
    && Inv(s) && s.phase.Overrun? && |s.lh| == s.area.size - 1 && s.area.size <= LOGSIZE && Room(s)
    && s.phase.entry in s.cache && forall b :: b in s.lh ==> b in s.cache
  }

  /**
   What the next `commit` leaves of the disk if the machine crashes before the header write: the listed
   blocks have been copied. Recovery is interrupted at the given points, then finishes.
   */
  ghost function Survivor(s: State, stops: seq<nat>): Disk
    requires Spilling(s)
  {
    hide Inv;
    OverrunSpills(s, Contents(s.cache));
    var bs := s.lh + [s.phase.entry];
    var d := Apply(s.disk, CommitWrites(s.disk, s.area, bs, Contents(s.cache))[..|bs|]);
    var r := Interrupted(d, s.area, stops);
    RecoverState(r, s.area, RecoverLength(r, s.area))
  }

  lemma SurvivorHolds(s: State, stops: seq<nat>)
    requires Spilling(s)
    ensures var e := Survivor(s, stops);
            && |e| == |s.disk| && e[s.area.start][0] == 0 && First(s.area) < |e|
            && e[First(s.area)] == s.cache[s.phase.entry].data
  {
    hide Inv;
    OverrunSpills(s, Contents(s.cache));
    var bs := s.lh + [s.phase.entry];
    var d := Apply(s.disk, CommitWrites(s.disk, s.area, bs, Contents(s.cache))[..|bs|]);
    var r := Interrupted(d, s.area, stops);
    RecoverView(r, s.area, RecoverLength(r, s.area));
    hide View, Apply, CommitWrites, Interrupted, RecoverState;
  }

  /** Every listed block is in the cache. */
  lemma ListedCached(s: State)
    requires Inv(s) && s.phase.Overrun?
    ensures forall b :: b in s.lh ==> b in s.cache
  {
    hide DiskInv, OpsInv, TraceInv, HeaderInv, HomeInv, TraceShape, Loggable;
    forall b | b in s.lh
      ensures b in s.cache
    {
      assert Pending(s.lh, s.phase, b);
    }
  }

  /** Before anything is committed, only listed blocks have been written. */
  lemma WrittenIsListed(s: State)
    requires Inv(s) && s.durable == 0
    ensures forall j :: 0 <= j < |s.trace| ==> s.trace[j].block in s.lh
  {
    hide DiskInv, OpsInv, TraceInv, HomeInv, CacheInv, Loggable;
  }

  /**
   The whole failure, from any boot with a log area of 2 to LOGSIZE blocks and for any contents: three
   operations keep their promise and overrun the log; `commit` copies the listed blocks; the machine
   crashes before the header write, and recovery is itself interrupted any number of times. Nothing
   has been committed and no operation has written the block behind the log, yet it holds the contents
   of another block.
   */
  lemma BlockLost(c: Count, s0: State, data: Block, stops: seq<nat>) returns (steps: seq<Step>, s: State)
    requires Boot(s0) && Inv(s0) && Room(s0) && 2 <= s0.area.size <= LOGSIZE
    ensures Inv(s) && Reached(c, s0, steps, s) && s.phase.Overrun? && s.durable == 0 && SameDisk(s, s0)
    ensures s.phase.entry != First(s.area) && forall j :: 0 <= j < |s.trace| ==> s.trace[j].block != First(s.area)
    ensures Spilling(s) && First(s.area) < |Survivor(s, stops)| && Survivor(s, stops)[First(s.area)] == data
  {
    hide DiskInv, OpsInv, TraceInv, HeaderInv, CacheInv, HomeInv, Loggable, TraceShape, Reached, Frugal, Vacant;
    steps, s := OverrunRun(c, s0, data);
    ListedCached(s);
    WrittenIsListed(s);
    SurvivorHolds(s, stops);
  }
}
