/**
 The log shared by any number of file-system operations, as a machine whose steps are the
 critical sections of log.c, the single block writes of `commit` and `recover_from_log`,
 the buffer-cache actions of bio.c, and crashes.

 `trace` lists every `log_write` that has not been lost in a crash, `durable` counts those that
 belong to a committed transaction, and `origin` is the disk they all start from. These three,
 `base` and `nextId` are history: no step decides anything by them.

 `log_write` is two steps, because it tests the size of the log before it takes the log's lock.
 An operation between the two has the block of its buffer in `pending`. The machine stops in
 Overrun(b) when the second step would append entry b to a log without room for it.
 */
module LogMachine {
  import opened RedoLog

  datatype Option<T> = None | Some(value: T)

  datatype User = Nobody | Reader | Writer(op: nat, unlogged: bool)
  datatype Buf = Buf(data: Block, dirty: bool, user: User)
  datatype Op = Op(id: nat, calls: nat, added: nat, pending: Option<nat>)
  datatype Entry = Entry(op: nat, block: nat, data: Block)
  datatype Phase = Running | Committing(done: nat) | Recovering(done: nat) | Panicked | Overrun(entry: nat)

  datatype State = State(
    area: Area, disk: Disk, cache: map<nat, Buf>, lh: seq<nat>, ops: seq<Op>, phase: Phase,
    nextId: nat, trace: seq<Entry>, durable: nat, origin: Disk, base: Disk)

  datatype Step =
    | Begin
    | Bread(b: nat, who: User)
    | Modify(b: nat, data: Block)
    | LogTest(b: nat)
    | LogWrite(b: nat)
    | Brelse(b: nat)
    | Recycle(b: nat)
    | End(i: nat)
    | CommitBlock
    | Crash
    | RecoverBlock

  // --------------------------------------------------------------- history

  /** The blocks after the given `log_write`s. */
  function Replay(d: Disk, t: seq<Entry>): (r: Disk)
    requires forall i :: 0 <= i < |t| ==> t[i].block < |d|
    ensures |r| == |d|
  {
    if t == [] then d
    else
      var last := t[|t| - 1];
      Replay(d, t[..|t| - 1])[last.block := last.data]
  }

  // ----------------------------------------------------------- invariants

  ghost predicate Shape(s: State) {
    && Mounted(s.disk, s.area) && |s.origin| == |s.disk| == |s.base|
    && Loggable(|s.disk|, s.area, s.lh)
    && TraceShape(|s.disk|, s.area, s.trace) && s.durable <= |s.trace|
    && (forall b :: b in s.cache ==> b < |s.disk| && !s.area.Holds(b))
    && (s.phase.Committing? ==> s.phase.done < 2 * |s.lh| + 2)
  }

  ghost predicate TraceShape(n: nat, a: Area, t: seq<Entry>) {
    forall i :: 0 <= i < |t| ==> t[i].block < n && !a.Holds(t[i].block)
  }

  /** The contents every `log_write` so far has asked for. */
  ghost function Now(s: State): Disk
    requires Shape(s)
  {
    Replay(s.origin, s.trace)
  }

  /** The contents a crash now must leave. */
  ghost function Committed(s: State): Disk
    requires Shape(s)
  {
    Replay(s.origin, s.trace[..s.durable])
  }

  /** Logged blocks whose home copy is still old. */
  ghost predicate Pending(lh: seq<nat>, phase: Phase, b: nat) {
    b in lh && (phase.Committing? ==> IndexOf(lh, b) + |lh| + 1 >= phase.done)
  }

  predicate Open(ops: seq<Op>, id: nat) {
    exists i :: 0 <= i < |ops| && ops[i].id == id
  }

  /** Outstanding operations have distinct ids. */
  ghost predicate OpsInv(ops: seq<Op>, nextId: nat) {
    && (forall i :: 0 <= i < |ops| ==> ops[i].id < nextId)
    && (forall i, j :: 0 <= i < j < |ops| ==> ops[i].id != ops[j].id)
  }

  /** The committed part of the trace has no operation that is outstanding or writes later. */
  ghost predicate TraceInv(t: seq<Entry>, durable: nat, ops: seq<Op>, nextId: nat)
    requires durable <= |t|
  {
    && (forall i :: 0 <= i < |t| ==> t[i].op < nextId)
    && (forall i :: 0 <= i < durable ==> !Open(ops, t[i].op))
    && (forall i, j :: 0 <= i < durable <= j < |t| ==> t[i].op != t[j].op)
  }

  /** Buffers: current unless their writer has yet to log them, dirty exactly while pending. */
  ghost predicate CacheInv(cache: map<nat, Buf>, ops: seq<Op>, lh: seq<nat>, phase: Phase, now: Disk) {
    && (forall b :: b in cache ==> BufInv(b, cache[b], ops, lh, phase, now))
    && (forall b :: Pending(lh, phase, b) ==> b in cache)
  }

  ghost predicate BufInv(b: nat, buf: Buf, ops: seq<Op>, lh: seq<nat>, phase: Phase, now: Disk) {
    && b < |now|
    && (buf.user.Writer? ==> Open(ops, buf.user.op))
    && (!(buf.user.Writer? && buf.user.unlogged) ==> buf.data == now[b])
    && (buf.dirty <==> Pending(lh, phase, b))
  }

  /** Home blocks: current unless pending. */
  ghost predicate HomeInv(disk: Disk, a: Area, lh: seq<nat>, phase: Phase, now: Disk) {
    |disk| == |now| && forall b :: 0 <= b < |disk| && !a.Holds(b) && !Pending(lh, phase, b) ==> disk[b] == now[b]
  }

  ghost function Pinned(lh: seq<nat>, now: Disk): map<nat, Block> {
    map b | b in lh && b < |now| :: now[b]
  }

  ghost predicate Idle(disk: Disk, a: Area, committed: Disk) {
    Mounted(disk, a) && disk[a.start][0] == 0 && SameHome(disk, committed, a)
  }

  /** During `commit`: `k` of its writes have reached the disk. */
  ghost predicate CommitInv(k: nat, disk: Disk, base: Disk, a: Area, lh: seq<nat>, now: Disk, committed: Disk) {
    && Idle(base, a, if k <= |lh| then committed else base)
    && lh != [] && CanCommit(base, a, lh, Pinned(lh, now)) && k < 2 * |lh| + 2
    && disk == CommitState(base, a, lh, Pinned(lh, now), k)
    && SameHome(Installed(base, lh, Pinned(lh, now)), now, a)
    && (k > |lh| ==> committed == now)
  }

  /** During `recover_from_log`: `k` of its writes have reached the disk. */
  ghost predicate RecoveryInv(k: nat, disk: Disk, base: Disk, a: Area, committed: Disk) {
    && Intact(base, a) && k < RecoverLength(base, a)
    && disk == RecoverState(base, a, k)
    && SameHome(View(base, a), committed, a)
  }

  /** Every uncommitted write is covered by the in-memory header. */
  ghost predicate HeaderInv(t: seq<Entry>, durable: nat, lh: seq<nat>)
    requires durable <= |t|
  {
    forall j :: durable <= j < |t| ==> t[j].block in lh
  }

  ghost predicate DiskInv(s: State)
    requires Shape(s)
  {
    match s.phase
    case Committing(k) =>
      CommitInv(k, s.disk, s.base, s.area, s.lh, Now(s), Committed(s)) && s.ops == []
        && (k > |s.lh| ==> s.durable == |s.trace|)
    case Recovering(k) =>
      RecoveryInv(k, s.disk, s.base, s.area, Committed(s)) && s.ops == [] && s.lh == [] && s.cache == map[]
        && s.durable == |s.trace|
    case _ =>
      Idle(s.disk, s.area, Committed(s))
  }

  ghost predicate Inv(s: State) {
    && Shape(s) && DiskInv(s)
    && OpsInv(s.ops, s.nextId) && TraceInv(s.trace, s.durable, s.ops, s.nextId)
    && HeaderInv(s.trace, s.durable, s.lh)
    && (!s.phase.Recovering? ==>
          CacheInv(s.cache, s.ops, s.lh, s.phase, Now(s)) && HomeInv(s.disk, s.area, s.lh, s.phase, Now(s)))
  }

  // ---------------------------------------------------------------- steps

  predicate Live(s: State) { s.phase.Running? || s.phase.Committing? }

  /** `begin_op` getting past its loop. */
  function BeginOp(s: State): Option<State> {
    if s.phase.Running? && |s.lh| + (|s.ops| + 1) * MAXOPBLOCKS <= LOGSIZE then
      Some(s.(ops := s.ops + [Op(s.nextId, 0, 0, None)], nextId := s.nextId + 1))
    else None
  }

  /** A cached buffer as it is, any other block from the disk. */
  function BreadBuf(s: State, b: nat): Buf
    requires b < |s.disk|
  {
    if b in s.cache then s.cache[b] else Buf(s.disk[b], false, Nobody)
  }

  /** The process of the operation is not inside `log_write`. */
  predicate Quiet(ops: seq<Op>, id: nat) {
    forall i :: 0 <= i < |ops| && ops[i].id == id ==> ops[i].pending == None
  }

  /** It has passed the test of `log_write` for block b and not yet taken the lock. */
  predicate Passed(ops: seq<Op>, id: nat, b: nat) {
    exists i :: 0 <= i < |ops| && ops[i].id == id && ops[i].pending == Some(b)
  }

  /** `bread` by a reader or by an operation; the buffer is locked for its user. */
  function BreadBlock(s: State, b: nat, who: User): Option<State> {
    if Live(s) && b < |s.disk| && !s.area.Holds(b)
       && (who.Reader? || (who.Writer? && !who.unlogged && Open(s.ops, who.op) && Quiet(s.ops, who.op)))
       && (b in s.cache ==> s.cache[b].user == Nobody) then
      Some(s.(cache := s.cache[b := BreadBuf(s, b).(user := who)]))
    else None
  }

  /** An operation changes the data of a buffer it holds. */
  function ModifyBuf(s: State, b: nat, data: Block): Option<State> {
    if Live(s) && b in s.cache && s.cache[b].user.Writer? && Quiet(s.ops, s.cache[b].user.op) then
      Some(s.(cache := s.cache[b := s.cache[b].(data := data, user := s.cache[b].user.(unlogged := true))]))
    else None
  }

  function Charge(ops: seq<Op>, id: nat, added: nat): seq<Op> {
    seq(|ops|, i requires 0 <= i < |ops| =>
      if ops[i].id == id then ops[i].(calls := ops[i].calls + 1, added := ops[i].added + added, pending := None)
        else ops[i])
  }

  function Enter(ops: seq<Op>, id: nat, b: nat): seq<Op> {
    seq(|ops|, i requires 0 <= i < |ops| => if ops[i].id == id then ops[i].(pending := Some(b)) else ops[i])
  }

  predicate LogFull(s: State) {
    |s.lh| >= LOGSIZE || |s.lh| >= s.area.size - 1
  }

  /** The unlocked test of `log_write`, or its panic. */
  function LogTestBuf(s: State, b: nat): Option<State> {
    if s.phase.Running? && b in s.cache && s.cache[b].user.Writer? && Quiet(s.ops, s.cache[b].user.op) then
      Some(if LogFull(s) then s.(phase := Panicked) else s.(ops := Enter(s.ops, s.cache[b].user.op, b)))
    else None
  }

  /** The rest of `log_write`, under the lock. */
  function LogWriteBuf(s: State, b: nat): Option<State> {
    if s.phase.Running? && b in s.cache && s.cache[b].user.Writer? && Passed(s.ops, s.cache[b].user.op, b) then
      if b !in s.lh && LogFull(s) then Some(s.(phase := Overrun(b)))
      else
        var buf := s.cache[b];
        Some(s.(
          lh := if b in s.lh then s.lh else s.lh + [b],
          cache := s.cache[b := buf.(dirty := true, user := buf.user.(unlogged := false))],
          trace := s.trace + [Entry(buf.user.op, b, buf.data)],
          ops := Charge(s.ops, buf.user.op, if b in s.lh then 0 else 1)))
    else None
  }

  /** `brelse`; a writer has logged its changes. */
  function BrelseBuf(s: State, b: nat): Option<State> {
    if Live(s) && b in s.cache && s.cache[b].user != Nobody
       && (s.cache[b].user.Writer? ==> !s.cache[b].user.unlogged && Quiet(s.ops, s.cache[b].user.op)) then
      Some(s.(cache := s.cache[b := s.cache[b].(user := Nobody)]))
    else None
  }

  /** `bget` taking an unused clean buffer for another block. */
  function RecycleBuf(s: State, b: nat): Option<State> {
    if Live(s) && b in s.cache && s.cache[b].user == Nobody && !s.cache[b].dirty then
      Some(s.(cache := s.cache - {b}))
    else None
  }

  /** The i-th operation, holding no buffer, calls `end_op`; the last one starts `commit`. */
  function EndOp(s: State, i: nat): Option<State> {
    if s.phase.Running? && i < |s.ops|
       && (forall b :: b in s.cache && s.cache[b].user.Writer? ==> s.cache[b].user.op != s.ops[i].id) then
      var rest := s.ops[..i] + s.ops[i + 1..];
      Some(if rest == [] && s.lh != [] then s.(ops := rest, phase := Committing(0), base := s.disk)
        else s.(ops := rest))
    else None
  }

  /** A block of the cache that the next write of `commit` has to lock. */
  function Needed(s: State): Option<nat>
    requires s.phase.Committing? && s.phase.done < 2 * |s.lh| + 2
  {
    var n, k := |s.lh|, s.phase.done;
    if k < n then Some(s.lh[k]) else if n < k <= 2 * n then Some(s.lh[k - n - 1]) else None
  }

  function Lockable(s: State, b: Option<nat>): bool {
    b.Some? ==> b.value in s.cache && s.cache[b.value].user == Nobody
  }

  /** What the code writes next: it reads the buffer, or the log block, at this moment. */
  function NextWrite(s: State): Write
    requires Mounted(s.disk, s.area) && |s.lh| < WORDS && |s.lh| < s.area.size
    requires s.phase.Committing? && s.phase.done < 2 * |s.lh| + 2 && Lockable(s, Needed(s))
  {
    var n, k, a := |s.lh|, s.phase.done, s.area;
    var body := if k < n then s.cache[s.lh[k]].data else if n < k <= 2 * n then s.disk[a.start + 1 + (k - n - 1)]
        else [];
    WriteNow(a, s.lh, k, s.disk[a.start], body)
  }

  function CommitNext(s: State): Option<State>
    requires Shape(s)
  {
    if s.phase.Committing? && Lockable(s, Needed(s)) then
      var n, k, w := |s.lh|, s.phase.done, NextWrite(s);
      Some(if k <= n then Logs(s, w) else if k <= 2 * n then Installs(s, w) else Erases(s, w))
    else None
  }

  /** A write of `write_log`, or the header write that commits. */
  function Logs(s: State, w: Write): State
    requires s.phase.Committing? && w.block < |s.disk|
  {
    s.(disk := s.disk[w.block := w.data], phase := Committing(s.phase.done + 1),
       durable := if s.phase.done < |s.lh| then s.durable else |s.trace|)
  }

  /** A write of `install_trans`; it leaves the buffer clean. */
  function Installs(s: State, w: Write): State
    requires s.phase.Committing? && w.block < |s.disk| && w.block in s.cache
  {
    s.(disk := s.disk[w.block := w.data], phase := Committing(s.phase.done + 1),
       cache := s.cache[w.block := s.cache[w.block].(data := w.data, dirty := false)])
  }

  /** The last header write, and the end of `committing`. */
  function Erases(s: State, w: Write): State
    requires w.block < |s.disk|
  {
    s.(disk := s.disk[w.block := w.data], phase := Running, lh := [])
  }

  /** The machine stops: memory is lost, and with it every uncommitted `log_write`. */
  function CrashNow(s: State): State
    requires s.durable <= |s.trace|
  {
    s.(cache := map[], lh := [], ops := [], phase := Recovering(0), trace := s.trace[..s.durable], base := s.disk)
  }

  function RecoverNext(s: State): Option<State>
    requires Shape(s)
  {
    if s.phase.Recovering? && s.disk[s.area.start][0] < WORDS && s.disk[s.area.start][0] < s.area.size
       && s.phase.done < RecoverLength(s.disk, s.area)
       && RecoverWrite(s.disk, s.area, s.phase.done).block < |s.disk| then
      var w := RecoverWrite(s.disk, s.area, s.phase.done);
      Some(s.(disk := s.disk[w.block := w.data],
              phase := if s.phase.done + 1 == RecoverLength(s.disk, s.area) then Running
                else Recovering(s.phase.done + 1)))
    else None
  }

  function Do(s: State, step: Step): Option<State>
    requires Shape(s)
  {
    match step
    case Begin => BeginOp(s)
    case Bread(b, who) => BreadBlock(s, b, who)
    case Modify(b, data) => ModifyBuf(s, b, data)
    case LogTest(b) => LogTestBuf(s, b)
    case LogWrite(b) => LogWriteBuf(s, b)
    case Brelse(b) => BrelseBuf(s, b)
    case Recycle(b) => RecycleBuf(s, b)
    case End(i) => EndOp(s, i)
    case CommitBlock => CommitNext(s)
    case Crash => Some(CrashNow(s))
    case RecoverBlock => RecoverNext(s)
  }

  // -------------------------------------------- what the disk means, by phase

  lemma IdleView(disk: Disk, a: Area, committed: Disk)
    requires Idle(disk, a, committed)
    ensures Intact(disk, a) && SameHome(View(disk, a), committed, a)
  {
    assert Listed(disk[a.start]) == [];
  }

  /**
   Whatever the phase, a recovery of the present disk would produce exactly the blocks that the
   committed part of the trace asks for.
   */
  lemma Recoverable(s: State)
    requires Inv(s)
    ensures Intact(s.disk, s.area) && SameHome(View(s.disk, s.area), Committed(s), s.area)
  {
    match s.phase
    case Committing(k) => CommitView(s.base, s.area, s.lh, Pinned(s.lh, Now(s)), k);
    case Recovering(k) => RecoverView(s.base, s.area, k);
    case _ => IdleView(s.disk, s.area, Committed(s));
  }

  // -------------------------------------------------- one lemma per step

  lemma BeginInv(s: State)
    requires Inv(s) && BeginOp(s).Some?
    ensures Inv(BeginOp(s).value)
  {
    hide CommitInv, RecoveryInv, Idle, HeaderInv, HomeInv, Loggable, TraceShape, Replay;
    var t := BeginOp(s).value;
    assert forall id :: Open(t.ops, id) ==> Open(s.ops, id) || id == s.nextId;
    assert forall i :: 0 <= i < |s.ops| ==> t.ops[i] == s.ops[i];
    assert forall id :: Open(s.ops, id) ==> Open(t.ops, id);
  }

  lemma CachePut(cache: map<nat, Buf>, ops: seq<Op>, lh: seq<nat>, phase: Phase, now: Disk, b: nat, buf: Buf)
    requires CacheInv(cache, ops, lh, phase, now) && BufInv(b, buf, ops, lh, phase, now)
    ensures CacheInv(cache[b := buf], ops, lh, phase, now)
  {
  }

  lemma CacheDrop(cache: map<nat, Buf>, ops: seq<Op>, lh: seq<nat>, phase: Phase, now: Disk, b: nat)
    requires CacheInv(cache, ops, lh, phase, now) && !Pending(lh, phase, b)
    ensures CacheInv(cache - {b}, ops, lh, phase, now)
  {
  }

  lemma BreadInv(s: State, b: nat, who: User)
    requires Inv(s) && BreadBlock(s, b, who).Some?
    ensures Inv(BreadBlock(s, b, who).value)
  {
    var buf := BreadBuf(s, b);
    BreadCurrent(s, b);
    CachePut(s.cache, s.ops, s.lh, s.phase, Now(s), b, buf.(user := who));
  }

  lemma BreadCurrent(s: State, b: nat)
    requires Inv(s) && Live(s) && b < |s.disk| && !s.area.Holds(b)
    requires b in s.cache ==> s.cache[b].user == Nobody
    ensures BufInv(b, BreadBuf(s, b), s.ops, s.lh, s.phase, Now(s))
  {
  }

  lemma ModifyInv(s: State, b: nat, data: Block)
    requires Inv(s) && ModifyBuf(s, b, data).Some?
    ensures Inv(ModifyBuf(s, b, data).value)
  {
    var buf := s.cache[b];
    CachePut(s.cache, s.ops, s.lh, s.phase, Now(s), b, buf.(data := data, user := buf.user.(unlogged := true)));
  }

  lemma LogTestInv(s: State, b: nat)
    requires Inv(s) && LogTestBuf(s, b).Some?
    ensures Inv(LogTestBuf(s, b).value)
  {
    if !LogFull(s) {
      EnterKeepsOpen(s.ops, s.cache[b].user.op, b);
      var t := LogTestBuf(s, b).value;
      SameOps(s.cache, s.ops, t.ops, s.lh, Now(s), s.trace, s.durable, s.nextId);
    }
  }

  /** Only which operations are open matters. */
  lemma SameOps(cache: map<nat, Buf>, ops: seq<Op>, ops': seq<Op>, lh: seq<nat>, now: Disk, t: seq<Entry>, durable: nat,
        nextId: nat)
    requires durable <= |t| && CacheInv(cache, ops, lh, Running, now) && TraceInv(t, durable, ops, nextId)
    requires forall x :: Open(ops', x) <==> Open(ops, x)
    ensures CacheInv(cache, ops', lh, Running, now) && TraceInv(t, durable, ops', nextId)
  {
  }

  lemma EnterKeepsOpen(ops: seq<Op>, id: nat, b: nat)
    ensures forall x :: Open(Enter(ops, id, b), x) <==> Open(ops, x)
  {
    var cs := Enter(ops, id, b);
    forall x ensures Open(cs, x) <==> Open(ops, x) {
      if i :| 0 <= i < |ops| && ops[i].id == x {
        assert cs[i].id == x;
      }
    }
  }

  lemma LogWriteInv(s: State, b: nat)
    requires Inv(s) && LogWriteBuf(s, b).Some?
    ensures Inv(LogWriteBuf(s, b).value)
  {
    if b !in s.lh && LogFull(s) {
    } else {
      var t := LogWriteBuf(s, b).value;
      var buf := s.cache[b];
      var n := if b in s.lh then 0 else 1;
      LogWriteHistory(s.trace, s.durable, s.ops, s.nextId, Entry(buf.user.op, b, buf.data), n);
      LogWriteCache(s.cache, s.ops, s.lh, Now(s), b, n);
      LogWriteHome(s.disk, s.area, s.lh, Now(s), b, buf.data);
      LogWriteShape(s, b);
    }
  }

  lemma LogWriteShape(s: State, b: nat)
    requires Shape(s) && LogWriteBuf(s, b).Some? && (b in s.lh || !LogFull(s))
    ensures var t := LogWriteBuf(s, b).value;
            Shape(t) && Now(t) == Now(s)[b := s.cache[b].data] && Committed(t) == Committed(s)
            && (HeaderInv(s.trace, s.durable, s.lh) ==> HeaderInv(t.trace, t.durable, t.lh))
  {
    var t := LogWriteBuf(s, b).value;
    assert t.trace[..t.durable] == s.trace[..s.durable];
    assert t.trace[..|t.trace| - 1] == s.trace;
    assert Loggable(|t.disk|, t.area, t.lh);
    assert TraceShape(|t.disk|, t.area, t.trace);
  }

  lemma LogWriteHistory(t: seq<Entry>, durable: nat, ops: seq<Op>, nextId: nat, e: Entry, n: nat)
    requires durable <= |t| && TraceInv(t, durable, ops, nextId) && OpsInv(ops, nextId)
    requires Open(ops, e.op)
    ensures TraceInv(t + [e], durable, Charge(ops, e.op, n), nextId) && OpsInv(Charge(ops, e.op, n), nextId)
  {
    ChargeKeepsOpen(ops, e.op, n);
    forall i | 0 <= i < durable ensures t[i].op != e.op {
      assert !Open(ops, t[i].op);
    }
  }

  lemma LogWriteCache(cache: map<nat, Buf>, ops: seq<Op>, lh: seq<nat>, now: Disk, b: nat, n: nat)
    requires CacheInv(cache, ops, lh, Running, now)
    requires b in cache && cache[b].user.Writer?
    ensures var buf := cache[b];
            var c := cache[b := buf.(dirty := true, user := buf.user.(unlogged := false))];
            b < |now| &&
            CacheInv(c, Charge(ops, buf.user.op, n), if b in lh then lh else lh + [b], Running, now[b := buf.data])
  {
    ChargeKeepsOpen(ops, cache[b].user.op, n);
  }

  lemma LogWriteHome(disk: Disk, a: Area, lh: seq<nat>, now: Disk, b: nat, data: Block)
    requires HomeInv(disk, a, lh, Running, now) && b < |now|
    ensures HomeInv(disk, a, if b in lh then lh else lh + [b], Running, now[b := data])
  {
  }

  lemma ChargeKeepsOpen(ops: seq<Op>, id: nat, added: nat)
    ensures forall x :: Open(Charge(ops, id, added), x) <==> Open(ops, x)
  {
    var cs := Charge(ops, id, added);
    forall x ensures Open(cs, x) <==> Open(ops, x) {
      if i :| 0 <= i < |ops| && ops[i].id == x {
        assert cs[i].id == x;
      }
    }
  }

  lemma BrelseInv(s: State, b: nat)
    requires Inv(s) && BrelseBuf(s, b).Some?
    ensures Inv(BrelseBuf(s, b).value)
  {
    hide CommitInv, RecoveryInv, Idle, TraceInv, HeaderInv, HomeInv, OpsInv, Loggable, TraceShape, Replay;
    CachePut(s.cache, s.ops, s.lh, s.phase, Now(s), b, s.cache[b].(user := Nobody));
  }

  lemma RecycleInv(s: State, b: nat)
    requires Inv(s) && RecycleBuf(s, b).Some?
    ensures Inv(RecycleBuf(s, b).value)
  {
    hide CommitInv, RecoveryInv, Idle, TraceInv, HeaderInv, HomeInv, OpsInv, CacheInv, Loggable, TraceShape, Replay;
    UnusedBuffer(s, b);
    CacheDrop(s.cache, s.ops, s.lh, s.phase, Now(s), b);
  }

  lemma UnusedBuffer(s: State, b: nat)
    requires Inv(s) && RecycleBuf(s, b).Some?
    ensures !Pending(s.lh, s.phase, b)
  {
    hide CommitInv, RecoveryInv, Idle, TraceInv, HeaderInv, HomeInv, OpsInv, Loggable, TraceShape, Replay;
    assert BufInv(b, s.cache[b], s.ops, s.lh, s.phase, Now(s));
  }

  lemma EndInv(s: State, i: nat)
    requires Inv(s) && EndOp(s, i).Some?
    ensures Inv(EndOp(s, i).value)
  {
    var rest := s.ops[..i] + s.ops[i + 1..];
    EndOps(s.ops, i, rest, s.nextId, s.trace, s.durable);
    EndCache(s.cache, s.ops, i, rest, s.lh, Now(s));
    if rest == [] && s.lh != [] {
      CommitStarts(s.disk, s.area, s.lh, Now(s), Committed(s));
      CommitStartsCache(s.cache, s.lh, Now(s));
    }
  }

  lemma EndOps(ops: seq<Op>, i: nat, rest: seq<Op>, nextId: nat, t: seq<Entry>, durable: nat)
    requires i < |ops| && rest == ops[..i] + ops[i + 1..] && durable <= |t|
    requires OpsInv(ops, nextId) && TraceInv(t, durable, ops, nextId)
    ensures OpsInv(rest, nextId) && TraceInv(t, durable, rest, nextId)
  {
    forall x | Open(rest, x) ensures Open(ops, x) {
      var j :| 0 <= j < |rest| && rest[j].id == x;
      assert ops[if j < i then j else j + 1].id == x;
    }
  }

  lemma EndCache(cache: map<nat, Buf>, ops: seq<Op>, i: nat, rest: seq<Op>, lh: seq<nat>, now: Disk)
    requires i < |ops| && rest == ops[..i] + ops[i + 1..]
    requires CacheInv(cache, ops, lh, Running, now)
    requires forall b :: b in cache && cache[b].user.Writer? ==> cache[b].user.op != ops[i].id
    ensures CacheInv(cache, rest, lh, Running, now)
  {
    forall x | Open(ops, x) && x != ops[i].id ensures Open(rest, x) {
      var j :| 0 <= j < |ops| && ops[j].id == x;
      assert rest[if j < i then j else j - 1].id == x;
    }
  }

  lemma CommitStarts(disk: Disk, a: Area, lh: seq<nat>, now: Disk, committed: Disk)
    requires Idle(disk, a, committed) && HomeInv(disk, a, lh, Running, now)
    requires Loggable(|disk|, a, lh) && lh != []
    ensures CommitInv(0, disk, disk, a, lh, now, committed)
    ensures HomeInv(disk, a, lh, Committing(0), now)
  {
    assert CommitState(disk, a, lh, Pinned(lh, now), 0) == disk;
  }

  lemma CommitStartsCache(cache: map<nat, Buf>, lh: seq<nat>, now: Disk)
    requires CacheInv(cache, [], lh, Running, now)
    ensures CacheInv(cache, [], lh, Committing(0), now)
  {
  }

  /** Each write of `commit` moves the disk one step along `CommitState`. */
  lemma CommitNextInv(s: State)
    requires Inv(s) && CommitNext(s).Some?
    ensures Inv(CommitNext(s).value)
  {
    hide CanCommit, CommitInv, TraceInv, HeaderInv, CacheInv, HomeInv, TraceShape, CommitWrite, OpsInv;
    var w := NextWrite(s);
    NextWriteIsPlanned(s);
    if s.phase.done <= |s.lh| {
      LogsInv(s, w);
    } else if s.phase.done <= 2 * |s.lh| {
      InstallIsCurrent(s.phase.done, s.cache, s.base, s.area, s.lh, Now(s));
      InstallsInv(s, w);
    } else {
      ErasesInv(s, w);
    }
  }

  lemma LogsInv(s: State, w: Write)
    requires Shape(s) && s.phase.Committing? && s.ops == []
    requires CommitInv(s.phase.done, s.disk, s.base, s.area, s.lh, Now(s), Committed(s))
    requires TraceInv(s.trace, s.durable, [], s.nextId) && HeaderInv(s.trace, s.durable, s.lh)
    requires CacheInv(s.cache, [], s.lh, s.phase, Now(s))
    requires HomeInv(s.disk, s.area, s.lh, s.phase, Now(s))
    requires s.phase.done <= |s.lh|
    requires w == CommitWrite(s.base, s.area, s.lh, Pinned(s.lh, Now(s)), s.phase.done)
    ensures w.block < |s.disk| && Inv(Logs(s, w))
  {
    hide CommitInv, TraceInv, HeaderInv, CacheInv, HomeInv, CommitWrite, CommitState, Loggable, TraceShape;
    var k := s.phase.done;
    CommitLogged(k, s.disk, s.base, s.area, s.lh, Now(s), Committed(s), w, if k < |s.lh| then Committed(s) else Now(s));
    CommitLoggedCache(k, s.cache, s.lh, Now(s));
    LogsShape(s, w);
    StillCommitting(Logs(s, w), k + 1);
  }

  lemma LogsShape(s: State, w: Write)
    requires Shape(s) && s.phase.Committing? && s.phase.done <= |s.lh|
    requires TraceInv(s.trace, s.durable, [], s.nextId) && HeaderInv(s.trace, s.durable, s.lh)
    requires w.block < |s.disk| && s.area.Holds(w.block)
    requires w.block == s.area.start ==> |w.data| == WORDS
    ensures var t := Logs(s, w);
            && Shape(t) && Now(t) == Now(s)
            && Committed(t) == (if s.phase.done < |s.lh| then Committed(s) else Now(s))
            && TraceInv(t.trace, t.durable, [], t.nextId) && HeaderInv(t.trace, t.durable, t.lh)
  {
    assert s.trace[..|s.trace|] == s.trace;
  }

  lemma StillCommitting(t: State, k: nat)
    requires Shape(t) && t.phase == Committing(k) && t.ops == []
    requires CommitInv(k, t.disk, t.base, t.area, t.lh, Now(t), Committed(t))
    requires k > |t.lh| ==> t.durable == |t.trace|
    requires TraceInv(t.trace, t.durable, [], t.nextId) && HeaderInv(t.trace, t.durable, t.lh)
    requires CacheInv(t.cache, [], t.lh, Committing(k), Now(t))
    requires HomeInv(t.disk, t.area, t.lh, Committing(k), Now(t))
    ensures Inv(t)
  {
  }

  lemma InstallsInv(s: State, w: Write)
    requires Shape(s) && s.phase.Committing? && s.ops == []
    requires CommitInv(s.phase.done, s.disk, s.base, s.area, s.lh, Now(s), Committed(s))
    requires TraceInv(s.trace, s.durable, [], s.nextId) && HeaderInv(s.trace, s.durable, s.lh)
    requires CacheInv(s.cache, [], s.lh, s.phase, Now(s))
    requires HomeInv(s.disk, s.area, s.lh, s.phase, Now(s))
    requires s.durable == |s.trace|
    requires InstallsCurrent(s.phase.done, s.cache, s.lh, Now(s), w)
    ensures w.block < |s.disk| && Inv(Installs(s, w))
  {
    hide CommitInv, TraceInv, HeaderInv, CacheInv, HomeInv, CommitWrite, CommitState;
    var k := s.phase.done;
    CommitInstalls(k, s.disk, s.base, s.area, s.lh, Now(s), Committed(s), w);
    InstallCache(k, s.cache, s.lh, Now(s), w);
    InstallsShape(s, w);
    StillCommitting(Installs(s, w), k + 1);
  }

  lemma ErasesInv(s: State, w: Write)
    requires Shape(s) && s.phase.Committing? && s.ops == []
    requires CommitInv(s.phase.done, s.disk, s.base, s.area, s.lh, Now(s), Committed(s))
    requires TraceInv(s.trace, s.durable, [], s.nextId) && HeaderInv(s.trace, s.durable, s.lh)
    requires CacheInv(s.cache, [], s.lh, s.phase, Now(s))
    requires HomeInv(s.disk, s.area, s.lh, s.phase, Now(s))
    requires s.phase.done == 2 * |s.lh| + 1 && s.durable == |s.trace|
    requires w == CommitWrite(s.base, s.area, s.lh, Pinned(s.lh, Now(s)), s.phase.done)
    ensures w.block < |s.disk| && Inv(Erases(s, w))
  {
    hide CommitInv, TraceInv, HeaderInv, CacheInv, HomeInv, CommitWrite, CommitState, Idle;
    CommitEnds(s.disk, s.base, s.area, s.lh, Now(s), Committed(s), w);
    CommitEndsCache(s.cache, s.lh, Now(s));
    ErasesShape(s, w);
  }

  lemma InstallsShape(s: State, w: Write)
    requires Shape(s) && s.phase.Committing? && s.phase.done <= 2 * |s.lh|
    requires w.block < |s.disk| && w.block in s.cache
    ensures Shape(Installs(s, w)) && Now(Installs(s, w)) == Now(s) && Committed(Installs(s, w)) == Committed(s)
  {
  }

  lemma ErasesShape(s: State, w: Write)
    requires Shape(s) && w.block < |s.disk| && s.durable == |s.trace|
    requires w.block == s.area.start ==> |w.data| == WORDS
    ensures var t := Erases(s, w);
            Shape(t) && Now(t) == Now(s) && Committed(t) == Committed(s) && HeaderInv(t.trace, t.durable, t.lh)
  {
  }

  lemma CommitLoggedCache(k: nat, cache: map<nat, Buf>, lh: seq<nat>, now: Disk)
    requires CacheInv(cache, [], lh, Committing(k), now) && k <= |lh|
    ensures CacheInv(cache, [], lh, Committing(k + 1), now)
  {
  }

  /** What the log area holds while `commit` reads it back. */
  lemma CommitReads(k: nat, disk: Disk, base: Disk, a: Area, lh: seq<nat>, now: Disk, committed: Disk)
    requires CommitInv(k, disk, base, a, lh, now, committed)
    ensures disk[a.start] == if k <= |lh| then base[a.start] else Header(base[a.start], lh)
    ensures k > |lh| ==> forall i :: 0 <= i < |lh| ==> lh[i] < |now| && disk[a.start + 1 + i] == now[lh[i]]
  {
    if k > |lh| {
      forall i | 0 <= i < |lh| ensures lh[i] < |now| && disk[a.start + 1 + i] == now[lh[i]] {
        assert lh[i] in Pinned(lh, now);
      }
    }
  }

  lemma BufferCurrent(cache: map<nat, Buf>, ops: seq<Op>, lh: seq<nat>, phase: Phase, now: Disk, b: nat)
    requires CacheInv(cache, ops, lh, phase, now) && b in cache && cache[b].user == Nobody
    ensures b < |now| && cache[b].data == now[b]
  {
    assert BufInv(b, cache[b], ops, lh, phase, now);
  }

  lemma CommitCan(k: nat, disk: Disk, base: Disk, a: Area, lh: seq<nat>, now: Disk, committed: Disk)
    requires CommitInv(k, disk, base, a, lh, now, committed)
    ensures CanCommit(base, a, lh, Pinned(lh, now)) && Distinct(lh)
    ensures Mounted(base, a) && |lh| < WORDS && |lh| < a.size && forall b :: b in lh ==> b < |now|
  {
    forall b | b in lh ensures b < |now| {
      assert b in Pinned(lh, now);
    }
  }

  /** The code reads buffers and log blocks as it goes; what it writes is the planned write. */
  lemma NextWriteIsPlanned(s: State)
    requires Inv(s) && CommitNext(s).Some?
    ensures CanCommit(s.base, s.area, s.lh, Pinned(s.lh, Now(s)))
    ensures NextWrite(s) == CommitWrite(s.base, s.area, s.lh, Pinned(s.lh, Now(s)), s.phase.done)
  {
    hide CanCommit, CommitInv, TraceInv, HeaderInv, CacheInv, HomeInv, Loggable, TraceShape, Header, OpsInv;
    var n, k := |s.lh|, s.phase.done;
    CommitReads(k, s.disk, s.base, s.area, s.lh, Now(s), Committed(s));
    CommitCan(k, s.disk, s.base, s.area, s.lh, Now(s), Committed(s));
    if k < n {
      BufferCurrent(s.cache, s.ops, s.lh, s.phase, Now(s), s.lh[k]);
    }
  }

  lemma InstallIsCurrent(k: nat, cache: map<nat, Buf>, base: Disk, a: Area, lh: seq<nat>, now: Disk)
    requires CanCommit(base, a, lh, Pinned(lh, now)) && |lh| < k <= 2 * |lh| && lh[k - |lh| - 1] in cache
    ensures InstallsCurrent(k, cache, lh, now, CommitWrite(base, a, lh, Pinned(lh, now), k))
  {
    assert lh[k - |lh| - 1] in Pinned(lh, now);
  }

  /** A write of `install_trans` brings the home block of a cached buffer up to date. */
  ghost predicate InstallsHome(k: nat, lh: seq<nat>, now: Disk, w: Write) {
    |lh| < k <= 2 * |lh| && w.block == lh[k - |lh| - 1] && w.block < |now| && w.data == now[w.block]
  }

  ghost predicate InstallsCurrent(k: nat, cache: map<nat, Buf>, lh: seq<nat>, now: Disk, w: Write) {
    InstallsHome(k, lh, now, w) && Distinct(lh) && w.block in cache
  }

  lemma CommitLogged(k: nat, disk: Disk, base: Disk, a: Area, lh: seq<nat>, now: Disk, committed: Disk, w: Write,
        committed': Disk)
    requires CommitInv(k, disk, base, a, lh, now, committed) && k <= |lh|
    requires w == CommitWrite(base, a, lh, Pinned(lh, now), k)
    requires if k < |lh| then committed' == committed else committed' == now
    ensures w.block < |disk| && a.Holds(w.block) && (w.block == a.start ==> |w.data| == WORDS)
    ensures CommitInv(k + 1, disk[w.block := w.data], base, a, lh, now, committed')
    ensures HomeInv(disk, a, lh, Committing(k), now) ==> HomeInv(disk[w.block := w.data], a, lh, Committing(k + 1), now)
  {
    CommitStep(base, a, lh, Pinned(lh, now), k);
  }

  lemma CommitInstalls(k: nat, disk: Disk, base: Disk, a: Area, lh: seq<nat>, now: Disk, committed: Disk, w: Write)
    requires CommitInv(k, disk, base, a, lh, now, committed) && InstallsHome(k, lh, now, w)
    requires HomeInv(disk, a, lh, Committing(k), now)
    ensures w.block < |disk|
    ensures CommitInv(k + 1, disk[w.block := w.data], base, a, lh, now, committed)
    ensures HomeInv(disk[w.block := w.data], a, lh, Committing(k + 1), now)
  {
    PlannedInstall(k, base, a, lh, now, w);
    hide CommitWrite;
    CommitStep(base, a, lh, Pinned(lh, now), k);
  }

  lemma PlannedInstall(k: nat, base: Disk, a: Area, lh: seq<nat>, now: Disk, w: Write)
    requires CanCommit(base, a, lh, Pinned(lh, now)) && InstallsHome(k, lh, now, w)
    ensures w == CommitWrite(base, a, lh, Pinned(lh, now), k)
  {
    hide Header, Loggable;
    assert lh[k - |lh| - 1] in Pinned(lh, now);
  }

  lemma InstallCache(k: nat, cache: map<nat, Buf>, lh: seq<nat>, now: Disk, w: Write)
    requires CacheInv(cache, [], lh, Committing(k), now) && InstallsCurrent(k, cache, lh, now, w)
    ensures CacheInv(cache[w.block := cache[w.block].(data := w.data, dirty := false)], [], lh, Committing(k + 1), now)
  {
    IndexOfDistinct(lh, k - |lh| - 1);
  }

  lemma CommitEnds(disk: Disk, base: Disk, a: Area, lh: seq<nat>, now: Disk, committed: Disk, w: Write)
    requires CommitInv(2 * |lh| + 1, disk, base, a, lh, now, committed)
    requires HomeInv(disk, a, lh, Committing(2 * |lh| + 1), now)
    requires w == CommitWrite(base, a, lh, Pinned(lh, now), 2 * |lh| + 1)
    ensures w.block < |disk| && a.Holds(w.block) && |w.data| == WORDS
    ensures Idle(disk[w.block := w.data], a, committed)
    ensures HomeInv(disk[w.block := w.data], a, [], Running, now)
  {
  }

  lemma CommitEndsCache(cache: map<nat, Buf>, lh: seq<nat>, now: Disk)
    requires CacheInv(cache, [], lh, Committing(2 * |lh| + 1), now)
    ensures CacheInv(cache, [], [], Running, now)
  {
  }

  lemma CrashInv(s: State)
    requires Inv(s)
    ensures Inv(CrashNow(s))
  {
    Recoverable(s);
    CrashHistory(s);
  }

  lemma CrashHistory(s: State)
    requires Shape(s) && Intact(s.disk, s.area) && TraceInv(s.trace, s.durable, s.ops, s.nextId)
    ensures var t := CrashNow(s);
            && Shape(t) && Now(t) == Committed(t) == Committed(s)
            && TraceInv(t.trace, t.durable, t.ops, t.nextId)
            && RecoverState(s.disk, s.area, 0) == s.disk
  {
    assert s.trace[..s.durable][..s.durable] == s.trace[..s.durable];
  }

  lemma RecoverInv(s: State)
    requires Inv(s) && RecoverNext(s).Some?
    ensures Inv(RecoverNext(s).value)
  {
    RecoveryAdvance(s.phase.done, s.disk, s.base, s.area, Committed(s));
    assert s.trace[..s.durable] == s.trace;
  }

  lemma RecoveryAdvance(k: nat, disk: Disk, base: Disk, a: Area, committed: Disk)
    requires RecoveryInv(k, disk, base, a, committed)
    ensures Mounted(disk, a) && disk[a.start][0] < WORDS && disk[a.start][0] < a.size
    ensures RecoverLength(disk, a) == RecoverLength(base, a)
    ensures var w := RecoverWrite(disk, a, k);
            && w.block < |disk|
            && var d := disk[w.block := w.data];
               if k + 1 == RecoverLength(base, a) then Idle(d, a, committed)
               else RecoveryInv(k + 1, d, base, a, committed)
  {
    RecoverNextWrite(base, a, k);
    RecoverStep(base, a, k);
    RecoverView(base, a, k + 1);
  }

  /** Reading header and log block from the disk as it is gives the planned write. */
  lemma RecoverNextWrite(base: Disk, a: Area, k: nat)
    requires Intact(base, a) && k < RecoverLength(base, a)
    ensures var d := RecoverState(base, a, k);
            d[a.start] == base[a.start] && RecoverWrite(d, a, k) == RecoverWrite(base, a, k)
  {
    var d := RecoverState(base, a, k);
    assert d[a.start] == base[a.start];
    if k < |Listed(d[a.start])| {
      assert a.Holds(a.start + 1 + k);
    }
  }

  // ----------------------------------------------------------------- runs

  lemma DoInv(s: State, step: Step)
    requires Inv(s) && Do(s, step).Some?
    ensures Inv(Do(s, step).value)
  {
    hide Inv;
    match step
    case Begin => BeginInv(s);
    case Bread(b, who) => BreadInv(s, b, who);
    case Modify(b, data) => ModifyInv(s, b, data);
    case LogTest(b) => LogTestInv(s, b);
    case LogWrite(b) => LogWriteInv(s, b);
    case Brelse(b) => BrelseInv(s, b);
    case Recycle(b) => RecycleInv(s, b);
    case End(i) => EndInv(s, i);
    case CommitBlock => CommitNextInv(s);
    case Crash => CrashInv(s);
    case RecoverBlock => RecoverInv(s);
  }

  /** No step takes back a committed `log_write`. */
  lemma Durability(s: State, step: Step)
    requires Inv(s) && Do(s, step).Some?
    ensures var t := Do(s, step).value;
            && t.area == s.area && t.origin == s.origin
            && s.durable <= t.durable <= |t.trace|
            && t.trace[..s.durable] == s.trace[..s.durable]
  {
    hide DiskInv, OpsInv, TraceInv, HeaderInv, CacheInv, HomeInv, Loggable, TraceShape;
  }

  ghost function Run(s: State, steps: seq<Step>): (r: Option<State>)
    requires Inv(s)
    ensures r.Some? ==> Inv(r.value)
    decreases |steps|
  {
    hide Inv;
    if steps == [] then Some(s)
    else
      var next := Do(s, steps[0]);
      if next.None? then None
      else
        DoInv(s, steps[0]);
        Run(next.value, steps[1..])
  }

  /** Over any run, what was committed stays committed. */
  lemma {:induction false} RunDurability(s: State, steps: seq<Step>)
    requires Inv(s) && Run(s, steps).Some?
    ensures var t := Run(s, steps).value;
            && t.area == s.area && t.origin == s.origin
            && s.durable <= t.durable <= |t.trace|
            && s.durable <= |s.trace| && t.trace[..s.durable] == s.trace[..s.durable]
    decreases |steps|
  {
    hide DiskInv, OpsInv, TraceInv, HeaderInv, CacheInv, HomeInv, Loggable, TraceShape;
    if steps != [] {
      var next := Do(s, steps[0]).value;
      DoInv(s, steps[0]);
      Durability(s, steps[0]);
      RunDurability(next, steps[1..]);
      var t := Run(s, steps).value;
      assert t.trace[..s.durable] == t.trace[..next.durable][..s.durable];
    }
  }

  /** A file system just mounted with an empty log. */
  ghost predicate Boot(s: State) {
    && Mounted(s.disk, s.area) && s.disk[s.area.start][0] == 0
    && s.origin == s.disk == s.base && s.cache == map[] && s.lh == [] && s.ops == []
    && s.phase == Running && s.trace == [] && s.durable == 0
  }

  lemma BootInv(s: State)
    requires Boot(s)
    ensures Inv(s)
  {
  }

  /** Nobody outstanding means nothing left to commit: the last `end_op` has started a commit. */
  predicate Settled(s: State) { s.phase.Running? && s.ops == [] ==> s.lh == [] }

  lemma SettledKept(s: State, step: Step)
    requires Inv(s) && Settled(s) && Do(s, step).Some?
    ensures Settled(Do(s, step).value)
  {
    hide CommitInv, RecoveryInv, OpsInv, TraceInv, HeaderInv, CacheInv, HomeInv, Loggable, TraceShape, NextWrite;
  }

  lemma {:induction false} RunSettled(s: State, steps: seq<Step>)
    requires Inv(s) && Settled(s) && Run(s, steps).Some?
    ensures Settled(Run(s, steps).value)
    decreases |steps|
  {
    hide DiskInv, OpsInv, TraceInv, HeaderInv, CacheInv, HomeInv, Shape, Settled, Do;
    if steps != [] {
      DoInv(s, steps[0]);
      SettledKept(s, steps[0]);
      RunSettled(Do(s, steps[0]).value, steps[1..]);
    }
  }

  /** A transaction is whole: none of its operations is outstanding or has writes outside it. */
  ghost predicate WholeOperations(s: State) {
    && s.durable <= |s.trace|
    && (forall i :: 0 <= i < s.durable ==> !Open(s.ops, s.trace[i].op))
    && (forall i, j :: 0 <= i < s.durable <= j < |s.trace| ==> s.trace[i].op != s.trace[j].op)
  }

  /**
   Group commit. After any run, including any number of crashes during operations, during `commit`
   and during recovery: a recovery of the disk gives exactly the first `durable` of all
   `log_write`s; these are whole operations; no operation is outstanding while a commit is under
   way; and when nobody is outstanding and no commit is under way, every `log_write` is at home.
   */
  lemma GroupCommit(s0: State, steps: seq<Step>)
    requires Boot(s0) && Inv(s0) && Run(s0, steps).Some?
    ensures var s := Run(s0, steps).value;
            && Shape(s) && s.area == s0.area && s.origin == s0.disk
            && Intact(s.disk, s.area)
            && SameHome(View(s.disk, s.area), Replay(s.origin, s.trace[..s.durable]), s.area)
            && WholeOperations(s)
            && (s.phase.Committing? ==> s.ops == [])
            && (s.phase.Running? && s.ops == [] ==> s.lh == [])
            && (s.phase.Running? && s.lh == [] ==>
                  s.durable == |s.trace| && SameHome(s.disk, Replay(s.origin, s.trace), s.area))
  {
    var s := Run(s0, steps).value;
    RunSettled(s0, steps);
    RunDurability(s0, steps);
    Recoverable(s);
    if s.phase.Running? && s.lh == [] {
      assert s.durable == |s.trace|;
      assert s.trace[..s.durable] == s.trace;
    }
    hide OpsInv, CacheInv, HomeInv, Loggable;
  }

  /** Recovery always has a next write, and its last one leaves the committed blocks in place. */
  lemma RecoveryFinishes(s: State)
    requires Inv(s) && s.phase.Recovering?
    ensures RecoverNext(s).Some?
    ensures var t := RecoverNext(s).value;
            if s.phase.done + 1 < RecoverLength(s.disk, s.area)
            then t.phase == Recovering(s.phase.done + 1) && t.disk[t.area.start] == s.disk[s.area.start]
            else t.phase == Running && SameHome(t.disk, Committed(s), s.area)
  {
    RecoverNextWrite(s.base, s.area, s.phase.done);
    RecoveryAdvance(s.phase.done, s.disk, s.base, s.area, Committed(s));
  }

  /** The block `commit` has to lock next is always cached; only a reader can make it wait. */
  lemma CommitProceeds(s: State)
    requires Inv(s) && s.phase.Committing?
    ensures var b := Needed(s);
            && (b.Some? ==> b.value in s.cache)
            && (CommitNext(s).None? <==> b.Some? && s.cache[b.value].user == Reader)
  {
    hide CommitInv, HomeInv, TraceInv, HeaderInv, OpsInv, TraceShape, NextWrite, CacheInv, Header, Replay;
    var b := Needed(s);
    if b.Some? {
      NeededBuffer(s.phase.done, s.cache, s.lh, Now(s));
    }
  }

  lemma NeededBuffer(k: nat, cache: map<nat, Buf>, lh: seq<nat>, now: Disk)
    requires CacheInv(cache, [], lh, Committing(k), now) && Distinct(lh) && k <= 2 * |lh| && k != |lh|
    ensures var b := if k < |lh| then lh[k] else lh[k - |lh| - 1];
            b in cache && !cache[b].user.Writer?
  {
    var b := if k < |lh| then lh[k] else lh[k - |lh| - 1];
    if k > |lh| {
      IndexOfDistinct(lh, k - |lh| - 1);
    }
    assert Pending(lh, Committing(k), b);
    assert BufInv(b, cache[b], [], lh, Committing(k), now);
  }
}
