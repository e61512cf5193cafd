/**
 Pipes: a ring of PIPESIZE bytes whose 32-bit counters wrap, and any number of readers and writers
 that hold p->lock, sleep on the counters and wake each other.
 */
module Pipe {

  const PIPESIZE := 512
  const WORD := 0x1_0000_0000
  const NOBODY := -1

  type Byte = int

  // ------------------------------------------------------------- the ring

  datatype Ring = Ring(data: seq<Byte>, nread: int, nwrite: int)

  predicate Full(r: Ring) { r.nwrite == (r.nread + PIPESIZE) % WORD }

  predicate Empty(r: Ring) { r.nread == r.nwrite }

  function Put(r: Ring, b: Byte): Ring
    requires |r.data| == PIPESIZE
  {
    Ring(r.data[r.nwrite % PIPESIZE := b], r.nread, (r.nwrite + 1) % WORD)
  }

  function Next(r: Ring): Byte
    requires |r.data| == PIPESIZE
  {
    r.data[r.nread % PIPESIZE]
  }

  function Drop(r: Ring): Ring { r.(nread := (r.nread + 1) % WORD) }

  /** The ring after the bytes `sent` have been written and the bytes `got` read. */
  ghost predicate Carries(r: Ring, sent: seq<Byte>, got: seq<Byte>) {
    && |r.data| == PIPESIZE && got <= sent && |sent| - |got| <= PIPESIZE
    && r.nread == |got| % WORD && r.nwrite == |sent| % WORD
    && forall k {:trigger sent[k]} :: |got| <= k < |sent| ==> r.data[k % PIPESIZE] == sent[k]
  }

  lemma AddWord(q: nat, m: nat, i: nat)
    requires m < WORD
    ensures (q * WORD + m + i) % WORD == (m + i) % WORD
    decreases q
  {
    if q > 0 {
      AddWord(q - 1, m, i);
      assert (q - 1) * WORD + m + i + WORD == q * WORD + m + i;
    }
  }

  lemma AddSlots(c: nat, m: nat)
    ensures (c * PIPESIZE + m) % PIPESIZE == m % PIPESIZE
    decreases c
  {
    if c > 0 {
      AddSlots(c - 1, m);
      assert (c - 1) * PIPESIZE + m + PIPESIZE == c * PIPESIZE + m;
    }
  }

  lemma WrapStep(n: nat)
    ensures (n % WORD + 1) % WORD == (n + 1) % WORD && n % WORD % PIPESIZE == n % PIPESIZE
    ensures (n % WORD + PIPESIZE) % WORD == (n + PIPESIZE) % WORD
  {
    var q, m := n / WORD, n % WORD;
    assert n == q * WORD + m;
    AddWord(q, m, 1);
    AddWord(q, m, PIPESIZE);
    AddSlots(q * 0x80_0000, m);
  }

  lemma SameSlot(j: nat, k: nat)
    requires j < k < j + PIPESIZE
    ensures j % PIPESIZE != k % PIPESIZE
  {
  }

  /** The tests of the code are right in spite of the wrap. */
  lemma {:induction false} Tests(r: Ring, sent: seq<Byte>, got: seq<Byte>)
    requires Carries(r, sent, got)
    ensures |r.data| == PIPESIZE
    ensures Full(r) <==> |sent| - |got| == PIPESIZE
    ensures Empty(r) <==> sent == got
  {
    WrapStep(|got|);
    SameWord(|got|, |sent|);
  }

  lemma SameWord(j: nat, k: nat)
    requires j <= k <= j + PIPESIZE
    ensures j % WORD == k % WORD <==> j == k
    ensures k % WORD == (j + PIPESIZE) % WORD <==> k == j + PIPESIZE
  {
  }

  lemma {:induction false} PutCarries(r: Ring, sent: seq<Byte>, got: seq<Byte>, b: Byte)
    requires Carries(r, sent, got) && !Full(r)
    ensures Carries(Put(r, b), sent + [b], got)
  {
    Tests(r, sent, got);
    WrapStep(|sent|);
    var t := sent + [b];
    forall k | |got| <= k < |t|
      ensures Put(r, b).data[k % PIPESIZE] == t[k]
    {
      if k < |sent| {
        SameSlot(k, |sent|);
        assert t[k] == sent[k];
      }
    }
  }

  lemma {:induction false} DropCarries(r: Ring, sent: seq<Byte>, got: seq<Byte>)
    requires Carries(r, sent, got) && !Empty(r)
    ensures Carries(Drop(r), sent, got + [Next(r)])
  {
    Tests(r, sent, got);
    WrapStep(|got|);
    assert sent[|got|] == r.data[|got| % PIPESIZE];
    assert got + [Next(r)] == sent[..|got| + 1];
  }

  // ---------------------------------------------------------- the machine

  /** Where a process is. */
  datatype Pc =
    | Idle
    | Putting(bytes: seq<Byte>, i: int)       // in pipewrite, holds p->lock
    | WriteAsleep(bytes: seq<Byte>, i: int)   // sleeps on &p->nwrite
    | WriteWoken(bytes: seq<Byte>, i: int)    // RUNNABLE, will take p->lock
    | Testing(n: int)                         // before piperead's copy, holds p->lock
    | ReadAsleep(n: int)                      // sleeps on &p->nread
    | ReadWoken(n: int)
    | Taking(n: int, i: int)                  // in piperead's copy, holds p->lock

  /**
   `sent` and `got` are all bytes written to and read from the ring so far. `due`: the lock's holder
   has put bytes since the last wakeup of readers. `owed`: a killed writer left sleeping readers without
   that wakeup. These four are history: no step decides anything by them.
   */
  datatype State = State(ring: Ring, sent: seq<Byte>, got: seq<Byte>, readopen: bool, writeopen: bool,
                         lock: int, pc: seq<Pc>, due: bool, owed: bool)

  datatype Step =
    | BeginWrite(p: int, bytes: seq<Byte>)
    | PutByte(p: int)
    | SleepFull(p: int)                  // wakeup(&p->nread); sleep(&p->nwrite, &p->lock)
    | AbortWrite(p: int, killed: bool)
    | EndWrite(p: int)                   // wakeup(&p->nread); release
    | ResumeWrite(p: int)
    | BeginRead(p: int, n: int)
    | SleepEmpty(p: int)
    | AbortRead(p: int)                  // killed
    | BeginCopy(p: int)
    | TakeByte(p: int)
    | EndRead(p: int)                    // wakeup(&p->nwrite); release
    | ResumeRead(p: int)
    | CloseWrite(p: int)                 // the last close of the write end; no writer is left
    | CloseRead(p: int)
    | Signal(p: int)                     // kill wakes p

  predicate Writes(pc: Pc) { pc.Putting? || pc.WriteAsleep? || pc.WriteWoken? }

  predicate Reads(pc: Pc) { pc.Testing? || pc.ReadAsleep? || pc.ReadWoken? || pc.Taking? }

  predicate Holds(pc: Pc) { pc.Putting? || pc.Testing? || pc.Taking? }

  predicate May(s: State, step: Step) {
    && 0 <= step.p < |s.pc| && |s.ring.data| == PIPESIZE
    && var pc := s.pc[step.p];
       match step
       case BeginWrite(_, _) => pc.Idle? && s.writeopen && s.lock == NOBODY
       case PutByte(_) => pc.Putting? && 0 <= pc.i < |pc.bytes| && !Full(s.ring)
       case SleepFull(_) => pc.Putting? && pc.i < |pc.bytes| && Full(s.ring) && s.readopen
       case AbortWrite(_, killed) => pc.Putting? && pc.i < |pc.bytes| && Full(s.ring) && (killed || !s.readopen)
       case EndWrite(_) => pc.Putting? && pc.i == |pc.bytes|
       case ResumeWrite(_) => pc.WriteWoken? && s.lock == NOBODY
       case BeginRead(_, _) => pc.Idle? && s.readopen && s.lock == NOBODY
       case SleepEmpty(_) => pc.Testing? && Empty(s.ring) && s.writeopen
       case AbortRead(_) => pc.Testing? && Empty(s.ring) && s.writeopen
       case BeginCopy(_) => pc.Testing? && !(Empty(s.ring) && s.writeopen)
       case TakeByte(_) => pc.Taking? && pc.i < pc.n && !Empty(s.ring)
       case EndRead(_) => pc.Taking? && (pc.i >= pc.n || Empty(s.ring))
       case ResumeRead(_) => pc.ReadWoken? && s.lock == NOBODY
       case CloseWrite(_) => s.lock == NOBODY && forall q :: 0 <= q < |s.pc| ==> !Writes(s.pc[q])
       case CloseRead(_) => s.lock == NOBODY && forall q :: 0 <= q < |s.pc| ==> !Reads(s.pc[q])
       case Signal(_) => pc.WriteAsleep? || pc.ReadAsleep?
  }

  function Awake(pc: Pc, readers: bool): Pc {
    match pc
    case ReadAsleep(n) => if readers then ReadWoken(n) else pc
    case WriteAsleep(bytes, i) => if readers then pc else WriteWoken(bytes, i)
    case _ => pc
  }

  /** `wakeup` of the readers or of the writers. */
  function Wakeup(pc: seq<Pc>, readers: bool): (r: seq<Pc>)
    ensures |r| == |pc|
  {
    seq(|pc|, i requires 0 <= i < |pc| => Awake(pc[i], readers))
  }

  function Goto(s: State, p: int, pc: Pc, lock: int): State
    requires 0 <= p < |s.pc|
  {
    s.(pc := s.pc[p := pc], lock := lock)
  }

  /** A wakeup of the readers settles what is due to them. */
  function WakeReaders(s: State): (t: State)
    ensures |t.pc| == |s.pc|
  {
    s.(pc := Wakeup(s.pc, true), due := false, owed := false)
  }

  function WakeWriters(s: State): (t: State)
    ensures |t.pc| == |s.pc|
  {
    s.(pc := Wakeup(s.pc, false))
  }

  /** A writer that waits for room is killed while a reader sleeps. */
  predicate Strands(s: State, step: Step) {
    step.AbortWrite? && step.killed && exists q :: 0 <= q < |s.pc| && s.pc[q].ReadAsleep?
  }

  function Do(s: State, step: Step): State
    requires May(s, step)
  {
    var p := step.p;
    match step
    case BeginWrite(_, bytes) => Goto(s, p, Putting(bytes, 0), p)
    case PutByte(_) =>
      var b := s.pc[p].bytes[s.pc[p].i];
      Goto(s, p, Putting(s.pc[p].bytes, s.pc[p].i + 1), p).(ring := Put(s.ring, b), sent := s.sent + [b], due := true)
    case SleepFull(_) => Goto(WakeReaders(s), p, WriteAsleep(s.pc[p].bytes, s.pc[p].i), NOBODY)
    case AbortWrite(_, _) => Goto(s, p, Idle, NOBODY).(due := false, owed := s.owed || Strands(s, step))
    case EndWrite(_) => Goto(WakeReaders(s), p, Idle, NOBODY)
    case ResumeWrite(_) => Goto(s, p, Putting(s.pc[p].bytes, s.pc[p].i), p)
    case BeginRead(_, n) => Goto(s, p, Testing(n), p)
    case SleepEmpty(_) => Goto(s, p, ReadAsleep(s.pc[p].n), NOBODY)
    case AbortRead(_) => Goto(s, p, Idle, NOBODY)
    case BeginCopy(_) => Goto(s, p, Taking(s.pc[p].n, 0), p)
    case TakeByte(_) =>
      Goto(s, p, Taking(s.pc[p].n, s.pc[p].i + 1), p).(ring := Drop(s.ring), got := s.got + [Next(s.ring)])
    case EndRead(_) => Goto(WakeWriters(s), p, Idle, NOBODY)
    case ResumeRead(_) => Goto(s, p, Testing(s.pc[p].n), p)
    case CloseWrite(_) => WakeReaders(s).(writeopen := false)
    case CloseRead(_) => WakeWriters(s).(readopen := false)
    case Signal(_) => Goto(s, p, Awake(s.pc[p], s.pc[p].ReadAsleep?), s.lock)
  }

  // ------------------------------------------------------------ invariant

  /** Why a sleeper is right to sleep, or who will wake it. */
  predicate PcOk(s: State, p: int)
    requires 0 <= p < |s.pc|
  {
    && (Holds(s.pc[p]) <==> s.lock == p)
    && (Writes(s.pc[p]) ==> s.writeopen) && (Reads(s.pc[p]) ==> s.readopen)
    && (s.pc[p].Putting? ==> 0 <= s.pc[p].i <= |s.pc[p].bytes|)
    && (s.pc[p].WriteAsleep? || s.pc[p].WriteWoken? ==> 0 <= s.pc[p].i < |s.pc[p].bytes|)
    && (s.pc[p].Taking? ==> 0 <= s.pc[p].i)
    && (s.pc[p].ReadAsleep? ==> s.owed || s.due || (Empty(s.ring) && s.writeopen))
    && (s.pc[p].WriteAsleep? ==>
          (Full(s.ring) && s.readopen) || (0 <= s.lock < |s.pc| && s.pc[s.lock].Taking? && s.pc[s.lock].i > 0))
  }

  ghost predicate Inv(s: State) {
    && Carries(s.ring, s.sent, s.got)
    && (s.lock == NOBODY || 0 <= s.lock < |s.pc|)
    && (s.due ==> s.lock != NOBODY && s.pc[s.lock].Putting?)
    && forall p :: 0 <= p < |s.pc| ==> PcOk(s, p)
  }

  /** `pipealloc` */
  ghost predicate Start(s: State) {
    && |s.ring.data| == PIPESIZE && s.ring.nread == s.ring.nwrite == 0 && s.sent == s.got == []
    && s.readopen && s.writeopen && s.lock == NOBODY && !s.due && !s.owed
    && forall p :: 0 <= p < |s.pc| ==> s.pc[p].Idle?
  }

  lemma {:induction false} DoCarries(s: State, step: Step)
    requires Inv(s) && May(s, step)
    ensures var t := Do(s, step); Carries(t.ring, t.sent, t.got)
  {
    hide Carries, PcOk;
    match step
    case PutByte(p) => PutCarries(s.ring, s.sent, s.got, s.pc[p].bytes[s.pc[p].i]);
    case TakeByte(p) => DropCarries(s.ring, s.sent, s.got);
    case _ =>
  }

  lemma {:induction false} DoInv(s: State, step: Step)
    requires Inv(s) && May(s, step)
    ensures Inv(Do(s, step))
  {
    hide Carries, Put, Drop;
    DoCarries(s, step);
    var t := Do(s, step);
    assert PcOk(s, step.p);
    NotBoth(s.ring, s.sent, s.got);
    forall p | 0 <= p < |t.pc|
      ensures PcOk(t, p)
    {
      assert PcOk(s, p);
    }
  }

  /** A ring that is full is not empty. */
  lemma NotBoth(r: Ring, sent: seq<Byte>, got: seq<Byte>)
    requires Carries(r, sent, got)
    ensures !(Full(r) && Empty(r))
  {
    Tests(r, sent, got);
  }

  // ----------------------------------------------------------------- runs

  ghost predicate Possible(s: State, steps: seq<Step>)
    decreases |steps|
  {
    steps == [] || (May(s, steps[0]) && Possible(Do(s, steps[0]), steps[1..]))
  }

  ghost function After(s: State, steps: seq<Step>): State
    requires Possible(s, steps)
    decreases |steps|
  {
    if steps == [] then s else After(Do(s, steps[0]), steps[1..])
  }

  lemma {:induction false} RunInv(s: State, steps: seq<Step>)
    requires Inv(s) && Possible(s, steps)
    ensures Inv(After(s, steps)) && |After(s, steps).pc| == |s.pc|
    decreases |steps|
  {
    hide Inv, May, Do;
    if steps != [] {
      DoInv(s, steps[0]);
      SamePcs(s, steps[0]);
      RunInv(Do(s, steps[0]), steps[1..]);
    }
  }

  lemma SamePcs(s: State, step: Step)
    requires May(s, step)
    ensures |Do(s, step).pc| == |s.pc|
  {
  }

  /**
   First in, first out, for any readers and writers and however often the counters wrap: the bytes read
   are a prefix of the bytes written, and at most PIPESIZE are in between.
   */
  lemma {:induction false} Fifo(s: State, steps: seq<Step>)
    requires Start(s) && Possible(s, steps)
    ensures var t := After(s, steps); t.got <= t.sent && |t.sent| - |t.got| <= PIPESIZE
  {
    hide Possible, After;
    RunInv(s, steps);
  }

  /** A reader sleeps although there are bytes, or nobody will write any. */
  predicate StrandedReader(s: State, p: int) {
    0 <= p < |s.pc| && s.pc[p].ReadAsleep? && !(Empty(s.ring) && s.writeopen)
  }

  predicate StrandedWriter(s: State, p: int) {
    0 <= p < |s.pc| && s.pc[p].WriteAsleep? && !(Full(s.ring) && s.readopen)
  }

  ghost predicate ReaderStranded(s: State) {
    s.lock == NOBODY && exists p :: StrandedReader(s, p)
  }

  /** Some state of the run has the lock free and a reader stranded. */
  ghost predicate EverStranded(s: State, steps: seq<Step>)
    requires Possible(s, steps)
    decreases |steps|
  {
    ReaderStranded(s) || (steps != [] && EverStranded(Do(s, steps[0]), steps[1..]))
  }

  /** Some step of the run kills a writer that waits for room while a reader sleeps. */
  ghost predicate EverStrands(s: State, steps: seq<Step>)
    requires Possible(s, steps)
    decreases |steps|
  {
    steps != [] && (Strands(s, steps[0]) || EverStrands(Do(s, steps[0]), steps[1..]))
  }

  /** Without such a step nothing is owed to readers. */
  lemma {:induction false} NotOwed(s: State, steps: seq<Step>)
    requires !s.owed && Possible(s, steps) && !EverStrands(s, steps)
    ensures !After(s, steps).owed
    decreases |steps|
  {
    hide May, Put, Drop;
    if steps != [] {
      NotOwed(Do(s, steps[0]), steps[1..]);
    }
  }

  lemma {:induction false} NothingStranded(s: State, steps: seq<Step>)
    requires Inv(s) && !s.owed && Possible(s, steps) && !EverStrands(s, steps)
    ensures !EverStranded(s, steps)
    decreases |steps|
  {
    hide May, Carries, Put, Drop, Empty, Full, ReaderStranded;
    NobodyNow(s);
    if steps != [] {
      DoInv(s, steps[0]);
      NothingStranded(Do(s, steps[0]), steps[1..]);
    }
  }

  lemma NobodyNow(s: State)
    requires Inv(s) && !s.owed
    ensures !ReaderStranded(s)
  {
    forall p | 0 <= p < |s.pc|
      ensures s.lock == NOBODY ==> !StrandedReader(s, p)
    {
      assert PcOk(s, p);
    }
  }

  lemma {:induction false} SomeoneStranded(s: State, steps: seq<Step>)
    requires Inv(s) && Possible(s, steps) && EverStrands(s, steps)
    ensures EverStranded(s, steps)
    decreases |steps|
  {
    hide May, Carries, Put, Drop, Empty, Full, Strands;
    if Strands(s, steps[0]) {
      KilledWriterStrands(s, steps[0]);
      assert EverStranded(Do(s, steps[0]), steps[1..]);
    } else {
      DoInv(s, steps[0]);
      SomeoneStranded(Do(s, steps[0]), steps[1..]);
    }
  }

  /** The readers that sleep when such a writer is killed are stranded on a full pipe. */
  lemma {:induction false} KilledWriterStrands(s: State, step: Step)
    requires Inv(s) && May(s, step) && Strands(s, step)
    ensures ReaderStranded(Do(s, step)) && Full(Do(s, step).ring)
  {
    hide Carries;
    var q :| 0 <= q < |s.pc| && s.pc[q].ReadAsleep?;
    assert PcOk(s, step.p);
    NotBoth(s.ring, s.sent, s.got);
    assert StrandedReader(Do(s, step), q);
  }

  /**
   Exactly when a run strands a reader, asleep with the lock free on a pipe that has bytes or no write
   end: when it kills a writer that waits for room while some reader sleeps.
   */
  lemma {:induction false} StrandedExactly(s: State, steps: seq<Step>)
    requires Start(s) && Possible(s, steps)
    ensures EverStranded(s, steps) <==> EverStrands(s, steps)
  {
    hide EverStranded, EverStrands, Possible;
    StartInv(s);
    if EverStrands(s, steps) {
      SomeoneStranded(s, steps);
    } else {
      NothingStranded(s, steps);
    }
  }

  /** Writers are never stranded: with the lock free, one sleeps only on a full pipe with a read end. */
  lemma {:induction false} NoWriterStranded(s: State, steps: seq<Step>, p: int)
    requires Start(s) && Possible(s, steps) && After(s, steps).lock == NOBODY
    ensures !StrandedWriter(After(s, steps), p)
  {
    hide Possible, After, Empty, Full;
    RunInv(s, steps);
    var t := After(s, steps);
    if 0 <= p < |t.pc| {
      assert PcOk(t, p);
    }
  }

  /** So, without such a killing, readers and writers never all wait for each other. */
  lemma {:induction false} NoDeadlock(s: State, steps: seq<Step>, p: int, q: int)
    requires Start(s) && Possible(s, steps) && !EverStrands(s, steps)
    requires After(s, steps).lock == NOBODY && 0 <= p < |After(s, steps).pc| && 0 <= q < |After(s, steps).pc|
    ensures !(After(s, steps).pc[p].ReadAsleep? && After(s, steps).pc[q].WriteAsleep?)
  {
    hide Possible, After, EverStrands;
    RunInv(s, steps);
    NotOwed(s, steps);
    var t := After(s, steps);
    assert PcOk(t, p) && PcOk(t, q);
    NotBoth(t.ring, t.sent, t.got);
  }

  /** n bytes put by process p, one after another. */
  function Puts(p: int, n: nat): seq<Step> {
    if n == 0 then [] else [PutByte(p)] + Puts(p, n - 1)
  }

  lemma {:induction false} PutsRun(s: State, p: int, n: nat, later: seq<Step>)
    requires Inv(s) && 0 <= p < |s.pc| && s.pc[p].Putting? && 0 <= s.pc[p].i && s.pc[p].i + n <= |s.pc[p].bytes|
    requires |s.sent| - |s.got| + n <= PIPESIZE
    ensures var t := Wrote(s, p, n);
            Inv(t) && (Possible(s, Puts(p, n) + later) <==> Possible(t, later))
            && (Possible(t, later) ==> After(s, Puts(p, n) + later) == After(t, later))
    decreases n
  {
    hide Inv, May, Carries, Put, Do, Wrote;
    RingSize(s);
    if n == 0 {
      assert Puts(p, n) + later == later;
      WroteNone(s, p);
    } else {
      MayPut(s, p);
      DoInv(s, PutByte(p));
      WroteOne(s, p, n);
      var steps := Puts(p, n) + later;
      assert steps[0] == PutByte(p) && steps[1..] == Puts(p, n - 1) + later;
      PutsRun(Do(s, PutByte(p)), p, n - 1, later);
    }
  }

  lemma WroteNone(s: State, p: int)
    requires 0 <= p < |s.pc| && |s.ring.data| == PIPESIZE && s.pc[p].Putting? && 0 <= s.pc[p].i <= |s.pc[p].bytes|
    ensures Wrote(s, p, 0) == s
  {
  }

  lemma WroteOne(s: State, p: int, n: nat)
    requires 0 < n && May(s, PutByte(p)) && s.pc[p].i + n <= |s.pc[p].bytes|
    ensures var t := Do(s, PutByte(p));
            && |t.ring.data| == PIPESIZE && |t.pc| == |s.pc|
            && t.pc[p] == Putting(s.pc[p].bytes, s.pc[p].i + 1) && |t.sent| == |s.sent| + 1 && t.got == s.got
            && Wrote(s, p, n) == Wrote(t, p, n - 1)
  {
  }

  lemma RingSize(s: State)
    requires Inv(s)
    ensures |s.ring.data| == PIPESIZE
  {
  }

  lemma MayPut(s: State, p: int)
    requires Inv(s) && 0 <= p < |s.pc| && s.pc[p].Putting? && s.pc[p].i < |s.pc[p].bytes|
    requires |s.sent| - |s.got| < PIPESIZE
    ensures May(s, PutByte(p))
  {
    Tests(s.ring, s.sent, s.got);
    assert PcOk(s, p);
  }

  /** The state after n more bytes of p. */
  function Wrote(s: State, p: int, n: nat): (t: State)
    requires 0 <= p < |s.pc| && |s.ring.data| == PIPESIZE
    requires s.pc[p].Putting? && 0 <= s.pc[p].i && s.pc[p].i + n <= |s.pc[p].bytes|
    ensures |t.pc| == |s.pc| && t.pc[p] == Putting(s.pc[p].bytes, s.pc[p].i + n)
    ensures |t.sent| == |s.sent| + n && t.got == s.got && t.readopen == s.readopen && t.due == (s.due || n > 0)
    ensures forall q :: 0 <= q < |s.pc| && q != p ==> t.pc[q] == s.pc[q]
    decreases n
  {
    if n == 0 then s
    else
      var b := s.pc[p].bytes[s.pc[p].i];
      Wrote(Goto(s, p, Putting(s.pc[p].bytes, s.pc[p].i + 1), p)
              .(ring := Put(s.ring, b), sent := s.sent + [b], due := true),
            p, n - 1)
  }

  /**
   That happens: reader 0 sleeps on the empty pipe, writer 1 fills it and is killed while it waits for
   room; the lock is free, the pipe is full, and reader 0 still sleeps.
   */
  lemma {:induction false} StrandingRun(s: State, bytes: seq<Byte>)
    requires Start(s) && |s.pc| >= 2 && |bytes| > PIPESIZE
    ensures var steps := [BeginRead(0, 1), SleepEmpty(0), BeginWrite(1, bytes)]
                         + (Puts(1, PIPESIZE) + [AbortWrite(1, true)]);
            && Possible(s, steps) && After(s, steps).lock == NOBODY
            && StrandedReader(After(s, steps), 0) && Full(After(s, steps).ring)
  {
    hide Carries, Puts, Wrote;
    StartInv(s);
    var rest := Puts(1, PIPESIZE) + [AbortWrite(1, true)];
    var a, b, c := BeginRead(0, 1), SleepEmpty(0), BeginWrite(1, bytes);
    var s1 := Do(s, a);
    var s2 := Do(s1, b);
    var s3 := Do(s2, c);
    DoInv(s, a);
    DoInv(s1, b);
    DoInv(s2, c);
    PutsRun(s3, 1, PIPESIZE, [AbortWrite(1, true)]);
    var s4 := Wrote(s3, 1, PIPESIZE);
    Tests(s4.ring, s4.sent, s4.got);
    KilledNow(s4);
    OneStep(s4, AbortWrite(1, true));
    ThreeSteps(s, a, b, c, rest);
    assert [a, b, c] + rest == [BeginRead(0, 1), SleepEmpty(0), BeginWrite(1, bytes)] + rest;
  }

  lemma KilledNow(s: State)
    requires Inv(s) && |s.pc| >= 2 && s.pc[0].ReadAsleep? && May(s, AbortWrite(1, true))
    ensures StrandedReader(Do(s, AbortWrite(1, true)), 0)
  {
    hide Carries;
    assert PcOk(s, 1);
    NotBoth(s.ring, s.sent, s.got);
  }

  lemma StartInv(s: State)
    requires Start(s)
    ensures Inv(s)
  {
  }

  lemma OneStep(s: State, step: Step)
    requires May(s, step)
    ensures Possible(s, [step]) && After(s, [step]) == Do(s, step)
  {
    hide Do, May;
    assert [step][1..] == [];
  }

  lemma ThreeSteps(s: State, a: Step, b: Step, c: Step, rest: seq<Step>)
    requires May(s, a) && May(Do(s, a), b) && May(Do(Do(s, a), b), c)
    requires Possible(Do(Do(Do(s, a), b), c), rest)
    ensures Possible(s, [a, b, c] + rest) && After(s, [a, b, c] + rest) == After(Do(Do(Do(s, a), b), c), rest)
  {
    hide Do, May;
    var s1, s2 := Do(s, a), Do(Do(s, a), b);
    assert ([c] + rest)[1..] == rest && ([c] + rest)[0] == c;
    assert Possible(s2, [c] + rest) && After(s2, [c] + rest) == After(Do(s2, c), rest);
    assert ([b, c] + rest)[1..] == [c] + rest && ([b, c] + rest)[0] == b;
    assert Possible(s1, [b, c] + rest) && After(s1, [b, c] + rest) == After(s2, [c] + rest);
    assert ([a, b, c] + rest)[1..] == [b, c] + rest && ([a, b, c] + rest)[0] == a;
  }

  // ----------------------------------------------------- the code's loops

  /** The data of a pipe as the code keeps it. */
  class Buffer {
    const data: array<Byte>
    var nread: int
    var nwrite: int

    ghost function R(): Ring
      reads this, data
    {
      Ring(data[..], nread, nwrite)
    }

    /** The bytes of addr from i on that fit (the part of pipewrite's loop between two sleeps). */
    method Fill(addr: seq<Byte>, from: int, ghost sent: seq<Byte>, ghost got: seq<Byte>) returns (i: int)
      requires Carries(R(), sent, got) && 0 <= from <= |addr|
      modifies this, data
      ensures from <= i <= |addr| && Carries(R(), sent + addr[from..i], got)
      ensures i < |addr| ==> |sent| + (i - from) - |got| == PIPESIZE
    {
      i := from;
      assert sent + addr[from..from] == sent;
      Tests(R(), sent, got);
      while i < |addr| && nwrite != (nread + PIPESIZE) % WORD
        invariant from <= i <= |addr| && Carries(R(), sent + addr[from..i], got)
      {
        PutCarries(R(), sent + addr[from..i], got, addr[i]);
        ghost var next := Put(R(), addr[i]);
        data[nwrite % PIPESIZE] := addr[i];
        nwrite := (nwrite + 1) % WORD;
        assert R() == next;
        assert sent + addr[from..i] + [addr[i]] == sent + addr[from..i + 1];
        i := i + 1;
      }
      Tests(R(), sent + addr[from..i], got);
    }

    /** piperead's copy of at most n bytes */
    method Drain(n: int, ghost sent: seq<Byte>, ghost got: seq<Byte>) returns (out: seq<Byte>)
      requires Carries(R(), sent, got) && 0 <= n
      modifies this
      ensures Carries(R(), sent, got + out) && got + out <= sent
      ensures |out| == if n < |sent| - |got| then n else |sent| - |got|
    {
      out := [];
      var i := 0;
      assert got + out == got;
      while i < n
        invariant 0 <= i == |out| <= n && Carries(R(), sent, got + out)
      {
        Tests(R(), sent, got + out);
        if nread == nwrite {
          break;
        }
        DropCarries(R(), sent, got + out);
        assert got + out + [Next(R())] == got + (out + [Next(R())]);
        out := out + [data[nread % PIPESIZE]];
        nread := (nread + 1) % WORD;
        i := i + 1;
      }
    }
  }
}
