/**
 What single calls of `pipewrite` and `piperead` put and take. The history of a run lists the calls; it says for
 each byte ever put which call put it, and for each byte ever taken which call took it. The machine of Pipe
 decides nothing by it.
 */
module PipeCalls {
  import opened Pipe

  datatype Outcome = Going | Finished | Failed

  /** A call by process p: its bytes, or the most it wants. */
  datatype Call = WriteCall(p: int, bytes: seq<Byte>, end: Outcome) | ReadCall(p: int, n: int, end: Outcome)

  /** `cur` is each process's present or last call; putBy and takenBy are as long as `sent` and `got`. */
  datatype Run = Run(s: State, calls: seq<Call>, cur: seq<int>, putBy: seq<int>, takenBy: seq<int>)

  /** Calls begin with BeginWrite and BeginRead, and end with the steps that make the process idle again. */
  function Next(u: Run, step: Step): Run
    requires May(u.s, step) && |u.cur| == |u.s.pc|
  {
    var t, p := Do(u.s, step), step.p;
    match step
    case BeginWrite(_, bytes) =>
      Run(t, u.calls + [WriteCall(p, bytes, Going)], u.cur[p := |u.calls|], u.putBy, u.takenBy)
    case BeginRead(_, n) => Run(t, u.calls + [ReadCall(p, n, Going)], u.cur[p := |u.calls|], u.putBy, u.takenBy)
    case PutByte(_) => Run(t, u.calls, u.cur, u.putBy + [u.cur[p]], u.takenBy)
    case TakeByte(_) => Run(t, u.calls, u.cur, u.putBy, u.takenBy + [u.cur[p]])
    case EndWrite(_) => Run(t, Ended(u.calls, u.cur[p], Finished), u.cur, u.putBy, u.takenBy)
    case EndRead(_) => Run(t, Ended(u.calls, u.cur[p], Finished), u.cur, u.putBy, u.takenBy)
    case AbortWrite(_, _) => Run(t, Ended(u.calls, u.cur[p], Failed), u.cur, u.putBy, u.takenBy)
    case AbortRead(_) => Run(t, Ended(u.calls, u.cur[p], Failed), u.cur, u.putBy, u.takenBy)
    case _ => Run(t, u.calls, u.cur, u.putBy, u.takenBy)
  }

  function Ended(calls: seq<Call>, c: int, end: Outcome): (r: seq<Call>)
    ensures |r| == |calls|
  {
    if 0 <= c < |calls| then calls[c := calls[c].(end := end)] else calls
  }

  /** The bytes of a stream that call c owns, in order. */
  function Own(bytes: seq<Byte>, owner: seq<int>, c: int): (r: seq<Byte>)
    requires |bytes| == |owner|
    ensures |r| <= |bytes|
  {
    if bytes == [] then []
    else
      var n := |bytes| - 1;
      Own(bytes[..n], owner[..n], c) + if owner[n] == c then [bytes[n]] else []
  }

  lemma OwnMore(bytes: seq<Byte>, owner: seq<int>, b: Byte, o: int)
    requires |bytes| == |owner|
    ensures forall c :: Own(bytes + [b], owner + [o], c) == Own(bytes, owner, c) + if o == c then [b] else []
  {
    assert (bytes + [b])[..|bytes|] == bytes && (owner + [o])[..|owner|] == owner;
  }

  /** What call c owns lies in one piece. */
  ghost predicate Piece(owner: seq<int>, c: int, from: int, to: int) {
    0 <= from <= to <= |owner| && forall i :: 0 <= i < |owner| ==> (owner[i] == c <==> from <= i < to)
  }

  lemma {:induction false} OwnPiece(bytes: seq<Byte>, owner: seq<int>, c: int, from: int, to: int)
    requires |bytes| == |owner| && Piece(owner, c, from, to)
    ensures Own(bytes, owner, c) == bytes[from..to]
  {
    if bytes != [] {
      var n := |bytes| - 1;
      if to == n + 1 && from < to {
        OwnPiece(bytes[..n], owner[..n], c, from, n);
        assert bytes[from..to] == bytes[..n][from..n] + [bytes[n]];
      } else {
        var to' := if to <= n then to else n;
        var from' := if from <= n then from else n;
        OwnPiece(bytes[..n], owner[..n], c, from', to');
        assert owner[n] != c && bytes[from..to] == bytes[..n][from'..to'];
      }
    }
  }

  // ------------------------------------------------------------- invariant

  /** What a writing call has put is the beginning of its bytes; all of them when it has succeeded. */
  ghost predicate WriteOk(x: Call, put: seq<Byte>) {
    x.WriteCall? && put <= x.bytes && (x.end == Finished ==> put == x.bytes)
  }

  /** What a reading call has taken was in one piece, and no more than it wanted. */
  ghost predicate ReadOk(x: Call, takenBy: seq<int>, c: int) {
    && x.ReadCall?
    && exists from, to :: Piece(takenBy, c, from, to) && (to - from <= x.n || to == from)
  }

  ghost predicate CallOk(x: Call, sent: seq<Byte>, putBy: seq<int>, takenBy: seq<int>, c: int)
    requires |putBy| == |sent|
  {
    && (x.WriteCall? ==> WriteOk(x, Own(sent, putBy, c)) && Piece(takenBy, c, 0, 0))
    && (x.ReadCall? ==> ReadOk(x, takenBy, c) && Own(sent, putBy, c) == [])
  }

  /** How far process p, at pc, is with its present call c. */
  ghost predicate PresentOk(pc: Pc, p: int, x: Call, sent: seq<Byte>, putBy: seq<int>, takenBy: seq<int>, c: int)
    requires |putBy| == |sent|
  {
    && x.p == p && x.end == Going
    && (Writes(pc) ==> x.WriteCall? && x.bytes == pc.bytes && |Own(sent, putBy, c)| == pc.i <= |pc.bytes|)
    && (Reads(pc) ==>
          && x.ReadCall? && x.n == pc.n
          && (if pc.Taking? then Piece(takenBy, c, |takenBy| - pc.i, |takenBy|) && (pc.i <= pc.n || pc.i == 0)
              else Piece(takenBy, c, |takenBy|, |takenBy|)))
  }

  ghost predicate BusyOk(u: Run, p: int)
    requires 0 <= p < |u.s.pc| == |u.cur| && |u.putBy| == |u.s.sent|
  {
    !u.s.pc[p].Idle? ==>
      0 <= u.cur[p] < |u.calls|
      && PresentOk(u.s.pc[p], p, u.calls[u.cur[p]], u.s.sent, u.putBy, u.takenBy, u.cur[p])
  }

  predicate Sized(u: Run) {
    && |u.cur| == |u.s.pc| && |u.putBy| == |u.s.sent| && |u.takenBy| == |u.s.got|
    && (forall i :: 0 <= i < |u.putBy| ==> 0 <= u.putBy[i] < |u.calls|)
    && (forall i :: 0 <= i < |u.takenBy| ==> 0 <= u.takenBy[i] < |u.calls|)
  }

  ghost predicate Sound(u: Run) {
    && Inv(u.s) && Sized(u)
    && (forall c :: 0 <= c < |u.calls| ==> CallOk(u.calls[c], u.s.sent, u.putBy, u.takenBy, c))
    && (forall p :: 0 <= p < |u.s.pc| ==> BusyOk(u, p))
  }

  // ----------------------------------------------------------------- steps

  lemma {:induction false} OwnNone(bytes: seq<Byte>, owner: seq<int>, c: int)
    requires |bytes| == |owner| && forall i :: 0 <= i < |owner| ==> owner[i] != c
    ensures Own(bytes, owner, c) == []
  {
    if bytes != [] {
      OwnNone(bytes[..|bytes| - 1], owner[..|owner| - 1], c);
    }
  }

  /** A process that has gone on to pc, where the step did not touch its call. */
  predicate Alike(x: Pc, y: Pc) {
    || y == x || y.Idle?
    || (x.WriteAsleep? && y == WriteWoken(x.bytes, x.i)) || (x.ReadAsleep? && y == ReadWoken(x.n))
    || (x.Putting? && y == WriteAsleep(x.bytes, x.i)) || (x.WriteWoken? && y == Putting(x.bytes, x.i))
    || (x.Testing? && (y == ReadAsleep(x.n) || y == Taking(x.n, 0))) || (x.ReadWoken? && y == Testing(x.n))
  }

  predicate Quiet(step: Step) { !step.BeginWrite? && !step.BeginRead? && !step.PutByte? && !step.TakeByte? }

  lemma {:induction false} OtherPcs(s: State, step: Step, q: int)
    requires May(s, step) && 0 <= q < |s.pc| && q != step.p
    ensures |Do(s, step).pc| == |s.pc| && Alike(s.pc[q], Do(s, step).pc[q])
  {
    hide Full, Empty, Put, Drop, Pipe.Next, Strands;
  }

  predicate Closes(step: Step) { step.CloseWrite? || step.CloseRead? }

  lemma {:induction false} QuietPc(s: State, step: Step)
    requires May(s, step) && Quiet(step) && !Closes(step)
    ensures |Do(s, step).pc| == |s.pc| && Alike(s.pc[step.p], Do(s, step).pc[step.p])
    ensures step.EndWrite? || step.EndRead? || step.AbortWrite? || step.AbortRead? ==> Do(s, step).pc[step.p].Idle?
  {
    hide Full, Empty, Put, Drop, Pipe.Next, Strands, WakeReaders, WakeWriters, Wakeup;
  }

  lemma {:induction false} ClosePc(s: State, step: Step)
    requires May(s, step) && Closes(step)
    ensures |Do(s, step).pc| == |s.pc| && Alike(s.pc[step.p], Do(s, step).pc[step.p])
  {
    hide Full, Empty, Strands;
  }

  lemma SameStreams(s: State, step: Step)
    requires May(s, step) && !step.PutByte? && !step.TakeByte?
    ensures Do(s, step).sent == s.sent && Do(s, step).got == s.got && |Do(s, step).pc| == |s.pc|
  {
    hide Full, Empty, Strands;
  }

  lemma {:induction false} AlikeOk(x: Pc, y: Pc, p: int, call: Call, sent: seq<Byte>, putBy: seq<int>,
        takenBy: seq<int>, c: int)
    requires |putBy| == |sent| && PresentOk(x, p, call, sent, putBy, takenBy, c) && Alike(x, y)
    ensures PresentOk(y, p, call, sent, putBy, takenBy, c)
  {
    hide Piece, Own;
  }

  predicate Ends(step: Step) { step.EndWrite? || step.EndRead? || step.AbortWrite? || step.AbortRead? }

  lemma {:induction false} QuietFacts(s: State, step: Step)
    requires May(s, step) && Quiet(step)
    ensures 0 <= step.p < |s.pc|
    ensures var t := Do(s, step);
            && t.sent == s.sent && t.got == s.got && |t.pc| == |s.pc| && (Ends(step) ==> t.pc[step.p].Idle?)
            && forall q :: 0 <= q < |s.pc| ==> Alike(s.pc[q], t.pc[q])
  {
    hide Do, Alike, Full, Empty;
    SameStreams(s, step);
    if Closes(step) {
      ClosePc(s, step);
    } else {
      QuietPc(s, step);
    }
    forall q | 0 <= q < |s.pc|
      ensures Alike(s.pc[q], Do(s, step).pc[q])
    {
      if q != step.p {
        OtherPcs(s, step, q);
      }
    }
  }

  /** A call that ends is the process's own, and has put all its bytes if it succeeds. */
  lemma {:induction false} EndFacts(u: Run, step: Step)
    requires Sound(u) && May(u.s, step) && Ends(step)
    ensures 0 <= step.p < |u.s.pc| && !u.s.pc[step.p].Idle?
    ensures 0 <= u.cur[step.p] < |u.calls|
    ensures CallOk(u.calls[u.cur[step.p]], u.s.sent, u.putBy, u.takenBy, u.cur[step.p])
    ensures step.EndWrite? || step.AbortWrite? ==> u.calls[u.cur[step.p]].WriteCall?
    ensures step.EndRead? || step.AbortRead? ==> u.calls[u.cur[step.p]].ReadCall?
    ensures step.EndWrite? ==> Own(u.s.sent, u.putBy, u.cur[step.p]) == u.calls[u.cur[step.p]].bytes
  {
    hide Full, Empty, Own, Piece, Inv;
    assert BusyOk(u, step.p);
  }

  lemma EndedOk(x: Call, sent: seq<Byte>, putBy: seq<int>, takenBy: seq<int>, c: int, end: Outcome)
    requires |putBy| == |sent| && CallOk(x, sent, putBy, takenBy, c)
    requires end != Finished || x.ReadCall? || Own(sent, putBy, c) == x.bytes
    ensures CallOk(x.(end := end), sent, putBy, takenBy, c)
  {
    hide Own, Piece;
  }

  /** A step that neither begins a call nor moves a byte; it may end one. */
  lemma {:induction false} QuietSound(u: Run, step: Step)
    requires Sound(u) && May(u.s, step) && Quiet(step)
    ensures Sound(Next(u, step))
  {
    hide Inv, Do, Own, Piece, CallOk, Alike, May, PresentOk;
    DoInv(u.s, step);
    QuietFacts(u.s, step);
    var v, e := Next(u, step), u.cur[step.p];
    if Ends(step) {
      EndFacts(u, step);
      EndedOk(u.calls[e], u.s.sent, u.putBy, u.takenBy, e,
              if step.EndWrite? || step.EndRead? then Finished else Failed);
    }
    forall q | 0 <= q < |v.s.pc|
      ensures BusyOk(v, q)
    {
      assert BusyOk(u, q);
      if !v.s.pc[q].Idle? {
        StillBusy(u.s.pc[q], v.s.pc[q]);
        AlikeOk(u.s.pc[q], v.s.pc[q], q, u.calls[u.cur[q]], u.s.sent, u.putBy, u.takenBy, u.cur[q]);
        if Ends(step) {
          OtherCall(u, step.p, q);
        }
      }
    }
  }

  lemma StillBusy(x: Pc, y: Pc)
    requires Alike(x, y) && !y.Idle?
    ensures !x.Idle?
  {
  }

  lemma BeginFacts(s: State, step: Step)
    requires May(s, step) && (step.BeginWrite? || step.BeginRead?)
    ensures var t := Do(s, step);
            && t.sent == s.sent && t.got == s.got && |t.pc| == |s.pc|
            && t.pc[step.p] == (if step.BeginWrite? then Putting(step.bytes, 0) else Testing(step.n))
            && forall q :: 0 <= q < |s.pc| && q != step.p ==> t.pc[q] == s.pc[q]
  {
    hide Full, Empty;
  }

  lemma {:induction false} BeginSound(u: Run, step: Step)
    requires Sound(u) && May(u.s, step) && (step.BeginWrite? || step.BeginRead?)
    ensures Sound(Next(u, step))
  {
    hide Own, Do, Inv, WriteOk, Full, Empty;
    DoInv(u.s, step);
    BeginFacts(u.s, step);
    var v, c0 := Next(u, step), |u.calls|;
    OwnNone(u.s.sent, u.putBy, c0);
    assert Piece(v.takenBy, c0, 0, 0) && Piece(v.takenBy, c0, |v.takenBy|, |v.takenBy|);
    hide Piece;
    forall c | 0 <= c < |v.calls|
      ensures CallOk(v.calls[c], v.s.sent, v.putBy, v.takenBy, c)
    {
      if c < c0 {
        assert CallOk(u.calls[c], u.s.sent, u.putBy, u.takenBy, c);
      } else if step.BeginWrite? {
        assert WriteOk(v.calls[c0], []) by { NothingPut(step.p, step.bytes); }
      }
    }
    hide CallOk, ReadOk;
    forall q | 0 <= q < |v.s.pc|
      ensures BusyOk(v, q)
    {
      assert BusyOk(u, q);
    }
  }

  lemma NothingPut(p: int, bytes: seq<Byte>)
    ensures WriteOk(WriteCall(p, bytes, Going), [])
  {
  }

  /** Different processes are in different calls. */
  lemma {:induction false} OtherCall(u: Run, p: int, q: int)
    requires Sound(u) && 0 <= p < |u.s.pc| && 0 <= q < |u.s.pc| && p != q && !u.s.pc[p].Idle? && !u.s.pc[q].Idle?
    ensures u.cur[p] != u.cur[q]
  {
    assert BusyOk(u, p) && BusyOk(u, q);
  }

  /** One byte more for call c. */
  lemma {:induction false} PutMore(x: Call, sent: seq<Byte>, putBy: seq<int>, takenBy: seq<int>, c: int, b: Byte)
    requires |putBy| == |sent| && CallOk(x, sent, putBy, takenBy, c) && x.WriteCall? && x.end == Going
    requires |Own(sent, putBy, c)| < |x.bytes| && b == x.bytes[|Own(sent, putBy, c)|]
    ensures CallOk(x, sent + [b], putBy + [c], takenBy, c)
    ensures |Own(sent + [b], putBy + [c], c)| == |Own(sent, putBy, c)| + 1
  {
    OwnMore(sent, putBy, b, c);
    hide Own;
    var put := Own(sent, putBy, c);
    assert put + [b] == x.bytes[..|put| + 1];
  }

  lemma {:induction false} PutOther(x: Call, sent: seq<Byte>, putBy: seq<int>, takenBy: seq<int>, c: int, b: Byte,
        o: int)
    requires |putBy| == |sent| && o != c
    ensures Own(sent + [b], putBy + [o], c) == Own(sent, putBy, c)
    ensures CallOk(x, sent, putBy, takenBy, c) ==> CallOk(x, sent + [b], putBy + [o], takenBy, c)
  {
    OwnMore(sent, putBy, b, o);
  }

  lemma PutFacts(s: State, p: int)
    requires May(s, PutByte(p))
    ensures var t, pc := Do(s, PutByte(p)), s.pc[p];
            && t.sent == s.sent + [pc.bytes[pc.i]] && t.got == s.got && |t.pc| == |s.pc|
            && t.pc[p] == Putting(pc.bytes, pc.i + 1) && forall q :: 0 <= q < |s.pc| && q != p ==> t.pc[q] == s.pc[q]
  {
    hide Full, Put;
  }

  /** The byte that is put is the call's next one. */
  lemma {:induction false} PutSound(u: Run, p: int)
    requires Sound(u) && May(u.s, PutByte(p))
    ensures Sound(Next(u, PutByte(p)))
  {
    hide Own, Piece, Full, Empty, Do, Inv, WriteOk, ReadOk;
    DoInv(u.s, PutByte(p));
    PutFacts(u.s, p);
    var v, o := Next(u, PutByte(p)), u.cur[p];
    var b := u.s.pc[p].bytes[u.s.pc[p].i];
    assert BusyOk(u, p) && CallOk(u.calls[o], u.s.sent, u.putBy, u.takenBy, o);
    PutMore(u.calls[o], u.s.sent, u.putBy, u.takenBy, o, b);
    forall c | 0 <= c < |v.calls|
      ensures CallOk(v.calls[c], v.s.sent, v.putBy, v.takenBy, c)
    {
      assert CallOk(u.calls[c], u.s.sent, u.putBy, u.takenBy, c);
      if c != o {
        PutOther(u.calls[c], u.s.sent, u.putBy, u.takenBy, c, b, o);
      }
    }
    hide CallOk;
    forall q | 0 <= q < |v.s.pc|
      ensures BusyOk(v, q)
    {
      assert BusyOk(u, q);
      if q != p && !u.s.pc[q].Idle? {
        OtherCall(u, p, q);
        PutOther(u.calls[u.cur[q]], u.s.sent, u.putBy, u.takenBy, u.cur[q], b, o);
      }
    }
  }

  lemma {:induction false} PieceOther(owner: seq<int>, c: int, from: int, to: int, o: int)
    requires Piece(owner, c, from, to) && o != c
    ensures Piece(owner + [o], c, from, to)
    ensures from == to ==> Piece(owner + [o], c, |owner| + 1, |owner| + 1)
  {
  }

  lemma PieceMore(owner: seq<int>, c: int, from: int)
    requires Piece(owner, c, from, |owner|)
    ensures Piece(owner + [c], c, from, |owner| + 1)
  {
  }

  lemma {:induction false} TakeOther(x: Call, sent: seq<Byte>, putBy: seq<int>, takenBy: seq<int>, c: int, o: int)
    requires |putBy| == |sent| && o != c && CallOk(x, sent, putBy, takenBy, c)
    ensures CallOk(x, sent, putBy, takenBy + [o], c)
  {
    hide Own;
    if x.ReadCall? {
      var from, to :| Piece(takenBy, c, from, to) && (to - from <= x.n || to == from);
      PieceOther(takenBy, c, from, to, o);
    } else {
      PieceOther(takenBy, c, 0, 0, o);
    }
  }

  lemma TakeFacts(s: State, p: int)
    requires May(s, TakeByte(p))
    ensures var t, pc := Do(s, TakeByte(p)), s.pc[p];
            && t.sent == s.sent && |t.got| == |s.got| + 1 && |t.pc| == |s.pc|
            && t.pc[p] == Taking(pc.n, pc.i + 1) && forall q :: 0 <= q < |s.pc| && q != p ==> t.pc[q] == s.pc[q]
  {
    hide Empty;
  }

  /** Only the holder of the lock takes bytes. */
  lemma OneTaker(s: State, p: int)
    requires Inv(s) && 0 <= p < |s.pc| && s.pc[p].Taking?
    ensures 0 <= s.pc[p].i && forall q :: 0 <= q < |s.pc| && q != p ==> !s.pc[q].Taking?
  {
    assert PcOk(s, p);
    forall q | 0 <= q < |s.pc| && q != p
      ensures !s.pc[q].Taking?
    {
      assert PcOk(s, q);
    }
  }

  /** The byte that is taken joins the call's piece. */
  lemma {:induction false} TakeSound(u: Run, p: int)
    requires Sound(u) && May(u.s, TakeByte(p))
    ensures Sound(Next(u, TakeByte(p)))
  {
    hide Own, Piece, Full, Empty, Do, Inv, WriteOk;
    DoInv(u.s, TakeByte(p));
    TakeFacts(u.s, p);
    OneTaker(u.s, p);
    var v, o, i := Next(u, TakeByte(p)), u.cur[p], u.s.pc[p].i;
    assert BusyOk(u, p) && CallOk(u.calls[o], u.s.sent, u.putBy, u.takenBy, o);
    PieceMore(u.takenBy, o, |u.takenBy| - i);
    forall c | 0 <= c < |v.calls|
      ensures CallOk(v.calls[c], v.s.sent, v.putBy, v.takenBy, c)
    {
      assert CallOk(u.calls[c], u.s.sent, u.putBy, u.takenBy, c);
      if c != o {
        TakeOther(u.calls[c], u.s.sent, u.putBy, u.takenBy, c, o);
      } else {
        assert Piece(v.takenBy, o, |u.takenBy| - i, |v.takenBy|);
      }
    }
    hide CallOk, ReadOk;
    forall q | 0 <= q < |v.s.pc|
      ensures BusyOk(v, q)
    {
      assert BusyOk(u, q);
      if q != p && !u.s.pc[q].Idle? {
        OtherCall(u, p, q);
        if Reads(u.s.pc[q]) {
          PieceOther(u.takenBy, u.cur[q], |u.takenBy|, |u.takenBy|, o);
        }
      }
    }
  }

  lemma {:induction false} NextSound(u: Run, step: Step)
    requires Sound(u) && May(u.s, step)
    ensures Sound(Next(u, step))
  {
    hide Sound, Do;
    SoundSized(u);
    match step
    case BeginWrite(_, _) => BeginSound(u, step);
    case BeginRead(_, _) => BeginSound(u, step);
    case PutByte(p) => PutSound(u, p);
    case TakeByte(p) => TakeSound(u, p);
    case _ => QuietSound(u, step);
  }

  lemma SoundSized(u: Run)
    requires Sound(u)
    ensures |u.cur| == |u.s.pc|
  {
  }

  // ------------------------------------------------------------------ runs

  ghost predicate CanRun(u: Run, steps: seq<Step>)
    decreases |steps|
  {
    steps == [] || (|u.cur| == |u.s.pc| && May(u.s, steps[0]) && CanRun(Next(u, steps[0]), steps[1..]))
  }

  ghost function End(u: Run, steps: seq<Step>): Run
    requires CanRun(u, steps)
    decreases |steps|
  {
    if steps == [] then u else End(Next(u, steps[0]), steps[1..])
  }

  lemma {:induction false} RunSound(u: Run, steps: seq<Step>)
    requires Sound(u) && CanRun(u, steps)
    ensures Sound(End(u, steps))
    decreases |steps|
  {
    hide Sound, Next, May;
    if steps != [] {
      NextSound(u, steps[0]);
      RunSound(Next(u, steps[0]), steps[1..]);
    }
  }

  /** `pipealloc`, and no call yet. */
  ghost predicate New(u: Run) {
    Start(u.s) && u.calls == [] && |u.cur| == |u.s.pc| && u.putBy == [] && u.takenBy == []
  }

  /**
   In every run from `pipealloc`: each byte in the stream was put by one call of `pipewrite`, and what each
   call has put is, in order, the beginning of its bytes, all of them once when it has succeeded. The
   bytes that a call of `piperead` has taken are one piece of that stream, at most n of them.
   */
  lemma {:induction false} CallsKept(u: Run, steps: seq<Step>, c: nat)
    requires New(u) && CanRun(u, steps) && c < |End(u, steps).calls|
    ensures var v := End(u, steps);
            && |v.putBy| == |v.s.sent| && |v.takenBy| == |v.s.got| && v.s.got <= v.s.sent
            && match v.calls[c]
               case WriteCall(_, bytes, end) =>
                 && Own(v.s.sent, v.putBy, c) <= bytes && (end == Finished ==> Own(v.s.sent, v.putBy, c) == bytes)
                 && Own(v.s.got, v.takenBy, c) == []
               case ReadCall(_, n, end) =>
                 && Own(v.s.sent, v.putBy, c) == []
                 && exists from, to :: Piece(v.takenBy, c, from, to) && (to - from <= n || to == from)
                      && Own(v.s.got, v.takenBy, c) == v.s.sent[from..to]
  {
    StartInv(u.s);
    RunSound(u, steps);
    var v := End(u, steps);
    hide CanRun, End, Own;
    assert CallOk(v.calls[c], v.s.sent, v.putBy, v.takenBy, c);
    if v.calls[c].ReadCall? {
      var from, to :| Piece(v.takenBy, c, from, to) && (to - from <= v.calls[c].n || to == from);
      OwnPiece(v.s.got, v.takenBy, c, from, to);
      assert v.s.got[from..to] == v.s.sent[from..to];
    } else {
      OwnPiece(v.s.got, v.takenBy, c, 0, 0);
    }
  }

  /** `pipewrite` returns n when it has put all its bytes, and -1 before that. */
  lemma {:induction false} WriteEnds(u: Run, step: Step)
    requires Sound(u) && May(u.s, step) && (step.EndWrite? || step.AbortWrite?)
    ensures 0 <= u.cur[step.p] < |u.calls| && u.calls[u.cur[step.p]].WriteCall?
    ensures var c := u.cur[step.p];
            && Own(u.s.sent, u.putBy, c) <= u.calls[c].bytes
            && (step.EndWrite? <==> |Own(u.s.sent, u.putBy, c)| == |u.calls[c].bytes|)
            && |Next(u, step).calls| == |u.calls|
            && Next(u, step).calls[c] ==
               WriteCall(step.p, u.calls[c].bytes, if step.EndWrite? then Finished else Failed)
  {
    var c := u.cur[step.p];
    assert BusyOk(u, step.p) && CallOk(u.calls[c], u.s.sent, u.putBy, u.takenBy, c);
    hide Do, Inv, Own;
  }

  /** `piperead` gives up copying exactly with n bytes or an empty pipe. */
  lemma {:induction false} ReadEnds(u: Run, p: int)
    requires Sound(u) && May(u.s, EndRead(p))
    ensures 0 <= u.cur[p] < |u.calls| && u.calls[u.cur[p]].ReadCall?
    ensures var n, k := u.calls[u.cur[p]].n, |Own(u.s.got, u.takenBy, u.cur[p])|;
            if k < n then u.s.got == u.s.sent else k == n || (n < 0 && k == 0)
    ensures |Next(u, EndRead(p)).calls| == |u.calls|
            && Next(u, EndRead(p)).calls[u.cur[p]] == ReadCall(p, u.calls[u.cur[p]].n, Finished)
  {
    var c, i := u.cur[p], u.s.pc[p].i;
    assert BusyOk(u, p) && PcOk(u.s, p);
    OwnPiece(u.s.got, u.takenBy, c, |u.takenBy| - i, |u.takenBy|);
    Tests(u.s.ring, u.s.sent, u.s.got);
    hide Carries, Own;
  }
}
