/**
 Several `filewrite`s on one inode at a time. The inode's lock is held for one chunk only, so the chunks of
 different writers interleave; writers that share a file descriptor share its offset. A chunk is what
 Fs.OpenFile.Operation does: all of it or nothing.
 */
module FsWriters {
  import opened FsImage
  import opened Fs
  import opened FsSpace

  /** A call of `filewrite`: its file descriptor, its bytes, how many are written, whether it has given up. */
  datatype Writer = Writer(file: nat, addr: seq<int>, done: nat, stopped: bool)

  /** One chunk. `hist` lists, for each descriptor, the chunks written through it. */
  datatype Piece = Piece(writer: nat, data: seq<int>)

  datatype State = State(content: seq<int>, offs: seq<nat>, writers: seq<Writer>, hist: seq<seq<Piece>>)

  predicate Shape(s: State) {
    && |s.hist| == |s.offs|
    && (forall f, k :: 0 <= f < |s.hist| && 0 <= k < |s.hist[f]| ==> s.hist[f][k].writer < |s.writers|)
    && forall w :: 0 <= w < |s.writers| ==> s.writers[w].file < |s.offs| && s.writers[w].done <= |s.writers[w].addr|
  }

  predicate May(s: State, w: nat) {
    w < |s.writers| && s.writers[w].done < |s.writers[w].addr| && !s.writers[w].stopped
  }

  /** What the writer's next operation is to write. */
  function Chunk(x: Writer): (r: seq<int>)
    requires x.done <= |x.addr|
    ensures |r| <= CHUNK && x.done + |r| <= |x.addr| && r == x.addr[x.done..x.done + |r|]
    ensures x.done < |x.addr| ==> |r| > 0
  {
    x.addr[x.done..if |x.addr| - x.done > CHUNK then x.done + CHUNK else |x.addr|]
  }

  predicate Fits(s: State, off: nat, n: nat) { off <= |s.content| && off + n <= MAXFILE * BSIZE }

  /** One turn of writer w's loop. */
  function Do(s: State, w: nat): State
    requires Shape(s) && May(s, w)
  {
    var x := s.writers[w];
    var f, data := x.file, Chunk(x);
    if Fits(s, s.offs[f], |data|) then
      State(Splice(s.content, s.offs[f], data), s.offs[f := s.offs[f] + |data|],
            s.writers[w := x.(done := x.done + |data|)], s.hist[f := s.hist[f] + [Piece(w, data)]])
    else s.(writers := s.writers[w := x.(stopped := true)])
  }

  /** A turn either writes at least one byte or is the writer's last. */
  lemma TurnProgresses(s: State, w: nat)
    requires Shape(s) && May(s, w)
    ensures var x, y := s.writers[w], Do(s, w).writers[w];
            y.file == x.file && y.addr == x.addr && if y.stopped then y.done == x.done else x.done < y.done <= |x.addr|
  {
    hide Splice;
  }

  /** The bytes of the pieces, in order. */
  function Bytes(ps: seq<Piece>): seq<int> {
    if ps == [] then [] else Bytes(ps[..|ps| - 1]) + ps[|ps| - 1].data
  }

  /** Those of one writer. */
  function BytesOf(ps: seq<Piece>, w: int): seq<int> {
    if ps == [] then [] else BytesOf(ps[..|ps| - 1], w) + if ps[|ps| - 1].writer == w then ps[|ps| - 1].data else []
  }

  lemma BytesMore(ps: seq<Piece>, p: Piece)
    ensures Bytes(ps + [p]) == Bytes(ps) + p.data
    ensures forall w :: BytesOf(ps + [p], w) == BytesOf(ps, w) + if p.writer == w then p.data else []
  {
    assert (ps + [p])[..|ps|] == ps;
  }

  // ------------------------------------------------------------- invariant

  /** A descriptor that went from o0[f] to o[f] has written position i. */
  predicate Covers(o0: seq<nat>, o: seq<nat>, f: int, i: int)
    requires 0 <= f < |o0| == |o|
  {
    o0[f] <= i < o[f]
  }

  /** No descriptor but f has. */
  predicate Alone(o0: seq<nat>, o: seq<nat>, f: int, i: int)
    requires |o0| == |o|
  {
    forall g {:trigger Covers(o0, o, g, i)} :: 0 <= g < |o| && g != f ==> !Covers(o0, o, g, i)
  }

  /** Descriptor f went from o0[f] to o[f] through the pieces ps, which the file holds where f is alone. */
  ghost predicate FileAt(o0: seq<nat>, o: seq<nat>, content: seq<int>, ps: seq<Piece>, f: int)
    requires 0 <= f < |o0| == |o|
  {
    && o[f] == o0[f] + |Bytes(ps)|
    && (o[f] > o0[f] ==> o[f] <= |content|)
    && forall i :: Covers(o0, o, f, i) && i < |content| && Alone(o0, o, f, i) ==> content[i] == Bytes(ps)[i - o0[f]]
  }

  ghost predicate FileOk(s0: State, s: State, f: int)
    requires 0 <= f < |s0.offs| == |s.offs| == |s.hist|
  {
    FileAt(s0.offs, s.offs, s.content, s.hist[f], f)
  }

  /** Writer w's bytes so far are its pieces, all through its own descriptor. */
  ghost predicate WriterAt(hist: seq<seq<Piece>>, x: Writer, w: int) {
    && x.file < |hist| && x.done <= |x.addr| && BytesOf(hist[x.file], w) == x.addr[..x.done]
    && forall f :: 0 <= f < |hist| && f != x.file ==> BytesOf(hist[f], w) == []
  }

  ghost predicate WriterOk(s0: State, s: State, w: int)
    requires 0 <= w < |s0.writers| == |s.writers|
  {
    && s.writers[w].file == s0.writers[w].file && s.writers[w].addr == s0.writers[w].addr
    && WriterAt(s.hist, s.writers[w], w)
  }

  ghost predicate Inv(s0: State, s: State) {
    && Shape(s) && |s.offs| == |s0.offs| && |s.writers| == |s0.writers| && |s0.content| <= |s.content|
    && (forall f :: 0 <= f < |s.offs| ==> FileOk(s0, s, f))
    && (forall w :: 0 <= w < |s.writers| ==> WriterOk(s0, s, w))
    && forall i :: 0 <= i < |s0.content| && (forall f :: 0 <= f < |s.offs| ==> !Covers(s0.offs, s.offs, f, i)) ==>
         s.content[i] == s0.content[i]
  }

  /** Nothing written yet. */
  predicate Start(s: State) {
    && Shape(s) && (forall w :: 0 <= w < |s.writers| ==> s.writers[w].done == 0)
    && forall f :: 0 <= f < |s.hist| ==> s.hist[f] == []
  }

  /** Whoever covers a position still does after one more chunk. */
  lemma StillAlone(o0: seq<nat>, o: seq<nat>, o': seq<nat>, f: int, i: int)
    requires |o'| == |o| == |o0| && (forall g :: 0 <= g < |o| ==> o[g] <= o'[g]) && Alone(o0, o', f, i)
    ensures Alone(o0, o, f, i)
  {
    forall g | 0 <= g < |o| && g != f
      ensures !Covers(o0, o, g, i)
    {
      assert !Covers(o0, o', g, i);
    }
  }

  /** A chunk through another descriptor. */
  lemma {:induction false} FileSame(o0: seq<nat>, o: seq<nat>, content: seq<int>, ps: seq<Piece>, f: nat, g: nat,
        data: seq<int>)
    requires f < |o0| == |o| && g < |o| && f != g && FileAt(o0, o, content, ps, f) && o0[g] <= o[g] <= |content|
    ensures FileAt(o0, o[g := o[g] + |data|], Splice(content, o[g], data), ps, f)
  {
    var o', c := o[g := o[g] + |data|], Splice(content, o[g], data);
    SpliceAt(content, o[g], data);
    hide Splice, Bytes, Alone;
    forall i | Covers(o0, o', f, i) && i < |c| && Alone(o0, o', f, i)
      ensures c[i] == Bytes(ps)[i - o0[f]]
    {
      StillAlone(o0, o, o', f, i);
      NotBy(o0, o', f, g, i);
      assert Covers(o0, o, f, i);
    }
  }

  /** A chunk through the descriptor. */
  lemma {:induction false} FileMore(o0: seq<nat>, o: seq<nat>, content: seq<int>, ps: seq<Piece>, f: nat, p: Piece)
    requires f < |o0| == |o| && FileAt(o0, o, content, ps, f) && o[f] <= |content|
    ensures FileAt(o0, o[f := o[f] + |p.data|], Splice(content, o[f], p.data), ps + [p], f)
  {
    var o', c := o[f := o[f] + |p.data|], Splice(content, o[f], p.data);
    SpliceAt(content, o[f], p.data);
    BytesMore(ps, p);
    hide Splice, Bytes, Alone;
    forall i | Covers(o0, o', f, i) && i < |c| && Alone(o0, o', f, i)
      ensures c[i] == Bytes(ps + [p])[i - o0[f]]
    {
      StillAlone(o0, o, o', f, i);
      assert i < o[f] ==> Covers(o0, o, f, i);
    }
  }

  lemma {:induction false} DoFile(s0: State, s: State, w: nat, f: nat)
    requires Inv(s0, s) && May(s, w) && f < |s.offs|
    ensures var t := Do(s, w); |t.offs| == |t.hist| == |s0.offs| && FileOk(s0, t, f)
  {
    hide FileAt, WriterAt, Splice, Chunk;
    var g, data := s.writers[w].file, Chunk(s.writers[w]);
    assert FileOk(s0, s, f) && FileOk(s0, s, g);
    if Fits(s, s.offs[g], |data|) {
      if f == g {
        FileMore(s0.offs, s.offs, s.content, s.hist[g], g, Piece(w, data));
      } else {
        OffsetsGrow(s0, s, g);
        FileSame(s0.offs, s.offs, s.content, s.hist[f], f, g, data);
      }
    }
  }

  lemma NotBy(o0: seq<nat>, o: seq<nat>, f: int, g: int, i: int)
    requires |o0| == |o| && Alone(o0, o, f, i) && 0 <= g < |o| && g != f
    ensures !Covers(o0, o, g, i)
  {
  }

  lemma {:induction false} WriterMore(hist: seq<seq<Piece>>, x: Writer, v: int, g: nat, p: Piece)
    requires WriterAt(hist, x, v) && g < |hist| && (p.writer == v ==> g == x.file && x.done + |p.data| <= |x.addr|)
    requires p.writer == v ==> p.data == x.addr[x.done..x.done + |p.data|]
    ensures WriterAt(hist[g := hist[g] + [p]], if p.writer == v then x.(done := x.done + |p.data|) else x, v)
  {
    BytesMore(hist[g], p);
    hide BytesOf, Bytes;
    var hist' := hist[g := hist[g] + [p]];
    var y := if p.writer == v then x.(done := x.done + |p.data|) else x;
    if p.writer == v {
      assert x.addr[..x.done] + p.data == y.addr[..y.done];
    }
    assert BytesOf(hist'[x.file], v) == y.addr[..y.done];
  }

  lemma {:induction false} DoWriter(s0: State, s: State, w: nat, v: nat)
    requires Inv(s0, s) && May(s, w) && v < |s.writers|
    ensures |Do(s, w).writers| == |s0.writers| && WriterOk(s0, Do(s, w), v)
  {
    var x := s.writers[w];
    var data := Chunk(x);
    assert WriterOk(s0, s, v);
    if Fits(s, s.offs[x.file], |data|) {
      WriterMore(s.hist, s.writers[v], v, x.file, Piece(w, data));
      hide WriterAt, FileAt, Splice, Chunk;
    }
  }

  lemma {:induction false} DoShape(s: State, w: nat)
    requires Shape(s) && May(s, w)
    ensures Shape(Do(s, w))
  {
    hide Splice;
  }

  lemma {:induction false} DoInv(s0: State, s: State, w: nat)
    requires Inv(s0, s) && May(s, w)
    ensures Inv(s0, Do(s, w))
  {
    hide FileOk, WriterOk;
    DoShape(s, w);
    var x, t := s.writers[w], Do(s, w);
    var g, data := x.file, Chunk(x);
    forall f | 0 <= f < |t.offs|
      ensures FileOk(s0, t, f)
    {
      DoFile(s0, s, w, f);
    }
    forall v | 0 <= v < |t.writers|
      ensures WriterOk(s0, t, v)
    {
      DoWriter(s0, s, w, v);
    }
    if Fits(s, s.offs[g], |data|) {
      SpliceAt(s.content, s.offs[g], data);
      OffsetsGrow(s0, s, g);
      hide Splice, Chunk;
      forall i | 0 <= i < |s0.content| && (forall f :: 0 <= f < |t.offs| ==> !Covers(s0.offs, t.offs, f, i))
        ensures t.content[i] == s0.content[i]
      {
        assert !Covers(s0.offs, t.offs, g, i);
        forall f | 0 <= f < |s.offs|
          ensures !Covers(s0.offs, s.offs, f, i)
        {
          assert !Covers(s0.offs, t.offs, f, i);
        }
      }
    }
  }

  lemma OffsetsGrow(s0: State, s: State, g: nat)
    requires Inv(s0, s) && g < |s.offs|
    ensures s0.offs[g] <= s.offs[g]
  {
    assert FileOk(s0, s, g);
  }

  lemma {:induction false} StartInv(s: State)
    requires Start(s)
    ensures Inv(s, s)
  {
  }

  // ------------------------------------------------------------------ runs

  ghost predicate CanRun(s: State, turns: seq<nat>)
    decreases |turns|
  {
    turns == [] || (Shape(s) && May(s, turns[0]) && CanRun(Do(s, turns[0]), turns[1..]))
  }

  ghost function Run(s: State, turns: seq<nat>): State
    requires CanRun(s, turns)
    decreases |turns|
  {
    if turns == [] then s else Run(Do(s, turns[0]), turns[1..])
  }

  lemma {:induction false} RunInv(s0: State, s: State, turns: seq<nat>)
    requires Inv(s0, s) && CanRun(s, turns)
    ensures Inv(s0, Run(s, turns))
    decreases |turns|
  {
    hide Inv, Do, May, Shape;
    if turns != [] {
      DoInv(s0, s, turns[0]);
      RunInv(s0, Do(s, turns[0]), turns[1..]);
    }
  }

  /**
   In every interleaving of any writers: through a descriptor whose positions no other has written, the
   file holds exactly the chunks written through it, in order, from where it started; what no descriptor
   has written is as before.
   */
  lemma {:induction false} ChunksKept(s: State, turns: seq<nat>, f: nat)
    requires Start(s) && CanRun(s, turns) && f < |s.offs|
    ensures var t := Run(s, turns);
            && |t.offs| == |t.hist| == |s.offs| && |s.content| <= |t.content| && s.offs[f] <= t.offs[f]
            && t.offs[f] - s.offs[f] == |Bytes(t.hist[f])|
            && (t.offs[f] > s.offs[f] ==> t.offs[f] <= |t.content|)
            && ((forall i :: s.offs[f] <= i < t.offs[f] ==> Alone(s.offs, t.offs, f, i)) && t.offs[f] > s.offs[f] ==>
                  t.content[s.offs[f]..t.offs[f]] == Bytes(t.hist[f]))
            && forall i :: 0 <= i < |s.content| && (forall g :: 0 <= g < |t.offs| ==> !Covers(s.offs, t.offs, g, i)) ==>
                 t.content[i] == s.content[i]
  {
    StartInv(s);
    RunInv(s, s, turns);
    hide CanRun, Run, Alone, Bytes;
    assert FileOk(s, Run(s, turns), f);
  }

  /** Each writer's bytes are the chunks that it wrote, all through its own descriptor, in order and without loss. */
  lemma {:induction false} WriterKept(s: State, turns: seq<nat>, w: nat)
    requires Start(s) && CanRun(s, turns) && w < |s.writers|
    ensures var t, x := Run(s, turns), s.writers[w];
            && |t.writers| == |s.writers| && |t.hist| == |s.offs| && x.file < |t.hist| && t.writers[w].done <= |x.addr|
            && BytesOf(t.hist[x.file], w) == x.addr[..t.writers[w].done]
            && forall f :: 0 <= f < |t.hist| && f != x.file ==> BytesOf(t.hist[f], w) == []
  {
    StartInv(s);
    RunInv(s, s, turns);
    hide CanRun, Run, BytesOf;
    assert WriterOk(s, Run(s, turns), w);
  }

  /** Chunks that are all one writer's are that writer's bytes. */
  lemma {:induction false} OneWriter(ps: seq<Piece>, w: nat, n: nat)
    requires forall k :: 0 <= k < |ps| ==> ps[k].writer < n
    requires forall v: nat :: v < n && v != w ==> BytesOf(ps, v) == []
    ensures Bytes(ps) == BytesOf(ps, w)
  {
    if ps != [] {
      var last, rest := ps[|ps| - 1], ps[..|ps| - 1];
      forall v: nat | v < n && v != w
        ensures BytesOf(rest, v) == []
      {
        assert BytesOf(ps, v) == [];
      }
      OneWriter(rest, w, n);
      if last.writer != w {
        assert BytesOf(ps, last.writer) == [];
      }
    }
  }

  /**
   `filewrite` beside other writers: a writer with a descriptor of its own finds all it has written in
   the file, in whatever order the chunks of others came, if no other descriptor wrote there.
   */
  lemma {:induction false} WriteKept(s: State, turns: seq<nat>, w: nat)
    requires Start(s) && CanRun(s, turns) && w < |s.writers|
    requires forall v :: 0 <= v < |s.writers| && v != w ==> s.writers[v].file != s.writers[w].file
    requires |Run(s, turns).offs| == |s.offs|
    requires forall i :: s.offs[s.writers[w].file] <= i < Run(s, turns).offs[s.writers[w].file] ==>
               Alone(s.offs, Run(s, turns).offs, s.writers[w].file, i)
    ensures var t, x := Run(s, turns), s.writers[w];
            && |t.writers| == |s.writers| && t.writers[w].done <= |x.addr|
            && t.offs[x.file] == s.offs[x.file] + t.writers[w].done
            && (t.writers[w].done > 0 ==>
                  && t.offs[x.file] <= |t.content|
                  && t.content[s.offs[x.file]..t.offs[x.file]] == x.addr[..t.writers[w].done])
  {
    var t, f := Run(s, turns), s.writers[w].file;
    StartInv(s);
    RunInv(s, s, turns);
    ChunksKept(s, turns, f);
    WriterKept(s, turns, w);
    hide CanRun, Run, Bytes, BytesOf;
    forall v: nat | v < |s.writers| && v != w
      ensures BytesOf(t.hist[f], v) == []
    {
      assert WriterOk(s, t, v);
    }
    OneWriter(t.hist[f], w, |t.writers|);
  }

  /** Two writers of two chunks each, through their own descriptors, on an empty file. */
  function Two(a: seq<int>, b: seq<int>, content: seq<int>, i: nat, j: nat, h: seq<Piece>, k: seq<Piece>): State {
    State(content, [i, j], [Writer(0, a, i, false), Writer(1, b, j, false)], [h, k])
  }

  lemma TwoFirst(a: seq<int>, b: seq<int>, c: seq<int>, i: nat, j: nat, h: seq<Piece>, k: seq<Piece>)
    requires Shape(Two(a, b, c, i, j, h, k)) && i <= |c| && i + CHUNK <= |a| <= 2 * CHUNK
    ensures var s, data := Two(a, b, c, i, j, h, k), a[i..i + CHUNK];
            && May(s, 0) && Do(s, 0) == Two(a, b, Splice(c, i, data), i + CHUNK, j, h + [Piece(0, data)], k)
            && Shape(Do(s, 0))
  {
    hide Splice;
    assert Chunk(Writer(0, a, i, false)) == a[i..i + CHUNK];
  }

  lemma TwoSecond(a: seq<int>, b: seq<int>, c: seq<int>, i: nat, j: nat, h: seq<Piece>, k: seq<Piece>)
    requires Shape(Two(a, b, c, i, j, h, k)) && j <= |c| && j + CHUNK <= |b| <= 2 * CHUNK
    ensures var s, data := Two(a, b, c, i, j, h, k), b[j..j + CHUNK];
            && May(s, 1) && Do(s, 1) == Two(a, b, Splice(c, j, data), i, j + CHUNK, h, k + [Piece(1, data)])
            && Shape(Do(s, 1))
  {
    hide Splice;
    assert Chunk(Writer(1, b, j, false)) == b[j..j + CHUNK];
  }

  lemma Turn(s: State, w: nat, turns: seq<nat>)
    requires Shape(s) && May(s, w) && CanRun(Do(s, w), turns)
    ensures CanRun(s, [w] + turns) && Run(s, [w] + turns) == Run(Do(s, w), turns)
  {
    hide Do, May, Shape;
    assert ([w] + turns)[1..] == turns;
  }

  /** The chunks of a, b, b and a, laid over each other. */
  lemma Layers(a: seq<int>, b: seq<int>)
    requires |a| == |b| == 2 * CHUNK
    ensures Splice([], 0, a[0..CHUNK]) == a[..CHUNK] && Splice(a[..CHUNK], 0, b[0..CHUNK]) == b[..CHUNK]
    ensures Splice(b[..CHUNK], CHUNK, b[CHUNK..CHUNK + CHUNK]) == b
    ensures Splice(b, CHUNK, a[CHUNK..CHUNK + CHUNK]) == b[..CHUNK] + a[CHUNK..]
  {
  }

  /** Where two writers overlap their chunks can mix: the file then holds neither one's bytes. */
  lemma {:induction false} ChunksMix(a: seq<int>, b: seq<int>) returns (turns: seq<nat>)
    requires |a| == |b| == 2 * CHUNK
    ensures var s := Two(a, b, [], 0, 0, [], []);
            Start(s) && CanRun(s, turns) && Run(s, turns).content == b[..CHUNK] + a[CHUNK..]
  {
    hide Splice, Do, May, Shape, Chunk;
    Layers(a, b);
    var s := Two(a, b, [], 0, 0, [], []);
    assert Shape(s) && Start(s) by { TwoStart(a, b); }
    TwoFirst(a, b, [], 0, 0, [], []);
    var s1, h1 := Do(s, 0), [] + [Piece(0, a[0..CHUNK])];
    TwoSecond(a, b, a[..CHUNK], CHUNK, 0, h1, []);
    var s2, k1 := Do(s1, 1), [] + [Piece(1, b[0..CHUNK])];
    TwoSecond(a, b, b[..CHUNK], CHUNK, CHUNK, h1, k1);
    var s3, k2 := Do(s2, 1), k1 + [Piece(1, b[CHUNK..CHUNK + CHUNK])];
    TwoFirst(a, b, b, CHUNK, 2 * CHUNK, h1, k2);
    var s4 := Do(s3, 0);
    assert CanRun(s4, []) && Run(s4, []) == s4;
    Turn(s3, 0, []);
    Turn(s2, 1, [0] + []);
    Turn(s1, 1, [1] + ([0] + []));
    Turn(s, 0, [1] + ([1] + ([0] + [])));
    turns := [0] + ([1] + ([1] + ([0] + [])));
  }

  lemma TwoStart(a: seq<int>, b: seq<int>)
    ensures Shape(Two(a, b, [], 0, 0, [], [])) && Start(Two(a, b, [], 0, 0, [], []))
  {
  }

  /**
   The code of one turn does to the file, the descriptor and the writer what the step does. It is taken exactly
   when something is left to write and no turn has failed, and it fails exactly when the chunk does not fit.
   */
  method TakeTurn(open: OpenFile, ghost s: State, w: nat, x: Writer) returns (ok: bool, y: Writer)
    requires open.Valid() && open.peak <= MAXOPBLOCKS
    requires Shape(s) && w < |s.writers| && s.writers[w] == x && x.done < |x.addr| && !x.stopped
    requires s.offs[x.file] == open.off && s.content == Content(open.fs.m, open.ip)
    modifies open, open.fs
    ensures ok ==> open.Valid() && open.peak <= MAXOPBLOCKS && May(s, w)
    ensures ok ==>
              var t, n := Do(s, w), if |x.addr| - x.done > CHUNK then CHUNK else |x.addr| - x.done;
              && t.content == Content(open.fs.m, open.ip) && t.offs == s.offs[x.file := open.off]
              && t.writers == s.writers[w := y]
              && (y.stopped <==> old(open.off) > |s.content| || old(open.off) + n > MAXFILE * BSIZE)
              && y.done == (if y.stopped then x.done else x.done + n)
  {
    hide Splice, Content, InUse, Unshared, RefAt, NoHoles, SameLost, Free, WriteNeed;
    SizeBound(open.fs.m, open.ip);
    var n1 := |x.addr| - x.done;
    if n1 > CHUNK {
      n1 := CHUNK;
    }
    var r;
    ok, r := open.Operation(x.addr[x.done..x.done + n1], 0);
    if !ok {
      return ok, x;
    }
    y := if r < 0 then x.(stopped := true) else x.(done := x.done + r);
    SizeBound(open.fs.m, open.ip);
    assert s.offs[x.file := s.offs[x.file]] == s.offs;
  }
}
