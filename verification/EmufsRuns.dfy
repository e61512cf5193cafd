/**
 The emulated file system over whole runs: its tree, its handles and its blocks. A step is a call that
 succeeds, or a write that runs out of blocks; other calls that fail leave the open handles and the disk
 as they were. Paths are resolved elsewhere: a step names the inode found.
 */
module EmufsRuns {

  import opened Emufs
  import opened EmufsData

  const MAXHANDLES := 20

  /** The file system, with a bound on the height below each inode. */
  datatype State = State(fs: Fs, rank: seq<nat>)

  datatype Step =
    | OpenRoot(i: int)
    | ChangeDir(h: int, n: int)
    | OpenFile(h: int, i: int, n: int)
    | CloseDir(h: int)
    | CloseFile(h: int)
    | Create(h: int, isDir: bool, c: int)
    | Delete(h: int, n: int, y: Inode)
    | Read(h: int, size: nat)
    | Write(h: int, size: nat, bs: seq<int>)
    | WriteFails(h: int, size: nat)
    | Seek(h: int, nseek: int)

  /** File handle h is open on a file. */
  ghost predicate OpenOnFile(fs: Fs, h: int)
    requires |fs.inodes| == |fs.m.inodeBits|
  {
    && Open(fs.m.files, h) && fs.m.files[h].inode in Live(fs.m.inodeBits)
    && !fs.inodes[fs.m.files[h].inode].isDir
  }

  /** Deletion is followed in a tree, reading, writing and seeking on a file. */
  ghost predicate May(s: State, step: Step) {
    var fs, live := s.fs, Live(s.fs.m.inodeBits);
    && |fs.inodes| == |fs.m.inodeBits| == MAXINODES
    && match step
       case OpenRoot(i) => FirstClosed(fs.m.dirs, i)
       case ChangeDir(h, n) => Open(fs.m.dirs, h) && n in live
       case OpenFile(h, i, n) => Open(fs.m.dirs, h) && FirstClosed(fs.m.files, i) && n in live
       case CloseDir(h) => 0 <= h < |fs.m.dirs|
       case CloseFile(h) => 0 <= h < |fs.m.files|
       case Create(h, _, c) =>
         && Open(fs.m.dirs, h) && fs.m.dirs[h].inode in live && FirstFree(fs.m.inodeBits, c)
         && 0 <= fs.inodes[fs.m.dirs[h].inode].size < ENTRIES == |fs.inodes[fs.m.dirs[h].inode].mappings|
       case Delete(h, n, y) =>
         && Open(fs.m.dirs, h) && WellFormed(fs, s.rank) && n in live && n != 0
         && 0 <= fs.inodes[n].parent < MAXINODES && Removed(fs.inodes[fs.inodes[n].parent], y, n)
       case Read(h, size) => OpenOnFile(fs, h) && fs.m.files[h].offset + size <= FileOf(fs, h).size
       case Write(h, size, bs) =>
         && OpenOnFile(fs, h) && fs.m.files[h].offset + size <= ENTRIES * BLOCKSIZE
         && |bs| == Needed(FileOf(fs, h), fs.m.files[h].offset + size) && CanGrowBy(fs, fs.m.files[h].inode, bs)
       case WriteFails(h, size) =>
         && OpenOnFile(fs, h) && fs.m.files[h].offset + size <= ENTRIES * BLOCKSIZE
         && Unmarked(fs.m.blockBits, 3) < Needed(FileOf(fs, h), fs.m.files[h].offset + size)
       case Seek(h, nseek) => OpenOnFile(fs, h) && 0 <= fs.m.files[h].offset + nseek < FileOf(fs, h).size
  }

  ghost function FileOf(fs: Fs, h: int): Inode
    requires |fs.inodes| == |fs.m.inodeBits| && OpenOnFile(fs, h)
  {
    fs.inodes[fs.m.files[h].inode]
  }

  ghost function Do(s: State, step: Step): State
    requires May(s, step)
  {
    var fs := s.fs;
    match step
    case OpenRoot(i) => s.(fs := RootOpened(fs, i, 0))
    case ChangeDir(h, n) => s.(fs := DirChanged(fs, h, n))
    case OpenFile(h, i, n) => s.(fs := FileOpened(fs, h, i, n))
    case CloseDir(h) => s.(fs := HandleClosed(fs, h, true))
    case CloseFile(h) => s.(fs := HandleClosed(fs, h, false))
    case Create(h, isDir, c) => State(Created(fs, fs.m.dirs[h].inode, isDir, c), Raised(s.rank, c))
    case Delete(_, n, y) => s.(fs := Deleted(fs, s.rank, n, y))
    case Read(h, size) => s.(fs := Advanced(fs, h, size))
    case Write(h, size, bs) =>
      GrownHandles(fs, fs.m.files[h].inode, bs);
      s.(fs := Advanced(Grown(fs, fs.m.files[h].inode, bs), h, size))
    case WriteFails(_, _) => s.(fs := Drained(fs))
    case Seek(h, nseek) => s.(fs := Advanced(fs, h, nseek))
  }

  lemma {:induction false} GrownHandles(s: Fs, n: int, bs: seq<int>)
    requires CanGrowBy(s, n, bs)
    ensures Grown(s, n, bs).m.files == s.m.files && Grown(s, n, bs).m.dirs == s.m.dirs
    decreases |bs|
  {
    if bs != [] {
      GrownHandles(s, n, bs[..|bs| - 1]);
    }
  }

  /** All handles but one of `xs` are in `ys` as they were. */
  predicate Others(xs: seq<Handle>, ys: seq<Handle>, h: int) {
    |ys| == |xs| && 0 <= h < |xs| && forall i :: 0 <= i < |xs| && i != h ==> ys[i] == xs[i]
  }

  /** What each call does to the handles: one of them changes, and how. */
  lemma {:induction false} HandlesAfter(s: State, step: Step)
    requires May(s, step)
    ensures var m, t := s.fs.m, Do(s, step).fs.m;
            match step
            case OpenRoot(i) =>
              Others(m.dirs, t.dirs, i) && t.dirs[i].inode == t.dirs[i].mount == 0 && t.files == m.files
            case ChangeDir(h, n) =>
              && Others(m.dirs, t.dirs, h) && t.dirs[h].inode == n && t.dirs[h].mount == m.dirs[h].mount
              && t.files == m.files
            case OpenFile(h, i, n) =>
              Others(m.files, t.files, i) && t.files[i] == Handle(n, m.dirs[h].mount, 0) && t.dirs == m.dirs
            case CloseDir(h) => Others(m.dirs, t.dirs, h) && t.dirs[h].mount == CLOSED && t.files == m.files
            case CloseFile(h) => Others(m.files, t.files, h) && t.files[h].mount == CLOSED && t.dirs == m.dirs
            case Read(h, size) => Moved(s.fs, Do(s, step).fs, h, size)
            case Write(h, size, _) => Moved(s.fs, Do(s, step).fs, h, size)
            case Seek(h, nseek) => Moved(s.fs, Do(s, step).fs, h, nseek)
            case WriteFails(_, _) => t.files == m.files && t.dirs == m.dirs
            case Create(_, _, _) => t.files == m.files && t.dirs == m.dirs
            case Delete(_, _, _) => |t.files| == |m.files| && |t.dirs| == |m.dirs|
    ensures OnHandle(step) ==> Do(s, step).fs.(m := s.fs.m) == s.fs
  {
    match step
    case Write(h, _, bs) => GrownHandles(s.fs, s.fs.m.files[h].inode, bs);
    case _ =>
  }

  /** A file handle that is open is not past the end of its file. */
  ghost predicate OffsetsOk(fs: Fs) {
    forall h :: Open(fs.m.files, h) ==> OffsetOk(fs.inodes, fs.m.files[h])
  }

  predicate OffsetOk(inodes: seq<Inode>, x: Handle) {
    0 <= x.inode < |inodes| && 0 <= x.offset <= inodes[x.inode].size
  }

  ghost predicate HandlesRight(fs: Fs) {
    && (forall n :: n in Live(fs.m.inodeBits) ==> 0 <= n < |fs.inodes|)
    && HandlesOk(fs.inodes, Live(fs.m.inodeBits), fs.m.dirs, true)
    && HandlesOk(fs.inodes, Live(fs.m.inodeBits), fs.m.files, false)
  }

  /**
   Tree, bitmaps, counters and files are well-formed, open handles name live entities of their own kind,
   and offsets are within their files.
   */
  ghost predicate Sound(s: State) {
    WellFormed(s.fs, s.rank) && FilesOk(s.fs) && Reserved(s.fs) && HandlesRight(s.fs) && OffsetsOk(s.fs)
  }

  /** A change of directory goes to a directory, a file that is opened is a file. */
  ghost predicate OwnKind(s: State, step: Step)
    requires May(s, step)
  {
    match step
    case ChangeDir(_, n) => s.fs.inodes[n].isDir
    case OpenFile(_, _, n) => !s.fs.inodes[n].isDir
    case _ => true
  }

  /** Handle operations do not change the tree. */
  lemma SameTree(s: State, t: State)
    requires WellFormed(s.fs, s.rank) && t.rank == s.rank
    requires t.fs.(m := t.fs.m.(dirs := s.fs.m.dirs, files := s.fs.m.files)) == s.fs
    ensures WellFormed(t.fs, t.rank) && (FilesOk(s.fs) ==> FilesOk(t.fs)) && (Reserved(s.fs) ==> Reserved(t.fs))
    ensures Fit(s.fs.inodes, Live(s.fs.m.inodeBits)) && Fit(t.fs.inodes, Live(t.fs.m.inodeBits))
            && Lost(t.fs) == Lost(s.fs)
  {
    LiveFit(s.fs, s.rank);
    hide Tree, Linked, BlocksOk, Count, FileOk;
    assert t.fs.inodes == s.fs.inodes && t.fs.m.inodeBits == s.fs.m.inodeBits && t.fs.m.blockBits == s.fs.m.blockBits;
  }

  lemma Sizes(s: Fs, rank: seq<nat>)
    requires WellFormed(s, rank)
    ensures |s.inodes| == |s.m.inodeBits| == MAXINODES && forall n :: n in Live(s.m.inodeBits) ==>
              0 <= n < MAXINODES && InodeOk(s.inodes[n])
    ensures 0 in Live(s.m.inodeBits) && s.inodes[0].isDir && Tree(s.inodes, Live(s.m.inodeBits), rank)
  {
  }

  /** Directories have no blocks: only the files of live inodes count. */
  lemma {:induction false} SameOwned(inodes: seq<Inode>, inodes': seq<Inode>, live: set<int>, extra: set<int>)
    requires Fit(inodes, live) && Fit(inodes', live + extra)
    requires forall n :: n in live ==> BlocksOf1(inodes'[n]) == BlocksOf1(inodes[n])
    requires forall n :: n in extra ==> BlocksOf1(inodes'[n]) == {}
    ensures BlocksOf(inodes', live + extra) == BlocksOf(inodes, live)
  {
    hide BlocksOf1, InodeOk;
    forall b
      ensures b in BlocksOf(inodes', live + extra) <==> b in BlocksOf(inodes, live)
    {
      if b in BlocksOf(inodes', live + extra) {
        var q :| q in live + extra && b in BlocksOf1(inodes'[q]);
        assert q in live;
      }
      if b in BlocksOf(inodes, live) {
        var q :| q in live && b in BlocksOf1(inodes[q]);
        assert q in live + extra;
      }
    }
  }

  /** The effect of a step on blocks: none is lost. */
  ghost predicate KeepsBlocks(s: Fs, t: Fs) {
    && Fit(s.inodes, Live(s.m.inodeBits)) && Fit(t.inodes, Live(t.m.inodeBits))
    && Lost(t) == Lost(s) && (Reserved(s) ==> Reserved(t))
  }

  lemma LiveAnd(bits: seq<bool>, c: int)
    requires 0 <= c < |bits|
    ensures Live(bits[c := true]) == Live(bits) + {c} && (!bits[c] ==> c !in Live(bits))
  {
  }

  lemma {:induction false} CreateBlocks(s: Fs, rank: seq<nat>, p: int, isDir: bool, c: int)
    requires WellFormed(s, rank) && p in Live(s.m.inodeBits) && s.inodes[p].isDir && s.inodes[p].size < ENTRIES
    requires 0 <= c < MAXINODES && !s.m.inodeBits[c] && WellFormed(Created(s, p, isDir, c), Raised(rank, c))
    ensures KeepsBlocks(s, Created(s, p, isDir, c))
  {
    hide WellFormed, BlocksOf, BlocksOf1, Live;
    Sizes(s, rank);
    hide Tree;
    var t, live := Created(s, p, isDir, c), Live(s.m.inodeBits);
    LiveFit(s, rank);
    LiveFit(t, Raised(rank, c));
    LiveAnd(s.m.inodeBits, c);
    NoBlocks(s.inodes[p]);
    NoBlocks(t.inodes[p]);
    NoBlocks(t.inodes[c]);
    hide InodeOk;
    SameOwned(s.inodes, t.inodes, live, {c});
  }

  lemma {:induction false} CreateHandles(s: Fs, rank: seq<nat>, p: int, isDir: bool, c: int)
    requires WellFormed(s, rank) && HandlesRight(s) && p in Live(s.m.inodeBits) && s.inodes[p].isDir
             && s.inodes[p].size < ENTRIES
    requires 0 <= c < MAXINODES && !s.m.inodeBits[c] && FilesOk(s)
    ensures HandlesRight(Created(s, p, isDir, c)) && FilesOk(Created(s, p, isDir, c))
  {
    Sizes(s, rank);
    hide Rooted, BlocksOk, Count;
    var t := Created(s, p, isDir, c);
    assert Live(t.m.inodeBits) == Live(s.m.inodeBits) + {c};
  }

  lemma {:induction false} DeleteHandles(s: Fs, rank: seq<nat>, n: int, y: Inode)
    requires WellFormed(s, rank) && HandlesRight(s) && n in Live(s.m.inodeBits) && n != 0
    requires Removed(s.inodes[s.inodes[n].parent], y, n)
    ensures HandlesRight(Deleted(s, rank, n, y))
  {
    hide Subtree, Erase, Removed, BlocksOf;
    DeleteCloses(s, rank, n, y, true);
    DeleteCloses(s, rank, n, y, false);
  }

  lemma {:induction false} DeleteFiles(s: Fs, rank: seq<nat>, n: int, y: Inode)
    requires WellFormed(s, rank) && FilesOk(s) && n in Live(s.m.inodeBits) && n != 0
    requires 0 <= s.inodes[n].parent < |s.inodes| && Removed(s.inodes[s.inodes[n].parent], y, n)
    ensures FilesOk(Deleted(s, rank, n, y))
  {
    Sizes(s, rank);
    hide WellFormed, Tree, Subtree, Removed, InodeOk, BlocksOf, BlocksOf1, Erase, Live;
    RemovedOk(s.inodes[s.inodes[n].parent], y, n);
    SubBits(s, rank, n);
    ErasedBits(s.inodes, s.m, Subtree(s.inodes, Live(s.m.inodeBits), rank, n));
  }

  lemma {:induction false} DeleteBlocks(s: Fs, rank: seq<nat>, n: int, y: Inode)
    requires WellFormed(s, rank) && n in Live(s.m.inodeBits) && n != 0
    requires 0 <= s.inodes[n].parent < |s.inodes| && Removed(s.inodes[s.inodes[n].parent], y, n)
    requires WellFormed(Deleted(s, rank, n, y), rank)
    ensures KeepsBlocks(s, Deleted(s, rank, n, y))
  {
    Sizes(s, rank);
    hide WellFormed, Tree, Subtree, Removed, InodeOk, BlocksOf1, BlocksOf, Live;
    var live, t, p := Live(s.m.inodeBits), Deleted(s, rank, n, y), s.inodes[n].parent;
    var sub := Subtree(s.inodes, live, rank, n);
    LiveFit(s, rank);
    LiveFit(t, rank);
    SubBits(s, rank, n);
    ErasedBits(s.inodes, s.m, sub);
    RemovedOk(s.inodes[p], y, n);
    NoBlocks(s.inodes[p]);
    NoBlocks(y);
    SplitOwned(s.inodes, t.inodes, live, sub);
    ErasedLost(s.m.blockBits, t.m.blockBits, BlocksOf(s.inodes, sub), Owned(s), Owned(t));
  }

  /** The blocks of what is deleted and of what remains. */
  lemma {:induction false} SplitOwned(inodes: seq<Inode>, inodes': seq<Inode>, live: set<int>, sub: set<int>)
    requires Fit(inodes, live) && Fit(inodes', live - sub) && forall n :: n in sub ==> n in live
    requires forall n :: n in live - sub ==> BlocksOf1(inodes'[n]) == BlocksOf1(inodes[n])
    ensures BlocksOf(inodes, live) == BlocksOf(inodes', live - sub) + BlocksOf(inodes, sub)
  {
    hide BlocksOf1, InodeOk;
    var rest := live - sub;
    SameOwned(inodes, inodes', rest, {});
    assert rest + {} == rest;
    forall n
      ensures n in live <==> n in rest + sub
    {
    }
    assert live == rest + sub;
    BlocksJoin(inodes, rest, sub);
  }

  /** Clearing the bits of owned blocks loses no other. */
  lemma ErasedLost(bits: seq<bool>, bits': seq<bool>, gone: set<int>, owned: set<int>, owned': set<int>)
    requires bits' == Cleared(bits, gone) && forall b :: b in owned <==> b in owned' || b in gone
    requires forall b :: b in owned ==> b >= 3
    ensures (set b | 3 <= b < |bits'| && bits'[b] && b !in owned')
            == (set b | 3 <= b < |bits| && bits[b] && b !in owned)
    ensures forall b :: 0 <= b < 3 && b < |bits| ==> bits'[b] == bits[b]
  {
  }

  lemma {:induction false} CreateOffsets(s: Fs, rank: seq<nat>, p: int, isDir: bool, c: int)
    requires WellFormed(s, rank) && HandlesRight(s) && OffsetsOk(s)
    requires p in Live(s.m.inodeBits) && s.inodes[p].isDir && s.inodes[p].size < ENTRIES
    requires 0 <= c < MAXINODES && !s.m.inodeBits[c]
    ensures OffsetsOk(Created(s, p, isDir, c))
  {
    Sizes(s, rank);
    hide WellFormed;
    var t := Created(s, p, isDir, c);
    forall h | Open(t.m.files, h)
      ensures OffsetOk(t.inodes, t.m.files[h])
    {
      assert OffsetOk(s.inodes, s.m.files[h]);
      assert s.m.files[h].inode != c && s.m.files[h].inode != p;
    }
  }

  lemma {:induction false} DeleteOffsets(s: Fs, rank: seq<nat>, n: int, y: Inode)
    requires WellFormed(s, rank) && HandlesRight(s) && OffsetsOk(s) && n in Live(s.m.inodeBits) && n != 0
    requires 0 <= s.inodes[n].parent < |s.inodes| && Removed(s.inodes[s.inodes[n].parent], y, n)
    ensures OffsetsOk(Deleted(s, rank, n, y))
  {
    Sizes(s, rank);
    hide WellFormed, Tree, Subtree, BlocksOf, InodeOk;
    SubBits(s, rank, n);
    var t, p := Deleted(s, rank, n, y), s.inodes[n].parent;
    var sub := Kind(s.inodes, Subtree(s.inodes, Live(s.m.inodeBits), rank, n), false);
    assert t.m.files == Closed(s.m.files, sub);
    forall h | Open(t.m.files, h)
      ensures OffsetOk(t.inodes, t.m.files[h])
    {
      assert t.m.files[h] == CloseOne(s.m.files[h], sub) && Open(s.m.files, h);
      assert OffsetOk(s.inodes, s.m.files[h]) && s.m.files[h].inode != p;
    }
  }

  /** A step keeps the tree and the handles sound exactly when it gives a handle an entity of its own kind. */
  lemma {:induction false} StepExactly(s: State, step: Step)
    requires Sound(s) && May(s, step)
    ensures Sound(Do(s, step)) <==> OwnKind(s, step)
    ensures !step.WriteFails? ==> KeepsBlocks(s.fs, Do(s, step).fs)
  {
    Sizes(s.fs, s.rank);
    match step
    case Create(h, isDir, c) =>
      var p := s.fs.m.dirs[h].inode;
      CreateKeeps(s.fs, s.rank, p, isDir, c);
      CreateHandles(s.fs, s.rank, p, isDir, c);
      CreateBlocks(s.fs, s.rank, p, isDir, c);
      CreateOffsets(s.fs, s.rank, p, isDir, c);
    case Delete(_, n, y) =>
      DeleteKeeps(s.fs, s.rank, n, y);
      DeleteHandles(s.fs, s.rank, n, y);
      DeleteFiles(s.fs, s.rank, n, y);
      DeleteBlocks(s.fs, s.rank, n, y);
      DeleteOffsets(s.fs, s.rank, n, y);
    case Write(_, _, _) => WriteStep(s, step);
    case WriteFails(_, _) => DrainStep(s, step);
    case _ => HandleStep(s, step);
  }

  lemma {:induction false} WriteStep(s: State, step: Step)
    requires Sound(s) && May(s, step) && step.Write?
    ensures Sound(Do(s, step)) && KeepsBlocks(s.fs, Do(s, step).fs)
  {
    hide WellFormed, FilesOk, Live, CanGrowBy, Grown, Lost, Fit, Reserved;
    var n, g := s.fs.m.files[step.h].inode, Grown(s.fs, s.fs.m.files[step.h].inode, step.bs);
    Sizes(s.fs, s.rank);
    GrownSound(s.fs, s.rank, n, step.bs);
    SizeFacts(s.fs, n);
    GrownFacts(s.fs, n, step.bs);
    GrownReserved(s.fs, n, step.bs);
    GrownHandles(s.fs, n, step.bs);
    var t := Do(s, step).fs;
    SameTree(s.(fs := g), s.(fs := t));
    forall h | Open(t.m.files, h)
      ensures OffsetOk(t.inodes, t.m.files[h])
    {
      assert Open(s.fs.m.files, h) && OffsetOk(s.fs.inodes, s.fs.m.files[h]);
    }
  }

  lemma {:induction false} DrainStep(s: State, step: Step)
    requires Sound(s) && May(s, step) && step.WriteFails?
    ensures Sound(Do(s, step))
  {
    hide WellFormed, FilesOk, Live;
    Sizes(s.fs, s.rank);
    DrainedKeeps(s.fs, s.rank);
  }

  lemma {:induction false} GrownReserved(s: Fs, n: int, bs: seq<int>)
    requires Reserved(s) && CanGrowBy(s, n, bs)
    ensures Reserved(Grown(s, n, bs))
    decreases |bs|
  {
    if bs != [] {
      GrownReserved(s, n, bs[..|bs| - 1]);
    }
  }

  predicate OnHandle(step: Step) { !step.Create? && !step.Delete? && !step.Write? && !step.WriteFails? }

  lemma {:induction false} HandleStep(s: State, step: Step)
    requires Sound(s) && May(s, step) && OnHandle(step)
    ensures Sound(Do(s, step)) <==> OwnKind(s, step)
    ensures KeepsBlocks(s.fs, Do(s, step).fs)
  {
    hide WellFormed, FilesOk, Reserved, Lost, OffsetsOk, Fit;
    var t := Do(s, step);
    Sizes(s.fs, s.rank);
    SameTree(s, t);
    HandleOffsets(s, step);
    hide OpenOnFile, Tree, InodeOk;
    var live := Live(s.fs.m.inodeBits);
    assert Live(t.fs.m.inodeBits) == live && t.fs.inodes == s.fs.inodes;
    match step
    case ChangeDir(h, n) =>
      assert t.fs.m.dirs[h].inode == n && t.fs.m.dirs[h].mount == s.fs.m.dirs[h].mount;
    case OpenFile(h, i, n) =>
      assert t.fs.m.files[i] == Handle(n, s.fs.m.dirs[h].mount, 0);
    case _ =>
  }

  /** A file is opened at its start; reading and seeking stay within it. */
  lemma {:induction false} HandleOffsets(s: State, step: Step)
    requires Sound(s) && May(s, step) && OnHandle(step)
    ensures OffsetsOk(Do(s, step).fs)
  {
    Sizes(s.fs, s.rank);
    hide WellFormed, FilesOk, Reserved, HandlesRight;
    var t := Do(s, step).fs;
    forall h | Open(t.m.files, h)
      ensures OffsetOk(t.inodes, t.m.files[h])
    {
      if !(step.OpenFile? && h == step.i) {
        assert Open(s.fs.m.files, h) && OffsetOk(s.fs.inodes, s.fs.m.files[h]);
      }
    }
  }

  // ------------------------------------------------------------------ runs

  ghost predicate CanRun(s: State, steps: seq<Step>)
    decreases |steps|
  {
    steps == [] || (May(s, steps[0]) && CanRun(Do(s, steps[0]), steps[1..]))
  }

  ghost function Run(s: State, steps: seq<Step>): State
    requires CanRun(s, steps)
    decreases |steps|
  {
    if steps == [] then s else Run(Do(s, steps[0]), steps[1..])
  }

  /** Every state that the run goes through is sound. */
  ghost predicate AllSound(s: State, steps: seq<Step>)
    requires CanRun(s, steps)
    decreases |steps|
  {
    Sound(s) && (steps == [] || AllSound(Do(s, steps[0]), steps[1..]))
  }

  ghost predicate AllOwnKind(s: State, steps: seq<Step>)
    requires CanRun(s, steps)
    decreases |steps|
  {
    steps == [] || (OwnKind(s, steps[0]) && AllOwnKind(Do(s, steps[0]), steps[1..]))
  }

  lemma {:induction false} RunExactly(s: State, steps: seq<Step>)
    requires Sound(s) && CanRun(s, steps)
    ensures AllSound(s, steps) <==> AllOwnKind(s, steps)
    decreases |steps|
  {
    hide Sound, May, Do, OwnKind;
    if steps != [] {
      StepExactly(s, steps[0]);
      if OwnKind(s, steps[0]) {
        RunExactly(Do(s, steps[0]), steps[1..]);
      } else {
        NotSound(Do(s, steps[0]), steps[1..]);
      }
    }
  }

  lemma NotSound(s: State, steps: seq<Step>)
    requires !Sound(s) && CanRun(s, steps)
    ensures !AllSound(s, steps)
  {
    hide Sound;
  }

  /** A file system just created, with no handle open. */
  ghost predicate Boot(s: State) {
    && Formatted(s.fs) && s.rank == seq(MAXINODES, _ => 0)
    && |s.fs.m.dirs| == |s.fs.m.files| == MAXHANDLES
    && forall i :: 0 <= i < MAXHANDLES ==> s.fs.m.dirs[i].mount == s.fs.m.files[i].mount == CLOSED
  }

  /**
   From a new file system: the tree stays well-formed, every open handle names a live entity of its own
   kind, and no offset is past the end of its file, in all states of the run, if and only if no handle is
   ever given an entity of the other kind.
   */
  lemma {:induction false} HandlesExactly(s: State, steps: seq<Step>)
    requires Boot(s) && CanRun(s, steps)
    ensures AllSound(s, steps) <==> AllOwnKind(s, steps)
  {
    BootSound(s);
    RunExactly(s, steps);
  }

  // ----------------------------------------------------------- lost blocks

  /** A write that runs out of blocks after it took some. */
  ghost predicate Loses(s: State, step: Step) { step.WriteFails? && Unmarked(s.fs.m.blockBits, 3) > 0 }

  ghost predicate NoneLoses(s: State, steps: seq<Step>)
    requires CanRun(s, steps)
    decreases |steps|
  {
    steps == [] || (!Loses(s, steps[0]) && NoneLoses(Do(s, steps[0]), steps[1..]))
  }

  lemma {:induction false} StepLoss(s: State, step: Step)
    requires Sound(s) && May(s, step) && OwnKind(s, step)
    ensures var t := Do(s, step);
            && Sound(t) && Fit(s.fs.inodes, Live(s.fs.m.inodeBits)) && Fit(t.fs.inodes, Live(t.fs.m.inodeBits))
            && (forall b :: b in Lost(s.fs) ==> b in Lost(t.fs))
            && (Lost(t.fs) == Lost(s.fs) <==> !Loses(s, step))
  {
    StepExactly(s, step);
    hide Lost, Live, Fit, HandlesRight, Reserved, May, OwnKind;
    if step.WriteFails? {
      DrainedLost(s.fs, s.rank);
    }
  }

  /** Lost blocks stay lost, and only writes that run out of blocks lose any. */
  lemma {:induction false} RunLoss(s: State, steps: seq<Step>)
    requires Sound(s) && CanRun(s, steps) && AllOwnKind(s, steps)
    ensures var t := Run(s, steps);
            && Sound(t) && Fit(s.fs.inodes, Live(s.fs.m.inodeBits)) && Fit(t.fs.inodes, Live(t.fs.m.inodeBits))
            && (forall b :: b in Lost(s.fs) ==> b in Lost(t.fs))
            && (Lost(t.fs) == Lost(s.fs) <==> NoneLoses(s, steps))
    decreases |steps|
  {
    LiveFit(s.fs, s.rank);
    hide Sound, May, Do, OwnKind, Lost, Live, Fit;
    if steps != [] {
      StepLoss(s, steps[0]);
      RunLoss(Do(s, steps[0]), steps[1..]);
    }
  }

  /**
   From a new file system, as long as handles are of their own kind: `used_blocks` is the metadata, the
   blocks of the files and the lost blocks, and no block is lost if and only if no write ran out of
   blocks after it had taken one.
   */
  lemma {:induction false} BlocksExactly(s: State, steps: seq<Step>)
    requires Boot(s) && CanRun(s, steps) && AllOwnKind(s, steps)
    ensures var t := Run(s, steps).fs;
            && Fit(t.inodes, Live(t.m.inodeBits))
            && t.usedBlocks == 3 + |Owned(t)| + |Lost(t)|
            && (Lost(t) == {} <==> NoneLoses(s, steps))
  {
    BootSound(s);
    RunLoss(s, steps);
    BlocksCounted(Run(s, steps).fs, Run(s, steps).rank);
  }

  /** So no read, write or seek ever starts past the end of its file: writes leave no gap (`NoGap`). */
  lemma {:induction false} OffsetsKept(s: State, steps: seq<Step>, h: int)
    requires Boot(s) && CanRun(s, steps) && AllOwnKind(s, steps) && Open(Run(s, steps).fs.m.files, h)
    ensures var t := Run(s, steps).fs;
            |t.inodes| == |t.m.inodeBits| && OpenOnFile(t, h) && 0 <= t.m.files[h].offset <= FileOf(t, h).size
  {
    BootSound(s);
    RunLoss(s, steps);
    Sizes(Run(s, steps).fs, Run(s, steps).rank);
    hide WellFormed, FilesOk, Live;
    assert OffsetOk(Run(s, steps).fs.inodes, Run(s, steps).fs.m.files[h]);
  }

  lemma {:induction false} BootSound(s: State)
    requires Boot(s)
    ensures Sound(s) && Fit(s.fs.inodes, Live(s.fs.m.inodeBits)) && Lost(s.fs) == {}
  {
    FormatWellFormed(s.fs);
    assert forall n :: n in Live(s.fs.m.inodeBits) ==> 0 <= n < |s.fs.inodes|;
    forall b
      ensures b !in Lost(s.fs)
    {
    }
  }

  // --------------------------------------- what happens with the other kind

  lemma Then(s: State, step: Step, steps: seq<Step>)
    requires May(s, step) && CanRun(Do(s, step), steps)
    ensures CanRun(s, [step] + steps) && Run(s, [step] + steps) == Run(Do(s, step), steps)
  {
    hide May, Do;
    assert ([step] + steps)[1..] == steps;
  }

  /** A file system with the one entity 1 in its root, and handle 0 open on the root. */
  ghost predicate OneEntity(s: State, isDir: bool) {
    && WellFormed(s.fs, s.rank) && |s.fs.inodes| == |s.fs.m.inodeBits| == MAXINODES
    && Live(s.fs.m.inodeBits) == {0, 1}
    && s.fs.inodes[1] == FreshInode(isDir, 0)
    && s.fs.inodes[0].isDir && InodeOk(s.fs.inodes[0]) && s.fs.inodes[0].size == 1 && s.fs.inodes[0].mappings[0] == 1
    && Open(s.fs.m.dirs, 0) && FirstClosed(s.fs.m.files, 0)
  }

  function Prefix(isDir: bool): seq<Step> { [OpenRoot(0), Create(0, isDir, 1)] }

  lemma {:induction false} OneMade(s: State, isDir: bool, steps: seq<Step>)
    requires Boot(s)
    ensures May(s, OpenRoot(0)) && May(Do(s, OpenRoot(0)), Create(0, isDir, 1))
    ensures var t := Do(Do(s, OpenRoot(0)), Create(0, isDir, 1));
            && OneEntity(t, isDir)
            && (CanRun(t, steps) ==> CanRun(s, Prefix(isDir) + steps) && Run(s, Prefix(isDir) + steps) == Run(t, steps))
  {
    FormatWellFormed(s.fs);
    var a := Do(s, OpenRoot(0));
    HandleStep(s, OpenRoot(0));
    var live := Live(s.fs.m.inodeBits);
    assert live == {0};
    CreateKeeps(a.fs, a.rank, 0, isDir, 1);
    var t := Do(a, Create(0, isDir, 1));
    assert Live(t.fs.m.inodeBits) == {0, 1};
    if CanRun(t, steps) {
      Then(a, Create(0, isDir, 1), steps);
      Then(s, OpenRoot(0), [Create(0, isDir, 1)] + steps);
      assert Prefix(isDir) + steps == [OpenRoot(0)] + ([Create(0, isDir, 1)] + steps);
    }
  }

  /** The handle that is given the entity 1 although it is of the other kind, and the deletion of 1. */
  function Strand(isDir: bool, y: Inode): seq<Step> {
    [if isDir then OpenFile(0, 0, 1) else ChangeDir(0, 1), Delete(0, 1, y)]
  }

  /** Directory handle or file handle h is open on an inode that is free. */
  ghost predicate Stale(s: Fs, dirs: bool, h: int) {
    var hs := if dirs then s.m.dirs else s.m.files;
    Open(hs, h) && hs[h].inode !in Live(s.m.inodeBits)
  }

  /** The root without its entry. */
  function Emptied(x: Inode): Inode { x.(size := 0) }

  /** Deleting the one entity empties the root. */
  lemma EmptiedRoot(x: Inode)
    requires InodeOk(x) && x.isDir && x.size == 1 && x.mappings[0] == 1
    ensures Removed(x, Emptied(x), 1)
  {
    assert Entries(Emptied(x)) == Entries(x)[..0] + Entries(x)[1..];
  }

  lemma {:induction false} StrandCan(t: State, isDir: bool, y: Inode)
    requires OneEntity(t, isDir) && y == Emptied(t.fs.inodes[0])
    ensures CanRun(t, Strand(isDir, y))
    ensures Stale(Run(t, Strand(isDir, y)).fs, !isDir, 0)
  {
    hide WellFormed, Removed, Live, InodeOk, Deleted;
    var give := Strand(isDir, y)[0];
    assert 1 in Live(t.fs.m.inodeBits);
    assert May(t, give);
    var u := Do(t, give);
    SameTree(t, u);
    EmptiedRoot(t.fs.inodes[0]);
    assert May(u, Delete(0, 1, y));
    var v := Do(u, Delete(0, 1, y));
    Alone(u, isDir, y);
    Then(u, Delete(0, 1, y), []);
    Then(t, give, [Delete(0, 1, y)]);
    assert Strand(isDir, y) == [give] + [Delete(0, 1, y)] && [Delete(0, 1, y)] == [Delete(0, 1, y)] + [];
  }

  /** Deleting 1 closes the handles of its own kind only. */
  lemma {:induction false} Alone(u: State, isDir: bool, y: Inode)
    requires WellFormed(u.fs, u.rank) && 1 in Live(u.fs.m.inodeBits) && |u.fs.inodes| == MAXINODES
    requires u.fs.inodes[1] == FreshInode(isDir, 0)
    ensures var t := Deleted(u.fs, u.rank, 1, y);
            && 1 !in Live(t.m.inodeBits)
            && (if isDir then t.m.files == u.fs.m.files else t.m.dirs == u.fs.m.dirs)
  {
    var live := Live(u.fs.m.inodeBits);
    var sub := Subtree(u.fs.inodes, live, u.rank, 1);
    if isDir {
      assert Below(u.fs.inodes, live, u.rank, 1, 0) == {};
    }
    assert sub == {1};
    SubBits(u.fs, u.rank, 1);
    ErasedBits(u.fs.inodes, u.fs.m, sub);
    FileParts(u.fs.inodes, 1);
    Nothing(u.fs.m.inodeBits, u.fs.m.files);
    Nothing(u.fs.m.inodeBits, u.fs.m.dirs);
  }

  /**
   The comment at `delete_entity` says that it closes all handles on the entity. From any new file system,
   a directory handle moved to a file, or a file handle opened on a directory, stays open on an inode
   that is free.
   */
  lemma {:induction false} StaleRun(s: State, isDir: bool) returns (steps: seq<Step>)
    requires Boot(s)
    ensures CanRun(s, steps) && Stale(Run(s, steps).fs, !isDir, 0)
  {
    OneMade(s, isDir, []);
    var t := Do(Do(s, OpenRoot(0)), Create(0, isDir, 1));
    var y := Emptied(t.fs.inodes[0]);
    StrandCan(t, isDir, y);
    steps := Prefix(isDir) + Strand(isDir, y);
    OneMade(s, isDir, Strand(isDir, y));
  }

  /** An entity created through a directory handle that was moved to a file is in no directory. */
  lemma {:induction false} CorruptRun(s: State, isDir: bool) returns (steps: seq<Step>)
    requires Boot(s)
    ensures CanRun(s, steps) && forall heights :: !WellFormed(Run(s, steps).fs, heights)
  {
    OneMade(s, false, []);
    var t := Do(Do(s, OpenRoot(0)), Create(0, false, 1));
    var u := Do(t, ChangeDir(0, 1));
    SameTree(t, u);
    assert May(u, Create(0, isDir, 2));
    var v := Do(u, Create(0, isDir, 2));
    forall heights
      ensures !WellFormed(v.fs, heights)
    {
      if WellFormed(v.fs, heights) {
        CreatedIn(u.fs, u.rank, 1, isDir, 2, heights);
        assert false;
      }
    }
    Then(u, Create(0, isDir, 2), []);
    Then(t, ChangeDir(0, 1), [Create(0, isDir, 2)]);
    var rest := [ChangeDir(0, 1)] + [Create(0, isDir, 2)];
    assert [Create(0, isDir, 2)] + [] == [Create(0, isDir, 2)];
    steps := Prefix(false) + rest;
    OneMade(s, false, rest);
  }
}
