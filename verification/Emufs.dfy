/**
 The emulated file system's metadata and what deleting a subtree does to it. Paths are resolved
 elsewhere: an entity is given by its inode number. One mount point.
 */
module Emufs {

  const BLOCKSIZE := 256
  const MAXBLOCKS := 64
  const MAXINODES := 32
  const ENTRIES := 4
  const CLOSED := -1

  /** A file maps blocks, a directory maps inodes. `size` is in bytes or in entries. */
  datatype Inode = Inode(isDir: bool, parent: int, size: int, mappings: seq<int>)

  /** The offset is that of file handles. */
  datatype Handle = Handle(inode: int, mount: int, offset: int)

  function NumBlocks(size: int): (r: int)
    ensures 0 <= size <= ENTRIES * BLOCKSIZE ==> 0 <= r <= ENTRIES && (r - 1) * BLOCKSIZE < size <= r * BLOCKSIZE
  {
    if size / BLOCKSIZE * BLOCKSIZE < size then size / BLOCKSIZE + 1 else size / BLOCKSIZE
  }

  // ---------------------------------------------------------------- trees

  predicate InodeOk(x: Inode) {
    && |x.mappings| == ENTRIES
    && (if x.isDir then 0 <= x.size <= ENTRIES else 0 <= x.size <= ENTRIES * BLOCKSIZE)
  }

  /** Entry k of directory d names a live inode, further from the root, with d as its parent. */
  predicate ChildOk(inodes: seq<Inode>, live: set<int>, rank: seq<nat>, d: int, k: int)
    requires |inodes| == |rank| == MAXINODES && 0 <= d < MAXINODES
  {
    InodeOk(inodes[d]) && (inodes[d].isDir && 0 <= k < inodes[d].size ==>
      var c := inodes[d].mappings[k];
      && 0 < c < MAXINODES && c in live && inodes[c].parent == d && rank[c] < rank[d])
  }

  /** The live inodes form a tree; `rank` bounds the height below each. */
  ghost predicate Tree(inodes: seq<Inode>, live: set<int>, rank: seq<nat>) {
    && |inodes| == |rank| == MAXINODES
    && (forall n :: n in live ==> 0 <= n < MAXINODES && InodeOk(inodes[n]))
    && (forall d, k {:trigger ChildOk(inodes, live, rank, d, k)} :: d in live ==> ChildOk(inodes, live, rank, d, k))
    && (forall d, j, k :: d in live && inodes[d].isDir && 0 <= j < k < inodes[d].size ==>
          inodes[d].mappings[j] != inodes[d].mappings[k])
  }

  /** The subtrees of the first k entries of d. */
  ghost function Below(inodes: seq<Inode>, live: set<int>, rank: seq<nat>, d: int, k: int): (r: set<int>)
    requires Tree(inodes, live, rank) && d in live && inodes[d].isDir && 0 <= k <= inodes[d].size
    ensures forall x :: x in r ==> x in live && rank[x] < rank[d]
    decreases rank[d], k
  {
    if k == 0 then {}
    else
      assert ChildOk(inodes, live, rank, d, k - 1);
      Below(inodes, live, rank, d, k - 1) + Subtree(inodes, live, rank, inodes[d].mappings[k - 1])
  }

  /** An entity and everything in it. */
  ghost function Subtree(inodes: seq<Inode>, live: set<int>, rank: seq<nat>, n: int): (r: set<int>)
    requires Tree(inodes, live, rank) && n in live
    ensures n in r && forall x :: x in r ==> x in live && rank[x] <= rank[n]
    decreases rank[n], ENTRIES + 1
  {
    {n} + if inodes[n].isDir then Below(inodes, live, rank, n, inodes[n].size) else {}
  }

  /** The blocks of the first k mappings of a file. */
  function FileBlocks(x: Inode, k: int): set<int>
    requires 0 <= k <= |x.mappings|
  {
    set j | 0 <= j < k :: x.mappings[j]
  }

  function BlocksOf1(x: Inode): set<int>
    requires InodeOk(x)
  {
    if x.isDir then {} else FileBlocks(x, NumBlocks(x.size))
  }

  /** The blocks of the files in a set of inodes. */
  ghost function BlocksOf(inodes: seq<Inode>, s: set<int>): set<int>
    requires forall n :: n in s ==> 0 <= n < |inodes| && InodeOk(inodes[n])
  {
    set n, b | n in s && b in BlocksOf1(inodes[n]) :: b
  }

  /** All of s that are files, or all that are directories. */
  ghost function Kind(inodes: seq<Inode>, s: set<int>, dirs: bool): set<int>
    requires forall n :: n in s ==> 0 <= n < |inodes|
  {
    set n | n in s && inodes[n].isDir == dirs
  }

  // ------------------------------------------------------ bits and handles

  function Cleared(bits: seq<bool>, s: set<int>): (r: seq<bool>)
    ensures |r| == |bits|
  {
    seq(|bits|, i requires 0 <= i < |bits| => bits[i] && i !in s)
  }

  function Count(bits: seq<bool>): int {
    if bits == [] then 0 else Count(bits[..|bits| - 1]) + if bits[|bits| - 1] then 1 else 0
  }

  function CloseOne(h: Handle, s: set<int>): Handle { if h.inode in s then h.(mount := CLOSED) else h }

  function Closed(hs: seq<Handle>, s: set<int>): (r: seq<Handle>)
    ensures |r| == |hs|
  {
    seq(|hs|, i requires 0 <= i < |hs| => CloseOne(hs[i], s))
  }

  lemma ClearedTwice(bits: seq<bool>, s: set<int>, t: set<int>)
    ensures Cleared(Cleared(bits, s), t) == Cleared(bits, s + t)
  {
  }

  lemma Nothing(bits: seq<bool>, hs: seq<Handle>)
    ensures Cleared(bits, {}) == bits && Closed(hs, {}) == hs
  {
  }

  /** As many bits are cleared as there were set ones among s. */
  lemma {:induction false} CountCleared(bits: seq<bool>, s: set<int>)
    requires forall i :: i in s ==> 0 <= i < |bits| && bits[i]
    ensures Count(Cleared(bits, s)) == Count(bits) - |s|
  {
    if bits == [] {
      forall i
        ensures i !in s
      {
      }
      assert s == {};
    } else {
      var n := |bits| - 1;
      var rest := s - {n};
      CountCleared(bits[..n], rest);
      assert Cleared(bits, s)[..n] == Cleared(bits[..n], rest);
    }
  }

  lemma BlocksJoin(inodes: seq<Inode>, s: set<int>, t: set<int>)
    requires forall n :: n in s + t ==> 0 <= n < |inodes| && InodeOk(inodes[n])
    ensures BlocksOf(inodes, s + t) == BlocksOf(inodes, s) + BlocksOf(inodes, t)
    ensures forall d :: Kind(inodes, s + t, d) == Kind(inodes, s, d) + Kind(inodes, t, d)
  {
  }

  lemma CountOne(bits: seq<bool>, i: int)
    requires 0 <= i < |bits| && bits[i]
    ensures Count(bits[i := false]) == Count(bits) - 1 && bits[i := false] == Cleared(bits, {i})
  {
    CountCleared(bits, {i});
    assert bits[i := false] == Cleared(bits, {i});
  }

  /** What one entity adds to the blocks and kinds of those before it. */
  lemma {:induction false} FileParts(inodes: seq<Inode>, n: int)
    requires 0 <= n < |inodes| && InodeOk(inodes[n])
    ensures BlocksOf(inodes, {n}) == BlocksOf1(inodes[n])
    ensures Kind(inodes, {n}, inodes[n].isDir) == {n} && Kind(inodes, {n}, !inodes[n].isDir) == {}
    ensures BlocksOf(inodes, {}) == {} && Kind(inodes, {}, true) == {} && Kind(inodes, {}, false) == {}
  {
    forall b
      ensures b in BlocksOf(inodes, {n}) <==> b in BlocksOf1(inodes[n])
    {
      assert n in {n};
    }
  }

  /** The mappings of live files are block numbers. */
  ghost predicate BlocksInRange(inodes: seq<Inode>, live: set<int>) {
    forall n, b :: n in live && 0 <= n < |inodes| && InodeOk(inodes[n]) && b in BlocksOf1(inodes[n]) ==>
        3 <= b < MAXBLOCKS
  }

  /** The bitmaps and the handles. */
  datatype Meta = Meta(inodeBits: seq<bool>, blockBits: seq<bool>, files: seq<Handle>, dirs: seq<Handle>)

  ghost predicate Fit(inodes: seq<Inode>, s: set<int>) {
    forall n :: n in s ==> 0 <= n < |inodes| && InodeOk(inodes[n])
  }

  /** What is left when the inodes s are deleted: their bits, their blocks' bits, their handles go. */
  ghost function Erase(inodes: seq<Inode>, m: Meta, s: set<int>): Meta
    requires Fit(inodes, s)
  {
    Meta(Cleared(m.inodeBits, s), Cleared(m.blockBits, BlocksOf(inodes, s)),
         Closed(m.files, Kind(inodes, s, false)), Closed(m.dirs, Kind(inodes, s, true)))
  }

  lemma EraseTwice(inodes: seq<Inode>, m: Meta, s: set<int>, t: set<int>)
    requires Fit(inodes, s) && Fit(inodes, t)
    ensures Fit(inodes, s + t) && Erase(inodes, Erase(inodes, m, s), t) == Erase(inodes, m, s + t)
  {
    BlocksJoin(inodes, s, t);
  }

  lemma EraseNothing(inodes: seq<Inode>, m: Meta)
    ensures Erase(inodes, m, {}) == m
  {
    Nothing(m.inodeBits, m.files);
    Nothing(m.blockBits, m.dirs);
    assert BlocksOf(inodes, {}) == {} && Kind(inodes, {}, true) == {} && Kind(inodes, {}, false) == {};
  }

  /** A directory's own handles go first, its inode bit last. */
  lemma EraseDir(inodes: seq<Inode>, m: Meta, n: int, s: set<int>)
    requires Fit(inodes, {n} + s) && inodes[n].isDir
    ensures Fit(inodes, s)
    ensures var e := Erase(inodes, m.(dirs := Closed(m.dirs, {n})), s);
            e.(inodeBits := Cleared(e.inodeBits, {n})) == Erase(inodes, m, {n} + s)
  {
    FileParts(inodes, n);
    EraseTwice(inodes, m, {n}, s);
    assert Closed(m.files, {}) == m.files && Cleared(m.blockBits, {}) == m.blockBits;
    ClearedTwice(m.inodeBits, s, {n});
    assert s + {n} == {n} + s;
  }

  lemma EraseFile(inodes: seq<Inode>, m: Meta, n: int)
    requires Fit(inodes, {n}) && !inodes[n].isDir
    ensures Erase(inodes, m, {n}) ==
            Meta(Cleared(m.inodeBits, {n}), Cleared(m.blockBits, BlocksOf1(inodes[n])), Closed(m.files, {n}), m.dirs)
  {
    FileParts(inodes, n);
    Nothing(m.blockBits, m.dirs);
  }

  class FileSystem {
    var inodes: seq<Inode>         // the metadata blocks
    var inodeBits: seq<bool>
    var blockBits: seq<bool>
    var usedInodes: int
    var usedBlocks: int
    var files: seq<Handle>
    var dirs: seq<Handle>

    ghost predicate Sizes()
      reads this
    {
      |inodes| == |inodeBits| == MAXINODES && |blockBits| == MAXBLOCKS
    }

    /** How far the counters are from the bitmaps. */
    ghost function InodeError(): int
      reads this
    {
      usedInodes - Count(inodeBits)
    }

    ghost function BlockError(): int
      reads this
    {
      usedBlocks - Count(blockBits)
    }

    method FreeInode(n: int)
      requires 0 <= n < |inodeBits|
      modifies this`inodeBits, this`usedInodes
      ensures inodeBits == Cleared(old(inodeBits), {n}) && InodeError() == old(InodeError())
    {
      if inodeBits[n] {
        CountOne(inodeBits, n);
        inodeBits := inodeBits[n := false];
        usedInodes := usedInodes - 1;
      }
    }

    method FreeDatablock(b: int)
      requires 0 <= b < |blockBits|
      modifies this`blockBits, this`usedBlocks
      ensures blockBits == Cleared(old(blockBits), {b}) && BlockError() == old(BlockError())
    {
      if blockBits[b] {
        CountOne(blockBits, b);
        blockBits := blockBits[b := false];
        usedBlocks := usedBlocks - 1;
      }
    }

    /** The file branch of `delete_entity`. */
    method DeleteFile(n: int)
      requires Sizes() && 0 <= n < MAXINODES && InodeOk(inodes[n]) && !inodes[n].isDir
      requires forall b :: b in BlocksOf1(inodes[n]) ==> 3 <= b < MAXBLOCKS
      modifies this`inodeBits, this`usedInodes, this`blockBits, this`usedBlocks, this`files
      ensures Sizes() && InodeError() == old(InodeError()) && BlockError() == old(BlockError())
      ensures inodeBits == Cleared(old(inodeBits), {n}) && blockBits == Cleared(old(blockBits), BlocksOf1(inodes[n]))
      ensures files == Closed(old(files), {n})
    {
      var x := inodes[n];
      var i := 0;
      while i < |files|
        modifies this`files
        invariant 0 <= i <= |files| == |old(files)|
        invariant forall j :: 0 <= j < |files| ==>
                    files[j] == if j < i then CloseOne(old(files)[j], {n}) else old(files)[j]
      {
        if files[i].inode == n {
          files := files[i := files[i].(mount := CLOSED)];
        }
        i := i + 1;
      }
      assert files == Closed(old(files), {n});
      var blocks := x.size / BLOCKSIZE;
      if blocks * BLOCKSIZE < x.size {
        blocks := blocks + 1;
      }
      assert blocks == NumBlocks(x.size);
      i := 0;
      Nothing(blockBits, []);
      assert FileBlocks(x, 0) == {};
      while i < blocks
        modifies this`blockBits, this`usedBlocks
        invariant 0 <= i <= blocks <= ENTRIES && |blockBits| == MAXBLOCKS && BlockError() == old(BlockError())
        invariant blockBits == Cleared(old(blockBits), FileBlocks(x, i))
      {
        assert x.mappings[i] in BlocksOf1(x);
        ClearedTwice(old(blockBits), FileBlocks(x, i), {x.mappings[i]});
        assert FileBlocks(x, i + 1) == FileBlocks(x, i) + {x.mappings[i]};
        FreeDatablock(x.mappings[i]);
        i := i + 1;
      }
      FreeInode(n);
    }

    ghost function M(): Meta
      reads this
    {
      Meta(inodeBits, blockBits, files, dirs)
    }

    method CloseDirs(n: int)
      modifies this`dirs
      ensures dirs == Closed(old(dirs), {n})
    {
      ghost var ds := dirs;
      var i := 0;
      while i < |dirs|
        invariant 0 <= i <= |dirs| == |ds|
        invariant forall j :: 0 <= j < |dirs| ==> dirs[j] == if j < i then CloseOne(ds[j], {n}) else ds[j]
      {
        if dirs[i].inode == n {
          dirs := dirs[i := dirs[i].(mount := CLOSED)];
        }
        i := i + 1;
      }
    }

    /** `delete_entity` */
    method DeleteEntity(n: int, ghost live: set<int>, ghost rank: seq<nat>) returns (p: int)
      requires Sizes() && Tree(inodes, live, rank) && BlocksInRange(inodes, live) && n in live
      modifies this`inodeBits, this`usedInodes, this`blockBits, this`usedBlocks, this`files, this`dirs
      ensures Sizes() && p == inodes[n].parent
      ensures InodeError() == old(InodeError()) && BlockError() == old(BlockError())
      ensures Fit(inodes, Subtree(inodes, live, rank, n))
      ensures M() == Erase(inodes, old(M()), Subtree(inodes, live, rank, n))
      decreases rank[n]
    {
      hide Erase, Cleared, Closed, BlocksOf, Kind, Count, Below, Subtree, BlocksOf1, Tree;
      NodeParts(inodes, live, rank, n);
      var x := inodes[n];
      ghost var m := M();
      if !x.isDir {
        FileInRange(inodes, live, n);
        EraseFile(inodes, m, n);
        DeleteFile(n);
        return x.parent;
      }
      CloseDirs(n);
      ghost var m1 := M();
      EraseNothing(inodes, m1);
      var i := 0;
      while i < x.size
        invariant 0 <= i <= x.size && Sizes()
        invariant InodeError() == old(InodeError()) && BlockError() == old(BlockError())
        invariant Fit(inodes, Below(inodes, live, rank, n, i))
                  && M() == Erase(inodes, m1, Below(inodes, live, rank, n, i))
      {
        EntryParts(inodes, live, rank, n, i);
        ghost var s, t := Below(inodes, live, rank, n, i), Subtree(inodes, live, rank, x.mappings[i]);
        var _ := DeleteEntity(x.mappings[i], live, rank);
        EraseTwice(inodes, m1, s, t);
        i := i + 1;
      }
      ghost var s := Below(inodes, live, rank, n, x.size);
      EraseDir(inodes, m, n, s);
      FreeInode(n);
      p := x.parent;
    }

    ghost function State(): Fs
      reads this
    {
      Fs(inodes, M(), usedInodes, usedBlocks)
    }

    /** `emufs_delete` of the entity that the path names, which is not the root. */
    method Delete(n: int, ghost rank: seq<nat>)
      requires WellFormed(State(), rank) && n in Live(inodeBits) && n != 0
      modifies this
      ensures 0 <= old(inodes[n]).parent < |old(inodes)|
      ensures var p := old(inodes[n]).parent;
              |inodes| == |old(inodes)| && Removed(old(inodes[p]), inodes[p], n)
              && State() == Deleted(old(State()), rank, n, inodes[p])
      ensures WellFormed(State(), rank)
    {
      hide Subtree, Erase, Count, Removed, BlocksOf, BlocksOf1, Cleared;
      ghost var s, live := State(), Live(inodeBits);
      var p := inodes[n].parent;
      ghost var k := EntryOf(s, rank, n);
      SubBits(s, rank, n);
      var parent := inodes[p];
      var _ := DeleteEntity(n, live, rank);
      var y := RemoveEntry(parent, n, k);
      ghost var sub := Subtree(s.inodes, live, rank, n);
      CountsAfter(s, rank, n);
      inodes := inodes[p := y];
      assert State() == Deleted(s, rank, n, y);
      DeleteKeeps(s, rank, n, y);
    }

    /** `alloc_inode`: the first free inode, or -1. */
    method AllocInode() returns (n: int)
      requires |inodeBits| == MAXINODES
      modifies this`inodeBits, this`usedInodes
      ensures n == -1 ==> inodeBits == old(inodeBits) && usedInodes == old(usedInodes)
      ensures n == -1 ==> forall i :: 0 <= i < MAXINODES ==> inodeBits[i]
      ensures n != -1 ==> FirstFree(old(inodeBits), n)
      ensures n != -1 ==> inodeBits == old(inodeBits)[n := true] && usedInodes == old(usedInodes) + 1
    {
      n := 0;
      while n < MAXINODES
        invariant 0 <= n <= MAXINODES && inodeBits == old(inodeBits) && usedInodes == old(usedInodes)
        invariant forall i :: 0 <= i < n ==> inodeBits[i]
      {
        if !inodeBits[n] {
          inodeBits := inodeBits[n := true];
          usedInodes := usedInodes + 1;
          return;
        }
        n := n + 1;
      }
      n := -1;
    }

    /**
     `emufs_create` through a handle on p; `taken` says that an entity of that name and type is there.
     The code does not test that p is a directory.
     */
    method Create(p: int, isDir: bool, taken: bool, ghost rank: seq<nat>) returns (r: int, ghost c: int)
      requires WellFormed(State(), rank) && p in Live(inodeBits) && inodes[p].size <= ENTRIES
      modifies this`inodes, this`inodeBits, this`usedInodes
      ensures 0 <= p < |old(inodes)|
      ensures r == -1 || r == 1
      ensures r == -1 <==>
              old(inodes)[p].size == ENTRIES || taken || (forall i :: 0 <= i < MAXINODES ==> old(inodeBits)[i])
      ensures r == -1 ==> State() == old(State())
      ensures r == 1 ==> FirstFree(old(inodeBits), c) && |old(inodes)| == |old(inodeBits)| == MAXINODES
                         && 0 <= old(inodes)[p].size < |old(inodes)[p].mappings|
                         && State() == Created(old(State()), p, isDir, c)
      ensures r == 1 ==> |inodes| == |old(inodes)| && inodes[c].isDir == isDir && inodes[c].size == 0
      ensures r == 1 && old(inodes)[p].isDir ==>
                && c != p && inodes[c].parent == p && inodes[p].size == old(inodes)[p].size + 1
                && inodes[p].mappings == old(inodes)[p].mappings[old(inodes)[p].size := c]
                && (forall j :: 0 <= j < |inodes| && j != c && j != p ==> inodes[j] == old(inodes)[j])
      ensures r == 1 && old(inodes)[p].isDir ==> WellFormed(State(), Raised(rank, c))
      ensures r == 1 && !old(inodes)[p].isDir ==> forall heights :: !WellFormed(State(), heights)
    {
      hide Tree, Linked, BlocksOk, Count;
      ghost var s := State();
      RootedSizes(s, Live(inodeBits), rank);
      c := -1;
      var parent := inodes[p];
      if parent.size == ENTRIES || taken {
        return -1, -1;
      }
      var n := AllocInode();
      if n == -1 {
        return -1, -1;
      }
      c := n;
      if inodes[p].isDir {
        CreateKeeps(s, rank, p, isDir, c);
      }
      forall heights | WellFormed(Created(s, p, isDir, c), heights)
        ensures s.inodes[p].isDir
      {
        CreatedIn(s, rank, p, isDir, c, heights);
      }
      parent := parent.(mappings := parent.mappings[parent.size := n], size := parent.size + 1);
      inodes := inodes[p := parent];
      inodes := inodes[n := Inode(isDir, p, 0, [-1, -1, -1, -1])];
      assert State() == Created(s, p, isDir, c);
      r := 1;
    }

    method OpenRoot(mount: int) returns (i: int)
      modifies this`dirs
      ensures i == -1 <==> NoneClosed(old(dirs))
      ensures i == -1 ==> dirs == old(dirs)
      ensures i != -1 ==> FirstClosed(old(dirs), i) && State() == RootOpened(old(State()), i, mount)
      ensures i != -1 ==> |dirs| == |old(dirs)| && dirs[i].inode == 0 && dirs[i].mount == mount
      ensures i != -1 ==> forall j :: 0 <= j < |dirs| && j != i ==> dirs[j] == old(dirs)[j]
    {
      i := AllocHandle(dirs);
      if i == -1 {
        return;
      }
      dirs := dirs[i := dirs[i].(inode := 0)];
      dirs := dirs[i := dirs[i].(mount := mount)];
    }

    /** `change_dir`, with the inode that its path names, or -1. */
    method ChangeDir(h: int, target: int) returns (r: int)
      modifies this`dirs
      ensures r == -1 || r == 1
      ensures r == -1 <==> !(0 <= h < |old(dirs)|) || target == -1
      ensures r == -1 ==> dirs == old(dirs)
      ensures r == 1 ==> State() == DirChanged(old(State()), h, target)
      ensures r == 1 ==> |dirs| == |old(dirs)| && dirs[h].inode == target && dirs[h].mount == old(dirs)[h].mount
      ensures r == 1 ==> forall j :: 0 <= j < |dirs| && j != h ==> dirs[j] == old(dirs)[j]
    {
      if h < 0 || h >= |dirs| {
        return -1;
      }
      if target == -1 {
        return -1;
      }
      dirs := dirs[h := dirs[h].(inode := target)];
      r := 1;
    }

    /** `open_file`, with the inode that its path names, or -1. */
    method OpenFile(h: int, target: int) returns (i: int)
      requires 0 <= h < |dirs|
      modifies this`files
      ensures i == -1 <==> target == -1 || NoneClosed(old(files))
      ensures i == -1 ==> |files| == |old(files)| && forall j :: 0 <= j < |files| ==>
                files[j].mount == old(files)[j].mount && (files[j].mount != CLOSED ==> files[j] == old(files)[j])
      ensures i != -1 ==> FirstClosed(old(files), i) && State() == FileOpened(old(State()), h, i, target)
      ensures i != -1 ==> |files| == |old(files)| && files[i] == Handle(target, dirs[h].mount, 0)
      ensures i != -1 ==> forall j :: 0 <= j < |files| && j != i ==> files[j] == old(files)[j]
    {
      i := AllocHandle(files);
      if i == -1 {
        return;
      }
      files := files[i := files[i].(inode := target)];
      if files[i].inode == -1 {
        return -1;
      }
      files := files[i := files[i].(mount := dirs[h].mount)];
      files := files[i := files[i].(offset := 0)];
    }

    /** `emufs_close` */
    method Close(h: int, isDir: bool)
      requires 0 <= h < if isDir then |dirs| else |files|
      modifies this`dirs, this`files
      ensures State() == HandleClosed(old(State()), h, isDir)
      ensures |dirs| == |old(dirs)| && |files| == |old(files)|
      ensures forall j :: 0 <= j < |dirs| ==>
                if isDir && j == h then dirs[j].mount == CLOSED else dirs[j] == old(dirs)[j]
      ensures forall j :: 0 <= j < |files| ==>
                if !isDir && j == h then files[j].mount == CLOSED else files[j] == old(files)[j]
    {
      if isDir {
        dirs := dirs[h := dirs[h].(mount := CLOSED)];
      } else {
        files := files[h := files[h].(mount := CLOSED)];
      }
    }
  }

  /** `alloc_dir_handle` and `alloc_file_handle`: the first closed handle, or -1. */
  method AllocHandle(hs: seq<Handle>) returns (i: int)
    ensures i == -1 <==> NoneClosed(hs)
    ensures i != -1 ==> FirstClosed(hs, i)
  {
    i := 0;
    while i < |hs|
      invariant 0 <= i <= |hs| && forall j :: 0 <= j < i ==> hs[j].mount != CLOSED
    {
      if hs[i].mount == CLOSED {
        return;
      }
      i := i + 1;
    }
    i := -1;
  }

  lemma NodeParts(inodes: seq<Inode>, live: set<int>, rank: seq<nat>, n: int)
    requires Tree(inodes, live, rank) && n in live
    ensures |inodes| == |rank| == MAXINODES && 0 <= n < MAXINODES && InodeOk(inodes[n])
    ensures Fit(inodes, Subtree(inodes, live, rank, n))
    ensures !inodes[n].isDir ==> Subtree(inodes, live, rank, n) == {n}
    ensures inodes[n].isDir ==>
              && Below(inodes, live, rank, n, 0) == {}
              && Subtree(inodes, live, rank, n) == {n} + Below(inodes, live, rank, n, inodes[n].size)
  {
  }

  lemma FileInRange(inodes: seq<Inode>, live: set<int>, n: int)
    requires BlocksInRange(inodes, live) && n in live && 0 <= n < |inodes| && InodeOk(inodes[n])
    ensures forall b :: b in BlocksOf1(inodes[n]) ==> 3 <= b < MAXBLOCKS
  {
  }

  lemma EntryParts(inodes: seq<Inode>, live: set<int>, rank: seq<nat>, d: int, k: int)
    requires Tree(inodes, live, rank) && d in live && inodes[d].isDir && 0 <= k < inodes[d].size
    ensures var c := inodes[d].mappings[k];
            && c in live && c != d && inodes[c].parent == d && rank[c] < rank[d]
            && Below(inodes, live, rank, d, k + 1) == Below(inodes, live, rank, d, k) + Subtree(inodes, live, rank, c)
            && Fit(inodes, Subtree(inodes, live, rank, c))
  {
    assert ChildOk(inodes, live, rank, d, k);
  }

  // ------------------------------------------------- what subtrees contain

  /** From inside a subtree, parents stay inside it up to its root. */
  lemma {:induction false} UpBelow(inodes: seq<Inode>, live: set<int>, rank: seq<nat>, d: int, k: int, x: int)
    requires Tree(inodes, live, rank) && d in live && inodes[d].isDir && 0 <= k <= inodes[d].size
    requires x in Below(inodes, live, rank, d, k)
    ensures x > 0 && (inodes[x].parent == d || inodes[x].parent in Below(inodes, live, rank, d, k))
    decreases rank[d], k
  {
    EntryParts(inodes, live, rank, d, k - 1);
    assert ChildOk(inodes, live, rank, d, k - 1);
    var c := inodes[d].mappings[k - 1];
    if x in Subtree(inodes, live, rank, c) {
      if x != c {
        Up(inodes, live, rank, c, x);
      }
    } else {
      UpBelow(inodes, live, rank, d, k - 1, x);
    }
  }

  lemma {:induction false} Up(inodes: seq<Inode>, live: set<int>, rank: seq<nat>, n: int, x: int)
    requires Tree(inodes, live, rank) && n in live && x in Subtree(inodes, live, rank, n) && x != n
    ensures x > 0 && inodes[x].parent in Subtree(inodes, live, rank, n)
    decreases rank[n], ENTRIES + 1
  {
    UpBelow(inodes, live, rank, n, inodes[n].size, x);
  }

  /** And so do the entries of its directories. */
  lemma {:induction false} DownBelow(inodes: seq<Inode>, live: set<int>, rank: seq<nat>, d: int, k: int, q: int, j: int)
    requires Tree(inodes, live, rank) && d in live && inodes[d].isDir && 0 <= k <= inodes[d].size
    requires q in live && inodes[q].isDir && 0 <= j < inodes[q].size
    requires q in Below(inodes, live, rank, d, k) || (q == d && j < k)
    ensures inodes[q].mappings[j] in Below(inodes, live, rank, d, k)
    decreases rank[d], k
  {
    EntryParts(inodes, live, rank, d, k - 1);
    var c := inodes[d].mappings[k - 1];
    if q == d {
      if j < k - 1 {
        DownBelow(inodes, live, rank, d, k - 1, q, j);
      }
    } else if q in Subtree(inodes, live, rank, c) {
      Down(inodes, live, rank, c, q, j);
    } else {
      DownBelow(inodes, live, rank, d, k - 1, q, j);
    }
  }

  lemma {:induction false} Down(inodes: seq<Inode>, live: set<int>, rank: seq<nat>, n: int, q: int, j: int)
    requires Tree(inodes, live, rank) && n in live && q in Subtree(inodes, live, rank, n)
    requires inodes[q].isDir && 0 <= j < inodes[q].size
    ensures inodes[q].mappings[j] in Subtree(inodes, live, rank, n)
    decreases rank[n], ENTRIES + 1
  {
    DownBelow(inodes, live, rank, n, inodes[n].size, q, j);
  }

  // ----------------------------------------------------- a sound file system

  datatype Fs = Fs(inodes: seq<Inode>, m: Meta, usedInodes: int, usedBlocks: int)

  ghost function Live(bits: seq<bool>): set<int> { set i | 0 <= i < |bits| && bits[i] }

  function Entries(x: Inode): seq<int>
    requires x.isDir && InodeOk(x)
  {
    x.mappings[..x.size]
  }

  /** The inode is in its parent. */
  ghost predicate Linked(inodes: seq<Inode>, live: set<int>, n: int)
    requires forall i :: i in live ==> 0 <= i < |inodes| && InodeOk(inodes[i])
    requires n in live
  {
    var p := inodes[n].parent;
    p in live && inodes[p].isDir && n in Entries(inodes[p])
  }

  /** No block is in two files or free. */
  ghost predicate BlocksOk(inodes: seq<Inode>, live: set<int>, bits: seq<bool>)
    requires |bits| == MAXBLOCKS && forall i :: i in live ==> 0 <= i < |inodes| && InodeOk(inodes[i])
  {
    && BlocksInRange(inodes, live)
    && (forall n, b :: n in live && b in BlocksOf1(inodes[n]) ==> 0 <= b < MAXBLOCKS && bits[b])
    && (forall n, q, b :: n in live && q in live && b in BlocksOf1(inodes[n]) && b in BlocksOf1(inodes[q]) ==> n == q)
  }

  ghost predicate Rooted(s: Fs, live: set<int>, rank: seq<nat>) {
    && Tree(s.inodes, live, rank) && 0 in live && s.inodes[0].isDir
    && forall n :: n in live && n != 0 ==> Linked(s.inodes, live, n)
  }

  ghost predicate WellFormed(s: Fs, rank: seq<nat>) {
    && |s.m.inodeBits| == MAXINODES && |s.m.blockBits| == MAXBLOCKS
    && Rooted(s, Live(s.m.inodeBits), rank) && BlocksOk(s.inodes, Live(s.m.inodeBits), s.m.blockBits)
    && s.usedInodes == Count(s.m.inodeBits) && s.usedBlocks == Count(s.m.blockBits)
  }

  /** Directory y is x without its entry n; the order of the others is kept. */
  ghost predicate Removed(x: Inode, y: Inode, n: int) {
    && x.isDir && y.isDir && InodeOk(x) && InodeOk(y) && y.parent == x.parent
    && exists k :: 0 <= k < x.size && x.mappings[k] == n && Entries(y) == Entries(x)[..k] + Entries(x)[k + 1..]
  }

  lemma {:induction false} CutFacts(e: seq<int>, k: int)
    requires 0 <= k < |e| && forall i, j :: 0 <= i < j < |e| ==> e[i] != e[j]
    ensures var r := e[..k] + e[k + 1..];
            && (forall i, j :: 0 <= i < j < |r| ==> r[i] != r[j])
            && (forall c :: c in r <==> c in e && c != e[k])
  {
    var r := e[..k] + e[k + 1..];
    assert forall i :: 0 <= i < |r| ==> r[i] == e[if i < k then i else i + 1];
    forall c
      ensures c in r <==> c in e && c != e[k]
    {
      assert e == e[..k] + [e[k]] + e[k + 1..];
      if c in r {
        var i :| 0 <= i < |r| && r[i] == c;
        assert c == e[if i < k then i else i + 1];
      }
    }
  }

  lemma {:induction false} RemovedEntries(x: Inode, y: Inode, n: int)
    requires Removed(x, y, n) && forall j, k :: 0 <= j < k < x.size ==> x.mappings[j] != x.mappings[k]
    ensures y.size == x.size - 1
    ensures forall c :: c in Entries(y) <==> c in Entries(x) && c != n
    ensures forall j, k :: 0 <= j < k < y.size ==> y.mappings[j] != y.mappings[k]
  {
    var e, f := Entries(x), Entries(y);
    var k :| 0 <= k < x.size && x.mappings[k] == n && Entries(y) == Entries(x)[..k] + Entries(x)[k + 1..];
    assert forall j :: 0 <= j < x.size ==> e[j] == x.mappings[j];
    CutFacts(e, k);
    assert f == e[..k] + e[k + 1..];
    assert forall j :: 0 <= j < y.size ==> f[j] == y.mappings[j];
  }

  /** The state after `emufs_delete` of n. */
  ghost function Deleted(s: Fs, rank: seq<nat>, n: int, y: Inode): Fs
    requires WellFormed(s, rank) && n in Live(s.m.inodeBits) && n != 0
  {
    var sub := Subtree(s.inodes, Live(s.m.inodeBits), rank, n);
    Fs(s.inodes[s.inodes[n].parent := y], Erase(s.inodes, s.m, sub),
       s.usedInodes - |sub|, s.usedBlocks - |BlocksOf(s.inodes, sub)|)
  }

  lemma {:induction false} DeletedTree(s: Fs, rank: seq<nat>, n: int, y: Inode)
    requires WellFormed(s, rank) && n in Live(s.m.inodeBits) && n != 0
    requires Removed(s.inodes[s.inodes[n].parent], y, n)
    ensures var t := Deleted(s, rank, n, y);
            var live' := Live(t.m.inodeBits);
            && live' == Live(s.m.inodeBits) - Subtree(s.inodes, Live(s.m.inodeBits), rank, n)
            && Rooted(t, live', rank)
  {
    hide BlocksOk, Erase, Removed, BlocksOf;
    var live, p, t := Live(s.m.inodeBits), s.inodes[n].parent, Deleted(s, rank, n, y);
    var sub, live' := Subtree(s.inodes, live, rank, n), Live(t.m.inodeBits);
    ErasedBits(s.inodes, s.m, sub);
    assert Linked(s.inodes, live, n);
    ParentOutside(s.inodes, live, rank, n);
    RemovedOk(s.inodes[p], y, n);
    RemovedEntries(s.inodes[p], y, n);
    forall d, k | d in live'
      ensures ChildOk(t.inodes, live', rank, d, k)
    {
      KeptChild(s.inodes, t.inodes, live, rank, n, y, d, k);
    }
    forall x | x in live' && x != 0
      ensures Linked(t.inodes, live', x)
    {
      assert Linked(s.inodes, live, x);
      var q := s.inodes[x].parent;
      if q in sub {
        var j :| 0 <= j < s.inodes[q].size && s.inodes[q].mappings[j] == x;
        Down(s.inodes, live, rank, n, q, j);
      }
    }
  }

  lemma RemovedOk(x: Inode, y: Inode, n: int)
    requires Removed(x, y, n)
    ensures x.isDir && y.isDir && InodeOk(x) && InodeOk(y) && y.parent == x.parent
  {
  }

  lemma ErasedBits(inodes: seq<Inode>, m: Meta, s: set<int>)
    requires Fit(inodes, s)
    ensures Live(Erase(inodes, m, s).inodeBits) == Live(m.inodeBits) - s
    ensures |Erase(inodes, m, s).inodeBits| == |m.inodeBits| && |Erase(inodes, m, s).blockBits| == |m.blockBits|
  {
  }

  /** The parent is not in the subtree, and neither is the root. */
  lemma {:induction false} ParentOutside(inodes: seq<Inode>, live: set<int>, rank: seq<nat>, n: int)
    requires Tree(inodes, live, rank) && n in live && n != 0 && Linked(inodes, live, n)
    ensures inodes[n].parent !in Subtree(inodes, live, rank, n) && rank[n] < rank[inodes[n].parent]
    ensures 0 !in Subtree(inodes, live, rank, n) && Fit(inodes, Subtree(inodes, live, rank, n))
  {
    var p := inodes[n].parent;
    var k :| 0 <= k < inodes[p].size && inodes[p].mappings[k] == n;
    assert ChildOk(inodes, live, rank, p, k);
    if 0 in Subtree(inodes, live, rank, n) {
      Up(inodes, live, rank, n, 0);
    }
  }

  lemma {:induction false} KeptChild(inodes: seq<Inode>, inodes': seq<Inode>, live: set<int>, rank: seq<nat>, n: int,
        y: Inode, d: int, k: int)
    requires Tree(inodes, live, rank) && n in live && n != 0 && Linked(inodes, live, n) && |inodes'| == |inodes|
    requires inodes' == inodes[inodes[n].parent := y] && y.isDir && InodeOk(y)
             && y.parent == inodes[inodes[n].parent].parent
    requires forall c :: c in Entries(y) <==> c in Entries(inodes[inodes[n].parent]) && c != n
    requires d in live && d !in Subtree(inodes, live, rank, n)
    ensures ChildOk(inodes', live - Subtree(inodes, live, rank, n), rank, d, k)
  {
    hide Subtree;
    var p, sub := inodes[n].parent, Subtree(inodes, live, rank, n);
    ParentOutside(inodes, live, rank, n);
    assert ChildOk(inodes, live, rank, d, k);
    if inodes'[d].isDir && 0 <= k < inodes'[d].size {
      var c := inodes'[d].mappings[k];
      var j: int;
      if d == p {
        assert c == Entries(y)[k] && c in Entries(y);
        j :| 0 <= j < inodes[p].size && Entries(inodes[p])[j] == c;
      } else {
        j := k;
      }
      assert ChildOk(inodes, live, rank, d, j);
      if c in sub && c != n {
        Up(inodes, live, rank, n, c);
      }
    }
  }

  lemma {:induction false} DeletedBlocks(s: Fs, rank: seq<nat>, n: int, y: Inode)
    requires WellFormed(s, rank) && n in Live(s.m.inodeBits) && n != 0
    requires Removed(s.inodes[s.inodes[n].parent], y, n)
    ensures var t := Deleted(s, rank, n, y);
            var live' := Live(t.m.inodeBits);
            && |t.m.blockBits| == MAXBLOCKS && (forall i :: i in live' ==> 0 <= i < |t.inodes| && InodeOk(t.inodes[i]))
            && BlocksOk(t.inodes, live', t.m.blockBits)
            && t.usedInodes == Count(t.m.inodeBits) && t.usedBlocks == Count(t.m.blockBits)
  {
    hide Subtree, BlocksOf1, Removed;
    var live, p, t := Live(s.m.inodeBits), s.inodes[n].parent, Deleted(s, rank, n, y);
    var sub := Subtree(s.inodes, live, rank, n);
    assert Linked(s.inodes, live, n);
    ParentOutside(s.inodes, live, rank, n);
    RemovedOk(s.inodes[p], y, n);
    ErasedBits(s.inodes, s.m, sub);
    DirBlocks(s.inodes[p], y);
    SubBits(s, rank, n);
    CountCleared(s.m.inodeBits, sub);
    CountCleared(s.m.blockBits, BlocksOf(s.inodes, sub));
  }

  lemma DirBlocks(x: Inode, y: Inode)
    requires x.isDir && y.isDir && InodeOk(x) && InodeOk(y)
    ensures BlocksOf1(x) == BlocksOf1(y) == {}
  {
  }

  lemma SubBits(s: Fs, rank: seq<nat>, n: int)
    requires WellFormed(s, rank) && n in Live(s.m.inodeBits)
    ensures var sub := Subtree(s.inodes, Live(s.m.inodeBits), rank, n);
            && Fit(s.inodes, sub)
            && (forall i :: i in sub ==> 0 <= i < |s.m.inodeBits| && s.m.inodeBits[i])
            && (forall b :: b in BlocksOf(s.inodes, sub) ==> 0 <= b < |s.m.blockBits| && s.m.blockBits[b])
  {
  }

  /** The place of n in its parent. */
  lemma EntryOf(s: Fs, rank: seq<nat>, n: int) returns (k: int)
    requires WellFormed(s, rank) && n in Live(s.m.inodeBits) && n != 0
    ensures 0 <= n < |s.inodes| == MAXINODES && BlocksInRange(s.inodes, Live(s.m.inodeBits))
    ensures var p := s.inodes[n].parent;
            && 0 <= p < |s.inodes| && s.inodes[p].isDir && InodeOk(s.inodes[p])
            && 0 <= k < s.inodes[p].size && s.inodes[p].mappings[k] == n
            && forall i, j :: 0 <= i < j < s.inodes[p].size ==> s.inodes[p].mappings[i] != s.inodes[p].mappings[j]
    ensures Tree(s.inodes, Live(s.m.inodeBits), rank)
  {
    assert Linked(s.inodes, Live(s.m.inodeBits), n);
    var p := s.inodes[n].parent;
    k :| 0 <= k < s.inodes[p].size && s.inodes[p].mappings[k] == n;
  }

  /** The bitmaps lose as many bits as there are deleted inodes and blocks. */
  lemma CountsAfter(s: Fs, rank: seq<nat>, n: int)
    requires WellFormed(s, rank) && n in Live(s.m.inodeBits)
    ensures var sub := Subtree(s.inodes, Live(s.m.inodeBits), rank, n);
            && Fit(s.inodes, sub)
            && Count(Erase(s.inodes, s.m, sub).inodeBits) == s.usedInodes - |sub|
            && Count(Erase(s.inodes, s.m, sub).blockBits) == s.usedBlocks - |BlocksOf(s.inodes, sub)|
  {
    hide Subtree, BlocksOf, BlocksOk, Tree;
    SubBits(s, rank, n);
    var sub := Subtree(s.inodes, Live(s.m.inodeBits), rank, n);
    CountCleared(s.m.inodeBits, sub);
    CountCleared(s.m.blockBits, BlocksOf(s.inodes, sub));
  }

  /** Deleting a non-root entity keeps the file system well-formed. */
  lemma {:induction false} DeleteKeeps(s: Fs, rank: seq<nat>, n: int, y: Inode)
    requires WellFormed(s, rank) && n in Live(s.m.inodeBits) && n != 0
    requires Removed(s.inodes[s.inodes[n].parent], y, n)
    ensures WellFormed(Deleted(s, rank, n, y), rank)
  {
    hide Tree, BlocksOk, Removed, Linked, Subtree, BlocksOf1, Erase;
    DeletedTree(s, rank, n, y);
    DeletedBlocks(s, rank, n, y);
    SubBits(s, rank, n);
    ErasedBits(s.inodes, s.m, Subtree(s.inodes, Live(s.m.inodeBits), rank, n));
  }

  // -------------------------------------------------------------- handles

  /** Open handles refer to live entities of their own kind. */
  ghost predicate HandlesOk(inodes: seq<Inode>, live: set<int>, hs: seq<Handle>, dirs: bool)
    requires forall n :: n in live ==> 0 <= n < |inodes|
  {
    forall i :: 0 <= i < |hs| && hs[i].mount != CLOSED ==> hs[i].inode in live && inodes[hs[i].inode].isDir == dirs
  }

  /** Where handles were of the right kind, no handle on a deleted entity stays open. */
  lemma {:induction false} DeleteCloses(s: Fs, rank: seq<nat>, n: int, y: Inode, dirs: bool)
    requires WellFormed(s, rank) && n in Live(s.m.inodeBits) && n != 0
    requires Removed(s.inodes[s.inodes[n].parent], y, n)
    requires HandlesOk(s.inodes, Live(s.m.inodeBits), if dirs then s.m.dirs else s.m.files, dirs)
    ensures var t := Deleted(s, rank, n, y);
            && (forall i :: i in Live(t.m.inodeBits) ==> 0 <= i < |t.inodes|)
            && HandlesOk(t.inodes, Live(t.m.inodeBits), if dirs then t.m.dirs else t.m.files, dirs)
  {
    hide Subtree, BlocksOk, BlocksOf;
    var live, t := Live(s.m.inodeBits), Deleted(s, rank, n, y);
    var sub := Subtree(s.inodes, live, rank, n);
    assert Linked(s.inodes, live, n);
    ParentOutside(s.inodes, live, rank, n);
    ErasedBits(s.inodes, s.m, sub);
  }

  predicate Open(hs: seq<Handle>, h: int) { 0 <= h < |hs| && hs[h].mount != CLOSED }

  predicate NoneClosed(hs: seq<Handle>) {
    forall i :: 0 <= i < |hs| ==> hs[i].mount != CLOSED
  }

  predicate FirstClosed(hs: seq<Handle>, i: int) {
    0 <= i < |hs| && hs[i].mount == CLOSED && forall j :: 0 <= j < i ==> hs[j].mount != CLOSED
  }

  predicate FirstFree(bits: seq<bool>, i: int) {
    0 <= i < |bits| && !bits[i] && forall j :: 0 <= j < i ==> bits[j]
  }

  function RootOpened(s: Fs, i: int, mount: int): Fs
    requires 0 <= i < |s.m.dirs|
  {
    s.(m := s.m.(dirs := s.m.dirs[i := s.m.dirs[i].(inode := 0, mount := mount)]))
  }

  function DirChanged(s: Fs, h: int, n: int): Fs
    requires 0 <= h < |s.m.dirs|
  {
    s.(m := s.m.(dirs := s.m.dirs[h := s.m.dirs[h].(inode := n)]))
  }

  function FileOpened(s: Fs, h: int, i: int, n: int): Fs
    requires 0 <= h < |s.m.dirs| && 0 <= i < |s.m.files|
  {
    s.(m := s.m.(files := s.m.files[i := Handle(n, s.m.dirs[h].mount, 0)]))
  }

  function HandleClosed(s: Fs, h: int, isDir: bool): Fs
    requires 0 <= h < if isDir then |s.m.dirs| else |s.m.files|
  {
    if isDir then s.(m := s.m.(dirs := s.m.dirs[h := s.m.dirs[h].(mount := CLOSED)]))
    else s.(m := s.m.(files := s.m.files[h := s.m.files[h].(mount := CLOSED)]))
  }

  // --------------------------------------------------------- emufs_delete

  /** The loop over the parent's entries: n's is taken out, the later ones move up. */
  method RemoveEntry(x: Inode, n: int, ghost k: int) returns (y: Inode)
    requires x.isDir && InodeOk(x) && 0 <= k < x.size && x.mappings[k] == n && n >= 0
    requires forall i, j :: 0 <= i < j < x.size ==> x.mappings[i] != x.mappings[j]
    ensures Removed(x, y, n) && y.size == x.size - 1
  {
    y := x;
    var index, i := -1, 0;
    while i < x.size
      invariant 0 <= i <= x.size && y == x.(mappings := y.mappings) && |y.mappings| == ENTRIES
      invariant index == if i <= k then -1 else k
      invariant i <= k + 1 ==> y.mappings == x.mappings
      invariant i > k + 1 ==> y.mappings[i - 1] == -1
      invariant forall j :: 0 <= j < k ==> y.mappings[j] == x.mappings[j]
      invariant i > k + 1 ==> forall j :: k <= j < i - 1 ==> y.mappings[j] == x.mappings[j + 1]
      invariant forall j :: i <= j < ENTRIES ==> y.mappings[j] == x.mappings[j]
    {
      if index != -1 {
        y := y.(mappings := y.mappings[i - 1 := y.mappings[i]]);
        y := y.(mappings := y.mappings[i := -1]);
      }
      if y.mappings[i] == n {
        index := i;
      }
      i := i + 1;
    }
    if index != -1 {
      y := y.(size := y.size - 1);
    }
    assert Entries(y) == Entries(x)[..k] + Entries(x)[k + 1..];
  }

  // ------------------------------------------------- format and creation

  /** `create_file_system`: the root, and the blocks of the metadata. */
  ghost predicate Formatted(s: Fs) {
    && |s.inodes| == |s.m.inodeBits| == MAXINODES && |s.m.blockBits| == MAXBLOCKS
    && (forall i :: 0 <= i < MAXINODES ==> s.m.inodeBits[i] == (i == 0))
    && (forall b :: 0 <= b < MAXBLOCKS ==> s.m.blockBits[b] == (b < 3))
    && s.inodes[0].isDir && s.inodes[0].size == 0 && |s.inodes[0].mappings| == ENTRIES
    && s.usedInodes == 1 && s.usedBlocks == 3
  }

  lemma {:induction false} CountFirst(bits: seq<bool>, k: nat)
    requires k <= |bits| && forall i :: 0 <= i < |bits| ==> bits[i] == (i < k)
    ensures Count(bits) == k
  {
    if bits != [] {
      var n := |bits| - 1;
      CountFirst(bits[..n], if k <= n then k else n);
    }
  }

  lemma {:induction false} FormatWellFormed(s: Fs)
    requires Formatted(s)
    ensures WellFormed(s, seq(MAXINODES, _ => 0))
  {
    CountFirst(s.m.inodeBits, 1);
    CountFirst(s.m.blockBits, 3);
    var live := Live(s.m.inodeBits);
    assert forall n :: n in live <==> n == 0;
    NoBlocks(s.inodes[0]);
  }

  lemma NoBlocks(x: Inode)
    requires InodeOk(x) && (x.isDir || x.size == 0)
    ensures BlocksOf1(x) == {}
  {
  }

  function FreshInode(isDir: bool, p: int): Inode { Inode(isDir, p, 0, [-1, -1, -1, -1]) }

  function WithEntry(x: Inode, c: int): Inode
    requires 0 <= x.size < |x.mappings|
  {
    x.(mappings := x.mappings[x.size := c], size := x.size + 1)
  }

  /** `emufs_create` of entity c in directory p. */
  function Created(s: Fs, p: int, isDir: bool, c: int): Fs
    requires 0 <= p < |s.inodes| && 0 <= c < |s.inodes| == |s.m.inodeBits|
    requires 0 <= s.inodes[p].size < |s.inodes[p].mappings|
  {
    Fs(s.inodes[p := WithEntry(s.inodes[p], c)][c := FreshInode(isDir, p)],
       s.m.(inodeBits := s.m.inodeBits[c := true]), s.usedInodes + 1, s.usedBlocks)
  }

  /** Heights with a new leaf c. */
  function Raised(rank: seq<nat>, c: int): (r: seq<nat>)
    ensures |r| == |rank|
  {
    seq(|rank|, i requires 0 <= i < |rank| => if i == c then 0 else rank[i] + 1)
  }

  lemma WithEntryEntries(x: Inode, c: int)
    requires x.isDir && InodeOk(x) && x.size < ENTRIES
    ensures var y := WithEntry(x, c); InodeOk(y) && Entries(y) == Entries(x) + [c]
  {
  }

  lemma {:induction false} CreatedChild(s: Fs, live: set<int>, rank: seq<nat>, p: int, isDir: bool, c: int, d: int,
        k: int)
    requires Rooted(s, live, rank) && p in live && s.inodes[p].isDir && s.inodes[p].size < ENTRIES
    requires 0 <= c < MAXINODES && c !in live && |s.m.inodeBits| == MAXINODES && (d in live || d == c)
    ensures ChildOk(Created(s, p, isDir, c).inodes, live + {c}, Raised(rank, c), d, k)
  {
    hide Linked;
    if d != c {
      assert ChildOk(s.inodes, live, rank, d, k);
    }
  }

  lemma {:induction false} CreatedDistinct(s: Fs, live: set<int>, rank: seq<nat>, p: int, isDir: bool, c: int, d: int,
        j: int, k: int)
    requires Rooted(s, live, rank) && p in live && s.inodes[p].isDir && s.inodes[p].size < ENTRIES
    requires 0 <= c < MAXINODES && c !in live && |s.m.inodeBits| == MAXINODES && (d in live || d == c)
    requires var x := Created(s, p, isDir, c).inodes[d]; x.isDir && 0 <= j < k < x.size
    ensures var x := Created(s, p, isDir, c).inodes[d];
            0 <= k < |x.mappings| && x.mappings[j] != x.mappings[k]
  {
    hide Linked;
    if d == p {
      assert ChildOk(s.inodes, live, rank, d, j);
    }
  }

  lemma {:induction false} CreatedLinked(s: Fs, live: set<int>, rank: seq<nat>, p: int, isDir: bool, c: int, n: int)
    requires Rooted(s, live, rank) && p in live && s.inodes[p].isDir && s.inodes[p].size < ENTRIES
    requires 0 <= c < MAXINODES && c !in live && |s.m.inodeBits| == MAXINODES && (n in live || n == c) && n != 0
    requires forall i :: i in live + {c} ==> InodeOk(Created(s, p, isDir, c).inodes[i])
    ensures Linked(Created(s, p, isDir, c).inodes, live + {c}, n)
  {
    var t := Created(s, p, isDir, c);
    WithEntryEntries(s.inodes[p], c);
    if n == c {
      assert Entries(t.inodes[p])[s.inodes[p].size] == c;
    } else {
      assert Linked(s.inodes, live, n);
    }
  }

  lemma {:induction false} CreatedTree(s: Fs, rank: seq<nat>, p: int, isDir: bool, c: int)
    requires WellFormed(s, rank) && p in Live(s.m.inodeBits) && s.inodes[p].isDir && s.inodes[p].size < ENTRIES
    requires 0 <= c < MAXINODES && !s.m.inodeBits[c]
    ensures var t := Created(s, p, isDir, c);
            Live(t.m.inodeBits) == Live(s.m.inodeBits) + {c} && Rooted(t, Live(t.m.inodeBits), Raised(rank, c))
  {
    var live, t := Live(s.m.inodeBits), Created(s, p, isDir, c);
    assert Live(t.m.inodeBits) == live + {c};
    RootedSizes(s, live, rank);
    assert forall i :: i in live + {c} ==> InodeOk(t.inodes[i]);
    hide BlocksOk, ChildOk, Linked, InodeOk, Live;
    forall d, k | d in live + {c}
      ensures ChildOk(t.inodes, live + {c}, Raised(rank, c), d, k)
    {
      CreatedChild(s, live, rank, p, isDir, c, d, k);
    }
    forall d, j, k | d in live + {c} && t.inodes[d].isDir && 0 <= j < k < t.inodes[d].size
      ensures t.inodes[d].mappings[j] != t.inodes[d].mappings[k]
    {
      CreatedDistinct(s, live, rank, p, isDir, c, d, j, k);
    }
    forall n | n in live + {c} && n != 0
      ensures Linked(t.inodes, live + {c}, n)
    {
      CreatedLinked(s, live, rank, p, isDir, c, n);
    }
  }

  /** Creating an entity in a directory keeps the file system well-formed. */
  lemma {:induction false} CreateKeeps(s: Fs, rank: seq<nat>, p: int, isDir: bool, c: int)
    requires WellFormed(s, rank) && p in Live(s.m.inodeBits) && s.inodes[p].isDir && s.inodes[p].size < ENTRIES
    requires 0 <= c < MAXINODES && !s.m.inodeBits[c]
    ensures WellFormed(Created(s, p, isDir, c), Raised(rank, c))
  {
    var live, t := Live(s.m.inodeBits), Created(s, p, isDir, c);
    RootedSizes(s, live, rank);
    CreatedTree(s, rank, p, isDir, c);
    RootedSizes(t, Live(t.m.inodeBits), Raised(rank, c));
    CountOne(t.m.inodeBits, c);
    assert t.m.inodeBits[c := false] == s.m.inodeBits;
    hide Rooted, BlocksOk, Live, InodeOk, Count;
    forall n | n in live
      ensures BlocksOf1(t.inodes[n]) == BlocksOf1(s.inodes[n])
    {
      if n == p {
        NoBlocks(s.inodes[p]);
        NoBlocks(t.inodes[p]);
      }
    }
    NoBlocks(t.inodes[c]);
    CreatedBlocks(s.inodes, t.inodes, live, c, s.m.blockBits);
  }

  /** Creation keeps the tree only in a directory: the parent of an entity created in a file is none. */
  lemma {:induction false} CreatedIn(s: Fs, rank: seq<nat>, p: int, isDir: bool, c: int, heights: seq<nat>)
    requires WellFormed(s, rank) && p in Live(s.m.inodeBits) && s.inodes[p].size < ENTRIES
    requires 0 <= c < MAXINODES && !s.m.inodeBits[c]
    requires WellFormed(Created(s, p, isDir, c), heights)
    ensures s.inodes[p].isDir
  {
    var t := Created(s, p, isDir, c);
    assert c in Live(t.m.inodeBits);
    assert Linked(t.inodes, Live(t.m.inodeBits), c);
  }

  lemma CreatedBlocks(inodes: seq<Inode>, inodes': seq<Inode>, live: set<int>, c: int, bits: seq<bool>)
    requires |bits| == MAXBLOCKS && Fit(inodes, live) && Fit(inodes', live + {c})
    requires forall n :: n in live ==> BlocksOf1(inodes'[n]) == BlocksOf1(inodes[n])
    requires BlocksOf1(inodes'[c]) == {} && BlocksOk(inodes, live, bits)
    ensures BlocksOk(inodes', live + {c}, bits)
  {
    hide BlocksOf1;
  }

  lemma RootedSizes(s: Fs, live: set<int>, rank: seq<nat>)
    requires Rooted(s, live, rank)
    ensures |s.inodes| == MAXINODES && forall n :: n in live ==> 0 <= n < MAXINODES && InodeOk(s.inodes[n])
  {
  }
}
