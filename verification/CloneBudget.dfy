/**
 The size guard of a clone: a file system wrapper whose files, at any depth of Chroot, charge
 one shared byte counter and refuse to write once it is over the limit.
 */
module CloneBudget {

  type Byte = b: int | 0 <= b < 256

  // One write that reached the disk.
  datatype Chunk = Chunk(path: string, data: seq<Byte>)

  datatype WriteError = NoError | TooLarge | DiskError

  function Total(chunks: seq<Chunk>): nat {
    if chunks == [] then 0 else Total(chunks[..|chunks| - 1]) + |chunks[|chunks| - 1].data|
  }

  /** How many of these writes get through: all up to and including the first that crosses the limit. */
  function Kept(max: int, chunks: seq<Chunk>): (k: nat)
    ensures k <= |chunks|
    ensures forall j | 0 <= j < k :: Total(chunks[..j]) <= max
    ensures k < |chunks| ==> Total(chunks[..k]) > max
  {
    if chunks == [] then 0
    else
      var front := chunks[..|chunks| - 1];
      var k := Kept(max, front);
      assert forall j | 0 <= j <= |front| :: front[..j] == chunks[..j];
      if Total(front[..k]) > max then k else |chunks|
  }

  lemma {:induction false} TotalGrows(chunks: seq<Chunk>, i: nat, j: nat)
    requires i <= j <= |chunks|
    ensures Total(chunks[..i]) <= Total(chunks[..j])
  {
    if i < j {
      TotalGrows(chunks, i, j - 1);
      assert chunks[..j][..j - 1] == chunks[..j - 1];
    }
  }

  /** What gets through never exceeds the limit by more than the one write that crosses it. */
  lemma OvershootIsOneWrite(max: nat, chunks: seq<Chunk>)
    ensures var k := Kept(max, chunks);
      Total(chunks[..k]) <= max + (if k == 0 then 0 else |chunks[k - 1].data|)
    ensures Total(chunks[..Kept(max, chunks)]) > max <==> Total(chunks) > max
  {
    var k := Kept(max, chunks);
    if k > 0 {
      assert chunks[..k][..k - 1] == chunks[..k - 1];
    }
    TotalGrows(chunks, k, |chunks|);
    assert chunks[..|chunks|] == chunks;
  }

  // ------------------------------------------------------------ the file systems

  // What is below the wrapper: every write appends to the file's bytes.
  class Disk {
    var written: seq<Chunk>

    constructor ()
      ensures written == []
    {
      written := [];
    }
  }

  class Counter {
    var n: nat

    constructor ()
      ensures n == 0
    {
      n := 0;
    }
  }

  // billy.File: a write takes some of the bytes, and all of them unless it reports an error.
  class BaseFile {
    const disk: Disk
    const path: string

    constructor (disk: Disk, path: string)
      ensures this.disk == disk && this.path == path
    {
      this.disk := disk;
      this.path := path;
    }

    method Write(p: seq<Byte>, accepted: nat, fails: bool) returns (n: nat, err: WriteError)
      requires accepted <= |p| && (accepted < |p| ==> fails)
      modifies disk
      ensures disk.written == old(disk.written) + [Chunk(path, p[..accepted])]
      ensures n == accepted && err == if fails then DiskError else NoError
    {
      disk.written := disk.written + [Chunk(path, p[..accepted])];
      n := accepted;
      err := if fails then DiskError else NoError;
    }
  }

  class LimitedFile {
    const file: BaseFile
    const counter: Counter
    const max: int

    constructor (file: BaseFile, counter: Counter, max: int)
      ensures this.file == file && this.counter == counter && this.max == max
    {
      this.file := file;
      this.counter := counter;
      this.max := max;
    }

    method Write(p: seq<Byte>, accepted: nat, fails: bool) returns (n: nat, err: WriteError)
      requires accepted <= |p| && (accepted < |p| ==> fails)
      modifies counter, file.disk
      ensures old(counter.n) > max ==>
        n == 0 && err == TooLarge && counter.n == old(counter.n) && file.disk.written == old(file.disk.written)
      ensures old(counter.n) <= max ==>
        && n == accepted && counter.n == old(counter.n) + accepted
        && file.disk.written == old(file.disk.written) + [Chunk(file.path, p[..accepted])]
        && err == if fails then DiskError else if counter.n > max then TooLarge else NoError
    {
      if counter.n > max {
        return 0, TooLarge;
      }
      n, err := file.Write(p, accepted, fails);
      counter.n := counter.n + n;
      if err == NoError && counter.n > max {
        err := TooLarge;
      }
    }
  }

  class LimitedFS {
    const disk: Disk
    const root: string
    const counter: Counter
    const max: int

    constructor (disk: Disk, root: string, counter: Counter, max: int)
      ensures this.disk == disk && this.root == root && this.counter == counter && this.max == max
    {
      this.disk := disk;
      this.root := root;
      this.counter := counter;
      this.max := max;
    }

    // Create and OpenFile: a new handle that charges this file system's counter.
    method Open(name: string) returns (f: LimitedFile)
      ensures f.counter == counter && f.max == max && f.file.disk == disk && f.file.path == root + "/" + name
    {
      var base := new BaseFile(disk, root + "/" + name);
      f := new LimitedFile(base, counter, max);
    }

    method Chroot(dir: string) returns (sub: LimitedFS)
      ensures sub.counter == counter && sub.max == max && sub.disk == disk && sub.root == root + "/" + dir
    {
      sub := new LimitedFS(disk, root + "/" + dir, counter, max);
    }
  }

  // ------------------------------------------------------------ a whole clone

  // What the clone does, in any order: open a file, enter a directory, or write to an open file.
  datatype Op =
    | Open(fs: nat, name: string)
    | Enter(fs: nat, dir: string)
    | Put(file: nat, data: seq<Byte>, accepted: nat, fails: bool)

  datatype Tree = Tree(roots: seq<string>, paths: seq<string>, attempted: seq<Chunk>)

  predicate Possible(t: Tree, op: Op) {
    match op
    case Open(fs, _) => fs < |t.roots|
    case Enter(fs, _) => fs < |t.roots|
    case Put(file, data, accepted, fails) =>
      file < |t.paths| && accepted <= |data| && (accepted < |data| ==> fails)
  }

  function Unlimited(t: Tree, op: Op): Tree
    requires Possible(t, op)
  {
    match op
    case Open(fs, name) => t.(paths := t.paths + [t.roots[fs] + "/" + name])
    case Enter(fs, dir) => t.(roots := t.roots + [t.roots[fs] + "/" + dir])
    case Put(file, data, accepted, _) => t.(attempted := t.attempted + [Chunk(t.paths[file], data[..accepted])])
  }

  predicate AllPossible(t: Tree, ops: seq<Op>)
    decreases |ops|
  {
    ops == [] || (Possible(t, ops[0]) && AllPossible(Unlimited(t, ops[0]), ops[1..]))
  }

  // What the same operations do on the unwrapped file system.
  function Unwrapped(t: Tree, ops: seq<Op>): Tree
    requires AllPossible(t, ops)
    decreases |ops|
  {
    if ops == [] then t else Unwrapped(Unlimited(t, ops[0]), ops[1..])
  }

  function Start(root: string): Tree {
    Tree([root], [], [])
  }

  // A clone in progress: its file systems and open files, all sharing one disk and one counter.
  class CloneRun {
    const disk: Disk
    const counter: Counter
    const max: nat
    var fss: seq<LimitedFS>
    var files: seq<LimitedFile>
    ghost var tree: Tree // what the unwrapped file system would look like

    ghost predicate Valid()
      reads this, disk, counter
    {
      && |fss| == |tree.roots| && |files| == |tree.paths|
      && (forall j | 0 <= j < |fss| :: SharedFS(fss[j], tree.roots[j]))
      && (forall j | 0 <= j < |files| :: SharedFile(files[j], tree.paths[j]))
      && disk.written == tree.attempted[..Kept(max, tree.attempted)]
      && counter.n == Total(disk.written)
    }

    ghost predicate SharedFS(fs: LimitedFS, root: string) {
      fs.disk == disk && fs.counter == counter && fs.max == max && fs.root == root
    }

    ghost predicate SharedFile(f: LimitedFile, path: string) {
      f.file.disk == disk && f.counter == counter && f.max == max && f.file.path == path
    }

    // ShallowClone: one counter, one wrapper around the destination directory.
    constructor (root: string, max: nat)
      ensures Valid() && tree == Start(root) && this.max == max && fresh(disk) && fresh(counter)
    {
      this.max := max;
      var d := new Disk();
      var c := new Counter();
      disk := d;
      counter := c;
      var worktree := new LimitedFS(d, root, c, max);
      fss := [worktree];
      files := [];
      tree := Start(root);
    }

    method DoPut(file: nat, data: seq<Byte>, accepted: nat, fails: bool)
      requires Valid() && Possible(tree, Put(file, data, accepted, fails))
      modifies this`tree, disk, counter
      ensures Valid() && tree == Unlimited(old(tree), Put(file, data, accepted, fails))
    {
      hide Total;
      assert SharedFile(files[file], tree.paths[file]);
      OneMoreWrite(max, tree.attempted, Chunk(tree.paths[file], data[..accepted]));
      tree := Unlimited(tree, Put(file, data, accepted, fails));
      var n, err := files[file].Write(data, accepted, fails);
    }

    /** One operation on any handle: the disk follows the unwrapped file system up to the limit. */
    method Do(op: Op)
      requires Valid() && Possible(tree, op)
      modifies this, disk, counter
      ensures Valid() && tree == Unlimited(old(tree), op)
    {
      match op {
        case Open(fs, name) =>
          var f := fss[fs].Open(name);
          files := files + [f];
          tree := Unlimited(tree, op);
        case Enter(fs, dir) =>
          var sub := fss[fs].Chroot(dir);
          fss := fss + [sub];
          tree := Unlimited(tree, op);
        case Put(file, data, accepted, fails) =>
          DoPut(file, data, accepted, fails);
      }
    }
  }

  /**
   Any run of a clone over any files and depths: what reaches the disk is what the unwrapped file
   system would have written, up to and including the first write that crosses the limit; the
   counter is exactly the bytes on disk, and it never passes the limit by more than that write.
   */
  method Clone(root: string, max: nat, ops: seq<Op>) returns (disk: Disk, counter: Counter)
    requires AllPossible(Start(root), ops)
    ensures var all := Unwrapped(Start(root), ops).attempted;
      && disk.written == all[..Kept(max, all)]
      && counter.n == Total(disk.written)
      && counter.n <= max + (if disk.written == [] then 0 else |disk.written[|disk.written| - 1].data|)
  {
    var session := new CloneRun(root, max);
    assert ops[0..] == ops;
    for i := 0 to |ops|
      invariant session.Valid() && session.max == max
      invariant fresh(session) && fresh(session.disk) && fresh(session.counter)
      invariant AllPossible(session.tree, ops[i..])
      invariant Unwrapped(session.tree, ops[i..]) == Unwrapped(Start(root), ops)
    {
      assert ops[i..][1..] == ops[i + 1..];
      session.Do(ops[i]);
    }
    OvershootIsOneWrite(max, session.tree.attempted);
    disk, counter := session.disk, session.counter;
  }

  lemma OneMoreWrite(max: int, chunks: seq<Chunk>, c: Chunk)
    ensures Total(chunks[..Kept(max, chunks)]) > max ==>
      (chunks + [c])[..Kept(max, chunks + [c])] == chunks[..Kept(max, chunks)]
    ensures Total(chunks[..Kept(max, chunks)]) <= max ==>
      && chunks[..Kept(max, chunks)] == chunks
      && (chunks + [c])[..Kept(max, chunks + [c])] == chunks + [c]
      && Total(chunks + [c]) == Total(chunks) + |c.data|
  {
    var more := chunks + [c];
    assert more[..|chunks|] == chunks;
    assert forall j | 0 <= j <= |chunks| :: more[..j] == chunks[..j];
    assert chunks[..|chunks|] == chunks && more[..|more|] == more;
  }
}
