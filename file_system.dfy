/**
 * The part of the file system the splitter touches: a tree of directories and files that
 * hold decoded documents, with the pathlib operations on it and fs.rmdir_if_empty.
 */
module FileSystems {
  import opened Wrappers
  import opened Errors
  import opened Documents
  import opened Paths

  /** Files, each holding the document it was dumped from, and directories. The root `[]` is
      always a directory and is not listed. */
  datatype Tree = Tree(files: map<Path, Value>, dirs: set<Path>)

  predicate IsDir(t: Tree, p: Path) {
    p == [] || p in t.dirs
  }

  /** Nothing is both a file and a directory, and everything sits in a directory. */
  predicate Valid(t: Tree) {
    && t.files.Keys !! t.dirs
    && [] !in t.files && [] !in t.dirs
    && (forall p :: p in t.files ==> IsDir(t, Parent(p)))
    && (forall d :: d in t.dirs ==> IsDir(t, Parent(d)))
  }

  /** The non-empty prefixes of a path: the directories `mkdir(parents=True)` needs. */
  function Prefixes(p: Path): set<Path> {
    set k | 0 < k <= |p| :: p[..k]
  }

  lemma PrefixesOfParent(p: Path)
    requires p != []
    ensures Prefixes(p) == Prefixes(Parent(p)) + {p}
    ensures forall k :: 0 < k < |p| ==> p[..k] == Parent(p)[..k]
  {
    forall q | q in Prefixes(p) ensures q in Prefixes(Parent(p)) + {p} {
      var k :| 0 < k <= |p| && q == p[..k];
      if k < |p| {
        assert q == Parent(p)[..k];
      }
    }
    forall k | 0 < k <= |p| - 1 ensures Parent(p)[..k] in Prefixes(p) {
      assert Parent(p)[..k] == p[..k];
    }
    assert p[..|p|] == p;
  }

  /** `p.mkdir(parents=True, exist_ok=True)`: creates the missing directories on the way to
      `p`, and fails when one of them is a file. */
  function MakeDirs(t: Tree, p: Path): (r: Result<Tree, Error>)
    ensures r.Success? <==> forall k :: 0 < k <= |p| ==> p[..k] !in t.files
    ensures r.Success? ==> r.value.files == t.files && r.value.dirs == t.dirs + Prefixes(p)
    decreases |p|
  {
    if p == [] then Success(t)
    else
      PrefixesOfParent(p);
      assert p[..|p|] == p;
      var t1 :- MakeDirs(t, Parent(p));
      if p in t1.files then Failure(PathConflict(p))
      else Success(t1.(dirs := t1.dirs + {p}))
  }

  /** `p.open("w")` and a dump of `v`: the file must not be a directory and its parent must be. */
  function WriteFile(t: Tree, p: Path, v: Value): (r: Result<Tree, Error>)
    ensures r.Success? <==> p != [] && p !in t.dirs && IsDir(t, Parent(p))
    ensures r.Success? ==> r.value == Tree(t.files[p := v], t.dirs)
  {
    if p == [] || p in t.dirs then Failure(PathConflict(p))
    else if !IsDir(t, Parent(p)) then
      if Parent(p) in t.files then Failure(PathConflict(Parent(p))) else Failure(NoSuchFile(Parent(p)))
    else Success(Tree(t.files[p := v], t.dirs))
  }

  /** `p.open()` and a load of its document. */
  function ReadFile(t: Tree, p: Path): (r: Result<Value, Error>)
    ensures r.Success? <==> p in t.files
    ensures r.Success? ==> r.value == t.files[p]
  {
    if p in t.files then Success(t.files[p])
    else if IsDir(t, p) then Failure(PathConflict(p))
    else Failure(NoSuchFile(p))
  }

  /** `p.unlink()`: removes a file; a directory or a missing path is an error. */
  function UnlinkFile(t: Tree, p: Path): (r: Result<Tree, Error>)
    ensures r.Success? <==> p in t.files
    ensures r.Success? ==> r.value == Tree(t.files - {p}, t.dirs)
  {
    if p in t.files then Success(Tree(t.files - {p}, t.dirs))
    else if IsDir(t, p) then Failure(PathConflict(p))
    else Failure(NoSuchFile(p))
  }

  /** `p` is directly inside `d`. */
  predicate IsChild(d: Path, p: Path) {
    |p| == |d| + 1 && p[..|d|] == d
  }

  predicate HasEntries(t: Tree, d: Path) {
    (exists p :: p in t.files && IsChild(d, p)) || (exists q :: q in t.dirs && IsChild(d, q))
  }

  /** `p.rmdir()`: removes an empty directory. The root cannot be removed. */
  function Rmdir(t: Tree, d: Path): (r: Result<Tree, Error>)
    ensures r.Success? <==> d != [] && d !in t.files && d in t.dirs && !HasEntries(t, d)
    ensures r.Success? ==> r.value == Tree(t.files, t.dirs - {d})
    ensures r.Failure? ==> (r.error.DirectoryNotEmpty? <==> d != [] && d !in t.files && d in t.dirs)
  {
    if d == [] || d in t.files then Failure(PathConflict(d))
    else if d !in t.dirs then Failure(NoSuchFile(d))
    else if HasEntries(t, d) then Failure(DirectoryNotEmpty(d))
    else Success(Tree(t.files, t.dirs - {d}))
  }

  /** `fs.rmdir_if_empty`: `rmdir`, except that a directory that is not empty is kept
      without error. */
  function RemoveIfEmpty(t: Tree, d: Path): (r: Result<Tree, Error>)
    ensures r.Success? <==> d != [] && d !in t.files && d in t.dirs
    ensures r.Success? ==> r.value == if HasEntries(t, d) then t else Tree(t.files, t.dirs - {d})
  {
    match Rmdir(t, d)
    case Failure(DirectoryNotEmpty(_)) => Success(t)
    case r => r
  }

  lemma ParentOfChild(d: Path, p: Path)
    requires IsChild(d, p)
    ensures Parent(p) == d
  {
  }

  /** Creating directories keeps a tree valid. */
  lemma MakeDirsValid(t: Tree, p: Path)
    requires Valid(t) && MakeDirs(t, p).Success?
    ensures Valid(MakeDirs(t, p).value)
  {
    var t1 := MakeDirs(t, p).value;
    forall d | d in t1.dirs ensures d != [] && IsDir(t1, Parent(d)) {
      if d !in t.dirs {
        var k :| 0 < k <= |p| && d == p[..k];
        if k > 1 {
          assert Parent(d) == p[..k - 1];
        }
      }
    }
  }

  /** Writing a file keeps a tree valid, and reading it back gives what was written. */
  lemma WriteFileValid(t: Tree, p: Path, v: Value)
    requires Valid(t) && WriteFile(t, p, v).Success?
    ensures Valid(WriteFile(t, p, v).value)
    ensures ReadFile(WriteFile(t, p, v).value, p) == Success(v)
  {
  }

  /** Removing a file keeps a tree valid. */
  lemma UnlinkFileValid(t: Tree, p: Path)
    requires Valid(t) && UnlinkFile(t, p).Success?
    ensures Valid(UnlinkFile(t, p).value)
  {
  }

  /** Removing an empty directory keeps a tree valid: nothing was inside it. */
  lemma RemoveIfEmptyValid(t: Tree, d: Path)
    requires Valid(t) && RemoveIfEmpty(t, d).Success?
    ensures Valid(RemoveIfEmpty(t, d).value)
  {
    if !HasEntries(t, d) {
      var t1 := RemoveIfEmpty(t, d).value;
    }
  }

  /** The file system as a mutable object: every operation updates it in place, and leaves it
      as it was when the operation fails. */
  class FileSystem {
    var files: map<Path, Value>
    var dirs: set<Path>

    function Snapshot(): Tree
      reads this
    {
      Tree(files, dirs)
    }

    constructor (t: Tree)
      ensures Snapshot() == t
    {
      files := t.files;
      dirs := t.dirs;
    }

    method Mkdir(p: Path) returns (outcome: Outcome<Error>)
      modifies this
      ensures outcome == OutcomeOf(MakeDirs(old(Snapshot()), p))
      ensures Snapshot() == if outcome.Pass? then MakeDirs(old(Snapshot()), p).value else old(Snapshot())
    {
      var r := MakeDirs(Snapshot(), p);
      if r.Failure? {
        return Fail(r.error);
      }
      files, dirs := r.value.files, r.value.dirs;
      return Pass;
    }

    method Write(p: Path, v: Value) returns (outcome: Outcome<Error>)
      modifies this
      ensures outcome == OutcomeOf(WriteFile(old(Snapshot()), p, v))
      ensures Snapshot() == if outcome.Pass? then WriteFile(old(Snapshot()), p, v).value else old(Snapshot())
    {
      var r := WriteFile(Snapshot(), p, v);
      if r.Failure? {
        return Fail(r.error);
      }
      files, dirs := r.value.files, r.value.dirs;
      return Pass;
    }

    method Read(p: Path) returns (r: Result<Value, Error>)
      ensures r == ReadFile(Snapshot(), p)
    {
      r := ReadFile(Snapshot(), p);
    }

    method Unlink(p: Path) returns (outcome: Outcome<Error>)
      modifies this
      ensures outcome == OutcomeOf(UnlinkFile(old(Snapshot()), p))
      ensures Snapshot() == if outcome.Pass? then UnlinkFile(old(Snapshot()), p).value else old(Snapshot())
    {
      var r := UnlinkFile(Snapshot(), p);
      if r.Failure? {
        return Fail(r.error);
      }
      files, dirs := r.value.files, r.value.dirs;
      return Pass;
    }

    method RmdirIfEmpty(d: Path) returns (outcome: Outcome<Error>)
      modifies this
      ensures outcome == OutcomeOf(RemoveIfEmpty(old(Snapshot()), d))
      ensures Snapshot() == if outcome.Pass? then RemoveIfEmpty(old(Snapshot()), d).value else old(Snapshot())
    {
      var r := RemoveIfEmpty(Snapshot(), d);
      if r.Failure? {
        return Fail(r.error);
      }
      files, dirs := r.value.files, r.value.dirs;
      return Pass;
    }
  }
}
