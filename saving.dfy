/** What `StateDir.save` leaves on disk: exactly `state.yaml`, `outputs.yaml` for the stack
    resource, and one file per resource at its subpath, with the directories leading to them. */
module Saving {
  import opened Wrappers
  import opened Errors
  import opened Documents
  import opened Paths
  import opened Model
  import opened FileSystems
  import opened Split
  import opened Layout

  /** A subpath that `load` finds again: it lies in a subdirectory of the state directory,
      and not under the names of the two fixed files. */
  predicate Fits(sub: Path) {
    |sub| >= 2 && sub[0] != "state.yaml" && sub[0] != "outputs.yaml"
  }

  /** Subpaths that can be laid out side by side: each fits, and none is another or lies
      below another. */
  predicate Apart(subs: seq<Path>) {
    && (forall j :: 0 <= j < |subs| ==> Fits(subs[j]))
    && (forall i, j :: 0 <= i < |subs| && 0 <= j < |subs| && i != j ==> !IsPrefix(subs[i], subs[j]))
  }

  /** At most one resource is the stack resource. */
  predicate OneStack(rs: seq<Resource>) {
    forall i, j :: 0 <= i < |rs| && 0 <= j < |rs| && i != j && rs[i].resourceType == StackType ==>
      rs[j].resourceType != StackType
  }

  /** `subs` are the subpaths `save` computes for `rs`. */
  predicate LaidOut(rs: seq<Resource>, subs: seq<Path>) {
    && Linked(rs) && |subs| == |rs|
    && forall j :: 0 <= j < |rs| ==> ResourcePath(Table(rs), rs[j]) == Success(subs[j])
  }

  /** The subpaths of resources whose chains of parents all end. */
  ghost function Subpaths(rs: seq<Resource>): seq<Path>
    requires Linked(rs) && forall j :: 0 <= j < |rs| ==> ResourcePath(Table(rs), rs[j]).Success?
  {
    seq(|rs|, j requires 0 <= j < |rs| => ResourcePath(Table(rs), rs[j]).value)
  }

  /** Resources `save` can lay out side by side so that `load` finds each again: every
      subpath can be computed, they are apart, and at most one resource is the stack. */
  ghost predicate Layable(rs: seq<Resource>) {
    && Linked(rs)
    && (forall j :: 0 <= j < |rs| ==> ResourcePath(Table(rs), rs[j]).Success?)
    && Apart(Subpaths(rs))
    && OneStack(rs)
  }

  /** `docs` are the documents `save` writes for `rs`. */
  predicate Dumped(rs: seq<Resource>, docs: seq<Value>) {
    |docs| == |rs| && forall j :: 0 <= j < |rs| ==> docs[j] == FileDump(Stored(rs[j]))
  }

  /** Nothing is in the way of the state directory: no file on the way to it, and nothing
      below it yet. */
  ghost predicate Fresh(t: Tree, dir: Path) {
    && (forall p :: p in t.files ==> !IsPrefix(p, dir) && !Below(dir, p))
    && (forall d :: d in t.dirs ==> !Below(dir, d))
  }

  ghost predicate StackAmong(rs: seq<Resource>, k: int) {
    exists j :: 0 <= j < k && j < |rs| && rs[j].resourceType == StackType
  }

  ghost predicate FileAmong(subs: seq<Path>, dir: Path, k: int, p: Path) {
    exists j :: 0 <= j < k && j < |subs| && p == dir + subs[j]
  }

  /** The tree after `save` has written `state.yaml` holding `doc` and the first `k` resources
      of `rs` at `subs` holding `docs`, described completely below the state directory. */
  ghost predicate Saved(t: Tree, dir: Path, doc: Value, rs: seq<Resource>, subs: seq<Path>, docs: seq<Value>, k: int) {
    && |subs| == |rs| && |docs| == |rs|
    && IsDir(t, dir)
    && (forall p :: p in t.files ==> !IsPrefix(p, dir))
    && StateYamlPath(dir) in t.files && t.files[StateYamlPath(dir)] == doc
    && (forall j :: 0 <= j < k && j < |rs| ==> dir + subs[j] in t.files && t.files[dir + subs[j]] == docs[j])
    && (forall j :: 0 <= j < k && j < |rs| && rs[j].resourceType == StackType ==>
          OutputsPath(dir) in t.files && t.files[OutputsPath(dir)] == StoredOutputs(rs[j]))
    && (forall p :: p in t.files && Below(dir, p) ==>
          p == StateYamlPath(dir) || (p == OutputsPath(dir) && StackAmong(rs, k)) || FileAmong(subs, dir, k, p))
    && (forall d :: d in t.dirs && Below(dir, d) ==> exists j :: 0 <= j < k && j < |subs| && Below(d, dir + subs[j]))
  }

  lemma PrefixOfJoin(dir: Path, sub: Path, m: nat)
    requires m <= |dir| + |sub|
    ensures m <= |dir| ==> (dir + sub)[..m] == dir[..m]
    ensures m > |dir| ==> (dir + sub)[..m] == dir + sub[..m - |dir|]
  {
  }

  lemma ChildBelow(dir: Path, name: string, sub: Path)
    ensures Below(dir + [name], dir + sub) ==> sub != [] && sub[0] == name
  {
    if Below(dir + [name], dir + sub) {
      assert (dir + sub)[|dir|] == (dir + [name])[|dir|];
    }
  }

  /** Writing `outputs.yaml` for the stack resource succeeds. */
  lemma OutputsWritable(t: Tree, dir: Path, doc: Value, rs: seq<Resource>, subs: seq<Path>, docs: seq<Value>, k: int)
    requires Apart(subs) && 0 <= k < |rs| && Saved(t, dir, doc, rs, subs, docs, k)
    ensures OutputsPath(dir) !in t.dirs && IsDir(t, Parent(OutputsPath(dir)))
  {
    var o := OutputsPath(dir);
    assert Parent(o) == dir;
    assert Below(dir, o);
    forall j | 0 <= j < |subs| ensures !Below(o, dir + subs[j]) {
      ChildBelow(dir, "outputs.yaml", subs[j]);
    }
  }

  /** No file lies on the way to the `k`-th resource's file, and that file is not a
      directory. */
  lemma FileWritable(t: Tree, dir: Path, doc: Value, rs: seq<Resource>, subs: seq<Path>, docs: seq<Value>, k: int)
    requires Apart(subs) && 0 <= k < |rs| && Saved(t, dir, doc, rs, subs, docs, k)
    ensures var p := dir + subs[k];
      && (forall m :: 0 < m < |p| ==> p[..m] !in t.files && p[..m] != OutputsPath(dir))
      && p !in t.dirs
  {
    var sub := subs[k];
    var p := dir + sub;
    forall m | 0 < m < |p| ensures p[..m] !in t.files && p[..m] != OutputsPath(dir) {
      PrefixOfJoin(dir, sub, m);
      if m > |dir| {
        var q := p[..m];
        assert Below(dir, q);
        assert q[|dir|] == sub[0];
        assert q in t.files ==> FileAmong(subs, dir, k, q);
      } else {
        assert IsPrefix(p[..m], dir);
      }
    }
    assert Below(dir, p);
  }

  /** The tree after one resource is saved: `outputs.yaml` for the stack resource, the
      directories on the way to the file, and the file. */
  function SavedTree(t: Tree, dir: Path, r: Resource, sub: Path, doc: Value): Tree {
    var files := if r.resourceType == StackType then t.files[OutputsPath(dir) := StoredOutputs(r)] else t.files;
    Tree(files[dir + sub := doc], t.dirs + Prefixes(Parent(dir + sub)))
  }

  /** What holds between one resource and the next: the file to write lies strictly below
      the state directory and differs from `state.yaml`, `outputs.yaml` and every file saved
      before it. */
  lemma StepPaths(dir: Path, subs: seq<Path>, k: int)
    requires Apart(subs) && 0 <= k < |subs|
    ensures Below(dir, dir + subs[k])
    ensures dir + subs[k] != OutputsPath(dir) && dir + subs[k] != StateYamlPath(dir)
    ensures OutputsPath(dir) != StateYamlPath(dir)
    ensures forall j :: 0 <= j < |subs| && j != k ==> dir + subs[j] != dir + subs[k] && dir + subs[j] != OutputsPath(dir)
  {
    var p := dir + subs[k];
    assert p[..|dir|] == dir;
    assert OutputsPath(dir)[|dir|] != StateYamlPath(dir)[|dir|];
    forall j | 0 <= j < |subs| && j != k ensures dir + subs[j] != p && dir + subs[j] != OutputsPath(dir) {
      assert !IsPrefix(subs[j], subs[k]);
      assert |dir + subs[j]| != |OutputsPath(dir)|;
    }
  }

  lemma SavedStepFiles(t: Tree, dir: Path, doc: Value, rs: seq<Resource>, subs: seq<Path>, docs: seq<Value>, k: int)
    requires Apart(subs) && OneStack(rs) && 0 <= k < |rs| && Saved(t, dir, doc, rs, subs, docs, k)
    ensures var t3 := SavedTree(t, dir, rs[k], subs[k], docs[k]);
      && (forall q :: q in t3.files ==> !IsPrefix(q, dir))
      && StateYamlPath(dir) in t3.files && t3.files[StateYamlPath(dir)] == doc
      && (forall j :: 0 <= j < k + 1 && j < |rs| ==> dir + subs[j] in t3.files && t3.files[dir + subs[j]] == docs[j])
      && (forall j :: 0 <= j < k + 1 && j < |rs| && rs[j].resourceType == StackType ==>
            OutputsPath(dir) in t3.files && t3.files[OutputsPath(dir)] == StoredOutputs(rs[j]))
  {
    StepPaths(dir, subs, k);
  }

  lemma SavedStepBelow(t: Tree, dir: Path, doc: Value, rs: seq<Resource>, subs: seq<Path>, docs: seq<Value>, k: int)
    requires Apart(subs) && 0 <= k < |rs| && Saved(t, dir, doc, rs, subs, docs, k)
    ensures var t3 := SavedTree(t, dir, rs[k], subs[k], docs[k]);
      forall q :: q in t3.files && Below(dir, q) ==>
        q == StateYamlPath(dir) || (q == OutputsPath(dir) && StackAmong(rs, k + 1)) || FileAmong(subs, dir, k + 1, q)
  {
    var t3 := SavedTree(t, dir, rs[k], subs[k], docs[k]);
    forall q | q in t3.files && Below(dir, q)
      ensures q == StateYamlPath(dir) || (q == OutputsPath(dir) && StackAmong(rs, k + 1)) || FileAmong(subs, dir, k + 1, q)
    {
      if q == dir + subs[k] {
        assert FileAmong(subs, dir, k + 1, q);
      } else if q !in t.files {
        assert q == OutputsPath(dir) && rs[k].resourceType == StackType;
        assert StackAmong(rs, k + 1);
      } else {
        assert q == StateYamlPath(dir) || (q == OutputsPath(dir) && StackAmong(rs, k)) || FileAmong(subs, dir, k, q);
        assert StackAmong(rs, k) ==> StackAmong(rs, k + 1);
        assert FileAmong(subs, dir, k, q) ==> FileAmong(subs, dir, k + 1, q);
      }
    }
  }

  lemma SavedStepDirs(t: Tree, dir: Path, doc: Value, rs: seq<Resource>, subs: seq<Path>, docs: seq<Value>, k: int)
    requires Apart(subs) && 0 <= k < |rs| && Saved(t, dir, doc, rs, subs, docs, k)
    ensures var t3 := SavedTree(t, dir, rs[k], subs[k], docs[k]);
      && IsDir(t3, dir)
      && forall d :: d in t3.dirs && Below(dir, d) ==> exists j :: 0 <= j < k + 1 && j < |subs| && Below(d, dir + subs[j])
  {
    var t3 := SavedTree(t, dir, rs[k], subs[k], docs[k]);
    var p := dir + subs[k];
    forall d | d in t3.dirs && Below(dir, d)
      ensures exists j :: 0 <= j < k + 1 && j < |subs| && Below(d, dir + subs[j])
    {
      if d !in t.dirs {
        var m :| 0 < m <= |Parent(p)| && d == Parent(p)[..m];
        assert d == p[..m];
        assert Below(d, dir + subs[k]);
      } else {
        var j :| 0 <= j < k && j < |subs| && Below(d, dir + subs[j]);
        assert 0 <= j < k + 1;
      }
    }
  }

  /** Saving the next resource keeps the description complete. */
  lemma SavedStep(t: Tree, dir: Path, doc: Value, rs: seq<Resource>, subs: seq<Path>, docs: seq<Value>, k: int)
    requires Apart(subs) && OneStack(rs) && 0 <= k < |rs| && Saved(t, dir, doc, rs, subs, docs, k)
    ensures Saved(SavedTree(t, dir, rs[k], subs[k], docs[k]), dir, doc, rs, subs, docs, k + 1)
  {
    SavedStepFiles(t, dir, doc, rs, subs, docs, k);
    SavedStepBelow(t, dir, doc, rs, subs, docs, k);
    SavedStepDirs(t, dir, doc, rs, subs, docs, k);
  }

  /** The writes of `save`'s loop body, when nothing is in their way, give `SavedTree`. */
  lemma SavedTreeWrites(t: Tree, dir: Path, r: Resource, sub: Path, doc: Value)
    requires r.resourceType == StackType ==> OutputsPath(dir) !in t.dirs && IsDir(t, dir)
    requires forall m :: 0 < m < |dir + sub| ==> (dir + sub)[..m] !in t.files && (dir + sub)[..m] != OutputsPath(dir)
    requires dir + sub !in t.dirs && sub != []
    ensures var t1 := if r.resourceType == StackType then WriteFile(t, OutputsPath(dir), StoredOutputs(r)) else Success(t);
      && t1.Success?
      && MakeDirs(t1.value, Parent(dir + sub)).Success?
      && WriteFile(MakeDirs(t1.value, Parent(dir + sub)).value, dir + sub, doc) == Success(SavedTree(t, dir, r, sub, doc))
  {
    var o := OutputsPath(dir);
    assert Parent(o) == dir;
    var t1 := if r.resourceType == StackType then Tree(t.files[o := StoredOutputs(r)], t.dirs) else t;
    assert r.resourceType == StackType ==> WriteFile(t, o, StoredOutputs(r)) == Success(t1);
    var p := dir + sub;
    var d := Parent(p);
    forall m | 0 < m <= |d| ensures d[..m] !in t1.files {
      assert d[..m] == p[..m];
    }
    var t2 := MakeDirs(t1, d).value;
    assert d != [] ==> d in Prefixes(d) by {
      assert d[..|d|] == d;
    }
    assert p !in t2.dirs;
  }

  /** `save`'s loop body computes `SavedTree` when nothing is in the way of its writes. */
  lemma SaveResourceIs(t: Tree, dir: Path, table: map<string, Resource>, r: Resource, sub: Path, doc: Value)
    requires Closed(table) && Resolves(table, r) && Resolves(table, Stored(r))
    requires ResourcePath(table, Stored(r)) == Success(sub) && doc == FileDump(Stored(r))
    requires r.resourceType == StackType ==> OutputsPath(dir) !in t.dirs && IsDir(t, dir)
    requires forall m :: 0 < m < |dir + sub| ==> (dir + sub)[..m] !in t.files && (dir + sub)[..m] != OutputsPath(dir)
    requires dir + sub !in t.dirs && sub != []
    ensures SaveResource(t, dir, table, r) == Success(SavedTree(t, dir, r, sub, doc))
  {
    SavedTreeWrites(t, dir, r, sub, doc);
  }

  /** `save`'s loop body on the `k`-th resource computes `SavedTree`. */
  lemma SaveResourceComputes(t: Tree, dir: Path, doc: Value, rs: seq<Resource>, subs: seq<Path>, docs: seq<Value>, k: int)
    requires Apart(subs) && LaidOut(rs, subs) && Dumped(rs, docs) && 0 <= k < |rs|
    requires Saved(t, dir, doc, rs, subs, docs, k)
    ensures SaveResource(t, dir, Table(rs), rs[k]) == Success(SavedTree(t, dir, rs[k], subs[k], docs[k]))
  {
    SubpathOfStored(Table(rs), rs[k], |Table(rs)|);
    OutputsWritable(t, dir, doc, rs, subs, docs, k);
    FileWritable(t, dir, doc, rs, subs, docs, k);
    SaveResourceIs(t, dir, Table(rs), rs[k], subs[k], docs[k]);
  }

  /** `save`'s loop from the `k`-th resource on succeeds and leaves every resource saved. */
  lemma {:induction false} SaveResourcesFootprint(t: Tree, dir: Path, doc: Value, rs: seq<Resource>, subs: seq<Path>, docs: seq<Value>, k: int)
    requires Apart(subs) && OneStack(rs) && LaidOut(rs, subs) && Dumped(rs, docs) && 0 <= k <= |rs|
    requires Saved(t, dir, doc, rs, subs, docs, k)
    ensures SaveResources(t, dir, Table(rs), rs[k..]).Success?
    ensures Saved(SaveResources(t, dir, Table(rs), rs[k..]).value, dir, doc, rs, subs, docs, |rs|)
    decreases |rs| - k
  {
    if k < |rs| {
      SaveResourceComputes(t, dir, doc, rs, subs, docs, k);
      SavedStep(t, dir, doc, rs, subs, docs, k);
      assert rs[k..][0] == rs[k] && rs[k..][1..] == rs[k + 1..];
      SaveResourcesFootprint(SavedTree(t, dir, rs[k], subs[k], docs[k]), dir, doc, rs, subs, docs, k + 1);
    } else {
      assert rs[k..] == [];
    }
  }

  /** The first steps of `save` in a fresh place, creating the state directory and writing
      `state.yaml`, succeed, and leave no resource saved yet. */
  lemma SavedStart(t: Tree, dir: Path, doc: Value, rs: seq<Resource>, subs: seq<Path>, docs: seq<Value>)
    requires Fresh(t, dir) && |subs| == |rs| && |docs| == |rs|
    ensures MakeDirs(t, dir).Success?
    ensures WriteFile(MakeDirs(t, dir).value, StateYamlPath(dir), doc).Success?
    ensures Saved(WriteFile(MakeDirs(t, dir).value, StateYamlPath(dir), doc).value, dir, doc, rs, subs, docs, 0)
  {
    forall m | 0 < m <= |dir| ensures dir[..m] !in t.files {
      assert IsPrefix(dir[..m], dir);
    }
    var t1 := MakeDirs(t, dir).value;
    var y := StateYamlPath(dir);
    assert Below(dir, y) by {
      assert y[..|dir|] == dir;
    }
    assert Parent(y) == dir;
    assert dir != [] ==> dir in Prefixes(dir) by {
      assert dir[..|dir|] == dir;
    }
    var t2 := WriteFile(t1, y, doc).value;
    forall d | d in t2.dirs ensures !Below(dir, d) {
    }
  }

  /** `save` in a fresh place succeeds; afterwards `state.yaml` holds the state's document,
      every resource's file holds its document, `outputs.yaml` the stack's outputs, and
      nothing else lies below the state directory. */
  lemma SaveStateFootprint(t: Tree, dir: Path, s: State, subs: seq<Path>, docs: seq<Value>)
    requires Fresh(t, dir)
    requires s.checkpoint.latest.Some? && s.checkpoint.latest.value.resources.Some?
    requires var rs := s.checkpoint.latest.value.resources.value;
      Apart(subs) && OneStack(rs) && LaidOut(rs, subs) && Dumped(rs, docs)
    ensures SaveState(t, dir, Some(s)).Success?
    ensures var rs := s.checkpoint.latest.value.resources.value;
      Saved(SaveState(t, dir, Some(s)).value, dir, StateDump(s), rs, subs, docs, |rs|)
  {
    var rs := s.checkpoint.latest.value.resources.value;
    var doc := StateDump(s);
    SavedStart(t, dir, doc, rs, subs, docs);
    var t2 := WriteFile(MakeDirs(t, dir).value, StateYamlPath(dir), doc).value;
    assert SaveState(t, dir, Some(s)) == SaveResources(t2, dir, Table(rs), rs);
    SaveResourcesFootprint(t2, dir, doc, rs, subs, docs, 0);
    assert rs[0..] == rs;
  }

  /** `save` of a state without a latest snapshot, in a fresh place, creates the state
      directory and writes `state.yaml`, and nothing else. */
  lemma SaveStateWithoutLatest(t: Tree, dir: Path, s: State)
    requires Fresh(t, dir) && s.checkpoint.latest.None?
    ensures SaveState(t, dir, Some(s)) ==
      Success(Tree(t.files[StateYamlPath(dir) := StateDump(s)], t.dirs + Prefixes(dir)))
  {
    SavedStart(t, dir, StateDump(s), [], [], []);
  }

  lemma SaveResourceValid(t: Tree, dir: Path, table: map<string, Resource>, r: Resource)
    requires Closed(table) && Resolves(table, r)
    requires Valid(t) && SaveResource(t, dir, table, r).Success?
    ensures Valid(SaveResource(t, dir, table, r).value)
  {
    var t1 := if r.resourceType == StackType then WriteFile(t, OutputsPath(dir), StoredOutputs(r)).value else t;
    if r.resourceType == StackType {
      WriteFileValid(t, OutputsPath(dir), StoredOutputs(r));
    }
    var path := dir + ResourcePath(table, Stored(r)).value;
    MakeDirsValid(t1, Parent(path));
    WriteFileValid(MakeDirs(t1, Parent(path)).value, path, FileDump(Stored(r)));
  }

  lemma {:induction false} SaveResourcesValid(t: Tree, dir: Path, table: map<string, Resource>, rs: seq<Resource>)
    requires Closed(table) && forall i :: 0 <= i < |rs| ==> Resolves(table, rs[i])
    requires Valid(t) && SaveResources(t, dir, table, rs).Success?
    ensures Valid(SaveResources(t, dir, table, rs).value)
    decreases |rs|
  {
    if rs != [] {
      SaveResourceValid(t, dir, table, rs[0]);
      SaveResourcesValid(SaveResource(t, dir, table, rs[0]).value, dir, table, rs[1..]);
    }
  }

  /** `save` keeps the file system valid: every file and directory it creates sits in a
      directory, and nothing becomes both a file and a directory. */
  lemma SaveStateValid(t: Tree, dir: Path, state: Option<State>)
    requires LinkedState(state) && Valid(t) && SaveState(t, dir, state).Success?
    ensures Valid(SaveState(t, dir, state).value)
  {
    var s := state.value;
    MakeDirsValid(t, dir);
    var t1 := MakeDirs(t, dir).value;
    WriteFileValid(t1, StateYamlPath(dir), StateDump(s));
    var t2 := WriteFile(t1, StateYamlPath(dir), StateDump(s)).value;
    if s.checkpoint.latest.Some? {
      var rs := s.checkpoint.latest.value.resources.value;
      SaveResourcesValid(t2, dir, Table(rs), rs);
    }
  }

  // ---------------------------------------------------------------------------
  // What `save` leaves outside the state directory, and after a failure

  /** `t1` is `t` with files written below `dir` and directories made below `dir` or on the
      way to it: nothing is removed, and every file elsewhere keeps its document. */
  ghost predicate GrownBelow(t: Tree, t1: Tree, dir: Path) {
    && t.files.Keys <= t1.files.Keys && t.dirs <= t1.dirs
    && (forall p :: p in t1.files && !Below(dir, p) ==> p in t.files && t1.files[p] == t.files[p])
    && (forall d :: d in t1.dirs && !Below(dir, d) ==> d in t.dirs || d in Prefixes(dir))
  }

  lemma GrownTransitive(t: Tree, t1: Tree, t2: Tree, dir: Path)
    requires GrownBelow(t, t1, dir) && GrownBelow(t1, t2, dir)
    ensures GrownBelow(t, t2, dir)
  {
  }

  /** `mkdir(parents=True)` of `dir` or of a path below it makes directories only there and
      on the way to `dir`. */
  lemma MakeDirsGrows(t: Tree, dir: Path, p: Path)
    requires IsPrefix(dir, p) && MakeDirs(t, p).Success?
    ensures GrownBelow(t, MakeDirs(t, p).value, dir)
  {
    forall d | d in Prefixes(p) && !Below(dir, d) ensures d in Prefixes(dir) {
      var k :| 0 < k <= |p| && d == p[..k];
      assert d == dir[..k];
    }
  }

  /** Making a file's directory and writing the file, below `dir`, change things only below
      `dir` and on the way to it. */
  lemma SaveFileGrows(t: Tree, dir: Path, p: Path, v: Value)
    requires Below(dir, p)
    ensures GrownBelow(t, SaveFileLeaves(t, p, v), dir)
  {
    match MakeDirs(t, Parent(p))
    case Failure(_) =>
    case Success(t1) =>
      assert IsPrefix(dir, Parent(p)) by {
        assert Parent(p)[..|dir|] == dir;
      }
      MakeDirsGrows(t, dir, Parent(p));
      assert GrownBelow(t1, SaveFileLeaves(t, p, v), dir);
      GrownTransitive(t, t1, SaveFileLeaves(t, p, v), dir);
  }

  lemma SaveResourceGrows(t: Tree, dir: Path, table: map<string, Resource>, r: Resource)
    requires Closed(table) && Resolves(table, r)
    ensures GrownBelow(t, SaveResourceLeaves(t, dir, table, r), dir)
  {
    var o := OutputsPath(dir);
    var w := if r.resourceType == StackType then WriteFile(t, o, StoredOutputs(r)) else Success(t);
    if w.Success? {
      var t1 := w.value;
      assert GrownBelow(t, t1, dir) by {
        assert o[..|dir|] == dir;
      }
      match ResourcePath(table, Stored(r))
      case Failure(_) =>
      case Success(sub) =>
        var p := dir + sub;
        assert p[..|dir|] == dir;
        SaveFileGrows(t1, dir, p, FileDump(Stored(r)));
        GrownTransitive(t, t1, SaveFileLeaves(t1, p, FileDump(Stored(r))), dir);
    }
  }

  lemma {:induction false} SaveResourcesGrows(t: Tree, dir: Path, table: map<string, Resource>, rs: seq<Resource>)
    requires Closed(table) && forall i :: 0 <= i < |rs| ==> Resolves(table, rs[i])
    ensures GrownBelow(t, SaveResourcesLeaves(t, dir, table, rs), dir)
    decreases |rs|
  {
    if rs != [] {
      SaveResourceGrows(t, dir, table, rs[0]);
      if SaveResource(t, dir, table, rs[0]).Success? {
        var t1 := SaveResource(t, dir, table, rs[0]).value;
        SaveResourcesGrows(t1, dir, table, rs[1..]);
        GrownTransitive(t, t1, SaveResourcesLeaves(t1, dir, table, rs[1..]), dir);
      }
    }
  }

  /** `save` changes nothing outside the state directory, whether it succeeds or fails: every
      file there is kept with its document and no other file appears, and the only
      directories it adds there are those on the way to the state directory, all of which
      exist after a success. Nothing is ever removed. */
  lemma SaveStateFrame(t: Tree, dir: Path, s: State)
    requires LinkedState(Some(s))
    ensures var t1 := SaveStateLeaves(t, dir, Some(s));
      && t.files.Keys <= t1.files.Keys && t.dirs <= t1.dirs
      && (forall p :: !Below(dir, p) ==> (p in t1.files <==> p in t.files))
      && (forall p :: !Below(dir, p) && p in t.files ==> t1.files[p] == t.files[p])
      && (forall d :: d in t1.dirs && !Below(dir, d) ==> d in t.dirs + Prefixes(dir))
    ensures SaveState(t, dir, Some(s)).Success? ==>
      var t1 := SaveState(t, dir, Some(s)).value;
      forall d :: !Below(dir, d) ==> (d in t1.dirs <==> d in t.dirs + Prefixes(dir))
  {
    var t1 := SaveStateLeaves(t, dir, Some(s));
    if MakeDirs(t, dir).Success? {
      MakeDirsGrows(t, dir, dir);
      var tm := MakeDirs(t, dir).value;
      var y := StateYamlPath(dir);
      assert Below(dir, y) by {
        assert y[..|dir|] == dir;
      }
      if WriteFile(tm, y, StateDump(s)).Success? {
        var tw := WriteFile(tm, y, StateDump(s)).value;
        GrownTransitive(t, tm, tw, dir);
        if s.checkpoint.latest.Some? && s.checkpoint.latest.value.resources.Some? {
          var rs := s.checkpoint.latest.value.resources.value;
          SaveResourcesGrows(tw, dir, Table(rs), rs);
          GrownTransitive(t, tw, t1, dir);
        }
      }
    }
    assert GrownBelow(t, t1, dir);
  }

  /** Once `state.yaml` is written, what `save` leaves is what its loop leaves. */
  lemma SaveStateLeavesLoop(t: Tree, dir: Path, s: State, tw: Tree)
    requires s.checkpoint.latest.Some? && s.checkpoint.latest.value.resources.Some?
    requires Linked(s.checkpoint.latest.value.resources.value)
    requires MakeDirs(t, dir).Success? && WriteFile(MakeDirs(t, dir).value, StateYamlPath(dir), StateDump(s)) == Success(tw)
    ensures var rs := s.checkpoint.latest.value.resources.value;
      SaveStateLeaves(t, dir, Some(s)) == SaveResourcesLeaves(tw, dir, Table(rs), rs)
  {
  }

  /** A `save` that fails on a resource after writing `state.yaml` (into `tw`) leaves
      `state.yaml`, and everything else that was there once it was written. */
  lemma SaveStateFailureKeepsWrites(t: Tree, dir: Path, s: State, tw: Tree)
    requires s.checkpoint.latest.Some? && s.checkpoint.latest.value.resources.Some?
    requires Linked(s.checkpoint.latest.value.resources.value)
    requires MakeDirs(t, dir).Success? && WriteFile(MakeDirs(t, dir).value, StateYamlPath(dir), StateDump(s)) == Success(tw)
    ensures StateYamlPath(dir) in SaveStateLeaves(t, dir, Some(s)).files
    ensures tw.files.Keys <= SaveStateLeaves(t, dir, Some(s)).files.Keys
  {
    var rs := s.checkpoint.latest.value.resources.value;
    SaveResourcesGrows(tw, dir, Table(rs), rs);
    SaveStateLeavesLoop(t, dir, s, tw);
  }

  /** The documents `save` writes for the resources' files. */
  function Dumps(rs: seq<Resource>): (docs: seq<Value>)
    ensures Dumped(rs, docs)
  {
    seq(|rs|, j requires 0 <= j < |rs| => FileDump(Stored(rs[j])))
  }

  lemma LayableLaidOut(rs: seq<Resource>)
    requires Layable(rs)
    ensures Apart(Subpaths(rs)) && OneStack(rs) && LaidOut(rs, Subpaths(rs))
  {
  }
}
