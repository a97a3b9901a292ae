/** What `StateDir.remove` leaves behind: the directories it removes with each resource. */
module Removal {
  import opened Wrappers
  import opened Errors
  import opened Documents
  import opened Paths
  import opened Model
  import opened FileSystems
  import opened Split
  import opened Layout
  import opened Saving

  /** Some file lies somewhere below `d`. */
  ghost predicate HasFileBelow(t: Tree, d: Path) {
    exists p :: p in t.files && Below(d, p)
  }

  /** Every directory strictly below `dir` leads to a file: there is no directory below
      `dir` that only holds empty directories. */
  ghost predicate NoEmptyBelow(t: Tree, dir: Path) {
    forall d :: d in t.dirs && Below(dir, d) ==> HasFileBelow(t, d)
  }

  /** Pruning from `d` up to `dir` removes exactly the directories that could have become
      empty: if every directory below `dir` that is not `d` or an ancestor of `d` leads to a
      file, then afterwards every directory below `dir` does. */
  lemma {:induction false} PruneKeepsNoEmpty(t: Tree, dir: Path, d: Path)
    requires |d| > |dir| ==> d[..|dir|] == dir
    requires forall e :: e in t.dirs && Below(dir, e) && !IsPrefix(e, d) ==> HasFileBelow(t, e)
    requires Prune(t, d, |dir|).Success?
    ensures NoEmptyBelow(Prune(t, d, |dir|).value, dir)
    decreases |d|
  {
    if |d| > |dir| {
      var t1 := RemoveIfEmpty(t, d).value;
      forall e | e in t1.dirs && Below(dir, e) && !IsPrefix(e, Parent(d))
        ensures HasFileBelow(t1, e)
      {
        if e == d {
          assert HasEntries(t, d);
          if c :| c in t.dirs && IsChild(d, c) {
            assert Below(d, c);
            BelowTransitive(dir, d, c);
            assert !IsPrefix(c, d);
            var p :| p in t.files && Below(c, p);
            BelowTransitive(d, c, p);
          } else {
            var p :| p in t.files && IsChild(d, p);
            assert Below(d, p);
          }
        } else {
          assert !IsPrefix(e, d);
        }
      }
      assert |Parent(d)| > |dir| ==> Parent(d)[..|dir|] == d[..|dir|];
      PruneKeepsNoEmpty(t1, dir, Parent(d));
    } else {
      forall e | e in t.dirs && Below(dir, e) ensures HasFileBelow(t, e) {
        assert !IsPrefix(e, d);
      }
    }
  }

  /** What unlinking a resource's files changes: its file and, for the stack resource,
      `outputs.yaml` go, and the directories stay. */
  lemma UnlinkResourceFiles(t: Tree, dir: Path, table: map<string, Resource>, r: Resource)
    requires Closed(table) && Resolves(table, r)
    requires UnlinkResource(t, dir, table, r).Success?
    ensures var (path, t1) := UnlinkResource(t, dir, table, r).value;
      && Below(dir, path)
      && t1.dirs == t.dirs
      && path in t.files && path !in t1.files
      && (forall p :: p in t.files && p != path && p != OutputsPath(dir) ==> p in t1.files)
      && (forall p :: p in t1.files ==> p in t.files)
  {
    var sub := ResourcePath(table, r).value;
    var path := dir + sub;
    assert path[..|dir|] == dir;
  }

  /** The corrected step of `remove` keeps every directory below the state directory leading
      to a file. */
  lemma RemoveResourceKeepsNoEmpty(t: Tree, dir: Path, table: map<string, Resource>, r: Resource)
    requires Closed(table) && Resolves(table, r)
    requires NoEmptyBelow(t, dir) && RemoveResource(t, dir, table, r).Success?
    ensures NoEmptyBelow(RemoveResource(t, dir, table, r).value, dir)
  {
    var (path, t1) := UnlinkResource(t, dir, table, r).value;
    UnlinkResourceFiles(t, dir, table, r);
    var d := Parent(path);
    forall e | e in t1.dirs && Below(dir, e) && !IsPrefix(e, d) ensures HasFileBelow(t1, e) {
      var p :| p in t.files && Below(e, p);
      assert p != OutputsPath(dir);
    }
    assert |d| > |dir| ==> d[..|dir|] == path[..|dir|];
    PruneKeepsNoEmpty(t1, dir, d);
  }

  lemma {:induction false} RemoveResourcesKeepsNoEmpty(t: Tree, dir: Path, table: map<string, Resource>, rs: seq<Resource>)
    requires Closed(table) && forall i :: 0 <= i < |rs| ==> Resolves(table, rs[i])
    requires NoEmptyBelow(t, dir) && RemoveResources(t, dir, table, rs).Success?
    ensures NoEmptyBelow(RemoveResources(t, dir, table, rs).value, dir)
    decreases |rs|
  {
    if rs != [] {
      RemoveResourceKeepsNoEmpty(t, dir, table, rs[0]);
      RemoveResourcesKeepsNoEmpty(RemoveResource(t, dir, table, rs[0]).value, dir, table, rs[1..]);
    }
  }

  /** Once no file is left below the state directory, `rmdir_if_empty` removes it. */
  lemma EmptiedStateDirIsRemoved(t: Tree, dir: Path)
    requires NoEmptyBelow(t, dir) && dir != [] && dir in t.dirs && dir !in t.files
    requires forall p :: p in t.files ==> !Below(dir, p)
    ensures RemoveIfEmpty(t, dir) == Success(Tree(t.files, t.dirs - {dir}))
  {
    if HasEntries(t, dir) {
      if c :| c in t.dirs && IsChild(dir, c) {
        assert Below(dir, c);
        var p :| p in t.files && Below(c, p);
        BelowTransitive(dir, c, p);
      }
    }
  }

  // ---------------------------------------------------------------------------
  // What `remove` deletes, and what it keeps

  /** The files `remove` unlinks for one resource: its file and, for the stack resource,
      `outputs.yaml`. */
  ghost function UnlinkedBy(dir: Path, table: map<string, Resource>, r: Resource): set<Path>
    requires Closed(table) && Resolves(table, r)
  {
    (if r.resourceType == StackType then {OutputsPath(dir)} else {})
    + match ResourcePath(table, r) case Success(sub) => {dir + sub} case Failure(_) => {}
  }

  ghost function UnlinkedFiles(dir: Path, table: map<string, Resource>, rs: seq<Resource>): set<Path>
    requires Closed(table) && forall i :: 0 <= i < |rs| ==> Resolves(table, rs[i])
    decreases |rs|
  {
    if rs == [] then {} else UnlinkedBy(dir, table, rs[0]) + UnlinkedFiles(dir, table, rs[1..])
  }

  /** The files `remove` unlinks for a state: `state.yaml`, then those of its resources. */
  ghost function RemovedFiles(dir: Path, s: State): set<Path>
    requires LinkedState(Some(s))
  {
    {StateYamlPath(dir)} +
      match s.checkpoint.latest
      case None => {}
      case Some(l) =>
        match l.resources
        case None => {}
        case Some(rs) => UnlinkedFiles(dir, Table(rs), rs)
  }

  /** Every directory `t` has and `t1` lacks holds nothing in `t1`, and `t1` has no new
      directory: directories are only removed when empty, and nothing is put back. */
  ghost predicate Emptied(t: Tree, t1: Tree) {
    && t1.dirs <= t.dirs
    && forall d :: d in t.dirs && d !in t1.dirs ==> !HasEntries(t1, d)
  }

  lemma EmptiedTransitive(t0: Tree, t1: Tree, t2: Tree)
    requires Emptied(t0, t1) && Emptied(t1, t2) && t2.files.Keys <= t1.files.Keys
    ensures Emptied(t0, t2)
  {
  }

  lemma RemoveIfEmptyEmptied(t: Tree, d: Path)
    requires RemoveIfEmpty(t, d).Success?
    ensures RemoveIfEmpty(t, d).value.files == t.files
    ensures Emptied(t, RemoveIfEmpty(t, d).value)
    ensures forall e :: e in t.dirs && e !in RemoveIfEmpty(t, d).value.dirs ==> e == d
  {
  }

  /** Pruning removes no file, and only directories on the way from `d` up to depth
      `depth`, each of them empty. */
  lemma {:induction false} PruneFootprint(t: Tree, d: Path, depth: nat)
    requires Prune(t, d, depth).Success?
    ensures var t1 := Prune(t, d, depth).value;
      && t1.files == t.files
      && Emptied(t, t1)
      && forall e :: e in t.dirs && e !in t1.dirs ==> |e| > depth && IsPrefix(e, d)
    decreases |d|
  {
    if |d| > depth {
      var t1 := RemoveIfEmpty(t, d).value;
      RemoveIfEmptyEmptied(t, d);
      PruneFootprint(t1, Parent(d), depth);
      var t2 := Prune(t, d, depth).value;
      EmptiedTransitive(t, t1, t2);
      forall e | e in t1.dirs && IsPrefix(e, Parent(d)) ensures IsPrefix(e, d) {
        assert d[..|e|] == Parent(d)[..|e|];
      }
    }
  }

  /** In a valid tree, pruning from a directory succeeds and keeps the tree valid. */
  lemma {:induction false} PruneValid(t: Tree, d: Path, depth: nat)
    requires Valid(t) && (|d| > depth ==> d in t.dirs)
    ensures Prune(t, d, depth).Success? && Valid(Prune(t, d, depth).value)
    decreases |d|
  {
    if |d| > depth {
      RemoveIfEmptyValid(t, d);
      var t1 := RemoveIfEmpty(t, d).value;
      assert |Parent(d)| > depth ==> IsDir(t, Parent(d)) && Parent(d) != d;
      PruneValid(t1, Parent(d), depth);
    }
  }

  lemma UnlinkResourceIs(t: Tree, dir: Path, table: map<string, Resource>, r: Resource)
    requires Closed(table) && Resolves(table, r)
    requires UnlinkResource(t, dir, table, r).Success?
    ensures var (path, t1) := UnlinkResource(t, dir, table, r).value;
      var gone := (if r.resourceType == StackType then {OutputsPath(dir)} else {}) + {path};
      && ResourcePath(table, r).Success? && path == dir + ResourcePath(table, r).value
      && gone <= t.files.Keys
      && t1 == Tree(t.files - gone, t.dirs)
  {
    var sub := ResourcePath(table, r).value;
    var path := dir + sub;
    assert path[..|dir|] == dir;
    var o := OutputsPath(dir);
    if r.resourceType == StackType {
      MinusUnion(t.files, {o}, {path});
    }
  }

  lemma MinusUnion(m: map<Path, Value>, a: set<Path>, b: set<Path>)
    ensures m - a - b == m - (a + b)
  {
    assert (m - a - b).Keys == (m - (a + b)).Keys;
  }

  lemma UnlinkedByIs(dir: Path, table: map<string, Resource>, r: Resource, sub: Path)
    requires Closed(table) && Resolves(table, r) && ResourcePath(table, r) == Success(sub)
    ensures UnlinkedBy(dir, table, r) == (if r.resourceType == StackType then {OutputsPath(dir)} else {}) + {dir + sub}
  {
  }

  /** One corrected iteration of `remove`'s loop unlinks the resource's file and, for the
      stack resource, `outputs.yaml`, each of which was there; it removes only directories
      below the state directory that it left empty. */
  lemma RemoveResourceFootprint(t: Tree, dir: Path, table: map<string, Resource>, r: Resource)
    requires Closed(table) && Resolves(table, r)
    requires RemoveResource(t, dir, table, r).Success?
    ensures var t1 := RemoveResource(t, dir, table, r).value;
      && UnlinkedBy(dir, table, r) <= t.files.Keys
      && t1.files == t.files - UnlinkedBy(dir, table, r)
      && Emptied(t, t1)
      && forall e :: e in t.dirs && e !in t1.dirs ==> Below(dir, e)
  {
    UnlinkResourceIs(t, dir, table, r);
    var (path, t2) := UnlinkResource(t, dir, table, r).value;
    UnlinkedByIs(dir, table, r, ResourcePath(table, r).value);
    PruneFootprint(t2, Parent(path), |dir|);
    forall e | e in t2.dirs && |e| > |dir| && IsPrefix(e, Parent(path)) ensures Below(dir, e) {
      assert e[..|dir|] == path[..|dir|];
    }
  }

  /** The corrected loop of `remove` unlinks exactly the files of its resources, each of
      which was there, and removes only directories below the state directory that it left
      empty. */
  lemma {:induction false} RemoveResourcesFootprint(t: Tree, dir: Path, table: map<string, Resource>, rs: seq<Resource>)
    requires Closed(table) && forall i :: 0 <= i < |rs| ==> Resolves(table, rs[i])
    requires RemoveResources(t, dir, table, rs).Success?
    ensures var t1 := RemoveResources(t, dir, table, rs).value;
      && UnlinkedFiles(dir, table, rs) <= t.files.Keys
      && t1.files == t.files - UnlinkedFiles(dir, table, rs)
      && Emptied(t, t1)
      && forall e :: e in t.dirs && e !in t1.dirs ==> Below(dir, e)
    decreases |rs|
  {
    if rs != [] {
      RemoveResourceFootprint(t, dir, table, rs[0]);
      var t1 := RemoveResource(t, dir, table, rs[0]).value;
      RemoveResourcesFootprint(t1, dir, table, rs[1..]);
      var t2 := RemoveResources(t1, dir, table, rs[1..]).value;
      assert RemoveResources(t, dir, table, rs).value == t2;
      EmptiedTransitive(t, t1, t2);
      MinusUnion(t.files, UnlinkedBy(dir, table, rs[0]), UnlinkedFiles(dir, table, rs[1..]));
    }
  }

  /** `remove`, corrected, when it succeeds: it unlinks exactly `state.yaml`, each
      resource's file and, with the stack resource, `outputs.yaml`, all of which were there;
      every other file stays as it was. The directories it removes are directories below
      the state directory, the state directory and its parent, each left with nothing in
      it. */
  lemma RemoveStateFootprint(t: Tree, dir: Path, s: State)
    requires LinkedState(Some(s)) && RemoveState(t, dir, Some(s)).Success?
    ensures var t1 := RemoveState(t, dir, Some(s)).value;
      && RemovedFiles(dir, s) <= t.files.Keys
      && t1.files == t.files - RemovedFiles(dir, s)
      && Emptied(t, t1)
      && forall d :: d in t.dirs && d !in t1.dirs ==> d == Parent(dir) || d == dir || Below(dir, d)
  {
    var y := StateYamlPath(dir);
    var t1 := UnlinkFile(t, y).value;
    var t2: Tree;
    var rest: set<Path>;
    if s.checkpoint.latest.None? {
      t2, rest := t1, {};
    } else {
      var rs := s.checkpoint.latest.value.resources.value;
      RemoveResourcesFootprint(t1, dir, Table(rs), rs);
      t2, rest := RemoveResources(t1, dir, Table(rs), rs).value, UnlinkedFiles(dir, Table(rs), rs);
    }
    assert RemovedFiles(dir, s) == {y} + rest;
    MinusUnion(t.files, {y}, rest);
    RemoveIfEmptyEmptied(t2, dir);
    var t3 := RemoveIfEmpty(t2, dir).value;
    RemoveIfEmptyEmptied(t3, Parent(dir));
    var t4 := RemoveIfEmpty(t3, Parent(dir)).value;
    assert RemoveState(t, dir, Some(s)).value == t4;
    EmptiedTransitive(t1, t2, t3);
    EmptiedTransitive(t1, t3, t4);
  }

  /** With subpaths at least two long, `remove` unlinks nothing directly in the state
      directory but `outputs.yaml`. */
  lemma {:induction false} UnlinkedFilesDeep(dir: Path, table: map<string, Resource>, rs: seq<Resource>)
    requires Closed(table) && forall i :: 0 <= i < |rs| ==> Resolves(table, rs[i])
    requires forall i :: 0 <= i < |rs| ==>
      ResourcePath(table, rs[i]).Success? && |ResourcePath(table, rs[i]).value| >= 2
    ensures forall p :: p in UnlinkedFiles(dir, table, rs) ==> p == OutputsPath(dir) || |p| >= |dir| + 2
    decreases |rs|
  {
    if rs != [] {
      UnlinkedFilesDeep(dir, table, rs[1..]);
      UnlinkedByIs(dir, table, rs[0], ResourcePath(table, rs[0]).value);
    }
  }

  lemma LayableDeep(rs: seq<Resource>)
    requires Layable(rs)
    ensures forall i :: 0 <= i < |rs| ==>
      ResourcePath(Table(rs), rs[i]).Success? && |ResourcePath(Table(rs), rs[i]).value| >= 2
  {
    forall i | 0 <= i < |rs| ensures |ResourcePath(Table(rs), rs[i]).value| >= 2 {
      assert Fits(Subpaths(rs)[i]);
    }
  }

  lemma RemovedFilesOf(dir: Path, s: State, rs: seq<Resource>)
    requires s.checkpoint.latest.Some? && s.checkpoint.latest.value.resources == Some(rs) && Linked(rs)
    ensures RemovedFiles(dir, s) == {StateYamlPath(dir)} + UnlinkedFiles(dir, Table(rs), rs)
  {
  }

  /** `remove` keeps a file of another name directly in the state directory, as it keeps
      every file that is not its state's: only `state.yaml`, `outputs.yaml` and the
      resources' files, which lie in subdirectories, are unlinked. */
  lemma RemoveKeepsOtherFiles(t: Tree, dir: Path, s: State, name: string)
    requires s.checkpoint.latest.Some? && s.checkpoint.latest.value.resources.Some?
    requires Layable(s.checkpoint.latest.value.resources.value)
    requires RemoveState(t, dir, Some(s)).Success?
    requires name != "state.yaml" && name != "outputs.yaml" && dir + [name] in t.files
    ensures var t1 := RemoveState(t, dir, Some(s)).value;
      dir + [name] in t1.files && t1.files[dir + [name]] == t.files[dir + [name]]
  {
    var rs := s.checkpoint.latest.value.resources.value;
    LayableDeep(rs);
    UnlinkedFilesDeep(dir, Table(rs), rs);
    RemovedFilesOf(dir, s, rs);
    RemoveStateFootprint(t, dir, s);
    var p := dir + [name];
    assert p[|dir|] == name;
    assert StateYamlPath(dir)[|dir|] == "state.yaml" && OutputsPath(dir)[|dir|] == "outputs.yaml";
    assert p !in RemovedFiles(dir, s);
    var t1 := RemoveState(t, dir, Some(s)).value;
    assert t1.files == t.files - RemovedFiles(dir, s);
  }

  // ---------------------------------------------------------------------------
  // What `remove` leaves after a failure

  /** `t1` is `t` with some files below `dir` removed, and some directories below `dir`, `dir`
      itself or its parent: nothing is added and no file is rewritten. */
  ghost predicate ShrunkWithin(t: Tree, t1: Tree, dir: Path) {
    && t1.files.Keys <= t.files.Keys && t1.dirs <= t.dirs
    && (forall p :: p in t1.files ==> t1.files[p] == t.files[p])
    && (forall p :: p in t.files && !Below(dir, p) ==> p in t1.files)
    && (forall d :: d in t.dirs && d !in t1.dirs ==> Below(dir, d) || d == dir || d == Parent(dir))
  }

  lemma ShrunkTransitive(t: Tree, t1: Tree, t2: Tree, dir: Path)
    requires ShrunkWithin(t, t1, dir) && ShrunkWithin(t1, t2, dir)
    ensures ShrunkWithin(t, t2, dir)
  {
  }

  /** Pruning from `d` down to the state directory removes only directories below it. */
  lemma {:induction false} PruneShrinks(t: Tree, d: Path, dir: Path)
    requires IsPrefix(dir, d)
    ensures ShrunkWithin(t, PruneLeaves(t, d, |dir|), dir)
    decreases |d|
  {
    if |d| > |dir| {
      assert Below(dir, d);
      match RemoveIfEmpty(t, d)
      case Failure(_) =>
      case Success(t1) =>
        assert IsPrefix(dir, Parent(d)) by {
          assert Parent(d)[..|dir|] == dir;
        }
        PruneShrinks(t1, Parent(d), dir);
        ShrunkTransitive(t, t1, PruneLeaves(t1, Parent(d), |dir|), dir);
    }
  }

  /** Unlinking a resource's files removes only files below the state directory, and the
      directory pruning starts from lies below it or is it. */
  lemma UnlinkResourceShrinks(t: Tree, dir: Path, table: map<string, Resource>, r: Resource)
    requires Closed(table) && Resolves(table, r)
    ensures ShrunkWithin(t, UnlinkResourceLeaves(t, dir, table, r), dir)
    ensures UnlinkResource(t, dir, table, r).Success? ==> IsPrefix(dir, Parent(UnlinkResource(t, dir, table, r).value.0))
  {
    match ResourcePath(table, r)
    case Failure(_) =>
    case Success(sub) =>
      var p := dir + sub;
      var o := OutputsPath(dir);
      assert Below(dir, o) by {
        assert o[..|dir|] == dir;
      }
      assert Below(dir, p) by {
        assert p[..|dir|] == dir;
      }
      assert IsPrefix(dir, Parent(p)) by {
        assert Parent(p)[..|dir|] == dir;
      }
  }

  lemma RemoveResourceShrinks(t: Tree, dir: Path, table: map<string, Resource>, r: Resource)
    requires Closed(table) && Resolves(table, r)
    ensures ShrunkWithin(t, RemoveResourceLeaves(t, dir, table, r), dir)
  {
    UnlinkResourceShrinks(t, dir, table, r);
    match UnlinkResource(t, dir, table, r)
    case Failure(_) =>
    case Success(unlinked) =>
      PruneShrinks(unlinked.1, Parent(unlinked.0), dir);
      ShrunkTransitive(t, unlinked.1, PruneLeaves(unlinked.1, Parent(unlinked.0), |dir|), dir);
  }

  lemma {:induction false} RemoveResourcesShrinks(t: Tree, dir: Path, table: map<string, Resource>, rs: seq<Resource>)
    requires Closed(table) && forall i :: 0 <= i < |rs| ==> Resolves(table, rs[i])
    ensures ShrunkWithin(t, RemoveResourcesLeaves(t, dir, table, rs), dir)
    decreases |rs|
  {
    if rs != [] {
      RemoveResourceShrinks(t, dir, table, rs[0]);
      if RemoveResource(t, dir, table, rs[0]).Success? {
        var t1 := RemoveResource(t, dir, table, rs[0]).value;
        RemoveResourcesShrinks(t1, dir, table, rs[1..]);
        ShrunkTransitive(t, t1, RemoveResourcesLeaves(t1, dir, table, rs[1..]), dir);
      }
    }
  }

  lemma RemoveRestShrinks(t: Tree, dir: Path, table: map<string, Resource>, rs: seq<Resource>)
    requires Closed(table) && forall i :: 0 <= i < |rs| ==> Resolves(table, rs[i])
    ensures ShrunkWithin(t, RemoveRestLeaves(t, dir, table, rs), dir)
  {
    RemoveResourcesShrinks(t, dir, table, rs);
    match RemoveResources(t, dir, table, rs)
    case Failure(_) =>
    case Success(t2) =>
      assert ShrunkWithin(t2, RemoveRestLeaves(t, dir, table, rs), dir);
      ShrunkTransitive(t, t2, RemoveRestLeaves(t, dir, table, rs), dir);
  }

  /** `remove` creates and rewrites nothing, whether it succeeds or fails: the files it has
      unlinked by then all lie below the state directory, and the directories it has removed
      lie below it or are the state directory and its parent. */
  lemma RemoveStateFrame(t: Tree, dir: Path, state: Option<State>)
    requires LinkedState(state)
    ensures var t1 := RemoveStateLeaves(t, dir, state);
      && t1.files.Keys <= t.files.Keys && t1.dirs <= t.dirs
      && (forall p :: p in t1.files ==> t1.files[p] == t.files[p])
      && (forall p :: p in t.files && !Below(dir, p) ==> p in t1.files)
      && (forall d :: d in t.dirs && d !in t1.dirs ==> Below(dir, d) || d == dir || d == Parent(dir))
  {
    var y := StateYamlPath(dir);
    match UnlinkFile(t, y)
    case Failure(_) =>
    case Success(t1) =>
      assert ShrunkWithin(t, t1, dir) by {
        assert y[..|dir|] == dir;
      }
      if state.Some? {
        var latest := state.value.checkpoint.latest;
        if !(latest.Some? && latest.value.resources.None?) {
          var rs := if latest.Some? then latest.value.resources.value else [];
          RemoveRestShrinks(t1, dir, Table(rs), rs);
          ShrunkTransitive(t, t1, RemoveRestLeaves(t1, dir, Table(rs), rs), dir);
        }
      }
    assert ShrunkWithin(t, RemoveStateLeaves(t, dir, state), dir);
  }

  /** `remove` on a state directory with no loaded state fails, after it has unlinked
      `state.yaml`, and changes nothing else. */
  lemma RemoveWithoutState(t: Tree, dir: Path)
    requires StateYamlPath(dir) in t.files
    ensures RemoveState(t, dir, None) == Failure(NoState)
    ensures RemoveStateLeaves(t, dir, None) == Tree(t.files - {StateYamlPath(dir)}, t.dirs)
  {
  }

  /** `remove` of a state whose latest snapshot has no resource list fails, after it has
      unlinked `state.yaml`, and changes nothing else. */
  lemma RemoveWithoutResources(t: Tree, dir: Path, s: State)
    requires s.checkpoint.latest.Some? && s.checkpoint.latest.value.resources.None?
    requires StateYamlPath(dir) in t.files
    ensures RemoveState(t, dir, Some(s)) == Failure(ResourcesNotIterable)
    ensures RemoveStateLeaves(t, dir, Some(s)) == Tree(t.files - {StateYamlPath(dir)}, t.dirs)
  {
  }

  // ---------------------------------------------------------------------------
  // `remove` after `save`

  /** The tree during `remove`'s loop over what `save` wrote, before the `k`-th resource:
      the files of resources `k` onwards are there, `outputs.yaml` too while the stack
      resource is among them, nothing else lies below the state directory, and every
      directory below it still leads to a file. */
  ghost predicate Remaining(t: Tree, dir: Path, rs: seq<Resource>, subs: seq<Path>, k: nat) {
    && k <= |rs| && |subs| == |rs|
    && Valid(t) && dir in t.dirs && NoEmptyBelow(t, dir)
    && (forall j :: k <= j < |rs| ==> dir + subs[j] in t.files)
    && (forall j :: k <= j < |rs| && rs[j].resourceType == StackType ==> OutputsPath(dir) in t.files)
    && (forall p :: p in t.files && Below(dir, p) ==>
          || (p == OutputsPath(dir) && exists j :: k <= j < |rs| && rs[j].resourceType == StackType)
          || (exists j :: k <= j < |rs| && p == dir + subs[j]))
  }

  /** Once `state.yaml` is unlinked, what `save` wrote is ready for the loop. */
  lemma SavedRemaining(t: Tree, dir: Path, doc: Value, rs: seq<Resource>, subs: seq<Path>, docs: seq<Value>)
    requires Saved(t, dir, doc, rs, subs, docs, |rs|) && Valid(t) && Apart(subs) && dir != []
    ensures UnlinkFile(t, StateYamlPath(dir)).Success?
    ensures Remaining(UnlinkFile(t, StateYamlPath(dir)).value, dir, rs, subs, 0)
  {
    var y := StateYamlPath(dir);
    UnlinkFileValid(t, y);
    var t1 := UnlinkFile(t, y).value;
    forall j | 0 <= j < |rs| ensures dir + subs[j] in t1.files {
      assert |dir + subs[j]| != |y|;
    }
    forall d | d in t1.dirs && Below(dir, d) ensures HasFileBelow(t1, d) {
      var j :| 0 <= j < |rs| && j < |subs| && Below(d, dir + subs[j]);
      assert |dir + subs[j]| != |y|;
    }
  }

  /** `save` in a fresh place, then the unlink of `state.yaml`, leave the tree ready for the
      loop. */
  lemma RemainingStart(t: Tree, dir: Path, s: State, subs: seq<Path>, docs: seq<Value>)
    requires Valid(t) && Fresh(t, dir) && dir != []
    requires s.checkpoint.latest.Some? && s.checkpoint.latest.value.resources.Some?
    requires var rs := s.checkpoint.latest.value.resources.value;
      Apart(subs) && OneStack(rs) && LaidOut(rs, subs) && Dumped(rs, docs)
    ensures SaveState(t, dir, Some(s)).Success?
    ensures UnlinkFile(SaveState(t, dir, Some(s)).value, StateYamlPath(dir)).Success?
    ensures Remaining(UnlinkFile(SaveState(t, dir, Some(s)).value, StateYamlPath(dir)).value,
                      dir, s.checkpoint.latest.value.resources.value, subs, 0)
  {
    var rs := s.checkpoint.latest.value.resources.value;
    SaveStateFootprint(t, dir, s, subs, docs);
    SaveStateValid(t, dir, Some(s));
    SavedRemaining(SaveState(t, dir, Some(s)).value, dir, StateDump(s), rs, subs, docs);
  }

  /** Unlinking a resource's files succeeds when they are there, and keeps the tree valid. */
  lemma UnlinkPresent(t: Tree, dir: Path, table: map<string, Resource>, r: Resource, sub: Path)
    requires Closed(table) && Resolves(table, r) && ResourcePath(table, r) == Success(sub)
    requires Valid(t) && |sub| >= 2 && dir + sub in t.files
    requires r.resourceType == StackType ==> OutputsPath(dir) in t.files
    ensures UnlinkResource(t, dir, table, r).Success?
    ensures var (path, t1) := UnlinkResource(t, dir, table, r).value;
      path == dir + sub && Valid(t1) && Parent(path) in t1.dirs
  {
    var path, o := dir + sub, OutputsPath(dir);
    var t1 := if r.resourceType == StackType then Tree(t.files - {o}, t.dirs) else t;
    if r.resourceType == StackType {
      UnlinkFileValid(t, o);
    }
    assert |path| != |o|;
    UnlinkFileValid(t1, path);
    assert IsDir(t, Parent(path));
  }

  /** One corrected iteration of the loop succeeds on what is left, and leaves the rest. */
  lemma RemainingStep(t: Tree, dir: Path, rs: seq<Resource>, subs: seq<Path>, k: nat)
    requires Remaining(t, dir, rs, subs, k) && k < |rs|
    requires Apart(subs) && OneStack(rs) && LaidOut(rs, subs)
    ensures RemoveResource(t, dir, Table(rs), rs[k]).Success?
    ensures Remaining(RemoveResource(t, dir, Table(rs), rs[k]).value, dir, rs, subs, k + 1)
  {
    var table, path, o := Table(rs), dir + subs[k], OutputsPath(dir);
    assert Fits(subs[k]);
    UnlinkPresent(t, dir, table, rs[k], subs[k]);
    UnlinkResourceIs(t, dir, table, rs[k]);
    var t2 := UnlinkResource(t, dir, table, rs[k]).value.1;
    UnlinkedByIs(dir, table, rs[k], subs[k]);
    PruneValid(t2, Parent(path), |dir|);
    PruneFootprint(t2, Parent(path), |dir|);
    var t3 := Prune(t2, Parent(path), |dir|).value;
    assert RemoveResource(t, dir, table, rs[k]) == Success(t3);
    RemoveResourceKeepsNoEmpty(t, dir, table, rs[k]);
    RemainingFilesKept(t, t3, dir, rs, subs, k);
    RemainingFilesOnly(t, t3, dir, rs, subs, k);
  }

  /** The files of the later resources are still there after the `k`-th resource's are
      unlinked. */
  lemma RemainingFilesKept(t: Tree, t3: Tree, dir: Path, rs: seq<Resource>, subs: seq<Path>, k: nat)
    requires Remaining(t, dir, rs, subs, k) && k < |rs|
    requires Apart(subs) && OneStack(rs)
    requires t3.files == t.files - ((if rs[k].resourceType == StackType then {OutputsPath(dir)} else {}) + {dir + subs[k]})
    ensures forall j :: k + 1 <= j < |rs| ==> dir + subs[j] in t3.files
    ensures forall j :: k + 1 <= j < |rs| && rs[j].resourceType == StackType ==> OutputsPath(dir) in t3.files
  {
    forall j | k + 1 <= j < |rs| ensures dir + subs[j] in t3.files {
      assert |dir + subs[j]| != |OutputsPath(dir)|;
    }
  }

  /** Nothing but the files of the later resources is left below the state directory. */
  lemma RemainingFilesOnly(t: Tree, t3: Tree, dir: Path, rs: seq<Resource>, subs: seq<Path>, k: nat)
    requires Remaining(t, dir, rs, subs, k) && k < |rs| && Apart(subs)
    requires t3.files == t.files - ((if rs[k].resourceType == StackType then {OutputsPath(dir)} else {}) + {dir + subs[k]})
    ensures forall p :: p in t3.files && Below(dir, p) ==>
      || (p == OutputsPath(dir) && exists j :: k + 1 <= j < |rs| && rs[j].resourceType == StackType)
      || (exists j :: k + 1 <= j < |rs| && p == dir + subs[j])
  {
    forall p | p in t3.files && Below(dir, p)
      ensures || (p == OutputsPath(dir) && exists j :: k + 1 <= j < |rs| && rs[j].resourceType == StackType)
              || (exists j :: k + 1 <= j < |rs| && p == dir + subs[j])
    {
      if p == OutputsPath(dir) {
        var j :| k <= j < |rs| && rs[j].resourceType == StackType;
        assert j != k;
      } else {
        var j :| k <= j < |rs| && p == dir + subs[j];
        assert j != k;
      }
    }
  }

  lemma {:induction false} RemainingAll(t: Tree, dir: Path, rs: seq<Resource>, subs: seq<Path>, k: nat)
    requires Remaining(t, dir, rs, subs, k)
    requires Apart(subs) && OneStack(rs) && LaidOut(rs, subs)
    ensures RemoveResources(t, dir, Table(rs), rs[k..]).Success?
    ensures Remaining(RemoveResources(t, dir, Table(rs), rs[k..]).value, dir, rs, subs, |rs|)
    decreases |rs| - k
  {
    if k < |rs| {
      RemainingStep(t, dir, rs, subs, k);
      var t1 := RemoveResource(t, dir, Table(rs), rs[k]).value;
      RemainingAll(t1, dir, rs, subs, k + 1);
      assert rs[k..][0] == rs[k] && rs[k..][1..] == rs[k + 1..];
    }
  }

  /** `remove` after `save` in a fresh place, with resources `save` can lay out: `remove`
      succeeds, leaves no file below the state directory, and removes the state directory
      itself. */
  lemma RemoveAfterSave(t: Tree, dir: Path, s: State)
    requires Valid(t) && Fresh(t, dir) && |dir| >= 2
    requires s.checkpoint.latest.Some? && s.checkpoint.latest.value.resources.Some?
    requires Layable(s.checkpoint.latest.value.resources.value)
    ensures SaveState(t, dir, Some(s)).Success?
    ensures var r := RemoveState(SaveState(t, dir, Some(s)).value, dir, Some(s));
      && r.Success?
      && dir !in r.value.dirs
      && forall p :: p in r.value.files ==> !Below(dir, p)
  {
    var rs := s.checkpoint.latest.value.resources.value;
    var subs, docs := Subpaths(rs), Dumps(rs);
    LayableLaidOut(rs);
    RemainingStart(t, dir, s, subs, docs);
    var saved := SaveState(t, dir, Some(s)).value;
    var t1 := UnlinkFile(saved, StateYamlPath(dir)).value;
    RemainingAll(t1, dir, rs, subs, 0);
    assert rs[0..] == rs;
    var t2 := RemoveResources(t1, dir, Table(rs), rs).value;
    EmptiedStateDirIsRemoved(t2, dir);
    var t3 := Tree(t2.files, t2.dirs - {dir});
    assert IsDir(t2, Parent(dir)) && Parent(dir) != dir;
    var t4 := RemoveIfEmpty(t3, Parent(dir)).value;
    assert RemoveState(saved, dir, Some(s)) == Success(t4);
  }

  // ---------------------------------------------------------------------------
  // A resource nested under another, removed both ways

  /** A stack state with a resource `parent` and a resource `child` nested under it. */
  predicate ParentAndChild(parent: Resource, child: Resource)
  {
    && PlainNames(parent) && PlainNames(child)
    && parent.parentResource == None && parent.resourceType != StackType
    && child.parentResource == Some(parent.urn) && child.resourceType != StackType
    && parent.urn != child.urn
  }

  function FamilyTable(parent: Resource, child: Resource): map<string, Resource> {
    map[parent.urn := parent, child.urn := child]
  }

  /** The directories `save` makes for a file `<tp>/<np>.yaml` and a file nested under it in
      `<tp>/<np>/<tc>`, below the state directory `dir`. */
  function FamilyDirs(dir: Path, tp: string, np: string, tc: string): set<Path> {
    Prefixes(dir) + {dir + [tp], dir + [tp, np], dir + [tp, np, tc]}
  }

  lemma FamilyDirsDepth(dir: Path, tp: string, np: string, tc: string)
    ensures forall q :: q in FamilyDirs(dir, tp, np, tc) ==> |q| <= |dir| + 3
    ensures forall q :: q in FamilyDirs(dir, tp, np, tc) && |q| == |dir| + 3 ==> q == dir + [tp, np, tc]
  {
  }

  /** The files of the two resources, and the directories `save` makes for them. */
  function FamilyTree(dir: Path, parent: Resource, child: Resource): Tree {
    var tp, np, tc := TypeDirName(parent.resourceType), Name(parent.urn), TypeDirName(child.resourceType);
    Tree(map[dir + [tp, np + ".yaml"] := EmptyObject, dir + [tp, np, tc, Name(child.urn) + ".yaml"] := EmptyObject],
         FamilyDirs(dir, tp, np, tc))
  }

  lemma FamilyPaths(parent: Resource, child: Resource)
    requires ParentAndChild(parent, child)
    ensures Closed(FamilyTable(parent, child))
    ensures ResourcePath(FamilyTable(parent, child), parent) ==
      Success([TypeDirName(parent.resourceType), Name(parent.urn) + ".yaml"])
    ensures ResourcePath(FamilyTable(parent, child), child) ==
      Success([TypeDirName(parent.resourceType), Name(parent.urn), TypeDirName(child.resourceType), Name(child.urn) + ".yaml"])
  {
    var table := FamilyTable(parent, child);
    assert |table| == 2;
    SubpathOfTopLevel(table, parent, 1);
    SubpathOfTopLevel(table, parent, 2);
    assert [] + [TypeDirName(parent.resourceType), Name(parent.urn) + ".yaml"] ==
      [TypeDirName(parent.resourceType), Name(parent.urn) + ".yaml"];
    SubpathOfNested(table, child, 2, []);
    assert [] + [TypeDirName(parent.resourceType), Name(parent.urn), TypeDirName(child.resourceType), Name(child.urn) + ".yaml"] ==
      [TypeDirName(parent.resourceType), Name(parent.urn), TypeDirName(child.resourceType), Name(child.urn) + ".yaml"];
  }

  /** One step of `remove` as written, for a resource other than the stack whose file is
      present. */
  lemma RemoveResourceAsWrittenStep(t: Tree, dir: Path, table: map<string, Resource>, r: Resource, sub: Path)
    requires Closed(table) && Resolves(table, r) && r.resourceType != StackType
    requires ResourcePath(table, r) == Success(sub) && dir + sub in t.files
    ensures RemoveResourceAsWritten(t, dir, table, r) ==
      RemoveIfEmpty(Tree(t.files - {dir + sub}, t.dirs), Parent(dir + sub))
  {
  }

  /** With the parent's file gone, its type directory still holds the directory `<np>`. */
  lemma TypeDirKept(dir: Path, tp: string, np: string, tc: string, cf: string)
    ensures var t := Tree(map[dir + [tp, np, tc, cf] := EmptyObject], FamilyDirs(dir, tp, np, tc));
      RemoveIfEmpty(t, dir + [tp]) == Success(t)
  {
    var t := Tree(map[dir + [tp, np, tc, cf] := EmptyObject], FamilyDirs(dir, tp, np, tc));
    assert dir + [tp] != dir + [tp, np, tc, cf];
    assert IsChild(dir + [tp], dir + [tp, np]);
  }

  /** With the child's file gone, its own directory `<tp>/<np>/<tc>` is empty and goes. */
  lemma DeepestRemoved(dir: Path, tp: string, np: string, tc: string)
    ensures RemoveIfEmpty(Tree(map[], FamilyDirs(dir, tp, np, tc)), dir + [tp, np, tc]) ==
      Success(Tree(map[], FamilyDirs(dir, tp, np, tc) - {dir + [tp, np, tc]}))
  {
    var deepest := dir + [tp, np, tc];
    FamilyDirsDepth(dir, tp, np, tc);
    assert !HasEntries(Tree(map[], FamilyDirs(dir, tp, np, tc)), deepest);
  }

  /** What is left still holds `<tp>`, so the state directory stays. */
  lemma StateDirKept(dir: Path, tp: string, np: string, tc: string)
    requires dir != []
    ensures var t := Tree(map[], FamilyDirs(dir, tp, np, tc) - {dir + [tp, np, tc]});
      && dir + [tp, np] in t.dirs
      && RemoveIfEmpty(t, dir) == Success(t)
  {
    var t := Tree(map[], FamilyDirs(dir, tp, np, tc) - {dir + [tp, np, tc]});
    assert dir in Prefixes(dir) by {
      assert dir[..|dir|] == dir;
    }
    assert |dir + [tp, np]| != |dir + [tp, np, tc]|;
    assert |dir + [tp]| != |dir + [tp, np, tc]|;
    assert IsChild(dir, dir + [tp]) && dir + [tp] in t.dirs;
    assert HasEntries(t, dir);
  }

  /** Unlinking the parent's file leaves the child's. */
  lemma ParentFileGone(dir: Path, tp: string, np: string, tc: string, cf: string)
    ensures var pfile, cfile := dir + [tp, np + ".yaml"], dir + [tp, np, tc, cf];
      && map[pfile := EmptyObject, cfile := EmptyObject] - {pfile} == map[cfile := EmptyObject]
      && Parent(pfile) == dir + [tp]
  {
    var pfile, cfile := dir + [tp, np + ".yaml"], dir + [tp, np, tc, cf];
    assert |pfile| != |cfile|;
  }

  /** The parent's file goes first; its type directory still holds `<type>/<name>`, so it
      stays. */
  lemma RemoveParentAsWritten(dir: Path, parent: Resource, child: Resource)
    requires ParentAndChild(parent, child)
    ensures Closed(FamilyTable(parent, child))
    ensures var t := FamilyTree(dir, parent, child);
      var tp, np, tc := TypeDirName(parent.resourceType), Name(parent.urn), TypeDirName(child.resourceType);
      RemoveResourceAsWritten(t, dir, FamilyTable(parent, child), parent) ==
        Success(Tree(map[dir + [tp, np, tc, Name(child.urn) + ".yaml"] := EmptyObject], t.dirs))
  {
    var table := FamilyTable(parent, child);
    FamilyPaths(parent, child);
    var tp, np, tc, cf := TypeDirName(parent.resourceType), Name(parent.urn), TypeDirName(child.resourceType), Name(child.urn) + ".yaml";
    var t := FamilyTree(dir, parent, child);
    RemoveResourceAsWrittenStep(t, dir, table, parent, [tp, np + ".yaml"]);
    ParentFileGone(dir, tp, np, tc, cf);
    TypeDirKept(dir, tp, np, tc, cf);
  }

  /** Then the child's file goes, and with it its own directory, now empty. */
  lemma RemoveChildAsWritten(dir: Path, parent: Resource, child: Resource)
    requires ParentAndChild(parent, child)
    ensures Closed(FamilyTable(parent, child))
    ensures var t := FamilyTree(dir, parent, child);
      var tp, np, tc := TypeDirName(parent.resourceType), Name(parent.urn), TypeDirName(child.resourceType);
      RemoveResourceAsWritten(Tree(map[dir + [tp, np, tc, Name(child.urn) + ".yaml"] := EmptyObject], t.dirs),
                              dir, FamilyTable(parent, child), child) ==
        Success(Tree(map[], t.dirs - {dir + [tp, np, tc]}))
  {
    var table := FamilyTable(parent, child);
    FamilyPaths(parent, child);
    var tp, np, tc, cf := TypeDirName(parent.resourceType), Name(parent.urn), TypeDirName(child.resourceType), Name(child.urn) + ".yaml";
    var t1 := Tree(map[dir + [tp, np, tc, cf] := EmptyObject], FamilyDirs(dir, tp, np, tc));
    RemoveResourceAsWrittenStep(t1, dir, table, child, [tp, np, tc, cf]);
    var cfile := dir + [tp, np, tc, cf];
    assert map[cfile := EmptyObject] - {cfile} == map[] && Parent(cfile) == dir + [tp, np, tc];
    DeepestRemoved(dir, tp, np, tc);
  }

  /** `remove` as written, on a resource nested under another: removing only each file's own
      directory leaves the parent's directory `<type>/<name>` behind, empty, so the state
      directory is not removed either. */
  lemma RemoveAsWrittenLeavesDirectory(dir: Path, parent: Resource, child: Resource)
    requires ParentAndChild(parent, child) && dir != []
    ensures Closed(FamilyTable(parent, child))
    ensures var table := FamilyTable(parent, child);
      var r1 := RemoveResourceAsWritten(FamilyTree(dir, parent, child), dir, table, parent);
      && r1.Success?
      && var r2 := RemoveResourceAsWritten(r1.value, dir, table, child);
      && r2.Success?
      && r2.value.files == map[]
      && dir + [TypeDirName(parent.resourceType), Name(parent.urn)] in r2.value.dirs
      && RemoveIfEmpty(r2.value, dir) == Success(r2.value)
  {
    var tp, np, tc := TypeDirName(parent.resourceType), Name(parent.urn), TypeDirName(child.resourceType);
    RemoveParentAsWritten(dir, parent, child);
    RemoveChildAsWritten(dir, parent, child);
    StateDirKept(dir, tp, np, tc);
  }
}
