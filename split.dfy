/**
 * The split layout of a stack state under `<backend>/<project>/<stack>`: `state.yaml` holds
 * the state without its resources, `outputs.yaml` the outputs of the stack resource, and each
 * resource has a file of its own, nested under the file of its parent.
 */
module Split {
  import opened Wrappers
  import opened Errors
  import opened Documents
  import opened Paths
  import opened Model
  import opened FileSystems
  import opened StoredState

  // ---------------------------------------------------------------------------
  // StateDir.resource_subpath

  /** `type.replace(":", "-")`: the directory name of a resource type. */
  function TypeDirName(resourceType: string): (d: string)
    ensures |d| == |resourceType| && ':' !in d
    ensures forall i :: 0 <= i < |d| && resourceType[i] != ':' ==> d[i] == resourceType[i]
  {
    seq(|resourceType|, i requires 0 <= i < |resourceType| =>
      if resourceType[i] == ':' then '-' else resourceType[i])
  }

  /** A back-reference, if the resource has one, resolves in the table. */
  predicate Resolves(table: map<string, Resource>, r: Resource) {
    r.parentResource.Some? ==> r.parentResource.value in table
  }

  /** Every back-reference of the table resolves in it, as object references always do. */
  predicate Closed(table: map<string, Resource>) {
    forall k :: k in table ==> Resolves(table, table[k])
  }

  /** The resource's file is nested under its parent's: it is linked to a parent that is not
      the stack resource. */
  predicate NestedUnder(table: map<string, Resource>, r: Resource)
    requires Resolves(table, r)
  {
    r.parentResource.Some? && table[r.parentResource.value].resourceType != StackType
  }

  /** `StateDir.resource_subpath`, following at most `fuel` back-references. It is None when
      the chain of parents is longer than that, where the source recurses until Python's
      recursion limit. */
  function Subpath(table: map<string, Resource>, r: Resource, fuel: nat): (p: Option<Path>)
    requires Closed(table) && Resolves(table, r)
    ensures p.Some? ==> p.value != []
    decreases fuel
  {
    var directory :=
      if NestedUnder(table, r) then
        if fuel == 0 then None
        else match Subpath(table, table[r.parentResource.value], fuel - 1)
          case None => None
          case Some(parentPath) => Some(WithoutSuffix(parentPath))
      else Some([]);
    match directory
    case None => None
    case Some(d) =>
      PartsOfSuffixed(Name(r.urn), ".yaml");
      Some(d + Parts(TypeDirName(r.resourceType)) + Parts(Name(r.urn) + ".yaml"))
  }

  /** The last part of a resource's path is its file, whose name ends in ".yaml". */
  lemma SubpathEndsInYaml(table: map<string, Resource>, r: Resource, fuel: nat)
    requires Closed(table) && Resolves(table, r) && Subpath(table, r, fuel).Some?
    ensures var p := Subpath(table, r, fuel).value;
      |p[|p| - 1]| >= 5 && p[|p| - 1][|p[|p| - 1]| - 5..] == ".yaml"
  {
    PartsOfSuffixed(Name(r.urn), ".yaml");
    var file := Parts(Name(r.urn) + ".yaml");
    var p := Subpath(table, r, fuel).value;
    assert p[|p| - 1] == file[|file| - 1];
  }

  /** The resource's file below the state directory. A chain of parents longer than the table
      must repeat a resource, so it is reported as the recursion error. */
  function ResourcePath(table: map<string, Resource>, r: Resource): Result<Path, Error>
    requires Closed(table) && Resolves(table, r)
  {
    match Subpath(table, r, |table|)
    case None => Failure(CyclicAncestry(r.urn))
    case Some(p) => Success(p)
  }

  // ---------------------------------------------------------------------------
  // StateDir.path and the fixed files

  /** `StateDir.path`: `<backend>/<project>/<stack>`. */
  function StateDirPath(backend: Path, name: StackName): Path {
    backend + Parts(ToString(name))
  }

  /** `StateDir._state_path`. */
  function StateYamlPath(dir: Path): Path {
    dir + ["state.yaml"]
  }

  /** The file holding the outputs of the stack resource. */
  function OutputsPath(dir: Path): Path {
    dir + ["outputs.yaml"]
  }

  /** Back-references of a resource list resolve in its own table. */
  predicate Linked(rs: seq<Resource>) {
    Closed(Table(rs)) && forall i :: 0 <= i < |rs| ==> Resolves(Table(rs), rs[i])
  }

  /** The resources of a state, when it has a resource list, are linked. */
  predicate LinkedState(state: Option<State>) {
    state.Some? && state.value.checkpoint.latest.Some? && state.value.checkpoint.latest.value.resources.Some?
    ==> Linked(state.value.checkpoint.latest.value.resources.value)
  }

  // ---------------------------------------------------------------------------
  // StateDir.save

  /** What `save` writes to `outputs.yaml`: `outputs or {}`. */
  function StoredOutputs(r: Resource): Value {
    if Falsy(r.outputs) then EmptyObject else r.outputs
  }

  /** The resource as its file holds it: the stack resource's outputs live in `outputs.yaml`. */
  function Stored(r: Resource): Resource {
    if r.resourceType == StackType then r.(outputs := EmptyObject) else r
  }

  /** One iteration of `save`'s loop. */
  function SaveResource(t: Tree, dir: Path, table: map<string, Resource>, r: Resource): Result<Tree, Error>
    requires Closed(table) && Resolves(table, r)
  {
    var t1 :- if r.resourceType == StackType then WriteFile(t, OutputsPath(dir), StoredOutputs(r)) else Success(t);
    var sub :- ResourcePath(table, Stored(r));
    var path := dir + sub;
    var t2 :- MakeDirs(t1, Parent(path));
    WriteFile(t2, path, FileDump(Stored(r)))
  }

  function SaveResources(t: Tree, dir: Path, table: map<string, Resource>, rs: seq<Resource>): Result<Tree, Error>
    requires Closed(table) && forall i :: 0 <= i < |rs| ==> Resolves(table, rs[i])
    decreases |rs|
  {
    if rs == [] then Success(t)
    else
      var t1 :- SaveResource(t, dir, table, rs[0]);
      SaveResources(t1, dir, table, rs[1..])
  }

  /** `StateDir.save`: the state directory, `state.yaml`, then every resource. */
  function SaveState(t: Tree, dir: Path, state: Option<State>): Result<Tree, Error>
    requires LinkedState(state)
  {
    if state.None? then Failure(NoState)
    else
      var s := state.value;
      var t1 :- MakeDirs(t, dir);
      var t2 :- WriteFile(t1, StateYamlPath(dir), StateDump(s));
      match s.checkpoint.latest
      case None => Success(t2)
      case Some(l) =>
        match l.resources
        case None => Failure(ResourcesNotIterable)
        case Some(rs) => SaveResources(t2, dir, Table(rs), rs)
  }

  /** The tree one iteration of `save`'s loop leaves behind, also when it fails partway: the
      steps before the failing one stay done, and the failing one changes nothing. */
  function SaveResourceLeaves(t: Tree, dir: Path, table: map<string, Resource>, r: Resource): (t2: Tree)
    requires Closed(table) && Resolves(table, r)
    ensures SaveResource(t, dir, table, r).Success? ==> t2 == SaveResource(t, dir, table, r).value
  {
    match (if r.resourceType == StackType then WriteFile(t, OutputsPath(dir), StoredOutputs(r)) else Success(t))
    case Failure(_) => t
    case Success(t1) =>
      match ResourcePath(table, Stored(r))
      case Failure(_) => t1
      case Success(sub) => SaveFileLeaves(t1, dir + sub, FileDump(Stored(r)))
  }

  /** The tree that making a file's directory and writing the file leave behind. */
  function SaveFileLeaves(t: Tree, p: Path, v: Value): Tree {
    match MakeDirs(t, Parent(p))
    case Failure(_) => t
    case Success(t1) =>
      match WriteFile(t1, p, v)
      case Failure(_) => t1
      case Success(t2) => t2
  }

  /** The tree `save`'s loop leaves behind: the resources before a failing one stay saved. */
  function SaveResourcesLeaves(t: Tree, dir: Path, table: map<string, Resource>, rs: seq<Resource>): (t2: Tree)
    requires Closed(table) && forall i :: 0 <= i < |rs| ==> Resolves(table, rs[i])
    ensures SaveResources(t, dir, table, rs).Success? ==> t2 == SaveResources(t, dir, table, rs).value
    decreases |rs|
  {
    if rs == [] then t
    else
      match SaveResource(t, dir, table, rs[0])
      case Failure(_) => SaveResourceLeaves(t, dir, table, rs[0])
      case Success(t1) => SaveResourcesLeaves(t1, dir, table, rs[1..])
  }

  /** The tree `StateDir.save` leaves behind, whether it succeeds or fails. */
  function SaveStateLeaves(t: Tree, dir: Path, state: Option<State>): (t2: Tree)
    requires LinkedState(state)
    ensures SaveState(t, dir, state).Success? ==> t2 == SaveState(t, dir, state).value
  {
    if state.None? then t
    else
      var s := state.value;
      match MakeDirs(t, dir)
      case Failure(_) => t
      case Success(t1) =>
        match WriteFile(t1, StateYamlPath(dir), StateDump(s))
        case Failure(_) => t1
        case Success(t2) =>
          if s.checkpoint.latest.Some? && s.checkpoint.latest.value.resources.Some? then
            var rs := s.checkpoint.latest.value.resources.value;
            SaveResourcesLeaves(t2, dir, Table(rs), rs)
          else t2
  }

  // ---------------------------------------------------------------------------
  // StateDir.load

  /** `state.yaml`, validated. */
  function StateYaml(t: Tree, dir: Path): Result<State, Error> {
    var doc :- ReadFile(t, StateYamlPath(dir));
    ParseState(doc)
  }

  /** One file of `load`'s walk: the stack resource gets its outputs back. */
  function LoadResource(t: Tree, dir: Path, p: Path): Result<Resource, Error> {
    var doc :- ReadFile(t, p);
    var r :- ParseResource(doc);
    if r.resourceType == StackType then
      var outputs :- ReadFile(t, OutputsPath(dir));
      Success(r.(outputs := outputs))
    else Success(r)
  }

  /** The resources of the files of a walk, in walk order; the first failure stops it. */
  function LoadResources(t: Tree, dir: Path, walk: seq<Path>): Result<seq<Resource>, Error>
    decreases |walk|
  {
    if walk == [] then Success([])
    else
      var rs :- LoadResources(t, dir, walk[..|walk| - 1]);
      var r :- LoadResource(t, dir, walk[|walk| - 1]);
      Success(rs + [r])
  }

  /** `dir` is a proper prefix of `p`. */
  predicate Below(dir: Path, p: Path) {
    |p| > |dir| && p[..|dir|] == dir
  }

  lemma BelowTransitive(a: Path, b: Path, c: Path)
    requires Below(a, b) && Below(b, c)
    ensures Below(a, c)
  {
    assert c[..|a|] == c[..|b|][..|a|];
  }

  /** The files `os.walk(dir)` reports outside `dir` itself: those in its subdirectories. */
  function WalkFiles(t: Tree, dir: Path): set<Path> {
    set p | p in t.files && |p| >= |dir| + 2 && p[..|dir|] == dir
  }

  /** `walk` lists every member of `s` once, in some order. */
  ghost predicate Enumerates(walk: seq<Path>, s: set<Path>) {
    (forall i, j :: 0 <= i < j < |walk| ==> walk[i] != walk[j]) && (forall p :: p in walk <==> p in s)
  }

  /** `StateDir.load`, with the files of the walk taken in the order `walk`. */
  function LoadState(t: Tree, dir: Path, walk: seq<Path>): Result<State, Error> {
    var s :- StateYaml(t, dir);
    match s.checkpoint.latest
    case None => Success(s)
    case Some(l) =>
      var rs :- LoadResources(t, dir, walk);
      var linked :- ParentsFound(rs);
      Success(State(Checkpoint(s.checkpoint.stack, Some(l.(resources := Some(linked))))))
  }

  // ---------------------------------------------------------------------------
  // StateDir.remove

  /** The first part of `remove`'s loop body: unlink the resource's file, and `outputs.yaml`
      for the stack resource. Gives the file's path and the tree after. */
  function UnlinkResource(t: Tree, dir: Path, table: map<string, Resource>, r: Resource): Result<(Path, Tree), Error>
    requires Closed(table) && Resolves(table, r)
  {
    var sub :- ResourcePath(table, r);
    var path := dir + sub;
    var t1 :- if r.resourceType == StackType then UnlinkFile(t, OutputsPath(dir)) else Success(t);
    var t2 :- UnlinkFile(t1, path);
    Success((path, t2))
  }

  /** One iteration of `remove`'s loop as written: only the file's own directory is removed
      if it became empty. */
  function RemoveResourceAsWritten(t: Tree, dir: Path, table: map<string, Resource>, r: Resource): Result<Tree, Error>
    requires Closed(table) && Resolves(table, r)
  {
    var unlinked :- UnlinkResource(t, dir, table, r);
    RemoveIfEmpty(unlinked.1, Parent(unlinked.0))
  }

  /** Removes, deepest first, each directory from `d` up to depth `depth` exclusive that is
      empty when its turn comes. */
  function Prune(t: Tree, d: Path, depth: nat): Result<Tree, Error>
    decreases |d|
  {
    if |d| <= depth then Success(t)
    else
      var t1 :- RemoveIfEmpty(t, d);
      Prune(t1, Parent(d), depth)
  }

  /** One iteration of `remove`'s loop, corrected: every directory between the file and the
      state directory is removed if it became empty. */
  function RemoveResource(t: Tree, dir: Path, table: map<string, Resource>, r: Resource): Result<Tree, Error>
    requires Closed(table) && Resolves(table, r)
  {
    var unlinked :- UnlinkResource(t, dir, table, r);
    Prune(unlinked.1, Parent(unlinked.0), |dir|)
  }

  function RemoveResources(t: Tree, dir: Path, table: map<string, Resource>, rs: seq<Resource>): Result<Tree, Error>
    requires Closed(table) && forall i :: 0 <= i < |rs| ==> Resolves(table, rs[i])
    decreases |rs|
  {
    if rs == [] then Success(t)
    else
      var t1 :- RemoveResource(t, dir, table, rs[0]);
      RemoveResources(t1, dir, table, rs[1..])
  }

  /** `StateDir.remove`: `state.yaml`, every resource, then the state directory and its
      parent if they became empty. */
  function RemoveState(t: Tree, dir: Path, state: Option<State>): Result<Tree, Error>
    requires LinkedState(state)
  {
    var t1 :- UnlinkFile(t, StateYamlPath(dir));
    if state.None? then Failure(NoState)
    else
      var t2 :-
        match state.value.checkpoint.latest
        case None => Success(t1)
        case Some(l) =>
          match l.resources
          case None => Failure(ResourcesNotIterable)
          case Some(rs) => RemoveResources(t1, dir, Table(rs), rs);
      var t3 :- RemoveIfEmpty(t2, dir);
      RemoveIfEmpty(t3, Parent(dir))
  }

  /** The tree the first part of `remove`'s loop body leaves behind, also when it fails. */
  function UnlinkResourceLeaves(t: Tree, dir: Path, table: map<string, Resource>, r: Resource): (t2: Tree)
    requires Closed(table) && Resolves(table, r)
    ensures UnlinkResource(t, dir, table, r).Success? ==> t2 == UnlinkResource(t, dir, table, r).value.1
  {
    match ResourcePath(table, r)
    case Failure(_) => t
    case Success(sub) =>
      match (if r.resourceType == StackType then UnlinkFile(t, OutputsPath(dir)) else Success(t))
      case Failure(_) => t
      case Success(t1) =>
        match UnlinkFile(t1, dir + sub)
        case Failure(_) => t1
        case Success(t2) => t2
  }

  /** The tree pruning leaves behind: the directories removed before a failure stay removed. */
  function PruneLeaves(t: Tree, d: Path, depth: nat): (t2: Tree)
    ensures Prune(t, d, depth).Success? ==> t2 == Prune(t, d, depth).value
    decreases |d|
  {
    if |d| <= depth then t
    else
      match RemoveIfEmpty(t, d)
      case Failure(_) => t
      case Success(t1) => PruneLeaves(t1, Parent(d), depth)
  }

  /** The tree one corrected iteration of `remove`'s loop leaves behind. */
  function RemoveResourceLeaves(t: Tree, dir: Path, table: map<string, Resource>, r: Resource): (t2: Tree)
    requires Closed(table) && Resolves(table, r)
    ensures RemoveResource(t, dir, table, r).Success? ==> t2 == RemoveResource(t, dir, table, r).value
  {
    match UnlinkResource(t, dir, table, r)
    case Failure(_) => UnlinkResourceLeaves(t, dir, table, r)
    case Success(unlinked) => PruneLeaves(unlinked.1, Parent(unlinked.0), |dir|)
  }

  /** The tree `remove`'s loop leaves behind: the resources before a failing one stay removed. */
  function RemoveResourcesLeaves(t: Tree, dir: Path, table: map<string, Resource>, rs: seq<Resource>): (t2: Tree)
    requires Closed(table) && forall i :: 0 <= i < |rs| ==> Resolves(table, rs[i])
    ensures RemoveResources(t, dir, table, rs).Success? ==> t2 == RemoveResources(t, dir, table, rs).value
    decreases |rs|
  {
    if rs == [] then t
    else
      match RemoveResource(t, dir, table, rs[0])
      case Failure(_) => RemoveResourceLeaves(t, dir, table, rs[0])
      case Success(t1) => RemoveResourcesLeaves(t1, dir, table, rs[1..])
  }

  /** The tree the rest of `remove` leaves once `state.yaml` is unlinked: the resources are
      removed, then the state directory and its parent if they became empty. */
  function RemoveRestLeaves(t: Tree, dir: Path, table: map<string, Resource>, rs: seq<Resource>): (t4: Tree)
    requires Closed(table) && forall i :: 0 <= i < |rs| ==> Resolves(table, rs[i])
    ensures RemoveResources(t, dir, table, rs).Failure? ==> t4 == RemoveResourcesLeaves(t, dir, table, rs)
  {
    match RemoveResources(t, dir, table, rs)
    case Failure(_) => RemoveResourcesLeaves(t, dir, table, rs)
    case Success(t2) =>
      match RemoveIfEmpty(t2, dir)
      case Failure(_) => t2
      case Success(t3) =>
        match RemoveIfEmpty(t3, Parent(dir))
        case Failure(_) => t3
        case Success(t4) => t4
  }

  /** The tree `StateDir.remove` leaves behind, whether it succeeds or fails. A state without
      a latest snapshot has no resources to remove. */
  function RemoveStateLeaves(t: Tree, dir: Path, state: Option<State>): (t2: Tree)
    requires LinkedState(state)
    ensures RemoveState(t, dir, state).Success? ==> t2 == RemoveState(t, dir, state).value
  {
    match UnlinkFile(t, StateYamlPath(dir))
    case Failure(_) => t
    case Success(t1) =>
      if state.None? then t1
      else
        var latest := state.value.checkpoint.latest;
        if latest.Some? && latest.value.resources.None? then t1
        else
          var rs := if latest.Some? then latest.value.resources.value else [];
          RemoveRestLeaves(t1, dir, Table(rs), rs)
  }

  // ---------------------------------------------------------------------------
  // The state directory object

  /** A listing of `s` in some order, as `os.walk` produces one. */
  method ListFiles(s: set<Path>) returns (walk: seq<Path>)
    ensures Enumerates(walk, s)
  {
    walk := [];
    var remaining := s;
    while remaining != {}
      invariant forall i, j :: 0 <= i < j < |walk| ==> walk[i] != walk[j]
      invariant forall p :: p in walk <==> p in s && p !in remaining
      invariant remaining <= s
      decreases |remaining|
    {
      var p :| p in remaining;
      remaining := remaining - {p};
      walk := walk + [p];
    }
  }

  /** The body of `save`'s loop, for one resource. */
  method WriteResource(fs: FileSystem, dir: Path, table: map<string, Resource>, r: Resource) returns (outcome: Outcome<Error>)
    requires Closed(table) && Resolves(table, r)
    modifies fs
    ensures outcome == OutcomeOf(SaveResource(old(fs.Snapshot()), dir, table, r))
    ensures outcome.Pass? ==> fs.Snapshot() == SaveResource(old(fs.Snapshot()), dir, table, r).value
    ensures fs.Snapshot() == SaveResourceLeaves(old(fs.Snapshot()), dir, table, r)
  {
    var resource := r;
    if resource.resourceType == StackType {
      outcome := fs.Write(OutputsPath(dir), StoredOutputs(resource));
      if outcome.Fail? {
        return;
      }
      resource := resource.(outputs := EmptyObject);
    }
    var sub := Subpath(table, resource, |table|);
    if sub.None? {
      return Fail(CyclicAncestry(resource.urn));
    }
    var path := dir + sub.value;
    outcome := fs.Mkdir(Parent(path));
    if outcome.Fail? {
      return;
    }
    outcome := fs.Write(path, FileDump(resource));
  }

  /** The body of `remove`'s loop, for one resource, with the emptied directories pruned up to
      the state directory. */
  method DeleteResource(fs: FileSystem, dir: Path, table: map<string, Resource>, r: Resource) returns (outcome: Outcome<Error>)
    requires Closed(table) && Resolves(table, r)
    modifies fs
    ensures outcome == OutcomeOf(RemoveResource(old(fs.Snapshot()), dir, table, r))
    ensures outcome.Pass? ==> fs.Snapshot() == RemoveResource(old(fs.Snapshot()), dir, table, r).value
    ensures fs.Snapshot() == RemoveResourceLeaves(old(fs.Snapshot()), dir, table, r)
  {
    ghost var t0 := fs.Snapshot();
    var sub := Subpath(table, r, |table|);
    if sub.None? {
      assert ResourcePath(table, r) == Failure(CyclicAncestry(r.urn));
      return Fail(CyclicAncestry(r.urn));
    }
    assert ResourcePath(table, r) == Success(sub.value);
    var path := dir + sub.value;
    if r.resourceType == StackType {
      outcome := fs.Unlink(OutputsPath(dir));
      if outcome.Fail? {
        assert UnlinkResource(t0, dir, table, r) == Failure(outcome.error);
        return;
      }
    }
    ghost var t1 := fs.Snapshot();
    assert t1 == if r.resourceType == StackType then UnlinkFile(t0, OutputsPath(dir)).value else t0;
    outcome := fs.Unlink(path);
    if outcome.Fail? {
      assert UnlinkResource(t0, dir, table, r) == Failure(outcome.error);
      return;
    }
    assert UnlinkResource(t0, dir, table, r) == Success((path, fs.Snapshot()));
    outcome := PruneDirs(fs, Parent(path), |dir|);
  }

  /** The loop that removes emptied directories, deepest first, down to depth `depth`. */
  method PruneDirs(fs: FileSystem, start: Path, depth: nat) returns (outcome: Outcome<Error>)
    modifies fs
    ensures outcome == OutcomeOf(Prune(old(fs.Snapshot()), start, depth))
    ensures outcome.Pass? ==> fs.Snapshot() == Prune(old(fs.Snapshot()), start, depth).value
    ensures fs.Snapshot() == PruneLeaves(old(fs.Snapshot()), start, depth)
  {
    outcome := Pass;
    var d := start;
    while |d| > depth
      invariant Prune(old(fs.Snapshot()), start, depth) == Prune(fs.Snapshot(), d, depth)
      invariant PruneLeaves(old(fs.Snapshot()), start, depth) == PruneLeaves(fs.Snapshot(), d, depth)
      invariant outcome == Pass
      decreases |d|
    {
      outcome := fs.RmdirIfEmpty(d);
      if outcome.Fail? {
        return;
      }
      d := Parent(d);
    }
  }

  /** `StateDir`: a stack's split state and where it lives. */
  class StateDir {
    const backend: Path
    const stackName: StackName
    var state: Option<State>

    constructor (backend: Path, stackName: StackName, state: Option<State>)
      ensures this.backend == backend && this.stackName == stackName && this.state == state
    {
      this.backend := backend;
      this.stackName := stackName;
      this.state := state;
    }

    /** `StateDir.path`. */
    function DirPath(): Path {
      StateDirPath(backend, stackName)
    }

    /** `StateDir.save`. */
    method Save(fs: FileSystem) returns (outcome: Outcome<Error>)
      requires LinkedState(state)
      modifies fs
      ensures outcome == OutcomeOf(SaveState(old(fs.Snapshot()), DirPath(), state))
      ensures outcome.Pass? ==> fs.Snapshot() == SaveState(old(fs.Snapshot()), DirPath(), state).value
      ensures fs.Snapshot() == SaveStateLeaves(old(fs.Snapshot()), DirPath(), state)
    {
      if state.None? {
        return Fail(NoState);
      }
      var s := state.value;
      var dir := DirPath();
      outcome := fs.Mkdir(dir);
      if outcome.Fail? {
        return;
      }
      outcome := fs.Write(StateYamlPath(dir), StateDump(s));
      if outcome.Fail? || s.checkpoint.latest.None? {
        return;
      }
      var latest := s.checkpoint.latest.value;
      if latest.resources.None? {
        return Fail(ResourcesNotIterable);
      }
      var rs := latest.resources.value;
      var table := Table(rs);
      ghost var saved := fs.Snapshot();
      for i := 0 to |rs|
        invariant SaveResources(saved, dir, table, rs) == SaveResources(fs.Snapshot(), dir, table, rs[i..])
        invariant SaveResourcesLeaves(saved, dir, table, rs) == SaveResourcesLeaves(fs.Snapshot(), dir, table, rs[i..])
        invariant outcome == Pass
      {
        assert rs[i..][1..] == rs[i + 1..];
        outcome := WriteResource(fs, dir, table, rs[i]);
        if outcome.Fail? {
          return;
        }
      }
    }

    /** `StateDir.load`. The walk of the state directory is listed in `walk`. */
    method Load(fs: FileSystem) returns (outcome: Outcome<Error>, walk: seq<Path>)
      modifies this
      ensures Enumerates(walk, WalkFiles(fs.Snapshot(), DirPath()))
      ensures outcome == OutcomeOf(LoadState(fs.Snapshot(), DirPath(), walk))
      ensures outcome.Pass? ==> state == Some(LoadState(fs.Snapshot(), DirPath(), walk).value)
      ensures StateYaml(fs.Snapshot(), DirPath()).Failure? ==> state == old(state)
      ensures StateYaml(fs.Snapshot(), DirPath()).Success? && outcome.Fail? ==>
                state == Some(StateYaml(fs.Snapshot(), DirPath()).value)
    {
      var dir := DirPath();
      var t := fs.Snapshot();
      walk := ListFiles(WalkFiles(t, dir));
      var doc := fs.Read(StateYamlPath(dir));
      if doc.Failure? {
        return Fail(doc.error), walk;
      }
      var parsed := ParseState(doc.value);
      if parsed.Failure? {
        return Fail(parsed.error), walk;
      }
      state := Some(parsed.value);
      if parsed.value.checkpoint.latest.None? {
        return Pass, walk;
      }
      var resources: seq<Resource> := [];
      for i := 0 to |walk|
        invariant LoadResources(t, dir, walk[..i]) == Success(resources)
        invariant state == Some(parsed.value)
      {
        assert walk[..i + 1][..i] == walk[..i];
        var r := LoadResource(t, dir, walk[i]);
        if r.Failure? {
          LoadResourcesStops(t, dir, walk, i + 1);
          return Fail(r.error), walk;
        }
        resources := resources + [r.value];
      }
      assert walk[..|walk|] == walk;
      var linked := FindParents(resources);
      if linked.Failure? {
        return Fail(linked.error), walk;
      }
      var latest := parsed.value.checkpoint.latest.value;
      state := Some(State(Checkpoint(parsed.value.checkpoint.stack, Some(latest.(resources := Some(linked.value))))));
      outcome := Pass;
    }

    /** `StateDir.remove`, with every emptied directory up to the state directory removed. */
    method Remove(fs: FileSystem) returns (outcome: Outcome<Error>)
      requires LinkedState(state)
      modifies fs
      ensures outcome == OutcomeOf(RemoveState(old(fs.Snapshot()), DirPath(), state))
      ensures outcome.Pass? ==> fs.Snapshot() == RemoveState(old(fs.Snapshot()), DirPath(), state).value
      ensures fs.Snapshot() == RemoveStateLeaves(old(fs.Snapshot()), DirPath(), state)
    {
      var dir := DirPath();
      outcome := fs.Unlink(StateYamlPath(dir));
      if outcome.Fail? {
        return;
      }
      if state.None? {
        return Fail(NoState);
      }
      ghost var unlinked := fs.Snapshot();
      if state.value.checkpoint.latest.Some? {
        var latest := state.value.checkpoint.latest.value;
        if latest.resources.None? {
          return Fail(ResourcesNotIterable);
        }
        var rs := latest.resources.value;
        var table := Table(rs);
        for i := 0 to |rs|
          invariant RemoveResources(unlinked, dir, table, rs) == RemoveResources(fs.Snapshot(), dir, table, rs[i..])
          invariant RemoveResourcesLeaves(unlinked, dir, table, rs) == RemoveResourcesLeaves(fs.Snapshot(), dir, table, rs[i..])
          invariant outcome == Pass
        {
          assert rs[i..][1..] == rs[i + 1..];
          outcome := DeleteResource(fs, dir, table, rs[i]);
          if outcome.Fail? {
            return;
          }
        }
      }
      outcome := fs.RmdirIfEmpty(dir);
      if outcome.Fail? {
        return;
      }
      outcome := fs.RmdirIfEmpty(Parent(dir));
    }
  }

  /** A failing file stops the walk: the whole walk fails as its prefix does. */
  lemma {:induction false} LoadResourcesStops(t: Tree, dir: Path, walk: seq<Path>, i: nat)
    requires i <= |walk| && LoadResources(t, dir, walk[..i]).Failure?
    ensures LoadResources(t, dir, walk) == LoadResources(t, dir, walk[..i])
    decreases |walk| - i
  {
    if i < |walk| {
      assert walk[..i + 1][..i] == walk[..i];
      LoadResourcesStops(t, dir, walk, i + 1);
    } else {
      assert walk[..i] == walk;
    }
  }
}
