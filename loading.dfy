/** Reading back what `StateDir.save` wrote: `StateDir.load` after `save` gives the state
    back, with its resources in the order the walk lists their files. */
module Loading {
  import opened Wrappers
  import opened Documents
  import opened Paths
  import opened Model
  import opened FileSystems
  import opened Split
  import opened Saving

  /** What `load` reads back from a resource's file before `find_parents`: the stored
      document validated, and for the stack resource its outputs from `outputs.yaml`. */
  function LoadedBack(r: Resource): Resource {
    var back := Reloaded(Stored(r));
    if r.resourceType == StackType then back.(outputs := StoredOutputs(r)) else back
  }

  /** What `load` gives back for a saved resource: read back, and linked to its parent. */
  function Restored(r: Resource): Resource {
    if HasParent(r) then LoadedBack(r).(parentResource := Some(r.parent.value)) else LoadedBack(r)
  }

  function RestoredAll(rs: seq<Resource>): seq<Resource> {
    seq(|rs|, i requires 0 <= i < |rs| => Restored(rs[i]))
  }

  /** The resources of `rs` taken in the order `owners`. */
  function LoadedInOrder(rs: seq<Resource>, owners: seq<int>): seq<Resource>
    requires forall i :: 0 <= i < |owners| ==> 0 <= owners[i] < |rs|
  {
    seq(|owners|, i requires 0 <= i < |owners| => LoadedBack(rs[owners[i]]))
  }

  predicate Distinct<T(==)>(a: seq<T>) {
    forall i, j :: 0 <= i < j < |a| ==> a[i] != a[j]
  }

  /** In a sequence without repetitions every element occurs once. */
  lemma {:induction false} DistinctCounts<T>(a: seq<T>)
    requires Distinct(a)
    ensures forall x :: multiset(a)[x] == if x in a then 1 else 0
    decreases |a|
  {
    if a != [] {
      var front := a[..|a| - 1];
      DistinctCounts(front);
      assert a == front + [a[|a| - 1]];
      forall x ensures multiset(a)[x] == if x in a then 1 else 0 {
        assert x in a <==> x in front || x == a[|a| - 1];
        assert a[|a| - 1] !in front;
      }
    }
  }

  /** Two sequences without repetitions that hold the same elements are permutations of each
      other. */
  lemma SameElements<T>(a: seq<T>, b: seq<T>)
    requires Distinct(a) && Distinct(b)
    requires forall x :: x in a <==> x in b
    ensures multiset(a) == multiset(b)
  {
    DistinctCounts(a);
    DistinctCounts(b);
  }

  /** `load` reads each saved file back as the resource it was saved from. */
  lemma LoadResourceOfSaved(t: Tree, dir: Path, doc: Value, rs: seq<Resource>, subs: seq<Path>, docs: seq<Value>, j: int)
    requires Saved(t, dir, doc, rs, subs, docs, |rs|) && Dumped(rs, docs) && 0 <= j < |rs| && WellFormed(rs[j])
    ensures LoadResource(t, dir, dir + subs[j]) == Success(LoadedBack(rs[j]))
  {
    assert WellFormed(Stored(rs[j]));
    ResourceFileRoundTrip(Stored(rs[j]));
  }

  /** `load` reads a walk back file by file, in walk order. */
  lemma {:induction false} LoadResourcesInOrder(t: Tree, dir: Path, rs: seq<Resource>, walk: seq<Path>, owners: seq<int>)
    requires |owners| == |walk| && forall i :: 0 <= i < |walk| ==> 0 <= owners[i] < |rs|
    requires forall i :: 0 <= i < |walk| ==> LoadResource(t, dir, walk[i]) == Success(LoadedBack(rs[owners[i]]))
    ensures LoadResources(t, dir, walk) == Success(LoadedInOrder(rs, owners))
    decreases |walk|
  {
    if walk != [] {
      var n := |walk| - 1;
      forall i | 0 <= i < n ensures walk[..n][i] == walk[i] && owners[..n][i] == owners[i] {
      }
      LoadResourcesInOrder(t, dir, rs, walk[..n], owners[..n]);
      LoadedInOrderSnoc(rs, owners);
      assert LoadResources(t, dir, walk) ==
        Success(LoadedInOrder(rs, owners[..n]) + [LoadedBack(rs[owners[n]])]);
    } else {
      assert LoadedInOrder(rs, owners) == [];
    }
  }

  lemma LoadedInOrderSnoc(rs: seq<Resource>, owners: seq<int>)
    requires owners != [] && forall i :: 0 <= i < |owners| ==> 0 <= owners[i] < |rs|
    ensures var n := |owners| - 1;
      LoadedInOrder(rs, owners) == LoadedInOrder(rs, owners[..n]) + [LoadedBack(rs[owners[n]])]
  {
  }

  /** `load` reads a walk over saved files back as their resources, in walk order. */
  lemma LoadResourcesOfSaved(t: Tree, dir: Path, doc: Value, rs: seq<Resource>, subs: seq<Path>, docs: seq<Value>,
                             walk: seq<Path>, owners: seq<int>)
    requires Saved(t, dir, doc, rs, subs, docs, |rs|) && Dumped(rs, docs)
    requires forall j :: 0 <= j < |rs| ==> WellFormed(rs[j])
    requires |owners| == |walk|
    requires forall i :: 0 <= i < |walk| ==> 0 <= owners[i] < |rs| && walk[i] == dir + subs[owners[i]]
    ensures LoadResources(t, dir, walk) == Success(LoadedInOrder(rs, owners))
  {
    forall i | 0 <= i < |walk| ensures LoadResource(t, dir, walk[i]) == Success(LoadedBack(rs[owners[i]])) {
      LoadResourceOfSaved(t, dir, doc, rs, subs, docs, owners[i]);
    }
    LoadResourcesInOrder(t, dir, rs, walk, owners);
  }

  /** The walk of a saved state directory finds exactly the resources' files. */
  lemma WalkOfSaved(t: Tree, dir: Path, doc: Value, rs: seq<Resource>, subs: seq<Path>, docs: seq<Value>)
    requires Apart(subs) && Saved(t, dir, doc, rs, subs, docs, |rs|)
    ensures WalkFiles(t, dir) == set j | 0 <= j < |subs| :: dir + subs[j]
  {
    forall p | p in WalkFiles(t, dir) ensures p in set j | 0 <= j < |subs| :: dir + subs[j] {
      assert Below(dir, p);
      assert p != StateYamlPath(dir) && p != OutputsPath(dir);
      assert FileAmong(subs, dir, |rs|, p);
    }
    forall j | 0 <= j < |subs| ensures dir + subs[j] in WalkFiles(t, dir) {
      assert (dir + subs[j])[..|dir|] == dir;
    }
  }

  /** For each position of a walk over the resources' files, the resource whose file it is. */
  lemma OwnersOf(walk: seq<Path>, dir: Path, subs: seq<Path>) returns (owners: seq<int>)
    requires Apart(subs) && Enumerates(walk, set j | 0 <= j < |subs| :: dir + subs[j])
    ensures |owners| == |walk|
    ensures forall i :: 0 <= i < |walk| ==> 0 <= owners[i] < |subs| && walk[i] == dir + subs[owners[i]]
    ensures Distinct(owners)
    ensures forall j :: 0 <= j < |subs| ==> j in owners
  {
    owners := [];
    while |owners| < |walk|
      invariant |owners| <= |walk|
      invariant forall i :: 0 <= i < |owners| ==> 0 <= owners[i] < |subs| && walk[i] == dir + subs[owners[i]]
    {
      var i := |owners|;
      assert walk[i] in walk;
      var j :| 0 <= j < |subs| && walk[i] == dir + subs[j];
      owners := owners + [j];
    }
    forall i, i2 | 0 <= i < i2 < |owners| ensures owners[i] != owners[i2] {
      assert walk[i] != walk[i2];
    }
    forall j | 0 <= j < |subs| ensures j in owners {
      assert dir + subs[j] in walk;
      var i :| 0 <= i < |walk| && walk[i] == dir + subs[j];
      assert subs[owners[i]] == (dir + subs[owners[i]])[|dir|..];
      assert subs[j] == (dir + subs[j])[|dir|..];
      assert IsPrefix(subs[owners[i]], subs[j]);
    }
  }

  function RestoredInOrder(rs: seq<Resource>, owners: seq<int>): seq<Resource>
    requires forall i :: 0 <= i < |owners| ==> 0 <= owners[i] < |rs|
  {
    seq(|owners|, i requires 0 <= i < |owners| => Restored(rs[owners[i]]))
  }

  /** Reading back keeps a resource's URN and its parent. */
  lemma LoadedBackKeeps(r: Resource)
    ensures LoadedBack(r).urn == r.urn
    ensures HasParent(LoadedBack(r)) == HasParent(r)
    ensures HasParent(r) ==> LoadedBack(r).parent == r.parent
  {
  }

  /** The resources read back, in any order that lists every saved one once, still have
      distinct URNs, and their parents are among them. */
  lemma LoadedUrns(rs: seq<Resource>, owners: seq<int>)
    requires DistinctUrns(rs)
    requires forall i :: 0 <= i < |rs| && HasParent(rs[i]) ==> rs[i].parent.value in Urns(rs)
    requires forall i :: 0 <= i < |owners| ==> 0 <= owners[i] < |rs|
    requires Distinct(owners) && forall j :: 0 <= j < |rs| ==> j in owners
    ensures DistinctUrns(LoadedInOrder(rs, owners))
    ensures var back := LoadedInOrder(rs, owners);
      forall i :: 0 <= i < |back| && HasParent(back[i]) ==> back[i].parent.value in Urns(back)
  {
    var back := LoadedInOrder(rs, owners);
    forall i, i2 | 0 <= i < i2 < |back| ensures back[i].urn != back[i2].urn {
      LoadedBackKeeps(rs[owners[i]]);
      LoadedBackKeeps(rs[owners[i2]]);
      assert owners[i] != owners[i2];
    }
    forall i | 0 <= i < |back| && HasParent(back[i]) ensures back[i].parent.value in Urns(back) {
      var r := rs[owners[i]];
      LoadedBackKeeps(r);
      assert HasParent(r);
      var v := r.parent.value;
      assert v in Urns(rs);
      var m :| 0 <= m < |rs| && Urns(rs)[m] == v;
      assert m in owners;
      var i2 :| 0 <= i2 < |owners| && owners[i2] == m;
      LoadedBackKeeps(rs[m]);
      assert Urns(back)[i2] == v;
    }
  }

  /** `find_parents` on the resources read back links each to its parent again; taken in
      any order that lists every resource once, they are the restored resources. */
  lemma ParentsFoundOfLoaded(rs: seq<Resource>, owners: seq<int>)
    requires DistinctUrns(rs)
    requires forall i :: 0 <= i < |rs| && HasParent(rs[i]) ==> rs[i].parent.value in Urns(rs)
    requires forall i :: 0 <= i < |owners| ==> 0 <= owners[i] < |rs|
    requires Distinct(owners) && forall j :: 0 <= j < |rs| ==> j in owners
    ensures ParentsFound(LoadedInOrder(rs, owners)) == Success(RestoredInOrder(rs, owners))
    ensures multiset(RestoredInOrder(rs, owners)) == multiset(RestoredAll(rs))
  {
    var back := LoadedInOrder(rs, owners);
    LoadedUrns(rs, owners);
    ParentsFoundOfDistinct(back);
    var restored := RestoredInOrder(rs, owners);
    forall i | 0 <= i < |back| ensures ParentsFound(back).value[i] == restored[i] {
      LoadedBackKeeps(rs[owners[i]]);
    }
    assert ParentsFound(back).value == restored;
    RestoredInOrderSame(rs, owners);
  }

  lemma RestoredInOrderSame(rs: seq<Resource>, owners: seq<int>)
    requires DistinctUrns(rs)
    requires forall i :: 0 <= i < |owners| ==> 0 <= owners[i] < |rs|
    requires Distinct(owners) && forall j :: 0 <= j < |rs| ==> j in owners
    ensures multiset(RestoredInOrder(rs, owners)) == multiset(RestoredAll(rs))
  {
    var restored := RestoredInOrder(rs, owners);
    var all := RestoredAll(rs);
    forall i, i2 | 0 <= i < i2 < |restored| ensures restored[i] != restored[i2] {
      LoadedBackKeeps(rs[owners[i]]);
      LoadedBackKeeps(rs[owners[i2]]);
      assert restored[i].urn == rs[owners[i]].urn;
      assert restored[i2].urn == rs[owners[i2]].urn;
    }
    forall j, j2 | 0 <= j < j2 < |all| ensures all[j] != all[j2] {
      LoadedBackKeeps(rs[j]);
      LoadedBackKeeps(rs[j2]);
      assert all[j].urn == rs[j].urn;
      assert all[j2].urn == rs[j2].urn;
    }
    forall x | x in all ensures x in restored {
      var j :| 0 <= j < |all| && all[j] == x;
      assert j in owners;
      var i :| 0 <= i < |owners| && owners[i] == j;
      assert restored[i] == x;
    }
    forall x | x in restored ensures x in all {
      var i :| 0 <= i < |restored| && restored[i] == x;
      assert all[owners[i]] == x;
    }
    SameElements(restored, all);
  }

  /** `load` of a state directory that `save` filled gives the state back with the resources
      restored, in the order the walk lists their files. */
  lemma LoadOfSaved(t: Tree, dir: Path, s: State, subs: seq<Path>, docs: seq<Value>, walk: seq<Path>)
    returns (owners: seq<int>)
    requires s.checkpoint.latest.Some? && LatestWellFormed(s.checkpoint.latest.value)
    requires s.checkpoint.latest.value.resources.Some?
    requires var rs := s.checkpoint.latest.value.resources.value;
      && Apart(subs) && Saved(t, dir, StateDump(s), rs, subs, docs, |rs|) && Dumped(rs, docs)
      && DistinctUrns(rs) && (forall i :: 0 <= i < |rs| ==> WellFormed(rs[i]))
      && (forall i :: 0 <= i < |rs| && HasParent(rs[i]) ==> rs[i].parent.value in Urns(rs))
    requires Enumerates(walk, WalkFiles(t, dir))
    ensures var rs := s.checkpoint.latest.value.resources.value;
      && (forall i :: 0 <= i < |owners| ==> 0 <= owners[i] < |rs|)
      && Distinct(owners) && (forall j :: 0 <= j < |rs| ==> j in owners)
      && LoadState(t, dir, walk) ==
           Success(State(Checkpoint(s.checkpoint.stack,
             Some(Latest(Some(RestoredInOrder(rs, owners)), s.checkpoint.latest.value.extra)))))
  {
    var l := s.checkpoint.latest.value;
    var rs := l.resources.value;
    WalkOfSaved(t, dir, StateDump(s), rs, subs, docs);
    owners := OwnersOf(walk, dir, subs);
    LoadResourcesOfSaved(t, dir, StateDump(s), rs, subs, docs, walk, owners);
    StateFileRoundTrip(s);
    assert StateYaml(t, dir) == Success(WithoutResources(s));
    ParentsFoundOfLoaded(rs, owners);
  }

  /** `load` after `save`, in a place where nothing was in the way, gives the state back
      whatever order the walk lists the files in: the stack name, the other fields of the
      latest snapshot, and the resources as a permutation of what was saved, each read back
      and linked to its parent. It holds for resources with distinct URNs whose parents are
      among them, whose files `save` can lay out apart, and that validation would accept. */
  lemma SaveThenLoad(t: Tree, dir: Path, s: State, walk: seq<Path>)
    requires Fresh(t, dir)
    requires s.checkpoint.latest.Some? && LatestWellFormed(s.checkpoint.latest.value)
    requires s.checkpoint.latest.value.resources.Some?
    requires var rs := s.checkpoint.latest.value.resources.value;
      && Layable(rs) && DistinctUrns(rs) && (forall i :: 0 <= i < |rs| ==> WellFormed(rs[i]))
      && (forall i :: 0 <= i < |rs| && HasParent(rs[i]) ==> rs[i].parent.value in Urns(rs))
    ensures SaveState(t, dir, Some(s)).Success?
    ensures Enumerates(walk, WalkFiles(SaveState(t, dir, Some(s)).value, dir)) ==>
      var back := LoadState(SaveState(t, dir, Some(s)).value, dir, walk);
      && back.Success?
      && back.value.checkpoint.stack == s.checkpoint.stack
      && back.value.checkpoint.latest.Some?
      && back.value.checkpoint.latest.value.extra == s.checkpoint.latest.value.extra
      && back.value.checkpoint.latest.value.resources.Some?
      && multiset(back.value.checkpoint.latest.value.resources.value) ==
           multiset(RestoredAll(s.checkpoint.latest.value.resources.value))
  {
    var rs := s.checkpoint.latest.value.resources.value;
    var subs := Subpaths(rs);
    var docs := Dumps(rs);
    LayableLaidOut(rs);
    SaveStateFootprint(t, dir, s, subs, docs);
    var saved := SaveState(t, dir, Some(s)).value;
    if Enumerates(walk, WalkFiles(saved, dir)) {
      var owners := LoadOfSaved(saved, dir, s, subs, docs, walk);
      RestoredInOrderSame(rs, owners);
    }
  }
}
