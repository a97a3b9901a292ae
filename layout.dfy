/** Where the split layout puts things: the state directory and the file of each resource. */
module Layout {
  import opened Wrappers
  import opened Paths
  import opened Model
  import opened StoredState
  import opened Split

  /** For a project and a stack that are single path segments, the state directory is
      `<backend>/<project>/<stack>`. */
  lemma StateDirOfSegments(backend: Path, name: StackName)
    requires IsSegment(name.project) && IsSegment(name.stack)
    ensures StateDirPath(backend, name) == backend + [name.project, name.stack]
  {
    PartsOfTwoSegments(name.project, name.stack);
  }

  /** Stacks with single-segment names in one backend have different state directories. */
  lemma StateDirInjective(backend: Path, name1: StackName, name2: StackName)
    requires IsSegment(name1.project) && IsSegment(name1.stack)
    requires IsSegment(name2.project) && IsSegment(name2.stack)
    requires StateDirPath(backend, name1) == StateDirPath(backend, name2)
    ensures name1 == name2
  {
    StateDirOfSegments(backend, name1);
    StateDirOfSegments(backend, name2);
    assert StateDirPath(backend, name1)[|backend|] == name1.project;
    assert StateDirPath(backend, name1)[|backend| + 1] == name1.stack;
  }

  /** The resource's type directory and file name are single path segments. */
  predicate PlainNames(r: Resource) {
    IsSegment(TypeDirName(r.resourceType)) && '/' !in Name(r.urn) && Name(r.urn) != ""
  }

  lemma PlainFileName(r: Resource)
    requires PlainNames(r)
    ensures Parts(TypeDirName(r.resourceType)) == [TypeDirName(r.resourceType)]
    ensures Parts(Name(r.urn) + ".yaml") == [Name(r.urn) + ".yaml"]
  {
    PartsOfSegment(TypeDirName(r.resourceType));
    assert IsSegment(Name(r.urn) + ".yaml") by {
      assert (Name(r.urn) + ".yaml")[|Name(r.urn)|] == '.';
    }
    PartsOfSegment(Name(r.urn) + ".yaml");
  }

  /** A resource that is not nested under a parent's file is written to
      `<type dir>/<name>.yaml`, whatever the fuel. */
  lemma SubpathOfTopLevel(table: map<string, Resource>, r: Resource, fuel: nat)
    requires Closed(table) && Resolves(table, r) && !NestedUnder(table, r)
    requires PlainNames(r)
    ensures Subpath(table, r, fuel) == Some([TypeDirName(r.resourceType), Name(r.urn) + ".yaml"])
  {
    PlainFileName(r);
    assert [] + [TypeDirName(r.resourceType)] + [Name(r.urn) + ".yaml"] == [TypeDirName(r.resourceType), Name(r.urn) + ".yaml"];
  }

  /** One step of `resource_subpath` for a nested resource: its parent's path without the
      suffix, then its type directory and its file name. */
  lemma SubpathStep(table: map<string, Resource>, r: Resource, fuel: nat, parentPath: Path)
    requires Closed(table) && Resolves(table, r) && NestedUnder(table, r) && fuel > 0
    requires Subpath(table, table[r.parentResource.value], fuel - 1) == Some(parentPath)
    ensures parentPath != []
    ensures Subpath(table, r, fuel) ==
      Some(WithoutSuffix(parentPath) + Parts(TypeDirName(r.resourceType)) + Parts(Name(r.urn) + ".yaml"))
  {
  }

  /** Removing the suffix of `<above>/<type>/<name>.yaml` gives `<above>/<type>/<name>`. */
  lemma WithoutYaml(above: Path, t: string, n: string)
    requires n != ""
    ensures WithoutSuffix(above + [t, n + ".yaml"]) == above + [t, n]
  {
    StemOfSuffixed(n, "yaml");
    assert n + "." + "yaml" == n + ".yaml";
    var p := above + [t, n + ".yaml"];
    assert p[..|p| - 1] == above + [t];
  }

  /** A nested resource is written below its parent's file with the `.yaml` removed: each
      ancestor that is not the stack adds its type directory and its name. */
  lemma SubpathOfNested(table: map<string, Resource>, r: Resource, fuel: nat, above: Path)
    requires Closed(table) && Resolves(table, r) && NestedUnder(table, r) && fuel > 0
    requires PlainNames(r)
    requires var parent := table[r.parentResource.value];
      PlainNames(parent) &&
      Subpath(table, parent, fuel - 1) == Some(above + [TypeDirName(parent.resourceType), Name(parent.urn) + ".yaml"])
    ensures var parent := table[r.parentResource.value];
      Subpath(table, r, fuel) ==
        Some(above + [TypeDirName(parent.resourceType), Name(parent.urn), TypeDirName(r.resourceType), Name(r.urn) + ".yaml"])
  {
    var parent := table[r.parentResource.value];
    var pt, pn := TypeDirName(parent.resourceType), Name(parent.urn);
    SubpathStep(table, r, fuel, above + [pt, pn + ".yaml"]);
    PlainFileName(r);
    WithoutYaml(above, pt, pn);
    var tr, fr := TypeDirName(r.resourceType), Name(r.urn) + ".yaml";
    assert above + [pt, pn] + [tr] + [fr] == above + [pt, pn, tr, fr];
  }

  /** Saving a resource's outputs separately does not move its file. */
  lemma SubpathOfStored(table: map<string, Resource>, r: Resource, fuel: nat)
    requires Closed(table) && Resolves(table, r)
    ensures Resolves(table, Stored(r))
    ensures Subpath(table, Stored(r), fuel) == Subpath(table, r, fuel)
  {
  }

  /** Three generations of resources whose names are plain: the child's file is
      `<p type>/<p name>/<c type>/<c name>.yaml` and the grandchild's extends that by two more
      segments. */
  lemma SubpathOfGenerations(table: map<string, Resource>, parent: Resource, child: Resource, grandchild: Resource)
    requires Closed(table) && PlainNames(parent) && PlainNames(child) && PlainNames(grandchild)
    requires parent.parentResource == None
    requires child.parentResource.Some? && child.parentResource.value in table && table[child.parentResource.value] == parent
    requires grandchild.parentResource.Some? && grandchild.parentResource.value in table
    requires table[grandchild.parentResource.value] == child
    requires parent.resourceType != StackType && child.resourceType != StackType
    ensures Subpath(table, child, 2) ==
      Some([TypeDirName(parent.resourceType), Name(parent.urn), TypeDirName(child.resourceType), Name(child.urn) + ".yaml"])
    ensures Subpath(table, grandchild, 3) ==
      Some([TypeDirName(parent.resourceType), Name(parent.urn), TypeDirName(child.resourceType), Name(child.urn),
            TypeDirName(grandchild.resourceType), Name(grandchild.urn) + ".yaml"])
  {
    var tp, np := TypeDirName(parent.resourceType), Name(parent.urn);
    var tc, nc := TypeDirName(child.resourceType), Name(child.urn);
    SubpathOfTopLevel(table, parent, 1);
    PrependNothing([tp, np + ".yaml"]);
    SubpathOfNested(table, child, 2, []);
    PrependNothing([tp, np, tc, nc + ".yaml"]);
    JoinPairs(tp, np, tc, nc + ".yaml");
    SubpathOfNested(table, grandchild, 3, [tp, np]);
    JoinPairFour(tp, np, tc, nc, TypeDirName(grandchild.resourceType), Name(grandchild.urn) + ".yaml");
  }

  // Sequence joins used by `SubpathOfGenerations`.

  lemma PrependNothing(p: Path)
    ensures [] + p == p
  {
  }

  lemma JoinPairs(a: string, b: string, c: string, d: string)
    ensures [a, b] + [c, d] == [a, b, c, d]
  {
  }

  lemma JoinPairFour(a: string, b: string, c: string, d: string, e: string, f: string)
    ensures [a, b] + [c, d, e, f] == [a, b, c, d, e, f]
  {
  }

  /** The example of the resource-subpath tests: under `foo/parent.yaml`, the child is
      written to `foo/parent/bar/child.yaml` and the grandchild to
      `foo/parent/bar/child/baz/grandchild.yaml`. */
  lemma SubpathExample(parent: Resource, child: Resource, grandchild: Resource)
    requires parent.resourceType == "foo" && parent.urn == "parent" && parent.parentResource == None
    requires child.resourceType == "bar" && child.urn == "child" && child.parentResource == Some("parent")
    requires grandchild.resourceType == "baz" && grandchild.urn == "grandchild" && grandchild.parentResource == Some("child")
    ensures Subpath(map["parent" := parent, "child" := child, "grandchild" := grandchild], grandchild, 3) ==
      Some(["foo", "parent", "bar", "child", "baz", "grandchild.yaml"])
  {
    var table := map["parent" := parent, "child" := child, "grandchild" := grandchild];
    PlainExample(parent, "foo", "parent");
    PlainExample(child, "bar", "child");
    PlainExample(grandchild, "baz", "grandchild");
    assert Closed(table);
    assert "grandchild" + ".yaml" == "grandchild.yaml";
    SubpathOfGenerations(table, parent, child, grandchild);
  }

  lemma PlainExample(r: Resource, t: string, n: string)
    requires r.resourceType == t && r.urn == n && t != "" && n != ""
    requires forall i :: 0 <= i < |t| ==> t[i] != ':' && t[i] != '/' && t[i] != '.'
    requires forall i :: 0 <= i < |n| ==> n[i] != ':' && n[i] != '/'
    ensures PlainNames(r) && TypeDirName(t) == t && Name(n) == n
  {
    assert !HasSeparator(n);
    NameIsLastSegment(n);
    assert Name(n) == n;
    assert TypeDirName(t) == t;
    assert '/' !in t && '/' !in n;
    assert t != "." by {
      assert t[0] != '.';
    }
  }
}
