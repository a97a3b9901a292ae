# pulumi_state_splitter, modelled in Dafny

`pulumi_state_splitter` keeps the state of a Pulumi stack in a file-based backend as a
directory of small YAML files rather than one large JSON document. This project models the
core of that tool and proves properties of the model:

- **The stack-state model** (`model.py`), in `model.dfy`.
  - Resources with their declared fields and an overflow map for extra fields.
  - `Resource.name`.
  - The serialisers that drop some falsy fields (`_skip_some_falsy_values`, the resource
    and checkpoint serialisers, `Resource.file_exclude`).
  - Validation of resource and state documents, with `version` pinned to 3.
  - `Resource.find_parents`, imperative as in the source: a method that fills a URN-keyed
    table in one loop and links parents in a second. It is proved equal to a functional
    specification, and its failure and success cases are characterised.
  - A resource's `parent_resource` back-reference is the URN of its parent in the resource
    table of the same snapshot.
- **Stack names** (`stored_state.py`), in `stored_state.dfy`: `StackName.from_path` and
  `__str__`, with their round trips and rejections. Python's `str.split` is in
  `strings.dfy`.
- **The split layout** (`split.py`, `fs.py`), in four files:
  - `split.dfy`: `StateDir.path`, `_state_path` and `resource_subpath`, plus `save`, `load`
    and `remove`. The three operations are methods of a `StateDir` class. They act on a
    `FileSystem` object, and each is proved against a function on the file tree. For `save`
    and `remove` a second function gives the tree left behind when they fail partway.
  - `file_system.dfy`: the tree (files holding decoded documents, plus directories), the
    pathlib operations the tool uses, and `fs.rmdir_if_empty`.
  - `paths.dfy`: pathlib's joining of text with `/` and `with_suffix("")`.
  - `layout.dfy`: where resources are written.
- **Save, load and remove**, in three files:
  - `saving.dfy`: exactly what `save` leaves on disk, that it changes nothing outside the state
    directory, and what it leaves after a failure.
  - `loading.dfy`: `load` after `save` gives the state back.
  - `removal.dfy`: exactly what `remove` deletes and keeps, what it leaves after a failure,
    and `remove` after `save`.
- **The state-file path** (`state_file.py`), in `state_file.dfy`: `State.path`.

Errors the source raises are modelled as `Failure` values of one `Error` datatype in
`wrappers.dfy`. Among them are `ValueError` from `from_path`, a validation error, `KeyError`
for an unknown parent, file-system errors, and `RecursionError` for a parent chain that never
ends.

Where the tests disagree with the code, the model follows the code:

- Some tests expect type directories named with colons. `split.py:98` replaces `:` with `-`.
- Some tests pass a `project_name`. `StoredState` takes a `StackName`.

Two places where the code does not do what it evidently intends are listed under
"Findings". The rest of the model uses the corrected behaviour.

## Model

| member | source | states |
|---|---|---|
| Model.LastSeparator | utilities/pulumi_state_splitter/pulumi_state_splitter/model.py:55 | the result is -1 or the start of a "::", and no "::" starts after it |
| Model.NameIsLastSegment | utilities/pulumi_state_splitter/pulumi_state_splitter/model.py:52-55 | the name holds no "::"; the URN ends with the name; it is the whole URN when the URN has no "::", else the URN is some prefix, "::" and the name |
| Model.NameOfQualified | utilities/pulumi_state_splitter/pulumi_state_splitter/model.py:52-55 | `prefix::name` is named `name` when `name` holds no "::" and does not start with ':' |
| Model.NameExample | utilities/pulumi_state_splitter/tests/test_model.py:18-27 | the URN of the name test is named "resource-name" |
| Model.SkipSomeFalsyValues | utilities/pulumi_state_splitter/pulumi_state_splitter/model.py:9-17 | keeps a key exactly when it is not listed or its value is truthy, with its value unchanged |
| Model.FileDump | utilities/pulumi_state_splitter/pulumi_state_splitter/model.py:57-68 | a resource file is a mapping without `parent_resource` and `sourcePosition`; it has `type` and `urn`; `dependencies`, `outputs`, `parent` and `provider` are present exactly when truthy; every other extra field is kept, even when falsy |
| Model.DumpOfResource | utilities/pulumi_state_splitter/pulumi_state_splitter/model.py:25-31 | before falsy fields are skipped, the dump holds every declared field except `parent_resource`, plus the extra fields minus `file_exclude`; it also states which of those fields are falsy |
| Model.CheckpointDump | utilities/pulumi_state_splitter/pulumi_state_splitter/model.py:82-91 | corrected, see Findings row 1: the checkpoint document keeps `stack`, and holds `latest` exactly when there is one |
| Model.ParseState | utilities/pulumi_state_splitter/pulumi_state_splitter/model.py:94-108 | a state document validates only if its `version` is 3 |
| Model.ResourceFileRoundTrip | utilities/pulumi_state_splitter/pulumi_state_splitter/split.py:121-129 | validating the file written for a well-formed resource gives the resource back, minus `sourcePosition` and the back-reference, with falsy optional fields at their defaults |
| Model.FileListsParse | utilities/pulumi_state_splitter/pulumi_state_splitter/model.py:33-34 | `dependencies` and `outputs` read back from a resource file as the reloaded resource has them |
| Model.FileTextsParse | utilities/pulumi_state_splitter/pulumi_state_splitter/model.py:35-39 | `type`, `urn`, `parent` and `provider` read back from a resource file as the reloaded resource has them |
| Model.StateFileRoundTrip | utilities/pulumi_state_splitter/pulumi_state_splitter/split.py:103-112 | validating the `state.yaml` written for a state gives back its stack and its latest snapshot, whose resources become the default empty list |
| Model.LatestLostAsWritten | utilities/pulumi_state_splitter/pulumi_state_splitter/model.py:82-88 | with the serialiser as written, a latest snapshot that holds only its resources reads back as no snapshot at all |
| Model.Table | utilities/pulumi_state_splitter/pulumi_state_splitter/model.py:44-46 | the table holds exactly the URNs of the resources, each under its own URN |
| Model.UrnOrder | utilities/pulumi_state_splitter/pulumi_state_splitter/model.py:47 | the table's iteration order lists each URN of the table exactly once |
| Model.TableStep | utilities/pulumi_state_splitter/pulumi_state_splitter/model.py:45-46 | one iteration of the first loop stores the resource under its URN, and appends the URN to the order only if it is new |
| Model.IndexByUrn | utilities/pulumi_state_splitter/pulumi_state_splitter/model.py:44-46 | the first loop builds the URN table and its insertion order |
| Model.FindParents | utilities/pulumi_state_splitter/pulumi_state_splitter/model.py:42-50 | the two loops compute `ParentsFound`, including its failure |
| Model.LinkKeeps | utilities/pulumi_state_splitter/pulumi_state_splitter/model.py:48-49 | linking changes only `parent_resource`; a resource with a parent is linked to the parent it names, which is in the table |
| Model.LinkAllFailure | utilities/pulumi_state_splitter/pulumi_state_splitter/model.py:47-49 | the second loop fails exactly when some resource names a parent missing from the table, and the error names such a parent |
| Model.ParentsFoundFails | utilities/pulumi_state_splitter/pulumi_state_splitter/model.py:47-49 | `find_parents` raises exactly when a parent URN is not among the resources, and it reports that URN |
| Model.ParentsFoundLinks | utilities/pulumi_state_splitter/pulumi_state_splitter/model.py:42-50 | on success there is one resource per distinct URN, in first-occurrence order; each has the contents of its table entry, and each resource with a parent is linked to it |
| Model.UrnOrderExtends | utilities/pulumi_state_splitter/pulumi_state_splitter/model.py:45-47 | more resources only append to the URN order, so a URN keeps the place of its first occurrence |
| Model.TableKeepsLast | utilities/pulumi_state_splitter/pulumi_state_splitter/model.py:45-46 | a later duplicate URN replaces the earlier contents |
| Model.UrnOrderOfDistinct | utilities/pulumi_state_splitter/pulumi_state_splitter/model.py:44-50 | with distinct URNs the order is the input order |
| Model.ParentsFoundOfDistinct | utilities/pulumi_state_splitter/pulumi_state_splitter/model.py:42-50 | with distinct URNs and every parent present, `find_parents` succeeds and returns each input in place, linked to its parent when it names one |
| StoredState.SplitTwo | utilities/pulumi_state_splitter/pulumi_state_splitter/stored_state.py:21 | `a/b` splits into `a` and `b` when neither holds a slash |
| StoredState.SplitThree | utilities/pulumi_state_splitter/pulumi_state_splitter/stored_state.py:21 | `a/b/c` splits into three pieces when none holds a slash |
| StoredState.FromPathOfString | utilities/pulumi_state_splitter/pulumi_state_splitter/stored_state.py:19-32 | `from_path(str(n)) == n` when project and stack hold no slash |
| StoredState.FromPathOfOrganization | utilities/pulumi_state_splitter/pulumi_state_splitter/stored_state.py:23-24 | `organization/p/s` parses to the same name as `p/s` |
| StoredState.FromPathOfThree | utilities/pulumi_state_splitter/pulumi_state_splitter/stored_state.py:23-28 | three segments parse exactly when the first is "organization", to the other two; otherwise `from_path` fails |
| StoredState.FromPathOfOne | utilities/pulumi_state_splitter/pulumi_state_splitter/stored_state.py:25-28 | a path of one segment is rejected |
| StoredState.FromPathAccepts | utilities/pulumi_state_splitter/pulumi_state_splitter/stored_state.py:19-32 | every accepted path gives a name without slashes, and is `str` of that name, possibly behind "organization/" |
| StoredState.FromPathExampleShort | utilities/pulumi_state_splitter/tests/test_stored_state.py:14-22 | "foo/bar" is project "foo", stack "bar" |
| StoredState.FromPathExampleOrganization | utilities/pulumi_state_splitter/tests/test_stored_state.py:24-32 | "organization/foo/bar" is project "foo", stack "bar" |
| StoredState.FromPathExampleRejected | utilities/pulumi_state_splitter/tests/test_stored_state.py:34-41 | "acme/foo/bar" is rejected |
| Strings.Split | utilities/pulumi_state_splitter/pulumi_state_splitter/stored_state.py:21 | splitting gives at least one piece |
| Strings.SplitPieces | utilities/pulumi_state_splitter/pulumi_state_splitter/stored_state.py:21 | no piece holds the separator |
| Strings.JoinSplit | utilities/pulumi_state_splitter/pulumi_state_splitter/stored_state.py:21 | joining the pieces back with the separator gives the text |
| Strings.LastIndexOf | utilities/pulumi_state_splitter/pulumi_state_splitter/split.py:95 | the last occurrence of the character, or -1 when there is none |
| Paths.Parts | utilities/pulumi_state_splitter/pulumi_state_splitter/split.py:99 | joining text appends only segments pathlib keeps: non-empty, not ".", without a slash |
| Paths.PartsOfSuffixed | utilities/pulumi_state_splitter/pulumi_state_splitter/split.py:99 | joining `<name>.yaml` appends at least one part, and the last one ends in ".yaml" |
| Paths.PartsOfSegment | utilities/pulumi_state_splitter/pulumi_state_splitter/split.py:98-99 | joining a single segment appends exactly it |
| Paths.PartsOfTwoSegments | utilities/pulumi_state_splitter/pulumi_state_splitter/split.py:22 | joining `project/stack` appends the two segments |
| Paths.WithoutSuffix | utilities/pulumi_state_splitter/pulumi_state_splitter/split.py:95 | `with_suffix("")` changes only the last part, to its stem |
| Paths.StemOfSuffixed | utilities/pulumi_state_splitter/pulumi_state_splitter/split.py:95 | the stem of `stem.ext` is `stem` for a non-empty stem and a dot-free extension |
| Paths.StemOfBareSuffix | utilities/pulumi_state_splitter/pulumi_state_splitter/split.py:95 | a name that is only a suffix, such as ".yaml", keeps it |
| StateFile.PathOfSegments | utilities/pulumi_state_splitter/pulumi_state_splitter/state_file.py:18-27 | the state file is `<backend>/.pulumi/stacks/<project>/<stack>.json` |
| StateFile.PathInjective | utilities/pulumi_state_splitter/pulumi_state_splitter/state_file.py:18-27 | distinct single-segment project/stack pairs have distinct state files |
| FileSystems.MakeDirs | utilities/pulumi_state_splitter/pulumi_state_splitter/split.py:110 | `mkdir(parents=True, exist_ok=True)` succeeds exactly when no file lies on the way, and then adds every prefix as a directory |
| FileSystems.WriteFile | utilities/pulumi_state_splitter/pulumi_state_splitter/split.py:111-112 | writing succeeds exactly when the path is not a directory and its parent is one, and then stores the document |
| FileSystems.ReadFile | utilities/pulumi_state_splitter/pulumi_state_splitter/split.py:64-65 | reading succeeds exactly on a file, giving its document |
| FileSystems.UnlinkFile | utilities/pulumi_state_splitter/pulumi_state_splitter/split.py:38 | `unlink` succeeds exactly on a file, and removes only it |
| FileSystems.Rmdir | utilities/pulumi_state_splitter/pulumi_state_splitter/fs.py:10 | `rmdir` succeeds exactly on an empty directory other than the root, and removes only it; when it fails on a directory other than the root, the error is "not empty" |
| FileSystems.RemoveIfEmpty | utilities/pulumi_state_splitter/pulumi_state_splitter/fs.py:7-13 | `rmdir_if_empty` fails exactly when the path is not a directory other than the root; otherwise it removes the directory if it is empty and changes nothing if it is not |
| FileSystems.MakeDirsValid | utilities/pulumi_state_splitter/pulumi_state_splitter/split.py:122 | creating directories keeps the tree consistent |
| FileSystems.WriteFileValid | utilities/pulumi_state_splitter/pulumi_state_splitter/split.py:123 | writing keeps the tree consistent, and reading back gives what was written |
| FileSystems.UnlinkFileValid | utilities/pulumi_state_splitter/pulumi_state_splitter/split.py:44 | unlinking keeps the tree consistent |
| FileSystems.RemoveIfEmptyValid | utilities/pulumi_state_splitter/pulumi_state_splitter/fs.py:7-13 | removing an empty directory keeps the tree consistent |
| FileSystems.FileSystem.Mkdir | utilities/pulumi_state_splitter/pulumi_state_splitter/split.py:122 | updates the file system as `MakeDirs`, or leaves it unchanged on failure |
| FileSystems.FileSystem.Write | utilities/pulumi_state_splitter/pulumi_state_splitter/split.py:123-129 | updates the file system as `WriteFile`, or leaves it unchanged on failure |
| FileSystems.FileSystem.Read | utilities/pulumi_state_splitter/pulumi_state_splitter/split.py:75-76 | returns `ReadFile` of the current tree |
| FileSystems.FileSystem.Unlink | utilities/pulumi_state_splitter/pulumi_state_splitter/split.py:44 | updates the file system as `UnlinkFile`, or leaves it unchanged on failure |
| FileSystems.FileSystem.RmdirIfEmpty | utilities/pulumi_state_splitter/pulumi_state_splitter/fs.py:7-13 | updates the file system as `RemoveIfEmpty`, or leaves it unchanged on failure |
| Split.TypeDirName | utilities/pulumi_state_splitter/pulumi_state_splitter/split.py:98 | the type directory has the type's length, holds no ':', and keeps every other character |
| Split.Subpath | utilities/pulumi_state_splitter/pulumi_state_splitter/split.py:86-99 | a resource's subpath is never empty |
| Split.SubpathEndsInYaml | utilities/pulumi_state_splitter/pulumi_state_splitter/split.py:99 | the last part of every subpath ends in ".yaml" |
| Split.ListFiles | utilities/pulumi_state_splitter/pulumi_state_splitter/split.py:70 | the walk lists every file once, in some order |
| Split.WriteResource | utilities/pulumi_state_splitter/pulumi_state_splitter/split.py:115-129 | one iteration of `save`'s loop: `outputs.yaml` for the stack resource, the parent directories, then the file, as `SaveResource`; also after a failure, the file system is `SaveResourceLeaves` of the old one, with the writes before the failing step kept |
| Split.DeleteResource | utilities/pulumi_state_splitter/pulumi_state_splitter/split.py:40-45 | corrected, see Findings row 2: one iteration of `remove`'s loop, with every emptied directory up to the state directory pruned, as `RemoveResource`; also after a failure, the file system is `RemoveResourceLeaves` of the old one, with the unlinks before the failing step kept |
| Split.PruneDirs | utilities/pulumi_state_splitter/pulumi_state_splitter/split.py:45 | corrected, see Findings row 2: removes emptied directories deepest first, up to the state directory, as `Prune`; the source tries only the file's own directory; also after a failure, the file system is `PruneLeaves` of the old one |
| Split.StateDir.Save | utilities/pulumi_state_splitter/pulumi_state_splitter/split.py:101-129 | corrected, see Findings row 1: `save` leaves the file system as `SaveState` does, or reports its error; `state.yaml` holds the corrected checkpoint dump; whatever the outcome, the file system is `SaveStateLeaves` of the old one, so a failure keeps what was written before it |
| Split.StateDir.Load | utilities/pulumi_state_splitter/pulumi_state_splitter/split.py:62-84 | `load` gives `LoadState` over a walk of the directory; on a failure after `state.yaml` was read, the state is left as read from `state.yaml`; on an earlier failure it is unchanged |
| Split.StateDir.Remove | utilities/pulumi_state_splitter/pulumi_state_splitter/split.py:37-47 | corrected, see Findings row 2: `remove` leaves the file system as `RemoveState` does, or reports its error; `RemoveState` prunes every emptied directory up to the state directory; whatever the outcome, the file system is `RemoveStateLeaves` of the old one, so a failure keeps the unlinks made before it |
| Split.SaveResourceLeaves | utilities/pulumi_state_splitter/pulumi_state_splitter/split.py:116-129 | the tree one iteration of `save`'s loop leaves, failing or not, is its result when it succeeds; the steps before a failing one stay done |
| Split.SaveResourcesLeaves | utilities/pulumi_state_splitter/pulumi_state_splitter/split.py:115-129 | the tree `save`'s loop leaves is its result when it succeeds; the resources before a failing one stay saved |
| Split.SaveStateLeaves | utilities/pulumi_state_splitter/pulumi_state_splitter/split.py:110-129 | the tree `save` leaves is its result when it succeeds; a failure keeps the directories made and the files written before it |
| Split.UnlinkResourceLeaves | utilities/pulumi_state_splitter/pulumi_state_splitter/split.py:41-44 | the tree the unlinks of one iteration of `remove`'s loop leave is their result when they succeed; `outputs.yaml` stays unlinked when the resource's own file then fails |
| Split.PruneLeaves | utilities/pulumi_state_splitter/pulumi_state_splitter/split.py:45 | corrected, see Findings row 2: the tree pruning leaves is its result when it succeeds; the directories removed before a failure stay removed |
| Split.RemoveResourceLeaves | utilities/pulumi_state_splitter/pulumi_state_splitter/split.py:40-45 | corrected, see Findings row 2: the tree one iteration of `remove`'s loop leaves is its result when it succeeds |
| Split.RemoveResourcesLeaves | utilities/pulumi_state_splitter/pulumi_state_splitter/split.py:39-45 | corrected, see Findings row 2: the tree `remove`'s loop leaves is its result when it succeeds; the resources before a failing one stay removed |
| Split.RemoveRestLeaves | utilities/pulumi_state_splitter/pulumi_state_splitter/split.py:39-47 | when `remove`'s loop fails, the rest of `remove` leaves what the loop left; `rmdir_if_empty` of the state directory and its parent is not reached |
| Split.RemoveStateLeaves | utilities/pulumi_state_splitter/pulumi_state_splitter/split.py:37-47 | corrected, see Findings row 2: the tree `remove` leaves is its result when it succeeds; a failure keeps the unlink of `state.yaml` and every unlink before it |
| Split.LoadResourcesStops | utilities/pulumi_state_splitter/pulumi_state_splitter/split.py:74-81 | a file that fails to load fails the whole walk |
| Layout.StateDirOfSegments | utilities/pulumi_state_splitter/pulumi_state_splitter/split.py:19-22 | the state directory is `<backend>/<project>/<stack>` |
| Layout.StateDirInjective | utilities/pulumi_state_splitter/pulumi_state_splitter/split.py:19-22 | distinct single-segment stack names have distinct state directories |
| Layout.PlainFileName | utilities/pulumi_state_splitter/pulumi_state_splitter/split.py:98-99 | a plain type directory and file name each join as one segment |
| Layout.SubpathOfTopLevel | utilities/pulumi_state_splitter/pulumi_state_splitter/split.py:91-99 | a resource without a parent, or under the stack resource, goes to `<type dir>/<name>.yaml` |
| Layout.SubpathStep | utilities/pulumi_state_splitter/pulumi_state_splitter/split.py:91-99 | a nested resource's path is its parent's path without the suffix, then its own type directory and file name |
| Layout.WithoutYaml | utilities/pulumi_state_splitter/pulumi_state_splitter/split.py:95 | stripping `.yaml` from `<above>/<type>/<name>.yaml` gives `<above>/<type>/<name>` |
| Layout.SubpathOfNested | utilities/pulumi_state_splitter/pulumi_state_splitter/split.py:91-99 | a non-stack parent contributes its type directory and name as two leading segments |
| Layout.SubpathOfStored | utilities/pulumi_state_splitter/pulumi_state_splitter/split.py:115-121 | clearing the stack resource's outputs does not move its file |
| Layout.SubpathOfGenerations | utilities/pulumi_state_splitter/pulumi_state_splitter/split.py:86-99 | child and grandchild files nest two segments per non-stack ancestor |
| Layout.SubpathExample | utilities/pulumi_state_splitter/tests/test_split.py:100-124 | the grandchild of the parents test goes to `foo/parent/bar/child/baz/grandchild.yaml` |
| Saving.OutputsWritable | utilities/pulumi_state_splitter/pulumi_state_splitter/split.py:118 | during `save`, `outputs.yaml` can be written |
| Saving.FileWritable | utilities/pulumi_state_splitter/pulumi_state_splitter/split.py:121-123 | during `save`, nothing lies on the way to the next resource's file |
| Saving.SavedStep | utilities/pulumi_state_splitter/pulumi_state_splitter/split.py:115-129 | after one more resource, the tree still holds exactly `state.yaml`, `outputs.yaml` if a stack resource was saved, and the files saved so far |
| Saving.SavedTreeWrites | utilities/pulumi_state_splitter/pulumi_state_splitter/split.py:116-129 | with nothing in the way, the writes of one loop iteration succeed and give the expected tree |
| Saving.SaveResourceIs | utilities/pulumi_state_splitter/pulumi_state_splitter/split.py:115-129 | with nothing in the way, one loop iteration writes the outputs and the resource's dump |
| Saving.SaveResourceComputes | utilities/pulumi_state_splitter/pulumi_state_splitter/split.py:115-129 | the k-th iteration of `save`'s loop succeeds, with the expected tree |
| Saving.SaveResourcesFootprint | utilities/pulumi_state_splitter/pulumi_state_splitter/split.py:115-129 | the rest of `save`'s loop succeeds and leaves every resource saved |
| Saving.SavedStart | utilities/pulumi_state_splitter/pulumi_state_splitter/split.py:110-112 | in a fresh place, `mkdir` and the write of `state.yaml` succeed |
| Saving.SaveStateFootprint | utilities/pulumi_state_splitter/pulumi_state_splitter/split.py:101-129 | `save` in a fresh place succeeds; below the state directory it leaves exactly `state.yaml` holding the state minus its resources, `outputs.yaml` holding the stack resource's outputs (or `{}`), and each resource's dump at its subpath |
| Saving.SaveStateWithoutLatest | utilities/pulumi_state_splitter/pulumi_state_splitter/split.py:110-114 | with no latest snapshot, `save` in a fresh place creates the state directory and writes `state.yaml`, and changes nothing else |
| Saving.SaveResourceValid | utilities/pulumi_state_splitter/pulumi_state_splitter/split.py:115-129 | one iteration of `save`'s loop keeps the tree valid: everything sits in a directory and nothing is both a file and a directory |
| Saving.SaveResourcesValid | utilities/pulumi_state_splitter/pulumi_state_splitter/split.py:115-129 | so does the whole loop |
| Saving.SaveStateValid | utilities/pulumi_state_splitter/pulumi_state_splitter/split.py:101-129 | `save` keeps the tree valid |
| Saving.MakeDirsGrows | utilities/pulumi_state_splitter/pulumi_state_splitter/split.py:110 | `mkdir(parents=True)` of the state directory or a path below it adds directories only below it or on the way to it, and removes nothing |
| Saving.SaveFileGrows | utilities/pulumi_state_splitter/pulumi_state_splitter/split.py:121-129 | making a resource file's directory and writing the file, below the state directory, change nothing outside it but the directories on the way to it |
| Saving.SaveResourceGrows | utilities/pulumi_state_splitter/pulumi_state_splitter/split.py:116-129 | one iteration of `save`'s loop, failing or not, removes nothing and changes nothing outside the state directory but the directories on the way to it |
| Saving.SaveResourcesGrows | utilities/pulumi_state_splitter/pulumi_state_splitter/split.py:115-129 | so does the whole loop |
| Saving.SaveStateFrame | utilities/pulumi_state_splitter/pulumi_state_splitter/split.py:101-129 | whether `save` succeeds or fails, it removes nothing; outside the state directory every file is kept with its document and no file appears; the only directories added there are on the way to the state directory, and after a success they are exactly those |
| Saving.SaveStateLeavesLoop | utilities/pulumi_state_splitter/pulumi_state_splitter/split.py:110-115 | once `state.yaml` is written, what `save` leaves is what its loop leaves |
| Saving.SaveStateFailureKeepsWrites | utilities/pulumi_state_splitter/pulumi_state_splitter/split.py:110-129 | a `save` that fails on a resource after writing `state.yaml` leaves `state.yaml` and every file that was there at that point |
| Removal.PruneKeepsNoEmpty | utilities/pulumi_state_splitter/pulumi_state_splitter/split.py:45 | pruning up from a file's directory leaves no empty directory below the state directory |
| Removal.UnlinkResourceFiles | utilities/pulumi_state_splitter/pulumi_state_splitter/split.py:38-44 | removing a resource deletes its file, and `outputs.yaml` for the stack resource, and nothing else |
| Removal.RemoveResourceKeepsNoEmpty | utilities/pulumi_state_splitter/pulumi_state_splitter/split.py:40-45 | the corrected loop body keeps every directory below the state directory leading to a file |
| Removal.RemoveResourcesKeepsNoEmpty | utilities/pulumi_state_splitter/pulumi_state_splitter/split.py:39-45 | so does the whole corrected loop |
| Removal.EmptiedStateDirIsRemoved | utilities/pulumi_state_splitter/pulumi_state_splitter/split.py:46-47 | with no file left below it and no empty directory, the state directory is removed |
| Removal.RemoveIfEmptyEmptied | utilities/pulumi_state_splitter/pulumi_state_splitter/fs.py:7-13 | `rmdir_if_empty` removes no file, and removes at most the directory it is given, only when that directory holds nothing |
| Removal.PruneFootprint | utilities/pulumi_state_splitter/pulumi_state_splitter/split.py:45 | corrected, see Findings row 2: pruning removes no file, and removes only directories on the way from the file's directory up to the state directory, each left with nothing in it |
| Removal.PruneValid | utilities/pulumi_state_splitter/pulumi_state_splitter/split.py:45 | in a valid tree, pruning from an existing directory succeeds and keeps the tree valid |
| Removal.UnlinkResourceIs | utilities/pulumi_state_splitter/pulumi_state_splitter/split.py:40-44 | unlinking a resource deletes exactly its file and, for the stack resource, `outputs.yaml`; both must be there, and the directories stay |
| Removal.RemoveResourceFootprint | utilities/pulumi_state_splitter/pulumi_state_splitter/split.py:40-45 | corrected, see Findings row 2: one loop iteration unlinks exactly the resource's file and, for the stack resource, `outputs.yaml`, both of which were there; every directory it removes lies below the state directory and is left with nothing in it |
| Removal.RemoveResourcesFootprint | utilities/pulumi_state_splitter/pulumi_state_splitter/split.py:39-45 | corrected, see Findings row 2: the whole loop unlinks exactly its resources' files, and `outputs.yaml` when the stack resource is among them, all of which were there; every directory it removes lies below the state directory and is left with nothing in it |
| Removal.RemoveStateFootprint | utilities/pulumi_state_splitter/pulumi_state_splitter/split.py:37-47 | corrected, see Findings row 2: when `remove` succeeds it has unlinked exactly `state.yaml`, each resource's file and, with a stack resource, `outputs.yaml`, all of which were there; every other file stays with its contents; the directories it removed are the state directory, its parent and directories below the state directory, each left with nothing in it |
| Removal.UnlinkedFilesDeep | utilities/pulumi_state_splitter/pulumi_state_splitter/split.py:39-44 | when every subpath has at least two parts, the only file `remove`'s loop unlinks directly in the state directory is `outputs.yaml` |
| Removal.RemoveKeepsOtherFiles | utilities/pulumi_state_splitter/tests/test_split.py:237-261 | `remove` keeps a file of any other name directly in the state directory, such as `extra.txt`, with its contents |
| Removal.PruneShrinks | utilities/pulumi_state_splitter/pulumi_state_splitter/split.py:45 | corrected, see Findings row 2: pruning, failing or not, removes only directories below the state directory, and adds and rewrites nothing |
| Removal.UnlinkResourceShrinks | utilities/pulumi_state_splitter/pulumi_state_splitter/split.py:41-44 | the unlinks of one iteration, failing or not, remove only files below the state directory, and pruning then starts at or below it |
| Removal.RemoveResourceShrinks | utilities/pulumi_state_splitter/pulumi_state_splitter/split.py:40-45 | corrected, see Findings row 2: one iteration of `remove`'s loop, failing or not, removes only files and directories below the state directory |
| Removal.RemoveResourcesShrinks | utilities/pulumi_state_splitter/pulumi_state_splitter/split.py:39-45 | corrected, see Findings row 2: so does the whole loop |
| Removal.RemoveRestShrinks | utilities/pulumi_state_splitter/pulumi_state_splitter/split.py:39-47 | corrected, see Findings row 2: the loop and the two `rmdir_if_empty` calls remove only files below the state directory, and only directories below it, the state directory and its parent |
| Removal.RemoveStateFrame | utilities/pulumi_state_splitter/pulumi_state_splitter/split.py:37-47 | corrected, see Findings row 2: whether `remove` succeeds or fails, it adds and rewrites nothing, unlinks only files below the state directory, and removes only directories below it, the state directory itself and its parent |
| Removal.RemoveWithoutState | utilities/pulumi_state_splitter/pulumi_state_splitter/split.py:37-39 | `remove` with no loaded state fails, after it has unlinked `state.yaml`, and changes nothing else |
| Removal.RemoveWithoutResources | utilities/pulumi_state_splitter/pulumi_state_splitter/split.py:37-40 | `remove` of a state whose latest snapshot has no resource list fails, after it has unlinked `state.yaml`, and changes nothing else |
| Removal.SavedRemaining | utilities/pulumi_state_splitter/pulumi_state_splitter/split.py:37-38 | after `save`, unlinking `state.yaml` succeeds, and what remains below the state directory is every resource's file, `outputs.yaml` with a stack resource, and nothing else; no directory below it is empty |
| Removal.RemainingStart | utilities/pulumi_state_splitter/pulumi_state_splitter/split.py:37-38 | so it is after `save` in a fresh place |
| Removal.UnlinkPresent | utilities/pulumi_state_splitter/pulumi_state_splitter/split.py:41-44 | unlinking a resource's files succeeds when they are there, and keeps the tree valid |
| Removal.RemainingFilesKept | utilities/pulumi_state_splitter/pulumi_state_splitter/split.py:41-44 | unlinking one resource's files keeps the later resources' files, and `outputs.yaml` while a later resource is the stack |
| Removal.RemainingFilesOnly | utilities/pulumi_state_splitter/pulumi_state_splitter/split.py:41-44 | and leaves nothing else below the state directory |
| Removal.RemainingStep | utilities/pulumi_state_splitter/pulumi_state_splitter/split.py:40-45 | corrected, see Findings row 2: on what `save` wrote, one loop iteration succeeds and leaves only the later resources' files, with no empty directory below the state directory |
| Removal.RemainingAll | utilities/pulumi_state_splitter/pulumi_state_splitter/split.py:39-45 | corrected, see Findings row 2: the rest of the loop succeeds and leaves no file below the state directory and no empty directory |
| Removal.RemoveAfterSave | utilities/pulumi_state_splitter/tests/test_split.py:223-235 | corrected, see Findings row 2: `remove` after `save` in a fresh place succeeds, leaves no file below the state directory, and removes the state directory itself |
| Removal.FamilyPaths | utilities/pulumi_state_splitter/pulumi_state_splitter/split.py:91-99 | the file paths of a parent and of a child nested under it |
| Removal.RemoveResourceAsWrittenStep | utilities/pulumi_state_splitter/pulumi_state_splitter/split.py:41-45 | as written, a loop iteration unlinks the file and tries only its own directory |
| Removal.TypeDirKept | utilities/pulumi_state_splitter/pulumi_state_splitter/fs.py:7-13 | a type directory that still holds the parent's directory is kept |
| Removal.DeepestRemoved | utilities/pulumi_state_splitter/pulumi_state_splitter/fs.py:7-13 | the child's emptied directory is removed |
| Removal.StateDirKept | utilities/pulumi_state_splitter/pulumi_state_splitter/split.py:46-47 | the state directory stays while `<type>/<name>` is left in it |
| Removal.RemoveParentAsWritten | utilities/pulumi_state_splitter/pulumi_state_splitter/split.py:40-45 | as written, removing the parent leaves its type directory in place |
| Removal.RemoveChildAsWritten | utilities/pulumi_state_splitter/pulumi_state_splitter/split.py:40-45 | as written, removing the child removes only its own directory |
| Removal.RemoveAsWrittenLeavesDirectory | utilities/pulumi_state_splitter/pulumi_state_splitter/split.py:37-47 | as written, `remove` of a parent and a nested child deletes both files but keeps `<type>/<parent name>`, so the state directory is not removed |
| Loading.LoadResourceOfSaved | utilities/pulumi_state_splitter/pulumi_state_splitter/split.py:74-80 | a saved file loads back as its resource, the stack resource with its outputs from `outputs.yaml` |
| Loading.LoadResourcesInOrder | utilities/pulumi_state_splitter/pulumi_state_splitter/split.py:70-81 | `load` appends the resources in walk order |
| Loading.LoadResourcesOfSaved | utilities/pulumi_state_splitter/pulumi_state_splitter/split.py:70-81 | a walk over saved files loads their resources in walk order |
| Loading.WalkOfSaved | utilities/pulumi_state_splitter/pulumi_state_splitter/split.py:70-76 | after `save`, the files below the state directory's subdirectories are exactly the resources' files |
| Loading.OwnersOf | utilities/pulumi_state_splitter/pulumi_state_splitter/split.py:70-74 | a walk over those files is a permutation of the resources |
| Loading.LoadedBackKeeps | utilities/pulumi_state_splitter/pulumi_state_splitter/split.py:75-80 | reading back keeps the URN and the parent |
| Loading.LoadedUrns | utilities/pulumi_state_splitter/pulumi_state_splitter/split.py:82-84 | the resources read back have distinct URNs, and every parent is among them |
| Loading.ParentsFoundOfLoaded | utilities/pulumi_state_splitter/pulumi_state_splitter/split.py:82-84 | `find_parents` on the resources read back links each to its parent again; the result is a permutation of the restored resources |
| Loading.RestoredInOrderSame | utilities/pulumi_state_splitter/pulumi_state_splitter/split.py:82-84 | the restored resources in walk order are a permutation of them in saved order |
| Loading.LoadOfSaved | utilities/pulumi_state_splitter/pulumi_state_splitter/split.py:62-84 | `load` of a saved directory gives back the stack, the latest snapshot's other fields, and the restored resources in walk order |
| Saving.Dumps | utilities/pulumi_state_splitter/pulumi_state_splitter/split.py:124-128 | the documents `save` writes, one per resource |
| Loading.SaveThenLoad | utilities/pulumi_state_splitter/pulumi_state_splitter/split.py:62-129 | `save` in a fresh place succeeds; `load` after it gives back the stack, the latest snapshot's other fields, and the resources, in any walk order, as a permutation of what was saved, each read back and linked to its parent |

## Left out

- `sorted_resources`, `StateFile` and `load_all` are not part of this model. `state_file.py` holds only `State.path` and `contents`.
- `from_state_file`, `to_state_file`, `split_state_file`, `unsplit` and `Unsplitter` are not modelled. They convert through `StateFile`, which is not part of this model.
- `StateDir.find` (a glob over the backend) is not modelled: it is file-system discovery.
- `State.contents` is not modelled: it is JSON reading.
- The CLI, `main` and `backend` are not modelled: they are entry points over the parts above.
- YAML and JSON encoding is not modelled. Files hold decoded documents (`Documents.Value`: null, booleans, integers, strings, lists and mappings), so encoding is the identity. Floating-point values are not modelled.
- The order of `os.walk` is not modelled. It is the `walk` parameter of `Split.LoadState`, and the load-after-save round trip holds for every order.
- `fs.rmdir_if_empty` distinguishes `ENOTEMPTY` from every other `OSError`. The model keeps that distinction but does not model errno values or permissions.
- pathlib is modelled for relative text only. A type or name starting with '/' would restart the path at the root; the model treats that '/' as a separator. `..` parts are kept, as pathlib keeps them.
- Pydantic validation is modelled for the required `type`/`urn`, the types of `dependencies`, `outputs`, `parent` and `provider`, and `version == 3`. Type coercion (for example a number accepted as a string) is not modelled.
- Model.ParseResource: rejects a resource file whose `parent_resource` is not null. Pydantic would validate a mapping there as a nested resource. `save` never writes that field (it is in `file_exclude`), so no file `save` writes is affected.
- Split.Subpath: follows at most as many parent links as there are resources, and reports a longer chain as the recursion error. Such a chain must repeat a resource. The model does not reproduce Python's recursion limit for very deep chains that do not repeat.
- Model.FindParents: works on values, so the caller's resources are never changed. That is the effect of `model_copy` in the source; object identity and aliasing between the returned resources are not modelled.
- Layout.SubpathOfNested: the exact layout is stated for type directories and names that are single path segments. For any other names only `Split.SubpathEndsInYaml` and `Paths.Parts` hold.
- Loading.SaveThenLoad: holds for resources with distinct URNs, every parent present, at most one stack resource, and files that lie apart. It states the resources up to order, as a multiset.
- `save` and `remove` on a state directory without a loaded state raise `AttributeError` in the source. The model reports `NoState`.

## Findings

| source | as written | input that shows it | evidently intended | confidence | as-written member | corrected member |
|---|---|---|---|---|---|---|
| utilities/pulumi_state_splitter/pulumi_state_splitter/model.py:82-88 | the checkpoint serialiser drops `latest` whenever its dump is falsy, and `save` dumps it with `resources` excluded | a state whose latest snapshot has resources but no other field: `state.yaml` gets no `latest`, so `load` returns no snapshot and none of the resources | drop `latest` only when it is None | medium, not executed | Model.LatestLostAsWritten | Model.StateFileRoundTrip |
| utilities/pulumi_state_splitter/pulumi_state_splitter/split.py:45 | `remove` tries only each file's own directory | a parent of type `foo` named `parent`, and a child of type `bar` nested under it: `<dir>/foo/parent` is left empty, so `<dir>/foo` and the state directory stay | remove every directory emptied below the state directory, so the state directory itself goes | high, not executed | Removal.RemoveAsWrittenLeavesDirectory | Removal.RemoveAfterSave |
