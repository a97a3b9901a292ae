/**
 * The Pulumi stack state: resources, the latest snapshot, the checkpoint and the state
 * document, with their serialisation into documents and their validation from documents.
 */
module Model {
  import opened Wrappers
  import opened Errors
  import opened Documents

  /** The type of the distinguished root resource of a stack. */
  const StackType := "pulumi:pulumi:Stack"

  /** The only state-document version the model accepts. */
  const Version := 3

  /**
   * A Pulumi resource: its declared fields, and every other field it was given in `extra`.
   * `outputs` is `Null` when the source holds None. `parentResource` is the back-reference
   * that `find_parents` attaches: the URN under which the parent sits in the resource table
   * of the same snapshot (see `Table`); it is never written to a file.
   */
  datatype Resource = Resource(
    dependencies: Option<seq<string>>,
    outputs: Value,
    parent: Option<string>,
    provider: Option<string>,
    parentResource: Option<string>,
    resourceType: string,
    urn: string,
    extra: map<string, Value>)

  /** Keys of the declared fields of a resource document. */
  const DeclaredFields: set<string> :=
    {"dependencies", "outputs", "parent", "provider", "parent_resource", "type", "urn"}

  /** `Resource.file_exclude`: fields never written to a resource file. */
  const FileExclude: set<string> := {"parent_resource", "sourcePosition"}

  /** Fields the resource serialiser drops when their value is falsy. */
  const FalsySkipped: set<string> := {"dependencies", "outputs", "parent", "provider"}

  /** What validation guarantees of a resource: extra fields never shadow declared ones,
      and `outputs` is a mapping or None. */
  predicate WellFormed(r: Resource) {
    r.extra.Keys !! DeclaredFields && (r.outputs.Null? || r.outputs.Object?)
  }

  /** The latest snapshot: its resources and every other field it was given. */
  datatype Latest = Latest(resources: Option<seq<Resource>>, extra: map<string, Value>)

  predicate LatestWellFormed(l: Latest) {
    "resources" !in l.extra
  }

  datatype Checkpoint = Checkpoint(stack: string, latest: Option<Latest>)

  /** The state document. Its `version` is pinned to `Version`, so it is not stored. */
  datatype State = State(checkpoint: Checkpoint)

  // ---------------------------------------------------------------------------
  // Resource.name

  /** There is a "::" separator starting at index `j` of `s`. */
  predicate IsSeparatorAt(s: string, j: int) {
    0 <= j <= |s| - 2 && s[j] == ':' && s[j + 1] == ':'
  }

  predicate HasSeparator(s: string) {
    exists j :: 0 <= j < |s| && IsSeparatorAt(s, j)
  }

  /** Start of the last "::" in `s`, or -1 when there is none. */
  function LastSeparator(s: string): (i: int)
    ensures i == -1 || IsSeparatorAt(s, i)
    ensures forall j :: i < j ==> !IsSeparatorAt(s, j)
    decreases |s|
  {
    if |s| < 2 then -1
    else if s[|s| - 2] == ':' && s[|s| - 1] == ':' then |s| - 2
    else
      var i := LastSeparator(s[..|s| - 1]);
      assert forall j :: IsSeparatorAt(s[..|s| - 1], j) <==> j < |s| - 2 && IsSeparatorAt(s, j);
      i
  }

  /** `Resource.name`: `urn.rsplit("::", 1)[-1]`. */
  function Name(urn: string): string {
    var i := LastSeparator(urn);
    if i < 0 then urn else urn[i + 2..]
  }

  /** The name is the text after the last "::" of the URN, or the whole URN when it has
      no "::"; the name itself never contains "::". */
  lemma NameIsLastSegment(urn: string)
    ensures !HasSeparator(Name(urn))
    ensures |Name(urn)| <= |urn| && urn[|urn| - |Name(urn)|..] == Name(urn)
    ensures !HasSeparator(urn) ==> Name(urn) == urn
    ensures HasSeparator(urn) ==>
              |urn| >= |Name(urn)| + 2 && urn == urn[..|urn| - |Name(urn)| - 2] + "::" + Name(urn)
  {
    var i := LastSeparator(urn);
    var name := Name(urn);
    if i >= 0 {
      forall j | 0 <= j < |name| ensures !IsSeparatorAt(name, j) {
        assert !IsSeparatorAt(urn, i + 2 + j);
      }
      assert urn == urn[..i] + "::" + name;
    } else {
      assert !HasSeparator(urn);
    }
  }

  /** A URN ending in "::" followed by a name without "::" that does not start with ':'
      has that name. */
  lemma NameOfQualified(prefix: string, name: string)
    requires !HasSeparator(name) && (name == "" || name[0] != ':')
    ensures Name(prefix + "::" + name) == name
  {
    var urn := prefix + "::" + name;
    var i := LastSeparator(urn);
    assert IsSeparatorAt(urn, |prefix|);
    forall j | |prefix| < j ensures !IsSeparatorAt(urn, j) {
      if j == |prefix| + 1 && j + 1 < |urn| {
        assert urn[j + 1] == name[0];
      } else if j >= |prefix| + 2 && IsSeparatorAt(urn, j) {
        assert IsSeparatorAt(name, j - |prefix| - 2);
      }
    }
    assert i == |prefix|;
    assert urn[i + 2..] == name;
  }

  /** The example of the name test: a fully qualified URN is named by its last segment. */
  lemma NameExample()
    ensures Name("urn:pulumi:stack::project::package:module:Class::resource-name") == "resource-name"
  {
    var name := "resource-name";
    forall j | 0 <= j < |name| ensures !IsSeparatorAt(name, j) {
      assert name[j] != ':';
    }
    NameOfQualified("urn:pulumi:stack::project::package:module:Class", name);
    assert "urn:pulumi:stack::project::package:module:Class" + "::" + name ==
      "urn:pulumi:stack::project::package:module:Class::resource-name";
  }

  // ---------------------------------------------------------------------------
  // Serialisation (model_dump)

  /** `_skip_some_falsy_values`: the dump without the listed attributes whose value is falsy. */
  function SkipSomeFalsyValues(dump: map<string, Value>, attributes: set<string>): (kept: map<string, Value>)
    ensures kept.Keys <= dump.Keys && forall k :: k in kept ==> kept[k] == dump[k]
    ensures forall k :: k in dump && (k !in attributes || !Falsy(dump[k])) ==> k in kept
    ensures forall k :: k in kept && k in attributes ==> !Falsy(kept[k])
  {
    map k | k in dump && (!Falsy(dump[k]) || k !in attributes) :: dump[k]
  }

  /** The map without the given keys, as pydantic's `exclude` leaves it. */
  function Exclude(m: map<string, Value>, keys: set<string>): map<string, Value> {
    map k | k in m && k !in keys :: m[k]
  }

  function TextValue(s: Option<string>): Value {
    match s
    case None => Null
    case Some(t) => Str(t)
  }

  function TextsValue(ss: seq<string>): Value {
    Array(seq(|ss|, i requires 0 <= i < |ss| => Str(ss[i])))
  }

  function DependenciesValue(d: Option<seq<string>>): Value {
    match d
    case None => Null
    case Some(ds) => TextsValue(ds)
  }

  /** The declared fields of a resource as pydantic dumps them (`parent_resource` aside). */
  function DeclaredValues(r: Resource): map<string, Value> {
    map[
      "dependencies" := DependenciesValue(r.dependencies),
      "outputs" := r.outputs,
      "parent" := TextValue(r.parent),
      "provider" := TextValue(r.provider),
      "type" := Str(r.resourceType),
      "urn" := Str(r.urn)
    ]
  }

  predicate HasParent(r: Resource) {
    r.parent.Some? && r.parent.value != ""
  }

  /** `resource.model_dump(exclude=Resource.file_exclude)`: the document of a resource file. */
  function FileDump(r: Resource): (doc: Value)
    ensures doc.Object?
    ensures "parent_resource" !in doc.fields && "sourcePosition" !in doc.fields
    ensures "type" in doc.fields && doc.fields["type"] == Str(r.resourceType)
    ensures "urn" in doc.fields && doc.fields["urn"] == Str(r.urn)
    ensures "dependencies" in doc.fields <==> r.dependencies.Some? && r.dependencies.value != []
    ensures "outputs" in doc.fields <==> !Falsy(r.outputs)
    ensures "parent" in doc.fields <==> HasParent(r)
    ensures "provider" in doc.fields <==> r.provider.Some? && r.provider.value != ""
    ensures forall k :: k in r.extra && k !in FileExclude && k !in DeclaredFields ==>
              k in doc.fields && doc.fields[k] == r.extra[k]
    ensures forall k :: k in doc.fields ==> k in DeclaredFields || k in r.extra
  {
    var dump := Exclude(r.extra + DeclaredValues(r), FileExclude);
    DumpOfResource(r);
    Object(SkipSomeFalsyValues(dump, FalsySkipped))
  }

  /** The dump before falsy values are skipped: every declared field but `parent_resource`,
      and every extra field that is neither declared nor excluded. */
  lemma DumpOfResource(r: Resource)
    ensures var dump := Exclude(r.extra + DeclaredValues(r), FileExclude);
      && "parent_resource" !in dump && "sourcePosition" !in dump
      && dump["type"] == Str(r.resourceType) && dump["urn"] == Str(r.urn)
      && dump["dependencies"] == DependenciesValue(r.dependencies) && dump["outputs"] == r.outputs
      && dump["parent"] == TextValue(r.parent) && dump["provider"] == TextValue(r.provider)
      && (forall k :: k in r.extra && k !in FileExclude && k !in DeclaredFields ==> k in dump && dump[k] == r.extra[k])
      && (forall k :: k in dump ==> k in DeclaredFields || k in r.extra)
    ensures "dependencies" in FalsySkipped && "outputs" in FalsySkipped
    ensures "parent" in FalsySkipped && "provider" in FalsySkipped
    ensures "type" !in FalsySkipped && "urn" !in FalsySkipped
    ensures Falsy(DependenciesValue(r.dependencies)) <==> !(r.dependencies.Some? && r.dependencies.value != [])
    ensures Falsy(TextValue(r.parent)) <==> !HasParent(r)
    ensures Falsy(TextValue(r.provider)) <==> !(r.provider.Some? && r.provider.value != "")
  {
  }

  /** The latest snapshot without its resources, as `save` excludes them. */
  function LatestDump(l: Latest): Value {
    Object(l.extra)
  }

  /** The checkpoint serialiser as written: `latest` is dropped whenever its dump is falsy,
      which also happens to a snapshot whose only field is the excluded resource list. */
  function CheckpointDumpAsWritten(c: Checkpoint): Value {
    var latest := match c.latest case None => Null case Some(l) => LatestDump(l);
    Object(SkipSomeFalsyValues(map["stack" := Str(c.stack), "latest" := latest], {"latest"}))
  }

  /** The checkpoint serialiser as intended: `latest` is dropped only when it is None. */
  function CheckpointDump(c: Checkpoint): (doc: Value)
    ensures doc.Object? && "stack" in doc.fields && doc.fields["stack"] == Str(c.stack)
    ensures "latest" in doc.fields <==> c.latest.Some?
  {
    match c.latest
    case None => Object(map["stack" := Str(c.stack)])
    case Some(l) => Object(map["stack" := Str(c.stack), "latest" := LatestDump(l)])
  }

  /** The contents of `state.yaml` as written: the state without `checkpoint.latest.resources`. */
  function StateDumpAsWritten(s: State): Value {
    Object(map["checkpoint" := CheckpointDumpAsWritten(s.checkpoint), "version" := Int(Version)])
  }

  /** The contents of `state.yaml`, with the intended checkpoint serialiser. */
  function StateDump(s: State): Value {
    Object(map["checkpoint" := CheckpointDump(s.checkpoint), "version" := Int(Version)])
  }

  // ---------------------------------------------------------------------------
  // Validation (model_validate)

  function RequiredText(m: map<string, Value>, key: string): Result<string, Error> {
    if key in m && m[key].Str? then Success(m[key].s) else Failure(InvalidDocument(key))
  }

  /** An optional string field: absent or null is None. */
  function OptionalText(m: map<string, Value>, key: string): Result<Option<string>, Error> {
    if key !in m || m[key].Null? then Success(None)
    else if m[key].Str? then Success(Some(m[key].s))
    else Failure(InvalidDocument(key))
  }

  function Texts(items: seq<Value>, key: string): Result<seq<string>, Error>
    decreases |items|
  {
    if items == [] then Success([])
    else if !items[0].Str? then Failure(InvalidDocument(key))
    else
      var rest :- Texts(items[1..], key);
      Success([items[0].s] + rest)
  }

  /** `dependencies`: absent is the default empty list, null is None. */
  function OptionalTexts(m: map<string, Value>, key: string): Result<Option<seq<string>>, Error> {
    if key !in m then Success(Some([]))
    else match m[key]
      case Null => Success(None)
      case Array(items) =>
        var texts :- Texts(items, key);
        Success(Some(texts))
      case _ => Failure(InvalidDocument(key))
  }

  /** `outputs`: a mapping, or None when absent or null. */
  function OptionalMapping(m: map<string, Value>, key: string): Result<Value, Error> {
    if key !in m || m[key].Null? then Success(Null)
    else if m[key].Object? then Success(m[key])
    else Failure(InvalidDocument(key))
  }

  /** `Resource.model_validate`. */
  function ParseResource(doc: Value): Result<Resource, Error> {
    if !doc.Object? then Failure(InvalidDocument("resource"))
    else
      var m := doc.fields;
      var resourceType :- RequiredText(m, "type");
      var urn :- RequiredText(m, "urn");
      var dependencies :- OptionalTexts(m, "dependencies");
      var outputs :- OptionalMapping(m, "outputs");
      var parent :- OptionalText(m, "parent");
      var provider :- OptionalText(m, "provider");
      if "parent_resource" in m && !m["parent_resource"].Null? then
        Failure(InvalidDocument("parent_resource"))
      else
        Success(Resource(dependencies, outputs, parent, provider, None, resourceType, urn,
                         Exclude(m, DeclaredFields)))
  }

  function ParseResources(items: seq<Value>): Result<seq<Resource>, Error>
    decreases |items|
  {
    if items == [] then Success([])
    else
      var first :- ParseResource(items[0]);
      var rest :- ParseResources(items[1..]);
      Success([first] + rest)
  }

  /** `Latest.model_validate`: absent resources are the default empty list. */
  function ParseLatest(m: map<string, Value>): Result<Latest, Error> {
    var resources :-
      if "resources" !in m then Success(Some([]))
      else match m["resources"]
        case Null => Success(None)
        case Array(items) =>
          var rs :- ParseResources(items);
          Success(Some(rs))
        case _ => Failure(InvalidDocument("resources"));
    Success(Latest(resources, Exclude(m, {"resources"})))
  }

  /** `State.model_validate`: the version must be 3; unknown checkpoint and state fields are ignored. */
  function ParseState(doc: Value): (r: Result<State, Error>)
    ensures r.Success? ==> doc.Object? && "version" in doc.fields && doc.fields["version"] == Int(Version)
  {
    if !doc.Object? then Failure(InvalidDocument("state"))
    else if !("version" in doc.fields && doc.fields["version"] == Int(Version)) then
      Failure(InvalidDocument("version"))
    else if !("checkpoint" in doc.fields && doc.fields["checkpoint"].Object?) then
      Failure(InvalidDocument("checkpoint"))
    else
      var c := doc.fields["checkpoint"].fields;
      var stack :- RequiredText(c, "stack");
      var latest :-
        if "latest" !in c || c["latest"].Null? then Success(None)
        else if c["latest"].Object? then
          var l :- ParseLatest(c["latest"].fields);
          Success(Some(l))
        else Failure(InvalidDocument("latest"));
      Success(State(Checkpoint(stack, latest)))
  }

  // ---------------------------------------------------------------------------
  // Serialisation round trips

  /** What reading back a resource file gives: `sourcePosition` and the back-reference are
      gone, and falsy optional fields come back as their defaults. */
  function Reloaded(r: Resource): Resource {
    Resource(
      if r.dependencies.Some? && r.dependencies.value != [] then r.dependencies else Some([]),
      if Falsy(r.outputs) then Null else r.outputs,
      if HasParent(r) then r.parent else None,
      if r.provider.Some? && r.provider.value != "" then r.provider else None,
      None,
      r.resourceType,
      r.urn,
      Exclude(r.extra, FileExclude))
  }

  lemma {:induction false} TextsOfTextsValue(ss: seq<string>, key: string)
    ensures Texts(TextsValue(ss).items, key) == Success(ss)
    decreases |ss|
  {
    if ss != [] {
      TextsOfTextsValue(ss[1..], key);
      assert TextsValue(ss).items[1..] == TextsValue(ss[1..]).items;
      assert [ss[0]] + ss[1..] == ss;
    }
  }

  /** Validating the file `save` writes for a resource gives the resource back, up to the
      excluded fields and the defaults of falsy optional fields. */
  lemma ResourceFileRoundTrip(r: Resource)
    requires WellFormed(r)
    ensures ParseResource(FileDump(r)) == Success(Reloaded(r))
  {
    var m := FileDump(r).fields;
    FileListsParse(r);
    FileTextsParse(r);
    assert Exclude(m, DeclaredFields) == Exclude(r.extra, FileExclude);
  }

  /** The dependencies and the outputs of a resource file read back as `Reloaded` has them. */
  lemma FileListsParse(r: Resource)
    requires WellFormed(r)
    ensures OptionalTexts(FileDump(r).fields, "dependencies") == Success(Reloaded(r).dependencies)
    ensures OptionalMapping(FileDump(r).fields, "outputs") == Success(Reloaded(r).outputs)
  {
    if r.dependencies.Some? && r.dependencies.value != [] {
      TextsOfTextsValue(r.dependencies.value, "dependencies");
    }
  }

  /** The text fields of a resource file read back as `Reloaded` has them. */
  lemma FileTextsParse(r: Resource)
    ensures RequiredText(FileDump(r).fields, "type") == Success(r.resourceType)
    ensures RequiredText(FileDump(r).fields, "urn") == Success(r.urn)
    ensures OptionalText(FileDump(r).fields, "parent") == Success(Reloaded(r).parent)
    ensures OptionalText(FileDump(r).fields, "provider") == Success(Reloaded(r).provider)
  {
  }

  /** What reading back `state.yaml` gives: the resource list is the default empty list. */
  function WithoutResources(s: State): State {
    match s.checkpoint.latest
    case None => s
    case Some(l) => State(Checkpoint(s.checkpoint.stack, Some(Latest(Some([]), l.extra))))
  }

  /** Validating the `state.yaml` that `save` writes gives the checkpoint back: the stack,
      whether there is a latest snapshot, and the snapshot's other fields. */
  lemma StateFileRoundTrip(s: State)
    requires s.checkpoint.latest.Some? ==> LatestWellFormed(s.checkpoint.latest.value)
    ensures ParseState(StateDump(s)) == Success(WithoutResources(s))
  {
    if s.checkpoint.latest.Some? {
      var l := s.checkpoint.latest.value;
      assert Exclude(l.extra, {"resources"}) == l.extra;
    }
  }

  /** As written, a latest snapshot that holds nothing but its resources does not survive
      `state.yaml`: it reads back as a checkpoint without a latest snapshot. */
  lemma LatestLostAsWritten(s: State)
    requires s.checkpoint.latest.Some? && s.checkpoint.latest.value.extra == map[]
    ensures ParseState(StateDumpAsWritten(s)) == Success(State(Checkpoint(s.checkpoint.stack, None)))
  {
    var c := StateDumpAsWritten(s).fields["checkpoint"].fields;
    assert "latest" !in c;
  }

  // ---------------------------------------------------------------------------
  // Resource.find_parents

  /** The URN-keyed table that `find_parents` fills: a later resource with the same URN
      replaces an earlier one. */
  function Table(rs: seq<Resource>): (table: map<string, Resource>)
    ensures forall k :: k in table ==> table[k].urn == k
    ensures table.Keys == set r | r in rs :: r.urn
    decreases |rs|
  {
    if rs == [] then map[]
    else
      var last := rs[|rs| - 1];
      assert rs == rs[..|rs| - 1] + [last];
      Table(rs[..|rs| - 1])[last.urn := last]
  }

  /** The URNs of the resources, each once, in the order of their first occurrence. */
  function UrnOrder(rs: seq<Resource>): (order: seq<string>)
    ensures forall k :: k in order <==> k in Table(rs)
    ensures forall j, l :: 0 <= j < l < |order| ==> order[j] != order[l]
    decreases |rs|
  {
    if rs == [] then []
    else
      var order := UrnOrder(rs[..|rs| - 1]);
      var u := rs[|rs| - 1].urn;
      if u in order then order else order + [u]
  }

  lemma TableStep(rs: seq<Resource>, i: nat)
    requires i < |rs|
    ensures Table(rs[..i + 1]) == Table(rs[..i])[rs[i].urn := rs[i]]
    ensures UrnOrder(rs[..i + 1]) ==
              if rs[i].urn in Table(rs[..i]) then UrnOrder(rs[..i]) else UrnOrder(rs[..i]) + [rs[i].urn]
  {
    assert rs[..i + 1][..i] == rs[..i];
  }

  /** `find_parents`' second loop on one resource: link it to its parent by URN. */
  function Link(table: map<string, Resource>, r: Resource): Result<Resource, Error> {
    if HasParent(r) then
      if r.parent.value in table then Success(r.(parentResource := Some(r.parent.value)))
      else Failure(UnknownParent(r.parent.value))
    else Success(r)
  }

  function LinkAll(table: map<string, Resource>, keys: seq<string>): Result<seq<Resource>, Error>
    requires forall k :: k in keys ==> k in table
    decreases |keys|
  {
    if keys == [] then Success([])
    else
      var first :- Link(table, table[keys[0]]);
      var rest :- LinkAll(table, keys[1..]);
      Success([first] + rest)
  }

  /** What `find_parents` returns for a resource list. */
  function ParentsFound(rs: seq<Resource>): Result<seq<Resource>, Error> {
    LinkAll(Table(rs), UrnOrder(rs))
  }

  lemma {:induction false} LinkAllSucceeds(table: map<string, Resource>, keys: seq<string>)
    requires forall k :: k in keys ==> k in table
    requires forall j :: 0 <= j < |keys| ==> Link(table, table[keys[j]]).Success?
    ensures LinkAll(table, keys).Success?
    ensures |LinkAll(table, keys).value| == |keys|
    ensures forall j :: 0 <= j < |keys| ==> LinkAll(table, keys).value[j] == Link(table, table[keys[j]]).value
    decreases |keys|
  {
    if keys != [] {
      LinkAllSucceeds(table, keys[1..]);
    }
  }

  lemma {:induction false} LinkAllFails(table: map<string, Resource>, keys: seq<string>, j: nat)
    requires forall k :: k in keys ==> k in table
    requires j < |keys| && Link(table, table[keys[j]]).Failure?
    requires forall l :: 0 <= l < j ==> Link(table, table[keys[l]]).Success?
    ensures LinkAll(table, keys) == Failure(Link(table, table[keys[j]]).error)
    decreases j
  {
    if j > 0 {
      LinkAllFails(table, keys[1..], j - 1);
    }
  }

  /** `current` is the table after the second loop of `find_parents` has linked the first
      `j` resources of `keys`, and left the others as they were. */
  ghost predicate LinkedUpTo(table: map<string, Resource>, current: map<string, Resource>, keys: seq<string>, j: int)
  {
    && 0 <= j <= |keys|
    && (forall k :: k in keys ==> k in table)
    && (forall l, m :: 0 <= l < m < |keys| ==> keys[l] != keys[m])
    && current.Keys == table.Keys
    && (forall l :: 0 <= l < j ==> Link(table, table[keys[l]]) == Success(current[keys[l]]))
    && (forall l :: j <= l < |keys| ==> current[keys[l]] == table[keys[l]])
  }

  lemma LinkedNext(table: map<string, Resource>, current: map<string, Resource>, keys: seq<string>, j: int)
    requires LinkedUpTo(table, current, keys, j) && j < |keys|
    ensures keys[j] in current && current[keys[j]] == table[keys[j]]
    ensures current.Keys == table.Keys
  {
  }

  lemma LinkedStep(table: map<string, Resource>, current: map<string, Resource>, keys: seq<string>, j: int)
    requires LinkedUpTo(table, current, keys, j) && j < |keys|
    requires Link(table, table[keys[j]]).Success?
    ensures LinkedUpTo(table, current[keys[j] := Link(table, table[keys[j]]).value], keys, j + 1)
  {
  }

  /** A resource without a parent is left as it is. */
  lemma LinkedKeep(table: map<string, Resource>, current: map<string, Resource>, keys: seq<string>, j: int)
    requires LinkedUpTo(table, current, keys, j) && j < |keys|
    requires !HasParent(table[keys[j]])
    ensures LinkedUpTo(table, current, keys, j + 1)
  {
  }

  lemma LinkedFails(table: map<string, Resource>, current: map<string, Resource>, keys: seq<string>, j: int)
    requires LinkedUpTo(table, current, keys, j) && j < |keys|
    requires Link(table, table[keys[j]]).Failure?
    ensures LinkAll(table, keys) == Failure(Link(table, table[keys[j]]).error)
  {
    LinkAllFails(table, keys, j);
  }

  lemma LinkedAll(table: map<string, Resource>, current: map<string, Resource>, keys: seq<string>)
    requires LinkedUpTo(table, current, keys, |keys|)
    ensures LinkAll(table, keys) == Success(seq(|keys|, l requires 0 <= l < |keys| => current[keys[l]]))
  {
    LinkAllSucceeds(table, keys);
    var linked := seq(|keys|, l requires 0 <= l < |keys| => current[keys[l]]);
    assert linked == LinkAll(table, keys).value;
  }

  /** The first loop of `find_parents`: copy the resources into a URN-keyed table. A dict
      keeps its keys in insertion order, which `order` records. */
  method IndexByUrn(resources: seq<Resource>) returns (urn2resource: map<string, Resource>, order: seq<string>)
    ensures urn2resource == Table(resources)
    ensures order == UrnOrder(resources)
  {
    urn2resource := map[];
    order := [];
    for i := 0 to |resources|
      invariant urn2resource == Table(resources[..i])
      invariant order == UrnOrder(resources[..i])
    {
      var r := resources[i];
      TableStep(resources, i);
      if r.urn !in urn2resource {
        order := order + [r.urn];
      }
      urn2resource := urn2resource[r.urn := r];
      assert urn2resource == Table(resources[..i + 1]);
      assert order == UrnOrder(resources[..i + 1]);
    }
    assert resources[..|resources|] == resources;
  }

  /** `Resource.find_parents`: copies the resources into a URN-keyed table, then points each
      copy that names a parent at the table's resource with that URN. */
  method FindParents(resources: seq<Resource>) returns (result: Result<seq<Resource>, Error>)
    ensures result == ParentsFound(resources)
  {
    var urn2resource, order := IndexByUrn(resources);
    assert LinkedUpTo(urn2resource, urn2resource, order, 0);
    ghost var table := urn2resource;
    for j := 0 to |order|
      invariant LinkedUpTo(table, urn2resource, order, j)
    {
      var key := order[j];
      LinkedNext(table, urn2resource, order, j);
      var resource := urn2resource[key];
      ghost var before := urn2resource;
      if resource.parent.Some? && resource.parent.value != "" {
        if resource.parent.value !in urn2resource {
          LinkedFails(table, urn2resource, order, j);
          return Failure(UnknownParent(resource.parent.value));
        }
        urn2resource := urn2resource[key := resource.(parentResource := Some(resource.parent.value))];
        LinkedStep(table, before, order, j);
      } else {
        LinkedKeep(table, before, order, j);
      }
    }
    LinkedAll(table, urn2resource, order);
    result := Success(seq(|order|, l requires 0 <= l < |order| => urn2resource[order[l]]));
  }

  // ---------------------------------------------------------------------------
  // Properties of find_parents

  /** A resource that names a parent absent from the table. */
  predicate Dangling(table: map<string, Resource>, r: Resource) {
    HasParent(r) && r.parent.value !in table
  }

  predicate SomeDangling(table: map<string, Resource>) {
    exists k :: k in table && Dangling(table, table[k])
  }

  lemma {:induction false} LinkAllFailure(table: map<string, Resource>, keys: seq<string>)
    requires forall k :: k in keys ==> k in table
    ensures LinkAll(table, keys).Failure? <==> exists j :: 0 <= j < |keys| && Dangling(table, table[keys[j]])
    ensures LinkAll(table, keys).Failure? ==>
              exists j :: 0 <= j < |keys| && Dangling(table, table[keys[j]]) &&
                LinkAll(table, keys).error == UnknownParent(table[keys[j]].parent.value)
    decreases |keys|
  {
    if keys != [] {
      LinkAllFailure(table, keys[1..]);
      if Link(table, table[keys[0]]).Success? {
        forall j | 1 <= j < |keys| ensures keys[j] == keys[1..][j - 1] { }
      }
    }
  }

  /** `find_parents` raises exactly when some resource of the table names a parent whose URN
      is not in the table, and the error names such a parent. */
  lemma ParentsFoundFails(rs: seq<Resource>)
    ensures ParentsFound(rs).Failure? <==> SomeDangling(Table(rs))
    ensures ParentsFound(rs).Failure? ==>
              exists k :: k in Table(rs) && Dangling(Table(rs), Table(rs)[k]) &&
                ParentsFound(rs).error == UnknownParent(Table(rs)[k].parent.value)
  {
    var table := Table(rs);
    var order := UrnOrder(rs);
    LinkAllFailure(table, order);
    assert ParentsFound(rs) == LinkAll(table, order);
    if ParentsFound(rs).Failure? {
      var j :| 0 <= j < |order| && Dangling(table, table[order[j]]) &&
               LinkAll(table, order).error == UnknownParent(table[order[j]].parent.value);
      var k := order[j];
      assert k in table && Dangling(table, table[k]) && ParentsFound(rs).error == UnknownParent(table[k].parent.value);
    } else {
      forall k | k in table ensures !Dangling(table, table[k]) {
        assert k in order;
        var j :| 0 <= j < |order| && order[j] == k;
      }
    }
  }

  /** On success `find_parents` returns one resource per distinct URN, in the order of first
      occurrence, holding the contents of the last resource with that URN; a resource that
      names a parent is linked to it, and the parent is in the table. */
  lemma ParentsFoundLinks(rs: seq<Resource>)
    requires ParentsFound(rs).Success?
    ensures |ParentsFound(rs).value| == |UrnOrder(rs)|
    ensures forall j :: 0 <= j < |UrnOrder(rs)| ==>
              var out := ParentsFound(rs).value[j];
              var r := Table(rs)[UrnOrder(rs)[j]];
              && out.urn == UrnOrder(rs)[j]
              && out.(parentResource := None) == r.(parentResource := None)
              && (HasParent(r) ==> r.parent.value in Table(rs) && out.parentResource == Some(r.parent.value))
              && (!HasParent(r) ==> out.parentResource == r.parentResource)
  {
    var table := Table(rs);
    var order := UrnOrder(rs);
    LinkAllFailure(table, order);
    forall j | 0 <= j < |order| ensures Link(table, table[order[j]]).Success? {
      assert !Dangling(table, table[order[j]]);
    }
    LinkAllSucceeds(table, order);
    forall j | 0 <= j < |order|
      ensures var out := ParentsFound(rs).value[j];
        var r := table[order[j]];
        && out.urn == order[j]
        && out.(parentResource := None) == r.(parentResource := None)
        && (HasParent(r) ==> r.parent.value in table && out.parentResource == Some(r.parent.value))
        && (!HasParent(r) ==> out.parentResource == r.parentResource)
    {
      LinkKeeps(table, table[order[j]]);
    }
  }

  /** Linking a resource only sets its parent link, to the parent it names. */
  lemma LinkKeeps(table: map<string, Resource>, r: Resource)
    requires Link(table, r).Success?
    ensures var out := Link(table, r).value;
      && out.urn == r.urn
      && out.(parentResource := None) == r.(parentResource := None)
      && (HasParent(r) ==> r.parent.value in table && out.parentResource == Some(r.parent.value))
      && (!HasParent(r) ==> out.parentResource == r.parentResource)
  {
  }

  /** Taking more resources only appends to the URN order: a URN's place is fixed by its
      first occurrence. */
  lemma {:induction false} UrnOrderExtends(rs: seq<Resource>, i: nat)
    requires i <= |rs|
    ensures UrnOrder(rs[..i]) <= UrnOrder(rs)
    decreases |rs|
  {
    if i < |rs| {
      var front := rs[..|rs| - 1];
      UrnOrderExtends(front, i);
      assert front[..i] == rs[..i];
    } else {
      assert rs[..i] == rs;
    }
  }

  /** The table holds the last resource given for each URN. */
  lemma {:induction false} TableKeepsLast(rs: seq<Resource>, i: nat)
    requires i < |rs|
    requires forall j :: i < j < |rs| ==> rs[j].urn != rs[i].urn
    ensures Table(rs)[rs[i].urn] == rs[i]
    decreases |rs|
  {
    if i < |rs| - 1 {
      var front := rs[..|rs| - 1];
      TableKeepsLast(front, i);
    }
  }

  predicate DistinctUrns(rs: seq<Resource>) {
    forall i, j :: 0 <= i < j < |rs| ==> rs[i].urn != rs[j].urn
  }

  function Urns(rs: seq<Resource>): (urns: seq<string>)
    ensures |urns| == |rs| && forall i :: 0 <= i < |rs| ==> urns[i] == rs[i].urn
  {
    seq(|rs|, i requires 0 <= i < |rs| => rs[i].urn)
  }

  /** With distinct URNs nothing is merged: the URN order is the input order. */
  lemma {:induction false} UrnOrderOfDistinct(rs: seq<Resource>)
    requires DistinctUrns(rs)
    ensures UrnOrder(rs) == Urns(rs)
    decreases |rs|
  {
    if rs != [] {
      var front := rs[..|rs| - 1];
      var u := rs[|rs| - 1].urn;
      UrnOrderOfDistinct(front);
      assert u !in Urns(front) by {
        forall i | 0 <= i < |front| ensures Urns(front)[i] != u {
          assert front[i] == rs[i];
        }
      }
      assert UrnOrder(rs) == UrnOrder(front) + [u];
      assert Urns(rs) == Urns(front) + [u];
    }
  }

  /** With distinct URNs, `find_parents` links each resource in place. */
  lemma ParentsFoundOfDistinct(rs: seq<Resource>)
    requires DistinctUrns(rs)
    requires forall i :: 0 <= i < |rs| && HasParent(rs[i]) ==> rs[i].parent.value in Urns(rs)
    ensures ParentsFound(rs).Success?
    ensures |ParentsFound(rs).value| == |rs|
    ensures forall i :: 0 <= i < |rs| ==>
              ParentsFound(rs).value[i] ==
                if HasParent(rs[i]) then rs[i].(parentResource := Some(rs[i].parent.value)) else rs[i]
  {
    var table := Table(rs);
    var order := UrnOrder(rs);
    UrnOrderOfDistinct(rs);
    forall i | 0 <= i < |rs| ensures table[order[i]] == rs[i] {
      TableKeepsLast(rs, i);
    }
    forall k | k in Urns(rs) ensures k in table {
      var i :| 0 <= i < |rs| && Urns(rs)[i] == k;
      assert rs[i] in rs;
    }
    LinkAllSucceeds(table, order);
    forall i | 0 <= i < |rs|
      ensures ParentsFound(rs).value[i] ==
                if HasParent(rs[i]) then rs[i].(parentResource := Some(rs[i].parent.value)) else rs[i]
    {
      assert ParentsFound(rs).value[i] == Link(table, table[order[i]]).value;
    }
  }
}
