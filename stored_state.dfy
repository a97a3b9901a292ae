/** Fully qualified stack names and their textual form. */
module StoredState {
  import opened Wrappers
  import opened Errors
  import opened Strings

  /** A stack name qualified by its project. */
  datatype StackName = StackName(project: string, stack: string)

  /** `StackName.__str__`: the project and the stack, joined by a slash. */
  function ToString(name: StackName): string {
    name.project + "/" + name.stack
  }

  /** `StackName.from_path`: "project/stack", optionally behind the literal "organization/"
      segment that file-based backends put in front; anything else is rejected. */
  function FromPath(path: string): Result<StackName, Error> {
    var pieces := Split(path, '/');
    var pieces := if |pieces| == 3 && pieces[0] == "organization" then pieces[1..] else pieces;
    if |pieces| != 2 then Failure(MalformedStackPath(path))
    else Success(StackName(pieces[0], pieces[1]))
  }

  predicate Plain(name: StackName) {
    '/' !in name.project && '/' !in name.stack
  }

  lemma SplitTwo(a: string, b: string)
    requires '/' !in a && '/' !in b
    ensures Split(a + "/" + b, '/') == [a, b]
  {
    SplitAfterPiece(a, '/', b);
    SplitWithoutSeparator(b, '/');
    assert a + "/" + b == a + ['/'] + b;
  }

  lemma SplitThree(a: string, b: string, c: string)
    requires '/' !in a && '/' !in b && '/' !in c
    ensures Split(a + "/" + b + "/" + c, '/') == [a, b, c]
  {
    SplitTwo(b, c);
    SplitAfterPiece(a, '/', b + "/" + c);
    assert a + "/" + b + "/" + c == a + ['/'] + (b + "/" + c);
  }

  /** Reading back the text of a stack name whose parts hold no slash gives the name. */
  lemma FromPathOfString(name: StackName)
    requires Plain(name)
    ensures FromPath(ToString(name)) == Success(name)
  {
    SplitTwo(name.project, name.stack);
  }

  /** The "organization/" prefix is dropped. */
  lemma FromPathOfOrganization(name: StackName)
    requires Plain(name)
    ensures FromPath("organization/" + ToString(name)) == Success(name)
  {
    SplitThree("organization", name.project, name.stack);
    assert "organization/" + ToString(name) == "organization" + "/" + name.project + "/" + name.stack;
  }

  /** Three segments are accepted only behind "organization". */
  lemma FromPathOfThree(a: string, b: string, c: string)
    requires '/' !in a && '/' !in b && '/' !in c
    ensures FromPath(a + "/" + b + "/" + c) ==
              if a == "organization" then Success(StackName(b, c))
              else Failure(MalformedStackPath(a + "/" + b + "/" + c))
  {
    SplitThree(a, b, c);
  }

  /** A path without a slash is a single segment, and is rejected. */
  lemma FromPathOfOne(path: string)
    requires '/' !in path
    ensures FromPath(path).Failure?
  {
    SplitWithoutSeparator(path, '/');
  }

  /** Every accepted path is the text of the name it gives, possibly behind "organization/",
      and the name's parts hold no slash. With the two lemmas above this characterises the
      accepted paths exactly. */
  lemma FromPathAccepts(path: string)
    requires FromPath(path).Success?
    ensures Plain(FromPath(path).value)
    ensures path == ToString(FromPath(path).value) || path == "organization/" + ToString(FromPath(path).value)
  {
    var pieces := Split(path, '/');
    JoinSplit(path, '/');
    SplitPieces(path, '/');
    if |pieces| == 3 && pieces[0] == "organization" {
      assert JoinWith(pieces[1..], '/') == pieces[1] + "/" + pieces[2] by {
        assert pieces[1..][1..] == [pieces[2]];
      }
      assert path == "organization" + "/" + (pieces[1] + "/" + pieces[2]);
    } else {
      assert |pieces| == 2;
      assert JoinWith(pieces[1..], '/') == pieces[1];
    }
  }

  /** The examples of the stack-name tests: "foo/bar" and "organization/foo/bar" name the
      stack "bar" of project "foo", and "acme/foo/bar" is rejected. */
  lemma FromPathExampleShort()
    ensures FromPath("foo/bar") == Success(StackName("foo", "bar"))
  {
    var name := StackName("foo", "bar");
    FromPathOfString(name);
    assert ToString(name) == "foo/bar";
  }

  lemma FromPathExampleOrganization()
    ensures FromPath("organization/foo/bar") == Success(StackName("foo", "bar"))
  {
    var name := StackName("foo", "bar");
    FromPathOfOrganization(name);
    assert "organization/" + ToString(name) == "organization/foo/bar";
  }

  lemma FromPathExampleRejected()
    ensures FromPath("acme/foo/bar").Failure?
  {
    FromPathOfThree("acme", "foo", "bar");
    assert "acme" + "/" + "foo" + "/" + "bar" == "acme/foo/bar";
  }
}
