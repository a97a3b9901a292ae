/** Where a Pulumi stack state file lives in a file-based backend. */
module StateFile {
  import Paths

  /** `State.path`: `<backend>/.pulumi/stacks/<project>/<stack>.json`. */
  function Path(backend: Paths.Path, project: string, stack: string): Paths.Path {
    backend + [".pulumi", "stacks"] + Paths.Parts(project) + Paths.Parts(stack + ".json")
  }

  /** For a project and a stack that are single path segments, the state file is the
      `<stack>.json` entry of the project's directory under `.pulumi/stacks`. */
  lemma PathOfSegments(backend: Paths.Path, project: string, stack: string)
    requires Paths.IsSegment(project) && '/' !in stack
    ensures Path(backend, project, stack) == backend + [".pulumi", "stacks", project, stack + ".json"]
  {
    Paths.PartsOfSegment(project);
    assert Paths.IsSegment(stack + ".json") by {
      assert (stack + ".json")[|stack + ".json"| - 1] == 'n';
    }
    Paths.PartsOfSegment(stack + ".json");
  }

  /** Stacks with single-segment names never share a state file. */
  lemma PathInjective(backend: Paths.Path, project1: string, stack1: string, project2: string, stack2: string)
    requires Paths.IsSegment(project1) && '/' !in stack1
    requires Paths.IsSegment(project2) && '/' !in stack2
    requires Path(backend, project1, stack1) == Path(backend, project2, stack2)
    ensures project1 == project2 && stack1 == stack2
  {
    PathOfSegments(backend, project1, stack1);
    PathOfSegments(backend, project2, stack2);
    var p1 := Path(backend, project1, stack1);
    assert p1[|backend| + 2] == project1;
    assert p1[|backend| + 3] == stack1 + ".json";
    assert Path(backend, project2, stack2)[|backend| + 3] == stack2 + ".json";
    assert stack1 == (stack1 + ".json")[..|stack1 + ".json"| - 5];
  }
}
