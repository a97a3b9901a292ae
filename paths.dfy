/**
 * The part of pathlib the splitter relies on: joining text with `/`, taking the parent,
 * and removing a file suffix with `with_suffix("")`.
 */
module Paths {
  import opened Strings

  /** A relative path as its sequence of parts; `[]` is the empty path `.`. */
  type Path = seq<string>

  /** A part that pathlib keeps as written: non-empty, not ".", without a separator. */
  predicate IsSegment(part: string) {
    part != "" && part != "." && '/' !in part
  }

  /** The parts pathlib makes of `text` when it is joined with `/`: the text is cut at
      every '/', and empty and "." pieces are dropped. */
  function Parts(text: string): (parts: Path)
    ensures forall i :: 0 <= i < |parts| ==> IsSegment(parts[i])
  {
    SplitPieces(text, '/');
    KeepSegments(Split(text, '/'))
  }

  function KeepSegments(pieces: seq<string>): (parts: Path)
    requires forall i :: 0 <= i < |pieces| ==> '/' !in pieces[i]
    ensures forall i :: 0 <= i < |parts| ==> IsSegment(parts[i])
    decreases |pieces|
  {
    if pieces == [] then []
    else if pieces[0] == "" || pieces[0] == "." then KeepSegments(pieces[1..])
    else [pieces[0]] + KeepSegments(pieces[1..])
  }

  lemma {:induction false} KeepSegmentsKeepsLast(pieces: seq<string>)
    requires pieces != [] && IsSegment(pieces[|pieces| - 1])
    requires forall i :: 0 <= i < |pieces| ==> '/' !in pieces[i]
    ensures KeepSegments(pieces) != []
    ensures KeepSegments(pieces)[|KeepSegments(pieces)| - 1] == pieces[|pieces| - 1]
    decreases |pieces|
  {
    if |pieces| > 1 {
      KeepSegmentsKeepsLast(pieces[1..]);
    }
  }

  /** Joining text that ends in a suffix such as ".yaml" appends at least one part, the
      last of which ends in that suffix. */
  lemma PartsOfSuffixed(text: string, ext: string)
    requires ext != "" && ext != "." && '/' !in ext
    ensures Parts(text + ext) != []
    ensures var parts := Parts(text + ext);
      |parts[|parts| - 1]| >= |ext| && parts[|parts| - 1][|parts[|parts| - 1]| - |ext|..] == ext
  {
    var pieces := Split(text, '/');
    SplitAppend(text, '/', ext);
    var last := pieces[|pieces| - 1] + ext;
    SplitPieces(text, '/');
    SplitPieces(text + ext, '/');
    assert IsSegment(last);
    KeepSegmentsKeepsLast(Split(text + ext, '/'));
  }

  /** Joining a single segment appends exactly that segment. */
  lemma PartsOfSegment(part: string)
    requires IsSegment(part)
    ensures Parts(part) == [part]
  {
    SplitWithoutSeparator(part, '/');
    assert KeepSegments([part]) == [part] + KeepSegments([]);
  }

  /** Joining `a/b` for two segments appends the two segments. */
  lemma PartsOfTwoSegments(a: string, b: string)
    requires IsSegment(a) && IsSegment(b)
    ensures Parts(a + "/" + b) == [a, b]
  {
    SplitAfterPiece(a, '/', b);
    SplitWithoutSeparator(b, '/');
    assert a + "/" + b == a + ['/'] + b;
    assert Split(a + "/" + b, '/') == [a, b];
    assert [a, b][1..] == [b];
    assert KeepSegments([b]) == [b] + KeepSegments([]);
  }

  /** `e` is `d` or one of its ancestors. */
  predicate IsPrefix(e: Path, d: Path) {
    |e| <= |d| && d[..|e|] == e
  }

  /** pathlib's `parent`; the parent of `.` is `.`. */
  function Parent(p: Path): Path {
    if p == [] then [] else p[..|p| - 1]
  }

  /** The last part of a path with its suffix removed, as `with_suffix("")` does: the
      suffix starts at the last '.', unless that dot is the first or the last character. */
  function Stem(name: string): string {
    var i := LastIndexOf(name, '.');
    if 0 < i < |name| - 1 then name[..i] else name
  }

  /** pathlib's `with_suffix("")`: only the last part changes. */
  function WithoutSuffix(p: Path): (q: Path)
    requires p != []
    ensures |q| == |p| && q[..|p| - 1] == p[..|p| - 1]
    ensures q[|p| - 1] == Stem(p[|p| - 1])
  {
    p[..|p| - 1] + [Stem(p[|p| - 1])]
  }

  /** Removing the suffix of `stem + "." + ext` gives back `stem`, when both are non-empty
      and `ext` has no dot. */
  lemma StemOfSuffixed(stem: string, ext: string)
    requires stem != "" && ext != "" && '.' !in ext
    ensures Stem(stem + "." + ext) == stem
  {
    var name := stem + "." + ext;
    var i := LastIndexOf(name, '.');
    assert name[|stem|] == '.';
    forall j | |stem| < j < |name| ensures name[j] != '.' {
      assert name[j] == ext[j - |stem| - 1];
    }
    assert i == |stem|;
    assert name[..i] == stem;
  }

  /** A name that is only a suffix, such as ".yaml", keeps it. */
  lemma StemOfBareSuffix(ext: string)
    requires '.' !in ext
    ensures Stem("." + ext) == "." + ext
  {
    var name := "." + ext;
    forall j | 0 < j < |name| ensures name[j] != '.' {
      assert name[j] == ext[j - 1];
    }
    assert name[0] == '.';
    assert LastIndexOf(name, '.') == 0;
  }
}
