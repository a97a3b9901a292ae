/** Python's `str.split(sep)` and its inverse `sep.join(...)`, for a one-character separator. */
module Strings {

  /** `s.split(sep)`: the pieces between separators, empty pieces included. */
  function Split(s: string, sep: char): (pieces: seq<string>)
    ensures |pieces| >= 1
    decreases |s|
  {
    if s == [] then [""]
    else
      var rest := Split(s[1..], sep);
      if s[0] == sep then [""] + rest
      else [[s[0]] + rest[0]] + rest[1..]
  }

  /** No piece holds the separator. */
  lemma {:induction false} SplitPieces(s: string, sep: char)
    ensures forall i :: 0 <= i < |Split(s, sep)| ==> sep !in Split(s, sep)[i]
    decreases |s|
  {
    if s != [] {
      SplitPieces(s[1..], sep);
      var rest := Split(s[1..], sep);
      if s[0] != sep {
        assert sep !in [s[0]] + rest[0];
      }
    }
  }

  /** `sep.join(pieces)`. */
  function JoinWith(pieces: seq<string>, sep: char): string
    decreases |pieces|
  {
    if |pieces| == 0 then ""
    else if |pieces| == 1 then pieces[0]
    else pieces[0] + [sep] + JoinWith(pieces[1..], sep)
  }

  /** Joining the pieces back with the separator gives the original text. */
  lemma {:induction false} JoinSplit(s: string, sep: char)
    ensures JoinWith(Split(s, sep), sep) == s
    decreases |s|
  {
    if s != [] {
      var rest := Split(s[1..], sep);
      JoinSplit(s[1..], sep);
      if s[0] == sep {
        assert Split(s, sep) == [""] + rest;
        assert ([""] + rest)[1..] == rest;
      } else {
        var pieces := Split(s, sep);
        assert pieces == [[s[0]] + rest[0]] + rest[1..];
        if |rest| == 1 {
          assert JoinWith(rest, sep) == rest[0];
        } else {
          assert JoinWith(rest, sep) == rest[0] + [sep] + JoinWith(rest[1..], sep);
          assert pieces[1..] == rest[1..];
        }
      }
    }
  }

  /** Text without the separator is a single piece. */
  lemma {:induction false} SplitWithoutSeparator(s: string, sep: char)
    requires sep !in s
    ensures Split(s, sep) == [s]
    decreases |s|
  {
    if s != [] {
      SplitWithoutSeparator(s[1..], sep);
      assert [s[0]] + s[1..] == s;
    }
  }

  /** A separator-free first piece followed by a separator splits off as that piece. */
  lemma {:induction false} SplitAfterPiece(a: string, sep: char, b: string)
    requires sep !in a
    ensures Split(a + [sep] + b, sep) == [a] + Split(b, sep)
    decreases |a|
  {
    var s := a + [sep] + b;
    if a == [] {
      assert s[0] == sep && s[1..] == b;
    } else {
      assert s[0] == a[0];
      assert s[1..] == a[1..] + [sep] + b;
      SplitAfterPiece(a[1..], sep, b);
      assert [a[0]] + a[1..] == a;
    }
  }

  /** The pieces with `b` appended to the last one. */
  function AppendToLast(pieces: seq<string>, b: string): seq<string>
    requires pieces != []
  {
    pieces[..|pieces| - 1] + [pieces[|pieces| - 1] + b]
  }

  lemma AppendToLastCons(x: string, pieces: seq<string>, b: string)
    requires pieces != []
    ensures AppendToLast([x] + pieces, b) == [x] + AppendToLast(pieces, b)
  {
    assert ([x] + pieces)[..|pieces|] == [x] + pieces[..|pieces| - 1];
  }

  /** Splitting text that starts with the character `c`. */
  lemma SplitCons(c: char, s: string, sep: char)
    ensures Split([c] + s, sep) ==
      if c == sep then [""] + Split(s, sep) else [[c] + Split(s, sep)[0]] + Split(s, sep)[1..]
  {
    assert ([c] + s)[1..] == s;
  }

  /** One character in front keeps the last piece last: if appending `b` to `tail` extends
      its last piece, so it does for `[c] + tail`. */
  lemma SplitAppendCons(c: char, tail: string, sep: char, b: string)
    requires Split(tail + b, sep) == AppendToLast(Split(tail, sep), b)
    ensures Split([c] + (tail + b), sep) == AppendToLast(Split([c] + tail, sep), b)
  {
    var rest := Split(tail, sep);
    SplitCons(c, tail, sep);
    SplitCons(c, tail + b, sep);
    if c == sep {
      AppendToLastCons("", rest, b);
    } else if |rest| == 1 {
      assert [c] + (rest[0] + b) == [c] + rest[0] + b;
    } else {
      SplitAppendLonger(c, rest, b);
    }
  }

  lemma SplitAppendLonger(c: char, rest: seq<string>, b: string)
    requires |rest| > 1
    ensures var restB := AppendToLast(rest, b);
      [[c] + restB[0]] + restB[1..] == AppendToLast([[c] + rest[0]] + rest[1..], b)
  {
    AppendToLastCons(rest[0], rest[1..], b);
    assert [rest[0]] + rest[1..] == rest;
    AppendToLastCons([c] + rest[0], rest[1..], b);
  }

  /** Appending separator-free text extends the last piece. */
  lemma {:induction false} SplitAppend(a: string, sep: char, b: string)
    requires sep !in b
    ensures Split(a + b, sep) == AppendToLast(Split(a, sep), b)
    decreases |a|
  {
    if a == [] {
      SplitWithoutSeparator(b, sep);
      assert a + b == b;
    } else {
      SplitAppend(a[1..], sep, b);
      SplitAppendCons(a[0], a[1..], sep, b);
      assert a == [a[0]] + a[1..];
      assert a + b == [a[0]] + (a[1..] + b);
    }
  }

  /** Index of the last occurrence of `c` in `s`, or -1 (Python's `s.rfind(c)`). */
  function LastIndexOf(s: string, c: char): (i: int)
    ensures -1 <= i < |s|
    ensures i >= 0 ==> s[i] == c
    ensures forall j :: i < j < |s| ==> s[j] != c
    decreases |s|
  {
    if s == [] then -1
    else if s[|s| - 1] == c then |s| - 1
    else LastIndexOf(s[..|s| - 1], c)
  }
}
