/** Splitting a string on one separator character, as `str.split(sep)` does, and the
    file name that `load_file` shows as the chart title: the last `/`-separated segment. */
module Paths {

  /** The pieces of `s` between occurrences of `sep`. Like Python's `s.split(sep)` there is
      always at least one piece, and empty pieces are kept (at either end and between two
      adjacent separators). */
  function Split(s: string, sep: char): (parts: seq<string>)
    ensures |parts| >= 1
    ensures forall i :: 0 <= i < |parts| ==> sep !in parts[i]
    ensures sep !in s ==> parts == [s]
    ensures |parts| == 1 ==> parts[0] == s
    decreases |s|
  {
    if s == [] then [""]
    else
      var rest := Split(s[1..], sep);
      if s[0] == sep then [""] + rest
      else
        assert s == [s[0]] + s[1..];
        [[s[0]] + rest[0]] + rest[1..]
  }

  /** The pieces glued back together with `sep` between consecutive pieces (`sep.join(parts)`). */
  function Join(parts: seq<string>, sep: char): (s: string)
    requires |parts| >= 1
    ensures |parts| > 1 ==> sep in s
  {
    if |parts| == 1 then parts[0]
    else
      assert (parts[0] + [sep] + Join(parts[1..], sep))[|parts[0]|] == sep;
      parts[0] + [sep] + Join(parts[1..], sep)
  }

  /** Splitting loses nothing: joining the pieces gives back the original string. */
  lemma {:induction false} JoinSplit(s: string, sep: char)
    ensures Join(Split(s, sep), sep) == s
    decreases |s|
  {
    if s != [] {
      var rest := Split(s[1..], sep);
      JoinSplit(s[1..], sep);
      if s[0] == sep {
        JoinFront("", sep, rest);
        assert [sep] + s[1..] == s;
      } else if |rest| == 1 {
        assert s == [s[0]] + s[1..];
      } else {
        JoinFront([s[0]] + rest[0], sep, rest[1..]);
        JoinFront(rest[0], sep, rest[1..]);
        assert [rest[0]] + rest[1..] == rest;
        assert s == [s[0]] + s[1..];
      }
    }
  }

  /** Joining a piece in front of at least one more piece puts a separator between them. */
  lemma JoinFront(piece: string, sep: char, more: seq<string>)
    requires |more| >= 1
    ensures Join([piece] + more, sep) == piece + [sep] + Join(more, sep)
  {
  }

  /** A piece free of `sep` followed by `sep` is split off as the first piece. */
  lemma {:induction false} SplitAfterPiece(piece: string, sep: char, tail: string)
    requires sep !in piece
    ensures Split(piece + [sep] + tail, sep) == [piece] + Split(tail, sep)
    decreases |piece|
  {
    var s := piece + [sep] + tail;
    if piece == [] {
      assert s == [sep] + tail;
      assert s[1..] == tail;
    } else {
      assert s[0] == piece[0];
      assert s[1..] == piece[1..] + [sep] + tail;
      SplitAfterPiece(piece[1..], sep, tail);
      var rest := Split(s[1..], sep);
      assert rest == [piece[1..]] + Split(tail, sep);
      assert [piece[0]] + piece[1..] == piece;
    }
  }

  /** Joining pieces that contain no separator and splitting again gives back the same pieces. */
  lemma {:induction false} SplitJoin(parts: seq<string>, sep: char)
    requires |parts| >= 1
    requires forall i :: 0 <= i < |parts| ==> sep !in parts[i]
    ensures Split(Join(parts, sep), sep) == parts
    decreases |parts|
  {
    if |parts| > 1 {
      SplitJoin(parts[1..], sep);
      SplitAfterPiece(parts[0], sep, Join(parts[1..], sep));
      assert [parts[0]] + parts[1..] == parts;
    }
  }

  /** The last piece is a suffix of `s` that either is all of `s` or follows a `sep`. */
  lemma {:induction false} SplitLast(s: string, sep: char)
    ensures var parts := Split(s, sep); var last := parts[|parts| - 1];
      |last| <= |s| && last == s[|s| - |last|..] &&
      (|last| < |s| ==> s[|s| - |last| - 1] == sep)
    decreases |s|
  {
    if s != [] {
      SplitLast(s[1..], sep);
      var rest := Split(s[1..], sep);
      if s[0] != sep && |rest| == 1 {
        assert Split(s, sep) == [s];
      }
    }
  }

  /** `path.split("/")[-1]`: the last `/`-separated segment of `path`; the whole path when it
      holds no `/`, and the empty string when it ends in `/`. */
  function BaseName(path: string): (name: string)
    ensures '/' !in name
    ensures |name| <= |path| && name == path[|path| - |name|..]
    ensures |name| < |path| ==> path[|path| - |name| - 1] == '/'
    ensures '/' !in path ==> name == path
  {
    var parts := Split(path, '/');
    SplitLast(path, '/');
    parts[|parts| - 1]
  }

  /** The segment after the last `/` (or the whole path) is the only suffix `BaseName` can be:
      any suffix that holds no `/` and starts the path or follows a `/` is the base name. */
  lemma BaseNameIsAfterLastSlash(path: string, k: nat)
    requires k <= |path|
    requires k == 0 || path[k - 1] == '/'
    requires '/' !in path[k..]
    ensures BaseName(path) == path[k..]
  {
  }
}
