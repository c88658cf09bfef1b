/** The part of Go's path/filepath package the commands use: the host's
    separator, Join as plain separator concatenation, and Base. */
module FilePath {

  /** The host operating system as far as the commands care: Windows or not. */
  datatype Os = Windows | Other

  /** filepath.Separator. */
  function Separator(os: Os): char
  {
    if os == Windows then '\\' else '/'
  }

  /** os.IsPathSeparator: Windows also accepts the forward slash. */
  predicate IsSeparator(os: Os, c: char)
  {
    c == '/' || (os == Windows && c == '\\')
  }

  /** filepath.Join of two elements, without Go's cleaning of the result. */
  function Join(os: Os, a: string, b: string): string
  {
    a + [Separator(os)] + b
  }

  /** s without its trailing separators. */
  function TrimTrailingSeparators(os: Os, s: string): string
  {
    if s != [] && IsSeparator(os, s[|s| - 1]) then TrimTrailingSeparators(os, s[..|s| - 1])
    else s
  }

  /** Trimming keeps a prefix that does not end in a separator and drops
      only separators. */
  lemma {:induction false} TrimTrailingSeparatorsSpec(os: Os, s: string)
    ensures var r := TrimTrailingSeparators(os, s);
      |r| <= |s| && r == s[..|r|] &&
      (r == [] || !IsSeparator(os, r[|r| - 1])) &&
      forall i :: |r| <= i < |s| ==> IsSeparator(os, s[i])
  {
    if s != [] && IsSeparator(os, s[|s| - 1]) {
      var front := s[..|s| - 1];
      TrimTrailingSeparatorsSpec(os, front);
      var r := TrimTrailingSeparators(os, front);
      assert r == s[..|r|] by { assert front[..|r|] == s[..|r|]; }
      forall i | |r| <= i < |s| ensures IsSeparator(os, s[i]) {
        if i < |front| { assert s[i] == front[i]; }
      }
    }
  }

  /** The longest suffix of s holding no separator. */
  function LastElement(os: Os, s: string): string
  {
    if s == [] || IsSeparator(os, s[|s| - 1]) then []
    else LastElement(os, s[..|s| - 1]) + [s[|s| - 1]]
  }

  /** The last element is a separator-free suffix, preceded by a separator
      unless it is all of s. */
  lemma LastElementSpec(os: Os, s: string)
    ensures var r := LastElement(os, s);
      |r| <= |s| && r == s[|s| - |r|..] &&
      (forall i :: 0 <= i < |r| ==> !IsSeparator(os, r[i])) &&
      (|r| < |s| ==> IsSeparator(os, s[|s| - |r| - 1]))
  {
    var r := LastElement(os, s);
    LastElementAligned(os, s);
    assert r == s[|s| - |r|..];
  }

  lemma {:induction false} LastElementAligned(os: Os, s: string)
    ensures var r := LastElement(os, s);
      |r| <= |s| &&
      (forall i :: 0 <= i < |r| ==> r[i] == s[|s| - |r| + i] && !IsSeparator(os, r[i])) &&
      (|r| < |s| ==> IsSeparator(os, s[|s| - |r| - 1]))
  {
    if s != [] && !IsSeparator(os, s[|s| - 1]) {
      var front := s[..|s| - 1];
      LastElementAligned(os, front);
      var e := LastElement(os, front);
      assert forall i :: 0 <= i < |front| ==> front[i] == s[i];
    }
  }

  /** e occupies path[k..k + |e|], right after a separator or at the
      start, and only separators follow it. */
  predicate IsFinalElementAt(os: Os, path: string, e: string, k: int)
  {
    0 <= k && k + |e| <= |path| && path[k..k + |e|] == e &&
    (k == 0 || IsSeparator(os, path[k - 1])) &&
    (forall i :: k + |e| <= i < |path| ==> IsSeparator(os, path[i]))
  }

  /** filepath.Base: the last element of the path once trailing separators
      are dropped. */
  function Base(os: Os, path: string): string
  {
    if path == [] then "."
    else
      var trimmed := TrimTrailingSeparators(os, path);
      if trimmed == [] then [Separator(os)]
      else LastElement(os, trimmed)
  }

  /** Base gives "." for the empty path and the separator alone for a path
      made only of separators; otherwise it gives the final element: a
      non-empty, separator-free part that starts the path or follows a
      separator and is followed only by separators. */
  lemma BaseSpec(os: Os, path: string)
    ensures path == [] ==> Base(os, path) == "."
    ensures path != [] && (forall i :: 0 <= i < |path| ==> IsSeparator(os, path[i])) ==>
      Base(os, path) == [Separator(os)]
    ensures (exists i :: 0 <= i < |path| && !IsSeparator(os, path[i])) ==>
      var r := Base(os, path);
      r != [] &&
      (forall i :: 0 <= i < |r| ==> !IsSeparator(os, r[i])) &&
      exists k :: IsFinalElementAt(os, path, r, k)
  {
    if path != [] {
      TrimTrailingSeparatorsSpec(os, path);
      var trimmed := TrimTrailingSeparators(os, path);
      if trimmed == [] {
        forall i | 0 <= i < |path| ensures IsSeparator(os, path[i]) { }
      } else {
        assert trimmed[|trimmed| - 1] == path[|trimmed| - 1];
        LastElementSpec(os, trimmed);
        var last := LastElement(os, trimmed);
        var k := |trimmed| - |last|;
        assert path[k..k + |last|] == last;
        assert k == 0 || IsSeparator(os, path[k - 1]) by {
          if k > 0 { assert path[k - 1] == trimmed[k - 1]; }
        }
        assert IsFinalElementAt(os, path, last, k);
        assert exists i :: 0 <= i < |path| && !IsSeparator(os, path[i]) by {
          assert !IsSeparator(os, path[|trimmed| - 1]);
        }
      }
    }
  }
}
