/** The searches over a string that the extension parser relies on: Go's
    strings.Index and strings.Count for a one-character separator, the
    position of the last occurrence (used to state what the parser computes)
    and the suffix expression s[k:]. Positions count characters, which are
    Go's byte offsets for ASCII names.

    The functions carry only small contracts; what they compute is stated by
    the lemmas after each of them. */
module Strings {

  /** s[k:], the text from position k on. */
  function Suffix(s: string, k: nat): (r: string)
    requires k <= |s|
    ensures |r| == |s| - k
    ensures forall j :: 0 <= j < |r| ==> r[j] == s[k + j]
    decreases |s| - k
  {
    if k == |s| then [] else [s[k]] + Suffix(s, k + 1)
  }

  /** Suffix agrees with Dafny's slice s[k..], in which the lemmas state
      their results. */
  lemma SuffixIsSlice(s: string, k: nat)
    requires k <= |s|
    ensures Suffix(s, k) == s[k..]
  {
    assert forall j :: 0 <= j < |s| - k ==> Suffix(s, k)[j] == s[k..][j];
  }

  /** strings.Index(s, string(c)): the first position of c, or -1. */
  function Index(s: string, c: char): (r: int)
    ensures -1 <= r < |s|
    ensures 0 <= r ==> s[r] == c
  {
    IndexFrom(s, c, 0)
  }

  /** The first position of c at or after i, or -1. */
  function IndexFrom(s: string, c: char, i: nat): (r: int)
    requires i <= |s|
    ensures r == -1 || i <= r < |s|
    ensures 0 <= r ==> s[r] == c
    decreases |s| - i
  {
    if i == |s| then -1
    else if s[i] == c then i
    else IndexFrom(s, c, i + 1)
  }

  lemma {:induction false} IndexFromSpec(s: string, c: char, i: nat)
    requires i <= |s|
    ensures IndexFrom(s, c, i) == -1 ==> forall j :: i <= j < |s| ==> s[j] != c
    ensures forall j :: i <= j < IndexFrom(s, c, i) ==> s[j] != c
    decreases |s| - i
  {
    if i < |s| && s[i] != c {
      IndexFromSpec(s, c, i + 1);
    }
  }

  /** Index finds nothing exactly when c does not occur, and no c
      comes before the position it finds. */
  lemma IndexSpec(s: string, c: char)
    ensures Index(s, c) == -1 <==> c !in s
    ensures forall j :: 0 <= j < Index(s, c) ==> s[j] != c
  {
    IndexFromSpec(s, c, 0);
  }

  /** The last position of c, or -1. */
  function LastIndex(s: string, c: char): (r: int)
    ensures -1 <= r < |s|
    ensures 0 <= r ==> s[r] == c
  {
    LastIndexFrom(s, c, 0)
  }

  /** The last position of c at or after i, or -1. */
  function LastIndexFrom(s: string, c: char, i: nat): (r: int)
    requires i <= |s|
    ensures r == -1 || i <= r < |s|
    ensures 0 <= r ==> s[r] == c
    decreases |s| - i
  {
    if i == |s| then -1
    else
      var later := LastIndexFrom(s, c, i + 1);
      if 0 <= later then later else if s[i] == c then i else -1
  }

  lemma {:induction false} LastIndexFromSpec(s: string, c: char, i: nat)
    requires i <= |s|
    ensures LastIndexFrom(s, c, i) == -1 ==> forall j :: i <= j < |s| ==> s[j] != c
    ensures forall j :: LastIndexFrom(s, c, i) < j < |s| && i <= j ==> s[j] != c
    decreases |s| - i
  {
    if i < |s| {
      LastIndexFromSpec(s, c, i + 1);
    }
  }

  /** LastIndex finds nothing exactly when c does not occur, and no c comes
      after the position it finds. */
  lemma LastIndexSpec(s: string, c: char)
    ensures LastIndex(s, c) == -1 <==> c !in s
    ensures forall j :: LastIndex(s, c) < j < |s| ==> s[j] != c
  {
    LastIndexFromSpec(s, c, 0);
  }

  lemma {:induction false} LastIndexFromIsUnique(s: string, c: char, k: int, i: nat)
    requires i <= k < |s| && s[k] == c && forall j :: k < j < |s| ==> s[j] != c
    ensures LastIndexFrom(s, c, i) == k
    decreases |s| - i
  {
    if i < k {
      LastIndexFromIsUnique(s, c, k, i + 1);
    } else {
      LastIndexFromSpec(s, c, i + 1);
    }
  }

  /** The last occurrence is the one position holding c with no c after it. */
  lemma LastIndexIsUnique(s: string, c: char, k: int)
    requires 0 <= k < |s| && s[k] == c && forall j :: k < j < |s| ==> s[j] != c
    ensures LastIndex(s, c) == k
  {
    LastIndexFromIsUnique(s, c, k, 0);
  }

  /** strings.Count(s, string(c)): how many times c occurs in s. */
  function Count(s: string, c: char): nat
  {
    CountFrom(s, c, 0)
  }

  /** How many times c occurs in s[i..]. */
  function CountFrom(s: string, c: char, i: nat): nat
    requires i <= |s|
    decreases |s| - i
  {
    if i == |s| then 0
    else (if s[i] == c then 1 else 0) + CountFrom(s, c, i + 1)
  }

  /** Counting in a suffix is counting in the whole from where it starts. */
  lemma {:induction false} CountFromShift(s: string, c: char, k: nat, i: nat)
    requires k + i <= |s|
    ensures CountFrom(Suffix(s, k), c, i) == CountFrom(s, c, k + i)
    decreases |s| - i
  {
    if k + i < |s| {
      CountFromShift(s, c, k, i + 1);
      assert Suffix(s, k)[i] == s[k + i];
    }
  }

  lemma {:induction false} CountFromNone(s: string, c: char, i: nat)
    requires i <= |s|
    ensures CountFrom(s, c, i) == 0 <==> forall j :: i <= j < |s| ==> s[j] != c
    decreases |s| - i
  {
    if i < |s| {
      CountFromNone(s, c, i + 1);
    }
  }

  /** From m back to an earlier n the count grows by at most m - n. */
  lemma {:induction false} CountFromGrowth(s: string, c: char, n: nat, m: nat)
    requires n <= m <= |s|
    ensures CountFrom(s, c, m) <= CountFrom(s, c, n) <= CountFrom(s, c, m) + (m - n)
    decreases m - n
  {
    if n < m {
      CountFromGrowth(s, c, n + 1, m);
    }
  }

  /** The count stays put over a stretch holding no c. */
  lemma {:induction false} CountFromFlat(s: string, c: char, n: nat, m: nat)
    requires n <= m <= |s| && forall j :: n <= j < m ==> s[j] != c
    ensures CountFrom(s, c, n) == CountFrom(s, c, m)
    decreases m - n
  {
    if n < m {
      CountFromFlat(s, c, n + 1, m);
    }
  }

  /** Count is zero exactly when c does not occur. */
  lemma CountZero(s: string, c: char)
    ensures Count(s, c) == 0 <==> c !in s
  {
    CountFromNone(s, c, 0);
  }

  /** A positive count is the same as Index finding c. */
  lemma IndexFindsCounted(s: string, c: char)
    ensures Count(s, c) > 0 <==> 0 <= Index(s, c)
  {
    CountZero(s, c);
    IndexSpec(s, c);
  }

  /** Every c lies between the first and the last one, so there are at most
      as many as positions in that stretch; and first and last coincide
      exactly when there is one. */
  lemma CountWithinFirstAndLast(s: string, c: char)
    requires 0 <= Index(s, c)
    ensures 1 <= Count(s, c) <= LastIndex(s, c) - Index(s, c) + 1
    ensures Count(s, c) == 1 <==> Index(s, c) == LastIndex(s, c)
  {
    var i, l := Index(s, c), LastIndex(s, c);
    IndexSpec(s, c);
    LastIndexSpec(s, c);
    assert i <= l;
    CountFromFlat(s, c, 0, i);
    CountFromNone(s, c, l + 1);
    CountFromGrowth(s, c, i, l + 1);
    if i < l {
      CountFromGrowth(s, c, i + 1, l);
    }
  }

  /** Cutting s after its first c leaves one c fewer. */
  lemma CountAfterFirst(s: string, c: char)
    requires 0 <= Index(s, c)
    ensures Count(Suffix(s, Index(s, c) + 1), c) == Count(s, c) - 1
  {
    var i := Index(s, c);
    CountFromShift(s, c, i + 1, 0);
    IndexSpec(s, c);
    CountFromFlat(s, c, 0, i);
  }

  /** When the first c is not the only one, the last c lies in the part
      after the first, shifted by where that part starts. */
  lemma LastIndexAfterFirst(s: string, c: char)
    requires 0 <= Index(s, c) && 0 <= Index(Suffix(s, Index(s, c) + 1), c)
    ensures LastIndex(s, c) == Index(s, c) + 1 + LastIndex(Suffix(s, Index(s, c) + 1), c)
  {
    var i := Index(s, c);
    var t := Suffix(s, i + 1);
    var j := LastIndex(t, c);
    LastIndexSpec(t, c);
    assert 0 <= j by { var k := Index(t, c); assert t[k] == c; }
    assert s[i + 1 + j] == c by { assert t[j] == c; }
    forall m | i + 1 + j < m < |s| ensures s[m] != c { assert s[m] == t[m - i - 1]; }
    LastIndexIsUnique(s, c, i + 1 + j);
  }
}
