/** The part of Go's path/filepath used to turn a matched file name into a
    field classifier: Base and Dir on '/'-separated paths. */
module FilePaths {

  const Separator: char := '/'

  /** Index of the last separator of `s`, or -1 when it has none. */
  function LastSeparator(s: string): (i: int)
    ensures -1 <= i < |s|
    decreases |s|
  {
    if |s| == 0 then -1
    else if s[|s| - 1] == Separator then |s| - 1
    else LastSeparator(s[..|s| - 1])
  }

  /** `s` without its trailing separators. */
  function TrimTrailingSeparators(s: string): (r: string)
    ensures |r| <= |s|
    decreases |s|
  {
    if |s| > 0 && s[|s| - 1] == Separator then TrimTrailingSeparators(s[..|s| - 1]) else s
  }

  /** LastSeparator finds a separator, and none comes after it. */
  lemma {:induction false} LastSeparatorFacts(s: string)
    ensures LastSeparator(s) >= 0 ==> s[LastSeparator(s)] == Separator
    ensures forall j | LastSeparator(s) < j < |s| :: s[j] != Separator
    decreases |s|
  {
    if |s| > 0 && s[|s| - 1] != Separator {
      var init := s[..|s| - 1];
      LastSeparatorFacts(init);
      assert forall j | 0 <= j < |init| :: init[j] == s[j];
    }
  }

  /** Trimming keeps a prefix that does not end in a separator, and what it
      drops is separators only. */
  lemma {:induction false} TrimTrailingSeparatorsFacts(s: string)
    ensures var r := TrimTrailingSeparators(s);
      && r == s[..|r|]
      && (|r| > 0 ==> r[|r| - 1] != Separator)
      && forall j | |r| <= j < |s| :: s[j] == Separator
    decreases |s|
  {
    if |s| > 0 && s[|s| - 1] == Separator {
      var init := s[..|s| - 1];
      TrimTrailingSeparatorsFacts(init);
      var r := TrimTrailingSeparators(init);
      assert init[..|r|] == s[..|r|];
    } else {
      assert s[..|s|] == s;
    }
  }

  /** filepath.Base: the last element of the path, trailing separators
      ignored; "." for the empty path and "/" for a path of separators only. */
  function Base(p: string): (r: string)
    ensures |p| == 0 ==> r == "."
    ensures |p| > 0 ==> (r == [Separator] <==> forall j | 0 <= j < |p| :: p[j] == Separator)
    ensures r == [Separator] || (|r| > 0 && IsElement(r))
  {
    if |p| == 0 then "."
    else
      var t := TrimTrailingSeparators(p);
      TrimmedEmptyIffSeparatorsOnly(p);
      if |t| == 0 then [Separator]
      else
        LastElementFacts(t);
        t[LastSeparator(t) + 1..]
  }

  /** Trimming leaves nothing exactly when the path is separators only. */
  lemma TrimmedEmptyIffSeparatorsOnly(p: string)
    ensures var t := TrimTrailingSeparators(p);
      |t| > 0 ==> t[|t| - 1] != Separator
    ensures |TrimTrailingSeparators(p)| == 0 <==> forall j | 0 <= j < |p| :: p[j] == Separator
  {
    TrimTrailingSeparatorsFacts(p);
    var t := TrimTrailingSeparators(p);
    if |t| > 0 {
      assert p[|t| - 1] == t[|t| - 1];
    }
  }

  /** The text after the last separator of a string that does not end in
      one is a non-empty element. */
  lemma LastElementFacts(t: string)
    requires |t| > 0 && t[|t| - 1] != Separator
    ensures var i := LastSeparator(t);
      i < |t| - 1 && IsElement(t[i + 1..])
  {
    var i := LastSeparator(t);
    LastSeparatorFacts(t);
    assert i != |t| - 1;
    var r := t[i + 1..];
    forall j | 0 <= j < |r|
      ensures r[j] != Separator
    {
      assert r[j] == t[i + 1 + j];
    }
  }

  /** filepath.Dir for paths without "." or ".." elements or doubled
      separators (the form filepath.Glob returns): everything before the
      last separator, trailing separators removed; "." when there is no
      separator and "/" when only the root is left. */
  function Dir(p: string): (r: string)
    ensures LastSeparator(p) < 0 ==> r == "."
    ensures LastSeparator(p) >= 0 && r != [Separator] ==>
      0 < |r| <= LastSeparator(p) && r == p[..|r|] && r[|r| - 1] != Separator
  {
    var i := LastSeparator(p);
    if i < 0 then "."
    else
      var d := TrimTrailingSeparators(p[..i]);
      TrimTrailingSeparatorsFacts(p[..i]);
      if |d| == 0 then [Separator] else d
  }

  /** `s` holds no separator. */
  predicate IsElement(s: string) {
    forall j | 0 <= j < |s| :: s[j] != Separator
  }

  /** The last separator is the one at `m` when nothing after `m` is one. */
  lemma LastSeparatorAt(s: string, m: int)
    requires 0 <= m < |s| && s[m] == Separator
    requires forall j | m < j < |s| :: s[j] != Separator
    ensures LastSeparator(s) == m
  {
    LastSeparatorFacts(s);
  }

  /** Base of `dir + "/" + elem` (with any number of trailing separators
      after it) is `elem`, for a non-empty element. */
  lemma BaseOfElement(prefix: string, elem: string, trailing: nat)
    requires |prefix| == 0 || prefix[|prefix| - 1] == Separator
    requires |elem| > 0 && IsElement(elem)
    ensures Base(prefix + elem + seq(trailing, _ => Separator)) == elem
  {
    var p := prefix + elem + seq(trailing, _ => Separator);
    var t := TrimTrailingSeparators(p);
    TrimTrailingSeparatorsFacts(p);
    assert p[|prefix| + |elem| - 1] == elem[|elem| - 1];
    assert |t| == |prefix| + |elem|;
    assert t == prefix + elem;
    if |prefix| == 0 {
      LastSeparatorFacts(t);
      assert LastSeparator(t) == -1;
    } else {
      LastSeparatorAt(t, |prefix| - 1);
    }
  }
}
