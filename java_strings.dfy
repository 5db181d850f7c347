/**
 * The few java.lang.String operations the reflection helpers rely on, with
 * Java's own conventions for out-of-range start positions.
 */
module JavaStrings {

  /** Characters that String.trim() removes: every code point up to and including the space. */
  predicate IsTrimmable(c: char) {
    c <= ' '
  }

  predicate AllTrimmable(s: string) {
    forall i :: 0 <= i < |s| ==> IsTrimmable(s[i])
  }

  /** String.indexOf(c, from): the first index at or after `from` (taken as 0 when negative) holding `c`, or -1. */
  function IndexOf(s: string, c: char, from: int): (r: int)
    ensures -1 <= r < |s|
    ensures r != -1 ==> from <= r && s[r] == c
    decreases |s| - from
  {
    if from < 0 then IndexOf(s, c, 0)
    else if from >= |s| then -1
    else if s[from] == c then from
    else IndexOf(s, c, from + 1)
  }

  /** indexOf gives -1 exactly when no c lies at or after `from`, and otherwise the first such index. */
  lemma {:induction false} IndexOfMeaning(s: string, c: char, from: int)
    ensures IndexOf(s, c, from) == -1 ==> forall i :: 0 <= i < |s| && from <= i ==> s[i] != c
    ensures IndexOf(s, c, from) != -1 ==> forall i :: 0 <= i < IndexOf(s, c, from) && from <= i ==> s[i] != c
    decreases |s| - from
  {
    if from < 0 {
      IndexOfMeaning(s, c, 0);
    } else if from < |s| && s[from] != c {
      IndexOfMeaning(s, c, from + 1);
    }
  }

  /** String.lastIndexOf(c, from): the last index at or before `from` holding `c`, or -1. */
  function LastIndexOf(s: string, c: char, from: int): (r: int)
    ensures -1 <= r < |s|
    ensures r != -1 ==> r <= from && s[r] == c
    decreases if from < |s| then from + 1 else |s| + 1
  {
    if from < 0 then -1
    else if from >= |s| then LastIndexOf(s, c, |s| - 1)
    else if s[from] == c then from
    else LastIndexOf(s, c, from - 1)
  }

  /** lastIndexOf gives -1 exactly when no c lies at or before `from`, and otherwise the last such index. */
  lemma {:induction false} LastIndexOfMeaning(s: string, c: char, from: int)
    ensures LastIndexOf(s, c, from) == -1 ==> forall i :: 0 <= i < |s| && i <= from ==> s[i] != c
    ensures LastIndexOf(s, c, from) != -1 ==> forall i :: LastIndexOf(s, c, from) < i < |s| && i <= from ==> s[i] != c
    decreases if from < |s| then from + 1 else |s| + 1
  {
    if from >= |s| {
      LastIndexOfMeaning(s, c, |s| - 1);
    } else if from >= 0 && s[from] != c {
      LastIndexOfMeaning(s, c, from - 1);
    }
  }

  /** True when the two characters "[]" start at index i of s. */
  predicate BracketPairAt(s: string, i: int) {
    0 <= i && i + 1 < |s| && s[i] == '[' && s[i + 1] == ']'
  }

  /** String.indexOf("[]", from): the first index at or after `from` where "[]" starts, or -1. */
  function IndexOfBracketPair(s: string, from: int): (r: int)
    ensures -1 <= r < |s|
    ensures r != -1 ==> from <= r && BracketPairAt(s, r)
    decreases |s| - from
  {
    if from < 0 then IndexOfBracketPair(s, 0)
    else if from + 1 >= |s| then -1
    else if s[from] == '[' && s[from + 1] == ']' then from
    else IndexOfBracketPair(s, from + 1)
  }

  /** indexOf("[]") gives -1 exactly when no pair starts at or after `from`, and otherwise the first one. */
  lemma {:induction false} IndexOfBracketPairMeaning(s: string, from: int)
    ensures IndexOfBracketPair(s, from) == -1 ==> forall i :: from <= i ==> !BracketPairAt(s, i)
    ensures IndexOfBracketPair(s, from) != -1 ==> forall i :: from <= i < IndexOfBracketPair(s, from) ==> !BracketPairAt(s, i)
    decreases |s| - from
  {
    if from < 0 {
      IndexOfBracketPairMeaning(s, 0);
    } else if from + 1 < |s| && !(s[from] == '[' && s[from + 1] == ']') {
      IndexOfBracketPairMeaning(s, from + 1);
    }
  }

  /** The number of leading characters of s that trim() removes. */
  function LeadingTrimmable(s: string): (n: nat)
    ensures n <= |s|
  {
    if s == [] || !IsTrimmable(s[0]) then 0 else 1 + LeadingTrimmable(s[1..])
  }

  /** The leading characters LeadingTrimmable counts are all trimmable, and the one after them is not. */
  lemma {:induction false} LeadingTrimmableMeaning(s: string)
    ensures AllTrimmable(s[..LeadingTrimmable(s)])
    ensures LeadingTrimmable(s) < |s| ==> !IsTrimmable(s[LeadingTrimmable(s)])
  {
    if s != [] && IsTrimmable(s[0]) {
      var n := LeadingTrimmable(s);
      LeadingTrimmableMeaning(s[1..]);
      assert s[..n] == [s[0]] + s[1..][..n - 1];
    }
  }

  /** The length of s once trim() has removed its trailing characters. */
  function TrailingTrimmableStart(s: string): (n: nat)
    ensures n <= |s|
  {
    if s == [] || !IsTrimmable(s[|s| - 1]) then |s| else TrailingTrimmableStart(s[..|s| - 1])
  }

  /** The trailing characters TrailingTrimmableStart cuts are all trimmable, and the one before them is not. */
  lemma {:induction false} TrailingTrimmableStartMeaning(s: string)
    ensures AllTrimmable(s[TrailingTrimmableStart(s)..])
    ensures 0 < TrailingTrimmableStart(s) ==> !IsTrimmable(s[TrailingTrimmableStart(s) - 1])
  {
    if s != [] && IsTrimmable(s[|s| - 1]) {
      var n := TrailingTrimmableStart(s);
      TrailingTrimmableStartMeaning(s[..|s| - 1]);
      assert s[n..] == s[..|s| - 1][n..] + [s[|s| - 1]];
    }
  }

  /** String.trim(): s without its leading and trailing characters at or below the space. */
  function Trim(s: string): (r: string)
    ensures |r| <= |s|
  {
    var t := s[LeadingTrimmable(s)..];
    t[..TrailingTrimmableStart(t)]
  }

  /**
   * What trim() leaves is a slice of s that neither starts nor ends with a
   * trimmable character, with only trimmable characters cut on either side;
   * a string with no trimmable end is left as it is.
   */
  lemma TrimMeaning(s: string)
    ensures var r := Trim(s);
      && (r == [] || (!IsTrimmable(r[0]) && !IsTrimmable(r[|r| - 1])))
      && (exists a :: 0 <= a <= |s| - |r| && r == s[a..a + |r|] && AllTrimmable(s[..a]) && AllTrimmable(s[a + |r|..]))
      && ((s == [] || (!IsTrimmable(s[0]) && !IsTrimmable(s[|s| - 1]))) ==> r == s)
  {
    var a := LeadingTrimmable(s);
    var t := s[a..];
    var n := TrailingTrimmableStart(t);
    LeadingTrimmableMeaning(s);
    TrailingTrimmableStartMeaning(t);
    assert t[..n] == s[a..a + n];
    assert t[n..] == s[a + n..];
  }

  /** n copies of the character c. */
  function Repeat(c: char, n: nat): (r: string)
    ensures |r| == n && forall i :: 0 <= i < n ==> r[i] == c
  {
    if n == 0 then [] else Repeat(c, n - 1) + [c]
  }

  /** Searching a slice from its start finds what searching the whole string from the slice's start finds, when that lies inside the slice. */
  lemma IndexOfSlice(s: string, c: char, start: nat, end: nat)
    requires start <= end <= |s|
    ensures var i := IndexOf(s, c, start);
      IndexOf(s[start..end], c, 0) == if 0 <= i < end then i - start else -1
  {
    var i := IndexOf(s, c, start);
    var j := IndexOf(s[start..end], c, 0);
    IndexOfMeaning(s, c, start);
    IndexOfMeaning(s[start..end], c, 0);
    if j >= 0 {
      assert s[start + j] == c;
    }
    if 0 <= i < end {
      assert s[start..end][i - start] == c;
    }
  }

  /** indexOf from `from` finds k when s[k] is c and no c lies between `from` and k. */
  lemma IndexOfAt(s: string, c: char, from: nat, k: nat)
    requires from <= k < |s| && s[k] == c && c !in s[from..k]
    ensures IndexOf(s, c, from) == k
  {
    IndexOfMeaning(s, c, from);
  }

  /** lastIndexOf from `from` finds k when s[k] is c and no c lies after k up to `from`. */
  lemma LastIndexOfAt(s: string, c: char, from: nat, k: nat)
    requires k <= from < |s| && s[k] == c && c !in s[k + 1..from + 1]
    ensures LastIndexOf(s, c, from) == k
  {
    LastIndexOfMeaning(s, c, from);
  }
}
