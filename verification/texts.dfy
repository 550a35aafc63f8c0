/** Searching in texts. */
module Texts {
  import opened Options

  type Bytes = seq<char>

  predicate OccursAt(s: Bytes, pattern: Bytes, i: nat) {
    i + |pattern| <= |s| && s[i..i + |pattern|] == pattern
  }

  predicate StartsWith(s: Bytes, prefix: Bytes) {
    OccursAt(s, prefix, 0)
  }

  predicate EndsWith(s: Bytes, suffix: Bytes) {
    |suffix| <= |s| && s[|s| - |suffix|..] == suffix
  }

  /** The first occurrence. */
  function Find(s: Bytes, pattern: Bytes): (r: Option<nat>)
    ensures r.Some? ==> r.value + |pattern| <= |s|
  {
    FindFrom(s, pattern, 0)
  }

  function FindFrom(s: Bytes, pattern: Bytes, i: nat): (r: Option<nat>)
    ensures r.Some? ==> r.value + |pattern| <= |s|
    decreases |s| - i
  {
    if OccursAt(s, pattern, i) then Some(i)
    else if i >= |s| then None
    else FindFrom(s, pattern, i + 1)
  }

  predicate OneLine(s: Bytes) {
    '\r' !in s && '\n' !in s
  }

  ghost predicate Absent(s: Bytes, pattern: Bytes) {
    forall j: nat :: !OccursAt(s, pattern, j)
  }

  /** The first occurrence from a position on. */
  lemma {:induction false} FindFromIsFirst(s: Bytes, pattern: Bytes, i: nat)
    ensures match FindFrom(s, pattern, i)
            case Some(r) => i <= r && OccursAt(s, pattern, r) && forall j: nat | i <= j < r :: !OccursAt(s, pattern, j)
            case None => forall j: nat | i <= j :: !OccursAt(s, pattern, j)
    decreases |s| - i
  {
    if !OccursAt(s, pattern, i) && i < |s| {
      FindFromIsFirst(s, pattern, i + 1);
    }
  }

  lemma FindFromIs(s: Bytes, pattern: Bytes, i: nat, j: nat)
    requires i <= j && OccursAt(s, pattern, j) && forall k: nat | i <= k < j :: !OccursAt(s, pattern, k)
    ensures FindFrom(s, pattern, i) == Some(j)
  {
    FindFromIsFirst(s, pattern, i);
    var r := FindFrom(s, pattern, i);
    assert r.Some? ==> r.value <= j;
  }

  /** Find means the first occurrence, and finds one whenever there is one. */
  lemma FindIsFirst(s: Bytes, pattern: Bytes)
    ensures match Find(s, pattern)
            case Some(r) => OccursAt(s, pattern, r) && forall j: nat | j < r :: !OccursAt(s, pattern, j)
            case None => Absent(s, pattern)
  {
    FindFromIsFirst(s, pattern, 0);
  }

  lemma FindIs(s: Bytes, pattern: Bytes, i: nat)
    requires OccursAt(s, pattern, i) && forall j: nat | j < i :: !OccursAt(s, pattern, j)
    ensures Find(s, pattern) == Some(i)
  {
    FindIsFirst(s, pattern);
    var r := Find(s, pattern);
    assert r.Some? ==> r.value <= i;
  }

  lemma FindNothing(s: Bytes, pattern: Bytes)
    requires Absent(s, pattern)
    ensures Find(s, pattern) == None
  {
    FindIsFirst(s, pattern);
  }

  /** An occurrence that starts in `a` lies in it, or takes in what follows. */
  lemma WhereItLies(a: Bytes, b: Bytes, pattern: Bytes, j: nat)
    requires OccursAt(a + b, pattern, j) && j < |a| && b != []
    ensures OccursAt(a, pattern, j) || b[0] in pattern
  {
    if j + |pattern| <= |a| {
      assert (a + b)[j..j + |pattern|] == a[j..j + |pattern|];
    } else {
      assert (a + b)[j..j + |pattern|][|a| - j] == b[0];
    }
  }

  lemma StartsThere(s: Bytes, pattern: Bytes, j: nat)
    requires OccursAt(s, pattern, j) && pattern != []
    ensures s[j] == pattern[0]
  {
    assert s[j..j + |pattern|][0] == s[j];
  }

  lemma OccursBehind(a: Bytes, b: Bytes, pattern: Bytes, j: nat)
    requires |a| <= j
    ensures OccursAt(a + b, pattern, j) <==> OccursAt(b, pattern, j - |a|)
  {
    if j + |pattern| <= |a + b| {
      assert (a + b)[j..j + |pattern|] == b[j - |a|..j - |a| + |pattern|];
    }
  }

  lemma NeverStarts(s: Bytes, pattern: Bytes)
    requires pattern != [] && forall i | 0 <= i < |s| :: s[i] != pattern[0]
    ensures Absent(s, pattern)
  {
    forall j: nat
      ensures !OccursAt(s, pattern, j)
    {
      if OccursAt(s, pattern, j) {
        StartsThere(s, pattern, j);
      }
    }
  }
}
