/**
 * The string operations the import/export codemod relies on: `startsWith`, `match` on a literal
 * pattern (substring containment) and `replace` with a string pattern (first occurrence).
 */
module CodemodStrings {
  import opened Wrappers

  /** The pattern `p` occurs in `s` starting at index `i`. */
  predicate OccursAt(s: string, p: string, i: nat)
  {
    i + |p| <= |s| && s[i..i + |p|] == p
  }

  /** `s.match(p)` for a pattern without metacharacters. */
  predicate Contains(s: string, p: string)
  {
    exists i: nat :: i <= |s| && OccursAt(s, p, i)
  }

  /** The first occurrence of `p` in `s` at or after `from`. */
  function IndexOfFrom(s: string, p: string, from: nat): (r: Option<nat>)
    requires from <= |s|
    ensures r.Some? ==> from <= r.value && OccursAt(s, p, r.value)
    ensures r.Some? ==> forall j: nat :: from <= j < r.value ==> !OccursAt(s, p, j)
    ensures r.None? ==> forall j: nat :: from <= j ==> !OccursAt(s, p, j)
    decreases |s| - from
  {
    if OccursAt(s, p, from) then Some(from)
    else if from == |s| then None
    else IndexOfFrom(s, p, from + 1)
  }

  /** The index of the first occurrence of `p` in `s`, or None when it does not occur. */
  function IndexOf(s: string, p: string): (r: Option<nat>)
    ensures r.Some? <==> Contains(s, p)
    ensures r.Some? ==> OccursAt(s, p, r.value) && forall j: nat :: j < r.value ==> !OccursAt(s, p, j)
  {
    IndexOfFrom(s, p, 0)
  }

  /** `s.replace(p, v)` with a string pattern: only the first occurrence is replaced. */
  function ReplaceFirst(s: string, p: string, v: string): (r: string)
    ensures !Contains(s, p) ==> r == s
    ensures Contains(s, p) ==>
      exists i: nat :: OccursAt(s, p, i) && (forall j: nat :: j < i ==> !OccursAt(s, p, j)) &&
        r == s[..i] + v + s[i + |p|..]
  {
    match IndexOf(s, p)
    case None => s
    case Some(i) => s[..i] + v + s[i + |p|..]
  }

  /** A pattern at the front is the first occurrence, so replacing it swaps the prefix. */
  lemma ReplacePrefix(p: string, rest: string, v: string)
    ensures ReplaceFirst(p + rest, p, v) == v + rest
  {
    assert OccursAt(p + rest, p, 0);
    assert (p + rest)[|p|..] == rest;
  }

  /** A pattern occurs in any string built around it. */
  lemma ContainsInfix(a: string, p: string, b: string)
    ensures Contains(a + p + b, p)
  {
    assert (a + p + b)[|a|..|a| + |p|] == p;
    assert OccursAt(a + p + b, p, |a|);
  }
}
