/** String predicates and searches with the semantics of Python's `str` methods
    `startswith`, `endswith` and `replace(a, b, 1)`, plus the search behind
    `split` (`FindFrom`) and a character count used to state what `ReplaceFirst`
    removes. */
module Strings {

  /** `s.startswith(p)` */
  predicate StartsWith(s: string, p: string)
  {
    |p| <= |s| && s[..|p|] == p
  }

  /** `s.endswith(p)` */
  predicate EndsWith(s: string, p: string)
  {
    |p| <= |s| && s[|s| - |p|..] == p
  }

  /** `pat` occurs in `s` starting at index `k`. */
  predicate OccursAt(s: string, pat: string, k: int)
  {
    0 <= k && k + |pat| <= |s| && s[k..k + |pat|] == pat
  }

  /** Index of the first occurrence of `pat` in `s` at or after `from`, or `|s|`
      when there is none (`s.find(pat, from)`, with `|s|` in place of -1). */
  function FindFrom(s: string, pat: string, from: nat): (k: nat)
    requires from <= |s|
    ensures from <= k <= |s|
    ensures k < |s| ==> OccursAt(s, pat, k)
    ensures forall j :: from <= j < k ==> !OccursAt(s, pat, j)
    decreases |s| - from
  {
    if from == |s| then |s|
    else if OccursAt(s, pat, from) then from
    else FindFrom(s, pat, from + 1)
  }

  /** Index of the first `c` in `s`, or `|s|` when `c` does not occur. */
  function IndexOf(s: string, c: char): (i: nat)
    ensures i <= |s|
    ensures i < |s| <==> c in s
    ensures i < |s| ==> s[i] == c
    ensures forall j :: 0 <= j < i ==> s[j] != c
  {
    if |s| == 0 then 0
    else if s[0] == c then 0
    else 1 + IndexOf(s[1..], c)
  }

  /** Number of occurrences of `c` in `s` (`s.count(c)`). */
  function Count(s: string, c: char): nat
  {
    if |s| == 0 then 0
    else (if s[0] == c then 1 else 0) + Count(s[1..], c)
  }

  lemma {:induction false} CountAppend(a: string, b: string, c: char)
    ensures Count(a + b, c) == Count(a, c) + Count(b, c)
  {
    if |a| == 0 {
      assert a + b == b;
    } else {
      assert (a + b)[1..] == a[1..] + b;
      CountAppend(a[1..], b, c);
    }
  }

  /** `s.replace(target, replacement, 1)`: only the first occurrence of `target` is replaced. */
  function ReplaceFirst(s: string, target: char, replacement: char): (r: string)
    ensures |r| == |s|
    ensures target !in s ==> r == s
    ensures target in s ==> r[IndexOf(s, target)] == replacement
    ensures forall j :: 0 <= j < |s| && j != IndexOf(s, target) ==> r[j] == s[j]
  {
    var i := IndexOf(s, target);
    if i == |s| then s else s[..i] + [replacement] + s[i + 1..]
  }

  /** Replacing the first occurrence removes exactly one `target` when `replacement` differs
      from it: every later occurrence survives. */
  lemma ReplaceFirstRemovesExactlyOne(s: string, target: char, replacement: char)
    requires target in s && target != replacement
    ensures Count(ReplaceFirst(s, target, replacement), target) == Count(s, target) - 1
    ensures target !in ReplaceFirst(s, target, replacement)[..IndexOf(s, target) + 1]
    ensures ReplaceFirst(s, target, replacement)[IndexOf(s, target) + 1..] == s[IndexOf(s, target) + 1..]
  {
    var i := IndexOf(s, target);
    var r := ReplaceFirst(s, target, replacement);
    assert s == s[..i] + [target] + s[i + 1..];
    assert r == s[..i] + [replacement] + s[i + 1..];
    CountAppend(s[..i] + [target], s[i + 1..], target);
    CountAppend(s[..i], [target], target);
    CountAppend(s[..i] + [replacement], s[i + 1..], target);
    CountAppend(s[..i], [replacement], target);
    assert Count([target], target) == 1 by { assert [target][1..] == []; }
    assert Count([replacement], target) == 0 by { assert [replacement][1..] == []; }
  }

  /** The first `c` in `a + [c] + b` is the one after `a` when `a` holds none. */
  lemma IndexOfAfter(a: string, c: char, b: string)
    requires c !in a
    ensures IndexOf(a + [c] + b, c) == |a|
  {
    var s := a + [c] + b;
    var i := IndexOf(s, c);
    assert s[|a|] == c;
    assert forall j :: 0 <= j < |a| ==> s[j] == a[j];
  }

  /** When `a` holds no `target`, the first replacement happens right after `a`. */
  lemma ReplaceFirstAfter(a: string, target: char, replacement: char, b: string)
    requires target !in a
    ensures ReplaceFirst(a + [target] + b, target, replacement) == a + [replacement] + b
  {
    IndexOfAfter(a, target, b);
    var s := a + [target] + b;
    assert s[..|a|] == a;
    assert s[|a| + 1..] == b;
  }
}
