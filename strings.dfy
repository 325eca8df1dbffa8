/**
 * The few Python string operations the core relies on: the substring
 * test `w in s`, `s.endswith(suffix)`, and splitting at the first
 * occurrence of a separator character.
 */
module Strings {
  import opened Wrappers

  /** `w` occurs in `s` starting at position `i`. */
  predicate OccursAt(s: string, w: string, i: nat)
  {
    i + |w| <= |s| && s[i..i + |w|] == w
  }

  /** Python's `w in s` on strings: `w` is a contiguous piece of `s`. */
  predicate Contains(s: string, w: string)
    decreases |s|
  {
    w <= s || (|s| > 0 && Contains(s[1..], w))
  }

  /** A piece found at some position is contained. */
  lemma {:induction false} OccursContains(s: string, w: string, i: nat)
    requires OccursAt(s, w, i)
    ensures Contains(s, w)
    decreases i
  {
    if i == 0 {
      assert s[..|w|] == w;
    } else {
      assert s[1..][i - 1..i - 1 + |w|] == s[i..i + |w|];
      OccursContains(s[1..], w, i - 1);
    }
  }

  /** A contained piece is found at some position. */
  lemma {:induction false} ContainsOccurs(s: string, w: string) returns (i: nat)
    requires Contains(s, w)
    ensures OccursAt(s, w, i)
    decreases |s|
  {
    if w <= s {
      i := 0;
    } else {
      var j := ContainsOccurs(s[1..], w);
      assert s[j + 1..j + 1 + |w|] == s[1..][j..j + |w|];
      i := j + 1;
    }
  }

  /** Every character of a piece of `s` is a character of `s`. */
  lemma ContainsChar(s: string, w: string, c: char)
    requires Contains(s, w) && c in w
    ensures c in s
  {
    var i := ContainsOccurs(s, w);
    var k :| 0 <= k < |w| && w[k] == c;
    assert s[i..i + |w|][k] == s[i + k];
  }

  /** Python's `s.endswith(suffix)`. */
  predicate EndsWith(s: string, suffix: string)
  {
    |suffix| <= |s| && s[|s| - |suffix|..] == suffix
  }

  /** The position of the first `c` in `s`, if there is one. */
  function IndexOf(s: string, c: char): (r: Option<nat>)
    ensures r.None? <==> c !in s
    ensures r.Some? ==> r.value < |s| && s[r.value] == c && c !in s[..r.value]
  {
    if s == [] then None
    else if s[0] == c then Some(0)
    else
      match IndexOf(s[1..], c)
      case None => None
      case Some(k) =>
        assert s[..k + 1] == [s[0]] + s[1..][..k];
        Some(k + 1)
  }

  /** Splits `s` around its first `sep`: the part before and the part after. */
  function SplitOnce(s: string, sep: char): (r: Option<(string, string)>)
  {
    match IndexOf(s, sep)
    case None => None
    case Some(k) => Some((s[..k], s[k + 1..]))
  }

  /** The first `c` in `a + b` is the head of `b` when `a` has none. */
  lemma IndexOfAfter(a: string, b: string, c: char)
    requires c !in a && |b| > 0 && b[0] == c
    ensures IndexOf(a + b, c) == Some(|a|)
  {
    var s := a + b;
    assert s[|a|] == c;
    assert s[..|a|] == a;
  }

  /** Splitting `a + [sep] + b` recovers `a` and `b` when `a` has no `sep`. */
  lemma SplitOnceJoin(a: string, sep: char, b: string)
    requires sep !in a
    ensures SplitOnce(a + [sep] + b, sep) == Some((a, b))
  {
    var s := a + [sep] + b;
    assert s[|a|] == sep;
    assert s[..|a|] == a;
    assert s[|a| + 1..] == b;
  }
}
