/**
 * String searching as JavaScript's `String.prototype.replace` does it with a
 * string pattern or a non-global regular expression: only the leftmost
 * occurrence is found and replaced.
 */
module Text {
  import opened Wrappers

  predicate StartsWith(s: string, p: string) {
    |p| <= |s| && s[..|p|] == p
  }

  predicate EndsWith(s: string, p: string) {
    |p| <= |s| && s[|s| - |p|..] == p
  }

  /** `p` occurs in `s` starting at index `i`. */
  predicate OccursAt(s: string, p: string, i: nat) {
    i + |p| <= |s| && s[i..i + |p|] == p
  }

  /** An occurrence at `i` is the suffix from `i` starting with the pattern. */
  lemma {:induction false} OccursAtSuffix(s: string, p: string, i: nat)
    requires i <= |s|
    ensures OccursAt(s, p, i) <==> StartsWith(s[i..], p)
  {
    if i + |p| <= |s| {
      assert s[i..][..|p|] == s[i..i + |p|];
    }
  }

  /** How slices of `a + b` at and after the seam relate to `a` and `b`. */
  lemma {:induction false} SliceAtSeam(a: string, b: string, n: nat)
    requires n <= |b|
    ensures (a + b)[..|a|] == a
    ensures (a + b)[|a| + n..] == b[n..]
  {
  }

  /** The same text however its pieces are bracketed. */
  lemma {:induction false} Regroup3(a: string, b: string, c: string)
    ensures a + b + c == a + (b + c)
  {
  }

  lemma {:induction false} Regroup4(a: string, b: string, c: string, d: string)
    ensures a + b + c + d == a + (b + c + d)
  {
  }

  lemma {:induction false} Regroup5(a: string, b: string, c: string, d: string, e: string)
    ensures a + b + c + d + e == a + (b + c + d + e)
  {
  }

  /** Dropping a leading piece leaves what follows it. */
  lemma {:induction false} Ungroup4(a: string, b: string, c: string, d: string) ensures a + (b + c) + d == a + b + c + d {}

  lemma {:induction false} TakeLeading(a: string, b: string) ensures (a + b)[..|a|] == a {}

  lemma {:induction false} DropLeading(a: string, b: string)
    ensures (a + b)[|a|..] == b
  {
  }

  /** An occurrence of `a + b` at `i` is `a` at `i` followed by `b`. */
  lemma {:induction false} OccursAtSplit(s: string, a: string, b: string, i: nat)
    requires OccursAt(s, a + b, i)
    ensures OccursAt(s, a, i) && OccursAt(s, b, i + |a|)
  {
    var w := s[i..i + |a| + |b|];
    assert w == a + b;
    forall t | 0 <= t < |a|
      ensures s[i..i + |a|][t] == a[t]
    {
      assert s[i..i + |a|][t] == w[t];
    }
    forall t | 0 <= t < |b|
      ensures s[i + |a|..i + |a| + |b|][t] == b[t]
    {
      assert s[i + |a|..i + |a| + |b|][t] == w[|a| + t];
    }
  }

  /** A slice inside a known prefix of `s` is the same slice of that prefix. */
  lemma {:induction false} SliceInPrefix(s: string, a: string, j: nat, k: nat)
    requires |a| <= |s| && s[..|a|] == a && j <= k <= |a|
    ensures s[j..k] == a[j..k]
  {
    forall t | 0 <= t < k - j
      ensures s[j..k][t] == a[j..k][t]
    {
      assert s[..|a|][j + t] == s[j + t];
    }
  }

  /** `p` occurs nowhere in `s`. */
  predicate Absent(s: string, p: string) {
    forall j :: 0 <= j <= |s| ==> !OccursAt(s, p, j)
  }

  /** The leftmost index at or after `i` where `p` occurs in `s`. */
  function FindFrom(s: string, p: string, i: nat): (r: Option<nat>)
    requires i <= |s|
    ensures r.Some? ==> i <= r.value <= |s| && OccursAt(s, p, r.value)
    ensures r.Some? ==> forall j :: i <= j < r.value ==> !OccursAt(s, p, j)
    ensures r.None? ==> forall j :: i <= j <= |s| ==> !OccursAt(s, p, j)
    decreases |s| - i
  {
    if OccursAt(s, p, i) then Some(i)
    else if i == |s| then None
    else FindFrom(s, p, i + 1)
  }

  /** `s.replace(p, rep)`: the leftmost occurrence of `p` becomes `rep`. */
  function ReplaceFirst(s: string, p: string, rep: string): (r: string)
    ensures Absent(s, p) ==> r == s
  {
    match FindFrom(s, p, 0)
    case None => s
    case Some(i) => s[..i] + rep + s[i + |p|..]
  }

  /** A pattern whose first character occurs nowhere else in it. */
  predicate HeadUnique(p: string) {
    |p| > 0 && forall k :: 0 < k < |p| ==> p[k] != p[0]
  }

  /**
   * No occurrence of a head-unique pattern can start inside a prefix that is
   * free of it, once the text after that prefix begins with the pattern's
   * first character.
   */
  lemma {:induction false} NoOccurrenceInPrefix(a: string, b: string, p: string)
    requires HeadUnique(p) && Absent(a, p)
    requires |b| > 0 && b[0] == p[0]
    ensures forall j :: 0 <= j < |a| ==> !OccursAt(a + b, p, j)
  {
    forall j | 0 <= j < |a|
      ensures !OccursAt(a + b, p, j)
    {
      if j + |p| <= |a| {
        // the candidate lies inside `a`, which is free of `p`
        assert (a + b)[j..j + |p|] == a[j..j + |p|];
        assert !OccursAt(a, p, j);
      } else if j + |p| <= |a + b| {
        // the candidate would need `p[0]`, the first character of `b`, at a later position of `p`
        var k := |a| - j;
        assert (a + b)[j..j + |p|][k] == b[0] != p[k];
      }
    }
  }

  /** In `a + p + b`, with `a` free of the head-unique `p`, the first `p` is the one after `a`. */
  lemma {:induction false} FirstOccurrenceAfter(a: string, p: string, b: string)
    requires HeadUnique(p) && Absent(a, p)
    ensures FindFrom(a + p + b, p, 0) == Some(|a|)
  {
    var s := a + p + b;
    assert a + p + b == a + (p + b);
    NoOccurrenceInPrefix(a, p + b, p);
    assert s[|a|..|a| + |p|] == p;
    assert OccursAt(s, p, |a|);
  }

  /** Only the first occurrence is replaced; everything around it is kept. */
  lemma {:induction false} ReplaceFirstAfter(a: string, p: string, b: string, rep: string)
    requires HeadUnique(p) && Absent(a, p)
    ensures ReplaceFirst(a + p + b, p, rep) == a + rep + b
  {
    FirstOccurrenceAfter(a, p, b);
    var s := a + p + b;
    assert s[..|a|] == a;
    assert s[|a| + |p|..] == b;
  }

  /** Replacing at an occurrence with none before it is what `replace` does. */
  lemma {:induction false} ReplaceAtFirst(s: string, p: string, k: nat, rep: string)
    requires OccursAt(s, p, k)
    requires forall j :: 0 <= j < k ==> !OccursAt(s, p, j)
    ensures ReplaceFirst(s, p, rep) == s[..k] + rep + s[k + |p|..]
  {
    assert FindFrom(s, p, 0) == Some(k);
  }

  /** A string lacking some character of `p` is free of `p`. */
  lemma {:induction false} AbsentByMissingChar(s: string, p: string, k: nat)
    requires k < |p| && forall i :: 0 <= i < |s| ==> s[i] != p[k]
    ensures Absent(s, p)
  {
    forall j | 0 <= j <= |s|
      ensures !OccursAt(s, p, j)
    {
      if j + |p| <= |s| {
        assert s[j..j + |p|][k] == s[j + k] != p[k];
      }
    }
  }

  /** A prefix of a string free of `p` is free of `p`. */
  lemma {:induction false} AbsentPrefix(s: string, p: string, n: nat)
    requires n <= |s| && Absent(s, p)
    ensures Absent(s[..n], p)
  {
    forall j | 0 <= j <= n
      ensures !OccursAt(s[..n], p, j)
    {
      if OccursAt(s[..n], p, j) {
        assert s[..n][j..j + |p|] == s[j..j + |p|];
        assert OccursAt(s, p, j);
      }
    }
  }
}
