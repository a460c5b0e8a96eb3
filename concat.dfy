/**
 * The Concatenator. lib/index.js joins the loaded fragments in input order
 * and inserts a newline where two neighbours would otherwise run together;
 * failed loads are dropped first. index.js merges one-entry records keyed
 * by the fragment's virtual path and joins their contents with no
 * separator.
 */
module Concat {
  import opened Wrappers
  import opened Records

  predicate EndsWithNewline(s: string) {
    |s| > 0 && s[|s| - 1] == '\n'
  }

  predicate StartsWithNewline(s: string) {
    |s| > 0 && s[0] == '\n'
  }

  /** `prev.slice(-1) !== '\n' && cur.slice(0, 1) !== '\n'`. */
  predicate NeedsSeparator(prev: string, cur: string) {
    !EndsWithNewline(prev) && !StartsWithNewline(cur)
  }

  /** What precedes fragment `i` in the joined text. */
  function Separator(fs: seq<string>, i: nat): (r: string)
    requires i < |fs|
    ensures r == "" || r == "\n"
    ensures r == "\n" <==> i > 0 && NeedsSeparator(fs[i - 1], fs[i])
  {
    if i > 0 && NeedsSeparator(fs[i - 1], fs[i]) then "\n" else ""
  }

  /** The text of the ConcatSource built from `fs`. */
  function Joined(fs: seq<string>): string {
    if fs == [] then "" else Joined(fs[..|fs| - 1]) + Separator(fs, |fs| - 1) + fs[|fs| - 1]
  }

  /**
   * resolveConcatAndUglify's loop: each fragment is added after a newline
   * exactly when its predecessor does not end with one and it does not
   * start with one.
   */
  method Concatenate(fs: seq<string>) returns (text: string)
    ensures text == Joined(fs)
  {
    text := "";
    var idx := 0;
    while idx < |fs|
      invariant 0 <= idx <= |fs|
      invariant text == Joined(fs[..idx])
    {
      if idx > 0 {
        var prevSourceText := fs[idx - 1];
        var currentSourceText := fs[idx];
        if !EndsWithNewline(prevSourceText) && !StartsWithNewline(currentSourceText) {
          text := text + "\n";
        }
      }
      text := text + fs[idx];
      assert fs[..idx + 1][..idx] == fs[..idx];
      idx := idx + 1;
    }
    assert fs[..idx] == fs;
  }

  /** The joined text of a prefix of the fragments is a prefix of the joined text: order is kept. */
  lemma {:induction false} JoinedPrefix(fs: seq<string>, n: nat)
    requires n <= |fs|
    ensures Joined(fs[..n]) <= Joined(fs)
    decreases |fs| - n
  {
    if n < |fs| {
      var m := fs[..n + 1];
      assert m[..n] == fs[..n];
      assert Joined(m) == Joined(fs[..n]) + Separator(m, n) + fs[n];
      JoinedPrefix(fs, n + 1);
    } else {
      assert fs[..n] == fs;
    }
  }

  /** Adding a fragment appends the separator it needs and then the fragment itself. */
  lemma {:induction false} JoinedSnoc(fs: seq<string>, f: string)
    ensures Joined(fs + [f]) == Joined(fs) + (if |fs| > 0 && NeedsSeparator(fs[|fs| - 1], f) then "\n" else "") + f
  {
    assert (fs + [f])[..|fs|] == fs;
  }

  /** Fragment `i` starts right after the joined text of those before it and its separator. */
  lemma {:induction false} FragmentPlacement(fs: seq<string>, i: nat)
    requires i < |fs|
    ensures Joined(fs[..i]) + Separator(fs, i) + fs[i] <= Joined(fs)
  {
    var m := fs[..i + 1];
    assert m[..i] == fs[..i];
    assert Joined(m) == Joined(fs[..i]) + Separator(m, i) + fs[i];
    JoinedPrefix(fs, i + 1);
  }

  /**
   * Neighbouring fragments never run together on one line: a newline ends
   * the earlier one, starts the later one, or is put between them.
   */
  lemma {:induction false} NoFusion(fs: seq<string>, i: nat)
    requires 0 < i < |fs|
    ensures EndsWithNewline(fs[i - 1]) || StartsWithNewline(fs[i]) || Separator(fs, i) == "\n"
  {
  }

  /** Fragments that all end in a newline are joined with nothing between them. */
  lemma {:induction false} TerminatedFragmentsJoinPlainly(fs: seq<string>)
    requires forall i :: 0 <= i < |fs| ==> EndsWithNewline(fs[i])
    ensures Joined(fs) == PlainConcat(fs)
    decreases |fs|
  {
    if fs != [] {
      var init := fs[..|fs| - 1];
      TerminatedFragmentsJoinPlainly(init);
    }
  }

  /** The length of the joined text: every fragment plus one per inserted newline. */
  lemma {:induction false} JoinedLength(fs: seq<string>)
    ensures |Joined(fs)| == |PlainConcat(fs)| + SeparatorCount(fs)
    decreases |fs|
  {
    if fs != [] {
      JoinedLength(fs[..|fs| - 1]);
    }
  }

  /** How many newlines the join inserts. */
  function SeparatorCount(fs: seq<string>): nat {
    if fs == [] then 0 else SeparatorCount(fs[..|fs| - 1]) + |Separator(fs, |fs| - 1)|
  }

  /** Two statements without newlines are put on separate lines. */
  lemma {:induction false} TwoStatements(a: string, b: string)
    requires a == "var a=1;" && b == "var b=2;"
    ensures Joined([a, b]) == a + "\n" + b
  {
    var fs := [a, b];
    assert Joined([a]) == a by {
      assert [a][..0] == [];
      assert Joined([a]) == Joined([]) + Separator([a], 0) + a;
    }
    assert fs[..1] == [a];
    assert !EndsWithNewline(a) && !StartsWithNewline(b);
    assert Joined(fs) == Joined(fs[..1]) + Separator(fs, 1) + b;
  }

  /**
   * The check looks at the previous fragment, not at the text so far: an
   * empty fragment after a terminated one still gets a newline after it.
   */
  lemma {:induction false} EmptyFragmentBetween(a: string, b: string)
    requires EndsWithNewline(a) && !StartsWithNewline(b)
    ensures Joined([a, "", b]) == a + "\n" + b
  {
    var fs := [a, "", b];
    assert Joined([a]) == a by {
      assert [a][..0] == [];
      assert Joined([a]) == Joined([]) + Separator([a], 0) + a;
    }
    assert Joined([a, ""]) == a by {
      assert [a, ""][..1] == [a];
      assert Joined([a, ""]) == Joined([a]) + Separator([a, ""], 1) + "";
    }
    assert fs[..2] == [a, ""];
    assert Joined(fs) == Joined(fs[..2]) + Separator(fs, 2) + b;
  }

  /**
   * The `Promise.allSettled` reduce in createNewPromise: the values of the
   * fulfilled loads, in input order; rejected loads are dropped.
   */
  function KeepLoaded<T(!new)>(results: seq<Option<T>>): (r: seq<T>)
    ensures |r| <= |results|
    ensures forall x :: x in r <==> Some(x) in results
  {
    if results == [] then []
    else
      var init := KeepLoaded(results[..|results| - 1]);
      assert forall y :: y in results <==> y in results[..|results| - 1] || y == results[|results| - 1];
      match results[|results| - 1]
      case Some(v) => init + [v]
      case None => init
  }

  /** Keeping the loaded values distributes over concatenation: relative order is kept. */
  lemma {:induction false} KeepLoadedAppend<T(!new)>(a: seq<Option<T>>, b: seq<Option<T>>)
    ensures KeepLoaded(a + b) == KeepLoaded(a) + KeepLoaded(b)
    decreases |b|
  {
    if b == [] {
      assert a + b == a;
    } else {
      var b' := b[..|b| - 1];
      assert (a + b)[..|a + b| - 1] == a + b';
      KeepLoadedAppend(a, b');
    }
  }

  /** When every load succeeds, every fragment is kept, in order. */
  lemma {:induction false} AllLoadedKept<T(!new)>(results: seq<Option<T>>)
    requires forall i :: 0 <= i < |results| ==> results[i].Some?
    ensures |KeepLoaded(results)| == |results|
    ensures forall i :: 0 <= i < |results| ==> KeepLoaded(results)[i] == results[i].value
    decreases |results|
  {
    if results != [] {
      var init := results[..|results| - 1];
      AllLoadedKept(init);
      assert KeepLoaded(results) == KeepLoaded(init) + [results[|results| - 1].value];
    }
  }

  /** A failed load leaves the others, joined without it. */
  lemma {:induction false} FailedLoadDropped<T(!new)>(a: seq<Option<T>>, b: seq<Option<T>>)
    ensures KeepLoaded(a + [None] + b) == KeepLoaded(a) + KeepLoaded(b)
  {
    var none: seq<Option<T>> := [None];
    KeepLoadedAppend(a + none, b);
    KeepLoadedAppend(a, none);
    assert none[..0] == [];
  }

  // index.js: record merge and separator-free concatenation.

  /** resolveConcatAndUglify's `files.reduce((file1, file2) => Object.assign(file1, file2), {})`. */
  function Merged(records: Entries<string>): Entries<string> {
    AssignAll([], records)
  }

  /**
   * The merge with the accumulator updated in place: a path seen before keeps
   * its first position and takes the later content.
   */
  method MergeRecords(records: Entries<string>) returns (merged: Entries<string>)
    ensures merged == Merged(records)
  {
    merged := [];
    var n := 0;
    while n < |records|
      invariant 0 <= n <= |records|
      invariant merged == AssignAll([], records[..n])
    {
      var (k, v) := records[n];
      merged := Put(merged, k, v);
      assert records[..n + 1][..n] == records[..n];
      n := n + 1;
    }
    assert records[..n] == records;
  }

  /** The merged object holds each path once, exactly the paths of the records. */
  lemma {:induction false} MergedPaths(records: Entries<string>, k: string)
    ensures DistinctKeys(Merged(records))
    ensures k in KeysOf(Merged(records)) <==> k in KeysOf(records)
  {
    AssignAllDistinct([], records);
    AssignAllKeys([], records);
  }

  /** Each path of the merged object carries the content read last for it. */
  lemma {:induction false} MergedContent(records: Entries<string>, k: string)
    ensures Get(Merged(records), k) == Get(records, k)
  {
    GetAssignAll([], records, k);
  }

  /** A path listed twice keeps the content read last, at the place where it first appeared. */
  lemma {:induction false} DuplicateCollapses(a: Entries<string>, k: string, v1: string, v2: string)
    requires k !in KeysOf(a)
    ensures Merged(a + [(k, v1), (k, v2)]) == Merged(a) + [(k, v2)]
  {
    var r := a + [(k, v1), (k, v2)];
    assert r[..|r| - 1] == a + [(k, v1)];
    assert (a + [(k, v1)])[..|a|] == a;
    MergedPaths(a, k);
    assert Merged(a + [(k, v1)]) == Merged(a) + [(k, v1)];
    AssignNewest(Merged(a), k, v1, v2);
  }

  /** The merged paths come in the order in which each was first read. */
  lemma {:induction false} MergedKeyOrder(records: Entries<string>)
    ensures KeysOf(Merged(records)) == FirstOccurrences(KeysOf(records))
  {
    AssignAllKeyOrder(records);
  }

  /**
   * A path read first after the records `a` sits right after their merged
   * paths, whatever follows it, later copies of it included.
   */
  lemma {:induction false} FirstPosition(a: Entries<string>, k: string, v: string, b: Entries<string>)
    requires k !in KeysOf(a)
    ensures |Merged(a)| < |Merged(a + [(k, v)] + b)| && Merged(a + [(k, v)] + b)[|Merged(a)|].0 == k
  {
    var head := a + [(k, v)];
    assert head[..|head| - 1] == a;
    MergedPaths(a, k);
    assert Merged(head) == Merged(a) + [(k, v)];
    AssignAllAppend([], head, b);
    AssignAllKeys(Merged(head), b);
  }

  /** Merging one more record is one more write into the merged object. */
  lemma {:induction false} MergedSnoc(a: Entries<string>, k: string, v: string)
    ensures Merged(a + [(k, v)]) == Assign(Merged(a), k, v)
  {
    assert (a + [(k, v)])[..|a|] == a;
  }

  /** Two parts join plainly. */
  lemma {:induction false} PlainConcatPair(p: string, q: string)
    ensures PlainConcat([p, q]) == p + q
  {
    assert [p, q][..1] == [p];
    assert [p][..0] == [];
  }

  /**
   * Paths read as x, y, x merge to x then y, x holding its second content:
   * the emitted text is x's later content followed by y's.
   */
  lemma {:induction false} RereadKeepsPlace(x: string, y: string, vx1: string, vy: string, vx2: string)
    requires x != y
    ensures Merged([(x, vx1), (y, vy), (x, vx2)]) == [(x, vx2), (y, vy)]
    ensures PlainConcat(ValuesOf(Merged([(x, vx1), (y, vy), (x, vx2)]))) == vx2 + vy
  {
    var none: Entries<string> := [];
    var r1 := none + [(x, vx1)];
    var r2 := r1 + [(y, vy)];
    var r3 := r2 + [(x, vx2)];
    MergedSnoc(none, x, vx1);
    assert Merged(none) == [];
    assert Merged(r1) == r1;
    MergedSnoc(r1, y, vy);
    assert KeysOf(r1) == [x];
    assert Merged(r2) == r2;
    MergedSnoc(r2, x, vx2);
    assert KeysOf(r2)[0] == x;
    var m := Merged(r3);
    assert |m| == 2 && m[0] == (x, vx2) && m[1] == (y, vy);
    assert m == [(x, vx2), (y, vy)];
    assert r3 == [(x, vx1), (y, vy), (x, vx2)];
    assert ValuesOf(m) == [vx2, vy];
    PlainConcatPair(vx2, vy);
  }

  /** `Object.keys(files).reduce((c, name) => c + files[name], '')`: the contents, no separator. */
  function PlainConcat(parts: seq<string>): (r: string)
    ensures parts == [] ==> r == ""
  {
    if parts == [] then "" else PlainConcat(parts[..|parts| - 1]) + parts[|parts| - 1]
  }

  /** The legacy emit loop: each merged entry's content is added to the ConcatSource in key order. */
  method ConcatEntries(es: Entries<string>) returns (text: string)
    ensures text == PlainConcat(ValuesOf(es))
  {
    text := "";
    var i := 0;
    while i < |es|
      invariant 0 <= i <= |es|
      invariant text == PlainConcat(ValuesOf(es[..i]))
    {
      var (name, file) := es[i];
      text := text + file;
      assert ValuesOf(es[..i + 1]) == ValuesOf(es[..i]) + [file] by {
        assert es[..i + 1][..i] == es[..i];
      }
      i := i + 1;
    }
    assert es[..i] == es;
  }

  /** Plain concatenation distributes over the list of parts. */
  lemma {:induction false} PlainConcatAppend(a: seq<string>, b: seq<string>)
    ensures PlainConcat(a + b) == PlainConcat(a) + PlainConcat(b)
    decreases |b|
  {
    if b == [] {
      assert a + b == a;
    } else {
      var b' := b[..|b| - 1];
      assert (a + b)[..|a + b| - 1] == a + b';
      PlainConcatAppend(a, b');
    }
  }
}
