/**
 * JavaScript objects used as records: their own string keys in insertion
 * order, each with a value. `Object.assign` updates a key in place when it
 * is already there and appends it otherwise; a lookup sees the value last
 * written under the key.
 */
module Records {
  import opened Wrappers

  /** An object's own entries, in insertion order. */
  type Entries<V> = seq<(string, V)>

  function KeysOf<V>(es: Entries<V>): (r: seq<string>)
    ensures |r| == |es| && forall i :: 0 <= i < |es| ==> r[i] == es[i].0
  {
    if es == [] then [] else KeysOf(es[..|es| - 1]) + [es[|es| - 1].0]
  }

  function ValuesOf<V>(es: Entries<V>): (r: seq<V>)
    ensures |r| == |es| && forall i :: 0 <= i < |es| ==> r[i] == es[i].1
  {
    if es == [] then [] else ValuesOf(es[..|es| - 1]) + [es[|es| - 1].1]
  }

  predicate DistinctKeys<V>(es: Entries<V>) {
    forall i, j :: 0 <= i < j < |es| ==> es[i].0 != es[j].0
  }

  /** `o[k]`: the value written last under `k`, or `None` (`undefined`). */
  function Get<V>(es: Entries<V>, k: string): (r: Option<V>)
    ensures r.None? <==> k !in KeysOf(es)
    ensures r.Some? ==> exists i :: 0 <= i < |es| && es[i] == (k, r.value)
  {
    if es == [] then None
    else if es[|es| - 1].0 == k then Some(es[|es| - 1].1)
    else
      var init := es[..|es| - 1];
      assert KeysOf(es) == KeysOf(init) + [es[|es| - 1].0];
      Get(init, k)
  }

  /** `o[k] = v`: an existing key keeps its place and takes the new value; a new key goes last. */
  function Assign<V>(es: Entries<V>, k: string, v: V): (r: Entries<V>)
    ensures k in KeysOf(es) ==> |r| == |es| && forall i :: 0 <= i < |es| ==> r[i] == (if es[i].0 == k then (k, v) else es[i])
    ensures k !in KeysOf(es) ==> r == es + [(k, v)]
  {
    if k in KeysOf(es) then seq(|es|, i requires 0 <= i < |es| => if es[i].0 == k then (k, v) else es[i])
    else es + [(k, v)]
  }

  /** `Object.assign(target, source)`: the entries of `source` written into `target` one by one, in order. */
  function AssignAll<V>(target: Entries<V>, source: Entries<V>): Entries<V> {
    if source == [] then target
    else
      var last := source[|source| - 1];
      Assign(AssignAll(target, source[..|source| - 1]), last.0, last.1)
  }

  /** A key reads the same in two objects with the same key layout and the same entries under it. */
  lemma {:induction false} GetSameEntries<V>(es: Entries<V>, r: Entries<V>, k: string)
    requires |r| == |es|
    requires forall i :: 0 <= i < |es| ==> r[i].0 == es[i].0 && (es[i].0 == k ==> r[i] == es[i])
    ensures Get(r, k) == Get(es, k)
    decreases |es|
  {
    if es != [] {
      GetSameEntries(es[..|es| - 1], r[..|r| - 1], k);
    }
  }

  /** A key all of whose entries hold `v` reads `v`. */
  lemma {:induction false} GetUniform<V>(es: Entries<V>, k: string, v: V)
    requires k in KeysOf(es)
    requires forall i :: 0 <= i < |es| && es[i].0 == k ==> es[i].1 == v
    ensures Get(es, k) == Some(v)
    decreases |es|
  {
    var init := es[..|es| - 1];
    if es[|es| - 1].0 != k {
      assert KeysOf(es) == KeysOf(init) + [es[|es| - 1].0];
      GetUniform(init, k, v);
    }
  }

  /** Writing `k` changes what `k` reads and nothing else. */
  lemma {:induction false} GetAssign<V>(es: Entries<V>, k: string, v: V, k': string)
    ensures Get(Assign(es, k, v), k') == if k' == k then Some(v) else Get(es, k')
  {
    var r := Assign(es, k, v);
    if k !in KeysOf(es) {
      assert r[..|r| - 1] == es;
    } else if k' == k {
      assert KeysOf(r) == KeysOf(es);
      GetUniform(r, k, v);
    } else {
      GetSameEntries(es, r, k');
    }
  }

  /** After `Object.assign`, a key reads its value in `source` when it has one there, its old value otherwise. */
  lemma {:induction false} GetAssignAll<V>(target: Entries<V>, source: Entries<V>, k: string)
    ensures Get(AssignAll(target, source), k) == if Get(source, k).Some? then Get(source, k) else Get(target, k)
    decreases |source|
  {
    if source != [] {
      var init := source[..|source| - 1];
      var last := source[|source| - 1];
      GetAssignAll(target, init, k);
      GetAssign(AssignAll(target, init), last.0, last.1, k);
    }
  }

  /** Writing keeps the keys distinct. */
  lemma {:induction false} AssignDistinct<V>(es: Entries<V>, k: string, v: V)
    requires DistinctKeys(es)
    ensures DistinctKeys(Assign(es, k, v))
  {
  }

  /** `Object.assign` onto an object with distinct keys leaves each key once. */
  lemma {:induction false} AssignAllDistinct<V>(target: Entries<V>, source: Entries<V>)
    requires DistinctKeys(target)
    ensures DistinctKeys(AssignAll(target, source))
    decreases |source|
  {
    if source != [] {
      var last := source[|source| - 1];
      AssignAllDistinct(target, source[..|source| - 1]);
      AssignDistinct(AssignAll(target, source[..|source| - 1]), last.0, last.1);
    }
  }

  /** Writing `k` keeps every key where it was and adds `k` to the keys. */
  lemma {:induction false} AssignKeys<V>(es: Entries<V>, k: string, v: V)
    ensures |es| <= |Assign(es, k, v)|
    ensures forall i :: 0 <= i < |es| ==> Assign(es, k, v)[i].0 == es[i].0
    ensures KeysOf(Assign(es, k, v)) == KeysOf(es) + if k in KeysOf(es) then [] else [k]
  {
    var r := Assign(es, k, v);
    if k in KeysOf(es) {
      assert KeysOf(r) == KeysOf(es);
    } else {
      assert KeysOf(r) == KeysOf(es) + [k];
    }
  }

  /** Writing again the key added last rewrites that entry alone. */
  lemma {:induction false} AssignNewest<V>(es: Entries<V>, k: string, v1: V, v2: V)
    requires k !in KeysOf(es)
    ensures Assign(es + [(k, v1)], k, v2) == es + [(k, v2)]
  {
    AssignKeys(es, k, v1);
    assert forall i :: 0 <= i < |es| ==> es[i].0 != k;
  }

  /**
   * `Object.assign` keeps the target's keys where they were, and the result
   * holds exactly the keys of the target and the source.
   */
  lemma {:induction false} AssignAllKeys<V>(target: Entries<V>, source: Entries<V>)
    ensures var r := AssignAll(target, source);
      && |target| <= |r|
      && (forall i :: 0 <= i < |target| ==> r[i].0 == target[i].0)
      && (forall k :: k in KeysOf(r) <==> k in KeysOf(target) || k in KeysOf(source))
    decreases |source|
  {
    if source != [] {
      var init := source[..|source| - 1];
      var last := source[|source| - 1];
      AssignAllKeys(target, init);
      AssignKeys(AssignAll(target, init), last.0, last.1);
      assert KeysOf(source) == KeysOf(init) + [last.0];
    }
  }

  /** `Object.assign` over a concatenated source is two assigns, one after the other. */
  lemma {:induction false} AssignAllAppend<V>(target: Entries<V>, a: Entries<V>, b: Entries<V>)
    ensures AssignAll(target, a + b) == AssignAll(AssignAll(target, a), b)
    decreases |b|
  {
    if b == [] {
      assert a + b == a;
    } else {
      var init := b[..|b| - 1];
      assert (a + b)[..|a + b| - 1] == a + init;
      assert (a + b)[|a + b| - 1] == b[|b| - 1];
      AssignAllAppend(target, a, init);
    }
  }

  /** The keys in the order they first appear, each once. */
  function FirstOccurrences(ks: seq<string>): (r: seq<string>)
    ensures forall k :: k in r <==> k in ks
  {
    if ks == [] then []
    else
      var init := FirstOccurrences(ks[..|ks| - 1]);
      var last := ks[|ks| - 1];
      assert ks == ks[..|ks| - 1] + [last];
      if last in init then init else init + [last]
  }

  /**
   * Writing a run of entries into `{}` orders the keys by where they first
   * appear: a later write to a key never moves it.
   */
  lemma {:induction false} AssignAllKeyOrder<V>(source: Entries<V>)
    ensures KeysOf(AssignAll([], source)) == FirstOccurrences(KeysOf(source))
    decreases |source|
  {
    if source != [] {
      var init := source[..|source| - 1];
      var last := source[|source| - 1];
      AssignAllKeyOrder(init);
      AssignKeys(AssignAll([], init), last.0, last.1);
      assert KeysOf(source)[..|source| - 1] == KeysOf(init);
    }
  }

  /** The position of `k` among the keys of `es`, when present. */
  function IndexOfKey<V>(es: Entries<V>, k: string): (r: Option<nat>)
    ensures r.Some? ==> r.value < |es| && es[r.value].0 == k
    ensures r.None? ==> k !in KeysOf(es)
  {
    if es == [] then None
    else if es[|es| - 1].0 == k then Some(|es| - 1)
    else IndexOfKey(es[..|es| - 1], k)
  }

  /** An in-place write under a present key: every entry under `k` takes `v`, the order is kept. */
  method UpdateAll<V>(es: Entries<V>, k: string, v: V) returns (r: Entries<V>)
    ensures |r| == |es| && forall i :: 0 <= i < |es| ==> r[i] == (if es[i].0 == k then (k, v) else es[i])
  {
    r := es;
    var i := 0;
    while i < |es|
      invariant 0 <= i <= |es| && |r| == |es|
      invariant forall j :: 0 <= j < i ==> r[j] == (if es[j].0 == k then (k, v) else es[j])
      invariant forall j :: i <= j < |es| ==> r[j] == es[j]
    {
      if es[i].0 == k {
        r := r[i := (k, v)];
      }
      i := i + 1;
    }
  }

  /** `o[k] = v` on an object held as entries. */
  method Put<V>(es: Entries<V>, k: string, v: V) returns (r: Entries<V>)
    ensures r == Assign(es, k, v)
  {
    var at := IndexOfKey(es, k);
    if at.Some? {
      r := UpdateAll(es, k, v);
    } else {
      r := es + [(k, v)];
    }
  }
}
