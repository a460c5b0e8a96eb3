/**
 * The change detector (`dependenciesChanged`, identical in lib/index.js and
 * index.js): whether the host's file timestamps show that one of the
 * resolved input files changed since the last check, and the snapshot kept
 * for the next check.
 */
module Changes {
  import opened Wrappers

  /**
   * A JavaScript `Map` from file path to timestamp, as its entries in
   * insertion order. A falsy entry (`0`, `null`, `undefined`) is written 0.
   */
  type TimestampMap = seq<(string, int)>

  /** The keys of the map, in insertion order (`Array.from(m.keys())`). */
  function Keys(m: TimestampMap): (r: seq<string>)
    ensures |r| == |m|
    ensures forall i :: 0 <= i < |m| ==> r[i] == m[i].0
  {
    if m == [] then [] else [m[0].0] + Keys(m[1..])
  }

  /** `m.get(k) || 0`: the key's entry, or 0 when it is absent. */
  function Lookup(m: TimestampMap, k: string): (r: int)
    ensures r != 0 ==> exists i :: 0 <= i < |m| && m[i] == (k, r)
    ensures (forall i :: 0 <= i < |m| ==> m[i].0 != k) ==> r == 0
    ensures forall i :: 0 <= i < |m| && m[i].0 == k && (forall j :: 0 <= j < i ==> m[j].0 != k) ==> r == m[i].1
  {
    if m == [] then 0 else if m[0].0 == k then m[0].1 else Lookup(m[1..], k)
  }

  /**
   * A key counts as changed when `(prev.get(file) || startTime) <
   * (cur.get(file) || Infinity)`: a falsy current entry is newer than anything.
   */
  predicate IsChanged(prev: TimestampMap, startTime: int, cur: TimestampMap, file: string) {
    var start := if Lookup(prev, file) != 0 then Lookup(prev, file) else startTime;
    var end := Lookup(cur, file);
    end == 0 || start < end
  }

  /** `keys.filter(isChanged)`. */
  function ChangedFiles(prev: TimestampMap, startTime: int, cur: TimestampMap, keys: seq<string>): (r: seq<string>)
    ensures forall f :: f in r <==> f in keys && IsChanged(prev, startTime, cur, f)
    ensures |r| <= |keys|
  {
    if keys == [] then []
    else
      var rest := ChangedFiles(prev, startTime, cur, keys[1..]);
      if IsChanged(prev, startTime, cur, keys[0]) then [keys[0]] + rest else rest
  }

  /** `changed.some((file) => files.includes(file))`. */
  function SomeIncluded(changed: seq<string>, files: seq<string>): (r: bool)
    ensures r <==> exists f :: f in changed && f in files
  {
    if changed == [] then false
    else changed[0] in files || SomeIncluded(changed[1..], files)
  }

  /** The answer of one check and the snapshot the plugin keeps afterwards. */
  datatype Check = Check(changed: bool, snapshot: TimestampMap)

  /**
   * `dependenciesChanged(compilation, files)` with `ts` the compilation's
   * `fileTimestamps` (`None` when the host gives none) and `prev` the
   * snapshot left by the previous check.
   */
  function DependenciesChanged(ts: Option<TimestampMap>, prev: TimestampMap, startTime: int, files: seq<string>): (r: Check)
    ensures ts.None? || ts.value == [] ==> r == Check(true, prev)
    ensures ts.Some? && ts.value != [] ==> r.snapshot == ts.value
    ensures ts.Some? && ts.value != [] ==>
      (r.changed <==> exists f :: f in files && f in Keys(ts.value) && IsChanged(prev, startTime, ts.value, f))
  {
    if ts.None? then Check(true, prev)
    else
      var keys := Keys(ts.value);
      if |keys| == 0 then Check(true, prev)
      else Check(SomeIncluded(ChangedFiles(prev, startTime, ts.value, keys), files), ts.value)
  }

  /**
   * Checking again against the snapshot just taken, with the host reporting
   * the same non-zero timestamps, finds nothing to rebuild.
   */
  lemma {:induction false} RecheckIsQuiet(ts: TimestampMap, prev: TimestampMap, startTime: int, files: seq<string>)
    requires ts != []
    requires forall i :: 0 <= i < |ts| ==> ts[i].1 != 0
    ensures var first := DependenciesChanged(Some(ts), prev, startTime, files);
      DependenciesChanged(Some(ts), first.snapshot, startTime, files) == Check(false, ts)
  {
    forall f | f in Keys(ts)
      ensures !IsChanged(ts, startTime, ts, f)
    {
      var i :| 0 <= i < |Keys(ts)| && Keys(ts)[i] == f;
      assert ts[i].0 == f;
      LookupPresent(ts, f, i);
    }
  }

  /** Every key with a non-zero entry somewhere in the map has a non-zero lookup. */
  lemma {:induction false} LookupPresent(m: TimestampMap, k: string, i: nat)
    requires i < |m| && m[i].0 == k
    requires forall j :: 0 <= j < |m| ==> m[j].1 != 0
    ensures Lookup(m, k) != 0
    decreases i
  {
    if m[0].0 != k {
      LookupPresent(m[1..], k, i - 1);
    }
  }

  /** Changes to files the plugin does not concatenate never trigger a rebuild. */
  lemma {:induction false} IrrelevantChangesIgnored(ts: TimestampMap, prev: TimestampMap, startTime: int, files: seq<string>)
    requires ts != []
    requires forall i :: 0 <= i < |ts| ==> ts[i].0 !in files
    ensures DependenciesChanged(Some(ts), prev, startTime, files) == Check(false, ts)
  {
  }

  /** An input file whose timestamp moved past its previous one (or past the start time) forces a rebuild. */
  lemma {:induction false} TouchedInputRebuilds(ts: TimestampMap, prev: TimestampMap, startTime: int, files: seq<string>, i: nat)
    requires i < |ts| && ts[i].0 in files
    requires IsChanged(prev, startTime, ts, ts[i].0)
    ensures DependenciesChanged(Some(ts), prev, startTime, files).changed
  {
    assert Keys(ts)[i] == ts[i].0;
  }

  /** The first check against an empty snapshot compares every input file with the start time. */
  lemma {:induction false} FirstCheckUsesStartTime(ts: TimestampMap, startTime: int, f: string)
    ensures IsChanged([], startTime, ts, f) <==> Lookup(ts, f) == 0 || startTime < Lookup(ts, f)
  {
  }

  // The code as written: the snapshot starts as the plain object `{}`.

  /** The initial `prevTimestamps = {}` (`NoMap`), or a snapshot taken by an earlier check. */
  datatype Snapshot = NoMap | Taken(entries: TimestampMap)

  /** Calling `.get` on `{}` throws `TypeError: this.prevTimestamps.get is not a function`. */
  datatype CheckError = GetIsNotAFunction

  /** A check's answer with the snapshot as the code keeps it. */
  datatype SnapshotCheck = SnapshotCheck(changed: bool, snapshot: Snapshot)

  /**
   * `dependenciesChanged` as written, with the snapshot the constructor
   * really installs: a plain object until the first full check replaces it.
   */
  function DependenciesChangedAsWritten(ts: Option<TimestampMap>, prev: Snapshot, startTime: int, files: seq<string>): (r: Result<SnapshotCheck, CheckError>)
    ensures ts.None? || ts.value == [] ==> r == Success(SnapshotCheck(true, prev))
    ensures ts.Some? && ts.value != [] && prev.NoMap? ==> r == Failure(GetIsNotAFunction)
    ensures prev.Taken? ==> var c := DependenciesChanged(ts, prev.entries, startTime, files);
      r == Success(SnapshotCheck(c.changed, Taken(c.snapshot)))
  {
    if ts.None? || ts.value == [] then Success(SnapshotCheck(true, prev))
    else match prev
      case NoMap => Failure(GetIsNotAFunction)
      case Taken(entries) =>
        var c := DependenciesChanged(ts, entries, startTime, files);
        Success(SnapshotCheck(c.changed, Taken(c.snapshot)))
  }

  /**
   * The first check that sees any timestamps throws: the early return on
   * missing timestamps leaves `{}` in place, so it is still there when the
   * host first reports a file.
   */
  lemma {:induction false} FirstTimestampsThrow(startTime: int, files: seq<string>)
    ensures DependenciesChangedAsWritten(None, NoMap, startTime, files) == Success(SnapshotCheck(true, NoMap))
    ensures DependenciesChangedAsWritten(Some([("/src/a.js", 5)]), NoMap, startTime, files).Failure?
  {
  }

  /**
   * The snapshot field after a run of checks as written, one per compilation:
   * a check that throws does so before the field is assigned, so it leaves
   * the field as it was.
   */
  function SnapshotAfterChecks(prev: Snapshot, tss: seq<Option<TimestampMap>>, startTime: int, files: seq<string>): Snapshot
    decreases |tss|
  {
    if tss == [] then prev
    else
      var r := DependenciesChangedAsWritten(tss[0], prev, startTime, files);
      SnapshotAfterChecks(if r.Success? then r.value.snapshot else prev, tss[1..], startTime, files)
  }

  /** No run of checks ever replaces the initial `{}`. */
  lemma {:induction false} NoMapNeverReplaced(tss: seq<Option<TimestampMap>>, startTime: int, files: seq<string>)
    ensures SnapshotAfterChecks(NoMap, tss, startTime, files) == NoMap
    decreases |tss|
  {
    if tss != [] {
      NoMapNeverReplaced(tss[1..], startTime, files);
    }
  }

  /**
   * Hence every check that sees timestamps throws, not only the first: the
   * `i`-th check of a run starts from the snapshot the earlier ones left.
   */
  lemma {:induction false} EveryFullCheckThrows(tss: seq<Option<TimestampMap>>, i: nat, startTime: int, files: seq<string>)
    requires i < |tss| && tss[i].Some? && tss[i].value != []
    ensures DependenciesChangedAsWritten(tss[i], SnapshotAfterChecks(NoMap, tss[..i], startTime, files), startTime, files) == Failure(GetIsNotAFunction)
  {
    NoMapNeverReplaced(tss[..i], startTime, files);
  }

  /**
   * With the evidently intended empty `Map` as the initial snapshot, the
   * first check with timestamps succeeds and reports a change exactly when an
   * input file's timestamp is falsy or later than the start time.
   */
  lemma {:induction false} EmptyMapSnapshotAnswers(ts: TimestampMap, startTime: int, files: seq<string>)
    requires ts != []
    ensures DependenciesChangedAsWritten(Some(ts), Taken([]), startTime, files).Success?
    ensures var c := DependenciesChanged(Some(ts), [], startTime, files);
      c.snapshot == ts
      && (c.changed <==> exists f :: f in files && f in Keys(ts) && (Lookup(ts, f) == 0 || startTime < Lookup(ts, f)))
  {
  }
}
