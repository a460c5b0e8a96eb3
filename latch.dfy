/**
 * The build-pass latch: `compileLoopStarted`, a flag closed over by the
 * hooks that apply() registers. processAssets and the HTML generator's
 * beforeAssetTagGeneration hook start processCompiling only when it is
 * clear, and set it; afterEmit clears it. Hook firings are a sequential
 * trace of events here.
 */
module Latch {

  /** A hook firing that reads or writes the flag; `named` says whether `finalFileName` is set. */
  datatype Event = ProcessAssets | BeforeTags(named: bool) | AfterEmit

  /** The flag after an event, and whether the event starts processCompiling. */
  datatype Reaction = Reaction(started: bool, compiles: bool)

  /**
   * One event. processAssets compiles only when the flag is clear; the HTML
   * hook also compiles when no file name has been produced yet; both leave
   * the flag set. afterEmit clears it and compiles nothing.
   */
  function Step(started: bool, e: Event): (r: Reaction)
    ensures e.AfterEmit? ==> r == Reaction(false, false)
    ensures e.ProcessAssets? ==> r.started && (r.compiles <==> !started)
    ensures e.BeforeTags? ==> r.started && (r.compiles <==> !started || !e.named)
  {
    match e
    case ProcessAssets => if !started then Reaction(true, true) else Reaction(true, false)
    case BeforeTags(named) => if !named || !started then Reaction(true, true) else Reaction(started, false)
    case AfterEmit => Reaction(false, false)
  }

  /** The flag after a trace. */
  function Final(started: bool, trace: seq<Event>): bool
    decreases |trace|
  {
    if trace == [] then started else Final(Step(started, trace[0]).started, trace[1..])
  }

  /** How many times a trace starts processCompiling. */
  function Runs(started: bool, trace: seq<Event>): nat
    decreases |trace|
  {
    if trace == [] then 0
    else (if Step(started, trace[0]).compiles then 1 else 0) + Runs(Step(started, trace[0]).started, trace[1..])
  }

  /** How many of those starts come from processAssets. */
  function AssetRuns(started: bool, trace: seq<Event>): nat
    decreases |trace|
  {
    if trace == [] then 0
    else
      var r := Step(started, trace[0]);
      (if trace[0].ProcessAssets? && r.compiles then 1 else 0) + AssetRuns(r.started, trace[1..])
  }

  /** How many HTML hook firings in a trace see no file name yet. */
  function Unnamed(trace: seq<Event>): nat {
    if trace == [] then 0 else (if trace[0] == BeforeTags(false) then 1 else 0) + Unnamed(trace[1..])
  }

  predicate SamePass(trace: seq<Event>) {
    forall i :: 0 <= i < |trace| ==> !trace[i].AfterEmit?
  }

  /**
   * Between two afterEmit events processAssets starts processCompiling at
   * most once, and not at all when the flag was already set.
   */
  lemma {:induction false} AtMostOneRunPerPass(started: bool, trace: seq<Event>)
    requires SamePass(trace)
    ensures AssetRuns(started, trace) <= if started then 0 else 1
    decreases |trace|
  {
    if trace != [] {
      AtMostOneRunPerPass(Step(started, trace[0]).started, trace[1..]);
    }
  }

  /**
   * Within a pass every start beyond the first comes from an HTML hook that
   * found no file name.
   */
  lemma {:induction false} ExtraRunsNeedUnnamedHook(started: bool, trace: seq<Event>)
    requires SamePass(trace)
    ensures Runs(started, trace) <= (if started then 0 else 1) + Unnamed(trace)
    decreases |trace|
  {
    if trace != [] {
      ExtraRunsNeedUnnamedHook(Step(started, trace[0]).started, trace[1..]);
    }
  }

  /** The flag is set after any event of a pass, and stays as it was over an empty trace. */
  lemma {:induction false} PassLeavesFlagSet(started: bool, trace: seq<Event>)
    requires SamePass(trace)
    ensures Final(started, trace) == (started || trace != [])
    decreases |trace|
  {
    if trace != [] {
      PassLeavesFlagSet(Step(started, trace[0]).started, trace[1..]);
    }
  }

  /** Ending a pass re-arms the latch: whatever happened before, the next processAssets compiles. */
  lemma {:induction false} AfterEmitRearms(started: bool, trace: seq<Event>)
    requires trace != [] && trace[|trace| - 1] == AfterEmit
    ensures Runs(started, trace + [ProcessAssets]) == Runs(started, trace) + 1
    decreases |trace|
  {
    var t := trace + [ProcessAssets];
    assert t[1..] == trace[1..] + [ProcessAssets];
    if |trace| > 1 {
      AfterEmitRearms(Step(started, trace[0]).started, trace[1..]);
    }
  }
}
