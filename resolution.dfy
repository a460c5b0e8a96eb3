/**
 * The Path Resolver: configured specifiers expanded (globs) into relative
 * paths in configuration order, then each resolved to an absolute path, with
 * the per-specifier "has ever resolved" cache that decides what a failed
 * resolution does.
 */
module Resolution {
  import opened Wrappers

  /** What one configured specifier stands for: itself, or the files its glob matched. */
  datatype Expansion = Literal(path: string) | Matches(paths: seq<string>)

  function Entries(e: Expansion): seq<string> {
    match e
    case Literal(p) => [p]
    case Matches(ps) => ps
  }

  /** `raw.reduce((target, resource) => target.concat(resource), [])`. */
  function Flatten(xs: seq<Expansion>): (r: seq<string>)
    ensures xs == [] ==> r == []
  {
    if xs == [] then [] else Flatten(xs[..|xs| - 1]) + Entries(xs[|xs| - 1])
  }

  /** Flattening distributes over concatenation of the expansion list. */
  lemma {:induction false} FlattenAppend(a: seq<Expansion>, b: seq<Expansion>)
    ensures Flatten(a + b) == Flatten(a) + Flatten(b)
    decreases |b|
  {
    if b == [] {
      assert a + b == a;
    } else {
      var b' := b[..|b| - 1];
      assert (a + b)[..|a + b| - 1] == a + b';
      assert (a + b)[|a + b| - 1] == b[|b| - 1];
      FlattenAppend(a, b');
      assert Flatten(a + b) == Flatten(a + b') + Entries(b[|b| - 1]);
      assert Flatten(b) == Flatten(b') + Entries(b[|b| - 1]);
    }
  }

  /**
   * The paths of specifier `i` appear as one block, after those of every
   * earlier specifier and before those of every later one.
   */
  lemma {:induction false} FlattenBlock(xs: seq<Expansion>, i: nat)
    requires i < |xs|
    ensures Flatten(xs) == Flatten(xs[..i]) + Entries(xs[i]) + Flatten(xs[i + 1..])
  {
    var upto := xs[..i + 1];
    assert upto[..i] == xs[..i];
    assert xs == upto + xs[i + 1..];
    FlattenAppend(upto, xs[i + 1..]);
  }

  /** A list of literal specifiers flattens to exactly those specifiers. */
  lemma {:induction false} FlattenLiterals(xs: seq<Expansion>)
    requires forall i :: 0 <= i < |xs| ==> xs[i].Literal?
    ensures |Flatten(xs)| == |xs|
    ensures forall i :: 0 <= i < |xs| ==> Flatten(xs)[i] == xs[i].path
    decreases |xs|
  {
    if xs != [] {
      FlattenLiterals(xs[..|xs| - 1]);
    }
  }

  /**
   * `Promise.all(filesToConcat.map(f => hasMagic(f) ? globby(f) : f))`: one
   * expansion per specifier, in order; `None` when any glob fails (the
   * `.catch` then yields `undefined`).
   */
  function Expand(specs: seq<string>, hasMagic: string -> bool, glob: string -> Option<seq<string>>): (r: Option<seq<Expansion>>)
    ensures r.Some? <==> forall i :: 0 <= i < |specs| && hasMagic(specs[i]) ==> glob(specs[i]).Some?
    ensures r.Some? ==> |r.value| == |specs|
    ensures r.Some? ==> forall i :: 0 <= i < |specs| ==>
      r.value[i] == if hasMagic(specs[i]) then Matches(glob(specs[i]).value) else Literal(specs[i])
  {
    if specs == [] then Some([])
    else
      var last := specs[|specs| - 1];
      var init := Expand(specs[..|specs| - 1], hasMagic, glob);
      if init.None? then None
      else if hasMagic(last) then
        if glob(last).None? then None else Some(init.value + [Matches(glob(last).value)])
      else Some(init.value + [Literal(last)])
  }

  /** getRelativePathAsync: the flattened relative paths, or `None` (`undefined`) on a glob failure. */
  function RelativePaths(specs: seq<string>, hasMagic: string -> bool, glob: string -> Option<seq<string>>): Option<seq<string>> {
    match Expand(specs, hasMagic, glob)
    case None => None
    case Some(xs) => Some(Flatten(xs))
  }

  /** A glob matching three files followed by a literal path gives four paths, the literal last. */
  lemma {:induction false} GlobThenLiteral(a: string, b: string, c: string, d: string)
    ensures Flatten([Matches([a, b, c]), Literal(d)]) == [a, b, c, d]
  {
    var xs := [Matches([a, b, c]), Literal(d)];
    assert xs[..1] == [Matches([a, b, c])];
    assert xs[..1][..0] == [];
  }

  /** How a promise ends up: resolved with a value, rejected, or never settled. */
  datatype Settlement<T> = Resolved(value: T) | Rejected | Pending

  /**
   * `Promise.all`: resolved with every value, in order, when all resolve;
   * rejected as soon as one rejects; otherwise forever pending.
   */
  function All<T>(ps: seq<Settlement<T>>): (r: Settlement<seq<T>>)
    ensures r.Resolved? <==> forall i :: 0 <= i < |ps| ==> ps[i].Resolved?
    ensures r.Resolved? ==> |r.value| == |ps| && forall i :: 0 <= i < |ps| ==> r.value[i] == ps[i].value
    ensures r.Rejected? <==> exists i :: 0 <= i < |ps| && ps[i].Rejected?
    ensures r.Pending? <==> (exists i :: 0 <= i < |ps| && ps[i].Pending?) && forall i :: 0 <= i < |ps| ==> !ps[i].Rejected?
  {
    if ps == [] then Resolved([])
    else
      var rest := All(ps[1..]);
      assert forall i :: 1 <= i < |ps| ==> ps[i] == ps[1..][i - 1];
      if ps[0].Rejected? || rest.Rejected? then Rejected
      else if ps[0].Pending? || rest.Pending? then Pending
      else Resolved([ps[0].value] + rest.value)
  }

  /**
   * What one resolution ends as, given the specifiers that resolved before:
   * the path on success; on error a rejection, unless the specifier resolved
   * once before, in which case the promise is never settled.
   */
  function Outcome(cached: set<string>, spec: string, answer: Option<string>): (r: Settlement<string>)
    ensures answer.Some? ==> r == Resolved(answer.value)
    ensures answer.None? ==> (r.Pending? <==> spec in cached) && (r.Rejected? <==> spec !in cached)
  {
    match answer
    case Some(path) => Resolved(path)
    case None => if spec in cached then Pending else Rejected
  }

  /** The cache after the first `n` resolutions of a batch have answered. */
  function CachedAfter(cached: set<string>, specs: seq<string>, answers: seq<Option<string>>, n: nat): (r: set<string>)
    requires n <= |specs| == |answers|
    ensures cached <= r
  {
    if n == 0 then cached
    else
      var before := CachedAfter(cached, specs, answers, n - 1);
      if answers[n - 1].Some? then before + {specs[n - 1]} else before
  }

  /** A specifier is cached after a batch exactly when it was before or one of its resolutions succeeded. */
  lemma {:induction false} CachedAfterMembers(cached: set<string>, specs: seq<string>, answers: seq<Option<string>>, n: nat, s: string)
    requires n <= |specs| == |answers|
    ensures s in CachedAfter(cached, specs, answers, n) <==> s in cached || exists i :: 0 <= i < n && specs[i] == s && answers[i].Some?
  {
    if n > 0 {
      CachedAfterMembers(cached, specs, answers, n - 1, s);
    }
  }

  /** The outcomes of the first `n` resolutions of a batch, each seeing the cache as it was when it answered. */
  function Outcomes(cached: set<string>, specs: seq<string>, answers: seq<Option<string>>, n: nat): (r: seq<Settlement<string>>)
    requires n <= |specs| == |answers|
    ensures |r| == n
  {
    if n == 0 then []
    else Outcomes(cached, specs, answers, n - 1) + [Outcome(CachedAfter(cached, specs, answers, n - 1), specs[n - 1], answers[n - 1])]
  }

  /** Resolution `i` of a batch ends as the cache before it dictates. */
  lemma {:induction false} OutcomeAt(cached: set<string>, specs: seq<string>, answers: seq<Option<string>>, n: nat, i: nat)
    requires i < n <= |specs| == |answers|
    ensures Outcomes(cached, specs, answers, n)[i] == Outcome(CachedAfter(cached, specs, answers, i), specs[i], answers[i])
  {
    if i < n - 1 {
      OutcomeAt(cached, specs, answers, n - 1, i);
    }
  }

  /**
   * A batch in which every specifier had resolved before never rejects: it
   * resolves, or it stalls forever when one of them fails now.
   */
  lemma {:induction false} KnownGoodNeverRejects(cached: set<string>, specs: seq<string>, answers: seq<Option<string>>)
    requires |specs| == |answers|
    requires forall i :: 0 <= i < |specs| ==> specs[i] in cached
    ensures !All(Outcomes(cached, specs, answers, |specs|)).Rejected?
    ensures All(Outcomes(cached, specs, answers, |specs|)).Pending? <==> exists i :: 0 <= i < |specs| && answers[i].None?
  {
    var os := Outcomes(cached, specs, answers, |specs|);
    forall i | 0 <= i < |specs|
      ensures !os[i].Rejected? && (os[i].Pending? <==> answers[i].None?)
    {
      OutcomeAt(cached, specs, answers, |specs|, i);
      assert specs[i] in CachedAfter(cached, specs, answers, i);
    }
  }

  /** The plugin's `resolveCache`: the specifiers that have resolved at least once. */
  class ResolveCache {
    var succeeded: set<string>

    constructor()
      ensures succeeded == {}
    {
      succeeded := {};
    }

    /**
     * resolveReadFile with the resolver's answer (`None` for an error):
     * success records the specifier and resolves with the path; an error
     * rejects only for a specifier never resolved before.
     */
    method ResolveReadFile(spec: string, answer: Option<string>) returns (s: Settlement<string>)
      modifies this
      ensures answer.Some? ==> s == Resolved(answer.value) && succeeded == old(succeeded) + {spec}
      ensures answer.None? ==> succeeded == old(succeeded)
      ensures answer.None? ==> (s.Pending? <==> spec in old(succeeded)) && (s.Rejected? <==> spec !in old(succeeded))
    {
      match answer
      case Some(path) =>
        succeeded := succeeded + {spec};
        s := Resolved(path);
      case None =>
        s := if spec in succeeded then Pending else Rejected;
    }

    /**
     * Every relative path resolved, answers arriving in list order, gathered
     * by `Promise.all`. Cache entries are only ever added.
     */
    method ResolveAll(specs: seq<string>, answers: seq<Option<string>>) returns (s: Settlement<seq<string>>)
      requires |specs| == |answers|
      modifies this
      ensures succeeded == CachedAfter(old(succeeded), specs, answers, |specs|)
      ensures old(succeeded) <= succeeded
      ensures s == All(Outcomes(old(succeeded), specs, answers, |specs|))
    {
      var outcomes: seq<Settlement<string>> := [];
      ghost var start := succeeded;
      var i := 0;
      while i < |specs|
        invariant 0 <= i <= |specs|
        invariant succeeded == CachedAfter(start, specs, answers, i)
        invariant outcomes == Outcomes(start, specs, answers, i)
      {
        var o := ResolveReadFile(specs[i], answers[i]);
        outcomes := outcomes + [o];
        i := i + 1;
      }
      s := All(outcomes);
    }
  }
}
