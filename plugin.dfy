/**
 * The plugin object of lib/index.js: its per-instance state and the work
 * its hooks do. Hook registration and promise timing are replaced by
 * methods called in the order the hooks fire; everything outside the
 * plugin (digests, the file system, globbing, path helpers, the resolver)
 * is an uninterpreted part of `Env`.
 */
module Plugin {
  import opened Wrappers
  import opened Options
  import opened Naming
  import opened Hashing
  import opened Changes
  import opened Resolution
  import opened SourceFiles
  import opened Concat
  import opened Latch
  import opened Html
  import opened Records

  /** `createHash(algorithm).update(content).digest(encoding)`, as `(algorithm, encoding, content)`: uninterpreted. */
  type Crypto = (string, string, string) -> string

  /** What the plugin borrows from webpack, Node and its libraries. */
  datatype Env = Env(
    crypto: Crypto,
    files: FileHost,
    paths: PathOps,
    hasMagic: string -> bool,
    glob: string -> Option<seq<string>>,
    context: string)

  /** An asset handed to `compilation.emitAsset`: its path and its text. */
  datatype Asset = Asset(path: string, content: string)

  /** What `filesToConcatAbsolutePromise` settles as: the resolved paths, `undefined` after a caught error, or nothing ever. */
  datatype Absolute = Paths(paths: seq<string>) | Undefined | NeverSettles

  /**
   * How one processCompiling run ends: the paths it added to the
   * compilation's file dependencies, the asset it emitted, and whether it
   * called its callback (a run whose error is only logged never does).
   */
  datatype Pass = Pass(dependencies: seq<string>, emitted: Option<Asset>, completed: bool)

  /** A file name as a template literal prints it: `undefined` when unset. */
  function Shown(name: Option<string>): string {
    if name.Some? then name.value else "undefined"
  }

  predicate Truthy(name: Option<string>) {
    name.Some? && name.value != ""
  }

  /** The text of each fragment (`source.source().toString()`). */
  function Texts(fs: seq<Fragment>): (r: seq<string>)
    ensures |r| == |fs| && forall i :: 0 <= i < |fs| ==> r[i] == fs[i].source
  {
    seq(|fs|, i requires 0 <= i < |fs| => fs[i].source)
  }

  /** createFileWithMap for every resolved path; `None` is a rejected load. */
  function Loads(env: Env, ps: seq<string>): (r: seq<Option<Fragment>>)
    ensures |r| == |ps| && forall i :: 0 <= i < |ps| ==> r[i] == CreateFileWithMap(env.files, env.context, ps[i])
  {
    seq(|ps|, i requires 0 <= i < |ps| => CreateFileWithMap(env.files, env.context, ps[i]))
  }

  /** The dependency paths processCompiling adds: each resolved path relative to the context. */
  function Relatives(env: Env, ps: seq<string>): (r: seq<string>)
    ensures |r| == |ps| && forall i :: 0 <= i < |ps| ==> r[i] == env.paths.relative(env.context, ps[i])
  {
    seq(|ps|, i requires 0 <= i < |ps| => env.paths.relative(env.context, ps[i]))
  }

  /** The resolver's answer for each relative path (`None` for an error). */
  function Answers(specs: seq<string>, resolve: string -> Option<string>): (r: seq<Option<string>>)
    ensures |r| == |specs| && forall i :: 0 <= i < |specs| ==> r[i] == resolve(specs[i])
  {
    seq(|specs|, i requires 0 <= i < |specs| => resolve(specs[i]))
  }

  /** The `.catch` after Promise.all: a rejection is logged and the promise resolves with `undefined`. */
  function Settle(s: Settlement<seq<string>>): Absolute {
    match s
    case Resolved(ps) => Paths(ps)
    case Rejected => Undefined
    case Pending => NeverSettles
  }

  class ConcatPlugin {
    const settings: Settings
    const startTime: int
    const env: Env
    /** The specifiers that have resolved at least once. */
    const resolveCache: ResolveCache
    /** The timestamps seen by the last full dependency check. */
    var prevTimestamps: TimestampMap
    var needCreateNewFile: bool
    var finalFileName: Option<string>
    /** The last digest; `""` while there is none (both are falsy). */
    var fileHash: string
    /** `compileLoopStarted`, the latch closed over by apply()'s hooks. */
    var compileLoopStarted: bool
    /** `filesToConcatAbsolutePromise` once the resolver hook has settled it. */
    var absolute: Option<Absolute>

    /** A file name is kept whenever the plugin says no new file is needed. */
    predicate Valid()
      reads this
    {
      !needCreateNewFile ==> finalFileName.Some?
    }

    /**
     * The constructor with its options already checked and completed by
     * Configure; the snapshot starts as an empty map.
     */
    constructor(settings: Settings, now: int, env: Env)
      ensures this.settings == settings && startTime == now && this.env == env
      ensures fresh(resolveCache) && resolveCache.succeeded == {}
      ensures prevTimestamps == [] && needCreateNewFile && finalFileName.None? && fileHash == ""
      ensures !compileLoopStarted && absolute.None?
      ensures Valid()
    {
      this.settings := settings;
      startTime := now;
      this.env := env;
      resolveCache := new ResolveCache();
      prevTimestamps := [];
      needCreateNewFile := true;
      finalFileName := None;
      fileHash := "";
      compileLoopStarted := false;
      absolute := None;
    }

    /** The kept digest of `content`: the host's digest, made URL-safe for `base64`. */
    function Digest(content: string): string {
      FinishDigest(HashDigest(settings), env.crypto(HashFunction(settings), HashDigest(settings), content))
    }

    /** The output name for `content` when a new file is needed. */
    function NameFor(content: string): Result<string, NamingError> {
      FileName(settings.fileName, settings.useHash, settings.name, Digest(content))
    }

    /**
     * hashFile: the stored digest while it is set and no new file is
     * needed; otherwise a fresh digest of `content`, which is stored.
     */
    method HashFile(content: string) returns (h: string)
      modifies this`fileHash
      ensures fileHash == h
      ensures old(fileHash) != "" && !needCreateNewFile ==> h == old(fileHash)
      ensures old(fileHash) == "" || needCreateNewFile ==> h == Digest(content)
    {
      if fileHash != "" && !needCreateNewFile {
        h := fileHash;
        return;
      }
      var encoding := HashDigest(settings);
      var raw := env.crypto(HashFunction(settings), encoding, content);
      fileHash := FinishDigest(encoding, raw);
      h := fileHash;
    }

    /**
     * getFileName: the stored name while no new file is needed; otherwise
     * the template's name for `content`, hashing first when the name needs a
     * digest (which is then always computed afresh).
     */
    method GetFileName(content: string) returns (r: Result<string, NamingError>)
      requires Valid()
      modifies this`fileHash
      ensures !needCreateNewFile ==> r == Success(finalFileName.value) && fileHash == old(fileHash)
      ensures needCreateNewFile ==> r == NameFor(content)
      ensures needCreateNewFile && NeedsHash(settings.useHash, settings.fileName) ==> fileHash == Digest(content)
      ensures !NeedsHash(settings.useHash, settings.fileName) ==> fileHash == old(fileHash)
    {
      if !needCreateNewFile {
        return Success(finalFileName.value);
      }
      var digest := "";
      if settings.useHash || HasHashToken(settings.fileName) {
        digest := HashFile(content);
      }
      r := FileName(settings.fileName, settings.useHash, settings.name, digest);
    }

    /**
     * resolveConcatAndUglify: joins the fragments, names the result after
     * the joined text and emits it under `join(outputPath, name)`. A naming
     * error (a thrown TypeError) leaves the name and the flag as they were.
     */
    method ResolveConcatAndUglify(fragments: seq<Fragment>) returns (r: Result<Asset, NamingError>)
      requires Valid()
      modifies this`fileHash, this`finalFileName, this`needCreateNewFile
      ensures Valid()
      ensures var text := Joined(Texts(fragments));
        && (r.Success? ==> finalFileName.Some? && !needCreateNewFile
                           && r.value == Asset(env.paths.join(settings.outputPath, finalFileName.value), text))
        && (old(needCreateNewFile) ==> (r.Success? <==> NameFor(text).Success?))
        && (old(needCreateNewFile) && r.Success? ==> finalFileName == Some(NameFor(text).value))
        && (!old(needCreateNewFile) ==> r.Success? && finalFileName == old(finalFileName))
        && (r.Failure? ==> finalFileName == old(finalFileName) && needCreateNewFile == old(needCreateNewFile))
      ensures var hashed := old(needCreateNewFile) && NeedsHash(settings.useHash, settings.fileName);
        && (hashed ==> fileHash == Digest(Joined(Texts(fragments))))
        && (!hashed ==> fileHash == old(fileHash))
    {
      var text := Concatenate(Texts(fragments));
      var name := GetFileName(text);
      if name.Failure? {
        return Failure(name.error);
      }
      finalFileName := Some(name.value);
      r := Success(Asset(env.paths.join(settings.outputPath, name.value), text));
      needCreateNewFile := false;
    }

    /**
     * createNewPromise: asks for a new file, loads every resolved path and
     * keeps the fragments that loaded, in order.
     */
    method ReadFragments(paths: seq<string>) returns (fragments: seq<Fragment>)
      modifies this`needCreateNewFile
      ensures needCreateNewFile
      ensures fragments == KeepLoaded(Loads(env, paths))
    {
      needCreateNewFile := true;
      fragments := KeepLoaded(Loads(env, paths));
    }

    /** dependenciesChanged, keeping the snapshot it leaves for the next check. */
    method CheckDependencies(ts: Option<TimestampMap>, files: seq<string>) returns (changed: bool)
      modifies this`prevTimestamps
      ensures var c := DependenciesChanged(ts, old(prevTimestamps), startTime, files);
        changed == c.changed && prevTimestamps == c.snapshot
    {
      var c := DependenciesChanged(ts, prevTimestamps, startTime, files);
      prevTimestamps := c.snapshot;
      changed := c.changed;
    }

    /**
     * The resolver hook: the relative paths are resolved one by one, in
     * order, through the cache. Only the first firing settles
     * `filesToConcatAbsolutePromise`; later firings still update the cache.
     */
    method OnResolver(resolve: string -> Option<string>)
      modifies this`absolute, resolveCache
      ensures var rel := RelativePaths(settings.filesToConcat, env.hasMagic, env.glob);
        && (rel.None? ==>
              && resolveCache.succeeded == old(resolveCache.succeeded)
              && absolute == if old(absolute).Some? then old(absolute) else Some(Undefined))
        && (rel.Some? ==> var answers := Answers(rel.value, resolve);
              && resolveCache.succeeded == CachedAfter(old(resolveCache.succeeded), rel.value, answers, |rel.value|)
              && absolute == if old(absolute).Some? then old(absolute)
                 else Some(Settle(All(Outcomes(old(resolveCache.succeeded), rel.value, answers, |rel.value|)))))
    {
      var rel := RelativePaths(settings.filesToConcat, env.hasMagic, env.glob);
      var result := Undefined;
      if rel.Some? {
        var s := resolveCache.ResolveAll(rel.value, Answers(rel.value, resolve));
        result := Settle(s);
      }
      if absolute.None? {
        absolute := Some(result);
      }
    }

    /**
     * processCompiling: once the resolved paths are known, they become file
     * dependencies; when none of them changed the callback runs at once,
     * otherwise a new file is loaded, joined, named and emitted. An
     * `undefined` path list, a list that never settles and a naming error
     * all end the run without its callback.
     */
    method ProcessCompiling(ts: Option<TimestampMap>) returns (p: Pass)
      requires Valid()
      modifies this`prevTimestamps, this`needCreateNewFile, this`fileHash, this`finalFileName
      ensures Valid()
      ensures absolute.None? || !absolute.value.Paths? ==>
        && p == Pass([], None, false) && prevTimestamps == old(prevTimestamps) && fileHash == old(fileHash)
        && needCreateNewFile == old(needCreateNewFile) && finalFileName == old(finalFileName)
      ensures absolute.Some? && absolute.value.Paths? ==>
        var ps := absolute.value.paths;
        var c := DependenciesChanged(ts, old(prevTimestamps), startTime, ps);
        && p.dependencies == Relatives(env, ps)
        && prevTimestamps == c.snapshot
        && (!c.changed ==>
              && p.emitted.None? && p.completed && fileHash == old(fileHash)
              && needCreateNewFile == old(needCreateNewFile) && finalFileName == old(finalFileName))
        && (c.changed ==>
              var text := Joined(Texts(KeepLoaded(Loads(env, ps))));
              var n := NameFor(text);
              && (p.completed <==> n.Success?)
              && fileHash == (if NeedsHash(settings.useHash, settings.fileName) then Digest(text) else old(fileHash))
              && (n.Success? ==>
                    && finalFileName == Some(n.value) && !needCreateNewFile
                    && p.emitted == Some(Asset(env.paths.join(settings.outputPath, n.value), text)))
              && (n.Failure? ==> needCreateNewFile && p.emitted.None? && finalFileName == old(finalFileName)))
    {
      if absolute.None? || !absolute.value.Paths? {
        return Pass([], None, false);
      }
      var ps := absolute.value.paths;
      var deps := Relatives(env, ps);
      var changed := CheckDependencies(ts, ps);
      if !changed {
        return Pass(deps, None, true);
      }
      var emitted, completed := Rebuild(ps);
      p := Pass(deps, emitted, completed);
    }

    /**
     * `getReadFilePromise(true).then(files => resolveConcatAndUglify(...))`:
     * loads every path afresh, then names and emits the joined text of the
     * fragments that loaded. `completed` is whether the callback runs.
     */
    method Rebuild(ps: seq<string>) returns (emitted: Option<Asset>, completed: bool)
      requires Valid()
      modifies this`needCreateNewFile, this`fileHash, this`finalFileName
      ensures Valid()
      ensures var text := Joined(Texts(KeepLoaded(Loads(env, ps))));
        var n := NameFor(text);
        && (completed <==> n.Success?)
        && fileHash == (if NeedsHash(settings.useHash, settings.fileName) then Digest(text) else old(fileHash))
        && (n.Success? ==>
              && finalFileName == Some(n.value) && !needCreateNewFile
              && emitted == Some(Asset(env.paths.join(settings.outputPath, n.value), text)))
        && (n.Failure? ==> needCreateNewFile && emitted.None? && finalFileName == old(finalFileName))
    {
      var fragments := ReadFragments(ps);
      var r := ResolveConcatAndUglify(fragments);
      if r.Failure? {
        return None, false;
      }
      return Some(r.value), true;
    }

    /** The processAssets hook: a run starts only when the latch is clear, and the latch is then set. */
    method OnProcessAssets(ts: Option<TimestampMap>) returns (p: Option<Pass>)
      requires Valid()
      modifies this`compileLoopStarted, this`prevTimestamps, this`needCreateNewFile, this`fileHash, this`finalFileName
      ensures Valid()
      ensures var r := Step(old(compileLoopStarted), ProcessAssets);
        compileLoopStarted == r.started && (p.Some? <==> r.compiles)
      ensures p.None? ==>
        && prevTimestamps == old(prevTimestamps) && needCreateNewFile == old(needCreateNewFile)
        && finalFileName == old(finalFileName) && fileHash == old(fileHash)
    {
      var r := Step(compileLoopStarted, ProcessAssets);
      compileLoopStarted := r.started;
      p := None;
      if r.compiles {
        var pass := ProcessCompiling(ts);
        p := Some(pass);
      }
    }

    /**
     * The beforeAssetTagGeneration hook: starts a run when the latch is clear
     * or no file name exists yet, and injects the asset path after that run
     * completes, or at once when no run is started.
     */
    method OnBeforeAssetTagGeneration(data: HtmlPluginData, ts: Option<TimestampMap>) returns (p: Option<Pass>, assetPath: Option<string>)
      requires Valid()
      modifies this`compileLoopStarted, this`prevTimestamps, this`needCreateNewFile, this`fileHash, this`finalFileName, data
      ensures Valid()
      ensures var r := Step(old(compileLoopStarted), BeforeTags(Truthy(old(finalFileName))));
        compileLoopStarted == r.started && (p.Some? <==> r.compiles)
      ensures assetPath.Some? <==> p.None? || p.value.completed
      ensures assetPath.Some? ==>
        && assetPath.value == AssetPath(env.paths, settings.publicPath, data.publicPath, data.outputName, settings.outputPath, Shown(finalFileName))
        && data.js == Injected(old(data.js), settings.injectType, assetPath.value)
        && data.webpackConcat == Some(Assign(old(data.webpackConcat).GetOr([]), settings.name, assetPath.value))
      ensures assetPath.None? ==> data.js == old(data.js) && data.webpackConcat == old(data.webpackConcat)
      ensures p.None? ==>
        && finalFileName == old(finalFileName) && needCreateNewFile == old(needCreateNewFile)
        && prevTimestamps == old(prevTimestamps) && fileHash == old(fileHash)
    {
      var r := Step(compileLoopStarted, BeforeTags(Truthy(finalFileName)));
      compileLoopStarted := r.started;
      p := None;
      if r.compiles {
        var pass := ProcessCompiling(ts);
        p := Some(pass);
        if !pass.completed {
          return p, None;
        }
      }
      var a := InjectToHtml(data, settings, Shown(finalFileName), env.paths);
      assetPath := Some(a);
    }

    /** The afterEmit hook clears the latch. */
    method OnAfterEmit()
      modifies this`compileLoopStarted
      ensures compileLoopStarted == Step(old(compileLoopStarted), AfterEmit).started
    {
      compileLoopStarted := false;
    }
  }

  /** `new ConcatPlugin(options)`: refused without a non-empty `filesToConcat`, otherwise a plugin in its initial state. */
  method New(options: Option<RawOptions>, now: int, env: Env) returns (r: Result<ConcatPlugin, ConfigError>)
    ensures r.Failure? <==> Configure(options).Failure?
    ensures r.Success? ==>
      && fresh(r.value) && r.value.settings == Configure(options).value
      && r.value.prevTimestamps == [] && r.value.needCreateNewFile && r.value.Valid()
  {
    var s := Configure(options);
    if s.Failure? {
      return Failure(s.error);
    }
    var plugin := new ConcatPlugin(s.value, now, env);
    r := Success(plugin);
  }
}
