/**
 * The plugin object of the older root index.js. It shares the options, the
 * naming rules, the change detector, the resolve cache, the latch and the
 * HTML integration with lib/index.js, but reads each file whole into a
 * one-entry record keyed by its virtual path, merges the records, hashes and
 * emits their contents joined with no separator, and emits under
 * `outputPath + "/" + name`.
 */
module Legacy {
  import opened Wrappers
  import opened Options
  import opened Naming
  import opened Hashing
  import opened Changes
  import opened Resolution
  import opened Concat
  import opened Latch
  import opened Html
  import opened Records
  import opened Plugin
  import Utils

  /** Why resolveConcatAndUglify throws: no records (`files` is `undefined`), or no hash slot. */
  datatype BuildError = ReadFailed | BadName(error: NamingError)

  /**
   * The records createNewPromise gathers: `{ ["webpack:///" + relative]:
   * text }` per resolved path, in order; `None` (Promise.all rejected, the
   * error logged) as soon as one file cannot be read.
   */
  function ReadRecords(env: Env, ps: seq<string>): (r: Option<Entries<string>>)
    ensures r.Some? <==> forall i :: 0 <= i < |ps| ==> env.files.read(ps[i]).Some?
    ensures r.Some? ==> |r.value| == |ps| && forall i :: 0 <= i < |ps| ==>
      r.value[i] == ("webpack:///" + env.paths.relative(env.context, ps[i]), env.files.read(ps[i]).value)
  {
    if ps == [] then Some([])
    else
      var init := ReadRecords(env, ps[..|ps| - 1]);
      var last := ps[|ps| - 1];
      var text := env.files.read(last);
      if init.None? || text.None? then None
      else Some(init.value + [("webpack:///" + env.paths.relative(env.context, last), text.value)])
  }

  /** The text hashFile digests and the emit loop writes: the merged contents in key order. */
  function Content(files: Entries<string>): string {
    PlainConcat(ValuesOf(files))
  }

  class LegacyConcatPlugin {
    const settings: Settings
    const startTime: int
    const env: Env
    const resolveCache: ResolveCache
    var prevTimestamps: TimestampMap
    var needCreateNewFile: bool
    var finalFileName: Option<string>
    var fileHash: string
    var compileLoopStarted: bool
    var absolute: Option<Absolute>

    predicate Valid()
      reads this
    {
      !needCreateNewFile ==> finalFileName.Some?
    }

    /** The constructor with its options already checked and completed by Configure; the snapshot starts as an empty map. */
    constructor(settings: Settings, now: int, env: Env)
      ensures this.settings == settings && startTime == now && this.env == env
      ensures fresh(resolveCache) && resolveCache.succeeded == {}
      ensures prevTimestamps == [] && needCreateNewFile && finalFileName.None? && fileHash == ""
      ensures !compileLoopStarted && absolute.None?
      ensures Valid()
    {
      this.settings := settings;
      startTime := now;
      this.env := env;
      resolveCache := new ResolveCache();
      prevTimestamps := [];
      needCreateNewFile := true;
      finalFileName := None;
      fileHash := "";
      compileLoopStarted := false;
      absolute := None;
    }

    /** The kept digest of the records' contents. */
    function Digest(files: Entries<string>): string {
      FinishDigest(HashDigest(settings), env.crypto(HashFunction(settings), HashDigest(settings), Content(files)))
    }

    function NameFor(files: Entries<string>): Result<string, NamingError> {
      FileName(settings.fileName, settings.useHash, settings.name, Digest(files))
    }

    /**
     * hashFile: the stored digest while it is set and no new file is needed;
     * otherwise the digest of the contents joined in key order without
     * separators, which is stored.
     */
    method HashFile(files: Entries<string>) returns (h: string)
      modifies this`fileHash
      ensures fileHash == h
      ensures old(fileHash) != "" && !needCreateNewFile ==> h == old(fileHash)
      ensures old(fileHash) == "" || needCreateNewFile ==> h == Digest(files)
    {
      if fileHash != "" && !needCreateNewFile {
        h := fileHash;
        return;
      }
      var content := PlainConcat(ValuesOf(files));
      var encoding := HashDigest(settings);
      fileHash := FinishDigest(encoding, env.crypto(HashFunction(settings), encoding, content));
      h := fileHash;
    }

    /** getFileName: the same rules as lib/index.js, hashing the records' contents. */
    method GetFileName(files: Entries<string>) returns (r: Result<string, NamingError>)
      requires Valid()
      modifies this`fileHash
      ensures !needCreateNewFile ==> r == Success(finalFileName.value) && fileHash == old(fileHash)
      ensures needCreateNewFile ==> r == NameFor(files)
      ensures needCreateNewFile && NeedsHash(settings.useHash, settings.fileName) ==> fileHash == Digest(files)
      ensures !NeedsHash(settings.useHash, settings.fileName) ==> fileHash == old(fileHash)
    {
      if !needCreateNewFile {
        return Success(finalFileName.value);
      }
      var digest := "";
      if settings.useHash || HasHashToken(settings.fileName) {
        digest := HashFile(files);
      }
      r := FileName(settings.fileName, settings.useHash, settings.name, digest);
    }

    /**
     * resolveConcatAndUglify: merges the records, names the result after
     * their contents and emits exactly those contents under
     * `outputPath + "/" + name`. Missing records or a naming error (both
     * thrown) leave the name and the flag as they were.
     */
    method ResolveConcatAndUglify(records: Option<Entries<string>>) returns (r: Result<Asset, BuildError>)
      requires Valid()
      modifies this`fileHash, this`finalFileName, this`needCreateNewFile
      ensures Valid()
      ensures records.None? ==> r == Failure(ReadFailed)
      ensures r.Success? ==>
        && records.Some? && finalFileName.Some? && !needCreateNewFile
        && r.value == Asset(settings.outputPath + "/" + finalFileName.value, Content(Merged(records.value)))
      ensures records.Some? && old(needCreateNewFile) ==>
        && (r.Success? <==> NameFor(Merged(records.value)).Success?)
        && (r.Success? ==> finalFileName == Some(NameFor(Merged(records.value)).value))
      ensures records.Some? && !old(needCreateNewFile) ==> r.Success? && finalFileName == old(finalFileName)
      ensures r.Failure? ==> finalFileName == old(finalFileName) && needCreateNewFile == old(needCreateNewFile)
      ensures var hashed := records.Some? && old(needCreateNewFile) && NeedsHash(settings.useHash, settings.fileName);
        && (hashed ==> fileHash == Digest(Merged(records.value)))
        && (!hashed ==> fileHash == old(fileHash))
    {
      if records.None? {
        return Failure(ReadFailed);
      }
      var allFiles := MergeRecords(records.value);
      var name := GetFileName(allFiles);
      if name.Failure? {
        return Failure(BadName(name.error));
      }
      finalFileName := Some(name.value);
      var text := ConcatEntries(allFiles);
      r := Success(Asset(settings.outputPath + "/" + name.value, text));
      needCreateNewFile := false;
    }

    /** createNewPromise: asks for a new file and reads every resolved path. */
    method ReadFiles(paths: seq<string>) returns (records: Option<Entries<string>>)
      modifies this`needCreateNewFile
      ensures needCreateNewFile
      ensures records == ReadRecords(env, paths)
    {
      needCreateNewFile := true;
      records := ReadRecords(env, paths);
    }

    /** dependenciesChanged, keeping the snapshot it leaves for the next check. */
    method CheckDependencies(ts: Option<TimestampMap>, files: seq<string>) returns (changed: bool)
      modifies this`prevTimestamps
      ensures var c := DependenciesChanged(ts, old(prevTimestamps), startTime, files);
        changed == c.changed && prevTimestamps == c.snapshot
    {
      var c := DependenciesChanged(ts, prevTimestamps, startTime, files);
      prevTimestamps := c.snapshot;
      changed := c.changed;
    }

    /** The resolver hook, with the resolve-cache rule written inline in index.js. */
    method OnResolver(resolve: string -> Option<string>)
      modifies this`absolute, resolveCache
      ensures var rel := RelativePaths(settings.filesToConcat, env.hasMagic, env.glob);
        && (rel.None? ==>
              && resolveCache.succeeded == old(resolveCache.succeeded)
              && absolute == if old(absolute).Some? then old(absolute) else Some(Undefined))
        && (rel.Some? ==> var answers := Answers(rel.value, resolve);
              && resolveCache.succeeded == CachedAfter(old(resolveCache.succeeded), rel.value, answers, |rel.value|)
              && absolute == if old(absolute).Some? then old(absolute)
                 else Some(Settle(All(Outcomes(old(resolveCache.succeeded), rel.value, answers, |rel.value|)))))
    {
      var rel := RelativePaths(settings.filesToConcat, env.hasMagic, env.glob);
      var result := Undefined;
      if rel.Some? {
        var s := resolveCache.ResolveAll(rel.value, Answers(rel.value, resolve));
        result := Settle(s);
      }
      if absolute.None? {
        absolute := Some(result);
      }
    }

    /**
     * processCompiling: as in lib/index.js, except that a single unreadable
     * file ends the run without emitting and without its callback, leaving
     * a new file still needed.
     */
    method ProcessCompiling(ts: Option<TimestampMap>) returns (p: Pass)
      requires Valid()
      modifies this`prevTimestamps, this`needCreateNewFile, this`fileHash, this`finalFileName
      ensures Valid()
      ensures absolute.None? || !absolute.value.Paths? ==>
        && p == Pass([], None, false) && prevTimestamps == old(prevTimestamps) && fileHash == old(fileHash)
        && needCreateNewFile == old(needCreateNewFile) && finalFileName == old(finalFileName)
      ensures absolute.Some? && absolute.value.Paths? ==>
        var ps := absolute.value.paths;
        var c := DependenciesChanged(ts, old(prevTimestamps), startTime, ps);
        && p.dependencies == Relatives(env, ps)
        && prevTimestamps == c.snapshot
        && (!c.changed ==>
              && p.emitted.None? && p.completed && fileHash == old(fileHash)
              && needCreateNewFile == old(needCreateNewFile) && finalFileName == old(finalFileName))
        && (c.changed && ReadRecords(env, ps).None? ==>
              && p.emitted.None? && !p.completed && needCreateNewFile && finalFileName == old(finalFileName)
              && fileHash == old(fileHash))
        && (c.changed && ReadRecords(env, ps).Some? ==>
              var files := Merged(ReadRecords(env, ps).value);
              var n := NameFor(files);
              && (p.completed <==> n.Success?)
              && fileHash == (if NeedsHash(settings.useHash, settings.fileName) then Digest(files) else old(fileHash))
              && (n.Success? ==>
                    && finalFileName == Some(n.value) && !needCreateNewFile
                    && p.emitted == Some(Asset(settings.outputPath + "/" + n.value, Content(files))))
              && (n.Failure? ==> needCreateNewFile && p.emitted.None? && finalFileName == old(finalFileName)))
    {
      if absolute.None? || !absolute.value.Paths? {
        return Pass([], None, false);
      }
      var ps := absolute.value.paths;
      var deps := Relatives(env, ps);
      var changed := CheckDependencies(ts, ps);
      if !changed {
        return Pass(deps, None, true);
      }
      var emitted, completed := Rebuild(ps);
      p := Pass(deps, emitted, completed);
    }

    /**
     * `getReadFilePromise(true).then(files => resolveConcatAndUglify(...))`:
     * reads every path afresh and, when all reads succeed, names and emits
     * the merged contents. `completed` is whether the callback runs.
     */
    method Rebuild(ps: seq<string>) returns (emitted: Option<Asset>, completed: bool)
      requires Valid()
      modifies this`needCreateNewFile, this`fileHash, this`finalFileName
      ensures Valid()
      ensures ReadRecords(env, ps).None? ==>
        emitted.None? && !completed && needCreateNewFile && finalFileName == old(finalFileName)
        && fileHash == old(fileHash)
      ensures ReadRecords(env, ps).Some? ==>
        var files := Merged(ReadRecords(env, ps).value);
        var n := NameFor(files);
        && (completed <==> n.Success?)
        && fileHash == (if NeedsHash(settings.useHash, settings.fileName) then Digest(files) else old(fileHash))
        && (n.Success? ==>
              && finalFileName == Some(n.value) && !needCreateNewFile
              && emitted == Some(Asset(settings.outputPath + "/" + n.value, Content(files))))
        && (n.Failure? ==> needCreateNewFile && emitted.None? && finalFileName == old(finalFileName))
    {
      var records := ReadFiles(ps);
      var r := ResolveConcatAndUglify(records);
      if r.Failure? {
        return None, false;
      }
      return Some(r.value), true;
    }

    /** The processAssets hook: a run starts only when the latch is clear, and the latch is then set. */
    method OnProcessAssets(ts: Option<TimestampMap>) returns (p: Option<Pass>)
      requires Valid()
      modifies this`compileLoopStarted, this`prevTimestamps, this`needCreateNewFile, this`fileHash, this`finalFileName
      ensures Valid()
      ensures var r := Step(old(compileLoopStarted), ProcessAssets);
        compileLoopStarted == r.started && (p.Some? <==> r.compiles)
      ensures p.None? ==>
        && prevTimestamps == old(prevTimestamps) && needCreateNewFile == old(needCreateNewFile)
        && finalFileName == old(finalFileName) && fileHash == old(fileHash)
    {
      var r := Step(compileLoopStarted, ProcessAssets);
      compileLoopStarted := r.started;
      p := None;
      if r.compiles {
        var pass := ProcessCompiling(ts);
        p := Some(pass);
      }
    }

    /** The beforeAssetTagGeneration hook, as in lib/index.js. */
    method OnBeforeAssetTagGeneration(data: HtmlPluginData, ts: Option<TimestampMap>) returns (p: Option<Pass>, assetPath: Option<string>)
      requires Valid()
      modifies this`compileLoopStarted, this`prevTimestamps, this`needCreateNewFile, this`fileHash, this`finalFileName, data
      ensures Valid()
      ensures var r := Step(old(compileLoopStarted), BeforeTags(Truthy(old(finalFileName))));
        compileLoopStarted == r.started && (p.Some? <==> r.compiles)
      ensures assetPath.Some? <==> p.None? || p.value.completed
      ensures assetPath.Some? ==>
        && assetPath.value == AssetPath(env.paths, settings.publicPath, data.publicPath, data.outputName, settings.outputPath, Shown(finalFileName))
        && data.js == Injected(old(data.js), settings.injectType, assetPath.value)
        && data.webpackConcat == Some(Assign(old(data.webpackConcat).GetOr([]), settings.name, assetPath.value))
      ensures assetPath.None? ==> data.js == old(data.js) && data.webpackConcat == old(data.webpackConcat)
      ensures p.None? ==>
        && finalFileName == old(finalFileName) && needCreateNewFile == old(needCreateNewFile)
        && prevTimestamps == old(prevTimestamps) && fileHash == old(fileHash)
    {
      var r := Step(compileLoopStarted, BeforeTags(Truthy(finalFileName)));
      compileLoopStarted := r.started;
      p := None;
      if r.compiles {
        var pass := ProcessCompiling(ts);
        p := Some(pass);
        if !pass.completed {
          return p, None;
        }
      }
      var a := InjectToHtml(data, settings, Shown(finalFileName), env.paths);
      assetPath := Some(a);
    }

    /** The afterEmit hook clears the latch. */
    method OnAfterEmit()
      modifies this`compileLoopStarted
      ensures compileLoopStarted == Step(old(compileLoopStarted), AfterEmit).started
    {
      compileLoopStarted := false;
    }
  }

  /** `new ConcatPlugin(options)` of index.js: the same refusal and defaults as lib/index.js. */
  method NewLegacy(options: Option<RawOptions>, now: int, env: Env) returns (r: Result<LegacyConcatPlugin, ConfigError>)
    ensures r.Failure? <==> Configure(options).Failure?
    ensures r.Success? ==>
      && fresh(r.value) && r.value.settings == Configure(options).value
      && r.value.prevTimestamps == [] && r.value.needCreateNewFile && r.value.Valid()
  {
    var s := Configure(options);
    if s.Failure? {
      return Failure(s.error);
    }
    var plugin := new LegacyConcatPlugin(s.value, now, env);
    r := Success(plugin);
  }

  /**
   * The emitted path always puts a `/` after `outputPath`: with the default
   * empty `outputPath` the path starts with `/`, and a configured one (which
   * already ends in `/`) is followed by a second `/`.
   */
  lemma {:induction false} EmitPathSlashes(outputPath: string, name: string)
    requires outputPath == "" || Utils.EndsWithSlash(outputPath)
    ensures var p := outputPath + "/" + name;
      && (outputPath == "" ==> p == "/" + name)
      && (outputPath != "" ==> p[|outputPath| - 1..|outputPath| + 1] == "//")
  {
  }

  /** The merged records hold each path read exactly once. */
  lemma {:induction false} RecordsCollapse(env: Env, ps: seq<string>, k: string)
    requires ReadRecords(env, ps).Some?
    ensures DistinctKeys(Merged(ReadRecords(env, ps).value))
    ensures k in KeysOf(Merged(ReadRecords(env, ps).value)) <==> exists i :: 0 <= i < |ps| && k == "webpack:///" + env.paths.relative(env.context, ps[i])
  {
    var rs := ReadRecords(env, ps).value;
    MergedPaths(rs, k);
    KeyedByPath(env, ps, rs, k);
  }

  /** Records keyed by the paths' `webpack:///` names hold exactly those names as keys. */
  lemma {:induction false} KeyedByPath(env: Env, ps: seq<string>, rs: Entries<string>, k: string)
    requires |rs| == |ps| && forall i :: 0 <= i < |ps| ==> rs[i].0 == "webpack:///" + env.paths.relative(env.context, ps[i])
    ensures k in KeysOf(rs) <==> exists i :: 0 <= i < |ps| && k == "webpack:///" + env.paths.relative(env.context, ps[i])
  {
    if k in KeysOf(rs) {
      var i :| 0 <= i < |rs| && KeysOf(rs)[i] == k;
      assert rs[i].0 == k;
    }
    if exists i :: 0 <= i < |ps| && k == "webpack:///" + env.paths.relative(env.context, ps[i]) {
      var i :| 0 <= i < |ps| && k == "webpack:///" + env.paths.relative(env.context, ps[i]);
      assert KeysOf(rs)[i] == k;
    }
  }
}
