/**
 * The plugin's configuration: the options object handed to the constructor,
 * the defaults it fills in, and the one check it makes before any build work.
 * Both implementations (lib/index.js and the older index.js) share this logic.
 */
module Options {
  import opened Wrappers
  import Utils
  import opened Records

  /** Where the asset path is put in the HTML generator's script list. */
  datatype InjectType = Prepend | Append | NoInjection

  /** `publicPath`: not given (`undefined`), `false`, or a string. */
  datatype PublicPath = Unset | Disabled | Path(path: string)

  /** An HTML attribute value: a string or a boolean flag such as `async: true`. */
  datatype AttrValue = Text(text: string) | Flag(on: bool)

  /** The options object as a caller writes it; `None` is an absent key. */
  datatype RawOptions = RawOptions(
    filesToConcat: Option<seq<string>>,
    fileName: Option<string>,
    name: Option<string>,
    injectType: Option<InjectType>,
    outputPath: Option<string>,
    useHash: bool,
    hashFunction: Option<string>,
    hashDigest: Option<string>,
    publicPath: PublicPath,
    attributes: Option<Entries<AttrValue>>)

  /** The settings object the plugin keeps after construction. */
  datatype Settings = Settings(
    filesToConcat: seq<string>,
    fileName: string,
    name: string,
    injectType: InjectType,
    outputPath: string,
    useHash: bool,
    hashFunction: Option<string>,
    hashDigest: Option<string>,
    publicPath: PublicPath,
    attributes: Option<Entries<AttrValue>>)

  datatype ConfigError = MissingFilesToConcat

  const DefaultFileName := "[name].js"
  const DefaultName := "result"

  /**
   * The constructor's work before any state is set: fill the defaults, refuse
   * a missing or empty `filesToConcat`, force a trailing slash on a non-empty
   * `outputPath`. `arg == None` is a constructor called without options.
   */
  function Configure(arg: Option<RawOptions>): (r: Result<Settings, ConfigError>)
    ensures r.Failure? <==> arg.None? || arg.value.filesToConcat.None? || |arg.value.filesToConcat.value| == 0
    ensures r.Success? ==>
      var o := arg.value;
      && r.value.filesToConcat == o.filesToConcat.value
      && |r.value.filesToConcat| > 0
      && r.value.fileName == (if o.fileName.Some? then o.fileName.value else DefaultFileName)
      && r.value.name == (if o.name.Some? then o.name.value else DefaultName)
      && r.value.injectType == (if o.injectType.Some? then o.injectType.value else Prepend)
      && (o.outputPath.None? ==> r.value.outputPath == "")
      && (o.outputPath.Some? ==> r.value.outputPath == Utils.EnsureTrailingSlash(o.outputPath.value))
      && r.value.useHash == o.useHash
      && r.value.hashFunction == o.hashFunction && r.value.hashDigest == o.hashDigest
      && r.value.publicPath == o.publicPath && r.value.attributes == o.attributes
  {
    var o := if arg.Some? then arg.value else RawOptions(None, None, None, None, None, false, None, None, Unset, None);
    var files := o.filesToConcat;
    if files.None? || |files.value| == 0 then Failure(MissingFilesToConcat)
    else
      var out := o.outputPath.GetOr("");
      Success(Settings(
        files.value,
        o.fileName.GetOr(DefaultFileName),
        o.name.GetOr(DefaultName),
        o.injectType.GetOr(Prepend),
        if out == "" then out else Utils.EnsureTrailingSlash(out),
        o.useHash,
        o.hashFunction,
        o.hashDigest,
        o.publicPath,
        o.attributes))
  }

  /** The digest algorithm hashFile uses; `md5` when none is configured. */
  function HashFunction(s: Settings): string {
    s.hashFunction.GetOr("md5")
  }

  /** The digest encoding hashFile uses; `hex` when none is configured. */
  function HashDigest(s: Settings): string {
    s.hashDigest.GetOr("hex")
  }

  /** A constructor called with no options at all fails, as the test suite expects. */
  lemma {:induction false} NoOptionsThrows()
    ensures Configure(None).Failure?
  {
  }

  /** With only the required key given, every default is filled in. */
  lemma {:induction false} DefaultsFilled(files: seq<string>)
    requires |files| > 0
    ensures var r := Configure(Some(RawOptions(Some(files), None, None, None, None, false, None, None, Unset, None)));
      r.Success? && r.value.fileName == "[name].js" && r.value.name == "result"
      && r.value.injectType == Prepend && r.value.outputPath == ""
  {
  }
}
