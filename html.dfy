/**
 * The HTML generator integration, the same in lib/index.js and index.js:
 * the asset path under which the concatenated file is announced, its
 * injection into the page's script list and the `webpackConcat` record,
 * and the configured attributes merged onto the matching script tags.
 */
module Html {
  import opened Wrappers
  import opened Options
  import opened Records
  import Utils

  /** The host's path helpers (`upath` in lib/index.js, `path` in index.js), uninterpreted. */
  datatype PathOps = PathOps(relative: (string, string) -> string, dirname: string -> string, join: (string, string) -> string)

  /**
   * The public path that applies: the plugin's own when it is a string,
   * none when it is `false`, and the HTML generator's when the plugin has none.
   */
  function PublicPrefix(publicPath: PublicPath, htmlPublicPath: Option<string>): Option<string> {
    match publicPath
    case Path(p) => Some(p)
    case Disabled => None
    case Unset => htmlPublicPath
  }

  /**
   * getAssetPath: the public path with a trailing slash, then `outputPath`
   * and the file name; without a public path, the file's location relative
   * to the directory of the HTML file.
   */
  function AssetPath(ops: PathOps, publicPath: PublicPath, htmlPublicPath: Option<string>, outputName: string, outputPath: string, fileName: string): (r: string)
    ensures PublicPrefix(publicPath, htmlPublicPath).None? ==> r == ops.relative(ops.dirname(outputName), outputPath + fileName)
  {
    match PublicPrefix(publicPath, htmlPublicPath)
    case Some(p) => Utils.EnsureTrailingSlash(p) + outputPath + fileName
    case None => ops.relative(ops.dirname(outputName), outputPath + fileName)
  }

  /**
   * With a public path `p` the asset path is `p`, a `/` exactly when `p` is
   * non-empty and does not end in one, then `outputPath` and the file name.
   */
  lemma {:induction false} AssetPathShape(ops: PathOps, publicPath: PublicPath, htmlPublicPath: Option<string>, outputName: string, outputPath: string, fileName: string)
    requires PublicPrefix(publicPath, htmlPublicPath).Some?
    ensures var p := PublicPrefix(publicPath, htmlPublicPath).value;
      var r := AssetPath(ops, publicPath, htmlPublicPath, outputName, outputPath, fileName);
      r == p + (if p != "" && !Utils.EndsWithSlash(p) then "/" else "") + outputPath + fileName
  {
  }

  /** A configured string public path decides alone: the HTML generator's public path and the page location do not matter. */
  lemma {:induction false} ConfiguredPublicPathWins(ops: PathOps, ops': PathOps, p: string, h: Option<string>, h': Option<string>, o: string, o': string, outputPath: string, fileName: string)
    ensures AssetPath(ops, Path(p), h, o, outputPath, fileName) == AssetPath(ops', Path(p), h', o', outputPath, fileName)
  {
  }

  /** `publicPath: false` ignores the HTML generator's public path and behaves as if neither were set. */
  lemma {:induction false} DisabledIgnoresHtmlPublicPath(ops: PathOps, h: Option<string>, o: string, outputPath: string, fileName: string)
    ensures AssetPath(ops, Disabled, h, o, outputPath, fileName) == AssetPath(ops, Unset, None, o, outputPath, fileName)
  {
  }

  /** The script list after injection: the asset path first, last, or not at all. */
  function Injected(js: seq<string>, injectType: InjectType, a: string): (r: seq<string>)
    ensures injectType == NoInjection ==> r == js
    ensures injectType == Prepend ==> |r| == |js| + 1 && r[0] == a && r[1..] == js
    ensures injectType == Append ==> |r| == |js| + 1 && r[|js|] == a && r[..|js|] == js
  {
    match injectType
    case Prepend => [a] + js
    case Append => js + [a]
    case NoInjection => js
  }

  /** Injection adds the asset path once (unless disabled) and removes nothing. */
  lemma {:induction false} InjectedOnce(js: seq<string>, injectType: InjectType, a: string)
    ensures multiset(Injected(js, injectType, a)) == multiset(js) + if injectType == NoInjection then multiset{} else multiset{a}
  {
  }

  /** The parts of `htmlPluginData` that the hooks read or change. */
  class HtmlPluginData {
    /** The HTML file being generated (`outputName`). */
    const outputName: string
    /** `assets.publicPath`; `None` when it is `undefined`. */
    const publicPath: Option<string>
    /** `assets.js`: the script paths the page will load, in order. */
    var js: seq<string>
    /** `assets.webpackConcat`: asset paths by plugin `name`; `None` until a plugin creates it. */
    var webpackConcat: Option<Entries<string>>

    constructor(outputName: string, publicPath: Option<string>, js: seq<string>, webpackConcat: Option<Entries<string>>)
      ensures this.outputName == outputName && this.publicPath == publicPath
      ensures this.js == js && this.webpackConcat == webpackConcat
    {
      this.outputName := outputName;
      this.publicPath := publicPath;
      this.js := js;
      this.webpackConcat := webpackConcat;
    }
  }

  /**
   * injectToHtml: records the asset path under the plugin's name (keeping
   * the entries of other plugins) and puts it into the script list as
   * `injectType` says. Returns the asset path, which alterAssetTags matches.
   */
  method InjectToHtml(data: HtmlPluginData, settings: Settings, finalFileName: string, ops: PathOps) returns (assetPath: string)
    modifies data
    ensures assetPath == AssetPath(ops, settings.publicPath, data.publicPath, data.outputName, settings.outputPath, finalFileName)
    ensures data.webpackConcat == Some(Assign(old(data.webpackConcat).GetOr([]), settings.name, assetPath))
    ensures data.js == Injected(old(data.js), settings.injectType, assetPath)
  {
    var record := data.webpackConcat.GetOr([]);
    assetPath := AssetPath(ops, settings.publicPath, data.publicPath, data.outputName, settings.outputPath, finalFileName);
    record := Put(record, settings.name, assetPath);
    data.webpackConcat := Some(record);
    if settings.injectType == Prepend {
      data.js := [assetPath] + data.js;
    } else if settings.injectType == Append {
      data.js := data.js + [assetPath];
    }
  }

  /** After injection the plugin's name reads the asset path, and every other plugin's entry is as it was. */
  lemma {:induction false} InjectionRecord(before: Option<Entries<string>>, name: string, assetPath: string, other: string)
    requires other != name
    ensures Get(Assign(before.GetOr([]), name, assetPath), name) == Some(assetPath)
    ensures Get(Assign(before.GetOr([]), name, assetPath), other) == Get(before.GetOr([]), other)
  {
    GetAssign(before.GetOr([]), name, assetPath, name);
    GetAssign(before.GetOr([]), name, assetPath, other);
  }

  /** A script tag and its attributes, in insertion order. */
  datatype Tag = Tag(tagName: string, attributes: Entries<AttrValue>)

  /**
   * `tag.attributes.src === assetPath`; `assetPath` is `None` when this
   * compilation never injected, and then tags without `src` match.
   */
  predicate Selected(t: Tag, assetPath: Option<string>) {
    Get(t.attributes, "src") == if assetPath.Some? then Some(Text(assetPath.value)) else None
  }

  /** A tag after the merge: the configured attributes assigned onto a matching tag. */
  function Retagged(t: Tag, assetPath: Option<string>, attributes: Entries<AttrValue>): Tag {
    if Selected(t, assetPath) then Tag(t.tagName, AssignAll(t.attributes, attributes)) else t
  }

  /** `htmlPluginData.assetTags`: the script tags, changed in place. */
  class AssetTags {
    var scripts: seq<Tag>

    constructor(scripts: seq<Tag>)
      ensures this.scripts == scripts
    {
      this.scripts := scripts;
    }
  }

  /**
   * `scripts.filter(tag => tag.attributes.src === assetPath).forEach(...)`:
   * every tag whose `src` is the asset path gets the configured attributes
   * merged in; the others are left as they are.
   */
  method RetagScripts(scripts: seq<Tag>, assetPath: Option<string>, attributes: Entries<AttrValue>) returns (r: seq<Tag>)
    ensures |r| == |scripts|
    ensures forall i :: 0 <= i < |scripts| ==> r[i] == Retagged(scripts[i], assetPath, attributes)
  {
    r := scripts;
    var i := 0;
    while i < |r|
      invariant 0 <= i <= |r| == |scripts|
      invariant forall j :: 0 <= j < i ==> r[j] == Retagged(scripts[j], assetPath, attributes)
      invariant forall j :: i <= j < |r| ==> r[j] == scripts[j]
    {
      r := r[i := Retagged(r[i], assetPath, attributes)];
      i := i + 1;
    }
  }

  /**
   * The alterAssetTags hook: unless injection is disabled or no attributes
   * are configured, every script tag whose `src` is the asset path gets the
   * configured attributes; other tags are untouched.
   */
  method AlterAssetTags(tags: AssetTags, injectType: InjectType, attributes: Option<Entries<AttrValue>>, assetPath: Option<string>)
    modifies tags
    ensures injectType == NoInjection || attributes.None? ==> tags.scripts == old(tags.scripts)
    ensures injectType != NoInjection && attributes.Some? ==>
      |tags.scripts| == |old(tags.scripts)|
      && forall i :: 0 <= i < |tags.scripts| ==> tags.scripts[i] == Retagged(old(tags.scripts)[i], assetPath, attributes.value)
  {
    if injectType != NoInjection && attributes.Some? {
      tags.scripts := RetagScripts(tags.scripts, assetPath, attributes.value);
    }
  }

  /**
   * On a matching tag each configured attribute reads its configured value,
   * every other attribute keeps its value, and the existing attributes keep
   * their order.
   */
  lemma {:induction false} RetaggedAttributes(t: Tag, assetPath: Option<string>, attributes: Entries<AttrValue>, k: string)
    requires Selected(t, assetPath)
    ensures var r := Retagged(t, assetPath, attributes).attributes;
      && Get(r, k) == (if Get(attributes, k).Some? then Get(attributes, k) else Get(t.attributes, k))
      && |t.attributes| <= |r|
      && forall i :: 0 <= i < |t.attributes| ==> r[i].0 == t.attributes[i].0
  {
    GetAssignAll(t.attributes, attributes, k);
    AssignAllKeys(t.attributes, attributes);
  }

  /** Unless the configured attributes set `src`, a merged tag still matches, so a second merge finds it again. */
  lemma {:induction false} RetagKeepsSelection(t: Tag, assetPath: Option<string>, attributes: Entries<AttrValue>)
    requires Get(attributes, "src").None?
    ensures Selected(Retagged(t, assetPath, attributes), assetPath) == Selected(t, assetPath)
  {
    GetAssignAll(t.attributes, attributes, "src");
  }
}
