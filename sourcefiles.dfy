/**
 * The Fragment Loader (lib/file.js): read one input file, find its
 * `//# sourceMappingURL=` comment, choose where its source map comes from,
 * strip the comment line, and build the named fragment.
 */
module SourceFiles {
  import opened Wrappers
  import opened Text

  const Marker := "//# sourceMappingURL="
  const InlinePrefix := "data:application/json;base64,"

  /** What the regex's `.` matches: anything but the four line terminators. */
  predicate IsLineChar(c: char) {
    c != '\n' && c != '\r' && c != '\U{2028}' && c != '\U{2029}'
  }

  predicate AllLineChars(s: string) {
    forall k :: 0 <= k < |s| ==> IsLineChar(s[k])
  }

  /** Length of the run of line characters starting at `i` (`.+` is greedy). */
  function LineRun(s: string, i: nat): (n: nat)
    requires i <= |s|
    ensures i + n <= |s|
    ensures forall k :: i <= k < i + n ==> IsLineChar(s[k])
    ensures i + n == |s| || !IsLineChar(s[i + n])
    decreases |s| - i
  {
    if i < |s| && IsLineChar(s[i]) then 1 + LineRun(s, i + 1) else 0
  }

  /** A run of line characters ending at a terminator, at least `n` long, is exactly `n` long. */
  lemma {:induction false} LineRunExact(s: string, i: nat, n: nat)
    requires i + n < |s|
    requires forall k :: i <= k < i + n ==> IsLineChar(s[k])
    requires !IsLineChar(s[i + n])
    ensures LineRun(s, i) == n
  {
  }

  /**
   * A match of the comment pattern: the matched line is `s[start..end]`,
   * `\n` included; `inline` is whether the base64 group took part, and
   * `url` is the second group.
   */
  datatype Comment = Comment(start: nat, end: nat, inline: bool, url: string)

  /** What the two groups capture from the text between the marker and the newline. */
  function Groups(body: string): (bool, string) {
    if StartsWith(body, InlinePrefix) && |body| > |InlinePrefix| then (true, body[|InlinePrefix|..])
    else (false, body)
  }

  /**
   * `/\/\/# sourceMappingURL=(data:application\/json;base64,)?(.+)\n/`
   * tried at index `i`. When the optional group leaves nothing for `.+`, the
   * engine backtracks and the whole text after the marker is the url.
   */
  function CommentAt(s: string, i: nat): (r: Option<Comment>)
    requires i <= |s|
    ensures r.Some? ==> r.value.start == i && i + |Marker| < r.value.end <= |s|
    ensures r.Some? ==>
      var body := s[i + |Marker|..r.value.end - 1];
      && |body| > 0 && AllLineChars(body)
      && OccursAt(s, Marker + body + "\n", i)
      && (r.value.inline, r.value.url) == Groups(body)
  {
    if !OccursAt(s, Marker, i) then None
    else
      var p := i + |Marker|;
      var n := LineRun(s, p);
      if n == 0 || p + n == |s| || s[p + n] != '\n' then None
      else
        var body := s[p..p + n];
        assert s[i..p + n + 1] == s[i..p] + body + "\n";
        var g := Groups(body);
        Some(Comment(i, p + n + 1, g.0, g.1))
  }

  /**
   * Conversely, a marker followed by at least one line character and a
   * newline is matched there, and the match is exactly that line.
   */
  lemma {:induction false} CommentAtLine(s: string, i: nat, body: string)
    requires i <= |s| && |body| > 0 && AllLineChars(body)
    ensures OccursAt(s, Marker + body + "\n", i) ==>
      var g := Groups(body);
      CommentAt(s, i) == Some(Comment(i, i + |Marker| + |body| + 1, g.0, g.1))
  {
    var line := Marker + body + "\n";
    if OccursAt(s, line, i) {
      var p := i + |Marker|;
      OccursAtSplit(s, Marker + body, "\n", i);
      OccursAtSplit(s, Marker, body, i);
      assert s[p + |body|] == '\n' by {
        assert s[p + |body|..p + |body| + 1][0] == s[p + |body|];
      }
      LineRunExact(s, p, |body|);
      CommentAtParts(s, i, |body|);
    }
  }

  /** The match at `i` when the marker is there and its line run of `n` characters ends at a newline. */
  lemma {:induction false} CommentAtParts(s: string, i: nat, n: nat)
    requires i + |Marker| + n < |s| && n > 0
    requires OccursAt(s, Marker, i) && LineRun(s, i + |Marker|) == n && s[i + |Marker| + n] == '\n'
    ensures var g := Groups(s[i + |Marker|..i + |Marker| + n]);
      CommentAt(s, i) == Some(Comment(i, i + |Marker| + n + 1, g.0, g.1))
  {
  }

  /** No match starts at any index of `s` in `[lo, hi)`. */
  predicate NoMatchIn(s: string, lo: nat, hi: nat) {
    forall j :: lo <= j < hi && j <= |s| ==> CommentAt(s, j).None?
  }

  /** `regexp.exec(source)` from index `i`: the leftmost match. */
  function FindComment(s: string, i: nat): (r: Option<Comment>)
    requires i <= |s|
    ensures r.Some? ==> i <= r.value.start <= |s| && CommentAt(s, r.value.start) == r && NoMatchIn(s, i, r.value.start)
    ensures r.None? ==> NoMatchIn(s, i, |s| + 1)
    decreases |s| - i
  {
    match CommentAt(s, i)
    case Some(c) => Some(c)
    case None => if i == |s| then None else FindComment(s, i + 1)
  }

  /** `source.replace(sourceMappingLine, '')` when there was a match. */
  function Strip(s: string): string {
    match FindComment(s, 0)
    case None => s
    case Some(c) => ReplaceFirst(s, s[c.start..c.end], "")
  }

  /** The line matched first is also the first occurrence of its own text. */
  lemma {:induction false} MatchedLineFirst(s: string, c: Comment)
    requires c.start <= |s| && CommentAt(s, c.start) == Some(c)
    requires forall j :: 0 <= j < c.start ==> CommentAt(s, j).None?
    ensures c.start <= c.end <= |s| && OccursAt(s, s[c.start..c.end], c.start)
    ensures forall j :: 0 <= j < c.start ==> !OccursAt(s, s[c.start..c.end], j)
  {
    var body := s[c.start + |Marker|..c.end - 1];
    assert s[c.start..c.end] == Marker + body + "\n";
    NoEarlierCopy(s, c.start, body);
  }

  /** Where no match starts, no marker line whose body is a single line starts either. */
  lemma {:induction false} NoEarlierCopy(s: string, start: nat, body: string)
    requires start <= |s| && |body| > 0 && AllLineChars(body)
    requires forall j :: 0 <= j < start ==> CommentAt(s, j).None?
    ensures forall j :: 0 <= j < start ==> !OccursAt(s, Marker + body + "\n", j)
  {
    forall j | 0 <= j < start
      ensures !OccursAt(s, Marker + body + "\n", j)
    {
      CommentAtLine(s, j, body);
    }
  }

  /**
   * Removing the matched line's text removes that very line: no copy of it
   * can appear earlier, since it would have been matched first.
   */
  lemma {:induction false} StripRemovesMatchedLine(s: string)
    ensures FindComment(s, 0).None? ==> Strip(s) == s
    ensures FindComment(s, 0).Some? ==>
      var c := FindComment(s, 0).value;
      Strip(s) == s[..c.start] + s[c.end..]
  {
    if FindComment(s, 0).Some? {
      var c := FindComment(s, 0).value;
      MatchedLineFirst(s, c);
      ReplaceAtFirst(s, s[c.start..c.end], c.start, "");
      assert s[..c.start] + "" == s[..c.start];
    }
  }

  /** Where the source map is read from. */
  datatype MapSource = FromInline(payload: string) | FromFile(path: string)

  /**
   * The map location: the decoded payload of an inline comment, the url
   * beside the file for another comment, or `<file>.map` when there is none.
   */
  function MapLocation(dirname: string -> string, filePath: string, m: Option<Comment>): (r: MapSource)
    ensures m.Some? && m.value.inline ==> r == FromInline(m.value.url)
    ensures m.Some? && !m.value.inline ==> r == FromFile(dirname(filePath) + "/" + m.value.url)
    ensures m.None? ==> r == FromFile(filePath + ".map")
  {
    match m
    case Some(c) => if c.inline then FromInline(c.url) else FromFile(dirname(filePath) + "/" + c.url)
    case None => FromFile(filePath + ".map")
  }

  /** A parsed JSON value and whether it is truthy (`null`, `0`, `false` and `""` are not). */
  datatype Json = Json(value: string, truthy: bool)

  /** The operations lib/file.js borrows from Node and its libraries. */
  datatype FileHost = FileHost(
    read: string -> Option<string>,
    dirname: string -> string,
    relative: (string, string) -> string,
    decodeBase64: string -> string,
    parse: string -> Option<Json>)

  /**
   * readFile: the file's text, or `undefined` (`None`) when it cannot be
   * read; the returned promise never rejects.
   */
  function ReadFile(host: FileHost, filePath: string): Option<string> {
    host.read(filePath)
  }

  /**
   * `sourceMapping` when truthy: a decoded inline payload (a Buffer, which
   * is always truthy), or a map file's non-empty text.
   */
  function MappingText(host: FileHost, loc: MapSource): (r: Option<string>)
    ensures loc.FromInline? ==> r == Some(host.decodeBase64(loc.payload))
    ensures loc.FromFile? ==> (r.Some? <==> ReadFile(host, loc.path).Some? && ReadFile(host, loc.path).value != "")
    ensures loc.FromFile? && r.Some? ==> r == ReadFile(host, loc.path)
  {
    match loc
    case FromInline(payload) => Some(host.decodeBase64(payload))
    case FromFile(path) =>
      var t := ReadFile(host, path);
      if t.Some? && t.value != "" then t else None
  }

  datatype Loaded = Loaded(source: string, sourceMap: Option<Json>)

  datatype LoadError = Unreadable | BadMap

  /** getSourceAndMap: the stripped source and the parsed map, if one was found. */
  function GetSourceAndMap(host: FileHost, filePath: string): (r: Result<Loaded, LoadError>)
    ensures var content := ReadFile(host, filePath);
      r == Failure(Unreadable) <==> content.None? || content.value == ""
    ensures r.Success? ==> r.value.source == Strip(ReadFile(host, filePath).value)
    ensures r.Success? ==>
      var loc := MapLocation(host.dirname, filePath, FindComment(ReadFile(host, filePath).value, 0));
      match MappingText(host, loc)
      case None => r.value.sourceMap.None?
      case Some(t) => host.parse(t).Some? && r.value.sourceMap == host.parse(t)
  {
    var content := ReadFile(host, filePath);
    if content.None? || content.value == "" then Failure(Unreadable)
    else
      var s := content.value;
      var loc := MapLocation(host.dirname, filePath, FindComment(s, 0));
      match MappingText(host, loc)
      case None => Success(Loaded(Strip(s), None))
      case Some(t) =>
        match host.parse(t)
        case None => Failure(BadMap)
        case Some(j) => Success(Loaded(Strip(s), Some(j)))
  }

  /** The source handed to webpack: with its parsed map, or on its own. */
  datatype Fragment = WithMap(source: string, name: string, sourceMap: Json) | Original(source: string, name: string)

  /** The fragment's identity under webpack's virtual scheme. */
  function WebpackPath(host: FileHost, context: string, filePath: string): string {
    "webpack:///" + host.relative(context, filePath)
  }

  /** createFileWithMap: `None` is the rejected promise. */
  function CreateFileWithMap(host: FileHost, context: string, filePath: string): (r: Option<Fragment>)
    ensures r.None? <==> GetSourceAndMap(host, filePath).Failure?
    ensures r.Some? ==>
      var loaded := GetSourceAndMap(host, filePath).value;
      && r.value.name == WebpackPath(host, context, filePath)
      && r.value.source == loaded.source
      && (r.value.WithMap? <==> loaded.sourceMap.Some? && loaded.sourceMap.value.truthy)
      && (r.value.WithMap? ==> r.value.sourceMap == loaded.sourceMap.value)
  {
    match GetSourceAndMap(host, filePath)
    case Failure(_) => None
    case Success(loaded) =>
      var name := WebpackPath(host, context, filePath);
      if loaded.sourceMap.Some? && loaded.sourceMap.value.truthy then Some(WithMap(loaded.source, name, loaded.sourceMap.value))
      else Some(Original(loaded.source, name))
  }

  /** The marker holds no newline. */
  lemma {:induction false} MarkerIsOneLine()
    ensures forall k :: 0 <= k < |Marker| ==> Marker[k] != '\n'
  {
  }

  /** Nor does the inline prefix. */
  lemma {:induction false} InlinePrefixIsOneLine()
    ensures AllLineChars(InlinePrefix)
  {
  }

  /**
   * In `a + line + b`, where `a` is empty or ends a line and never spells
   * the marker, no match starts inside `a`.
   */
  lemma {:induction false} NoCommentBefore(a: string, s: string)
    requires a == [] || a[|a| - 1] == '\n'
    requires Absent(a, Marker)
    requires |a| <= |s| && s[..|a|] == a
    ensures forall j :: 0 <= j < |a| ==> CommentAt(s, j).None?
  {
    forall j | 0 <= j < |a|
      ensures !OccursAt(s, Marker, j)
    {
      if j + |Marker| <= |a| {
        SliceInPrefix(s, a, j, j + |Marker|);
        assert !OccursAt(a, Marker, j);
      } else if j + |Marker| <= |s| {
        var k := |a| - 1 - j;
        MarkerIsOneLine();
        assert s[j..j + |Marker|][k] == a[|a| - 1] == '\n' != Marker[k];
      }
    }
  }

  /** The first comment line of a text beginning `a + Marker + body + "\n"`, for `a` as in NoCommentBefore. */
  lemma {:induction false} LeadingCommentLine(s: string, a: string, body: string)
    requires a == [] || a[|a| - 1] == '\n'
    requires Absent(a, Marker)
    requires |body| > 0 && AllLineChars(body)
    requires |a| <= |s| && s[..|a|] == a && OccursAt(s, Marker + body + "\n", |a|)
    ensures var g := Groups(body);
      FindComment(s, 0) == Some(Comment(|a|, |a| + |Marker| + |body| + 1, g.0, g.1))
  {
    var line := Marker + body + "\n";
    var g := Groups(body);
    var c := Comment(|a|, |a| + |Marker| + |body| + 1, g.0, g.1);
    CommentAtLine(s, |a|, body);
    NoCommentBefore(a, s);
    FindLeadingComment(s, |a|, c);
  }

  /** The leftmost match is the one at `k` when none starts earlier. */
  lemma {:induction false} FindLeadingComment(s: string, k: nat, c: Comment)
    requires k <= |s| && CommentAt(s, k) == Some(c)
    requires forall j :: 0 <= j < k ==> CommentAt(s, j).None?
    ensures FindComment(s, 0) == Some(c)
  {
    FindLeadingCommentFrom(s, 0, k);
  }

  lemma {:induction false} FindLeadingCommentFrom(s: string, i: nat, k: nat)
    requires i <= k <= |s| && CommentAt(s, k).Some?
    requires forall j :: i <= j < k ==> CommentAt(s, j).None?
    ensures FindComment(s, i) == CommentAt(s, k)
    decreases k - i
  {
    if i < k {
      FindLeadingCommentFrom(s, i + 1, k);
    }
  }

  /** A text with one comment line after a prefix as in NoCommentBefore: its match, and its stripped text. */
  lemma {:induction false} CommentedText(s: string, a: string, body: string, b: string)
    requires a == [] || a[|a| - 1] == '\n'
    requires Absent(a, Marker)
    requires |body| > 0 && AllLineChars(body)
    requires s == a + Marker + body + "\n" + b
    ensures var g := Groups(body);
      FindComment(s, 0) == Some(Comment(|a|, |a| + |Marker| + |body| + 1, g.0, g.1))
    ensures Strip(s) == a + b
  {
    var n := |a| + |Marker| + |body| + 1;
    assert s[..|a|] == a;
    assert s[|a|..n] == Marker + body + "\n";
    assert s[n..] == b;
    LeadingCommentLine(s, a, body);
    StripRemovesMatchedLine(s);
  }

  /** What getSourceAndMap returns for a readable file, given its first comment and its stripped text. */
  lemma {:induction false} LoadedWith(host: FileHost, filePath: string, m: Option<Comment>, stripped: string)
    requires ReadFile(host, filePath).Some? && ReadFile(host, filePath).value != ""
    requires FindComment(ReadFile(host, filePath).value, 0) == m
    requires Strip(ReadFile(host, filePath).value) == stripped
    ensures var r := GetSourceAndMap(host, filePath);
      match MappingText(host, MapLocation(host.dirname, filePath, m))
      case None => r == Success(Loaded(stripped, None))
      case Some(t) =>
        match host.parse(t)
        case None => r == Failure(BadMap)
        case Some(j) => r == Success(Loaded(stripped, Some(j)))
  {
  }

  /**
   * A file whose comment carries an inline base64 map: the map is parsed
   * from the decoded payload and the comment line disappears from the source.
   */
  lemma {:induction false} InlineMapFile(host: FileHost, filePath: string, a: string, payload: string, b: string)
    requires a == [] || a[|a| - 1] == '\n'
    requires Absent(a, Marker)
    requires |payload| > 0 && AllLineChars(payload)
    requires ReadFile(host, filePath) == Some(a + Marker + InlinePrefix + payload + "\n" + b)
    ensures var r := GetSourceAndMap(host, filePath);
      match host.parse(host.decodeBase64(payload))
      case None => r == Failure(BadMap)
      case Some(j) => r == Success(Loaded(a + b, Some(j)))
  {
    var body := InlinePrefix + payload;
    assert AllLineChars(body) by {
      InlinePrefixIsOneLine();
    }
    assert Groups(body) == (true, payload) by {
      assert body[..|InlinePrefix|] == InlinePrefix && body[|InlinePrefix|..] == payload;
    }
    var s := ReadFile(host, filePath).value;
    assert s == a + Marker + body + "\n" + b;
    CommentedText(s, a, body, b);
    LoadedWith(host, filePath, Some(Comment(|a|, |a| + |Marker| + |body| + 1, true, payload)), a + b);
  }

  /**
   * A file whose comment names a map file: the map is read from beside the
   * file and the comment line disappears from the source. An inline prefix
   * with nothing after it counts as such a url.
   */
  lemma {:induction false} ExternalMapFile(host: FileHost, filePath: string, a: string, url: string, b: string)
    requires a == [] || a[|a| - 1] == '\n'
    requires Absent(a, Marker)
    requires |url| > 0 && AllLineChars(url)
    requires !(StartsWith(url, InlinePrefix) && |url| > |InlinePrefix|)
    requires ReadFile(host, filePath) == Some(a + Marker + url + "\n" + b)
    ensures var r := GetSourceAndMap(host, filePath);
      var mapText := ReadFile(host, host.dirname(filePath) + "/" + url);
      if mapText.None? || mapText.value == "" then r == Success(Loaded(a + b, None))
      else match host.parse(mapText.value)
        case None => r == Failure(BadMap)
        case Some(j) => r == Success(Loaded(a + b, Some(j)))
  {
    var s := ReadFile(host, filePath).value;
    CommentedText(s, a, url, b);
    LoadedWith(host, filePath, Some(Comment(|a|, |a| + |Marker| + |url| + 1, false, url)), a + b);
  }

  /** A comment whose inline prefix is followed directly by the newline is read as a url. */
  lemma {:induction false} EmptyInlinePayloadIsUrl()
    ensures Groups(InlinePrefix) == (false, InlinePrefix)
  {
  }

  /** Every match ends with the newline that terminates its line. */
  lemma {:induction false} CommentEndsLine(s: string, j: nat)
    requires j <= |s|
    ensures CommentAt(s, j).Some? ==> s[CommentAt(s, j).value.end - 1] == '\n'
  {
    var r := CommentAt(s, j);
    if r.Some? {
      var body := s[j + |Marker|..r.value.end - 1];
      assert s[j..r.value.end] == Marker + body + "\n";
      assert s[j..r.value.end][r.value.end - 1 - j] == '\n';
    }
  }

  /** Text with no newline at all holds no match: the line must be terminated. */
  lemma {:induction false} NoNewlineNoComment(s: string)
    requires forall k :: 0 <= k < |s| ==> s[k] != '\n'
    ensures FindComment(s, 0).None?
  {
    forall j | 0 <= j <= |s|
      ensures CommentAt(s, j).None?
    {
      CommentEndsLine(s, j);
    }
  }

  /** The marker directly followed by the newline is not a match: `.+` needs a character. */
  lemma {:induction false} BareMarkerNoComment(s: string, i: nat)
    requires OccursAt(s, Marker + "\n", i)
    ensures CommentAt(s, i).None?
  {
    var p := i + |Marker|;
    assert s[p] == (Marker + "\n")[|Marker|];
    assert s[i..p] == (Marker + "\n")[..|Marker|];
    assert LineRun(s, p) == 0;
  }

  /** A file without a comment line keeps its text and looks for `<file>.map`. */
  lemma {:induction false} UncommentedFile(host: FileHost, filePath: string)
    requires ReadFile(host, filePath).Some? && ReadFile(host, filePath).value != ""
    requires FindComment(ReadFile(host, filePath).value, 0).None?
    ensures var r := GetSourceAndMap(host, filePath);
      var mapText := ReadFile(host, filePath + ".map");
      if mapText.None? || mapText.value == "" then r == Success(Loaded(ReadFile(host, filePath).value, None))
      else match host.parse(mapText.value)
        case None => r == Failure(BadMap)
        case Some(j) => r == Success(Loaded(ReadFile(host, filePath).value, Some(j)))
  {
    StripRemovesMatchedLine(ReadFile(host, filePath).value);
  }
}
