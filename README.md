# webpack-concat-plugin, modelled in Dafny

A webpack plugin that concatenates a configured list of JavaScript files (or
glob patterns) into one output asset, names it from a template (`[name]`,
`[hash]`, `[hash:N]`), optionally announces it to the HTML generator's page,
and rebuilds only when one of its input files changed. Two generations of the
plugin are modelled: `lib/index.js` (with `lib/file.js` and `lib/utils.js`),
which joins source-mapped fragments with newlines, and the older root
`index.js`, which merges `{ virtualPath: text }` records and joins their
texts with no separator.

Modules, following the structure of the program:

- `Utils` — `ensureTrailingSlash`.
- `Options` — the constructor's defaults and its one check (`filesToConcat`).
- `Text` — leftmost-occurrence search and `String.prototype.replace` with a
  string or non-global pattern.
- `Naming`, `NamingExamples` — getFileName's template logic: the hash regex,
  slot synthesis for `.js` templates, the `[hash:N]` slice, the `[name]`
  substitution; worked names on a fixed digest.
- `Hashing` — hashFile's URL-safe rewrite of a `base64` digest.
- `Changes` — `dependenciesChanged` and the timestamp snapshot.
- `Resolution` — glob expansion and flattening, `Promise.all`, the
  per-specifier resolve cache (`ResolveCache`, a class).
- `SourceFiles` — `lib/file.js`: the `sourceMappingURL` regex, where the map
  comes from, stripping the comment line, the fragment.
- `Concat` — the newline-aware join of lib/index.js, the load filter, and the
  record merge and plain join of index.js.
- `Records` — JavaScript objects as insertion-ordered entries:
  `o[k]`, `o[k] = v`, `Object.assign`.
- `Latch` — the `compileLoopStarted` flag shared by the hooks, as traces of
  hook firings.
- `Html` — the asset path, `injectToHtml` on the HTML generator's data
  (a class), and the `alterAssetTags` attribute merge (a class).
- `Plugin` — the lib/index.js plugin object (`ConcatPlugin`, a class) with
  its hooks as methods, called in the order webpack fires them.
- `Legacy` — the same for index.js (`LegacyConcatPlugin`).

Everything the plugin borrows — the digest (`crypto`), the file system,
`globby`, the path helpers, base64 decoding, `JSON.parse`, webpack's resolver
— is an uninterpreted function passed in (`Plugin.Env`, `SourceFiles.FileHost`,
`Html.PathOps`). The clock (`Date.now()`) is the constructor's `now` argument.
A rejected or swallowed promise is an `Option`/`Result` error value, and a run
whose error is only logged is a `Pass` whose `completed` flag is false (its
callback never runs).

Behaviour of the code worth knowing:

- The snapshot `prevTimestamps` is replaced only on the full path of
  `dependenciesChanged`; the two early `return true` paths leave it as it was
  (`Changes.DependenciesChanged`).
- A file's previous timestamp falls back to the plugin's start time when it is
  missing or zero (`prev.get(file) || startTime`), and a missing current
  timestamp counts as changed (`|| Infinity`).
- A specifier that resolved once and then fails leaves its promise pending
  forever instead of rejecting, so it can no longer make the batch reject; a
  batch of only such known-good specifiers never settles once one of them
  fails, while a batch that also holds a failing new specifier still rejects
  (`Resolution.KnownGoodNeverRejects`).
- hashFile's cache (`this.fileHash && !this.needCreateNewFile`) never answers
  through getFileName: getFileName already returns the stored name when no new
  file is needed, so every digest it asks for is fresh
  (`Plugin.ConcatPlugin.GetFileName`).
- The HTML hook injects `self.finalFileName` as it stands; before any name
  exists that is the text `undefined` (`Plugin.Shown`).
- index.js emits under `` `${outputPath}/${name}` ``, so a configured
  `outputPath` (which already ends in `/`) gives a double slash and the default
  one a leading slash (`Legacy.EmitPathSlashes`).

## Model

| member | source | states |
|---|---|---|
| `Utils.EnsureTrailingSlash` | lib/utils.js:5-11 | the result is the input or the input plus one `/`; it is the input exactly when the input is empty or ends in `/`; a non-empty result ends in `/` |
| `Utils.EnsureTrailingSlashIdempotent` | index.js:55-61 | applying it twice is applying it once; the input is a prefix of the result, which is at most one character longer |
| `Options.Configure` | lib/index.js:31-48 | fails exactly when there are no options or `filesToConcat` is missing or empty; otherwise every key is the given value or its default (`[name].js`, `result`, `prepend`, `""`) and a non-empty `outputPath` gets a trailing slash |
| `Options.HashFunction` | lib/index.js:94 | the destructuring default: the configured algorithm, or `md5` when none is configured; it is what `HashFile` hands to the digest (`Plugin.ConcatPlugin.HashFile`, `Legacy.LegacyConcatPlugin.HashFile`) |
| `Options.HashDigest` | lib/index.js:94 | the destructuring default: the configured encoding, or `hex` when none is configured; it picks the digest's encoding and whether `FinishDigest` rewrites it (`Hashing.FinishDigest`) |
| `Options.NoOptionsThrows` | test/concat-plugin.test.js:4-6 | a constructor called with no options fails |
| `Options.DefaultsFilled` | index.js:28-33 | with only `filesToConcat` given, the file name, name, inject type and output path take their defaults |
| `Text.ReplaceFirst` | lib/index.js:82 | a pattern that does not occur leaves the string unchanged |
| `Text.ReplaceFirstAfter` | lib/index.js:82 | in `a + p + b` with `a` free of `p`, only that first `p` is replaced and everything around it is kept |
| `Text.FindFrom` | lib/index.js:77 | the result is the leftmost occurrence at or after the start; none means no occurrence at all |
| `Naming.DigitRun` | lib/index.js:68 | `\d+` takes the longest run of digits: all digits, ending at a non-digit or the end |
| `Naming.LeadingToken` | lib/index.js:68 | a hash-token match at the start of a string starts with `[hash` and is non-empty |
| `Naming.FindHashToken` | lib/index.js:77 | a match returned lies inside the string and is a hash token starting at its position |
| `Naming.HasHashToken` | lib/index.js:70 | `hashRegExp.test`: some hash token occurs; `Naming.SlottedHasToken`, `Naming.NoOpenNoToken` and `Naming.FileName` state what it decides |
| `Naming.FindHashTokenLeftmost` | lib/index.js:77 | no hash token starts before the match returned; no match means no token anywhere |
| `Naming.HashSlice` | lib/index.js:78-80 | the slice is a prefix of the digest, the whole digest without a width, and `min(N, length)` long with width `N` |
| `Naming.FileName` | lib/index.js:67-82 | without hashing the name is only the first `[name]` replaced; the name fails (the TypeError on a null match) exactly when hashing is needed, the template has no hash token and it does not end in `.js` |
| `Naming.NeedsHash` | lib/index.js:70 | hashing happens when `useHash` is set or the template already holds a hash token; `Naming.FileName` states its outcome on both sides |
| `Naming.WithHashSlot` | lib/index.js:73-75 | a template without a hash token that ends in `.js` gets `[hash]` before the extension, any other template is kept; `Naming.SlottedHasToken` proves it then holds a token exactly when it did or ended in `.js` |
| `Naming.SubstituteHash` | lib/index.js:77-80 | the first hash token is replaced by the digest cut to its width, `None` when there is no token; `Naming.SubstituteAtFirst`, `Naming.SubstituteHashWidth` and `Naming.SubstituteHashFull` state the result for a token at a given place |
| `Naming.SlottedHasToken` | lib/index.js:73-75 | after slot synthesis a hash token exists exactly when one existed or the template ends in `.js` |
| `Naming.SubstituteHashWidth` | lib/index.js:77-80 | `[hash:N]` after a prefix free of `[hash` receives the first `min(N, length)` digest characters, and later text is kept |
| `Naming.SubstituteHashFull` | lib/index.js:78-80 | `[hash]` after a prefix free of `[hash` receives the whole digest |
| `Naming.SynthesizedSlot` | lib/index.js:74 | with `useHash` and a `.js` template free of `[hash`, the digest lands before the extension as `.<digest>.js` |
| `Naming.PlainTemplate` | lib/index.js:82 | a template with one `[name]` and no hash request gets the name at that place and nowhere else |
| `Naming.LeadingName` | lib/index.js:82 | a template beginning with `[name]` gets the name at its beginning |
| `Naming.TokenTemplate` | lib/index.js:70 | a template that holds a hash token is hashed in place whatever `useHash` says |
| `Naming.FirstTokenAt` | lib/index.js:77 | the first hash token is the one at `k` when none starts before `k` |
| `Naming.NoOpenNoToken` | lib/index.js:68 | a string that never spells `[hash` holds no hash token |
| `NamingExamples.ExampleWidth8` | lib/index.js:78-82 | `[name].[hash:8].js` with name `result` and an md5 hex digest gives `result.` plus its first 8 characters plus `.js` |
| `NamingExamples.ExampleWidth20` | test/cases/uglify-use-hash/webpack.config.js:8 | `[name].[hash:20].js` gives `result.` plus the first 20 digest characters plus `.js` |
| `NamingExamples.ExampleFullHash` | test/cases/use-hash/webpack.config.js:9 | `[name].[hash].js` gives `result.` plus the whole digest plus `.js` |
| `Hashing.UrlSafe` | lib/index.js:100-107 | the rewritten digest holds no `/`, `+` or `=` and is no longer than the original |
| `Hashing.FinishDigest` | lib/index.js:98-110 | a `base64` digest is made URL-safe; any other encoding is kept as it is |
| `Hashing.UrlSafeAppend` | lib/index.js:100 | the global replace works character by character: it distributes over concatenation |
| `Hashing.UrlSafeKeepsSafeText` | lib/index.js:105 | a digest with no unsafe character is kept exactly |
| `Hashing.UrlSafeIdempotent` | lib/index.js:100-107 | rewriting a rewritten digest changes nothing |
| `Hashing.UrlSafeLength` | lib/index.js:104 | only `=` is deleted: the length drops by exactly the number of `=` |
| `Hashing.PaddingExample` | lib/index.js:104 | `Zm8=` becomes `Zm8` |
| `Hashing.SubstitutionExample` | lib/index.js:102-104 | `a+b/c=` becomes `a-b_c` |
| `Changes.Keys` | lib/index.js:261 | the keys of the timestamp map in insertion order |
| `Changes.Lookup` | lib/index.js:267-268 | a present key answers the value of its first entry, a non-zero answer is an entry of the map under that key, and an absent key answers 0 |
| `Changes.IsChanged` | lib/index.js:267-269 | the `\|\|` rule: a missing or zero previous entry falls back to the start time, and a missing or zero current entry always counts as changed; `Changes.FirstCheckUsesStartTime`, `Changes.RecheckIsQuiet` and `Changes.TouchedInputRebuilds` state what it decides |
| `Changes.ChangedFiles` | lib/index.js:265-271 | a key is kept exactly when it is a key of the map and counts as changed |
| `Changes.SomeIncluded` | lib/index.js:275 | true exactly when some changed file is one of the resolved input files |
| `Changes.DependenciesChanged` | lib/index.js:257-276 | no timestamps or an empty map answers `true` and keeps the snapshot; otherwise the snapshot becomes the current map and the answer is whether some input file is a key that changed |
| `Changes.RecheckIsQuiet` | lib/index.js:273 | checking again against the snapshot just taken, with the same non-zero timestamps, finds no change |
| `Changes.IrrelevantChangesIgnored` | lib/index.js:275 | timestamps only of files outside the input list never trigger a rebuild |
| `Changes.TouchedInputRebuilds` | lib/index.js:265-275 | an input file whose timestamp counts as changed forces a rebuild |
| `Changes.FirstCheckUsesStartTime` | lib/index.js:267 | with an empty snapshot a file counts as changed exactly when its timestamp is missing or later than the start time |
| `Changes.DependenciesChangedAsWritten` | lib/index.js:52 | with the initial `{}` snapshot a check that sees timestamps fails (`.get` is not a function); the early paths keep `{}`; a taken snapshot behaves as the corrected check |
| `Changes.FirstTimestampsThrow` | lib/index.js:267 | a check without timestamps keeps `{}`, and the first one with a timestamp then fails |
| `Changes.SnapshotAfterChecks` | lib/index.js:266-273 | the snapshot field after a run of checks as written: a check that throws does so before the assignment at line 273 and leaves the field as it was; properties in `NoMapNeverReplaced` |
| `Changes.NoMapNeverReplaced` | lib/index.js:52 | no run of checks as written ever replaces the initial `{}` |
| `Changes.EveryFullCheckThrows` | lib/index.js:267 | hence every check of a run that sees timestamps throws, not only the first |
| `Changes.EmptyMapSnapshotAnswers` | index.js:243 | with an empty `Map` as the initial snapshot the first check succeeds, keeps the current map, and reports a change exactly when an input file's timestamp is missing or later than the start time |
| `Resolution.Flatten` | lib/index.js:127 | no expansions flatten to no paths |
| `Resolution.FlattenAppend` | lib/index.js:127 | flattening distributes over concatenation of the expansion lists |
| `Resolution.FlattenBlock` | lib/index.js:127 | the paths of specifier `i` form one block after every earlier specifier's paths and before every later one's |
| `Resolution.FlattenLiterals` | lib/index.js:125 | literal specifiers flatten to exactly themselves, in order |
| `Resolution.RelativePaths` | lib/index.js:117-131 | getRelativePathAsync: `None` exactly when `Expand` fails (a glob fails), otherwise the expansions flattened in order; `Resolution.Expand`, `Resolution.FlattenLiterals` and `Resolution.GlobThenLiteral` state what that list holds |
| `Resolution.Expand` | lib/index.js:118-126 | succeeds exactly when every glob specifier's glob succeeds; then one expansion per specifier, in order: the matches for a glob, the specifier itself otherwise |
| `Resolution.GlobThenLiteral` | lib/index.js:118-127 | a glob matching three files followed by a literal path gives four paths, the literal last |
| `Resolution.All` | lib/index.js:177 | `Promise.all` resolves exactly when all resolve, with every value in order; rejects exactly when one rejects; otherwise stays pending |
| `Resolution.Outcome` | lib/index.js:146-153 | an answer resolves with the path; an error rejects exactly when the specifier never resolved before, and otherwise leaves the promise pending |
| `Resolution.CachedAfter` | lib/index.js:150 | cache entries are only ever added |
| `Resolution.CachedAfterMembers` | lib/index.js:148-150 | after a batch a specifier is cached exactly when it was before or one of its resolutions succeeded |
| `Resolution.Outcomes` | lib/index.js:178-182 | one outcome per resolution of the batch, each decided by the cache as the earlier ones left it; `Resolution.OutcomeAt` and `Resolution.KnownGoodNeverRejects` state them |
| `Resolution.OutcomeAt` | lib/index.js:178-182 | resolution `i` of a batch ends as the cache left by the resolutions before it dictates |
| `Resolution.KnownGoodNeverRejects` | lib/index.js:148 | a batch of specifiers that all resolved before never rejects; it stalls exactly when one of them fails now |
| `Resolution.ResolveCache.constructor` | lib/index.js:54 | the cache starts empty |
| `Resolution.ResolveCache.ResolveReadFile` | lib/index.js:139-156 | success adds the specifier to the cache and resolves with the path; an error leaves the cache and rejects exactly when the specifier is not cached |
| `Resolution.ResolveCache.ResolveAll` | lib/index.js:176-185 | the cache after the batch and the settlement of `Promise.all` over the per-path outcomes, each seeing the cache as it then was |
| `SourceFiles.LineRun` | lib/file.js:34 | `.+` takes the longest run of non-terminator characters |
| `SourceFiles.CommentAt` | lib/file.js:34 | a match at `i` is the marker, a non-empty one-line body and a newline; its groups are the inline flag and the url |
| `SourceFiles.CommentAtLine` | lib/file.js:34 | conversely a marker followed by a non-empty line and a newline is matched there, exactly that line |
| `SourceFiles.CommentAtParts` | lib/file.js:34 | the marker, a run of `n > 0` line characters and a newline make a match of exactly that line, whose groups come from the run |
| `SourceFiles.FindComment` | lib/file.js:36 | the match returned is a comment line and none starts before it; none means no comment line anywhere |
| `SourceFiles.ReadFile` | lib/file.js:14-21 | a read that fails gives `undefined` (`None`) and never rejects; the host's `read` is uninterpreted |
| `SourceFiles.Strip` | lib/file.js:49-51 | the first occurrence of the matched line's text is removed, the text kept when nothing matched; `SourceFiles.StripRemovesMatchedLine` proves this removes exactly the matched line |
| `SourceFiles.StripRemovesMatchedLine` | lib/file.js:49-51 | the first comment line is cut out, exactly, and a file without one is kept |
| `SourceFiles.MatchedLineFirst` | lib/file.js:49-51 | the line matched first is also the first occurrence of its own text, so replacing that text removes that line |
| `SourceFiles.NoEarlierCopy` | lib/file.js:36 | where no match starts, no marker line with a one-line body starts either |
| `SourceFiles.MapLocation` | lib/file.js:39-45 | an inline comment gives its payload; another comment gives the url beside the file; no comment gives `<file>.map` |
| `SourceFiles.MappingText` | lib/file.js:39-47 | an inline payload is always used once decoded; a map file is used exactly when it can be read and is non-empty |
| `SourceFiles.GetSourceAndMap` | lib/file.js:27-54 | fails as unreadable exactly when the file cannot be read or is empty; otherwise the source is the stripped text, and the map is absent when no mapping text exists, and otherwise the parse of that text (a parse failure fails the load) |
| `SourceFiles.WebpackPath` | lib/file.js:62 | the fragment's name is `webpack:///` followed by the path relative to the context; `SourceFiles.CreateFileWithMap` states that every fragment carries it |
| `SourceFiles.CreateFileWithMap` | lib/file.js:61-76 | fails exactly when getSourceAndMap fails; the fragment is named `webpack:///` plus the relative path, carries the stripped source, and carries the map exactly when it is truthy |
| `SourceFiles.InlineMapFile` | lib/file.js:39-40 | a file with an inline base64 map comment gets the parse of the decoded payload and loses the comment line |
| `SourceFiles.ExternalMapFile` | lib/file.js:41-42 | a file naming a map file reads it from beside the file, and loses the comment line |
| `SourceFiles.UncommentedFile` | lib/file.js:43-45 | a file without a comment line keeps its text and looks for `<file>.map` |
| `SourceFiles.EmptyInlinePayloadIsUrl` | lib/file.js:34 | an inline prefix followed directly by the newline is taken as a url, since `(.+)` needs a character |
| `SourceFiles.NoNewlineNoComment` | lib/file.js:34 | text with no newline holds no match |
| `SourceFiles.BareMarkerNoComment` | lib/file.js:34 | the marker directly followed by the newline is not a match |
| `SourceFiles.CommentEndsLine` | lib/file.js:34 | every match ends with a newline |
| `SourceFiles.NoCommentBefore` | lib/file.js:36 | no match starts inside a prefix that ends a line and never spells the marker |
| `SourceFiles.CommentedText` | lib/file.js:36-51 | a text with one comment line after such a prefix has exactly that match and strips to the text around it |
| `Concat.Separator` | lib/index.js:227-233 | a newline precedes fragment `i` exactly when it is not the first and neither its predecessor ends nor it starts with a newline |
| `Concat.Joined` | lib/index.js:224-236 | the ConcatSource's text: the fragments in order, each after its `Separator`; `Concat.FragmentPlacement`, `Concat.NoFusion`, `Concat.JoinedLength` and `Concat.JoinedPrefix` state what it holds, and `Concat.Concatenate`'s loop computes it |
| `Concat.Concatenate` | lib/index.js:224-236 | the loop builds exactly the joined text of the fragments |
| `Concat.JoinedPrefix` | lib/index.js:225 | the joined text of a prefix of the fragments is a prefix of the joined text |
| `Concat.JoinedSnoc` | lib/index.js:227-235 | adding a fragment appends the separator it needs and then the fragment |
| `Concat.FragmentPlacement` | lib/index.js:235 | fragment `i` follows the joined earlier fragments and its separator |
| `Concat.NoFusion` | lib/index.js:230-232 | neighbouring fragments never share a line: one ends, the other starts, or a newline is put between |
| `Concat.TerminatedFragmentsJoinPlainly` | lib/index.js:230 | fragments that all end in a newline are joined with nothing between |
| `Concat.JoinedLength` | lib/index.js:232 | the joined length is the fragments' total length plus the number of inserted newlines |
| `Concat.TwoStatements` | lib/index.js:230-232 | two one-line statements are put on separate lines |
| `Concat.EmptyFragmentBetween` | lib/index.js:228-231 | the check looks at the previous fragment alone: an empty fragment after a terminated one is still followed by a newline |
| `Concat.KeepLoaded` | lib/index.js:199-202 | exactly the values of the fulfilled loads are kept, and no more of them than loads |
| `Concat.KeepLoadedAppend` | lib/index.js:199-202 | keeping distributes over concatenation, so relative order is kept |
| `Concat.AllLoadedKept` | lib/index.js:200 | when every load succeeds every fragment is kept, in order |
| `Concat.FailedLoadDropped` | lib/index.js:196-202 | a failed load is dropped and the others are kept around it |
| `Concat.MergeRecords` | index.js:210 | the in-place merge loop builds exactly `Object.assign` of all records onto `{}` |
| `Concat.MergedPaths` | index.js:210 | the merged object holds each path once, exactly the paths of the records |
| `Concat.MergedContent` | index.js:210 | each merged path holds the content read last for it |
| `Concat.Merged` | index.js:210 | the `Object.assign` fold onto `{}`; `Concat.MergedPaths`, `Concat.MergedContent`, `Concat.MergedKeyOrder` and `Concat.FirstPosition` state its keys, their order and their contents |
| `Concat.DuplicateCollapses` | index.js:210 | a path read again straight after its first reading keeps its place and the later content |
| `Concat.MergedKeyOrder` | index.js:210 | the merged paths are the records' paths in order of their first reading, each once |
| `Concat.FirstPosition` | index.js:210 | a path first read after the records `a` sits right after their merged paths, whatever is read later, copies of it included |
| `Concat.MergedSnoc` | index.js:210 | merging one more record is one more `Object.assign` write |
| `Concat.RereadKeepsPlace` | index.js:210 | paths read as x, y, x merge to x then y with x's later content, so the emitted text is x's later content followed by y's |
| `Concat.PlainConcatPair` | index.js:97-98 | two parts join with nothing between them |
| `Concat.PlainConcat` | index.js:97-98 | no parts give the empty text |
| `Concat.ConcatEntries` | index.js:213-216 | the emit loop builds the merged contents joined in key order with no separator |
| `Concat.PlainConcatAppend` | index.js:98 | the plain join distributes over concatenation of the parts |
| `Records.KeysOf` | index.js:97 | `Object.keys`: the keys in insertion order |
| `Records.ValuesOf` | index.js:214 | the values in insertion order |
| `Records.Get` | index.js:98 | `o[k]` is undefined exactly when `k` is not a key, and otherwise a value stored under `k` |
| `Records.Assign` | lib/index.js:324 | `o[k] = v` updates a present key in place and appends a new one |
| `Records.GetAssign` | lib/index.js:324 | after `o[k] = v`, `k` reads `v` and every other key reads as before |
| `Records.AssignAll` | lib/index.js:352 | `Object.assign(target, source)`: every key of `source` reads its value there, every other key reads as in `target`, the target's keys keep their places at the front, and the keys are those of both; proved in `Records.GetAssignAll`, `Records.AssignAllKeys` and `Records.AssignAllDistinct` |
| `Records.GetAssignAll` | lib/index.js:352 | after `Object.assign(t, s)` a key reads its value in `s` when it has one there, its old value otherwise |
| `Records.AssignKeys` | lib/index.js:324 | `o[k] = v` keeps every key where it was and adds `k` to the keys when it was missing |
| `Records.AssignNewest` | index.js:210 | writing again the key added last rewrites that entry alone |
| `Records.AssignAllDistinct` | index.js:210 | `Object.assign` onto an object with distinct keys keeps them distinct |
| `Records.AssignAllAppend` | index.js:210 | `Object.assign` over a concatenated source is the two assigns in turn |
| `Records.FirstOccurrences` | index.js:210 | exactly the keys of its input, each once in order of first appearance; `Records.AssignAllKeyOrder` uses it |
| `Records.AssignAllKeyOrder` | index.js:210 | writing a run of entries into `{}` orders the keys by first appearance |
| `Records.AssignAllKeys` | lib/index.js:352 | `Object.assign` keeps the target's keys in place, and the keys after it are exactly those of the target and the source |
| `Records.AssignDistinct` | lib/index.js:324 | one write keeps the keys distinct |
| `Records.IndexOfKey` | lib/index.js:324 | a found index holds the key; none means the key is absent |
| `Records.UpdateAll` | lib/index.js:324 | every entry under the key takes the new value; the others and the order are kept |
| `Records.Put` | lib/index.js:324 | the write produces exactly `Assign` |
| `Latch.Step` | lib/index.js:333-375 | processAssets compiles exactly when the flag is clear; the HTML hook also compiles when no file name exists; both leave the flag set; afterEmit clears it and compiles nothing |
| `Latch.AtMostOneRunPerPass` | lib/index.js:365-367 | between two afterEmit events processAssets starts at most one run, and none when the flag was already set |
| `Latch.ExtraRunsNeedUnnamedHook` | lib/index.js:333-335 | within a pass every run beyond the first comes from an HTML hook that found no file name |
| `Latch.PassLeavesFlagSet` | lib/index.js:334 | after any event of a pass the flag is set |
| `Latch.AfterEmitRearms` | lib/index.js:373-375 | after afterEmit the next processAssets starts a run |
| `Html.AssetPath` | lib/index.js:306-317 | without an applicable public path the asset path is the file's location relative to the HTML file's directory |
| `Html.PublicPrefix` | lib/index.js:306-317 | the public path that applies: the plugin's string, none when it is `false`, and the HTML generator's when the plugin sets none; `Html.ConfiguredPublicPathWins` and `Html.DisabledIgnoresHtmlPublicPath` state the two precedence rules |
| `Html.AssetPathShape` | lib/index.js:311 | with a public path `p`: `p`, a `/` exactly when `p` is non-empty and lacks one, `outputPath` and the file name |
| `Html.ConfiguredPublicPathWins` | lib/index.js:316 | a configured string public path decides alone; the HTML generator's public path and the page location do not matter |
| `Html.DisabledIgnoresHtmlPublicPath` | lib/index.js:313-315 | `publicPath: false` behaves as if neither public path were set |
| `Html.Injected` | lib/index.js:326-330 | `prepend` puts the asset path first, `append` last, `none` leaves the list |
| `Html.InjectedOnce` | lib/index.js:326-330 | injection adds the asset path once unless disabled, and removes nothing |
| `Html.HtmlPluginData.constructor` | lib/index.js:305 | the page data as the HTML generator hands it over |
| `Html.InjectToHtml` | lib/index.js:319-331 | returns the asset path, records it under the plugin's name in `webpackConcat` (created when missing) and puts it into the script list as the inject type says |
| `Html.InjectionRecord` | lib/index.js:320-324 | after injection the plugin's name reads the asset path and every other plugin's entry is as before |
| `Html.AssetTags.constructor` | lib/index.js:347 | the script tags as the HTML generator hands them over |
| `Html.AlterAssetTags` | lib/index.js:345-357 | with injection disabled or no attributes nothing changes; otherwise each tag whose `src` is the asset path gets the attributes assigned and every other tag is kept |
| `Html.Selected` | lib/index.js:349 | the filter `tag.attributes.src === assetPath`, where a never-set path selects the tags without `src`; `Html.RetagKeepsSelection` shows that retagging keeps it |
| `Html.Retagged` | lib/index.js:350-353 | a selected tag gets the configured attributes assigned over its own, every other tag is kept; `Html.RetaggedAttributes` states the attributes a selected tag then reads |
| `Html.RetagScripts` | lib/index.js:349-353 | one tag per tag: each tag whose `src` is the asset path has the attributes merged in, the others are unchanged |
| `Html.RetaggedAttributes` | lib/index.js:352 | on a matching tag each configured attribute reads its configured value, the others keep theirs, and existing attributes keep their order |
| `Html.RetagKeepsSelection` | lib/index.js:349 | unless the attributes set `src`, a merged tag still matches |
| `Plugin.Texts` | lib/index.js:228-229 | one text per fragment, its source |
| `Plugin.Loads` | lib/index.js:196-198 | one load per resolved path, in order |
| `Plugin.Relatives` | lib/index.js:285-287 | each resolved path relative to the context, in order |
| `Plugin.Answers` | lib/index.js:178-182 | the resolver's answer for each relative path, in order |
| `Plugin.Shown` | lib/index.js:309-316 | a file name as the template literal prints it, the text `undefined` when none exists yet; the HTML hooks inject paths built from it (`Plugin.ConcatPlugin.OnBeforeAssetTagGeneration`) |
| `Plugin.Settle` | lib/index.js:183-185 | the `.catch` after `Promise.all`: resolved paths stay paths, a rejection is logged and becomes `undefined`, a batch that never settles stays so; `Plugin.ConcatPlugin.OnResolver` states the promise it installs through it |
| `Plugin.ConcatPlugin.constructor` | lib/index.js:48-54 | the settings and start time as given; the corrected empty `Map` as the snapshot (see Findings), an empty cache, a new file needed, no name, no digest, the latch clear |
| `Plugin.Truthy` | lib/index.js:333 | `!self.finalFileName` fails exactly for an unset or empty name; `Plugin.ConcatPlugin.OnBeforeAssetTagGeneration` states when a run starts through it |
| `Plugin.ConcatPlugin.Digest` | lib/index.js:94-110 | the host's digest of the text under the configured algorithm and encoding, made URL-safe for `base64`; `Plugin.ConcatPlugin.HashFile` stores it and `Hashing.FinishDigest` states the rewrite |
| `Plugin.ConcatPlugin.NameFor` | lib/index.js:237 | the template's name for the text, with its digest; `Naming.FileName` states the naming rules and `Plugin.ConcatPlugin.GetFileName` computes it |
| `Plugin.ConcatPlugin.HashFile` | lib/index.js:89-111 | the stored digest while one is set and no new file is needed; otherwise the fresh URL-safe digest of the content, which is stored |
| `Plugin.ConcatPlugin.GetFileName` | lib/index.js:62-83 | the stored name when no new file is needed; otherwise the template's name for the content, hashing afresh exactly when the name needs a digest |
| `Plugin.ConcatPlugin.ResolveConcatAndUglify` | lib/index.js:223-244 | emits the joined text under `join(outputPath, name)`; the name succeeds exactly when the template's name for the joined text does; a failure changes neither the name nor the flag; the stored digest is the joined text's when a new file was needed and the name hashes, and is unchanged otherwise |
| `Plugin.ConcatPlugin.ReadFragments` | lib/index.js:192-206 | a new file is needed, and the fragments are exactly the successful loads in order |
| `Plugin.ConcatPlugin.CheckDependencies` | lib/index.js:257-276 | the answer of the change check, and the snapshot it leaves |
| `Plugin.ConcatPlugin.OnResolver` | lib/index.js:174-187 | the cache after resolving every relative path; the first firing settles the absolute paths (undefined on a glob failure or a rejection, never on a stall) and later firings leave them |
| `Plugin.ConcatPlugin.ProcessCompiling` | lib/index.js:283-299 | with no usable path list nothing happens and the callback never runs; otherwise the dependencies are added, an unchanged build completes at once, and a changed one emits the joined loaded fragments under the template's name, or stalls on a naming error; the stored digest changes only on a rebuild whose name hashes |
| `Plugin.ConcatPlugin.Rebuild` | lib/index.js:291-295 | after a fresh load the callback runs exactly when the template's name for the joined loaded fragments succeeds; then that text is emitted under that name and no new file is needed; otherwise nothing is emitted and the name is kept; the stored digest is the joined text's exactly when the name hashes |
| `Plugin.ConcatPlugin.OnProcessAssets` | lib/index.js:361-371 | the latch decides whether a run starts, and a refused run changes nothing |
| `Plugin.ConcatPlugin.OnBeforeAssetTagGeneration` | lib/index.js:305-343 | the latch decides whether a run starts; the asset path is injected exactly when no run starts or the run completes, built from the name as it then is; when no run starts, the name, the flag, the snapshot and the digest are kept |
| `Plugin.ConcatPlugin.OnAfterEmit` | lib/index.js:373-375 | the latch is cleared |
| `Plugin.New` | lib/index.js:31-55 | construction fails exactly when the options fail; otherwise a fresh plugin with the completed settings in its initial state, the snapshot being the corrected empty `Map` |
| `Legacy.Content` | index.js:97-98 | the text hashFile digests and the emit loop writes: the merged contents in key order, which is the order in which each path was first read (`Concat.MergedKeyOrder`, `Concat.RereadKeepsPlace`); `Concat.PlainConcatAppend` and `Concat.ConcatEntries` state how it is built |
| `Legacy.ReadRecords` | index.js:174-195 | the records exist exactly when every file can be read; then one `{ "webpack:///" + relative: text }` record per path, in order |
| `Legacy.LegacyConcatPlugin.constructor` | index.js:43-49 | the same initial state as lib/index.js, with the corrected empty `Map` as the snapshot (see Findings) |
| `Legacy.LegacyConcatPlugin.Digest` | index.js:97-112 | the digest of the records' contents joined in key order, made URL-safe for `base64`; `Legacy.LegacyConcatPlugin.HashFile` stores it |
| `Legacy.LegacyConcatPlugin.NameFor` | index.js:212 | the template's name for the records, with their digest; `Legacy.LegacyConcatPlugin.GetFileName` computes it |
| `Legacy.LegacyConcatPlugin.HashFile` | index.js:93-115 | the stored digest while set and no new file is needed; otherwise the digest of the records' contents joined in key order, stored |
| `Legacy.LegacyConcatPlugin.GetFileName` | index.js:67-88 | the stored name when no new file is needed; otherwise the template's name for the records' contents |
| `Legacy.LegacyConcatPlugin.ResolveConcatAndUglify` | index.js:209-220 | no records fail; otherwise the merged contents are emitted under `outputPath + "/" + name`, the name being the template's name for the merged records; a failure changes neither the name nor the flag; the stored digest is the merged records' when a new file was needed and the name hashes, and is unchanged otherwise |
| `Legacy.LegacyConcatPlugin.ReadFiles` | index.js:174-195 | a new file is needed, and the records are those read |
| `Legacy.LegacyConcatPlugin.CheckDependencies` | index.js:233-252 | the answer of the change check, and the snapshot it leaves |
| `Legacy.LegacyConcatPlugin.OnResolver` | index.js:145-172 | as lib/index.js, with the cache rule written inline |
| `Legacy.LegacyConcatPlugin.ProcessCompiling` | index.js:254-270 | as lib/index.js, except that one unreadable file stalls the run without emitting, leaving a new file needed and the digest as it was |
| `Legacy.LegacyConcatPlugin.Rebuild` | index.js:262-266 | an unreadable file stalls with a new file needed; otherwise as lib/index.js, with the merged records' contents emitted under `outputPath + "/" + name` and digested when the name hashes |
| `Legacy.LegacyConcatPlugin.OnProcessAssets` | index.js:331-343 | the latch decides whether a run starts, and a refused run changes nothing |
| `Legacy.LegacyConcatPlugin.OnBeforeAssetTagGeneration` | index.js:276-314 | as lib/index.js |
| `Legacy.LegacyConcatPlugin.OnAfterEmit` | index.js:344-346 | the latch is cleared |
| `Legacy.NewLegacy` | index.js:27-50 | construction fails exactly when the options fail; otherwise a fresh plugin in its initial state, the snapshot being the corrected empty `Map` |
| `Legacy.EmitPathSlashes` | index.js:217 | the emitted path starts with `/` under the default `outputPath` and has `//` after a configured one |
| `Legacy.RecordsCollapse` | index.js:186 | the merged records hold each path read exactly once, and exactly the paths read |
| `Legacy.KeyedByPath` | index.js:186 | records keyed by the paths' `webpack:///` names have exactly those names as keys |

## Left out

- I/O and promise timing: files, globs, the resolver and the digest are uninterpreted functions; the order in which promises settle is replaced by calling the hook methods in webpack's order, and each resolver answer is taken to arrive in list order (`Resolution.ResolveCache.ResolveAll`).
- The digest algorithms themselves (`crypto.createHash`) and base64 decoding: uninterpreted, since only their use is the plugin's logic.
- `globby.hasMagic` and `globby`: uninterpreted; `nodir` and `cwd` are theirs.
- webpack-sources internals: a `SourceMapSource` is kept as its text, name and parsed map; merging the maps into the emitted asset's map is the library's work and is not modelled. `ConcatSource.add` is modelled through the texts it joins.
- Option validation against the JSON schema (`validateOptions`): the schema is not part of this model, so `Options.Configure` takes already well-typed options (inject type one of three values, public path a string or `false`).
- The minifier named in `resolveConcatAndUglify` is not called by either implementation; there is nothing to model.
- `$`-patterns in `String.prototype.replace` (`$&`, `$1`, …) in the configured name or the digest are not interpreted; `Text.ReplaceFirst` inserts the replacement literally.
- `getReadFilePromise`'s cached promise: both implementations always call it with `true`, so a new read is always made; the cached branch is unreachable and is not modelled.
- The test `should check absolute path for files` (test/concat-plugin.test.js:8-11) reads a `filesToConcatAbsolute` property that neither implementation sets; it is not modelled.
- `resolveCache` keys that collide with `Object.prototype` members (`constructor`, `toString`, …) read as truthy in JavaScript; the model's cache is a plain set.
- upath versus path (lib/index.js versus index.js): both are the uninterpreted `PathOps`.
- `compilation.fileDependencies` is a `Set`; `Pass.dependencies` lists what is added, in order, with repeats.
- The tags `alterAssetTags` changes are objects shared with the HTML generator; `Html.AlterAssetTags` replaces them by value in a sequence, so aliasing of one tag object in two places is not captured.
- Timestamps are integers, and a falsy timestamp (`0`, `null`, `undefined`) is written 0; `Infinity` is the rule that a zero current timestamp counts as changed.
- `filesToConcatAbsolutePromise` before the resolver hook has fired is a promise that has not settled yet; the model's `absolute == None` makes a run wait forever, as a later settlement is a later call in the model.
- Plugin.ConcatPlugin.OnProcessAssets: states when a run starts and that a refused run changes nothing; what a started run does is `ProcessCompiling`'s contract, not repeated here.
- Plugin.ConcatPlugin.OnBeforeAssetTagGeneration: states when a run starts and when and what is injected; the run's own effects are `ProcessCompiling`'s contract, not repeated here.
- Legacy.LegacyConcatPlugin.OnProcessAssets: as its lib/index.js counterpart.
- Legacy.LegacyConcatPlugin.OnBeforeAssetTagGeneration: as its lib/index.js counterpart.
- `console.error` and `console.debug`: logging only.
- Changes.DependenciesChanged: the snapshot is kept as a copy of the timestamps' value, whereas `this.prevTimestamps = compilation.fileTimestamps` (lib/index.js:273, index.js:249) keeps a reference to the host's `Map`; a host that changes that `Map` in place between checks is not captured.
- Plugin.ConcatPlugin.constructor: installs the corrected empty `Map` as `prevTimestamps`, not the `{}` of lib/index.js:52. As written, the first check that sees timestamps throws (lib/index.js:267), the error is only logged (lib/index.js:296-298) so the callback never runs, and `{}` is never replaced, so every later such check throws too (`Changes.EveryFullCheckThrows`); the class models the evidently intended plugin (see Findings), not that failure.
- Legacy.LegacyConcatPlugin.constructor: likewise installs the corrected empty `Map` instead of the `{}` of index.js:47, whose checks throw in the same way.
- Options.Configure: an option given explicitly as `undefined` is treated as absent. For `fileName`, `name`, `injectType` and `outputPath` the object spread (lib/index.js:32-38) and `Object.assign` (index.js:28-33) would let an explicit `undefined` override the default; the destructuring defaults of `hashFunction` and `hashDigest` (lib/index.js:94) do apply to it, as modelled.

## Findings

| source | as written | input that shows it | evidently intended | confidence | as-written member | corrected member |
|---|---|---|---|---|---|---|
| lib/index.js:52 | the snapshot starts as `{}`, and `dependenciesChanged` calls `this.prevTimestamps.get(file)` on it (`TypeError: this.prevTimestamps.get is not a function`); the throw comes before the assignment at lib/index.js:273, so `{}` is never replaced and every later check with timestamps throws too; the same in index.js:47 and index.js:243 | the first compilation whose `fileTimestamps` holds one entry, e.g. `/src/a.js` at 5 | an empty `Map`, so that the first check compares every file with the start time | not executed | `Changes.FirstTimestampsThrow`, `Changes.EveryFullCheckThrows` | `Changes.EmptyMapSnapshotAnswers` |
