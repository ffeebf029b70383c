# Next2D auto-loader code generation, modelled in Dafny

The Vite plugin `vite-plugin-next2d-auto-loader` writes two source files into a
Next2D application before each build:

- **`src/config/Config.[ts|js]`**. It starts from
  `{platform, stage: {}, routing: {}}`. Then it applies layers from
  `src/config/config.json`: the environment's layer, then the `all` layer.
  Then it merges `stage.json` and `routing.json` key by key into the two
  sub-maps. The result is serialised with 4-space JSON. The use case then
  resolves every `{{a.b.c}}` placeholder in that text against the merged
  object.
- **`src/Packages.[ts|js]`**. It walks `src/`, depth first. For each file
  whose path contains the output extension, it reads the first line that
  declares `export class N`. A file under `src/view/` is registered as
  `["N", N]`. A file under `src/model/` is registered under a dotted key and
  an underscored alias. Each registered file also gets an import line.

Each generator keeps a module-level cache of the last text it produced. It
writes the file only when the new text differs from the cache.

The project models the three copies of this logic:

- the clean-architecture use cases (`BuildConfigUseCase`,
  `BuildPackageUseCase`, `BuildGetFilePathListUseCase` with the stat service);
- the stand-alone `src/BuildPackage.ts`;
- the older `src/index.js` (`buildConfig`, `getFileType`, `getListFiles`,
  `buildPackage`).

Modules:

- `Base`: `Option`, `Result` with the failures the generators meet (a
  `JSON.parse` `SyntaxError`, a `TypeError` from `in` on a primitive or from
  `Object.assign` onto a read-only target, a failed `readFileSync`, a failed
  `statSync`), and the output extension.
- `JsString`: the string methods the source uses, with JavaScript's
  meaning: `indexOf`, `split`, `join`, `replace` with a string pattern (first
  occurrence only), `slice(0, -n)`.
- `Json`: JSON values as the parser yields them. Objects keep their keys in
  insertion order. The module covers `Object.assign`, `in`, property access,
  `String(v)`, and `JSON.stringify(v, null, 4)`.
- `FileSystem`: the directory tree as a value. `fs.statSync`'s outcome is a
  node kind or a failure. The reference walk `Walk`, the file contents in walk
  order paired with the walked paths, and a `Disk` that records `writeFileSync` calls in order.
- `FilePathListUseCase`: `BuildGetFileTypeService.execute` and
  `BuildGetFilePathListUseCase.execute`.
- `ConfigAssembly`: the layer and sub-map merge shared by both config
  generators. `Assemble` is the specification; `Merge` is the step-by-step
  method.
- `Placeholders`: the `/{{(.*?)}}/g` matches and the name lists, the
  `in`-walk, and the replacement pass.
- `ConfigUseCase`: `BuildConfigUseCase.execute` with `$cacheConfig`.
- `Registry`: the scanner shared by the three package generators. It finds
  the first class line, classifies view against model, builds rows and
  imports, and cuts the array literal.
- `PackageUseCase`: `BuildPackageUseCase.execute` with `$cachePackages`.
- `BuildPackageTs`: `src/BuildPackage.ts`.
- `LegacyIndex`: `src/index.js`.

Process state is passed in as parameters:

- the working directory;
- the two environment variables;
- the plugin options;
- whether `src/index.ts` exists;
- `os.EOL`.

The config documents are inputs that are absent, malformed or parsed. The
source tree is an input of type `seq<FsNode>`. Each file node holds the text
`readFileSync` would return, or nothing when reading fails.

Behaviours of the code that the proofs make explicit:

- **An unresolved placeholder leaf is not kept.** A placeholder whose first
  name resolves but whose leaf is missing (`{{stage.missing}}`) is replaced
  by the text of the last object reached, `[object Object]`. It is not kept
  as written, because the `in`-walk skips missing names instead of stopping.
  `Placeholders.MissingLeafStopsAtParent` shows this. One might expect the
  token to be kept as written; the code replaces it.
- **The `!names.length` guard can never fire.** `split` always returns at
  least one part (`Placeholders.Names`).
- **With no class registered, the array literal loses its opening bracket.**
  `slice(0, -2)` removes the opening `[\n`. The generated module then
  declares `const packages = \n];` (`Registry.EmptyRegistry`,
  `PackageUseCase.NoCandidates`).
- **Under `os.EOL == "\r\n"`, the legacy generator keeps a trailing comma.**
  `slice(0, -2)` removes only the `\r\n` after the last row, so its comma
  stays (`Registry.CutClosed`).
- **A string left under `stage` or `routing` makes the sub-map merge
  throw.** If a layer sets `"stage": "ab"` and stage.json is `{"0": "x"}`,
  `Object.assign` onto the String wrapper hits the read-only index `0` and
  throws a TypeError (`ConfigAssembly.StringStageRefusesIndex`). A key the
  wrapper does not hold read-only is accepted and then dropped with the
  wrapper (`ConfigAssembly.MergeIntoString`).
- **An indented declaration yields "export" as its name.** Field 2 of
  `line.split(" ")` counts from the start of the line, so
  `  export class N` registers the name `export`
  (`Registry.IndentedDeclarationName`).
- **The extension filter is a substring test.** It is not a suffix test, so
  `.tsx` and `.ts.map` pass for `ts`.
- **A file's scan stops at its first `export class` line.** Only that line
  counts, even when the file is neither a view nor a model.

## Model

| member | source | states |
|---|---|---|
| FilePathListUseCase.GetFileType | src/build/service/BuildGetFileTypeService.ts:10-32 | the kind is one of "file", "directory", "unknown"; "file" exactly for a regular file, "directory" exactly for a directory; a failed stat falls to "unknown" |
| FilePathListUseCase.Execute | src/build/usecase/BuildGetFilePathListUseCase.ts:13-38 | the loop with its recursive call returns exactly the reference walk `Walk` of the listing |
| FileSystem.WalkIsFiles | src/build/usecase/BuildGetFilePathListUseCase.ts:21-32 | a path is returned if and only if it names a regular file reached through directories; directory paths themselves never appear |
| FileSystem.WalkUnder | src/build/usecase/BuildGetFilePathListUseCase.ts:20 | every returned path starts with `dir_path + "/" + entry` for some listed entry, and so with `dir_path + "/"` |
| FileSystem.WalkConcat | src/build/usecase/BuildGetFilePathListUseCase.ts:18-29 | the walk of two listings is the walk of the first followed by the walk of the second: depth-first pre-order in listing order |
| FileSystem.WalkAppend | src/build/usecase/BuildGetFilePathListUseCase.ts:27-29 | one more entry appends exactly that entry's contribution, a directory's files spliced in at its position |
| FileSystem.SkipUnknown | src/build/usecase/BuildGetFilePathListUseCase.ts:31-32 | removing an entry that is neither file nor directory, or whose stat fails, leaves the walk unchanged |
| FileSystem.WalkFlat | src/build/usecase/BuildGetFilePathListUseCase.ts:15-37 | for a listing of files only, the result is the listing mapped to `dir_path/name`, same length and order |
| FileSystem.TextsMatchWalk | src/build/usecase/BuildPackageUseCase.ts:28-41 | the walked paths and the contents read in walk order are the two columns of one list of (path, content) pairs, so the i-th content belongs to the i-th path |
| FileSystem.FilesHoldContents | src/build/usecase/BuildPackageUseCase.ts:34-41 | a (path, content) pair is in that list exactly when the tree holds a file at that path with that content |
| JsString.IndexOf | src/build/usecase/BuildPackageUseCase.ts:37 | the result is -1 or an occurrence, and no occurrence lies before it |
| JsString.ReplaceFirst | src/build/usecase/BuildConfigUseCase.ts:96 | only the first occurrence of the pattern is replaced and the text around it is kept; without an occurrence the text is unchanged |
| JsString.StripPrefix | src/build/usecase/BuildPackageUseCase.ts:44 | removing `${dir}/` from a path that starts with it leaves the relative remainder |
| JsString.Split | src/build/usecase/BuildConfigUseCase.ts:78 | `split` always yields at least one part |
| JsString.SplitJoin | src/build/usecase/BuildPackageUseCase.ts:42 | the parts of a split, joined with the separator, give the text back |
| JsString.SplitPiecesFree | src/build/usecase/BuildPackageUseCase.ts:54 | no part of a split contains the separator |
| JsString.Join | src/build/usecase/BuildPackageUseCase.ts:66-67 | `join` of no parts is ""; otherwise it starts with the first part and is as long as the parts plus one separator between each neighbouring pair |
| JsString.SplitHasSecond | src/build/usecase/BuildPackageUseCase.ts:58 | `split` yields a second part if and only if the separator occurs |
| JsString.SplitFirst | src/build/usecase/BuildPackageUseCase.ts:58 | the first part of a split is the text before the first separator, or the whole text |
| JsString.SplitThreeFields | src/build/usecase/BuildPackageUseCase.ts:54 | two occurrences of the separator give at least three fields, so index 2 exists |
| JsString.JoinSplitChar | src/build/usecase/BuildPackageUseCase.ts:64-67 | `split("/").join(d)` replaces every "/" with `d` and changes nothing else |
| JsString.DropLast | src/build/usecase/BuildPackageUseCase.ts:68 | `slice(0, -n)` for n > 0 is a prefix, n characters shorter, or empty when the text is shorter than n |
| Json.Find | src/build/usecase/BuildConfigUseCase.ts:87-88 | a key is found exactly when it is among the object's keys, and what is found is that key's member |
| Json.PutFind | src/build/usecase/BuildConfigUseCase.ts:51-54 | setting a property changes the lookup of that key only |
| Json.PutKeys | src/build/usecase/BuildConfigUseCase.ts:51-54 | setting an existing key keeps the key order; a new key goes last |
| Json.Assign | src/build/usecase/BuildConfigUseCase.ts:40 | `Object.assign` keeps the target's keys in place, appends the source's new keys in order, and keeps keys unique |
| Json.AssignFind | src/build/usecase/BuildConfigUseCase.ts:40 | after `Object.assign` a key of the source has the source's value and every other key keeps the target's |
| Json.AssignKeys | src/build/usecase/BuildConfigUseCase.ts:40 | `Object.assign` keeps the target's keys in order and appends the source's new keys in source order |
| Json.AssignUnique | src/build/usecase/BuildConfigUseCase.ts:40-44 | `Object.assign` never duplicates a key |
| Json.OwnEntries | src/build/usecase/BuildConfigUseCase.ts:40-44 | an object source contributes its members; null, booleans and numbers contribute nothing |
| Json.OwnEntriesUnique | src/build/usecase/BuildConfigUseCase.ts:51-54 | the entries of an array or a string never share a key, and an object's share none if its members share none |
| Json.IndexRoundTrip | src/build/usecase/BuildConfigUseCase.ts:87-88 | the canonical decimal name of an array index reads back as that index |
| Json.IndexNameCanonical | src/build/usecase/BuildConfigUseCase.ts:87-88 | a name accepted as an array index is the canonical decimal text of it |
| Json.HasProperty | src/build/usecase/BuildConfigUseCase.ts:87 | `in` throws exactly when the value is neither an object nor an array |
| Json.Get | src/build/usecase/BuildConfigUseCase.ts:88 | a property read yields a value exactly when `in` holds, and on an object it is the member's value |
| Json.Truthy | src/build/usecase/BuildConfigUseCase.ts:43 | a value is falsy exactly when it is null, false, 0 or "" |
| Json.ToText | src/build/usecase/BuildConfigUseCase.ts:96 | `String(v)`: a string is itself, a number its decimal text read back as the number, an empty array "", a one-element array its element's text |
| Json.Stringify | src/build/usecase/BuildConfigUseCase.ts:68 | a non-empty object serialises to text opening with "{\n", a non-empty array to text opening with "[\n" |
| ConfigAssembly.ApplyLayers | src/build/usecase/BuildConfigUseCase.ts:39-45 | `in` throws exactly when config.json is neither an object nor an array; otherwise every key of the config is kept and keys stay unique |
| ConfigAssembly.FirstReadOnly | src/build/usecase/BuildConfigUseCase.ts:51-54 | a key is found exactly when some entry is `length` or an index of the string, and it is one of the entries' keys |
| ConfigAssembly.LastAt | src/build/usecase/BuildConfigUseCase.ts:51-54 | an index gets a value from the source exactly when some source key names that index, and the value is that of the last member naming it |
| ConfigAssembly.AssignIndices | src/build/usecase/BuildConfigUseCase.ts:51-63 | `Object.assign` onto an array: each element holds the last source value for its index, or keeps its old value, or is a hole (null); every index the source names is inside the array afterwards |
| ConfigAssembly.AssignIndicesLength | src/build/usecase/BuildConfigUseCase.ts:51-63 | the array grows only up to the largest index the source names: it keeps its length or its last element was written by the source |
| ConfigAssembly.MergeInto | src/build/usecase/BuildConfigUseCase.ts:51-63 | `Object.assign(config[key], source)` throws exactly when the target is missing or null, or is a string whose read-only `length` or a character index the source sets; an object target is assigned, an array target gets the source's index keys, and any other target leaves the config unchanged |
| ConfigAssembly.Assemble | src/build/usecase/BuildConfigUseCase.ts:25-64 | a malformed config.json fails with its SyntaxError, a malformed stage.json or routing.json fails; with no document the result is `{platform, stage: {}, routing: {}}`; a success is an object |
| ConfigAssembly.Merge | src/build/usecase/BuildConfigUseCase.ts:25-64 | the step-by-step merge yields exactly `Assemble` |
| ConfigAssembly.AssembledShape | src/build/usecase/BuildConfigUseCase.ts:25-29 | every successful merge has unique keys and keeps platform, stage and routing as its first three |
| ConfigAssembly.AssignShaped | src/build/usecase/BuildConfigUseCase.ts:40-44 | a layer assignment keeps the keys unique and platform, stage and routing first |
| ConfigAssembly.MergeIntoShaped | src/build/usecase/BuildConfigUseCase.ts:51-63 | a sub-map merge keeps that shape |
| ConfigAssembly.AllLayerWins | src/build/usecase/BuildConfigUseCase.ts:39-45 | with both layers present, a key takes the `all` value, else the environment value, else the initial value: a shallow merge with `all` winning |
| ConfigAssembly.LayerPrecedence | src/build/usecase/BuildConfigUseCase.ts:39-45 | for all four combinations of layers: the environment layer is on exactly when config.json has that key, `all` exactly when it is truthy, and a key takes the `all` value, else the environment value, else the initial value |
| ConfigAssembly.LayersOnlyWhenPresent | src/build/usecase/BuildConfigUseCase.ts:39-45 | without the environment's key and with `all` missing or falsy, config.json changes nothing |
| ConfigAssembly.MergeIntoString | src/build/usecase/BuildConfigUseCase.ts:51-63 | onto a string target a successful merge leaves the config unchanged; a non-empty string refuses any non-empty string or array source; an object source with `length` always throws |
| ConfigAssembly.StringStageRefusesIndex | src/build/usecase/BuildConfigUseCase.ts:39-54 | config.json `{"local": {"stage": "ab"}}` with stage.json `{"0": "x"}` makes the pass fail |
| ConfigAssembly.MergeDocumentObject | src/build/usecase/BuildConfigUseCase.ts:51-54 | merging an object document into an object sub-map leaves that sub-map `Object.assign`ed with it |
| ConfigAssembly.MergeDocumentOthers | src/build/usecase/BuildConfigUseCase.ts:51-54 | a sub-map merge changes no other top-level key |
| ConfigAssembly.SubMapMerged | src/build/usecase/BuildConfigUseCase.ts:49-64 | stage.json and routing.json are merged key by key into whatever map the layers left under stage and routing |
| ConfigAssembly.OtherKeysFromLayers | src/build/usecase/BuildConfigUseCase.ts:49-64 | every other top-level key keeps the value the layers gave it |
| Placeholders.CloseAt | src/build/usecase/BuildConfigUseCase.ts:66 | a lazy match ends at a "}}" with no line terminator before it and no "}}" earlier; none is found exactly when every later "}}" has a line terminator before it |
| Placeholders.Tokens | src/build/usecase/BuildConfigUseCase.ts:66-70 | every match opens with "{{", closes with "}}", holds no line terminator, and occurs in the text |
| Placeholders.TokensFrom | src/build/usecase/BuildConfigUseCase.ts:66-69 | every match opens with "{{", closes with "}}" and holds no line terminator |
| Placeholders.MatchIsToken | src/build/usecase/BuildConfigUseCase.ts:66 | the run from a "{{" to the "}}" that closes it is a token taken from the text |
| Placeholders.TokensFromMatch | src/build/usecase/BuildConfigUseCase.ts:66-69 | at a "{{" that closes on its line, the global match takes the text up to the first "}}" and resumes after it |
| Placeholders.TokensFromFinds | src/build/usecase/BuildConfigUseCase.ts:66-70 | a "{{" that closes on its line anywhere ahead means the match list is not empty |
| Placeholders.TokensExample | src/build/usecase/BuildConfigUseCase.ts:66-70 | the serialised string `"{{ stage.id }}"` holds exactly the one match `{{ stage.id }}` |
| Placeholders.NoTokens | src/build/usecase/BuildConfigUseCase.ts:69-70 | text without "{{" has no match |
| Placeholders.RemoveBraces | src/build/usecase/BuildConfigUseCase.ts:76 | the result has no brace, is no longer than the token, and is the token itself when it holds no brace |
| Placeholders.RemoveSpace | src/build/usecase/BuildConfigUseCase.ts:77 | the result has no whitespace character, is no longer than its input, and is the input itself when it holds none |
| Placeholders.RemoveBracesConcat | src/build/usecase/BuildConfigUseCase.ts:76 | removing braces works piece by piece: it distributes over concatenation |
| Placeholders.RemoveSpaceConcat | src/build/usecase/BuildConfigUseCase.ts:77 | removing white space distributes over concatenation |
| Placeholders.PathTextOfSpacedToken | src/build/usecase/BuildConfigUseCase.ts:75-77 | a path free of braces and white space comes out of `{{ path }}` unchanged |
| Placeholders.NamesOfSpacedToken | src/build/usecase/BuildConfigUseCase.ts:75-78 | the names of `{{ path }}` are the path split on "." |
| Placeholders.NamesExample | src/build/usecase/BuildConfigUseCase.ts:75-78 | `{{ stage.id }}` yields the names "stage" and "id" |
| Placeholders.Names | src/build/usecase/BuildConfigUseCase.ts:75-82 | the name list is never empty, so the `!names.length` guard is dead, and joined with "." it gives back the stripped path |
| Placeholders.ResolvePath | src/build/usecase/BuildConfigUseCase.ts:84-90 | the loop of `in` tests and descents yields exactly the reference walk `Resolve` |
| Placeholders.StaysMoved | src/build/usecase/BuildConfigUseCase.ts:84-92 | once the walk has left the root it never returns to it |
| Placeholders.UnresolvedIff | src/build/usecase/BuildConfigUseCase.ts:92-94 | the walk stays on the root exactly when no name is a top-level key, in both directions |
| Placeholders.ResolvesNestedKey | src/build/usecase/BuildConfigUseCase.ts:84-90 | `stage.id` over `{platform: "web", stage: {id: "42"}}` reaches "42" |
| Placeholders.MissingLeafStopsAtParent | src/build/usecase/BuildConfigUseCase.ts:84-96 | `stage.missing` ends on the stage object, whose text is "[object Object]" |
| Placeholders.PathThroughPrimitiveThrows | src/build/usecase/BuildConfigUseCase.ts:87 | a name after a string value makes `in` throw |
| Placeholders.Substitute | src/build/usecase/BuildConfigUseCase.ts:71-97 | the replacement pass throws exactly when the path walk of some match throws |
| Placeholders.ResolvePlaceholders | src/build/usecase/BuildConfigUseCase.ts:66-98 | the loop over the matches yields exactly `Render` of the merged config, a TypeError included |
| Placeholders.RenderWithoutPlaceholders | src/build/usecase/BuildConfigUseCase.ts:68-70 | text without "{{" is the serialised config unchanged |
| Placeholders.UnresolvedKeepsText | src/build/usecase/BuildConfigUseCase.ts:92-94 | tokens that never leave the root leave the text as it was |
| Placeholders.ReplaceKeepsOpening | src/build/usecase/BuildConfigUseCase.ts:96 | replacing a token never touches an opening "{\n" |
| Placeholders.SubstituteKeepsOpening | src/build/usecase/BuildConfigUseCase.ts:71-97 | the replacement pass keeps the opening "{\n" |
| Placeholders.RenderedOpening | src/build/usecase/BuildConfigUseCase.ts:68-98 | a non-empty config renders to text opening with "{\n" |
| ConfigUseCase.OrDefault | src/build/usecase/BuildConfigUseCase.ts:22-23 | an unset or empty variable gives the fallback ("local", "web"), any other value is kept |
| ConfigUseCase.ConfigTextOpening | src/build/usecase/BuildConfigUseCase.ts:68-100 | a successful config text is never empty, so it always differs from the initial cache |
| ConfigUseCase.ConfigUseCase.constructor | src/build/usecase/BuildConfigUseCase.ts:8 | the cache starts as "" |
| ConfigUseCase.ConfigUseCase.Execute | src/build/usecase/BuildConfigUseCase.ts:19-110 | fails exactly when the text fails, then touching neither cache nor disk; otherwise the cache holds the text and Config.ts or Config.js is written with `const config = …;\nexport { config };` exactly when the text changed |
| ConfigUseCase.RunTwice | src/build/usecase/BuildConfigUseCase.ts:100-109 | two passes on unchanged input write once, the first |
| Registry.FirstClassLine | src/build/usecase/BuildPackageUseCase.ts:45-52 | the chosen line contains "export class " and no earlier line does |
| Registry.DeclaredName | src/build/usecase/BuildPackageUseCase.ts:54 | field 2 of a line holding "export class " always exists and contains no space |
| Registry.SplitDeclarationHead | src/build/usecase/BuildPackageUseCase.ts:54 | a line opening with "export class " splits on spaces into "export", "class" and the rest's fields |
| Registry.DeclaredNameOfDeclaration | src/build/usecase/BuildPackageUseCase.ts:54 | `export class N …` yields N as field 2 |
| Registry.IndentedDeclarationName | src/build/usecase/BuildPackageUseCase.ts:50-54 | a line indented by two spaces before "export class " still passes the marker test but yields the name "export" |
| Registry.IndentedSplit | src/build/usecase/BuildPackageUseCase.ts:54 | two leading spaces put two empty fields before "export" |
| Registry.ModulePathOf | src/build/usecase/BuildPackageUseCase.ts:58 | the import path of `src/<p>.<ext>` is p |
| Registry.ModelSegmentOf | src/build/usecase/BuildPackageUseCase.ts:64-65 | the model segment is the absolute path's text after "src/model/" |
| Registry.ModelNamesReplaceSlashes | src/build/usecase/BuildPackageUseCase.ts:64-74 | the key is the segment with "/" turned into "." and the alias with "/" turned into "_", each less its last three characters |
| Registry.Row | src/build/usecase/BuildPackageUseCase.ts:59 | every row ends with "]," and the line separator |
| Registry.Classify | src/build/usecase/BuildPackageUseCase.ts:55-84 | an entry exists exactly for a relative path containing "src/view/" or "src/model/"; a view, tested first, is registered as `["N", N]`, otherwise a model under its key and alias |
| Registry.ScanFile | src/build/usecase/BuildPackageUseCase.ts:34-88 | a file fails exactly when its path contains the marker and it cannot be read, with that file's read error; an entry needs the marker, a class line, and a view or model path, and its row is closed |
| Registry.Scan | src/build/usecase/BuildPackageUseCase.ts:32-89 | at most one entry per file, every row closed |
| Registry.ScanUpTo | src/build/usecase/BuildPackageUseCase.ts:32-89 | after the first n files at most n entries, every row closed |
| Registry.ScanPrefixErr | src/build/usecase/BuildPackageUseCase.ts:41 | a failure among the first m files is the outcome of every longer scan: the first unreadable candidate aborts the whole pass |
| Registry.ScanStepErr | src/build/usecase/BuildPackageUseCase.ts:41 | a read failure at a file the scan reaches is the error of the whole generation |
| Registry.ScanSkipsUnmarked | src/build/usecase/BuildPackageUseCase.ts:37 | files whose path lacks the extension substring contribute nothing |
| Registry.RegistryLiteral | src/build/usecase/BuildPackageUseCase.ts:91-92 | the literal ends with the separator and "]", what precedes them is a prefix of the opening and the rows, and it is two characters shorter than them plus the closing |
| Registry.EmptyRegistry | src/build/usecase/BuildPackageUseCase.ts:31 | with no row the literal is "\n]" under "\n" (the bracket is cut) and "[\r\n]" under "\r\n" |
| Registry.RowsClosed | src/build/usecase/BuildPackageUseCase.ts:59-77 | the accumulated rows end as their last row does, with "]," and the separator |
| Registry.CutClosed | src/build/usecase/BuildPackageUseCase.ts:91-92 | on closed rows the cut removes the last row's ",\n" under "\n" but only "\r\n" under "\r\n", leaving the comma |
| Registry.GenerateScanned | src/build/usecase/BuildPackageUseCase.ts:32-92 | once the scan succeeds, the pass yields its import lines and the literal cut from its rows |
| Registry.GeneratedLiteral | src/build/usecase/BuildPackageUseCase.ts:59-92 | for a successful scan with rows, the written literal is the opening and the rows less their last two characters, then the separator and "]" |
| Registry.NothingGenerated | src/build/usecase/BuildPackageUseCase.ts:30-92 | with no entry, no import is emitted and the literal is "\n]" |
| Registry.FirstClassLineAt | src/build/usecase/BuildPackageUseCase.ts:45-52 | the line at which the loop stops, the first holding "export class ", is the one `FirstClassLine` names, and none when no line holds it |
| Registry.ScanNext | src/build/usecase/BuildPackageUseCase.ts:34-88 | one turn of the file loop either fails the generation with that file's read error or extends the scan, the imports and the pending rows by exactly that file's entry |
| Registry.FirstEntry | src/build/usecase/BuildPackageUseCase.ts:45-86 | the line loop yields the classification of the first class line and nothing after it, none without one |
| Registry.ScanOne | src/build/usecase/BuildPackageUseCase.ts:34-88 | one file's pass equals `ScanFile`: skipped without the marker, a read failure, or its first class line |
| Registry.ScanSources | src/build/usecase/BuildPackageUseCase.ts:30-92 | the accumulating loop yields exactly `Generate`: imports and rows in walk order, then the cut literal |
| PackageUseCase.NoCandidates | src/build/usecase/BuildPackageUseCase.ts:31-98 | a tree without a candidate gives the module `\nconst packages… = \n];\nexport { packages };` |
| PackageUseCase.PackageUseCase.constructor | src/build/usecase/BuildPackageUseCase.ts:8 | the cache starts as "" |
| PackageUseCase.PackageUseCase.Execute | src/build/usecase/BuildPackageUseCase.ts:25-104 | fails exactly when a candidate cannot be read, touching neither cache nor disk; otherwise the cache holds the module and Packages.ts or Packages.js is written exactly when it changed |
| PackageUseCase.RunTwice | src/build/usecase/BuildPackageUseCase.ts:100-103 | two passes on an unchanged tree write once, the first |
| BuildPackageTs.GetFileType | src/BuildPackage.ts:35-58 | the same kind as the stat service, and the error is logged exactly when the stat fails |
| BuildPackageTs.GetFilePathList | src/BuildPackage.ts:68-93 | the same walk as the use case's, with the logged paths in logging order |
| BuildPackageTs.PackageBuilder.constructor | src/BuildPackage.ts:7-19 | the extension is "ts" exactly when src/index.ts exists; the cache starts as "" |
| BuildPackageTs.PackageBuilder.BuildPackage | src/BuildPackage.ts:102-181 | the same module text and write-on-change cache as the use case for the chosen extension, plus the logged stat failures |
| LegacyIndex.AgreesWithUseCase | src/index.js:18-79 | without placeholders the legacy config text is the use case's text for the same platform and environment: same merge, no placeholder pass |
| LegacyIndex.GetListFiles | src/index.js:87-142 | the walk with the inline stat helper is exactly `Walk` |
| LegacyIndex.SameRegistryAsUseCase | src/index.js:155-222 | with "\n" the legacy generator fails exactly when the TypeScript use case fails and otherwise wraps the same imports and literal, differing only in the declaration |
| LegacyIndex.Loader.constructor | src/index.js:10-148 | both caches start as `null` |
| LegacyIndex.Loader.BuildConfig | src/index.js:18-79 | fails exactly on a failed merge; otherwise the cache holds the JSON text and Config.ts gets the `ConfigImpl` module exactly when the text changed |
| LegacyIndex.Loader.BuildPackage | src/index.js:155-228 | fails exactly when a ".ts" candidate cannot be read; otherwise the cache holds the `any[]` module and Packages.ts is written exactly when it changed |
| LegacyIndex.FirstBuildWrites | src/index.js:10-78 | from a `null` cache two identical passes write Config.ts once |

## Left out

- Real I/O is not modelled. `process.cwd()`, `process.env`, `os.EOL`, and
  the existence of `src/index.ts` are parameters. `fs.existsSync` and
  `JSON.parse` become the absent, malformed or present documents.
  `readdirSync`, `statSync` and `readFileSync` become the `FsNode` tree.
  `writeFileSync` becomes the `Disk` write log.
- `console.error` in `src/BuildPackage.ts` is modelled as the list of paths
  whose stat failed. The error object itself is not modelled.
- A failing `readdirSync` is not modelled. This covers a missing `src`
  directory and an unreadable directory. Every `Dir` node is listable.
- The `autoLoader` plugin wiring in `src/index.js` and `src/index.ts` is not
  part of this model: the `buildStart` hook and the `configureServer`
  watcher. The same goes for `vite.config.ts`. They are host API, not
  logic.
- JSON numbers are integers only. Floating point and its text form are left
  out. `String(v)` of a number is its decimal text.
- JavaScript object key order puts integer-like keys first. This is not
  modelled: members keep insertion order. `__proto__` keys and the
  prototype chain seen by `in` are also left out.
- AssignIndices and MergeInto model an array under `stage` or `routing` as
  a plain list of elements, and ignore every source key that is not an
  index up to 2^32 - 2. JavaScript handles three kinds of such keys
  differently.
  - A `"length"` key sets the array's length. A smaller length truncates the
    array (`{"length": 0}` empties it), and a larger one extends it with
    holes. A value that is not a valid length (`{"length": -1}`,
    `{"length": "x"}`) throws a RangeError, which aborts the pass. The model
    leaves the array as it was and goes on.
  - Any other non-index key, such as `"width"`, becomes a property of the
    array that `in` and `[]` in the placeholder walk can see.
  - An element that was never written is a hole, for which `in` is false.
    The model stores null there, so the walk steps onto it.
  A pass over such a document can therefore fail where the model succeeds,
  and a placeholder through such a key or hole can render differently or
  fail in the model where the code goes on.
- `Object.assign` onto a number or boolean left under `stage` or
  `routing` is modelled as a no-op, since the wrapper is dropped.
- `$` replacement patterns in `String.prototype.replace` are not
  interpreted. The replacement text is inserted literally.
- Strings are sequences of code points rather than UTF-16 code units.
  `slice(0, -3)` and JSON `\u` escapes of astral characters can differ
  from JavaScript on such text.
- `fs.statSync` follows symbolic links, so the tree holds each link's
  target in its place. A link cycle, which would make the walk recurse
  until the stack overflows, cannot be expressed and is not modelled.
- A failing `readFileSync` of a config document is not modelled. An
  existing config document is assumed readable; only parse failure is an
  error.
- FilePathListUseCase.GetFileType: the stat service's try/catch is modelled
  as the `Unstatable` node. The exception object is not modelled.
