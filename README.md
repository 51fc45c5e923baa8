# SmaregiMCP core, modelled in Dafny

SmaregiMCP is an MCP server for the Smaregi POS API. This project models the
parts of it that compute something, and proves properties of the model:

- **OpenAPI `$ref` scripts** (Python):
  - `convert_refs_to_relative.py` replaces `#/components/schemas/<Name>` anchors with locations read from the schema index;
  - `convert_refs.py` puts `./` before bare `$ref` targets in files that look like OpenAPI;
  - `remove_dotslash_prefixes.py` strips a `./` that precedes `../`;
  - `convert_inline_refs.py` maps fixed anchor names to category files, then strips one `./`.

  Each Python `re.sub` is modelled as a left-to-right scanner (`RefScan.Sub`) over a matcher that reads the regex at one position. Lemmas tie every matcher to a position-level reading of its regex. The file system is a store that maps paths to text and records a trace of writes and deletions (`Disk`).
- **Tool-name generators** (TypeScript):
  - `src/tools/api-tools-generator.ts`;
  - `src/conversion/tool-generator.js`;
  - `src/tools/generators/zod-api-tool-generator.ts`.

  They cover how an OpenAPI path and method become a tool name, how parameters are typed, and how tool lists are built.
- **`TokenStorage`** (`src/auth/token-storage.ts`): an in-memory store made of three maps: token information by access token, authorisation sessions by their `state`, and access tokens by contract id. It also handles expiry and clean-up. It is modelled as a class with `map` fields, together with the iteration order of the token keys and of the contract ids, which a JavaScript `Map` keeps as insertion order.
- **`scripts/add-description-to-zod.ts`**: three text passes over a generated zod schema file, together with its description tables and string escaping.
  - Pass 1: `.describe()` on schema definitions.
  - Pass 2: `.describe()` on property lines.
  - Pass 3: JSDoc blocks above API functions.
- **`src/tools/transaction-data-tool.ts`**: which request errors are retried, the three-attempt retry loop, how pages are followed, and how errors are classified.

Every module is one Dafny file. `Text`, `RefScan`, `RefSyntax`, `Disk` and `PosixPath` are shared by the Python scripts and the TypeScript models. `ToolNaming` is shared by `src/tools/api-tools-generator.ts` and `src/conversion/tool-generator.js`. Each other module models one source file.

## Model

| member | source | states |
|---|---|---|
| RefScan.SubHit | convert_refs.py:36 | where the pattern matches, `re.sub` emits the replacement and resumes right after the match |
| RefScan.SubMiss | convert_refs.py:36 | where it does not match, one character is copied and the scan moves on by one |
| RefScan.SubPlainPrefix | convert_refs_to_relative.py:82 | text without a `$` in front of the scanned text is copied verbatim, since every pattern opens with `$ref:` |
| RefScan.SubPlainText | convert_refs_to_relative.py:82 | text without a `$` comes back unchanged |
| RefScan.NoHitWithoutDollar | convert_refs.py:32 | no pattern matches at a position that does not hold `$` |
| RefScan.SubKeepsDollarHead | convert_refs.py:36 | a scanned text that opens with `$` gives a text that opens with `$` |
| RefScan.SubOfChunk | convert_refs.py:36 | a `$` followed by text without `$` is rewritten by at most one match, at its start |
| RefScan.SubOfChunkNoHit | convert_refs.py:36 | such a chunk without a match is left as it was |
| RefScan.SubChunkSplit | convert_refs.py:36 | a pattern decided within its chunk rewrites the text chunk by chunk |
| RefScan.ChunkwiseCompose | convert_inline_refs.py:25-160 | two successive substitutions equal a third one when they do on every chunk |
| RefScan.ChunkwiseIdempotent | convert_refs_to_relative.py:82 | a substitution that is idempotent on every chunk is idempotent on every text |
| RefScan.ChunkSettles | convert_refs_to_relative.py:82 | a chunk is rewritten at most once when its match puts back what it matched or leaves a chunk the pattern does not match |
| RefScan.SubEchoes | convert_refs_to_relative.py:76-80 | a pattern whose every match puts back the text it matched leaves the text unchanged |
| RefScan.SubAvoids | convert_refs_to_relative.py:82 | a character absent from the text and from every replacement is absent from the result |
| RefSyntax.Run | convert_refs.py:32 | a greedy `\s*` takes the longest run of the class at the start of the text |
| RefSyntax.RunIs | convert_refs.py:32 | that run is the only one with those two properties |
| RefSyntax.RefOpen | convert_refs.py:32 | the opening `$ref:<blanks><quote>` starts with `$ref:`, has only blanks between the colon and the quote, and ends with the quote |
| RefSyntax.RefOpenIs | convert_refs.py:32 | the opening is read off its characters |
| RefSyntax.RefOpenPrefix | convert_refs.py:32 | the opening depends only on the text up to its quote |
| RefSyntax.RefOpenLocal | remove_dotslash_prefixes.py:31 | the opening is decided within its chunk |
| Disk.UniversalNewlinesHasNoCR | convert_refs_to_relative.py:57-58 | text read in text mode contains no `\r` |
| Disk.UniversalNewlinesPlain | convert_refs_to_relative.py:57-58 | text without `\r` reads back unchanged |
| Disk.CrLfReadsAsLf | convert_refs_to_relative.py:57-58 | a stored `\r\n` reads as `\n`, so a Windows file does not read back as stored |
| Disk.Read | convert_refs_to_relative.py:56-61 | a read succeeds exactly when the file exists |
| Disk.BackupPathEnds | convert_refs_to_relative.py:64 | the backup path is `<path>.bak` and differs from the path |
| Disk.Update | convert_refs_to_relative.py:56-93 | `convert_file`'s file handling. A missing file changes nothing and returns false. Otherwise the text is read and the backup of it is the first write. The file is rewritten, and true returned, exactly when the new text differs. When nothing changed, the backup is gone again and the file is not written. No other file changes, and the trace only grows |
| Disk.UpdateAllStep | convert_refs_to_relative.py:103-105 | one more file in the loop is one more `Update` on the store so far |
| Disk.UpdateEach | convert_refs_to_relative.py:102-107 | the counting loop over a file list equals the fold `UpdateAll` |
| Disk.UpdateAllBound | convert_refs_to_relative.py:102-107 | the count never exceeds the number of files listed |
| Disk.ChangedCount | convert_refs_to_relative.py:102-107 | the number of listed files whose text the rewrite changes, at most the listing's length |
| Disk.UpdateAllFrame | convert_refs_to_relative.py:99-107 | a file that is neither listed nor a listed file's backup is untouched |
| Disk.UpdateAllInPlaceFrame | convert_inline_refs.py:163-174 | rewriting in place creates and deletes nothing, and unlisted files are untouched |
| Disk.UpdateAllCount | convert_refs_to_relative.py:102-107 | on a listing of distinct non-backup paths, the count is the number of files whose text changes |
| RelativeRefs.LastQuote | convert_refs_to_relative.py:37 | the last quote in a range, or none there |
| RelativeRefs.LineEnd | convert_refs_to_relative.py:23-25 | the end of the current line: no newline before it, a newline or the text's end at it |
| RelativeRefs.IndexTarget | convert_refs_to_relative.py:37 | a matched target starts with `./`, has at least one more character, and stays on one line |
| RelativeRefs.IndexTargetGreedy | convert_refs_to_relative.py:37 | the target is the longest one the greedy `.+` admits, ending at the line's last quote |
| RelativeRefs.Location | convert_refs_to_relative.py:40-41 | the location is `../../schemas` followed by the target minus its leading `.` |
| RelativeRefs.ParseEntry | convert_refs_to_relative.py:31-42 | a recorded location is under `../../schemas/` |
| RelativeRefs.ParseEntryFound | convert_refs_to_relative.py:31-42 | an entry is recorded exactly when the line has a `:` and the text after the first one is a `$ref` to `./…` |
| RelativeRefs.ParseIndexLine | convert_refs_to_relative.py:27-28 | blank and `#` lines record nothing; recorded locations lie under `../../schemas/` |
| RelativeRefs.Entries | convert_refs_to_relative.py:25 | one parsed entry per index line, in order |
| RelativeRefs.TableFromRecorded | convert_refs_to_relative.py:42 | every name in the table comes from an entry with that location |
| RelativeRefs.IndexTableLocations | convert_refs_to_relative.py:41-42 | every location in the table lies under `../../schemas/`, whichever file uses it |
| RelativeRefs.TableFromLastWins | convert_refs_to_relative.py:42 | the last entry for a name decides its location |
| RelativeRefs.IndexTableLastWins | convert_refs_to_relative.py:25-42 | a later index line for the same name overwrites an earlier one |
| RelativeRefs.TableFromIgnores | convert_refs_to_relative.py:32-38 | entries that record nothing leave the table unchanged |
| RelativeRefs.IndexTableIgnores | convert_refs_to_relative.py:27-38 | blank, comment and non-reference lines add nothing to the table |
| RelativeRefs.LoadSchemaMap | convert_refs_to_relative.py:14-48 | succeeds exactly when the index exists, and then holds the table of its lines; on failure the table is empty |
| RelativeRefs.NameHit | convert_refs_to_relative.py:69-80 | a hit spans a prefix of the text |
| RelativeRefs.AnchorHit | convert_refs_to_relative.py:69-80 | a hit spans a prefix of the text |
| RelativeRefs.AnchorHitExact | convert_refs_to_relative.py:69-80 | where the regex matches, the scanner consumes through the closing quote and yields `replace_ref`'s result |
| RelativeRefs.AnchorHitSound | convert_refs_to_relative.py:69-80 | where the scanner hits, the regex matches and the result is `replace_ref`'s |
| RelativeRefs.MissKeepsMatch | convert_refs_to_relative.py:78-80 | a name missing from the table leaves the match exactly as it was |
| RelativeRefs.AnchorOpenLocal | convert_refs_to_relative.py:69 | whether the anchor follows the opening does not depend on text after the chunk |
| RelativeRefs.ReplacementPrefix | convert_refs_to_relative.py:71-80 | `replace_ref` sees only the text up to the closing quote |
| RelativeRefs.NameHitSame | convert_refs_to_relative.py:69-80 | texts that agree on the name, its quote and what comes before them give the same hit |
| RelativeRefs.NameHitLocal | convert_refs_to_relative.py:69-80 | the name match does not look past the next `$` |
| RelativeRefs.AnchorHitLocal | convert_refs_to_relative.py:69-80 | the whole match does not look past the next `$` |
| RelativeRefs.AnchorsLocal | convert_refs_to_relative.py:69-82 | the matcher is local, so the substitution works on `$`-headed chunks one by one |
| RelativeRefs.DollarFreeSlice | convert_refs_to_relative.py:69 | a slice of `$`-free text is `$`-free |
| RelativeRefs.ChunkSplice | convert_refs_to_relative.py:77 | splicing `$`-free text into a chunk keeps it a chunk |
| RelativeRefs.ReplacedAnchorGone | convert_refs_to_relative.py:77 | a replaced anchor, with a location that is neither `$`-bearing nor an anchor, does not match again |
| RelativeRefs.ChunkConvertedOnce | convert_refs_to_relative.py:82 | a converted chunk is still a chunk, and converting it again changes nothing |
| RelativeRefs.ConvertIdempotent | convert_refs_to_relative.py:82 | a second run over converted text changes nothing, when no location starts another match |
| RelativeRefs.ConvertEmptyTable | convert_refs_to_relative.py:76-82 | with an empty table every anchor is kept and the text is unchanged |
| RelativeRefs.ConvertAvoids | convert_refs_to_relative.py:76-82 | a character absent from the text and from every location is absent from the result |
| RelativeRefs.ConvertFileTwice | convert_refs_to_relative.py:56-93 | a second `convert_file` on a file the first run rewrote leaves its text as it is and deletes the new backup |
| RelativeRefs.ProcessDirectory | convert_refs_to_relative.py:95-107 | the loop over the listed files is the fold of `convert_file`, and returns the count rewritten |
| RelativeRefs.RunScript | convert_refs_to_relative.py:109-119 | without an index nothing is touched and the count is 0; otherwise the files are converted with the loaded table |
| BareRefs.NotRelative | convert_refs.py:32 | a target starting with neither `.` nor `#` is not excluded by the lookahead |
| BareRefs.TargetHit | convert_refs.py:32 | a hit spans a prefix of the text |
| BareRefs.BareHit | convert_refs.py:32-33 | a hit spans a prefix of the text |
| BareRefs.BareHitExact | convert_refs.py:32-36 | where the regex matches, `./` goes right after the opening quote and nothing else moves |
| BareRefs.BareHitSound | convert_refs.py:32-36 | where the scanner hits, the regex matches with that replacement |
| BareRefs.RelativeKept | convert_refs.py:32 | targets starting `./`, `../` or `#/` are left alone |
| BareRefs.UnclosedKept | convert_refs.py:32 | a `$ref` whose target has no closing quote on its line is left alone |
| BareRefs.PrefixedNotAgain | convert_refs.py:32-33 | a rewritten reference starts with `./`, so it is not rewritten again |
| BareRefs.EmptyTargetPrefixed | convert_refs.py:32-36 | `$ref: ''` becomes `$ref: './'` |
| BareRefs.BareHitOn | convert_refs.py:32-33 | `$ref: '<x>'` for a bare one-line target becomes `$ref: './<x>'` |
| BareRefs.NestedSplit | convert_refs.py:32 | how the nested example is bracketed around its inner opening |
| BareRefs.DropDollar | convert_refs.py:32 | how the rewritten text is taken apart after its `$` |
| BareRefs.FirstRunNested | convert_refs.py:32-36 | the lazy `.*?` target runs on to an inner `$ref`'s quote, so the first run prefixes only the outer target |
| BareRefs.PrefixedNoHit | convert_refs.py:32 | a `$ref` already written `./` does not match |
| BareRefs.PrefixedSkipped | convert_refs.py:36 | a `./` reference is copied as it is, up to the next `$` |
| BareRefs.LonePrefixed | convert_refs.py:36 | a lone bare `$ref` is prefixed |
| BareRefs.SecondRunNested | convert_refs.py:36 | the second run passes the prefixed outer `$ref` and prefixes the inner one |
| BareRefs.SecondRunCanChange | convert_refs.py:36-48 | the rewrite is not idempotent: a second run can change the text again |
| BareRefs.Head | convert_refs.py:65 | `read(1000)` gives the text's first min(1000, length) characters |
| BareRefs.OpenApiHeaderRecognised | convert_refs.py:60-67 | a file that opens with `openapi:` is selected |
| BareRefs.OnlyHeadMatters | convert_refs.py:65-66 | only the first 1000 characters decide |
| BareRefs.OpenApiFiles | convert_refs.py:57-71 | the selection is no longer than the listing |
| BareRefs.OpenApiFilesMembers | convert_refs.py:57-71 | a file is selected exactly when it is listed, readable and has an OpenAPI key in its head |
| BareRefs.OpenApiFilesListing | convert_refs.py:62-67 | the selection keeps the listing's order and repeats nothing |
| BareRefs.FindOpenApiFiles | convert_refs.py:57-71 | the filter loop computes the selection |
| BareRefs.RunScript | convert_refs.py:73-96 | selects from the `.yaml` then the `.yml` listing and applies the rewrite to each selected file with a backup; the count is at most the number selected |
| BareRefs.NotOpenApiUntouched | convert_refs.py:87-94 | a listed file that is not selected is left as it was |
| BareRefs.RunScriptCount | convert_refs.py:91-94 | the count is the number of selected files the pattern changes |
| DotSlash.YamlEnd | remove_dotslash_prefixes.py:31 | the lazy `.*?\.yaml['"]` stops at the first `.yaml` that a quote follows, without crossing a newline; none when every such `.yaml` lies past a newline |
| DotSlash.DotHit | remove_dotslash_prefixes.py:31-32 | a hit spans a prefix of the text |
| DotSlash.DotHitExact | remove_dotslash_prefixes.py:31-35 | where the regex matches, the `./` after the opening quote is dropped and nothing else moves |
| DotSlash.DotHitSound | remove_dotslash_prefixes.py:31-35 | where the scanner hits, the regex matches with that replacement |
| DotSlash.NoParentKept | remove_dotslash_prefixes.py:31 | a target not starting `./../` is left alone |
| DotSlash.DotNotAgain | remove_dotslash_prefixes.py:31-32 | a rewritten reference starts with `../`, so it is not rewritten again |
| DotSlash.RewrittenOpen | remove_dotslash_prefixes.py:31-32 | the rewritten reference keeps its opening and no longer starts `./../` |
| DotSlash.ScanClear | remove_dotslash_prefixes.py:31 | in `$ref: './../<x>.yaml'`, the lazy run reaches the final `.yaml'` |
| DotSlash.OpenDotParent | remove_dotslash_prefixes.py:31 | `$ref: './../…` opens a match at the quote |
| DotSlash.DotHitOn | remove_dotslash_prefixes.py:31-35 | `$ref: './../<x>.yaml'` becomes `$ref: '../<x>.yaml'` |
| DotSlash.NestedTarget | remove_dotslash_prefixes.py:31 | the nested example's outer target stays on one line and closes no `.yaml` early |
| DotSlash.FirstRunNested | remove_dotslash_prefixes.py:31-35 | the first run rewrites only the outer `$ref` of two on one line |
| DotSlash.NestedSplitDot | remove_dotslash_prefixes.py:31 | how the nested example is bracketed around its inner opening |
| DotSlash.ParentNoHit | remove_dotslash_prefixes.py:31 | a `$ref` already written `../` does not match |
| DotSlash.DropDollarParent | remove_dotslash_prefixes.py:31 | how a `../` reference is taken apart after its `$` |
| DotSlash.ParentSkipped | remove_dotslash_prefixes.py:35 | a `../` reference is copied as it is, up to the next `$` |
| DotSlash.LoneStripped | remove_dotslash_prefixes.py:35 | a lone `$ref: './../<y>.yaml'` loses its `./` |
| DotSlash.SecondRunNested | remove_dotslash_prefixes.py:35 | the second run passes the rewritten outer `$ref` and rewrites the inner one |
| DotSlash.SecondRunCanChange | remove_dotslash_prefixes.py:35-47 | the rewrite is not idempotent: a second run can change the text again |
| DotSlash.RunScript | remove_dotslash_prefixes.py:49-84 | `paths`, then `schemas`, then the root `openapi.yaml`, each file with a backup; the three counts, their sum as the total, and each within its listing's size |
| InlineRefs.InlineHit | convert_inline_refs.py:25-157 | a hit spans a prefix of the text |
| InlineRefs.InlineHitExact | convert_inline_refs.py:25-29 | where `(\$ref: *["'])#/components/schemas/<Name>(["'])` matches, the anchor and name become the target between the original quotes |
| InlineRefs.InlineHitSound | convert_inline_refs.py:25-29 | where the scanner hits, that regex matches with that replacement |
| InlineRefs.AnchorNameFree | convert_inline_refs.py:25-157 | the anchor and a rule's name hold no quote and no `$` |
| InlineRefs.InlineHitFacts | convert_inline_refs.py:25-29 | a match is the opening, the anchor, exactly the name and a quote, with no quote or `$` before that quote |
| InlineRefs.OneNameAtMost | convert_inline_refs.py:25-157 | at most one name matches at a place, because the quote must follow the name immediately |
| InlineRefs.ProductSparesProductPrice | convert_inline_refs.py:94-103 | the `Product` rule does not rewrite a reference to `ProductPrice` |
| InlineRefs.FirstHit | convert_inline_refs.py:25-157 | the hit, if any, is some rule's hit at that place |
| InlineRefs.DollarStopsName | convert_inline_refs.py:25-29 | a `$` before the closing quote leaves no match |
| InlineRefs.InlineLocal | convert_inline_refs.py:25-29 | a rule's match does not look past the next `$` |
| InlineRefs.FirstHitLocal | convert_inline_refs.py:25-157 | nor does the first matching rule's |
| InlineRefs.AllRulesLocal | convert_inline_refs.py:25-157 | the combined pattern is local |
| InlineRefs.RuleLocal | convert_inline_refs.py:25-29 | every single rule is local |
| InlineRefs.PathNoMatch | convert_inline_refs.py:25-29 | a reference whose target is a written path matches no name |
| InlineRefs.SpliceChunk | convert_inline_refs.py:27 | a chunk with the rewritten reference in place is still a chunk |
| InlineRefs.RewrittenNoMatch | convert_inline_refs.py:25-157 | after a rewrite, no name matches the rewritten reference |
| InlineRefs.ChunkStep | convert_inline_refs.py:25-157 | one more substitution after the others is the single pass with one more name |
| InlineRefs.NoRulesNoChange | convert_inline_refs.py:17 | with no rules the text is unchanged |
| InlineRefs.ApplyRulesOnePass | convert_inline_refs.py:25-157 | the 22 sequential substitutions equal one pass that tries every name at once (targets hold no `$` and are not anchors) |
| InlineRefs.NoRuleNoHit | convert_inline_refs.py:25-157 | text that no rule matches is not matched by the single pass |
| InlineRefs.RewrittenNoRule | convert_inline_refs.py:25-157 | after the single pass rewrites a chunk's reference, no rule matches the result |
| InlineRefs.ChunkSettlesAll | convert_inline_refs.py:25-157 | on one chunk the single pass settles at once |
| InlineRefs.ApplyRulesIdempotent | convert_inline_refs.py:25-157 | the first step is idempotent |
| InlineRefs.StripHit | convert_inline_refs.py:160 | a hit spans a prefix of the text |
| InlineRefs.StripHitExact | convert_inline_refs.py:160 | where `\$ref: *(["'])\./` matches, it becomes `$ref: ` and the quote: the blanks collapse to one and the `./` goes |
| InlineRefs.StripHitSound | convert_inline_refs.py:160 | where the scanner hits, that regex matches with that replacement |
| InlineRefs.StripOn | convert_inline_refs.py:160 | `$ref: './…` matches through the `./` |
| InlineRefs.StripOnce | convert_inline_refs.py:160 | `$ref: './<x>` becomes `$ref: '<x>` |
| InlineRefs.StripTwiceDiffers | convert_inline_refs.py:160 | only one `./` goes per run: `././x` needs two runs |
| InlineRefs.TargetSafe | convert_inline_refs.py:20-27 | a target built from a relative path without `$` or `#` cannot start a new match |
| InlineRefs.SchemasDirPlain | convert_inline_refs.py:21 | the schemas directory holds no `$` and no `#` |
| InlineRefs.RelToSchemasSafe | convert_inline_refs.py:19-22 | for every file, the relative path to the schemas makes the rules safe to apply as one pass |
| InlineRefs.ProcessOnePass | convert_inline_refs.py:16-160 | a file's whole rewrite is the single pass of every name, then the `./` strip |
| InlineRefs.InlineStepIdempotent | convert_inline_refs.py:16-157 | on every file, running the first step twice gives what running it once gives |
| InlineRefs.MainFrame | convert_inline_refs.py:163-192 | the script creates and deletes no file, and changes only the listed files and the store product prices file |
| InlineRefs.RunScript | convert_inline_refs.py:176-192 | transaction files, then product files, then the store product prices file, each rewritten in place without a backup |
| PosixPath.LastSlash | convert_inline_refs.py:20 | the index of the last `/`, or none when there is none |
| PosixPath.TrimSlashes | convert_inline_refs.py:20 | `rstrip('/')`: a prefix with no trailing `/`, only slashes dropped |
| PosixPath.DirnameOfChild | convert_inline_refs.py:20 | the directory of `d/name` is `d` |
| PosixPath.DirnameOfRootChild | convert_inline_refs.py:20 | the directory of `/name` is `/` |
| PosixPath.Repeat | convert_inline_refs.py:21 | `n` copies of a segment |
| PosixPath.CommonPrefix | convert_inline_refs.py:21 | the longest common prefix of two segment lists: equal up to it, different at it |
| PosixPath.WalkUp | convert_inline_refs.py:21 | `n` `..` segments go up `n` directories |
| PosixPath.WalkDown | convert_inline_refs.py:21 | plain names go down |
| PosixPath.NonEmptyKeeps | convert_inline_refs.py:21 | dropping empty segments keeps a list with none |
| PosixPath.SplitAvoids | convert_inline_refs.py:21 | splitting introduces no character |
| PosixPath.JoinAvoids | convert_inline_refs.py:21 | joining with another separator introduces no character |
| PosixPath.RelPartsShape | convert_inline_refs.py:21 | every segment of `relpath` is `..` or a segment of the target, non-empty and without `/` |
| PosixPath.RelPathSegments | convert_inline_refs.py:21 | the string form splits back into those segments, `.` when there are none |
| PosixPath.RelPartsResolve | convert_inline_refs.py:21 | following the relative segments from the start directory leads to the target |
| PosixPath.RelPathResolves | convert_inline_refs.py:21 | following the relative path from the start directory leads to the target |
| PosixPath.RelPathAvoids | convert_inline_refs.py:21 | a character other than `.` and `/` absent from the target is absent from the relative path |
| PosixPath.ReplaceChar | convert_inline_refs.py:22 | `replace` of a character, position by position |
| PosixPath.ReplaceCharFacts | convert_inline_refs.py:22 | replacing an absent character changes nothing; afterwards it is absent |
| PosixPath.ReplaceCharAvoids | convert_inline_refs.py:22 | no other character appears |
| ToolNaming.Singularize | src/tools/api-tools-generator.ts:119-126 | `…ies` becomes `…y`; a final `s` not part of `ss` is dropped; anything else is kept; never longer than the input |
| ToolNaming.SingularizeIdempotent | src/tools/api-tools-generator.ts:119-126 | singularizing twice gives what singularizing once gives |
| ToolNaming.Action | src/tools/api-tools-generator.ts:131-146 | the action, whatever the method's case: `get` or `list` for GET as an id is present, `create` for POST, `update` for PUT and PATCH, else the lower-cased method |
| ToolNaming.ActionCaseInsensitive | src/tools/api-tools-generator.ts:132 | the action does not depend on the case of the method |
| ToolNaming.BraceParamsInPath | src/tools/api-tools-generator.ts:417-418 | every extracted path parameter is non-empty, has no `}`, and occurs in braces in the path |
| ToolNaming.DetectParameterType | src/tools/api-tools-generator.ts:190-208 | `path` exactly when the name is a path parameter or appears in braces; otherwise `body` exactly for POST, PUT and PATCH names not starting `query_`; else `query` |
| ToolNaming.GetNeverBody | src/tools/api-tools-generator.ts:201-207 | a GET parameter is never sent in the body |
| ToolNaming.BracedIsPath | src/tools/api-tools-generator.ts:197-198 | a parameter named in braces in the path is a path parameter, whatever the method |
| ToolNaming.MethodLabel | src/tools/api-tools-generator.ts:458 | the upper-cased method has the method's length |
| ToolNaming.OrElse | src/tools/api-tools-generator.ts:444-447 | `a \|\| b` on strings: `a` unless it is empty |
| ToolNaming.SegmentsOf | src/tools/api-tools-generator.ts:111 | the non-empty `/` segments of `/r` followed by more path are `r` and the rest's segments |
| ApiTools.ExtractResource | src/tools/api-tools-generator.ts:109-113 | the first non-empty `/` segment, or `resource` when there is none; never empty |
| ApiTools.ExtractResourceOf | src/tools/api-tools-generator.ts:109-113 | the resource of `/r…` is `r` |
| ApiTools.ToolNameKeepsOperationId | src/tools/api-tools-generator.ts:156-158 | a non-empty `operationId` is the name, whatever the path and method |
| ApiTools.DerivedList | src/tools/api-tools-generator.ts:161-181 | without a path parameter, a GET is `list` + the capitalised resource, not singularised |
| ApiTools.DerivedGetById | src/tools/api-tools-generator.ts:161-181 | with a path parameter, a GET is `get` + the capitalised singular + `ById` |
| ApiTools.ListName | src/tools/api-tools-generator.ts:154-181 | `GET /things` is `listThings` |
| ApiTools.CreateName | src/tools/api-tools-generator.ts:154-181 | `POST /things…` is `createThings`: no `ById`, no singular |
| ApiTools.GetByIdName | src/tools/api-tools-generator.ts:154-181 | `GET /things/{id}` is `getThingById` |
| ApiTools.UpdateByIdName | src/tools/api-tools-generator.ts:154-181 | `PUT` or `PATCH /things/{id}` is `updateThingsById`, plural kept |
| ApiTools.ParamsFrom | src/tools/api-tools-generator.ts:266-279 | one tool parameter per listed parameter, in order |
| ApiTools.PropertiesFrom | src/tools/api-tools-generator.ts:291-305 | one body parameter per body property, in order |
| ApiTools.ParametersOrder | src/tools/api-tools-generator.ts:257-310 | the listed parameters come first, in order and typed by `detectParameterType`. Then come exactly the body schema's properties, each typed `body` and required exactly when listed in `required`. There are none without body properties |
| ApiTools.GenerateParameters | src/tools/api-tools-generator.ts:257-310 | the push loops compute those parameters |
| ApiTools.ItemToolsSound | src/tools/api-tools-generator.ts:421-461 | one tool per operation entry of a path item, none for `parameters` or non-objects. Each tool has its path, the upper-cased method and the generated name |
| ApiTools.ItemToolsComplete | src/tools/api-tools-generator.ts:421-461 | every operation entry does give its tool |
| ApiTools.ItemToolsSnoc | src/tools/api-tools-generator.ts:421-461 | one more entry adds its tool, if it is an operation |
| ApiTools.PathsToolsSnoc | src/tools/api-tools-generator.ts:415-462 | one more path adds its item's tools |
| ApiTools.ProcessPathItem | src/tools/api-tools-generator.ts:421-461 | the inner loop appends the item's tools |
| ApiTools.ProcessPathsDefinition | src/tools/api-tools-generator.ts:414-463 | the tools of every path, in order, are appended to the caller's list |
| ConversionTools.NamespaceChars | src/conversion/tool-generator.js:103 | the namespaces `pos` and `common` are non-empty, with no `/` and no `{` |
| ConversionTools.CategoryCases | src/conversion/tool-generator.js:112-119 | the category is `pos`, `common` or `api`: the namespace a path starts with, else `api` |
| ConversionTools.ResourceCases | src/conversion/tool-generator.js:98-107 | the resource is never empty: the segment after a leading namespace, else the first segment or `resource` |
| ConversionTools.ToolNameOutsideNamespace | src/conversion/tool-generator.js:154-175 | away from a namespace the name is `category.` followed by the TypeScript generator's name |
| ConversionTools.ToolNameKeepsOperationId | src/conversion/tool-generator.js:156-158 | an `operationId` is the name, without a category |
| ConversionTools.NamespacedSegments | src/conversion/tool-generator.js:100 | the segments of `/ns/r…` |
| ConversionTools.NamespacedName | src/conversion/tool-generator.js:98-175 | under `/ns/r…` the category is `ns`, the resource `r`, and the name `ns.` followed by the name derived from `r` |
| ConversionTools.CategoryOfNamespaced | src/conversion/tool-generator.js:115-117 | a leading namespace is the category |
| ConversionTools.ResourceOfNamespaced | src/conversion/tool-generator.js:103-105 | the segment after a leading namespace is the resource |
| ConversionTools.NamespacedListName | src/conversion/tool-generator.js:154-175 | `GET /pos/things` is `pos.listThings` |
| ConversionTools.NamespacedGetByIdName | src/conversion/tool-generator.js:154-175 | `GET /pos/things/{id}` is `pos.getThingById` |
| ConversionTools.BodyParamsVersusTypeScript | src/conversion/tool-generator.js:274-306 | the body parameters are the TypeScript generator's. The exception is a schema without `properties`: it gives one required-as-declared `body` parameter where that generator gives none |
| ConversionTools.ParametersVersusTypeScript | src/conversion/tool-generator.js:255-308 | so the parameters are the TypeScript generator's, plus that whole-body parameter at the end |
| ConversionTools.GenerateParameters | src/conversion/tool-generator.js:255-308 | the push loops, with the whole-body branch, compute those parameters |
| ConversionTools.PathCategory | src/conversion/tool-generator.js:369 | `extractCategoryFromPath(path) \|\| defaultCategory` is the path's category, since that is never empty |
| ConversionTools.ItemToolsMirror | src/conversion/tool-generator.js:371-405 | tool for tool, the same list as the TypeScript generator's except for name, parameters, category and version |
| ConversionTools.PathsToolsCategory | src/conversion/tool-generator.js:361-407 | every tool has category `pos`, `common` or `api` and version `1.0`, and is named `category.…` unless it has an `operationId` |
| ConversionTools.ItemToolsCategory | src/conversion/tool-generator.js:371-405 | the same for one path item |
| ConversionTools.ItemToolsSnoc | src/conversion/tool-generator.js:371-405 | one more entry adds its tool, if it is an operation |
| ConversionTools.ProcessPathItem | src/conversion/tool-generator.js:371-405 | the inner loop appends the item's tools |
| ConversionTools.PathsToolsSnoc | src/conversion/tool-generator.js:363-406 | one more path adds its item's tools |
| ConversionTools.ProcessPathsDefinition | src/conversion/tool-generator.js:361-407 | the tools of every path, under its category, are appended to the caller's list |
| ZodTools.UnwrapsToCons | src/tools/generators/zod-api-tool-generator.ts:92 | a character that opens no parameter, put in front, stays in front of the unwrapped text |
| ZodTools.UnwrapsToHere | src/tools/generators/zod-api-tool-generator.ts:92 | a leading `{p}` unwraps to `p` |
| ZodTools.UnwrapFirstSpec | src/tools/generators/zod-api-tool-generator.ts:92 | `replace(/\{([^}]+)\}/, '$1')` removes just the braces around the FIRST brace parameter: the text before it, read up to its `}`, holds no other parameter. A segment without one is left as it is |
| ZodTools.UnwrapsToDetermined | src/tools/generators/zod-api-tool-generator.ts:92 | the first-parameter unwrapping has one result only, the one `replace` computes: `{x}x` is not an unwrapping of `{x}{x}` |
| ZodTools.ToolName | src/tools/generators/zod-api-tool-generator.ts:89-112 | no name exactly when the path has no segment, where `segments[segments.length - 1]` is undefined and `replace` throws |
| ZodTools.ToolNameParts | src/tools/generators/zod-api-tool-generator.ts:89-112 | the name is the first segment, `.`, the action for the method and the capitalised last segment with its parameter unwrapped |
| ZodTools.UnwrapNonEmpty | src/tools/generators/zod-api-tool-generator.ts:92 | a non-empty segment unwraps to something non-empty, so the `'resource'` fallback never applies |
| ZodTools.ThreeSegments | src/tools/generators/zod-api-tool-generator.ts:91 | the segments of `/c/r/w` |
| ZodTools.UnwrapWhole | src/tools/generators/zod-api-tool-generator.ts:92 | a segment that is one parameter in braces unwraps to the parameter |
| ZodTools.GetByLastSegment | src/tools/generators/zod-api-tool-generator.ts:89-112 | `GET /c/r/{x}` is named `c.getX`: the resource is the last segment, not the one before the parameter |
| ZodTools.IndexOfAfter | src/tools/generators/zod-api-tool-generator.ts:92 | the first `}` after a prefix without one is found right there |
| ZodTools.ZodParams | src/tools/generators/zod-api-tool-generator.ts:162-198 | one parameter per shape property, in order, with its name and the group's type, required exactly when it is not optional |
| ZodTools.ExtractParameters | src/tools/generators/zod-api-tool-generator.ts:166-197 | the loop computes those parameters |
| ZodTools.ParametersLayout | src/tools/generators/zod-api-tool-generator.ts:124-157 | `sessionId` comes first, required and in the query. Then come the query, path and body parameters, each group in order and of its own type |
| ZodTools.ConvertParameters | src/tools/generators/zod-api-tool-generator.ts:124-157 | the pushes compute those parameters |
| ZodTools.GroupToolsSound | src/tools/generators/zod-api-tool-generator.ts:49-74 | at most one tool per endpoint. Each tool has a path with a segment, the generated name as name and `operationId`, the upper-cased method and `sessionId` as its first parameter |
| ZodTools.GroupToolsComplete | src/tools/generators/zod-api-tool-generator.ts:49-74 | an endpoint whose path has a segment does give its tool |
| ZodTools.GroupToolsSnoc | src/tools/generators/zod-api-tool-generator.ts:49-74 | one more endpoint adds its tool, unless its name computation throws |
| ZodTools.BuildTool | src/tools/generators/zod-api-tool-generator.ts:50-73 | the `try` block gives the endpoint's tool, or nothing where it throws |
| ZodTools.ProcessGroup | src/tools/generators/zod-api-tool-generator.ts:49-74 | the inner loop appends the tools of the method's endpoints |
| ZodTools.GenerateToolsFromZodSchema | src/tools/generators/zod-api-tool-generator.ts:22-84 | no tools without a loadable `EndpointByMethod`. Otherwise the tools of every method group, in order |
| TokenStore.StoreThenLookup | src/auth/token-storage.ts:37-63 | a token just stored is found again, store unchanged, until it expires. A non-empty token with a contract id is also found by that id |
| TokenStore.ExpiredTokenIsRemoved | src/auth/token-storage.ts:49-60 | looking up an expired token finds nothing and removes the token and its contract id's index entry. The sessions are left alone |
| TokenStore.TokenValidAtExpiry | src/auth/token-storage.ts:57 | the comparison is strict: a token is still valid at the very millisecond it expires |
| TokenStore.RemoveTokenEffect | src/auth/token-storage.ts:97-105 | `removeToken` reports exactly whether the token was stored. It removes that token and no other, leaves the sessions alone and adds no index entry |
| TokenStore.RemoveDropsForeignIndexEntry | src/auth/token-storage.ts:97-105 | removing a token drops its contract id's index entry even when that entry names another, live token, which is then no longer found by the id |
| TokenStore.ReindexLeavesStaleEntry | src/auth/token-storage.ts:37-44 | storing a token again under another contract id leaves the old id in the index, so the old id finds the token with its new id |
| TokenStore.StoreThenLookupSession | src/auth/token-storage.ts:110-139 | a session just stored is found until it is more than ten minutes old and is removed after that. Removing it forgets it |
| TokenStore.CleanedKeepsLive | src/auth/token-storage.ts:144-161 | `cleanup` keeps exactly the live tokens and sessions, unchanged. It drops only the index entries of contract ids belonging to expired tokens |
| TokenStore.CleanedIdempotent | src/auth/token-storage.ts:144-161 | a second `cleanup` at the same moment changes nothing |
| TokenStore.TokenStorage.constructor | src/auth/token-storage.ts:29-32 | the three maps and both key orders start empty |
| TokenStore.TokenStorage.StoreToken | src/auth/token-storage.ts:37-44 | the new state is the old one with the token stored; a new token key or contract id goes last in its order |
| TokenStore.TokenStorage.RemoveToken | src/auth/token-storage.ts:97-105 | the answer and the new state are those of removing the token |
| TokenStore.TokenStorage.GetToken | src/auth/token-storage.ts:49-63 | the answer and the new state are those of the lookup, which removes an expired token |
| TokenStore.TokenStorage.GetTokenByContractId | src/auth/token-storage.ts:68-76 | the same, through the index |
| TokenStore.TokenStorage.ValidateToken | src/auth/token-storage.ts:81-84 | valid exactly when the lookup finds the token, with the lookup's effect on the state |
| TokenStore.TokenStorage.HasValidContractId | src/auth/token-storage.ts:89-92 | true exactly when the lookup finds the token and it has a non-empty contract id |
| TokenStore.TokenStorage.StoreAuthSession | src/auth/token-storage.ts:110-112 | the session is stored under its state |
| TokenStore.TokenStorage.RemoveAuthSession | src/auth/token-storage.ts:137-139 | the session is removed, and the answer says whether it was stored |
| TokenStore.TokenStorage.GetAuthSession | src/auth/token-storage.ts:117-132 | the answer and the new state are those of the session lookup, which removes an expired session |
| TokenStore.TokenStorage.DropExpiredSessions | src/auth/token-storage.ts:149-153 | the first loop deletes exactly the expired sessions, in any order, and touches nothing else |
| TokenStore.TokenStorage.DropExpiredTokens | src/auth/token-storage.ts:156-160 | the second loop removes exactly the expired tokens, with their contract ids' index entries, from the maps and from the key orders, keeping the others in their order, and touches no session |
| TokenStore.DropTokenStep | src/auth/token-storage.ts:156-160 | settling one token: an expired one leaves the kept tokens, and a non-empty contract id of it leaves the index; a live one changes neither |
| TokenStore.DropOrderStep | src/auth/token-storage.ts:156-160 | removing one more expired token deletes it, and its contract id, from the key orders |
| TokenStore.TokenStorage.Cleanup | src/auth/token-storage.ts:144-161 | the new state is the cleaned state |
| TokenStore.TokenStorage.GetAllTokens | src/auth/token-storage.ts:166-169 | cleans up, then returns the copy of the live tokens: their entries and the order they iterate in, which lists each live token once when the store's orders were in step |
| TokenStore.TokenStorage.GetStats | src/auth/token-storage.ts:174-186 | cleans up, then reports how many tokens and sessions are left and `Array.from` of the index keys, in insertion order: each indexed contract id once when the store's orders were in step |
| TokenStore.TokenOpsOrdered | src/auth/token-storage.ts:37-105 | storing, looking up and removing a token keep each key order listing its map's keys, each once |
| TokenStore.CleanedOrdered | src/auth/token-storage.ts:144-161 | `cleanup` keeps the key orders in step with the maps |
| TokenStore.IndexOrderOfStores | src/auth/token-storage.ts:174-186 | two new contract ids are listed last, in the order they were stored, and storing a token again under an indexed id keeps the id in its place |
| TokenStore.ReindexGoesLast | src/auth/token-storage.ts:97-105 | a contract id whose token was removed moves last when it is indexed again |
| ZodDescribe.SuffixKind | scripts/add-description-to-zod.ts:56 | which alternative of `Create\|Update\|Bulk\w+` a tail matches: exactly `Create`, exactly `Update`, or `Bulk` followed by at least one more character |
| ZodDescribe.SplitBelow | scripts/add-description-to-zod.ts:56 | the base length the greedy `(\w+)` settles on at or below a bound: the largest one whose tail is a suffix, and none when no tail is |
| ZodDescribe.BaseLength | scripts/add-description-to-zod.ts:56-58 | the regular expression matches exactly when the name is all word characters and some tail after a non-empty base is a suffix. The base is then the longest such |
| ZodDescribe.ExactEntryFirst | scripts/add-description-to-zod.ts:51-53 | a non-empty table entry for the name itself is the description |
| ZodDescribe.ShortTailsFail | scripts/add-description-to-zod.ts:56 | no proper tail of `Create` or `Update` is a suffix |
| ZodDescribe.DerivedFromBase | scripts/add-description-to-zod.ts:56-67 | `BaseCreate` or `BaseUpdate` without its own entry splits after `Base`. It is described as the base's text followed by the registration or update text, and not at all without a base entry |
| ZodDescribe.BulkFromBase | scripts/add-description-to-zod.ts:56-70 | `BaseBulkX` without its own entry is described as the base's text followed by the bulk-operation text |
| ZodDescribe.ProductBulkCreateUndescribed | scripts/add-description-to-zod.ts:49-75 | `ProductBulkCreate` gets no description: the greedy base is `ProductBulk`, which has no entry |
| ZodDescribe.EscapeEach | scripts/add-description-to-zod.ts:88-93 | `replace(/c/g, '\\' + c)` never shortens its input |
| ZodDescribe.ReadOne | scripts/add-description-to-zod.ts:82-94 | one character escaped for a literal reads back as itself |
| ZodDescribe.ReadEscaped | scripts/add-description-to-zod.ts:82-94 | a text escaped for a literal, with the closing quote after it, reads back as the text |
| ZodDescribe.FormatRoundTrip | scripts/add-description-to-zod.ts:82-94 | every literal the corrected formatter writes is read by JavaScript as the description |
| ZodDescribe.EscapeEachAgrees | scripts/add-description-to-zod.ts:88-93 | the escaping as written agrees with the corrected escaping on texts without backslashes, carriage returns or, in a template, dollar signs |
| ZodDescribe.FormatAsWrittenAgrees | scripts/add-description-to-zod.ts:82-94 | on those texts the formatter as written produces the corrected literal |
| ZodDescribe.TrailingBackslashBreaksLiteral | scripts/add-description-to-zod.ts:93 | as written, a one-line description ending in a backslash gives a literal whose closing quote is escaped, so it is not a complete literal |
| ZodDescribe.EscapeNoQuote | scripts/add-description-to-zod.ts:93 | a text without double quotes is left as it is by the double-quote escaping |
| ZodDescribe.ReadUnterminated | scripts/add-description-to-zod.ts:93 | a body whose closing quote follows a backslash never closes |
| ZodRewrite.SpaceRun | scripts/add-description-to-zod.ts:202 | the length of the white space `\s*` takes at the start of a text, stopping at the first other character |
| ZodRewrite.NameRun | scripts/add-description-to-zod.ts:202 | the length of the `[A-Za-z0-9_]+` run at the start of a text, stopping at the first other character |
| ZodRewrite.HeadAt | scripts/add-description-to-zod.ts:264 | a match of `export\s+const\s+(name)\s*=` captures a non-empty word-character name and lies within the text |
| ZodRewrite.DefinitionAt | scripts/add-description-to-zod.ts:202 | a match of the definition pattern runs to the first `;` after `z.`. It has at least one character before that `;` and ends with it |
| ZodRewrite.PropertyAt | scripts/add-description-to-zod.ts:272 | a property match captures a non-empty word-character name |
| ZodRewrite.FunctionAt | scripts/add-description-to-zod.ts:318 | a match of `export\s+function\s+(name)\s*\(` is non-empty and lies within the text |
| ZodRewrite.MatchesEndIn | scripts/add-description-to-zod.ts:206 | every match the global `exec` loop finds ends in the character all of the pattern's matches end in |
| ZodRewrite.DefinitionPatternConsumes | scripts/add-description-to-zod.ts:202 | the definition pattern never matches the empty text, and each match ends in `;` |
| ZodRewrite.DefinitionsEndInSemicolon | scripts/add-description-to-zod.ts:202-207 | each definition pass 1 finds ends in `;`, so the lookup of the last `;` at line 224 finds the final character |
| ZodRewrite.ObjectStartHasHead | scripts/add-description-to-zod.ts:263-267 | a line matching the object-start pattern also matches the name pattern, so `currentSchema` is always set there |
| ZodRewrite.LastIndexOf | scripts/add-description-to-zod.ts:224-228 | `lastIndexOf` finds nothing exactly when the character is absent. Otherwise it gives a position holding the character with no later one |
| ZodRewrite.Find | scripts/add-description-to-zod.ts:239 | a position where the pattern occurs, or nothing when it does not occur at all |
| ZodRewrite.ExpandPlain | scripts/add-description-to-zod.ts:239 | a replacement text without `$` is inserted literally |
| ZodRewrite.InsertPoint | scripts/add-description-to-zod.ts:224-230 | the insertion point: the last `)` before the last `;`, both past the first character and with the `)` first |
| ZodRewrite.InsertDescriptionShape | scripts/add-description-to-zod.ts:224-236 | in a definition ending in `;` the call goes right after the last `)` before that `;`, and the rest of the text is kept |
| ZodRewrite.DescribeDefinitionOnce | scripts/add-description-to-zod.ts:209-240 | with any formatter, a rewritten definition carries `.describe(`, so a second run of pass 1 skips it |
| ZodRewrite.NoDefinitionRewritten | scripts/add-description-to-zod.ts:201-246 | pass 1 only ever counts up, and when it rewrote nothing the text is the one it was given |
| ZodRewrite.DescribeSchemas | scripts/add-description-to-zod.ts:201-246 | for the formatter it is given, the `exec` loop over the original text replaces the first occurrence of each describable definition and counts them. `AddDescriptionsToZod` gives it `formatDescription` as written. Tables hold their own keys only; `Object.prototype` keys are under "## Left out" |
| ZodRewrite.PropertyDescription | scripts/add-description-to-zod.ts:283-288 | the description is the current schema's entry when non-empty, else the shared `parameters` entry, else empty. Tables hold their own keys only; `Object.prototype` keys are under "## Left out" |
| ZodRewrite.LastNonSpace | scripts/add-description-to-zod.ts:292 | the last position of a line that `trim` would keep, or none for a blank line |
| ZodRewrite.TrailingComma | scripts/add-description-to-zod.ts:292 | where the line's last visible character is a comma, the position of that comma |
| ZodRewrite.SpaceAfterCommaDoublesIt | scripts/add-description-to-zod.ts:292-304 | as written, `x, ` becomes `x.describe(…),,`, a syntax error in the object literal. The corrected insertion gives `x.describe(…),` |
| ZodRewrite.LineInsertShape | scripts/add-description-to-zod.ts:292-304 | the corrected line keeps its text up to its trailing comma, or all of it without one, and has the call right after the last `)` before that comma |
| ZodRewrite.DescribeLineAsWrittenOnce | scripts/add-description-to-zod.ts:277-308 | as written, and with any formatter: only a line without `.describe(` is described, a described line has it, and pass 2 never describes that line again |
| ZodRewrite.DescribeLineOnce | scripts/add-description-to-zod.ts:277-308 | the same for the corrected comma cut |
| ZodRewrite.ScriptDescriberAddsOnce | scripts/add-description-to-zod.ts:272-308 | the script's treatment of property lines, as written (the cut of line 293 and `formatDescription` as written), only adds a description to a line without one |
| ZodRewrite.CorrectedDescriberAddsOnce | scripts/add-description-to-zod.ts:272-308 | so does the corrected treatment |
| ZodRewrite.DescribeLines | scripts/add-description-to-zod.ts:259-311 | pass 2 keeps the number of lines |
| ZodRewrite.DescribeLinesChanges | scripts/add-description-to-zod.ts:259-311 | pass 2 counts zero exactly when it changes no line. Each changed line lacked `.describe(` and now has it |
| ZodRewrite.DescribeEachLine | scripts/add-description-to-zod.ts:255-311 | the loop over the lines, updating them in place and tracking the current schema, computes pass 2 |
| ZodRewrite.DescribePropertyLines | scripts/add-description-to-zod.ts:255-315 | the text is split into lines and joined back only when a line changed |
| ZodRewrite.ScriptScan | scripts/add-description-to-zod.ts:318-351 | the script's function pattern never matches the empty text |
| ZodRewrite.NextMatch | scripts/add-description-to-zod.ts:323 | the next match of the pattern lies at or after the search position and inside the text |
| ZodRewrite.DocumentNothing | scripts/add-description-to-zod.ts:317-353 | pass 3 leaves the text alone when it documents nothing |
| ZodRewrite.NoDescriptionsNoDocs | scripts/add-description-to-zod.ts:333-336 | without operation descriptions pass 3 changes nothing |
| ZodRewrite.DocumentMatches | scripts/add-description-to-zod.ts:317-353 | the `exec` loop computes pass 3. Each undocumented function with a description gets its JSDoc block, and the search goes on after the match, shifted by the inserted block. Tables hold their own keys only; `Object.prototype` keys are under "## Left out" |
| ZodRewrite.UnwrittenUnchanged | scripts/add-description-to-zod.ts:357-373 | when no pass counted a change, the text is the one read from the file |
| ZodRewrite.RewriteText | scripts/add-description-to-zod.ts:198-373 | for any formatter, property-line treatment and function scan, the three passes compute the new text and the write decision, and a text that is not written is unchanged |
| ZodRewrite.AddDescriptionsToZod | scripts/add-description-to-zod.ts:191-374 | the script as written, for names that are not `Object.prototype` keys (see "## Left out"): its patterns and tables, `formatDescription` as written in passes 1 and 2, the comma cut of line 293, its lookback and JSDoc block. A text that is not written is unchanged |
| TransactionData.CategoryGivenOrKnown | src/tools/transaction-data-tool.ts:391-413 | an error's own type is its category. Without one, the category is one of the five `ErrorType` values |
| TransactionData.UntypedNetworkError | src/tools/transaction-data-tool.ts:391-413 | an untyped error is a network error exactly when its status is at least 500 |
| TransactionData.RequestErrorRetryAndCategory | src/tools/transaction-data-tool.ts:391-413 | the error a failed request throws is categorised as `api_limit_reached` for 429, `authentication_required` for 401, `network_error` from 500 on and `unknown_error` otherwise. With `isRetryableError` (src/tools/transaction-data-tool.ts:42-45) it is retried exactly when its status is at least 500 |
| TransactionData.GaveUpIsNotNetworkError | src/tools/transaction-data-tool.ts:270 | the error thrown after the last retry has no status, code or type, so it is never categorised as a network error |
| TransactionData.RetryFromSettlesAt | src/tools/transaction-data-tool.ts:246-268 | from a given attempt on, the first attempt that returns a page or a non-retryable error decides the result. The waits slept are the back-off delays of the attempts before it |
| TransactionData.FetchPageSettlesAt | src/tools/transaction-data-tool.ts:237-271 | the same from the first attempt: the result of the first settling attempt `n`, after the delays 1000 ms, 2000 ms of the first `n - 1` attempts |
| TransactionData.RetryFromGivesUp | src/tools/transaction-data-tool.ts:246-270 | when every attempt from a given one on fails with a retryable error, the last attempt is an error and the thrown error is built from it |
| TransactionData.FetchPageGivesUp | src/tools/transaction-data-tool.ts:243-270 | after three retryable failures the page fetch throws the give-up error built from the third failure, having slept 1000 ms and 2000 ms |
| TransactionData.RetryFromLooksAhead | src/tools/transaction-data-tool.ts:246-268 | the result depends only on the responses from the given attempt on |
| TransactionData.AtMostThreeAttempts | src/tools/transaction-data-tool.ts:243-246 | a page fetch depends on the first three attempts only |
| TransactionData.GaveUpNamesPageAndError | src/tools/transaction-data-tool.ts:270 | the give-up message names the page and ends with the last error's message, when it has one |
| TransactionData.FetchTransactionPage | src/tools/transaction-data-tool.ts:237-271 | the retry loop computes the page fetch's result and its waits |
| TransactionData.NextPagePriority | src/tools/transaction-data-tool.ts:362-379 | `pagination.hasNext` decides when present. Otherwise a non-empty `nextPageUrl` means a next page. Otherwise there is one exactly when `data` is an array of at least 100 rows |
| TransactionData.AllRowsAppend | src/tools/transaction-data-tool.ts:214-218 | concatenating the rows of two runs of pages is concatenating their rows |
| TransactionData.PagesShape | src/tools/transaction-data-tool.ts:191-208 | the `i`-th page followed is what fetching page `1 + i` returned. Every page but the last says there is a next one, a complete run's last page says there is none and a failed run stopped at the first fetch that threw, with its error |
| TransactionData.PagesOfFetched | src/tools/transaction-data-tool.ts:191-208 | for any page fetch, the loop follows at most `fuel` pages, the `i`-th is what fetching page `page + i` returned, and a failed run stopped at a fetch that threw, with its error |
| TransactionData.PagesOfLinked | src/tools/transaction-data-tool.ts:191-208 | for any page fetch, every page but the last said there is a next one; a complete run ends on a page that says there is none, and any other run only saw pages that said there is one |
| TransactionData.PagesAfter | src/tools/transaction-data-tool.ts:191-208 | a fetched page with a next page is followed by the run from the next page. Without one the run ends there, complete |
| TransactionData.PagesFail | src/tools/transaction-data-tool.ts:192-230 | a page fetch that throws ends the run with its error |
| TransactionData.ConcatRows | src/tools/transaction-data-tool.ts:214-218 | the concatenation loop gives the rows of the cached pages in page order |
| TransactionData.FetchAllTransactionData | src/tools/transaction-data-tool.ts:180-232 | the page loop returns the rows of every page followed, in order, with their count, or throws the error that stopped it. The sleeps are the retry back-offs and a 100 ms pause after each page |

## Left out

- Directory listings (`glob`, `os.walk`, `Path.rglob`) are parameters: each script gets its list of files, in the order the listing gives.
- `print` output and the warnings the scripts log are not modelled. A schema name missing from the table only keeps its anchor.
- Reading fails only when the file is missing. Permission errors, decoding errors and failed writes are not modelled.
- The Python `\w` is modelled as its ASCII part `[A-Za-z0-9_]`. Over `str`, Python also counts non-ASCII letters and digits, so a schema name containing one is not matched in the model, and its anchor is kept. The JavaScript `\w` is ASCII, so the TypeScript models are exact here.
- PosixPath.RelPath: both paths are taken as absolute and already normalised, without `.` or `..` segments. `os.path.abspath`'s normalisation and the current directory are not modelled. The script passes it only absolute paths built from its own location and from the listing.
- The TypeScript tool generators read a parsed OpenAPI or zod definition. Loading and parsing the JSON, YAML or module file is not modelled. A part that fails to load is an absent input.
- Zod schema objects are not modelled: `getZodSchemaForParameter`, `recreateZodSchema`, `getSchemaType`, `isOptional` and `z.*` are library calls. A zod property is its name and the `optional` flag that `isOptional` reports.
- Method names and the HTTP verb are lower- and upper-cased as ASCII, as every method name in an OpenAPI document is.
- Text.Capitalize: `charAt(0).toUpperCase()` is modelled on ASCII letters only. JavaScript upper-cases by Unicode, so `é` becomes `É` and `ß` becomes `SS`, changing the length. The Smaregi API's path segments are ASCII, and on them the two agree. These tool-name lemmas are therefore weaker than the source for a resource that starts with a non-ASCII letter:
- ApiTools.DerivedList: the capitalised resource is the ASCII `Capitalize` of it, see Text.Capitalize.
- ApiTools.DerivedGetById: the capitalised singular is the ASCII `Capitalize` of it, see Text.Capitalize.
- ApiTools.ListName: `list` plus the ASCII `Capitalize` of the resource, see Text.Capitalize.
- ApiTools.CreateName: `create` plus the ASCII `Capitalize` of the resource, see Text.Capitalize.
- ApiTools.GetByIdName: `get`, the ASCII-capitalised singular, then `ById`, see Text.Capitalize.
- ApiTools.UpdateByIdName: `update`, the ASCII-capitalised resource, then `ById`, see Text.Capitalize.
- ConversionTools.NamespacedListName: the namespaced `list` name capitalises the resource as ASCII, see Text.Capitalize.
- ConversionTools.NamespacedGetByIdName: the namespaced `get…ById` name capitalises the singular as ASCII, see Text.Capitalize.
- ZodTools.ToolNameParts: the last segment is capitalised as ASCII, see Text.Capitalize.
- ZodTools.GetByLastSegment: `get` plus the ASCII `Capitalize` of the unwrapped segment, see Text.Capitalize.
- `TokenStorage`: `Date.now()` is the parameter `now`. `cleanup` deleting entries while iterating over a `Map` is modelled as deleting the expired keys one at a time in any order, which gives the same maps and key orders. The order of the sessions is not kept, since no operation hands it out.
- `collectDescriptionsFromOpenAPI` (`scripts/add-description-to-zod.ts:99-187`) reads YAML files from disk. The two tables it fills, property descriptions and operation descriptions, are parameters, and the schema file's text is given rather than read. Its write is the returned write decision.
- ZodRewrite.RewriteText: the three passes are stated for any formatter, any property-line treatment and any function scan obeying a small well-formedness predicate. `Rewrite` and `AddDescriptionsToZod` plug in the script as written: `formatDescription` as written, the comma cut of line 293, the script's patterns, lookback and JSDoc block. `RewriteCorrected` plugs in the corrected formatter and comma cut instead.
- The description tables of `scripts/add-description-to-zod.ts` (`staticDescriptions`, `propertyDescriptions`, `operationDescriptions`, lines 18-43) are plain JavaScript objects, looked up with `table[key]`. In the model they are maps holding only their own keys. Keys inherited from `Object.prototype` are not modelled. So a name such as `constructor`, `toString` or `__proto__` has no entry in the model, while the script finds a function or an object there. The next four lines say where this shows.
- ZodRewrite.DescribeSchemas: a definition whose base name is an `Object.prototype` key, such as `constructorCreate`, gets no description in the model. In the script, `getSchemaDescription` finds a function under `constructor` and returns its source text followed by `の登録用データ`, and that text is inserted. A definition named exactly `constructor` (or `toString`, `__proto__` …) agrees with the model: the value found is not a string, `formatDescription` throws, and the `try` of line 222 skips that definition.
- ZodRewrite.PropertyDescription: a property named after an `Object.prototype` key, such as `constructor: z.string(),`, has no description in the model, and its line is left alone. In the script a function is found, `formatDescription` throws outside any `try`, `main` catches it (line 388), and nothing is written. Under a schema named after such a key, the script also reads the inherited value's own fields: below `export const constructor = z.object({`, a `name` property gets the description `Object`.
- ZodRewrite.DocumentMatches: a function named after an `Object.prototype` key, such as `constructor` or `__proto__`, is not documented in the model. The script inserts a JSDoc block holding the inherited value as text (`function Object() { [native code] }`, `[object Object]`).
- ZodRewrite.AddDescriptionsToZod: it is the script as written for names that are not `Object.prototype` keys. For such names it differs from the script as the three lines above say. Where the script throws, the model writes a file that the script would not.
- ToolNaming.DetectParameterType: a parameter is always a record with a string `name`. A parameter without one, such as an unresolved `$ref` under POST, PUT or PATCH, makes `paramName.startsWith` throw (`src/tools/api-tools-generator.ts:202`). `generateTools` then catches the error and returns no tools at all (line 405). This case is not modelled. The same holds for a `null` path item given to `Object.entries`, and for an `undefined` endpoint in `src/tools/generators/zod-api-tool-generator.ts:55`.
- TransactionData: the HTTP request (`makeSingleTransactionRequest`: URL, query parameters, `fetch`, `response.json()`) is the function `respond(page, attempt)`. Only the errors it throws for a non-ok response are modelled, by `RequestError`.
- TransactionData: `sleep` returns nothing observable, so the waits are returned as a trace of milliseconds.
- TransactionData: the D1 page cache (`saveCache`, `getCacheBySession`, `deleteCacheBySession`) is modelled as the list of pages in page order. Pages are saved once each under pages 1, 2, 3 … and read back ordered by page number, and a JSON round trip through the cache is taken as lossless. Cache failures and the clean-up calls are not modelled.
- TransactionData.FetchAllTransactionData: the source loop does not end while the API keeps reporting a next page. The model follows at most `fuel` pages and returns `Unfinished` when that runs out.
- TransactionData: a page that is not an object (`null`), where `hasNextPage` would throw a `TypeError`, is not modelled. `pagination.hasNext` is taken to be a boolean, and a falsy `data` is `Absent`.
- TransactionData: an error value is its `status`, `code`, `type` and `message` fields. When the last error has no message, the give-up message shows `[object Object]`, as for a plain object. A thrown primitive would show itself instead, and that case is not modelled.
- `getTransactionAnalysisData`, `validateParams`, `isValidDate` and `getAuthenticationToken` are left out. They rely on JavaScript `Date` arithmetic and on the authentication service.

## Findings

| source | as written | input that shows it | evidently intended | confidence | as-written member | corrected member |
|---|---|---|---|---|---|---|
| scripts/add-description-to-zod.ts:82-94 | `formatDescription` escapes only the closing quote character. It does not escape backslashes, carriage returns or, in a template literal, `${` | the one-line description `a\`, written as `"a\"`, whose closing quote is escaped | every description is written as a JavaScript literal whose value is the description | medium, not executed | ZodDescribe.FormatDescriptionAsWritten, ZodDescribe.TrailingBackslashBreaksLiteral | ZodDescribe.FormatDescription, ZodDescribe.FormatRoundTrip, ZodRewrite.RewriteCorrected |
| scripts/add-description-to-zod.ts:292-304 | the trailing comma is found on the trimmed line, but `slice(0, -1)` removes the untrimmed line's last character, and a comma is appended again | the property line `  id: z.string(), ` (white space after the comma) becomes `  id: z.string().describe("…"),,` | the line cut at its trailing comma, the call inserted, one comma put back | high, not executed | ZodRewrite.LineInsertAsWritten, ZodRewrite.SpaceAfterCommaDoublesIt | ZodRewrite.LineInsert, ZodRewrite.LineInsertShape, ZodRewrite.RewriteCorrected |
