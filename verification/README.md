# copytool: a verified model of the entry-collection layer

copytool is an editor add-on that copies files, or whole directories, to the
clipboard as formatted text and keeps named lists of captured files. This
project models, in Dafny, the part of it that decides what is captured and
what text comes out:

- **Three list services.**
  - The persisted one (`src/core/services/list-service.ts`).
  - The in-memory one behind the lists view (`src/services/list-service.ts`).
  - The older built one (`out/services/list-service.js`).

  Each is a class holding an insertion-ordered map from id to list (module
  `JsMap`, which models a JavaScript `Map`). Its methods create, delete,
  append to, remove from and copy lists.
- **The storage service** (`src/storage/storage-service.ts`). It saves the
  map as an array under one key of the editor's global state, and rebuilds
  the map from that array.
- **The entry formatter** (`src/services/content-formatter-service.ts`). It
  fills a template with first-occurrence replacement of `{filepath}`, then of
  `{content}`, and joins entries with a blank line.
- **The two clipboard services.**
  - `src/services/clipboard-service.ts`.
  - `out/services/clipboard-service.js`, which uses the placeholder
    `{filepath-from-the-project directory}`.
- **The allow/block filter decision** (`src/core/services/filter-service.ts`).
- **Three directory walkers.**
  - The filtered walk that feeds a capacity-limited clipboard
    (`src/services/resource-processor-service.ts`).
  - The older unfiltered walk, which a listing failure abandons
    (`out/services/file-processor.js`).
  - The pattern walk, which filters every child, directories included, and
    rethrows errors (`src/services/file-processor.ts`).
- **The release-version arithmetic** of `scripts/version.js`.

Code that changes state in place is written as classes with `modifies`
clauses. These are the list services, the storage service and the global
state, the clipboard services and the walkers' processors. Each method's
`ensures` ties the new state to a specification function on values. Those
functions are module `ListOps` for list updates, `Storage.LoadFrom` for
loading, and `Formatter.RenderAll` for clipboard text. For the walkers they
are `ResourceWalker.Expand`, `LegacyWalker.Expand` and
`PatternWalker.Expand`. Lemmas state the laws the source relies on. The
loops of the source (`loadLists`, `processDirectory` and the feeding loop of
`processResource`) are `for`/`while` loops with invariants.

Clocks, uuids and file contents are parameters:

- A read that can fail is `Option<string>`.
- A listing that can fail is the node `UnlistableDir`.
- `Date.now()` is an integer argument, or a function from path to reading.
- A uuid is a string argument.

The glob matcher (minimatch) is an uninterpreted function from a pattern and
a path to a boolean. `src/services/filter-service.ts`, which the resource
processor imports, is not part of this model; the resource walker's `accept`
parameter is the filter decision.

The resource processor (`src/services/resource-processor-service.ts:6`), the
lists-view service (`src/services/list-service.ts:5`) and the pattern walker
(`src/services/file-processor.ts:5`) all import `./clipboard-service`, that
is `src/services/clipboard-service.ts`, modelled as
`Clipboard.ClipboardService`. That class defines `addToNewClipboard`,
`addToExistingClipboard` and `getCurrentClipboardContents`, but none of the
methods these callers invoke: `startNewClipboard`, `hasSpace` and `addEntry`
(`src/services/resource-processor-service.ts:35-51`), `setContent`
(`src/services/resource-processor-service.ts:59`,
`src/services/list-service.ts:163`) and `addToClipboard`
(`src/services/file-processor.ts:28`). For all three callers the clipboard
service is therefore `Sink.ClipboardSink`, which records the calls it
receives; `hasSpace` is a function of that call history. The persisted list
service (`src/core/services/list-service.ts:4-5`) imports
`src/core/services/clipboard-service.ts` and
`src/core/services/content-formatter-service.ts`, neither of which is part
of this model: it too writes through `Sink.ClipboardSink`, and it formats
with `Formatter.FormatEntries` of `src/services/content-formatter-service.ts`,
as the lists-view service does.

What the code does not do:

- No list or clipboard has a size cap.
- Appending does not check for a duplicate path.
- List names are not validated.
- Entries with blank content are not rejected.
- There is no rename operation.
- Placeholders are replaced at their first occurrence only, not everywhere.

## Model

| member | source | states |
|---|---|---|
| JsMap.Set | src/core/services/list-service.ts:47 | `map.set`: the value under the key is replaced; a new key goes last and a present key keeps its place; the map stays well formed |
| JsMap.Delete | src/core/services/list-service.ts:54 | `map.delete`: the key is gone, every other key keeps its value and its relative order |
| JsMap.Values | src/storage/storage-service.ts:15 | `Array.from(map.values())`: the values in key order, one per key |
| JsMap.OthersUnchanged | src/core/services/list-service.ts:47-54 | setting or deleting one key leaves `get` unchanged for every other key |
| JsMap.SetTwice | src/core/services/list-service.ts:38-47 | setting a key twice keeps only the second value (a clock-id collision replaces the earlier list) |
| ListOps.NewList | src/core/services/list-service.ts:39-45 | a new list has exactly the given id and name, no entries, and the two given stamps |
| ListOps.Appended | src/core/services/list-service.ts:69-70 | `push` then stamp: the entry is last, earlier entries are unchanged, and an equal entry already present is counted once more (no dedup, no cap) |
| ListOps.Spliced | src/core/services/list-service.ts:82-83 | `splice(index, 1)`: exactly the entry at `index` goes; those before keep their index, those after move down by one; the multiset loses just that entry |
| ListOps.RemoveAppended | src/core/services/list-service.ts:69-82 | removing the entry just appended gives back the previous entries |
| ListOps.PutKeepsWellKeyed | src/core/services/list-service.ts:47 | putting a list under its own id keeps every list under its own id |
| ListOps.DeleteKeepsWellKeyed | src/core/services/list-service.ts:54 | deleting keeps every list under its own id |
| ListOps.DeleteAbsent | src/core/services/list-service.ts:53-59 | deleting an absent id leaves the map as it was |
| ListOps.ValuesIds | src/core/services/list-service.ts:29-31 | the lists in insertion order carry the ids in key order |
| ListStore.ListService.constructor | src/core/services/list-service.ts:11-23 | the map is what storage holds, every list under its own id |
| ListStore.ListService.GetAllLists | src/core/services/list-service.ts:29-31 | the lists in insertion order, one per id |
| ListStore.ListService.GetList | src/core/services/list-service.ts:33-35 | the list under the id exactly when there is one |
| ListStore.ListService.CreateList | src/core/services/list-service.ts:37-51 | the list has id = decimal clock text, the exact name, no entries and the clock stamps; it replaces any list with that id; the whole map is saved |
| ListStore.ListService.DeleteList | src/core/services/list-service.ts:53-60 | returns whether the id was present; afterwards it is absent, the other lists are unchanged, and a save happens only when something was deleted |
| ListStore.ListService.AddEntryToList | src/core/services/list-service.ts:62-74 | unknown id: false and nothing changes; known id: the entry is appended and the list stamped, the other lists are untouched, the map is saved, true |
| ListStore.ListService.RemoveEntryFromList | src/core/services/list-service.ts:76-87 | unknown id or index outside `[0, length)`: false and nothing changes; otherwise exactly that entry goes, the list is stamped and the map saved |
| ListStore.ListService.CopyListToClipboard | src/core/services/list-service.ts:89-105 | unknown or empty list: false and the clipboard is untouched; otherwise the formatted entries are set as clipboard content |
| ListView.InsertByStamp | src/services/list-service.ts:65-66 | inserting into a newest-first run keeps it newest first and adds exactly that list |
| ListView.SortByStamp | src/services/list-service.ts:65-66 | `sort((a, b) => b.updatedAt - a.updatedAt)`: newest first, and a permutation of the input |
| ListView.StampedInsert | src/services/list-service.ts:65-66 | inserting keeps lists that share a stamp in their order |
| ListView.SortIsStable | src/services/list-service.ts:65-66 | the sort is stable: lists with equal stamps keep their insertion order |
| ListView.EntryItems | src/services/list-service.ts:72-77 | a list's entries as items, each paired with its index, in stored order |
| ListView.ListItems | src/services/list-service.ts:64-69 | the lists as items, in the given order |
| ListView.GetParent | src/services/list-service.ts:83-88 | an entry's parent is its list; a list has no parent |
| ListView.ListService.GetChildren | src/services/list-service.ts:62-81 | the root's children are all list items; under a list, the children are entry items of the list now stored under that id, none when the id is gone; under an entry, none (`RootChildren` and `ListChildren` state order and contents) |
| ListView.RootChildren | src/services/list-service.ts:62-69 | the root's children are one list item per stored list and none has a parent; their lists are in non-increasing `updatedAt` order, are a permutation of the stored lists, and lists sharing a stamp keep their insertion order |
| ListView.ListChildren | src/services/list-service.ts:70-77 | under a stored list are its entries in order, each at its index, each with that list as parent |
| ListView.ListService.constructor | src/services/list-service.ts:43-52 | the service starts with no lists |
| ListView.ListService.GetAllLists | src/services/list-service.ts:110-112 | the lists in insertion order |
| ListView.ListService.GetList | src/services/list-service.ts:106-108 | the list under the id exactly when there is one |
| ListView.ListService.CreateList | src/services/list-service.ts:90-104 | any name is accepted; the list has the clock id, no entries and the clock stamps; the view refreshes |
| ListView.ListService.DeleteList | src/services/list-service.ts:114-121 | returns whether the id existed; afterwards it is absent; the view refreshes only then |
| ListView.ListService.AddEntryToList | src/services/list-service.ts:123-135 | unknown id: false, nothing changes; otherwise appended without dedup and stamped |
| ListView.ListService.RemoveEntryFromList | src/services/list-service.ts:137-148 | out-of-range index or unknown id: false, nothing changes; otherwise one entry spliced out, the rest in order |
| ListView.ListService.CopyListToClipboard | src/services/list-service.ts:150-166 | unknown or empty list: false, clipboard untouched; otherwise the formatted entries are written |
| LegacyLists.LegacyText | out/services/list-service.js:102-104 | no entries give the empty text; one entry gives its path and a fenced block |
| LegacyLists.LegacyTextIsDefaultFormat | out/services/list-service.js:102-104 | the inline formatting equals the formatter's built-in template whenever no path holds `{content}` |
| LegacyLists.ListService.constructor | out/services/list-service.js:40-47 | the stored lists are loaded when the service is built |
| LegacyLists.ListService.LoadLists | out/services/list-service.js:48-54 | the map is cleared and refilled from the stored array (default empty), a later duplicate id winning |
| LegacyLists.ListService.SaveLists | out/services/list-service.js:55-59 | exactly the map's values, in order, are written under `copytool.lists`, then the view refreshes; a refused write refreshes nothing |
| LegacyLists.ListService.CreateList | out/services/list-service.js:63-75 | a list under the fresh uuid with no entries and clock stamps, then a save |
| LegacyLists.ListService.DeleteList | out/services/list-service.js:76-83 | unknown id: nothing changes and nothing is saved; known id: removed, then saved |
| LegacyLists.ListService.AddToList | out/services/list-service.js:84-92 | unknown id: nothing changes; otherwise appended last, `lastModified` set, saved |
| LegacyLists.ListService.GetLists | out/services/list-service.js:93-95 | the lists in insertion order |
| LegacyLists.ListService.GetList | out/services/list-service.js:96-98 | the list under the id exactly when there is one |
| LegacyLists.ListService.CopyListContents | out/services/list-service.js:99-108 | unknown list: nothing is written; a known list, even an empty one, replaces the clipboard text with its inline formatting |
| Storage.GlobalState.Get | src/storage/storage-service.ts:25 | `get(key, default)`: the stored value, or the default when the key is unset |
| Storage.GlobalState.Update | src/storage/storage-service.ts:16 | `update`: the key takes the value unless the host refuses, and then nothing changes |
| Storage.LoadFrom | src/storage/storage-service.ts:26-30 | the rebuilt map is well formed and each list sits under its own id |
| Storage.LoadKeys | src/storage/storage-service.ts:28-30 | the map's keys are exactly the ids in the stored array |
| Storage.LastRecordWins | src/storage/storage-service.ts:28-30 | of records sharing an id, the last one in the array is the one loaded |
| Storage.LoadDistinct | src/storage/storage-service.ts:28-30 | records with distinct ids load in array order, each under its id |
| Storage.SaveLoadRoundTrip | src/storage/storage-service.ts:13-33 | loading what was saved from a map whose keys are its lists' ids gives back the same map, in the same order |
| Storage.StorageService.SaveLists | src/storage/storage-service.ts:13-21 | the map's values are stored under `copytool.lists`; a refused write is caught and changes nothing |
| Storage.StorageService.LoadLists | src/storage/storage-service.ts:23-38 | the loop builds exactly `LoadFrom` of the stored array, which is empty when the key is unset |
| Storage.StorageService.ClearLists | src/storage/storage-service.ts:40-46 | an empty array is stored, after which loading gives the empty map; a refused write changes nothing |
| Formatter.ResolveFormat | src/services/content-formatter-service.ts:17 | an unset or empty template falls back to path, fence, `{content}`, closing fence |
| Formatter.Render | src/services/content-formatter-service.ts:16-21 | a template holding neither placeholder is returned unchanged, whatever the entry |
| Formatter.FormatEntry | src/services/content-formatter-service.ts:13-25 | with no template configured and a path free of `{content}`, the path and then the content in a fenced block |
| Formatter.RenderAll | src/services/content-formatter-service.ts:8-11 | no entries give the empty text; one entry gives its own rendering |
| Formatter.Rendered | src/services/content-formatter-service.ts:10 | one rendering per entry, in input order |
| Formatter.RenderAllConcat | src/services/content-formatter-service.ts:10 | the text of two runs is the first's, a blank line, the second's: input order is kept |
| Formatter.RenderAllSnoc | src/services/content-formatter-service.ts:10 | appending an entry appends a blank line and its block |
| Formatter.FormatEntries | src/services/content-formatter-service.ts:8-11 | `formatEntries([])` is empty and `formatEntries([e])` is `formatEntry(e)`; longer lists are joined by a blank line (see `RenderAllConcat`) |
| Formatter.DefaultRendering | src/services/content-formatter-service.ts:13-25 | with the built-in template and a path free of `{content}`, an entry is its path then its content in a fenced block, whatever the content holds |
| Formatter.DefaultWithPath | src/services/content-formatter-service.ts:17-20 | substituting the path in the built-in template leaves the fence, the `{content}` placeholder and the closing fence |
| Formatter.ContentAfterFence | src/services/content-formatter-service.ts:21 | the first `{content}` after a path free of it is the template's own |
| Formatter.PathFirst | src/services/content-formatter-service.ts:17-21 | with the built-in template, a path whose first `{content}` is at `i` receives the content there, and the template's own `{content}` stays literal after the fence |
| Formatter.FirstOccurrenceOnly | src/services/content-formatter-service.ts:19-20 | only the first `{filepath}` is replaced; a second stays literally |
| Clipboard.ClipboardService.constructor | src/services/clipboard-service.ts:4-12 | the current build holds nothing and uses `{filepath}` |
| Clipboard.ClipboardService.Legacy | out/services/clipboard-service.js:39-44 | the older build holds nothing and uses `{filepath-from-the-project directory}` |
| Clipboard.ClipboardService.AddToNewClipboard | src/services/clipboard-service.ts:14-24 | the held sequence is exactly `[e]`, and the clipboard text is `formatEntry(e)` |
| Clipboard.ClipboardService.AddToExistingClipboard | src/services/clipboard-service.ts:26-39 | `e` is appended with no cap; the clipboard text is all held entries formatted in order, that is the previous text, a blank line and the new block |
| Clipboard.ClipboardService.GetCurrentClipboardContents | src/services/clipboard-service.ts:41-43 | a copy equal to the held sequence |
| Clipboard.ClipboardService.Text | src/services/clipboard-service.ts:31-33 | the text of the held entries: empty when none is held, one entry's block when one is |
| Clipboard.ClipboardService.FormatOne | src/services/clipboard-service.ts:45-52 | with no template configured and a path free of `{content}`, the path and then the content in a fenced block |
| Clipboard.LegacyDefaultRendering | out/services/clipboard-service.js:68-74 | the older build's built-in template renders like the current one, path then fenced content |
| Clipboard.GetColoredMessage | out/services/clipboard-service.js:90-101 | the three levels put `[INFO] `, `[WARNING] ` or `[ERROR] ` before the message; the message is returned unchanged exactly for any other level |
| Filter.CleanLines | src/core/services/filter-service.ts:33-34 | trimming and dropping blanks leaves only non-blank, trimmed lines, no more than there were |
| Filter.ParsePatterns | src/core/services/filter-service.ts:31-34 | every parsed pattern is non-blank, trimmed and free of newlines |
| Filter.ParseJoinedLines | src/core/services/filter-service.ts:31-34 | trimmed non-blank lines joined by newlines parse back to exactly those lines, in order |
| Filter.ParseConcat | src/core/services/filter-service.ts:31-34 | parsing keeps pattern order: the patterns of two newline-joined texts are the first's then the second's |
| Filter.BlankTextParsesEmpty | src/core/services/filter-service.ts:31-34 | text of white space only holds no pattern |
| Filter.Some | src/core/services/filter-service.ts:37-44 | `some` holds exactly when some pattern matches |
| Filter.SomeMeaning | src/core/services/filter-service.ts:37-44 | `some` holds exactly when a pattern of the list matches |
| Filter.MatchesAllowlist | src/core/services/filter-service.ts:25-45 | passes exactly when the allowlist is disabled (the default) or some parsed allow pattern (default `**/*`) matches |
| Filter.MatchesBlocklist | src/core/services/filter-service.ts:47-66 | blocks exactly when the blocklist is enabled (the default) and some parsed block pattern matches |
| Filter.ShouldProcessFile | src/core/services/filter-service.ts:8-23 | a processed path passed the allow stage and is not blocked; with both lists disabled every path is processed |
| Filter.ShouldProcessFileMeaning | src/core/services/filter-service.ts:8-66 | processed exactly when, with the allowlist on, some allow pattern matches and, with the blocklist on, no block pattern matches |
| Filter.AllowlistOff | src/core/services/filter-service.ts:25-29 | with the allowlist disabled (the default), only the blocklist decides |
| Filter.BlankAllowlistRejectsAll | src/core/services/filter-service.ts:31-44 | an enabled allowlist with no non-blank pattern lets nothing through |
| Filter.DefaultBlockPatterns | src/core/services/filter-service.ts:53 | the default block text is the two patterns `**/node_modules/**` and `**/.git/**` |
| Filter.UnconfiguredDecision | src/core/services/filter-service.ts:26-53 | unconfigured, every path passes the allow stage and is processed exactly when it matches neither default block pattern |
| ResourceWalker.FileEntry | src/services/resource-processor-service.ts:93-110 | an entry exactly when the filter accepts the path and the read succeeds, carrying path, text and clock |
| ResourceWalker.ChildEntries | src/services/resource-processor-service.ts:73-85 | every entry a child contributes was accepted by the filter and stamped by the clock |
| ResourceWalker.Expand | src/services/resource-processor-service.ts:73-85 | every walked entry was accepted by the filter and stamped by the clock |
| ResourceWalker.DirEntries | src/services/resource-processor-service.ts:66-91 | a directory whose listing fails gives nothing; every entry was accepted and stamped |
| ResourceWalker.RootEntries | src/services/resource-processor-service.ts:27-56 | every entry was accepted and stamped; a resource that is not a directory gives at most one entry, present exactly when accepted and readable |
| ResourceWalker.ExpandConcat | src/services/resource-processor-service.ts:73-85 | pre-order in listing order: walking two runs of siblings is walking the first, then the second |
| ResourceWalker.SubdirectoryInPlace | src/services/resource-processor-service.ts:76-78 | a subdirectory's entries stand exactly where it stands among its siblings |
| ResourceWalker.SkippedChildren | src/services/resource-processor-service.ts:70-90 | an unlistable directory or a child that is neither file nor directory contributes nothing, and its siblings are still walked |
| ResourceWalker.Fed | src/services/resource-processor-service.ts:38-44 | feeding adds at most one call per entry and nothing when the service has no space at the start |
| ResourceWalker.FedPrefix | src/services/resource-processor-service.ts:38-44 | feeding adds one `addEntry` per entry, in order, for a prefix of the rest; each was made after `hasSpace` held on the calls before it, and feeding stops early only when the service has no space |
| ResourceWalker.FedAll | src/services/resource-processor-service.ts:38-44 | while the service always has space, every entry is added |
| ResourceWalker.ResourceCalls | src/services/resource-processor-service.ts:30-60 | no entries: no call; otherwise the first entry starts a new clipboard, at most one call per further entry follows, and the last call sets the content to all entries formatted; a single file makes exactly those two calls |
| ResourceWalker.ResourceProcessor.ProcessFile | src/services/resource-processor-service.ts:93-110 | an entry exactly when the filter accepts the path and the read succeeds, stamped with the clock; a failure is caught and gives nothing |
| ResourceWalker.ResourceProcessor.ProcessDirectory | src/services/resource-processor-service.ts:66-91 | the directory loop returns the expansion of the listing, or nothing when the listing fails |
| ResourceWalker.ResourceProcessor.ProcessResource | src/services/resource-processor-service.ts:18-64 | outside a workspace nothing is returned and no call is made; otherwise the walked entries are returned, the first starts a new clipboard, the rest are fed until full, and the content set is all of them formatted (nothing when there are none) |
| LegacyWalker.FileSnippet | out/services/file-processor.js:82-95 | a snippet with path and text exactly when the read succeeds, no timestamp |
| LegacyWalker.Then | out/services/file-processor.js:67-79 | an abandoned step abandons the walk; otherwise the snippets are concatenated in order |
| LegacyWalker.ChildWalk | out/services/file-processor.js:68-78 | an unlistable directory abandons the walk; a file gives at most one snippet; anything else gives none |
| LegacyWalker.RootWalk | out/services/file-processor.js:42-63 | a resource that is not a directory gives one snippet exactly when readable; a directory walk is abandoned exactly when it or a directory below cannot be listed |
| LegacyWalker.AbortsIffUnlistable | out/services/file-processor.js:66 | the walk is abandoned exactly when some directory below cannot be listed |
| LegacyWalker.Expand | out/services/file-processor.js:64-81 | the children's walks in listing order; `AbortsIffUnlistable` and `MatchesUnfilteredWalk` state when it is abandoned and what it yields |
| LegacyWalker.MatchesUnfilteredWalk | out/services/file-processor.js:64-95 | when not abandoned, the older walk yields what the filtered walk yields with an accept-all filter, minus timestamps |
| LegacyWalker.WalkStep | out/services/file-processor.js:67-79 | one loop step: a failing child abandons the walk, otherwise its snippets are added |
| LegacyWalker.FileProcessor.ProcessFile | out/services/file-processor.js:82-95 | a read failure is caught and gives nothing |
| LegacyWalker.FileProcessor.ProcessChild | out/services/file-processor.js:68-78 | a directory is walked, a file processed, anything else passed over |
| LegacyWalker.FileProcessor.ProcessDirectory | out/services/file-processor.js:64-81 | the loop returns the expansion of the listing; a listing failure here or below abandons it |
| LegacyWalker.FileProcessor.ProcessResource | out/services/file-processor.js:42-63 | outside a workspace nothing; a directory is walked; anything else is processed as one file |
| PatternWalker.FileOutcome | src/services/file-processor.ts:13-34 | a read failure is a failure that sends nothing; otherwise exactly one stamped entry |
| PatternWalker.KeptMeaning | src/services/file-processor.ts:49-55 | a child is kept exactly when some allowlist pattern matches its path and no blocklist pattern does |
| PatternWalker.ChildOutcome | src/services/file-processor.ts:45-61 | a child the patterns skip contributes nothing and no failure; a kept unlistable directory fails with nothing sent; a kept non-directory fails exactly when unreadable and sends at most one entry |
| PatternWalker.DirOutcome | src/services/file-processor.ts:36-68 | a listing failure fails with nothing sent; with no allowlist pattern a listed directory sends nothing and does not fail |
| PatternWalker.Then | src/services/file-processor.ts:44-67 | a failure stops the walk; otherwise what is sent is concatenated in order |
| PatternWalker.ChildKept | src/services/file-processor.ts:49-55 | everything a child sends passed the pattern lists |
| PatternWalker.ExpandKept | src/services/file-processor.ts:49-58 | everything a walk sends passed the pattern lists: a skipped directory prunes its subtree |
| PatternWalker.Expand | src/services/file-processor.ts:44-67 | the children in listing order, stopping at the first failure; `ExpandKept`, `ExpandConcat` and `SkippedSubtree` state its properties |
| PatternWalker.ExpandConcat | src/services/file-processor.ts:44-67 | walking two runs of siblings is walking the first and, only if it did not fail, the second |
| PatternWalker.SkippedSubtree | src/services/file-processor.ts:52-55 | a skipped child contributes nothing, whatever lies below it |
| PatternWalker.EmptyAllowlistSkipsAll | src/services/file-processor.ts:49-55 | with no allowlist pattern nothing is sent and nothing fails |
| PatternWalker.KeptChild | src/services/file-processor.ts:57-61 | a kept directory is walked; any other kept child is processed as a file |
| PatternWalker.WalkStep | src/services/file-processor.ts:44-62 | one loop step: a failing child ends the walk with what it sent, otherwise its entries are added |
| PatternWalker.AddCallsOrder | src/services/file-processor.ts:28 | each sent entry is one `addToClipboard` call, in order |
| PatternWalker.AddCalls | src/services/file-processor.ts:28 | the `addToClipboard` calls for a run of entries; `AddCallsOrder` and `AddCallsConcat` state their order |
| PatternWalker.AddCallsConcat | src/services/file-processor.ts:44-61 | sending two runs is sending the first, then the second |
| PatternWalker.FileProcessor.ProcessFile | src/services/file-processor.ts:13-34 | the entry is sent; a failed read is rethrown with nothing sent |
| PatternWalker.FileProcessor.ProcessChild | src/services/file-processor.ts:45-61 | a child is skipped unless kept, then walked or processed |
| PatternWalker.FileProcessor.ProcessDirectory | src/services/file-processor.ts:36-68 | a listing failure is rethrown; otherwise the children are processed |
| PatternWalker.FileProcessor.ProcessChildren | src/services/file-processor.ts:44-67 | the calls made are exactly the walk's entries in traversal order, and the first failure is rethrown with the entries already sent kept |
| Strings.ReplaceFirst | src/services/content-formatter-service.ts:19-21 | `replace` with a string pattern: only the first occurrence is replaced and the rest is kept; no occurrence, no change |
| Strings.ReplaceLeading | src/services/content-formatter-service.ts:19-21 | a leading copy of the pattern is replaced and all that follows, later copies included, is kept |
| Strings.IndexOf | src/services/content-formatter-service.ts:19-21 | the first index where the pattern occurs, or none exactly when it is absent |
| Strings.Split | src/core/services/filter-service.ts:32 | `split` on one character: at least one piece, none containing the separator |
| Strings.SplitJoin | src/core/services/filter-service.ts:32 | splitting undoes joining when no part holds the separator |
| Strings.Join | src/services/content-formatter-service.ts:10 | no parts give the empty text, one part is itself |
| Strings.JoinConcat | src/services/content-formatter-service.ts:10 | joining two non-empty runs puts one separator between their joins |
| Strings.Trim | src/core/services/filter-service.ts:33 | `trim`: the result is no longer than the input, has no white space at either end, and holds only characters of the input (`TrimSlice` states that it is the input less its leading and trailing white space) |
| Strings.TrimSlice | src/core/services/filter-service.ts:33 | `trim` returns a slice `s[i..j]` of its input with only white space before `i` and after `j` |
| Strings.TrimIdempotent | src/core/services/filter-service.ts:33 | trimming twice is trimming once |
| Strings.NatToStringRoundTrip | src/core/services/list-service.ts:38 | reading back the decimal text of a number gives the number |
| Strings.NatToStringInjective | src/core/services/list-service.ts:38 | distinct clock readings give distinct ids |
| Version.Number | scripts/version.js:17 | `Number`: blank text is 0, digits are their value, never `undefined` |
| Version.Plus1 | scripts/version.js:21-25 | `+ 1` on a number adds one; anything else gives `NaN` |
| Version.Components | scripts/version.js:17 | one value per dot-separated piece, each read with `Number` |
| Version.ComponentsOfText | scripts/version.js:17 | a numeric version reads back as its three components |
| Version.IncrementVersion | scripts/version.js:16-28 | whatever the input, the next version has exactly three dot-separated parts (in the script this holds while every component is below 10^21, where JavaScript starts printing numbers in exponent form) |
| Version.Bump | scripts/version.js:19-27 | `major` gives parts (major+1, 0, 0), `minor` gives (major, minor+1, 0), any other type (major, minor, patch+1), each printed as JavaScript prints it |
| Version.IncrementNumeric | scripts/version.js:16-28 | a numeric version is bumped component-wise, the type defaulting to `patch` |
| Version.BumpMajor | scripts/version.js:20-21 | `major` gives `(major+1).0.0` |
| Version.BumpMinor | scripts/version.js:22-23 | `minor` gives `major.(minor+1).0` |
| Version.BumpPatch | scripts/version.js:16-26 | `patch`, an omitted type or any other type gives `major.minor.(patch+1)` |
| Version.BumpIncreases | scripts/version.js:17-27 | for every type the next version is numeric and strictly after the current one in (major, minor, patch) order (in the script this holds only for components JavaScript stores exactly, that is below 2^53) |
| Version.MissingComponents | scripts/version.js:17-26 | a version with only a major part bumps to text holding `undefined` and `NaN` |
| Version.LatestVersion | scripts/version.js:5-14 | no tag gives `0.1.0`; otherwise the trimmed output with its first `v` removed, wherever it is, and unchanged when it holds no `v` |
| Version.TagPrefixRemoved | scripts/version.js:8-9 | a tag `v` + version gives the version |
| Version.FirstVOnly | scripts/version.js:9 | a worked instance of the first-`v` rule: `1.0.0-dev` gives `1.0.0-de` |

## Left out

- Logging, the output channel, notifications and the tree-item rendering (icons, labels, locale-formatted dates) are presentation only. So are the legacy `getTreeItem`/`getChildren`/`getParent` of `out/services/list-service.js`.
- Command registration and the host UI (`src/extension.ts`, `out/extension.js`) only sequence calls.
- The glob semantics of minimatch are a foreign library. The matcher is a parameter.
- Byte decoding is not modelled. Contents are decoded text. The model therefore does not capture that `Uint8Array.toString()` in `src/services/file-processor.ts:24` gives comma-separated byte values rather than the file's text.
- The special `$&`, `$$` and `` $` `` patterns of `String.prototype.replace` are not modelled. The model assumes paths and contents hold no `$` replacement pattern, so `Strings.ReplaceFirst` inserts the replacement as it is.
- `Date.now()` and `uuid.v4()` are parameters. A uuid is assumed fresh only in the sense that the model takes it as given.
- The persisted list service's load is started without `await` in its constructor. The model takes it as finished before any other call; the race is a concurrency issue.
- The persisted list service's writes are not awaited against each other. The model runs each save to completion.
- Lists are values in the map. The source updates the list object the map holds in place, and any other holder of that object sees the change. That aliasing is not modelled.
- `removeEntryFromList` with a non-integer index (fractional or `NaN`) is not modelled: the model's index is an integer. A `NaN` index passes both range tests and `splice(NaN, 1)` removes entry 0.
- `Storage.StorageService.LoadLists`: a stored value that is not an array of lists, which the source's `catch` turns into an empty map, is not modelled. The global state here always holds arrays of lists.
- `stat` failures in `processResource` are not modelled. The root's kind is given by the tree.
- A filter failure inside `processFile` of `src/services/resource-processor-service.ts` is not modelled. The filter is a total function.
- `Version.Number` reads only blank text and decimal digits. Hexadecimal, exponent, sign and `Infinity` texts read as `NaN` here, unlike JavaScript. A run of digits reads as its exact, unbounded integer value. JavaScript's rounding to a double is not modelled: above 2^53, `9007199254740992 + 1` prints `9007199254740992`. Its exponent-form printing from 10^21 up, such as `1.2345678901234568e+22`, is not modelled either, and that form holds a dot.
- `Version.BumpIncreases`: holds in the script only for components below 2^53, which JavaScript stores exactly. The model, with unbounded integers, proves it for all components.
- `Version.IncrementVersion`: its three-part guarantee holds in the script only while every printed component is below 10^21. The model prints every number in plain decimal.
- `updatePackageVersion` and the `execSync` and file I/O of `scripts/version.js` (lines 30-54) are not modelled. `git describe` is an `Option<string>` parameter of `Version.LatestVersion`.
- The clipboard methods the resource processor, both list services and the pattern walker call (`startNewClipboard`, `hasSpace`, `addEntry`, `setContent`, `addToClipboard`) are defined in no file of this model: `src/services/clipboard-service.ts` lacks them and `src/core/services/clipboard-service.ts` is not part of this model. `Sink.ClipboardSink` records the calls; what the clipboard then holds, and when it is full, is not modelled beyond `hasSpace` as a function of those calls.
- `src/services/filter-service.ts` and `src/core/services/content-formatter-service.ts` are not part of this model. The resource walker's filter is the `accept` parameter. The persisted list service formats with `Formatter.FormatEntries`.
- `ResourceWalker.ResourceProcessor.ProcessFile` is called only with the relative path the file service computes. Path computation (`asRelativePath`, `path.relative`) is given data in the tree.
- `PatternWalker.FileProcessor.ProcessFile` does not pass on the unused `_format` argument.
- The `clipboardService.log` calls of `out/services/file-processor.js` are logging and are not modelled.
