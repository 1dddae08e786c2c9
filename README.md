# DMS plugin for Obsidian: a Dafny model

The DMS plugin keeps a catalogue of external links inside an Obsidian vault.
Each entry holds a path or URL with a title, category, audience, tags and notes.
Each entry can be mirrored as a markdown "proxy note" in a folder of the vault.
This project models the plugin's core logic in Dafny and proves properties of
that model. It covers:

- **Path sanitiser** (`src/utils.ts`, module `PathSanitizer`). Backslashes become
  slashes. A run of slashes after any character but `:` becomes one slash; a
  run after a `:` keeps at most two, so `://` survives. `%`, whitespace and
  parentheses are percent-encoded, in that order. The model proves:
  - the four passes equal a one-character-at-a-time escape, and a decoder reads
    that escape back;
  - the output holds no backslash, whitespace or parenthesis;
  - every `//` left in the output starts it or follows a `:`;
  - every `%` in the output starts an escape.
- **Proxy-note manager** (`src/ProxyNoteManager.ts`, module `ProxyNotes`). This
  covers the note's file name (`[^a-zA-Z0-9]` becomes `_`, then `.md` is
  added), the front-matter template and its default values, and the manager's
  folder, which can be changed. The template is read back line by line. Name
  collisions are characterised exactly over the model's characters (Unicode
  scalar values, see "Left out").
- **External-link service** (`src/ExternalLinkService.ts`, module `LinkService`).
  These are the link list (add, edit, delete, get, search, find), the proxy note
  written for each link, the way `openExternalFile` picks its target, and the
  tag loop of `addNewTag`. JavaScript's `splice` and `find` are modelled
  exactly, and so is index assignment except a negative index or one past
  the end of the array (module `Seqs`; see "Left out"). The two folders are fields of the shared settings object,
  which the settings tab changes at run time.
- **Panel plugin** (`main.ts`, module `PanelPlugin`). This is the same link list
  plus a six-field search and the tag set of `getAllTags`, which is insertion
  ordered and gathers link tags and vault tags. It also covers how the forms
  parse comma-separated lists (`split(',').map(trim)`, module `Strings`).
- **Bundled plugin** (`main.js`, module `BundlePlugin`). This part covers:
  - links whose metadata is parsed JSON, and add/edit handlers that leave the
    list alone when parsing fails;
  - the timestamped name of a new note;
  - the combined note-and-link search, including the exceptions that
    `Object.values(...).some(v => v.toLowerCase()...)` raises on metadata that
    is not a string.

The vault is a class holding a map from path to text (module `Vaults`).
`vault.create` refuses an existing path. JavaScript strings are `seq<char>`.
`toLowerCase` is ASCII lower-casing. `\s` and `trim()` use ECMAScript's
whitespace set. `JSON.parse` is a parameter that returns `None` where it
throws. The clock is a `LocalTime` parameter, and so is the active workspace
leaf. The per-file tag lists of the metadata cache are a parameter too.

The change handlers at src/ProxyNoteManager.ts:44-60 only show notices, so
the model has nothing to say about edited proxy notes.

## Model

| member | source | states |
|---|---|---|
| PathSanitizer.CollapseSlashes | src/utils.ts:7 | The collapse never lengthens the path and keeps its first character. |
| PathSanitizer.DropSlashRunSlashes | src/utils.ts:7 | The `\/+` of the pattern consumes a whole run of slashes and nothing after it. |
| PathSanitizer.CollapseRun | src/utils.ts:7 | A run of one or more slashes after a character other than `:` becomes exactly one slash; the rest is collapsed in turn. |
| PathSanitizer.CollapseColonRun | src/utils.ts:7 | After a `:`, a run of `k` slashes keeps `min(k, 2)` of them, since the match starts at the run's first slash; the rest is collapsed in turn. |
| PathSanitizer.CollapseKeepsFirst | src/utils.ts:7 | A character not followed by a collapsible run is kept, and the scan goes on after it. |
| PathSanitizer.CollapseExampleName | src/utils.ts:7 | `a//b` becomes `a/b`. |
| PathSanitizer.CollapseExampleColon | src/utils.ts:7 | `:///` becomes `://`. |
| PathSanitizer.CollapseCanonical | src/utils.ts:6-7 | After collapsing, every `//` that does not start the string follows a `:`. |
| PathSanitizer.CanonicalUnchanged | src/utils.ts:7 | A string already in that form is left unchanged. |
| PathSanitizer.CollapseIdempotent | src/utils.ts:7 | Collapsing twice equals collapsing once. |
| PathSanitizer.CollapseKeepsOtherCharacters | src/utils.ts:7 | Collapsing keeps every character other than `/`, in order. |
| PathSanitizer.CollapseMembers | src/utils.ts:7 | A character other than `/` occurs after collapsing exactly when it occurs before. |
| PathSanitizer.SlashNormalizedChars | src/utils.ts:5-7 | After the first two rewrites there is no backslash, and every character is `/` or comes from the input. |
| PathSanitizer.EncodeOneChar | src/utils.ts:9-12 | On one character, the four passes give that character's escape, and no pass rewrites an earlier pass's output. |
| PathSanitizer.EncodeIsEscape | src/utils.ts:9-12 | The four sequential global replacements equal the per-character escape. |
| PathSanitizer.DecodeEscape | src/utils.ts:9-12 | Decoding the escape gives the input back, with every whitespace character read as a space. |
| PathSanitizer.EscapeRemovesSpecials | src/utils.ts:10-12 | The escape holds no whitespace or parenthesis, and its other characters come from the input. |
| PathSanitizer.EscapePercents | src/utils.ts:9-12 | Every `%` in the escape starts `%25`, `%20`, `%28` or `%29`. |
| PathSanitizer.EscapeCanonical | src/utils.ts:9-12 | Escaping keeps the slash form that collapsing produced. |
| PathSanitizer.SanitizeRemovesSpecials | src/utils.ts:3-13 | `sanitizeFilePath` output holds no backslash, whitespace or parenthesis. |
| PathSanitizer.SanitizeCollapsesSlashes | src/utils.ts:3-13 | In the output every `//` after the start follows a `:`, and no three slashes appear in a row. |
| PathSanitizer.SanitizeEscapesPercent | src/utils.ts:9-12 | Every `%` in the output starts one of the four escapes. |
| PathSanitizer.SanitizeDecodes | src/utils.ts:3-13 | Decoding the output gives the slash-normalised path, with whitespace read as spaces. |
| PathSanitizer.SanitizeRoundTrip | src/utils.ts:3-13 | When the only whitespace in the path is ' ', decoding gives back exactly the slash-normalised path. |
| PathSanitizer.SanitizeKeepsPlainPath | src/utils.ts:3-13 | A path with no special character whose every `//` starts it or follows a `:` (such as `https://x`) passes through unchanged. |
| ProxyNotes.SlugStemShape | src/ProxyNoteManager.ts:64 | The stem has the title's length; ASCII letters and digits stay and every other character becomes `_`. |
| ProxyNotes.SlugStemAlphabet | src/ProxyNoteManager.ts:64 | The stem holds only `[A-Za-z0-9_]`. |
| ProxyNotes.SlugStemIdempotent | src/ProxyNoteManager.ts:64 | Applying the rule to a stem changes nothing. |
| ProxyNotes.ProxyFileNameCollides | src/ProxyNoteManager.ts:62-65 | Two titles get the same file name exactly when they have equal length and agree wherever either has a letter or digit. |
| ProxyNotes.ProxyFileNameFacts | src/ProxyNoteManager.ts:62-65 | The name ends in `.md` and is three characters longer than the title. "a b" and "a-b" collide. |
| ProxyNotes.ContentStartsWithTitle | src/ProxyNoteManager.ts:69-70 | The note text starts with the front-matter fence and the title line. |
| ProxyNotes.ContentHasLine | src/ProxyNoteManager.ts:67-91 | Every line of the template occurs in the text. |
| ProxyNotes.ContentHasLink | src/ProxyNoteManager.ts:71-77 | The link appears in the front matter and as the target of the open-link line. |
| ProxyNotes.ContentDefaults | src/ProxyNoteManager.ts:80-89 | An empty or zero field renders its default: `Unknown`, `No summary available.` or `No notes available.`. |
| ProxyNotes.ContentEmptyTags | src/ProxyNoteManager.ts:72 | Absent tags leave the tags line empty after `tags: `. |
| ProxyNotes.ContentLinesRoundTrip | src/ProxyNoteManager.ts:67-91 | When no field spans lines, splitting the text at newlines gives exactly the template's 22 lines. The last line is empty. |
| ProxyNotes.ProxyNoteManager.UpdateProxyNotesPath | src/ProxyNoteManager.ts:12-14 | The folder is replaced. From then on, the proxy-note test and the target path use the new folder. The vault is unchanged. |
| ProxyNotes.ProxyNoteManager.CreateProxyNote | src/ProxyNoteManager.ts:20-32 | If a file exists at the target path, the call fails with the vault's error and the vault is unchanged. Otherwise the rendered note is written there and its path returned. |
| ProxyNotes.ProxyNoteManager.UpdateProxyNote | src/ProxyNoteManager.ts:34-42 | The note's text is replaced by the rendered template. Nothing else changes. |
| ProxyNotes.TargetPathFacts | src/ProxyNoteManager.ts:22 | The path starts with the folder and ends with the file name. An empty folder gives the bare file name; otherwise a `/` follows the folder. |
| ProxyNotes.ProxyNotePrefixTest | src/ProxyNoteManager.ts:16-18 | With an empty folder every file counts as a proxy note. With "DMS", "DMS2/x.md" counts too. |
| ProxyNotes.CreatedNoteIsProxyNote | src/ProxyNoteManager.ts:16-22 | The path a created note gets passes the proxy-note test. |
| LinkService.LinkNotePathFacts | src/ExternalLinkService.ts:106-107 | The link's note is the slugged title plus `.md`, behind `/` in the proxy-notes folder. The `/` is there even when the folder is empty. |
| LinkService.LinkNoteEndsWithLinkLine | src/ExternalLinkService.ts:108-118 | The note text ends with the open-link line and no newline after it. |
| LinkService.LinkNoteRoundTrip | src/ExternalLinkService.ts:108-118 | When no field spans lines, splitting the text at newlines gives the template's lines. |
| LinkService.ExternalLinkService.GetExternalLink | src/ExternalLinkService.ts:42-44 | Inside the list the call gives the entry at that index. Outside it gives `undefined`. |
| LinkService.ExternalLinkService.CreateProxyNote | src/ExternalLinkService.ts:105-131 | Whether the note exists or not, afterwards the vault holds the rendered text at the note's path, and nothing else changes. |
| LinkService.ExternalLinkService.AddExternalLink | src/ExternalLinkService.ts:46-50 | The link is appended and its proxy note written. |
| LinkService.ExternalLinkService.EditExternalLink | src/ExternalLinkService.ts:52-56 | The list changes as JavaScript `a[i] = x` does: replace in range, append at the length, no change for a negative index. The note of the updated link is written. |
| LinkService.ExternalLinkService.DeleteExternalLink | src/ExternalLinkService.ts:58-61 | The list changes as `splice(index, 1)` does, counting a negative index from the end. The vault is unchanged. |
| LinkService.ExternalLinkService.SearchExternalLinks | src/ExternalLinkService.ts:63-71 | The result is the subsequence of links whose title, category, a tag or an audience entry contains the lower-cased query. It holds every matching occurrence and nothing else. |
| LinkService.ExternalLinkService.FindExternalLinkByTitle | src/ExternalLinkService.ts:73-75 | The result is the first link with exactly that title, or nothing when no link has it. |
| LinkService.ExternalLinkService.OpenExternalFile | src/ExternalLinkService.ts:77-103 | When the first link with that path has its note under the default folder, that note opens, or a notice shows when no leaf is active. The opened path is exactly that link's note path. Otherwise a web address opens in the browser and any other path opens as `file://` plus the sanitised path. |
| LinkService.ExternalLinkService.SetProxyNotesFolder | src/DMSSettingTab.ts:25-27 | The shared proxy-notes setting takes the new value, which every later note path of the service reads; nothing else changes. |
| LinkService.ExternalLinkService.SetDefaultFolder | src/DMSSettingTab.ts:36-38 | The shared default-folder setting takes the new value, which every later `openExternalFile` reads; nothing else changes. |
| LinkService.ExternalLinkService.AddNewTag | src/ExternalLinkService.ts:168-175 | Every link lacking the tag gets it appended. The vault afterwards holds, in list order, the re-rendered notes of exactly those links. |
| LinkService.SearchEmptyQuery | src/ExternalLinkService.ts:63-71 | The empty query returns the whole list. |
| LinkService.SearchIgnoresPathAndNotes | src/ExternalLinkService.ts:65-70 | Path and notes take no part in the search. |
| LinkService.SearchIgnoresCase | src/ExternalLinkService.ts:64-69 | Lower-casing the query, the title, or every searched field at once does not change the outcome. |
| LinkService.SearchSeesOnlyLowerCase | src/ExternalLinkService.ts:65-70 | Two links whose title, category, tags and audience agree after lower-casing match exactly the same queries. |
| LinkService.TagAllEveryLinkTagged | src/ExternalLinkService.ts:169-174 | After the loop every link carries the tag exactly once. Links that had it are unchanged, and the others get it at the end. |
| LinkService.TagAllIdempotent | src/ExternalLinkService.ts:169-174 | Adding the same tag again changes nothing. |
| LinkService.RenderTaggedWritesOnlyChangedNotes | src/ExternalLinkService.ts:169-174 | Only the notes of links that gain the tag are written. Every other path keeps its text. |
| LinkService.RenderTaggedNoChange | src/ExternalLinkService.ts:169-174 | When every link already has the tag, neither links nor vault change. |
| LinkService.TaggedNoteMentionsTag | src/ExternalLinkService.ts:112 | The re-rendered note's tags line lists the new tag set. |
| LinkService.OpenFileTargetIsClean | src/ExternalLinkService.ts:98-99 | A file target, before `encodeURI`, has the `file://` scheme and no backslash, whitespace or parenthesis. |
| LinkService.OpenUnknownPath | src/ExternalLinkService.ts:93-102 | A path no link has skips the note lookup and opens directly. |
| PanelPlugin.DmsPanelPlugin.constructor | main.ts:22-30 | The link list starts empty, and the settings start at the default categories, audiences and folder. |
| PanelPlugin.DmsPanelPlugin.AddExternalLink | main.ts:94-97 | The link is appended; earlier entries are unchanged. |
| PanelPlugin.DmsPanelPlugin.EditExternalLink | main.ts:99-102 | The list changes as `a[i] = x` does: only entry `index` is replaced. |
| PanelPlugin.DmsPanelPlugin.DeleteExternalLink | main.ts:104-107 | The list changes as `splice(index, 1)` does: only that entry is removed and the rest keep their order. |
| PanelPlugin.DmsPanelPlugin.SearchExternalLinks | main.ts:178-187 | The result is the subsequence of links where the lower-cased query occurs in the title, path, category, an audience entry, a tag or the notes, with every matching occurrence kept. |
| PanelPlugin.DmsPanelPlugin.GetAllTags | main.ts:124-134 | The nested loops give the distinct tags of all links and then all vault files, each without its first character, in order of first occurrence. |
| PanelPlugin.DmsPanelPlugin.SetCategories | main.ts:379-381 | The categories become the comma-split, trimmed text. |
| PanelPlugin.DmsPanelPlugin.SetAudiences | main.ts:390-392 | The audiences become the comma-split, trimmed text. |
| PanelPlugin.AllTagsFacts | main.ts:124-134 | The tag list has no duplicates. It holds exactly the link tags and the vault tags with their leading `#` dropped, and it begins with the distinct link tags. |
| PanelPlugin.SearchEmptyQuery | main.ts:178-187 | The empty query returns every link. |
| PanelPlugin.SearchFindsPathAndNotes | main.ts:180-185 | A hit in the path or the notes is enough. |
| PanelPlugin.TagsFieldRoundTrip | main.ts:328-330 | The tags field shows `join(', ')` and parses with `split(',').map(trim)`. A non-empty list of trimmed, comma-free tags survives that round trip. |
| PanelPlugin.EmptyTagsFieldRoundTrip | main.ts:328-330 | An empty tag list comes back as `[""]`. |
| Strings.ParseCommaList | main.ts:330 | Parsing gives one item per comma plus one. No item holds a comma, and no item begins or ends with whitespace. |
| Strings.ParseCommaListJoin | main.ts:379-381 | Joining a non-empty list of trimmed, comma-free items with ", " and parsing gives the list back. |
| Strings.Trim | main.ts:330 | `trim()` gives the slice of the input that neither starts nor ends with whitespace, with only whitespace cut away. |
| Seqs.Filter | src/ExternalLinkService.ts:65 | `filter` gives the subsequence of accepted elements with every accepted occurrence, which determines it. |
| Seqs.Find | src/ExternalLinkService.ts:74 | `find` gives the first accepted element, or nothing when none is accepted. |
| Seqs.AssignAt | src/ExternalLinkService.ts:53 | `a[i] = x` replaces in range, appends at the length, and leaves the elements alone for a negative index. |
| Seqs.RemoveAt | src/ExternalLinkService.ts:59 | `splice(index, 1)` removes the one entry at the splice start, counting a negative index from the end. |
| Seqs.RemoveAtMultiset | main.ts:105 | Deleting an entry in range takes exactly that element out of the list. |
| Seqs.AddEach | main.ts:127 | The `forEach` into a `Set` equals adding the elements in turn to the insertion-ordered set. |
| Seqs.DistinctPrefix | main.ts:125-133 | Tags added first keep their place at the front of the set. |
| BundlePlugin.ObjectValues | main.js:166 | `Object.values` throws on `null`. It gives nothing for booleans and numbers, one-character strings for a string, the items of an array and the member values of an object. |
| BundlePlugin.ValuesSome | main.js:166 | `some(v => v.toLowerCase()...)` gives true at the first string hit, and false when every value is a string without the query. It throws a TypeError at a non-string met before any hit. |
| BundlePlugin.FilterLinks | main.js:165-167 | The filter succeeds exactly when no link's test throws, and then equals `Filter` with the link test. A throw carries that link's error. |
| BundlePlugin.PathHitNeverThrows | main.js:165 | A path hit is a hit, whatever the metadata holds. |
| BundlePlugin.StringObjectNeverThrows | main.js:165-167 | Metadata that is an object of strings never throws. The link is a hit exactly when the path, a value or a tag contains the query. |
| BundlePlugin.NullMetadataThrows | main.js:166 | `null` metadata throws as soon as the path misses. |
| BundlePlugin.NumberValueThrows | main.js:166 | A metadata value that is a number throws when the path misses. |
| BundlePlugin.NoteContainsQuery | main.js:211-216 | The promise resolves to whether the lower-cased text contains the lower-cased query. |
| BundlePlugin.NoteFilterAsWrittenIgnoresQuery | main.js:163-164 | As written, the note filter keeps exactly the notes whose path starts with the default folder, whatever the query. |
| BundlePlugin.NoteFilterAsWrittenCounterexample | main.js:163-164 | A note under "DMS" whose name and text lack "zz" is kept as written, and dropped once the promise is awaited. |
| BundlePlugin.NoteMatchesMeaning | main.js:163-164 | With the promise awaited, a note matches exactly when it is under the folder and its name or its text contains the query. |
| BundlePlugin.NewNoteNameFields | main.js:118 | For a four-digit year the name is `YYYYMMDD-hhmmss-untitled.md`. Every field reads back from its two zero-padded digits, and the month is 1-based. |
| BundlePlugin.NewNoteNameInjective | main.js:118 | Moments with four-digit years that differ somewhere down to the second get different names. |
| BundlePlugin.NewNoteNameShortYear | main.js:118 | The year is not padded: a one-digit year gives a 24-character name. |
| BundlePlugin.NewNotePathFacts | main.js:119 | The note lies directly in the default folder and its path ends in `-untitled.md`. |
| BundlePlugin.AllTagsFacts | main.js:179-183 | The tag list has no duplicates and holds exactly the tags of the links. |
| BundlePlugin.DmsBundlePlugin.CreateNewNote | main.js:115-121 | An empty note is created at the timestamped path and the path returned. If a file is already there, the call fails and the vault is unchanged. |
| BundlePlugin.NewLink | main.js:136-140 | The link object is built exactly when the metadata field is set and parses and the tags field is set. It then carries the parsed metadata and the comma-split, trimmed tags. |
| BundlePlugin.PrefilledFormRebuildsLink | main.js:248-252 | Submitting the edit form as it was filled in from a link rebuilds that link, when `JSON.parse` undoes `JSON.stringify` and the tags are non-empty, trimmed and comma-free. |
| BundlePlugin.DmsBundlePlugin.AddExternalLink | main.js:133-150 | If the metadata field is unset or does not parse, or the tags field is unset, the list is unchanged. Otherwise one link is appended, carrying the parsed metadata and the comma-split, trimmed tags. |
| BundlePlugin.DmsBundlePlugin.EditExternalLink | main.js:185-202 | Entry `index` is replaced, as `a[i] = x` does, exactly when the link object is built without a throw. Otherwise the list is unchanged. |
| BundlePlugin.DmsBundlePlugin.SetDefaultFolder | main.js:386-389 | The default-folder setting takes the new value, which later note creation and searches read; nothing else changes. |
| BundlePlugin.DmsBundlePlugin.DeleteExternalLink | main.js:204-210 | The list changes as `splice(index, 1)` does: the rest keep their order. |
| BundlePlugin.DmsBundlePlugin.GetAllTags | main.js:179-183 | The loop gives the distinct tags of all links, in order of first occurrence. |
| BundlePlugin.DmsBundlePlugin.PerformSearch | main.js:161-170 | With the note test awaited, the search gives the matching notes and then the matching links, each in order. It throws exactly when some link's metadata test throws. |
| BundlePlugin.SearchHitsMatch | main.js:161-170 | A search hit is exactly a matching note under the folder or a matching link. |

## Findings

| source | as written | input that shows it | evidently intended | confidence | as-written member | corrected member |
|---|---|---|---|---|---|---|
| main.js:163-164 | `performSearch` filters notes with `... \|\| this.noteContainsQuery(file, query)`, an async call that returns a Promise. The Promise is not awaited and is always truthy, so every note under the default folder is kept, whatever the query. | the file "DMS/a.md" with basename "a" and empty text, searched for "zz" with default folder "DMS", is returned | keep only the notes under the folder whose name or text contains the query | not executed; high (an unawaited Promise is an object, and every object is truthy) | BundlePlugin.NoteFilterAsWrittenCounterexample | BundlePlugin.SearchHitsMatch |

`BundlePlugin.NoteFilterAsWrittenIgnoresQuery` proves the as-written behaviour for every input. `BundlePlugin.DmsBundlePlugin.PerformSearch` uses the corrected test `BundlePlugin.NoteMatches`.

## Left out

- All UI: modals, views, setting tabs, notices, ribbon icons and commands. This includes `searchDMS`, `DMSMenuModal`, `ListNotesModal`, `src/DMSView.ts`, `src/AddExternalLinkModal.ts` and both setting tabs. Only the list parsing of their text fields and the folder settings they write are modelled.
- Persistence: `loadData`/`saveData`, `loadExternalLinks`, `saveExternalLinks`, `initializeExternalLinksFile`, `ensureDefaultFolderExists` and `createFolder`. These are I/O. The model assumes that saving succeeds and changes no modelled state.
- Async interleavings. `saveExternalLinks` and `createProxyNote` are called without `await` in add and edit. The model runs each call to completion, in program order.
- `child_process.exec` and `window.open` in the two `openExternalFile` methods. These are foreign calls. `LinkService.ExternalLinkService.OpenExternalFile` returns the action it would take, and it keeps `encodeURI` abstract by returning the text before encoding.
- YAML `parse`/`stringify` and the `dms-tags.md` front-matter update in both `addNewTag` methods (main.ts:136-176, src/ExternalLinkService.ts:133-166). These are a foreign library.
- LinkService.ExternalLinkService.AddNewTag: its vault postcondition covers only the proxy notes. The `dms-tags.md` file written before the loop is not part of it, for the reason above.
- The error-shaping helpers at src/utils.ts:15-38 (dynamic type inspection and `JSON.stringify`). The notices of the stub handlers at src/ProxyNoteManager.ts:44-60 are not modelled either.
- `getAllExternalLinks` (src/ExternalLinkService.ts:38-40) only returns the field and is not a separate member.
- LinkService.ExternalLinkService.EditExternalLink: requires `index <= |externalLinks|`. An index further past the end would leave holes in the JavaScript array, which a sequence cannot represent.
- PanelPlugin.DmsPanelPlugin.EditExternalLink: the same requirement, for the same reason.
- BundlePlugin.DmsBundlePlugin.EditExternalLink: the same requirement, for the same reason.
- LinkService.ExternalLinkService.EditExternalLink: a negative index leaves the list unchanged in the model. In the source, `this.externalLinks[-1] = link` creates an object property named "-1", which `getExternalLink(-1)` then returns; a sequence has no such properties, so `GetExternalLink` of a negative index stays `None`.
- PanelPlugin.DmsPanelPlugin.EditExternalLink: a negative index is likewise written as an object property in the source (main.ts:100) and leaves the sequence unchanged in the model.
- BundlePlugin.DmsBundlePlugin.EditExternalLink: a negative index is likewise written as an object property in the source (main.js:189). When no link prefills the form, that is for a negative index or one at the length, `this.externalLinks[index]` is `undefined` (main.js:186) and the form opens empty (main.js:248-252), so a path field left untouched stores `path: undefined`; the model takes the path as a string.
- Aliasing of link objects. The source pushes the tag onto each link's own `tags` array inside the list. The model replaces the list entry with the updated value; no other reference to the object exists in the modelled code.
- ProxyNotes.SlugStem: the pattern `[^a-zA-Z0-9]` has no `u` flag, so JavaScript replaces each UTF-16 code unit. A character outside the Basic Multilingual Plane, such as an emoji, gives two `_` in the source and one in the model; so "😀" and "__" collide in the source but not in the model, and `ProxyNotes.ProxyFileNameCollides` is exact only over the model's characters.
- Strings.Lower: ASCII-only, so `toLowerCase` is not modelled beyond A-Z. Strings are sequences of Unicode scalar values, not UTF-16 code units, so `Object.values` of a string and `padStart` work per character.
- BundlePlugin.ObjectValues: JSON numbers are integers, and an object's members are given in the order `Object.values` enumerates them. Integer-like keys first and duplicate keys are not modelled. Full `JSON.parse` is a parameter.
- BundlePlugin.DmsBundlePlugin.AddExternalLink: an unset path field is stored as `undefined` in the source; the model takes the path as a string, so a link whose path is missing is not represented.
- BundlePlugin.DmsBundlePlugin.PerformSearch: it models the corrected, awaited note test (see Findings). A failing `cachedRead` is not modelled.
- Folders in the vault. A folder at a note's path, and failures of `vault.modify`, are not modelled. `vault.create` fails only on an existing path.
- The metadata-cache lookup of `getAllTags` (main.ts:129-131) is a parameter: the list of cached tags of each file.
- Opening the created note in the active leaf after `createNewNote` (main.js:121-130) is UI.
- `toString` of very large or non-integer sizes (src/ProxyNoteManager.ts:83) is not modelled. Sizes are integers.
