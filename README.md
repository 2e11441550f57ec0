# Job-source list subsystem — a Dafny model

This project models the logic behind the job-source list of the Israeli
job-seeker site. A job source is a record `{id, name, url}`. The list is
edited in a draft editor, reordered by drag and drop, shown with an icon
chosen from its name, printed back as TypeScript source, stored in the
browser's local store or on a one-file backend, and managed from a
password-gated admin page. A rotating headline index sits beside it. The
model covers:

- `Wrappers`: Option and Result.
- `JobSources`: the record and the two pure list edits, delete-by-id and update-one-field-by-id.
- `JobSourceManager`: the editor's state (draft, edit mode, new-entry form) as a class whose handlers call those edits.
- `GlassIcons`:
  - `handleDragEnd` as a method that copies the item array and shifts elements in place, mirroring the two splices.
  - The colour-to-gradient lookup.
- `JsObject`: property reads on a JavaScript object literal, which also see the members of `Object.prototype`.
- `SourceIcons`: `normalizeName` and `getSourceIcon` over the icon table.
- `Text`: prefix matching, the literal escaping shared by JSON strings and TypeScript string literals, its reader, and digit runs.
- `CodeGen`:
  - `updateSourcesInCode` (bare ids) and `generateSourceCode` (quoted ids).
  - A reader for the printed array literal. With it the output is proved to read back as the input list.
- `Json`: a concrete JSON text encoding of a source list, with a decoder. The decoder accepts exactly the encoder's output.
- `LocalStore`: `saveSourcesGlobally` / `loadSourcesGlobally` over a string-to-string store under the key `jobSources`.
- `FileServer`: the Express backend's startup, `GET` and `POST /api/job-sources` over one data file.
- `Admin`: the admin page's eight state fields, the login gate, the load effect, the list hand-over and the save flags.
- `RotatingText`: the `(index + 1) % n` timer tick.

Calls into code that is not modelled become parameters:

| Call | Modelled as |
|---|---|
| the clock (`Date.now()`) | a supplied id |
| the fetch and save promises of the admin page | an outcome argument |
| whether `writeFileSync` succeeds | a flag |
| `ADMIN_PASSWORD` and the data file found at startup | constructor arguments |

The id is a `string` throughout, as in the service and the code-updater
card. The editor component declares it a number (src/components/JobSourceManager.tsx:9).

Two behaviours of the code are easy to miss:

- A stored local blob that is not valid JSON makes `loadSourcesGlobally` fail, because `JSON.parse` throws. It does not give `[]`.
- A data file that disappears after startup makes `GET` answer 500; it is not recreated.

## Model

| member | source | states |
|---|---|---|
| JobSources.JobSource.With | src/components/JobSourceManager.tsx:42 | setting one field keeps the id and the other field |
| JobSources.Without | src/components/JobSourceManager.tsx:37 | the result holds exactly the records of the input whose id differs, and is no longer |
| JobSources.WithoutCounts | src/components/JobSourceManager.tsx:37 | each record with another id keeps its multiplicity; records with the id are gone |
| JobSources.WithoutConcat | src/components/JobSourceManager.tsx:37 | the filter distributes over concatenation, so relative order is kept |
| JobSources.WithoutAbsent | src/components/JobSourceManager.tsx:37 | deleting an id not in the list changes nothing |
| JobSources.WithoutIds | src/components/JobSourceManager.tsx:37 | the ids after a delete are the ids before, minus the deleted one |
| JobSources.WithoutIdempotent | src/components/JobSourceManager.tsx:37 | deleting the same id twice is deleting it once |
| JobSources.WithoutKeepsUnique | src/components/JobSourceManager.tsx:37 | a delete keeps distinct ids distinct |
| JobSources.Updated | src/components/JobSourceManager.tsx:41-43 | same length and ids; matching records get the field set, all others are unchanged |
| JobSources.UpdatedKeepsIds | src/components/JobSourceManager.tsx:41-43 | an update keeps the id set, and keeps ids distinct |
| JobSources.UpdatedAbsent | src/components/JobSourceManager.tsx:41-43 | updating an id not in the list changes nothing |
| JobSources.DeleteAfterUpdate | src/components/JobSourceManager.tsx:37-43 | an update of an id is lost when that id is deleted afterwards |
| JobSources.AppendUnique | src/components/JobSourceManager.tsx:26-31 | appending keeps ids distinct exactly when the new id is fresh |
| JobSourceManager.Manager.constructor | src/components/JobSourceManager.tsx:20-22 | the draft starts as the prop, not editing, empty form |
| JobSourceManager.Manager.ReceiveSources | src/components/JobSourceManager.tsx:19-21 | a new prop does not reset the draft, mode or form |
| JobSourceManager.Manager.SetNewName | src/components/JobSourceManager.tsx:78 | typing a name sets the form's name and nothing else |
| JobSourceManager.Manager.SetNewUrl | src/components/JobSourceManager.tsx:83 | typing a url sets the form's url and nothing else |
| JobSourceManager.Manager.HandleAddSource | src/components/JobSourceManager.tsx:24-34 | with both fields non-empty: appends exactly one record with the clock id and clears the form; otherwise nothing changes |
| JobSourceManager.Manager.HandleDeleteSource | src/components/JobSourceManager.tsx:36-38 | the draft becomes the delete of the old draft |
| JobSourceManager.Manager.HandleUpdateSource | src/components/JobSourceManager.tsx:40-44 | the draft becomes the update of the old draft |
| JobSourceManager.Manager.HandleSave | src/components/JobSourceManager.tsx:46-49 | emits exactly the current draft and leaves edit mode |
| JobSourceManager.Manager.HandleCancel | src/components/JobSourceManager.tsx:51-55 | the draft is restored to the prop, edit mode is left, the form is cleared |
| JobSourceManager.Manager.ToggleEditing | src/components/JobSourceManager.tsx:63 | flips edit mode only; the draft is kept |
| JobSourceManager.EditKeepsUnique | src/components/JobSourceManager.tsx:24-44 | update, delete and an add with an unused clock value keep the draft's ids distinct |
| GlassIcons.Remove | src/components/reactbits/GlassIcons.tsx:56 | one element shorter: the elements before the index stay, the ones after it move down one place |
| GlassIcons.Insert | src/components/reactbits/GlassIcons.tsx:57 | one element longer: the new element sits at the index, the ones before stay, the ones from it on move up one place |
| GlassIcons.Moved | src/components/reactbits/GlassIcons.tsx:55-57 | a move keeps the length; the lemmas below state where each element ends up |
| GlassIcons.MovedAt | src/components/reactbits/GlassIcons.tsx:56-57 | the dragged element lands at the destination index |
| GlassIcons.MovedKeepsOthers | src/components/reactbits/GlassIcons.tsx:56-57 | without the moved element, the result is the input without it: others keep their order |
| GlassIcons.MovedIsPermutation | src/components/reactbits/GlassIcons.tsx:55-57 | the reordered list is a permutation of the input |
| GlassIcons.MovedInPlace | src/components/reactbits/GlassIcons.tsx:56-57 | dropping at the source index gives the input back |
| GlassIcons.MovedBack | src/components/reactbits/GlassIcons.tsx:56-57 | dragging back from the destination to the source undoes a move |
| GlassIcons.SpliceOut | src/components/reactbits/GlassIcons.tsx:56 | the removed element is the one at the source index, and the array's first n-1 slots hold the list without it |
| GlassIcons.SpliceIn | src/components/reactbits/GlassIcons.tsx:57 | the array holds the shortened list with the element inserted at the destination index |
| GlassIcons.HandleDragEnd | src/components/reactbits/GlassIcons.tsx:53-59 | nothing is emitted iff there is no destination or no callback; otherwise the emitted list is the input with one element moved, and the input array is not modified |
| GlassIcons.BackgroundStyleAsWritten | src/components/reactbits/GlassIcons.tsx:28-51 | a mapped colour gives its gradient; an unmapped `Object.prototype` member name gives that inherited member; any other colour passes through |
| GlassIcons.InheritedColourEscapesFallback | src/components/reactbits/GlassIcons.tsx:47-48 | the colour `toString` gets a function as its background, not the colour |
| GlassIcons.BackgroundStyle | src/components/reactbits/GlassIcons.tsx:46-51 | a mapped colour gives its gradient; every other colour passes through unchanged |
| GlassIcons.BackgroundStyleAgrees | src/components/reactbits/GlassIcons.tsx:46-51 | away from the inherited names, the code as written and the corrected lookup agree |
| JsObject.Get | src/lib/sourceIcons.tsx:48 | an own key reads its value; an unmapped prototype member reads as inherited; anything else is undefined |
| SourceIcons.Lower | src/lib/sourceIcons.tsx:23 | `A`–`Z` are shifted to lower case, every other character is kept |
| SourceIcons.LowerAll | src/lib/sourceIcons.tsx:23 | each character is lowered in place |
| SourceIcons.NormalizeName | src/lib/sourceIcons.tsx:22-23 | the result is no longer than the name and holds only `a`–`z`, `0`–`9` and Hebrew-block characters |
| SourceIcons.NormalizeConcat | src/lib/sourceIcons.tsx:22-23 | normalisation distributes over concatenation |
| SourceIcons.NormalizeChar | src/lib/sourceIcons.tsx:22-23 | one character is kept lowered, or dropped when its lowercase is outside the kept set |
| SourceIcons.IgnoresDropped | src/lib/sourceIcons.tsx:22-23 | inserting a space or punctuation mark anywhere does not change the result |
| SourceIcons.IgnoresCase | src/lib/sourceIcons.tsx:22-23 | names equal up to case normalise alike |
| SourceIcons.NormalizeFixesKeys | src/lib/sourceIcons.tsx:22-23 | a string of kept characters normalises to itself |
| SourceIcons.NormalizeIdempotent | src/lib/sourceIcons.tsx:22-23 | normalising twice is normalising once |
| SourceIcons.NormalizeIsSubsequence | src/lib/sourceIcons.tsx:22-23 | the result is a subsequence of the lowered name: kept characters, original order |
| SourceIcons.NormalizeWord | src/lib/sourceIcons.tsx:22-23 | a word made only of kept characters normalises to its lowercase |
| SourceIcons.NormalizeTwoWords | src/lib/sourceIcons.tsx:22-23 | two such words around one separator normalise to their joined lowercase |
| SourceIcons.IntelIsrael | src/lib/sourceIcons.tsx:22-49 | `Intel Israel` normalises to `intelisrael` and gets the Cpu icon of that table entry |
| SourceIcons.IaiHebrew | src/lib/sourceIcons.tsx:22-49 | `IAI (אלתא)` normalises to `iaiאלתא` and gets the Plane icon of that table entry |
| SourceIcons.TatAliases | src/lib/sourceIcons.tsx:42-49 | `TAT` and `TAT Technologies` resolve to the same Hammer icon |
| SourceIcons.OrbitKeyUnknown | src/lib/sourceIcons.tsx:25-49 | a name normalising to a key absent from the table falls back to ExternalLink |
| SourceIcons.OrbitFallsBack | src/lib/sourceIcons.tsx:46-49 | `Orbit Technologies` is not in the table and gets ExternalLink |
| SourceIcons.GetSourceIconAsWritten | src/lib/sourceIcons.tsx:46-49 | a key in the table gives its icon; an unmapped `Object.prototype` member name gives that member; anything else gives ExternalLink |
| SourceIcons.NormalizeConstructor | src/lib/sourceIcons.tsx:22-23 | `Constructor` normalises to `constructor` |
| SourceIcons.ConstructorEscapesFallback | src/lib/sourceIcons.tsx:48 | the source named `Constructor` gets `Object`'s constructor, not ExternalLink |
| SourceIcons.ConstructorKey | src/lib/sourceIcons.tsx:48 | any name normalising to `constructor` reads the inherited member as written |
| SourceIcons.GetSourceIcon | src/lib/sourceIcons.tsx:46-49 | the mapped icon when the normalised name is a key, ExternalLink otherwise |
| SourceIcons.GetSourceIconAgrees | src/lib/sourceIcons.tsx:46-49 | away from the inherited names, the code as written and the corrected lookup agree |
| SourceIcons.SameKeySameIcon | src/lib/sourceIcons.tsx:46-49 | names that normalise alike get the same icon |
| CodeGen.EscapeQuotes | src/services/jobSourcesService.ts:14 | escaping never shortens |
| CodeGen.EscapeQuotesInverse | src/services/jobSourcesService.ts:14 | escaping inserts only a backslash before each quote: removing those restores the input |
| CodeGen.EscapedNeverStartsWithQuote | src/services/jobSourcesService.ts:14 | an escaped string never starts with a bare quote |
| CodeGen.EscapeQuotesIsLiteralEscape | src/services/jobSourcesService.ts:14 | on text without backslashes or line breaks, the quote escaping equals the backslash escape `Text.Escape` |
| CodeGen.TrailingBackslashBreaksLiteral | src/services/jobSourcesService.ts:14 | a name ending in a backslash prints a literal that does not read back as that name |
| CodeGen.LineBreakBreaksLiteral | src/services/jobSourcesService.ts:14 | a name holding a line break prints an unterminated literal that does not read at all |
| Text.Escape | src/services/jobSourcesService.ts:30 | the escaped text is never shorter and never holds a raw line break |
| Text.ReadEscaped | src/services/jobSourcesService.ts:30 | the reader turns any escaped text followed by the closing quote back into that text and the rest |
| CodeGen.Blocks | src/services/jobSourcesService.ts:13-15 | one block per source |
| CodeGen.Join | src/services/jobSourcesService.ts:15 | the first part is a prefix of the result, and no part is longer than it |
| CodeGen.JoinAppend | src/services/jobSourcesService.ts:15 | joining two lists of parts is joining each and concatenating |
| CodeGen.BlocksTail | src/services/jobSourcesService.ts:13-15 | blocks come in list order: the first source's block, then the rest's |
| CodeGen.TrailingComma | src/services/jobSourcesService.ts:14 | a block ends with `',` then the brace exactly when it is not the last |
| CodeGen.UpdateSourcesInCode | src/services/jobSourcesService.ts:12-23 | the output opens with the `const defaultSources = [` header; an empty list gives only the wrapper |
| CodeGen.GenerateSourceCode | src/components/SourceCodeUpdater.tsx:21-27 | the output opens with the header; an empty list gives only the wrapper |
| CodeGen.ReadBlocksOf | src/services/jobSourcesService.ts:13-15 | the joined blocks read back as the source list |
| CodeGen.ReadPrinted | src/services/jobSourcesService.ts:13-15 | block by block, each reads back as its source, and only the last ends the list |
| CodeGen.ReadSourcesCodeOf | src/services/jobSourcesService.ts:13-17 | the whole array literal reads back as the source list, for either id style |
| CodeGen.UpdateSourcesInCodeRoundTrip | src/services/jobSourcesService.ts:12-23 | the printed code reads back as exactly the list, with bare numeric ids |
| CodeGen.GenerateSourceCodeRoundTrip | src/components/SourceCodeUpdater.tsx:21-27 | the printed code reads back as exactly the list, with quoted ids |
| Json.Encode | src/services/jobSourcesService.ts:30 | the text is `[]` exactly for the empty list, and otherwise opens an array of objects with `[{` |
| Json.Decode | src/services/jobSourcesService.ts:35 | the empty list comes exactly from `[]`; any text that decodes opens with `[` |
| Json.DecodeEncode | src/services/jobSourcesService.ts:29-36 | decoding an encoded list gives the list back |
| Json.DecodeIffEncode | src/services/jobSourcesService.ts:29-36 | a text decodes to a list exactly when it is that list's encoding |
| LocalStore.Loaded | src/services/jobSourcesService.ts:34-35 | no value or the empty string gives `[]`; otherwise the parsed list, or an error when parsing fails |
| LocalStore.LoadedSaved | src/services/jobSourcesService.ts:29-36 | a saved list loads back unchanged |
| LocalStore.CorruptBlobFails | src/services/jobSourcesService.ts:35 | a stored value that is not JSON makes loading fail instead of giving `[]` |
| LocalStore.SaveSourcesGlobally | src/services/jobSourcesService.ts:29-31 | the `jobSources` key is set to the encoded list; other keys are untouched |
| LocalStore.LoadSourcesGlobally | src/services/jobSourcesService.ts:33-36 | an absent key gives `[]`; a present one gives what its value loads as |
| LocalStore.SaveThenLoad | src/services/jobSourcesService.ts:29-36 | saving then loading returns the saved list and leaves other keys alone |
| FileServer.AdminPassword | backend/server.js:8 | a set, non-empty variable is the password; otherwise `afeka` |
| FileServer.Server.constructor | backend/server.js:8-20 | a missing data file is created holding `[]`, which is the encoding of a list; an existing one is kept |
| FileServer.Server.Get | backend/server.js:23-30 | 200 with the parsed list, or 500 when the file cannot be read or parsed; always 200 while the file holds the encoding of a list |
| FileServer.Server.Post | backend/server.js:33-47 | 401 on a wrong password, else 400 on a non-array, else 500 on a failed write, all leaving the file unchanged; otherwise the file becomes the encoded array and the answer is success; a file holding an encoding keeps holding one |
| FileServer.NeverFailsToRead | backend/server.js:18-47 | on a server that created its own data file, GET answers 200 after any sequence of POSTs |
| FileServer.PostThenGet | backend/server.js:23-47 | a GET after a successful POST returns the posted list |
| FileServer.FirstGet | backend/server.js:18-30 | on a fresh install the first GET returns the empty list |
| FileServer.WrongPasswordFirst | backend/server.js:35-40 | a wrong password with a non-array body is 401, not 400, and leaves the file unchanged |
| Admin.AdminPage.constructor | src/pages/Admin.tsx:8-15 | the initial state: locked, loading, empty list and messages |
| Admin.AdminPage.SetPassword | src/pages/Admin.tsx:65 | typing sets the password field and nothing else |
| Admin.AdminPage.HandleLogin | src/pages/Admin.tsx:27-35 | an exact match with the built-in password unlocks and clears the error; otherwise the lock stays and the error is set; never locks again |
| Admin.AdminPage.LoadEffect | src/pages/Admin.tsx:17-25 | nothing before login; after it, loading ends false with the fetched list, or with the error set on failure |
| Admin.AdminPage.HandleSourcesChange | src/pages/Admin.tsx:37-40 | the list is replaced and the success banner cleared |
| Admin.AdminPage.BeginSave | src/pages/Admin.tsx:42-47 | saving starts with both status flags cleared; the request carries the list and the built-in password |
| Admin.AdminPage.FinishSave | src/pages/Admin.tsx:48-53 | saving ends, with success or the error message set according to the outcome |
| Admin.AdminPage.HandleSave | src/pages/Admin.tsx:42-54 | ends not saving with exactly one of success or error set, having sent the built-in password |
| Admin.EditorSave | src/pages/Admin.tsx:37-40 | saving in the embedded editor hands its draft to the page, which passes it back as the editor's prop |
| Admin.SaveIgnoresTypedPassword | src/pages/Admin.tsx:47 | whatever is typed, a save sends `afeka` |
| Admin.StaysUnlocked | src/pages/Admin.tsx:30 | once unlocked, no later login attempt locks the page |
| RotatingText.Next | src/components/reactbits/RotatingText.tsx:19 | the tick stays below n, counts up by one and wraps from n-1 to 0 |
| RotatingText.Ticks | src/components/reactbits/RotatingText.tsx:18-20 | any number of ticks from an in-range index stays in range |
| RotatingText.TicksCompose | src/components/reactbits/RotatingText.tsx:18-20 | a ticks then b ticks is a + b ticks |
| RotatingText.TicksCountUp | src/components/reactbits/RotatingText.tsx:19 | before the wrap the index counts up one per tick |
| RotatingText.FullCycle | src/components/reactbits/RotatingText.tsx:19 | n ticks return the index to where it started |
| RotatingText.Rotator.constructor | src/components/reactbits/RotatingText.tsx:14 | the index starts at 0 |
| RotatingText.Rotator.Tick | src/components/reactbits/RotatingText.tsx:17-20 | with more than one text the index advances modulo n; otherwise no timer runs and it stays |
| RotatingText.Rotator.Run | src/components/reactbits/RotatingText.tsx:17-20 | k callbacks give k ticks, and none without a timer |
| RotatingText.Rotator.Current | src/components/reactbits/RotatingText.tsx:26 | the text at the index, or nothing past the end |
| RotatingText.SingleTextStays | src/components/reactbits/RotatingText.tsx:17 | with one text the index stays 0 and that text is always shown |
| RotatingText.FullRotation | src/components/reactbits/RotatingText.tsx:19-26 | after n ticks the same text is shown again |

## Left out

- Rendering, React re-rendering, async/Promise scheduling, toasts and the clipboard: they are presentation and runtime mechanics.
- Console logging in `updateSourcesInCode` and `GlassIcons` has no effect on the results.
- `Date.now()` ids are taken as an input, so the model does not capture the uniqueness a real clock would usually give.
- `getJobSources` / `saveJobSources`, which the admin page calls, are not part of this model. Their outcomes are arguments.
- SourceIcons.Lower: full Unicode `toLowerCase` is not modelled. It lowers only `A`–`Z`, so upper-case letters outside ASCII that lower into the kept set (such as the Kelvin sign) are treated as dropped.
- The JSON text is the model's own compact encoding. `JSON.stringify` writes it, but `JSON.parse` itself also accepts whitespace between tokens, other key orders, extra fields and other value types. `Json.Decode` rejects all of those.
- Json.Encode: control characters other than line breaks are written raw, where `JSON.stringify` writes `\t` or `\u00XX`; the decoder accepts them raw, where `JSON.parse` throws.
- FileServer.Server.Get: answers 500 for every data file outside the compact spelling, including the two-space-indented file that `JSON.stringify(sources, null, 2)` at server.js:42 writes, which the real server reads with 200. A server restarted on a file it wrote itself would therefore break in the model. `Valid()` ties the file to an encoding; a fresh start establishes it and every POST keeps it. The model's POST writes the compact spelling instead of the indented one.
- FileServer.Server.Post: the source checks only `Array.isArray(sources)`, so an array of anything (`[1, null]`) passes the gate, is written and is served back by GET. The model's payload is either a list of sources or not an array, so it covers arrays of sources only.
- `JSON.parse` accepting a stored value that is valid JSON but not a list of sources is not modelled: such text counts as a parse failure.
- The drag library and the element icons of `GlassIcons` are not modelled. Items carry only their data fields.
- The port, CORS and JSON body parsing of the backend, and directory creation at startup, are not modelled.
- GlassIcons.HandleDragEnd: requires both indices to lie within the list, as the drag library guarantees. Out-of-range splices are not modelled.
- FileServer.Server.Post: a failed write leaves the file as it was. A partially written file is not modelled.
- CodeGen.UpdateSourcesInCodeRoundTrip: holds only for names and urls without a backslash or line break, and for non-empty ids made of digits. Backslashes and line breaks are printed unescaped (`CodeGen.TrailingBackslashBreaksLiteral`, `CodeGen.LineBreakBreaksLiteral`), and an empty bare id prints `id: ,`, which is not valid TypeScript.
- CodeGen.GenerateSourceCodeRoundTrip: holds only for names and urls without a backslash or line break, and for ids without a quote, backslash or line break, because the id is printed unescaped.
- Admin.AdminPage.BeginSave: the disabled button that prevents a second save while one is in flight is not modelled. `FinishSave` requires a save to be in flight.

## Findings

| source | as written | input that shows it | evidently intended | confidence | as-written member | corrected member |
|---|---|---|---|---|---|---|
| src/lib/sourceIcons.tsx:48 | `sourceIconMap[normalized]` also reads members inherited from `Object.prototype` | a source named `Constructor` normalises to `constructor` and gets `Object`'s constructor function instead of the ExternalLink fallback | only the table's own keys map to icons; every other name falls back to ExternalLink | not executed | SourceIcons.ConstructorEscapesFallback | SourceIcons.GetSourceIcon |
| src/services/jobSourcesService.ts:14 | `replace(/'/g, "\\'")` escapes quotes but not backslashes | a source named `C:\` prints `name: 'C:\'`, where the backslash escapes the closing quote | the literal reads back as the name: backslashes are escaped too, as `Text.Escape` does | not executed | CodeGen.TrailingBackslashBreaksLiteral | Text.ReadEscaped |
| src/components/reactbits/GlassIcons.tsx:47-48 | `gradientMapping[color]` also reads members inherited from `Object.prototype` | the colour `toString` gets a function as its background instead of passing through | only the six mapped colours become gradients; every other colour string passes through unchanged | not executed | GlassIcons.InheritedColourEscapesFallback | GlassIcons.BackgroundStyle |
