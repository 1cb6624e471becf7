# A verified model of the fragment chat app's core

This project describes the core of a Next.js app that turns chat prompts into
runnable code "fragments" and proves properties of that description in Dafny.
Nothing in it is executed or compiled; the definitions are specifications, and
the verifier checks them. It covers:

- **The chat endpoint** (`app/api/chat/route.ts`): the rate-limit gate, the
  provider key preflight, the parameters passed to the model call and the
  classification of a failed call (`chat_route.dfy`).
- **The page's session state** (`app/page.tsx`): the messages list and the
  preview flags as a `ChatSession` class whose methods are the page's
  handlers; binding streamed snapshots to the assistant turn; the client-side
  error classifier; the minimum preview duration; and the build persistence
  payload (`page.dfy`).
- **The code viewer** (`components/fragment-code.tsx`): the file tree built
  from a flat file list and then sorted, the folder toggle, the selected file
  and its language (`fragment_code.dfy`). The tree is an arena: a sequence of
  nodes whose children are indices, plus ghost parent links and ghost paths
  that carry the shape invariant. The invariant includes that every node below
  the root that has children, of whatever kind, is keyed by its path joined
  with `/` plus `/`: a file named `a/` takes the key a later `a/b` looks up,
  and `b` then hangs under that file, as in the code.
- **The preview panel** (`components/preview.tsx`): the code tab's file list,
  the export archive with its name, and the render guards (`preview.dfy`).
- **The deploy endpoint** (`app/api/deploy/route.ts`): the validation order,
  the archive with its conditional `package.json`, the request to the deploy
  hook and the mapping of its reply (`deploy_route.dfy`).
- **The database setup script** (`scripts/setup-database.js`): the environment
  check, the migration statement splitter, the retrying executor, the loop
  over statements with its success count, and the table verification
  (`setup_database.dfy`).

Support modules:

- `wrappers.dfy`: `Option`.
- `js.dfy`: the JavaScript string semantics the code relies on: truthiness,
  `||` defaults, `includes`, `trim`, `split`/`join`, `parseInt` and
  number-to-string.
- `schema.dfy`: the shared records, such as the fragment, the sandbox result
  and file entries.
- `zip.dfy`: the archive object; writing a name that is already present
  replaces its content.

Collaborators the code calls but does not define are parameters. They are:
the rate limiter, the model stream, `fetch` to the sandbox, the deploy hook and
`exec_sql`, the Supabase inserts and table queries, `JSON.parse`, the clock,
`Math.random` and the file system. Each is a function or a value given to the
operation, so every contract holds for every behaviour of the collaborator.
A failure the code reacts to, or stops on, is part of that value: a sandbox
request that throws, a non-ok reply, an unreadable body.

Three behaviours of the code worth noting:

- Each new snapshot replaces the assistant message's content and fragment
  wholesale. No per-field "last known good" value is kept (app/page.tsx:199-204).
- A provider error counts as rate limiting when its status is 429 or its
  message contains `limit` anywhere. So a 503 whose message mentions a limit
  is classified as rate limiting, not as overloaded (app/api/chat/route.ts:127-130).
- Only an error thrown by the call that starts the stream is classified.
  Errors raised while streaming are not (app/api/chat/route.ts:112-122).

## Model

| member | source | states |
|---|---|---|
| ChatRoute.RateLimitMaxRequests | app/api/chat/route.ts:33-35 | Without a (non-empty) `RATE_LIMIT_MAX_REQUESTS` the limit is 60. |
| ChatRoute.MaxRequestsFromEnv | app/api/chat/route.ts:33-35 | A decimal numeral in `RATE_LIMIT_MAX_REQUESTS` is read back as exactly its value. |
| ChatRoute.RateLimitWindow | app/api/chat/route.ts:36-38 | The window is the variable's value when set and `10m` otherwise. |
| ChatRoute.ProviderTableKeys | app/api/chat/route.ts:85-96 | The providers that need a key are exactly the nine listed; `ollama` is not among them. |
| ChatRoute.CreateErrorResponse | app/api/chat/route.ts:14-29 | A JSON response with the given status, error and message; an `incident_id` appears exactly when the id is truthy. |
| ChatRoute.UnlistedProviderPasses | app/api/chat/route.ts:96-100 | An absent or unlisted provider never fails the key preflight. |
| ChatRoute.StreamOptions | app/api/chat/route.ts:109-120 | The stream call never carries `apiKey`; its model is the configured client; `maxRetries` is 0 unless the config sets it; every other config key overrides the built-in option of the same name. |
| ChatRoute.StreamOptionsForPlainConfig | app/api/chat/route.ts:113-120 | When the config sets none of them, the system prompt, the messages and `maxRetries: 0` reach the call unchanged. |
| ChatRoute.Classify | app/api/chat/route.ts:127-159 | Exactly one kind per error, checked in order: rate limit (429 or `limit` in the message), then overloaded (529/503), then access denied (403/401), else unexpected. |
| ChatRoute.IncidentId | app/api/chat/route.ts:124 | The id starts with `inc_<now>_` and has at most nine more characters. |
| ChatRoute.CatchResponse | app/api/chat/route.ts:123-166 | A failed call is answered with its kind's code and status (429, 529, 403 or 500) and always carries the incident id. |
| ChatRoute.OverloadedWithLimitMessageIsRateLimit | app/api/chat/route.ts:127-141 | A 503 whose message mentions a limit is reported as `provider_rate_limited`. |
| ChatRoute.Post | app/api/chat/route.ts:57-122 | The limiter is consulted exactly when the request has no key of its own. A limited request gets 429 `rate_limited` with the three rate-limit headers and no upstream call. A failed preflight gets 400 `api_key_missing` and no upstream call. Otherwise there is exactly one upstream call, and its failure is classified. |
| ChatRoute.OwnKeyBypassesLimiter | app/api/chat/route.ts:57-75 | With its own key a request never queries the limiter and is never answered `rate_limited`. |
| ChatRoute.KeyMissingIff | app/api/chat/route.ts:84-107 | `api_key_missing` is returned if and only if the request passes the limiter, its provider is listed, and neither the request nor the server has a key for it. |
| ChatRoute.UpstreamFailureHasIncident | app/api/chat/route.ts:123-166 | Every answer to a failed upstream call has an incident id of the form `inc_<now>_…`. |
| Page.ApplyPatch | app/page.tsx:212-222 | `setMessage` keeps the length and every message but the last; the last gets the patch's fields over its own; an empty list is unchanged. |
| Page.PatchKeepsAbsentFields | app/page.tsx:214-218 | Fields the patch leaves out keep their old values on the last message. |
| Page.BindSnapshot | app/page.tsx:183-206 | After a snapshot the last message is an assistant message with the snapshot's text and code and the snapshot as its object. One is appended when the last message is not an assistant's; otherwise the last one is updated in place. |
| Page.SnapshotIdempotent | app/page.tsx:183-206 | Delivering the same snapshot twice gives the same conversation as delivering it once. |
| Page.StreamMakesOneTurn | app/page.tsx:183-206 | A whole stream of snapshots gives the conversation after its first snapshot, except that the last message holds the latest snapshot's text and object. However many snapshots arrive, the stream makes one turn. |
| Page.UndoMessages | app/page.tsx:338 | Undo keeps the first `max(0, n-2)` messages. |
| Page.UndoRemovesTurn | app/page.tsx:338 | Undo after a user message and its answer restores the conversation before them. |
| Page.RawErrorText | app/page.tsx:107 | The error text is the error's message when truthy, else the fixed fallback; never empty. |
| Page.ClassifyClientError | app/page.tsx:107-126 | The step-by-step reassignment of `message` and `code` computes the same pair as the declarative classifier. |
| Page.PlainTextError | app/page.tsx:110-126 | Text not starting with `{` (after trimming) is shown as is, and its code is `rate_limited` exactly when it matches the rate-limit pattern. |
| Page.PayloadCodeWins | app/page.tsx:116-126 | A string `error` field in a parsed payload is the code, and the pattern no longer applies. |
| Page.RateLimitFlagIff | app/page.tsx:124-130 | The rate-limit flag is raised if and only if the code is `rate_limited` or the shown message contains `limit` in any case. |
| Page.RateLimitExceededMatches | app/page.tsx:124 | "Rate limit exceeded" matches the rate-limit pattern. |
| Page.RateNewlineLimitIsNotAt | app/page.tsx:124 | The pattern's single character between `rate` and `limit` is not a line feed. |
| Page.RateLimitFromSomewhere | app/page.tsx:124 | The left-to-right scan finds `rate.?limit` exactly when it occurs at some position, which is what `test` reports. |
| Page.ClearDelay | app/page.tsx:163-165 | The remaining delay is never negative; elapsed plus remaining equals `max(3000, elapsed)`; it is zero exactly when 3000 ms have passed. |
| Page.NoStartWaitsFullMinimum | app/page.tsx:163 | A missing or zero start time counts as no time elapsed, so the full 3000 ms are waited. |
| Page.BuildPayloadOf | app/page.tsx:454-466 | The build row copies the ids and the fragment's fields; the URL is dropped for code-interpreter results. |
| Page.PersistBuild | app/page.tsx:452-490 | Nothing happens without a client; the build is saved exactly when the insert succeeds; the file row is written exactly when the returned id, the path and the code are all truthy. |
| Page.FilteredModels | app/page.tsx:52-57 | With local models hidden, a model remains exactly when it is not from `ollama`; otherwise the list is kept as it is. |
| Page.FilteredModelsAppend | app/page.tsx:52-57 | Filtering distributes over concatenation, so the kept models stay in list order, each as often as it occurs. |
| Page.FilteredModelsSingle | app/page.tsx:52-57 | One model is kept exactly when local models are shown or its provider is not `ollama`. |
| Page.FindModel | app/page.tsx:59-61 | The first model with the configured id, or none when no model has it. |
| Page.CurrentTemplate | app/page.tsx:62-65 | `auto` gives all templates; a chosen id gives the one-entry map for it. |
| Page.ImageParts | app/page.tsx:240-244 | One image part per image, in order. |
| Page.ChatSession.constructor | app/page.tsx:41-49 | The initial state: no messages, fragment or result, code tab, all flags false, empty error text. |
| Page.ChatSession.CurrentModel | app/page.tsx:59-61 | The current model is the first model in the filtered list whose id matches the configured one. |
| Page.ChatSession.CanUndo | app/page.tsx:369 | Undo is offered with more than one message and no running request, so it removes exactly two. |
| Page.ChatSession.CanClear | app/page.tsx:368 | Clearing is offered exactly when there are messages. |
| Page.ChatSession.SetMessage | app/page.tsx:212-222 | The messages become `ApplyPatch` of the old ones; the frame names only the messages, so nothing else changes. |
| Page.ChatSession.AddMessage | app/page.tsx:283-286 | The message is appended and the new list returned; the frame names only the messages, so nothing else changes. |
| Page.ChatSession.OnSnapshot | app/page.tsx:183-206 | The fragment becomes the snapshot and the messages become `BindSnapshot` of the old ones. |
| Page.ChatSession.OnError | app/page.tsx:105-134 | The shown error is the classified message; the rate-limit flag is raised when the classification says so and is never lowered here. |
| Page.ChatSession.OnFinish | app/page.tsx:135-180 | After a successful stream the indicator starts. When the sandbox request or the reading of its body throws, the handler stops there: no result, no tab switch, no clearing scheduled, nothing persisted. With a reply the result is set on the state and the last message, the tab switches to the preview, the clearing is scheduled after `ClearDelay`, and the build is persisted. A failed stream changes nothing. |
| Page.ChatSession.PreviewTimerFired | app/page.tsx:165 | The scheduled clearing turns the indicator off. |
| Page.UserContent | app/page.tsx:237-244 | The user message's content is the input text followed by one image part per image, in order. |
| Page.ChatSession.HandleSubmitAuth | app/page.tsx:224-268 | Without a session only the sign-in dialog opens. Otherwise the error state is cleared, the user message (input text then images) is appended, and the whole conversation is submitted with the current template, model and config. The input, files and tab are then reset. |
| Page.ChatSession.Retry | app/page.tsx:270-281 | The error state is cleared and the conversation is resubmitted unchanged; the frame leaves the messages untouched. |
| Page.ChatSession.HandleUndo | app/page.tsx:337-340 | The messages become `UndoMessages` of the old ones and the preview is cleared. |
| Page.ChatSession.HandleClearChat | app/page.tsx:318-327 | Everything the handler resets is reset: messages, fragment, result, input, files, tab, loading flags. |
| FragmentCode.Attach | components/fragment-code.tsx:52-54 | Attaching a node appends it and adds it to the end of the cursor's children, and only there. |
| FragmentCode.AttachShaped | components/fragment-code.tsx:40-58 | Attaching a node whose path extends the cursor's preserves the tree's shape invariant. |
| FragmentCode.FindChild | components/fragment-code.tsx:50 | The first child with the key, whatever its kind, or none. |
| FragmentCode.Descend | components/fragment-code.tsx:48-56 | One folder step from the node for the first `idx` segments: when the cursor has a child keyed by the folder key of the first `idx + 1` segments, the tree is unchanged and the first such child becomes the cursor; otherwise exactly one folder with that key and the segment as name is attached under the cursor and becomes the cursor. Either way the shape and the file leaves are kept and the new cursor carries that key and path. |
| FragmentCode.Walk | components/fragment-code.tsx:43-57 | After the folder steps for all but the last segment, the shape and file leaves are kept; the cursor is at the node for the file's folder path, the root for a one-segment name and otherwise a node keyed by that folder's key; earlier nodes keep key, name, kind and path; at most one node per step was added, each a folder on a proper prefix of the file's path. |
| FragmentCode.InsertFile | components/fragment-code.tsx:41-58 | Inserting one file keeps the shape and adds exactly that file's leaf; earlier nodes keep key, name, kind and path; at most one node per segment is added, all along the file's path, folders before and the leaf last, hung under the root for a one-segment name and otherwise under a node keyed by the folder of all but the last segment; a name with no segment changes nothing. |
| FragmentCode.CoveredStep | components/fragment-code.tsx:40-58 | Inserting the next file keeps every node along the path of some file inserted so far. |
| FragmentCode.InsertFiles | components/fragment-code.tsx:39-59 | The unsorted tree is well shaped, its file leaves are those of the input in order, and every node below the root lies along some input file's path: a prefix of its segments, a proper prefix for a folder. |
| FragmentCode.AttachLeafLeaves | components/fragment-code.tsx:44-47 | A file is a leaf keyed by its full name and named by its last segment. |
| FragmentCode.ExpectedLeavesOfNamedFiles | components/fragment-code.tsx:40-58 | Every file with a non-empty segment gives exactly one leaf, in input order, duplicates included. |
| FragmentCode.UnnamedFileAddsNoLeaf | components/fragment-code.tsx:41-43 | A name with no non-empty segment adds nothing to the tree. |
| FragmentCode.DepthIsSegmentCount | components/fragment-code.tsx:41-57 | A node sits as deep as its key has non-empty segments. |
| FragmentCode.AncestorPath | components/fragment-code.tsx:49-56 | The node `k` levels above a node has the first `|path| - k` segments of its path. |
| FragmentCode.ProperAncestorHasChildren | components/fragment-code.tsx:52-56 | Every node strictly above another has children. |
| FragmentCode.AncestorsArePrefixes | components/fragment-code.tsx:49-56 | The nodes above a node are its path's prefixes; every one below the root that lies strictly above the node, whatever its kind, and the node itself when a folder, is keyed by that prefix joined by `/` plus `/`. |
| FragmentCode.FolderKeysUnique | components/fragment-code.tsx:49-55 | Two folders under the same parent have different keys. |
| FragmentCode.BeforeTransitive | components/fragment-code.tsx:62-65 | The comparator (folders first, then by name) is transitive. |
| FragmentCode.BeforeAsymmetric | components/fragment-code.tsx:62-65 | The comparator is asymmetric. |
| FragmentCode.InsertChild | components/fragment-code.tsx:62-65 | Inserting into sorted children keeps them sorted and adds exactly the new child. |
| FragmentCode.SortChildren | components/fragment-code.tsx:62-65 | The result is sorted and a permutation of the children. |
| FragmentCode.SortTree | components/fragment-code.tsx:60-68 | Every node's children become sorted and stay a permutation; keys, names and kinds are untouched. |
| FragmentCode.ShapedUnderReorder | components/fragment-code.tsx:60-68 | Reordering children preserves the shape invariant. |
| FragmentCode.CoveredUnderReorder | components/fragment-code.tsx:60-68 | Reordering children keeps every node along some file's path. |
| FragmentCode.SortedMeansFoldersFirstByName | components/fragment-code.tsx:62-65 | In sorted children no file precedes a folder, and nodes of one kind appear in name order. |
| FragmentCode.BuildTree | components/fragment-code.tsx:38-70 | The built tree is well shaped and sorted, its file leaves are the input's in order, every folder key ends in `/`, and every node below the root lies along some input file's path (so no folder appears that no file needs). |
| FragmentCode.Toggle | components/fragment-code.tsx:73-75 | The entry for the key becomes the negation of its old entry (of `false` when absent); other entries stay. |
| FragmentCode.ToggleOfUnrecordedFolderKeepsItOpen | components/fragment-code.tsx:72-92 | A folder without an entry is shown open before and after its first toggle. |
| FragmentCode.ToggleShown | components/fragment-code.tsx:92 | The corrected toggle flips what is shown for the key and nothing else. |
| FragmentCode.ToggleShownTwice | components/fragment-code.tsx:92 | Toggling twice restores what is shown. |
| FragmentCode.InitialFile | components/fragment-code.tsx:18 | The initial selection is the first file's name, so the name of a file in the list. |
| FragmentCode.CurrentContent | components/fragment-code.tsx:19-21 | The content of the first file with the selected name, or none exactly when no file has it. |
| FragmentCode.LangIsExtension | components/fragment-code.tsx:182 | The language is the text after the last `.`, or the whole name without one. |
| Preview.ShownFiles | components/preview.tsx:165-168 | Only elements with a non-empty path are shown, never more than given. |
| Preview.ShownFilesAppend | components/preview.tsx:165-168 | The projection works element by element, so it keeps input order. |
| Preview.ShownFilesSingle | components/preview.tsx:167-168 | One element gives its path and content (or `''`) when it has a path, else nothing. |
| Preview.CodeTabFiles | components/preview.tsx:165-171 | Code lists go through `ShownFiles`; a single code gives one file exactly when the path and the code are both truthy. |
| Schema.FragmentWrites | components/preview.tsx:50-61 | One entry per list element, unfiltered and with the archive defaults, or one entry for a single code under its path or the given default name: `fragment.txt` for the export, `index.js` for the deployment (app/api/deploy/route.ts:29-39). |
| Preview.ZipFilename | components/preview.tsx:63 | The archive is named after the title, or `fragment.zip`. |
| Preview.ExportZip | components/preview.tsx:46-63 | The archive holds exactly the entries of replaying the writes, and carries that name. |
| Preview.ExportHoldsLastWrites | components/preview.tsx:51-61 | Under every written name the archive holds the last content written to it. |
| Preview.Render | components/preview.tsx:40-171 | Without a fragment nothing is rendered. The Preview tab and export need a result; the deploy dialog also needs a non-interpreter result; the code viewer appears exactly when there are files. |
| Zip.Lookup | components/preview.tsx:55 | Lookup finds a stored name's content and reports absence exactly when no entry has the name. |
| Zip.Stored | components/preview.tsx:55 | A new name is appended; storing a present one keeps the length. |
| Zip.StoredInPlace | components/preview.tsx:55 | Storing keeps every place's name and every entry under another name, so a present name keeps its place. |
| Zip.StoredFinds | components/preview.tsx:55 | After a write the name holds the written content. |
| Zip.StoredKeepsOther | components/preview.tsx:55 | A write leaves every other name's content as it was. |
| Zip.StoredAllAppend | app/api/deploy/route.ts:29-66 | Two runs of writes are one run of both. |
| Zip.StoredAllDistinct | components/preview.tsx:51-56 | Writes with distinct names give exactly those entries, in order. |
| Zip.StoredAllLastWriteWins | components/preview.tsx:51-56 | After a run of writes each name holds its last write. |
| Zip.ZipArchive.File | components/preview.tsx:55 | `zip.file` replaces the entries by `Stored` of the old ones. |
| DeployRoute.UnescapeEscape | app/api/deploy/route.ts:65 | The JSON quoting of a string decodes back to the string. |
| DeployRoute.ManifestTextInjective | app/api/deploy/route.ts:43-65 | Different project names give different `package.json` texts. |
| DeployRoute.DeployWrites | app/api/deploy/route.ts:29-66 | The code's writes, followed by the manifest exactly for the Next.js template. |
| DeployRoute.ManifestWins | app/api/deploy/route.ts:42-66 | For Next.js the archive's `package.json` is the generated one, whatever the code wrote under that name. |
| DeployRoute.Authorization | app/api/deploy/route.ts:75 | A bearer header is sent exactly when the token is set. |
| DeployRoute.ReplyResponse | app/api/deploy/route.ts:85-102 | Success exactly for an ok reply with a readable body, with `deployUrl` as `url` or `Deployment initiated`. Anything else is 500 `Deployment failed` with the error's message. |
| DeployRoute.WriteCode | app/api/deploy/route.ts:29-39 | The loop's archive equals replaying `FragmentWrites` with `index.js` as the single file's default name. |
| DeployRoute.BuildArchive | app/api/deploy/route.ts:26-66 | The posted archive equals replaying `DeployWrites` into an empty archive. |
| DeployRoute.Post | app/api/deploy/route.ts:4-103 | A bad body is a 500 with its message; a missing fragment or sandbox id is a 400 before the environment is read; a missing hook is a 500; otherwise exactly one hook call with the named archive, and the reply decides the answer. |
| SetupDatabase.ServiceKey | scripts/setup-database.js:16 | The key is truthy exactly when either variable is set; the service role key wins. |
| SetupDatabase.MissingVariables | scripts/setup-database.js:25-35 | Each variable is reported exactly when it is missing, URL first; nothing is reported exactly when both are present. |
| SetupDatabase.CutEnd | scripts/setup-database.js:133 | The engine's match at a position is a `;` and whitespace followed by a line feed or the end of input. |
| SetupDatabase.CutEndIsLongestMatch | scripts/setup-database.js:133 | Whenever some match exists the engine finds one, and it is the longest. |
| SetupDatabase.SemicolonBeforeTextIsKept | scripts/setup-database.js:133 | A `;` followed on its line by anything but whitespace is not a split point. |
| SetupDatabase.SplitReassembles | scripts/setup-database.js:133 | The pieces and the removed separators rebuild the text; each separator is `;` plus whitespace; each next piece starts with a line feed or is the empty tail. |
| SetupDatabase.NoCutOnePiece | scripts/setup-database.js:133 | Text without a match stays one piece. |
| SetupDatabase.TrimmedBlockComment | scripts/setup-database.js:139 | On trimmed text the comment pattern means one `/* … */` line of at least four characters. |
| SetupDatabase.Terminate | scripts/setup-database.js:141 | The result ends in `;`, which is added only when missing. |
| SetupDatabase.Cleaned | scripts/setup-database.js:134-141 | There are no more statements than pieces. |
| SetupDatabase.StatementShape | scripts/setup-database.js:136-141 | A statement is exactly a non-empty text that ends in `;` and does not start with `--`. |
| SetupDatabase.CleanedAreStatements | scripts/setup-database.js:134-141 | Every cleaned statement is non-empty, ends in `;` and does not start with `--`. |
| SetupDatabase.CleanedAppend | scripts/setup-database.js:134-141 | Cleaning works piece by piece, so statements keep file order. |
| SetupDatabase.CleanedSingle | scripts/setup-database.js:134-141 | A piece gives its trimmed, terminated text when kept, else nothing. |
| SetupDatabase.CommentHeadedChunkDropped | scripts/setup-database.js:137 | A piece whose first line is a comment is dropped even when SQL follows (`-- c` then `select 1`). |
| SetupDatabase.ParseStatements | scripts/setup-database.js:132-141 | The parsed statements are non-empty, end in `;`, never start with `--`, and number at most the pieces. |
| SetupDatabase.AttemptError | scripts/setup-database.js:96-103 | A non-ok reply for SQL containing `create table` (ignoring case) raises nothing. Another non-ok reply raises `HTTP <status>: <text>`, and a throw raises its message. |
| SetupDatabase.ExecuteWithRetry | scripts/setup-database.js:81-121 | Attempts are numbered consecutively and every attempt before the last raised an error. The last decides: executed, fallback, or a failure that is reported only after attempt 3, with that attempt's error. |
| SetupDatabase.RetryReadsAtMostMaxRetries | scripts/setup-database.js:112-116 | Replies after the third attempt are never consulted. |
| SetupDatabase.TableCreationFallsBackAtOnce | scripts/setup-database.js:96-101 | A refused table creation is a fallback success at that attempt, with no retry. |
| SetupDatabase.AttemptsFromFirst | scripts/setup-database.js:17 | From attempt 1 there are at most three attempts, and a failure uses all three, each raising an error. |
| SetupDatabase.CountSucceeded | scripts/setup-database.js:191 | The count never exceeds the results, and equals them exactly when none failed. |
| SetupDatabase.CountSucceededAppend | scripts/setup-database.js:191 | The count adds up over concatenation. |
| SetupDatabase.ExecuteAll | scripts/setup-database.js:174-184 | One result per statement, in order, each the retrying execution of that statement, whatever the earlier ones gave. |
| SetupDatabase.CheckTable | scripts/setup-database.js:232-247 | `missing` exactly for an error containing `does not exist`; `error` exactly for a throw; `success` otherwise, error or not. |
| SetupDatabase.VerifyTables | scripts/setup-database.js:215-250 | One check per expected table, in order. |
| SetupDatabase.Setup | scripts/setup-database.js:154-207 | A failed connection test or an unreadable file stops with its message. Otherwise every parsed statement runs in order, the tables are checked, and `successful` counts the successes, fallbacks included. |
| Schema.ArchiveEntry | components/preview.tsx:53-55 | An archive entry always has a name: the element's path when truthy (else `file.txt`), with its content when truthy (else empty). |
| Js.ParseIntNatToString | app/api/chat/route.ts:34 | `parseInt` of a decimal numeral gives its value. |
| Js.SegmentsOfJoinSep | components/fragment-code.tsx:41-49 | Splitting a folder key back into segments gives the segments it was joined from. |
| Js.Trim | scripts/setup-database.js:134 | `trim` cuts only whitespace, from both ends, and leaves none at either end. |

## Left out

- Network, storage and process effects are not modelled. Their outcomes are inputs: fetch calls, Supabase clients, streaming, file reads, `process.exit`, posthog, toast, console output and timers.
- The rate limiter's internals and the model client are not modelled. The library files are not part of this model; the limiter and the stream are oracles.
- The JSX rendering is not modelled. Only its guards are modelled (`Preview.Render` and the `canUndo`/`canClear` flags). The pane-width drag clamp is left out: it is floating-point arithmetic driven by DOM events.
- `setupDatabaseDirect` and the script's `require.main` block are left out. They are I/O only, and they refer to an undefined `supabaseUrl`.
- The UI-only components are not part of this model (auth dialog, chat picker, chat settings, deploy dialog, logo, layout and the prompt text).
- Page.ChatSession.SetMessage: the optional `index` argument is not modelled, because no caller passes it. The patch always goes to the last message.
- Page.ChatSession: React's batched, closure-captured state updates are applied one after another in the order the handlers issue them. The stale list returned by `addMessage` is not modelled.
- Page.ChatSession.OnError: the `useObject` hook's own state is reduced to the `isLoading` flag; `stop()` only clears that flag.
- Page.ChatSession: the template and model selections are constant fields. The chat picker that changes them is left out.
- FragmentCode.SortTree: names are ordered by code point (`LexLess`), not by the locale collation of `localeCompare`.
- Js.Lower: only ASCII letters are folded. For the patterns matched here (`create table`, `limit`, `rate`, `too many`), the full Unicode lower-casing gives the same answers.
- Page.RateLimitAt: strings are sequences of code points, while JavaScript strings are UTF-16 code units. So `.?` here takes one code point where JavaScript takes one code unit: `rate😀limit` matches the model's `rate.?limit` but not JavaScript's, since the emoji is two code units. String lengths and `slice`/`substr` positions likewise count code points.
- Js.ParseInt: the value is an exact integer. JavaScript's `parseInt` returns a double, which rounds numerals above 2^53 (`9007199254740993` gives 9007199254740992). Js.ParseIntNatToString and ChatRoute.MaxRequestsFromEnv therefore state the exact value, which JavaScript gives only up to 2^53.
- Zip.Stored: only the named file entries are modelled. JSZip's implicit folder entries, path normalisation, compression and base64 output are left out.
- DeployRoute.Post: the hook's request body is the `HookRequest` record, not its JSON text. The archive is the entry list rather than its base64 encoding.
- SetupDatabase.ExecuteWithRetry: the one-second delay between attempts and the unused 30-second `timeout` field are not modelled. Durations come from the reply.
- SetupDatabase.Setup: the connection test is an input flag. The summary printout, timing and exit code are not modelled.

## Findings

| source | as written | input that shows it | evidently intended | confidence | as-written member | corrected member |
|---|---|---|---|---|---|---|
| components/fragment-code.tsx:72-92 | `toggle` stores `!prev[key]`, but a folder without an entry is shown open (`?? true`) | any folder other than the root, e.g. key `src/`, clicked once from the initial state: the entry becomes `true` and the folder stays open | the first click collapses the folder (store the negation of what is shown) | medium, not executed | FragmentCode.ToggleOfUnrecordedFolderKeepsItOpen | FragmentCode.ToggleShown |
