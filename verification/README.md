# Gist backend core, modelled in Dafny

This project models four pieces of the Go backend of Gist, a self-hosted RSS
reader, and proves properties of the model:

- **Folder management** (`folderService`): Create, Update and Delete of feed
  folders. Names are trimmed and must not be blank. The parent must exist.
  A name may be used only once under the same parent, and the errors are
  checked in a fixed order.
- **OPML import** (`opmlService.Import`): a parsed outline tree becomes folders
  and feeds inside one transaction. Existing folders are found by name and
  parent, and existing feeds by URL. Counters report what was created and
  what was skipped. Any error rolls everything back.
- **OPML export** (`buildExportOutlines`): folders and feeds become a tree of
  outlines. At each level, sub-folders come before feeds, and each group is
  ordered by its lower-cased label.
- **Readable-content acquisition** (`readabilityService`):
  - a cache-first read of an entry;
  - a browser-like GET with fixed Chrome headers, and at most one cookie
    header, appended last;
  - one solve-and-retry step for proof-of-work challenge pages;
  - sanitize, parse and render, then persist.
- **Prompt construction** (package `ai`): the language-code table and the three
  system prompts, which are fixed templates filled in by `fmt.Sprintf`.

The model is functional. The folder and feed tables are sequences of rows
with a next-key counter, and lookups return the first matching row. A
database failure during import is an oracle `fails: Request -> bool`, so the
all-or-nothing behaviour can be stated.

Some collaborators cannot be seen, so they are parameters of the `Web`
datatype: URL parsing, the HTTP transport, the challenge detector and
solver, the solver's cookie cache, the sanitizer, and the readability
parser and renderer. Each call returns a trace of the requests, solve
attempts and writes it made. Properties such as "nothing is sent before the
URL checks pass", "at most one solve" and "no write on failure" are
statements about that trace.

Files:

| file | module | contents |
|---|---|---|
| wrappers.dfy | Wrappers | `Option`, `Result` |
| errors.dfy | Errors | the service's error values |
| text.dfy | Text | Go's `strings.TrimSpace` (Unicode white space), ASCII lower-casing, byte-order string comparison |
| sorting.dfy | Sorting | sorting by a string key, as `sort.Slice` with a `<` comparator |
| store.dfy | Store | folder and feed tables, the repository lookups and inserts |
| folders.dfy | Folders | `folderService` |
| opml_outline.dfy | Outlines | the outline record, `isFeedOutline`, `pickOutlineTitle` |
| opml_import.dfy, opml_import_facts.dfy | OpmlImport, OpmlImportFacts | import and its properties |
| opml_export.dfy, opml_export_facts.dfy | OpmlExport, OpmlExportFacts | export and its properties |
| opml_roundtrip.dfy | OpmlRoundTrip | export followed by import |
| readability.dfy, readability_facts.dfy | Readability, ReadabilityFacts | readable-content acquisition |
| prompts.dfy, prompts_facts.dfy | Prompts, PromptsFacts | prompt construction |

A second challenge page after the retry is returned as the fetched body, not
as an error (`ReadabilityFacts.ChallengeRetryReturnsBody`).

## Model

| member | source | states |
|---|---|---|
| Folders.Create | backend/internal/service/folder_service.go:29-49 | a failed Create leaves the table unchanged; a successful one appends exactly one folder with the trimmed name, the given parent and a fresh key |
| Folders.CreateErrors | backend/internal/service/folder_service.go:29-46 | Invalid iff the name is blank; NotFound iff the name is usable but the parent is missing; Conflict iff both pass and a sibling already has the trimmed name; success iff none of these |
| Folders.CreateKeepsValid | backend/internal/service/folder_service.go:42-48 | Create keeps keys distinct and sibling names unique, and the new key was not in use |
| Folders.CreateTwiceConflicts | backend/internal/service/folder_service.go:42-46 | creating the same name under the same parent a second time is a Conflict |
| Folders.Update | backend/internal/service/folder_service.go:55-84 | a failed Update leaves the table unchanged; a successful one rewrites exactly the row with that key, giving it the trimmed name and the new parent |
| Folders.UpdateInvalid | backend/internal/service/folder_service.go:56-62 | Invalid iff the name is blank or the folder is named as its own parent |
| Folders.UpdateNotFound | backend/internal/service/folder_service.go:63-76 | NotFound iff the earlier checks pass and either the parent or the folder itself is missing |
| Folders.UpdateConflict | backend/internal/service/folder_service.go:77-81 | on a valid table, Conflict iff every earlier check passes and a different folder already has the trimmed name under the new parent |
| Folders.UpdateKeepsValid | backend/internal/service/folder_service.go:77-83 | Update keeps keys distinct and sibling names unique |
| Folders.UpdateKeepsOwnName | backend/internal/service/folder_service.go:77-81 | updating a folder to its own current name and parent succeeds, because a name match with its own key is not a conflict |
| Folders.UpdateAllowsCycle | backend/internal/service/folder_service.go:60-62 | only direct self-parenting is rejected: moving a folder under its own child succeeds and leaves two folders each the other's parent |
| Folders.Delete | backend/internal/service/folder_service.go:86-94 | NotFound iff the key is missing, and then nothing changes; otherwise exactly the folders with that key are removed |
| Outlines.FeedOutlineNormalized | backend/internal/service/opml_service.go:191-197 | how an outline is classified does not depend on white space around its xmlUrl or type, nor on the case of its type, and a usable xmlUrl makes it a feed whatever its type says |
| Outlines.PickOutlineTitle | backend/internal/service/opml_service.go:199-204 | the label is one of the two attributes, untrimmed, and is blank only when both are blank, which is when ensureFolder falls back to "Untitled" |
| OpmlImport.FolderNameOrUntitled | backend/internal/service/opml_service.go:130-132 | the result is never blank, and a name that is not blank is kept as it is |
| OpmlImport.EnsureFolder | backend/internal/service/opml_service.go:129-144 | the folder found or created has the (possibly "Untitled") name and the parent; if found, the table is unchanged and the folder is stored; if created, exactly one row is appended |
| OpmlImportFacts.FeedTitleUsable | backend/internal/service/opml_service.go:165-171 | given the trimmed, non-blank URL importFeed passes in, the title a new feed is stored with is never empty and has no surrounding white space |
| OpmlImportFacts.OptionalStringNormalized | backend/internal/service/opml_service.go:177 | a stored site URL is never empty and has no surrounding white space, and trimming the attribute beforehand changes nothing |
| OpmlImportFacts.ImportFeedWellFormed | backend/internal/service/opml_service.go:165-186 | every feed importFeed creates has a non-empty trimmed URL and title, and a site URL that is absent or non-empty and trimmed |
| OpmlImport.ImportFeed | backend/internal/service/opml_service.go:146-189 | a blank URL, or one already stored, only bumps the skipped-feeds counter; otherwise at most one feed with the trimmed URL is appended and exactly one feed counter goes up |
| OpmlImport.ImportFeedOutline | backend/internal/service/opml_service.go:105-107 | the feed branch only appends rows and is counted as one feed outline |
| OpmlImport.EnterFolder | backend/internal/service/opml_service.go:109-118 | the folder step only appends rows and is counted as one folder outline, as created or as skipped |
| OpmlImport.ImportOutline | backend/internal/service/opml_service.go:97-127 | a successful import of one outline only appends rows, and bumps one counter per folder outline and per feed outline in it, counting a feed outline's nested outlines not at all |
| OpmlImport.ImportOutlines | backend/internal/service/opml_service.go:120-124 | the same for a list of sibling outlines |
| OpmlImport.Import | backend/internal/service/opml_service.go:40-66 | an unparsable document is Invalid; any error returns zero counters and the database as it was; on success the counters account for every outline and the database only grew |
| OpmlImport.FeedChildrenIgnored | backend/internal/service/opml_service.go:105-107 | the nested outlines of a feed outline make no difference to its import |
| OpmlImportFacts.EnsureFolderKeepsValid | backend/internal/service/opml_service.go:129-144 | ensureFolder keeps folder keys distinct and sibling names unique |
| OpmlImportFacts.ImportFeedKeepsValid | backend/internal/service/opml_service.go:146-189 | importFeed keeps feed keys distinct and feed URLs unique |
| OpmlImportFacts.ImportOutlineKeepsValid | backend/internal/service/opml_service.go:97-127 | importing an outline keeps both tables valid |
| OpmlImportFacts.ImportOutlinesKeepsValid | backend/internal/service/opml_service.go:120-124 | importing sibling outlines keeps both tables valid |
| OpmlImportFacts.ImportKeepsValid | backend/internal/service/opml_service.go:40-66 | Import, whether it commits or rolls back, leaves valid tables valid |
| OpmlImportFacts.EnsureFolderFinds | backend/internal/service/opml_service.go:133-143 | after ensureFolder, a lookup of the name under the parent finds the folder it returned |
| OpmlImportFacts.ImportFeedCovers | backend/internal/service/opml_service.go:153-187 | after importFeed, a feed outline with a usable URL has that trimmed URL stored |
| OpmlImportFacts.ImportOutlineCovers | backend/internal/service/opml_service.go:97-127 | after importing an outline, every folder and feed it describes is stored where a re-import would look for it |
| OpmlImportFacts.ImportOutlinesCovers | backend/internal/service/opml_service.go:54-59 | the same for a list of outlines |
| OpmlImportFacts.ImportOutlineSucceeds | backend/internal/service/opml_service.go:97-127 | without database faults, importing an outline never fails |
| OpmlImportFacts.ImportOutlinesSucceed | backend/internal/service/opml_service.go:120-124 | without database faults, importing sibling outlines never fails |
| OpmlImportFacts.ReimportFeedSkips | backend/internal/service/opml_service.go:153-163 | a feed outline whose URL is already stored changes nothing and counts one skipped feed |
| OpmlImportFacts.ReenterFolderSkips | backend/internal/service/opml_service.go:133-136 | a folder outline whose folder is stored finds it, changes nothing and counts one skipped folder |
| OpmlImportFacts.ReimportOutlineSkips | backend/internal/service/opml_service.go:97-127 | importing an outline that is already stored changes nothing and counts every outline in it as skipped |
| OpmlImportFacts.ReimportOutlinesSkips | backend/internal/service/opml_service.go:120-124 | the same for a list of outlines |
| OpmlImportFacts.ImportCommits | backend/internal/service/opml_service.go:46-65 | when the transaction opens and commits, Import returns exactly what the walk over the outlines produced |
| OpmlImportFacts.ReimportSkipsAll | backend/internal/service/opml_service.go:40-66 | importing a document whose outlines are all stored commits, stores nothing, and reports every outline as skipped |
| OpmlImportFacts.ImportTwiceSkipsAll | backend/internal/service/opml_service.go:40-66 | importing the same document twice without faults: the first import commits, and the second stores nothing new and reports every outline as skipped |
| OpmlExport.ParentOf | backend/internal/service/opml_service.go:222-228 | a folder hangs under a node iff its parent key is set and names a stored folder, and that node is the folder with that key |
| OpmlExport.RootFolders | backend/internal/service/opml_service.go:217-229 | the top-level folders are exactly the stored folders with no parent, or with a parent that does not exist |
| OpmlExport.ChildFolders | backend/internal/service/opml_service.go:229 | the children of a node are exactly the stored folders whose parent key is that node's key |
| OpmlExport.FolderFeeds | backend/internal/service/opml_service.go:238-243 | the feeds of a node are exactly the feeds filed under its key |
| OpmlExport.RootFeeds | backend/internal/service/opml_service.go:231-243 | the top-level feeds are exactly those with no folder, or with a folder that does not exist |
| OpmlExport.BuildNode | backend/internal/service/opml_service.go:206-243 | a node carries its folder, the feeds filed in it, and one child node per child folder, in table order |
| OpmlExport.FeedOutline | backend/internal/service/opml_service.go:284-295 | a feed outline has no nested outlines and is ordered by the feed's lower-cased title |
| OpmlExport.FolderOutline | backend/internal/service/opml_service.go:263-282 | a folder outline is ordered by the lower-cased folder name and has one nested outline per sub-folder and per feed |
| OpmlExport.Export | backend/internal/service/opml_service.go:212-261 | the export has one top-level outline per top-level folder and per top-level feed |
| OpmlExportFacts.FeedOutlineIsFeed | backend/internal/service/opml_service.go:284-295 | an exported feed reads back as a feed outline with the feed's title, URL and site URL |
| OpmlExportFacts.FolderOutlineIsFolder | backend/internal/service/opml_service.go:263-282 | an exported folder reads back as a folder outline whose title and text are the folder name |
| OpmlExportFacts.FolderOutlineOrdered | backend/internal/service/opml_service.go:263-282 | at every level of a folder outline, sub-folders come before feeds, and each group is in non-decreasing order of its lower-cased label |
| OpmlExportFacts.ExportOrdered | backend/internal/service/opml_service.go:246-261 | the whole export is ordered that way, from the top level down |
| OpmlExportFacts.ExportFoldersOnce | backend/internal/service/opml_service.go:212-229 | with distinct keys and acyclic parent keys, every stored folder appears in the export tree exactly once |
| OpmlExportFacts.ExportFeedsOnce | backend/internal/service/opml_service.go:231-261 | with distinct keys and acyclic parent keys, every stored feed appears exactly once in the folder-node tree the export is written from, under its folder or at the top level |
| OpmlExportFacts.ExportFeedOutlines | backend/internal/service/opml_service.go:212-295 | with distinct keys and acyclic parent keys, the feed outlines of the exported outline list, found the way import walks it, are exactly the outlines of the stored feeds, each once |
| OpmlExportFacts.ExportCounts | backend/internal/service/opml_service.go:212-295 | import would count as many folder outlines in the export as there are folders, and as many feed outlines as there are feeds |
| OpmlRoundTrip.FeedRoundTrip | backend/internal/service/opml_service.go:284-295 | importing the outline export writes for a well-formed feed, into a table without its URL, appends that feed again under the next key with the same title, URL and site URL |
| OpmlRoundTrip.ExportThenImportSkipsAll | backend/internal/service/opml_service.go:40-95 | importing an export back into the tables it came from commits, creates nothing, and reports every folder and every feed as skipped |
| OpmlRoundTrip.ExportDropsCycle | backend/internal/service/opml_service.go:217-229 | two folders that are each other's parent are both left out of the export |
| Readability.CookieFor | backend/internal/service/readability_service.go:156-163 | the cookie sent is the explicit one, else the solver's non-empty cached cookie for the host, else none; it is never empty |
| Readability.RequestHeaders | backend/internal/service/readability_service.go:137-163 | the fixed headers come first, then exactly one cookie header with the chosen cookie, or none |
| Readability.FetchWithChrome | backend/internal/service/readability_service.go:125-197 | a body is returned only after a request was sent |
| Readability.Persist | backend/internal/service/readability_service.go:110 | the write changes only the readable content of that one entry |
| Readability.Extract | backend/internal/service/readability_service.go:81-102 | every failure of sanitize, parse or render is a wrapped error |
| Readability.FetchReadableContent | backend/internal/service/readability_service.go:56-115 | the repository is either unchanged, or holds the returned content for that entry; successful content is never empty |
| ReadabilityFacts.FetchChecksBeforeSending | backend/internal/service/readability_service.go:126-134 | a request is sent iff the URL parses with scheme http or https; an unparsable URL is FeedFetch and any other scheme is Invalid, both with nothing sent |
| ReadabilityFacts.FetchSendsBrowserRequests | backend/internal/service/readability_service.go:137-169 | every request goes to the target URL with the sixteen fixed Chrome headers (fixed names and values in order, the configured user agent last), followed by at most one non-empty cookie header |
| ReadabilityFacts.FetchFirstRequestCookie | backend/internal/service/readability_service.go:156-163 | the first request carries the explicit cookie, else the cached one for the host, else no cookie header |
| ReadabilityFacts.FetchBadStatusNoRetry | backend/internal/service/readability_service.go:174-176 | a status other than 200 ends the fetch with that status after exactly one request |
| ReadabilityFacts.FetchWithCookieNeverSolves | backend/internal/service/readability_service.go:181 | with an explicit cookie there is at most one request and no solve |
| ReadabilityFacts.SolveNeedsSolverAndNoCookie | backend/internal/service/readability_service.go:181 | a solve is attempted only when a solver is configured and no explicit cookie was given |
| ReadabilityFacts.FetchSolvesAtMostOnce | backend/internal/service/readability_service.go:181-194 | if the solver returns real cookies, a fetch solves at most once, sends at most two requests, and finishes within one retry |
| ReadabilityFacts.FetchRoundsSuffice | backend/internal/service/readability_service.go:188-193 | if the solver returns real cookies, any bound of one retry or more gives the same fetch |
| ReadabilityFacts.FetchEmptyCookieNeverEnds | backend/internal/service/readability_service.go:181-194 | if every response is a challenge and the solver answers with an empty cookie, no retry bound suffices, and each round solves once more |
| ReadabilityFacts.ChallengeRetryReturnsBody | backend/internal/service/readability_service.go:181-196 | after a solved challenge, the retry carries the solved cookie, not the cached one, and its 200 body is the result even if it is another challenge page |
| ReadabilityFacts.FetchErrors | backend/internal/service/readability_service.go:125-197 | a fetch fails only with FeedFetch, Invalid, a request error, an HTTP status, or a solve error |
| ReadabilityFacts.FetchNeverWrites | backend/internal/service/readability_service.go:125-197 | the fetch never writes to the repository |
| ReadabilityFacts.ReadableLookupFails | backend/internal/service/readability_service.go:57-63 | a lookup error other than "no rows" is passed through, with nothing fetched or written |
| ReadabilityFacts.ReadableMissingEntry | backend/internal/service/readability_service.go:57-63 | a missing entry is NotFound, with nothing fetched or written |
| ReadabilityFacts.ReadableCacheFirst | backend/internal/service/readability_service.go:65-68 | non-empty cached content is returned as it is, with nothing fetched or written |
| ReadabilityFacts.ReadableNeedsUrl | backend/internal/service/readability_service.go:70-73 | without cached content, a nil or empty URL is Invalid, with nothing fetched or written |
| ReadabilityFacts.ReadableReturnsStored | backend/internal/service/readability_service.go:104-114 | after a successful call, the entry's stored readable content is exactly the returned string |
| ReadabilityFacts.ReadableIdempotent | backend/internal/service/readability_service.go:65-68 | after a success, a second call returns the same content with nothing fetched or written, whatever the network does |
| ReadabilityFacts.ReadableWritesExtracted | backend/internal/service/readability_service.go:76-114 | a write happens only for a stored entry with no cached content and a URL, after fetching that URL succeeded; the content written is the sanitize-parse-render extraction of the fetched body, right after the fetch's requests; a success that did any I/O returns exactly what it wrote |
| ReadabilityFacts.ReadableWritesLast | backend/internal/service/readability_service.go:98-114 | at most one write; it is the last event and carries non-empty content for that entry; a call that does not succeed leaves the repository as it was |
| ReadabilityFacts.ReadableEmptyRenderInvalid | backend/internal/service/readability_service.go:104-107 | an empty rendering is Invalid, with nothing written |
| ReadabilityFacts.ReadableUrlParseFailureUnreachable | backend/internal/service/readability_service.go:85-89 | the second URL parse never fails, because the fetch already rejected any URL that does not parse |
| Prompts.TitleTag | backend/internal/service/ai/prompts.go:32-35 | the title tag is empty iff the title is empty |
| PromptsFacts.LanguageNameFallback | backend/internal/service/ai/prompts.go:22-28 | the name equals the code iff the code is not listed |
| PromptsFacts.LanguageTable | backend/internal/service/ai/prompts.go:6-20 | the table lists exactly the thirteen codes, and en-US and en-GB both map to English |
| PromptsFacts.LanguageNamesDistinct | backend/internal/service/ai/prompts.go:6-20 | two listed codes share a name only if they are the two English variants |
| PromptsFacts.TitleTagShape | backend/internal/service/ai/prompts.go:32-35 | a non-empty title becomes a newline followed by the title inside article_title tags |
| PromptsFacts.FormatsMatchArguments | backend/internal/service/ai/prompts.go:34-154 | each template has exactly as many %s verbs as its call passes arguments, so fmt adds no error marker |
| PromptsFacts.ArticleSlots | backend/internal/service/ai/prompts.go:31-116 | an article prompt is its fixed text with the title tag in the context slot, and the language name as the target language and twice in the language constraint |
| PromptsFacts.SummarizeSlots | backend/internal/service/ai/prompts.go:31-72 | the summarization prompt, slot by slot |
| PromptsFacts.TranslateBlockSlots | backend/internal/service/ai/prompts.go:75-116 | the HTML-block translation prompt, slot by slot |
| PromptsFacts.TranslateTextSlots | backend/internal/service/ai/prompts.go:119-155 | the plain-text prompt is its fixed text with the text type in the role and as the content type, the language name in three slots, and no title slot |
| PromptsFacts.ArticleTitleLine | backend/internal/service/ai/prompts.go:32-44 | an untitled article's prompt is the titled layout without the title line; a titled one has the title tag right after the opening context tag |
| Sorting.SortBy | backend/internal/service/opml_service.go:246-251 | the result is a permutation of the input, ordered by the lower-cased key |
| Text.TrimSpaceIdempotent | backend/internal/service/folder_service.go:30 | trimming twice is the same as trimming once |

## Left out

- I/O is not modelled: the SQL driver, transactions (modelled as keeping or discarding a snapshot of the tables), `time.Now` in Export, and `opml.Parse`/`opml.Encode`. Import takes the parsed outlines, or None for a document that does not parse. Export returns the outline list, not the encoded bytes.
- The scheduler (backend/internal/scheduler/scheduler.go) is left out. It is a goroutine, a ticker and a wait group, with no sequential logic to model.
- Database setup (backend/internal/db/db.go) is left out. It consists of directory creation, the driver, migrations and DSN escaping.
- Some readability collaborators are parameters rather than models: the TLS session and transport, the bluemonday policy, the go-readability parser and renderer, the challenge detector and solver (their source is not part of this model), and the configured user agent. `Close`, logging and context cancellation are left out.
- Response bodies are strings rather than byte slices. The response cookies reach the solver as a sequence, in an order the model does not fix (the source iterates over a map).
- Readability.FetchWithChrome: the `rounds` parameter bounds the nested retries, and an exhausted bound is reported as a missing outcome. The source has no bound. It ends after one retry whenever the solver returns a non-empty cookie (FetchRoundsSuffice). If every response is a challenge page and the solver keeps returning an empty cookie with no error, the source keeps retrying (FetchEmptyCookieNeverEnds).
- Readability.Web: the solver's cookie cache and the solver are functions without state. A solve does not store its cookie in the cache, so a retry with an empty solved cookie reads the same cached value as before the solve. The real solver caches the cookie per host, so that retry would send it.
- Text.ToLower lower-cases ASCII letters only; Go's `strings.ToLower` also maps other Unicode letters. String comparison is by code point, which for valid UTF-8 agrees with Go's byte-wise `<`.
- Sorting.SortBy: `sort.Slice` is not stable. Labels that compare equal may come out in any order, and the model fixes one such order. The ordering and permutation properties hold for every such order.
- OpmlExport.BuildNode: the source attaches children by walking a map. The model walks the table in order, and a folder key seen twice keeps only one node in the source. Distinct folder keys are a table invariant here. Export's properties assume them, and assume parent keys without cycles. Folders on a cycle of parent keys are never reached from the top level, and so are not exported (OpmlRoundTrip.ExportDropsCycle).
- OpmlImport.OptionalString: `optionalString` is defined in a file that is not part of this model. It is modelled as trim, with a blank value becoming nil.
- OpmlImport.ImportFeed: the "no rows" branch of feed creation cannot be reached in the model, because creation fails that way only for a URL that the lookup just before it would have found.
- Folders: `List` is a plain repository call and is left out. Repository errors other than "no rows" are left out for the folder service, because its tables never fail.
- Prompts: the templates are fixed text with `%s` verbs and no other verb. `Sprintf` models only `%s` with string arguments, including fmt's markers for missing and extra arguments.
