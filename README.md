# FOLNEB PDF tools — a Dafny model

FOLNEB converts and combines PDF and Word documents. This project models the core of it:

- **Submission API.** The API (`ilikepdf/api/src/index.ts`) takes uploaded files, stores each one in an object bucket and enqueues a job. Clients poll the job's state, and for a finished job they ask for a signed download URL.
- **Worker.** The worker (`ilikepdf/worker/src/index.ts`) handles each job in four steps:
  - it stages the job's inputs in a scratch directory;
  - it plans the command lines for the requested operation (merge, compress, split, docx2pdf, pdf2docx, ocr, flatten);
  - it runs those commands;
  - it stores the output under `out/<id>/<time>-<op><ext>`.
- **React client.** The client (`ilikepdf/web/src/App.tsx`):
  - submits the selected files;
  - polls until a final state;
  - offers the download of a completed job;
  - can merge PDFs in the browser.
- **Static site.** Two scripts are modelled:
  - the Word-to-PDF placeholder page (`converter.js`);
  - the service worker (`sw.js`), which precaches the assets, drops stale caches and serves GET requests cache-first while refreshing from the network.

## How the model is laid out

- Each component is one module:
  - `Worker` in `worker.dfy`;
  - `Api` in `api.dfy`;
  - `WebApp` in `web_app.dfy`;
  - `Converter` in `converter.dfy`;
  - `ServiceWorker` in `service_worker.dfy`.
- Shared values live in two modules:
  - `Protocol`: the job payload, the job result, the form parts and the status answer;
  - `Text`: decimal and hexadecimal text, POSIX `basename` and `join`.
- What the source changes in place is modelled as a class with `modifies` clauses:
  - the worker's bucket and scratch directory (`Worker.WorkerHost`);
  - the API's bucket and queue (`Api.ApiServer`);
  - the React component's state (`WebApp.App`);
  - the converter page (`Converter.ConverterPage`);
  - the browser's cache storage (`ServiceWorker.CacheStorage`).
- What the source only computes is modelled as a function, with lemmas about it:
  - command planning, output naming and the path rewriting of docx2pdf;
  - polling and routing;
  - naming of the converted file;
  - cache lookup.
- The outside world enters as parameters:
  - random bytes, the clock and fresh UUIDs;
  - exit statuses of the external tools, directory listings and files the tools produce;
  - faults of the API's store writes and of its queue, and of the worker's store write;
  - network answers and the URL signer.

## Model

| member | source | states |
|---|---|---|
| Worker.ParseOp | ilikepdf/worker/src/index.ts:31-62 | an op string is recognised exactly when it is one of the seven operation names, and nothing else is |
| Worker.ParseOpName | ilikepdf/worker/src/index.ts:31-60 | every operation's name is recognised as that operation |
| Worker.UnknownOpMessage | ilikepdf/worker/src/index.ts:61-62 | an unrecognised op fails with the message `Unknown op <op>` |
| Worker.Run | ilikepdf/worker/src/index.ts:71-75 | a command succeeds exactly when it exits with code 0; otherwise its error reads `<cmd> <args joined by spaces> -> <code>`, with `null` for a killed process |
| Worker.FirstFailingStep | ilikepdf/worker/src/index.ts:33-59 | the awaited commands stop at the first one that fails; there is no failure exactly when every command succeeds |
| Worker.FirstFailingStepAt | ilikepdf/worker/src/index.ts:33-59 | a failing command after commands that all succeeded is the one that ends the job |
| Worker.Rand | ilikepdf/worker/src/index.ts:77 | six random bytes become 12 lower-case hexadecimal characters |
| Text.Hex | ilikepdf/worker/src/index.ts:77 | `toString("hex")` writes each byte as two lower-case hexadecimal digits, its high half first |
| Text.HexRoundTrip | ilikepdf/worker/src/index.ts:77 | the hexadecimal text reads back as the bytes it was written from |
| Text.HexInjective | ilikepdf/worker/src/index.ts:77 | different random bytes never give the same hexadecimal text |
| Text.Basename | ilikepdf/worker/src/index.ts:24 | `basename` never keeps a `/` |
| Text.BasenameOfJoin | ilikepdf/worker/src/index.ts:24 | the basename of `<dir>/<name>`, and of `<name>` itself, is `<name>` for a non-empty name without `/` |
| Worker.StagedPathsShape | ilikepdf/worker/src/index.ts:22-28 | one staged path per input, in input order, each `<tmp>/<12 hex>-<basename of the name>` |
| Worker.StagedPathsDistinct | ilikepdf/worker/src/index.ts:24 | inputs staged with different random bytes get different scratch files |
| Worker.StagingDropsDirectories | ilikepdf/worker/src/index.ts:24 | directories in an input's name never reach the staged path |
| Worker.FirstUnstored | ilikepdf/worker/src/index.ts:23-28 | the first input whose key is missing from the bucket, and that all earlier ones are present |
| Worker.FirstUnstoredAt | ilikepdf/worker/src/index.ts:23-28 | an input that is missing while every earlier one is present is the first missing input |
| Worker.ListLike | ilikepdf/worker/src/index.ts:78-82 | the listing keeps exactly the entries that start with the prefix's last segment and end with the extension, each joined to the directory |
| Worker.ListLikeKeepsOrder | ilikepdf/worker/src/index.ts:81 | the filter keeps the listing's order: it distributes over concatenation |
| Worker.ReplaceOnSingleLine | ilikepdf/worker/src/index.ts:46 | on a one-line path, `replace(/.*[\\/]/, …)` replaces everything through the last separator by the replacement with its `$` patterns expanded; a replacement without `$` is inserted as it is |
| Worker.ReplaceKeepsPlainSuffix | ilikepdf/worker/src/index.ts:46 | that replacement never touches a tail without separators or line terminators |
| Worker.ReplaceInScratch | ilikepdf/worker/src/index.ts:46 | replacing through the last separator of `<tmp>/<leaf>` by `<tmp>/` keeps the leaf behind the directory as `replace` expands it, which is the directory itself when it holds no `$` |
| Worker.SubstituteCollapsesDollars | ilikepdf/worker/src/index.ts:46 | in a replacement, `$$` stands for one `$` |
| Worker.ReplaceDocxSuffix | ilikepdf/worker/src/index.ts:46 | a final `.docx`, in any letter case, becomes `.pdf`; any other path is unchanged |
| Worker.ReplaceDocxSuffixAfterDash | ilikepdf/worker/src/index.ts:46 | the suffix rewrite only affects the part after the random prefix |
| Worker.Docx2PdfOutPathOfPlainLeaf | ilikepdf/worker/src/index.ts:46 | for a one-line scratch directory and a leaf without separators or line breaks, the output path is the leaf with a final `.docx` replaced by `.pdf`, behind the directory with its `$` patterns expanded; a directory without `$` is kept as it is |
| Worker.Docx2PdfOutPathOfStagedFile | ilikepdf/worker/src/index.ts:46 | for a one-line scratch directory and a staged name on one line whose basename holds no `\`, the output path is `<hex>-<basename with .docx replaced by .pdf>` behind the expanded directory, and exactly `<tmp>/<hex>-<…>` when the directory holds no `$` |
| Worker.Docx2PdfOutPathWithDollars | ilikepdf/worker/src/index.ts:46 | a scratch directory ending in `$$` loses a `$` in the output path, which is then not the file the converter wrote |
| Worker.PlanJob | ilikepdf/worker/src/index.ts:30-63 | planning fails, with a missing input, exactly for an op other than merge that has no inputs; a plan has one or two commands |
| Worker.PlanInputs | ilikepdf/worker/src/index.ts:32-60 | merge passes all staged files to one `gs` call after the output option; every other op reads only the first staged file |
| Worker.OutputExtension | ilikepdf/worker/src/index.ts:65 | `.zip` for a `.zip` path, else `.docx` for a `.docx` path, else `.pdf` |
| Worker.PlanOutPath | ilikepdf/worker/src/index.ts:30-56 | where each op leaves its result: `<id>-out.pdf` for merge, compress and flatten, `<id>-parts.zip` for split, the rewritten staged path for docx2pdf, `<id>.docx` for pdf2docx and `<id>-ocr.pdf` for ocr, all in the scratch directory |
| Worker.Docx2PdfExtension | ilikepdf/worker/src/index.ts:46-65 | a staged `.docx` input gives docx2pdf an output path ending in `.pdf`, so its result is stored as a `.pdf` |
| Worker.OutputKeyShape | ilikepdf/worker/src/index.ts:65 | the output key is `out/<id>/` followed by `<time>-<op>` and the extension |
| Text.NatToString | ilikepdf/worker/src/index.ts:65 | `Date.now()` is written as a non-empty string of decimal digits that starts with `0` only for zero |
| Text.NatToStringRoundTrip | ilikepdf/worker/src/index.ts:65 | the decimal text of a time reads back as that time |
| Worker.OutputExtensionByOp | ilikepdf/worker/src/index.ts:30-65 | split stores a `.zip`, pdf2docx a `.docx`, and merge, compress, ocr and flatten a `.pdf`; docx2pdf stores a `.pdf` when its input was a `.docx` |
| Worker.WorkerHost.Fetch | ilikepdf/worker/src/index.ts:23-28 | the bucket is unchanged; inputs are copied in order, and scratch becomes `Fetched` of the inputs read so far: all of them, or those before the first missing input, which fails with its key |
| Worker.FetchedHoldsEachInput | ilikepdf/worker/src/index.ts:25-26 | with distinct paths, each input's path holds exactly that input's stored bytes afterwards |
| Worker.FetchedKeepsOthers | ilikepdf/worker/src/index.ts:25-26 | a scratch file at no input's path is kept as it was, and no other file appears |
| Worker.StagedFilesHoldInputs | ilikepdf/worker/src/index.ts:22-28 | with distinct random bytes, each staged file holds exactly its own input's stored bytes |
| Worker.Written | ilikepdf/worker/src/index.ts:33-59 | running commands never removes a scratch file |
| Worker.WrittenAppend | ilikepdf/worker/src/index.ts:33-59 | running one more command adds the files it writes on top of the earlier ones |
| Worker.WrittenKeepsUntouched | ilikepdf/worker/src/index.ts:33-59 | a file no command writes keeps its presence and its contents |
| Worker.WorkerHost.RunSteps | ilikepdf/worker/src/index.ts:33-59 | the commands are awaited in order up to the first failure, which is reported; the bucket is unchanged and scratch holds what the commands up to and including the failing one wrote |
| Worker.WorkerHost.Stage | ilikepdf/worker/src/index.ts:22-28 | staging fails on the first missing input, with the earlier inputs fetched; otherwise the local files are the staged paths, in input order, and scratch is `Fetched` of all inputs at those paths |
| Worker.WorkerHost.Process | ilikepdf/worker/src/index.ts:19-68 | the job fails on the first missing input, an unknown op, a missing input or the first failing command, in that order, with the bucket unchanged; scratch holds the fetched inputs, plus what the commands up to the failing one wrote; otherwise scratch gains what every command wrote, and the job fails when the output file is absent or the store write throws, or else stores the output under the output key and returns the key |
| Worker.WorkerHost.Upload | ilikepdf/worker/src/index.ts:65-68 | reading a missing output file fails; a throwing store write fails with its message and leaves the bucket unchanged; otherwise the bucket gains the output's bytes under the key, without a content type |
| Api.ErrorText | ilikepdf/api/src/index.ts:47 | the error text is never empty: an empty message becomes exactly `server_error`, and any other message is kept |
| Api.UploadsOf | ilikepdf/api/src/index.ts:31 | `upload.array("files")` accepts a form exactly when every part is under `files`, and yields them in order, each with its bytes and with its name and type as the browser writes them into the body |
| Api.InputsFollowUploads | ilikepdf/api/src/index.ts:38-42 | one input per upload, in order, keyed `in/<id>/<uuid>-<original name>` with its name and type |
| Api.InputKeysDistinct | ilikepdf/api/src/index.ts:39 | distinct UUIDs of equal length give distinct input keys |
| Api.PutAllStoresEachInput | ilikepdf/api/src/index.ts:38-42 | with distinct keys, after the writes each input's key holds that upload's bytes and declared type |
| Api.InputsOfDistinctKeys | ilikepdf/api/src/index.ts:38-41 | the inputs built from pairwise-distinct identifiers of one length have pairwise-distinct keys |
| Api.UploadsAreStored | ilikepdf/api/src/index.ts:38-42 | with such identifiers, after the writes every upload is in the bucket under its own input's key with its declared type |
| Api.PutAllKeepsOthers | ilikepdf/api/src/index.ts:38-42 | the writes leave every key that no input uses exactly as it was, and add no other key |
| Api.FirstFault | ilikepdf/api/src/index.ts:38-42 | the first store write that throws, and that all earlier ones succeeded |
| Api.ApiServer.StoreInputs | ilikepdf/api/src/index.ts:38-42 | the queue is unchanged; the reported fault is the first store write that throws, and the bucket then holds only the earlier writes; without a fault, there is one input per upload, as `InputsOf` lists them, and every write is applied |
| Api.OptionsFor | ilikepdf/api/src/index.ts:44 | a job is added under its own id, with one attempt and kept on failure; it is removed on completion exactly in the as-written options |
| Api.ApiServer.PostJob | ilikepdf/api/src/index.ts:31-49 | no files gives 400 `no_files`; a throwing write gives 500 with its message and leaves only the earlier inputs stored; a throwing enqueue gives 500; otherwise every input is stored, the job is enqueued once with the options `asWritten` selects and `{id}` is returned; the queue changes only on success |
| Api.Complete | ilikepdf/api/src/index.ts:44 | finishing a job removes it when it was added with `removeOnComplete`, and otherwise keeps it `completed` with its result |
| Api.ApiServer.Finish | ilikepdf/api/src/index.ts:44 | the worker's completion of a job updates the queue as `Complete` says and leaves the bucket alone |
| Api.PollJob | ilikepdf/api/src/index.ts:52-61 | 404 `not_found` exactly when the lookup fails or the job is unknown; 500 `failed` exactly when reading its state throws; in every other case 200 with the queue's state, result, and progress, which is the queue's value when set and 0 otherwise |
| Api.PollUnknownJob | ilikepdf/api/src/index.ts:54-55 | a job that was never issued is answered with 404 `not_found` |
| Api.ParseTtl | ilikepdf/api/src/index.ts:66 | an unset or empty lifetime means 3600 seconds; a decimal one means its value |
| Api.ParseTtlRoundTrip | ilikepdf/api/src/index.ts:66 | a lifetime written in decimal is read back as that number |
| Api.Download | ilikepdf/api/src/index.ts:64-71 | 200 with the signed URL exactly when signing succeeds; otherwise 500 with the error text |
| Api.DownloadRouteKey | ilikepdf/api/src/index.ts:64 | the route binds a key only for a path under `/download/` |
| Api.PercentDecode | ilikepdf/api/src/index.ts:64 | decoding never lengthens the parameter, and leaves a parameter without `%` unchanged |
| WebApp.PollingStopsOnFinalAnswers | ilikepdf/web/src/App.tsx:19-25 | against the API, polling stops exactly on a non-200 answer, or when the job is `completed` or `failed` |
| WebApp.App.OnPollAnswer | ilikepdf/web/src/App.tsx:20-24 | a tick of one running timer: its answer becomes the status; exactly that timer stops, and only at `completed`, `failed` or `not_found`; the other timers keep running |
| WebApp.StopTimer | ilikepdf/web/src/App.tsx:23 | `clearInterval(t)` removes one timer and keeps every other running timer in order |
| WebApp.StopTimerCounts | ilikepdf/web/src/App.tsx:23 | stopping a timer leaves one timer fewer for its job id and as many as before for every other id |
| WebApp.TwoSubmissions | ilikepdf/web/src/App.tsx:11-25 | after two submissions, the first job's final answer leaves the second job's timer running, and the job shown is the second |
| WebApp.App.SelectFiles | ilikepdf/web/src/App.tsx:51 | the file input's selection replaces the files |
| WebApp.App.StartJob | ilikepdf/web/src/App.tsx:11-14 | the request goes to `/job/<op>`, with every selected file under `files`, under its own name, in order |
| WebApp.FormData.Append | ilikepdf/web/src/App.tsx:13 | each `append` adds one part, after the earlier ones |
| WebApp.StartJobFormIsAccepted | ilikepdf/web/src/App.tsx:13-14 | the API receives exactly the selected files, in order, with their bytes, and with their names and types as the browser writes them into the body |
| WebApp.PlainFileIsUploadedAsIs | ilikepdf/web/src/App.tsx:13-14 | a file whose name has no `"`, CR or LF and whose type is known reaches the handler unchanged |
| Protocol.WireFilenameEscapes | ilikepdf/web/src/App.tsx:13-14 | the file name written into the body never holds `"`, CR or LF |
| Protocol.WireFilenamePlain | ilikepdf/web/src/App.tsx:13-14 | a file name without `"`, CR and LF is written as it is |
| Protocol.WireFilenameConcat | ilikepdf/web/src/App.tsx:13-14 | file names are escaped character by character |
| Protocol.WireFilenameNotInjective | ilikepdf/web/src/App.tsx:13-14 | a name with `"` and the same name with `%22` in its place reach the server as one name |
| Protocol.WireType | ilikepdf/web/src/App.tsx:13-14 | a file without a type is sent as `application/octet-stream`; any other type is sent as it is |
| WebApp.App.OnSubmitted | ilikepdf/web/src/App.tsx:15-20 | the job becomes the answer's id, or `undefined` for an answer without one, and a new timer for that id starts beside the earlier ones |
| WebApp.RejectedSubmissionStopsPolling | ilikepdf/web/src/App.tsx:16 | after a rejected submission the client polls `undefined`, is answered `not_found` and stops |
| WebApp.App.ClientMerge | ilikepdf/web/src/App.tsx:27-38 | fewer than two files do nothing; a file that does not load aborts; otherwise `merged.pdf` holds every page of every file, file by file and page by page |
| WebApp.ConcatSplits | ilikepdf/web/src/App.tsx:30-35 | merging splits along any cut of the file list |
| WebApp.PdfDocument.AddPage | ilikepdf/web/src/App.tsx:34 | a page is appended after the existing ones |
| WebApp.DownloadShown | ilikepdf/web/src/App.tsx:64 | the Download button shows exactly for a `completed` status |
| WebApp.App.ShowsDownload | ilikepdf/web/src/App.tsx:64 | the component shows the button exactly when its last status is `completed` |
| WebApp.ResultKey | ilikepdf/web/src/App.tsx:41-42 | a download is attempted exactly for a non-empty `result.downloadKey`, and then with that key |
| WebApp.App.DownloadRequest | ilikepdf/web/src/App.tsx:40-43 | no request without a key; every request path starts with `/`; as written, the key is pasted after `/download/`; corrected, the route binds exactly that key from the path the browser requests, unless the key is `.` or `..` |
| WebApp.EncodeKey | ilikepdf/web/src/App.tsx:43 | an encoded key holds no `/`, `\`, `?` or `#`, and is never shorter than the key |
| WebApp.EncodeKeyRoundTrip | ilikepdf/web/src/App.tsx:43 | the route's percent-decoding gives back exactly the key from its encoding |
| WebApp.DownloadReachesRoute | ilikepdf/web/src/App.tsx:43 | an encoded key, in the path the browser requests for it, reaches the download handler as itself exactly when it is not empty, `.` or `..` |
| WebApp.PlainKeyReachesRoute | ilikepdf/web/src/App.tsx:43 | the browser requests `/download/<encoded key>` as it is written for a key other than the empty one, `.` and `..`, and the route binds that key |
| WebApp.DotKeysMissRoute | ilikepdf/web/src/App.tsx:43 | the browser resolves the paths for the empty key, `.` and `..` to `/download/` or `/`, which the route does not bind |
| WebApp.DotSegmentsDecode | ilikepdf/web/src/App.tsx:43 | a segment the browser reads as `.` or `..` decodes to `.` or `..` |
| WebApp.RequestPathOfOutputKey | ilikepdf/web/src/App.tsx:43 | the browser requests the as-written path of a worker key as it is written |
| WebApp.AsWrittenDownloadMissesRoute | ilikepdf/web/src/App.tsx:43 | as written, for a UUID-shaped job id and a known op, the path the browser requests for the worker's key reaches no download handler |
| WebApp.AsWrittenRequestMissesRoute | ilikepdf/web/src/App.tsx:43 | a client holding a key the worker produced for a UUID-shaped job id and a known op sends, as written, a request that the route does not bind |
| WebApp.CompletedJobForgottenAsWritten | ilikepdf/api/src/index.ts:44 | as written, the poll after completion answers `not_found`, and the button never shows |
| WebApp.CompletedJobOffersDownload | ilikepdf/web/src/App.tsx:19-44 | with completed jobs kept, the poll after completion stops polling, shows the button and yields the stored key |
| WebApp.JobLife | ilikepdf/api/src/index.ts:31-61 | submitting, completing and polling a job through the server: as written the poll answers 404 `not_found` and no button shows; corrected it answers 200, the button shows and it yields the worker's key; polling stops either way |
| Converter.StripExtension | converter.js:31 | `replace(/\.[^/.]+$/, "")` removes a final dot and its non-empty tail, when that tail has no `.` or `/`; otherwise the name is unchanged |
| Converter.PdfFileName | converter.js:31 | the link's name ends in `.pdf` after a prefix of the original name |
| Converter.StripExtensionOfNamed | converter.js:31 | `base.ext` loses exactly `.ext` |
| Converter.PdfFileNameIdempotent | converter.js:31 | renaming an already renamed file changes nothing |
| Converter.PdfFileNameKeepsEarlierDots | converter.js:31 | `a.b.docx` becomes `a.b.pdf`, and `.docx` becomes `.pdf` |
| Converter.PdfFileNameWithoutDot | converter.js:31 | a name without a dot just gains `.pdf` |
| Converter.PdfFileNameTrailingDot | converter.js:31 | a final bare dot is kept: `draft.` becomes `draft..pdf` |
| Converter.DownloadLink | converter.js:31-38 | the link points at `#`, downloads exactly the renamed `.pdf` file, reads `⬇ Download ` followed by that name and carries the class `download-link` |
| Converter.ConverterPage.HandleConversion | converter.js:2-14 | one more click listener is added exactly when all four elements exist; every call adds its own |
| Converter.ConverterPage.Click | converter.js:14-25 | with no listener nothing happens; with no file, the warning replaces the result; with one, the spinner shows, the result empties and every listener schedules its own conversion |
| Converter.ConverterPage.TimerFires | converter.js:27-39 | the oldest scheduled conversion hides the spinner and appends its link |
| Converter.ConvertOnce | converter.js:14-39 | choosing a file and waiting leaves exactly that file's link and a hidden spinner |
| Converter.ConvertAfterTwoSetups | converter.js:2-40 | after two setups, one click on a chosen file leaves two links for it once both timers fire |
| ServiceWorker.PrecacheEntries | sw.js:27 | `addAll` succeeds exactly when every precache URL answers ok and not with a partial `206`, and no URL is listed twice; then it writes one entry per URL |
| ServiceWorker.PrecacheFailsOnlyOnBadAnswer | sw.js:2-27 | no precache URL is listed twice, so installing fails exactly when some URL has no cacheable answer |
| ServiceWorker.Install | sw.js:25-29 | the current cache is opened, and created after the others when missing; the precache entries are added all at once or not at all; other caches are untouched |
| ServiceWorker.Precache | sw.js:26-28 | for any URL list: the current cache is opened, and created when missing, and the list's entries are added all at once exactly when every URL answers ok and not `206` and none is listed twice; other caches are untouched |
| ServiceWorker.StaleCacheNames | sw.js:34 | exactly the names other than `folneb-v1` |
| ServiceWorker.Activate | sw.js:31-37 | only the current cache survives, with its entries |
| ServiceWorker.OnlyCurrentLeft | sw.js:33-34 | distinct cache names that are all the current name are that name alone, or none |
| ServiceWorker.CacheStorage.Open | sw.js:27 | an existing cache is kept; a new one is created after the others |
| ServiceWorker.CacheStorage.Put | sw.js:45 | the URL's entry of the named cache becomes the response; nothing else changes |
| ServiceWorker.CacheStorage.PutAll | sw.js:27 | the entries are added to the named cache at once; nothing else changes |
| ServiceWorker.CacheStorage.Delete | sw.js:34 | the named cache is removed, and the order of the rest is kept |
| ServiceWorker.Match | sw.js:43 | the first cache, in creation order, that holds the URL answers; no cache answers when none holds it |
| ServiceWorker.MatchAfterActivation | sw.js:31-43 | once only the current cache is left, matching reads that cache |
| ServiceWorker.OnFetch | sw.js:39-51 | non-GET requests are left alone; a GET is answered from the cache when possible, else from the network; when the network fails, the storage is unchanged; when it answers, the current cache is opened and any non-206 response replaces its entry for the URL, while the other caches are untouched |
| ServiceWorker.Refresh | sw.js:44-45 | the refresh opens the current cache and stores a copy of every answer except a partial one; the other caches are untouched |
| ServiceWorker.RefreshedEntryServedNext | sw.js:44-48 | after activation, a refreshed entry answers the next request for that URL |

## Findings

| source | as written | input that shows it | evidently intended | confidence | as-written member | corrected member |
|---|---|---|---|---|---|---|
| ilikepdf/web/src/App.tsx:43 | the download key is pasted into the path unencoded | every key the worker returns, such as `out/<id>/<time>-merge.pdf`: its `/` characters make the path several segments long, so `/download/:key` never matches | encode the key as one path segment (`encodeURIComponent`) | high, not executed | WebApp.AsWrittenRequestMissesRoute | WebApp.DownloadReachesRoute |
| ilikepdf/api/src/index.ts:44 | jobs are added with `removeOnComplete: true` | any job that completes: it is deleted on completion, so the next poll answers `not_found` instead of `completed` with the result | keep completed jobs, at least until the client has polled them | medium, not executed | WebApp.CompletedJobForgottenAsWritten | WebApp.CompletedJobOffersDownload |

Both halves of each row go through the same members. `WebApp.App.DownloadRequest` and `Api.ApiServer.PostJob` take a flag `asWritten`:

- With `asWritten`, `DownloadRequest` pastes the key into the path unencoded, and `PostJob` enqueues with `Api.OptionsAsWritten`.
- Without it, `DownloadRequest` encodes the key, and `PostJob` enqueues with `Api.SubmitOptions`, which keeps completed jobs.
- `WebApp.JobLife` runs a job through `PostJob`, `Finish` and `PollJob` both ways.
- The rest of the model uses the corrected behaviour.

## Left out

- **External tools.** The output of `gs`, `soffice`, `zip`, `magick` and `tesseract` is a parameter of `Worker.WorkerHost.Process`: the files they produce and their exit statuses. The documents they write are not modelled.
- **Process spawning.** Inherited stdio and the `exit` event are not modelled.
- Worker.WorkerHost.Fetch: a store read fails only for a missing key. Other read errors, and a failing copy into scratch, are not modelled.
- Worker.Run: a process killed by a signal is one outcome, `null`; signal names are not kept.
- **Path joining.** `path.join` is modelled as `dir + "/" + name` for a normalised scratch directory. Normalisation of `..` and repeated slashes is not modelled.
- **Temporary files.** The temporary directory and its files are never cleaned up, and the model keeps them.
- Worker.PlanJob: for an op other than merge with no inputs, the source passes `undefined` as an argument, which `spawn` turns into the literal text `undefined`, so the tool is run on a file of that name. The job then fails in a way the model does not reproduce; the model fails it with its own error, a missing input.
- Api.ApiServer.PostJob: the parallel store writes of `Promise.all` are modelled in order. After a write throws, writes that were already in flight for later files are not modelled.
- **Upload limit.** The 200 MiB upload limit, CORS, Redis and S3 connection settings and `app.listen` are configuration and are not modelled.
- Api.ParseTtl: `Number` on a lifetime that is not a plain decimal (hexadecimal, exponent, surrounding blanks) is kept as unparsed text and not converted.
- Api.DownloadRouteKey: Express's case-insensitive matching of `/download/` is not modelled.
- Api.PercentDecode: an escape of a byte at or above 0x80 is kept as it is written, so UTF-8 sequences are not decoded into characters.
- WebApp.EncodeChar: the browser's own escaping of non-ASCII characters in a path is modelled as leaving them as they are, which the server's decoding would undo.
- Api.UploadsOf: the upload middleware's own reading of the `filename` parameter is not modelled: no backslash escapes, no path stripping and no Latin-1 decoding. The name arrives as the browser wrote it.
- ServiceWorker.PrecacheEntries: `addAll`'s refusal of a response carrying `Vary: *` is not modelled, and URLs are compared as listed, without resolution against the worker's scope.
- Api.PollJob: the queue's progress is an integer. Object progress values and BullMQ's other job fields are not modelled.
- **Queue behaviour.** Job attempts, retries and `removeOnFail` are not modelled. `Api.Complete` models only the completion the download depends on.
- **Client requests.** The client's API base URL is not modelled. Neither are the redirect to the signed URL and the JSON parsing of answers, including a failed download answer that sets `window.location.href` to `undefined`.
- **Rendering.** React rendering is not modelled, and neither are `downloadBlob`'s object-URL handling or the converter page's focus and blur styling (converter.js:43-51).
- WebApp.App.ClientMerge: the PDF loader is a parameter. The bytes of the saved document are not modelled; a document is its sequence of pages.
- **Converter timers.** The converter's 2-second timers all have the same delay, so they are modelled as firing in scheduling order.
- ServiceWorker.OnFetch: the service worker is simplified as follows:
  - URLs are used as cache keys without resolution against the worker's scope;
  - the asynchronous cache write is applied before the event ends;
  - `Cache.put`'s other refusals (`Vary: *`, non-HTTP schemes) are not modelled;
  - `skipWaiting` and `clients.claim` are lifecycle calls and are not modelled.
