# rs-backup: a Dafny model of the backup and restore walks

rs-backup is a pair of Node command-line scripts that back up a
remoteStorage account into a local directory (`backup.js`) and restore
such a backup into an account (`restore.js`). This project models the
sequential logic at their core and proves properties about it:

- **The rate-limited dispatch queue** of `rate-limited.js`
  (`rate_limited.dfy`, module `RateLimited`). It has pure step functions
  over the closure state (the queue, `currentlyEmptyingQueue` and whether a
  `_delay` timer is armed), a function that runs a limiter through a
  sequence of submit and tick events, and a `RateLimiter` class whose
  `Submit` and `Fire` methods update the fields the way the step functions
  say. Time is abstract: a tick is the moment an armed timer fires.
- **The backup expansion step** of `backup.js` (`backup.dfy`, module
  `Backup`). `BackupRun` holds the module-level state: the base URL, the
  local tree as a map from path to entry, the GETs issued, the exit flag,
  and the two limiters (one for directories, one for documents).
  `FetchDirectoryContents` creates the directory, fetches the listing,
  writes the descriptor and submits every child to the right limiter.
  `FetchDocument` writes a body on status 200 or 304.
- **The restore walk** of `restore.js` (`restore.dfy`, module `Restore`).
  `RestoreRun` reads folder descriptors from the local tree and recurses
  synchronously through directory keys. Document keys go onto the upload
  limiter. `PutDocument` builds the PUT headers from the captured metadata
  and classifies the reply.
- **Query-string assembly** of `add-query-params-to-url.js`
  (`query_params.dfy`, module `QueryParams`): the `?`/`&` choice by the
  regular expression `/\?\w+\=/`, then the `key=value` loop.
- Helpers that both scripts define (`common.dfy`, module `Common`):
  `isDirectory`, `initialDir`, `authScope`, `publicDir`, the base-URL
  normalisation of `lookupStorageInfo`, and the data shapes (listings, item
  metadata, local files).

The network, the discovery answer, the file system and `encodePath` are
values the model is given:

- the backup remote is a pair of functions from URL to reply;
- the restore server is a function from PUT request to reply;
- `encodePath` is a function parameter;
- the discovery answer is the `href` passed to `LookupStorageInfo`.

`process.exit` becomes the `exited` flag of `BackupRun`. The `TypeError`
of `Object.keys(undefined)` in restore becomes the `threw` result, which
stops the walk.

Three facts about the code shape the model:

- No request is ever retried: a failed fetch is either fatal or only
  logged.
- `backup.js` creates two independent limiters, one for directory listings
  (`backup.js:95`) and one for documents (`backup.js:69`). `restore.js`
  creates one, for uploads only (`restore.js:87`), and recurses through
  directories without pacing.
- In `backup.js`, four replies end the process: a rejected fetch, a body
  that is not JSON, a listing with a truthy `error` member, and a listing
  without `items`. The HTTP status of a listing is never inspected.
  Document status codes other than 200 and 304 are only logged.

Minor points of the code the model reflects:

- On success, `fetchDocument`'s `return true` sits inside the `'end'`
  listener, so its promise resolves to `undefined`. No caller reads the
  value, so `Written` carries no boolean.
- `storageBaseUrl` starts as `null`. A request issued before the lookup
  concatenates the string `"null"`, which is the constructors' initial
  value.
- A listing without `items` still has its descriptor written
  (`backup.js:81` comes before `backup.js:84`). The process ends before any
  child is submitted.

## Model

| member | source | states |
|---|---|---|
| Common.IsDirectory | backup.js:43-45 | true exactly when the string is non-empty and its last character is '/'; the empty string is not a directory |
| Common.InitialDir | backup.js:47 | the result is "" (exactly for the empty category) or a directory; a category already ending in '/' is unchanged; otherwise '/' is appended |
| Common.AuthScope | backup.js:31 | the scope ends in ":rw" and its prefix is the category when non-empty, else "*" |
| Common.NormalizeBaseUrl | backup.js:104-105 | the result always ends in '/', extends the href, equals it exactly when it already ended in '/', and is at most one character longer |
| Common.NormalizeBaseUrlIdempotent | backup.js:105 | normalising an already normalised base URL changes nothing |
| Common.InitialDirIdempotent | backup.js:47 | deriving the initial directory from an initial directory changes nothing |
| Common.PublicDir | restore.js:49-52 | defined exactly when the category is non-empty, and then equal to "public/" + initialDir, a directory |
| Common.IsDirectoryOfJoin | restore.js:104-105 | `dir + key` with a non-empty key is a directory exactly when the key is |
| RateLimited.EmptyQueueStep | rate-limited.js:14-24 | arms a timer (and sets the flag) exactly when the queue is non-empty, leaves the queue alone, may only be taken when no timer is pending, and restores the quiescent invariant |
| RateLimited.SubmitStep | rate-limited.js:26-30 | appends the captured argument and nothing else; leaves a timer pending; while draining it changes neither the flag nor the timer, so no second timer is armed |
| RateLimited.FireStep | rate-limited.js:17-20 | dispatches the front of a queue (non-empty, because a timer is pending) and keeps the rest in order; the flag stays set exactly when more than one closure was queued |
| RateLimited.Run | rate-limited.js:9-31 | over any event sequence, what was queued followed by what was submitted equals what was dispatched followed by what is still queued (FIFO), and the invariant holds afterwards |
| RateLimited.OnePerTick | rate-limited.js:17-19 | a run dispatches at most one closure per tick |
| RateLimited.DispatchOrder | rate-limited.js:18-28 | the k-th closure dispatched is the k-th one queued or submitted |
| RateLimited.DrainsInOrder | rate-limited.js:14-23 | a limiter with k closures queued, given k ticks, dispatches all of them in order and ends idle, with the flag cleared and no timer armed |
| RateLimited.FirstSubmissionWaits | rate-limited.js:17-29 | submitting to an idle limiter dispatches nothing; the next tick dispatches that closure and leaves the limiter idle |
| RateLimited.RateLimiter.constructor | rate-limited.js:9-12 | each `rateLimited(func, rate)` call creates its own limiter: empty queue, flag cleared, no timer armed, the given rate |
| RateLimited.RateLimiter.EmptyQueue | rate-limited.js:14-24 | the object's new state is `EmptyQueueStep` of its old state |
| RateLimited.RateLimiter.Submit | rate-limited.js:26-30 | the object's new state is `SubmitStep` of its old state, and the invariant is kept |
| RateLimited.RateLimiter.Fire | rate-limited.js:17-20 | returns the closure arguments captured at submit time from the front of the queue; the new state is `FireStep` of the old |
| RateLimited.SubmitToOne | rate-limited.js:9-12 | submitting to one limiter leaves another limiter's queue, flag and timer unchanged |
| Backup.IsSuccess | backup.js:55 | `[200, 304].includes(status)`: true exactly for 200 and 304 |
| Backup.Expansion | backup.js:77-84 | the children are expanded exactly when the listing parsed, has no truthy `error` and has `items`; they are then those items |
| Backup.DirPaths | backup.js:84-87 | as many directory submissions as directory keys |
| Backup.DocPaths | backup.js:84-89 | as many document submissions as non-directory keys |
| Backup.PathsOfPrefix | backup.js:84-90 | the submissions of the first j keys are a prefix of the submissions of all keys, on both limiters |
| Backup.RoutedInOrder | backup.js:84-90 | the i-th key yields the submission of `dir + key` to the directory limiter when it ends in '/', to the document limiter otherwise, at the position that keeps listing order on each limiter |
| Backup.AfterListing | backup.js:72-82 | `dir` is a directory afterwards; the descriptor holds the listing when the listing parsed without a truthy `error`; the paths afterwards are exactly the old ones, plus `dir`, plus the descriptor only in that case (so a rejected, unparsable or `error` reply writes no descriptor); no other path changes |
| Backup.SubmitsOnlyAfterDescriptor | backup.js:79-92 | a fatal reply submits nothing; any submission comes with the descriptor written; the number of submissions equals the number of keys |
| Backup.BackupScenarioRoot | backup.js:102-120 | after the lookup and `executeBackup` on a root listing `notes/` and `a.txt`, the local tree is the root and its descriptor, one GET was issued, and `notes/` and `a.txt` are queued on their limiters |
| Backup.BackupScenario | backup.js:49-120 | after the lookup, `executeBackup` and one tick of each limiter, the local tree is the root and its descriptor, `notes/` and its descriptor, and `a.txt` with the fetched body; both limiters are idle, the run did not end, and the three GETs were issued in order |
| Backup.RootListingScenario | backup.js:71-93 | a root listing with `notes/` and `a.txt` creates the root, writes the root descriptor verbatim, and submits `notes/` as a directory and `a.txt` as a document |
| Backup.BackupRun.constructor | backup.js:29-35 | the module state at start: `initialDir` derived from the category, the token, an empty request log, no exit, `storageBaseUrl` still `null`, and two fresh, distinct, idle limiters with the given rate (`backup.js:69`, `backup.js:95`) |
| Backup.BackupRun.Get | backup.js:73-76 | every GET carries `Bearer <token>` and the `RSBackup/1.0` user agent |
| Backup.BackupRun.LookupStorageInfo | backup.js:102-107 | the base URL becomes the normalised href |
| Backup.BackupRun.FetchDocument | backup.js:49-67 | one GET of base URL + path; status 200 or 304 writes the body at the path and nothing else; another status is reported with that status and writes nothing; a rejected fetch ends the process |
| Backup.BackupRun.SubmitChildren | backup.js:84-90 | the directory limiter's queue grows by exactly the directory paths and the document limiter's by exactly the document paths, in listing order |
| Backup.BackupRun.FetchDirectoryContents | backup.js:71-93 | one GET of base URL + dir; the local tree becomes `AfterListing` of the reply; the process ends exactly when the reply is not expanded; the two queues grow by exactly the routed submissions |
| Backup.BackupRun.DirTick | backup.js:95 | the directory limiter fires: its front path is listed as `FetchDirectoryContents` says |
| Backup.BackupRun.DocTick | backup.js:69 | the document limiter fires: its front path is fetched as `FetchDocument` says |
| Backup.BackupRun.ExecuteBackup | backup.js:115-120 | the local tree is emptied and holds only the backup directory, then the initial directory is listed directly (not through a limiter) |
| Restore.Lookup | restore.js:61-62 | a metadata member, or `undefined` when absent |
| Restore.Headers | restore.js:59-64 | `Authorization` is `Bearer <token>`; `Content-Type` is copied from the metadata; `If-None-Match` is the ETag (or "undefined") between double quotes; the user agent is `RSBackup/1.0` |
| Restore.IsRestored | restore.js:76 | true exactly for 200 and 201 |
| Restore.Report | restore.js:75-84 | status 200 or 201 is reported as restored; any other status as not restored, with the status and response text; a rejected request as failed |
| Restore.ReadDescriptor | restore.js:90-100 | missing exactly when there is no descriptor file (ENOENT); parsed exactly when the file holds a listing, and then to that listing; otherwise unreadable |
| Restore.ReadBody | restore.js:66-71 | the file's content when there is a file at the path, else `undefined` |
| Restore.DeeperShrinks | restore.js:103-105 | recursing into a sub-directory of a folder with a descriptor leaves strictly fewer candidate descriptor paths, so the walk terminates on paths compared as strings |
| Restore.WalkDir | restore.js:89-111 | a missing or unreadable descriptor gives no upload and no error |
| Restore.WalkDirBelow | restore.js:103-108 | every upload of the walk of `dir` has a path that extends `dir` |
| Restore.WalkItemsBelow | restore.js:103-110 | every upload of the `forEach` over a folder's keys has a path that extends the folder's |
| Restore.WalkItemsSnoc | restore.js:103-110 | one more key adds nothing after a throw, the nested walk of a directory key, or the upload `(dir + key, meta)` of a document key |
| Restore.ThrowStops | restore.js:103-105 | once a nested walk throws, the remaining keys are not visited |
| Restore.RestoreWalk | restore.js:126-132 | `initialDir`'s uploads come first; `publicDir`'s follow exactly when `includePublic` is set, `publicDir` is defined and the first walk did not throw |
| Restore.WalkIsPreOrder | restore.js:103-110 | for a stored descriptor tree, the uploads are submitted in pre-order, in key order within each folder, each as `(dir + key, meta)`, and nothing throws |
| Restore.WalkItemsIsPreOrder | restore.js:103-110 | the first k keys of a stored folder submit the pre-order uploads of its first k entries |
| Restore.RestoreRun.constructor | restore.js:28-35 | the module state at start: `initialDir` and `publicDir` derived from the category, `includePublic`, the token, no PUT issued, `storageBaseUrl` still `null`, and a fresh idle upload limiter with the given rate (`restore.js:87`) |
| Restore.RestoreRun.Request | restore.js:58-75 | the PUT goes to base URL + `encodePath(path)`, with `Headers(token, meta)` and the local file's content, or `undefined` when it cannot be read |
| Restore.RestoreRun.LookupStorageInfo | restore.js:113-118 | the base URL becomes the normalised href |
| Restore.RestoreRun.PutDocument | restore.js:58-85 | exactly one PUT is issued, also when the file cannot be read, and its reply is classified by `Report` |
| Restore.RestoreRun.UploadTick | restore.js:87 | the upload limiter fires: its front upload is put with the metadata captured at submit time |
| Restore.RestoreRun.DrainUploads | restore.js:87 | ticking until the upload queue is empty puts every queued upload, in queue order, and leaves the limiter idle |
| Restore.RestoreRun.PutDirectoryContents | restore.js:89-111 | the upload queue grows by exactly the uploads of `WalkDir`, and the call throws exactly when that walk does |
| Restore.RestoreRun.PutItem | restore.js:103-109 | a directory key grows the upload queue by exactly the nested walk and throws when it does; a document key submits exactly `(dir + key, meta)` |
| Restore.RestoreRun.PutItems | restore.js:103-110 | the upload queue grows by exactly the uploads of `WalkItems`; a throw from a nested walk is passed on at once |
| Restore.RestoreRun.ExecuteRestore | restore.js:126-132 | the upload queue grows by exactly the uploads of `RestoreWalk` |
| QueryParams.WordRunEnd | add-query-params-to-url.js:6 | the end of the run of word characters starting at an index |
| QueryParams.MatchesHereIff | add-query-params-to-url.js:6 | the match test at an index holds exactly when '?', one or more word characters and '=' start there |
| QueryParams.MatchesFrom | add-query-params-to-url.js:6 | the scan holds exactly when the pattern matches at or after an index |
| QueryParams.Separator | add-query-params-to-url.js:6 | '&' exactly when the URL contains '?', one or more of `[A-Za-z0-9_]`, then '='; '?' exactly when it does not |
| QueryParams.AddQueryParamsToUrl | add-query-params-to-url.js:5-14 | the result is the URL, the separator, then the `key=value` pairs in key order, joined by '&', with no trailing '&' and without escaping |
| QueryParams.ResultLength | add-query-params-to-url.js:6-13 | with no parameters the result is the URL plus the separator; with n >= 1 its length is \|url\| + 1 + the pair lengths + (n - 1) |
| QueryParams.QueryStringLength | add-query-params-to-url.js:8-11 | the joined pairs are as long as the pairs plus n - 1 separators |
| QueryParams.SplitJoin | add-query-params-to-url.js:10 | splitting at a separator between two strings splits each of them |
| QueryParams.ParseSnoc | add-query-params-to-url.js:9-10 | appending `&key=value` to a query appends the parameter to what the query reads back as |
| QueryParams.CutPair | add-query-params-to-url.js:9 | a pair whose key holds no '=' is read back from `key=value` unaltered |
| QueryParams.QueryStringRoundTrip | add-query-params-to-url.js:8-11 | when keys hold no '=' or '&' and values no '&', splitting the query at '&' and each piece at its first '=' gives back the parameters in order |

## Left out

- Real time: `lodash.delay` intervals and the `rate` values (20 ms for backup, 40 ms for restore) are kept as a constant, but a tick is an abstract event.
- Concurrency between in-flight transfers. `DirTick`, `DocTick` and `UploadTick` combine a dispatch with its reply in one step, so each reply is taken to arrive before the next tick of any limiter. A listing dispatched first whose reply arrives after later ticks (its children then queued behind theirs) cannot be expressed. Only the interleaving of the limiters' ticks is left to the caller.
- `discovery.js` (the WebFinger lookup) is not part of this model. Its answer is the `href` passed to `LookupStorageInfo`, and a failed lookup (which ends the process) is not modelled.
- The command line, the prompts, `opener`, the `schemas` objects and the missing-`--backup-dir` exit are interactive and outside the walks. The authorization URL that calls `addQueryParamsToURL` is modelled only through `QueryParams`.
- `mkdirp` creating missing ancestors, and local I/O errors in backup (an unwritable descriptor or document file ends or is ignored by the process in ways the libraries decide). `rimraf` is the reset of the local tree to the backup directory alone.
- Streaming: a body is written whole when the status is 200 or 304; partial writes and stream errors are not modelled.
- The pretty-printed JSON form of a descriptor (`prettyJs`): the descriptor file holds the listing value.
- `encodePath` lives in a file that is not part of this model; it is an uninterpreted parameter.
- Metadata values are modelled as the strings JavaScript renders them as; numeric or nested metadata members are not distinguished.
- `Object.keys` order is taken as given: listings and parameters are sequences in that order, and duplicate keys (which a JavaScript object cannot have) are allowed.
- The logging of `putDocument`'s response text and the process's fate after an unhandled restore `TypeError` are not modelled beyond the `threw` result.
- Console logging is dropped, except what the outcome types keep: the `No description file` and `Errored trying to access` messages of `restore.js:95-98` are the `Missing` and `Unreadable` reads; `Wrote <path>` and `Error response` of `backup.js:58` and `backup.js:62` are the `Written` and `ErrorStatus` outcomes.
- Path normalisation: the local tree is keyed by raw strings, and keys are taken to be single path segments other than `.`, `..` and the empty string. A real file system resolves `.`, `..` and `//`. With a descriptor key `./`, `restore.js:92` and `restore.js:105` read the same descriptor again and recurse under ever longer paths until the path is too long; with a remote key `../x`, `backup.js:56`, `backup.js:72` and `backup.js:81` write outside the folder being backed up, possibly outside the backup directory. Neither behaviour is modelled.
- Backup.AfterListing and Backup.BackupRun.FetchDocument: "no other path changes" holds for paths compared as strings; under file-system path resolution it holds only for the single-segment keys above.
- Restore.DeeperShrinks: termination holds for paths compared as strings; the `./` recursion of the real program is not captured.
- Retry and backoff: the code has none, so the model has none.
- QueryParams.QueryStringRoundTrip: the round trip is stated only for keys free of '=' and '&' and values free of '&', because the code escapes nothing and other parameters are genuinely ambiguous.
