# s3-tune synchronisation engine, in Dafny

s3-tune copies a local directory tree into an S3 bucket (`restore`) and a
bucket back into a local directory (`backup`). Both directions run the same
single-writer bookkeeping engine, and each file carries its own copy of it.
The engine keeps:

- a ledger of registered items that are not archived yet (`unarchived`);
- a waiting queue;
- a retry table;
- counters (`creating`, `registered`, `errors`, `created`, `ignored`);
- the flags `stopRegister`, `stopCreate` and `registerFinished`.

Five operations drive it: `register`, `next`, `on_create_error`, `archive`,
and `try_end` / `on_register_finished`. Two producers feed it with keys:

- restore's depth-first walk of the local directory;
- backup's paged listing of the bucket.

The model has these modules:

- `Engine` is the engine, as the class `SyncEngine`, with one method per
  operation. Its invariant `Valid()` says:
  - the ledger is exactly the registrations from the resume cursor on, in
    registration order, and its head is never resolved;
  - every waiting item owns a distinct ledger entry that says waiting;
  - `creating` counts the transfers in flight and never exceeds maxCreating;
  - `registered` never exceeds maxCreated;
  - every archived item was counted once as created, ignored or skipped;
  - every retry count lies between 1 and the retry limit and belongs to a
    registered key.

  `direction` selects the few places where the two files differ.
- `RetryPolicy` is the per-item retry rule, with JavaScript truthiness.
- `Ledger` holds the ledger entries, their status codes, `findIndex`, and the
  archive sweep.
- `Utf8` is UTF-8 encoding and strict decoding: the restore walk's test that a
  file name survives `toString('utf8')` followed by `Buffer.from`.
- `Restore` holds restore's `create` decision and the walk, as the class
  `Walk`. The walk is a step machine over an explicit stack of `run` frames.
  Each method is a piece of a resumption between two awaits: `Advance` runs
  the loop up to its next await, and `DirRead`, `Resume` and `Wake`'s
  registering branch (through `Enter`) stop just before it.
- `Backup` holds backup's `create` decision and the listing, as the class
  `Lister`. The listing is a step machine with one method per callback.

A transfer's outcome, a directory listing, a `stat` result and a listed page
are parameters that the caller supplies. Every interleaving of the
asynchronous original is a sequence of calls, but not the other way round:
the calls admit more interleavings than the original (see "## Left out"),
and the invariants are proved for all of them.

## Model

| member | source | states |
|---|---|---|
| Engine.Configure | restore.js:51-61 | Every option given replaces its default. maxCreated and maxErrors default to Number.MAX_SAFE_INTEGER, and maxCreating to its file's default. `retry` goes through the retry check. backup.js:44-53 is the same with its own default. |
| RetryPolicy.Normalize | restore.js:56-61 | `retry` is 3 when absent, the number itself when it is a number, and 0 when it is NaN or not a number. |
| RetryPolicy.OnFailure | restore.js:201-214 | A failure with a truthy count c is given up exactly when c >= limit, and otherwise the count becomes c + 1. A missing (or zero) count becomes 1 exactly when the limit is truthy. The item is retried exactly when a count remains, and the bound 1..max(1, limit) is kept. |
| RetryPolicy.Attempts | restore.js:200-229 | An item that always fails is dispatched limit + 1 times for limit >= 0 (at least once for any limit). |
| RetryPolicy.RetriedBeforeLastAttempt | restore.js:200-223 | Every failure before the last attempt is retried (a `warning`), and after the n-th of them the count is exactly n. |
| RetryPolicy.GivesUpAtLastAttempt | restore.js:200-229 | The failure of the last attempt is not retried: the table entry is deleted, and the item is ignored with an `error`. |
| Ledger.Status.Code | restore.js:93-103 | Each status is numbered by its index in STATUS_NAMES. A code is >= 2 exactly for a resolved status, and 4 exactly for skipped. |
| Ledger.IndexOf | restore.js:240 | `findIndex` by key returns -1 or a position holding the key. |
| Ledger.IndexOfFirst | restore.js:240 | The position found is the first with the key, and -1 means that no entry has it. |
| Ledger.RunEndAll | restore.js:258-261 | Every entry that the sweep's run passes over is resolved, and it stops at the first unresolved one or at the end. |
| Ledger.SweepEnd | restore.js:257-261 | The `while` of `archive` stops at the last entry of the resolved run after the head: the next entry is unresolved, or there is none. |
| Ledger.SweepLeavesUnresolvedHead | restore.js:256-263 | A sweep removes at least the head and only resolved entries after it. What remains starts unresolved. The key announced is the last one removed. |
| Engine.SweepMarkIsCursor | restore.js:262-266 | The `moveon` key is the last registration swept, and the cursor moves strictly forward past it, so `moveon` keys come in registration order. |
| Engine.SyncEngine.constructor | restore.js:66-125 | The run starts with the flags down, the queues and the retry table empty, the counters at 0, and no events. |
| Engine.SyncEngine.Quit | restore.js:78-80 | QUIT raises only stopRegister. |
| Engine.SyncEngine.Abort | restore.js:85-88 | ABORT raises stopRegister and stopCreate. |
| Engine.SyncEngine.Next | restore.js:169-188 | A dispatch happens exactly when stopCreate is down, creating < maxCreating and an item waits. It takes the front item, sets that item's ledger entry from waiting to creating and raises `creating` by 1. Otherwise nothing changes. The invariant, including creating <= maxCreating, is kept. |
| Engine.SyncEngine.Register | restore.js:274-287 | Once registered >= maxCreated, it signals QUIT and changes nothing else. Otherwise it appends [key, waiting] to the ledger and the item to the queue, raises `registered` by exactly 1, and records the payload as the key's own. Then `next` runs: when stopCreate is down and creating < maxCreating, the queue's front item leaves the queue, its entry says creating and `creating` rises by 1; otherwise the queue and the ledger keep the new item as waiting. |
| Engine.SyncEngine.Enqueue | restore.js:281-283 | The ledger and the queue each gain the item at their end, and the registration count grows by 1. |
| Engine.SyncEngine.TryEnd | restore.js:294-298 | `end` is emitted, with the current statistics, exactly when registration has finished and the ledger is empty. |
| Engine.SyncEngine.Archive | restore.js:239-271 | The status is counted and announced. An item behind the head only records its status, with no `moveon`. For the head item, the ledger loses the head and the resolved run after it (the cursor moves past them), `moveon` names the last key removed, and `end` follows when registration has finished and the ledger is now empty. The same effect is also stated through `AfterArchive` and `ArchiveEvents`. |
| Engine.SyncEngine.Tally | restore.js:246 | Exactly the counter of the status given rises by 1. |
| Engine.SyncEngine.ResolveAt | restore.js:252-254 | An in-flight entry behind the head takes its final status in place. |
| Engine.SyncEngine.SweepHead | restore.js:256-269 | The head sweep removes the resolved run, emits `moveon` with the last key removed, then applies `try_end`. |
| Engine.SyncEngine.DropResolved | restore.js:262-263 | The `splice` drops the head and the run that the scan found, and the invariant is kept. |
| Engine.SyncEngine.ItemFailed | restore.js:200-229 | The item's half of a failure, as a relation between two states: the retry table takes the rule's new count or loses the key. A retried item is back at the front of the queue with its registered payload, its entry waiting, a `warning` with the earlier statistics, and the counters and the cursor unchanged. An exhausted item leaves the ledger, the cursor and the events exactly as `archive(key, ignored)` does, followed by one `error`. |
| Engine.SyncEngine.OnCreateError | restore.js:200-236 | A failure of the key registered with this payload changes the item as `ItemFailed` says, with the statistics of the `end` and the `error` taken before the error is counted. `errors` rises by 1, and reaching maxErrors raises both stop flags. |
| Engine.SyncEngine.Fail | restore.js:201-229 | This is the item's half of `on_create_error`: it is `ItemFailed` with the current statistics, and the error count is untouched. |
| Engine.SyncEngine.CountFailure | restore.js:201-211 | The retry table gets the new count for the key, or loses the key when the item is given up. Every count stays within its bound and belongs to a registered key. |
| Engine.SyncEngine.InFlightRegistered | restore.js:181-189 | A key whose transfer is in flight has been registered. |
| Engine.SyncEngine.UnregisteredHasNoCount | restore.js:201-203 | A key that has not been registered yet has no retry count, so its first failure starts from an absent one. |
| Engine.SyncEngine.Retry | restore.js:214-222 | The entry is waiting again, the item is at the front of the queue, and a `warning` is emitted. `registered` is untouched. |
| Engine.SyncEngine.Requeue | restore.js:216-219 | The entry says waiting again and the item is queued first. |
| Engine.SyncEngine.GiveUp | restore.js:224-229 | The item is archived as ignored: one more is ignored, and the ledger, the cursor and the events change exactly as `archive(key, ignored)` says. Then one `error` with the updated statistics follows. |
| Engine.SyncEngine.ErrorPlus | backup.js:120-125 | `errors` rises by 1. Both stop flags are up afterwards exactly when they were up before or errors has reached maxErrors. |
| Engine.SyncEngine.Report | restore.js:189-191 | A transfer's outcome leaves its item either archived (one more counted as created, ignored or skipped) or waiting again (the queue one longer), never both. A resolved status changes the ledger, the cursor, the counters and the events exactly as `archive` does, and leaves the queue, the retry table, the error count and the flags alone. A rejection does what `on_create_error` does. |
| Engine.SyncEngine.Settle | restore.js:192-195 | The final `.then` lowers `creating` by 1 and then runs `next`, with `next`'s guards. A dispatch takes the queue's front item and sets its waiting entry to creating. Without one the ledger is unchanged. |
| Engine.SyncEngine.OnRegisterFinished | backup.js:274-279 | Registration is marked finished. restore then applies `try_end` (restore.js:289-292). backup emits `end` exactly when nothing was ever registered. |
| Engine.SyncEngine.FinishRegistration | restore.js:289-292 | Registration is marked finished, and `end` is emitted now if the ledger is empty. Either way `end` is guaranteed once the ledger empties. |
| Engine.SyncEngine.WaitingInLedger | restore.js:181-186 | The `find` of `next` never misses: every waiting item has a ledger entry under its key, and that entry says waiting. |
| Engine.SyncEngine.Conservation | restore.js:294-297 | When the ledger is empty, every registered item was created, ignored or skipped, nothing waits, and nothing is in flight. |
| Utf8.RoundTrip | restore.js:312-313 | A name's bytes survive decoding and re-encoding exactly when they are the encoding of a string, namely the one decoded. |
| Utf8.EncodeDecode | restore.js:312-313 | Whatever decodes re-encodes to the same bytes. |
| Utf8.DecodeEncode | restore.js:312-313 | Every encoding decodes back to the string. |
| Utf8.NoSlash | restore.js:321-322 | A name without the byte '/' decodes to a name without '/', so joining keys with '/' is unambiguous. |
| Restore.Setup | restore.js:51-57 | restore's own defaults apply: maxCreating 3 and maxQueueing 1000, on top of the engine's defaults. |
| Restore.Defaults | restore.js:51-61 | With no options, restore runs with maxCreating 3, maxCreated and maxErrors at MAX_SAFE_INTEGER, retry 3 and maxQueueing 1000. |
| Restore.Create | restore.js:146-166 | A file the filter refuses is skipped before any I/O. Otherwise it is skipped exactly when a dualMetaFilter answers false on a resolved stat and head. It is created exactly when it is admitted, reads and uploads. The result is only ever created or skipped, or a rejection. Only the final upload sees the mapped key. |
| Restore.CreateAsWritten | restore.js:139-161 | As written, with a dualMetaFilter every admitted file rejects after its stat. Without one it is the same as Create. |
| Restore.DualMetaFilterLost | restore.js:139-165 | A file that a dualMetaFilter admits, with every I/O step succeeding, is uploaded by Create but rejected as written. |
| Restore.KeyOfPrefix | restore.js:321-322 | An entry's key is its directory's key prefix followed by its name. |
| Restore.Apart | restore.js:321-322 | Keys at or below two different slash-free names of one directory differ. |
| Restore.NamesDiffer | restore.js:305-313 | Different entries of one listing decode to different names. |
| Restore.FreshKey | restore.js:321-348 | The key of the entry that the walk is about to register was never registered before, so every key reaches the engine at most once. |
| Restore.ScanStop | restore.js:308-310 | A raised stopRegister returns before the next entry, with no event. |
| Restore.ScanVisits | restore.js:324-335 | The loop stops for a stat only at an entry that has a name, is not the marker, and is either after the marker or not covered by it. It never stops there while stopRegister is up. |
| Restore.ScanStarts | restore.js:324-327 | `started` becomes true exactly when an entry's key equals the marker. |
| Restore.ScanSkips | restore.js:324-330 | Every named entry the loop passes without a stat is the marker, or is covered by the marker while `started` is still false. |
| Restore.ScanEvents | restore.js:312-319 | The `no-utf8-filename` events are exactly those of the entries passed over whose bytes are not UTF-8, with the directory's key as `dirname`. |
| Restore.ScanLoop | restore.js:308-330 | The `for` loop from the frame's index to its next await computes the scan that the lemmas above describe. |
| Restore.Walk.constructor | restore.js:364 | The walk starts with the root directory's frame, awaiting its listing, and with `started` false. |
| Restore.Walk.DirRead | restore.js:305-306 | The listing is stored in the top frame, and its loop starts. |
| Restore.Walk.Reject | restore.js:305-335 | A rejected readdir or stat ends the walk without on_register_finished. |
| Restore.Walk.Advance | restore.js:308-352 | The top frame's loop runs to its next await, as the scan says. The frame's index, `started` and the events follow the scan. The walk then stats an entry, returns to its caller, or ends at the root. It calls on_register_finished only when the root's entries ran out, not on a stopRegister return. |
| Restore.Walk.Publish | restore.js:314-352 | The loop's events are emitted in order, and on_register_finished follows when the root finished. |
| Restore.Walk.Yield | restore.js:308-352 | The walk's own state after the loop stopped: the frame's index, `started` and the next point to resume at. |
| Restore.Walk.StatDone | restore.js:335-349 | A directory pushes a frame for its own `run`, with the entry's key pieces and path, and leaves the engine untouched. A file takes its turn at the queue, and is registered with its own path as payload when the queue has room and maxCreated allows. |
| Restore.Walk.Wake | restore.js:345-348 | While the queue holds maxQueueing items the walk keeps sleeping on the same file, and the engine is entirely unchanged. Otherwise the file is registered (refused, with QUIT, once maxCreated registrations have happened) and the loop moves past it. |
| Restore.Walk.Admit | restore.js:348 | A file with room in the queue is registered with its own path as payload, leaving stopRegister as it was; the queue and the ledger gain it as waiting, and `next` dispatches exactly on its own condition. Once maxCreated registrations have happened it is refused with QUIT, and the payloads stay as they were. Either way the loop moves past it. |
| Restore.Walk.Enter | restore.js:348 | The loop moves past the entry whose turn it was, and the walk's invariant is kept. |
| Restore.Walk.Resume | restore.js:339 | The nested `run` returned, and its caller's loop moves to its next entry. |
| Restore.Walk.Pop | restore.js:339 | The top frame goes, and its caller moves past the directory entry. |
| Backup.Setup | backup.js:44-49 | backup's own default of maxCreating is 10, on top of the engine's defaults. |
| Backup.Defaults | backup.js:44-53 | With no options, backup runs with maxCreating 10, maxCreated and maxErrors at MAX_SAFE_INTEGER, and retry 3. |
| Backup.Create | backup.js:135-155 | A key ending in '/' is ignored without any I/O. Any other key is created exactly when the fetch, the write and the time update all resolve, and rejects otherwise. The fetch uses the original key and comes first. The writes use the mapped local path. |
| Backup.BeforeIrreflexive | backup.js:294-300 | No key sorts before itself. |
| Backup.BeforeTransitive | backup.js:294-300 | The listing order is transitive. |
| Backup.Beyond | backup.js:313-316 | A key beyond the marker has not been registered yet. Moving the marker to it keeps every registered key at or before the marker. |
| Backup.Taken | backup.js:260-264 | Out of a run of keys, `register` accepts exactly as many as maxCreated still allows, and fewer than all exactly when that room is short. |
| Backup.Lister.constructor | backup.js:281 | The marker starts at the option given, and the list-retry budget is `options.retry`. |
| Backup.Lister.Run | backup.js:282-299 | On stopRegister the listing halts. With more than LIST_LIMIT * 10 items waiting it defers. Otherwise it asks for the next page, with the retry budget given or, by default, maxListRetry. |
| Backup.Lister.Start | backup.js:328-330 | The launch without names runs the listing with the full budget. |
| Backup.Lister.TimerFired | backup.js:287-289 | The deferred run starts again with the full budget. |
| Backup.Lister.PageFailed | backup.js:301-305 | A list error is counted (and may abort). A list with retries left is asked for again with one fewer. With none left the listing is abandoned. |
| Backup.Lister.PageListed | backup.js:307-319 | An empty page finishes registration by the corrected `try_end` rule (see Findings): `end` is emitted now if the ledger is empty, and is guaranteed once it empties. A non-empty page registers its keys in order, as far as maxCreated allows, and moves the marker to its last key. It raises stopRegister exactly when some key was refused, and runs again with the budget reset. |
| Backup.Lister.RegisterPage | backup.js:313-316 | Every key of the page is offered in order. The accepted ones extend the registrations, and the marker ends at the page's last key. |
| Backup.Lister.Offer | backup.js:314-315 | One key is registered when maxCreated allows, with QUIT otherwise, and the marker becomes that key either way. |
| Backup.RegisterNames | backup.js:324-327 | The names given are registered in order, as far as maxCreated allows, and registration then finishes with `end` guaranteed. |
| Backup.LostEnd | backup.js:274-279 | As written, a run whose one item was archived before the empty page arrives finishes registration with an empty ledger, but never emits `end`. |
| Backup.KeptEnd | backup.js:274-279 | The same run with registration finishing by the `try_end` rule does emit `end`. |

## Left out

- I/O is left out: the S3 calls, the file-system calls, `mime` and `qirAsync.writeFile`. Each outcome is a parameter: an `IoOutcome`, a listing, a `stat` answer, a listed page, or a transfer's `CreateResult`.
- Promises, `process.nextTick`, `setTimeout` and `sleep` are left out. Each completion is one method call. The `.then(archive)` / `.catch(on_create_error)` step is `Report`, and the later `.then` that lowers `creating` and calls `next` is the separate `Settle`.
- The `Progress` event emitter is replaced by an append-only event log. Progress's `quit()` and `abort()` are the `Quit` and `Abort` signal handlers.
- `Marker` (class/Marker) is not part of this model. Its `equal` and `cover` are abstract predicates in `Restore.Mark`. Backup's marker is only passed to the listing, and listed keys are taken to lie after it in the listing order.
- The sort of the listed names is not computed. After `DirRead` each directory's names are in the order given, and they must be distinct and contain no '/' byte, as readdir guarantees.
- Each key is assumed to be registered at most once. `Register` requires a fresh key, and the walk and the listing prove that they provide one. `RegisterNames` requires distinct names for the same reason.
- restore's names branch (restore.js:356-361) is not modelled. A non-empty list of names reads an undefined `source` and throws before anything is registered. An empty list (which is truthy) never runs the callback, so registration finishes at once and `end` is emitted.
- The `skipped` counter of restore.js:246 is never initialised, so it becomes NaN. The model keeps a ghost count of skipped items for its invariant, and the statistics never include it, as in the source.
- `path.join` and `path.resolve` normalisation is left out. A path is the directory, '/', and the name.
- Numeric options are integers. Fractional values, Infinity (for `retry` too, where it would mean unlimited retries) and NaN bounds other than `retry` are outside the model.
- `Restore.ScanLoop` reads stopRegister once for the whole synchronous stretch of the loop. Within one `Advance` call nothing can change the flag.
- Restore.Walk.Enter, Restore.Walk.DirRead and Restore.Walk.Resume end at the `Scanning` stage and leave the rest of that synchronous stretch to a separate `Advance` call. Engine calls (a transfer's outcome, `Settle`) can therefore run between them and `Advance`, and can raise stopRegister there. In restore.js:305-348 no await lies between a readdir, a nested `run` returning, or `register`, and the next loop-head test. So the model admits interleavings that the original cannot produce, for example an abort by maxErrors that stops the walk before a file which the original would have reached. The proved invariants hold for all these interleavings. The model does not capture that the stretch is atomic.
- Restore.Walk.Advance: events of the synchronous loop are appended after the loop stops, as one batch in their original order. No other event can come between them.
- The `MaxKeys` page size (LIST_LIMIT) is not enforced on the pages supplied to `PageListed`.
- The S3 listing order is modelled as the lexicographic order of code points, `Backup.Before`.
- stopRegister is only tested at the head of the walk's loop (restore.js:310). A restore walk whose flag is raised (by QUIT or ABORT) returns at the next such test without calling on_register_finished, so no `end` is emitted. When the flag is raised during the root's last entry, the loop simply ends and registration still finishes. `Restore.Walk.Advance` reproduces both, but no lemma states them across a whole run.
- Backup.Lister.PageListed: on an empty page it runs the corrected `try_end` rule (`FinishRegistration`) rather than backup.js's `on_register_finished` (backup.js:307-310), so that the listing keeps `end` guaranteed. The code as written is `Engine.SyncEngine.OnRegisterFinished` (backup direction), and `Backup.LostEnd` shows what it loses.
- A backup listing abandoned after its last retry never calls on_register_finished either (`Abandoned`). This is reproduced, not stated as a lemma.
- The mime type in restore.js:149 and the upload's body are left out.

## Findings

| source | as written | input that shows it | evidently intended | confidence | as-written member | corrected member |
|---|---|---|---|---|---|---|
| backup.js:274-279 | `on_register_finished` emits `end` only when `registered == 0`, and `archive` emits it only while the ledger is non-empty. | One key is listed, registered, transferred and archived, then the next page is empty: registration finishes with an empty ledger and `end` never fires. | `try_end` as in restore.js:289-298: emit `end` when registration finishes and the ledger is already empty. | high; not executed | Backup.LostEnd | Backup.KeptEnd |
| restore.js:139-144 | `s3ReadMeta` passes `{ Bucket, Key }`, which are `const`s declared only inside `create` (restore.js:147-148). The undeclared names throw a ReferenceError, so the promise rejects before any request. | Any file admitted by `filter`, with a `dualMetaFilter` option: `create` rejects after the stat, and after its retries the file is ignored. | `headObject` on the bucket and key of the file being created, with the filter then deciding. | high; not executed | Restore.DualMetaFilterLost | Restore.Create |
