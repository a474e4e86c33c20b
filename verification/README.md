# A verified model of the GLANCEvault server

GLANCEvault keeps a household's encrypted data in sync: a per-account log of opaque rows and
intents, a content-addressed blob store with resumable uploads and an opt-in garbage collector,
storage quotas, live nudges over server-sent events, and a rate limiter. This project models that
server in Dafny and proves what its parts promise together, mostly over whole runs.

## How it is built

- `Model`, `Tables`: the tables as maps, and each store transaction as a function of the tables.
- `Vault`: the request handlers and the two sweeps as steps of one state machine (`Serve`, `Apply`),
  and a run of it (`Trace`). A handler runs in one event-loop turn around immediate transactions, so
  a handler is one step. Time is an integer clock that never goes back in a run.
- `Store`, `DiskStore`, `Handlers`, `Hub`, `Events`, `RateLimit`: the code as it works, classes whose
  methods update fields in loops, each tied by its postcondition to the function it implements.
- `SeqLine`, `Drain`, `IntentsReceive`, `Replay`, `Lossless`, `Quotas`, `QuotaRuns`, `Staging`,
  `Decisions`, `Uploads`, `Integrity`, `Reclaim`, `Views`, `Isolation`, `Nudges`, `Streams`, `Ranges`,
  `Downloads`: the
  theorems, one module per promise; `Witnesses`: runs that reach the states they speak of.
- `Collections`, `Paging`: sums, counts and pages, used throughout.

Check everything with `dafny verify dfyconfig.toml`.

## Where code and documentation differ

The model follows the code.

- `src/quotas.ts:133-134` says the existing count can never exceed the distinct id count. The chunked
  probe of `src/storage/sqlite.ts:1187-1202` counts an existing id once per chunk it appears in, so it
  can: for 901 copies of one existing id (`Quotas.ExceedsDistinct`), and exactly when repeats outnumber
  new ids (`Quotas.ProbeExceedsDistinct`). A batch can then slip past a cap
  (`Quotas.StraddleSlipsThrough`); `Quotas.CapsHold` says exactly which batches cannot.
- `src/reclaim.ts:84` deletes bytes without asking whether another account holds them, unlike account
  deletion (`src/storage/sqlite.ts:1031-1034`). `Integrity.SweepKeepsBytes` gives the exact condition
  under which rows keep their bytes, `Witnesses.SweepCanStrand` a run where one does not.
- `src/storage/blobstore.ts:37` says the sweep is the only place bytes are deleted; account deletion
  (`src/routes/admin.ts:334-336`) deletes bytes too, and the model has both.
- Re-enrollment revokes a device's earlier credential without disconnecting its streams
  (`src/storage/sqlite.ts:820-844`); they last until their next heartbeat.
  `Nudges.LingerExactly` says these are exactly the ones, `Nudges.SupersededLingers` shows one. Revoking
  such a credential by hand does not reach them either, since it is inactive already
  (`src/routes/admin.ts:117-122`): `Streams.RevokedIsUnheard`, `Streams.RevokingSupersededKeeps`.
- Accounts do not interfere, except that a limit on their number lets one take the place another
  wants (`src/storage/sqlite.ts:921-926`): `Isolation.IsolationExact`, `Isolation.LastPlaceTaken`.

## Assumptions the theorems name

- Devices report only cursors they can have seen (`Reclaim.Honest`); the route accepts any number.
- Upload ids are globally unique where an account's isolation depends on it
  (`Isolation.FreshUploads`); a repeated id otherwise fails as the primary key does.
- The hash is an arbitrary function; where bytes must be the original ones it is collision-free
  (`Integrity.CollisionFree`).
- Deleting an account resets its counter, so claims about a log that only evolves are for runs that
  do not delete that account.

## Model

| member | source | states |
|---|---|---|
| SeqLine.BatchLine | src/storage/sqlite.ts:233-325 | From any state where the seqs of each account are distinct, at most its counter, and "zero references" coincides with "has a zero point", a batch of any rows keeps all three for every account, consumes exactly `written` consecutive seqs of its own account and none of any other, reports as `maxSeq` the new latest (0 if it wrote nothing), and moves every changed row above the old counter without removing any |
| SeqLine.IntentsLine | src/storage/sqlite.ts:414-451 | The same for an intents batch: exactly `written` seqs whatever the prune at its end removes, and only expired events go |
| SeqLine.SoftDeleteLine | src/storage/sqlite.ts:361-402 | A soft delete that tombstones takes exactly the next seq and reports it; one that finds no row or a tombstone leaves the whole database as it was; the line is kept |
| SeqLine.InsertBlobLine | src/storage/sqlite.ts:565-588 | A new blob row takes exactly the next seq of its account as its zero point, and no other account moves; for an existing one the whole database stays; the line is kept |
| SeqLine.ReleaseLine | src/storage/sqlite.ts:620-649 | A release takes a seq exactly on the transition from one reference to none, the next one, as the new zero point; otherwise every counter and zero point stays; the line is kept |
| SeqLine.FinalizeLine | src/routes/blobs.ts:250-321 | Finalizing, however it ends, keeps the line and every log |
| SeqLine.StepLine | src/storage/sqlite.ts:197-207 | Each of the fifteen operations keeps the line of every account, and the log of every account it does not delete only evolves |
| SeqLine.ReachableLine | src/storage/sqlite.ts:197-207 | One sequence line: in every reachable state the seqs in sync rows of all apps, intents and zero points of an account are pairwise distinct and at most the counter, and refCount = 0 iff the zero point is set |
| SeqLine.RunEvolves | src/storage/sqlite.ts:197-217 | Between any two points of a run that keeps the account: the counter does not go back, no row is lost, whatever changed is above the earlier counter, and only expired events disappeared |
| Paging.OverFetch | src/storage/sqlite.ts:330-344 | Selecting limit + 1 rows in order and cutting one off yields exactly a page: the first `limit` by seq, with `hasMore` iff something is left above it |
| Paging.PageReaches | src/storage/sqlite.ts:330-344 | With distinct seqs the cursor after a page has passed exactly what the page returned: nothing at or below it was skipped, and without `hasMore` nothing is left above it |
| Paging.PageUnique | src/storage/sqlite.ts:330-344 | The page and its `hasMore` are determined by the table, the cursor and the limit |
| Drain.WriterKeepsCover | src/storage/sqlite.ts:233-402 | Whatever operation runs between two pages (except deleting the account), what the reader holds for rows at or below its cursor is still their current state |
| Drain.PageKeepsCover | src/routes/sync.ts:224-263 | A page extends what the reader holds up to the new cursor, and without `hasMore` it holds the whole table |
| Drain.SnapshotDrain | scripts/losslessness-check.ts:231-258 | Snapshot drain: in every interleaving of pages (any limits) with any operations that keep the account, at a page with `hasMore` false the collected map is exactly the (account, app) table of that instant, tombstones included |
| Drain.FetchAll | scripts/losslessness-check.ts:231-258 | The client loop itself, against a server on which an arbitrary finite schedule of operations runs between pages: it terminates and returns exactly the table as it then stands |
| Drain.FewerAbove | scripts/losslessness-check.ts:231-258 | Without writers each page that reports more leaves strictly fewer rows above the cursor |
| IntentsReceive.NothingMissedNothingTwice | src/storage/sqlite.ts:414-473 | For a receiver polling by cursor between arbitrary operations and prunes: every stored unexpired event at or below its cursor was delivered to it, and deliveries carry strictly ascending seqs, so no stored row comes twice |
| IntentsReceive.CaughtUp | src/storage/sqlite.ts:457-473 | A poll that reports no more leaves the receiver with every unexpired event of the account |
| IntentsReceive.PrunesExactly | src/storage/sqlite.ts:440-493 | After a batch no expired event of the account is left and no event that is due was touched; the server-wide prune removes exactly the expired ones |
| IntentsReceive.StoredAsSent | src/storage/sqlite.ts:414-451 | A new event is stored with the envelope and expiry of the first element of the batch that has its id, at the instant of the request, if it is due; if not, it is gone |
| IntentsReceive.DeliversCurrent | src/storage/sqlite.ts:457-473 | A poll delivers nothing but unexpired events of the account above the cursor, each as stored |
| IntentsReceive.SentIsReceived | src/routes/intents.ts:131-145 | End to end: an event that was new when its batch was accepted is in the receiver's log with the bytes that were sent, by the time a poll reports no more, unless it has expired |
| Decisions.SyncBatchDecided | src/routes/sync.ts:141-185 | A sync batch is refused, changing nothing, exactly when its new ids less the repeats do not fit the row cap, with status, limit, use and request; otherwise all of it is applied, and the reply counts the seqs taken and names the new latest |
| Decisions.RewritesAlwaysFit | src/quotas.ts:68-72 | Rewriting rows that are there is never refused, however far over the cap the account is |
| Decisions.SendIntentsDecided | src/routes/intents.ts:117-145 | The same decision for an intents batch, against the unexpired count |
| Decisions.ResendsAlwaysFit | src/routes/intents.ts:119-127 | Re-sending events that are there is never refused |
| Decisions.CurrentSurvivePrune | src/storage/sqlite.ts:1221-1227 | The events the gate counts are exactly those the server-wide prune would leave |
| Decisions.DeleteRowDecided | src/routes/sync.ts:286-320 | A row delete answers 404, or the tombstone's seq, changing nothing; or makes the row a tombstone with the next seq, which it reports, touching no other row |
| Decisions.RowsChangedNow | src/storage/sqlite.ts:303-318 | Every row a batch changed carries the instant of the request; every other one is as it was |
| Replay.BatchContent | src/storage/sqlite.ts:233-325 | Entities do not interact: the content of each after a batch is that of applying only the rows that name it, in order, and entities of other apps and accounts keep theirs |
| Replay.ReplayIdempotent | src/storage/sqlite.ts:243-325 | For every batch (duplicates, insertOnly and deletes mixed) applying it again, at any later time, changes no envelope, deleted flag or deletedAt |
| Replay.Unwritten | src/storage/sqlite.ts:269-325 | A batch reports {written: 0} iff none of its rows writes, and then it is the identity with maxSeq 0 |
| Replay.ReplayIsFree | src/storage/sqlite.ts:280-301 | The replay of a batch is the identity with {written: 0, maxSeq: 0} if and only if its rows that are not insertOnly are deletes, with one envelope per entity |
| Replay.RedeleteDrained | src/storage/sqlite.ts:378-391 | A client that re-deletes what it drained, by batch or by soft delete, never advances the seq |
| Replay.SoftDeleteOnce | src/storage/sqlite.ts:361-402 | A soft delete makes a live entity a tombstone with the given deletion time, keeps its envelope and every other entity, and repeated, whatever the time given, is the identity and reports the same seq |
| Lossless.Seed | scripts/losslessness-check.ts:202-228 | If no batch is refused, seeding in slices of 100, with such traffic between them, reports as written exactly the number of envelopes, leaves each stored byte for byte, and changes no other entity |
| Lossless.CountMismatches | scripts/losslessness-check.ts:262-280 | Counts the envelopes that are missing or differ; NoneMissing ties zero to "all match" |
| Lossless.NoneMissing | scripts/losslessness-check.ts:262-280 | No mismatch is counted if and only if every envelope was returned byte for byte |
| Lossless.Check | scripts/losslessness-check.ts:282-330 | For distinct ids, amid any other traffic that does not write this app of this account, the check never sees a mismatch, and passes if and only if the app held no other entity before, tombstones included |
| Quotas.ProbeOvercounts | src/storage/sqlite.ts:1187-1219 | The chunked count is the number of distinct existing ids plus the number of times an existing id is asked about again in a later chunk of 900, first in that chunk |
| Quotas.ProbeExact | src/storage/sqlite.ts:1187-1219 | It never under-reports, and is exact if and only if no existing id is asked about in two different chunks |
| Quotas.ProbeExceedsDistinct | src/quotas.ts:133-136 | It exceeds the distinct id count, which the comment rules out, if and only if the repeats outnumber the new ids |
| Quotas.ExceedsDistinct | src/quotas.ts:133-136 | An input where it does: 901 copies of one existing id are counted as two, and there is one |
| Quotas.NeverStraddles | src/storage/sqlite.ts:1187-1219 | Duplicate-free batches and batches of at most 900 ids are always counted exactly |
| Quotas.AdmitsDiscounted | src/quotas.ts:126-158 | What the gate decides for any batch: it takes the repeats off what is new, and admits if and only if nothing is left or the rest fits; the fast path never decides otherwise |
| Quotas.AdmitsExactly | src/quotas.ts:126-158 | With an exact probe a batch is admitted if and only if it adds nothing new or its distinct new ids fit the cap |
| Quotas.AdmittedFits | src/quotas.ts:126-158 | If the probe is exact or the batch brings nothing new, an admitted batch leaves the count within max(cap, count before) |
| Quotas.CapsHold | src/quotas.ts:126-158 | That condition is exact: a batch is kept within every cap from every count if and only if no existing id straddles two chunks or nothing in it is new |
| Quotas.RejectedDoesNotFit | src/quotas.ts:126-158 | Whatever the probe, a rejected batch really adds something new and would not fit; the verdict names the limit, the use, and what is new less the repeats |
| Quotas.StraddleSlipsThrough | src/quotas.ts:133-137 | An input past a cap: one existing id asked about 901 times hides a new row from a cap already reached |
| QuotaRuns.InitiateReserves | src/routes/blobs.ts:116-165 | An initiate keeps stored plus reserved bytes within max(limit, before) and open sessions within max(cap, before) |
| Decisions.InitiateDecided | src/routes/blobs.ts:116-165 | An initiate opens its session if and only if the size is allowed, the account has no such blob, the id is free, and the account with the session added is within both limits; a refusal changes nothing and says which of these failed first, and a quota refusal names a limit that would be broken, with status, use and request |
| Decisions.SessionAdds | src/storage/sqlite.ts:1157-1168 | A session adds one to the open ones and exactly its declared size to the reserved bytes |
| Decisions.BlobAdds | src/storage/sqlite.ts:1157-1168 | A new blob adds exactly its size to the stored bytes; the empty tables hold and reserve nothing |
| QuotaRuns.FinalizeTrades | src/routes/blobs.ts:282-319 | Finalizing never raises stored plus reserved bytes: the blob is no larger than the reservation it replaces |
| QuotaRuns.ReservationsConserved | src/quotas.ts:99-124 | Reservation conservation: in every run, stored bytes plus declared sizes of open sessions never exceed max(limit, starting total), and open sessions never exceed max(cap, starting count) |
| QuotaRuns.FinalizeNeverOverQuota | src/quotas.ts:116-124 | From any point of a run at which the account is within the limit, no later finalize of its uploads is rejected for quota |
| QuotaRuns.AcceptedIsSolvent | src/quotas.ts:99-114 | An accepted initiate is such a point, however far over the limit the account was before |
| QuotaRuns.BatchGrowth | src/quotas.ts:126-142 | A sync batch grows the row count of its account by exactly its distinct ids minus those already there |
| QuotaRuns.RowCapHolds | src/quotas.ts:126-142 | Along every run in which the account's own sync batches meet the condition of CapsHold its row count never exceeds max(cap, count at the start) |
| QuotaRuns.IntentGrowth | src/storage/sqlite.ts:414-451 | Inserting an intents batch grows the stored events of its account by exactly its distinct ids minus those already there |
| QuotaRuns.CurrentIntentGrowth | src/storage/sqlite.ts:414-451 | When nothing has expired, the whole transaction, prune included, grows the current events by exactly that |
| QuotaRuns.IntentCapHolds | src/quotas.ts:144-158 | Along every run in which the account's own intents batches meet the condition of CapsHold the number of its unexpired intents, at every instant from the last operation on, is within max(cap, count at the start) |
| Staging.AssembledSize | src/scope.ts:135-144 | In a state with sound staging the assembly of a session never misses a part, and is as long as the reported received bytes |
| Staging.RecordedTotal | src/routes/blobs.ts:222-240 | Recording a part, new or re-sent, makes the received bytes exactly the total the route checked before accepting it |
| Staging.ReachableSound | src/scope.ts:124-157 | In every reachable state staged bytes exist exactly for the recorded parts of live sessions, with the recorded sizes, and no session holds more than it declared |
| Staging.DropShape | src/scope.ts:146-157 | Apart from initiate and part upload, an operation only discards whole sessions: row, part rows and staged bytes together |
| Staging.ReapedExactly | src/upload-reaper.ts:31-53 | The reaper removes exactly the sessions at or past the age limit, with their parts and staged bytes, and leaves the rest and all blobs alone |
| Uploads.RunTrue | src/routes/blobs.ts:200-241 | If one account alone initiates an upload id and sends it true chunks only, then amid any other traffic, parts that other accounts send to the same id included, whatever is staged for it is a true chunk |
| Uploads.TruePartsFit | src/routes/blobs.ts:222-240 | Received bytes are the sizes of the distinct chunks present, hence never more than the blob |
| Uploads.ChunkAccepted | src/routes/blobs.ts:209-240 | A true chunk, first or repeated, is acked whenever its session is alive |
| Uploads.AssemblesBlob | src/storage/disk-blobstore.ts:143-150 | Whatever the order of arrival, the assembly of all chunks is the original blob |
| Uploads.FinalizeStores | src/routes/blobs.ts:259-319 | What finalize does with all chunks present, in every case: told the true size if the account has the blob already; turned down with the quota verdict, storing nothing; or exactly the original bytes stored under their hash, with a row of their size; and the session is closed |
| Uploads.FinalizeTooEarly | src/routes/blobs.ts:273-293 | Finalizing while a non-empty chunk is missing stores nothing: it is refused as a hash mismatch and the session is discarded |
| Decisions.PutPartDecided | src/routes/blobs.ts:200-241 | A part is taken if and only if the session is the account's and the received bytes with it stay within the declared size; it then has these bytes and the ack reports the received bytes; a refusal changes nothing |
| Decisions.FinalizeDecided | src/routes/blobs.ts:250-321 | Every answer of finalize and its exact condition, in the route's order; an unknown session and an oversized assembly leave everything, a mismatch and a quota refusal discard the session |
| Decisions.FinalizeNeverStuck | src/routes/blobs.ts:135-138 | In no run does finalize miss a part or find more bytes than a blob may have |
| Decisions.CancelDecided | src/routes/blobs.ts:333-347 | Cancelling removes the session, its parts and staged bytes and nothing else; for a session that is not the account's it changes nothing |
| Uploads.ResumableUpload | src/routes/blobs.ts:116-321 | Over a whole run with one policy and a collision-free hash: after an accepted initiate, any sequence of true chunks from its account in any order, with repeats and any other traffic between, parts other accounts send to the same id included, is never refused while the session lives; and once each was sent, finalizing answers with the true size and leaves the account with its row. The quota cannot turn it down, and unless the account had the blob by then the original bytes are stored |
| Integrity.BlobsShape | src/routes/blobs.ts:116-404 | Apart from finalize no operation adds or changes a blob row's size or a stored byte; only the sweep and account deletion remove any |
| Integrity.FinalizeBlobs | src/routes/blobs.ts:259-319 | Finalize stores nothing, or bytes that hash to their address together with a row of their length |
| Integrity.NeverRewritten | src/storage/disk-blobstore.ts:107-127 | Stored bytes are never rewritten: whatever the operation, a file stays as it is or goes |
| Decisions.PruneDecided | src/storage/sqlite.ts:478-484 | The server-wide prune removes exactly the expired events of all accounts and changes nothing else |
| Integrity.ContentAddressed | src/storage/disk-blobstore.ts:107-127 | In every reachable state bytes stored under h hash to h, and (with a collision-free hash) a row whose bytes are present has their length: across skipped writes, reclaim, account deletion and re-upload |
| Integrity.SweepKeepsBytes | src/reclaim.ts:78-85 | A reclaim sweep preserves "every row has its bytes" if and only if no row outside the sweep holds a swept address |
| Witnesses.SweepCanStrand | src/reclaim.ts:84-85 | The condition can fail in a run from the empty server: two accounts upload the same bytes, the second references them, every row has its bytes, and the sweep leaves the referenced row without |
| Integrity.EveryRowHasBytes | src/reclaim.ts:78-85 | In every run whose sweeps meet that condition every blob row has its bytes |
| Integrity.DeletionComposes | src/routes/admin.ts:314-336 | The delete handler leaves nothing of the account in any table, changes nothing of any other account, deletes exactly the files no other account holds and exactly the account's staged parts, and reports exactly the rows, hashes and active credentials it removed |
| Integrity.DeletionKeepsBytes | src/storage/sqlite.ts:1019-1034 | Account deletion preserves "every remaining blob row has its bytes" |
| Reclaim.SweepIsSafe | src/reclaim.ts:58-106 | Reclaim safety over runs: if devices only report cursors they can have seen, a blob that a sweep deletes has been at zero references ever since its last transition to zero, neither that transition nor any reference report is within the grace period, and every non-dead device reported, after the transition, a cursor at or past it |
| Reclaim.SweepTakesExactly | src/storage/sqlite.ts:777-795 | A sweep takes exactly the blobs that are due, when reclaim is on: no references, none reported within the grace period, and every device of the account seen within the dead-device period has acknowledged; dead devices and other accounts' devices hold nothing back; exactly the files of taken rows go |
| Witnesses.SweepDeletesUnused | src/reclaim.ts:58-106 | The hypotheses of SweepIsSafe are met by a run from the empty server in which a live device acknowledged the zero point and the sweep deletes the blob |
| Reclaim.ZeroHistory | src/storage/sqlite.ts:565-649 | The zero point of a blob is the seq of the very step that last took it to zero, and it has not left zero since |
| Reclaim.ActivityHistory | src/storage/sqlite.ts:594-649 | The activity stamp is at least as late as every reference report in the run |
| Reclaim.CursorCovers | src/storage/sqlite.ts:531-541 | A device cursor is at or past everything the device ever reported, so a stale report never rewinds it, and the device counts as active at least since its last report |
| Reclaim.DeviceHistory | src/storage/sqlite.ts:531-541 | A device cursor is one the device reported |
| Reclaim.CountIsBalance | src/storage/sqlite.ts:594-649 | While a blob row lives its reference count is the balance of the reports for it, ignoring releases too many, and nothing else moves it |
| Decisions.AddRefDecided | src/routes/blobs.ts:354-375 | The reply to a reference gained is the blob's count plus one and no zero point, which is what is stored; 404 and no change for an unknown blob |
| Decisions.ReleaseRefDecided | src/routes/blobs.ts:383-404 | The reply to a reference lost is the clamped count and the zero point, stamped anew exactly on the last reference, which is what is stored |
| Decisions.CreateAccountDecided | src/routes/admin.ts:229-268 | An account is registered if and only if it is not yet and one more fits the limit; no data moves |
| Isolation.Unseen | src/scope.ts:114-176 | No operation of another account changes anything of account b: rows, intents, counter, devices, blobs, sessions, parts, staged bytes, credentials |
| Isolation.StepAlike | src/storage/sqlite.ts:1235-1263 | In two worlds that agree on account b every operation of b, and every sweep, has the same effect on b's share and the same reply, the hashes a deletion reports apart |
| Isolation.DeletionReply | src/storage/sqlite.ts:1031-1034 | The replies to b's deletion are the same in every part if and only if the other accounts hold the same of b's blobs in both worlds |
| Isolation.NonInterference | src/storage/sqlite.ts:1235-1263 | For every interleaving of operations of any accounts with unique upload ids, what b has is what it would have had if only its own operations and the sweeps had run, provided the others do not change whether a place is left when b registers |
| Isolation.IsolationExact | src/storage/sqlite.ts:912-926 | That proviso is exact: b has at every point of the run what it would have had alone if and only if it holds; without a limit on accounts it always does (UnlimitedPlaces) |
| Isolation.CreationAlike | src/storage/sqlite.ts:912-926 | Registering goes alike in two worlds that agree on b if and only if both have a place left, or neither, or b is registered already |
| Isolation.LastPlaceTaken | src/storage/sqlite.ts:921-926 | With a limit it can fail: the last place goes to whoever registers first |
| Isolation.SameReplies | src/scope.ts:114-176 | And each of b's requests gets the same reply as in the run without the others; of a deletion, the same row count and credentials |
| Isolation.SameReads | src/storage/sqlite.ts:330-344 | And b's pages of rows and intents are drawn from the same candidates |
| Hub.JoinSound | src/realtime/hub.ts:124-145 | Admitting a connection keeps "total equals the sum of set sizes" if and only if it was not registered already |
| Hub.WithoutSound | src/realtime/hub.ts:147-162 | Removing any set of connections keeps the accounting when the counter goes down by exactly those that were there |
| Hub.WhoStays | src/realtime/hub.ts:164-202 | Publishing evicts exactly the throwing connections of that account; disconnecting removes all and only the connections of the credentials; no other connection is touched |
| Hub.InProcessAccountHub.Subscribe | src/realtime/hub.ts:124-145 | Refused exactly at a cap, then leaving the registry as it was; otherwise the connection is in, and all invariants hold iff it is a new one |
| Hub.InProcessAccountHub.Unsubscribe | src/realtime/hub.ts:147-162 | Idempotent removal that keeps every invariant and moves the counter only for a connection really removed |
| Hub.InProcessAccountHub.Publish | src/realtime/hub.ts:164-179 | The walk over the snapshot: each live connection has the nudge as its last frame, exactly the throwing ones are gone, all invariants hold |
| Hub.InProcessAccountHub.ConnectionCount | src/realtime/hub.ts:204-206 | The number of live connections: never over the cap, and 0 exactly for an account without an entry in the registry |
| Hub.InProcessAccountHub.DisconnectCredential | src/realtime/hub.ts:181-202 | The nested walk: all and only the credential's connections are gone from every account and their streams ended, the number returned is the number gone even if closing throws, all invariants hold |
| Nudges.NewsIsPublished | src/routes/sync.ts:163-184 | A request that changes or adds a row or intent of an account publishes the account's new latest seq, unless it is a batch with `notify: false` |
| Nudges.StreamsAreCovered | src/routes/events.ts:111-152 | Nudge coverage: in every run, for every registered stream, every sync row or intent of its account whose seq exceeds all the stream was told was consumed by a `notify: false` batch, and no told seq exceeds the account's latest |
| Streams.EmitsExactly | src/routes/sync.ts:163-184 | A nudge goes out if and only if a loud batch, a delete or an intents batch took a seq; it is for the request's account, names its new latest seq, and the app written or the intents feed |
| Streams.OthersAreQuiet | src/routes/sync.ts:197-220 | Every other request but an account deletion (a silent batch, a repeated delete, a batch that wrote nothing, a cursor report, any upload) sends no frame and drops nobody |
| Streams.ConnectDecided | src/routes/events.ts:90-152 | A connection is opened if and only if its credential is an active one of the account it names and one more fits both caps; it then has exactly one ready frame with the latest seq, and nobody else notices |
| Streams.RoomIsRoom | src/realtime/hub.ts:124-145 | The hub has room if and only if the registry with the connection in would still be within both caps |
| Streams.TickDecided | src/routes/events.ts:170-200 | A tick keeps a connection if and only if its stream is live and its credential active; it ends the stream it shuts out and touches no other |
| Nudges.ReactWired | src/routes/events.ts:90-115 | Connection ids are handed out once, every registered connection has a stream and sits under one account |
| Nudges.OnlySupersededLinger | src/routes/admin.ts:111-127 | Revocation reaches live streams: in every run a registered stream's credential is active, unless a re-enrollment of its device superseded it and the stream has had no heartbeat since |
| Nudges.LingerExactly | src/storage/sqlite.ts:820-844 | Exactly which registered streams hold an inactive credential, if ids are not issued again: those a re-enrollment superseded and that have had no heartbeat since |
| Streams.RevokeDecided | src/routes/admin.ts:111-127 | Revoking an active credential stamps it, and it alone, with this instant and shuts out exactly its connections, ending their streams; revoking one that is not active changes nothing |
| Streams.RevokedIsUnheard | src/routes/admin.ts:111-127 | After a revocation no registered stream holds the credential if and only if it was active before or none held it |
| Streams.RevokingSupersededKeeps | src/routes/admin.ts:117-122 | The exception exists: revoking a credential that an enrollment superseded leaves its stream registered |
| Streams.RevokedForGood | src/storage/sqlite.ts:886-901 | A credential once inactive and unheard stays so for the rest of the run, as long as it is not issued again |
| Streams.RotateDecided | src/routes/admin.ts:286-306 | Signing an account out stamps exactly its active credentials and shuts out exactly their connections, leaving it no active one; rotating the key alone touches neither |
| Streams.EnrollDecided | src/storage/sqlite.ts:820-844 | Enrolling issues an active credential for this device of this account and revokes exactly the active ones that device had; credentials of other devices and accounts, and all connections, are as they were |
| Nudges.SupersededLingers | src/routes/enroll.ts:136-147 | Such a stream exists: a device enrolls, connects and enrolls again, and its first stream is registered, live, and holds a revoked credential |
| Events.LiveServer.HandleRequest | src/routes/sync.ts:163-184 | Write first, then the emit decision and the fan-out (or, for account deletion, the disconnects), in one step of the state machine |
| Events.LiveServer.HandleConnect | src/routes/events.ts:90-152 | Connect is one step: refused without an active credential of that account or at a cap, otherwise registered with a ready frame naming the latest seq |
| Events.LiveServer.HandleHeartbeat | src/routes/events.ts:170-200 | A tick removes a stream that ended, throws, or whose credential is no longer active, ending it in the last case |
| Events.LiveServer.HandleRevoke | src/routes/admin.ts:111-127 | Stamp, then disconnect; a repeated revocation changes nothing and disconnects nobody |
| Events.LiveServer.HandleRotateKey | src/routes/admin.ts:286-306 | With sign-out every active credential of the account is stamped and disconnected; without it none is |
| RateLimit.RateLimiter.Handle | src/middleware/rate-limit.ts:42-78 | The request handler in place, with the sweep loop, performs exactly one step of the sweeping limiter |
| RateLimit.LazyAgrees | src/middleware/rate-limit.ts:49-62 | On every request sequence with a clock that does not go back, the sweeping limiter gives the verdict and the Retry-After of one that never sweeps, and each window it retains opened within the last two window lengths |
| RateLimit.SweepsWhenDue | src/middleware/rate-limit.ts:49-59 | At most one sweep per window length: before the next one is due no other window is touched; when it is due exactly the windows that are over go |
| RateLimit.WaitingIsEnough | src/middleware/rate-limit.ts:70-75 | A throttled client whose next request waits the advertised seconds is admitted (section 4 of RFC 6585) |
| RateLimit.SlidingBound | src/middleware/rate-limit.ts:42-78 | In any half-open interval as long as the window each key is admitted at most twice the limit, over any request sequence with any number of keys, by the limiter that never sweeps |
| RateLimit.ThrottledOnlyWhenFull | src/middleware/rate-limit.ts:64-78 | A request is throttled only if the limit is used up: `max` requests of its key were admitted in the window length before it |
| RateLimit.LazyThrottledOnlyWhenFull | src/middleware/rate-limit.ts:42-78 | So too for the sweeping limiter that runs |
| RateLimit.RetryAfterIsTight | src/middleware/rate-limit.ts:71-72 | The advertised seconds reach the end of the window and less than one second past it, and the window ends within its length from now |
| RateLimit.LazySlidingBound | src/middleware/rate-limit.ts:42-78 | And by the sweeping one that runs |
| RateLimit.LazyWaitingIsEnough | src/middleware/rate-limit.ts:49-75 | The promise of Retry-After, likewise |
| Ranges.CapturesExact | src/routes/blobs.ts:42-49 | The header pattern can be read in one way only: the captures are the two digit strings of that form, or there is no match |
| Ranges.ParsesWhatIsAsked | src/routes/blobs.ts:35-74 | A header in range form is answered with exactly the byte positions it asks for (first-last, first-, or suffix) and refused exactly when it asks for none (sections 14.1.2 and 14.2 of RFC 9110) |
| Ranges.OtherHeadersGetAll | src/routes/blobs.ts:39-49 | Every other header gets the whole blob |
| Ranges.Examples | src/routes/blobs.ts:42-73 | Headers letter by letter: ranges with white space around them, plain and Unicode, an open one, and a suffix |
| Ranges.RoundTrip | src/routes/blobs.ts:35-74 | Printing a-b, with any white space around it, and parsing it against a size gives (a, min(b, size - 1)) when a <= b and a < size, and a refusal otherwise |
| Ranges.RoundTripFrom | src/routes/blobs.ts:35-74 | The same for the open form a- |
| DiskStore.DiskBlobStore.ReadRange | src/storage/disk-blobstore.ts:80-101 | However the reads fall short, exactly the slice start..end of the file, cut only by its end |
| Downloads.HandleDownload | src/routes/blobs.ts:437-476 | Readable only with a row of this account, whatever the disk holds, and bytes on disk; then the whole file for a header not in range form, otherwise the slice or the refusal it calls for |
| Downloads.PlainAnswer | src/routes/blobs.ts:465-470 | Without a header in range form (none, empty, or any other text) the answer is the whole file |
| Downloads.AnswersWhatIsAsked | src/routes/blobs.ts:455-476 | Byte k of a partial answer is byte start + k of the blob, for exactly the positions asked for; a refusal names the true size |
| Downloads.ResumedDownload | src/routes/blobs.ts:437-476 | A client that asks again from where the last answer broke off, wherever the answers break off, collects a prefix of the blob and in the end the whole blob |
| Downloads.DownloadIsGenuine | src/storage/disk-blobstore.ts:80-127 | And with content addressing intact these are the bytes that were uploaded under the hash |
| Downloads.ResumedOverRun | src/routes/blobs.ts:437-476 | Over a run: whatever happens between two answers, sweeps, deletion and re-upload included, and even if the blob cannot be read at times, what the client has collected is a prefix of the one blob that hashes to the address, and once the answers add up to its size, the blob |
| Store.SqliteStore.BatchUpsert | src/storage/sqlite.ts:233-325 | The loop over rows, with both skips, is the batch transaction that BatchLine, ReplayIdempotent and BatchGrowth are about, result included |
| Store.SqliteStore.SoftDeleteRow | src/storage/sqlite.ts:361-402 | The transaction SoftDeleteLine and RedeleteDrained are about |
| Store.SqliteStore.ListRows | src/storage/sqlite.ts:330-344 | Returns a page in the sense of PageReaches, each record being the row as stored |
| Store.SqliteStore.AddIntents | src/storage/sqlite.ts:414-451 | The loop over events and the prune that ends it are the transaction IntentsLine and PrunesExactly are about |
| Store.SqliteStore.ListIntents | src/storage/sqlite.ts:457-473 | A page of the unexpired events above the cursor |
| Store.SqliteStore.UpdateDeviceCursor | src/storage/sqlite.ts:531-541 | The forward-only upsert CursorCovers is about |
| Store.SqliteStore.ReleaseBlobReference | src/storage/sqlite.ts:620-649 | The clamped decrement ReleaseShape and CountIsBalance are about |
| Store.CountInSlices | src/storage/sqlite.ts:1187-1219 | The loop of IN(...) queries is the chunked count of ProbeExact |
| Store.Total | src/storage/sqlite.ts:1157-1168 | A running total is the sum of the values in whatever order they are visited |
| Store.SqliteStore.RemoveAccount | src/storage/sqlite.ts:991-1038 | One transaction that empties every table of the account and reports its active credentials, its sessions and exactly the hashes no row holds afterwards |
| Store.SqliteStore.IssueCredential | src/storage/sqlite.ts:820-844 | Supersedes the device's active credentials and adds the new one, or changes nothing when the id is taken |
| Handlers.Server.HandlePutPart | src/routes/blobs.ts:200-241 | The part route is the step ChunkAccepted and PutPartSound are about, reply included |
| Handlers.Server.HandleFinalize | src/routes/blobs.ts:250-321 | The finalize route, with its checks in order, is the step FinalizeStores, FinalizeBlobs and FinalizeTrades are about, reply included |
| Handlers.Server.Reclaim | src/reclaim.ts:58-106 | The sweep loop, in any order, removes exactly the reclaimable set, rows and bytes, and returns each removed blob once |
| Handlers.Server.Reap | src/upload-reaper.ts:31-53 | The reaper loop discards exactly the stale sessions and counts them |
| Store.SqliteStore.CreateAccount | src/storage/sqlite.ts:909-935 | Check and insert as one: refused for an id that is registered or when every place is taken, changing nothing; otherwise registered, moving no row |
| Handlers.Server.HandleDeleteAccount | src/routes/admin.ts:314-343 | The transaction and both clean-up loops together are the step DeletionComposes is about |
| Handlers.Server.Perform | src/routes/blobs.ts:116-404 | Every request and sweep performs exactly its step of the state machine, so every theorem about runs holds of runs of this server |

## Left out

- Express routing, JSON parsing, field checks, headers and status texts: handlers start from validated inputs, and a reply carries what the decision was.
- Raising and catching of exceptions: an operation that throws before changing anything replies `Failed`; crashes between two statements of a handler are not modelled.
- SQLite itself, the write-ahead log and busy timeouts: a transaction is one atomic step.
- Disk paths, shard directories, temporary files and rename: files are a map from hash to bytes, staging a map from (upload, index) to bytes.
- ISO timestamp text: instants are integers, and the several clock reads within one request are one instant.
- Numbers as doubles: seqs, sizes and range bounds are unbounded naturals. Range bounds above 2^53 are the only place a client chooses such a number, and rounding there cannot change the answer for a blob smaller than that.
- `createdAt` of sync rows, envelope decoding, `getRow` and the upload status route: they only store or return what is in the tables.
- Account keys and their hashes, enrollment proofs, labels, salts, usage reports, configuration and migrations: they do not interact with the promises above.
- Timers and what triggers sweeps and heartbeats: a sweep or a tick can come at any point of a run.
- Several processes behind one database: one process owns the registry and the tables.
- The push hub's `connectionCounts` listing and the `/healthz` exemption of the rate limiter.
- Fan-out order: the nudge reaches the connections of a snapshot in any order, as sets have none.
- Isolation.StepAlike: does not equate the hashes an account deletion reports as unheld, because they depend on what other accounts hold (`Isolation.DeletionReply` says exactly how).
- Isolation.SameReplies: does not cover downloads, whose bytes another account's sweep can remove (`Integrity.SweepKeepsBytes` says when).
- QuotaRuns.RowCapHolds: holds of batches that meet the condition of `Quotas.CapsHold`, because the code admits others past the cap (`Quotas.StraddleSlipsThrough`).
- QuotaRuns.IntentCapHolds: the same, for the same reason.
- Lossless.Check: other writers of the same app of the same account are excluded, because what they overwrite does not come back.
- Uploads.ResumableUpload: the quota policy is the same throughout the run; `Uploads.FinalizeStores` says what happens when it was lowered.
- Nudges.StreamsAreCovered: for accounts that are not deleted in the run, because deletion restarts their counter.
- RateLimit.SlidingBound: assumes a clock that does not go back, as the code does.
