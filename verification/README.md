# HavenKeys: a verified model

This project models the parts of HavenKeys (a password manager whose devices
keep an encrypted replica of one vault on a server) where a mistake loses or
leaks data without anyone noticing, and proves what the program promises about
them. It is plain Dafny: `dafny verify dfyconfig.toml` checks everything.

Code that changes state step by step is modelled by classes and methods with
loops; each method is proved equal to a function of the old state, and the
properties are lemmas about those functions or about state machines whose steps
they are. Anything outside (answers of the server, the random source, clocks,
decryption, text rules) is an arbitrary function or parameter, so a statement
holds for every behaviour of it unless its `requires` says otherwise.

## Modules

| module | models |
|---|---|
| `Wrappers`, `Texts` | shared small types; byte order of texts |
| `Changes` | what one batch of server changes does to a replica, as values |
| `Vault` | the store's tables and the vault service, changed in place |
| `Server` | the server's revision, tombstone and conflict rules |
| `Agreement` | server, replica, and pulls, fetches and writes in flight as one state machine |
| `PagedPull` | how the database server cuts a pull page, with its two reads |
| `SyncLoop` | the page loop of `sync_now`, its restart and its ghost drop |
| `Retry` | asking again for items that did not open |
| `Restore` | `push_restore` and `push_batches` against arbitrary answers |
| `RestoreLog` | what a restore shows on the wire, and why |
| `RestoreServer` | a restore against a server that keeps the item rules |
| `Sessions` | client session, connectivity and lock epoch under interleaving |
| `Header` | header adoption, rollback floor and password change |
| `RateLimit`, `Budget` | the browser's token buckets and per-item write budget |
| `CivilDate`, `Stamps` | civil-date arithmetic, time stamps, typed dates |
| `Generator` | the password generator and its shuffle |
| `CustomFields` | merging an editor's layout into the stored custom fields |
| `Tags`, `TagSplit` | the vault's one spelling per tag, and how it is split |
| `Luhn`, `Pairing` | the card check digit; the pairing payload codec |

How the sync model is put together:

- Decryption is one uninterpreted function of item id, overview and details.
  Nothing is assumed of it.
- The server accepting a write of this device and the device recording it are two steps.
- The server of the state machine is the one of `stub_server.rs`, and beside it
  the database server with its two reads, whose page `PagedPull` builds. A
  restored server is one whose answer carries a cursor behind the one asked from.
- The page loop, the retry and the restore run against answers that may be
  anything. Each is proved equal to a recursive function that numbers the
  requests, and the guarantees are lemmas about that function; what an honest,
  changing server adds is stated against a history of it.

## What does not hold as promised

Where the code differs from what it or its documentation promises, the code is
modelled as it is, a lemma shows a concrete case, and another states exactly
when the promise holds.

1. **Two pulls at once can lose a change.** `sync_now` may run twice at the same
   time. A page asked for from beyond the stored cursor, landing after a stale
   page has moved that cursor back, skips what lies between
   (`Agreement.TwoPullsLoseADeletion`). Landing a page is safe exactly when it
   was asked for from no further than the stored cursor
   (`Agreement.SafeExactlyInOrder`), and dropping ghosts exactly when the stored
   cursor has not passed the pull's end (`Agreement.DropIsSafeExactly`); both
   always hold for a device that runs one pull at a time and resets its cursor
   between pulls only (`Agreement.SoloDeviceAgrees`).
2. **An accepted write recorded late undoes a later edit.** A write is recorded when
   its answer arrives, whatever a pull has brought meanwhile: if another device
   has edited the item and a pull has brought the edit, the old state comes back
   and the cursor has passed the new one (`Agreement.LateRecordUndoesAnEdit`).
   `Agreement.RecordIsSafeExactly` says exactly when recording is safe.
3. **A pull's two reads can skip or drop a row.** The database server's pull reads
   twice without a transaction. After an empty first read it answers with the
   vault revision of the second, so a batch accepted in between moves the cursor
   past rows that were not sent (`Agreement.EmptyPullSkipsARow`); in every other
   case the page keeps its promise (`Agreement.PullFitsExactly`). Even then a pull
   from 0 can go wrong: an item edited between its last two reads is mentioned by
   no page and dropped, though it is live on the server at both
   (`SyncLoop.DropCanTakeALiveItem`); the next pull is owed its row. The drop takes
   nothing the server has exactly when no item held and never mentioned was
   written between those reads (`SyncLoop.DropTakesOnlyGhostsExactly`).
4. **A restore can leave a tombstone alone.** The fetch after a conflict answers only
   for as many rows as fit and names the others; the client takes those for live
   rows, so a deleted item among them is not restored, without an error
   (`RestoreServer.UnansweredTombstoneIsLost`). So it is for a tombstone the
   refusal names twice, which is revived and then skipped after all
   (`Restore.NamedTwice`). At a server at rest every item of a batch without a live
   row is recorded if and only if no refused tombstone is unanswered or named twice
   (`RestoreServer.OneConflictSinksNothing`, `Restore.RevivableStayExactly`). The
   count is right exactly when no refusal names an item too often
   (`Restore.NotedExactly`, `RestoreLog.RestoreNotesExactly`). No write is ever
   lost or recorded twice (`Restore.RestoreConserves`).
5. **Removing a device can strand a session.** Swapping the store locks the
   vault without dropping the session; an unlock and a login that slip in after
   the removal's own lock leave the client online over a locked vault
   (`Sessions.RemovalCanStrandASession`). Exactly such a swap breaks the claim
   (`Sessions.NextKeepsInv`).
6. **A stale clock reading shortens the interval.** The browser's handlers read
   the clock before they lock the limiter, so a reading can be older than one
   already used (`Budget.StaleReadingComesTooSoon`); the spacing holds exactly for
   readings that are not (`Budget.SpacedExactlyWhenFresh`).
7. **One spelling per tag holds only among what a device sees.** An item is spelt
   from what is stored when it is staged. Two devices that each create an item with
   a new tag leave two spellings (`TagSplit.TwoDevicesSplitATag`), and so can a
   restore whose item arrives from another device after the plan and is deleted
   before the sending (`TagSplit.RestoreSplitsATag`, `Tags.StoredItemInBatchExactly`).
   A run keeps one spelling per tag exactly when each tag set that is staged or
   arrives agrees with those staged and stored for other items
   (`Tags.OneSpellingOverRuns`); a batch of new items does while nothing else
   arrives (`Tags.KnowingBatchIsCompatible`, `Tags.StageAllNew`). Saving an item
   takes the others' spellings, so a split of two items is gone once either is saved
   (`Tags.SavingHealsExactly`, `Tags.TwoItemSplitHeals`).
8. **Session epochs wrap at 2^64.** A login counts as current after exactly 2^64
   locks (`Sessions.EpochComesRound`); below that number
   `Sessions.HeldSessionIsCurrent` gives the exact lock count.

## Model

| member | source | states |
|---|---|---|
| `Changes.EffectDependsOnLastMentions` | `crates/havenkeys-core/src/sync.rs:398-470` | A batch acts only through each item's last mention: batches with the same last mentions give the same tables, lists and report on every replica. |
| `Changes.LastChangesMeaning` | `crates/havenkeys-core/src/sync.rs:412-430` | The change kept for an item is the last one of the batch that names it. |
| `Changes.OutcomesAreExclusive` | `crates/havenkeys-core/src/sync.rs:412-469` | Every named id is stored, deleted or recorded unreadable, exactly one of the three; an id not named moves nowhere. |
| `Changes.AppliedKeepsMirror` | `crates/havenkeys-core/src/sync.rs:432-469` | A batch keeps the in-memory lists equal to what the stored rows decrypt to: in the trash exactly those with a trash stamp other than the account's identity, in the other list the rest. |
| `Changes.AppliedItem` | `crates/havenkeys-core/src/sync.rs:412-469` | What becomes of each item: by its last mention it is stored as served and listed in the trash exactly if stamped and not the identity, or is out of both tables and both lists, or is recorded unreadable with what was stored left alone; not named, it is as it was; a pull moves cursor and sync time. |
| `Changes.ReportMeaning` | `crates/havenkeys-core/src/sync.rs:412-469` | The report counts the items stored that were not listed, those that were, the stored items deleted and the items that did not open. |
| `Changes.AppliedKeepsLists` | `crates/havenkeys-core/src/vault.rs:107-122` | The lists keep holding exactly the stored ids, each in one list. |
| `Changes.ItemCountFollowsReport` | `crates/havenkeys-core/src/sync.rs:432-469` | The number of stored items changes by what the report counts as added minus deleted. |
| `Vault.Store.ApplyPull` | `crates/havenkeys-core/src/store.rs:477-519` | One transaction: rows are stored and cleared from the unreadable table, deletions leave both tables, unreadable ids are recorded, the cursor moves if the account row exists; the count returned is of rows really removed. |
| `Vault.Store.ResetCursor` | `crates/havenkeys-core/src/store.rs:561-571` | The cursor goes to 0 and the unreadable table is emptied; the items stay. |
| `Vault.VaultService.ApplyChanges` | `crates/havenkeys-core/src/sync.rs:398-470` | The two-pass code (index of last mention, verdicts, then the writes) has exactly the effect of the last mentions, which `Changes.AppliedItem` tells item by item, and its report; refused without an account row or a session, with nothing changed. |
| `Vault.VaultService.ApplyRemoteChanges` | `crates/havenkeys-core/src/sync.rs:332-346` | A pull applies its batch and moves the stored cursor to the page's. |
| `Vault.VaultService.ApplyRefetched` | `crates/havenkeys-core/src/sync.rs:356-392` | Only ids recorded unreadable now, answers at least as new as recorded, and a deletion for each id asked for and not mentioned; the cursor stays. |
| `Vault.RefetchPlanMeaning` | `crates/havenkeys-core/src/sync.rs:356-392` | Of an answer to a fetch by id counts, for each item asked for and still recorded unreadable, the last change not older than recorded; a deletion when the answer does not name it; nothing when all it says is older, or for any other item. |
| `Vault.VaultService.DropItemsTheServerLacks` | `crates/havenkeys-core/src/sync.rs:498-521` | Exactly the ids held at the start and not seen are taken out of both tables and both lists, and counted. |
| `Vault.VaultService.ResetSyncCursor` | `crates/havenkeys-core/src/sync.rs:479-481` | Asks for the whole vault again without touching items or lists. |
| `Vault.VaultService.CommitWrite` | `crates/havenkeys-core/src/vault.rs:2653-2694` | An accepted write is recorded exactly if the vault is open in the epoch it was staged in and it holds both blobs and an overview or none of them; otherwise the replica is as it was. |
| `Vault.VaultService.Place` | `crates/havenkeys-core/src/vault.rs:107-116` | A stamped overview goes to the trash and out of the live list, unless it is the Identity; any other goes to the live list and out of the trash. |
| `Vault.CommitKeepsMirror` | `crates/havenkeys-core/src/vault.rs:2653-2694` | Recording an accepted write keeps the lists equal to what the rows decrypt to. |
| `Vault.CommittedItem` | `crates/havenkeys-core/src/vault.rs:2653-2694` | A recorded write leaves its item at that revision with those blobs, listed by its trash stamp with the identity always live; a recorded deletion takes it out of table and lists; no other item, the cursor or the unreadable table moves. |
| `Vault.TombstoneBatch` | `crates/havenkeys-core/src/sync.rs:356-392` | Deletions added for ids an answer does not mention join its last mentions without displacing any. |
| `Vault.TombstonesDrop` | `crates/havenkeys-core/src/sync.rs:498-521` | A batch of deletions takes away exactly the named ids and counts those that were stored. |
| `Server.StubItems.Write` | `crates/havenkeys-client/src/stub_server.rs:75-123` | All or nothing: a refused batch is answered with the conflicts and nothing moves; an accepted one is written, and each of its changes acknowledged at the one new revision. `Server.AcceptedExactly`, `Server.ConflictsName` and `Server.WrittenExactly` tell which, what and how. |
| `Server.AcceptedExactly` | `crates/havenkeys-client/src/stub_server.rs:75-100` | A batch is accepted exactly when each change names the revision held, or none for an unknown item, and deletes nothing already deleted. |
| `Server.ConflictsName` | `crates/havenkeys-client/src/stub_server.rs:75-100` | A refusal names exactly the items of the changes not accepted, each with the revision held, if any. |
| `Server.WrittenExactly` | `crates/havenkeys-client/src/stub_server.rs:101-122` | An accepted batch stamps each item it names with one new revision and what its last change asked for; no other row moves. |
| `Server.StampedRows` | `crates/havenkeys-client/src/stub_server.rs:101-122` | A batch stamps exactly the items it names, all with one revision, each with the blobs its last change asked for. |
| `Server.StubItems.Pull` | `crates/havenkeys-client/src/stub_server.rs:59-73` | Everything stamped after `since`, in revision order, as an honest page; `since` is echoed when nothing is newer. |
| `Server.StubItems.Fetch` | `crates/havenkeys-client/src/stub_server.rs:125-138` | The answer holds exactly the rows the server has for the asked ids. |
| `Server.WriteEvolves` | `crates/havenkeys-client/src/stub_server.rs:101-122` | A write leaves each row as it was or stamps it past every earlier revision; no row goes away. |
| `Server.RunEvolves` | `crates/havenkeys-client/src/stub_server.rs:75-123` | The same between any two states of any run of accepted batches. |
| `Server.RevisionIdentifiesRow` | `crates/havenkeys-client/src/stub_server.rs:75-123` | Over any run, an item id and a revision identify one row content for ever. |
| `Agreement.SoloDeviceAgrees` | `crates/havenkeys-client/src/sync.rs:230-294` | On a device that runs one pull at a time and resets its cursor only between pulls, in every state of every run (other devices' batches, own writes accepted and recorded later, one-read and two-read pages, late pages and fetch answers, ghost drops, re-downloads) in which no two-read pull finds nothing and answers with something newer and no accepted write is recorded after a pull has brought something newer of its item: every item up to the stored cursor is recorded exactly as the server has it. |
| `Agreement.AgreementOverRuns` | `crates/havenkeys-core/src/sync.rs:332-470` | The same with any number of pulls at once, for every run whose pages land from a cursor not past the stored one and whose drops come with the stored cursor not past the pull's end. |
| `Agreement.NextKeepsInv` | `crates/havenkeys-core/src/store.rs:477-519` | Every step of the system that is in order keeps the invariant behind agreement. |
| `Agreement.SafeExactlyInOrder` | `crates/havenkeys-client/src/sync.rs:248-268` | Landing a page keeps agreement on every replica and server exactly when the page was asked for from no further than the stored cursor. |
| `Agreement.TwoPullsLoseADeletion` | `crates/havenkeys-client/src/sync.rs:205-294` | A concrete run of thirteen steps, two pulls in flight on one device: the stale page moves the cursor back, the next page moves it on, and a deletion is lost; only the last landing is out of order. |
| `Agreement.PageKeepsAgreement` | `crates/havenkeys-core/src/sync.rs:332-346` | A page keeps agreement even when it is stale and moves the stored cursor back. |
| `Agreement.RefetchKeepsAgreement` | `crates/havenkeys-core/src/sync.rs:356-392` | A fetch answer keeps agreement however late it lands. |
| `Agreement.RefetchPlanFits` | `crates/havenkeys-core/src/sync.rs:356-392` | Of an answer that named every asked id nothing is deleted for being absent, and nothing older than recorded is applied. |
| `Agreement.RecordKeepsAgreement` | `crates/havenkeys-client/src/sync.rs:357-371` | Recording a write the server accepted keeps agreement, however late, while the server still has what was written, or the stored cursor is not past what it has instead, or that leaves nothing the write could undo. |
| `Agreement.RecordIsSafeExactly` | `crates/havenkeys-core/src/vault.rs:2646-2694` | Recording is safe on every agreeing replica exactly then. |
| `Agreement.LateRecordUndoesAnEdit` | `crates/havenkeys-core/src/store.rs:455-471` | A concrete run, one pull at a time: an accepted write is recorded after a pull has brought another device's edit of the item; the old state is back, and the cursor has passed the edit. |
| `Agreement.DropKeepsAgreement` | `crates/havenkeys-core/src/sync.rs:498-521` | Dropping what a pull from 0 held and has not seen up to its end keeps agreement while the stored cursor is not past that end. |
| `Agreement.DropIsSafeExactly` | `crates/havenkeys-client/src/sync.rs:283-290` | The drop is safe on every agreeing replica and server exactly then. |
| `Agreement.ListsMirrorOverRuns` | `crates/havenkeys-core/src/vault.rs:107-122` | In every state of every run, pages in order or not, the in-memory lists hold exactly what the stored rows decrypt to. |
| `Agreement.AtomicPullIsHonest` | `crates/havenkeys-server/src/routes/sync.rs:65-140` | With no batch between the two reads the page is one an honest server may give. |
| `Agreement.PullFitsExactly` | `crates/havenkeys-server/src/routes/sync.rs:65-140` | With batches in between, the page keeps its promise exactly unless the first read found nothing and the vault was newer by the second: then the cursor passes rows that were not sent. |
| `Agreement.EmptyPullSkipsARow` | `crates/havenkeys-server/src/routes/sync.rs:65-140` | A concrete run, one pull at a time: the first read finds nothing, an item is created, the second read answers with its revision, and the replica never gets it though its cursor has passed it; only that second read is out of order. |
| `PagedPull.PageLen` | `crates/havenkeys-server/src/routes/sync.rs:46-63` | Whole revisions only, at least the first, within the row and byte limits unless the first revision alone exceeds them, and not one revision fewer than fits. |
| `PagedPull.Pull` | `crates/havenkeys-server/src/routes/sync.rs:65-140` | The page cut from the first read and filled by the second covers exactly the rows of its range, says there is more exactly when the first read's server had more, and never fails while batches are within their cap. It ends at a whole revision within the row and byte limits, or with the first revision alone, and one more whole revision would exceed them. |
| `PagedPull.FullWindowHasTwoRevisions` | `crates/havenkeys-server/src/limits.rs:38-57` | With batches within their cap a full window never holds a single revision, so a page is never empty for want of room. |
| `PagedPull.MoreExactly` | `crates/havenkeys-server/src/routes/sync.rs:46-63` | The cut leaves rows out exactly when the server holds a row past the page's end. |
| `SyncLoop.PullPages` | `crates/havenkeys-client/src/sync.rs:230-294` | The loop, request by request, leaves exactly the replica, place and result of the run `Pull` of the same answers and local commits; refused without an account row. What such a run guarantees is in the rows below. |
| `SyncLoop.PullCatchesUp` | `crates/havenkeys-client/src/sync.rs:230-294` | Against an honest server, reading at once or twice and changing as it likes, from any replica: a pull is never refused for going backwards; when it ends, from 0 or from a replica that agreed, every row not committed here and not written between the last two reads agrees, so does every row up to the cursor unless that answer skips rows, nothing the server lacks is left of what was held, and what the drop took of the server's was written between those reads. |
| `SyncLoop.DropTakesOnlyGhostsExactly` | `crates/havenkeys-client/src/sync.rs:283-290` | The ghost drop takes nothing the server has a row of exactly when no item held at the start and never mentioned was written between the last two reads. |
| `SyncLoop.DropCanTakeALiveItem` | `crates/havenkeys-server/src/routes/sync.rs:65-140` | An item edited between the two reads of a first pull: the page keeps its promise, and a replica at cursor 0 that holds the item drops it, though it is live at both reads; the cursor stays below it, so the next pull is owed its row. |
| `SyncLoop.PullDropsOnlyGhosts` | `crates/havenkeys-client/src/sync.rs:283-290` | Against any answers: only ids held at the start of a pull from 0 and never mentioned since are dropped, and only when it ended with nothing more to come; otherwise nothing is. |
| `SyncLoop.PullRestartsAtMostOnce` | `crates/havenkeys-client/src/sync.rs:252-268` | Against any answers a pull starts over at most once, never when it began at 0, and always ends. |
| `SyncLoop.PullSucceeds` | `crates/havenkeys-client/src/sync.rs:244-294` | If every request is answered and no answer lies behind its cursor, the pull ends well on an open, linked vault. |
| `SyncLoop.PullEndsExactly` | `crates/havenkeys-client/src/sync.rs:244-294` | Against any answers, the last request tells how a pull ended and no earlier one could have ended it: well exactly if that answer lies at or past the cursor and the open, linked vault takes it, with nothing more to come or the cursor standing still; otherwise for no answer, a vault that refuses, or an answer behind a pull from 0. |
| `SyncLoop.PullReportIsTheSum` | `crates/havenkeys-client/src/sync.rs:275-292` | The report of a pull that ended well adds up what its pages added, updated and skipped, over restarts too. |
| `SyncLoop.LastCommitStands` | `crates/havenkeys-client/src/sync.rs:376-396` | Of the local commits that land while a request is in flight, the last recordable one of each item stands in the replica, listed by its trash stamp; an item without one is as it was. |
| `SyncLoop.PullBalances` | `crates/havenkeys-client/src/sync.rs:277-290` | Whatever is answered, over restarts too, the items the replica gained are the report's additions less its deletions, beside what was committed here meanwhile. |
| `SyncLoop.CommittedAre` | `crates/havenkeys-client/src/sync.rs:244-294` | The ids a run counts as committed are exactly those of the local commits made while its requests were in flight. |
| `SyncLoop.StepStaysOnTrack` | `crates/havenkeys-client/src/sync.rs:244-294` | One request to an honest server, read once or twice, with local commits and other devices' batches around and between the reads, keeps the loop on track or ends it with the replica caught up. |
| `SyncLoop.BackInTime` | `crates/havenkeys-client/src/sync.rs:252-268` | An answer behind the cursor restarts from 0 once, with what is held now; from 0 it is an error. |
| `SyncLoop.Finish` | `crates/havenkeys-client/src/sync.rs:283-294` | Exactly the held ids the server never mentioned are dropped and counted, only when the pull began at 0 and nothing more is to come. |
| `SyncLoop.ApplyPage` | `crates/havenkeys-client/src/sync.rs:270-280` | A page is applied as a whole, its ids are remembered in a pull from 0, and the report grows by the page's. |
| `SyncLoop.SettledLanded` | `crates/havenkeys-core/src/sync.rs:332-346` | An honest page extends agreement from the old cursor to the new one. |
| `Retry.RetryUnreadable` | `crates/havenkeys-client/src/sync.rs:296-331` | The two loops over chunks leave exactly the replica, report and number of requests of the run `Retried` of the same answers. |
| `Retry.RetrySettlesAll` | `crates/havenkeys-client/src/sync.rs:296-331` | If an honest server keeps answering, if only for part of what is asked, and no recorded revision is past the server's, every item recorded unreadable ends up here as the server had it, or did not have it, at one of the requests, though it changes between them. |
| `Retry.RetrySettlesAfterRun` | `crates/havenkeys-client/src/sync.rs:296-331` | The replica of any orderly run of the whole system records no revision past its server's, so the retry settles all its unreadable items, and leaves it agreeing with the server as it then is. |
| `Retry.RetryKeepsAgreement` | `crates/havenkeys-core/src/sync.rs:356-392` | A replica that agrees with an honest server agrees after the retry with the server as it is by then, whatever other devices wrote meanwhile. |
| `Retry.RetryTouchesOnlyUnreadable` | `crates/havenkeys-core/src/sync.rs:356-392` | Whatever is answered, an item that was not recorded unreadable is exactly as before, and so is the cursor. |
| `Retry.RetryEnds` | `crates/havenkeys-client/src/sync.rs:302-330` | Whatever is answered, there is at most one request for each id left to ask for. |
| `Retry.RetryCompletesExactly` | `crates/havenkeys-client/src/sync.rs:296-331` | The retry gets through to its end exactly if every request it makes is plausibly answered for one of its ids at least and taken by the vault; only the last request can be one that is not. |
| `Retry.RetryReportIsTheSum` | `crates/havenkeys-client/src/sync.rs:323-328` | The report adds up what the answers added, updated and deleted; what still does not open is not counted as skipped again. |
| `Retry.RetryBalances` | `crates/havenkeys-client/src/sync.rs:326-328` | The items the replica gained in the retry are the report's additions less its deletions. |
| `Retry.AskOnce` | `crates/havenkeys-client/src/sync.rs:305-330` | One request: refused answers and answers without progress stop the retry with nothing changed; otherwise the answered ids are applied as a fetch answer and the unanswered ones are left to ask. |
| `Retry.FewerUnanswered` | `crates/havenkeys-client/src/sync.rs:302-330` | A list of distinct unanswered ids that is part of the asked list, and not all of it, is shorter. |
| `Retry.Checked` | `crates/havenkeys-sync-client/src/client.rs:594-626` | The transport lets through only fetch answers that name asked ids, each once, as found or as unanswered. |
| `Restore.PushRestore` | `crates/havenkeys-client/src/restore.rs:116-197` | Request by request, the loops leave exactly the commits, skips, notes and wire log of the run `RestoreOf` of the same answers; the replica holds those commits and nothing else, and the report follows from the notes. When it goes on and how it ends is `RestoreLog.RestoreSucceedsExactly`. |
| `Restore.RestoreConserves` | `crates/havenkeys-client/src/restore.rs:124-197` | Against any answers, success or failure: every staged write was recorded, left to the server or not yet dealt with, exactly once; success leaves nothing; and at most two write requests per staged write were sent. |
| `RestoreLog.RestoreSucceedsExactly` | `crates/havenkeys-client/src/restore.rs:116-197` | For any queue, however many batches, and any answers: a restore succeeds if and only if each exchange of its log was fine (an acknowledgement of every write by id that the vault can record, a refusal that names only ids of its batch, or an answered fetch); every exchange but the last is fine, an error is that of the last, and success leaves nothing and has sent every staged write, batch after batch. |
| `Restore.RestoreIsBatches` | `crates/havenkeys-client/src/restore.rs:126-142` | Without a refusal a restore commits and ends exactly as sending the same writes in batches of 500 does, in any number of batches. |
| `RestoreLog.RestoreIsAccountable` | `crates/havenkeys-client/src/restore.rs:132-192` | The log is what was sent, each request with the answer it got; the commits are those of the accepted writes; each base sent was staged or had been reported as that item's tombstone; and each write left to the server was refused by name with no tombstone left to revive, or named more than once. |
| `RestoreLog.CommitsAreAcknowledged` | `crates/havenkeys-client/src/restore.rs:134-141` | A recorded write lies in a batch the server accepted, at a revision acknowledged for that item. |
| `RestoreLog.BatchRevivesOnce` | `crates/havenkeys-client/src/restore.rs:129-192` | Within a batch of one write per item, whatever is answered: an item reported deleted, and named once, is sent again based on its tombstone and never asked about again; a write's base changes at most once; and an item refused after its tombstone was reported is in no later try. |
| `RestoreLog.RestoreNotesExactly` | `crates/havenkeys-client/src/restore.rs:175-190` | A restore that succeeds notes exactly the writes it left to the server, under their own types, if and only if no refusal named an item more often than its batch held it, once more where a tombstone was reported. |
| `RestoreServer.RestoreNeverOverwrites` | `crates/havenkeys-client/src/restore.rs:113-197` | With any batches of other devices between the exchanges of a restore, each write it gets accepted lands on an id without a row or on a tombstone; a live row is never overwritten. |
| `RestoreServer.OneConflictSinksNothing` | `crates/havenkeys-client/src/restore.rs:1-18` | A batch of new items sent to a server at rest is done in two writes: what is recorded, at the server's next revision, is exactly the items without a row and the tombstones that are neither unanswered nor named twice, revived; the other writes are left alone. So every item without a live row is recorded if and only if no refused tombstone is unanswered or named twice. |
| `RestoreServer.UnansweredTombstoneIsLost` | `crates/havenkeys-server/src/routes/items.rs:298-353` | Two items restored, one live and one deleted on the server, whose fetch answers for the live one and names the other as unanswered: both are left alone, nothing is recorded, and the restore ends without an error. |
| `Restore.AnswerMeaning` | `crates/havenkeys-client/src/restore.rs:175-191` | A conflict answer as a whole, however often it names an item: the in-place rebasing and removing, name by name, leaves the batch in its own order with the items not named as they are and those named once with a tombstone based on it; the others leave in the order of the names that take them out, and every name that brings nothing back is noted. |
| `Restore.RevivableStayExactly` | `crates/havenkeys-client/src/restore.rs:175-191` | Every named item with a tombstone to revive stays in the batch if and only if the answer names none of them twice. |
| `Restore.NotedExactly` | `crates/havenkeys-client/src/restore.rs:175-191` | The notes stay those of the skipped writes exactly when no item is named more often than the batch holds it, once more if it is unrevived and has a tombstone. |
| `Restore.NamedTwice` | `crates/havenkeys-client/src/restore.rs:175-191` | An item named twice: without a tombstone it is skipped once and noted twice; with one it is revived and then skipped after all. |
| `Restore.ResolveFacts` | `crates/havenkeys-client/src/restore.rs:177-191` | Settling one conflict moves no payload but to the skipped ones, and shortens what is left to do. |
| `Restore.Round` | `crates/havenkeys-client/src/restore.rs:132-192` | One write request: an acknowledged batch is recorded write by write; a conflict revives or skips each named item in turn, asking only for names not revived yet; an unknown name or a failed answer ends the run. |
| `Restore.AllFoundCounts` | `crates/havenkeys-core/src/export/restore.rs:221-238` | Notes taken one by one give each type's count minus its notes, never below 0, and count every note as existing. |
| `Restore.ReportCountsCommitted` | `crates/havenkeys-core/src/export/restore.rs:379-400` | When the plan counted every write under its type, the final counts are exactly the committed writes of each type. |
| `Restore.CommitBatch` | `crates/havenkeys-client/src/restore.rs:134-141` | An acknowledged batch is recorded write by write, up to the first that is not acknowledged or that the vault cannot record. |
| `Restore.RecordingComplete` | `crates/havenkeys-client/src/restore.rs:134-141` | A batch is recorded whole exactly when each write is acknowledged by id, was staged in this epoch of the open vault and is well formed. |
| `Restore.PushBatches` | `crates/havenkeys-client/src/sync.rs:376-396` | Batch by batch, the loop leaves exactly the commits and result of the run `BatchesOf` of the same answers. |
| `Restore.BatchesSucceedExactly` | `crates/havenkeys-client/src/sync.rs:376-396` | Sending in batches succeeds exactly when each batch is acknowledged, every write of it by id, and can be recorded; then all of it was recorded in order, in the fewest batches; otherwise a prefix was. |
| `Restore.BatchesFailAt` | `crates/havenkeys-client/src/sync.rs:376-396` | A failure is that of the last batch sent, the first one not taken whole: of the request exactly when it was not acknowledged. |
| `Restore.RevisionFor` | `crates/havenkeys-client/src/sync.rs:398-409` | The revision acknowledged for an item, or none when no entry names it. |
| `Sessions.HeldSessionIsCurrent` | `crates/havenkeys-client/src/client.rs:160-226` | Over all interleavings of slow logins, fallback unlocks, two-step locks, reachability changes and safe swaps of the store, with no lock half done a held session implies an unlocked vault and the current epoch; with fewer than 2^64 locks since, the very lock count it was obtained at. |
| `Sessions.LoginsEndExactly` | `crates/havenkeys-client/src/account.rs:601-624` | Over any run of safe swaps, told by whether a lock came since a login started (fewer than 2^64): a connect goes online exactly if none did and the vault is open; a fallback unlock opens a vault still locked and goes online exactly if none did and the header was adopted and opens, and locks again what it adopted but cannot read; any other finish changes nothing. |
| `Sessions.NextKeepsInv` | `crates/havenkeys-core/src/vault.rs:1231-1237` | Every step keeps the invariant, but a swap of the store, which locks without dropping the session: that keeps it exactly when no session is held or a lock call is still to drop it. |
| `Sessions.RemovalCanStrandASession` | `crates/havenkeys-client/src/removal.rs:43-63` | A concrete run: an unlock and a login between a removal's lock and its store swap leave a session held over a locked vault. |
| `Sessions.EpochComesRound` | `crates/havenkeys-client/src/client.rs:160-226` | A run without swaps: after exactly 2^64 locks a login from before the first of them goes online. |
| `Sessions.HavenClient.LockVault` | `crates/havenkeys-client/src/client.rs:315-329` | First half of a lock: the vault locks and the epoch moves on, wrapping at 2^64. |
| `Sessions.HavenClient.DropSession` | `crates/havenkeys-client/src/client.rs:207-218` | The session goes whatever the state, and the two answers say whether one was held and shown online. |
| `Sessions.HavenClient.MarkUnreachable` | `crates/havenkeys-client/src/client.rs:159-178` | Only an online client becomes unreachable, with its session kept. |
| `Sessions.HavenClient.FinishLogin` | `crates/havenkeys-client/src/sync.rs:112-169` | A login goes online only if the vault is unlocked in the epoch it started from. |
| `Sessions.HavenClient.FinishFallback` | `crates/havenkeys-client/src/account.rs:601-624` | Online exactly if the vault was still locked in the epoch the login started from, the header was adopted and opens: the vault is then unlocked with this session. Adopted but unreadable, it is locked in the next epoch with connectivity as it was. Otherwise nothing changes. |
| `RateLimit.Bucket.Take` | `crates/havenkeys-bridge/src/ratelimit.rs:42-54` | The bucket earns its rate since the last request up to its capacity; with a token it spends exactly one and admits, otherwise it refuses and spends nothing. |
| `RateLimit.WindowBound` | `crates/havenkeys-bridge/src/ratelimit.rs:42-54` | In any window of any run the admitted requests number at most the capacity plus the rate times the window's length. |
| `RateLimit.TokensPay` | `crates/havenkeys-bridge/src/ratelimit.rs:42-54` | Tokens stay within 0 and the capacity, and admissions are paid for by tokens held and time passed. |
| `RateLimit.IdleRequestIsAdmitted` | `crates/havenkeys-bridge/src/ratelimit.rs:42-54` | A request after an idle gap of one token's time is always admitted. |
| `RateLimit.BurstIsAdmitted` | `crates/havenkeys-bridge/src/ratelimit.rs:42-54` | A full bucket admits a burst of as many requests as it holds tokens, however close together. |
| `RateLimit.TokensBalance` | `crates/havenkeys-bridge/src/ratelimit.rs:42-54` | Over any run the tokens left are those at the start plus what was earned, less one for each request admitted and what ran over the capacity: nothing else is ever taken. |
| `RateLimit.RateLimiter.AllowItemUpdate` | `crates/havenkeys-bridge/src/ratelimit.rs:96-106` | Expired entries are forgotten; the item is reserved exactly when its interval is not running. |
| `RateLimit.RateLimiter.ReleaseItemUpdate` | `crates/havenkeys-bridge/src/ratelimit.rs:114-118` | Only the reservation made at that very time is given back. |
| `Budget.ReservationsAreSpaced` | `crates/havenkeys-bridge/src/server.rs:303-328` | Over all interleavings of reserving, failing and allowed repeats, a change on a reservation starts at least an interval after every earlier change of its item that went through. |
| `Budget.ReleaseErasesOnlyItsOwn` | `crates/havenkeys-bridge/src/server.rs:303-328` | A failure takes away no entry but its own reservation's; every other change keeps its cover. |
| `Budget.NoTwoReservationsAtOnce` | `crates/havenkeys-bridge/src/server.rs:378-408` | While one reservation of an item runs, no second is granted inside the interval. |
| `Budget.GrantedExactly` | `crates/havenkeys-bridge/src/server.rs:303-328` | In every state of every run a change of an item is granted its reservation exactly when an interval has passed since every change of it that went through and every one still running on a reservation: no refusal and no failure puts it off. |
| `Budget.UnderWayAndDone` | `crates/havenkeys-bridge/src/server.rs:303-328` | Over any run a change is under way exactly when the last step for its request is a save that went ahead, on its reservation or as a login the user may be asked about; done are exactly the changes that were put through, with the time of their reservation or, without one, of the success. |
| `Budget.SpacedExactlyWhenFresh` | `crates/havenkeys-bridge/src/server.rs:378-408` | The spacing holds for a clock reading exactly when it is not older than the newest one the limiter has seen. |
| `Budget.StaleReadingComesTooSoon` | `crates/havenkeys-bridge/src/server.rs:378-408` | A concrete run: another item's request ends the interval of a change made at 0, and a request that had read the clock at 599 seconds is granted. |
| `CivilDate.CivilRoundTrip` | `crates/havenkeys-client/src/removal.rs:183-194` | Every valid proleptic Gregorian date maps to a day number and back to itself. |
| `CivilDate.DaysRoundTrip` | `crates/havenkeys-core/src/identity.rs:272-291` | Every day number, negative ones too, maps to a valid date and back to itself. |
| `CivilDate.DaysCountTheCalendar` | `crates/havenkeys-core/src/identity.rs:272-282` | 1970-01-01 is day 0, and the calendar's next day has the next number. |
| `CivilDate.OrderOfDates` | `crates/havenkeys-core/src/identity.rs:315-322` | Valid dates are in calendar order exactly when their day numbers are. |
| `CivilDate.DatesFollowDays` | `crates/havenkeys-client/src/removal.rs:183-194` | A later day number gives a later date. |
| `CivilDate.YearOfEraIsRight` | `crates/havenkeys-client/src/removal.rs:183-194` | The closed formula picks the year of the 400-year era whose days include the day. |
| `Stamps.StampOrderIsTimeOrder` | `crates/havenkeys-client/src/removal.rs:196-205` | For times in years 0 to 9999 the text order of stamps is exactly time order. |
| `Stamps.StampReadsBack` | `crates/havenkeys-client/src/removal.rs:183-205` | A stamp of years 0 to 9999 is sixteen characters that read back, as the digits of a valid date and a time of day, to the very second it was made from. |
| `Stamps.FourDigitExactly` | `crates/havenkeys-client/src/removal.rs:183-205` | The days whose year has at most four digits are those from -719528 to 2932896. |
| `Stamps.ParseYmdExactly` | `crates/havenkeys-core/src/identity.rs:293-313` | A text parses to a date exactly when it is the zero-padded text of that valid date, years 1 to 9999. |
| `Stamps.BirthDateExactly` | `crates/havenkeys-core/src/identity.rs:315-322` | A birth date is accepted exactly when it is the text of a valid date not before 1850-01-01 and not after the date of today. |
| `Stamps.PaddedOrder` | `crates/havenkeys-client/src/removal.rs:196-205` | Zero-padded numbers of one width are in text order as in number order. |
| `Generator.Generate` | `crates/havenkeys-core/src/generator.rs:91-124` | For every outcome of the random source: refused exactly for a bad length or no type; otherwise the asked length, only characters of enabled types, one of every enabled type, nothing ambiguous when asked, and precisely the shuffle of the picks. |
| `Generator.ExactlyThePromised` | `crates/havenkeys-core/src/generator.rs:91-124` | The texts that come out for some answers of the random source are exactly those of the asked length made of characters of the enabled types, without the ambiguous ones when asked, with one of every enabled type. |
| `Generator.ShuffleIsABijection` | `crates/havenkeys-core/src/generator.rs:111-117` | Of distinct elements, the draws (one index up to i per position i) correspond one to one to the permutations. |
| `Generator.ShuffleKeepsContents` | `crates/havenkeys-core/src/generator.rs:111-117` | Whatever is drawn, the shuffle keeps the multiset. |
| `Generator.DrawsReach` | `crates/havenkeys-core/src/generator.rs:111-117` | For any list and any permutation of it there are draws that lead there. |
| `Generator.Shuffle` | `crates/havenkeys-core/src/generator.rs:111-117` | The in-place loop computes the shuffle of the draws asked for, from the last position down. |
| `Generator.PickAll` | `crates/havenkeys-core/src/generator.rs:104-110` | One pick from each class in order, then from the whole alphabet up to the length. |
| `Generator.ClassesApart` | `crates/havenkeys-core/src/generator.rs:21-25` | No enabled class is empty, even without the ambiguous characters, and no character is in two. |
| `Generator.Class` | `crates/havenkeys-core/src/generator.rs:64-70` | A class keeps exactly its characters that are not excluded as ambiguous. |
| `CustomFields.ApplySections` | `crates/havenkeys-core/src/custom_field.rs:576-675` | A save is refused with each error only for its cause; otherwise each section and field at its place holds what was sent for it, within the size limit: a set secret is stored, a cleared or emptied one is gone, a kept one is what was stored under that id. |
| `CustomFields.MergeSections` | `crates/havenkeys-core/src/custom_field.rs:589-657` | The loops that remove ids as they go accept exactly the layouts in which every id is known and sent once, kinds stay, and every value passes its rule. |
| `CustomFields.EverythingStoredAsSent` | `crates/havenkeys-core/src/custom_field.rs:589-657` | Every field of an accepted save, at its place, holds what was sent for it, a new one under the id drawn for that place. |
| `CustomFields.ValueAcceptedExactly` | `crates/havenkeys-core/src/model.rs:269-294` | A value is accepted exactly if its own rule accepts it: a plain value that cleans, a password that is kept, cleared, empty or fits, a one-time-password text that is kept, cleared, blank or parses. |
| `CustomFields.FieldCountsOnce` | `crates/havenkeys-core/src/custom_field.rs:661-673` | The size a save is limited by counts each label and each value once, with the length of its text, and an empty secret as nothing. |
| `CustomFields.SecretsNeverMove` | `crates/havenkeys-core/src/custom_field.rs:606-652` | A password or one-time-password setup in the result was set at that very place by this save, or was stored under that same field id and kept. |
| `CustomFields.SecretsStayUnderTheirId` | `crates/havenkeys-core/src/custom_field.rs:573-579` | Over any run of saves a field holds only a secret once set under its own id, or held under it at the start. |
| `CustomFields.SaveKeepsIdsDistinct` | `crates/havenkeys-core/src/custom_field.rs:583-611` | After any accepted save no two fields and no two sections share an id. |
| `CustomFields.SavingUnchangedChangesNothing` | `crates/havenkeys-core/src/custom_field.rs:573-675` | Sending back the layout the editor was given, secrets only kept, is accepted exactly when what is stored is within the limits of a save, and then gives back the same sections. |
| `CustomFields.LookupIsAsStored` | `crates/havenkeys-core/src/custom_field.rs:606-617` | Looking an id up in what is left of the map gives what was stored at the start, or refuses an id sent before. |
| `CustomFields.MergeField` | `crates/havenkeys-core/src/custom_field.rs:606-652` | One field: unknown id or changed kind, bad label, kept value on a new field, or bad value is refused; otherwise it is stored as sent, a set secret as given, under its own id or the new one, and the id is used up. |
| `Tags.Spellings` | `crates/havenkeys-core/src/tags.rs:62-81` | Counting by key and spelling, in any order of visiting, yields for each key a spelling that is carried, most often, the smallest of a tie. |
| `Tags.SpellingsIgnoreOrder` | `crates/havenkeys-core/src/tags.rs:58-81` | The spellings do not depend on the order of the items. |
| `Tags.CanonicalVaultHasOneSpelling` | `crates/havenkeys-core/src/tags.rs:83-95` | Canonicalising every item leaves one spelling per tag in the vault and each item with the tags it had. |
| `Tags.CanonicalVaultKeepsSpellings` | `crates/havenkeys-core/src/tags.rs:83-95` | It leaves the spellings as they were. |
| `Tags.SecondPassChangesNothing` | `crates/havenkeys-core/src/tags.rs:83-95` | A second pass against the spellings then in force changes nothing. |
| `Tags.DedupedMeaning` | `crates/havenkeys-core/src/tags.rs:49-56` | Each tag once, in the spelling that came first, sorted by key and spelling, no tag lost. |
| `Tags.DedupeSorted` | `crates/havenkeys-core/src/tags.rs:49-56` | The filter by seen keys and the sort compute that list. |
| `Tags.SortIsTheOnlyOrder` | `crates/havenkeys-core/src/tags.rs:54-54` | A list has one order by key and spelling, so any correct sort gives it. |
| `Tags.SavedItemKeepsOneSpelling` | `crates/havenkeys-core/src/vault.rs:2421-2436` | An item saved against the spellings of all the others gives no tag a second spelling. |
| `Tags.OneSpellingOverRuns` | `crates/havenkeys-core/src/vault.rs:2421-2476` | Over any run of saves staged alone or in a batch, accepted or refused later, and of items that arrive from other devices: every state has one spelling per tag, and keeps it whichever staged writes are accepted, exactly when each tag set staged agrees with those staged for other items and each that arrives, or is staged in a batch, also with those stored. |
| `Tags.AllAgreeExactly` | `crates/havenkeys-core/src/vault.rs:2451-2476` | One spelling per tag is kept whichever staged writes are recorded, in any order, exactly when all that is stored or staged for different items agrees. |
| `Tags.KnowingBatchIsCompatible` | `crates/havenkeys-core/src/vault.rs:2451-2476` | A batch whose spellings know all that is stored and staged for other items gives no tag a second one: so an import or restore does while nothing else arrives or is staged. |
| `Tags.SavingHealsExactly` | `crates/havenkeys-core/src/vault.rs:2421-2449` | Whatever an item was stored with, saving it leaves one spelling per tag exactly when the others have one, and takes the others' spelling of every tag they have. |
| `Tags.TwoItemSplitHeals` | `docs/superpowers/specs/2026-10-07-item-tags-design.md:144-146` | Two items with two spellings of a tag: saving either, with any tags, leaves one. |
| `Tags.StageAllNew` | `crates/havenkeys-core/src/vault.rs:2451-2476` | A batch of new items staged one after the other, before any is stored, keeps one spelling per tag and every item's tags. |
| `Tags.StageNew` | `crates/havenkeys-core/src/vault.rs:2456-2476` | The batch's spellings grow by exactly the item's tags and never change one they had. |
| `Tags.StoredItemInBatchExactly` | `crates/havenkeys-core/src/vault.rs:2456-2476` | The batch starts from the spellings of everything stored, this item's old tags too. An item already stored met in it keeps one spelling per tag exactly when, for tags no other stored item has, its first spelling is the one staged earlier. |
| `Tags.StoredTagsInBatchAreSafe` | `crates/havenkeys-core/src/vault.rs:2546-2553` | An item saved in a batch with the tags it is stored with, as an import does when it completes a login, gives no tag a second spelling. |
| `TagSplit.TwoDevicesSplitATag` | `docs/superpowers/specs/2026-10-07-item-tags-design.md:16-18` | For any two spellings of one tag, a run of the sync model: an item staged in an empty vault, another device's item pulled before the accepted write is recorded; both are then listed, each as it was typed. |
| `TagSplit.RestoreSplitsATag` | `crates/havenkeys-core/src/export/restore.rs:385-400` | For any two spellings of one tag, a run: an item of the backup arrives after the plan and before the staging and is deleted before the sending; it is revived, the restore succeeds, and the vault lists both spellings. |
| `Luhn.OneWrongDigitIsCaught` | `crates/havenkeys-core/src/card.rs:241-265` | One digit of a valid number changed, anywhere, makes it invalid. |
| `Luhn.SwapIsCaughtExactly` | `crates/havenkeys-core/src/card.rs:241-265` | Two different neighbours swapped make a valid number invalid exactly unless they are 0 and 9. |
| `Luhn.OneCheckDigit` | `crates/havenkeys-core/src/card.rs:241-265` | Every digit string is completed by exactly one character. |
| `Luhn.AcceptedAsStandard` | `crates/havenkeys-core/src/card.rs:241-265` | A number is valid exactly when, counted from the right, its odd places and the digit sums of its doubled even places add up to a multiple of ten. |
| `Pairing.DecodingUndoesEncoding` | `crates/havenkeys-core/src/pairing.rs:203-268` | What was encoded is accepted for its payload and no other; any proper prefix or extension of it is accepted for none. |
| `Pairing.PrefixFree` | `crates/havenkeys-core/src/pairing.rs:226-268` | No accepted byte string is a proper prefix of another, and one string is accepted for one payload. |
| `Pairing.EncodingIsInjective` | `crates/havenkeys-core/src/pairing.rs:203-224` | Payloads with one encoding are one payload. |
| `Pairing.Decode` | `crates/havenkeys-core/src/pairing.rs:226-268` | Yields the one payload the bytes are accepted for, or refuses when there is none; a foreign version byte is told apart. |
| `Pairing.Encode` | `crates/havenkeys-core/src/pairing.rs:205-224` | Refused exactly for an empty or long e-mail or a long Secret Key text; otherwise version, ids, key, length byte, key text, two length bytes and e-mail, each at its place. |
| `Pairing.AcceptsExactly` | `crates/havenkeys-core/src/pairing.rs:226-268` | The reader's checks pass exactly for the byte strings some payload with some text of its key is written as. |
| `Header.VaultService.AdoptAccountHeader` | `crates/havenkeys-core/src/sync.rs:262-293` | A served header is taken exactly when the vault is open, it is this vault's, account-bound, attested and newer than everything this device has known: then its wrapped key, scheme and revision are stored, the rest of the header stays, and the floor is raised to it; otherwise nothing changes. |
| `Header.VaultService.AdoptAndUnlock` | `crates/havenkeys-core/src/vault.rs:1190-1219` | The same floor and the same stored header when a served header opens a locked vault, and a lock since wins. |
| `Header.VaultService.CommitRekey` | `crates/havenkeys-core/src/vault.rs:1297-1332` | A password change is written exactly over the header it started from, in the same epoch, at the next revision: the new wrapped key and scheme are stored and the floor raised. |
| `Header.ReplacedHeaderNeverReturns` | `crates/havenkeys-core/src/sync.rs:253-293` | Over any run of served headers, logins, password changes, locks and crashes between the two statements, a header that was replaced never comes back. |
| `Header.NewerHeaderIsTakenForGood` | `crates/havenkeys-core/src/sync.rs:262-293` | A newer header of this vault is stored as it was written, even if a crash falls between the two statements, and over any later run the device keeps it or a newer one. |
| `Header.CreatedHeaderStays` | `crates/havenkeys-core/src/vault.rs:938-960` | A vault created on a device that holds none keeps the floor already known, is open with the header it was given, and over any later run keeps it or a newer one. |
| `Header.ReplayIsRefusedForGood` | `crates/havenkeys-core/src/sync.rs:253-293` | A genuine header at or below the newest revision this device has known, in its header or its account row, is refused in every later state, on both ways in. |
| `Header.HugeRevisionsAreRefused` | `crates/havenkeys-core/src/sync.rs:274-284` | A revision that does not fit a signed 64-bit integer is never taken. |
| `Header.RunMovesOn` | `crates/havenkeys-core/src/store.rs:730-737` | Over any run revisions only grow with each replaced header, and the floor never falls. |

## Left out

- Cryptography (AES-GCM, HPKE, OPAQUE, Argon2id): decryption and attestation are uninterpreted.
- HTTP, sockets, threads and the async runtime: a request with its answer, and each mutex section, is one step.
- SQLite and schema migrations: tables are maps and a transaction is one step; storage errors appear only where the header's two statements may be torn apart.
- Agreement.Next: a server restored from a backup is not a step; `SyncLoop.PullCatchesUp` starts from any replica, one that is ahead of its server included, with the restart and the drop that follow.
- SyncLoop.PullPages: the vault is not locked or swapped while the loop runs; local commits are all that lands in between.
- Retry.RetryUnreadable: nothing else is recorded here during the retry; late answers beside other writes are steps of `Agreement`.
- The automatic purge of old trash after a sync, attachments, the health report's cache and the generation counter, which sync only calls.
- Plans and frozen accounts (`require_full`, `record_plan`): a refusal before anything is sent.
- Restore.PushRestore: the vault is not locked, swapped or written by others while the restore runs; the error kinds of the transport are one.
- RestoreServer.OneConflictSinksNothing: one batch at a time, since the server's later states depend on what was accepted before; with other devices writing meanwhile a revived item may meet a second conflict and is then left alone. Which rows a fetch leaves unanswered for want of room is not modelled: any may be.
- Server.StubItems.Write: request parsing and the size limits of a batch are not modelled; `Server.StubItems.Pull` sends one page, as that server does.
- Sessions.NextKeepsInv: the stored server address and the events sent to the shell are not part of the state.
- Header.VaultService.AdoptAccountHeader: the vault service is reduced to what decides about headers; an undecodable wrapped key counts as unreadable, whichever check finds it.
- RateLimit.Bucket.Take: times and tokens are reals, so rounding of floating-point numbers is not modelled.
- The other limits of the bridge (background places, the single confirmation slot): counters with one guard each.
- CivilDate.DaysFromCivil: machine integers are unbounded, so overflow for dates beyond the range of 64-bit day numbers is not modelled.
- Generator.Generate: the entropy estimate and the distribution of the draws are not modelled; every outcome of the source is.
- CustomFields.ApplySections: single-value rules (lengths, control characters, URLs, dates, one-time-password texts) are parameters, and when a layout has several faults which of them is reported first is not stated.
- CustomFields.AreNew: that random ids are new and different is assumed where distinct ids are claimed, and nowhere else.
- Tags.Next: the places of items are given from the start, an item not stored being untagged; a batch's spellings may be any map by key, those of the code among them.
- Tags.Firsts: lower-casing is an arbitrary function; trimming, length limits and the 20-tag limit of `normalize` are left out.
- Luhn.CheckDigitOk: the sum is unbounded where the code uses 32 bits, which card numbers of at most 19 digits do not reach.
- Pairing.Decode: UTF-8 validity and the Secret Key's text form are parameters.
- URL parsing, the Public Suffix List, look-alike detection, the user interfaces, the native hosts and the build scripts.
