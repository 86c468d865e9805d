# Verified model of the messenger's storage and key protocols

A Dafny model of the parts of the messenger that must never lose or misorder data: the inbox
protocol (send, lock-free compaction, client sync), credential rotation and the key chain, the
chat materializer with its incremental conversation index, session-key sharing, read markers,
the retention sweep and the device token.

Code that the repository writes as loops and state changes is modelled as methods and classes,
each proved against a specification function; the laws are then proved of those functions.
Protocols whose steps interleave are state machines whose steps are single store accesses; a run
is any sequence of enabled steps, so every request may die after any of its steps. Where a
handler awaits, the class version calls a method (`Await`) whose contract lets the rest of the
system take any steps of the machine, and the handler is proved to be a history of that machine.

The store is a map with byte-wise ordered keys and cursor paging. Encryption, signatures, MACs
and hashes are symbolic. ULIDs are fresh strings. I/O failures, lost replies and timeouts are
nondeterministic choices or explicit parameters (`Fate`, `Stage`, `Fault`, `patience`).

| module | what it covers |
|---|---|
| `Lex`, `SortedStore` | key order, sorted listings, paging, the in-memory store |
| `Cbor`, `Compaction`, `CompactionHandler` | deduplication; compaction as a state machine; the `store_compact` handler |
| `Ingest`, `EndToEnd` | what a batch materializes; sync passes and compaction interleaved, with the no-loss theorem |
| `SyncHandler`, `Reach` | the client's sync request by request, as a history of that machine; which ids a sync gets to see, and which the cursor hides |
| `KeyedMutex`, `HandleClaim`, `RotateKeys` | the refcounted mutex; registration and rotation under it |
| `KeyChain` | rotation from the client, the chain walk |
| `Sessions`, `Overlap` | key shares before messages; sends that overlap |
| `Delivery`, `Archiving`, `FirstSync` | from the senders' runs to a readable inbox; compaction keeps its order; the order the sync really reads in |
| `Chat`, `Summary`, `MessageDb` | bubbles; the conversation summary; `saveMessages` |
| `ReadMarkers`, `Cleanup`, `Token` | read-state merge; retention sweep; device token |

## What the proofs show about the code

* `appendChainLink` runs before the server lock is taken, so the lock does not protect the
  chain: of two overlapping rotations the late append drops the link the committed one needs,
  unless both derived the same key (`OverlapBreaksChain`). The chain theorem is for attempts that
  do not overlap.
* `fetchChain` turns every error into an empty chain, so a rotation after a failed read leaves a
  sound chain exactly when there was no hop to lose (`Submit`, `AppendKeepsChain`).
* A rotation record can be overwritten when its lookup fails: the record survives if and only if it
  is what the version check and the signature say of the request now (`FailedLoadOverwritesRecord`),
  so a retry of an applied rotation gets a stale answer over its success (`LostRecordGoesStale`).
* `key_version` is a `u32` and `current_kv + 1` wraps in a release build, so versions run in a
  cycle (`RotationIsLinear`, `VersionWrapsAtTheEnd`).
* A cancelled `acquire` leaves its count behind, and the slot with it (`CleansUpIffNoneCancelled`).
* `addInbound` keeps the session record it already has, while its comment speaks of the earlier
  index: a message of a new session opens if and only if the first share, not the earliest, is at
  an index no later (`OpensIffFirstShare`, and `LateShareFails` for two shares out of order). Read
  in the order it was delivered, an inbox is readable all the same as long as no session's indices
  go down (`InboxIsReadable`), which sends made one after the other ensure.
* The sync reads the live page before the archives, although what is archived arrived earlier. A
  first sync fails nothing if and only if no message is below its session's first share on the
  live page (`FirstSyncFailsNothingIff`); a session shared twice, as after a share record that was
  not written, can break that (`LateLiveShareFails`).
* Sends that overlap still put keys before messages (`KeysFirstThroughout`), but a session's indices
  stay in order exactly as long as nothing lands above an envelope of it still to land
  (`InOrderAscends`, `DisorderGoesDown`, reached in `DisorderIsReached`), and the rotation threshold
  holds exactly as long as no session is handed out without room for those already handed it
  (`RoomyStaysWithin`, `CrowdedPassesThreshold`, reached in `OverlapPassesThreshold`).
* `fetchMessages` saves the live cursor before `saveMessages` runs. When that save fails, the
  messages are still on the server but below the cursor, and no sync that lists from the cursor
  sees them (`SavedCursorHides`, `FailedSaveHides`) until a compaction archives them
  (`CompactionReveals`); a sync whose listing fails lists from the start and may (`StartPageShows`).
* The conversation index equals a recomputation after a batch exactly under the condition
  `BatchRight`, which reads off the batch and the table (`SaveRefinesRecomputation`): a tie is right
  when arrival order agrees with id order (`TieRightIff`), a timestamp before the epoch is shown as
  0 (`FirstRightIff`), an amendment that came before its target is missed (`EarlyRightIff`), and
  unknown kinds and messages saved twice are counted (`SavedTwiceMiscounts`).
* `markConversationRead` reads and writes in two transactions. A watermark goes down exactly when
  the write half finds the row already past its mark (`LowersIff`); no run in which a write never
  overtakes a smaller pending mark of its row lowers one (`OrderlyNeverDown`). The comment calls a
  concurrent advance self-healing; the watermark a late write erases comes back only if another
  copy holds it (`LateWriteForgets`, `TwoRoundsConverge`).
* `rotate` frees the session in memory before it clears the share records. Dying before the new
  session is made leaves a freed one, and in no other way (`FreedIff`); from then on nothing is sent
  (`FreedSendsNothing`, reached in `FreedIsReached`) until a restart (`RestartUnfrees`).
* `parse` accepts any decimal text for the key version that the tag covers, such as `01`
  (`TaggedIsAccepted`, `ParsesIff`); `generate` prints only the canonical one (`DigitsAreDecimal`).

## Model

| member | source | states |
|---|---|---|
| `SortedStore.MemStore.ListObjects` | server/src/store_mem.rs:68-95 | a listing is the first `limit` keys under the prefix above the cursor in ascending order, with a cursor exactly when more remain |
| `SortedStore.MemStore.PutObject` | server/src/store_mem.rs:34-45 | the insert keeps the key order and changes that one object |
| `SortedStore.MemStore.DeleteObjects` | server/src/store_mem.rs:60-66 | removes exactly the given keys, absent ones included without error |
| `Lex.LessIff` | server/src/store_mem.rs:68-95 | the key order: a proper prefix first, otherwise the first differing character decides |
| `SortedStore.PageResumes` | server/src/store_mem.rs:68-95 | following a page's cursor yields exactly the matches the page left out |
| `SortedStore.PageFacts` | server/src/store_mem.rs:68-95 | a page misses no match below its end, and is full, with its last key as cursor, exactly when more remain |
| `Cbor.DeduplicateByMsgId` | server/src/cbor.rs:55-68 | the loop with its seen-set computes the specification `Dedup` |
| `Cbor.DedupIsFirstOccurrences` | server/src/cbor.rs:55-68 | what survives is exactly every id-less entry and the first entry of each id, in order |
| `Cbor.DedupIncremental` | server/src/cbor.rs:55-68 | dedup(dedup(a) + b) = dedup(a + b) |
| `Cbor.DedupIds` | server/src/cbor.rs:55-68 | no message id is dropped and none is invented |
| `Compaction.ConservesMessages` | server/src/routes.rs:613-729 | over every interleaving of sends and compaction runs that may stop anywhere, every accepted message id is live or in a present archive |
| `Compaction.ArchivedForever` | server/src/routes.rs:613-729 | an id once archived is archived at every later point of every run |
| `Compaction.CoverStep` | server/src/routes.rs:719-723 | a deleted archive was first copied into one written later, which is itself covered: no step uncovers an id |
| `CompactionHandler.Server.CollectLive` | server/src/routes.rs:630-652 | undisturbed, the early-stopping paging loop returns exactly the live keys at or below the boundary; disturbed, it is a history of the machine and gathers no key past the boundary |
| `CompactionHandler.LiveUpToFacts` | server/src/routes.rs:630-652 | that result contains a key if and only if it is live and at most the boundary |
| `CompactionHandler.PageStep` | server/src/routes.rs:634-651 | stopping at a page that ends past the boundary misses no key |
| `CompactionHandler.Server.StoreCompact` | server/src/routes.rs:613-729 | the handler is a history of the compaction machine whatever others do; a success reply means its run put the merge of all it read under the reported key, counted it, and then deleted everything it listed; alone it replaces the collected live objects and the day's archives by one merged archive |
| `Compaction.OnlyListedDeleted` | server/src/routes.rs:719-723 | along any history no run deletes a key it has not listed |
| `CompactionHandler.TwoCompactionsEqualOne` | server/src/routes.rs:672-723 | two compactions on one day leave the archive that one over everything would |
| `Ingest.SharesLearned` | web/src/lib/messaging.ts:248-304 | after the share loop a session is known if and only if it was known or opens from a fresh share of the batch, and known records are kept |
| `Ingest.EveryMessageAccounted` | web/src/lib/messaging.ts:306-352 | each message of a batch is seen, a recoverable skip, or failed under a known session, and nothing else is materialized |
| `Ingest.MaterializedOnce` | web/src/lib/messaging.ts:306-352 | no id materializes twice in a batch |
| `Ingest.SkippedExactlyUnknown` | web/src/lib/messaging.ts:316-329 | a message whose session is known or opens anywhere in the batch is never a recoverable skip; otherwise it is one unless a copy materialized |
| `Ingest.NoSkipHandled` | web/src/lib/messaging.ts:420-488 | a batch without recoverable skips is handled entirely |
| `Ingest.FetchedSafe` | web/src/lib/messaging.ts:567-628 | every archive a fetch proposes for marking is handled by what the fetch saw |
| `SyncHandler.Device.ProcessEnvelopes` | web/src/lib/messaging.ts:226-355 | both loops: sessions from every fresh share first, then messages, skips and seen ids; a history of the machine whatever happens at its awaits, and the specification when nothing does |
| `SyncHandler.Device.SyncArchive` | web/src/lib/messaging.ts:420-488 | the archive loop likewise, skipping ingested and unreadable archives |
| `SyncHandler.Device.SyncAndPublish` | web/src/lib/inbox-sync.ts:44-103 | the whole sync is a history of the end-to-end machine wherever it dies; undisturbed it computes the sequential fetch, saves the cursor and the messages, and marks candidates only after the save |
| `EndToEnd.NoMessageIsLost` | web/src/lib/messaging.ts:360-628 | over every interleaving of sends, compactions and sync passes dying anywhere, a sent message is stored, still on the server (live or in an archive not marked), or failed under a known session |
| `EndToEnd.IngestMarkingIsSafe` | web/src/lib/inbox-sync.ts:63-83 | with keys arriving and vanishing at any moment and failing saves, an archive is marked only if each of its messages is stored or failed under a known session |
| `EndToEnd.FailureNeedsKnownSession` | web/src/lib/messaging.ts:344-351 | along every run, an envelope is counted as failed only if at some earlier step the device held a record of its session that did not decrypt it |
| `Reach.PassReaches` | web/src/lib/messaging.ts:360-488 | from any reachable state, an undisturbed sync hands its message loops an id if and only if it is on the page above the cursor or in an archive not marked |
| `Reach.WithinReachIsDealtWith` | web/src/lib/inbox-sync.ts:44-103 | and after such a sync whose save succeeds each message within reach is stored, failed, in an archive left unmarked, or live under a session its page's shares left unknown |
| `Reach.SavedCursorHides` | web/src/lib/messaging.ts:607-612 | in every run, once a pass has saved its cursor no listing from there has anything of its page |
| `Reach.FailedSaveHides` | web/src/lib/inbox-sync.ts:63-69 | from any reachable state there is a run in which a listed message is fetched, the save does not happen, and the message is still live yet hidden from every next sync that lists from the cursor |
| `Reach.StartPageShows` | web/src/lib/messaging.ts:383-387 | a listing from the start has a live message if and only if fewer live keys than a page holds are below it |
| `Reach.CompactionReveals` | web/src/lib/messaging.ts:499-508 | an undisturbed compaction up to the cursor brings every live message at or below it back within reach |
| `KeyedMutex.Excludes` | server/src/keyed_mutex.rs:66-119 | over every run at most one undropped guard per key, and all counted tasks of a key share its slot's semaphore, even across removal and re-creation |
| `KeyedMutex.CountsExactly` | server/src/keyed_mutex.rs:39-91 | a slot's count is its guards and waiters plus cancelled acquires, and the slot exists exactly while that is positive |
| `KeyedMutex.CleansUpIffNoneCancelled` | server/src/keyed_mutex.rs:66-91 | the count equals guards plus waiters if and only if no acquire of the key was cancelled |
| `KeyedMutex.NeverUnderflows` | server/src/keyed_mutex.rs:40-48 | whoever decrements is counted in an existing slot |
| `KeyedMutex.PermitComesBack` | server/src/keyed_mutex.rs:104-119 | over every run a semaphore's permit is available if and only if no task holds or is dropping it |
| `KeyedMutex.WaiterCanBeGranted` | server/src/keyed_mutex.rs:79-91 | so whoever waits for a permit nobody has can be granted it |
| `KeyedMutex.Locks.GrantOrTimeOut` | server/src/keyed_mutex.rs:79-91 | at the end of the wait, which is the callers' `Await`: the permit is granted exactly when nobody holds or is dropping it; a timeout gives the count back and may remove the slot |
| `KeyedMutex.Locks.DropGuard` | server/src/keyed_mutex.rs:107-119 | dropping gives back first the count, then the permit, keeping the invariant in between: the task is gone and its permit is free |
| `HandleClaim.ClaimedOnce` | server/src/routes.rs:418-505 | at most one registration of a handle ever succeeds, with every store access a step and writes and rollbacks failing |
| `HandleClaim.ClaimIsKept` | server/src/routes.rs:418-505 | from then on the handle file keeps the winner's user id |
| `HandleClaim.OwnedStaysOwned` | server/src/routes.rs:429-452 | a handle owned before is never taken over, and no registration of it passes the check |
| `HandleClaim.CheckAnswers` | server/src/routes.rs:428-454 | what a readable check makes of a handle file, by its owner and its release time against now |
| `HandleClaim.CooldownHolds` | server/src/routes.rs:441-449 | over every run whose checks fall within 30 days of the release, the tombstone stays as it is and no registration passes the check |
| `HandleClaim.ClaimableIsClaimed` | server/src/routes.rs:428-505 | a request at its check that finds the handle free or cooled down ends registered once its accesses succeed |
| `HandleClaim.RolledBackIsFree` | server/src/routes.rs:471-498 | a claim whose profile or device write fails is undone: the handle is free again |
| `HandleClaim.OtherHandlesStand` | server/src/routes.rs:418-505 | no step of a request touches any other handle |
| `HandleClaim.Registry.Register` | server/src/routes.rs:418-505 | the handler, with its rollbacks and its guard, is a history of that machine, and each reply is given exactly to the requests that ended there; with nothing in the way the handle file alone decides: owned or undated is taken, released under 30 days ago is cooling down, garbled is an error, and anything else is registered to the new user |
| `RotateKeys.RecordRoundTrip` | server/src/routes.rs:1030-1076 | `from_record` undoes `to_record` for every outcome |
| `RotateKeys.ChangesAreVerified` | server/src/routes.rs:1183-1228 | the profile changes only by a request verified under the key then stored that names the next version |
| `RotateKeys.RotationIsLinear` | server/src/routes.rs:1133-1260 | over every interleaving and from any 32-bit version, each applied request moves the account to the next version, and one body is applied twice only a whole cycle of versions apart, even if its record was lost |
| `RotateKeys.VersionWrapsAtTheEnd` | server/src/routes.rs:1184-1191 | where the cycle closes: at the last 32-bit version the next rotation brings the account back to version 1 |
| `RotateKeys.SaveSettles` | server/src/routes.rs:1192-1254 | saving a record leaves no other request of that id past its lookup |
| `RotateKeys.FreshAnswers` | server/src/routes.rs:1183-1254 | a request not on record: stale with the stored version exactly when it does not name the next one, bad continuity exactly when it does but the stored key did not sign its fields, otherwise a token at the new version, with the new key stored |
| `RotateKeys.ReplaysRecordedOutcome` | server/src/routes.rs:1168-1176 | as long as it loads, a settled record never changes and is what every later request of its id is answered with |
| `RotateKeys.SavedOutcomeReplays` | server/src/routes.rs:1168-1254 | from any start: once a request has saved its record, every later lookup of that id ends with the very same outcome |
| `RotateKeys.FailedLoadOverwritesRecord` | server/src/routes.rs:1173-1254 | why the load must succeed: after a failed lookup a request is answered as if its id were new, and the recorded outcome survives if and only if it equals that answer |
| `RotateKeys.LostRecordGoesStale` | server/src/routes.rs:1173-1196 | over every run: a retry of an applied rotation whose lookup fails records a stale answer over the success, unless a whole cycle of versions has passed |
| `RotateKeys.Account.Rotate` | server/src/routes.rs:1133-1260 | the handler is a history of the machine; without the lock it answers -1 and records nothing; with nothing in the way a recorded id is answered from its record and a new one as `FreshAnswers` says |
| `KeyChain.AppendChainLink` | web/src/lib/key-chain.ts:111-128 | the filter and push compute `Appended`: same-hop links dropped, the new one last |
| `KeyChain.AppendKeepsChain` | web/src/lib/key-chain.ts:53-128 | exactly when an append keeps a good chain good: hop not yet committed, or the link opens it; with a failed read only if nothing else was there to lose |
| `KeyChain.CommitKeepsChain` | web/src/hooks/useRotateKeys.ts:118-162 | a commit keeps the chain good if and only if its own link is stored |
| `KeyChain.RotationKeepsChain` | web/src/hooks/useRotateKeys.ts:79-162 | over every run of non-overlapping attempts dying anywhere, every committed hop has a link that opens under its key and wraps the previous key |
| `KeyChain.OverlapBreaksChain` | web/src/lib/key-chain.ts:111-128 | from any sound account, two overlapping attempts run so that the chain stays good if and only if both derived the same key |
| `KeyChain.Account.Submit` | web/src/hooks/useRotateKeys.ts:79-204 | verify, append, then commit: what each fault leaves behind; the chain is sound afterwards if and only if its read succeeded, nothing was appended, or there was no hop to lose |
| `KeyChain.KeyStore.ResolveBackupKey` | web/src/lib/key-chain.ts:142-219 | the memoizing loop terminates and equals the recursive walk, memo included |
| `KeyChain.WalkCorrect` | web/src/lib/key-chain.ts:142-219 | with any stray links and any consistent memo it succeeds if and only if every hop is passable, then returns exactly the target's key; otherwise it stops at the newest hop that is not, naming it and whether it had any link; the memo stays consistent |
| `KeyChain.HistoryStaysReadable` | web/src/lib/key-chain.ts:142-219 | composed: after any such run of rotations every older key is recovered |
| `Sessions.KeysArriveFirst` | web/src/lib/messaging.ts:96-207 | over all runs of sends made one after the other, with failures, partial deliveries, rotations and restarts dying anywhere, each message in an inbox follows a share of its session at an index no later, and no index passes the threshold |
| `Sessions.IndicesNeverGoDown` | web/src/lib/messaging.ts:96-207 | over the same runs the shares and messages of one session land at indices that never go down |
| `Sessions.FreedIff` | web/src/lib/megolm-session.ts:117-123 | a send leaves a freed session behind if and only if it found one, or its rotation was due and died before the new session was made |
| `Sessions.FreedSendsNothing` | web/src/lib/megolm-session.ts:117-123 | along any sends without a restart a freed session stays, and nothing is delivered or recorded |
| `Sessions.RestartUnfrees` | web/src/lib/megolm-session.ts:258-283 | a restart ends it, at whatever stage start-up dies |
| `Sessions.FreedIsReached` | web/src/lib/megolm-session.ts:117-123 | a run from the start that reaches it, for any device and recipient |
| `Sessions.SessionManager.SendInnerPayload` | web/src/lib/messaging.ts:96-207 | wherever it dies the effect on sessions, share records and inboxes is the specified one; it succeeds exactly when a POST is accepted, and then inboxes gain one message for the recipient and one for the sender at the session's index, and their keys exactly when the recipient was not on record; a send that lands less lands some of these, each at most once |
| `Sessions.SendLands` | web/src/lib/messaging.ts:96-207 | the same of the specification: which session and index carry the send, what it lands, and which share it records |
| `Sessions.BatchIsWhole` | web/src/lib/messaging.ts:117-199 | a batch is exactly the messages, and the keys where they are due, for recipient and sender, each once |
| `Sessions.PostedFacts` | web/src/lib/api.ts:327-350 | the retries: accepted exactly when some POST made is, with the longest prefix any of them wrote landed |
| `Sessions.SessionManager.GetOutbound` | web/src/lib/megolm-session.ts:64-103 | "not new" changes nothing at all; "new" means no user counts as having the session; one just made is stored, at index 0 and never sent under; dying anywhere, a session that left the store has no share records and no other record is touched |
| `Sessions.GotOutboundFacts` | web/src/lib/megolm-session.ts:64-103 | the same of the specification, for every stage creation may reach |
| `Sessions.RotatedFacts` | web/src/lib/megolm-session.ts:117-138 | after a rotation nobody counts as having the old session or the brand-new one, whichever stage it reached past the clearing |
| `Sessions.SessionManager.Send` | server/src/routes.rs:963-996 | over up to three attempts, each dying anywhere in the server's envelope loop, what was delivered is one prefix of the batch in order |
| `Sessions.SessionManager.Boot` | web/src/lib/megolm-session.ts:258-283 | a whole start-up with a stored session leaves a brand-new one flagged to be shared anew with everyone; one that dies leaves none in memory; share records never outlive their stored session |
| `Sessions.RestartedFacts` | web/src/lib/megolm-session.ts:258-283 | the same of the specification, for every stage start-up may reach |
| `Overlap.KeysFirstThroughout` | web/src/lib/messaging.ts:96-207 | the first half holds for sends that overlap at every await, whichever sessions they are handed |
| `Overlap.InOrderAscends` | web/src/lib/messaging.ts:96-207 | indices of a session never go down along any run in which nothing lands above an envelope of that session still to land |
| `Overlap.DisorderGoesDown` | web/src/lib/messaging.ts:96-207 | and only then: once something has, the run has a continuation that takes the indices down |
| `Overlap.DisorderIsReached` | web/src/lib/messaging.ts:96-207 | a run of two sends from the start that does, for any device and recipient |
| `Overlap.RoomyStaysWithin` | web/src/lib/messaging.ts:106-111 | over every run in which a session is handed out only while its index and the sends already holding it leave room, no ratchet passes the threshold and everything delivered is below it |
| `Overlap.CrowdedPassesThreshold` | web/src/lib/messaging.ts:106-111 | and only then: handed out without room, in any reachable or other consistent state, the session has a continuation that takes it past the threshold |
| `Overlap.OverlapPassesThreshold` | web/src/lib/messaging.ts:106-111 | a run from the start that hands a session out without room and passes the threshold, for any device and recipient |
| `Delivery.InboxOfRuns` | web/src/lib/messaging.ts:96-207 | however the runs of any number of senders interleave (one send after the other, or overlapping and landing in order), each message in an inbox follows a fitting share there and no session's indices go down |
| `Delivery.OpensIffFirstShare` | web/src/lib/megolm-session.ts:140-179 | a message of a session new to the device is skipped, materialized or fails exactly as the first fresh share of the batch decides |
| `Delivery.LateShareFails` | web/src/lib/megolm-session.ts:155-168 | two shares out of order, at any two indices: the message the later one would open fails |
| `Delivery.InboxIsReadable` | web/src/lib/messaging.ts:226-355 | an inbox read in delivery order, cut into batches anywhere, has no skip and no failure, and each message not yet stored is materialized exactly once, in order |
| `Delivery.EntriesCarry` | web/src/lib/messaging.ts:118-199 | the envelopes as the sender builds them are what the reading theorems speak of, for any log of deliveries |
| `Delivery.ArchivedInboxIsIngested` | web/src/lib/messaging.ts:448-488 | found in archives in that order, every archive is proposed for marking |
| `Archiving.CompactedIsUndisturbed` | server/src/routes.rs:613-729 | the compaction of these days is the one `StoreCompact` makes alone |
| `Archiving.InboxStaysInOrder` | server/src/routes.rs:613-729 | however many compactions on however many days, the archives in listing order and then the live envelopes are everything that arrived under ascending ids, once each, in order |
| `Archiving.CompactedInboxIsIngested` | web/src/lib/messaging.ts:448-488 | senders, compaction and receiver composed: a wholly compacted inbox is ingested archive by archive with no failure |
| `FirstSync.FirstSyncFailsNothingIff` | web/src/lib/messaging.ts:567-600 | in the sync's own order, live page first, a device with none of it stored fails nothing if and only if no message of a session new to it is below that session's first live share |
| `FirstSync.LateLiveShareFails` | web/src/lib/messaging.ts:567-600 | the case in point, for any two indices: the archived message fails and its archive is still proposed for marking |
| `Chat.RenderMessages` | web/src/hooks/useChat.ts:48-126 | both passes of the materializer compute `ToMessages` |
| `Chat.RendersOriginalsInOrder` | web/src/hooks/useChat.ts:69-124 | the bubbles of a history are exactly its originals, in their order, with their ids, timestamps and direction |
| `Chat.OriginalsConcat` | web/src/hooks/useChat.ts:54-65 | and the originals are taken from the history in its own order: exactly its texts and media (`OriginalsOfOne`) |
| `Chat.ShowsDecidingEdit` | web/src/hooks/useChat.ts:72-120 | an original without a delete by its sender keeps its file and shows the deciding edit and its time, or its own text: for a text the edit with the greatest id, for a caption the same unless an edit empties it, and the first such shuts out later ones; a media message without caption ignores edits |
| `Chat.ArrivalOrderIrrelevant` | web/src/hooks/useChat.ts:48-126 | the same messages give the same bubbles in any arrival order of the amendments |
| `Chat.OnlyTheSenderAmends` | web/src/hooks/useChat.ts:98-104 | amendments by anyone but the original's sender change nothing |
| `Chat.DeleteIsFinal` | web/src/hooks/useChat.ts:105-111 | once an authorized delete is stored the bubble is a placeholder without text or media that no amendment with a larger id changes |
| `Summary.SummarizeConversation` | web/src/lib/db.ts:445-518 | the loops compute `Summarize` |
| `Summary.SummaryMatchesLastBubble` | web/src/lib/db.ts:430-444 | on any history in (timestamp, id) order the summary describes the chat's last bubble: same timestamp and deleted flag, and for a text the same text after all authorized edits |
| `Summary.SummarizeUnordered` | web/src/lib/db.ts:445-518 | the summary depends on the set of stored messages, not on the order they are read in |
| `MessageDb.Db.SaveMessages` | web/src/lib/db.ts:589-699 | grouping, writes and recomputation together give the specified table and rows |
| `MessageDb.SavedRecords` | web/src/lib/db.ts:657-667 | each id of the batch has its last record in the table, whatever was stored under it, and every other record stands |
| `MessageDb.UpdateFacts` | web/src/lib/db.ts:615-636 | for every batch the grouping pass finds each conversation's winner and the number of its messages that are no amendments |
| `MessageDb.WinnerIsFirstGreatest` | web/src/lib/db.ts:615-636 | the winner is the first in batch order with the greatest timestamp |
| `MessageDb.SaveRefinesRecomputation` | web/src/lib/db.ts:589-699 | from rows that equal a recomputation, saving any batch leaves such rows if and only if the batch is right: no message saved again, no unknown kind, and per conversation an amendment, only older originals, or a winner that is at or after 0 and what the latest original shows |
| `MessageDb.RunFaithfulIff` | web/src/lib/db.ts:589-699 | over any run of saves the rows equal a recomputation after every save if and only if every batch is right where it comes |
| `MessageDb.RunStaysFaithful` | web/src/lib/db.ts:589-699 | so after any run of clean batches every row's text, timestamp, deleted flag and count equal a recomputation from everything saved |
| `MessageDb.TieRightIff` | web/src/lib/db.ts:660-684 | two originals at one instant, saved in turn: the row stays right if and only if the second has the larger id or shows the same |
| `MessageDb.FirstRightIff` | web/src/lib/db.ts:671-675 | a first original gets the right row if and only if it is not before the epoch |
| `MessageDb.EarlyRightIff` | web/src/lib/db.ts:660-699 | an amendment saved before its target: the row is right if and only if it is no authorized delete and no edit of a text to another body |
| `MessageDb.SavedTwiceMiscounts` | web/src/lib/db.ts:615-636 | an original saved twice is counted twice |
| `ReadMarkers.MergeMarkers` | web/src/lib/read-markers.ts:45-51 | the loop computes the pointwise merge whatever order the entries come in |
| `ReadMarkers.MergeIsJoin` | web/src/lib/read-markers.ts:40-51 | on positive watermarks the merge is the least upper bound |
| `ReadMarkers.MergeAssociative` | web/src/lib/read-markers.ts:40-51 | and associative |
| `ReadMarkers.MergeIdempotent` | web/src/lib/read-markers.ts:40-51 | and idempotent |
| `ReadMarkers.CommutesIffLonePositive` | web/src/lib/read-markers.ts:40-51 | it commutes if and only if every watermark only one side holds is positive |
| `ReadMarkers.Device.SyncReadMarkers` | web/src/lib/read-markers.ts:143-172 | one uninterrupted sync, whatever its GET and PUT do: each row rises to the remote watermark, the merge is uploaded exactly when ahead, a failed PUT keeps the rows, and an unreadable blob stops it before anything |
| `ReadMarkers.NeverAhead` | web/src/lib/read-markers.ts:143-172 | over any interleaving of both halves of marks and sync steps of any number of devices no row, nor the blob, passes the join of all marks |
| `ReadMarkers.LowersIff` | web/src/lib/db.ts:804-825 | a step lowers a watermark if and only if it is the write half of a mark the row has meanwhile passed |
| `ReadMarkers.OrderlyIff` | web/src/lib/db.ts:804-825 | with every pending mark above its row, a write overtakes no smaller pending mark of its row if and only if no next step can lower a watermark |
| `ReadMarkers.OrderlyNeverDown` | web/src/lib/db.ts:804-825 | no watermark goes down over any run of such writes |
| `ReadMarkers.SyncAloneIsRun` | web/src/lib/read-markers.ts:143-172 | the undisturbed sync is a run of those steps |
| `ReadMarkers.TwoRoundsConverge` | web/src/lib/read-markers.ts:125-142 | from any reachable state one round of syncs makes the blob the largest watermark any copy held and a second makes every device equal to it; that is the join of all marks if and only if each was still held |
| `ReadMarkers.OrderlyRunsConverge` | web/src/lib/read-markers.ts:125-142 | after an orderly run it always is |
| `ReadMarkers.LateWriteForgets` | web/src/lib/db.ts:804-825 | the interleaving as a run, for any two marks: the larger one is erased and no round of syncs brings it back |
| `Cleanup.Sweeper.RunCleanup` | server/src/cleanup.rs:65-131 | the paged loop terminates and, with any store failures, ends in `Progress`: one entry per handle in listing order, and only what matches cover removed; nothing of an account in use is touched |
| `Cleanup.Sweeper.EvaluateUser` | server/src/cleanup.rs:135-191 | a store failure is an error; otherwise each verdict is given exactly when its reason holds in the store: no name, no message and over 7 days old; last active over the threshold ago; released over 30 days ago; unreadable |
| `Cleanup.ClassifyIsRight` | server/src/cleanup.rs:135-191 | the same of the specification, abandonment going before inactivity |
| `Cleanup.Sweeper.DeleteUser` | server/src/cleanup.rs:206-231 | the drain loops terminate; a completed wipe leaves all four prefixes and the handle empty, and a failed one has removed nothing else |
| `Cleanup.ClassifyUnchanged` | server/src/cleanup.rs:135-191 | whatever has been wiped so far, a handle not yet visited is classified as at the start |
| `Cleanup.RestOfHandles` | server/src/cleanup.rs:73-128 | although keys vanish, the cursor lists exactly the handles not yet visited |
| `Cleanup.SweepCounts` | server/src/cleanup.rs:65-131 | deletes within the batch, matches = deletes + failed deletes, no handle visited twice and all visited when the pass completes |
| `Cleanup.KeptUntouched` | server/src/cleanup.rs:98-100 | no object of a kept account changes, whatever fails and whoever else is wiped |
| `Cleanup.InUseUntouched` | server/src/cleanup.rs:135-191 | no object of an account that is neither inactive nor abandoned is ever removed or changed |
| `Cleanup.CoolingUntouched` | server/src/cleanup.rs:147-158 | nor is a handle released less than 30 days ago |
| `Cleanup.ExpiredGone` | server/src/cleanup.rs:65-131 | a whole pass without failure leaves nothing of an abandoned or inactive account, and no expired handle |
| `Cleanup.CompletedWipeIsEmpty` | server/src/cleanup.rs:204-231 | at the end of the sweep nothing of a deleted match is left: not its handle, and no profile, inbox, key or media object |
| `Cleanup.DryRunChangesNothing` | server/src/cleanup.rs:107-123 | a dry run leaves the store as it was |
| `Cleanup.SweepRefinesClassifyThenWipe` | server/src/cleanup.rs:65-131 | without failures the sweep equals classifying every handle on the starting store until the batch is spent, then removing exactly what the matches cover |
| `Token.DecodeEncode` | server/src/token.rs:39-48 | base64url without padding round-trips for all bytes (section 5 of RFC 4648) |
| `Token.EncodeDecode` | server/src/token.rs:46-48 | strict decoding accepts one text per value |
| `Token.AlphabetIs` | server/src/token.rs:39-48 | the alphabet, character by character |
| `Token.PackValue` | server/src/token.rs:39-48 | the sextets spell the same number as the bytes, once zero bits fill the last one |
| `Token.ParsePrinted` | server/src/token.rs:59-63 | the decimal version round-trips through `u32` parsing |
| `Token.DigitsAreDecimal` | server/src/token.rs:37 | the version is printed in decimal without a leading zero |
| `Token.ParsesIff` | server/src/token.rs:59-63 | exactly which texts parse to a version: its decimal notation after any zeros and at most one plus |
| `Token.Utf8IsText` | server/src/token.rs:49 | the texts `parse` lets through are the encodings of sequences of Unicode scalar values (`TextIsUtf8` is the converse) |
| `Token.WireFormat` | server/src/token.rs:36-41 | the token is user, device and version between dots, then the tag of just that |
| `Token.RoundTripIffDotFree` | server/src/token.rs:36-77 | parsing a generated token returns exactly what went in if and only if neither id has a dot; otherwise it is rejected as malformed |
| `Token.GenerateInjective` | server/src/token.rs:36-41 | different claims get different tokens |
| `Token.AcceptedIsTagged` | server/src/token.rs:45-77 | an accepted token is the encoding of its own claims and of their tag |
| `Token.TaggedIsAccepted` | server/src/token.rs:54-76 | a text of four segments: a bad version is refused before its tag is looked at, then a wrong tag; a right one is accepted whatever decimal spelling of the version it carries |

## Left out

- Cryptography, JSON, CBOR and RFC 3339 bytes: envelopes, payloads, profiles and timestamps are datatypes, and `parseInner` has been applied. Wrong-key decryption fails; right-key decryption returns what was sealed.
- Authorization, request validation, proof of work, the SSE hub, quotas, caches and logging: they guard or surround these protocols and would only add easy members.
- Compaction of the `keys/` prefix, whose entries have no message id: a `put` that overwrites such an object while it is being compacted is not modelled.
- What other tasks do at an await is given by the contracts of the `Await` methods: any steps of the same machine except the waiting task's own.
- CompactionHandler.Server.StoreCompact: under interference its paging loops run for at most `patience` pages, since other writers could add keys forever; a run that stops there has died like any other.
- SyncHandler.Device.SyncAndPublish: the archive listing likewise gives up after `patience` pages; session-key backups and the saving of advanced inbound ratchets are not steps of the machine.
- CompactionHandler.TwoCompactionsEqualOne: for undisturbed compactions whose later message keys sort after the earlier ones, as ULIDs do.
- KeyChain.RotationKeepsChain: attempts that overlap and chain reads that fail, for the reasons above.
- Sessions.KeysArriveFirst: the sends of one device come one after the other; `Overlap` has those that overlap, leaving open which session each is handed.
- Delivery.InboxIsReadable: the inbox is read in the order it was delivered; `Archiving` derives that from ascending ids, which ULIDs of one clock are, and `FirstSync` has the order of a sync that finds live envelopes too.
- Archiving.InboxStaysInOrder: compactions that nothing disturbs; `Compaction` has the others, which keep every id but may leave an archive twice.
- FirstSync.FirstSyncFailsNothingIff: none of the inbox is stored yet, and its archives and live page hold a prefix of it; recovery from the key backup is not modelled.
- MessageDb.Db.SaveMessages: `lastReadTimestamp`, which `saveMessages` drops, is not a row field there, and its transactions run without another writer in between.
- MessageDb.SavedTwiceMiscounts: the count alone; that the code counts a record saved twice is the case `NoneRepeated` excludes.
- ReadMarkers.NeverAhead: all blobs are readable at one key version, or read as empty.
- ReadMarkers.TwoRoundsConverge: every GET and PUT of the two rounds succeeds and nothing else runs meanwhile.
- Cleanup.Sweeper.RunCleanup: no other writer, and handle files and profiles that name each other; `Duration::days` overflow is not modelled. A batch delete that fails may have removed any part of its batch.
- The other unlocked profile writers and the single-page wipe of `delete_profile`.
- React components, other hooks, media and workers.
