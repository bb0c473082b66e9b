# Verified models of the Babylon Tower protocols

A Dafny model of the stateful protocols of Babylon Tower, and proofs about whole runs of them.
`dafny verify dfyconfig.toml` checks everything.

Each object that the program updates in place is a class whose methods are proved equal to functions on
its abstract state; the theorems are about those functions, over every run. Keys, hashes and signatures
are terms, so two are equal exactly when they were made in the same way from the same inputs. Random
values and clock readings are parameters.

## What is modelled

- **The secure session** (`X3DH`, `Ratchet`, `RatchetOnce`, `RatchetLimits`, `RatchetSecrecy`,
  `RatchetSession`, `RatchetCache`, `RatchetCareful`, `RatchetAlignment`, `RatchetStale`, `RatchetAnswers`,
  `RatchetDerailed`, `RatchetExamples`): the key agreement and the Double Ratchet of two parties that exchange messages over a
  network that loses, reorders and repeats. A run is *orderly* if no message of an older chain is delivered
  after one of a newer chain, and *careful* if besides no message is delivered twice and nothing is skipped
  into a full cache. `RatchetOnce`, `RatchetLimits` and `RatchetSecrecy` need neither: they hold of any headers and
  ciphertexts in any order. `RatchetStale` says what the delivery of any message, stale ones included, does to
  an orderly state, and `RatchetDerailed` that a derailed session never recovers.
- **Vector clocks between devices** (`VectorClock`), with the two locked accesses of a broadcast apart.
- **The mailbox** (`MailboxStorage`, `MailboxRuns`, `MailboxLetters`, `MailboxRetrieval`, `MailboxDeposit`,
  `MailboxHandlers`): quotas, eviction, expiry, what becomes of each stored message, retrieve-then-acknowledge over several mailboxes, and handlers whose clock
  readings, rate-limit check, store and count interleave.
- **Groups** (`GroupState`, `GroupService`, `GroupRuns`, `GroupMembers`, `GroupSending`): the signed hash chain
  of states, who is in a group and with which role, the sender keys, and what a node sends.
- **The sliding-window rate limit** of public groups (`RateWindow`), **channels** (`Channel`, `ChannelPosts`),
  **the address book** (`AddrBook`) and **the connection metrics** (`Metrics`).

## Where the code and its promises differ

The model follows the code. Each difference is shown by the lemmas that are named with it.

- `Decrypt` ratchets on any new ratchet key before it looks at the skipped keys; section 3.5 of "The Double
  Ratchet Algorithm" looks first. A message of an older chain that arrives late therefore derails the
  session: `LateMessageDerails` shows it, and `StaleDerailsExactly` says which messages of the sender, of any
  chain, decrypt next. `DerailedForever` says that no later call to either party mends it: no message of the
  sender opens at the receiver any more, unless under a key that is cached by then, and none that the receiver
  seals opens at the sender. `StaleOpensExactly` says when the late message itself decrypts.
- A failed decryption is not rolled back. A repeated message takes the key of the next one, which can then
  not be decrypted although it was never delivered: `RepeatBurns`; `OrderlyCacheIsExact` counts such keys
  among the lost ones.
- specs/protocol-v2.md line 1367 says that a maximum skip of 256 bounds how far a ratchet is driven forward.
  The code bounds the cache only. `NoSkipLimit` moves a chain as far as a header says, `MovesExactly` gives
  the steps of any call, and `WithinLimitExactly` says when they stay within 256.
- Without a receiving chain the code goes on with an empty chain key, so message 0 is accepted under a key
  that does not come from the shared secret: `FreshAcceptForeign`. A call for message 0 that fails moves the
  empty chain all the same, so that message 1 is accepted next: `FailedCallIsEnough`. `AuthenticExactly` says
  exactly when such a message is accepted after any calls, `FirstForeignExactly` when for the first time, and
  `ForeignCacheNeedsNil` that such a key is cached only after a call on an empty chain.
- A mailbox never gets a place back. The count that is checked against the limit counts every store that
  succeeded, and deletes, acknowledgments and cleanups leave it: `PlacesNeverFreed`.
- The byte limit of a mailbox is not kept when a store evicts: one record goes, whatever its size
  (`EvictionOvershoots`, and exactly when in `StoreWithinBytes`). The first store for a target is not
  checked at all (`FirstStoreUnchecked`).
- `evictOldest` removes the record with the lowest key: a newer one in `NewerGoes`, and the oldest one first
  exactly if identifiers arrive in key order (`OldestFirstExactly`).
- Retrieval acknowledges identifiers to all mailboxes. It can lose a message exactly if two mailboxes hold
  different envelopes under one identifier (`LosesExactly`, and an input in `ReusedIdLoses`).
- The deposit limit is exceeded by up to one per further concurrent handler, and a limit of 0 allows as much
  as a limit of 1 (`DepositsBounded`, reached in `BoundReached`). The clock is read outside the lock: a count
  with a reading of the last hour erases the count of this hour, so that even this bound is passed
  (`OldReadingOvershoots`). A single handler keeps the limit (`OneHandlerKeepsLimit`).
- `ValidateStateUpdate` skips the hash comparison when the current state has no previous hash, and also when
  the update carries none; that field is not part of what is signed. As its signer sends it, a later state
  fits its predecessor and the first state (`SignersUpdatesFit`, `HistoryIsChain`); without the field it fits
  every earlier state (`BareUpdatesFit`). `UpdatesFit` is the exact condition for any update.
- A removal of a key that is no member succeeds like any other, with a new epoch and new keys
  (`ChangesAllowedExactly`). Who removes itself keeps its old sender key and can go on sending in the old epoch
  (`PayloadsTold`).
- A post in a public channel counts as one more subscriber (`PostsAreTold`).
- `CheckRateLimit` subtracts unsigned numbers: for a window longer than the clock reading it forgets
  everything (`ExactFromWindowOn`). A maximum of 0 allows the first call (`ZeroAllowsFirst`).
- `removeOldestPeer` uses the empty key for "none yet". It is right exactly if no record with an empty key
  is strictly the oldest (`EvictsLeastRecent`). If there is one it may remove nothing, so that the book
  outgrows its limit (`EmptyLastKeepsAll`).
- A broadcast counts and reads the clock in two locked accesses. If two broadcasts of one device overlap, both
  may carry the same stamp (`OverlappingShareStamp`); the entry of the sender tells what a message precedes
  exactly if the device has counted since its last message (`OwnEntryTellsExactly`).
- The integer average of latencies can stay at 0 while the latencies rise (`DriftReached`).

## Model

| member | source | states |
|---|---|---|
| X3DH.SecretsAgree | pkg/ratchet/x3dh.go:48-231 | The two sides compute the same secret if and only if each used the key pairs that the other one means and both or neither used the one-time prekey; and the same associated data if and only if each means the other's identity key |
| X3DH.SecretKnownExactly | pkg/ratchet/x3dh.go:48-138 | Who has some private keys can compute all exchanges if and only if they have the ephemeral key and the initiator's identity key or the signed prekey, or the responder's identity key, signed prekey and one-time prekey, if one was used; so both identity keys alone are not enough |
| Ratchet.DoubleRatchetState.Initiator | pkg/ratchet/x3dh.go:234-275 | The initiator's session: one root step on the peer's signed prekey, a sending chain, no receiving chain |
| Ratchet.DoubleRatchetState.Responder | pkg/ratchet/x3dh.go:278-304 | The responder's session: the shared secret as root, no chains, no peer key |
| Ratchet.DoubleRatchetState.EncryptMessage | pkg/ratchet/ratchet.go:29-82 | Encryption with the lazy ratchet step, its result, its error and its whole new state |
| Ratchet.DoubleRatchetState.DecryptMessage | pkg/ratchet/ratchet.go:85-147 | Decryption in the code's order (ratchet, cached key, skip, advance) with nothing rolled back on failure |
| Ratchet.DoubleRatchetState.DecryptInChain | pkg/ratchet/ratchet.go:110-147 | The part after the ratchet step: a cached key is used up even if it does not decrypt, then the chain is tried |
| Ratchet.DoubleRatchetState.DecryptWithChain | pkg/ratchet/ratchet.go:120-147 | `skipMessages` and `advanceReceivingChain` in sequence act as one advance; the chain moves on even if decryption fails |
| Ratchet.DoubleRatchetState.DhRatchetSend | pkg/ratchet/ratchet.go:150-184 | A new key pair and sending chain, with the old chain's length kept; nothing without a peer key |
| Ratchet.DoubleRatchetState.DhRatchetReceive | pkg/ratchet/ratchet.go:187-211 | The old chain is closed at the advertised length, the new receiving chain opened, and a new sending chain made |
| Ratchet.DoubleRatchetState.AdvanceReceivingChain | pkg/ratchet/ratchet.go:214-228 | The loop equals skipping the whole range at once, dropping keys when the cache is full |
| Ratchet.DoubleRatchetState.SkipMessages | pkg/ratchet/ratchet.go:231-256 | Fills the cache and leaves the chain where it is; fails without a chain |
| Ratchet.DoubleRatchetState.CacheSkippedKeys | pkg/ratchet/ratchet.go:259-277 | What is left of the old chain is skipped up to the advertised length |
| Ratchet.DoubleRatchetState.GetSkippedKey | pkg/ratchet/ratchet.go:280-288 | Returns the cached key and removes it |
| Ratchet.TwoPassesAreOne | pkg/ratchet/ratchet.go:120-131 | The second pass over the same range changes nothing, whatever the cache held and wherever its cap was reached |
| Ratchet.SkipRangeEntries | pkg/ratchet/ratchet.go:214-228 | Skipping removes no slot, and every entry is an old one or the right key of a slot of the range |
| Ratchet.SkipRangeRoom | pkg/ratchet/ratchet.go:221-224 | With room for the range, every slot of it is cached |
| Ratchet.CacheBounded | pkg/ratchet/x3dh.go:29 | No call, with any header and ciphertext, takes the cache over 256 keys |
| RatchetLimits.CacheAlwaysBounded | pkg/ratchet/x3dh.go:29 | From either constructor on, over any calls, the cache holds at most 256 keys |
| RatchetLimits.MovesExactly | pkg/ratchet/ratchet.go:187-277 | How many keys any call takes from the old chain and from the current one, and the chain keys and counts after it |
| RatchetLimits.WithinLimitExactly | pkg/ratchet/ratchet.go:187-277 | A call takes at most 256 steps if and only if it opens a cached message and closes at most 256, or opens a chain on which the message number and what is left of the old chain are together below 256, or stays on its chain with a message less than 256 ahead of the count, or finds no chain |
| RatchetLimits.NoSkipLimit | pkg/ratchet/ratchet.go:214-228 | For every n one call moves a fresh responder to n + 1, with any ciphertext, and caches min(n, 256) keys |
| RatchetLimits.AuthenticExactly | pkg/ratchet/ratchet.go:110-147 | From either constructor on, after any calls, failed ones included: a header lets the session accept some message not sealed under the shared secret if and only if no call so far, this one included, opens a receiving chain and the header is not ahead of the missing one, or the slot of the header caches a key that does not come from the secret |
| RatchetLimits.FirstForeignExactly | pkg/ratchet/ratchet.go:110-147 | As long as no call was on a chain that does not exist, such a message is accepted if and only if it is for message 0 and the DH step leaves no receiving chain |
| RatchetLimits.ForeignCacheNeedsNil | pkg/ratchet/ratchet.go:214-228 | A key that does not come from the secret is cached only after some call was on a chain that does not exist |
| RatchetLimits.FailedCallIsEnough | pkg/ratchet/ratchet.go:131-147 | From a fresh initiator: one packet that does not decrypt, and then message 1 is accepted under a key that does not come from the secret |
| RatchetLimits.FreshAcceptForeign | pkg/ratchet/ratchet.go:133 | Both fresh sessions accept message 0 sealed under the key of the empty chain |
| RatchetOnce.AtMostOnce | pkg/ratchet/ratchet.go:85-147 | From either constructor on, over any sequence of calls with any headers and ciphertexts, no ciphertext decrypts twice |
| RatchetOnce.SealsOnce | pkg/ratchet/ratchet.go:29-82 | Over any such sequence no two messages are sealed with the same key, so no nonce is reused under a key |
| RatchetAnswers.OpensWhatWasSealed | pkg/ratchet/ratchet.go:85-147 | From any state, with any header and ciphertext: a plaintext that a call returns was sealed as such, with the associated data of the call, and for the message number of the header |
| RatchetAnswers.OpensAsSealed | pkg/ratchet/ratchet.go:299-313 | What one session sealed after any calls opens at another one after any calls only as the same plaintext, under the same associated data and message number |
| RatchetAnswers.EncryptRefusesExactly | pkg/ratchet/ratchet.go:29-48 | Encryption fails if and only if there is neither a sending chain nor a peer key |
| RatchetAnswers.MissingChainExactly | pkg/ratchet/ratchet.go:120-129 | After any calls a decryption reports a missing chain if and only if the ratchet step opens none, there is none, and the message is not number 0 |
| RatchetSecrecy.ForwardSecrecyExactly | pkg/ratchet/ratchet.go:85-147 | From either constructor on, over any calls: from any state after a message was opened, even with every DH output known, the key of the message can be derived if and only if it is not a key from the shared secret |
| RatchetSecrecy.SenderForgets | pkg/ratchet/ratchet.go:29-82 | Over any calls, the key of a sealed message cannot be derived from the state that the call leaves, nor from any later one |
| RatchetSession.OrderlyRunsDecrypt | pkg/ratchet/ratchet.go:29-147 | Over every orderly run of both parties, repeats and full caches included, a delivery yields its sender's plaintext exactly if the receiver still has its key, and fails otherwise |
| RatchetSession.OrderlyRunsCacheRight | pkg/ratchet/ratchet.go:214-288 | In every state of an orderly run each cached entry holds the key of that index of the chain that its ratchet key opened, and is below the count of its chain |
| RatchetCache.OrderlyCacheIsExact | pkg/ratchet/ratchet.go:110-288 | In every state of an orderly run, repeats and full caches included, a receiver caches the keys of exactly those messages that its chains have passed, that were not delivered, and whose keys were not lost: skipped while the cache held 256 keys, or taken by a delivery behind the count |
| RatchetCache.AdvanceExact | pkg/ratchet/ratchet.go:214-228 | Skipping caches exactly the slots that it reaches while the cache has room, and drops the others |
| RatchetCache.LedgerStep | pkg/ratchet/ratchet.go:29-147 | Every event keeps the account of both parties: what was passed was delivered, is cached or is lost |
| RatchetSession.StepInv | pkg/ratchet/ratchet.go:29-211 | Every send and delivery keeps both parties on the shared chain of roots, with every cached key the right one |
| RatchetSession.DeliverCore | pkg/ratchet/ratchet.go:85-147 | One delivery moves the receiver to the message's chain and keeps the invariant of both parties |
| RatchetSession.SendInv | pkg/ratchet/ratchet.go:29-82 | One send, with or without the lazy ratchet step, keeps the invariant |
| RatchetCareful.CarefulRunsDecrypt | pkg/ratchet/ratchet.go:29-147 | Over every careful run from the key agreement on, every delivered message decrypts to exactly the plaintext that its sender encrypted |
| RatchetCareful.CacheIsExact | pkg/ratchet/ratchet.go:214-288 | In every state of a careful run a receiver caches the keys of exactly the messages that were overtaken and not delivered, each under its own key |
| RatchetAlignment.CarefulRunsAlign | pkg/ratchet/ratchet.go:150-211 | In every state of a careful run the roots are at most one step apart, a receiving chain leads to the peer's sending chain key, and a chain is closed exactly at its advertised length |
| RatchetAlignment.AgreedSessionsWork | pkg/ratchet/x3dh.go:48-304 | Two sessions made from the secrets that both sides of the key agreement compute, with or without a one-time prekey: every careful run decrypts, aligns both ends and keeps exact caches |
| RatchetStale.StaleDerailsExactly | pkg/ratchet/ratchet.go:87-147 | In every state of an orderly run, after a delivery of any message k of a sender (repeated, next or stale), any message m of that sender, of the receiver's chain, the next one or an older one, yields its plaintext if and only if `OpensAfter`, and fails otherwise: it is cached and neither used nor overwritten by k, or its chain is one that k leaves in step and has not passed it |
| RatchetStale.StaleOpensExactly | pkg/ratchet/ratchet.go:87-117 | In every state of an orderly run a message of an older chain itself yields its plaintext if and only if its key is cached |
| RatchetStale.OldRootOpens | pkg/ratchet/ratchet.go:87-117 | A delivery that ratchets opens a message of an older root exactly from the cache |
| RatchetAnswers.DeliveredExactly | pkg/ratchet/ratchet.go:85-147 | In every state of an orderly run, any message of the log, stale ones included, under any associated data yields its sender's plaintext if and only if that is the session's associated data and the receiver still has the key, and fails otherwise |
| RatchetStale.StaleChainOpens | pkg/ratchet/ratchet.go:87-147 | After a stale delivery another message of the same old chain opens if and only if it is cached and the delivery did not write a wrong key over it |
| RatchetDerailed.DerailedForever | pkg/ratchet/ratchet.go:87-111 | After a stale delivery in any state of an orderly run, over any further calls to both parties with new key pairs for the peer: no message that the peer seals or had sealed opens at the receiver, unless under a key that closing the old chain left in the cache, and no message that the receiver seals opens at the peer |
| RatchetExamples.LateMessageDerails | pkg/ratchet/ratchet.go:87-111 | A run of both parties after which a message decrypts, and does not after a late message of an older chain, which decrypts from the cache |
| RatchetExamples.ExampleBobReached | pkg/ratchet/ratchet.go:29-147 | That state is reached from fresh sessions by eight sends and deliveries |
| RatchetExamples.RepeatBurns | pkg/ratchet/ratchet.go:120-147 | A run after which the second message decrypts, and does not after the first one is repeated, although it was never delivered |
| VectorClock.SyncManager.UpdateVectorClock | pkg/multidevice/sync.go:260-266 | The device's own entry grows by one |
| VectorClock.SyncManager.GetVectorClock | pkg/multidevice/sync.go:269-281 | The copy equals the clock |
| VectorClock.SyncManager.MergeVectorClock | pkg/multidevice/sync.go:284-297 | The loop computes the entrywise maximum |
| VectorClock.SyncManager.BroadcastStamp | pkg/multidevice/sync.go:159-175 | A broadcast that nothing interrupts carries the incremented clock |
| VectorClock.SyncManager.HandleStamp | pkg/multidevice/sync.go:192-243 | Own messages and those that do not decrypt are ignored, others merged |
| VectorClock.ClockCounts | pkg/multidevice/sync.go:260-297 | No device's entry for another one exceeds that one's broadcasts, and its own entry is exactly them |
| VectorClock.ReceiptTold | pkg/multidevice/sync.go:192-243 | A receipt raises every entry to that of the message and no further, if the payload decrypts and the first four bytes of the sender's identifier are not the receiver's; otherwise it changes nothing |
| VectorClock.StampsCharacteriseCausality | pkg/multidevice/sync.go:159-175 | With loss, reordering and repetition, and with anything between the two locked accesses of a broadcast: a message that comes alone happened before or is another one if and only if its stamp is entrywise at most the other's |
| VectorClock.OwnEntryTellsExactly | pkg/multidevice/sync.go:159-175 | Comparing the sender's own entry tells of all messages whether a message precedes them if and only if the device has counted since its last message |
| VectorClock.UndisturbedIsAlone | pkg/multidevice/sync.go:159-175 | That is so if the device sent no other message between the two accesses |
| VectorClock.OverlappingShareStamp | pkg/multidevice/sync.go:159-175 | Two overlapping broadcasts of one device that carry equal stamps, so that the later message seems to precede the earlier one |
| MailboxStorage.Storage.Put | pkg/mailbox/storage.go:68-110 | The record and the metadata after a store, or the quota error and no change |
| MailboxStorage.Storage.CheckQuota | pkg/mailbox/storage.go:234-254 | Refuses exactly at the count limit; evicts one record when the largest message might not fit |
| MailboxStorage.Storage.EvictOldest | pkg/mailbox/storage.go:257-289 | Deletes the record with the lowest key and leaves the metadata |
| MailboxStorage.Storage.UpdateMetadata | pkg/mailbox/storage.go:330-363 | Count and bytes only ever grow |
| MailboxStorage.Storage.ListMessages | pkg/mailbox/storage.go:153-200 | The records that are not expired, in key order |
| MailboxStorage.Storage.Delete | pkg/mailbox/storage.go:203-231 | Exactly the named records go; the metadata stays |
| MailboxStorage.Storage.Cleanup | pkg/mailbox/storage.go:423-472 | Exactly the expired records of all targets go |
| MailboxRuns.QuotaHolds | pkg/mailbox/storage.go:203-289 | Over every run of stores, deletes, evictions and cleanups, per target: stored count <= counted <= limit and stored bytes <= counted bytes; of validated deposits, stored bytes <= limit * largest message |
| MailboxRuns.PlacesNeverFreed | pkg/mailbox/storage.go:330-363 | Over every run the count that is checked against the limit is the number of stores for the target that ever succeeded, so no more than the limit ever succeed, whatever is deleted |
| MailboxRuns.FirstStoreUnchecked | pkg/mailbox/storage.go:240-242 | The first store for a target succeeds whatever the limit, and the quota holds after it if and only if the limit is at least 1 |
| MailboxRuns.BytesHold | pkg/mailbox/storage.go:244-251 | Runs of validated deposits that never evict stay within the byte limit |
| MailboxRuns.StoreWithinBytes | pkg/mailbox/storage.go:244-251 | A store, overwriting or not, stays within the byte limit if and only if it does not evict or the evicted and overwritten records make room |
| MailboxRuns.EvictingPut | pkg/mailbox/storage.go:257-289 | The exact bytes after an evicting store, overwriting or not |
| MailboxRuns.OldestFirstExactly | pkg/mailbox/storage.go:257-289 | Evicting again and again removes the records in the order of arrival if and only if identifiers arrive in key order |
| MailboxRuns.NewerGoes | pkg/mailbox/storage.go:257-289 | After two deposits the record that was stored later is the one that is evicted |
| MailboxRuns.RecordsFiled | pkg/mailbox/storage.go:68-110 | After any run records are filed under their own identifiers |
| MailboxRuns.EvictionOvershoots | pkg/mailbox/storage.go:244-251 | Three validated deposits that pass the byte limit |
| MailboxRuns.CleanupUnobservable | pkg/mailbox/storage.go:423-472 | With a clock that does not fall and no eviction, removing every cleanup from a run changes no listing and no store's result |
| MailboxLetters.ListingIs | pkg/mailbox/storage.go:153-200 | A listing has exactly the records whose time is not over, each once and in key order |
| MailboxLetters.ListedExactly | pkg/mailbox/storage.go:68-231 | Over any run a message is listed under an identifier, sender and envelope if and only if a store of the run that succeeded gave it them, nothing deleted, overwrote or evicted it since, and the time of the store plus the given lifetime is not over |
| MailboxLetters.StoredIsListed | pkg/mailbox/storage.go:68-200 | After a store, as long as nothing displaces the record: until its time is over the listing has it as it was stored, and then no record with its identifier; cleanups in between do not matter |
| MailboxLetters.CleanupReclaims | pkg/mailbox/storage.go:423-472 | A cleanup takes exactly the records whose time is over, and leaves the others as they are |
| MailboxLetters.MetaTells | pkg/mailbox/storage.go:330-363 | With a clock that does not go back, the metadata is the number and the bytes of all stores that succeeded, and the seconds of the first and the last one |
| MailboxLetters.StoresDecide | pkg/mailbox/storage.go:234-254 | After any run, whether a store is refused and whether it evicts is decided by the number and the bytes of the earlier stores for the target that succeeded |
| MailboxRetrieval.NothingLost | pkg/mailbox/manager.go:266-306 | Under any interleaving of deposits and drops with a round over several mailboxes, with unique identifiers: a message is still there at the end, was dropped by its mailbox, or was fetched, and then it is returned exactly if it parses |
| MailboxRetrieval.NothingVanishes | pkg/mailbox/manager.go:266-306 | Whatever an acknowledgment removes has an identifier that some mailbox returned, so messages deposited after a listing survive otherwise |
| MailboxLetters.StoredComesBack | pkg/mailbox/manager.go:280-306 | A stored message whose time is not over and which nothing displaced comes back: if its mailbox answers a round, in any interleaving with other deposits and drops, the round returns its envelope, if that parses |
| MailboxRetrieval.ReusedIdLoses | pkg/mailbox/manager.go:298-303 | Without unique identifiers a message is deleted that nobody fetched |
| MailboxRetrieval.LosesExactly | pkg/mailbox/manager.go:266-306 | From given boxes some run without deposits loses a message that parses if and only if two boxes file different envelopes under one identifier and one of them parses |
| MailboxRetrieval.RetrieveFromRemoteMailboxes | pkg/mailbox/manager.go:280-306 | The two loops return the parseable envelopes of the mailboxes that answer, and delete the union of their identifiers wherever the acknowledgment arrives |
| MailboxRetrieval.RoundIsRun | pkg/mailbox/manager.go:280-306 | What that method returns and leaves is what the run of its fetches and acknowledgments yields |
| MailboxRetrieval.ReadAnswer | pkg/mailbox/manager.go:286-294 | An answer gives all of its identifiers, and its envelopes that parse |
| MailboxDeposit.DepositHandler.IsRateLimited | pkg/mailbox/deposit.go:210-229 | Limited exactly if this hour's entry has reached the limit |
| MailboxDeposit.DepositHandler.IncrementRateLimit | pkg/mailbox/deposit.go:232-256 | This hour's count grows by one, from zero in a new hour |
| MailboxDeposit.DepositHandler.HandleDepositRequest | pkg/mailbox/deposit.go:110-149 | The checks in order, the store, the count and the answer of a deposit that nobody interferes with; it succeeds if and only if the envelope is not too large, the request is genuine, the sender can be read, this hour's entry, if there is one, is below the limit and so is the target's count, if there is one; the time that it answers is not before the one that the record keeps |
| MailboxHandlers.AloneIsHandled | pkg/mailbox/deposit.go:110-142 | The steps of a handler that nobody interferes with are the deposit of the method |
| MailboxHandlers.StoresExactly | pkg/mailbox/deposit.go:110-142 | The same condition for the steps of a handler, and the sender's entry counts one more after them |
| MailboxHandlers.DepositsBounded | pkg/mailbox/deposit.go:123-142 | Over every schedule of n handlers whose clock readings and locked accesses interleave, an hour in which no older reading is used for a pair stores at most limit + n - 1 of its deposits |
| MailboxHandlers.OneHourBounded | pkg/mailbox/deposit.go:210-256 | In particular when all steps fall into one hour |
| MailboxHandlers.OneHandlerKeepsLimit | pkg/mailbox/deposit.go:123-142 | A single handler keeps the limit in every hour of every schedule |
| MailboxHandlers.OldReadingOvershoots | pkg/mailbox/deposit.go:232-256 | With two handlers or more, a count with a reading of the last hour lets an hour store the limit once more than the bound |
| MailboxHandlers.BoundReached | pkg/mailbox/deposit.go:123-142 | Some schedule within one hour reaches the bound exactly |
| MailboxHandlers.DepositsKeepQuota | pkg/mailbox/deposit.go:171 | However handlers interleave, a target's records stay within the count limit and the limit times the largest message |
| MailboxHandlers.RecordsGenuine | pkg/mailbox/deposit.go:110-205 | However handlers interleave, every record of the node comes from a genuine request of the schedule for its target, with that request's identifier, sender and envelope, and is kept for the policy's time |
| GroupState.ValidateStateUpdate | pkg/groups/state.go:309-368 | Accepts exactly the updates with a fitting hash (where both are there), a later epoch, an updater who is admin or owner, and that updater's signature |
| GroupState.UpdatesFit | pkg/groups/state.go:309-368 | In a history, an update with a later state is valid for a state if and only if it comes from an admin there who signed the new state, that state is earlier, and the update carries no previous hash, or that state's hash, or that state is the first one |
| GroupState.SignersUpdatesFit | pkg/groups/state.go:309-368 | As its signer sends it, a state is valid exactly for its predecessor and for the first state |
| GroupState.BareUpdatesFit | pkg/groups/state.go:317-321 | Without its previous hash a state is valid for every earlier state |
| GroupState.LastStateFixesHistory | pkg/groups/state.go:243-250 | Two histories with the same last state are the same, with the same signer |
| GroupService.Service.CreateGroup | pkg/groups/service.go:81-123 | The signed first state at epoch 1 and the creator's sender key, or the length error and no change |
| GroupService.Service.IsMemberWithRole | pkg/groups/service.go:492-504 | The role of the first entry of the key decides |
| GroupService.Service.AddMember | pkg/groups/service.go:126-187 | The next signed state, or the error and no change; sender keys stay |
| GroupService.Service.RemoveMember | pkg/groups/service.go:190-250 | The next signed state without the member, and rotated sender keys |
| GroupService.Service.RotateAllSenderKeys | pkg/groups/service.go:465-490 | Every member in order gets a new key of the epoch with its old chain index |
| GroupService.Service.EncryptGroupMessage | pkg/groups/service.go:253-305 | The payload carries the index before the step; the chain key and index advance |
| GroupRuns.HistoryIsChain | pkg/groups/service.go:81-250 | After any run of creations, additions and removals: epochs are consecutive from 1, each previous hash is the predecessor's, members are distinct, all is signed, and a state validates exactly against its predecessor and the first state |
| GroupMembers.AddAppends | pkg/groups/service.go:126-187 | An addition succeeds if and only if the group exists, the caller's first entry is an admin's or owner's, and no entry has the key; all entries stay as they are, in order, and one with the given key, X25519 key, name and role follows |
| GroupMembers.RemovalKeeps | pkg/groups/service.go:190-250 | A removal succeeds if and only if the group exists and the caller's first entry is an admin's or owner's; all entries of other keys stay as they are, in order |
| GroupMembers.MembersAreTold | pkg/groups/service.go:81-250 | Over any run a group has an entry if and only if the last creation or addition of its key that succeeded gave that X25519 key, name, time and role, and no later removal named the key |
| GroupMembers.ChangesAllowedExactly | pkg/groups/service.go:126-250 | After any run an addition or a removal succeeds if and only if the run made the caller an admin or owner, and, for an addition, did not leave the key a member |
| GroupMembers.GroupIsTold | pkg/groups/service.go:81-250 | Over any run a group exists if and only if it was created, with the name, description, kind, creator and time of its creation; its epoch is the number of its changes |
| GroupMembers.CreationAllowedExactly | pkg/groups/state.go:134-140 | A creation succeeds if and only if the name has at most 128 bytes and the description at most 512 |
| GroupRuns.RemovalRotates | pkg/groups/service.go:190-250 | Right after a removal exactly the remaining members hold keys of the new epoch, from draws later than all earlier keys; indices and other keys stay |
| GroupRuns.IndicesNeverFall | pkg/groups/service.go:465-490 | Over any run no sender's chain index or epoch falls, and no key is of a later epoch than its group |
| GroupRuns.PayloadsIncrease | pkg/groups/service.go:253-305 | Over any sequential run a node's chain indices in a group strictly increase while epochs do not fall, so no message key repeats |
| GroupSending.PayloadsTold | pkg/groups/service.go:253-305 | Over any sequential run the n-th payload of a node in a group has chain index n, the text of its n-th encryption there, and as its epoch the number of the change that last renewed the node's key |
| GroupSending.ChainMovesOn | pkg/groups/state.go:395-416 | Over any sequential run two payloads of one epoch are as many chain steps apart as encryptions, and payloads of a later epoch come from a later draw, so no chain key is used twice |
| RateWindow.RateLimiter.CheckRateLimit | pkg/groups/public.go:309-340 | The loop keeps the timestamps after the wrapped cutoff; the answer and the new list |
| RateWindow.RefinesHistory | pkg/groups/public.go:309-340 | For a maximum of at least 1 and a clock past the window length, the pruned list answers like the full history: allowed exactly if fewer than the maximum lie in the window |
| RateWindow.WindowsLimited | pkg/groups/public.go:309-340 | Over any such run no window of that length holds more allowed calls than the maximum |
| RateWindow.ExactFromWindowOn | pkg/groups/public.go:323 | All runs from a time on are answered as intended if and only if the window is not longer than that time |
| RateWindow.ZeroAllowsFirst | pkg/groups/public.go:317-321 | With a maximum of 0 exactly the first call is allowed |
| Channel.ChannelService.NewChannel | pkg/groups/channel.go:104-157 | A channel without posts, or the error for another type and no change |
| Channel.ChannelService.NewPost | pkg/groups/channel.go:160-225 | The post linked to the latest one, and the channel's new latest post; or the error and no change |
| Channel.ChannelService.GetPosts | pkg/groups/channel.go:228-262 | The requested slice of a timestamp-descending permutation of the channel's posts |
| Channel.SortByTimestamp | pkg/groups/channel.go:243-250 | The exchange sort in place: descending, and a permutation |
| Channel.PostsFormList | pkg/groups/channel.go:160-225 | After any run with new identifiers, walking back from the latest post visits every post of the channel exactly once in reverse order of creation and ends |
| Channel.PagesFollowList | pkg/groups/channel.go:228-262 | With a clock that does not fall, the sorted order has at each position the time of the post that the walk visits there, and is the walk if times differ |
| ChannelPosts.PageIs | pkg/groups/channel.go:252-261 | A page has the posts after the offset, as many as the limit allows |
| ChannelPosts.PagesCover | pkg/groups/channel.go:252-261 | Page after page gives every post once and in order, for every positive limit, as one page without a limit does |
| ChannelPosts.PostAllowedExactly | pkg/groups/channel.go:160-225 | A post is refused if and only if there is no such channel or it is a private one of another owner; its author is the caller, it links to the latest post, and no other post changes |
| ChannelPosts.ChannelAllowedExactly | pkg/groups/channel.go:104-110 | A channel is made if and only if its type is one of a channel |
| ChannelPosts.PostsAreTold | pkg/groups/channel.go:104-225 | Over any run a channel exists if and only if it was made, with the name, description, type and owner of its making; its posts are those made since, each with its content, time, channel and author |
| AddrBook.AddressBook.AddContact | pkg/peerstore/addrbook.go:114-154 | Adds or updates, and evicts exactly when a new record passes the limit |
| AddrBook.AddressBook.UpdateAddresses | pkg/peerstore/addrbook.go:189-215 | Touches a known peer, refuses an unknown one |
| AddrBook.AddressBook.RemoveOldestPeer | pkg/peerstore/addrbook.go:286-300 | The scan in some iteration order, and what it removes |
| AddrBook.EvictsLeastRecent | pkg/peerstore/addrbook.go:286-300 | In every iteration order the scan ends with a least recently seen peer if and only if no empty key is strictly the oldest |
| AddrBook.EmptyLastKeepsAll | pkg/peerstore/addrbook.go:286-300 | If a record with the empty key is strictly the oldest and comes last in the iteration, nothing is removed |
| AddrBook.KeepsMostRecent | pkg/peerstore/addrbook.go:114-215 | Over any run with a clock that does not fall, in which no eviction meets a record with the empty key that is strictly the oldest: each record says when, as which peer and with which addresses its key was last added or updated in the run; the book stays within 1000 peers and loses one only when full; and every peer evicted and not added again was last added or updated no later than all that are there |
| Metrics.MetricsCollector.RecordConnection | pkg/ipfsnode/metrics.go:73-92 | The counters, the average and the history after a connection |
| Metrics.MetricsCollector.RecordDisconnection | pkg/ipfsnode/metrics.go:95-112 | The counters and the history after a disconnection |
| Metrics.MetricsCollector.AddConnectionEvent | pkg/ipfsnode/metrics.go:196-203 | The history is cut to its last hundred events |
| Metrics.MetricsCollector.UpdateAverageLatency | pkg/ipfsnode/metrics.go:206-216 | The truncated running average |
| Metrics.DriftBounded | pkg/ipfsnode/metrics.go:206-216 | After n latencies of sum S, abs(S - n * average) <= n (n - 1) / 2; 0 <= S - n * average for non-negative ones and the opposite for negative ones; the average lies between the least and the greatest |
| Metrics.DriftReached | pkg/ipfsnode/metrics.go:206-216 | The latencies 0, 1, ..., n - 1 reach that bound, with an average of 0 |
| Metrics.CountersTold | pkg/ipfsnode/metrics.go:73-112 | After any run the totals are the numbers of connections and disconnections, and the current connections are the largest excess of connections over disconnections in any last part of the run |
| Metrics.CurrentIsDifference | pkg/ipfsnode/metrics.go:99-103 | The current connections are the difference of the totals if and only if no first part of the run has more disconnections than connections |
| Metrics.HistoryIsRecent | pkg/ipfsnode/metrics.go:196-203 | After any run the history is the last min(100, total) events |

## Left out

- The internals of X25519, HKDF, HMAC, the AEADs, Ed25519 and SHA-256, and randomness: terms, and parameters that are fresh where a run says so. An all-zero X25519 result and failing random sources are not modelled.
- 32-bit and 64-bit counters do not wrap around; the one subtraction that does, in `CheckRateLimit`, is modelled.
- The clock is a parameter of each operation; storage, database, disk and network failures do not happen, except that fetches and acknowledgments between nodes may fail.
- A session uses one associated data string for all of its messages, as the key agreement gives it; `RatchetOnce` allows any.
- Ratchet.DoubleRatchetState.Responder: the prekey is a value. The code keeps the caller's array (pkg/ratchet/x3dh.go:290) and overwrites it with zeros at the session's next ratchet step (pkg/ratchet/ratchet.go:174), so a second session made from the same array would have a zero prekey.
- `GetSessionState`: it drops the skipped keys' indices and the private ratchet key, so there is no round trip to state.
- VectorClock.SyncManager.BroadcastStamp: the method takes both accesses in sequence; what comes between them is in the runs (`Bump`, `Emit`).
- VectorClock.StampsCharacteriseCausality: a message that does not come alone is outside; of those, `OwnEntryTellsExactly` says what fails.
- VectorClock.SyncManager.HandleStamp: decryption and parsing of the payload is a parameter; pkg/multidevice/sync.go:209 passes the arguments of `crypto.Decrypt` in another order than pkg/crypto/crypto.go:90 declares them, so no real payload may get there. Device identifiers are as long as the first four bytes make them differ.
- Mailbox keys are natural numbers in the order of the database; `GetMessage`, `GetStats` and the stored rate limit of `Storage` are easy reads and writes.
- MailboxStorage.Storage.Cleanup: pkg/mailbox/storage.go:439 keeps a key of the iterator past its next step without a copy, as `evictOldest` makes one; whether the database reuses the bytes is not part of this model, which deletes exactly the expired keys.
- MailboxRetrieval.RetrieveFromRemoteMailboxes: several mailboxes are distinct storage objects; discovery, request signatures and the order of answers are left out, and its contract is for a round without interference. The interleavings are in `NothingLost`.
- MailboxRetrieval.LosesExactly: runs without deposits. A deposit that reuses the identifier of a fetched record is deleted with it, whatever the boxes held before.
- MailboxDeposit.DepositHandler.HandleDepositRequest: message formats and signatures are one flag of the request.
- GroupService.Service.RotateAllSenderKeys: sender keys are values in the map, not shared objects; the signing key pair of a sender key is left out.
- The limit of 1000 members is checked by `GroupState.AddMember`, which the service does not call; neither is modelled.
- GroupRuns.PayloadsIncrease: calls do not overlap. `EncryptGroupMessage` advances the chain under a read lock only (pkg/groups/service.go:254, pkg/groups/state.go:411-415), so two overlapping calls could use one message key and nonce.
- `DecryptGroupMessage`: its index derivation says of itself that it does not work. `ImportSenderKey` and `ResolveSplitBrain` are left out.
- GroupMembers.MembersAreTold: a change reads the clock once; the code reads it for each field, so a new member's time and the state's may differ by a second (pkg/groups/service.go:163, pkg/groups/service.go:168).
- GroupState.ValidateStateUpdate: serialization is injective and does not fail.
- Channel.ChannelService.NewPost: posts and channels are values, and their signatures are left out. The subscriber count is kept as the code does it but nothing is stated of it; subscriptions and deletion are left out.
- Channel.ChannelService.GetPosts: a negative offset makes the code panic and is excluded.
- RateWindow.RateLimiter.CheckRateLimit: a group without its map makes the code panic and is excluded.
- AddrBook.KeepsMostRecent: evictions while a record with the empty key is strictly the oldest are outside, because there the book can pass its limit (`EmptyLastKeepsAll`) or lose another peer.
- AddrBook.AddressBook.AddContact: loading and saving the file, and the connected flag.
- Metrics: uptime, discovery, bootstrap and message counters are plain increments.
- The command line, configuration, DHT and PubSub announcements, reputation exchange, device fan-out, voice and video, and the messaging pipeline.
