# Pagnet client SDK: protocols, stores and codecs in Dafny

The client SDK and the contracts it shares with its server contain several small
protocols whose guarantees hold over whole runs: a confirmed two-party text channel,
a crash-safe store for pair enrollment and the key transfer on top of it, a
coalescing work queue, durable outgoing message spools, invocation dispatch with
retained results, capability registration against reconnects, and a handful of codecs
with exact inverses. This project models each of them and proves what it promises for
every input, every interleaving and every run.

Code that updates state is a class whose methods are proved against functions on
values; a run is a sequence of steps of those functions, interleaved with whatever the
environment may do (an arbitrary network, other threads, power losses, damaged files),
and the theorems quantify over all of them.

## Files

| file | what it models |
|---|---|
| `Bytes.dfy`, `Sums.dfy`, `Durable.dfy` | byte strings and length-prefixed fields; sums over maps; files that are visible before they are durable |
| `Console.dfy` | `e2ee/owner_text_console.go`: the session object, and two of them with any network between |
| `Coordinator.dfy`, `CoordinatorRuns.dfy`, `CoordinatorProgress.dfy` | `sdk/sharing_coordinator.go` and its two domain files: the queue, every interleaving with wakes, failures and reconnects, and what an undisturbed worker gets done |
| `PairStore.dfy`, `PairStoreRuns.dfy` | `sdk/pending_pair.go`, `sdk/pending_pair_index.go`: reserve first, write later |
| `KeyAgreement.dfy` | `sdk/pair_crypto.go`, `sdk/sharing_pair.go`: issuer, recipient and relay |
| `PairSpool.dfy`, `PairSpoolRuns.dfy` | `sdk/pair_message_spool.go` |
| `OwnerSpool.dfy`, `OwnerSpoolRuns.dfy`, `OwnerSpoolAccepts.dfy`, `OwnerSpoolPower.dfy`, `OwnerSpoolReturns.dfy` | `sdk/owner_text_project_message_spool.go`: the calls, every run, when a call succeeds, every run with power losses, and what a return promises across them |
| `Lru.dfy`, `Dispatch.dfy`, `DispatchClient.dfy`, `DispatchStale.dfy` | `sdk/lru.go`, `sdk/dispatch.go` |
| `Registration.dfy` | `sdk/dispatch.go` registerCapability against `sdk/client.go` connectOnce |
| `Utf8.dfy`, `ManifestJson.dfy`, `NativeContent.dfy`, `NativeContentOpens.dfy`, `NativeContentLaws.dfy` | `nativecontent/content.go` and the JSON of its manifest |
| `Base32.dfy`, `EndpointRefs.dfy`, `Framing.dfy`, `Frames.dfy` | `fabric/ref.go`, `fabric/framing.go` |
| `JsonValidator.dfy` | `fabric/wire.go` |
| `EpochCache.dfy` | `sdk/keyring.go` epoch cache |

## What is taken as given

- AES-GCM is ideal: a ciphertext opens only under the key, nonce and associated data it
  was sealed with, and the network cannot invent one. HPKE Auth mode (section 5.1.3 of
  RFC 9180) is ideal: an unwrap under the issuer's key succeeds only on a wrap the
  issuer sent.
- SHA-256 is an arbitrary function. Where a result needs it to be collision free, the
  conclusion names the two values that collide.
- MACs are ideal: a file either authenticates as something the program wrote or is
  garbage. Deleting or rolling back a whole store is outside the model, as it is
  outside the stores' own guarantees.
- Clocks, randomness, server answers and failures are parameters of the steps.
- A power loss leaves of each file the version last seen or the one last synced. The
  system may also sync a directory by itself at any moment, so that any version seen
  since can be the one that is left.
- Envelopes are canonical JSON objects, so none that validates is a proper prefix of
  another. The manifest's JSON text is written out as the encoder writes it; the decoder
  is any that reads it back. `NativeContentLaws.LawsAreMet` shows that these laws hold
  together.
- Time formats, case folding and the JSON of other structs are parameters.

## Where the code does less than its words

Each of these keeps the code as it is, shows a concrete failure, and proves exactly
when the property holds.

- `sdk/dispatch.go:128-134` says the order of Capability and Handle is irrelevant. It is
  exactly when the described version is at most 1: Handle always advertises version 1
  (`Registration.OrderIsIrrelevantIffVersionOne`, `Registration.OrderCanMatter`).
- `nativecontent/content.go:34-64` never checks that the MIME type is UTF-8, and JSON
  replaces bytes that are not. Open returns the MIME type Build was given exactly when
  it is valid UTF-8 (`NativeContent.RoundTripIffUtf8Mime`, `NativeContent.StrayMimeChanges`).
- `sdk/dispatch.go:416-427` finds the invocation by ID, not by handle. Through a handle
  kept from before its ID was forgotten and dispatched again, a result can be retained
  for an invocation not in flight, be sent under a foreign dispatch ID, or let a handler
  start for an ID just retired. The first two cannot happen, however the run goes on, if
  and only if the submission does not find an admission still unwritten
  (`DispatchStale.BoundSurvivesIff`, `DispatchStale.OutcomeSurvivesIff`); the third if and
  only if it finds nothing, or an invocation started or refused
  (`DispatchStale.WindowSurvivesIff`). At any limits, including the client's own, some run
  breaks each (`DispatchStale.UndisciplinedHandlesBreakTheBound`,
  `DispatchStale.UndisciplinedHandlesMisattribute`,
  `DispatchStale.UndisciplinedHandlesBreakTheWindow`). A caller that never submits through
  a handle whose result was already retired keeps all of them
  (`Dispatch.DisciplineIsEnough`, `Dispatch.DisciplinedSecondStart`).
- `sdk/pair_message_spool.go:163` cannot represent a wire whose digest is all zero:
  storing one makes the index unreadable, and nothing else does
  (`PairSpool.CommitIsReadableIff`, `PairSpoolRuns.TwoCallsLockANewSpool`).
- `sdk/pending_pair.go:214-226` invalidates the epoch cache only when its write fully
  succeeds, and `sdk/keyring.go:391-440` installs a listing that it read without the lock.
  A step leaves the cache behind its directory if and only if an activation fails late
  with a new key of a cached network, or a listing ends after the directory it read has
  changed (`EpochCache.StepKeepsAgreementIff`, `EpochCache.LateFailureHidesAnEpoch`,
  `EpochCache.OverlappingListingHidesAnEpoch`): if and only if some key placed between its
  two steps is not the one it read (`EpochCache.ListingGoesStaleIff`). Over every run a network's answer is the
  directory's if and only if no epoch it fell behind on has remained since
  (`EpochCache.CacheIsBehindExactly`).
- `sdk/owner_text_project_message_spool.go:199-313` counts only what is visible. When calls
  write before an earlier change is synced, a power loss can bring back what a later call
  has already replaced, and the spool exceeds its limits and refuses every reservation
  (`OwnerSpoolPower.UntidyWritesOverflow`). After any run a power loss is harmless if and
  only if the limits hold with the heavier version of every file counted
  (`OwnerSpoolPower.PowerLossIsHarmlessIff`), and always when each call writes into a synced
  directory (`OwnerSpoolPower.SurvivesPowerLoss`).
- `sdk/owner_text_project_message_spool.go:291-296` accepts a repeated store of the same
  wire without a sync. After a store whose sync failed, the repeat is accepted and a power
  loss takes the wire back (`OwnerSpoolReturns.RepeatedStoreIsLost`). After any run, what a
  successful call leaves is kept by every power loss if and only if the call is not such a
  repeat, or the history of its file says so: since the file was last written there was a
  sync, a power loss, a later call that passed its own sync, or a scan that removed
  something, or the file was lost since and written again exactly as it was synced
  (`OwnerSpoolReturns.ReturnedIsKeptIff`).

## Model

| member | source | states |
|---|---|---|
| `Console.OwnerTextConsoleSession.SealConfirmation` | e2ee/owner_text_console.go:455-472 | the object's step is the value step: only in role order and at sequence 0; a refusal for order changes nothing, and only a clock outside the validity period closes the session |
| `Console.OwnerTextConsoleSession.OpenConfirmation` | e2ee/owner_text_console.go:473-495 | accepts only the peer's confirmation at sequence 0, else closes |
| `Console.OwnerTextConsoleSession.Seal` | e2ee/owner_text_console.go:496-513 | seals at the next sequence only after the handshake, within size and sequence limits |
| `Console.OwnerTextConsoleSession.Open` | e2ee/owner_text_console.go:514-531 | delivers only the frame with exactly the next sequence, else closes and wipes the keys |
| `Console.AADInjective` | e2ee/owner_text_console.go:342-354 | associated data determine direction and sequence |
| `Console.OpensOnlyPeerFrame` | e2ee/owner_text_console.go:369-382 | anything the network can offer opens exactly when it is the peer's frame at that sequence |
| `Console.DeliveredIsPrefixOfSent` | e2ee/owner_text_console.go:449-531 | over every joint run with any network, what one side delivered is a prefix in order of what the other sealed |
| `Console.HandshakeOrder` | e2ee/owner_text_console.go:455-495 | client confirmed implies host sent implies host received implies client sent; no application frame before |
| `Console.NonceNeverReused` | e2ee/owner_text_console.go:496-513 | no directional key and sequence seals twice, and sequences never pass 2^20 |
| `Console.OpenAcceptsExactlyTheNextFrame` | e2ee/owner_text_console.go:514-531 | in every reachable state Open succeeds if and only if the session is open, within its lifetime, confirmed both ways and given the peer's next frame, and returns what the peer sealed into it |
| `Console.ConfirmationAcceptsExactlyThePeers` | e2ee/owner_text_console.go:473-495 | in every reachable state OpenConfirmation succeeds if and only if it is given the peer's own confirmation, in time, once, and at the client after its own |
| `Console.SealAcceptsExactly` | e2ee/owner_text_console.go:496-513 | in every reachable state Seal emits if and only if the handshake is done, in time, within size and below the counter limit, at the sequence after the last |
| `Console.ConfirmationBindsTheBootstrap` | e2ee/owner_text_console.go:442-495 | even under the same keys a confirmation is accepted only in the opposite role and for the same descriptor and transcript |
| `Console.StepCloses` | e2ee/owner_text_console.go:425-531 | a call leaves its end closed if and only if it was closed, is the owner's Close, comes outside the lifetime, or is a receive that delivers and confirms nothing |
| `Console.ClosesExactlyWhen` | e2ee/owner_text_console.go:425-531 | so it is in every reachable state; a closed end holds two keys of 32 zero bytes, an open one the session keys, and the other end is untouched |
| `Console.FailedReceiveIsFinal` | e2ee/owner_text_console.go:384-386 | over every run, once a receive has failed, that end never again delivers, seals or confirms anything, whatever is called afterwards |
| `Console.ClosedIsFinal` | e2ee/owner_text_console.go:425-441 | an end that is closed with both keys zero stays exactly as it is through every continuation: it delivers, seals and confirms nothing more |
| `Console.FaithfulNetworkDeliversAll` | e2ee/owner_text_console.go:455-531 | for every list of messages within the limits some run delivers all of them |
| `Coordinator.KeysSeparateDomains` | sdk/sharing_coordinator.go:207-222 | job keys of valid IDs in the three domains never coincide |
| `Coordinator.SharingCoordinator.Enqueue` | sdk/sharing_coordinator.go:505-516 | a key already pending keeps its place, a new one joins at the back |
| `Coordinator.SharingCoordinator.QueueWake` | sdk/sharing_coordinator.go:207-254 | accepts a wake for a live enabled domain, coalesces, overflows into a full rescan, unblocks its key |
| `Coordinator.SharingCoordinator.NextJob` | sdk/sharing_coordinator.go:268-294 | a job exactly when the session is current and a rescan is due or a queued key is pending; a due rescan first, leaving the queue alone; else the first live key with its entry's grant and kind; always of the current session and connection |
| `Coordinator.NextJobHandsOut` | sdk/sharing_coordinator.go:268-294 | the same of every state of the coordinator, and nothing else changes |
| `Coordinator.SharingCoordinator.StartSession` | sdk/sharing_coordinator.go:130-146 | a new session starts empty with a full rescan |
| `Coordinator.SharingCoordinator.Kick` | sdk/sharing_coordinator.go:120-129 | starts a missing or outdated session when connected, asks for a full rescan and unblocks everything |
| `Coordinator.SharingCoordinator.Disconnected` | sdk/sharing_coordinator.go:155-168 | only the current connection's end resets |
| `Coordinator.SharingCoordinator.BlockFailed` | sdk/owner_text_project_coordinator.go:151-187 | blocks a failed key exactly when no wake arrived since its snapshot |
| `Coordinator.SharingCoordinator.RequeueDrain` | sdk/owner_text_project_coordinator.go:203-233 | a drain continuation moves its own key to the tail |
| `Coordinator.SharingCoordinator.RequeueRetry` | sdk/sharing_coordinator.go:345-356 | a retry puts its job back unless it is blocked or pending already, or asks for a full rescan |
| `CoordinatorRuns.NoAcceptedWakeIsLost` | sdk/sharing_coordinator.go:120-294 | in every interleaving an accepted wake is pending, in the hands of a job, served by a later job, covered by a full rescan, or blocked by a failure that already knew of it |
| `CoordinatorRuns.QueueStaysWellFormed` | sdk/sharing_coordinator.go:224-254 | no duplicates, every pending key queued, at most 257 keys, blocked and pending apart, newest generation with state dominating |
| `CoordinatorRuns.WaitingIsBounded` | sdk/sharing_coordinator.go:280-292 | while a key waits only keys that were ahead of it start, each at most once |
| `CoordinatorRuns.StepNeverOvertakes` | sdk/sharing_coordinator.go:505-516 | no step puts work ahead of a waiting key, except a drain of that key itself |
| `CoordinatorRuns.EnqueueJoinsAtBack` | sdk/sharing_coordinator.go:505-516 | what waits keeps its order and a new key waits last |
| `CoordinatorRuns.TakeServesTheFront` | sdk/sharing_coordinator.go:268-294 | the job taken is the first waiting key |
| `CoordinatorRuns.DomainRecovered` | sdk/sharing_coordinator.go:280-292 | the domain read back from a key is the one it was queued for |
| `CoordinatorProgress.WakeTakesEffect` | sdk/sharing_coordinator.go:207-254 | a wake is ignored exactly when no session is current or its domain is off, overflows exactly when its key is new and 256 are pending, and else is pending, unblocked, newest, with the larger generation and state dominating, at the back if new |
| `CoordinatorProgress.DrainTakesEffect` | sdk/owner_text_project_coordinator.go:203-233 | a drain continuation acts exactly when its job's session and connection are current and its key is not blocked: the key goes to the very back and keeps a state request, or the queue overflows |
| `CoordinatorProgress.RetryTakesEffect` | sdk/sharing_coordinator.go:345-356 | a retried job goes back with its own grant and kind exactly when its session is current and its key neither blocked nor asked for anew |
| `CoordinatorProgress.FailureBlocksUnlessAskedAgain` | sdk/owner_text_project_coordinator.go:151-187 | in every reachable state a failed handler blocks its key and drops its entry if and only if no session change, kick or wake of that key came after its callback began |
| `CoordinatorProgress.IdleWorkerEmptiesTheQueue` | sdk/sharing_coordinator.go:268-356 | from every reachable current state with an idle worker, one round per due job clears the rescan, empties the queue, starts every waiting key once in waiting order, and leaves no accepted wake unserved unless blocked |
| `CoordinatorProgress.KickRecoversEverything` | sdk/sharing_coordinator.go:120-129 | after any run, a kick on a live link and undisturbed rounds serve every wake ever accepted, blocked ones included |
| `CoordinatorProgress.LinkChangesAskForRescan` | sdk/sharing_coordinator.go:147-206 | in every run a malformed hint or a lost connection leaves no session and a rescan due; a connection gone live starts empty, with a rescan due and a session no job in hand belongs to |
| `PairStore.Keyring.Store` | sdk/pending_pair.go:67-119 | writes index, directory and record in order; what it returns has the network, epoch, descriptor and fingerprints asked for, a package exactly when one was given, and otherwise the same key; cut off anywhere it returns nothing |
| `PairStore.StoreReturnsTheBinding` | sdk/pending_pair.go:81-90 | the same of every disk: a stored record that differs in any of these is a conflict and is never returned |
| `PairStore.Keyring.Load` | sdk/pending_pair.go:122-174 | returns only a reserved, readable, matching record, and makes it durable first |
| `PairStore.Keyring.Init` | sdk/pending_pair_index.go:41-71 | creates a missing store, refuses an unreadable one |
| `PairStoreRuns.AllReturnsAgree` | sdk/pending_pair.go:67-174 | over every run with crashes, power losses and damage all successful calls for one grant and generation return one record |
| `PairStoreRuns.ReservedWithoutRecordFailsForever` | sdk/pending_pair.go:63-100 | a durably reserved binding with no record on disk, because none was written or it was lost, fails on every later call, whatever happens in between |
| `PairStoreRuns.UnwrittenIsRecordless` | sdk/pending_pair.go:92-118 | a reserved binding no record was written for has none on disk |
| `PairStoreRuns.LostRecordIsReachable` | sdk/pending_pair.go:92-119 | for every valid record a first store cut off before its last sync and a power loss lose a record that was written, in an otherwise sound store |
| `PairStoreRuns.ReturnedRecordIsDurable` | sdk/pending_pair.go:67-174 | a returned record survives crashes and power losses; a later valid store gets it if and only if network, epoch, descriptor, issuer and recipient are equal, both or neither carry a publication, and without one the keys are equal; any other fails |
| `PairStoreRuns.FirstStoreReturnsItsRecord` | sdk/pending_pair.go:92-119 | an uninterrupted first store returns exactly its record |
| `PairStoreRuns.FirstStoreSucceedsIff` | sdk/pending_pair.go:36-41 | a first use stores exactly the records with a grant, a generation, two path-safe names and a 32 byte key; of any other no disk is ever written |
| `PairStoreRuns.OnlyFreshWrites` | sdk/pending_pair.go:79-118 | no call writes a record for a binding already reserved |
| `KeyAgreement.PrepareIssuer` | sdk/pair_crypto.go:120-147 | refuses an untrusted descriptor or foreign key, otherwise returns the stored publication |
| `KeyAgreement.PrepareRecipient` | sdk/pair_crypto.go:149-167 | stores the unwrapped key for the trusted descriptor or changes nothing; succeeds only for the trusted descriptor, the recipient's own key and a genuine wrap |
| `KeyAgreement.AcceptsExactlyTheTrustedPackage` | sdk/pair_crypto.go:64-91 | a package is accepted if and only if its descriptor is the trusted one and in order, names this recipient, and the pinned issuer wrapped a 32 byte key for it under that descriptor |
| `KeyAgreement.PreparedPackageIsForItsDescriptor` | sdk/pair_crypto.go:120-147 | in every run, retries included, the package PrepareIssuer returns has the descriptor and epoch asked for and wraps a key for its recipient under its hash |
| `KeyAgreement.AcceptedKeyIsTheOfferedOne` | sdk/pair_crypto.go:149-167 | in every run, when PrepareRecipient succeeds the stored record, new or old, holds the offered descriptor and the unwrapped key |
| `KeyAgreement.PublishesExactlyTheTrusted` | sdk/sharing_pair.go:186-241 | a step sends a package if and only if the issuer's call gave back a record of the trusted, valid descriptor, and sends that record's own wrap |
| `KeyAgreement.SendsOnlyStoredPackages` | sdk/sharing_pair.go:186-241 | in every run each wrap ever sent is the one in a record of the issuer's store, under that record's own key and descriptor |
| `KeyAgreement.OnePackagePerDescriptor` | sdk/sharing_pair.go:186-241 | however often the issuer retries or is given a fresh key, it never sends two wraps under one descriptor hash, or two stored descriptors collide |
| `KeyAgreement.StoredKeysAgree` | sdk/sharing_pair.go:186-261 | whatever the relay does, a key stored under the genuine issuer pin is the one in the issuer's record, or two descriptors collide |
| `KeyAgreement.ReturnedKeysAgree` | sdk/sharing_pair.go:242-261 | the same for the records both sides' calls return: same key and descriptor, or a named collision |
| `KeyAgreement.FaithfulRelayDelivers` | sdk/sharing_pair.go:186-261 | with a faithful relay both fresh sides end with the issuer's key |
| `Registration.OrderIsIrrelevantIffVersionOne` | sdk/dispatch.go:128-176 | describing and handling commute if and only if the described version is at most 1 |
| `Registration.OrderChangesOnlyTheVersion` | sdk/dispatch.go:135-175 | nothing but the version depends on the order |
| `Registration.OrderCanMatter` | sdk/dispatch.go:119-180 | a concrete capability whose version 3 is lost |
| `Registration.Client.UpdateRegistry` | sdk/dispatch.go:119-178 | an acceptable change is the registering step, revision bumped and a close owed; each field is the new value unless empty, then the registered one; version the new one or 1; handler the new one or the registered one; no other ID changes; any other call changes nothing |
| `Registration.PutUpdates` | sdk/dispatch.go:119-176 | the same, field by field, of every registry |
| `Registration.RegistryRemembersTheLatest` | sdk/dispatch.go:119-178 | over every run the registry knows exactly the IDs registered; each field holds the last non-empty value given, the version that of the last registration or 1, the handler the last one given |
| `Registration.Client.RegisterPayloadVersioned` | sdk/client.go:915-938 | the snapshot step: exactly the descriptors of one revision, and that revision |
| `Registration.Client.UseDialed` | sdk/client.go:842-850 | a dialed socket becomes current before anything is sent on it |
| `Registration.Client.AbandonUnsent` | sdk/client.go:853-861 | a failed register frame closes the socket and forgets it if it is still current |
| `Registration.Client.AbandonUnauthenticated` | sdk/client.go:864-880 | a socket that dies or is refused before authentication is closed and stays current |
| `Registration.Client.PromoteSocket` | sdk/client.go:881-884 | the first of the three promotion steps: the socket becomes current |
| `Registration.Client.RaiseFlag` | sdk/client.go:885-885 | the second: the connected flag, only after the socket |
| `Registration.Client.CompareRevision` | sdk/client.go:886-900 | the third: ready exactly when the revision is still the advertised one, else the socket is closed |
| `Registration.Client.LoadFlag` | sdk/client.go:959-962 | the first step of a registering thread after its change: go on only if connected |
| `Registration.Client.LoadCurrent` | sdk/client.go:963-968 | its second step: take the current socket, if any |
| `Registration.Client.CloseLoaded` | sdk/client.go:969-973 | its last step: close that socket |
| `Registration.Client.LowerFlag` | sdk/client.go:902-903 | the end of a session lowers the flag before anything else |
| `Registration.Client.ForgetSocket` | sdk/client.go:905-909 | and forgets the socket only if it is still the current one |
| `Registration.NoChangeIsMissed` | sdk/client.go:842-911 | in every interleaving a ready socket advertises the current capabilities, or is closed, or a thread that changed them is about to close it |
| `Registration.ReadyExactlyWhenNothingChanged` | sdk/client.go:886-900 | over every run a connection becomes ready, and is not closed, if and only if no capability was registered between its snapshot and its comparison |
| `Registration.NoSocketIsLeftOpen` | sdk/client.go:842-911 | in every run every socket but the one in use is closed; one that failed to register or whose session ended is no longer current, one refused before authentication stays so |
| `Registration.QuietMeansCurrent` | sdk/client.go:915-974 | with no registration in progress every open ready socket is current |
| `Registration.ReturnedRegisterClosedTheSocket` | sdk/client.go:959-974 | when a change has returned, every socket ready before it is closed |
| `Registration.PendingUntilClosed` | sdk/client.go:959-974 | a thread that owes a close either still owes it or the socket is closed |
| `Lru.WindowIsExact` | sdk/lru.go:44-61 | after any additions the set holds exactly the last distinct keys up to its capacity |
| `Lru.LruSet.Add` | sdk/lru.go:44-61 | reports new keys, refreshes known ones, drops the least recent |
| `Lru.LruSet.Contains` | sdk/lru.go:64-69 | membership, without refreshing |
| `Lru.LruMap.Set` | sdk/dispatch.go:48-76 | bytes stay the sum of sizes and the fewest oldest entries go; the loop never pops an empty order |
| `Lru.LruMap.TouchLocked` | sdk/dispatch.go:78-86 | moves one key to the end and keeps the others' order |
| `Lru.LruMap.Get` | sdk/dispatch.go:89-97 | the cached value, made most recent |
| `Lru.EvictDropsTheFewest` | sdk/dispatch.go:69-75 | eviction stops at the first point where both bounds hold |
| `Lru.NewestStays` | sdk/dispatch.go:48-76 | a value within the byte bound is still cached when set returns |
| `DispatchClient.Client.Arrive` | sdk/dispatch.go:436-483 | replay, ignore, defer or admit, exactly as the dispatch step; a cached result is returned for replay if and only if the dispatch ID is its own |
| `DispatchClient.Client.KeepResult` | sdk/dispatch.go:697-725 | keeps and sends a payload with exactly the success flag, envelope, associated data and code given, the dispatch ID of the entry in flight, and the reconcile flag exactly when the connection has changed; due again in five seconds |
| `DispatchClient.FlagAll` | sdk/dispatch.go:763-773 | a retry changes nothing but the flag of the chosen results |
| `DispatchClient.DueInOrder` | sdk/dispatch.go:746-759 | collects exactly the due results, longest due first, then by ID |
| `DispatchClient.Client.RetryPending` | sdk/dispatch.go:742-778 | the retry step for exactly the first 32 due results, each put off anew, all others untouched |
| `DispatchClient.DelaysGrow` | sdk/dispatch.go:766-770 | delays lie between five and eighty seconds and never shrink |
| `DispatchClient.Client.TakeResult` | sdk/dispatch.go:779-795 | a receipt takes a result if and only if it names its dispatch ID and says recorded or rejected; otherwise nothing changes |
| `DispatchClient.Client.MarkCompleted` | sdk/dispatch.go:728-736 | out of flight, into the cache and the duplicate window |
| `Dispatch.RetainedResultsAreBounded` | sdk/dispatch.go:22-28 | while no submission finds an unwritten admission: retained results belong to invocations in flight, at most 64, each below the frame limit with either flag, together below 32 MiB |
| `Dispatch.OneOutcome` | sdk/dispatch.go:636-797 | under the same condition all results sent for one dispatched invocation differ only in the reconcile flag and carry its dispatch ID |
| `Dispatch.SentIsWhatWasSubmitted` | sdk/dispatch.go:697-797 | under the same condition whatever is sent for an invocation has exactly the success flag, envelope, associated data and code of the submission that claimed it in that run |
| `Dispatch.GivenUpCanBeSubmittedAgain` | sdk/dispatch.go:636-648 | a submission that fails gives its claim back, and any other thread that found the invocation can claim it and go on |
| `Dispatch.ArrivalsDecideExactly` | sdk/dispatch.go:436-483 | under the same condition an arriving dispatch replays exactly a cached result of its own dispatch ID, and is admitted exactly when nothing is cached, its ID is not among those last retired nor in flight, and a slot is free |
| `Dispatch.RetryFlagsReconnects` | sdk/dispatch.go:763-773 | a retry sets the flag exactly when the connection changed since admission |
| `Dispatch.StartsOutsideTheWindow` | sdk/dispatch.go:441-483 | while submissions are fresh a handler starts only for the entry in flight and never for an ID among the last 4096 retired |
| `Dispatch.SecondStartNeedsEviction` | sdk/dispatch.go:441-559 | while submissions are fresh, between two starts of one ID it was retired and pushed out of the window |
| `Dispatch.DisciplineIsEnough` | sdk/dispatch.go:416-427 | if nothing is submitted through a handle whose result was retired, the bound, the single outcome and the window hold at the client's limits |
| `Dispatch.DisciplinedSecondStart` | sdk/dispatch.go:416-559 | and so does the eviction between two starts |
| `DispatchStale.NotSettledIsLeftOver` | sdk/dispatch.go:416-427 | a submission that finds an unwritten admission goes through a handle of an earlier incarnation |
| `DispatchStale.NotFreshIsLeftOver` | sdk/dispatch.go:416-427 | so does one that finds an invocation neither started nor refused |
| `DispatchStale.BoundSurvivesIff` | sdk/dispatch.go:483-509 | after a submission the bound survives every continuation if and only if it did not find an unwritten admission |
| `DispatchStale.OutcomeSurvivesIff` | sdk/dispatch.go:636-725 | so do the dispatch IDs on results, under exactly the same condition |
| `DispatchStale.WindowSurvivesIff` | sdk/dispatch.go:441-559 | the duplicate window survives every continuation if and only if the submission found nothing, or an invocation started or refused |
| `DispatchStale.StaleSubmissionStrandsAResult` | sdk/dispatch.go:499-509 | from any such state a failed admission write strands a result |
| `DispatchStale.StaleSubmissionIsMisattributed` | sdk/dispatch.go:636-725 | from any such state a failed admission write and a new dispatch send a result under a foreign dispatch ID |
| `DispatchStale.StaleSubmissionStartsInsideTheWindow` | sdk/dispatch.go:636-736 | from any such state a handler can start for an ID just retired |
| `DispatchStale.LeftOverIsReachable` | sdk/client.go:191-195 | at any limits enough other invocations make both memories forget an ID whose handle is still around |
| `DispatchStale.UndisciplinedHandlesBreakTheBound` | sdk/dispatch.go:416-427 | at any limits a run retains a result for an ID not in flight |
| `DispatchStale.UndisciplinedHandlesMisattribute` | sdk/dispatch.go:416-427 | at any limits a run sends a result under a foreign dispatch ID |
| `DispatchStale.UndisciplinedHandlesBreakTheWindow` | sdk/dispatch.go:416-427 | at any limits a run reaches a handler that can start for an ID just retired |
| `PairSpool.CheckIndex` | sdk/pair_message_spool.go:161-173 | the reader's loop accepts exactly the indexes of right shape and quota |
| `PairSpool.Usage` | sdk/pair_message_spool.go:206-211 | the counting loops compute the open count and bytes |
| `PairSpool.MessageSpool.Perform` | sdk/pair_message_spool.go:182-338 | every call, cut off anywhere, leaves and answers what its plan says |
| `PairSpool.CommitIsReadableIff` | sdk/pair_message_spool.go:163-173 | every index written moves one entry forward and passes the reader, if and only if the stored digest is not all zero |
| `PairSpool.MovesNeedAuthority` | sdk/pair_message_spool.go:398-467 | only a store prepares, only a matching receipt admits, only final word rejects a prepared message |
| `PairSpool.SucceedsExactly` | sdk/pair_message_spool.go:182-467 | with a readable index a call succeeds if and only if the stage of its message allows it: quota for new work, the very bytes or digest for prepared work, only repetitions afterwards |
| `PairSpool.RefusedBeforeAnyWrite` | sdk/pair_message_spool.go:226-237 | a call with a malformed binding, a wire out of bounds, with a wrong digest or not canonical, or another receipt state writes nothing and fails |
| `PairSpool.RetiredWireIsGone` | sdk/pair_message_spool.go:398-467 | a retired or rejected message leaves no wire, visible or durable |
| `PairSpool.DecisionIsTruthful` | sdk/pair_message_spool.go:182-338 | every reply is true of the index it leaves, for the caller's own binding |
| `PairSpoolRuns.EncryptedAtMostOnce` | sdk/pair_message_spool.go:180-222 | over every run with crashes permission to encrypt is given at most once per ID |
| `PairSpoolRuns.EntriesOnlyAdvance` | sdk/pair_message_spool.go:226-467 | binding, digest and size never change once set and dispositions only move forward |
| `PairSpoolRuns.WireIsImmutable` | sdk/pair_message_spool.go:299-338 | a store and later loads give the same bytes, or a hash collision |
| `PairSpoolRuns.StoredWireSurvives` | sdk/pair_message_spool.go:279-338 | with no all-zero digest stored, a stored wire survives crashes and power losses until retired or rejected |
| `PairSpoolRuns.IndexStaysReadable` | sdk/pair_message_spool.go:140-178 | with no all-zero digest stored, no run of the writers makes an authentic index unreadable |
| `PairSpoolRuns.ZeroDigestLocksTheSpool` | sdk/pair_message_spool.go:280-294 | in any readable spool storing a wire with the all-zero digest succeeds and locks the spool |
| `PairSpoolRuns.TwoCallsLockANewSpool` | sdk/pair_message_spool.go:180-294 | a reserve and a store of such a wire in a new spool both succeed, and every later call fails |
| `OwnerSpool.ChargeDependsOnlyOnReservation` | sdk/owner_text_project_message_spool.go:175-184 | the metadata charge is fixed at reservation |
| `OwnerSpool.TombstoneFitsItsCharge` | sdk/owner_text_project_message_spool.go:175-184 | no tombstone is longer than its charge |
| `OwnerSpool.WriteIsShaped` | sdk/owner_text_project_message_spool.go:146-166 | every record written passes the reader for its state and follows an allowed move |
| `OwnerSpool.AdmissionBindsTheWire` | sdk/owner_text_project_message_spool.go:356-386 | an admission needs a receipt whose digest is the hash of the stored wire |
| `OwnerSpool.ReserveCountsRight` | sdk/owner_text_project_message_spool.go:255-263 | the incremental usage of reserve equals a recount |
| `OwnerSpool.ReplaceCountsRight` | sdk/owner_text_project_message_spool.go:301-311 | the incremental usage of store equals a recount, and metadata never changes |
| `OwnerSpoolRuns.TombstoneAlwaysFits` | sdk/owner_text_project_message_spool.go:363-418 | retire and abandon never push the store over any limit |
| `OwnerSpoolRuns.SpoolStaysUsable` | sdk/owner_text_project_message_spool.go:185-240 | over every run all limits hold and every authentic file is readable |
| `OwnerSpoolRuns.RecordsOnlyMoveForward` | sdk/owner_text_project_message_spool.go:270-418 | until expiry a record is never forgotten, its wire is immutable and its ID never reserved again |
| `OwnerSpoolRuns.PendingIsNeverForgotten` | sdk/owner_text_project_message_spool.go:215-222 | a scan never drops a live reservation or prepared wire |
| `OwnerSpoolRuns.ScanAll` | sdk/owner_text_project_message_spool.go:199-240 | the scan drops exactly the expired tombstones and counts the rest right |
| `OwnerSpoolRuns.MessageSpool.Reserve` | sdk/owner_text_project_message_spool.go:241-269 | writes a new reservation exactly when it fits and the ID is free |
| `OwnerSpoolRuns.MessageSpool.Store` | sdk/owner_text_project_message_spool.go:270-313 | prepares a reserved message within budget, accepts an identical repeat |
| `OwnerSpoolRuns.MessageSpool.Retire` | sdk/owner_text_project_message_spool.go:363-386 | admits on a matching receipt |
| `OwnerSpoolRuns.MessageSpool.Abandon` | sdk/owner_text_project_message_spool.go:392-418 | abandons anything not admitted |
| `OwnerSpoolAccepts.ReserveAcceptsExactly` | sdk/owner_text_project_message_spool.go:241-269 | over every run a message is reserved if and only if its header is in order and the principal's own, no file is damaged, its ID is free after the sweep, and all three limits hold with it; the sweep drops exactly the expired tombstones |
| `OwnerSpoolAccepts.StoreAcceptsExactly` | sdk/owner_text_project_message_spool.go:270-313 | over every run a wire is stored if and only if it is for the stored reservation with local evidence, and the message is reserved and the limits hold with the wire, or is prepared with the same wire |
| `OwnerSpoolAccepts.RetireAcceptsExactly` | sdk/owner_text_project_message_spool.go:356-386 | over every run a message is retired if and only if the receipt is for it, in range, and has the digest of its wire, or the digest kept when it was abandoned, or repeats its admission; it is then admitted under that number |
| `OwnerSpoolAccepts.AbandonAcceptsExactly` | sdk/owner_text_project_message_spool.go:392-418 | over every run a message is abandoned if and only if it is stored and not admitted; digest and evidence stay |
| `OwnerSpoolPower.SurvivesPowerLoss` | sdk/pending_pair.go:246-267 | if each call writes into a synced directory, every power loss at any point of any run leaves all limits kept and every authentic file readable |
| `OwnerSpoolPower.SafeIffWorstFits` | sdk/owner_text_project_message_spool.go:185-240 | for any directory of well-shaped records every power loss leaves the limits kept if and only if they hold with the heavier version of every file |
| `OwnerSpoolPower.PowerLossIsHarmlessIff` | sdk/owner_text_project_message_spool.go:185-240 | after every run, whatever was cut off, every power loss leaves a usable spool under exactly that condition |
| `OwnerSpoolPower.UntidyWritesOverflow` | sdk/owner_text_project_message_spool.go:241-269 | at the source's limits, for any 257 messages of one project of up to 8 KiB each, a run with two unsynced writes and a power loss leaves all of them pending and refuses every reservation |
| `OwnerSpoolPower.DurableRecordsOnlyMoveForward` | sdk/owner_text_project_message_spool.go:270-418 | once durable and until expiry, no run with cut-off calls, failed syncs and power losses forgets a record or moves it back |
| `OwnerSpoolReturns.ReturnedIsKeptIff` | sdk/owner_text_project_message_spool.go:241-418 | after any run, what a successful call leaves is kept by every power loss if and only if it is no repeated store, or its file was synced since it was last written, or lost since and written again as it was synced |
| `OwnerSpoolReturns.RepeatedStoreIsLost` | sdk/owner_text_project_message_spool.go:270-313 | for any message the spool takes, a run from the empty spool in which the repeat is accepted and a power loss leaves only the reservation |
| `Utf8.SanitizeIsIdentityIffValid` | nativecontent/content.go:64-67 | JSON text encoding changes nothing exactly on valid UTF-8 |
| `ManifestJson.StringReads` | nativecontent/content.go:64-67 | reading back a string as Go's encoder writes it, escapes included, gives the string as valid UTF-8 |
| `ManifestJson.ReadOfText` | transport/native_content.go:35-50 | reading the text of any manifest gives the manifest with its text fields as valid UTF-8 |
| `ManifestJson.TextShort` | transport/native_content.go:10-50 | a manifest of at most 320 chunks with short names fits 64 KiB |
| `NativeContent.ChunksCover` | nativecontent/content.go:41-63 | chunks are contiguous, disjoint, cover the plaintext, hold 1 byte to 64 KiB, at most 320 |
| `NativeContent.Build` | nativecontent/content.go:34-90 | the chunking loop makes exactly the specified transfer |
| `NativeContent.BuiltSize` | nativecontent/content.go:73-84 | ciphertext is plaintext plus a tag per fragment plus the sealed manifest, below 30 MiB |
| `NativeContent.BuildSucceedsIff` | nativecontent/content.go:34-90 | Build succeeds if and only if plaintext and MIME type are within bounds, text is UTF-8, the identity is a UUID with a known purpose, and its scopes are accepted; no chunk, manifest or ciphertext limit ever stops it |
| `NativeContent.CommitmentStream` | nativecontent/content.go:182-232 | the stream gives the list version's answer and asks for count plus one items when it succeeds |
| `NativeContent.Open` | nativecontent/content.go:236-281 | returns content only after commitment, manifest and every fragment are checked |
| `NativeContentOpens.OpensExactly` | nativecontent/content.go:236-281 | content comes out if and only if the commitment is the reference's, the sealed manifest names this content with its size, hash and MIME type, and the content is what the fragments decrypt to, each at its place with its length and hash |
| `NativeContentOpens.CommitsExactly` | nativecontent/content.go:182-232 | a commitment exists if and only if the reference is within all limits, its fragments are exactly those declared, in order, of its content, epoch and scope, and their lengths add up to the declared size |
| `NativeContent.OpenOfBuild` | nativecontent/content.go:34-281 | opening a built transfer gives the plaintext and the sanitized MIME type, or nothing if that is too long |
| `NativeContent.RoundTripIffUtf8Mime` | nativecontent/content.go:34-281 | the round trip is exact if and only if the MIME type is valid UTF-8 |
| `NativeContent.StrayMimeChanges` | nativecontent/content.go:49-64 | a one-byte MIME type that comes back different |
| `NativeContent.SecondTripIsExact` | nativecontent/content.go:34-281 | what was opened can be built again and then comes back exactly |
| `NativeContent.OtherFragmentsDoNotOpen` | nativecontent/content.go:166-239 | for a built reference any list of any fragments that opens is the built one, or two commitments collide |
| `NativeContentLaws.LawsAreMet` | nativecontent/content.go:34-90 | a configuration meets all laws taken as given, and Build succeeds under it |
| `Bytes.FieldPrefixFree` | fabric/framing.go:95-102 | length-prefixed fields below 4 GiB are prefix free |
| `Bytes.FieldsApart` | nativecontent/content.go:152-157 | without any bound, fields are told apart when neither value is a proper prefix of the other |
| `Base32.CheckCanonical` | fabric/ref.go:65-77 | the scan and re-encoding test decide canonicity |
| `Base32.CanonicalIffImage` | fabric/ref.go:65-77 | canonical texts are exactly the encodings of 32 bytes |
| `Base32.CanonicalIffLastLetter` | fabric/ref.go:65-77 | equivalently 52 letters ending in a or q |
| `Base32.DecodeOfEncode` | fabric/ref.go:22-45 | decoding inverts encoding |
| `EndpointRefs.ParseOfText` | fabric/ref.go:85-131 | parsing inverts the text of every well-formed reference |
| `EndpointRefs.TextOfParse` | fabric/ref.go:85-131 | whatever parses is well formed and is exactly its own text |
| `EndpointRefs.ReferencesAreWellFormed` | fabric/ref.go:48-134 | whatever calls a program makes, a reference it holds is the zero value or well formed, and parsing its text gives it back |
| `EndpointRefs.AllocatesExactly` | fabric/ref.go:37-63 | a new reference is made exactly from a 32 byte key and 32 bytes of entropy, and its two parts decode to the entropy and the key's domain hash |
| `EndpointRefs.OfferKeepsEndpoint` | fabric/ref.go:109-134 | selecting an offer succeeds for exactly 32 bytes, on an endpoint or in place of another offer, and keeps the endpoint and its text |
| `EndpointRefs.TextInjective` | fabric/ref.go:122-131 | different references have different texts |
| `Framing.EncodeFields` | fabric/framing.go:86-104 | succeeds exactly within bounds, with the specified bytes |
| `Framing.DecodeSigningFields` | fabric/framing.go:105-128 | one pass over the buffer reads exactly the fields |
| `Framing.DecodeInvertsEncode` | fabric/framing.go:86-128 | decoding yields the fields if and only if the input is their encoding |
| `Framing.FramedInjective` | fabric/framing.go:86-104 | equal encodings have equal purposes and field lists |
| `Frames.ParseInvertsSigning` | fabric/framing.go:144-264 | for all four types parsing the signing bytes gives the frame back |
| `Frames.SigningInvertsParse` | fabric/framing.go:144-264 | for all four types what parses is exactly the frame's signing bytes |
| `Frames.SigningBytesInjective` | fabric/framing.go:144-264 | no frame of any type stands for another |
| `Frames.SignableIffValid` | fabric/framing.go:144-243 | a frame has signing bytes exactly if it is valid: the size bounds never interfere |
| `Frames.SignsExactly` | fabric/framing.go:144-243 | a frame has signing bytes if and only if every name is present and readable, every namespace canonical, every counter positive, its deadline or prior revision in form if given, its target real, and a genesis namespace that of its own key |
| `Frames.WireLayout` | fabric/framing.go:144-243 | a reader that knows only the length-prefixed form finds exactly these fields, in this order, under this purpose |
| `Frames.GenesisBindsTheKey` | fabric/framing.go:144-150 | two genesis frames of one namespace have one key, or two domain preimages hash alike |
| `JsonValidator.ValidateValue` | fabric/wire.go:68-134 | the recursive method with its shared counter computes the specified walk |
| `JsonValidator.ValidateObject` | fabric/wire.go:82-111 | the object loop, with its seen set and spelling rule |
| `JsonValidator.ValidateArray` | fabric/wire.go:112-125 | the array loop |
| `JsonValidator.CheckDocument` | fabric/wire.go:36-55 | limits, size and encoding first, no trailing input |
| `JsonValidator.AcceptsExactly` | fabric/wire.go:36-134 | accepted if and only if the tokens are one document within depth and total members, names unique, fields spelt right |
| `EpochCache.Keyring.EpochKeys` | sdk/keyring.go:391-440 | the uninterrupted listing step; while cache and directory agree, the answer is the directory's |
| `EpochCache.Keyring.EpochKey` | sdk/keyring.go:454-464 | one key of that listing, as a cache-free reader would find it while they agree |
| `EpochCache.Keyring.ActiveEpoch` | sdk/keyring.go:469-484 | the lexicographic maximum of that listing |
| `EpochCache.Keyring.StoreEpoch` | sdk/keyring.go:369-387 | directory, then file; a warm network is updated, a cold one stays cold; a failure may leave the directory |
| `EpochCache.Keyring.Activate` | sdk/pending_pair.go:196-228 | never replaces a different key; forgets the network once the key is durable; a failure may leave the directory or the file |
| `EpochCache.StepKeepsAgreementIff` | sdk/keyring.go:369-440 | every step keeps cache and directory in agreement, if and only if it is neither a late activation failure with a new key of a cached network nor a listing that ends after its directory changed |
| `EpochCache.ListingGoesStaleIff` | sdk/keyring.go:391-440 | whatever other calls do while a listing is under way, its end breaks agreement if and only if some key placed in between is not the one it read and its network is not evicted at once |
| `EpochCache.CacheIsTransparent` | sdk/keyring.go:391-440 | from any directory and in any interleaving without those steps every answer is the cache-free one |
| `EpochCache.CacheIsBehindExactly` | sdk/keyring.go:391-440 | in every interleaving a network's answer is right for every epoch but exactly those it fell behind on since it was last loaded, and cache-free if and only if there are none |
| `EpochCache.AtMost32Cached` | sdk/keyring.go:430-438 | in every interleaving at most 32 networks are cached |
| `EpochCache.CachesTheMostRecentlyUsed` | sdk/keyring.go:430-451 | while no activation completes and no listings overlap, the cached networks are exactly the last 32 different ones used |
| `EpochCache.OrderIsTheCachedNetworks` | sdk/keyring.go:430-451 | without overlapping listings, activations included, the eviction order is exactly the cached networks, each once |
| `EpochCache.LateFailureHidesAnEpoch` | sdk/pending_pair.go:196-226 | a directory left by a failed activation, a listing, and a late failure hide a key on disk |
| `EpochCache.OverlappingListingHidesAnEpoch` | sdk/keyring.go:391-440 | in any directory a listing that overlaps a store hides the stored key |

## Left out

- Dispatch.OneOutcome: per dispatched incarnation; an ID dispatched again after both memories forgot it gets a new outcome, as `Dispatch.SecondStartNeedsEviction` delimits.
- Dispatch.RetainedResultsAreBounded: under the condition that `DispatchStale.BoundSurvivesIff` shows to be exact.
- OwnerSpoolRuns.SpoolStaysUsable: for writes that are durable in order; `OwnerSpoolPower` has the version with files that are visible before they are durable.
- PairStoreRuns.FirstStoreSucceedsIff: a record's descriptor is a value, so its encoded length and stored hash are not checked, nor that the two fingerprints are not all zero.
- Registration.NoChangeIsMissed: the revision counter is unbounded; its wrap after 2^64 changes is not modelled.
- EpochCache.CacheIsTransparent: a store and an activation are one step each, and a listing reads its directory at one moment; a cold listing also hands out the very map it caches, and callers that changed it are not modelled.
- DispatchClient.Client.KeepResult: building the payload from the connection generation and recording it are one step; a reconnect between the two, after which the first send lacks the flag that every retry sets, is not expressed.
- Descriptor and bootstrap encodings and the set-up of the console keys are parameters, not modelled.
- REST, WebSocket and file lock plumbing: a lock is an atomic step, a server answer an arbitrary value.
- The insides of AES-GCM, HPKE, SHA-256, HMAC and Ed25519, and UUID generation.
- `sdk/sharing_project_message_spool.go`: the owner text lifecycle with fewer fields.
- Message and event handlers: their documented contract is at-least-once delivery.
- The readiness proof, paging and retries of EnrollSharingPair after both sides hold the key.
- Reflection over promoted struct fields in `fabric/wire.go:155-228`: the field table of a type is a parameter.
- Enumerations and payload structs of `domain` and `transport`, claim patterns, schema compilation and backoff: they would only add easy members.
