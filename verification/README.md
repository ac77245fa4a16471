# A model of the relay: auction, delivery, unblinding, duties and event loops

The relay stands between block builders and proposers.  Builders submit bids with their payloads over gRPC or HTTP; a
proposer fetches the header of the best bid for its key, signs a blinded block around it, and gets the payload in
exchange.  Around this run a registration endpoint, an epoch refresh that joins the beacon node's duties with the
registrations, and a loop that feeds head slots and payload attributes into the storage.  This project models that
core in Dafny and proves what its parts promise together.

`dafny verify dfyconfig.toml` checks the whole project.

## How the model is built

* **Storage.**  `Store` is the value behind the lock, `Call` one acquisition of it (or one bump of a counter), and
  `Exec` and `Answer` what a call does and says.  `Storage.InMemoryStorage` is the shared object; each of its methods is
  proved to be the call it stands for, and the two that take more than one step to be their two steps.
* **Handlers twice.**  Each handler is an imperative method over that object, proved against a closed form, and a machine
  that issues one call at a time, so that others may run between any two of its calls.  `SerialSubmission` and
  `Alone` prove that each machine, run alone, computes the closed form.
* **Serialised runs** (`SerialAuction`) are lists of operations applied one after the other.  **Interleaved runs**
  (`System`) are logs of calls and replies by any number of processes of any kind; `ExecutionsAreRuns` and
  `RunsAreExecutions` say that these logs are exactly what schedules of the state machine produce.  What is proved of
  serialised runs alone says so; `InterleavedAuction` and `InterleavedPayload` say what becomes of it in the others.
* **Answers.**  `Verdicts` lists the checks of each request over the fields of the storage, and proves that the answer is
  the refusal of the first one that fails.
* **Unblinding.**  `Merkle` is merkleization over an abstract hash of two nodes; `MerkleLoops` are the relay's own loops;
  `Ssz` spells out the field lists, `RootTrees` the trees they make, and `Binding` proves that a root commits to every
  field of its message.  That the hash is free of collisions cannot be assumed, as the nodes are 32 bytes;
  instead each theorem that needs it says "or the hash collides", at a pair of inputs it names.
* **Poll-based machines.**  Sources, connection attempts and command channels are arbitrary traces, so that every schedule
  of arrivals, errors, ends and polls is covered.  `WakeUps` runs the relay service under an executor that polls it only
  when it has been woken, with sources that keep its waker.
* **Foreign parts** are parameters: signature verification, the roots of opaque fields, the beacon node's answers.

## Where the code differs from what it says or promises

* A bid's proposer key is never compared with the duty's key; the payload map is keyed by the duty's key alone, for all
  slots, parent hashes and bids; and the header a proposer signed is never compared with the payload it is handed.  So
  in serialised runs a proposer gets the payload of the latest commit for it (`PayloadIsLatestCommit`), which is the
  payload of a header it was served exactly when the latest commit is that of the served bid, or a later one that
  carries the same payload (`HeaderThenUnblindExactly`).  Naming the duty does not help: `LaterCommitTakesPayload` shows
  both ways a later commit takes the payload from a header that is still served, or was served already -- another parent
  hash, or a higher bid -- and `AnyBidCanBeMisplaced` the way a bid that does not name its duty never gets its payload
  to its proposer.  `ServedHeaderUnblindsExactly` says when, in serialised runs, the proposer's signature still covers
  what is published.
* A commit writes its bid and its payload in two steps, with others in between.  So in interleaved runs not even the
  payload of the last bid is safe: `PayloadCanBeCrossed` builds, from two valid bids for one key that name their duty, a
  run that accepts both, serves the header of the higher and hands out the payload of the lower, with nothing committed
  afterwards.  `PayloadAgreesExactly` says, for every run, when the last payload for a proposer is that of the bid
  served for its key; `CrossedExactly` that, if bids name their duty and all commits are complete, that bid was
  overtaken exactly when another submission's two writes came between its own; and `HeaderThenUnblindInRun` when any
  header fetched is that of the payload handed out later.
* The best-bid check and the commit are separate steps as well: `HigherBidCanBeLost` builds, from any two valid bids for
  a key, a run that accepts both and stores the lower.  `ReplacementFollowsCheck` says that a commit replaces a bid that
  is not lower only if that bid was committed after the commit's own best-bid check, and `ValuesIncreaseExactly` in
  which runs none does.
* The head check and the commit are separate too, so that an entry may still change after the head has reached its slot;
  `EntryFreezesInRun` says through which commits.
* The by-slot index is never written (`BySlotStaysEmpty`), so a data query ignores its slot (`QueriesIgnoreSlot`).
* The documentation of the attribute check (crates/primitives/src/storage/payload_attributes.rs:35-39) and of the bid checks
  (crates/grpc/src/service/mod.rs:30-31) mentions the fee recipient; the code compares slot and randomness only, and so
  does the model.
* The duty refresh is triggered every 32 slots whatever the epoch length is; `CoveredUntilNextTrigger` says for which
  lengths that is enough, and `HeadsStayCovered` what it means for heads without a gap.  A head slot divisible by 32 that
  is skipped spawns no refresh; the one before then serves up to 62 slots later and no further
  (`OneMissedBoundaryIsCovered`), which leaves the last head before the next refresh without the duty of its next slot.
  A refresh whose join is empty keeps the old duties (`RefreshWritesExactly`).
* Decoding a gRPC payload fills each withdrawal's validator index from its amount; `RoundTripExactly` and
  `DecodedHeaderKeepsWithdrawals` say exactly what that changes.

## Model

| member | source | states |
|---|---|---|
| Storage.FindDuty | crates/storage/src/in_memory/mod.rs:161-168 | a duty found is listed and for the slot asked; none is found exactly when no duty is for that slot |
| Storage.FirstDutyIsFound | crates/storage/src/in_memory/mod.rs:161-168 | the duty found is the first for the slot in list order |
| Storage.InMemoryStorage.constructor | crates/storage/src/in_memory/mod.rs:67-97 | a new storage holds what it is given and no bid, payload, delivery or count |
| Storage.InMemoryStorage.SetBestBid | crates/storage/src/in_memory/mod.rs:175-189 | the bid goes under its slot, parent hash and proposer and under its block number, and nothing else changes |
| Storage.InMemoryStorage.ReadBestBid | crates/storage/src/in_memory/mod.rs:217-229 | the bid stored for the key, if any |
| Storage.InMemoryStorage.SetBlindedBlockResponse | crates/storage/src/in_memory/mod.rs:203-212 | the payload is stored for the proposer and nothing else changes |
| Storage.InMemoryStorage.FindDutyBySlot | crates/storage/src/in_memory/mod.rs:161-168 | the linear search returns the first duty listed for the slot |
| Storage.InMemoryStorage.SetPayloadAttributes | crates/storage/src/in_memory/mod.rs:123-131 | a counter step followed by the attribute write |
| Storage.InMemoryStorage.RecordRelayedBlock | crates/storage/src/in_memory/mod.rs:101-107 | counts a block as relayed when its hash was delivered, and as not relayed otherwise |
| Storage.InMemoryStorage.SetDeliveredBlocks | crates/storage/src/in_memory/mod.rs:108-111 | a counter step followed by appending the hash to the delivered list |
| Submission.MatchedStep | crates/grpc/src/service/mod.rs:127-192 | handlers of the two entry points standing at the same point issue the same call, and the same reply keeps them at the same point |
| Submission.EntryPointsSimulate | crates/http/src/server/builder_api/post_bids.rs:59-131 | for one decoded submission and any replies, gRPC and HTTP issue the same storage calls up to reading the constant fork data, and stop at the same check |
| EntryPoints.EntryPointsInterchange | crates/http/src/server/builder_api/post_bids.rs:59-131 | in every interleaved run a gRPC submission that decodes can be replaced by the HTTP submission, with the one entry that reads the fork data inserted: what results is a run, with the same storage, the same exchanges of every other handler, and the submission at the same point and so with the same outcome |
| SerialSubmission.HttpAloneIsSubmit | crates/http/src/server/builder_api/post_bids.rs:59-131 | the HTTP machine run alone leaves the store and gives the outcome of the closed form |
| SerialSubmission.GrpcAloneIsHttpAlone | crates/grpc/src/service/mod.rs:127-192 | from any matched point, the two machines run alone leave the same store and give the same outcome |
| SerialSubmission.GrpcAloneIsSubmit | crates/grpc/src/service/mod.rs:127-192 | for every request, with fields missing, malformed or aborting included, the gRPC machine run alone gives the outcome of the closed form, and changes the store only for a request that decodes, as the closed form does |
| SerialSubmission.GrpcOutcomeIsOutcome | crates/grpc/src/service/mod.rs:127-192 | on requests whose fields all decode, the gRPC outcome, with its decoding failures in between, is that of the closed form |
| SerialSubmission.GrpcRelayService.SubmitBlock | crates/grpc/src/service/mod.rs:127-192 | only a request whose every field decodes can change the storage, and then as an accepted submission does; every early return is the first failing check |
| SerialSubmission.GrpcRelayService.IsHigherThanBest | crates/grpc/src/service/mod.rs:94-102 | a bid is higher when nothing is stored for its key or its value is strictly greater |
| SerialSubmission.GrpcRelayService.ValidateBidAndPayload | crates/grpc/src/service/mod.rs:33-73 | the first failing check decides; a duty is returned exactly when all pass |
| SerialSubmission.GrpcRelayService.UpdateBest | crates/grpc/src/service/mod.rs:105-122 | the bid is committed under its own key and its payload under the duty's |
| SerialSubmission.PostBids | crates/http/src/server/builder_api/post_bids.rs:59-141 | the HTTP handler changes the storage and answers as the closed form does |
| Verdicts.SubmissionDecided | crates/http/src/server/builder_api/post_bids.rs:65-131 | a submission is answered with the refusal of the first check it fails, and accepted exactly when it is above the bid stored for its slot, parent hash and proposer, of non-zero value, from a listed builder, for the slot after the head, for the slot and the randomness of the stored attributes, for a slot that has a duty, and signed with its builder's key |
| Verdicts.MismatchIsRefused | crates/primitives/src/storage/payload_attributes.rs:40-49 | a bid for another slot than the stored attributes', or a payload of another randomness, is refused and changes nothing |
| Verdicts.RequestDecided | crates/grpc/src/service/mod.rs:127-192 | a gRPC request is answered with the refusal of the first check or conversion that fails, in the order of the handler, with the error of that check |
| SerialAuction.EntryAfter | crates/grpc/src/service/mod.rs:94-122 | an operation changes the bid of a key exactly when it is a valid submission for the key that is higher than the one stored |
| SerialAuction.StoredBidIsWinner | crates/grpc/src/service/mod.rs:94-192 | in every serialised run the bid stored for a key is the earliest of greatest value among all submissions for it that passed the other checks on arrival, rejected ones included; none is stored exactly when there was none |
| SerialAuction.WinnerWasAccepted | crates/grpc/src/service/mod.rs:94-102 | in serialised runs that earliest submission of greatest value was itself accepted, so its payload was written as well |
| SerialAuction.StoredValueDependsOnValues | crates/primitives/src/storage/bid_traces.rs:47-57 | two runs whose eligible submissions for a key have the same values store the same value for it |
| SerialAuction.ArrivalOrderIsIrrelevant | crates/primitives/src/storage/bid_traces.rs:47-57 | two runs with the same submissions, each valid when it arrives, store the same value for every key, whatever the order of arrival, however often each arrives and whatever other calls come in between |
| SerialAuction.PermutedSubmissionsAgree | crates/primitives/src/storage/bid_traces.rs:47-57 | in particular, submissions valid at the start with nothing in between stay valid, and so any order of them stores the same value |
| SerialAuction.LatestCommitIsLast | crates/grpc/src/service/mod.rs:105-122 | the latest commit for a proposer is a commit and none is later |
| SerialAuction.PayloadIsLatestCommit | crates/grpc/src/service/mod.rs:105-122 | in every serialised run, whatever the bids name, a proposer's payload is that of its latest commit, and there is none without one |
| SerialAuction.PayloadAgreesWithHeader | crates/grpc/src/service/mod.rs:105-122 | in serialised runs where accepted bids name their duty's key, a proposer has a payload exactly when it has a commit; it is that of the bid served for the key of its latest commit; and it is that of a bid served for any other key exactly when that bid carries the same payload as the latest commit |
| SerialAuction.PayloadStays | crates/storage/src/in_memory/mod.rs:203-216 | in serialised runs a proposer's payload changes only with a commit for that proposer |
| SerialAuction.HeaderThenUnblindExactly | crates/http/src/server/proposer_api/blinded_blocks.rs:141-164 | in serialised runs a header fetched for any key at any time is built from the bid of an accepted op; unblinded at any later time by the proposer that op was committed under, it yields its own payload exactly when the latest commit for the proposer is that op or a later one with the same payload; by any other proposer, exactly when its latest commit, another op, carries the same payload |
| SerialAuction.HeaderThenUnblind | crates/http/src/server/proposer_api/blinded_blocks.rs:141-164 | in serialised runs whose accepted bids name their duty: a header fetched for the key of the latest commit and unblinded with no commit for the proposer in between yields the payload it was built from |
| SerialAuction.LaterCommitTakesPayload | crates/storage/src/in_memory/mod.rs:203-216 | of two bids that name their duty, the later one takes the payload from the header of the first: with another parent hash the first header is still served at the end, with a higher value for the same key it may have been fetched before |
| SerialAuction.AnyBidCanBeMisplaced | crates/grpc/src/service/mod.rs:66-72 | every signed bid of non-zero value for a slot after the first can be accepted under the duty of another validator, which leaves its proposer a header but no payload |
| SerialAuction.CommitSlotsAdvance | crates/primitives/src/storage/head_slot.rs:9-11 | in serialised runs in which heads never go back, the slots of accepted bids never go back |
| SerialAuction.EntryFreezes | crates/grpc/src/service/mod.rs:52-57 | in serialised runs in which heads never go back, the entry of every key whose slot the head has reached is frozen for the rest of the run |
| Proposer.GetHeaderHandler | crates/http/src/server/proposer_api/get_header.rs:54-93 | a header is served exactly to a registered key, for the slot after the head, when a bid is stored for the key |
| Proposer.UnblindRequest | crates/http/src/server/proposer_api/blinded_blocks.rs:77-203 | the first failing check decides; a success returns and publishes the payload stored for the duty's key and counts and records that payload's hash, a refusal changes nothing |
| Verdicts.UnblindDecided | crates/http/src/server/proposer_api/blinded_blocks.rs:85-164 | an unblinding request is answered with the refusal of the first check it fails; it is delivered exactly when the first duty for its slot has its proposer index, that duty's key is registered and signed the block, and a payload is stored for it, which is returned and published with the block's own fields and signature |
| Verdicts.DeliveredExactly | crates/http/src/server/proposer_api/blinded_blocks.rs:85-152 | in every serialised run a block for a slot with a duty is delivered exactly when the duty has its proposer index, its key is registered and signed the block, and some bid was committed under that key |
| Alone.HeaderAlone | crates/http/src/server/proposer_api/get_header.rs:54-93 | the header machine run alone gives the answer of the handler's closed form and changes nothing |
| Alone.UnblindAlone | crates/http/src/server/proposer_api/blinded_blocks.rs:77-203 | the unblinding machine run alone ends as the handler's closed form says, and counts and records exactly a delivery |
| Alone.RegisterAlone | crates/http/src/server/proposer_api/post_validators.rs:59-98 | the registration machine run alone stores the map of the kept registrations |
| Alone.RefreshAlone | bin/relay/src/service.rs:131-145 | the refresh machine run alone, one lookup a step, leaves the store of an uninterrupted refresh |
| Registration.LastRegistrationWins | crates/http/src/server/proposer_api/post_validators.rs:70-97 | the map holds exactly the keys kept, each with the last registration kept for it |
| Registration.BatchRegisters | crates/http/src/server/proposer_api/post_validators.rs:70-97 | the map of a batch holds a key exactly when some candidate of that key is active and its signature verifies under its own key over its root in the domain, with the last such candidate of the batch |
| Registration.KeptCount | crates/http/src/server/proposer_api/post_validators.rs:68-98 | as many registrations are counted as there are such candidates in the batch |
| Registration.MapSize | crates/http/src/server/proposer_api/post_validators.rs:68-98 | the map is no larger than the number kept, and as large exactly when no kept key repeats |
| Registration.RegistrationMapHasOwnKeys | crates/http/src/server/proposer_api/post_validators.rs:95 | every registration stands under its own message's key |
| Registration.Collect | crates/http/src/server/proposer_api/post_validators.rs:68-97 | a key is in the map exactly when some candidate with that key is active and its signature verifies under that key, with the last such candidate; the count is the number of such candidates |
| Registration.PostValidators | crates/http/src/server/proposer_api/post_validators.rs:59-98 | the old map is replaced by exactly that map, the answer is that count, and the map is smaller than the count exactly when a key repeats among those candidates |
| Duties.CollectDuties | bin/relay/src/service.rs:69-87 | the loop joins, in order, the duties whose key is registered with their registrations, also when nothing is registered |
| Duties.RefreshDuties | bin/relay/src/service.rs:131-145 | a refresh replaces the duties by the join of both epochs, and keeps them if that is empty |
| Duties.JoinedMembers | bin/relay/src/service.rs:74-86 | a validator is in the join exactly when some duty of its slot and index has a registered key, with that key's registration |
| Duties.LookupAfterJoin | crates/storage/src/in_memory/mod.rs:161-168 | with one duty per slot, a lookup finds that duty if its key is registered and nothing otherwise |
| Duties.CurrentEpochFirst | crates/primitives/src/beacon/proposer_duties.rs:16-18 | whatever the two replies list, a lookup after a refresh finds a registered duty of the current epoch's reply first, then one of the next epoch's; and if neither has one for any slot, what was stored before |
| Duties.RefreshCoversWindow | bin/relay/src/service.rs:131-145 | after a refresh that nothing interrupts, with a non-empty join, a lookup finds exactly the beacon's registered proposer for every slot of the two epochs, and nothing outside them |
| Duties.RefreshReach | crates/primitives/src/storage/head_slot.rs:19-21 | exactly how many heads a refresh covers the next slots of, for any epoch length |
| Duties.OneMissedBoundaryIsCovered | bin/relay/src/service.rs:122 | with 32-slot epochs a refresh at a head h divisible by 32 covers every next slot up to head h + 62 and no further |
| Duties.CoveredUntilNextTrigger | bin/relay/src/service.rs:122 | for which epoch lengths a refresh covers the next slots of its head and of the 31 heads after it, before the next one is triggered |
| System.ExecutionsAreRuns | crates/storage/src/in_memory/mod.rs:100-230 | whatever the schedule of handlers, the log is a run, and the store and every handler are what the log says |
| System.RunsAreExecutions | crates/storage/src/in_memory/mod.rs:100-230 | every run is produced by a schedule |
| System.ForkDataIsConstant | crates/storage/src/in_memory/mod.rs:112-114 | no call writes the fork data or the whitelist |
| SubmissionHistory.HistoryExplains | crates/grpc/src/service/mod.rs:127-192 | wherever a submission stands, its history holds the checks before that point, in order, each passed |
| SubmissionHistory.PayloadFollowsBid | crates/grpc/src/service/mod.rs:118-121 | a handler about to write a payload has just written the bid it belongs to |
| InterleavedAuction.BidMapIsFold | crates/storage/src/in_memory/mod.rs:175-189 | in every interleaved run the bid of a key is the last one committed for it |
| InterleavedAuction.BlockMapIsFold | crates/storage/src/in_memory/mod.rs:175-198 | the bid of a block number is the last one committed for it |
| InterleavedAuction.PayloadMapIsFold | crates/storage/src/in_memory/mod.rs:203-216 | the payload of a proposer is the last one written for it |
| InterleavedAuction.BySlotStaysEmpty | crates/storage/src/in_memory/mod.rs:175-201 | the by-slot index stays empty in every run |
| InterleavedAuction.KeysAgreeWithContents | crates/storage/src/in_memory/mod.rs:175-189 | every stored bid stands under its own slot, parent hash and proposer, and under its own payload's block number |
| InterleavedAuction.QueriesIgnoreSlot | crates/http/src/server/data_api/get_bids.rs:42-68 | a query answers its block-number lookup alone, which is the last bid committed for the block |
| InterleavedAuction.CommitsAreChecked | crates/grpc/src/service/mod.rs:33-91 | every commit has non-zero value, a listed builder, a signature of that builder's key over its root in the builder domain, and five earlier steps of its own handler, in order: its value was above the stored one, its builder was listed, its slot followed the head, slot and randomness were those of the stored attributes, and its slot had a duty, each in the store of that step |
| InterleavedAuction.StoredBidsAreChecked | crates/http/src/server/builder_api/post_bids.rs:65-113 | the same of every stored bid |
| InterleavedAuction.ReplacementFollowsCheck | crates/grpc/src/service/mod.rs:94-122 | a commit replaces a bid of equal or greater value only if that bid was committed after the committer's own best-bid check, which is the first entry of its process and the only such check it makes |
| InterleavedAuction.ValuesIncreaseExactly | crates/http/src/server/builder_api/post_bids.rs:65-141 | in every run the values committed for a key strictly increase exactly when every commit is above those committed between its own best-bid check and itself |
| InterleavedAuction.ValuesStrictlyIncrease | crates/http/src/server/builder_api/post_bids.rs:65-141 | in particular they do where the check-to-commit windows of the key do not overlap |
| InterleavedAuction.LateCommitCheckedEarly | crates/grpc/src/service/mod.rs:52-57 | if heads never go back, a commit for a key whose slot the head has already reached had its own head check before the head got there |
| InterleavedAuction.EntryFreezesInRun | crates/primitives/src/storage/head_slot.rs:9-11 | so in every interleaved run in which heads never go back, the entry of a key whose slot the head has reached stays as it is unless a commit is made for it whose own head check came before |
| LostBid.HigherBidCanBeLost | crates/grpc/src/service/mod.rs:94-122 | any two valid bids for a key can be interleaved so that both are accepted and the lower one ends up stored |
| LostBid.PayloadCanBeCrossed | crates/grpc/src/service/mod.rs:118-121 | any two valid bids for a key that name their duty and carry different payloads can be interleaved so that both are accepted, the header of the higher is served and the payload of the lower is handed out |
| InterleavedPayload.PayloadHasBid | crates/http/src/server/builder_api/post_bids.rs:122-125 | the entry before a payload write, of the same submission, is the write of the bid the payload belongs to |
| InterleavedPayload.LastWritesExist | crates/storage/src/in_memory/mod.rs:175-216 | a proposer that has a payload has a last payload write, a bid it was written with, and a last bid for that bid's key, not before it |
| InterleavedPayload.PayloadAgreesExactly | crates/grpc/src/service/mod.rs:105-122 | in every interleaved run, the payload of a proposer is that of the bid served for the key of the bid it was written with exactly when that bid is the last written for its key, or the last one carries the same payload |
| InterleavedPayload.HeaderThenUnblindInRun | crates/http/src/server/proposer_api/blinded_blocks.rs:141-164 | in every interleaved run, a header fetched at one moment for any key and the payload handed out at another to any proposer agree exactly when the last payload for the proposer was written with the bid the header was built from, or with one that carries the same payload |
| InterleavedPayload.PayloadFollows | crates/grpc/src/service/mod.rs:118-121 | where no submission stands between its two writes, every bid written is followed by its own payload |
| InterleavedPayload.CrossedExactly | crates/grpc/src/service/mod.rs:118-121 | in runs at whose end no submission stands between its writes, and whose payloads are written for the proposers their bids name, a later bid for the key exists exactly when another submission's two writes nest between the two of the last payload |
| InterleavedDelivery.PayloadsAreAccepted | crates/grpc/src/service/mod.rs:105-122 | every payload in the map was written by a submission that passed every check |
| InterleavedHeaders.ServedInRun | crates/http/src/server/proposer_api/get_header.rs:54-93 | in every interleaved run a header is served only after three steps of its handler found, in order, its key registered, the head just before its slot, and a bid stored for its key; it is the header, commitments and value of the last bid committed for that key by the third step |
| InterleavedHeaders.HeaderHistory | crates/http/src/server/proposer_api/get_header.rs:54-93 | wherever a header request stands, the reads it has made and their replies are those that bring it there; a request that is refused has met an unregistered key, another slot, no bid, or more than 4096 commitments |
| InterleavedDelivery.DeliveriesAreAccepted | crates/http/src/server/proposer_api/blinded_blocks.rs:141-202 | a successful unblinding returns, publishes with its proofs and blobs, and records one payload; four earlier steps of the handler found the duty of the block's slot with the block's proposer index and a key that signed the block's root in the proposer domain, found that key registered, read for it a payload that an accepted submission had written, and recorded its hash |
| InterleavedDelivery.DeliveriesConserved | crates/storage/src/in_memory/mod.rs:108-111 | the delivery counter is the length of the delivered list plus the number of handlers between count and push |
| SignedMessages.CommittedBidIsSigned | crates/primitives/src/storage/bid_traces.rs:40-44 | in every interleaved run a committed bid carries its builder's signature over the hash of the bid's root and the builder domain |
| SignedMessages.RegistrationIsSigned | crates/http/src/server/proposer_api/post_validators.rs:87-95 | in every interleaved run in which a batch has written, every registration carries the signature of its own key over the hash of its root and the builder domain |
| SignedMessages.DeliveredBlockIsSigned | crates/http/src/server/proposer_api/blinded_blocks.rs:109-139 | in every interleaved run a delivered block carries, over the hash of its root and the proposer domain, the signature of the key of the duty found for it |
| SignedMessages.SignedBidIsUnique | crates/primitives/src/storage/bid_traces.rs:40-44 | the word signed for a bid stands for no other bid and no other domain, or the hash collides at a named pair |
| SignedMessages.BidsAreNotBlocks | crates/primitives/src/blst/mod.rs:57-76 | under different domains a bid and a block are never signed by the same word, or the hash collides at a named pair |
| InterleavedDelivery.DeliveredListGrows | crates/storage/src/in_memory/mod.rs:108-111 | the delivered list of every prefix of a run is a prefix of the list at its end |
| InterleavedDelivery.MinedBlocksConserved | crates/storage/src/in_memory/mod.rs:101-131 | relayed and not relayed blocks together are the attribute updates plus the loops between count and write |
| InterleavedDelivery.MinedCountIsJustified | crates/storage/src/in_memory/mod.rs:101-107 | a block is counted as relayed exactly when its parent hash was in the delivered list at the step the loop asked |
| InterleavedDuties.RegistrationsHaveOwnKeys | crates/http/src/server/proposer_api/post_validators.rs:70-98 | in every run every registration is stored under its own message's key |
| InterleavedDuties.BatchesWriteExactly | crates/http/src/server/proposer_api/post_validators.rs:66-98 | in every interleaved run a batch writes exactly the last active candidate per key whose signature verifies in the builder domain of the start |
| InterleavedDuties.RegistrationsAreOfLastBatch | crates/http/src/server/proposer_api/post_validators.rs:98 | so the registrations in the storage are exactly those of the last batch that has written |
| InterleavedDuties.WrittenDutiesAreTheJoin | bin/relay/src/service.rs:69-145 | a refresh writes exactly the join of its duties with the replies to its lookups, one per duty and in order |
| InterleavedDuties.StoredDutiesAreJoined | bin/relay/src/service.rs:69-145 | every stored duty pairs a beacon duty with a registration of that duty's key which was in the map at a step of the refresh, even if batches replace the map meanwhile |
| InterleavedDuties.LookupAfterRefresh | bin/relay/src/service.rs:69-145 | from the entry at which an interleaved refresh writes until the next such write, a lookup of a slot finds the duty of that slot with the registration the refresh read for it, in its place among the lookups, or nothing if none was read |
| InterleavedDuties.RefreshCoversWindowInRun | bin/relay/src/service.rs:131-145 | so after an interleaved refresh, with registrations changing throughout, a lookup of any slot of the two epochs finds exactly the beacon's proposer if its key was registered when read and nothing otherwise, and nothing is found outside them |
| InterleavedDuties.RefreshWritesExactly | bin/relay/src/service.rs:141-145 | in every interleaved run a refresh that has returned has written duties if and only if one of its lookups found a registration |
| InterleavedDuties.NothingFoundKeepsDuties | bin/relay/src/service.rs:141-145 | in every interleaved run in which no refresh finds a registration the stored duties stay as they were |
| Merkle.RootIsBottomUp | crates/primitives/src/blst/mod.rs:179-238 | filling a tree with zero leaves on demand gives the root of padding first and hashing layer by layer, as section "Merkleization" of the consensus-specs SSZ document defines it |
| Merkle.EqualRootsCollide | crates/primitives/src/blst/mod.rs:66-76 | different leaves under the same root lead to two different pairs with the same hash, found by descending the trees |
| MerkleLoops.ListsWithinLimitFit | crates/primitives/src/blst/mod.rs:179-214 | a list within its limit whose packed items fill a chunk has at most as many chunks as the hasher has leaves |
| MerkleLoops.FlatRoots | crates/primitives/src/blst/mod.rs:200-207 | item roots written one after the other are cut back into the roots |
| MerkleLoops.ChunksArePacked | crates/primitives/src/blst/mod.rs:225-238 | laid end to end the chunks are the bytes followed by fewer than 32 zeros: byte i is byte i % 32 of chunk i / 32 |
| MerkleLoops.FlatBytes | crates/primitives/src/blst/mod.rs:184-198 | byte b of packed item k is at place width * k + b |
| MerkleLoops.LeafLimitIsLeast | crates/primitives/src/blst/mod.rs:186-200 | a list is given the least number of leaves that its items, as many as it may have, fit into |
| MerkleLoops.VecTreeHashRoot | crates/primitives/src/blst/mod.rs:179-214 | the loop panics exactly when the list has more chunks than the hasher has room for, and otherwise merkleizes to the limit the chunks that hold the items: their packed bytes one after the other, zeros in the last chunk only and at its end, or their roots |
| MerkleLoops.BitfieldTreeHashRoot | crates/primitives/src/blst/mod.rs:225-238 | never panics on a bitfield of at most its bytes, and merkleizes to the limit the chunks that hold its bytes followed by fewer than 32 zeros |
| RootTrees.SigningRootIsHash | crates/primitives/src/blst/mod.rs:57-76 | a signing root is the hash of the object's root, first, and the domain, second |
| RootTrees.AddressIsPadded | crates/primitives/src/blst/mod.rs:155-176 | the root of an address is its twenty bytes followed by zeros |
| RootTrees.CapacityIs | crates/primitives/src/blst/mod.rs:186-200 | a hasher has room for the least power of two that holds its leaves |
| RootTrees.FourFields | crates/primitives/src/types.rs:452-464 | the root of a withdrawal, and of a registration, as the explicit tree of its four fields in their order |
| RootTrees.BidTree | crates/primitives/src/storage/bid_traces.rs:15-37 | the root of a bid trace as the explicit tree of its nine fields in their order |
| RootTrees.BlockTree | crates/primitives/src/beacon/blinded_block.rs:58-66 | the root of a block as the explicit tree of its five fields |
| RootTrees.BodyTree | crates/primitives/src/beacon/blinded_block.rs:72-85 | the root of a block body as the explicit tree of its twelve fields, the payload or its header the tenth, and at most 4096 commitments |
| RootTrees.PayloadTree | crates/primitives/src/types.rs:470-497 | the root of a payload as the explicit tree of its seventeen fields, with lists of at most 1048576 transactions and 16 withdrawals |
| RootTrees.TransactionTrees | crates/primitives/src/types.rs:492 | each transaction is a byte list of at most 2^25 chunks |
| RootTrees.ListTree | crates/primitives/src/types.rs:492-493 | the root of a list is the layered root of its items' roots padded to the limit, hashed with its length |
| RootTrees.ByteListTree | crates/primitives/src/types.rs:485 | the root of a byte list is the layered root of the chunks that hold its bytes, hashed with their number |
| Binding.SigningRootBinds | crates/primitives/src/blst/mod.rs:57-76 | domain separation: equal signing roots are of the same object root and the same domain, or the hash collides at that pair |
| Binding.BidRootBinds | crates/primitives/src/storage/bid_traces.rs:15-45 | bids of the same root are the same bid, value and keys included, or the hash collides at a named pair |
| Binding.RegistrationRootBinds | crates/primitives/src/beacon/registrations.rs:23-47 | registrations of the same root are the same, or the hash collides at a named pair |
| Binding.WithdrawalsRootBinds | crates/primitives/src/beacon/header.rs:44-48 | lists of withdrawals of the same root, of whatever lengths, are the same, or the hash collides at a named pair |
| Binding.TransactionsRootBinds | crates/primitives/src/beacon/header.rs:44-48 | lists of transactions of the same root are the same to the last byte, or the hash collides at a named pair |
| Binding.HeaderRootBinds | crates/primitives/src/types.rs:534-561 | headers of the same root are the same, or the hash collides at a named pair |
| Binding.PayloadRootBinds | crates/primitives/src/types.rs:470-497 | payloads of the same root are the same, or the hash collides at a named pair |
| Binding.BlindedBlockRootBinds | crates/primitives/src/beacon/blinded_block.rs:58-85 | blinded blocks of the same root have the same slot, proposer index, parent and state root, graffiti and header, or the hash collides at a named pair |
| Ssz.HeaderKeepsRoot | crates/primitives/src/beacon/header.rs:44-69 | the header built from a payload has the payload's root |
| Unblinding.UnblindingKeepsRootExactly | crates/primitives/src/beacon/beacon_block.rs:102-181 | the block built from a blinded block and a payload has the blinded block's root exactly when the header has the payload's root, or the hash collides at a named pair |
| Unblinding.HeaderServesWinner | crates/http/src/server/proposer_api/get_header.rs:54-93 | in every serialised run the header of the earliest eligible submission of greatest value is served, exactly to a registered key for the slot after the head if its commitments fit, with its payload's root, its commitments and its value |
| Unblinding.HeaderNeedsWinner | crates/http/src/server/proposer_api/get_header.rs:82-87 | a header is served only when the key has an eligible submission |
| Unblinding.SignatureCarriesOver | crates/primitives/src/blst/mod.rs:57-76 | a signature that verifies for the blinded block verifies for the block built with the header's payload: over the hash of that block's root, first, and the domain, second |
| Unblinding.ServedHeaderUnblindsExactly | crates/http/src/server/proposer_api/blinded_blocks.rs:109-164 | in serialised runs, from a header served for any key at any time to the block published later: it carries the payload of the latest commit for the duty's proposer, and the signed root and the signature cover it exactly when that payload has the root of the one the header was built from, or the hash collides at a named pair |
| Unblinding.ServedHeaderCoversOnlyItsPayload | crates/http/src/server/proposer_api/blinded_blocks.rs:109-164 | so, for payloads within the bounds of their types, the root signed is that of the published block exactly when that block carries the very payload the header was built from, or the hash collides at a named pair |
| Unblinding.ServedHeaderUnblindsSigned | crates/http/src/server/proposer_api/blinded_blocks.rs:109-164 | in serialised runs, from the header served for the latest commit to the block published: it carries the payload the header was built from, and the proposer's signature verifies for it |
| Unblinding.ServedHeaderIsDelivered | crates/http/src/server/proposer_api/blinded_blocks.rs:85-152 | and in serialised runs it is delivered, whenever the first duty for its slot is the proposer's with the block's index and the proposer is registered and has signed the block |
| EventStream.BeaconEventsStream.PollNext | crates/beacon/src/events/stream.rs:32-63 | one poll takes from the attribute source first, and advances the two sources as the merge does |
| EventStream.MergeConservesEvents | crates/beacon/src/events/stream.rs:32-63 | over every schedule the events emitted are, per source and in order, exactly the good items taken, and one terminal answer has been taken exactly if the stream has ended |
| EventStream.PollIsBiased | crates/beacon/src/events/stream.rs:32-63 | a head is taken only when attributes yield none; a poll is pending or ended exactly when the sources say so |
| EventStream.HeadsWait | crates/beacon/src/events/stream.rs:35-46 | while attributes keep coming, heads are neither emitted nor lost |
| EventStream.DrainedStream | crates/beacon/src/events/stream.rs:32-63 | once nothing is left of its sources, every good item in them has been emitted |
| RelayLoop.RelayService.Poll | bin/relay/src/service.rs:94-183 | one poll takes at most one event, applies it, and follows the stream to its end and through reconnection |
| RelayLoop.RelayService.Handle | bin/relay/src/service.rs:97-151 | an event is applied to the storage, and a head divisible by 32 spawns a refresh for it, no other event any |
| RelayLoop.PendingIsJustified | bin/relay/src/service.rs:152-182 | one poll: the service never completes, and wakes itself exactly when it took an event, lost its stream or opened one |
| WakeUps.NoWakeUpIsLost | bin/relay/src/service.rs:152-182 | over every schedule of answers arriving, sources ending, connections opening, other handlers and polls made only when the task is due: the task is due, or every source it waits for is empty and keeps its waker |
| WakeUps.WakesTakeEverything | bin/relay/src/service.rs:94-183 | after any schedule, polling only when due brings the task to rest within as many polls as there is work, with every good item that has arrived on its stream taken in order, or waiting for a connection that has not opened |
| WakeUps.WokenEventsAreApplied | bin/relay/src/service.rs:97-151 | over every such schedule what was taken from all streams has been applied once and in order |
| RelayLoop.LoopAloneDelivers | bin/relay/src/service.rs:97-120 | the event loop of the interleaved machine, run alone, does with an event what the service does |
| RelayLoop.EventsSurviveReconnection | bin/relay/src/service.rs:155-179 | whatever the schedule and whatever others do in between, the events taken are those of the streams in turn, each stream but the current one having ended |
| RelayLoop.HandlersLeaveEventsAlone | crates/storage/src/in_memory/mod.rs:115-131 | no handler but the event loop writes head, attributes or mined-block counters |
| RelayLoop.EventsAreApplied | bin/relay/src/service.rs:97-151 | every event taken is applied exactly once and in order: head and attributes are the last of each kind, the refreshes are the heads with slot % 32 = 0, in order, and as many parent blocks were counted as attributes were taken |
| RefreshTriggers.RefreshesAreSpawnedExactly | bin/relay/src/service.rs:121-123 | over every schedule the refreshes spawned are exactly the heads taken that are divisible by 32, each at its own place among them and in order |
| RefreshTriggers.HeadsStayCovered | bin/relay/src/service.rs:121-136 | over every schedule in which the heads taken visit every slot from a multiple of 32 on, the last refresh was spawned at most 31 slots ago; the slot after the last head is in the two epochs it asks for exactly if it comes fewer than two epochs after the start of the first, and so always with epochs of 32 slots |
| RelayLoop.EveryEventIsTaken | bin/relay/src/service.rs:94-183 | polled often enough, the service has taken every good item of its current stream or waits for a connection that never opens |
| CommandService.BeaconService.Poll | crates/beacon/src/service/mod.rs:117-145 | one poll empties the queue with one reply attempt per command, in order and from the command's own arguments, and leaves the waker registered |
| CommandService.BeaconService.Answer | crates/beacon/src/service/mod.rs:120-141 | the future sent for a command is the call it names, with its own arguments, over its own reply channel |
| CommandService.RequestsAreAnsweredInOrder | crates/beacon/src/service/mod.rs:67-145 | over every run, with handles coming and going, a sender is left and so a poll leaves its waker, what was answered is a prefix of what was sent, the rest is queued, a task with requests waiting is due, and its poll answers everything sent |
| CommandService.AttemptsAsk | crates/beacon/src/service/mod.rs:117-145 | over every run the attempt made for a request goes over its own reply channel, with the call its command names and the command's own epoch, key, block or submission type |
| CommandService.OneAttemptPerReply | crates/beacon/src/service/handle.rs:21-68 | reply channels not shared between requests get exactly one attempt each |
| Decode.DecodesExactly | crates/grpc/src/gen/mod.rs:94-136 | a payload decodes exactly when its hashes and numbers have 32 bytes, its addresses 20, and its lists at most 1048576 and 16 items |
| Decode.ErrorsDecided | crates/grpc/src/gen/mod.rs:94-136 | the first wrong length, in the order of the conversions, decides the error, with its type and both lengths; the list bounds come last |
| Decode.WellSizedDecodes | crates/grpc/src/gen/mod.rs:94-136 | each field of a decoded payload comes from the field of its own name |
| Decode.DecodedBytes | crates/grpc/src/gen/mod.rs:112-120 | bloom and extra data are taken byte by byte, cut at 256 and 32 bytes, the bloom filled with zeros |
| Decode.DecodedIsWellTyped | crates/grpc/src/gen/mod.rs:94-136 | whatever decodes is within the bounds that the payload's types impose |
| Decode.LittleEndianReverses | crates/primitives/src/types.rs:145-184 | decoding 32 big-endian bytes and encoding the number little-endian reverses the bytes |
| Decode.BigEndianInverts | crates/primitives/src/types.rs:173-184 | big-endian decoding inverts the reversed little-endian encoding of every number that fits |
| Decode.RoundTripExactly | crates/grpc/src/gen/mod.rs:39-50 | every payload that can be sent decodes to itself with each validator index replaced by the amount, so to itself exactly when every index is its amount |
| Decode.OneWithdrawalIsMisindexed | crates/grpc/src/gen/mod.rs:45 | a withdrawal of validator 1 and amount 2 arrives as a withdrawal of validator 2 |
| Binding.DecodedHeaderKeepsWithdrawals | crates/primitives/src/beacon/header.rs:44-48 | the header of a decoded payload commits to the withdrawals that were sent exactly when every index was its amount, or the hash collides at a named pair |

## Left out

* Signature schemes, key parsing and SHA-256: keys and signatures are opaque, verification and the hash are parameters.
* The library's Merkle hasher is its specification, an accumulator of bytes whose end is merkleize; a panic of the
  relay's loops is the answer `None`.
* The roots of the body fields that unblinding carries over are an abstract function of their bytes, and numbers wider
  than 64 bits are unbounded naturals except where their bytes are decoded.
* `BeaconBlock` has no tree hash in the relay itself: its root is the one the beacon chain computes, from the field list.
* The relay's own signature over a served header, and the relay's public key in it.
* How the two signing domains are computed from the fork data; they are constants of a run.
* Decoding of bid traces, signatures and blobs: a field of a gRPC request is missing, malformed, aborting or usable.
  That fixed vectors made from bytes are cut or zero-filled, and lists cut, is the behaviour of the SSZ type library.
* The HTTP and gRPC servers, authentication, the beacon node's client, command-line arguments, logging, gauges and latencies.
* Publishing of an unblinded block: the model returns the block that is handed over for it.
* `set_validator_registration`, `read_proposer_duties` and `is_first_slot_of_new_epoch`, which no handler uses, and
  versioned_bid.rs, which is not compiled.
* An attribute stream that has ended is modelled as one that has nothing, which the service treats alike, but keeps no waker.
* Wall-clock time: the six-second delay and the backoff are arbitrary numbers of polls or an arbitrary moment to run.
* In interleaved runs the beacon node's answers to one request are fixed when the request starts, and refreshes are
  processes of their own, not tied to the head that spawned them.
* Tokio's cooperative budget, which may pause a long drain of the command channel and wake the task again.
* The data query reads its two indexes in one step; the first is empty in every run, so that no step in between matters.
* A reply whose receiver is gone: the attempt is recorded, not its success.
* The atomicity of one storage call is taken from its single lock; the model does not go below it.
- SerialAuction.CommitSlotsAdvance: the hypothesis that heads never go back also keeps them below the last 64-bit slot, where the successor wraps to zero.
- SerialAuction.EntryFreezes: as for CommitSlotsAdvance, and of serialised runs; EntryFreezesInRun is the statement for interleaved ones.
- SerialAuction.HeaderThenUnblind: a sufficient case in serialised runs; the exact condition is that of HeaderThenUnblindExactly, and in interleaved runs that of HeaderThenUnblindInRun.
- SerialAuction.HeaderThenUnblindExactly: of serialised runs; HeaderThenUnblindInRun is the statement for interleaved ones.
- Unblinding.ServedHeaderUnblindsExactly: of serialised runs, where the payload is that of the latest commit; in interleaved ones it is the one HeaderThenUnblindInRun names.
- Unblinding.ServedHeaderUnblindsSigned: as for ServedHeaderUnblindsExactly; PayloadCanBeCrossed breaks it in interleaved runs.
- Verdicts.DeliveredExactly: of serialised runs, as the payload is then that of a commit; DeliveriesAreAccepted says of interleaved ones what a delivery implies.
- Unblinding.ServedHeaderIsDelivered: of serialised runs, as ServedHeaderUnblindsSigned.
- Unblinding.ServedHeaderCoversOnlyItsPayload: of serialised runs, as ServedHeaderUnblindsExactly.
- Binding.BlindedBlockRootBinds: says nothing of the body fields whose roots are opaque here.
- Duties.RefreshCoversWindow: for a refresh that nothing interrupts; RefreshCoversWindowInRun drops that.  Epoch numbers are unbounded, so that the 64-bit overflow of the next epoch is not modelled.
