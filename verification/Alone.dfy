/** The machines of the other handlers, run without interruption, compute the closed forms the serialised runs use. */
module Alone {
  import opened Types
  import opened Storage
  import opened Proposer
  import opened Registration
  import opened Duties
  import opened System

  /** A process and the storage it uses alone. */
  datatype Solo = Solo(store: Store, process: Process)

  function SoloStep(crypto: Crypto, solo: Solo): Solo {
    var call := NextCall(solo.process);
    if call.None? then solo
    else Solo(Exec(solo.store, call.value), Resume(crypto, solo.process, Answer(solo.store, call.value)))
  }

  function SoloSteps(crypto: Crypto, solo: Solo, n: nat): Solo
    decreases n
  {
    if n == 0 then solo else SoloSteps(crypto, SoloStep(crypto, solo), n - 1)
  }

  // ----- get_header

  lemma HeaderAlone(crypto: Crypto, store: Store, slot: u64, parentHash: B256, pubkey: PublicKey)
    ensures SoloSteps(crypto, Solo(store, FetchHeader(HeaderHandler(slot, parentHash, pubkey, HeaderAtRegistration))),
                      3)
         == Solo(store, FetchHeader(HeaderHandler(slot, parentHash, pubkey,
                                                  HeaderReturned(GetHeader(crypto, store, slot, parentHash, pubkey)))))
  {
    var s0 := Solo(store, FetchHeader(HeaderHandler(slot, parentHash, pubkey, HeaderAtRegistration)));
    var s1 := SoloStep(crypto, s0);
    var s2 := SoloStep(crypto, s1);
    assert SoloSteps(crypto, s0, 3) == SoloSteps(crypto, s1, 2) == SoloSteps(crypto, s2, 1) == SoloStep(crypto, s2);
  }

  // ----- blinded_blocks

  function UnblindStart(block: SignedBlindedBlock): Process {
    UnblindBlock(UnblindHandler(block, UnblindAtDuty))
  }

  /** Where an unblinding request ends. */
  function UnblindEnd(block: SignedBlindedBlock, outcome: UnblindResult): Process {
    UnblindBlock(UnblindHandler(block,
                                if outcome.Delivered? then UnblindReturned(outcome.result)
                                else UnblindFailed(outcome.error)))
  }

  /** The two steps of a delivery. */
  lemma DeliveryAlone(crypto: Crypto, store: Store, block: SignedBlindedBlock, result: Unblinded)
    ensures SoloSteps(crypto, Solo(store, UnblindBlock(UnblindHandler(block, UnblindAtCount(result)))), 2)
         == Solo(Exec(Exec(store, CountBlindedBlock), PushDeliveredBlock(BlockHash(result.published))),
                 UnblindEnd(block, Delivered(result)))
  {
    var s0 := Solo(store, UnblindBlock(UnblindHandler(block, UnblindAtCount(result))));
    var s1 := SoloStep(crypto, s0);
    assert SoloSteps(crypto, s0, 2) == SoloSteps(crypto, s1, 1) == SoloStep(crypto, s1);
  }

  /** A process that has returned stays where it is. */
  lemma {:induction false} ReturnedStays(crypto: Crypto, solo: Solo, n: nat)
    requires NextCall(solo.process).None?
    ensures SoloSteps(crypto, solo, n) == solo
  {
    if n > 0 {
      ReturnedStays(crypto, solo, n - 1);
    }
  }

  /** What the checks after the duty say about a block, for the key of the duty found. */
  function KeyOutcome(crypto: Crypto, store: Store, block: SignedBlindedBlock, key: PublicKey): UnblindResult {
    if key !in store.validatorRegistrations then Refused(Unauthorized)
    else if !crypto.VerifyBlindedBlock(key, block, store.forkData.proposerDomain) then Refused(InvalidSignature)
    else PayloadOutcome(store, block, key)
  }

  function PayloadOutcome(store: Store, block: SignedBlindedBlock, key: PublicKey): UnblindResult {
    if key !in store.blindedBlockResp then Refused(NoPayload)
    else Delivered(UnblindedBy(store.blindedBlockResp[key], block))
  }

  /** The end of a request with an outcome: a delivery has been counted and recorded. */
  function Finished(store: Store, block: SignedBlindedBlock, outcome: UnblindResult): Solo {
    Solo(if outcome.Delivered?
         then Exec(Exec(store, CountBlindedBlock), PushDeliveredBlock(BlockHash(outcome.result.published)))
         else store,
         UnblindEnd(block, outcome))
  }

  lemma UnblindAloneFromPayload(crypto: Crypto, store: Store, block: SignedBlindedBlock, key: PublicKey)
    ensures SoloSteps(crypto, Solo(store, UnblindBlock(UnblindHandler(block, UnblindAtPayload(key)))), 3)
         == Finished(store, block, PayloadOutcome(store, block, key))
  {
    var s3 := Solo(store, UnblindBlock(UnblindHandler(block, UnblindAtPayload(key))));
    var s4 := SoloStep(crypto, s3);
    assert SoloSteps(crypto, s3, 3) == SoloSteps(crypto, s4, 2);
    if key in store.blindedBlockResp {
      DeliveryAlone(crypto, store, block, UnblindedBy(store.blindedBlockResp[key], block));
    } else {
      ReturnedStays(crypto, s4, 2);
    }
  }

  lemma UnblindAloneFromForkData(crypto: Crypto, store: Store, block: SignedBlindedBlock, key: PublicKey)
    ensures SoloSteps(crypto, Solo(store, UnblindBlock(UnblindHandler(block, UnblindAtForkData(key)))), 5)
         == Finished(store, block, KeyOutcome(crypto, store, block, key))
  {
    var s1 := Solo(store, UnblindBlock(UnblindHandler(block, UnblindAtForkData(key))));
    var s2 := SoloStep(crypto, s1);
    var s3 := SoloStep(crypto, s2);
    KeyIsChecked(crypto, store, block, key);
    assert SoloSteps(crypto, s1, 5) == SoloSteps(crypto, s2, 4) == SoloSteps(crypto, s3, 3);
    if s3.process.unblind.pc.UnblindFailed? {
      ReturnedStays(crypto, s3, 3);
    } else {
      UnblindAloneFromPayload(crypto, store, block, key);
    }
  }

  /** Reading the fork data and the registration: the key is refused, or its payload is looked up next. */
  lemma KeyIsChecked(crypto: Crypto, store: Store, block: SignedBlindedBlock, key: PublicKey)
    ensures var s1 := Solo(store, UnblindBlock(UnblindHandler(block, UnblindAtForkData(key))));
            SoloStep(crypto, SoloStep(crypto, s1))
            == Solo(store, UnblindBlock(UnblindHandler(block,
                             if key !in store.validatorRegistrations then UnblindFailed(Unauthorized)
                             else if !crypto.VerifyBlindedBlock(key, block, store.forkData.proposerDomain)
                             then UnblindFailed(InvalidSignature)
                             else UnblindAtPayload(key))))
  {
  }

  /** Run alone, the unblinding request computes `Unblind`, and counts and records what it delivers. */
  lemma UnblindAlone(crypto: Crypto, store: Store, block: SignedBlindedBlock)
    ensures SoloSteps(crypto, Solo(store, UnblindStart(block)), 6)
            == Finished(store, block, Unblind(crypto, store, block))
  {
    var s0 := Solo(store, UnblindStart(block));
    var s1 := SoloStep(crypto, s0);
    assert SoloSteps(crypto, s0, 6) == SoloSteps(crypto, s1, 5);
    if NextCall(s1.process).None? {
      ReturnedStays(crypto, s1, 5);
    } else {
      UnblindAloneFromForkData(crypto, store, block, s1.process.unblind.pc.key);
    }
  }

  // ----- post_validators

  lemma RegisterAlone(crypto: Crypto, store: Store, batch: seq<Candidate>)
    ensures SoloSteps(crypto, Solo(store, RegisterBatch(RegisterHandler(batch, RegisterAtForkData))), 2)
         == Solo(Exec(store, SetValidatorRegistrations(RegistrationMap(crypto, store.forkData.builderDomain, batch))),
                 RegisterBatch(RegisterHandler(batch, RegisterReturned)))
  {
    var s0 := Solo(store, RegisterBatch(RegisterHandler(batch, RegisterAtForkData)));
    var s1 := SoloStep(crypto, s0);
    assert SoloSteps(crypto, s0, 2) == SoloSteps(crypto, s1, 1) == SoloStep(crypto, s1);
  }

  // ----- The epoch refresh

  /** The store a refresh with these merged replies leaves behind. */
  function Refreshed(store: Store, duties: seq<ProposerDutiesData>): Store {
    var joined := IntoDuties(store.validatorRegistrations, duties);
    if joined != [] then Exec(store, SetProposerDuties(joined)) else store
  }

  lemma IntoDutiesExtend(registrations: map<PublicKey, ValidatorRegistration>, duties: seq<ProposerDutiesData>, i: nat)
    requires i < |duties|
    ensures IntoDuties(registrations, duties[..i + 1])
         == if duties[i].pubkey in registrations
            then IntoDuties(registrations, duties[..i])
                 + [Validator(duties[i].slot, duties[i].validatorIndex, registrations[duties[i].pubkey])]
            else IntoDuties(registrations, duties[..i])
  {
    assert duties[..i + 1][..i] == duties[..i];
    assert IntoDuties(registrations, duties[..i]) + [] == IntoDuties(registrations, duties[..i]);
  }

  /** A refresh alone after its first `i` lookups. */
  function RefreshAt(store: Store, duties: seq<ProposerDutiesData>, i: nat): Solo
    requires i <= |duties|
  {
    var joined := IntoDuties(store.validatorRegistrations, duties[..i]);
    Solo(store, RefreshEpoch(RefreshHandler(duties, RefreshNext(duties, joined, i))))
  }

  lemma LookupAlone(crypto: Crypto, store: Store, duties: seq<ProposerDutiesData>, i: nat)
    requires i < |duties|
    ensures SoloStep(crypto, RefreshAt(store, duties, i)) == RefreshAt(store, duties, i + 1)
  {
    IntoDutiesExtend(store.validatorRegistrations, duties, i);
  }

  lemma RefreshAloneWrites(crypto: Crypto, store: Store, duties: seq<ProposerDutiesData>)
    ensures SoloSteps(crypto, RefreshAt(store, duties, |duties|), 1)
         == Solo(Refreshed(store, duties), RefreshEpoch(RefreshHandler(duties, RefreshReturned)))
  {
    var s0 := RefreshAt(store, duties, |duties|);
    assert duties[..|duties|] == duties;
    assert SoloSteps(crypto, s0, 1) == SoloSteps(crypto, SoloStep(crypto, s0), 0) == SoloStep(crypto, s0);
  }

  /** After `i` lookups, one lookup a step is left, and the write. */
  lemma {:induction false} RefreshAloneFrom(crypto: Crypto, store: Store, duties: seq<ProposerDutiesData>, i: nat)
    requires i <= |duties|
    ensures SoloSteps(crypto, RefreshAt(store, duties, i), |duties| - i + 1)
         == Solo(Refreshed(store, duties), RefreshEpoch(RefreshHandler(duties, RefreshReturned)))
    decreases |duties| - i
  {
    var n := |duties| - i;
    if n == 0 {
      RefreshAloneWrites(crypto, store, duties);
    } else {
      var s0 := RefreshAt(store, duties, i);
      LookupAlone(crypto, store, duties, i);
      assert SoloSteps(crypto, s0, n + 1) == SoloSteps(crypto, SoloStep(crypto, s0), n);
      RefreshAloneFrom(crypto, store, duties, i + 1);
    }
  }

  /** Both epochs' replies merged, the refresh alone does what `Refresh` says. */
  lemma RefreshAlone(crypto: Crypto, store: Store, current: seq<ProposerDutiesData>, next: seq<ProposerDutiesData>)
    ensures var duties := MergeWith(current, next);
            SoloSteps(crypto, Solo(store, RefreshEpoch(RefreshHandler(duties, RefreshAtEmpty))), |duties| + 2)
            == Solo(Refresh(store, current, next), RefreshEpoch(RefreshHandler(duties, RefreshReturned)))
  {
    var duties := MergeWith(current, next);
    var s0 := Solo(store, RefreshEpoch(RefreshHandler(duties, RefreshAtEmpty)));
    var s1 := SoloStep(crypto, s0);
    assert SoloSteps(crypto, s0, |duties| + 2) == SoloSteps(crypto, s1, |duties| + 1);
    if store.validatorRegistrations == map[] {
      NothingRegistered(duties);
      ReturnedStays(crypto, s1, |duties| + 1);
    } else {
      assert duties[..0] == [];
      assert s1 == RefreshAt(store, duties, 0);
      RefreshAloneFrom(crypto, store, duties, 0);
    }
  }
}
