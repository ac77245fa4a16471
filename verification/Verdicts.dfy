/**
What the handlers answer, check by check.  The checks of a request are listed with the conditions they test, over the
fields of the storage alone, and the answer is the refusal of the first one that fails.
 */
module Verdicts {
  import opened Options
  import opened Types
  import opened Storage
  import opened Checks
  import opened Submission
  import opened SerialSubmission
  import opened SerialAuction
  import opened Proposer

  // ----- Submitting a bid

  /** The bid is above the one stored for its slot, parent hash and proposer, if there is one. */
  predicate AboveStored(store: Store, bid: BidTrace) {
    var key := SlotHashKey(bid.slot, bid.parentHash, bid.proposerPubkey);
    key in store.bestBidPerSlot ==> bid.value > store.bestBidPerSlot[key].message.value
  }

  /** 64-bit slots wrap. */
  predicate FollowsHead(store: Store, slot: u64) {
    slot == (store.slot + 1) % 0x1_0000_0000_0000_0000
  }

  predicate HasDuty(store: Store, slot: u64) {
    exists duty :: duty in store.proposerDuties && duty.slot == slot
  }

  predicate BidVerifies(crypto: Crypto, bid: BidTrace, signature: Signature, domain: B256) {
    crypto.verify(bid.builderPubkey, crypto.signingRoot(crypto.bidRoot(bid), domain), signature)
  }

  /** The checks of a bid and its payload against the storage. */
  function StateChecks(store: Store, bid: BidTrace, payload: ExecutionPayload): seq<Check<Outcome>> {
    [Check(bid.value > 0, ZeroValue),
     Check(bid.builderPubkey in store.wlistBuilders, UnauthorizedBuilder),
     Check(FollowsHead(store, bid.slot), PastSlot),
     Check(bid.slot == store.payloadAttributes.proposalSlot, InvalidAttributes(InvalidSlot)),
     Check(payload.prevRandao == store.payloadAttributes.prevRandao, InvalidAttributes(InvalidPrevRandao)),
     Check(HasDuty(store, bid.slot), NoDuty)]
  }

  lemma StateDecided(store: Store, bid: BidTrace, payload: ExecutionPayload)
    ensures Decides(StateChecks(store, bid, payload), Accepted, PayloadVerdict(store, bid, payload))
    ensures AllHold(StateChecks(store, bid, payload)) <==> PayloadVerdict(store, bid, payload) == Accepted
  {
    var checks := StateChecks(store, bid, payload);
    if i :| FailsAt(checks, i) {
      assert i > 0 ==> checks[0].holds;
      assert i > 1 ==> checks[1].holds;
      assert i > 2 ==> checks[2].holds;
      assert i > 3 ==> checks[3].holds;
      assert i > 4 ==> checks[4].holds;
      assert PayloadVerdict(store, bid, payload) == checks[i].refusal;
    } else {
      assert !FailsAt(checks, 0) && !FailsAt(checks, 1) && !FailsAt(checks, 2);
      assert !FailsAt(checks, 3) && !FailsAt(checks, 4) && !FailsAt(checks, 5);
    }
  }

  /** The checks of `post_bids`, in order. */
  function SubmissionChecks(crypto: Crypto, store: Store, submission: BidSubmission): seq<Check<Outcome>> {
    var (bid, domain) := (submission.message, store.forkData.builderDomain);
    [Check(AboveStored(store, bid), BelowBest)]
    + (StateChecks(store, bid, submission.executionPayload)
       + [Check(BidVerifies(crypto, bid, submission.signature, domain), BadSignature)])
  }

  /**
  A submission is answered with the refusal of the first check it fails, and accepted exactly when it passes all: it is
  above the stored bid, of non-zero value, from a listed builder, for the slot after the head, for the slot and
  randomness of the stored attributes, for a slot with a duty, and signed with its builder's key.
   */
  lemma SubmissionDecided(crypto: Crypto, store: Store, submission: BidSubmission)
    ensures Decides(SubmissionChecks(crypto, store, submission), Accepted, OutcomeOf(crypto, store, submission))
    ensures Accepts(crypto, store, submission) <==> AllHold(SubmissionChecks(crypto, store, submission))
  {
    var (bid, payload) := (submission.message, submission.executionPayload);
    var outcome := OutcomeOf(crypto, store, submission);
    var above := Check(AboveStored(store, bid), BelowBest);
    var verifies := Check(BidVerifies(crypto, bid, submission.signature, store.forkData.builderDomain), BadSignature);
    StateDecided(store, bid, payload);
    if AboveStored(store, bid) {
      if PayloadVerdict(store, bid, payload) == Accepted {
        OneDecides(verifies, Accepted, outcome);
      }
      ThenDecides(StateChecks(store, bid, payload), [verifies], Accepted, outcome);
    }
    OneDecides(above, Accepted, if AboveStored(store, bid) then Accepted else BelowBest);
    ThenDecides([above], StateChecks(store, bid, payload) + [verifies], Accepted, outcome);
  }

  /** A bid for another slot than the stored attributes', or a payload of another randomness, changes nothing. */
  lemma MismatchIsRefused(crypto: Crypto, store: Store, submission: BidSubmission)
    requires || submission.message.slot != store.payloadAttributes.proposalSlot
             || submission.executionPayload.prevRandao != store.payloadAttributes.prevRandao
    ensures Submit(crypto, store, submission) == store
    ensures OutcomeOf(crypto, store, submission) != Accepted
  {
    var checks := SubmissionChecks(crypto, store, submission);
    SubmissionDecided(crypto, store, submission);
    assert checks[4].holds <==> submission.message.slot == store.payloadAttributes.proposalSlot;
    assert checks[5].holds
           <==> submission.executionPayload.prevRandao == store.payloadAttributes.prevRandao;
  }

  // ----- Submitting a bid over gRPC

  /** A field that is there is converted. */
  function Converts<T>(field: Field<T>): seq<Check<Outcome>> {
    [Check(!field.Malformed?, BadConversion), Check(!field.Unparsable?, Aborted)]
  }

  lemma ConversionDecided<T>(field: Field<T>, outcome: Outcome)
    requires !field.Missing?
    requires field.Present? ==> outcome == Accepted
    requires !field.Present? ==> outcome == Rejection(field)
    ensures Decides(Converts(field), Accepted, outcome)
    ensures AllHold(Converts(field)) <==> field.Present?
  {
    var checks := Converts(field);
    if field.Malformed? {
      assert FailsAt(checks, 0);
    } else if field.Unparsable? {
      assert FailsAt(checks, 1);
    }
  }

  function SignatureChecks(crypto: Crypto, request: GrpcRequest, bid: BidTrace, domain: B256): seq<Check<Outcome>> {
    var signed := request.signature.Present? && BidVerifies(crypto, bid, request.signature.value, domain);
    [Check(request.signature.Present?, Aborted), Check(signed, BadSignature)]
  }

  /** The last checks of `submit_block`: the signature, and then the conversion of the blobs. */
  function LastChecks(crypto: Crypto, request: GrpcRequest, bid: BidTrace, domain: B256): seq<Check<Outcome>> {
    SignatureChecks(crypto, request, bid, domain) + Converts(request.blobsBundle)
  }

  lemma LastDecided(crypto: Crypto, request: GrpcRequest, bid: BidTrace, domain: B256, outcome: Outcome)
    requires !request.blobsBundle.Missing?
    requires outcome == if !request.signature.Present? then Aborted
                        else if !crypto.VerifyBid(bid, request.signature.value, domain) then BadSignature
                        else if !request.blobsBundle.Present? then Rejection(request.blobsBundle)
                        else Accepted
    ensures Decides(LastChecks(crypto, request, bid, domain), Accepted, outcome)
  {
    var checks := SignatureChecks(crypto, request, bid, domain);
    if !request.signature.Present? {
      assert FailsAt(checks, 0);
    } else if !checks[1].holds {
      assert FailsAt(checks, 1);
    } else {
      ConversionDecided(request.blobsBundle, outcome);
    }
    ThenDecides(checks, Converts(request.blobsBundle), Accepted, outcome);
  }

  /** What the fields of a request stand for, where they decode. */
  predicate Carries(request: GrpcRequest, bid: BidTrace, payload: ExecutionPayload) {
    && (request.bid.Present? ==> request.bid.value == bid)
    && (request.executionPayload.Present? ==> request.executionPayload.value == payload)
  }

  predicate NothingMissing(request: GrpcRequest) {
    !request.bid.Missing? && !request.executionPayload.Missing? && !request.blobsBundle.Missing?
  }

  /** The checks of a request whose bid has been converted. */
  function FromBest(crypto: Crypto, store: Store, request: GrpcRequest, bid: BidTrace, payload: ExecutionPayload,
                    forkData: ForkDatas): seq<Check<Outcome>> {
    [Check(AboveStored(store, bid), BelowBest)]
    + (Converts(request.executionPayload)
       + (StateChecks(store, bid, payload) + LastChecks(crypto, request, bid, forkData.builderDomain)))
  }

  /** The checks of `submit_block`, with each conversion where it is made. */
  function RequestChecks(crypto: Crypto, store: Store, request: GrpcRequest, bid: BidTrace, payload: ExecutionPayload,
                         forkData: ForkDatas): seq<Check<Outcome>> {
    [Check(NothingMissing(request), MissingField)]
    + (Converts(request.bid) + FromBest(crypto, store, request, bid, payload, forkData))
  }

  /** A request over gRPC is answered with the refusal of the first check or conversion that fails. */
  lemma RequestDecided(crypto: Crypto, store: Store, request: GrpcRequest, bid: BidTrace, payload: ExecutionPayload,
                       forkData: ForkDatas)
    requires Carries(request, bid, payload)
    ensures Decides(RequestChecks(crypto, store, request, bid, payload, forkData), Accepted,
                    GrpcOutcome(crypto, store, request, forkData))
  {
    var outcome := GrpcOutcome(crypto, store, request, forkData);
    var missing := Check(NothingMissing(request), MissingField);
    OneDecides(missing, Accepted, if missing.holds then Accepted else MissingField);
    var rest := Converts(request.bid) + FromBest(crypto, store, request, bid, payload, forkData);
    if NothingMissing(request) {
      ConversionDecided(request.bid, if request.bid.Present? then Accepted else Rejection(request.bid));
      if request.bid.Present? {
        FromBestDecided(crypto, store, request, bid, payload, forkData);
      }
      ThenDecides(Converts(request.bid), FromBest(crypto, store, request, bid, payload, forkData), Accepted, outcome);
    }
    ThenDecides([missing], rest, Accepted, outcome);
  }

  lemma FromBestDecided(crypto: Crypto, store: Store, request: GrpcRequest, bid: BidTrace, payload: ExecutionPayload,
                        forkData: ForkDatas)
    requires Carries(request, bid, payload) && NothingMissing(request) && request.bid.Present?
    ensures Decides(FromBest(crypto, store, request, bid, payload, forkData), Accepted,
                    GrpcOutcome(crypto, store, request, forkData))
  {
    var outcome := GrpcOutcome(crypto, store, request, forkData);
    var above := Check(AboveStored(store, bid), BelowBest);
    var last := StateChecks(store, bid, payload) + LastChecks(crypto, request, bid, forkData.builderDomain);
    OneDecides(above, Accepted, if above.holds then Accepted else BelowBest);
    if AboveStored(store, bid) {
      ConversionDecided(request.executionPayload,
                        if request.executionPayload.Present? then Accepted else Rejection(request.executionPayload));
      if request.executionPayload.Present? {
        StateDecided(store, bid, payload);
        if PayloadVerdict(store, bid, payload) == Accepted {
          LastDecided(crypto, request, bid, forkData.builderDomain, outcome);
        }
        ThenDecides(StateChecks(store, bid, payload), LastChecks(crypto, request, bid, forkData.builderDomain),
                    Accepted, outcome);
      }
      ThenDecides(Converts(request.executionPayload), last, Accepted, outcome);
    }
    ThenDecides([above], Converts(request.executionPayload) + last, Accepted, outcome);
  }

  // ----- Unblinding

  predicate BlockVerifies(crypto: Crypto, key: PublicKey, signed: SignedBlindedBlock, domain: B256) {
    crypto.verify(key, crypto.signingRoot(crypto.blockRoot(signed.message), domain), signed.signature)
  }

  /** The checks of `blinded_blocks`, in order, for the duty found. */
  function UnblindChecks(crypto: Crypto, store: Store, signed: SignedBlindedBlock, duty: Validator)
    : seq<Check<UnblindResult>>
  {
    var (key, index) := (duty.entry.message.pubkey, signed.message.proposerIndex);
    [Check(HasDuty(store, signed.message.slot), Refused(NoDutyFound)),
     Check(duty.validatorIndex == index, Refused(IndexMismatch(duty.validatorIndex, index))),
     Check(key in store.validatorRegistrations, Refused(Unauthorized)),
     Check(BlockVerifies(crypto, key, signed, store.forkData.proposerDomain), Refused(InvalidSignature)),
     Check(key in store.blindedBlockResp, Refused(NoPayload))]
  }

  /** The payload stored for the key is returned, and the block published carries it under the proposer's signature. */
  ghost predicate HandsOut(store: Store, signed: SignedBlindedBlock, key: PublicKey, outcome: UnblindResult) {
    && key in store.blindedBlockResp
    && outcome.Delivered?
    && outcome.result.response == store.blindedBlockResp[key]
    && var published := outcome.result.published;
    && published.signedBlock.message.body == BeaconBlockBody(signed.message.body.fields,
                                                             store.blindedBlockResp[key].executionPayload)
    && published.signedBlock.message.slot == signed.message.slot
    && published.signedBlock.message.proposerIndex == signed.message.proposerIndex
    && published.signedBlock.message.parentRoot == signed.message.parentRoot
    && published.signedBlock.message.stateRoot == signed.message.stateRoot
    && published.signedBlock.signature == signed.signature
    && published.kzgProofs == store.blindedBlockResp[key].blobsBundle.proofs
    && published.blobs == store.blindedBlockResp[key].blobsBundle.blobs
  }

  /**
  An unblinding request is answered with the refusal of the first check it fails.  It is delivered exactly when it
  passes all: the first duty for its slot is of its proposer index, that duty's key is registered and verifies the
  block's signature, and a payload is stored for it, which is what is handed out.
   */
  lemma UnblindDecided(crypto: Crypto, store: Store, signed: SignedBlindedBlock, duty: Validator)
    requires HasDuty(store, signed.message.slot)
             ==> exists i :: FirstFor(store.proposerDuties, signed.message.slot, i) && store.proposerDuties[i] == duty
    ensures var (checks, outcome) := (UnblindChecks(crypto, store, signed, duty), Unblind(crypto, store, signed));
            if AllHold(checks) then HandsOut(store, signed, duty.entry.message.pubkey, outcome)
            else exists i :: FailsAt(checks, i) && outcome == checks[i].refusal
  {
    var checks := UnblindChecks(crypto, store, signed, duty);
    FirstDutyIsFound(store.proposerDuties, signed.message.slot);
    assert HasDuty(store, signed.message.slot) ==> FindDuty(store.proposerDuties, signed.message.slot) == Some(duty);
    if i :| FailsAt(checks, i) {
      assert i > 0 ==> checks[0].holds;
      assert i > 1 ==> checks[1].holds;
      assert i > 2 ==> checks[2].holds;
      assert i > 3 ==> checks[3].holds;
      assert Unblind(crypto, store, signed) == checks[i].refusal;
    } else {
      assert !FailsAt(checks, 0) && !FailsAt(checks, 1) && !FailsAt(checks, 2);
      assert !FailsAt(checks, 3) && !FailsAt(checks, 4);
    }
  }

  /** The first duty for the block's slot has its proposer index, and that duty's key is registered and signed it. */
  predicate Authorised(crypto: Crypto, store: Store, signed: SignedBlindedBlock, duty: Validator) {
    && duty.validatorIndex == signed.message.proposerIndex
    && duty.entry.message.pubkey in store.validatorRegistrations
    && BlockVerifies(crypto, duty.entry.message.pubkey, signed, store.forkData.proposerDomain)
  }

  lemma DeliveredWhenAuthorised(crypto: Crypto, store: Store, signed: SignedBlindedBlock, i: int)
    requires FirstFor(store.proposerDuties, signed.message.slot, i)
    ensures var duty := store.proposerDuties[i];
            Unblind(crypto, store, signed).Delivered?
            <==> Authorised(crypto, store, signed, duty) && duty.entry.message.pubkey in store.blindedBlockResp
  {
    var checks := UnblindChecks(crypto, store, signed, store.proposerDuties[i]);
    UnblindDecided(crypto, store, signed, store.proposerDuties[i]);
    if AllHold(checks) {
      assert checks[1].holds && checks[2].holds && checks[3].holds && checks[4].holds;
    } else {
      var k :| FailsAt(checks, k) && Unblind(crypto, store, signed) == checks[k].refusal;
      assert checks[k].refusal.Refused?;
    }
  }

  /** In every serialised run a proposer has a payload exactly when some bid was committed under its key. */
  lemma PayloadWhenCommitted(crypto: Crypto, init: Store, ops: seq<Op>, key: PublicKey)
    requires Fresh(init)
    ensures key in Run(crypto, init, ops).blindedBlockResp <==> exists c :: CommitAt(crypto, init, ops, key, c)
  {
    PayloadIsLatestCommit(crypto, init, ops, key);
    LatestCommitCommits(crypto, init, ops, key);
    forall c | CommitAt(crypto, init, ops, key, c)
      ensures LatestCommit(crypto, init, ops, key).Some?
    {
      LatestCommitIsLast(crypto, init, ops, key, c);
    }
  }

  /**
  In every serialised run a block is delivered exactly when the first duty for its slot has its proposer index, that
  duty's key is registered and verifies its signature, and some bid was committed under that key.
   */
  lemma DeliveredExactly(crypto: Crypto, init: Store, ops: seq<Op>, signed: SignedBlindedBlock, i: int)
    requires Fresh(init)
    requires FirstFor(Run(crypto, init, ops).proposerDuties, signed.message.slot, i)
    ensures var store := Run(crypto, init, ops);
            var duty := store.proposerDuties[i];
            Unblind(crypto, store, signed).Delivered?
            <==> && Authorised(crypto, store, signed, duty)
                 && exists c :: CommitAt(crypto, init, ops, duty.entry.message.pubkey, c)
  {
    var store := Run(crypto, init, ops);
    DeliveredWhenAuthorised(crypto, store, signed, i);
    PayloadWhenCommitted(crypto, init, ops, store.proposerDuties[i].entry.message.pubkey);
  }
}
