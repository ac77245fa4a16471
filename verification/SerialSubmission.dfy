/**
A submission handled without interruption: its closed form `Submit`, the proof that both handler machines run alone
compute it, and the imperative handlers that refine it.
 */
module SerialSubmission {
  import opened Options
  import opened Types
  import opened Storage
  import opened Submission

  function BestFor(store: Store, bid: BidTrace): Option<BidSubmission> {
    Lookup(store.bestBidPerSlot, KeyOf(bid))
  }

  /** The verdict of the checks from the head slot to the duty lookup: the first that fails, or acceptance. */
  function SlotVerdict(store: Store, bid: BidTrace, payload: ExecutionPayload): Outcome {
    var mismatch := store.payloadAttributes.ValidateBid(bid.slot, payload.prevRandao);
    if !IsNextSlot(store.slot, bid.slot) then PastSlot
    else if mismatch.Some? then InvalidAttributes(mismatch.value)
    else if FindDuty(store.proposerDuties, bid.slot).None? then NoDuty
    else Accepted
  }

  /** The verdict of the checks before the signature. */
  function PayloadVerdict(store: Store, bid: BidTrace, payload: ExecutionPayload): Outcome {
    if bid.value == 0 then ZeroValue
    else if bid.builderPubkey !in store.wlistBuilders then UnauthorizedBuilder
    else SlotVerdict(store, bid, payload)
  }

  /** The verdict of every check but the best-bid one. */
  function Verdict(crypto: Crypto, store: Store, submission: BidSubmission): Outcome {
    var verdict := PayloadVerdict(store, submission.message, submission.executionPayload);
    if verdict != Accepted then verdict else SignatureVerdict(crypto, store.forkData, submission)
  }

  function SignatureVerdict(crypto: Crypto, forkData: ForkDatas, submission: BidSubmission): Outcome {
    if crypto.VerifyBid(submission.message, submission.signature, forkData.builderDomain) then Accepted
    else BadSignature
  }

  /** A submission that would be accepted if it were the only one. */
  predicate Valid(crypto: Crypto, store: Store, submission: BidSubmission) {
    Verdict(crypto, store, submission) == Accepted
  }

  predicate IsHigher(store: Store, submission: BidSubmission) {
    IsBidHigher(submission.message, BestFor(store, submission.message))
  }

  predicate Accepts(crypto: Crypto, store: Store, submission: BidSubmission) {
    IsHigher(store, submission) && Valid(crypto, store, submission)
  }

  /** The key of the duty found for a submission's slot. */
  function DutyKey(store: Store, submission: BidSubmission): PublicKey
    requires FindDuty(store.proposerDuties, submission.message.slot).Some?
  {
    FindDuty(store.proposerDuties, submission.message.slot).value.entry.message.pubkey
  }

  /** The two writes of an accepted submission. */
  function Commit(store: Store, submission: BidSubmission, dutyKey: PublicKey): Store {
    Exec(Exec(store, SetBestBid(submission.message.slot, submission)),
         SetBlindedBlockResponse(dutyKey, submission.ToBlindedBlockResponse()))
  }

  function Submit(crypto: Crypto, store: Store, submission: BidSubmission): Store {
    if Accepts(crypto, store, submission) then Commit(store, submission, DutyKey(store, submission)) else store
  }

  function OutcomeOf(crypto: Crypto, store: Store, submission: BidSubmission): Outcome {
    if IsHigher(store, submission) then Verdict(crypto, store, submission) else BelowBest
  }

  /** The outcome of a gRPC request: like `OutcomeOf`, with the conversions where `submit_block` makes them. */
  function GrpcOutcome(crypto: Crypto, store: Store, request: GrpcRequest, forkData: ForkDatas): Outcome {
    if request.bid.Missing? || request.executionPayload.Missing? || request.blobsBundle.Missing? then MissingField
    else if !request.bid.Present? then Rejection(request.bid)
    else if !IsBidHigher(request.bid.value, BestFor(store, request.bid.value)) then BelowBest
    else if !request.executionPayload.Present? then Rejection(request.executionPayload)
    else
      var verdict := PayloadVerdict(store, request.bid.value, request.executionPayload.value);
      if verdict != Accepted then verdict
      else if !request.signature.Present? then Aborted
      else if !crypto.VerifyBid(request.bid.value, request.signature.value, forkData.builderDomain) then BadSignature
      else if !request.blobsBundle.Present? then Rejection(request.blobsBundle)
      else Accepted
  }

  /** A request that decodes meets the same outcome over gRPC as over HTTP. */
  lemma GrpcOutcomeIsOutcome(crypto: Crypto, store: Store, request: GrpcRequest)
    requires Decoded(request)
    ensures GrpcOutcome(crypto, store, request, store.forkData) == OutcomeOf(crypto, store, DecodedSubmission(request))
  {
  }

  // ----- The machines, run alone

  /** Calls a submission still has ahead of it. */
  function CallsLeft(pc: Pc): nat {
    match pc
    case AtBest => 8
    case AtWhitelist => 7
    case AtHead => 6
    case AtAttributes => 5
    case AtDuty => 4
    case AtForkData(_) => 3
    case AtCommitBid(_) => 2
    case AtCommitPayload(_) => 1
    case Returned(_) => 0
  }

  function GrpcAlone(crypto: Crypto, store: Store, handler: GrpcHandler): (Store, GrpcHandler)
    decreases CallsLeft(handler.pc)
  {
    var call := GrpcCall(handler);
    if call.None? then (store, handler)
    else
      var handler' := GrpcResume(crypto, handler, Answer(store, call.value));
      if CallsLeft(handler'.pc) < CallsLeft(handler.pc) then GrpcAlone(crypto, Exec(store, call.value), handler')
      else (Exec(store, call.value), handler')
  }

  function HttpAlone(crypto: Crypto, store: Store, handler: HttpHandler): (Store, HttpHandler)
    decreases CallsLeft(handler.pc)
  {
    var call := HttpCall(handler);
    if call.None? then (store, handler)
    else
      var handler' := HttpResume(crypto, handler, Answer(store, call.value));
      if CallsLeft(handler'.pc) < CallsLeft(handler.pc) then HttpAlone(crypto, Exec(store, call.value), handler')
      else (Exec(store, call.value), handler')
  }

  /** Run alone, the HTTP handler computes `Submit` and returns `OutcomeOf`. */
  lemma HttpAloneIsSubmit(crypto: Crypto, store: Store, submission: BidSubmission)
    ensures HttpAlone(crypto, store, HttpStart(submission))
         == (Submit(crypto, store, submission), HttpHandler(submission, Returned(OutcomeOf(crypto, store, submission))))
  {
    var h0 := HttpStart(submission);
    var h1 := HttpResume(crypto, h0, Answer(store, HttpCall(h0).value));
    assert HttpAlone(crypto, store, h0) == HttpAlone(crypto, store, h1);
    if h1.pc.AtWhitelist? {
      var h2 := HttpResume(crypto, h1, Answer(store, HttpCall(h1).value));
      assert HttpAlone(crypto, store, h1) == HttpAlone(crypto, store, h2);
      if h2.pc.AtHead? {
        HttpAloneFromHead(crypto, store, submission);
      }
    }
  }

  /** What a run from a later check on yields, given the verdict of the checks that are left. */
  function FinishedHttp(store: Store, submission: BidSubmission, verdict: Outcome): (Store, HttpHandler)
    requires verdict == Accepted ==> FindDuty(store.proposerDuties, submission.message.slot).Some?
  {
    (if verdict == Accepted then Commit(store, submission, DutyKey(store, submission)) else store,
     HttpHandler(submission, Returned(verdict)))
  }

  lemma HttpAloneFromHead(crypto: Crypto, store: Store, submission: BidSubmission)
    ensures var verdict := SlotVerdict(store, submission.message, submission.executionPayload);
            HttpAlone(crypto, store, HttpHandler(submission, AtHead))
            == FinishedHttp(store, submission,
                            if verdict != Accepted then verdict
                            else SignatureVerdict(crypto, store.forkData, submission))
  {
    var h2 := HttpHandler(submission, AtHead);
    var h3 := HttpResume(crypto, h2, Answer(store, HttpCall(h2).value));
    assert HttpAlone(crypto, store, h2) == HttpAlone(crypto, store, h3);
    if h3.pc.AtAttributes? {
      var h4 := HttpResume(crypto, h3, Answer(store, HttpCall(h3).value));
      assert HttpAlone(crypto, store, h3) == HttpAlone(crypto, store, h4);
      if h4.pc.AtDuty? {
        HttpAloneFromDuty(crypto, store, submission);
      }
    }
  }

  lemma HttpAloneFromDuty(crypto: Crypto, store: Store, submission: BidSubmission)
    ensures HttpAlone(crypto, store, HttpHandler(submission, AtDuty))
         == FinishedHttp(store, submission,
                         if FindDuty(store.proposerDuties, submission.message.slot).None? then NoDuty
                         else SignatureVerdict(crypto, store.forkData, submission))
  {
    var h4 := HttpHandler(submission, AtDuty);
    var h5 := HttpResume(crypto, h4, Answer(store, HttpCall(h4).value));
    assert HttpAlone(crypto, store, h4) == HttpAlone(crypto, store, h5);
    if h5.pc.AtForkData? {
      HttpAloneFromForkData(crypto, store, submission, h5.pc.dutyKey);
    }
  }

  lemma HttpAloneFromForkData(crypto: Crypto, store: Store, submission: BidSubmission, key: PublicKey)
    ensures HttpAlone(crypto, store, HttpHandler(submission, AtForkData(key)))
         == if SignatureVerdict(crypto, store.forkData, submission) == Accepted
            then (Commit(store, submission, key), HttpHandler(submission, Returned(Accepted)))
            else (store, HttpHandler(submission, Returned(BadSignature)))
  {
    var h5 := HttpHandler(submission, AtForkData(key));
    var h6 := HttpResume(crypto, h5, Answer(store, HttpCall(h5).value));
    assert HttpAlone(crypto, store, h5) == HttpAlone(crypto, store, h6);
    if h6.pc.AtCommitBid? {
      HttpAloneCommits(crypto, store, submission, key);
    }
  }

  lemma HttpAloneCommits(crypto: Crypto, store: Store, submission: BidSubmission, key: PublicKey)
    ensures HttpAlone(crypto, store, HttpHandler(submission, AtCommitBid(key)))
         == (Commit(store, submission, key), HttpHandler(submission, Returned(Accepted)))
  {
    var h := HttpHandler(submission, AtCommitPayload(key));
    var store' := Exec(store, SetBestBid(submission.message.slot, submission));
    assert HttpAlone(crypto, store, HttpHandler(submission, AtCommitBid(key))) == HttpAlone(crypto, store', h);
    assert HttpAlone(crypto, store', h)
        == HttpAlone(crypto, Commit(store, submission, key), HttpHandler(submission, Returned(Accepted)));
  }

  /** Matched handlers run alone end in the same store with the same outcome. */
  lemma {:induction false} GrpcAloneIsHttpAlone(crypto: Crypto, store: Store, grpc: GrpcHandler, http: HttpHandler)
    requires Matched(grpc, http, store.forkData)
    ensures GrpcAlone(crypto, store, grpc).0 == HttpAlone(crypto, store, http).0
    ensures GrpcAlone(crypto, store, grpc).1.pc == HttpAlone(crypto, store, http).1.pc
    decreases CallsLeft(grpc.pc)
  {
    MatchedStep(crypto, grpc, http, store.forkData, Ack);
    if GrpcCall(grpc).Some? {
      var call := GrpcCall(grpc).value;
      var reply := Answer(store, call);
      var store' := Exec(store, call);
      MatchedStep(crypto, grpc, http, store.forkData, reply);
      HttpAloneStep(crypto, store, http);
      GrpcAloneStep(crypto, store, grpc);
      GrpcAloneIsHttpAlone(crypto, store', GrpcResume(crypto, grpc, reply),
                           HttpResumePastFork(crypto, http, store.forkData, reply));
    }
  }

  lemma GrpcAloneStep(crypto: Crypto, store: Store, grpc: GrpcHandler)
    requires GrpcCall(grpc).Some? && Decoded(grpc.request)
    ensures var call := GrpcCall(grpc).value;
            var grpc' := GrpcResume(crypto, grpc, Answer(store, call));
            && CallsLeft(grpc'.pc) < CallsLeft(grpc.pc)
            && GrpcAlone(crypto, store, grpc) == GrpcAlone(crypto, Exec(store, call), grpc')
  {
  }

  lemma HttpMovesOn(crypto: Crypto, store: Store, http: HttpHandler)
    requires HttpCall(http).Some?
    ensures CallsLeft(HttpResume(crypto, http, Answer(store, HttpCall(http).value)).pc) < CallsLeft(http.pc)
  {
  }

  lemma HttpAloneOnce(crypto: Crypto, store: Store, http: HttpHandler)
    requires HttpCall(http).Some?
    ensures var call := HttpCall(http).value;
            HttpAlone(crypto, store, http)
            == HttpAlone(crypto, Exec(store, call), HttpResume(crypto, http, Answer(store, call)))
  {
    HttpMovesOn(crypto, store, http);
  }

  lemma HttpAloneStep(crypto: Crypto, store: Store, http: HttpHandler)
    requires HttpCall(http).Some? && !http.pc.AtForkData?
    ensures var call := HttpCall(http).value;
            var http' := HttpResumePastFork(crypto, http, store.forkData, Answer(store, call));
            && HttpAlone(crypto, store, http) == HttpAlone(crypto, Exec(store, call), http')
            && Exec(store, call).forkData == store.forkData
  {
    var call := HttpCall(http).value;
    HttpAloneOnce(crypto, store, http);
    HttpAlonePastFork(crypto, Exec(store, call), http, store.forkData, Answer(store, call));
  }

  /** Reading the fork data changes nothing but where the handler stands. */
  lemma HttpAlonePastFork(crypto: Crypto, store: Store, http: HttpHandler, forkData: ForkDatas, reply: Reply)
    requires store.forkData == forkData
    ensures HttpAlone(crypto, store, HttpResume(crypto, http, reply))
         == HttpAlone(crypto, store, HttpResumePastFork(crypto, http, forkData, reply))
  {
    var http' := HttpResume(crypto, http, reply);
    if http'.pc.AtForkData? {
      HttpAloneOnce(crypto, store, http');
    }
  }

  lemma DecodedAlone(crypto: Crypto, store: Store, request: GrpcRequest)
    requires Decoded(request)
    ensures var (store', handler') := GrpcAlone(crypto, store, GrpcStart(request, store.forkData));
            && store' == Submit(crypto, store, DecodedSubmission(request))
            && handler'.pc == Returned(OutcomeOf(crypto, store, DecodedSubmission(request)))
  {
    var submission := DecodedSubmission(request);
    GrpcAloneIsHttpAlone(crypto, store, GrpcStart(request, store.forkData), HttpStart(submission));
    HttpAloneIsSubmit(crypto, store, submission);
  }

  /** A request alone, standing at `pc`. */
  function GrpcAt(request: GrpcRequest, forkData: ForkDatas, pc: Pc): GrpcHandler {
    GrpcHandler(request, forkData, pc)
  }

  /** What is left of a request that does not decode once it has passed the best-bid and value checks. */
  lemma UndecodedFromDuty(crypto: Crypto, store: Store, request: GrpcRequest)
    requires request.bid.Present? && request.executionPayload.Present? && !Decoded(request)
    ensures GrpcAlone(crypto, store, GrpcAt(request, store.forkData, AtDuty))
         == (store, GrpcAt(request, store.forkData,
                           GrpcAfterDuty(crypto, GrpcAt(request, store.forkData, AtDuty), request.bid.value,
                                         FindDuty(store.proposerDuties, request.bid.value.slot))))
  {
    var h4 := GrpcAt(request, store.forkData, AtDuty);
    var h5 := GrpcResume(crypto, h4, Answer(store, GrpcCall(h4).value));
    assert h5.pc.Returned?;
    assert GrpcAlone(crypto, store, h4) == GrpcAlone(crypto, store, h5);
  }

  lemma UndecodedFromHead(crypto: Crypto, store: Store, request: GrpcRequest)
    requires request.bid.Present? && request.executionPayload.Present? && !Decoded(request)
    ensures var (bid, duty) := (request.bid.value, FindDuty(store.proposerDuties, request.bid.value.slot));
            var verdict := SlotVerdict(store, bid, request.executionPayload.value);
            GrpcAlone(crypto, store, GrpcAt(request, store.forkData, AtHead))
            == (store, GrpcAt(request, store.forkData,
                              if verdict != Accepted then Returned(verdict)
                              else GrpcAfterDuty(crypto, GrpcAt(request, store.forkData, AtDuty), bid, duty)))
  {
    var h2 := GrpcAt(request, store.forkData, AtHead);
    var h3 := GrpcResume(crypto, h2, Answer(store, GrpcCall(h2).value));
    assert GrpcAlone(crypto, store, h2) == GrpcAlone(crypto, store, h3);
    if h3.pc.AtAttributes? {
      var h4 := GrpcResume(crypto, h3, Answer(store, GrpcCall(h3).value));
      assert GrpcAlone(crypto, store, h3) == GrpcAlone(crypto, store, h4);
      if h4.pc.AtDuty? {
        UndecodedFromDuty(crypto, store, request);
      }
    }
  }

  /** A request that does not decode changes nothing, and returns at the check or conversion that fails first. */
  lemma UndecodedAlone(crypto: Crypto, store: Store, request: GrpcRequest)
    requires !Decoded(request)
    ensures GrpcAlone(crypto, store, GrpcStart(request, store.forkData))
         == (store, GrpcAt(request, store.forkData, Returned(GrpcOutcome(crypto, store, request, store.forkData))))
  {
    var h0 := GrpcStart(request, store.forkData);
    if h0.pc.AtBest? {
      var h1 := GrpcResume(crypto, h0, Answer(store, GrpcCall(h0).value));
      assert GrpcAlone(crypto, store, h0) == GrpcAlone(crypto, store, h1);
      if h1.pc.AtWhitelist? {
        var h2 := GrpcResume(crypto, h1, Answer(store, GrpcCall(h1).value));
        assert GrpcAlone(crypto, store, h1) == GrpcAlone(crypto, store, h2);
        if h2.pc.AtHead? {
          UndecodedFromHead(crypto, store, request);
        }
      }
    }
  }

  /** Run alone, the gRPC handler computes `Submit` for the requests that decode, and returns `GrpcOutcome` for all. */
  lemma GrpcAloneIsSubmit(crypto: Crypto, store: Store, request: GrpcRequest)
    ensures var (store', handler') := GrpcAlone(crypto, store, GrpcStart(request, store.forkData));
            && store' == (if Decoded(request) then Submit(crypto, store, DecodedSubmission(request)) else store)
            && handler'.pc == Returned(GrpcOutcome(crypto, store, request, store.forkData))
  {
    if Decoded(request) {
      DecodedAlone(crypto, store, request);
      GrpcOutcomeIsOutcome(crypto, store, request);
    } else {
      UndecodedAlone(crypto, store, request);
    }
  }

  // ----- The imperative handlers

  /** The gRPC service: shared storage, and the fork data it was started with. */
  class GrpcRelayService {
    const storage: InMemoryStorage
    const forkData: ForkDatas
    const crypto: Crypto

    constructor (storage: InMemoryStorage, forkData: ForkDatas, crypto: Crypto)
      ensures this.storage == storage && this.forkData == forkData && this.crypto == crypto
    {
      this.storage := storage;
      this.forkData := forkData;
      this.crypto := crypto;
    }

    /** `submit_block`: only a request whose every field decodes can change the storage, and then as `Submit` does. */
    method SubmitBlock(request: GrpcRequest) returns (outcome: Outcome)
      requires forkData == storage.forkData
      modifies storage
      ensures storage.View() == if Decoded(request) then Submit(crypto, old(storage.View()), DecodedSubmission(request))
                                else old(storage.View())
      ensures outcome == GrpcOutcome(crypto, old(storage.View()), request, forkData)
    {
      if request.bid.Missing? || request.executionPayload.Missing? || request.blobsBundle.Missing? {
        return MissingField;
      }
      if !request.bid.Present? {
        return Rejection(request.bid);
      }
      var bid := request.bid.value;
      var higher := IsHigherThanBest(bid);
      if !higher {
        return BelowBest;
      }
      if !request.executionPayload.Present? {
        return Rejection(request.executionPayload);
      }
      var duty: Option<Validator>;
      outcome, duty := ValidateBidAndPayload(bid, request.executionPayload.value);
      if duty.None? {
        return;
      }
      if !request.signature.Present? {
        return Aborted;
      }
      if !crypto.VerifyBid(bid, request.signature.value, forkData.builderDomain) {
        return BadSignature;
      }
      if !request.blobsBundle.Present? {
        return Rejection(request.blobsBundle);
      }
      UpdateBest(DecodedSubmission(request), duty.value.entry.message.pubkey);
      outcome := Accepted;
    }

    method IsHigherThanBest(bid: BidTrace) returns (higher: bool)
      ensures higher == IsBidHigher(bid, BestFor(storage.View(), bid))
    {
      var best := storage.ReadBestBid(bid.slot, bid.parentHash, bid.proposerPubkey);
      higher := IsBidHigher(bid, best);
    }

    /** The checks before the signature; a duty is returned exactly when all of them pass. */
    method ValidateBidAndPayload(bid: BidTrace, payload: ExecutionPayload)
      returns (outcome: Outcome, duty: Option<Validator>)
      ensures outcome == PayloadVerdict(storage.View(), bid, payload)
      ensures duty == if outcome == Accepted then FindDuty(storage.proposerDuties, bid.slot) else None
    {
      duty := None;
      outcome := NoDuty;
      if bid.value == 0 {
        return ZeroValue, None;
      }
      if bid.builderPubkey !in storage.wlistBuilders {
        return UnauthorizedBuilder, None;
      }
      if !IsNextSlot(storage.slot, bid.slot) {
        return PastSlot, None;
      }
      var mismatch := storage.payloadAttributes.ValidateBid(bid.slot, payload.prevRandao);
      if mismatch.Some? {
        return InvalidAttributes(mismatch.value), None;
      }
      duty := storage.FindDutyBySlot(bid.slot);
      outcome := if duty.Some? then Accepted else NoDuty;
    }

    method UpdateBest(submission: BidSubmission, proposerKey: PublicKey)
      modifies storage
      ensures storage.View() == Commit(old(storage.View()), submission, proposerKey)
    {
      storage.SetBestBid(submission.message.slot, submission);
      storage.SetBlindedBlockResponse(proposerKey, submission.ToBlindedBlockResponse());
    }
  }

  /** The HTTP handler `post_bids`, which reads the fork data from storage. */
  method PostBids(crypto: Crypto, storage: InMemoryStorage, submission: BidSubmission) returns (outcome: Outcome)
    modifies storage
    ensures storage.View() == Submit(crypto, old(storage.View()), submission)
    ensures outcome == OutcomeOf(crypto, old(storage.View()), submission)
  {
    var bid := submission.message;
    var best := storage.ReadBestBid(bid.slot, bid.parentHash, bid.proposerPubkey);
    if !IsBidHigher(bid, best) {
      return BelowBest;
    }
    if bid.value == 0 {
      return ZeroValue;
    }
    if bid.builderPubkey !in storage.wlistBuilders {
      return UnauthorizedBuilder;
    }
    if !IsNextSlot(storage.slot, bid.slot) {
      return PastSlot;
    }
    var mismatch := storage.payloadAttributes.ValidateBid(bid.slot, submission.executionPayload.prevRandao);
    if mismatch.Some? {
      return InvalidAttributes(mismatch.value);
    }
    var duty := storage.FindDutyBySlot(bid.slot);
    if duty.None? {
      return NoDuty;
    }
    if !crypto.VerifyBid(bid, submission.signature, storage.forkData.builderDomain) {
      return BadSignature;
    }
    storage.SetBestBid(bid.slot, submission);
    storage.SetBlindedBlockResponse(duty.value.entry.message.pubkey, submission.ToBlindedBlockResponse());
    outcome := Accepted;
  }
}
