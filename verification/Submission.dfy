/**
The two bid entry points: the gRPC `submit_block` and the HTTP `post_bids`.  Each is a machine that issues one storage
call at a time (`GrpcCall`/`HttpCall`) and moves on with the reply (`GrpcResume`/`HttpResume`), so that other handlers
may run between any two of its calls.
 */
module Submission {
  import opened Options
  import opened Types
  import opened Storage

  /** How a field of a protobuf request decodes: absent, rejected, aborting the handler, or usable. */
  datatype Field<+T> = Missing | Malformed | Unparsable | Present(value: T)

  datatype GrpcRequest = GrpcRequest(
    bid: Field<BidTrace>,
    executionPayload: Field<ExecutionPayload>,
    blobsBundle: Field<BlobsBundle>,
    signature: Field<Signature>)

  datatype Outcome =
    | Accepted
    | BelowBest
    | ZeroValue
    | UnauthorizedBuilder
    | PastSlot
    | InvalidAttributes(error: ValidationError)
    | NoDuty
    | BadSignature
    | MissingField
    | BadConversion
    | Aborted

  /** Where a submission stands: about to issue a call, or returned. */
  datatype Pc =
    | AtBest
    | AtWhitelist
    | AtHead
    | AtAttributes
    | AtDuty
    | AtForkData(dutyKey: PublicKey)
    | AtCommitBid(dutyKey: PublicKey)
    | AtCommitPayload(dutyKey: PublicKey)
    | Returned(outcome: Outcome)

  datatype GrpcHandler = GrpcHandler(request: GrpcRequest, forkData: ForkDatas, pc: Pc)
  datatype HttpHandler = HttpHandler(submission: BidSubmission, pc: Pc)

  /** `is_bid_higher`: bids compare by value alone, and only a strictly greater one is higher. */
  predicate IsBidHigher(bid: BidTrace, best: Option<BidSubmission>) {
    best.Some? ==> bid.value > best.value.message.value
  }

  // ----- gRPC

  /** A request as it arrives: a missing field or a bid that does not decode returns before any storage call. */
  function GrpcStart(request: GrpcRequest, forkData: ForkDatas): GrpcHandler {
    var pc :=
      if request.bid.Missing? || request.executionPayload.Missing? || request.blobsBundle.Missing?
      then Returned(MissingField)
      else if request.bid.Malformed? then Returned(BadConversion)
      else if request.bid.Unparsable? then Returned(Aborted)
      else AtBest;
    GrpcHandler(request, forkData, pc)
  }

  /** The submission a request carries, once every field has decoded. */
  predicate Decoded(request: GrpcRequest) {
    && request.bid.Present? && request.executionPayload.Present?
    && request.blobsBundle.Present? && request.signature.Present?
  }

  function DecodedSubmission(request: GrpcRequest): BidSubmission
    requires Decoded(request)
  {
    BidSubmission(request.bid.value, request.executionPayload.value, request.blobsBundle.value, request.signature.value)
  }

  function GrpcCall(handler: GrpcHandler): Option<Call> {
    if !handler.request.bid.Present? then None
    else
      var bid := handler.request.bid.value;
      match handler.pc
      case AtBest => Some(ReadBestBid(bid.slot, bid.parentHash, bid.proposerPubkey))
      case AtWhitelist => Some(IsWhitelistedBuilder(bid.builderPubkey))
      case AtHead => Some(ReadHeadSlot)
      case AtAttributes => Some(ReadPayloadAttributes)
      case AtDuty => Some(FindDutyBySlot(bid.slot))
      case AtCommitBid(_) =>
        if Decoded(handler.request) then Some(SetBestBid(bid.slot, DecodedSubmission(handler.request))) else None
      case AtCommitPayload(key) =>
        if Decoded(handler.request)
        then Some(SetBlindedBlockResponse(key, DecodedSubmission(handler.request).ToBlindedBlockResponse())) else None
      case _ => None
  }

  function GrpcResume(crypto: Crypto, handler: GrpcHandler, reply: Reply): GrpcHandler {
    if !handler.request.bid.Present? then handler
    else
      var bid := handler.request.bid.value;
      match (handler.pc, reply)
      case (AtBest, BidReply(best)) =>
        handler.(pc :=
                   if !IsBidHigher(bid, best) then Returned(BelowBest)
                   else if !handler.request.executionPayload.Present?
                     then Returned(Rejection(handler.request.executionPayload))
                   else if bid.value == 0 then Returned(ZeroValue)
                   else AtWhitelist)
      case (AtWhitelist, BoolReply(listed)) => handler.(pc := if listed then AtHead else Returned(UnauthorizedBuilder))
      case (AtHead, SlotReply(head)) =>
        handler.(pc := if IsNextSlot(head, bid.slot) then AtAttributes else Returned(PastSlot))
      case (AtAttributes, AttributesReply(attributes)) =>
        if !handler.request.executionPayload.Present? then handler
        else
          var mismatch := attributes.ValidateBid(bid.slot, handler.request.executionPayload.value.prevRandao);
          handler.(pc := if mismatch.Some? then Returned(InvalidAttributes(mismatch.value)) else AtDuty)
      case (AtDuty, DutyReply(duty)) => handler.(pc := GrpcAfterDuty(crypto, handler, bid, duty))
      case (AtCommitBid(key), Ack) => handler.(pc := AtCommitPayload(key))
      case (AtCommitPayload(_), Ack) => handler.(pc := Returned(Accepted))
      case _ => handler
  }

  /** The signature check, against the fork data given at start-up, and the last conversion. */
  function GrpcAfterDuty(crypto: Crypto, handler: GrpcHandler, bid: BidTrace, duty: Option<Validator>): Pc {
    if duty.None? then Returned(NoDuty)
    else if !handler.request.signature.Present? then Returned(Aborted)
    else if !crypto.VerifyBid(bid, handler.request.signature.value, handler.forkData.builderDomain)
      then Returned(BadSignature)
    else if !handler.request.blobsBundle.Present? then Returned(Rejection(handler.request.blobsBundle))
    else AtCommitBid(duty.value.entry.message.pubkey)
  }

  function Rejection<T>(field: Field<T>): Outcome {
    if field.Unparsable? then Aborted else BadConversion
  }

  // ----- HTTP

  function HttpStart(submission: BidSubmission): HttpHandler {
    HttpHandler(submission, AtBest)
  }

  function HttpCall(handler: HttpHandler): Option<Call> {
    var bid := handler.submission.message;
    match handler.pc
    case AtBest => Some(ReadBestBid(bid.slot, bid.parentHash, bid.proposerPubkey))
    case AtWhitelist => Some(IsWhitelistedBuilder(bid.builderPubkey))
    case AtHead => Some(ReadHeadSlot)
    case AtAttributes => Some(ReadPayloadAttributes)
    case AtDuty => Some(FindDutyBySlot(bid.slot))
    case AtForkData(_) => Some(ReadForkData)
    case AtCommitBid(_) => Some(SetBestBid(bid.slot, handler.submission))
    case AtCommitPayload(key) => Some(SetBlindedBlockResponse(key, handler.submission.ToBlindedBlockResponse()))
    case Returned(_) => None
  }

  function HttpResume(crypto: Crypto, handler: HttpHandler, reply: Reply): HttpHandler {
    var bid := handler.submission.message;
    match (handler.pc, reply)
    case (AtBest, BidReply(best)) =>
      handler.(pc :=
                 if !IsBidHigher(bid, best) then Returned(BelowBest)
                 else if bid.value == 0 then Returned(ZeroValue)
                 else AtWhitelist)
    case (AtWhitelist, BoolReply(listed)) => handler.(pc := if listed then AtHead else Returned(UnauthorizedBuilder))
    case (AtHead, SlotReply(head)) =>
      handler.(pc := if IsNextSlot(head, bid.slot) then AtAttributes else Returned(PastSlot))
    case (AtAttributes, AttributesReply(attributes)) =>
      var mismatch := attributes.ValidateBid(bid.slot, handler.submission.executionPayload.prevRandao);
      handler.(pc := if mismatch.Some? then Returned(InvalidAttributes(mismatch.value)) else AtDuty)
    case (AtDuty, DutyReply(duty)) =>
      handler.(pc := if duty.Some? then AtForkData(duty.value.entry.message.pubkey) else Returned(NoDuty))
    case (AtForkData(key), ForkReply(forkData)) =>
      var verified := crypto.VerifyBid(bid, handler.submission.signature, forkData.builderDomain);
      handler.(pc := if verified then AtCommitBid(key) else Returned(BadSignature))
    case (AtCommitBid(key), Ack) => handler.(pc := AtCommitPayload(key))
    case (AtCommitPayload(_), Ack) => handler.(pc := Returned(Accepted))
    case _ => handler
  }

  // ----- The entry points simulate each other

  /** What a handler did with a sequence of replies: the calls it issued and, if it returned, its outcome. */
  datatype Trace = Trace(calls: seq<Call>, outcome: Option<Outcome>)

  function GrpcTrace(crypto: Crypto, handler: GrpcHandler, replies: seq<Reply>): Trace
    decreases |replies|
  {
    var call := GrpcCall(handler);
    if call.None? then Trace([], if handler.pc.Returned? then Some(handler.pc.outcome) else None)
    else if replies == [] then Trace([call.value], None)
    else
      var rest := GrpcTrace(crypto, GrpcResume(crypto, handler, replies[0]), replies[1..]);
      Trace([call.value] + rest.calls, rest.outcome)
  }

  /** The HTTP trace: reading the fork data, which never changes, is answered with `forkData` and left out. */
  function HttpTrace(crypto: Crypto, handler: HttpHandler, forkData: ForkDatas, replies: seq<Reply>): Trace
    decreases |replies|, if handler.pc.AtForkData? then 1 else 0
  {
    var call := HttpCall(handler);
    if call.None? then Trace([], if handler.pc.Returned? then Some(handler.pc.outcome) else None)
    else if call.value.ReadForkData?
      then HttpTrace(crypto, HttpResume(crypto, handler, ForkReply(forkData)), forkData, replies)
    else if replies == [] then Trace([call.value], None)
    else
      var rest := HttpTrace(crypto, HttpResume(crypto, handler, replies[0]), forkData, replies[1..]);
      Trace([call.value] + rest.calls, rest.outcome)
  }

  /** The two handlers stand at the same point with the same submission. */
  ghost predicate Matched(grpc: GrpcHandler, http: HttpHandler, forkData: ForkDatas) {
    && Decoded(grpc.request)
    && DecodedSubmission(grpc.request) == http.submission
    && grpc.forkData == forkData
    && grpc.pc == http.pc
    && !grpc.pc.AtForkData?
  }

  /** The HTTP handler after a reply, and after reading the fork data if that is its next call. */
  function HttpResumePastFork(crypto: Crypto, http: HttpHandler, forkData: ForkDatas, reply: Reply): HttpHandler {
    var http' := HttpResume(crypto, http, reply);
    if http'.pc.AtForkData? then HttpResume(crypto, http', ForkReply(forkData)) else http'
  }

  /** The same reply takes matched handlers, which issue the same call, to matched handlers. */
  lemma MatchedStep(crypto: Crypto, grpc: GrpcHandler, http: HttpHandler, forkData: ForkDatas, reply: Reply)
    requires Matched(grpc, http, forkData)
    ensures GrpcCall(grpc) == HttpCall(http)
    ensures Matched(GrpcResume(crypto, grpc, reply), HttpResumePastFork(crypto, http, forkData, reply), forkData)
  {
    assert GrpcCall(grpc) == HttpCall(http);
    match grpc.pc {
      case AtBest =>
      case AtWhitelist =>
      case AtHead =>
      case AtAttributes =>
      case AtDuty =>
      case AtCommitBid(_) =>
      case AtCommitPayload(_) =>
      case Returned(_) =>
    }
  }

  lemma {:induction false} MatchedTracesAgree(crypto: Crypto, grpc: GrpcHandler, http: HttpHandler, forkData: ForkDatas,
                                              replies: seq<Reply>)
    requires Matched(grpc, http, forkData)
    ensures GrpcTrace(crypto, grpc, replies) == HttpTrace(crypto, http, forkData, replies)
    decreases |replies|
  {
    MatchedStep(crypto, grpc, http, forkData, Ack);
    if GrpcCall(grpc).Some? && replies != [] {
      MatchedStep(crypto, grpc, http, forkData, replies[0]);
      var grpc' := GrpcResume(crypto, grpc, replies[0]);
      var http' := HttpResumePastFork(crypto, http, forkData, replies[0]);
      assert HttpTrace(crypto, HttpResume(crypto, http, replies[0]), forkData, replies[1..])
          == HttpTrace(crypto, http', forkData, replies[1..]);
      MatchedTracesAgree(crypto, grpc', http', forkData, replies[1..]);
    }
  }

  /**
  For the same decoded submission and fork data, the two entry points issue the same storage calls (up to reading the
  fork data), whatever the storage answers, and return at the same point with the same outcome.
   */
  lemma EntryPointsSimulate(crypto: Crypto, request: GrpcRequest, forkData: ForkDatas, replies: seq<Reply>)
    requires Decoded(request)
    ensures GrpcTrace(crypto, GrpcStart(request, forkData), replies)
         == HttpTrace(crypto, HttpStart(DecodedSubmission(request)), forkData, replies)
  {
    MatchedTracesAgree(crypto, GrpcStart(request, forkData), HttpStart(DecodedSubmission(request)), forkData, replies);
  }
}
