/** What a submission has been answered by the time it is about to commit its bid, over either entry point. */
module SubmissionHistory {
  import opened Options
  import opened Types
  import opened Storage
  import opened Submission
  import opened System

  /** The decoded submission a process carries. */
  function SubmissionOf(process: Process): Option<BidSubmission> {
    match process
    case GrpcSubmit(grpc) => if Decoded(grpc.request) then Some(DecodedSubmission(grpc.request)) else None
    case HttpSubmit(http) => Some(http.submission)
    case _ => None
  }

  function PcOf(process: Process): Pc
    requires SubmissionOf(process).Some?
  {
    if process.GrpcSubmit? then process.grpc.pc else process.http.pc
  }

  /** Calls before the first commit: HTTP also reads the fork data. */
  function ChecksOf(process: Process): nat {
    if process.HttpSubmit? then 6 else 5
  }

  // ----- The checks, each with the reply that passes it

  predicate BestPassed(submission: BidSubmission, e: Exchange) {
    var bid := submission.message;
    && e.call == ReadBestBid(bid.slot, bid.parentHash, bid.proposerPubkey)
    && e.reply.BidReply?
    && (e.reply.bid.Some? ==> bid.value > e.reply.bid.value.message.value)
  }

  predicate BuilderPassed(submission: BidSubmission, e: Exchange) {
    e == Exchange(IsWhitelistedBuilder(submission.message.builderPubkey), BoolReply(true))
  }

  predicate HeadPassed(submission: BidSubmission, e: Exchange) {
    && e.call == ReadHeadSlot && e.reply.SlotReply?
    && submission.message.slot == if e.reply.slot == 0xffff_ffff_ffff_ffff then 0 else e.reply.slot + 1
  }

  predicate AttributesPassed(submission: BidSubmission, e: Exchange) {
    && e.call == ReadPayloadAttributes
    && e.reply.AttributesReply?
    && e.reply.attributes.proposalSlot == submission.message.slot
    && e.reply.attributes.prevRandao == submission.executionPayload.prevRandao
  }

  predicate DutyPassed(submission: BidSubmission, e: Exchange) {
    e.call == FindDutyBySlot(submission.message.slot) && e.reply.DutyReply? && e.reply.duty.Some?
  }

  predicate DutyKeyIs(e: Exchange, key: PublicKey) {
    e.reply.DutyReply? && e.reply.duty.Some? && e.reply.duty.value.entry.message.pubkey == key
  }

  /** The first `n` checks were made, in order, and passed. */
  predicate Passed(submission: BidSubmission, history: seq<Exchange>, n: nat) {
    && n <= |history|
    && (n >= 1 ==> BestPassed(submission, history[0]) && submission.message.value > 0)
    && (n >= 2 ==> BuilderPassed(submission, history[1]))
    && (n >= 3 ==> HeadPassed(submission, history[2]))
    && (n >= 4 ==> AttributesPassed(submission, history[3]))
    && (n >= 5 ==> DutyPassed(submission, history[4]))
  }

  /** The signature verifies, under the builder's own key, over the bid's root in a builder domain. */
  predicate Signed(crypto: Crypto, submission: BidSubmission, domain: B256) {
    var bid := submission.message;
    crypto.verify(bid.builderPubkey, crypto.signingRoot(crypto.bidRoot(bid), domain), submission.signature)
  }

  /** The signature verifies under the fork data the process uses: gRPC its own, HTTP the one it read. */
  predicate SignaturePassed(crypto: Crypto, start: Process, submission: BidSubmission, history: seq<Exchange>) {
    match start
    case GrpcSubmit(grpc) => Signed(crypto, submission, grpc.forkData.builderDomain)
    case HttpSubmit(_) =>
      && |history| > 5
      && history[5].call == ReadForkData && history[5].reply.ForkReply?
      && Signed(crypto, submission, history[5].reply.forkData.builderDomain)
    case _ => false
  }

  predicate ReadyToCommit(crypto: Crypto, start: Process, submission: BidSubmission, history: seq<Exchange>,
                          key: PublicKey) {
    && |history| >= ChecksOf(start)
    && Passed(submission, history, 5)
    && DutyKeyIs(history[4], key)
    && SignaturePassed(crypto, start, submission, history)
  }

  /** What the history of a submission says, by where it stands. */
  predicate Explained(crypto: Crypto, start: Process, submission: BidSubmission, pc: Pc, history: seq<Exchange>) {
    match pc
    case AtBest => |history| == 0
    case AtWhitelist => |history| == 1 && Passed(submission, history, 1)
    case AtHead => |history| == 2 && Passed(submission, history, 2)
    case AtAttributes => |history| == 3 && Passed(submission, history, 3)
    case AtDuty => |history| == 4 && Passed(submission, history, 4)
    case AtForkData(key) => |history| == 5 && Passed(submission, history, 5) && DutyKeyIs(history[4], key)
    case AtCommitBid(key) => |history| == ChecksOf(start) && ReadyToCommit(crypto, start, submission, history, key)
    case AtCommitPayload(key) =>
      && |history| == ChecksOf(start) + 1
      && ReadyToCommit(crypto, start, submission, history, key)
      && history[|history| - 1].call == SetBestBid(submission.message.slot, submission)
    case Returned(_) => true
  }

  lemma {:induction false} HistoryExplains(crypto: Crypto, init: Store, start: Process, history: seq<Exchange>)
    requires IsStart(init, start) && SubmissionOf(start).Some?
    requires Follows(crypto, start, history)
    ensures var process := After(crypto, start, history);
            SameSubmission(start, process)
              && Explained(crypto, start, SubmissionOf(start).value, PcOf(process), history)
  {
    if history != [] {
      var n := |history| - 1;
      HistoryExplains(crypto, init, start, history[..n]);
      StepExplained(crypto, start, After(crypto, start, history[..n]), history);
    }
  }

  /** The process is the start, further on: the same entry point, submission and, for gRPC, fork data. */
  predicate SameSubmission(start: Process, process: Process) {
    && SubmissionOf(process) == SubmissionOf(start)
    && process.GrpcSubmit? == start.GrpcSubmit?
    && (process.GrpcSubmit? ==> process.grpc.forkData == start.grpc.forkData)
  }

  lemma StepExplained(crypto: Crypto, start: Process, process: Process, history: seq<Exchange>)
    requires history != [] && SubmissionOf(start).Some? && SameSubmission(start, process)
    requires Explained(crypto, start, SubmissionOf(start).value, PcOf(process), history[..|history| - 1])
    requires process.GrpcSubmit? ==> !process.grpc.pc.AtForkData?
    requires var last := history[|history| - 1]; NextCall(process) == Some(last.call) && Fits(last.call, last.reply)
    ensures var process' := Resume(crypto, process, history[|history| - 1].reply);
            && SameSubmission(start, process')
            && Explained(crypto, start, SubmissionOf(start).value, PcOf(process'), history)
            && (process'.GrpcSubmit? ==> !process'.grpc.pc.AtForkData?)
  {
    var submission := SubmissionOf(start).value;
    if start.GrpcSubmit? {
      GrpcStepExplained(crypto, start, submission, process.grpc, history);
    } else {
      HttpStepExplained(crypto, start, submission, process.http, history);
    }
  }

  lemma PassedExtends(submission: BidSubmission, history: seq<Exchange>, n: nat)
    requires history != [] && Passed(submission, history[..|history| - 1], n)
    ensures Passed(submission, history, n)
  {
    forall k | 0 <= k < n
      ensures history[..|history| - 1][k] == history[k]
    {
    }
  }

  lemma GrpcStepExplained(crypto: Crypto, start: Process, submission: BidSubmission, grpc: GrpcHandler,
                          history: seq<Exchange>)
    requires history != [] && start.GrpcSubmit?
    requires Decoded(grpc.request) && DecodedSubmission(grpc.request) == submission
    requires grpc.forkData == start.grpc.forkData
    requires Explained(crypto, start, submission, grpc.pc, history[..|history| - 1])
    requires !grpc.pc.AtForkData?
    requires var last := history[|history| - 1]; GrpcCall(grpc) == Some(last.call) && Fits(last.call, last.reply)
    ensures var pc := GrpcResume(crypto, grpc, history[|history| - 1].reply).pc;
            Explained(crypto, start, submission, pc, history) && !pc.AtForkData?
  {
    PassedByPc(crypto, start, submission, grpc.pc, history);
  }

  /** The checks passed so far, carried over to the history with one more exchange. */
  lemma PassedByPc(crypto: Crypto, start: Process, submission: BidSubmission, pc: Pc, history: seq<Exchange>)
    requires history != [] && Explained(crypto, start, submission, pc, history[..|history| - 1])
    ensures !pc.Returned? ==> Passed(submission, history, if |history| <= 6 then |history| - 1 else 5)
    ensures pc.AtForkData? ==> DutyKeyIs(history[4], pc.dutyKey)
    ensures pc.AtCommitBid? ==> ReadyToCommit(crypto, start, submission, history, pc.dutyKey)
    ensures pc.AtCommitPayload? ==> ReadyToCommit(crypto, start, submission, history, pc.dutyKey)
  {
    if !pc.Returned? {
      PassedExtends(submission, history, if |history| <= 6 then |history| - 1 else 5);
    }
  }

  lemma HttpStepExplained(crypto: Crypto, start: Process, submission: BidSubmission, http: HttpHandler,
                          history: seq<Exchange>)
    requires history != [] && start.HttpSubmit? && http.submission == submission
    requires Explained(crypto, start, submission, http.pc, history[..|history| - 1])
    requires var last := history[|history| - 1]; HttpCall(http) == Some(last.call) && Fits(last.call, last.reply)
    ensures Explained(crypto, start, submission, HttpResume(crypto, http, history[|history| - 1].reply).pc, history)
  {
    PassedByPc(crypto, start, submission, http.pc, history);
  }

  /** A process about to set a best bid is a submission that has passed every check, in order. */
  lemma CommitIsChecked(crypto: Crypto, init: Store, start: Process, history: seq<Exchange>, slot: u64,
                        bid: BidSubmission)
    requires IsStart(init, start) && Follows(crypto, start, history)
    requires NextCall(After(crypto, start, history)) == Some(SetBestBid(slot, bid))
    ensures SubmissionOf(start) == Some(bid) && slot == bid.message.slot
    ensures |history| == ChecksOf(start)
    ensures Passed(bid, history, 5) && SignaturePassed(crypto, start, bid, history)
  {
    KindIsKept(crypto, start, history);
    HistoryExplains(crypto, init, start, history);
  }

  /** A process about to set a payload has just set the best bid of the same submission, under the same duty's key. */
  lemma PayloadFollowsBid(crypto: Crypto, init: Store, start: Process, history: seq<Exchange>, key: PublicKey,
                          response: BlindedBlockResponse)
    requires IsStart(init, start) && Follows(crypto, start, history)
    requires NextCall(After(crypto, start, history)) == Some(SetBlindedBlockResponse(key, response))
    ensures SubmissionOf(start).Some? && response == SubmissionOf(start).value.ToBlindedBlockResponse()
    ensures |history| == ChecksOf(start) + 1
    ensures Passed(SubmissionOf(start).value, history, 5) && DutyKeyIs(history[4], key)
    ensures var submission := SubmissionOf(start).value;
            history[|history| - 1].call == SetBestBid(submission.message.slot, submission)
  {
    KindIsKept(crypto, start, history);
    HistoryExplains(crypto, init, start, history);
  }

  /** The kind of a process and its request never change. */
  lemma {:induction false} KindIsKept(crypto: Crypto, start: Process, history: seq<Exchange>)
    ensures var process := After(crypto, start, history);
            && process.GrpcSubmit? == start.GrpcSubmit? && process.HttpSubmit? == start.HttpSubmit?
            && process.FetchHeader? == start.FetchHeader? && process.UnblindBlock? == start.UnblindBlock?
            && process.RegisterBatch? == start.RegisterBatch? && process.RefreshEpoch? == start.RefreshEpoch?
            && SubmissionOf(process) == SubmissionOf(start)
  {
    if history != [] {
      KindIsKept(crypto, start, history[..|history| - 1]);
    }
  }
}
