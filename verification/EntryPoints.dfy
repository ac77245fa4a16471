/**
The two bid entry points among other handlers: a run with a gRPC submission is turned into one with the HTTP submission
in its place, which differs by the one entry that reads the fork data.
 */
module EntryPoints {
  import opened Options
  import opened Types
  import opened Storage
  import opened Submission
  import opened System

  function HttpFor(request: GrpcRequest): Process
    requires Decoded(request)
  {
    HttpSubmit(HttpStart(DecodedSubmission(request)))
  }

  /** The entry after which the HTTP submission reads the fork data: a duty found for process `tid`. */
  predicate FindsDuty(entry: Entry, tid: nat) {
    entry.tid == tid && entry.call.FindDutyBySlot? && entry.reply.DutyReply? && entry.reply.duty.Some?
  }

  function ForkEntry(tid: nat, forkData: ForkDatas): Entry {
    Entry(tid, ReadForkData, ForkReply(forkData))
  }

  /** The log with the fork data read by process `tid` as soon as its duty is found. */
  function WithForkData(log: seq<Entry>, tid: nat, forkData: ForkDatas): seq<Entry> {
    if log == [] then []
    else
      var last := log[|log| - 1];
      var front := WithForkData(log[..|log| - 1], tid, forkData) + [last];
      if FindsDuty(last, tid) then front + [ForkEntry(tid, forkData)] else front
  }

  /** Process `tid` is a gRPC submission of a request that decodes, as it starts. */
  predicate IsGrpc(init: Store, starts: map<nat, Process>, tid: nat, request: GrpcRequest) {
    Decoded(request) && tid in starts && starts[tid] == GrpcSubmit(GrpcStart(request, init.forkData))
  }

  /** Where the submission of process `tid` stands after a log, and where the HTTP submission stands after another. */
  ghost predicate SamePoint(crypto: Crypto, starts: map<nat, Process>, tid: nat, request: GrpcRequest,
                            log: seq<Entry>, log': seq<Entry>, forkData: ForkDatas)
    requires tid in starts && Decoded(request)
  {
    var grpc, http := After(crypto, starts[tid], Own(log, tid)), After(crypto, HttpFor(request), Own(log', tid));
    grpc.GrpcSubmit? && http.HttpSubmit? && Matched(grpc.grpc, http.http, forkData)
  }

  /** The other processes have the same histories in both logs. */
  ghost predicate SameOthers(starts: map<nat, Process>, tid: nat, log: seq<Entry>, log': seq<Entry>) {
    forall t :: t in starts && t != tid ==> SameHistory(log, log', t)
  }

  predicate SameHistory(log: seq<Entry>, log': seq<Entry>, t: nat) {
    Own(log', t) == Own(log, t)
  }

  /** What the two logs have in common. */
  ghost predicate Corresponds(crypto: Crypto, init: Store, starts: map<nat, Process>, tid: nat, request: GrpcRequest,
                              log: seq<Entry>, log': seq<Entry>)
    requires tid in starts && Decoded(request)
  {
    && IsRun(crypto, init, starts[tid := HttpFor(request)], log')
    && StoreAfter(init, log') == StoreAfter(init, log)
    && SameOthers(starts, tid, log, log')
    && SamePoint(crypto, starts, tid, request, log, log', init.forkData)
  }

  lemma OwnExtends(log: seq<Entry>, entry: Entry, t: nat)
    ensures Own(log + [entry], t)
         == Own(log, t) + if entry.tid == t then [Exchange(entry.call, entry.reply)] else []
  {
    assert (log + [entry])[..|log|] == log;
  }

  lemma StoreExtends(init: Store, log: seq<Entry>, entry: Entry)
    ensures StoreAfter(init, log + [entry]) == Exec(StoreAfter(init, log), entry.call)
  {
    assert (log + [entry])[..|log|] == log;
  }

  lemma HistoryExtends(log: seq<Entry>, log': seq<Entry>, entry: Entry, t: nat)
    requires SameHistory(log, log', t)
    ensures SameHistory(log + [entry], log' + [entry], t)
  {
    OwnExtends(log, entry, t);
    OwnExtends(log', entry, t);
  }

  lemma OthersExtend(starts: map<nat, Process>, tid: nat, log: seq<Entry>, log': seq<Entry>, entry: Entry)
    requires SameOthers(starts, tid, log, log')
    ensures SameOthers(starts, tid, log + [entry], log' + [entry])
  {
    forall t | t in starts && t != tid
      ensures SameHistory(log + [entry], log' + [entry], t)
    {
      HistoryExtends(log, log', entry, t);
    }
  }

  /** An entry of another process fits both logs. */
  lemma OtherEntry(crypto: Crypto, init: Store, starts: map<nat, Process>, tid: nat, request: GrpcRequest,
                   log: seq<Entry>, log': seq<Entry>, entry: Entry)
    requires tid in starts && Decoded(request) && Corresponds(crypto, init, starts, tid, request, log, log')
    requires entry.tid in starts && entry.tid != tid
    requires NextCall(After(crypto, starts[entry.tid], Own(log, entry.tid))) == Some(entry.call)
    requires entry.reply == Answer(StoreAfter(init, log), entry.call)
    ensures Corresponds(crypto, init, starts, tid, request, log + [entry], log' + [entry])
  {
    assert SameHistory(log, log', entry.tid);
    RunExtends(crypto, init, starts[tid := HttpFor(request)], log', entry);
    OthersExtend(starts, tid, log, log', entry);
    StoreExtends(init, log, entry);
    HistoryStays(log, entry, tid);
    HistoryStays(log', entry, tid);
  }

  lemma HistoryStays(log: seq<Entry>, entry: Entry, t: nat)
    requires entry.tid != t
    ensures Own(log + [entry], t) == Own(log, t)
  {
    OwnExtends(log, entry, t);
    assert Own(log, t) + [] == Own(log, t);
  }

  /** The submission after one more of its own entries. */
  lemma OwnEntryResumes(crypto: Crypto, start: Process, log: seq<Entry>, entry: Entry)
    ensures After(crypto, start, Own(log + [entry], entry.tid))
         == Resume(crypto, After(crypto, start, Own(log, entry.tid)), entry.reply)
  {
    OwnExtends(log, entry, entry.tid);
    AfterExtends(crypto, start, Own(log, entry.tid), Exchange(entry.call, entry.reply));
  }

  /** The HTTP submission stands before reading the fork data exactly after its duty has been found. */
  lemma ForkDataFollowsDuty(crypto: Crypto, grpc: GrpcHandler, http: HttpHandler, forkData: ForkDatas, call: Call,
                            reply: Reply)
    requires Matched(grpc, http, forkData) && GrpcCall(grpc) == Some(call) && Fits(call, reply)
    ensures HttpResume(crypto, http, reply).pc.AtForkData? <==> call.FindDutyBySlot? && reply.duty.Some?
  {
  }

  /** Where both submissions stand after the same reply, the HTTP one perhaps before reading the fork data. */
  ghost predicate OneStep(crypto: Crypto, starts: map<nat, Process>, tid: nat, request: GrpcRequest, log: seq<Entry>,
                          log': seq<Entry>, grpc: GrpcHandler, http: HttpHandler, reply: Reply)
    requires tid in starts && Decoded(request)
  {
    && After(crypto, starts[tid], Own(log, tid)) == GrpcSubmit(GrpcResume(crypto, grpc, reply))
    && After(crypto, HttpFor(request), Own(log', tid)) == HttpSubmit(HttpResume(crypto, http, reply))
  }

  /** An entry of the submission itself: the HTTP submission issues the same call. */
  lemma OwnEntry(crypto: Crypto, init: Store, starts: map<nat, Process>, tid: nat, request: GrpcRequest,
                 log: seq<Entry>, log': seq<Entry>, entry: Entry)
    returns (grpc: GrpcHandler, http: HttpHandler)
    requires tid in starts && Decoded(request) && Corresponds(crypto, init, starts, tid, request, log, log')
    requires entry.tid == tid
    requires NextCall(After(crypto, starts[tid], Own(log, tid))) == Some(entry.call)
    requires entry.reply == Answer(StoreAfter(init, log), entry.call)
    ensures Matched(grpc, http, init.forkData) && GrpcCall(grpc) == Some(entry.call)
    ensures OneStep(crypto, starts, tid, request, log + [entry], log' + [entry], grpc, http, entry.reply)
    ensures IsRun(crypto, init, starts[tid := HttpFor(request)], log' + [entry])
    ensures StoreAfter(init, log' + [entry]) == StoreAfter(init, log + [entry])
    ensures SameOthers(starts, tid, log + [entry], log' + [entry])
  {
    grpc := After(crypto, starts[tid], Own(log, tid)).grpc;
    http := After(crypto, HttpFor(request), Own(log', tid)).http;
    MatchedStep(crypto, grpc, http, init.forkData, entry.reply);
    RunExtends(crypto, init, starts[tid := HttpFor(request)], log', entry);
    OwnEntryResumes(crypto, starts[tid], log, entry);
    OwnEntryResumes(crypto, HttpFor(request), log', entry);
    OthersExtend(starts, tid, log, log', entry);
    StoreExtends(init, log, entry);
  }

  lemma AnswersFit(store: Store, call: Call)
    ensures Fits(call, Answer(store, call))
  {
  }

  /** Reading the fork data fits the log and changes nothing ... */
  lemma ForkDataFits(crypto: Crypto, init: Store, starts: map<nat, Process>, log: seq<Entry>, tid: nat,
                     http: HttpHandler)
    requires IsRun(crypto, init, starts, log) && tid in starts
    requires After(crypto, starts[tid], Own(log, tid)) == HttpSubmit(http) && http.pc.AtForkData?
    ensures IsRun(crypto, init, starts, log + [ForkEntry(tid, init.forkData)])
    ensures StoreAfter(init, log + [ForkEntry(tid, init.forkData)]) == StoreAfter(init, log)
  {
    ForkDataIsConstant(init, log);
    RunExtends(crypto, init, starts, log, ForkEntry(tid, init.forkData));
  }

  lemma ForkDataLeavesOthers(starts: map<nat, Process>, tid: nat, log: seq<Entry>, log': seq<Entry>, entry: Entry)
    requires SameOthers(starts, tid, log, log') && entry.tid == tid
    ensures SameOthers(starts, tid, log, log' + [entry])
  {
    forall t | t in starts && t != tid
      ensures SameHistory(log, log' + [entry], t)
    {
      assert SameHistory(log, log', t);
      HistoryStays(log', entry, t);
    }
  }

  /** ... and brings the HTTP submission level again. */
  lemma ForkDataRead(crypto: Crypto, init: Store, starts: map<nat, Process>, tid: nat, request: GrpcRequest,
                     log: seq<Entry>, log': seq<Entry>, grpc: GrpcHandler, http: HttpHandler, reply: Reply)
    requires tid in starts && Decoded(request)
    requires IsRun(crypto, init, starts[tid := HttpFor(request)], log')
    requires StoreAfter(init, log') == StoreAfter(init, log) && SameOthers(starts, tid, log, log')
    requires Matched(grpc, http, init.forkData) && OneStep(crypto, starts, tid, request, log, log', grpc, http, reply)
    requires HttpResume(crypto, http, reply).pc.AtForkData?
    ensures Corresponds(crypto, init, starts, tid, request, log, log' + [ForkEntry(tid, init.forkData)])
  {
    var entry := ForkEntry(tid, init.forkData);
    ForkDataFits(crypto, init, starts[tid := HttpFor(request)], log', tid, HttpResume(crypto, http, reply));
    ForkDataLeavesOthers(starts, tid, log, log', entry);
    OwnEntryResumes(crypto, HttpFor(request), log', entry);
    MatchedStep(crypto, grpc, http, init.forkData, reply);
  }

  lemma EntryCorresponds(crypto: Crypto, init: Store, starts: map<nat, Process>, tid: nat, request: GrpcRequest,
                         log: seq<Entry>, log': seq<Entry>, entry: Entry)
    requires tid in starts && Decoded(request) && Corresponds(crypto, init, starts, tid, request, log, log')
    requires entry.tid == tid
    requires NextCall(After(crypto, starts[tid], Own(log, tid))) == Some(entry.call)
    requires entry.reply == Answer(StoreAfter(init, log), entry.call)
    ensures var log'' := if FindsDuty(entry, tid) then (log' + [entry]) + [ForkEntry(tid, init.forkData)]
                         else log' + [entry];
            Corresponds(crypto, init, starts, tid, request, log + [entry], log'')
  {
    var grpc, http := OwnEntry(crypto, init, starts, tid, request, log, log', entry);
    AnswersFit(StoreAfter(init, log), entry.call);
    ForkDataFollowsDuty(crypto, grpc, http, init.forkData, entry.call, entry.reply);
    if FindsDuty(entry, tid) {
      ForkDataRead(crypto, init, starts, tid, request, log + [entry], log' + [entry], grpc, http, entry.reply);
    } else {
      MatchedStep(crypto, grpc, http, init.forkData, entry.reply);
    }
  }

  lemma StartCorresponds(crypto: Crypto, init: Store, starts: map<nat, Process>, tid: nat, request: GrpcRequest)
    requires IsRun(crypto, init, starts, []) && IsGrpc(init, starts, tid, request)
    ensures Corresponds(crypto, init, starts, tid, request, [], [])
  {
  }

  /** One more entry of the run, whoever issues it. */
  lemma OneMoreEntry(crypto: Crypto, init: Store, starts: map<nat, Process>, tid: nat, request: GrpcRequest,
                     log: seq<Entry>, log': seq<Entry>, entry: Entry)
    requires tid in starts && Decoded(request) && Corresponds(crypto, init, starts, tid, request, log, log')
    requires entry.tid in starts
    requires NextCall(After(crypto, starts[entry.tid], Own(log, entry.tid))) == Some(entry.call)
    requires entry.reply == Answer(StoreAfter(init, log), entry.call)
    ensures var log'' := if FindsDuty(entry, tid) then (log' + [entry]) + [ForkEntry(tid, init.forkData)]
                         else log' + [entry];
            Corresponds(crypto, init, starts, tid, request, log + [entry], log'')
  {
    if entry.tid == tid {
      EntryCorresponds(crypto, init, starts, tid, request, log, log', entry);
    } else {
      OtherEntry(crypto, init, starts, tid, request, log, log', entry);
    }
  }

  /**
  Whatever the other handlers do: a run with a gRPC submission that decodes, with the HTTP submission put in its place
  and one entry inserted in which it reads the fork data, is a run.  It leaves the same storage, gives every other
  handler the same replies, and the submission stands at the same point, so with the same outcome if it has returned.
   */
  lemma {:induction false} EntryPointsInterchange(crypto: Crypto, init: Store, starts: map<nat, Process>,
                                                  log: seq<Entry>, tid: nat, request: GrpcRequest)
    requires IsRun(crypto, init, starts, log) && IsGrpc(init, starts, tid, request)
    ensures Corresponds(crypto, init, starts, tid, request, log, WithForkData(log, tid, init.forkData))
  {
    if log == [] {
      StartCorresponds(crypto, init, starts, tid, request);
    } else {
      var n := |log| - 1;
      RunPrefix(crypto, init, starts, log, n);
      EntryPointsInterchange(crypto, init, starts, log[..n], tid, request);
      assert EntryFits(crypto, init, starts, log, n);
      OneMoreEntry(crypto, init, starts, tid, request, log[..n], WithForkData(log[..n], tid, init.forkData), log[n]);
      assert log == log[..n] + [log[n]];
    }
  }
}
