/**
What survives when submissions are interleaved at every storage call: the maps are folds of the write log, every stored
bid was checked in order, and a bid is replaced by one that is not higher only through the check-then-act window.
 */
module InterleavedAuction {
  import opened Options
  import opened Types
  import opened Storage
  import opened Submission
  import opened System
  import opened SubmissionHistory

  // ----- The maps are last-write folds of the log

  predicate WritesKey(entry: Entry, key: SlotHashKey) {
    && entry.call.SetBestBid?
    && SlotHashKey(entry.call.slot, entry.call.bid.message.parentHash, entry.call.bid.message.proposerPubkey) == key
  }

  predicate WritesBlock(entry: Entry, number: u64) {
    entry.call.SetBestBid? && entry.call.bid.executionPayload.blockNumber == number
  }

  predicate WritesPayload(entry: Entry, proposer: PublicKey) {
    entry.call.SetBlindedBlockResponse? && entry.call.proposer == proposer
  }

  /** The last entry that writes a key of the bid map. */
  function LastBid(log: seq<Entry>, key: SlotHashKey): (last: Option<nat>)
    ensures last.Some? ==> last.value < |log| && WritesKey(log[last.value], key)
    ensures forall i :: 0 <= i < |log| && WritesKey(log[i], key) ==> last.Some? && i <= last.value
  {
    if log == [] then None
    else if WritesKey(log[|log| - 1], key) then Some(|log| - 1)
    else LastBid(log[..|log| - 1], key)
  }

  function LastForBlock(log: seq<Entry>, number: u64): (last: Option<nat>)
    ensures last.Some? ==> last.value < |log| && WritesBlock(log[last.value], number)
    ensures forall i :: 0 <= i < |log| && WritesBlock(log[i], number) ==> last.Some? && i <= last.value
  {
    if log == [] then None
    else if WritesBlock(log[|log| - 1], number) then Some(|log| - 1)
    else LastForBlock(log[..|log| - 1], number)
  }

  function LastPayload(log: seq<Entry>, proposer: PublicKey): (last: Option<nat>)
    ensures last.Some? ==> last.value < |log| && WritesPayload(log[last.value], proposer)
    ensures forall i :: 0 <= i < |log| && WritesPayload(log[i], proposer) ==> last.Some? && i <= last.value
  {
    if log == [] then None
    else if WritesPayload(log[|log| - 1], proposer) then Some(|log| - 1)
    else LastPayload(log[..|log| - 1], proposer)
  }

  function BidWritten(log: seq<Entry>, last: Option<nat>): Option<BidSubmission>
    requires last.Some? ==> last.value < |log| && log[last.value].call.SetBestBid?
  {
    if last.Some? then Some(log[last.value].call.bid) else None
  }

  function PayloadWritten(log: seq<Entry>, last: Option<nat>): Option<BlindedBlockResponse>
    requires last.Some? ==> last.value < |log| && log[last.value].call.SetBlindedBlockResponse?
  {
    if last.Some? then Some(log[last.value].call.response) else None
  }

  lemma {:induction false} BidMapIsFold(init: Store, log: seq<Entry>, key: SlotHashKey)
    requires Fresh(init)
    ensures Lookup(StoreAfter(init, log).bestBidPerSlot, key) == BidWritten(log, LastBid(log, key))
  {
    if log != [] {
      var n := |log| - 1;
      BidMapIsFold(init, log[..n], key);
      if !log[n].call.SetBestBid? {
        OnlySetBestBidWritesBids(StoreAfter(init, log[..n]), log[n].call);
      }
    }
  }

  lemma {:induction false} BlockMapIsFold(init: Store, log: seq<Entry>, number: u64)
    requires Fresh(init)
    ensures Lookup(StoreAfter(init, log).bestBidByBlockNumber, number) == BidWritten(log, LastForBlock(log, number))
  {
    if log != [] {
      var n := |log| - 1;
      BlockMapIsFold(init, log[..n], number);
      if !log[n].call.SetBestBid? {
        OnlySetBestBidWritesBids(StoreAfter(init, log[..n]), log[n].call);
      }
    }
  }

  lemma {:induction false} PayloadMapIsFold(init: Store, log: seq<Entry>, proposer: PublicKey)
    requires Fresh(init)
    ensures Lookup(StoreAfter(init, log).blindedBlockResp, proposer) == PayloadWritten(log, LastPayload(log, proposer))
  {
    if log != [] {
      var n := |log| - 1;
      PayloadMapIsFold(init, log[..n], proposer);
      if !log[n].call.SetBlindedBlockResponse? {
        OnlySetResponseWritesPayloads(StoreAfter(init, log[..n]), log[n].call);
      }
    }
  }

  lemma {:induction false} BySlotStaysEmpty(init: Store, log: seq<Entry>)
    requires Fresh(init)
    ensures StoreAfter(init, log).bestBidBySlot == map[]
  {
    if log != [] {
      var n := |log| - 1;
      BySlotStaysEmpty(init, log[..n]);
      NothingWritesBySlot(StoreAfter(init, log[..n]), log[n].call);
    }
  }

  lemma OnlySetBestBidWritesBids(store: Store, call: Call)
    requires !call.SetBestBid?
    ensures Exec(store, call).bestBidPerSlot == store.bestBidPerSlot
    ensures Exec(store, call).bestBidByBlockNumber == store.bestBidByBlockNumber
  {
  }

  lemma OnlySetResponseWritesPayloads(store: Store, call: Call)
    requires !call.SetBlindedBlockResponse?
    ensures Exec(store, call).blindedBlockResp == store.blindedBlockResp
  {
  }

  lemma NothingWritesBySlot(store: Store, call: Call)
    ensures Exec(store, call).bestBidBySlot == store.bestBidBySlot
  {
  }

  // ----- Commits and their checks

  /** Entry `j` commits a bid: everything its process was answered before. */
  lemma CommitEntry(crypto: Crypto, init: Store, starts: map<nat, Process>, log: seq<Entry>, j: nat)
    requires IsRun(crypto, init, starts, log) && j < |log| && log[j].call.SetBestBid?
    ensures log[j].tid in starts
    ensures var (start, history, bid) := (starts[log[j].tid], Own(log[..j], log[j].tid), log[j].call.bid);
            && log[j].call.slot == bid.message.slot
            && |history| == ChecksOf(start)
            && Passed(bid, history, 5)
            && SignaturePassed(crypto, start, bid, history)
            && IsStart(init, start)
  {
    assert EntryFits(crypto, init, starts, log, j);
    var tid := log[j].tid;
    RunPrefix(crypto, init, starts, log, j);
    OwnFollows(crypto, init, starts, log[..j], tid);
    CommitIsChecked(crypto, init, starts[tid], Own(log[..j], tid), log[j].call.slot, log[j].call.bid);
  }

  predicate IsUnder(bid: BidTrace, key: SlotHashKey) {
    key.slot == bid.slot && key.hash == bid.parentHash && key.validator == bid.proposerPubkey
  }

  /** The bid map and the block map hold each bid under its own key and block number. */
  lemma KeysAgreeWithContents(crypto: Crypto, init: Store, starts: map<nat, Process>, log: seq<Entry>,
                              key: SlotHashKey, number: u64)
    requires Fresh(init) && IsRun(crypto, init, starts, log)
    ensures var store := StoreAfter(init, log);
            && (key in store.bestBidPerSlot ==> IsUnder(store.bestBidPerSlot[key].message, key))
            && (number in store.bestBidByBlockNumber ==>
                  store.bestBidByBlockNumber[number].executionPayload.blockNumber == number)
  {
    BidMapIsFold(init, log, key);
    BlockMapIsFold(init, log, number);
    var last := LastBid(log, key);
    if last.Some? {
      CommitEntry(crypto, init, starts, log, last.value);
    }
  }

  // ----- The data API

  /** `get_bids`: the by-slot index first, then the by-block-number index. */
  function GetBids(store: Store, slot: Option<u64>, blockNumber: Option<u64>): seq<BidSubmission> {
    if slot.Some? && slot.value in store.bestBidBySlot then [store.bestBidBySlot[slot.value]]
    else if blockNumber.Some? && blockNumber.value in store.bestBidByBlockNumber
    then [store.bestBidByBlockNumber[blockNumber.value]]
    else []
  }

  /** In every run a query answers its block-number lookup alone: the last bid committed for the block, if any. */
  lemma QueriesIgnoreSlot(crypto: Crypto, init: Store, starts: map<nat, Process>, log: seq<Entry>, slot: Option<u64>,
                          blockNumber: Option<u64>)
    requires Fresh(init) && IsRun(crypto, init, starts, log)
    ensures GetBids(StoreAfter(init, log), slot, blockNumber)
         == if blockNumber.None? then []
            else var bid := BidWritten(log, LastForBlock(log, blockNumber.value));
                 if bid.Some? then [bid.value] else []
  {
    BySlotStaysEmpty(init, log);
    if blockNumber.Some? {
      BlockMapIsFold(init, log, blockNumber.value);
    }
  }

  // ----- Every stored bid was checked in order

  predicate ValueAbove(value: nat, best: Option<BidSubmission>) {
    best.Some? ==> value > best.value.message.value
  }

  /** Entries `a` to `e` are the five checks of the process of entry `j`, in order, each passing in the store it saw. */
  ghost predicate CheckedInOrder(init: Store, log: seq<Entry>, a: nat, b: nat, c: nat, d: nat, e: nat, j: nat)
    requires j < |log| && log[j].call.SetBestBid?
  {
    var bid, tid := log[j].call.bid, log[j].tid;
    && a < b < c < d < e < j
    && log[a].tid == log[b].tid == log[c].tid == log[d].tid == log[e].tid == tid
    && ValueAbove(bid.message.value, Lookup(StoreAfter(init, log[..a]).bestBidPerSlot, KeyOf(bid.message)))
    && bid.message.builderPubkey in StoreAfter(init, log[..b]).wlistBuilders
    && (var head := StoreAfter(init, log[..c]).slot;
        bid.message.slot == if head == 0xffff_ffff_ffff_ffff then 0 else head + 1)
    && StoreAfter(init, log[..d]).payloadAttributes.proposalSlot == bid.message.slot
    && StoreAfter(init, log[..d]).payloadAttributes.prevRandao == bid.executionPayload.prevRandao
    && FindDuty(StoreAfter(init, log[..e]).proposerDuties, bid.message.slot).Some?
  }

  ghost predicate WasChecked(init: Store, log: seq<Entry>, j: nat)
    requires j < |log| && log[j].call.SetBestBid?
  {
    exists a, b, c, d, e :: CheckedInOrder(init, log, a, b, c, d, e, j)
  }

  lemma CommitsAreChecked(crypto: Crypto, init: Store, starts: map<nat, Process>, log: seq<Entry>, j: nat)
    requires IsRun(crypto, init, starts, log) && j < |log| && log[j].call.SetBestBid?
    ensures WasChecked(init, log, j)
    ensures var bid := log[j].call.bid;
            && bid.message.value > 0
            && bid.message.builderPubkey in init.wlistBuilders
            && Signed(crypto, bid, init.forkData.builderDomain)
  {
    CommitEntry(crypto, init, starts, log, j);
    ChecksAreOrdered(crypto, init, starts, log, j);
    SignatureVerifies(crypto, init, starts, log, j);
    BuilderIsListed(crypto, init, starts, log, j);
  }

  /** The whitelist the builder was found in is that of the start. */
  lemma BuilderIsListed(crypto: Crypto, init: Store, starts: map<nat, Process>, log: seq<Entry>, j: nat)
    requires IsRun(crypto, init, starts, log) && j < |log| && log[j].call.SetBestBid?
    requires Passed(log[j].call.bid, Own(log[..j], log[j].tid), 2)
    ensures log[j].call.bid.message.builderPubkey in init.wlistBuilders
  {
    var b := EarlierExchange(crypto, init, starts, log, log[j].tid, j, 1);
    ForkDataIsConstant(init, log[..b]);
  }

  /** The fork data the signature was checked against is that of the start, over either entry point. */
  lemma SignatureVerifies(crypto: Crypto, init: Store, starts: map<nat, Process>, log: seq<Entry>, j: nat)
    requires IsRun(crypto, init, starts, log) && j < |log| && log[j].tid in starts
    requires log[j].call.SetBestBid? && IsStart(init, starts[log[j].tid])
    requires SignaturePassed(crypto, starts[log[j].tid], log[j].call.bid, Own(log[..j], log[j].tid))
    ensures var bid := log[j].call.bid; Signed(crypto, bid, init.forkData.builderDomain)
  {
    if starts[log[j].tid].HttpSubmit? {
      var f := EarlierExchange(crypto, init, starts, log, log[j].tid, j, 5);
      ForkDataIsConstant(init, log[..f]);
    }
  }

  lemma ChecksAreOrdered(crypto: Crypto, init: Store, starts: map<nat, Process>, log: seq<Entry>, j: nat)
    requires IsRun(crypto, init, starts, log) && j < |log| && log[j].call.SetBestBid?
    requires Passed(log[j].call.bid, Own(log[..j], log[j].tid), 5)
    ensures WasChecked(init, log, j)
  {
    var tid := log[j].tid;
    var a, b, c, d, e := FirstFive(crypto, init, starts, log, tid, j);
    var history := Own(log[..j], tid);
    assert history[0].call == log[a].call && history[1].call == log[b].call;
    assert CheckedInOrder(init, log, a, b, c, d, e, j);
  }

  /** Entry `i` is exchange `x` of process `tid`. */
  ghost predicate IsExchange(init: Store, log: seq<Entry>, tid: nat, i: nat, x: Exchange)
    requires i < |log|
  {
    log[i].tid == tid && x == Exchange(log[i].call, Answer(StoreAfter(init, log[..i]), log[i].call))
  }

  /** The entries of the first five exchanges a process had before entry `j`. */
  lemma FirstFive(crypto: Crypto, init: Store, starts: map<nat, Process>, log: seq<Entry>, tid: nat, j: nat)
    returns (a: nat, b: nat, c: nat, d: nat, e: nat)
    requires IsRun(crypto, init, starts, log) && j <= |log|
    requires |Own(log[..j], tid)| >= 5
    ensures a < b < c < d < e < j
    ensures var history := Own(log[..j], tid);
            && IsExchange(init, log, tid, a, history[0]) && IsExchange(init, log, tid, b, history[1])
            && IsExchange(init, log, tid, c, history[2]) && IsExchange(init, log, tid, d, history[3])
            && IsExchange(init, log, tid, e, history[4])
  {
    e := EarlierExchange(crypto, init, starts, log, tid, j, 4);
    d := EarlierExchange(crypto, init, starts, log, tid, e, 3);
    c := EarlierExchange(crypto, init, starts, log, tid, d, 2);
    b := EarlierExchange(crypto, init, starts, log, tid, c, 1);
    a := EarlierExchange(crypto, init, starts, log, tid, b, 0);
  }

  /** The log entry of the k-th exchange a process had before entry `j`, with the store that answered it. */
  lemma EarlierExchange(crypto: Crypto, init: Store, starts: map<nat, Process>, log: seq<Entry>, tid: nat, j: nat,
                        k: nat)
    returns (i: nat)
    requires IsRun(crypto, init, starts, log) && j <= |log|
    requires k < |Own(log[..j], tid)|
    ensures i < j && log[i].tid == tid
    ensures Own(log[..j], tid)[k] == Exchange(log[i].call, Answer(StoreAfter(init, log[..i]), log[i].call))
    ensures Own(log[..i], tid) == Own(log[..j], tid)[..k]
  {
    i := OwnIndex(log[..j], tid, k);
    assert log[..j][..i] == log[..i];
    assert EntryFits(crypto, init, starts, log, i);
  }

  /** In every run each stored bid has a value, a listed builder and a verifying signature, and was checked in order. */
  lemma StoredBidsAreChecked(crypto: Crypto, init: Store, starts: map<nat, Process>, log: seq<Entry>, key: SlotHashKey)
    requires Fresh(init) && IsRun(crypto, init, starts, log)
    requires key in StoreAfter(init, log).bestBidPerSlot
    ensures var bid, last := StoreAfter(init, log).bestBidPerSlot[key], LastBid(log, key);
            && bid.message.value > 0
            && bid.message.builderPubkey in init.wlistBuilders
            && Signed(crypto, bid, init.forkData.builderDomain)
            && last.Some? && log[last.value].call == SetBestBid(key.slot, bid)
            && WasChecked(init, log, last.value)
  {
    BidMapIsFold(init, log, key);
    CommitsAreChecked(crypto, init, starts, log, LastBid(log, key).value);
  }

  // ----- Check-then-act

  /** Entry `c` is the best-bid check of the process that commits at entry `j`. */
  ghost predicate ChecksFor(log: seq<Entry>, c: int, j: int) {
    && 0 <= c < j < |log|
    && log[j].call.SetBestBid?
    && log[c].tid == log[j].tid
    && var bid := log[j].call.bid.message; log[c].call == ReadBestBid(bid.slot, bid.parentHash, bid.proposerPubkey)
  }

  lemma LastBidPrefix(log: seq<Entry>, key: SlotHashKey, c: nat, j: nat)
    requires c <= j <= |log|
    requires var last := LastBid(log[..j], key); last.Some? ==> last.value < c
    ensures LastBid(log[..c], key) == LastBid(log[..j], key)
  {
    var last, last' := LastBid(log[..j], key), LastBid(log[..c], key);
    if last.Some? {
      assert WritesKey(log[..c][last.value], key);
    }
    if last'.Some? {
      assert WritesKey(log[..j][last'.value], key);
    }
  }

  // The check of a commit is the first entry of its process, and the only best-bid check it makes.

  /** The first entry of a process. */
  function FirstOf(log: seq<Entry>, tid: nat): (first: Option<nat>)
    ensures first.Some? ==> first.value < |log| && log[first.value].tid == tid
    ensures forall i :: 0 <= i < |log| && log[i].tid == tid ==> first.Some? && first.value <= i
  {
    if log == [] then None
    else
      var first := FirstOf(log[..|log| - 1], tid);
      if first.Some? then first
      else if log[|log| - 1].tid == tid then Some(|log| - 1)
      else None
  }

  /** The best-bid check of the commit at entry `j`. */
  function CheckOf(log: seq<Entry>, j: nat): nat
    requires j < |log|
  {
    FirstOf(log, log[j].tid).value
  }

  /** An entry of a process stands in its history where its earlier entries end. */
  lemma {:induction false} OwnPosition(log: seq<Entry>, tid: nat, c: nat)
    requires c < |log| && log[c].tid == tid
    ensures |Own(log[..c], tid)| < |Own(log, tid)|
    ensures Own(log, tid)[|Own(log[..c], tid)|] == Exchange(log[c].call, log[c].reply)
  {
    var n := |log| - 1;
    if c < n {
      OwnPosition(log[..n], tid, c);
      assert log[..n][..c] == log[..c];
    }
  }

  /** A process whose history is empty before an entry of its has that entry as its first. */
  lemma EmptyHistoryIsFirst(log: seq<Entry>, c: nat)
    requires c < |log| && Own(log[..c], log[c].tid) == []
    ensures FirstOf(log, log[c].tid) == Some(c)
  {
    var first := FirstOf(log, log[c].tid).value;
    if first < c {
      OwnPosition(log[..c], log[c].tid, first);
    }
  }

  /** The check of a commit, with the store it saw. */
  lemma CommitHasCheck(crypto: Crypto, init: Store, starts: map<nat, Process>, log: seq<Entry>, j: nat)
    requires IsRun(crypto, init, starts, log) && j < |log| && log[j].call.SetBestBid?
    ensures ChecksFor(log, CheckOf(log, j), j)
    ensures var bid := log[j].call.bid.message;
            IsBidHigher(bid, Lookup(StoreAfter(init, log[..CheckOf(log, j)]).bestBidPerSlot, KeyOf(bid)))
  {
    CommitEntry(crypto, init, starts, log, j);
    var c := EarlierExchange(crypto, init, starts, log, log[j].tid, j, 0);
    EmptyHistoryIsFirst(log, c);
  }

  lemma CheckIsUnique(crypto: Crypto, init: Store, starts: map<nat, Process>, log: seq<Entry>, c: nat, j: nat)
    requires IsRun(crypto, init, starts, log) && j < |log| && ChecksFor(log, c, j)
    ensures c == CheckOf(log, j)
  {
    CommitEntry(crypto, init, starts, log, j);
    OwnPosition(log[..j], log[j].tid, c);
    assert log[..j][..c] == log[..c];
    var history, k := Own(log[..j], log[j].tid), |Own(log[..c], log[j].tid)|;
    assert k != 1 && k != 2 && k != 3 && k != 4 && k != 5;
    EmptyHistoryIsFirst(log, c);
  }

  /**
  A commit replaces a stored bid of equal or greater value only if that bid was itself committed after the committing
  submission's own best-bid check, which is the only one it makes.
   */
  lemma ReplacementFollowsCheck(crypto: Crypto, init: Store, starts: map<nat, Process>, log: seq<Entry>, j: nat)
    requires Fresh(init) && IsRun(crypto, init, starts, log)
    requires j < |log| && log[j].call.SetBestBid?
    ensures var (bid, check) := (log[j].call.bid.message, CheckOf(log, j));
            var last := LastBid(log[..j], KeyOf(bid));
            && ChecksFor(log, check, j)
            && (forall c :: ChecksFor(log, c, j) ==> c == check)
            && (!IsBidHigher(bid, Lookup(StoreAfter(init, log[..j]).bestBidPerSlot, KeyOf(bid))) ==>
                  last.Some? && check < last.value)
  {
    var bid := log[j].call.bid.message;
    var key := KeyOf(bid);
    var c := CheckOf(log, j);
    CommitHasCheck(crypto, init, starts, log, j);
    forall c' | ChecksFor(log, c', j)
      ensures c' == c
    {
      CheckIsUnique(crypto, init, starts, log, c', j);
    }
    var last := LastBid(log[..j], key);
    BidMapIsFold(init, log[..j], key);
    BidMapIsFold(init, log[..c], key);
    if last.None? || last.value < c {
      LastBidPrefix(log, key, c, j);
    }
  }

  /** The commit at entry `i` has a smaller value than the one at entry `j`. */
  predicate Below(log: seq<Entry>, key: SlotHashKey, i: int, j: int)
    requires 0 <= i < |log| && 0 <= j < |log| && WritesKey(log[i], key) && WritesKey(log[j], key)
  {
    log[i].call.bid.message.value < log[j].call.bid.message.value
  }

  /** Every commit for the key stores a strictly greater value than those before it. */
  ghost predicate ValuesIncrease(log: seq<Entry>, key: SlotHashKey) {
    forall i, j :: 0 <= i < j < |log| && WritesKey(log[i], key) && WritesKey(log[j], key) ==> Below(log, key, i, j)
  }

  /** ... or at least than those that fall between its own best-bid check and itself. */
  ghost predicate WindowsIncrease(log: seq<Entry>, key: SlotHashKey) {
    forall i, j :: 0 <= i < j < |log| && WritesKey(log[i], key) && WritesKey(log[j], key) && CheckOf(log, j) < i
                   ==> Below(log, key, i, j)
  }

  /** A commit is above the last one for its key, by its check or by its window. */
  lemma AboveLast(crypto: Crypto, init: Store, starts: map<nat, Process>, log: seq<Entry>, key: SlotHashKey, j: nat)
    requires Fresh(init) && IsRun(crypto, init, starts, log) && WindowsIncrease(log, key)
    requires j < |log| && WritesKey(log[j], key) && LastBid(log[..j], key).Some?
    ensures Below(log, key, LastBid(log[..j], key).value, j)
  {
    CommitEntry(crypto, init, starts, log, j);
    CommitHasCheck(crypto, init, starts, log, j);
    var last, c := LastBid(log[..j], key).value, CheckOf(log, j);
    assert WritesKey(log[last], key);
    if last < c {
      LastBidPrefix(log, key, c, j);
      BidMapIsFold(init, log[..c], key);
    }
  }

  lemma {:induction false} AboveEarlier(crypto: Crypto, init: Store, starts: map<nat, Process>, log: seq<Entry>,
                                        key: SlotHashKey, i: nat, j: nat)
    requires Fresh(init) && IsRun(crypto, init, starts, log) && WindowsIncrease(log, key)
    requires i < j < |log| && WritesKey(log[i], key) && WritesKey(log[j], key)
    ensures Below(log, key, i, j)
    decreases j
  {
    assert WritesKey(log[..j][i], key);
    var last := LastBid(log[..j], key).value;
    assert WritesKey(log[last], key);
    AboveLast(crypto, init, starts, log, key, j);
    if i < last {
      AboveEarlier(crypto, init, starts, log, key, i, last);
    }
  }

  /**
  In every run, the values committed for a key strictly increase exactly when every commit is above those that fall
  between its own best-bid check and itself.
   */
  lemma ValuesIncreaseExactly(crypto: Crypto, init: Store, starts: map<nat, Process>, log: seq<Entry>, key: SlotHashKey)
    requires Fresh(init) && IsRun(crypto, init, starts, log)
    ensures ValuesIncrease(log, key) <==> WindowsIncrease(log, key)
  {
    if WindowsIncrease(log, key) {
      forall i, j | 0 <= i < j < |log| && WritesKey(log[i], key) && WritesKey(log[j], key)
        ensures Below(log, key, i, j)
      {
        AboveEarlier(crypto, init, starts, log, key, i, j);
      }
    }
  }

  /** No commit for the key falls between a commit's best-bid check and the commit itself. */
  ghost predicate WindowsDisjoint(log: seq<Entry>, key: SlotHashKey) {
    forall i, j :: 0 <= i < j < |log| && WritesKey(log[i], key) && WritesKey(log[j], key) ==> i <= CheckOf(log, j)
  }

  /** In particular they do where the check-to-commit windows of the key do not overlap. */
  lemma ValuesStrictlyIncrease(crypto: Crypto, init: Store, starts: map<nat, Process>, log: seq<Entry>,
                               key: SlotHashKey)
    requires Fresh(init) && IsRun(crypto, init, starts, log) && WindowsDisjoint(log, key)
    ensures ValuesIncrease(log, key)
  {
    ValuesIncreaseExactly(crypto, init, starts, log, key);
  }

  // ----- Entries after the head has reached their slot

  /** The head slot never goes back and stays below the last 64-bit slot. */
  ghost predicate HeadsAdvance(init: Store, log: seq<Entry>) {
    forall a, b :: 0 <= a <= b <= |log| ==> HeadAdvances(init, log, a, b)
  }

  ghost predicate HeadAdvances(init: Store, log: seq<Entry>, a: nat, b: nat)
    requires a <= b <= |log|
  {
    StoreAfter(init, log[..a]).slot <= StoreAfter(init, log[..b]).slot < MAX_U64
  }

  /** Entry `c` is the head check of the process that commits at entry `j`: it read the slot before the bid's. */
  ghost predicate HeadCheckOf(init: Store, log: seq<Entry>, c: int, j: int) {
    && 0 <= c < j < |log|
    && log[j].call.SetBestBid?
    && log[c].tid == log[j].tid && log[c].call == ReadHeadSlot
    && |Own(log[..c], log[c].tid)| == 2
    && IsNextSlot(StoreAfter(init, log[..c]).slot, log[j].call.bid.message.slot)
  }

  lemma CommitHasHeadCheck(crypto: Crypto, init: Store, starts: map<nat, Process>, log: seq<Entry>, j: nat)
    returns (c: nat)
    requires IsRun(crypto, init, starts, log) && j < |log| && log[j].call.SetBestBid?
    ensures HeadCheckOf(init, log, c, j)
  {
    CommitEntry(crypto, init, starts, log, j);
    c := EarlierExchange(crypto, init, starts, log, log[j].tid, j, 2);
  }

  /** Once the head has reached a key's slot, only a commit whose head check came before can still be made for it. */
  lemma LateCommitCheckedEarly(crypto: Crypto, init: Store, starts: map<nat, Process>, log: seq<Entry>,
                               key: SlotHashKey, n: nat, j: nat)
    requires IsRun(crypto, init, starts, log) && HeadsAdvance(init, log)
    requires n <= j < |log| && key.slot <= StoreAfter(init, log[..n]).slot && WritesKey(log[j], key)
    ensures exists c :: c < n && HeadCheckOf(init, log, c, j)
  {
    CommitEntry(crypto, init, starts, log, j);
    var c := CommitHasHeadCheck(crypto, init, starts, log, j);
    assert HeadAdvances(init, log, c, c);
    LowerHeadIsEarlier(init, log, c, n);
  }

  lemma LowerHeadIsEarlier(init: Store, log: seq<Entry>, c: nat, n: nat)
    requires HeadsAdvance(init, log) && c <= |log| && n <= |log|
    ensures StoreAfter(init, log[..c]).slot < StoreAfter(init, log[..n]).slot ==> c < n
  {
    if n <= c {
      assert HeadAdvances(init, log, n, c);
    }
  }

  /**
  In every run in which heads do not go back, the entry of a key whose slot the head has reached after `n` entries is
  frozen for the rest of the run, unless a commit is made for it later whose head check came before.
   */
  lemma EntryFreezesInRun(crypto: Crypto, init: Store, starts: map<nat, Process>, log: seq<Entry>, key: SlotHashKey,
                          n: nat)
    requires Fresh(init) && IsRun(crypto, init, starts, log) && HeadsAdvance(init, log)
    requires n <= |log| && key.slot <= StoreAfter(init, log[..n]).slot
    ensures || Lookup(StoreAfter(init, log).bestBidPerSlot, key)
               == Lookup(StoreAfter(init, log[..n]).bestBidPerSlot, key)
            || exists c, j :: c < n <= j && HeadCheckOf(init, log, c, j) && WritesKey(log[j], key)
  {
    var last := LastBid(log, key);
    assert log[..|log|] == log;
    BidMapIsFold(init, log, key);
    BidMapIsFold(init, log[..n], key);
    if last.None? || last.value < n {
      LastBidPrefix(log, key, n, |log|);
    } else {
      LateCommitCheckedEarly(crypto, init, starts, log, key, n, last.value);
      var c :| c < n && HeadCheckOf(init, log, c, last.value);
    }
  }
}
