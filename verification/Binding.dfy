/**
What a root commits to: messages of the same root are the same message, or the hash collides at a pair that is named by
descending their trees.
 */
module Binding {
  import opened Types
  import opened Merkle
  import opened MerkleLoops
  import opened Ssz
  import opened RootTrees
  import opened Decode

  // ----- Numbers, addresses and byte vectors

  lemma {:induction false} PowersGrow(m: nat, n: nat)
    requires m <= n
    ensures Pow256(m) <= Pow256(n)
    decreases n
  {
    if m < n {
      PowersGrow(m, n - 1);
    }
  }

  /** 64-bit numbers, and so the lengths of lists within their limits, fit 32 bytes. */
  lemma SmallNumbersFit(x: u64)
    ensures x < Pow256(32)
  {
    assert Pow256(2) == 0x1_0000;
    assert Pow256(4) == 0x1_0000_0000;
    assert Pow256(6) == 0x1_0000_0000_0000;
    assert Pow256(8) == 0x1_0000_0000_0000_0000;
    PowersGrow(8, 32);
  }

  /** Numbers of 32 bytes are told apart by their roots. */
  lemma NumberRootsDiffer(x: nat, y: nat)
    requires x < Pow256(32) && y < Pow256(32)
    ensures NumberRoot(x) == NumberRoot(y) <==> x == y
  {
    BigEndianInverts(x, 32);
    BigEndianInverts(y, 32);
  }

  lemma SmallRootsDiffer(x: u64, y: u64)
    ensures NumberRoot(x) == NumberRoot(y) <==> x == y
  {
    SmallNumbersFit(x);
    SmallNumbersFit(y);
    NumberRootsDiffer(x, y);
  }

  lemma AddressRootsDiffer(a: Address, b: Address)
    requires |a.bytes| == |b.bytes| == 20
    ensures AddressRoot(a) == AddressRoot(b) <==> a == b
  {
    AddressIsPadded(a);
    AddressIsPadded(b);
  }

  lemma ChunksDiffer(x: Bytes, y: Bytes)
    requires |x| == |y|
    ensures Chunks(x) == Chunks(y) <==> x == y
  {
    ChunksArePacked(x);
    ChunksArePacked(y);
    if Chunks(x) == Chunks(y) {
      forall i | 0 <= i < |x|
        ensures x[i] == y[i]
      {
        assert x[i] == ByteAt(Chunks(x), i) == y[i];
      }
    }
  }

  /** Vectors of more than one chunk and of the same root, followed down to where their trees differ. */
  function VectorCollision(hash: Hash2, x: Bytes, y: Bytes, limit: nat): Collision<B256>
    requires |x| == |y| && DivCeil(|x|, 32) <= Capacity(limit) && limit > 1
  {
    FindCollision(Sha(hash), Chunks(x), Chunks(y), Depth(limit))
  }

  lemma VectorRootBinds(hash: Hash2, x: Bytes, y: Bytes, limit: nat)
    requires |x| == |y| && DivCeil(|x|, 32) <= Capacity(limit) && limit > 1
    requires VectorRoot(hash, x, limit) == VectorRoot(hash, y, limit)
    ensures x == y || Collides(Sha(hash), VectorCollision(hash, x, y, limit))
  {
    ChunksDiffer(x, y);
    if x != y {
      EqualRootsCollide(Sha(hash), Chunks(x), Chunks(y), Depth(limit));
    }
  }

  /** Different fields of containers of the same root, followed down to where their trees differ. */
  function FieldsCollision(hash: Hash2, xs: seq<B256>, ys: seq<B256>): Collision<B256>
    requires |xs| == |ys| > 1
  {
    FindCollision(Sha(hash), xs, ys, Depth(|xs|))
  }

  /** Containers of the same fields but some have different roots, unless the hash collides. */
  lemma ContainerRootBinds(hash: Hash2, xs: seq<B256>, ys: seq<B256>)
    requires |xs| == |ys| > 1 && ContainerRoot(hash, xs) == ContainerRoot(hash, ys)
    ensures xs == ys || Collides(Sha(hash), FieldsCollision(hash, xs, ys))
  {
    if xs != ys {
      EqualRootsCollide(Sha(hash), xs, ys, Depth(|xs|));
    }
  }

  // ----- Signed roots

  /** Domain separation: a signing root commits to the object's root and to the domain. */
  lemma SigningRootBinds(hash: Hash2, r: B256, d: B256, r': B256, d': B256)
    requires SigningRoot(hash, r, d) == SigningRoot(hash, r', d')
    ensures (r == r' && d == d') || Collides(Sha(hash), Collision(Pair(r, d), Pair(r', d')))
  {
    SigningRootIsHash(hash, r, d);
    SigningRootIsHash(hash, r', d');
  }

  // ----- Bid traces

  /** The bounds that the types of a bid's fields impose. */
  predicate ProperBid(b: BidTrace) {
    && |b.builderPubkey.bytes| == 48 && |b.proposerPubkey.bytes| == 48 && |b.proposerFeeRecipient.bytes| == 20
    && b.value < Pow256(32)
  }

  function BidCollision(hash: Hash2, a: BidTrace, b: BidTrace): Collision<B256>
    requires ProperBid(a) && ProperBid(b)
  {
    var xs, ys := BidLeaves(hash, a), BidLeaves(hash, b);
    if xs != ys then FieldsCollision(hash, xs, ys)
    else if a.builderPubkey != b.builderPubkey
    then VectorCollision(hash, a.builderPubkey.bytes, b.builderPubkey.bytes, 2)
    else VectorCollision(hash, a.proposerPubkey.bytes, b.proposerPubkey.bytes, 2)
  }

  /** Bids of the same leaves differ at most in their keys. */
  lemma BidFieldsBind(hash: Hash2, a: BidTrace, b: BidTrace)
    requires ProperBid(a) && ProperBid(b) && BidLeaves(hash, a) == BidLeaves(hash, b)
    ensures a == b.(builderPubkey := a.builderPubkey, proposerPubkey := a.proposerPubkey)
    ensures VectorRoot(hash, a.builderPubkey.bytes, 2) == VectorRoot(hash, b.builderPubkey.bytes, 2)
    ensures VectorRoot(hash, a.proposerPubkey.bytes, 2) == VectorRoot(hash, b.proposerPubkey.bytes, 2)
  {
    var xs, ys := BidLeaves(hash, a), BidLeaves(hash, b);
    assert xs[0] == ys[0] && xs[1] == ys[1] && xs[2] == ys[2] && xs[3] == ys[3] && xs[4] == ys[4];
    assert xs[5] == ys[5] && xs[6] == ys[6] && xs[7] == ys[7] && xs[8] == ys[8];
    SmallRootsDiffer(a.slot, b.slot);
    SmallRootsDiffer(a.gasLimit, b.gasLimit);
    SmallRootsDiffer(a.gasUsed, b.gasUsed);
    NumberRootsDiffer(a.value, b.value);
    AddressRootsDiffer(a.proposerFeeRecipient, b.proposerFeeRecipient);
  }

  /** A bid's root commits to every field, its value and both keys included. */
  lemma BidRootBinds(hash: Hash2, a: BidTrace, b: BidTrace)
    requires ProperBid(a) && ProperBid(b) && BidRoot(hash, a) == BidRoot(hash, b)
    ensures a == b || Collides(Sha(hash), BidCollision(hash, a, b))
  {
    ContainerRootBinds(hash, BidLeaves(hash, a), BidLeaves(hash, b));
    if BidLeaves(hash, a) == BidLeaves(hash, b) {
      BidFieldsBind(hash, a, b);
      VectorRootBinds(hash, a.builderPubkey.bytes, b.builderPubkey.bytes, 2);
      VectorRootBinds(hash, a.proposerPubkey.bytes, b.proposerPubkey.bytes, 2);
    }
  }

  // ----- Registrations

  predicate ProperRegistration(r: ValidatorRegistrationMessage) {
    |r.feeRecipient.bytes| == 20 && |r.pubkey.bytes| == 48
  }

  function RegistrationCollision(hash: Hash2, a: ValidatorRegistrationMessage, b: ValidatorRegistrationMessage)
    : Collision<B256>
    requires ProperRegistration(a) && ProperRegistration(b)
  {
    var xs, ys := RegistrationLeaves(hash, a), RegistrationLeaves(hash, b);
    if xs != ys then FieldsCollision(hash, xs, ys)
    else VectorCollision(hash, a.pubkey.bytes, b.pubkey.bytes, 2)
  }

  /** A registration's root commits to every field. */
  lemma RegistrationRootBinds(hash: Hash2, a: ValidatorRegistrationMessage, b: ValidatorRegistrationMessage)
    requires ProperRegistration(a) && ProperRegistration(b) && RegistrationRoot(hash, a) == RegistrationRoot(hash, b)
    ensures a == b || Collides(Sha(hash), RegistrationCollision(hash, a, b))
  {
    var xs, ys := RegistrationLeaves(hash, a), RegistrationLeaves(hash, b);
    ContainerRootBinds(hash, xs, ys);
    if xs == ys {
      assert xs[0] == ys[0] && xs[1] == ys[1] && xs[2] == ys[2] && xs[3] == ys[3];
      AddressRootsDiffer(a.feeRecipient, b.feeRecipient);
      SmallRootsDiffer(a.gasLimit, b.gasLimit);
      SmallRootsDiffer(a.timestamp, b.timestamp);
      VectorRootBinds(hash, a.pubkey.bytes, b.pubkey.bytes, 2);
    }
  }

  // ----- Lists

  /** Two lists by the roots of their items; the lengths are hashed in last. */
  function ListCollision(hash: Hash2, xs: seq<B256>, ys: seq<B256>, limit: nat): Collision<B256>
    requires |xs| <= Capacity(limit) && |ys| <= Capacity(limit) && limit > 1
  {
    var x, y := Merkleize(Sha(hash), xs, limit), Merkleize(Sha(hash), ys, limit);
    if x != y || |xs| != |ys| then Collision(Pair(x, NumberRoot(|xs|)), Pair(y, NumberRoot(|ys|)))
    else FindCollision(Sha(hash), xs, ys, Depth(limit))
  }

  lemma ListRootBinds(hash: Hash2, xs: seq<B256>, ys: seq<B256>, limit: nat)
    requires |xs| <= Capacity(limit) && |ys| <= Capacity(limit) && limit > 1
    requires |xs| <= MAX_U64 && |ys| <= MAX_U64
    requires RootListRoot(hash, xs, limit) == RootListRoot(hash, ys, limit)
    ensures xs == ys || Collides(Sha(hash), ListCollision(hash, xs, ys, limit))
  {
    var x, y := Merkleize(Sha(hash), xs, limit), Merkleize(Sha(hash), ys, limit);
    SmallRootsDiffer(|xs|, |ys|);
    if xs != ys && x == y && |xs| == |ys| {
      EqualRootsCollide(Sha(hash), xs, ys, Depth(limit));
    }
  }

  /** Byte lists; one chunk at most is its own root. */
  function BytesCollision(hash: Hash2, x: Bytes, y: Bytes, limit: nat): Collision<B256>
    requires DivCeil(|x|, 32) <= Capacity(limit) && DivCeil(|y|, 32) <= Capacity(limit)
  {
    var r, r' := VectorRoot(hash, x, limit), VectorRoot(hash, y, limit);
    if r != r' || |x| != |y| || limit <= 1 then Collision(Pair(r, NumberRoot(|x|)), Pair(r', NumberRoot(|y|)))
    else VectorCollision(hash, x, y, limit)
  }

  lemma BytesRootBinds(hash: Hash2, x: Bytes, y: Bytes, limit: nat)
    requires DivCeil(|x|, 32) <= Capacity(limit) && DivCeil(|y|, 32) <= Capacity(limit)
    requires |x| <= MAX_U64 && |y| <= MAX_U64 && limit >= 1
    requires ByteListRoot(hash, x, limit) == ByteListRoot(hash, y, limit)
    ensures x == y || Collides(Sha(hash), BytesCollision(hash, x, y, limit))
  {
    SmallRootsDiffer(|x|, |y|);
    if VectorRoot(hash, x, limit) == VectorRoot(hash, y, limit) && |x| == |y| {
      if limit > 1 {
        VectorRootBinds(hash, x, y, limit);
      } else {
        OneChunkBinds(hash, x, y);
      }
    }
  }

  lemma OneChunkBinds(hash: Hash2, x: Bytes, y: Bytes)
    requires |x| == |y| && DivCeil(|x|, 32) <= Capacity(1)
    requires VectorRoot(hash, x, 1) == VectorRoot(hash, y, 1)
    ensures x == y
  {
    DepthIs(1, 0);
    ChunksDiffer(x, y);
    if |x| > 0 {
      assert Chunks(x) == [Chunks(x)[0]] && Chunks(y) == [Chunks(y)[0]];
    }
  }

  /** Where two lists of one length first differ. */
  function FirstDifference<T(==)>(xs: seq<T>, ys: seq<T>): (i: nat)
    requires |xs| == |ys| && xs != ys
    ensures i < |xs| && xs[i] != ys[i]
  {
    if xs[0] != ys[0] then 0
    else
      assert xs == [xs[0]] + xs[1..] && ys == [ys[0]] + ys[1..];
      1 + FirstDifference(xs[1..], ys[1..])
  }

  // ----- Withdrawals

  predicate ProperWithdrawals(ws: seq<Withdrawal>) {
    |ws| <= MAX_WITHDRAWALS && forall i :: 0 <= i < |ws| ==> |ws[i].address.bytes| == 20
  }

  lemma {:induction false} WithdrawalRootsCount(hash: Hash2, ws: seq<Withdrawal>)
    ensures |WithdrawalRoots(hash, ws)| == |ws|
  {
    if ws != [] {
      WithdrawalRootsCount(hash, ws[1..]);
    }
  }

  lemma {:induction false} WithdrawalRootAt(hash: Hash2, ws: seq<Withdrawal>, i: nat)
    requires i < |ws|
    ensures |WithdrawalRoots(hash, ws)| == |ws| && WithdrawalRoots(hash, ws)[i] == WithdrawalRoot(hash, ws[i])
  {
    WithdrawalRootsCount(hash, ws);
    if i > 0 {
      WithdrawalRootAt(hash, ws[1..], i - 1);
    }
  }

  /** A withdrawal's root commits to every field. */
  lemma WithdrawalRootBinds(hash: Hash2, w: Withdrawal, v: Withdrawal)
    requires |w.address.bytes| == |v.address.bytes| == 20 && WithdrawalRoot(hash, w) == WithdrawalRoot(hash, v)
    ensures w == v || Collides(Sha(hash), FieldsCollision(hash, WithdrawalLeaves(w), WithdrawalLeaves(v)))
  {
    var xs, ys := WithdrawalLeaves(w), WithdrawalLeaves(v);
    ContainerRootBinds(hash, xs, ys);
    if xs == ys {
      assert xs[0] == ys[0] && xs[1] == ys[1] && xs[2] == ys[2] && xs[3] == ys[3];
      SmallRootsDiffer(w.index, v.index);
      SmallRootsDiffer(w.validatorIndex, v.validatorIndex);
      AddressRootsDiffer(w.address, v.address);
      SmallRootsDiffer(w.amount, v.amount);
    }
  }

  /** The roots of some withdrawals within their limit. */
  function RootsWithin(hash: Hash2, ws: seq<Withdrawal>): (roots: seq<B256>)
    requires |ws| <= MAX_WITHDRAWALS
    ensures |roots| == |ws| <= Capacity(MAX_WITHDRAWALS)
  {
    WithdrawalRootsCount(hash, ws);
    WithdrawalRoots(hash, ws)
  }

  /** Two different lists of withdrawals of the same root, followed down to where their trees differ. */
  function WithdrawalsCollision(hash: Hash2, ws: seq<Withdrawal>, vs: seq<Withdrawal>): Collision<B256>
    requires ProperWithdrawals(ws) && ProperWithdrawals(vs) && ws != vs
  {
    var xs, ys := RootsWithin(hash, ws), RootsWithin(hash, vs);
    if xs != ys then ListCollision(hash, xs, ys, MAX_WITHDRAWALS)
    else
      var i := FirstDifference(ws, vs);
      FieldsCollision(hash, WithdrawalLeaves(ws[i]), WithdrawalLeaves(vs[i]))
  }

  lemma WithdrawalsRootBinds(hash: Hash2, ws: seq<Withdrawal>, vs: seq<Withdrawal>)
    requires ProperWithdrawals(ws) && ProperWithdrawals(vs) && ws != vs
    requires WithdrawalsRoot(hash, ws) == WithdrawalsRoot(hash, vs)
    ensures Collides(Sha(hash), WithdrawalsCollision(hash, ws, vs))
  {
    var xs, ys := RootsWithin(hash, ws), RootsWithin(hash, vs);
    if xs != ys {
      ListRootBinds(hash, xs, ys, MAX_WITHDRAWALS);
    } else {
      var i := FirstDifference(ws, vs);
      WithdrawalRootAt(hash, ws, i);
      WithdrawalRootAt(hash, vs, i);
      WithdrawalRootBinds(hash, ws[i], vs[i]);
    }
  }

  // ----- Transactions

  predicate ProperTransactions(ts: seq<Bytes>) {
    |ts| <= MAX_TRANSACTIONS && forall i :: 0 <= i < |ts| ==> |ts[i]| <= TRANSACTION_BYTES
  }

  function TransactionsWithin(hash: Hash2, ts: seq<Bytes>): (roots: seq<B256>)
    requires |ts| <= MAX_TRANSACTIONS
    ensures |roots| == |ts| <= Capacity(MAX_TRANSACTIONS)
  {
    TransactionRootsCount(hash, ts);
    TransactionRoots(hash, ts)
  }

  function TransactionsCollision(hash: Hash2, ts: seq<Bytes>, us: seq<Bytes>): Collision<B256>
    requires ProperTransactions(ts) && ProperTransactions(us) && ts != us
  {
    var xs, ys := TransactionsWithin(hash, ts), TransactionsWithin(hash, us);
    if xs != ys then ListCollision(hash, xs, ys, MAX_TRANSACTIONS)
    else
      var i := FirstDifference(ts, us);
      BytesCollision(hash, ts[i], us[i], MAX_TRANSACTION_CHUNKS)
  }

  lemma TransactionsRootBinds(hash: Hash2, ts: seq<Bytes>, us: seq<Bytes>)
    requires ProperTransactions(ts) && ProperTransactions(us) && ts != us
    requires TransactionsRoot(hash, ts) == TransactionsRoot(hash, us)
    ensures Collides(Sha(hash), TransactionsCollision(hash, ts, us))
  {
    var xs, ys := TransactionsWithin(hash, ts), TransactionsWithin(hash, us);
    if xs != ys {
      ListRootBinds(hash, xs, ys, MAX_TRANSACTIONS);
    } else {
      var i := FirstDifference(ts, us);
      TransactionTrees(hash, ts, i);
      TransactionTrees(hash, us, i);
      BytesRootBinds(hash, ts[i], us[i], MAX_TRANSACTION_CHUNKS);
    }
  }

  // ----- Headers and payloads

  /** The bounds that the types of a header's fields impose. */
  predicate ProperHeader(h: ExecutionPayloadHeader) {
    && |h.feeRecipient.bytes| == 20 && |h.logsBloom| == 256 && |h.extraData| <= 32
    && h.baseFeePerGas < Pow256(32)
  }

  /** Two headers of the same root, followed down to where their trees differ. */
  function HeaderCollision(hash: Hash2, g: ExecutionPayloadHeader, h: ExecutionPayloadHeader): Collision<B256>
    requires ProperHeader(g) && ProperHeader(h)
  {
    var xs, ys := HeaderLeaves(hash, g), HeaderLeaves(hash, h);
    if xs != ys then FieldsCollision(hash, xs, ys)
    else if g.logsBloom != h.logsBloom then VectorCollision(hash, g.logsBloom, h.logsBloom, LOGS_BLOOM_CHUNKS)
    else BytesCollision(hash, g.extraData, h.extraData, 1)
  }

  /** Headers of the same leaves differ at most in bloom and extra data. */
  lemma HeaderFieldsBind(hash: Hash2, g: ExecutionPayloadHeader, h: ExecutionPayloadHeader)
    requires ProperHeader(g) && ProperHeader(h) && HeaderLeaves(hash, g) == HeaderLeaves(hash, h)
    ensures g == h.(logsBloom := g.logsBloom, extraData := g.extraData)
    ensures VectorRoot(hash, g.logsBloom, LOGS_BLOOM_CHUNKS) == VectorRoot(hash, h.logsBloom, LOGS_BLOOM_CHUNKS)
    ensures ByteListRoot(hash, g.extraData, 1) == ByteListRoot(hash, h.extraData, 1)
  {
    var xs, ys := HeaderLeaves(hash, g), HeaderLeaves(hash, h);
    assert xs[0] == ys[0] && xs[1] == ys[1] && xs[2] == ys[2] && xs[3] == ys[3] && xs[4] == ys[4] && xs[5] == ys[5];
    assert xs[6] == ys[6] && xs[7] == ys[7] && xs[8] == ys[8] && xs[9] == ys[9] && xs[10] == ys[10];
    assert xs[11] == ys[11] && xs[12] == ys[12] && xs[13] == ys[13] && xs[14] == ys[14];
    assert xs[15] == ys[15] && xs[16] == ys[16];
    AddressRootsDiffer(g.feeRecipient, h.feeRecipient);
    SmallRootsDiffer(g.blockNumber, h.blockNumber);
    SmallRootsDiffer(g.gasLimit, h.gasLimit);
    SmallRootsDiffer(g.gasUsed, h.gasUsed);
    SmallRootsDiffer(g.timestamp, h.timestamp);
    NumberRootsDiffer(g.baseFeePerGas, h.baseFeePerGas);
    SmallRootsDiffer(g.blobGasUsed, h.blobGasUsed);
    SmallRootsDiffer(g.excessBlobGas, h.excessBlobGas);
  }

  /** A header's root commits to every field. */
  lemma HeaderRootBinds(hash: Hash2, g: ExecutionPayloadHeader, h: ExecutionPayloadHeader)
    requires ProperHeader(g) && ProperHeader(h) && HeaderRoot(hash, g) == HeaderRoot(hash, h)
    ensures g == h || Collides(Sha(hash), HeaderCollision(hash, g, h))
  {
    var xs, ys := HeaderLeaves(hash, g), HeaderLeaves(hash, h);
    ContainerRootBinds(hash, xs, ys);
    if xs == ys {
      HeaderFieldsBind(hash, g, h);
      VectorRootBinds(hash, g.logsBloom, h.logsBloom, LOGS_BLOOM_CHUNKS);
      BytesRootBinds(hash, g.extraData, h.extraData, 1);
    }
  }

  /** Two different payloads of the same root, by their headers and then their lists. */
  function PayloadCollision(hash: Hash2, p: ExecutionPayload, q: ExecutionPayload): Collision<B256>
    requires WellTyped(p) && WellTyped(q)
  {
    var g, h := HeaderOf(hash, p), HeaderOf(hash, q);
    if g != h || p == q then HeaderCollision(hash, g, h)
    else if p.transactions != q.transactions then TransactionsCollision(hash, p.transactions, q.transactions)
    else WithdrawalsCollision(hash, p.withdrawals, q.withdrawals)
  }

  /** Payloads of the same header differ at most in their lists. */
  lemma PayloadFieldsBind(hash: Hash2, p: ExecutionPayload, q: ExecutionPayload)
    requires HeaderOf(hash, p) == HeaderOf(hash, q)
    ensures p == q.(transactions := p.transactions, withdrawals := p.withdrawals)
    ensures TransactionsRoot(hash, p.transactions) == TransactionsRoot(hash, q.transactions)
    ensures WithdrawalsRoot(hash, p.withdrawals) == WithdrawalsRoot(hash, q.withdrawals)
  {
  }

  /** A payload's root commits to the whole payload, every byte of its transactions and every withdrawal included. */
  lemma PayloadRootBinds(hash: Hash2, p: ExecutionPayload, q: ExecutionPayload)
    requires WellTyped(p) && WellTyped(q) && PayloadRoot(hash, p) == PayloadRoot(hash, q)
    ensures p == q || Collides(Sha(hash), PayloadCollision(hash, p, q))
  {
    if HeaderOf(hash, p) != HeaderOf(hash, q) {
      HeadersBind(hash, p, q);
    } else if p != q {
      ListsBind(hash, p, q);
    }
  }

  lemma HeadersBind(hash: Hash2, p: ExecutionPayload, q: ExecutionPayload)
    requires WellTyped(p) && WellTyped(q) && HeaderOf(hash, p) != HeaderOf(hash, q)
    requires PayloadRoot(hash, p) == PayloadRoot(hash, q)
    ensures Collides(Sha(hash), PayloadCollision(hash, p, q))
  {
    SameHeaderRoot(hash, p, q);
    HeaderRootBinds(hash, HeaderOf(hash, p), HeaderOf(hash, q));
  }

  lemma SameHeaderRoot(hash: Hash2, p: ExecutionPayload, q: ExecutionPayload)
    requires PayloadRoot(hash, p) == PayloadRoot(hash, q)
    ensures HeaderRoot(hash, HeaderOf(hash, p)) == HeaderRoot(hash, HeaderOf(hash, q))
  {
    HeaderKeepsRoot(hash, p);
    HeaderKeepsRoot(hash, q);
  }

  lemma ListsBind(hash: Hash2, p: ExecutionPayload, q: ExecutionPayload)
    requires WellTyped(p) && WellTyped(q) && HeaderOf(hash, p) == HeaderOf(hash, q) && p != q
    ensures Collides(Sha(hash), PayloadCollision(hash, p, q))
  {
    PayloadFieldsBind(hash, p, q);
    if p.transactions != q.transactions {
      TransactionsRootBinds(hash, p.transactions, q.transactions);
    } else {
      WithdrawalsRootBinds(hash, p.withdrawals, q.withdrawals);
    }
  }

  // ----- Blinded blocks

  /** What a proposer signs of a block, but for the body fields that are opaque here. */
  predicate SameSigned(b: BlindedBlock, c: BlindedBlock) {
    && b.slot == c.slot && b.proposerIndex == c.proposerIndex
    && b.parentRoot == c.parentRoot && b.stateRoot == c.stateRoot
    && b.body.fields.graffiti == c.body.fields.graffiti
    && b.body.executionPayloadHeader == c.body.executionPayloadHeader
  }

  /** Two blocks of the same root, level by level: the block, its body, its header. */
  function BlockCollision(ssz: Ssz, b: BlindedBlock, c: BlindedBlock): Collision<B256>
    requires ProperHeader(b.body.executionPayloadHeader) && ProperHeader(c.body.executionPayloadHeader)
  {
    var (g, h) := (b.body.executionPayloadHeader, c.body.executionPayloadHeader);
    if BlindedLeaves(ssz, b) != BlindedLeaves(ssz, c)
    then FieldsCollision(ssz.hash, BlindedLeaves(ssz, b), BlindedLeaves(ssz, c))
    else if BlindedBodyLeaves(ssz, b.body) != BlindedBodyLeaves(ssz, c.body)
    then FieldsCollision(ssz.hash, BlindedBodyLeaves(ssz, b.body), BlindedBodyLeaves(ssz, c.body))
    else HeaderCollision(ssz.hash, g, h)
  }

  function BlindedBodyLeaves(ssz: Ssz, body: BlindedBlockBody): seq<B256> {
    BodyLeaves(ssz, body.fields, HeaderRoot(ssz.hash, body.executionPayloadHeader))
  }

  function BlindedLeaves(ssz: Ssz, b: BlindedBlock): seq<B256> {
    BlockLeaves(b.slot, b.proposerIndex, b.parentRoot, b.stateRoot, BlindedBodyRoot(ssz, b.body))
  }

  /** So what a proposer signs commits to slot, proposer index, both roots, and the header with its every field. */
  lemma BlindedBlockRootBinds(ssz: Ssz, b: BlindedBlock, c: BlindedBlock)
    requires ProperHeader(b.body.executionPayloadHeader) && ProperHeader(c.body.executionPayloadHeader)
    requires BlindedBlockRoot(ssz, b) == BlindedBlockRoot(ssz, c)
    ensures SameSigned(b, c) || Collides(Sha(ssz.hash), BlockCollision(ssz, b, c))
  {
    var xs, ys := BlindedLeaves(ssz, b), BlindedLeaves(ssz, c);
    ContainerRootBinds(ssz.hash, xs, ys);
    if xs == ys {
      assert xs[0] == ys[0] && xs[1] == ys[1] && xs[2] == ys[2] && xs[3] == ys[3] && xs[4] == ys[4];
      SmallRootsDiffer(b.slot, c.slot);
      SmallRootsDiffer(b.proposerIndex, c.proposerIndex);
      BodyRootBinds(ssz, b.body, c.body);
    }
  }

  lemma BodyRootBinds(ssz: Ssz, b: BlindedBlockBody, c: BlindedBlockBody)
    requires ProperHeader(b.executionPayloadHeader) && ProperHeader(c.executionPayloadHeader)
    requires BlindedBodyRoot(ssz, b) == BlindedBodyRoot(ssz, c)
    ensures var (xs, ys) := (BlindedBodyLeaves(ssz, b), BlindedBodyLeaves(ssz, c));
            if xs != ys then Collides(Sha(ssz.hash), FieldsCollision(ssz.hash, xs, ys))
            else b.fields.graffiti == c.fields.graffiti
                 && (b.executionPayloadHeader == c.executionPayloadHeader
                     || Collides(Sha(ssz.hash),
                                 HeaderCollision(ssz.hash, b.executionPayloadHeader, c.executionPayloadHeader)))
  {
    var (xs, ys) := (BlindedBodyLeaves(ssz, b), BlindedBodyLeaves(ssz, c));
    ContainerRootBinds(ssz.hash, xs, ys);
    if xs == ys {
      assert xs[2] == ys[2] && xs[9] == ys[9];
      HeaderRootBinds(ssz.hash, b.executionPayloadHeader, c.executionPayloadHeader);
    }
  }

  // ----- The header of a decoded payload

  lemma {:induction false} MisindexedAt(ws: seq<Withdrawal>, i: nat)
    requires i < |ws|
    ensures Misindexed(ws)[i] == ws[i].(validatorIndex := ws[i].amount)
  {
    if i > 0 {
      MisindexedAt(ws[1..], i - 1);
    }
  }

  lemma MisindexedIsProper(ws: seq<Withdrawal>)
    requires ProperWithdrawals(ws)
    ensures ProperWithdrawals(Misindexed(ws))
  {
    forall i | 0 <= i < |ws|
      ensures |Misindexed(ws)[i].address.bytes| == 20
    {
      MisindexedAt(ws, i);
    }
  }

  /**
  The header of a decoded payload commits to the withdrawals that were sent exactly when every index was its amount --
  or the hash collides at a node this names.
   */
  lemma DecodedHeaderKeepsWithdrawals(hash: Hash2, p: ExecutionPayload)
    requires WellTyped(p)
    ensures DecodePayload(ToWire(p)).Ok?
    ensures ProperWithdrawals(p.withdrawals) && ProperWithdrawals(Misindexed(p.withdrawals))
    ensures var decoded := DecodePayload(ToWire(p)).value;
            var same := HeaderOf(hash, decoded).withdrawalsRoot == HeaderOf(hash, p).withdrawalsRoot;
            && (IndexIsAmount(p.withdrawals) ==> same)
            && (same ==> || IndexIsAmount(p.withdrawals)
                         || (&& Misindexed(p.withdrawals) != p.withdrawals
                             && Collides(Sha(hash),
                                         WithdrawalsCollision(hash, Misindexed(p.withdrawals), p.withdrawals))))
  {
    RoundTripExactly(p);
    MisindexedIsSame(p.withdrawals);
    MisindexedIsProper(p.withdrawals);
    var ws, vs := Misindexed(p.withdrawals), p.withdrawals;
    if ws != vs && WithdrawalsRoot(hash, ws) == WithdrawalsRoot(hash, vs) {
      WithdrawalsRootBinds(hash, ws, vs);
    }
  }
}
