/**
The hash-tree roots of the signed and hashed messages as explicit trees: the order of their fields, the padding of each
container with zero leaves to a power of two, and the depths and lengths of their lists.
 */
module RootTrees {
  import opened Types
  import opened Merkle
  import opened MerkleLoops
  import opened Ssz

  // ----- Trees of few leaves

  function Node4(hash: Hash2, a: B256, b: B256, c: B256, d: B256): B256 {
    hash(hash(a, b), hash(c, d))
  }

  function Node8(hash: Hash2, a: B256, b: B256, c: B256, d: B256, e: B256, f: B256, g: B256, h: B256): B256 {
    hash(Node4(hash, a, b, c, d), Node4(hash, e, f, g, h))
  }

  /** A tree of zero leaves. */
  function Zeros(hash: Hash2, d: nat): B256 {
    if d == 0 then ZeroB256() else hash(Zeros(hash, d - 1), Zeros(hash, d - 1))
  }

  lemma {:induction false} EmptyTree(hash: Hash2, d: nat)
    ensures Root(Sha(hash), [], d) == Zeros(hash, d)
    decreases d
  {
    if d > 0 {
      EmptyTree(hash, d - 1);
    }
  }

  /** A full left half and what is left for the right one. */
  lemma Halves(hash: Hash2, xs: seq<B256>, ys: seq<B256>, d: nat)
    requires |xs| == Pow2(d) && |ys| <= Pow2(d)
    ensures Root(Sha(hash), xs + ys, d + 1) == hash(Root(Sha(hash), xs, d), Root(Sha(hash), ys, d))
  {
    assert (xs + ys)[..Pow2(d)] == xs && (xs + ys)[Pow2(d)..] == ys;
    assert ys == [] ==> xs + ys == xs;
  }

  /** Leaves that fit the left half. */
  lemma LeftOnly(hash: Hash2, xs: seq<B256>, d: nat)
    requires |xs| <= Pow2(d)
    ensures Root(Sha(hash), xs, d + 1) == hash(Root(Sha(hash), xs, d), Zeros(hash, d))
  {
    EmptyTree(hash, d);
  }

  /** A tree of one leaf and zeros. */
  function Spine(hash: Hash2, leaf: B256, d: nat): B256 {
    if d == 0 then leaf else hash(Spine(hash, leaf, d - 1), Zeros(hash, d - 1))
  }

  lemma {:induction false} OneLeaf(hash: Hash2, leaf: B256, d: nat)
    ensures Root(Sha(hash), [leaf], d) == Spine(hash, leaf, d)
    decreases d
  {
    if d > 0 {
      OneLeaf(hash, leaf, d - 1);
      LeftOnly(hash, [leaf], d - 1);
    }
  }

  lemma PowersOfTwo()
    ensures Pow2(0) == 1 && Pow2(1) == 2 && Pow2(2) == 4 && Pow2(3) == 8 && Pow2(4) == 16 && Pow2(5) == 32
  {
  }

  lemma TwoLeaves(hash: Hash2, a: B256, b: B256)
    ensures Root(Sha(hash), [a, b], 1) == hash(a, b)
  {
    PowersOfTwo();
    Halves(hash, [a], [b], 0);
    assert [a] + [b] == [a, b];
  }

  lemma FourLeaves(hash: Hash2, a: B256, b: B256, c: B256, d: B256)
    ensures Root(Sha(hash), [a, b, c, d], 2) == Node4(hash, a, b, c, d)
  {
    PowersOfTwo();
    TwoLeaves(hash, a, b);
    TwoLeaves(hash, c, d);
    Halves(hash, [a, b], [c, d], 1);
    assert [a, b] + [c, d] == [a, b, c, d];
  }

  lemma EightLeaves(hash: Hash2, xs: seq<B256>)
    requires |xs| == 8
    ensures Pow2(3) == 8
    ensures Root(Sha(hash), xs, 3) == Node8(hash, xs[0], xs[1], xs[2], xs[3], xs[4], xs[5], xs[6], xs[7])
  {
    PowersOfTwo();
    FourLeaves(hash, xs[0], xs[1], xs[2], xs[3]);
    FourLeaves(hash, xs[4], xs[5], xs[6], xs[7]);
    Halves(hash, xs[..4], xs[4..], 2);
    assert xs[..4] == [xs[0], xs[1], xs[2], xs[3]] && xs[4..] == [xs[4], xs[5], xs[6], xs[7]];
    assert xs[..4] + xs[4..] == xs;
  }

  lemma {:induction false} PowersOrdered(a: nat, b: nat)
    requires a < b
    ensures Pow2(a) < Pow2(b)
    decreases b
  {
    if a < b - 1 {
      PowersOrdered(a, b - 1);
    }
  }

  lemma DepthIs(n: nat, d: nat)
    requires n <= Pow2(d) && (d > 0 ==> Pow2(d - 1) < n)
    ensures Depth(n) == d
  {
    if Depth(n) < d - 1 {
      PowersOrdered(Depth(n), d - 1);
    } else if d < Depth(n) - 1 {
      PowersOrdered(d, Depth(n) - 1);
    }
  }

  /** A hasher has room for the least power of two that holds the leaves it was made for. */
  lemma CapacityIs(leaves: nat, d: nat)
    requires leaves <= Pow2(d) && (d > 0 ==> Pow2(d - 1) < leaves)
    ensures Capacity(leaves) == Pow2(d)
  {
    DepthIs(leaves, d);
  }

  // ----- Containers

  /** The signing root: the object's root first, the domain second. */
  lemma SigningRootIsHash(hash: Hash2, objectRoot: B256, domain: B256)
    ensures SigningRoot(hash, objectRoot, domain) == hash(objectRoot, domain)
  {
    PowersOfTwo();
    DepthIs(2, 1);
    TwoLeaves(hash, objectRoot, domain);
  }

  /** Four fields: a withdrawal, a registration. */
  lemma FourFields(hash: Hash2, w: Withdrawal, r: ValidatorRegistrationMessage)
    ensures WithdrawalRoot(hash, w)
         == Node4(hash, NumberRoot(w.index), NumberRoot(w.validatorIndex), AddressRoot(w.address), NumberRoot(w.amount))
    ensures RegistrationRoot(hash, r)
         == Node4(hash, AddressRoot(r.feeRecipient), NumberRoot(r.gasLimit), NumberRoot(r.timestamp),
                  VectorRoot(hash, r.pubkey.bytes, 2))
  {
    PowersOfTwo();
    DepthIs(4, 2);
    FourLeaves(hash, NumberRoot(w.index), NumberRoot(w.validatorIndex), AddressRoot(w.address), NumberRoot(w.amount));
    FourLeaves(hash, AddressRoot(r.feeRecipient), NumberRoot(r.gasLimit), NumberRoot(r.timestamp),
               VectorRoot(hash, r.pubkey.bytes, 2));
  }

  lemma ContainerDepth(hash: Hash2, fields: seq<B256>, d: nat)
    requires d > 0 && Pow2(d - 1) < |fields| <= Pow2(d)
    ensures ContainerRoot(hash, fields) == Root(Sha(hash), fields, d)
  {
    DepthIs(|fields|, d);
  }

  /** Five fields: a block header. */
  lemma BlockTree(hash: Hash2, slot: u64, proposerIndex: u64, parentRoot: B256, stateRoot: B256, bodyRoot: B256)
    ensures ContainerRoot(hash, BlockLeaves(slot, proposerIndex, parentRoot, stateRoot, bodyRoot))
         == hash(Node4(hash, NumberRoot(slot), NumberRoot(proposerIndex), parentRoot, stateRoot),
                 Spine(hash, bodyRoot, 2))
  {
    var first := [NumberRoot(slot), NumberRoot(proposerIndex), parentRoot, stateRoot];
    PowersOfTwo();
    FourLeaves(hash, NumberRoot(slot), NumberRoot(proposerIndex), parentRoot, stateRoot);
    OneLeaf(hash, bodyRoot, 2);
    Halves(hash, first, [bodyRoot], 2);
    assert first + [bodyRoot] == BlockLeaves(slot, proposerIndex, parentRoot, stateRoot, bodyRoot);
    ContainerDepth(hash, first + [bodyRoot], 3);
  }

  /** Nine fields: a bid trace. */
  lemma BidTree(hash: Hash2, b: BidTrace)
    ensures BidRoot(hash, b)
         == hash(Node8(hash, NumberRoot(b.slot), b.parentHash, b.blockHash, VectorRoot(hash, b.builderPubkey.bytes, 2),
                       VectorRoot(hash, b.proposerPubkey.bytes, 2), AddressRoot(b.proposerFeeRecipient),
                       NumberRoot(b.gasLimit), NumberRoot(b.gasUsed)),
                 Spine(hash, NumberRoot(b.value), 3))
  {
    var leaves := BidLeaves(hash, b);
    PowersOfTwo();
    EightLeaves(hash, leaves[..8]);
    OneLeaf(hash, NumberRoot(b.value), 3);
    Halves(hash, leaves[..8], [NumberRoot(b.value)], 3);
    assert leaves[..8] + [NumberRoot(b.value)] == leaves;
    ContainerDepth(hash, leaves, 4);
  }

  /** Twelve leaves. */
  lemma TwelveLeaves(hash: Hash2, xs: seq<B256>)
    requires |xs| == 12
    ensures ContainerRoot(hash, xs)
         == hash(Node8(hash, xs[0], xs[1], xs[2], xs[3], xs[4], xs[5], xs[6], xs[7]),
                 hash(Node4(hash, xs[8], xs[9], xs[10], xs[11]), Zeros(hash, 2)))
  {
    PowersOfTwo();
    EightLeaves(hash, xs[..8]);
    FourLeaves(hash, xs[8], xs[9], xs[10], xs[11]);
    assert xs[8..] == [xs[8], xs[9], xs[10], xs[11]];
    LeftOnly(hash, xs[8..], 2);
    Halves(hash, xs[..8], xs[8..], 3);
    assert xs[..8] + xs[8..] == xs;
    ContainerDepth(hash, xs, 4);
  }

  /** Twelve fields: a block body, the payload's root the tenth. */
  lemma BodyTree(ssz: Ssz, f: BodyFields, payloadRoot: B256)
    ensures ContainerRoot(ssz.hash, BodyLeaves(ssz, f, payloadRoot))
         == ssz.hash(Node8(ssz.hash, ssz.fieldRoot(RandaoReveal, f.randaoReveal), ssz.fieldRoot(Eth1Data, f.eth1Data),
                           f.graffiti, ssz.fieldRoot(ProposerSlashings, f.proposerSlashings),
                           ssz.fieldRoot(AttesterSlashings, f.attesterSlashings),
                           ssz.fieldRoot(Attestations, f.attestations), ssz.fieldRoot(Deposits, f.deposits),
                           ssz.fieldRoot(VoluntaryExits, f.voluntaryExits)),
                     ssz.hash(Node4(ssz.hash, ssz.fieldRoot(SyncAggregate, f.syncAggregate), payloadRoot,
                                    ssz.fieldRoot(BlsToExecutionChanges, f.blsToExecutionChanges),
                                    RootListRoot(ssz.hash, CommitmentRoots(ssz.hash, f.blobKzgCommitments), 4096)),
                              Zeros(ssz.hash, 2)))
  {
    TwelveLeaves(ssz.hash, BodyLeaves(ssz, f, payloadRoot));
  }

  /** Seventeen leaves. */
  lemma SeventeenLeaves(hash: Hash2, xs: seq<B256>)
    requires |xs| == 17
    ensures ContainerRoot(hash, xs)
         == hash(hash(Node8(hash, xs[0], xs[1], xs[2], xs[3], xs[4], xs[5], xs[6], xs[7]),
                      Node8(hash, xs[8], xs[9], xs[10], xs[11], xs[12], xs[13], xs[14], xs[15])),
                 Spine(hash, xs[16], 4))
  {
    var first := xs[..16];
    PowersOfTwo();
    EightLeaves(hash, first[..8]);
    EightLeaves(hash, first[8..]);
    Halves(hash, first[..8], first[8..], 3);
    assert first[..8] + first[8..] == first;
    OneLeaf(hash, xs[16], 4);
    Halves(hash, first, [xs[16]], 4);
    assert first + [xs[16]] == xs;
    ContainerDepth(hash, xs, 5);
  }

  /** Seventeen fields: a payload, in the order of the header's fields, its lists of at most 2^20 and 2^4 items. */
  lemma PayloadTree(hash: Hash2, p: ExecutionPayload)
    ensures PayloadRoot(hash, p)
         == hash(hash(Node8(hash, p.parentHash, AddressRoot(p.feeRecipient), p.stateRoot, p.receiptsRoot,
                            VectorRoot(hash, p.logsBloom, 8), p.prevRandao, NumberRoot(p.blockNumber),
                            NumberRoot(p.gasLimit)),
                      Node8(hash, NumberRoot(p.gasUsed), NumberRoot(p.timestamp), ByteListRoot(hash, p.extraData, 1),
                            NumberRoot(p.baseFeePerGas), p.blockHash,
                            RootListRoot(hash, TransactionRoots(hash, p.transactions), 1048576),
                            RootListRoot(hash, WithdrawalRoots(hash, p.withdrawals), 16),
                            NumberRoot(p.blobGasUsed))),
                 Spine(hash, NumberRoot(p.excessBlobGas), 4))
  {
    SeventeenLeaves(hash, PayloadLeaves(hash, p));
  }

  // ----- Lists

  /** A list of at most 2^d items within its bounds: the layered root of its items' roots, and then its length. */
  lemma ListTree(hash: Hash2, roots: seq<B256>, limit: nat, d: nat)
    requires d > 0 && Pow2(d - 1) < limit <= Pow2(d) && |roots| <= Pow2(d)
    ensures RootListRoot(hash, roots, limit)
         == hash(BottomUp(Sha(hash), Pad(ZeroB256(), roots, Pow2(d)), d), LittleEndian(|roots|, 32))
  {
    DepthIs(limit, d);
    RootIsBottomUp(Sha(hash), roots, d);
  }

  /** A byte vector of at most 2^d chunks: the layered root of the chunks that hold the bytes. */
  lemma VectorTree(hash: Hash2, bytes: Bytes, chunks: seq<B256>, limit: nat, d: nat)
    requires d > 0 && Pow2(d - 1) < limit <= Pow2(d) && |chunks| <= Pow2(d) && Packed(bytes, chunks)
    ensures VectorRoot(hash, bytes, limit) == BottomUp(Sha(hash), Pad(ZeroB256(), chunks, Pow2(d)), d)
  {
    DepthIs(limit, d);
    ChunksArePacked(bytes);
    PackedIsUnique(bytes, chunks, Chunks(bytes));
    RootIsBottomUp(Sha(hash), chunks, d);
  }

  /** The root of an address is its twenty bytes and then zeros. */
  lemma AddressIsPadded(address: Address)
    requires |address.bytes| == 20
    ensures AddressRoot(address)[..20] == address.bytes
    ensures forall i :: 20 <= i < 32 ==> AddressRoot(address)[i] == 0
  {
    ChunksArePacked(address.bytes);
    var chunks := Chunks(address.bytes);
    forall i | 0 <= i < 32
      ensures AddressRoot(address)[i] == if i < 20 then address.bytes[i] else 0
    {
      assert ByteAt(chunks, i) == chunks[0][i];
    }
  }

  /** Bytes of at most 2^d chunks: the root of their vector, and then their number. */
  lemma ByteListTree(hash: Hash2, bytes: Bytes, chunks: seq<B256>, limit: nat, d: nat)
    requires d > 0 && Pow2(d - 1) < limit <= Pow2(d) && |chunks| <= Pow2(d) && Packed(bytes, chunks)
    ensures ByteListRoot(hash, bytes, limit)
         == hash(BottomUp(Sha(hash), Pad(ZeroB256(), chunks, Pow2(d)), d), LittleEndian(|bytes|, 32))
  {
    VectorTree(hash, bytes, chunks, limit, d);
  }

  /** A transaction has at most 2^30 bytes, that is 2^25 chunks. */
  lemma {:induction false} TransactionTrees(hash: Hash2, transactions: seq<Bytes>, i: nat)
    requires i < |transactions|
    ensures |TransactionRoots(hash, transactions)| == |transactions|
    ensures TransactionRoots(hash, transactions)[i] == ByteListRoot(hash, transactions[i], 33554432)
  {
    TransactionRootsCount(hash, transactions);
    if i > 0 {
      TransactionTrees(hash, transactions[1..], i - 1);
    }
  }

  lemma {:induction false} TransactionRootsCount(hash: Hash2, transactions: seq<Bytes>)
    ensures |TransactionRoots(hash, transactions)| == |transactions|
  {
    if transactions != [] {
      TransactionRootsCount(hash, transactions[1..]);
    }
  }

  /** A commitment is a vector of two chunks. */
  lemma {:induction false} CommitmentTrees(hash: Hash2, commitments: seq<KzgCommitment>, i: nat)
    requires i < |commitments|
    ensures |CommitmentRoots(hash, commitments)| == |commitments|
    ensures CommitmentRoots(hash, commitments)[i] == VectorRoot(hash, commitments[i].bytes, 2)
  {
    CommitmentRootsCount(hash, commitments);
    if i > 0 {
      CommitmentTrees(hash, commitments[1..], i - 1);
    }
  }

  lemma {:induction false} CommitmentRootsCount(hash: Hash2, commitments: seq<KzgCommitment>)
    ensures |CommitmentRoots(hash, commitments)| == |commitments|
  {
    if commitments != [] {
      CommitmentRootsCount(hash, commitments[1..]);
    }
  }

  /** No other chunks hold the same bytes. */
  lemma PackedIsUnique(bytes: Bytes, xs: seq<B256>, ys: seq<B256>)
    requires Packed(bytes, xs) && Packed(bytes, ys)
    ensures xs == ys
  {
    forall c | 0 <= c < |xs|
      ensures xs[c] == ys[c]
    {
      SameBytes(xs, ys, c);
    }
  }

  lemma SameBytes(xs: seq<B256>, ys: seq<B256>, c: nat)
    requires c < |xs| == |ys|
    requires forall i :: 0 <= i < 32 * |xs| ==> ByteAt(xs, i) == ByteAt(ys, i)
    ensures xs[c] == ys[c]
  {
    forall b | 0 <= b < 32
      ensures xs[c][b] == ys[c][b]
    {
      var i := 32 * c + b;
      assert i / 32 == c && i % 32 == b;
      assert ByteAt(xs, i) == ByteAt(ys, i);
    }
  }
}
