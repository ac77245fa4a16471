/** The relay's own loops that feed list items and bitfields to a Merkle hasher. */
module MerkleLoops {
  import opened Options
  import opened Types
  import opened Merkle

  type Hash2 = (B256, B256) -> B256

  function Sha(hash: Hash2): Hasher<B256> {
    Hasher(hash, ZeroB256())
  }

  // ----- Chunks

  function DivCeil(a: nat, b: nat): nat
    requires b > 0
  {
    (a + b - 1) / b
  }

  function PadChunk(bytes: Bytes): B256 {
    if |bytes| >= 32 then bytes[..32] else bytes + seq(32 - |bytes|, _ => 0)
  }

  /** Bytes cut into 32-byte chunks, the last one filled with zeros. */
  function Chunks(bytes: Bytes): (chunks: seq<B256>)
    ensures |chunks| == DivCeil(|bytes|, 32)
  {
    if |bytes| == 0 then []
    else if |bytes| <= 32 then [PadChunk(bytes)]
    else [PadChunk(bytes)] + Chunks(bytes[32..])
  }

  // ----- The hasher

  /** Leaves a hasher created for `leaves` leaves has room for. */
  function Capacity(leaves: nat): nat {
    Pow2(Depth(leaves))
  }

  /**
  The library's hasher, as an accumulator of bytes: a write fails once more leaves are full than there is room for, and
  finishing pads the last leaf and merkleizes.
   */
  class MerkleHasher {
    const hash: Hash2
    const leaves: nat
    var bytes: Bytes

    constructor WithLeaves(hash: Hash2, leaves: nat)
      ensures this.hash == hash && this.leaves == leaves && bytes == []
    {
      this.hash := hash;
      this.leaves := leaves;
      this.bytes := [];
    }

    method Write(data: Bytes) returns (ok: bool)
      modifies this
      ensures bytes == old(bytes) + data
      ensures ok <==> |bytes| / 32 <= Capacity(leaves)
    {
      bytes := bytes + data;
      ok := |bytes| / 32 <= Capacity(leaves);
    }

    method Finish() returns (root: Option<B256>)
      ensures root == if DivCeil(|bytes|, 32) <= Capacity(leaves)
                      then Some(Merkleize(Sha(hash), Chunks(bytes), leaves)) else None
    {
      root :=
        if DivCeil(|bytes|, 32) <= Capacity(leaves) then Some(Merkleize(Sha(hash), Chunks(bytes), leaves)) else None;
    }
  }

  datatype TreeHashType = Basic | Composite

  /** What the tree-hash trait says about an item type. */
  datatype ItemType = ItemType(kind: TreeHashType, packingFactor: nat)

  /** An item, by its two encodings: packed, for basic types, and its root. */
  datatype Item = Item(packed: Bytes, root: B256)

  /** Packed items fill a chunk exactly. */
  predicate Packs(t: ItemType, items: seq<Item>) {
    t.kind.Basic? ==> t.packingFactor > 0 && forall i :: 0 <= i < |items| ==> |items[i].packed| * t.packingFactor == 32
  }

  /** The bytes an item contributes. */
  function ItemBytes(t: ItemType, item: Item): Bytes {
    if t.kind.Basic? then item.packed else item.root
  }

  function Flat(t: ItemType, items: seq<Item>): Bytes {
    if items == [] then [] else Flat(t, items[..|items| - 1]) + ItemBytes(t, items[|items| - 1])
  }

  /** The chunk limit of a list of at most `n` items. */
  function LeafLimit(t: ItemType, n: nat): nat {
    if t.kind.Basic? && t.packingFactor > 0 then DivCeil(n, t.packingFactor) else n
  }

  function RootsOf(items: seq<Item>): seq<B256> {
    seq(|items|, i requires 0 <= i < |items| => items[i].root)
  }

  /** The chunks of a list: packed items cut into chunks, or one root per item. */
  function ListChunks(t: ItemType, items: seq<Item>): seq<B256> {
    if t.kind.Basic? then Chunks(Flat(t, items)) else RootsOf(items)
  }

  lemma {:induction false} ChunksOfWholeChunks(chunks: Bytes, last: B256)
    requires |chunks| % 32 == 0
    ensures Chunks(chunks + last) == Chunks(chunks) + [last]
  {
    if |chunks| == 0 {
      assert chunks + last == last;
      assert PadChunk(last) == last;
    } else {
      assert (chunks + last)[32..] == chunks[32..] + last;
      assert PadChunk(chunks + last) == PadChunk(chunks);
      ChunksOfWholeChunks(chunks[32..], last);
      if |chunks| == 32 {
        assert chunks[32..] == [];
      }
    }
  }

  /** The chunks are just enough to hold the bytes: byte `i` is byte `i % 32` of chunk `i / 32`, and zeros follow. */
  ghost predicate Packed(bytes: Bytes, chunks: seq<B256>) {
    && 32 * |chunks| < |bytes| + 32
    && |bytes| <= 32 * |chunks|
    && forall i :: 0 <= i < 32 * |chunks| ==> ByteAt(chunks, i) == if i < |bytes| then bytes[i] else 0
  }

  function ByteAt(chunks: seq<B256>, i: nat): byte
    requires i < 32 * |chunks|
  {
    chunks[i / 32][i % 32]
  }

  /** Laid end to end, the chunks are the bytes followed by fewer than 32 zeros. */
  lemma {:induction false} ChunksArePacked(bytes: Bytes)
    ensures Packed(bytes, Chunks(bytes))
  {
    if |bytes| > 32 {
      var (rest, chunks) := (Chunks(bytes[32..]), Chunks(bytes));
      ChunksArePacked(bytes[32..]);
      assert chunks == [bytes[..32]] + rest;
      forall i | 0 <= i < 32 * |chunks|
        ensures ByteAt(chunks, i) == if i < |bytes| then bytes[i] else 0
      {
        ByteOfRest(bytes[..32], rest, i);
      }
    } else if |bytes| > 0 {
      assert Chunks(bytes) == [PadChunk(bytes)];
    }
  }

  lemma ByteOfRest(first: B256, rest: seq<B256>, i: nat)
    requires i < 32 * (|rest| + 1)
    ensures ByteAt([first] + rest, i) == if i < 32 then first[i] else ByteAt(rest, i - 32)
  {
    if i >= 32 {
      assert (i - 32) / 32 == i / 32 - 1 && (i - 32) % 32 == i % 32;
    }
  }

  /** Roots written one after the other are cut back into the roots. */
  lemma {:induction false} FlatRoots(t: ItemType, items: seq<Item>)
    requires t.kind.Composite?
    ensures |Flat(t, items)| == 32 * |items|
    ensures Chunks(Flat(t, items)) == ListChunks(t, items)
  {
    if items != [] {
      var n := |items| - 1;
      FlatRoots(t, items[..n]);
      ChunksOfWholeChunks(Flat(t, items[..n]), items[n].root);
      assert ListChunks(t, items) == ListChunks(t, items[..n]) + [items[n].root];
    }
  }

  lemma {:induction false} FlatLength(t: ItemType, items: seq<Item>)
    requires Packs(t, items) && t.kind.Basic?
    ensures |Flat(t, items)| * t.packingFactor == 32 * |items|
  {
    if items != [] {
      var n := |items| - 1;
      FlatLength(t, items[..n]);
      OneMoreItem(|Flat(t, items[..n])|, |items[n].packed|, t.packingFactor, n);
    }
  }

  lemma OneMoreItem(a: nat, b: nat, factor: nat, n: nat)
    requires a * factor == 32 * n && b * factor == 32
    ensures (a + b) * factor == 32 * (n + 1)
  {
    assert (a + b) * factor == a * factor + b * factor;
  }

  lemma {:induction false} FlatPrefix(t: ItemType, items: seq<Item>, n: nat)
    requires n <= |items|
    ensures |Flat(t, items[..n])| <= |Flat(t, items)|
  {
    if n == |items| {
      assert items[..n] == items;
    } else {
      var m := |items| - 1;
      assert items[..m][..n] == items[..n];
      FlatPrefix(t, items[..m], n);
    }
  }

  /** Items of one width, one after the other: byte `b` of item `k`. */
  lemma {:induction false} FlatBytes(t: ItemType, items: seq<Item>, width: nat, k: nat, b: nat)
    requires t.kind.Basic? && forall i :: 0 <= i < |items| ==> |items[i].packed| == width
    requires k < |items| && b < width
    ensures |Flat(t, items)| == width * |items| && 0 <= width * k + b < width * |items|
    ensures Flat(t, items)[width * k + b] == items[k].packed[b]
  {
    var n := |items| - 1;
    FlatWidth(t, items, width);
    FlatWidth(t, items[..n], width);
    PlaceWithin(width, k, b, |items|);
    if k < n {
      FlatBytes(t, items[..n], width, k, b);
    }
  }

  lemma PlaceWithin(width: nat, k: nat, b: nat, n: nat)
    requires k < n && b < width
    ensures 0 <= width * k + b < width * n
  {
    assert width * (k + 1) <= width * n;
  }

  lemma {:induction false} FlatWidth(t: ItemType, items: seq<Item>, width: nat)
    requires t.kind.Basic? && forall i :: 0 <= i < |items| ==> |items[i].packed| == width
    ensures |Flat(t, items)| == width * |items|
  {
    if items != [] {
      FlatWidth(t, items[..|items| - 1], width);
    }
  }

  /** The chunk limit of a list is the least number of chunks that its items, as many as it may have, fit into. */
  lemma LeafLimitIsLeast(t: ItemType, n: nat)
    requires t.kind.Basic? ==> t.packingFactor > 0
    ensures var (limit, factor) := (LeafLimit(t, n), if t.kind.Basic? then t.packingFactor else 1);
            n <= limit * factor && (limit > 0 ==> (limit - 1) * factor < n)
  {
    if t.kind.Basic? {
      CeilingIsLeast(n, t.packingFactor);
    }
  }

  lemma CeilingIsLeast(a: nat, b: nat)
    requires b > 0
    ensures a <= DivCeil(a, b) * b && (DivCeil(a, b) > 0 ==> (DivCeil(a, b) - 1) * b < a)
  {
    var q := DivCeil(a, b);
    assert q * b <= a + b - 1 < q * b + b;
    assert (q - 1) * b == q * b - b;
  }

  /** A list within its limit has at most as many chunks as its chunk limit, and so never panics. */
  lemma ListsWithinLimitFit(t: ItemType, items: seq<Item>, n: nat)
    requires Packs(t, items) && |items| <= n
    ensures DivCeil(|Flat(t, items)|, 32) <= LeafLimit(t, n) <= Capacity(LeafLimit(t, n))
  {
    if t.kind.Basic? {
      FlatLength(t, items);
      BytesToChunks(|Flat(t, items)|, t.packingFactor, |items|, n);
    } else {
      FlatRoots(t, items);
    }
  }

  lemma BytesToChunks(length: nat, factor: nat, items: nat, n: nat)
    requires factor > 0 && length * factor == 32 * items && items <= n
    ensures DivCeil(length, 32) <= DivCeil(n, factor)
  {
    var limit := DivCeil(n, factor);
    assert n <= limit * factor;
    assert length * factor <= 32 * (limit * factor) == (32 * limit) * factor;
    CancelFactor(length, 32 * limit, factor);
  }

  lemma CancelFactor(a: nat, b: nat, factor: nat)
    requires factor > 0 && a * factor <= b * factor
    ensures a <= b
  {
  }

  /** The chunks hold the bytes of the items one after the other, or are the roots of the items. */
  ghost predicate HoldItems(t: ItemType, items: seq<Item>, chunks: seq<B256>) {
    if t.kind.Basic? then Packed(Flat(t, items), chunks)
    else |chunks| == |items| && forall i :: 0 <= i < |items| ==> chunks[i] == items[i].root
  }

  lemma ListChunksHoldItems(t: ItemType, items: seq<Item>)
    ensures HoldItems(t, items, ListChunks(t, items))
  {
    ChunksArePacked(Flat(t, items));
  }

  /**
  `vec_tree_hash_root`; None stands for a panic of one of its `expect`s.  It panics exactly when the list has more
  chunks than the hasher has room for, and otherwise returns the merkleization of the list's chunks.
   */
  method VecTreeHashRoot(hash: Hash2, t: ItemType, items: seq<Item>, n: nat) returns (root: Option<B256>)
    requires t.kind.Basic? ==> t.packingFactor > 0
    ensures root.Some? <==> DivCeil(|Flat(t, items)|, 32) <= Capacity(LeafLimit(t, n))
    ensures root.Some? ==> |ListChunks(t, items)| <= Capacity(LeafLimit(t, n))
                           && root.value == Merkleize(Sha(hash), ListChunks(t, items), LeafLimit(t, n))
    ensures HoldItems(t, items, ListChunks(t, items))
  {
    ListChunksHoldItems(t, items);
    var hasher := new MerkleHasher.WithLeaves(hash, LeafLimit(t, n));
    for i := 0 to |items|
      invariant fresh(hasher) && hasher.hash == hash && hasher.leaves == LeafLimit(t, n)
      invariant hasher.bytes == Flat(t, items[..i])
    {
      assert items[..i + 1][..i] == items[..i];
      var ok := hasher.Write(ItemBytes(t, items[i]));
      FlatPrefix(t, items, i + 1);
      if !ok {
        return None;
      }
    }
    assert items[..|items|] == items;
    root := hasher.Finish();
    if t.kind.Composite? {
      FlatRoots(t, items);
    }
  }

  /** `bitfield_bytes_tree_hash_root`, which panics on no bitfield of at most `n` bits' worth of bytes. */
  method BitfieldTreeHashRoot(hash: Hash2, bytes: Bytes, n: nat) returns (root: Option<B256>)
    ensures root.Some? <==> DivCeil(|bytes|, 32) <= Capacity(DivCeil(DivCeil(n, 8), 32))
    ensures |bytes| <= DivCeil(n, 8) ==> root.Some?
    ensures root.Some? ==> |Chunks(bytes)| <= Capacity(DivCeil(DivCeil(n, 8), 32))
                           && root.value == Merkleize(Sha(hash), Chunks(bytes), DivCeil(DivCeil(n, 8), 32))
    ensures Packed(bytes, Chunks(bytes))
  {
    var byteSize := DivCeil(n, 8);
    var hasher := new MerkleHasher.WithLeaves(hash, DivCeil(byteSize, 32));
    var ok := hasher.Write(bytes);
    assert hasher.bytes == bytes;
    ChunksArePacked(bytes);
    if !ok {
      return None;
    }
    root := hasher.Finish();
  }
}
