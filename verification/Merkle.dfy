/** Merkleization over an abstract two-to-one hash on nodes of any type, padded with zero leaves to a power of two. */
module Merkle {
  /** The hash of two nodes, and the leaf that pads a tree. */
  datatype Hasher<!N> = Hasher(combine: (N, N) -> N, zero: N)

  function Pow2(d: nat): (n: nat)
    ensures n >= 1
  {
    if d == 0 then 1 else 2 * Pow2(d - 1)
  }

  /** The root of a tree of depth `d` whose first leaves are given and whose others are zero. */
  function Root<N>(hasher: Hasher<N>, leaves: seq<N>, d: nat): N
    requires |leaves| <= Pow2(d)
    decreases d
  {
    if d == 0 then if leaves == [] then hasher.zero else leaves[0]
    else hasher.combine(Root(hasher, Left(leaves, d), d - 1), Root(hasher, Right(leaves, d), d - 1))
  }

  function Left<N>(leaves: seq<N>, d: nat): (half: seq<N>)
    requires d > 0 && |leaves| <= Pow2(d)
    ensures |half| <= Pow2(d - 1)
  {
    if |leaves| <= Pow2(d - 1) then leaves else leaves[..Pow2(d - 1)]
  }

  function Right<N>(leaves: seq<N>, d: nat): (half: seq<N>)
    requires d > 0 && |leaves| <= Pow2(d)
    ensures |half| <= Pow2(d - 1)
  {
    if |leaves| <= Pow2(d - 1) then [] else leaves[Pow2(d - 1)..]
  }

  // ----- The layer-by-layer definition

  function Repeat<N>(x: N, n: nat): seq<N> {
    seq(n, _ => x)
  }

  function Pad<N>(zero: N, leaves: seq<N>, n: nat): seq<N>
    requires |leaves| <= n
  {
    leaves + Repeat(zero, n - |leaves|)
  }

  /** One layer up, of `n` nodes: neighbours hashed together. */
  function Combine<N>(hasher: Hasher<N>, layer: seq<N>, n: nat): (up: seq<N>)
    requires |layer| == 2 * n
    ensures |up| == n
    decreases n
  {
    if n == 0 then [] else [hasher.combine(layer[0], layer[1])] + Combine(hasher, layer[2..], n - 1)
  }

  function BottomUp<N>(hasher: Hasher<N>, layer: seq<N>, d: nat): N
    requires |layer| == Pow2(d)
    decreases d
  {
    if d == 0 then layer[0] else BottomUp(hasher, Combine(hasher, layer, Pow2(d - 1)), d - 1)
  }

  lemma {:induction false} CombineConcat<N>(hasher: Hasher<N>, a: seq<N>, n: nat, b: seq<N>, m: nat)
    requires |a| == 2 * n && |b| == 2 * m
    ensures Combine(hasher, a + b, n + m) == Combine(hasher, a, n) + Combine(hasher, b, m)
    decreases n
  {
    if n == 0 {
      assert a + b == b;
    } else {
      assert (a + b)[2..] == a[2..] + b;
      CombineConcat(hasher, a[2..], n - 1, b, m);
    }
  }

  /** Combining a layer combines its halves. */
  lemma CombineHalves<N>(hasher: Hasher<N>, layer: seq<N>, n: nat)
    requires |layer| == 4 * n
    ensures Combine(hasher, layer, 2 * n)[..n] == Combine(hasher, layer[..2 * n], n)
    ensures Combine(hasher, layer, 2 * n)[n..] == Combine(hasher, layer[2 * n..], n)
  {
    assert layer == layer[..2 * n] + layer[2 * n..];
    CombineConcat(hasher, layer[..2 * n], n, layer[2 * n..], n);
  }

  lemma {:induction false} BottomUpSplits<N>(hasher: Hasher<N>, layer: seq<N>, d: nat)
    requires |layer| == 2 * Pow2(d)
    ensures BottomUp(hasher, layer, d + 1)
         == hasher.combine(BottomUp(hasher, layer[..Pow2(d)], d), BottomUp(hasher, layer[Pow2(d)..], d))
    decreases d
  {
    var up := Combine(hasher, layer, Pow2(d));
    assert BottomUp(hasher, layer, d + 1) == BottomUp(hasher, up, d);
    if d > 0 {
      var n := Pow2(d - 1);
      CombineHalves(hasher, layer, n);
      BottomUpSplits(hasher, up, d - 1);
      assert BottomUp(hasher, layer[..2 * n], d) == BottomUp(hasher, up[..n], d - 1);
      assert BottomUp(hasher, layer[2 * n..], d) == BottomUp(hasher, up[n..], d - 1);
    }
  }

  lemma PadHalves<N>(hasher: Hasher<N>, leaves: seq<N>, d: nat)
    requires d > 0 && |leaves| <= Pow2(d)
    ensures Pad(hasher.zero, leaves, Pow2(d))[..Pow2(d - 1)] == Pad(hasher.zero, Left(leaves, d), Pow2(d - 1))
    ensures Pad(hasher.zero, leaves, Pow2(d))[Pow2(d - 1)..] == Pad(hasher.zero, Right(leaves, d), Pow2(d - 1))
  {
  }

  /** Padding with zeros on demand, half by half, is the same as padding first and hashing layer by layer. */
  lemma {:induction false} RootIsBottomUp<N>(hasher: Hasher<N>, leaves: seq<N>, d: nat)
    requires |leaves| <= Pow2(d)
    ensures Root(hasher, leaves, d) == BottomUp(hasher, Pad(hasher.zero, leaves, Pow2(d)), d)
    decreases d
  {
    if d > 0 {
      RootIsBottomUp(hasher, Left(leaves, d), d - 1);
      RootIsBottomUp(hasher, Right(leaves, d), d - 1);
      PadHalves(hasher, leaves, d);
      BottomUpSplits(hasher, Pad(hasher.zero, leaves, Pow2(d)), d - 1);
    }
  }

  // ----- Limits

  /** The least depth whose tree holds `n` leaves. */
  function Depth(n: nat): (d: nat)
    ensures n <= Pow2(d)
    ensures d > 0 ==> Pow2(d - 1) < n
  {
    DepthFrom(n, 0)
  }

  function DepthFrom(n: nat, d: nat): (r: nat)
    requires d > 0 ==> Pow2(d - 1) < n
    ensures n <= Pow2(r)
    ensures r > 0 ==> Pow2(r - 1) < n
    decreases n - Pow2(d)
  {
    if n <= Pow2(d) then d else DepthFrom(n, d + 1)
  }

  /** `merkleize(chunks, limit)`. */
  function Merkleize<N>(hasher: Hasher<N>, chunks: seq<N>, limit: nat): N
    requires |chunks| <= Pow2(Depth(limit))
  {
    Root(hasher, chunks, Depth(limit))
  }

  // ----- Equal roots and collisions

  datatype Pair<+N> = Pair(left: N, right: N)

  datatype Collision<+N> = Collision(first: Pair<N>, second: Pair<N>)

  /** Two different pairs with the same hash. */
  predicate Collides<N(==)>(hasher: Hasher<N>, c: Collision<N>) {
    c.first != c.second && hasher.combine(c.first.left, c.first.right) == hasher.combine(c.second.left, c.second.right)
  }

  /** The children of the root of a tree. */
  function Children<N>(hasher: Hasher<N>, leaves: seq<N>, d: nat): Pair<N>
    requires d > 0 && |leaves| <= Pow2(d)
  {
    Pair(Root(hasher, Left(leaves, d), d - 1), Root(hasher, Right(leaves, d), d - 1))
  }

  /** Descends two trees of equal roots to a node where the children differ. */
  function FindCollision<N(==)>(hasher: Hasher<N>, xs: seq<N>, ys: seq<N>, d: nat): Collision<N>
    requires d > 0 && |xs| == |ys| <= Pow2(d)
    decreases d
  {
    if d == 1 || Children(hasher, xs, d) != Children(hasher, ys, d)
    then Collision(Children(hasher, xs, d), Children(hasher, ys, d))
    else if Left(xs, d) != Left(ys, d) then FindCollision(hasher, Left(xs, d), Left(ys, d), d - 1)
    else FindCollision(hasher, Right(xs, d), Right(ys, d), d - 1)
  }

  /** Trees of one level: different leaves are different children. */
  lemma SingleLevel<N>(hasher: Hasher<N>, xs: seq<N>, ys: seq<N>)
    requires |xs| == |ys| <= 2 && xs != ys
    ensures Children(hasher, xs, 1) != Children(hasher, ys, 1)
  {
    HalvesDiffer(xs, ys, 1);
    SingleLeaf(Left(xs, 1), Left(ys, 1));
    SingleLeaf(Right(xs, 1), Right(ys, 1));
  }

  lemma RootOfChildren<N>(hasher: Hasher<N>, leaves: seq<N>, d: nat)
    requires d > 0 && |leaves| <= Pow2(d)
    ensures Root(hasher, leaves, d)
            == hasher.combine(Children(hasher, leaves, d).left, Children(hasher, leaves, d).right)
  {
  }

  /** Different leaves under one root exhibit a collision of the hash. */
  lemma {:induction false} EqualRootsCollide<N>(hasher: Hasher<N>, xs: seq<N>, ys: seq<N>, d: nat)
    requires d > 0 && |xs| == |ys| <= Pow2(d)
    requires xs != ys && Root(hasher, xs, d) == Root(hasher, ys, d)
    ensures Collides(hasher, FindCollision(hasher, xs, ys, d))
    decreases d
  {
    RootOfChildren(hasher, xs, d);
    RootOfChildren(hasher, ys, d);
    if d == 1 {
      SingleLevel(hasher, xs, ys);
    } else if Children(hasher, xs, d) == Children(hasher, ys, d) {
      HalvesDiffer(xs, ys, d);
      if Left(xs, d) != Left(ys, d) {
        EqualRootsCollide(hasher, Left(xs, d), Left(ys, d), d - 1);
      } else {
        EqualRootsCollide(hasher, Right(xs, d), Right(ys, d), d - 1);
      }
    }
  }

  lemma HalvesDiffer<N>(xs: seq<N>, ys: seq<N>, d: nat)
    requires d > 0 && |xs| == |ys| <= Pow2(d) && xs != ys
    ensures Left(xs, d) != Left(ys, d) || Right(xs, d) != Right(ys, d)
  {
    if |xs| > Pow2(d - 1) {
      assert xs == xs[..Pow2(d - 1)] + xs[Pow2(d - 1)..];
      assert ys == ys[..Pow2(d - 1)] + ys[Pow2(d - 1)..];
    }
  }

  lemma SingleLeaf<N>(x: seq<N>, y: seq<N>)
    requires |x| == |y| <= 1
    ensures x != y ==> |x| == 1 && x[0] != y[0]
  {
    if |x| == 1 && x[0] == y[0] {
      assert x == [x[0]] && y == [y[0]];
    }
  }
}
