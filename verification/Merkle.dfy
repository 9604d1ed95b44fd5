/** The transaction Merkle tree of a block, and what its root fixes. */
module Merkle {
  import opened Bytes
  import opened Options

  type Hash = h: seq<byte> | |h| == 32 witness seq(32, _ => 0)

  /** SHA-256d is a parameter: nothing is assumed about it. */
  type HashFunction = seq<byte> -> Hash

  predicate Collides(sha256d: HashFunction, x: seq<byte>, y: seq<byte>)
  {
    x != y && sha256d(x) == sha256d(y)
  }

  // ---- The computation ----

  /** What is hashed for the q-th pair of a layer; an odd last node is paired with itself. */
  function Preimage(hashes: seq<Hash>, q: nat): seq<byte>
    requires 2 * q < |hashes|
  {
    var left: seq<byte> := hashes[2 * q];
    left + if 2 * q + 1 < |hashes| then hashes[2 * q + 1] else left
  }

  function Layer(sha256d: HashFunction, hashes: seq<Hash>): (r: seq<Hash>)
    ensures |r| == (|hashes| + 1) / 2
    ensures forall q :: 0 <= q < |r| ==> r[q] == sha256d(Preimage(hashes, q))
  {
    seq<Hash>((|hashes| + 1) / 2, q requires 0 <= q < (|hashes| + 1) / 2 => sha256d(Preimage(hashes, q)))
  }

  function Root(sha256d: HashFunction, hashes: seq<Hash>): Hash
    requires hashes != []
    decreases |hashes|
  {
    if |hashes| == 1 then hashes[0] else Root(sha256d, Layer(sha256d, hashes))
  }

  /** None stands for the panic on indexing an empty list. */
  method TransactionsMerkleRoot(sha256d: HashFunction, txids: seq<Hash>) returns (root: Option<Hash>)
    ensures root == if txids == [] then None else Some(Root(sha256d, txids))
  {
    var hashes := txids;
    while |hashes| > 1
      invariant hashes == [] <==> txids == []
      invariant txids != [] ==> Root(sha256d, hashes) == Root(sha256d, txids)
      decreases |hashes|
    {
      hashes := Layer(sha256d, hashes);
    }
    if |hashes| == 0 {
      return None;
    }
    return Some(hashes[0]);
  }

  // ---- The full tree a list stands for ----

  function Pow2(n: nat): (r: nat)
    ensures r > 0
  {
    if n == 0 then 1 else 2 * Pow2(n - 1)
  }

  function Depth(n: nat): nat
  {
    if n <= 1 then 0 else 1 + Depth((n + 1) / 2)
  }

  /** The list index found at leaf j of the full tree over a list of n entries. */
  function Leaf(n: nat, j: nat): (i: nat)
    requires n > 0
    ensures i < n
    decreases n
  {
    if n == 1 then 0
    else
      var i := 2 * Leaf((n + 1) / 2, j / 2);
      if i + j % 2 < n then i + j % 2 else i
  }

  /** All leaves of the full tree: the odd node of each level is repeated. */
  function Expand(hashes: seq<Hash>): (r: seq<Hash>)
    requires hashes != []
    ensures |r| == Pow2(Depth(|hashes|))
    ensures forall j :: 0 <= j < |r| ==> r[j] == hashes[Leaf(|hashes|, j)]
  {
    seq(Pow2(Depth(|hashes|)), j requires 0 <= j => hashes[Leaf(|hashes|, j)])
  }

  lemma {:induction false} LeafFixed(n: nat, i: nat)
    requires i < n
    ensures i < Pow2(Depth(n)) && Leaf(n, i) == i
    decreases n
  {
    if n > 1 {
      LeafFixed((n + 1) / 2, i / 2);
    }
  }

  /** Expansion only appends repetitions: the list is a prefix of it and has the same members. */
  lemma ExpandExtends(hashes: seq<Hash>)
    requires hashes != []
    ensures hashes <= Expand(hashes)
    ensures forall h :: h in hashes <==> h in Expand(hashes)
  {
    var full := Expand(hashes);
    forall i | 0 <= i < |hashes|
      ensures i < |full| && full[i] == hashes[i]
    {
      LeafFixed(|hashes|, i);
    }
    if |hashes| > |full| {
      LeafFixed(|hashes|, |hashes| - 1);
    }
  }

  // ---- The root from the top down ----

  lemma {:induction false} DepthIsLeast(n: nat)
    requires n > 0
    ensures n <= Pow2(Depth(n)) && (n > 1 ==> Pow2(Depth(n) - 1) < n)
  {
    if n > 1 {
      DepthIsLeast((n + 1) / 2);
    }
  }

  /** The root of a full tree of a given depth: halves are hashed left before right, and a half without leaves
      is a copy of the one to its left. */
  function TopDown(sha256d: HashFunction, hashes: seq<Hash>, depth: nat): Hash
    requires 0 < |hashes| <= Pow2(depth)
    decreases depth
  {
    if depth == 0 then hashes[0]
    else
      var half := Pow2(depth - 1);
      if |hashes| <= half then
        var left := TopDown(sha256d, hashes, depth - 1);
        sha256d(left + left)
      else sha256d(TopDown(sha256d, hashes[..half], depth - 1) + TopDown(sha256d, hashes[half..], depth - 1))
  }

  lemma LayerFirst(sha256d: HashFunction, hashes: seq<Hash>, half: nat)
    requires 2 * half < |hashes|
    ensures Layer(sha256d, hashes)[..half] == Layer(sha256d, hashes[..2 * half])
    ensures Layer(sha256d, hashes)[half..] == Layer(sha256d, hashes[2 * half..])
  {
    var all, left, right := Layer(sha256d, hashes), hashes[..2 * half], hashes[2 * half..];
    forall q | 0 <= q < half
      ensures all[q] == Layer(sha256d, left)[q]
    {
      assert Preimage(hashes, q) == Preimage(left, q);
    }
    forall q | 0 <= q < |all| - half
      ensures all[half + q] == Layer(sha256d, right)[q]
    {
      assert Preimage(hashes, half + q) == Preimage(right, q);
    }
  }

  lemma TopDownCopies(sha256d: HashFunction, hashes: seq<Hash>, depth: nat)
    requires depth > 0 && 0 < |hashes| <= Pow2(depth - 1)
    ensures |hashes| <= Pow2(depth)
    ensures var left := TopDown(sha256d, hashes, depth - 1);
            TopDown(sha256d, hashes, depth) == sha256d(left + left)
  {
  }

  lemma TopDownSplits(sha256d: HashFunction, hashes: seq<Hash>, depth: nat)
    requires depth > 0 && Pow2(depth - 1) < |hashes| <= Pow2(depth)
    ensures var half := Pow2(depth - 1);
            TopDown(sha256d, hashes, depth)
            == sha256d(TopDown(sha256d, hashes[..half], depth - 1) + TopDown(sha256d, hashes[half..], depth - 1))
  {
  }

  lemma {:induction false} TopDownPair(sha256d: HashFunction, hashes: seq<Hash>)
    requires 0 < |hashes| <= 2
    ensures |hashes| <= Pow2(1) && |Layer(sha256d, hashes)| == 1
    ensures TopDown(sha256d, hashes, 1) == TopDown(sha256d, Layer(sha256d, hashes), 0)
  {
    var left: seq<byte> := hashes[0];
    assert Preimage(hashes, 0) == left + hashes[|hashes| - 1];
    assert |hashes| == 2 ==> hashes[..1][0] == hashes[0] && hashes[1..][0] == hashes[1];
  }

  lemma {:induction false} TopDownLayer(sha256d: HashFunction, hashes: seq<Hash>, depth: nat)
    requires depth > 0 && 0 < |hashes| <= Pow2(depth)
    ensures |Layer(sha256d, hashes)| <= Pow2(depth - 1)
    ensures TopDown(sha256d, hashes, depth) == TopDown(sha256d, Layer(sha256d, hashes), depth - 1)
    decreases depth
  {
    hide TopDown, Layer, Preimage;
    var half := Pow2(depth - 1);
    if depth == 1 {
      TopDownPair(sha256d, hashes);
    } else if |hashes| <= half {
      TopDownLayer(sha256d, hashes, depth - 1);
      TopDownCopies(sha256d, hashes, depth);
      TopDownCopies(sha256d, Layer(sha256d, hashes), depth - 1);
    } else {
      TopDownLayer(sha256d, hashes[..half], depth - 1);
      TopDownLayer(sha256d, hashes[half..], depth - 1);
      TopDownSplits(sha256d, hashes, depth);
      LayerFirst(sha256d, hashes, Pow2(depth - 2));
      TopDownSplits(sha256d, Layer(sha256d, hashes), depth - 1);
    }
  }

  /** The layers computed from the bottom give the root of the full tree with as few levels as possible. */
  lemma {:induction false} RootIsTopDown(sha256d: HashFunction, hashes: seq<Hash>)
    requires hashes != []
    ensures |hashes| <= Pow2(Depth(|hashes|))
    ensures Root(sha256d, hashes) == TopDown(sha256d, hashes, Depth(|hashes|))
    decreases |hashes|
  {
    DepthIsLeast(|hashes|);
    if |hashes| > 1 {
      TopDownLayer(sha256d, hashes, Depth(|hashes|));
      RootIsTopDown(sha256d, Layer(sha256d, hashes));
    }
    hide Layer, TopDown;
  }

  // ---- The root binds the expansion ----

  /** Compares, parent by parent, what two lists hash one level up. */
  function LevelCollision(sha256d: HashFunction, a: seq<Hash>, b: seq<Hash>, j: nat, limit: nat)
    : (r: Option<(seq<byte>, seq<byte>)>)
    requires |a| > 1 && |b| > 1
    ensures r.Some? ==> Collides(sha256d, r.value.0, r.value.1)
    decreases limit - j
  {
    if j >= limit then None
    else
      var x := Preimage(a, Leaf((|a| + 1) / 2, j));
      var y := Preimage(b, Leaf((|b| + 1) / 2, j));
      if Collides(sha256d, x, y) then Some((x, y)) else LevelCollision(sha256d, a, b, j + 1, limit)
  }

  /** Searches the two trees, from the root down, for a collision. */
  function TreeCollision(sha256d: HashFunction, a: seq<Hash>, b: seq<Hash>): (r: Option<(seq<byte>, seq<byte>)>)
    requires a != [] && b != []
    ensures r.Some? ==> Collides(sha256d, r.value.0, r.value.1)
    decreases |a|
  {
    if |a| == 1 || |b| == 1 then None
    else
      var above := TreeCollision(sha256d, Layer(sha256d, a), Layer(sha256d, b));
      if above.Some? then above
      else LevelCollision(sha256d, a, b, 0, Pow2(Depth((|a| + 1) / 2)))
  }

  lemma {:induction false} LevelAgrees(sha256d: HashFunction, a: seq<Hash>, b: seq<Hash>, j: nat, limit: nat, k: nat)
    requires |a| > 1 && |b| > 1
    requires LevelCollision(sha256d, a, b, j, limit).None?
    requires j <= k < limit
    ensures !Collides(sha256d, Preimage(a, Leaf((|a| + 1) / 2, k)), Preimage(b, Leaf((|b| + 1) / 2, k)))
    decreases limit - j
  {
    if j < k {
      LevelAgrees(sha256d, a, b, j + 1, limit, k);
    }
  }

  /** What is hashed for parent q of the full tree: leaves 2q and 2q + 1. */
  lemma {:induction false} PreimageOfLeaves(hashes: seq<Hash>, q: nat)
    requires |hashes| > 1
    ensures var x := Preimage(hashes, Leaf((|hashes| + 1) / 2, q));
            |x| == 64 && x[..32] == hashes[Leaf(|hashes|, 2 * q)] && x[32..] == hashes[Leaf(|hashes|, 2 * q + 1)]
  {
    assert (2 * q) / 2 == q && (2 * q + 1) / 2 == q;
  }

  /** Equal parents that are no collision have equal children. */
  lemma {:induction false} ChildrenAgree(sha256d: HashFunction, a: seq<Hash>, b: seq<Hash>, q: nat)
    requires |a| > 1 && |b| > 1
    requires Layer(sha256d, a)[Leaf((|a| + 1) / 2, q)] == Layer(sha256d, b)[Leaf((|b| + 1) / 2, q)]
    requires !Collides(sha256d, Preimage(a, Leaf((|a| + 1) / 2, q)), Preimage(b, Leaf((|b| + 1) / 2, q)))
    ensures a[Leaf(|a|, 2 * q)] == b[Leaf(|b|, 2 * q)]
    ensures a[Leaf(|a|, 2 * q + 1)] == b[Leaf(|b|, 2 * q + 1)]
  {
    PreimageOfLeaves(a, q);
    PreimageOfLeaves(b, q);
    hide Preimage, Leaf;
  }

  lemma {:induction false} LevelsAgree(sha256d: HashFunction, a: seq<Hash>, b: seq<Hash>)
    requires |a| > 1 && |b| > 1 && Depth(|a|) == Depth(|b|)
    requires LevelCollision(sha256d, a, b, 0, Pow2(Depth((|a| + 1) / 2))).None?
    requires Expand(Layer(sha256d, a)) == Expand(Layer(sha256d, b))
    ensures Expand(a) == Expand(b)
  {
    var la, lb := Layer(sha256d, a), Layer(sha256d, b);
    assert |Expand(a)| == |Expand(b)| == 2 * |Expand(la)|;
    hide LevelCollision, Preimage, Leaf, Expand, Depth, Pow2;
    forall j | 0 <= j < |Expand(a)|
      ensures Expand(a)[j] == Expand(b)[j]
    {
      var q := j / 2;
      assert Expand(la)[q] == Expand(lb)[q];
      LevelAgrees(sha256d, a, b, 0, Pow2(Depth((|a| + 1) / 2)), q);
      ChildrenAgree(sha256d, a, b, q);
      assert j == 2 * q || j == 2 * q + 1;
    }
  }

  /** Two lists of the same depth with the same root expand to the same leaves,
      unless the search returns a SHA-256d collision. */
  lemma {:induction false} RootBindsExpansion(sha256d: HashFunction, a: seq<Hash>, b: seq<Hash>)
    requires a != [] && b != []
    requires Depth(|a|) == Depth(|b|)
    requires Root(sha256d, a) == Root(sha256d, b)
    ensures TreeCollision(sha256d, a, b).Some? || Expand(a) == Expand(b)
    decreases |a|
  {
    if |a| > 1 && TreeCollision(sha256d, a, b).None? {
      RootBindsExpansion(sha256d, Layer(sha256d, a), Layer(sha256d, b));
      LevelsAgree(sha256d, a, b);
    }
  }

  /** So, at a given depth, the root decides which transactions are in the block. */
  lemma {:induction false} RootDecidesMembership(sha256d: HashFunction, a: seq<Hash>, b: seq<Hash>, txid: Hash)
    requires a != [] && b != []
    requires Depth(|a|) == Depth(|b|)
    requires Root(sha256d, a) == Root(sha256d, b)
    ensures TreeCollision(sha256d, a, b).Some? || (txid in a <==> txid in b)
  {
    RootBindsExpansion(sha256d, a, b);
    ExpandExtends(a);
    ExpandExtends(b);
  }

  /** Conversely, lists with the same expansion have the same root, whatever the hash is. */
  lemma {:induction false} ExpansionDecidesRoot(sha256d: HashFunction, a: seq<Hash>, b: seq<Hash>)
    requires a != [] && b != []
    requires Depth(|a|) == Depth(|b|)
    requires Expand(a) == Expand(b)
    ensures Root(sha256d, a) == Root(sha256d, b)
    decreases |a|
  {
    if |a| == 1 {
      assert Expand(a)[0] == Expand(b)[0];
    } else {
      var la, lb := Layer(sha256d, a), Layer(sha256d, b);
      forall q | 0 <= q < |Expand(la)|
        ensures Expand(la)[q] == Expand(lb)[q]
      {
        assert Expand(a)[2 * q] == Expand(b)[2 * q] && Expand(a)[2 * q + 1] == Expand(b)[2 * q + 1];
        PreimageOfLeaves(a, q);
        PreimageOfLeaves(b, q);
        var x, y := Preimage(a, Leaf(|la|, q)), Preimage(b, Leaf(|lb|, q));
        assert x == x[..32] + x[32..] && y == y[..32] + y[32..];
      }
      assert Expand(la) == Expand(lb);
      ExpansionDecidesRoot(sha256d, la, lb);
    }
  }

  /** The depth has to be fixed: a pair and its parent have the same root. */
  lemma DepthIsNotBound(sha256d: HashFunction, left: Hash, right: Hash)
    ensures Root(sha256d, [left, right]) == Root(sha256d, [sha256d(left + right)])
  {
    var pair := [left, right];
    assert Preimage(pair, 0) == left + right;
    assert Layer(sha256d, pair) == [sha256d(left + right)];
  }
}
