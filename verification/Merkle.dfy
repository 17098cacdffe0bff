/** The padded, domain-separated Merkle tree: root, single proof, batch and verifier. */
module Merkle {
  import opened Text
  import opened Digests

  const LEAF_TAG: string := "mcpose/v2/leaf\0"
  const NODE_TAG: string := "mcpose/v2/node\0"

  /** No array the program can hold is longer. */
  const MAX_ARRAY: nat := 0xFFFF_FFFF
  const MAX_SAFE_INTEGER: nat := 0x1F_FFFF_FFFF_FFFF

  /** What the tree hashes: nothing, a tagged leaf, or a tagged pair run together without a separator. */
  datatype Input = Nothing | Leaf(x: string) | Node(left: string, right: string)

  ghost function Bytes(p: Input): string {
    match p
    case Nothing => ""
    case Leaf(x) => LEAF_TAG + x
    case Node(left, right) => NODE_TAG + left + right
  }

  ghost function HashOf(h: Hash, p: Input): Digest { h(Bytes(p)) }

  /** Two different strings, one hashed by each party, with one digest. */
  ghost predicate Collide(h: Hash, xs: seq<Input>, ys: seq<Input>) {
    exists p, q :: p in xs && q in ys && Bytes(p) != Bytes(q) && HashOf(h, p) == HashOf(h, q)
  }

  // ---- The tree, layer by layer ----

  type Layer = seq<Digest>

  /** The right child of pair i: its partner, or itself at the end of an odd layer. */
  function RightChild(layer: Layer, i: nat): Digest
    requires 2 * i < |layer|
  {
    if 2 * i + 1 < |layer| then layer[2 * i + 1] else layer[2 * i]
  }

  /** What is hashed to make the layer above: each pair, the last node with itself on an odd layer. */
  function Pairs(layer: Layer): (s: seq<Input>)
    ensures |s| == (|layer| + 1) / 2
  {
    if layer == [] then []
    else if |layer| == 1 then [Node(layer[0], layer[0])]
    else [Node(layer[0], layer[1])] + Pairs(layer[2..])
  }

  lemma {:induction false} PairAt(layer: Layer, i: nat)
    requires 2 * i < |layer|
    ensures Pairs(layer)[i] == Node(layer[2 * i], RightChild(layer, i))
  {
    if i > 0 { PairAt(layer[2..], i - 1); }
  }

  ghost function HashAll(h: Hash, inputs: seq<Input>): (layer: Layer)
    ensures |layer| == |inputs|
  {
    seq(|inputs|, i requires 0 <= i < |inputs| => HashOf(h, inputs[i]))
  }

  ghost function NextLayer(h: Hash, layer: Layer): (next: Layer)
    ensures |next| == (|layer| + 1) / 2
  {
    HashAll(h, Pairs(layer))
  }

  function LeafInputs(hashes: seq<string>): (s: seq<Input>)
    ensures |s| == |hashes|
  {
    seq(|hashes|, i requires 0 <= i < |hashes| => Leaf(hashes[i]))
  }

  ghost function Leaves(h: Hash, hashes: seq<string>): (layer: Layer)
    ensures |layer| == |hashes|
  {
    HashAll(h, LeafInputs(hashes))
  }

  ghost function RootOf(h: Hash, layer: Layer): Digest
    requires layer != []
    decreases |layer|
  {
    if |layer| == 1 then layer[0] else RootOf(h, NextLayer(h, layer))
  }

  ghost function Root(h: Hash, hashes: seq<string>): Digest {
    if hashes == [] then HashOf(h, Nothing) else RootOf(h, Leaves(h, hashes))
  }

  /** How many layers lie above a layer of n nodes. */
  function Depth(n: nat): nat {
    if n <= 1 then 0 else 1 + Depth((n + 1) / 2)
  }

  // ---- Proofs ----

  datatype Direction = Left | Right

  /** A proof as a caller supplies it; a None sibling is a hole in the array. */
  datatype MerkleProof = MerkleProof(index: int, siblings: seq<Option<string>>, directions: seq<Direction>)

  function DirectionOf(idx: nat): Direction {
    if idx % 2 == 0 then Right else Left
  }

  /** The partner of a node in its layer. */
  function Sibling(layer: Layer, idx: nat): Digest
    requires idx < |layer|
  {
    if idx % 2 == 1 then layer[idx - 1] else if idx + 1 < |layer| then layer[idx + 1] else layer[idx]
  }

  ghost function SiblingsOf(h: Hash, layer: Layer, idx: nat): (s: seq<Option<string>>)
    requires idx < |layer|
    ensures |s| == Depth(|layer|)
    decreases |layer|
  {
    if |layer| == 1 then [] else [Some(Sibling(layer, idx))] + SiblingsOf(h, NextLayer(h, layer), idx / 2)
  }

  function DirectionsOf(depth: nat, idx: nat): (s: seq<Direction>)
    ensures |s| == depth
  {
    if depth == 0 then [] else [DirectionOf(idx)] + DirectionsOf(depth - 1, idx / 2)
  }

  ghost function ProofOf(h: Hash, hashes: seq<string>, index: nat): MerkleProof
    requires index < |hashes|
  {
    var leaves := Leaves(h, hashes);
    MerkleProof(index, SiblingsOf(h, leaves, index), DirectionsOf(Depth(|hashes|), index))
  }

  // ---- The verifier ----

  /** What one level of the verifier hashes. */
  ghost function Step(current: Digest, idx: nat, sibling: string): Input {
    if idx % 2 == 0 then Node(current, sibling) else Node(sibling, current)
  }

  /** The verifier's walk: where it ends and what is left of the index, or None on a malformed level. */
  ghost function Climb(h: Hash, current: Digest, idx: nat, siblings: seq<Option<string>>, directions: seq<Direction>)
    : Option<(Digest, nat)>
    requires |siblings| == |directions|
    decreases |siblings|
  {
    if siblings == [] then Some((current, idx))
    else if directions[0] != DirectionOf(idx) || siblings[0].None? then None
    else Climb(h, HashOf(h, Step(current, idx, siblings[0].value)), idx / 2, siblings[1..], directions[1..])
  }

  ghost predicate Accepts(h: Hash, leaf: string, proof: MerkleProof, root: string) {
    && 0 <= proof.index <= MAX_SAFE_INTEGER
    && |proof.siblings| == |proof.directions|
    && var end := Climb(h, HashOf(h, Leaf(leaf)), proof.index, proof.siblings, proof.directions);
       end.Some? && end.value.1 == 0 && end.value.0 == root
  }

  // ---- The strings each party hashes ----

  /** The layer a given number of levels above the leaves. */
  ghost function Level(h: Hash, layer: Layer, k: nat): Layer {
    if k == 0 then layer else NextLayer(h, Level(h, layer, k - 1))
  }

  /** What is hashed to build the first k levels above a layer, in order. */
  ghost function NodeInputs(h: Hash, layer: Layer, k: nat): seq<Input> {
    if k == 0 then [] else NodeInputs(h, layer, k - 1) + Pairs(Level(h, layer, k - 1))
  }

  /** Everything hashed to build the tree, in order, each call once. */
  ghost function TreeInputs(h: Hash, hashes: seq<string>): seq<Input> {
    if hashes == [] then [Nothing]
    else LeafInputs(hashes) + NodeInputs(h, Leaves(h, hashes), Depth(|hashes|))
  }

  ghost function ClimbInputs(h: Hash, current: Digest, idx: nat, siblings: seq<Option<string>>): seq<Input>
    decreases |siblings|
  {
    if siblings == [] || siblings[0].None? then []
    else
      var p := Step(current, idx, siblings[0].value);
      [p] + ClimbInputs(h, HashOf(h, p), idx / 2, siblings[1..])
  }

  /** Everything the verifier hashes for one leaf and one list of siblings. */
  ghost function VerifierInputs(h: Hash, leaf: string, idx: nat, siblings: seq<Option<string>>): seq<Input> {
    [Leaf(leaf)] + ClimbInputs(h, HashOf(h, Leaf(leaf)), idx, siblings)
  }

  // ---- The tree from the top, in terms of the hash and the strings alone ----

  ghost function Pow2(k: nat): (p: nat)
    ensures p > 0
  {
    if k == 0 then 1 else 2 * Pow2(k - 1)
  }

  /** Proofs are as short as a tree of that many leaves allows. */
  lemma {:induction false} DepthBounds(n: nat)
    ensures n <= Pow2(Depth(n))
    ensures n >= 2 ==> Depth(n) >= 1 && Pow2(Depth(n) - 1) < n
  {
    if n >= 2 { DepthBounds((n + 1) / 2); }
  }

  /**
   The hash of a tree of k levels over at most 2^k elements: an element hashed with the leaf tag, or two
   halves hashed with the node tag, the second half being the first again where there are no elements for it.
   */
  ghost function TreeHash(h: Hash, xs: seq<string>, k: nat): Digest
    requires 0 < |xs| <= Pow2(k)
  {
    if k == 0 then h("mcpose/v2/leaf\0" + xs[0])
    else if |xs| <= Pow2(k - 1) then
      var half := TreeHash(h, xs, k - 1);
      h("mcpose/v2/node\0" + half + half)
    else
      var p := Pow2(k - 1);
      h("mcpose/v2/node\0" + TreeHash(h, xs[..p], k - 1) + TreeHash(h, xs[p..], k - 1))
  }

  /** The siblings of element i from the bottom up: at the top, the half it is not in. */
  ghost function TreeSiblings(h: Hash, xs: seq<string>, k: nat, i: nat): seq<Option<string>>
    requires i < |xs| <= Pow2(k)
  {
    if k == 0 then []
    else
      var p := Pow2(k - 1);
      if |xs| <= p then TreeSiblings(h, xs, k - 1, i) + [Some(TreeHash(h, xs, k - 1))]
      else if i < p then TreeSiblings(h, xs[..p], k - 1, i) + [Some(TreeHash(h, xs[p..], k - 1))]
      else TreeSiblings(h, xs[p..], k - 1, i - p) + [Some(TreeHash(h, xs[..p], k - 1))]
  }

  /** The sides those siblings stand on: right of an element in the first half, left of one in the second. */
  ghost function TreeDirections(k: nat, i: nat): seq<Direction>
    requires i < Pow2(k)
  {
    if k == 0 then []
    else if i < Pow2(k - 1) then TreeDirections(k - 1, i) + [Right]
    else TreeDirections(k - 1, i - Pow2(k - 1)) + [Left]
  }

  // The same three over a finished layer, and that one level down changes nothing.

  ghost function Tower(h: Hash, layer: Layer, k: nat): Digest
    requires 0 < |layer| <= Pow2(k)
  {
    if k == 0 then layer[0]
    else if |layer| <= Pow2(k - 1) then HashOf(h, Node(Tower(h, layer, k - 1), Tower(h, layer, k - 1)))
    else
      var p := Pow2(k - 1);
      HashOf(h, Node(Tower(h, layer[..p], k - 1), Tower(h, layer[p..], k - 1)))
  }

  ghost function TowerSiblings(h: Hash, layer: Layer, k: nat, i: nat): seq<Option<string>>
    requires i < |layer| <= Pow2(k)
  {
    if k == 0 then []
    else
      var p := Pow2(k - 1);
      if |layer| <= p then TowerSiblings(h, layer, k - 1, i) + [Some(Tower(h, layer, k - 1))]
      else if i < p then TowerSiblings(h, layer[..p], k - 1, i) + [Some(Tower(h, layer[p..], k - 1))]
      else TowerSiblings(h, layer[p..], k - 1, i - p) + [Some(Tower(h, layer[..p], k - 1))]
  }

  lemma NextSplits(h: Hash, layer: Layer, q: nat)
    requires 2 * q <= |layer|
    ensures NextLayer(h, layer[..2 * q]) == NextLayer(h, layer)[..q]
    ensures NextLayer(h, layer[2 * q..]) == NextLayer(h, layer)[q..]
  {
    var next := NextLayer(h, layer);
    forall i | 0 <= i < q ensures NextLayer(h, layer[..2 * q])[i] == next[i] {
      NextNode(h, layer[..2 * q], i);
      NextNode(h, layer, i);
    }
    forall i | 0 <= i < |next| - q ensures NextLayer(h, layer[2 * q..])[i] == next[q + i] {
      NextNode(h, layer[2 * q..], i);
      NextNode(h, layer, q + i);
    }
  }

  lemma LiftHalves(h: Hash, layer: Layer, k: nat, q: nat)
    requires k > 1 && q == Pow2(k - 2) && 2 * q < |layer| <= Pow2(k)
    requires |layer| - 2 * q <= Pow2(k - 1) && q < |NextLayer(h, layer)| <= Pow2(k - 1)
    requires Tower(h, layer[..2 * q], k - 1) == Tower(h, NextLayer(h, layer)[..q], k - 2)
    requires Tower(h, layer[2 * q..], k - 1) == Tower(h, NextLayer(h, layer)[q..], k - 2)
    ensures Tower(h, layer, k) == Tower(h, NextLayer(h, layer), k - 1)
  {
  }

  lemma LiftBottom(h: Hash, layer: Layer)
    requires 0 < |layer| <= Pow2(1)
    ensures |NextLayer(h, layer)| == 1 && Tower(h, layer, 1) == NextLayer(h, layer)[0]
  {
    NextNode(h, layer, 0);
  }

  /** One level down, a tower is the same tower. */
  lemma {:induction false} Lift(h: Hash, layer: Layer, k: nat)
    requires k > 0 && 0 < |layer| <= Pow2(k)
    ensures 0 < |NextLayer(h, layer)| <= Pow2(k - 1) && Tower(h, layer, k) == Tower(h, NextLayer(h, layer), k - 1)
    decreases k
  {
    if k == 1 {
      LiftBottom(h, layer);
    } else {
      var q := Pow2(k - 2);
      if |layer| <= 2 * q {
        Lift(h, layer, k - 1);
      } else {
        Lift(h, layer[..2 * q], k - 1);
        Lift(h, layer[2 * q..], k - 1);
        NextSplits(h, layer, q);
        LiftHalves(h, layer, k, q);
      }
    }
  }

  lemma {:induction false} RootIsTower(h: Hash, layer: Layer)
    requires layer != []
    ensures |layer| <= Pow2(Depth(|layer|)) && RootOf(h, layer) == Tower(h, layer, Depth(|layer|))
    decreases |layer|
  {
    DepthBounds(|layer|);
    if |layer| > 1 {
      RootAbove(h, layer);
      RootIsTower(h, NextLayer(h, layer));
      Lift(h, layer, Depth(|layer|));
    }
  }

  lemma {:induction false} TowerOfLeaves(h: Hash, xs: seq<string>, k: nat)
    requires 0 < |xs| <= Pow2(k)
    ensures Tower(h, Leaves(h, xs), k) == TreeHash(h, xs, k)
    decreases k
  {
    var leaves := Leaves(h, xs);
    if k == 0 {
      assert leaves[0] == HashOf(h, Leaf(xs[0]));
    } else if |xs| <= Pow2(k - 1) {
      TowerOfLeaves(h, xs, k - 1);
    } else {
      var p := Pow2(k - 1);
      assert leaves[..p] == Leaves(h, xs[..p]) && leaves[p..] == Leaves(h, xs[p..]);
      TowerOfLeaves(h, xs[..p], k - 1);
      TowerOfLeaves(h, xs[p..], k - 1);
    }
  }

  /** The root, by the hash function and the strings alone. */
  ghost function TreeRoot(h: Hash, xs: seq<string>): Digest {
    if xs == [] then h("") else DepthBounds(|xs|); TreeHash(h, xs, Depth(|xs|))
  }

  lemma RootIsTree(h: Hash, xs: seq<string>)
    ensures Root(h, xs) == TreeRoot(h, xs)
  {
    if xs != [] {
      RootIsTower(h, Leaves(h, xs));
      TowerOfLeaves(h, xs, Depth(|xs|));
    }
  }

  lemma {:induction false} FullTree(h: Hash, xs: seq<string>, k: nat)
    requires |xs| == Pow2(k)
    ensures Depth(|xs|) == k
    decreases k
  {
    if k > 0 { FullTree(h, xs[..Pow2(k - 1)], k - 1); }
  }

  /**
   The root of two or more elements: with p the largest power of two below their number, the node hash of
   the root of the first p and of the rest padded by repetition to a tree over p elements.
   */
  lemma RootSplits(h: Hash, xs: seq<string>) returns (k: nat, p: nat)
    requires |xs| >= 2
    ensures p == Pow2(k) && p < |xs| <= 2 * p
    ensures Root(h, xs) == h("mcpose/v2/node\0" + Root(h, xs[..p]) + TreeHash(h, xs[p..], k))
  {
    DepthBounds(|xs|);
    k := Depth(|xs|) - 1;
    p := Pow2(k);
    RootIsTree(h, xs);
    RootIsTree(h, xs[..p]);
    FullTree(h, xs[..p], k);
  }

  lemma SiblingInHalf(layer: Layer, q: nat, i: nat)
    requires 2 * q < |layer| && i < |layer|
    ensures i < 2 * q ==> Sibling(layer[..2 * q], i) == Sibling(layer, i) && i / 2 < q
    ensures i >= 2 * q ==> Sibling(layer[2 * q..], i - 2 * q) == Sibling(layer, i) && (i - 2 * q) / 2 == i / 2 - q
  {
  }

  /** One more level on top of a walk, in the three places the element can be; p is the size of a half. */
  lemma TopWhole(h: Hash, layer: Layer, k: nat, i: nat)
    requires k > 0 && i < |layer| <= Pow2(k - 1)
    ensures TowerSiblings(h, layer, k, i) == TowerSiblings(h, layer, k - 1, i) + [Some(Tower(h, layer, k - 1))]
  {
  }

  lemma TopFirst(h: Hash, layer: Layer, k: nat, i: nat, p: nat)
    requires k > 0 && p == Pow2(k - 1) && i < p < |layer| <= Pow2(k)
    ensures TowerSiblings(h, layer, k, i)
         == TowerSiblings(h, layer[..p], k - 1, i) + [Some(Tower(h, layer[p..], k - 1))]
  {
  }

  lemma TopSecond(h: Hash, layer: Layer, k: nat, i: nat, p: nat, i2: nat)
    requires k > 0 && p == Pow2(k - 1) && i == p + i2 && i < |layer| <= Pow2(k)
    ensures TowerSiblings(h, layer, k, i)
         == TowerSiblings(h, layer[p..], k - 1, i2) + [Some(Tower(h, layer[..p], k - 1))]
  {
    assert i - p == i2;
  }

  ghost predicate Lifted(h: Hash, layer: Layer, next: Layer, k: nat, i: nat, j: nat)
    requires k > 0
  {
    && i < |layer| <= Pow2(k) && j == i / 2 && j < |next| <= Pow2(k - 1)
    && TowerSiblings(h, layer, k, i) == [Some(Sibling(layer, i))] + TowerSiblings(h, next, k - 1, j)
  }

  lemma OuterWhole(h: Hash, layer: Layer, k: nat, i: nat, first: Option<string>, rest: seq<Option<string>>)
    requires k > 0 && i < |layer| <= Pow2(k - 1) && TowerSiblings(h, layer, k - 1, i) == [first] + rest
    ensures TowerSiblings(h, layer, k, i) == [first] + (rest + [Some(Tower(h, layer, k - 1))])
  {
    TopWhole(h, layer, k, i);
    Regrouped([first], rest, [Some(Tower(h, layer, k - 1))]);
  }

  lemma LiftWhole(h: Hash, layer: Layer, next: Layer, k: nat, i: nat, j: nat)
    requires k > 1 && i < |layer| <= Pow2(k - 1) && Lifted(h, layer, next, k - 1, i, j)
    requires Tower(h, layer, k - 1) == Tower(h, next, k - 2)
    ensures Lifted(h, layer, next, k, i, j)
  {
    OuterWhole(h, layer, k, i, Some(Sibling(layer, i)), TowerSiblings(h, next, k - 2, j));
    TopWhole(h, next, k - 1, j);
  }

  lemma LiftAll(h: Hash, layer: Layer, k: nat, i: nat)
    requires k > 1 && i < |layer| <= Pow2(k - 1) && Lifted(h, layer, NextLayer(h, layer), k - 1, i, i / 2)
    ensures Lifted(h, layer, NextLayer(h, layer), k, i, i / 2)
  {
    Lift(h, layer, k - 1);
    LiftWhole(h, layer, NextLayer(h, layer), k, i, i / 2);
  }

  lemma OuterFirst(h: Hash, layer: Layer, k: nat, i: nat, p: nat, first: Option<string>, rest: seq<Option<string>>)
    requires k > 0 && p == Pow2(k - 1) && i < p < |layer| <= Pow2(k)
    requires TowerSiblings(h, layer[..p], k - 1, i) == [first] + rest
    ensures TowerSiblings(h, layer, k, i) == [first] + (rest + [Some(Tower(h, layer[p..], k - 1))])
  {
    TopFirst(h, layer, k, i, p);
    Regrouped([first], rest, [Some(Tower(h, layer[p..], k - 1))]);
  }

  lemma LiftFirst(h: Hash, layer: Layer, next: Layer, k: nat, i: nat, j: nat, q: nat)
    requires k > 1 && q == Pow2(k - 2) && i < 2 * q < |layer| <= Pow2(k) && j < q < |next| <= Pow2(k - 1)
    requires Lifted(h, layer[..2 * q], next[..q], k - 1, i, j) && Sibling(layer[..2 * q], i) == Sibling(layer, i)
    requires |layer| - 2 * q <= Pow2(k - 1) && Tower(h, layer[2 * q..], k - 1) == Tower(h, next[q..], k - 2)
    ensures Lifted(h, layer, next, k, i, j)
  {
    OuterFirst(h, layer, k, i, 2 * q, Some(Sibling(layer, i)), TowerSiblings(h, next[..q], k - 2, j));
    TopFirst(h, next, k - 1, j, q);
  }

  lemma OuterSecond(h: Hash, layer: Layer, k: nat, i: nat, p: nat, i2: nat, first: Option<string>,
                    rest: seq<Option<string>>)
    requires k > 0 && p == Pow2(k - 1) && i == p + i2 && i < |layer| <= Pow2(k)
    requires TowerSiblings(h, layer[p..], k - 1, i2) == [first] + rest
    ensures TowerSiblings(h, layer, k, i) == [first] + (rest + [Some(Tower(h, layer[..p], k - 1))])
  {
    TopSecond(h, layer, k, i, p, i2);
    Regrouped([first], rest, [Some(Tower(h, layer[..p], k - 1))]);
  }

  lemma LiftSecond(h: Hash, layer: Layer, next: Layer, k: nat, i: nat, j: nat, q: nat, i2: nat, j2: nat)
    requires k > 1 && q == Pow2(k - 2) && 2 * q < |layer| <= Pow2(k) && q < |next| <= Pow2(k - 1)
    requires i == 2 * q + i2 && j == q + j2 && j == i / 2 && i < |layer| && j < |next|
    requires Lifted(h, layer[2 * q..], next[q..], k - 1, i2, j2) && Sibling(layer[2 * q..], i2) == Sibling(layer, i)
    requires Tower(h, layer[..2 * q], k - 1) == Tower(h, next[..q], k - 2)
    ensures Lifted(h, layer, next, k, i, j)
  {
    var rest := TowerSiblings(h, next[q..], k - 2, j2);
    OuterSecond(h, layer, k, i, 2 * q, i2, Some(Sibling(layer, i)), rest);
    InnerSecond(h, next, k - 1, j, q, j2, rest);
  }

  lemma InnerSecond(h: Hash, next: Layer, k: nat, j: nat, q: nat, j2: nat, rest: seq<Option<string>>)
    requires k > 0 && q == Pow2(k - 1) && j == q + j2 && j < |next| <= Pow2(k)
    requires rest == TowerSiblings(h, next[q..], k - 1, j2)
    ensures rest + [Some(Tower(h, next[..q], k - 1))] == TowerSiblings(h, next, k, j)
  {
    TopSecond(h, next, k, j, q, j2);
  }

  lemma LiftFirstHalf(h: Hash, layer: Layer, k: nat, i: nat, q: nat)
    requires k > 1 && q == Pow2(k - 2) && i < 2 * q < |layer| <= Pow2(k)
    requires Lifted(h, layer[..2 * q], NextLayer(h, layer[..2 * q]), k - 1, i, i / 2)
    ensures Lifted(h, layer, NextLayer(h, layer), k, i, i / 2)
  {
    NextSplits(h, layer, q);
    SiblingInHalf(layer, q, i);
    Lift(h, layer[2 * q..], k - 1);
    LiftFirst(h, layer, NextLayer(h, layer), k, i, i / 2, q);
  }

  lemma LiftSecondHalf(h: Hash, layer: Layer, k: nat, i: nat, q: nat)
    requires k > 1 && q == Pow2(k - 2) && 2 * q <= i < |layer| <= Pow2(k)
    requires Lifted(h, layer[2 * q..], NextLayer(h, layer[2 * q..]), k - 1, i - 2 * q, (i - 2 * q) / 2)
    ensures Lifted(h, layer, NextLayer(h, layer), k, i, i / 2)
  {
    NextSplits(h, layer, q);
    SiblingInHalf(layer, q, i);
    Lift(h, layer[..2 * q], k - 1);
    LiftSecond(h, layer, NextLayer(h, layer), k, i, i / 2, q, i - 2 * q, i / 2 - q);
  }

  lemma Halves(k: nat, n: nat) returns (q: nat)
    requires k > 1 && n <= Pow2(k)
    ensures q == Pow2(k - 2) && 2 * q == Pow2(k - 1) && n <= 4 * q
  {
    q := Pow2(k - 2);
  }

  lemma {:induction false} LiftSiblings(h: Hash, layer: Layer, k: nat, i: nat)
    requires k > 0 && i < |layer| <= Pow2(k)
    ensures Lifted(h, layer, NextLayer(h, layer), k, i, i / 2)
    decreases k
  {
    if k == 1 {
      LiftOne(h, layer, i);
    } else {
      var q := Halves(k, |layer|);
      if |layer| <= 2 * q {
        LiftSiblings(h, layer, k - 1, i);
        LiftAll(h, layer, k, i);
      } else if i < 2 * q {
        LiftSiblings(h, layer[..2 * q], k - 1, i);
        LiftFirstHalf(h, layer, k, i, q);
      } else {
        LiftSiblings(h, layer[2 * q..], k - 1, i - 2 * q);
        LiftSecondHalf(h, layer, k, i, q);
      }
    }
  }

  lemma LiftOne(h: Hash, layer: Layer, i: nat)
    requires i < |layer| <= Pow2(1)
    ensures Lifted(h, layer, NextLayer(h, layer), 1, i, i / 2)
  {
    assert Pow2(0) == 1 && |layer| <= 2;
  }

  lemma {:induction false} SiblingsAreTower(h: Hash, layer: Layer, i: nat)
    requires i < |layer|
    ensures |layer| <= Pow2(Depth(|layer|))
    ensures SiblingsOf(h, layer, i) == TowerSiblings(h, layer, Depth(|layer|), i)
    decreases |layer|
  {
    DepthBounds(|layer|);
    if |layer| > 1 {
      SiblingsAreTower(h, NextLayer(h, layer), i / 2);
      SiblingsAbove(h, layer, NextLayer(h, layer), Depth(|layer|), i);
    }
  }

  lemma SiblingsAbove(h: Hash, layer: Layer, next: Layer, d: nat, i: nat)
    requires |layer| > 1 && i < |layer| <= Pow2(d) && d > 0 && next == NextLayer(h, layer)
    requires |next| <= Pow2(d - 1) && SiblingsOf(h, next, i / 2) == TowerSiblings(h, next, d - 1, i / 2)
    ensures SiblingsOf(h, layer, i) == TowerSiblings(h, layer, d, i)
  {
    ProofStep(h, layer, i);
    LiftSiblings(h, layer, d, i);
  }

  lemma LeavesSplit(h: Hash, xs: seq<string>, p: nat)
    requires p <= |xs|
    ensures Leaves(h, xs)[..p] == Leaves(h, xs[..p]) && Leaves(h, xs)[p..] == Leaves(h, xs[p..])
  {
  }

  ghost predicate OfLeaves(h: Hash, xs: seq<string>, k: nat, i: nat) {
    i < |xs| <= Pow2(k) && TowerSiblings(h, Leaves(h, xs), k, i) == TreeSiblings(h, xs, k, i)
  }

  lemma FirstOfLeaves(h: Hash, xs: seq<string>, k: nat, i: nat, p: nat)
    requires k > 0 && p == Pow2(k - 1) && i < p < |xs| <= Pow2(k) && OfLeaves(h, xs[..p], k - 1, i)
    ensures OfLeaves(h, xs, k, i)
  {
    LeavesSplit(h, xs, p);
    TopFirst(h, Leaves(h, xs), k, i, p);
    TowerOfLeaves(h, xs[p..], k - 1);
  }

  lemma SecondOfLeaves(h: Hash, xs: seq<string>, k: nat, i: nat, p: nat)
    requires k > 0 && p == Pow2(k - 1) && p <= i < |xs| <= Pow2(k) && OfLeaves(h, xs[p..], k - 1, i - p)
    ensures OfLeaves(h, xs, k, i)
  {
    LeavesSplit(h, xs, p);
    TopSecond(h, Leaves(h, xs), k, i, p, i - p);
    TowerOfLeaves(h, xs[..p], k - 1);
  }

  lemma WholeOfLeaves(h: Hash, xs: seq<string>, k: nat, i: nat)
    requires k > 0 && i < |xs| <= Pow2(k - 1) && OfLeaves(h, xs, k - 1, i)
    ensures OfLeaves(h, xs, k, i)
  {
    TopWhole(h, Leaves(h, xs), k, i);
    TowerOfLeaves(h, xs, k - 1);
  }

  lemma {:induction false} SiblingsOfLeaves(h: Hash, xs: seq<string>, k: nat, i: nat)
    requires i < |xs| <= Pow2(k)
    ensures OfLeaves(h, xs, k, i)
    decreases k
  {
    if k > 0 {
      var p := Pow2(k - 1);
      if |xs| <= p {
        SiblingsOfLeaves(h, xs, k - 1, i);
        WholeOfLeaves(h, xs, k, i);
      } else if i < p {
        SiblingsOfLeaves(h, xs[..p], k - 1, i);
        FirstOfLeaves(h, xs, k, i, p);
      } else {
        SiblingsOfLeaves(h, xs[p..], k - 1, i - p);
        SecondOfLeaves(h, xs, k, i, p);
      }
    }
  }

  lemma {:induction false} DirectionsFromTop(k: nat, i: nat)
    requires i < Pow2(k)
    ensures DirectionsOf(k, i) == TreeDirections(k, i)
    decreases k
  {
    if k > 0 {
      DirectionsFromTop(k - 1, i / 2);
      LowestDirection(k, i);
    }
  }

  lemma {:induction false} LowestDirection(k: nat, i: nat)
    requires k > 0 && i < Pow2(k)
    ensures TreeDirections(k, i) == [DirectionOf(i)] + TreeDirections(k - 1, i / 2)
    decreases k
  {
    if k > 1 {
      var q := Pow2(k - 2);
      if i < 2 * q {
        LowestDirection(k - 1, i);
        Regrouped([DirectionOf(i)], TreeDirections(k - 2, i / 2), [Right]);
      } else {
        assert (i - 2 * q) / 2 == i / 2 - q && DirectionOf(i - 2 * q) == DirectionOf(i);
        LowestDirection(k - 1, i - 2 * q);
        Regrouped([DirectionOf(i)], TreeDirections(k - 2, i / 2 - q), [Left]);
      }
    }
  }

  /** A proof, by the hash function and the strings alone. */
  ghost function TreeProof(h: Hash, xs: seq<string>, i: nat): MerkleProof
    requires i < |xs|
  {
    DepthBounds(|xs|);
    MerkleProof(i, TreeSiblings(h, xs, Depth(|xs|), i), TreeDirections(Depth(|xs|), i))
  }

  lemma ProofIsTree(h: Hash, xs: seq<string>, i: nat)
    requires i < |xs|
    ensures ProofOf(h, xs, i) == TreeProof(h, xs, i)
  {
    DepthBounds(|xs|);
    SiblingsAreTower(h, Leaves(h, xs), i);
    SiblingsOfLeaves(h, xs, Depth(|xs|), i);
    DirectionsFromTop(Depth(|xs|), i);
  }

  // ---- How much is hashed ----

  lemma {:induction false} LevelShift(h: Hash, layer: Layer, k: nat)
    ensures Level(h, NextLayer(h, layer), k) == Level(h, layer, k + 1)
  {
    if k > 0 { LevelShift(h, layer, k - 1); }
  }

  /** The root is the one node of the top level. */
  lemma {:induction false} TopLevel(h: Hash, layer: Layer)
    requires layer != []
    ensures |Level(h, layer, Depth(|layer|))| == 1 && Level(h, layer, Depth(|layer|))[0] == RootOf(h, layer)
    decreases |layer|
  {
    if |layer| > 1 {
      TopLevel(h, NextLayer(h, layer));
      LevelShift(h, layer, Depth(|NextLayer(h, layer)|));
    }
  }

  lemma {:induction false} NodeCount(h: Hash, layer: Layer, k: nat)
    ensures |NodeInputs(h, layer, k)| + |Level(h, layer, k)| <= |layer| + k
  {
    if k > 0 { NodeCount(h, layer, k - 1); }
  }

  lemma TreeCount(h: Hash, hashes: seq<string>)
    requires hashes != []
    ensures |TreeInputs(h, hashes)| <= 2 * |hashes| - 1 + Depth(|hashes|)
  {
    TopLevel(h, Leaves(h, hashes));
    NodeCount(h, Leaves(h, hashes), Depth(|hashes|));
  }

  // ---- Hashing ----

  /** The three ways to hash. The last result of each is the record of what was hashed. */
  method EmptyHash(h: Hash) returns (d: Digest, ghost hashed: seq<Input>)
    ensures d == HashOf(h, Nothing) && hashed == [Nothing]
  {
    return h(""), [Nothing];
  }

  method LeafHash(h: Hash, chainHash: string) returns (d: Digest, ghost hashed: seq<Input>)
    ensures d == HashOf(h, Leaf(chainHash)) && hashed == [Leaf(chainHash)]
  {
    return h(LEAF_TAG + chainHash), [Leaf(chainHash)];
  }

  method NodeHash(h: Hash, left: string, right: string) returns (d: Digest, ghost hashed: seq<Input>)
    ensures d == HashOf(h, Node(left, right)) && hashed == [Node(left, right)]
  {
    return h(NODE_TAG + left + right), [Node(left, right)];
  }

  // ---- The methods, each with the record of everything it hashed, in order ----

  lemma Shift<T>(whole: seq<T>, done: seq<T>, x: T, rest: seq<T>)
    requires whole == done + ([x] + rest)
    ensures whole == (done + [x]) + rest
  {
  }

  /** What a proof still lacks when its loop stands at a node of a layer. */
  ghost predicate Collected(h: Hash, layer: Layer, idx: nat, siblings: seq<Option<string>>, directions: seq<Direction>,
                            whole: MerkleProof)
  {
    && idx < |layer|
    && whole.siblings == siblings + SiblingsOf(h, layer, idx)
    && whole.directions == directions + DirectionsOf(Depth(|layer|), idx)
  }

  /** One level of a proof: the sibling the loop reads, then the rest one layer up. */
  lemma ProofStep(h: Hash, layer: Layer, idx: nat)
    requires |layer| > 1 && idx < |layer|
    ensures idx / 2 < |NextLayer(h, layer)|
    ensures SiblingsOf(h, layer, idx) == [Some(Sibling(layer, idx))] + SiblingsOf(h, NextLayer(h, layer), idx / 2)
    ensures DirectionsOf(Depth(|layer|), idx)
         == [DirectionOf(idx)] + DirectionsOf(Depth(|NextLayer(h, layer)|), idx / 2)
  {
  }

  lemma CollectStep(h: Hash, layer: Layer, idx: nat, siblings: seq<Option<string>>, directions: seq<Direction>,
                    whole: MerkleProof)
    requires Collected(h, layer, idx, siblings, directions, whole) && |layer| > 1
    ensures Collected(h, NextLayer(h, layer), idx / 2, siblings + [Some(Sibling(layer, idx))],
                      directions + [DirectionOf(idx)], whole)
  {
    var next := NextLayer(h, layer);
    ProofStep(h, layer, idx);
    Shift(whole.siblings, siblings, Some(Sibling(layer, idx)), SiblingsOf(h, next, idx / 2));
    Shift(whole.directions, directions, DirectionOf(idx), DirectionsOf(Depth(|next|), idx / 2));
  }

  lemma CollectDone(h: Hash, layer: Layer, idx: nat, siblings: seq<Option<string>>, directions: seq<Direction>,
                    whole: MerkleProof)
    requires Collected(h, layer, idx, siblings, directions, whole) && |layer| == 1
    ensures whole.siblings == siblings && whole.directions == directions
  {
  }

  lemma NextNode(h: Hash, layer: Layer, i: nat)
    requires 2 * i < |layer|
    ensures Pairs(layer)[i] == Node(layer[2 * i], RightChild(layer, i))
    ensures NextLayer(h, layer)[i] == HashOf(h, Node(layer[2 * i], RightChild(layer, i)))
  {
    PairAt(layer, i);
  }

  /** The first n nodes of the layer above, and what was hashed for them. */
  ghost predicate Above(h: Hash, layer: Layer, n: nat, next: Layer, hashed: seq<Input>) {
    && n <= |Pairs(layer)|
    && next == NextLayer(h, layer)[..n]
    && hashed == Pairs(layer)[..n]
  }

  lemma AboveStep(h: Hash, layer: Layer, n: nat, next: Layer, hashed: seq<Input>)
    requires Above(h, layer, n, next, hashed) && 2 * n < |layer|
    ensures var p := Node(layer[2 * n], RightChild(layer, n));
            Above(h, layer, n + 1, next + [HashOf(h, p)], hashed + [p])
  {
    NextNode(h, layer, n);
    assert NextLayer(h, layer)[..n + 1] == NextLayer(h, layer)[..n] + [NextLayer(h, layer)[n]];
    assert Pairs(layer)[..n + 1] == Pairs(layer)[..n] + [Pairs(layer)[n]];
  }

  method ComputeNextLayer(h: Hash, layer: Layer) returns (next: Layer, ghost hashed: seq<Input>)
    ensures next == NextLayer(h, layer) && hashed == Pairs(layer)
  {
    next, hashed := [], [];
    var i := 0;
    ghost var n := 0;
    while i < |layer|
      invariant i == 2 * n && Above(h, layer, n, next, hashed)
      decreases |layer| - i
    {
      AboveStep(h, layer, n, next, hashed);
      var left := layer[i];
      var right := if i + 1 < |layer| then layer[i + 1] else left;
      var node;
      ghost var log;
      node, log := NodeHash(h, left, right);
      next, hashed := next + [node], hashed + log;
      i, n := i + 2, n + 1;
    }
  }

  method ComputeLeaves(h: Hash, hashes: seq<string>) returns (layer: Layer, ghost hashed: seq<Input>)
    ensures layer == Leaves(h, hashes) && hashed == LeafInputs(hashes)
  {
    layer, hashed := [], [];
    for i := 0 to |hashes|
      invariant layer == Leaves(h, hashes)[..i] && hashed == LeafInputs(hashes)[..i]
    {
      var leaf;
      ghost var log;
      leaf, log := LeafHash(h, hashes[i]);
      assert leaf == Leaves(h, hashes)[i] && log == [LeafInputs(hashes)[i]];
      layer, hashed := layer + [leaf], hashed + log;
    }
  }

  /** One level of a tree built from the leaves up: its layer, its height and what was hashed so far. */
  ghost predicate Built(h: Hash, hashes: seq<string>, layer: Layer, k: nat, hashed: seq<Input>) {
    && hashes != [] && layer != []
    && layer == Level(h, Leaves(h, hashes), k)
    && RootOf(h, layer) == Root(h, hashes)
    && Depth(|hashes|) == k + Depth(|layer|)
    && hashed == LeafInputs(hashes) + NodeInputs(h, Leaves(h, hashes), k)
  }

  lemma LevelAbove(h: Hash, leaves: Layer, layer: Layer, k: nat)
    requires layer == Level(h, leaves, k)
    ensures Level(h, leaves, k + 1) == NextLayer(h, layer)
    ensures NodeInputs(h, leaves, k + 1) == NodeInputs(h, leaves, k) + Pairs(layer)
  {
  }

  lemma RootAbove(h: Hash, layer: Layer)
    requires |layer| > 1
    ensures NextLayer(h, layer) != [] && RootOf(h, NextLayer(h, layer)) == RootOf(h, layer)
    ensures Depth(|layer|) == 1 + Depth(|NextLayer(h, layer)|)
  {
  }

  lemma Regrouped<T>(a: seq<T>, b: seq<T>, c: seq<T>)
    ensures a + b + c == a + (b + c)
  {
  }

  lemma BuiltAbove(h: Hash, hashes: seq<string>, layer: Layer, k: nat, hashed: seq<Input>)
    requires Built(h, hashes, layer, k, hashed) && |layer| > 1
    ensures Built(h, hashes, NextLayer(h, layer), k + 1, hashed + Pairs(layer))
  {
    LevelAbove(h, Leaves(h, hashes), layer, k);
    RootAbove(h, layer);
    Regrouped(LeafInputs(hashes), NodeInputs(h, Leaves(h, hashes), k), Pairs(layer));
  }

  lemma BuiltWhole(h: Hash, hashes: seq<string>, layer: Layer, k: nat, hashed: seq<Input>)
    requires Built(h, hashes, layer, k, hashed) && |layer| == 1
    ensures layer[0] == Root(h, hashes) && hashed == TreeInputs(h, hashes)
  {
  }

  method ComputeMerkleRoot(h: Hash, hashes: seq<string>) returns (root: Digest, ghost hashed: seq<Input>)
    ensures root == TreeRoot(h, hashes) == Root(h, hashes) && hashed == TreeInputs(h, hashes)
  {
    RootIsTree(h, hashes);
    if |hashes| == 0 {
      root, hashed := EmptyHash(h);
      return;
    }
    var layer;
    layer, hashed := ComputeLeaves(h, hashes);
    ghost var k := 0;
    while |layer| > 1
      invariant Built(h, hashes, layer, k, hashed)
      decreases |layer|
    {
      BuiltAbove(h, hashes, layer, k, hashed);
      ghost var log;
      layer, log := ComputeNextLayer(h, layer);
      hashed, k := hashed + log, k + 1;
    }
    BuiltWhole(h, hashes, layer, k, hashed);
    root := layer[0];
  }

  /** The partner of a node in its layer, itself at the end of an odd layer, and the side it stands on. */
  method ReadSibling(layer: Layer, idx: nat) returns (sibling: Digest, direction: Direction)
    requires idx < |layer|
    ensures sibling == Sibling(layer, idx) && direction == DirectionOf(idx)
  {
    var siblingIdx := if idx % 2 == 0 then idx + 1 else idx - 1;
    sibling := if siblingIdx < |layer| then layer[siblingIdx] else layer[idx];
    direction := if idx % 2 == 0 then Right else Left;
  }

  /** None is the RangeError, and nothing is hashed for it. */
  method ComputeMerkleProof(h: Hash, hashes: seq<string>, index: int)
    returns (proof: Option<MerkleProof>, ghost hashed: seq<Input>)
    ensures proof == if 0 <= index < |hashes| then Some(ProofOf(h, hashes, index)) else None
    ensures proof.Some? ==> proof.value == TreeProof(h, hashes, index)
    ensures hashed == if proof.Some? then TreeInputs(h, hashes) else []
  {
    if index < 0 || index >= |hashes| {
      return None, [];
    }
    var siblings: seq<Option<string>> := [];
    var directions: seq<Direction> := [];
    var layer;
    layer, hashed := ComputeLeaves(h, hashes);
    var idx: nat := index;
    ghost var whole, k := ProofOf(h, hashes, index), 0;
    while |layer| > 1
      invariant Built(h, hashes, layer, k, hashed)
      invariant Collected(h, layer, idx, siblings, directions, whole)
      decreases |layer|
    {
      CollectStep(h, layer, idx, siblings, directions, whole);
      BuiltAbove(h, hashes, layer, k, hashed);
      var sibling, direction := ReadSibling(layer, idx);
      siblings, directions := siblings + [Some(sibling)], directions + [direction];
      ghost var log;
      layer, log := ComputeNextLayer(h, layer);
      hashed, k := hashed + log, k + 1;
      idx := idx / 2;
    }
    BuiltWhole(h, hashes, layer, k, hashed);
    CollectDone(h, layer, idx, siblings, directions, whole);
    ProofIsTree(h, hashes, index);
    proof := Some(MerkleProof(index, siblings, directions));
  }

  /** The layers of one tree, leaves first. */
  ghost predicate IsTree(h: Hash, layers: seq<Layer>) {
    && layers != []
    && (forall k | 0 <= k < |layers| :: layers[k] != [])
    && forall k | 0 <= k < |layers| - 1 :: |layers[k]| > 1 && layers[k + 1] == NextLayer(h, layers[k])
  }

  method ProofFromLayers(h: Hash, index: nat, layers: seq<Layer>) returns (proof: MerkleProof)
    requires IsTree(h, layers) && |layers[|layers| - 1]| == 1 && index < |layers[0]|
    ensures proof == MerkleProof(index, SiblingsOf(h, layers[0], index), DirectionsOf(Depth(|layers[0]|), index))
  {
    var siblings: seq<Option<string>> := [];
    var directions: seq<Direction> := [];
    var idx: nat := index;
    ghost var whole := MerkleProof(index, SiblingsOf(h, layers[0], idx), DirectionsOf(Depth(|layers[0]|), idx));
    for level := 0 to |layers| - 1
      invariant Collected(h, layers[level], idx, siblings, directions, whole)
    {
      var layer := layers[level];
      CollectStep(h, layer, idx, siblings, directions, whole);
      var sibling, direction := ReadSibling(layer, idx);
      siblings, directions := siblings + [Some(sibling)], directions + [direction];
      idx := idx / 2;
    }
    CollectDone(h, layers[|layers| - 1], idx, siblings, directions, whole);
    proof := MerkleProof(index, siblings, directions);
  }

  lemma TreeGrows(h: Hash, layers: seq<Layer>)
    requires IsTree(h, layers) && |layers[|layers| - 1]| > 1
    ensures IsTree(h, layers + [NextLayer(h, layers[|layers| - 1])])
  {
  }

  /** All layers, built with one hash per leaf and one per inner node. */
  method ComputeLayers(h: Hash, hashes: seq<string>) returns (layers: seq<Layer>, ghost hashed: seq<Input>)
    requires hashes != []
    ensures IsTree(h, layers) && layers[0] == Leaves(h, hashes)
    ensures |layers[|layers| - 1]| == 1 && layers[|layers| - 1][0] == Root(h, hashes)
    ensures hashed == TreeInputs(h, hashes)
  {
    var top;
    top, hashed := ComputeLeaves(h, hashes);
    layers := [top];
    ghost var k: nat := 0;
    while |top| > 1
      invariant |layers| == k + 1 && layers[k] == top && Built(h, hashes, top, k, hashed)
      invariant IsTree(h, layers) && layers[0] == Leaves(h, hashes)
      decreases |top|
    {
      TreeGrows(h, layers);
      BuiltAbove(h, hashes, top, k, hashed);
      ghost var log;
      top, log := ComputeNextLayer(h, top);
      layers := layers + [top];
      hashed, k := hashed + log, k + 1;
    }
    BuiltWhole(h, hashes, top, k, hashed);
  }

  /**
   Root and every proof from one set of layers. The record of what was hashed is that of one tree: each
   node once, fewer than 2n + d hashes for n leaves and proofs of length d.
   */
  method ComputeMerkleRootAndProofs(h: Hash, hashes: seq<string>)
    returns (root: Digest, proofs: seq<MerkleProof>, ghost hashed: seq<Input>)
    ensures root == TreeRoot(h, hashes) == Root(h, hashes)
    ensures |proofs| == |hashes| && forall i | 0 <= i < |hashes| :: proofs[i] == ProofOf(h, hashes, i)
    ensures hashed == TreeInputs(h, hashes)
    ensures hashes != [] ==> |hashed| < 2 * |hashes| + |proofs[0].siblings|
  {
    proofs := [];
    RootIsTree(h, hashes);
    if |hashes| == 0 {
      root, hashed := EmptyHash(h);
      return;
    }
    var layers;
    layers, hashed := ComputeLayers(h, hashes);
    root := layers[|layers| - 1][0];
    for index := 0 to |hashes|
      invariant |proofs| == index
      invariant forall i | 0 <= i < index :: proofs[i] == ProofOf(h, hashes, i)
    {
      var proof := ProofFromLayers(h, index, layers);
      proofs := proofs + [proof];
    }
    TreeCount(h, hashes);
  }

  /** What the verifier still has to hash from level i on. */
  ghost predicate Climbed(h: Hash, proof: MerkleProof, leaf: string, i: nat, current: Digest, idx: nat,
                          hashed: seq<Input>)
    requires proof.index >= 0 && i <= |proof.siblings|
  {
    hashed + ClimbInputs(h, current, idx, proof.siblings[i..]) == VerifierInputs(h, leaf, proof.index, proof.siblings)
  }

  lemma ClimbedStep(h: Hash, proof: MerkleProof, leaf: string, i: nat, current: Digest, idx: nat, hashed: seq<Input>)
    requires proof.index >= 0 && i < |proof.siblings| && proof.siblings[i].Some?
    requires Climbed(h, proof, leaf, i, current, idx, hashed)
    ensures var p := Step(current, idx, proof.siblings[i].value);
            Climbed(h, proof, leaf, i + 1, HashOf(h, p), idx / 2, hashed + [p])
  {
    assert proof.siblings[i..][1..] == proof.siblings[i + 1..];
    var p := Step(current, idx, proof.siblings[i].value);
    Shift(VerifierInputs(h, leaf, proof.index, proof.siblings), hashed, p,
          ClimbInputs(h, HashOf(h, p), idx / 2, proof.siblings[i + 1..]));
  }

  /** A proof that is accepted had every step of its climb hashed, and one refused early a part of them. */
  method VerifyMerkleProof(h: Hash, leafChainHash: string, proof: MerkleProof, root: string)
    returns (ok: bool, ghost hashed: seq<Input>)
    ensures ok == Accepts(h, leafChainHash, proof, root)
    ensures proof.index >= 0 ==> hashed <= VerifierInputs(h, leafChainHash, proof.index, proof.siblings)
    ensures ok ==> hashed == VerifierInputs(h, leafChainHash, proof.index, proof.siblings)
  {
    hashed := [];
    if proof.index > MAX_SAFE_INTEGER || proof.index < 0 || |proof.siblings| != |proof.directions| {
      return false, hashed;
    }
    var current: Digest;
    current, hashed := LeafHash(h, leafChainHash);
    var idx: nat := proof.index;
    ghost var end := Climb(h, current, idx, proof.siblings, proof.directions);
    assert proof.siblings[0..] == proof.siblings && proof.directions[0..] == proof.directions;
    for i := 0 to |proof.siblings|
      invariant end == Climb(h, current, idx, proof.siblings[i..], proof.directions[i..])
      invariant Climbed(h, proof, leafChainHash, i, current, idx, hashed)
    {
      var expected := if idx % 2 == 0 then Right else Left;
      if proof.directions[i] != expected {
        return false, hashed;
      }
      var sibling := proof.siblings[i];
      if sibling.None? {
        return false, hashed;
      }
      ClimbedStep(h, proof, leafChainHash, i, current, idx, hashed);
      assert proof.siblings[i..][1..] == proof.siblings[i + 1..];
      assert proof.directions[i..][1..] == proof.directions[i + 1..];
      ghost var log;
      if expected == Right {
        current, log := NodeHash(h, current, sibling.value);
      } else {
        current, log := NodeHash(h, sibling.value, current);
      }
      hashed := hashed + log;
      idx := idx / 2;
    }
    return idx == 0 && current == root, hashed;
  }
}
