/** What the tree promises: sound and complete proofs, a binding root, and a bounded number of hashes. */
module MerkleTheorems {
  import opened Text
  import opened Digests
  import opened Merkle

  // ---- Splitting what was hashed ----

  /** The two halves of a node's bytes are fixed by the string when one of them is 64 long. */
  lemma NodeSplit(l1: string, r1: string, l2: string, r2: string)
    requires Bytes(Node(l1, r1)) == Bytes(Node(l2, r2))
    requires (|l1| == 64 && |l2| == 64) || (|r1| == 64 && |r2| == 64)
    ensures l1 == l2 && r1 == r2
  {
    var p, q := Bytes(Node(l1, r1)), Bytes(Node(l2, r2));
    assert |p| == 15 + |l1| + |r1| && |q| == 15 + |l2| + |r2|;
    assert l1 == p[15..15 + |l1|] && r1 == p[15 + |l1|..];
    assert l2 == q[15..15 + |l2|] && r2 == q[15 + |l2|..];
  }

  /** A tagged leaf is never a tagged pair. */
  lemma TagsDiffer(x: string, l: string, r: string)
    ensures Bytes(Leaf(x)) != Bytes(Node(l, r))
  {
    assert Bytes(Leaf(x))[10] == 'l' && Bytes(Node(l, r))[10] == 'n';
  }

  lemma LeafSplit(x: string, y: string)
    requires Bytes(Leaf(x)) == Bytes(Leaf(y))
    ensures x == y
  {
    assert x == Bytes(Leaf(x))[15..] && y == Bytes(Leaf(y))[15..];
  }

  lemma CollideWithin(h: Hash, xs: seq<Input>, ys: seq<Input>, us: seq<Input>, vs: seq<Input>)
    requires Collide(h, xs, ys)
    requires (forall x | x in xs :: x in us) && (forall y | y in ys :: y in vs)
    ensures Collide(h, us, vs)
  {
    var p, q :| p in xs && q in ys && Bytes(p) != Bytes(q) && HashOf(h, p) == HashOf(h, q);
    assert p in us && q in vs;
  }

  lemma Collided(h: Hash, p: Input, q: Input, xs: seq<Input>, ys: seq<Input>)
    requires HashOf(h, p) == HashOf(h, q) && p in xs && q in ys
    ensures Bytes(p) == Bytes(q) || Collide(h, xs, ys)
  {
  }

  // ---- Indexed views of the tree and of the verifier's walk ----

  /** An index halved k times. */
  ghost function Halved(idx: nat, k: nat): nat {
    if k == 0 then idx else Halved(idx, k - 1) / 2
  }

  ghost function Walk(h: Hash, current: Digest, idx: nat, siblings: seq<string>, k: nat): Digest
    requires k <= |siblings|
  {
    if k == 0 then current
    else HashOf(h, Step(Walk(h, current, idx, siblings, k - 1), Halved(idx, k - 1), siblings[k - 1]))
  }

  lemma {:induction false} HalvedShift(idx: nat, k: nat)
    ensures Halved(idx / 2, k) == Halved(idx, k + 1)
  {
    if k > 0 { HalvedShift(idx, k - 1); }
  }

  lemma {:induction false} WalkShift(h: Hash, current: Digest, idx: nat, siblings: seq<string>, k: nat)
    requires k < |siblings|
    ensures Walk(h, HashOf(h, Step(current, idx, siblings[0])), idx / 2, siblings[1..], k)
         == Walk(h, current, idx, siblings, k + 1)
  {
    if k == 0 {
      assert Walk(h, current, idx, siblings, 0) == current;
    } else {
      WalkShift(h, current, idx, siblings, k - 1);
      HalvedShift(idx, k - 1);
      assert siblings[1..][k - 1] == siblings[k];
    }
  }

  ghost function Values(siblings: seq<Option<string>>): (r: seq<string>)
    ensures |r| == |siblings|
  {
    seq(|siblings|, i requires 0 <= i < |siblings| => if siblings[i].Some? then siblings[i].value else "")
  }

  /** A walk the verifier completes ends where the indexed walk ends. */
  lemma {:induction false} ClimbWalks(h: Hash, current: Digest, idx: nat, siblings: seq<Option<string>>,
      directions: seq<Direction>)
    requires |siblings| == |directions| && Climb(h, current, idx, siblings, directions).Some?
    ensures Climb(h, current, idx, siblings, directions).value
         == (Walk(h, current, idx, Values(siblings), |siblings|), Halved(idx, |siblings|))
    ensures forall k | 0 <= k < |siblings| :: siblings[k].Some?
    decreases |siblings|
  {
    if siblings != [] {
      var v, p := Values(siblings), Step(current, idx, siblings[0].value);
      ClimbWalks(h, HashOf(h, p), idx / 2, siblings[1..], directions[1..]);
      assert v[1..] == Values(siblings[1..]);
      WalkShift(h, current, idx, v, |siblings| - 1);
      HalvedShift(idx, |siblings| - 1);
    }
  }

  /** Step k of the walk. */
  ghost function WalkInput(h: Hash, current: Digest, idx: nat, siblings: seq<string>, k: nat): Input
    requires k < |siblings|
  {
    Step(Walk(h, current, idx, siblings, k), Halved(idx, k), siblings[k])
  }

  /** The verifier hashes each step of its walk. */
  lemma {:induction false} WalkHashed(h: Hash, current: Digest, idx: nat, siblings: seq<Option<string>>, k: nat)
    requires k < |siblings| && forall i | 0 <= i < |siblings| :: siblings[i].Some?
    ensures WalkInput(h, current, idx, Values(siblings), k) in ClimbInputs(h, current, idx, siblings)
    decreases |siblings|
  {
    var v, p := Values(siblings), Step(current, idx, siblings[0].value);
    var all, rest := ClimbInputs(h, current, idx, siblings), ClimbInputs(h, HashOf(h, p), idx / 2, siblings[1..]);
    assert all == [p] + rest;
    if k > 0 {
      assert v[1..] == Values(siblings[1..]);
      WalkHashed(h, HashOf(h, p), idx / 2, siblings[1..], k - 1);
      WalkShift(h, current, idx, v, k - 1);
      HalvedShift(idx, k - 1);
      assert v[1..][k - 1] == v[k];
    } else {
      assert WalkInput(h, current, idx, v, 0) == p == all[0];
    }
  }

  /** What is hashed to make node i of the level above level k. */
  ghost function TreeInput(h: Hash, layer: Layer, k: nat, i: nat): Input
    requires 2 * i < |Level(h, layer, k)|
  {
    Node(Level(h, layer, k)[2 * i], RightChild(Level(h, layer, k), i))
  }

  /** Building k levels hashes every node of each of them. */
  lemma {:induction false} LevelHashed(h: Hash, layer: Layer, k: nat, m: nat, i: nat)
    requires m < k && 2 * i < |Level(h, layer, m)|
    ensures TreeInput(h, layer, m, i) in NodeInputs(h, layer, k)
  {
    if m < k - 1 {
      LevelHashed(h, layer, k - 1, m, i);
    } else {
      PairAt(Level(h, layer, m), i);
      assert TreeInput(h, layer, m, i) == Pairs(Level(h, layer, m))[i];
    }
    InOneOf(TreeInput(h, layer, m, i), NodeInputs(h, layer, k - 1), Pairs(Level(h, layer, k - 1)));
  }

  lemma InOneOf<T>(x: T, a: seq<T>, b: seq<T>)
    requires x in a || x in b
    ensures x in a + b
  {
  }

  lemma {:induction false} InRange(h: Hash, layer: Layer, idx: nat, k: nat)
    requires idx < |layer|
    ensures Halved(idx, k) < |Level(h, layer, k)|
  {
    if k > 0 { InRange(h, layer, idx, k - 1); }
  }

  lemma LevelNode(h: Hash, layer: Layer, k: nat, i: nat)
    requires i < |Level(h, layer, k + 1)|
    ensures 2 * i < |Level(h, layer, k)| && Level(h, layer, k + 1)[i] == HashOf(h, TreeInput(h, layer, k, i))
  {
    PairAt(Level(h, layer, k), i);
  }

  // ---- Soundness ----

  ghost predicate NoHole(siblings: seq<Option<string>>) {
    forall j | 0 <= j < |siblings| :: siblings[j].Some?
  }

  /** The verifier's running digest after k levels. */
  ghost function Running(h: Hash, x: string, idx: nat, siblings: seq<Option<string>>, k: nat): Digest
    requires k <= |siblings|
  {
    Walk(h, HashOf(h, Leaf(x)), idx, Values(siblings), k)
  }

  lemma OursAt(h: Hash, x: string, idx: nat, siblings: seq<Option<string>>, k: nat) returns (p: Input)
    requires k < |siblings| && NoHole(siblings)
    ensures p == Step(Running(h, x, idx, siblings, k), Halved(idx, k), Values(siblings)[k])
    ensures p in VerifierInputs(h, x, idx, siblings) && Running(h, x, idx, siblings, k + 1) == HashOf(h, p)
  {
    p := WalkInput(h, HashOf(h, Leaf(x)), idx, Values(siblings), k);
    WalkHashed(h, HashOf(h, Leaf(x)), idx, siblings, k);
  }

  lemma TheirsAt(h: Hash, hashes: seq<string>, m: nat, i: nat) returns (q: Input)
    requires hashes != [] && m < Depth(|hashes|) && i < |Level(h, Leaves(h, hashes), m + 1)|
    ensures 2 * i < |Level(h, Leaves(h, hashes), m)|
    ensures q == TreeInput(h, Leaves(h, hashes), m, i)
    ensures q in TreeInputs(h, hashes) && Level(h, Leaves(h, hashes), m + 1)[i] == HashOf(h, q)
  {
    LevelNode(h, Leaves(h, hashes), m, i);
    LevelHashed(h, Leaves(h, hashes), Depth(|hashes|), m, i);
    q := TreeInput(h, Leaves(h, hashes), m, i);
  }

  lemma LeafHashed(h: Hash, hashes: seq<string>, i: nat)
    requires i < |hashes|
    ensures Leaf(hashes[i]) in TreeInputs(h, hashes) && Leaves(h, hashes)[i] == HashOf(h, Leaf(hashes[i]))
  {
    assert TreeInputs(h, hashes)[i] == Leaf(hashes[i]);
  }

  lemma StepIsNode(current: Digest, idx: nat, sibling: string, x: string)
    ensures Bytes(Step(current, idx, sibling)) != Bytes(Leaf(x))
  {
    TagsDiffer(x, current, sibling);
    TagsDiffer(x, sibling, current);
  }

  /** Which child of pair i a walk arriving with this index came from, in a layer of the given size. */
  ghost function ChildOf(idx: nat, i: nat, size: nat): nat {
    if idx % 2 == 1 && 2 * i + 1 < size then 2 * i + 1 else 2 * i
  }

  /** If a step hashed what a tree node hashed, the step started from one of that node's children. */
  lemma StepChild(current: Digest, idx: nat, sibling: string, below: Layer, i: nat)
    requires 2 * i < |below|
    requires Bytes(Step(current, idx, sibling)) == Bytes(Node(below[2 * i], RightChild(below, i)))
    ensures ChildOf(idx, i, |below|) < |below| && current == below[ChildOf(idx, i, |below|)]
  {
    if idx % 2 == 0 {
      NodeSplit(current, sibling, below[2 * i], RightChild(below, i));
    } else {
      NodeSplit(sibling, current, below[2 * i], RightChild(below, i));
    }
  }

  /** The verifier's digest after k levels is node i of level m. */
  ghost predicate Meets(h: Hash, x: string, idx: nat, siblings: seq<Option<string>>, hashes: seq<string>,
                        k: nat, m: nat, i: nat)
  {
    && hashes != [] && k <= |siblings| && m <= Depth(|hashes|) && NoHole(siblings)
    && i < |Level(h, Leaves(h, hashes), m)|
    && Running(h, x, idx, siblings, k) == Level(h, Leaves(h, hashes), m)[i]
  }

  /** One level down: from one digest, either a collision, or the walk came from a child of the tree node. */
  lemma Descend(h: Hash, x: string, idx: nat, siblings: seq<Option<string>>, hashes: seq<string>, k: nat, m: nat,
      i: nat)
    returns (n: nat, collided: bool)
    requires Meets(h, x, idx, siblings, hashes, k + 1, m + 1, i)
    ensures !collided ==> Meets(h, x, idx, siblings, hashes, k, m, n)
    ensures n == ChildOf(Halved(idx, k), i, |Level(h, Leaves(h, hashes), m)|)
    ensures collided ==> Collide(h, VerifierInputs(h, x, idx, siblings), TreeInputs(h, hashes))
  {
    var p := OursAt(h, x, idx, siblings, k);
    var q := TheirsAt(h, hashes, m, i);
    Collided(h, p, q, VerifierInputs(h, x, idx, siblings), TreeInputs(h, hashes));
    collided := Bytes(p) != Bytes(q);
    n := ChildOf(Halved(idx, k), i, |Level(h, Leaves(h, hashes), m)|);
    if !collided {
      StepChild(Running(h, x, idx, siblings, k), Halved(idx, k), Values(siblings)[k],
                Level(h, Leaves(h, hashes), m), i);
    }
  }

  /** A leaf the verifier starts from is not an inner node of the tree. */
  lemma LeafNotNode(h: Hash, x: string, idx: nat, siblings: seq<Option<string>>, hashes: seq<string>, m: nat, i: nat)
    requires m > 0 && Meets(h, x, idx, siblings, hashes, 0, m, i)
    ensures Collide(h, VerifierInputs(h, x, idx, siblings), TreeInputs(h, hashes))
  {
    var q := TheirsAt(h, hashes, m - 1, i);
    TagsDiffer(x, Level(h, Leaves(h, hashes), m - 1)[2 * i], RightChild(Level(h, Leaves(h, hashes), m - 1), i));
    Collided(h, Leaf(x), q, VerifierInputs(h, x, idx, siblings), TreeInputs(h, hashes));
  }

  /** A node the verifier computes is not a leaf of the tree. */
  lemma NodeNotLeaf(h: Hash, x: string, idx: nat, siblings: seq<Option<string>>, hashes: seq<string>, k: nat, i: nat)
    requires Meets(h, x, idx, siblings, hashes, k + 1, 0, i)
    ensures Collide(h, VerifierInputs(h, x, idx, siblings), TreeInputs(h, hashes))
  {
    var p := OursAt(h, x, idx, siblings, k);
    LeafHashed(h, hashes, i);
    StepIsNode(Running(h, x, idx, siblings, k), Halved(idx, k), Values(siblings)[k], hashes[i]);
    Collided(h, p, Leaf(hashes[i]), VerifierInputs(h, x, idx, siblings), TreeInputs(h, hashes));
  }

  lemma LeafIsLeaf(h: Hash, x: string, idx: nat, siblings: seq<Option<string>>, hashes: seq<string>, i: nat)
    requires Meets(h, x, idx, siblings, hashes, 0, 0, i)
    ensures i < |hashes|
    ensures x == hashes[i] || Collide(h, VerifierInputs(h, x, idx, siblings), TreeInputs(h, hashes))
  {
    LeafHashed(h, hashes, i);
    Collided(h, Leaf(x), Leaf(hashes[i]), VerifierInputs(h, x, idx, siblings), TreeInputs(h, hashes));
    if Bytes(Leaf(x)) == Bytes(Leaf(hashes[i])) { LeafSplit(x, hashes[i]); }
  }

  /** Where a walk downwards has arrived: k levels above the verifier's leaf, at node i of level m of the tree. */
  datatype Place = Place(k: nat, m: nat, i: nat)

  ghost predicate MeetsAt(h: Hash, x: string, idx: nat, siblings: seq<Option<string>>, hashes: seq<string>, at: Place) {
    Meets(h, x, idx, siblings, hashes, at.k, at.m, at.i)
  }

  /** One level down, from a place where both walks still have levels below. */
  lemma StepDown(h: Hash, x: string, idx: nat, siblings: seq<Option<string>>, hashes: seq<string>,
                 k: nat, m: nat, i: nat)
    returns (n: nat, collided: bool)
    requires MeetsAt(h, x, idx, siblings, hashes, Place(k + 1, m + 1, i))
    ensures !collided ==> MeetsAt(h, x, idx, siblings, hashes, Place(k, m, n))
    ensures collided ==> Collide(h, VerifierInputs(h, x, idx, siblings), TreeInputs(h, hashes))
  {
    n, collided := Descend(h, x, idx, siblings, hashes, k, m, i);
  }

  /** Where one of the two walks has no level below, either both are at a leaf or two preimages collide. */
  lemma AtBottom(h: Hash, x: string, idx: nat, siblings: seq<Option<string>>, hashes: seq<string>, at: Place)
    returns (collided: bool)
    requires (at.k == 0 || at.m == 0) && MeetsAt(h, x, idx, siblings, hashes, at)
    ensures !collided ==> at.k == at.m && at.i < |hashes| && x == hashes[at.i]
    ensures collided ==> Collide(h, VerifierInputs(h, x, idx, siblings), TreeInputs(h, hashes))
  {
    collided := true;
    if at.k > 0 {
      NodeNotLeaf(h, x, idx, siblings, hashes, at.k - 1, at.i);
    } else if at.m > 0 {
      LeafNotNode(h, x, idx, siblings, hashes, at.m, at.i);
    } else {
      LeafIsLeaf(h, x, idx, siblings, hashes, at.i);
      collided := x != hashes[at.i];
    }
  }

  /**
   Two walks downwards from one digest, the verifier's and the tree's, reach the leaves together and at
   one leaf, or two preimages collide.
   */
  lemma {:induction false} Grounds(h: Hash, x: string, idx: nat, siblings: seq<Option<string>>, hashes: seq<string>,
                                   at: Place) returns (leaf: nat, collided: bool)
    requires MeetsAt(h, x, idx, siblings, hashes, at)
    ensures !collided ==> at.k == at.m && leaf < |hashes| && x == hashes[leaf]
    ensures collided ==> Collide(h, VerifierInputs(h, x, idx, siblings), TreeInputs(h, hashes))
    decreases at.k
  {
    leaf := at.i;
    if at.k == 0 || at.m == 0 {
      collided := AtBottom(h, x, idx, siblings, hashes, at);
    } else {
      var k, m := at.k - 1, at.m - 1;
      assert at == Place(k + 1, m + 1, at.i);
      var n;
      n, collided := StepDown(h, x, idx, siblings, hashes, k, m, at.i);
      if !collided {
        leaf, collided := Grounds(h, x, idx, siblings, hashes, Place(k, m, n));
      }
    }
  }

  /** A walk of k steps that ends in a node of level m has k == m, or two preimages collide. */
  lemma LevelsAlign(h: Hash, x: string, idx: nat, siblings: seq<Option<string>>, hashes: seq<string>,
                    k: nat, m: nat, i: nat)
    requires Meets(h, x, idx, siblings, hashes, k, m, i)
    ensures k == m || Collide(h, VerifierInputs(h, x, idx, siblings), TreeInputs(h, hashes))
  {
    var leaf, collided := Grounds(h, x, idx, siblings, hashes, Place(k, m, i));
  }

  lemma ChildBack(j: nat, size: nat)
    requires j < size
    ensures ChildOf(j, j / 2, size) == j
  {
  }

  lemma OnPath(h: Hash, x: string, idx: nat, siblings: seq<Option<string>>, hashes: seq<string>, k: nat)
    returns (collided: bool)
    requires idx < |hashes| && Meets(h, x, idx, siblings, hashes, k + 1, k + 1, Halved(idx, k + 1))
    ensures !collided ==> Meets(h, x, idx, siblings, hashes, k, k, Halved(idx, k))
    ensures collided ==> Collide(h, VerifierInputs(h, x, idx, siblings), TreeInputs(h, hashes))
  {
    var n;
    n, collided := Descend(h, x, idx, siblings, hashes, k, k, Halved(idx, k + 1));
    InRange(h, Leaves(h, hashes), idx, k);
    ChildBack(Halved(idx, k), |Level(h, Leaves(h, hashes), k)|);
  }

  /** With the depths equal, the walk passes through exactly the tree nodes above leaf idx. */
  lemma {:induction false} PathsMeet(h: Hash, x: string, idx: nat, siblings: seq<Option<string>>, hashes: seq<string>,
      k: nat)
    requires idx < |hashes| && Meets(h, x, idx, siblings, hashes, k, k, Halved(idx, k))
    ensures x == hashes[idx] || Collide(h, VerifierInputs(h, x, idx, siblings), TreeInputs(h, hashes))
    decreases k
  {
    if k == 0 {
      LeafIsLeaf(h, x, idx, siblings, hashes, idx);
    } else {
      var collided := OnPath(h, x, idx, siblings, hashes, k - 1);
      if !collided {
        PathsMeet(h, x, idx, siblings, hashes, k - 1);
      }
    }
  }

  /**
   Soundness. A proof of any length, with any sibling strings, that the verifier accepts against the
   root of a list at a position inside the list proves the element at that position, or else the
   verifier and the tree hashed two different strings to one digest.
   */
  lemma MerkleSound(h: Hash, x: string, proof: MerkleProof, hashes: seq<string>)
    requires 0 <= proof.index < |hashes| && Accepts(h, x, proof, Root(h, hashes))
    ensures x == hashes[proof.index]
         || Collide(h, VerifierInputs(h, x, proof.index, proof.siblings), TreeInputs(h, hashes))
  {
    var leaves, k, d := Leaves(h, hashes), |proof.siblings|, Depth(|hashes|);
    ClimbWalks(h, HashOf(h, Leaf(x)), proof.index, proof.siblings, proof.directions);
    TopLevel(h, leaves);
    assert Meets(h, x, proof.index, proof.siblings, hashes, k, d, 0);
    LevelsAlign(h, x, proof.index, proof.siblings, hashes, k, d, 0);
    if k == d {
      PathsMeet(h, x, proof.index, proof.siblings, hashes, k);
    }
  }

  /**
   Soundness at any index. An accepted proof, also one at a position past the end of the list, is for an
   element of the list, or else two different strings hash to one digest.
   */
  lemma MerkleSoundAnywhere(h: Hash, x: string, proof: MerkleProof, hashes: seq<string>)
    requires hashes != [] && Accepts(h, x, proof, Root(h, hashes))
    ensures x in hashes || Collide(h, VerifierInputs(h, x, proof.index, proof.siblings), TreeInputs(h, hashes))
  {
    var k, d := |proof.siblings|, Depth(|hashes|);
    ClimbWalks(h, HashOf(h, Leaf(x)), proof.index, proof.siblings, proof.directions);
    TopLevel(h, Leaves(h, hashes));
    assert Meets(h, x, proof.index, proof.siblings, hashes, k, d, 0);
    var leaf, collided := Grounds(h, x, proof.index, proof.siblings, hashes, Place(k, d, 0));
  }

  lemma RootOfOne(h: Hash, top: Digest)
    ensures RootOf(h, [top]) == top
  {
  }

  /**
   Past the end the padding is accepted: of three leaves the last is proved at index 3 as well as at
   index 2. A position means something only below the signed count.
   */
  lemma PaddingIsAccepted(h: Hash, a: string, b: string, c: string)
    ensures var leaf := HashOf(h, Leaf(c));
            var left := HashOf(h, Node(HashOf(h, Leaf(a)), HashOf(h, Leaf(b))));
            Accepts(h, c, MerkleProof(3, [Some(leaf), Some(left)], [Left, Left]), Root(h, [a, b, c]))
  {
    var leaf, left := HashOf(h, Leaf(c)), HashOf(h, Node(HashOf(h, Leaf(a)), HashOf(h, Leaf(b))));
    var above := HashOf(h, Node(leaf, leaf));
    var top := HashOf(h, Node(left, above));
    var leaves := Leaves(h, [a, b, c]);
    assert leaves == [HashOf(h, Leaf(a)), HashOf(h, Leaf(b)), leaf];
    NextNode(h, leaves, 0);
    NextNode(h, leaves, 1);
    assert NextLayer(h, leaves) == [left, above];
    NextNode(h, [left, above], 0);
    assert NextLayer(h, [left, above]) == [top];
    RootOfOne(h, top);
    RootAbove(h, [left, above]);
    RootAbove(h, leaves);
    ClimbStep(h, above, 1, left, [], []);
    ClimbStep(h, leaf, 3, leaf, [Some(left)], [Left]);
  }

  // ---- Completeness ----

  lemma ClimbStep(h: Hash, current: Digest, idx: nat, sibling: string, more: seq<Option<string>>, dirs: seq<Direction>)
    requires |more| == |dirs|
    ensures Climb(h, current, idx, [Some(sibling)] + more, [DirectionOf(idx)] + dirs)
         == Climb(h, HashOf(h, Step(current, idx, sibling)), idx / 2, more, dirs)
  {
    assert ([Some(sibling)] + more)[1..] == more && ([DirectionOf(idx)] + dirs)[1..] == dirs;
  }

  lemma NodeAbove(h: Hash, layer: Layer, idx: nat)
    requires |layer| > 1 && idx < |layer|
    ensures NextLayer(h, layer)[idx / 2] == HashOf(h, Step(layer[idx], idx, Sibling(layer, idx)))
  {
    PairAt(layer, idx / 2);
  }

  /** Climbing the tree's own siblings from one of its nodes ends at its root. */
  lemma {:induction false} OwnPath(h: Hash, layer: Layer, idx: nat)
    requires idx < |layer|
    ensures Climb(h, layer[idx], idx, SiblingsOf(h, layer, idx), DirectionsOf(Depth(|layer|), idx))
         == Some((RootOf(h, layer), 0))
    decreases |layer|
  {
    if |layer| > 1 {
      var next := NextLayer(h, layer);
      OwnPath(h, next, idx / 2);
      ProofStep(h, layer, idx);
      NodeAbove(h, layer, idx);
      ClimbStep(h, layer[idx], idx, Sibling(layer, idx), SiblingsOf(h, next, idx / 2),
                DirectionsOf(Depth(|next|), idx / 2));
    }
  }

  /** Every proof the tree hands out is accepted at its own position. */
  lemma MerkleComplete(h: Hash, hashes: seq<string>, index: nat)
    requires index < |hashes| <= MAX_ARRAY
    ensures Accepts(h, hashes[index], ProofOf(h, hashes, index), Root(h, hashes))
  {
    OwnPath(h, Leaves(h, hashes), index);
  }

  // ---- Root binding ----

  lemma PairBinds(h: Hash, a: Layer, b: Layer, n: nat)
    requires |a| == |b| && 2 * n < |a| && NextLayer(h, a) == NextLayer(h, b)
    ensures Collide(h, Pairs(a), Pairs(b)) || (a[2 * n] == b[2 * n] && RightChild(a, n) == RightChild(b, n))
  {
    NextNode(h, a, n);
    NextNode(h, b, n);
    PairAt(a, n);
    PairAt(b, n);
    var p, q := Node(a[2 * n], RightChild(a, n)), Node(b[2 * n], RightChild(b, n));
    Collided(h, p, q, Pairs(a), Pairs(b));
    if Bytes(p) == Bytes(q) {
      NodeSplit(p.left, p.right, q.left, q.right);
    }
  }

  lemma NodesBind(h: Hash, a: Layer, b: Layer, i: nat)
    requires |a| == |b| && i < |a| && NextLayer(h, a) == NextLayer(h, b)
    ensures a[i] == b[i] || Collide(h, Pairs(a), Pairs(b))
  {
    PairBinds(h, a, b, i / 2);
    assert i == 2 * (i / 2) || i == 2 * (i / 2) + 1;
  }

  lemma LayerBinds(h: Hash, a: Layer, b: Layer)
    requires |a| == |b| && NextLayer(h, a) == NextLayer(h, b)
    ensures a == b || Collide(h, Pairs(a), Pairs(b))
  {
    forall i | 0 <= i < |a| ensures a[i] == b[i] || Collide(h, Pairs(a), Pairs(b)) {
      NodesBind(h, a, b, i);
    }
  }

  lemma {:induction false} SameSizes(h: Hash, a: Layer, b: Layer, k: nat)
    requires |a| == |b|
    ensures |Level(h, a, k)| == |Level(h, b, k)|
  {
    if k > 0 { SameSizes(h, a, b, k - 1); }
  }

  lemma {:induction false} LevelsBind(h: Hash, a: Layer, b: Layer, k: nat)
    requires |a| == |b| && Level(h, a, k) == Level(h, b, k)
    ensures a == b || Collide(h, NodeInputs(h, a, k), NodeInputs(h, b, k))
  {
    if k > 0 {
      var c, d := Level(h, a, k - 1), Level(h, b, k - 1);
      SameSizes(h, a, b, k - 1);
      LayerBinds(h, c, d);
      if c == d {
        LevelsBind(h, a, b, k - 1);
        if a != b {
          CollideWithin(h, NodeInputs(h, a, k - 1), NodeInputs(h, b, k - 1), NodeInputs(h, a, k), NodeInputs(h, b, k));
        }
      } else {
        CollideWithin(h, Pairs(c), Pairs(d), NodeInputs(h, a, k), NodeInputs(h, b, k));
      }
    }
  }

  lemma LeavesBind(h: Hash, a: seq<string>, b: seq<string>)
    requires |a| == |b| && a != [] && Leaves(h, a) == Leaves(h, b)
    ensures a == b || Collide(h, TreeInputs(h, a), TreeInputs(h, b))
  {
    forall i | 0 <= i < |a| ensures a[i] == b[i] || Collide(h, TreeInputs(h, a), TreeInputs(h, b)) {
      LeafHashed(h, a, i);
      LeafHashed(h, b, i);
      Collided(h, Leaf(a[i]), Leaf(b[i]), TreeInputs(h, a), TreeInputs(h, b));
      if Bytes(Leaf(a[i])) == Bytes(Leaf(b[i])) { LeafSplit(a[i], b[i]); }
    }
  }

  /** Root and count together fix the list, unless two different strings hashed for the two trees collide. */
  lemma RootAndCountBind(h: Hash, a: seq<string>, b: seq<string>)
    requires |a| == |b| && Root(h, a) == Root(h, b)
    ensures a == b || Collide(h, TreeInputs(h, a), TreeInputs(h, b))
  {
    if a != [] {
      var x, y, d := Leaves(h, a), Leaves(h, b), Depth(|a|);
      TopLevel(h, x);
      TopLevel(h, y);
      assert Level(h, x, d) == Level(h, y, d);
      LevelsBind(h, x, y, d);
      if x == y {
        LeavesBind(h, a, b);
      } else {
        CollideWithin(h, NodeInputs(h, x, d), NodeInputs(h, y, d), TreeInputs(h, a), TreeInputs(h, b));
      }
    }
  }

  /** An odd layer pairs its last node with itself, as the longer layer pairs it with its copy. */
  lemma {:induction false} PadOdd(layer: Layer)
    requires |layer| % 2 == 1
    ensures Pairs(layer + [layer[|layer| - 1]]) == Pairs(layer)
  {
    var longer := layer + [layer[|layer| - 1]];
    if |layer| > 1 {
      PadOdd(layer[2..]);
      assert longer[2..] == layer[2..] + [layer[2..][|layer[2..]| - 1]];
    } else {
      assert longer[2..] == [];
    }
  }

  /** The root alone does not fix the list: every odd list of three or more shares its root with a longer one. */
  lemma RootAloneDoesNotBind(h: Hash, a: seq<string>)
    requires |a| >= 3 && |a| % 2 == 1
    ensures Root(h, a + [a[|a| - 1]]) == Root(h, a)
  {
    var b := a + [a[|a| - 1]];
    var x, y := Leaves(h, a), Leaves(h, b);
    assert forall i | 0 <= i < |a| :: y[i] == x[i];
    PadOdd(x);
    assert y == x + [x[|x| - 1]];
  }

  // ---- Size and cost ----

  /**
   The batch builds a tree of n leaves with fewer than 2n + d hashes, d the length of every proof,
   and d is logarithmic in n.
   */
  lemma BatchCost(h: Hash, hashes: seq<string>, index: nat)
    requires index < |hashes|
    ensures |TreeInputs(h, hashes)| < 2 * |hashes| + |ProofOf(h, hashes, index).siblings|
    ensures |hashes| <= Pow2(|ProofOf(h, hashes, index).siblings|)
    ensures |hashes| >= 2 ==> Pow2(|ProofOf(h, hashes, index).siblings| - 1) < |hashes|
  {
    assert |ProofOf(h, hashes, index).siblings| == Depth(|hashes|);
    TreeCount(h, hashes);
    DepthBounds(|hashes|);
  }
}
