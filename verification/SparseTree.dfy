/**
 * The set a depth-256 sparse Merkle root commits to: the full recursion over all
 * 256 levels, and what a path of sibling hashes says about it.
 */
module SparseTree {
  import opened ByteWords

  /** The hash function: arbitrary, nothing is assumed of it beyond its width. */
  datatype Hash = Hash(digest: Bytes -> Bytes32)

  const DEPTH: nat := 256

  function LeafInput(key: Bytes32): Bytes {
    [0] + key + [1]
  }

  function NodeInput(depth: nat, left: Bytes32, right: Bytes32): Bytes
    requires depth < DEPTH
  {
    [1, depth] + left + right
  }

  /** The node above `below` on the path of `key`, next to `sibling`. */
  function PathNode(key: Bytes32, depth: nat, below: Bytes32, sibling: Bytes32): Bytes
    requires depth < DEPTH
  {
    if BitAt(key, depth) then NodeInput(depth, sibling, below) else NodeInput(depth, below, sibling)
  }

  lemma NodeInputInjective(d: nat, l: Bytes32, r: Bytes32, d': nat, l': Bytes32, r': Bytes32)
    requires d < DEPTH && d' < DEPTH
    requires NodeInput(d, l, r) == NodeInput(d', l', r')
    ensures d == d' && l == l' && r == r'
  {
    var a, b := NodeInput(d, l, r), NodeInput(d', l', r');
    assert d == a[1] && d' == b[1];
    assert l == a[2..34] && l' == b[2..34];
    assert r == a[34..] && r' == b[34..];
  }

  /** The keys of a subtree that go to the child on side `right` at `depth`. */
  function Side(keys: set<Bytes32>, depth: nat, right: bool): set<Bytes32>
    requires depth < DEPTH
  {
    set k | k in keys && BitAt(k, depth) == right
  }

  ghost function Member(keys: set<Bytes32>): (k: Bytes32)
    requires keys != {}
    ensures k in keys
  {
    var k :| k in keys;
    k
  }

  /** Root of the full subtree at `depth` holding `keys`: no shortcut anywhere. */
  ghost function SubRoot(h: Hash, keys: set<Bytes32>, depth: nat): Bytes32
    requires depth <= DEPTH
    decreases DEPTH - depth
  {
    if depth == DEPTH then
      if keys == {} then ZERO32 else h.digest(LeafInput(Member(keys)))
    else
      h.digest(NodeInput(depth, SubRoot(h, Side(keys, depth, false), depth + 1),
        SubRoot(h, Side(keys, depth, true), depth + 1)))
  }

  /** The committed root of a set; the empty set has the all-zero sentinel. */
  ghost function RootOf(h: Hash, keys: set<Bytes32>): Bytes32 {
    if keys == {} then ZERO32 else SubRoot(h, keys, 0)
  }

  /** A node hashes its prefix and depth, then the keys whose bit is 0 on the left and those whose bit is
      1 on the right, the bit taken by shifting the byte; a leaf hashes its prefix, key and presence. */
  lemma TreeLayout(h: Hash, keys: set<Bytes32>, depth: nat, key: Bytes32)
    ensures depth < DEPTH ==>
              SubRoot(h, keys, depth) == h.digest([1, depth]
                + SubRoot(h, (set k: Bytes32 | k in keys && k[depth / 8] / Pow2(depth % 8) % 2 == 0), depth + 1)
                + SubRoot(h, (set k: Bytes32 | k in keys && k[depth / 8] / Pow2(depth % 8) % 2 == 1), depth + 1))
    ensures SubRoot(h, {key}, DEPTH) == h.digest([0] + key + [1])
  {
    if depth < DEPTH {
      forall k: Bytes32 | k in keys
        ensures BitAt(k, depth) <==> k[depth / 8] / Pow2(depth % 8) % 2 == 1
      {
        BitIsShift(k[depth / 8], depth % 8);
      }
      assert Side(keys, depth, false) == (set k: Bytes32 | k in keys && k[depth / 8] / Pow2(depth % 8) % 2 == 0);
      assert Side(keys, depth, true) == (set k: Bytes32 | k in keys && k[depth / 8] / Pow2(depth % 8) % 2 == 1);
    }
    assert Member({key}) == key;
  }

  /** Every input hashed on the way to SubRoot(h, keys, depth). */
  ghost function TreeInputs(h: Hash, keys: set<Bytes32>, depth: nat): set<Bytes>
    requires depth <= DEPTH
    decreases DEPTH - depth
  {
    if depth == DEPTH then
      set k | k in keys :: LeafInput(k)
    else
      var left, right := Side(keys, depth, false), Side(keys, depth, true);
      {NodeInput(depth, SubRoot(h, left, depth + 1), SubRoot(h, right, depth + 1))}
        + TreeInputs(h, left, depth + 1) + TreeInputs(h, right, depth + 1)
  }

  /** Among the listed inputs, h has no collision. */
  ghost predicate InjectiveOn(h: Hash, inputs: set<Bytes>) {
    forall a, b | a in inputs && b in inputs && h.digest(a) == h.digest(b) :: a == b
  }

  /** Among the listed inputs, h has no collision and none hashes to zero. */
  ghost predicate CollisionFree(h: Hash, inputs: set<Bytes>) {
    InjectiveOn(h, inputs) && forall a | a in inputs :: h.digest(a) != ZERO32
  }

  datatype Step = Step(depth: byte, sibling: Bytes32)

  /** The steps, deepest first, climb from depth d + |steps| to depth d without a gap. */
  predicate Climbs(steps: seq<Step>, d: nat) {
    forall i | 0 <= i < |steps| :: steps[i].depth == d + |steps| - 1 - i
  }

  /** Hash reached by folding `bottom` up `steps` (deepest first) along the path of `key`. */
  function PathHash(h: Hash, key: Bytes32, bottom: Bytes32, steps: seq<Step>): Bytes32 {
    if steps == [] then bottom
    else
      var last := steps[|steps| - 1];
      h.digest(PathNode(key, last.depth, PathHash(h, key, bottom, steps[..|steps| - 1]), last.sibling))
  }

  /** Every input hashed by that fold. */
  function PathInputs(h: Hash, key: Bytes32, bottom: Bytes32, steps: seq<Step>): set<Bytes> {
    if steps == [] then {}
    else
      var last := steps[|steps| - 1];
      var below := steps[..|steps| - 1];
      {PathNode(key, last.depth, PathHash(h, key, bottom, below), last.sibling)} + PathInputs(h, key, bottom, below)
  }

  /** The members of `keys` that share the first `td` bits of `key` from depth d on. */
  ghost function Below(keys: set<Bytes32>, key: Bytes32, d: nat, td: nat): set<Bytes32>
    requires d <= td <= DEPTH
    decreases td - d
  {
    if d == td then keys else Below(Side(keys, d, BitAt(key, d)), key, d + 1, td)
  }

  /** The true siblings of the path of `key` through the subtree of `keys`, deepest first. */
  ghost function TrueSteps(h: Hash, keys: set<Bytes32>, key: Bytes32, d: nat, td: nat): (steps: seq<Step>)
    requires d <= td <= DEPTH
    ensures |steps| == td - d && Climbs(steps, d)
    decreases td - d
  {
    if d == td then []
    else
      var bit := BitAt(key, d);
      TrueSteps(h, Side(keys, d, bit), key, d + 1, td) + [Step(d, SubRoot(h, Side(keys, d, !bit), d + 1))]
  }

  // ----- what a fold over true siblings computes

  /** Folding the empty subtree up true siblings gives the root; folding the single-key
      subtree up the same siblings gives the root with the key added. */
  lemma {:induction false} TruePath(h: Hash, keys: set<Bytes32>, key: Bytes32, d: nat, td: nat)
    requires d <= td <= DEPTH
    requires Below(keys, key, d, td) == {}
    ensures key !in keys
    ensures PathHash(h, key, SubRoot(h, {}, td), TrueSteps(h, keys, key, d, td)) == SubRoot(h, keys, d)
    ensures PathHash(h, key, SubRoot(h, {key}, td), TrueSteps(h, keys, key, d, td)) == SubRoot(h, keys + {key}, d)
    decreases td - d
  {
    if d == td {
      assert keys + {key} == {key};
    } else {
      var bit := BitAt(key, d);
      var mine, other := Side(keys, d, bit), Side(keys, d, !bit);
      var deeper := TrueSteps(h, mine, key, d + 1, td);
      var steps := TrueSteps(h, keys, key, d, td);
      assert steps[..|steps| - 1] == deeper && steps[|steps| - 1] == Step(d, SubRoot(h, other, d + 1));
      TruePath(h, mine, key, d + 1, td);
      assert Side(keys + {key}, d, bit) == mine + {key};
      assert Side(keys + {key}, d, !bit) == other;
    }
  }

  // ----- soundness of an arbitrary accepted path

  lemma CollisionFreeSubset(h: Hash, inputs: set<Bytes>, more: set<Bytes>)
    requires CollisionFree(h, more) && inputs <= more
    ensures CollisionFree(h, inputs)
  {
  }

  ghost function Child(h: Hash, keys: set<Bytes32>, depth: nat, right: bool): Bytes32
    requires depth < DEPTH
  {
    SubRoot(h, Side(keys, depth, right), depth + 1)
  }

  /** A subtree's root opens in one way only, as long as no collision is at hand. */
  lemma NodeOpens(h: Hash, keys: set<Bytes32>, d: nat, left: Bytes32, right: Bytes32, inputs: set<Bytes>)
    requires d < DEPTH
    requires NodeInput(d, left, right) in inputs && TreeInputs(h, keys, d) <= inputs && CollisionFree(h, inputs)
    requires h.digest(NodeInput(d, left, right)) == SubRoot(h, keys, d)
    ensures left == Child(h, keys, d, false) && right == Child(h, keys, d, true)
  {
    var truth := NodeInput(d, Child(h, keys, d, false), Child(h, keys, d, true));
    assert truth in TreeInputs(h, keys, d);
    assert h.digest(truth) == SubRoot(h, keys, d);
    NodeInputInjective(d, left, right, d, Child(h, keys, d, false), Child(h, keys, d, true));
  }

  lemma EmptySides(d: nat, right: bool)
    requires d < DEPTH
    ensures Side({}, d, right) == {}
  {
  }

  lemma LeafListed(h: Hash, keys: set<Bytes32>)
    ensures keys != {} ==> LeafInput(Member(keys)) in TreeInputs(h, keys, DEPTH)
  {
  }

  lemma SidesCover(keys: set<Bytes32>, d: nat)
    requires d < DEPTH
    ensures keys == Side(keys, d, false) + Side(keys, d, true)
  {
  }

  lemma SubInputs(h: Hash, keys: set<Bytes32>, d: nat, right: bool)
    requires d < DEPTH
    ensures TreeInputs(h, Side(keys, d, right), d + 1) <= TreeInputs(h, keys, d)
  {
  }

  lemma RootOpens(h: Hash, keys: set<Bytes32>, d: nat, inputs: set<Bytes>)
    requires d < DEPTH && TreeInputs(h, keys, d) <= inputs
    ensures var node := NodeInput(d, Child(h, keys, d, false), Child(h, keys, d, true));
            node in inputs && h.digest(node) == SubRoot(h, keys, d)
  {
  }

  lemma EmptyLeaf(h: Hash, keys: set<Bytes32>, inputs: set<Bytes>)
    requires CollisionFree(h, inputs) && TreeInputs(h, keys, DEPTH) <= inputs
    requires SubRoot(h, keys, DEPTH) == SubRoot(h, {}, DEPTH)
    ensures keys == {}
  {
    LeafListed(h, keys);
  }

  /** Only the empty subtree has the empty subtree's root. */
  lemma {:induction false} EmptyRootOnlyEmpty(h: Hash, keys: set<Bytes32>, d: nat, inputs: set<Bytes>)
    requires d <= DEPTH
    requires CollisionFree(h, inputs) && TreeInputs(h, keys, d) <= inputs && TreeInputs(h, {}, d) <= inputs
    requires SubRoot(h, keys, d) == SubRoot(h, {}, d)
    ensures keys == {}
    decreases DEPTH - d
  {
    hide SubRoot, TreeInputs, CollisionFree, BitAt;
    if d == DEPTH {
      EmptyLeaf(h, keys, inputs);
    } else {
      EmptySides(d, false);
      EmptySides(d, true);
      RootOpens(h, {}, d, inputs);
      NodeOpens(h, keys, d, Child(h, {}, d, false), Child(h, {}, d, true), inputs);
      forall right: bool
        ensures Side(keys, d, right) == {}
      {
        SubInputs(h, keys, d, right);
        SubInputs(h, {}, d, right);
        EmptyRootOnlyEmpty(h, Side(keys, d, right), d + 1, inputs);
      }
      SidesCover(keys, d);
    }
  }

  /** The top step of a path that folds to the true root carries the true sibling. */
  lemma TopStepTrue(h: Hash, keys: set<Bytes32>, key: Bytes32, d: nat, hash: Bytes32, sibling: Bytes32,
      inputs: set<Bytes>)
    requires d < DEPTH
    requires PathNode(key, d, hash, sibling) in inputs && TreeInputs(h, keys, d) <= inputs && CollisionFree(h, inputs)
    requires h.digest(PathNode(key, d, hash, sibling)) == SubRoot(h, keys, d)
    ensures hash == Child(h, keys, d, BitAt(key, d)) && sibling == Child(h, keys, d, !BitAt(key, d))
  {
    if BitAt(key, d) {
      NodeOpens(h, keys, d, sibling, hash, inputs);
    } else {
      NodeOpens(h, keys, d, hash, sibling, inputs);
    }
  }

  /** The subtree of `keys` below depth d, one step further down the path of `key`. */
  ghost function Mine(keys: set<Bytes32>, key: Bytes32, d: nat): set<Bytes32>
    requires d < DEPTH
  {
    Side(keys, d, BitAt(key, d))
  }

  lemma LastStep(h: Hash, key: Bytes32, bottom: Bytes32, steps: seq<Step>)
    requires steps != []
    ensures var last, below := steps[|steps| - 1], steps[..|steps| - 1];
            var node := PathNode(key, last.depth, PathHash(h, key, bottom, below), last.sibling);
            && PathHash(h, key, bottom, steps) == h.digest(node)
            && PathInputs(h, key, bottom, steps) == {node} + PathInputs(h, key, bottom, below)
  {
  }

  /** A path that folds to the true root: its top step is true, and the rest folds to the true
      root of the subtree it leads into. */
  lemma PathDown(h: Hash, keys: set<Bytes32>, key: Bytes32, d: nat, bottom: Bytes32, steps: seq<Step>,
      inputs: set<Bytes>)
    requires steps != [] && d + |steps| <= DEPTH && Climbs(steps, d)
    requires CollisionFree(h, inputs) && TreeInputs(h, keys, d) <= inputs
    requires PathInputs(h, key, bottom, steps) <= inputs
    requires PathHash(h, key, bottom, steps) == SubRoot(h, keys, d)
    ensures steps[|steps| - 1] == Step(d, Child(h, keys, d, !BitAt(key, d)))
    ensures var below := steps[..|steps| - 1];
            && PathInputs(h, key, bottom, below) <= inputs
            && PathHash(h, key, bottom, below) == SubRoot(h, Mine(keys, key, d), d + 1)
            && Climbs(below, d + 1)
    ensures TreeInputs(h, Mine(keys, key, d), d + 1) <= inputs
  {
    hide SubRoot, TreeInputs, CollisionFree, BitAt, PathHash, PathInputs, PathNode;
    var last, below := steps[|steps| - 1], steps[..|steps| - 1];
    LastStep(h, key, bottom, steps);
    TopStepTrue(h, keys, key, d, PathHash(h, key, bottom, below), last.sibling, inputs);
    SubInputs(h, keys, d, BitAt(key, d));
  }

  lemma TrueStepsUp(h: Hash, keys: set<Bytes32>, key: Bytes32, d: nat, td: nat)
    requires d < td <= DEPTH
    ensures Below(keys, key, d, td) == Below(Mine(keys, key, d), key, d + 1, td)
    ensures TrueSteps(h, keys, key, d, td)
         == TrueSteps(h, Mine(keys, key, d), key, d + 1, td) + [Step(d, Child(h, keys, d, !BitAt(key, d)))]
  {
  }

  /** A path that folds to the true root consists of the true siblings and ends in an empty slot. */
  lemma {:induction false} PathSound(h: Hash, keys: set<Bytes32>, key: Bytes32, d: nat, td: nat, bottom: Bytes32,
      steps: seq<Step>, inputs: set<Bytes>)
    requires d + |steps| == td <= DEPTH && Climbs(steps, d) && bottom == SubRoot(h, {}, td)
    requires CollisionFree(h, inputs) && TreeInputs(h, keys, d) <= inputs && TreeInputs(h, {}, td) <= inputs
    requires PathInputs(h, key, bottom, steps) <= inputs
    requires PathHash(h, key, bottom, steps) == SubRoot(h, keys, d)
    ensures Below(keys, key, d, td) == {}
    ensures steps == TrueSteps(h, keys, key, d, td)
    decreases |steps|
  {
    hide SubRoot, TreeInputs, CollisionFree, BitAt;
    if steps == [] {
      EmptyRootOnlyEmpty(h, keys, d, inputs);
    } else {
      PathDown(h, keys, key, d, bottom, steps, inputs);
      PathSound(h, Mine(keys, key, d), key, d + 1, td, bottom, steps[..|steps| - 1], inputs);
      TrueStepsUp(h, keys, key, d, td);
      assert steps == steps[..|steps| - 1] + [steps[|steps| - 1]];
    }
  }

  // ----- the root commits to the set

  lemma AgreeDeeper(keys: set<Bytes32>, d: nat, right: bool)
    requires d < DEPTH && forall a, b | a in keys && b in keys :: Agree(a, b, d)
    ensures forall a, b | a in Side(keys, d, right) && b in Side(keys, d, right) :: Agree(a, b, d + 1)
  {
    hide BitAt;
  }

  lemma LeafSets(h: Hash, a: set<Bytes32>, b: set<Bytes32>, inputs: set<Bytes>)
    requires CollisionFree(h, inputs) && TreeInputs(h, a, DEPTH) <= inputs && TreeInputs(h, b, DEPTH) <= inputs
    requires forall x, y | x in a && y in a :: Agree(x, y, DEPTH)
    requires forall x, y | x in b && y in b :: Agree(x, y, DEPTH)
    requires SubRoot(h, a, DEPTH) == SubRoot(h, b, DEPTH)
    ensures a <= b
  {
    LeafListed(h, a);
    LeafListed(h, b);
    forall x | x in a
      ensures x in b
    {
      var y := Member(a);
      AgreeAll(x, y);
      assert LeafInput(y)[1..33] == y;
      if b != {} {
        var z := Member(b);
        assert LeafInput(z)[1..33] == z;
      }
    }
  }

  /** Two subtrees with one root hold the same keys. */
  lemma {:induction false} SubRootInjective(h: Hash, a: set<Bytes32>, b: set<Bytes32>, d: nat, inputs: set<Bytes>)
    requires d <= DEPTH
    requires CollisionFree(h, inputs) && TreeInputs(h, a, d) <= inputs && TreeInputs(h, b, d) <= inputs
    requires forall x, y | x in a && y in a :: Agree(x, y, d)
    requires forall x, y | x in b && y in b :: Agree(x, y, d)
    requires SubRoot(h, a, d) == SubRoot(h, b, d)
    ensures a == b
    decreases DEPTH - d
  {
    hide SubRoot, TreeInputs, BitAt, Agree;
    if d == DEPTH {
      LeafSets(h, a, b, inputs);
      LeafSets(h, b, a, inputs);
    } else {
      RootOpens(h, b, d, inputs);
      NodeOpens(h, a, d, Child(h, b, d, false), Child(h, b, d, true), inputs);
      forall right: bool
        ensures Side(a, d, right) == Side(b, d, right)
      {
        SubInputs(h, a, d, right);
        SubInputs(h, b, d, right);
        AgreeDeeper(a, d, right);
        AgreeDeeper(b, d, right);
        SubRootInjective(h, Side(a, d, right), Side(b, d, right), d + 1, inputs);
      }
      SidesCover(a, d);
      SidesCover(b, d);
    }
  }
}
