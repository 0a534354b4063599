/**
 * The return-nullifier accumulator: the builder that holds the keys, the witness it
 * produces, and the stateless verifier and updater that see only a root.
 */
module Accumulator {
  import opened ByteWords
  import opened Wrappers
  import opened SparseTree

  const EMPTY_TREE_ROOT: Bytes32 := ZERO32
  const MAX_STEPS: nat := 256

  datatype Terminal = Empty | Occupied(key: Bytes32)

  datatype Witness = Witness(terminal: Terminal, steps: seq<Step>)

  // ----- the stateless verifier

  function EmptyHash(h: Hash, depth: nat): Bytes32
    requires depth <= DEPTH
    decreases DEPTH - depth
  {
    if depth == DEPTH then EMPTY_TREE_ROOT
    else
      var below := EmptyHash(h, depth + 1);
      h.digest(NodeInput(depth, below, below))
  }

  function SingleKeyHash(h: Hash, key: Bytes32, depth: nat): Bytes32
    requires depth <= DEPTH
    decreases DEPTH - depth
  {
    if depth == DEPTH then h.digest(LeafInput(key))
    else h.digest(PathNode(key, depth, SingleKeyHash(h, key, depth + 1), EmptyHash(h, depth + 1)))
  }

  predicate Descends(steps: seq<Step>) {
    forall i | 1 <= i < |steps| :: steps[i].depth < steps[i - 1].depth
  }

  function FoldSteps(h: Hash, key: Bytes32, hash: Bytes32, steps: seq<Step>): Option<Bytes32> {
    if Descends(steps) then Some(PathHash(h, key, hash, steps)) else None
  }

  /** One below the deepest step, when the steps run contiguously up to depth 0. The
      subtraction is over the integers: a step past the top never matches. */
  function TerminalDepth(steps: seq<Step>): Option<nat> {
    if steps == [] then None
    else
      var top := steps[0].depth;
      if (exists i | 0 <= i < |steps| :: steps[i].depth != top - i) || steps[|steps| - 1].depth != 0 then None
      else Some(top + 1)
  }

  function RebuildAbsentRoot(h: Hash, key: Bytes32, w: Witness): Option<Bytes32> {
    if w.terminal != Empty then None
    else if w.steps == [] then Some(EMPTY_TREE_ROOT)
    else if |w.steps| > MAX_STEPS then None
    else
      match TerminalDepth(w.steps)
      case None => None
      case Some(td) => FoldSteps(h, key, EmptyHash(h, td), w.steps)
  }

  predicate VerifyNonMember(h: Hash, root: Bytes32, key: Bytes32, w: Witness) {
    RebuildAbsentRoot(h, key, w) == Some(root)
  }

  function Insert(h: Hash, root: Bytes32, key: Bytes32, w: Witness): Option<Bytes32> {
    if RebuildAbsentRoot(h, key, w) != Some(root) then None
    else if w.steps == [] then Some(SingleKeyHash(h, key, 0))
    else
      match TerminalDepth(w.steps)
      case None => None
      case Some(td) => FoldSteps(h, key, SingleKeyHash(h, key, td), w.steps)
  }

  // ----- the verifier against the set the root commits to

  /** `td` is a depth at which the slot of `key` is empty in the tree of `keys`. */
  ghost predicate EmptySlot(keys: set<Bytes32>, key: Bytes32, td: nat) {
    td <= DEPTH && if keys == {} then td == 0 else Below(keys, key, 0, td) == {}
  }

  /** `w` carries the true siblings of `key` down to an empty slot. */
  ghost predicate TrueWitness(h: Hash, keys: set<Bytes32>, key: Bytes32, w: Witness) {
    && w.terminal == Empty
    && EmptySlot(keys, key, |w.steps|)
    && w.steps == TrueSteps(h, keys, key, 0, |w.steps|)
  }

  /** The inputs hashed to build the root of `keys`. */
  ghost function RootInputs(h: Hash, keys: set<Bytes32>): set<Bytes> {
    if keys == {} then {} else TreeInputs(h, keys, 0)
  }

  /** The inputs the verifier hashes on this witness: its empty-subtree table and its fold. */
  ghost function VerifierInputs(h: Hash, key: Bytes32, w: Witness): set<Bytes> {
    TreeInputs(h, {}, 0)
      + if |w.steps| <= MAX_STEPS then PathInputs(h, key, EmptyHash(h, |w.steps|), w.steps) else {}
  }

  lemma {:induction false} EmptyHashIsEmptyRoot(h: Hash, depth: nat)
    requires depth <= DEPTH
    ensures EmptyHash(h, depth) == SubRoot(h, {}, depth)
    decreases DEPTH - depth
  {
    if depth < DEPTH {
      EmptyHashIsEmptyRoot(h, depth + 1);
      EmptySides(depth, false);
      EmptySides(depth, true);
    }
  }

  lemma {:induction false} SingleKeyHashIsRoot(h: Hash, key: Bytes32, depth: nat)
    requires depth <= DEPTH
    ensures SingleKeyHash(h, key, depth) == SubRoot(h, {key}, depth)
    decreases DEPTH - depth
  {
    hide BitAt, Side, EmptyHash;
    if depth < DEPTH {
      SingleKeyHashIsRoot(h, key, depth + 1);
      EmptyHashIsEmptyRoot(h, depth + 1);
      SingleSides(key, key, depth);
    }
  }

  /** Seen from `key`, a lone other key is on its own side or on the far one. */
  lemma SingleSides(key: Bytes32, other: Bytes32, depth: nat)
    requires depth < DEPTH
    ensures var bit := BitAt(key, depth);
            && Side({other}, depth, bit) == (if BitAt(other, depth) == bit then {other} else {})
            && Side({other}, depth, !bit) == (if BitAt(other, depth) == bit then {} else {other})
  {
    hide BitAt;
  }

  lemma {:induction false} EmptyInputsBelow(h: Hash, depth: nat)
    requires depth <= DEPTH
    ensures TreeInputs(h, {}, depth) <= TreeInputs(h, {}, 0)
  {
    hide TreeInputs, SubRoot, Side;
    if depth > 0 {
      EmptyInputsBelow(h, depth - 1);
      EmptySides(depth - 1, false);
      SubInputs(h, {}, depth - 1, false);
    }
  }

  lemma TerminalDepthIff(steps: seq<Step>)
    ensures TerminalDepth(steps) == if steps != [] && Climbs(steps, 0) then Some(|steps|) else None
  {
  }

  /** What the verifier rebuilds, in every case. */
  lemma RebuildIff(h: Hash, key: Bytes32, w: Witness)
    ensures RebuildAbsentRoot(h, key, w) ==
            if w.terminal == Empty && |w.steps| <= DEPTH && Climbs(w.steps, 0) then
              Some(if w.steps == [] then ZERO32 else PathHash(h, key, SubRoot(h, {}, |w.steps|), w.steps))
            else None
  {
    hide PathHash, SubRoot, EmptyHash, TerminalDepth;
    TerminalDepthIff(w.steps);
    if |w.steps| <= DEPTH {
      EmptyHashIsEmptyRoot(h, |w.steps|);
    }
  }

  /** Only the empty set has the sentinel root, unless an input hashes to zero. */
  lemma ZeroRootOnlyEmpty(h: Hash, keys: set<Bytes32>, inputs: set<Bytes>)
    requires CollisionFree(h, inputs) && TreeInputs(h, keys, 0) <= inputs
    ensures SubRoot(h, keys, 0) != ZERO32
  {
  }

  lemma AcceptedByEmptyRoot(h: Hash, key: Bytes32, w: Witness, inputs: set<Bytes>)
    requires CollisionFree(h, inputs) && VerifierInputs(h, key, w) <= inputs
    requires VerifyNonMember(h, RootOf(h, {}), key, w)
    ensures w == Witness(Empty, [])
  {
    hide SubRoot, TreeInputs, PathHash, PathInputs, CollisionFree, RebuildAbsentRoot, EmptyHash;
    RebuildIff(h, key, w);
    if w.steps != [] {
      EmptyHashIsEmptyRoot(h, |w.steps|);
      EmptyPathNotZero(h, key, w.steps, inputs);
    }
  }

  lemma AcceptedIsTrue(h: Hash, keys: set<Bytes32>, key: Bytes32, w: Witness, inputs: set<Bytes>)
    requires CollisionFree(h, inputs) && RootInputs(h, keys) + VerifierInputs(h, key, w) <= inputs
    requires VerifyNonMember(h, RootOf(h, keys), key, w)
    ensures TrueWitness(h, keys, key, w)
  {
    hide SubRoot, TreeInputs, PathHash, PathInputs, BitAt, CollisionFree, Below, TrueSteps, RebuildAbsentRoot,
      EmptyHash;
    TrueStepsNone(h, keys, key);
    if keys == {} {
      AcceptedByEmptyRoot(h, key, w, inputs);
    } else {
      RebuildIff(h, key, w);
      EmptyHashIsEmptyRoot(h, |w.steps|);
      EmptyInputsBelow(h, |w.steps|);
      ZeroRootOnlyEmpty(h, keys, inputs);
      PathSound(h, keys, key, 0, |w.steps|, SubRoot(h, {}, |w.steps|), w.steps, inputs);
    }
  }

  /** Against the root of `keys` the verifier accepts exactly the true sibling paths that end
      in an empty slot: any terminal depth, no other witness. */
  lemma VerifierExact(h: Hash, keys: set<Bytes32>, key: Bytes32, w: Witness)
    requires CollisionFree(h, RootInputs(h, keys) + VerifierInputs(h, key, w))
    ensures VerifyNonMember(h, RootOf(h, keys), key, w) <==> TrueWitness(h, keys, key, w)
  {
    hide *;
    if VerifyNonMember(h, RootOf(h, keys), key, w) {
      AcceptedIsTrue(h, keys, key, w, RootInputs(h, keys) + VerifierInputs(h, key, w));
    }
    if TrueWitness(h, keys, key, w) {
      InsertTrue(h, keys, key, w);
    }
  }

  lemma TrueStepsNone(h: Hash, keys: set<Bytes32>, key: Bytes32)
    ensures TrueSteps(h, keys, key, 0, 0) == [] && Below(keys, key, 0, 0) == keys
  {
  }

  lemma EmptyPathNotZero(h: Hash, key: Bytes32, steps: seq<Step>, inputs: set<Bytes>)
    requires 0 < |steps| <= DEPTH && CollisionFree(h, inputs)
    requires PathInputs(h, key, SubRoot(h, {}, |steps|), steps) <= inputs
    ensures PathHash(h, key, SubRoot(h, {}, |steps|), steps) != ZERO32
  {
    hide SubRoot;
    LastStep(h, key, SubRoot(h, {}, |steps|), steps);
  }

  /** What an insert along a true sibling path returns, with no assumption on the hash. */
  lemma InsertTrue(h: Hash, keys: set<Bytes32>, key: Bytes32, w: Witness)
    requires TrueWitness(h, keys, key, w)
    ensures key !in keys
    ensures VerifyNonMember(h, RootOf(h, keys), key, w)
    ensures Insert(h, RootOf(h, keys), key, w) == Some(RootOf(h, keys + {key}))
  {
    hide SubRoot, PathHash, BitAt, Below, TrueSteps;
    var td := |w.steps|;
    RebuildIff(h, key, w);
    TerminalDepthIff(w.steps);
    SingleKeyHashIsRoot(h, key, td);
    if keys == {} {
      assert keys + {key} == {key};
    } else {
      TrueStepsNone(h, keys, key);
      TruePath(h, keys, key, 0, td);
    }
  }

  /** Soundness for ANY witness: if the verifier accepts it against the root of `keys`, the key is
      absent, and the stateless insert returns the root of `keys` plus the key. The only way out
      is a collision or a preimage of zero among the inputs listed. */
  lemma InsertSound(h: Hash, keys: set<Bytes32>, key: Bytes32, w: Witness)
    requires CollisionFree(h, RootInputs(h, keys) + VerifierInputs(h, key, w))
    requires VerifyNonMember(h, RootOf(h, keys), key, w)
    ensures key !in keys
    ensures Insert(h, RootOf(h, keys), key, w) == Some(RootOf(h, keys + {key}))
  {
    VerifierExact(h, keys, key, w);
    InsertTrue(h, keys, key, w);
  }

  /** The root commits to the set: distinct sets have distinct roots. */
  lemma RootInjective(h: Hash, a: set<Bytes32>, b: set<Bytes32>)
    requires CollisionFree(h, RootInputs(h, a) + RootInputs(h, b))
    requires RootOf(h, a) == RootOf(h, b)
    ensures a == b
  {
    hide SubRoot, TreeInputs, CollisionFree;
    var inputs := RootInputs(h, a) + RootInputs(h, b);
    if a != {} {
      ZeroRootOnlyEmpty(h, a, inputs);
    }
    if b != {} {
      ZeroRootOnlyEmpty(h, b, inputs);
    }
    if a != {} && b != {} {
      SubRootInjective(h, a, b, 0, inputs);
    }
  }

  // ----- the witness the builder emits

  /** The first depth at which the slot of `key` is empty. */
  ghost function SlotDepth(keys: set<Bytes32>, key: Bytes32, d: nat): (td: nat)
    requires d <= DEPTH && key !in keys && forall k | k in keys :: Agree(k, key, d)
    ensures d <= td <= DEPTH && Below(keys, key, d, td) == {}
    ensures keys == {} <==> td == d
    decreases DEPTH - d
  {
    if keys == {} then d
    else
      SlotInside(keys, key, d);
      SlotDepth(Mine(keys, key, d), key, d + 1)
  }

  lemma SlotInside(keys: set<Bytes32>, key: Bytes32, d: nat)
    requires d <= DEPTH && keys != {} && key !in keys && forall k | k in keys :: Agree(k, key, d)
    ensures d < DEPTH && key !in Mine(keys, key, d)
    ensures forall k | k in Mine(keys, key, d) :: Agree(k, key, d + 1)
  {
    if d == DEPTH {
      var k := Member(keys);
      AgreeAll(k, key);
    }
  }

  ghost function CanonicalWitness(h: Hash, keys: set<Bytes32>, key: Bytes32): Witness
    requires key !in keys
  {
    Witness(Empty, TrueSteps(h, keys, key, 0, SlotDepth(keys, key, 0)))
  }

  /** Completeness, for every set and absent key and with no assumption on the hash: the canonical
      witness has at most 256 steps, contiguous up to depth 0, is accepted, and inserts the key. */
  lemma WitnessComplete(h: Hash, keys: set<Bytes32>, key: Bytes32)
    requires key !in keys
    ensures var w := CanonicalWitness(h, keys, key);
            && |w.steps| <= MAX_STEPS && Climbs(w.steps, 0)
            && VerifyNonMember(h, RootOf(h, keys), key, w)
            && Insert(h, RootOf(h, keys), key, w) == Some(RootOf(h, keys + {key}))
  {
    hide SubRoot, RootOf, Insert, VerifyNonMember, Below, BitAt;
    InsertTrue(h, keys, key, CanonicalWitness(h, keys, key));
  }

  // ----- the builder

  function FirstDifferingBit(left: Bytes32, right: Bytes32, from: nat): (f: Option<nat>)
    requires from <= DEPTH
    ensures f.None? <==> forall i | from <= i < DEPTH :: BitAt(left, i) == BitAt(right, i)
    ensures f.Some? ==> from <= f.value < DEPTH && BitAt(left, f.value) != BitAt(right, f.value)
    ensures f.Some? ==> forall i | from <= i < f.value :: BitAt(left, i) == BitAt(right, i)
    decreases DEPTH - from
  {
    if from == DEPTH then None
    else if BitAt(left, from) != BitAt(right, from) then Some(from)
    else FirstDifferingBit(left, right, from + 1)
  }

  /** The table of empty-subtree hashes, filled from the leaf level up. */
  method EmptyHashes(h: Hash) returns (table: array<Bytes32>)
    ensures table.Length == DEPTH + 1 && fresh(table)
    ensures forall d | 0 <= d <= DEPTH :: table[d] == SubRoot(h, {}, d)
  {
    hide SubRoot;
    table := new Bytes32[DEPTH + 1](_ => EMPTY_TREE_ROOT);
    EmptyHashIsEmptyRoot(h, DEPTH);
    for depth := DEPTH downto 0
      invariant forall d | depth <= d <= DEPTH :: table[d] == SubRoot(h, {}, d)
    {
      table[depth] := h.digest(NodeInput(depth, table[depth + 1], table[depth + 1]));
      EmptyHashIsEmptyRoot(h, depth);
      EmptyHashIsEmptyRoot(h, depth + 1);
    }
  }

  /** Folds one key from its leaf up to `depth` next to empty siblings. */
  method ComputeSingleKeyHash(h: Hash, key: Bytes32, depth: nat, empties: array<Bytes32>) returns (hash: Bytes32)
    requires depth <= DEPTH && empties.Length == DEPTH + 1
    requires forall d | 0 <= d <= DEPTH :: empties[d] == SubRoot(h, {}, d)
    ensures hash == SubRoot(h, {key}, depth)
  {
    hide SubRoot, BitAt;
    hash := h.digest(LeafInput(key));
    for level := DEPTH downto depth
      invariant hash == SingleKeyHash(h, key, level)
    {
      var sibling := empties[level + 1];
      EmptyHashIsEmptyRoot(h, level + 1);
      hash := h.digest(if BitAt(key, level) then NodeInput(level, sibling, hash) else NodeInput(level, hash, sibling));
    }
    SingleKeyHashIsRoot(h, key, depth);
  }

  /** The fold of the verifier, step by step with the depth check. */
  method ComputeFoldSteps(h: Hash, key: Bytes32, start: Bytes32, steps: seq<Step>) returns (folded: Option<Bytes32>)
    ensures folded == FoldSteps(h, key, start, steps)
  {
    hide BitAt, PathHash, PathInputs, Descends;
    NoStepsYet(h, key, start);
    assert steps[..0] == [];
    var hash := start;
    var previousDepth := DEPTH + 1;
    for i := 0 to |steps|
      invariant Descends(steps[..i])
      invariant previousDepth == if i == 0 then DEPTH + 1 else steps[i - 1].depth
      invariant hash == PathHash(h, key, start, steps[..i])
    {
      var step := steps[i];
      if step.depth >= previousDepth {
        NotDescending(steps, i);
        return None;
      }
      OneStepMore(h, key, start, steps, i);
      hash := h.digest(
        if BitAt(key, step.depth) then NodeInput(step.depth, step.sibling, hash)
        else NodeInput(step.depth, hash, step.sibling));
      previousDepth := step.depth;
    }
    assert steps[..|steps|] == steps;
    folded := Some(hash);
  }

  lemma NoStepsYet(h: Hash, key: Bytes32, start: Bytes32)
    ensures Descends([]) && PathHash(h, key, start, []) == start
  {
  }

  lemma NotDescending(steps: seq<Step>, i: nat)
    requires i < |steps| && steps[i].depth >= if i == 0 then DEPTH + 1 else steps[i - 1].depth
    ensures !Descends(steps)
  {
  }

  lemma OneStepMore(h: Hash, key: Bytes32, start: Bytes32, steps: seq<Step>, i: nat)
    requires i < |steps| && Descends(steps[..i]) && (i > 0 ==> steps[i].depth < steps[i - 1].depth)
    ensures Descends(steps[..i + 1])
    ensures PathHash(h, key, start, steps[..i + 1])
         == h.digest(PathNode(key, steps[i].depth, PathHash(h, key, start, steps[..i]), steps[i].sibling))
  {
    hide PathHash, PathInputs, PathNode;
    LastStep(h, key, start, steps[..i + 1]);
    assert steps[..i + 1][..i] == steps[..i];
  }

  /** Distinct keys that share their first `depth` bits: the content of one subtree. */
  ghost predicate OneSubtree(keys: seq<Bytes32>, depth: nat) {
    && depth <= DEPTH
    && Distinct(keys)
    && forall a, b | a in keys && b in keys :: Agree(a, b, depth)
  }

  /** Splits a subtree's keys by the bit at `depth`, keeping their order. */
  method SplitKeys(keys: seq<Bytes32>, depth: nat, bit: bool) returns (same: seq<Bytes32>, other: seq<Bytes32>)
    requires OneSubtree(keys, depth) && depth < DEPTH
    ensures OneSubtree(same, depth + 1) && OneSubtree(other, depth + 1)
    ensures SeqSet(same) == Side(SeqSet(keys), depth, bit) && SeqSet(other) == Side(SeqSet(keys), depth, !bit)
  {
    hide BitOf;
    same, other := [], [];
    for i := 0 to |keys|
      invariant forall k | k in same :: k in keys[..i] && BitAt(k, depth) == bit
      invariant forall k | k in other :: k in keys[..i] && BitAt(k, depth) != bit
      invariant forall k | k in keys[..i] :: if BitAt(k, depth) == bit then k in same else k in other
      invariant Distinct(same) && Distinct(other)
    {
      assert keys[..i + 1] == keys[..i] + [keys[i]];
      if BitAt(keys[i], depth) == bit {
        same := same + [keys[i]];
      } else {
        other := other + [keys[i]];
      }
    }
    assert keys[..|keys|] == keys;
  }

  lemma StartsOneSubtree(keys: seq<Bytes32>)
    requires Distinct(keys)
    ensures OneSubtree(keys, 0)
  {
  }

  lemma SubtreeBranches(keys: seq<Bytes32>, depth: nat)
    requires OneSubtree(keys, depth) && |keys| >= 2
    ensures depth < DEPTH
  {
    if depth == DEPTH {
      AgreeAll(keys[0], keys[1]);
    }
  }

  /** The recursive builder with its empty and single-key shortcuts: it computes the root of the
      full recursion, whatever the order of the keys. */
  method SubtreeHash(h: Hash, keys: seq<Bytes32>, depth: nat, empties: array<Bytes32>) returns (hash: Bytes32)
    requires OneSubtree(keys, depth) && empties.Length == DEPTH + 1
    requires forall d | 0 <= d <= DEPTH :: empties[d] == SubRoot(h, {}, d)
    ensures hash == SubRoot(h, SeqSet(keys), depth)
    decreases DEPTH - depth
  {
    if |keys| == 0 {
      assert SeqSet(keys) == {};
      hash := empties[depth];
    } else if |keys| == 1 {
      assert SeqSet(keys) == {keys[0]};
      hash := ComputeSingleKeyHash(h, keys[0], depth, empties);
    } else {
      SubtreeBranches(keys, depth);
      var left, right := SplitKeys(keys, depth, false);
      var leftHash := SubtreeHash(h, left, depth + 1, empties);
      var rightHash := SubtreeHash(h, right, depth + 1, empties);
      hash := h.digest(NodeInput(depth, leftHash, rightHash));
    }
  }

  method TreeRoot(h: Hash, keys: seq<Bytes32>) returns (root: Bytes32)
    requires Distinct(keys)
    ensures root == RootOf(h, SeqSet(keys))
  {
    hide SubRoot, OneSubtree, BitAt;
    if keys == [] {
      return EMPTY_TREE_ROOT;
    }
    StartsOneSubtree(keys);
    assert keys[0] in SeqSet(keys);
    var empties := EmptyHashes(h);
    root := SubtreeHash(h, keys, 0, empties);
  }

  class NullifierTree {
    var keys: seq<Bytes32>

    ghost predicate Valid()
      reads this
    {
      Distinct(keys)
    }

    ghost function Contents(): set<Bytes32>
      reads this
    {
      SeqSet(keys)
    }

    constructor ()
      ensures Valid() && keys == []
    {
      keys := [];
    }

    method Clone() returns (copy: NullifierTree)
      requires Valid()
      ensures fresh(copy) && copy.Valid() && copy.keys == keys
    {
      copy := new NullifierTree();
      copy.keys := keys;
    }

    method Root(h: Hash) returns (root: Bytes32)
      requires Valid()
      ensures root == RootOf(h, Contents())
    {
      root := TreeRoot(h, keys);
    }

    /** Appends an absent key; a present one is refused and nothing changes. */
    method Insert(key: Bytes32) returns (ok: bool)
      requires Valid()
      modifies this
      ensures Valid() && ok == (key !in old(Contents()))
      ensures keys == if ok then old(keys) + [key] else old(keys)
      ensures Contents() == old(Contents()) + {key}
    {
      ok := key !in keys;
      if ok {
        keys := keys + [key];
      }
    }

    /** The witness of an absent key is the canonical one of the set; a present key has none. */
    method NonMembershipWitness(h: Hash, key: Bytes32) returns (w: Option<Witness>)
      requires Valid()
      ensures w == if key in Contents() then None else Some(CanonicalWitness(h, Contents(), key))
    {
      if key in keys {
        return None;
      }
      var steps := SiblingSteps(h, keys, key);
      w := Some(Witness(Empty, steps));
    }
  }

  /** The siblings of an absent key, deepest first. */
  method SiblingSteps(h: Hash, keys: seq<Bytes32>, key: Bytes32) returns (steps: seq<Step>)
    requires Distinct(keys) && key !in SeqSet(keys)
    ensures steps == TrueSteps(h, SeqSet(keys), key, 0, SlotDepth(SeqSet(keys), key, 0))
  {
    hide BitAt, SubRoot, Side, SlotDepth, TrueSteps, OnPath, OneSubtree, Reversed, SeqSet, Distinct;
    StartsOneSubtree(keys);
    PathStarts(h, SeqSet(keys), key);
    var empties := EmptyHashes(h);
    var current := keys;
    var depth: nat := 0;
    steps := [];
    ghost var td := SlotDepth(SeqSet(keys), key, 0);
    ghost var target := TrueSteps(h, SeqSet(keys), key, 0, td);
    while current != []
      invariant depth <= DEPTH && OneSubtree(current, depth)
      invariant forall d | 0 <= d <= DEPTH :: empties[d] == SubRoot(h, {}, d)
      invariant OnPath(h, SeqSet(current), key, depth, td, target, steps)
      decreases DEPTH - depth
    {
      if |current| == 1 {
        SeqSetOne(current);
        steps := LoneKeySteps(h, key, current[0], depth, empties, steps, td, target);
        steps := Reversed(steps);
        return;
      }
      SubtreeBranches(current, depth);
      current, steps := BranchStep(h, key, current, depth, empties, steps, td, target);
      depth := depth + 1;
    }
    SeqSetNone<Bytes32>();
    PathEnds(h, key, depth, td, target, steps);
    steps := Reversed(steps);
  }

  /** One level of the descent among several keys: keep those on the side of `key`, record the
      hash of the others. */
  method BranchStep(h: Hash, key: Bytes32, keys: seq<Bytes32>, depth: nat, empties: array<Bytes32>, above: seq<Step>,
      ghost td: nat, ghost target: seq<Step>)
    returns (mine: seq<Bytes32>, steps: seq<Step>)
    requires empties.Length == DEPTH + 1
    requires forall d | 0 <= d <= DEPTH :: empties[d] == SubRoot(h, {}, d)
    requires OneSubtree(keys, depth) && keys != [] && depth < DEPTH
    requires OnPath(h, SeqSet(keys), key, depth, td, target, above)
    ensures OneSubtree(mine, depth + 1)
    ensures OnPath(h, SeqSet(mine), key, depth + 1, td, target, steps)
  {
    hide BitAt, SubRoot, Side, OnPath, OneSubtree;
    var sibling;
    mine, sibling := SplitKeys(keys, depth, BitAt(key, depth));
    var siblingHash := SubtreeHash(h, sibling, depth + 1, empties);
    assert keys[0] in SeqSet(keys);
    PathPush(h, SeqSet(keys), key, depth, td, target, above, siblingHash);
    steps := above + [Step(depth, siblingHash)];
  }

  /** The end of the descent, once one other key is left: empty siblings down to the bit where it
      parts from `key`, and its own subtree there. */
  method LoneKeySteps(h: Hash, key: Bytes32, other: Bytes32, depth: nat, empties: array<Bytes32>, above: seq<Step>,
      ghost td: nat, ghost target: seq<Step>)
    returns (steps: seq<Step>)
    requires empties.Length == DEPTH + 1
    requires forall d | 0 <= d <= DEPTH :: empties[d] == SubRoot(h, {}, d)
    requires OnPath(h, {other}, key, depth, td, target, above)
    ensures target == Reversed(steps)
  {
    hide BitAt, SubRoot, Side, SlotDepth, TrueSteps;
    var f := FirstDifferingBit(key, other, 0);
    steps := above;
    assert Agree(other, key, depth);
    LoneKeyParts(key, other, depth);
    for d := depth to f.value
      invariant OnPath(h, {other}, key, d, td, target, steps)
    {
      SingleSides(key, other, d);
      PathPush(h, {other}, key, d, td, target, steps, empties[d + 1]);
      steps := steps + [Step(d, empties[d + 1])];
    }
    var single := ComputeSingleKeyHash(h, other, f.value + 1, empties);
    SingleSides(key, other, f.value);
    PathPush(h, {other}, key, f.value, td, target, steps, single);
    steps := steps + [Step(f.value, single)];
    PathEnds(h, key, f.value + 1, td, target, steps);
  }

  lemma LoneKeyParts(key: Bytes32, other: Bytes32, depth: nat)
    requires key != other && depth <= DEPTH && Agree(other, key, depth)
    ensures var f := FirstDifferingBit(key, other, 0); f.Some? && depth <= f.value
  {
    hide BitAt;
    if FirstDifferingBit(key, other, 0).None? {
      AgreeAll(key, other);
    }
  }

  lemma PathStarts(h: Hash, keys: set<Bytes32>, key: Bytes32)
    requires key !in keys
    ensures var td := SlotDepth(keys, key, 0); OnPath(h, keys, key, 0, td, TrueSteps(h, keys, key, 0, td), [])
  {
    hide BitAt;
  }

  lemma PathEnds(h: Hash, key: Bytes32, depth: nat, td: nat, target: seq<Step>, steps: seq<Step>)
    requires OnPath(h, {}, key, depth, td, target, steps)
    ensures target == Reversed(steps)
  {
    hide BitAt;
  }

  /** The state of the witness loop: `target` is what remains below `depth` plus the steps taken. */
  ghost predicate OnPath(h: Hash, keys: set<Bytes32>, key: Bytes32, depth: nat, td: nat, target: seq<Step>,
      steps: seq<Step>)
  {
    && depth <= td <= DEPTH
    && key !in keys
    && (forall k | k in keys :: Agree(k, key, depth))
    && td == SlotDepth(keys, key, depth)
    && target == TrueSteps(h, keys, key, depth, td) + Reversed(steps)
  }

  lemma PathPush(h: Hash, keys: set<Bytes32>, key: Bytes32, d: nat, td: nat, target: seq<Step>, steps: seq<Step>,
      sibling: Bytes32)
    requires OnPath(h, keys, key, d, td, target, steps) && keys != {}
    requires d < DEPTH && sibling == SubRoot(h, Side(keys, d, !BitAt(key, d)), d + 1)
    ensures OnPath(h, Mine(keys, key, d), key, d + 1, td, target, steps + [Step(d, sibling)])
  {
    hide BitAt, SubRoot, Side, Agree, TrueSteps;
    SlotInside(keys, key, d);
    TrueStepsUp(h, keys, key, d, td);
    ReversedPush(steps, Step(d, sibling));
  }

  // ----- several keys in order

  /** The keys can all be added: none is in `spent` and none comes twice. */
  ghost predicate Fresh(spent: set<Bytes32>, keys: seq<Bytes32>) {
    Distinct(keys) && SeqSet(keys) !! spent
  }

  /** Threads the stateless insert through `keys`, each witness against the running root. */
  function FoldInserts(h: Hash, root: Bytes32, keys: seq<Bytes32>, ws: seq<Witness>): Option<Bytes32>
    requires |keys| == |ws|
  {
    if keys == [] then Some(root)
    else
      var last := |keys| - 1;
      match FoldInserts(h, root, keys[..last], ws[..last])
      case None => None
      case Some(running) => Insert(h, running, keys[last], ws[last])
  }

  /** The inputs hashed along such a chain of inserts, and by the trees it passes through. */
  ghost function FoldInputs(h: Hash, spent: set<Bytes32>, keys: seq<Bytes32>, ws: seq<Witness>): set<Bytes>
    requires |keys| == |ws|
  {
    if keys == [] then {}
    else
      var last := |keys| - 1;
      FoldInputs(h, spent, keys[..last], ws[..last])
        + RootInputs(h, spent + SeqSet(keys[..last])) + VerifierInputs(h, keys[last], ws[last])
  }

  ghost function OrderedWitnesses(h: Hash, spent: set<Bytes32>, keys: seq<Bytes32>): (ws: seq<Witness>)
    requires Fresh(spent, keys)
    ensures |ws| == |keys|
  {
    if keys == [] then []
    else
      var last := |keys| - 1;
      FreshLast(spent, keys);
      OrderedWitnesses(h, spent, keys[..last]) + [CanonicalWitness(h, spent + SeqSet(keys[..last]), keys[last])]
  }

  lemma FreshLast(spent: set<Bytes32>, keys: seq<Bytes32>)
    requires keys != []
    ensures var init, last := keys[..|keys| - 1], keys[|keys| - 1];
            && (Fresh(spent, keys) <==> Fresh(spent, init) && last !in spent + SeqSet(init))
            && spent + SeqSet(keys) == spent + SeqSet(init) + {last}
  {
  }

  /** The ordered witnesses of fresh keys always fold, and to the root of the enlarged set. */
  lemma {:induction false} FoldComplete(h: Hash, spent: set<Bytes32>, keys: seq<Bytes32>)
    requires Fresh(spent, keys)
    ensures FoldInserts(h, RootOf(h, spent), keys, OrderedWitnesses(h, spent, keys))
              == Some(RootOf(h, spent + SeqSet(keys)))
  {
    hide RootOf, Insert, CanonicalWitness;
    if keys == [] {
      assert spent + SeqSet(keys) == spent;
    } else {
      var last := |keys| - 1;
      FreshLast(spent, keys);
      FoldComplete(h, spent, keys[..last]);
      WitnessComplete(h, spent + SeqSet(keys[..last]), keys[last]);
      assert OrderedWitnesses(h, spent, keys)[..last] == OrderedWitnesses(h, spent, keys[..last]);
    }
  }

  /** If any witnesses fold from the root of `spent`, the keys are fresh and distinct and the
      result is the root of the enlarged set. */
  lemma {:induction false} FoldSound(h: Hash, spent: set<Bytes32>, keys: seq<Bytes32>, ws: seq<Witness>)
    requires |keys| == |ws|
    requires FoldInserts(h, RootOf(h, spent), keys, ws).Some?
    requires CollisionFree(h, FoldInputs(h, spent, keys, ws))
    ensures Fresh(spent, keys)
    ensures FoldInserts(h, RootOf(h, spent), keys, ws) == Some(RootOf(h, spent + SeqSet(keys)))
  {
    hide RootOf, Insert, RootInputs, VerifierInputs, CollisionFree;
    if keys == [] {
      assert spent + SeqSet(keys) == spent;
    } else {
      var last := |keys| - 1;
      var inputs := FoldInputs(h, spent, keys, ws);
      CollisionFreeSubset(h, FoldInputs(h, spent, keys[..last], ws[..last]), inputs);
      FoldSound(h, spent, keys[..last], ws[..last]);
      var middle := spent + SeqSet(keys[..last]);
      CollisionFreeSubset(h, RootInputs(h, middle) + VerifierInputs(h, keys[last], ws[last]), inputs);
      InsertOnlyVerified(h, RootOf(h, middle), keys[last], ws[last]);
      InsertSound(h, middle, keys[last], ws[last]);
      FreshLast(spent, keys);
    }
  }

  lemma {:induction false} FoldPrefix(h: Hash, root: Bytes32, keys: seq<Bytes32>, ws: seq<Witness>, n: nat)
    requires |keys| == |ws| && n <= |keys| && FoldInserts(h, root, keys, ws).Some?
    ensures FoldInserts(h, root, keys[..n], ws[..n]).Some?
    decreases |keys|
  {
    hide Insert;
    if n < |keys| {
      var last := |keys| - 1;
      FoldPrefix(h, root, keys[..last], ws[..last], n);
      assert keys[..last][..n] == keys[..n] && ws[..last][..n] == ws[..n];
    } else {
      assert keys[..n] == keys && ws[..n] == ws;
    }
  }

  lemma InsertOnlyVerified(h: Hash, root: Bytes32, key: Bytes32, w: Witness)
    requires Insert(h, root, key, w).Some?
    ensures VerifyNonMember(h, root, key, w)
  {
  }

  /** Witnesses and final root for adding `keys` in order; `start` itself is left alone. It is
      refused exactly when a key is already present or comes twice. */
  method OrderedInsertWitnesses(h: Hash, start: NullifierTree, keys: seq<Bytes32>)
    returns (r: Option<(seq<Witness>, Bytes32)>)
    requires start.Valid()
    ensures r.Some? <==> Fresh(start.Contents(), keys)
    ensures r.Some? ==> r.value.0 == OrderedWitnesses(h, start.Contents(), keys)
    ensures r.Some? ==> r.value.1 == RootOf(h, start.Contents() + SeqSet(keys))
  {
    hide RootOf, CanonicalWitness;
    var tree := start.Clone();
    ghost var spent := start.Contents();
    var witnesses := [];
    for i := 0 to |keys|
      invariant tree.Valid() && fresh(tree) && tree.Contents() == spent + SeqSet(keys[..i])
      invariant Fresh(spent, keys[..i])
      invariant witnesses == OrderedWitnesses(h, spent, keys[..i])
    {
      assert keys[..i + 1][..i] == keys[..i];
      FreshLast(spent, keys[..i + 1]);
      var w := tree.NonMembershipWitness(h, keys[i]);
      if w.None? {
        FreshPrefix(spent, keys, i + 1);
        return None;
      }
      witnesses := witnesses + [w.value];
      var _ := tree.Insert(keys[i]);
    }
    assert keys[..|keys|] == keys;
    var root := tree.Root(h);
    r := Some((witnesses, root));
  }

  lemma FreshPrefix(spent: set<Bytes32>, keys: seq<Bytes32>, n: nat)
    requires n <= |keys|
    ensures Fresh(spent, keys) ==> Fresh(spent, keys[..n])
  {
  }
}
