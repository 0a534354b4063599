/**
 * Building a batch straight from certified tokens, on the empty accumulator.
 */
module CertifiedBatch {
  import opened ByteWords
  import opened Wrappers
  import opened SparseTree
  import opened Accumulator
  import opened ReturnCore
  import opened TrustBases
  import opened BridgeTokens
  import opened GuestRelation
  import opened MergedBatch

  datatype CertifiedBurn = CertifiedBurn(token: Token, trustBase: TrustBase, lockTag: u64, leaf: ReturnLeaf)

  datatype BuildError =
    | EmptyBatch | MixedTrustBases | BurnUnverified(cause: ExtError) | AccumulatorFailed | BadLockRefs(refused: Error)
    | TooLarge

  function Leaves(burns: seq<CertifiedBurn>): (leaves: seq<ReturnLeaf>)
    ensures |leaves| == |burns|
  {
    if burns == [] then [] else Leaves(burns[..|burns| - 1]) + [burns[|burns| - 1].leaf]
  }

  function WitnessOf(b: CertifiedBurn): BurnWitness {
    BurnWitness(b.token, b.trustBase, Certified, b.lockTag)
  }

  function Witnesses(burns: seq<CertifiedBurn>): (ws: seq<BurnWitness>)
    ensures |ws| == |burns|
  {
    if burns == [] then [] else Witnesses(burns[..|burns| - 1]) + [WitnessOf(burns[|burns| - 1])]
  }

  /** The locks behind all burns, in order; the first burn that mixes trust bases or does not verify
      decides the error. */
  function LocksOf(sdk: Sdk, config: Config, hash: Bytes32, burns: seq<CertifiedBurn>)
    : Result<seq<LockRef>, BuildError>
  {
    if burns == [] then Ok([])
    else
      var b := burns[|burns| - 1];
      var refs :- LocksOf(sdk, config, hash, burns[..|burns| - 1]);
      if CanonicalHash(sdk.sha256, sdk.cborWriter, b.trustBase) != hash then Err(MixedTrustBases)
      else
        match ObligationsCertified(sdk, b.token, b.trustBase, b.lockTag, config)
        case Err(cause) => Err(BurnUnverified(cause))
        case Ok(more) => Ok(refs + more)
  }

  method CollectLocks(sdk: Sdk, config: Config, hash: Bytes32, burns: seq<CertifiedBurn>)
    returns (r: Result<seq<LockRef>, BuildError>)
    ensures r == LocksOf(sdk, config, hash, burns)
  {
    hide CanonicalHash, ObligationsCertified;
    var refs: seq<LockRef> := [];
    for i := 0 to |burns|
      invariant LocksOf(sdk, config, hash, burns[..i]) == Ok(refs)
    {
      assert burns[..i + 1][..i] == burns[..i];
      if CanonicalHash(sdk.sha256, sdk.cborWriter, burns[i].trustBase) != hash {
        LocksFailEarly(sdk, config, hash, burns, i + 1);
        return Err(MixedTrustBases);
      }
      var more := ObligationsCertified(sdk, burns[i].token, burns[i].trustBase, burns[i].lockTag, config);
      if more.Err? {
        LocksFailEarly(sdk, config, hash, burns, i + 1);
        return Err(BurnUnverified(more.error));
      }
      refs := refs + more.value;
    }
    assert burns[..|burns|] == burns;
    r := Ok(refs);
  }

  lemma {:induction false} LocksFailEarly(sdk: Sdk, config: Config, hash: Bytes32, burns: seq<CertifiedBurn>, n: nat)
    requires n <= |burns| && LocksOf(sdk, config, hash, burns[..n]).Err?
    ensures LocksOf(sdk, config, hash, burns) == LocksOf(sdk, config, hash, burns[..n])
    decreases |burns|
  {
    hide CanonicalHash, ObligationsCertified;
    if n == |burns| {
      assert burns[..n] == burns;
    } else {
      var last := |burns| - 1;
      assert burns[..last][..n] == burns[..n];
      LocksFailEarly(sdk, config, hash, burns[..last], n);
    }
  }

  /** The burned token is attested under the batch's trust base hash and draws on this lock. */
  ghost predicate Drawn(sdk: Sdk, config: Config, hash: Bytes32, b: CertifiedBurn, ref: LockRef) {
    && CanonicalHash(sdk.sha256, sdk.cborWriter, b.trustBase) == hash
    && Attested(sdk, b.trustBase, b.token)
    && DrawsOnLock(sdk, b.trustBase, b.lockTag, config, b.token, ref)
  }

  lemma OneDrawn(sdk: Sdk, config: Config, b: CertifiedBurn, ref: LockRef)
    ensures var r := ObligationsCertified(sdk, b.token, b.trustBase, b.lockTag, config);
            && (r == Ok([ref]) <==>
                  Attested(sdk, b.trustBase, b.token)
                  && DrawsOnLock(sdk, b.trustBase, b.lockTag, config, b.token, ref))
            && (r.Ok? ==> |r.value| == 1)
  {
    hide ObligationsForVerified, VerifyTokenCertified, Attested, DrawsOnLock;
    CertifiedIff(sdk, b.token, b.trustBase);
    ObligationsIff(sdk, b.token, b.trustBase, b.lockTag, config, ref);
  }

  /** The locks are found if and only if every burned token is attested under the one trust base hash and
      draws on a lock, and then they are these locks, one by one. */
  lemma {:induction false} LocksIff(sdk: Sdk, config: Config, hash: Bytes32, burns: seq<CertifiedBurn>,
      refs: seq<LockRef>)
    requires |refs| == |burns|
    ensures LocksOf(sdk, config, hash, burns) == Ok(refs) <==>
            forall i | 0 <= i < |burns| :: Drawn(sdk, config, hash, burns[i], refs[i])
    ensures LocksOf(sdk, config, hash, burns).Ok? ==> |LocksOf(sdk, config, hash, burns).value| == |burns|
  {
    hide ObligationsCertified, CanonicalHash, Attested, DrawsOnLock;
    if burns == [] {
      assert refs == [];
    } else {
      var last := |burns| - 1;
      LocksIff(sdk, config, hash, burns[..last], refs[..last]);
      OneDrawn(sdk, config, burns[last], refs[last]);
      assert refs == refs[..last] + [refs[last]];
      assert forall i | 0 <= i < last :: burns[..last][i] == burns[i] && refs[..last][i] == refs[i];
      var init := LocksOf(sdk, config, hash, burns[..last]);
      var more := ObligationsCertified(sdk, burns[last].token, burns[last].trustBase, burns[last].lockTag, config);
      if init.Ok? && more.Ok? && init.value + more.value == refs {
        assert init.value == refs[..last] && more.value == refs[last..];
      }
    }
  }

  /** The leaf of a burn is the one its token's terminal burn and value state. */
  predicate LeafHolds(sdk: Sdk, config: Config, b: CertifiedBurn) {
    ValidateTerminalBurn(sdk, config, b.leaf, b.token) == Pass
      && ValidateCurrentValue(sdk, config, b.leaf, b.token) == Pass
  }

  /** A certified burn needs no anchor and leaves the cache as it is. */
  lemma OneBurn(sdk: Sdk, config: Config, hash: Bytes32, b: CertifiedBurn, cache: Cache)
    requires CanonicalHash(sdk.sha256, sdk.cborWriter, b.trustBase) == hash
    requires ObligationsCertified(sdk, b.token, b.trustBase, b.lockTag, config).Ok?
    ensures var r := CheckBurn(sdk, config, hash, b.leaf, WitnessOf(b), cache);
            && (r.Ok? <==> LeafHolds(sdk, config, b))
            && (r.Ok? ==> r.value.0 == ObligationsCertified(sdk, b.token, b.trustBase, b.lockTag, config).value)
  {
    hide CanonicalHash, ObligationsCertified, ValidateTerminalBurn, ValidateCurrentValue;
  }

  ghost predicate LeavesHold(sdk: Sdk, config: Config, burns: seq<CertifiedBurn>) {
    forall b | b in burns :: LeafHolds(sdk, config, b)
  }

  lemma {:induction false} BurnsCheck(sdk: Sdk, config: Config, hash: Bytes32, burns: seq<CertifiedBurn>)
    requires LocksOf(sdk, config, hash, burns).Ok?
    ensures var r := CheckBurns(sdk, config, hash, Leaves(burns), Witnesses(burns));
            && (r.Ok? <==> LeavesHold(sdk, config, burns))
            && (r.Ok? ==> r.value == LocksOf(sdk, config, hash, burns).value)
  {
    hide CanonicalHash, ObligationsCertified, CheckBurn, LeafHolds, CheckThrough;
    NoCertified(sdk, config, hash);
    if burns != [] {
      hide LeavesHold;
      var init, b := burns[..|burns| - 1], burns[|burns| - 1];
      assert burns == init + [b];
      LeavesHoldPush(sdk, config, init, b);
      BurnsCheck(sdk, config, hash, init);
      var first := CheckThrough(sdk, config, hash, Leaves(init), Witnesses(init));
      if first.Ok? {
        OneBurn(sdk, config, hash, b, first.value.1);
      }
      CheckLast(sdk, config, hash, init, b);
    }
  }

  lemma LeavesHoldPush(sdk: Sdk, config: Config, init: seq<CertifiedBurn>, b: CertifiedBurn)
    ensures LeavesHold(sdk, config, init + [b]) <==> LeavesHold(sdk, config, init) && LeafHolds(sdk, config, b)
  {
  }

  lemma NoCertified(sdk: Sdk, config: Config, hash: Bytes32)
    ensures CheckThrough(sdk, config, hash, Leaves([]), Witnesses([])) == Ok(([], []))
  {
  }

  lemma CheckLast(sdk: Sdk, config: Config, hash: Bytes32, init: seq<CertifiedBurn>, b: CertifiedBurn)
    ensures var before := CheckThrough(sdk, config, hash, Leaves(init), Witnesses(init));
            var all := CheckThrough(sdk, config, hash, Leaves(init + [b]), Witnesses(init + [b]));
            && (before.Err? ==> all.Err?)
            && (before.Ok? ==>
                  var more := CheckBurn(sdk, config, hash, b.leaf, WitnessOf(b), before.value.1);
                  && (all.Ok? <==> more.Ok?)
                  && (more.Ok? ==> all.value == (before.value.0 + more.value.0, more.value.1)))
  {
    hide CheckBurn;
    assert (init + [b])[..|init|] == init;
    assert Leaves(init + [b])[..|init|] == Leaves(init) && Witnesses(init + [b])[..|init|] == Witnesses(init);
  }

  /** Which batches can be built. */
  ghost predicate Buildable(sdk: Sdk, config: Config, burns: seq<CertifiedBurn>) {
    && burns != [] && |burns| < 0x1_0000_0000
    && Distinct(Nullifiers(Leaves(burns)))
    && var locks := LocksOf(sdk, config, CanonicalHash(sdk.sha256, sdk.cborWriter, burns[0].trustBase), burns);
       locks.Ok? && StrictlyIncreasing(SortByNonce(locks.value))
  }

  lemma BuiltHolds(sdk: Sdk, burns: seq<CertifiedBurn>, hash: Bytes32, locks: seq<LockRef>, x: GuestInput)
    requires burns != [] && |burns| < 0x1_0000_0000 && LocksOf(sdk, x.config, hash, burns) == Ok(locks)
    requires x.leaves == Leaves(burns) && x.burns == Witnesses(burns) && x.lockRefs == SortByNonce(locks)
               && StrictlyIncreasing(x.lockRefs)
    requires Fresh({}, Nullifiers(x.leaves)) && x.witnesses == OrderedWitnesses(sdk.sha256, {}, Nullifiers(x.leaves))
    requires x.publicValues == PublicValues(sdk.derive.domainTag, sdk.derive.configHash(x.config), hash,
               RootOf(sdk.sha256, {}), RootOf(sdk.sha256, {} + SeqSet(Nullifiers(x.leaves))),
               sdk.derive.returnRoot(x.leaves), sdk.derive.lockRefHash(x.lockRefs), |x.leaves|, SumAmounts(x.leaves))
    ensures Execute(sdk, x).Ok? <==> LeavesHold(sdk, x.config, burns)
  {
    hide *;
    BurnsCheck(sdk, x.config, hash, burns);
    TransitionHolds(sdk.sha256, {}, x.leaves);
    ConstantsHold(sdk, x);
    ExecuteIs(sdk, x, locks);
  }

  lemma ConstantsHold(sdk: Sdk, x: GuestInput)
    requires StrictlyIncreasing(x.lockRefs) && |x.leaves| < 0x1_0000_0000
    requires x.publicValues.domainTag == sdk.derive.domainTag
               && x.publicValues.configHash == sdk.derive.configHash(x.config)
    requires x.publicValues.returnRoot == sdk.derive.returnRoot(x.leaves)
               && x.publicValues.lockRefRoot == sdk.derive.lockRefHash(x.lockRefs)
    requires x.publicValues.batchSize == |x.leaves| && x.publicValues.totalAmount == SumAmounts(x.leaves)
    ensures ValidatePublicValues(sdk.derive, x.config, x.publicValues, x.leaves, x.lockRefs) == Pass
  {
    hide CheckOrder, SumAmounts, StrictlyIncreasing;
    OrderedIffIncreasing(x.lockRefs);
  }

  lemma ExecuteIs(sdk: Sdk, x: GuestInput, locks: seq<LockRef>)
    requires ValidatePublicValues(sdk.derive, x.config, x.publicValues, x.leaves, x.lockRefs) == Pass
    requires ValidateAccumulatorTransition(sdk.sha256, x.publicValues.spentRootOld, x.publicValues.spentRootNew,
               x.leaves, x.witnesses) == Pass
    requires 0 < |x.burns| == |x.leaves| && x.lockRefs == SortByNonce(locks)
    requires var r := CheckBurns(sdk, x.config, x.publicValues.trustBaseHash, x.leaves, x.burns);
             r.Ok? ==> r.value == locks
    ensures Execute(sdk, x).Ok? <==> CheckBurns(sdk, x.config, x.publicValues.trustBaseHash, x.leaves, x.burns).Ok?
  {
    hide ValidatePublicValues, ValidateAccumulatorTransition, CheckBurns, SortByNonce;
  }

  /** Builds the batch on the empty accumulator. It succeeds exactly when every burn verifies
      under one trust base, no lock nonce and no nullifier repeats, and the size fits; the
      relation then accepts it exactly when every leaf is its token's own. */
  method BuildBatch(sdk: Sdk, config: Config, burns: seq<CertifiedBurn>) returns (r: Result<GuestInput, BuildError>)
    ensures r.Ok? <==> Buildable(sdk, config, burns)
    ensures r.Ok? ==> r.value.config == config && r.value.publicValues.spentRootOld == EMPTY_TREE_ROOT
    ensures r.Ok? ==> r.value.leaves == Leaves(burns) && r.value.burns == Witnesses(burns)
    ensures r.Ok? ==> (Execute(sdk, r.value).Ok? <==> LeavesHold(sdk, config, burns))
  {
    hide CanonicalHash, LocksOf, StrictlyIncreasing, SortByNonce, Fresh, OrderedWitnesses, Leaves, Witnesses,
      Nullifiers, Execute, SumAmounts, CheckOrder, RootOf, LeavesHold, Distinct, SeqSet;
    if burns == [] {
      return Err(EmptyBatch);
    }
    var hash := CanonicalHash(sdk.sha256, sdk.cborWriter, burns[0].trustBase);
    var locks :- CollectLocks(sdk, config, hash, burns);
    var lockRefs := SortByNonce(locks);
    var tree := new NullifierTree();
    var leaves := Leaves(burns);
    var nullifiers := Nullifiers(leaves);
    var spentRootOld := tree.Root(sdk.sha256);
    var ordered := OrderedInsertWitnesses(sdk.sha256, tree, nullifiers);
    FreshFromEmpty(sdk.sha256, tree.keys, nullifiers);
    if ordered.None? {
      return Err(AccumulatorFailed);
    }
    var (witnesses, spentRootNew) := ordered.value;
    OrderedIffIncreasing(lockRefs);
    var lockRefRoot := ComputeLockRefRoot(sdk.derive, lockRefs);
    if lockRefRoot.Err? {
      return Err(BadLockRefs(lockRefRoot.error));
    }
    if |leaves| >= 0x1_0000_0000 {
      return Err(TooLarge);
    }
    var total := ComputeSumAmounts(leaves);
    var publicValues := PublicValues(sdk.derive.domainTag, sdk.derive.configHash(config), hash, spentRootOld,
      spentRootNew, sdk.derive.returnRoot(leaves), lockRefRoot.value, |leaves|, total);
    var input := GuestInput(config, publicValues, leaves, lockRefs, witnesses, Witnesses(burns));
    BuiltHolds(sdk, burns, hash, locks, input);
    r := Ok(input);
  }

  lemma FreshFromEmpty(h: Hash, keys: seq<Bytes32>, nullifiers: seq<Bytes32>)
    requires keys == []
    ensures SeqSet(keys) == {} && RootOf(h, SeqSet(keys)) == EMPTY_TREE_ROOT
    ensures Fresh(SeqSet(keys), nullifiers) <==> Distinct(nullifiers)
  {
  }
}
