/**
 * Merging inputs that the relation accepts one by one into a single input, and why the relation
 * accepts that one too.
 */
module MergedBatch {
  import opened ByteWords
  import opened Wrappers
  import opened SparseTree
  import opened Accumulator
  import opened ReturnCore
  import opened TrustBases
  import opened BridgeTokens
  import opened GuestRelation
  import StableSort

  function AllLeaves(inputs: seq<GuestInput>): seq<ReturnLeaf> {
    if inputs == [] then [] else AllLeaves(inputs[..|inputs| - 1]) + inputs[|inputs| - 1].leaves
  }

  function AllRefs(inputs: seq<GuestInput>): seq<LockRef> {
    if inputs == [] then [] else AllRefs(inputs[..|inputs| - 1]) + inputs[|inputs| - 1].lockRefs
  }

  function AllBurns(inputs: seq<GuestInput>): seq<BurnWitness> {
    if inputs == [] then [] else AllBurns(inputs[..|inputs| - 1]) + inputs[|inputs| - 1].burns
  }

  ghost predicate NoncesApart(refs: seq<LockRef>) {
    forall i, j | 0 <= i < j < |refs| :: refs[i].nonce != refs[j].nonce
  }

  /** Every input is accepted on its own, all under the first one's configuration and trust base. */
  ghost predicate Alike(sdk: Sdk, inputs: seq<GuestInput>, config: Config, trustBaseHash: Bytes32) {
    forall x | x in inputs :: Accepted(sdk, x) && x.config == config && x.publicValues.trustBaseHash == trustBaseHash
  }

  /** The public statement of the merged batch: the template's constants, everything else computed. */
  function MergedValues(sdk: Sdk, template: PublicValues, rootOld: Bytes32, rootNew: Bytes32, leaves: seq<ReturnLeaf>,
      refs: seq<LockRef>): PublicValues
  {
    PublicValues(template.domainTag, template.configHash, template.trustBaseHash, rootOld, rootNew,
      sdk.derive.returnRoot(leaves), sdk.derive.lockRefHash(refs), |leaves| % 0x1_0000_0000, SumAmounts(leaves))
  }

  ghost predicate Settleable(spent: set<Bytes32>, inputs: seq<GuestInput>) {
    inputs != [] && Fresh(spent, Nullifiers(AllLeaves(inputs)))
  }

  ghost function MergedInput(sdk: Sdk, inputs: seq<GuestInput>, spent: set<Bytes32>): GuestInput
    requires Settleable(spent, inputs)
  {
    var leaves, refs := AllLeaves(inputs), SortByNonce(AllRefs(inputs));
    var nullifiers := Nullifiers(leaves);
    var values := MergedValues(sdk, inputs[0].publicValues, RootOf(sdk.sha256, spent),
      RootOf(sdk.sha256, spent + SeqSet(nullifiers)), leaves, refs);
    GuestInput(inputs[0].config, values, leaves, refs, OrderedWitnesses(sdk.sha256, spent, nullifiers),
      AllBurns(inputs))
  }

  // ----- the parts of the merged input

  lemma RefsInOrder(refs: seq<LockRef>)
    requires NoncesApart(refs)
    ensures StrictlyIncreasing(SortByNonce(refs))
  {
    hide SortByNonce, StableSort.Sort;
    SortByNonceIs(refs);
    StableSort.SortIncreases(NonceKey, refs);
  }

  lemma SortByNonceIs(refs: seq<LockRef>)
    ensures SortByNonce(refs) == StableSort.Sort(NonceKey, refs)
  {
  }

  /** Every anchor known to one cache is known to another. */
  ghost predicate Knows(more: Cache, less: Cache) {
    forall a | Lookup(less, a).Some? :: Lookup(more, a).Some?
  }

  /** Every cached root is the one its certificate states. */
  ghost predicate Honest(cache: Cache) {
    forall e | e in cache :: e.1 == e.0.inputHash
  }

  lemma LookupPush(cache: Cache, anchor: Certificate, root: Bytes32, a: Certificate)
    ensures Lookup(cache + [(anchor, root)], a).Some? <==> Lookup(cache, a).Some? || a == anchor
  {
    if cache != [] {
      LookupPush(cache[1..], anchor, root, a);
      assert (cache + [(anchor, root)])[1..] == cache[1..] + [(anchor, root)];
    }
  }

  lemma CertificateStates(sdk: Sdk, tb: TrustBase, anchor: Certificate)
    ensures var r := VerifyAnchorCertificate(sdk, tb, anchor); r.Ok? ==> r.value == anchor.inputHash
  {
    hide ValidKeys;
  }

  /** With more anchors known a burn's anchor still has its root. */
  lemma RootKnown(sdk: Sdk, burn: BurnWitness, anchor: Certificate, less: Cache, more: Cache)
    requires Honest(less) && Honest(more) && Knows(more, less) && RootThrough(sdk, burn, anchor, less).0.Ok?
    ensures var (root, grown) := RootThrough(sdk, burn, anchor, less);
            var (root', grown') := RootThrough(sdk, burn, anchor, more);
            root' == root && Honest(grown) && Honest(grown') && Knows(grown', grown)
  {
    hide VerifyAnchorCertificate, Lookup;
    CertificateStates(sdk, burn.trustBase, anchor);
    forall a
      ensures Lookup(less + [(anchor, anchor.inputHash)], a).Some? <==> Lookup(less, a).Some? || a == anchor
      ensures Lookup(more + [(anchor, anchor.inputHash)], a).Some? <==> Lookup(more, a).Some? || a == anchor
    {
      LookupPush(less, anchor, anchor.inputHash, a);
      LookupPush(more, anchor, anchor.inputHash, a);
    }
  }

  /** A burn accepted with some anchors known is accepted with more of them known. */
  lemma BurnKnown(sdk: Sdk, config: Config, hash: Bytes32, leaf: ReturnLeaf, burn: BurnWitness, less: Cache,
      more: Cache)
    requires Honest(less) && Honest(more) && Knows(more, less) && CheckBurn(sdk, config, hash, leaf, burn, less).Ok?
    ensures var r, r' := CheckBurn(sdk, config, hash, leaf, burn, less), CheckBurn(sdk, config, hash, leaf, burn, more);
            && r'.Ok? && r'.value.0 == r.value.0
            && Honest(r.value.1) && Honest(r'.value.1) && Knows(r'.value.1, r.value.1)
  {
    hide RootThrough, CanonicalHash, ObligationsAgainstRoot, ObligationsCertified, Honest, Knows, ValidateTerminalBurn,
      ValidateCurrentValue;
    if burn.verification.Anchored? {
      RootKnown(sdk, burn, burn.verification.anchor, less, more);
    }
  }

  /** Burns accepted in two parts, each with a cache of its own, are accepted in one, and their
      obligations are those of the parts. */
  lemma {:induction false} BurnsThread(sdk: Sdk, config: Config, hash: Bytes32, leaves: seq<ReturnLeaf>,
      burns: seq<BurnWitness>, leaves': seq<ReturnLeaf>, burns': seq<BurnWitness>)
    requires |leaves| == |burns| && |leaves'| == |burns'|
    requires CheckThrough(sdk, config, hash, leaves, burns).Ok? && CheckThrough(sdk, config, hash, leaves', burns').Ok?
    requires Honest(CheckThrough(sdk, config, hash, leaves, burns).value.1)
    ensures var first := CheckThrough(sdk, config, hash, leaves, burns);
            var second := CheckThrough(sdk, config, hash, leaves', burns');
            var all := CheckThrough(sdk, config, hash, leaves + leaves', burns + burns');
            && all.Ok? && all.value.0 == first.value.0 + second.value.0
            && Honest(second.value.1) && Honest(all.value.1) && Knows(all.value.1, second.value.1)
  {
    hide CheckBurn, Honest, Knows;
    if burns' == [] {
      assert leaves' == [] && leaves + leaves' == leaves && burns + burns' == burns;
      NothingKnown(CheckThrough(sdk, config, hash, leaves, burns).value.1);
    } else {
      var last := |burns'| - 1;
      assert (leaves + leaves')[..|leaves| + last] == leaves + leaves'[..last];
      assert (burns + burns')[..|burns| + last] == burns + burns'[..last];
      BurnsThread(sdk, config, hash, leaves, burns, leaves'[..last], burns'[..last]);
      var less := CheckThrough(sdk, config, hash, leaves'[..last], burns'[..last]).value.1;
      var more := CheckThrough(sdk, config, hash, leaves + leaves'[..last], burns + burns'[..last]).value.1;
      BurnKnown(sdk, config, hash, leaves'[last], burns'[last], less, more);
      assert (leaves + leaves')[|leaves| + last] == leaves'[last] && (burns + burns')[|burns| + last] == burns'[last];
    }
  }

  lemma NothingKnown(cache: Cache)
    ensures Honest([]) && Knows(cache, [])
  {
  }

  lemma Nothing(sdk: Sdk, config: Config, hash: Bytes32)
    ensures CheckThrough(sdk, config, hash, [], []) == Ok(([], []))
  {
  }

  /** Burns accepted in two parts are accepted in one: an anchor the first part verified is not
      verified again, and its root is the one its certificate states under any trust base. */
  lemma BurnsAppend(sdk: Sdk, config: Config, hash: Bytes32, leaves: seq<ReturnLeaf>, burns: seq<BurnWitness>,
      leaves': seq<ReturnLeaf>, burns': seq<BurnWitness>)
    requires |leaves| == |burns| && |leaves'| == |burns'|
    requires CheckBurns(sdk, config, hash, leaves, burns).Ok? && CheckBurns(sdk, config, hash, leaves', burns').Ok?
    ensures CheckBurns(sdk, config, hash, leaves + leaves', burns + burns')
         == Ok(CheckBurns(sdk, config, hash, leaves, burns).value
               + CheckBurns(sdk, config, hash, leaves', burns').value)
  {
    hide CheckThrough, Honest, Knows;
    Nothing(sdk, config, hash);
    NothingKnown([]);
    assert [] + leaves == leaves && [] + burns == burns;
    BurnsThread(sdk, config, hash, [], [], leaves, burns);
    BurnsThread(sdk, config, hash, leaves, burns, leaves', burns');
  }

  lemma AcceptedRefs(sdk: Sdk, x: GuestInput)
    requires Accepted(sdk, x)
    ensures 0 < |x.leaves| == |x.burns|
    ensures CheckBurns(sdk, x.config, x.publicValues.trustBaseHash, x.leaves, x.burns).Ok?
    ensures multiset(CheckBurns(sdk, x.config, x.publicValues.trustBaseHash, x.leaves, x.burns).value)
              == multiset(x.lockRefs)
  {
    hide *;
    AcceptedShape(sdk, x);
    SortByNonceFacts([], CheckBurns(sdk, x.config, x.publicValues.trustBaseHash, x.leaves, x.burns).value);
  }

  lemma AlikePrefix(sdk: Sdk, inputs: seq<GuestInput>, config: Config, hash: Bytes32)
    requires Alike(sdk, inputs, config, hash) && inputs != []
    ensures Alike(sdk, inputs[..|inputs| - 1], config, hash)
    ensures var x := inputs[|inputs| - 1];
            Accepted(sdk, x) && x.config == config && x.publicValues.trustBaseHash == hash
  {
    hide Accepted;
  }

  /** The burns of all inputs check out together, and their obligations are all inputs' lock
      references, in some order. */
  lemma {:induction false} AllBurnsCheck(sdk: Sdk, inputs: seq<GuestInput>, config: Config, hash: Bytes32)
    requires Alike(sdk, inputs, config, hash)
    ensures |AllLeaves(inputs)| == |AllBurns(inputs)| >= |inputs|
    ensures CheckBurns(sdk, config, hash, AllLeaves(inputs), AllBurns(inputs)).Ok?
    ensures multiset(CheckBurns(sdk, config, hash, AllLeaves(inputs), AllBurns(inputs)).value)
              == multiset(AllRefs(inputs))
  {
    hide Alike, CheckBurns, Accepted;
    if inputs == [] {
      NoBurns(sdk, config, hash);
    } else {
      var init, x := inputs[..|inputs| - 1], inputs[|inputs| - 1];
      AlikePrefix(sdk, inputs, config, hash);
      AllBurnsCheck(sdk, init, config, hash);
      AcceptedRefs(sdk, x);
      BurnsAppend(sdk, config, hash, AllLeaves(init), AllBurns(init), x.leaves, x.burns);
    }
  }

  lemma NoBurns(sdk: Sdk, config: Config, hash: Bytes32)
    ensures CheckBurns(sdk, config, hash, [], []) == Ok([])
  {
  }

  // ----- the merged input is accepted

  lemma AcceptedConstants(sdk: Sdk, x: GuestInput)
    requires Accepted(sdk, x)
    ensures x.publicValues.domainTag == sdk.derive.domainTag
              && x.publicValues.configHash == sdk.derive.configHash(x.config)
  {
    hide CheckOrder, SumAmounts, ValidateAccumulatorTransition, ValidateBridgeBurns;
  }

  lemma ValuesHold(sdk: Sdk, config: Config, template: PublicValues, rootOld: Bytes32, rootNew: Bytes32,
      leaves: seq<ReturnLeaf>, refs: seq<LockRef>)
    requires template.domainTag == sdk.derive.domainTag && template.configHash == sdk.derive.configHash(config)
    requires StrictlyIncreasing(refs)
    ensures ValidatePublicValues(sdk.derive, config, MergedValues(sdk, template, rootOld, rootNew, leaves, refs),
              leaves, refs) == Pass
  {
    hide CheckOrder, SumAmounts, StrictlyIncreasing;
    OrderedIffIncreasing(refs);
  }

  lemma BurnsHold(sdk: Sdk, config: Config, hash: Bytes32, leaves: seq<ReturnLeaf>, burns: seq<BurnWitness>,
      refs: seq<LockRef>)
    requires 0 < |leaves| == |burns| && CheckBurns(sdk, config, hash, leaves, burns).Ok?
    requires StrictlyIncreasing(refs) && multiset(refs) == multiset(CheckBurns(sdk, config, hash, leaves, burns).value)
    ensures ValidateBridgeBurns(sdk, config, hash, leaves, refs, burns) == Pass
  {
    hide CheckBurns, SortByNonce, StrictlyIncreasing;
    SortByNonceFacts(refs, CheckBurns(sdk, config, hash, leaves, burns).value);
  }

  lemma TransitionHolds(h: Hash, spent: set<Bytes32>, leaves: seq<ReturnLeaf>)
    requires Fresh(spent, Nullifiers(leaves))
    ensures var ns := Nullifiers(leaves);
            ValidateAccumulatorTransition(h, RootOf(h, spent), RootOf(h, spent + SeqSet(ns)), leaves,
              OrderedWitnesses(h, spent, ns)) == Pass
  {
    hide RootOf, FoldInserts, OrderedWitnesses, Fresh;
    FoldComplete(h, spent, Nullifiers(leaves));
  }

  lemma ExecuteHolds(sdk: Sdk, x: GuestInput)
    requires ValidatePublicValues(sdk.derive, x.config, x.publicValues, x.leaves, x.lockRefs) == Pass
    requires ValidateAccumulatorTransition(sdk.sha256, x.publicValues.spentRootOld, x.publicValues.spentRootNew,
               x.leaves, x.witnesses) == Pass
    requires ValidateBridgeBurns(sdk, x.config, x.publicValues.trustBaseHash, x.leaves, x.lockRefs, x.burns) == Pass
    ensures Execute(sdk, x) == Ok(x.publicValues)
  {
    hide ValidatePublicValues, ValidateAccumulatorTransition, ValidateBridgeBurns;
  }

  /** Merging preserves validity: inputs accepted one by one, under one configuration and one trust
      base, naming no lock twice and spending nothing twice, are accepted as one batch on any
      accumulator that holds none of their nullifiers. */
  lemma MergePreserves(sdk: Sdk, inputs: seq<GuestInput>, spent: set<Bytes32>)
    requires Settleable(spent, inputs)
    requires Alike(sdk, inputs, inputs[0].config, inputs[0].publicValues.trustBaseHash)
    requires NoncesApart(AllRefs(inputs))
    ensures var x := MergedInput(sdk, inputs, spent);
            Execute(sdk, x) == Ok(x.publicValues) && StrictlyIncreasing(x.lockRefs)
  {
    var config, hash := inputs[0].config, inputs[0].publicValues.trustBaseHash;
    var x := MergedInput(sdk, inputs, spent);
    var leaves, refs := AllLeaves(inputs), SortByNonce(AllRefs(inputs));
    assert x.leaves == leaves && x.burns == AllBurns(inputs) && x.lockRefs == refs && x.config == config;
    assert x.publicValues == MergedValues(sdk, inputs[0].publicValues, RootOf(sdk.sha256, spent),
      RootOf(sdk.sha256, spent + SeqSet(Nullifiers(leaves))), leaves, refs);
    assert x.publicValues.trustBaseHash == hash;
    assert x.witnesses == OrderedWitnesses(sdk.sha256, spent, Nullifiers(leaves));
    assert Accepted(sdk, inputs[0]) && Fresh(spent, Nullifiers(leaves));
    hide *;
    AcceptedConstants(sdk, inputs[0]);
    RefsInOrder(AllRefs(inputs));
    SortByNonceFacts([], AllRefs(inputs));
    AllBurnsCheck(sdk, inputs, config, hash);
    ValuesHold(sdk, config, inputs[0].publicValues, RootOf(sdk.sha256, spent),
      RootOf(sdk.sha256, spent + SeqSet(Nullifiers(leaves))), leaves, refs);
    TransitionHolds(sdk.sha256, spent, leaves);
    BurnsHold(sdk, config, hash, leaves, AllBurns(inputs), refs);
    ExecuteHolds(sdk, x);
  }
}
