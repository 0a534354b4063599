/**
 * What it takes for a batch to be accepted, said of its tokens, certificates and burn reasons alone:
 * the relation holds if and only if every burn is certified, draws on its lock, and promises its leaf.
 */
module Acceptance {
  import opened ByteWords
  import opened Wrappers
  import opened BigEndian
  import opened Accumulator
  import opened ReturnCore
  import opened SdkCbor
  import opened TrustBases
  import opened BridgeTokens
  import opened GuestRelation
  import BurnReason

  // ----- the payout a burn promises

  /** The bytes read as a reason for this bridge that pays `leaf.amount` to the leaf's recipient, of
      which the fee goes to its fee recipient until its deadline. */
  ghost predicate States(sdk: Sdk, config: Config, leaf: ReturnLeaf, data: Bytes) {
    match BurnReason.GuestDecode(sdk.cborReader, config.reasonTag, data)
    case None => false
    case Some(d) =>
      && d.version == 1 && d.sourceChainId == config.sourceChainId && d.vault == config.vault
      && d.asset == config.asset && d.tokenType == config.tokenType && d.coinId == config.coinId
      && d.recipient == leaf.recipient && d.amount == Value(leaf.amount)
      && d.feeRecipient == leaf.feeRecipient && d.feeAmount == Value(leaf.feeAmount) <= d.amount
      && d.deadline == leaf.deadline
  }

  /** The token's last transfer burns it to such a reason, and the leaf's nullifier is of that transfer. */
  ghost predicate Promises(sdk: Sdk, config: Config, leaf: ReturnLeaf, token: Token) {
    && token.transfers != []
    && var burn := token.transfers[|token.transfers| - 1];
       && burn.data.Some? && States(sdk, config, leaf, burn.data.value)
       && burn.recipient == sdk.burnPredicate(sdk.sha256.digest(burn.data.value))
       && leaf.nullifier
            == sdk.nullifier(sdk.derive.configHash(config), sdk.burnTransitionId(sdk.stateId(burn), sdk.txHash(burn)))
  }

  lemma WordIff(n: nat, w: U256)
    requires n < WORD
    ensures Encode(n, 32) == w <==> n == Value(w)
  {
    hide Encode, Value, Pow256;
    ValueEncode(n, 32);
    EncodeValue(w);
  }

  lemma ReasonIff(config: Config, leaf: ReturnLeaf, d: BurnReason.DecodedReason)
    requires d.amount < WORD && d.feeAmount < WORD
    ensures ReasonMatches(config, leaf, d) <==>
            && d.version == 1 && d.sourceChainId == config.sourceChainId && d.vault == config.vault
            && d.asset == config.asset && d.tokenType == config.tokenType && d.coinId == config.coinId
            && d.recipient == leaf.recipient && d.amount == Value(leaf.amount)
            && d.feeRecipient == leaf.feeRecipient && d.feeAmount == Value(leaf.feeAmount) <= d.amount
            && d.deadline == leaf.deadline
  {
    hide Encode, Value, Pow256, LexGreater;
    WordIff(d.amount, leaf.amount);
    WordIff(d.feeAmount, leaf.feeAmount);
    LexIsOrder(leaf.feeAmount, leaf.amount);
  }

  lemma StatesIff(sdk: Sdk, config: Config, leaf: ReturnLeaf, data: Bytes)
    ensures States(sdk, config, leaf, data) <==>
            var d := BurnReason.GuestDecode(sdk.cborReader, config.reasonTag, data);
            d.Some? && ReasonMatches(config, leaf, d.value)
  {
    hide BurnReason.GuestDecode, ReasonMatches, Value, Pow256;
    var d := BurnReason.GuestDecode(sdk.cborReader, config.reasonTag, data);
    BurnReason.GuestAmounts(sdk.cborReader, config.reasonTag, data);
    if d.Some? {
      ReasonIff(config, leaf, d.value);
    }
  }

  /** A terminal burn passes if and only if it promises the leaf. */
  lemma TerminalBurnIff(sdk: Sdk, config: Config, leaf: ReturnLeaf, token: Token)
    ensures ValidateTerminalBurn(sdk, config, leaf, token) == Pass <==> Promises(sdk, config, leaf, token)
  {
    hide BurnReason.GuestDecode, ReasonMatches, States;
    if token.transfers != [] && token.transfers[|token.transfers| - 1].data.Some? {
      StatesIff(sdk, config, leaf, token.transfers[|token.transfers| - 1].data.value);
    }
  }

  /** The current value passes if and only if the token holds exactly the leaf's amount. */
  lemma CurrentValueIff(sdk: Sdk, config: Config, leaf: ReturnLeaf, token: Token)
    ensures ValidateCurrentValue(sdk, config, leaf, token) == Pass
       <==> Holds(sdk, token.mint, config.coinId, Value(leaf.amount))
  {
    hide Encode, Value, Pow256, Coin, Holds;
    ValueBound(leaf.amount);
    CoinIff(sdk, token.mint, config.coinId, Value(leaf.amount));
    var coin := Coin(sdk, token.mint, config.coinId);
    if coin.Some? && coin.value < WORD {
      WordIff(coin.value, leaf.amount);
    }
  }

  /** When the SDK's reader is canonical, the bytes state the payout if and only if they are what the
      plugin writes for this leaf and this bridge, with the fee within the amount. */
  lemma StatesWhatThePluginWrites(sdk: Sdk, config: Config, leaf: ReturnLeaf, data: Bytes)
    requires CanonicalDecoder(sdk.cborReader)
    ensures States(sdk, config, leaf, data) <==>
            && Value(leaf.feeAmount) <= Value(leaf.amount)
            && BurnReason.EncodeBridgeBackReason(
                 BurnReason.ReasonConfig(config.sourceChainId, config.vault, config.asset, config.tokenType,
                   config.coinId, config.reasonTag),
                 BurnReason.Reason(1, leaf.recipient, Value(leaf.amount), leaf.feeRecipient, Value(leaf.feeAmount),
                   leaf.deadline)) == Some(data)
  {
    hide BurnReason.GuestDecode, BurnReason.EncodeBridgeBackReason, CanonicalDecoder, Value, Pow256;
    var d := BurnReason.DecodedReason(config.reasonTag, 1, config.sourceChainId, config.vault, config.asset,
      config.tokenType, config.coinId, leaf.recipient, Value(leaf.amount), leaf.feeRecipient, Value(leaf.feeAmount),
      leaf.deadline);
    BurnReason.GuestAcceptsIff(sdk.cborReader, config.reasonTag, data, d);
    if x :| BurnReason.GuestDecode(sdk.cborReader, config.reasonTag, data) == Some(x) {
      BurnReason.GuestAcceptsIff(sdk.cborReader, config.reasonTag, data, x);
    }
  }

  // ----- the public statement

  /** The public values say what the batch is: each field is that of the batch, the references are in
      strict order, and the total is the amounts' sum as far as a word goes. */
  ghost predicate Stated(derive: Derivations, config: Config, pv: PublicValues, leaves: seq<ReturnLeaf>,
      refs: seq<LockRef>)
  {
    && pv.domainTag == derive.domainTag && pv.configHash == derive.configHash(config)
    && pv.returnRoot == derive.returnRoot(leaves) && pv.lockRefRoot == derive.lockRefHash(refs)
    && StrictlyIncreasing(refs)
    && pv.batchSize == |leaves| % 0x1_0000_0000 && Value(pv.totalAmount) == AmountSum(leaves) % WORD
  }

  lemma StatedIff(derive: Derivations, config: Config, pv: PublicValues, leaves: seq<ReturnLeaf>, refs: seq<LockRef>)
    ensures ValidatePublicValues(derive, config, pv, leaves, refs) == Pass <==> Stated(derive, config, pv, leaves, refs)
  {
    hide Encode, Value, Pow256, CheckOrder, StrictlyIncreasing, SumAmounts;
    OrderedIffIncreasing(refs);
    SumExact(leaves);
    EncodeValue(pv.totalAmount);
    EncodeValue(SumAmounts(leaves));
  }

  // ----- the certification of a burn

  /** The first burn under this anchor: its trust base is the one that is asked about the anchor. */
  ghost predicate FirstUnder(burns: seq<BurnWitness>, anchor: Certificate, j: nat) {
    && j < |burns| && burns[j].verification == Anchored(anchor)
    && forall k | 0 <= k < j :: burns[k].verification != Anchored(anchor)
  }

  /** The first burn under this anchor has a valid trust base that certifies this root by it. */
  ghost predicate AnchorCertifies(sdk: Sdk, burns: seq<BurnWitness>, anchor: Certificate, j: nat, root: Bytes32) {
    && FirstUnder(burns, anchor, j)
    && sdk.validTrustBase(burns[j].trustBase) && Certifies(sdk.signatures, burns[j].trustBase, anchor, root)
  }

  ghost predicate HasRoot(sdk: Sdk, burns: seq<BurnWitness>, anchor: Certificate, root: Bytes32) {
    exists j: nat :: AnchorCertifies(sdk, burns, anchor, j, root)
  }

  /** Mint and transfers of the burned token are included under certified roots: each under its own
      certificate's, or all under its anchor's. */
  ghost predicate Verified(sdk: Sdk, burns: seq<BurnWitness>, burn: BurnWitness) {
    match burn.verification
    case Certified => Attested(sdk, burn.trustBase, burn.token)
    case Anchored(anchor) =>
      && MintFits(sdk, burn.trustBase, burn.token)
      && exists root :: HasRoot(sdk, burns, anchor, root) && IncludedUnder(sdk, root, burn.token)
  }

  /** A burn that stands: under the batch's trust base hash, certified, drawn on this lock, worth the
      leaf's amount, and burned to a promise of exactly this leaf. */
  ghost predicate Stands(sdk: Sdk, config: Config, trustBaseHash: Bytes32, burns: seq<BurnWitness>, leaf: ReturnLeaf,
      burn: BurnWitness, ref: LockRef)
  {
    && CanonicalHash(sdk.sha256, sdk.cborWriter, burn.trustBase) == trustBaseHash
    && Verified(sdk, burns, burn)
    && DrawsOnLock(sdk, burn.trustBase, burn.lockTag, config, burn.token, ref)
    && Promises(sdk, config, leaf, burn.token)
    && Holds(sdk, burn.token.mint, config.coinId, Value(leaf.amount))
  }

  // ----- the cache holds the root of each anchor's first burn

  ghost predicate CacheOf(sdk: Sdk, burns: seq<BurnWitness>, cache: Cache) {
    forall anchor ::
      && (Lookup(cache, anchor).Some? ==> HasRoot(sdk, burns, anchor, Lookup(cache, anchor).value))
      && (Lookup(cache, anchor).None? ==> Unseen(burns, anchor))
  }

  ghost predicate Unseen(burns: seq<BurnWitness>, anchor: Certificate) {
    forall j | 0 <= j < |burns| :: burns[j].verification != Anchored(anchor)
  }

  /** The root of an anchor already seen does not change with later burns, and is one. */
  lemma RootStays(sdk: Sdk, burns: seq<BurnWitness>, more: seq<BurnWitness>, anchor: Certificate, root: Bytes32)
    ensures HasRoot(sdk, burns, anchor, root) ==> HasRoot(sdk, burns + more, anchor, root)
    ensures !Unseen(burns, anchor) && HasRoot(sdk, burns + more, anchor, root) ==> HasRoot(sdk, burns, anchor, root)
  {
    hide Certifies;
    if j: nat :| AnchorCertifies(sdk, burns, anchor, j, root) {
      assert AnchorCertifies(sdk, burns + more, anchor, j, root);
    }
    if !Unseen(burns, anchor) && HasRoot(sdk, burns + more, anchor, root) {
      var j: nat :| AnchorCertifies(sdk, burns + more, anchor, j, root);
      var k :| 0 <= k < |burns| && burns[k].verification == Anchored(anchor);
      assert (burns + more)[k] == burns[k];
      assert j <= k && forall i | 0 <= i <= j :: (burns + more)[i] == burns[i];
      assert AnchorCertifies(sdk, burns, anchor, j, root);
    }
  }

  lemma OneRoot(sdk: Sdk, burns: seq<BurnWitness>, anchor: Certificate, a: Bytes32, b: Bytes32)
    requires HasRoot(sdk, burns, anchor, a) && HasRoot(sdk, burns, anchor, b)
    ensures a == b
  {
    hide Signers;
  }

  /** A burn already seen is verified the same whatever burns follow. */
  lemma VerifiedStays(sdk: Sdk, burns: seq<BurnWitness>, more: seq<BurnWitness>, burn: BurnWitness)
    requires burn in burns
    ensures Verified(sdk, burns, burn) <==> Verified(sdk, burns + more, burn)
  {
    hide HasRoot, Attested, MintFits, IncludedUnder;
    if burn.verification.Anchored? {
      var anchor := burn.verification.anchor;
      forall root
        ensures HasRoot(sdk, burns, anchor, root) <==> HasRoot(sdk, burns + more, anchor, root)
      {
        RootStays(sdk, burns, more, anchor, root);
      }
    }
  }

  /** Through a true cache a burn's anchor gives exactly the root of its first burn, and the cache
      stays true. */
  lemma RootThroughIs(sdk: Sdk, init: seq<BurnWitness>, burn: BurnWitness, anchor: Certificate, cache: Cache)
    requires CacheOf(sdk, init, cache) && burn.verification == Anchored(anchor)
    ensures var (root, grown) := RootThrough(sdk, burn, anchor, cache);
            && (forall r: Bytes32 :: root == Ok(r) <==> HasRoot(sdk, init + [burn], anchor, r))
            && (root.Ok? ==> CacheOf(sdk, init + [burn], grown))
  {
    hide VerifyAnchorCertificate, Certifies, HasRoot, Lookup;
    var (root, grown) := RootThrough(sdk, burn, anchor, cache);
    var burns := init + [burn];
    forall r: Bytes32
      ensures root == Ok(r) <==> HasRoot(sdk, burns, anchor, r)
    {
      RootStays(sdk, init, [burn], anchor, r);
      if Lookup(cache, anchor).Some? {
        RootStays(sdk, init, [burn], anchor, Lookup(cache, anchor).value);
        if HasRoot(sdk, burns, anchor, r) {
          OneRoot(sdk, burns, anchor, r, Lookup(cache, anchor).value);
        }
      } else {
        FirstHere(sdk, init, burn, anchor, r);
      }
    }
    if root.Ok? {
      CacheGrows(sdk, init, burn, anchor, cache, root.value);
    }
  }

  /** When no earlier burn is under the anchor, this one's trust base is asked. */
  lemma FirstHere(sdk: Sdk, init: seq<BurnWitness>, burn: BurnWitness, anchor: Certificate, root: Bytes32)
    requires Unseen(init, anchor) && burn.verification == Anchored(anchor)
    ensures HasRoot(sdk, init + [burn], anchor, root) <==>
            VerifyAnchorCertificate(sdk, burn.trustBase, anchor) == Ok(root)
  {
    hide VerifyAnchorCertificate, Certifies;
    AnchorIff(sdk, burn.trustBase, anchor, root);
    var burns := init + [burn];
    assert burns[|init|] == burn && forall k | 0 <= k < |init| :: burns[k] == init[k];
    assert FirstUnder(burns, anchor, |init|);
    assert AnchorCertifies(sdk, burns, anchor, |init|, root) <==>
      sdk.validTrustBase(burn.trustBase) && Certifies(sdk.signatures, burn.trustBase, anchor, root);
  }

  lemma CacheGrows(sdk: Sdk, init: seq<BurnWitness>, burn: BurnWitness, anchor: Certificate, cache: Cache,
      root: Bytes32)
    requires CacheOf(sdk, init, cache) && burn.verification == Anchored(anchor)
    requires HasRoot(sdk, init + [burn], anchor, root)
    ensures CacheOf(sdk, init + [burn], if Lookup(cache, anchor).Some? then cache else cache + [(anchor, root)])
  {
    hide HasRoot, Lookup;
    var grown := if Lookup(cache, anchor).Some? then cache else cache + [(anchor, root)];
    forall a
      ensures Lookup(grown, a).Some? ==> HasRoot(sdk, init + [burn], a, Lookup(grown, a).value)
      ensures Lookup(grown, a).None? ==> Unseen(init + [burn], a)
    {
      LookupPush(cache, anchor, root, a);
      if Lookup(cache, a).Some? {
        RootStays(sdk, init, [burn], a, Lookup(cache, a).value);
      }
    }
  }

  lemma {:induction false} LookupPush(cache: Cache, anchor: Certificate, root: Bytes32, a: Certificate)
    ensures Lookup(cache + [(anchor, root)], a)
         == if Lookup(cache, a).Some? then Lookup(cache, a) else if a == anchor then Some(root) else None
  {
    if cache != [] {
      LookupPush(cache[1..], anchor, root, a);
      assert (cache + [(anchor, root)])[1..] == cache[1..] + [(anchor, root)];
    }
  }

  // ----- every burn, and the batch

  /** The obligations of a burn, through a true cache: it has one exactly when it is verified and draws
      on a lock. */
  lemma ObligationsThroughIff(sdk: Sdk, config: Config, init: seq<BurnWitness>, burn: BurnWitness, cache: Cache,
      ref: LockRef)
    requires CacheOf(sdk, init, cache)
    ensures var (found, grown) := ObligationsThrough(sdk, config, burn, cache);
            && (found == Some([ref]) <==>
                  && Verified(sdk, init + [burn], burn)
                  && DrawsOnLock(sdk, burn.trustBase, burn.lockTag, config, burn.token, ref))
            && (found.Some? ==> |found.value| == 1 && CacheOf(sdk, init + [burn], grown))
  {
    hide RootThrough, HasRoot, Attested, MintFits, IncludedUnder, VerifyTokenCertified, VerifyTokenAgainstRoot,
      ObligationsForVerified, DrawsOnLock, CacheOf;
    ObligationsIff(sdk, burn.token, burn.trustBase, burn.lockTag, config, ref);
    if burn.verification.Certified? {
      CertifiedIff(sdk, burn.token, burn.trustBase);
      CacheKept(sdk, init, burn, cache);
    } else {
      var anchor := burn.verification.anchor;
      RootThroughIs(sdk, init, burn, anchor, cache);
      var root := RootThrough(sdk, burn, anchor, cache).0;
      if root.Ok? {
        AgainstRootIff(sdk, burn.token, burn.trustBase, root.value);
      }
    }
  }

  lemma CacheKept(sdk: Sdk, init: seq<BurnWitness>, burn: BurnWitness, cache: Cache)
    requires CacheOf(sdk, init, cache) && burn.verification.Certified?
    ensures CacheOf(sdk, init + [burn], cache)
  {
    hide HasRoot, Lookup;
    forall a | Lookup(cache, a).Some?
      ensures HasRoot(sdk, init + [burn], a, Lookup(cache, a).value)
    {
      RootStays(sdk, init, [burn], a, Lookup(cache, a).value);
    }
  }

  lemma CheckBurnIff(sdk: Sdk, config: Config, trustBaseHash: Bytes32, init: seq<BurnWitness>, leaf: ReturnLeaf,
      burn: BurnWitness, cache: Cache, ref: LockRef)
    requires CacheOf(sdk, init, cache)
    ensures var r := CheckBurn(sdk, config, trustBaseHash, leaf, burn, cache);
            && (r.Ok? && r.value.0 == [ref] <==> Stands(sdk, config, trustBaseHash, init + [burn], leaf, burn, ref))
            && (r.Ok? ==> |r.value.0| == 1 && CacheOf(sdk, init + [burn], r.value.1))
  {
    hide ObligationsThrough, CanonicalHash, CacheOf, Verified, DrawsOnLock, Promises, Holds, ValidateTerminalBurn,
      ValidateCurrentValue, Value;
    ObligationsThroughIff(sdk, config, init, burn, cache, ref);
    TerminalBurnIff(sdk, config, leaf, burn.token);
    CurrentValueIff(sdk, config, leaf, burn.token);
  }

  /** The burns that all stand, against these locks one by one. */
  ghost predicate AllStand(sdk: Sdk, config: Config, trustBaseHash: Bytes32, leaves: seq<ReturnLeaf>,
      burns: seq<BurnWitness>, refs: seq<LockRef>)
  {
    && |leaves| == |burns| == |refs|
    && forall i | 0 <= i < |burns| :: Stands(sdk, config, trustBaseHash, burns, leaves[i], burns[i], refs[i])
  }

  lemma AllStandLast(sdk: Sdk, config: Config, trustBaseHash: Bytes32, leaves: seq<ReturnLeaf>,
      burns: seq<BurnWitness>, refs: seq<LockRef>)
    requires 0 < |leaves| == |burns| == |refs|
    ensures var last := |burns| - 1;
            AllStand(sdk, config, trustBaseHash, leaves, burns, refs) <==>
            && AllStand(sdk, config, trustBaseHash, leaves[..last], burns[..last], refs[..last])
            && Stands(sdk, config, trustBaseHash, burns, leaves[last], burns[last], refs[last])
  {
    hide CanonicalHash, Verified, DrawsOnLock, Promises, Holds, Value;
    var last := |burns| - 1;
    var init := burns[..last];
    assert burns == init + [burns[last]];
    forall i | 0 <= i < last
      ensures Verified(sdk, init, init[i]) <==> Verified(sdk, burns, burns[i])
    {
      VerifiedStays(sdk, init, [burns[last]], burns[i]);
    }
    forall i | 0 <= i < last
      ensures Stands(sdk, config, trustBaseHash, init, leaves[..last][i], init[i], refs[..last][i])
         <==> Stands(sdk, config, trustBaseHash, burns, leaves[i], burns[i], refs[i])
    {
    }
  }

  /** The burns check, with one shared cache, if and only if they all stand. */
  lemma {:induction false} ThroughIff(sdk: Sdk, config: Config, trustBaseHash: Bytes32, leaves: seq<ReturnLeaf>,
      burns: seq<BurnWitness>, refs: seq<LockRef>)
    requires |leaves| == |burns| == |refs|
    ensures var r := CheckThrough(sdk, config, trustBaseHash, leaves, burns);
            && (r.Ok? && r.value.0 == refs <==> AllStand(sdk, config, trustBaseHash, leaves, burns, refs))
            && (r.Ok? ==> |r.value.0| == |burns| && CacheOf(sdk, burns, r.value.1))
  {
    hide CheckBurn, CacheOf, AllStand, Stands;
    if burns == [] {
      NothingYet(sdk, config, trustBaseHash);
    } else {
      var last := |burns| - 1;
      ThroughIff(sdk, config, trustBaseHash, leaves[..last], burns[..last], refs[..last]);
      AllStandLast(sdk, config, trustBaseHash, leaves, burns, refs);
      assert burns == burns[..last] + [burns[last]] && refs == refs[..last] + [refs[last]];
      var init := CheckThrough(sdk, config, trustBaseHash, leaves[..last], burns[..last]);
      if init.Ok? {
        CheckBurnIff(sdk, config, trustBaseHash, burns[..last], leaves[last], burns[last], init.value.1, refs[last]);
        OneMoreRef(init.value.0, CheckBurn(sdk, config, trustBaseHash, leaves[last], burns[last], init.value.1), refs);
      }
    }
  }

  lemma NothingYet(sdk: Sdk, config: Config, trustBaseHash: Bytes32)
    ensures AllStand(sdk, config, trustBaseHash, [], [], []) && CacheOf(sdk, [], [])
  {
  }

  lemma OneMoreRef(init: seq<LockRef>, more: Result<(seq<LockRef>, Cache), Error>, refs: seq<LockRef>)
    requires refs != [] && |init| == |refs| - 1
    requires more.Ok? ==> |more.value.0| == 1
    ensures more.Ok? ==>
              (init + more.value.0 == refs <==> init == refs[..|refs| - 1] && more.value.0 == [refs[|refs| - 1]])
  {
    if more.Ok? && init + more.value.0 == refs {
      assert refs[..|init|] == init && refs[|init|..] == more.value.0;
    }
  }

  /** The batch draws on exactly its lock references. */
  ghost predicate DrawsOn(sdk: Sdk, x: GuestInput, locks: seq<LockRef>) {
    && AllStand(sdk, x.config, x.publicValues.trustBaseHash, x.leaves, x.burns, locks)
    && multiset(locks) == multiset(x.lockRefs)
  }

  /** A batch is accepted if and only if its public values state it, its witnesses insert its
      nullifiers on the old root and give the new one, and its burns, at least one, stand against
      exactly its lock references. */
  lemma AcceptedIff(sdk: Sdk, x: GuestInput)
    ensures Execute(sdk, x).Ok? <==>
            && Stated(sdk.derive, x.config, x.publicValues, x.leaves, x.lockRefs)
            && |x.witnesses| == |x.leaves| > 0
            && FoldInserts(sdk.sha256, x.publicValues.spentRootOld, Nullifiers(x.leaves), x.witnesses)
                 == Some(x.publicValues.spentRootNew)
            && exists locks :: DrawsOn(sdk, x, locks)
  {
    hide ValidatePublicValues, Stated, FoldInserts, CheckThrough, AllStand, SortByNonce;
    StatedIff(sdk.derive, x.config, x.publicValues, x.leaves, x.lockRefs);
    if Stated(sdk.derive, x.config, x.publicValues, x.leaves, x.lockRefs) {
      InOrder(sdk.derive, x.config, x.publicValues, x.leaves, x.lockRefs);
    }
    if Execute(sdk, x).Ok? {
      var locks := CheckThrough(sdk, x.config, x.publicValues.trustBaseHash, x.leaves, x.burns).value.0;
      FoundLocks(sdk, x.config, x.publicValues.trustBaseHash, x.leaves, x.burns);
      ThroughIff(sdk, x.config, x.publicValues.trustBaseHash, x.leaves, x.burns, locks);
      SortByNonceFacts(x.lockRefs, locks);
      assert DrawsOn(sdk, x, locks);
    }
    if Stated(sdk.derive, x.config, x.publicValues, x.leaves, x.lockRefs) {
      if locks :| DrawsOn(sdk, x, locks) {
        StandSizes(sdk, x.config, x.publicValues.trustBaseHash, x.leaves, x.burns, locks);
        ThroughIff(sdk, x.config, x.publicValues.trustBaseHash, x.leaves, x.burns, locks);
        SortByNonceFacts(x.lockRefs, locks);
      }
    }
  }

  lemma InOrder(derive: Derivations, config: Config, pv: PublicValues, leaves: seq<ReturnLeaf>, refs: seq<LockRef>)
    requires Stated(derive, config, pv, leaves, refs)
    ensures StrictlyIncreasing(refs)
  {
  }

  lemma StandSizes(sdk: Sdk, config: Config, trustBaseHash: Bytes32, leaves: seq<ReturnLeaf>, burns: seq<BurnWitness>,
      refs: seq<LockRef>)
    requires AllStand(sdk, config, trustBaseHash, leaves, burns, refs)
    ensures |leaves| == |burns| == |refs|
  {
  }

  lemma {:induction false} FoundLocks(sdk: Sdk, config: Config, trustBaseHash: Bytes32, leaves: seq<ReturnLeaf>,
      burns: seq<BurnWitness>)
    requires |leaves| == |burns| && CheckThrough(sdk, config, trustBaseHash, leaves, burns).Ok?
    ensures |CheckThrough(sdk, config, trustBaseHash, leaves, burns).value.0| == |burns|
  {
    hide CheckThrough;
    ThroughIff(sdk, config, trustBaseHash, leaves, burns, seq(|burns|, _ => LockRef(0, ZERO32)));
  }

  // ----- what that says of an accepted batch

  /** Every leaf of an accepted batch is what its burn promises, to the recipient, the fee recipient
      and the deadline, and what the burned token holds. */
  lemma AcceptedPromises(sdk: Sdk, x: GuestInput, i: nat)
    requires Accepted(sdk, x) && i < |x.leaves|
    ensures |x.burns| == |x.leaves| && Promises(sdk, x.config, x.leaves[i], x.burns[i].token)
    ensures Holds(sdk, x.burns[i].token.mint, x.config.coinId, Value(x.leaves[i].amount))
  {
    hide Execute, Stated, FoldInserts, Value, Promises, Holds, Verified, CanonicalHash, DrawsOnLock;
    AcceptedIff(sdk, x);
  }

  /** With a canonical reader, the burned bytes are exactly what the plugin writes for the leaf. */
  lemma AcceptedBytes(sdk: Sdk, x: GuestInput, i: nat)
    requires Accepted(sdk, x) && i < |x.leaves| && CanonicalDecoder(sdk.cborReader)
    ensures |x.burns| == |x.leaves| && x.burns[i].token.transfers != []
    ensures var config, leaf, burn := x.config, x.leaves[i], Last(x.burns[i].token);
            && burn.data.Some?
            && BurnReason.EncodeBridgeBackReason(
                 BurnReason.ReasonConfig(config.sourceChainId, config.vault, config.asset, config.tokenType,
                   config.coinId, config.reasonTag),
                 BurnReason.Reason(1, leaf.recipient, Value(leaf.amount), leaf.feeRecipient, Value(leaf.feeAmount),
                   leaf.deadline)) == burn.data
  {
    hide Accepted, Value, States, Holds, BurnReason.EncodeBridgeBackReason, CanonicalDecoder;
    AcceptedPromises(sdk, x, i);
    StatesWhatThePluginWrites(sdk, x.config, x.leaves[i], Last(x.burns[i].token).data.value);
  }

  /** A root that some trust base of the batch certifies includes this transfer. */
  ghost predicate CertifiedTransfer(sdk: Sdk, burns: seq<BurnWitness>, t: Transfer) {
    exists b, cert, root | b in burns && Certifies(sdk.signatures, b.trustBase, cert, root) ::
      sdk.validTrustBase(b.trustBase) && sdk.transferIncluded(root, t)
  }

  /** Every transfer of every burn of an accepted batch, the burn itself with it, is included under a
      root that a valid trust base of the batch certifies. */
  lemma AcceptedCertified(sdk: Sdk, x: GuestInput, i: nat, k: nat)
    requires Accepted(sdk, x) && i < |x.burns| && k < |x.burns[i].token.transfers|
    ensures CertifiedTransfer(sdk, x.burns, x.burns[i].token.transfers[k])
    ensures CanonicalHash(sdk.sha256, sdk.cborWriter, x.burns[i].trustBase) == x.publicValues.trustBaseHash
  {
    hide Execute, Stated, FoldInserts, Value, Promises, Holds, CanonicalHash, DrawsOnLock, Certifies;
    AcceptedIff(sdk, x);
    var burn := x.burns[i];
    var t := burn.token.transfers[k];
    if burn.verification.Certified? {
      assert HasCertificate(sdk, burn.trustBase, t);
      var root :| CertifiedBy(sdk, burn.trustBase, t, root);
    } else {
      var root :| HasRoot(sdk, x.burns, burn.verification.anchor, root) && IncludedUnder(sdk, root, burn.token);
      var j: nat :| AnchorCertifies(sdk, x.burns, burn.verification.anchor, j, root);
      assert x.burns[j] in x.burns;
    }
  }
}
