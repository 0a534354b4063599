/**
 * The return relation the guest proves: a batch of burns, their release leaves, the locks they
 * draw on and the accumulator step they make.
 */
module GuestRelation {
  import opened ByteWords
  import opened Wrappers
  import opened BigEndian
  import opened SparseTree
  import opened Accumulator
  import opened ReturnCore
  import opened SdkCbor
  import opened TrustBases
  import opened BridgeTokens
  import BurnReason

  datatype BurnVerification = Anchored(anchor: Certificate) | Certified

  datatype BurnWitness = BurnWitness(token: Token, trustBase: TrustBase, verification: BurnVerification, lockTag: u64)

  datatype GuestInput = GuestInput(
    config: Config, publicValues: PublicValues, leaves: seq<ReturnLeaf>, lockRefs: seq<LockRef>,
    witnesses: seq<Witness>, burns: seq<BurnWitness>)

  // ----- the accumulator transition

  function Nullifiers(leaves: seq<ReturnLeaf>): (ns: seq<Bytes32>)
    ensures |ns| == |leaves|
    ensures forall i | 0 <= i < |leaves| :: ns[i] == leaves[i].nullifier
  {
    if leaves == [] then [] else Nullifiers(leaves[..|leaves| - 1]) + [leaves[|leaves| - 1].nullifier]
  }

  function ValidateAccumulatorTransition(h: Hash, rootOld: Bytes32, rootNew: Bytes32, leaves: seq<ReturnLeaf>,
      ws: seq<Witness>): Check
  {
    if |leaves| != |ws| then Fail(WrongBatchSize)
    else
      match FoldInserts(h, rootOld, Nullifiers(leaves), ws)
      case None => Fail(WrongAccumulatorWitness)
      case Some(running) => if running != rootNew then Fail(WrongSpentRootNew) else Pass
  }

  method CheckAccumulatorTransition(h: Hash, rootOld: Bytes32, rootNew: Bytes32, leaves: seq<ReturnLeaf>,
      ws: seq<Witness>) returns (r: Check)
    ensures r == ValidateAccumulatorTransition(h, rootOld, rootNew, leaves, ws)
  {
    hide Insert;
    if |leaves| != |ws| {
      return Fail(WrongBatchSize);
    }
    var running := rootOld;
    for i := 0 to |leaves|
      invariant FoldInserts(h, rootOld, Nullifiers(leaves[..i]), ws[..i]) == Some(running)
    {
      assert leaves[..i + 1][..i] == leaves[..i] && ws[..i + 1][..i] == ws[..i];
      assert Nullifiers(leaves[..i + 1])[..i] == Nullifiers(leaves[..i]);
      var inserted := Insert(h, running, leaves[i].nullifier, ws[i]);
      if inserted.None? {
        FoldFailsEarly(h, rootOld, leaves, ws, i + 1);
        return Fail(WrongAccumulatorWitness);
      }
      running := inserted.value;
    }
    assert leaves[..|leaves|] == leaves && ws[..|leaves|] == ws;
    r := if running != rootNew then Fail(WrongSpentRootNew) else Pass;
  }

  lemma FoldFailsEarly(h: Hash, root: Bytes32, leaves: seq<ReturnLeaf>, ws: seq<Witness>, n: nat)
    requires |leaves| == |ws| && n <= |leaves| && FoldInserts(h, root, Nullifiers(leaves[..n]), ws[..n]).None?
    ensures FoldInserts(h, root, Nullifiers(leaves), ws).None?
  {
    hide Insert, FoldInserts;
    assert Nullifiers(leaves)[..n] == Nullifiers(leaves[..n]);
    if FoldInserts(h, root, Nullifiers(leaves), ws).Some? {
      FoldPrefix(h, root, Nullifiers(leaves), ws, n);
    }
  }

  // ----- one burn

  function ReasonMatches(config: Config, leaf: ReturnLeaf, d: BurnReason.DecodedReason): bool {
    && d.version == 1
    && d.sourceChainId == config.sourceChainId
    && d.vault == config.vault
    && d.asset == config.asset
    && d.tokenType == config.tokenType
    && d.coinId == config.coinId
    && d.recipient == leaf.recipient
    && Encode(d.amount, 32) == leaf.amount
    && d.feeRecipient == leaf.feeRecipient
    && Encode(d.feeAmount, 32) == leaf.feeAmount
    && d.deadline == leaf.deadline
    && !LexGreater(Encode(d.feeAmount, 32), Encode(d.amount, 32))
  }

  function ValidateTerminalBurn(sdk: Sdk, config: Config, leaf: ReturnLeaf, token: Token): Check {
    if token.transfers == [] then Fail(BurnTransferMissing)
    else
      var burn := token.transfers[|token.transfers| - 1];
      if burn.data.None? then Fail(BurnReasonMissing)
      else if burn.recipient != sdk.burnPredicate(sdk.sha256.digest(burn.data.value)) then Fail(WrongBurnPredicate)
      else
        match BurnReason.GuestDecode(sdk.cborReader, config.reasonTag, burn.data.value)
        case None => Fail(BurnReasonMalformed)
        case Some(d) =>
          if !ReasonMatches(config, leaf, d) then Fail(BurnReasonMismatch)
          else
            var transition := sdk.burnTransitionId(sdk.stateId(burn), sdk.txHash(burn));
            if leaf.nullifier != sdk.nullifier(sdk.derive.configHash(config), transition) then Fail(WrongNullifier)
            else Pass
  }

  function ValidateCurrentValue(sdk: Sdk, config: Config, leaf: ReturnLeaf, token: Token): Check {
    match Coin(sdk, token.mint, config.coinId)
    case None => Fail(WrongBurnAmount)
    case Some(value) =>
      if value >= WORD || Encode(value, 32) != leaf.amount then Fail(WrongBurnAmount) else Pass
  }

  function Obligations(r: Result<seq<LockRef>, ExtError>): Option<seq<LockRef>> {
    match r case Ok(refs) => Some(refs) case Err(_) => None
  }

  /** The checks of one burn once its obligations are known. */
  function FinishBurn(sdk: Sdk, config: Config, leaf: ReturnLeaf, burn: BurnWitness,
      obligations: Option<seq<LockRef>>): Result<seq<LockRef>, Error>
  {
    match obligations
    case None => Err(TokenVerificationFailed)
    case Some(refs) =>
      match ValidateTerminalBurn(sdk, config, leaf, burn.token)
      case Fail(error) => Err(error)
      case Pass =>
        match ValidateCurrentValue(sdk, config, leaf, burn.token)
        case Fail(error) => Err(error)
        case Pass => Ok(refs)
  }

  // ----- the burns, with one cache of anchor roots

  type Cache = seq<(Certificate, Bytes32)>

  function Lookup(cache: Cache, anchor: Certificate): (r: Option<Bytes32>)
    ensures r.Some? ==> (anchor, r.value) in cache
  {
    if cache == [] then None else if cache[0].0 == anchor then Some(cache[0].1) else Lookup(cache[1..], anchor)
  }

  /** The anchor's root, verified once per distinct anchor and cached by the anchor alone. */
  function RootThrough(sdk: Sdk, burn: BurnWitness, anchor: Certificate, cache: Cache)
    : (Result<Bytes32, VerifyError>, Cache)
  {
    match Lookup(cache, anchor)
    case Some(root) => (Ok(root), cache)
    case None =>
      var root := VerifyAnchorCertificate(sdk, burn.trustBase, anchor);
      (root, if root.Ok? then cache + [(anchor, root.value)] else cache)
  }

  /** The obligations of one burn, its anchor's root taken through the cache. */
  function ObligationsThrough(sdk: Sdk, config: Config, burn: BurnWitness, cache: Cache)
    : (Option<seq<LockRef>>, Cache)
  {
    match burn.verification
    case Certified => (Obligations(ObligationsCertified(sdk, burn.token, burn.trustBase, burn.lockTag, config)), cache)
    case Anchored(anchor) =>
      var (root, grown) := RootThrough(sdk, burn, anchor, cache);
      (match root
       case Err(_) => None
       case Ok(value) =>
         Obligations(ObligationsAgainstRoot(sdk, burn.token, burn.trustBase, value, burn.lockTag, config)),
       grown)
  }

  /** One burn, and the cache it leaves. */
  function CheckBurn(sdk: Sdk, config: Config, trustBaseHash: Bytes32, leaf: ReturnLeaf, burn: BurnWitness,
      cache: Cache): Result<(seq<LockRef>, Cache), Error>
  {
    if CanonicalHash(sdk.sha256, sdk.cborWriter, burn.trustBase) != trustBaseHash then Err(WrongTrustBaseHash)
    else
      var (found, grown) := ObligationsThrough(sdk, config, burn, cache);
      var refs :- FinishBurn(sdk, config, leaf, burn, found);
      Ok((refs, grown))
  }

  /** The burns in order, with the cache they share. */
  function CheckThrough(sdk: Sdk, config: Config, trustBaseHash: Bytes32, leaves: seq<ReturnLeaf>,
      burns: seq<BurnWitness>): Result<(seq<LockRef>, Cache), Error>
    requires |leaves| == |burns|
  {
    if burns == [] then Ok(([], []))
    else
      var last := |burns| - 1;
      var (refs, cache) :- CheckThrough(sdk, config, trustBaseHash, leaves[..last], burns[..last]);
      var (more, grown) :- CheckBurn(sdk, config, trustBaseHash, leaves[last], burns[last], cache);
      Ok((refs + more, grown))
  }

  /** The obligations of all burns, in order. */
  function CheckBurns(sdk: Sdk, config: Config, trustBaseHash: Bytes32, leaves: seq<ReturnLeaf>,
      burns: seq<BurnWitness>): Result<seq<LockRef>, Error>
    requires |leaves| == |burns|
  {
    match CheckThrough(sdk, config, trustBaseHash, leaves, burns)
    case Err(error) => Err(error)
    case Ok(found) => Ok(found.0)
  }

  function ValidateBridgeBurns(sdk: Sdk, config: Config, trustBaseHash: Bytes32, leaves: seq<ReturnLeaf>,
      lockRefs: seq<LockRef>, burns: seq<BurnWitness>): Check
  {
    if burns == [] || |burns| != |leaves| then Fail(WrongBatchSize)
    else
      match CheckBurns(sdk, config, trustBaseHash, leaves, burns)
      case Err(error) => Fail(error)
      case Ok(obligations) => if SortByNonce(obligations) != lockRefs then Fail(WrongLockObligation) else Pass
  }

  /** The batch check as it runs: anchors cached by the anchor alone, obligations gathered and then
      sorted. */
  method CheckBridgeBurns(sdk: Sdk, config: Config, trustBaseHash: Bytes32, leaves: seq<ReturnLeaf>,
      lockRefs: seq<LockRef>, burns: seq<BurnWitness>) returns (r: Check)
    ensures r == ValidateBridgeBurns(sdk, config, trustBaseHash, leaves, lockRefs, burns)
  {
    hide CanonicalHash, FinishBurn, VerifyUnicityCertificate, ObligationsAgainstRoot, ObligationsCertified, SortByNonce;
    if burns == [] || |burns| != |leaves| {
      return Fail(WrongBatchSize);
    }
    var obligations: seq<LockRef> := [];
    var anchorRoots: Cache := [];
    for i := 0 to |burns|
      invariant CheckThrough(sdk, config, trustBaseHash, leaves[..i], burns[..i]) == Ok((obligations, anchorRoots))
    {
      assert leaves[..i + 1][..i] == leaves[..i] && burns[..i + 1][..i] == burns[..i];
      var burn, leaf := burns[i], leaves[i];
      if CanonicalHash(sdk.sha256, sdk.cborWriter, burn.trustBase) != trustBaseHash {
        ThroughFailsEarly(sdk, config, trustBaseHash, leaves, burns, i + 1);
        return Fail(WrongTrustBaseHash);
      }
      var found: Option<seq<LockRef>>;
      ghost var before := anchorRoots;
      match burn.verification {
        case Anchored(anchor) =>
          var root;
          root, anchorRoots := AnchorRoot(sdk, burn, anchor, anchorRoots);
          found := match root
            case Err(_) => None
            case Ok(value) =>
              Obligations(ObligationsAgainstRoot(sdk, burn.token, burn.trustBase, value, burn.lockTag, config));
        case Certified =>
          found := Obligations(ObligationsCertified(sdk, burn.token, burn.trustBase, burn.lockTag, config));
      }
      assert (found, anchorRoots) == ObligationsThrough(sdk, config, burn, before);
      var refs := FinishBurn(sdk, config, leaf, burn, found);
      if refs.Err? {
        ThroughFailsEarly(sdk, config, trustBaseHash, leaves, burns, i + 1);
        return Fail(refs.error);
      }
      obligations := obligations + refs.value;
    }
    assert leaves[..|burns|] == leaves && burns[..|burns|] == burns;
    var sorted := SortByNonce(obligations);
    r := if sorted != lockRefs then Fail(WrongLockObligation) else Pass;
  }

  method AnchorRoot(sdk: Sdk, burn: BurnWitness, anchor: Certificate, cache: Cache)
    returns (root: Result<Bytes32, VerifyError>, grown: Cache)
    ensures (root, grown) == RootThrough(sdk, burn, anchor, cache)
  {
    hide VerifyUnicityCertificate;
    grown := cache;
    var cached := Lookup(cache, anchor);
    if cached.Some? {
      return Ok(cached.value), grown;
    }
    if !sdk.validTrustBase(burn.trustBase) {
      return Err(InvalidTrustBase), grown;
    }
    root := CheckUnicityCertificate(sdk.signatures, burn.trustBase, anchor);
    if root.Ok? {
      grown := cache + [(anchor, root.value)];
    }
  }

  lemma {:induction false} ThroughFailsEarly(sdk: Sdk, config: Config, trustBaseHash: Bytes32, leaves: seq<ReturnLeaf>,
      burns: seq<BurnWitness>, n: nat)
    requires |leaves| == |burns| && n <= |burns|
               && CheckThrough(sdk, config, trustBaseHash, leaves[..n], burns[..n]).Err?
    ensures CheckThrough(sdk, config, trustBaseHash, leaves, burns)
         == CheckThrough(sdk, config, trustBaseHash, leaves[..n], burns[..n])
    decreases |burns|
  {
    hide ObligationsThrough, FinishBurn, CanonicalHash;
    if n == |burns| {
      assert leaves[..n] == leaves && burns[..n] == burns;
    } else {
      var last := |burns| - 1;
      assert leaves[..last][..n] == leaves[..n] && burns[..last][..n] == burns[..n];
      ThroughFailsEarly(sdk, config, trustBaseHash, leaves[..last], burns[..last], n);
    }
  }

  // ----- the relation

  function Execute(sdk: Sdk, x: GuestInput): Result<PublicValues, Error> {
    match ValidatePublicValues(sdk.derive, x.config, x.publicValues, x.leaves, x.lockRefs)
    case Fail(error) => Err(error)
    case Pass =>
      match ValidateAccumulatorTransition(sdk.sha256, x.publicValues.spentRootOld, x.publicValues.spentRootNew,
        x.leaves, x.witnesses)
      case Fail(error) => Err(error)
      case Pass =>
        match ValidateBridgeBurns(sdk, x.config, x.publicValues.trustBaseHash, x.leaves, x.lockRefs, x.burns)
        case Fail(error) => Err(error)
        case Pass => Ok(x.publicValues)
  }

  /** The relation as it runs, with its loops and its cache. */
  method Run(sdk: Sdk, x: GuestInput) returns (r: Result<PublicValues, Error>)
    ensures r == Execute(sdk, x)
  {
    hide ValidateAccumulatorTransition, ValidateBridgeBurns, CheckOrder, SumAmounts;
    var pv := x.publicValues;
    if pv.domainTag != sdk.derive.domainTag {
      return Err(WrongDomainTag);
    }
    if pv.configHash != sdk.derive.configHash(x.config) {
      return Err(WrongConfigHash);
    }
    if pv.returnRoot != sdk.derive.returnRoot(x.leaves) {
      return Err(WrongReturnRoot);
    }
    var lockRefRoot :- ComputeLockRefRoot(sdk.derive, x.lockRefs);
    if pv.lockRefRoot != lockRefRoot {
      return Err(WrongLockRefRoot);
    }
    if pv.batchSize != |x.leaves| % 0x1_0000_0000 {
      return Err(WrongBatchSize);
    }
    var total := ComputeSumAmounts(x.leaves);
    if pv.totalAmount != total {
      return Err(WrongTotalAmount);
    }
    var transition := CheckAccumulatorTransition(sdk.sha256, pv.spentRootOld, pv.spentRootNew, x.leaves, x.witnesses);
    if transition.Fail? {
      return Err(transition.error);
    }
    var burns := CheckBridgeBurns(sdk, x.config, pv.trustBaseHash, x.leaves, x.lockRefs, x.burns);
    r := if burns.Fail? then Err(burns.error) else Ok(pv);
  }

  // ----- what an accepted batch guarantees

  /** The lock one burned token draws on. */
  ghost function BurnLock(sdk: Sdk, config: Config, burn: BurnWitness): Option<LockJustification> {
    AsLock(Origin(sdk, burn.token, burn.lockTag, config).mint, burn.lockTag)
  }

  /** The digest the guest computes for that lock. */
  ghost function BurnDigest(sdk: Sdk, config: Config, burn: BurnWitness): Bytes32
    requires BurnLock(sdk, config, burn).Some?
  {
    var mint, lock := Origin(sdk, burn.token, burn.lockTag, config).mint, BurnLock(sdk, config, burn).value;
    sdk.lockDigest(config, lock.nonce, Encode(lock.amount, 32), mint.tokenId, sdk.sha256.digest(mint.recipient))
  }

  /** What acceptance of one burn says of its leaf and its lock. */
  ghost predicate BurnBacked(sdk: Sdk, config: Config, leaf: ReturnLeaf, burn: BurnWitness, lockRef: LockRef) {
    && BurnLock(sdk, config, burn).Some?
    && lockRef == LockRef(BurnLock(sdk, config, burn).value.nonce, BurnDigest(sdk, config, burn))
    && Coin(sdk, burn.token.mint, config.coinId) == Some(Value(leaf.amount))
    && Value(leaf.amount) <= BurnLock(sdk, config, burn).value.amount
    && Value(leaf.feeAmount) <= Value(leaf.amount)
  }

  lemma BurnObligationsAre(sdk: Sdk, config: Config, burn: BurnWitness, cache: Cache)
    requires ObligationsThrough(sdk, config, burn, cache).0.Some?
    ensures ObligationsForVerified(sdk, burn.token, burn.trustBase, burn.lockTag, config)
              == Ok(ObligationsThrough(sdk, config, burn, cache).0.value)
    ensures burn.token.mint.networkId == burn.trustBase.networkId
  {
    hide ObligationsForVerified, RootThrough, VerifyUnicityCertificate;
  }

  lemma FeeBelowAmount(config: Config, leaf: ReturnLeaf, d: BurnReason.DecodedReason)
    requires ReasonMatches(config, leaf, d)
    ensures Value(leaf.feeAmount) <= Value(leaf.amount)
  {
    hide Value, Encode;
    LexIsOrder(leaf.feeAmount, leaf.amount);
  }

  /** One accepted burn has exactly one obligation, pays a fee within its amount, and releases no
      more than the lock it comes from. */
  lemma BurnFacts(sdk: Sdk, config: Config, trustBaseHash: Bytes32, leaf: ReturnLeaf, burn: BurnWitness, cache: Cache)
    requires AllocationSound(sdk) && CheckBurn(sdk, config, trustBaseHash, leaf, burn, cache).Ok?
    ensures var refs := CheckBurn(sdk, config, trustBaseHash, leaf, burn, cache).value.0;
            |refs| == 1 && BurnBacked(sdk, config, leaf, burn, refs[0])
  {
    hide AllocationSound, ObligationsForVerified, ObligationsThrough, Coin, AsLock, Value, Encode, Origin,
      CanonicalHash, ValidateTerminalBurn, BridgeLockObligation, BurnDigest;
    BurnObligationsAre(sdk, config, burn, cache);
    ObligationExact(sdk, burn.token, burn.trustBase, burn.lockTag, config);
    LockIs(sdk, config, burn);
    ValueEncode(Coin(sdk, burn.token.mint, config.coinId).value, 32);
    TerminalFee(sdk, config, leaf, burn.token);
  }

  lemma LockIs(sdk: Sdk, config: Config, burn: BurnWitness)
    requires BridgeLockObligation(sdk, Origin(sdk, burn.token, burn.lockTag, config).mint, burn.lockTag, config).Ok?
    ensures BurnLock(sdk, config, burn).Some?
    ensures BridgeLockObligation(sdk, Origin(sdk, burn.token, burn.lockTag, config).mint, burn.lockTag, config).value
         == LockRef(BurnLock(sdk, config, burn).value.nonce, BurnDigest(sdk, config, burn))
  {
    hide AsLock, BridgeLockObligation, Origin;
    DirectLock(sdk, Origin(sdk, burn.token, burn.lockTag, config).mint, burn.lockTag, config);
  }

  lemma TerminalFee(sdk: Sdk, config: Config, leaf: ReturnLeaf, token: Token)
    requires ValidateTerminalBurn(sdk, config, leaf, token) == Pass
    ensures Value(leaf.feeAmount) <= Value(leaf.amount)
  {
    hide ReasonMatches, Value;
    var data := token.transfers[|token.transfers| - 1].data.value;
    FeeBelowAmount(config, leaf, BurnReason.GuestDecode(sdk.cborReader, config.reasonTag, data).value);
  }

  /** The integer sum of what the locks behind the burns hold. */
  ghost function LockSum(sdk: Sdk, config: Config, burns: seq<BurnWitness>): nat {
    if burns == [] then 0
    else
      LockSum(sdk, config, burns[..|burns| - 1])
        + match BurnLock(sdk, config, burns[|burns| - 1]) case Some(lock) => lock.amount case None => 0
  }

  /** What the last of some accepted burns adds. */
  lemma BurnsLast(sdk: Sdk, config: Config, trustBaseHash: Bytes32, leaves: seq<ReturnLeaf>, burns: seq<BurnWitness>)
    returns (cache: Cache, refs: seq<LockRef>, more: (seq<LockRef>, Cache))
    requires |leaves| == |burns| > 0 && CheckBurns(sdk, config, trustBaseHash, leaves, burns).Ok?
    ensures CheckBurns(sdk, config, trustBaseHash, leaves[..|burns| - 1], burns[..|burns| - 1]) == Ok(refs)
    ensures CheckBurn(sdk, config, trustBaseHash, leaves[|burns| - 1], burns[|burns| - 1], cache) == Ok(more)
    ensures CheckBurns(sdk, config, trustBaseHash, leaves, burns) == Ok(refs + more.0)
  {
    hide *;
    var last := |burns| - 1;
    BurnsAre(sdk, config, trustBaseHash, leaves, burns);
    BurnsAre(sdk, config, trustBaseHash, leaves[..last], burns[..last]);
    ThroughLast(sdk, config, trustBaseHash, leaves, burns);
    var init := CheckThrough(sdk, config, trustBaseHash, leaves[..last], burns[..last]).value;
    refs, cache := init.0, init.1;
    more := CheckBurn(sdk, config, trustBaseHash, leaves[last], burns[last], cache).value;
  }

  lemma BurnsAre(sdk: Sdk, config: Config, trustBaseHash: Bytes32, leaves: seq<ReturnLeaf>, burns: seq<BurnWitness>)
    requires |leaves| == |burns|
    ensures var found := CheckThrough(sdk, config, trustBaseHash, leaves, burns);
            var refs := CheckBurns(sdk, config, trustBaseHash, leaves, burns);
            (refs.Ok? <==> found.Ok?) && (found.Ok? ==> refs.value == found.value.0)
  {
    hide CheckThrough;
  }

  lemma ThroughLast(sdk: Sdk, config: Config, trustBaseHash: Bytes32, leaves: seq<ReturnLeaf>, burns: seq<BurnWitness>)
    requires |leaves| == |burns| > 0 && CheckThrough(sdk, config, trustBaseHash, leaves, burns).Ok?
    ensures var last := |burns| - 1;
            var init := CheckThrough(sdk, config, trustBaseHash, leaves[..last], burns[..last]);
            && init.Ok?
            && var more := CheckBurn(sdk, config, trustBaseHash, leaves[last], burns[last], init.value.1);
               && more.Ok?
               && CheckThrough(sdk, config, trustBaseHash, leaves, burns).value
                    == (init.value.0 + more.value.0, more.value.1)
  {
    hide CheckBurn;
  }

  /** The obligations of accepted burns are one per burn, in the burns' order. */
  lemma {:induction false} BurnsFacts(sdk: Sdk, config: Config, trustBaseHash: Bytes32, leaves: seq<ReturnLeaf>,
      burns: seq<BurnWitness>)
    requires |leaves| == |burns| && AllocationSound(sdk)
    requires CheckBurns(sdk, config, trustBaseHash, leaves, burns).Ok?
    ensures var refs := CheckBurns(sdk, config, trustBaseHash, leaves, burns).value;
            && |refs| == |burns|
            && forall i | 0 <= i < |burns| :: BurnBacked(sdk, config, leaves[i], burns[i], refs[i])
    ensures AmountSum(leaves) <= LockSum(sdk, config, burns)
    ensures LockSum(sdk, config, burns) <= |burns| * (U64_LIMIT - 1)
  {
    hide AllocationSound, CheckBurn, BurnLock, Value, Coin, BurnDigest;
    if burns != [] {
      var last := |burns| - 1;
      var cache, refs, more := BurnsLast(sdk, config, trustBaseHash, leaves, burns);
      hide CheckBurns, CheckThrough;
      BurnsFacts(sdk, config, trustBaseHash, leaves[..last], burns[..last]);
      BurnFacts(sdk, config, trustBaseHash, leaves[last], burns[last], cache);
    }
  }

  ghost predicate Accepted(sdk: Sdk, x: GuestInput) {
    Execute(sdk, x).Ok?
  }

  /** Every accepted batch has as many burns, leaves, witnesses and lock references; each
      reference is the lock of its burn, and the nonces strictly increase, so that no lock backs
      two burns. */
  lemma BatchLocks(sdk: Sdk, x: GuestInput, obligations: seq<LockRef>)
    requires AllocationSound(sdk) && Accepted(sdk, x)
    requires CheckBurns(sdk, x.config, x.publicValues.trustBaseHash, x.leaves, x.burns) == Ok(obligations)
    ensures 0 < |x.leaves| == |x.burns| == |x.witnesses| == |x.lockRefs| == |obligations|
    ensures StrictlyIncreasing(x.lockRefs) && multiset(x.lockRefs) == multiset(obligations)
    ensures forall i | 0 <= i < |x.burns| :: BurnBacked(sdk, x.config, x.leaves[i], x.burns[i], obligations[i])
  {
    hide *;
    AcceptedShape(sdk, x);
    BurnsFacts(sdk, x.config, x.publicValues.trustBaseHash, x.leaves, x.burns);
    SortByNonceFacts(x.lockRefs, obligations);
  }

  /** The committed total of an accepted batch is the exact integer sum of its leaf amounts, and
      no more than the locks it names hold. */
  lemma BatchTotal(sdk: Sdk, x: GuestInput)
    requires AllocationSound(sdk) && Accepted(sdk, x)
    ensures |x.burns| == |x.leaves|
    ensures Value(x.publicValues.totalAmount) == AmountSum(x.leaves) <= LockSum(sdk, x.config, x.burns)
    ensures x.publicValues.batchSize == |x.leaves| <==> |x.leaves| < 0x1_0000_0000
  {
    hide *;
    AcceptedShape(sdk, x);
    BurnsFacts(sdk, x.config, x.publicValues.trustBaseHash, x.leaves, x.burns);
    SortByNonceFacts([], CheckBurns(sdk, x.config, x.publicValues.trustBaseHash, x.leaves, x.burns).value);
    NoncesBound(x.lockRefs);
    LockSumFits(|x.burns|, LockSum(sdk, x.config, x.burns));
    SumExact(x.leaves);
  }

  lemma AcceptedShape(sdk: Sdk, x: GuestInput)
    requires Accepted(sdk, x)
    ensures 0 < |x.leaves| == |x.burns| == |x.witnesses|
    ensures StrictlyIncreasing(x.lockRefs)
    ensures x.publicValues.totalAmount == SumAmounts(x.leaves) && x.publicValues.batchSize == |x.leaves| % 0x1_0000_0000
    ensures CheckBurns(sdk, x.config, x.publicValues.trustBaseHash, x.leaves, x.burns).Ok?
    ensures x.lockRefs == SortByNonce(CheckBurns(sdk, x.config, x.publicValues.trustBaseHash, x.leaves, x.burns).value)
    ensures FoldInserts(sdk.sha256, x.publicValues.spentRootOld, Nullifiers(x.leaves), x.witnesses)
              == Some(x.publicValues.spentRootNew)
  {
    hide CheckOrder, SumAmounts, CheckBurns, SortByNonce, FoldInserts;
    OrderedIffIncreasing(x.lockRefs);
  }

  /** There are no more references in order than nonces. */
  lemma NoncesBound(refs: seq<LockRef>)
    requires StrictlyIncreasing(refs)
    ensures |refs| <= U64_LIMIT
  {
    if refs != [] {
      NonceAtLeast(refs, |refs| - 1);
    }
  }

  lemma {:induction false} NonceAtLeast(refs: seq<LockRef>, i: nat)
    requires StrictlyIncreasing(refs) && i < |refs|
    ensures refs[i].nonce >= i
  {
    if i > 0 {
      NonceAtLeast(refs, i - 1);
    }
  }

  lemma LockSumFits(n: nat, sum: nat)
    requires n <= U64_LIMIT && sum <= n * (U64_LIMIT - 1)
    ensures sum < WORD
  {
    assert n * (U64_LIMIT - 1) <= U64_LIMIT * (U64_LIMIT - 1);
    WordIs();
  }

  lemma WordIs()
    ensures WORD == U64_LIMIT * U64_LIMIT * U64_LIMIT * U64_LIMIT
  {
    assert Pow256(8) == U64_LIMIT by {
      assert Pow256(4) == 0x1_0000_0000;
    }
    PowAdd(8, 8);
    PowAdd(16, 8);
    PowAdd(24, 8);
  }

  lemma {:induction false} PowAdd(a: nat, b: nat)
    ensures Pow256(a + b) == Pow256(a) * Pow256(b)
  {
    if b > 0 {
      PowAdd(a, b - 1);
      assert 256 * (Pow256(a) * Pow256(b - 1)) == Pow256(a) * (256 * Pow256(b - 1));
    }
  }

  // ----- the relation without the cache

  /** The obligations of one burn, its anchor checked against its own trust base. */
  function BurnObligations(sdk: Sdk, config: Config, burn: BurnWitness): Option<seq<LockRef>> {
    match burn.verification
    case Anchored(anchor) =>
      (match VerifyAnchorCertificate(sdk, burn.trustBase, anchor)
       case Err(_) => None
       case Ok(root) =>
         Obligations(ObligationsAgainstRoot(sdk, burn.token, burn.trustBase, root, burn.lockTag, config)))
    case Certified => Obligations(ObligationsCertified(sdk, burn.token, burn.trustBase, burn.lockTag, config))
  }

  function CheckAlone(sdk: Sdk, config: Config, trustBaseHash: Bytes32, leaf: ReturnLeaf, burn: BurnWitness)
    : Result<seq<LockRef>, Error>
  {
    if CanonicalHash(sdk.sha256, sdk.cborWriter, burn.trustBase) != trustBaseHash then Err(WrongTrustBaseHash)
    else FinishBurn(sdk, config, leaf, burn, BurnObligations(sdk, config, burn))
  }

  /** Every burn checked on its own, in order; the obligations of all of them. */
  function CheckEach(sdk: Sdk, config: Config, trustBaseHash: Bytes32, leaves: seq<ReturnLeaf>,
      burns: seq<BurnWitness>): Result<seq<LockRef>, Error>
    requires |leaves| == |burns|
  {
    if burns == [] then Ok([])
    else
      var last := |burns| - 1;
      var refs :- CheckEach(sdk, config, trustBaseHash, leaves[..last], burns[..last]);
      var more :- CheckAlone(sdk, config, trustBaseHash, leaves[last], burns[last]);
      Ok(refs + more)
  }

  function ValidateEach(sdk: Sdk, config: Config, trustBaseHash: Bytes32, leaves: seq<ReturnLeaf>,
      lockRefs: seq<LockRef>, burns: seq<BurnWitness>): Check
  {
    if burns == [] || |burns| != |leaves| then Fail(WrongBatchSize)
    else
      match CheckEach(sdk, config, trustBaseHash, leaves, burns)
      case Err(error) => Fail(error)
      case Ok(obligations) => if SortByNonce(obligations) != lockRefs then Fail(WrongLockObligation) else Pass
  }

  /** The trust base documents a batch hashes. */
  function TrustDocs(e: Encoder, burns: seq<BurnWitness>): set<Bytes> {
    set b | b in burns :: CanonicalDoc(e, b.trustBase)
  }

  ghost predicate OneTrustBase(sdk: Sdk, burns: seq<BurnWitness>) {
    && CanonicalEncoder(sdk.cborWriter)
    && (forall b | b in burns :: Sized(b.trustBase))
    && InjectiveOn(sdk.sha256, TrustDocs(sdk.cborWriter, burns))
  }

  /** Burns under one trust base hash are under one trust base. */
  lemma SameTrustBase(sdk: Sdk, burns: seq<BurnWitness>, a: BurnWitness, b: BurnWitness)
    requires OneTrustBase(sdk, burns) && a in burns && b in burns
    requires CanonicalHash(sdk.sha256, sdk.cborWriter, a.trustBase)
               == CanonicalHash(sdk.sha256, sdk.cborWriter, b.trustBase)
    ensures a.trustBase == b.trustBase
  {
    hide CanonicalDoc, CanonicalEncoder;
    var e := sdk.cborWriter;
    assert CanonicalDoc(e, a.trustBase) in TrustDocs(e, burns) && CanonicalDoc(e, b.trustBase) in TrustDocs(e, burns);
    DocInjective(e, a.trustBase, b.trustBase);
  }

  /** Every cached root is what each burn under the batch's trust base would verify for itself. */
  ghost predicate CacheSound(sdk: Sdk, trustBaseHash: Bytes32, burns: seq<BurnWitness>,
      cache: Cache)
  {
    forall e, b | e in cache && b in burns && CanonicalHash(sdk.sha256, sdk.cborWriter, b.trustBase) == trustBaseHash ::
      VerifyAnchorCertificate(sdk, b.trustBase, e.0) == Ok(e.1)
  }

  /** A sound cache gives each burn of the batch's trust base the root it would verify for itself,
      and stays sound. */
  lemma RootThroughExact(sdk: Sdk, trustBaseHash: Bytes32, burns: seq<BurnWitness>, burn: BurnWitness,
      anchor: Certificate, cache: Cache)
    requires OneTrustBase(sdk, burns) && burn in burns
    requires CanonicalHash(sdk.sha256, sdk.cborWriter, burn.trustBase) == trustBaseHash
    requires CacheSound(sdk, trustBaseHash, burns, cache)
    ensures RootThrough(sdk, burn, anchor, cache).0 == VerifyAnchorCertificate(sdk, burn.trustBase, anchor)
    ensures CacheSound(sdk, trustBaseHash, burns, RootThrough(sdk, burn, anchor, cache).1)
  {
    hide VerifyAnchorCertificate, CanonicalHash, OneTrustBase;
    var grown := RootThrough(sdk, burn, anchor, cache).1;
    forall e, b | e in grown && b in burns && CanonicalHash(sdk.sha256, sdk.cborWriter, b.trustBase) == trustBaseHash
      ensures VerifyAnchorCertificate(sdk, b.trustBase, e.0) == Ok(e.1)
    {
      SameTrustBase(sdk, burns, burn, b);
    }
  }

  lemma ObligationsThroughExact(sdk: Sdk, config: Config, trustBaseHash: Bytes32, burns: seq<BurnWitness>,
      burn: BurnWitness, cache: Cache)
    requires OneTrustBase(sdk, burns) && burn in burns
    requires CanonicalHash(sdk.sha256, sdk.cborWriter, burn.trustBase) == trustBaseHash
    requires CacheSound(sdk, trustBaseHash, burns, cache)
    ensures ObligationsThrough(sdk, config, burn, cache).0 == BurnObligations(sdk, config, burn)
    ensures CacheSound(sdk, trustBaseHash, burns, ObligationsThrough(sdk, config, burn, cache).1)
  {
    hide RootThrough, VerifyAnchorCertificate, CanonicalHash, OneTrustBase, CacheSound, ObligationsAgainstRoot,
      ObligationsCertified;
    if burn.verification.Anchored? {
      RootThroughExact(sdk, trustBaseHash, burns, burn, burn.verification.anchor, cache);
    }
  }

  lemma {:induction false} CheckThroughExact(sdk: Sdk, config: Config, trustBaseHash: Bytes32, all: seq<BurnWitness>,
      leaves: seq<ReturnLeaf>, burns: seq<BurnWitness>)
    requires OneTrustBase(sdk, all) && |leaves| == |burns| && forall b | b in burns :: b in all
    ensures var r := CheckThrough(sdk, config, trustBaseHash, leaves, burns);
            && (r.Ok? ==> CacheSound(sdk, trustBaseHash, all, r.value.1))
            && CheckEach(sdk, config, trustBaseHash, leaves, burns) == if r.Err? then Err(r.error) else Ok(r.value.0)
  {
    hide ObligationsThrough, BurnObligations, CanonicalHash, OneTrustBase, CacheSound, FinishBurn;
    if burns == [] {
      EmptyCacheSound(sdk, trustBaseHash, all);
    } else {
      var last := |burns| - 1;
      CheckThroughExact(sdk, config, trustBaseHash, all, leaves[..last], burns[..last]);
      var init := CheckThrough(sdk, config, trustBaseHash, leaves[..last], burns[..last]);
      if init.Ok? && CanonicalHash(sdk.sha256, sdk.cborWriter, burns[last].trustBase) == trustBaseHash {
        ObligationsThroughExact(sdk, config, trustBaseHash, all, burns[last], init.value.1);
      }
    }
  }

  lemma EmptyCacheSound(sdk: Sdk, trustBaseHash: Bytes32, burns: seq<BurnWitness>)
    ensures CacheSound(sdk, trustBaseHash, burns, [])
  {
  }

  /** The cached check decides, error by error, what checking every burn against its own trust base
      decides, because burns under one hash are under one trust base. */
  lemma CacheExact(sdk: Sdk, config: Config, trustBaseHash: Bytes32, leaves: seq<ReturnLeaf>, lockRefs: seq<LockRef>,
      burns: seq<BurnWitness>)
    requires OneTrustBase(sdk, burns)
    ensures ValidateBridgeBurns(sdk, config, trustBaseHash, leaves, lockRefs, burns)
         == ValidateEach(sdk, config, trustBaseHash, leaves, lockRefs, burns)
  {
    hide CheckThrough, CheckEach, OneTrustBase, CacheSound, SortByNonce;
    if |leaves| == |burns| {
      CheckThroughExact(sdk, config, trustBaseHash, burns, leaves, burns);
    }
  }

  function ExecuteEach(sdk: Sdk, x: GuestInput): Result<PublicValues, Error> {
    match ValidatePublicValues(sdk.derive, x.config, x.publicValues, x.leaves, x.lockRefs)
    case Fail(error) => Err(error)
    case Pass =>
      match ValidateAccumulatorTransition(sdk.sha256, x.publicValues.spentRootOld, x.publicValues.spentRootNew,
        x.leaves, x.witnesses)
      case Fail(error) => Err(error)
      case Pass =>
        match ValidateEach(sdk, x.config, x.publicValues.trustBaseHash, x.leaves, x.lockRefs, x.burns)
        case Fail(error) => Err(error)
        case Pass => Ok(x.publicValues)
  }

  lemma ExecuteExact(sdk: Sdk, x: GuestInput)
    requires OneTrustBase(sdk, x.burns)
    ensures Execute(sdk, x) == ExecuteEach(sdk, x)
  {
    hide ValidatePublicValues, ValidateAccumulatorTransition, ValidateEach, ValidateBridgeBurns, OneTrustBase;
    CacheExact(sdk, x.config, x.publicValues.trustBaseHash, x.leaves, x.lockRefs, x.burns);
  }
}
