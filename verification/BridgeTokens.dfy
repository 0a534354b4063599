/**
 * Bridged tokens: what it takes to accept one, and the source lock each one draws on, however
 * often its value was split before it was burned.
 */
module BridgeTokens {
  import opened ByteWords
  import opened Wrappers
  import opened BigEndian
  import opened SparseTree
  import opened ReturnCore
  import opened SdkCbor
  import opened TrustBases

  datatype ExtError =
    | Unverified(cause: VerifyError)
    | BridgeLockTokenTypeMismatch | BridgeLockJustificationMalformed | BridgeLockConfigMismatch
    | BridgeLockPaymentDataMissing | BridgeLockPaymentDataMalformed | BridgeLockCoinMissing | BridgeLockAmountMismatch
    | SplitNetworkMismatch | SplitBurnTransferMissing | SplitManifestMissing | SplitManifestMalformed
    | SplitBurnPredicateMismatch | SplitTokenTypeMismatch | SplitSourcePaymentDataMissing
    | SplitManifestLengthMismatch | SplitProofCountMismatch | SplitSourceAssetMissing
    | SplitAllocationProofInvalid | SplitSourceAmountMismatch

  // ----- tokens, as the SDK decodes them

  datatype Proof = Proof(certificate: Certificate, body: Bytes)

  datatype LockJustification = LockJustification(
    tag: u64, version: u64, sourceChainId: u64, vault: Address, asset: Address, txid: Bytes32,
    logIndex: u64, amount: u64, nonce: u64)

  datatype Split = Split(token: Token, proofs: seq<Bytes>)

  /** One byte string, read both ways: as a bridge lock and as a split output. */
  datatype Justification = Justification(lock: Option<LockJustification>, split: Option<Split>)

  datatype Mint = Mint(
    networkId: u16, tokenType: Bytes32, tokenId: Bytes32, recipient: Bytes, salt: Bytes,
    data: Option<Bytes>, justification: Option<Justification>)

  datatype Transfer = Transfer(recipient: Bytes, data: Option<Bytes>, proof: Proof, body: Bytes)

  datatype Token = Token(mint: Mint, mintProof: Proof, transfers: seq<Transfer>)

  function Last(token: Token): Transfer
    requires token.transfers != []
  {
    token.transfers[|token.transfers| - 1]
  }

  datatype Asset = Asset(id: Bytes, value: nat)

  datatype Manifest = Manifest(reasonHash: Bytes32, roots: seq<Bytes>)

  /** Everything taken from the token SDK and from hashing, arbitrary. */
  datatype Sdk = Sdk(
    sha256: Hash,
    cborReader: Decoder,
    cborWriter: Encoder,
    signatures: Signatures,
    derive: Derivations,
    validTrustBase: TrustBase -> bool,
    mintLockScriptOk: (Mint, Proof) -> bool,
    mintIncluded: (Bytes32, Mint, Proof) -> bool,
    transferIncluded: (Bytes32, Transfer) -> bool,
    decodePayment: Bytes -> Option<seq<Asset>>,
    decodeManifest: Bytes -> Option<Manifest>,
    burnPredicate: Bytes32 -> Bytes,
    splitCommitment: (Token, Mint) -> Bytes32,
    allocationSum: (Bytes, Bytes32, Bytes32, nat, Bytes) -> Option<nat>,
    lockDigest: (Config, u64, U256, Bytes32, Bytes32) -> Bytes32,
    stateId: Transfer -> Bytes32,
    txHash: Transfer -> Bytes32,
    burnTransitionId: (Bytes32, Bytes32) -> Bytes32,
    nullifier: (Bytes32, Bytes32) -> Bytes32)

  /** What the SDK promises of an allocation proof: the root's sum covers the value it proves. */
  ghost predicate AllocationSound(sdk: Sdk) {
    forall proof, tokenId, commitment, value: nat, root
      | sdk.allocationSum(proof, tokenId, commitment, value, root).Some? ::
      value <= sdk.allocationSum(proof, tokenId, commitment, value, root).value
  }

  // ----- acceptance of one token

  function TransfersIncluded(sdk: Sdk, root: Bytes32, transfers: seq<Transfer>): bool {
    forall t | t in transfers :: sdk.transferIncluded(root, t)
  }

  /** Against one already verified anchor root. */
  function VerifyTokenAgainstRoot(sdk: Sdk, token: Token, tb: TrustBase, root: Bytes32): Result<(), VerifyError> {
    if !sdk.validTrustBase(tb) then Err(InvalidTrustBase)
    else if token.mint.networkId != tb.networkId then Err(NetworkMismatch)
    else if !sdk.mintLockScriptOk(token.mint, token.mintProof) then Err(InvalidMintLockScript)
    else if !sdk.mintIncluded(root, token.mint, token.mintProof) then Err(Genesis)
    else if !TransfersIncluded(sdk, root, token.transfers) then Err(VerifyError.Transfer)
    else Ok(())
  }

  function TransferCertified(sdk: Sdk, tb: TrustBase, t: Transfer): bool {
    match VerifyUnicityCertificate(sdk.signatures, tb, t.proof.certificate)
    case Ok(root) => sdk.transferIncluded(root, t)
    case Err(_) => false
  }

  /** Each transition against its own certificate. */
  function VerifyTokenCertified(sdk: Sdk, token: Token, tb: TrustBase): Result<(), VerifyError> {
    if !sdk.validTrustBase(tb) then Err(InvalidTrustBase)
    else if token.mint.networkId != tb.networkId then Err(NetworkMismatch)
    else if !sdk.mintLockScriptOk(token.mint, token.mintProof) then Err(InvalidMintLockScript)
    else
      match VerifyUnicityCertificate(sdk.signatures, tb, token.mintProof.certificate)
      case Err(_) => Err(Genesis)
      case Ok(root) =>
        if !sdk.mintIncluded(root, token.mint, token.mintProof) then Err(Genesis)
        else if exists t | t in token.transfers :: !TransferCertified(sdk, tb, t) then Err(VerifyError.Transfer)
        else Ok(())
  }

  function VerifyAnchorCertificate(sdk: Sdk, tb: TrustBase, cert: Certificate): Result<Bytes32, VerifyError> {
    if !sdk.validTrustBase(tb) then Err(InvalidTrustBase)
    else VerifyUnicityCertificate(sdk.signatures, tb, cert)
  }

  // ----- the lock behind a mint

  function IndexOf(assets: seq<Asset>, id: Bytes): (i: Option<nat>)
    ensures i.Some? ==> i.value < |assets| && assets[i.value].id == id
    ensures i.Some? ==> forall j | 0 <= j < i.value :: assets[j].id != id
    ensures i.None? ==> forall j | 0 <= j < |assets| :: assets[j].id != id
  {
    if assets == [] then None
    else if assets[0].id == id then Some(0)
    else
      match IndexOf(assets[1..], id)
      case None => None
      case Some(i) => Some(i + 1)
  }

  /** The value a mint holds of one coin, when its payment data names it. */
  function Coin(sdk: Sdk, mint: Mint, coinId: Bytes): Option<nat> {
    match mint.data
    case None => None
    case Some(data) =>
      match sdk.decodePayment(data)
      case None => None
      case Some(assets) =>
        match IndexOf(assets, coinId)
        case None => None
        case Some(i) => Some(assets[i].value)
  }

  /** The justification as a bridge lock, when its tag and version are the expected ones. */
  function AsLock(mint: Mint, tag: u64): Option<LockJustification> {
    match mint.justification
    case None => None
    case Some(j) =>
      match j.lock
      case Some(lock) => if lock.tag == tag && lock.version == 1 then Some(lock) else None
      case None => None
  }

  function BridgeLockObligation(sdk: Sdk, mint: Mint, tag: u64, config: Config): Result<LockRef, ExtError> {
    if mint.tokenType != config.tokenType then Err(BridgeLockTokenTypeMismatch)
    else
      match AsLock(mint, tag)
      case None => Err(BridgeLockJustificationMalformed)
      case Some(lock) =>
        if lock.sourceChainId != config.sourceChainId || lock.vault != config.vault || lock.asset != config.asset then
          Err(BridgeLockConfigMismatch)
        else if mint.data.None? then Err(BridgeLockPaymentDataMissing)
        else if sdk.decodePayment(mint.data.value).None? then Err(BridgeLockPaymentDataMalformed)
        else
          match Coin(sdk, mint, config.coinId)
          case None => Err(BridgeLockCoinMissing)
          case Some(value) =>
            if value != lock.amount then Err(BridgeLockAmountMismatch)
            else
              var recipient := sdk.sha256.digest(mint.recipient);
              Ok(LockRef(lock.nonce, sdk.lockDigest(config, lock.nonce, Encode(value, 32), mint.tokenId, recipient)))
  }

  // ----- tokens nested in splits

  /** A genesis that is no direct lock mint is tried as a split output; when it is not that either,
      the direct path's error stands. */
  function ObligationsForVerified(sdk: Sdk, token: Token, tb: TrustBase, tag: u64, config: Config)
    : Result<seq<LockRef>, ExtError>
    decreases token, 0
  {
    match BridgeLockObligation(sdk, token.mint, tag, config)
    case Ok(obligation) => Ok([obligation])
    case Err(direct) =>
      match token.mint.justification
      case None => Err(direct)
      case Some(j) =>
        match j.split
        case None => Err(direct)
        case Some(split) => VerifySplitMint(sdk, token, split, tb, tag, config)
  }

  function ObligationsCertified(sdk: Sdk, token: Token, tb: TrustBase, tag: u64, config: Config)
    : Result<seq<LockRef>, ExtError>
    decreases token, 1
  {
    match VerifyTokenCertified(sdk, token, tb)
    case Err(cause) => Err(Unverified(cause))
    case Ok(_) => ObligationsForVerified(sdk, token, tb, tag, config)
  }

  function ObligationsAgainstRoot(sdk: Sdk, token: Token, tb: TrustBase, root: Bytes32, tag: u64, config: Config)
    : Result<seq<LockRef>, ExtError>
  {
    match VerifyTokenAgainstRoot(sdk, token, tb, root)
    case Err(cause) => Err(Unverified(cause))
    case Ok(_) => ObligationsForVerified(sdk, token, tb, tag, config)
  }

  function VerifySplitMint(sdk: Sdk, output: Token, split: Split, tb: TrustBase, tag: u64, config: Config)
    : Result<seq<LockRef>, ExtError>
    requires split < output
    decreases split
  {
    var mint, burned := output.mint, split.token;
    if mint.data.None? then Err(BridgeLockPaymentDataMissing)
    else if sdk.decodePayment(mint.data.value).None? then Err(BridgeLockPaymentDataMalformed)
    else if mint.networkId != burned.mint.networkId then Err(SplitNetworkMismatch)
    else
      var obligations :- ObligationsCertified(sdk, burned, tb, tag, config);
      match SplitBackedBy(sdk, output, split)
      case Some(error) => Err(error)
      case None => Ok(obligations)
  }

  /** The checks that tie a split output to the burned token: the burn names the manifest, and
      every output asset is allocated from the source asset of the same id. */
  function SplitBackedBy(sdk: Sdk, output: Token, split: Split): Option<ExtError>
    requires output.mint.data.Some? && sdk.decodePayment(output.mint.data.value).Some?
  {
    var mint, burned := output.mint, split.token;
    var outputs := sdk.decodePayment(mint.data.value).value;
    if burned.transfers == [] then Some(SplitBurnTransferMissing)
    else
      var burn := burned.transfers[|burned.transfers| - 1];
      if burn.data.None? then Some(SplitManifestMissing)
      else
        match sdk.decodeManifest(burn.data.value)
        case None => Some(SplitManifestMalformed)
        case Some(manifest) =>
          if burn.recipient != sdk.burnPredicate(manifest.reasonHash) then Some(SplitBurnPredicateMismatch)
          else if mint.tokenType != burned.mint.tokenType then Some(SplitTokenTypeMismatch)
          else if burned.mint.data.None? || sdk.decodePayment(burned.mint.data.value).None? then
            Some(SplitSourcePaymentDataMissing)
          else
            var sources := sdk.decodePayment(burned.mint.data.value).value;
            if |sources| != |manifest.roots| then Some(SplitManifestLengthMismatch)
            else if |split.proofs| != |outputs| then Some(SplitProofCountMismatch)
            else Allocated(sdk, mint.tokenId, sdk.splitCommitment(burned, mint), outputs, split.proofs, sources,
              manifest.roots)
  }

  /** The first output asset whose allocation does not hold, in order. */
  function Allocated(sdk: Sdk, tokenId: Bytes32, commitment: Bytes32, outputs: seq<Asset>, proofs: seq<Bytes>,
      sources: seq<Asset>, roots: seq<Bytes>): Option<ExtError>
    requires |outputs| == |proofs| && |sources| == |roots|
  {
    if outputs == [] then None
    else
      match IndexOf(sources, outputs[0].id)
      case None => Some(SplitSourceAssetMissing)
      case Some(index) =>
        match sdk.allocationSum(proofs[0], tokenId, commitment, outputs[0].value, roots[index])
        case None => Some(SplitAllocationProofInvalid)
        case Some(sum) =>
          if sum != sources[index].value then Some(SplitSourceAmountMismatch)
          else Allocated(sdk, tokenId, commitment, outputs[1..], proofs[1..], sources, roots)
  }

  // ----- what the extraction guarantees

  /** The innermost token of a chain of splits: the one minted straight from a lock. */
  ghost function Origin(sdk: Sdk, token: Token, tag: u64, config: Config): Token {
    if BridgeLockObligation(sdk, token.mint, tag, config).Ok? then token
    else
      match token.mint.justification
      case None => token
      case Some(j) =>
        match j.split
        case None => token
        case Some(split) => Origin(sdk, split.token, tag, config)
  }

  /** The coin of an allocated output is proved against its root in the manifest, and that root's
      sum is what the source holds. */
  lemma {:induction false} AllocatedAt(sdk: Sdk, tokenId: Bytes32, commitment: Bytes32, outputs: seq<Asset>,
      proofs: seq<Bytes>, sources: seq<Asset>, roots: seq<Bytes>, id: Bytes)
    requires |outputs| == |proofs| && |sources| == |roots|
    requires Allocated(sdk, tokenId, commitment, outputs, proofs, sources, roots).None?
    ensures match IndexOf(outputs, id)
            case None => true
            case Some(i) =>
              && IndexOf(sources, id).Some?
              && var at := IndexOf(sources, id).value;
                 sdk.allocationSum(proofs[i], tokenId, commitment, outputs[i].value, roots[at])
                   == Some(sources[at].value)
  {
    if outputs != [] && outputs[0].id != id {
      AllocatedAt(sdk, tokenId, commitment, outputs[1..], proofs[1..], sources, roots, id);
    }
  }

  /** No output of an accepted allocation holds more of an asset than the source. */
  lemma AllocatedBound(sdk: Sdk, tokenId: Bytes32, commitment: Bytes32, outputs: seq<Asset>,
      proofs: seq<Bytes>, sources: seq<Asset>, roots: seq<Bytes>, id: Bytes)
    requires |outputs| == |proofs| && |sources| == |roots|
    requires AllocationSound(sdk)
    requires Allocated(sdk, tokenId, commitment, outputs, proofs, sources, roots).None?
    ensures match IndexOf(outputs, id)
            case None => true
            case Some(i) => IndexOf(sources, id).Some? && outputs[i].value <= sources[IndexOf(sources, id).value].value
  {
    hide Allocated;
    AllocatedAt(sdk, tokenId, commitment, outputs, proofs, sources, roots, id);
  }

  /** One split: the output keeps the token type and holds no more of a coin than its source. */
  lemma SplitStep(sdk: Sdk, output: Token, split: Split, coinId: Bytes)
    requires output.mint.data.Some? && sdk.decodePayment(output.mint.data.value).Some?
    requires AllocationSound(sdk) && SplitBackedBy(sdk, output, split).None?
    ensures output.mint.tokenType == split.token.mint.tokenType
    ensures Coin(sdk, output.mint, coinId).Some? ==>
              && Coin(sdk, split.token.mint, coinId).Some?
              && Coin(sdk, output.mint, coinId).value <= Coin(sdk, split.token.mint, coinId).value
  {
    var mint, burned := output.mint, split.token;
    var outputs := sdk.decodePayment(mint.data.value).value;
    var burn := burned.transfers[|burned.transfers| - 1];
    var manifest := sdk.decodeManifest(burn.data.value).value;
    var sources := sdk.decodePayment(burned.mint.data.value).value;
    AllocatedBound(sdk, mint.tokenId, sdk.splitCommitment(burned, mint), outputs, split.proofs, sources,
      manifest.roots, coinId);
  }

  lemma DirectLock(sdk: Sdk, mint: Mint, tag: u64, config: Config)
    requires BridgeLockObligation(sdk, mint, tag, config).Ok?
    ensures mint.tokenType == config.tokenType && AsLock(mint, tag).Some?
    ensures Coin(sdk, mint, config.coinId) == Some(AsLock(mint, tag).value.amount)
    ensures var lock, recipient := AsLock(mint, tag).value, sdk.sha256.digest(mint.recipient);
            BridgeLockObligation(sdk, mint, tag, config).value ==
            LockRef(lock.nonce, sdk.lockDigest(config, lock.nonce, Encode(lock.amount, 32), mint.tokenId, recipient))
  {
  }

  /** For a token nested in any number of splits, extraction returns exactly one obligation, the
      direct lock of the innermost token; type and network stay the same along the chain, and
      the token never holds more of the bridged coin than that lock's amount. */
  lemma {:induction false} ObligationExact(sdk: Sdk, token: Token, tb: TrustBase, tag: u64, config: Config)
    requires AllocationSound(sdk)
    requires ObligationsForVerified(sdk, token, tb, tag, config).Ok?
    ensures var origin := Origin(sdk, token, tag, config);
            && BridgeLockObligation(sdk, origin.mint, tag, config).Ok?
            && ObligationsForVerified(sdk, token, tb, tag, config).value
                 == [BridgeLockObligation(sdk, origin.mint, tag, config).value]
            && origin.mint.networkId == token.mint.networkId
            && origin.mint.tokenType == token.mint.tokenType == config.tokenType
            && AsLock(origin.mint, tag).Some?
            && (Coin(sdk, token.mint, config.coinId).Some? ==>
                  Coin(sdk, token.mint, config.coinId).value <= AsLock(origin.mint, tag).value.amount)
    decreases token
  {
    hide Coin, AllocationSound, SplitBackedBy, AsLock, BridgeLockObligation, VerifyTokenCertified;
    if BridgeLockObligation(sdk, token.mint, tag, config).Ok? {
      DirectLock(sdk, token.mint, tag, config);
    } else {
      var split := token.mint.justification.value.split.value;
      assert ObligationsForVerified(sdk, token, tb, tag, config) == VerifySplitMint(sdk, token, split, tb, tag, config);
      assert VerifySplitMint(sdk, token, split, tb, tag, config)
        == ObligationsCertified(sdk, split.token, tb, tag, config);
      assert ObligationsCertified(sdk, split.token, tb, tag, config)
        == ObligationsForVerified(sdk, split.token, tb, tag, config);
      ObligationExact(sdk, split.token, tb, tag, config);
      SplitStep(sdk, token, split, config.coinId);
    }
  }

  // ----- acceptance, said of inclusion and certificates alone

  /** What the trust base says of a token before any inclusion is looked at. */
  ghost predicate MintFits(sdk: Sdk, tb: TrustBase, token: Token) {
    && sdk.validTrustBase(tb) && token.mint.networkId == tb.networkId
    && sdk.mintLockScriptOk(token.mint, token.mintProof)
  }

  /** The mint and every transfer are included under one root. */
  ghost predicate IncludedUnder(sdk: Sdk, root: Bytes32, token: Token) {
    && sdk.mintIncluded(root, token.mint, token.mintProof)
    && forall i | 0 <= i < |token.transfers| :: sdk.transferIncluded(root, token.transfers[i])
  }

  /** A root its own certificate certifies includes the mint. */
  ghost predicate MintCertified(sdk: Sdk, tb: TrustBase, token: Token, root: Bytes32) {
    && Certifies(sdk.signatures, tb, token.mintProof.certificate, root)
    && sdk.mintIncluded(root, token.mint, token.mintProof)
  }

  ghost predicate CertifiedBy(sdk: Sdk, tb: TrustBase, t: Transfer, root: Bytes32) {
    Certifies(sdk.signatures, tb, t.proof.certificate, root) && sdk.transferIncluded(root, t)
  }

  ghost predicate HasCertificate(sdk: Sdk, tb: TrustBase, t: Transfer) {
    exists root :: CertifiedBy(sdk, tb, t, root)
  }

  /** The mint and every transfer are each included under a root of their own certificate. */
  ghost predicate Attested(sdk: Sdk, tb: TrustBase, token: Token) {
    && MintFits(sdk, tb, token)
    && (exists root :: MintCertified(sdk, tb, token, root))
    && forall i | 0 <= i < |token.transfers| :: HasCertificate(sdk, tb, token.transfers[i])
  }

  /** A token is accepted against a root if and only if the trust base is valid and of its network, its
      mint lock script holds, and mint and transfers, each of them, are included under that root. */
  lemma AgainstRootIff(sdk: Sdk, token: Token, tb: TrustBase, root: Bytes32)
    ensures VerifyTokenAgainstRoot(sdk, token, tb, root).Ok?
       <==> MintFits(sdk, tb, token) && IncludedUnder(sdk, root, token)
  {
    assert forall t :: t in token.transfers <==> exists i | 0 <= i < |token.transfers| :: token.transfers[i] == t;
  }

  /** An anchor gives a root if and only if a valid trust base certifies the root by it. */
  lemma AnchorIff(sdk: Sdk, tb: TrustBase, anchor: Certificate, root: Bytes32)
    ensures VerifyAnchorCertificate(sdk, tb, anchor) == Ok(root) <==>
            sdk.validTrustBase(tb) && Certifies(sdk.signatures, tb, anchor, root)
  {
    hide Certifies, VerifyUnicityCertificate;
    CertifiesIff(sdk.signatures, tb, anchor, root);
  }

  lemma TransferIff(sdk: Sdk, tb: TrustBase, t: Transfer)
    ensures TransferCertified(sdk, tb, t) <==> HasCertificate(sdk, tb, t)
  {
    hide Certifies, VerifyUnicityCertificate;
    forall root: Bytes32
      ensures VerifyUnicityCertificate(sdk.signatures, tb, t.proof.certificate) == Ok(root) <==>
              Certifies(sdk.signatures, tb, t.proof.certificate, root)
    {
      CertifiesIff(sdk.signatures, tb, t.proof.certificate, root);
    }
    if TransferCertified(sdk, tb, t) {
      assert CertifiedBy(sdk, tb, t, VerifyUnicityCertificate(sdk.signatures, tb, t.proof.certificate).value);
    }
  }

  lemma MintIff(sdk: Sdk, tb: TrustBase, token: Token)
    ensures (exists root :: MintCertified(sdk, tb, token, root)) <==>
            var r := VerifyUnicityCertificate(sdk.signatures, tb, token.mintProof.certificate);
            r.Ok? && sdk.mintIncluded(r.value, token.mint, token.mintProof)
  {
    hide Certifies, VerifyUnicityCertificate;
    var cert := token.mintProof.certificate;
    forall root: Bytes32
      ensures VerifyUnicityCertificate(sdk.signatures, tb, cert) == Ok(root) <==>
              Certifies(sdk.signatures, tb, cert, root)
    {
      CertifiesIff(sdk.signatures, tb, cert, root);
    }
    var r := VerifyUnicityCertificate(sdk.signatures, tb, cert);
    if r.Ok? && sdk.mintIncluded(r.value, token.mint, token.mintProof) {
      assert MintCertified(sdk, tb, token, r.value);
    }
  }

  /** A token is accepted by its own certificates if and only if each of its transitions is included
      under a root that its own certificate certifies. */
  lemma CertifiedIff(sdk: Sdk, token: Token, tb: TrustBase)
    ensures VerifyTokenCertified(sdk, token, tb).Ok? <==> Attested(sdk, tb, token)
  {
    hide VerifyUnicityCertificate, TransferCertified, HasCertificate, MintCertified;
    MintIff(sdk, tb, token);
    forall t
      ensures TransferCertified(sdk, tb, t) <==> HasCertificate(sdk, tb, t)
    {
      TransferIff(sdk, tb, t);
    }
    assert forall t :: t in token.transfers <==> exists i | 0 <= i < |token.transfers| :: token.transfers[i] == t;
  }

  // ----- the lock and the splits, said of their fields alone

  /** The payment data of a mint holds `value` of a coin, by its first entry for it. */
  ghost predicate Holds(sdk: Sdk, mint: Mint, coinId: Bytes, value: nat) {
    && mint.data.Some? && sdk.decodePayment(mint.data.value).Some?
    && exists i: nat :: FirstOf(sdk.decodePayment(mint.data.value).value, coinId, i, value)
  }

  ghost predicate FirstOf(assets: seq<Asset>, id: Bytes, i: nat, value: nat) {
    i < |assets| && assets[i] == Asset(id, value) && forall j | 0 <= j < i :: assets[j].id != id
  }

  lemma CoinIff(sdk: Sdk, mint: Mint, coinId: Bytes, value: nat)
    ensures Coin(sdk, mint, coinId) == Some(value) <==> Holds(sdk, mint, coinId, value)
  {
    if Coin(sdk, mint, coinId) == Some(value) {
      var assets := sdk.decodePayment(mint.data.value).value;
      assert FirstOf(assets, coinId, IndexOf(assets, coinId).value, value);
    }
    if Holds(sdk, mint, coinId, value) {
      var assets := sdk.decodePayment(mint.data.value).value;
      var i: nat :| FirstOf(assets, coinId, i, value);
    }
  }

  /** The mint is straight from this lock: the justification names this vault, this asset and this
      chain under the right tag and version, and the payment data hold the locked amount. */
  ghost predicate MintedFrom(sdk: Sdk, mint: Mint, tag: u64, config: Config, lock: LockJustification) {
    && mint.tokenType == config.tokenType
    && mint.justification.Some? && mint.justification.value.lock == Some(lock)
    && lock.tag == tag && lock.version == 1
    && lock.sourceChainId == config.sourceChainId && lock.vault == config.vault && lock.asset == config.asset
    && Holds(sdk, mint, config.coinId, lock.amount)
  }

  /** The reference to a lock: its nonce, and the digest over its amount, the token and the recipient. */
  ghost function RefTo(sdk: Sdk, mint: Mint, config: Config, lock: LockJustification): LockRef {
    LockRef(lock.nonce,
      sdk.lockDigest(config, lock.nonce, Encode(lock.amount, 32), mint.tokenId, sdk.sha256.digest(mint.recipient)))
  }

  /** A mint has a direct obligation if and only if it is straight from a lock, which the obligation
      then refers to. */
  lemma DirectLockIff(sdk: Sdk, mint: Mint, tag: u64, config: Config)
    ensures BridgeLockObligation(sdk, mint, tag, config).Ok?
       <==> exists lock :: MintedFrom(sdk, mint, tag, config, lock)
    ensures forall lock | MintedFrom(sdk, mint, tag, config, lock) ::
              BridgeLockObligation(sdk, mint, tag, config) == Ok(RefTo(sdk, mint, config, lock))
  {
    hide Coin, Holds, Encode;
    if BridgeLockObligation(sdk, mint, tag, config).Ok? {
      var lock := AsLock(mint, tag).value;
      CoinIff(sdk, mint, config.coinId, lock.amount);
      assert MintedFrom(sdk, mint, tag, config, lock);
    }
    forall lock | MintedFrom(sdk, mint, tag, config, lock)
      ensures BridgeLockObligation(sdk, mint, tag, config) == Ok(RefTo(sdk, mint, config, lock))
    {
      CoinIff(sdk, mint, config.coinId, lock.amount);
      CoinData(sdk, mint, config.coinId, lock.amount);
    }
  }

  lemma CoinData(sdk: Sdk, mint: Mint, coinId: Bytes, value: nat)
    requires Holds(sdk, mint, coinId, value)
    ensures mint.data.Some? && sdk.decodePayment(mint.data.value).Some?
  {
  }

  /** Output asset `j` is proved against the manifest root of the source asset of its id, and that
      root's sum is what the source holds of it. */
  ghost predicate DrawsOnSource(sdk: Sdk, output: Token, split: Split, outputs: seq<Asset>, sources: seq<Asset>,
      roots: seq<Bytes>, j: nat)
    requires j < |outputs| == |split.proofs| && |sources| == |roots|
  {
    exists i: nat :: FirstOf(sources, outputs[j].id, i, if i < |sources| then sources[i].value else 0)
      && sdk.allocationSum(split.proofs[j], output.mint.tokenId, sdk.splitCommitment(split.token, output.mint),
           outputs[j].value, roots[i]) == Some(sources[i].value)
  }

  /** The source was burned to this manifest, and each output asset draws on a source asset. */
  ghost predicate BurnedInto(sdk: Sdk, output: Token, split: Split, outputs: seq<Asset>) {
    var burned := split.token;
    && burned.transfers != []
    && var burn := burned.transfers[|burned.transfers| - 1];
       && burn.data.Some? && sdk.decodeManifest(burn.data.value).Some?
       && var manifest := sdk.decodeManifest(burn.data.value).value;
          && burn.recipient == sdk.burnPredicate(manifest.reasonHash)
          && output.mint.tokenType == burned.mint.tokenType
          && burned.mint.data.Some? && sdk.decodePayment(burned.mint.data.value).Some?
          && var sources := sdk.decodePayment(burned.mint.data.value).value;
             && |sources| == |manifest.roots| && |split.proofs| == |outputs|
             && forall j: nat | j < |outputs| ::
                  DrawsOnSource(sdk, output, split, outputs, sources, manifest.roots, j)
  }

  lemma {:induction false} AllocatedIff(sdk: Sdk, tokenId: Bytes32, commitment: Bytes32, outputs: seq<Asset>,
      proofs: seq<Bytes>, sources: seq<Asset>, roots: seq<Bytes>)
    requires |outputs| == |proofs| && |sources| == |roots|
    ensures Allocated(sdk, tokenId, commitment, outputs, proofs, sources, roots).None? <==>
            forall j | 0 <= j < |outputs| ::
              && IndexOf(sources, outputs[j].id).Some?
              && var i := IndexOf(sources, outputs[j].id).value;
                 sdk.allocationSum(proofs[j], tokenId, commitment, outputs[j].value, roots[i]) == Some(sources[i].value)
  {
    if outputs != [] {
      AllocatedIff(sdk, tokenId, commitment, outputs[1..], proofs[1..], sources, roots);
      assert forall j | 0 < j < |outputs| :: outputs[j] == outputs[1..][j - 1] && proofs[j] == proofs[1..][j - 1];
      assert forall j | 0 <= j < |outputs| - 1 :: outputs[1..][j] == outputs[j + 1] && proofs[1..][j] == proofs[j + 1];
    }
  }

  lemma DrawsIff(sdk: Sdk, output: Token, split: Split, outputs: seq<Asset>, sources: seq<Asset>, roots: seq<Bytes>,
      j: nat)
    requires j < |outputs| == |split.proofs| && |sources| == |roots|
    ensures DrawsOnSource(sdk, output, split, outputs, sources, roots, j) <==>
            && IndexOf(sources, outputs[j].id).Some?
            && var i := IndexOf(sources, outputs[j].id).value;
               sdk.allocationSum(split.proofs[j], output.mint.tokenId, sdk.splitCommitment(split.token, output.mint),
                 outputs[j].value, roots[i]) == Some(sources[i].value)
  {
    var found := IndexOf(sources, outputs[j].id);
    if found.Some? {
      assert FirstOf(sources, outputs[j].id, found.value, sources[found.value].value);
    }
  }

  /** A split is backed if and only if its source was burned into it. */
  lemma SplitBackedIff(sdk: Sdk, output: Token, split: Split)
    requires output.mint.data.Some? && sdk.decodePayment(output.mint.data.value).Some?
    ensures SplitBackedBy(sdk, output, split).None? <==>
            BurnedInto(sdk, output, split, sdk.decodePayment(output.mint.data.value).value)
  {
    hide Allocated, IndexOf, DrawsOnSource;
    var mint, burned := output.mint, split.token;
    var outputs := sdk.decodePayment(mint.data.value).value;
    if burned.transfers != [] && burned.transfers[|burned.transfers| - 1].data.Some?
       && sdk.decodeManifest(burned.transfers[|burned.transfers| - 1].data.value).Some?
       && burned.mint.data.Some? && sdk.decodePayment(burned.mint.data.value).Some?
    {
      var manifest := sdk.decodeManifest(burned.transfers[|burned.transfers| - 1].data.value).value;
      var sources := sdk.decodePayment(burned.mint.data.value).value;
      if |sources| == |manifest.roots| && |split.proofs| == |outputs| {
        AllocatedIff(sdk, mint.tokenId, sdk.splitCommitment(burned, mint), outputs, split.proofs, sources,
          manifest.roots);
        forall j: nat | j < |outputs|
          ensures DrawsOnSource(sdk, output, split, outputs, sources, manifest.roots, j) <==>
                  && IndexOf(sources, outputs[j].id).Some?
                  && var i := IndexOf(sources, outputs[j].id).value;
                     sdk.allocationSum(split.proofs[j], mint.tokenId, sdk.splitCommitment(burned, mint),
                       outputs[j].value, manifest.roots[i]) == Some(sources[i].value)
        {
          DrawsIff(sdk, output, split, outputs, sources, manifest.roots, j);
        }
      }
    }
  }

  /** A token draws on a lock: straight, or through a source that is attested on the same network,
      was burned into it, and draws on the lock itself. */
  ghost predicate DrawsOnLock(sdk: Sdk, tb: TrustBase, tag: u64, config: Config, token: Token, ref: LockRef) {
    if exists lock :: MintedFrom(sdk, token.mint, tag, config, lock) then
      exists lock :: MintedFrom(sdk, token.mint, tag, config, lock) && ref == RefTo(sdk, token.mint, config, lock)
    else
      && token.mint.justification.Some? && token.mint.justification.value.split.Some?
      && var split := token.mint.justification.value.split.value;
         && token.mint.data.Some? && sdk.decodePayment(token.mint.data.value).Some?
         && token.mint.networkId == split.token.mint.networkId
         && Attested(sdk, tb, split.token)
         && BurnedInto(sdk, token, split, sdk.decodePayment(token.mint.data.value).value)
         && DrawsOnLock(sdk, tb, tag, config, split.token, ref)
  }

  /** A split mint has its source's obligations if and only if the source is attested on its network and
      burned into it. */
  lemma SplitMintIff(sdk: Sdk, token: Token, split: Split, tb: TrustBase, tag: u64, config: Config, refs: seq<LockRef>)
    requires split < token
    ensures VerifySplitMint(sdk, token, split, tb, tag, config) == Ok(refs) <==>
            && token.mint.data.Some? && sdk.decodePayment(token.mint.data.value).Some?
            && token.mint.networkId == split.token.mint.networkId
            && Attested(sdk, tb, split.token)
            && BurnedInto(sdk, token, split, sdk.decodePayment(token.mint.data.value).value)
            && ObligationsForVerified(sdk, split.token, tb, tag, config) == Ok(refs)
  {
    hide ObligationsForVerified, SplitBackedBy, VerifyTokenCertified, Attested, BurnedInto;
    CertifiedIff(sdk, split.token, tb);
    if token.mint.data.Some? && sdk.decodePayment(token.mint.data.value).Some? {
      SplitBackedIff(sdk, token, split);
    }
  }

  /** A verified token has obligations if and only if it draws on a lock, and then exactly that one. */
  lemma {:induction false} ObligationsIff(sdk: Sdk, token: Token, tb: TrustBase, tag: u64, config: Config, ref: LockRef)
    ensures ObligationsForVerified(sdk, token, tb, tag, config) == Ok([ref])
       <==> DrawsOnLock(sdk, tb, tag, config, token, ref)
    ensures ObligationsForVerified(sdk, token, tb, tag, config).Ok? ==>
              |ObligationsForVerified(sdk, token, tb, tag, config).value| == 1
    decreases token
  {
    hide BridgeLockObligation, VerifySplitMint, Attested, BurnedInto, MintedFrom, RefTo;
    DirectLockIff(sdk, token.mint, tag, config);
    if BridgeLockObligation(sdk, token.mint, tag, config).Err?
       && token.mint.justification.Some? && token.mint.justification.value.split.Some?
    {
      var split := token.mint.justification.value.split.value;
      var found := VerifySplitMint(sdk, token, split, tb, tag, config);
      assert ObligationsForVerified(sdk, token, tb, tag, config) == found;
      ObligationsIff(sdk, split.token, tb, tag, config, ref);
      SplitMintIff(sdk, token, split, tb, tag, config, [ref]);
      if found.Ok? {
        SplitMintIff(sdk, token, split, tb, tag, config, found.value);
      }
    }
  }
}
