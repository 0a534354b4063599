/**
 * Conservation over any number of burns: whatever is burned of the tokens that descend from one
 * lock, by any splits, is together no more than that lock.
 */
module Conservation {
  import opened ByteWords
  import opened Wrappers
  import opened BigEndian
  import opened ReturnCore
  import opened TrustBases
  import opened BridgeTokens
  import BurnReason

  // ----- what the token system promises

  /** The tokens and trust bases under consideration, with every token a split refers back to. */
  datatype World = World(trustBases: set<TrustBase>, tokens: set<Token>)

  function SplitOf(token: Token): Option<Split> {
    match token.mint.justification
    case None => None
    case Some(j) => j.split
  }

  ghost predicate Closed(w: World) {
    forall t | t in w.tokens && SplitOf(t).Some? :: SplitOf(t).value.token in w.tokens
  }

  /** Some valid trust base of this world certifies the root by the anchor. */
  ghost predicate Anchors(sdk: Sdk, w: World, anchor: Certificate, root: Bytes32) {
    exists tb | tb in w.trustBases :: sdk.validTrustBase(tb) && Certifies(sdk.signatures, tb, anchor, root)
  }

  /** Mint and transfers are included under certified roots: their own, or all under an anchor's. */
  ghost predicate GenuineUnder(sdk: Sdk, w: World, tb: TrustBase, token: Token) {
    || Attested(sdk, tb, token)
    || exists anchor, root | Anchors(sdk, w, anchor, root) ::
         MintFits(sdk, tb, token) && IncludedUnder(sdk, root, token)
  }

  ghost predicate Genuine(sdk: Sdk, w: World, token: Token) {
    token in w.tokens && exists tb | tb in w.trustBases :: GenuineUnder(sdk, w, tb, token)
  }

  /** The last transfer goes to a burn predicate. */
  ghost predicate Burned(sdk: Sdk, token: Token) {
    token.transfers != [] && exists h :: Last(token).recipient == sdk.burnPredicate(h)
  }

  function BurnData(token: Token): Option<Bytes> {
    if token.transfers == [] then None else Last(token).data
  }

  ghost predicate BurnsReason(sdk: Sdk, config: Config, token: Token) {
    && BurnData(token).Some?
    && BurnReason.GuestDecode(sdk.cborReader, config.reasonTag, BurnData(token).value).Some?
  }

  ghost predicate BurnsManifest(sdk: Sdk, token: Token) {
    BurnData(token).Some? && sdk.decodeManifest(BurnData(token).value).Some?
  }

  ghost predicate SameBurn(sdk: Sdk, a: Transfer, b: Transfer) {
    && a.recipient == b.recipient && a.data == b.data
    && sdk.stateId(a) == sdk.stateId(b) && sdk.txHash(a) == sdk.txHash(b)
  }

  /** A token is minted once and burned at most once. */
  ghost predicate SpentOnce(sdk: Sdk, w: World) {
    forall a, b | Genuine(sdk, w, a) && Genuine(sdk, w, b) && a.mint.tokenId == b.mint.tokenId ::
      a.mint == b.mint && (Burned(sdk, a) && Burned(sdk, b) ==> SameBurn(sdk, Last(a), Last(b)))
  }

  ghost predicate ReadsOneWay(mint: Mint) {
    mint.justification.Some? ==> mint.justification.value.lock.None? || mint.justification.value.split.None?
  }

  /** No justification reads both as a lock and as a split, and no burn data both as a bridge-back
      reason and as a split manifest. */
  ghost predicate OneReading(sdk: Sdk, w: World, config: Config) {
    forall t | Genuine(sdk, w, t) :: ReadsOneWay(t.mint) && !(BurnsReason(sdk, config, t) && BurnsManifest(sdk, t))
  }

  datatype Allocation = Allocation(proof: Bytes, tokenId: Bytes32, commitment: Bytes32, value: nat)

  function Allotted(shares: seq<Allocation>): nat {
    if shares == [] then 0 else Allotted(shares[..|shares| - 1]) + shares[|shares| - 1].value
  }

  /** The allocation is one a token of this world presents for itself. */
  ghost predicate Presented(sdk: Sdk, w: World, a: Allocation) {
    exists t | t in w.tokens && SplitOf(t).Some? ::
      && a.proof in SplitOf(t).value.proofs && a.tokenId == t.mint.tokenId
      && a.commitment == sdk.splitCommitment(SplitOf(t).value.token, t.mint)
  }

  ghost predicate Shares(sdk: Sdk, w: World, root: Bytes, sum: nat, shares: seq<Allocation>) {
    && (forall i, j | 0 <= i < j < |shares| :: shares[i].tokenId != shares[j].tokenId)
    && forall i | 0 <= i < |shares| ::
         && Presented(sdk, w, shares[i])
         && sdk.allocationSum(shares[i].proof, shares[i].tokenId, shares[i].commitment, shares[i].value, root)
           == Some(sum)
  }

  /** Allocations to distinct tokens under one root share its sum. */
  ghost predicate AllocationsShare(sdk: Sdk, w: World) {
    forall root, sum, shares | Shares(sdk, w, root, sum, shares) :: Allotted(shares) <= sum
  }

  ghost predicate TokensKept(sdk: Sdk, w: World, config: Config) {
    && Closed(w) && AllocationSound(sdk) && AllocationsShare(sdk, w)
    && SpentOnce(sdk, w) && OneReading(sdk, w, config)
  }

  // ----- pieces of locked value

  /** A burned token with the trust base and lock tag it is checked under. */
  datatype Piece = Piece(token: Token, trustBase: TrustBase, tag: u64)

  function Id(p: Piece): Bytes32 {
    p.token.mint.tokenId
  }

  /** How many splits lie between the token and its lock. */
  ghost function Depth(token: Token): nat
    decreases token
  {
    match token.mint.justification
    case None => 0
    case Some(j) => match j.split case None => 0 case Some(split) => 1 + Depth(split.token)
  }

  ghost function Parent(p: Piece): Piece
    requires Depth(p.token) > 0
    ensures Depth(Parent(p).token) + 1 == Depth(p.token)
  {
    p.(token := SplitOf(p.token).value.token)
  }

  /** The ids of the tokens the token was split from. */
  ghost function AncestorIds(p: Piece): set<Bytes32>
    decreases Depth(p.token)
  {
    if Depth(p.token) == 0 then {} else {Id(Parent(p))} + AncestorIds(Parent(p))
  }

  ghost function Refs(sdk: Sdk, config: Config, p: Piece): seq<LockRef> {
    match ObligationsForVerified(sdk, p.token, p.trustBase, p.tag, config)
    case Ok(refs) => refs
    case Err(_) => []
  }

  ghost function CoinOf(sdk: Sdk, config: Config, p: Piece): nat {
    match Coin(sdk, p.token.mint, config.coinId) case Some(value) => value case None => 0
  }

  ghost predicate PieceOk(sdk: Sdk, w: World, config: Config, p: Piece) {
    && p.trustBase in w.trustBases && Genuine(sdk, w, p.token) && Burned(sdk, p.token)
    && ObligationsForVerified(sdk, p.token, p.trustBase, p.tag, config).Ok?
    && Coin(sdk, p.token.mint, config.coinId).Some?
  }

  /** The checks that tie a split output to its source hold. */
  ghost predicate BackedSplit(sdk: Sdk, p: Piece) {
    && SplitOf(p.token).Some?
    && p.token.mint.data.Some? && sdk.decodePayment(p.token.mint.data.value).Some?
    && SplitBackedBy(sdk, p.token, SplitOf(p.token).value).None?
  }

  /** A split output has no direct lock, so its obligations are its source's. */
  lemma SplitIsTaken(sdk: Sdk, config: Config, p: Piece)
    requires ReadsOneWay(p.token.mint) && Depth(p.token) > 0
    requires ObligationsForVerified(sdk, p.token, p.trustBase, p.tag, config).Ok?
    ensures BackedSplit(sdk, p)
    ensures VerifyTokenCertified(sdk, Parent(p).token, p.trustBase).Ok?
    ensures ObligationsForVerified(sdk, p.token, p.trustBase, p.tag, config)
         == ObligationsForVerified(sdk, Parent(p).token, p.trustBase, p.tag, config)
  {
    hide Coin, SplitBackedBy, VerifyTokenCertified;
    var split := p.token.mint.justification.value.split.value;
    assert BridgeLockObligation(sdk, p.token.mint, p.tag, config).Err?;
    assert ObligationsForVerified(sdk, p.token, p.trustBase, p.tag, config)
        == VerifySplitMint(sdk, p.token, split, p.trustBase, p.tag, config);
    assert VerifySplitMint(sdk, p.token, split, p.trustBase, p.tag, config)
        == ObligationsCertified(sdk, split.token, p.trustBase, p.tag, config);
  }

  /** A backed split's source is burned to its manifest. */
  lemma BackedFacts(sdk: Sdk, output: Token, split: Split)
    requires output.mint.data.Some? && sdk.decodePayment(output.mint.data.value).Some?
    requires SplitBackedBy(sdk, output, split).None?
    ensures Burned(sdk, split.token) && BurnsManifest(sdk, split.token)
  {
    hide Allocated;
  }

  /** A split output stands behind its burned source: same lock, one split less. */
  lemma ParentOk(sdk: Sdk, w: World, config: Config, p: Piece)
    requires TokensKept(sdk, w, config) && PieceOk(sdk, w, config, p) && Depth(p.token) > 0
    ensures BackedSplit(sdk, p)
    ensures PieceOk(sdk, w, config, Parent(p)) && BurnsManifest(sdk, Parent(p).token)
    ensures Refs(sdk, config, Parent(p)) == Refs(sdk, config, p)
  {
    hide Coin, AllocationSound, AllocationsShare, BridgeLockObligation, VerifyTokenCertified, SpentOnce, BurnsReason,
      BurnsManifest, Burned, SplitBackedBy, Attested;
    var split := SplitOf(p.token).value;
    SplitIsTaken(sdk, config, p);
    CertifiedIff(sdk, split.token, p.trustBase);
    SplitStep(sdk, p.token, split, config.coinId);
    BackedFacts(sdk, p.token, split);
    assert GenuineUnder(sdk, w, p.trustBase, split.token);
  }

  /** The ancestor of the given id; it is burned to a manifest. */
  lemma {:induction false} AncestorWith(sdk: Sdk, w: World, config: Config, p: Piece, id: Bytes32) returns (a: Piece)
    requires TokensKept(sdk, w, config) && PieceOk(sdk, w, config, p) && id in AncestorIds(p)
    ensures PieceOk(sdk, w, config, a) && BurnsManifest(sdk, a.token) && Id(a) == id
    ensures Depth(a.token) < Depth(p.token) && (Depth(a.token) + 1 == Depth(p.token) ==> a == Parent(p))
    decreases Depth(p.token)
  {
    hide TokensKept, PieceOk, BurnsManifest, BackedSplit, Depth;
    ParentOk(sdk, w, config, p);
    if id == Id(Parent(p)) {
      a := Parent(p);
    } else {
      a := AncestorWith(sdk, w, config, Parent(p), id);
    }
  }

  /** Two pieces of one token are one mint and one burn. */
  lemma SameToken(sdk: Sdk, w: World, config: Config, a: Piece, b: Piece)
    requires TokensKept(sdk, w, config) && PieceOk(sdk, w, config, a) && PieceOk(sdk, w, config, b) && Id(a) == Id(b)
    ensures a.token.mint == b.token.mint && SameBurn(sdk, Last(a.token), Last(b.token))
    ensures CoinOf(sdk, config, a) == CoinOf(sdk, config, b) && Depth(a.token) == Depth(b.token)
    ensures BurnData(a.token) == BurnData(b.token)
  {
    hide AllocationsShare, OneReading, Closed, Genuine, Coin, ObligationsForVerified;
  }

  // ----- one split

  /** The root, in the burned source's manifest, of the bridged coin. */
  ghost function CoinRoot(sdk: Sdk, config: Config, source: Token): Bytes {
    if BurnsManifest(sdk, source) && source.mint.data.Some? && sdk.decodePayment(source.mint.data.value).Some? then
      var roots := sdk.decodeManifest(BurnData(source).value).value.roots;
      match IndexOf(sdk.decodePayment(source.mint.data.value).value, config.coinId)
      case Some(i) => if i < |roots| then roots[i] else []
      case None => []
    else []
  }

  /** What the output shows for its share of the bridged coin. */
  ghost function Entry(sdk: Sdk, config: Config, p: Piece): Allocation
    requires BackedSplit(sdk, p)
  {
    var split := SplitOf(p.token).value;
    var proof := match IndexOf(sdk.decodePayment(p.token.mint.data.value).value, config.coinId)
      case Some(i) => if i < |split.proofs| then split.proofs[i] else []
      case None => [];
    Allocation(proof, Id(p), sdk.splitCommitment(split.token, p.token.mint), CoinOf(sdk, config, p))
  }

  /** That share is proved against the coin's root, whose sum is what the source holds. */
  lemma EntryShares(sdk: Sdk, w: World, config: Config, p: Piece)
    requires p.token in w.tokens && Depth(p.token) > 0 && BackedSplit(sdk, p)
    requires Coin(sdk, p.token.mint, config.coinId).Some?
    ensures Presented(sdk, w, Entry(sdk, config, p))
    ensures var e := Entry(sdk, config, p);
            sdk.allocationSum(e.proof, e.tokenId, e.commitment, e.value, CoinRoot(sdk, config, Parent(p).token))
              == Some(CoinOf(sdk, config, Parent(p)))
  {
    hide Allocated;
    var split := SplitOf(p.token).value;
    var mint, burned := p.token.mint, split.token;
    var outputs := sdk.decodePayment(mint.data.value).value;
    var sources := sdk.decodePayment(burned.mint.data.value).value;
    var roots := sdk.decodeManifest(Last(burned).data.value).value.roots;
    AllocatedAt(sdk, mint.tokenId, sdk.splitCommitment(burned, mint), outputs, split.proofs, sources, roots,
      config.coinId);
  }

  ghost function Total(sdk: Sdk, config: Config, ps: seq<Piece>): nat {
    if ps == [] then 0 else Total(sdk, config, ps[..|ps| - 1]) + CoinOf(sdk, config, ps[|ps| - 1])
  }

  ghost predicate DistinctIds(ps: seq<Piece>) {
    forall i, j | 0 <= i < j < |ps| :: Id(ps[i]) != Id(ps[j])
  }

  ghost predicate AllOk(sdk: Sdk, w: World, config: Config, ps: seq<Piece>) {
    forall p | p in ps :: PieceOk(sdk, w, config, p)
  }

  /** Every piece is an output of a split of the source `q`. */
  ghost predicate OutputsOf(sdk: Sdk, ps: seq<Piece>, q: Piece) {
    forall p | p in ps :: Depth(p.token) > 0 && Id(Parent(p)) == Id(q)
  }

  ghost function Entries(sdk: Sdk, config: Config, ps: seq<Piece>): (shares: seq<Allocation>)
    requires forall p | p in ps :: BackedSplit(sdk, p)
    ensures |shares| == |ps| && Allotted(shares) == Total(sdk, config, ps)
    ensures forall i | 0 <= i < |ps| :: shares[i] == Entry(sdk, config, ps[i])
  {
    if ps == [] then [] else Entries(sdk, config, ps[..|ps| - 1]) + [Entry(sdk, config, ps[|ps| - 1])]
  }

  /** Outputs of one source hold together no more than the source did. */
  lemma OutputsWithinSource(sdk: Sdk, w: World, config: Config, ps: seq<Piece>, q: Piece)
    requires TokensKept(sdk, w, config) && AllOk(sdk, w, config, ps) && DistinctIds(ps)
    requires PieceOk(sdk, w, config, q) && OutputsOf(sdk, ps, q)
    ensures Total(sdk, config, ps) <= CoinOf(sdk, config, q)
  {
    hide *;
    forall p | p in ps
      ensures BackedSplit(sdk, p) && Presented(sdk, w, Entry(sdk, config, p))
      ensures var e := Entry(sdk, config, p);
              && e.tokenId == Id(p)
              && sdk.allocationSum(e.proof, e.tokenId, e.commitment, e.value, CoinRoot(sdk, config, q.token))
                   == Some(CoinOf(sdk, config, q))
    {
      OneEntry(sdk, w, config, ps, p, q);
    }
    var shares := Entries(sdk, config, ps);
    SharesOf(sdk, w, config, ps, shares, CoinRoot(sdk, config, q.token), CoinOf(sdk, config, q));
    Shared(sdk, w, config, CoinRoot(sdk, config, q.token), CoinOf(sdk, config, q), shares);
  }

  lemma OneEntry(sdk: Sdk, w: World, config: Config, ps: seq<Piece>, p: Piece, q: Piece)
    requires TokensKept(sdk, w, config) && AllOk(sdk, w, config, ps) && PieceOk(sdk, w, config, q)
    requires OutputsOf(sdk, ps, q) && p in ps
    ensures BackedSplit(sdk, p) && Presented(sdk, w, Entry(sdk, config, p)) && Entry(sdk, config, p).tokenId == Id(p)
    ensures var e := Entry(sdk, config, p);
            sdk.allocationSum(e.proof, e.tokenId, e.commitment, e.value, CoinRoot(sdk, config, q.token))
              == Some(CoinOf(sdk, config, q))
  {
    hide TokensKept, BackedSplit, Coin, BurnsManifest, Presented, CoinOf, Burned, ObligationsForVerified, SameBurn,
      BurnData;
    ParentOk(sdk, w, config, p);
    EntryShares(sdk, w, config, p);
    SameToken(sdk, w, config, Parent(p), q);
    SameRoot(sdk, config, Parent(p).token, q.token);
  }

  lemma SameRoot(sdk: Sdk, config: Config, a: Token, b: Token)
    requires a.mint == b.mint && BurnData(a) == BurnData(b)
    ensures CoinRoot(sdk, config, a) == CoinRoot(sdk, config, b)
  {
  }

  lemma SharesOf(sdk: Sdk, w: World, config: Config, ps: seq<Piece>, shares: seq<Allocation>, root: Bytes, sum: nat)
    requires DistinctIds(ps) && |shares| == |ps| && forall p | p in ps :: BackedSplit(sdk, p)
    requires forall i | 0 <= i < |ps| :: shares[i] == Entry(sdk, config, ps[i])
    requires forall p | p in ps ::
               var e := Entry(sdk, config, p);
               && Presented(sdk, w, e) && e.tokenId == Id(p)
               && sdk.allocationSum(e.proof, e.tokenId, e.commitment, e.value, root) == Some(sum)
    ensures Shares(sdk, w, root, sum, shares)
  {
    hide BackedSplit, Entry, Presented, Id;
    forall i | 0 <= i < |shares|
      ensures shares[i].tokenId == Id(ps[i]) && Presented(sdk, w, shares[i])
      ensures sdk.allocationSum(shares[i].proof, shares[i].tokenId, shares[i].commitment, shares[i].value, root)
                == Some(sum)
    {
      assert ps[i] in ps;
    }
  }

  lemma Shared(sdk: Sdk, w: World, config: Config, root: Bytes, sum: nat, shares: seq<Allocation>)
    requires TokensKept(sdk, w, config) && Shares(sdk, w, root, sum, shares)
    ensures Allotted(shares) <= sum
  {
    hide Shares, SpentOnce, OneReading, Closed, AllocationSound;
  }

  // ----- from any splits back to the lock

  ghost function Where(ps: seq<Piece>, f: Piece -> bool): (r: seq<Piece>)
    ensures forall p :: p in r <==> p in ps && f(p)
  {
    if ps == [] then []
    else
      var init, last := Where(ps[..|ps| - 1], f), ps[|ps| - 1];
      assert forall p :: p in ps <==> p in ps[..|ps| - 1] || p == last;
      if f(last) then init + [last] else init
  }

  ghost function DepthSum(ps: seq<Piece>): nat {
    if ps == [] then 0 else DepthSum(ps[..|ps| - 1]) + Depth(ps[|ps| - 1].token)
  }

  lemma SumsPush(sdk: Sdk, config: Config, ps: seq<Piece>, p: Piece)
    ensures Total(sdk, config, ps + [p]) == Total(sdk, config, ps) + CoinOf(sdk, config, p)
    ensures DepthSum(ps + [p]) == DepthSum(ps) + Depth(p.token)
  {
    assert (ps + [p])[..|ps|] == ps;
  }

  lemma {:induction false} SumsSplit(sdk: Sdk, config: Config, ps: seq<Piece>, f: Piece -> bool, g: Piece -> bool)
    requires forall p :: f(p) <==> !g(p)
    ensures Total(sdk, config, Where(ps, f)) + Total(sdk, config, Where(ps, g)) == Total(sdk, config, ps)
    ensures DepthSum(Where(ps, f)) + DepthSum(Where(ps, g)) == DepthSum(ps)
  {
    hide CoinOf, Depth;
    if ps != [] {
      var init, last := ps[..|ps| - 1], ps[|ps| - 1];
      SumsSplit(sdk, config, init, f, g);
      if f(last) {
        SumsPush(sdk, config, Where(init, f), last);
      } else {
        SumsPush(sdk, config, Where(init, g), last);
      }
    }
  }

  lemma {:induction false} WhereDistinct(ps: seq<Piece>, f: Piece -> bool)
    requires DistinctIds(ps)
    ensures DistinctIds(Where(ps, f))
  {
    if ps != [] {
      var init, last := ps[..|ps| - 1], ps[|ps| - 1];
      WhereDistinct(init, f);
      forall p | p in Where(init, f)
        ensures Id(p) != Id(last)
      {
        IdElsewhere(ps, p);
      }
    }
  }

  lemma IdElsewhere(ps: seq<Piece>, p: Piece)
    requires DistinctIds(ps) && ps != [] && p in ps[..|ps| - 1]
    ensures Id(p) != Id(ps[|ps| - 1])
  {
  }

  lemma {:induction false} SumHas(ps: seq<Piece>, p: Piece)
    requires p in ps
    ensures DepthSum(ps) >= Depth(p.token)
  {
    hide Depth;
    if ps[|ps| - 1] != p {
      SumHas(ps[..|ps| - 1], p);
    }
  }

  lemma {:induction false} Deepest(ps: seq<Piece>) returns (deepest: Piece)
    requires ps != []
    ensures deepest in ps && forall p | p in ps :: Depth(p.token) <= Depth(deepest.token)
  {
    hide Depth;
    deepest := ps[|ps| - 1];
    if |ps| > 1 {
      var other := Deepest(ps[..|ps| - 1]);
      deepest := if Depth(other.token) > Depth(deepest.token) then other else deepest;
    }
  }

  ghost predicate ChildOf(p: Piece, id: Bytes32) {
    Depth(p.token) > 0 && Id(Parent(p)) == id
  }

  /** No piece is an ancestor of another. */
  ghost predicate Apart(ps: seq<Piece>) {
    forall p, r | p in ps && r in ps :: Id(p) !in AncestorIds(r)
  }

  ghost predicate FromLock(sdk: Sdk, config: Config, ps: seq<Piece>, ref: LockRef) {
    forall p | p in ps :: Refs(sdk, config, p) == [ref]
  }

  /** Of the tokens under consideration only `id`, holding `amount`, is minted from that lock. */
  ghost predicate LockNames(sdk: Sdk, w: World, config: Config, ref: LockRef, id: Bytes32, amount: nat) {
    forall t | t in w.tokens && Coin(sdk, t.mint, config.coinId).Some?
      && Coin(sdk, t.mint, config.coinId).value < U64_LIMIT
      && MintDigest(sdk, config, ref.nonce, t.mint) == ref.digest ::
      t.mint.tokenId == id && Coin(sdk, t.mint, config.coinId).value == amount
  }

  ghost function MintDigest(sdk: Sdk, config: Config, nonce: u64, mint: Mint): Bytes32
    requires Coin(sdk, mint, config.coinId).Some?
  {
    sdk.lockDigest(config, nonce, Encode(Coin(sdk, mint, config.coinId).value, 32), mint.tokenId,
      sdk.sha256.digest(mint.recipient))
  }

  /** The piece minted straight from the lock. */
  lemma AtLock(sdk: Sdk, w: World, config: Config, p: Piece, ref: LockRef, id: Bytes32, amount: nat)
    requires PieceOk(sdk, w, config, p) && Depth(p.token) == 0 && Refs(sdk, config, p) == [ref]
    requires LockNames(sdk, w, config, ref, id, amount)
    ensures Id(p) == id && CoinOf(sdk, config, p) == amount
  {
    hide BridgeLockObligation, Encode, Coin, AsLock;
    var direct := BridgeLockObligation(sdk, p.token.mint, p.tag, config);
    assert ObligationsForVerified(sdk, p.token, p.trustBase, p.tag, config) == Ok([direct.value]);
    assert direct == Ok(ref);
    DirectLock(sdk, p.token.mint, p.tag, config);
    assert MintDigest(sdk, config, ref.nonce, p.token.mint) == ref.digest;
  }

  ghost predicate Family(sdk: Sdk, w: World, config: Config, ps: seq<Piece>, ref: LockRef) {
    AllOk(sdk, w, config, ps) && DistinctIds(ps) && Apart(ps) && FromLock(sdk, config, ps, ref)
  }

  /** Pieces of one lock, none an ancestor of another, hold together no more than the lock: the
      deepest outputs of one split give way to their source, until only the lock's own token is
      left. */
  lemma {:induction false} FamilyWithinLock(sdk: Sdk, w: World, config: Config, ps: seq<Piece>, ref: LockRef,
      id: Bytes32, amount: nat)
    requires TokensKept(sdk, w, config) && LockNames(sdk, w, config, ref, id, amount)
    requires Family(sdk, w, config, ps, ref)
    ensures Total(sdk, config, ps) <= amount
    decreases DepthSum(ps)
  {
    hide *;
    if ps == [] {
      NoTotal(sdk, config, ps);
    } else {
      var p := Deepest(ps);
      if Depth(p.token) == 0 {
        MintedWithinLock(sdk, w, config, ps, ref, id, amount);
      } else {
        var lifted := Lift(sdk, w, config, ps, ref, p);
        FamilyWithinLock(sdk, w, config, lifted, ref, id, amount);
      }
    }
  }

  lemma NoTotal(sdk: Sdk, config: Config, ps: seq<Piece>)
    requires ps == []
    ensures Total(sdk, config, ps) == 0
  {
  }

  lemma MintedWithinLock(sdk: Sdk, w: World, config: Config, ps: seq<Piece>, ref: LockRef, id: Bytes32, amount: nat)
    requires Family(sdk, w, config, ps, ref) && LockNames(sdk, w, config, ref, id, amount)
    requires ps != [] && forall p | p in ps :: Depth(p.token) == 0
    ensures Total(sdk, config, ps) <= amount
  {
    hide PieceOk, Depth, LockNames, Refs, CoinOf, Id;
    assert |ps| > 1 ==> Id(ps[0]) != Id(ps[1]);
    forall i | 0 <= i < |ps|
      ensures Id(ps[i]) == id && CoinOf(sdk, config, ps[i]) == amount
    {
      assert ps[i] in ps;
      AtLock(sdk, w, config, ps[i], ref, id, amount);
    }
    NoTotal(sdk, config, ps[..0]);
  }

  /** The outputs of the deepest piece's source replaced by that source. */
  lemma Lift(sdk: Sdk, w: World, config: Config, ps: seq<Piece>, ref: LockRef, p: Piece) returns (lifted: seq<Piece>)
    requires TokensKept(sdk, w, config) && Family(sdk, w, config, ps, ref)
    requires p in ps && Depth(p.token) > 0 && forall r | r in ps :: Depth(r.token) <= Depth(p.token)
    ensures Family(sdk, w, config, lifted, ref)
    ensures Total(sdk, config, ps) <= Total(sdk, config, lifted) && DepthSum(lifted) < DepthSum(ps)
  {
    hide *;
    var q := Parent(p);
    var child, other := r => ChildOf(r, Id(q)), r => !ChildOf(r, Id(q));
    var outputs, rest := Where(ps, child), Where(ps, other);
    lifted := rest + [q];
    SumsSplit(sdk, config, ps, child, other);
    SumsPush(sdk, config, rest, q);
    IsChild(p);
    SumHas(outputs, p);
    SourceOk(sdk, w, config, ps, ref, p);
    WhereDistinct(ps, child);
    WhereDistinct(ps, other);
    OutputsOk(sdk, w, config, ps, outputs, q, ref);
    OutputsWithinSource(sdk, w, config, outputs, q);
    RestOk(sdk, w, config, ps, rest, p, ref);
  }

  lemma IsChild(p: Piece)
    requires Depth(p.token) > 0
    ensures ChildOf(p, Id(Parent(p)))
  {
  }

  lemma SourceOk(sdk: Sdk, w: World, config: Config, ps: seq<Piece>, ref: LockRef, p: Piece)
    requires TokensKept(sdk, w, config) && Family(sdk, w, config, ps, ref) && p in ps && Depth(p.token) > 0
    ensures PieceOk(sdk, w, config, Parent(p)) && Refs(sdk, config, Parent(p)) == [ref]
    ensures DistinctIds(ps)
  {
    hide TokensKept, PieceOk, Depth, Refs, BurnsManifest, BackedSplit, Id;
    ParentOk(sdk, w, config, p);
  }

  lemma OutputsOk(sdk: Sdk, w: World, config: Config, ps: seq<Piece>, outputs: seq<Piece>, q: Piece, ref: LockRef)
    requires Family(sdk, w, config, ps, ref)
    requires forall r :: r in outputs ==> r in ps && ChildOf(r, Id(q))
    ensures AllOk(sdk, w, config, outputs) && OutputsOf(sdk, outputs, q)
  {
    hide PieceOk, Depth, Refs, DistinctIds, Apart, FromLock;
  }

  lemma RestOk(sdk: Sdk, w: World, config: Config, ps: seq<Piece>, rest: seq<Piece>, p: Piece, ref: LockRef)
    requires TokensKept(sdk, w, config) && Family(sdk, w, config, ps, ref)
    requires p in ps && Depth(p.token) > 0 && forall r | r in ps :: Depth(r.token) <= Depth(p.token)
    requires DistinctIds(rest) && forall r :: r in rest ==> r in ps && !ChildOf(r, Id(Parent(p)))
    ensures Family(sdk, w, config, rest + [Parent(p)], ref)
  {
    hide TokensKept, PieceOk, Depth, Refs, Id;
    var q := Parent(p);
    SourceOk(sdk, w, config, ps, ref, p);
    assert Id(q) in AncestorIds(p) && AncestorIds(q) <= AncestorIds(p);
    forall r | r in rest + [q]
      ensures Id(q) !in AncestorIds(r)
    {
      if Id(q) in AncestorIds(r) {
        NotAbove(sdk, w, config, p, r);
      }
    }
  }

  /** A token's source stands above no token of the same depth that is not its output. */
  lemma NotAbove(sdk: Sdk, w: World, config: Config, p: Piece, r: Piece)
    requires TokensKept(sdk, w, config) && PieceOk(sdk, w, config, p) && PieceOk(sdk, w, config, r)
    requires 0 < Depth(p.token) && Depth(r.token) <= Depth(p.token) && Id(Parent(p)) in AncestorIds(r)
    ensures Depth(r.token) == Depth(p.token) && ChildOf(r, Id(Parent(p)))
  {
    hide TokensKept, PieceOk, Depth, Refs, BurnsManifest, BackedSplit, AncestorIds, CoinOf, SameBurn, BurnData;
    ParentOk(sdk, w, config, p);
    var a := AncestorWith(sdk, w, config, r, Id(Parent(p)));
    SameToken(sdk, w, config, a, Parent(p));
  }

  /** Tokens burned to a bridge-back reason are no source of a split. */
  lemma ReasonsApart(sdk: Sdk, w: World, config: Config, ps: seq<Piece>)
    requires TokensKept(sdk, w, config) && AllOk(sdk, w, config, ps)
    requires forall p | p in ps :: BurnsReason(sdk, config, p.token)
    ensures Apart(ps)
  {
    hide TokensKept, PieceOk, AncestorIds, Id;
    forall p, r | p in ps && r in ps && Id(p) in AncestorIds(r)
      ensures false
    {
      var a := AncestorWith(sdk, w, config, r, Id(p));
      SameToken(sdk, w, config, a, p);
      NotBoth(sdk, w, config, p);
    }
  }

  lemma NotBoth(sdk: Sdk, w: World, config: Config, p: Piece)
    requires TokensKept(sdk, w, config) && PieceOk(sdk, w, config, p)
    ensures !(BurnsReason(sdk, config, p.token) && BurnsManifest(sdk, p.token))
  {
    hide Genuine, SpentOnce, AllocationsShare, AllocationSound, Closed, BurnsReason, BurnsManifest;
  }

  /** However often the value of one lock was split, what is burned of it for return, in any number
      of burns of distinct tokens, is together no more than the lock. */
  lemma LockConserved(sdk: Sdk, w: World, config: Config, ps: seq<Piece>, ref: LockRef, id: Bytes32, amount: nat)
    requires TokensKept(sdk, w, config) && LockNames(sdk, w, config, ref, id, amount)
    requires AllOk(sdk, w, config, ps) && DistinctIds(ps) && FromLock(sdk, config, ps, ref)
    requires forall p | p in ps :: BurnsReason(sdk, config, p.token)
    ensures Total(sdk, config, ps) <= amount
  {
    hide TokensKept, AllOk, DistinctIds, FromLock, LockNames, BurnsReason, Apart, Total;
    ReasonsApart(sdk, w, config, ps);
    FamilyWithinLock(sdk, w, config, ps, ref, id, amount);
  }
}
