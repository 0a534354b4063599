/**
 * The vault over a whole run: per lock, everything ever released of it, by any batches and after
 * any splits, is together no more than the lock.
 */
module Solvency {
  import opened ByteWords
  import opened Wrappers
  import opened BigEndian
  import opened SparseTree
  import opened Rebuild
  import opened ReturnCore
  import opened TrustBases
  import opened BridgeTokens
  import opened GuestRelation
  import opened Payouts
  import opened Conservation
  import opened Vault

  // ----- the run as one list of burns and their leaves

  function Burns(xs: seq<GuestInput>): seq<BurnWitness> {
    if xs == [] then [] else Burns(xs[..|xs| - 1]) + xs[|xs| - 1].burns
  }

  function PieceOf(b: BurnWitness): Piece {
    Piece(b.token, b.trustBase, b.lockTag)
  }

  function Pieces(burns: seq<BurnWitness>): (ps: seq<Piece>)
    ensures |ps| == |burns| && forall i | 0 <= i < |ps| :: ps[i] == PieceOf(burns[i])
  {
    if burns == [] then [] else Pieces(burns[..|burns| - 1]) + [PieceOf(burns[|burns| - 1])]
  }

  /** What the leaves release of the lock with nonce `n`. */
  ghost function Drawn(sdk: Sdk, config: Config, leaves: seq<ReturnLeaf>, burns: seq<BurnWitness>, n: nat): nat
    requires |leaves| == |burns|
  {
    if burns == [] then 0
    else
      var last := |burns| - 1;
      Drawn(sdk, config, leaves[..last], burns[..last], n)
        + if DrawsOn(sdk, config, burns[last], n) then Value(leaves[last].amount) else 0
  }

  ghost predicate DrawsOn(sdk: Sdk, config: Config, burn: BurnWitness, n: nat) {
    BurnLock(sdk, config, burn).Some? && BurnLock(sdk, config, burn).value.nonce == n
  }

  // ----- what is taken for granted

  ghost predicate Covers(w: World, burns: seq<BurnWitness>) {
    forall b | b in burns :: b.token in w.tokens && b.trustBase in w.trustBases
  }

  /** Keccak keeps the digests of these tokens apart from the vault's: none is zero, and one
      digest means one lock. */
  ghost predicate LocksBind(sdk: Sdk, w: World, config: Config, locks: seq<LockRecord>) {
    forall t, n: u64 | t in w.tokens && Coin(sdk, t.mint, config.coinId).Some? :: LockBinds(sdk, config, locks, t, n)
  }

  ghost predicate LockBinds(sdk: Sdk, config: Config, locks: seq<LockRecord>, t: Token, n: u64)
    requires Coin(sdk, t.mint, config.coinId).Some?
  {
    && MintDigest(sdk, config, n, t.mint) != ZERO32
    && (n < |locks| && MintDigest(sdk, config, n, t.mint) == StoredDigest(sdk, config, locks, n) ==>
          && t.mint.tokenId == locks[n].tokenId
          && Encode(Coin(sdk, t.mint, config.coinId).value, 32) == Encode(locks[n].amount, 32))
  }

  // ----- one burn

  ghost function NullifierOf(sdk: Sdk, config: Config, token: Token): Bytes32
    requires token.transfers != []
  {
    sdk.nullifier(sdk.derive.configHash(config),
      sdk.burnTransitionId(sdk.stateId(Last(token)), sdk.txHash(Last(token))))
  }

  /** What an accepted burn is in the history of its lock. */
  ghost predicate Returned(sdk: Sdk, w: World, config: Config, leaf: ReturnLeaf, burn: BurnWitness) {
    var p := PieceOf(burn);
    && PieceOk(sdk, w, config, p) && BurnsReason(sdk, config, burn.token)
    && leaf.nullifier == NullifierOf(sdk, config, burn.token)
    && Value(leaf.amount) == CoinOf(sdk, config, p)
    && BurnLock(sdk, config, burn).Some?
    && Refs(sdk, config, p) == [LockRef(BurnLock(sdk, config, burn).value.nonce, BurnDigest(sdk, config, burn))]
  }

  /** Every cached root is one that a trust base of this world gives its anchor. */
  ghost predicate AllAnchor(sdk: Sdk, w: World, cache: Cache) {
    forall e | e in cache :: Anchors(sdk, w, e.0, e.1)
  }

  lemma BurnReturned(sdk: Sdk, w: World, config: Config, trustBaseHash: Bytes32, leaf: ReturnLeaf, burn: BurnWitness,
      cache: Cache)
    requires AllocationSound(sdk) && CheckBurn(sdk, config, trustBaseHash, leaf, burn, cache).Ok?
    requires burn.token in w.tokens && burn.trustBase in w.trustBases && AllAnchor(sdk, w, cache)
    ensures Returned(sdk, w, config, leaf, burn)
    ensures var (refs, grown) := CheckBurn(sdk, config, trustBaseHash, leaf, burn, cache).value;
            |refs| == 1 && Refs(sdk, config, PieceOf(burn)) == refs && AllAnchor(sdk, w, grown)
  {
    hide *;
    BurnFacts(sdk, config, trustBaseHash, leaf, burn, cache);
    BurnChecked(sdk, w, config, trustBaseHash, leaf, burn, cache);
    ReturnedIs(sdk, w, config, leaf, burn, CheckBurn(sdk, config, trustBaseHash, leaf, burn, cache).value.0[0]);
  }

  lemma BurnChecked(sdk: Sdk, w: World, config: Config, trustBaseHash: Bytes32, leaf: ReturnLeaf, burn: BurnWitness,
      cache: Cache)
    requires CheckBurn(sdk, config, trustBaseHash, leaf, burn, cache).Ok?
    requires burn.token in w.tokens && burn.trustBase in w.trustBases && AllAnchor(sdk, w, cache)
    ensures PieceOk(sdk, w, config, PieceOf(burn)) && BurnsReason(sdk, config, burn.token)
    ensures leaf.nullifier == NullifierOf(sdk, config, burn.token)
    ensures var (refs, grown) := CheckBurn(sdk, config, trustBaseHash, leaf, burn, cache).value;
            Refs(sdk, config, PieceOf(burn)) == refs && AllAnchor(sdk, w, grown)
  {
    hide Coin, ObligationsThrough, GenuineUnder, ObligationsForVerified, ValidateTerminalBurn, BurnsReason, NullifierOf,
      Burned, Encode, AllAnchor;
    BurnObligationsAre(sdk, config, burn, cache);
    BurnGenuine(sdk, w, config, burn, cache);
    BurnTerminal(sdk, config, leaf, burn.token);
  }

  lemma BurnGenuine(sdk: Sdk, w: World, config: Config, burn: BurnWitness, cache: Cache)
    requires ObligationsThrough(sdk, config, burn, cache).0.Some?
    requires burn.trustBase in w.trustBases && AllAnchor(sdk, w, cache)
    ensures GenuineUnder(sdk, w, burn.trustBase, burn.token)
    ensures AllAnchor(sdk, w, ObligationsThrough(sdk, config, burn, cache).1)
  {
    hide VerifyTokenCertified, VerifyTokenAgainstRoot, VerifyAnchorCertificate, ObligationsForVerified, RootThrough,
      AllAnchor, Anchors, Attested, MintFits, IncludedUnder;
    if burn.verification.Anchored? {
      var root := RootThrough(sdk, burn, burn.verification.anchor, cache).0.value;
      RootAnchors(sdk, w, burn, burn.verification.anchor, cache);
      AgainstRootIff(sdk, burn.token, burn.trustBase, root);
    } else {
      CertifiedIff(sdk, burn.token, burn.trustBase);
    }
  }

  lemma RootAnchors(sdk: Sdk, w: World, burn: BurnWitness, anchor: Certificate, cache: Cache)
    requires burn.trustBase in w.trustBases && AllAnchor(sdk, w, cache) && RootThrough(sdk, burn, anchor, cache).0.Ok?
    ensures Anchors(sdk, w, anchor, RootThrough(sdk, burn, anchor, cache).0.value)
    ensures AllAnchor(sdk, w, RootThrough(sdk, burn, anchor, cache).1)
  {
    hide VerifyAnchorCertificate, Certifies;
    var found := RootThrough(sdk, burn, anchor, cache).0.value;
    AnchorIff(sdk, burn.trustBase, anchor, found);
  }

  lemma BurnTerminal(sdk: Sdk, config: Config, leaf: ReturnLeaf, token: Token)
    requires ValidateTerminalBurn(sdk, config, leaf, token) == Pass
    ensures Burned(sdk, token) && BurnsReason(sdk, config, token) && leaf.nullifier == NullifierOf(sdk, config, token)
  {
    hide ReasonMatches;
  }

  lemma ReturnedIs(sdk: Sdk, w: World, config: Config, leaf: ReturnLeaf, burn: BurnWitness, ref: LockRef)
    requires BurnBacked(sdk, config, leaf, burn, ref)
    requires PieceOk(sdk, w, config, PieceOf(burn)) && BurnsReason(sdk, config, burn.token)
    requires leaf.nullifier == NullifierOf(sdk, config, burn.token)
    requires Refs(sdk, config, PieceOf(burn)) == [ref]
    ensures Returned(sdk, w, config, leaf, burn)
  {
    hide PieceOk, BurnsReason, Coin, BurnDigest, BurnLock, Refs, Value, NullifierOf;
  }

  // ----- all burns of a run

  /** Every leaf of the run returns its burn, against a stored lock. */
  ghost predicate AllReturned(sdk: Sdk, w: World, config: Config, locks: seq<LockRecord>, leaves: seq<ReturnLeaf>,
      burns: seq<BurnWitness>)
  {
    && |leaves| == |burns|
    && forall i | 0 <= i < |burns| ::
         Returned(sdk, w, config, leaves[i], burns[i]) && OnStoredLock(sdk, config, locks, burns[i])
  }

  ghost predicate OnStoredLock(sdk: Sdk, config: Config, locks: seq<LockRecord>, burn: BurnWitness) {
    && BurnLock(sdk, config, burn).Some?
    && RefHeld(sdk, config, locks, LockRef(BurnLock(sdk, config, burn).value.nonce, BurnDigest(sdk, config, burn)))
  }

  lemma {:induction false} ThroughReturned(sdk: Sdk, w: World, config: Config, trustBaseHash: Bytes32,
      leaves: seq<ReturnLeaf>, burns: seq<BurnWitness>, refs: seq<LockRef>, cache: Cache)
    requires |leaves| == |burns| && AllocationSound(sdk) && Covers(w, burns)
    requires CheckThrough(sdk, config, trustBaseHash, leaves, burns) == Ok((refs, cache))
    ensures AllAnchor(sdk, w, cache) && |refs| == |burns|
    ensures forall i | 0 <= i < |burns| ::
              Returned(sdk, w, config, leaves[i], burns[i]) && Refs(sdk, config, PieceOf(burns[i])) == [refs[i]]
  {
    hide AllocationSound, CheckBurn, Returned, Refs;
    if burns == [] {
      assert AllAnchor(sdk, w, []);
    } else {
      hide AllAnchor;
      var last := |burns| - 1;
      ThroughLast(sdk, config, trustBaseHash, leaves, burns);
      var init := CheckThrough(sdk, config, trustBaseHash, leaves[..last], burns[..last]).value;
      ThroughReturned(sdk, w, config, trustBaseHash, leaves[..last], burns[..last], init.0, init.1);
      InSeqSet(burns, last);
      BurnReturned(sdk, w, config, trustBaseHash, leaves[last], burns[last], init.1);
    }
  }

  lemma BatchReturned(sdk: Sdk, w: World, config: Config, trustBaseHash: Bytes32, leaves: seq<ReturnLeaf>,
      burns: seq<BurnWitness>, refs: seq<LockRef>)
    requires |leaves| == |burns| && AllocationSound(sdk) && Covers(w, burns)
    requires CheckBurns(sdk, config, trustBaseHash, leaves, burns) == Ok(refs)
    ensures |refs| == |burns|
    ensures forall i | 0 <= i < |burns| ::
              Returned(sdk, w, config, leaves[i], burns[i]) && Refs(sdk, config, PieceOf(burns[i])) == [refs[i]]
  {
    hide *;
    BurnsAre(sdk, config, trustBaseHash, leaves, burns);
    var found := CheckThrough(sdk, config, trustBaseHash, leaves, burns).value;
    ThroughReturned(sdk, w, config, trustBaseHash, leaves, burns, found.0, found.1);
  }

  /** The digest of an accepted burn is its lock's, never zero. */
  lemma DigestNotZero(sdk: Sdk, w: World, config: Config, locks: seq<LockRecord>, burn: BurnWitness)
    requires AllocationSound(sdk) && Closed(w) && LocksBind(sdk, w, config, locks) && burn.token in w.tokens
    requires ObligationsForVerified(sdk, burn.token, burn.trustBase, burn.lockTag, config).Ok?
    ensures BurnLock(sdk, config, burn).Some? && BurnDigest(sdk, config, burn) != ZERO32
  {
    hide AllocationSound, ObligationsForVerified, Coin, AsLock, Encode, Origin, BridgeLockObligation, StoredDigest;
    ObligationExact(sdk, burn.token, burn.trustBase, burn.lockTag, config);
    OriginKnown(sdk, w, config, burn.token, burn.lockTag);
    var origin := Origin(sdk, burn.token, burn.lockTag, config);
    DirectLock(sdk, origin.mint, burn.lockTag, config);
    var lock := BurnLock(sdk, config, burn).value;
    assert LockBinds(sdk, config, locks, origin, lock.nonce);
    assert BurnDigest(sdk, config, burn) == MintDigest(sdk, config, lock.nonce, origin.mint);
  }

  lemma {:induction false} OriginKnown(sdk: Sdk, w: World, config: Config, token: Token, tag: u64)
    requires Closed(w) && token in w.tokens
    ensures Origin(sdk, token, tag, config) in w.tokens
    decreases token
  {
    hide BridgeLockObligation;
    if !BridgeLockObligation(sdk, token.mint, tag, config).Ok? && SplitOf(token).Some? {
      OriginKnown(sdk, w, config, token.mint.justification.value.split.value.token, tag);
    }
  }

  /** An accepted batch that names only stored locks. */
  lemma BatchOnLocks(sdk: Sdk, w: World, config: Config, locks: seq<LockRecord>, x: GuestInput)
    requires AllocationSound(sdk) && Closed(w) && LocksBind(sdk, w, config, locks)
    requires Accepted(sdk, x) && BatchBacked(sdk, config, locks, x) && Covers(w, x.burns)
    ensures AllReturned(sdk, w, config, locks, x.leaves, x.burns)
  {
    hide *;
    AcceptedShape(sdk, x);
    BatchConfig(sdk, config, locks, x);
    var obligations := CheckBurns(sdk, config, x.publicValues.trustBaseHash, x.leaves, x.burns).value;
    BatchReturned(sdk, w, config, x.publicValues.trustBaseHash, x.leaves, x.burns, obligations);
    BatchLocks(sdk, x, obligations);
    SameMembers(x.lockRefs, obligations);
    forall i | 0 <= i < |x.burns|
      ensures Returned(sdk, w, config, x.leaves[i], x.burns[i]) && OnStoredLock(sdk, config, locks, x.burns[i])
    {
      assert obligations[i] in x.lockRefs;
      LockStored(sdk, w, config, locks, x, x.leaves[i], x.burns[i], obligations[i]);
    }
    AllReturnedIs(sdk, w, config, locks, x.leaves, x.burns);
  }

  lemma BatchConfig(sdk: Sdk, config: Config, locks: seq<LockRecord>, x: GuestInput)
    requires BatchBacked(sdk, config, locks, x)
    ensures x.config == config
  {
  }

  lemma LockStored(sdk: Sdk, w: World, config: Config, locks: seq<LockRecord>, x: GuestInput, leaf: ReturnLeaf,
      burn: BurnWitness, ref: LockRef)
    requires AllocationSound(sdk) && Closed(w) && LocksBind(sdk, w, config, locks)
               && Returned(sdk, w, config, leaf, burn)
    requires BatchBacked(sdk, config, locks, x) && ref in x.lockRefs && Refs(sdk, config, PieceOf(burn)) == [ref]
    ensures OnStoredLock(sdk, config, locks, burn)
  {
    hide AllocationSound, Closed, LocksBind, RefHeld, BurnLock, BurnDigest, ObligationsForVerified, Coin, NullifierOf,
      BurnsReason, CoinOf;
    assert burn.token in w.tokens;
    DigestNotZero(sdk, w, config, locks, burn);
  }

  lemma AllReturnedIs(sdk: Sdk, w: World, config: Config, locks: seq<LockRecord>, leaves: seq<ReturnLeaf>,
      burns: seq<BurnWitness>)
    requires |leaves| == |burns|
    requires forall i | 0 <= i < |burns| ::
               Returned(sdk, w, config, leaves[i], burns[i]) && OnStoredLock(sdk, config, locks, burns[i])
    ensures AllReturned(sdk, w, config, locks, leaves, burns)
  {
    hide Returned, OnStoredLock;
  }

  lemma ReturnedJoin(sdk: Sdk, w: World, config: Config, locks: seq<LockRecord>, leaves: seq<ReturnLeaf>,
      burns: seq<BurnWitness>, moreLeaves: seq<ReturnLeaf>, moreBurns: seq<BurnWitness>)
    requires AllReturned(sdk, w, config, locks, leaves, burns)
               && AllReturned(sdk, w, config, locks, moreLeaves, moreBurns)
    ensures AllReturned(sdk, w, config, locks, leaves + moreLeaves, burns + moreBurns)
  {
    hide Returned, OnStoredLock;
  }

  lemma RunPush(xs: seq<GuestInput>)
    requires xs != []
    ensures var init, x := xs[..|xs| - 1], xs[|xs| - 1];
            && Leaves(xs) == Leaves(init) + x.leaves && Burns(xs) == Burns(init) + x.burns
            && Spent(xs) == Spent(init) + Nullifiers(x.leaves)
  {
    hide Nullifiers;
    assert StepsOf(xs)[..|xs| - 1] == StepsOf(xs[..|xs| - 1]);
  }

  lemma NullifiersJoin(a: seq<ReturnLeaf>, b: seq<ReturnLeaf>)
    ensures Nullifiers(a + b) == Nullifiers(a) + Nullifiers(b)
  {
    hide Nullifiers;
  }

  lemma RunReturnedNone(sdk: Sdk, w: World, config: Config, locks: seq<LockRecord>, xs: seq<GuestInput>)
    requires xs == []
    ensures AllReturned(sdk, w, config, locks, Leaves(xs), Burns(xs)) && Nullifiers(Leaves(xs)) == Spent(xs)
  {
  }

  lemma RunParts(sdk: Sdk, w: World, config: Config, locks: seq<LockRecord>, xs: seq<GuestInput>)
    requires xs != [] && Backed(sdk, config, locks, xs) && Covers(w, Burns(xs))
    ensures var init, x := xs[..|xs| - 1], xs[|xs| - 1];
            && Backed(sdk, config, locks, init) && BatchBacked(sdk, config, locks, x)
            && Covers(w, Burns(init)) && Covers(w, x.burns)
  {
    hide BatchBacked;
    RunPush(xs);
  }

  lemma {:induction false} RunReturned(sdk: Sdk, w: World, config: Config, locks: seq<LockRecord>, xs: seq<GuestInput>)
    requires AllocationSound(sdk) && Closed(w) && LocksBind(sdk, w, config, locks)
    requires Settles(sdk, xs) && Backed(sdk, config, locks, xs) && Covers(w, Burns(xs))
    ensures AllReturned(sdk, w, config, locks, Leaves(xs), Burns(xs))
    ensures Nullifiers(Leaves(xs)) == Spent(xs)
  {
    hide *;
    if xs == [] {
      RunReturnedNone(sdk, w, config, locks, xs);
    } else {
      var init, x := xs[..|xs| - 1], xs[|xs| - 1];
      SettlesPrefix(sdk, xs);
      RunParts(sdk, w, config, locks, xs);
      RunReturned(sdk, w, config, locks, init);
      SettledAccepted(sdk, RootAfter(StepsOf(init)), x);
      BatchOnLocks(sdk, w, config, locks, x);
      ReturnedJoin(sdk, w, config, locks, Leaves(init), Burns(init), x.leaves, x.burns);
      NullifiersJoin(Leaves(init), x.leaves);
      RunPush(xs);
    }
  }

  lemma SettledAccepted(sdk: Sdk, root: Bytes32, x: GuestInput)
    requires SettlesOn(sdk, root, x)
    ensures Accepted(sdk, x)
  {
    hide Execute;
  }

  /** Distinct nullifiers come from distinct tokens. */
  lemma PiecesDiffer(sdk: Sdk, w: World, config: Config, locks: seq<LockRecord>, leaves: seq<ReturnLeaf>,
      burns: seq<BurnWitness>)
    requires TokensKept(sdk, w, config) && AllReturned(sdk, w, config, locks, leaves, burns)
    requires Distinct(Nullifiers(leaves))
    ensures DistinctIds(Pieces(burns))
  {
    hide TokensKept, OnStoredLock, Nullifiers, Returned, Id, Pieces;
    forall i, j | 0 <= i < j < |burns|
      ensures Id(PieceOf(burns[i])) != Id(PieceOf(burns[j]))
    {
      assert Nullifiers(leaves)[i] != Nullifiers(leaves)[j];
      IdsDiffer(sdk, w, config, leaves[i], burns[i], leaves[j], burns[j]);
    }
  }

  lemma IdsDiffer(sdk: Sdk, w: World, config: Config, a: ReturnLeaf, burnA: BurnWitness, b: ReturnLeaf,
      burnB: BurnWitness)
    requires TokensKept(sdk, w, config) && Returned(sdk, w, config, a, burnA) && Returned(sdk, w, config, b, burnB)
    requires a.nullifier != b.nullifier
    ensures Id(PieceOf(burnA)) != Id(PieceOf(burnB))
  {
    hide TokensKept, PieceOk, BurnsReason, BurnLock, BurnDigest, Refs, CoinOf, Value;
    if Id(PieceOf(burnA)) == Id(PieceOf(burnB)) {
      SameToken(sdk, w, config, PieceOf(burnA), PieceOf(burnB));
      HasTransfers(sdk, w, config, PieceOf(burnA));
      HasTransfers(sdk, w, config, PieceOf(burnB));
      assert false;
    }
  }

  lemma HasTransfers(sdk: Sdk, w: World, config: Config, p: Piece)
    requires PieceOk(sdk, w, config, p)
    ensures p.token.transfers != []
  {
    hide Genuine, ObligationsForVerified, Coin;
  }

  // ----- per lock

  ghost predicate AtNonce(sdk: Sdk, config: Config, p: Piece, n: nat) {
    |Refs(sdk, config, p)| == 1 && Refs(sdk, config, p)[0].nonce == n
  }

  /** What is drawn on a lock is what the pieces of that lock hold. */
  lemma {:induction false} DrawnIsTotal(sdk: Sdk, w: World, config: Config, locks: seq<LockRecord>,
      leaves: seq<ReturnLeaf>, burns: seq<BurnWitness>, n: nat, f: Piece -> bool)
    requires AllReturned(sdk, w, config, locks, leaves, burns)
    requires forall p :: f(p) <==> AtNonce(sdk, config, p, n)
    ensures Drawn(sdk, config, leaves, burns, n) == Total(sdk, config, Where(Pieces(burns), f))
  {
    hide OnStoredLock, Returned, DrawsOn, AtNonce, Value, CoinOf;
    if burns != [] {
      var last := |burns| - 1;
      DrawnIsTotal(sdk, w, config, locks, leaves[..last], burns[..last], n, f);
      assert Pieces(burns)[..last] == Pieces(burns[..last]);
      SumsPush(sdk, config, Where(Pieces(burns[..last]), f), PieceOf(burns[last]));
      DrawsAtNonce(sdk, w, config, leaves[last], burns[last], n);
    }
  }

  lemma DrawsAtNonce(sdk: Sdk, w: World, config: Config, leaf: ReturnLeaf, burn: BurnWitness, n: nat)
    requires Returned(sdk, w, config, leaf, burn)
    ensures DrawsOn(sdk, config, burn, n) <==> AtNonce(sdk, config, PieceOf(burn), n)
    ensures Value(leaf.amount) == CoinOf(sdk, config, PieceOf(burn))
  {
    hide PieceOk, BurnsReason, BurnLock, BurnDigest, Refs, CoinOf, Value, NullifierOf;
  }

  /** A burn on lock `n` refers to that lock's stored digest. */
  lemma NonceRef(sdk: Sdk, w: World, config: Config, locks: seq<LockRecord>, leaf: ReturnLeaf, burn: BurnWitness,
      n: u64)
    requires Returned(sdk, w, config, leaf, burn) && OnStoredLock(sdk, config, locks, burn)
    requires AtNonce(sdk, config, PieceOf(burn), n)
    ensures n < |locks| && Refs(sdk, config, PieceOf(burn)) == [LockRef(n, StoredDigest(sdk, config, locks, n))]
    ensures PieceOk(sdk, w, config, PieceOf(burn)) && BurnsReason(sdk, config, burn.token)
  {
    hide PieceOk, BurnsReason, BurnLock, BurnDigest, Refs, CoinOf, Value, NullifierOf, StoredDigest;
  }

  lemma LockNamed(sdk: Sdk, w: World, config: Config, locks: seq<LockRecord>, n: u64)
    requires LocksBind(sdk, w, config, locks) && n < |locks|
    ensures LockNames(sdk, w, config, LockRef(n, StoredDigest(sdk, config, locks, n)), locks[n].tokenId,
              locks[n].amount)
  {
    hide Coin, StoredDigest, MintDigest, Encode, Pow256, Value;
    forall t | t in w.tokens && Coin(sdk, t.mint, config.coinId).Some?
      && Coin(sdk, t.mint, config.coinId).value < U64_LIMIT
        && MintDigest(sdk, config, n, t.mint) == StoredDigest(sdk, config, locks, n)
      ensures t.mint.tokenId == locks[n].tokenId && Coin(sdk, t.mint, config.coinId).value == locks[n].amount
    {
      assert LockBinds(sdk, config, locks, t, n);
      SameU64(Coin(sdk, t.mint, config.coinId).value, locks[n].amount);
    }
  }

  lemma SameU64(a: nat, b: nat)
    requires a < U64_LIMIT && b < U64_LIMIT && Encode(a, 32) == Encode(b, 32)
    ensures a == b
  {
    hide Encode, Pow256, Value;
    assert U64_LIMIT < Pow256(32) by {
      WordIs();
    }
    ValueEncode(a, 32);
    ValueEncode(b, 32);
  }

  /** Over a whole run, what is released of one lock is at most that lock. */
  lemma LockNeverOverdrawn(sdk: Sdk, w: World, config: Config, locks: seq<LockRecord>, leaves: seq<ReturnLeaf>,
      burns: seq<BurnWitness>, n: u64)
    requires TokensKept(sdk, w, config) && LocksBind(sdk, w, config, locks)
    requires AllReturned(sdk, w, config, locks, leaves, burns) && Distinct(Nullifiers(leaves))
    ensures Drawn(sdk, config, leaves, burns, n) <= if n < |locks| then locks[n].amount else 0
  {
    hide *;
    var at := p => AtNonce(sdk, config, p, n);
    var ps := Where(Pieces(burns), at);
    DrawnIsTotal(sdk, w, config, locks, leaves, burns, n, at);
    forall p | p in ps
      ensures n < |locks| && PieceOk(sdk, w, config, p) && BurnsReason(sdk, config, p.token)
      ensures Refs(sdk, config, p) == [LockRef(n, StoredDigest(sdk, config, locks, n))]
    {
      var i :| 0 <= i < |burns| && p == PieceOf(burns[i]);
      ReturnedAt(sdk, w, config, locks, leaves, burns, i);
      TokenOf(burns[i]);
      NonceRef(sdk, w, config, locks, leaves[i], burns[i], n);
    }
    if ps == [] {
      NoTotal(sdk, config, ps);
    } else {
      assert ps[0] in ps;
      PiecesDiffer(sdk, w, config, locks, leaves, burns);
      WhereDistinct(Pieces(burns), at);
      LockNamed(sdk, w, config, locks, n);
      var ref := LockRef(n, StoredDigest(sdk, config, locks, n));
      AllAre(sdk, w, config, ps, ref);
      LockConserved(sdk, w, config, ps, ref, locks[n].tokenId, locks[n].amount);
    }
  }

  lemma TokenOf(burn: BurnWitness)
    ensures PieceOf(burn).token == burn.token
  {
  }

  lemma AllAre(sdk: Sdk, w: World, config: Config, ps: seq<Piece>, ref: LockRef)
    requires forall p | p in ps :: PieceOk(sdk, w, config, p) && Refs(sdk, config, p) == [ref]
    ensures AllOk(sdk, w, config, ps) && FromLock(sdk, config, ps, ref)
  {
    hide PieceOk, Refs;
  }

  lemma ReturnedAt(sdk: Sdk, w: World, config: Config, locks: seq<LockRecord>, leaves: seq<ReturnLeaf>,
      burns: seq<BurnWitness>, i: nat)
    requires AllReturned(sdk, w, config, locks, leaves, burns) && i < |burns|
    ensures |leaves| == |burns|
    ensures Returned(sdk, w, config, leaves[i], burns[i]) && OnStoredLock(sdk, config, locks, burns[i])
  {
    hide Returned, OnStoredLock;
  }

  // ----- over all locks

  /** What is drawn on the locks below `k`. */
  ghost function DrawnBelow(sdk: Sdk, config: Config, leaves: seq<ReturnLeaf>, burns: seq<BurnWitness>, k: nat): nat
    requires |leaves| == |burns|
  {
    if k == 0 then 0
    else DrawnBelow(sdk, config, leaves, burns, k - 1) + Drawn(sdk, config, leaves, burns, k - 1)
  }

  lemma {:induction false} DrawnBelowPush(sdk: Sdk, config: Config, leaves: seq<ReturnLeaf>, burns: seq<BurnWitness>,
      k: nat)
    requires |leaves| == |burns| > 0 && BurnLock(sdk, config, burns[|burns| - 1]).Some?
    ensures var last := |burns| - 1;
            DrawnBelow(sdk, config, leaves, burns, k) == DrawnBelow(sdk, config, leaves[..last], burns[..last], k)
              + if BurnLock(sdk, config, burns[last]).value.nonce < k then Value(leaves[last].amount) else 0
  {
    hide BurnLock, Value;
    if k > 0 {
      DrawnBelowPush(sdk, config, leaves, burns, k - 1);
    }
  }

  lemma {:induction false} NothingDrawn(sdk: Sdk, config: Config, k: nat)
    ensures DrawnBelow(sdk, config, [], [], k) == 0
  {
    if k > 0 {
      NothingDrawn(sdk, config, k - 1);
    }
  }

  /** Everything released is drawn on some stored lock. */
  lemma {:induction false} AllDrawn(sdk: Sdk, w: World, config: Config, locks: seq<LockRecord>, leaves: seq<ReturnLeaf>,
      burns: seq<BurnWitness>)
    requires AllReturned(sdk, w, config, locks, leaves, burns)
    ensures AmountSum(leaves) == DrawnBelow(sdk, config, leaves, burns, |locks|)
  {
    hide Returned, BurnLock, Value, DrawnBelow, StoredDigest, BurnDigest;
    if burns == [] {
      NothingDrawn(sdk, config, |locks|);
    } else {
      var last := |burns| - 1;
      AllDrawn(sdk, w, config, locks, leaves[..last], burns[..last]);
      assert OnStoredLock(sdk, config, locks, burns[last]);
      DrawnBelowPush(sdk, config, leaves, burns, |locks|);
    }
  }

  lemma {:induction false} DrawnWithinLocked(sdk: Sdk, config: Config, locks: seq<LockRecord>, leaves: seq<ReturnLeaf>,
      burns: seq<BurnWitness>, k: nat)
    requires |leaves| == |burns| && k <= |locks| <= U64_LIMIT
    requires forall n: u64 :: Drawn(sdk, config, leaves, burns, n) <= if n < |locks| then locks[n].amount else 0
    ensures DrawnBelow(sdk, config, leaves, burns, k) <= Locked(locks[..k])
  {
    hide Drawn;
    if k > 0 {
      DrawnWithinLocked(sdk, config, locks, leaves, burns, k - 1);
      var n: u64 := k - 1;
      assert locks[..k][..k - 1] == locks[..k - 1];
    }
  }

  /** Over every run of settled batches, each lock is drawn on for at most its amount, and all
      releases together are at most all locks together. */
  lemma RunSolvent(sdk: Sdk, w: World, config: Config, locks: seq<LockRecord>, xs: seq<GuestInput>)
    requires CleanRun(sdk, xs) && Backed(sdk, config, locks, xs) && |locks| <= U64_LIMIT
    requires TokensKept(sdk, w, config) && LocksBind(sdk, w, config, locks) && Covers(w, Burns(xs))
    ensures |Leaves(xs)| == |Burns(xs)| && Nullifiers(Leaves(xs)) == Spent(xs)
    ensures forall n: u64 :: Drawn(sdk, config, Leaves(xs), Burns(xs), n) <= if n < |locks| then locks[n].amount else 0
    ensures AmountSum(Leaves(xs)) <= Locked(locks)
  {
    hide *;
    var leaves, burns := Leaves(xs), Burns(xs);
    WhatHolds(sdk, w, config, xs);
    RunReturned(sdk, w, config, locks, xs);
    RunSafe(sdk, xs);
    SameCount(sdk, w, config, locks, leaves, burns);
    forall n: u64
      ensures Drawn(sdk, config, leaves, burns, n) <= if n < |locks| then locks[n].amount else 0
    {
      LockNeverOverdrawn(sdk, w, config, locks, leaves, burns, n);
    }
    AllDrawn(sdk, w, config, locks, leaves, burns);
    DrawnWithinLocked(sdk, config, locks, leaves, burns, |locks|);
    assert locks[..|locks|] == locks;
  }

  lemma WhatHolds(sdk: Sdk, w: World, config: Config, xs: seq<GuestInput>)
    requires CleanRun(sdk, xs) && TokensKept(sdk, w, config)
    ensures Settles(sdk, xs) && AllocationSound(sdk) && Closed(w)
  {
    hide Settles, AllocationSound, Closed, SpentOnce, OneReading, AllocationsShare;
  }

  lemma SameCount(sdk: Sdk, w: World, config: Config, locks: seq<LockRecord>, leaves: seq<ReturnLeaf>,
      burns: seq<BurnWitness>)
    requires AllReturned(sdk, w, config, locks, leaves, burns)
    ensures |leaves| == |burns|
  {
  }

  /** What the contract has released, at any time, is covered by what was locked with it. */
  lemma VaultSolvent(vault: Contract, w: World)
    requires vault.Valid() && CollisionFree(vault.sdk.sha256, RunInputs(vault.sdk, vault.settled))
    requires TokensKept(vault.sdk, w, vault.config) && LocksBind(vault.sdk, w, vault.config, vault.locks)
    requires Covers(w, Burns(vault.settled))
    ensures AmountSum(Leaves(vault.settled)) <= Locked(vault.locks)
    ensures |Leaves(vault.settled)| == |Burns(vault.settled)|
    ensures forall n: u64 :: Drawn(vault.sdk, vault.config, Leaves(vault.settled), Burns(vault.settled), n)
                          <= if n < |vault.locks| then vault.locks[n].amount else 0
  {
    hide TokensKept, LocksBind, Covers, Settles, StepsOf, RootAfter, Emitted, StoredDigest, Backed, CollisionFree,
      Leaves, Burns, Drawn, AmountSum, Locked, RunInputs;
    RunSolvent(vault.sdk, w, vault.config, vault.locks, vault.settled);
  }

  // ----- the vault can always pay

  lemma {:induction false} LockedFits(locks: seq<LockRecord>)
    ensures Locked(locks) <= |locks| * (U64_LIMIT - 1)
  {
    if locks != [] {
      LockedFits(locks[..|locks| - 1]);
    }
  }

  /** What is left of the locks is free, besides all that is owed; so every credit can be withdrawn. */
  lemma CreditsPayable(vault: Contract, w: World, a: Address)
    requires vault.Valid() && CollisionFree(vault.sdk.sha256, RunInputs(vault.sdk, vault.settled))
    requires TokensKept(vault.sdk, w, vault.config) && LocksBind(vault.sdk, w, vault.config, vault.locks)
    requires Covers(w, Burns(vault.settled))
    ensures vault.funds.balance >= Owing(vault.funds.owed) + (Locked(vault.locks) - AmountSum(Leaves(vault.settled)))
    ensures Owing(vault.funds.owed) <= vault.funds.balance && OwedTo(vault.funds, a) <= vault.funds.balance
    ensures var cleared := vault.funds.(owed := vault.funds.owed[a := 0]);
            Send(cleared, vault.config.vault, true, a, OwedTo(vault.funds, a)).Some?
  {
    hide TokensKept, LocksBind, Covers, Settles, StepsOf, RootAfter, Emitted, StoredDigest, Backed, CollisionFree,
      Leaves, Burns, Drawn, AmountSum, Locked, RunInputs, Owing;
    VaultSolvent(vault, w);
    OwingSet(vault.funds, a, 0);
  }

  /** The next batch that settles, whichever it is, is covered by what is free. */
  lemma NextCovered(vault: Contract, w: World, x: GuestInput)
    requires vault.Valid() && SettlesOn(vault.sdk, vault.spentRoot, x)
    requires BatchBacked(vault.sdk, vault.config, vault.locks, x)
    requires CollisionFree(vault.sdk.sha256, RunInputs(vault.sdk, vault.settled + [x]))
    requires TokensKept(vault.sdk, w, vault.config) && LocksBind(vault.sdk, w, vault.config, vault.locks)
    requires Covers(w, Burns(vault.settled + [x]))
    ensures FeesWithin(x.leaves)
    ensures AmountSum(x.leaves) + Owing(vault.funds.owed) <= vault.funds.balance
    ensures AmountSum(x.leaves) + Owing(vault.funds.owed) < WORD
  {
    hide TokensKept, LocksBind, Covers, StepsOf, RootAfter, Emitted, StoredDigest, BatchBacked, CollisionFree, Leaves,
      Burns, Drawn, AmountSum, Locked, RunInputs, Owing, SettlesOn, FeesWithin;
    var xs := vault.settled + [x];
    assert xs[..|xs| - 1] == vault.settled && xs[|xs| - 1] == x;
    assert Backed(vault.sdk, vault.config, vault.locks, xs);
    RunSolvent(vault.sdk, w, vault.config, vault.locks, xs);
    LeavesPush(vault.settled, x);
    AmountsJoin(Leaves(vault.settled), x.leaves);
    LockedFits(vault.locks);
    LockSumFits(|vault.locks|, Locked(vault.locks));
    SettledAccepted(vault.sdk, vault.spentRoot, x);
    AcceptedFees(vault.sdk, w, vault.config, x);
  }

  lemma LeavesPush(xs: seq<GuestInput>, x: GuestInput)
    ensures Leaves(xs + [x]) == Leaves(xs) + x.leaves
  {
    assert (xs + [x])[..|xs|] == xs;
  }

  lemma AcceptedFees(sdk: Sdk, w: World, config: Config, x: GuestInput)
    requires TokensKept(sdk, w, config) && Accepted(sdk, x)
    ensures FeesWithin(x.leaves)
  {
    hide *;
    TokensSound(sdk, w, config);
    AcceptedShape(sdk, x);
    var obligations := CheckBurns(sdk, x.config, x.publicValues.trustBaseHash, x.leaves, x.burns).value;
    BatchLocks(sdk, x, obligations);
    forall i | 0 <= i < |x.leaves|
      ensures Value(x.leaves[i].feeAmount) <= Value(x.leaves[i].amount)
    {
      BackedFee(sdk, x.config, x.leaves[i], x.burns[i], obligations[i]);
    }
    AllFeesWithin(x.leaves);
  }

  lemma TokensSound(sdk: Sdk, w: World, config: Config)
    requires TokensKept(sdk, w, config)
    ensures AllocationSound(sdk)
  {
    hide AllocationSound, Closed, SpentOnce, OneReading, AllocationsShare;
  }

  lemma BackedFee(sdk: Sdk, config: Config, leaf: ReturnLeaf, burn: BurnWitness, ref: LockRef)
    requires BurnBacked(sdk, config, leaf, burn, ref)
    ensures Value(leaf.feeAmount) <= Value(leaf.amount)
  {
    hide Value, Coin, BurnDigest, BurnLock;
  }

  lemma AllFeesWithin(leaves: seq<ReturnLeaf>)
    requires forall i | 0 <= i < |leaves| :: Value(leaves[i].feeAmount) <= Value(leaves[i].amount)
    ensures FeesWithin(leaves)
  {
    hide Value;
  }

  /** No settlement fails for want of funds: a batch the relation accepts on the vault's root, with
      references the vault stores, is paid in full at any time, pushed or credited, as long as the
      asset does not refuse. */
  lemma NextPayable(vault: Contract, w: World, x: GuestInput, now: nat)
    requires vault.Valid() && SettlesOn(vault.sdk, vault.spentRoot, x)
    requires BatchBacked(vault.sdk, vault.config, vault.locks, x)
    requires CollisionFree(vault.sdk.sha256, RunInputs(vault.sdk, vault.settled + [x]))
    requires TokensKept(vault.sdk, w, vault.config) && LocksBind(vault.sdk, w, vault.config, vault.locks)
    requires Covers(w, Burns(vault.settled + [x]))
    ensures FeesWithin(x.leaves)
    ensures Payable(vault.funds, vault.Paying(), true, now, x.leaves)
  {
    hide *;
    NextCovered(vault, w, x);
    Covered(vault.funds, vault.Paying(), AmountSum(x.leaves));
    PayAllSucceeds(vault.funds, vault.Paying(), true, now, x.leaves, 0);
    CreditsFit(vault);
    PaysWell(vault.funds, vault.Paying(), true, now, x.leaves, vault.locks, vault.settled);
  }

  lemma CreditsFit(vault: Contract)
    requires vault.Valid()
    ensures Solid(vault.funds, vault.locks, vault.settled)
  {
    hide Solid, Settles, StepsOf, RootAfter, Emitted, Backed, DigestsStored;
  }

  lemma Covered(f: Funds, mode: Mode, value: nat)
    requires value + Owing(f.owed) <= f.balance && value + Owing(f.owed) < WORD
    ensures CanCover(f, mode, true, value + 0, Owing(f.owed))
  {
    hide Owing, Pow256;
  }
}
