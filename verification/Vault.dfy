/**
 * The vault's settlement step, and what holds over every run of it: no nullifier is ever released
 * twice, the stored root commits to exactly the released nullifiers, and the event log gives
 * both back.
 */
module Vault {
  import opened ByteWords
  import opened Wrappers
  import opened BigEndian
  import opened SparseTree
  import opened Accumulator
  import opened Rebuild
  import opened ReturnCore
  import opened BridgeTokens
  import opened GuestRelation
  import opened Payouts
  import EventGrouping
  import StableSort

  // ----- runs

  function StepOf(x: GuestInput): Transition {
    Transition(Nullifiers(x.leaves), x.publicValues.spentRootOld, x.publicValues.spentRootNew)
  }

  function StepsOf(xs: seq<GuestInput>): (steps: seq<Transition>)
    ensures |steps| == |xs|
  {
    if xs == [] then [] else StepsOf(xs[..|xs| - 1]) + [StepOf(xs[|xs| - 1])]
  }

  /** One settled batch: the relation holds and it starts from the root the vault stores. */
  ghost predicate SettlesOn(sdk: Sdk, root: Bytes32, x: GuestInput) {
    && Execute(sdk, x) == Ok(x.publicValues)
    && x.publicValues.spentRootOld == root
    && x.publicValues.batchSize == |x.leaves|
  }

  /** A run: every batch settles on the root the one before it left, the first on the empty root. */
  ghost predicate Settles(sdk: Sdk, xs: seq<GuestInput>) {
    xs == [] || (Settles(sdk, xs[..|xs| - 1]) && SettlesOn(sdk, RootAfter(StepsOf(xs[..|xs| - 1])), xs[|xs| - 1]))
  }

  /** The nullifiers released by a run, in order. */
  function Spent(xs: seq<GuestInput>): seq<Bytes32> {
    Keys(StepsOf(xs))
  }

  /** The inputs hashed by the accumulator over a run: by the guest on its witnesses, and by the
      trees the run passes through. */
  ghost function RunInputs(sdk: Sdk, xs: seq<GuestInput>): set<Bytes>
  {
    if xs == [] then {}
    else
      var init, x := xs[..|xs| - 1], xs[|xs| - 1];
      RunInputs(sdk, init)
        + if |x.leaves| == |x.witnesses| then
            FoldInputs(sdk.sha256, SeqSet(Spent(init)), Nullifiers(x.leaves), x.witnesses)
          else {}
  }

  lemma {:induction false} RunShape(sdk: Sdk, xs: seq<GuestInput>, i: nat)
    requires Settles(sdk, xs) && i < |xs|
    ensures 0 < |xs[i].leaves| == |xs[i].witnesses|
    decreases |xs|
  {
    hide *;
    var last := |xs| - 1;
    SettlesPrefix(sdk, xs);
    if i < last {
      RunShape(sdk, xs[..last], i);
    } else {
      SettledShape(sdk, RootAfter(StepsOf(xs[..last])), xs[last]);
    }
  }

  lemma SettlesPrefix(sdk: Sdk, xs: seq<GuestInput>)
    requires Settles(sdk, xs) && xs != []
    ensures Settles(sdk, xs[..|xs| - 1]) && SettlesOn(sdk, RootAfter(StepsOf(xs[..|xs| - 1])), xs[|xs| - 1])
  {
    hide SettlesOn, StepsOf, RootAfter;
  }

  lemma SettledShape(sdk: Sdk, root: Bytes32, x: GuestInput)
    requires SettlesOn(sdk, root, x)
    ensures 0 < |x.leaves| == |x.witnesses| && x.publicValues.batchSize == |x.leaves|
    ensures FoldInserts(sdk.sha256, root, Nullifiers(x.leaves), x.witnesses) == Some(x.publicValues.spentRootNew)
  {
    hide Execute;
    AcceptedShape(sdk, x);
  }

  ghost predicate CleanRun(sdk: Sdk, xs: seq<GuestInput>) {
    Settles(sdk, xs) && CollisionFree(sdk.sha256, RunInputs(sdk, xs))
  }

  lemma CleanPrefix(sdk: Sdk, xs: seq<GuestInput>)
    requires CleanRun(sdk, xs) && xs != []
    ensures CleanRun(sdk, xs[..|xs| - 1])
    ensures var init, x := xs[..|xs| - 1], xs[|xs| - 1];
            && |x.leaves| == |x.witnesses|
            && CollisionFree(sdk.sha256, FoldInputs(sdk.sha256, SeqSet(Spent(init)), Nullifiers(x.leaves), x.witnesses))
  {
    hide CollisionFree, FoldInputs, SettlesOn;
    RunShape(sdk, xs, |xs| - 1);
    var init, x := xs[..|xs| - 1], xs[|xs| - 1];
    CollisionFreeSubset(sdk.sha256, RunInputs(sdk, init), RunInputs(sdk, xs));
    CollisionFreeSubset(sdk.sha256, FoldInputs(sdk.sha256, SeqSet(Spent(init)), Nullifiers(x.leaves), x.witnesses),
      RunInputs(sdk, xs));
  }

  /** Every run of accepted batches is a valid chain of accumulator steps. */
  lemma {:induction false} RunChains(sdk: Sdk, xs: seq<GuestInput>)
    requires CleanRun(sdk, xs)
    ensures Chains(sdk.sha256, StepsOf(xs))
  {
    hide FoldInserts, FoldInputs, CollisionFree, RootOf, Fresh, RunInputs, SettlesOn;
    if xs != [] {
      var init, x := xs[..|xs| - 1], xs[|xs| - 1];
      CleanPrefix(sdk, xs);
      RunChains(sdk, init);
      ChainFacts(sdk.sha256, StepsOf(init));
      SettledShape(sdk, RootAfter(StepsOf(init)), x);
      RunExtends(sdk, init, x);
      ChainPush(sdk.sha256, StepsOf(init), StepOf(x));
    }
  }

  lemma RunExtends(sdk: Sdk, init: seq<GuestInput>, x: GuestInput)
    requires SettlesOn(sdk, RootAfter(StepsOf(init)), x) && |x.leaves| == |x.witnesses|
    requires CollisionFree(sdk.sha256, FoldInputs(sdk.sha256, SeqSet(Spent(init)), Nullifiers(x.leaves), x.witnesses))
    requires RootAfter(StepsOf(init)) == RootOf(sdk.sha256, SeqSet(Spent(init)))
    ensures Continues(sdk.sha256, StepsOf(init), StepOf(x))
  {
    hide FoldInserts, FoldInputs, CollisionFree, RootOf, Fresh, Execute;
    SettledShape(sdk, RootAfter(StepsOf(init)), x);
    FoldSound(sdk.sha256, SeqSet(Spent(init)), Nullifiers(x.leaves), x.witnesses);
  }

  /** Safety over every run of settled batches: all released nullifiers are pairwise distinct, and
      the current root is the root of exactly that set. */
  lemma RunSafe(sdk: Sdk, xs: seq<GuestInput>)
    requires CleanRun(sdk, xs)
    ensures Distinct(Spent(xs))
    ensures RootAfter(StepsOf(xs)) == RootOf(sdk.sha256, SeqSet(Spent(xs)))
  {
    hide CleanRun, Keys, StepsOf, RootAfter, Chains, Distinct, RootOf, SeqSet;
    RunChains(sdk, xs);
    ChainFacts(sdk.sha256, StepsOf(xs));
  }

  // ----- the log gives the run back

  lemma {:induction false} StartInputs(h: Hash, spent: set<Bytes32>, keys: seq<Bytes32>, ws: seq<Witness>)
    requires 0 < |keys| == |ws|
    ensures RootInputs(h, spent) <= FoldInputs(h, spent, keys, ws)
  {
    hide RootInputs, VerifierInputs;
    var last := |keys| - 1;
    if last == 0 {
      assert SeqSet(keys[..last]) == {};
      assert spent + {} == spent;
    } else {
      StartInputs(h, spent, keys[..last], ws[..last]);
    }
  }

  lemma {:induction false} PrefixSteps(xs: seq<GuestInput>, n: nat)
    requires n <= |xs|
    ensures StepsOf(xs)[..n] == StepsOf(xs[..n])
    ensures n < |xs| ==> StepsOf(xs)[n] == StepOf(xs[n])
  {
    hide StepOf;
    if n < |xs| {
      var last := |xs| - 1;
      PrefixSteps(xs[..last], n);
      assert xs[..last][..n] == xs[..n];
    } else {
      assert xs[..n] == xs;
    }
  }

  lemma {:induction false} StartsListed(sdk: Sdk, xs: seq<GuestInput>, n: nat)
    requires Settles(sdk, xs) && n < |xs|
    ensures RootInputs(sdk.sha256, SeqSet(Spent(xs[..n]))) <= RunInputs(sdk, xs)
  {
    hide RootInputs, FoldInputs, SettlesOn, Keys, StepsOf, RootAfter;
    var last := |xs| - 1;
    RunShape(sdk, xs, last);
    if n < last {
      StartsListed(sdk, xs[..last], n);
      assert xs[..last][..n] == xs[..n];
    } else {
      StartInputs(sdk.sha256, SeqSet(Spent(xs[..last])), Nullifiers(xs[last].leaves), xs[last].witnesses);
    }
  }

  lemma RunRootsDiffer(sdk: Sdk, xs: seq<GuestInput>, i: nat, j: nat)
    requires CleanRun(sdk, xs) && i < j < |xs|
    ensures StepsOf(xs)[i].rootOld != StepsOf(xs)[j].rootOld
  {
    hide CollisionFree, RootInputs, RunInputs, Settles, Chains, StepsOf, Keys;
    RunChains(sdk, xs);
    StartsListed(sdk, xs, i);
    StartsListed(sdk, xs, j);
    PrefixSteps(xs, i);
    PrefixSteps(xs, j);
    var one, other := SeqSet(Spent(xs[..i])), SeqSet(Spent(xs[..j]));
    CollisionFreeSubset(sdk.sha256, RootInputs(sdk.sha256, one) + RootInputs(sdk.sha256, other), RunInputs(sdk, xs));
    RootsDiffer(sdk.sha256, StepsOf(xs), i, j);
  }

  /** The run is the history of its own steps: whatever log names exactly these steps, in any order
      and any number of copies, rebuilds to the vault's root and nullifiers. */
  lemma RunIsItsHistory(sdk: Sdk, xs: seq<GuestInput>)
    requires CleanRun(sdk, xs)
    ensures History(sdk.sha256, SeqSet(StepsOf(xs))) == Some(StepsOf(xs))
  {
    hide CleanRun, Chains, StepsOf, Keys, RootOf;
    var h, steps := sdk.sha256, StepsOf(xs);
    RunChains(sdk, xs);
    forall t, i | t in SeqSet(steps) && 0 <= i < |steps| && t.rootOld == steps[i].rootOld
      ensures t == steps[i]
    {
      var j := IndexIn(steps, t);
      if i < j {
        RunRootsDiffer(sdk, xs, i, j);
      } else if j < i {
        RunRootsDiffer(sdk, xs, j, i);
      }
    }
    assert IsHistory(h, SeqSet(steps), steps);
    HistoryUnique(h, SeqSet(steps), steps, History(h, SeqSet(steps)).value);
  }

  function BatchOf(x: GuestInput, txid: Option<string>): (batch: SettledBatch)
    ensures batch.Step() == StepOf(x)
  {
    SettledBatch(Nullifiers(x.leaves), x.publicValues.spentRootOld, x.publicValues.spentRootNew, txid)
  }

  /** The settled batches of a run as the chain names them. */
  function SettledBatches(xs: seq<GuestInput>, txids: seq<Option<string>>): (batches: seq<SettledBatch>)
    requires |txids| == |xs|
    ensures |batches| == |xs|
    ensures forall i | 0 <= i < |xs| :: batches[i] == BatchOf(xs[i], txids[i])
  {
    if xs == [] then []
    else
      var last := |xs| - 1;
      SettledBatches(xs[..last], txids[..last]) + [BatchOf(xs[last], txids[last])]
  }

  lemma {:induction false} BatchSteps(xs: seq<GuestInput>, txids: seq<Option<string>>)
    requires |txids| == |xs|
    ensures Rebuild.Steps(SettledBatches(xs, txids)) == SeqSet(StepsOf(xs))
  {
    hide StepOf;
    if xs != [] {
      var last := |xs| - 1;
      BatchSteps(xs[..last], txids[..last]);
      var init, batch := SettledBatches(xs[..last], txids[..last]), SettledBatches(xs, txids)[last];
      assert SettledBatches(xs, txids) == init + [batch];
      assert Rebuild.Steps(init + [batch]) == Rebuild.Steps(init) + {batch.Step()};
      SeqSetPush(StepsOf(xs[..last]), StepOf(xs[last]));
    }
  }

  /** End to end: from the events of a run, interleaved with any others and in any order, grouping
      and rebuilding recover the vault's root and exactly the released nullifiers. */
  method RecoverFromEvents(sdk: Sdk, ghost xs: seq<GuestInput>, ghost txids: seq<Option<string>>,
      ghost trace: seq<EventGrouping.Event>, events: seq<EventGrouping.Event>)
    returns (r: Option<Rebuilt>)
    requires CleanRun(sdk, xs) && |txids| == |xs|
    requires EventGrouping.EmittedBy(trace, SettledBatches(xs, txids)) && multiset(trace) == multiset(events)
    ensures r.Some? && fresh(r.value.tree) && r.value.tree.Valid()
    ensures r.value.spentRoot == RootAfter(StepsOf(xs))
    ensures r.value.tree.Contents() == SeqSet(Spent(xs)) && r.value.spentCount == |Spent(xs)|
  {
    hide CleanRun, EventGrouping.EmittedBy, StepsOf, RootAfter, RootOf, Chains;
    EventGrouping.GroupingInvertsEmission(trace, SettledBatches(xs, txids), events);
    BatchSteps(xs, txids);
    RunIsItsHistory(sdk, xs);
    RunSafe(sdk, xs);
    DistinctSize(Spent(xs));
    var grouped := EventGrouping.GroupBatches(events);
    r := Rebuild.Rebuild(sdk.sha256, grouped.value);
  }

  // ----- releases against the locks the vault holds

  datatype LockRecord = LockRecord(amount: u64, tokenId: Bytes32, recipientCommitment: Bytes32)

  /** What the vault stores for a nonce; a nonce never given out reads as zero. */
  function StoredDigest(sdk: Sdk, config: Config, locks: seq<LockRecord>, nonce: u64): Bytes32 {
    if nonce < |locks| then
      sdk.lockDigest(config, nonce, Encode(locks[nonce].amount, 32), locks[nonce].tokenId,
        locks[nonce].recipientCommitment)
    else ZERO32
  }

  /** Keccak keeps the lock digests of a batch apart from the vault's: none is zero, and one
      digest means one lock. */
  ghost predicate DigestsBind(sdk: Sdk, config: Config, locks: seq<LockRecord>, burns: seq<BurnWitness>) {
    forall b | b in burns && BurnLock(sdk, config, b).Some? :: DigestBinds(sdk, config, locks, b)
  }

  ghost predicate DigestBinds(sdk: Sdk, config: Config, locks: seq<LockRecord>, burn: BurnWitness)
    requires BurnLock(sdk, config, burn).Some?
  {
    var lock := BurnLock(sdk, config, burn).value;
    && BurnDigest(sdk, config, burn) != ZERO32
    && (lock.nonce < |locks| && BurnDigest(sdk, config, burn) == StoredDigest(sdk, config, locks, lock.nonce) ==>
          Encode(lock.amount, 32) == Encode(locks[lock.nonce].amount, 32))
  }

  /** The guest's reference to a lock the vault stores is the stored one: for a token minted from that
      lock, of its amount, its token id and the recipient it commits to. */
  lemma LockRefStored(sdk: Sdk, config: Config, locks: seq<LockRecord>, mint: Mint, tag: u64, lock: LockJustification)
    requires MintedFrom(sdk, mint, tag, config, lock) && lock.nonce < |locks|
    requires locks[lock.nonce] == LockRecord(lock.amount, mint.tokenId, sdk.sha256.digest(mint.recipient))
    ensures BridgeLockObligation(sdk, mint, tag, config).Ok?
    ensures var ref := BridgeLockObligation(sdk, mint, tag, config).value;
            ref.nonce == lock.nonce && ref.digest == StoredDigest(sdk, config, locks, ref.nonce)
  {
    hide MintedFrom, BridgeLockObligation, Encode;
    DirectLockIff(sdk, mint, tag, config);
  }

  ghost predicate RefsStored(sdk: Sdk, config: Config, locks: seq<LockRecord>, refs: seq<LockRef>) {
    forall r | r in refs :: StoredDigest(sdk, config, locks, r.nonce) == r.digest
  }

  ghost predicate RefsInRange(locks: seq<LockRecord>, refs: seq<LockRef>) {
    forall r | r in refs :: r.nonce < |locks|
  }

  /** What the named locks hold together. */
  function Held(locks: seq<LockRecord>, refs: seq<LockRef>): nat {
    if refs == [] then 0
    else
      var last := refs[|refs| - 1];
      Held(locks, refs[..|refs| - 1]) + if last.nonce < |locks| then locks[last.nonce].amount else 0
  }

  lemma {:induction false} HeldSplit(locks: seq<LockRecord>, a: seq<LockRef>, x: LockRef, b: seq<LockRef>)
    ensures Held(locks, a + [x] + b) == Held(locks, a + b) + Held(locks, [x])
  {
    if b == [] {
      assert a + [x] + b == a + [x] && a + b == a;
      assert (a + [x])[..|a|] == a;
    } else {
      var last := |b| - 1;
      HeldSplit(locks, a, x, b[..last]);
      assert (a + [x] + b)[..|a| + 1 + last] == a + [x] + b[..last];
      assert (a + b)[..|a| + last] == a + b[..last];
    }
  }

  /** Where the last element of one arrangement stands in another, and what is left of both. */
  lemma TakeOut<T>(a: seq<T>, b: seq<T>) returns (k: nat)
    requires a != [] && multiset(a) == multiset(b)
    ensures k < |b| && b == b[..k] + [a[|a| - 1]] + b[k + 1..]
    ensures multiset(a[..|a| - 1]) == multiset(b[..k] + b[k + 1..])
  {
    var x := a[|a| - 1];
    assert a == a[..|a| - 1] + [x];
    assert x in multiset(b);
    k :| 0 <= k < |b| && b[k] == x;
    assert b == b[..k] + [x] + b[k + 1..];
    Without(a[..|a| - 1], x, []);
    Without(b[..k], x, b[k + 1..]);
    assert a[..|a| - 1] + [x] + [] == a && a[..|a| - 1] + [] == a[..|a| - 1];
  }

  lemma Without<T>(a: seq<T>, x: T, b: seq<T>)
    ensures multiset(a + b) == multiset(a + [x] + b) - multiset{x}
  {
    assert multiset(a + [x] + b) == multiset(a + b) + multiset{x};
  }

  /** The order of the references does not matter. */
  lemma {:induction false} HeldPermutes(locks: seq<LockRecord>, a: seq<LockRef>, b: seq<LockRef>)
    requires multiset(a) == multiset(b)
    ensures Held(locks, a) == Held(locks, b)
  {
    if a == [] {
      assert |multiset(b)| == 0;
    } else {
      hide Held;
      var init, x := a[..|a| - 1], a[|a| - 1];
      var k := TakeOut(a, b);
      HeldPermutes(locks, init, b[..k] + b[k + 1..]);
      HeldSplit(locks, b[..k], x, b[k + 1..]);
      HeldSplit(locks, init, x, []);
      assert init + [x] + [] == a && init + [] == init;
    }
  }

  lemma OneHeld(sdk: Sdk, config: Config, locks: seq<LockRecord>, leaf: ReturnLeaf, burn: BurnWitness, r: LockRef)
    requires BurnBacked(sdk, config, leaf, burn, r)
    requires StoredDigest(sdk, config, locks, r.nonce) == r.digest
    requires DigestBinds(sdk, config, locks, burn)
    ensures r.nonce < |locks| && Value(leaf.amount) <= locks[r.nonce].amount
  {
    hide Value, Encode, Pow256, Coin, BurnDigest;
    var amount := BurnLock(sdk, config, burn).value.amount;
    if r.nonce < |locks| {
      assert amount < Pow256(32) && locks[r.nonce].amount < Pow256(32) by {
        WordIs();
      }
      ValueEncode(amount, 32);
      ValueEncode(locks[r.nonce].amount, 32);
    }
  }

  lemma {:induction false} AllHeld(sdk: Sdk, config: Config, locks: seq<LockRecord>, leaves: seq<ReturnLeaf>,
      burns: seq<BurnWitness>, refs: seq<LockRef>)
    requires |leaves| == |burns| == |refs| && RefsStored(sdk, config, locks, refs)
    requires forall i | 0 <= i < |burns| :: BurnBacked(sdk, config, leaves[i], burns[i], refs[i])
    requires DigestsBind(sdk, config, locks, burns)
    ensures AmountSum(leaves) <= Held(locks, refs) && RefsInRange(locks, refs)
  {
    hide BurnBacked, Value, DigestBinds, StoredDigest, BurnLock;
    if burns != [] {
      var last := |burns| - 1;
      AllHeld(sdk, config, locks, leaves[..last], burns[..last], refs[..last]);
      BackedHasLock(sdk, config, leaves[last], burns[last], refs[last]);
      InSeqSet(burns, last);
      OneHeld(sdk, config, locks, leaves[last], burns[last], refs[last]);
    }
  }

  /** A batch whose lock references are the vault's releases no more than what is locked under
      the distinct nonces it names. */
  lemma ReleasesWithinLocks(sdk: Sdk, locks: seq<LockRecord>, x: GuestInput)
    requires AllocationSound(sdk) && Accepted(sdk, x)
    requires RefsStored(sdk, x.config, locks, x.lockRefs) && DigestsBind(sdk, x.config, locks, x.burns)
    ensures StrictlyIncreasing(x.lockRefs) && RefsInRange(locks, x.lockRefs)
    ensures AmountSum(x.leaves) <= Held(locks, x.lockRefs)
  {
    hide *;
    AcceptedShape(sdk, x);
    var obligations := CheckBurns(sdk, x.config, x.publicValues.trustBaseHash, x.leaves, x.burns).value;
    BatchLocks(sdk, x, obligations);
    RefsPermute(sdk, x.config, locks, x.lockRefs, obligations);
    AllHeld(sdk, x.config, locks, x.leaves, x.burns, obligations);
    HeldPermutes(locks, x.lockRefs, obligations);
  }

  lemma RefsPermute(sdk: Sdk, config: Config, locks: seq<LockRecord>, a: seq<LockRef>, b: seq<LockRef>)
    requires multiset(a) == multiset(b)
    ensures RefsStored(sdk, config, locks, a) ==> RefsStored(sdk, config, locks, b)
    ensures RefsInRange(locks, b) ==> RefsInRange(locks, a)
  {
    hide StoredDigest;
    SameMembers(a, b);
  }

  lemma BackedHasLock(sdk: Sdk, config: Config, leaf: ReturnLeaf, burn: BurnWitness, r: LockRef)
    requires BurnBacked(sdk, config, leaf, burn, r)
    ensures BurnLock(sdk, config, burn).Some?
  {
  }

  lemma SameMembers<T>(a: seq<T>, b: seq<T>)
    requires multiset(a) == multiset(b)
    ensures forall x :: x in a <==> x in b
  {
    assert forall x :: x in a <==> x in multiset(a);
    assert forall x :: x in b <==> x in multiset(b);
  }

  /** The batch is of this bridge, and every lock reference it names is stored. */
  ghost predicate BatchBacked(sdk: Sdk, config: Config, locks: seq<LockRecord>, x: GuestInput) {
    && x.config == config
    && forall r | r in x.lockRefs :: r.digest == ZERO32 || RefHeld(sdk, config, locks, r)
  }

  ghost predicate RefHeld(sdk: Sdk, config: Config, locks: seq<LockRecord>, r: LockRef) {
    r.nonce < |locks| && StoredDigest(sdk, config, locks, r.nonce) == r.digest
  }

  ghost predicate Backed(sdk: Sdk, config: Config, locks: seq<LockRecord>, xs: seq<GuestInput>) {
    forall x | x in xs :: BatchBacked(sdk, config, locks, x)
  }

  lemma BackedMore(sdk: Sdk, config: Config, locks: seq<LockRecord>, xs: seq<GuestInput>, x: GuestInput)
    requires Backed(sdk, config, locks, xs) && x.config == config && RefsStored(sdk, config, locks, x.lockRefs)
    ensures Backed(sdk, config, locks, xs + [x])
  {
  }

  /** New locks leave the stored ones as they are. */
  lemma BackedByMore(sdk: Sdk, config: Config, locks: seq<LockRecord>, lock: LockRecord, xs: seq<GuestInput>)
    requires Backed(sdk, config, locks, xs)
    ensures Backed(sdk, config, locks + [lock], xs)
  {
    hide Encode;
    forall x, r | x in xs && r in x.lockRefs && r.digest != ZERO32
      ensures RefHeld(sdk, config, locks + [lock], r)
    {
      assert BatchBacked(sdk, config, locks, x);
      assert RefHeld(sdk, config, locks, r);
    }
  }

  // ----- the contract

  /** Nonce n holds the digest of the n-th lock. */
  ghost predicate DigestsStored(sdk: Sdk, config: Config, locks: seq<LockRecord>, lockDigest: seq<Bytes32>) {
    && |lockDigest| == |locks| <= U64_LIMIT
    && forall n | 0 <= n < |locks| :: lockDigest[n] == StoredDigest(sdk, config, locks, n)
  }

  /** The lock references are sorted, without repeats, and stored. */
  method CheckRefs(sdk: Sdk, config: Config, ghost locks: seq<LockRecord>, lockDigest: seq<Bytes32>,
      lockRefs: seq<LockRef>) returns (ok: bool)
    requires DigestsStored(sdk, config, locks, lockDigest)
    ensures ok <==> StrictlyIncreasing(lockRefs) && RefsStored(sdk, config, locks, lockRefs)
  {
    hide StoredDigest, StrictlyIncreasing, RefsStored;
    NoRefs(sdk, config, locks);
    assert lockRefs[..0] == [];
    for i := 0 to |lockRefs|
      invariant StrictlyIncreasing(lockRefs[..i]) && RefsStored(sdk, config, locks, lockRefs[..i])
    {
      RefsExtend(sdk, config, locks, lockRefs, i);
      if i > 0 && lockRefs[i].nonce <= lockRefs[i - 1].nonce {
        return false;
      }
      var nonce := lockRefs[i].nonce;
      var stored := if nonce < |lockDigest| then lockDigest[nonce] else ZERO32;
      StoredBeyond(sdk, config, locks, nonce);
      if stored != lockRefs[i].digest {
        return false;
      }
    }
    assert lockRefs[..|lockRefs|] == lockRefs;
    ok := true;
  }

  lemma NoRefs(sdk: Sdk, config: Config, locks: seq<LockRecord>)
    ensures StrictlyIncreasing([]) && RefsStored(sdk, config, locks, [])
  {
  }

  /** One reference more passes exactly when it is above the one before it and stored. */
  lemma RefsExtend(sdk: Sdk, config: Config, locks: seq<LockRecord>, refs: seq<LockRef>, i: nat)
    requires i < |refs| && StrictlyIncreasing(refs[..i]) && RefsStored(sdk, config, locks, refs[..i])
    ensures var above := i == 0 || refs[i - 1].nonce < refs[i].nonce;
            var stored := StoredDigest(sdk, config, locks, refs[i].nonce) == refs[i].digest;
            && (above && stored ==> StrictlyIncreasing(refs[..i + 1]) && RefsStored(sdk, config, locks, refs[..i + 1]))
            && (!above ==> !StrictlyIncreasing(refs))
            && (!stored ==> !RefsStored(sdk, config, locks, refs))
  {
  }

  lemma StoredBeyond(sdk: Sdk, config: Config, locks: seq<LockRecord>, nonce: u64)
    ensures nonce >= |locks| ==> StoredDigest(sdk, config, locks, nonce) == ZERO32
  {
  }

  /** Fees within amounts, and the checked sum equal to the stated total. */
  method CheckValue(leaves: seq<ReturnLeaf>, total: nat) returns (ok: bool)
    ensures ok <==> FeesWithin(leaves) && AmountSum(leaves) < WORD && AmountSum(leaves) == total
  {
    hide Value;
    var sum := 0;
    for i := 0 to |leaves|
      invariant FeesWithin(leaves[..i])
      invariant sum == AmountSum(leaves[..i]) < WORD
    {
      assert leaves[..i + 1][..i] == leaves[..i];
      assert leaves[..i + 1] == leaves[..i] + [leaves[i]];
      if Value(leaves[i].feeAmount) > Value(leaves[i].amount) {
        InSeqSet(leaves, i);
        return false;
      }
      sum := sum + Value(leaves[i].amount);
      if sum >= WORD {
        SumGrows(leaves, i + 1);
        return false;
      }
    }
    assert leaves[..|leaves|] == leaves;
    ok := sum == total;
  }

  // ----- everything released, everything locked

  function Leaves(xs: seq<GuestInput>): seq<ReturnLeaf> {
    if xs == [] then [] else Leaves(xs[..|xs| - 1]) + xs[|xs| - 1].leaves
  }

  function Locked(locks: seq<LockRecord>): nat {
    if locks == [] then 0 else Locked(locks[..|locks| - 1]) + locks[|locks| - 1].amount
  }

  /** Whatever was locked is still held, owed or was released; and only what was released is owed. */
  ghost predicate Solid(funds: Funds, locks: seq<LockRecord>, xs: seq<GuestInput>) {
    && funds.balance + AmountSum(Leaves(xs)) >= Locked(locks) + Owing(funds.owed)
    && Owing(funds.owed) <= AmountSum(Leaves(xs)) && OwedFits(funds)
  }

  lemma {:induction false} AmountsJoin(a: seq<ReturnLeaf>, b: seq<ReturnLeaf>)
    ensures AmountSum(a + b) == AmountSum(a) + AmountSum(b)
  {
    hide Value;
    if b == [] {
      assert a + b == a;
    } else {
      var last := |b| - 1;
      AmountsJoin(a, b[..last]);
      assert (a + b)[..|a| + last] == a + b[..last];
    }
  }

  lemma SolidAtFirst(funds: Funds)
    requires funds.owed == map[]
    ensures Solid(funds, [], [])
  {
  }

  lemma SolidLocked(funds: Funds, locks: seq<LockRecord>, lock: LockRecord, xs: seq<GuestInput>)
    requires Solid(funds, locks, xs)
    ensures Solid(funds.(balance := funds.balance + lock.amount), locks + [lock], xs)
  {
    hide Owing, AmountSum, Leaves;
    assert (locks + [lock])[..|locks|] == locks;
  }

  lemma SolidReceived(funds: Funds, value: nat, locks: seq<LockRecord>, xs: seq<GuestInput>)
    requires Solid(funds, locks, xs)
    ensures Solid(funds.(balance := funds.balance + value), locks, xs)
  {
    hide Owing, AmountSum, Leaves, Locked;
  }

  lemma SolidPaid(funds: Funds, paid: Funds, locks: seq<LockRecord>, xs: seq<GuestInput>, x: GuestInput)
    requires Solid(funds, locks, xs) && TakesAtMost(funds, paid, AmountSum(x.leaves)) && OwedFits(paid)
    ensures Solid(paid, locks, xs + [x])
  {
    hide Owing, AmountSum, Locked;
    assert (xs + [x])[..|xs|] == xs;
    AmountsJoin(Leaves(xs), x.leaves);
  }

  /** Paying out a credit. */
  lemma SolidWithdrawn(funds: Funds, sent: Funds, mode: Mode, willing: bool, a: Address, locks: seq<LockRecord>,
      xs: seq<GuestInput>)
    requires Solid(funds, locks, xs)
    requires Send(funds.(owed := funds.owed[a := 0]), mode.vault, willing, a, OwedTo(funds, a)) == Some(sent)
    ensures Solid(sent, locks, xs)
  {
    hide Owing, AmountSum, Leaves, Locked;
    OwingSet(funds, a, 0);
  }

  class Contract {
    const sdk: Sdk
    const config: Config
    const pull: bool
    var locks: seq<LockRecord>
    var lockedTokens: set<Bytes32>
    var lockDigest: seq<Bytes32>
    var trustBaseAllowed: set<Bytes32>
    var spentRoot: Bytes32
    var log: seq<(EventGrouping.Body, string)>
    var funds: Funds
    ghost var settled: seq<GuestInput>
    ghost var txids: seq<string>

    ghost predicate Valid()
      reads this
    {
      && Settles(sdk, settled)
      && spentRoot == RootAfter(StepsOf(settled))
      && |txids| == |settled| && log == Emitted(settled, txids)
      && DigestsStored(sdk, config, locks, lockDigest) && Backed(sdk, config, locks, settled)
      && Solid(funds, locks, settled)
    }

    function Paying(): Mode {
      Mode(config.vault, pull)
    }

    constructor (sdk: Sdk, config: Config, pull: bool)
      ensures Valid() && this.sdk == sdk && this.config == config && this.pull == pull
      ensures spentRoot == EMPTY_TREE_ROOT && settled == [] && locks == [] && funds == Funds(0, map[], [])
    {
      SolidAtFirst(Funds(0, map[], []));
      this.pull := pull;
      funds := Funds(0, map[], []);
      this.sdk := sdk;
      this.config := config;
      locks, lockedTokens, lockDigest, trustBaseAllowed := [], {}, [], {};
      spentRoot, log, settled, txids := EMPTY_TREE_ROOT, [], [], [];
    }

    /** Locks an amount under the next nonce; refused for zero or over-wide amounts and for zero or
        already locked token ids, and undone when the asset does not hand over the exact amount. */
    method Lock(amount: nat, tokenId: Bytes32, recipientCommitment: Bytes32, handedOver: bool)
      returns (nonce: Option<u64>)
      requires Valid() && |locks| < U64_LIMIT
      modifies this
      ensures Valid() && spentRoot == old(spentRoot) && settled == old(settled)
      ensures trustBaseAllowed == old(trustBaseAllowed) && log == old(log) && txids == old(txids)
      ensures nonce.Some? <==>
                && 0 < amount < U64_LIMIT && tokenId != ZERO32 && recipientCommitment != ZERO32
                && tokenId !in old(lockedTokens) && handedOver
      ensures nonce.Some? ==>
                && nonce.value == |old(locks)|
                && locks == old(locks) + [LockRecord(amount, tokenId, recipientCommitment)]
                && lockedTokens == old(lockedTokens) + {tokenId}
                && funds == old(funds).(balance := old(funds).balance + amount)
      ensures nonce.None? ==> locks == old(locks) && lockedTokens == old(lockedTokens) && funds == old(funds)
    {
      hide Settles, StepsOf, RootAfter, Emitted, Encode, Backed, Solid;
      if || amount == 0 || amount >= U64_LIMIT || tokenId == ZERO32 || recipientCommitment == ZERO32
         || tokenId in lockedTokens || !handedOver
      {
        return None;
      }
      var n: u64 := |locks|;
      var lock := LockRecord(amount, tokenId, recipientCommitment);
      lockedTokens := lockedTokens + {tokenId};
      lockDigest := lockDigest + [sdk.lockDigest(config, n, Encode(amount, 32), tokenId, recipientCommitment)];
      BackedByMore(sdk, config, locks, lock, settled);
      SolidLocked(funds, locks, lock, settled);
      locks := locks + [lock];
      funds := funds.(balance := funds.balance + amount);
      nonce := Some(n);
    }

    /** Anyone may transfer the asset to the vault. */
    method Receive(value: nat)
      requires Valid()
      modifies this`funds
      ensures Valid() && funds == old(funds).(balance := old(funds).balance + value)
    {
      hide Settles, StepsOf, RootAfter, Emitted, Backed, DigestsStored, Solid;
      SolidReceived(funds, value, locks, settled);
      funds := funds.(balance := funds.balance + value);
    }

    /** Pays the sender all its credit, unless there is none or the asset refuses. */
    method Withdraw(sender: Address, willing: bool) returns (amount: Option<nat>)
      requires Valid()
      modifies this`funds
      ensures Valid()
      ensures var due := OwedTo(old(funds), sender);
              && (amount.Some? <==> due > 0 && (sender == config.vault || (willing && due <= old(funds).balance)))
              && (amount.Some? ==>
                    && amount.value == due && funds.owed == old(funds).owed[sender := 0]
                    && funds.sent == old(funds).sent + (if sender == config.vault then [] else [(sender, due)])
                    && funds.balance == old(funds).balance - if sender == config.vault then 0 else due)
              && (amount.None? ==> funds == old(funds))
    {
      hide Settles, StepsOf, RootAfter, Emitted, Backed, DigestsStored, Solid, Owing;
      var due := OwedTo(funds, sender);
      if due == 0 {
        return None;
      }
      var sent := Send(funds.(owed := funds.owed[sender := 0]), config.vault, willing, sender, due);
      if sent.None? {
        return None;
      }
      SolidWithdrawn(funds, sent.value, Paying(), willing, sender, locks, settled);
      funds := sent.value;
      amount := Some(due);
    }

    /** Only the admin may; who calls is not part of the model. */
    method SetTrustBaseAllowed(trustBaseHash: Bytes32, allowed: bool)
      requires Valid()
      modifies this`trustBaseAllowed
      ensures Valid()
      ensures trustBaseAllowed
           == if allowed then old(trustBaseAllowed) + {trustBaseHash} else old(trustBaseAllowed) - {trustBaseHash}
    {
      hide Settles, StepsOf, RootAfter, Emitted, Backed, DigestsStored;
      trustBaseAllowed := if allowed then trustBaseAllowed + {trustBaseHash} else trustBaseAllowed - {trustBaseHash};
    }

    /** Settles a batch in transaction `txid`. `proofHolds` stands for the proof verifier, sound in
        that a proof that holds has a witness `x` in the relation; the leaves, lock references and
        configuration are the witness's own unless Keccak collides on them. */
    method FulfillBatch(pv: PublicValues, proofHolds: bool, leaves: seq<ReturnLeaf>, lockRefs: seq<LockRef>,
        now: nat, willing: bool, txid: string, ghost x: GuestInput) returns (ok: bool)
      requires Valid()
      requires proofHolds ==> Execute(sdk, x) == Ok(pv)
      requires sdk.derive.returnRoot(leaves) == sdk.derive.returnRoot(x.leaves) ==> leaves == x.leaves
      requires sdk.derive.lockRefHash(lockRefs) == sdk.derive.lockRefHash(x.lockRefs) ==> lockRefs == x.lockRefs
      requires sdk.derive.configHash(config) == sdk.derive.configHash(x.config) ==> config == x.config
      modifies this
      ensures Valid() && locks == old(locks) && trustBaseAllowed == old(trustBaseAllowed)
                && lockedTokens == old(lockedTokens)
      ensures ok <==> (&& proofHolds
                       && pv.domainTag == sdk.derive.domainTag
                       && pv.configHash == sdk.derive.configHash(config)
                       && pv.trustBaseHash in trustBaseAllowed
                       && pv.spentRootOld == old(spentRoot)
                       && leaves != [] && pv.batchSize == |leaves|
                       && pv.returnRoot == sdk.derive.returnRoot(leaves)
                       && pv.lockRefRoot == sdk.derive.lockRefHash(lockRefs)
                       && StrictlyIncreasing(lockRefs) && RefsStored(sdk, config, locks, lockRefs)
                       && FeesWithin(leaves)
                       && AmountSum(leaves) < WORD && AmountSum(leaves) == Value(pv.totalAmount)
                       && Payable(old(funds), Paying(), willing, now, leaves))
      ensures ok && AllocationSound(sdk) && DigestsBind(sdk, config, locks, x.burns) ==>
                RefsInRange(locks, lockRefs) && AmountSum(leaves) <= Held(locks, lockRefs)
      ensures ok ==> settled == old(settled) + [x] && txids == old(txids) + [txid] && spentRoot == pv.spentRootNew
      ensures ok ==> FeesWithin(leaves) && PaidOut(old(funds), funds, Paying(), now, leaves)
      ensures !ok ==> settled == old(settled) && txids == old(txids) && spentRoot == old(spentRoot) && log == old(log)
      ensures !ok ==> funds == old(funds)
    {
      hide Execute, Value, StrictlyIncreasing, RefsStored, AmountSum, StoredDigest, FeesWithin, Settles, StepsOf,
        RootAfter, Emitted, BatchEvents, Nullifiers, DigestsStored,
        Backed, AllocationSound, DigestsBind, RefsInRange, Held, Solid, PayAll, TakesAtMost, Payable, PaidOut;
      if || !proofHolds
         || pv.domainTag != sdk.derive.domainTag || pv.configHash != sdk.derive.configHash(config)
         || pv.trustBaseHash !in trustBaseAllowed || pv.spentRootOld != spentRoot
         || leaves == [] || pv.batchSize != |leaves|
         || pv.returnRoot != sdk.derive.returnRoot(leaves) || pv.lockRefRoot != sdk.derive.lockRefHash(lockRefs)
      {
        return false;
      }
      var refsOk := CheckRefs(sdk, config, locks, lockDigest, lockRefs);
      var valueOk := CheckValue(leaves, Value(pv.totalAmount));
      if !refsOk || !valueOk {
        return false;
      }
      PaysWell(funds, Paying(), willing, now, leaves, locks, settled);
      var paid := PayLeaves(funds, Paying(), willing, now, leaves);
      if paid.None? {
        return false;
      }
      ProvenLeaves(sdk, pv, x);
      SettlesWell(sdk, config, locks, settled, txids, pv, funds, paid.value, Paying(), willing, now, x, txid);
      spentRoot, funds := pv.spentRootNew, paid.value;
      log := log + BatchEvents(pv, Nullifiers(leaves), txid);
      settled, txids := settled + [x], txids + [txid];
      ok := true;
    }
  }

  /** The events of one settled batch, in order. */
  function BatchEvents(pv: PublicValues, nullifiers: seq<Bytes32>, txid: string): seq<(EventGrouping.Body, string)> {
    [(EventGrouping.BatchFulfilled(pv.spentRootOld, pv.spentRootNew, pv.batchSize), txid)]
      + ReleasedEvents(nullifiers, txid)
  }

  function ReleasedEvents(nullifiers: seq<Bytes32>, txid: string): seq<(EventGrouping.Body, string)> {
    if nullifiers == [] then []
    else [(EventGrouping.Released(nullifiers[0]), txid)] + ReleasedEvents(nullifiers[1..], txid)
  }

  function Emitted(xs: seq<GuestInput>, txids: seq<string>): seq<(EventGrouping.Body, string)>
    requires |xs| == |txids|
  {
    if xs == [] then []
    else BatchEvents(xs[0].publicValues, Nullifiers(xs[0].leaves), txids[0]) + Emitted(xs[1..], txids[1..])
  }

  lemma {:induction false} EmittedPush(xs: seq<GuestInput>, txids: seq<string>, x: GuestInput, txid: string)
    requires |xs| == |txids|
    ensures Emitted(xs + [x], txids + [txid]) == Emitted(xs, txids)
              + BatchEvents(x.publicValues, Nullifiers(x.leaves), txid)
  {
    hide BatchEvents;
    if xs != [] {
      assert (xs + [x])[1..] == xs[1..] + [x] && (txids + [txid])[1..] == txids[1..] + [txid];
      EmittedPush(xs[1..], txids[1..], x, txid);
    } else {
      assert (xs + [x])[1..] == [] && (txids + [txid])[1..] == [];
    }
  }

  // ----- the log of the contract gives its state back

  function Named(txids: seq<string>): (named: seq<Option<string>>)
    ensures |named| == |txids| && forall i | 0 <= i < |txids| :: named[i] == Some(txids[i])
  {
    if txids == [] then [] else Named(txids[..|txids| - 1]) + [Some(txids[|txids| - 1])]
  }

  /** `events` carry the log entries in order, each with its transaction. */
  ghost predicate Carries(events: seq<EventGrouping.Event>, log: seq<(EventGrouping.Body, string)>) {
    && |events| == |log|
    && forall i | 0 <= i < |log| :: events[i].body == log[i].0 && events[i].txId == Some(log[i].1)
  }

  lemma {:induction false} ReleasesEmit(events: seq<EventGrouping.Event>, tail: seq<EventGrouping.Event>,
      batch: SettledBatch, k: nat, txid: string, batches: seq<SettledBatch>)
    requires k <= |batch.nullifiers| && batch.txid == Some(txid)
    requires Carries(events, ReleasedEvents(batch.nullifiers[k..], txid))
    requires EventGrouping.Emits(tail, batch, |batch.nullifiers|, batches)
    ensures EventGrouping.Emits(events + tail, batch, k, batches)
    decreases |batch.nullifiers| - k
  {
    if k == |batch.nullifiers| {
      assert events + tail == tail;
    } else {
      assert batch.nullifiers[k..][1..] == batch.nullifiers[k + 1..];
      assert ReleasedEvents(batch.nullifiers[k..], txid)[1..] == ReleasedEvents(batch.nullifiers[k + 1..], txid);
      ReleasesEmit(events[1..], tail, batch, k + 1, txid, batches);
      assert (events + tail)[1..] == events[1..] + tail;
    }
  }

  ghost predicate SizesStated(xs: seq<GuestInput>) {
    forall x | x in xs :: x.publicValues.batchSize == |x.leaves|
  }

  lemma {:induction false} RunSizes(sdk: Sdk, xs: seq<GuestInput>)
    requires Settles(sdk, xs)
    ensures SizesStated(xs)
  {
    hide *;
    SizesPush(xs);
    if xs != [] {
      var last := |xs| - 1;
      SettlesPrefix(sdk, xs);
      RunSizes(sdk, xs[..last]);
      SettledShape(sdk, RootAfter(StepsOf(xs[..last])), xs[last]);
    }
  }

  lemma SizesPush(xs: seq<GuestInput>)
    ensures SizesStated([])
    ensures xs != [] && SizesStated(xs[..|xs| - 1]) && xs[|xs| - 1].publicValues.batchSize == |xs[|xs| - 1].leaves| ==>
              SizesStated(xs)
  {
  }

  lemma CarriesSplit(events: seq<EventGrouping.Event>, a: seq<(EventGrouping.Body, string)>,
      b: seq<(EventGrouping.Body, string)>)
    requires Carries(events, a + b)
    ensures |a| <= |events| && Carries(events[..|a|], a) && Carries(events[|a|..], b)
  {
  }

  /** The events of one batch, before those of later ones, extend their emission. */
  lemma BatchEmits(events: seq<EventGrouping.Event>, tail: seq<EventGrouping.Event>, before: SettledBatch,
      x: GuestInput, txid: string, batches: seq<SettledBatch>)
    requires x.publicValues.batchSize == |x.leaves|
    requires Carries(events, BatchEvents(x.publicValues, Nullifiers(x.leaves), txid))
    requires EventGrouping.Emits(tail, BatchOf(x, Some(txid)), |x.leaves|, batches)
    ensures EventGrouping.Emits(events + tail, before, |before.nullifiers|, [BatchOf(x, Some(txid))] + batches)
  {
    hide EventGrouping.Emits, ReleasedEvents, Nullifiers;
    var first := BatchOf(x, Some(txid));
    assert first.nullifiers[0..] == Nullifiers(x.leaves);
    assert BatchEvents(x.publicValues, Nullifiers(x.leaves), txid)[1..] == ReleasedEvents(Nullifiers(x.leaves), txid);
    ReleasesEmit(events[1..], tail, first, 0, txid, batches);
    assert (events + tail)[1..] == events[1..] + tail;
    assert ([first] + batches)[1..] == batches;
    EmitsNext(events + tail, before, [first] + batches);
  }

  lemma FirstBatch(xs: seq<GuestInput>, txids: seq<string>)
    requires |txids| == |xs| > 0
    ensures SettledBatches(xs, Named(txids)) == [BatchOf(xs[0], Some(txids[0]))]
              + SettledBatches(xs[1..], Named(txids[1..]))
  {
    hide *;
    var all, first := SettledBatches(xs, Named(txids)), BatchOf(xs[0], Some(txids[0]));
    var rest := SettledBatches(xs[1..], Named(txids[1..]));
    assert |all| == 1 + |rest| && all[0] == first;
    forall i | 0 < i < |all|
      ensures all[i] == rest[i - 1]
    {
    }
  }

  lemma EmittedFirst(xs: seq<GuestInput>, txids: seq<string>)
    requires |txids| == |xs| > 0
    ensures Emitted(xs, txids) == BatchEvents(xs[0].publicValues, Nullifiers(xs[0].leaves), txids[0])
              + Emitted(xs[1..], txids[1..])
  {
    hide BatchEvents, Nullifiers;
  }

  lemma NoBatches(xs: seq<GuestInput>, txids: seq<string>)
    requires |txids| == |xs| == 0
    ensures SettledBatches(xs, Named(txids)) == [] && Emitted(xs, txids) == []
  {
  }

  lemma EmitsNone(events: seq<EventGrouping.Event>, before: SettledBatch)
    ensures Carries(events, []) ==> EventGrouping.Emits(events, before, |before.nullifiers|, [])
  {
  }

  /** What the contract logs over a run is the emission of the run's batches. */
  lemma {:induction false} LogEmits(events: seq<EventGrouping.Event>, xs: seq<GuestInput>, txids: seq<string>,
      before: SettledBatch)
    requires |txids| == |xs| && SizesStated(xs) && Carries(events, Emitted(xs, txids))
    ensures EventGrouping.Emits(events, before, |before.nullifiers|, SettledBatches(xs, Named(txids)))
    decreases |xs|
  {
    hide *;
    if xs == [] {
      NoBatches(xs, txids);
      EmitsNone(events, before);
    } else {
      FirstBatch(xs, txids);
      EmittedFirst(xs, txids);
      var head := BatchEvents(xs[0].publicValues, Nullifiers(xs[0].leaves), txids[0]);
      CarriesSplit(events, head, Emitted(xs[1..], txids[1..]));
      SizesRest(xs);
      LogEmits(events[|head|..], xs[1..], txids[1..], BatchOf(xs[0], Some(txids[0])));
      BatchSize(xs[0], txids[0]);
      BatchEmits(events[..|head|], events[|head|..], before, xs[0], txids[0],
        SettledBatches(xs[1..], Named(txids[1..])));
      assert events == events[..|head|] + events[|head|..];
    }
  }

  lemma BatchSize(x: GuestInput, txid: string)
    ensures |BatchOf(x, Some(txid)).nullifiers| == |x.leaves|
  {
  }

  lemma SizesRest(xs: seq<GuestInput>)
    requires SizesStated(xs) && xs != []
    ensures xs[0].publicValues.batchSize == |xs[0].leaves| && SizesStated(xs[1..])
  {
  }

  lemma EmitsNext(events: seq<EventGrouping.Event>, before: SettledBatch, batches: seq<SettledBatch>)
    requires events != [] && batches != []
    requires events[0].body == EventGrouping.BatchFulfilled(batches[0].spentRootOld, batches[0].spentRootNew,
               |batches[0].nullifiers|)
    requires events[0].txId == batches[0].txid && EventGrouping.Emits(events[1..], batches[0], 0, batches[1..])
    ensures EventGrouping.Emits(events, before, |before.nullifiers|, batches)
  {
  }

  /** From the contract's own log, among any other events and in any order of arrival, the
      contract's root and the released nullifiers come back. */
  method RecoverFromLog(vault: Contract, ghost trace: seq<EventGrouping.Event>, events: seq<EventGrouping.Event>)
    returns (r: Option<Rebuilt>)
    requires vault.Valid() && CollisionFree(vault.sdk.sha256, RunInputs(vault.sdk, vault.settled))
    requires StableSort.Increasing(EventGrouping.Place, trace) && Carries(EventGrouping.Relevant(trace), vault.log)
    requires multiset(trace) == multiset(events)
    ensures r.Some? && fresh(r.value.tree) && r.value.tree.Valid()
    ensures r.value.spentRoot == vault.spentRoot
    ensures r.value.tree.Contents() == SeqSet(Spent(vault.settled)) && r.value.spentCount == |Spent(vault.settled)|
  {
    hide Settles, CollisionFree, StepsOf, RootAfter, Emitted, RootOf, EventGrouping.Emits, StableSort.Increasing,
      DigestsStored, Spent;
    RunSizes(vault.sdk, vault.settled);
    LogEmits(EventGrouping.Relevant(trace), vault.settled, vault.txids, EventGrouping.NO_BATCH);
    r := RecoverFromEvents(vault.sdk, vault.settled, Named(vault.txids), trace, events);
  }

  lemma {:induction false} SumGrows(leaves: seq<ReturnLeaf>, n: nat)
    requires n <= |leaves|
    ensures AmountSum(leaves[..n]) <= AmountSum(leaves)
    decreases |leaves|
  {
    hide Value;
    if n < |leaves| {
      SumGrows(leaves[..|leaves| - 1], n);
      assert leaves[..|leaves| - 1][..n] == leaves[..n];
    } else {
      assert leaves[..n] == leaves;
    }
  }

  lemma ProvenLeaves(sdk: Sdk, pv: PublicValues, x: GuestInput)
    requires Execute(sdk, x) == Ok(pv)
    ensures x.publicValues == pv && pv.returnRoot == sdk.derive.returnRoot(x.leaves)
    ensures pv.lockRefRoot == sdk.derive.lockRefHash(x.lockRefs) && pv.configHash == sdk.derive.configHash(x.config)
  {
    hide CheckOrder, SumAmounts, ValidateAccumulatorTransition, ValidateBridgeBurns;
  }

  /** What one more settled batch keeps. */
  lemma SettlesWell(sdk: Sdk, config: Config, locks: seq<LockRecord>, xs: seq<GuestInput>, txids: seq<string>,
      pv: PublicValues, funds: Funds, paid: Funds, mode: Mode, willing: bool, now: nat, x: GuestInput, txid: string)
    requires |xs| == |txids| && Settles(sdk, xs) && Backed(sdk, config, locks, xs) && Solid(funds, locks, xs)
    requires Execute(sdk, x) == Ok(pv) && x.publicValues == pv && x.config == config
    requires pv.spentRootOld == RootAfter(StepsOf(xs)) && pv.batchSize == |x.leaves|
    requires RefsStored(sdk, config, locks, x.lockRefs)
    requires FeesWithin(x.leaves) && PayAll(funds, mode, willing, now, x.leaves) == Some(paid)
    ensures Settles(sdk, xs + [x]) && Backed(sdk, config, locks, xs + [x]) && Solid(paid, locks, xs + [x])
    ensures RootAfter(StepsOf(xs + [x])) == pv.spentRootNew
    ensures Emitted(xs + [x], txids + [txid]) == Emitted(xs, txids) + BatchEvents(pv, Nullifiers(x.leaves), txid)
    ensures AllocationSound(sdk) && DigestsBind(sdk, config, locks, x.burns) ==>
              RefsInRange(locks, x.lockRefs) && AmountSum(x.leaves) <= Held(locks, x.lockRefs)
  {
    hide *;
    PaysWell(funds, mode, willing, now, x.leaves, locks, xs);
    PayAllKeeps(funds, mode, willing, now, x.leaves);
    SolidPaid(funds, paid, locks, xs, x);
    SettlesNow(sdk, RootAfter(StepsOf(xs)), x);
    SettleMore(sdk, xs, txids, x, txid);
    BackedMore(sdk, config, locks, xs, x);
    if AllocationSound(sdk) && DigestsBind(sdk, config, locks, x.burns) {
      ReleasesWithinLocks(sdk, locks, x);
    }
  }

  lemma PaysWell(funds: Funds, mode: Mode, willing: bool, now: nat, leaves: seq<ReturnLeaf>, locks: seq<LockRecord>,
      xs: seq<GuestInput>)
    requires Solid(funds, locks, xs) && FeesWithin(leaves)
    ensures var paid := PayAll(funds, mode, willing, now, leaves);
            && (paid.Some? <==> Payable(funds, mode, willing, now, leaves))
            && (paid.Some? ==> PaidOut(funds, paid.value, mode, now, leaves) && OwedFits(paid.value))
  {
    hide Owing, AmountSum, Leaves, Locked, PayAll, Payable, PaidOut;
    PaysExactly(funds, mode, willing, now, leaves);
  }

  lemma SettlesNow(sdk: Sdk, root: Bytes32, x: GuestInput)
    requires Execute(sdk, x) == Ok(x.publicValues)
    requires x.publicValues.spentRootOld == root && x.publicValues.batchSize == |x.leaves|
    ensures SettlesOn(sdk, root, x) && Accepted(sdk, x)
  {
    hide Execute;
  }

  lemma SettleMore(sdk: Sdk, xs: seq<GuestInput>, txids: seq<string>, x: GuestInput, txid: string)
    requires |xs| == |txids|
    requires Settles(sdk, xs) && SettlesOn(sdk, RootAfter(StepsOf(xs)), x)
    ensures Settles(sdk, xs + [x])
    ensures RootAfter(StepsOf(xs + [x])) == x.publicValues.spentRootNew
    ensures Emitted(xs + [x], txids + [txid]) == Emitted(xs, txids)
              + BatchEvents(x.publicValues, Nullifiers(x.leaves), txid)
  {
    hide SettlesOn, Emitted, BatchEvents;
    assert (xs + [x])[..|xs|] == xs;
    EmittedPush(xs, txids, x, txid);
  }
}
