# A verified model of the Unicity bridge-return system

Tokens bridged into Unicity are burned there and released on the source chain by a vault that
knows only a Merkle root of the nullifiers it has released. A service collects burns, proves a
batch of them in a zero-knowledge guest on top of the vault's current root, and settles the batch.
This project models that path and proves what it is for: nothing is released twice; over every run
of the vault, what is released of one lock, in any batches and after any splits of its token, is at
most that lock, so that the vault can always pay; the service can always get the vault's state back
from its log; and no return counts as settled without evidence.

## Modules

| module | what it models |
|---|---|
| `ByteWords`, `BigEndian`, `Hex`, `Wrappers`, `StableSort` | bytes, big-endian words, hexadecimal text, options and results, a stable sort |
| `SparseTree`, `Accumulator` | the depth-256 sparse Merkle set: builder, witness producer, stateless verifier and updater |
| `Rebuild` | rebuilding the accumulator from an unordered, duplicated log; the inputs of the next batch |
| `ReturnCore` | leaves, lock references, the public statement and its validation, 256-bit sums |
| `TrustBases` | the canonical trust base document and the quorum loop |
| `BridgeTokens` | token verification and the lock behind a token, through any nesting of splits |
| `GuestRelation` | the return relation the guest proves, with its anchor cache; the relation without it, for comparison |
| `Acceptance` | what it takes for a batch to be accepted, said of tokens, certificates and burn reasons alone |
| `MergedBatch`, `Assembler` | admitting stored inputs and merging them into one batch that is valid again; the precheck |
| `CertifiedBatch` | building a batch straight from certified tokens |
| `Codecs`, `Wire`, `WireCursor`, `Layout` | the guest's wire format: combinators and laws, the format, the cursor and the writers as they run, and the bytes one by one |
| `Cbor`, `SdkCbor` | the plugin's canonical CBOR (section 4.2.1 of RFC 8949); the token SDK's reader and writer, arbitrary, and what makes them canonical |
| `BurnReason` | the burn reason, as the plugin and the guest read it |
| `EventGrouping` | grouping the vault's events into batches |
| `Vault` | the contract's locks and settlement step, runs of it, and recovery from its log |
| `Payouts` | what the vault holds and owes: transfers, credits, the fee by deadline, paying a batch |
| `Conservation`, `Solvency` | what is burned of one lock after any splits; what the vault releases of it over a run, and that it can pay |
| `Ledger`, `Settlement`, `Orchestrator` | the service's ledger, the settlement protocol as lawful traces, and the orchestrator's stages |
| `Recovery` | what the service's read of the chain says of the vault |
| `LockLookup` | the adaptive-window search for a deposit's lock |

## How to read the claims

- **Hashing.** A hash is any function from bytes to 32 bytes. It cannot be injective, so nothing
  assumes that it is. Where soundness rests on it, the lemma names a finite set of inputs, those
  hashed by the tree and by the verifier on the witness at hand, and requires `CollisionFree` on
  that set: no two of them collide, and none hashes to the zero sentinel. Completeness and the
  refinement of the builder need no such hypothesis. For a run of batches the set is `RunInputs`.
- **The token SDK.** Its sources are not part of the repository, so decoding, inclusion proofs,
  allocation proofs and digests are arbitrary functions (`BridgeTokens.Sdk`, `Wire.SdkCodecs`,
  `SdkCbor.Decoder`, `SdkCbor.Encoder`). What is relied on is named where it is used:
  - `CanonicalSdk`: the SDK reads from the wire only bytes it would write.
  - `CanonicalDecoder`, `CanonicalEncoder`: its CBOR reader accepts exactly canonical items and its
    CBOR writer writes them. `SdkCbor.StrictIsCanonical` shows a reader that meets the first.
  - `AllocationSound`: a proven allocation is at most the root's sum.
  - `TokensKept`: over the finite set of tokens that a run burns, with their split ancestors
    (`Conservation.World`), allocations to distinct tokens under one root together stay within its
    sum, a certified token is minted once and burned at most once, and no bytes read both as a lock
    and as a split, or both as a burn reason and as a split manifest.
- **Digests of the vault.** Keccak binds what it is used to bind: the return root, the lock reference
  root and the configuration hash bind one call to the proof's witness (`requires` of
  `Vault.Contract.FulfillBatch`), and a lock digest is not zero and names one token and one amount
  (`Vault.DigestsBind` for one batch, `Solvency.LocksBind` for a run).
- **The relation.** `GuestRelation.Execute` is the relation as it runs, with anchors verified once and
  cached by the anchor alone. All results about accepted batches, merging, precheck, runs and
  solvency are about it; `ExecuteEach` checks every burn on its own and is used only to say when the
  cache makes no difference (`CacheExact`, `ExecuteExact`).
- **The asset.** A transfer of the asset may be refused at any time. When it is not, it moves the exact
  amount and needs the balance; a refusal undoes the whole call.
- **Independent statements.** What decides an acceptance, an admission, a payout or a settlement is stated
  a second time without the functions that compute it, and proved to be the same for every input:
  `Acceptance.AcceptedIff`, `TrustBases.CertifiesIff`, `BridgeTokens.ObligationsIff`,
  `Assembler.AdmitsIff` and `RefusesIff`, `Payouts.PaysExactly`, `Ledger.NextDoes`,
  `Orchestrator.SettlesIff`, `EventGrouping.GroupIff`, `Layout.EncodedLayout`.
- **Loops and objects.** What the program does by loops is a method proved against a function or
  against its meaning; what it does by objects (`NullifierTree`, `Cursor`, `CborReader`, `Merge`, the
  contract, the orchestrator) is a class. The stable library sorts are modelled by an insertion sort
  with the same result.
- **The orchestrator's environment.** Chain log, simulation, prover, relayer and second source answer
  arbitrarily at every call. A ghost trace records what was observed and done; `Lawful` says which
  steps are allowed after which, and the stages are proved to keep it. The safety results are
  about every lawful trace.

## Where code and documentation differ

- The plugin's decoder of burn reasons is described as the guest's decode on the other stack.
  It accepts amounts with leading zero bytes, which the guest refuses; `PaddedAmountReadsTheSame`
  gives the family and `GuestAcceptsIff` the guest's side. The model follows each side's code.
- The plugin's decoder is called the inverse of its encoder. It is exactly when tag, version, chain id
  and deadline are natural numbers below 2^64, amounts natural numbers below 2^256 and byte strings
  shorter than 2^64 (`ReasonRoundTripIff`). A negative number is written as one byte and lost
  (`NegativeNumberLost`).
- `add_u256` drops the last carry. The committed total is the integer sum only while that fits a word
  (`SumExact`); for accepted batches it always does, because every amount is bounded by a 64-bit
  lock (`BatchTotal`).

## Model

| member | source | states |
|---|---|---|
| `ByteWords.AgreeAll` | prover/crates/sdk-ext/src/accumulator.rs:300-326 | two keys that agree on all 256 bits, least significant first in each byte, are equal, so distinct keys have a first differing bit |
| `ByteWords.BitIsShift` | prover/crates/sdk-ext/src/accumulator.rs:323-325 | bit j of a byte is what is left lowest when the byte is shifted right by j |
| `Accumulator.FirstDifferingBit` | prover/crates/sdk-ext/src/accumulator.rs:300-302 | there is no differing bit exactly when all bits agree; otherwise it is the first that differs |
| `Accumulator.VerifierExact` | prover/crates/sdk-ext/src/accumulator.rs:81-86 | against the root of a set the verifier accepts a witness if and only if it carries the true siblings of the key down to an empty slot, at any terminal depth, unless one of the listed inputs collides or hashes to zero |
| `Accumulator.InsertSound` | prover/crates/sdk-ext/src/accumulator.rs:81-101 | whatever witness is accepted against the root of S, the key is not in S and the stateless insert returns the root of S plus the key, unless one of the listed inputs collides or hashes to zero |
| `Accumulator.InsertTrue` | prover/crates/sdk-ext/src/accumulator.rs:88-101 | along a true sibling path the insert returns the root of the enlarged set, with no assumption on the hash |
| `Accumulator.RootInjective` | prover/crates/sdk-ext/src/accumulator.rs:113-118 | equal roots mean equal sets, unless a listed input collides or hashes to zero |
| `Accumulator.TerminalDepthIff` | prover/crates/sdk-ext/src/accumulator.rs:220-232 | the terminal depth is the number of steps exactly when the steps run contiguously up to depth 0; the subtraction is over the integers |
| `Accumulator.RebuildIff` | prover/crates/sdk-ext/src/accumulator.rs:199-218 | what the verifier rebuilds for every witness, canonical or not, and exactly which witnesses it refuses |
| `Accumulator.EmptyHashIsEmptyRoot` | prover/crates/sdk-ext/src/accumulator.rs:291-298 | the table of empty subtrees is the full recursion on the empty set, with the zero sentinel only in the leaf slot |
| `Accumulator.SingleKeyHashIsRoot` | prover/crates/sdk-ext/src/accumulator.rs:276-289 | the lone-key shortcut equals the full depth-256 recursion on a singleton |
| `Accumulator.EmptyHashes` | prover/crates/sdk-ext/src/accumulator.rs:291-298 | the loop fills every level with the root of the empty subtree |
| `Accumulator.ComputeSingleKeyHash` | prover/crates/sdk-ext/src/accumulator.rs:276-289 | the loop computes the root of the one-key subtree at any depth |
| `Accumulator.ComputeFoldSteps` | prover/crates/sdk-ext/src/accumulator.rs:234-249 | the loop is the fold: refused when depths do not strictly descend, otherwise the hash of the path |
| `Accumulator.SubtreeHash` | prover/crates/sdk-ext/src/accumulator.rs:251-274 | the builder with its two shortcuts computes the plain depth-256 Merkle root of the keys below |
| `Accumulator.TreeRoot` | prover/crates/sdk-ext/src/accumulator.rs:113-118 | the root of distinct keys is the naive root of their set, the zero sentinel for none |
| `Accumulator.NullifierTree.Root` | prover/crates/sdk-ext/src/accumulator.rs:113-118 | the builder's root is the naive root of its key set, whatever the insertion order |
| `Accumulator.NullifierTree.Insert` | prover/crates/sdk-ext/src/accumulator.rs:171-178 | adds an absent key, refuses a present one and then changes nothing |
| `Accumulator.NullifierTree.NonMembershipWitness` | prover/crates/sdk-ext/src/accumulator.rs:121-169 | a witness comes back exactly for absent keys, and it is the canonical one |
| `Accumulator.SiblingSteps` | prover/crates/sdk-ext/src/accumulator.rs:121-169 | the descent collects the true siblings of an absent key down to the first empty slot |
| `Accumulator.WitnessComplete` | prover/crates/sdk-ext/src/accumulator.rs:121-169 | for every set and absent key the canonical witness has at most 256 steps, contiguous to depth 0, is accepted and inserts the key |
| `Accumulator.OrderedInsertWitnesses` | prover/crates/sdk-ext/src/accumulator.rs:180-197 | succeeds exactly for fresh distinct keys; then witnesses and root are those of the enlarging set |
| `Accumulator.FoldComplete` | prover/crates/sdk-ext/src/accumulator.rs:180-197 | the ordered witnesses of fresh keys always thread through the stateless insert to the root of the enlarged set |
| `Accumulator.FoldSound` | prover/crates/guest/src/lib.rs:364-382 | if any witnesses thread from the root of a set, the keys are distinct, none is in the set, and the end is the root of the enlarged set, unless a listed input collides |
| `SparseTree.TruePath` | prover/crates/sdk-ext/src/accumulator.rs:251-274 | hashing a key's true siblings from the subtree below reproduces the root |
| `SparseTree.TreeLayout` | prover/crates/sdk-ext/src/accumulator.rs:251-312 | what a subtree hashes, byte by byte: prefix and depth, the keys whose shifted bit is 0 on the left and those whose bit is 1 on the right; a leaf its prefix, key and presence |
| `SparseTree.PathSound` | prover/crates/sdk-ext/src/accumulator.rs:199-218 | a path that hashes to the root carries the true siblings and ends in the true subtree, unless a listed input collides |
| `SparseTree.EmptyRootOnlyEmpty` | prover/crates/sdk-ext/src/accumulator.rs:251-298 | a subtree whose hash is an empty-table entry is empty, unless a listed input collides |
| `SparseTree.SubRootInjective` | prover/crates/sdk-ext/src/accumulator.rs:251-274 | subtrees with one hash hold one set of keys, unless a listed input collides |
| `Rebuild.NextLink` | prover/crates/host/src/s2.rs:188-206 | returns the one unused transition from the root, none when there is none, and refuses two different ones |
| `Rebuild.MarkUsed` | prover/crates/host/src/s2.rs:160-176 | marks exactly the copies of one transition and finds the first transaction any copy names |
| `Rebuild.SpenderNamed` | prover/crates/host/src/s2.rs:160-176 | a released nullifier is named if and only if some copy of its batch names a transaction, and then by the first that does |
| `Rebuild.Rebuild` | prover/crates/host/src/s2.rs:130-186 | succeeds if and only if the log's distinct transitions form one fork-free chain from the empty root; then tree, root, count and transaction names are that chain's. It terminates because the unapplied transitions shrink |
| `Rebuild.ChainFacts` | prover/crates/host/src/s2.rs:130-186 | in a rebuilt chain no transition is applied twice, no nullifier occurs twice, and the last root is the root of exactly the spent nullifiers |
| `Rebuild.HistoryUnique` | prover/crates/host/src/s2.rs:130-186 | a log has at most one such chain |
| `Rebuild.SameStepsSameHistory` | prover/crates/service/src/sequencer.rs:185-192 | joining a log with batches that name only transitions it already names changes nothing |
| `Rebuild.PermutedLogSameHistory` | prover/crates/host/src/s2.rs:130-186 | the order of the log does not matter |
| `Rebuild.LossUnnoticedOnlyAtTip` | prover/crates/host/src/s2.rs:130-186 | a log missing one batch still rebuilds if and only if the missing one was the last |
| `Rebuild.RootsDiffer` | prover/crates/host/src/s2.rs:188-206 | the roots of a valid chain are pairwise distinct, unless a listed input collides |
| `Rebuild.SyncedAccumulator` | prover/crates/service/src/sequencer.rs:185-192 | the fetched log and the known batches together; accepted exactly when they have a history whose root is the vault's live root when that is reported |
| `Rebuild.NextBatch` | prover/crates/host/src/s2.rs:243-269 | succeeds exactly for a non-empty list of fresh distinct nullifiers; the guest's transition check then accepts, so the defensive replay never refuses |
| `ReturnCore.ComputeAddU256` | prover/crates/core/src/lib.rs:322-330 | the byte-wise addition with carry is addition of 256-bit words |
| `BigEndian.AddInto` | prover/crates/core/src/lib.rs:322-330 | the in-place carry loop leaves the sum, less the word size when it overflows |
| `ReturnCore.ComputeSumAmounts` | prover/crates/core/src/lib.rs:308-314 | the loop is the fold of 256-bit additions |
| `ReturnCore.SumExact` | prover/crates/core/src/lib.rs:308-330 | the committed total is the integer sum modulo 2^256, hence the integer sum if and only if that fits a word |
| `ReturnCore.ComputeLockRefRoot` | prover/crates/core/src/lib.rs:235-254 | the loop: first adjacent pair out of order decides the error, otherwise the hash of all references |
| `ReturnCore.OrderedIffIncreasing` | prover/crates/core/src/lib.rs:235-254 | the order check passes if and only if the nonces strictly increase |
| `ReturnCore.SortByNonceFacts` | prover/crates/core/src/lib.rs:256-260 | sorting keeps the references and restores any shuffling of strictly increasing ones |
| `BigEndian.LexIsOrder` | prover/crates/guest/src/lib.rs:341-343 | on words of one width byte order is the order of values, both ways |
| `TrustBases.DocInjective` | prover/crates/sdk-ext/src/trust.rs:9-35 | the canonical document determines the trust base, given that the SDK's writer is canonical |
| `TrustBases.CheckUnicityCertificate` | prover/crates/sdk-ext/src/verify.rs:177-223 | the counting loop accepts exactly when the distinct trust base keys with at least one valid signature reach the threshold, besides the network, seal and input hash checks |
| `TrustBases.ValidKeysMeaning` | prover/crates/sdk-ext/src/verify.rs:193-216 | a key counts if and only if some listed signature of a known node with that key is valid |
| `TrustBases.QuorumOrderFree` | prover/crates/sdk-ext/src/verify.rs:193-216 | the order of the signatures does not matter |
| `TrustBases.QuorumsOverlap` | prover/crates/sdk-ext/src/verify.rs:193-216 | two accepted seals under one trust base of n distinct keys share at least 2 * threshold - n keys |
| `TrustBases.CertifiesIff` | prover/crates/sdk-ext/src/verify.rs:177-223 | a certificate gives a root if and only if network, seal and root fit and the distinct keys with a valid listed signature, each of the first node of its id, are at least the threshold; exactly the threshold is enough |
| `BridgeTokens.DirectLock` | prover/crates/sdk-ext/src/bridge.rs:132-183 | a direct obligation means the configured token type and a coin amount equal to the lock's, and is that lock's reference |
| `BridgeTokens.AllocatedBound` | prover/crates/sdk-ext/src/bridge.rs:332-347 | when every allocation holds, no output asset exceeds the source asset of its id |
| `BridgeTokens.SplitStep` | prover/crates/sdk-ext/src/bridge.rs:265-350 | one split keeps the token type and never raises the amount of a coin |
| `BridgeTokens.ObligationExact` | prover/crates/sdk-ext/src/bridge.rs:226-373 | through any number of splits: exactly one obligation, the direct lock of the innermost token; type and network constant; the coin's amount at most that lock's |
| `BridgeTokens.AgainstRootIff` | prover/crates/sdk-ext/src/verify.rs:30-48 | a token is accepted against a root if and only if the trust base is valid and of its network, the mint lock script holds, and the mint and every transfer are included under that root |
| `BridgeTokens.CertifiedIff` | prover/crates/sdk-ext/src/verify.rs:50-66 | a token is accepted by its own certificates if and only if, besides, mint and every transfer are each included under a root that its own certificate certifies |
| `BridgeTokens.AnchorIff` | prover/crates/sdk-ext/src/verify.rs:68-76 | an anchor gives a root if and only if the trust base is valid and certifies that root by it |
| `BridgeTokens.DirectLockIff` | prover/crates/sdk-ext/src/bridge.rs:132-183 | a mint has a direct obligation if and only if its justification is a lock of the right tag and version, of this chain, vault and asset, under the configured type, and the payment data hold the locked amount; the obligation is that lock's reference |
| `BridgeTokens.SplitBackedIff` | prover/crates/sdk-ext/src/bridge.rs:265-350 | a split is backed if and only if its source was burned to a manifest of as many roots as it has assets and each output asset is proved against the root of its source asset, whose sum is what the source holds |
| `BridgeTokens.SplitMintIff` | prover/crates/sdk-ext/src/bridge.rs:265-350 | a split mint has its source's obligations if and only if the source is attested on the same network and burned into it |
| `BridgeTokens.ObligationsIff` | prover/crates/sdk-ext/src/bridge.rs:226-373 | a verified token has obligations if and only if it draws on a lock, straight or through attested sources burned into it, and then exactly that lock's reference |
| `GuestRelation.CheckAccumulatorTransition` | prover/crates/guest/src/lib.rs:364-382 | the loop over leaves and witnesses is the fold of stateless inserts, error by error |
| `GuestRelation.SameTrustBase` | prover/crates/guest/src/lib.rs:134-171 | burns whose trust bases hash alike have one trust base, unless two of the batch's documents collide |
| `GuestRelation.AnchorRoot` | prover/crates/guest/src/lib.rs:134-171 | an anchor's root is verified once, under the first burn that brings it, and cached by the anchor alone |
| `GuestRelation.CheckBridgeBurns` | prover/crates/guest/src/lib.rs:119-188 | the loop with its cache, for every input: each burn's obligations through the cache so far, gathered, sorted and compared |
| `GuestRelation.CacheExact` | prover/crates/guest/src/lib.rs:134-171 | checking every burn on its own trust base decides, error by error, what the cached check decides, for a batch whose trust base documents do not collide |
| `GuestRelation.ExecuteExact` | prover/crates/guest/src/lib.rs:78-99 | so under the same hypothesis the relation as it runs is the relation in which every burn is checked on its own |
| `GuestRelation.Run` | prover/crates/guest/src/lib.rs:78-99 | the relation as it runs, in the order of its checks, for every input |
| `GuestRelation.BurnFacts` | prover/crates/guest/src/lib.rs:190-269 | one accepted burn has exactly one obligation, its coin amount is the leaf's, which is at most the lock's, and its fee is at most its amount as integers |
| `GuestRelation.BatchLocks` | prover/crates/guest/src/lib.rs:119-212 | in every accepted batch burns, leaves, witnesses and lock references are equally many, every reference is some burn's lock, and nonces strictly increase, so no lock backs two burns |
| `GuestRelation.BatchTotal` | prover/crates/core/src/lib.rs:308-330 | in every accepted batch, of any size, the committed total is the exact integer sum of the leaf amounts and at most what the named locks hold |
| `GuestRelation.AcceptedShape` | prover/crates/guest/src/lib.rs:78-99 | what acceptance says of the parts of an input |
| `Acceptance.TerminalBurnIff` | prover/crates/guest/src/lib.rs:214-271 | a terminal burn passes if and only if the last transfer burns the token to a version 1 reason for this chain, vault, asset, type and coin that names the leaf's recipient, amount, fee recipient, fee and deadline, the fee within the amount, and the leaf's nullifier is of that transfer |
| `Acceptance.CurrentValueIff` | prover/crates/guest/src/lib.rs:190-212 | the current value passes if and only if the burned token holds exactly the leaf's amount of the coin |
| `Acceptance.StatesWhatThePluginWrites` | prover/crates/guest/src/lib.rs:288-339 | with a canonical SDK reader, burned bytes state a leaf's payout if and only if they are what the plugin's encoder writes for that leaf and this bridge, the fee within the amount |
| `Acceptance.StatedIff` | prover/crates/core/src/lib.rs:280-330 | the public values pass if and only if domain, configuration, return root, reference root, size and total are those of the batch and the nonces strictly increase |
| `Acceptance.RootThroughIs` | prover/crates/guest/src/lib.rs:134-171 | through the cache an anchor gives a root if and only if the trust base of the first burn under it is valid and certifies that root |
| `Acceptance.ThroughIff` | prover/crates/guest/src/lib.rs:119-188 | the burns check with their shared cache if and only if each stands: trust base hash, certification, lock, amount and promise |
| `Acceptance.AcceptedIff` | prover/crates/guest/src/lib.rs:78-271 | a batch is accepted if and only if its public values state it, its witnesses insert its nullifiers from the old root to the new, and its burns, at least one, all stand against exactly its lock references |
| `Acceptance.AcceptedPromises` | prover/crates/guest/src/lib.rs:214-271 | every leaf of an accepted batch pays what its burn's reason says: recipient, fee recipient, deadline and both amounts, and the burned token holds that amount |
| `Acceptance.AcceptedBytes` | prover/crates/guest/src/lib.rs:214-271 | with a canonical SDK reader, what was burned for an accepted leaf is byte for byte the plugin's encoding of that leaf |
| `Acceptance.AcceptedCertified` | prover/crates/guest/src/lib.rs:119-188 | every transfer of every burn of an accepted batch, the burn itself with it, is included under a root that a valid trust base of the batch certifies |
| `MergedBatch.BurnsAppend` | prover/crates/guest/src/lib.rs:119-188 | burns accepted in two parts, each with its own cache, are accepted in one with one cache, and their obligations are those of the parts |
| `MergedBatch.BurnKnown` | prover/crates/guest/src/lib.rs:134-171 | a burn accepted with some anchors cached is accepted with more of them cached, whichever trust base verified them |
| `MergedBatch.AllBurnsCheck` | prover/crates/service/src/domain/assembler.rs:97-155 | the burns of inputs accepted one by one check out together, and their obligations are the inputs' lock references |
| `MergedBatch.RefsInOrder` | prover/crates/service/src/domain/assembler.rs:128-128 | references without a repeated nonce sort into strictly increasing order |
| `MergedBatch.MergePreserves` | prover/crates/service/src/domain/assembler.rs:97-155 | inputs accepted one by one, under one configuration and trust base, repeating no lock and no nullifier, are accepted as one batch on any accumulator that holds none of their nullifiers |
| `Assembler.Merge.Take` | prover/crates/service/src/domain/assembler.rs:158-168 | the merge holds exactly the parts of the inputs taken, in order, and the first one's template |
| `Assembler.Admit` | prover/crates/service/src/domain/assembler.rs:171-223 | the tests in their order: decoding, configuration, trust base, rejection, spent leaf, taken nonce |
| `Assembler.FindRejected` | prover/crates/service/src/domain/assembler.rs:188-191 | the first rejection naming the burn's nullifier up to letter case, none only when there is none |
| `Assembler.NoneSpent` | prover/crates/service/src/domain/assembler.rs:205-214 | no leaf is found spent if and only if none is in the accumulator |
| `Assembler.AdmitAll` | prover/crates/service/src/domain/assembler.rs:97-117 | the loop admits every member against those kept before it |
| `Assembler.KeptAndExcluded` | prover/crates/service/src/domain/assembler.rs:112-117 | kept and excluded partition the members |
| `Assembler.KeptFresh` | prover/crates/service/src/domain/assembler.rs:205-214 | what is kept is unspent, and distinct when the members' inputs are |
| `Assembler.KeptLeaves` | prover/crates/service/src/domain/assembler.rs:97-117 | every member is excluded or has its input's leaves in the batch |
| `Assembler.KeptMergeable` | prover/crates/service/src/domain/assembler.rs:171-223 | when stored inputs are sound, what is kept shares configuration and trust base and repeats no lock nonce |
| `Assembler.FoldUnchecked` | prover/crates/service/src/domain/assembler.rs:57-64 | assembly never reports a release as confirmed |
| `Assembler.AdmitsIff` | prover/crates/service/src/domain/assembler.rs:171-223 | a member is kept if and only if its input decodes, is of the first kept configuration and trust base, its nullifier is named by no rejection up to letter case, none of its leaves is spent and no lock nonce is one of an earlier kept member's |
| `Assembler.RefusesIff` | prover/crates/service/src/domain/assembler.rs:171-223 | a member is excluded with a reason if and only if that reason's cause is the first to hold: undecodable, other configuration, other trust base, the first rejection naming it with its kind, the first spent leaf with the log's transaction, a nonce taken |
| `Assembler.KeptMember` | prover/crates/service/src/domain/assembler.rs:97-117 | whoever is kept by the loop had nothing against it when its turn came, so no kept member is named by a rejection |
| `Assembler.ExcludedMember` | prover/crates/service/src/domain/assembler.rs:97-117 | whoever the loop excludes is excluded for the cause its reason states |
| `Assembler.EveryKept` | prover/crates/service/src/domain/assembler.rs:97-117 | every member with nothing against it is kept, with the input it decodes to |
| `Assembler.EveryExcluded` | prover/crates/service/src/domain/assembler.rs:97-117 | every member with a cause against it is excluded for it |
| `Assembler.Precheck` | prover/crates/host/src/s1.rs:127-159 | runs the relation, encodes, decodes and runs it again: passes if and only if the input is accepted and so is what its own encoding decodes to, with the same output |
| `Assembler.PrecheckWire` | prover/crates/host/src/s1.rs:418-422 | on bytes the relation alone decides, and an accepted payload is its own re-encoding |
| `Assembler.Conclude` | prover/crates/service/src/domain/assembler.rs:118-155 | succeeds if and only if the kept inputs make one acceptable batch; then the payload decodes to exactly that batch |
| `Assembler.Assemble` | prover/crates/service/src/domain/assembler.rs:97-155 | fails with all excluded if and only if nothing is kept; otherwise succeeds if and only if the kept inputs make one acceptable batch, which sound members that spend nothing twice always do |
| `CertifiedBatch.CollectLocks` | prover/crates/host/src/s1.rs:204-218 | the loop: the first burn that mixes trust bases or does not verify decides the error |
| `CertifiedBatch.LocksIff` | prover/crates/host/src/s1.rs:204-218 | the locks are found if and only if every burned token is attested under one trust base hash and draws on a lock, and then they are those locks, one by one |
| `CertifiedBatch.BuildBatch` | prover/crates/host/src/s1.rs:194-259 | succeeds if and only if every burn verifies under one trust base and no lock nonce and no nullifier repeats; the relation then accepts the result if and only if every leaf is its token's own |
| `Wire.DecodesIff` | prover/crates/guest/src/wire.rs:21-69 | bytes decode to an input if and only if the input is encodable and the bytes are its encoding: accepted payloads are canonical, with nothing trailing, given that the SDK's codecs are canonical |
| `Wire.DecodeEncode` | prover/crates/guest/src/wire.rs:21-69 | every encodable input comes back from its encoding, with no assumption on the SDK |
| `Wire.EncodableIff` | prover/crates/guest/src/wire.rs:150-160 | an input is encodable if and only if every length fits four bytes and the SDK gives its own parts back |
| `Layout.EncodedLayout` | prover/crates/guest/src/wire.rs:21-173 | the whole payload byte by byte: version 2, the fields of configuration and public values in order and width, and the four lists behind their counts, with every field of leaves, references, witnesses, trust bases and burns |
| `Layout.OtherVersionRefused` | prover/crates/guest/src/wire.rs:45-52 | a payload that does not start with version 2 is refused |
| `Codecs.AtomLaws` | prover/crates/guest/src/wire.rs:162-212 | a fixed-width value reads back, and reads only what was written |
| `Codecs.PairLaws` | prover/crates/guest/src/wire.rs:228-271 | fields written one after the other read back one after the other, and only so |
| `Codecs.VecLaws` | prover/crates/guest/src/wire.rs:219-226 | a counted vector reads back, and reads only what was written |
| `Codecs.TaggedLaws` | prover/crates/guest/src/wire.rs:273-303 | a leading tag byte chooses between nothing and a value; other tags are refused |
| `Codecs.ByteStringLaws` | prover/crates/guest/src/wire.rs:214-217 | a length-prefixed byte string reads back, and reads only what was written |
| `Codecs.BlobLaws` | prover/crates/guest/src/wire.rs:287-300 | a value with an encoding of its own, carried as a byte string, reads back; canonical when its own codec is |
| `WireCursor.Cursor.Take` | prover/crates/guest/src/wire.rs:187-194 | takes the first bytes or fails when there are too few |
| `WireCursor.Cursor.BridgeConfig` | prover/crates/guest/src/wire.rs:228-239 | reads the configuration its codec describes and advances past it |
| `WireCursor.Cursor.Values` | prover/crates/guest/src/wire.rs:241-253 | reads the public values and advances past them |
| `WireCursor.Cursor.Leaf` | prover/crates/guest/src/wire.rs:255-264 | reads one leaf and advances past it |
| `WireCursor.Cursor.Ref` | prover/crates/guest/src/wire.rs:266-271 | reads one lock reference and advances past it |
| `WireCursor.Cursor.Leaves` | prover/crates/guest/src/wire.rs:219-226 | the push loop reads a counted vector of leaves |
| `WireCursor.Cursor.LockRefs` | prover/crates/guest/src/wire.rs:219-226 | the push loop reads a counted vector of lock references |
| `WireCursor.Cursor.Steps` | prover/crates/guest/src/wire.rs:280-284 | the push loop reads a counted vector of steps |
| `WireCursor.Cursor.AccumulatorWitness` | prover/crates/guest/src/wire.rs:273-285 | reads one witness, refusing unknown terminal tags |
| `WireCursor.Cursor.Witnesses` | prover/crates/guest/src/wire.rs:219-226 | the push loop reads a counted vector of witnesses |
| `WireCursor.Cursor.TrustNode` | prover/crates/guest/src/wire.rs:320-331 | reads one trust base node, refusing a bad id or key |
| `WireCursor.Cursor.Nodes` | prover/crates/guest/src/wire.rs:320-331 | the push loop reads a counted vector of nodes |
| `WireCursor.Cursor.RootTrustBase` | prover/crates/guest/src/wire.rs:313-344 | reads a trust base, refusing bad network ids and trust bases that do not validate |
| `WireCursor.Cursor.BridgeBurn` | prover/crates/guest/src/wire.rs:287-311 | reads one burn, refusing unknown verification tags and parts the SDK refuses |
| `WireCursor.Cursor.Burns` | prover/crates/guest/src/wire.rs:219-226 | the push loop reads a counted vector of burns |
| `WireCursor.DecodeGuestInput` | prover/crates/guest/src/wire.rs:45-69 | the decoder as it runs is the decoding the laws speak of |
| `WireCursor.Output.PutConfig` | prover/crates/guest/src/wire.rs:71-80 | appends the configuration |
| `WireCursor.Output.PutPublicValues` | prover/crates/guest/src/wire.rs:82-92 | appends the public values |
| `WireCursor.Output.PutReturnLeaf` | prover/crates/guest/src/wire.rs:94-101 | appends one leaf |
| `WireCursor.Output.PutLockRef` | prover/crates/guest/src/wire.rs:103-106 | appends one lock reference |
| `WireCursor.Output.PutAccumulatorWitness` | prover/crates/guest/src/wire.rs:108-121 | appends one witness |
| `WireCursor.Output.PutBridgeBurn` | prover/crates/guest/src/wire.rs:123-134 | appends one burn |
| `WireCursor.Output.PutTrustBase` | prover/crates/guest/src/wire.rs:136-148 | appends a trust base |
| `WireCursor.EncodeGuestInput` | prover/crates/guest/src/wire.rs:21-43 | the encoder as it runs is the encoding the laws speak of |
| `Ledger.VerdictIff` | prover/crates/service/src/sequencer.rs:65-93 | a release is confirmed if and only if the source lists that nullifier in that transaction, whatever the letter case; otherwise a reason is never empty |
| `Ledger.FindUnconfirmed` | prover/crates/service/src/sequencer.rs:83-90 | the first entry given for that nullifier and transaction, and none exactly when there is no such entry |
| `Ledger.SettledBatches` | prover/crates/service/src/domain/ledger.rs:139-145 | lists exactly the settled batches whose bundle states its roots, each as the chain log would name it |
| `Ledger.SettledIsKnown` | prover/crates/service/src/domain/batch.rs:66-75 | a proven batch that settles is known from then on by its nullifiers, old root and new root, in the transaction that settled it |
| `Ledger.NextDoes` | prover/crates/service/src/domain/ledger.rs:305-446 | the ledger after an event is the one with exactly the event's effect: on settling, the returns still in the batch and no others become settled with its transaction; on proving, failing and rebasing likewise their status; an exclusion changes its one return by its reason; the batch's record changes as stated and nothing else does |
| `Settlement.NextAlike` | prover/crates/service/src/domain/ledger.rs:41-66 | events never change a burn, a batch's members or the nullifier index |
| `Settlement.SettledHasEvidence` | prover/crates/service/src/orchestrator.rs:319-371 | over every lawful trace, a return that becomes settled has evidence of its own: its nullifier was in the bundle that landed with a receipt, or in the released batch and confirmed by a second source in the batch's transaction, or its own release was confirmed |
| `Settlement.CoveredKept` | prover/crates/service/src/domain/ledger.rs:305-317 | over every lawful trace a proven batch spends the nullifiers of all returns still in it |
| `Settlement.ProofsMade` | prover/crates/service/src/orchestrator.rs:206-245 | over every lawful trace the proof of each batch, fresh or taken over from an earlier batch, was made for a payload the relation accepts, with exactly the batch's nullifiers and on exactly the root it was recorded for |
| `Settlement.EndEndsMembers` | prover/crates/service/src/domain/ledger.rs:319-350 | when a batch ends, every return still in it is settled with the batch's transaction, or failed with it; none is left in it and no other return changes |
| `Settlement.SubmittedBundle` | prover/crates/service/src/orchestrator.rs:248-264 | what was submitted is the bundle its batch has in the ledger |
| `Settlement.OwnConfirmed` | prover/crates/service/src/orchestrator.rs:325-371 | a confirmation of the batch's members confirms each return still in it |
| `Settlement.SubmitsOnFreshRoot` | prover/crates/service/src/orchestrator.rs:248-264 | a bundle is submitted only right after a read of the very root the batch was proven on |
| `Settlement.RebasesBounded` | prover/crates/service/src/orchestrator.rs:537-551 | a batch rebases no further than the limit |
| `Settlement.LowerIsSame` | prover/crates/service/src/domain/ledger.rs:72-76 | looking a nullifier up in lower case is comparing it up to letter case |
| `Orchestrator.OneTransactionConfirms` | prover/crates/service/src/orchestrator.rs:337-352 | one confirmed transaction for every verdict means a second source confirmed every member's release in it |
| `Orchestrator.OneTransactionIff` | prover/crates/service/src/orchestrator.rs:341-352 | there is one transaction exactly when there are verdicts, one is enough, and all of them confirm it up to letter case |
| `Orchestrator.SettlesIff` | prover/crates/service/src/orchestrator.rs:325-371 | a released batch settles if and only if one transaction released every member still in it, at least one, and a second source confirmed each of these releases |
| `Orchestrator.JudgedBacked` | prover/crates/service/src/orchestrator.rs:455-496 | every verdict that settles a return rests on the second source's answer |
| `Orchestrator.ReplacedBacked` | prover/crates/service/src/orchestrator.rs:426-450 | replacing exclusions by verdicts leaves no confirmation without an answer behind it |
| `Orchestrator.VerdictAt` | prover/crates/service/src/orchestrator.rs:426-450 | each exclusion that says already settled, its burn known, becomes the second source's verdict on exactly that release; every other stays as it is |
| `Orchestrator.ReleasedIn` | prover/crates/service/src/orchestrator.rs:581-588 | the walk over witnesses finds all released exactly when there is a nullifier and all are in the accumulator |
| `Orchestrator.Orchestrator.Apply` | prover/crates/service/src/domain/ledger.rs:41-66 | applies one permitted event to the ledger, with exactly that event's effect on every return and batch |
| `Orchestrator.Orchestrator.ReadChain` | prover/crates/service/src/sequencer.rs:185-192 | whatever log comes back is rebuilt together with exactly the batches the ledger knows settled; it is read if and only if all those steps have one history giving the reported live root, and the result is that history: its nullifiers, root and transactions |
| `Orchestrator.Orchestrator.Sync` | prover/crates/service/src/orchestrator.rs:502-535 | the exact reads: up to three retries of an unavailable log, then the history just read from log and ledger, or the batch failed as unavailable after the last retry and as rejected at once on an unusable log |
| `Recovery.KnownAddsNothing` | prover/crates/service/src/sequencer.rs:185-192 | when the log names every transition of the settled batches, the read succeeds exactly when it would on the log alone, and gives the nullifiers and the root of that history |
| `Recovery.KnownFillsIn` | prover/crates/service/src/sequencer.rs:185-192 | when log and ledger together name exactly the steps of a run of the vault, the read succeeds exactly unless another live root is reported, and gives the run's root and nullifiers, whatever the log alone misses |
| `Recovery.ReadsTheVault` | prover/crates/service/src/sequencer.rs:185-192 | so the read gives the root the contract stores and exactly the nullifiers it released |
| `Orchestrator.Orchestrator.Confirm` | prover/crates/service/src/orchestrator.rs:455-496 | asks only when some release names a transaction, and judges every release by the answer |
| `Orchestrator.Orchestrator.Exclude` | prover/crates/service/src/orchestrator.rs:565-574 | applies exactly the exclusions given, in order; no batch changes, and no excluded return waits in a batch any longer |
| `Orchestrator.Orchestrator.CheckExcluded` | prover/crates/service/src/orchestrator.rs:426-450 | the exclusions assembly found released are replaced by the second source's verdicts, each used once; the others stay |
| `Orchestrator.Orchestrator.SettleReleased` | prover/crates/service/src/orchestrator.rs:325-371 | a batch released on chain settles if and only if one transaction released every member still in it and a second source confirmed each of these; then every return still in it is settled with that transaction, otherwise failed, with the verdicts applied |
| `Orchestrator.Orchestrator.AwaitSettlement` | prover/crates/service/src/orchestrator.rs:286-317 | the log is looked at up to five times; each look in vain found it unreadable or the batch neither released nor overtaken; the first other look settles, fails or rebases the batch, and after the fifth in vain it fails as never submitted |
| `Orchestrator.Orchestrator.RebaseOrFail` | prover/crates/service/src/orchestrator.rs:537-551 | when the root moved: rebases if and only if within the limit, and fails otherwise |
| `Orchestrator.Orchestrator.Fail` | prover/crates/service/src/orchestrator.rs:553-563 | records exactly one failure of the batch |
| `Orchestrator.Orchestrator.SettleStage` | prover/crates/service/src/orchestrator.rs:248-280 | a batch neither released nor overtaken by the root just read has its bundle submitted at once, and only then |
| `Orchestrator.Orchestrator.TakeOutcome` | prover/crates/service/src/orchestrator.rs:262-279 | the exact events each answer of the relayer leads to: settled, left proven, rebased or failed, or looked for on chain; with a receipt every return still in the batch is settled with its transaction |
| `Orchestrator.Orchestrator.SubmitBundle` | prover/crates/service/src/orchestrator.rs:259-280 | submits the batch's own bundle right after the read it chains onto |
| `Orchestrator.Orchestrator.CheckOnce` | prover/crates/service/src/orchestrator.rs:294-313 | one look at the log: in vain when it is unread or shows neither release nor overtaking; otherwise a released batch is settled or failed and an overtaken one rebased or failed |
| `Orchestrator.Orchestrator.ExcludeChecked` | prover/crates/service/src/orchestrator.rs:202-205 | at most one question to the second source, then what assembly excluded, with its verdicts, member by member |
| `Orchestrator.Orchestrator.AfterAssembly` | prover/crates/service/src/orchestrator.rs:180-232 | exclusions come first in the trace; then the assembled batch is proven, or the batch fails as rejected and nothing follows |
| `Orchestrator.Orchestrator.ProveStage` | prover/crates/service/src/orchestrator.rs:155-246 | the prover is asked only for a payload that the relation accepts and that starts from the root just read, and a proof is recorded only when it spends the nullifiers of all returns still in the batch |
| `Orchestrator.KeptCovers` | prover/crates/service/src/orchestrator.rs:180-232 | once the excluded members are out, what was assembled spends the nullifiers of all returns still in the batch |
| `Orchestrator.Orchestrator.ProveAssembled` | prover/crates/service/src/orchestrator.rs:206-245 | either an earlier proof of the same nullifiers on the same root is recorded at once, or a proof is asked for and then recorded, or the batch fails as unproven |
| `Orchestrator.Orchestrator.ObtainProof` | prover/crates/service/src/orchestrator.rs:208-232 | a proof is asked for exactly when no earlier one of the same nullifiers on the same root can be taken |
| `Orchestrator.Orchestrator.ProofFor` | prover/crates/service/src/domain/ledger.rs:158-176 | of the unsettled batches proven for these nullifiers on this root, the proof of the one proven last, and none exactly when there is none |
| `Orchestrator.Orchestrator.RecordProof` | prover/crates/service/src/orchestrator.rs:233-245 | records the proof first, then goes on with the batch as the ledger then has it |
| `Orchestrator.Orchestrator.RunBatch` | prover/crates/service/src/orchestrator.rs:141-153 | whatever the chain, the prover and the settler answer: it returns, keeps the trace lawful, settles or fails the batch once and last unless the relayer skipped it, rebases within the limit, leaves other batches alone, and leaves no return in an ended batch: each that was still in it is settled with the batch's transaction or failed with it |
| `EventGrouping.ClaimReleases` | contracts/tron/scripts/relayer-lib.js:70-84 | the inner loop claims the releases before the next batch, refusing those of another transaction |
| `EventGrouping.GroupBatches` | contracts/tron/scripts/relayer-lib.js:58-90 | the outer loop groups the sorted events |
| `EventGrouping.SortedInOrder` | contracts/tron/scripts/relayer-lib.js:59-62 | sorting keeps the events and orders them by block, and by index within a block |
| `EventGrouping.ClaimIff` | contracts/tron/scripts/relayer-lib.js:69-76 | a batch claims the first releases after it, up to its size or the next batch, and is refused at the first of them that names another transaction |
| `EventGrouping.BatchAtIff` | contracts/tron/scripts/relayer-lib.js:65-87 | a batch is grouped if and only if as many releases as it states follow it before the next batch and none names another transaction; a truncated one is refused with the numbers expected and found |
| `EventGrouping.GroupIff` | contracts/tron/scripts/relayer-lib.js:58-90 | a log is grouped if and only if every batch in it is complete in this sense |
| `EventGrouping.GroupInverts` | contracts/tron/scripts/relayer-lib.js:58-90 | grouping a trace that holds the emissions of some batches among other events gives those batches |
| `EventGrouping.GroupingInvertsEmission` | contracts/tron/scripts/relayer-lib.js:58-90 | and so does grouping any permutation of it |
| `StableSort.SortSorts` | contracts/tron/scripts/relayer-lib.js:59-63 | sorting by block and index orders the events and keeps exactly them |
| `StableSort.SortRestores` | contracts/tron/scripts/relayer-lib.js:59-63 | events at strictly increasing places have one sorted order |
| `Vault.RunSafe` | contracts/tron/contracts/UnicityBridgeVault.sol:206-243 | over every run of settled batches the released nullifiers are pairwise distinct and the stored root is the root of exactly that set, unless a listed input collides |
| `Vault.RunChains` | contracts/tron/contracts/UnicityBridgeVault.sol:220-243 | every run of accepted batches is a chain of valid accumulator steps |
| `Vault.RunIsItsHistory` | prover/crates/host/src/s2.rs:130-186 | a log that names exactly a run's steps has that run as its history |
| `Vault.RecoverFromEvents` | contracts/tron/scripts/relayer-lib.js:58-90 | grouping then rebuilding recovers a run's root and nullifiers from its events, among others and in any order |
| `Vault.LogEmits` | contracts/tron/contracts/UnicityBridgeVault.sol:242-270 | what the contract logs over a run is one batch event and its releases, batch after batch |
| `Vault.RecoverFromLog` | contracts/tron/contracts/UnicityBridgeVault.sol:242-270 | from the contract's own log, in any order of arrival, its root and released nullifiers come back |
| `Vault.ReleasesWithinLocks` | contracts/tron/contracts/UnicityBridgeVault.sol:227-239 | an accepted batch whose references the vault stores releases at most what is locked under the distinct nonces it names, unless lock digests collide |
| `Vault.LockRefStored` | prover/crates/sdk-ext/src/bridge.rs:132-183 | the guest's reference to a lock the vault stores is the digest the vault stored for it, for a token minted from that lock with its amount, id and recipient |
| `BridgeTokens.AllocatedAt` | prover/crates/sdk-ext/src/bridge.rs:332-347 | an accepted output's coin is proved against its root in the manifest, whose sum is what the source holds |
| `Conservation.ParentOk` | prover/crates/sdk-ext/src/bridge.rs:265-350 | what stands behind a split output: its source, certified, burned to the manifest, drawing on the same lock |
| `Conservation.OutputsWithinSource` | prover/crates/sdk-ext/src/bridge.rs:332-347 | outputs of one burned source, with distinct ids, hold together no more than the source |
| `Conservation.AncestorWith` | prover/crates/sdk-ext/src/bridge.rs:226-373 | every token a piece descends from is certified and burned to a split manifest |
| `Conservation.FamilyWithinLock` | prover/crates/sdk-ext/src/bridge.rs:226-373 | tokens that descend from one lock, none an ancestor of another, hold together no more than the lock, by induction over the forest of splits |
| `Conservation.LockConserved` | prover/crates/sdk-ext/src/bridge.rs:226-373 | however often the value of one lock was split, what is burned of it for return in any number of burns is together no more than the lock |
| `Solvency.PiecesDiffer` | prover/crates/guest/src/lib.rs:214-262 | distinct nullifiers come from distinct tokens |
| `Solvency.RunReturned` | contracts/tron/contracts/UnicityBridgeVault.sol:206-243 | every leaf released over a run is the coin of a certified token burned for return, on a lock the vault stores |
| `Solvency.LockNeverOverdrawn` | contracts/tron/contracts/UnicityBridgeVault.sol:206-243 | over a whole run, in any batches and after any splits, what is released of one lock is at most that lock |
| `Solvency.RunSolvent` | contracts/tron/contracts/UnicityBridgeVault.sol:206-243 | over every run each lock is drawn on for at most its amount, and all releases together are at most all locks together |
| `Solvency.VaultSolvent` | contracts/tron/contracts/UnicityBridgeVault.sol:174-270 | and so at any time for the contract: its releases so far, per lock and in all, are covered by what was locked with it |
| `Solvency.CreditsPayable` | contracts/tron/contracts/UnicityBridgeVault.sol:278-284 | at any time the balance covers all credits and, besides, what is left of the locks; so every credit can be withdrawn |
| `Solvency.NextPayable` | contracts/tron/contracts/UnicityBridgeVault.sol:206-271 | no settlement fails for want of funds: a batch the relation accepts on the vault's root, with stored references, is paid in full at any time, pushed or credited, as long as the asset does not refuse |
| `Vault.HeldPermutes` | contracts/tron/contracts/UnicityBridgeVault.sol:227-232 | what named locks hold together does not depend on their order |
| `Vault.CheckRefs` | contracts/tron/contracts/UnicityBridgeVault.sol:227-232 | passes if and only if nonces strictly increase and every digest is the stored one |
| `Vault.CheckValue` | contracts/tron/contracts/UnicityBridgeVault.sol:234-239 | passes if and only if every fee is within its amount and the unwrapped sum is the stated total |
| `Vault.Contract.Lock` | contracts/tron/contracts/UnicityBridgeVault.sol:174-200 | locks exactly positive amounts below 2^64 for non-zero, not yet locked token ids and non-zero recipients, when the asset hands over the exact amount, under the next nonce |
| `Vault.Contract.FulfillBatch` | contracts/tron/contracts/UnicityBridgeVault.sol:212-270 | settles if and only if proof, statement, root, references and value check out and the batch can be paid; then root, log and funds advance together, every account gets exactly the principals and due fees of the leaves that name it, and what is released is at most what the named locks hold; otherwise nothing changes |
| `Vault.Contract.Withdraw` | contracts/tron/contracts/UnicityBridgeVault.sol:278-284 | pays the sender its whole credit, exactly when there is one and the balance and the asset allow it; the transfer to the sender is recorded, the credit cleared, other accounts untouched |
| `Payouts.PayLeaves` | contracts/tron/contracts/UnicityBridgeVault.sol:250-270 | the loop pays leaf by leaf, principal then fee, in either mode, and undoes everything on the first failure |
| `Payouts.PayAllKeeps` | contracts/tron/contracts/UnicityBridgeVault.sol:250-270 | paying a batch takes no more from balance less debts than the batch's amounts, and adds at most them to the debts |
| `Payouts.PayAllSucceeds` | contracts/tron/contracts/UnicityBridgeVault.sol:250-270 | a batch whose amounts the funds cover is paid in full, pushed or credited, whatever the fees and deadlines |
| `Payouts.PullCredits` | contracts/tron/contracts/UnicityBridgeVault.sol:255-264 | in pull mode a batch is paid if and only if every account's credit still fits a word, and then each account is credited exactly the principals of the leaves that name it as recipient and the due fees of those that name it as fee recipient; nothing moves |
| `Payouts.PushPays` | contracts/tron/contracts/UnicityBridgeVault.sol:264-331 | in push mode a batch is paid if and only if the balance covers what goes to others and the asset consents, and then every other account is sent exactly its principals and its due fees; what names the vault itself stays |
| `Payouts.PaysExactly` | contracts/tron/contracts/UnicityBridgeVault.sol:250-270 | so in either mode the batch is paid exactly when it can be, and every account gets exactly what it is entitled to |
| `Vault.Contract.SetTrustBaseAllowed` | contracts/tron/contracts/UnicityBridgeVault.sol:290-293 | adds or removes one trust base hash and keeps everything else |
| `Cbor.WriteHead` | packages/bridge-plugin/src/bridge-back/cbor.ts:13-34 | the writer's five branches, byte by byte, for every integer: the shortest head of arguments below 2^64, and one byte for a negative one |
| `Cbor.StripZeros` | packages/bridge-plugin/src/bridge-back/cbor.ts:83-87 | the loop strips leading zero bytes and no others |
| `Cbor.ReadHeadInverts` | packages/bridge-plugin/src/bridge-back/cbor.ts:13-34 | reading inverts writing a head, for every major type and argument below 2^64, whatever follows |
| `Cbor.ReadHeadOnly` | packages/bridge-plugin/src/bridge-back/cbor.ts:95-151 | the reader accepts only bytes the writer produces (section 4.2.1 of RFC 8949) |
| `Cbor.HeadReadableIff` | packages/bridge-plugin/src/bridge-back/cbor.ts:13-34 | a head reads back if and only if its major type is below 8 and its argument a natural number below 2^64 |
| `Cbor.NegativeNumberLost` | packages/bridge-plugin/src/bridge-back/cbor.ts:13-34 | a negative number is lost: minus 256 is written as zero |
| `Cbor.HeadPrefixFree` | packages/bridge-plugin/src/bridge-back/cbor.ts:13-34 | no head is a prefix of another |
| `Cbor.ReadBytesInverts` | packages/bridge-plugin/src/bridge-back/cbor.ts:54-57 | reading inverts writing a byte string |
| `Cbor.ReadBytesOnly` | packages/bridge-plugin/src/bridge-back/cbor.ts:95-151 | a byte string read is one written |
| `Cbor.ReadUintInverts` | packages/bridge-plugin/src/bridge-back/cbor.ts:49-52 | reading inverts writing an unsigned integer |
| `Cbor.CborReader.NextHead` | packages/bridge-plugin/src/bridge-back/cbor.ts:95-151 | the stateful reader reads the head and advances past it |
| `Cbor.CborReader.NextBytes` | packages/bridge-plugin/src/bridge-back/cbor.ts:95-151 | the stateful reader reads a byte string and advances past it |
| `BurnReason.ReasonLayout` | packages/bridge-plugin/src/bridge-back/derivations.ts:111-127 | the bytes of a reason within its widths: the tag over an array of eleven items in this order, amounts without leading zeros |
| `BurnReason.RawInverts` | packages/bridge-plugin/src/bridge-back/derivations.ts:111-188 | reading inverts writing a burn reason of amounts as byte strings |
| `BurnReason.RawOnly` | packages/bridge-plugin/src/bridge-back/derivations.ts:157-188 | only what is written is read |
| `BurnReason.WriteU256be` | packages/bridge-plugin/src/bridge-back/derivations.ts:34-43 | the loop writes the 32-byte word of every amount below 2^256 and refuses the others |
| `BurnReason.BeToBigInt` | packages/bridge-plugin/src/bridge-back/derivations.ts:190-194 | the loop computes the value of the bytes |
| `BurnReason.ReadBridgeBackReason` | packages/bridge-plugin/src/bridge-back/derivations.ts:157-188 | the decoder as it drives the reader |
| `BurnReason.ReasonRoundTripIff` | packages/bridge-plugin/src/bridge-back/derivations.ts:111-188 | the encoder succeeds and decoding gives the reason back if and only if tag, version, chain id and deadline are natural numbers below 2^64, amounts natural numbers below 2^256, and the byte strings have encodable lengths |
| `BurnReason.CanonicalIsMinimal` | prover/crates/guest/src/lib.rs:329-339 | the guest's leading-zero test accepts exactly minimal amounts |
| `SdkCbor.StrictIsCanonical` | prover/crates/guest/src/lib.rs:288-327 | a reader that meets the contract the guest's decode is proved under: strict, canonical, and total on canonical items |
| `BurnReason.GuestRawIff` | prover/crates/guest/src/lib.rs:288-339 | the guest, tag then eleven items then each field, reads raw fields from bytes if and only if the bytes are their wire form with the guest's widths and unpadded amounts |
| `BurnReason.GuestReads` | prover/crates/guest/src/lib.rs:288-339 | of all wire forms the guest reads exactly those under its tag, of its widths, with canonical amounts, and reads what they mean |
| `BurnReason.GuestInjective` | prover/crates/guest/src/lib.rs:288-339 | two byte strings that the guest decodes to one reason are one byte string |
| `BurnReason.GuestAcceptsIff` | prover/crates/guest/src/lib.rs:288-339 | the guest decodes bytes to a reason if and only if the reason is under its tag, of its widths, and the bytes are what the plugin's encoder writes for it |
| `BurnReason.PaddedAmountReadsTheSame` | packages/bridge-plugin/src/bridge-back/derivations.ts:157-194 | the plugin's decoder reads a zero-padded amount as the unpadded one, which the guest refuses |
| `LockLookup.ReadLogs` | packages/bridge-plugin/src/wallet/lock-lookup.ts:108-116 | what is served after at most one retry is the window asked for |
| `LockLookup.Scan` | packages/bridge-plugin/src/wallet/lock-lookup.ts:91-106 | a hit is a matching lock, nothing means no matching lock in the range and windows that tile it exactly, and it throws only when a window of at most 1000 blocks is refused |
| `LockLookup.Locate` | packages/bridge-plugin/src/wallet/lock-lookup.ts:76-89 | unless it throws, a transaction comes back if and only if a lock of the token id exists between floor and tip, it is that of such a lock, and of the signer's when the signer has one in the first range |
| `Hex.HexZero` | packages/bridge-plugin/src/wallet/lock-lookup.ts:62-68 | the number a hexadecimal text writes is zero exactly when every digit is 0 |
| `Hex.HexReadsBack` | packages/bridge-plugin/src/wallet/lock-lookup.ts:62-68 | the text of a word, read as a number, gives the number the word stands for |
| `LockLookup.WordAnswers` | packages/bridge-plugin/src/wallet/lock-lookup.ts:62-68 | a vault that answers with any 32-byte word is read as locked exactly when that word is not zero, and it is not zero exactly when its text has another digit than 0 |
| `LockLookup.UsedIff` | packages/bridge-plugin/src/wallet/lock-lookup.ts:62-68 | the vault's answer counts if and only if it is one word of hexadecimal digits, and says locked exactly when some digit is not 0 |
| `LockLookup.FindLock` | packages/bridge-plugin/src/wallet/lock-lookup.ts:42-60 | a failed or malformed answer to any question fails the search; absent if and only if the vault twice did not know the token id with nothing in flight; found names a lock of the token id, and is the answer whenever the vault knows it and the logs hold it |

## Left out

- SHA-256, Keccak, secp256k1, proof verification, and every single-hash derivation (configuration hash, lock digest, nullifier, return root, domain tags): arbitrary functions.
- The token SDK's decoding, CBOR, inclusion certificates, split allocation proofs and trust base validation: arbitrary functions and predicates, under the contracts named above.
- Who may administer the vault, and the change of administrator; reentrancy and the gas stipend of transfers.
- HTTP, process spawning, JSON and environment parsing, journals, clocks and delays, wallets, deployment scripts.
- The ledger's retry schedule, attempts, messages, queue positions, acceptance and batch formation: they decide when a batch is tried, not what settles it.
- `recheck_releases` and the outer loop of the orchestrator: the same confirmation step on single returns, outside one batch's run.
- Writes to the ledger by other tasks while a batch runs: the store accepts new returns meanwhile, which touch no batch in flight.
- The element reader passed as a function to the cursor's vector loop: one loop per element type in the model.
- Public keys and node ids in the wire format: their bytes stand for them, behind the SDK's checks.
- ABI encoding (`abi_encode`, `public_values_abi`) and the plugin's duplicates of the core derivations.
- Recovery.KnownFillsIn: that the roots a settled bundle states are those of its batch is a hypothesis; the service takes them from the prover's output.
- Vault.Contract.FulfillBatch: the proof verifier is taken to be sound, and the return root, lock reference root and configuration hash to bind the call to the proof's witness; these are hypotheses on the call.
- Vault.Contract.Lock: nonces stay below 2^64, the width the token side carries.
- Solvency.NextPayable: that the asset does not refuse a transfer is outside the vault; nothing is said of a batch whose transfers are refused.
- GuestRelation.CacheExact: needs that the trust base documents of one batch do not collide under SHA-256 and that the SDK's CBOR writer is canonical.
- Vault.ReleasesWithinLocks: needs that the lock digests of one batch are not zero and bind the locked amount.
- Orchestrator.Orchestrator.ProveStage: needs that the members' inputs together fit the wire format's four-byte counts, where the program would panic.
- LockLookup.Locate: the node serves exactly the logs of a window it does not refuse, and the chain does not change during a search.
- Settlement.LowerIsSame: letters are lowered in ASCII, where the program lowers Unicode; the nullifiers it is used on are hexadecimal.
- BurnReason.GuestAcceptsIff: needs the SDK's CBOR reader to be canonical, which its sources would have to show.
- Settlement.SettledHasEvidence: a stored burn's nullifier is that of its input's first leaf, and a nullifier leads to one return; the ledger keeps both when it accepts a burn, which is not part of this model.
