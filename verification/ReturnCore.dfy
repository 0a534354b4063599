/**
 * The return contract shared by host and guest: release leaves, source-lock references, the public
 * statement of a batch and its validation.
 */
module ReturnCore {
  import opened ByteWords
  import opened Wrappers
  import opened BigEndian
  import StableSort

  type u16 = x: int | 0 <= x < 0x1_0000
  type u32 = x: int | 0 <= x < 0x1_0000_0000
  type u64 = x: int | 0 <= x < 0x1_0000_0000_0000_0000

  type Address = b: Bytes | |b| == 20 witness Zeros(20)

  const U64_LIMIT: nat := 0x1_0000_0000_0000_0000

  type U256 = Bytes32

  datatype Config = Config(
    sourceChainId: u64, vault: Address, asset: Address, tokenType: Bytes32, coinId: Bytes32,
    reasonTag: u64, lockDomain: Bytes32, nullifierDomain: Bytes32)

  datatype ReturnLeaf = ReturnLeaf(
    nullifier: Bytes32, recipient: Address, amount: U256, feeRecipient: Address, feeAmount: U256, deadline: u64)

  datatype LockRef = LockRef(nonce: u64, digest: Bytes32)

  datatype PublicValues = PublicValues(
    domainTag: Bytes32, configHash: Bytes32, trustBaseHash: Bytes32, spentRootOld: Bytes32, spentRootNew: Bytes32,
    returnRoot: Bytes32, lockRefRoot: Bytes32, batchSize: u32, totalAmount: U256)

  datatype Error =
    | DuplicateLockRefNonce | LockRefsNotSorted | WrongDomainTag | WrongConfigHash | WrongTrustBaseHash
    | WrongReturnRoot | WrongLockRefRoot | WrongBatchSize | WrongTotalAmount | WrongAccumulatorWitness
    | WrongSpentRootNew | TokenVerificationFailed | WrongLockObligation | BurnTransferMissing | BurnReasonMissing
    | BurnReasonMalformed | BurnReasonMismatch | WrongBurnPredicate | WrongNullifier | WrongBurnAmount
    | WireDecodeFailed

  datatype Check = Pass | Fail(error: Error)

  /** The Keccak derivations of the statement, each one hash of its arguments. */
  datatype Derivations = Derivations(
    domainTag: Bytes32,
    configHash: Config -> Bytes32,
    returnRoot: seq<ReturnLeaf> -> Bytes32,
    lockRefHash: seq<LockRef> -> Bytes32)

  // ----- amounts

  const WORD: nat := Pow256(32)

  /** The integer sum of the leaf amounts. */
  function AmountSum(leaves: seq<ReturnLeaf>): nat {
    if leaves == [] then 0 else AmountSum(leaves[..|leaves| - 1]) + Value(leaves[|leaves| - 1].amount)
  }

  /** 256-bit addition: the sum, less the word size when it does not fit. */
  function AddU256(left: U256, right: U256): U256 {
    var sum := Value(left) + Value(right);
    Encode(if sum < WORD then sum else sum - WORD, 32)
  }

  function SumAmounts(leaves: seq<ReturnLeaf>): U256 {
    if leaves == [] then ZERO32 else AddU256(SumAmounts(leaves[..|leaves| - 1]), leaves[|leaves| - 1].amount)
  }

  method ComputeAddU256(left: U256, right: U256) returns (sum: U256)
    ensures sum == AddU256(left, right)
  {
    hide Value, Pow256, Encode;
    var word := new byte[32](i requires 0 <= i < 32 => left[i]);
    assert word[..] == left;
    AddInto(word, right);
    sum := word[..];
    EncodeValue(sum);
  }

  method ComputeSumAmounts(leaves: seq<ReturnLeaf>) returns (acc: U256)
    ensures acc == SumAmounts(leaves)
  {
    acc := ZERO32;
    for i := 0 to |leaves|
      invariant acc == SumAmounts(leaves[..i])
    {
      assert leaves[..i + 1][..i] == leaves[..i];
      acc := ComputeAddU256(acc, leaves[i].amount);
    }
    assert leaves[..|leaves|] == leaves;
  }

  /** The committed total is the integer sum modulo 2^256, hence the integer sum exactly when
      that sum fits a word. */
  lemma {:induction false} SumExact(leaves: seq<ReturnLeaf>)
    ensures Value(SumAmounts(leaves)) == AmountSum(leaves) % WORD
    ensures Value(SumAmounts(leaves)) == AmountSum(leaves) <==> AmountSum(leaves) < WORD
  {
    hide Value, Pow256, Encode, AddU256;
    if leaves == [] {
      ValueZeros(32, []);
    } else {
      var init, last := leaves[..|leaves| - 1], leaves[|leaves| - 1].amount;
      SumExact(init);
      AddValue(SumAmounts(init), last);
      ValueBound(last);
      ModAdd(AmountSum(init), Value(SumAmounts(init)), Value(last), AmountSum(leaves), WORD);
    }
    ModSmall(AmountSum(leaves), WORD);
  }

  lemma AddValue(left: U256, right: U256)
    ensures Value(left) < WORD && Value(right) < WORD
    ensures var sum := Value(left) + Value(right);
            Value(AddU256(left, right)) == if sum < WORD then sum else sum - WORD
  {
    hide Value, Pow256, Encode;
    ValueBound(left);
    ValueBound(right);
    var sum := Value(left) + Value(right);
    ValueEncode(if sum < WORD then sum else sum - WORD, 32);
  }

  lemma ModAdd(total: nat, low: nat, more: nat, total': nat, word: nat)
    requires low < word && more < word && total % word == low && total' == total + more
    ensures total' % word == if low + more < word then low + more else low + more - word
  {
    var q := total / word;
    assert total == word * q + low;
    if low + more < word {
      QuotientIs(total', q, low + more, word);
    } else {
      assert total' == word * (q + 1) + (low + more - word);
      QuotientIs(total', q + 1, low + more - word, word);
    }
  }

  lemma ModSmall(total: nat, word: nat)
    requires word > 0
    ensures total % word == total <==> total < word
  {
  }

  lemma QuotientIs(x: nat, q: nat, r: nat, word: nat)
    requires r < word && x == word * q + r
    ensures x % word == r
  {
    var q', r' := x / word, x % word;
    assert word * (q - q') == r' - r;
    if q > q' {
      MulAtLeast(word, q - q');
    } else if q < q' {
      MulAtLeast(word, q' - q);
    }
  }

  lemma MulAtLeast(word: nat, n: nat)
    requires n >= 1
    ensures word * n >= word
  {
  }

  // ----- source-lock references

  ghost predicate StrictlyIncreasing(refs: seq<LockRef>) {
    forall i, j | 0 <= i < j < |refs| :: refs[i].nonce < refs[j].nonce
  }

  function NonceKey(r: LockRef): StableSort.Key {
    (r.nonce, 0)
  }

  function SortByNonce(refs: seq<LockRef>): seq<LockRef> {
    StableSort.Sort(NonceKey, refs)
  }

  /** The sort keeps the references, and restores any shuffling of strictly increasing ones. */
  lemma SortByNonceFacts(refs: seq<LockRef>, shuffled: seq<LockRef>)
    ensures multiset(SortByNonce(shuffled)) == multiset(shuffled) && |SortByNonce(shuffled)| == |shuffled|
    ensures StrictlyIncreasing(refs) && multiset(refs) == multiset(shuffled) ==> SortByNonce(shuffled) == refs
  {
    StableSort.SortSorts(NonceKey, shuffled);
    if StrictlyIncreasing(refs) && multiset(refs) == multiset(shuffled) {
      StableSort.SortRestores(NonceKey, refs, shuffled);
    }
  }

  /** The first adjacent pair out of order decides the error. */
  function CheckOrder(refs: seq<LockRef>): Check {
    if |refs| <= 1 then Pass
    else
      var last := |refs| - 1;
      match CheckOrder(refs[..last])
      case Fail(error) => Fail(error)
      case Pass =>
        if refs[last].nonce == refs[last - 1].nonce then Fail(DuplicateLockRefNonce)
        else if refs[last].nonce < refs[last - 1].nonce then Fail(LockRefsNotSorted)
        else Pass
  }

  lemma {:induction false} OrderedIffIncreasing(refs: seq<LockRef>)
    ensures CheckOrder(refs) == Pass <==> StrictlyIncreasing(refs)
  {
    if |refs| > 1 {
      var last := |refs| - 1;
      OrderedIffIncreasing(refs[..last]);
      if CheckOrder(refs) == Pass {
        forall i, j | 0 <= i < j < |refs|
          ensures refs[i].nonce < refs[j].nonce
        {
          if j == last && i < last - 1 {
            assert refs[..last][i].nonce < refs[..last][last - 1].nonce;
          } else if j < last {
            assert refs[..last][i].nonce < refs[..last][j].nonce;
          }
        }
      }
    }
  }

  function LockRefRoot(derive: Derivations, refs: seq<LockRef>): Result<Bytes32, Error> {
    match CheckOrder(refs)
    case Fail(error) => Err(error)
    case Pass => Ok(derive.lockRefHash(refs))
  }

  method ComputeLockRefRoot(derive: Derivations, refs: seq<LockRef>) returns (root: Result<Bytes32, Error>)
    ensures root == LockRefRoot(derive, refs)
  {
    var prev: Option<u64> := None;
    for i := 0 to |refs|
      invariant prev == if i == 0 then None else Some(refs[i - 1].nonce)
      invariant CheckOrder(refs[..i]) == Pass
    {
      assert refs[..i + 1][..i] == refs[..i];
      if prev.Some? {
        if refs[i].nonce == prev.value {
          FailsEarly(refs, i + 1);
          return Err(DuplicateLockRefNonce);
        }
        if refs[i].nonce < prev.value {
          FailsEarly(refs, i + 1);
          return Err(LockRefsNotSorted);
        }
      }
      prev := Some(refs[i].nonce);
    }
    assert refs[..|refs|] == refs;
    root := Ok(derive.lockRefHash(refs));
  }

  lemma {:induction false} FailsEarly(refs: seq<LockRef>, n: nat)
    requires n <= |refs| && CheckOrder(refs[..n]).Fail?
    ensures CheckOrder(refs) == CheckOrder(refs[..n])
    decreases |refs|
  {
    if n == |refs| {
      assert refs[..n] == refs;
    } else {
      var last := |refs| - 1;
      assert refs[..last][..n] == refs[..n];
      FailsEarly(refs[..last], n);
    }
  }

  // ----- the public statement

  function ValidatePublicValues(derive: Derivations, config: Config, pv: PublicValues, leaves: seq<ReturnLeaf>,
      refs: seq<LockRef>): Check
  {
    if pv.domainTag != derive.domainTag then Fail(WrongDomainTag)
    else if pv.configHash != derive.configHash(config) then Fail(WrongConfigHash)
    else if pv.returnRoot != derive.returnRoot(leaves) then Fail(WrongReturnRoot)
    else
      match LockRefRoot(derive, refs)
      case Err(error) => Fail(error)
      case Ok(root) =>
        if pv.lockRefRoot != root then Fail(WrongLockRefRoot)
        else if pv.batchSize != |leaves| % 0x1_0000_0000 then Fail(WrongBatchSize)
        else if pv.totalAmount != SumAmounts(leaves) then Fail(WrongTotalAmount)
        else Pass
  }
}
