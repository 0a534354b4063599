/**
 * Assembling a batch: stored one-burn inputs are admitted one after the other, merged, put on top
 * of the vault's current accumulator and checked again before they are proven.
 */
module Assembler {
  import opened ByteWords
  import opened Wrappers
  import opened SparseTree
  import opened Accumulator
  import opened ReturnCore
  import opened BridgeTokens
  import opened GuestRelation
  import opened Codecs
  import opened Wire
  import opened WireCursor
  import opened MergedBatch
  import Rebuild

  datatype Burn = Burn(id: string, nullifier: string, wireInput: Bytes)

  datatype RejectionKind = Recipient | Unconfirmed | Lock

  /** A burn the settlement simulation refuses, by its nullifier in hex. */
  datatype Rejected = Rejected(nullifier: string, reason: string, kind: RejectionKind)

  datatype Defect = DoesNotDecode | ConfigDiffers | TrustBaseDiffers | NotTheVaultsLocks(reason: string) | NonceTaken

  datatype Exclusion =
    | AlreadySettled(txid: Option<string>, unconfirmed: Option<string>)
    | Refused(reason: string)
    | Invalid(why: Defect)

  datatype Assembled = Assembled(
    wire: Bytes, publicValues: PublicValues, leaves: seq<ReturnLeaf>, lockRefs: seq<LockRef>,
    kept: seq<string>, excluded: seq<(string, Exclusion)>)

  datatype AssembleError =
    | AllExcluded(excluded: seq<(string, Exclusion)>) | AccumulatorFailed | PrecheckFailed(cause: Error)

  const NOT_YET_CHECKED: string := "not yet checked against a second source"

  // ----- text

  function LowerCase(c: char): char {
    if 'A' <= c <= 'Z' then (c as int + 32) as char else c
  }

  /** Equal up to the case of ASCII letters. */
  predicate SameText(a: string, b: string) {
    |a| == |b| && forall i | 0 <= i < |a| :: LowerCase(a[i]) == LowerCase(b[i])
  }

  // ----- admission

  function FindRejected(rejected: seq<Rejected>, nullifier: string): (r: Option<Rejected>)
    ensures r.Some? ==> r.value in rejected && SameText(r.value.nullifier, nullifier)
    ensures r.None? ==> forall x | x in rejected :: !SameText(x.nullifier, nullifier)
  {
    if rejected == [] then None
    else if SameText(rejected[0].nullifier, nullifier) then Some(rejected[0])
    else FindRejected(rejected[1..], nullifier)
  }

  function WhyRejected(r: Rejected): Exclusion {
    match r.kind
    case Recipient => Refused(r.reason)
    case Unconfirmed => Refused("lock not confirmed yet: " + r.reason)
    case Lock => Invalid(NotTheVaultsLocks(r.reason))
  }

  /** The first leaf already spent on the vault. */
  function FirstSpent(spent: set<Bytes32>, leaves: seq<ReturnLeaf>): Option<Bytes32> {
    if leaves == [] then None
    else
      var last := |leaves| - 1;
      match FirstSpent(spent, leaves[..last])
      case Some(n) => Some(n)
      case None => if leaves[last].nullifier in spent then Some(leaves[last].nullifier) else None
  }

  lemma {:induction false} NoneSpent(spent: set<Bytes32>, leaves: seq<ReturnLeaf>)
    ensures FirstSpent(spent, leaves).None? <==> SeqSet(Nullifiers(leaves)) !! spent
  {
    if leaves != [] {
      NoneSpent(spent, leaves[..|leaves| - 1]);
      NullifiersLast(leaves);
    }
  }

  lemma NullifiersLast(leaves: seq<ReturnLeaf>)
    requires leaves != []
    ensures Nullifiers(leaves) == Nullifiers(leaves[..|leaves| - 1]) + [leaves[|leaves| - 1].nullifier]
    ensures SeqSet(Nullifiers(leaves)) == SeqSet(Nullifiers(leaves[..|leaves| - 1])) + {leaves[|leaves| - 1].nullifier}
  {
    SeqSetPush(Nullifiers(leaves[..|leaves| - 1]), leaves[|leaves| - 1].nullifier);
  }

  function Nonces(refs: seq<LockRef>): set<u64> {
    set r | r in refs :: r.nonce
  }

  predicate AnyTaken(refs: seq<LockRef>, taken: set<u64>) {
    exists r | r in refs :: r.nonce in taken
  }

  predicate UnlikeConfig(template: Option<(Config, PublicValues)>, x: GuestInput) {
    template.Some? && x.config != template.value.0
  }

  predicate UnlikeTrustBase(template: Option<(Config, PublicValues)>, x: GuestInput) {
    template.Some? && x.publicValues.trustBaseHash != template.value.1.trustBaseHash
  }

  /** The tests in their order; the first that fails decides. */
  ghost function Admission(sdk: SdkCodecs, spent: set<Bytes32>, txids: map<Bytes32, string>, rejected: seq<Rejected>,
    template: Option<(Config, PublicValues)>, taken: set<u64>, burn: Burn): Result<GuestInput, Exclusion>
  {
    match Decoded(sdk, burn.wireInput)
    case Err(_) => Err(Invalid(DoesNotDecode))
    case Ok(x) =>
      if UnlikeConfig(template, x) then Err(Invalid(ConfigDiffers))
      else if UnlikeTrustBase(template, x) then Err(Invalid(TrustBaseDiffers))
      else
        match FindRejected(rejected, burn.nullifier)
        case Some(r) => Err(WhyRejected(r))
        case None =>
          match FirstSpent(spent, x.leaves)
          case Some(n) => Err(AlreadySettled(if n in txids then Some(txids[n]) else None, Some(NOT_YET_CHECKED)))
          case None => if AnyTaken(x.lockRefs, taken) then Err(Invalid(NonceTaken)) else Ok(x)
  }

  method FindSpent(h: Hash, acc: Rebuild.Rebuilt, leaves: seq<ReturnLeaf>) returns (r: Option<Bytes32>)
    requires acc.tree.Valid()
    ensures r == FirstSpent(acc.tree.Contents(), leaves)
  {
    hide CanonicalWitness;
    for i := 0 to |leaves|
      invariant FirstSpent(acc.tree.Contents(), leaves[..i]).None?
    {
      assert leaves[..i + 1][..i] == leaves[..i];
      var w := acc.tree.NonMembershipWitness(h, leaves[i].nullifier);
      if w.None? {
        SpentEarly(acc.tree.Contents(), leaves, i + 1);
        return Some(leaves[i].nullifier);
      }
    }
    assert leaves[..|leaves|] == leaves;
    r := None;
  }

  lemma {:induction false} SpentEarly(spent: set<Bytes32>, leaves: seq<ReturnLeaf>, n: nat)
    requires n <= |leaves| && FirstSpent(spent, leaves[..n]).Some?
    ensures FirstSpent(spent, leaves) == FirstSpent(spent, leaves[..n])
    decreases |leaves|
  {
    if n < |leaves| {
      var last := |leaves| - 1;
      assert leaves[..last][..n] == leaves[..n];
      SpentEarly(spent, leaves[..last], n);
    } else {
      assert leaves[..n] == leaves;
    }
  }

  class Merge {
    var template: Option<(Config, PublicValues)>
    var taken: set<u64>
    var leaves: seq<ReturnLeaf>
    var lockRefs: seq<LockRef>
    var burns: seq<BurnWitness>
    var kept: seq<string>
    var excluded: seq<(string, Exclusion)>
    ghost var inputs: seq<GuestInput>

    /** The fields are those of the inputs taken so far. */
    ghost predicate Valid()
      reads this
    {
      && template == TemplateOf(inputs)
      && taken == Nonces(AllRefs(inputs))
      && leaves == AllLeaves(inputs)
      && lockRefs == AllRefs(inputs)
      && burns == AllBurns(inputs)
    }

    constructor ()
      ensures Valid() && inputs == [] && kept == [] && excluded == []
    {
      template, taken, leaves, lockRefs, burns, kept, excluded, inputs := None, {}, [], [], [], [], [], [];
    }

    method Take(burn: Burn, input: GuestInput)
      requires Valid()
      modifies this
      ensures Valid() && inputs == old(inputs) + [input]
      ensures kept == old(kept) + [burn.id] && excluded == old(excluded)
    {
      assert (inputs + [input])[..|inputs|] == inputs;
      template := if template.None? then Some((input.config, input.publicValues)) else template;
      taken := taken + Nonces(input.lockRefs);
      leaves := leaves + input.leaves;
      lockRefs := lockRefs + input.lockRefs;
      burns := burns + input.burns;
      kept := kept + [burn.id];
      inputs := inputs + [input];
    }

    method Exclude(burn: Burn, reason: Exclusion)
      requires Valid()
      modifies this
      ensures Valid() && inputs == old(inputs) && kept == old(kept) && excluded == old(excluded) + [(burn.id, reason)]
    {
      excluded := excluded + [(burn.id, reason)];
    }
  }

  function TemplateOf(inputs: seq<GuestInput>): Option<(Config, PublicValues)> {
    if inputs == [] then None else Some((inputs[0].config, inputs[0].publicValues))
  }

  method Admit(sdk: SdkCodecs, h: Hash, acc: Rebuild.Rebuilt, rejected: seq<Rejected>, merge: Merge, burn: Burn)
    returns (r: Result<GuestInput, Exclusion>)
    requires acc.tree.Valid()
    ensures r == Admission(sdk, acc.tree.Contents(), acc.txids, rejected, merge.template, merge.taken, burn)
  {
    hide Decoded, FirstSpent;
    var decoded := DecodeGuestInput(sdk, burn.wireInput);
    if decoded.Err? {
      return Err(Invalid(DoesNotDecode));
    }
    var input := decoded.value;
    if UnlikeConfig(merge.template, input) {
      return Err(Invalid(ConfigDiffers));
    }
    if UnlikeTrustBase(merge.template, input) {
      return Err(Invalid(TrustBaseDiffers));
    }
    var refused := FindRejected(rejected, burn.nullifier);
    if refused.Some? {
      return Err(WhyRejected(refused.value));
    }
    var spent := FindSpent(h, acc, input.leaves);
    if spent.Some? {
      var txid := if spent.value in acc.txids then Some(acc.txids[spent.value]) else None;
      return Err(AlreadySettled(txid, Some(NOT_YET_CHECKED)));
    }
    if AnyTaken(input.lockRefs, merge.taken) {
      return Err(Invalid(NonceTaken));
    }
    r := Ok(input);
  }

  // ----- what admission keeps

  /** What admission is measured against: the spent set of the vault, and the simulation. */
  datatype Gate = Gate(sdk: SdkCodecs, spent: set<Bytes32>, txids: map<Bytes32, string>, rejected: seq<Rejected>)

  datatype Folded = Folded(inputs: seq<GuestInput>, kept: seq<string>, excluded: seq<(string, Exclusion)>)

  ghost function AdmissionOf(g: Gate, inputs: seq<GuestInput>, burn: Burn): Result<GuestInput, Exclusion> {
    Admission(g.sdk, g.spent, g.txids, g.rejected, TemplateOf(inputs), Nonces(AllRefs(inputs)), burn)
  }

  function Extend(f: Folded, id: string, verdict: Result<GuestInput, Exclusion>): Folded {
    match verdict
    case Ok(x) => Folded(f.inputs + [x], f.kept + [id], f.excluded)
    case Err(why) => Folded(f.inputs, f.kept, f.excluded + [(id, why)])
  }

  /** Admission of every member in turn, against those kept before it. */
  ghost function Fold(g: Gate, members: seq<Burn>): Folded {
    if members == [] then Folded([], [], [])
    else
      var burn := members[|members| - 1];
      var f := Fold(g, members[..|members| - 1]);
      Extend(f, burn.id, AdmissionOf(g, f.inputs, burn))
  }

  function Ids(members: seq<Burn>): seq<string> {
    if members == [] then [] else Ids(members[..|members| - 1]) + [members[|members| - 1].id]
  }

  function ExcludedIds(excluded: seq<(string, Exclusion)>): seq<string> {
    if excluded == [] then [] else ExcludedIds(excluded[..|excluded| - 1]) + [excluded[|excluded| - 1].0]
  }

  /** Kept and excluded partition the members. */
  lemma {:induction false} KeptAndExcluded(g: Gate, members: seq<Burn>)
    ensures var f := Fold(g, members);
            |f.kept| == |f.inputs| && multiset(f.kept) + multiset(ExcludedIds(f.excluded)) == multiset(Ids(members))
  {
    if members != [] {
      hide AdmissionOf, ExcludedIds, Extend;
      var init, burn := members[..|members| - 1], members[|members| - 1];
      KeptAndExcluded(g, init);
      var f := Fold(g, init);
      OneMore(f, burn.id, AdmissionOf(g, f.inputs, burn));
    }
  }

  lemma OneMore(f: Folded, id: string, verdict: Result<GuestInput, Exclusion>)
    ensures var f' := Extend(f, id, verdict);
            && |f'.kept| - |f'.inputs| == |f.kept| - |f.inputs|
            && multiset(f'.kept) + multiset(ExcludedIds(f'.excluded))
                 == multiset(f.kept) + multiset(ExcludedIds(f.excluded)) + multiset{id}
  {
  }

  // ----- why a member is kept or excluded, said of the members alone

  /** The first rejection that names the burn's nullifier, up to letter case. */
  ghost predicate FirstNamed(g: Gate, burn: Burn, i: nat) {
    && i < |g.rejected| && SameText(g.rejected[i].nullifier, burn.nullifier)
    && forall j | 0 <= j < i :: !SameText(g.rejected[j].nullifier, burn.nullifier)
  }

  ghost predicate Named(g: Gate, burn: Burn) {
    exists r | r in g.rejected :: SameText(r.nullifier, burn.nullifier)
  }

  /** The first of the leaves that the vault has released. */
  ghost predicate FirstReleased(g: Gate, x: GuestInput, i: nat) {
    && i < |x.leaves| && x.leaves[i].nullifier in g.spent
    && forall j | 0 <= j < i :: x.leaves[j].nullifier !in g.spent
  }

  ghost predicate AlreadySpent(g: Gate, x: GuestInput) {
    exists l | l in x.leaves :: l.nullifier in g.spent
  }

  /** A lock reference has the nonce of one of an earlier kept input. */
  ghost predicate Clashes(inputs: seq<GuestInput>, x: GuestInput) {
    exists i, r, s :: 0 <= i < |inputs| && r in x.lockRefs && s in inputs[i].lockRefs && r.nonce == s.nonce
  }

  /** The input decodes, to the configuration and the trust base hash of the first one kept. */
  ghost predicate FitsMerge(g: Gate, inputs: seq<GuestInput>, burn: Burn, x: GuestInput) {
    && Decoded(g.sdk, burn.wireInput) == Ok(x)
    && (inputs != [] ==>
          x.config == inputs[0].config && x.publicValues.trustBaseHash == inputs[0].publicValues.trustBaseHash)
  }

  /** A member with no cause against it. */
  ghost predicate Keeps(g: Gate, inputs: seq<GuestInput>, burn: Burn, x: GuestInput) {
    FitsMerge(g, inputs, burn, x) && !Named(g, burn) && !AlreadySpent(g, x) && !Clashes(inputs, x)
  }

  /** The cause behind each reason; the first in this order counts. */
  ghost predicate Explains(g: Gate, inputs: seq<GuestInput>, burn: Burn, why: Exclusion) {
    var decoded := Decoded(g.sdk, burn.wireInput);
    match why
    case Invalid(DoesNotDecode) => decoded.Err?
    case Invalid(ConfigDiffers) => decoded.Ok? && inputs != [] && decoded.value.config != inputs[0].config
    case Invalid(TrustBaseDiffers) =>
      && decoded.Ok? && inputs != [] && decoded.value.config == inputs[0].config
      && decoded.value.publicValues.trustBaseHash != inputs[0].publicValues.trustBaseHash
    case Refused(reason) =>
      && decoded.Ok? && FitsMerge(g, inputs, burn, decoded.value)
      && exists i: nat :: FirstNamed(g, burn, i) && RefusedFor(g.rejected[i], reason)
    case Invalid(NotTheVaultsLocks(reason)) =>
      && decoded.Ok? && FitsMerge(g, inputs, burn, decoded.value)
      && exists i: nat :: FirstNamed(g, burn, i) && g.rejected[i].kind == Lock && g.rejected[i].reason == reason
    case AlreadySettled(txid, unconfirmed) =>
      && decoded.Ok? && FitsMerge(g, inputs, burn, decoded.value) && !Named(g, burn)
      && unconfirmed == Some(NOT_YET_CHECKED)
      && exists i: nat :: FirstReleased(g, decoded.value, i)
           && txid == NamedIn(g.txids, decoded.value.leaves[i].nullifier)
    case Invalid(NonceTaken) =>
      && decoded.Ok? && FitsMerge(g, inputs, burn, decoded.value) && !Named(g, burn) && !AlreadySpent(g, decoded.value)
      && Clashes(inputs, decoded.value)
  }

  ghost predicate RefusedFor(r: Rejected, reason: string) {
    || (r.kind == Recipient && reason == r.reason)
    || (r.kind == Unconfirmed && reason == "lock not confirmed yet: " + r.reason)
  }

  ghost function NamedIn(txids: map<Bytes32, string>, n: Bytes32): Option<string> {
    if n in txids then Some(txids[n]) else None
  }

  lemma {:induction false} FoundFirst(rejected: seq<Rejected>, nullifier: string) returns (i: nat)
    ensures FindRejected(rejected, nullifier).Some? ==>
              && i < |rejected| && FindRejected(rejected, nullifier) == Some(rejected[i])
              && SameText(rejected[i].nullifier, nullifier)
              && forall j | 0 <= j < i :: !SameText(rejected[j].nullifier, nullifier)
  {
    hide SameText;
    i := 0;
    if rejected != [] && !SameText(rejected[0].nullifier, nullifier) {
      var later := FoundFirst(rejected[1..], nullifier);
      i := later + 1;
      assert forall j | 0 < j < |rejected| :: rejected[j] == rejected[1..][j - 1];
    }
  }

  lemma RejectedIff(g: Gate, burn: Burn)
    ensures var r := FindRejected(g.rejected, burn.nullifier);
            && (r.Some? <==> Named(g, burn))
            && (r.None? ==> forall i: nat :: !FirstNamed(g, burn, i))
            && forall i: nat | FirstNamed(g, burn, i) :: r == Some(g.rejected[i])
    ensures Named(g, burn) ==> exists i: nat :: FirstNamed(g, burn, i)
  {
    hide SameText;
    var at := FoundFirst(g.rejected, burn.nullifier);
    if FindRejected(g.rejected, burn.nullifier).Some? {
      assert FirstNamed(g, burn, at);
    }
    forall i: nat | FirstNamed(g, burn, i)
      ensures FindRejected(g.rejected, burn.nullifier) == Some(g.rejected[i])
    {
      assert g.rejected[i] in g.rejected;
    }
  }

  lemma {:induction false} SpentFirst(spent: set<Bytes32>, leaves: seq<ReturnLeaf>) returns (i: nat)
    ensures FirstSpent(spent, leaves).Some? ==>
              && i < |leaves| && leaves[i].nullifier in spent && FirstSpent(spent, leaves) == Some(leaves[i].nullifier)
              && forall j | 0 <= j < i :: leaves[j].nullifier !in spent
    ensures FirstSpent(spent, leaves).None? ==> forall j | 0 <= j < |leaves| :: leaves[j].nullifier !in spent
  {
    i := 0;
    if leaves != [] {
      var init := leaves[..|leaves| - 1];
      i := SpentFirst(spent, init);
      assert forall j | 0 <= j < |init| :: leaves[j] == init[j];
      if FirstSpent(spent, init).None? {
        i := |init|;
      }
    }
  }

  lemma ReleasedIff(g: Gate, x: GuestInput)
    ensures var r := FirstSpent(g.spent, x.leaves);
            && (r.Some? <==> AlreadySpent(g, x))
            && forall i: nat | FirstReleased(g, x, i) :: r == Some(x.leaves[i].nullifier)
    ensures AlreadySpent(g, x) ==> exists i: nat :: FirstReleased(g, x, i)
  {
    var at := SpentFirst(g.spent, x.leaves);
    if FirstSpent(g.spent, x.leaves).Some? {
      assert FirstReleased(g, x, at) && x.leaves[at] in x.leaves;
    }
    forall i: nat | FirstReleased(g, x, i)
      ensures FirstSpent(g.spent, x.leaves) == Some(x.leaves[i].nullifier)
    {
      assert x.leaves[i] in x.leaves;
    }
  }

  lemma {:induction false} RefIn(inputs: seq<GuestInput>, s: LockRef)
    ensures s in AllRefs(inputs) <==> exists i :: 0 <= i < |inputs| && s in inputs[i].lockRefs
  {
    if inputs != [] {
      var init := inputs[..|inputs| - 1];
      RefIn(init, s);
      assert forall i | 0 <= i < |init| :: init[i] == inputs[i];
    }
  }

  lemma ClashIff(inputs: seq<GuestInput>, x: GuestInput)
    ensures AnyTaken(x.lockRefs, Nonces(AllRefs(inputs))) <==> Clashes(inputs, x)
  {
    hide AllRefs;
    forall s
      ensures s in AllRefs(inputs) <==> exists i :: 0 <= i < |inputs| && s in inputs[i].lockRefs
    {
      RefIn(inputs, s);
    }
  }

  /** A member is kept exactly when nothing is against it. */
  lemma AdmitsIff(g: Gate, inputs: seq<GuestInput>, burn: Burn, x: GuestInput)
    ensures AdmissionOf(g, inputs, burn) == Ok(x) <==> Keeps(g, inputs, burn, x)
  {
    hide Decoded, FindRejected, FirstSpent, AnyTaken, Nonces, AllRefs, Named, AlreadySpent, Clashes;
    RejectedIff(g, burn);
    ReleasedIff(g, x);
    ClashIff(inputs, x);
  }

  /** A member is excluded for exactly the reason whose cause is the first to hold. */
  lemma RefusesIff(g: Gate, inputs: seq<GuestInput>, burn: Burn, why: Exclusion)
    ensures AdmissionOf(g, inputs, burn) == Err(why) <==> Explains(g, inputs, burn, why)
  {
    hide Decoded, FindRejected, FirstSpent, AnyTaken, Nonces, AllRefs, Named, AlreadySpent, Clashes, FirstNamed,
      FirstReleased;
    RejectedIff(g, burn);
    var decoded := Decoded(g.sdk, burn.wireInput);
    if decoded.Ok? {
      ReleasedIff(g, decoded.value);
      ClashIff(inputs, decoded.value);
    }
  }

  /** Whoever is kept had nothing against it when its turn came. */
  lemma {:induction false} KeptMember(g: Gate, members: seq<Burn>, j: nat) returns (k: nat)
    requires j < |Fold(g, members).kept|
    ensures var f := Fold(g, members);
            && k < |members| && members[k].id == f.kept[j] && j < |f.inputs|
            && Fold(g, members[..k]).inputs == f.inputs[..j]
            && Keeps(g, f.inputs[..j], members[k], f.inputs[j])
  {
    hide AdmissionOf, Keeps, Explains;
    KeptAndExcluded(g, members);
    var init, burn := members[..|members| - 1], members[|members| - 1];
    var f, before := Fold(g, members), Fold(g, init);
    KeptAndExcluded(g, init);
    if j < |before.kept| {
      k := KeptMember(g, init, j);
      assert init[..k] == members[..k] && before.inputs[..j] == f.inputs[..j];
    } else {
      k := |members| - 1;
      assert f.inputs[..j] == before.inputs;
      AdmitsIff(g, before.inputs, burn, f.inputs[j]);
    }
  }

  /** Whoever is excluded is so for the cause its reason states. */
  lemma {:induction false} ExcludedMember(g: Gate, members: seq<Burn>, j: nat) returns (k: nat)
    requires j < |Fold(g, members).excluded|
    ensures var f := Fold(g, members);
            && k < |members| && members[k].id == f.excluded[j].0
            && Fold(g, members[..k]).inputs <= f.inputs
            && Explains(g, Fold(g, members[..k]).inputs, members[k], f.excluded[j].1)
  {
    hide AdmissionOf, Keeps, Explains;
    var init, burn := members[..|members| - 1], members[|members| - 1];
    var f, before := Fold(g, members), Fold(g, init);
    if j < |before.excluded| {
      k := ExcludedMember(g, init, j);
      assert init[..k] == members[..k];
    } else {
      k := |members| - 1;
      RefusesIff(g, before.inputs, burn, f.excluded[j].1);
    }
  }

  lemma FoldExtends(g: Gate, members: seq<Burn>)
    requires members != []
    ensures var f, last := Fold(g, members[..|members| - 1]), members[|members| - 1];
            Fold(g, members) == Extend(f, last.id, AdmissionOf(g, f.inputs, last))
  {
    hide AdmissionOf, Extend;
  }

  lemma KeptInputs(g: Gate, members: seq<Burn>)
    ensures |Fold(g, members).kept| == |Fold(g, members).inputs|
  {
    hide *;
    KeptAndExcluded(g, members);
  }

  lemma ExtendKeeps(f: Folded, id: string, verdict: Result<GuestInput, Exclusion>, i: nat)
    requires |f.inputs| == |f.kept|
    ensures var f' := Extend(f, id, verdict);
            && |f'.inputs| == |f'.kept|
            && (i < |f.inputs| ==> i < |f'.inputs| && f'.inputs[i] == f.inputs[i] && f'.kept[i] == f.kept[i])
            && (verdict.Ok? ==> |f'.inputs| == |f.inputs| + 1 && f'.inputs[|f.inputs|] == verdict.value
                                  && f'.kept[|f.inputs|] == id)
  {
  }

  /** Every member with nothing against it is kept, with the input it decodes to. */
  lemma {:induction false} EveryKept(g: Gate, members: seq<Burn>, k: nat, x: GuestInput)
    requires k < |members| && Keeps(g, Fold(g, members[..k]).inputs, members[k], x)
    ensures var f, before := Fold(g, members), Fold(g, members[..k]).inputs;
            && |before| < |f.inputs| == |f.kept|
            && f.inputs[|before|] == x && f.kept[|before|] == members[k].id
  {
    hide AdmissionOf, Keeps, Fold, Extend;
    var last := |members| - 1;
    var init, burn := members[..last], members[last];
    var f := Fold(g, init);
    var verdict := AdmissionOf(g, f.inputs, burn);
    KeptInputs(g, init);
    FoldExtends(g, members);
    if k < last {
      assert init[..k] == members[..k];
      EveryKept(g, init, k, x);
      ExtendKeeps(f, burn.id, verdict, |Fold(g, members[..k]).inputs|);
    } else {
      AdmitsIff(g, f.inputs, burn, x);
      ExtendKeeps(f, burn.id, verdict, 0);
    }
  }

  /** Every member with a cause against it is excluded for it. */
  lemma {:induction false} EveryExcluded(g: Gate, members: seq<Burn>, k: nat, why: Exclusion)
    requires k < |members| && Explains(g, Fold(g, members[..k]).inputs, members[k], why)
    ensures (members[k].id, why) in Fold(g, members).excluded
  {
    hide AdmissionOf, Explains;
    var last := |members| - 1;
    if k < last {
      assert members[..last][..k] == members[..k];
      EveryExcluded(g, members[..last], k, why);
    } else {
      RefusesIff(g, Fold(g, members[..last]).inputs, members[last], why);
    }
  }

  /** Assembly finds releases; it never takes one as confirmed. */
  ghost predicate Unchecked(excluded: seq<(string, Exclusion)>) {
    forall e | e in excluded :: e.1.AlreadySettled? ==> e.1.unconfirmed.Some?
  }

  lemma {:induction false} FoldUnchecked(g: Gate, members: seq<Burn>)
    ensures Unchecked(Fold(g, members).excluded)
  {
    if members != [] {
      hide AdmissionOf;
      var init, burn := members[..|members| - 1], members[|members| - 1];
      FoldUnchecked(g, init);
      RefusalUnchecked(g, Fold(g, init).inputs, burn);
    }
  }

  lemma RefusalUnchecked(g: Gate, inputs: seq<GuestInput>, burn: Burn)
    ensures var r := AdmissionOf(g, inputs, burn); r.Err? && r.error.AlreadySettled? ==> r.error.unconfirmed.Some?
  {
    hide Decoded, FindRejected, FirstSpent, AnyTaken, Nonces, AllRefs, TemplateOf;
  }

  /** The inputs of the members that decode. */
  function DecodedInputs(sdk: SdkCodecs, members: seq<Burn>): seq<GuestInput> {
    if members == [] then []
    else
      match Decoded(sdk, members[|members| - 1].wireInput)
      case Ok(x) => DecodedInputs(sdk, members[..|members| - 1]) + [x]
      case Err(_) => DecodedInputs(sdk, members[..|members| - 1])
  }

  lemma AllPush(inputs: seq<GuestInput>, x: GuestInput)
    ensures AllLeaves(inputs + [x]) == AllLeaves(inputs) + x.leaves
    ensures AllRefs(inputs + [x]) == AllRefs(inputs) + x.lockRefs
    ensures AllBurns(inputs + [x]) == AllBurns(inputs) + x.burns
  {
    assert (inputs + [x])[..|inputs|] == inputs;
  }

  lemma VerdictFacts(g: Gate, inputs: seq<GuestInput>, burn: Burn)
    requires AdmissionOf(g, inputs, burn).Ok?
    ensures var x := AdmissionOf(g, inputs, burn).value;
            && Decoded(g.sdk, burn.wireInput) == Ok(x)
            && (inputs != [] ==>
                  x.config == inputs[0].config && x.publicValues.trustBaseHash == inputs[0].publicValues.trustBaseHash)
            && SeqSet(Nullifiers(x.leaves)) !! g.spent
            && Nonces(x.lockRefs) !! Nonces(AllRefs(inputs))
  {
    hide Decoded, Nullifiers, AllRefs, SeqSet, FirstSpent, Nonces;
    var x := AdmissionOf(g, inputs, burn).value;
    NoneSpent(g.spent, x.leaves);
    NoneTaken(x.lockRefs, Nonces(AllRefs(inputs)));
  }

  /** The burn is excluded, or the leaves of its input are among these. */
  ghost predicate KeptOrExcluded(sdk: SdkCodecs, excluded: seq<(string, Exclusion)>, leaves: seq<ReturnLeaf>,
      burn: Burn)
  {
    || burn.id in ExcludedIds(excluded)
    || (&& Decoded(sdk, burn.wireInput).Ok?
        && forall l | l in Decoded(sdk, burn.wireInput).value.leaves :: l in leaves)
  }

  lemma KeptGrows(sdk: SdkCodecs, f: Folded, id: string, verdict: Result<GuestInput, Exclusion>, burn: Burn)
    requires KeptOrExcluded(sdk, f.excluded, AllLeaves(f.inputs), burn)
    ensures KeptOrExcluded(sdk, Extend(f, id, verdict).excluded, AllLeaves(Extend(f, id, verdict).inputs), burn)
  {
    hide Decoded;
    if verdict.Ok? {
      AllPush(f.inputs, verdict.value);
    } else {
      assert (f.excluded + [(id, verdict.error)])[..|f.excluded|] == f.excluded;
    }
  }

  lemma KeptNow(g: Gate, f: Folded, burn: Burn)
    ensures var f' := Extend(f, burn.id, AdmissionOf(g, f.inputs, burn));
            KeptOrExcluded(g.sdk, f'.excluded, AllLeaves(f'.inputs), burn)
  {
    hide Decoded, AdmissionOf;
    var verdict := AdmissionOf(g, f.inputs, burn);
    if verdict.Ok? {
      VerdictFacts(g, f.inputs, burn);
      AllPush(f.inputs, verdict.value);
    }
  }

  /** Whatever is not excluded has its leaves in the batch. */
  lemma {:induction false} KeptLeaves(g: Gate, members: seq<Burn>)
    ensures var f := Fold(g, members);
            forall b | b in members :: KeptOrExcluded(g.sdk, f.excluded, AllLeaves(f.inputs), b)
  {
    hide KeptOrExcluded, AdmissionOf, Extend, AllLeaves;
    if members != [] {
      var init, burn := members[..|members| - 1], members[|members| - 1];
      var f := Fold(g, init);
      KeptLeaves(g, init);
      forall b | b in members
        ensures KeptOrExcluded(g.sdk, Fold(g, members).excluded, AllLeaves(Fold(g, members).inputs), b)
      {
        if b in init {
          KeptGrows(g.sdk, f, burn.id, AdmissionOf(g, f.inputs, burn), b);
        } else {
          KeptNow(g, f, burn);
        }
      }
    }
  }

  lemma NoneTaken(refs: seq<LockRef>, taken: set<u64>)
    requires !AnyTaken(refs, taken)
    ensures Nonces(refs) !! taken
  {
  }

  /** The nullifiers of what is kept. */
  ghost function Keys(inputs: seq<GuestInput>): seq<Bytes32> {
    Nullifiers(AllLeaves(inputs))
  }

  lemma KeysPush(inputs: seq<GuestInput>, x: GuestInput)
    ensures Keys(inputs + [x]) == Keys(inputs) + Nullifiers(x.leaves)
    ensures SeqSet(Keys(inputs + [x])) == SeqSet(Keys(inputs)) + SeqSet(Nullifiers(x.leaves))
  {
  }

  lemma DistinctPart(kept: seq<Bytes32>, all: seq<Bytes32>, more: seq<Bytes32>)
    requires SeqSet(kept) <= SeqSet(all) && Distinct(all + more)
    ensures Distinct(all)
    ensures Distinct(kept) ==> Distinct(kept + more)
  {
    assert forall i, j | 0 <= i < j < |all| :: (all + more)[i] == all[i] && (all + more)[j] == all[j];
    forall i, j | 0 <= i < j < |kept + more| && Distinct(kept)
      ensures (kept + more)[i] != (kept + more)[j]
    {
      if i < |kept| <= j {
        InSeqSet(kept, i);
        var k := IndexIn(all, kept[i]);
        assert (all + more)[k] == kept[i] && (all + more)[|all| + j - |kept|] == more[j - |kept|];
      } else if |kept| <= i {
        assert (all + more)[|all| + i - |kept|] == more[i - |kept|]
          && (all + more)[|all| + j - |kept|] == more[j - |kept|];
      }
    }
  }

  lemma FoldLast(g: Gate, members: seq<Burn>)
    ensures members == [] ==> Fold(g, members).inputs == []
    ensures members != [] ==>
              var f, burn := Fold(g, members[..|members| - 1]), members[|members| - 1];
              var verdict := AdmissionOf(g, f.inputs, burn);
              Fold(g, members).inputs == if verdict.Ok? then f.inputs + [verdict.value] else f.inputs
  {
    hide AdmissionOf;
  }

  lemma DecodedLast(sdk: SdkCodecs, members: seq<Burn>)
    ensures members == [] ==> DecodedInputs(sdk, members) == []
    ensures members != [] ==>
              var init := DecodedInputs(sdk, members[..|members| - 1]);
              var decoded := Decoded(sdk, members[|members| - 1].wireInput);
              DecodedInputs(sdk, members) == if decoded.Ok? then init + [decoded.value] else init
  {
    hide Decoded;
  }

  /** What is kept is unspent, and distinct when all decodable members are. */
  lemma {:induction false} KeptFresh(g: Gate, members: seq<Burn>)
    ensures SeqSet(Keys(Fold(g, members).inputs)) !! g.spent
    ensures SeqSet(Keys(Fold(g, members).inputs)) <= SeqSet(Keys(DecodedInputs(g.sdk, members)))
    ensures Distinct(Keys(DecodedInputs(g.sdk, members))) ==> Distinct(Keys(Fold(g, members).inputs))
  {
    hide *;
    FoldLast(g, members);
    DecodedLast(g.sdk, members);
    if members == [] {
      NothingKept();
    } else {
      var init, burn := members[..|members| - 1], members[|members| - 1];
      KeptFresh(g, init);
      var inputs, decoded := Fold(g, init).inputs, DecodedInputs(g.sdk, init);
      var verdict := AdmissionOf(g, inputs, burn);
      if Decoded(g.sdk, burn.wireInput).Ok? {
        var x := Decoded(g.sdk, burn.wireInput).value;
        KeysPush(decoded, x);
        if Distinct(Keys(decoded + [x])) {
          DistinctPart(Keys(inputs), Keys(decoded), Nullifiers(x.leaves));
        }
      }
      if verdict.Ok? {
        VerdictFacts(g, inputs, burn);
        KeysPush(inputs, verdict.value);
      }
    }
  }

  lemma NothingKept()
    ensures Keys([]) == [] && SeqSet(Keys([])) == {} && Distinct(Keys([]))
  {
  }

  ghost predicate TotalFits(inputs: seq<GuestInput>) {
    |AllLeaves(inputs)| < LEN_LIMIT && |AllRefs(inputs)| < LEN_LIMIT && |AllBurns(inputs)| < LEN_LIMIT
  }

  lemma {:induction false} KeptFewer(g: Gate, members: seq<Burn>)
    ensures |AllLeaves(Fold(g, members).inputs)| <= |AllLeaves(DecodedInputs(g.sdk, members))|
    ensures |AllRefs(Fold(g, members).inputs)| <= |AllRefs(DecodedInputs(g.sdk, members))|
    ensures |AllBurns(Fold(g, members).inputs)| <= |AllBurns(DecodedInputs(g.sdk, members))|
  {
    hide *;
    FoldLast(g, members);
    DecodedLast(g.sdk, members);
    if members != [] {
      var init, burn := members[..|members| - 1], members[|members| - 1];
      KeptFewer(g, init);
      var inputs := Fold(g, init).inputs;
      var verdict := AdmissionOf(g, inputs, burn);
      if Decoded(g.sdk, burn.wireInput).Ok? {
        AllPush(DecodedInputs(g.sdk, init), Decoded(g.sdk, burn.wireInput).value);
      }
      if verdict.Ok? {
        VerdictFacts(g, inputs, burn);
        AllPush(inputs, verdict.value);
      }
    }
  }

  ghost predicate AllEncodable(sdk: SdkCodecs, inputs: seq<GuestInput>) {
    forall x | x in inputs :: Encodable(sdk, x)
  }

  lemma EncodablePush(sdk: SdkCodecs, inputs: seq<GuestInput>, x: GuestInput)
    ensures AllEncodable(sdk, inputs) && Encodable(sdk, x) ==> AllEncodable(sdk, inputs + [x])
  {
    hide Encodable;
  }

  lemma {:induction false} KeptEncodable(g: Gate, members: seq<Burn>)
    requires CanonicalSdk(g.sdk)
    ensures AllEncodable(g.sdk, Fold(g, members).inputs)
  {
    hide *;
    FoldLast(g, members);
    if members == [] {
      NoneEncodable(g.sdk);
    } else {
      var init, burn := members[..|members| - 1], members[|members| - 1];
      KeptEncodable(g, init);
      var inputs := Fold(g, init).inputs;
      if AdmissionOf(g, inputs, burn).Ok? {
        VerdictFacts(g, inputs, burn);
        AcceptedIsWritten(g.sdk, burn.wireInput);
        EncodablePush(g.sdk, inputs, AdmissionOf(g, inputs, burn).value);
      }
    }
  }

  lemma NoneEncodable(sdk: SdkCodecs)
    ensures AllEncodable(sdk, [])
  {
  }

  /** Every stored input that decodes is accepted by the relation on its own. */
  ghost predicate SoundMembers(sdk: Sdk, wire: SdkCodecs, members: seq<Burn>) {
    forall m | m in members && Decoded(wire, m.wireInput).Ok? :: Accepted(sdk, Decoded(wire, m.wireInput).value)
  }

  /** Kept inputs are alike and name no lock nonce twice. */
  ghost predicate Mergeable(sdk: Sdk, inputs: seq<GuestInput>) {
    && NoncesApart(AllRefs(inputs))
    && (inputs != [] ==> Alike(sdk, inputs, inputs[0].config, inputs[0].publicValues.trustBaseHash))
  }

  lemma {:induction false} KeptMergeable(sdk: Sdk, g: Gate, members: seq<Burn>)
    requires SoundMembers(sdk, g.sdk, members)
    ensures Mergeable(sdk, Fold(g, members).inputs)
  {
    hide *;
    FoldLast(g, members);
    if members == [] {
      NoneMergeable(sdk);
    } else {
      var init, burn := members[..|members| - 1], members[|members| - 1];
      SoundPrefix(sdk, g.sdk, members);
      KeptMergeable(sdk, g, init);
      var inputs := Fold(g, init).inputs;
      if AdmissionOf(g, inputs, burn).Ok? {
        VerdictFacts(g, inputs, burn);
        MergeOne(sdk, inputs, AdmissionOf(g, inputs, burn).value);
      }
    }
  }

  lemma NoneMergeable(sdk: Sdk)
    ensures Mergeable(sdk, [])
  {
  }

  lemma SoundPrefix(sdk: Sdk, wire: SdkCodecs, members: seq<Burn>)
    requires SoundMembers(sdk, wire, members) && members != []
    ensures SoundMembers(sdk, wire, members[..|members| - 1])
    ensures var last := Decoded(wire, members[|members| - 1].wireInput); last.Ok? ==> Accepted(sdk, last.value)
  {
    hide Decoded, Accepted;
    assert members[|members| - 1] in members;
  }

  lemma MergeOne(sdk: Sdk, inputs: seq<GuestInput>, x: GuestInput)
    requires Mergeable(sdk, inputs) && Accepted(sdk, x)
    requires inputs != [] ==>
               x.config == inputs[0].config && x.publicValues.trustBaseHash == inputs[0].publicValues.trustBaseHash
    requires Nonces(x.lockRefs) !! Nonces(AllRefs(inputs))
    ensures Mergeable(sdk, inputs + [x])
  {
    hide NoncesApart, AllRefs, Alike, Nonces, Accepted;
    AllPush(inputs, x);
    OrderedAccepted(sdk, x);
    ApartPush(AllRefs(inputs), x.lockRefs);
    AlikePush(sdk, inputs, x);
  }

  lemma OrderedAccepted(sdk: Sdk, x: GuestInput)
    requires Accepted(sdk, x)
    ensures StrictlyIncreasing(x.lockRefs) && x.leaves != []
  {
    hide *;
    AcceptedShape(sdk, x);
  }

  lemma ApartPush(refs: seq<LockRef>, more: seq<LockRef>)
    requires NoncesApart(refs) && StrictlyIncreasing(more) && Nonces(more) !! Nonces(refs)
    ensures NoncesApart(refs + more)
  {
    forall i, j | 0 <= i < j < |refs + more|
      ensures (refs + more)[i].nonce != (refs + more)[j].nonce
    {
      if i < |refs| <= j {
        assert refs[i] in refs && more[j - |refs|] in more;
        assert refs[i].nonce in Nonces(refs) && more[j - |refs|].nonce in Nonces(more);
      }
    }
  }

  lemma AlikePush(sdk: Sdk, inputs: seq<GuestInput>, x: GuestInput)
    requires inputs != [] ==> Alike(sdk, inputs, inputs[0].config, inputs[0].publicValues.trustBaseHash)
    requires inputs != [] ==>
               x.config == inputs[0].config && x.publicValues.trustBaseHash == inputs[0].publicValues.trustBaseHash
    requires Accepted(sdk, x)
    ensures Alike(sdk, inputs + [x], (inputs + [x])[0].config, (inputs + [x])[0].publicValues.trustBaseHash)
  {
    hide Accepted;
  }

  // ----- the merged input fits the wire

  lemma {:induction false} ShortWitnesses(h: Hash, spent: set<Bytes32>, keys: seq<Bytes32>, i: nat)
    requires Fresh(spent, keys) && i < |keys|
    ensures |OrderedWitnesses(h, spent, keys)[i].steps| <= MAX_STEPS
    decreases |keys|
  {
    hide CanonicalWitness;
    var last := |keys| - 1;
    FreshLast(spent, keys);
    if i < last {
      ShortWitnesses(h, spent, keys[..last], i);
    } else {
      WitnessComplete(h, spent + SeqSet(keys[..last]), keys[last]);
    }
  }

  ghost predicate BurnsFit(sdk: SdkCodecs, burns: seq<BurnWitness>) {
    forall i | 0 <= i < |burns| :: BurnLengths(sdk, burns[i]) && BurnReadsBack(sdk, burns[i])
  }

  lemma {:induction false} AllBurnsFit(sdk: SdkCodecs, inputs: seq<GuestInput>)
    requires AllEncodable(sdk, inputs)
    ensures BurnsFit(sdk, AllBurns(inputs))
  {
    hide BurnLengths, BurnReadsBack, Encodable;
    if inputs != [] {
      AllBurnsFit(sdk, inputs[..|inputs| - 1]);
      EncodableIff(sdk, inputs[|inputs| - 1]);
    }
  }

  lemma MergedParts(sdk: Sdk, inputs: seq<GuestInput>, spent: set<Bytes32>)
    requires Settleable(spent, inputs)
    ensures var x := MergedInput(sdk, inputs, spent);
            && |x.leaves| == |x.witnesses| == |AllLeaves(inputs)| && |x.lockRefs| == |AllRefs(inputs)|
            && x.burns == AllBurns(inputs)
            && forall i | 0 <= i < |x.witnesses| :: |x.witnesses[i].steps| <= MAX_STEPS
  {
    hide SortByNonce, OrderedWitnesses, RootOf, Fresh, AllLeaves, AllRefs, AllBurns, SumAmounts;
    var keys := Nullifiers(AllLeaves(inputs));
    SortByNonceFacts([], AllRefs(inputs));
    forall i | 0 <= i < |keys|
      ensures |OrderedWitnesses(sdk.sha256, spent, keys)[i].steps| <= MAX_STEPS
    {
      ShortWitnesses(sdk.sha256, spent, keys, i);
    }
  }

  lemma MergedFits(sdk: Sdk, wire: SdkCodecs, inputs: seq<GuestInput>, spent: set<Bytes32>)
    requires Settleable(spent, inputs) && TotalFits(inputs) && AllEncodable(wire, inputs)
    ensures Encodable(wire, MergedInput(sdk, inputs, spent)) && LengthsFit(wire, MergedInput(sdk, inputs, spent))
  {
    hide *;
    MergedParts(sdk, inputs, spent);
    AllBurnsFit(wire, inputs);
    FitsByParts(wire, inputs, MergedInput(sdk, inputs, spent));
  }

  lemma FitsByParts(wire: SdkCodecs, inputs: seq<GuestInput>, x: GuestInput)
    requires TotalFits(inputs) && BurnsFit(wire, x.burns) && |x.burns| == |AllBurns(inputs)|
    requires |x.leaves| == |x.witnesses| == |AllLeaves(inputs)| && |x.lockRefs| == |AllRefs(inputs)|
    requires forall i | 0 <= i < |x.witnesses| :: |x.witnesses[i].steps| <= MAX_STEPS
    ensures Encodable(wire, x) && LengthsFit(wire, x)
  {
    hide Encodable, BurnLengths, BurnReadsBack, AllLeaves, AllRefs, AllBurns;
    EncodableIff(wire, x);
  }

  // ----- the precheck

  /** The relation on the input that the bytes decode to. */
  function ExecuteWire(sdk: Sdk, wire: SdkCodecs, bytes: Bytes): Result<PublicValues, Error> {
    match Decoded(wire, bytes)
    case Err(error) => Err(error)
    case Ok(x) => Execute(sdk, x)
  }

  /** Executes the input, encodes it, and executes what the bytes decode to. */
  method Precheck(sdk: Sdk, wire: SdkCodecs, x: GuestInput) returns (r: Result<Bytes, Error>)
    requires LengthsFit(wire, x)
    ensures r.Ok? <==> Execute(sdk, x).Ok? && ExecuteWire(sdk, wire, Encoded(wire, x)) == Execute(sdk, x)
    ensures r.Ok? ==> r.value == Encoded(wire, x)
  {
    hide Decoded, Encoded, LengthsFit;
    ExecuteReturns(sdk, x);
    hide Execute;
    var output :- Run(sdk, x);
    if output != x.publicValues {
      return Err(WireDecodeFailed);
    }
    var bytes := EncodeGuestInput(wire, x);
    var again :- DecodeGuestInput(wire, bytes);
    var wireOutput :- Run(sdk, again);
    if wireOutput != output {
      return Err(WireDecodeFailed);
    }
    r := Ok(bytes);
  }

  lemma ExecuteReturns(sdk: Sdk, x: GuestInput)
    ensures Execute(sdk, x).Ok? ==> Execute(sdk, x) == Ok(x.publicValues)
  {
    hide ValidatePublicValues, ValidateAccumulatorTransition, ValidateBridgeBurns;
  }

  /** On bytes: the relation decides, and nothing else does. */
  method PrecheckWire(sdk: Sdk, wire: SdkCodecs, bytes: Bytes) returns (r: Result<Bytes, Error>)
    requires CanonicalSdk(wire)
    ensures r.Ok? <==> ExecuteWire(sdk, wire, bytes).Ok?
    ensures r.Ok? ==> r.value == bytes
  {
    hide Decoded, Encoded, Encodable, Execute, CanonicalSdk, LengthsFit;
    var x :- DecodeGuestInput(wire, bytes);
    AcceptedIsWritten(wire, bytes);
    EncodableIff(wire, x);
    r := Precheck(sdk, wire, x);
  }

  // ----- assembly

  /** What is kept can be settled on the accumulator, and the relation accepts it as one batch. */
  ghost predicate Provable(sdk: Sdk, inputs: seq<GuestInput>, spent: set<Bytes32>) {
    && inputs != [] && AllLeaves(inputs) != []
    && Fresh(spent, Keys(inputs))
    && Execute(sdk, MergedInput(sdk, inputs, spent)).Ok?
  }

  /** The result is the kept inputs as one: their wire payload, statement, leaves and locks. */
  ghost predicate Presents(sdk: Sdk, wire: SdkCodecs, a: Assembled, f: Folded, spent: set<Bytes32>) {
    && Settleable(spent, f.inputs)
    && var x := MergedInput(sdk, f.inputs, spent);
       && Decoded(wire, a.wire) == Ok(x) && Execute(sdk, x) == Ok(a.publicValues)
       && a.leaves == x.leaves && a.lockRefs == x.lockRefs
       && a.kept == f.kept && a.excluded == f.excluded
  }

  lemma ProvableWhenSound(sdk: Sdk, g: Gate, members: seq<Burn>)
    requires SoundMembers(sdk, g.sdk, members) && Distinct(Keys(DecodedInputs(g.sdk, members)))
    ensures var inputs := Fold(g, members).inputs; inputs != [] ==> Provable(sdk, inputs, g.spent)
  {
    hide *;
    var inputs := Fold(g, members).inputs;
    KeptFresh(g, members);
    KeptMergeable(sdk, g, members);
    if inputs != [] {
      ProvableByMerge(sdk, inputs, g.spent);
    }
  }

  lemma ProvableByMerge(sdk: Sdk, inputs: seq<GuestInput>, spent: set<Bytes32>)
    requires inputs != [] && Mergeable(sdk, inputs) && Distinct(Keys(inputs)) && SeqSet(Keys(inputs)) !! spent
    ensures Provable(sdk, inputs, spent)
  {
    var x := inputs[|inputs| - 1];
    assert Accepted(sdk, x);
    assert AllLeaves(inputs) == AllLeaves(inputs[..|inputs| - 1]) + x.leaves;
    assert Keys(inputs) == Nullifiers(AllLeaves(inputs));
    assert Fresh(spent, Keys(inputs)) && Settleable(spent, inputs);
    hide Execute, MergedInput, Alike, NoncesApart, Accepted, AllLeaves, AllRefs, Fresh, Settleable, Keys, Nullifiers;
    OrderedAccepted(sdk, x);
    MergePreserves(sdk, inputs, spent);
  }

  lemma MergedIs(sdk: Sdk, inputs: seq<GuestInput>, spent: set<Bytes32>, refRoot: Bytes32, x: GuestInput)
    requires Settleable(spent, inputs)
    requires x.config == inputs[0].config && x.leaves == AllLeaves(inputs)
               && x.lockRefs == SortByNonce(AllRefs(inputs)) && x.burns == AllBurns(inputs)
    requires x.witnesses == OrderedWitnesses(sdk.sha256, spent, Nullifiers(AllLeaves(inputs)))
    requires LockRefRoot(sdk.derive, x.lockRefs) == Ok(refRoot)
    requires var t := inputs[0].publicValues;
             x.publicValues == PublicValues(t.domainTag, t.configHash, t.trustBaseHash,
               RootOf(sdk.sha256, spent), RootOf(sdk.sha256, spent + SeqSet(Nullifiers(AllLeaves(inputs)))),
               sdk.derive.returnRoot(x.leaves), refRoot, |x.leaves| % 0x1_0000_0000, SumAmounts(x.leaves))
    ensures x == MergedInput(sdk, inputs, spent)
  {
    hide SortByNonce, OrderedWitnesses, RootOf, Nullifiers, AllLeaves, AllRefs, AllBurns, SumAmounts, CheckOrder,
      SeqSet, Fresh;
  }

  lemma BadOrderRefused(sdk: Sdk, x: GuestInput)
    requires LockRefRoot(sdk.derive, x.lockRefs).Err?
    ensures Execute(sdk, x).Err?
  {
    hide LockRefRoot, SumAmounts, ValidateAccumulatorTransition, ValidateBridgeBurns;
  }

  lemma MergedRefs(sdk: Sdk, inputs: seq<GuestInput>, spent: set<Bytes32>)
    requires Settleable(spent, inputs)
    ensures MergedInput(sdk, inputs, spent).lockRefs == SortByNonce(AllRefs(inputs))
    ensures MergedInput(sdk, inputs, spent).leaves == AllLeaves(inputs)
  {
    hide SortByNonce, OrderedWitnesses, RootOf, Nullifiers, AllLeaves, AllRefs, AllBurns, SumAmounts, SeqSet, Fresh;
  }

  lemma FitsWhenKept(g: Gate, members: seq<Burn>)
    requires TotalFits(DecodedInputs(g.sdk, members))
    ensures TotalFits(Fold(g, members).inputs)
  {
    hide Fold, DecodedInputs, AllLeaves, AllRefs, AllBurns;
    KeptFewer(g, members);
  }

  /** Admits the members, in order, against what is kept so far. */
  method AdmitAll(sdk: SdkCodecs, h: Hash, acc: Rebuild.Rebuilt, rejected: seq<Rejected>, members: seq<Burn>)
    returns (merge: Merge)
    requires acc.tree.Valid()
    ensures fresh(merge) && merge.Valid()
    ensures Folded(merge.inputs, merge.kept, merge.excluded)
              == Fold(Gate(sdk, acc.tree.Contents(), acc.txids, rejected), members)
  {
    hide Admission, AllLeaves, AllRefs, AllBurns, Nonces;
    ghost var g := Gate(sdk, acc.tree.Contents(), acc.txids, rejected);
    merge := new Merge();
    for i := 0 to |members|
      invariant fresh(merge) && merge.Valid()
      invariant Folded(merge.inputs, merge.kept, merge.excluded) == Fold(g, members[..i])
    {
      assert members[..i + 1][..i] == members[..i];
      var verdict := Admit(sdk, h, acc, rejected, merge, members[i]);
      match verdict {
        case Ok(input) => merge.Take(members[i], input);
        case Err(reason) => merge.Exclude(members[i], reason);
      }
    }
    assert members[..|members|] == members;
  }

  /** Assembly fails when everything is excluded and otherwise succeeds exactly when the kept
      inputs make one acceptable batch. Sound members that spend nothing twice always do. */
  method Assemble(sdk: Sdk, wire: SdkCodecs, members: seq<Burn>, acc: Rebuild.Rebuilt, rejected: seq<Rejected>)
    returns (r: Result<Assembled, AssembleError>)
    requires acc.tree.Valid() && CanonicalSdk(wire) && TotalFits(DecodedInputs(wire, members))
    ensures var g := Gate(wire, acc.tree.Contents(), acc.txids, rejected);
            var f := Fold(g, members);
            && (r == Err(AllExcluded(f.excluded)) <==> f.inputs == [])
            && (r.Err? && r.error.AllExcluded? ==> f.inputs == [] && r.error.excluded == f.excluded)
            && (r.Ok? <==> Provable(sdk, f.inputs, g.spent))
            && (r.Ok? ==> Presents(sdk, wire, r.value, f, g.spent))
            && (SoundMembers(sdk, wire, members) && Distinct(Keys(DecodedInputs(wire, members))) ==>
                  r.Ok? || f.inputs == [])
  {
    hide Fold, Provable, Presents, CanonicalSdk, SoundMembers, Distinct, Keys, DecodedInputs, TotalFits;
    ghost var g := Gate(wire, acc.tree.Contents(), acc.txids, rejected);
    var merge := AdmitAll(wire, sdk.sha256, acc, rejected, members);
    ghost var f := Folded(merge.inputs, merge.kept, merge.excluded);
    if SoundMembers(sdk, wire, members) && Distinct(Keys(DecodedInputs(wire, members))) {
      ProvableWhenSound(sdk, g, members);
    }
    if merge.template.None? {
      NothingProvable(sdk, g.spent);
      return Err(AllExcluded(merge.excluded));
    }
    FitsWhenKept(g, members);
    KeptEncodable(g, members);
    r := Conclude(sdk, wire, merge, acc);
  }

  lemma NothingProvable(sdk: Sdk, spent: set<Bytes32>)
    ensures !Provable(sdk, [], spent)
  {
  }

  method EncodeChecked(sdk: Sdk, wire: SdkCodecs, x: GuestInput) returns (r: Result<Bytes, Error>)
    requires CanonicalSdk(wire) && Encodable(wire, x) && LengthsFit(wire, x)
    ensures r.Ok? <==> Execute(sdk, x).Ok?
    ensures r.Ok? ==> Decoded(wire, r.value) == Ok(x) && Execute(sdk, x) == Ok(x.publicValues)
  {
    hide Execute, Decoded, Encoded, Encodable, LengthsFit, CanonicalSdk;
    DecodeEncode(wire, x);
    ExecuteReturns(sdk, x);
    var bytes := EncodeGuestInput(wire, x);
    r := PrecheckWire(sdk, wire, bytes);
  }

  lemma ProvableIs(sdk: Sdk, inputs: seq<GuestInput>, spent: set<Bytes32>)
    ensures Provable(sdk, inputs, spent) ==>
              inputs != [] && Nullifiers(AllLeaves(inputs)) != [] && Fresh(spent, Nullifiers(AllLeaves(inputs)))
    ensures inputs != [] && Nullifiers(AllLeaves(inputs)) != [] && Fresh(spent, Nullifiers(AllLeaves(inputs))) ==>
              Settleable(spent, inputs)
                && (Provable(sdk, inputs, spent) <==> Execute(sdk, MergedInput(sdk, inputs, spent)).Ok?)
  {
    hide Execute, MergedInput, Fresh, AllLeaves;
  }

  lemma PresentsIs(sdk: Sdk, wire: SdkCodecs, a: Assembled, f: Folded, spent: set<Bytes32>)
    requires Settleable(spent, f.inputs)
    requires var x := MergedInput(sdk, f.inputs, spent);
             && Decoded(wire, a.wire) == Ok(x) && Execute(sdk, x) == Ok(a.publicValues)
             && a.leaves == x.leaves && a.lockRefs == x.lockRefs
    requires a.kept == f.kept && a.excluded == f.excluded
    ensures Presents(sdk, wire, a, f, spent)
  {
    hide Execute, Decoded, MergedInput, Settleable;
  }

  /** Sorts the locks, puts the batch on top of the accumulator, and prechecks what it would prove. */
  method Conclude(sdk: Sdk, wire: SdkCodecs, merge: Merge, acc: Rebuild.Rebuilt)
    returns (r: Result<Assembled, AssembleError>)
    requires merge.Valid() && merge.inputs != [] && acc.tree.Valid()
    requires CanonicalSdk(wire) && TotalFits(merge.inputs) && AllEncodable(wire, merge.inputs)
    ensures r.Ok? <==> Provable(sdk, merge.inputs, acc.tree.Contents())
    ensures r.Ok? ==>
              Presents(sdk, wire, r.value, Folded(merge.inputs, merge.kept, merge.excluded), acc.tree.Contents())
    ensures r.Err? ==> !r.error.AllExcluded?
  {
    hide *;
    ghost var inputs, spent := merge.inputs, acc.tree.Contents();
    MergeFields(merge);
    ProvableIs(sdk, inputs, spent);
    var (config, template) := merge.template.value;
    var lockRefs := SortByNonce(merge.lockRefs);
    var nullifiers := Nullifiers(merge.leaves);
    var next := Rebuild.NextBatch(sdk.sha256, acc, nullifiers);
    if next.None? {
      return Err(AccumulatorFailed);
    }
    var lockRefRoot := ComputeLockRefRoot(sdk.derive, lockRefs);
    if lockRefRoot.Err? {
      MergedRefs(sdk, inputs, spent);
      BadOrderRefused(sdk, MergedInput(sdk, inputs, spent));
      return Err(PrecheckFailed(lockRefRoot.error));
    }
    var total := ComputeSumAmounts(merge.leaves);
    var publicValues := PublicValues(template.domainTag, template.configHash, template.trustBaseHash,
      next.value.spentRootOld, next.value.spentRootNew, sdk.derive.returnRoot(merge.leaves), lockRefRoot.value,
      |merge.leaves| % 0x1_0000_0000, total);
    var input := GuestInput(config, publicValues, merge.leaves, lockRefs, next.value.witnesses, merge.burns);
    MergedIs(sdk, inputs, spent, lockRefRoot.value, input);
    MergedFits(sdk, wire, inputs, spent);
    var checked := EncodeChecked(sdk, wire, input);
    if checked.Err? {
      return Err(PrecheckFailed(checked.error));
    }
    r := Ok(Assembled(checked.value, publicValues, merge.leaves, lockRefs, merge.kept, merge.excluded));
    PresentsIs(sdk, wire, r.value, Folded(merge.inputs, merge.kept, merge.excluded), spent);
  }

  lemma MergeFields(merge: Merge)
    requires merge.Valid()
    ensures merge.template == TemplateOf(merge.inputs) && (merge.template.None? <==> merge.inputs == [])
    ensures merge.inputs != [] ==> merge.template == Some((merge.inputs[0].config, merge.inputs[0].publicValues))
    ensures merge.leaves == AllLeaves(merge.inputs) && merge.lockRefs == AllRefs(merge.inputs)
              && merge.burns == AllBurns(merge.inputs)
  {
  }
}
