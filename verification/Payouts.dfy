/**
 * What the vault holds and owes, and paying the leaves of a settled batch: pushed at once or
 * credited for a later withdrawal.
 */
module Payouts {
  import opened ByteWords
  import opened Wrappers
  import opened BigEndian
  import opened ReturnCore

  /** The vault's balance of the asset, what it has credited to each account, and the transfers it has
      made, in order. */
  datatype Funds = Funds(balance: nat, owed: map<Address, nat>, sent: seq<(Address, nat)>)

  /** How the vault pays: its own address, and whether it credits instead of transferring. */
  datatype Mode = Mode(vault: Address, pull: bool)

  const NO_ADDRESS: Address := Zeros(20)

  function OwedTo(f: Funds, a: Address): nat {
    if a in f.owed then f.owed[a] else 0
  }

  // ----- one payment

  /** A transfer out. A payment to the vault itself, or of nothing, moves nothing; any other needs the
      balance and the asset's consent. */
  function Send(f: Funds, vault: Address, willing: bool, to: Address, value: nat): Option<Funds> {
    if to == vault || value == 0 then Some(f)
    else if !willing || value > f.balance then None
    else Some(f.(balance := f.balance - value, sent := f.sent + [(to, value)]))
  }

  /** A credit; the running total is one word. */
  function Credit(f: Funds, to: Address, value: nat): Option<Funds> {
    if OwedTo(f, to) + value >= WORD then None else Some(f.(owed := f.owed[to := OwedTo(f, to) + value]))
  }

  function Pay(f: Funds, mode: Mode, willing: bool, to: Address, value: nat): Option<Funds> {
    if mode.pull then Credit(f, to, value) else Send(f, mode.vault, willing, to, value)
  }

  /** The fee that is due: none without a fee recipient or after the deadline. */
  function FeeDue(leaf: ReturnLeaf, now: nat): nat {
    if leaf.feeRecipient != NO_ADDRESS && now <= leaf.deadline then Value(leaf.feeAmount) else 0
  }

  /** The principal, then the fee when there is one. */
  function PayLeaf(f: Funds, mode: Mode, willing: bool, now: nat, leaf: ReturnLeaf): Option<Funds>
    requires Value(leaf.feeAmount) <= Value(leaf.amount)
  {
    var fee := FeeDue(leaf, now);
    var paid :- Pay(f, mode, willing, leaf.recipient, Value(leaf.amount) - fee);
    if fee > 0 then Pay(paid, mode, willing, leaf.feeRecipient, fee) else Some(paid)
  }

  ghost predicate FeesWithin(leaves: seq<ReturnLeaf>) {
    forall l | l in leaves :: Value(l.feeAmount) <= Value(l.amount)
  }

  function PayAll(f: Funds, mode: Mode, willing: bool, now: nat, leaves: seq<ReturnLeaf>): Option<Funds>
    requires FeesWithin(leaves)
  {
    if leaves == [] then Some(f)
    else
      var paid :- PayAll(f, mode, willing, now, leaves[..|leaves| - 1]);
      PayLeaf(paid, mode, willing, now, leaves[|leaves| - 1])
  }

  method PayLeaves(f: Funds, mode: Mode, willing: bool, now: nat, leaves: seq<ReturnLeaf>) returns (paid: Option<Funds>)
    requires FeesWithin(leaves)
    ensures paid == PayAll(f, mode, willing, now, leaves)
  {
    hide PayLeaf, Value;
    var funds := f;
    assert leaves[..0] == [];
    for i := 0 to |leaves|
      invariant PayAll(f, mode, willing, now, leaves[..i]) == Some(funds)
    {
      assert leaves[..i + 1][..i] == leaves[..i];
      InSeqSet(leaves, i);
      var next := PayLeaf(funds, mode, willing, now, leaves[i]);
      if next.None? {
        PayFailsEarly(f, mode, willing, now, leaves, i + 1);
        return None;
      }
      funds := next.value;
    }
    assert leaves[..|leaves|] == leaves;
    paid := Some(funds);
  }

  lemma {:induction false} PayFailsEarly(f: Funds, mode: Mode, willing: bool, now: nat, leaves: seq<ReturnLeaf>, n: nat)
    requires FeesWithin(leaves) && n <= |leaves| && PayAll(f, mode, willing, now, leaves[..n]).None?
    ensures PayAll(f, mode, willing, now, leaves).None?
    decreases |leaves|
  {
    hide PayLeaf, Value;
    if n == |leaves| {
      assert leaves[..n] == leaves;
    } else {
      var init := leaves[..|leaves| - 1];
      assert init[..n] == leaves[..n];
      PayFailsEarly(f, mode, willing, now, init, n);
    }
  }

  // ----- what is owed in all

  ghost function Owing(owed: map<Address, nat>): nat
    decreases |owed|
  {
    if owed == map[] then 0
    else
      var a :| a in owed;
      owed[a] + Owing(owed - {a})
  }

  /** Any account may be counted first. */
  lemma {:induction false} OwingAt(owed: map<Address, nat>, a: Address)
    requires a in owed
    ensures Owing(owed) == owed[a] + Owing(owed - {a})
    decreases |owed|
  {
    var b := FirstOwed(owed);
    if b != a {
      OwingAt(owed - {b}, a);
      OwingAt(owed - {a}, b);
      assert owed - {b} - {a} == owed - {a} - {b};
    }
  }

  lemma FirstOwed(owed: map<Address, nat>) returns (a: Address)
    requires owed != map[]
    ensures a in owed && Owing(owed) == owed[a] + Owing(owed - {a})
    ensures |owed - {a}| < |owed|
  {
    a :| a in owed && Owing(owed) == owed[a] + Owing(owed - {a});
  }

  lemma OwingSet(f: Funds, a: Address, value: nat)
    ensures Owing(f.owed[a := value]) + OwedTo(f, a) == Owing(f.owed) + value
    ensures OwedTo(f, a) <= Owing(f.owed)
  {
    var credited := f.owed[a := value];
    OwingAt(credited, a);
    if a in f.owed {
      OwingAt(f.owed, a);
      assert credited - {a} == f.owed - {a};
    } else {
      assert credited - {a} == f.owed;
    }
  }

  // ----- what paying changes

  /** Of what is free, the balance less what is owed, at most `value` is taken, and at most as much
      more is owed. */
  ghost predicate TakesAtMost(f: Funds, f': Funds, value: nat) {
    && f'.balance + value + Owing(f.owed) >= f.balance + Owing(f'.owed)
    && Owing(f'.owed) <= Owing(f.owed) + value
  }

  lemma PayKeeps(f: Funds, mode: Mode, willing: bool, to: Address, value: nat)
    ensures var paid := Pay(f, mode, willing, to, value);
            paid.Some? ==> TakesAtMost(f, paid.value, value)
  {
    hide Owing;
    if mode.pull && OwedTo(f, to) + value < WORD {
      OwingSet(f, to, OwedTo(f, to) + value);
    }
  }

  lemma PayLeafKeeps(f: Funds, mode: Mode, willing: bool, now: nat, leaf: ReturnLeaf)
    requires Value(leaf.feeAmount) <= Value(leaf.amount)
    ensures var paid := PayLeaf(f, mode, willing, now, leaf);
            paid.Some? ==> TakesAtMost(f, paid.value, Value(leaf.amount))
  {
    hide Owing, Value, Pay;
    var fee := FeeDue(leaf, now);
    PayKeeps(f, mode, willing, leaf.recipient, Value(leaf.amount) - fee);
    var first := Pay(f, mode, willing, leaf.recipient, Value(leaf.amount) - fee);
    if first.Some? && fee > 0 {
      PayKeeps(first.value, mode, willing, leaf.feeRecipient, fee);
    }
  }

  /** Paying a batch takes no more from what is free than its amounts. */
  lemma {:induction false} PayAllKeeps(f: Funds, mode: Mode, willing: bool, now: nat, leaves: seq<ReturnLeaf>)
    requires FeesWithin(leaves)
    ensures var paid := PayAll(f, mode, willing, now, leaves);
            paid.Some? ==> TakesAtMost(f, paid.value, AmountSum(leaves))
  {
    hide Owing, Value, PayLeaf;
    if leaves != [] {
      var init, last := leaves[..|leaves| - 1], leaves[|leaves| - 1];
      PayAllKeeps(f, mode, willing, now, init);
      var before := PayAll(f, mode, willing, now, init);
      if before.Some? {
        PayLeafKeeps(before.value, mode, willing, now, last);
      }
    }
  }

  // ----- when paying succeeds

  /** The funds cover `value`: with what is free when paying out, within a word when crediting. */
  predicate CanCover(f: Funds, mode: Mode, willing: bool, value: nat, owing: nat) {
    if mode.pull then owing + value < WORD else willing && value <= f.balance
  }

  lemma PaySucceeds(f: Funds, mode: Mode, willing: bool, to: Address, value: nat, more: nat)
    requires CanCover(f, mode, willing, value + more, Owing(f.owed))
    ensures var paid := Pay(f, mode, willing, to, value);
            paid.Some? && CanCover(paid.value, mode, willing, more, Owing(paid.value.owed))
  {
    hide Owing;
    OwingSet(f, to, OwedTo(f, to) + value);
  }

  lemma PayLeafSucceeds(f: Funds, mode: Mode, willing: bool, now: nat, leaf: ReturnLeaf, more: nat)
    requires Value(leaf.feeAmount) <= Value(leaf.amount)
    requires CanCover(f, mode, willing, Value(leaf.amount) + more, Owing(f.owed))
    ensures var paid := PayLeaf(f, mode, willing, now, leaf);
            paid.Some? && CanCover(paid.value, mode, willing, more, Owing(paid.value.owed))
  {
    hide Owing, Value, Pay, CanCover;
    var fee := FeeDue(leaf, now);
    PaySucceeds(f, mode, willing, leaf.recipient, Value(leaf.amount) - fee, fee + more);
    if fee > 0 {
      var first := Pay(f, mode, willing, leaf.recipient, Value(leaf.amount) - fee).value;
      PaySucceeds(first, mode, willing, leaf.feeRecipient, fee, more);
    }
  }

  /** A batch whose amounts the funds cover is paid in full. */
  lemma {:induction false} PayAllSucceeds(f: Funds, mode: Mode, willing: bool, now: nat, leaves: seq<ReturnLeaf>,
      more: nat)
    requires FeesWithin(leaves) && CanCover(f, mode, willing, AmountSum(leaves) + more, Owing(f.owed))
    ensures var paid := PayAll(f, mode, willing, now, leaves);
            paid.Some? && CanCover(paid.value, mode, willing, more, Owing(paid.value.owed))
  {
    hide Owing, Value, PayLeaf, CanCover;
    if leaves != [] {
      var init, last := leaves[..|leaves| - 1], leaves[|leaves| - 1];
      PayAllSucceeds(f, mode, willing, now, init, Value(last.amount) + more);
      PayLeafSucceeds(PayAll(f, mode, willing, now, init).value, mode, willing, now, last, more);
    }
  }

  // ----- who gets what

  /** What has been transferred to one account. */
  function SentTo(sent: seq<(Address, nat)>, a: Address): nat {
    if sent == [] then 0
    else SentTo(sent[..|sent| - 1], a) + if sent[|sent| - 1].0 == a then sent[|sent| - 1].1 else 0
  }

  lemma SentMore(sent: seq<(Address, nat)>, to: Address, value: nat, a: Address)
    ensures SentTo(sent + [(to, value)], a) == SentTo(sent, a) + if to == a then value else 0
  {
    assert (sent + [(to, value)])[..|sent|] == sent;
  }

  /** A fee counts until its deadline, for a fee recipient other than the zero address. */
  ghost function Fee(leaf: ReturnLeaf, now: nat): nat {
    if leaf.feeRecipient == Zeros(20) || now > leaf.deadline then 0 else Value(leaf.feeAmount)
  }

  /** What one leaf is worth to an account: the amount less the fee to the recipient, the fee to the fee
      recipient. */
  ghost function Share(leaf: ReturnLeaf, now: nat, a: Address): nat
    requires Value(leaf.feeAmount) <= Value(leaf.amount)
  {
    (if leaf.recipient == a then Value(leaf.amount) - Fee(leaf, now) else 0)
      + if leaf.feeRecipient == a then Fee(leaf, now) else 0
  }

  ghost function Entitled(leaves: seq<ReturnLeaf>, now: nat, a: Address): nat
    requires FeesWithin(leaves)
  {
    if leaves == [] then 0
    else Entitled(leaves[..|leaves| - 1], now, a) + Share(leaves[|leaves| - 1], now, a)
  }

  /** Credits are words. */
  ghost predicate OwedFits(f: Funds) {
    forall a | a in f.owed :: f.owed[a] < WORD
  }

  ghost predicate AllFit(f: Funds) {
    forall a :: OwedTo(f, a) < WORD
  }

  lemma FitsIff(f: Funds)
    ensures OwedFits(f) <==> AllFit(f)
  {
    if AllFit(f) {
      forall a | a in f.owed
        ensures f.owed[a] < WORD
      {
        assert OwedTo(f, a) == f.owed[a];
      }
    }
  }

  lemma CreditIff(f: Funds, to: Address, value: nat)
    ensures var paid := Credit(f, to, value);
            && (paid.Some? <==> OwedTo(f, to) + value < WORD)
            && (paid.Some? ==>
                  && paid.value.balance == f.balance && paid.value.sent == f.sent
                  && forall a :: OwedTo(paid.value, a) == OwedTo(f, a) + if a == to then value else 0)
  {
  }

  ghost function Two(to: Address, value: nat, feeTo: Address, fee: nat, a: Address): nat {
    (if to == a then value else 0) + if feeTo == a then fee else 0
  }

  lemma TwoCredits(f: Funds, to: Address, value: nat, feeTo: Address, fee: nat)
    requires AllFit(f)
    ensures var first := Credit(f, to, value);
            var paid := if first.None? || fee == 0 then first else Credit(first.value, feeTo, fee);
            && (paid.Some? <==> forall a :: OwedTo(f, a) + Two(to, value, feeTo, fee, a) < WORD)
            && (paid.Some? ==>
                  && paid.value.balance == f.balance && paid.value.sent == f.sent && AllFit(paid.value)
                  && forall a :: OwedTo(paid.value, a) == OwedTo(f, a) + Two(to, value, feeTo, fee, a))
  {
    hide Credit, OwedTo;
    CreditIff(f, to, value);
    assert OwedTo(f, to) + Two(to, value, feeTo, fee, to) >= OwedTo(f, to) + value;
    var first := Credit(f, to, value);
    if first.Some? {
      CreditIff(first.value, feeTo, fee);
      assert OwedTo(first.value, feeTo) + fee == OwedTo(f, feeTo) + Two(to, value, feeTo, fee, feeTo);
    }
  }

  lemma PullLeaf(f: Funds, mode: Mode, willing: bool, now: nat, leaf: ReturnLeaf)
    requires Value(leaf.feeAmount) <= Value(leaf.amount) && mode.pull && AllFit(f)
    ensures var paid := PayLeaf(f, mode, willing, now, leaf);
            && (paid.Some? <==> forall a :: OwedTo(f, a) + Share(leaf, now, a) < WORD)
            && (paid.Some? ==>
                  && paid.value.balance == f.balance && paid.value.sent == f.sent && AllFit(paid.value)
                  && forall a :: OwedTo(paid.value, a) == OwedTo(f, a) + Share(leaf, now, a))
  {
    hide Value, Credit, OwedTo, AllFit;
    var fee := FeeDue(leaf, now);
    assert fee == Fee(leaf, now);
    var value := Value(leaf.amount) - fee;
    assert forall a :: Share(leaf, now, a) == Two(leaf.recipient, value, leaf.feeRecipient, fee, a);
    TwoCredits(f, leaf.recipient, value, leaf.feeRecipient, fee);
  }

  /** In pull mode a batch is paid if and only if every account's credit still fits a word, and then
      every account is credited exactly its principals and its fees, and nothing moves. */
  lemma {:induction false} PullCredits(f: Funds, mode: Mode, willing: bool, now: nat, leaves: seq<ReturnLeaf>)
    requires FeesWithin(leaves) && mode.pull && AllFit(f)
    ensures var paid := PayAll(f, mode, willing, now, leaves);
            && (paid.Some? <==> forall a :: OwedTo(f, a) + Entitled(leaves, now, a) < WORD)
            && (paid.Some? ==>
                  && paid.value.balance == f.balance && paid.value.sent == f.sent && AllFit(paid.value)
                  && forall a :: OwedTo(paid.value, a) == OwedTo(f, a) + Entitled(leaves, now, a))
  {
    hide Value, PayLeaf, Share, OwedTo;
    if leaves != [] {
      var init, last := leaves[..|leaves| - 1], leaves[|leaves| - 1];
      PullCredits(f, mode, willing, now, init);
      var before := PayAll(f, mode, willing, now, init);
      if before.Some? {
        PullLeaf(before.value, mode, willing, now, last);
      }
    }
  }

  /** What leaves the vault for others: payments to itself stay. */
  ghost function Outgoing(leaf: ReturnLeaf, now: nat, vault: Address): nat
    requires Value(leaf.feeAmount) <= Value(leaf.amount)
  {
    (if leaf.recipient == vault then 0 else Value(leaf.amount) - Fee(leaf, now))
      + if leaf.feeRecipient == vault then 0 else Fee(leaf, now)
  }

  ghost function AllOutgoing(leaves: seq<ReturnLeaf>, now: nat, vault: Address): nat
    requires FeesWithin(leaves)
  {
    if leaves == [] then 0
    else AllOutgoing(leaves[..|leaves| - 1], now, vault) + Outgoing(leaves[|leaves| - 1], now, vault)
  }

  /** One transfer, said of every account. */
  ghost predicate Sends(f: Funds, f': Funds, vault: Address, to: Address, value: nat) {
    && f'.owed == f.owed && f'.balance + (if to == vault then 0 else value) == f.balance
    && forall a :: SentTo(f'.sent, a) == SentTo(f.sent, a) + if a == to && a != vault then value else 0
  }

  lemma SendIff(f: Funds, vault: Address, willing: bool, to: Address, value: nat)
    ensures var out := if to == vault then 0 else value;
            var sent := Send(f, vault, willing, to, value);
            && (sent.Some? <==> (out == 0 || willing) && out <= f.balance)
            && (sent.Some? ==> Sends(f, sent.value, vault, to, value))
  {
    hide SentTo;
    forall a
      ensures SentTo(f.sent + [(to, value)], a) == SentTo(f.sent, a) + if to == a then value else 0
    {
      SentMore(f.sent, to, value, a);
    }
  }

  lemma PushLeaf(f: Funds, mode: Mode, willing: bool, now: nat, leaf: ReturnLeaf)
    requires Value(leaf.feeAmount) <= Value(leaf.amount) && !mode.pull
    ensures var paid, out := PayLeaf(f, mode, willing, now, leaf), Outgoing(leaf, now, mode.vault);
            && (paid.Some? <==> (out == 0 || willing) && out <= f.balance)
            && (paid.Some? ==>
                  && paid.value.owed == f.owed && paid.value.balance + out == f.balance
                  && forall a :: SentTo(paid.value.sent, a)
                       == SentTo(f.sent, a) + if a == mode.vault then 0 else Share(leaf, now, a))
  {
    hide Value, SentTo, Send;
    var fee := FeeDue(leaf, now);
    assert fee == Fee(leaf, now);
    SendIff(f, mode.vault, willing, leaf.recipient, Value(leaf.amount) - fee);
    var first := Send(f, mode.vault, willing, leaf.recipient, Value(leaf.amount) - fee);
    if first.Some? {
      SendIff(first.value, mode.vault, willing, leaf.feeRecipient, fee);
    }
  }

  /** In push mode a batch is paid if and only if the balance covers what goes to others and the asset
      consents to any of it, and then every other account is sent exactly its principals and its fees. */
  lemma {:induction false} PushPays(f: Funds, mode: Mode, willing: bool, now: nat, leaves: seq<ReturnLeaf>)
    requires FeesWithin(leaves) && !mode.pull
    ensures var paid, out := PayAll(f, mode, willing, now, leaves), AllOutgoing(leaves, now, mode.vault);
            && (paid.Some? <==> (out == 0 || willing) && out <= f.balance)
            && (paid.Some? ==>
                  && paid.value.owed == f.owed && paid.value.balance + out == f.balance
                  && forall a :: SentTo(paid.value.sent, a)
                       == SentTo(f.sent, a) + if a == mode.vault then 0 else Entitled(leaves, now, a))
  {
    hide Value, PayLeaf, Share, SentTo, Outgoing;
    if leaves != [] {
      var init, last := leaves[..|leaves| - 1], leaves[|leaves| - 1];
      PushPays(f, mode, willing, now, init);
      var before := PayAll(f, mode, willing, now, init);
      if before.Some? {
        PushLeaf(before.value, mode, willing, now, last);
      }
    }
  }

  /** The funds can pay the batch: every credit still fits a word, or the balance covers what goes to
      others and the asset consents to it. */
  ghost predicate Payable(f: Funds, mode: Mode, willing: bool, now: nat, leaves: seq<ReturnLeaf>)
    requires FeesWithin(leaves)
  {
    if mode.pull then forall a :: OwedTo(f, a) + Entitled(leaves, now, a) < WORD
    else
      var out := AllOutgoing(leaves, now, mode.vault);
      (out == 0 || willing) && out <= f.balance
  }

  /** Every account got exactly what it is entitled to, as a credit or sent; what goes to the vault
      itself stays, and nothing else moved. */
  ghost predicate PaidOut(f: Funds, f': Funds, mode: Mode, now: nat, leaves: seq<ReturnLeaf>)
    requires FeesWithin(leaves)
  {
    if mode.pull then
      && f'.balance == f.balance && f'.sent == f.sent
      && forall a :: OwedTo(f', a) == OwedTo(f, a) + Entitled(leaves, now, a)
    else
      && f'.owed == f.owed && f'.balance + AllOutgoing(leaves, now, mode.vault) == f.balance
      && forall a :: SentTo(f'.sent, a)
           == SentTo(f.sent, a) + if a == mode.vault then 0 else Entitled(leaves, now, a)
  }

  lemma PaysExactly(f: Funds, mode: Mode, willing: bool, now: nat, leaves: seq<ReturnLeaf>)
    requires FeesWithin(leaves) && OwedFits(f)
    ensures var paid := PayAll(f, mode, willing, now, leaves);
            && (paid.Some? <==> Payable(f, mode, willing, now, leaves))
            && (paid.Some? ==> PaidOut(f, paid.value, mode, now, leaves) && OwedFits(paid.value))
  {
    hide PayAll, Entitled, AllOutgoing, SentTo, AllFit;
    FitsIff(f);
    if PayAll(f, mode, willing, now, leaves).Some? {
      FitsIff(PayAll(f, mode, willing, now, leaves).value);
    }
    if mode.pull {
      PullCredits(f, mode, willing, now, leaves);
    } else {
      PushPays(f, mode, willing, now, leaves);
    }
  }
}
