/**
 * Rebuilding the vault's accumulator from its settlement log, and the accumulator inputs of the
 * next batch. The log may come in any order and name a transition more than once.
 */
module Rebuild {
  import opened ByteWords
  import opened Wrappers
  import opened SparseTree
  import opened Accumulator

  datatype SettledBatch = SettledBatch(
    nullifiers: seq<Bytes32>,
    spentRootOld: Bytes32,
    spentRootNew: Bytes32,
    txid: Option<string>)
  {
    /** The accumulator step alone: what a source names its transaction does not change it. */
    function Step(): Transition {
      Transition(nullifiers, spentRootOld, spentRootNew)
    }

    predicate SameTransition(other: SettledBatch) {
      Step() == other.Step()
    }
  }

  datatype Transition = Transition(nullifiers: seq<Bytes32>, rootOld: Bytes32, rootNew: Bytes32)

  datatype SettledLog = SettledLog(batches: seq<SettledBatch>, onChainSpentRoot: Option<Bytes32>)

  datatype Rebuilt = Rebuilt(tree: NullifierTree, spentRoot: Bytes32, spentCount: nat, txids: map<Bytes32, string>)

  datatype NextInputs = NextInputs(spentRootOld: Bytes32, witnesses: seq<Witness>, spentRootNew: Bytes32)

  // ----- what a log means

  function Steps(batches: seq<SettledBatch>): set<Transition> {
    set b | b in batches :: b.Step()
  }

  /** Every nullifier of a chain of transitions, in order. */
  function Keys(chain: seq<Transition>): seq<Bytes32> {
    if chain == [] then [] else Keys(chain[..|chain| - 1]) + chain[|chain| - 1].nullifiers
  }

  function RootAfter(chain: seq<Transition>): Bytes32 {
    if chain == [] then EMPTY_TREE_ROOT else chain[|chain| - 1].rootNew
  }

  /** `next` continues `chain`: from its root, with fresh nullifiers, to the root they give. */
  ghost predicate Continues(h: Hash, chain: seq<Transition>, next: Transition) {
    && next.rootOld == RootAfter(chain)
    && next.nullifiers != []
    && Fresh(SeqSet(Keys(chain)), next.nullifiers)
    && next.rootNew == RootOf(h, SeqSet(Keys(chain)) + SeqSet(next.nullifiers))
  }

  /** A chain of valid transitions from the empty root. */
  ghost predicate Chains(h: Hash, chain: seq<Transition>) {
    chain == [] || (Chains(h, chain[..|chain| - 1]) && Continues(h, chain[..|chain| - 1], chain[|chain| - 1]))
  }

  /** Nothing in `steps` forks off the chain. */
  ghost predicate NoFork(steps: set<Transition>, chain: seq<Transition>) {
    forall t, i | t in steps && 0 <= i < |chain| && t.rootOld == chain[i].rootOld :: t == chain[i]
  }

  /** The history of a log: one chain from the empty root that applies all of its transitions and
      nothing else, and never forks. */
  ghost predicate IsHistory(h: Hash, steps: set<Transition>, chain: seq<Transition>) {
    Chains(h, chain) && SeqSet(chain) == steps && NoFork(steps, chain)
  }

  /** The history of a set of transitions, when it has one. */
  ghost function History(h: Hash, steps: set<Transition>): (r: Option<seq<Transition>>)
    ensures r.Some? ==> IsHistory(h, steps, r.value)
    ensures r.None? ==> forall chain :: !IsHistory(h, steps, chain)
  {
    if chain :| IsHistory(h, steps, chain) then Some(chain) else None
  }

  // ----- facts about chains

  lemma KeysPush(chain: seq<Transition>, next: Transition)
    ensures Keys(chain + [next]) == Keys(chain) + next.nullifiers
    ensures SeqSet(Keys(chain + [next])) == SeqSet(Keys(chain)) + SeqSet(next.nullifiers)
    ensures RootAfter(chain + [next]) == next.rootNew
  {
  }

  lemma FreshAppend(a: seq<Bytes32>, b: seq<Bytes32>)
    requires Distinct(a) && Fresh(SeqSet(a), b)
    ensures Distinct(a + b)
  {
    forall i, j | 0 <= i < j < |a + b|
      ensures (a + b)[i] != (a + b)[j]
    {
      if i < |a| <= j {
        assert a[i] in SeqSet(a) && b[j - |a|] in SeqSet(b);
      }
    }
  }

  lemma FreshFirst(spent: set<Bytes32>, keys: seq<Bytes32>)
    requires Fresh(spent, keys) && keys != []
    ensures keys[0] !in spent && keys[0] in SeqSet(keys)
  {
  }

  lemma ChainPush(h: Hash, chain: seq<Transition>, next: Transition)
    ensures Chains(h, chain + [next]) <==> Chains(h, chain) && Continues(h, chain, next)
  {
    assert (chain + [next])[..|chain|] == chain;
  }

  lemma {:induction false} ChainPrefix(h: Hash, chain: seq<Transition>, n: nat)
    requires Chains(h, chain) && n <= |chain|
    ensures Chains(h, chain[..n])
    ensures n < |chain| ==> Continues(h, chain[..n], chain[n])
    ensures SeqSet(Keys(chain[..n])) <= SeqSet(Keys(chain))
  {
    hide Continues, SeqSet;
    if n < |chain| {
      var last := |chain| - 1;
      ChainPrefix(h, chain[..last], n);
      hide Chains;
      assert chain[..last][..n] == chain[..n];
      SeqSetSplit(Keys(chain[..last]), chain[last].nullifiers);
    } else {
      assert chain[..n] == chain;
    }
  }

  lemma {:induction false} ChainKeys(h: Hash, chain: seq<Transition>)
    requires Chains(h, chain)
    ensures Distinct(Keys(chain))
    ensures forall t | t in chain :: t.nullifiers != [] && SeqSet(t.nullifiers) <= SeqSet(Keys(chain))
    ensures RootAfter(chain) == RootOf(h, SeqSet(Keys(chain)))
  {
    hide SubRoot, Fresh;
    if chain != [] {
      var last := |chain| - 1;
      var init, t := chain[..last], chain[last];
      ChainKeys(h, init);
      assert chain == init + [t];
      KeysPush(init, t);
      FreshAppend(Keys(init), t.nullifiers);
    }
  }

  lemma {:induction false} ChainDistinct(h: Hash, chain: seq<Transition>)
    requires Chains(h, chain)
    ensures Distinct(chain)
  {
    hide RootOf, Fresh, RootAfter;
    if chain != [] {
      var last := |chain| - 1;
      var init, t := chain[..last], chain[last];
      ChainDistinct(h, init);
      ChainKeys(h, init);
      FreshFirst(SeqSet(Keys(init)), t.nullifiers);
      DistinctLast(init, t);
      assert chain == init + [t];
    }
  }

  /** What a valid chain guarantees: no nullifier occurs twice, none of its transitions is applied
      twice, and it ends on the root of exactly the nullifiers it spent. */
  lemma ChainFacts(h: Hash, chain: seq<Transition>)
    requires Chains(h, chain)
    ensures Distinct(Keys(chain)) && Distinct(chain)
    ensures forall t | t in chain :: t.nullifiers != [] && SeqSet(t.nullifiers) <= SeqSet(Keys(chain))
    ensures RootAfter(chain) == RootOf(h, SeqSet(Keys(chain)))
  {
    hide *;
    ChainKeys(h, chain);
    ChainDistinct(h, chain);
  }

  lemma RootLink(h: Hash, chain: seq<Transition>, i: nat)
    requires Chains(h, chain) && i < |chain|
    ensures chain[i].rootOld == RootAfter(chain[..i])
  {
    ChainPrefix(h, chain, i);
  }

  /** The roots a chain starts its steps from are pairwise distinct, unless hashing breaks. */
  lemma RootsDiffer(h: Hash, chain: seq<Transition>, i: nat, j: nat)
    requires Chains(h, chain) && i < j < |chain|
    requires CollisionFree(h, RootInputs(h, SeqSet(Keys(chain[..i]))) + RootInputs(h, SeqSet(Keys(chain[..j]))))
    ensures chain[i].rootOld != chain[j].rootOld
  {
    hide CollisionFree, RootInputs, RootOf, Keys, Chains, NoFork;
    StartsFrom(h, chain, i);
    StartsFrom(h, chain, j);
    ChainPrefix(h, chain, j);
    ChainPrefix(h, chain[..j], i + 1);
    assert chain[..j][..i + 1] == chain[..i + 1] == chain[..i] + [chain[i]];
    ChainPrefix(h, chain, i);
    KeysPush(chain[..i], chain[i]);
    FreshFirst(SeqSet(Keys(chain[..i])), chain[i].nullifiers);
    if chain[i].rootOld == chain[j].rootOld {
      RootInjective(h, SeqSet(Keys(chain[..i])), SeqSet(Keys(chain[..j])));
    }
  }

  lemma StartsFrom(h: Hash, chain: seq<Transition>, i: nat)
    requires Chains(h, chain) && i < |chain|
    ensures chain[i].rootOld == RootOf(h, SeqSet(Keys(chain[..i])))
  {
    hide Continues, RootOf;
    RootLink(h, chain, i);
    ChainPrefix(h, chain, i);
    ChainFacts(h, chain[..i]);
  }

  /** Following a log's transitions from the empty root without forks can only trace its history. */
  lemma {:induction false} TracesHistory(h: Hash, steps: set<Transition>, traced: seq<Transition>,
      chain: seq<Transition>)
    requires Chains(h, traced) && SeqSet(traced) <= steps && IsHistory(h, steps, chain)
    ensures traced <= chain
  {
    hide Chains, Continues, RootAfter, NoFork, Distinct;
    if traced != [] {
      var n := |traced| - 1;
      ChainPrefix(h, traced, n);
      TracesHistory(h, steps, traced[..n], chain);
      ChainDistinct(h, traced);
      DistinctLoss(traced, n);
      RootLink(h, traced, n);
      assert chain[..n] == traced[..n];
      var m := IndexIn(chain, traced[n]);
      NextInHistory(h, steps, chain, n, m);
    }
  }

  /** The transition of a history that continues from its n-th root is its n-th one. */
  lemma NextInHistory(h: Hash, steps: set<Transition>, chain: seq<Transition>, n: nat, m: nat)
    requires IsHistory(h, steps, chain) && n <= |chain| && m < |chain|
    requires chain[m].rootOld == RootAfter(chain[..n])
    requires chain[m] !in chain[..n]
    ensures m == n
  {
    assert chain[..|chain|] == chain;
    ChainPrefix(h, chain, n);
    ChainFacts(h, chain);
    assert chain[n] in SeqSet(chain) && chain[m] in SeqSet(chain);
  }

  /** A log has at most one history. */
  lemma HistoryUnique(h: Hash, steps: set<Transition>, a: seq<Transition>, b: seq<Transition>)
    requires IsHistory(h, steps, a) && IsHistory(h, steps, b)
    ensures a == b
  {
    TracesHistory(h, steps, a, b);
    TracesHistory(h, steps, b, a);
  }

  // ----- the rebuild loop

  /** The first transaction any copy of transition `t` names, in log order. */
  function FirstTxid(batches: seq<SettledBatch>, t: Transition): Option<string> {
    if batches == [] then None
    else
      var last := batches[|batches| - 1];
      match FirstTxid(batches[..|batches| - 1], t)
      case Some(txid) => Some(txid)
      case None => if last.Step() == t then last.txid else None
  }

  /** The map names, for exactly the nullifiers whose batch some source named, that first name. */
  ghost predicate NamesSpenders(batches: seq<SettledBatch>, chain: seq<Transition>, txids: map<Bytes32, string>) {
    && txids.Keys <= SeqSet(Keys(chain))
    && forall t, n | t in chain && n in t.nullifiers ::
         (if n in txids then Some(txids[n]) else None) == FirstTxid(batches, t)
  }

  /** The first copy of `t` that names a transaction. */
  ghost predicate FirstNaming(batches: seq<SettledBatch>, t: Transition, i: nat) {
    && i < |batches| && batches[i].Step() == t && batches[i].txid.Some?
    && forall j | 0 <= j < i && batches[j].Step() == t :: batches[j].txid.None?
  }

  lemma {:induction false} FirstTxidIff(batches: seq<SettledBatch>, t: Transition) returns (i: nat)
    ensures FirstTxid(batches, t).Some? ==> FirstNaming(batches, t, i) && batches[i].txid == FirstTxid(batches, t)
    ensures FirstTxid(batches, t).None? ==> forall j | 0 <= j < |batches| && batches[j].Step() == t ::
              batches[j].txid.None?
  {
    i := 0;
    if batches != [] {
      var init := batches[..|batches| - 1];
      i := FirstTxidIff(init, t);
      assert forall j | 0 <= j < |init| :: init[j] == batches[j];
      if FirstTxid(init, t).None? {
        i := |init|;
      }
    }
  }

  /** A released nullifier is named if and only if some copy of its batch names a transaction, and then
      by the first that does. */
  lemma SpenderNamed(batches: seq<SettledBatch>, chain: seq<Transition>, txids: map<Bytes32, string>, t: Transition,
      n: Bytes32)
    requires NamesSpenders(batches, chain, txids) && t in chain && n in t.nullifiers
    ensures n in txids <==> exists i: nat :: FirstNaming(batches, t, i)
    ensures forall i: nat | FirstNaming(batches, t, i) :: n in txids && Some(txids[n]) == batches[i].txid
  {
    hide FirstTxid;
    var first := FirstTxidIff(batches, t);
  }

  /** The one unused transition that continues from `root`; two different ones are refused. */
  method NextLink(batches: seq<SettledBatch>, used: seq<bool>, root: Bytes32)
    returns (r: Result<Option<nat>, (nat, nat)>)
    requires |used| == |batches|
    ensures r.Ok? && r.value.None? ==> forall i | 0 <= i < |batches| :: used[i] || batches[i].spentRootOld != root
    ensures r.Ok? && r.value.Some? ==>
              var f := r.value.value;
              && f < |batches| && !used[f] && batches[f].spentRootOld == root
              && forall i | 0 <= i < |batches| && !used[i] && batches[i].spentRootOld == root ::
                batches[i].Step() == batches[f].Step()
    ensures r.Err? ==>
              var (f, i) := r.error;
              && f < i < |batches| && !used[f] && !used[i]
              && batches[f].spentRootOld == batches[i].spentRootOld == root
              && batches[f].Step() != batches[i].Step()
  {
    var found: Option<nat> := None;
    for i := 0 to |batches|
      invariant found.None? ==> forall j | 0 <= j < i :: used[j] || batches[j].spentRootOld != root
      invariant found.Some? ==>
                  var f := found.value;
                  && f < i && !used[f] && batches[f].spentRootOld == root
                  && forall j | 0 <= j < i && !used[j] && batches[j].spentRootOld == root ::
                    batches[j].Step() == batches[f].Step()
    {
      if used[i] || batches[i].spentRootOld != root {
        continue;
      }
      match found {
        case None => found := Some(i);
        case Some(f) =>
          if !batches[f].SameTransition(batches[i]) {
            return Err((f, i));
          }
      }
    }
    r := Ok(found);
  }

  /** What the loop knows: the chain traced so far, and that exactly its transitions are used. */
  ghost predicate Traced(h: Hash, batches: seq<SettledBatch>, used: seq<bool>, chain: seq<Transition>) {
    && |used| == |batches|
    && Chains(h, chain)
    && (forall j | 0 <= j < |batches| :: used[j] <==> batches[j].Step() in chain)
    && SeqSet(chain) <= Steps(batches)
    && NoFork(Steps(batches), chain)
  }

  lemma StepOf(batches: seq<SettledBatch>, t: Transition) returns (i: nat)
    requires t in Steps(batches)
    ensures i < |batches| && batches[i].Step() == t
  {
    var b :| b in batches && b.Step() == t;
    i :| i < |batches| && batches[i] == b;
  }

  /** A log whose traced chain it has outgrown continues from the traced root. */
  lemma HistoryGoesOn(h: Hash, batches: seq<SettledBatch>, used: seq<bool>, traced: seq<Transition>,
      chain: seq<Transition>, i: nat)
    requires Traced(h, batches, used, traced) && IsHistory(h, Steps(batches), chain)
    requires i < |batches| && !used[i]
    ensures |traced| < |chain|
    ensures Continues(h, traced, chain[|traced|]) && chain[|traced|] in Steps(batches) && chain[|traced|] !in traced
    ensures batches[i].spentRootOld == RootAfter(traced) ==> chain[|traced|] == batches[i].Step()
  {
    hide Continues;
    var n := |traced|;
    TracesHistory(h, Steps(batches), traced, chain);
    assert batches[i] in batches;
    assert batches[i].Step() in Steps(batches);
    assert batches[i].Step() in SeqSet(chain);
    var m :| 0 <= m < |chain| && chain[m] == batches[i].Step();
    assert chain[..n] == traced;
    assert n < |chain| by {
      assert chain[m] !in traced;
    }
    ChainPrefix(h, chain, n);
    ChainFacts(h, chain);
    assert chain[n] in SeqSet(chain);
    if batches[i].spentRootOld == RootAfter(traced) {
      NextInHistory(h, Steps(batches), chain, n, m);
    }
  }

  /** The rebuild fails whenever the next link is missing, forked or wrong, and then the log has
      no history. */
  lemma NoHistory(h: Hash, batches: seq<SettledBatch>, used: seq<bool>, traced: seq<Transition>, i: nat)
    requires Traced(h, batches, used, traced)
    requires i < |batches| && !used[i]
    requires || (forall j | 0 <= j < |batches| && !used[j] :: batches[j].spentRootOld != RootAfter(traced))
             || (batches[i].spentRootOld == RootAfter(traced) && !Continues(h, traced, batches[i].Step()))
             || (batches[i].spentRootOld == RootAfter(traced)
                 && exists j | 0 <= j < |batches| && !used[j] ::
                      batches[j].spentRootOld == RootAfter(traced) && batches[j].Step() != batches[i].Step())
    ensures History(h, Steps(batches)).None?
  {
    assert |used| == |batches|;
    hide Continues, RootAfter, Traced;
    forall chain
      ensures !IsHistory(h, Steps(batches), chain)
    {
      if IsHistory(h, Steps(batches), chain) {
        HistoryGoesOn(h, batches, used, traced, chain, i);
        var next := StepOf(batches, chain[|traced|]);
        NextUnused(h, batches, used, traced, chain[|traced|], next);
        forall j | 0 <= j < |batches| && !used[j]
          ensures batches[j].spentRootOld == RootAfter(traced) ==> chain[|traced|] == batches[j].Step()
        {
          HistoryGoesOn(h, batches, used, traced, chain, j);
        }
      }
    }
  }

  lemma NextUnused(h: Hash, batches: seq<SettledBatch>, used: seq<bool>, traced: seq<Transition>, t: Transition, i: nat)
    requires Traced(h, batches, used, traced) && Continues(h, traced, t) && t !in traced
    requires i < |batches| && batches[i].Step() == t
    ensures !used[i] && batches[i].spentRootOld == RootAfter(traced)
  {
  }

  /** Marks every copy of the transition `batches[i]` as used; its first named transaction. */
  method MarkUsed(batches: seq<SettledBatch>, used: seq<bool>, i: nat) returns (marked: seq<bool>, txid: Option<string>)
    requires |used| == |batches| && i < |batches|
    ensures |marked| == |batches|
    ensures forall j | 0 <= j < |batches| :: marked[j] <==> used[j] || batches[j].Step() == batches[i].Step()
    ensures txid == FirstTxid(batches, batches[i].Step())
  {
    marked, txid := used, None;
    for j := 0 to |batches|
      invariant |marked| == |batches|
      invariant forall k | 0 <= k < |batches| :: marked[k]
                  <==> used[k] || (k < j && batches[k].Step() == batches[i].Step())
      invariant txid == FirstTxid(batches[..j], batches[i].Step())
    {
      assert batches[..j + 1][..j] == batches[..j];
      if batches[j].SameTransition(batches[i]) {
        marked := marked[j := true];
        txid := if txid.Some? then txid else batches[j].txid;
      }
    }
    assert batches[..|batches|] == batches;
  }

  method NameSpenders(txids: map<Bytes32, string>, nullifiers: seq<Bytes32>, txid: Option<string>)
    returns (named: map<Bytes32, string>)
    ensures forall n | n !in nullifiers :: (n in named <==> n in txids) && (n in txids ==> named[n] == txids[n])
    ensures forall n | n in nullifiers ::
              if txid.Some? then n in named && named[n] == txid.value
              else (n in named <==> n in txids) && (n in txids ==> named[n] == txids[n])
  {
    named := txids;
    if txid.Some? {
      for i := 0 to |nullifiers|
        invariant forall n | n !in nullifiers[..i] :: (n in named <==> n in txids)
                    && (n in txids ==> named[n] == txids[n])
        invariant forall n | n in nullifiers[..i] :: n in named && named[n] == txid.value
      {
        named := named[nullifiers[i] := txid.value];
      }
    }
  }

  method InsertAll(tree: NullifierTree, nullifiers: seq<Bytes32>)
    requires tree.Valid() && Fresh(tree.Contents(), nullifiers)
    modifies tree
    ensures tree.Valid() && tree.Contents() == old(tree.Contents()) + SeqSet(nullifiers)
  {
    for i := 0 to |nullifiers|
      invariant tree.Valid() && tree.Contents() == old(tree.Contents()) + SeqSet(nullifiers[..i])
    {
      assert nullifiers[..i + 1] == nullifiers[..i] + [nullifiers[i]];
      var _ := tree.Insert(nullifiers[i]);
    }
    assert nullifiers[..|nullifiers|] == nullifiers;
  }

  lemma SpendersGrow(h: Hash, batches: seq<SettledBatch>, chain: seq<Transition>, next: Transition,
      txids: map<Bytes32, string>, named: map<Bytes32, string>)
    requires Chains(h, chain) && Continues(h, chain, next) && NamesSpenders(batches, chain, txids)
    requires forall n | n !in next.nullifiers :: (n in named <==> n in txids) && (n in txids ==> named[n] == txids[n])
    requires forall n | n in next.nullifiers ::
               match FirstTxid(batches, next)
               case Some(txid) => n in named && named[n] == txid
               case None => (n in named <==> n in txids) && (n in txids ==> named[n] == txids[n])
    ensures NamesSpenders(batches, chain + [next], named)
  {
    hide RootOf, FirstTxid, Chains, Continues;
    KeysPush(chain, next);
    ChainFacts(h, chain);
    NewKeys(h, chain, next);
    hide Keys;
    forall n | n in named.Keys
      ensures n in SeqSet(Keys(chain + [next]))
    {
      if n in next.nullifiers {
        assert n in SeqSet(next.nullifiers);
      }
    }
    forall t, n | t in chain + [next] && n in t.nullifiers
      ensures (if n in named then Some(named[n]) else None) == FirstTxid(batches, t)
    {
      if t in chain {
        assert n in SeqSet(t.nullifiers);
      }
    }
  }

  lemma NewKeys(h: Hash, chain: seq<Transition>, next: Transition)
    requires Continues(h, chain, next)
    ensures forall n | n in next.nullifiers :: n !in SeqSet(Keys(chain))
  {
    hide RootOf, Keys;
    forall n | n in next.nullifiers
      ensures n !in SeqSet(Keys(chain))
    {
      assert n in SeqSet(next.nullifiers);
    }
  }

  lemma TraceGrows(h: Hash, batches: seq<SettledBatch>, used: seq<bool>, chain: seq<Transition>, i: nat,
      marked: seq<bool>)
    requires Traced(h, batches, used, chain)
    requires i < |batches| && !used[i] && Continues(h, chain, batches[i].Step())
    requires forall j | 0 <= j < |batches| && !used[j] && batches[j].spentRootOld == RootAfter(chain) ::
               batches[j].Step() == batches[i].Step()
    requires |marked| == |batches|
    requires forall j | 0 <= j < |batches| :: marked[j] <==> used[j] || batches[j].Step() == batches[i].Step()
    ensures Traced(h, batches, marked, chain + [batches[i].Step()])
  {
    hide Continues, Chains;
    var next := batches[i].Step();
    ChainPush(h, chain, next);
    SeqSetPush(chain, next);
    StepListed(batches, i);
    forall t, k | t in Steps(batches) && 0 <= k < |chain + [next]| && t.rootOld == (chain + [next])[k].rootOld
      ensures t == (chain + [next])[k]
    {
      var j := StepOf(batches, t);
      ForkFree(h, batches, used, chain, i, j);
    }
  }

  lemma StepListed(batches: seq<SettledBatch>, i: nat)
    requires i < |batches|
    ensures batches[i].Step() in Steps(batches)
  {
    assert batches[i] in batches;
  }

  lemma ForkFree(h: Hash, batches: seq<SettledBatch>, used: seq<bool>, chain: seq<Transition>, i: nat, j: nat)
    requires Traced(h, batches, used, chain)
    requires i < |batches| && !used[i] && Continues(h, chain, batches[i].Step()) && j < |batches|
    requires !used[j] && batches[j].spentRootOld == RootAfter(chain) ==> batches[j].Step() == batches[i].Step()
    ensures batches[j].spentRootOld == batches[i].spentRootOld ==> batches[j].Step() == batches[i].Step()
  {
    var t := batches[j].Step();
    if used[j] && batches[j].spentRootOld == batches[i].spentRootOld {
      var k :| 0 <= k < |chain| && chain[k] == t;
      assert batches[i] in batches && batches[i].Step() in Steps(batches);
      assert batches[i].Step() == chain[k];
    }
  }

  /** Replays the log from the empty tree by its root links. It succeeds exactly when the log has a
      history, and then holds that history's nullifiers, their root and their number. */
  method Rebuild(h: Hash, batches: seq<SettledBatch>) returns (r: Option<Rebuilt>)
    ensures r.Some? <==> History(h, Steps(batches)).Some?
    ensures r.Some? ==>
              var acc, chain := r.value, History(h, Steps(batches)).value;
              && fresh(acc.tree) && acc.tree.Valid()
              && acc.tree.Contents() == SeqSet(Keys(chain))
              && acc.spentRoot == RootOf(h, acc.tree.Contents())
              && acc.spentCount == |acc.tree.Contents()|
              && NamesSpenders(batches, chain, acc.txids)
  {
    hide RootOf, History, Continues, FirstTxid, Traced, IsHistory;
    var tree := new NullifierTree();
    var root := EMPTY_TREE_ROOT;
    var spentCount: nat := 0;
    var txids: map<Bytes32, string> := map[];
    var used := seq(|batches|, _ => false);
    ghost var chain: seq<Transition> := [];
    TraceStarts(h, batches, used);
    while true
      invariant fresh(tree) && tree.Valid() && tree.Contents() == SeqSet(Keys(chain))
      invariant |used| == |batches| && Traced(h, batches, used, chain)
      invariant root == RootAfter(chain) && spentCount == |Keys(chain)|
      invariant NamesSpenders(batches, chain, txids)
      decreases |Steps(batches) - SeqSet(chain)|
    {
      var link := NextLink(batches, used, root);
      if link.Err? {
        NoHistory(h, batches, used, chain, link.error.0);
        return None;
      }
      if link.value.None? {
        break;
      }
      var i := link.value.value;
      var batch := batches[i];
      var added := OrderedInsertWitnesses(h, tree, batch.nullifiers);
      StepNext(h, chain, batch.Step());
      if batch.nullifiers == [] || added.None? || added.value.1 != batch.spentRootNew {
        NoHistory(h, batches, used, chain, i);
        return None;
      }
      InsertAll(tree, batch.nullifiers);
      var marked, txid := MarkUsed(batches, used, i);
      var named := NameSpenders(txids, batch.nullifiers, txid);
      ChainOf(h, batches, used, chain);
      SpendersGrow(h, batches, chain, batch.Step(), txids, named);
      TraceGrows(h, batches, used, chain, i, marked);
      KeysPush(chain, batch.Step());
      OneFewer(h, batches, used, chain, i);
      used, txids := marked, named;
      root := batch.spentRootNew;
      spentCount := spentCount + |batch.nullifiers|;
      chain := chain + [batch.Step()];
    }
    if j :| 0 <= j < |batches| && !used[j] {
      NoHistory(h, batches, used, chain, j);
      return None;
    }
    TraceComplete(h, batches, used, chain);
    ChainFacts(h, chain);
    DistinctSize(Keys(chain));
    r := Some(Rebuilt(tree, root, spentCount, txids));
  }

  lemma TraceStarts(h: Hash, batches: seq<SettledBatch>, used: seq<bool>)
    requires |used| == |batches| && forall j | 0 <= j < |used| :: !used[j]
    ensures Traced(h, batches, used, []) && NamesSpenders(batches, [], map[]) && SeqSet(Keys([])) == {}
  {
  }

  lemma StepNext(h: Hash, chain: seq<Transition>, t: Transition)
    requires t.rootOld == RootAfter(chain)
    ensures Continues(h, chain, t) <==>
            && t.nullifiers != [] && Fresh(SeqSet(Keys(chain)), t.nullifiers)
            && t.rootNew == RootOf(h, SeqSet(Keys(chain)) + SeqSet(t.nullifiers))
    ensures Continues(h, chain, t) ==> Fresh(SeqSet(Keys(chain)), t.nullifiers)
  {
    hide RootOf, Fresh;
  }

  lemma ChainOf(h: Hash, batches: seq<SettledBatch>, used: seq<bool>, chain: seq<Transition>)
    requires Traced(h, batches, used, chain)
    ensures Chains(h, chain)
  {
  }

  lemma OneFewer(h: Hash, batches: seq<SettledBatch>, used: seq<bool>, chain: seq<Transition>, i: nat)
    requires Traced(h, batches, used, chain) && i < |batches| && !used[i]
    ensures |Steps(batches) - SeqSet(chain + [batches[i].Step()])| < |Steps(batches) - SeqSet(chain)|
  {
    var t := batches[i].Step();
    SeqSetPush(chain, t);
    assert batches[i] in batches && t in Steps(batches);
    assert Steps(batches) - SeqSet(chain + [t]) == (Steps(batches) - SeqSet(chain)) - {t};
  }

  lemma TraceComplete(h: Hash, batches: seq<SettledBatch>, used: seq<bool>, chain: seq<Transition>)
    requires Traced(h, batches, used, chain) && forall j | 0 <= j < |batches| :: used[j]
    ensures Chains(h, chain) && History(h, Steps(batches)) == Some(chain)
  {
    hide Chains;
    forall t | t in Steps(batches)
      ensures t in SeqSet(chain)
    {
      var j := StepOf(batches, t);
    }
    assert IsHistory(h, Steps(batches), chain);
    HistoryUnique(h, Steps(batches), chain, History(h, Steps(batches)).value);
  }

  // ----- order, copies and sources do not matter

  /** Reordering a log, copying transitions, or joining it with a log that names only known
      transitions leaves its history as it was. */
  lemma SameStepsSameHistory(h: Hash, log: seq<SettledBatch>, known: seq<SettledBatch>)
    requires Steps(known) <= Steps(log)
    ensures History(h, Steps(log + known)) == History(h, Steps(log))
  {
    hide History;
    forall t | t in Steps(log + known)
      ensures t in Steps(log)
    {
      var i := StepOf(log + known, t);
      if i >= |log| {
        assert known[i - |log|].Step() in Steps(known);
      }
    }
    forall b | b in log
      ensures b.Step() in Steps(log + known)
    {
      assert b in log + known;
    }
    assert Steps(log + known) == Steps(log);
  }

  lemma PermutedLogSameHistory(h: Hash, a: seq<SettledBatch>, b: seq<SettledBatch>)
    requires multiset(a) == multiset(b)
    ensures History(h, Steps(a)) == History(h, Steps(b))
  {
    hide History;
    assert forall x :: x in a <==> x in multiset(a);
    assert forall x :: x in b <==> x in multiset(b);
    assert Steps(a) == Steps(b);
  }

  /** A lost batch is noticed exactly when another settled after it: a log without the i-th
      transition of a history has a history of its own only when that was the last one. */
  lemma LossUnnoticedOnlyAtTip(h: Hash, chain: seq<Transition>, i: nat)
    requires IsHistory(h, SeqSet(chain), chain) && i < |chain|
    ensures History(h, SeqSet(chain) - {chain[i]}).Some? <==> i == |chain| - 1
  {
    hide Continues, History;
    var lost := SeqSet(chain) - {chain[i]};
    ChainFacts(h, chain);
    DistinctLoss(chain, i);
    if i == |chain| - 1 {
      ChainPrefix(h, chain, i);
      assert IsHistory(h, lost, chain[..i]);
    }
    if History(h, lost).Some? {
      LostStops(h, chain, History(h, lost).value, i);
    }
  }

  /** Without its i-th transition a history cannot be followed past the i-th root. */
  lemma LostStops(h: Hash, chain: seq<Transition>, other: seq<Transition>, i: nat)
    requires Chains(h, chain) && i < |chain| && NoFork(SeqSet(chain), chain)
    requires IsHistory(h, SeqSet(chain) - {chain[i]}, other)
    ensures other == chain[..i]
  {
    hide Chains, Continues, NoFork, RootAfter, Distinct;
    var lost := SeqSet(chain) - {chain[i]};
    ChainPrefix(h, chain, i);
    ChainDistinct(h, chain);
    DistinctLoss(chain, i);
    SeqSetSplit(chain[..i], chain[i..]);
    assert chain == chain[..i] + chain[i..];
    TracesHistory(h, lost, chain[..i], other);
    assert other[..i] == chain[..i];
    RootLink(h, chain, i);
    if i < |other| {
      RootLink(h, other, i);
      InSeqSet(other, i);
      OnlyContinuation(chain, other[i], i);
    }
  }

  lemma OnlyContinuation(chain: seq<Transition>, t: Transition, i: nat)
    requires NoFork(SeqSet(chain), chain) && i < |chain| && t in SeqSet(chain) && t.rootOld == chain[i].rootOld
    ensures t == chain[i]
  {
  }

  /** The fetched log and the service's own settled batches, rebuilt together and checked against
      the vault's live root when the watcher reports it. */
  method SyncedAccumulator(h: Hash, log: SettledLog, known: seq<SettledBatch>) returns (r: Option<Rebuilt>)
    ensures r.Some? <==>
              var history := History(h, Steps(log.batches + known));
              history.Some? && (log.onChainSpentRoot.Some? ==>
                log.onChainSpentRoot.value == RootOf(h, SeqSet(Keys(history.value))))
    ensures r.Some? ==>
              var acc, chain := r.value, History(h, Steps(log.batches + known)).value;
              && fresh(acc.tree) && acc.tree.Valid()
              && acc.tree.Contents() == SeqSet(Keys(chain))
              && acc.spentRoot == RootOf(h, acc.tree.Contents())
              && acc.spentCount == |acc.tree.Contents()|
              && NamesSpenders(log.batches + known, chain, acc.txids)
  {
    hide RootOf, History, NamesSpenders;
    r := Rebuild(h, log.batches + known);
    if r.Some? && log.onChainSpentRoot.Some? && r.value.spentRoot != log.onChainSpentRoot.value {
      r := None;
    }
  }

  /** The inputs that settle `nullifiers` on top of a rebuilt accumulator. They exist exactly when
      there is something to settle and none of it is spent or named twice; then the guest's own
      transition check accepts them, so the defensive replay below never refuses. */
  method NextBatch(h: Hash, acc: Rebuilt, nullifiers: seq<Bytes32>) returns (r: Option<NextInputs>)
    requires acc.tree.Valid()
    ensures r.Some? <==> nullifiers != [] && Fresh(acc.tree.Contents(), nullifiers)
    ensures r.Some? ==>
              && r.value.spentRootOld == RootOf(h, acc.tree.Contents())
              && r.value.spentRootNew == RootOf(h, acc.tree.Contents() + SeqSet(nullifiers))
              && r.value.witnesses == OrderedWitnesses(h, acc.tree.Contents(), nullifiers)
              && FoldInserts(h, r.value.spentRootOld, nullifiers, r.value.witnesses) == Some(r.value.spentRootNew)
  {
    hide RootOf, Insert, OrderedWitnesses;
    if nullifiers == [] {
      return None;
    }
    var spentRootOld := acc.tree.Root(h);
    var ordered := OrderedInsertWitnesses(h, acc.tree, nullifiers);
    if ordered.None? {
      return None;
    }
    var (witnesses, spentRootNew) := ordered.value;
    ghost var spent := acc.tree.Contents();
    FoldComplete(h, spent, nullifiers);
    var running := spentRootOld;
    for i := 0 to |nullifiers|
      invariant FoldInserts(h, spentRootOld, nullifiers[..i], witnesses[..i]) == Some(running)
    {
      FoldPrefix(h, spentRootOld, nullifiers, witnesses, i + 1);
      assert nullifiers[..i + 1][..i] == nullifiers[..i] && witnesses[..i + 1][..i] == witnesses[..i];
      var inserted := Insert(h, running, nullifiers[i], witnesses[i]);
      if inserted.None? {
        return None;
      }
      running := inserted.value;
    }
    assert nullifiers[..|nullifiers|] == nullifiers && witnesses[..|nullifiers|] == witnesses;
    if running != spentRootNew {
      return None;
    }
    r := Some(NextInputs(spentRootOld, witnesses, spentRootNew));
  }
}
