/**
 * What the service's read of the chain says of the vault: the batches the ledger knows settled add
 * nothing to a log that names them, and make up for what the log misses.
 */
module Recovery {
  import opened Wrappers
  import opened SparseTree
  import opened Rebuild
  import opened BridgeTokens
  import opened GuestRelation
  import opened Ledger
  import opened Settlement
  import Orchestrator
  import Vault

  /** The steps that are read are those of the log and those the ledger knows. */
  lemma StepsRead(book: Book, log: SettledLog, known: seq<SettledBatch>)
    requires Lists(book, known)
    ensures Steps(log.batches + known) == Steps(log.batches) + KnownSteps(book)
  {
    hide Lists, KnownSteps;
    ListedSteps(book, known);
    StepsJoin(log.batches, known);
  }

  lemma StepsJoin(a: seq<SettledBatch>, b: seq<SettledBatch>)
    ensures Steps(a + b) == Steps(a) + Steps(b)
  {
    forall t | t in Steps(a) + Steps(b)
      ensures t in Steps(a + b)
    {
      if t in Steps(a) {
        var x :| x in a && x.Step() == t;
        assert x in a + b;
      } else {
        var x :| x in b && x.Step() == t;
        assert x in a + b;
      }
    }
  }

  /** When the fetched log names every batch the ledger knows settled, a read is of the history of
      that log alone: it succeeds on exactly the logs that have one, and gives exactly its nullifiers
      and its root. */
  lemma KnownAddsNothing(h: Hash, book: Book, log: SettledLog, known: seq<SettledBatch>, acc: Accum)
    requires Lists(book, known) && KnownSteps(book) <= Steps(log.batches)
    ensures Orchestrator.Readable(h, log, known) <==> Orchestrator.Readable(h, log, [])
    ensures Orchestrator.ReadsFrom(h, log, known, acc) ==>
              var history := History(h, Steps(log.batches));
              && history.Some?
              && acc.spent == SeqSet(Keys(history.value)) && acc.spentRoot == RootOf(h, acc.spent)
  {
    hide History, Keys, RootOf, NamesSpenders, Steps, KnownSteps, Lists;
    ListedSteps(book, known);
    SameStepsSameHistory(h, log.batches, known);
    assert log.batches + [] == log.batches;
  }

  /** When the log and the ledger together name exactly the batches of a run of the vault, a read
      succeeds unless the vault reports another root, and gives the vault's root and the nullifiers it
      released; whatever the log alone misses, and however it repeats or orders the rest. */
  lemma KnownFillsIn(sdk: Sdk, xs: seq<GuestInput>, book: Book, log: SettledLog, known: seq<SettledBatch>, acc: Accum)
    requires Vault.CleanRun(sdk, xs) && Lists(book, known)
    requires Steps(log.batches) + KnownSteps(book) == SeqSet(Vault.StepsOf(xs))
    ensures Orchestrator.Readable(sdk.sha256, log, known) <==>
              (log.onChainSpentRoot.Some? ==> log.onChainSpentRoot.value == RootAfter(Vault.StepsOf(xs)))
    ensures Orchestrator.ReadsFrom(sdk.sha256, log, known, acc) ==>
              acc.spent == SeqSet(Vault.Spent(xs)) && acc.spentRoot == RootAfter(Vault.StepsOf(xs))
  {
    hide History, Keys, RootOf, NamesSpenders, Steps, KnownSteps, Lists, Vault.CleanRun, Vault.StepsOf, RootAfter;
    StepsRead(book, log, known);
    Vault.RunIsItsHistory(sdk, xs);
    Vault.RunSafe(sdk, xs);
  }

  /** So the service reads what the contract stores. */
  lemma ReadsTheVault(vault: Vault.Contract, book: Book, log: SettledLog, known: seq<SettledBatch>, acc: Accum)
    requires vault.Valid() && CollisionFree(vault.sdk.sha256, Vault.RunInputs(vault.sdk, vault.settled))
    requires Lists(book, known)
    requires Steps(log.batches) + KnownSteps(book) == SeqSet(Vault.StepsOf(vault.settled))
    requires log.onChainSpentRoot.Some? ==> log.onChainSpentRoot.value == vault.spentRoot
    ensures Orchestrator.Readable(vault.sdk.sha256, log, known)
    ensures Orchestrator.ReadsFrom(vault.sdk.sha256, log, known, acc) ==>
              acc.spentRoot == vault.spentRoot && acc.spent == SeqSet(Vault.Spent(vault.settled))
  {
    hide Steps, KnownSteps, Lists, CollisionFree, Vault.StepsOf, Vault.RunInputs, Vault.Spent, Vault.Settles,
      Orchestrator.Readable, Orchestrator.ReadsFrom, RootAfter;
    KnownFillsIn(vault.sdk, vault.settled, book, log, known, acc);
  }
}
