/**
 * The service's ledger of returns and batches, driven by events, and what a second source must
 * say before a return counts as settled.
 */
module Ledger {
  import opened ByteWords
  import opened Wrappers
  import opened Assembler
  import Rebuild

  // ----- confirmations from a second source

  datatype Release = Release(nullifier: string, txid: string)

  datatype Unconfirmed = Unconfirmed(nullifier: string, txid: string, reason: string)

  datatype Confirmations = Confirmations(confirmed: seq<Release>, unconfirmed: seq<Unconfirmed>)

  const NO_REASON: string := "the confirmation source did not confirm it"

  predicate Is(r: Release, nullifier: string, txid: string) {
    SameText(r.nullifier, nullifier) && SameText(r.txid, txid)
  }

  predicate Doubts(u: Unconfirmed, r: Release) {
    SameText(u.nullifier, r.nullifier) && SameText(u.txid, r.txid)
  }

  ghost predicate FirstDoubt(us: seq<Unconfirmed>, r: Release, i: nat, u: Unconfirmed) {
    i < |us| && us[i] == u && Doubts(u, r) && forall j | 0 <= j < i :: !Doubts(us[j], r)
  }

  /** The first entry on the release, when there is one. */
  function FindUnconfirmed(us: seq<Unconfirmed>, r: Release): (u: Option<Unconfirmed>)
    ensures u.None? <==> forall x | x in us :: !Doubts(x, r)
    ensures u.Some? ==> exists i: nat :: FirstDoubt(us, r, i, u.value)
  {
    if us == [] then None
    else if Doubts(us[0], r) then
      assert FirstDoubt(us, r, 0, us[0]);
      Some(us[0])
    else
      var found := FindUnconfirmed(us[1..], r);
      LaterDoubt(us, r, found);
      found
  }

  lemma LaterDoubt(us: seq<Unconfirmed>, r: Release, found: Option<Unconfirmed>)
    requires us != [] && !Doubts(us[0], r)
    requires found.Some? ==> exists i: nat :: FirstDoubt(us[1..], r, i, found.value)
    ensures found.Some? ==> exists i: nat :: FirstDoubt(us, r, i, found.value)
  {
    hide Doubts;
    if found.Some? {
      var i: nat :| FirstDoubt(us[1..], r, i, found.value);
      forall j | 0 <= j < i + 1
        ensures !Doubts(us[j], r)
      {
        if j > 0 {
          assert us[1..][j - 1] == us[j];
        }
      }
      assert FirstDoubt(us, r, i + 1, found.value);
    }
  }

  /** Nothing when the release is confirmed exactly as asked, else why not. */
  function Verdict(answer: Confirmations, r: Release): Option<string> {
    if exists c | c in answer.confirmed :: Is(c, r.nullifier, r.txid) then None
    else
      match FindUnconfirmed(answer.unconfirmed, r)
      case Some(u) => if u.reason != "" then Some(u.reason) else Some(NO_REASON)
      case None => Some(NO_REASON)
  }

  predicate Confirms(answer: Confirmations, nullifier: string, txid: string) {
    exists c | c in answer.confirmed :: Is(c, nullifier, txid)
  }

  /** A release is confirmed exactly when the source lists it, whatever the case of its hex, and
      whatever else the source says. */
  lemma VerdictIff(answer: Confirmations, r: Release, nullifier: string, txid: string)
    requires SameText(r.nullifier, nullifier) && SameText(r.txid, txid)
    ensures Verdict(answer, r).None? <==> Confirms(answer, nullifier, txid)
    ensures Verdict(answer, r).Some? ==> Verdict(answer, r).value != ""
  {
  }

  // ----- returns and batches

  datatype ReturnStatus = Queued | Proving | Proven | Submitted | Settled | Failed

  datatype Return = Return(burn: Burn, batchId: Option<string>, status: ReturnStatus, settleTxid: Option<string>)

  datatype BatchStatus = BatchProving | BatchIsProven | BatchIsSettled | BatchIsFailed

  /** `roots` are the old and the new root that the bundle's public values state, when they decode. */
  datatype Bundle = Bundle(
    batchId: string, proof: string, nullifiers: seq<Bytes32>, roots: Option<(Bytes32, Bytes32)>,
    settleTxid: Option<string>)
  {
    predicate HasProof() {
      proof != "0x"
    }
  }

  datatype Batch = Batch(
    id: string, members: seq<string>, status: BatchStatus, rebases: nat, bundle: Option<Bundle>,
    spentRootOld: Option<Bytes32>, provenAt: Option<nat>)
  {
    predicate CanRebase(max: nat) {
      rebases < max
    }

    predicate ChainsOnto(root: Bytes32) {
      spentRootOld == Some(root)
    }

    function Nullifiers(): seq<Bytes32> {
      if bundle.None? then [] else bundle.value.nullifiers
    }

    /** The batch as the chain's log would name it. */
    function AsSettled(): Option<Rebuild.SettledBatch> {
      if bundle.None? || bundle.value.roots.None? then None
      else
        var roots := bundle.value.roots.value;
        Some(Rebuild.SettledBatch(Nullifiers(), roots.0, roots.1, bundle.value.settleTxid))
    }
  }

  /** `byNullifier` maps a lower-case nullifier to the return that first claimed it. */
  datatype Book = Book(entries: map<string, Return>, byNullifier: map<string, string>, batches: map<string, Batch>)

  datatype Event =
    | BatchProven(id: string, bundle: Bundle, spentRootOld: Bytes32, at: nat)
    | BatchSettled(id: string, txid: string)
    | BatchFailed(id: string, kind: ErrorKind)
    | BatchRebased(id: string)
    | ReturnExcluded(id: string, reason: Exclusion)

  datatype ErrorKind = ChainRejected | ProvingFailed | SubmissionFailed | ServiceUnavailable

  predicate InBatch(r: Return, batchId: string) {
    r.batchId == Some(batchId) && (r.status == Proving || r.status == Proven)
  }

  /** The members still in the batch take a new status; every other return keeps its own. */
  function MembersTake(book: Book, id: string, status: ReturnStatus, txid: Option<string>)
    : (entries: map<string, Return>)
    requires id in book.batches
    ensures entries.Keys == book.entries.Keys
  {
    map r | r in book.entries ::
      if r in book.batches[id].members && InBatch(book.entries[r], id) then
        book.entries[r].(status := status, settleTxid := if txid.Some? then txid else book.entries[r].settleTxid)
      else book.entries[r]
  }

  function Next(book: Book, e: Event): Book {
    match e
    case BatchProven(id, bundle, root, at) =>
      if id !in book.batches then book
      else
        var proven := book.batches[id].(
          status := BatchIsProven, bundle := Some(bundle), spentRootOld := Some(root), provenAt := Some(at));
        book.(batches := book.batches[id := proven], entries := MembersTake(book, id, Proven, None))
    case BatchSettled(id, txid) =>
      if id !in book.batches then book
      else
        var batch := book.batches[id];
        var bundle := match batch.bundle case None => None case Some(b) => Some(b.(settleTxid := Some(txid)));
        book.(batches := book.batches[id := batch.(status := BatchIsSettled, bundle := bundle)],
              entries := MembersTake(book, id, Settled, Some(txid)))
    case BatchFailed(id, kind) =>
      if id !in book.batches then book
      else
        book.(batches := book.batches[id := book.batches[id].(status := BatchIsFailed)],
              entries := MembersTake(book, id, Failed, None))
    case BatchRebased(id) =>
      if id !in book.batches then book
      else
        var batch := book.batches[id];
        var again := batch.(
          status := BatchProving, rebases := batch.rebases + 1, bundle := None, spentRootOld := None, provenAt := None);
        book.(batches := book.batches[id := again], entries := MembersTake(book, id, Proving, None))
    case ReturnExcluded(id, reason) =>
      if id !in book.entries then book
      else
        var entry := book.entries[id];
        var updated := match reason
          case AlreadySettled(txid, None) => entry.(status := Settled, settleTxid := txid)
          case AlreadySettled(_, Some(_)) => entry.(status := Submitted, settleTxid := None)
          case Refused(_) => entry.(status := Failed)
          case Invalid(_) => entry.(status := Failed);
        book.(entries := book.entries[id := updated])
  }

  // ----- what each event does, return by return and batch by batch

  /** Return `r` is still in the batch: a member of it that is being proven or is proven for it. */
  ghost predicate Belongs(book: Book, id: string, r: string) {
    && id in book.batches && r in book.batches[id].members && r in book.entries
    && book.entries[r].batchId == Some(id) && book.entries[r].status in {Proving, Proven}
  }

  /** Exactly the returns still in the batch take the status, and the transaction when one is given. */
  ghost predicate MembersMove(book: Book, book': Book, id: string, status: ReturnStatus, txid: Option<string>) {
    && book'.entries.Keys == book.entries.Keys
    && forall r | r in book.entries ::
         var (was, now) := (book.entries[r], book'.entries[r]);
         if Belongs(book, id, r) then
           && now.burn == was.burn && now.batchId == was.batchId && now.status == status
           && now.settleTxid == if txid.Some? then txid else was.settleTxid
         else now == was
  }

  /** The batch's record changes as given; its id and members, and every other batch, stay. */
  ghost predicate BatchMoves(book: Book, book': Book, id: string, status: BatchStatus, rebases: nat,
      bundle: Option<Bundle>, root: Option<Bytes32>, at: Option<nat>)
    requires id in book.batches
  {
    && book'.byNullifier == book.byNullifier && book'.batches.Keys == book.batches.Keys
    && (forall b | b in book.batches && b != id :: book'.batches[b] == book.batches[b])
    && book'.batches[id]
         == Batch(book.batches[id].id, book.batches[id].members, status, rebases, bundle, root, at)
  }

  /** What becomes of an excluded return: settled with its transaction once a second source confirmed
      the release, submitted while none has, failed when it is refused or invalid. */
  ghost predicate ReturnMoves(was: Return, now: Return, reason: Exclusion) {
    && now.burn == was.burn && now.batchId == was.batchId
    && match reason
       case AlreadySettled(txid, unconfirmed) =>
         if unconfirmed.None? then now.status == Settled && now.settleTxid == txid
         else now.status == Submitted && now.settleTxid == None
       case Refused(_) => now.status == Failed && now.settleTxid == was.settleTxid
       case Invalid(_) => now.status == Failed && now.settleTxid == was.settleTxid
  }

  /** The effect of an event on the ledger; an event on an unknown batch or return has none. */
  ghost predicate Does(book: Book, e: Event, book': Book) {
    match e
    case BatchProven(id, bundle, root, at) =>
      if id !in book.batches then book' == book
      else
        && MembersMove(book, book', id, Proven, None)
        && BatchMoves(book, book', id, BatchIsProven, book.batches[id].rebases, Some(bundle), Some(root), Some(at))
    case BatchSettled(id, txid) =>
      if id !in book.batches then book' == book
      else
        var batch := book.batches[id];
        && MembersMove(book, book', id, Settled, Some(txid))
        && BatchMoves(book, book', id, BatchIsSettled, batch.rebases, WithTxid(batch.bundle, txid), batch.spentRootOld,
             batch.provenAt)
    case BatchFailed(id, _) =>
      if id !in book.batches then book' == book
      else
        var batch := book.batches[id];
        && MembersMove(book, book', id, Failed, None)
        && BatchMoves(book, book', id, BatchIsFailed, batch.rebases, batch.bundle, batch.spentRootOld, batch.provenAt)
    case BatchRebased(id) =>
      if id !in book.batches then book' == book
      else
        && MembersMove(book, book', id, Proving, None)
        && BatchMoves(book, book', id, BatchProving, book.batches[id].rebases + 1, None, None, None)
    case ReturnExcluded(id, reason) =>
      if id !in book.entries then book' == book
      else
        && book'.batches == book.batches && book'.byNullifier == book.byNullifier
        && book'.entries.Keys == book.entries.Keys
        && (forall r | r in book.entries && r != id :: book'.entries[r] == book.entries[r])
        && ReturnMoves(book.entries[id], book'.entries[id], reason)
  }

  ghost function WithTxid(bundle: Option<Bundle>, txid: string): Option<Bundle> {
    match bundle
    case None => None
    case Some(b) => Some(Bundle(b.batchId, b.proof, b.nullifiers, b.roots, Some(txid)))
  }

  /** The ledger after an event is exactly the one that has the event's effect. */
  lemma NextDoes(book: Book, e: Event, book': Book)
    ensures book' == Next(book, e) <==> Does(book, e, book')
  {
    assert Does(book, e, Next(book, e));
    if Does(book, e, book') {
      SameEffect(book, e, book', Next(book, e));
    }
  }

  lemma SameEffect(book: Book, e: Event, a: Book, b: Book)
    requires Does(book, e, a) && Does(book, e, b)
    ensures a == b
  {
    hide MembersMove, BatchMoves;
    match e {
      case BatchProven(id, bundle, root, at) =>
        if id in book.batches {
          SameMembers(book, a, b, id, Proven, None);
          SameBatches(book, a, b, id, BatchIsProven, book.batches[id].rebases, Some(bundle), Some(root), Some(at));
        }
      case BatchSettled(id, txid) =>
        if id in book.batches {
          var batch := book.batches[id];
          SameMembers(book, a, b, id, Settled, Some(txid));
          SameBatches(book, a, b, id, BatchIsSettled, batch.rebases, WithTxid(batch.bundle, txid), batch.spentRootOld,
            batch.provenAt);
        }
      case BatchFailed(id, _) =>
        if id in book.batches {
          var batch := book.batches[id];
          SameMembers(book, a, b, id, Failed, None);
          SameBatches(book, a, b, id, BatchIsFailed, batch.rebases, batch.bundle, batch.spentRootOld, batch.provenAt);
        }
      case BatchRebased(id) =>
        if id in book.batches {
          SameMembers(book, a, b, id, Proving, None);
          SameBatches(book, a, b, id, BatchProving, book.batches[id].rebases + 1, None, None, None);
        }
      case ReturnExcluded(id, reason) =>
        assert id in book.entries ==> a.entries == b.entries;
    }
  }

  lemma SameMembers(book: Book, a: Book, b: Book, id: string, status: ReturnStatus, txid: Option<string>)
    requires MembersMove(book, a, id, status, txid) && MembersMove(book, b, id, status, txid)
    ensures a.entries == b.entries
  {
    assert forall r | r in a.entries :: a.entries[r] == b.entries[r];
  }

  lemma SameBatches(book: Book, a: Book, b: Book, id: string, status: BatchStatus, rebases: nat,
      bundle: Option<Bundle>, root: Option<Bytes32>, at: Option<nat>)
    requires id in book.batches
    requires BatchMoves(book, a, id, status, rebases, bundle, root, at)
    requires BatchMoves(book, b, id, status, rebases, bundle, root, at)
    ensures a.batches == b.batches && a.byNullifier == b.byNullifier
  {
    assert forall k | k in a.batches :: a.batches[k] == b.batches[k];
  }

  /** A batch that settles or fails keeps no return. */
  lemma NoneLeft(book: Book, book': Book, id: string, status: ReturnStatus, txid: Option<string>, r: string)
    requires MembersMove(book, book', id, status, txid) && status in {Settled, Failed}
    requires id in book.batches && id in book'.batches && book'.batches[id].members == book.batches[id].members
    ensures !Belongs(book', id, r)
  {
  }

  // ----- the batches the service knows settled

  predicate IsKnown(book: Book, id: string) {
    id in book.batches && book.batches[id].status == BatchIsSettled && book.batches[id].AsSettled().Some?
  }

  /** The accumulator steps of the settled batches. */
  function KnownSteps(book: Book): set<Rebuild.Transition> {
    set id | id in book.batches && IsKnown(book, id) :: book.batches[id].AsSettled().value.Step()
  }

  /** Exactly the settled batches, in some order. */
  ghost predicate Lists(book: Book, known: seq<Rebuild.SettledBatch>) {
    forall s :: s in known <==> exists id :: IsKnown(book, id) && book.batches[id].AsSettled() == Some(s)
  }

  /** A proven batch that settles is known from then on by its nullifiers, from the old root to the new
      one, in the transaction that settled it. */
  lemma SettledIsKnown(book: Book, id: string, txid: string)
    requires id in book.batches && book.batches[id].bundle.Some? && book.batches[id].bundle.value.roots.Some?
    ensures var bundle, book' := book.batches[id].bundle.value, Next(book, BatchSettled(id, txid));
            var (old_, new_) := bundle.roots.value;
            && IsKnown(book', id)
            && book'.batches[id].AsSettled() == Some(Rebuild.SettledBatch(bundle.nullifiers, old_, new_, Some(txid)))
  {
    hide MembersTake;
  }

  method SettledBatches(book: Book) returns (known: seq<Rebuild.SettledBatch>)
    ensures Lists(book, known) && Rebuild.Steps(known) == KnownSteps(book)
  {
    hide Rebuild.Steps, KnownSteps;
    known := [];
    var left := book.batches.Keys;
    while left != {}
      invariant left <= book.batches.Keys
      invariant forall s :: s in known <==>
                  exists id :: id !in left && IsKnown(book, id) && book.batches[id].AsSettled() == Some(s)
      decreases left
    {
      var id :| id in left;
      left := left - {id};
      if IsKnown(book, id) {
        known := known + [book.batches[id].AsSettled().value];
      }
    }
    ListedSteps(book, known);
  }

  lemma ListedSteps(book: Book, known: seq<Rebuild.SettledBatch>)
    requires Lists(book, known)
    ensures Rebuild.Steps(known) == KnownSteps(book)
  {
  }
}
