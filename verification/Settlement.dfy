/**
 * The settlement protocol as a trace of what the service observes and does, and which steps the
 * protocol permits. The chain, the prover and the settler answer whatever they like.
 */
module Settlement {
  import opened ByteWords
  import opened Wrappers
  import opened Hex
  import opened BridgeTokens
  import opened GuestRelation
  import opened Wire
  import opened Assembler
  import opened Ledger

  datatype Env = Env(sdk: Sdk, wire: SdkCodecs, maxRebases: nat)

  /** What a read of the chain log says of the vault. */
  datatype Accum = Accum(spentRoot: Bytes32, spent: set<Bytes32>, txids: map<Bytes32, string>)

  /** Skipped, settled with a receipt, broadcast without one, refused as stale, or failed. */
  datatype Outcome = Skipped | Landed(txid: string) | Unseen(txid: string) | StaleRoot | Broke

  datatype Obs =
    | Read(acc: Accum)
    | Unread(unavailable: bool)
    | Asked(answer: Option<Confirmations>)
    | ProofAsked(payload: Bytes)
    | Submit(bundle: Bundle, outcome: Outcome)
    | Applied(event: Event)

  function LastRead(trace: seq<Obs>): Option<Accum> {
    if trace == [] then None
    else
      match trace[|trace| - 1]
      case Read(acc) => Some(acc)
      case _ => LastRead(trace[..|trace| - 1])
  }

  function LastAnswer(trace: seq<Obs>): Option<Confirmations> {
    if trace == [] then None
    else
      match trace[|trace| - 1]
      case Asked(answer) => answer
      case _ => LastAnswer(trace[..|trace| - 1])
  }

  predicate AllReleased(batch: Batch, acc: Accum) {
    batch.Nullifiers() != [] && forall n | n in batch.Nullifiers() :: n in acc.spent
  }

  // ----- members of a batch by nullifier

  function Hex32(b: Bytes32): string {
    "0x" + HexText(b)
  }

  function LowerText(s: string): (t: string)
    ensures |t| == |s| && forall i | 0 <= i < |s| :: t[i] == LowerCase(s[i])
  {
    if s == "" then "" else [LowerCase(s[0])] + LowerText(s[1..])
  }

  lemma LowerIsSame(a: string, b: string)
    ensures LowerText(a) == LowerText(b) <==> SameText(a, b)
  {
  }

  function ByNullifier(book: Book, nullifier: string): (id: Option<string>)
    ensures id.Some? ==> id.value in book.entries
  {
    var key := LowerText(nullifier);
    if key in book.byNullifier && book.byNullifier[key] in book.entries then Some(book.byNullifier[key]) else None
  }

  /** The return of nullifier `n` is still one of the batch's. */
  predicate StillIn(book: Book, batchId: string, n: Bytes32) {
    var id := ByNullifier(book, Hex32(n));
    id.Some? && InBatch(book.entries[id.value], batchId)
  }

  /** A return is the one its nullifier leads to. */
  predicate Indexed(book: Book, id: string)
    requires id in book.entries
  {
    var key := LowerText(book.entries[id].burn.nullifier);
    key in book.byNullifier && book.byNullifier[key] == id
  }

  /** A stored burn's nullifier is that of its input's first leaf. */
  ghost predicate OwnLeaves(wire: SdkCodecs, book: Book) {
    forall id | id in book.entries && Decoded(wire, book.entries[id].burn.wireInput).Ok? ::
      var leaves := Decoded(wire, book.entries[id].burn.wireInput).value.leaves;
      leaves != [] && SameText(book.entries[id].burn.nullifier, Hex32(leaves[0].nullifier))
  }

  predicate NullifierIn(nullifier: string, ns: seq<Bytes32>) {
    exists n | n in ns :: SameText(nullifier, Hex32(n))
  }

  /** Every return still in the batch has its nullifier among these. */
  predicate MembersCovered(book: Book, id: string, ns: seq<Bytes32>) {
    id in book.batches ==>
      forall m | m in book.batches[id].members && m in book.entries && InBatch(book.entries[m], id) ::
        NullifierIn(book.entries[m].burn.nullifier, ns)
  }

  /** Every proven batch spends the nullifiers of the returns still in it. */
  ghost predicate Covered(book: Book) {
    forall id | id in book.batches && book.batches[id].bundle.Some? ::
      MembersCovered(book, id, book.batches[id].Nullifiers())
  }

  ghost predicate WellFormed(book: Book) {
    && (forall k | k in book.byNullifier && book.byNullifier[k] in book.entries ::
          LowerText(book.entries[book.byNullifier[k]].burn.nullifier) == k)
    && (forall id | id in book.entries :: book.entries[id].burn.id == id && Indexed(book, id))
    && (forall id | id in book.batches :: book.batches[id].id == id)
  }

  // ----- what the protocol permits

  /** The payload the prover is asked for is accepted by the relation and starts from `root`. */
  ghost predicate PayloadOn(env: Env, payload: Bytes, root: Bytes32) {
    var r := ExecuteWire(env.sdk, env.wire, payload);
    r.Ok? && r.value.spentRootOld == root
  }

  /** The proof of `batch` can be taken again for the same nullifiers on the same root. */
  predicate Reusable(batch: Batch, nullifiers: seq<Bytes32>, root: Bytes32) {
    && batch.status != BatchIsSettled && batch.ChainsOnto(root)
    && batch.bundle.Some? && batch.bundle.value.HasProof() && batch.bundle.value.nullifiers == nullifiers
  }

  /** A bundle is the proof just asked for, of an accepted payload with these nullifiers on this
      root, or the proof of an earlier batch of the same nullifiers on the same root. */
  ghost predicate Provenance(env: Env, book: Book, before: seq<Obs>, bundle: Bundle, root: Bytes32) {
    || (before != [] && before[|before| - 1].ProofAsked?
        && PayloadOn(env, before[|before| - 1].payload, root)
        && PayloadSpends(env, before[|before| - 1].payload, bundle.nullifiers))
    || exists b | b in book.batches ::
         Reusable(book.batches[b], bundle.nullifiers, root) && book.batches[b].bundle.value.proof == bundle.proof
  }

  ghost predicate PayloadSpends(env: Env, payload: Bytes, nullifiers: seq<Bytes32>) {
    Decoded(env.wire, payload).Ok? && Nullifiers(Decoded(env.wire, payload).value.leaves) == nullifiers
  }

  /** A second source confirmed, in the one transaction, every release of the batch's members. */
  ghost predicate MembersConfirmed(book: Book, batch: Batch, answer: Confirmations, txid: string) {
    && (exists n | n in batch.Nullifiers() :: StillIn(book, batch.id, n))
    && forall n | n in batch.Nullifiers() && StillIn(book, batch.id, n) :: Confirms(answer, Hex32(n), txid)
  }

  /** A batch settles right after its own submission came back with a receipt, or right after a
      second source confirmed the releases that the log just read shows. */
  ghost predicate BatchEvidence(book: Book, before: seq<Obs>, id: string, txid: string) {
    && before != []
    && match before[|before| - 1]
       case Submit(bundle, Landed(t)) => bundle.batchId == id && t == txid
       case Asked(Some(answer)) =>
         && id in book.batches && LastRead(before).Some?
         && AllReleased(book.batches[id], LastRead(before).value)
         && MembersConfirmed(book, book.batches[id], answer, txid)
       case _ => false
  }

  ghost predicate ReleaseEvidence(book: Book, before: seq<Obs>, id: string, txid: Option<string>) {
    && txid.Some? && LastAnswer(before).Some?
    && (id in book.entries ==> Confirms(LastAnswer(before).value, book.entries[id].burn.nullifier, txid.value))
  }

  /** The vault has moved away from the root the batch was proven on. */
  ghost predicate RootMoved(book: Book, before: seq<Obs>, id: string)
    requires id in book.batches
  {
    && before != []
    && match before[|before| - 1]
       case Read(acc) => !book.batches[id].ChainsOnto(acc.spentRoot) && !AllReleased(book.batches[id], acc)
       case Submit(bundle, StaleRoot) => bundle.batchId == id
       case _ => false
  }

  ghost predicate Permitted(env: Env, book: Book, before: seq<Obs>, o: Obs) {
    match o
    case Read(_) => true
    case Unread(_) => true
    case Asked(_) => true
    case ProofAsked(payload) => LastRead(before).Some? && PayloadOn(env, payload, LastRead(before).value.spentRoot)
    case Submit(bundle, _) =>
      && bundle.batchId in book.batches
      && var batch := book.batches[bundle.batchId];
         && before != [] && before[|before| - 1].Read?
         && batch.bundle == Some(bundle)
         && batch.ChainsOnto(before[|before| - 1].acc.spentRoot)
         && !AllReleased(batch, before[|before| - 1].acc)
    case Applied(BatchProven(id, bundle, root, _)) =>
      && bundle.batchId == id && bundle.settleTxid.None?
      && LastRead(before).Some? && LastRead(before).value.spentRoot == root
      && Provenance(env, book, before, bundle, root)
      && MembersCovered(book, id, bundle.nullifiers)
    case Applied(BatchSettled(id, txid)) => BatchEvidence(book, before, id, txid)
    case Applied(BatchFailed(_, _)) => true
    case Applied(BatchRebased(id)) => id in book.batches && book.batches[id].CanRebase(env.maxRebases)
      && RootMoved(book, before, id)
    case Applied(ReturnExcluded(id, AlreadySettled(txid, None))) => ReleaseEvidence(book, before, id, txid)
    case Applied(ReturnExcluded(_, _)) => true
  }

  /** The ledger after the events of a trace. */
  function Replay(start: Book, trace: seq<Obs>): Book {
    if trace == [] then start
    else
      var book := Replay(start, trace[..|trace| - 1]);
      match trace[|trace| - 1]
      case Applied(e) => Next(book, e)
      case _ => book
  }

  ghost predicate Lawful(env: Env, start: Book, trace: seq<Obs>) {
    trace == [] || (Lawful(env, start, trace[..|trace| - 1])
                    && Permitted(env, Replay(start, trace[..|trace| - 1]), trace[..|trace| - 1], trace[|trace| - 1]))
  }

  predicate IsEnd(o: Obs, id: string) {
    match o
    case Applied(BatchSettled(b, _)) => b == id
    case Applied(BatchFailed(b, _)) => b == id
    case _ => false
  }

  /** How often the batch was settled or failed. */
  function Ends(trace: seq<Obs>, id: string): nat {
    if trace == [] then 0 else Ends(trace[..|trace| - 1], id) + if IsEnd(trace[|trace| - 1], id) then 1 else 0
  }

  lemma TracePush(env: Env, start: Book, trace: seq<Obs>, o: Obs, id: string)
    ensures Lawful(env, start, trace + [o]) <==>
            Lawful(env, start, trace) && Permitted(env, Replay(start, trace), trace, o)
    ensures Replay(start, trace + [o])
              == match o case Applied(e) => Next(Replay(start, trace), e) case _ => Replay(start, trace)
    ensures LastRead(trace + [o]) == match o case Read(acc) => Some(acc) case _ => LastRead(trace)
    ensures LastAnswer(trace + [o]) == match o case Asked(answer) => answer case _ => LastAnswer(trace)
    ensures Ends(trace + [o], id) == Ends(trace, id) + if IsEnd(o, id) then 1 else 0
  {
    hide Permitted, Next;
    assert (trace + [o])[..|trace|] == trace;
  }

  lemma {:induction false} LawfulAt(env: Env, start: Book, trace: seq<Obs>, i: nat)
    requires Lawful(env, start, trace) && i < |trace|
    ensures Lawful(env, start, trace[..i]) && Permitted(env, Replay(start, trace[..i]), trace[..i], trace[i])
    decreases |trace|
  {
    hide Permitted, Replay;
    var last := |trace| - 1;
    if i < last {
      LawfulAt(env, start, trace[..last], i);
      assert trace[..last][..i] == trace[..i];
    }
  }

  /** What the end of a batch did to its returns: each that was still in it is settled with the batch's
      transaction, or failed with it; none is left in it, and no other return changed. */
  ghost predicate EndsMembers(start: Book, trace: seq<Obs>, id: string) {
    && trace != []
    && var (was, now) := (Replay(start, trace[..|trace| - 1]), Replay(start, trace));
       && (forall r :: !Belongs(now, id, r))
       && match trace[|trace| - 1]
          case Applied(BatchSettled(b, txid)) => b == id && MembersMove(was, now, id, Settled, Some(txid))
          case Applied(BatchFailed(b, _)) => b == id && MembersMove(was, now, id, Failed, None)
          case _ => false
  }

  lemma EndEndsMembers(start: Book, trace: seq<Obs>, id: string)
    requires trace != [] && IsEnd(trace[|trace| - 1], id) && id in start.batches
    ensures EndsMembers(start, trace, id)
  {
    hide Next, Belongs, MembersMove;
    var (was, now) := (Replay(start, trace[..|trace| - 1]), Replay(start, trace));
    var e := trace[|trace| - 1].event;
    ReplayAlike(start, trace[..|trace| - 1]);
    NextDoes(was, e, now);
    forall r
      ensures !Belongs(now, id, r)
    {
      match e {
        case BatchSettled(_, txid) => NoneLeft(was, now, id, Settled, Some(txid), r);
        case BatchFailed(_, _) => NoneLeft(was, now, id, Failed, None, r);
      }
    }
  }

  // ----- what stays the same

  /** Events change statuses, bundles and rebase counts; never burns, members or the index. */
  ghost predicate Alike(a: Book, b: Book) {
    && a.entries.Keys == b.entries.Keys && a.batches.Keys == b.batches.Keys && a.byNullifier == b.byNullifier
    && (forall r | r in a.entries :: a.entries[r].burn == b.entries[r].burn)
    && (forall k | k in a.batches :: a.batches[k].id == b.batches[k].id && a.batches[k].members == b.batches[k].members)
  }

  lemma NextAlike(book: Book, e: Event)
    ensures Alike(book, Next(book, e))
  {
    hide MembersTake;
    match e {
      case BatchProven(id, _, _, _) => TakenAlike(book, id, Proven, None);
      case BatchSettled(id, txid) => TakenAlike(book, id, Settled, Some(txid));
      case BatchFailed(id, _) => TakenAlike(book, id, Failed, None);
      case BatchRebased(id) => TakenAlike(book, id, Proving, None);
      case ReturnExcluded(_, _) =>
    }
  }

  lemma TakenAlike(book: Book, id: string, status: ReturnStatus, txid: Option<string>)
    ensures id in book.batches ==>
              var entries := MembersTake(book, id, status, txid);
              && entries.Keys == book.entries.Keys
              && forall r | r in book.entries :: entries[r].burn == book.entries[r].burn
  {
  }

  lemma {:induction false} ReplayAlike(start: Book, trace: seq<Obs>)
    ensures Alike(start, Replay(start, trace))
  {
    hide Next;
    if trace != [] {
      var init := trace[..|trace| - 1];
      ReplayAlike(start, init);
      if trace[|trace| - 1].Applied? {
        NextAlike(Replay(start, init), trace[|trace| - 1].event);
      }
    }
  }

  lemma AlikeWellFormed(a: Book, b: Book)
    requires Alike(a, b) && WellFormed(a)
    ensures WellFormed(b)
  {
  }

  // ----- safety over every lawful trace

  lemma StepCovers(env: Env, book: Book, before: seq<Obs>, e: Event)
    requires Permitted(env, book, before, Applied(e)) && Covered(book)
    ensures Covered(Next(book, e))
  {
    hide BatchEvidence, ReleaseEvidence, RootMoved, LastRead, Provenance, NullifierIn, MembersCovered;
    forall id | id in Next(book, e).batches && Next(book, e).batches[id].bundle.Some?
      ensures MembersCovered(Next(book, e), id, Next(book, e).batches[id].Nullifiers())
    {
      if e.BatchProven? && e.id == id {
        CoverageKept(book, e, id, e.bundle.nullifiers);
      } else {
        BundleKept(book, e, id);
        CoverageKept(book, e, id, book.batches[id].Nullifiers());
      }
    }
  }

  /** No event puts a return back into its batch. */
  lemma CoverageKept(book: Book, e: Event, id: string, ns: seq<Bytes32>)
    requires MembersCovered(book, id, ns)
    ensures MembersCovered(Next(book, e), id, ns)
  {
    hide NullifierIn;
  }

  /** Only a proof gives a batch other nullifiers. */
  lemma BundleKept(book: Book, e: Event, id: string)
    requires id in Next(book, e).batches && Next(book, e).batches[id].bundle.Some? && !(e.BatchProven? && e.id == id)
    ensures id in book.batches && book.batches[id].bundle.Some?
    ensures Next(book, e).batches[id].Nullifiers() == book.batches[id].Nullifiers()
  {
    hide MembersTake;
  }

  /** Over every lawful trace a proven batch spends the nullifiers of the returns still in it. */
  lemma {:induction false} CoveredKept(env: Env, start: Book, trace: seq<Obs>)
    requires Lawful(env, start, trace) && Covered(start)
    ensures Covered(Replay(start, trace))
  {
    hide Permitted, Next, Covered;
    if trace != [] {
      var init := trace[..|trace| - 1];
      CoveredKept(env, start, init);
      if trace[|trace| - 1].Applied? {
        StepCovers(env, Replay(start, init), init, trace[|trace| - 1].event);
      }
    }
  }

  /** How a step settles the return `id`, with its evidence: its own nullifier was in the bundle that
      landed, or its own release was confirmed by a second source. */
  ghost predicate ReturnEvidence(book: Book, before: seq<Obs>, o: Obs, id: string)
    requires id in book.entries
  {
    match o
    case Applied(BatchSettled(b, txid)) =>
      && b in book.batches && id in book.batches[b].members && InBatch(book.entries[id], b)
      && OwnEvidence(book, before, b, txid, book.entries[id].burn.nullifier)
    case Applied(ReturnExcluded(r, AlreadySettled(txid, None))) => r == id && ReleaseEvidence(book, before, id, txid)
    case _ => false
  }

  ghost predicate OwnEvidence(book: Book, before: seq<Obs>, b: string, txid: string, nullifier: string)
    requires b in book.batches
  {
    && before != []
    && match before[|before| - 1]
       case Submit(bundle, Landed(t)) => bundle.batchId == b && t == txid && NullifierIn(nullifier, bundle.nullifiers)
       case Asked(Some(answer)) =>
         && LastRead(before).Some? && AllReleased(book.batches[b], LastRead(before).value)
         && NullifierIn(nullifier, book.batches[b].Nullifiers()) && Confirms(answer, nullifier, txid)
       case _ => false
  }

  /** A submission is of the bundle its batch has, also right after it. */
  lemma SubmittedBundle(env: Env, start: Book, before: seq<Obs>)
    requires Lawful(env, start, before) && before != [] && before[|before| - 1].Submit?
    ensures var book, bundle := Replay(start, before), before[|before| - 1].bundle;
            bundle.batchId in book.batches && book.batches[bundle.batchId].bundle == Some(bundle)
  {
    hide Replay, Lawful;
    LawfulAt(env, start, before, |before| - 1);
    SubmitKeeps(start, before);
  }

  lemma SubmitKeeps(start: Book, trace: seq<Obs>)
    requires trace != [] && trace[|trace| - 1].Submit?
    ensures Replay(start, trace) == Replay(start, trace[..|trace| - 1])
  {
  }

  lemma OwnConfirmed(book: Book, b: string, id: string, answer: Confirmations, txid: string)
    requires WellFormed(book) && b in book.batches && id in book.entries && InBatch(book.entries[id], b)
    requires MembersConfirmed(book, book.batches[b], answer, txid)
    requires NullifierIn(book.entries[id].burn.nullifier, book.batches[b].Nullifiers())
    ensures Confirms(answer, book.entries[id].burn.nullifier, txid)
  {
    hide Hex32, SameText, LowerText;
    var own := book.entries[id].burn.nullifier;
    var n :| n in book.batches[b].Nullifiers() && SameText(own, Hex32(n));
    LowerIsSame(own, Hex32(n));
    assert Indexed(book, id);
    assert StillIn(book, b, n);
    OtherCase(answer, own, Hex32(n), txid);
  }

  lemma OtherCase(answer: Confirmations, a: string, b: string, txid: string)
    requires SameText(a, b) && Confirms(answer, b, txid)
    ensures Confirms(answer, a, txid)
  {
    hide SameText;
    var c :| c in answer.confirmed && Is(c, b, txid);
    SameTextBack(c.nullifier, b, a);
  }

  lemma SameTextBack(a: string, b: string, c: string)
    requires SameText(a, b) && SameText(c, b)
    ensures SameText(a, c)
  {
  }

  /** The event settles the return with its batch's evidence or with its own. */
  ghost predicate StepEvidence(book: Book, before: seq<Obs>, e: Event, id: string)
    requires id in book.entries
  {
    match e
    case BatchSettled(b, txid) =>
      && b in book.batches && id in book.batches[b].members && InBatch(book.entries[id], b)
      && BatchEvidence(book, before, b, txid)
    case ReturnExcluded(r, AlreadySettled(txid, None)) => r == id && ReleaseEvidence(book, before, id, txid)
    case _ => false
  }

  ghost predicate BecomesSettled(book: Book, book': Book, id: string) {
    && id in book.entries && book.entries[id].status != Settled
    && id in book'.entries && book'.entries[id].status == Settled
  }

  lemma StepSettles(env: Env, book: Book, before: seq<Obs>, e: Event, id: string)
    requires BecomesSettled(book, Next(book, e), id) && Permitted(env, book, before, Applied(e))
    ensures StepEvidence(book, before, e, id)
  {
    hide BatchEvidence, ReleaseEvidence, RootMoved, LastRead, Provenance, PayloadOn, MembersCovered;
  }

  /** The evidence for a batch is evidence for each return still in it. */
  lemma OwnShare(env: Env, start: Book, before: seq<Obs>, b: string, txid: string, id: string)
    requires Lawful(env, start, before)
    requires WellFormed(Replay(start, before)) && Covered(Replay(start, before))
    requires var book := Replay(start, before);
             && b in book.batches && id in book.entries && id in book.batches[b].members && InBatch(book.entries[id], b)
             && BatchEvidence(book, before, b, txid)
    ensures OwnEvidence(Replay(start, before), before, b, txid, Replay(start, before).entries[id].burn.nullifier)
  {
    hide Replay, Lawful, WellFormed, LastRead, AllReleased, MembersConfirmed, NullifierIn, Confirms;
    var book := Replay(start, before);
    if before[|before| - 1].Submit? {
      SubmittedBundle(env, start, before);
    } else {
      SomeReleased(book.batches[b], LastRead(before).value);
      OwnConfirmed(book, b, id, before[|before| - 1].answer.value, txid);
    }
  }

  lemma SomeReleased(batch: Batch, acc: Accum)
    requires AllReleased(batch, acc)
    ensures batch.bundle.Some?
  {
  }

  /** No return is settled without evidence of its own: its nullifier was in the bundle that landed
      with a receipt, or a second source confirmed its release. */
  lemma {:induction false} SettledHasEvidence(env: Env, start: Book, trace: seq<Obs>, id: string) returns (i: nat)
    requires Lawful(env, start, trace) && WellFormed(start) && Covered(start)
    requires id in start.entries && start.entries[id].status != Settled
    requires id in Replay(start, trace).entries && Replay(start, trace).entries[id].status == Settled
    ensures i < |trace| && id in Replay(start, trace[..i]).entries
    ensures ReturnEvidence(Replay(start, trace[..i]), trace[..i], trace[i], id)
  {
    hide Permitted, Next, ReturnEvidence, WellFormed, Covered;
    var last := |trace| - 1;
    ReplayAlike(start, trace[..last]);
    if Replay(start, trace[..last]).entries[id].status == Settled {
      i := SettledHasEvidence(env, start, trace[..last], id);
      assert trace[..last][..i] == trace[..i];
    } else {
      i := last;
      LastSettles(env, start, trace[..last], trace[last].event, id);
    }
  }

  lemma LastSettles(env: Env, start: Book, before: seq<Obs>, e: Event, id: string)
    requires Lawful(env, start, before) && WellFormed(start) && Covered(start)
    requires var book := Replay(start, before);
             BecomesSettled(book, Next(book, e), id) && Permitted(env, book, before, Applied(e))
    ensures ReturnEvidence(Replay(start, before), before, Applied(e), id)
  {
    hide Permitted, Next, WellFormed, Covered, Replay, Lawful, OwnEvidence, BatchEvidence, ReleaseEvidence;
    var book := Replay(start, before);
    ReplayAlike(start, before);
    AlikeWellFormed(start, book);
    CoveredKept(env, start, before);
    StepSettles(env, book, before, e, id);
    if e.BatchSettled? {
      OwnShare(env, start, before, e.id, e.txid, id);
    }
  }

  // ----- where the proof of a batch comes from

  /** The i-th step asked for the proof of an accepted payload with these nullifiers on this root, and the
      next recorded what came back. */
  ghost predicate MadeAt(env: Env, trace: seq<Obs>, i: nat, proof: string, ns: seq<Bytes32>, root: Bytes32) {
    && i + 1 < |trace| && trace[i].ProofAsked?
    && PayloadOn(env, trace[i].payload, root) && PayloadSpends(env, trace[i].payload, ns)
    && match trace[i + 1]
       case Applied(BatchProven(_, bundle, r, _)) => bundle.proof == proof && bundle.nullifiers == ns && r == root
       case _ => false
  }

  /** A batch of the starting ledger had this proof, of these nullifiers on this root. */
  ghost predicate Inherited(start: Book, proof: string, ns: seq<Bytes32>, root: Bytes32) {
    exists b | b in start.batches && start.batches[b].bundle.Some? ::
      && start.batches[b].bundle.value.proof == proof && start.batches[b].bundle.value.nullifiers == ns
      && start.batches[b].spentRootOld == Some(root)
  }

  ghost predicate Made(env: Env, start: Book, trace: seq<Obs>, proof: string, ns: seq<Bytes32>, root: Bytes32) {
    Inherited(start, proof, ns, root) || exists i: nat :: MadeAt(env, trace, i, proof, ns, root)
  }

  /** The proof of this batch was made for its own nullifiers on its own root. */
  ghost predicate ProofMade(env: Env, start: Book, trace: seq<Obs>, batch: Batch) {
    batch.bundle.Some? ==>
      && batch.spentRootOld.Some?
      && Made(env, start, trace, batch.bundle.value.proof, batch.bundle.value.nullifiers, batch.spentRootOld.value)
  }

  ghost predicate ProvenHaveRoots(book: Book) {
    forall b | b in book.batches && book.batches[b].bundle.Some? :: book.batches[b].spentRootOld.Some?
  }

  lemma MadeLater(env: Env, start: Book, trace: seq<Obs>, o: Obs, proof: string, ns: seq<Bytes32>, root: Bytes32)
    requires Made(env, start, trace, proof, ns, root)
    ensures Made(env, start, trace + [o], proof, ns, root)
  {
    hide PayloadOn, PayloadSpends, Inherited;
    if i: nat :| MadeAt(env, trace, i, proof, ns, root) {
      assert (trace + [o])[i] == trace[i] && (trace + [o])[i + 1] == trace[i + 1];
      assert MadeAt(env, trace + [o], i, proof, ns, root);
    }
  }

  predicate TakenFrom(batch: Batch, e: Event)
    requires e.BatchProven?
  {
    Reusable(batch, e.bundle.nullifiers, e.spentRootOld) && batch.bundle.value.proof == e.bundle.proof
  }

  /** A proof just recorded was made for this, or is taken over from a batch whose proof was. */
  lemma RecordedMade(env: Env, start: Book, before: seq<Obs>, e: Event)
    requires e.BatchProven? && Provenance(env, Replay(start, before), before, e.bundle, e.spentRootOld)
    requires forall b | b in Replay(start, before).batches ::
               ProofMade(env, start, before, Replay(start, before).batches[b])
    ensures Made(env, start, before + [Applied(e)], e.bundle.proof, e.bundle.nullifiers, e.spentRootOld)
  {
    hide PayloadOn, PayloadSpends, Inherited, Replay, Made;
    var book, trace := Replay(start, before), before + [Applied(e)];
    if b :| b in book.batches && TakenFrom(book.batches[b], e) {
      MadeLater(env, start, before, Applied(e), e.bundle.proof, e.bundle.nullifiers, e.spentRootOld);
    } else {
      var i := |before| - 1;
      assert trace[i] == before[i] && trace[i + 1] == Applied(e);
      AskedMakes(env, start, trace, i, e.bundle.proof, e.bundle.nullifiers, e.spentRootOld);
    }
  }

  lemma AskedMakes(env: Env, start: Book, trace: seq<Obs>, i: nat, proof: string, ns: seq<Bytes32>, root: Bytes32)
    requires MadeAt(env, trace, i, proof, ns, root)
    ensures Made(env, start, trace, proof, ns, root)
  {
    hide MadeAt, Inherited;
  }

  /** What an event leaves of a proof: only a new one changes it, and a rebase drops it. */
  lemma ProofKept(book: Book, e: Event, b: string)
    requires b in Next(book, e).batches && Next(book, e).batches[b].bundle.Some? && !(e.BatchProven? && e.id == b)
    ensures b in book.batches && book.batches[b].bundle.Some?
    ensures var was, now := book.batches[b], Next(book, e).batches[b];
            && now.spentRootOld == was.spentRootOld && now.bundle.value.proof == was.bundle.value.proof
            && now.bundle.value.nullifiers == was.bundle.value.nullifiers
  {
    hide MembersTake;
  }

  lemma StepMakes(env: Env, start: Book, before: seq<Obs>, o: Obs, b: string)
    requires Permitted(env, Replay(start, before), before, o)
    requires forall k | k in Replay(start, before).batches ::
               ProofMade(env, start, before, Replay(start, before).batches[k])
    requires b in Replay(start, before + [o]).batches
    ensures ProofMade(env, start, before + [o], Replay(start, before + [o]).batches[b])
  {
    hide Replay, Next, Made, Provenance, BatchEvidence, ReleaseEvidence, RootMoved, MembersCovered, PayloadOn, Lawful;
    var book := Replay(start, before);
    TracePush(env, start, before, o, b);
    var now := Replay(start, before + [o]).batches[b];
    if now.bundle.Some? {
      if o.Applied? && o.event.BatchProven? && o.event.id == b {
        RecordedMade(env, start, before, o.event);
        ProvenRecords(book, o.event);
      } else {
        if o.Applied? {
          ProofKept(book, o.event, b);
        }
        MadeLater(env, start, before, o, now.bundle.value.proof, now.bundle.value.nullifiers, now.spentRootOld.value);
      }
    }
  }

  lemma ProvenRecords(book: Book, e: Event)
    requires e.BatchProven? && e.id in Next(book, e).batches
    ensures Next(book, e).batches[e.id].bundle == Some(e.bundle)
    ensures Next(book, e).batches[e.id].spentRootOld == Some(e.spentRootOld)
  {
    hide MembersTake;
  }

  /** Over every lawful trace the proof of each batch, fresh or taken over from an earlier batch, was made
      for a payload that the relation accepts, with exactly the batch's nullifiers, on exactly the root
      it was recorded for. */
  lemma {:induction false} ProofsMade(env: Env, start: Book, trace: seq<Obs>, b: string)
    requires Lawful(env, start, trace) && ProvenHaveRoots(start) && b in Replay(start, trace).batches
    ensures ProofMade(env, start, trace, Replay(start, trace).batches[b])
  {
    hide Permitted, Next, Made;
    if trace == [] {
      StartMade(env, start, b);
    } else {
      var init, last := trace[..|trace| - 1], trace[|trace| - 1];
      forall k | k in Replay(start, init).batches
        ensures ProofMade(env, start, init, Replay(start, init).batches[k])
      {
        ProofsMade(env, start, init, k);
      }
      assert trace == init + [last];
      StepMakes(env, start, init, last, b);
    }
  }

  lemma StartMade(env: Env, start: Book, b: string)
    requires ProvenHaveRoots(start) && b in start.batches
    ensures ProofMade(env, start, [], start.batches[b])
  {
  }

  /** Whatever is submitted chains onto the root just read and was proven for that batch. */
  lemma SubmitsOnFreshRoot(env: Env, start: Book, trace: seq<Obs>, i: nat)
    requires Lawful(env, start, trace) && i < |trace| && trace[i].Submit?
    ensures i > 0 && trace[i - 1].Read? && trace[i].bundle.batchId in Replay(start, trace[..i]).batches
    ensures var batch := Replay(start, trace[..i]).batches[trace[i].bundle.batchId];
            batch.bundle == Some(trace[i].bundle) && batch.spentRootOld == Some(trace[i - 1].acc.spentRoot)
  {
    hide Lawful, Replay, Permitted;
    LawfulAt(env, start, trace, i);
    SubmitsBundle(env, Replay(start, trace[..i]), trace[..i], trace[i]);
  }

  lemma SubmitsBundle(env: Env, book: Book, before: seq<Obs>, o: Obs)
    requires Permitted(env, book, before, o) && o.Submit?
    ensures before != [] && before[|before| - 1].Read? && o.bundle.batchId in book.batches
    ensures var batch := book.batches[o.bundle.batchId];
            batch.bundle == Some(o.bundle) && batch.spentRootOld == Some(before[|before| - 1].acc.spentRoot)
  {
    hide MembersCovered, Provenance, BatchEvidence, ReleaseEvidence, AllReleased;
  }

  lemma StepRebases(env: Env, book: Book, before: seq<Obs>, e: Event, id: string)
    requires Permitted(env, book, before, Applied(e)) && id in book.batches
    ensures id in Next(book, e).batches
    ensures var now := Next(book, e).batches[id].rebases;
            now == book.batches[id].rebases || book.batches[id].rebases < now <= env.maxRebases
  {
    hide BatchEvidence, ReleaseEvidence, RootMoved, LastRead, MembersTake, PayloadOn, Provenance, MembersCovered;
  }

  /** A batch never rebases past the limit. */
  lemma {:induction false} RebasesBounded(env: Env, start: Book, trace: seq<Obs>, id: string)
    requires Lawful(env, start, trace) && id in start.batches
    ensures id in Replay(start, trace).batches
    ensures start.batches[id].rebases <= Replay(start, trace).batches[id].rebases
    ensures Replay(start, trace).batches[id].rebases <= start.batches[id].rebases
         || Replay(start, trace).batches[id].rebases <= env.maxRebases
  {
    if trace != [] {
      hide Permitted, Next;
      var init := trace[..|trace| - 1];
      RebasesBounded(env, start, init, id);
      if trace[|trace| - 1].Applied? {
        StepRebases(env, Replay(start, init), init, trace[|trace| - 1].event, id);
      }
    }
  }
}
