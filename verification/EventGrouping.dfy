/**
 * Turning the vault's event log into settled batches: each BatchFulfilled claims the Released
 * events that follow it.
 */
module EventGrouping {
  import opened ByteWords
  import opened Wrappers
  import opened Rebuild
  import StableSort

  datatype Body =
    | BatchFulfilled(rootOld: Bytes32, rootNew: Bytes32, batchSize: nat) | Released(nullifier: Bytes32) | OtherKind

  datatype Event = Event(blockNumber: nat, eventIndex: nat, txId: Option<string>, body: Body)

  datatype GroupError = ForeignRelease(nullifier: Bytes32) | TooFew(expected: nat, found: nat)

  function Place(e: Event): StableSort.Key {
    (e.blockNumber, e.eventIndex)
  }

  function Sorted(events: seq<Event>): seq<Event> {
    StableSort.Sort(Place, events)
  }

  /** Sorting keeps the events and puts them in the order of blocks, and of indices within a block. */
  lemma SortedInOrder(events: seq<Event>)
    ensures multiset(Sorted(events)) == multiset(events)
    ensures var sorted := Sorted(events);
            forall i, j | 0 <= i < j < |sorted| ::
              || sorted[i].blockNumber < sorted[j].blockNumber
              || (sorted[i].blockNumber == sorted[j].blockNumber && sorted[i].eventIndex <= sorted[j].eventIndex)
  {
    StableSort.SortSorts(Place, events);
  }

  /** Both events name a transaction, and not the same one. */
  predicate Foreign(a: Option<string>, b: Option<string>) {
    a.Some? && b.Some? && a != b
  }

  // ----- what grouping means

  /** The first `size` releases before the next batch. */
  function Claim(events: seq<Event>, size: nat, txId: Option<string>): Result<seq<Bytes32>, GroupError> {
    if events == [] || size == 0 then Ok([])
    else
      match events[0].body
      case BatchFulfilled(_, _, _) => Ok([])
      case OtherKind => Claim(events[1..], size, txId)
      case Released(nullifier) =>
        if Foreign(txId, events[0].txId) then Err(ForeignRelease(nullifier))
        else
          var rest :- Claim(events[1..], size - 1, txId);
          Ok([nullifier] + rest)
  }

  /** The batch one BatchFulfilled opens. */
  function BatchAt(events: seq<Event>): Result<SettledBatch, GroupError>
    requires events != [] && events[0].body.BatchFulfilled?
  {
    var BatchFulfilled(rootOld, rootNew, size) := events[0].body;
    var nullifiers :- Claim(events[1..], size, events[0].txId);
    if |nullifiers| != size then Err(TooFew(size, |nullifiers|))
    else Ok(SettledBatch(nullifiers, rootOld, rootNew, events[0].txId))
  }

  function Group(events: seq<Event>): Result<seq<SettledBatch>, GroupError> {
    if events == [] then Ok([])
    else if !events[0].body.BatchFulfilled? then Group(events[1..])
    else
      var batch :- BatchAt(events);
      var rest :- Group(events[1..]);
      Ok([batch] + rest)
  }

  // ----- the loops

  method ClaimReleases(sorted: seq<Event>, i: nat, size: nat, txId: Option<string>)
    returns (r: Result<seq<Bytes32>, GroupError>)
    requires i < |sorted|
    ensures r == Claim(sorted[i + 1..], size, txId)
  {
    var nullifiers: seq<Bytes32> := [];
    var j := i + 1;
    ResumeEnds(Claim(sorted[j..], size, txId), []);
    while j < |sorted| && |nullifiers| < size
      invariant i < j <= |sorted| && |nullifiers| <= size
      invariant Claim(sorted[i + 1..], size, txId) == Resume(nullifiers, Claim(sorted[j..], size - |nullifiers|, txId))
    {
      assert sorted[j..][1..] == sorted[j + 1..];
      match sorted[j].body {
        case BatchFulfilled(_, _, _) =>
          ResumeEnds<Bytes32, GroupError>(Ok([]), nullifiers);
          return Ok(nullifiers);
        case OtherKind =>
        case Released(nullifier) =>
          if Foreign(txId, sorted[j].txId) {
            return Err(ForeignRelease(nullifier));
          }
          ResumeMore(nullifiers, nullifier, Claim(sorted[j + 1..], size - |nullifiers| - 1, txId));
          nullifiers := nullifiers + [nullifier];
      }
      j := j + 1;
    }
    ResumeEnds<Bytes32, GroupError>(Ok([]), nullifiers);
    r := Ok(nullifiers);
  }

  ghost function Resume<T, E>(done: seq<T>, rest: Result<seq<T>, E>): Result<seq<T>, E> {
    match rest case Ok(more) => Ok(done + more) case Err(e) => Err(e)
  }

  lemma ResumeEnds<T, E>(rest: Result<seq<T>, E>, done: seq<T>)
    ensures Resume([], rest) == rest
    ensures Resume(done, Result<seq<T>, E>.Ok([])) == Ok(done)
  {
    if rest.Ok? {
      assert [] + rest.value == rest.value;
    }
    assert done + [] == done;
  }

  lemma ResumeMore<T, E>(done: seq<T>, x: T, rest: Result<seq<T>, E>)
    ensures Resume(done + [x], rest) == Resume(done, Resume([x], rest))
  {
    if rest.Ok? {
      assert done + [x] + rest.value == done + ([x] + rest.value);
    }
  }

  method GroupBatches(events: seq<Event>) returns (r: Result<seq<SettledBatch>, GroupError>)
    ensures r == Group(Sorted(events))
  {
    hide Claim;
    var sorted := Sorted(events);
    var batches: seq<SettledBatch> := [];
    assert sorted[0..] == sorted;
    ResumeEnds(Group(sorted), []);
    for i := 0 to |sorted|
      invariant Group(sorted) == Resume(batches, Group(sorted[i..]))
    {
      assert sorted[i..][1..] == sorted[i + 1..];
      var e := sorted[i];
      if !e.body.BatchFulfilled? {
        continue;
      }
      var claimed := ClaimReleases(sorted, i, e.body.batchSize, e.txId);
      if claimed.Err? {
        return Err(claimed.error);
      }
      if |claimed.value| != e.body.batchSize {
        return Err(TooFew(e.body.batchSize, |claimed.value|));
      }
      var batch := SettledBatch(claimed.value, e.body.rootOld, e.body.rootNew, e.txId);
      ResumeMore(batches, batch, Group(sorted[i + 1..]));
      batches := batches + [batch];
    }
    ResumeEnds<SettledBatch, GroupError>(Ok([]), batches);
    r := Ok(batches);
  }

  // ----- what is grouped and what is refused, said of the events alone

  /** The releases that follow, up to the next batch. */
  ghost function Window(events: seq<Event>): (window: seq<Event>)
    ensures forall e | e in window :: e.body.Released?
  {
    if events == [] || events[0].body.BatchFulfilled? then []
    else if events[0].body.OtherKind? then Window(events[1..])
    else [events[0]] + Window(events[1..])
  }

  /** The first of these releases that is another transaction's. */
  ghost predicate FirstForeign(window: seq<Event>, n: nat, txId: Option<string>, k: nat)
    requires n <= |window|
  {
    k < n && Foreign(txId, window[k].txId) && forall j | 0 <= j < k :: !Foreign(txId, window[j].txId)
  }

  ghost function Smaller(a: nat, b: nat): nat {
    if a < b then a else b
  }

  /** A claim takes the first `size` releases before the next batch, or as many as there are, and is
      refused at the first of them that names another transaction. */
  lemma {:induction false} ClaimIff(events: seq<Event>, size: nat, txId: Option<string>)
    ensures var window, claim := Window(events), Claim(events, size, txId);
            var n := Smaller(size, |window|);
            && (claim.Ok? ==>
                  && |claim.value| == n
                  && forall k | 0 <= k < n ::
                       window[k].body == Released(claim.value[k]) && !Foreign(txId, window[k].txId))
            && (claim.Err? ==>
                  exists k: nat :: FirstForeign(window, n, txId, k)
                    && claim.error == ForeignRelease(window[k].body.nullifier))
  {
    hide Foreign;
    if events != [] && size > 0 && !events[0].body.BatchFulfilled? {
      var rest := events[1..];
      if events[0].body.OtherKind? {
        ClaimIff(rest, size, txId);
      } else if Foreign(txId, events[0].txId) {
        assert FirstForeign(Window(events), Smaller(size, |Window(events)|), txId, 0);
      } else {
        ClaimIff(rest, size - 1, txId);
        var claim := Claim(rest, size - 1, txId);
        if claim.Err? {
          var k: nat :| FirstForeign(Window(rest), Smaller(size - 1, |Window(rest)|), txId, k)
            && claim.error == ForeignRelease(Window(rest)[k].body.nullifier);
          assert FirstForeign(Window(events), Smaller(size, |Window(events)|), txId, k + 1);
        }
      }
    }
  }

  /** A batch is complete: as many releases as it states follow it before the next batch, and none of
      them names another transaction. */
  ghost predicate Complete(events: seq<Event>)
    requires events != [] && events[0].body.BatchFulfilled?
  {
    && events[0].body.batchSize <= |Window(events[1..])|
    && forall k | 0 <= k < events[0].body.batchSize :: !Foreign(events[0].txId, Window(events[1..])[k].txId)
  }

  /** A batch is grouped if and only if it is complete, with the releases that follow it; a truncated one
      is refused with the number found. */
  lemma BatchAtIff(events: seq<Event>)
    requires events != [] && events[0].body.BatchFulfilled?
    ensures var batch, window, e := BatchAt(events), Window(events[1..]), events[0];
            && (batch.Ok? <==> Complete(events))
            && (batch.Ok? ==>
                  && |batch.value.nullifiers| == e.body.batchSize && batch.value.txid == e.txId
                  && batch.value.spentRootOld == e.body.rootOld && batch.value.spentRootNew == e.body.rootNew
                  && forall k | 0 <= k < e.body.batchSize :: window[k].body == Released(batch.value.nullifiers[k]))
            && (|window| < e.body.batchSize && (forall k | 0 <= k < |window| :: !Foreign(e.txId, window[k].txId)) ==>
                  batch == Err(TooFew(e.body.batchSize, |window|)))
  {
    hide Claim, Window, Foreign;
    var e := events[0];
    ClaimIff(events[1..], e.body.batchSize, e.txId);
  }

  /** A log is grouped if and only if every batch in it is complete. */
  lemma {:induction false} GroupIff(events: seq<Event>)
    ensures Group(events).Ok? <==>
            forall i | 0 <= i < |events| && events[i].body.BatchFulfilled? :: Complete(events[i..])
  {
    hide Complete, BatchAt;
    if events != [] {
      var rest := events[1..];
      GroupIff(rest);
      assert forall i | 0 <= i < |rest| :: rest[i] == events[i + 1] && rest[i..] == events[i + 1..];
      assert forall i | 0 < i < |events| :: events[i..] == rest[i - 1..];
      if events[0].body.BatchFulfilled? {
        BatchAtIff(events);
        assert events[0..] == events;
      }
    }
  }

  // ----- grouping inverts emission

  /** The bridge events of a trace: what is left without the other kinds. */
  function Relevant(events: seq<Event>): seq<Event> {
    if events == [] then []
    else if events[0].body.OtherKind? then Relevant(events[1..])
    else [events[0]] + Relevant(events[1..])
  }

  ghost predicate Releases(e: Event, batch: SettledBatch, k: nat)
    requires k < |batch.nullifiers|
  {
    e.body == Released(batch.nullifiers[k]) && !Foreign(batch.txid, e.txId)
  }

  /** `events` are the releases of `batch` from its k-th on, then the emissions of `batches`: per
      batch one BatchFulfilled of the batch's size and transaction, then its releases in order. */
  ghost predicate Emits(events: seq<Event>, batch: SettledBatch, k: nat, batches: seq<SettledBatch>)
    requires k <= |batch.nullifiers|
    decreases |batches|, |batch.nullifiers| - k
  {
    if k < |batch.nullifiers| then
      events != [] && Releases(events[0], batch, k) && Emits(events[1..], batch, k + 1, batches)
    else if batches == [] then events == []
    else
      var next := batches[0];
      && events != []
      && events[0].body == BatchFulfilled(next.spentRootOld, next.spentRootNew, |next.nullifiers|)
      && events[0].txId == next.txid
      && Emits(events[1..], next, 0, batches[1..])
  }

  const NO_BATCH: SettledBatch := SettledBatch([], ZERO32, ZERO32, None)

  /** The claim of a batch finds exactly its remaining releases. */
  lemma {:induction false} ClaimsAll(events: seq<Event>, batch: SettledBatch, k: nat, batches: seq<SettledBatch>)
    requires k <= |batch.nullifiers| && Emits(Relevant(events), batch, k, batches)
    ensures Claim(events, |batch.nullifiers| - k, batch.txid) == Ok(batch.nullifiers[k..])
    decreases |events|
  {
    if k == |batch.nullifiers| {
      assert batch.nullifiers[k..] == [];
    } else {
      if events[0].body.OtherKind? {
        ClaimsAll(events[1..], batch, k, batches);
      } else {
        assert Relevant(events)[1..] == Relevant(events[1..]);
        ClaimsAll(events[1..], batch, k + 1, batches);
        assert batch.nullifiers[k..] == [batch.nullifiers[k]] + batch.nullifiers[k + 1..];
      }
    }
  }

  lemma {:induction false} GroupInverts(events: seq<Event>, batch: SettledBatch, k: nat, batches: seq<SettledBatch>)
    requires k <= |batch.nullifiers| && Emits(Relevant(events), batch, k, batches)
    ensures Group(events) == Ok(batches)
    decreases |events|
  {
    hide Claim, Foreign;
    if events != [] {
      if events[0].body.OtherKind? {
        GroupInverts(events[1..], batch, k, batches);
      } else {
        assert Relevant(events)[1..] == Relevant(events[1..]);
        if k < |batch.nullifiers| {
          GroupInverts(events[1..], batch, k + 1, batches);
        } else {
          GroupInverts(events[1..], batches[0], 0, batches[1..]);
          ClaimsAll(events[1..], batches[0], 0, batches[1..]);
          assert batches[0].nullifiers[0..] == batches[0].nullifiers;
          assert batches == [batches[0]] + batches[1..];
        }
      }
    }
  }

  /** `trace` holds the emissions of `batches` in chain order, among any other events. */
  ghost predicate EmittedBy(trace: seq<Event>, batches: seq<SettledBatch>) {
    StableSort.Increasing(Place, trace) && Emits(Relevant(trace), NO_BATCH, 0, batches)
  }

  /** Grouping inverts emission: whatever else the vault logged in between and whatever order the
      events arrive in, the batches come out as they were settled. */
  lemma GroupingInvertsEmission(trace: seq<Event>, batches: seq<SettledBatch>, shuffled: seq<Event>)
    requires EmittedBy(trace, batches) && multiset(trace) == multiset(shuffled)
    ensures Group(Sorted(shuffled)) == Ok(batches)
  {
    StableSort.SortRestores(Place, trace, shuffled);
    GroupInverts(trace, NO_BATCH, 0, batches);
  }
}
