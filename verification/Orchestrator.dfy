/**
 * Proving and settling one batch: the stages of the orchestrator against a chain, a settler and a
 * prover that answer arbitrarily.
 */
module Orchestrator {
  import opened ByteWords
  import opened Wrappers
  import opened SparseTree
  import opened Accumulator
  import opened ReturnCore
  import opened BridgeTokens
  import opened GuestRelation
  import opened Wire
  import opened MergedBatch
  import opened Assembler
  import opened Ledger
  import opened Settlement
  import Rebuild

  datatype Stage = Done | Rebase

  const SYNC_RETRIES: nat := 3
  const SETTLEMENT_CHECKS: nat := 5

  // ----- releases and their verdicts

  datatype Released = Released(id: string, nullifier: string, txid: Option<string>)

  const NO_TXID: string := "the vault log names no transaction for it"
  const NO_ANSWER: string := "the confirmation source could not be asked"

  /** What the answer of a second source makes of one release. */
  function Judge(r: Released, answer: Option<Confirmations>): Exclusion {
    match r.txid
    case None => AlreadySettled(None, Some(NO_TXID))
    case Some(txid) =>
      match answer
      case None => AlreadySettled(r.txid, Some(NO_ANSWER))
      case Some(a) => AlreadySettled(r.txid, Verdict(a, Release(r.nullifier, txid)))
  }

  function JudgeAll(released: seq<Released>, answer: Option<Confirmations>): (vs: seq<(string, Exclusion)>)
    ensures |vs| == |released|
    ensures forall i | 0 <= i < |released| :: vs[i] == (released[i].id, Judge(released[i], answer))
  {
    if released == [] then []
    else
      var last := released[|released| - 1];
      JudgeAll(released[..|released| - 1], answer) + [(last.id, Judge(last, answer))]
  }

  function AskedOf(released: seq<Released>): (asked: seq<Release>)
    ensures asked == [] <==> forall i | 0 <= i < |released| :: released[i].txid.None?
    ensures forall a :: a in asked <==>
              exists r | r in released :: r.txid.Some? && a == Release(r.nullifier, r.txid.value)
  {
    if released == [] then []
    else
      var last := released[|released| - 1];
      AskedOf(released[..|released| - 1]) + if last.txid.Some? then [Release(last.nullifier, last.txid.value)] else []
  }

  /** The transactions of the confirmed verdicts, in order. */
  function ConfirmedTxids(vs: seq<(string, Exclusion)>): (txids: seq<string>)
    ensures |txids| <= |vs|
    ensures |txids| == |vs| ==> forall i | 0 <= i < |vs| :: vs[i].1 == AlreadySettled(Some(txids[i]), None)
  {
    if vs == [] then []
    else
      ConfirmedTxids(vs[..|vs| - 1]) +
        match vs[|vs| - 1].1
        case AlreadySettled(Some(txid), None) => [txid]
        case _ => []
  }

  /** The one transaction every verdict confirms, when there is one. */
  function OneTransaction(vs: seq<(string, Exclusion)>): Option<string> {
    var txids := ConfirmedTxids(vs);
    if txids != [] && |txids| == |vs| && forall i | 0 <= i < |txids| :: SameText(txids[i], txids[0]) then
      Some(txids[0]) else None
  }

  function TxidOf(txids: map<Bytes32, string>, n: Bytes32): Option<string> {
    if n in txids then Some(txids[n]) else None
  }

  /** The members of the batch behind its nullifiers, as far as they are still in it. */
  function ReleasedMembers(book: Book, batchId: string, txids: map<Bytes32, string>,
      nullifiers: seq<Bytes32>): seq<Released>
  {
    if nullifiers == [] then []
    else
      var n := nullifiers[|nullifiers| - 1];
      ReleasedMembers(book, batchId, txids, nullifiers[..|nullifiers| - 1])
        + if StillIn(book, batchId, n) then [Released(ByNullifier(book, Hex32(n)).value, Hex32(n), TxidOf(txids, n))]
          else []
  }

  lemma {:induction false} ListsMember(book: Book, batchId: string, txids: map<Bytes32, string>,
      nullifiers: seq<Bytes32>, n: Bytes32) returns (i: nat)
    requires n in nullifiers && StillIn(book, batchId, n)
    ensures i < |ReleasedMembers(book, batchId, txids, nullifiers)|
    ensures ReleasedMembers(book, batchId, txids, nullifiers)[i]
              == Released(ByNullifier(book, Hex32(n)).value, Hex32(n), TxidOf(txids, n))
  {
    hide StillIn, Hex32;
    var last := |nullifiers| - 1;
    if nullifiers[last] == n {
      i := |ReleasedMembers(book, batchId, txids, nullifiers[..last])|;
    } else {
      i := ListsMember(book, batchId, txids, nullifiers[..last], n);
    }
  }

  lemma {:induction false} MemberListed(book: Book, batchId: string, txids: map<Bytes32, string>,
      nullifiers: seq<Bytes32>, i: nat) returns (n: Bytes32)
    requires i < |ReleasedMembers(book, batchId, txids, nullifiers)|
    ensures n in nullifiers && StillIn(book, batchId, n)
    ensures ReleasedMembers(book, batchId, txids, nullifiers)[i]
              == Released(ByNullifier(book, Hex32(n)).value, Hex32(n), TxidOf(txids, n))
  {
    hide StillIn, Hex32;
    var last := |nullifiers| - 1;
    if i < |ReleasedMembers(book, batchId, txids, nullifiers[..last])| {
      n := MemberListed(book, batchId, txids, nullifiers[..last], i);
    } else {
      n := nullifiers[last];
    }
  }

  lemma JudgedConfirmed(r: Released, answer: Option<Confirmations>, txid: string)
    requires Judge(r, answer).unconfirmed.None?
    ensures r.txid.Some? && answer.Some?
    ensures SameText(r.txid.value, txid) ==> Confirms(answer.value, r.nullifier, txid)
  {
  }

  /** One confirmed transaction for every verdict is the evidence a settlement needs. */
  lemma OneTransactionConfirms(book: Book, batch: Batch, txids: map<Bytes32, string>, answer: Option<Confirmations>,
      txid: string)
    requires OneTransaction(JudgeAll(ReleasedMembers(book, batch.id, txids, batch.Nullifiers()), answer)) == Some(txid)
    ensures answer.Some? && MembersConfirmed(book, batch, answer.value, txid)
  {
    hide Judge, SameText, StillIn, Hex32, Confirms, ReleasedMembers;
    var released := ReleasedMembers(book, batch.id, txids, batch.Nullifiers());
    var vs := JudgeAll(released, answer);
    var confirmed := ConfirmedTxids(vs);
    AllJudged(released, answer, txid);
    var some := MemberListed(book, batch.id, txids, batch.Nullifiers(), 0);
    forall n | n in batch.Nullifiers() && StillIn(book, batch.id, n)
      ensures Confirms(answer.value, Hex32(n), txid)
    {
      var i := ListsMember(book, batch.id, txids, batch.Nullifiers(), n);
    }
  }

  lemma AllJudged(released: seq<Released>, answer: Option<Confirmations>, txid: string)
    requires OneTransaction(JudgeAll(released, answer)) == Some(txid)
    ensures released != [] && answer.Some?
    ensures forall i | 0 <= i < |released| :: released[i].txid.Some?
              && Confirms(answer.value, released[i].nullifier, txid)
  {
    hide SameText, Confirms;
    var vs := JudgeAll(released, answer);
    var confirmed := ConfirmedTxids(vs);
    forall i | 0 <= i < |released|
      ensures released[i].txid.Some? && answer.Some? && Confirms(answer.value, released[i].nullifier, txid)
    {
      assert vs[i].1 == AlreadySettled(Some(confirmed[i]), None);
      JudgedIs(released[i], answer);
      JudgedConfirmed(released[i], answer, txid);
    }
    assert released[0].txid.Some?;
  }

  /** A verdict confirms exactly when the log names a transaction and the answer lists that release. */
  predicate ConfirmedIn(e: (string, Exclusion), txid: string) {
    e.1.AlreadySettled? && e.1.unconfirmed.None? && e.1.txid.Some? && SameText(e.1.txid.value, txid)
  }

  lemma JudgeIff(r: Released, answer: Option<Confirmations>, txid: string)
    ensures ConfirmedIn((r.id, Judge(r, answer)), txid) <==>
            && r.txid.Some? && SameText(r.txid.value, txid)
            && answer.Some? && Confirms(answer.value, r.nullifier, r.txid.value)
  {
    hide SameText;
    if r.txid.Some? && answer.Some? {
      SameItself(r.nullifier);
      SameItself(r.txid.value);
      VerdictIff(answer.value, Release(r.nullifier, r.txid.value), r.nullifier, r.txid.value);
    }
  }

  lemma SameItself(s: string)
    ensures SameText(s, s)
  {
  }

  ghost predicate AllConfirmedIn(vs: seq<(string, Exclusion)>, txid: string) {
    vs != [] && forall i | 0 <= i < |vs| :: ConfirmedIn(vs[i], txid)
  }

  lemma {:induction false} AllConfirmed(vs: seq<(string, Exclusion)>)
    ensures |ConfirmedTxids(vs)| == |vs| <==>
            forall i | 0 <= i < |vs| ::
              vs[i].1.AlreadySettled? && vs[i].1.unconfirmed.None? && vs[i].1.txid.Some?
  {
    if vs != [] {
      AllConfirmed(vs[..|vs| - 1]);
    }
  }

  lemma SameThrough(a: string, b: string, c: string)
    requires SameText(a, c) && SameText(b, c)
    ensures SameText(a, b)
  {
  }

  /** There is one transaction exactly when there are verdicts and all of them confirm it, up to letter
      case. */
  lemma OneTransactionIff(vs: seq<(string, Exclusion)>)
    ensures OneTransaction(vs).Some? <==> exists txid :: AllConfirmedIn(vs, txid)
    ensures OneTransaction(vs).Some? ==> AllConfirmedIn(vs, OneTransaction(vs).value)
  {
    hide SameText;
    AllConfirmed(vs);
    var txids := ConfirmedTxids(vs);
    if OneTransaction(vs).Some? {
      assert AllConfirmedIn(vs, txids[0]);
    }
    if txid :| AllConfirmedIn(vs, txid) {
      forall i | 0 <= i < |txids|
        ensures SameText(txids[i], txids[0])
      {
        assert ConfirmedIn(vs[i], txid) && ConfirmedIn(vs[0], txid);
        SameThrough(txids[i], txids[0], txid);
      }
    }
  }

  /** Every member still in the batch was released, and a second source confirmed it, in `txid`. */
  ghost predicate AllReleasedIn(book: Book, batch: Batch, txids: map<Bytes32, string>, answer: Option<Confirmations>,
      txid: string)
  {
    && answer.Some? && (exists n | n in batch.Nullifiers() :: StillIn(book, batch.id, n))
    && forall n | n in batch.Nullifiers() && StillIn(book, batch.id, n) ::
         n in txids && SameText(txids[n], txid) && Confirms(answer.value, Hex32(n), txids[n])
  }

  /** A released batch settles if and only if one transaction released every member still in it and a
      second source confirmed each of these releases. */
  lemma SettlesIff(book: Book, batch: Batch, txids: map<Bytes32, string>, answer: Option<Confirmations>)
    ensures var one := OneTransaction(JudgeAll(ReleasedMembers(book, batch.id, txids, batch.Nullifiers()), answer));
            && (one.Some? <==> exists txid :: AllReleasedIn(book, batch, txids, answer, txid))
            && (one.Some? ==> AllReleasedIn(book, batch, txids, answer, one.value))
  {
    hide SameText, Confirms, StillIn, Hex32, OneTransaction, ReleasedMembers, AllConfirmedIn, Judge;
    var members := ReleasedMembers(book, batch.id, txids, batch.Nullifiers());
    var vs := JudgeAll(members, answer);
    OneTransactionIff(vs);
    if OneTransaction(vs).Some? {
      ConfirmedRelease(book, batch, txids, answer, OneTransaction(vs).value);
    }
    if txid :| AllReleasedIn(book, batch, txids, answer, txid) {
      ReleaseConfirmed(book, batch, txids, answer, txid);
    }
  }

  lemma ConfirmedRelease(book: Book, batch: Batch, txids: map<Bytes32, string>, answer: Option<Confirmations>,
      txid: string)
    requires AllConfirmedIn(JudgeAll(ReleasedMembers(book, batch.id, txids, batch.Nullifiers()), answer), txid)
    ensures AllReleasedIn(book, batch, txids, answer, txid)
  {
    hide SameText, Confirms, StillIn, Hex32, ReleasedMembers, ConfirmedIn, Judge;
    var members := ReleasedMembers(book, batch.id, txids, batch.Nullifiers());
    var vs := JudgeAll(members, answer);
    var some := MemberListed(book, batch.id, txids, batch.Nullifiers(), 0);
    JudgeIff(members[0], answer, txid);
    assert ConfirmedIn(vs[0], txid);
    forall n | n in batch.Nullifiers() && StillIn(book, batch.id, n)
      ensures n in txids && SameText(txids[n], txid) && Confirms(answer.value, Hex32(n), txids[n])
    {
      var i := ListsMember(book, batch.id, txids, batch.Nullifiers(), n);
      assert ConfirmedIn(vs[i], txid);
      JudgeIff(members[i], answer, txid);
    }
  }

  lemma ReleaseConfirmed(book: Book, batch: Batch, txids: map<Bytes32, string>, answer: Option<Confirmations>,
      txid: string)
    requires AllReleasedIn(book, batch, txids, answer, txid)
    ensures AllConfirmedIn(JudgeAll(ReleasedMembers(book, batch.id, txids, batch.Nullifiers()), answer), txid)
  {
    hide SameText, Confirms, StillIn, Hex32, ReleasedMembers, ConfirmedIn, Judge;
    var members := ReleasedMembers(book, batch.id, txids, batch.Nullifiers());
    var vs := JudgeAll(members, answer);
    var some :| some in batch.Nullifiers() && StillIn(book, batch.id, some);
    var at := ListsMember(book, batch.id, txids, batch.Nullifiers(), some);
    forall i | 0 <= i < |vs|
      ensures ConfirmedIn(vs[i], txid)
    {
      var n := MemberListed(book, batch.id, txids, batch.Nullifiers(), i);
      JudgeIff(members[i], answer, txid);
    }
  }

  lemma JudgedIs(r: Released, answer: Option<Confirmations>)
    ensures Judge(r, answer).AlreadySettled? && Judge(r, answer).txid == r.txid
  {
  }

  // ----- verdicts applied to the ledger

  /** Every verdict that settles a return rests on the answer. */
  ghost predicate Backed(book: Book, answer: Option<Confirmations>, vs: seq<(string, Exclusion)>) {
    forall e | e in vs && e.1.AlreadySettled? && e.1.unconfirmed.None? ::
      && e.1.txid.Some? && answer.Some?
      && (e.0 in book.entries ==> Confirms(answer.value, book.entries[e.0].burn.nullifier, e.1.txid.value))
  }

  /** Each release names the nullifier of its return. */
  ghost predicate NamesEntries(book: Book, released: seq<Released>) {
    forall r | r in released && r.id in book.entries :: SameText(book.entries[r.id].burn.nullifier, r.nullifier)
  }

  lemma JudgedBacked(book: Book, released: seq<Released>, answer: Option<Confirmations>, other: Option<Confirmations>)
    requires NamesEntries(book, released) && (AskedOf(released) == [] || other == answer)
    ensures Backed(book, other, JudgeAll(released, answer))
  {
  }

  lemma MembersName(book: Book, batchId: string, txids: map<Bytes32, string>, nullifiers: seq<Bytes32>)
    requires WellFormed(book)
    ensures NamesEntries(book, ReleasedMembers(book, batchId, txids, nullifiers))
  {
  }

  /** The burns of the members that the ledger knows. */
  function BurnsOf(book: Book, members: seq<string>): (burns: seq<Burn>)
    ensures forall b :: b in burns <==> exists m | m in members :: m in book.entries && book.entries[m].burn == b
  {
    if members == [] then []
    else
      var id := members[|members| - 1];
      BurnsOf(book, members[..|members| - 1]) + if id in book.entries then [book.entries[id].burn] else []
  }

  lemma {:induction false} AlikeBurns(a: Book, b: Book, members: seq<string>)
    requires Settlement.Alike(a, b)
    ensures BurnsOf(a, members) == BurnsOf(b, members)
  {
    if members != [] {
      AlikeBurns(a, b, members[..|members| - 1]);
    }
  }

  function NullifierOf(burns: seq<Burn>, id: string): (n: Option<string>)
    ensures n.Some? ==> exists b | b in burns :: b.id == id && b.nullifier == n.value
    ensures n.None? ==> forall b | b in burns :: b.id != id
  {
    if burns == [] then None
    else if burns[|burns| - 1].id == id then Some(burns[|burns| - 1].nullifier)
    else NullifierOf(burns[..|burns| - 1], id)
  }

  /** The exclusions that say already settled, with the nullifier of each. */
  function ReleasedAmong(excluded: seq<(string, Exclusion)>, burns: seq<Burn>): seq<Released> {
    if excluded == [] then []
    else
      var (id, why) := excluded[|excluded| - 1];
      ReleasedAmong(excluded[..|excluded| - 1], burns) +
        match why
        case AlreadySettled(txid,
          _) => (match NullifierOf(burns, id) case Some(n) => [Released(id, n, txid)] case None => [])
        case _ => []
  }

  lemma {:induction false} AmongNames(book: Book, excluded: seq<(string, Exclusion)>, members: seq<string>)
    requires WellFormed(book)
    ensures NamesEntries(book, ReleasedAmong(excluded, BurnsOf(book, members)))
  {
    hide SameText;
    if excluded != [] {
      AmongNames(book, excluded[..|excluded| - 1], members);
      var id := excluded[|excluded| - 1].0;
      NullifierIs(book, members, id);
    }
  }

  lemma NullifierIs(book: Book, members: seq<string>, id: string)
    requires WellFormed(book)
    ensures var n := NullifierOf(BurnsOf(book, members), id);
            n.Some? && id in book.entries ==>
              book.entries[id].burn.nullifier == n.value && SameText(book.entries[id].burn.nullifier, n.value)
  {
  }

  function Collected(vs: seq<(string, Exclusion)>): (verdicts: map<string, Exclusion>)
    ensures forall id | id in verdicts :: (id, verdicts[id]) in vs
  {
    if vs == [] then map[] else Collected(vs[..|vs| - 1])[vs[|vs| - 1].0 := vs[|vs| - 1].1]
  }

  /** Each exclusion replaced by the verdict on it, each verdict used once. */
  function Replaced(excluded: seq<(string, Exclusion)>, verdicts: map<string, Exclusion>)
    : (out: seq<(string, Exclusion)>)
    ensures |out| == |excluded| && forall i | 0 <= i < |out| :: out[i].0 == excluded[i].0
  {
    if excluded == [] then []
    else
      var (id, why) := excluded[0];
      if id in verdicts then [(id, verdicts[id])] + Replaced(excluded[1..], verdicts - {id})
      else [excluded[0]] + Replaced(excluded[1..], verdicts)
  }

  /** Whatever comes out was an exclusion or is a verdict. */
  lemma {:induction false} ReplacedFrom(excluded: seq<(string, Exclusion)>, verdicts: map<string, Exclusion>)
    ensures forall e | e in Replaced(excluded, verdicts) :: e in excluded || (e.0 in verdicts && verdicts[e.0] == e.1)
  {
    if excluded != [] {
      var id := excluded[0].0;
      var less := if id in verdicts then verdicts - {id} else verdicts;
      ReplacedFrom(excluded[1..], less);
      forall e | e in Replaced(excluded, verdicts)
        ensures e in excluded || (e.0 in verdicts && verdicts[e.0] == e.1)
      {
        if e in Replaced(excluded[1..], less) && e in excluded[1..] {
          assert e in excluded;
        }
      }
    }
  }

  ghost predicate DistinctIds(excluded: seq<(string, Exclusion)>) {
    forall i, j | 0 <= i < j < |excluded| :: excluded[i].0 != excluded[j].0
  }

  /** Each exclusion with a verdict is replaced by it, every other stays. */
  lemma {:induction false} ReplacedAt(excluded: seq<(string, Exclusion)>, verdicts: map<string, Exclusion>, i: nat)
    requires DistinctIds(excluded) && i < |excluded|
    ensures var (id, why) := excluded[i];
            Replaced(excluded, verdicts)[i] == (id, if id in verdicts then verdicts[id] else why)
  {
    if i > 0 {
      var id := excluded[0].0;
      var less := if id in verdicts then verdicts - {id} else verdicts;
      assert forall j | 0 <= j < |excluded| - 1 :: excluded[1..][j] == excluded[j + 1];
      ReplacedAt(excluded[1..], less, i - 1);
    }
  }

  /** The release that an exclusion stands for, when it says already settled and its burn is known. */
  ghost predicate StandsFor(e: (string, Exclusion), burns: seq<Burn>, r: Released) {
    && e.1.AlreadySettled? && NullifierOf(burns, e.0).Some?
    && r == Released(e.0, NullifierOf(burns, e.0).value, e.1.txid)
  }

  lemma AmongLast(excluded: seq<(string, Exclusion)>, burns: seq<Burn>, r: Released)
    requires excluded != []
    ensures var init, last := excluded[..|excluded| - 1], excluded[|excluded| - 1];
            r in ReleasedAmong(excluded, burns) <==> r in ReleasedAmong(init, burns) || StandsFor(last, burns, r)
  {
    hide NullifierOf;
    var init, last := excluded[..|excluded| - 1], excluded[|excluded| - 1];
    var n := NullifierOf(burns, last.0);
    if last.1.AlreadySettled? && n.Some? {
      assert ReleasedAmong(excluded, burns) == ReleasedAmong(init, burns) + [Released(last.0, n.value, last.1.txid)];
    } else {
      assert ReleasedAmong(excluded, burns) == ReleasedAmong(init, burns) + [];
    }
  }

  lemma {:induction false} AmongIff(excluded: seq<(string, Exclusion)>, burns: seq<Burn>, r: Released)
    ensures r in ReleasedAmong(excluded, burns) <==> exists e | e in excluded :: StandsFor(e, burns, r)
  {
    if excluded != [] {
      var init, last := excluded[..|excluded| - 1], excluded[|excluded| - 1];
      AmongIff(init, burns, r);
      AmongLast(excluded, burns, r);
      assert forall e :: e in excluded <==> e in init || e == last;
    }
  }

  lemma {:induction false} CollectedIff(vs: seq<(string, Exclusion)>, id: string)
    ensures id in Collected(vs) <==> exists v | v in vs :: v.0 == id
  {
    if vs != [] {
      var init, last := vs[..|vs| - 1], vs[|vs| - 1];
      CollectedIff(init, id);
      assert forall v :: v in vs <==> v in init || v == last;
    }
  }

  lemma InJudged(released: seq<Released>, answer: Option<Confirmations>, v: (string, Exclusion))
    ensures v in JudgeAll(released, answer) <==> exists r | r in released :: v == (r.id, Judge(r, answer))
  {
    hide Judge;
    var vs := JudgeAll(released, answer);
    if v in vs {
      var i :| 0 <= i < |vs| && vs[i] == v;
      assert released[i] in released;
    }
    if r :| r in released && v == (r.id, Judge(r, answer)) {
      var i :| 0 <= i < |released| && released[i] == r;
      assert vs[i] == v;
    }
  }

  /** What comes of each exclusion: found released and its burn known, the second source's verdict on
      exactly that release; otherwise it stays as it is. */
  lemma VerdictAt(excluded: seq<(string, Exclusion)>, burns: seq<Burn>, answer: Option<Confirmations>, i: nat)
    requires DistinctIds(excluded) && i < |excluded|
    ensures var (id, why) := excluded[i];
            var verdicts := Collected(JudgeAll(ReleasedAmong(excluded, burns), answer));
            var n := NullifierOf(burns, id);
            Replaced(excluded, verdicts)[i] == (id,
              if why.AlreadySettled? && n.Some? then Judge(Released(id, n.value, why.txid), answer) else why)
  {
    hide Judge, NullifierOf, Collected, ReleasedAmong, JudgeAll, Replaced;
    var id := excluded[i].0;
    var released := ReleasedAmong(excluded, burns);
    var vs := JudgeAll(released, answer);
    ReplacedAt(excluded, Collected(vs), i);
    CollectedIff(vs, id);
    forall v | v in vs && v.0 == id
      ensures exists r :: StandsFor(excluded[i], burns, r) && v == (id, Judge(r, answer))
    {
      InJudged(released, answer, v);
      var r :| r in released && v == (r.id, Judge(r, answer));
      AmongIff(excluded, burns, r);
      var e :| e in excluded && StandsFor(e, burns, r);
      assert e == excluded[i];
    }
    var n := NullifierOf(burns, id);
    if excluded[i].1.AlreadySettled? && n.Some? {
      var r := Released(id, n.value, excluded[i].1.txid);
      assert StandsFor(excluded[i], burns, r) && excluded[i] in excluded;
      AmongIff(excluded, burns, r);
      InJudged(released, answer, (id, Judge(r, answer)));
    }
  }

  lemma ReplacedBacked(book: Book, answer: Option<Confirmations>, excluded: seq<(string, Exclusion)>,
      vs: seq<(string, Exclusion)>)
    requires Unchecked(excluded) && Backed(book, answer, vs)
    ensures Backed(book, answer, Replaced(excluded, Collected(vs)))
  {
    hide Confirms, Replaced;
    ReplacedFrom(excluded, Collected(vs));
  }

  // ----- the stages

  ghost function View(acc: Rebuild.Rebuilt): Accum
    reads acc.tree
  {
    Accum(acc.spentRoot, acc.tree.Contents(), acc.txids)
  }

  ghost predicate Synced(env: Env, acc: Rebuild.Rebuilt)
    reads acc.tree
  {
    acc.tree.Valid() && acc.spentRoot == RootOf(env.sdk.sha256, acc.tree.Contents())
  }

  /** The fetched log and the known batches have one history, which gives the vault's live root when
      that is reported. */
  ghost predicate Readable(h: Hash, log: Rebuild.SettledLog, known: seq<Rebuild.SettledBatch>) {
    var history := Rebuild.History(h, Rebuild.Steps(log.batches + known));
    && history.Some?
    && (log.onChainSpentRoot.Some? ==> log.onChainSpentRoot.value == RootOf(h, SeqSet(Rebuild.Keys(history.value))))
  }

  /** What the read gives is that history: its nullifiers, its root and the transactions it names. */
  ghost predicate ReadsFrom(h: Hash, log: Rebuild.SettledLog, known: seq<Rebuild.SettledBatch>, acc: Accum) {
    && Readable(h, log, known)
    && var history := Rebuild.History(h, Rebuild.Steps(log.batches + known)).value;
       && acc.spent == SeqSet(Rebuild.Keys(history)) && acc.spentRoot == RootOf(h, acc.spent)
       && Rebuild.NamesSpenders(log.batches + known, history, acc.txids)
  }

  /** Nothing happened to any batch: neither its record nor a settlement or failure of it. */
  ghost predicate Quiet(book: Book, before: seq<Obs>, book': Book, after: seq<Obs>) {
    && before <= after
    && book'.batches == book.batches
    && forall id :: Ends(after, id) == Ends(before, id)
  }

  /** The relayer had no submitter or nothing to settle: the batch stays proven. */
  predicate LeftProven(trace: seq<Obs>, id: string) {
    trace != [] && trace[|trace| - 1].Submit? && trace[|trace| - 1].outcome == Skipped
      && trace[|trace| - 1].bundle.batchId == id
  }

  /** What a stage does to the batch `id`: when done it has ended the batch, once and last, or left it
      proven; a rebase counts one more, within the limit; other batches keep their records. */
  ghost predicate Staged(max: nat, book: Book, before: seq<Obs>, book': Book, after: seq<Obs>, id: string,
      stage: Stage)
  {
    && before <= after
    && id in book.batches && book'.batches.Keys == book.batches.Keys
    && (forall b | b in book.batches && b != id :: book'.batches[b] == book.batches[b])
    && Ends(before, id) <= Ends(after, id) <= Ends(before, id) + 1
    && (Ends(after, id) > Ends(before, id) ==> after != [] && IsEnd(after[|after| - 1], id) && stage == Done)
    && (stage == Done ==> Ends(after, id) > Ends(before, id) || LeftProven(after, id))
    && book'.batches[id].rebases == book.batches[id].rebases + (if stage == Rebase then 1 else 0)
    && (stage == Rebase ==> book'.batches[id].rebases <= max)
  }

  /** A look at the log that decides nothing: it cannot be read, or shows the batch neither released
      nor overtaken. */
  predicate Inconclusive(batch: Batch, o: Obs) {
    match o
    case Unread(_) => true
    case Read(acc) => !AllReleased(batch, acc) && batch.ChainsOnto(acc.spentRoot)
    case _ => false
  }

  predicate AllInVain(batch: Batch, looks: seq<Obs>) {
    forall i | 0 <= i < |looks| :: Inconclusive(batch, looks[i])
  }

  /** What follows a read that shows the batch released or overtaken. */
  predicate Concluded(max: nat, batch: Batch, acc: Accum, rest: seq<Obs>, stage: Stage) {
    if AllReleased(batch, acc) then stage == Done && EndsReleased(batch.id, rest)
    else !batch.ChainsOnto(acc.spentRoot) && RebasedOrFailed(max, batch, rest, stage)
  }

  predicate EndsReleased(id: string, rest: seq<Obs>) {
    && rest != []
    && match rest[|rest| - 1]
       case Applied(BatchSettled(b, _)) => b == id
       case Applied(BatchFailed(b, kind)) => b == id && kind == ChainRejected
       case _ => false
  }

  predicate RebasedOrFailed(max: nat, batch: Batch, rest: seq<Obs>, stage: Stage) {
    && (stage == Rebase <==> batch.CanRebase(max))
    && rest == [Applied(if stage == Rebase then BatchRebased(batch.id) else BatchFailed(batch.id, ChainRejected))]
  }

  /** The log was looked at `looks` times in vain, then showed what became of the batch; after the
      last look in vain the batch fails as never submitted. */
  predicate Awaited(max: nat, batch: Batch, before: seq<Obs>, after: seq<Obs>, looks: nat, stage: Stage) {
    && looks <= 5 && |before| + looks < |after| && before <= after
    && AllInVain(batch, after[|before|..|before| + looks])
    && if looks == 5 then
         stage == Done && after[|before| + looks..] == [Applied(BatchFailed(batch.id, SubmissionFailed))]
       else
         && after[|before| + looks].Read?
         && Concluded(max, batch, after[|before| + looks].acc, after[|before| + looks + 1..], stage)
  }

  lemma QuietThen(book: Book, t0: seq<Obs>, book1: Book, t1: seq<Obs>, book2: Book, t2: seq<Obs>)
    requires Quiet(book, t0, book1, t1) && Quiet(book1, t1, book2, t2)
    ensures Quiet(book, t0, book2, t2)
  {
    hide Ends;
  }

  lemma QuietNow(book: Book, t: seq<Obs>)
    ensures Quiet(book, t, book, t)
  {
  }

  lemma QuietStaged(max: nat, book: Book, t0: seq<Obs>, book1: Book, t1: seq<Obs>, book2: Book, t2: seq<Obs>,
      id: string, stage: Stage)
    requires Quiet(book, t0, book1, t1) && Staged(max, book1, t1, book2, t2, id, stage)
    ensures Staged(max, book, t0, book2, t2, id, stage)
  {
    hide Ends, IsEnd;
  }

  lemma SkippedStays(max: nat, book: Book, t: seq<Obs>, id: string)
    requires id in book.batches && LeftProven(t, id)
    ensures Staged(max, book, t, book, t, id, Done)
  {
  }

  /** A bundle carries the id of its batch. */
  predicate OwnBundle(batch: Batch) {
    batch.bundle.Some? ==> batch.bundle.value.batchId == batch.id
  }

  ghost function Unavailable(n: nat): (obs: seq<Obs>)
    ensures |obs| == n
  {
    if n == 0 then [] else Unavailable(n - 1) + [Unread(true)]
  }

  /** The exclusions as events, in order. */
  ghost function Exclusions(vs: seq<(string, Exclusion)>): (obs: seq<Obs>)
    ensures |obs| == |vs|
  {
    if vs == [] then []
    else Exclusions(vs[..|vs| - 1]) + [Applied(ReturnExcluded(vs[|vs| - 1].0, vs[|vs| - 1].1))]
  }

  /** The question put to the second source about what assembly found released, if any. */
  ghost function Asking(book: Book, excluded: seq<(string, Exclusion)>, members: seq<string>,
      answer: Option<Confirmations>): seq<Obs>
  {
    if AskedOf(ReleasedAmong(excluded, BurnsOf(book, members))) == [] then [] else [Asked(answer)]
  }

  /** The exclusions with the verdicts of that answer. */
  ghost function Verdicts(book: Book, excluded: seq<(string, Exclusion)>, members: seq<string>,
      answer: Option<Confirmations>): (vs: seq<(string, Exclusion)>)
    ensures |vs| == |excluded| && forall i | 0 <= i < |vs| :: vs[i].0 == excluded[i].0
  {
    Replaced(excluded, Collected(JudgeAll(ReleasedAmong(excluded, BurnsOf(book, members)), answer)))
  }

  ghost function ExclusionSteps(book: Book, excluded: seq<(string, Exclusion)>, members: seq<string>,
      answer: Option<Confirmations>): seq<Obs>
  {
    Asking(book, excluded, members, answer) + Exclusions(Verdicts(book, excluded, members, answer))
  }

  function ExcludedBy(r: Result<Assembled, AssembleError>): seq<(string, Exclusion)> {
    match r
    case Ok(a) => a.excluded
    case Err(AllExcluded(excluded)) => excluded
    case Err(_) => []
  }

  /** Some unsettled batch was proven for the same nullifiers on the same root. */
  predicate HasReusable(book: Book, nullifiers: seq<Bytes32>, root: Bytes32) {
    exists b | b in book.batches :: Reusable(book.batches[b], nullifiers, root)
  }

  predicate ProvenLater(a: Batch, b: Batch) {
    a.provenAt.Some? && (b.provenAt.None? || a.provenAt.value > b.provenAt.value)
  }

  /** The batch's proof can be taken, and no other that can was proven later. */
  ghost predicate LatestReusable(book: Book, nullifiers: seq<Bytes32>, root: Bytes32, b: string) {
    && b in book.batches && Reusable(book.batches[b], nullifiers, root)
    && forall o | o in book.batches && Reusable(book.batches[o], nullifiers, root) ::
         !ProvenLater(book.batches[o], book.batches[b])
  }

  /** The proof of an assembled batch: an earlier one taken as it is, or one asked for. */
  predicate ProofSteps(batch: Batch, a: Assembled, steps: seq<Obs>) {
    || RecordsProof(batch, a, steps)
    || (&& |steps| > 1 && steps[0] == ProofAsked(a.wire)
        && (steps[1..] == [Applied(BatchFailed(batch.id, ProvingFailed))] || RecordsProof(batch, a, steps[1..])))
  }

  predicate RecordsProof(batch: Batch, a: Assembled, steps: seq<Obs>) {
    && steps != [] && steps[0].Applied? && steps[0].event.BatchProven? && steps[0].event.id == batch.id
    && steps[0].event.bundle.nullifiers == Nullifiers(a.leaves)
      && steps[0].event.spentRootOld == a.publicValues.spentRootOld
  }

  /** The return waits in a batch. */
  predicate Waiting(r: Return) {
    r.status == Proving || r.status == Proven
  }

  ghost predicate NoneWaiting(book: Book, excluded: seq<(string, Exclusion)>) {
    forall i | 0 <= i < |excluded| && excluded[i].0 in book.entries :: !Waiting(book.entries[excluded[i].0])
  }

  /** Every member is excluded, or its nullifier is among these. */
  ghost predicate MembersKept(book: Book, members: seq<string>, excluded: seq<(string, Exclusion)>, ns: seq<Bytes32>) {
    forall m | m in members && m in book.entries ::
      m in ExcludedIds(excluded) || NullifierIn(book.entries[m].burn.nullifier, ns)
  }

  /** The assembled batch is on the root just read, is accepted, and has all its members' nullifiers. */
  ghost predicate ToProve(env: Env, book: Book, before: seq<Obs>, id: string, a: Assembled, root: Bytes32) {
    && LastRead(before).Some? && LastRead(before).value.spentRoot == root && a.publicValues.spentRootOld == root
    && PayloadOn(env, a.wire, root) && PayloadSpends(env, a.wire, Nullifiers(a.leaves))
    && MembersCovered(book, id, Nullifiers(a.leaves))
  }

  /** What assembly came to, before its exclusions are applied. */
  ghost predicate ToApply(env: Env, book: Book, before: seq<Obs>, members: seq<string>,
      r: Result<Assembled, AssembleError>, root: Bytes32)
  {
    && LastRead(before).Some? && LastRead(before).value.spentRoot == root && AssembledOn(env, r, root)
    && (r.Ok? ==> MembersKept(book, members, r.value.excluded, Nullifiers(r.value.leaves)))
  }

  /** The exclusions, then the proof or the batch rejected. */
  ghost predicate AssemblySteps(book: Book, batch: Batch, r: Result<Assembled, AssembleError>,
      answer: Option<Confirmations>, before: seq<Obs>, after: seq<Obs>, stage: Stage)
  {
    var first := before + ExclusionSteps(book, ExcludedBy(r), batch.members, answer);
    && first <= after
    && if r.Ok? then ProofSteps(batch, r.value, after[|first|..])
       else stage == Done && after[|first|..] == [Applied(BatchFailed(batch.id, ChainRejected))]
  }

  /** The bundle carries the assembled nullifiers and may be recorded. */
  ghost predicate MayRecord(env: Env, book: Book, before: seq<Obs>, batch: Batch, a: Assembled, bundle: Bundle,
      root: Bytes32, now: nat)
  {
    && bundle.batchId == batch.id && bundle.nullifiers == Nullifiers(a.leaves)
    && Permitted(env, book, before, Applied(BatchProven(batch.id, bundle, root, now)))
  }

  ghost predicate AllKept(wire: SdkCodecs, burns: seq<Burn>, a: Assembled) {
    forall b | b in burns :: KeptOrExcluded(wire, a.excluded, a.leaves, b)
  }

  class Orchestrator {
    const env: Env
    ghost const start: Book
    var ledger: Book
    ghost var trace: seq<Obs>

    ghost predicate Valid()
      reads this
    {
      && CanonicalSdk(env.wire) && WellFormed(start) && OwnLeaves(env.wire, start)
      && ledger == Replay(start, trace) && Lawful(env, start, trace)
    }

    ghost predicate Current(batch: Batch)
      reads this
    {
      batch.id in ledger.batches && ledger.batches[batch.id] == batch
    }

    constructor (env: Env, book: Book)
      requires CanonicalSdk(env.wire) && WellFormed(book) && OwnLeaves(env.wire, book)
      ensures Valid() && this.env == env && start == book && ledger == book && trace == []
    {
      this.env := env;
      start, ledger, trace := book, book, [];
    }

    ghost method Observe(o: Obs)
      requires Valid() && !o.Applied? && Permitted(env, ledger, trace, o)
      modifies this`trace
      ensures Valid() && trace == old(trace) + [o] && Quiet(ledger, old(trace), ledger, trace)
      ensures LastRead(trace) == if o.Read? then Some(o.acc) else LastRead(old(trace))
      ensures LastAnswer(trace) == if o.Asked? then o.answer else LastAnswer(old(trace))
    {
      hide Permitted, LastRead, LastAnswer, Ends, Lawful, Replay, WellFormed, OwnLeaves, CanonicalSdk;
      forall id ensures Ends(trace + [o], id) == Ends(trace, id) {
        TracePush(env, start, trace, o, id);
      }
      TracePush(env, start, trace, o, "");
      trace := trace + [o];
    }

    method Apply(e: Event)
      requires Valid() && Permitted(env, ledger, trace, Applied(e))
      modifies this`ledger, this`trace
      ensures Valid() && trace == old(trace) + [Applied(e)] && ledger == Next(old(ledger), e)
      ensures Does(old(ledger), e, ledger)
      ensures LastRead(trace) == LastRead(old(trace)) && LastAnswer(trace) == LastAnswer(old(trace))
      ensures forall id :: Ends(trace, id) == Ends(old(trace), id) + if IsEnd(Applied(e), id) then 1 else 0
    {
      hide Permitted, LastRead, LastAnswer, Ends, Lawful, Replay, WellFormed, OwnLeaves, CanonicalSdk, Next, Does;
      NextDoes(ledger, e, Next(ledger, e));
      ghost var o := Applied(e);
      forall id ensures Ends(trace + [o], id) == Ends(trace, id) + if IsEnd(o, id) then 1 else 0 {
        TracePush(env, start, trace, o, id);
      }
      TracePush(env, start, trace, o, "");
      trace := trace + [o];
      ledger := Next(ledger, e);
    }

    method Fail(batch: Batch, kind: ErrorKind) returns (stage: Stage)
      requires Valid() && batch.id in ledger.batches
      modifies this`ledger, this`trace
      ensures Valid() && stage == Done
      ensures Staged(env.maxRebases, old(ledger), old(trace), ledger, trace, batch.id, stage)
      ensures trace == old(trace) + [Applied(BatchFailed(batch.id, kind))]
    {
      hide Ends, Lawful, Replay, WellFormed, OwnLeaves, CanonicalSdk, LastRead, LastAnswer, MembersTake;
      Apply(BatchFailed(batch.id, kind));
      stage := Done;
    }

    method RebaseOrFail(batch: Batch) returns (stage: Stage)
      requires Valid() && Current(batch) && RootMoved(ledger, trace, batch.id)
      modifies this`ledger, this`trace
      ensures Valid() && Staged(env.maxRebases, old(ledger), old(trace), ledger, trace, batch.id, stage)
      ensures stage == Rebase <==> batch.CanRebase(env.maxRebases)
      ensures trace == old(trace)
                + [Applied(if stage == Rebase then BatchRebased(batch.id) else BatchFailed(batch.id, ChainRejected))]
    {
      hide *;
      CurrentIs(batch);
      if !batch.CanRebase(env.maxRebases) {
        stage := Fail(batch, ChainRejected);
        return;
      }
      RebasePermitted(env, ledger, trace, batch);
      Apply(BatchRebased(batch.id));
      RebasedStages(env.maxRebases, old(ledger), old(trace), trace, batch);
      stage := Rebase;
    }

    /** One read of the chain log: whatever log comes back is rebuilt together with the batches the
        ledger knows settled; it may not come back, or not rebuild. */
    method ReadChain()
      returns (r: Result<Rebuild.Rebuilt, bool>, ghost fetched: Option<Rebuild.SettledLog>,
               ghost known: seq<Rebuild.SettledBatch>)
      requires Valid()
      modifies this`trace
      ensures Valid() && Quiet(ledger, old(trace), ledger, trace) && Lists(ledger, known)
      ensures r.Ok? <==> fetched.Some? && Readable(env.sdk.sha256, fetched.value, known)
      ensures r.Ok? ==> ReadsFrom(env.sdk.sha256, fetched.value, known, View(r.value))
      ensures r.Ok? ==> Synced(env, r.value) && LastRead(trace) == Some(View(r.value))
      ensures r.Ok? ==> trace == old(trace) + [Read(View(r.value))]
      ensures r.Err? ==> trace == old(trace) + [Unread(r.error)] && (fetched.Some? ==> !r.error)
    {
      hide Ends, Lawful, Replay, WellFormed, OwnLeaves, CanonicalSdk, LastRead, LastAnswer, RootOf, Rebuild.History,
        Rebuild.NamesSpenders, Lists, Rebuild.Keys;
      var batches := SettledBatches(ledger);
      known := batches;
      var reachable: bool := *;
      if !reachable {
        var unavailable: bool := *;
        Observe(Unread(unavailable));
        return Err(unavailable), None, known;
      }
      var log: Rebuild.SettledLog := *;
      var acc := Rebuild.SyncedAccumulator(env.sdk.sha256, log, batches);
      if acc.None? {
        Observe(Unread(false));
        return Err(false), Some(log), known;
      }
      Observe(Read(View(acc.value)));
      r, fetched := Ok(acc.value), Some(log);
    }

    /** The vault's accumulator, or the batch failed for want of it. An unavailable log is read
        again three times, an unusable one fails the batch at once. */
    method Sync(batch: Batch)
      returns (acc: Option<Rebuild.Rebuilt>, ghost retries: nat, ghost log: Rebuild.SettledLog,
               ghost known: seq<Rebuild.SettledBatch>)
      requires Valid() && Current(batch)
      modifies this`ledger, this`trace
      ensures Valid() && retries <= 3
      ensures acc.Some? ==>
                && Synced(env, acc.value) && ledger == old(ledger) && Quiet(ledger, old(trace), ledger, trace)
                && trace == old(trace) + Unavailable(retries) + [Read(View(acc.value))]
                && LastRead(trace) == Some(View(acc.value))
                && Lists(ledger, known) && ReadsFrom(env.sdk.sha256, log, known, View(acc.value))
      ensures acc.None? ==>
                && Staged(env.maxRebases, old(ledger), old(trace), ledger, trace, batch.id, Done)
                && (|| (retries == 3
                        && trace == old(trace) + Unavailable(retries)
                          + [Unread(true), Applied(BatchFailed(batch.id, ServiceUnavailable))])
                    || trace == old(trace) + Unavailable(retries)
                      + [Unread(false), Applied(BatchFailed(batch.id, ChainRejected))])
    {
      hide Ends, Lawful, Replay, WellFormed, OwnLeaves, CanonicalSdk, LastRead, LastAnswer, Synced, View, Quiet, Staged,
        Lists, ReadsFrom, Readable;
      var tried: nat := 0;
      retries, log, known := 0, Rebuild.SettledLog([], None), [];
      QuietNow(ledger, trace);
      while true
        invariant Valid() && ledger == old(ledger) && Quiet(ledger, old(trace), ledger, trace)
        invariant tried == retries <= SYNC_RETRIES && trace == old(trace) + Unavailable(retries)
        decreases SYNC_RETRIES - tried
      {
        ghost var before := trace;
        var read;
        ghost var fetched;
        read, fetched, known := ReadChain();
        QuietThen(ledger, old(trace), ledger, before, ledger, trace);
        if read.Ok? {
          return Some(read.value), retries, fetched.value, known;
        }
        if read.error && tried < SYNC_RETRIES {
          tried, retries := tried + 1, retries + 1;
        } else {
          before := trace;
          var stage := Fail(batch, if read.error then ServiceUnavailable else ChainRejected);
          QuietStaged(env.maxRebases, old(ledger), old(trace), old(ledger), before, ledger, trace, batch.id, stage);
          return None, retries, log, known;
        }
      }
    }

    /** Asks the second source about the releases that name a transaction. */
    method Confirm(released: seq<Released>) returns (vs: seq<(string, Exclusion)>, ghost answer: Option<Confirmations>)
      requires Valid() && NamesEntries(ledger, released)
      modifies this`trace
      ensures Valid() && Quiet(ledger, old(trace), ledger, trace) && LastRead(trace) == LastRead(old(trace))
      ensures vs == JudgeAll(released, answer) && Backed(ledger, LastAnswer(trace), vs)
      ensures trace == if AskedOf(released) == [] then old(trace) else old(trace) + [Asked(answer)]
    {
      hide Ends, Lawful, Replay, WellFormed, OwnLeaves, CanonicalSdk, LastRead, LastAnswer, NamesEntries, Backed,
        JudgeAll;
      var reply: Option<Confirmations> := Some(Confirmations([], []));
      if AskedOf(released) != [] {
        reply := *;
        Observe(Asked(reply));
      }
      answer := reply;
      JudgedBacked(ledger, released, answer, LastAnswer(trace));
      vs := JudgeAll(released, reply);
    }

    /** Applies each exclusion. */
    method Exclude(vs: seq<(string, Exclusion)>)
      requires Valid() && Backed(ledger, LastAnswer(trace), vs)
      modifies this`ledger, this`trace
      ensures Valid() && Quiet(old(ledger), old(trace), ledger, trace) && Settlement.Alike(old(ledger), ledger)
      ensures LastRead(trace) == LastRead(old(trace)) && trace == old(trace) + Exclusions(vs)
      ensures NoneWaiting(ledger, vs)
    {
      hide Ends, Lawful, Replay, WellFormed, OwnLeaves, CanonicalSdk, LastRead, LastAnswer, Backed, NoneWaiting, Next,
        Permitted, Settlement.Alike;
      AlikeSelf(ledger);
      NobodyWaiting(ledger, vs[..0]);
      for i := 0 to |vs|
        invariant trace == old(trace) + Exclusions(vs[..i])
        invariant Valid() && Quiet(old(ledger), old(trace), ledger, trace) && Settlement.Alike(old(ledger), ledger)
        invariant LastRead(trace) == LastRead(old(trace)) && LastAnswer(trace) == LastAnswer(old(trace))
        invariant NoneWaiting(ledger, vs[..i])
      {
        NoLongerWaiting(ledger, vs, i);
        ExclusionBacked(env, old(ledger), ledger, trace, vs, i);
        ExclusionKeeps(ledger, vs[i].0, vs[i].1);
        AlikeOnce(old(ledger), ledger, Next(ledger, ReturnExcluded(vs[i].0, vs[i].1)));
        assert vs[..i + 1][..i] == vs[..i];
        Apply(ReturnExcluded(vs[i].0, vs[i].1));
      }
      assert vs[..|vs|] == vs;
    }

    /** The log just read shows every nullifier of the batch spent. The batch settles when a second
        source confirms every release of its members in one transaction; otherwise each member
        takes its own verdict and the batch ends failed. */
    method SettleReleased(batch: Batch, acc: Rebuild.Rebuilt)
        returns (stage: Stage, ghost answer: Option<Confirmations>)
      requires Valid() && Current(batch) && LastRead(trace) == Some(View(acc)) && AllReleased(batch, View(acc))
      modifies this`ledger, this`trace
      ensures Valid() && Staged(env.maxRebases, old(ledger), old(trace), ledger, trace, batch.id, stage)
                && stage == Done
      ensures old(trace) < trace
      ensures var vs := JudgeAll(ReleasedMembers(old(ledger), batch.id, acc.txids, batch.Nullifiers()), answer);
              trace != [] && trace[|trace| - 1] == Applied(
                match OneTransaction(vs)
                case Some(txid) => BatchSettled(batch.id, txid)
                case None => BatchFailed(batch.id, ChainRejected))
      ensures EndsMembers(start, trace, batch.id)
      ensures trace[|trace| - 1].event.BatchSettled? <==>
              exists txid :: AllReleasedIn(old(ledger), batch, acc.txids, answer, txid)
    {
      hide *;
      ghost var book := ledger;
      CurrentIs(batch);
      StartKept();
      var members := ReleasedMembers(ledger, batch.id, acc.txids, batch.Nullifiers());
      MembersName(ledger, batch.id, acc.txids, batch.Nullifiers());
      var verdicts;
      verdicts, answer := Confirm(members);
      ghost var asked := trace;
      var one := OneTransaction(verdicts);
      if one.Some? {
        OneTransactionConfirms(ledger, batch, acc.txids, answer, one.value);
        OneTransactionAsked(members, answer);
        ReleasesSettle(env, ledger, batch, old(trace), View(acc), answer.value, one.value);
        Apply(BatchSettled(batch.id, one.value));
        SettledStages(env.maxRebases, old(ledger), asked, trace, batch.id, one.value);
        stage := Done;
      } else {
        stage := ExcludeAndFail(batch, verdicts);
      }
      ReleasedEnds(batch.id, one, old(ledger), asked, stage);
      SettlesIff(book, batch, acc.txids, answer);
      QuietStaged(env.maxRebases, old(ledger), old(trace), old(ledger), asked, ledger, trace, batch.id, stage);
    }

    method ExcludeAndFail(batch: Batch, verdicts: seq<(string, Exclusion)>) returns (stage: Stage)
      requires Valid() && batch.id in ledger.batches && Backed(ledger, LastAnswer(trace), verdicts)
      modifies this`ledger, this`trace
      ensures Valid() && Staged(env.maxRebases, old(ledger), old(trace), ledger, trace, batch.id, stage)
                && stage == Done
      ensures trace == old(trace) + Exclusions(verdicts) + [Applied(BatchFailed(batch.id, ChainRejected))]
    {
      hide *;
      Exclude(verdicts);
      ghost var book, before := ledger, trace;
      QuietHas(old(ledger), old(trace), ledger, trace, batch.id);
      stage := Fail(batch, ChainRejected);
      QuietStaged(env.maxRebases, old(ledger), old(trace), book, before, ledger, trace, batch.id, stage);
    }

    /** The relayer broadcast the settlement but saw no receipt: the log is read a few times until it
        shows the batch released or overtaken. */
    method AwaitSettlement(batch: Batch) returns (stage: Stage, ghost looks: nat)
      requires Valid() && Current(batch) && batch.bundle.Some?
      modifies this`ledger, this`trace
      ensures Valid() && Staged(env.maxRebases, old(ledger), old(trace), ledger, trace, batch.id, stage)
      ensures Awaited(env.maxRebases, batch, old(trace), trace, looks, stage)
    {
      hide *;
      CurrentIs(batch);
      QuietNow(ledger, trace);
      NoneInVain(batch, trace[|old(trace)|..]);
      ghost var before := trace;
      for i := 0 to SETTLEMENT_CHECKS
        invariant |trace| == |old(trace)| + i && old(trace) <= trace
        invariant AllInVain(batch, trace[|old(trace)|..])
        invariant Valid() && ledger == old(ledger) && Quiet(old(ledger), old(trace), ledger, trace)
      {
        before, looks := trace, i;
        CurrentIs(batch);
        var found := CheckOnce(batch);
        if found.Some? {
          QuietStaged(env.maxRebases, old(ledger), old(trace), old(ledger), before, ledger, trace, batch.id,
            found.value);
          assert before[|old(trace)|..] == trace[|old(trace)|..|old(trace)| + i];
          FoundAt(env.maxRebases, batch, old(trace), trace, looks, found.value);
          return found.value, looks;
        }
        QuietThen(old(ledger), old(trace), old(ledger), before, ledger, trace);
        OnceMoreInVain(batch, before[|old(trace)|..], trace[|before|]);
        assert trace[|old(trace)|..] == before[|old(trace)|..] + [trace[|before|]];
      }
      before := trace;
      stage := Fail(batch, SubmissionFailed);
      looks := SETTLEMENT_CHECKS;
      QuietStaged(env.maxRebases, old(ledger), old(trace), old(ledger), before, ledger, trace, batch.id, stage);
      NeverFound(env.maxRebases, batch, old(trace), before, trace);
    }

    /** One look at the log; nothing when it cannot be read or shows the batch neither released nor
        overtaken. */
    method CheckOnce(batch: Batch) returns (found: Option<Stage>)
      requires Valid() && Current(batch) && batch.bundle.Some?
      modifies this`ledger, this`trace
      ensures Valid() && old(trace) < trace
      ensures found.None? ==> ledger == old(ledger) && Quiet(ledger, old(trace), ledger, trace)
      ensures found.None? ==> |trace| == |old(trace)| + 1 && Inconclusive(batch, trace[|old(trace)|])
      ensures found.Some? ==> Staged(env.maxRebases, old(ledger), old(trace), ledger, trace, batch.id, found.value)
      ensures found.Some? ==>
                && trace[|old(trace)|].Read?
                && Concluded(env.maxRebases, batch, trace[|old(trace)|].acc, trace[|old(trace)| + 1..], found.value)
    {
      hide *;
      CurrentIs(batch);
      var read, _, _ := ReadChain();
      if read.Err? {
        InVain(batch, trace[|old(trace)|]);
        return None;
      }
      var acc := read.value;
      ghost var before := trace;
      CurrentIs(batch);
      TreeOf(env, acc);
      var all := ReleasedIn(env.sdk.sha256, batch, acc);
      var stage: Stage;
      if all {
        ghost var answer;
        stage, answer := SettleReleased(batch, acc);
        Settles(env.maxRebases, batch, View(acc), before, trace);
      } else if !batch.ChainsOnto(acc.spentRoot) {
        RootMovedByRead(ledger, trace, batch, View(acc));
        stage := RebaseOrFail(batch);
        RebasesOrFails(env.maxRebases, batch, before, trace, stage);
        Overtaken(env.maxRebases, batch, View(acc), trace[|before|..], stage);
      } else {
        InVain(batch, trace[|old(trace)|]);
        return None;
      }
      QuietStaged(env.maxRebases, old(ledger), old(trace), old(ledger), before, ledger, trace, batch.id, stage);
      found := Some(stage);
    }

    lemma CurrentIs(batch: Batch)
      ensures batch.id in ledger.batches && ledger.batches[batch.id] == batch <==> Current(batch)
    {
    }

    /** Settles a proven batch on the root just read: released already, it is confirmed; on another
        root, rebased; otherwise its bundle is submitted at once. */
    method SettleStage(batch: Batch) returns (stage: Stage, ghost seen: Option<Accum>, ghost at: nat)
      requires Valid() && Current(batch) && batch.bundle.Some? && OwnBundle(batch)
      modifies this`ledger, this`trace
      ensures Valid() && Staged(env.maxRebases, old(ledger), old(trace), ledger, trace, batch.id, stage)
      ensures seen.Some? ==> |old(trace)| <= at < |trace| && trace[at] == Read(seen.value)
      ensures seen.Some? && !AllReleased(batch, seen.value) && batch.ChainsOnto(seen.value.spentRoot) ==>
                at + 1 < |trace| && trace[at + 1].Submit? && trace[at + 1].bundle == batch.bundle.value
    {
      hide *;
      CurrentIs(batch);
      OwnBundleIs(batch);
      var synced, _, _, _ := Sync(batch);
      if synced.None? {
        return Done, None, 0;
      }
      var acc := synced.value;
      ghost var before := trace;
      seen, at := Some(View(acc)), |trace| - 1;
      CurrentIs(batch);
      TreeOf(env, acc);
      var all := ReleasedIn(env.sdk.sha256, batch, acc);
      if all {
        ghost var answer;
        stage, answer := SettleReleased(batch, acc);
      } else if !batch.ChainsOnto(acc.spentRoot) {
        RootMovedByRead(ledger, trace, batch, View(acc));
        stage := RebaseOrFail(batch);
      } else {
        stage := SubmitBundle(batch, View(acc));
      }
      QuietStaged(env.maxRebases, old(ledger), old(trace), old(ledger), before, ledger, trace, batch.id, stage);
      StagedGrows(env.maxRebases, old(ledger), before, ledger, trace, batch.id, stage);
    }

    method SubmitBundle(batch: Batch, ghost acc: Accum) returns (stage: Stage)
      requires Valid() && Current(batch) && batch.bundle.Some? && batch.bundle.value.batchId == batch.id
      requires trace != [] && trace[|trace| - 1] == Read(acc) && batch.ChainsOnto(acc.spentRoot)
                 && !AllReleased(batch, acc)
      modifies this`ledger, this`trace
      ensures Valid() && Staged(env.maxRebases, old(ledger), old(trace), ledger, trace, batch.id, stage)
      ensures |trace| > |old(trace)| && trace[|old(trace)|].Submit? && trace[|old(trace)|].bundle == batch.bundle.value
    {
      hide *;
      CurrentIs(batch);
      var outcome: Outcome := *;
      ghost var before := trace;
      SubmitPermitted(env, ledger, trace, batch, acc, outcome);
      Observe(Submit(batch.bundle.value, outcome));
      ghost var submitted := trace;
      CurrentIs(batch);
      ghost var looks;
      stage, looks := TakeOutcome(batch, outcome, before);
      QuietStaged(env.maxRebases, old(ledger), old(trace), old(ledger), submitted, ledger, trace, batch.id, stage);
      StagedGrows(env.maxRebases, old(ledger), submitted, ledger, trace, batch.id, stage);
    }

    /** What the relayer answered. */
    method TakeOutcome(batch: Batch, outcome: Outcome, ghost before: seq<Obs>) returns (stage: Stage, ghost looks: nat)
      requires Valid() && Current(batch) && batch.bundle.Some? && batch.bundle.value.batchId == batch.id
      requires trace == before + [Submit(batch.bundle.value, outcome)]
      modifies this`ledger, this`trace
      ensures Valid() && Staged(env.maxRebases, old(ledger), old(trace), ledger, trace, batch.id, stage)
      ensures outcome.Skipped? ==> trace == old(trace) && ledger == old(ledger)
      ensures outcome.Landed? ==>
                && trace == old(trace) + [Applied(BatchSettled(batch.id, outcome.txid))]
                && MembersMove(old(ledger), ledger, batch.id, Settled, Some(outcome.txid))
      ensures outcome.Unseen? ==> Awaited(env.maxRebases, batch, old(trace), trace, looks, stage)
      ensures outcome.StaleRoot? ==> RebasedOrFailed(env.maxRebases, batch, trace[|old(trace)|..], stage)
      ensures outcome.Broke? ==> trace == old(trace) + [Applied(BatchFailed(batch.id, SubmissionFailed))]
    {
      hide *;
      CurrentIs(batch);
      looks := 0;
      match outcome {
        case Skipped =>
          stage := Done;
          LeftIs(before, batch.bundle.value);
          SkippedStays(env.maxRebases, ledger, trace, batch.id);
        case Landed(txid) =>
          LandedSettles(env, ledger, before, batch, txid);
          Apply(BatchSettled(batch.id, txid));
          SettlesMembers(old(ledger), ledger, batch.id, txid);
          SettledStages(env.maxRebases, old(ledger), old(trace), trace, batch.id, txid);
          stage := Done;
        case Unseen(txid) => stage, looks := AwaitSettlement(batch);
        case StaleRoot =>
          RootMovedByRefusal(ledger, before, batch);
          stage := RebaseOrFail(batch);
          RebasesOrFails(env.maxRebases, batch, old(trace), trace, stage);
        case Broke => stage := Fail(batch, SubmissionFailed);
      }
    }

    /** Asks the second source about the members that assembly found released. */
    method CheckExcluded(excluded: seq<(string, Exclusion)>, members: seq<string>)
      returns (checked: seq<(string, Exclusion)>, ghost answer: Option<Confirmations>)
      requires Valid() && Unchecked(excluded)
      modifies this`trace
      ensures Valid() && Quiet(ledger, old(trace), ledger, trace) && LastRead(trace) == LastRead(old(trace))
      ensures Backed(ledger, LastAnswer(trace), checked) && checked == Verdicts(ledger, excluded, members, answer)
      ensures trace == old(trace) + Asking(ledger, excluded, members, answer)
    {
      hide *;
      StartKept();
      var burns := BurnsOf(ledger, members);
      var released := ReleasedAmong(excluded, burns);
      AmongNames(ledger, excluded, members);
      var verdicts;
      verdicts, answer := Confirm(released);
      ReplacedBacked(ledger, LastAnswer(trace), excluded, verdicts);
      checked := Replaced(excluded, Collected(verdicts));
      VerdictsAre(ledger, excluded, members, answer);
    }

    /** Confirms and applies what assembly excluded. */
    method ExcludeChecked(excluded: seq<(string, Exclusion)>, members: seq<string>)
        returns (ghost answer: Option<Confirmations>)
      requires Valid() && Unchecked(excluded)
      modifies this`ledger, this`trace
      ensures Valid() && Quiet(old(ledger), old(trace), ledger, trace) && Settlement.Alike(old(ledger), ledger)
      ensures LastRead(trace) == LastRead(old(trace))
      ensures trace == old(trace) + ExclusionSteps(old(ledger), excluded, members, answer)
      ensures NoneWaiting(ledger, excluded)
    {
      hide *;
      var verdicts;
      verdicts, answer := CheckExcluded(excluded, members);
      ghost var before := trace;
      Exclude(verdicts);
      QuietThen(old(ledger), old(trace), old(ledger), before, ledger, trace);
      StepsAre(old(ledger), excluded, members, answer);
      SameWaiting(ledger, verdicts, excluded);
    }

    /** Of the earlier proofs that can be taken, the one proven last. */
    method ProofFor(nullifiers: seq<Bytes32>, root: Bytes32) returns (bundle: Option<Bundle>)
      ensures bundle.Some? ==>
                exists b :: LatestReusable(ledger, nullifiers, root, b) && ledger.batches[b].bundle == bundle
      ensures bundle.Some? <==> HasReusable(ledger, nullifiers, root)
    {
      hide Reusable;
      var left := ledger.batches.Keys;
      var best: Option<string> := None;
      while left != {}
        invariant left <= ledger.batches.Keys
        invariant forall b | b in ledger.batches && b !in left && Reusable(ledger.batches[b], nullifiers, root) ::
                    && best.Some? && best.value in ledger.batches
                    && !ProvenLater(ledger.batches[b], ledger.batches[best.value])
        invariant best.Some? ==> best.value in ledger.batches && Reusable(ledger.batches[best.value], nullifiers, root)
        decreases left
      {
        var b :| b in left;
        left := left - {b};
        if Reusable(ledger.batches[b], nullifiers, root)
          && (best.None? || ProvenLater(ledger.batches[b], ledger.batches[best.value])) {
          best := Some(b);
        }
      }
      if best.None? {
        return None;
      }
      assert LatestReusable(ledger, nullifiers, root, best.value);
      ReusableHas(ledger.batches[best.value], nullifiers, root);
      bundle := ledger.batches[best.value].bundle;
    }

    /** Assembles and proves the batch on the root just read, then settles it. */
    method ProveStage(batch: Batch) returns (stage: Stage)
      requires Valid() && Current(batch) && TotalFits(DecodedInputs(env.wire, BurnsOf(start, batch.members)))
      modifies this`ledger, this`trace
      ensures Valid() && Staged(env.maxRebases, old(ledger), old(trace), ledger, trace, batch.id, stage)
    {
      hide *;
      CurrentIs(batch);
      StartKept();
      AlikeBurns(start, ledger, batch.members);
      var synced, _, _, _ := Sync(batch);
      if synced.None? {
        return Done;
      }
      var acc := synced.value;
      ghost var before := trace;
      TreeOf(env, acc);
      CurrentIs(batch);
      var burns := BurnsOf(ledger, batch.members);
      var simulated: Option<seq<Rejected>> := *;
      match simulated {
        case None => stage := Fail(batch, ChainRejected);
        case Some(rejected) =>
          var assembled := AssembleOn(env, burns, acc, rejected);
          if assembled.Ok? {
            KeptMembers(env.wire, ledger, batch.members, assembled.value);
          }
          ToApplyIs(env, ledger, trace, batch.members, assembled, acc.spentRoot);
          ghost var answer;
          stage, answer := AfterAssembly(batch, assembled, acc.spentRoot);
      }
      QuietStaged(env.maxRebases, old(ledger), old(trace), old(ledger), before, ledger, trace, batch.id, stage);
    }

    /** Exclusions are confirmed and applied; what was assembled is proven. */
    method AfterAssembly(batch: Batch, assembled: Result<Assembled, AssembleError>, ghost root: Bytes32)
      returns (stage: Stage, ghost answer: Option<Confirmations>)
      requires Valid() && Current(batch) && ToApply(env, ledger, trace, batch.members, assembled, root)
      modifies this`ledger, this`trace
      ensures Valid() && Staged(env.maxRebases, old(ledger), old(trace), ledger, trace, batch.id, stage)
      ensures AssemblySteps(old(ledger), batch, assembled, answer, old(trace), trace, stage)
    {
      hide *;
      CurrentIs(batch);
      ToApplyIs(env, ledger, trace, batch.members, assembled, root);
      AssembledIs(env, assembled, root);
      answer := ExcludeChecked(ExcludedBy(assembled), batch.members);
      ghost var book, before := ledger, trace;
      QuietBatch(old(ledger), old(trace), ledger, trace, batch);
      CurrentIs(batch);
      if assembled.Ok? {
        KeptCovers(old(ledger), ledger, batch, assembled.value);
        ToProveIs(env, ledger, trace, batch.id, assembled.value, root);
        stage := ProveAssembled(batch, assembled.value, root);
      } else {
        stage := Fail(batch, ChainRejected);
      }
      QuietStaged(env.maxRebases, old(ledger), old(trace), book, before, ledger, trace, batch.id, stage);
      AssemblyStepsAre(old(ledger), batch, assembled, answer, old(trace), trace, stage);
    }

    method ProveAssembled(batch: Batch, a: Assembled, ghost root: Bytes32) returns (stage: Stage)
      requires Valid() && Current(batch) && ToProve(env, ledger, trace, batch.id, a, root)
      modifies this`ledger, this`trace
      ensures Valid() && Staged(env.maxRebases, old(ledger), old(trace), ledger, trace, batch.id, stage)
      ensures old(trace) <= trace && ProofSteps(batch, a, trace[|old(trace)|..])
    {
      hide *;
      CurrentIs(batch);
      ToProveIs(env, ledger, trace, batch.id, a, root);
      var now: nat := *;
      var bundle := ObtainProof(batch, a, root, now);
      ghost var before := trace;
      CurrentIs(batch);
      if bundle.Some? {
        MayRecordIs(env, ledger, trace, batch, a, bundle.value, root, now);
        stage := RecordProof(batch, bundle.value, a.publicValues.spentRootOld, now);
        ProofRecorded(batch, a, bundle.value, old(trace), before, trace, now);
      } else {
        stage := Fail(batch, ProvingFailed);
        ProofRefused(batch, a, old(trace), trace);
      }
      QuietStaged(env.maxRebases, old(ledger), old(trace), old(ledger), before, ledger, trace, batch.id, stage);
    }

    /** Takes an earlier proof of the same nullifiers on the same root, or asks for one. */
    method ObtainProof(batch: Batch, a: Assembled, ghost root: Bytes32, ghost now: nat) returns (bundle: Option<Bundle>)
      requires Valid() && ToProve(env, ledger, trace, batch.id, a, root)
      modifies this`trace
      ensures Valid() && Quiet(ledger, old(trace), ledger, trace)
      ensures bundle.Some? ==> MayRecord(env, ledger, trace, batch, a, bundle.value, root, now)
      ensures trace == if HasReusable(ledger, Nullifiers(a.leaves), root) then old(trace)
                       else old(trace) + [ProofAsked(a.wire)]
      ensures trace == old(trace) ==> bundle.Some?
    {
      hide *;
      ToProveIs(env, ledger, trace, batch.id, a, root);
      var nullifiers := Nullifiers(a.leaves);
      var reusable := ProofFor(nullifiers, a.publicValues.spentRootOld);
      QuietNow(ledger, trace);
      match reusable {
        case Some(earlier) =>
          ReusedPermitted(env, ledger, trace, batch.id, earlier, nullifiers, root, now);
          ReusedSpends(ledger, earlier, nullifiers, root);
          bundle := Some(earlier.(batchId := batch.id, settleTxid := None));
          MayRecordIs(env, ledger, trace, batch, a, bundle.value, root, now);
        case None =>
          AskPermitted(env, ledger, trace, a.wire, root);
          Observe(ProofAsked(a.wire));
          var proof: Option<string> := *;
          match proof {
            case None => bundle := None;
            case Some(bytes) =>
              var roots: Option<(Bytes32, Bytes32)> := *;
              bundle := Some(Bundle(batch.id, bytes, nullifiers, roots, None));
              ProvenPermitted(env, ledger, trace, bundle.value, root, now);
              MayRecordIs(env, ledger, trace, batch, a, bundle.value, root, now);
          }
      }
    }

    /** Records the proof and settles the batch as the store now has it. */
    method RecordProof(batch: Batch, bundle: Bundle, root: Bytes32, now: nat) returns (stage: Stage)
      requires Valid() && Current(batch) && bundle.batchId == batch.id
                 && Permitted(env, ledger, trace, Applied(BatchProven(batch.id, bundle, root, now)))
      modifies this`ledger, this`trace
      ensures Valid() && Staged(env.maxRebases, old(ledger), old(trace), ledger, trace, batch.id, stage)
      ensures old(trace) + [Applied(BatchProven(batch.id, bundle, root, now))] <= trace
    {
      assert batch.id in ledger.batches && ledger.batches[batch.id] == batch;
      hide *;
      Apply(BatchProven(batch.id, bundle, root, now));
      ProvenBatch(old(ledger), batch, bundle, root, now);
      ghost var book, before := ledger, trace;
      var reloaded := ledger.batches[batch.id];
      CurrentIs(reloaded);
      ghost var seen, at;
      stage, seen, at := SettleStage(reloaded);
      ProvenStaged(env.maxRebases, old(ledger), old(trace), before, ledger, trace, batch.id, bundle, root, now, stage);
    }

    /** Proves and settles one batch, rebasing while it may. Whatever the chain, the prover and the
        settler answer: it returns, the trace stays lawful, the batch is settled or failed at most
        once and then nothing more is done, and it rebases no further than the limit. */
    method RunBatch(id: string)
      requires Valid() && id in ledger.batches && OwnBundle(ledger.batches[id])
      requires TotalFits(DecodedInputs(env.wire, BurnsOf(start, ledger.batches[id].members)))
      modifies this`ledger, this`trace
      ensures Valid() && old(trace) <= trace && ledger.batches.Keys == old(ledger.batches.Keys)
      ensures Ends(trace, id) <= Ends(old(trace), id) + 1
      ensures Ends(trace, id) > Ends(old(trace), id) ==> trace != [] && IsEnd(trace[|trace| - 1], id)
      ensures Ends(trace, id) > Ends(old(trace), id) ==> EndsMembers(start, trace, id)
      ensures Ends(trace, id) > Ends(old(trace), id) || LeftProven(trace, id)
      ensures var was, now := old(ledger.batches[id].rebases), ledger.batches[id].rebases;
              was <= now && (now == was || now <= env.maxRebases)
      ensures forall b | b in old(ledger.batches) && b != id :: ledger.batches[b] == old(ledger.batches[b])
    {
      hide *;
      ghost var book, before := ledger, trace;
      KeepsId(id);
      var stage := FirstStage(ledger.batches[id]);
      StagedStarts(env.maxRebases, book, before, ledger, trace, id, stage);
      while stage == Rebase
        invariant Valid() && Underway(env.maxRebases, book, before, ledger, trace, id, stage)
        invariant id in ledger.batches && (stage == Rebase ==> ledger.batches[id].rebases <= env.maxRebases)
        decreases if stage == Rebase then env.maxRebases - ledger.batches[id].rebases + 1 else 0
      {
        ghost var ledger0, trace0 := ledger, trace;
        var current := ledger.batches[id];
        KeepsId(id);
        CurrentIs(current);
        stage := ProveStage(current);
        StagedMore(env.maxRebases, book, before, ledger0, trace0, ledger, trace, id, stage);
      }
      UnderwayIs(env.maxRebases, book, before, ledger, trace, id, stage);
      if Ends(trace, id) > Ends(before, id) {
        EndsBatch(id);
      }
    }

    /** A batch already proven is settled, any other proven first. */
    method FirstStage(batch: Batch) returns (stage: Stage)
      requires Valid() && batch.id in ledger.batches && ledger.batches[batch.id] == batch && OwnBundle(batch)
      requires TotalFits(DecodedInputs(env.wire, BurnsOf(start, batch.members)))
      modifies this`ledger, this`trace
      ensures Valid() && Staged(env.maxRebases, old(ledger), old(trace), ledger, trace, batch.id, stage)
    {
      hide *;
      CurrentIs(batch);
      if batch.bundle.Some? {
        ghost var seen, at;
        stage, seen, at := SettleStage(batch);
      } else {
        stage := ProveStage(batch);
      }
    }

    lemma EndsBatch(id: string)
      requires Valid() && id in ledger.batches && trace != [] && IsEnd(trace[|trace| - 1], id)
      ensures EndsMembers(start, trace, id)
    {
      hide Lawful, CanonicalSdk, Replay, EndsMembers;
      ReplayAlike(start, trace);
      EndEndsMembers(start, trace, id);
    }

    lemma ReleasedEnds(id: string, one: Option<string>, book: Book, before: seq<Obs>, stage: Stage)
      requires Valid() && Staged(env.maxRebases, book, before, ledger, trace, id, stage) && trace != []
      requires trace[|trace| - 1] == Applied(
                 match one case Some(txid) => BatchSettled(id, txid) case None => BatchFailed(id, ChainRejected))
      ensures EndsMembers(start, trace, id)
    {
      hide Lawful, CanonicalSdk, Replay, EndsMembers, Ends;
      EndsBatch(id);
    }

    lemma KeepsId(id: string)
      requires Valid() && id in ledger.batches
      ensures ledger.batches[id].id == id && id in start.batches
                && ledger.batches[id].members == start.batches[id].members
    {
      hide Lawful, CanonicalSdk, Replay;
      ReplayAlike(start, trace);
    }

    /** The ledger is well formed, as it was at the start. */
    lemma StartKept()
      requires Valid()
      ensures WellFormed(ledger) && OwnLeaves(env.wire, ledger) && CanonicalSdk(env.wire)
      ensures Settlement.Alike(start, ledger)
    {
      hide Lawful, WellFormed, OwnLeaves, CanonicalSdk, Settlement.Alike, Replay;
      ReplayAlike(start, trace);
      AlikeWellFormed(start, ledger);
      AlikeOwnLeaves(env.wire, start, ledger);
    }
  }

  /** The walk over the tree's witnesses: whether the log shows every nullifier spent. */
  method ReleasedIn(h: Hash, batch: Batch, acc: Rebuild.Rebuilt) returns (all: bool)
    requires acc.tree.Valid()
    ensures all == AllReleased(batch, View(acc))
  {
    hide CanonicalWitness;
    var nullifiers := batch.Nullifiers();
    if nullifiers == [] {
      return false;
    }
    for i := 0 to |nullifiers|
      invariant forall n | n in nullifiers[..i] :: n in acc.tree.Contents()
    {
      var w := acc.tree.NonMembershipWitness(h, nullifiers[i]);
      if w.Some? {
        return false;
      }
      assert nullifiers[..i + 1] == nullifiers[..i] + [nullifiers[i]];
    }
    assert nullifiers[..|nullifiers|] == nullifiers;
    all := true;
  }

  lemma TreeOf(env: Env, acc: Rebuild.Rebuilt)
    requires Synced(env, acc)
    ensures acc.tree.Valid() && View(acc).spentRoot == acc.spentRoot
  {
  }

  lemma RootMovedByRead(book: Book, trace: seq<Obs>, batch: Batch, acc: Accum)
    requires batch.id in book.batches && book.batches[batch.id] == batch
    requires trace != [] && trace[|trace| - 1] == Read(acc)
    requires !batch.ChainsOnto(acc.spentRoot) && !AllReleased(batch, acc)
    ensures RootMoved(book, trace, batch.id)
  {
    hide AllReleased;
  }

  lemma RootMovedByRefusal(book: Book, before: seq<Obs>, batch: Batch)
    requires batch.id in book.batches && batch.bundle.Some? && batch.bundle.value.batchId == batch.id
    ensures RootMoved(book, before + [Submit(batch.bundle.value, StaleRoot)], batch.id)
  {
  }

  lemma SubmitPermitted(env: Env, book: Book, trace: seq<Obs>, batch: Batch, acc: Accum, outcome: Outcome)
    requires batch.id in book.batches && book.batches[batch.id] == batch
    requires batch.bundle.Some? && batch.bundle.value.batchId == batch.id
    requires trace != [] && trace[|trace| - 1] == Read(acc) && batch.ChainsOnto(acc.spentRoot)
               && !AllReleased(batch, acc)
    ensures Permitted(env, book, trace, Submit(batch.bundle.value, outcome))
  {
    hide AllReleased;
  }

  lemma LandedSettles(env: Env, book: Book, before: seq<Obs>, batch: Batch, txid: string)
    requires batch.bundle.Some? && batch.bundle.value.batchId == batch.id
    ensures Permitted(env, book, before + [Submit(batch.bundle.value, Landed(txid))],
              Applied(BatchSettled(batch.id, txid)))
  {
  }

  lemma ReusableHas(batch: Batch, nullifiers: seq<Bytes32>, root: Bytes32)
    requires Reusable(batch, nullifiers, root)
    ensures batch.bundle.Some?
  {
  }

  lemma QuietBatch(book: Book, before: seq<Obs>, book': Book, after: seq<Obs>, batch: Batch)
    requires Quiet(book, before, book', after) && batch.id in book.batches && book.batches[batch.id] == batch
    ensures batch.id in book'.batches && book'.batches[batch.id] == batch
  {
  }

  /** The assembled payload is accepted by the relation and starts from the root read. */
  lemma Presented(env: Env, a: Assembled, f: Folded, acc: Rebuild.Rebuilt)
    requires Presents(env.sdk, env.wire, a, f, acc.tree.Contents()) && Synced(env, acc)
    ensures a.publicValues.spentRootOld == acc.spentRoot && a.excluded == f.excluded
    ensures PayloadOn(env, a.wire, acc.spentRoot) && PayloadSpends(env, a.wire, Nullifiers(a.leaves))
  {
    hide Execute, Decoded, RootOf, MergedInput;
    var x := MergedInput(env.sdk, f.inputs, acc.tree.Contents());
    ExecuteReturns(env.sdk, x);
    MergedRoot(env.sdk, f.inputs, acc.tree.Contents());
  }

  lemma MergedRoot(sdk: Sdk, inputs: seq<GuestInput>, spent: set<Bytes32>)
    requires Settleable(spent, inputs)
    ensures MergedInput(sdk, inputs, spent).publicValues.spentRootOld == RootOf(sdk.sha256, spent)
  {
    hide SortByNonce, OrderedWitnesses, RootOf, Nullifiers, AllLeaves, AllRefs, AllBurns, SumAmounts, SeqSet, Fresh;
  }

  lemma AskPermitted(env: Env, book: Book, trace: seq<Obs>, payload: Bytes, root: Bytes32)
    requires LastRead(trace).Some? && LastRead(trace).value.spentRoot == root && PayloadOn(env, payload, root)
    ensures Permitted(env, book, trace, ProofAsked(payload))
  {
    hide LastRead, PayloadOn;
  }

  lemma ReusedPermitted(env: Env, book: Book, trace: seq<Obs>, id: string, earlier: Bundle, nullifiers: seq<Bytes32>,
      root: Bytes32, now: nat)
    requires LastRead(trace).Some? && LastRead(trace).value.spentRoot == root
    requires exists b :: LatestReusable(book, nullifiers, root, b) && book.batches[b].bundle == Some(earlier)
    requires MembersCovered(book, id, nullifiers)
    ensures var again := earlier.(batchId := id, settleTxid := None);
            Permitted(env, book, trace, Applied(BatchProven(id, again, root, now)))
  {
    hide LastRead, PayloadOn, PayloadSpends, MembersCovered;
    var b :| LatestReusable(book, nullifiers, root, b) && book.batches[b].bundle == Some(earlier);
    assert Reusable(book.batches[b], earlier.nullifiers, root);
  }

  lemma ProvenPermitted(env: Env, book: Book, trace: seq<Obs>, bundle: Bundle, root: Bytes32, now: nat)
    requires LastRead(trace).Some? && LastRead(trace).value.spentRoot == root && bundle.settleTxid.None?
    requires trace != [] && trace[|trace| - 1].ProofAsked?
    requires PayloadOn(env, trace[|trace| - 1].payload, root)
               && PayloadSpends(env, trace[|trace| - 1].payload, bundle.nullifiers)
    requires MembersCovered(book, bundle.batchId, bundle.nullifiers)
    ensures Permitted(env, book, trace, Applied(BatchProven(bundle.batchId, bundle, root, now)))
  {
    hide LastRead, PayloadOn, PayloadSpends, MembersCovered;
  }

  lemma ProvenBatch(book: Book, batch: Batch, bundle: Bundle, root: Bytes32, now: nat)
    requires batch.id in book.batches && book.batches[batch.id] == batch && bundle.batchId == batch.id
    ensures var book' := Next(book, BatchProven(batch.id, bundle, root, now));
            && batch.id in book'.batches && book'.batches[batch.id].id == batch.id
            && book'.batches[batch.id].bundle.Some? && OwnBundle(book'.batches[batch.id])
  {
    hide MembersTake;
  }

  lemma ProvenStaged(max: nat, book: Book, t0: seq<Obs>, t1: seq<Obs>, book2: Book, t2: seq<Obs>, id: string,
      bundle: Bundle, root: Bytes32, now: nat, stage: Stage)
    requires id in book.batches && t1 == t0 + [Applied(BatchProven(id, bundle, root, now))]
    requires forall b :: Ends(t1, b) == Ends(t0, b)
                         + if IsEnd(Applied(BatchProven(id, bundle, root, now)), b) then 1 else 0
    requires Staged(max, Next(book, BatchProven(id, bundle, root, now)), t1, book2, t2, id, stage)
    ensures Staged(max, book, t0, book2, t2, id, stage)
  {
    hide Ends, MembersTake;
  }

  /** An assembly result is usable: unconfirmed exclusions, and a payload accepted on `root`. */
  ghost predicate AssembledOn(env: Env, r: Result<Assembled, AssembleError>, root: Bytes32) {
    match r
    case Err(AllExcluded(excluded)) => Unchecked(excluded)
    case Err(_) => true
    case Ok(a) =>
      && Unchecked(a.excluded) && a.publicValues.spentRootOld == root
      && PayloadOn(env, a.wire, root) && PayloadSpends(env, a.wire, Nullifiers(a.leaves))
  }

  lemma AssembledIs(env: Env, r: Result<Assembled, AssembleError>, root: Bytes32)
    requires AssembledOn(env, r, root)
    ensures Unchecked(ExcludedBy(r)) && (r.Ok? ==> ExcludedBy(r) == r.value.excluded)
    ensures r.Ok? ==> && r.value.publicValues.spentRootOld == root
                      && PayloadOn(env, r.value.wire, root)
                        && PayloadSpends(env, r.value.wire, Nullifiers(r.value.leaves))
  {
    hide PayloadOn, PayloadSpends, Nullifiers;
  }

  method AssembleOn(env: Env, burns: seq<Burn>, acc: Rebuild.Rebuilt, rejected: seq<Rejected>)
    returns (r: Result<Assembled, AssembleError>)
    requires Synced(env, acc) && CanonicalSdk(env.wire) && TotalFits(DecodedInputs(env.wire, burns))
    ensures AssembledOn(env, r, acc.spentRoot) && (r.Ok? ==> AllKept(env.wire, burns, r.value))
  {
    hide *;
    TreeOf(env, acc);
    r := Assemble(env.sdk, env.wire, burns, acc, rejected);
    ghost var g := Gate(env.wire, acc.tree.Contents(), acc.txids, rejected);
    FoldUnchecked(g, burns);
    if r.Ok? {
      Presented(env, r.value, Fold(g, burns), acc);
      KeptLeaves(g, burns);
      PresentsKept(env, burns, r.value, Fold(g, burns), g.spent);
    }
    AssembledSo(env, r, acc.spentRoot);
  }

  lemma PresentsKept(env: Env, burns: seq<Burn>, a: Assembled, f: Folded, spent: set<Bytes32>)
    requires Presents(env.sdk, env.wire, a, f, spent)
    requires forall b | b in burns :: KeptOrExcluded(env.wire, f.excluded, AllLeaves(f.inputs), b)
    ensures AllKept(env.wire, burns, a)
  {
    hide KeptOrExcluded, Execute, Decoded, RootOf, SortByNonce, OrderedWitnesses, Nullifiers, AllRefs, AllBurns,
      SumAmounts, Settleable, SeqSet;
  }

  lemma {:induction false} BurnsHave(book: Book, members: seq<string>, m: string)
    requires m in members && m in book.entries
    ensures book.entries[m].burn in BurnsOf(book, members)
  {
    if members[|members| - 1] != m {
      BurnsHave(book, members[..|members| - 1], m);
    }
  }

  /** What assembly keeps of the members' burns it keeps of the members. */
  lemma KeptMembers(wire: SdkCodecs, book: Book, members: seq<string>, a: Assembled)
    requires WellFormed(book) && OwnLeaves(wire, book) && AllKept(wire, BurnsOf(book, members), a)
    ensures MembersKept(book, members, a.excluded, Nullifiers(a.leaves))
  {
    hide Decoded, Nullifiers, NullifierIn, KeptOrExcluded, Indexed, BurnsOf;
    forall m | m in members && m in book.entries
      ensures m in ExcludedIds(a.excluded) || NullifierIn(book.entries[m].burn.nullifier, Nullifiers(a.leaves))
    {
      BurnsHave(book, members, m);
      KeptMember(wire, book, m, a);
    }
  }

  lemma KeptMember(wire: SdkCodecs, book: Book, m: string, a: Assembled)
    requires WellFormed(book) && OwnLeaves(wire, book) && m in book.entries
    requires KeptOrExcluded(wire, a.excluded, a.leaves, book.entries[m].burn)
    ensures m in ExcludedIds(a.excluded) || NullifierIn(book.entries[m].burn.nullifier, Nullifiers(a.leaves))
  {
    hide Decoded, ExcludedIds, Hex32, SameText, Indexed;
    if m !in ExcludedIds(a.excluded) {
      var leaf := Decoded(wire, book.entries[m].burn.wireInput).value.leaves[0];
      assert leaf in a.leaves;
      var i :| 0 <= i < |a.leaves| && a.leaves[i] == leaf;
      assert Nullifiers(a.leaves)[i] == leaf.nullifier;
    }
  }

  /** Once the excluded members no longer wait, the batch spends what the others own. */
  lemma KeptCovers(book: Book, book': Book, batch: Batch, a: Assembled)
    requires batch.id in book'.batches && book'.batches[batch.id] == batch && Settlement.Alike(book, book')
    requires MembersKept(book, batch.members, a.excluded, Nullifiers(a.leaves)) && NoneWaiting(book', a.excluded)
    ensures MembersCovered(book', batch.id, Nullifiers(a.leaves))
  {
    hide NullifierIn, Nullifiers;
    forall m | m in batch.members && m in book'.entries && InBatch(book'.entries[m], batch.id)
      ensures m !in ExcludedIds(a.excluded)
    {
      if m in ExcludedIds(a.excluded) {
        var i := ExcludedAt(a.excluded, m);
      }
    }
  }

  lemma {:induction false} ExcludedAt(excluded: seq<(string, Exclusion)>, m: string) returns (i: nat)
    requires m in ExcludedIds(excluded)
    ensures i < |excluded| && excluded[i].0 == m
  {
    i := |excluded| - 1;
    if excluded[i].0 != m {
      i := ExcludedAt(excluded[..i], m);
    }
  }

  lemma AlikeOwnLeaves(wire: SdkCodecs, a: Book, b: Book)
    requires Settlement.Alike(a, b) && OwnLeaves(wire, a)
    ensures OwnLeaves(wire, b)
  {
    hide Decoded, SameText, Hex32;
  }

  lemma NobodyWaiting(book: Book, excluded: seq<(string, Exclusion)>)
    requires excluded == []
    ensures NoneWaiting(book, excluded)
  {
  }

  lemma NoLongerWaiting(book: Book, vs: seq<(string, Exclusion)>, i: nat)
    requires i < |vs| && NoneWaiting(book, vs[..i])
    ensures NoneWaiting(Next(book, ReturnExcluded(vs[i].0, vs[i].1)), vs[..i + 1])
  {
    var book', so := Next(book, ReturnExcluded(vs[i].0, vs[i].1)), vs[..i + 1];
    forall j | 0 <= j < |so| && so[j].0 in book'.entries
      ensures !Waiting(book'.entries[so[j].0])
    {
      if j < i {
        assert vs[..i][j] == so[j];
      }
    }
  }

  lemma SameWaiting(book: Book, a: seq<(string, Exclusion)>, b: seq<(string, Exclusion)>)
    requires NoneWaiting(book, a) && |a| == |b| && forall i | 0 <= i < |a| :: a[i].0 == b[i].0
    ensures NoneWaiting(book, b)
  {
    hide Waiting;
  }

  lemma ToApplyIs(env: Env, book: Book, before: seq<Obs>, members: seq<string>, r: Result<Assembled, AssembleError>,
      root: Bytes32)
    ensures ToApply(env, book, before, members, r, root) <==>
            && LastRead(before).Some? && LastRead(before).value.spentRoot == root && AssembledOn(env, r, root)
            && (r.Ok? ==> MembersKept(book, members, r.value.excluded, Nullifiers(r.value.leaves)))
  {
    hide LastRead, AssembledOn, MembersKept, Nullifiers;
  }

  lemma ToProveIs(env: Env, book: Book, before: seq<Obs>, id: string, a: Assembled, root: Bytes32)
    ensures ToProve(env, book, before, id, a, root) <==>
            && LastRead(before).Some? && LastRead(before).value.spentRoot == root && a.publicValues.spentRootOld == root
            && PayloadOn(env, a.wire, root) && PayloadSpends(env, a.wire, Nullifiers(a.leaves))
            && MembersCovered(book, id, Nullifiers(a.leaves))
  {
    hide LastRead, PayloadOn, PayloadSpends, MembersCovered, Nullifiers;
  }

  lemma MayRecordIs(env: Env, book: Book, before: seq<Obs>, batch: Batch, a: Assembled, bundle: Bundle, root: Bytes32,
      now: nat)
    ensures MayRecord(env, book, before, batch, a, bundle, root, now) <==>
            && bundle.batchId == batch.id && bundle.nullifiers == Nullifiers(a.leaves)
            && Permitted(env, book, before, Applied(BatchProven(batch.id, bundle, root, now)))
  {
    hide Permitted, Nullifiers;
  }

  lemma AssemblyStepsAre(book: Book, batch: Batch, r: Result<Assembled, AssembleError>, answer: Option<Confirmations>,
      before: seq<Obs>, after: seq<Obs>, stage: Stage)
    requires var first := before + ExclusionSteps(book, ExcludedBy(r), batch.members, answer);
             && first <= after
             && if r.Ok? then ProofSteps(batch, r.value, after[|first|..])
                else stage == Done && after[|first|..] == [Applied(BatchFailed(batch.id, ChainRejected))]
    ensures AssemblySteps(book, batch, r, answer, before, after, stage)
  {
    hide ExclusionSteps, ExcludedBy, ProofSteps;
  }

  lemma AssembledSo(env: Env, r: Result<Assembled, AssembleError>, root: Bytes32)
    requires r.Err? && r.error.AllExcluded? ==> Unchecked(r.error.excluded)
    requires r.Ok? ==> && Unchecked(r.value.excluded) && r.value.publicValues.spentRootOld == root
                       && PayloadOn(env, r.value.wire, root)
                         && PayloadSpends(env, r.value.wire, Nullifiers(r.value.leaves))
    ensures AssembledOn(env, r, root)
  {
    hide Unchecked, PayloadOn, PayloadSpends, Nullifiers;
  }

  /** What a run of stages has done to the batch so far. */
  ghost predicate Underway(max: nat, book: Book, before: seq<Obs>, book': Book, after: seq<Obs>, id: string,
      stage: Stage)
  {
    && before <= after
    && id in book.batches && book'.batches.Keys == book.batches.Keys
    && (forall b | b in book.batches && b != id :: book'.batches[b] == book.batches[b])
    && Ends(before, id) <= Ends(after, id) <= Ends(before, id) + 1
    && (Ends(after, id) > Ends(before, id) ==> after != [] && IsEnd(after[|after| - 1], id) && stage == Done)
    && (stage == Done ==> Ends(after, id) > Ends(before, id) || LeftProven(after, id))
    && book.batches[id].rebases <= book'.batches[id].rebases
    && (book'.batches[id].rebases == book.batches[id].rebases || book'.batches[id].rebases <= max)
  }

  lemma StagedStarts(max: nat, book: Book, before: seq<Obs>, book': Book, after: seq<Obs>, id: string, stage: Stage)
    requires Staged(max, book, before, book', after, id, stage)
    ensures Underway(max, book, before, book', after, id, stage)
    ensures id in book'.batches && (stage == Rebase ==> book'.batches[id].rebases <= max)
  {
    hide Ends, IsEnd;
  }

  lemma StagedMore(max: nat, book: Book, t0: seq<Obs>, book1: Book, t1: seq<Obs>, book2: Book, t2: seq<Obs>,
      id: string, stage: Stage)
    requires Underway(max, book, t0, book1, t1, id, Rebase) && Staged(max, book1, t1, book2, t2, id, stage)
    ensures Underway(max, book, t0, book2, t2, id, stage)
    ensures id in book1.batches && id in book2.batches
    ensures stage == Rebase ==> book1.batches[id].rebases < book2.batches[id].rebases <= max
  {
    hide Ends, IsEnd;
  }

  lemma UnderwayIs(max: nat, book: Book, before: seq<Obs>, book': Book, after: seq<Obs>, id: string, stage: Stage)
    requires Underway(max, book, before, book', after, id, stage)
    ensures before <= after && id in book.batches && book'.batches.Keys == book.batches.Keys
    ensures forall b | b in book.batches && b != id :: book'.batches[b] == book.batches[b]
    ensures Ends(after, id) <= Ends(before, id) + 1
    ensures Ends(after, id) > Ends(before, id) ==> after != [] && IsEnd(after[|after| - 1], id)
    ensures stage == Done ==> Ends(after, id) > Ends(before, id) || LeftProven(after, id)
    ensures book.batches[id].rebases <= book'.batches[id].rebases
    ensures book'.batches[id].rebases == book.batches[id].rebases || book'.batches[id].rebases <= max
  {
    hide Ends, IsEnd;
  }

  lemma InVain(batch: Batch, o: Obs)
    requires match o
             case Unread(_) => true
             case Read(acc) => !AllReleased(batch, acc) && batch.ChainsOnto(acc.spentRoot)
             case _ => false
    ensures Inconclusive(batch, o)
  {
  }

  lemma Settles(max: nat, batch: Batch, acc: Accum, before: seq<Obs>, after: seq<Obs>)
    requires AllReleased(batch, acc) && before < after && after[|after| - 1].Applied?
    requires match after[|after| - 1].event
             case BatchSettled(b, _) => b == batch.id
             case BatchFailed(b, kind) => b == batch.id && kind == ChainRejected
             case _ => false
    ensures Concluded(max, batch, acc, after[|before|..], Done)
  {
    hide AllReleased;
  }

  lemma RebasesOrFails(max: nat, batch: Batch, before: seq<Obs>, after: seq<Obs>, stage: Stage)
    requires stage == Rebase <==> batch.CanRebase(max)
    requires after == before
               + [Applied(if stage == Rebase then BatchRebased(batch.id) else BatchFailed(batch.id, ChainRejected))]
    ensures RebasedOrFailed(max, batch, after[|before|..], stage)
  {
  }

  lemma Overtaken(max: nat, batch: Batch, acc: Accum, rest: seq<Obs>, stage: Stage)
    requires !AllReleased(batch, acc) && !batch.ChainsOnto(acc.spentRoot) && RebasedOrFailed(max, batch, rest, stage)
    ensures Concluded(max, batch, acc, rest, stage)
  {
  }

  lemma FoundAt(max: nat, batch: Batch, before: seq<Obs>, after: seq<Obs>, looks: nat, stage: Stage)
    requires looks < SETTLEMENT_CHECKS && |before| + looks < |after| && before <= after
    requires AllInVain(batch, after[|before|..|before| + looks])
    requires after[|before| + looks].Read?
    requires Concluded(max, batch, after[|before| + looks].acc, after[|before| + looks + 1..], stage)
    ensures Awaited(max, batch, before, after, looks, stage)
  {
    hide AllInVain, Concluded;
  }

  lemma NeverFound(max: nat, batch: Batch, before: seq<Obs>, looked: seq<Obs>, after: seq<Obs>)
    requires before <= looked && |looked| == |before| + SETTLEMENT_CHECKS
    requires AllInVain(batch, looked[|before|..])
    requires after == looked + [Applied(BatchFailed(batch.id, SubmissionFailed))]
    ensures Awaited(max, batch, before, after, SETTLEMENT_CHECKS, Done)
  {
    hide AllInVain, Concluded;
    assert after[|before|..|before| + SETTLEMENT_CHECKS] == looked[|before|..];
  }

  lemma NoneInVain(batch: Batch, looks: seq<Obs>)
    requires looks == []
    ensures AllInVain(batch, looks)
  {
  }

  lemma OnceMoreInVain(batch: Batch, looks: seq<Obs>, o: Obs)
    requires AllInVain(batch, looks) && Inconclusive(batch, o)
    ensures AllInVain(batch, looks + [o])
  {
    hide Inconclusive;
  }

  lemma VerdictsAre(book: Book, excluded: seq<(string, Exclusion)>, members: seq<string>, answer: Option<Confirmations>)
    ensures var released := ReleasedAmong(excluded, BurnsOf(book, members));
            && Verdicts(book, excluded, members, answer) == Replaced(excluded, Collected(JudgeAll(released, answer)))
            && Asking(book, excluded, members, answer) == if AskedOf(released) == [] then [] else [Asked(answer)]
  {
  }

  lemma StepsAre(book: Book, excluded: seq<(string, Exclusion)>, members: seq<string>, answer: Option<Confirmations>)
    ensures ExclusionSteps(book, excluded, members, answer)
         == Asking(book, excluded, members, answer) + Exclusions(Verdicts(book, excluded, members, answer))
  {
  }

  lemma ReusedSpends(book: Book, earlier: Bundle, nullifiers: seq<Bytes32>, root: Bytes32)
    requires exists b :: LatestReusable(book, nullifiers, root, b) && book.batches[b].bundle == Some(earlier)
    ensures earlier.nullifiers == nullifiers
    ensures HasReusable(book, nullifiers, root)
  {
  }

  lemma ProofRecorded(batch: Batch, a: Assembled, bundle: Bundle, start: seq<Obs>, before: seq<Obs>, after: seq<Obs>,
      now: nat)
    requires bundle.nullifiers == Nullifiers(a.leaves) && (before == start || before == start + [ProofAsked(a.wire)])
    requires before + [Applied(BatchProven(batch.id, bundle, a.publicValues.spentRootOld, now))] <= after
    ensures start <= after && ProofSteps(batch, a, after[|start|..])
  {
    hide Nullifiers;
    assert after[|before|] == Applied(BatchProven(batch.id, bundle, a.publicValues.spentRootOld, now));
    assert RecordsProof(batch, a, after[|before|..]);
    if before != start {
      assert after[|start|..][1..] == after[|before|..];
    }
  }

  lemma ProofRefused(batch: Batch, a: Assembled, start: seq<Obs>, after: seq<Obs>)
    requires after == start + [ProofAsked(a.wire)] + [Applied(BatchFailed(batch.id, ProvingFailed))]
    ensures start <= after && ProofSteps(batch, a, after[|start|..])
  {
    hide Nullifiers;
    assert after[|start|..][1..] == [Applied(BatchFailed(batch.id, ProvingFailed))];
  }

  lemma OwnBundleIs(batch: Batch)
    requires OwnBundle(batch) && batch.bundle.Some?
    ensures batch.bundle.value.batchId == batch.id
  {
  }

  lemma LeftIs(before: seq<Obs>, bundle: Bundle)
    ensures LeftProven(before + [Submit(bundle, Skipped)], bundle.batchId)
  {
  }

  lemma StagedGrows(max: nat, book: Book, before: seq<Obs>, book': Book, after: seq<Obs>, id: string, stage: Stage)
    requires Staged(max, book, before, book', after, id, stage)
    ensures before <= after
  {
  }

  lemma OneTransactionAsked(released: seq<Released>, answer: Option<Confirmations>)
    requires OneTransaction(JudgeAll(released, answer)).Some?
    ensures AskedOf(released) != []
  {
  }

  lemma ReleasesSettle(env: Env, book: Book, batch: Batch, before: seq<Obs>, acc: Accum, answer: Confirmations,
      txid: string)
    requires batch.id in book.batches && book.batches[batch.id] == batch
    requires LastRead(before) == Some(acc) && AllReleased(batch, acc) && MembersConfirmed(book, batch, answer, txid)
    ensures Permitted(env, book, before + [Asked(Some(answer))], Applied(BatchSettled(batch.id, txid)))
  {
    hide MembersConfirmed, AllReleased, LastRead, Lawful, Replay, Ends;
    TracePush(env, book, before, Asked(Some(answer)), "");
  }

  lemma SettledStages(max: nat, book: Book, before: seq<Obs>, after: seq<Obs>, id: string, txid: string)
    requires id in book.batches && after == before + [Applied(BatchSettled(id, txid))]
    requires forall b :: Ends(after, b) == Ends(before, b) + if IsEnd(Applied(BatchSettled(id, txid)), b) then 1 else 0
    ensures Staged(max, book, before, Next(book, BatchSettled(id, txid)), after, id, Done)
  {
    hide Ends, MembersTake;
  }

  lemma SettlesMembers(book: Book, book': Book, id: string, txid: string)
    requires id in book.batches && Does(book, BatchSettled(id, txid), book')
    ensures MembersMove(book, book', id, Settled, Some(txid))
  {
    hide MembersMove;
  }

  lemma RebasePermitted(env: Env, book: Book, before: seq<Obs>, batch: Batch)
    requires batch.id in book.batches && book.batches[batch.id] == batch
    requires batch.CanRebase(env.maxRebases) && RootMoved(book, before, batch.id)
    ensures Permitted(env, book, before, Applied(BatchRebased(batch.id)))
  {
    hide RootMoved;
  }

  lemma RebasedStages(max: nat, book: Book, before: seq<Obs>, after: seq<Obs>, batch: Batch)
    requires batch.id in book.batches && book.batches[batch.id] == batch && batch.CanRebase(max)
    requires after == before + [Applied(BatchRebased(batch.id))]
    requires forall b :: Ends(after, b) == Ends(before, b) + if IsEnd(Applied(BatchRebased(batch.id)), b) then 1 else 0
    ensures Staged(max, book, before, Next(book, BatchRebased(batch.id)), after, batch.id, Rebase)
  {
    hide Ends, MembersTake;
  }

  lemma QuietHas(book: Book, before: seq<Obs>, book': Book, after: seq<Obs>, id: string)
    requires Quiet(book, before, book', after)
    ensures id in book.batches <==> id in book'.batches
  {
  }

  lemma AlikeSelf(a: Book)
    ensures Settlement.Alike(a, a)
  {
  }

  lemma AlikeOnce(a: Book, b: Book, c: Book)
    requires Settlement.Alike(a, b)
    ensures Settlement.Alike(b, c) ==> Settlement.Alike(a, c)
  {
  }

  lemma ExclusionKeeps(book: Book, id: string, why: Exclusion)
    ensures var book' := Next(book, ReturnExcluded(id, why));
            book'.batches == book.batches && Settlement.Alike(book, book')
  {
    NextAlike(book, ReturnExcluded(id, why));
  }

  lemma ExclusionBacked(env: Env, first: Book, book: Book, trace: seq<Obs>, vs: seq<(string, Exclusion)>, i: nat)
    requires Settlement.Alike(first, book) && Backed(first, LastAnswer(trace), vs) && i < |vs|
    ensures Permitted(env, book, trace, Applied(ReturnExcluded(vs[i].0, vs[i].1)))
  {
    hide LastAnswer, Confirms;
    assert vs[i] in vs;
  }
}
