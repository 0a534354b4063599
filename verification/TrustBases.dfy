/**
 * Trust bases, the canonical document their hash commits to, and the quorum check of a certificate.
 */
module TrustBases {
  import opened ByteWords
  import opened Wrappers
  import opened SparseTree
  import opened Cbor
  import opened SdkCbor
  import opened ReturnCore

  datatype Node = Node(nodeId: Bytes, signingKey: Bytes, stake: u64)

  datatype TrustBase = TrustBase(
    version: u64, networkId: u16, epoch: u64, epochStartRound: u64, nodes: seq<Node>, quorumThreshold: u64)

  // ----- the canonical document

  function NodeItem(e: Encoder, n: Node): Bytes {
    e.items([e.text(n.nodeId), e.byteString(n.signingKey), e.uint(n.stake)])
  }

  function NodeItems(e: Encoder, nodes: seq<Node>): (items: seq<Bytes>)
    ensures |items| == |nodes|
    ensures forall i | 0 <= i < |nodes| :: items[i] == NodeItem(e, nodes[i])
  {
    if nodes == [] then [] else NodeItems(e, nodes[..|nodes| - 1]) + [NodeItem(e, nodes[|nodes| - 1])]
  }

  /** The document as it is built with the SDK's writer. */
  function CanonicalDoc(e: Encoder, tb: TrustBase): Bytes {
    e.items([e.uint(tb.version), e.uint(tb.networkId), e.uint(tb.epoch), e.uint(tb.epochStartRound),
             e.items(NodeItems(e, tb.nodes)), e.uint(tb.quorumThreshold)])
  }

  function CanonicalHash(h: Hash, e: Encoder, tb: TrustBase): Bytes32 {
    h.digest(CanonicalDoc(e, tb))
  }

  // ----- and its bytes when the writer is canonical

  function NodeDoc(n: Node): Bytes {
    ArrayHeader(3) + (Text(n.nodeId) + (ByteString(n.signingKey) + Uint(n.stake)))
  }

  function NodeDocs(nodes: seq<Node>): Bytes {
    if nodes == [] then [] else NodeDoc(nodes[0]) + NodeDocs(nodes[1..])
  }

  function TrustDoc(tb: TrustBase): Bytes {
    ArrayHeader(6) + (Uint(tb.version) + (Uint(tb.networkId) + (Uint(tb.epoch) + (Uint(tb.epochStartRound)
      + (ArrayHeader(|tb.nodes|) + (NodeDocs(tb.nodes) + Uint(tb.quorumThreshold)))))))
  }

  /** The lengths a 64-bit machine can hold. */
  predicate Sized(tb: TrustBase) {
    && |tb.nodes| < ARG_LIMIT
    && forall n | n in tb.nodes :: |n.nodeId| < ARG_LIMIT && |n.signingKey| < ARG_LIMIT
  }

  lemma StringPrefixFree(major: nat, a: Bytes, r: Bytes, b: Bytes, s: Bytes)
    requires major < 8 && |a| < ARG_LIMIT && |b| < ARG_LIMIT
    requires Head(major, |a|) + (a + r) == Head(major, |b|) + (b + s)
    ensures a == b && r == s
  {
    hide Head;
    HeadPrefixFree(major, |a|, a + r, major, |b|, b + s);
    assert a == (a + r)[..|a|] && b == (b + s)[..|b|];
    assert r == (a + r)[|a|..] && s == (b + s)[|b|..];
  }

  lemma NodePrefixFree(a: Node, r: Bytes, b: Node, s: Bytes)
    requires |a.nodeId| < ARG_LIMIT && |a.signingKey| < ARG_LIMIT && |b.nodeId| < ARG_LIMIT
               && |b.signingKey| < ARG_LIMIT
    requires NodeDoc(a) + r == NodeDoc(b) + s
    ensures a == b && r == s
  {
    hide Head;
    var a2, b2 := Uint(a.stake) + r, Uint(b.stake) + s;
    var a1, b1 := Head(2, |a.signingKey|) + (a.signingKey + a2), Head(2, |b.signingKey|) + (b.signingKey + b2);
    assert NodeDoc(a) + r == ArrayHeader(3) + (Head(3, |a.nodeId|) + (a.nodeId + a1));
    assert NodeDoc(b) + s == ArrayHeader(3) + (Head(3, |b.nodeId|) + (b.nodeId + b1));
    HeadPrefixFree(4, 3, Head(3, |a.nodeId|) + (a.nodeId + a1), 4, 3, Head(3, |b.nodeId|) + (b.nodeId + b1));
    StringPrefixFree(3, a.nodeId, a1, b.nodeId, b1);
    StringPrefixFree(2, a.signingKey, a2, b.signingKey, b2);
    HeadPrefixFree(0, a.stake, r, 0, b.stake, s);
  }

  lemma {:induction false} NodesPrefixFree(a: seq<Node>, r: Bytes, b: seq<Node>, s: Bytes)
    requires |a| == |b|
    requires forall n | n in a + b :: |n.nodeId| < ARG_LIMIT && |n.signingKey| < ARG_LIMIT
    requires NodeDocs(a) + r == NodeDocs(b) + s
    ensures a == b && r == s
  {
    hide NodeDoc;
    if a != [] {
      assert a[0] in a + b && b[0] in a + b;
      assert NodeDocs(a) + r == NodeDoc(a[0]) + (NodeDocs(a[1..]) + r);
      assert NodeDocs(b) + s == NodeDoc(b[0]) + (NodeDocs(b[1..]) + s);
      NodePrefixFree(a[0], NodeDocs(a[1..]) + r, b[0], NodeDocs(b[1..]) + s);
      forall n | n in a[1..] + b[1..]
        ensures n in a + b
      {
      }
      NodesPrefixFree(a[1..], r, b[1..], s);
      assert a == [a[0]] + a[1..] && b == [b[0]] + b[1..];
    } else {
      assert NodeDocs(a) + r == r && NodeDocs(b) + s == s;
    }
  }

  lemma TrustDocInjective(a: TrustBase, b: TrustBase)
    requires Sized(a) && Sized(b) && TrustDoc(a) == TrustDoc(b)
    ensures a == b
  {
    hide Head, NodeDocs;
    var a6, b6 := NodeDocs(a.nodes) + Uint(a.quorumThreshold), NodeDocs(b.nodes) + Uint(b.quorumThreshold);
    var a5, b5 := ArrayHeader(|a.nodes|) + a6, ArrayHeader(|b.nodes|) + b6;
    var a4, b4 := Uint(a.epochStartRound) + a5, Uint(b.epochStartRound) + b5;
    var a3, b3 := Uint(a.epoch) + a4, Uint(b.epoch) + b4;
    var a2, b2 := Uint(a.networkId) + a3, Uint(b.networkId) + b3;
    HeadPrefixFree(4, 6, Uint(a.version) + a2, 4, 6, Uint(b.version) + b2);
    HeadPrefixFree(0, a.version, a2, 0, b.version, b2);
    HeadPrefixFree(0, a.networkId, a3, 0, b.networkId, b3);
    HeadPrefixFree(0, a.epoch, a4, 0, b.epoch, b4);
    HeadPrefixFree(0, a.epochStartRound, a5, 0, b.epochStartRound, b5);
    HeadPrefixFree(4, |a.nodes|, a6, 4, |b.nodes|, b6);
    NodesPrefixFree(a.nodes, Uint(a.quorumThreshold), b.nodes, Uint(b.quorumThreshold));
    assert Uint(a.quorumThreshold) + [] == Uint(b.quorumThreshold) + [];
    HeadPrefixFree(0, a.quorumThreshold, [], 0, b.quorumThreshold, []);
  }

  lemma Join3(a: Bytes, b: Bytes, c: Bytes)
    ensures Joined([a, b, c]) == a + (b + c)
  {
    JoinedCons(a, [b, c]);
    JoinedCons(b, [c]);
    JoinedCons(c, []);
    assert [a] + [b, c] == [a, b, c] && [b] + [c] == [b, c] && [c] + [] == [c];
    assert c + Joined([]) == c;
  }

  lemma Join6(a: Bytes, b: Bytes, c: Bytes, d: Bytes, e: Bytes, f: Bytes)
    ensures Joined([a, b, c, d, e, f]) == a + (b + (c + (d + (e + f))))
  {
    hide Joined;
    JoinedCons(a, [b, c, d, e, f]);
    JoinedCons(b, [c, d, e, f]);
    JoinedCons(c, [d, e, f]);
    assert [a] + [b, c, d, e, f] == [a, b, c, d, e, f] && [b] + [c, d, e, f] == [b, c, d, e, f];
    assert [c] + [d, e, f] == [c, d, e, f];
    Join3(d, e, f);
  }

  lemma NodeItemIs(e: Encoder, n: Node)
    requires CanonicalEncoder(e) && |n.nodeId| < ARG_LIMIT && |n.signingKey| < ARG_LIMIT
    ensures NodeItem(e, n) == NodeDoc(n)
  {
    hide Text, ByteString, Uint, ArrayHeader, Joined;
    Join3(Text(n.nodeId), ByteString(n.signingKey), Uint(n.stake));
  }

  lemma {:induction false} NodeItemsJoin(e: Encoder, nodes: seq<Node>, items: seq<Bytes>)
    requires CanonicalEncoder(e) && |items| == |nodes|
    requires forall i | 0 <= i < |nodes| ::
               items[i] == NodeItem(e, nodes[i]) && |nodes[i].nodeId| < ARG_LIMIT && |nodes[i].signingKey| < ARG_LIMIT
    ensures Joined(items) == NodeDocs(nodes)
  {
    hide NodeItem, NodeDoc, CanonicalEncoder;
    if nodes != [] {
      NodeItemIs(e, nodes[0]);
      NodeItemsJoin(e, nodes[1..], items[1..]);
    }
  }

  lemma WritesUint(e: Encoder, n: nat)
    requires CanonicalEncoder(e) && n < ARG_LIMIT
    ensures e.uint(n) == Uint(n)
  {
    hide Uint, ByteString, Text, ArrayItem;
  }

  lemma WritesItems(e: Encoder, items: seq<Bytes>)
    requires CanonicalEncoder(e) && |items| < ARG_LIMIT
    ensures e.items(items) == ArrayHeader(|items|) + Joined(items)
  {
    hide Uint, ByteString, Text, ArrayHeader, Joined;
  }

  lemma DocIs(e: Encoder, tb: TrustBase)
    requires CanonicalEncoder(e) && Sized(tb)
    ensures CanonicalDoc(e, tb) == TrustDoc(tb)
  {
    hide Uint, ArrayHeader, Joined, NodeDocs, NodeItems, CanonicalEncoder;
    var items := NodeItems(e, tb.nodes);
    forall i | 0 <= i < |tb.nodes|
      ensures |tb.nodes[i].nodeId| < ARG_LIMIT && |tb.nodes[i].signingKey| < ARG_LIMIT
    {
      assert tb.nodes[i] in tb.nodes;
    }
    NodeItemsJoin(e, tb.nodes, items);
    WritesItems(e, items);
    WritesUint(e, tb.version);
    WritesUint(e, tb.networkId);
    WritesUint(e, tb.epoch);
    WritesUint(e, tb.epochStartRound);
    WritesUint(e, tb.quorumThreshold);
    var nodes, last := ArrayHeader(|tb.nodes|) + NodeDocs(tb.nodes), Uint(tb.quorumThreshold);
    var fields := [Uint(tb.version), Uint(tb.networkId), Uint(tb.epoch), Uint(tb.epochStartRound), nodes, last];
    assert CanonicalDoc(e, tb) == e.items(fields);
    WritesItems(e, fields);
    Join6(fields[0], fields[1], fields[2], fields[3], nodes, last);
    assert nodes + last == ArrayHeader(|tb.nodes|) + (NodeDocs(tb.nodes) + last);
  }

  /** The document determines the trust base, so one hash means one trust base unless SHA-256
      collides on the two documents. */
  lemma DocInjective(e: Encoder, a: TrustBase, b: TrustBase)
    requires CanonicalEncoder(e) && Sized(a) && Sized(b) && CanonicalDoc(e, a) == CanonicalDoc(e, b)
    ensures a == b
  {
    hide CanonicalDoc, TrustDoc, Sized, CanonicalEncoder;
    DocIs(e, a);
    DocIs(e, b);
    TrustDocInjective(a, b);
  }

  // ----- the quorum of a certificate

  datatype VerifyError =
    | InvalidTrustBase | SealNetworkMismatch | SealRootMismatch | QuorumNotMet | PathInvalid
    | NetworkMismatch | InvalidMintLockScript | Genesis | Transfer

  /** What the quorum check reads of a certificate; `sealDigest` is what the signatures sign. */
  datatype Certificate = Certificate(
    networkId: u16, sealHash: Bytes, computedSealHash: Option<Bytes>, sealDigest: Bytes,
    signatures: seq<(Bytes, Bytes)>, inputHash: Bytes)

  /** Signature verification, arbitrary. */
  datatype Signatures = Signatures(verifies: (Bytes, Bytes, Bytes) -> bool)

  function SigningKey(nodes: seq<Node>, nodeId: Bytes): Option<Bytes> {
    if nodes == [] then None
    else if nodes[0].nodeId == nodeId then Some(nodes[0].signingKey)
    else SigningKey(nodes[1..], nodeId)
  }

  /** The trust base keys behind one signature: its node's key, when the signature is that key's. */
  function KeyOf(sigs: Signatures, tb: TrustBase, digest: Bytes, entry: (Bytes, Bytes)): set<Bytes> {
    match SigningKey(tb.nodes, entry.0)
    case Some(key) => if sigs.verifies(entry.1, digest, key) then {key} else {}
    case None => {}
  }

  /** The distinct trust base keys with at least one valid signature. */
  function ValidKeys(sigs: Signatures, tb: TrustBase, digest: Bytes, entries: seq<(Bytes, Bytes)>): set<Bytes> {
    if entries == [] then {}
    else ValidKeys(sigs, tb, digest, entries[..|entries| - 1]) + KeyOf(sigs, tb, digest, entries[|entries| - 1])
  }

  function TrustKeys(nodes: seq<Node>): set<Bytes> {
    set n | n in nodes :: n.signingKey
  }

  function VerifyUnicityCertificate(sigs: Signatures, tb: TrustBase, cert: Certificate): Result<Bytes32, VerifyError> {
    if cert.networkId != tb.networkId then Err(SealNetworkMismatch)
    else if cert.computedSealHash != Some(cert.sealHash) then Err(SealRootMismatch)
    else if |ValidKeys(sigs, tb, cert.sealDigest, cert.signatures)| < tb.quorumThreshold then Err(QuorumNotMet)
    else if |cert.inputHash| != 32 then Err(PathInvalid)
    else Ok(cert.inputHash)
  }

  /** The counting loop, with its two early exits: it accepts exactly when enough distinct keys
      signed, whatever the order, the repetitions, the unknown nodes and the shared keys. */
  method CheckUnicityCertificate(sigs: Signatures, tb: TrustBase, cert: Certificate)
    returns (r: Result<Bytes32, VerifyError>)
    ensures r == VerifyUnicityCertificate(sigs, tb, cert)
  {
    hide SigningKey, ValidKeys, Distinct, SeqSet;
    if cert.networkId != tb.networkId {
      return Err(SealNetworkMismatch);
    }
    if cert.computedSealHash != Some(cert.sealHash) {
      return Err(SealRootMismatch);
    }
    var counted: set<Bytes> := {};
    var countedKeys: seq<Bytes> := [];
    NoneCounted(sigs, tb, cert.sealDigest);
    assert cert.signatures[..0] == [];
    for i := 0 to |cert.signatures|
      invariant |counted| == |countedKeys| && Distinct(countedKeys)
      invariant SeqSet(countedKeys) == ValidKeys(sigs, tb, cert.sealDigest, cert.signatures[..i])
      invariant forall id | id in counted :: SigningKey(tb.nodes, id).Some?
                  && SigningKey(tb.nodes, id).value in countedKeys
    {
      ValidKeysMore(sigs, tb, cert.sealDigest, cert.signatures, i);
      InKeys(countedKeys);
      var (nodeId, signature) := cert.signatures[i];
      if nodeId in counted {
        continue;
      }
      var key := SigningKey(tb.nodes, nodeId);
      if key.None? || key.value in countedKeys {
        continue;
      }
      if sigs.verifies(signature, cert.sealDigest, key.value) {
        counted := counted + {nodeId};
        SeqSetPush(countedKeys, key.value);
        DistinctLast(countedKeys, key.value);
        countedKeys := countedKeys + [key.value];
      }
    }
    assert cert.signatures[..|cert.signatures|] == cert.signatures;
    DistinctSize(countedKeys);
    if |counted| < tb.quorumThreshold {
      return Err(QuorumNotMet);
    }
    r := if |cert.inputHash| != 32 then Err(PathInvalid) else Ok(cert.inputHash);
  }

  lemma NoneCounted(sigs: Signatures, tb: TrustBase, digest: Bytes)
    ensures Distinct<Bytes>([]) && SeqSet<Bytes>([]) == ValidKeys(sigs, tb, digest, [])
  {
  }

  lemma ValidKeysMore(sigs: Signatures, tb: TrustBase, digest: Bytes, entries: seq<(Bytes, Bytes)>, i: nat)
    requires i < |entries|
    ensures ValidKeys(sigs, tb, digest, entries[..i + 1])
         == ValidKeys(sigs, tb, digest, entries[..i]) + KeyOf(sigs, tb, digest, entries[i])
  {
    hide KeyOf;
    assert entries[..i + 1][..i] == entries[..i];
  }

  lemma InKeys(keys: seq<Bytes>)
    ensures forall k :: k in keys <==> k in SeqSet(keys)
  {
  }

  lemma {:induction false} ValidKeysMeaning(sigs: Signatures, tb: TrustBase, digest: Bytes,
      entries: seq<(Bytes, Bytes)>, key: Bytes)
    ensures key in ValidKeys(sigs, tb, digest, entries)
       <==> exists e :: e in entries && SigningKey(tb.nodes, e.0) == Some(key) && sigs.verifies(e.1, digest, key)
  {
    if entries != [] {
      var init, last := entries[..|entries| - 1], entries[|entries| - 1];
      ValidKeysMeaning(sigs, tb, digest, init, key);
      assert forall e :: e in entries <==> e in init || e == last;
    }
  }

  lemma {:induction false} KnownKey(nodes: seq<Node>, id: Bytes)
    ensures SigningKey(nodes, id).Some? ==> SigningKey(nodes, id).value in TrustKeys(nodes)
  {
    if nodes != [] {
      KnownKey(nodes[1..], id);
      assert nodes[0] in nodes;
      assert forall n | n in nodes[1..] :: n in nodes;
    }
  }

  lemma {:induction false} ValidKeysTrusted(sigs: Signatures, tb: TrustBase, digest: Bytes,
      entries: seq<(Bytes, Bytes)>)
    ensures ValidKeys(sigs, tb, digest, entries) <= TrustKeys(tb.nodes)
  {
    if entries != [] {
      ValidKeysTrusted(sigs, tb, digest, entries[..|entries| - 1]);
      KnownKey(tb.nodes, entries[|entries| - 1].0);
    }
  }

  /** The order and repetition of the signatures do not matter. */
  lemma QuorumOrderFree(sigs: Signatures, tb: TrustBase, a: Certificate, signatures: seq<(Bytes, Bytes)>)
    requires SeqSet(a.signatures) == SeqSet(signatures)
    ensures VerifyUnicityCertificate(sigs, tb, a.(signatures := signatures)) == VerifyUnicityCertificate(sigs, tb, a)
  {
    forall key
      ensures key in ValidKeys(sigs, tb, a.sealDigest, a.signatures) <==>
              key in ValidKeys(sigs, tb, a.sealDigest, signatures)
    {
      ValidKeysMeaning(sigs, tb, a.sealDigest, a.signatures, key);
      ValidKeysMeaning(sigs, tb, a.sealDigest, signatures, key);
      assert forall e :: e in a.signatures <==> e in SeqSet(a.signatures);
      assert forall e :: e in signatures <==> e in SeqSet(signatures);
    }
    assert ValidKeys(sigs, tb, a.sealDigest, a.signatures) == ValidKeys(sigs, tb, a.sealDigest, signatures);
  }

  /** Two certificates accepted under one trust base of n distinct keys share at least
      2 * threshold - n signing keys. */
  lemma QuorumsOverlap(sigs: Signatures, tb: TrustBase, a: Certificate, b: Certificate)
    requires VerifyUnicityCertificate(sigs, tb, a).Ok? && VerifyUnicityCertificate(sigs, tb, b).Ok?
    ensures var va, vb := ValidKeys(sigs, tb, a.sealDigest, a.signatures),
              ValidKeys(sigs, tb, b.sealDigest, b.signatures);
            |va * vb| >= 2 * tb.quorumThreshold - |TrustKeys(tb.nodes)|
  {
    var va, vb := ValidKeys(sigs, tb, a.sealDigest, a.signatures), ValidKeys(sigs, tb, b.sealDigest, b.signatures);
    ValidKeysTrusted(sigs, tb, a.sealDigest, a.signatures);
    ValidKeysTrusted(sigs, tb, b.sealDigest, b.signatures);
    assert |va + vb| == |va| + |vb| - |va * vb|;
    SubsetSize(va + vb, TrustKeys(tb.nodes));
  }

  lemma SubsetSize<T>(a: set<T>, b: set<T>)
    requires a <= b
    ensures |a| <= |b|
  {
    assert b == a + (b - a);
  }

  // ----- the quorum, said of nodes and signatures alone

  /** The node a signature's id refers to. */
  ghost predicate FirstNode(nodes: seq<Node>, id: Bytes, i: nat) {
    i < |nodes| && nodes[i].nodeId == id && forall j | 0 <= j < i :: nodes[j].nodeId != id
  }

  /** A listed signature over the seal, by the node it names, is valid under this key of that node. */
  ghost predicate Signed(sigs: Signatures, tb: TrustBase, cert: Certificate, e: (Bytes, Bytes), i: nat, key: Bytes) {
    && e in cert.signatures && FirstNode(tb.nodes, e.0, i)
    && tb.nodes[i].signingKey == key && sigs.verifies(e.1, cert.sealDigest, key)
  }

  ghost function Signers(sigs: Signatures, tb: TrustBase, cert: Certificate): set<Bytes> {
    set n | n in tb.nodes && exists e, i: nat :: Signed(sigs, tb, cert, e, i, n.signingKey) :: n.signingKey
  }

  /** At least the threshold of distinct keys signed the seal over this root, on the right network. */
  ghost predicate Certifies(sigs: Signatures, tb: TrustBase, cert: Certificate, root: Bytes32) {
    && cert.networkId == tb.networkId
    && cert.computedSealHash == Some(cert.sealHash)
    && |Signers(sigs, tb, cert)| >= tb.quorumThreshold
    && cert.inputHash == root
  }

  lemma {:induction false} KeyOfFirst(nodes: seq<Node>, id: Bytes)
    ensures SigningKey(nodes, id).None? ==> forall n | n in nodes :: n.nodeId != id
    ensures SigningKey(nodes, id).Some? ==>
              exists i: nat :: FirstNode(nodes, id, i) && nodes[i].signingKey == SigningKey(nodes, id).value
  {
    if nodes != [] && nodes[0].nodeId == id {
      assert FirstNode(nodes, id, 0);
    } else if nodes != [] {
      KeyOfFirst(nodes[1..], id);
      if SigningKey(nodes, id).Some? {
        var i: nat :| FirstNode(nodes[1..], id, i) && nodes[1..][i].signingKey == SigningKey(nodes, id).value;
        assert forall j | 0 < j <= i :: nodes[j] == nodes[1..][j - 1];
        assert FirstNode(nodes, id, i + 1);
      }
    }
  }

  lemma KeyIs(nodes: seq<Node>, id: Bytes, i: nat)
    requires FirstNode(nodes, id, i)
    ensures SigningKey(nodes, id) == Some(nodes[i].signingKey)
  {
    KeyOfFirst(nodes, id);
    assert nodes[i] in nodes;
    var j: nat :| FirstNode(nodes, id, j) && nodes[j].signingKey == SigningKey(nodes, id).value;
  }

  lemma SignersAre(sigs: Signatures, tb: TrustBase, cert: Certificate)
    ensures ValidKeys(sigs, tb, cert.sealDigest, cert.signatures) == Signers(sigs, tb, cert)
  {
    hide SigningKey, ValidKeys;
    forall key
      ensures key in ValidKeys(sigs, tb, cert.sealDigest, cert.signatures) <==> key in Signers(sigs, tb, cert)
    {
      ValidKeysMeaning(sigs, tb, cert.sealDigest, cert.signatures, key);
      if key in ValidKeys(sigs, tb, cert.sealDigest, cert.signatures) {
        var e :| e in cert.signatures && SigningKey(tb.nodes, e.0) == Some(key)
          && sigs.verifies(e.1, cert.sealDigest, key);
        KeyOfFirst(tb.nodes, e.0);
        var i: nat :| FirstNode(tb.nodes, e.0, i) && tb.nodes[i].signingKey == key;
        NodeAt(tb.nodes, e.0, i);
        assert Signed(sigs, tb, cert, e, i, tb.nodes[i].signingKey);
      }
      if key in Signers(sigs, tb, cert) {
        var e, i: nat :| Signed(sigs, tb, cert, e, i, key);
        KeyIs(tb.nodes, e.0, i);
      }
    }
  }

  lemma NodeAt(nodes: seq<Node>, id: Bytes, i: nat)
    requires FirstNode(nodes, id, i)
    ensures i < |nodes| && nodes[i] in nodes
  {
  }

  /** A certificate is accepted for a root if and only if the trust base certifies the root by it: a
      quorum of exactly the threshold is enough, and one key less is not. */
  lemma CertifiesIff(sigs: Signatures, tb: TrustBase, cert: Certificate, root: Bytes32)
    ensures VerifyUnicityCertificate(sigs, tb, cert) == Ok(root) <==> Certifies(sigs, tb, cert, root)
  {
    hide ValidKeys, Signers;
    SignersAre(sigs, tb, cert);
  }
}
