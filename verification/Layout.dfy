/**
 * The guest's wire format byte by byte, with no reference to the codecs: version, configuration,
 * public values and the four lists, each number big-endian and each list behind its count.
 */
module Layout {
  import opened ByteWords
  import opened Wrappers
  import opened BigEndian
  import opened SparseTree
  import opened Accumulator
  import opened ReturnCore
  import opened TrustBases
  import opened GuestRelation
  import opened Codecs
  import opened Wire

  /** The elements one after the other. */
  ghost function Cat<T>(bytes: T -> Bytes, xs: seq<T>): Bytes {
    if xs == [] then [] else Cat(bytes, xs[..|xs| - 1]) + bytes(xs[|xs| - 1])
  }

  ghost function Counted<T>(bytes: T -> Bytes, xs: seq<T>): Bytes {
    Encode(|xs|, 4) + Cat(bytes, xs)
  }

  ghost function Measured(b: Bytes): Bytes {
    Encode(|b|, 4) + b
  }

  ghost function LeafBytes(l: ReturnLeaf): Bytes {
    l.nullifier + l.recipient + l.amount + l.feeRecipient + l.feeAmount + Encode(l.deadline, 8)
  }

  ghost function RefBytes(r: LockRef): Bytes {
    Encode(r.nonce, 8) + r.digest
  }

  ghost function StepBytes(s: Step): Bytes {
    [s.depth] + s.sibling
  }

  ghost function WitnessBytes(w: Witness): Bytes {
    (match w.terminal case Empty => [0] case Occupied(key) => [1] + key) + Counted(StepBytes, w.steps)
  }

  ghost function NodeBytes(n: Node): Bytes {
    Measured(n.nodeId) + Measured(n.signingKey) + Encode(n.stake, 8)
  }

  ghost function TrustBaseBytes(tb: TrustBase): Bytes {
    Encode(tb.version, 8) + Encode(tb.networkId, 2) + Encode(tb.epoch, 8) + Encode(tb.epochStartRound, 8)
      + Counted(NodeBytes, tb.nodes) + Encode(tb.quorumThreshold, 8)
  }

  ghost function BurnBytes(sdk: SdkCodecs, b: BurnWitness): Bytes {
    Measured(sdk.tokenBytes(b.token)) + TrustBaseBytes(b.trustBase)
      + (match b.verification
         case Anchored(anchor) => [0] + Measured(sdk.certificateBytes(anchor))
         case Certified => [1])
      + Encode(b.lockTag, 8)
  }

  ghost function BurnWriter(sdk: SdkCodecs): BurnWitness -> Bytes {
    (b: BurnWitness) => BurnBytes(sdk, b)
  }

  ghost function ConfigBytes(c: Config): Bytes {
    Encode(c.sourceChainId, 8) + c.vault + c.asset + c.tokenType + c.coinId + Encode(c.reasonTag, 8)
      + c.lockDomain + c.nullifierDomain
  }

  ghost function ValuesBytes(v: PublicValues): Bytes {
    v.domainTag + v.configHash + v.trustBaseHash + v.spentRootOld + v.spentRootNew + v.returnRoot
      + v.lockRefRoot + Encode(v.batchSize, 4) + v.totalAmount
  }

  ghost function InputBytes(sdk: SdkCodecs, x: GuestInput): Bytes {
    [0, 0, 0, 2] + ConfigBytes(x.config) + ValuesBytes(x.publicValues)
      + Counted(LeafBytes, x.leaves) + Counted(RefBytes, x.lockRefs) + Counted(WitnessBytes, x.witnesses)
      + Counted(BurnWriter(sdk), x.burns)
  }

  // ----- the codecs write these bytes

  ghost predicate Writes<T(!new)>(c: Codec<T>, bytes: T -> Bytes) {
    forall out, x :: c.put(out, x) == out + bytes(x)
  }

  lemma OneWrites<T(!new)>(c: Codec<T>, bytes: T -> Bytes, out: Bytes, x: T)
    requires Writes(c, bytes)
    ensures c.put(out, x) == out + bytes(x)
  {
  }

  lemma {:induction false} AllWrite<T(!new)>(c: Codec<T>, bytes: T -> Bytes, out: Bytes, xs: seq<T>)
    requires Writes(c, bytes)
    ensures PutAll(c, out, xs) == out + Cat(bytes, xs)
  {
    hide Writes;
    if xs == [] {
      assert out + [] == out;
    } else {
      var init, last := xs[..|xs| - 1], xs[|xs| - 1];
      AllWrite(c, bytes, out, init);
      OneWrites(c, bytes, PutAll(c, out, init), last);
      assert out + Cat(bytes, init) + bytes(last) == out + (Cat(bytes, init) + bytes(last));
    }
  }

  lemma VecWrites<T(!new)>(c: Codec<T>, bytes: T -> Bytes, out: Bytes, xs: seq<T>)
    requires Writes(c, bytes)
    ensures Vec(c).put(out, xs) == out + Counted(bytes, xs)
  {
    hide Writes, Encode;
    AllWrite(c, bytes, out + Encode(|xs|, 4), xs);
    assert out + Encode(|xs|, 4) + Cat(bytes, xs) == out + Counted(bytes, xs);
  }

  lemma U64Writes(out: Bytes, n: u64)
    ensures U64().put(out, n) == out + Encode(n, 8)
  {
    hide Encode;
    assert OfU64(n) == Encode(n, 8);
  }

  lemma MeasuredWrites(out: Bytes, b: Bytes)
    ensures Codecs.ByteString().put(out, b) == out + Measured(b)
  {
    hide Encode;
    assert out + Encode(|b|, 4) + b == out + (Encode(|b|, 4) + b);
  }

  /** Two fields, each written behind what is there. */
  lemma PairWrites<A(!new), B(!new)>(a: Codec<A>, b: Codec<B>, out: Bytes, x: A, y: B, first: Bytes, second: Bytes)
    requires a.put(out, x) == out + first && b.put(out + first, y) == out + first + second
    ensures Pair(a, b).put(out, (x, y)) == out + (first + second)
  {
    assert out + first + second == out + (first + second);
  }

  lemma ConfigWrites(out: Bytes, c: Config)
    ensures ConfigCodec().put(out, c) == out + ConfigBytes(c)
  {
    hide Encode;
    assert OfU64(c.sourceChainId) == Encode(c.sourceChainId, 8) && OfU64(c.reasonTag) == Encode(c.reasonTag, 8);
    assert OfAddress(c.vault) == c.vault && OfAddress(c.asset) == c.asset;
    assert OfBytes32(c.tokenType) == c.tokenType && OfBytes32(c.coinId) == c.coinId;
    assert OfBytes32(c.lockDomain) == c.lockDomain && OfBytes32(c.nullifierDomain) == c.nullifierDomain;
    var f := OfConfig(c);
    assert ConfigCodec().put(out, c) == out + Encode(c.sourceChainId, 8) + c.vault + c.asset + c.tokenType + c.coinId
      + Encode(c.reasonTag, 8) + c.lockDomain + c.nullifierDomain;
  }

  lemma ValuesWrite(out: Bytes, v: PublicValues)
    ensures ValuesCodec().put(out, v) == out + ValuesBytes(v)
  {
    hide Encode;
    assert OfBytes32(v.domainTag) == v.domainTag;
    assert OfBytes32(v.configHash) == v.configHash && OfBytes32(v.trustBaseHash) == v.trustBaseHash;
    assert OfBytes32(v.spentRootOld) == v.spentRootOld && OfBytes32(v.spentRootNew) == v.spentRootNew;
    assert OfBytes32(v.returnRoot) == v.returnRoot && OfBytes32(v.lockRefRoot) == v.lockRefRoot;
    assert OfU32(v.batchSize) == Encode(v.batchSize, 4) && OfBytes32(v.totalAmount) == v.totalAmount;
    var f := OfValues(v);
    assert ValuesCodec().put(out, v) == out + v.domainTag + v.configHash + v.trustBaseHash + v.spentRootOld
      + v.spentRootNew + v.returnRoot + v.lockRefRoot + Encode(v.batchSize, 4) + v.totalAmount;
  }

  lemma LeafWrites(out: Bytes, l: ReturnLeaf)
    ensures LeafCodec().put(out, l) == out + LeafBytes(l)
  {
    hide Encode;
    var f := OfLeaf(l);
    assert OfBytes32(l.nullifier) == l.nullifier && OfBytes32(l.amount) == l.amount
      && OfBytes32(l.feeAmount) == l.feeAmount;
    assert OfAddress(l.recipient) == l.recipient && OfAddress(l.feeRecipient) == l.feeRecipient;
    assert OfU64(l.deadline) == Encode(l.deadline, 8);
    assert LeafCodec().put(out, l) == out + l.nullifier + l.recipient + l.amount + l.feeRecipient + l.feeAmount
      + Encode(l.deadline, 8);
  }

  lemma RefWrites(out: Bytes, r: LockRef)
    ensures RefCodec().put(out, r) == out + RefBytes(r)
  {
    hide Encode;
    var f := OfRef(r);
    assert OfU64(r.nonce) == Encode(r.nonce, 8) && OfBytes32(r.digest) == r.digest;
    assert RefCodec().put(out, r) == out + Encode(r.nonce, 8) + r.digest;
  }

  lemma StepWrites(out: Bytes, s: Step)
    ensures StepCodec().put(out, s) == out + StepBytes(s)
  {
    var f := OfStep(s);
    assert OfByte(s.depth) == [s.depth] && OfBytes32(s.sibling) == s.sibling;
    assert StepCodec().put(out, s) == out + [s.depth] + s.sibling;
  }

  lemma WitnessWrites(out: Bytes, w: Witness)
    ensures WitnessCodec().put(out, w) == out + WitnessBytes(w)
  {
    hide Encode, StepCodec, Counted;
    forall out', s ensures StepCodec().put(out', s) == out' + StepBytes(s) {
      StepWrites(out', s);
    }
    assert Writes(StepCodec(), StepBytes);
    var f := OfWitness(w);
    var head := match w.terminal case Empty => [0] case Occupied(key) => [1] + key;
    if w.terminal.Occupied? {
      assert OfBytes32(w.terminal.key) == w.terminal.key;
      assert out + [1] + w.terminal.key == out + head;
    }
    assert Tagged(Fixed32(), 1).put(out, f.0) == out + head;
    VecWrites(StepCodec(), StepBytes, out + head, w.steps);
  }

  lemma NodeWrites(sdk: SdkCodecs, out: Bytes, n: Node)
    ensures NodeCodec(sdk).put(out, n) == out + NodeBytes(n)
  {
    hide Encode, Measured, Pair, U64, Codecs.ByteString;
    var id, key, stake := Measured(n.nodeId), Measured(n.signingKey), Encode(n.stake, 8);
    var text, point := Where(Codecs.ByteString(), sdk.utf8), Where(Codecs.ByteString(), sdk.publicKey);
    MeasuredWrites(out, n.nodeId);
    MeasuredWrites(out + id, n.signingKey);
    U64Writes(out + id + key, n.stake);
    PairWrites(point, U64(), out + id, n.signingKey, n.stake, key, stake);
    assert out + id + (key + stake) == out + id + key + stake;
    PairWrites(text, Pair(point, U64()), out, n.nodeId, (n.signingKey, n.stake), id, key + stake);
    assert id + (key + stake) == NodeBytes(n);
    assert OfNode(n) == (n.nodeId, (n.signingKey, n.stake));
    assert NodeCodec(sdk).put(out, n) == Pair(text, Pair(point, U64())).put(out, OfNode(n));
  }

  lemma NetworkWrites(sdk: SdkCodecs, out: Bytes, n: u16)
    ensures NetworkCodec(sdk).put(out, n) == out + Encode(n, 2)
  {
    hide Encode;
    assert OfU16(n) == Encode(n, 2);
  }

  lemma NodesWrite(sdk: SdkCodecs, out: Bytes, nodes: seq<Node>)
    ensures Vec(NodeCodec(sdk)).put(out, nodes) == out + Counted(NodeBytes, nodes)
  {
    hide NodeCodec, Counted, Vec, NodeBytes;
    forall out', n ensures NodeCodec(sdk).put(out', n) == out' + NodeBytes(n) {
      NodeWrites(sdk, out', n);
    }
    VecWrites(NodeCodec(sdk), NodeBytes, out, nodes);
  }

  lemma QuorumWrites(sdk: SdkCodecs, out: Bytes, tb: TrustBase)
    ensures Pair(Vec(NodeCodec(sdk)), U64()).put(out, (tb.nodes, tb.quorumThreshold))
         == out + (Counted(NodeBytes, tb.nodes) + Encode(tb.quorumThreshold, 8))
  {
    hide Encode, NodeCodec, Counted, Pair, Vec, U64, NodeBytes;
    NodesWrite(sdk, out, tb.nodes);
    U64Writes(out + Counted(NodeBytes, tb.nodes), tb.quorumThreshold);
    PairWrites(Vec(NodeCodec(sdk)), U64(), out, tb.nodes, tb.quorumThreshold, Counted(NodeBytes, tb.nodes),
      Encode(tb.quorumThreshold, 8));
  }

  lemma TrustBaseWrites(sdk: SdkCodecs, out: Bytes, tb: TrustBase)
    ensures TrustBaseCodec(sdk).put(out, tb) == out + TrustBaseBytes(tb)
  {
    hide Encode, NodeCodec, NetworkCodec, Counted, Pair, Vec, U64, NodeBytes;
    var word, network, last := U64(), NetworkCodec(sdk), Pair(Vec(NodeCodec(sdk)), U64());
    var f := OfTrustBase(tb);
    var version, id := Encode(tb.version, 8), Encode(tb.networkId, 2);
    var epoch, round := Encode(tb.epoch, 8), Encode(tb.epochStartRound, 8);
    var quorum := Counted(NodeBytes, tb.nodes) + Encode(tb.quorumThreshold, 8);
    var at3 := out + version + id + epoch;
    QuorumWrites(sdk, at3 + round, tb);
    U64Writes(at3, tb.epochStartRound);
    PairWrites(word, last, at3, tb.epochStartRound, f.1.1.1.1, round, quorum);
    U64Writes(out + version + id, tb.epoch);
    PairWrites(word, Pair(word, last), out + version + id, tb.epoch, f.1.1.1, epoch, round + quorum);
    NetworkWrites(sdk, out + version, tb.networkId);
    PairWrites(network, Pair(word, Pair(word, last)), out + version, tb.networkId, f.1.1, id, epoch + (round + quorum));
    U64Writes(out, tb.version);
    PairWrites(word, Pair(network, Pair(word, Pair(word, last))), out, tb.version, f.1, version,
      id + (epoch + (round + quorum)));
    assert version + (id + (epoch + (round + quorum))) == TrustBaseBytes(tb);
  }

  lemma AnchorWrites(sdk: SdkCodecs, out: Bytes, anchor: Option<Certificate>)
    ensures AnchorCodec(sdk).put(out, anchor)
         == out + match anchor case Some(a) => [0] + Measured(sdk.certificateBytes(a)) case None => [1]
  {
    hide Encode, Measured, Codecs.ByteString;
    if anchor.Some? {
      MeasuredWrites(out + [0], sdk.certificateBytes(anchor.value));
      assert out + [0] + Measured(sdk.certificateBytes(anchor.value))
        == out + ([0] + Measured(sdk.certificateBytes(anchor.value)));
    }
  }

  lemma BurnWrites(sdk: SdkCodecs, out: Bytes, b: BurnWitness)
    ensures BurnCodec(sdk).put(out, b) == out + BurnBytes(sdk, b)
  {
    hide Encode, Measured, TrustBaseCodec, TrustBaseBytes, Pair, U64, AnchorCodec, Codecs.ByteString;
    var f := OfBurn(b);
    var token, base, tag := Measured(sdk.tokenBytes(b.token)), TrustBaseBytes(b.trustBase), Encode(b.lockTag, 8);
    var anchor := match b.verification
      case Anchored(anchor) => [0] + Measured(sdk.certificateBytes(anchor)) case Certified => [1];
    AnchorWrites(sdk, out + token + base, f.1.1.0);
    U64Writes(out + token + base + anchor, b.lockTag);
    PairWrites(AnchorCodec(sdk), U64(), out + token + base, f.1.1.0, b.lockTag, anchor, tag);
    TrustBaseWrites(sdk, out + token, b.trustBase);
    PairWrites(TrustBaseCodec(sdk), Pair(AnchorCodec(sdk), U64()), out + token, b.trustBase, f.1.1, base, anchor + tag);
    MeasuredWrites(out, sdk.tokenBytes(b.token));
    PairWrites(TokenCodec(sdk), Pair(TrustBaseCodec(sdk), Pair(AnchorCodec(sdk), U64())), out, b.token, f.1, token,
      base + (anchor + tag));
    assert token + (base + (anchor + tag)) == BurnBytes(sdk, b);
  }

  /** What the prover writes for the guest is exactly these bytes, in wire version 2. */
  lemma EncodedLayout(sdk: SdkCodecs, x: GuestInput)
    ensures Encoded(sdk, x) == InputBytes(sdk, x)
  {
    hide Encode, LeafCodec, RefCodec, WitnessCodec, BurnCodec, ConfigCodec, ValuesCodec, Counted, Vec, ConfigBytes,
      ValuesBytes, U32;
    AllListsWrite(sdk);
    var version: Bytes := [0, 0, 0, 2];
    VersionBytes();
    ConfigWrites(version, x.config);
    var values := version + ConfigBytes(x.config);
    ValuesWrite(values, x.publicValues);
    var leaves := values + ValuesBytes(x.publicValues);
    VecWrites(LeafCodec(), LeafBytes, leaves, x.leaves);
    var refs := leaves + Counted(LeafBytes, x.leaves);
    VecWrites(RefCodec(), RefBytes, refs, x.lockRefs);
    var witnesses := refs + Counted(RefBytes, x.lockRefs);
    VecWrites(WitnessCodec(), WitnessBytes, witnesses, x.witnesses);
    var burns := witnesses + Counted(WitnessBytes, x.witnesses);
    VecWrites(BurnCodec(sdk), BurnWriter(sdk), burns, x.burns);
    assert InputCodec(sdk).put([], OfInput(x)) == burns + Counted(BurnWriter(sdk), x.burns);
  }

  lemma AllListsWrite(sdk: SdkCodecs)
    ensures Writes(LeafCodec(), LeafBytes) && Writes(RefCodec(), RefBytes) && Writes(WitnessCodec(), WitnessBytes)
    ensures Writes(BurnCodec(sdk), BurnWriter(sdk))
  {
    hide LeafCodec, RefCodec, WitnessCodec, BurnCodec, LeafBytes, RefBytes, WitnessBytes, BurnBytes;
    forall out, l ensures LeafCodec().put(out, l) == out + LeafBytes(l) {
      LeafWrites(out, l);
    }
    forall out, r ensures RefCodec().put(out, r) == out + RefBytes(r) {
      RefWrites(out, r);
    }
    forall out, w ensures WitnessCodec().put(out, w) == out + WitnessBytes(w) {
      WitnessWrites(out, w);
    }
    forall out, b ensures BurnCodec(sdk).put(out, b) == out + BurnWriter(sdk)(b) {
      BurnWrites(sdk, out, b);
    }
  }

  lemma U32Writes(out: Bytes, n: u32)
    ensures U32().put(out, n) == out + Encode(n, 4)
  {
    hide Encode;
    assert OfU32(n) == Encode(n, 4);
  }

  lemma VersionBytes()
    ensures U32().put([], WIRE_VERSION) == [0, 0, 0, 2]
  {
    var version: u32 := WIRE_VERSION;
    U32Writes([], version);
    FourBytes(version);
  }

  /** A payload of any other wire version is refused. */
  lemma OtherVersionRefused(sdk: SdkCodecs, b: Bytes)
    ensures Decoded(sdk, b).Ok? ==> |b| >= 4 && b[..4] == [0, 0, 0, 2]
  {
    hide Encode, Value, ConfigCodec, ValuesCodec, ListsCodec;
    if Decoded(sdk, b).Ok? {
      assert Where(U32(), IsVersion).read(b).Some?;
      ReadVersion(b);
    }
  }

  lemma ReadVersion(b: Bytes)
    requires Where(U32(), IsVersion).read(b).Some?
    ensures |b| >= 4 && b[..4] == [0, 0, 0, 2]
  {
    hide Encode, Value, U32;
    U32Only(b);
    var (n, rest) := U32().read(b).value;
    assert IsVersion(n);
    FourBytes(n);
    assert b[..4] == Encode(n, 4);
  }

  lemma FourBytes(n: nat)
    requires n == 2
    ensures Encode(n, 4) == [0, 0, 0, 2]
  {
    assert Encode(0, 1) == [0] && Encode(0, 2) == [0, 0] && Encode(0, 3) == [0, 0, 0];
  }
}
