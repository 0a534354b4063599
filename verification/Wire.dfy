/**
 * The guest's wire format, version 2: what the prover writes for the guest and the guest reads
 * back, byte for byte.
 */
module Wire {
  import opened ByteWords
  import opened Wrappers
  import opened SparseTree
  import opened Accumulator
  import opened ReturnCore
  import opened TrustBases
  import opened BridgeTokens
  import opened GuestRelation
  import opened Codecs

  const WIRE_VERSION: u32 := 2

  /** The SDK's own encodings and checks, arbitrary. Node ids and public keys stand for themselves as bytes. */
  datatype SdkCodecs = SdkCodecs(
    tokenBytes: Token -> Bytes,
    readToken: Bytes -> Option<Token>,
    certificateBytes: Certificate -> Bytes,
    readCertificate: Bytes -> Option<Certificate>,
    utf8: Bytes -> bool,
    publicKey: Bytes -> bool,
    networkId: u16 -> bool,
    validTrustBase: TrustBase -> bool)

  /** The SDK reads only what it would write. */
  ghost predicate CanonicalSdk(sdk: SdkCodecs) {
    Canonical(sdk.tokenBytes, sdk.readToken) && Canonical(sdk.certificateBytes, sdk.readCertificate)
  }

  // ----- records as tuples of their fields, in wire order

  type ConfigFields = ((u64, (Address, Address)), (Bytes32, (Bytes32, (u64, (Bytes32, Bytes32)))))

  function OfConfig(c: Config): ConfigFields {
    ((c.sourceChainId, (c.vault, c.asset)), (c.tokenType, (c.coinId, (c.reasonTag, (c.lockDomain, c.nullifierDomain)))))
  }

  function ToConfig(f: ConfigFields): Config {
    Config(f.0.0, f.0.1.0, f.0.1.1, f.1.0, f.1.1.0, f.1.1.1.0, f.1.1.1.1.0, f.1.1.1.1.1)
  }

  function ChainCodec(): Codec<(u64, (Address, Address))> {
    Pair(U64(), Pair(Fixed20(), Fixed20()))
  }

  function ConfigCodec(): Codec<Config> {
    Via(Pair(ChainCodec(), Pair(Fixed32(), Pair(Fixed32(), Pair(U64(), Pair(Fixed32(), Fixed32()))))), ToConfig,
      OfConfig)
  }

  type HashFields = (Bytes32, (Bytes32, (Bytes32, Bytes32)))

  type ValueFields = (HashFields, (Bytes32, (Bytes32, (Bytes32, (u32, Bytes32)))))

  function OfValues(v: PublicValues): ValueFields {
    ((v.domainTag, (v.configHash, (v.trustBaseHash, v.spentRootOld))),
      (v.spentRootNew, (v.returnRoot, (v.lockRefRoot, (v.batchSize, v.totalAmount)))))
  }

  function ToValues(f: ValueFields): PublicValues {
    PublicValues(f.0.0, f.0.1.0, f.0.1.1.0, f.0.1.1.1, f.1.0, f.1.1.0, f.1.1.1.0, f.1.1.1.1.0, f.1.1.1.1.1)
  }

  function HashesCodec(): Codec<HashFields> {
    Pair(Fixed32(), Pair(Fixed32(), Pair(Fixed32(), Fixed32())))
  }

  function ValuesCodec(): Codec<PublicValues> {
    Via(Pair(HashesCodec(), Pair(Fixed32(), Pair(Fixed32(), Pair(Fixed32(), Pair(U32(), Fixed32()))))), ToValues,
      OfValues)
  }

  type LeafFields = (Bytes32, (Address, (Bytes32, (Address, (Bytes32, u64)))))

  function OfLeaf(l: ReturnLeaf): LeafFields {
    (l.nullifier, (l.recipient, (l.amount, (l.feeRecipient, (l.feeAmount, l.deadline)))))
  }

  function ToLeaf(f: LeafFields): ReturnLeaf {
    ReturnLeaf(f.0, f.1.0, f.1.1.0, f.1.1.1.0, f.1.1.1.1.0, f.1.1.1.1.1)
  }

  function LeafCodec(): Codec<ReturnLeaf> {
    Via(Pair(Fixed32(), Pair(Fixed20(), Pair(Fixed32(), Pair(Fixed20(), Pair(Fixed32(), U64()))))), ToLeaf, OfLeaf)
  }

  function OfRef(r: LockRef): (u64, Bytes32) {
    (r.nonce, r.digest)
  }

  function ToRef(f: (u64, Bytes32)): LockRef {
    LockRef(f.0, f.1)
  }

  function RefCodec(): Codec<LockRef> {
    Via(Pair(U64(), Fixed32()), ToRef, OfRef)
  }

  function OfStep(s: Step): (byte, Bytes32) {
    (s.depth, s.sibling)
  }

  function ToStep(f: (byte, Bytes32)): Step {
    Step(f.0, f.1)
  }

  function StepCodec(): Codec<Step> {
    Via(Pair(OneByte(), Fixed32()), ToStep, OfStep)
  }

  function OfWitness(w: Witness): (Option<Bytes32>, seq<Step>) {
    (match w.terminal case Empty => None case Occupied(key) => Some(key), w.steps)
  }

  function ToWitness(f: (Option<Bytes32>, seq<Step>)): Witness {
    Witness(match f.0 case None => Empty case Some(key) => Occupied(key), f.1)
  }

  function WitnessCodec(): Codec<Witness> {
    Via(Pair(Tagged(Fixed32(), 1), Vec(StepCodec())), ToWitness, OfWitness)
  }

  function OfNode(n: Node): (Bytes, (Bytes, u64)) {
    (n.nodeId, (n.signingKey, n.stake))
  }

  function ToNode(f: (Bytes, (Bytes, u64))): Node {
    Node(f.0, f.1.0, f.1.1)
  }

  function NodeCodec(sdk: SdkCodecs): Codec<Node> {
    Via(Pair(Where(ByteString(), sdk.utf8), Pair(Where(ByteString(), sdk.publicKey), U64())), ToNode, OfNode)
  }

  type TrustBaseFields = (u64, (u16, (u64, (u64, (seq<Node>, u64)))))

  function OfTrustBase(tb: TrustBase): TrustBaseFields {
    (tb.version, (tb.networkId, (tb.epoch, (tb.epochStartRound, (tb.nodes, tb.quorumThreshold)))))
  }

  function ToTrustBase(f: TrustBaseFields): TrustBase {
    TrustBase(f.0, f.1.0, f.1.1.0, f.1.1.1.0, f.1.1.1.1.0, f.1.1.1.1.1)
  }

  function NetworkCodec(sdk: SdkCodecs): Codec<u16> {
    Where(U16(), sdk.networkId)
  }

  function TrustBaseRecord(sdk: SdkCodecs): Codec<TrustBase> {
    Via(Pair(U64(), Pair(NetworkCodec(sdk), Pair(U64(), Pair(U64(), Pair(Vec(NodeCodec(sdk)), U64()))))), ToTrustBase,
      OfTrustBase)
  }

  function TrustBaseCodec(sdk: SdkCodecs): Codec<TrustBase> {
    Where(TrustBaseRecord(sdk), sdk.validTrustBase)
  }

  type BurnFields = (Token, (TrustBase, (Option<Certificate>, u64)))

  function OfBurn(b: BurnWitness): BurnFields {
    var anchor := match b.verification case Anchored(certificate) => Some(certificate) case Certified => None;
    (b.token, (b.trustBase, (anchor, b.lockTag)))
  }

  function ToBurn(f: BurnFields): BurnWitness {
    BurnWitness(f.0, f.1.0, match f.1.1.0 case Some(anchor) => Anchored(anchor) case None => Certified, f.1.1.1)
  }

  function TokenCodec(sdk: SdkCodecs): Codec<Token> {
    Blob(sdk.tokenBytes, sdk.readToken)
  }

  function AnchorCodec(sdk: SdkCodecs): Codec<Option<Certificate>> {
    Tagged(Blob(sdk.certificateBytes, sdk.readCertificate), 0)
  }

  function BurnCodec(sdk: SdkCodecs): Codec<BurnWitness> {
    Via(Pair(TokenCodec(sdk), Pair(TrustBaseCodec(sdk), Pair(AnchorCodec(sdk), U64()))), ToBurn, OfBurn)
  }

  function IsVersion(version: u32): bool {
    version == WIRE_VERSION
  }

  type ListFields = (seq<ReturnLeaf>, (seq<LockRef>, (seq<Witness>, seq<BurnWitness>)))

  type InputFields = (u32, (Config, (PublicValues, ListFields)))

  function ListsCodec(sdk: SdkCodecs): Codec<ListFields> {
    Pair(Vec(LeafCodec()), Pair(Vec(RefCodec()), Pair(Vec(WitnessCodec()), Vec(BurnCodec(sdk)))))
  }

  function InputCodec(sdk: SdkCodecs): Codec<InputFields> {
    Pair(Where(U32(), IsVersion), Pair(ConfigCodec(), Pair(ValuesCodec(), ListsCodec(sdk))))
  }

  function OfInput(x: GuestInput): InputFields {
    (WIRE_VERSION, (x.config, (x.publicValues, (x.leaves, (x.lockRefs, (x.witnesses, x.burns))))))
  }

  function ToInput(f: InputFields): GuestInput {
    GuestInput(f.1.0, f.1.1.0, f.1.1.1.0, f.1.1.1.1.0, f.1.1.1.1.1.0, f.1.1.1.1.1.1)
  }

  // ----- the format

  function Encoded(sdk: SdkCodecs, x: GuestInput): Bytes {
    InputCodec(sdk).put([], OfInput(x))
  }

  /** The whole payload is one input, with nothing after it. */
  function Decoded(sdk: SdkCodecs, b: Bytes): Result<GuestInput, Error> {
    match InputCodec(sdk).read(b)
    case None => Err(WireDecodeFailed)
    case Some(v) => if v.1 == [] then Ok(ToInput(v.0)) else Err(WireDecodeFailed)
  }

  ghost predicate Encodable(sdk: SdkCodecs, x: GuestInput) {
    InputCodec(sdk).ok(OfInput(x))
  }

  /** What the writers demand: every length fits the four bytes it is written in. */
  predicate BurnLengths(sdk: SdkCodecs, b: BurnWitness) {
    && |sdk.tokenBytes(b.token)| < LEN_LIMIT
    && |b.trustBase.nodes| < LEN_LIMIT
    && (forall i | 0 <= i < |b.trustBase.nodes| :: NodeLengths(b.trustBase.nodes[i]))
    && (b.verification.Anchored? ==> |sdk.certificateBytes(b.verification.anchor)| < LEN_LIMIT)
  }

  predicate NodeLengths(n: Node) {
    |n.nodeId| < LEN_LIMIT && |n.signingKey| < LEN_LIMIT
  }

  predicate LengthsFit(sdk: SdkCodecs, x: GuestInput) {
    && |x.leaves| < LEN_LIMIT && |x.lockRefs| < LEN_LIMIT && |x.witnesses| < LEN_LIMIT && |x.burns| < LEN_LIMIT
    && (forall i | 0 <= i < |x.witnesses| :: |x.witnesses[i].steps| < LEN_LIMIT)
    && (forall i | 0 <= i < |x.burns| :: BurnLengths(sdk, x.burns[i]))
  }

  predicate NodeFits(sdk: SdkCodecs, n: Node) {
    NodeLengths(n) && sdk.utf8(n.nodeId) && sdk.publicKey(n.signingKey)
  }

  /** What the SDK must give back of one burn when it reads. */
  predicate BurnReadsBack(sdk: SdkCodecs, b: BurnWitness) {
    && sdk.readToken(sdk.tokenBytes(b.token)) == Some(b.token)
    && sdk.networkId(b.trustBase.networkId) && sdk.validTrustBase(b.trustBase)
    && (forall i | 0 <= i < |b.trustBase.nodes| ::
          sdk.utf8(b.trustBase.nodes[i].nodeId) && sdk.publicKey(b.trustBase.nodes[i].signingKey))
    && match b.verification
       case Certified => true
       case Anchored(anchor) => sdk.readCertificate(sdk.certificateBytes(anchor)) == Some(anchor)
  }

  /** The lengths fit four bytes, and the SDK gives its own values back. */
  lemma EncodableIff(sdk: SdkCodecs, x: GuestInput)
    ensures Encodable(sdk, x) <==> LengthsFit(sdk, x) && forall i | 0 <= i < |x.burns| :: BurnReadsBack(sdk, x.burns[i])
  {
    hide LeafCodec, RefCodec, WitnessCodec, BurnCodec, BurnLengths, BurnReadsBack, ConfigCodec, ValuesCodec;
    HeadOk(x);
    forall l ensures LeafCodec().ok(l) {
      LeafOk(l);
    }
    forall r ensures RefCodec().ok(r) {
      RefOk(r);
    }
    forall w ensures WitnessCodec().ok(w) <==> |w.steps| < LEN_LIMIT {
      WitnessOk(w);
    }
    forall b ensures BurnCodec(sdk).ok(b) <==> BurnLengths(sdk, b) && BurnReadsBack(sdk, b) {
      BurnOk(sdk, b);
    }
  }

  lemma HeadOk(x: GuestInput)
    ensures Where(U32(), IsVersion).ok(WIRE_VERSION) && ConfigCodec().ok(x.config) && ValuesCodec().ok(x.publicValues)
  {
    assert U32().ok(WIRE_VERSION) && IsVersion(WIRE_VERSION);
    assert Where(U32(), IsVersion).ok(WIRE_VERSION);
    assert ConfigCodec().ok(x.config);
  }

  lemma LeafOk(l: ReturnLeaf)
    ensures LeafCodec().ok(l)
  {
  }

  lemma RefOk(r: LockRef)
    ensures RefCodec().ok(r)
  {
  }

  lemma StepOk(s: Step)
    ensures StepCodec().ok(s)
  {
  }

  lemma WitnessOk(w: Witness)
    ensures WitnessCodec().ok(w) <==> |w.steps| < LEN_LIMIT
  {
    var f := OfWitness(w);
    assert Tagged(Fixed32(), 1).ok(f.0) by {
      assert f.0.Some? ==> Fixed32().ok(f.0.value);
    }
    hide StepCodec;
    forall s ensures StepCodec().ok(s) {
      StepOk(s);
    }
    assert Vec(StepCodec()).ok(f.1) <==> |w.steps| < LEN_LIMIT;
  }

  lemma NodeOk(sdk: SdkCodecs, n: Node)
    ensures NodeCodec(sdk).ok(n) <==> NodeFits(sdk, n)
  {
    var id, key, stake := Where(ByteString(), sdk.utf8), Where(ByteString(), sdk.publicKey), U64();
    assert stake.ok(n.stake);
    assert id.ok(n.nodeId) <==> |n.nodeId| < LEN_LIMIT && sdk.utf8(n.nodeId);
    assert key.ok(n.signingKey) <==> |n.signingKey| < LEN_LIMIT && sdk.publicKey(n.signingKey);
    assert Pair(key, stake).ok((n.signingKey, n.stake)) <==> key.ok(n.signingKey);
    assert Pair(id, Pair(key, stake)).ok((n.nodeId, (n.signingKey, n.stake)))
      <==> id.ok(n.nodeId) && key.ok(n.signingKey);
    assert OfNode(n) == (n.nodeId, (n.signingKey, n.stake));
  }

  lemma TrustBaseOk(sdk: SdkCodecs, tb: TrustBase)
    ensures TrustBaseCodec(sdk).ok(tb) <==>
            && sdk.networkId(tb.networkId) && sdk.validTrustBase(tb)
            && |tb.nodes| < LEN_LIMIT && forall i | 0 <= i < |tb.nodes| :: NodeFits(sdk, tb.nodes[i])
  {
    hide NodeCodec, NodeFits;
    forall n ensures NodeCodec(sdk).ok(n) <==> NodeFits(sdk, n) {
      NodeOk(sdk, n);
    }
    var word, network, nodes := U64(), NetworkCodec(sdk), Vec(NodeCodec(sdk));
    var last := (tb.nodes, tb.quorumThreshold);
    assert network.ok(tb.networkId) <==> sdk.networkId(tb.networkId);
    assert Pair(nodes, word).ok(last) <==> nodes.ok(tb.nodes);
    assert Pair(word, Pair(nodes, word)).ok((tb.epochStartRound, last)) <==> nodes.ok(tb.nodes);
    assert Pair(word, Pair(word, Pair(nodes, word))).ok((tb.epoch, (tb.epochStartRound, last))) <==> nodes.ok(tb.nodes);
    assert Pair(network, Pair(word, Pair(word, Pair(nodes, word)))).ok((tb.networkId,
      (tb.epoch, (tb.epochStartRound, last))))
           <==> network.ok(tb.networkId) && nodes.ok(tb.nodes);
    assert OfTrustBase(tb) == (tb.version, (tb.networkId, (tb.epoch, (tb.epochStartRound, last))));
    assert TrustBaseRecord(sdk).ok(tb) <==> network.ok(tb.networkId) && nodes.ok(tb.nodes);
  }

  lemma BurnOk(sdk: SdkCodecs, b: BurnWitness)
    ensures BurnCodec(sdk).ok(b) <==> BurnLengths(sdk, b) && BurnReadsBack(sdk, b)
  {
    hide TrustBaseCodec;
    TrustBaseOk(sdk, b.trustBase);
    var f := OfBurn(b);
    var anchor := AnchorCodec(sdk);
    assert anchor.ok(f.1.1.0) <==>
           match b.verification
           case Certified => true
           case Anchored(a) =>
             |sdk.certificateBytes(a)| < LEN_LIMIT && sdk.readCertificate(sdk.certificateBytes(a)) == Some(a);
    assert Pair(anchor, U64()).ok(f.1.1) <==> anchor.ok(f.1.1.0);
    assert Pair(TrustBaseCodec(sdk), Pair(anchor, U64())).ok(f.1)
      <==> TrustBaseCodec(sdk).ok(b.trustBase) && anchor.ok(f.1.1.0);
    assert TokenCodec(sdk).ok(b.token)
      <==> |sdk.tokenBytes(b.token)| < LEN_LIMIT && sdk.readToken(sdk.tokenBytes(b.token)) == Some(b.token);
  }

  // ----- reading inverts writing

  /** Reading inverts writing, and for a canonical SDK reads nothing else. */
  ghost predicate Laws<T(!new)>(c: Codec<T>, canonical: bool) {
    Appends(c) && Inverts(c) && (canonical ==> OnlyWritten(c))
  }

  lemma FieldLaws(canonical: bool)
    ensures Laws(U16(), canonical) && Laws(U32(), canonical) && Laws(U64(), canonical)
    ensures Laws(Fixed32(), canonical) && Laws(Fixed20(), canonical) && Laws(OneByte(), canonical)
              && Laws(ByteString(), canonical)
  {
    hide Appends, Inverts, OnlyWritten, U16, U32, U64, Fixed32, Fixed20, OneByte, ByteString;
    WordLaws();
    FixedLaws();
    ByteStringLaws();
  }

  lemma PairIs<A(!new), B(!new)>(a: Codec<A>, b: Codec<B>, canonical: bool)
    requires Laws(a, canonical) && Laws(b, canonical)
    ensures Laws(Pair(a, b), canonical)
  {
    hide Appends, Inverts, OnlyWritten, Pair;
    PairLaws(a, b);
  }

  lemma ViaIs<A(!new), B(!new)>(a: Codec<A>, to: A -> B, from: B -> A, canonical: bool)
    requires (forall x :: from(to(x)) == x) && forall y :: to(from(y)) == y
    requires Laws(a, canonical)
    ensures Laws(Via(a, to, from), canonical)
  {
    hide Appends, Inverts, OnlyWritten, Via;
    ViaLaws(a, to, from);
  }

  lemma WhereIs<T(!new)>(c: Codec<T>, passes: T -> bool, canonical: bool)
    requires Laws(c, canonical)
    ensures Laws(Where(c, passes), canonical)
  {
    hide Appends, Inverts, OnlyWritten, Where;
    WhereLaws(c, passes);
  }

  lemma VecIs<T(!new)>(c: Codec<T>, canonical: bool)
    requires Laws(c, canonical)
    ensures Laws(Vec(c), canonical)
  {
    hide Appends, Inverts, OnlyWritten, Vec;
    VecLaws(c);
  }

  lemma TaggedIs<T(!new)>(c: Codec<T>, someTag: byte, canonical: bool)
    requires someTag <= 1 && Laws(c, canonical)
    ensures Laws(Tagged(c, someTag), canonical)
  {
    hide Appends, Inverts, OnlyWritten, Tagged;
    TaggedLaws(c, someTag);
  }

  lemma ConfigLaws(canonical: bool)
    ensures Laws(ConfigCodec(), canonical)
  {
    hide Laws, Pair, Via, U64, Fixed20, Fixed32;
    FieldLaws(canonical);
    var (word, address, hash) := (U64(), Fixed20(), Fixed32());
    PairIs(address, address, canonical);
    PairIs(word, Pair(address, address), canonical);
    var domains := Pair(hash, hash);
    var tag := Pair(word, domains);
    PairIs(hash, hash, canonical);
    PairIs(word, domains, canonical);
    PairIs(hash, tag, canonical);
    PairIs(hash, Pair(hash, tag), canonical);
    PairIs(ChainCodec(), Pair(hash, Pair(hash, tag)), canonical);
    ViaIs(Pair(ChainCodec(), Pair(hash, Pair(hash, tag))), ToConfig, OfConfig, canonical);
  }

  lemma ValuesLaws(canonical: bool)
    ensures Laws(ValuesCodec(), canonical)
  {
    hide Laws, Pair, Via, U32, Fixed32;
    FieldLaws(canonical);
    var hash := Fixed32();
    PairIs(hash, hash, canonical);
    PairIs(hash, Pair(hash, hash), canonical);
    PairIs(hash, Pair(hash, Pair(hash, hash)), canonical);
    var size := Pair(U32(), hash);
    var roots := Pair(hash, Pair(hash, size));
    PairIs(U32(), hash, canonical);
    PairIs(hash, size, canonical);
    PairIs(hash, Pair(hash, size), canonical);
    PairIs(hash, roots, canonical);
    PairIs(HashesCodec(), Pair(hash, roots), canonical);
    ViaIs(Pair(HashesCodec(), Pair(hash, roots)), ToValues, OfValues, canonical);
  }

  lemma LeafLaws(canonical: bool)
    ensures Laws(LeafCodec(), canonical) && Laws(RefCodec(), canonical)
  {
    hide Laws, Pair, Via, U64, Fixed20, Fixed32;
    FieldLaws(canonical);
    var (word, address, hash) := (U64(), Fixed20(), Fixed32());
    var fee := Pair(hash, word);
    var payee, amount := Pair(address, fee), Pair(hash, Pair(address, fee));
    PairIs(hash, word, canonical);
    PairIs(address, fee, canonical);
    PairIs(hash, payee, canonical);
    PairIs(address, amount, canonical);
    PairIs(hash, Pair(address, amount), canonical);
    ViaIs(Pair(hash, Pair(address, amount)), ToLeaf, OfLeaf, canonical);
    PairIs(word, hash, canonical);
    ViaIs(Pair(word, hash), ToRef, OfRef, canonical);
  }

  lemma WitnessLaws(canonical: bool)
    ensures Laws(WitnessCodec(), canonical)
  {
    hide Laws, Pair, Via, Vec, Tagged, OneByte, Fixed32;
    FieldLaws(canonical);
    PairIs(OneByte(), Fixed32(), canonical);
    ViaIs(Pair(OneByte(), Fixed32()), ToStep, OfStep, canonical);
    VecIs(StepCodec(), canonical);
    TaggedIs(Fixed32(), 1, canonical);
    PairIs(Tagged(Fixed32(), 1), Vec(StepCodec()), canonical);
    ViaIs(Pair(Tagged(Fixed32(), 1), Vec(StepCodec())), ToWitness, OfWitness, canonical);
  }

  lemma TrustBaseLaws(sdk: SdkCodecs, canonical: bool)
    ensures Laws(TrustBaseCodec(sdk), canonical)
  {
    hide Laws, Pair, Via, Vec, Where, U16, U64, ByteString;
    FieldLaws(canonical);
    var word, id, key := U64(), Where(ByteString(), sdk.utf8), Where(ByteString(), sdk.publicKey);
    WhereIs(ByteString(), sdk.utf8, canonical);
    WhereIs(ByteString(), sdk.publicKey, canonical);
    PairIs(key, word, canonical);
    PairIs(id, Pair(key, word), canonical);
    ViaIs(Pair(id, Pair(key, word)), ToNode, OfNode, canonical);
    VecIs(NodeCodec(sdk), canonical);
    var network, nodes := NetworkCodec(sdk), Pair(Vec(NodeCodec(sdk)), word);
    WhereIs(U16(), sdk.networkId, canonical);
    PairIs(Vec(NodeCodec(sdk)), word, canonical);
    PairIs(word, nodes, canonical);
    PairIs(word, Pair(word, nodes), canonical);
    PairIs(network, Pair(word, Pair(word, nodes)), canonical);
    PairIs(word, Pair(network, Pair(word, Pair(word, nodes))), canonical);
    var fields := Pair(word, Pair(network, Pair(word, Pair(word, nodes))));
    ViaIs(fields, ToTrustBase, OfTrustBase, canonical);
    WhereIs(TrustBaseRecord(sdk), sdk.validTrustBase, canonical);
  }

  lemma BlobIs<T(!new)>(encode: T -> Bytes, decode: Bytes -> Option<T>)
    ensures Laws(Blob(encode, decode), Canonical(encode, decode))
    ensures Laws(Blob(encode, decode), false)
  {
    hide Appends, Inverts, OnlyWritten, Blob, Canonical;
    BlobLaws(encode, decode);
  }

  lemma BurnLaws(sdk: SdkCodecs, canonical: bool)
    requires canonical ==> CanonicalSdk(sdk)
    ensures Laws(BurnCodec(sdk), canonical)
  {
    hide Laws, Pair, Via, Tagged, U64, TrustBaseCodec, Blob, Canonical;
    FieldLaws(canonical);
    BlobIs(sdk.tokenBytes, sdk.readToken);
    BlobIs(sdk.certificateBytes, sdk.readCertificate);
    TrustBaseLaws(sdk, canonical);
    TaggedIs(Blob(sdk.certificateBytes, sdk.readCertificate), 0, canonical);
    PairIs(AnchorCodec(sdk), U64(), canonical);
    PairIs(TrustBaseCodec(sdk), Pair(AnchorCodec(sdk), U64()), canonical);
    PairIs(TokenCodec(sdk), Pair(TrustBaseCodec(sdk), Pair(AnchorCodec(sdk), U64())), canonical);
    ViaIs(Pair(TokenCodec(sdk), Pair(TrustBaseCodec(sdk), Pair(AnchorCodec(sdk), U64()))), ToBurn, OfBurn, canonical);
  }

  lemma InputLaws(sdk: SdkCodecs, canonical: bool)
    requires canonical ==> CanonicalSdk(sdk)
    ensures Laws(InputCodec(sdk), canonical)
  {
    hide Laws, Pair, Vec, Where, U32, ConfigCodec, ValuesCodec, LeafCodec, RefCodec, WitnessCodec, BurnCodec,
      CanonicalSdk;
    FieldLaws(canonical);
    ConfigLaws(canonical);
    ValuesLaws(canonical);
    LeafLaws(canonical);
    WitnessLaws(canonical);
    BurnLaws(sdk, canonical);
    VecIs(LeafCodec(), canonical);
    VecIs(RefCodec(), canonical);
    VecIs(WitnessCodec(), canonical);
    VecIs(BurnCodec(sdk), canonical);
    WhereIs(U32(), IsVersion, canonical);
    var burns := Pair(Vec(WitnessCodec()), Vec(BurnCodec(sdk)));
    PairIs(Vec(WitnessCodec()), Vec(BurnCodec(sdk)), canonical);
    PairIs(Vec(RefCodec()), burns, canonical);
    PairIs(Vec(LeafCodec()), Pair(Vec(RefCodec()), burns), canonical);
    PairIs(ValuesCodec(), ListsCodec(sdk), canonical);
    PairIs(ConfigCodec(), Pair(ValuesCodec(), ListsCodec(sdk)), canonical);
    PairIs(Where(U32(), IsVersion), Pair(ConfigCodec(), Pair(ValuesCodec(), ListsCodec(sdk))), canonical);
  }

  /** Every encodable input comes back from its encoding. */
  lemma DecodeEncode(sdk: SdkCodecs, x: GuestInput)
    requires Encodable(sdk, x)
    ensures Decoded(sdk, Encoded(sdk, x)) == Ok(x)
  {
    hide InputCodec, Appends;
    InputLaws(sdk, false);
    assert Encoded(sdk, x) + [] == Encoded(sdk, x);
  }

  lemma AcceptedIsWritten(sdk: SdkCodecs, b: Bytes)
    requires CanonicalSdk(sdk) && Decoded(sdk, b).Ok?
    ensures Encodable(sdk, Decoded(sdk, b).value) && Encoded(sdk, Decoded(sdk, b).value) == b
  {
    hide Appends, Inverts, CanonicalSdk, InputCodec;
    InputLaws(sdk, true);
    VersionRead(sdk, b);
    assert ReadsOnly(InputCodec(sdk), b);
    var f := InputCodec(sdk).read(b).value.0;
    FieldsBack(f);
    assert InputCodec(sdk).put([], f) + [] == b;
  }

  lemma FieldsBack(f: InputFields)
    requires f.0 == WIRE_VERSION
    ensures OfInput(ToInput(f)) == f
  {
  }

  lemma VersionRead(sdk: SdkCodecs, b: Bytes)
    ensures InputCodec(sdk).read(b).Some? ==> InputCodec(sdk).read(b).value.0.0 == WIRE_VERSION
  {
    hide Pair, Where;
    PairFirst(Where(U32(), IsVersion), Pair(ConfigCodec(), Pair(ValuesCodec(), ListsCodec(sdk))), b);
    WherePasses(U32(), IsVersion, b);
  }

  lemma PairFirst<A(!new), B(!new)>(a: Codec<A>, c: Codec<B>, b: Bytes)
    ensures Pair(a, c).read(b).Some? ==> a.read(b).Some? && Pair(a, c).read(b).value.0.0 == a.read(b).value.0
  {
  }

  lemma WherePasses<T(!new)>(c: Codec<T>, passes: T -> bool, b: Bytes)
    ensures Where(c, passes).read(b).Some? ==> passes(Where(c, passes).read(b).value.0)
  {
  }

  /** A payload decodes exactly when it is the encoding of an encodable input, so every accepted
      payload is canonical: nothing trails it and no other bytes decode to the same input. */
  lemma DecodesIff(sdk: SdkCodecs, b: Bytes, x: GuestInput)
    requires CanonicalSdk(sdk)
    ensures Decoded(sdk, b) == Ok(x) <==> Encodable(sdk, x) && b == Encoded(sdk, x)
  {
    hide Decoded, Encoded, Encodable, CanonicalSdk;
    if Decoded(sdk, b) == Ok(x) {
      AcceptedIsWritten(sdk, b);
    }
    if Encodable(sdk, x) {
      DecodeEncode(sdk, x);
    }
  }
}
