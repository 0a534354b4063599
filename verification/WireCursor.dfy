/**
 * The wire format as the program runs it: a cursor that advances over the input, and the put
 * operations that append to the output.
 */
module WireCursor {
  import opened ByteWords
  import opened Wrappers
  import opened BigEndian
  import opened SparseTree
  import opened Accumulator
  import opened ReturnCore
  import opened TrustBases
  import opened GuestRelation
  import opened Codecs
  import opened Wire

  /** A read does what the codec says: the value and the bytes after it, or one error. */
  ghost predicate Reads<T>(c: Codec<T>, before: Bytes, r: Result<T, Error>, after: Bytes) {
    match c.read(before)
    case None => r == Err(WireDecodeFailed)
    case Some(v) => r == Ok(v.0) && after == v.1
  }

  /** What a vector reads as once `done` is read. */
  ghost function Resumed<T>(done: seq<T>, rest: Option<(seq<T>, Bytes)>): Option<(seq<T>, Bytes)> {
    match rest case None => None case Some(v) => Some((done + v.0, v.1))
  }

  lemma ManyStarts<T>(c: Codec<T>, n: nat, b: Bytes)
    ensures ReadMany(c, n, b) == Resumed([], ReadMany(c, n, b))
  {
    hide ReadMany;
    assert ReadMany(c, n, b).Some? ==> [] + ReadMany(c, n, b).value.0 == ReadMany(c, n, b).value.0;
  }

  lemma ManyStep<T>(c: Codec<T>, done: seq<T>, n: nat, b: Bytes, r: Result<T, Error>, after: Bytes)
    requires n > 0 && Reads(c, b, r, after)
    ensures Resumed(done, ReadMany(c, n, b))
         == if r.Err? then None else Resumed(done + [r.value], ReadMany(c, n - 1, after))
  {
    if r.Ok? && ReadMany(c, n - 1, after).Some? {
      var more := ReadMany(c, n - 1, after).value.0;
      assert done + ([r.value] + more) == done + [r.value] + more;
    }
  }

  lemma ManyEnds<T>(c: Codec<T>, done: seq<T>, b: Bytes)
    ensures Resumed(done, ReadMany(c, 0, b)) == Some((done, b))
  {
    assert done + [] == done;
  }

  lemma CountRead<T>(c: Codec<T>, before: Bytes, len: Result<u32, Error>, after: Bytes)
    requires Reads(U32(), before, len, after)
    ensures Vec(c).read(before) == if len.Err? then None else ReadMany(c, len.value, after)
  {
    hide U32, ReadMany;
  }

  class Cursor {
    var bytes: Bytes

    constructor (bytes: Bytes)
      ensures this.bytes == bytes
    {
      this.bytes := bytes;
    }

    method Take(len: nat) returns (r: Result<Bytes, Error>)
      modifies this
      ensures match Codecs.Take(len, old(bytes))
              case None => r == Err(WireDecodeFailed)
              case Some(v) => r == Ok(v.0) && bytes == v.1
    {
      if |bytes| < len {
        return Err(WireDecodeFailed);
      }
      r := Ok(bytes[..len]);
      bytes := bytes[len..];
    }

    method Fixed<T>(len: nat, ghost encode: T -> Bytes, decode: Bytes -> T) returns (r: Result<T, Error>)
      modifies this
      ensures Reads(Atom(len, encode, decode), old(bytes), r, bytes)
    {
      var head :- Take(len);
      r := Ok(decode(head));
    }

    method U16() returns (r: Result<u16, Error>)
      modifies this
      ensures Reads(Codecs.U16(), old(bytes), r, bytes)
    {
      r := Fixed(2, OfU16, ToU16);
    }

    method U32() returns (r: Result<u32, Error>)
      modifies this
      ensures Reads(Codecs.U32(), old(bytes), r, bytes)
    {
      r := Fixed(4, OfU32, ToU32);
    }

    method U64() returns (r: Result<u64, Error>)
      modifies this
      ensures Reads(Codecs.U64(), old(bytes), r, bytes)
    {
      r := Fixed(8, OfU64, ToU64);
    }

    method Array32() returns (r: Result<Bytes32, Error>)
      modifies this
      ensures Reads(Fixed32(), old(bytes), r, bytes)
    {
      r := Fixed(32, OfBytes32, ToBytes32);
    }

    method Array20() returns (r: Result<Address, Error>)
      modifies this
      ensures Reads(Fixed20(), old(bytes), r, bytes)
    {
      r := Fixed(20, OfAddress, ToAddress);
    }

    method Byte() returns (r: Result<byte, Error>)
      modifies this
      ensures Reads(OneByte(), old(bytes), r, bytes)
    {
      r := Fixed(1, OfByte, ToByte);
    }

    method String() returns (r: Result<Bytes, Error>)
      modifies this
      ensures Reads(ByteString(), old(bytes), r, bytes)
    {
      hide Codecs.U32;
      var len :- U32();
      r := Take(len);
    }

    method BridgeConfig() returns (r: Result<Config, Error>)
      modifies this
      ensures Reads(ConfigCodec(), old(bytes), r, bytes)
    {
      hide Codecs.U64, ChainCodec, Fixed32;
      var chain :- Chain();
      var tokenType :- Array32();
      var coinId :- Array32();
      var reasonTag :- U64();
      var lockDomain :- Array32();
      var nullifierDomain :- Array32();
      r := Ok(Config(chain.0, chain.1.0, chain.1.1, tokenType, coinId, reasonTag, lockDomain, nullifierDomain));
    }

    method Chain() returns (r: Result<(u64, (Address, Address)), Error>)
      modifies this
      ensures Reads(ChainCodec(), old(bytes), r, bytes)
    {
      hide Codecs.U64, Fixed20;
      var sourceChainId :- U64();
      var vault :- Array20();
      var asset :- Array20();
      r := Ok((sourceChainId, (vault, asset)));
    }


    method Values() returns (r: Result<PublicValues, Error>)
      modifies this
      ensures Reads(ValuesCodec(), old(bytes), r, bytes)
    {
      hide Codecs.U32, HashesCodec, Fixed32;
      var hashes :- Hashes();
      var spentRootNew :- Array32();
      var returnRoot :- Array32();
      var lockRefRoot :- Array32();
      var batchSize :- U32();
      var totalAmount :- Array32();
      r := Ok(PublicValues(hashes.0, hashes.1.0, hashes.1.1.0, hashes.1.1.1, spentRootNew, returnRoot, lockRefRoot,
        batchSize, totalAmount));
    }

    /** The first four words of the public values. */
    method Hashes() returns (r: Result<HashFields, Error>)
      modifies this
      ensures Reads(HashesCodec(), old(bytes), r, bytes)
    {
      hide Fixed32;
      var domainTag :- Array32();
      var configHash :- Array32();
      var trustBaseHash :- Array32();
      var spentRootOld :- Array32();
      r := Ok((domainTag, (configHash, (trustBaseHash, spentRootOld))));
    }


    method Leaf() returns (r: Result<ReturnLeaf, Error>)
      modifies this
      ensures Reads(LeafCodec(), old(bytes), r, bytes)
    {
      hide Codecs.U64, Fixed20, Fixed32;
      var nullifier :- Array32();
      var recipient :- Array20();
      var amount :- Array32();
      var feeRecipient :- Array20();
      var feeAmount :- Array32();
      var deadline :- U64();
      r := Ok(ReturnLeaf(nullifier, recipient, amount, feeRecipient, feeAmount, deadline));
    }

    method Ref() returns (r: Result<LockRef, Error>)
      modifies this
      ensures Reads(RefCodec(), old(bytes), r, bytes)
    {
      hide Codecs.U64, Fixed32;
      var nonce :- U64();
      var digest :- Array32();
      r := Ok(LockRef(nonce, digest));
    }

    method OneStep() returns (r: Result<Step, Error>)
      modifies this
      ensures Reads(StepCodec(), old(bytes), r, bytes)
    {
      hide OneByte, Fixed32;
      var depth :- Byte();
      var sibling :- Array32();
      r := Ok(Step(depth, sibling));
    }

    method Leaves() returns (r: Result<seq<ReturnLeaf>, Error>)
      modifies this
      ensures Reads(Vec(LeafCodec()), old(bytes), r, bytes)
    {
      hide Codecs.U32, ReadMany, Vec, LeafCodec, Resumed;
      ghost var before := bytes;
      var counted := U32();
      CountRead(LeafCodec(), before, counted, bytes);
      var len :- counted;
      ghost var start := bytes;
      var leaves: seq<ReturnLeaf> := [];
      ManyStarts(LeafCodec(), len, start);
      for i := 0 to len
        invariant ReadMany(LeafCodec(), len, start) == Resumed(leaves, ReadMany(LeafCodec(), len - i, bytes))
      {
        before := bytes;
        var item := Leaf();
        ManyStep(LeafCodec(), leaves, len - i, before, item, bytes);
        if item.Err? {
          return Err(item.error);
        }
        leaves := leaves + [item.value];
      }
      ManyEnds(LeafCodec(), leaves, bytes);
      r := Ok(leaves);
    }

    method LockRefs() returns (r: Result<seq<LockRef>, Error>)
      modifies this
      ensures Reads(Vec(RefCodec()), old(bytes), r, bytes)
    {
      hide Codecs.U32, ReadMany, Vec, RefCodec, Resumed;
      ghost var before := bytes;
      var counted := U32();
      CountRead(RefCodec(), before, counted, bytes);
      var len :- counted;
      ghost var start := bytes;
      var refs: seq<LockRef> := [];
      ManyStarts(RefCodec(), len, start);
      for i := 0 to len
        invariant ReadMany(RefCodec(), len, start) == Resumed(refs, ReadMany(RefCodec(), len - i, bytes))
      {
        before := bytes;
        var item := Ref();
        ManyStep(RefCodec(), refs, len - i, before, item, bytes);
        if item.Err? {
          return Err(item.error);
        }
        refs := refs + [item.value];
      }
      ManyEnds(RefCodec(), refs, bytes);
      r := Ok(refs);
    }

    method Steps() returns (r: Result<seq<Step>, Error>)
      modifies this
      ensures Reads(Vec(StepCodec()), old(bytes), r, bytes)
    {
      hide Codecs.U32, ReadMany, Vec, StepCodec, Resumed;
      ghost var before := bytes;
      var counted := U32();
      CountRead(StepCodec(), before, counted, bytes);
      var len :- counted;
      ghost var start := bytes;
      var steps: seq<Step> := [];
      ManyStarts(StepCodec(), len, start);
      for i := 0 to len
        invariant ReadMany(StepCodec(), len, start) == Resumed(steps, ReadMany(StepCodec(), len - i, bytes))
      {
        before := bytes;
        var item := OneStep();
        ManyStep(StepCodec(), steps, len - i, before, item, bytes);
        if item.Err? {
          return Err(item.error);
        }
        steps := steps + [item.value];
      }
      ManyEnds(StepCodec(), steps, bytes);
      r := Ok(steps);
    }

    method AccumulatorWitness() returns (r: Result<Witness, Error>)
      modifies this
      ensures Reads(WitnessCodec(), old(bytes), r, bytes)
    {
      hide Fixed32, Vec, StepCodec;
      var tag :- Take(1);
      var terminal: Terminal := Empty;
      if tag[0] == 1 {
        var key :- Array32();
        terminal := Occupied(key);
      } else if tag[0] != 0 {
        return Err(WireDecodeFailed);
      }
      var steps :- Steps();
      r := Ok(Witness(terminal, steps));
    }

    method Witnesses() returns (r: Result<seq<Witness>, Error>)
      modifies this
      ensures Reads(Vec(WitnessCodec()), old(bytes), r, bytes)
    {
      hide Codecs.U32, ReadMany, Vec, WitnessCodec, Resumed;
      ghost var before := bytes;
      var counted := U32();
      CountRead(WitnessCodec(), before, counted, bytes);
      var len :- counted;
      ghost var start := bytes;
      var witnesses: seq<Witness> := [];
      ManyStarts(WitnessCodec(), len, start);
      for i := 0 to len
        invariant ReadMany(WitnessCodec(), len, start) == Resumed(witnesses, ReadMany(WitnessCodec(), len - i, bytes))
      {
        before := bytes;
        var item := AccumulatorWitness();
        ManyStep(WitnessCodec(), witnesses, len - i, before, item, bytes);
        if item.Err? {
          return Err(item.error);
        }
        witnesses := witnesses + [item.value];
      }
      ManyEnds(WitnessCodec(), witnesses, bytes);
      r := Ok(witnesses);
    }

    method TrustNode(sdk: SdkCodecs) returns (r: Result<Node, Error>)
      modifies this
      ensures Reads(NodeCodec(sdk), old(bytes), r, bytes)
    {
      hide ByteString, Codecs.U64;
      var nodeId :- String();
      if !sdk.utf8(nodeId) {
        return Err(WireDecodeFailed);
      }
      var signingKey :- String();
      if !sdk.publicKey(signingKey) {
        return Err(WireDecodeFailed);
      }
      var stake :- U64();
      r := Ok(Node(nodeId, signingKey, stake));
    }

    method Nodes(sdk: SdkCodecs) returns (r: Result<seq<Node>, Error>)
      modifies this
      ensures Reads(Vec(NodeCodec(sdk)), old(bytes), r, bytes)
    {
      hide Codecs.U32, ReadMany, Vec, NodeCodec, Resumed;
      ghost var before := bytes;
      var counted := U32();
      CountRead(NodeCodec(sdk), before, counted, bytes);
      var len :- counted;
      ghost var start := bytes;
      var nodes: seq<Node> := [];
      ManyStarts(NodeCodec(sdk), len, start);
      for i := 0 to len
        invariant ReadMany(NodeCodec(sdk), len, start) == Resumed(nodes, ReadMany(NodeCodec(sdk), len - i, bytes))
      {
        before := bytes;
        var item := TrustNode(sdk);
        ManyStep(NodeCodec(sdk), nodes, len - i, before, item, bytes);
        if item.Err? {
          return Err(item.error);
        }
        nodes := nodes + [item.value];
      }
      ManyEnds(NodeCodec(sdk), nodes, bytes);
      r := Ok(nodes);
    }

    method Network(sdk: SdkCodecs) returns (r: Result<u16, Error>)
      modifies this
      ensures Reads(NetworkCodec(sdk), old(bytes), r, bytes)
    {
      hide Codecs.U16;
      var networkId :- U16();
      r := if sdk.networkId(networkId) then Ok(networkId) else Err(WireDecodeFailed);
    }

    method TrustBaseFields(sdk: SdkCodecs) returns (r: Result<TrustBase, Error>)
      modifies this
      ensures Reads(TrustBaseRecord(sdk), old(bytes), r, bytes)
    {
      hide NetworkCodec, Codecs.U64, Vec, NodeCodec;
      var version :- U64();
      var networkId :- Network(sdk);
      var epoch :- U64();
      var epochStartRound :- U64();
      var nodes :- Nodes(sdk);
      var quorumThreshold :- U64();
      r := Ok(TrustBase(version, networkId, epoch, epochStartRound, nodes, quorumThreshold));
    }

    method RootTrustBase(sdk: SdkCodecs) returns (r: Result<TrustBase, Error>)
      modifies this
      ensures Reads(TrustBaseCodec(sdk), old(bytes), r, bytes)
    {
      hide TrustBaseRecord;
      var trustBase :- TrustBaseFields(sdk);
      r := if sdk.validTrustBase(trustBase) then Ok(trustBase) else Err(WireDecodeFailed);
    }


    method Anchor(sdk: SdkCodecs) returns (r: Result<Option<Certificate>, Error>)
      modifies this
      ensures Reads(AnchorCodec(sdk), old(bytes), r, bytes)
    {
      hide ByteString;
      var tag :- Take(1);
      if tag[0] == 1 {
        return Ok(None);
      }
      if tag[0] != 0 {
        return Err(WireDecodeFailed);
      }
      var encoded :- String();
      var certificate := sdk.readCertificate(encoded);
      r := if certificate.Some? then Ok(certificate) else Err(WireDecodeFailed);
    }

    method BridgeBurn(sdk: SdkCodecs) returns (r: Result<BurnWitness, Error>)
      modifies this
      ensures Reads(BurnCodec(sdk), old(bytes), r, bytes)
    {
      hide ByteString, TrustBaseCodec, AnchorCodec, Codecs.U64;
      var encoded :- String();
      var token := sdk.readToken(encoded);
      if token.None? {
        return Err(WireDecodeFailed);
      }
      var trustBase :- RootTrustBase(sdk);
      var anchor :- Anchor(sdk);
      var lockTag :- U64();
      r := Ok(BurnWitness(token.value, trustBase, match anchor case Some(a) => Anchored(a) case None => Certified,
        lockTag));
    }

    method Burns(sdk: SdkCodecs) returns (r: Result<seq<BurnWitness>, Error>)
      modifies this
      ensures Reads(Vec(BurnCodec(sdk)), old(bytes), r, bytes)
    {
      hide Codecs.U32, ReadMany, Vec, BurnCodec, Resumed;
      ghost var before := bytes;
      var counted := U32();
      CountRead(BurnCodec(sdk), before, counted, bytes);
      var len :- counted;
      ghost var start := bytes;
      var burns: seq<BurnWitness> := [];
      ManyStarts(BurnCodec(sdk), len, start);
      for i := 0 to len
        invariant ReadMany(BurnCodec(sdk), len, start) == Resumed(burns, ReadMany(BurnCodec(sdk), len - i, bytes))
      {
        before := bytes;
        var item := BridgeBurn(sdk);
        ManyStep(BurnCodec(sdk), burns, len - i, before, item, bytes);
        if item.Err? {
          return Err(item.error);
        }
        burns := burns + [item.value];
      }
      ManyEnds(BurnCodec(sdk), burns, bytes);
      r := Ok(burns);
    }

    method Lists(sdk: SdkCodecs) returns (r: Result<ListFields, Error>)
      modifies this
      ensures Reads(ListsCodec(sdk), old(bytes), r, bytes)
    {
      hide LeafCodec, RefCodec, WitnessCodec, BurnCodec, Vec;
      var leaves :- Leaves();
      var lockRefs :- LockRefs();
      var witnesses :- Witnesses();
      var burns :- Burns(sdk);
      r := Ok((leaves, (lockRefs, (witnesses, burns))));
    }
  }

  method DecodeGuestInput(sdk: SdkCodecs, bytes: Bytes) returns (r: Result<GuestInput, Error>)
    ensures r == Decoded(sdk, bytes)
  {
    hide Codecs.U32, ConfigCodec, ValuesCodec, ListsCodec;
    var cursor := new Cursor(bytes);
    var version :- cursor.U32();
    if version != WIRE_VERSION {
      return Err(WireDecodeFailed);
    }
    var config :- cursor.BridgeConfig();
    var publicValues :- cursor.Values();
    var lists :- cursor.Lists(sdk);
    if cursor.bytes != [] {
      return Err(WireDecodeFailed);
    }
    r := Ok(GuestInput(config, publicValues, lists.0, lists.1.0, lists.1.1.0, lists.1.1.1));
  }

  // ----- writing

  class Output {
    var out: Bytes

    constructor ()
      ensures out == []
    {
      out := [];
    }

    method Extend(bytes: Bytes)
      modifies this
      ensures out == old(out) + bytes
    {
      out := out + bytes;
    }

    method PutU16(value: u16)
      modifies this
      ensures out == Codecs.U16().put(old(out), value)
    {
      Extend(OfU16(value));
    }

    method PutU32(value: u32)
      modifies this
      ensures out == Codecs.U32().put(old(out), value) == old(out) + Encode(value, 4)
    {
      Extend(OfU32(value));
    }

    method PutU64(value: u64)
      modifies this
      ensures out == Codecs.U64().put(old(out), value)
    {
      Extend(OfU64(value));
    }

    method PutLen(len: nat)
      requires len < LEN_LIMIT
      modifies this
      ensures out == old(out) + Encode(len, 4)
    {
      PutU32(len);
    }

    method PutArray32(bytes: Bytes32)
      modifies this
      ensures out == Fixed32().put(old(out), bytes)
    {
      Extend(OfBytes32(bytes));
    }

    method PutArray20(bytes: Address)
      modifies this
      ensures out == Fixed20().put(old(out), bytes)
    {
      Extend(OfAddress(bytes));
    }

    method PutByte(value: byte)
      modifies this
      ensures out == OneByte().put(old(out), value) == old(out) + [value]
    {
      Extend(OfByte(value));
    }

    method PutBytes(bytes: Bytes)
      requires |bytes| < LEN_LIMIT
      modifies this
      ensures out == ByteString().put(old(out), bytes)
    {
      PutLen(|bytes|);
      Extend(bytes);
    }

    method PutConfig(config: Config)
      modifies this
      ensures out == ConfigCodec().put(old(out), config)
    {
      hide Codecs.U64, Fixed20, Fixed32;
      ghost var fields := OfConfig(config);
      PutU64(config.sourceChainId);
      PutArray20(config.vault);
      PutArray20(config.asset);
      PutArray32(config.tokenType);
      PutArray32(config.coinId);
      PutU64(config.reasonTag);
      PutArray32(config.lockDomain);
      PutArray32(config.nullifierDomain);
    }

    method PutPublicValues(pv: PublicValues)
      modifies this
      ensures out == ValuesCodec().put(old(out), pv)
    {
      hide Codecs.U32, Fixed32;
      ghost var fields := OfValues(pv);
      PutArray32(pv.domainTag);
      PutArray32(pv.configHash);
      PutArray32(pv.trustBaseHash);
      PutArray32(pv.spentRootOld);
      PutArray32(pv.spentRootNew);
      PutArray32(pv.returnRoot);
      PutArray32(pv.lockRefRoot);
      PutU32(pv.batchSize);
      PutArray32(pv.totalAmount);
    }

    method PutReturnLeaf(leaf: ReturnLeaf)
      modifies this
      ensures out == LeafCodec().put(old(out), leaf)
    {
      hide Codecs.U64, Fixed20, Fixed32;
      ghost var fields := OfLeaf(leaf);
      PutArray32(leaf.nullifier);
      PutArray20(leaf.recipient);
      PutArray32(leaf.amount);
      PutArray20(leaf.feeRecipient);
      PutArray32(leaf.feeAmount);
      PutU64(leaf.deadline);
    }

    method PutLockRef(lockRef: LockRef)
      modifies this
      ensures out == RefCodec().put(old(out), lockRef)
    {
      hide Codecs.U64, Fixed32;
      ghost var fields := OfRef(lockRef);
      PutU64(lockRef.nonce);
      PutArray32(lockRef.digest);
    }

    method PutStep(step: Step)
      modifies this
      ensures out == StepCodec().put(old(out), step)
    {
      hide OneByte, Fixed32;
      ghost var fields := OfStep(step);
      PutByte(step.depth);
      PutArray32(step.sibling);
    }

    method PutLeaves(leaves: seq<ReturnLeaf>)
      requires |leaves| < LEN_LIMIT
      modifies this
      ensures out == Vec(LeafCodec()).put(old(out), leaves)
    {
      hide LeafCodec;
      PutLen(|leaves|);
      ghost var start := out;
      for i := 0 to |leaves|
        invariant out == PutAll(LeafCodec(), start, leaves[..i])
      {
        assert leaves[..i + 1][..i] == leaves[..i];
        PutReturnLeaf(leaves[i]);
      }
      assert leaves[..|leaves|] == leaves;
    }

    method PutLockRefs(refs: seq<LockRef>)
      requires |refs| < LEN_LIMIT
      modifies this
      ensures out == Vec(RefCodec()).put(old(out), refs)
    {
      hide RefCodec;
      PutLen(|refs|);
      ghost var start := out;
      for i := 0 to |refs|
        invariant out == PutAll(RefCodec(), start, refs[..i])
      {
        assert refs[..i + 1][..i] == refs[..i];
        PutLockRef(refs[i]);
      }
      assert refs[..|refs|] == refs;
    }

    method PutSteps(steps: seq<Step>)
      requires |steps| < LEN_LIMIT
      modifies this
      ensures out == Vec(StepCodec()).put(old(out), steps)
    {
      hide StepCodec;
      PutLen(|steps|);
      ghost var start := out;
      for i := 0 to |steps|
        invariant out == PutAll(StepCodec(), start, steps[..i])
      {
        assert steps[..i + 1][..i] == steps[..i];
        PutStep(steps[i]);
      }
      assert steps[..|steps|] == steps;
    }

    method PutAccumulatorWitness(w: Witness)
      requires |w.steps| < LEN_LIMIT
      modifies this
      ensures out == WitnessCodec().put(old(out), w)
    {
      hide Fixed32, Vec, StepCodec;
      ghost var fields := OfWitness(w);
      match w.terminal {
        case Empty => PutByte(0);
        case Occupied(key) =>
          PutByte(1);
          PutArray32(key);
      }
      PutSteps(w.steps);
    }

    method PutWitnesses(witnesses: seq<Witness>)
      requires |witnesses| < LEN_LIMIT
      requires forall i | 0 <= i < |witnesses| :: |witnesses[i].steps| < LEN_LIMIT
      modifies this
      ensures out == Vec(WitnessCodec()).put(old(out), witnesses)
    {
      hide WitnessCodec;
      PutLen(|witnesses|);
      ghost var start := out;
      for i := 0 to |witnesses|
        invariant out == PutAll(WitnessCodec(), start, witnesses[..i])
      {
        assert witnesses[..i + 1][..i] == witnesses[..i];
        PutAccumulatorWitness(witnesses[i]);
      }
      assert witnesses[..|witnesses|] == witnesses;
    }

    method PutNode(sdk: SdkCodecs, node: Node)
      requires NodeLengths(node)
      modifies this
      ensures out == NodeCodec(sdk).put(old(out), node)
    {
      hide ByteString, Codecs.U64;
      ghost var fields := OfNode(node);
      PutBytes(node.nodeId);
      PutBytes(node.signingKey);
      PutU64(node.stake);
    }

    method PutNodes(sdk: SdkCodecs, nodes: seq<Node>)
      requires |nodes| < LEN_LIMIT
      requires forall i | 0 <= i < |nodes| :: NodeLengths(nodes[i])
      modifies this
      ensures out == Vec(NodeCodec(sdk)).put(old(out), nodes)
    {
      hide NodeCodec;
      PutLen(|nodes|);
      ghost var start := out;
      for i := 0 to |nodes|
        invariant out == PutAll(NodeCodec(sdk), start, nodes[..i])
      {
        assert nodes[..i + 1][..i] == nodes[..i];
        PutNode(sdk, nodes[i]);
      }
      assert nodes[..|nodes|] == nodes;
    }

    method PutTrustBase(sdk: SdkCodecs, tb: TrustBase)
      requires |tb.nodes| < LEN_LIMIT && forall i | 0 <= i < |tb.nodes| :: NodeLengths(tb.nodes[i])
      modifies this
      ensures out == TrustBaseCodec(sdk).put(old(out), tb)
    {
      hide Codecs.U16, Codecs.U64, Vec, NodeCodec;
      ghost var fields := OfTrustBase(tb);
      PutU64(tb.version);
      PutU16(tb.networkId);
      PutU64(tb.epoch);
      PutU64(tb.epochStartRound);
      PutNodes(sdk, tb.nodes);
      PutU64(tb.quorumThreshold);
    }

    method PutBridgeBurn(sdk: SdkCodecs, burn: BurnWitness)
      requires BurnLengths(sdk, burn)
      modifies this
      ensures out == BurnCodec(sdk).put(old(out), burn)
    {
      hide ByteString, TrustBaseCodec, Codecs.U64;
      ghost var fields := OfBurn(burn);
      PutBytes(sdk.tokenBytes(burn.token));
      PutTrustBase(sdk, burn.trustBase);
      match burn.verification {
        case Anchored(anchor) =>
          PutByte(0);
          PutBytes(sdk.certificateBytes(anchor));
        case Certified => PutByte(1);
      }
      PutU64(burn.lockTag);
    }

    method PutBurns(sdk: SdkCodecs, burns: seq<BurnWitness>)
      requires |burns| < LEN_LIMIT
      requires forall i | 0 <= i < |burns| :: BurnLengths(sdk, burns[i])
      modifies this
      ensures out == Vec(BurnCodec(sdk)).put(old(out), burns)
    {
      hide BurnCodec;
      PutLen(|burns|);
      ghost var start := out;
      for i := 0 to |burns|
        invariant out == PutAll(BurnCodec(sdk), start, burns[..i])
      {
        assert burns[..i + 1][..i] == burns[..i];
        PutBridgeBurn(sdk, burns[i]);
      }
      assert burns[..|burns|] == burns;
    }
  }

  method EncodeGuestInput(sdk: SdkCodecs, x: GuestInput) returns (bytes: Bytes)
    requires LengthsFit(sdk, x)
    ensures bytes == Encoded(sdk, x)
  {
    hide Codecs.U32, ConfigCodec, ValuesCodec, Vec, LeafCodec, RefCodec, WitnessCodec, BurnCodec, BurnLengths;
    var output := new Output();
    output.PutU32(WIRE_VERSION);
    output.PutConfig(x.config);
    output.PutPublicValues(x.publicValues);
    output.PutLeaves(x.leaves);
    output.PutLockRefs(x.lockRefs);
    output.PutWitnesses(x.witnesses);
    output.PutBurns(sdk, x.burns);
    bytes := output.out;
  }
}
