/**
 * The reason a burn carries: what the wallet encodes, what the wallet side reads back, and what
 * the guest accepts.
 */
module BurnReason {
  import opened ByteWords
  import opened Wrappers
  import opened BigEndian
  import opened Cbor
  import opened SdkCbor

  datatype ReasonConfig = ReasonConfig(
    sourceChainId: int, vault: Bytes, asset: Bytes, tokenType: Bytes, coinId: Bytes, reasonTag: int)

  datatype Reason = Reason(
    version: int, recipient: Bytes, amount: int, feeRecipient: Bytes, feeAmount: int, deadline: int)

  /** The tag and eleven fields as they stand on the wire, amounts still byte strings. */
  datatype RawReason = RawReason(
    reasonTag: nat, version: nat, sourceChainId: nat,
    vault: Bytes, asset: Bytes, tokenType: Bytes, coinId: Bytes, recipient: Bytes,
    amount: Bytes, feeRecipient: Bytes, feeAmount: Bytes, deadline: nat)

  datatype DecodedReason = DecodedReason(
    reasonTag: nat, version: nat, sourceChainId: nat,
    vault: Bytes, asset: Bytes, tokenType: Bytes, coinId: Bytes, recipient: Bytes,
    amount: nat, feeRecipient: Bytes, feeAmount: nat, deadline: nat)

  datatype ReasonError = Malformed(cbor: CborError) | WrongFieldCount | TrailingBytes

  const FIELDS: nat := 11

  // ----- the wire form

  function EncodeRaw(r: RawReason): Bytes {
    Tag(r.reasonTag) + (ArrayHeader(FIELDS) + (Uint(r.version) + (Uint(r.sourceChainId)
      + (ByteString(r.vault) + (ByteString(r.asset) + (ByteString(r.tokenType) + (ByteString(r.coinId)
      + (ByteString(r.recipient) + (ByteString(r.amount) + (ByteString(r.feeRecipient) + (ByteString(r.feeAmount)
      + Uint(r.deadline))))))))))))
  }

  function Lift<T>(r: Result<T, CborError>): Result<T, ReasonError> {
    match r case Ok(v) => Ok(v) case Err(e) => Err(Malformed(e))
  }

  /** The four byte strings bound to the deployment and the recipient. */
  function ReadAddresses(b: Bytes): Result<((Bytes, Bytes, Bytes, Bytes, Bytes), Bytes), CborError> {
    var (vault, b1) :- ReadBytes(b);
    var (asset, b2) :- ReadBytes(b1);
    var (tokenType, b3) :- ReadBytes(b2);
    var (coinId, b4) :- ReadBytes(b3);
    var (recipient, b5) :- ReadBytes(b4);
    Ok(((vault, asset, tokenType, coinId, recipient), b5))
  }

  /** Amount, fee recipient, fee and deadline. */
  function ReadPayout(b: Bytes): Result<((Bytes, Bytes, Bytes, nat), Bytes), CborError> {
    var (amount, b1) :- ReadBytes(b);
    var (feeRecipient, b2) :- ReadBytes(b1);
    var (feeAmount, b3) :- ReadBytes(b2);
    var (deadline, b4) :- ReadUint(b3);
    Ok(((amount, feeRecipient, feeAmount, deadline), b4))
  }

  function DecodeRaw(b: Bytes): Result<RawReason, ReasonError> {
    var (reasonTag, b1) :- Lift(ReadTag(b));
    var (n, b2) :- Lift(ReadArrayHeader(b1));
    if n != FIELDS then Err(WrongFieldCount)
    else
      var (version, b3) :- Lift(ReadUint(b2));
      var (sourceChainId, b4) :- Lift(ReadUint(b3));
      var (a, b5) :- Lift(ReadAddresses(b4));
      var (p, b6) :- Lift(ReadPayout(b5));
      if b6 != [] then Err(TrailingBytes)
      else Ok(RawReason(reasonTag, version, sourceChainId, a.0, a.1, a.2, a.3, a.4, p.0, p.1, p.2, p.3))
  }

  ghost predicate Fits(r: RawReason) {
    && r.reasonTag < ARG_LIMIT && r.version < ARG_LIMIT && r.sourceChainId < ARG_LIMIT && r.deadline < ARG_LIMIT
    && |r.vault| < ARG_LIMIT && |r.asset| < ARG_LIMIT && |r.tokenType| < ARG_LIMIT && |r.coinId| < ARG_LIMIT
    && |r.recipient| < ARG_LIMIT && |r.amount| < ARG_LIMIT && |r.feeRecipient| < ARG_LIMIT && |r.feeAmount| < ARG_LIMIT
  }

  lemma AddressesInvert(v: Bytes, a: Bytes, t: Bytes, c: Bytes, r: Bytes, rest: Bytes)
    requires |v| < ARG_LIMIT && |a| < ARG_LIMIT && |t| < ARG_LIMIT && |c| < ARG_LIMIT && |r| < ARG_LIMIT
    ensures ReadAddresses(ByteString(v) + (ByteString(a) + (ByteString(t) + (ByteString(c) + (ByteString(r) + rest)))))
         == Ok(((v, a, t, c, r), rest))
  {
    hide ReadBytes, ByteString;
    var b4 := ByteString(r) + rest;
    var b3 := ByteString(c) + b4;
    var b2 := ByteString(t) + b3;
    ReadBytesInverts(v, ByteString(a) + b2);
    ReadBytesInverts(a, b2);
    ReadBytesInverts(t, b3);
    ReadBytesInverts(c, b4);
    ReadBytesInverts(r, rest);
  }

  lemma AddressesOnly(b: Bytes)
    requires ReadAddresses(b).Ok?
    ensures var ((v, a, t, c, r), rest) := ReadAddresses(b).value;
            && |v| < ARG_LIMIT && |a| < ARG_LIMIT && |t| < ARG_LIMIT && |c| < ARG_LIMIT && |r| < ARG_LIMIT
            && b == ByteString(v) + (ByteString(a) + (ByteString(t) + (ByteString(c) + (ByteString(r) + rest))))
  {
    hide ReadBytes, ByteString;
    var b1 := ReadBytes(b).value.1;
    var b2 := ReadBytes(b1).value.1;
    var b3 := ReadBytes(b2).value.1;
    var b4 := ReadBytes(b3).value.1;
    ReadBytesOnly(b);
    ReadBytesOnly(b1);
    ReadBytesOnly(b2);
    ReadBytesOnly(b3);
    ReadBytesOnly(b4);
  }

  lemma PayoutInverts(a: Bytes, f: Bytes, g: Bytes, d: nat, rest: Bytes)
    requires |a| < ARG_LIMIT && |f| < ARG_LIMIT && |g| < ARG_LIMIT && d < ARG_LIMIT
    ensures ReadPayout(ByteString(a) + (ByteString(f) + (ByteString(g) + (Uint(d) + rest)))) == Ok(((a, f, g, d), rest))
  {
    hide ReadBytes, ByteString, ReadUint, Uint;
    ReadBytesInverts(a, ByteString(f) + (ByteString(g) + (Uint(d) + rest)));
    ReadBytesInverts(f, ByteString(g) + (Uint(d) + rest));
    ReadBytesInverts(g, Uint(d) + rest);
    ReadUintInverts(d, rest);
  }

  lemma PayoutOnly(b: Bytes)
    requires ReadPayout(b).Ok?
    ensures var ((a, f, g, d), rest) := ReadPayout(b).value;
            && |a| < ARG_LIMIT && |f| < ARG_LIMIT && |g| < ARG_LIMIT && d < ARG_LIMIT
            && b == ByteString(a) + (ByteString(f) + (ByteString(g) + (Uint(d) + rest)))
  {
    hide ReadBytes, ByteString, ReadUint, Uint;
    var b1 := ReadBytes(b).value.1;
    var b2 := ReadBytes(b1).value.1;
    var b3 := ReadBytes(b2).value.1;
    ReadBytesOnly(b);
    ReadBytesOnly(b1);
    ReadBytesOnly(b2);
    ReadUintOnly(b3);
  }

  /** Every reason whose numbers and lengths have 64 bits reads back from its encoding. */
  lemma RawInverts(r: RawReason)
    requires Fits(r)
    ensures DecodeRaw(EncodeRaw(r)) == Ok(r)
  {
    hide ReadUint, Uint, ReadTag, Tag, ReadArrayHeader, ArrayHeader, ReadAddresses, ReadPayout, ByteString;
    var payout := ByteString(r.amount)
      + (ByteString(r.feeRecipient) + (ByteString(r.feeAmount) + (Uint(r.deadline) + [])));
    var addresses := ByteString(r.vault) + (ByteString(r.asset) + (ByteString(r.tokenType) + (ByteString(r.coinId)
      + (ByteString(r.recipient) + payout))));
    assert Uint(r.deadline) + [] == Uint(r.deadline);
    ReadUintInverts(r.reasonTag, ArrayHeader(FIELDS) + (Uint(r.version) + (Uint(r.sourceChainId) + addresses)));
    ReadUintInverts(FIELDS, Uint(r.version) + (Uint(r.sourceChainId) + addresses));
    ReadUintInverts(r.version, Uint(r.sourceChainId) + addresses);
    ReadUintInverts(r.sourceChainId, addresses);
    AddressesInvert(r.vault, r.asset, r.tokenType, r.coinId, r.recipient, payout);
    PayoutInverts(r.amount, r.feeRecipient, r.feeAmount, r.deadline, []);
  }

  /** The reader accepts only the encoding of what it returns: no other bytes, nothing trailing. */
  lemma RawOnly(b: Bytes)
    requires DecodeRaw(b).Ok?
    ensures var r := DecodeRaw(b).value; Fits(r) && EncodeRaw(r) == b
  {
    hide ReadUint, Uint, ReadTag, Tag, ReadArrayHeader, ArrayHeader, ReadAddresses, ReadPayout, ByteString;
    var b1 := ReadTag(b).value.1;
    var b2 := ReadArrayHeader(b1).value.1;
    var b3 := ReadUint(b2).value.1;
    var b4 := ReadUint(b3).value.1;
    var b5 := ReadAddresses(b4).value.1;
    ReadUintOnly(b);
    ReadUintOnly(b1);
    ReadUintOnly(b2);
    ReadUintOnly(b3);
    AddressesOnly(b4);
    PayoutOnly(b5);
    var d := ReadPayout(b5).value.0.3;
    assert Uint(d) + [] == Uint(d);
  }

  // ----- the wallet side

  const WORD: nat := Pow256(32)

  /** A 32-byte word; negative numbers and numbers past 256 bits are refused. */
  function U256be(n: int): Option<Bytes> {
    if n < 0 || n >= WORD then None else Some(Encode(n, 32))
  }

  /** The loop that fills the word from its end and then looks at what is left over. */
  method WriteU256be(n: int) returns (r: Option<Bytes>)
    ensures r == U256be(n)
  {
    hide Value, Encode, Pow256;
    if n < 0 {
      return None;
    }
    var out := new byte[32](_ => 0);
    var rest: nat := n;
    WordStart(n);
    assert out[..] == Zeros(32);
    for i := 0 to 32
      invariant WordLoop(n, rest, i, out[..])
    {
      if rest == 0 {
        break;
      }
      ghost var before := out[..];
      var low: byte := rest % 256;
      out[31 - i] := low;
      WordStep(n, rest, i, before);
      assert out[..] == before[31 - i := low];
      rest := rest / 256;
    }
    WordDone(n, rest, out[..]);
    r := if rest > 0 then None else Some(out[..]);
  }

  /** After i rounds the low i bytes are in place and `rest` holds the others. */
  ghost predicate WordLoop(n: nat, rest: nat, i: nat, out: Bytes) {
    && i <= 32 && |out| == 32
    && n == rest * Pow256(i) + Value(out[32 - i..])
    && out[..32 - i] == Zeros(32 - i)
  }

  lemma WordStart(n: nat)
    ensures WordLoop(n, n, 0, Zeros(32))
  {
  }

  lemma WordStep(n: nat, rest: nat, i: nat, out: Bytes)
    requires i < 32 && WordLoop(n, rest, i, out)
    ensures WordLoop(n, rest / 256, i + 1, out[31 - i := rest % 256])
  {
    hide Value, Pow256, Zeros;
    WordPlaced(rest % 256, i, out);
    HeadValue(rest % 256, out[32 - i..]);
    TimesIs(rest % 256, Pow256(i));
    PowStep(i);
    SplitLow(n, rest, Pow256(i), Pow256(i + 1), Value(out[32 - i..]));
  }

  lemma WordPlaced(low: byte, i: nat, out: Bytes)
    requires i < 32 && |out| == 32 && out[..32 - i] == Zeros(32 - i)
    ensures out[31 - i := low][31 - i..] == [low] + out[32 - i..]
    ensures out[31 - i := low][..31 - i] == Zeros(31 - i)
  {
    hide Zeros;
    ZerosPush(32 - i);
    assert out[31 - i := low][..31 - i] == out[..32 - i][..31 - i];
  }

  lemma SplitLow(n: nat, rest: nat, p: nat, p': nat, low: nat)
    requires n == rest * p + low && p' == 256 * p
    ensures n == rest / 256 * p' + (rest % 256 * p + low)
  {
  }

  lemma WordDone(n: nat, rest: nat, out: Bytes)
    requires exists i: nat :: WordLoop(n, rest, i, out) && (i == 32 || rest == 0)
    ensures rest == 0 <==> n < WORD
    ensures rest == 0 ==> out == Encode(n, 32)
  {
    hide Value, Pow256, Encode;
    var i: nat :| WordLoop(n, rest, i, out) && (i == 32 || rest == 0);
    assert out == Zeros(32 - i) + out[32 - i..];
    ValueZeros(32 - i, out[32 - i..]);
    ValueBound(out);
    EncodeValue(out);
    if rest > 0 {
      MulOver(rest, Pow256(32));
    }
  }

  lemma MulOver(rest: nat, p: nat)
    requires rest > 0
    ensures rest * p >= p
  {
  }

  method BeToBigInt(b: Bytes) returns (n: nat)
    ensures n == Value(b)
  {
    n := 0;
    for i := 0 to |b|
      invariant n == Value(b[..i])
    {
      assert b[..i + 1] == b[..i] + [b[i]];
      ArgStep(b[..i], b[i]);
      n := 256 * n + b[i];
    }
    assert b[..|b|] == b;
  }

  /** The bytes of a reason, unless an amount is not a 256-bit number; the other numbers go through
      the head as they are. */
  function EncodeBridgeBackReason(c: ReasonConfig, r: Reason): Option<Bytes> {
    var amount :- U256be(r.amount);
    var feeAmount :- U256be(r.feeAmount);
    Some(PluginHead(6, c.reasonTag) + (ArrayHeader(FIELDS) + (PluginHead(0, r.version) + (PluginHead(0, c.sourceChainId)
      + (ByteString(c.vault) + (ByteString(c.asset) + (ByteString(c.tokenType) + (ByteString(c.coinId)
      + (ByteString(r.recipient) + (ByteString(MinimalBe(amount)) + (ByteString(r.feeRecipient)
      + (ByteString(MinimalBe(feeAmount)) + PluginHead(0, r.deadline)))))))))))))
  }

  /** On natural numbers that is the wire form. */
  lemma EncodeIsRaw(c: ReasonConfig, r: Reason)
    requires c.reasonTag >= 0 && r.version >= 0 && c.sourceChainId >= 0 && r.deadline >= 0
    requires U256be(r.amount).Some? && U256be(r.feeAmount).Some?
    ensures EncodeBridgeBackReason(c, r) ==
            Some(EncodeRaw(RawReason(c.reasonTag, r.version, c.sourceChainId, c.vault, c.asset, c.tokenType, c.coinId,
                                     r.recipient, MinimalBe(U256be(r.amount).value), r.feeRecipient,
                                     MinimalBe(U256be(r.feeAmount).value), r.deadline)))
  {
    hide Head, MinimalBe, ByteString, ArrayHeader, U256be;
  }

  function DecodeBridgeBackReason(b: Bytes): Result<DecodedReason, ReasonError> {
    var r :- DecodeRaw(b);
    Ok(DecodedReason(r.reasonTag, r.version, r.sourceChainId, r.vault, r.asset, r.tokenType, r.coinId,
                     r.recipient, Value(r.amount), r.feeRecipient, Value(r.feeAmount), r.deadline))
  }

  /** The decoder as it drives the cursor. */
  method ReadBridgeBackReason(bytes: Bytes) returns (out: Result<DecodedReason, ReasonError>)
    ensures out == DecodeBridgeBackReason(bytes)
  {
    hide ExpectMajor, ReadBytes, Value;
    var r := new CborReader(bytes);
    var t := r.NextArg(6);
    var reasonTag :- Lift(t);
    t := r.NextArg(4);
    var n :- Lift(t);
    if n != FIELDS {
      return Err(WrongFieldCount);
    }
    t := r.NextArg(0);
    var version :- Lift(t);
    t := r.NextArg(0);
    var sourceChainId :- Lift(t);
    var s := r.NextBytes();
    var vault :- Lift(s);
    s := r.NextBytes();
    var asset :- Lift(s);
    s := r.NextBytes();
    var tokenType :- Lift(s);
    s := r.NextBytes();
    var coinId :- Lift(s);
    s := r.NextBytes();
    var recipient :- Lift(s);
    s := r.NextBytes();
    var amountBytes :- Lift(s);
    s := r.NextBytes();
    var feeRecipient :- Lift(s);
    s := r.NextBytes();
    var feeBytes :- Lift(s);
    t := r.NextArg(0);
    var deadline :- Lift(t);
    if r.pos < |r.buf| {
      return Err(TrailingBytes);
    }
    var amount := BeToBigInt(amountBytes);
    var feeAmount := BeToBigInt(feeBytes);
    out := Ok(DecodedReason(reasonTag, version, sourceChainId, vault, asset, tokenType, coinId,
                            recipient, amount, feeRecipient, feeAmount, deadline));
  }

  /** A decoded reason says what was encoded. */
  predicate Says(d: DecodedReason, c: ReasonConfig, r: Reason) {
    && d.reasonTag == c.reasonTag && d.version == r.version && d.sourceChainId == c.sourceChainId
    && d.vault == c.vault && d.asset == c.asset && d.tokenType == c.tokenType && d.coinId == c.coinId
    && d.recipient == r.recipient && d.amount == r.amount && d.feeRecipient == r.feeRecipient
    && d.feeAmount == r.feeAmount && d.deadline == r.deadline
  }

  predicate IsArg(n: int) {
    0 <= n < ARG_LIMIT
  }

  predicate IsWord(n: int) {
    0 <= n < WORD
  }

  ghost predicate ReasonFits(c: ReasonConfig, r: Reason) {
    && IsArg(c.reasonTag) && IsArg(r.version) && IsArg(c.sourceChainId) && IsArg(r.deadline)
    && IsWord(r.amount) && IsWord(r.feeAmount)
    && |c.vault| < ARG_LIMIT && |c.asset| < ARG_LIMIT && |c.tokenType| < ARG_LIMIT && |c.coinId| < ARG_LIMIT
    && |r.recipient| < ARG_LIMIT && |r.feeRecipient| < ARG_LIMIT
  }

  lemma AmountBytes(n: int)
    requires U256be(n).Some?
    ensures var m := MinimalBe(U256be(n).value); Value(m) == n && |m| < ARG_LIMIT && CanonicalAmount(m)
  {
    hide Pow256;
    ValueEncode(n, 32);
  }

  /** The reason encodes, and what is encoded decodes to it. */
  predicate RoundTrips(c: ReasonConfig, r: Reason) {
    && EncodeBridgeBackReason(c, r).Some?
    && var decoded := DecodeBridgeBackReason(EncodeBridgeBackReason(c, r).value);
       decoded.Ok? && Says(decoded.value, c, r)
  }

  /** Decoding inverts encoding exactly when the tag, the version, the chain and the deadline are
      natural numbers of 64 bits, the amounts of 256 bits, and the lengths of 64 bits. */
  lemma ReasonRoundTripIff(c: ReasonConfig, r: Reason)
    ensures RoundTrips(c, r) <==> ReasonFits(c, r)
  {
    hide DecodeRaw, EncodeRaw, Value, MinimalBe, Encode, EncodeBridgeBackReason;
    EncodesWhen(c, r);
    if ReasonFits(c, r) {
      AmountBytes(r.amount);
      AmountBytes(r.feeAmount);
      EncodeIsRaw(c, r);
      var amount, feeAmount := MinimalBe(U256be(r.amount).value), MinimalBe(U256be(r.feeAmount).value);
      RawInverts(RawReason(c.reasonTag, r.version, c.sourceChainId, c.vault, c.asset, c.tokenType, c.coinId,
                           r.recipient, amount, r.feeRecipient, feeAmount, r.deadline));
    }
    if EncodeBridgeBackReason(c, r).Some? && DecodeRaw(EncodeBridgeBackReason(c, r).value).Ok? {
      RawOnly(EncodeBridgeBackReason(c, r).value);
    }
  }

  lemma EncodesWhen(c: ReasonConfig, r: Reason)
    ensures EncodeBridgeBackReason(c, r).Some? <==> IsWord(r.amount) && IsWord(r.feeAmount)
  {
    hide Head, MinimalBe, ByteString, ArrayHeader, Encode, PluginHead;
  }

  // ----- the guest side

  /** What the guest takes for an amount: at most 32 bytes and no leading zero. */
  predicate CanonicalAmount(b: Bytes) {
    |b| <= 32 && (b == [] || b[0] != 0)
  }

  function FixedBytes(d: Decoder, len: nat, item: Bytes): Option<Bytes> {
    var bytes :- d.bytesValue(item);
    if |bytes| == len then Some(bytes) else None
  }

  function AmountOf(d: Decoder, item: Bytes): Option<Bytes> {
    var bytes :- d.bytesValue(item);
    if CanonicalAmount(bytes) then Some(bytes) else None
  }

  /** The eleven items, in order, each by its own rule; amounts still byte strings. */
  function GuestFields(d: Decoder, reasonTag: nat, items: seq<Bytes>): Option<RawReason>
    requires |items| == FIELDS
  {
    var version :- d.uint(items[0]);
    var sourceChainId :- d.uint(items[1]);
    var vault :- FixedBytes(d, 20, items[2]);
    var asset :- FixedBytes(d, 20, items[3]);
    var tokenType :- FixedBytes(d, 32, items[4]);
    var coinId :- FixedBytes(d, 32, items[5]);
    var recipient :- FixedBytes(d, 20, items[6]);
    var amount :- AmountOf(d, items[7]);
    var feeRecipient :- FixedBytes(d, 20, items[8]);
    var feeAmount :- AmountOf(d, items[9]);
    var deadline :- d.uint(items[10]);
    Some(RawReason(reasonTag, version, sourceChainId, vault, asset, tokenType, coinId, recipient,
                   amount, feeRecipient, feeAmount, deadline))
  }

  function GuestRaw(d: Decoder, expectedTag: nat, b: Bytes): Option<RawReason> {
    if !d.finish(b) then None
    else
      var inner :- d.expectTag(expectedTag, b);
      var items :- d.items(FIELDS, inner);
      if |items| != FIELDS then None else GuestFields(d, expectedTag, items)
  }

  function Meaning(r: RawReason): DecodedReason {
    DecodedReason(r.reasonTag, r.version, r.sourceChainId, r.vault, r.asset, r.tokenType, r.coinId,
                  r.recipient, Value(r.amount), r.feeRecipient, Value(r.feeAmount), r.deadline)
  }

  /** The guest's decoder over the SDK's reader: one item, the expected tag, eleven items, each with
      its width or canonical amount. */
  function GuestDecode(d: Decoder, expectedTag: nat, b: Bytes): Option<DecodedReason> {
    var r :- GuestRaw(d, expectedTag, b);
    Some(Meaning(r))
  }

  predicate GuestReadable(expectedTag: nat, r: RawReason) {
    && r.reasonTag == expectedTag
    && |r.vault| == 20 && |r.asset| == 20 && |r.tokenType| == 32 && |r.coinId| == 32
    && |r.recipient| == 20 && |r.feeRecipient| == 20
    && CanonicalAmount(r.amount) && CanonicalAmount(r.feeAmount)
  }

  /** The eleven fields as items. */
  function RawItems(r: RawReason): (items: seq<Bytes>)
    ensures |items| == FIELDS
  {
    [Uint(r.version), Uint(r.sourceChainId), ByteString(r.vault), ByteString(r.asset), ByteString(r.tokenType),
     ByteString(r.coinId), ByteString(r.recipient), ByteString(r.amount), ByteString(r.feeRecipient),
     ByteString(r.feeAmount), Uint(r.deadline)]
  }

  lemma {:induction false} JoinedFrom(items: seq<Bytes>, i: nat)
    requires i < |items|
    ensures Joined(items[i..]) == items[i] + Joined(items[i + 1..])
  {
    assert items[i..][1..] == items[i + 1..];
  }

  lemma RawIsItems(r: RawReason)
    ensures EncodeRaw(r) == Tag(r.reasonTag) + ArrayItem(RawItems(r))
  {
    hide Uint, ByteString, Tag, ArrayHeader, Joined;
    var items := RawItems(r);
    JoinedFrom(items, 0);
    JoinedFrom(items, 1);
    JoinedFrom(items, 2);
    JoinedFrom(items, 3);
    JoinedFrom(items, 4);
    JoinedFrom(items, 5);
    JoinedFrom(items, 6);
    JoinedFrom(items, 7);
    JoinedFrom(items, 8);
    JoinedFrom(items, 9);
    LastJoined(items);
    assert items[0..] == items;
  }

  lemma LastJoined(items: seq<Bytes>)
    requires |items| == FIELDS
    ensures Joined(items[10..]) == items[10]
  {
    assert items[10..] == [items[10]] && items[10..][1..] == [];
    assert items[10] + [] == items[10];
  }

  lemma UintItem(d: Decoder, item: Bytes)
    requires CanonicalDecoder(d) && d.finish(item)
    ensures d.uint(item).Some? ==> d.uint(item).value < ARG_LIMIT && item == Uint(d.uint(item).value)
  {
    hide Uint;
  }

  lemma BytesItem(d: Decoder, len: nat, item: Bytes)
    requires CanonicalDecoder(d) && d.finish(item) && len < ARG_LIMIT
    ensures var x := FixedBytes(d, len, item); x.Some? ==> |x.value| == len && item == ByteString(x.value)
    ensures var x := AmountOf(d, item); x.Some? ==> CanonicalAmount(x.value) && item == ByteString(x.value)
  {
    hide ByteString;
  }

  lemma FieldsRead(d: Decoder, reasonTag: nat, items: seq<Bytes>)
    requires |items| == FIELDS && GuestFields(d, reasonTag, items).Some?
    ensures var r := GuestFields(d, reasonTag, items).value;
            && r.reasonTag == reasonTag
            && d.uint(items[0]) == Some(r.version) && d.uint(items[1]) == Some(r.sourceChainId)
            && FixedBytes(d, 20, items[2]) == Some(r.vault) && FixedBytes(d, 20, items[3]) == Some(r.asset)
            && FixedBytes(d, 32, items[4]) == Some(r.tokenType) && FixedBytes(d, 32, items[5]) == Some(r.coinId)
            && FixedBytes(d, 20, items[6]) == Some(r.recipient) && AmountOf(d, items[7]) == Some(r.amount)
            && FixedBytes(d, 20, items[8]) == Some(r.feeRecipient) && AmountOf(d, items[9]) == Some(r.feeAmount)
            && d.uint(items[10]) == Some(r.deadline)
  {
    hide FixedBytes, AmountOf;
  }

  /** What the guest reads field by field is the item of that field. */
  lemma FieldsOnly(d: Decoder, reasonTag: nat, items: seq<Bytes>)
    requires CanonicalDecoder(d) && |items| == FIELDS && AllFinish(d, items) && reasonTag < ARG_LIMIT
    requires GuestFields(d, reasonTag, items).Some?
    ensures var r := GuestFields(d, reasonTag, items).value;
            RawItems(r) == items && Fits(r) && GuestReadable(reasonTag, r)
  {
    hide Uint, ByteString, CanonicalDecoder, FixedBytes, AmountOf, GuestFields;
    FieldsRead(d, reasonTag, items);
    UintItem(d, items[0]);
    UintItem(d, items[1]);
    BytesItem(d, 20, items[2]);
    BytesItem(d, 20, items[3]);
    BytesItem(d, 32, items[4]);
    BytesItem(d, 32, items[5]);
    BytesItem(d, 20, items[6]);
    BytesItem(d, 32, items[7]);
    BytesItem(d, 20, items[8]);
    BytesItem(d, 32, items[9]);
    UintItem(d, items[10]);
  }

  lemma UintReads(d: Decoder, n: nat)
    requires CanonicalDecoder(d) && n < ARG_LIMIT
    ensures IsAtom(Uint(n)) && d.uint(Uint(n)) == Some(n)
  {
    hide Uint;
  }

  lemma BytesRead(d: Decoder, len: nat, x: Bytes)
    requires CanonicalDecoder(d) && |x| < ARG_LIMIT
    ensures IsAtom(ByteString(x))
    ensures |x| == len ==> FixedBytes(d, len, ByteString(x)) == Some(x)
    ensures CanonicalAmount(x) ==> AmountOf(d, ByteString(x)) == Some(x)
  {
    hide ByteString;
  }

  lemma FieldsAll(d: Decoder, r: RawReason)
    requires CanonicalDecoder(d) && Fits(r)
    ensures AllAtoms(RawItems(r))
    ensures GuestReadable(r.reasonTag, r) ==> GuestFields(d, r.reasonTag, RawItems(r)) == Some(r)
  {
    hide Uint, ByteString, CanonicalDecoder, FixedBytes, AmountOf, IsAtom, CanonicalAmount;
    UintReads(d, r.version);
    UintReads(d, r.sourceChainId);
    BytesRead(d, 20, r.vault);
    BytesRead(d, 20, r.asset);
    BytesRead(d, 32, r.tokenType);
    BytesRead(d, 32, r.coinId);
    BytesRead(d, 20, r.recipient);
    BytesRead(d, 32, r.amount);
    BytesRead(d, 20, r.feeRecipient);
    BytesRead(d, 32, r.feeAmount);
    UintReads(d, r.deadline);
  }

  /** The guest reads a reason from bytes exactly when the bytes are its wire form, and its widths
      and amounts are the guest's. */
  lemma GuestRawIff(d: Decoder, expectedTag: nat, b: Bytes, r: RawReason)
    requires CanonicalDecoder(d)
    ensures GuestRaw(d, expectedTag, b) == Some(r) <==> Fits(r) && GuestReadable(expectedTag, r) && b == EncodeRaw(r)
  {
    hide *;
    if GuestRaw(d, expectedTag, b) == Some(r) {
      GuestRawOnly(d, expectedTag, b, r);
    }
    if Fits(r) && GuestReadable(expectedTag, r) && b == EncodeRaw(r) {
      GuestRawAll(d, expectedTag, r);
    }
  }

  lemma GuestRawOnly(d: Decoder, expectedTag: nat, b: Bytes, r: RawReason)
    requires CanonicalDecoder(d) && GuestRaw(d, expectedTag, b) == Some(r)
    ensures Fits(r) && GuestReadable(expectedTag, r) && b == EncodeRaw(r)
  {
    hide GuestFields, RawItems, Tag, ArrayItem, EncodeRaw, GuestReadable, Fits, CanonicalDecoder, AllFinish;
    var inner := d.expectTag(expectedTag, b).value;
    var items := d.items(FIELDS, inner).value;
    Unwrapped(d, expectedTag, b, inner, FIELDS, items);
    FieldsOnly(d, expectedTag, items);
    TagOf(expectedTag, r);
    RawIsItems(r);
  }

  lemma GuestRawAll(d: Decoder, expectedTag: nat, r: RawReason)
    requires CanonicalDecoder(d) && Fits(r) && GuestReadable(expectedTag, r)
    ensures GuestRaw(d, expectedTag, EncodeRaw(r)) == Some(r)
  {
    hide GuestFields, RawItems, Tag, ArrayItem, EncodeRaw, GuestReadable, Fits, CanonicalDecoder, AllAtoms;
    TagOf(expectedTag, r);
    RawIsItems(r);
    FieldsAll(d, r);
    Wrapped(d, expectedTag, RawItems(r));
  }

  /** A tagged array the reader takes apart is the canonical one of its items. */
  lemma Unwrapped(d: Decoder, tag: nat, b: Bytes, inner: Bytes, n: nat, items: seq<Bytes>)
    requires CanonicalDecoder(d) && d.finish(b)
    requires d.expectTag(tag, b) == Some(inner) && d.items(n, inner) == Some(items)
    ensures tag < ARG_LIMIT && |items| == n && AllFinish(d, items) && b == Tag(tag) + ArrayItem(items)
  {
    hide Tag, ArrayItem, AllFinish, ReadsAllCanonical;
  }

  lemma Wrapped(d: Decoder, tag: nat, items: seq<Bytes>)
    requires CanonicalDecoder(d) && tag < ARG_LIMIT && |items| < ARG_LIMIT && AllAtoms(items)
    ensures var b := Tag(tag) + ArrayItem(items);
            && d.finish(b) && d.expectTag(tag, b) == Some(ArrayItem(items))
            && d.items(|items|, ArrayItem(items)) == Some(items)
  {
    hide Tag, ArrayItem, AllAtoms, ReadsOnlyCanonical;
  }

  lemma TagOf(expectedTag: nat, r: RawReason)
    ensures GuestReadable(expectedTag, r) ==> r.reasonTag == expectedTag
    ensures Fits(r) ==> r.reasonTag < ARG_LIMIT
  {
  }

  /** Of every wire form the guest reads exactly those under its tag with its widths and canonical
      amounts, and reads what they mean. */
  lemma GuestReads(d: Decoder, expectedTag: nat, r: RawReason)
    requires CanonicalDecoder(d) && Fits(r)
    ensures GuestDecode(d, expectedTag, EncodeRaw(r))
         == if GuestReadable(expectedTag, r) then Some(Meaning(r)) else None
  {
    hide GuestRaw, EncodeRaw, DecodeRaw, CanonicalDecoder, GuestReadable, Fits, Meaning;
    GuestRawIff(d, expectedTag, EncodeRaw(r), r);
    if x :| GuestRaw(d, expectedTag, EncodeRaw(r)) == Some(x) {
      GuestRawIff(d, expectedTag, EncodeRaw(r), x);
      RawInverts(r);
      RawInverts(x);
    }
  }

  /** A canonical amount is the minimal form of its value. */
  lemma {:induction false} CanonicalIsMinimal(b: Bytes)
    requires CanonicalAmount(b)
    ensures Value(b) < WORD
    ensures MinimalBe(Encode(Value(b), 32)) == b
  {
    hide Value, Encode, Pow256;
    var padded := Zeros(32 - |b|) + b;
    ValueZeros(32 - |b|, b);
    ValueBound(padded);
    EncodeValue(padded);
    StripPadding(32 - |b|, b);
  }

  /** The amounts the guest reads fit a word. */
  lemma GuestAmounts(d: Decoder, expectedTag: nat, b: Bytes)
    ensures GuestDecode(d, expectedTag, b).Some? ==>
              && GuestDecode(d, expectedTag, b).value.amount < WORD
              && GuestDecode(d, expectedTag, b).value.feeAmount < WORD
  {
    hide Value, Pow256;
    if GuestDecode(d, expectedTag, b).Some? {
      var r := GuestRaw(d, expectedTag, b).value;
      CanonicalIsMinimal(r.amount);
      CanonicalIsMinimal(r.feeAmount);
    }
  }

  /** The bytes of a reason: the tag over an array of eleven items, in this order, amounts without leading
      zeros. */
  lemma ReasonLayout(c: ReasonConfig, r: Reason)
    requires ReasonFits(c, r)
    ensures EncodeBridgeBackReason(c, r) == Some(Tag(c.reasonTag) + ArrayItem([
              Uint(r.version), Uint(c.sourceChainId), ByteString(c.vault), ByteString(c.asset), ByteString(c.tokenType),
              ByteString(c.coinId), ByteString(r.recipient), ByteString(MinimalBe(Encode(r.amount, 32))),
              ByteString(r.feeRecipient), ByteString(MinimalBe(Encode(r.feeAmount, 32))), Uint(r.deadline)]))
  {
    hide Uint, ByteString, Tag, ArrayHeader, Joined, Encode, MinimalBe, ArrayItem, Pow256, EncodeRaw,
      EncodeBridgeBackReason;
    EncodeIsRaw(c, r);
    RawIsItems(RawReason(c.reasonTag, r.version, c.sourceChainId, c.vault, c.asset, c.tokenType, c.coinId,
      r.recipient, MinimalBe(Encode(r.amount, 32)), r.feeRecipient, MinimalBe(Encode(r.feeAmount, 32)), r.deadline));
  }

  lemma {:induction false} StripPadding(n: nat, b: Bytes)
    requires b == [] || b[0] != 0
    ensures MinimalBe(Zeros(n) + b) == b
  {
    hide Value;
    if n == 0 {
      assert Zeros(0) + b == b;
    } else {
      StripPadding(n - 1, b);
      assert (Zeros(n) + b)[1..] == Zeros(n - 1) + b;
    }
  }

  /** The widths and sizes of a reason the guest can return. */
  predicate GuestSized(d: DecodedReason) {
    && IsArg(d.reasonTag) && IsArg(d.version) && IsArg(d.sourceChainId) && IsArg(d.deadline)
    && |d.vault| == 20 && |d.asset| == 20 && |d.tokenType| == 32 && |d.coinId| == 32
    && |d.recipient| == 20 && |d.feeRecipient| == 20
  }

  function ConfigOf(d: DecodedReason): ReasonConfig {
    ReasonConfig(d.sourceChainId, d.vault, d.asset, d.tokenType, d.coinId, d.reasonTag)
  }

  function ReasonOf(d: DecodedReason): Reason {
    Reason(d.version, d.recipient, d.amount, d.feeRecipient, d.feeAmount, d.deadline)
  }

  /** The wire form of a decoded reason, amounts minimal. */
  function RawOf(d: DecodedReason): RawReason {
    RawReason(d.reasonTag, d.version, d.sourceChainId, d.vault, d.asset, d.tokenType, d.coinId, d.recipient,
              MinimalBe(Encode(d.amount, 32)), d.feeRecipient, MinimalBe(Encode(d.feeAmount, 32)), d.deadline)
  }

  /** The guest reads a reason from bytes if and only if the reason is under its tag, of its widths,
      and the bytes are what the plugin's encoder writes for it. */
  lemma GuestAcceptsIff(d: Decoder, expectedTag: nat, b: Bytes, x: DecodedReason)
    requires CanonicalDecoder(d)
    ensures GuestDecode(d, expectedTag, b) == Some(x) <==>
            && x.reasonTag == expectedTag && GuestSized(x)
            && EncodeBridgeBackReason(ConfigOf(x), ReasonOf(x)) == Some(b)
  {
    hide GuestRaw, EncodeRaw, DecodeRaw, CanonicalDecoder, Value, MinimalBe, Encode, EncodeBridgeBackReason;
    if GuestDecode(d, expectedTag, b) == Some(x) {
      var r := GuestRaw(d, expectedTag, b).value;
      GuestRawIff(d, expectedTag, b, r);
      CanonicalIsMinimal(r.amount);
      CanonicalIsMinimal(r.feeAmount);
      EncodeIsRaw(ConfigOf(x), ReasonOf(x));
    }
    EncodesWhen(ConfigOf(x), ReasonOf(x));
    if x.reasonTag == expectedTag && GuestSized(x) && EncodeBridgeBackReason(ConfigOf(x), ReasonOf(x)) == Some(b) {
      EncodeIsRaw(ConfigOf(x), ReasonOf(x));
      AmountBytes(x.amount);
      AmountBytes(x.feeAmount);
      GuestRawIff(d, expectedTag, b, RawOf(x));
    }
  }

  /** So no two byte strings are one reason to the guest. */
  lemma GuestInjective(d: Decoder, expectedTag: nat, a: Bytes, b: Bytes)
    requires CanonicalDecoder(d)
    requires GuestDecode(d, expectedTag, a).Some? && GuestDecode(d, expectedTag, a) == GuestDecode(d, expectedTag, b)
    ensures a == b
  {
    hide GuestDecode, EncodeBridgeBackReason, CanonicalDecoder;
    GuestAcceptsIff(d, expectedTag, a, GuestDecode(d, expectedTag, a).value);
    GuestAcceptsIff(d, expectedTag, b, GuestDecode(d, expectedTag, a).value);
  }

  /** The plugin's reader is not injective: padding the amount of any reason with a zero byte gives
      other bytes with the same reading, which the guest refuses. */
  lemma PaddedAmountReadsTheSame(d: Decoder, r: RawReason, expectedTag: nat)
    requires CanonicalDecoder(d) && Fits(r) && |r.amount| + 1 < ARG_LIMIT
    ensures var padded := r.(amount := [0] + r.amount);
            && EncodeRaw(padded) != EncodeRaw(r)
            && DecodeBridgeBackReason(EncodeRaw(padded)) == DecodeBridgeBackReason(EncodeRaw(r))
            && GuestDecode(d, expectedTag, EncodeRaw(padded)).None?
  {
    hide DecodeRaw, EncodeRaw, Value, GuestDecode, CanonicalDecoder;
    var padded := r.(amount := [0] + r.amount);
    RawInverts(r);
    RawInverts(padded);
    ValueZeros(1, r.amount);
    assert Zeros(1) == [0];
    GuestReads(d, expectedTag, padded);
  }
}
