/**
 * Canonical CBOR, for the item types the bridge uses: heads with minimal-length arguments
 * (sections 3 and 4.2.1 of RFC 8949), and the strict reader of the same.
 */
module Cbor {
  import opened ByteWords
  import opened Wrappers
  import opened BigEndian

  datatype CborError = UnexpectedEnd | BadInfo | TruncatedArgument | NonMinimal | WrongMajor | TruncatedBytes

  datatype ItemHead = ItemHead(major: nat, arg: nat)

  // ----- the encoder

  /** Initial byte and argument, as short as the argument allows; past 64 bits the high bytes
      are lost. */
  function Head(major: nat, n: nat): Bytes
    requires major < 8
  {
    var m := 32 * major;
    if n < 24 then [m + n]
    else if n <= 0xff then [m + 24] + Encode(n, 1)
    else if n <= 0xffff then [m + 25] + Encode(n, 2)
    else if n <= 0xffff_ffff then [m + 26] + Encode(n, 4)
    else [m + 27] + Encode(n, 8)
  }

  function Uint(n: nat): Bytes {
    Head(0, n)
  }

  function ByteString(b: Bytes): Bytes {
    Head(2, |b|) + b
  }

  function Text(b: Bytes): Bytes {
    Head(3, |b|) + b
  }

  function ArrayHeader(len: nat): Bytes {
    Head(4, len)
  }

  function Tag(t: nat): Bytes {
    Head(6, t)
  }

  /** Strips leading zero bytes; zero becomes the empty string. */
  function MinimalBe(b: Bytes): (m: Bytes)
    ensures |m| <= |b| && (m == [] || m[0] != 0)
    ensures Value(m) == Value(b)
  {
    if b != [] && b[0] == 0 then
      assert b == Zeros(1) + b[1..];
      ValueZeros(1, b[1..]);
      MinimalBe(b[1..])
    else b
  }

  // ----- the plugin's head, for any number

  /** An integer as a double: exact to 53 bits, then rounded to nearest, ties to even. */
  function RoundAt(a: nat, unit: nat): nat
    requires unit > 0
    decreases a - unit
  {
    if a < 0x20_0000_0000_0000 * unit then
      var q, r := a / unit, a % unit;
      unit * if 2 * r < unit || (2 * r == unit && q % 2 == 0) then q else q + 1
    else RoundAt(a, 2 * unit)
  }

  /** Bitwise or of the low `bits` bits. */
  function Or(a: nat, b: nat, bits: nat): (r: nat)
    ensures r < Pow2(bits)
  {
    if bits == 0 then 0
    else (if a % 2 == 1 || b % 2 == 1 then 1 else 0) + 2 * Or(a / 2, b / 2, bits - 1)
  }

  /** What is left of a negative argument: one byte, the major type or-ed with the low byte of the
      number. (A number too large for a double has a zero low byte, as infinity has.) */
  function NegativeByte(major: nat, n: int): byte
    requires n < 0
  {
    assert Pow2(8) == 256 by {
      assert Pow2(4) == 16;
    }
    var rounded: int := RoundAt(-n, 1);
    var low: int := -rounded % 256;
    Or(32 * (major % 8), low, 8)
  }

  /** The head the plugin writes for any major type and number. */
  function PluginHead(major: nat, n: int): Bytes {
    if n < 0 then [NegativeByte(major, n)] else Head(major % 8, n)
  }

  /** The five branches of the head. */
  method WriteHead(major: nat, n: int) returns (out: Bytes)
    ensures out == PluginHead(major, n)
  {
    hide Encode, NegativeByte;
    var m: byte := 32 * major % 256;
    assert m == 32 * (major % 8);
    if n < 24 {
      return [if n < 0 then NegativeByte(major, n) else m + n];
    }
    if n <= 0xff {
      ShortArgs(n);
      return [m + 24, n];
    }
    if n <= 0xffff {
      ShortArgs(n);
      return [m + 25, n / 0x100 % 256, n % 256];
    }
    if n <= 0xffff_ffff {
      ShortArgs(n);
      return [m + 26, n / 0x100_0000 % 256, n / 0x1_0000 % 256, n / 0x100 % 256, n % 256];
    }
    out := WriteLongHead(m, n);
  }

  /** The last branch, which fills a nine-byte buffer from its end. */
  method WriteLongHead(m: byte, n: nat) returns (out: Bytes)
    requires m + 27 < 256
    ensures out == [m + 27] + Encode(n, 8)
  {
    var buffer := new byte[9](_ => 0);
    buffer[0] := m + 27;
    var rest := n;
    for i := 0 to 8
      invariant buffer[0] == m + 27
      invariant Encode(n, 8) == Encode(rest, 8 - i) + buffer[9 - i..]
    {
      ghost var written := buffer[9 - i..];
      buffer[8 - i] := rest % 256;
      assert buffer[9 - i..] == written;
      assert buffer[8 - i..] == [rest % 256] + written;
      rest := rest / 256;
    }
    assert buffer[..] == [buffer[0]] + buffer[1..];
    out := buffer[..];
  }

  /** The big-endian arguments of one, two and four bytes, byte by byte. */
  lemma ShortArgs(n: nat)
    ensures n <= 0xff ==> Encode(n, 1) == [n]
    ensures Encode(n, 2) == [n / 0x100 % 256, n % 256]
    ensures Encode(n, 4) == [n / 0x100_0000 % 256, n / 0x1_0000 % 256, n / 0x100 % 256, n % 256]
  {
    hide Encode;
    var high := n / 0x100 / 0x100;
    OneByteArg(n);
    TwoByteArg(n);
    TwoByteArg(high);
    FourByteArg(n);
    assert high == n / 0x1_0000 && high / 0x100 == n / 0x100_0000;
  }

  lemma OneByteArg(n: nat)
    ensures Encode(n, 1) == [n % 256]
  {
    assert Encode(n / 256, 0) == [];
  }

  lemma TwoByteArg(n: nat)
    ensures Encode(n, 2) == [n / 0x100 % 256, n % 256]
  {
    OneByteArg(n / 256);
  }

  lemma FourByteArg(n: nat)
    ensures Encode(n, 4) == Encode(n / 0x100 / 0x100, 2) + [n / 0x100 % 256, n % 256]
  {
    assert Encode(n / 0x100, 3) == Encode(n / 0x100 / 0x100, 2) + [n / 0x100 % 256];
  }

  method StripZeros(b: Bytes) returns (m: Bytes)
    ensures m == MinimalBe(b)
  {
    var first := 0;
    while first < |b| && b[first] == 0
      invariant first <= |b|
      invariant MinimalBe(b) == MinimalBe(b[first..])
    {
      assert b[first..][1..] == b[first + 1..];
      first := first + 1;
    }
    m := b[first..];
  }

  // ----- the reader

  /** Width of the argument that follows an initial byte. */
  function ArgWidth(info: nat): Option<nat> {
    if info < 24 then Some(0)
    else if info == 24 then Some(1)
    else if info == 25 then Some(2)
    else if info == 26 then Some(4)
    else if info == 27 then Some(8)
    else None
  }

  /** The least argument that needs this encoding. */
  function LeastArg(info: nat): nat {
    if info == 24 then 24 else if info == 25 then 0x100 else if info == 26 then 0x10000 else 0x1_0000_0000
  }

  function ReadHead(b: Bytes): Result<(ItemHead, Bytes), CborError> {
    if b == [] then Err(UnexpectedEnd)
    else
      var major, info := b[0] / 32, b[0] % 32;
      if info < 24 then Ok((ItemHead(major, info), b[1..]))
      else
        match ArgWidth(info)
        case None => Err(BadInfo)
        case Some(len) =>
          if |b| < 1 + len then Err(TruncatedArgument)
          else
            var arg := Value(b[1..1 + len]);
            if arg < LeastArg(info) then Err(NonMinimal) else Ok((ItemHead(major, arg), b[1 + len..]))
  }

  function ExpectMajor(major: nat, b: Bytes): Result<(nat, Bytes), CborError> {
    var (head, rest) :- ReadHead(b);
    if head.major != major then Err(WrongMajor) else Ok((head.arg, rest))
  }

  function ReadUint(b: Bytes): Result<(nat, Bytes), CborError> {
    ExpectMajor(0, b)
  }

  function ReadArrayHeader(b: Bytes): Result<(nat, Bytes), CborError> {
    ExpectMajor(4, b)
  }

  function ReadTag(b: Bytes): Result<(nat, Bytes), CborError> {
    ExpectMajor(6, b)
  }

  function ReadBytes(b: Bytes): Result<(Bytes, Bytes), CborError> {
    var (len, rest) :- ExpectMajor(2, b);
    if |rest| < len then Err(TruncatedBytes) else Ok((rest[..len], rest[len..]))
  }

  // ----- heads are a bijection

  const ARG_LIMIT: nat := 0x1_0000_0000_0000_0000

  lemma ArgLimits()
    ensures Pow256(1) == 0x100 && Pow256(2) == 0x1_0000 && Pow256(4) == 0x1_0000_0000 && Pow256(8) == ARG_LIMIT
  {
  }

  /** The reader inverts the head, whatever follows it. */
  lemma ReadHeadInverts(major: nat, n: nat, rest: Bytes)
    requires major < 8 && n < ARG_LIMIT
    ensures ReadHead(Head(major, n) + rest) == Ok((ItemHead(major, n), rest))
  {
    hide Value, Encode, Pow256;
    var b := Head(major, n) + rest;
    ArgLimits();
    if n < 24 {
      assert b[1..] == rest;
    } else {
      var len := if n <= 0xff then 1 else if n <= 0xffff then 2 else if n <= 0xffff_ffff then 4 else 8;
      assert b[1..1 + len] == Encode(n, len);
      assert b[1 + len..] == rest;
      ValueEncode(n, len);
    }
  }

  /** The reader accepts only what the head produces. */
  lemma ReadHeadOnly(b: Bytes)
    requires ReadHead(b).Ok?
    ensures var (head, rest) := ReadHead(b).value;
            && head.major < 8 && head.arg < ARG_LIMIT
            && b == Head(head.major, head.arg) + rest
  {
    hide Value, Encode, Pow256;
    ArgLimits();
    var info := b[0] % 32;
    if info >= 24 {
      var len := ArgWidth(info).value;
      var arg := b[1..1 + len];
      ValueBound(arg);
      EncodeValue(arg);
      assert b == [b[0]] + arg + b[1 + len..];
    }
  }

  /** A head the plugin writes can be read back exactly when its major type is one of the eight
      and its argument a natural number of at most 64 bits. */
  lemma HeadReadableIff(major: nat, n: int)
    ensures var r := ReadHead(PluginHead(major, n));
            (r.Ok? && r.value.0.major == major && r.value.0.arg == n && r.value.1 == [])
              <==> major < 8 && 0 <= n < ARG_LIMIT
  {
    var b := PluginHead(major, n);
    hide ReadHead, Head;
    if major < 8 && 0 <= n < ARG_LIMIT {
      ReadHeadInverts(major, n, []);
      assert b + [] == b;
    }
    if ReadHead(b).Ok? {
      ReadHeadOnly(b);
    }
  }

  /** A negative number loses all but its low byte: minus 256 reads back as zero. */
  lemma NegativeNumberLost()
    ensures PluginHead(0, -256) == PluginHead(0, 0) == Uint(0)
    ensures ReadUint(PluginHead(0, -256)) == Ok((0, []))
  {
    assert NegativeByte(0, -256) == 0 by {
      assert RoundAt(256, 1) == 256;
      OrZero(8);
    }
    hide ReadHead, RoundAt, Or, NegativeByte;
    assert Uint(0) == [0];
    assert Uint(0) + [] == Uint(0);
    ReadUintInverts(0, []);
  }

  lemma {:induction false} OrZero(bits: nat)
    ensures Or(0, 0, bits) == 0
  {
    if bits > 0 {
      OrZero(bits - 1);
    }
  }

  /** Distinct items have distinct heads, and none is a prefix of another. */
  lemma HeadPrefixFree(major: nat, n: nat, rest: Bytes, major': nat, n': nat, rest': Bytes)
    requires major < 8 && n < ARG_LIMIT && major' < 8 && n' < ARG_LIMIT
    requires Head(major, n) + rest == Head(major', n') + rest'
    ensures major == major' && n == n' && rest == rest'
  {
    hide ReadHead, Head;
    ReadHeadInverts(major, n, rest);
    ReadHeadInverts(major', n', rest');
  }

  /** Byte strings read back exactly, and only from their own encoding. */
  lemma ReadBytesInverts(b: Bytes, rest: Bytes)
    requires |b| < ARG_LIMIT
    ensures ReadBytes(ByteString(b) + rest) == Ok((b, rest))
  {
    hide ReadHead, Head;
    assert ByteString(b) + rest == Head(2, |b|) + (b + rest);
    ReadHeadInverts(2, |b|, b + rest);
  }

  lemma ReadBytesOnly(b: Bytes)
    requires ReadBytes(b).Ok?
    ensures var (value, rest) := ReadBytes(b).value; |value| < ARG_LIMIT && b == ByteString(value) + rest
  {
    hide ReadHead, Head;
    ReadHeadOnly(b);
  }

  lemma ReadUintInverts(n: nat, rest: Bytes)
    requires n < ARG_LIMIT
    ensures ReadUint(Uint(n) + rest) == Ok((n, rest))
    ensures ReadArrayHeader(ArrayHeader(n) + rest) == Ok((n, rest))
    ensures ReadTag(Tag(n) + rest) == Ok((n, rest))
  {
    hide ReadHead, Head;
    ReadHeadInverts(0, n, rest);
    ReadHeadInverts(4, n, rest);
    ReadHeadInverts(6, n, rest);
  }

  lemma ReadUintOnly(b: Bytes)
    ensures ReadUint(b).Ok? ==> var (n, rest) := ReadUint(b).value; n < ARG_LIMIT && b == Uint(n) + rest
    ensures ReadArrayHeader(b).Ok? ==>
              var (n, rest) := ReadArrayHeader(b).value; n < ARG_LIMIT && b == ArrayHeader(n) + rest
    ensures ReadTag(b).Ok? ==> var (n, rest) := ReadTag(b).value; n < ARG_LIMIT && b == Tag(n) + rest
  {
    hide ReadHead, Head;
    if ReadHead(b).Ok? {
      ReadHeadOnly(b);
    }
  }

  // ----- the cursor

  /** A cursor over CBOR bytes; each read is the reader above on what is left. */
  class CborReader {
    const buf: Bytes
    var pos: nat

    ghost predicate Valid()
      reads this
    {
      pos <= |buf|
    }

    ghost function Left(): Bytes
      requires Valid()
      reads this
    {
      buf[pos..]
    }

    constructor (bytes: Bytes)
      ensures Valid() && buf == bytes && Left() == bytes
    {
      buf := bytes;
      pos := 0;
    }

    method NextHead() returns (r: Result<ItemHead, CborError>)
      requires Valid()
      modifies this
      ensures Valid()
      ensures match ReadHead(old(Left())) case Ok(v) => r == Ok(v.0) && Left() == v.1 case Err(e) => r == Err(e)
    {
      hide Value, Pow256;
      if pos >= |buf| {
        return Err(UnexpectedEnd);
      }
      ghost var left := Left();
      var initial: byte := buf[pos];
      pos := pos + 1;
      var major, info := initial / 32, initial % 32;
      if info < 24 {
        assert left[1..] == Left();
        return Ok(ItemHead(major, info));
      }
      var width := ArgWidth(info);
      if width.None? {
        return Err(BadInfo);
      }
      var len := width.value;
      if pos + len > |buf| {
        return Err(TruncatedArgument);
      }
      var arg: nat := 0;
      ghost var start := pos;
      ArgStart();
      assert buf[start..pos] == [];
      for i := 0 to len
        invariant Valid() && pos == start + i <= start + len
        invariant arg == Value(buf[start..pos])
      {
        ArgStep(buf[start..pos], buf[pos]);
        assert buf[start..pos + 1] == buf[start..pos] + [buf[pos]];
        arg := 256 * arg + buf[pos];
        pos := pos + 1;
      }
      assert left[1..1 + len] == buf[start..pos] && left[1 + len..] == Left();
      if arg < LeastArg(info) {
        return Err(NonMinimal);
      }
      r := Ok(ItemHead(major, arg));
    }

    method NextArg(major: nat) returns (r: Result<nat, CborError>)
      requires Valid()
      modifies this
      ensures Valid()
      ensures match ExpectMajor(major, old(Left()))
              case Ok(v) => r == Ok(v.0) && Left() == v.1
              case Err(e) => r == Err(e)
    {
      hide ReadHead;
      var head :- NextHead();
      r := if head.major != major then Err(WrongMajor) else Ok(head.arg);
    }

    method NextBytes() returns (r: Result<Bytes, CborError>)
      requires Valid()
      modifies this
      ensures Valid()
      ensures match ReadBytes(old(Left())) case Ok(v) => r == Ok(v.0) && Left() == v.1 case Err(e) => r == Err(e)
    {
      hide ExpectMajor;
      var len :- NextArg(2);
      if pos + len > |buf| {
        return Err(TruncatedBytes);
      }
      ghost var left := Left();
      var out := buf[pos..pos + len];
      assert left[..len] == out && left[len..] == buf[pos + len..];
      pos := pos + len;
      r := Ok(out);
    }
  }

  lemma ArgStart()
    ensures Value([]) == 0
  {
  }

  lemma ArgStep(b: Bytes, x: byte)
    ensures Value(b + [x]) == 256 * Value(b) + x
  {
    assert (b + [x])[..|b|] == b;
  }
}
