/**
 * Codecs that append to an output and read from the front of an input, and the ways to combine
 * them that keep reading and writing inverse to each other.
 */
module Codecs {
  import opened ByteWords
  import opened Wrappers
  import opened BigEndian
  import opened ReturnCore

  /** `ok` says which values fit the format; `put` appends one; `read` takes one off the front. */
  datatype Codec<!T> = Codec(
    ok: T -> bool,
    put: (Bytes, T) -> Bytes,
    read: Bytes -> Option<(T, Bytes)>)
  {
    function Write(x: T): Bytes {
      put([], x)
    }
  }

  ghost predicate Appends<T(!new)>(c: Codec<T>) {
    forall out, x :: c.put(out, x) == out + c.put([], x)
  }

  /** Reading gives back every value that fits and leaves what follows it. */
  ghost predicate Inverts<T(!new)>(c: Codec<T>) {
    forall x, rest | c.ok(x) :: c.read(c.put([], x) + rest) == Some((x, rest))
  }

  ghost predicate ReadsOnly<T>(c: Codec<T>, b: Bytes) {
    c.read(b).Some? ==> c.ok(c.read(b).value.0) && c.put([], c.read(b).value.0) + c.read(b).value.1 == b
  }

  /** What is read is exactly what would have been written. */
  ghost predicate OnlyWritten<T>(c: Codec<T>) {
    forall b :: ReadsOnly(c, b)
  }

  // ----- words

  /** `n` bytes as they are. */
  function Take(n: nat, b: Bytes): (r: Option<(Bytes, Bytes)>)
    ensures r.Some? ==> |r.value.0| == n
  {
    if |b| < n then None else Some((b[..n], b[n..]))
  }

  lemma TakeFront(a: Bytes, rest: Bytes)
    ensures Take(|a|, a + rest) == Some((a, rest))
  {
  }

  lemma TakeOnly(n: nat, b: Bytes)
    ensures Take(n, b).Some? ==> Take(n, b).value.0 + Take(n, b).value.1 == b
  {
  }

  // ----- combinations

  function Pair<A, B>(a: Codec<A>, b: Codec<B>): Codec<(A, B)> {
    Codec(
      (p: (A, B)) => a.ok(p.0) && b.ok(p.1),
      (out: Bytes, p: (A, B)) => b.put(a.put(out, p.0), p.1),
      (bytes: Bytes) =>
        match a.read(bytes)
        case None => None
        case Some(first) =>
          match b.read(first.1)
          case None => None
          case Some(second) => Some(((first.0, second.0), second.1)))
  }

  lemma PairLaws<A(!new), B(!new)>(a: Codec<A>, b: Codec<B>)
    requires Appends(a) && Appends(b)
    ensures Appends(Pair(a, b))
    ensures Inverts(a) && Inverts(b) ==> Inverts(Pair(a, b))
    ensures OnlyWritten(a) && OnlyWritten(b) ==> OnlyWritten(Pair(a, b))
  {
    var c := Pair(a, b);
    forall out, p
      ensures c.put(out, p) == out + c.put([], p) && c.put([], p) == a.put([], p.0) + b.put([], p.1)
    {
      PairPut(a, b, out, p);
      PairPut(a, b, [], p);
    }
    if Inverts(a) && Inverts(b) {
      forall p, rest | c.ok(p)
        ensures c.read(c.put([], p) + rest) == Some((p, rest))
      {
        assert c.put([], p) + rest == a.put([], p.0) + (b.put([], p.1) + rest);
      }
    }
    if OnlyWritten(a) && OnlyWritten(b) {
      forall bytes
        ensures ReadsOnly(c, bytes)
      {
        PairReads(a, b, bytes);
      }
    }
  }

  lemma PairPut<A(!new), B(!new)>(a: Codec<A>, b: Codec<B>, out: Bytes, p: (A, B))
    requires Appends(a) && Appends(b)
    ensures Pair(a, b).put(out, p) == out + (a.put([], p.0) + b.put([], p.1))
    ensures Pair(a, b).put([], p) == a.put([], p.0) + b.put([], p.1)
  {
  }

  lemma PairReads<A(!new), B(!new)>(a: Codec<A>, b: Codec<B>, bytes: Bytes)
    requires Appends(a) && Appends(b) && ReadsOnly(a, bytes)
    requires a.read(bytes).Some? ==> ReadsOnly(b, a.read(bytes).value.1)
    ensures ReadsOnly(Pair(a, b), bytes)
  {
  }

  /** The same bytes under another type. */
  function Via<A, B>(a: Codec<A>, to: A -> B, from: B -> A): Codec<B> {
    Codec(
      (x: B) => a.ok(from(x)),
      (out: Bytes, x: B) => a.put(out, from(x)),
      (bytes: Bytes) => match a.read(bytes) case None => None case Some(v) => Some((to(v.0), v.1)))
  }

  lemma ViaLaws<A(!new), B(!new)>(a: Codec<A>, to: A -> B, from: B -> A)
    requires (forall x :: from(to(x)) == x) && forall y :: to(from(y)) == y
    requires Appends(a)
    ensures Appends(Via(a, to, from))
    ensures Inverts(a) ==> Inverts(Via(a, to, from))
    ensures OnlyWritten(a) ==> OnlyWritten(Via(a, to, from))
  {
    var c := Via(a, to, from);
    if OnlyWritten(a) {
      forall bytes
        ensures ReadsOnly(c, bytes)
      {
        assert ReadsOnly(a, bytes);
      }
    }
  }

  /** Only the values that pass a check, refused when read. */
  function Where<T>(c: Codec<T>, passes: T -> bool): Codec<T> {
    Codec(
      (x: T) => c.ok(x) && passes(x),
      c.put,
      (bytes: Bytes) => match c.read(bytes) case None => None case Some(v) => if passes(v.0) then Some(v) else None)
  }

  lemma WhereLaws<T(!new)>(c: Codec<T>, passes: T -> bool)
    requires Appends(c)
    ensures Appends(Where(c, passes))
    ensures Inverts(c) ==> Inverts(Where(c, passes))
    ensures OnlyWritten(c) ==> OnlyWritten(Where(c, passes))
  {
    if OnlyWritten(c) {
      forall bytes
        ensures ReadsOnly(Where(c, passes), bytes)
      {
        assert ReadsOnly(c, bytes);
      }
    }
  }

  /** A leading byte chooses: 0 for nothing more, 1 for a value. */
  function Tagged<T>(c: Codec<T>, someTag: byte): Codec<Option<T>>
    requires someTag <= 1
  {
    var noneTag: byte := 1 - someTag;
    Codec(
      (x: Option<T>) => match x case None => true case Some(v) => c.ok(v),
      (out: Bytes, x: Option<T>) => match x case None => out + [noneTag] case Some(v) => c.put(out + [someTag], v),
      (bytes: Bytes) =>
        if bytes == [] then None
        else if bytes[0] == noneTag then Some((None, bytes[1..]))
        else if bytes[0] == someTag then
          match c.read(bytes[1..])
          case None => None
          case Some(v) => Some((Some(v.0), v.1))
        else None)
  }

  lemma TaggedLaws<T(!new)>(c: Codec<T>, someTag: byte)
    requires someTag <= 1 && Appends(c)
    ensures Appends(Tagged(c, someTag))
    ensures Inverts(c) ==> Inverts(Tagged(c, someTag))
    ensures OnlyWritten(c) ==> OnlyWritten(Tagged(c, someTag))
  {
    var t := Tagged(c, someTag);
    hide Tagged;
    forall out, x
      ensures t.put(out, x) == out + t.put([], x)
    {
      TaggedPut(c, someTag, out, x);
    }
    if Inverts(c) {
      forall x, rest | t.ok(x)
        ensures t.read(t.put([], x) + rest) == Some((x, rest))
      {
        TaggedInverts(c, someTag, x, rest);
      }
    }
    if OnlyWritten(c) {
      forall bytes
        ensures ReadsOnly(t, bytes)
      {
        TaggedOnly(c, someTag, bytes);
      }
    }
  }

  lemma TaggedInverts<T(!new)>(c: Codec<T>, someTag: byte, x: Option<T>, rest: Bytes)
    requires someTag <= 1 && Appends(c) && Inverts(c) && Tagged(c, someTag).ok(x)
    ensures Tagged(c, someTag).read(Tagged(c, someTag).put([], x) + rest) == Some((x, rest))
  {
    TaggedPut(c, someTag, [], x);
    if x.Some? {
      assert ([someTag] + c.put([], x.value) + rest)[1..] == c.put([], x.value) + rest;
    }
  }

  lemma TaggedOnly<T(!new)>(c: Codec<T>, someTag: byte, bytes: Bytes)
    requires someTag <= 1 && Appends(c) && OnlyWritten(c)
    ensures ReadsOnly(Tagged(c, someTag), bytes)
  {
    if bytes != [] {
      assert ReadsOnly(c, bytes[1..]);
      assert bytes == [bytes[0]] + bytes[1..];
      if Tagged(c, someTag).read(bytes).Some? {
        TaggedPut(c, someTag, [], Tagged(c, someTag).read(bytes).value.0);
      }
    }
  }

  lemma TaggedPut<T(!new)>(c: Codec<T>, someTag: byte, out: Bytes, x: Option<T>)
    requires someTag <= 1 && Appends(c)
    ensures var t := Tagged(c, someTag);
            && t.put([], x) == (match x case None => [1 - someTag] case Some(v) => [someTag] + c.put([], v))
            && t.put(out, x) == out + t.put([], x)
  {
    if x.Some? {
      assert c.put(out + [someTag], x.value) == out + [someTag] + c.put([], x.value);
      assert c.put([] + [someTag], x.value) == [someTag] + c.put([], x.value);
    }
  }

  // ----- vectors

  const LEN_LIMIT: nat := 0x1_0000_0000

  function PutAll<T>(c: Codec<T>, out: Bytes, xs: seq<T>): Bytes {
    if xs == [] then out else c.put(PutAll(c, out, xs[..|xs| - 1]), xs[|xs| - 1])
  }

  function ReadMany<T>(c: Codec<T>, n: nat, b: Bytes): Option<(seq<T>, Bytes)> {
    if n == 0 then Some(([], b))
    else
      match c.read(b)
      case None => None
      case Some(first) =>
        match ReadMany(c, n - 1, first.1)
        case None => None
        case Some(rest) => Some(([first.0] + rest.0, rest.1))
  }

  predicate AllOk<T>(c: Codec<T>, xs: seq<T>) {
    forall i | 0 <= i < |xs| :: c.ok(xs[i])
  }

  lemma {:induction false} PutAllFirst<T(!new)>(c: Codec<T>, out: Bytes, xs: seq<T>)
    requires Appends(c) && xs != []
    ensures PutAll(c, out, xs) == PutAll(c, c.put(out, xs[0]), xs[1..])
  {
    var last := |xs| - 1;
    if last == 0 {
      assert xs[..0] == [] && xs[1..] == [];
    } else {
      PutAllFirst(c, out, xs[..last]);
      assert xs[..last][1..] == xs[1..][..last - 1];
    }
  }

  lemma AppendsAt<T(!new)>(c: Codec<T>, out: Bytes, before: Bytes, x: T)
    requires Appends(c)
    ensures c.put(out + before, x) == out + c.put(before, x)
  {
  }

  lemma {:induction false} PutAllAppends<T(!new)>(c: Codec<T>, out: Bytes, xs: seq<T>)
    requires Appends(c)
    ensures PutAll(c, out, xs) == out + PutAll(c, [], xs)
  {
    hide Appends;
    if xs == [] {
      assert out + [] == out;
    } else {
      var init, x := xs[..|xs| - 1], xs[|xs| - 1];
      PutAllAppends(c, out, init);
      AppendsAt(c, out, PutAll(c, [], init), x);
    }
  }

  /** Writing a vector starts with its first element. */
  lemma PutAllHead<T(!new)>(c: Codec<T>, xs: seq<T>)
    requires Appends(c) && xs != []
    ensures PutAll(c, [], xs) == c.put([], xs[0]) + PutAll(c, [], xs[1..])
  {
    PutAllFirst(c, [], xs);
    PutAllAppends(c, c.put([], xs[0]), xs[1..]);
  }

  lemma {:induction false} ManyInverts<T(!new)>(c: Codec<T>, xs: seq<T>, rest: Bytes)
    requires Appends(c) && Inverts(c) && AllOk(c, xs)
    ensures ReadMany(c, |xs|, PutAll(c, [], xs) + rest) == Some((xs, rest))
  {
    if xs == [] {
      assert PutAll(c, [], xs) + rest == rest;
    } else {
      PutAllHead(c, xs);
      ManyInverts(c, xs[1..], rest);
      assert PutAll(c, [], xs) + rest == c.put([], xs[0]) + (PutAll(c, [], xs[1..]) + rest);
      assert c.ok(xs[0]);
      assert xs == [xs[0]] + xs[1..];
    }
  }

  lemma {:induction false} ManyOnly<T(!new)>(c: Codec<T>, n: nat, b: Bytes)
    requires Appends(c) && OnlyWritten(c) && ReadMany(c, n, b).Some?
    ensures var (xs, rest) := ReadMany(c, n, b).value;
            |xs| == n && AllOk(c, xs) && PutAll(c, [], xs) + rest == b
  {
    if n > 0 {
      assert ReadsOnly(c, b);
      var first := c.read(b).value;
      ManyOnly(c, n - 1, first.1);
      var (more, rest) := ReadMany(c, n - 1, first.1).value;
      PutAllHead(c, [first.0] + more);
      assert ([first.0] + more)[1..] == more;
      assert c.put([], first.0) + PutAll(c, [], more) + rest == c.put([], first.0) + (PutAll(c, [], more) + rest);
    }
  }

  // ----- fixed widths

  /** `len` bytes standing for a value. */
  function Atom<T>(len: nat, encode: T -> Bytes, decode: Bytes -> T): Codec<T> {
    Codec(
      (x: T) => true,
      (out: Bytes, x: T) => out + encode(x),
      (b: Bytes) => match Take(len, b) case None => None case Some(v) => Some((decode(v.0), v.1)))
  }

  ghost predicate Bijects<T(!new)>(len: nat, encode: T -> Bytes, decode: Bytes -> T) {
    && (forall x :: |encode(x)| == len && decode(encode(x)) == x)
    && (forall b | |b| == len :: encode(decode(b)) == b)
  }

  lemma AtomLaws<T(!new)>(len: nat, encode: T -> Bytes, decode: Bytes -> T)
    requires Bijects(len, encode, decode)
    ensures Appends(Atom(len, encode, decode)) && Inverts(Atom(len, encode, decode))
              && OnlyWritten(Atom(len, encode, decode))
  {
    var c := Atom(len, encode, decode);
    forall x
      ensures c.put([], x) == encode(x)
    {
      assert [] + encode(x) == encode(x);
    }
    forall x, rest
      ensures c.read(c.put([], x) + rest) == Some((x, rest))
    {
      TakeFront(encode(x), rest);
    }
    forall b
      ensures ReadsOnly(c, b)
    {
      TakeOnly(len, b);
    }
  }

  function ToWord(len: nat, b: Bytes): (n: nat)
    ensures n < Pow256(len)
  {
    if |b| == len then ValueBound(b); Value(b) else 0
  }

  lemma PowersAre()
    ensures Pow256(1) == 0x100 && Pow256(2) == 0x1_0000 && Pow256(4) == LEN_LIMIT
              && Pow256(8) == 0x1_0000_0000_0000_0000
  {
  }

  function ToU16(b: Bytes): u16 {
    PowersAre();
    ToWord(2, b)
  }

  function ToU32(b: Bytes): u32 {
    PowersAre();
    ToWord(4, b)
  }

  function ToU64(b: Bytes): u64 {
    PowersAre();
    ToWord(8, b)
  }

  function OfU16(n: u16): Bytes {
    Encode(n, 2)
  }

  function OfU32(n: u32): Bytes {
    Encode(n, 4)
  }

  function OfU64(n: u64): Bytes {
    Encode(n, 8)
  }

  function U16(): Codec<u16> {
    Atom(2, OfU16, ToU16)
  }

  function U32(): Codec<u32> {
    Atom(4, OfU32, ToU32)
  }

  function U64(): Codec<u64> {
    Atom(8, OfU64, ToU64)
  }

  lemma WordBijects(len: nat, n: nat, b: Bytes)
    ensures n < Pow256(len) ==> ToWord(len, Encode(n, len)) == n
    ensures |b| == len ==> Encode(ToWord(len, b), len) == b
  {
    hide Value, Encode, Pow256;
    if n < Pow256(len) {
      ValueEncode(n, len);
    }
    if |b| == len {
      EncodeValue(b);
    }
  }

  /** Every word is written and read back, and every width is read as one word. */
  lemma WordLaws()
    ensures Appends(U16()) && Inverts(U16()) && OnlyWritten(U16())
    ensures Appends(U32()) && Inverts(U32()) && OnlyWritten(U32())
    ensures Appends(U64()) && Inverts(U64()) && OnlyWritten(U64())
  {
    hide Encode, Pow256, ToWord, Appends, Inverts, OnlyWritten;
    PowersAre();
    forall n: u16 ensures ToU16(OfU16(n)) == n {
      WordBijects(2, n, []);
    }
    forall b | |b| == 2 ensures OfU16(ToU16(b)) == b {
      WordBijects(2, 0, b);
    }
    forall n: u32 ensures ToU32(OfU32(n)) == n {
      WordBijects(4, n, []);
    }
    forall b | |b| == 4 ensures OfU32(ToU32(b)) == b {
      WordBijects(4, 0, b);
    }
    forall n: u64 ensures ToU64(OfU64(n)) == n {
      WordBijects(8, n, []);
    }
    forall b | |b| == 8 ensures OfU64(ToU64(b)) == b {
      WordBijects(8, 0, b);
    }
    AtomLaws(2, OfU16, ToU16);
    AtomLaws(4, OfU32, ToU32);
    AtomLaws(8, OfU64, ToU64);
  }

  function ToBytes32(b: Bytes): Bytes32 {
    if |b| == 32 then b else ZERO32
  }

  function ToAddress(b: Bytes): Address {
    if |b| == 20 then b else Zeros(20)
  }

  function OfBytes32(x: Bytes32): Bytes {
    x
  }

  function OfAddress(x: Address): Bytes {
    x
  }

  function OfByte(x: byte): Bytes {
    [x]
  }

  function ToByte(b: Bytes): byte {
    if b == [] then 0 else b[0]
  }

  function Fixed32(): Codec<Bytes32> {
    Atom(32, OfBytes32, ToBytes32)
  }

  function Fixed20(): Codec<Address> {
    Atom(20, OfAddress, ToAddress)
  }

  function OneByte(): Codec<byte> {
    Atom(1, OfByte, ToByte)
  }

  lemma FixedLaws()
    ensures Appends(Fixed32()) && Inverts(Fixed32()) && OnlyWritten(Fixed32())
    ensures Appends(Fixed20()) && Inverts(Fixed20()) && OnlyWritten(Fixed20())
    ensures Appends(OneByte()) && Inverts(OneByte()) && OnlyWritten(OneByte())
  {
    hide Appends, Inverts, OnlyWritten;
    AtomLaws(32, OfBytes32, ToBytes32);
    AtomLaws(20, OfAddress, ToAddress);
    AtomLaws(1, OfByte, ToByte);
  }

  lemma U32Put(n: u32)
    ensures U32().put([], n) == Encode(n, 4)
  {
    assert [] + OfU32(n) == OfU32(n);
  }

  lemma U32Inverts(n: u32, rest: Bytes)
    ensures U32().read(Encode(n, 4) + rest) == Some((n, rest))
  {
    hide U32;
    WordLaws();
    U32Put(n);
    assert U32().ok(n) by {
      U32Ok(n);
    }
  }

  lemma U32Ok(n: u32)
    ensures U32().ok(n)
  {
  }

  lemma U32Only(b: Bytes)
    requires U32().read(b).Some?
    ensures var (n, rest) := U32().read(b).value; Encode(n, 4) + rest == b
  {
    hide U32;
    WordLaws();
    assert ReadsOnly(U32(), b);
    U32Put(U32().read(b).value.0);
  }

  /** A four-byte count, then that many elements. */
  function Vec<T>(c: Codec<T>): Codec<seq<T>> {
    Codec(
      (xs: seq<T>) => |xs| < LEN_LIMIT && AllOk(c, xs),
      (out: Bytes, xs: seq<T>) => PutAll(c, out + Encode(|xs|, 4), xs),
      (b: Bytes) => match U32().read(b) case None => None case Some(n) => ReadMany(c, n.0, n.1))
  }

  lemma VecPut<T(!new)>(c: Codec<T>, out: Bytes, xs: seq<T>)
    requires Appends(c)
    ensures Vec(c).put(out, xs) == out + (Encode(|xs|, 4) + PutAll(c, [], xs))
    ensures Vec(c).put([], xs) == Encode(|xs|, 4) + PutAll(c, [], xs)
  {
    hide *;
    var head := Encode(|xs|, 4);
    VecPuts(c, out, xs);
    VecPuts(c, [], xs);
    PutAllAppends(c, out + head, xs);
    PutAllAppends(c, head, xs);
    assert [] + head == head;
    assert out + head + PutAll(c, [], xs) == out + (head + PutAll(c, [], xs));
  }

  lemma VecPuts<T>(c: Codec<T>, out: Bytes, xs: seq<T>)
    ensures Vec(c).put(out, xs) == PutAll(c, out + Encode(|xs|, 4), xs)
  {
    hide Encode, PutAll;
  }

  lemma VecLaws<T(!new)>(c: Codec<T>)
    requires Appends(c)
    ensures Appends(Vec(c))
    ensures Inverts(c) ==> Inverts(Vec(c))
    ensures OnlyWritten(c) ==> OnlyWritten(Vec(c))
  {
    forall out, xs
      ensures Vec(c).put(out, xs) == out + Vec(c).put([], xs)
    {
      hide *;
      VecPut(c, out, xs);
    }
    if Inverts(c) {
      forall xs, rest | Vec(c).ok(xs)
        ensures Vec(c).read(Vec(c).put([], xs) + rest) == Some((xs, rest))
      {
        VecInverts(c, xs, rest);
      }
    }
    if OnlyWritten(c) {
      forall b
        ensures ReadsOnly(Vec(c), b)
      {
        if Vec(c).read(b).Some? {
          VecOnly(c, b);
        }
      }
    }
  }

  lemma VecRead<T>(c: Codec<T>, b: Bytes)
    ensures Vec(c).read(b) == match U32().read(b) case None => None case Some(n) => ReadMany(c, n.0, n.1)
    ensures forall xs :: Vec(c).ok(xs) <==> |xs| < 0x1_0000_0000 && AllOk(c, xs)
  {
    hide U32, ReadMany, AllOk;
  }

  lemma VecInverts<T(!new)>(c: Codec<T>, xs: seq<T>, rest: Bytes)
    requires Appends(c) && Inverts(c) && Vec(c).ok(xs)
    ensures Vec(c).read(Vec(c).put([], xs) + rest) == Some((xs, rest))
  {
    hide *;
    VecPut(c, [], xs);
    VecRead(c, Vec(c).put([], xs) + rest);
    U32Inverts(|xs|, PutAll(c, [], xs) + rest);
    ManyInverts(c, xs, rest);
    assert Encode(|xs|, 4) + PutAll(c, [], xs) + rest == Encode(|xs|, 4) + (PutAll(c, [], xs) + rest);
  }

  lemma VecOnly<T(!new)>(c: Codec<T>, b: Bytes)
    requires Appends(c) && OnlyWritten(c) && Vec(c).read(b).Some?
    ensures Vec(c).ok(Vec(c).read(b).value.0)
    ensures Vec(c).put([], Vec(c).read(b).value.0) + Vec(c).read(b).value.1 == b
  {
    hide *;
    VecRead(c, b);
    U32Only(b);
    var (n, r) := U32().read(b).value;
    ManyOnly(c, n, r);
    var (xs, rest) := ReadMany(c, n, r).value;
    VecPut(c, [], xs);
    assert Encode(n, 4) + PutAll(c, [], xs) + rest == Encode(n, 4) + (PutAll(c, [], xs) + rest);
  }

  // ----- byte strings

  /** A four-byte length, then the bytes. */
  function ByteString(): Codec<Bytes> {
    Codec(
      (x: Bytes) => |x| < LEN_LIMIT,
      (out: Bytes, x: Bytes) => out + Encode(|x|, 4) + x,
      (b: Bytes) => match U32().read(b) case None => None case Some(n) => Take(n.0, n.1))
  }

  lemma ByteStringLaws()
    ensures Appends(ByteString()) && Inverts(ByteString()) && OnlyWritten(ByteString())
    ensures forall x :: ByteString().ok(x) <==> |x| < LEN_LIMIT
  {
    hide Encode, U32;
    forall out, x
      ensures ByteString().put(out, x) == out + ByteString().put([], x)
      ensures ByteString().put([], x) == Encode(|x|, 4) + x
    {
      assert [] + Encode(|x|, 4) == Encode(|x|, 4);
    }
    forall x, rest | ByteString().ok(x)
      ensures ByteString().read(ByteString().put([], x) + rest) == Some((x, rest))
    {
      assert ByteString().put([], x) + rest == Encode(|x|, 4) + (x + rest);
      U32Inverts(|x|, x + rest);
      TakeFront(x, rest);
    }
    forall b
      ensures ReadsOnly(ByteString(), b)
    {
      if ByteString().read(b).Some? {
        U32Only(b);
        var (n, rest) := U32().read(b).value;
        TakeOnly(n, rest);
        var (x, more) := Take(n, rest).value;
        assert Encode(n, 4) + x + more == Encode(n, 4) + (x + more);
      }
    }
  }

  /** A value with an encoding of its own, carried as a byte string. */
  function Blob<T(==)>(encode: T -> Bytes, decode: Bytes -> Option<T>): Codec<T> {
    Codec(
      (x: T) => |encode(x)| < LEN_LIMIT && decode(encode(x)) == Some(x),
      (out: Bytes, x: T) => ByteString().put(out, encode(x)),
      (b: Bytes) =>
        match ByteString().read(b)
        case None => None
        case Some(v) =>
          match decode(v.0)
          case None => None
          case Some(x) => Some((x, v.1)))
  }

  ghost predicate Canonical<T>(encode: T -> Bytes, decode: Bytes -> Option<T>) {
    forall b | decode(b).Some? :: encode(decode(b).value) == b
  }

  lemma BlobLaws<T(!new)>(encode: T -> Bytes, decode: Bytes -> Option<T>)
    ensures Appends(Blob(encode, decode)) && Inverts(Blob(encode, decode))
    ensures Canonical(encode, decode) ==> OnlyWritten(Blob(encode, decode))
  {
    hide ByteString;
    ByteStringLaws();
    if Canonical(encode, decode) {
      forall b
        ensures ReadsOnly(Blob(encode, decode), b)
      {
        assert ReadsOnly(ByteString(), b);
      }
    }
  }
}
