/**
 * The token SDK's CBOR reader and writer: arbitrary functions, and what it means that they are
 * canonical CBOR (section 4.2.1 of RFC 8949).
 */
module SdkCbor {
  import opened ByteWords
  import opened Wrappers
  import opened Cbor

  /** Each operation of the SDK's reader, on the bytes of one item. */
  datatype Decoder = Decoder(
    finish: Bytes -> bool,
    expectTag: (nat, Bytes) -> Option<Bytes>,
    items: (nat, Bytes) -> Option<seq<Bytes>>,
    uint: Bytes -> Option<nat>,
    bytesValue: Bytes -> Option<Bytes>)

  datatype Encoder = Encoder(
    uint: nat -> Bytes,
    byteString: Bytes -> Bytes,
    text: Bytes -> Bytes,
    items: seq<Bytes> -> Bytes)

  function Joined(items: seq<Bytes>): Bytes {
    if items == [] then [] else items[0] + Joined(items[1..])
  }

  /** An array item of the given items. */
  function ArrayItem(items: seq<Bytes>): Bytes {
    ArrayHeader(|items|) + Joined(items)
  }

  // ----- the contract

  /** What the reader accepts is the canonical form of what it returns, once `finish` has accepted
      the bytes as one item with nothing after it. */
  ghost predicate ReadsOnlyCanonical(d: Decoder) {
    && (forall t: nat, b | d.finish(b) && d.expectTag(t, b).Some? ::
          t < ARG_LIMIT && b == Tag(t) + d.expectTag(t, b).value && d.finish(d.expectTag(t, b).value))
    && (forall n: nat, b | d.finish(b) && d.items(n, b).Some? :: ArrayExact(d, n, b))
    && (forall b | d.finish(b) && d.uint(b).Some? :: d.uint(b).value < ARG_LIMIT && b == Uint(d.uint(b).value))
    && (forall b | d.finish(b) && d.bytesValue(b).Some? ::
          |d.bytesValue(b).value| < ARG_LIMIT && b == ByteString(d.bytesValue(b).value))
  }

  ghost predicate ArrayExact(d: Decoder, n: nat, b: Bytes)
    requires d.items(n, b).Some?
  {
    var items := d.items(n, b).value;
    n < ARG_LIMIT && |items| == n && b == ArrayItem(items) && AllFinish(d, items)
  }

  ghost predicate AllFinish(d: Decoder, items: seq<Bytes>) {
    forall i | 0 <= i < |items| :: d.finish(items[i])
  }

  /** The reader accepts canonical integers, byte strings, arrays of those, and tagged items. */
  ghost predicate ReadsAllCanonical(d: Decoder) {
    && (forall t: nat, inner | t < ARG_LIMIT && d.finish(inner) ::
          d.finish(Tag(t) + inner) && d.expectTag(t, Tag(t) + inner) == Some(inner))
    && (forall items | |items| < ARG_LIMIT && AllAtoms(items) ::
          d.finish(ArrayItem(items)) && d.items(|items|, ArrayItem(items)) == Some(items))
    && (forall n: nat | n < ARG_LIMIT :: d.uint(Uint(n)) == Some(n))
    && (forall x: Bytes | |x| < ARG_LIMIT :: d.bytesValue(ByteString(x)) == Some(x))
  }

  ghost predicate IsAtom(b: Bytes) {
    (exists n: nat | n < ARG_LIMIT :: b == Uint(n)) || (exists x: Bytes | |x| < ARG_LIMIT :: b == ByteString(x))
  }

  ghost predicate AllAtoms(items: seq<Bytes>) {
    forall i | 0 <= i < |items| :: IsAtom(items[i])
  }

  ghost predicate CanonicalDecoder(d: Decoder) {
    ReadsOnlyCanonical(d) && ReadsAllCanonical(d)
  }

  /** The writer writes canonical CBOR. */
  ghost predicate CanonicalEncoder(e: Encoder) {
    && (forall n: nat | n < ARG_LIMIT :: e.uint(n) == Uint(n))
    && (forall x: Bytes | |x| < ARG_LIMIT :: e.byteString(x) == ByteString(x) && e.text(x) == Text(x))
    && (forall items | |items| < ARG_LIMIT :: e.items(items) == ArrayItem(items))
  }

  // ----- a reader that meets it

  /** The length of the integer or byte string that the bytes start with. */
  function AtomLength(b: Bytes): (len: Option<nat>)
    ensures len.Some? ==> len.value <= |b|
  {
    match ReadHead(b)
    case Err(_) => None
    case Ok(head) =>
      ReadHeadOnly(b);
      if head.0.major == 0 then Some(|b| - |head.1|)
      else if head.0.major == 2 && head.0.arg <= |head.1| then Some(|b| - |head.1| + head.0.arg)
      else None
  }

  function SplitItems(n: nat, b: Bytes): Option<seq<Bytes>> {
    if n == 0 then (if b == [] then Some([]) else None)
    else
      var len :- AtomLength(b);
      var more :- SplitItems(n - 1, b[len..]);
      Some([b[..len]] + more)
  }

  function StrictTag(t: nat, b: Bytes): Option<Bytes> {
    match ReadTag(b)
    case Err(_) => None
    case Ok(v) => if v.0 == t then Some(v.1) else None
  }

  function StrictArray(n: nat, b: Bytes): Option<seq<Bytes>> {
    match ReadArrayHeader(b)
    case Err(_) => None
    case Ok(v) => if v.0 == n then SplitItems(n, v.1) else None
  }

  function StrictUint(b: Bytes): Option<nat> {
    match ReadUint(b)
    case Err(_) => None
    case Ok(v) => if v.1 == [] then Some(v.0) else None
  }

  function StrictBytes(b: Bytes): Option<Bytes> {
    match ReadBytes(b)
    case Err(_) => None
    case Ok(v) => if v.1 == [] then Some(v.0) else None
  }

  function Anything(b: Bytes): bool {
    true
  }

  function StrictDecoder(): Decoder {
    Decoder(Anything, StrictTag, StrictArray, StrictUint, StrictBytes)
  }

  lemma JoinedCons(item: Bytes, more: seq<Bytes>)
    ensures Joined([item] + more) == item + Joined(more)
  {
    assert ([item] + more)[1..] == more;
  }

  lemma {:induction false} SplitOnly(n: nat, b: Bytes)
    requires SplitItems(n, b).Some?
    ensures |SplitItems(n, b).value| == n && Joined(SplitItems(n, b).value) == b
  {
    hide AtomLength, Joined;
    if n == 0 {
      NoItems();
    } else {
      var len := AtomLength(b).value;
      SplitOnly(n - 1, b[len..]);
      JoinedCons(b[..len], SplitItems(n - 1, b[len..]).value);
    }
  }

  lemma NoItems()
    ensures Joined([]) == []
  {
  }

  lemma AtomFirst(atom: Bytes, rest: Bytes)
    requires IsAtom(atom)
    ensures AtomLength(atom + rest) == Some(|atom|)
  {
    hide Head, ReadHead;
    if n: nat :| n < ARG_LIMIT && atom == Uint(n) {
      ReadHeadInverts(0, n, rest);
    } else {
      var x: Bytes :| |x| < ARG_LIMIT && atom == ByteString(x);
      assert atom + rest == Head(2, |x|) + (x + rest);
      ReadHeadInverts(2, |x|, x + rest);
    }
  }

  lemma {:induction false} SplitAll(items: seq<Bytes>)
    requires AllAtoms(items)
    ensures SplitItems(|items|, Joined(items)) == Some(items)
  {
    hide AtomLength, IsAtom, Joined;
    if items == [] {
      NoItems();
    } else {
      var first, more := items[0], items[1..];
      assert items == [first] + more;
      JoinedCons(first, more);
      AtomFirst(first, Joined(more));
      SplitAll(more);
      assert (first + Joined(more))[..|first|] == first && (first + Joined(more))[|first|..] == Joined(more);
    }
  }

  /** The contract can be met: the plugin's own strict reader, item by item, meets it. */
  lemma StrictIsCanonical()
    ensures CanonicalDecoder(StrictDecoder())
  {
    hide Head, ReadHead, ReadUint, ReadTag, ReadArrayHeader, ReadBytes, Uint, Tag, ArrayHeader, ByteString, SplitItems,
      IsAtom, Joined;
    var d := StrictDecoder();
    forall t: nat, b | d.expectTag(t, b).Some?
      ensures t < ARG_LIMIT && b == Tag(t) + d.expectTag(t, b).value
    {
      ReadUintOnly(b);
    }
    forall n: nat, b | d.items(n, b).Some?
      ensures ArrayExact(d, n, b)
    {
      ReadUintOnly(b);
      SplitOnly(n, ReadArrayHeader(b).value.1);
    }
    forall b | d.uint(b).Some?
      ensures d.uint(b).value < ARG_LIMIT && b == Uint(d.uint(b).value)
    {
      ReadUintOnly(b);
      assert Uint(d.uint(b).value) + [] == Uint(d.uint(b).value);
    }
    forall b | d.bytesValue(b).Some?
      ensures |d.bytesValue(b).value| < ARG_LIMIT && b == ByteString(d.bytesValue(b).value)
    {
      ReadBytesOnly(b);
      assert ByteString(d.bytesValue(b).value) + [] == ByteString(d.bytesValue(b).value);
    }
    StrictReadsAll();
  }

  lemma StrictReadsAll()
    ensures ReadsAllCanonical(StrictDecoder())
  {
    hide Head, ReadHead, ReadUint, ReadTag, ReadArrayHeader, ReadBytes, Uint, Tag, ArrayHeader, ByteString, SplitItems,
      IsAtom, Joined;
    var d := StrictDecoder();
    forall t: nat, inner | t < ARG_LIMIT
      ensures d.expectTag(t, Tag(t) + inner) == Some(inner)
    {
      ReadUintInverts(t, inner);
    }
    forall items | |items| < ARG_LIMIT && AllAtoms(items)
      ensures d.items(|items|, ArrayItem(items)) == Some(items)
    {
      ReadUintInverts(|items|, Joined(items));
      SplitAll(items);
    }
    forall n: nat | n < ARG_LIMIT
      ensures d.uint(Uint(n)) == Some(n)
    {
      ReadUintInverts(n, []);
      assert Uint(n) + [] == Uint(n);
    }
    forall x: Bytes | |x| < ARG_LIMIT
      ensures d.bytesValue(ByteString(x)) == Some(x)
    {
      ReadBytesInverts(x, []);
      assert ByteString(x) + [] == ByteString(x);
    }
  }
}
