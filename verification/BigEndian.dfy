/** Big-endian words: their value, their encoding, their order and their sum. */
module BigEndian {
  import opened ByteWords

  function Pow256(n: nat): nat
    ensures Pow256(n) > 0
  {
    if n == 0 then 1 else 256 * Pow256(n - 1)
  }

  function Value(b: Bytes): nat {
    if b == [] then 0 else 256 * Value(b[..|b| - 1]) + b[|b| - 1]
  }

  /** The low `len` bytes of n, most significant first. */
  function Encode(n: nat, len: nat): (b: Bytes)
    ensures |b| == len
  {
    if len == 0 then [] else Encode(n / 256, len - 1) + [n % 256]
  }

  lemma {:induction false} ValueBound(b: Bytes)
    ensures Value(b) < Pow256(|b|)
  {
    if b != [] {
      ValueBound(b[..|b| - 1]);
    }
  }

  lemma {:induction false} ValueEncode(n: nat, len: nat)
    requires n < Pow256(len)
    ensures Value(Encode(n, len)) == n
  {
    if len > 0 {
      ValueEncode(n / 256, len - 1);
    }
  }

  lemma {:induction false} EncodeValue(b: Bytes)
    ensures Encode(Value(b), |b|) == b
  {
    if b != [] {
      EncodeValue(b[..|b| - 1]);
      assert b == b[..|b| - 1] + [b[|b| - 1]];
    }
  }

  lemma Times256(x: nat, p: nat)
    ensures 256 * (x * p) == x * (256 * p)
  {
  }

  /** Values split at any byte. */
  lemma {:induction false} ValueSplit(a: Bytes, b: Bytes)
    ensures Value(a + b) == Value(a) * Pow256(|b|) + Value(b)
  {
    if b == [] {
      assert a + b == a;
    } else {
      var last := |b| - 1;
      assert (a + b)[..|a + b| - 1] == a + b[..last];
      ValueSplit(a, b[..last]);
      Times256(Value(a), Pow256(last));
      assert Pow256(|b|) == 256 * Pow256(last);
      ValuePush(a + b[..last], b[last]);
      ValuePush(b[..last], b[last]);
      assert a + b == a + b[..last] + [b[last]] && b == b[..last] + [b[last]];
    }
  }

  lemma ValuePush(b: Bytes, x: byte)
    ensures Value(b + [x]) == 256 * Value(b) + x
  {
    assert (b + [x])[..|b|] == b;
  }

  lemma {:induction false} ValueZeros(n: nat, b: Bytes)
    ensures Value(Zeros(n) + b) == Value(b)
    ensures Value(Zeros(n)) == 0
  {
    if n == 0 {
      assert Zeros(0) + b == b;
    } else {
      ZerosPush(n);
      assert Zeros(n)[..n - 1] == Zeros(n - 1);
      ValueZeros(n - 1, b);
      ValueSplit(Zeros(n), b);
    }
  }

  lemma ZerosPush(n: nat)
    requires n > 0
    ensures Zeros(n) == Zeros(n - 1) + [0]
  {
  }

  // ----- order

  /** Byte-wise lexicographic order, as slices compare. */
  predicate LexGreater(a: Bytes, b: Bytes)
    requires |a| == |b|
  {
    a != [] && (a[0] > b[0] || (a[0] == b[0] && LexGreater(a[1..], b[1..])))
  }

  /** On words of one width the lexicographic order is the order of their values. */
  lemma {:induction false} LexIsOrder(a: Bytes, b: Bytes)
    requires |a| == |b|
    ensures LexGreater(a, b) <==> Value(a) > Value(b)
  {
    if a != [] {
      LexIsOrder(a[1..], b[1..]);
      assert a == [a[0]] + a[1..] && b == [b[0]] + b[1..];
      ValueSplit([a[0]], a[1..]);
      ValueSplit([b[0]], b[1..]);
      ValueBound(a[1..]);
      ValueBound(b[1..]);
      assert Value([a[0]]) == a[0] && Value([b[0]]) == b[0];
      HighByteDecides(a[0], b[0], Value(a[1..]), Value(b[1..]), Pow256(|a| - 1));
    }
  }

  lemma HighByteDecides(a: nat, b: nat, x: nat, y: nat, p: nat)
    requires x < p && y < p
    ensures a * p + x > b * p + y <==> a > b || (a == b && x > y)
  {
    if a > b {
      assert a * p >= (b + 1) * p == b * p + p;
    } else if a < b {
      assert b * p >= (a + 1) * p == a * p + p;
    }
  }

  // ----- addition with carry

  /** Adds `right` into the array, byte by byte from the end, dropping the last carry: the sum
      modulo the word size. */
  method AddInto(left: array<byte>, right: Bytes)
    requires left.Length == |right|
    modifies left
    ensures var sum := Value(old(left[..])) + Value(right);
            Value(left[..]) == if sum < Pow256(|right|) then sum else sum - Pow256(|right|)
  {
    hide Value, Pow256;
    var n := left.Length;
    ghost var before := left[..];
    var carry: nat := 0;
    AddStart();
    assert left[n..] == [] && before[n..] == [] && right[n..] == [];
    for i := n downto 0
      invariant 0 <= carry <= 1
      invariant left[..i] == before[..i]
      invariant Value(left[i..]) + (if carry == 1 then Pow256(n - i) else 0) == Value(before[i..]) + Value(right[i..])
    {
      var sum: nat := left[i] + right[i] + carry;
      ghost var tail := left[i + 1..];
      left[i] := sum % 256;
      assert left[i + 1..] == tail;
      assert left[i..] == [sum % 256] + tail;
      assert before[i..] == [before[i]] + before[i + 1..];
      assert right[i..] == [right[i]] + right[i + 1..];
      AddStep(before[i], before[i + 1..], right[i], right[i + 1..], carry, tail, sum % 256, sum / 256);
      carry := sum / 256;
    }
    assert left[0..] == left[..] && before[0..] == before && right[0..] == right;
    ValueBound(left[..]);
    ValueBound(before);
    ValueBound(right);
  }

  lemma AddStart()
    ensures Value([]) == 0
  {
  }

  function Times(a: nat, p: nat): nat {
    if a == 0 then 0 else p + Times(a - 1, p)
  }

  lemma {:induction false} TimesIs(a: nat, p: nat)
    ensures Times(a, p) == a * p
  {
    if a > 0 {
      TimesIs(a - 1, p);
    }
  }

  lemma HeadValue(b: byte, rest: Bytes)
    ensures Value([b] + rest) == Times(b, Pow256(|rest|)) + Value(rest)
  {
    TimesIs(b, Pow256(|rest|));
    ValueSplit([b], rest);
    assert Value([b]) == b;
  }

  lemma AddStep(a: byte, x: Bytes, b: byte, y: Bytes, carry: nat, tail: Bytes, low: byte, out: nat)
    requires |x| == |y| == |tail| && carry <= 1
    requires a + b + carry == 256 * out + low && out <= 1
    requires Value(tail) + (if carry == 1 then Pow256(|tail|) else 0) == Value(x) + Value(y)
    ensures Value([low] + tail) + (if out == 1 then Pow256(|tail| + 1) else 0) == Value([a] + x) + Value([b] + y)
  {
    hide *;
    var p := Pow256(|tail|);
    var sum: nat := a + b + carry;
    PowStep(|tail|);
    HeadValue(a, x);
    HeadValue(b, y);
    HeadValue(low, tail);
    TimesSum(sum, a, b, carry, p);
    TimesUnits(sum, low, carry, p);
  }

  lemma PowStep(n: nat)
    ensures Pow256(n + 1) == 256 * Pow256(n)
  {
  }

  lemma TimesSum(sum: nat, a: nat, b: nat, c: nat, p: nat)
    requires sum == a + b + c
    ensures Times(sum, p) == Times(a, p) + Times(b, p) + Times(c, p)
  {
    hide Times;
    TimesIs(a + b + c, p);
    TimesIs(a, p);
    TimesIs(b, p);
    TimesIs(c, p);
  }

  lemma TimesUnits(sum: nat, low: nat, carry: nat, p: nat)
    requires carry <= 1
    ensures Times(carry, p) == if carry == 1 then p else 0
    ensures sum == low ==> Times(sum, p) == Times(low, p)
    ensures sum == 256 + low ==> Times(sum, p) == 256 * p + Times(low, p)
  {
    TimesIs(sum, p);
    TimesIs(low, p);
  }
}
