/** Bytes, fixed-width words and the bits of a 32-byte key. */
module ByteWords {
  type byte = x: int | 0 <= x < 256
  type Bytes = seq<byte>

  type Bytes32 = b: Bytes | |b| == 32 witness Zeros(32)

  const ZERO32: Bytes32 := Zeros(32)

  function Zeros(n: nat): (z: Bytes)
    ensures |z| == n
    ensures forall i | 0 <= i < n :: z[i] == 0
  {
    if n == 0 then [] else [0] + Zeros(n - 1)
  }

  /** Bit j (least significant first) of the number b. */
  predicate BitOf(b: nat, j: nat) {
    if j == 0 then b % 2 == 1 else BitOf(b / 2, j - 1)
  }

  /** Bit `index` of a key: byte by byte, least significant bit first. */
  predicate BitAt(key: Bytes32, index: nat)
    requires index < 256
  {
    BitOf(key[index / 8], index % 8)
  }

  lemma {:induction false} ByteFromBits(a: nat, b: nat, n: nat)
    requires a < Pow2(n) && b < Pow2(n)
    requires forall j | 0 <= j < n :: BitOf(a, j) == BitOf(b, j)
    ensures a == b
  {
    if n > 0 {
      assert BitOf(a, 0) == BitOf(b, 0);
      forall j | 0 <= j < n - 1
        ensures BitOf(a / 2, j) == BitOf(b / 2, j)
      {
        assert BitOf(a, j + 1) == BitOf(b, j + 1);
      }
      ByteFromBits(a / 2, b / 2, n - 1);
    }
  }

  function Pow2(n: nat): nat
    ensures Pow2(n) > 0
  {
    if n == 0 then 1 else 2 * Pow2(n - 1)
  }

  /** Shifting j places to the right leaves bit j as the lowest. */
  lemma {:induction false} BitIsShift(b: nat, j: nat)
    ensures BitOf(b, j) <==> b / Pow2(j) % 2 == 1
  {
    if j > 0 {
      BitIsShift(b / 2, j - 1);
      HalfFirst(b, Pow2(j - 1));
    }
  }

  lemma HalfFirst(b: nat, p: nat)
    requires p > 0
    ensures b / 2 / p == b / (2 * p)
  {
    var m := b / 2;
    var q, r := m / p, m % p;
    TwiceOf(p, q);
    QuotientOf(b, 2 * p, q, 2 * r + b % 2);
  }

  lemma TwiceOf(p: nat, q: nat)
    ensures 2 * (p * q) == (2 * p) * q
  {
  }

  lemma QuotientOf(n: nat, p: nat, q: nat, r: nat)
    requires n == p * q + r && r < p
    ensures n / p == q
  {
    var q', r' := n / p, n % p;
    assert p * (q - q') == r' - r;
    if q > q' {
      AtLeast(p, q - q');
    } else if q < q' {
      AtLeast(p, q' - q);
    }
  }

  lemma AtLeast(p: nat, n: nat)
    requires n >= 1
    ensures p * n >= p
  {
  }

  /** Two keys agree on every bit below `depth`. */
  ghost predicate Agree(a: Bytes32, b: Bytes32, depth: nat)
    requires depth <= 256
  {
    forall i | 0 <= i < depth :: BitAt(a, i) == BitAt(b, i)
  }

  /** The bits determine the key, so distinct keys differ in some bit. */
  lemma AgreeAll(a: Bytes32, b: Bytes32)
    requires Agree(a, b, 256)
    ensures a == b
  {
    assert Pow2(8) == 256 by {
      assert Pow2(4) == 16;
    }
    forall n | 0 <= n < 32
      ensures a[n] == b[n]
    {
      forall j | 0 <= j < 8
        ensures BitOf(a[n], j) == BitOf(b[n], j)
      {
        var i := 8 * n + j;
        assert i / 8 == n && i % 8 == j;
        assert BitAt(a, i) == BitAt(b, i);
      }
      ByteFromBits(a[n], b[n], 8);
    }
  }
}
