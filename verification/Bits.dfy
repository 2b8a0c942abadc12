/** Bits, bytes and the C++ integer operators the engine uses, on unbounded naturals.
    Shl, Shr and Low are `v << k`, `v >> k` and `v` truncated to k bits; every truncation
    to a fixed width is written out at the place where it happens. They are defined bit
    by bit; only the lemmas about remainders need non-linear arithmetic. */
module Bits {
  type Bit = b: nat | b < 2
  type Byte = n: nat | n < 256

  const TWO_TO_THE_64: nat := 0x1_0000_0000_0000_0000

  function Pow2(n: nat): (p: nat)
    ensures p > 0
  {
    if n == 0 then 1 else 2 * Pow2(n - 1)
  }

  function Shl(v: nat, k: nat): nat {
    if k == 0 then v else 2 * Shl(v, k - 1)
  }

  function Shr(v: nat, k: nat): nat {
    if k == 0 then v else Shr(v / 2, k - 1)
  }

  function Low(v: nat, k: nat): (r: nat)
    ensures r < Pow2(k)
  {
    if k == 0 then 0 else 2 * Low(v / 2, k - 1) + v % 2
  }

  /** A cast to uint8_t. */
  function ToByte(v: nat): (b: Byte)
    ensures b == v % 256
  {
    Pow2Values();
    LowIsRemainder(v, 8);
    Low(v, 8)
  }

  function BitAnd(a: nat, b: nat): nat {
    if a == 0 || b == 0 then 0
    else (if a % 2 == 1 && b % 2 == 1 then 1 else 0) + 2 * BitAnd(a / 2, b / 2)
  }

  function BitOr(a: nat, b: nat): nat
    decreases a + b
  {
    if a == 0 then b
    else if b == 0 then a
    else (if a % 2 == 1 || b % 2 == 1 then 1 else 0) + 2 * BitOr(a / 2, b / 2)
  }

  /** The number a bit string denotes, most significant bit first. */
  function Value(bits: seq<Bit>): (v: nat)
    ensures v < Pow2(|bits|)
  {
    if bits == [] then 0 else 2 * Value(bits[..|bits| - 1]) + bits[|bits| - 1]
  }

  /** The n low-order bits of v, most significant bit first. */
  function Digits(v: nat, n: nat): (bits: seq<Bit>)
    ensures |bits| == n
  {
    if n == 0 then [] else Digits(v / 2, n - 1) + [v % 2]
  }

  function Zeros(n: nat): (z: seq<Bit>)
    ensures |z| == n
  {
    seq(n, _ => 0)
  }

  // ---------- powers of two and fixed widths ----------

  lemma Pow2Values()
    ensures Pow2(0) == 1 && Pow2(1) == 2 && Pow2(2) == 4 && Pow2(3) == 8 && Pow2(4) == 16
    ensures Pow2(5) == 32 && Pow2(6) == 64 && Pow2(7) == 128 && Pow2(8) == 256 && Pow2(16) == 65536
  {
    assert Pow2(4) == 16;
    assert Pow2(8) == 256;
    assert Pow2(12) == 4096;
  }

  lemma {:induction false} Pow2Monotone(m: nat, n: nat)
    requires m <= n
    ensures Pow2(m) <= Pow2(n)
    decreases n
  {
    if m < n { Pow2Monotone(m, n - 1); }
  }

  /** Low is the remainder modulo a power of two, so Low(v, 8) is a cast to uint8_t. */
  lemma {:induction false} LowIsRemainder(v: nat, k: nat)
    ensures Low(v, k) == v % Pow2(k)
  {
    if k > 0 {
      LowIsRemainder(v / 2, k - 1);
      RemainderTwice(v, Pow2(k - 1));
    }
  }

  lemma RemainderTwice(v: nat, p: nat)
    requires p > 0
    ensures v % (2 * p) == 2 * (v / 2 % p) + v % 2
  {
    var q, r := v / 2 / p, v / 2 % p;
    var s := 2 * r + v % 2;
    assert v / 2 == q * p + r;
    assert v == q * (2 * p) + s && s < 2 * p by { assert q * (2 * p) == 2 * (q * p); }
    RemainderUnique(v, q, 2 * p, s);
  }

  lemma RemainderUnique(v: nat, q: nat, d: nat, r: nat)
    requires v == q * d + r && r < d
    ensures v % d == r && v / d == q
  {
    var q', r' := v / d, v % d;
    assert v == q' * d + r';
    if q < q' {
      ProductMonotone(q + 1, q', d);
    } else if q' < q {
      ProductMonotone(q' + 1, q, d);
    }
  }

  lemma ProductMonotone(a: nat, b: nat, c: nat)
    requires a <= b
    ensures a * c <= b * c
  {}

  lemma {:induction false} LowSmall(v: nat, k: nat)
    requires v < Pow2(k)
    ensures Low(v, k) == v && Shr(v, k) == 0
  {
    if k > 0 { LowSmall(v / 2, k - 1); }
  }

  lemma {:induction false} ShlBound(v: nat, n: nat, k: nat)
    requires v < Pow2(n)
    ensures Shl(v, k) + Pow2(k) <= Pow2(n + k)
  {
    if k > 0 { ShlBound(v, n, k - 1); }
  }

  /** A word split at bit k: the high part above, the low part below. */
  lemma {:induction false} ShlSplit(high: nat, low: nat, k: nat)
    requires low < Pow2(k)
    ensures Shr(Shl(high, k) + low, k) == high && Low(Shl(high, k) + low, k) == low
  {
    if k > 0 {
      ShlSplit(high, low / 2, k - 1);
      assert (Shl(high, k) + low) / 2 == Shl(high, k - 1) + low / 2;
    }
  }

  lemma {:induction false} ShlTwice(v: nat, j: nat, k: nat)
    ensures Shl(Shl(v, j), k) == Shl(v, j + k)
  {
    if k > 0 { ShlTwice(v, j, k - 1); }
  }

  lemma {:induction false} ShlSum(v: nat, w: nat, k: nat)
    ensures Shl(v + w, k) == Shl(v, k) + Shl(w, k)
  {
    if k > 0 { ShlSum(v, w, k - 1); }
  }

  // ---------- the operators as arithmetic ----------

  lemma {:induction false} ShlIsProduct(v: nat, k: nat)
    ensures Shl(v, k) == v * Pow2(k)
  {
    if k > 0 {
      ShlIsProduct(v, k - 1);
      assert 2 * (v * Pow2(k - 1)) == v * (2 * Pow2(k - 1));
    }
  }

  lemma {:induction false} ShrAndLow(v: nat, k: nat)
    ensures v == Shl(Shr(v, k), k) + Low(v, k)
    decreases k
  {
    if k > 0 { ShrAndLow(v / 2, k - 1); }
  }

  lemma ShrIsQuotient(v: nat, k: nat)
    ensures Shr(v, k) == v / Pow2(k)
  {
    ShrAndLow(v, k);
    ShlIsProduct(Shr(v, k), k);
    RemainderUnique(v, Shr(v, k), Pow2(k), Low(v, k));
  }

  /** `x & y` and `x | y`, digit by digit. */
  lemma {:induction false} BitwiseDigits(x: nat, y: nat, n: nat, i: nat)
    requires i < n
    ensures Digits(BitAnd(x, y), n)[i] == 1 <==> Digits(x, n)[i] == 1 && Digits(y, n)[i] == 1
    ensures Digits(BitOr(x, y), n)[i] == 1 <==> Digits(x, n)[i] == 1 || Digits(y, n)[i] == 1
    decreases n
  {
    BitwiseHalves(x, y);
    hide BitAnd, BitOr;
    if i < n - 1 { BitwiseDigits(x / 2, y / 2, n - 1, i); }
  }

  lemma BitwiseHalves(x: nat, y: nat)
    ensures BitAnd(x, y) / 2 == BitAnd(x / 2, y / 2) && BitOr(x, y) / 2 == BitOr(x / 2, y / 2)
    ensures BitAnd(x, y) % 2 == 1 <==> x % 2 == 1 && y % 2 == 1
    ensures BitOr(x, y) % 2 == 1 <==> x % 2 == 1 || y % 2 == 1
  {}

  /** Digit i of n, counted from the most significant one. */
  lemma {:induction false} DigitIsQuotient(v: nat, n: nat, i: nat)
    requires i < n
    ensures Digits(v, n)[i] == v / Pow2(n - 1 - i) % 2
    decreases n
  {
    if i < n - 1 {
      DigitIsQuotient(v / 2, n - 1, i);
      ShrIsQuotient(v, n - 1 - i);
      ShrIsQuotient(v / 2, n - 2 - i);
    }
  }

  // ---------- Value and Digits are inverse ----------

  lemma {:induction false} ValueOfDigits(v: nat, n: nat)
    ensures Value(Digits(v, n)) == Low(v, n)
  {
    if n > 0 {
      ValueOfDigits(v / 2, n - 1);
      assert Digits(v, n)[..n - 1] == Digits(v / 2, n - 1);
    }
  }

  lemma SmallByte(v: nat)
    requires v < 256
    ensures Low(v, 8) == v && ToByte(v) == v
  {
    Pow2Values();
    LowSmall(v, 8);
  }

  lemma ByteOfDigits(b: Byte)
    ensures Value(Digits(b, 8)) == b
  {
    SmallByte(b);
    ValueOfDigits(b, 8);
  }

  lemma {:induction false} DigitsOfValue(bits: seq<Bit>)
    ensures Digits(Value(bits), |bits|) == bits
  {
    if bits != [] {
      DigitsOfValue(bits[..|bits| - 1]);
    }
  }

  lemma ValueInjective(a: seq<Bit>, b: seq<Bit>)
    requires |a| == |b| && Value(a) == Value(b)
    ensures a == b
  {
    DigitsOfValue(a);
    DigitsOfValue(b);
  }

  /** Concatenating bit strings is shifting and adding: `(x << n) + y`. */
  lemma {:induction false} ValueConcat(a: seq<Bit>, b: seq<Bit>)
    ensures Value(a + b) == Shl(Value(a), |b|) + Value(b)
  {
    if b == [] {
      assert a + b == a;
    } else {
      var front := b[..|b| - 1];
      assert (a + b)[..|a + b| - 1] == a + front;
      ValueConcat(a, front);
    }
  }

  lemma DigitsConcat(v: nat, m: nat, w: nat, n: nat)
    requires v < Pow2(m) && w < Pow2(n)
    ensures Shl(v, n) + w < Pow2(m + n)
    ensures Digits(Shl(v, n) + w, m + n) == Digits(v, m) + Digits(w, n)
  {
    hide *;
    var bits := Digits(v, m) + Digits(w, n);
    ValueConcat(Digits(v, m), Digits(w, n));
    ValueOfDigits(v, m);
    ValueOfDigits(w, n);
    LowSmall(v, m);
    LowSmall(w, n);
    DigitsOfValue(bits);
  }

  lemma {:induction false} ValueZeros(n: nat)
    ensures Value(Zeros(n)) == 0
  {
    if n > 0 {
      ValueZeros(n - 1);
      assert Zeros(n)[..n - 1] == Zeros(n - 1);
    }
  }

  /** `(word >> bits after the slice)` truncated to the slice's width is the slice. */
  lemma ValueSlice(bits: seq<Bit>, a: nat, k: nat)
    requires a + k <= |bits|
    ensures Low(Shr(Value(bits), |bits| - a - k), k) == Value(bits[a..a + k])
  {
    hide *;
    var pre, mid, post := bits[..a], bits[a..a + k], bits[a + k..];
    assert bits == (pre + mid) + post;
    ValueConcat(pre + mid, post);
    ValueConcat(pre, mid);
    ShlSplit(Value(pre + mid), Value(post), |post|);
    ShlSplit(Value(pre), Value(mid), k);
  }

  // ---------- bitwise operators ----------

  lemma {:induction false} BitAndSelf(a: nat)
    ensures BitAnd(a, a) == a
  {
    if a > 0 { BitAndSelf(a / 2); }
  }

  /** Masking with k ones keeps the k low bits. */
  lemma {:induction false} BitAndMask(a: nat, k: nat)
    ensures BitAnd(a, Pow2(k) - 1) == Low(a, k)
    decreases k
  {
    if k == 0 {
    } else if a == 0 {
      LowSmall(0, k);
    } else {
      BitAndMask(a / 2, k - 1);
    }
  }

  /** Masking with shifted ones: `x & (m << k)` reads the field above bit k. */
  lemma {:induction false} BitAndShifted(a: nat, m: nat, k: nat)
    ensures BitAnd(a, Shl(m, k)) == Shl(BitAnd(Shr(a, k), m), k)
    decreases k
  {
    if k > 0 {
      BitAndShifted(a / 2, m, k - 1);
    }
  }

  /** `|` of disjoint fields is addition. */
  lemma {:induction false} BitOrDisjoint(high: nat, low: nat, k: nat)
    requires low < Pow2(k)
    ensures BitOr(Shl(high, k), low) == Shl(high, k) + low
    decreases k
  {
    if k > 0 {
      BitOrDisjoint(high, low / 2, k - 1);
      assert Shl(high, k) / 2 == Shl(high, k - 1);
    }
  }
}
