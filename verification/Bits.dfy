/** Machine words as bounded naturals, with the shifts and single-bit masks the
    windows, acknowledgements and header flags are built from. */
module Bits {

  const U16: nat := 0x1_0000
  const U32: nat := 0x1_0000_0000
  const U64: nat := 0x1_0000_0000_0000_0000

  type u8 = x: nat | x < 256
  type u16 = x: nat | x < 0x1_0000
  type u32 = x: nat | x < 0x1_0000_0000
  type u64 = x: nat | x < 0x1_0000_0000_0000_0000

  function Min(a: nat, b: nat): nat { if a < b then a else b }

  function Max(a: nat, b: nat): nat { if a < b then b else a }

  function SaturatingSub(a: nat, b: nat): nat { if a < b then 0 else a - b }

  /** A part is no larger than the whole. */
  lemma {:induction false} SubsetSize<T>(a: set<T>, b: set<T>)
    requires a <= b
    ensures |a| <= |b|
  {
    if a != {} {
      var x :| x in a;
      SubsetSize(a - {x}, b - {x});
    }
  }

  function Pow2(n: nat): (p: nat)
    ensures p > 0
  {
    if n == 0 then 1 else 2 * Pow2(n - 1)
  }

  /** Whether bit `i` of `b` is set: `b & (1 << i) != 0`. */
  predicate Bit(b: nat, i: nat) {
    if i == 0 then b % 2 == 1 else Bit(b / 2, i - 1)
  }

  /** `b | (1 << i)`: a mask of one bit is added exactly when it is missing. */
  function SetBit(b: nat, i: nat): nat {
    if Bit(b, i) then b else b + Pow2(i)
  }

  /** `b << s` on a 64-bit word: what is pushed past the top is lost. */
  function Shl64(b: u64, s: nat): u64 {
    b * Pow2(s) % U64
  }

  /** `a.wrapping_sub(b)` on 32-bit words. */
  function WrapSub(a: u32, b: u32): u32 {
    (a - b) % U32
  }

  lemma Pow2Values()
    ensures Pow2(16) == U16 && Pow2(32) == U32 && Pow2(64) == U64
  {
    assert Pow2(8) == 256;
    assert Pow2(16) == 0x1_0000;
    assert Pow2(24) == 0x100_0000;
    assert Pow2(32) == 0x1_0000_0000;
    assert Pow2(40) == 0x100_0000_0000;
    assert Pow2(48) == 0x1_0000_0000_0000;
    assert Pow2(56) == 0x100_0000_0000_0000;
  }

  lemma {:induction false} ZeroBit(i: nat)
    ensures !Bit(0, i)
  {
    if i > 0 { ZeroBit(i - 1); }
  }

  lemma HalfBound(b: nat, p: nat)
    requires b < 2 * p
    ensures b % 2 == 0 ==> b + 1 < 2 * p
  {
  }

  lemma {:induction false} SetBitBound(b: nat, i: nat, n: nat)
    requires b < Pow2(n) && i < n
    ensures SetBit(b, i) < Pow2(n)
  {
    if i == 0 {
      HalfBound(b, Pow2(n - 1));
    } else {
      SetBitBound(b / 2, i - 1, n - 1);
      assert SetBit(b, i) / 2 == SetBit(b / 2, i - 1);
    }
  }

  lemma {:induction false} SetBitBit(b: nat, i: nat, j: nat)
    ensures Bit(SetBit(b, i), j) <==> j == i || Bit(b, j)
  {
    if i > 0 {
      assert SetBit(b, i) / 2 == SetBit(b / 2, i - 1);
      if j > 0 { SetBitBit(b / 2, i - 1, j - 1); }
    } else if j > 0 {
      assert SetBit(b, 0) / 2 == b / 2;
    }
  }

  lemma {:induction false} ScaledBit(b: nat, s: nat, i: nat)
    ensures Bit(b * Pow2(s), i) <==> i >= s && Bit(b, i - s)
    decreases s
  {
    if s > 0 {
      assert b * Pow2(s) == 2 * (b * Pow2(s - 1));
      if i > 0 { ScaledBit(b, s - 1, i - 1); }
    }
  }

  lemma HalfMod(x: nat, p: nat)
    requires p > 0
    ensures x % (2 * p) / 2 == (x / 2) % p
    ensures x % (2 * p) % 2 == x % 2
  {
    var m := 2 * p;
    var q, r := x / m, x % m;
    var y := p * q;
    assert m * q == 2 * y;
    HalfSum(x, y, r);
    ModAdd(p, q, r / 2);
  }

  lemma HalfSum(x: nat, y: nat, r: nat)
    requires x == 2 * y + r
    ensures x / 2 == y + r / 2 && x % 2 == r % 2
  {
  }

  lemma {:induction false} MulStep(p: nat, a: nat, b: nat)
    requires a < b
    ensures p * b >= p * a + p
  {
    if a + 1 < b { MulStep(p, a, b - 1); }
    assert p * b == p * (b - 1) + p;
  }

  lemma DivUnique(p: nat, q: nat, r: nat, k: nat, t: nat)
    requires p * q + r == p * k + t && r < p && t < p
    ensures q == k && r == t
  {
    if q < k { MulStep(p, q, k); }
    if k < q { MulStep(p, k, q); }
  }

  lemma MulMono(p: nat, a: nat, b: nat)
    requires a <= b
    ensures p * a <= p * b
  {
    if a < b { MulStep(p, a, b); }
  }

  lemma QuotientAnti(n: nat, a: nat, b: nat, x: nat, y: nat)
    requires a <= b && n < a * x + a && y * b <= n
    ensures y <= x
  {
    MulMono(y, a, b);
    if x < y { MulStep(a, x, y); }
  }

  /** A larger divisor gives no larger a quotient. */
  lemma DivAnti(n: nat, a: nat, b: nat)
    requires 0 < a <= b
    ensures n / b <= n / a
  {
    QuotientAnti(n, a, b, n / a, n / b);
  }

  lemma ModAdd(p: nat, q: nat, r: nat)
    requires r < p
    ensures (p * q + r) % p == r && (p * q + r) / p == q
  {
    var x := p * q + r;
    DivUnique(p, q, r, x / p, x % p);
  }

  lemma {:induction false} ModBit(x: nat, n: nat, i: nat)
    requires i < n
    ensures Bit(x % Pow2(n), i) <==> Bit(x, i)
  {
    HalfMod(x, Pow2(n - 1));
    if i > 0 { ModBit(x / 2, n - 1, i - 1); }
  }

  lemma ShlBit(b: u64, s: nat, i: nat)
    requires i < 64
    ensures Bit(Shl64(b, s), i) <==> i >= s && Bit(b, i - s)
  {
    Pow2Values();
    ModBit(b * Pow2(s), 64, i);
    ScaledBit(b, s, i);
  }

  /** `b | (1 << i)` on a 64-bit word. */
  function SetBit64(b: u64, i: nat): (r: u64)
    requires i < 64
    ensures forall j: nat :: Bit(r, j) <==> j == i || Bit(b, j)
  {
    Pow2Values();
    SetBitBound(b, i, 64);
    assert forall j: nat :: Bit(SetBit(b, i), j) <==> j == i || Bit(b, j) by {
      forall j: nat ensures Bit(SetBit(b, i), j) <==> j == i || Bit(b, j) { SetBitBit(b, i, j); }
    }
    SetBit(b, i)
  }

  /** Distances between identifiers survive the wrap: the wire difference of two
      unbounded identifiers less than 2^32 apart is their difference, or that
      difference carried round once. */
  lemma WrapSubOf(a: nat, b: nat)
    requires a < b + U32 && b < a + U32
    ensures WrapSub(a % U32, b % U32) == if a >= b then a - b else a - b + U32
    ensures a % U32 == b % U32 <==> a == b
  {
  }

  lemma WrapOnce(a: nat)
    ensures (a + U32) % U32 == a % U32
  {
  }
}
