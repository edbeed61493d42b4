/**
 The C operators the stream numbering scheme is built from — `<<`, `>>`, `|`
 and `&` — on non-negative integers, written out bit by bit so that the
 conditions under which `|` behaves like `+` are stated and proved rather
 than assumed. Integers are unbounded here; the widths that matter to the
 header (the 8-bit `type` field, 32-bit enum constants) are stated as
 separate bounds where they are used.
 */
module Bits {

  /** 2 to the power n. */
  function Pow2(n: nat): (r: nat)
    ensures r >= 1
  {
    if n == 0 then 1 else 2 * Pow2(n - 1)
  }

  /** `x << n` when no bit is shifted out. */
  function ShiftLeft(x: nat, n: nat): nat
  {
    x * Pow2(n)
  }

  /** `x >> n` (logical shift: x is non-negative), one bit at a time. */
  function ShiftRight(x: nat, n: nat): nat
  {
    if n == 0 then x else ShiftRight(x / 2, n - 1)
  }

  /** The mask of the n lowest bits, as `0xFF` is for n = 8. */
  function LowMask(n: nat): nat
  {
    Pow2(n) - 1
  }

  /** Bitwise `a | b`: a result bit is set when either input bit is. */
  function BitOr(a: nat, b: nat): (r: nat)
    ensures a <= r && b <= r
    ensures r <= a + b
    decreases a + b
  {
    if a == 0 then b
    else if b == 0 then a
    else 2 * BitOr(a / 2, b / 2) + (if a % 2 == 1 || b % 2 == 1 then 1 else 0)
  }

  /** Bitwise `a & b`: a result bit is set when both input bits are. */
  function BitAnd(a: nat, b: nat): (r: nat)
    ensures r <= a && r <= b
    decreases a + b
  {
    if a == 0 || b == 0 then 0
    else 2 * BitAnd(a / 2, b / 2) + (if a % 2 == 1 && b % 2 == 1 then 1 else 0)
  }

  /** `x & x == x`: every bit meets itself. */
  lemma {:induction false} AndSelf(x: nat)
    ensures BitAnd(x, x) == x
    decreases x
  {
    if x > 0 {
      AndSelf(x / 2);
    }
  }

  /** `a | b` keeps every bit of both operands: `(a | b) & a == a` and `(a | b) & b == b`. */
  lemma {:induction false} OrKeepsBits(a: nat, b: nat)
    ensures BitAnd(BitOr(a, b), a) == a
    ensures BitAnd(BitOr(a, b), b) == b
    decreases a + b
  {
    var r := BitOr(a, b);
    if a == 0 {
      AndSelf(b);
    } else if b == 0 {
      AndSelf(a);
    } else {
      var h := BitOr(a / 2, b / 2);
      var bit := if a % 2 == 1 || b % 2 == 1 then 1 else 0;
      assert r == 2 * h + bit;
      assert r / 2 == h && r % 2 == bit;
      OrKeepsBits(a / 2, b / 2);
      assert BitAnd(r, a) == 2 * BitAnd(h, a / 2) + (if bit == 1 && a % 2 == 1 then 1 else 0);
      assert BitAnd(r, b) == 2 * BitAnd(h, b / 2) + (if bit == 1 && b % 2 == 1 then 1 else 0);
    }
  }

  /** `(hi << n) | lo`: the packing both stream macros use. */
  function Pack(hi: nat, lo: nat, n: nat): nat
  {
    BitOr(ShiftLeft(hi, n), lo)
  }

  /** The high part of a packed value, `x >> n`. */
  function High(x: nat, n: nat): nat
  {
    ShiftRight(x, n)
  }

  /** The low part of a packed value, `x & LowMask(n)`. */
  function Low(x: nat, n: nat): nat
  {
    BitAnd(x, LowMask(n))
  }

  /** Division with remainder has one answer: the quotient and remainder fix each other. */
  lemma DivModUnique(x: nat, d: nat, q: nat, r: nat)
    requires 0 <= r < d
    requires x == q * d + r
    ensures x / d == q && x % d == r
  {
    var q', r' := x / d, x % d;
    assert x == q' * d + r';
    MulMonotone(d, q + 1, q');
    MulMonotone(d, q' + 1, q);
  }

  /** A value is its quotient times the divisor plus its remainder. */
  lemma DivModSplit(x: nat, d: nat)
    requires d >= 1
    ensures x == (x / d) * d + x % d
  {
  }

  /** Multiplying by a non-negative factor keeps order. */
  lemma MulMonotone(d: nat, a: int, b: int)
    ensures a <= b ==> a * d <= b * d
  {
  }

  /** Halving splits a remainder modulo 2p into its top part modulo p and the lowest bit. */
  lemma ModOfDouble(x: nat, p: nat)
    requires p >= 1
    ensures x % (2 * p) == 2 * ((x / 2) % p) + x % 2
    ensures x / (2 * p) == (x / 2) / p
  {
    var h, b := x / 2, x % 2;
    var k, r := h / p, h % p;
    assert x == 2 * h + b;
    assert h == p * k + r;
    assert x == k * (2 * p) + (2 * r + b);
    DivModUnique(x, 2 * p, k, 2 * r + b);
  }

  /** When the low part fits below bit n, `|` adds the two parts: no bit is set twice. */
  lemma {:induction false} OrOfDisjoint(hi: nat, lo: nat, n: nat)
    requires lo < Pow2(n)
    ensures BitOr(ShiftLeft(hi, n), lo) == ShiftLeft(hi, n) + lo
    decreases n
  {
    var x := ShiftLeft(hi, n);
    if n == 0 {
      assert lo == 0;
    } else if x == 0 || lo == 0 {
    } else {
      var p := Pow2(n - 1);
      assert x == 2 * (hi * p);
      assert x / 2 == ShiftLeft(hi, n - 1) && x % 2 == 0;
      OrOfDisjoint(hi, lo / 2, n - 1);
      assert BitOr(x, lo) == 2 * (ShiftLeft(hi, n - 1) + lo / 2) + lo % 2;
    }
  }

  /** Masking with the n low bits keeps exactly the remainder modulo 2^n. */
  lemma {:induction false} LowIsMod(x: nat, n: nat)
    ensures Low(x, n) == x % Pow2(n)
    decreases n
  {
    if n == 0 {
    } else if x == 0 {
    } else {
      var p := Pow2(n - 1);
      var m := LowMask(n);
      assert m == 2 * (p - 1) + 1;
      assert m / 2 == LowMask(n - 1) && m % 2 == 1;
      LowIsMod(x / 2, n - 1);
      assert Low(x, n) == 2 * ((x / 2) % p) + x % 2;
      ModOfDouble(x, p);
    }
  }

  /** Shifting right by n bits divides by 2^n. */
  lemma {:induction false} ShiftRightIsDiv(x: nat, n: nat)
    ensures ShiftRight(x, n) == x / Pow2(n)
    decreases n
  {
    if n > 0 {
      ShiftRightIsDiv(x / 2, n - 1);
      ModOfDouble(x, Pow2(n - 1));
    }
  }

  /** With the low part below bit n, packing is `hi * 2^n + lo`. */
  lemma PackIsSum(hi: nat, lo: nat, n: nat)
    ensures lo < Pow2(n) ==> Pack(hi, lo, n) == hi * Pow2(n) + lo
  {
    if lo < Pow2(n) {
      OrOfDisjoint(hi, lo, n);
    }
  }

  /** Unpacking recovers both parts, provided the low part fits below bit n. */
  lemma UnpackPack(hi: nat, lo: nat, n: nat)
    requires lo < Pow2(n)
    ensures High(Pack(hi, lo, n), n) == hi
    ensures Low(Pack(hi, lo, n), n) == lo
  {
    var x, p := Pack(hi, lo, n), Pow2(n);
    PackIsSum(hi, lo, n);
    DivModUnique(x, p, hi, lo);
    ShiftRightIsDiv(x, n);
    LowIsMod(x, n);
  }

  /** Every value is the packing of its own high and low parts. */
  lemma PackUnpack(x: nat, n: nat)
    ensures Low(x, n) < Pow2(n)
    ensures Pack(High(x, n), Low(x, n), n) == x
  {
    var p, h, l := Pow2(n), High(x, n), Low(x, n);
    ShiftRightIsDiv(x, n);
    LowIsMod(x, n);
    assert h == x / p && l == x % p;
    PackIsSum(h, l, n);
    DivModSplit(x, p);
  }

  /** Packing is injective on pairs whose low part fits below bit n. */
  lemma PackInjective(hi1: nat, lo1: nat, hi2: nat, lo2: nat, n: nat)
    requires lo1 < Pow2(n) && lo2 < Pow2(n)
    requires Pack(hi1, lo1, n) == Pack(hi2, lo2, n)
    ensures hi1 == hi2 && lo1 == lo2
  {
    UnpackPack(hi1, lo1, n);
    UnpackPack(hi2, lo2, n);
  }

  /** A packed value stays below 2^(n+m) when its high part stays below 2^m. */
  lemma PackBound(hi: nat, lo: nat, n: nat, m: nat)
    requires lo < Pow2(n) && hi < Pow2(m)
    ensures Pack(hi, lo, n) < Pow2(n + m)
  {
    var p, q := Pow2(n), Pow2(m);
    PackIsSum(hi, lo, n);
    assert Pack(hi, lo, n) < hi * p + p;
    assert hi * p + p == (hi + 1) * p;
    MulMonotone(p, hi + 1, q);
    PowAdd(n, m);
    assert Pow2(n + m) == q * p;
  }

  /** 2^(n+m) == 2^n * 2^m. */
  lemma {:induction false} PowAdd(n: nat, m: nat)
    ensures Pow2(n + m) == Pow2(n) * Pow2(m)
    decreases m
  {
    if m > 0 {
      PowAdd(n, m - 1);
      assert Pow2(n + m) == 2 * Pow2(n + (m - 1));
    }
  }
}
