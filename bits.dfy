/**
 * Unbounded-integer views of the bit operations the eTPU code applies to its
 * 24-bit registers: powers of two, bitwise OR and AND on naturals, and the
 * serial (LSB-first) bit sequences a UART frame is made of.
 */
module Bits {

  /** 2^n */
  function Pow2(n: nat): (r: nat)
    ensures r >= 1
  {
    if n == 0 then 1 else 2 * Pow2(n - 1)
  }

  /** The width of the 24-bit registers. */
  lemma Pow2Reg24()
    ensures Pow2(23) == 0x80_0000 && Pow2(24) == 0x100_0000
  {
    assert Pow2(4) == 16;
    assert Pow2(8) == 256;
    assert Pow2(12) == 4096;
    assert Pow2(16) == 65536;
    assert Pow2(20) == 1048576;
  }

  lemma {:induction false} Pow2Monotone(m: nat, n: nat)
    requires m <= n
    ensures Pow2(m) <= Pow2(n)
  {
    if m < n {
      Pow2Monotone(m, n - 1);
    }
  }

  lemma {:induction false} Pow2Add(a: nat, b: nat)
    ensures Pow2(a + b) == Pow2(a) * Pow2(b)
  {
    if a > 0 {
      Pow2Add(a - 1, b);
    }
  }

  /** Reducing modulo 2^(a+b) first keeps the low a bits. */
  lemma ModPow2Narrow(w: nat, a: nat, b: nat)
    ensures (w % Pow2(a + b)) % Pow2(a) == w % Pow2(a)
  {
    Pow2Add(a, b);
    ModNarrow(w, Pow2(a), Pow2(b));
  }

  lemma ModNarrow(w: nat, m: nat, p: nat)
    requires m > 0 && p > 0
    ensures (w % (m * p)) % m == w % m
  {
    var big := m * p;
    var q, r := w / big, w % big;
    var q2, r2 := r / m, r % m;
    assert w == big * q + r;
    assert r == m * q2 + r2;
    assert big * q == m * (p * q);
    assert w == m * (p * q + q2) + r2;
    DivModUnique(w, m, p * q + q2, r2);
  }

  /** Bitwise OR of two naturals (the `|` operator). */
  function BitOr(a: nat, b: nat): nat
    decreases a
  {
    if a == 0 then b
    else if b == 0 then a
    else 2 * BitOr(a / 2, b / 2) + (if a % 2 == 1 || b % 2 == 1 then 1 else 0)
  }

  /** Bitwise AND of two naturals (the `&` operator). */
  function BitAnd(a: nat, b: nat): nat
    decreases a
  {
    if a == 0 || b == 0 then 0
    else 2 * BitAnd(a / 2, b / 2) + (if a % 2 == 1 && b % 2 == 1 then 1 else 0)
  }

  /** ORing in a weight above every set bit adds it. */
  lemma {:induction false} BitOrDisjoint(a: nat, k: nat)
    requires a < Pow2(k)
    ensures BitOr(a, Pow2(k)) == a + Pow2(k)
  {
    if a != 0 {
      assert k > 0;
      BitOrDisjoint(a / 2, k - 1);
    }
  }

  /** Euclidean division is determined by its quotient and remainder. */
  lemma DivModUnique(a: int, d: int, q: int, r: int)
    requires d > 0 && a == d * q + r && 0 <= r < d
    ensures a / d == q && a % d == r
  {
    var x := q - a / d;
    assert d * x == a % d - r;
  }

  /** a % (2m) splits into its lowest bit and (a / 2) % m. */
  lemma ModTwice(a: nat, m: nat)
    requires m >= 1
    ensures a % (2 * m) == 2 * ((a / 2) % m) + a % 2
  {
    var q := a / 2;
    var s := q / m;
    var t := q % m;
    assert q == m * s + t;
    assert a == (2 * m) * s + (2 * t + a % 2);
    DivModUnique(a, 2 * m, s, 2 * t + a % 2);
  }

  /** Masking with (1 << n) - 1 keeps the low n bits. */
  lemma {:induction false} BitAndMask(a: nat, n: nat)
    ensures BitAnd(a, Pow2(n) - 1) == a % Pow2(n)
  {
    if n == 0 {
      assert Pow2(n) == 1;
    } else if a == 0 {
      DivModUnique(0, Pow2(n), 0, 0);
    } else {
      BitAndMask(a / 2, n - 1);
      BitAndMaskStep(a, n);
    }
  }

  /** One bit of BitAndMask: the lowest bit, then the rest as a / 2 under the narrower mask. */
  lemma BitAndMaskStep(a: nat, n: nat)
    requires n > 0 && a > 0
    requires BitAnd(a / 2, Pow2(n - 1) - 1) == (a / 2) % Pow2(n - 1)
    ensures BitAnd(a, Pow2(n) - 1) == a % Pow2(n)
  {
    var half := Pow2(n - 1);
    var m := Pow2(n) - 1;
    assert Pow2(n) == 2 * half;
    assert m / 2 == half - 1 && m % 2 == 1 by {
      DivModUnique(m, 2, half - 1, 1);
    }
    assert BitAnd(a, m) == 2 * BitAnd(a / 2, half - 1) + (if a % 2 == 1 then 1 else 0);
    ModTwice(a, half);
  }

  /** The low n bits of w, least significant first: the order a UART shifts them out. */
  function BitSeq(w: nat, n: nat): (r: seq<bool>)
    ensures |r| == n
  {
    if n == 0 then [] else [w % 2 == 1] + BitSeq(w / 2, n - 1)
  }

  /** The number a least-significant-first bit sequence stands for. */
  function BitsValue(ls: seq<bool>): nat
  {
    if ls == [] then 0 else (if ls[0] then 1 else 0) + 2 * BitsValue(ls[1..])
  }

  /** The number of ones in a bit sequence. */
  function Ones(ls: seq<bool>): nat
  {
    if ls == [] then 0 else (if ls[0] then 1 else 0) + Ones(ls[1..])
  }

  lemma {:induction false} BitsValueBound(ls: seq<bool>)
    ensures BitsValue(ls) < Pow2(|ls|)
  {
    if ls != [] {
      BitsValueBound(ls[1..]);
    }
  }

  /** Appending a bit adds its weight 2^|ls|. */
  lemma {:induction false} BitsValueSnoc(ls: seq<bool>, b: bool)
    ensures BitsValue(ls + [b]) == BitsValue(ls) + (if b then Pow2(|ls|) else 0)
  {
    if ls != [] {
      assert (ls + [b])[1..] == ls[1..] + [b];
      BitsValueSnoc(ls[1..], b);
    }
  }

  lemma {:induction false} OnesSnoc(ls: seq<bool>, b: bool)
    ensures Ones(ls + [b]) == Ones(ls) + (if b then 1 else 0)
  {
    if ls != [] {
      assert (ls + [b])[1..] == ls[1..] + [b];
      OnesSnoc(ls[1..], b);
    }
  }

  lemma {:induction false} OnesAppend(a: seq<bool>, b: seq<bool>)
    ensures Ones(a + b) == Ones(a) + Ones(b)
  {
    if a == [] {
      assert a + b == b;
    } else {
      assert (a + b)[1..] == a[1..] + b;
      OnesAppend(a[1..], b);
    }
  }

  /** Shifting n bits out LSB-first and reassembling them gives back w's low n bits. */
  lemma {:induction false} BitSeqValue(w: nat, n: nat)
    ensures BitsValue(BitSeq(w, n)) == w % Pow2(n)
  {
    if n > 0 {
      var s := BitSeq(w, n);
      assert s[1..] == BitSeq(w / 2, n - 1);
      BitSeqValue(w / 2, n - 1);
      ModTwice(w, Pow2(n - 1));
    }
  }
}
