/** Machine words of the C sources. Additions and subtractions wrap, as unsigned C arithmetic does. */
module Words {

  type byte = bv8
  type Bytes = seq<bv8>

  /** Conversion to `uint8_t`. */
  function Low8(x: bv32): bv8 { (x & 0xFF) as bv8 }

  /** Addition and subtraction of 32-bit words, which wrap. */
  function Plus(a: bv32, b: bv32): bv32 { a + b }

  function Minus(a: bv32, b: bv32): bv32 { a - b }

  lemma SumFacts(p: bv32, v: bv32)
    ensures p + (v - p) == v
    ensures p - (p - v) == v
    ensures p + 0 == p
  {
  }

  lemma PlusMinus(p: bv32, v: bv32)
    ensures Plus(p, Minus(v, p)) == v && Minus(p, Minus(p, v)) == v && Plus(p, 0) == p
  {
    SumFacts(p, v);
  }

  // The three-operand laws go through words that are already sums, one operation at a time.

  lemma MinusMinusFacts(a: bv32, b: bv32, c: bv32)
    ensures (a - b) + c == a - (b - c)
  {
  }

  lemma MinusDifference(a: bv32, b: bv32, c: bv32)
    ensures Minus(a, b - c) == Plus(a - b, c)
  {
    assert Minus(a, b - c) == a - (b - c);
    assert Plus(a - b, c) == (a - b) + c;
    MinusMinusFacts(a, b, c);
  }

  lemma MinusIs(a: bv32, b: bv32)
    ensures Minus(a, b) == a - b
  {
  }

  lemma MinusMinus(a: bv32, b: bv32, c: bv32)
    ensures Plus(Minus(a, b), c) == Minus(a, Minus(b, c))
  {
    hide Plus, Minus;
    MinusDifference(a, b, c);
    MinusIs(a, b);
    MinusIs(b, c);
  }

  lemma PlusOneFacts(a: bv32, b: bv32)
    ensures a + (b + 1) == (a + b) + 1
  {
  }

  lemma PlusSum(a: bv32, b: bv32)
    ensures Plus(a, b + 1) == Plus(a + b, 1)
  {
    assert Plus(a, b + 1) == a + (b + 1);
    assert Plus(a + b, 1) == (a + b) + 1;
    PlusOneFacts(a, b);
  }

  lemma PlusIs(a: bv32, b: bv32)
    ensures Plus(a, b) == a + b
  {
  }

  lemma PlusOne(a: bv32, b: bv32)
    ensures Plus(a, Plus(b, 1)) == Plus(Plus(a, b), 1)
  {
    hide Plus;
    PlusSum(a, b);
    PlusIs(a, b);
    PlusIs(b, 1);
  }

  lemma DoubleLess(x: bv32)
    ensures Minus(Plus(x, x), x) == x
  {
  }

  /** Twice `x`, less `y`, lies as far beyond `x` as `x` beyond `y`. */
  lemma Beyond(x: bv32, y: bv32)
    ensures Minus(Plus(x, x), y) == Plus(x, Minus(x, y))
  {
    hide Plus, Minus;
    var growth := Minus(x, y);
    PlusMinus(x, y);
    MinusMinus(Plus(x, x), x, growth);
    DoubleLess(x);
  }

  /** The arithmetic shift `x >> 31`. */
  function SignMask(x: bv32): bv32 { if x < 0x8000_0000 then 0 else 0xFFFF_FFFF }

  // Fits<n>: the two's complement number is at least -2^(n-1) and below 2^(n-1).
  // Low<n>: the low n bits.
  // Extend<n>: the number whose two's complement is those n bits.

  predicate Fits2(x: bv32) { x < 2 || x >= 0xFFFF_FFFE }
  function LowBits2(x: bv32): bv32 { x & 3 }
  function Extend2(low: bv32): bv32 { if low < 2 then low else low | 0xFFFF_FFFC }

  predicate Fits4(x: bv32) { x < 8 || x >= 0xFFFF_FFF8 }
  function LowBits4(x: bv32): bv32 { x & 0xF }
  function Extend4(low: bv32): bv32 { if low < 8 then low else low | 0xFFFF_FFF0 }

  predicate Fits6(x: bv32) { x < 0x20 || x >= 0xFFFF_FFE0 }
  function LowBits6(x: bv32): bv32 { x & 0x3F }
  function Extend6(low: bv32): bv32 { if low < 0x20 then low else low | 0xFFFF_FFC0 }

  predicate Fits8(x: bv32) { x < 0x80 || x >= 0xFFFF_FF80 }
  function LowBits8(x: bv32): bv32 { x & 0xFF }
  function Extend8(low: bv32): bv32 { if low < 0x80 then low else low | 0xFFFF_FF00 }
  lemma Extended8(x: bv32)
    requires Fits8(x)
    ensures Extend8(LowBits8(x)) == x
  {
    FilledBits(x);
  }

  predicate Fits14(x: bv32) { x < 0x2000 || x >= 0xFFFF_E000 }
  function LowBits14(x: bv32): bv32 { x & 0x3FFF }
  function Extend14(low: bv32): bv32 { if low < 0x2000 then low else low | 0xFFFF_C000 }
  lemma Extended14(x: bv32)
    requires Fits14(x)
    ensures Extend14(LowBits14(x)) == x
  {
    FilledBits(x);
  }

  predicate Fits16(x: bv32) { x < 0x8000 || x >= 0xFFFF_8000 }
  function LowBits16(x: bv32): bv32 { x & 0xFFFF }
  function Extend16(low: bv32): bv32 { if low < 0x8000 then low else low | 0xFFFF_0000 }
  lemma Extended16(x: bv32)
    requires Fits16(x)
    ensures Extend16(LowBits16(x)) == x
  {
    FilledBits(x);
  }

  predicate Fits24(x: bv32) { x < 0x80_0000 || x >= 0xFF80_0000 }
  function LowBits24(x: bv32): bv32 { x & 0xFF_FFFF }
  function Extend24(low: bv32): bv32 { if low < 0x80_0000 then low else low | 0xFF00_0000 }
  lemma Extended24(x: bv32)
    requires Fits24(x)
    ensures Extend24(LowBits24(x)) == x
  {
    FilledBits(x);
  }

  /** Copying the sign bit upward gives back a number that fits, for each width. */
  lemma FilledBits(x: bv32)
    ensures x < 2 || x >= 0xFFFF_FFFE ==> (if x & 3 < 2 then x & 3 else (x & 3) | 0xFFFF_FFFC) == x
    ensures x < 8 || x >= 0xFFFF_FFF8 ==> (if x & 0xF < 8 then x & 0xF else (x & 0xF) | 0xFFFF_FFF0) == x
    ensures x < 0x20 || x >= 0xFFFF_FFE0 ==> (if x & 0x3F < 0x20 then x & 0x3F else (x & 0x3F) | 0xFFFF_FFC0) == x
    ensures x < 0x80 || x >= 0xFFFF_FF80 ==> (if x & 0xFF < 0x80 then x & 0xFF else (x & 0xFF) | 0xFFFF_FF00) == x
    ensures x < 0x2000 || x >= 0xFFFF_E000
            ==> (if x & 0x3FFF < 0x2000 then x & 0x3FFF else (x & 0x3FFF) | 0xFFFF_C000) == x
    ensures x < 0x8000 || x >= 0xFFFF_8000
            ==> (if x & 0xFFFF < 0x8000 then x & 0xFFFF else (x & 0xFFFF) | 0xFFFF_0000) == x
    ensures x < 0x80_0000 || x >= 0xFF80_0000
            ==> (if x & 0xFF_FFFF < 0x80_0000 then x & 0xFF_FFFF else (x & 0xFF_FFFF) | 0xFF00_0000) == x
  {
  }
}

/** Division with remainder, for divisors that need not be constants. */
module Arithmetic {

  lemma Multiples(m: int, d: int)
    requires m > 0
    ensures (d >= 1 ==> m * d >= m) && (d <= -1 ==> m * d <= -m)
  {
  }

  /** Quotient and remainder are unique. */
  lemma DivModIs(n: int, m: int, q: int, r: int)
    requires 0 <= r < m && n == m * q + r
    ensures n / m == q && n % m == r
  {
    var d := n / m - q;
    assert m * d == r - n % m by {
      assert n == m * (n / m) + n % m;
      assert m * (n / m - q) == m * (n / m) - m * q;
    }
    Multiples(m, d);
  }

  /** Counting up modulo `m`. */
  lemma ModStep(n: nat, m: nat)
    requires m > 0
    ensures (n + 1) % m == if n % m + 1 == m then 0 else n % m + 1
  {
    var q, r := n / m, n % m;
    assert n == m * q + r;
    if r + 1 == m {
      assert m * (q + 1) == m * q + m;
      DivModIs(n + 1, m, q + 1, 0);
    } else {
      DivModIs(n + 1, m, q, r + 1);
    }
  }

  lemma ModBound(n: nat, m: nat)
    requires m > 0
    ensures n % m <= n
  {
    assert n == m * (n / m) + n % m;
    assert m * (n / m) >= 0;
  }
}

/** Outcomes shared by the models. */
module Outcomes {

  datatype Option<+T> = None | Some(value: T)

  datatype Result<+T, +E> = Ok(value: T) | Err(error: E)
}
