/** What FIPS 180-4 says of the functions and constants of SHA-256, and the digest it gives for its first example. */
module MavSha256Standard {
  import opened Words
  import opened MavSha256
  import opened Arithmetic

  // ---------------------------------------------------------------- the functions, bit by bit (section 4.1.2)

  predicate Bit(x: bv32, i: bv6)
    requires i < 32
  {
    (x >> i) & 1 == 1
  }

  /** Where the first word has ones, the second is chosen; where it has zeros, the third. */
  lemma ChooseBits(x: bv32, y: bv32, z: bv32)
    ensures Ch(x, y, z) & x == y & x
    ensures Ch(x, y, z) & (x ^ 0xFFFF_FFFF) == z & (x ^ 0xFFFF_FFFF)
  {
  }

  /** A bit is the one that at least two of the three words have. */
  lemma MajorityBits(x: bv32, y: bv32, z: bv32, i: bv6)
    requires i < 32
    ensures Bit(x, i) == Bit(y, i) ==> Bit(Maj(x, y, z), i) == Bit(x, i)
    ensures Bit(x, i) == Bit(z, i) ==> Bit(Maj(x, y, z), i) == Bit(x, i)
    ensures Bit(y, i) == Bit(z, i) ==> Bit(Maj(x, y, z), i) == Bit(y, i)
  {
  }

  /** The bit that comes to place `i` when a word is turned right by `n`. */
  predicate Turned(x: bv32, n: bv6, i: bv6)
    requires i < 32 && n < 32
  {
    Bit(x, (i + n) & 31)
  }

  lemma RotrBits(x: bv32, n: bv6, i: bv6)
    requires i < 32 && n in {2, 6, 7, 11, 13}
    ensures Bit(Rotr(x, n), i) == Turned(x, n, i)
  {
    if n == 2 {} else if n == 6 {} else if n == 7 {} else if n == 11 {} else {}
  }

  lemma RotrFarBits(x: bv32, n: bv6, i: bv6)
    requires i < 32 && n in {17, 18, 19, 22, 25}
    ensures Bit(Rotr(x, n), i) == Turned(x, n, i)
  {
    if n == 17 {} else if n == 18 {} else if n == 19 {} else if n == 22 {} else {}
  }

  lemma ShiftBits(x: bv32, i: bv6)
    requires i < 32
    ensures Bit(Shr(x, 3), i) <==> i < 29 && Bit(x, i + 3)
    ensures Bit(Shr(x, 10), i) <==> i < 22 && Bit(x, i + 10)
  {
  }

  lemma BigSigma0Sum(x: bv32, i: bv6)
    requires i < 32
    ensures Bit(BigSigma0(x), i) <==> ((Bit(Rotr(x, 2), i) != Bit(Rotr(x, 13), i)) != Bit(Rotr(x, 22), i))
  {
    hide Rotr, Shr;
  }

  lemma BigSigma1Sum(x: bv32, i: bv6)
    requires i < 32
    ensures Bit(BigSigma1(x), i) <==> ((Bit(Rotr(x, 6), i) != Bit(Rotr(x, 11), i)) != Bit(Rotr(x, 25), i))
  {
    hide Rotr, Shr;
  }

  lemma SmallSigma0Sum(x: bv32, i: bv6)
    requires i < 32
    ensures Bit(SmallSigma0(x), i) <==> ((Bit(Rotr(x, 7), i) != Bit(Rotr(x, 18), i)) != Bit(Shr(x, 3), i))
  {
    hide Rotr, Shr;
  }

  lemma SmallSigma1Sum(x: bv32, i: bv6)
    requires i < 32
    ensures Bit(SmallSigma1(x), i) <==> ((Bit(Rotr(x, 17), i) != Bit(Rotr(x, 19), i)) != Bit(Shr(x, 10), i))
  {
    hide Rotr, Shr;
  }

  /** A bit of each sum is odd just when an odd number of the places the standard names are. */
  lemma SigmaBits(x: bv32, i: bv6)
    requires i < 32
    ensures Bit(BigSigma0(x), i) <==> ((Turned(x, 2, i) != Turned(x, 13, i)) != Turned(x, 22, i))
    ensures Bit(BigSigma1(x), i) <==> ((Turned(x, 6, i) != Turned(x, 11, i)) != Turned(x, 25, i))
    ensures Bit(SmallSigma0(x), i) <==> ((Turned(x, 7, i) != Turned(x, 18, i)) != (i < 29 && Bit(x, i + 3)))
    ensures Bit(SmallSigma1(x), i) <==> ((Turned(x, 17, i) != Turned(x, 19, i)) != (i < 22 && Bit(x, i + 10)))
  {
    hide Bit, Rotr, Shr, Turned, BigSigma0, BigSigma1, SmallSigma0, SmallSigma1;
    BigSigma0Sum(x, i);
    BigSigma1Sum(x, i);
    SmallSigma0Sum(x, i);
    SmallSigma1Sum(x, i);
    ShiftBits(x, i);
    RotrBits(x, 2, i);
    RotrBits(x, 6, i);
    RotrBits(x, 7, i);
    RotrBits(x, 11, i);
    RotrBits(x, 13, i);
    RotrFarBits(x, 17, i);
    RotrFarBits(x, 18, i);
    RotrFarBits(x, 19, i);
    RotrFarBits(x, 22, i);
    RotrFarBits(x, 25, i);
  }

  // ---------------------------------------------------------------- the constants (sections 4.2.2 and 5.3.3)

  predicate Divides(d: nat, n: nat)
    requires d > 0
  {
    n % d == 0
  }

  predicate Prime(n: nat) { n >= 2 && forall d :: 2 <= d < n ==> !Divides(d, n) }

  /** The first 64 primes, eight in a row. */
  function Primes(row: nat): (r: seq<nat>)
    ensures |r| == 8
  {
    match row
    case 0 => [2, 3, 5, 7, 11, 13, 17, 19]
    case 1 => [23, 29, 31, 37, 41, 43, 47, 53]
    case 2 => [59, 61, 67, 71, 73, 79, 83, 89]
    case 3 => [97, 101, 103, 107, 109, 113, 127, 131]
    case 4 => [137, 139, 149, 151, 157, 163, 167, 173]
    case 5 => [179, 181, 191, 193, 197, 199, 211, 223]
    case 6 => [227, 229, 233, 239, 241, 251, 257, 263]
    case _ => [269, 271, 277, 281, 283, 293, 307, 311]
  }

  function PrimeAt(t: nat): nat { if t < 64 then Primes(t / 8)[t % 8] else 0 }

  /** `n` is one of the primes up to 17, or none of them divides it. */
  predicate Sieved(n: nat) {
    || n in {2, 3, 5, 7, 11, 13, 17}
    || (n % 2 != 0 && n % 3 != 0 && n % 5 != 0 && n % 7 != 0 && n % 11 != 0 && n % 13 != 0 && n % 17 != 0)
  }

  /** A number that is not prime and less than 19 * 19 has a divisor up to 18. */
  lemma SmallDivisor(n: nat, d: nat) returns (e: nat)
    requires 2 <= d < n < 361 && Divides(d, n)
    ensures 2 <= e <= 18 && e < n && n % e == 0
  {
    var q := n / d;
    assert n == d * q;
    if d <= 18 {
      e := d;
    } else {
      assert q <= 18 by { if q >= 19 { Product(d, q); } }
      assert q >= 2;
      e := q;
      Multiple(n, d, q);
    }
  }

  lemma Product(d: nat, q: nat)
    requires d >= 19 && q >= 19
    ensures d * q >= 361
  {
    assert d * q >= 19 * q;
  }

  lemma Multiple(n: nat, d: nat, q: nat)
    requires n == d * q && q > 0
    ensures n % q == 0 && (d >= 2 ==> q < n)
  {
    DivModIs(n, q, d, 0);
  }

  lemma FactorDivides(n: nat, f: nat, g: nat)
    requires f > 0 && g > 0 && n % (f * g) == 0
    ensures n % f == 0
  {
    var q := n / (f * g);
    assert n == f * g * q == f * (g * q);
    DivModIs(n, f, g * q, 0);
  }

  lemma PrimeDivisorSieves(n: nat, e: nat)
    requires e in {2, 3, 5, 7, 11, 13, 17} && e < n && n % e == 0
    ensures !Sieved(n)
  {
    if e == 2 {} else if e == 3 {} else if e == 5 {} else if e == 7 {} else if e == 11 {} else if e == 13 {} else {}
  }

  /** Such a divisor leads to a prime one. */
  lemma DivisorSieves(n: nat, e: nat)
    requires 2 <= e <= 18 && e < n && n % e == 0
    ensures !Sieved(n)
  {
    hide Sieved;
    if e % 2 == 0 {
      FactorDivides(n, 2, e / 2);
      PrimeDivisorSieves(n, 2);
    } else if e == 9 || e == 15 {
      FactorDivides(n, 3, e / 3);
      PrimeDivisorSieves(n, 3);
    } else {
      PrimeDivisorSieves(n, e);
    }
  }

  /** Below 19 * 19 the sieve finds exactly the primes. */
  lemma SievedIsPrime(n: nat)
    requires 2 <= n < 361
    ensures Prime(n) <==> Sieved(n)
  {
    if !Prime(n) {
      var d :| 2 <= d < n && Divides(d, n);
      var e := SmallDivisor(n, d);
      DivisorSieves(n, e);
    }
    if !Sieved(n) {
      assert Divides(2, n) || Divides(3, n) || Divides(5, n) || Divides(7, n) || Divides(11, n) || Divides(13, n)
             || Divides(17, n);
    }
  }

  /** `q` is the least prime above `p`. */
  predicate NextPrime(p: nat, q: nat) { p < q && Prime(q) && forall m :: p < m < q ==> !Prime(m) }

  /** No number between `p` and `q` passes the sieve, if both are odd. */
  predicate OddGap(p: nat, q: nat)
    decreases q - p
  {
    p < q && (p + 2 == q || (!Sieved(p + 2) && OddGap(p + 2, q)))
  }

  lemma {:induction false} OddGapIs(p: nat, q: nat, m: nat)
    requires p % 2 == 1 && p > 1 && OddGap(p, q) && p < m < q
    ensures !Sieved(m)
    decreases q - p
  {
    if m > p + 2 { OddGapIs(p + 2, q, m); }
  }

  lemma Gap(p: nat, q: nat)
    requires p % 2 == 1 && 1 < p < q < 361 && Sieved(q) && OddGap(p, q)
    ensures NextPrime(p, q)
  {
    hide Sieved, Prime, OddGap;
    SievedIsPrime(q);
    forall m | p < m < q
      ensures !Prime(m)
    {
      OddGapIs(p, q, m);
      SievedIsPrime(m);
    }
  }

  /** `k` is the integer part of 2^32 times the cube root of `p`. */
  predicate CubeRoot(p: nat, k: nat) {
    k * k * k <= p * 0x1_0000_0000_0000_0000_0000_0000 < (k + 1) * (k + 1) * (k + 1)
  }

  /** `k` is the integer part of 2^32 times the square root of `p`. */
  predicate SquareRoot(p: nat, k: nat) { k * k <= p * 0x1_0000_0000_0000_0000 < (k + 1) * (k + 1) }

  /** A whole part followed by the 32 bits of `w`. */
  function Followed(whole: nat, w: bv32): nat { whole * 0x1_0000_0000 + w as nat }

  /** Constant `t` is the first 32 bits of the fraction of the cube root of prime `t`, counted from 0. */
  ghost predicate ConstantOk(t: nat)
    requires t < 64
  {
    && (if t == 0 then PrimeAt(t) == 2 else NextPrime(PrimeAt(t - 1), PrimeAt(t)))
    && exists whole: nat :: CubeRoot(PrimeAt(t), Followed(whole, K(t)))
  }

  lemma ConstantIs(t: nat, p: nat, q: nat, whole: nat, w: bv32)
    requires 1 < t < 64 && PrimeAt(t - 1) == p && PrimeAt(t) == q && K(t) == w
    requires p % 2 == 1 && 1 < p < q < 361 && Sieved(q) && OddGap(p, q)
    requires CubeRoot(q, Followed(whole, w))
    ensures ConstantOk(t)
  {
    hide Sieved, NextPrime, PrimeAt, K, CubeRoot, OddGap;
    Gap(p, q);
  }

  lemma FirstConstants()
    ensures ConstantOk(0) && ConstantOk(1)
  {
    SievedIsPrime(3);
    hide Sieved, Prime;
    assert CubeRoot(2, Followed(1, K(0)));
    assert CubeRoot(3, Followed(1, K(1)));
  }

  lemma ConstantsFrom0()
    ensures forall t :: 0 <= t < 4 ==> ConstantOk(t)
  {
    hide ConstantOk;
    FirstConstants();
    ConstantIs(2, 3, 5, 1, 0xb5c0fbcf);
    ConstantIs(3, 5, 7, 1, 0xe9b5dba5);
  }

  lemma ConstantsFrom4()
    ensures forall t :: 4 <= t < 8 ==> ConstantOk(t)
  {
    hide ConstantOk;
    ConstantIs(4, 7, 11, 2, 0x3956c25b);
    ConstantIs(5, 11, 13, 2, 0x59f111f1);
    ConstantIs(6, 13, 17, 2, 0x923f82a4);
    ConstantIs(7, 17, 19, 2, 0xab1c5ed5);
  }

  lemma ConstantsFrom8()
    ensures forall t :: 8 <= t < 12 ==> ConstantOk(t)
  {
    hide ConstantOk;
    ConstantIs(8, 19, 23, 2, 0xd807aa98);
    ConstantIs(9, 23, 29, 3, 0x12835b01);
    ConstantIs(10, 29, 31, 3, 0x243185be);
    ConstantIs(11, 31, 37, 3, 0x550c7dc3);
  }

  lemma ConstantsFrom12()
    ensures forall t :: 12 <= t < 16 ==> ConstantOk(t)
  {
    hide ConstantOk;
    ConstantIs(12, 37, 41, 3, 0x72be5d74);
    ConstantIs(13, 41, 43, 3, 0x80deb1fe);
    ConstantIs(14, 43, 47, 3, 0x9bdc06a7);
    ConstantIs(15, 47, 53, 3, 0xc19bf174);
  }

  lemma ConstantsFrom16()
    ensures forall t :: 16 <= t < 20 ==> ConstantOk(t)
  {
    hide ConstantOk;
    ConstantIs(16, 53, 59, 3, 0xe49b69c1);
    ConstantIs(17, 59, 61, 3, 0xefbe4786);
    ConstantIs(18, 61, 67, 4, 0x0fc19dc6);
    ConstantIs(19, 67, 71, 4, 0x240ca1cc);
  }

  lemma ConstantsFrom20()
    ensures forall t :: 20 <= t < 24 ==> ConstantOk(t)
  {
    hide ConstantOk;
    ConstantIs(20, 71, 73, 4, 0x2de92c6f);
    ConstantIs(21, 73, 79, 4, 0x4a7484aa);
    ConstantIs(22, 79, 83, 4, 0x5cb0a9dc);
    ConstantIs(23, 83, 89, 4, 0x76f988da);
  }

  lemma ConstantsFrom24()
    ensures forall t :: 24 <= t < 28 ==> ConstantOk(t)
  {
    hide ConstantOk;
    ConstantIs(24, 89, 97, 4, 0x983e5152);
    ConstantIs(25, 97, 101, 4, 0xa831c66d);
    ConstantIs(26, 101, 103, 4, 0xb00327c8);
    ConstantIs(27, 103, 107, 4, 0xbf597fc7);
  }

  lemma ConstantsFrom28()
    ensures forall t :: 28 <= t < 32 ==> ConstantOk(t)
  {
    hide ConstantOk;
    ConstantIs(28, 107, 109, 4, 0xc6e00bf3);
    ConstantIs(29, 109, 113, 4, 0xd5a79147);
    ConstantIs(30, 113, 127, 5, 0x06ca6351);
    ConstantIs(31, 127, 131, 5, 0x14292967);
  }

  lemma ConstantsFrom32()
    ensures forall t :: 32 <= t < 36 ==> ConstantOk(t)
  {
    hide ConstantOk;
    ConstantIs(32, 131, 137, 5, 0x27b70a85);
    ConstantIs(33, 137, 139, 5, 0x2e1b2138);
    ConstantIs(34, 139, 149, 5, 0x4d2c6dfc);
    ConstantIs(35, 149, 151, 5, 0x53380d13);
  }

  lemma ConstantsFrom36()
    ensures forall t :: 36 <= t < 40 ==> ConstantOk(t)
  {
    hide ConstantOk;
    ConstantIs(36, 151, 157, 5, 0x650a7354);
    ConstantIs(37, 157, 163, 5, 0x766a0abb);
    ConstantIs(38, 163, 167, 5, 0x81c2c92e);
    ConstantIs(39, 167, 173, 5, 0x92722c85);
  }

  lemma ConstantsFrom40()
    ensures forall t :: 40 <= t < 44 ==> ConstantOk(t)
  {
    hide ConstantOk;
    ConstantIs(40, 173, 179, 5, 0xa2bfe8a1);
    ConstantIs(41, 179, 181, 5, 0xa81a664b);
    ConstantIs(42, 181, 191, 5, 0xc24b8b70);
    ConstantIs(43, 191, 193, 5, 0xc76c51a3);
  }

  lemma ConstantsFrom44()
    ensures forall t :: 44 <= t < 48 ==> ConstantOk(t)
  {
    hide ConstantOk;
    ConstantIs(44, 193, 197, 5, 0xd192e819);
    ConstantIs(45, 197, 199, 5, 0xd6990624);
    ConstantIs(46, 199, 211, 5, 0xf40e3585);
    ConstantIs(47, 211, 223, 6, 0x106aa070);
  }

  lemma ConstantsFrom48()
    ensures forall t :: 48 <= t < 52 ==> ConstantOk(t)
  {
    hide ConstantOk;
    ConstantIs(48, 223, 227, 6, 0x19a4c116);
    ConstantIs(49, 227, 229, 6, 0x1e376c08);
    ConstantIs(50, 229, 233, 6, 0x2748774c);
    ConstantIs(51, 233, 239, 6, 0x34b0bcb5);
  }

  lemma ConstantsFrom52()
    ensures forall t :: 52 <= t < 56 ==> ConstantOk(t)
  {
    hide ConstantOk;
    ConstantIs(52, 239, 241, 6, 0x391c0cb3);
    ConstantIs(53, 241, 251, 6, 0x4ed8aa4a);
    ConstantIs(54, 251, 257, 6, 0x5b9cca4f);
    ConstantIs(55, 257, 263, 6, 0x682e6ff3);
  }

  lemma ConstantsFrom56()
    ensures forall t :: 56 <= t < 60 ==> ConstantOk(t)
  {
    hide ConstantOk;
    ConstantIs(56, 263, 269, 6, 0x748f82ee);
    ConstantIs(57, 269, 271, 6, 0x78a5636f);
    ConstantIs(58, 271, 277, 6, 0x84c87814);
    ConstantIs(59, 277, 281, 6, 0x8cc70208);
  }

  lemma ConstantsFrom60()
    ensures forall t :: 60 <= t < 64 ==> ConstantOk(t)
  {
    hide ConstantOk;
    ConstantIs(60, 281, 283, 6, 0x90befffa);
    ConstantIs(61, 283, 293, 6, 0xa4506ceb);
    ConstantIs(62, 293, 307, 6, 0xbef9a3f7);
    ConstantIs(63, 307, 311, 6, 0xc67178f2);
  }

  /** The constants are those of the standard: the first 32 bits of the fractions of the cube roots of the first 64
      primes. */
  lemma ConstantsAre(t: nat)
    requires t < 64
    ensures ConstantOk(t)
  {
    hide ConstantOk;
    ConstantsFrom0();
    ConstantsFrom4();
    ConstantsFrom8();
    ConstantsFrom12();
    ConstantsFrom16();
    ConstantsFrom20();
    ConstantsFrom24();
    ConstantsFrom28();
    ConstantsFrom32();
    ConstantsFrom36();
    ConstantsFrom40();
    ConstantsFrom44();
    ConstantsFrom48();
    ConstantsFrom52();
    ConstantsFrom56();
    ConstantsFrom60();
  }

  /** The initial words are the first 32 bits of the fractions of the square roots of the first eight primes. */
  lemma InitialWordsAre(i: nat)
    requires i < 8
    ensures exists whole: nat :: SquareRoot(PrimeAt(i), Followed(whole, InitialWord(i)))
  {
    assert SquareRoot(PrimeAt(0), Followed(1, InitialWord(0)));
    assert SquareRoot(PrimeAt(1), Followed(1, InitialWord(1)));
    assert SquareRoot(PrimeAt(2), Followed(2, InitialWord(2)));
    assert SquareRoot(PrimeAt(3), Followed(2, InitialWord(3)));
    assert SquareRoot(PrimeAt(4), Followed(3, InitialWord(4)));
    assert SquareRoot(PrimeAt(5), Followed(3, InitialWord(5)));
    assert SquareRoot(PrimeAt(6), Followed(4, InitialWord(6)));
    assert SquareRoot(PrimeAt(7), Followed(4, InitialWord(7)));
  }
}
