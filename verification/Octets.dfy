/** Bytes as numbers, and numbers of several bytes, low byte first. */
module Octets {
  import opened Words
  import opened Arithmetic

  // Conversions between bytes and numbers, bit by bit.

  function Weight(bit: bool, w: nat): (r: nat)
    ensures r <= w
  {
    if bit then w else 0
  }

  function Weights(b0: bool, b1: bool, b2: bool, b3: bool, b4: bool, b5: bool, b6: bool, b7: bool): nat {
    Weight(b0, 1) + Weight(b1, 2) + Weight(b2, 4) + Weight(b3, 8) + Weight(b4, 16) + Weight(b5, 32) + Weight(b6, 64)
        + Weight(b7, 128)
  }

  function FromBits(b0: bool, b1: bool, b2: bool, b3: bool, b4: bool, b5: bool, b6: bool, b7: bool): bv8 {
    (if b0 then 1 else 0) | (if b1 then 2 else 0) | (if b2 then 4 else 0) | (if b3 then 8 else 0)
      | (if b4 then 16 else 0) | (if b5 then 32 else 0) | (if b6 then 64 else 0) | (if b7 then 128 else 0)
  }

  function Value(b: bv8): (r: nat)
    ensures r < 256
  {
    Weights(b & 1 != 0, b & 2 != 0, b & 4 != 0, b & 8 != 0, b & 16 != 0, b & 32 != 0, b & 64 != 0, b & 128 != 0)
  }

  function Odd(n: nat): bool { n % 2 == 1 }

  function Half(n: nat): nat { n / 2 }

  function AsByte(n: nat): bv8
    requires n < 256
  {
    var n1 := Half(n);
    var n2 := Half(n1);
    var n3 := Half(n2);
    var n4 := Half(n3);
    var n5 := Half(n4);
    var n6 := Half(n5);
    FromBits(Odd(n), Odd(n1), Odd(n2), Odd(n3), Odd(n4), Odd(n5), Odd(n6), Odd(Half(n6)))
  }

  lemma BitsOf(b0: bool, b1: bool, b2: bool, b3: bool, b4: bool, b5: bool, b6: bool, b7: bool)
    ensures var b := FromBits(b0, b1, b2, b3, b4, b5, b6, b7);
      (b & 1 != 0) == b0 && (b & 2 != 0) == b1 && (b & 4 != 0) == b2 && (b & 8 != 0) == b3
      && (b & 16 != 0) == b4 && (b & 32 != 0) == b5 && (b & 64 != 0) == b6 && (b & 128 != 0) == b7
  {
  }

  lemma ValueOfBits(b0: bool, b1: bool, b2: bool, b3: bool, b4: bool, b5: bool, b6: bool, b7: bool)
    ensures Value(FromBits(b0, b1, b2, b3, b4, b5, b6, b7)) == Weights(b0, b1, b2, b3, b4, b5, b6, b7)
  {
    hide FromBits, Weights;
    BitsOf(b0, b1, b2, b3, b4, b5, b6, b7);
  }

  lemma Halved(n: nat)
    ensures n == 2 * Half(n) + Weight(Odd(n), 1)
  {
  }

  lemma Scaled(bit: bool)
    ensures Weight(bit, 2) == 2 * Weight(bit, 1) && Weight(bit, 4) == 4 * Weight(bit, 1)
            && Weight(bit, 8) == 8 * Weight(bit, 1)
    ensures Weight(bit, 16) == 16 * Weight(bit, 1) && Weight(bit, 32) == 32 * Weight(bit, 1)
    ensures Weight(bit, 64) == 64 * Weight(bit, 1) && Weight(bit, 128) == 128 * Weight(bit, 1)
  {
  }

  /** All weights in terms of single bits. */
  lemma WeightsAre(b0: bool, b1: bool, b2: bool, b3: bool, b4: bool, b5: bool, b6: bool, b7: bool)
    ensures Weights(b0, b1, b2, b3, b4, b5, b6, b7)
         == Weight(b0, 1) + 2 * Weight(b1, 1) + 4 * Weight(b2, 1) + 8 * Weight(b3, 1)
            + 16 * Weight(b4, 1) + 32 * Weight(b5, 1) + 64 * Weight(b6, 1) + 128 * Weight(b7, 1)
  {
    hide Weight;
    Scaled(b1);
    Scaled(b2);
    Scaled(b3);
    Scaled(b4);
    Scaled(b5);
    Scaled(b6);
    Scaled(b7);
  }

  lemma HalfBound(n: nat, bound: nat)
    requires n < 2 * bound
    ensures Half(n) < bound
  {
  }

  lemma BinaryDigits(n: nat)
    requires n < 256
    ensures var n1 := Half(n);
      var n2 := Half(n1);
      var n3 := Half(n2);
      var n4 := Half(n3);
      var n5 := Half(n4);
      var n6 := Half(n5);
      Weights(Odd(n), Odd(n1), Odd(n2), Odd(n3), Odd(n4), Odd(n5), Odd(n6), Odd(Half(n6))) == n
  {
    hide Half, Odd, Weight, Weights;
    var n1 := Half(n);
    var n2 := Half(n1);
    var n3 := Half(n2);
    var n4 := Half(n3);
    var n5 := Half(n4);
    var n6 := Half(n5);
    var n7 := Half(n6);
    WeightsAre(Odd(n), Odd(n1), Odd(n2), Odd(n3), Odd(n4), Odd(n5), Odd(n6), Odd(n7));
    EightHalves(n);
    ThreeHalves(n);
    ThreeHalves(n3);
    Halved(n6);
    Halved(n7);
    Combined(n, n3, n6, n7, Weight(Odd(n), 1), Weight(Odd(n1), 1), Weight(Odd(n2), 1), Weight(Odd(n3), 1),
             Weight(Odd(n4), 1), Weight(Odd(n5), 1), Weight(Odd(n6), 1), Weight(Odd(n7), 1));
  }

  /** A byte has eight bits. */
  lemma EightHalves(n: nat)
    requires n < 256
    ensures Half(Half(Half(Half(Half(Half(Half(Half(n)))))))) == 0
  {
    hide Half;
    HalfBound(n, 128);
    HalfBound(Half(n), 64);
    HalfBound(Half(Half(n)), 32);
    HalfBound(Half(Half(Half(n))), 16);
    HalfBound(Half(Half(Half(Half(n)))), 8);
    HalfBound(Half(Half(Half(Half(Half(n))))), 4);
    HalfBound(Half(Half(Half(Half(Half(Half(n)))))), 2);
    HalfBound(Half(Half(Half(Half(Half(Half(Half(n))))))), 1);
  }

  lemma Combined(n: nat, n3: nat, n6: nat, n7: nat, w0: nat, w1: nat, w2: nat, w3: nat, w4: nat, w5: nat, w6: nat,
                 w7: nat)
    requires n == 8 * n3 + 4 * w2 + 2 * w1 + w0 && n3 == 8 * n6 + 4 * w5 + 2 * w4 + w3
    requires n6 == 2 * n7 + w6 && n7 == w7
    ensures w0 + 2 * w1 + 4 * w2 + 8 * w3 + 16 * w4 + 32 * w5 + 64 * w6 + 128 * w7 == n
  {
  }

  lemma ThreeHalves(n: nat)
    ensures n == 8 * Half(Half(Half(n))) + 4 * Weight(Odd(Half(Half(n))), 1) + 2 * Weight(Odd(Half(n)), 1)
            + Weight(Odd(n), 1)
  {
    hide Half, Odd, Weight;
    Halved(n);
    Halved(Half(n));
    Halved(Half(Half(n)));
  }

  /** Three bits at a time. */
  lemma FromHalves(n: nat, n1: nat, n2: nat, n3: nat, w: nat, w1: nat, w2: nat)
    requires n == 2 * n1 + w && n1 == 2 * n2 + w1 && n2 == 2 * n3 + w2
    ensures n == 8 * n3 + 4 * w2 + 2 * w1 + w
  {
  }

  /** The number whose byte it is. */
  lemma ValueOfByte(n: nat)
    requires n < 256
    ensures Value(AsByte(n)) == n
  {
    hide Value, FromBits, Weights, Odd, Half;
    var n1 := Half(n);
    var n2 := Half(n1);
    var n3 := Half(n2);
    var n4 := Half(n3);
    var n5 := Half(n4);
    var n6 := Half(n5);
    ValueOfBits(Odd(n), Odd(n1), Odd(n2), Odd(n3), Odd(n4), Odd(n5), Odd(n6), Odd(Half(n6)));
    BinaryDigits(n);
  }

  lemma BitsAre(b: bv8)
    ensures FromBits(b & 1 != 0, b & 2 != 0, b & 4 != 0, b & 8 != 0, b & 16 != 0, b & 32 != 0, b & 64 != 0,
                     b & 128 != 0) == b
  {
  }

  lemma LowestBit(n: nat, m: nat, bit: bool)
    requires n == 2 * m + Weight(bit, 1)
    ensures Half(n) == m && Odd(n) == bit
  {
  }

  lemma DigitsOfWeights(b0: bool, b1: bool, b2: bool, b3: bool, b4: bool, b5: bool, b6: bool, b7: bool)
    ensures var n := Weights(b0, b1, b2, b3, b4, b5, b6, b7);
      n < 256 && AsByte(n) == FromBits(b0, b1, b2, b3, b4, b5, b6, b7)
  {
    hide Weight, Weights, AsByte, FromBits;
    var n7 := Weight(b7, 1);
    var n6 := 2 * n7 + Weight(b6, 1);
    var n5 := 2 * n6 + Weight(b5, 1);
    var n4 := 2 * n5 + Weight(b4, 1);
    var n3 := 2 * n4 + Weight(b3, 1);
    var n2 := 2 * n3 + Weight(b2, 1);
    var n1 := 2 * n2 + Weight(b1, 1);
    var n0 := 2 * n1 + Weight(b0, 1);
    WeightsAre(b0, b1, b2, b3, b4, b5, b6, b7);
    FromHalves(n0, n1, n2, n3, Weight(b0, 1), Weight(b1, 1), Weight(b2, 1));
    FromHalves(n3, n4, n5, n6, Weight(b3, 1), Weight(b4, 1), Weight(b5, 1));
    HalvesAre(n0, n1, n2, n3, n4, n5, n6, n7, b0, b1, b2, b3, b4, b5, b6, b7);
  }

  lemma HalvesAre(n0: nat, n1: nat, n2: nat, n3: nat, n4: nat, n5: nat, n6: nat, n7: nat,
                  b0: bool, b1: bool, b2: bool, b3: bool, b4: bool, b5: bool, b6: bool, b7: bool)
    requires n0 == 2 * n1 + Weight(b0, 1) && n1 == 2 * n2 + Weight(b1, 1) && n2 == 2 * n3 + Weight(b2, 1)
    requires n3 == 2 * n4 + Weight(b3, 1) && n4 == 2 * n5 + Weight(b4, 1) && n5 == 2 * n6 + Weight(b5, 1)
    requires n6 == 2 * n7 + Weight(b6, 1) && n7 == Weight(b7, 1) && n0 < 256
    ensures AsByte(n0) == FromBits(b0, b1, b2, b3, b4, b5, b6, b7)
  {
    hide Weight, FromBits, Odd, Half;
    LowestBit(n0, n1, b0);
    LowestBit(n1, n2, b1);
    LowestBit(n2, n3, b2);
    LowestBit(n3, n4, b3);
    LowestBit(n4, n5, b4);
    LowestBit(n5, n6, b5);
    LowestBit(n6, n7, b6);
    LowestBit(n7, 0, b7);
  }

  /** The byte of its number. */
  lemma ByteOfValue(b: bv8)
    ensures AsByte(Value(b)) == b
  {
    hide FromBits, Weights, AsByte;
    BitsAre(b);
    DigitsOfWeights(b & 1 != 0, b & 2 != 0, b & 4 != 0, b & 8 != 0, b & 16 != 0, b & 32 != 0, b & 64 != 0,
                    b & 128 != 0);
  }

  /** A message id from its bytes, low byte first. */
  function IdOf(a: bv8, b: bv8, c: bv8): (r: nat)
    ensures r < 0x100_0000
  {
    Value(a) + 0x100 * Value(b) + 0x1_0000 * Value(c)
  }

  function IdByte(id: nat, i: nat): bv8 {
    AsByte(if i == 0 then id % 0x100 else if i == 1 then id / 0x100 % 0x100 else id / 0x1_0000 % 0x100)
  }

  lemma ThreeDigits(id: nat)
    requires id < 0x100_0000
    ensures id % 0x100 + 0x100 * (id / 0x100 % 0x100) + 0x1_0000 * (id / 0x1_0000 % 0x100) == id
  {
    var q := id / 0x100;
    DivModIs(id, 0x1_0000, q / 0x100, 0x100 * (q % 0x100) + id % 0x100);
    DivModIs(id / 0x1_0000, 0x100, 0, id / 0x1_0000);
  }

  lemma IdRoundTrip(id: nat)
    requires id < 0x100_0000
    ensures IdOf(IdByte(id, 0), IdByte(id, 1), IdByte(id, 2)) == id
    ensures id < 256 ==> Value(IdByte(id, 0)) == id
  {
    hide Value, AsByte, Odd;
    ValueOfByte(id % 0x100);
    ValueOfByte(id / 0x100 % 0x100);
    ValueOfByte(id / 0x1_0000 % 0x100);
    ThreeDigits(id);
  }

  // Numbers of two and four bytes.

  function Read2(a: bv8, b: bv8): (r: nat)
    ensures r < 0x1_0000
  {
    Value(a) + 0x100 * Value(b)
  }

  function Pack2(n: nat): (r: Bytes)
    ensures |r| == 2
  {
    [AsByte(n % 0x100), AsByte(n / 0x100 % 0x100)]
  }

  lemma Read2Pack2(n: nat)
    requires n < 0x1_0000
    ensures Read2(Pack2(n)[0], Pack2(n)[1]) == n
  {
    hide Value, AsByte;
    ValueOfByte(n % 0x100);
    ValueOfByte(n / 0x100 % 0x100);
    DivModIs(n / 0x100, 0x100, 0, n / 0x100);
  }

  lemma Pack2Read2(a: bv8, b: bv8)
    ensures Pack2(Read2(a, b)) == [a, b]
  {
    hide Value, AsByte;
    ByteOfValue(a);
    ByteOfValue(b);
    DivModIs(Read2(a, b), 0x100, Value(b), Value(a));
    DivModIs(Value(b), 0x100, 0, Value(b));
  }

  function Read4(a: bv8, b: bv8, c: bv8, d: bv8): (r: nat)
    ensures r < 0x1_0000_0000
  {
    Read2(a, b) + 0x1_0000 * Read2(c, d)
  }

  function Pack4(n: nat): (r: Bytes)
    ensures |r| == 4
  {
    Pack2(n % 0x1_0000) + Pack2(n / 0x1_0000 % 0x1_0000)
  }

  lemma Read4Pack4(n: nat)
    requires n < 0x1_0000_0000
    ensures Read4(Pack4(n)[0], Pack4(n)[1], Pack4(n)[2], Pack4(n)[3]) == n
  {
    hide Read2, Pack2;
    var low, high := n % 0x1_0000, n / 0x1_0000 % 0x1_0000;
    Read2Pack2(low);
    Read2Pack2(high);
    DivModIs(n / 0x1_0000, 0x1_0000, 0, n / 0x1_0000);
    assert Pack4(n)[0] == Pack2(low)[0] && Pack4(n)[1] == Pack2(low)[1] && Pack4(n)[2] == Pack2(high)[0]
           && Pack4(n)[3] == Pack2(high)[1];
  }

  lemma Pack4Read4(a: bv8, b: bv8, c: bv8, d: bv8)
    ensures Pack4(Read4(a, b, c, d)) == [a, b, c, d]
  {
    hide Read2, Pack2;
    Pack2Read2(a, b);
    Pack2Read2(c, d);
    DivModIs(Read4(a, b, c, d), 0x1_0000, Read2(c, d), Read2(a, b));
    DivModIs(Read2(c, d), 0x1_0000, 0, Read2(c, d));
  }
}
