/** The CRC of MAVLink: the byte-at-a-time trick, the bitwise definition it stands for, and what it detects. */
module MavCrc {
  import opened Words

  const CRC_INIT: bv16 := 0xFFFF

  /** `crc_accumulate`: the low byte of the CRC is mixed with the data and with itself, then spread over 16 bits. */
  function Accumulate(data: bv8, crc: bv16): bv16 { Xor(Shr8(crc), Three(Tmp(MixedLow(data, crc)))) }

  function MixedLow(data: bv8, crc: bv16): bv8 { data ^ LowByte(crc) }

  function Tmp(low: bv8): bv8 { low ^ (low << 4) }

  function Three(tmp: bv8): bv16 { (tmp as bv16 << 8) ^ (tmp as bv16 << 3) ^ (tmp as bv16 >> 4) }

  function Shr8(crc: bv16): bv16 { crc >> 8 }

  function Xor(a: bv16, b: bv16): bv16 { a ^ b }

  /** Accumulates bytes, the first one first. */
  function AccumulateAll(bytes: Bytes, crc: bv16): bv16 {
    if bytes == [] then crc else Accumulate(bytes[|bytes| - 1], AccumulateAll(bytes[..|bytes| - 1], crc))
  }

  function Crc(bytes: Bytes): bv16 { AccumulateAll(bytes, CRC_INIT) }

  function LowByte(crc: bv16): bv8 { (crc & 0xFF) as bv8 }

  function HighByte(crc: bv16): bv8 { (crc >> 8) as bv8 }

  lemma CheckSteps()
    ensures Accumulate(0x31, 0xFFFF) == 0x2F8D
    ensures Accumulate(0x32, 0x2F8D) == 0x4D53
    ensures Accumulate(0x33, 0x4D53) == 0x634B
    ensures Accumulate(0x34, 0x634B) == 0x8B13
    ensures Accumulate(0x35, 0x8B13) == 0x44BF
    ensures Accumulate(0x36, 0x44BF) == 0x198D
    ensures Accumulate(0x37, 0x198D) == 0x1AC8
    ensures Accumulate(0x38, 0x1AC8) == 0xF795
    ensures Accumulate(0x39, 0xF795) == 0x6F91
  {
  }

  /** The check value of CRC-16/MCRF4XX: the CRC of the digits "123456789". */
  lemma CheckValue()
    ensures Crc([0x31, 0x32, 0x33, 0x34, 0x35, 0x36, 0x37, 0x38, 0x39]) == 0x6F91
  {
    var bytes: Bytes := [0x31, 0x32, 0x33, 0x34, 0x35, 0x36, 0x37, 0x38, 0x39];
    hide Accumulate;
    CheckSteps();
    assert bytes[..0] == [] && AccumulateAll(bytes[..0], CRC_INIT) == 0xFFFF;
    assert bytes[..1][..0] == bytes[..0] && AccumulateAll(bytes[..1], CRC_INIT) == 0x2F8D;
    assert bytes[..2][..1] == bytes[..1] && AccumulateAll(bytes[..2], CRC_INIT) == 0x4D53;
    assert bytes[..3][..2] == bytes[..2] && AccumulateAll(bytes[..3], CRC_INIT) == 0x634B;
    assert bytes[..4][..3] == bytes[..3] && AccumulateAll(bytes[..4], CRC_INIT) == 0x8B13;
    assert bytes[..5][..4] == bytes[..4] && AccumulateAll(bytes[..5], CRC_INIT) == 0x44BF;
    assert bytes[..6][..5] == bytes[..5] && AccumulateAll(bytes[..6], CRC_INIT) == 0x198D;
    assert bytes[..7][..6] == bytes[..6] && AccumulateAll(bytes[..7], CRC_INIT) == 0x1AC8;
    assert bytes[..8][..7] == bytes[..7] && AccumulateAll(bytes[..8], CRC_INIT) == 0xF795;
    assert bytes[..9][..8] == bytes[..8] && AccumulateAll(bytes[..9], CRC_INIT) == 0x6F91;
    assert bytes[..9] == bytes;
  }

  // ---------------------------------------------------------------- the bitwise definition

  /** One bit of the reflected polynomial x^16 + x^12 + x^5 + 1. */
  function Shift(crc: bv16): bv16 { if crc & 1 == 1 then (crc >> 1) ^ 0x8408 else crc >> 1 }

  function ShiftEight(crc: bv16): bv16 { Shift(Shift(Shift(Shift(Shift(Shift(Shift(Shift(crc)))))))) }

  /** The bitwise CRC of CRC-16/MCRF4XX: the byte is added to the low end and shifted through. */
  function Bitwise(data: bv8, crc: bv16): bv16 { ShiftEight(Mix(data, crc)) }

  function Mix(data: bv8, crc: bv16): bv16 { crc ^ data as bv16 }

  // One, two, four and eight steps in closed form: what is shifted out comes back in three places.

  function Step1(x: bv16): bv16 { (x >> 1) ^ ((x & 1) << 15) ^ ((x & 1) << 10) ^ ((x & 1) << 3) }

  function Step2(x: bv16): bv16 { (x >> 2) ^ ((x & 3) << 14) ^ ((x & 3) << 9) ^ ((x & 3) << 2) }

  function Step4(x: bv16): bv16 { (x >> 4) ^ ((x & 15) << 12) ^ ((x & 15) << 7) ^ (x & 15) }

  lemma OddShiftFacts(x: bv16)
    requires x & 1 == 1
    ensures (x >> 1) ^ 0x8408 == (x >> 1) ^ ((x & 1) << 15) ^ ((x & 1) << 10) ^ ((x & 1) << 3)
  {
  }

  lemma EvenShiftFacts(x: bv16)
    requires x & 1 == 0
    ensures x >> 1 == (x >> 1) ^ ((x & 1) << 15) ^ ((x & 1) << 10) ^ ((x & 1) << 3)
  {
  }

  lemma OneBit(x: bv16)
    ensures x & 1 == 0 || x & 1 == 1
  {
  }

  lemma ShiftIsStep1(x: bv16)
    ensures Shift(x) == Step1(x)
  {
    OneBit(x);
    if x & 1 == 1 { OddShiftFacts(x); } else { EvenShiftFacts(x); }
  }

  lemma TwoStepFacts(x: bv16, y: bv16)
    requires y == (x >> 1) ^ ((x & 1) << 15) ^ ((x & 1) << 10) ^ ((x & 1) << 3)
    ensures (y >> 1) ^ ((y & 1) << 15) ^ ((y & 1) << 10) ^ ((y & 1) << 3)
         == (x >> 2) ^ ((x & 3) << 14) ^ ((x & 3) << 9) ^ ((x & 3) << 2)
  {
  }

  lemma TwoSteps(x: bv16)
    ensures Step1(Step1(x)) == Step2(x)
  {
    TwoStepFacts(x, Step1(x));
  }

  lemma FourStepFacts(x: bv16, y: bv16)
    requires y == (x >> 2) ^ ((x & 3) << 14) ^ ((x & 3) << 9) ^ ((x & 3) << 2)
    ensures (y >> 2) ^ ((y & 3) << 14) ^ ((y & 3) << 9) ^ ((y & 3) << 2)
         == (x >> 4) ^ ((x & 15) << 12) ^ ((x & 15) << 7) ^ (x & 15)
  {
  }

  lemma FourSteps(x: bv16)
    ensures Step2(Step2(x)) == Step4(x)
  {
    FourStepFacts(x, Step2(x));
  }

  lemma EightStepFacts(x: bv16, y: bv16)
    requires y == (x >> 4) ^ ((x & 15) << 12) ^ ((x & 15) << 7) ^ (x & 15)
    ensures var low := (x & 0xFF) as bv8; var t := low ^ (low << 4);
      (y >> 4) ^ ((y & 15) << 12) ^ ((y & 15) << 7) ^ (y & 15)
        == (x >> 8) ^ ((t as bv16 << 8) ^ (t as bv16 << 3) ^ (t as bv16 >> 4))
  {
  }

  lemma EightSteps(x: bv16)
    ensures Step4(Step4(x)) == Xor(Shr8(x), Three(Tmp(LowByte(x))))
  {
    EightStepFacts(x, Step4(x));
  }

  lemma MixFacts(data: bv8, crc: bv16)
    ensures ((crc ^ data as bv16) & 0xFF) as bv8 == data ^ (crc & 0xFF) as bv8
    ensures (crc ^ data as bv16) >> 8 == crc >> 8
  {
  }

  lemma Mixed(data: bv8, crc: bv16)
    ensures LowByte(Mix(data, crc)) == MixedLow(data, crc) && Shr8(Mix(data, crc)) == Shr8(crc)
  {
    MixFacts(data, crc);
  }

  /** The bit trick equals eight steps of the bitwise CRC. */
  lemma TrickIsBitwise(data: bv8, crc: bv16)
    ensures Accumulate(data, crc) == Bitwise(data, crc)
  {
    hide ShiftEight, Mix, LowByte, MixedLow, Shr8, Tmp, Three, Xor;
    Mixed(data, crc);
    StepsOfEight(Mix(data, crc));
  }

  lemma StepsOfEight(x: bv16)
    ensures ShiftEight(x) == Xor(Shr8(x), Three(Tmp(LowByte(x))))
  {
    hide Shift, Step1, Step2, Step4, Xor, Shr8, Three, Tmp, LowByte;
    var a := Step1(x);
    var b := Step1(a);
    var c := Step1(b);
    var d := Step1(c);
    var e := Step1(d);
    var f := Step1(e);
    var g := Step1(f);
    ShiftIsStep1(x);
    ShiftIsStep1(a);
    ShiftIsStep1(b);
    ShiftIsStep1(c);
    ShiftIsStep1(d);
    ShiftIsStep1(e);
    ShiftIsStep1(f);
    ShiftIsStep1(g);
    TwoSteps(x);
    TwoSteps(b);
    TwoSteps(d);
    TwoSteps(f);
    FourSteps(x);
    FourSteps(d);
    EightSteps(x);
  }

  // ---------------------------------------------------------------- what the receiver relies on

  lemma {:induction false} AccumulateBoth(a: Bytes, b: Bytes, crc: bv16)
    ensures AccumulateAll(a + b, crc) == AccumulateAll(b, AccumulateAll(a, crc))
  {
    hide Accumulate;
    if b == [] {
      assert a + b == a;
    } else {
      assert (a + b)[..|a + b| - 1] == a + b[..|b| - 1];
      AccumulateBoth(a, b[..|b| - 1], crc);
    }
  }

  lemma OwnLowByte(crc: bv16)
    ensures Accumulate(LowByte(crc), crc) == Shr8(crc)
  {
  }

  lemma OwnHighByte(crc: bv16)
    ensures Accumulate(HighByte(crc), Shr8(crc)) == 0
  {
  }

  /** A message followed by its own CRC, low byte first, leaves zero. */
  lemma OwnBytesGiveZero(bytes: Bytes)
    ensures Crc(bytes + [LowByte(Crc(bytes)), HighByte(Crc(bytes))]) == 0
  {
    hide Accumulate, LowByte, HighByte, Shr8, AccumulateAll;
    var crc := Crc(bytes);
    var low, high := LowByte(crc), HighByte(crc);
    AccumulateBoth(bytes, [low, high], CRC_INIT);
    assert Crc(bytes + [low, high]) == AccumulateAll([low, high], crc);
    TwoBytes(low, high, crc);
    OwnLowByte(crc);
    OwnHighByte(crc);
  }

  lemma TwoBytes(a: bv8, b: bv8, crc: bv16)
    ensures AccumulateAll([a, b], crc) == Accumulate(b, Accumulate(a, crc))
  {
    hide Accumulate;
    assert [a, b][..1] == [a];
    OneByte(a, crc);
  }

  lemma OneByte(a: bv8, crc: bv16)
    ensures AccumulateAll([a], crc) == Accumulate(a, crc)
  {
    hide Accumulate;
    assert [a][..0] == [];
  }

  // ---------------------------------------------------------------- what it detects

  function Fold(t: bv8): bv8 { t ^ (t >> 5) }

  /** The byte that was mixed in, from the high byte of the CRC after it. */
  function UndoLow(high: bv8): bv8 { Tmp(Fold(high)) }

  lemma FoldFacts(crc: bv16, t: bv8)
    ensures (((crc >> 8) ^ ((t as bv16 << 8) ^ (t as bv16 << 3) ^ (t as bv16 >> 4))) >> 8) as bv8 == t ^ (t >> 5)
    ensures (t ^ (t >> 5)) ^ ((t ^ (t >> 5)) >> 5) == t
    ensures (t ^ (t << 4)) ^ ((t ^ (t << 4)) << 4) == t
  {
  }

  lemma HighIsFold(crc: bv16, t: bv8)
    ensures HighByte(Xor(Shr8(crc), Three(t))) == Fold(t)
  {
    FoldFacts(crc, t);
  }

  lemma FoldTwice(t: bv8)
    ensures Fold(Fold(t)) == t
  {
    FoldFacts(0, t);
  }

  lemma TmpTwice(t: bv8)
    ensures Tmp(Tmp(t)) == t
  {
    FoldFacts(0, t);
  }

  /** The high byte of the new CRC tells what was mixed in. */
  lemma Undo(data: bv8, crc: bv16)
    ensures UndoLow(HighByte(Accumulate(data, crc))) == MixedLow(data, crc)
  {
    hide HighByte, Xor, Shr8, Three, Tmp, Fold, MixedLow;
    var low := MixedLow(data, crc);
    HighIsFold(crc, Tmp(low));
    FoldTwice(Tmp(low));
    TmpTwice(low);
  }

  lemma XorTwiceFacts(a: bv16, b: bv16)
    ensures (a ^ b) ^ b == a
  {
  }

  lemma XorTwice(a: bv16, b: bv16)
    ensures Xor(Xor(a, b), b) == a
  {
    XorTwiceFacts(a, b);
  }

  lemma XorCancels(a: bv16, b: bv16, c: bv16)
    requires Xor(a, c) == Xor(b, c)
    ensures a == b
  {
    hide Xor;
    XorTwice(a, c);
    XorTwice(b, c);
  }

  lemma MixedFacts(a: bv8, b: bv8)
    ensures a ^ (a ^ b) == b && (a ^ b) ^ b == a
  {
  }

  lemma Unmixed(data: bv8, crc: bv16)
    ensures Xor8(data, MixedLow(data, crc)) == LowByte(crc) && Xor8(MixedLow(data, crc), LowByte(crc)) == data
  {
    MixedFacts(data, LowByte(crc));
  }

  function Xor8(a: bv8, b: bv8): bv8 { a ^ b }

  function Joined(low: bv8, high: bv16): bv16 { (high << 8) | low as bv16 }

  lemma JoinedFacts(crc: bv16)
    ensures ((crc >> 8) << 8) | (crc & 0xFF) as bv8 as bv16 == crc
  {
  }

  lemma JoinedHalves(crc: bv16)
    ensures Joined(LowByte(crc), Shr8(crc)) == crc
  {
    JoinedFacts(crc);
  }

  /** The same byte keeps different CRCs different. */
  lemma SameByteKeepsDifference(data: bv8, c: bv16, d: bv16)
    requires c != d
    ensures Accumulate(data, c) != Accumulate(data, d)
  {
    hide HighByte, LowByte, Xor, Xor8, Shr8, Three, Tmp, MixedLow, UndoLow, Joined;
    if Accumulate(data, c) == Accumulate(data, d) {
      Undo(data, c);
      Undo(data, d);
      Unmixed(data, c);
      Unmixed(data, d);
      XorCancels(Shr8(c), Shr8(d), Three(Tmp(MixedLow(data, c))));
      JoinedHalves(c);
      JoinedHalves(d);
    }
  }

  /** Different bytes lead to CRCs that differ in the high byte. */
  lemma OtherByteDiffers(a: bv8, b: bv8, crc: bv16)
    requires a != b
    ensures HighByte(Accumulate(a, crc)) != HighByte(Accumulate(b, crc))
  {
    hide Accumulate, HighByte, UndoLow, LowByte, MixedLow, Xor8;
    Undo(a, crc);
    Undo(b, crc);
    Unmixed(a, crc);
    Unmixed(b, crc);
  }

  /** Two bytes fill all 16 bits, so no two pairs lead to the same CRC. */
  lemma OtherPairDiffers(a: bv8, b: bv8, c: bv8, d: bv8, crc: bv16)
    requires a != c || b != d
    ensures Accumulate(b, Accumulate(a, crc)) != Accumulate(d, Accumulate(c, crc))
  {
    hide Accumulate, HighByte;
    var x, y := Accumulate(a, crc), Accumulate(c, crc);
    if a == c {
      OtherByteDiffers(b, d, x);
    } else {
      OtherByteDiffers(a, c, crc);
      if Accumulate(b, x) == Accumulate(d, y) { SameHighs(b, d, x, y); }
    }
  }

  lemma SameHighs(b: bv8, d: bv8, x: bv16, y: bv16)
    requires Accumulate(b, x) == Accumulate(d, y)
    ensures HighByte(x) == HighByte(y)
  {
    assert Accumulate(b, x) == Xor(Shr8(x), Three(Tmp(MixedLow(b, x))));
    assert Accumulate(d, y) == Xor(Shr8(y), Three(Tmp(MixedLow(d, y))));
    HighOfShr(x);
    HighOfShr(y);
    hide Accumulate, HighByte, LowByte, Xor, Shr8, Three, Tmp, MixedLow, UndoLow;
    Undo(b, x);
    Undo(d, y);
    XorCancels(Shr8(x), Shr8(y), Three(Tmp(MixedLow(b, x))));
  }

  lemma HighOfShr(x: bv16)
    ensures HighByte(x) == LowByte(Shr8(x))
  {
  }

  lemma {:induction false} DifferenceStays(bytes: Bytes, c: bv16, d: bv16)
    requires c != d
    ensures AccumulateAll(bytes, c) != AccumulateAll(bytes, d)
  {
    hide Accumulate;
    if bytes != [] {
      var before, last := bytes[..|bytes| - 1], bytes[|bytes| - 1];
      DifferenceStays(before, c, d);
      SameByteKeepsDifference(last, AccumulateAll(before, c), AccumulateAll(before, d));
    }
  }

  /** An error burst of up to two bytes never goes unnoticed. */
  lemma BurstDetected(front: Bytes, x: Bytes, y: Bytes, back: Bytes)
    requires |x| == |y| <= 2 && x != y
    ensures Crc(front + x + back) != Crc(front + y + back)
  {
    hide Accumulate;
    var crc := Crc(front);
    AccumulateBoth(front + x, back, CRC_INIT);
    AccumulateBoth(front, x, CRC_INIT);
    AccumulateBoth(front + y, back, CRC_INIT);
    AccumulateBoth(front, y, CRC_INIT);
    if |x| == 1 {
      assert x == [x[0]] && y == [y[0]];
      OneByte(x[0], crc);
      OneByte(y[0], crc);
      OtherByteDiffers(x[0], y[0], crc);
    } else {
      assert x == [x[0], x[1]] && y == [y[0], y[1]];
      TwoBytes(x[0], x[1], crc);
      TwoBytes(y[0], y[1], crc);
      OtherPairDiffers(x[0], x[1], y[0], y[1], crc);
    }
    DifferenceStays(back, AccumulateAll(x, crc), AccumulateAll(y, crc));
  }

  // ---------------------------------------------------------------- the loops

  /** `crc_accumulate_buffer` */
  method AccumulateBuffer(crcAccum: bv16, buffer: array<byte>, start: nat, length: nat) returns (crc: bv16)
    requires start + length <= buffer.Length
    ensures crc == AccumulateAll(buffer[start..start + length], crcAccum)
  {
    hide Accumulate;
    crc := crcAccum;
    for i := 0 to length
      invariant crc == AccumulateAll(buffer[start..start + i], crcAccum)
    {
      assert buffer[start..start + i + 1][..i] == buffer[start..start + i];
      crc := Accumulate(buffer[start + i], crc);
    }
  }

  /** `crc_calculate` */
  method Calculate(buffer: array<byte>, start: nat, length: nat) returns (crc: bv16)
    requires start + length <= buffer.Length
    ensures crc == Crc(buffer[start..start + length])
  {
    crc := AccumulateBuffer(CRC_INIT, buffer, start, length);
  }
}
