/** The variable-size encoders of the flight log, as functions from words to bytes, with the decoders that undo them. */
module BlackboxEncoding {
  import opened Words

  /** What a decoder makes of a byte string: the value in front and the bytes after it, or too few bytes. */
  datatype ReadWord = Short | Got(value: bv32, rest: Bytes)

  datatype ReadWords = ShortList | GotList(values: seq<bv32>, rest: Bytes)

  // ---------------------------------------------------------------- variable byte

  /** Unsigned LEB128: seven bits a byte, low bits first, high bit set on all but the last. */
  function UnsignedVB(value: bv32): (r: Bytes)
    ensures r != []
    decreases value
  {
    if value <= 127 then [Low8(value)] else [Low8(value | 0x80)] + UnsignedVB(value >> 7)
  }

  /** Reads an LEB128 number of at most `limit` bytes. */
  function ReadVB(s: Bytes, limit: nat): ReadWord {
    if limit == 0 || s == [] then Short
    else if s[0] < 0x80 then Got(s[0] as bv32, s[1..])
    else match ReadVB(s[1..], limit - 1)
      case Short => Short
      case Got(high, rest) => Got(Above7(s[0], high), rest)
  }

  function Above7(low: bv8, high: bv32): bv32 { (low & 0x7F) as bv32 | (high << 7) }

  /** The number of bytes needed: one more for each further seven bits. */
  function VBSize(value: bv32): nat {
    if value < 0x80 then 1 else if value < 0x4000 then 2 else if value < 0x20_0000 then 3
    else if value < 0x1000_0000 then 4 else 5
  }

  lemma {:induction false} UnsignedVBSize(value: bv32)
    ensures |UnsignedVB(value)| == VBSize(value)
    decreases value
  {
    if value > 127 { UnsignedVBSize(value >> 7); }
  }

  lemma SevenBitFacts(value: bv32)
    ensures value <= 127 ==> (value & 0xFF) as bv8 < 0x80 && (value & 0xFF) as bv8 as bv32 == value
    ensures ((value | 0x80) & 0xFF) as bv8 >= 0x80
    ensures (((value | 0x80) & 0xFF) as bv8 & 0x7F) as bv32 | ((value >> 7) << 7) == value
  {
  }

  lemma SevenBits(value: bv32)
    ensures value <= 127 ==> Low8(value) < 0x80 && Low8(value) as bv32 == value
    ensures Low8(value | 0x80) >= 0x80 && Above7(Low8(value | 0x80), value >> 7) == value
  {
    SevenBitFacts(value);
  }

  lemma {:induction false} ReadVBOf(value: bv32, rest: Bytes, limit: nat)
    requires VBSize(value) <= limit
    ensures ReadVB(UnsignedVB(value) + rest, limit) == Got(value, rest)
    decreases value
  {
    hide Low8, Above7;
    SevenBits(value);
    var s := UnsignedVB(value) + rest;
    if value > 127 {
      SizeStep(value);
      hide VBSize;
      ReadVBOf(value >> 7, rest, limit - 1);
      assert s[1..] == UnsignedVB(value >> 7) + rest;
    } else {
      assert s[1..] == rest;
    }
  }

  lemma ShiftFacts(value: bv32)
    requires value > 127
    ensures value >> 7 < value
    ensures value < 0x4000 <==> value >> 7 < 0x80
    ensures value < 0x20_0000 <==> value >> 7 < 0x4000
    ensures value < 0x1000_0000 <==> value >> 7 < 0x20_0000
    ensures value >> 7 < 0x1000_0000
  {
  }

  lemma SizeStep(value: bv32)
    requires value > 127
    ensures VBSize(value) == VBSize(value >> 7) + 1 && value >> 7 < value
  {
    ShiftFacts(value);
  }

  /** `(value << 1) ^ (value >> 31)`. */
  function ZigzagEncode(value: bv32): bv32 { (value << 1) ^ SignMask(value) }

  function ZigzagDecode(code: bv32): bv32 { if code & 1 == 0 then code >> 1 else (code >> 1) ^ 0xFFFF_FFFF }

  lemma ZigzagFacts(v: bv32)
    ensures v < 0x8000_0000 ==> ((v << 1) ^ 0) & 1 == 0 && ((v << 1) ^ 0) >> 1 == v
    ensures v >= 0x8000_0000 ==> ((v << 1) ^ 0xFFFF_FFFF) & 1 != 0 && (((v << 1) ^ 0xFFFF_FFFF) >> 1) ^ 0xFFFF_FFFF == v
  {
  }

  lemma ZigzagRoundTrip(value: bv32)
    ensures ZigzagDecode(ZigzagEncode(value)) == value
  {
    ZigzagFacts(value);
    if value < 0x8000_0000 {
      assert SignMask(value) == 0;
      assert ZigzagEncode(value) == (value << 1) ^ 0;
    } else {
      assert SignMask(value) == 0xFFFF_FFFF;
      assert ZigzagEncode(value) == (value << 1) ^ 0xFFFF_FFFF;
    }
  }

  function SignedVB(value: bv32): (r: Bytes)
    ensures r != []
  {
    UnsignedVB(ZigzagEncode(value))
  }

  function ReadUnsigned(s: Bytes): ReadWord { ReadVB(s, 5) }

  function ReadSigned(s: Bytes): ReadWord {
    match ReadVB(s, 5)
    case Short => Short
    case Got(code, rest) => Got(ZigzagDecode(code), rest)
  }

  /** Every `uint32_t` takes at most five bytes and survives in front of any following bytes. */
  lemma UnsignedVBRoundTrip(value: bv32, rest: Bytes)
    ensures ReadUnsigned(UnsignedVB(value) + rest) == Got(value, rest)
    ensures |UnsignedVB(value)| <= 5
  {
    ReadVBOf(value, rest, 5);
    UnsignedVBSize(value);
  }

  /** So does every `int32_t`. */
  lemma SignedVBRoundTrip(value: bv32, rest: Bytes)
    ensures ReadSigned(SignedVB(value) + rest) == Got(value, rest)
    ensures |SignedVB(value)| <= 5
  {
    hide ReadVB, UnsignedVB, ZigzagEncode, ZigzagDecode;
    UnsignedVBRoundTrip(ZigzagEncode(value), rest);
    ZigzagRoundTrip(value);
  }

  /** As a two's complement number, `v` is at least `-n` and below `n`. */
  predicate Within(v: bv32, n: bv32) { v < n || v >= 0 - n }

  lemma ZigzagValueFacts(v: bv32)
    ensures v < 0x8000_0000 ==> (v << 1) ^ 0 == v + v
    ensures v >= 0x8000_0000 ==> (v << 1) ^ 0xFFFF_FFFF == 0 - (v + v) - 1
  {
  }

  /** The code of a value is twice it, and that of a negative one twice its magnitude less one. */
  lemma ZigzagIs(v: bv32)
    ensures ZigzagEncode(v) == if v < 0x8000_0000 then v + v else 0 - (v + v) - 1
  {
    ZigzagValueFacts(v);
  }

  lemma PositiveSize(v: bv32)
    requires v < 0x8000_0000
    ensures VBSize((v << 1) ^ 0)
         == if v < 0x40 then 1 else if v < 0x2000 then 2 else if v < 0x10_0000 then 3 else if v < 0x800_0000 then 4
            else 5
  {
  }

  lemma NegativeSize(v: bv32)
    requires v >= 0x8000_0000
    ensures VBSize((v << 1) ^ 0xFFFF_FFFF)
         == if v >= 0xFFFF_FFC0 then 1 else if v >= 0xFFFF_E000 then 2 else if v >= 0xFFF0_0000 then 3
            else if v >= 0xF800_0000 then 4 else 5
  {
  }

  lemma PositiveCode(v: bv32)
    requires v < 0x8000_0000
    ensures ZigzagEncode(v) == (v << 1) ^ 0
  {
  }

  lemma NegativeCode(v: bv32)
    requires v >= 0x8000_0000
    ensures ZigzagEncode(v) == (v << 1) ^ 0xFFFF_FFFF
  {
  }

  lemma ZigzagSize(v: bv32)
    ensures VBSize(ZigzagEncode(v))
         == if Within(v, 0x40) then 1 else if Within(v, 0x2000) then 2
            else if Within(v, 0x10_0000) then 3 else if Within(v, 0x800_0000) then 4 else 5
  {
    hide VBSize, ZigzagEncode;
    if v < 0x8000_0000 {
      PositiveCode(v);
      PositiveSize(v);
    } else {
      NegativeCode(v);
      NegativeSize(v);
    }
  }

  /** The length of a signed value goes by its magnitude. */
  lemma SignedVBSize(value: bv32)
    ensures |SignedVB(value)|
         == if Within(value, 0x40) then 1 else if Within(value, 0x2000) then 2
            else if Within(value, 0x10_0000) then 3 else if Within(value, 0x800_0000) then 4 else 5
  {
    hide UnsignedVB, ZigzagEncode, Within, VBSize;
    ZigzagSize(value);
    UnsignedVBSize(ZigzagEncode(value));
  }

  // ---------------------------------------------------------------- Tag2_3S32

  /** The narrowest of 2, 4, 6 and 32 bits that holds the value, as a two-bit selector. */
  function Width3S32(v: bv32): nat {
    if Fits2(v) then 0 else if Fits4(v) then 1 else if Fits6(v) then 2 else 3
  }

  function Wider(a: nat, b: nat): nat { if a < b then b else a }

  function Selector3S32(a: bv32, b: bv32, c: bv32): nat { Wider(Wider(Width3S32(a), Width3S32(b)), Width3S32(c)) }

  /** The number of bytes, less one, that holds the value. */
  function ByteClass(v: bv32): (c: bv32)
    ensures c < 4
  {
    if Fits8(v) then 0 else if Fits16(v) then 1 else if Fits24(v) then 2 else 3
  }

  /** The bytes of a field, low byte first. */
  function FieldBytes(v: bv32): Bytes {
    match ByteClass(v)
    case 0 => [Byte(v, 0)]
    case 1 => [Byte(v, 0), Byte(v, 1)]
    case 2 => [Byte(v, 0), Byte(v, 1), Byte(v, 2)]
    case _ => [Byte(v, 0), Byte(v, 1), Byte(v, 2), Byte(v, 3)]
  }

  /** The `i`-th byte of a word, counted from the low end. */
  function Byte(v: bv32, i: nat): bv8 {
    match i case 0 => Low8(v) case 1 => Low8(v >> 8) case 2 => Low8(v >> 16) case _ => Low8(v >> 24)
  }

  /** The byte classes of three fields, the first in the low bits. */
  function ByteClasses(a: bv32, b: bv32, c: bv32): bv32 {
    ShiftIn2(ShiftIn2(ShiftIn2(0, ByteClass(c)), ByteClass(b)), ByteClass(a))
  }

  /** One more two-bit selector below the ones already there. */
  function ShiftIn2(classes: bv32, c: bv32): bv32 { (classes << 2) | c }

  function ShiftOut2(classes: bv32): bv32 { classes >> 2 }

  // The bytes that hold a selector, or two fields, as the four cases of the encoder compute them.

  function Lead2(a: bv32, b: bv32, c: bv32): bv8 { Low8((0 << 6) | ((a & 3) << 4) | ((b & 3) << 2) | (c & 3)) }

  function Lead4(a: bv32): bv8 { Low8((1 << 6) | (a & 0xF)) }

  function Next4(b: bv32, c: bv32): bv8 { Low8((b << 4) | (c & 0xF)) }

  function Lead6(a: bv32): bv8 { Low8((2 << 6) | (a & 0x3F)) }

  function LeadWide(classes: bv32): bv8 { Low8((3 << 6) | classes) }

  function Tag2_3S32(a: bv32, b: bv32, c: bv32): Bytes {
    match Selector3S32(a, b, c)
    case 0 => [Lead2(a, b, c)]
    case 1 => [Lead4(a), Next4(b, c)]
    case 2 => [Lead6(a), Low8(b), Low8(c)]
    case _ => [LeadWide(ByteClasses(a, b, c))] + (FieldBytes(a) + (FieldBytes(b) + FieldBytes(c)))
  }

  /** How many bytes hold a value of its own. */
  function FieldSize(v: bv32): nat {
    if Within(v, 0x80) then 1 else if Within(v, 0x8000) then 2 else if Within(v, 0x80_0000) then 3 else 4
  }

  lemma FieldBytesSize(v: bv32)
    ensures |FieldBytes(v)| == FieldSize(v)
  {
  }

  /** The length is the least that the ranges of the three values allow: one, two or three bytes for values of 2, 4 or 6
      bits, else a byte of selectors and what each value takes. */
  lemma Tag2_3S32Size(a: bv32, b: bv32, c: bv32)
    ensures |Tag2_3S32(a, b, c)|
         == if Within(a, 2) && Within(b, 2) && Within(c, 2) then 1
            else if Within(a, 8) && Within(b, 8) && Within(c, 8) then 2
            else if Within(a, 32) && Within(b, 32) && Within(c, 32) then 3
            else 1 + FieldSize(a) + FieldSize(b) + FieldSize(c)
  {
    hide Lead2, Lead4, Next4, Lead6, LeadWide, ByteClasses, FieldBytes, FieldSize, Low8;
    FieldBytesSize(a);
    FieldBytesSize(b);
    FieldBytesSize(c);
  }

  /** A two's complement number of one to four bytes, low byte first. */
  function ReadField(s: Bytes, class': bv32): ReadWord {
    match class'
    case 0 => if |s| < 1 then Short else Got(Extend8(s[0] as bv32), s[1..])
    case 1 => if |s| < 2 then Short else Got(Extend16(Join(s[0], s[1], 0, 0)), s[2..])
    case 2 => if |s| < 3 then Short else Got(Extend24(Join(s[0], s[1], s[2], 0)), s[3..])
    case _ => if |s| < 4 then Short else Got(Join(s[0], s[1], s[2], s[3]), s[4..])
  }

  function Join(a: bv8, b: bv8, c: bv8, d: bv8): bv32 {
    a as bv32 | (b as bv32 << 8) | (c as bv32 << 16) | (d as bv32 << 24)
  }

  /** The `i`-th two-bit selector. */
  function Class(classes: bv32, i: bv32): bv32 {
    match i case 0 => classes & 3 case 1 => (classes >> 2) & 3 case 2 => (classes >> 4) & 3 case _ => (classes >> 6) & 3
  }

  function ReadFields(s: Bytes, classes: bv32): ReadWords {
    match ReadField(s, Class(classes, 0))
    case Short => ShortList
    case Got(a, s) =>
      match ReadField(s, Class(classes, 1))
      case Short => ShortList
      case Got(b, s) =>
        match ReadField(s, Class(classes, 2))
        case Short => ShortList
        case Got(c, s) => GotList([a, b, c], s)
  }

  function TopBits(lead: bv8): bv32 { lead as bv32 >> 6 }

  function Signed2(b: bv8, shift: bv32): bv32 {
    Extend2(LowBits2(if shift == 4 then b as bv32 >> 4 else if shift == 2 then b as bv32 >> 2 else b as bv32))
  }

  function SignedHigh4(b: bv8): bv32 { Extend4(LowBits4(b as bv32 >> 4)) }

  function SignedLow4(b: bv8): bv32 { Extend4(LowBits4(b as bv32)) }

  function Signed6(b: bv8): bv32 { Extend6(LowBits6(b as bv32)) }

  function Below6(lead: bv8): bv32 { lead as bv32 & 0x3F }

  function ReadTag2_3S32(s: Bytes): ReadWords {
    if s == [] then ShortList else
    var lead, top := s[0], TopBits(s[0]);
    if top == 0 then GotList([Signed2(lead, 4), Signed2(lead, 2), Signed2(lead, 0)], s[1..])
    else if top == 1 then
      if |s| < 2 then ShortList else GotList([SignedLow4(lead), SignedHigh4(s[1]), SignedLow4(s[1])], s[2..])
    else if top == 2 then
      if |s| < 3 then ShortList else GotList([Signed6(lead), Signed6(s[1]), Signed6(s[2])], s[3..])
    else ReadFields(s[1..], Below6(lead))
  }

  lemma ByteFacts(v: bv32)
    ensures (v & 0xFF) as bv8 as bv32 == v & 0xFF
    ensures (v & 0xFF) as bv8 as bv32 | (((v >> 8) & 0xFF) as bv8 as bv32 << 8) | (0 << 16) | (0 << 24) == v & 0xFFFF
    ensures (v & 0xFF) as bv8 as bv32 | (((v >> 8) & 0xFF) as bv8 as bv32 << 8)
            | (((v >> 16) & 0xFF) as bv8 as bv32 << 16)
      | (0 << 24) == v & 0xFF_FFFF
    ensures (v & 0xFF) as bv8 as bv32 | (((v >> 8) & 0xFF) as bv8 as bv32 << 8)
            | (((v >> 16) & 0xFF) as bv8 as bv32 << 16)
      | (((v >> 24) & 0xFF) as bv8 as bv32 << 24) == v
  {
  }

  lemma Join8(v: bv32)
    ensures Byte(v, 0) as bv32 == LowBits8(v)
  {
    ByteFacts(v);
  }

  lemma Join16(v: bv32)
    ensures Join(Byte(v, 0), Byte(v, 1), 0, 0) == LowBits16(v)
  {
    ByteFacts(v);
  }

  lemma Join24(v: bv32)
    ensures Join(Byte(v, 0), Byte(v, 1), Byte(v, 2), 0) == LowBits24(v)
  {
    ByteFacts(v);
  }

  lemma Join32(v: bv32)
    ensures Join(Byte(v, 0), Byte(v, 1), Byte(v, 2), Byte(v, 3)) == v
  {
    ByteFacts(v);
  }

  lemma FieldRoundTrip(v: bv32, rest: Bytes)
    ensures ReadField(FieldBytes(v) + rest, ByteClass(v)) == Got(v, rest)
  {
    hide Fits8, Fits16, Fits24, Extend8, Extend16, Extend24, LowBits8, LowBits16, LowBits24, Join, Byte;
    Join8(v);
    Join16(v);
    Join24(v);
    Join32(v);
    if Fits8(v) { Extended8(v); }
    if Fits16(v) { Extended16(v); }
    if Fits24(v) { Extended24(v); }
    var s := FieldBytes(v) + rest;
    assert s[|FieldBytes(v)|..] == rest;
  }

  lemma ClassFacts(a: bv32, b: bv32, c: bv32)
    requires a < 4 && b < 4 && c < 4
    ensures var cs := (((((0 << 2) | c) << 2) | b) << 2) | a;
      && cs & 3 == a && (cs >> 2) & 3 == b && (cs >> 4) & 3 == c
      && (((3 << 6) | cs) & 0xFF) as bv8 as bv32 >> 6 == 3 && (((3 << 6) | cs) & 0xFF) as bv8 as bv32 & 0x3F == cs
  {
  }

  lemma SplitClasses(a: bv32, b: bv32, c: bv32)
    ensures var cs := ByteClasses(a, b, c);
      && Class(cs, 0) == ByteClass(a) && Class(cs, 1) == ByteClass(b) && Class(cs, 2) == ByteClass(c)
      && TopBits(LeadWide(cs)) == 3 && Below6(LeadWide(cs)) == cs
  {
    hide ByteClass;
    ClassFacts(ByteClass(a), ByteClass(b), ByteClass(c));
  }

  lemma NarrowFacts(a: bv32, b: bv32, c: bv32)
    ensures var lead := (((0 << 6) | ((a & 3) << 4) | ((b & 3) << 2) | (c & 3)) & 0xFF) as bv8 as bv32;
      lead >> 6 == 0 && (lead >> 4) & 3 == a & 3 && (lead >> 2) & 3 == b & 3 && lead & 3 == c & 3
    ensures var lead := (((1 << 6) | (a & 0xF)) & 0xFF) as bv8 as bv32; lead >> 6 == 1 && lead & 0xF == a & 0xF
    ensures var next := (((b << 4) | (c & 0xF)) & 0xFF) as bv8 as bv32;
            (next >> 4) & 0xF == b & 0xF && next & 0xF == c & 0xF
    ensures var lead := (((2 << 6) | (a & 0x3F)) & 0xFF) as bv8 as bv32; lead >> 6 == 2 && lead & 0x3F == a & 0x3F
    ensures (b & 0xFF) as bv8 as bv32 & 0x3F == b & 0x3F
    ensures (c & 0xFF) as bv8 as bv32 & 0x3F == c & 0x3F
  {
  }

  /** Values that do not need a wider selector do not lose bits. */
  lemma NarrowExtends(v: bv32)
    ensures Width3S32(v) <= 0 ==> Extend2(LowBits2(v)) == v
    ensures Width3S32(v) <= 1 ==> Extend4(LowBits4(v)) == v
    ensures Width3S32(v) <= 2 ==> Extend6(LowBits6(v)) == v
  {
    FilledBits(v);
  }

  lemma Narrow2(a: bv32, b: bv32, c: bv32)
    ensures var lead := Lead2(a, b, c);
      && TopBits(lead) == 0 && Signed2(lead, 4) == Extend2(LowBits2(a))
      && Signed2(lead, 2) == Extend2(LowBits2(b)) && Signed2(lead, 0) == Extend2(LowBits2(c))
  {
    hide Extend2;
    NarrowFacts(a, b, c);
  }

  lemma Narrow4(a: bv32, b: bv32, c: bv32)
    ensures TopBits(Lead4(a)) == 1 && SignedLow4(Lead4(a)) == Extend4(LowBits4(a))
    ensures SignedHigh4(Next4(b, c)) == Extend4(LowBits4(b)) && SignedLow4(Next4(b, c)) == Extend4(LowBits4(c))
  {
    hide Extend4;
    NarrowFacts(a, b, c);
  }

  lemma Narrow6(a: bv32, b: bv32)
    ensures TopBits(Lead6(a)) == 2 && Signed6(Lead6(a)) == Extend6(LowBits6(a))
    ensures Signed6(Low8(b)) == Extend6(LowBits6(b))
  {
    hide Extend6;
    NarrowFacts(a, b, 0);
  }

  lemma NarrowRoundTrip(a: bv32, b: bv32, c: bv32, rest: Bytes)
    requires Selector3S32(a, b, c) <= 2
    ensures ReadTag2_3S32(Tag2_3S32(a, b, c) + rest) == GotList([a, b, c], rest)
  {
    hide Width3S32, Low8, ByteClasses, ShiftIn2, FieldBytes, ReadFields, Extend2, Extend4, Extend6, LowBits2, LowBits4,
      LowBits6, Lead2, Lead4, Next4, Lead6, LeadWide, TopBits, Signed2, SignedLow4, SignedHigh4, Signed6, Below6;
    NarrowExtends(a);
    NarrowExtends(b);
    NarrowExtends(c);
    var selector, s := Selector3S32(a, b, c), Tag2_3S32(a, b, c) + rest;
    assert Width3S32(a) <= selector && Width3S32(b) <= selector && Width3S32(c) <= selector;
    hide Selector3S32;
    if selector == 0 {
      Narrow2(a, b, c);
      assert s[1..] == rest;
    } else if selector == 1 {
      Narrow4(a, b, c);
      assert s[2..] == rest;
    } else {
      Narrow6(a, b);
      Narrow6(a, c);
      assert s[3..] == rest;
    }
  }

  lemma Reassociate(lead: bv8, a: Bytes, b: Bytes, c: Bytes, rest: Bytes)
    ensures var s := [lead] + (a + (b + c)) + rest; s[0] == lead && s[1..] == a + (b + (c + rest))
  {
    assert (a + (b + c)) + rest == a + (b + (c + rest));
    assert [lead] + (a + (b + c)) + rest == [lead] + ((a + (b + c)) + rest);
  }

  lemma WideRoundTrip(a: bv32, b: bv32, c: bv32, rest: Bytes)
    requires Selector3S32(a, b, c) > 2
    ensures ReadTag2_3S32(Tag2_3S32(a, b, c) + rest) == GotList([a, b, c], rest)
  {
    hide FieldBytes, ReadField, ByteClass, ByteClasses, Class, Selector3S32, Low8, LeadWide, TopBits, Below6, Signed2,
      SignedLow4, SignedHigh4, Signed6, Lead2, Lead4, Next4, Lead6;
    var s := Tag2_3S32(a, b, c) + rest;
    var afterB := FieldBytes(c) + rest;
    var afterA := FieldBytes(b) + afterB;
    SplitClasses(a, b, c);
    Reassociate(LeadWide(ByteClasses(a, b, c)), FieldBytes(a), FieldBytes(b), FieldBytes(c), rest);
    FieldRoundTrip(a, afterA);
    FieldRoundTrip(b, afterB);
    FieldRoundTrip(c, rest);
  }

  /** Three signed fields of any size come back exactly, in front of any following bytes. */
  lemma Tag2_3S32RoundTrip(a: bv32, b: bv32, c: bv32, rest: Bytes)
    ensures ReadTag2_3S32(Tag2_3S32(a, b, c) + rest) == GotList([a, b, c], rest)
  {
    hide Selector3S32, Tag2_3S32, ReadTag2_3S32;
    if Selector3S32(a, b, c) <= 2 { NarrowRoundTrip(a, b, c, rest); } else { WideRoundTrip(a, b, c, rest); }
  }

  // ---------------------------------------------------------------- Tag8_4S16

  datatype ReadNibbles = ShortNibbles | GotNibbles(nibbles: seq<bv4>, rest: Bytes)

  function Low4(x: bv32): bv4 { (x & 0xF) as bv4 }

  /** How the field is written: not at all, or in one, two or four nibbles. */
  function NibbleClass(v: bv32): (c: bv32)
    ensures c < 4
  {
    if v == 0 then 0 else if Fits4(v) then 1 else if Fits8(v) then 2 else 3
  }

  function NibbleCount(c: bv32): nat { match c case 0 => 0 case 1 => 1 case 2 => 2 case _ => 4 }

  /** The field as big-endian nibbles. */
  function FieldNibbles(v: bv32): (ns: seq<bv4>)
    ensures |ns| == NibbleCount(NibbleClass(v))
  {
    match NibbleClass(v)
    case 0 => []
    case 1 => [Low4(v)]
    case 2 => [Low4(v >> 4), Low4(v)]
    case _ => [Low4(v >> 12), Low4(v >> 8), Low4(v >> 4), Low4(v)]
  }

  /** One nibble stream for all fields. */
  function NibbleStream(a: bv32, b: bv32, c: bv32, d: bv32): seq<bv4> {
    FieldNibbles(a) + (FieldNibbles(b) + (FieldNibbles(c) + FieldNibbles(d)))
  }

  function Pair(high: bv4, low: bv4): bv8 { (high as bv8 << 4) | low as bv8 }

  /** Nibbles in pairs, the first of each pair high, an odd last one padded with zero. */
  function Pack(ns: seq<bv4>): Bytes {
    if ns == [] then []
    else if |ns| == 1 then [Pair(ns[0], 0)]
    else [Pair(ns[0], ns[1])] + Pack(ns[2..])
  }

  function NibbleClasses(a: bv32, b: bv32, c: bv32, d: bv32): bv32 {
    ShiftIn2(ShiftIn2(ShiftIn2(ShiftIn2(0, NibbleClass(d)), NibbleClass(c)), NibbleClass(b)), NibbleClass(a))
  }

  function Tag8_4S16(a: bv32, b: bv32, c: bv32, d: bv32): Bytes {
    [Low8(NibbleClasses(a, b, c, d))] + Pack(NibbleStream(a, b, c, d))
  }

  lemma {:induction false} PackAppend(a: seq<bv4>, b: seq<bv4>)
    requires |a| % 2 == 0
    ensures Pack(a + b) == Pack(a) + Pack(b)
  {
    hide Pair;
    if a == [] {
      assert a + b == b;
    } else {
      assert (a + b)[2..] == a[2..] + b;
      PackAppend(a[2..], b);
    }
  }

  lemma {:induction false} PackSize(ns: seq<bv4>)
    ensures |Pack(ns)| == (|ns| + 1) / 2
  {
    if |ns| > 1 { PackSize(ns[2..]); }
  }

  /** How many nibbles a value takes. */
  function NibblesOf(v: bv32): nat {
    if v == 0 then 0 else if Within(v, 8) then 1 else if Within(v, 0x80) then 2 else 4
  }

  lemma FieldNibblesSize(v: bv32)
    ensures |FieldNibbles(v)| == NibblesOf(v)
  {
  }

  /** The length is a byte and half a byte for each nibble the four values take, rounded up. */
  lemma Tag8_4S16Size(a: bv32, b: bv32, c: bv32, d: bv32)
    ensures |Tag8_4S16(a, b, c, d)| == 1 + (NibblesOf(a) + NibblesOf(b) + NibblesOf(c) + NibblesOf(d) + 1) / 2
  {
    hide Pack, FieldNibbles, NibblesOf, NibbleClasses, Low8;
    FieldNibblesSize(a);
    FieldNibblesSize(b);
    FieldNibblesSize(c);
    FieldNibblesSize(d);
    PackSize(NibbleStream(a, b, c, d));
  }

  function HighNibble(b: bv8): bv4 { (b >> 4) as bv4 }

  function LowNibble(b: bv8): bv4 { (b & 0xF) as bv4 }

  lemma PairFacts(high: bv4, low: bv4)
    ensures (((high as bv8 << 4) | low as bv8) >> 4) as bv4 == high
            && (((high as bv8 << 4) | low as bv8) & 0xF) as bv4 == low
  {
  }

  lemma Unpair(high: bv4, low: bv4)
    ensures HighNibble(Pair(high, low)) == high && LowNibble(Pair(high, low)) == low
  {
    PairFacts(high, low);
  }

  /** The first `n` nibbles of a byte string. */
  function Unpack(s: Bytes, n: nat): ReadNibbles {
    if n == 0 then GotNibbles([], s)
    else if s == [] then ShortNibbles
    else if n == 1 then GotNibbles([HighNibble(s[0])], s[1..])
    else match Unpack(s[1..], n - 2)
      case ShortNibbles => ShortNibbles
      case GotNibbles(more, rest) => GotNibbles([HighNibble(s[0]), LowNibble(s[0])] + more, rest)
  }

  lemma {:induction false} UnpackPack(ns: seq<bv4>, rest: Bytes)
    ensures Unpack(Pack(ns) + rest, |ns|) == GotNibbles(ns, rest)
  {
    hide Pair, HighNibble, LowNibble;
    var s := Pack(ns) + rest;
    if |ns| >= 2 {
      Unpair(ns[0], ns[1]);
      UnpackPack(ns[2..], rest);
      assert s[1..] == Pack(ns[2..]) + rest;
      assert ns == [ns[0], ns[1]] + ns[2..];
    } else if |ns| == 1 {
      Unpair(ns[0], 0);
      assert s[1..] == rest && ns == [ns[0]];
    } else {
      assert s == rest;
    }
  }

  /** What is left of a number in 16 bits. */
  function Wrap16(v: bv32): bv32 { Extend16(LowBits16(v)) }

  function JoinNibbles(a: bv4, b: bv4, c: bv4, d: bv4): bv32 {
    (a as bv32 << 12) | (b as bv32 << 8) | (c as bv32 << 4) | d as bv32
  }

  /** The value of one field from its nibbles. */
  function FromNibbles(ns: seq<bv4>): bv32 {
    if |ns| == 1 then Extend4(JoinNibbles(0, 0, 0, ns[0]))
    else if |ns| == 2 then Extend8(JoinNibbles(0, 0, ns[0], ns[1]))
    else if |ns| == 4 then Extend16(JoinNibbles(ns[0], ns[1], ns[2], ns[3]))
    else 0
  }

  function Widen(b: bv8): bv32 { b as bv32 }

  function ReadTag8_4S16(s: Bytes): ReadWords {
    if s == [] then ShortList else
    var cs := Widen(s[0]);
    var i := NibbleCount(Class(cs, 0));
    var j := i + NibbleCount(Class(cs, 1));
    var k := j + NibbleCount(Class(cs, 2));
    var l := k + NibbleCount(Class(cs, 3));
    match Unpack(s[1..], l)
    case ShortNibbles => ShortList
    case GotNibbles(ns, rest) =>
      if |ns| != l then ShortList
      else GotList([FromNibbles(ns[..i]), FromNibbles(ns[i..j]), FromNibbles(ns[j..k]), FromNibbles(ns[k..])], rest)
  }

  lemma NibbleFacts(v: bv32)
    ensures (0 << 12) | (0 << 8) | (0 << 4) | (v & 0xF) as bv4 as bv32 == v & 0xF
    ensures (0 << 12) | (0 << 8) | (((v >> 4) & 0xF) as bv4 as bv32 << 4) | (v & 0xF) as bv4 as bv32 == v & 0xFF
    ensures (((v >> 12) & 0xF) as bv4 as bv32 << 12) | (((v >> 8) & 0xF) as bv4 as bv32 << 8)
      | (((v >> 4) & 0xF) as bv4 as bv32 << 4) | (v & 0xF) as bv4 as bv32 == v & 0xFFFF
  {
  }

  lemma JoinedNibbles(v: bv32)
    ensures JoinNibbles(0, 0, 0, Low4(v)) == LowBits4(v)
    ensures JoinNibbles(0, 0, Low4(v >> 4), Low4(v)) == LowBits8(v)
    ensures JoinNibbles(Low4(v >> 12), Low4(v >> 8), Low4(v >> 4), Low4(v)) == LowBits16(v)
  {
    NibbleFacts(v);
  }

  lemma NarrowNibbles(v: bv32)
    ensures v == 0 ==> Extend16(LowBits16(v)) == v
    ensures Fits4(v) ==> Extend4(LowBits4(v)) == v == Extend16(LowBits16(v))
    ensures Fits8(v) ==> Extend8(LowBits8(v)) == v == Extend16(LowBits16(v))
  {
    FilledBits(v);
    NestedRanges(v);
  }

  lemma NestedRanges(v: bv32)
    ensures v < 8 || v >= 0xFFFF_FFF8 ==> v < 0x8000 || v >= 0xFFFF_8000
    ensures v < 0x80 || v >= 0xFFFF_FF80 ==> v < 0x8000 || v >= 0xFFFF_8000
  {
  }

  lemma Slices(a: seq<bv4>, b: seq<bv4>, c: seq<bv4>, d: seq<bv4>)
    ensures var ns := a + (b + (c + d));
      var i := |a|;
      var j := i + |b|;
      var k := j + |c|;
      ns[..i] == a && ns[i..j] == b && ns[j..k] == c && ns[k..] == d
  {
  }

  lemma FromFieldNibbles(v: bv32)
    ensures FromNibbles(FieldNibbles(v)) == Wrap16(v)
  {
    hide Fits4, Fits8, Extend4, Extend8, Extend16, LowBits4, LowBits8, LowBits16, JoinNibbles, Low4;
    JoinedNibbles(v);
    NarrowNibbles(v);
  }

  lemma NibbleClassFacts(a: bv32, b: bv32, c: bv32, d: bv32)
    requires a < 4 && b < 4 && c < 4 && d < 4
    ensures var cs := (((((((0 << 2) | d) << 2) | c) << 2) | b) << 2) | a;
      cs & 3 == a && (cs >> 2) & 3 == b && (cs >> 4) & 3 == c && (cs >> 6) & 3 == d && (cs & 0xFF) as bv8 as bv32 == cs
  {
  }

  lemma SplitNibbleClasses(a: bv32, b: bv32, c: bv32, d: bv32)
    ensures var cs := NibbleClasses(a, b, c, d);
      && Class(cs, 0) == NibbleClass(a) && Class(cs, 1) == NibbleClass(b)
      && Class(cs, 2) == NibbleClass(c) && Class(cs, 3) == NibbleClass(d) && Widen(Low8(cs)) == cs
  {
    hide NibbleClass;
    NibbleClassFacts(NibbleClass(a), NibbleClass(b), NibbleClass(c), NibbleClass(d));
  }

  /** Four fields come back modulo 2^16, hence exactly when they are `int16_t`. */
  lemma Tag8_4S16RoundTrip(a: bv32, b: bv32, c: bv32, d: bv32, rest: Bytes)
    ensures ReadTag8_4S16(Tag8_4S16(a, b, c, d) + rest)
         == GotList([Wrap16(a), Wrap16(b), Wrap16(c), Wrap16(d)], rest)
  {
    hide NibbleClass, FieldNibbles, FromNibbles, Pack, Unpack, NibbleCount, NibbleClasses, Wrap16, Low8, Class, Widen;
    var fa, fb, fc, fd := FieldNibbles(a), FieldNibbles(b), FieldNibbles(c), FieldNibbles(d);
    var ns := NibbleStream(a, b, c, d);
    Slices(fa, fb, fc, fd);
    SplitNibbleClasses(a, b, c, d);
    FromFieldNibbles(a);
    FromFieldNibbles(b);
    FromFieldNibbles(c);
    FromFieldNibbles(d);
    UnpackPack(ns, rest);
    var s := Tag8_4S16(a, b, c, d) + rest;
    assert s[1..] == Pack(ns) + rest && s[0] == Low8(NibbleClasses(a, b, c, d));
  }

  // ---------------------------------------------------------------- Tag8_8SVB

  function ShiftIn(bits: bv8, bit: bool): bv8 { (bits << 1) | (if bit then 1 else 0) }

  function LowBit(bits: bv8): bool { bits & 1 == 1 }

  function ShiftOut(bits: bv8): bv8 { bits >> 1 }

  /** A bit for each field that is not zero, the first field in the low bit. */
  function NonZeroBits(v: seq<bv32>): bv8 {
    if v == [] then 0 else ShiftIn(NonZeroBits(v[1..]), v[0] != 0)
  }

  function BitLimit(n: nat): bv8 {
    match n case 0 => 0 case 1 => 1 case 2 => 3 case 3 => 7 case 4 => 15 case 5 => 31 case 6 => 63 case 7 => 127
      case _ => 255
  }

  lemma ShiftInFacts(high: bv8)
    ensures high <= 0 ==> high << 1 <= 1 && (high << 1) | 1 <= 1
    ensures high <= 1 ==> high << 1 <= 3 && (high << 1) | 1 <= 3
    ensures high <= 3 ==> high << 1 <= 7 && (high << 1) | 1 <= 7
    ensures high <= 7 ==> high << 1 <= 15 && (high << 1) | 1 <= 15
    ensures high <= 15 ==> high << 1 <= 31 && (high << 1) | 1 <= 31
    ensures high <= 31 ==> high << 1 <= 63 && (high << 1) | 1 <= 63
    ensures high <= 63 ==> high << 1 <= 127 && (high << 1) | 1 <= 127
    ensures high <= 127 ==> ((high << 1) | 1) >> 1 == high && ((high << 1) | 0) >> 1 == high
    ensures ((high << 1) | 1) & 1 == 1 && ((high << 1) | 0) & 1 != 1 && (high << 1) | 0 == high << 1
  {
  }

  lemma {:induction false} NonZeroBitsBound(v: seq<bv32>)
    ensures NonZeroBits(v) <= BitLimit(|v|)
  {
    if v != [] {
      NonZeroBitsBound(v[1..]);
      ShiftInFacts(NonZeroBits(v[1..]));
    }
  }

  lemma BitLimitRange(n: nat)
    requires n <= 7
    ensures BitLimit(n) <= 127
  {
  }

  lemma ShiftOutIn(bits: bv8, bit: bool)
    requires bits <= 127
    ensures LowBit(ShiftIn(bits, bit)) == bit && ShiftOut(ShiftIn(bits, bit)) == bits
  {
    ShiftInFacts(bits);
  }

  function NonZeroField(v: bv32): Bytes { if v != 0 then SignedVB(v) else [] }

  function NonZeroFields(v: seq<bv32>): Bytes {
    if v == [] then [] else NonZeroField(v[0]) + NonZeroFields(v[1..])
  }

  function Tag8_8SVB(v: seq<bv32>): Bytes {
    if v == [] then []
    else if |v| == 1 then SignedVB(v[0])
    else [NonZeroBits(v)] + NonZeroFields(v)
  }

  function ReadIf(s: Bytes, marked: bool): ReadWord { if marked then ReadSigned(s) else Got(0, s) }

  function ReadMarked(s: Bytes, bits: bv8, n: nat): ReadWords
    decreases n
  {
    if n == 0 then GotList([], s) else
    match ReadIf(s, LowBit(bits))
    case Short => ShortList
    case Got(first, s) =>
      match ReadMarked(s, ShiftOut(bits), n - 1)
      case ShortList => ShortList
      case GotList(more, rest) => GotList([first] + more, rest)
  }

  /** The reader has to know the number of fields: it is not in the bytes. */
  function ReadTag8_8SVB(s: Bytes, n: nat): ReadWords {
    if n == 0 then GotList([], s)
    else if n == 1 then (match ReadSigned(s) case Short => ShortList case Got(v, rest) => GotList([v], rest))
    else if s == [] then ShortList
    else ReadMarked(s[1..], s[0], n)
  }

  lemma ReadNonZeroField(v: bv32, rest: Bytes)
    ensures ReadIf(NonZeroField(v) + rest, v != 0) == Got(v, rest)
  {
    hide SignedVB, ReadSigned;
    SignedVBRoundTrip(v, rest);
    assert [] + rest == rest;
  }

  lemma {:induction false} ReadMarkedFields(v: seq<bv32>, rest: Bytes)
    requires |v| <= 8
    ensures ReadMarked(NonZeroFields(v) + rest, NonZeroBits(v), |v|) == GotList(v, rest)
  {
    hide NonZeroField, ReadIf, ShiftIn, ShiftOut, LowBit, BitLimit;
    if v == [] {
      assert NonZeroFields(v) + rest == rest;
    } else {
      var later := NonZeroFields(v[1..]) + rest;
      NonZeroBitsBound(v[1..]);
      BitLimitRange(|v| - 1);
      ShiftOutIn(NonZeroBits(v[1..]), v[0] != 0);
      assert NonZeroFields(v) + rest == NonZeroField(v[0]) + later;
      hide NonZeroBits, NonZeroFields;
      ReadNonZeroField(v[0], later);
      ReadMarkedFields(v[1..], rest);
      assert v == [v[0]] + v[1..];
    }
  }

  /** Up to eight fields come back when the reader knows how many there are. */
  lemma Tag8_8SVBRoundTrip(v: seq<bv32>, rest: Bytes)
    requires |v| <= 8
    ensures ReadTag8_8SVB(Tag8_8SVB(v) + rest, |v|) == GotList(v, rest)
  {
    hide SignedVB, ReadSigned, NonZeroFields, NonZeroBits, ReadMarked;
    var s := Tag8_8SVB(v) + rest;
    if v == [] {
      assert s == rest;
    } else if |v| == 1 {
      SignedVBRoundTrip(v[0], rest);
      assert v == [v[0]];
    } else {
      assert s[1..] == NonZeroFields(v) + rest;
      ReadMarkedFields(v, rest);
    }
  }
}
