/** Exactly when a frame cannot be read back: a voltage drop beyond 14 bits, a logged motor that the table does not
    have, and servos that run on from an unfilled optional group. */
module BlackboxExceptions {
  import opened Words
  import opened BlackboxEncoding
  import opened BlackboxFields
  import opened BlackboxFrames
  import opened BlackboxRoundTrip
  import opened BlackboxMainFrames
  import opened BlackboxReading

  // ---------------------------------------------------------------- the voltage

  /** The voltage as it comes out of an intra frame. */
  function WrappedVoltage(c: Config, v: bv32): bv32 {
    Minus(c.vbatReference, Extend14(LowBits14(Minus(c.vbatReference, v))))
  }

  function AsRead(c: Config, s: MainState): MainState {
    if c.vbat then s.(vbatLatest := WrappedVoltage(c, s.vbatLatest)) else s
  }

  lemma Fill14Facts(x: bv32)
    ensures var y := if x & 0x3FFF < 0x2000 then x & 0x3FFF else (x & 0x3FFF) | 0xFFFF_C000;
      y & 0x3FFF == x & 0x3FFF && (y < 0x2000 || y >= 0xFFFF_E000)
  {
  }

  lemma Fill14(x: bv32)
    ensures LowBits14(Extend14(LowBits14(x))) == LowBits14(x) && Fits14(Extend14(LowBits14(x)))
  {
    Fill14Facts(x);
    assert LowBits14(x) == x & 0x3FFF;
    assert Extend14(LowBits14(x)) == if x & 0x3FFF < 0x2000 then x & 0x3FFF else (x & 0x3FFF) | 0xFFFF_C000;
  }

  lemma Wrapped(c: Config, v: bv32)
    ensures LowBits14(Minus(c.vbatReference, WrappedVoltage(c, v))) == LowBits14(Minus(c.vbatReference, v))
    ensures Fits14(Minus(c.vbatReference, WrappedVoltage(c, v)))
    ensures WrappedVoltage(c, v) == v <==> Fits14(Minus(c.vbatReference, v))
  {
    hide LowBits14, Extend14, Fits14, Minus;
    var x := Minus(c.vbatReference, v);
    Fill14(x);
    PlusMinus(c.vbatReference, Extend14(LowBits14(x)));
    PlusMinus(c.vbatReference, v);
    if Fits14(x) { Extended14(x); }
  }

  lemma AsReadFits(c: Config, s: MainState)
    requires s.Valid()
    ensures AsRead(c, s).Valid() && VoltageFits(c, AsRead(c, s)) && (AsRead(c, s) == s <==> VoltageFits(c, s))
  {
    hide WrappedVoltage, Fits14, Minus, Fits16;
    Wrapped(c, s.vbatLatest);
    if c.vbat { assert AsRead(c, s) == s <==> WrappedVoltage(c, s.vbatLatest) == s.vbatLatest; }
  }

  lemma RowFacts(d: FieldDef)
    requires TableRow(d, true)
    ensures IntraPredictor(d.iPredict) || d.iPredict == Motor0
    ensures d.slot == Vbat ==> d == VBAT
  {
    if !RowShape(d, true) { assert MotorRows([d]) && d in [d]; }
  }

  lemma SameExpected(c: Config, item: Item, s: MainState)
    requires IntraPredictor(item.predict) || item.predict == Motor0
    ensures Expected(c, item, AsRead(c, s), AsRead(c, s), AsRead(c, s)) == Expected(c, item, s, s, s)
  {
    hide AsRead, At;
    SameElsewhere(c, s, Motor(0));
  }

  lemma SameVoltage(c: Config, s: MainState)
    requires c.vbat
    ensures Difference(Neg14Bit, c.vbatReference, At(AsRead(c, s), Vbat))
            == Difference(Neg14Bit, c.vbatReference, At(s, Vbat))
  {
    hide WrappedVoltage, Minus, LowBits14;
    Wrapped(c, s.vbatLatest);
  }

  lemma SameResidual(c: Config, d: FieldDef, s: MainState)
    requires TableRow(d, true) && Test(c, d.condition)
    ensures Residual(c, ItemOf(d, true), AsRead(c, s), AsRead(c, s), AsRead(c, s))
            == Residual(c, ItemOf(d, true), s, s, s)
  {
    hide Expected, Difference, At, AsRead, Test, TableRow;
    RowFacts(d);
    SameExpected(c, ItemOf(d, true), s);
    SameElsewhere(c, s, d.slot);
    if d.slot == Vbat {
      VbatExpected(c, s);
      SameVoltage(c, s);
    }
  }

  lemma VbatExpected(c: Config, s: MainState)
    ensures Expected(c, ItemOf(VBAT, true), s, s, s) == c.vbatReference && (Test(c, VBAT.condition) ==> c.vbat)
  {
  }

  lemma SameElsewhere(c: Config, s: MainState, f: Slot)
    ensures f != Vbat ==> At(AsRead(c, s), f) == At(s, f)
  {
    hide WrappedVoltage;
  }

  /** Two histories that leave every enabled row of a table the same residual. */
  ghost predicate Alike(c: Config, rows: seq<FieldDef>, intra: bool, s: MainState, p1: MainState, p2: MainState,
                        t: MainState, q1: MainState, q2: MainState) {
    forall d :: d in rows && Test(c, d.condition)
      ==> Residual(c, ItemOf(d, intra), s, p1, p2) == Residual(c, ItemOf(d, intra), t, q1, q2)
  }

  lemma {:induction false} AlikePut(c: Config, rows: seq<FieldDef>, intra: bool, s: MainState, p1: MainState,
                                    p2: MainState, t: MainState, q1: MainState, q2: MainState)
    requires Alike(c, rows, intra, s, p1, p2, t, q1, q2)
    ensures Put(c, Select(c, rows, intra), s, p1, p2) == Put(c, Select(c, rows, intra), t, q1, q2)
    ensures Residuals(c, Select(c, rows, intra), s, p1, p2) == Residuals(c, Select(c, rows, intra), t, q1, q2)
  {
    hide Test, Residual, PutOne;
    if rows != [] {
      assert rows[0] in rows;
      AlikePut(c, rows[1..], intra, s, p1, p2, t, q1, q2);
      SelectStep(c, rows, intra);
    }
  }

  lemma {:induction false} AlikeParts(c: Config, parts: Parts, intra: bool, s: MainState, p1: MainState, p2: MainState,
                                      t: MainState, q1: MainState, q2: MainState)
    requires Alike(c, AllRows(parts), intra, s, p1, p2, t, q1, q2)
    ensures PutParts(c, parts, intra, s, p1, p2) == PutParts(c, parts, intra, t, q1, q2)
    decreases parts
  {
    hide Test, Residual, Put, Select, Residuals, PackGroup;
    if parts.Next? {
      forall d | d in parts.part.rows ensures d in AllRows(parts) {}
      AlikePut(c, parts.part.rows, intra, s, p1, p2, t, q1, q2);
      AlikeParts(c, parts.more, intra, s, p1, p2, t, q1, q2);
    }
  }

  lemma TableRows(c: Config)
    ensures forall d :: d in Table() ==> TableRow(d, true)
  {
    forall d | d in Table() ensures TableRow(d, true) {
      hide AllRows, Layout, TableRow;
      LayoutShape(true);
      ShapedRows(Layout(), true, false, d);
    }
  }

  /** The bytes of an intra frame only tell the wrapped voltage. */
  lemma SameIntra(c: Config, s: MainState)
    requires c.Valid() && (c.motorEnabled ==> c.motorCount > 0)
    ensures IntraBody(c, AsRead(c, s)) == IntraBody(c, s)
  {
    hide PutParts, Layout, AsRead, FrontThen, LastParts, TableRow, AllRows, Residual, Test;
    IntraBytes(c, s);
    IntraBytes(c, AsRead(c, s));
    TableRows(c);
    forall d | d in Table() && Test(c, d.condition)
      ensures Residual(c, ItemOf(d, true), AsRead(c, s), AsRead(c, s), AsRead(c, s))
              == Residual(c, ItemOf(d, true), s, s, s)
    {
      SameResidual(c, d, s);
    }
    AlikeParts(c, Layout(), true, AsRead(c, s), AsRead(c, s), AsRead(c, s), s, s, s);
  }

  /** What the reader gets from any intra frame, and that it is the logged state exactly when the voltage fits. */
  lemma IntraReads(c: Config, s: MainState, h1: Values, h2: Values, rest: Bytes)
    requires c.Valid() && s.Valid() && (c.motorEnabled ==> c.motorCount > 0)
    ensures Decode(c, Select(c, Table(), true), IntraBody(c, s) + rest, h1, h2, map[])
            == Frame(FrameOf(c, AsRead(c, s)), rest)
    ensures FrameOf(c, AsRead(c, s)) == FrameOf(c, s) <==> VoltageFits(c, s)
  {
    hide IntraBody, FrameOf, AsRead, Decode, VoltageFits, Select, Table;
    AsReadFits(c, s);
    SameIntra(c, s);
    IntraRoundTrip(c, AsRead(c, s), h1, h2, rest);
    if FrameOf(c, AsRead(c, s)) == FrameOf(c, s) { VoltageTold(c, s); }
  }

  lemma VbatInTable()
    ensures VBAT in Table()
  {
    hide Rows, TimeAndP, RestOfPid, Noisy, Tail;
    assert VBAT in Optional();
    var p5 := Layout().more.more.more.more.more;
    assert p5.part.rows == Optional();
    assert VBAT in AllRows(p5);
    InRest(Layout().more.more.more.more, VBAT);
    InRest(Layout().more.more.more, VBAT);
    InRest(Layout().more.more, VBAT);
    InRest(Layout().more, VBAT);
    InRest(Layout(), VBAT);
  }

  lemma InRest(parts: Parts, d: FieldDef)
    requires parts.Next? && d in AllRows(parts.more)
    ensures d in AllRows(parts)
  {
  }

  lemma ReadVoltage(c: Config, s: MainState)
    requires c.vbat
    ensures At(AsRead(c, s), Vbat) == WrappedVoltage(c, s.vbatLatest) && At(s, Vbat) == s.vbatLatest
  {
    hide WrappedVoltage;
  }

  lemma VoltageTold(c: Config, s: MainState)
    requires FrameOf(c, AsRead(c, s)) == FrameOf(c, s)
    ensures VoltageFits(c, s)
  {
    hide FrameOf, WrappedVoltage, Table, Fits14, Minus, AsRead, At, Test;
    if c.vbat {
      VbatTold(c, s);
      VbatTold(c, AsRead(c, s));
      ReadVoltage(c, s);
      Wrapped(c, s.vbatLatest);
    }
  }

  lemma VbatTold(c: Config, s: MainState)
    requires c.vbat
    ensures Tells(FrameOf(c, s), s, Vbat)
  {
    hide FrameOf, Table, At;
    VbatInTable();
    FrameTells(c, s, VBAT);
  }

  // ---------------------------------------------------------------- motors without motors

  function Repeat(v: bv32, n: nat): (r: seq<bv32>)
    ensures |r| == n && forall i :: 0 <= i < n ==> r[i] == v
  {
    if n == 0 then [] else [v] + Repeat(v, n - 1)
  }

  /** Everything at rest: voltage at the reference, motors at their low end, servos centred. */
  function Idle(c: Config): MainState {
    var three, four, eight := Repeat(0, 3), Repeat(0, 4), Repeat(0, 8);
    MainState(0, 0, three, three, three, three, three, four, four, c.vbatReference, 0, three, 0, 0, 0, three, three,
              three,
              three, eight, Repeat(c.motorLow, 8), Repeat(1500, 8), eight)
  }

  lemma IdleValid(c: Config)
    ensures Idle(c).Valid() && VoltageFits(c, Idle(c))
  {
    hide Minus, Repeat, Fits14, Fits16, At;
    SelfDifference(c.vbatReference);
    ZeroFits();
  }

  lemma ZeroFits()
    ensures Fits16(0) && Fits14(0)
  {
  }

  lemma IdleMotor(c: Config)
    ensures At(Idle(c), Motor(0)) == c.motorLow
  {
    hide Repeat;
  }

  lemma IdleServo(c: Config, i: nat)
    requires i < 8
    ensures At(Idle(c), Servo(i)) == 1500
  {
    hide Repeat;
  }

  lemma SelfDifference(v: bv32)
    ensures Minus(v, v) == 0
  {
  }

  lemma ZeroByte()
    ensures UnsignedVB(0) == [0]
  {
  }

  lemma {:induction false} NoErpm(c: Config, n: nat, intra: bool)
    requires c.motorCount == 0
    ensures EnabledIn(c, Rows(Erpm8, n), intra) == 0
  {
    hide EnabledIn;
    if n == 0 {
      NoneEnabled(c, intra);
    } else {
      NoErpm(c, n - 1, intra);
      EnabledInBoth(c, Rows(Erpm8, n - 1), [Row(Erpm8, n - 1)], intra);
      EnabledOne(c, Row(Erpm8, n - 1), intra);
    }
  }

  predicate AllZero(rs: seq<bv32>) { rs == [] || (rs[0] == 0 && AllZero(rs[1..])) }

  lemma {:induction false} ZeroBits(rs: seq<bv32>)
    requires AllZero(rs)
    ensures NonZeroBits(rs) == 0 && NonZeroFields(rs) == []
  {
    if rs != [] {
      ZeroBits(rs[1..]);
      assert ShiftIn(0, false) == 0;
    }
  }

  /** A group of unchanged fields takes one zero byte, whatever its size. */
  lemma ZeroGroup(rs: seq<bv32>)
    requires AllZero(rs) && 0 < |rs| <= 8
    ensures PackGroup(Tag8Svb, rs) == [0]
  {
    ZeroBits(rs);
    ZeroByte();
    assert ZigzagEncode(0) == 0;
    hide NonZeroBits, NonZeroFields, UnsignedVB, ZigzagEncode;
  }

  lemma {:induction false} CentredServos(c: Config, n: nat)
    requires n <= 8
    ensures AllZero(Residuals(c, Select(c, Rows(Servo8, n), true), Idle(c), Idle(c), Idle(c)))
  {
    hide Idle, At, Minus, Select, Residuals;
    if n == 0 {
      EmptySelect(c, true);
      EmptyResiduals(c, Idle(c), Idle(c));
    } else {
      CentredServos(c, n - 1);
      var d := Row(Servo8, n - 1);
      SelectAppend(c, Rows(Servo8, n - 1), [d], true);
      IdleServo(c, n - 1);
      SelfDifference(1500);
      ResidualsOfRow(c, d, true, Idle(c), Idle(c), Idle(c));
      ResidualsOfBoth(c, Select(c, Rows(Servo8, n - 1), true), Select(c, [d], true), Idle(c), Idle(c), Idle(c));
      ZeroAppend(Residuals(c, Select(c, Rows(Servo8, n - 1), true), Idle(c), Idle(c), Idle(c)),
                 Residuals(c, Select(c, [d], true), Idle(c), Idle(c), Idle(c)));
    }
  }

  lemma EmptyResiduals(c: Config, s: MainState, p: MainState)
    ensures Residuals(c, [], s, p, p) == [] && AllZero([])
  {
  }

  lemma {:induction false} ZeroAppend(a: seq<bv32>, b: seq<bv32>)
    requires AllZero(a) && AllZero(b)
    ensures AllZero(a + b)
  {
    if a == [] {
      assert a + b == b;
    } else {
      assert (a + b)[1..] == a[1..] + b;
      ZeroAppend(a[1..], b);
    }
  }

  /** The bytes after the motors when everything is centred: none, or one zero. */
  lemma IdleTail(c: Config)
    requires c.motorCount == 0
    ensures var bytes := PutParts(c, LastParts(), true, Idle(c), Idle(c), Idle(c)); bytes == [] || bytes == [0]
  {
    hide PutPart, PutParts, Put, Residuals, Idle, Rows, PackGroup, Select, AllZero, Row;
    var s, servos, speeds := Idle(c), LastParts().part, LastParts().more.part;
    TwoParts(c, servos, speeds, s);
    NoErpm(c, 8, true);
    NoMotorBytes(c, Rows(Erpm8, 8), s);
    PutPlain(c, Rows(Erpm8, 8), s);
    PutServos(c, s);
    CentredServos(c, 8);
    ServoCount(c, true);
    if c.servos { ZeroGroup(Residuals(c, Select(c, Rows(Servo8, 8), true), s, s, s)); } else { NoGroup(); }
  }

  lemma PutPlain(c: Config, rows: seq<FieldDef>, s: MainState)
    ensures PutPart(c, Part(rows, Null, Null), true, s, s, s) == Put(c, Select(c, rows, true), s, s, s)
  {
    hide Put, Select;
  }

  lemma PutServos(c: Config, s: MainState)
    ensures PutPart(c, LastParts().part, true, s, s, s)
            == PackGroup(Tag8Svb, Residuals(c, Select(c, Rows(Servo8, 8), true), s, s, s))
  {
    hide PackGroup, Residuals, Select, Rows;
  }

  /** With motors logged but none present, a byte of the first motor is left over that the reader takes for the start of
      the next frame. */
  lemma MotorlessFrame(c: Config, h1: Values, h2: Values, rest: Bytes)
    requires c.Valid() && c.motorEnabled && c.motorCount == 0
    ensures Decode(c, Select(c, Table(), true), IntraBody(c, Idle(c)) + rest, h1, h2, map[])
            == Frame(FrameOf(c, Idle(c)), [0] + rest)
  {
    hide PutParts, Layout, FrontThen, LastParts, Idle, Decode, Select, FrameOf, At;
    var s := Idle(c);
    IdleMotor(c);
    SelfDifference(c.motorLow);
    ZeroByte();
    IdleTail(c);
    IntraBytes(c, s);
    var front, last := PutParts(c, FrontThen(End), true, s, s, s), PutParts(c, LastParts(), true, s, s, s);
    assert IntraMotors(c, s) == [0];
    assert PutParts(c, Layout(), true, s, s, s) == front + last;
    assert [0] + last == last + [0];
    Regroup(front, last, [0]);
    assert IntraBody(c, s) + rest == (front + last) + ([0] + rest);
    forall d | d in Table() && Test(c, d.condition) ensures RowOk(c, d, true, s, s, s, h1, h2) {
      hide AllRows, Test, RowOk, PartsShape, TableRow, VoltageFits;
      IdleValid(c);
      LayoutShape(true);
      ShapedRows(Layout(), true, false, d);
      IntraRowOk(c, d, s, h1, h2);
    }
    DecodeFrame(c, true, s, s, s, h1, h2, [0] + rest);
  }

  function ReadIntraFrame(c: Config, s: MainState, rest: Bytes): Decoded {
    Decode(c, Select(c, Table(), true), IntraBody(c, s) + rest, map[], map[], map[])
  }

  /** Every intra frame whose voltage fits is read back. */
  ghost predicate IntrasFollowed(c: Config) {
    forall s: MainState, rest :: s.Valid() && VoltageFits(c, s)
        ==> ReadIntraFrame(c, s, rest) == Frame(FrameOf(c, s), rest)
  }

  /** That is so unless motors are logged and there is none. */
  lemma IntraExactly(c: Config)
    requires c.Valid()
    ensures IntrasFollowed(c) <==> !(c.motorEnabled && c.motorCount == 0)
  {
    hide IntraBody, FrameOf, Decode, Select, Table, VoltageFits;
    if c.motorEnabled && c.motorCount == 0 {
      var s := Idle(c);
      IdleValid(c);
      MotorlessFrame(c, map[], map[], []);
      assert ReadIntraFrame(c, s, []) != Frame(FrameOf(c, s), []);
    } else {
      forall s: MainState, rest | s.Valid() && VoltageFits(c, s)
        ensures ReadIntraFrame(c, s, rest) == Frame(FrameOf(c, s), rest)
      {
        IntraRoundTrip(c, s, map[], map[], rest);
      }
    }
  }
}
