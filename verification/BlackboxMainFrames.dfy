/** The main field table is one the writers and the reader agree on, with its exact exceptions. */
module BlackboxMainFrames {
  import opened Words
  import opened BlackboxEncoding
  import opened BlackboxFields
  import opened BlackboxFrames
  import opened BlackboxRoundTrip

  // ---------------------------------------------------------------- the writers

  /** The motors as the intra frame writer emits them: the first one whenever motors are logged at all. */
  function IntraMotors(c: Config, s: MainState): Bytes {
    if !c.motorEnabled then [] else UnsignedVB(Minus(At(s, Motor(0)), c.motorLow)) + OtherMotorsVB(s, c.motorCount)
  }

  function OtherMotorsVB(s: MainState, n: nat): Bytes {
    if n <= 1 then [] else OtherMotorsVB(s, n - 1) + SignedVB(Minus(At(s, Motor(n - 1)), At(s, Motor(0))))
  }

  /** `writeIntraframe`, after the frame character. */
  function IntraBody(c: Config, s: MainState): Bytes {
    PutParts(c, FrontThen(End), true, s, s, s) + (IntraMotors(c, s) + PutParts(c, LastParts(), true, s, s, s))
  }

  /** `writeInterframe`, after the frame character. */
  function InterBody(c: Config, s: MainState, p1: MainState, p2: MainState): Bytes {
    PutParts(c, Layout(), false, s, p1, p2)
  }

  // ---------------------------------------------------------------- the rows are of known shapes

  predicate IntraPredictor(p: Predictor) { p in {Zero, MinMotor, Center1500, VbatRef} }

  predicate InterPredictor(p: Predictor) { p in {Previous, StraightLine, Average2, Increment} }

  predicate RowShape(d: FieldDef, intra: bool) {
    if intra then
      IntraPredictor(d.iPredict) && d.iEncode in {UnsignedVb, SignedVb, Tag8Svb, Neg14Bit}
        && (d.iEncode == Neg14Bit || d.slot == Vbat ==> d == VBAT)
    else
      InterPredictor(d.pPredict) && d.pEncode in {SignedVb, Tag8Svb, Tag2Of3, Tag8Of4, Null}
        && (d.pEncode == Null ==> d == ITERATION) && (d.pEncode == Tag8Of4 ==> Stick(d.slot))
  }

  predicate Stick(f: Slot) { (f.RcCommand? && f.i < 4) || (f.Setpoint? && f.i < 4) }

  predicate RowsShape(rows: seq<FieldDef>, intra: bool, group: Encoding) {
    (forall d :: d in rows ==> RowShape(d, intra)) && Fitting(rows, intra, group)
  }

  /** Rows an intra frame predicts from its own first motor. */
  predicate MotorRows(rows: seq<FieldDef>) {
    forall d :: d in rows ==>
      d.slot.Motor? && d.iPredict == Motor0 && d.iEncode == SignedVb && d.condition.AtLeastMotors? && d.condition.n >= 2
  }

  /** Rows predicted from the first motor come after it. */
  predicate PartsShape(parts: Parts, intra: bool, after: bool) {
    parts.End? ||
    (&& (RowsShape(parts.part.rows, intra, GroupOf(parts.part, intra))
         || (intra && after && MotorRows(parts.part.rows) && parts.part.iGroup == Null))
     && PartsShape(parts.more, intra, after || parts.part.rows == [Row(FirstMotor, 0)]))
  }

  function ArrayGroup(a: Array, intra: bool): Encoding {
    if a == Servo8 then Tag8Svb else if intra then Null
    else match a case AxesI => Tag2Of3 case RcCommands4 => Tag8Of4 case Setpoint4 => Tag8Of4 case Mag3 => Tag8Svb
         case _ => Null
  }

  lemma {:induction false} ArrayShape(a: Array, n: nat, intra: bool)
    requires (a == RcCommands4 || a == Setpoint4 ==> n <= 4) && (intra ==> a != OtherMotors)
    ensures RowsShape(Rows(a, n), intra, ArrayGroup(a, intra)) && |Rows(a, n)| == n
  {
    hide RowShape, Simple, Row, ArrayGroup;
    if n > 0 {
      ArrayShape(a, n - 1, intra);
      RowIsShaped(a, n - 1, intra);
    }
  }

  lemma RowIsShaped(a: Array, i: nat, intra: bool)
    requires (a == RcCommands4 || a == Setpoint4 ==> i < 4) && (intra ==> a != OtherMotors)
    ensures var d, e := Row(a, i), ArrayGroup(a, intra);
      RowShape(d, intra) && if e == Null then Simple(ItemOf(d, intra).encode) else ItemOf(d, intra).encode == e
  {
  }

  lemma ShapeAppend(a: seq<FieldDef>, b: seq<FieldDef>, intra: bool, group: Encoding)
    requires RowsShape(a, intra, group) && RowsShape(b, intra, group)
    ensures RowsShape(a + b, intra, group)
  {
    hide RowShape, Simple;
  }

  lemma SingleShapes(intra: bool)
    ensures RowsShape([ITERATION, TIME], intra, Null)
    ensures RowsShape([VBAT, AMPERAGE], intra, if intra then Null else Tag8Svb)
    ensures RowsShape([BARO_ALT, SURFACE_RAW, RSSI], intra, if intra then Null else Tag8Svb)
  {
  }

  lemma PidShapes(intra: bool)
    ensures RowsShape(TimeAndP(), intra, Null) && RowsShape(RestOfPid(), intra, Null)
  {
    hide RowsShape, Rows;
    SingleShapes(intra);
    ArrayShape(AxesP, 3, intra);
    ArrayShape(AxesD, 3, intra);
    ArrayShape(AxesF, 3, intra);
    ArrayShape(AxesS, 3, intra);
    ShapeAppend([ITERATION, TIME], Rows(AxesP, 3), intra, Null);
    ShapeAppend(Rows(AxesF, 3), Rows(AxesS, 3), intra, Null);
    ShapeAppend(Rows(AxesD, 3), Rows(AxesF, 3) + Rows(AxesS, 3), intra, Null);
  }

  lemma NoisyShape(intra: bool)
    ensures RowsShape(Noisy(), intra, Null)
  {
    hide RowsShape, Rows;
    ArrayShape(Gyro3, 3, intra);
    ArrayShape(GyroUnfilt3, 3, intra);
    ArrayShape(Acc3, 3, intra);
    ArrayShape(Quaternion3, 3, intra);
    ArrayShape(Debug8, 8, intra);
    ShapeAppend(Rows(Quaternion3, 3), Rows(Debug8, 8), intra, Null);
    ShapeAppend(Rows(Acc3, 3), Rows(Quaternion3, 3) + Rows(Debug8, 8), intra, Null);
    ShapeAppend(Rows(GyroUnfilt3, 3), Rows(Acc3, 3) + (Rows(Quaternion3, 3) + Rows(Debug8, 8)), intra, Null);
    ShapeAppend(Rows(Gyro3, 3), Rows(GyroUnfilt3, 3) + (Rows(Acc3, 3) + (Rows(Quaternion3, 3) + Rows(Debug8, 8))),
                intra, Null);
  }

  lemma OptionalShape(intra: bool)
    ensures RowsShape(Optional(), intra, if intra then Null else Tag8Svb)
  {
    hide RowsShape, Rows;
    SingleShapes(intra);
    ArrayShape(Mag3, 3, intra);
    ShapeAppend(Rows(Mag3, 3), [BARO_ALT, SURFACE_RAW, RSSI], intra, if intra then Null else Tag8Svb);
    ShapeAppend([VBAT, AMPERAGE], Rows(Mag3, 3) + [BARO_ALT, SURFACE_RAW, RSSI], intra,
                if intra then Null else Tag8Svb);
  }

  lemma {:induction false} MotorShape(n: nat)
    ensures MotorRows(Rows(OtherMotors, n))
  {
    if n > 0 { MotorShape(n - 1); }
  }

  lemma MotorOne()
    ensures Rows(FirstMotor, 1) == [Row(FirstMotor, 0)]
  {
    assert Rows(FirstMotor, 1) == Rows(FirstMotor, 0) + [Row(FirstMotor, 0)];
  }

  lemma TailShape(intra: bool)
    ensures PartsShape(Tail(), intra, false)
  {
    hide RowsShape, Rows, Row, MotorRows;
    ArrayShape(FirstMotor, 1, intra);
    MotorOne();
    MotorShape(7);
    if !intra { ArrayShape(OtherMotors, 7, intra); }
    ArrayShape(Servo8, 8, intra);
    ArrayShape(Erpm8, 8, intra);
    assert PartsShape(LastParts().more, intra, true);
    assert PartsShape(LastParts(), intra, true);
    assert PartsShape(Tail().more, intra, true);
  }

  lemma RowsMoreShape(rows: seq<FieldDef>, iGroup: Encoding, pGroup: Encoding, more: Parts, intra: bool)
    requires RowsShape(rows, intra, if intra then iGroup else pGroup) && rows != [Row(FirstMotor, 0)]
    requires PartsShape(more, intra, false)
    ensures PartsShape(Next(Part(rows, iGroup, pGroup), more), intra, false)
  {
    hide RowsShape, Row;
  }

  lemma Lengths()
    ensures |TimeAndP()| == 5 && |RestOfPid()| == 9 && |Optional()| == 8 && |Noisy()| == 20
    ensures |Rows(AxesI, 3)| == 3 && |Rows(RcCommands4, 4)| == |Rows(Setpoint4, 4)| == 4
  {
    hide Row;
    RowsLength(AxesP, 3);
    RowsLength(AxesI, 3);
    RowsLength(AxesD, 3);
    RowsLength(AxesF, 3);
    RowsLength(AxesS, 3);
    RowsLength(RcCommands4, 4);
    RowsLength(Setpoint4, 4);
    RowsLength(Mag3, 3);
    RowsLength(Gyro3, 3);
    RowsLength(GyroUnfilt3, 3);
    RowsLength(Acc3, 3);
    RowsLength(Quaternion3, 3);
    RowsLength(Debug8, 8);
  }

  lemma {:induction false} RowsLength(a: Array, n: nat)
    ensures |Rows(a, n)| == n
  {
    hide Row;
    if n > 0 { RowsLength(a, n - 1); }
  }

  /** Every row of the table is written and read in a way both sides know. */
  lemma LayoutShape(intra: bool)
    ensures PartsShape(Layout(), intra, false)
  {
    hide RowsShape, TimeAndP, RestOfPid, Noisy, Optional, Rows, Row, PartsShape;
    Lengths();
    PidShapes(intra);
    NoisyShape(intra);
    OptionalShape(intra);
    ArrayShape(AxesI, 3, intra);
    ArrayShape(RcCommands4, 4, intra);
    ArrayShape(Setpoint4, 4, intra);
    TailShape(intra);
    var p1 := Layout().more;
    var p2 := p1.more;
    var p3 := p2.more;
    var p4 := p3.more;
    var p5 := p4.more;
    RowsMoreShape(Noisy(), Null, Null, Tail(), intra);
    RowsMoreShape(Optional(), Null, Tag8Svb, p5.more, intra);
    RowsMoreShape(Rows(Setpoint4, 4), Null, Tag8Of4, p5, intra);
    RowsMoreShape(Rows(RcCommands4, 4), Null, Tag8Of4, p4, intra);
    RowsMoreShape(RestOfPid(), Null, Null, p3, intra);
    RowsMoreShape(Rows(AxesI, 3), Null, Tag2Of3, p2, intra);
    RowsMoreShape(TimeAndP(), Null, Null, p1, intra);
  }

  // ---------------------------------------------------------------- the sizes of the groups

  predicate SizesFit(c: Config, parts: Parts, intra: bool) {
    parts.End? || (PartFits(c, parts.part, parts.more, intra) && SizesFit(c, parts.more, intra))
  }

  predicate PartFits(c: Config, part: Part, more: Parts, intra: bool) {
    var e, n := GroupOf(part, intra), |Fields(c, part, intra)|;
    && (e != Null ==> n == 0 || GroupSize(e, n))
    && (e == Tag8Svb && 0 < n < 8 ==> Breaks(Select(c, AllRows(more), intra)))
  }

  predicate MotorsOn(c: Config) { c.motorEnabled && c.motorCount >= 1 }

  /** Well-shaped rows are read back, given the reader's predictions. */
  lemma {:induction false} ShapedPartsRead(c: Config, parts: Parts, intra: bool, after: bool, cur: MainState,
                                           p1: MainState, p2: MainState, h1: Values, h2: Values, now: Values)
    requires PartsShape(parts, intra, after) && SizesFit(c, parts, intra)
    requires RowsOk(c, AllRows(parts), intra, cur, p1, p2, h1, h2)
    requires after && MotorsOn(c) ==> Tells(now, cur, Motor(0))
    ensures PartsRead(c, parts, intra, cur, p1, p2, h1, h2, now)
    decreases parts
  {
    hide Test, Tells, GroupSize, Breaks, AddAll, Has, Select, MotorRows, RowsOk, RowsShape, Row, MotorsOn, MotorKnown,
      Fitting;
    if parts.Next? {
      var rows, items, first := parts.part.rows, Fields(c, parts.part, intra), [Row(FirstMotor, 0)];
      RowsOkSplit(c, rows, AllRows(parts.more), intra, cur, p1, p2, h1, h2);
      KnownMotor(c, rows, intra, GroupOf(parts.part, intra), cur, now);
      if MotorsOn(c) && (after || rows == first) {
        if rows == first { FirstMotorIn(c, intra); }
        AddAllTells(now, items, cur, Motor(0));
      }
      hide AllRows;
      ShapedPartsRead(c, parts.more, intra, after || rows == first, cur, p1, p2, h1, h2, AddAll(now, items, cur));
    }
  }

  lemma FirstMotorIn(c: Config, intra: bool)
    requires MotorsOn(c)
    ensures Has(Select(c, [Row(FirstMotor, 0)], intra), Motor(0))
  {
    SelectHas(c, [Row(FirstMotor, 0)], intra, Row(FirstMotor, 0));
  }

  lemma KnownMotor(c: Config, rows: seq<FieldDef>, intra: bool, group: Encoding, cur: MainState, now: Values)
    requires RowsShape(rows, intra, group)
             || (intra && MotorRows(rows) && group == Null && (MotorsOn(c) ==> Tells(now, cur, Motor(0))))
    ensures MotorKnown(c, rows, intra, cur, now) && Fitting(rows, intra, group)
  {
  }

  lemma RowsOkSplit(c: Config, a: seq<FieldDef>, b: seq<FieldDef>, intra: bool, cur: MainState, p1: MainState,
                    p2: MainState, h1: Values, h2: Values)
    requires RowsOk(c, a + b, intra, cur, p1, p2, h1, h2)
    ensures RowsOk(c, a, intra, cur, p1, p2, h1, h2) && RowsOk(c, b, intra, cur, p1, p2, h1, h2)
  {
    hide Test, RowOk;
    forall d | d in a && Test(c, d.condition) ensures RowOk(c, d, intra, cur, p1, p2, h1, h2) { assert d in a + b; }
    forall d | d in b && Test(c, d.condition) ensures RowOk(c, d, intra, cur, p1, p2, h1, h2) { assert d in a + b; }
  }

  function EnabledIn(c: Config, rows: seq<FieldDef>, intra: bool): nat { |Select(c, rows, intra)| }

  lemma EnabledInBoth(c: Config, a: seq<FieldDef>, b: seq<FieldDef>, intra: bool)
    ensures EnabledIn(c, a + b, intra) == EnabledIn(c, a, intra) + EnabledIn(c, b, intra)
  {
    hide Select;
    SelectAppend(c, a, b, intra);
  }

  function Count(b: bool, n: nat): nat { if b then n else 0 }

  lemma EnabledOne(c: Config, d: FieldDef, intra: bool)
    ensures EnabledIn(c, [d], intra) == Count(Test(c, d.condition), 1)
  {
    hide Test;
    assert [d][1..] == [];
    EmptySelect(c, intra);
  }

  ghost predicate OneCondition(a: Array, cond: Condition) { forall i: nat :: Row(a, i).condition == cond }

  lemma OneConditions()
    ensures OneCondition(AxesI, Pid) && OneCondition(RcCommands4, RcCommands) && OneCondition(Setpoint4, SetpointOn)
    ensures OneCondition(Mag3, Mag) && OneCondition(Gyro3, Gyro) && OneCondition(GyroUnfilt3, GyroUnfiltOn)
    ensures OneCondition(Acc3, Acc) && OneCondition(Quaternion3, Attitude) && OneCondition(Debug8, DebugLog)
    ensures OneCondition(Servo8, Servos)
  {
  }

  /** The rows of an array with one condition are all enabled or none is. */
  lemma {:induction false} ArrayCount(c: Config, a: Array, n: nat, intra: bool, cond: Condition)
    requires OneCondition(a, cond)
    ensures EnabledIn(c, Rows(a, n), intra) == Count(Test(c, cond), n)
  {
    hide Test, Row, EnabledIn;
    if n == 0 {
      assert EnabledIn(c, [], intra) == 0 by { NoneEnabled(c, intra); }
    } else {
      ArrayCount(c, a, n - 1, intra, cond);
      EnabledInBoth(c, Rows(a, n - 1), [Row(a, n - 1)], intra);
      EnabledOne(c, Row(a, n - 1), intra);
    }
  }

  lemma NoneEnabled(c: Config, intra: bool)
    ensures EnabledIn(c, [], intra) == 0
  {
  }

  function OptionalCount(c: Config): nat {
    Count(c.vbat, 1) + Count(c.amperage, 1)
      + (Count(c.mag, 3) + (Count(c.baro, 1) + Count(c.rangefinder, 1) + Count(c.rssi, 1)))
  }

  lemma EnabledOfTwo(c: Config, d: FieldDef, e: FieldDef, intra: bool)
    ensures EnabledIn(c, [d, e], intra) == Count(Test(c, d.condition), 1) + Count(Test(c, e.condition), 1)
  {
    hide Test, EnabledIn;
    EnabledOne(c, d, intra);
    EnabledOne(c, e, intra);
    EnabledInBoth(c, [d], [e], intra);
    assert [d] + [e] == [d, e];
  }

  /** The optional group has as many values as there are optional fields, and never more than the eight it can hold. */
  lemma OptionalGroup(c: Config, intra: bool)
    ensures EnabledIn(c, Optional(), intra) == OptionalCount(c) <= 8
  {
    hide Row, EnabledIn, Rows;
    OneConditions();
    hide OneCondition;
    EnabledOfTwo(c, VBAT, AMPERAGE, intra);
    ArrayCount(c, Mag3, 3, intra, Mag);
    EnabledOfTwo(c, BARO_ALT, SURFACE_RAW, intra);
    EnabledOne(c, RSSI, intra);
    assert [BARO_ALT, SURFACE_RAW] + [RSSI] == [BARO_ALT, SURFACE_RAW, RSSI];
    EnabledInBoth(c, [BARO_ALT, SURFACE_RAW], [RSSI], intra);
    EnabledInThree(c, [VBAT, AMPERAGE], Rows(Mag3, 3), [BARO_ALT, SURFACE_RAW, RSSI], intra);
  }

  lemma EnabledInThree(c: Config, r: seq<FieldDef>, s: seq<FieldDef>, t: seq<FieldDef>, intra: bool)
    ensures EnabledIn(c, r + (s + t), intra) == EnabledIn(c, r, intra) + EnabledIn(c, s, intra) + EnabledIn(c, t, intra)
  {
    hide EnabledIn;
    EnabledInBoth(c, s, t, intra);
    EnabledInBoth(c, r, s + t, intra);
  }

  lemma EnabledInFive(c: Config, r: seq<FieldDef>, s: seq<FieldDef>, t: seq<FieldDef>, u: seq<FieldDef>,
                      v: seq<FieldDef>, intra: bool)
    ensures EnabledIn(c, r + (s + (t + (u + v))), intra)
         == EnabledIn(c, r, intra) + EnabledIn(c, s, intra) + EnabledIn(c, t, intra) + EnabledIn(c, u, intra)
            + EnabledIn(c, v, intra)
  {
    hide EnabledIn;
    EnabledInBoth(c, u, v, intra);
    EnabledInBoth(c, t, u + v, intra);
    EnabledInBoth(c, s, t + (u + v), intra);
    EnabledInBoth(c, r, s + (t + (u + v)), intra);
  }

  predicate NoisyOn(c: Config) { c.gyro || c.gyroUnfilt || c.acc || c.attitude || c.debug }

  lemma NoisyCount(c: Config, intra: bool)
    ensures EnabledIn(c, Noisy(), intra) > 0 <==> NoisyOn(c)
  {
    hide Row, EnabledIn, Rows;
    OneConditions();
    hide OneCondition;
    ArrayCount(c, Gyro3, 3, intra, Gyro);
    ArrayCount(c, GyroUnfilt3, 3, intra, GyroUnfiltOn);
    ArrayCount(c, Acc3, 3, intra, Acc);
    ArrayCount(c, Quaternion3, 3, intra, Attitude);
    ArrayCount(c, Debug8, 8, intra, DebugLog);
    EnabledInFive(c, Rows(Gyro3, 3), Rows(GyroUnfilt3, 3), Rows(Acc3, 3), Rows(Quaternion3, 3), Rows(Debug8, 8), intra);
  }

  /** The one configuration in which the servo group of an inter frame follows an unfilled optional group directly. */
  predicate ServosRunOn(c: Config) { 0 < OptionalCount(c) < 8 && c.servos && !NoisyOn(c) && !MotorsOn(c) }
}
