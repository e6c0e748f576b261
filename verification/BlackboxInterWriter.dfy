/** The inter frame writer: differences to the last states, packed in groups where the firmware packs them. */
module BlackboxInterWriter {
  import opened Words
  import opened BlackboxEncoding
  import opened BlackboxStream
  import opened BlackboxFields
  import opened BlackboxFrames
  import opened BlackboxRoundTrip
  import opened BlackboxMainFrames
  import opened BlackboxReading
  import opened BlackboxWriters

  // ---------------------------------------------------------------- differences

  /** The arrays inter frames predict from the last state, and those they predict from the last two. */
  predicate FromLast(a: Array) {
    a in {AxesP, AxesI, AxesD, AxesF, AxesS, RcCommands4, Setpoint4, Mag3, Servo8, Erpm8}
  }

  predicate FromTwo(a: Array) { a in {Gyro3, GyroUnfilt3, Acc3, Quaternion3, Debug8} }

  lemma LastPredicted(a: Array, i: nat)
    requires FromLast(a)
    ensures Row(a, i).pPredict == Previous && Row(a, i).pEncode != Neg14Bit
  {
  }

  lemma TwoPredicted(a: Array, i: nat)
    requires FromTwo(a) || a == FirstMotor || a == OtherMotors
    ensures Row(a, i).pPredict == Average2 && Row(a, i).pEncode == SignedVb
  {
  }

  lemma LastResidual(c: Config, a: Array, i: nat, s: MainState, p1: MainState, p2: MainState)
    requires FromLast(a) && i < |ValuesOf(s, a)| && i < |ValuesOf(p1, a)|
    ensures Residual(c, ItemOf(Row(a, i), false), s, p1, p2) == Minus(ValuesOf(s, a)[i], ValuesOf(p1, a)[i])
  {
    ValueAt(s, a, i);
    ValueAt(p1, a, i);
    LastPredicted(a, i);
    hide Row, At, ValuesOf, Minus, LowBits14;
  }

  lemma TwoResidual(c: Config, a: Array, i: nat, s: MainState, p1: MainState, p2: MainState)
    requires FromTwo(a) && i < |ValuesOf(s, a)| && i < |ValuesOf(p1, a)| && i < |ValuesOf(p2, a)|
    ensures Residual(c, ItemOf(Row(a, i), false), s, p1, p2)
         == Minus(ValuesOf(s, a)[i], HalfSum(ValuesOf(p1, a)[i], ValuesOf(p2, a)[i]))
  {
    ValueAt(s, a, i);
    ValueAt(p1, a, i);
    ValueAt(p2, a, i);
    TwoPredicted(a, i);
    hide Row, At, ValuesOf, Minus, LowBits14, HalfSum;
  }

  lemma MotorResidual(c: Config, i: nat, s: MainState, p1: MainState, p2: MainState)
    requires s.Valid() && p1.Valid() && p2.Valid() && i < 8
    ensures Residual(c, ItemOf(if i == 0 then Row(FirstMotor, 0) else Row(OtherMotors, i - 1), false), s, p1, p2)
         == Minus(s.motor[i], HalfSum(p1.motor[i], p2.motor[i]))
  {
    hide At, Minus, LowBits14, HalfSum;
    MotorAt(s, i);
    MotorAt(p1, i);
    MotorAt(p2, i);
  }

  /** `arraySubInt32`, and the same loop over 16-bit members. */
  method ArraySub(cur: seq<bv32>, last: seq<bv32>) returns (deltas: seq<bv32>)
    requires |cur| == |last|
    ensures |deltas| == |cur| && forall i :: 0 <= i < |cur| ==> deltas[i] == Minus(cur[i], last[i])
  {
    hide Minus;
    deltas := [];
    for i := 0 to |cur|
      invariant |deltas| == i && forall k :: 0 <= k < i ==> deltas[k] == Minus(cur[k], last[k])
    {
      deltas := deltas + [Minus(cur[i], last[i])];
    }
  }

  /** The deltas of one array of the state. */
  method Deltas(ghost c: Config, a: Array, n: nat, s: MainState, p1: MainState, ghost p2: MainState)
    returns (deltas: seq<bv32>)
    requires FromLast(a) && |ValuesOf(s, a)| == |ValuesOf(p1, a)| == n
    ensures |deltas| == n && WrittenFrom(c, a, n, false, s, p1, p2, deltas)
  {
    hide Minus, Residual, ValuesOf, Row, FromLast;
    deltas := ArraySub(ValuesOf(s, a), ValuesOf(p1, a));
    forall i: nat | i < n
      ensures Residual(c, ItemOf(Row(a, i), false), s, p1, p2) == deltas[i]
    {
      LastResidual(c, a, i, s, p1, p2);
    }
  }

  // ---------------------------------------------------------------- time and the controller terms

  lemma TimeResidual(c: Config, s: MainState, p1: MainState, p2: MainState)
    ensures Residual(c, ItemOf(TIME, false), s, p1, p2) == Minus(s.time, Minus(Plus(p1.time, p1.time), p2.time))
  {
    hide Plus, Minus, LowBits14;
  }

  lemma SecondDifference(c: Config, s: MainState, p1: MainState, p2: MainState)
    ensures Residual(c, ItemOf(TIME, false), s, p1, p2) == Plus(Minus(s.time, Plus(p1.time, p1.time)), p2.time)
  {
    hide Plus, Minus, Residual;
    TimeResidual(c, s, p1, p2);
    MinusMinus(s.time, Plus(p1.time, p1.time), p2.time);
  }

  lemma NothingSent(start: Bytes, c: Config, s: MainState, p1: MainState, p2: MainState)
    ensures Sent(start, start, c, [], false, s, p1, p2)
  {
    hide RowsBytes;
    NoRowsBytes(c, false, s, p1, p2);
  }

  /** The iteration takes no bytes; the time is written as a second difference. */
  method WriteTimeDelta(out: LogStream, c: Config, s: MainState, p1: MainState, p2: MainState, ghost start: Bytes)
    requires out.written == start
    modifies out
    ensures Sent(out.written, start, c, [ITERATION, TIME], false, s, p1, p2)
  {
    hide SignedVB, Minus, Plus, RowsBytes, Residual, Sent;
    NothingSent(start, c, s, p1, p2);
    SentOne(out.written, start, c, [], ITERATION, false, s, p1, p2);
    assert out.written + [] == out.written && [] + [ITERATION] == [ITERATION]
           && [ITERATION] + [TIME] == [ITERATION, TIME];
    SentOne(out.written, start, c, [ITERATION], TIME, false, s, p1, p2);
    SecondDifference(c, s, p1, p2);
    out.WriteSignedVB(Plus(Minus(s.time, Plus(p1.time, p1.time)), p2.time));
  }

  /** An array of deltas, one after the other. */
  method WriteDeltaArray(out: LogStream, c: Config, a: Array, n: nat, ghost cond: Condition, s: MainState,
                         p1: MainState, ghost p2: MainState, ghost start: Bytes, ghost rows: seq<FieldDef>)
    requires FromLast(a) && |ValuesOf(s, a)| == |ValuesOf(p1, a)| == n
    requires OneCondition(a, cond) && AllSigned(a, false) && Test(c, cond)
             && Sent(out.written, start, c, rows, false, s, p1, p2)
    modifies out
    ensures Sent(out.written, start, c, rows + Rows(a, n), false, s, p1, p2)
  {
    hide Sent, RowsBytes, Rows, Test, OneCondition, AllSigned, WrittenFrom, ValuesOf, FromLast, SignedVBs;
    ghost var before := out.written;
    var deltas := Deltas(c, a, n, s, p1, p2);
    out.WriteSignedVBArray(deltas);
    ArrayBytes(c, a, n, false, cond, s, p1, p2, deltas);
    assert deltas[..n] == deltas;
    SentMore(before, SignedVBs(deltas), start, c, rows, Rows(a, n), false, s, p1, p2);
  }

  /** The differences of the terms that have a nonzero gain. */
  method WriteAxisDeltas(out: LogStream, c: Config, a: Array, s: MainState, p1: MainState, ghost p2: MainState,
                         ghost start: Bytes, ghost rows: seq<FieldDef>)
    requires c.Valid() && s.Valid() && p1.Valid() && a in {AxesD, AxesS}
    requires Sent(out.written, start, c, rows, false, s, p1, p2)
    modifies out
    ensures Sent(out.written, start, c, rows + Rows(a, 3), false, s, p1, p2)
  {
    hide Sent, Test, Row, RowsBytes, SignedVB, Residual, Minus;
    assert rows + Rows(a, 0) == rows;
    hide Rows;
    for x := 0 to 3
      invariant Sent(out.written, start, c, rows + Rows(a, x), false, s, p1, p2)
    {
      AxisRows(c, x);
      LastResidual(c, a, x, s, p1, p2);
      SentRow(out.written, start, c, rows, a, x, false, s, p1, p2);
      if Test(c, if a == AxesD then NonzeroD(x) else WingS(x)) {
        out.WriteSignedVB(if a == AxesD then Minus(s.axisD[x], p1.axisD[x]) else Minus(s.axisS[x], p1.axisS[x]));
      }
    }
  }

  /** A group of three or four, or nothing. */
  lemma SmallGroup(c: Config, a: Array, n: nat, e: Encoding, cond: Condition, s: MainState, p1: MainState,
                   p2: MainState, values: seq<bv32>)
    requires (e == Tag2Of3 && n == 3) || (e == Tag8Of4 && n == 4)
    requires OneCondition(a, cond) && |values| == n && WrittenFrom(c, a, n, false, s, p1, p2, values)
    ensures PutPart(c, Part(Rows(a, n), Null, e), false, s, p1, p2) == if Test(c, cond) then Packed(e, values) else []
  {
    hide Residual, Row, Rows, Select, Residuals, Test, WrittenFrom, OneCondition, Packed;
    ArrayResiduals(c, a, n, false, cond, s, p1, p2, values);
    assert values[..n] == values;
  }

  function GroupI(): Part { Part(Rows(AxesI, 3), Null, Tag2Of3) }

  /** The bytes of the controller terms. */
  function PidBytes(c: Config, s: MainState, p1: MainState, p2: MainState): Bytes {
    RowsBytes(c, Rows(AxesP, 3), false, s, p1, p2)
      + (PutPart(c, GroupI(), false, s, p1, p2) + RowsBytes(c, RestOfPid(), false, s, p1, p2))
  }

  method WriteIntegrals(out: LogStream, c: Config, s: MainState, p1: MainState, ghost p2: MainState)
    requires s.Valid() && p1.Valid() && Test(c, Pid)
    modifies out
    ensures out.written == old(out.written) + PutPart(c, GroupI(), false, s, p1, p2)
  {
    hide Tag2_3S32, PutPart, WrittenFrom, OneCondition, Rows, Test;
    OneConditions();
    var deltas := Deltas(c, AxesI, 3, s, p1, p2);
    SmallGroup(c, AxesI, 3, Tag2Of3, Pid, s, p1, p2, deltas);
    out.WriteTag2_3S32(deltas);
  }

  method WriteRestOfPid(out: LogStream, c: Config, s: MainState, p1: MainState, ghost p2: MainState)
    requires c.Valid() && s.Valid() && p1.Valid() && Test(c, Pid)
    modifies out
    ensures out.written == old(out.written) + RowsBytes(c, RestOfPid(), false, s, p1, p2)
  {
    hide Sent, RowsBytes, Rows, Test, OneCondition, AllSigned;
    SignedDeltas();
    MoreOneConditions();
    ghost var start := out.written;
    NothingSent(start, c, s, p1, p2);
    WriteAxisDeltas(out, c, AxesD, s, p1, p2, start, []);
    WriteDeltaArray(out, c, AxesF, 3, Pid, s, p1, p2, start, [] + Rows(AxesD, 3));
    WriteAxisDeltas(out, c, AxesS, s, p1, p2, start, [] + Rows(AxesD, 3) + Rows(AxesF, 3));
    Regroup([] + Rows(AxesD, 3), Rows(AxesF, 3), Rows(AxesS, 3));
    Regroup([], Rows(AxesD, 3), Rows(AxesF, 3) + Rows(AxesS, 3));
    SentAll(out.written, start, c, RestOfPid(), false, s, p1, p2);
  }

  method WriteProportionals(out: LogStream, c: Config, s: MainState, p1: MainState, ghost p2: MainState)
    requires s.Valid() && p1.Valid() && Test(c, Pid)
    modifies out
    ensures out.written == old(out.written) + RowsBytes(c, Rows(AxesP, 3), false, s, p1, p2)
  {
    hide Sent, RowsBytes, Rows, Test, OneCondition, AllSigned;
    SignedDeltas();
    MoreOneConditions();
    ghost var start := out.written;
    NothingSent(start, c, s, p1, p2);
    WriteDeltaArray(out, c, AxesP, 3, Pid, s, p1, p2, start, []);
    SentAll(out.written, start, c, Rows(AxesP, 3), false, s, p1, p2);
  }

  lemma {:induction false} DisabledBytes(c: Config, a: Array, n: nat, s: MainState, p1: MainState, p2: MainState)
    requires forall i: nat :: i < n ==> !Test(c, Row(a, i).condition)
    ensures RowsBytes(c, Rows(a, n), false, s, p1, p2) == []
  {
    hide Test, Row, RowsBytes, Residual, PutOne;
    if n == 0 {
      NoRowsBytes(c, false, s, p1, p2);
    } else {
      DisabledBytes(c, a, n - 1, s, p1, p2);
      NextRowBytes(c, a, n - 1, false, s, p1, p2);
    }
  }

  lemma NoPidBytes(c: Config, s: MainState, p1: MainState, p2: MainState)
    requires c.Valid() && !Test(c, Pid)
    ensures PidBytes(c, s, p1, p2) == []
  {
    assert PutPart(c, GroupI(), false, s, p1, p2) == [] by { NoIntegrals(c, s, p1, p2); }
    PidRowConditions();
    forall i: nat | i < 3
      ensures !Test(c, Row(AxesD, i).condition) && !Test(c, Row(AxesS, i).condition)
    {
      AxisRows(c, i);
    }
    hide RowsBytes, Rows, Test, Row, PutPart;
    DisabledBytes(c, AxesP, 3, s, p1, p2);
    DisabledBytes(c, AxesD, 3, s, p1, p2);
    DisabledBytes(c, AxesF, 3, s, p1, p2);
    DisabledBytes(c, AxesS, 3, s, p1, p2);
    RowsBytesAppend(c, Rows(AxesF, 3), Rows(AxesS, 3), false, s, p1, p2);
    RowsBytesAppend(c, Rows(AxesD, 3), Rows(AxesF, 3) + Rows(AxesS, 3), false, s, p1, p2);
  }

  lemma PidRowConditions()
    ensures forall i: nat :: Row(AxesP, i).condition == Row(AxesF, i).condition == Pid
  {
  }

  lemma NoIntegrals(c: Config, s: MainState, p1: MainState, p2: MainState)
    requires !Test(c, Pid)
    ensures PutPart(c, GroupI(), false, s, p1, p2) == []
  {
    hide Test, Rows, Select;
    GroupCounts(c, false);
    OneConditions();
    ArrayCount(c, AxesI, 3, false, Pid);
  }

  method WritePidDeltas(out: LogStream, c: Config, s: MainState, p1: MainState, ghost p2: MainState)
    requires c.Valid() && s.Valid() && p1.Valid()
    modifies out
    ensures out.written == old(out.written) + PidBytes(c, s, p1, p2)
  {
    hide RowsBytes, PutPart, Rows, RestOfPid, GroupI;
    ghost var start := out.written;
    if Test(c, Pid) {
      WriteProportionals(out, c, s, p1, p2);
      WriteIntegrals(out, c, s, p1, p2);
      WriteRestOfPid(out, c, s, p1, p2);
      Regroup(start + RowsBytes(c, Rows(AxesP, 3), false, s, p1, p2), PutPart(c, GroupI(), false, s, p1, p2),
              RowsBytes(c, RestOfPid(), false, s, p1, p2));
      Regroup(start, RowsBytes(c, Rows(AxesP, 3), false, s, p1, p2),
              PutPart(c, GroupI(), false, s, p1, p2) + RowsBytes(c, RestOfPid(), false, s, p1, p2));
    } else {
      NoPidBytes(c, s, p1, p2);
    }
  }

  // ---------------------------------------------------------------- sticks and sensors

  function StickPart(): Part { Part(Rows(RcCommands4, 4), Null, Tag8Of4) }

  function SetpointPart(): Part { Part(Rows(Setpoint4, 4), Null, Tag8Of4) }

  method WriteStickDeltas(out: LogStream, c: Config, s: MainState, p1: MainState, ghost p2: MainState)
    requires s.Valid() && p1.Valid()
    modifies out
    ensures out.written == old(out.written) + PutPart(c, StickPart(), false, s, p1, p2)
            + PutPart(c, SetpointPart(), false, s, p1, p2)
  {
    hide Tag8_4S16, PutPart, WrittenFrom, OneCondition, Rows;
    OneConditions();
    var deltas := Deltas(c, RcCommands4, 4, s, p1, p2);
    var setpointDeltas := Deltas(c, Setpoint4, 4, s, p1, p2);
    SmallGroup(c, RcCommands4, 4, Tag8Of4, RcCommands, s, p1, p2, deltas);
    SmallGroup(c, Setpoint4, 4, Tag8Of4, SetpointOn, s, p1, p2, setpointDeltas);
    if Test(c, RcCommands) {
      out.WriteTag8_4S16(deltas);
    }
    if Test(c, SetpointOn) {
      out.WriteTag8_4S16(setpointDeltas);
    }
  }

  /** One more optional field goes into the array of deltas. */
  method AddField(c: Config, cond: Condition, delta: bv32, deltas: seq<bv32>, ghost d: FieldDef, ghost s: MainState,
                  ghost p1: MainState, ghost p2: MainState, ghost rows: seq<FieldDef>) returns (next: seq<bv32>)
    requires cond == d.condition && delta == Residual(c, ItemOf(d, false), s, p1, p2)
    requires deltas == RowsResiduals(c, rows, false, s, p1, p2)
    ensures next == RowsResiduals(c, rows + [d], false, s, p1, p2)
  {
    hide Test, RowsResiduals, Residual;
    MoreResiduals(c, rows, d, false, s, p1, p2);
    next := if Test(c, cond) then deltas + [delta] else deltas;
  }

  lemma FieldDelta(c: Config, d: FieldDef, s: MainState, p1: MainState, p2: MainState)
    requires d.pPredict == Previous && d.pEncode == Tag8Svb
    ensures Residual(c, ItemOf(d, false), s, p1, p2) == Minus(At(s, d.slot), At(p1, d.slot))
  {
    hide Minus, At, LowBits14;
  }

  lemma SensorsAt(s: MainState)
    ensures At(s, Vbat) == s.vbatLatest && At(s, Amperage) == s.amperageLatest && At(s, BaroAlt) == s.baroAlt
    ensures At(s, SurfaceRaw) == s.surfaceRaw && At(s, Rssi) == s.rssi
  {
  }

  lemma ResidualsOfAll(c: Config, a: seq<FieldDef>, b: seq<FieldDef>, s: MainState, p1: MainState, p2: MainState)
    ensures RowsResiduals(c, a + b, false, s, p1, p2)
            == RowsResiduals(c, a, false, s, p1, p2) + RowsResiduals(c, b, false, s, p1, p2)
  {
    hide Select, Residuals;
    SelectAppend(c, a, b, false);
    ResidualsOfBoth(c, Select(c, a, false), Select(c, b, false), s, p1, p2);
  }

  method AddCompass(c: Config, deltas: seq<bv32>, s: MainState, p1: MainState, ghost p2: MainState,
                    ghost rows: seq<FieldDef>)
    returns (next: seq<bv32>)
    requires s.Valid() && p1.Valid() && deltas == RowsResiduals(c, rows, false, s, p1, p2)
    ensures next == RowsResiduals(c, rows + Rows(Mag3, 3), false, s, p1, p2)
  {
    hide RowsResiduals, Rows, Test, WrittenFrom, OneCondition, Minus;
    OneConditions();
    var mags := Deltas(c, Mag3, 3, s, p1, p2);
    ArrayResiduals(c, Mag3, 3, false, Mag, s, p1, p2, mags);
    assert mags[..3] == mags && deltas + [] == deltas;
    ResidualsOfAll(c, rows, Rows(Mag3, 3), s, p1, p2);
    next := if Test(c, Mag) then deltas + mags else deltas;
  }

  function SensorPart(): Part { Part(Optional(), Null, Tag8Svb) }

  method SensorGroup(c: Config, s: MainState, p1: MainState, ghost p2: MainState) returns (deltas: seq<bv32>)
    requires s.Valid() && p1.Valid()
    ensures deltas == RowsResiduals(c, AfterOptional([]), false, s, p1, p2)
  {
    hide RowsResiduals, Rows, Test, Residual, Minus;
    deltas := AddBattery(c, s, p1, p2);
    deltas := AddCompass(c, deltas, s, p1, p2, [] + [VBAT] + [AMPERAGE]);
    deltas := AddRanges(c, deltas, s, p1, p2, [] + [VBAT] + [AMPERAGE] + Rows(Mag3, 3));
  }

  method AddBattery(c: Config, s: MainState, p1: MainState, ghost p2: MainState) returns (deltas: seq<bv32>)
    ensures deltas == RowsResiduals(c, [] + [VBAT] + [AMPERAGE], false, s, p1, p2)
  {
    hide RowsResiduals, Residual, Minus, Test, At;
    NoResiduals(c, false, s, p1, p2);
    SensorsAt(s);
    SensorsAt(p1);
    FieldDelta(c, VBAT, s, p1, p2);
    FieldDelta(c, AMPERAGE, s, p1, p2);
    deltas := [];
    deltas := AddField(c, VbatOn, Minus(s.vbatLatest, p1.vbatLatest), deltas, VBAT, s, p1, p2, []);
    deltas := AddField(c, AmperageAdc, Minus(s.amperageLatest, p1.amperageLatest), deltas, AMPERAGE, s, p1, p2,
                       [] + [VBAT]);
  }

  method AddRanges(c: Config, start: seq<bv32>, s: MainState, p1: MainState, ghost p2: MainState,
                   ghost rows: seq<FieldDef>)
    returns (deltas: seq<bv32>)
    requires start == RowsResiduals(c, rows, false, s, p1, p2)
    ensures deltas == RowsResiduals(c, rows + [BARO_ALT] + [SURFACE_RAW] + [RSSI], false, s, p1, p2)
  {
    hide RowsResiduals, Residual, Minus, Test, At;
    SensorsAt(s);
    SensorsAt(p1);
    FieldDelta(c, BARO_ALT, s, p1, p2);
    FieldDelta(c, SURFACE_RAW, s, p1, p2);
    FieldDelta(c, RSSI, s, p1, p2);
    deltas := start;
    deltas := AddField(c, Baro, Minus(s.baroAlt, p1.baroAlt), deltas, BARO_ALT, s, p1, p2, rows);
    deltas := AddField(c, Rangefinder, Minus(s.surfaceRaw, p1.surfaceRaw), deltas, SURFACE_RAW, s, p1, p2,
                       rows + [BARO_ALT]);
    deltas := AddField(c, RssiOn, Minus(s.rssi, p1.rssi), deltas, RSSI, s, p1, p2, rows + [BARO_ALT] + [SURFACE_RAW]);
  }

  method WriteSensorDeltas(out: LogStream, c: Config, s: MainState, p1: MainState, ghost p2: MainState)
    requires s.Valid() && p1.Valid()
    modifies out
    ensures out.written == old(out.written) + PutPart(c, SensorPart(), false, s, p1, p2)
  {
    hide PutPart, RowsResiduals, Tag8_8SVB, AfterOptional, Optional;
    var deltas := SensorGroup(c, s, p1, p2);
    OptionalRows([]);
    assert [] + Optional() == Optional();
    SensorBytes(c, s, p1, p2);
    out.WriteTag8_8SVB(deltas);
  }

  lemma SensorBytes(c: Config, s: MainState, p1: MainState, p2: MainState)
    ensures PutPart(c, SensorPart(), false, s, p1, p2) == Tag8_8SVB(RowsResiduals(c, Optional(), false, s, p1, p2))
  {
    hide Tag8_8SVB, Select, Residuals, Optional, OptionalCount;
    OptionalGroup(c, false);
  }

  // ---------------------------------------------------------------- noisy fields and motors

  /** The first `n` differences to the average of the last two states. */
  function AverageDeltas(cur: seq<bv32>, prev1: seq<bv32>, prev2: seq<bv32>, n: nat): (r: seq<bv32>)
    requires n <= |cur| && n <= |prev1| && n <= |prev2|
    ensures |r| == n
  {
    if n == 0 then []
    else AverageDeltas(cur, prev1, prev2, n - 1) + [Minus(cur[n - 1], HalfSum(prev1[n - 1], prev2[n - 1]))]
  }

  lemma {:induction false} AverageAt(cur: seq<bv32>, prev1: seq<bv32>, prev2: seq<bv32>, n: nat, i: nat)
    requires i < n <= |cur| && n <= |prev1| && n <= |prev2|
    ensures AverageDeltas(cur, prev1, prev2, n)[i] == Minus(cur[i], HalfSum(prev1[i], prev2[i]))
  {
    hide Minus, HalfSum;
    if i < n - 1 { AverageAt(cur, prev1, prev2, n - 1, i); }
  }

  lemma NextAverage(cur: seq<bv32>, prev1: seq<bv32>, prev2: seq<bv32>, n: nat)
    requires n < |cur| && n < |prev1| && n < |prev2|
    ensures SignedVBs(AverageDeltas(cur, prev1, prev2, n + 1))
         == SignedVBs(AverageDeltas(cur, prev1, prev2, n)) + SignedVB(Minus(cur[n], HalfSum(prev1[n], prev2[n])))
  {
    hide Minus, HalfSum, SignedVB, SignedVBs;
    var all := AverageDeltas(cur, prev1, prev2, n + 1);
    assert all[..n] == AverageDeltas(cur, prev1, prev2, n) && all[..n + 1] == all;
    NextSignedVB(all, n + 1);
  }

  /** `blackboxWriteMainStateArrayUsingAveragePredictor` */
  method WriteUsingAverage(out: LogStream, curr: seq<bv32>, prev1: seq<bv32>, prev2: seq<bv32>, count: nat)
    requires count <= |curr| && count <= |prev1| && count <= |prev2|
    modifies out
    ensures out.written == old(out.written) + SignedVBs(AverageDeltas(curr, prev1, prev2, count))
  {
    assert SignedVBs(AverageDeltas(curr, prev1, prev2, 0)) == [];
    hide Minus, HalfSum, SignedVB, SignedVBs, AverageDeltas;
    for i := 0 to count
      invariant out.written == old(out.written) + SignedVBs(AverageDeltas(curr, prev1, prev2, i))
    {
      var predictor := HalfSum(prev1[i], prev2[i]);
      out.WriteSignedVB(Minus(curr[i], predictor));
      NextAverage(curr, prev1, prev2, i);
    }
  }

  lemma AverageWritten(c: Config, a: Array, n: nat, s: MainState, p1: MainState, p2: MainState)
    requires FromTwo(a) && n <= |ValuesOf(s, a)| && n <= |ValuesOf(p1, a)| && n <= |ValuesOf(p2, a)|
    ensures WrittenFrom(c, a, n, false, s, p1, p2, AverageDeltas(ValuesOf(s, a), ValuesOf(p1, a), ValuesOf(p2, a), n))
  {
    hide Minus, HalfSum, Residual, ValuesOf, Row, AverageDeltas, FromTwo;
    forall i: nat | i < n
      ensures Residual(c, ItemOf(Row(a, i), false), s, p1, p2)
              == AverageDeltas(ValuesOf(s, a), ValuesOf(p1, a), ValuesOf(p2, a), n)[i]
    {
      TwoResidual(c, a, i, s, p1, p2);
      AverageAt(ValuesOf(s, a), ValuesOf(p1, a), ValuesOf(p2, a), n, i);
    }
  }

  /** A noisy array, when its condition holds. */
  method WriteNoisyArray(out: LogStream, c: Config, cond: Condition, a: Array, n: nat, s: MainState, p1: MainState,
                         p2: MainState, ghost start: Bytes, ghost rows: seq<FieldDef>)
    requires FromTwo(a) && |ValuesOf(s, a)| == |ValuesOf(p1, a)| == |ValuesOf(p2, a)| == n
    requires OneCondition(a, cond) && AllSigned(a, false) && Sent(out.written, start, c, rows, false, s, p1, p2)
    modifies out
    ensures Sent(out.written, start, c, rows + Rows(a, n), false, s, p1, p2)
  {
    hide Sent, RowsBytes, Rows, Test, OneCondition, AllSigned, WrittenFrom, ValuesOf, FromTwo, SignedVBs, AverageDeltas;
    ghost var before, deltas := out.written, AverageDeltas(ValuesOf(s, a), ValuesOf(p1, a), ValuesOf(p2, a), n);
    AverageWritten(c, a, n, s, p1, p2);
    ArrayBytes(c, a, n, false, cond, s, p1, p2, deltas);
    assert deltas[..n] == deltas;
    if Test(c, cond) {
      WriteUsingAverage(out, ValuesOf(s, a), ValuesOf(p1, a), ValuesOf(p2, a), n);
      SentMore(before, SignedVBs(deltas), start, c, rows, Rows(a, n), false, s, p1, p2);
    } else {
      SentNothing(before, start, c, rows, Rows(a, n), false, s, p1, p2);
    }
  }

  method WriteNoisyDeltas(out: LogStream, c: Config, s: MainState, p1: MainState, p2: MainState)
    requires s.Valid() && p1.Valid() && p2.Valid()
    modifies out
    ensures out.written == old(out.written) + RowsBytes(c, Noisy(), false, s, p1, p2)
  {
    hide Sent, Row, Rows, RowsBytes, AllSigned, OneCondition, Test, Noisy;
    SignedDeltas();
    OneConditions();
    ghost var start := out.written;
    NothingSent(start, c, s, p1, p2);
    WriteNoisyArray(out, c, Gyro, Gyro3, 3, s, p1, p2, start, []);
    WriteNoisyArray(out, c, GyroUnfiltOn, GyroUnfilt3, 3, s, p1, p2, start, [] + Rows(Gyro3, 3));
    WriteNoisyArray(out, c, Acc, Acc3, 3, s, p1, p2, start, [] + Rows(Gyro3, 3) + Rows(GyroUnfilt3, 3));
    WriteNoisyArray(out, c, Attitude, Quaternion3, 3, s, p1, p2, start,
                    [] + Rows(Gyro3, 3) + Rows(GyroUnfilt3, 3) + Rows(Acc3, 3));
    WriteNoisyArray(out, c, DebugLog, Debug8, 8, s, p1, p2, start,
                    [] + Rows(Gyro3, 3) + Rows(GyroUnfilt3, 3) + Rows(Acc3, 3) + Rows(Quaternion3, 3));
    assert AfterNoisy([]) == [] + Rows(Gyro3, 3) + Rows(GyroUnfilt3, 3) + Rows(Acc3, 3) + Rows(Quaternion3, 3)
           + Rows(Debug8, 8);
    NoisyRows([]);
    SentAll(out.written, start, c, Noisy(), false, s, p1, p2);
  }

  function MotorRowsBytes(c: Config, s: MainState, p1: MainState, p2: MainState, n: nat): Bytes {
    RowsBytes(c, Rows(FirstMotor, 1), false, s, p1, p2) + RowsBytes(c, Rows(OtherMotors, n), false, s, p1, p2)
  }

  function Least(a: nat, b: nat): nat { if a < b then a else b }

  lemma MotorRowFacts(i: nat)
    ensures Row(OtherMotors, i).condition == AtLeastMotors(i + 2) && Row(OtherMotors, i).pEncode == SignedVb
    ensures Row(FirstMotor, 0).condition == AtLeastMotors(1) && Row(FirstMotor, 0).pEncode == SignedVb
  {
  }

  lemma NextMotor(c: Config, s: MainState, p1: MainState, p2: MainState, n: nat)
    requires s.Valid() && p1.Valid() && p2.Valid() && 0 < n <= 7
    ensures RowsBytes(c, Rows(OtherMotors, n), false, s, p1, p2)
         == RowsBytes(c, Rows(OtherMotors, n - 1), false, s, p1, p2)
            + (if c.motorEnabled && c.motorCount >= n + 1
               then SignedVB(Minus(s.motor[n], HalfSum(p1.motor[n], p2.motor[n]))) else [])
  {
    hide Minus, HalfSum, SignedVB, RowsBytes, Residual, Rows, Row;
    NextRowBytes(c, OtherMotors, n - 1, false, s, p1, p2);
    MotorRowFacts(n - 1);
    MotorResidual(c, n, s, p1, p2);
  }

  lemma OneMotor(c: Config, s: MainState, p1: MainState, p2: MainState)
    requires s.Valid() && p1.Valid() && p2.Valid()
    ensures RowsBytes(c, Rows(FirstMotor, 1), false, s, p1, p2)
         == if c.motorEnabled && c.motorCount >= 1 then SignedVB(Minus(s.motor[0], HalfSum(p1.motor[0], p2.motor[0])))
            else []
  {
    hide Minus, HalfSum, SignedVB, RowsBytes, Residual, Rows, Row;
    MotorOne();
    RowsBytesOne(c, Row(FirstMotor, 0), false, s, p1, p2);
    MotorRowFacts(0);
    MotorResidual(c, 0, s, p1, p2);
  }

  lemma FirstMotorDelta(c: Config, s: MainState, p1: MainState, p2: MainState)
    requires c.Valid() && s.Valid() && p1.Valid() && p2.Valid()
    ensures MotorRowsBytes(c, s, p1, p2, 0)
         == if c.motorEnabled then SignedVBs(AverageDeltas(s.motor, p1.motor, p2.motor, Least(1, c.motorCount))) else []
  {
    hide Minus, HalfSum, SignedVB, SignedVBs, AverageDeltas, RowsBytes, Rows;
    OneMotor(c, s, p1, p2);
    NoRows(OtherMotors);
    NoRowsBytes(c, false, s, p1, p2);
    NoAverages(s.motor, p1.motor, p2.motor);
    NextAverage(s.motor, p1.motor, p2.motor, 0);
  }

  lemma MoreMotorRows(c: Config, s: MainState, p1: MainState, p2: MainState, n: nat)
    requires s.Valid() && p1.Valid() && p2.Valid() && 0 < n <= 7
    ensures MotorRowsBytes(c, s, p1, p2, n)
         == MotorRowsBytes(c, s, p1, p2, n - 1)
            + (if c.motorEnabled && c.motorCount >= n + 1
               then SignedVB(Minus(s.motor[n], HalfSum(p1.motor[n], p2.motor[n]))) else [])
  {
    hide Minus, HalfSum, SignedVB, RowsBytes, Rows;
    NextMotor(c, s, p1, p2, n);
  }

  lemma {:induction false} MotorDeltas(c: Config, s: MainState, p1: MainState, p2: MainState, n: nat)
    requires c.Valid() && s.Valid() && p1.Valid() && p2.Valid() && n <= 7
    ensures MotorRowsBytes(c, s, p1, p2, n)
         == if c.motorEnabled then SignedVBs(AverageDeltas(s.motor, p1.motor, p2.motor, Least(n + 1, c.motorCount)))
            else []
  {
    hide Minus, HalfSum, SignedVB, SignedVBs, AverageDeltas, MotorRowsBytes;
    if n == 0 {
      FirstMotorDelta(c, s, p1, p2);
    } else {
      MotorDeltas(c, s, p1, p2, n - 1);
      MoreMotorRows(c, s, p1, p2, n);
      NextAverage(s.motor, p1.motor, p2.motor, n);
    }
  }

  lemma NoAverages(cur: seq<bv32>, prev1: seq<bv32>, prev2: seq<bv32>)
    ensures SignedVBs(AverageDeltas(cur, prev1, prev2, 0)) == []
  {
  }

  method WriteMotorDeltas(out: LogStream, c: Config, s: MainState, p1: MainState, p2: MainState)
    requires c.Valid() && s.Valid() && p1.Valid() && p2.Valid()
    modifies out
    ensures out.written == old(out.written) + MotorRowsBytes(c, s, p1, p2, 7)
  {
    hide MotorRowsBytes, SignedVBs, AverageDeltas;
    MotorDeltas(c, s, p1, p2, 7);
    if c.motorEnabled {
      WriteUsingAverage(out, s.motor, p1.motor, p2.motor, c.motorCount);
    }
  }

  // ---------------------------------------------------------------- servos and speeds

  method WriteServoDeltas(out: LogStream, c: Config, s: MainState, p1: MainState, ghost p2: MainState)
    requires s.Valid() && p1.Valid()
    modifies out
    ensures out.written == old(out.written) + PutPart(c, LastParts().part, false, s, p1, p2)
  {
    hide PutPart, Tag8_8SVB, LastParts, WrittenFrom;
    var deltas := Deltas(c, Servo8, 8, s, p1, p2);
    ServoGroup(c, false, s, p1, p2, deltas);
    if Test(c, Servos) {
      out.WriteTag8_8SVB(deltas);
    }
  }

  method WriteErpmDeltas(out: LogStream, c: Config, s: MainState, p1: MainState, ghost p2: MainState)
    requires c.Valid() && s.Valid() && p1.Valid()
    modifies out
    ensures out.written == old(out.written) + RowsBytes(c, Rows(Erpm8, 8), false, s, p1, p2)
  {
    hide Sent, Row, Rows, RowsBytes, SignedVB, Residual, Minus;
    ghost var start := out.written;
    NoRows(Erpm8);
    NoRowsBytes(c, false, s, p1, p2);
    SentStart(start, c, Rows(Erpm8, 0), false, s, p1, p2);
    if c.rpmEnabled {
      for x := 0 to c.motorCount
        invariant Sent(out.written, start, c, [] + Rows(Erpm8, x), false, s, p1, p2)
      {
        ErpmRow(x);
        LastResidual(c, Erpm8, x, s, p1, p2);
        SentRow(out.written, start, c, [], Erpm8, x, false, s, p1, p2);
        if Test(c, MotorHasRpm(x + 1)) {
          out.WriteSignedVB(Minus(s.erpm[x], p1.erpm[x]));
        }
      }
      SentLater(out.written, start, c, c.motorCount, false, s, p1, p2);
    } else {
      SentLater(out.written, start, c, 0, false, s, p1, p2);
    }
    SentAll(out.written, start, c, Rows(Erpm8, 8), false, s, p1, p2);
  }

  // ---------------------------------------------------------------- all of it

  lemma PlainPartBytes(c: Config, rows: seq<FieldDef>, s: MainState, p1: MainState, p2: MainState)
    ensures PutPart(c, Part(rows, Null, Null), false, s, p1, p2) == RowsBytes(c, rows, false, s, p1, p2)
  {
  }

  lemma PartsStep(c: Config, parts: Parts, s: MainState, p1: MainState, p2: MainState)
    requires parts.Next?
    ensures PutParts(c, parts, false, s, p1, p2)
            == PutPart(c, parts.part, false, s, p1, p2) + PutParts(c, parts.more, false, s, p1, p2)
  {
    hide PutPart;
  }

  /** The bytes from the motors on. */
  lemma TailBytesOf(c: Config, s: MainState, p1: MainState, p2: MainState)
    ensures PutParts(c, Tail(), false, s, p1, p2)
         == MotorRowsBytes(c, s, p1, p2, 7)
            + (PutPart(c, LastParts().part, false, s, p1, p2) + RowsBytes(c, Rows(Erpm8, 8), false, s, p1, p2))
  {
    assert PutParts(c, End, false, s, p1, p2) == [];
    hide PutPart, PutParts, RowsBytes, Rows;
    var erpm := RowsBytes(c, Rows(Erpm8, 8), false, s, p1, p2);
    PartsStep(c, Tail(), s, p1, p2);
    PartsStep(c, Tail().more, s, p1, p2);
    PartsStep(c, LastParts(), s, p1, p2);
    PartsStep(c, LastParts().more, s, p1, p2);
    PlainPartBytes(c, Rows(FirstMotor, 1), s, p1, p2);
    PlainPartBytes(c, Rows(OtherMotors, 7), s, p1, p2);
    PlainPartBytes(c, Rows(Erpm8, 8), s, p1, p2);
    assert erpm + [] == erpm;
    Regroup(RowsBytes(c, Rows(FirstMotor, 1), false, s, p1, p2), RowsBytes(c, Rows(OtherMotors, 7), false, s, p1, p2),
            PutParts(c, LastParts(), false, s, p1, p2));
  }

  /** The bytes of a whole inter frame, piece by piece. */
  lemma InterPieces(c: Config, s: MainState, p1: MainState, p2: MainState)
    ensures InterBody(c, s, p1, p2)
         == RowsBytes(c, [ITERATION, TIME], false, s, p1, p2)
            + (PidBytes(c, s, p1, p2) + (PutPart(c, StickPart(), false, s, p1, p2)
            + (PutPart(c, SetpointPart(), false, s, p1, p2) + (PutPart(c, SensorPart(), false, s, p1, p2)
            + (RowsBytes(c, Noisy(), false, s, p1, p2) + PutParts(c, Tail(), false, s, p1, p2))))))
  {
    hide PutPart, PutParts, RowsBytes, Rows, Tail, RestOfPid, Optional, Noisy;
    var l0 := Layout();
    var l3 := l0.more.more.more;
    PartsStep(c, l0, s, p1, p2);
    PartsStep(c, l0.more, s, p1, p2);
    PartsStep(c, l0.more.more, s, p1, p2);
    PartsStep(c, l3, s, p1, p2);
    PartsStep(c, l3.more, s, p1, p2);
    PartsStep(c, l3.more.more, s, p1, p2);
    PartsStep(c, l3.more.more.more, s, p1, p2);
    PlainPartBytes(c, TimeAndP(), s, p1, p2);
    PlainPartBytes(c, RestOfPid(), s, p1, p2);
    PlainPartBytes(c, Noisy(), s, p1, p2);
    RowsBytesAppend(c, [ITERATION, TIME], Rows(AxesP, 3), false, s, p1, p2);
    var time, p, i, rest :=
        RowsBytes(c, [ITERATION, TIME], false, s, p1, p2), RowsBytes(c, Rows(AxesP, 3), false, s, p1, p2),
      PutPart(c, GroupI(), false, s, p1, p2), RowsBytes(c, RestOfPid(), false, s, p1, p2);
    var later := PutParts(c, l3, false, s, p1, p2);
    Regroup(time, p, i + (rest + later));
    Regroup(i, rest, later);
    Regroup(p, i + rest, later);
  }

  /** `writeInterframe` emits the inter frame of the state, given the last two. */
  method WriteInterFields(out: LogStream, c: Config, s: MainState, p1: MainState, p2: MainState)
    requires c.Valid() && s.Valid() && p1.Valid() && p2.Valid()
    modifies out
    ensures out.written == old(out.written) + InterBody(c, s, p1, p2)
  {
    hide Sent, InterBody, PidBytes, RowsBytes, PutParts, PutPart, MotorRowsBytes, Rows, Noisy, StickPart, SetpointPart,
      SensorPart;
    ghost var start := out.written;
    WriteTimeDelta(out, c, s, p1, p2, start);
    SentIs(out.written, start, c, [ITERATION, TIME], s, p1, p2);
    WritePidDeltas(out, c, s, p1, p2);
    WriteStickDeltas(out, c, s, p1, p2);
    WriteSensorDeltas(out, c, s, p1, p2);
    WriteNoisyDeltas(out, c, s, p1, p2);
    WriteMotorDeltas(out, c, s, p1, p2);
    WriteServoDeltas(out, c, s, p1, p2);
    WriteErpmDeltas(out, c, s, p1, p2);
    InterPieces(c, s, p1, p2);
    TailBytesOf(c, s, p1, p2);
    NinePieces(start, RowsBytes(c, [ITERATION, TIME], false, s, p1, p2), PidBytes(c, s, p1, p2),
               PutPart(c, StickPart(), false, s, p1, p2), PutPart(c, SetpointPart(), false, s, p1, p2),
               PutPart(c, SensorPart(), false, s, p1, p2), RowsBytes(c, Noisy(), false, s, p1, p2),
               MotorRowsBytes(c, s, p1, p2, 7),
               PutPart(c, LastParts().part, false, s, p1, p2), RowsBytes(c, Rows(Erpm8, 8), false, s, p1, p2));
  }

  lemma SentIs(bytes: Bytes, start: Bytes, c: Config, rows: seq<FieldDef>, s: MainState, p1: MainState, p2: MainState)
    requires Sent(bytes, start, c, rows, false, s, p1, p2)
    ensures bytes == start + RowsBytes(c, rows, false, s, p1, p2)
  {
    hide RowsBytes;
  }

  lemma NinePieces(start: Bytes, a: Bytes, b: Bytes, c: Bytes, d: Bytes, e: Bytes, f: Bytes, g: Bytes, h: Bytes,
                   i: Bytes)
    ensures start + a + b + c + d + e + f + g + h + i == start + (a + (b + (c + (d + (e + (f + (g + (h + i))))))))
  {
    Regroup(start + a + b + c + d + e + f + g, h, i);
    Regroup(start + a + b + c + d + e + f, g, h + i);
    Regroup(start + a + b + c + d + e, f, g + (h + i));
    Regroup(start + a + b + c + d, e, f + (g + (h + i)));
    Regroup(start + a + b + c, d, e + (f + (g + (h + i))));
    Regroup(start + a + b, c, d + (e + (f + (g + (h + i)))));
    Regroup(start + a, b, c + (d + (e + (f + (g + (h + i))))));
    Regroup(start, a, b + (c + (d + (e + (f + (g + (h + i)))))));
  }
}
