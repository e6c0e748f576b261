/** The frame writers as the firmware runs them: one test and one call of an encoder after the other. They emit the
    frames that `BlackboxMainFrames` specifies by the field table. */
module BlackboxWriters {
  import opened Words
  import opened BlackboxEncoding
  import opened BlackboxStream
  import opened BlackboxFields
  import opened BlackboxFrames
  import opened BlackboxRoundTrip
  import opened BlackboxMainFrames
  import opened BlackboxReading

  // ---------------------------------------------------------------- the bytes of an array

  /** The member of the state behind the rows of an array. */
  function ValuesOf(s: MainState, a: Array): seq<bv32> {
    match a
    case AxesP => s.axisP
    case AxesI => s.axisI
    case AxesD => s.axisD
    case AxesF => s.axisF
    case AxesS => s.axisS
    case RcCommands4 => s.rcCommand
    case Setpoint4 => s.setpoint
    case Mag3 => s.magADC
    case Gyro3 => s.gyroADC
    case GyroUnfilt3 => s.gyroUnfilt
    case Acc3 => s.accADC
    case Quaternion3 => s.quaternion
    case Debug8 => s.debug
    case FirstMotor => s.motor
    case OtherMotors => s.motor
    case Servo8 => s.servo
    case Erpm8 => s.erpm
  }

  function SlotOf(a: Array, i: nat): Slot {
    match a
    case AxesP => AxisP(i)
    case AxesI => AxisI(i)
    case AxesD => AxisD(i)
    case AxesF => AxisF(i)
    case AxesS => AxisS(i)
    case RcCommands4 => RcCommand(i)
    case Setpoint4 => Setpoint(i)
    case Mag3 => MagAdc(i)
    case Gyro3 => GyroAdc(i)
    case GyroUnfilt3 => GyroUnfilt(i)
    case Acc3 => AccSmooth(i)
    case Quaternion3 => Quaternion(i)
    case Debug8 => Debug(i)
    case FirstMotor => Motor(0)
    case OtherMotors => Motor(i + 1)
    case Servo8 => Servo(i)
    case Erpm8 => Erpm(i)
  }

  lemma RowSlot(a: Array, i: nat)
    ensures Row(a, i).slot == SlotOf(a, i)
  {
  }

  lemma SlotValueLow(s: MainState, a: Array, i: nat)
    requires a in {AxesP, AxesI, AxesD, AxesF, AxesS, RcCommands4, Setpoint4} && i < |ValuesOf(s, a)|
    ensures At(s, SlotOf(a, i)) == ValuesOf(s, a)[i]
  {
  }

  lemma SlotValueHigh(s: MainState, a: Array, i: nat)
    requires a in {Mag3, Gyro3, GyroUnfilt3, Acc3, Quaternion3, Debug8, Servo8, Erpm8} && i < |ValuesOf(s, a)|
    ensures At(s, SlotOf(a, i)) == ValuesOf(s, a)[i]
  {
  }

  lemma SlotValue(s: MainState, a: Array, i: nat)
    requires a != FirstMotor && a != OtherMotors && i < |ValuesOf(s, a)|
    ensures At(s, SlotOf(a, i)) == ValuesOf(s, a)[i]
  {
    hide At, SlotOf, ValuesOf;
    if a in {AxesP, AxesI, AxesD, AxesF, AxesS, RcCommands4, Setpoint4} {
      SlotValueLow(s, a, i);
    } else {
      SlotValueHigh(s, a, i);
    }
  }

  lemma ValueAt(s: MainState, a: Array, i: nat)
    requires a != FirstMotor && a != OtherMotors && i < |ValuesOf(s, a)|
    ensures At(s, Row(a, i).slot) == ValuesOf(s, a)[i]
  {
    hide At, Row, SlotOf, ValuesOf;
    RowSlot(a, i);
    SlotValue(s, a, i);
  }

  /** The enabled rows, written one by one. */
  function RowsBytes(c: Config, rows: seq<FieldDef>, intra: bool, s: MainState, p1: MainState, p2: MainState): Bytes {
    Put(c, Select(c, rows, intra), s, p1, p2)
  }

  lemma RowsBytesAppend(c: Config, a: seq<FieldDef>, b: seq<FieldDef>, intra: bool, s: MainState, p1: MainState,
                        p2: MainState)
    ensures RowsBytes(c, a + b, intra, s, p1, p2)
            == RowsBytes(c, a, intra, s, p1, p2) + RowsBytes(c, b, intra, s, p1, p2)
  {
    hide Select, Put;
    SelectAppend(c, a, b, intra);
    PutAppend(c, Select(c, a, intra), Select(c, b, intra), s, p1, p2);
  }

  lemma RowsBytesOne(c: Config, d: FieldDef, intra: bool, s: MainState, p1: MainState, p2: MainState)
    ensures RowsBytes(c, [d], intra, s, p1, p2)
         == if Test(c, d.condition) then PutOne(ItemOf(d, intra).encode, Residual(c, ItemOf(d, intra), s, p1, p2))
            else []
  {
    hide Select, Put, Test, PutOne, Residual;
    PutRow(c, d, intra, s, p1, p2);
  }

  lemma NoRowsBytes(c: Config, intra: bool, s: MainState, p1: MainState, p2: MainState)
    ensures RowsBytes(c, [], intra, s, p1, p2) == []
  {
  }

  /** One more row of an array. */
  lemma NextRowBytes(c: Config, a: Array, i: nat, intra: bool, s: MainState, p1: MainState, p2: MainState)
    ensures RowsBytes(c, Rows(a, i + 1), intra, s, p1, p2)
         == RowsBytes(c, Rows(a, i), intra, s, p1, p2)
            + (if Test(c, Row(a, i).condition)
               then PutOne(ItemOf(Row(a, i), intra).encode, Residual(c, ItemOf(Row(a, i), intra), s, p1, p2)) else [])
  {
    assert Rows(a, i + 1) == Rows(a, i) + [Row(a, i)];
    hide Row, RowsBytes, Test, PutOne, Residual, Rows;
    RowsBytesAppend(c, Rows(a, i), [Row(a, i)], intra, s, p1, p2);
    RowsBytesOne(c, Row(a, i), intra, s, p1, p2);
  }

  /** What an array is written from: the values themselves, or the differences to the prediction. */
  ghost predicate WrittenFrom(c: Config, a: Array, n: nat, intra: bool, s: MainState, p1: MainState, p2: MainState,
                              values: seq<bv32>) {
    n <= |values| && forall i: nat :: i < n ==> Residual(c, ItemOf(Row(a, i), intra), s, p1, p2) == values[i]
  }

  ghost predicate AllSigned(a: Array, intra: bool) { forall i: nat :: ItemOf(Row(a, i), intra).encode == SignedVb }

  lemma ArrayFacts(c: Config, a: Array, n: nat, intra: bool, cond: Condition, s: MainState, p1: MainState,
                   p2: MainState, values: seq<bv32>)
    requires n > 0 && OneCondition(a, cond) && AllSigned(a, intra) && WrittenFrom(c, a, n, intra, s, p1, p2, values)
    ensures WrittenFrom(c, a, n - 1, intra, s, p1, p2, values) && n <= |values|
    ensures var item := ItemOf(Row(a, n - 1), intra);
      Row(a, n - 1).condition == cond && PutOne(item.encode, Residual(c, item, s, p1, p2)) == SignedVB(values[n - 1])
  {
    hide Residual, Row, SignedVB, UnsignedVB;
  }

  lemma {:induction false} ArrayBytes(c: Config, a: Array, n: nat, intra: bool, cond: Condition, s: MainState,
                                      p1: MainState, p2: MainState, values: seq<bv32>)
    requires OneCondition(a, cond) && AllSigned(a, intra) && n <= |values|
             && WrittenFrom(c, a, n, intra, s, p1, p2, values)
    ensures RowsBytes(c, Rows(a, n), intra, s, p1, p2) == if Test(c, cond) then SignedVBs(values[..n]) else []
  {
    hide Test, Residual, RowsBytes, Row, Rows, SignedVB, SignedVBs, PutOne, OneCondition, AllSigned, WrittenFrom;
    if n == 0 {
      NoRows(a);
      NoRowsBytes(c, intra, s, p1, p2);
      NoSignedVBs(values);
    } else {
      ArrayFacts(c, a, n, intra, cond, s, p1, p2, values);
      ArrayBytes(c, a, n - 1, intra, cond, s, p1, p2, values);
      NextRowBytes(c, a, n - 1, intra, s, p1, p2);
      NextSignedVB(values, n);
    }
  }

  lemma NextSignedVB(values: seq<bv32>, n: nat)
    requires 0 < n <= |values|
    ensures SignedVBs(values[..n]) == SignedVBs(values[..n - 1]) + SignedVB(values[n - 1])
  {
    hide SignedVB;
    assert values[..n][..n - 1] == values[..n - 1];
  }

  lemma NoSignedVBs(values: seq<bv32>)
    ensures SignedVBs(values[..0]) == []
  {
  }

  lemma NoRows(a: Array)
    ensures Rows(a, 0) == []
  {
  }

  lemma SignedArrays()
    ensures AllSigned(AxesP, true) && AllSigned(AxesI, true) && AllSigned(AxesF, true) && AllSigned(Setpoint4, true)
    ensures AllSigned(Mag3, true) && AllSigned(Gyro3, true) && AllSigned(GyroUnfilt3, true) && AllSigned(Acc3, true)
    ensures AllSigned(Quaternion3, true) && AllSigned(Debug8, true)
  {
  }

  lemma SignedDeltas()
    ensures AllSigned(AxesP, false) && AllSigned(AxesF, false) && AllSigned(Gyro3, false)
            && AllSigned(GyroUnfilt3, false)
    ensures AllSigned(Acc3, false) && AllSigned(Quaternion3, false) && AllSigned(Debug8, false)
  {
  }

  lemma MoreOneConditions()
    ensures OneCondition(AxesP, Pid) && OneCondition(AxesF, Pid)
  {
  }

  lemma FromZero(v: bv32)
    ensures Minus(v, 0) == v
  {
  }

  /** The arrays intra frames write as they are. */
  predicate PlainArray(a: Array) {
    a in {AxesP, AxesI, AxesD, AxesF, AxesS, RcCommands4, Setpoint4, Mag3, Gyro3, GyroUnfilt3, Acc3, Quaternion3,
          Debug8, Erpm8}
  }

  lemma PlainResidual(c: Config, a: Array, i: nat, s: MainState)
    requires PlainArray(a) && i < |ValuesOf(s, a)|
    ensures Residual(c, ItemOf(Row(a, i), true), s, s, s) == ValuesOf(s, a)[i]
  {
    ValueAt(s, a, i);
    ZeroPredicted(a, i);
    hide Row, At, ValuesOf, Minus, LowBits14;
    FromZero(At(s, Row(a, i).slot));
  }

  lemma ZeroPredicted(a: Array, i: nat)
    requires PlainArray(a)
    ensures Row(a, i).iPredict == Zero && (Row(a, i).iEncode == SignedVb || Row(a, i).iEncode == UnsignedVb)
  {
  }

  lemma PlainValues(c: Config, a: Array, s: MainState)
    requires PlainArray(a)
    ensures WrittenFrom(c, a, |ValuesOf(s, a)|, true, s, s, s, ValuesOf(s, a))
  {
    hide Residual, Row, ValuesOf, PlainArray;
    forall i: nat | i < |ValuesOf(s, a)| ensures Residual(c, ItemOf(Row(a, i), true), s, s, s) == ValuesOf(s, a)[i] {
      PlainResidual(c, a, i, s);
    }
  }

  /** A whole array, or nothing. */
  lemma PlainBytes(c: Config, a: Array, cond: Condition, s: MainState)
    requires PlainArray(a) && OneCondition(a, cond) && AllSigned(a, true)
    ensures RowsBytes(c, Rows(a, |ValuesOf(s, a)|), true, s, s, s)
            == if Test(c, cond) then SignedVBs(ValuesOf(s, a)) else []
  {
    hide RowsBytes, Rows, Row, Test, SignedVBs, WrittenFrom, OneCondition, AllSigned, PlainArray, ValuesOf;
    PlainValues(c, a, s);
    ArrayBytes(c, a, |ValuesOf(s, a)|, true, cond, s, s, s, ValuesOf(s, a));
    assert ValuesOf(s, a)[..|ValuesOf(s, a)|] == ValuesOf(s, a);
  }

  // ---------------------------------------------------------------- one more piece of a frame

  /** `bytes` is `start` and then the enabled ones of these rows. */
  predicate Sent(bytes: Bytes, start: Bytes, c: Config, rows: seq<FieldDef>, intra: bool, s: MainState, p1: MainState,
                 p2: MainState) {
    bytes == start + RowsBytes(c, rows, intra, s, p1, p2)
  }

  lemma SentMore(bytes: Bytes, more: Bytes, start: Bytes, c: Config, rows: seq<FieldDef>, next: seq<FieldDef>,
                 intra: bool, s: MainState, p1: MainState, p2: MainState)
    requires Sent(bytes, start, c, rows, intra, s, p1, p2) && more == RowsBytes(c, next, intra, s, p1, p2)
    ensures Sent(bytes + more, start, c, rows + next, intra, s, p1, p2)
  {
    hide RowsBytes;
    RowsBytesAppend(c, rows, next, intra, s, p1, p2);
    Regroup(start, RowsBytes(c, rows, intra, s, p1, p2), more);
  }

  lemma SentNothing(bytes: Bytes, start: Bytes, c: Config, rows: seq<FieldDef>, next: seq<FieldDef>, intra: bool,
                    s: MainState, p1: MainState, p2: MainState)
    requires Sent(bytes, start, c, rows, intra, s, p1, p2) && RowsBytes(c, next, intra, s, p1, p2) == []
    ensures Sent(bytes, start, c, rows + next, intra, s, p1, p2)
  {
    hide RowsBytes, Sent;
    SentMore(bytes, [], start, c, rows, next, intra, s, p1, p2);
    assert bytes + [] == bytes;
  }

  /** One field, written or not. */
  lemma SentOne(bytes: Bytes, start: Bytes, c: Config, rows: seq<FieldDef>, d: FieldDef, intra: bool,
                s: MainState, p1: MainState, p2: MainState)
    requires Sent(bytes, start, c, rows, intra, s, p1, p2)
    ensures var item := ItemOf(d, intra);
      if Test(c, d.condition) then Sent(bytes + PutOne(item.encode, Residual(c, item, s, p1, p2)), start, c, rows + [d],
                                        intra, s, p1, p2)
      else Sent(bytes, start, c, rows + [d], intra, s, p1, p2)
  {
    hide RowsBytes, Sent, Test, PutOne, Residual;
    RowsBytesOne(c, d, intra, s, p1, p2);
    if Test(c, d.condition) {
      SentMore(bytes, RowsBytes(c, [d], intra, s, p1, p2), start, c, rows, [d], intra, s, p1, p2);
    } else {
      SentNothing(bytes, start, c, rows, [d], intra, s, p1, p2);
    }
  }

  /** The next row of an array. */
  lemma SentRow(bytes: Bytes, start: Bytes, c: Config, rows: seq<FieldDef>, a: Array, i: nat, intra: bool,
                s: MainState, p1: MainState, p2: MainState)
    requires Sent(bytes, start, c, rows + Rows(a, i), intra, s, p1, p2)
    ensures var item := ItemOf(Row(a, i), intra);
      if Test(c, Row(a, i).condition)
      then Sent(bytes + PutOne(item.encode, Residual(c, item, s, p1, p2)), start, c, rows + Rows(a, i + 1), intra, s,
                p1, p2)
      else Sent(bytes, start, c, rows + Rows(a, i + 1), intra, s, p1, p2)
  {
    assert Rows(a, i + 1) == Rows(a, i) + [Row(a, i)];
    hide Row, Rows, Sent, Test, PutOne, Residual;
    SentOne(bytes, start, c, rows + Rows(a, i), Row(a, i), intra, s, p1, p2);
    Regroup(rows, Rows(a, i), [Row(a, i)]);
  }

  /** A whole array of an intra frame. */
  method WritePlainArray(out: LogStream, c: Config, a: Array, ghost cond: Condition, s: MainState, ghost start: Bytes,
                         ghost rows: seq<FieldDef>)
    requires PlainArray(a) && OneCondition(a, cond) && AllSigned(a, true) && Test(c, cond)
    requires Sent(out.written, start, c, rows, true, s, s, s)
    modifies out
    ensures Sent(out.written, start, c, rows + Rows(a, |ValuesOf(s, a)|), true, s, s, s)
  {
    hide RowsBytes, Sent, Test, OneCondition, AllSigned, PlainArray, ValuesOf, Rows, SignedVBs;
    ghost var before := out.written;
    out.WriteSignedVBArray(ValuesOf(s, a));
    PlainBytes(c, a, cond, s);
    SentMore(before, SignedVBs(ValuesOf(s, a)), start, c, rows, Rows(a, |ValuesOf(s, a)|), true, s, s, s);
  }

  lemma SkipPlainArray(bytes: Bytes, c: Config, a: Array, cond: Condition, s: MainState, start: Bytes,
                       rows: seq<FieldDef>)
    requires PlainArray(a) && OneCondition(a, cond) && AllSigned(a, true) && !Test(c, cond)
    requires Sent(bytes, start, c, rows, true, s, s, s)
    ensures Sent(bytes, start, c, rows + Rows(a, |ValuesOf(s, a)|), true, s, s, s)
  {
    hide RowsBytes, Sent, Test, OneCondition, AllSigned, PlainArray, ValuesOf, Rows, SignedVBs;
    PlainBytes(c, a, cond, s);
    SentNothing(bytes, start, c, rows, Rows(a, |ValuesOf(s, a)|), true, s, s, s);
  }

  /** An array that is written when its condition holds. */
  method WriteArrayWhen(out: LogStream, c: Config, cond: Condition, a: Array, n: nat, s: MainState, ghost start: Bytes,
                        ghost rows: seq<FieldDef>)
    requires PlainArray(a) && OneCondition(a, cond) && AllSigned(a, true) && n == |ValuesOf(s, a)|
    requires Sent(out.written, start, c, rows, true, s, s, s)
    modifies out
    ensures Sent(out.written, start, c, rows + Rows(a, n), true, s, s, s)
  {
    hide RowsBytes, Sent, OneCondition, AllSigned, PlainArray, ValuesOf, Rows;
    if Test(c, cond) {
      WritePlainArray(out, c, a, cond, s, start, rows);
    } else {
      SkipPlainArray(out.written, c, a, cond, s, start, rows);
    }
  }

  // ---------------------------------------------------------------- the intra frame

  method WriteTime(out: LogStream, c: Config, s: MainState, ghost start: Bytes)
    requires out.written == start
    modifies out
    ensures Sent(out.written, start, c, [ITERATION, TIME], true, s, s, s)
  {
    NoRowsBytes(c, true, s, s, s);
    assert Sent(start, start, c, [], true, s, s, s);
    FromZero(s.iteration);
    FromZero(s.time);
    hide Sent, UnsignedVB, Minus;
    SentOne(out.written, start, c, [], ITERATION, true, s, s, s);
    out.WriteUnsignedVB(s.iteration);
    assert [] + [ITERATION] == [ITERATION];
    SentOne(out.written, start, c, [ITERATION], TIME, true, s, s, s);
    out.WriteUnsignedVB(s.time);
    assert [ITERATION] + [TIME] == [ITERATION, TIME];
  }

  /** Rows none of which is enabled. */
  lemma {:induction false} SentDisabled(bytes: Bytes, start: Bytes, c: Config, rows: seq<FieldDef>, a: Array, n: nat,
                                        intra: bool, s: MainState, p1: MainState, p2: MainState)
    requires Sent(bytes, start, c, rows, intra, s, p1, p2) && forall i: nat :: i < n ==> !Test(c, Row(a, i).condition)
    ensures Sent(bytes, start, c, rows + Rows(a, n), intra, s, p1, p2)
  {
    hide Sent, Test, Row, Residual, PutOne;
    if n == 0 {
      assert rows + Rows(a, 0) == rows;
    } else {
      SentDisabled(bytes, start, c, rows, a, n - 1, intra, s, p1, p2);
      SentRow(bytes, start, c, rows, a, n - 1, intra, s, p1, p2);
    }
  }

  function AfterPid(rows: seq<FieldDef>): seq<FieldDef> {
    rows + Rows(AxesP, 3) + Rows(AxesI, 3) + Rows(AxesD, 3) + Rows(AxesF, 3) + Rows(AxesS, 3)
  }

  lemma AxisRows(c: Config, i: nat)
    requires c.Valid() && i < 3
    ensures Row(AxesD, i).condition == NonzeroD(i) && Row(AxesS, i).condition == WingS(i)
    ensures !Test(c, Pid) ==> !Test(c, NonzeroD(i)) && !Test(c, WingS(i))
    ensures forall intra :: ItemOf(Row(AxesD, i), intra).encode == ItemOf(Row(AxesS, i), intra).encode == SignedVb
  {
  }

  /** The terms of the axes that have a nonzero gain. */
  method WriteAxisTerms(out: LogStream, c: Config, a: Array, s: MainState, ghost start: Bytes,
                        ghost rows: seq<FieldDef>)
    requires c.Valid() && s.Valid() && a in {AxesD, AxesS}
    requires Sent(out.written, start, c, rows, true, s, s, s)
    modifies out
    ensures Sent(out.written, start, c, rows + Rows(a, 3), true, s, s, s)
  {
    hide Sent, Test, Row, RowsBytes, SignedVB, UnsignedVB, Residual;
    assert rows + Rows(a, 0) == rows;
    hide Rows;
    for x := 0 to 3
      invariant Sent(out.written, start, c, rows + Rows(a, x), true, s, s, s)
    {
      AxisRows(c, x);
      PlainResidual(c, a, x, s);
      SentRow(out.written, start, c, rows, a, x, true, s, s, s);
      if Test(c, if a == AxesD then NonzeroD(x) else WingS(x)) {
        out.WriteSignedVB(if a == AxesD then s.axisD[x] else s.axisS[x]);
      }
    }
  }

  lemma SkipPid(bytes: Bytes, c: Config, s: MainState, start: Bytes, rows: seq<FieldDef>)
    requires c.Valid() && s.Valid() && !Test(c, Pid) && Sent(bytes, start, c, rows, true, s, s, s)
    ensures Sent(bytes, start, c, AfterPid(rows), true, s, s, s)
  {
    hide Sent, Test, Row, RowsBytes, AllSigned, OneCondition, Rows;
    SignedArrays();
    OneConditions();
    MoreOneConditions();
    forall i: nat | i < 3
      ensures !Test(c, Row(AxesD, i).condition) && !Test(c, Row(AxesS, i).condition)
    {
      AxisRows(c, i);
    }
    SkipPlainArray(bytes, c, AxesP, Pid, s, start, rows);
    SkipPlainArray(bytes, c, AxesI, Pid, s, start, rows + Rows(AxesP, 3));
    SentDisabled(bytes, start, c, rows + Rows(AxesP, 3) + Rows(AxesI, 3), AxesD, 3, true, s, s, s);
    SkipPlainArray(bytes, c, AxesF, Pid, s, start, rows + Rows(AxesP, 3) + Rows(AxesI, 3) + Rows(AxesD, 3));
    SentDisabled(bytes, start, c, rows + Rows(AxesP, 3) + Rows(AxesI, 3) + Rows(AxesD, 3) + Rows(AxesF, 3), AxesS, 3,
                 true, s, s, s);
  }

  method WritePid(out: LogStream, c: Config, s: MainState, ghost start: Bytes, ghost rows: seq<FieldDef>)
    requires c.Valid() && s.Valid() && Sent(out.written, start, c, rows, true, s, s, s)
    modifies out
    ensures Sent(out.written, start, c, AfterPid(rows), true, s, s, s)
  {
    hide Sent, Row, RowsBytes, AllSigned, OneCondition, Rows;
    if Test(c, Pid) {
      SignedArrays();
      OneConditions();
      MoreOneConditions();
      WritePlainArray(out, c, AxesP, Pid, s, start, rows);
      WritePlainArray(out, c, AxesI, Pid, s, start, rows + Rows(AxesP, 3));
      WriteAxisTerms(out, c, AxesD, s, start, rows + Rows(AxesP, 3) + Rows(AxesI, 3));
      WritePlainArray(out, c, AxesF, Pid, s, start, rows + Rows(AxesP, 3) + Rows(AxesI, 3) + Rows(AxesD, 3));
      WriteAxisTerms(out, c, AxesS, s, start, rows + Rows(AxesP, 3) + Rows(AxesI, 3) + Rows(AxesD, 3) + Rows(AxesF, 3));
    } else {
      SkipPid(out.written, c, s, start, rows);
    }
  }

  lemma StickBytes(c: Config, s: MainState)
    requires s.Valid()
    ensures RowsBytes(c, Rows(RcCommands4, 4), true, s, s, s)
         == if Test(c, RcCommands) then SignedVBs(s.rcCommand[..3]) + UnsignedVB(s.rcCommand[3]) else []
  {
    hide RowsBytes, Rows, SignedVB, UnsignedVB, SignedVBs, Residual, Test;
    StickRow(c, s, 0);
    StickRow(c, s, 1);
    StickRow(c, s, 2);
    StickRow(c, s, 3);
    hide Row;
    NoRows(RcCommands4);
    NoRowsBytes(c, true, s, s, s);
    NoSignedVBs(s.rcCommand);
    NextSignedVB(s.rcCommand, 1);
    NextSignedVB(s.rcCommand, 2);
    NextSignedVB(s.rcCommand, 3);
  }

  lemma StickRow(c: Config, s: MainState, i: nat)
    requires s.Valid() && i < 4
    ensures RowsBytes(c, Rows(RcCommands4, i + 1), true, s, s, s)
         == RowsBytes(c, Rows(RcCommands4, i), true, s, s, s)
            + (if Test(c, RcCommands) then (if i == 3 then UnsignedVB(s.rcCommand[i]) else SignedVB(s.rcCommand[i]))
               else [])
  {
    hide RowsBytes, Rows, SignedVB, UnsignedVB, Residual, Test;
    NextRowBytes(c, RcCommands4, i, true, s, s, s);
    PlainResidual(c, RcCommands4, i, s);
  }

  method WriteSticks(out: LogStream, c: Config, s: MainState, ghost start: Bytes, ghost rows: seq<FieldDef>)
    requires s.Valid() && Sent(out.written, start, c, rows, true, s, s, s)
    modifies out
    ensures Sent(out.written, start, c, rows + Rows(RcCommands4, 4) + Rows(Setpoint4, 4), true, s, s, s)
  {
    hide Sent, Row, Rows, RowsBytes, AllSigned, OneCondition, SignedVBs, UnsignedVB;
    StickBytes(c, s);
    ghost var before := out.written;
    if Test(c, RcCommands) {
      out.WriteSignedVBArray(s.rcCommand[..3]);
      out.WriteUnsignedVB(s.rcCommand[3]);
      Regroup(before, SignedVBs(s.rcCommand[..3]), UnsignedVB(s.rcCommand[3]));
      SentMore(before, SignedVBs(s.rcCommand[..3]) + UnsignedVB(s.rcCommand[3]), start, c, rows, Rows(RcCommands4, 4),
               true, s, s, s);
    } else {
      SentNothing(before, start, c, rows, Rows(RcCommands4, 4), true, s, s, s);
    }
    SignedArrays();
    OneConditions();
    WriteArrayWhen(out, c, SetpointOn, Setpoint4, 4, s, start, rows + Rows(RcCommands4, 4));
  }

  function AfterOptional(rows: seq<FieldDef>): seq<FieldDef> {
    rows + [VBAT] + [AMPERAGE] + Rows(Mag3, 3) + [BARO_ALT] + [SURFACE_RAW] + [RSSI]
  }

  /** A field that intra frames write as it is. */
  lemma PlainField(c: Config, d: FieldDef, s: MainState)
    requires d.iPredict == Zero && d.iEncode != Neg14Bit
    ensures Residual(c, ItemOf(d, true), s, s, s) == At(s, d.slot)
  {
    hide Minus, LowBits14, At;
    FromZero(At(s, d.slot));
  }

  lemma VoltageField(c: Config, s: MainState)
    ensures Residual(c, ItemOf(VBAT, true), s, s, s) == LowBits14(Minus(c.vbatReference, s.vbatLatest))
  {
    hide Minus, LowBits14;
  }

  /** A single field that is written when its condition holds. */
  method WriteFieldWhen(out: LogStream, c: Config, cond: Condition, unsigned: bool, value: bv32, ghost d: FieldDef,
                        ghost s: MainState, ghost start: Bytes, ghost rows: seq<FieldDef>)
    requires cond == d.condition && value == Residual(c, ItemOf(d, true), s, s, s)
    requires if unsigned then d.iEncode in {UnsignedVb, Neg14Bit} else d.iEncode == SignedVb
    requires Sent(out.written, start, c, rows, true, s, s, s)
    modifies out
    ensures Sent(out.written, start, c, rows + [d], true, s, s, s)
  {
    hide Sent, RowsBytes, UnsignedVB, SignedVB, Residual, Test;
    SentOne(out.written, start, c, rows, d, true, s, s, s);
    if Test(c, cond) {
      if unsigned {
        out.WriteUnsignedVB(value);
      } else {
        out.WriteSignedVB(value);
      }
    }
  }

  method WriteBattery(out: LogStream, c: Config, s: MainState, ghost start: Bytes, ghost rows: seq<FieldDef>)
    requires Sent(out.written, start, c, rows, true, s, s, s)
    modifies out
    ensures Sent(out.written, start, c, rows + [VBAT] + [AMPERAGE], true, s, s, s)
  {
    hide Sent, RowsBytes, Residual, LowBits14, Minus;
    VoltageField(c, s);
    PlainField(c, AMPERAGE, s);
    WriteFieldWhen(out, c, VbatOn, true, LowBits14(Minus(c.vbatReference, s.vbatLatest)), VBAT, s, start, rows);
    WriteFieldWhen(out, c, AmperageAdc, false, s.amperageLatest, AMPERAGE, s, start, rows + [VBAT]);
  }

  lemma RangeFields(c: Config, s: MainState)
    ensures Residual(c, ItemOf(BARO_ALT, true), s, s, s) == s.baroAlt
    ensures Residual(c, ItemOf(SURFACE_RAW, true), s, s, s) == s.surfaceRaw
    ensures Residual(c, ItemOf(RSSI, true), s, s, s) == s.rssi
  {
    hide Residual;
    PlainField(c, BARO_ALT, s);
    PlainField(c, SURFACE_RAW, s);
    PlainField(c, RSSI, s);
  }

  method WriteRanges(out: LogStream, c: Config, s: MainState, ghost start: Bytes, ghost rows: seq<FieldDef>)
    requires Sent(out.written, start, c, rows, true, s, s, s)
    modifies out
    ensures Sent(out.written, start, c, rows + [BARO_ALT] + [SURFACE_RAW] + [RSSI], true, s, s, s)
  {
    hide Sent, RowsBytes, Residual;
    RangeFields(c, s);
    WriteFieldWhen(out, c, Baro, false, s.baroAlt, BARO_ALT, s, start, rows);
    WriteFieldWhen(out, c, Rangefinder, false, s.surfaceRaw, SURFACE_RAW, s, start, rows + [BARO_ALT]);
    WriteFieldWhen(out, c, RssiOn, true, s.rssi, RSSI, s, start, rows + [BARO_ALT] + [SURFACE_RAW]);
  }

  method WriteSensors(out: LogStream, c: Config, s: MainState, ghost start: Bytes, ghost rows: seq<FieldDef>)
    requires s.Valid() && Sent(out.written, start, c, rows, true, s, s, s)
    modifies out
    ensures Sent(out.written, start, c, AfterOptional(rows), true, s, s, s)
  {
    hide Sent, Row, Rows, RowsBytes, AllSigned, OneCondition, Test;
    SignedArrays();
    OneConditions();
    WriteBattery(out, c, s, start, rows);
    WriteArrayWhen(out, c, Mag, Mag3, 3, s, start, rows + [VBAT] + [AMPERAGE]);
    WriteRanges(out, c, s, start, rows + [VBAT] + [AMPERAGE] + Rows(Mag3, 3));
  }

  function AfterNoisy(rows: seq<FieldDef>): seq<FieldDef> {
    rows + Rows(Gyro3, 3) + Rows(GyroUnfilt3, 3) + Rows(Acc3, 3) + Rows(Quaternion3, 3) + Rows(Debug8, 8)
  }

  method WriteNoisy(out: LogStream, c: Config, s: MainState, ghost start: Bytes, ghost rows: seq<FieldDef>)
    requires s.Valid() && Sent(out.written, start, c, rows, true, s, s, s)
    modifies out
    ensures Sent(out.written, start, c, AfterNoisy(rows), true, s, s, s)
  {
    hide Sent, Row, Rows, RowsBytes, AllSigned, OneCondition, Test;
    SignedArrays();
    OneConditions();
    WriteArrayWhen(out, c, Gyro, Gyro3, 3, s, start, rows);
    WriteArrayWhen(out, c, GyroUnfiltOn, GyroUnfilt3, 3, s, start, rows + Rows(Gyro3, 3));
    WriteArrayWhen(out, c, Acc, Acc3, 3, s, start, rows + Rows(Gyro3, 3) + Rows(GyroUnfilt3, 3));
    WriteArrayWhen(out, c, Attitude, Quaternion3, 3, s, start,
                   rows + Rows(Gyro3, 3) + Rows(GyroUnfilt3, 3) + Rows(Acc3, 3));
    WriteArrayWhen(out, c, DebugLog, Debug8, 8, s, start,
                   rows + Rows(Gyro3, 3) + Rows(GyroUnfilt3, 3) + Rows(Acc3, 3) + Rows(Quaternion3, 3));
  }

  method WriteMotors(out: LogStream, c: Config, s: MainState)
    requires c.Valid() && s.Valid()
    modifies out
    ensures out.written == old(out.written) + IntraMotors(c, s)
  {
    hide At, UnsignedVB, Minus, OtherMotorsVB;
    if c.motorEnabled {
      MotorAt(s, 0);
      out.WriteUnsignedVB(Minus(s.motor[0], c.motorLow));
      WriteOtherMotors(out, s, c.motorCount);
    }
  }

  method WriteOtherMotors(out: LogStream, s: MainState, motorCount: nat)
    requires s.Valid() && motorCount <= 8
    modifies out
    ensures out.written == old(out.written) + OtherMotorsVB(s, motorCount)
  {
    hide At, SignedVB, Minus;
    for x := 1 to if motorCount < 1 then 1 else motorCount
      invariant out.written == old(out.written) + OtherMotorsVB(s, x)
    {
      MotorAt(s, 0);
      MotorAt(s, x);
      out.WriteSignedVB(Minus(s.motor[x], s.motor[0]));
    }
  }

  lemma MotorAt(s: MainState, i: nat)
    requires s.Valid() && i < 8
    ensures At(s, Motor(i)) == s.motor[i]
  {
  }

  // ---------------------------------------------------------------- groups

  /** The residuals of the enabled rows. */
  function RowsResiduals(c: Config, rows: seq<FieldDef>, intra: bool, s: MainState, p1: MainState,
                         p2: MainState): seq<bv32> {
    Residuals(c, Select(c, rows, intra), s, p1, p2)
  }

  lemma MoreResiduals(c: Config, rows: seq<FieldDef>, d: FieldDef, intra: bool, s: MainState, p1: MainState,
                      p2: MainState)
    ensures RowsResiduals(c, rows + [d], intra, s, p1, p2)
         == RowsResiduals(c, rows, intra, s, p1, p2)
            + (if Test(c, d.condition) then [Residual(c, ItemOf(d, intra), s, p1, p2)] else [])
  {
    hide Residual, Test, Select, Residuals;
    SelectAppend(c, rows, [d], intra);
    ResidualsOfBoth(c, Select(c, rows, intra), Select(c, [d], intra), s, p1, p2);
    ResidualsOfRow(c, d, intra, s, p1, p2);
  }

  lemma NoResiduals(c: Config, intra: bool, s: MainState, p1: MainState, p2: MainState)
    ensures RowsResiduals(c, [], intra, s, p1, p2) == []
  {
  }

  lemma {:induction false} ArrayResiduals(c: Config, a: Array, n: nat, intra: bool, cond: Condition, s: MainState,
                                          p1: MainState, p2: MainState, values: seq<bv32>)
    requires OneCondition(a, cond) && n <= |values| && WrittenFrom(c, a, n, intra, s, p1, p2, values)
    ensures RowsResiduals(c, Rows(a, n), intra, s, p1, p2) == if Test(c, cond) then values[..n] else []
  {
    hide Test, Residual, Row, RowsResiduals;
    if n == 0 {
      NoResiduals(c, intra, s, p1, p2);
    } else {
      ArrayResiduals(c, a, n - 1, intra, cond, s, p1, p2, values);
      MoreResiduals(c, Rows(a, n - 1), Row(a, n - 1), intra, s, p1, p2);
      assert values[..n] == values[..n - 1] + [values[n - 1]];
    }
  }

  method Centred(servo: seq<bv32>) returns (deltas: seq<bv32>)
    ensures |deltas| == |servo| && forall i :: 0 <= i < |servo| ==> deltas[i] == Minus(servo[i], 1500)
  {
    hide Minus;
    deltas := [];
    for x := 0 to |servo|
      invariant |deltas| == x && forall i :: 0 <= i < x ==> deltas[i] == Minus(servo[i], 1500)
    {
      deltas := deltas + [Minus(servo[x], 1500)];
    }
  }

  lemma CentredResidual(c: Config, i: nat, s: MainState)
    requires s.Valid() && i < 8
    ensures Residual(c, ItemOf(Row(Servo8, i), true), s, s, s) == Minus(s.servo[i], 1500)
  {
    hide Minus, LowBits14;
  }

  /** The servos of a frame as one group. */
  lemma ServoGroup(c: Config, intra: bool, s: MainState, p1: MainState, p2: MainState, values: seq<bv32>)
    requires |values| == 8 && WrittenFrom(c, Servo8, 8, intra, s, p1, p2, values)
    ensures PutPart(c, LastParts().part, intra, s, p1, p2) == if Test(c, Servos) then Tag8_8SVB(values) else []
  {
    hide Residual, Row, Rows, Tag8_8SVB, Select, Residuals, Test, WrittenFrom, OneCondition;
    OneConditions();
    ArrayResiduals(c, Servo8, 8, intra, Servos, s, p1, p2, values);
    assert values[..8] == values;
    NoGroup();
  }

  method WriteServos(out: LogStream, c: Config, s: MainState)
    requires s.Valid()
    modifies out
    ensures out.written == old(out.written) + PutPart(c, LastParts().part, true, s, s, s)
  {
    hide PutPart, Residual, Row, Tag8_8SVB, Minus, LastParts;
    var deltas := Centred(s.servo);
    forall i: nat | i < 8
      ensures Residual(c, ItemOf(Row(Servo8, i), true), s, s, s) == deltas[i]
    {
      CentredResidual(c, i, s);
    }
    ServoGroup(c, true, s, s, s, deltas);
    if Test(c, Servos) {
      out.WriteTag8_8SVB(deltas);
    }
  }

  method WriteErpm(out: LogStream, c: Config, s: MainState)
    requires c.Valid() && s.Valid()
    modifies out
    ensures out.written == old(out.written) + RowsBytes(c, Rows(Erpm8, 8), true, s, s, s)
  {
    hide Sent, Row, Rows, RowsBytes, UnsignedVB, Residual;
    ghost var start := out.written;
    NoRows(Erpm8);
    NoRowsBytes(c, true, s, s, s);
    SentStart(start, c, Rows(Erpm8, 0), true, s, s, s);
    if c.rpmEnabled {
      for x := 0 to c.motorCount
        invariant Sent(out.written, start, c, [] + Rows(Erpm8, x), true, s, s, s)
      {
        ErpmRow(x);
        PlainResidual(c, Erpm8, x, s);
        SentRow(out.written, start, c, [], Erpm8, x, true, s, s, s);
        if Test(c, MotorHasRpm(x + 1)) {
          out.WriteUnsignedVB(s.erpm[x]);
        }
      }
      SentLater(out.written, start, c, c.motorCount, true, s, s, s);
    } else {
      SentLater(out.written, start, c, 0, true, s, s, s);
    }
    SentAll(out.written, start, c, Rows(Erpm8, 8), true, s, s, s);
  }

  lemma ErpmRow(i: nat)
    ensures Row(Erpm8, i).condition == MotorHasRpm(i + 1) && Row(Erpm8, i).iEncode == UnsignedVb
            && Row(Erpm8, i).pEncode == SignedVb
  {
  }

  lemma SentStart(start: Bytes, c: Config, rows: seq<FieldDef>, intra: bool, s: MainState, p1: MainState, p2: MainState)
    requires RowsBytes(c, rows, intra, s, p1, p2) == []
    ensures Sent(start, start, c, [] + rows, intra, s, p1, p2)
  {
    hide RowsBytes;
    assert [] + rows == rows;
  }

  lemma SentAll(bytes: Bytes, start: Bytes, c: Config, rows: seq<FieldDef>, intra: bool, s: MainState, p1: MainState,
                p2: MainState)
    requires Sent(bytes, start, c, [] + rows, intra, s, p1, p2)
    ensures bytes == start + RowsBytes(c, rows, intra, s, p1, p2)
  {
    hide RowsBytes;
    assert [] + rows == rows;
  }

  /** The speeds of motors that are not there are not written. */
  lemma {:induction false} SentLater(bytes: Bytes, start: Bytes, c: Config, n: nat, intra: bool, s: MainState,
                                     p1: MainState, p2: MainState)
    requires n <= 8 && Sent(bytes, start, c, [] + Rows(Erpm8, n), intra, s, p1, p2)
             && (c.rpmEnabled ==> c.motorCount <= n)
    ensures Sent(bytes, start, c, [] + Rows(Erpm8, 8), intra, s, p1, p2)
    decreases 8 - n
  {
    hide Sent, Row, Rows, RowsBytes, PutOne, Residual;
    if n < 8 {
      ErpmRow(n);
      SentRow(bytes, start, c, [], Erpm8, n, intra, s, p1, p2);
      SentLater(bytes, start, c, n + 1, intra, s, p1, p2);
    }
  }

  // ---------------------------------------------------------------- all of it

  lemma {:induction false} PlainParts(c: Config, parts: Parts, s: MainState)
    requires AllPlain(parts)
    ensures PutParts(c, parts, true, s, s, s) == RowsBytes(c, AllRows(parts), true, s, s, s)
    decreases parts
  {
    hide RowsBytes;
    if parts.End? {
      NoRowsBytes(c, true, s, s, s);
    } else {
      PlainParts(c, parts.more, s);
      RowsBytesAppend(c, parts.part.rows, AllRows(parts.more), true, s, s, s);
      PlainPart(c, parts.part, s);
    }
  }

  lemma PlainPart(c: Config, part: Part, s: MainState)
    requires part.iGroup == Null
    ensures PutPart(c, part, true, s, s, s) == RowsBytes(c, part.rows, true, s, s, s)
  {
  }

  predicate AllPlain(parts: Parts) { parts.End? || (parts.part.iGroup == Null && AllPlain(parts.more)) }

  lemma FrontPlain()
    ensures AllPlain(FrontThen(End))
  {
    hide TimeAndP, RestOfPid, Optional, Noisy, Rows;
    var p3 := FrontThen(End).more.more.more;
    assert AllPlain(p3.more.more);
    assert AllPlain(p3);
  }

  lemma Chain5<T>(r: seq<T>, a: seq<T>, b: seq<T>, c: seq<T>, d: seq<T>, e: seq<T>)
    ensures r + a + b + c + d + e == r + (a + (b + (c + (d + e))))
  {
    Regroup(r + a + b + c, d, e);
    Regroup(r + a + b, c, d + e);
    Regroup(r + a, b, c + (d + e));
    Regroup(r, a, b + (c + (d + e)));
  }

  lemma PidRows(rows: seq<FieldDef>)
    ensures AfterPid(rows) == (rows + Rows(AxesP, 3)) + (Rows(AxesI, 3) + RestOfPid())
  {
    hide Rows;
    var r := rows + Rows(AxesP, 3);
    Regroup(r + Rows(AxesI, 3) + Rows(AxesD, 3), Rows(AxesF, 3), Rows(AxesS, 3));
    Regroup(r + Rows(AxesI, 3), Rows(AxesD, 3), Rows(AxesF, 3) + Rows(AxesS, 3));
    Regroup(r, Rows(AxesI, 3), RestOfPid());
  }

  lemma OptionalRows(rows: seq<FieldDef>)
    ensures AfterOptional(rows) == rows + Optional()
  {
    hide Rows;
    var m, v, o := Rows(Mag3, 3), rows + [VBAT] + [AMPERAGE], [BARO_ALT] + [SURFACE_RAW];
    Regroup(v + m + [BARO_ALT], [SURFACE_RAW], [RSSI]);
    Regroup(v + m, [BARO_ALT], [SURFACE_RAW] + [RSSI]);
    Regroup(v, m, [BARO_ALT] + ([SURFACE_RAW] + [RSSI]));
    Regroup(rows, [VBAT], [AMPERAGE]);
    assert [VBAT] + [AMPERAGE] == [VBAT, AMPERAGE];
    assert [BARO_ALT] + ([SURFACE_RAW] + [RSSI]) == [BARO_ALT, SURFACE_RAW, RSSI];
    Regroup(rows, [VBAT, AMPERAGE], m + [BARO_ALT, SURFACE_RAW, RSSI]);
  }

  lemma NoisyRows(rows: seq<FieldDef>)
    ensures AfterNoisy(rows) == rows + Noisy()
  {
    hide Rows;
    Chain5(rows, Rows(Gyro3, 3), Rows(GyroUnfilt3, 3), Rows(Acc3, 3), Rows(Quaternion3, 3), Rows(Debug8, 8));
  }

  /** The writer goes through the rows of the table in order. */
  lemma FrontRows()
    ensures AfterNoisy(AfterOptional(AfterPid([ITERATION, TIME]) + Rows(RcCommands4, 4) + Rows(Setpoint4, 4)))
            == AllRows(FrontThen(End))
  {
    var start, rest, rc, sp := TimeAndP(), Rows(AxesI, 3) + RestOfPid(), Rows(RcCommands4, 4), Rows(Setpoint4, 4);
    PidRows([ITERATION, TIME]);
    OptionalRows(AfterPid([ITERATION, TIME]) + rc + sp);
    NoisyRows(AfterOptional(AfterPid([ITERATION, TIME]) + rc + sp));
    assert start == [ITERATION, TIME] + Rows(AxesP, 3);
    AllFrontRows();
    hide TimeAndP, RestOfPid, Optional, Noisy, Rows, AllRows, AfterPid, AfterOptional, AfterNoisy;
    Chain5(start, rest, rc, sp, Optional(), Noisy());
    Regroup(Rows(AxesI, 3), RestOfPid(), rc + (sp + (Optional() + Noisy())));
  }

  lemma AllFrontRows()
    ensures AllRows(FrontThen(End))
         == TimeAndP() + (Rows(AxesI, 3)
                          + (RestOfPid() + (Rows(RcCommands4, 4) + (Rows(Setpoint4, 4) + (Optional() + Noisy())))))
  {
    hide TimeAndP, RestOfPid, Optional, Noisy, Rows;
    var p1 := FrontThen(End).more;
    var p2 := p1.more;
    var p3 := p2.more;
    var p4 := p3.more;
    var p5 := p4.more;
    var p6 := p5.more;
    assert AllRows(End) == [] && Noisy() + [] == Noisy();
    assert AllRows(p6) == Noisy();
    assert AllRows(p5) == Optional() + Noisy();
    assert AllRows(p3) == Rows(RcCommands4, 4) + (Rows(Setpoint4, 4) + AllRows(p5));
    assert AllRows(p1) == Rows(AxesI, 3) + (RestOfPid() + AllRows(p3));
  }

  /** `writeIntraframe` emits the intra frame of the state. */
  method WriteIntraFields(out: LogStream, c: Config, s: MainState)
    requires c.Valid() && s.Valid()
    modifies out
    ensures out.written == old(out.written) + IntraBody(c, s)
  {
    hide Sent, RowsBytes, PutParts, PutPart, IntraMotors, AfterPid, AfterOptional, AfterNoisy, FrontThen, LastParts,
      AllRows, AllPlain, Rows;
    ghost var start := out.written;
    WriteTime(out, c, s, start);
    WritePid(out, c, s, start, [ITERATION, TIME]);
    WriteSticks(out, c, s, start, AfterPid([ITERATION, TIME]));
    WriteSensors(out, c, s, start, AfterPid([ITERATION, TIME]) + Rows(RcCommands4, 4) + Rows(Setpoint4, 4));
    WriteNoisy(out, c, s, start,
               AfterOptional(AfterPid([ITERATION, TIME]) + Rows(RcCommands4, 4) + Rows(Setpoint4, 4)));
    FrontSent(out.written, start, c, s);
    WriteMotors(out, c, s);
    WriteServos(out, c, s);
    WriteErpm(out, c, s);
    IntraPieces(start, c, s);
  }

  lemma FrontSent(bytes: Bytes, start: Bytes, c: Config, s: MainState)
    requires Sent(bytes, start, c,
                  AfterNoisy(AfterOptional(AfterPid([ITERATION, TIME]) + Rows(RcCommands4, 4) + Rows(Setpoint4, 4))),
                  true, s, s, s)
    ensures bytes == start + PutParts(c, FrontThen(End), true, s, s, s)
  {
    hide RowsBytes, PutParts, AfterPid, AfterOptional, AfterNoisy, FrontThen, AllRows, Rows, AllPlain;
    FrontRows();
    FrontPlain();
    PlainParts(c, FrontThen(End), s);
  }

  lemma IntraPieces(start: Bytes, c: Config, s: MainState)
    ensures start + PutParts(c, FrontThen(End), true, s, s, s) + IntraMotors(c, s)
            + PutPart(c, LastParts().part, true, s, s, s)
            + RowsBytes(c, Rows(Erpm8, 8), true, s, s, s)
         == start + IntraBody(c, s)
  {
    var front, motors, last :=
        PutParts(c, FrontThen(End), true, s, s, s), IntraMotors(c, s), PutParts(c, LastParts(), true, s, s, s);
    var servos, speeds := PutPart(c, LastParts().part, true, s, s, s), RowsBytes(c, Rows(Erpm8, 8), true, s, s, s);
    TwoParts(c, LastParts().part, LastParts().more.part, s);
    PlainPart(c, LastParts().more.part, s);
    hide PutParts, FrontThen, IntraMotors, PutPart, RowsBytes, Rows;
    assert last == servos + speeds;
    Regroup(start + front + motors, servos, speeds);
    Regroup(start + front, motors, last);
    Regroup(start, front, motors + last);
  }
}
