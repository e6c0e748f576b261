/** Every intra and inter frame is read back: the recovered fields are the enabled fields of the logged state. */
module BlackboxReading {
  import opened Words
  import opened BlackboxEncoding
  import opened BlackboxFields
  import opened BlackboxFrames
  import opened BlackboxRoundTrip
  import opened BlackboxMainFrames

  // ---------------------------------------------------------------- where a group ends

  lemma BreaksAppend(a: seq<Item>, b: seq<Item>)
    requires AllSimple(a)
    ensures Breaks(a + b) <==> a != [] || Breaks(b)
  {
    hide AllSimple;
    if a == [] {
      assert a + b == b;
    } else {
      assert AllSimple(a) ==> Simple(a[0].encode) by { FirstSimple(a); }
    }
  }

  lemma FirstSimple(a: seq<Item>)
    requires AllSimple(a) && a != []
    ensures Simple(a[0].encode)
  {
  }

  /** Rows written one by one end a group when one of them is enabled. */
  lemma BreaksAfter(c: Config, rows: seq<FieldDef>, later: seq<FieldDef>, intra: bool)
    requires Fitting(rows, intra, Null)
    ensures Breaks(Select(c, rows + later, intra)) <==> EnabledIn(c, rows, intra) > 0 || Breaks(Select(c, later, intra))
  {
    hide Select, Fitting, Breaks;
    SelectFitting(c, rows, intra, Null);
    SelectAppend(c, rows, later, intra);
    BreaksAppend(Select(c, rows, intra), Select(c, later, intra));
  }

  /** After the servos come at most the motors' speeds, which are written one by one. */
  lemma ErpmBreaks(c: Config, intra: bool)
    ensures Breaks(Select(c, AllRows(LastParts().more), intra))
  {
    assert AllRows(LastParts().more) == Rows(Erpm8, 8) + [];
    EmptySelect(c, intra);
    ArrayShape(Erpm8, 8, intra);
    hide Rows, AllRows, Select, Fitting;
    BreaksAfter(c, Rows(Erpm8, 8), [], intra);
  }

  lemma ServoCount(c: Config, intra: bool)
    ensures EnabledIn(c, Rows(Servo8, 8), intra) == Count(c.servos, 8)
  {
    hide Row, EnabledIn, Rows;
    OneConditions();
    ArrayCount(c, Servo8, 8, intra, Servos);
  }

  lemma ServosBreak(c: Config, intra: bool)
    ensures Breaks(Select(c, AllRows(LastParts()), intra)) <==> !c.servos
  {
    var rows, later := Rows(Servo8, 8), AllRows(LastParts().more);
    assert AllRows(LastParts()) == rows + later;
    hide AllRows;
    ErpmBreaks(c, intra);
    ServoCount(c, intra);
    ArrayShape(Servo8, 8, intra);
    hide Rows, Select;
    SelectFitting(c, rows, intra, Tag8Svb);
    SelectAppend(c, rows, later, intra);
    if !c.servos { assert [] + Select(c, later, intra) == Select(c, later, intra); }
  }

  lemma {:induction false} MotorsEnabled(c: Config, n: nat, intra: bool)
    ensures EnabledIn(c, Rows(OtherMotors, n), intra) > 0 ==> MotorsOn(c)
  {
    hide EnabledIn;
    if n == 0 {
      NoneEnabled(c, intra);
    } else {
      MotorsEnabled(c, n - 1, intra);
      EnabledInBoth(c, Rows(OtherMotors, n - 1), [Row(OtherMotors, n - 1)], intra);
      EnabledOne(c, Row(OtherMotors, n - 1), intra);
    }
  }

  lemma FirstMotorCount(c: Config, intra: bool)
    ensures EnabledIn(c, Rows(FirstMotor, 1), intra) == Count(MotorsOn(c), 1)
  {
    hide EnabledIn;
    assert Rows(FirstMotor, 1) == Rows(FirstMotor, 0) + [Row(FirstMotor, 0)] == [Row(FirstMotor, 0)];
    EnabledOne(c, Row(FirstMotor, 0), intra);
  }

  lemma OthersFit(intra: bool)
    ensures Fitting(Rows(OtherMotors, 7), intra, Null)
  {
    hide Rows;
    if intra { MotorShape(7); } else { ArrayShape(OtherMotors, 7, intra); }
  }

  lemma TailRows()
    ensures AllRows(Tail()) == Rows(FirstMotor, 1) + (Rows(OtherMotors, 7) + AllRows(LastParts()))
  {
    hide Rows, LastParts;
    assert AllRows(Tail()) == Rows(FirstMotor, 1) + AllRows(Tail().more);
    assert AllRows(Tail().more) == Rows(OtherMotors, 7) + AllRows(LastParts());
  }

  lemma MotorsBreak(c: Config, intra: bool)
    ensures Breaks(Select(c, AllRows(Tail()), intra)) <==> MotorsOn(c) || !c.servos
  {
    hide AllRows, Breaks, EnabledIn, Select, Rows, Fitting, Tail, LastParts, RowShape;
    var one, seven, last := Rows(FirstMotor, 1), Rows(OtherMotors, 7), AllRows(LastParts());
    TailRows();
    ServosBreak(c, intra);
    FirstMotorCount(c, intra);
    MotorsEnabled(c, 7, intra);
    ArrayShape(FirstMotor, 1, intra);
    OthersFit(intra);
    BreaksAfter(c, seven, last, intra);
    BreaksAfter(c, one, seven + last, intra);
  }

  /** What follows the optional fields ends their group, unless it is the servos. */
  lemma NoisyBreaks(c: Config, intra: bool)
    ensures Breaks(Select(c, AllRows(Next(Part(Noisy(), Null, Null), Tail())), intra))
            <==> NoisyOn(c) || MotorsOn(c) || !c.servos
  {
    var noisy, tail := Noisy(), AllRows(Tail());
    assert AllRows(Next(Part(noisy, Null, Null), Tail())) == noisy + tail;
    hide AllRows, Breaks, Noisy, Select, EnabledIn;
    MotorsBreak(c, intra);
    NoisyCount(c, intra);
    NoisyShape(intra);
    hide Fitting;
    BreaksAfter(c, noisy, tail, intra);
  }

  lemma GroupCounts(c: Config, intra: bool)
    ensures EnabledIn(c, Rows(AxesI, 3), intra) in {0, 3}
    ensures EnabledIn(c, Rows(RcCommands4, 4), intra) in {0, 4} && EnabledIn(c, Rows(Setpoint4, 4), intra) in {0, 4}
  {
    hide Row, EnabledIn, Rows;
    OneConditions();
    ArrayCount(c, AxesI, 3, intra, Pid);
    ArrayCount(c, RcCommands4, 4, intra, RcCommands);
    ArrayCount(c, Setpoint4, 4, intra, SetpointOn);
  }

  lemma PlainFits(c: Config, rows: seq<FieldDef>, more: Parts, intra: bool)
    ensures PartFits(c, Part(rows, Null, Null), more, intra)
  {
  }

  lemma SmallGroupFits(c: Config, rows: seq<FieldDef>, e: Encoding, n: nat, more: Parts, intra: bool)
    requires (e == Tag2Of3 && n == 3) || (e == Tag8Of4 && n == 4)
    requires EnabledIn(c, rows, intra) in {0, n}
    ensures PartFits(c, Part(rows, Null, e), more, intra)
  {
  }

  lemma OptionalFits(c: Config, intra: bool)
    ensures PartFits(c, Part(Optional(), Null, Tag8Svb), Next(Part(Noisy(), Null, Null), Tail()), intra)
            <==> intra || !ServosRunOn(c)
  {
    hide Noisy, AllRows, Select, Breaks, OptionalCount;
    OptionalGroup(c, intra);
    NoisyBreaks(c, intra);
  }

  /** The groups have the sizes their encodings need, and in inter frames end where the reader takes them to end
      exactly when the servos do not run on. */
  lemma LayoutSizes(c: Config, intra: bool)
    ensures SizesFit(c, Layout(), intra) <==> intra || !ServosRunOn(c)
  {
    GroupCounts(c, intra);
    var p1 := Layout().more;
    var p2 := p1.more;
    var p3 := p2.more;
    var p4 := p3.more;
    var p5 := p4.more;
    var p6 := p5.more;
    hide PartFits, Rows, TimeAndP, RestOfPid, Optional, Noisy, ServosRunOn;
    TailSizes(c, intra);
    PlainFits(c, Noisy(), Tail(), intra);
    OptionalFits(c, intra);
    SmallGroupFits(c, Rows(Setpoint4, 4), Tag8Of4, 4, p5, intra);
    SmallGroupFits(c, Rows(RcCommands4, 4), Tag8Of4, 4, p4, intra);
    PlainFits(c, RestOfPid(), p3, intra);
    SmallGroupFits(c, Rows(AxesI, 3), Tag2Of3, 3, p2, intra);
    PlainFits(c, TimeAndP(), p1, intra);
    assert SizesFit(c, p6, intra);
    assert SizesFit(c, p4, intra) <==> SizesFit(c, p5, intra);
    assert SizesFit(c, p2, intra) <==> SizesFit(c, p3, intra);
    assert SizesFit(c, p1, intra) <==> SizesFit(c, p2, intra);
  }

  lemma TailSizes(c: Config, intra: bool)
    ensures SizesFit(c, Tail(), intra)
  {
    ServoFits(c, intra);
    hide PartFits, Rows;
    PlainFits(c, Rows(Erpm8, 8), End, intra);
    PlainFits(c, Rows(OtherMotors, 7), LastParts(), intra);
    PlainFits(c, Rows(FirstMotor, 1), Tail().more, intra);
    assert SizesFit(c, LastParts().more, intra);
    assert SizesFit(c, Tail().more, intra);
  }

  lemma ServoFits(c: Config, intra: bool)
    ensures PartFits(c, Part(Rows(Servo8, 8), Tag8Svb, Tag8Svb), LastParts().more, intra)
  {
    hide Rows, AllRows, Select, Breaks;
    ServoCount(c, intra);
  }

  // ---------------------------------------------------------------- predictions

  /** Some row of the table is of one of the shapes. */
  predicate TableRow(d: FieldDef, intra: bool) { RowShape(d, intra) || (intra && MotorRows([d])) }

  lemma {:induction false} ShapedRows(parts: Parts, intra: bool, after: bool, d: FieldDef)
    requires PartsShape(parts, intra, after) && d in AllRows(parts)
    ensures TableRow(d, intra)
    decreases parts
  {
    hide RowShape, Fitting, Row;
    if d !in parts.part.rows { ShapedRows(parts.more, intra, after || parts.part.rows == [Row(FirstMotor, 0)], d); }
  }

  /** The voltage has not moved from the reference by more than 14 bits hold. */
  predicate VoltageFits(c: Config, s: MainState) { c.vbat ==> Fits14(Minus(c.vbatReference, s.vbatLatest)) }

  lemma IntraRowOk(c: Config, d: FieldDef, s: MainState, h1: Values, h2: Values)
    requires TableRow(d, true) && Test(c, d.condition) && VoltageFits(c, s)
    ensures RowOk(c, d, true, s, s, s, h1, h2)
  {
    hide Minus, Plus, Fits14, Fits16;
    assert RowShape(d, true) || MotorRows([d]);
    if !RowShape(d, true) { assert d in [d]; }
  }

  lemma InterRowOk(c: Config, d: FieldDef, s: MainState, p1: MainState, p2: MainState, h1: Values, h2: Values)
    requires TableRow(d, false) && s.Valid() && s.iteration == Plus(p1.iteration, c.pInterval)
    requires Tells(h1, p1, d.slot) && Tells(h2, p2, d.slot)
    ensures RowOk(c, d, false, s, p1, p2, h1, h2)
  {
    hide Minus, Plus, Fits14, Fits16, HalfSum;
    if d.pEncode == Tag8Of4 { StickFits(s, d.slot); }
  }

  lemma StickFits(s: MainState, f: Slot)
    requires s.Valid() && Stick(f)
    ensures Fits16(At(s, f))
  {
    hide Fits16;
  }

  // ---------------------------------------------------------------- the frames

  /** The fields of a frame, with the values of a state. */
  function FrameOf(c: Config, s: MainState): Values { AddAll(map[], Select(c, Table(), true), s) }

  lemma {:induction false} SameSlots(c: Config, rows: seq<FieldDef>, now: Values, s: MainState)
    ensures AddAll(now, Select(c, rows, true), s) == AddAll(now, Select(c, rows, false), s)
    decreases |rows|
  {
    hide Test, At;
    if rows != [] {
      SelectStep(c, rows, true);
      SelectStep(c, rows, false);
      SameSlots(c, rows[1..], if Test(c, rows[0].condition) then now[rows[0].slot := At(s, rows[0].slot)] else now, s);
    }
  }

  lemma FrameTells(c: Config, s: MainState, d: FieldDef)
    requires d in Table() && Test(c, d.condition)
    ensures Tells(FrameOf(c, s), s, d.slot)
  {
    hide Test, Table, AddAll, Tells, Select;
    SelectHas(c, Table(), true, d);
    AddAllTells(map[], Select(c, Table(), true), s, d.slot);
  }

  lemma DecodeFrame(c: Config, intra: bool, s: MainState, p1: MainState, p2: MainState, h1: Values, h2: Values,
                    rest: Bytes)
    requires (forall d :: d in Table() && Test(c, d.condition) ==> RowOk(c, d, intra, s, p1, p2, h1, h2))
    requires intra || !ServosRunOn(c)
    ensures Decode(c, Select(c, Table(), intra), PutParts(c, Layout(), intra, s, p1, p2) + rest, h1, h2, map[])
         == Frame(FrameOf(c, s), rest)
  {
    hide RowOk, Layout, Decode, AddAll, Select, PutParts, ServosRunOn, Test, PartsShape, SizesFit, PartsRead, AllRows;
    LayoutShape(intra);
    LayoutSizes(c, intra);
    assert RowsOk(c, AllRows(Layout()), intra, s, p1, p2, h1, h2);
    ShapedPartsRead(c, Layout(), intra, false, s, p1, p2, h1, h2, map[]);
    DecodeParts(c, Layout(), intra, s, p1, p2, h1, h2, map[], rest);
    if !intra { SameSlots(c, Table(), map[], s); }
  }

  lemma {:induction false} MotorBytes(c: Config, s: MainState, n: nat)
    requires MotorsOn(c)
    ensures Put(c, Select(c, Rows(OtherMotors, n), true), s, s, s)
            == OtherMotorsVB(s, if n + 1 <= c.motorCount then n + 1 else c.motorCount)
  {
    hide At, SignedVB, Select, Put, Minus;
    if n == 0 {
      EmptySelect(c, true);
      EmptyPut(c, s);
    } else {
      MotorBytes(c, s, n - 1);
      var d := Row(OtherMotors, n - 1);
      SelectAppend(c, Rows(OtherMotors, n - 1), [d], true);
      PutAppend(c, Select(c, Rows(OtherMotors, n - 1), true), Select(c, [d], true), s, s, s);
      PutRow(c, d, true, s, s, s);
    }
  }

  lemma EmptyPut(c: Config, s: MainState)
    ensures Put(c, [], s, s, s) == []
  {
  }

  lemma PutRow(c: Config, d: FieldDef, intra: bool, s: MainState, p1: MainState, p2: MainState)
    ensures Put(c, Select(c, [d], intra), s, p1, p2)
         == if Test(c, d.condition) then PutOne(ItemOf(d, intra).encode, Residual(c, ItemOf(d, intra), s, p1, p2))
            else []
  {
    hide Test, PutOne, Residual;
    assert [d][1..] == [];
    EmptySelect(c, intra);
    if Test(c, d.condition) {
      var item := ItemOf(d, intra);
      assert Select(c, [d], intra) == [item] + [] == [item];
      assert [item][1..] == [];
    }
  }

  lemma {:induction false} PutAppend(c: Config, a: seq<Item>, b: seq<Item>, s: MainState, p1: MainState, p2: MainState)
    ensures Put(c, a + b, s, p1, p2) == Put(c, a, s, p1, p2) + Put(c, b, s, p1, p2)
  {
    hide PutOne, Residual;
    if a == [] {
      assert a + b == b;
    } else {
      assert (a + b)[1..] == a[1..] + b;
      PutAppend(c, a[1..], b, s, p1, p2);
    }
  }

  lemma PutPartsStep(c: Config, part: Part, a: Parts, b: Parts, tail: Bytes, intra: bool, s: MainState, p1: MainState,
                     p2: MainState)
    requires PutParts(c, a, intra, s, p1, p2) == PutParts(c, b, intra, s, p1, p2) + tail
    ensures PutParts(c, Next(part, a), intra, s, p1, p2) == PutParts(c, Next(part, b), intra, s, p1, p2) + tail
  {
    hide PutPart;
    Regroup(PutPart(c, part, intra, s, p1, p2), PutParts(c, b, intra, s, p1, p2), tail);
  }

  lemma FrontBytes(c: Config, tail: Parts, intra: bool, s: MainState, p1: MainState, p2: MainState)
    ensures PutParts(c, FrontThen(tail), intra, s, p1, p2)
         == PutParts(c, FrontThen(End), intra, s, p1, p2) + PutParts(c, tail, intra, s, p1, p2)
  {
    var a1, b1 := FrontThen(tail).more, FrontThen(End).more;
    var a2, b2 := a1.more, b1.more;
    var a3, b3 := a2.more, b2.more;
    var a4, b4 := a3.more, b3.more;
    var a5, b5 := a4.more, b4.more;
    var a6, b6 := a5.more, b5.more;
    var bytes := PutParts(c, tail, intra, s, p1, p2);
    assert PutParts(c, End, intra, s, p1, p2) == [] && [] + bytes == bytes;
    hide PutParts, Rows, TimeAndP, RestOfPid, Optional, Noisy;
    PutPartsStep(c, a6.part, tail, End, bytes, intra, s, p1, p2);
    PutPartsStep(c, a5.part, a6, b6, bytes, intra, s, p1, p2);
    PutPartsStep(c, a4.part, a5, b5, bytes, intra, s, p1, p2);
    PutPartsStep(c, a3.part, a4, b4, bytes, intra, s, p1, p2);
    PutPartsStep(c, a2.part, a3, b3, bytes, intra, s, p1, p2);
    PutPartsStep(c, a1.part, a2, b2, bytes, intra, s, p1, p2);
    PutPartsStep(c, FrontThen(tail).part, a1, b1, bytes, intra, s, p1, p2);
  }

  /** What the motor rows of the table call for. */
  function PromisedMotors(c: Config, s: MainState): Bytes {
    if !MotorsOn(c) then [] else UnsignedVB(Minus(At(s, Motor(0)), c.motorLow)) + OtherMotorsVB(s, c.motorCount)
  }

  lemma NoMotorBytes(c: Config, rows: seq<FieldDef>, s: MainState)
    requires EnabledIn(c, rows, true) == 0
    ensures Put(c, Select(c, rows, true), s, s, s) == []
  {
    hide Select;
  }

  lemma FirstMotorBytes(c: Config, s: MainState)
    ensures Put(c, Select(c, Rows(FirstMotor, 1), true), s, s, s)
         == if MotorsOn(c) then UnsignedVB(Minus(At(s, Motor(0)), c.motorLow)) else []
  {
    hide At, UnsignedVB, Minus, Put, Select;
    MotorOne();
    PutRow(c, Row(FirstMotor, 0), true, s, s, s);
  }

  lemma OtherMotorBytes(c: Config, s: MainState)
    requires c.Valid()
    ensures Put(c, Select(c, Rows(OtherMotors, 7), true), s, s, s)
            == if MotorsOn(c) then OtherMotorsVB(s, c.motorCount) else []
  {
    hide Put, Select, Rows, OtherMotorsVB, EnabledIn;
    if MotorsOn(c) {
      MotorBytes(c, s, 7);
    } else {
      MotorsEnabled(c, 7, true);
      NoMotorBytes(c, Rows(OtherMotors, 7), s);
    }
  }

  lemma TailBytes(c: Config, s: MainState)
    requires c.Valid()
    ensures PutParts(c, Tail(), true, s, s, s) == PromisedMotors(c, s) + PutParts(c, LastParts(), true, s, s, s)
  {
    var first, others, last := Tail().part, Tail().more.part, PutParts(c, LastParts(), true, s, s, s);
    var a := Put(c, Select(c, Rows(FirstMotor, 1), true), s, s, s);
    var b := Put(c, Select(c, Rows(OtherMotors, 7), true), s, s, s);
    assert PutPart(c, first, true, s, s, s) == a && PutPart(c, others, true, s, s, s) == b;
    hide PutPart, Rows, Put, Select, UnsignedVB, Minus, At, OtherMotorsVB;
    assert PutParts(c, Tail().more, true, s, s, s) == b + last;
    assert PutParts(c, Tail(), true, s, s, s) == a + (b + last);
    hide PutParts, LastParts;
    FirstMotorBytes(c, s);
    OtherMotorBytes(c, s);
    Regroup(a, b, last);
    assert a + b == PromisedMotors(c, s);
  }

  /** The intra frame is the one the table promises, apart from the motors. */
  lemma IntraBytes(c: Config, s: MainState)
    requires c.Valid()
    ensures PutParts(c, Layout(), true, s, s, s)
         == PutParts(c, FrontThen(End), true, s, s, s)
            + (PromisedMotors(c, s) + PutParts(c, LastParts(), true, s, s, s))
  {
    hide PutParts, FrontThen, LastParts, PromisedMotors;
    FrontBytes(c, Tail(), true, s, s, s);
    TailBytes(c, s);
  }

  /** An intra frame is read back, whatever came before it. */
  lemma IntraRoundTrip(c: Config, s: MainState, h1: Values, h2: Values, rest: Bytes)
    requires c.Valid() && s.Valid() && VoltageFits(c, s) && (c.motorEnabled ==> c.motorCount > 0)
    ensures Decode(c, Select(c, Table(), true), IntraBody(c, s) + rest, h1, h2, map[]) == Frame(FrameOf(c, s), rest)
  {
    hide AllRows, Test, RowOk, PartsShape, TableRow, VoltageFits, Decode, Select, FrameOf, PutParts, Layout, FrontThen,
      LastParts;
    forall d | d in Table() && Test(c, d.condition) ensures RowOk(c, d, true, s, s, s, h1, h2) {
      LayoutShape(true);
      ShapedRows(Layout(), true, false, d);
      IntraRowOk(c, d, s, h1, h2);
    }
    IntraBytes(c, s);
    DecodeFrame(c, true, s, s, s, h1, h2, rest);
  }

  /** An inter frame is read back by a reader that has the last two states right. */
  lemma InterRoundTrip(c: Config, s: MainState, p1: MainState, p2: MainState, rest: Bytes)
    requires c.Valid() && s.Valid() && s.iteration == Plus(p1.iteration, c.pInterval) && !ServosRunOn(c)
    ensures Decode(c, Select(c, Table(), false), InterBody(c, s, p1, p2) + rest, FrameOf(c, p1), FrameOf(c, p2), map[])
         == Frame(FrameOf(c, s), rest)
  {
    hide AllRows, Test, RowOk, PartsShape, FrameOf, Tells, TableRow, Decode, Select, PutParts, Layout, ServosRunOn;
    var h1, h2 := FrameOf(c, p1), FrameOf(c, p2);
    forall d | d in Table() && Test(c, d.condition) ensures RowOk(c, d, false, s, p1, p2, h1, h2) {
      LayoutShape(false);
      ShapedRows(Layout(), false, false, d);
      FrameTells(c, p1, d);
      FrameTells(c, p2, d);
      InterRowOk(c, d, s, p1, p2, h1, h2);
    }
    DecodeFrame(c, false, s, p1, p2, h1, h2, rest);
  }

  // ---------------------------------------------------------------- groups and their residuals

  lemma {:induction false} ResidualsOfBoth(c: Config, a: seq<Item>, b: seq<Item>, s: MainState, p1: MainState,
                                           p2: MainState)
    ensures Residuals(c, a + b, s, p1, p2) == Residuals(c, a, s, p1, p2) + Residuals(c, b, s, p1, p2)
  {
    hide Residual;
    if a == [] {
      assert a + b == b;
    } else {
      assert (a + b)[1..] == a[1..] + b;
      ResidualsOfBoth(c, a[1..], b, s, p1, p2);
    }
  }

  lemma ResidualsOfRow(c: Config, d: FieldDef, intra: bool, s: MainState, p1: MainState, p2: MainState)
    ensures Residuals(c, Select(c, [d], intra), s, p1, p2)
         == if Test(c, d.condition) then [Residual(c, ItemOf(d, intra), s, p1, p2)] else []
  {
    hide Residual, Test;
    assert [d][1..] == [];
    EmptySelect(c, intra);
    if Test(c, d.condition) {
      var item := ItemOf(d, intra);
      assert Select(c, [d], intra) == [item] + [] == [item];
      assert [item][1..] == [];
    }
  }

  lemma NoGroup()
    ensures PackGroup(Tag8Svb, []) == []
  {
  }

  lemma TwoParts(c: Config, a: Part, b: Part, s: MainState)
    ensures PutParts(c, Next(a, Next(b, End)), true, s, s, s)
            == PutPart(c, a, true, s, s, s) + PutPart(c, b, true, s, s, s)
  {
    hide PutPart;
    var last := PutPart(c, b, true, s, s, s);
    assert PutParts(c, End, true, s, s, s) == [];
    assert PutParts(c, Next(b, End), true, s, s, s) == last + [] == last;
  }
}
