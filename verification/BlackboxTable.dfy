/** Which fields a log has under which configuration, and how its header speaks of them. */
module BlackboxTable {
  import opened Words
  import opened BlackboxEncoding
  import opened BlackboxFields
  import opened BlackboxLog
  import BlackboxMainFrames
  import opened BlackboxHeader
  import opened BlackboxAnnouncement

  // ---------------------------------------------------------------- the rows of the table

  function SizeOf(a: Array): nat {
    match a
    case RcCommands4 => 4
    case Setpoint4 => 4
    case Debug8 => 8
    case FirstMotor => 1
    case OtherMotors => 7
    case Servo8 => 8
    case Erpm8 => 8
    case _ => 3
  }

  predicate Single(d: FieldDef) {
    d == ITERATION || d == TIME || d == VBAT || d == AMPERAGE || d == BARO_ALT || d == SURFACE_RAW || d == RSSI
  }

  lemma SomeArray(d: FieldDef)
    requires d in Table()
    ensures Single(d) || exists a :: d in Rows(a, SizeOf(a))
  {
    hide Row, Rows, Table;
    InSomePart(d);
    Sizes();
    hide SizeOf, Single;
  }

  lemma Sizes()
    ensures SizeOf(AxesP) == SizeOf(AxesI) == SizeOf(AxesD) == SizeOf(AxesF) == SizeOf(AxesS) == 3
    ensures SizeOf(RcCommands4) == SizeOf(Setpoint4) == 4
    ensures SizeOf(Mag3) == SizeOf(Gyro3) == SizeOf(GyroUnfilt3) == SizeOf(Acc3) == SizeOf(Quaternion3) == 3
    ensures SizeOf(Debug8) == SizeOf(Servo8) == SizeOf(Erpm8) == 8
    ensures SizeOf(FirstMotor) == 1 && SizeOf(OtherMotors) == 7
  {
  }

  /** A row is one of the single ones or stands in an array. */
  lemma RowIsSomewhere(d: FieldDef)
    requires d in Table()
    ensures Single(d) || exists a, i: nat :: i < SizeOf(a) && d == Row(a, i)
  {
    hide Row, Rows, Table, SizeOf, Single;
    SomeArray(d);
    if !Single(d) {
      var a :| d in Rows(a, SizeOf(a));
      RowsAre(a, SizeOf(a), d);
    }
  }

  lemma {:induction false} RowIn(a: Array, n: nat, i: nat)
    requires i < n
    ensures Row(a, i) in Rows(a, n)
  {
    hide Row;
    if i < n - 1 { RowIn(a, n - 1, i); }
  }

  lemma SomePartIn(a: Array, d: FieldDef)
    requires d in Rows(a, SizeOf(a))
    ensures d in Table()
  {
    hide Rows;
  }

  lemma SingleIn(d: FieldDef)
    requires Single(d)
    ensures d in Table()
  {
    hide Rows;
  }

  lemma {:induction false} HasRow(c: Config, rows: seq<FieldDef>, intra: bool, f: Slot)
    requires Has(Select(c, rows, intra), f)
    ensures exists d :: d in rows && d.slot == f && Test(c, d.condition)
  {
    hide Test;
    var more := Select(c, rows[1..], intra);
    if Test(c, rows[0].condition) {
      assert ([ItemOf(rows[0], intra)] + more)[1..] == more;
      if rows[0].slot != f { HasRow(c, rows[1..], intra, f); } else { assert rows[0] in rows; }
    } else {
      assert [] + more == more;
      HasRow(c, rows[1..], intra, f);
    }
  }

  // ---------------------------------------------------------------- what is logged

  /** What the configuration has to say for a field to be logged. */
  predicate Logged(c: Config, f: Slot)
    requires c.Valid()
  {
    match f
    case LoopIteration => true
    case Time => true
    case AxisP(i) => i < 3 && c.pid
    case AxisI(i) => i < 3 && c.pid
    case AxisD(i) => i < 3 && c.pid && c.nonzeroD[i]
    case AxisF(i) => i < 3 && c.pid
    case AxisS(i) => i < 3 && c.pid && c.wing && c.nonzeroS[i]
    case RcCommand(i) => i < 4 && c.rcCommands
    case Setpoint(i) => i < 4 && c.setpoint
    case Vbat => c.vbat
    case Amperage => c.amperage
    case MagAdc(i) => i < 3 && c.mag
    case BaroAlt => c.baro
    case SurfaceRaw => c.rangefinder
    case Rssi => c.rssi
    case GyroAdc(i) => i < 3 && c.gyro
    case GyroUnfilt(i) => i < 3 && c.gyroUnfilt
    case AccSmooth(i) => i < 3 && c.acc
    case Quaternion(i) => i < 3 && c.attitude
    case Debug(i) => i < 8 && c.debug
    case Motor(i) => c.motorEnabled && i < c.motorCount
    case Servo(i) => i < 8 && c.servos
    case Erpm(i) => c.rpmEnabled && c.dshotTelemetry && i < c.motorCount
  }

  /** Where the row of a field stands. */
  datatype Place = Alone(row: FieldDef) | InArray(a: Array, i: nat)

  function PlaceOf(f: Slot): Place {
    match f
    case LoopIteration => Alone(ITERATION)
    case Time => Alone(TIME)
    case AxisP(i) => InArray(AxesP, i)
    case AxisI(i) => InArray(AxesI, i)
    case AxisD(i) => InArray(AxesD, i)
    case AxisF(i) => InArray(AxesF, i)
    case AxisS(i) => InArray(AxesS, i)
    case RcCommand(i) => InArray(RcCommands4, i)
    case Setpoint(i) => InArray(Setpoint4, i)
    case Vbat => Alone(VBAT)
    case Amperage => Alone(AMPERAGE)
    case MagAdc(i) => InArray(Mag3, i)
    case BaroAlt => Alone(BARO_ALT)
    case SurfaceRaw => Alone(SURFACE_RAW)
    case Rssi => Alone(RSSI)
    case GyroAdc(i) => InArray(Gyro3, i)
    case GyroUnfilt(i) => InArray(GyroUnfilt3, i)
    case AccSmooth(i) => InArray(Acc3, i)
    case Quaternion(i) => InArray(Quaternion3, i)
    case Debug(i) => InArray(Debug8, i)
    case Motor(i) => if i == 0 then InArray(FirstMotor, 0) else InArray(OtherMotors, i - 1)
    case Servo(i) => InArray(Servo8, i)
    case Erpm(i) => InArray(Erpm8, i)
  }

  predicate PlaceOk(p: Place) { match p case Alone(d) => Single(d) case InArray(a, i) => i < SizeOf(a) }

  function RowAt(p: Place): FieldDef { match p case Alone(d) => d case InArray(a, i) => Row(a, i) }

  lemma RowWhere(f: Slot)
    ensures PlaceOk(PlaceOf(f)) ==> RowAt(PlaceOf(f)).slot == f
  {
  }

  lemma LoggedWhere(c: Config, f: Slot)
    requires c.Valid()
    ensures Logged(c, f) ==> PlaceOk(PlaceOf(f))
  {
  }

  predicate OfAxes(a: Array) { a.AxesP? || a.AxesI? || a.AxesD? || a.AxesF? || a.AxesS? }

  predicate OfOutputs(a: Array) { a.FirstMotor? || a.OtherMotors? || a.Servo8? || a.Erpm8? }

  lemma LoggedAxes(c: Config, a: Array, i: nat)
    requires c.Valid() && OfAxes(a) && i < 3
    ensures Test(c, Row(a, i).condition) <==> Logged(c, Row(a, i).slot)
  {
  }

  lemma LoggedOutputs(c: Config, a: Array, i: nat)
    requires c.Valid() && OfOutputs(a) && i < SizeOf(a)
    ensures Test(c, Row(a, i).condition) <==> Logged(c, Row(a, i).slot)
  {
  }

  lemma LoggedInputs(c: Config, a: Array, i: nat)
    requires c.Valid() && !OfAxes(a) && !OfOutputs(a) && i < SizeOf(a)
    ensures Test(c, Row(a, i).condition) <==> Logged(c, Row(a, i).slot)
  {
  }

  lemma LoggedRow(c: Config, a: Array, i: nat)
    requires c.Valid() && i < SizeOf(a)
    ensures Test(c, Row(a, i).condition) <==> Logged(c, Row(a, i).slot)
  {
    hide Test, Logged, Row;
    if OfAxes(a) {
      LoggedAxes(c, a, i);
    } else if OfOutputs(a) {
      LoggedOutputs(c, a, i);
    } else {
      LoggedInputs(c, a, i);
    }
  }

  lemma LoggedSingle(c: Config, d: FieldDef)
    requires c.Valid() && Single(d)
    ensures Test(c, d.condition) <==> Logged(c, d.slot)
  {
  }

  lemma LoggedWhen(c: Config, f: Slot)
    requires c.Valid() && PlaceOk(PlaceOf(f))
    ensures Test(c, RowAt(PlaceOf(f)).condition) <==> Logged(c, f)
  {
    hide PlaceOf, Row, Single, SizeOf, Logged, Test;
    RowWhere(f);
    match PlaceOf(f)
    case Alone(d) => LoggedSingle(c, d);
    case InArray(a, i) => LoggedRow(c, a, i);
  }

  lemma PlaceOfRow(a: Array, i: nat)
    requires i < SizeOf(a)
    ensures PlaceOf(Row(a, i).slot) == if a == FirstMotor then InArray(a, 0) else InArray(a, i)
  {
  }

  lemma PlaceOfSingle(d: FieldDef)
    requires Single(d)
    ensures PlaceOf(d.slot) == Alone(d)
  {
  }

  /** Every row stands where its field has its place. */
  lemma RowHasPlace(d: FieldDef)
    requires d in Table()
    ensures PlaceOk(PlaceOf(d.slot)) && RowAt(PlaceOf(d.slot)) == d
  {
    hide Row, Table, PlaceOf, Single;
    RowIsSomewhere(d);
    if Single(d) {
      PlaceOfSingle(d);
    } else {
      var a, i: nat :| i < SizeOf(a) && d == Row(a, i);
      PlaceOfRow(a, i);
    }
  }

  lemma PlaceHasRow(p: Place)
    requires PlaceOk(p)
    ensures RowAt(p) in Table()
  {
    hide Row, Rows, Table, Single;
    match p
    case Alone(d) => SingleIn(d);
    case InArray(a, i) =>
      RowIn(a, SizeOf(a), i);
      SomePartIn(a, RowAt(p));
  }

  /** Exactly the fields the configuration asks for are in the frames, and by `HeaderAnnouncesTable` in the header. */
  lemma LoggedExactly(c: Config, intra: bool, f: Slot)
    requires c.Valid()
    ensures Has(Select(c, Table(), intra), f) <==> Logged(c, f)
  {
    hide RowAt, PlaceOf, PlaceOk, Table, Test, Select, Has, Logged;
    if Has(Select(c, Table(), intra), f) {
      HasRow(c, Table(), intra, f);
      var d :| d in Table() && d.slot == f && Test(c, d.condition);
      RowHasPlace(d);
      LoggedWhen(c, f);
    }
    if Logged(c, f) {
      LoggedWhere(c, f);
      LoggedWhen(c, f);
      RowWhere(f);
      PlaceHasRow(PlaceOf(f));
      SelectHas(c, Table(), intra, RowAt(PlaceOf(f)));
    }
  }

  // ---------------------------------------------------------------- how the header speaks of it

  lemma SignedRow(a: Array, i: nat)
    requires i < SizeOf(a)
    ensures (var d := Row(a, i);
             SignedFlag(d.slot) == if d.iPredict == Zero && d.iEncode == SignedVb then 1 else 0)
  {
  }

  lemma SignedSingle(d: FieldDef)
    requires Single(d)
    ensures SignedFlag(d.slot) == if d.iPredict == Zero && d.iEncode == SignedVb then 1 else 0
  {
  }

  /** A field is announced as signed exactly if an I frame writes it as it is, in the signed form. */
  lemma SignedExactly(d: FieldDef)
    requires d in Table()
    ensures SignedFlag(d.slot) == if d.iPredict == Zero && d.iEncode == SignedVb then 1 else 0
  {
    hide Row, Table, Single, SignedFlag;
    RowIsSomewhere(d);
    if Single(d) {
      SignedSingle(d);
    } else {
      var a, i: nat :| i < SizeOf(a) && d == Row(a, i);
      SignedRow(a, i);
    }
  }

  lemma EntryBegins(c: Config, e: Entry, p1: MainState, p2: MainState)
    ensures EntryBytes(c, e, p1, p2) != [] && EntryBytes(c, e, p1, p2)[0] == if e.Intra? then 0x49 else 0x50
  {
    hide BlackboxMainFrames.IntraBody, BlackboxMainFrames.InterBody;
  }

  /** The lines about the fields of a frame name it by the character the frame begins with. */
  lemma FramesAreAnnounced(c: Config, e: Entry, p1: MainState, p2: MainState, h: nat)
    requires h < 6 && (e.Intra? <==> h < 4)
    ensures (var s, heading := EntryBytes(c, e, p1, p2), Heading(MainJob(c, Table()), h);
             s != [] && |heading| > 9 && heading[8] == (if e.Intra? then 'I' else 'P')
             && s[0] == if heading[8] == 'I' then 0x49 else 0x50)
  {
    hide Table, EntryBytes;
    EntryBegins(c, e, p1, p2);
  }
}
