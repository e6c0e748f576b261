/** The main field table the log header promises, and a reader that is driven by that table alone. */
module BlackboxFields {
  import opened Words
  import opened BlackboxEncoding

  // ---------------------------------------------------------------- fields and states

  datatype Slot =
    | LoopIteration | Time
    | AxisP(i: nat) | AxisI(i: nat) | AxisD(i: nat) | AxisF(i: nat) | AxisS(i: nat)
    | RcCommand(i: nat) | Setpoint(i: nat)
    | Vbat | Amperage | MagAdc(i: nat) | BaroAlt | SurfaceRaw | Rssi
    | GyroAdc(i: nat) | GyroUnfilt(i: nat) | AccSmooth(i: nat) | Quaternion(i: nat) | Debug(i: nat)
    | Motor(i: nat) | Servo(i: nat) | Erpm(i: nat)

  /** `blackboxMainState_t` and the iteration it is logged at. Signed 16-bit members are held sign-extended. */
  datatype MainState = MainState(
    iteration: bv32, time: bv32,
    axisP: seq<bv32>, axisI: seq<bv32>, axisD: seq<bv32>, axisF: seq<bv32>, axisS: seq<bv32>,
    rcCommand: seq<bv32>, setpoint: seq<bv32>,
    vbatLatest: bv32, amperageLatest: bv32, magADC: seq<bv32>, baroAlt: bv32, surfaceRaw: bv32, rssi: bv32,
    gyroADC: seq<bv32>, gyroUnfilt: seq<bv32>, accADC: seq<bv32>, quaternion: seq<bv32>, debug: seq<bv32>,
    motor: seq<bv32>, servo: seq<bv32>, erpm: seq<bv32>)
  {
    /** The lengths of the arrays, and the two members whose deltas are written in 16 bits. */
    predicate Valid() {
      && |axisP| == |axisI| == |axisD| == |axisF| == |axisS| == 3
      && |rcCommand| == |setpoint| == 4
      && |magADC| == |gyroADC| == |gyroUnfilt| == |accADC| == |quaternion| == 3
      && |debug| == |motor| == |servo| == |erpm| == 8
      && (forall i :: 0 <= i < 4 ==> Fits16(rcCommand[i]) && Fits16(setpoint[i]))
    }
  }

  function Pick(xs: seq<bv32>, i: nat): bv32 { if i < |xs| then xs[i] else 0 }

  /** The value of a field in a state. */
  function At(s: MainState, f: Slot): bv32 {
    match f
    case LoopIteration => s.iteration
    case Time => s.time
    case AxisP(i) => Pick(s.axisP, i)
    case AxisI(i) => Pick(s.axisI, i)
    case AxisD(i) => Pick(s.axisD, i)
    case AxisF(i) => Pick(s.axisF, i)
    case AxisS(i) => Pick(s.axisS, i)
    case RcCommand(i) => Pick(s.rcCommand, i)
    case Setpoint(i) => Pick(s.setpoint, i)
    case Vbat => s.vbatLatest
    case Amperage => s.amperageLatest
    case MagAdc(i) => Pick(s.magADC, i)
    case BaroAlt => s.baroAlt
    case SurfaceRaw => s.surfaceRaw
    case Rssi => s.rssi
    case GyroAdc(i) => Pick(s.gyroADC, i)
    case GyroUnfilt(i) => Pick(s.gyroUnfilt, i)
    case AccSmooth(i) => Pick(s.accADC, i)
    case Quaternion(i) => Pick(s.quaternion, i)
    case Debug(i) => Pick(s.debug, i)
    case Motor(i) => Pick(s.motor, i)
    case Servo(i) => Pick(s.servo, i)
    case Erpm(i) => Pick(s.erpm, i)
  }

  // ---------------------------------------------------------------- conditions

  /** What decides whether a field is logged, and the constants the header gives the reader. */
  datatype Config = Config(
    pid: bool, nonzeroD: seq<bool>, wing: bool, nonzeroS: seq<bool>,
    rcCommands: bool, setpoint: bool, vbat: bool, amperage: bool, mag: bool, baro: bool, rangefinder: bool, rssi: bool,
    gyro: bool, gyroUnfilt: bool, acc: bool, attitude: bool, debug: bool,
    motorEnabled: bool, motorCount: nat, servos: bool, rpmEnabled: bool, dshotTelemetry: bool,
    vbatReference: bv32, motorLow: bv32, pInterval: bv32)
  {
    predicate Valid() { |nonzeroD| == |nonzeroS| == 3 && motorCount <= 8 }
  }

  datatype Condition =
    | Always | Pid | NonzeroD(i: nat) | WingS(i: nat) | RcCommands | SetpointOn | VbatOn | AmperageAdc | Mag | Baro
    | Rangefinder | RssiOn | Gyro | GyroUnfiltOn | Acc | Attitude | DebugLog
    | AtLeastMotors(n: nat) | MotorHasRpm(n: nat) | Servos

  /** `testBlackboxConditionUncached`. */
  predicate Test(c: Config, cond: Condition) {
    match cond
    case Always => true
    case Pid => c.pid
    case NonzeroD(i) => i < |c.nonzeroD| && c.nonzeroD[i] && c.pid
    case WingS(i) => c.wing && i < |c.nonzeroS| && c.nonzeroS[i] && c.pid
    case RcCommands => c.rcCommands
    case SetpointOn => c.setpoint
    case VbatOn => c.vbat
    case AmperageAdc => c.amperage
    case Mag => c.mag
    case Baro => c.baro
    case Rangefinder => c.rangefinder
    case RssiOn => c.rssi
    case Gyro => c.gyro
    case GyroUnfiltOn => c.gyroUnfilt
    case Acc => c.acc
    case Attitude => c.attitude
    case DebugLog => c.debug
    case AtLeastMotors(n) => c.motorCount >= n && c.motorEnabled
    case MotorHasRpm(n) => c.motorCount >= n && c.dshotTelemetry && c.rpmEnabled
    case Servos => c.servos
  }

  // ---------------------------------------------------------------- the table

  datatype Predictor = Zero | Previous | StraightLine | Average2 | MinMotor | Motor0 | Increment | Center1500 | VbatRef

  datatype Encoding = UnsignedVb | SignedVb | Neg14Bit | Tag8Svb | Tag2Of3 | Tag8Of4 | Null

  /** A row of `blackboxMainFields`. */
  datatype FieldDef = FieldDef(
    slot: Slot, iPredict: Predictor, iEncode: Encoding, pPredict: Predictor, pEncode: Encoding, condition: Condition)

  /** The arrays of the table. */
  datatype Array =
    | AxesP | AxesI | AxesD | AxesF | AxesS | RcCommands4 | Setpoint4 | Mag3 | Gyro3 | GyroUnfilt3 | Acc3 | Quaternion3
    | Debug8 | FirstMotor | OtherMotors | Servo8 | Erpm8

  /** The `i`-th row of an array. */
  function Row(a: Array, i: nat): FieldDef {
    match a
    case AxesP => FieldDef(AxisP(i), Zero, SignedVb, Previous, SignedVb, Pid)
    case AxesI => FieldDef(AxisI(i), Zero, SignedVb, Previous, Tag2Of3, Pid)
    case AxesD => FieldDef(AxisD(i), Zero, SignedVb, Previous, SignedVb, NonzeroD(i))
    case AxesF => FieldDef(AxisF(i), Zero, SignedVb, Previous, SignedVb, Pid)
    case AxesS => FieldDef(AxisS(i), Zero, SignedVb, Previous, SignedVb, WingS(i))
    case RcCommands4 => FieldDef(RcCommand(i), Zero, if i == 3 then UnsignedVb else SignedVb, Previous, Tag8Of4,
                                 RcCommands)
    case Setpoint4 => FieldDef(Setpoint(i), Zero, SignedVb, Previous, Tag8Of4, SetpointOn)
    case Mag3 => FieldDef(MagAdc(i), Zero, SignedVb, Previous, Tag8Svb, Mag)
    case Gyro3 => FieldDef(GyroAdc(i), Zero, SignedVb, Average2, SignedVb, Gyro)
    case GyroUnfilt3 => FieldDef(GyroUnfilt(i), Zero, SignedVb, Average2, SignedVb, GyroUnfiltOn)
    case Acc3 => FieldDef(AccSmooth(i), Zero, SignedVb, Average2, SignedVb, Acc)
    case Quaternion3 => FieldDef(Quaternion(i), Zero, SignedVb, Average2, SignedVb, Attitude)
    case Debug8 => FieldDef(Debug(i), Zero, SignedVb, Average2, SignedVb, DebugLog)
    case FirstMotor => FieldDef(Motor(0), MinMotor, UnsignedVb, Average2, SignedVb, AtLeastMotors(1))
    case OtherMotors => FieldDef(Motor(i + 1), Motor0, SignedVb, Average2, SignedVb, AtLeastMotors(i + 2))
    case Servo8 => FieldDef(Servo(i), Center1500, Tag8Svb, Previous, Tag8Svb, Servos)
    case Erpm8 => FieldDef(Erpm(i), Zero, UnsignedVb, Previous, SignedVb, MotorHasRpm(i + 1))
  }

  /** The first `n` rows of an array. */
  function Rows(a: Array, n: nat): seq<FieldDef> { if n == 0 then [] else Rows(a, n - 1) + [Row(a, n - 1)] }

  const ITERATION := FieldDef(LoopIteration, Zero, UnsignedVb, Increment, Null, Always)
  const TIME := FieldDef(Time, Zero, UnsignedVb, StraightLine, SignedVb, Always)
  const VBAT := FieldDef(Vbat, VbatRef, Neg14Bit, Previous, Tag8Svb, VbatOn)
  const AMPERAGE := FieldDef(Amperage, Zero, SignedVb, Previous, Tag8Svb, AmperageAdc)
  const BARO_ALT := FieldDef(BaroAlt, Zero, SignedVb, Previous, Tag8Svb, Baro)
  const SURFACE_RAW := FieldDef(SurfaceRaw, Zero, SignedVb, Previous, Tag8Svb, Rangefinder)
  const RSSI := FieldDef(Rssi, Zero, UnsignedVb, Previous, Tag8Svb, RssiOn)

  function TimeAndP(): seq<FieldDef> { [ITERATION, TIME] + Rows(AxesP, 3) }
  function RestOfPid(): seq<FieldDef> { Rows(AxesD, 3) + (Rows(AxesF, 3) + Rows(AxesS, 3)) }
  function Optional(): seq<FieldDef> { [VBAT, AMPERAGE] + (Rows(Mag3, 3) + [BARO_ALT, SURFACE_RAW, RSSI]) }
  function Noisy(): seq<FieldDef> {
    Rows(Gyro3, 3) + (Rows(GyroUnfilt3, 3) + (Rows(Acc3, 3) + (Rows(Quaternion3, 3) + Rows(Debug8, 8))))
  }

  /** Consecutive rows, and the group encoding they share in intra and in inter frames: `Null` when they are written one
      by one. */
  datatype Part = Part(rows: seq<FieldDef>, iGroup: Encoding, pGroup: Encoding)

  datatype Parts = End | Next(part: Part, more: Parts)

  function AllRows(parts: Parts): seq<FieldDef> { if parts.End? then [] else parts.part.rows + AllRows(parts.more) }

  /** `blackboxMainFields`, cut where the writers change their way of writing. */
  function Layout(): Parts { FrontThen(Tail()) }

  function FrontThen(tail: Parts): Parts {
    Next(Part(TimeAndP(), Null, Null),
    Next(Part(Rows(AxesI, 3), Null, Tag2Of3),
    Next(Part(RestOfPid(), Null, Null),
    Next(Part(Rows(RcCommands4, 4), Null, Tag8Of4),
    Next(Part(Rows(Setpoint4, 4), Null, Tag8Of4),
    Next(Part(Optional(), Null, Tag8Svb),
    Next(Part(Noisy(), Null, Null),
    tail)))))))
  }

  /** The motors and what follows them. */
  function Tail(): Parts {
    Next(Part(Rows(FirstMotor, 1), Null, Null), Next(Part(Rows(OtherMotors, 7), Null, Null), LastParts()))
  }

  function LastParts(): Parts {
    Next(Part(Rows(Servo8, 8), Tag8Svb, Tag8Svb), Next(Part(Rows(Erpm8, 8), Null, Null), End))
  }

  function Table(): seq<FieldDef> { AllRows(Layout()) }

  // ---------------------------------------------------------------- the fields of one kind of frame

  /** A field as one kind of frame carries it. */
  datatype Item = Item(slot: Slot, predict: Predictor, encode: Encoding)

  function ItemOf(d: FieldDef, intra: bool): Item {
    if intra then Item(d.slot, d.iPredict, d.iEncode) else Item(d.slot, d.pPredict, d.pEncode)
  }

  /** The rows whose condition holds. */
  function Select(c: Config, rows: seq<FieldDef>, intra: bool): seq<Item> {
    if rows == [] then []
    else (if Test(c, rows[0].condition) then [ItemOf(rows[0], intra)] else []) + Select(c, rows[1..], intra)
  }

  lemma {:induction false} RowsAre(a: Array, n: nat, d: FieldDef)
    requires d in Rows(a, n)
    ensures exists i: nat :: i < n && d == Row(a, i)
  {
    hide Row;
    if d in Rows(a, n - 1) { RowsAre(a, n - 1, d); } else { assert d == Row(a, n - 1); }
  }

  /** A field is among these. */
  predicate Has(items: seq<Item>, f: Slot) { items != [] && (items[0].slot == f || Has(items[1..], f)) }

  lemma {:induction false} SelectHas(c: Config, rows: seq<FieldDef>, intra: bool, d: FieldDef)
    requires d in rows && Test(c, d.condition)
    ensures Has(Select(c, rows, intra), d.slot)
  {
    hide Test;
    var more := Select(c, rows[1..], intra);
    if d != rows[0] { SelectHas(c, rows[1..], intra, d); }
    if Test(c, rows[0].condition) {
      assert ([ItemOf(rows[0], intra)] + more)[1..] == more;
    } else {
      assert Select(c, rows, intra) == more;
    }
  }

  lemma {:induction false} SelectAppend(c: Config, a: seq<FieldDef>, b: seq<FieldDef>, intra: bool)
    ensures Select(c, a + b, intra) == Select(c, a, intra) + Select(c, b, intra)
  {
    hide Test;
    if a == [] {
      assert a + b == b;
    } else {
      assert (a + b)[1..] == a[1..] + b;
      SelectAppend(c, a[1..], b, intra);
    }
  }

  lemma {:induction false} OtherMotorCount(c: Config, n: nat, intra: bool)
    requires n <= 7
    ensures |Select(c, Rows(OtherMotors, n), intra)|
         == if !c.motorEnabled || c.motorCount <= 1 then 0 else if c.motorCount <= n then c.motorCount - 1 else n
    decreases n
  {
    if n > 0 {
      OtherMotorCount(c, n - 1, intra);
      SelectAppend(c, Rows(OtherMotors, n - 1), [Row(OtherMotors, n - 1)], intra);
      SelectOne(c, Row(OtherMotors, n - 1), intra);
    }
  }

  lemma SelectOne(c: Config, d: FieldDef, intra: bool)
    ensures |Select(c, [d], intra)| == if Test(c, d.condition) then 1 else 0
  {
    hide Test;
    assert [d][1..] == [];
  }

  /** The table announces as many motors as are configured, at most eight, and none when they are not logged. */
  lemma MotorsAnnounced(c: Config, intra: bool)
    ensures |Select(c, Rows(FirstMotor, 1) + Rows(OtherMotors, 7), intra)|
         == if !c.motorEnabled then 0 else if c.motorCount <= 8 then c.motorCount else 8
  {
    OtherMotorCount(c, 7, intra);
    SelectAppend(c, Rows(FirstMotor, 1), Rows(OtherMotors, 7), intra);
    assert Rows(FirstMotor, 1) == [Row(FirstMotor, 0)];
    SelectOne(c, Row(FirstMotor, 0), intra);
  }

  // ---------------------------------------------------------------- the reader

  type Values = map<Slot, bv32>

  datatype Decoded = Bad | Frame(values: Values, rest: Bytes)

  function Look(h: Values, f: Slot): bv32 { if f in h then h[f] else 0 }

  /** `(prev1 + prev2) / 2` in C: the quotient is truncated toward zero. */
  function HalfSum(a: bv32, b: bv32): bv32 { HalfOf(Plus(a, b)) }

  function HalfOf(sum: bv32): bv32 {
    if sum < 0x8000_0000 then Shr1(sum) else Negate(Shr1(Negate(sum)))
  }

  function Shr1(x: bv32): bv32 { x >> 1 }

  function Negate(x: bv32): bv32 { 0 - x }

  function Twice(k: bv32): bv32 { k << 1 }

  function OneMore(k: bv32): bv32 { (k << 1) | 1 }

  /** `m` is twice `k`, or one more. */
  predicate TwiceOrOneMore(m: bv32, k: bv32) { k < 0x8000_0000 && (m == Twice(k) || m == OneMore(k)) }

  /** `half` is half of the two's complement number `sum` without its fraction: magnitudes are halved, and signs
      kept. */
  predicate Halves(sum: bv32, half: bv32) {
    if sum < 0x8000_0000 then TwiceOrOneMore(sum, half) else TwiceOrOneMore(0 - sum, 0 - half)
  }

  lemma ShiftUpFacts(k: bv32)
    ensures k < 0x8000_0000 ==> (k << 1) >> 1 == k && ((k << 1) | 1) >> 1 == k
  {
  }

  lemma ShiftDownFacts(m: bv32)
    ensures (m >> 1) < 0x8000_0000 && (m == (m >> 1) << 1 || m == ((m >> 1) << 1) | 1)
  {
  }

  lemma ShiftUp(k: bv32)
    requires k < 0x8000_0000
    ensures Shr1(Twice(k)) == k && Shr1(OneMore(k)) == k
  {
    ShiftUpFacts(k);
  }

  lemma ShiftDown(m: bv32)
    ensures Shr1(m) < 0x8000_0000 && (m == Twice(Shr1(m)) || m == OneMore(Shr1(m)))
  {
    ShiftDownFacts(m);
  }

  lemma ShiftHalves(m: bv32, k: bv32)
    ensures TwiceOrOneMore(m, k) <==> k == Shr1(m)
  {
    hide Shr1, Twice, OneMore;
    if k < 0x8000_0000 { ShiftUp(k); }
    ShiftDown(m);
  }

  lemma NegateFacts(x: bv32)
    ensures 0 - (0 - x) == x
  {
  }

  lemma NegateTwice(x: bv32)
    ensures Negate(Negate(x)) == x && Negate(x) == 0 - x
  {
    NegateFacts(x);
  }

  /** The prediction from two frames is the half of their sum, truncated toward zero, and no other number. */
  lemma HalfSumExactly(a: bv32, b: bv32, h: bv32)
    ensures h == HalfSum(a, b) <==> Halves(Plus(a, b), h)
  {
    hide Plus, TwiceOrOneMore, Shr1, Negate;
    var sum := Plus(a, b);
    ShiftHalves(sum, h);
    ShiftHalves(Negate(sum), Negate(h));
    NegateTwice(sum);
    NegateTwice(h);
    NegateTwice(Shr1(Negate(sum)));
  }

  lemma DoubledFacts(a: bv32)
    ensures a < 0x4000_0000 ==> a + a < 0x8000_0000 && a + a == a << 1
    ensures a >= 0xC000_0000 ==> a + a >= 0x8000_0000 && 0 - (a + a) == (0 - a) << 1 && 0 - a < 0x8000_0000
  {
  }

  lemma Doubled(a: bv32)
    ensures a < 0x4000_0000 ==> Plus(a, a) < 0x8000_0000 && Plus(a, a) == Twice(a)
    ensures a >= 0xC000_0000
            ==> Plus(a, a) >= 0x8000_0000 && 0 - Plus(a, a) == Twice(0 - a) && 0 - a < 0x8000_0000
  {
    DoubledFacts(a);
    PlusIs(a, a);
  }

  /** A field that stays what it is, with a magnitude below 2^30, is predicted exactly. */
  lemma SteadyAverage(a: bv32)
    requires a < 0x4000_0000 || a >= 0xC000_0000
    ensures HalfSum(a, a) == a
  {
    hide Plus, Twice, OneMore, HalfSum;
    Doubled(a);
    HalfSumExactly(a, a, a);
  }

  /** The prediction of a field from the last two frames and the fields already read in this one. */
  function Predict(c: Config, item: Item, h1: Values, h2: Values, now: Values): bv32 {
    match item.predict
    case Zero => 0
    case Previous => Look(h1, item.slot)
    case StraightLine => Minus(Plus(Look(h1, item.slot), Look(h1, item.slot)), Look(h2, item.slot))
    case Average2 => HalfSum(Look(h1, item.slot), Look(h2, item.slot))
    case MinMotor => c.motorLow
    case Motor0 => Look(now, Motor(0))
    case Increment => Plus(Look(h1, item.slot), c.pInterval)
    case Center1500 => 1500
    case VbatRef => c.vbatReference
  }

  /** A field is predicted to grow once more by what it grew last. */
  lemma SteadyGrowth(c: Config, item: Item, h1: Values, h2: Values, now: Values)
    requires item.predict == StraightLine
    ensures Predict(c, item, h1, h2, now)
         == Plus(Look(h1, item.slot), Minus(Look(h1, item.slot), Look(h2, item.slot)))
  {
    hide Plus, Minus;
    Beyond(Look(h1, item.slot), Look(h2, item.slot));
  }

  /** A field from its prediction and the number in the file. */
  function Correct(encode: Encoding, prediction: bv32, v: bv32): bv32 {
    match encode
    case Neg14Bit => Minus(prediction, Extend14(LowBits14(v)))
    case Tag8Of4 => Wrap16(Plus(prediction, v))
    case _ => Plus(prediction, v)
  }

  function RunLength(items: seq<Item>, limit: nat): nat {
    if limit == 0 || items == [] || items[0].encode != Tag8Svb then 0 else 1 + RunLength(items[1..], limit - 1)
  }

  /** How many fields are read together: a group has three or four, and consecutive `Tag8Svb` fields, at most eight,
      are one group. */
  function BlockSize(items: seq<Item>): (n: nat)
    requires items != []
    ensures 1 <= n
  {
    match items[0].encode
    case Tag2Of3 => 3
    case Tag8Of4 => 4
    case Tag8Svb => 1 + RunLength(items[1..], 7)
    case _ => 1
  }

  function One(r: ReadWord): ReadWords { match r case Short => ShortList case Got(v, rest) => GotList([v], rest) }

  function ReadBlock(encode: Encoding, n: nat, s: Bytes): ReadWords {
    match encode
    case UnsignedVb => One(ReadUnsigned(s))
    case Neg14Bit => One(ReadUnsigned(s))
    case SignedVb => One(ReadSigned(s))
    case Tag8Svb => ReadTag8_8SVB(s, n)
    case Tag2Of3 => ReadTag2_3S32(s)
    case Tag8Of4 => ReadTag8_4S16(s)
    case Null => GotList([0], s)
  }

  function Place(c: Config, items: seq<Item>, vs: seq<bv32>, h1: Values, h2: Values, now: Values): Values
    requires |vs| == |items|
  {
    if items == [] then now else
    var value := Correct(items[0].encode, Predict(c, items[0], h1, h2, now), vs[0]);
    Place(c, items[1..], vs[1..], h1, h2, now[items[0].slot := value])
  }

  /** Reads the fields of one frame: `h1` and `h2` are the last two frames, `now` what this one gave so far. */
  function Decode(c: Config, items: seq<Item>, s: Bytes, h1: Values, h2: Values, now: Values): Decoded
    decreases |items|
  {
    if items == [] then Frame(now, s) else
    var n := BlockSize(items);
    match ReadBlock(items[0].encode, n, s)
    case ShortList => Bad
    case GotList(vs, rest) =>
      if |vs| != n || |items| < n then Bad
      else Decode(c, items[n..], rest, h1, h2, Place(c, items[..n], vs, h1, h2, now))
  }
}
