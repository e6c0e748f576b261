/** Servos that directly follow an unfilled optional group are lost: the reader takes them into that group. */
module BlackboxRunOn {
  import opened Words
  import opened BlackboxEncoding
  import opened BlackboxFields
  import opened BlackboxFrames
  import opened BlackboxRoundTrip
  import opened BlackboxMainFrames
  import opened BlackboxReading
  import opened BlackboxExceptions

  // ---------------------------------------------------------------- up to the optional fields

  /** `stop` is some later stage of writing `parts`, and everything before it is read back. */
  predicate SizesFitTo(c: Config, parts: Parts, stop: Parts) {
    parts == stop || (parts.Next? && PartFits(c, parts.part, parts.more, false) && SizesFitTo(c, parts.more, stop))
  }

  lemma InterKnownMotor(c: Config, rows: seq<FieldDef>, group: Encoding, cur: MainState, now: Values)
    requires RowsShape(rows, false, group)
    ensures MotorKnown(c, rows, false, cur, now) && Fitting(rows, false, group)
  {
    KnownMotor(c, rows, false, group, cur, now);
  }

  lemma {:induction false} SkipTo(c: Config, parts: Parts, stop: Parts, after: bool, s: MainState, p1: MainState,
                                  p2: MainState, h1: Values, h2: Values, now: Values, rest: Bytes)
    returns (next: Values)
    requires PartsShape(parts, false, after) && SizesFitTo(c, parts, stop)
    requires RowsOk(c, AllRows(parts), false, s, p1, p2, h1, h2)
    ensures Decode(c, Select(c, AllRows(parts), false), PutParts(c, parts, false, s, p1, p2) + rest, h1, h2, now)
         == Decode(c, Select(c, AllRows(stop), false), PutParts(c, stop, false, s, p1, p2) + rest, h1, h2, next)
    decreases parts
  {
    if parts == stop {
      next := now;
    } else {
      var part, more := parts.part, parts.more;
      var items, later := Fields(c, part, false), Select(c, AllRows(more), false);
      var bytes, tail := PutPart(c, part, false, s, p1, p2), PutParts(c, more, false, s, p1, p2);
      assert PutParts(c, parts, false, s, p1, p2) == bytes + tail by { hide PutPart; }
      assert AllRows(parts) == part.rows + AllRows(more);
      hide AllRows, PutParts, PutPart, Select, Decode, AddAll, RowsOk, MotorKnown, Fitting, RowsShape, MotorRows, Row,
        GroupSize, Breaks;
      RowsOkSplit(c, part.rows, AllRows(more), false, s, p1, p2, h1, h2);
      SelectAppend(c, part.rows, AllRows(more), false);
      InterKnownMotor(c, part.rows, GroupOf(part, false), s, now);
      Regroup(bytes, tail, rest);
      DecodePart(c, part, later, false, s, p1, p2, h1, h2, now, tail + rest);
      next := SkipTo(c, more, stop, after || part.rows == [Row(FirstMotor, 0)], s, p1, p2, h1, h2,
                     AddAll(now, items, s), rest);
    }
  }

  function OptionalOn(): Parts { Next(Part(Optional(), Null, Tag8Svb), Next(Part(Noisy(), Null, Null), Tail())) }

  lemma ReachesOptional(c: Config)
    ensures SizesFitTo(c, Layout(), OptionalOn())
  {
    GroupCounts(c, false);
    var p1 := Layout().more;
    var p2 := p1.more;
    var p3 := p2.more;
    var p4 := p3.more;
    hide PartFits, Rows, TimeAndP, RestOfPid, Optional, Noisy, EnabledIn;
    SmallGroupFits(c, Rows(Setpoint4, 4), Tag8Of4, 4, OptionalOn(), false);
    SmallGroupFits(c, Rows(RcCommands4, 4), Tag8Of4, 4, p4, false);
    PlainFits(c, RestOfPid(), p3, false);
    SmallGroupFits(c, Rows(AxesI, 3), Tag2Of3, 3, p2, false);
    PlainFits(c, TimeAndP(), p1, false);
    assert SizesFitTo(c, p4, OptionalOn());
    assert SizesFitTo(c, p2, OptionalOn());
  }

  // ---------------------------------------------------------------- the optional fields

  /** Fields of one group that keep their last value. */
  predicate Steady(items: seq<Item>) {
    items == [] || (items[0].predict == Previous && items[0].encode == Tag8Svb && Steady(items[1..]))
  }

  lemma {:induction false} PlaceSteady(c: Config, items: seq<Item>, vs: seq<bv32>, h1: Values, h2: Values, now: Values,
                                       f: Slot)
    requires Steady(items) && |vs| == |items| && AllZero(vs)
    requires Has(items, f) || (f in now && now[f] == Look(h1, f))
    ensures var r := Place(c, items, vs, h1, h2, now); f in r && r[f] == Look(h1, f)
    decreases |items|
  {
    hide Look, Plus;
    if items != [] {
      var item := items[0];
      var value := Correct(item.encode, Predict(c, item, h1, h2, now), vs[0]);
      PlusMinus(Look(h1, item.slot), 0);
      assert value == Look(h1, item.slot);
      PlaceSteady(c, items[1..], vs[1..], h1, h2, now[item.slot := value], f);
    }
  }

  /** A field read earlier keeps its value. */
  lemma {:induction false} DecodeKeeps(c: Config, items: seq<Item>, s: Bytes, h1: Values, h2: Values, now: Values,
                                       f: Slot)
    requires f in now && !Has(items, f)
    ensures var d := Decode(c, items, s, h1, h2, now); d.Frame? ==> f in d.values && d.values[f] == now[f]
    decreases |items|
  {
    if items != [] {
      var n := BlockSize(items);
      var r := ReadBlock(items[0].encode, n, s);
      hide BlockSize, ReadBlock, Has;
      if r.GotList? && |r.values| == n && n <= |items| {
        HasSplit(items, n, f);
        PlaceKeeps(c, items[..n], r.values, h1, h2, now, f);
        hide Place;
        DecodeKeeps(c, items[n..], r.rest, h1, h2, Place(c, items[..n], r.values, h1, h2, now), f);
      }
    }
  }

  lemma {:induction false} HasSplit(items: seq<Item>, n: nat, f: Slot)
    requires n <= |items| && !Has(items, f)
    ensures !Has(items[..n], f) && !Has(items[n..], f)
  {
    if n > 0 {
      HasSplit(items[1..], n - 1, f);
      assert items[1..][..n - 1] == items[..n][1..] && items[1..][n - 1..] == items[n..];
    } else {
      assert items[0..] == items && items[..0] == [];
    }
  }

  lemma {:induction false} PlaceKeeps(c: Config, items: seq<Item>, vs: seq<bv32>, h1: Values, h2: Values, now: Values,
                                      f: Slot)
    requires |vs| == |items| && f in now && !Has(items, f)
    ensures var r := Place(c, items, vs, h1, h2, now); f in r && r[f] == now[f]
    decreases |items|
  {
    hide Correct, Predict;
    if items != [] {
      var value := Correct(items[0].encode, Predict(c, items[0], h1, h2, now), vs[0]);
      PlaceKeeps(c, items[1..], vs[1..], h1, h2, now[items[0].slot := value], f);
    }
  }

  function Zeros(n: nat): (r: seq<bv32>)
    ensures |r| == n && AllZero(r)
  {
    if n == 0 then [] else [0] + Zeros(n - 1)
  }

  lemma {:induction false} ReadNothingMarked(tail: Bytes, n: nat)
    ensures ReadMarked(tail, 0, n) == GotList(Zeros(n), tail)
    decreases n
  {
    if n > 0 {
      assert !LowBit(0) && ShiftOut(0) == 0;
      ReadNothingMarked(tail, n - 1);
    }
  }

  lemma ReadZeroByte(tail: Bytes)
    ensures ReadBlock(Tag8Svb, 8, [0] + tail) == GotList(Zeros(8), tail)
  {
    hide ReadMarked, Zeros;
    ReadNothingMarked(tail, 8);
    assert ([0] + tail)[1..] == tail;
  }

  lemma {:induction false} LongRun(items: seq<Item>, limit: nat)
    requires |items| >= limit && Steady(items[..limit])
    ensures RunLength(items, limit) == limit
  {
    if limit > 0 {
      assert items[..limit][1..] == items[1..][..limit - 1];
      LongRun(items[1..], limit - 1);
    }
  }

  /** Eight steady fields in front and a zero byte: all keep their last value. */
  lemma ReadSteady(c: Config, items: seq<Item>, tail: Bytes, h1: Values, h2: Values, now: Values, f: Slot)
    requires |items| >= 8 && Steady(items[..8]) && Has(items[..8], f) && !Has(items[8..], f)
    ensures var d := Decode(c, items, [0] + tail, h1, h2, now); d.Frame? ==> f in d.values && d.values[f] == Look(h1, f)
  {
    assert items[1..][..7] == items[..8][1..] && Steady(items[1..][..7]) && items[0].encode == Tag8Svb;
    hide Decode, Place, Steady, Has, RunLength, Zeros, AllZero, ReadBlock;
    LongRun(items[1..], 7);
    ReadZeroByte(tail);
    var next := Place(c, items[..8], Zeros(8), h1, h2, now);
    PlaceSteady(c, items[..8], Zeros(8), h1, h2, now, f);
    DecodeBlock(c, items, 8, [0] + tail, Zeros(8), tail, h1, h2, now);
    DecodeKeeps(c, items[8..], tail, h1, h2, next, f);
  }

  // ---------------------------------------------------------------- the fields of such a frame

  lemma {:induction false} SelectSteady(c: Config, rows: seq<FieldDef>)
    requires forall d :: d in rows ==> d.pPredict == Previous && d.pEncode == Tag8Svb
    ensures Steady(Select(c, rows, false))
  {
    hide Test;
    if rows != [] {
      assert rows[0] in rows;
      SelectSteady(c, rows[1..]);
      SelectStep(c, rows, false);
    }
  }

  lemma OptionalSteady(d: FieldDef)
    requires d in Optional()
    ensures d.pPredict == Previous && d.pEncode == Tag8Svb
    ensures d.slot in {Vbat, Amperage, BaroAlt, SurfaceRaw, Rssi} || d.slot.MagAdc?
  {
    hide Rows;
    if d in Rows(Mag3, 3) { RowsAre(Mag3, 3, d); }
  }

  lemma {:induction false} SteadyAppend(a: seq<Item>, b: seq<Item>)
    requires Steady(a) && Steady(b)
    ensures Steady(a + b)
  {
    if a == [] {
      assert a + b == b;
    } else {
      assert (a + b)[1..] == a[1..] + b;
      SteadyAppend(a[1..], b);
    }
  }

  lemma {:induction false} SteadyPrefix(a: seq<Item>, n: nat)
    requires Steady(a) && n <= |a|
    ensures Steady(a[..n])
  {
    if n > 0 {
      SteadyPrefix(a[1..], n - 1);
      assert a[..n][1..] == a[1..][..n - 1];
    }
  }

  lemma {:induction false} HasAt(items: seq<Item>, i: nat)
    requires i < |items|
    ensures Has(items, items[i].slot)
  {
    if i > 0 { HasAt(items[1..], i - 1); }
  }

  lemma {:induction false} HasNot(items: seq<Item>, f: Slot)
    requires forall i :: 0 <= i < |items| ==> items[i].slot != f
    ensures !Has(items, f)
  {
    if items != [] { HasNot(items[1..], f); }
  }

  lemma RowItems(i: nat)
    ensures Steady([ItemOf(Row(Servo8, i), false)]) && Row(Servo8, i).slot == Servo(i)
            && Row(Servo8, i).condition == Servos
    ensures Row(Erpm8, i).slot.Erpm?
  {
    assert [ItemOf(Row(Servo8, i), false)][1..] == [];
  }

  lemma {:induction false} ServoItems(c: Config, n: nat)
    requires c.servos
    ensures var items := Select(c, Rows(Servo8, n), false);
      |items| == n && Steady(items) && forall i: nat :: i < n ==> items[i].slot == Servo(i)
  {
    hide Row, Steady, Select;
    if n == 0 {
      EmptySelect(c, false);
      SelectSteady(c, []);
    } else {
      var d := Row(Servo8, n - 1);
      RowItems(n - 1);
      ServoItems(c, n - 1);
      SelectAppend(c, Rows(Servo8, n - 1), [d], false);
      OneItem(c, d);
      SteadyAppend(Select(c, Rows(Servo8, n - 1), false), [ItemOf(d, false)]);
    }
  }

  lemma OneItem(c: Config, d: FieldDef)
    ensures Select(c, [d], false) == if Test(c, d.condition) then [ItemOf(d, false)] else []
  {
    hide Test;
    assert [d][1..] == [];
    EmptySelect(c, false);
  }

  predicate Erpms(items: seq<Item>) { forall i: nat :: i < |items| ==> items[i].slot.Erpm? }

  lemma ErpmsAppend(a: seq<Item>, b: seq<Item>)
    requires Erpms(a) && Erpms(b)
    ensures Erpms(a + b)
  {
    forall i: nat | i < |a + b| ensures (a + b)[i].slot.Erpm? {
      if i < |a| { assert (a + b)[i] == a[i]; } else { assert (a + b)[i] == b[i - |a|]; }
    }
  }

  lemma OneErpm(c: Config, i: nat)
    ensures Erpms(Select(c, [Row(Erpm8, i)], false))
  {
    hide Select, Test;
    OneItem(c, Row(Erpm8, i));
  }

  lemma {:induction false} ErpmItems(c: Config, n: nat)
    ensures Erpms(Select(c, Rows(Erpm8, n), false))
  {
    hide Row, Select, Erpms;
    if n == 0 {
      EmptySelect(c, false);
      NoErpms();
    } else {
      ErpmItems(c, n - 1);
      OneErpm(c, n - 1);
      SelectAppend(c, Rows(Erpm8, n - 1), [Row(Erpm8, n - 1)], false);
      ErpmsAppend(Select(c, Rows(Erpm8, n - 1), false), Select(c, [Row(Erpm8, n - 1)], false));
    }
  }

  lemma NoErpms()
    ensures Erpms([])
  {
  }

  lemma NothingBetween(c: Config)
    requires ServosRunOn(c)
    ensures Select(c, Noisy(), false) == Select(c, Rows(FirstMotor, 1), false)
            == Select(c, Rows(OtherMotors, 7), false) == []
  {
    hide Noisy, Rows, Select, OptionalCount;
    NoisyCount(c, false);
    FirstMotorCount(c, false);
    MotorsEnabled(c, 7, false);
  }

  lemma SelectChain(c: Config, part: Part, more: Parts)
    ensures Select(c, AllRows(Next(part, more)), false) == Select(c, part.rows, false) + Select(c, AllRows(more), false)
  {
    hide Select;
    SelectAppend(c, part.rows, AllRows(more), false);
  }

  /** The fields from the optional ones on: those, the servos and the motors' speeds. */
  lemma RunOnItems(c: Config)
    requires ServosRunOn(c)
    ensures Select(c, AllRows(OptionalOn()), false)
         == Select(c, Optional(), false) + (Select(c, Rows(Servo8, 8), false) + Select(c, Rows(Erpm8, 8), false))
  {
    var p, noisy := OptionalOn(), OptionalOn().more;
    assert AllRows(End) == [];
    hide Select, AllRows, Noisy, Rows, Optional;
    NothingBetween(c);
    EmptySelect(c, false);
    SelectChain(c, p.part, noisy);
    SelectChain(c, noisy.part, noisy.more);
    SelectChain(c, Tail().part, Tail().more);
    SelectChain(c, Tail().more.part, LastParts());
    SelectChain(c, LastParts().part, LastParts().more);
    SelectChain(c, LastParts().more.part, End);
    LeftEmpty(Select(c, AllRows(LastParts()), false));
    RightEmpty(Select(c, Rows(Erpm8, 8), false));
  }

  lemma LeftEmpty(items: seq<Item>)
    ensures [] + items == items
  {
  }

  lemma RightEmpty(items: seq<Item>)
    ensures items + [] == items
  {
  }

  /** The first eight of them keep their last value, and the first servo is one. */
  lemma RunOnFields(c: Config)
    requires ServosRunOn(c)
    ensures var items := Select(c, AllRows(OptionalOn()), false);
      |items| >= 8 && Steady(items[..8]) && Has(items[..8], Servo(0)) && !Has(items[8..], Servo(0))
  {
    var opt, servos, speeds :=
        Select(c, Optional(), false), Select(c, Rows(Servo8, 8), false), Select(c, Rows(Erpm8, 8), false);
    forall d | d in Optional() ensures d.pPredict == Previous && d.pEncode == Tag8Svb { OptionalSteady(d); }
    SelectSteady(c, Optional());
    OptionalGroup(c, false);
    RunOnItems(c);
    ServoItems(c, 8);
    ErpmItems(c, 8);
    FirstEight(opt, servos, speeds);
  }

  lemma FirstEight(opt: seq<Item>, servos: seq<Item>, speeds: seq<Item>)
    requires 0 < |opt| < 8 && Steady(opt) && |servos| == 8 && Steady(servos)
    requires forall i: nat :: i < 8 ==> servos[i].slot == Servo(i)
    requires forall i: nat :: i < |speeds| ==> speeds[i].slot.Erpm?
    ensures var items := opt + (servos + speeds);
      |items| >= 8 && Steady(items[..8]) && Has(items[..8], Servo(0)) && !Has(items[8..], Servo(0))
  {
    hide Steady, Has;
    var items := opt + (servos + speeds);
    SteadyAppend(opt, servos);
    assert items[..8] == (opt + servos)[..8];
    SteadyPrefix(opt + servos, 8);
    assert items[..8][|opt|].slot == Servo(0);
    HasAt(items[..8], |opt|);
    forall i | 0 <= i < |items[8..]| ensures items[8..][i].slot != Servo(0) {
      var j := i + 8 - |opt|;
      assert items[8..][i] == (servos + speeds)[j];
      if j >= 8 { assert (servos + speeds)[j] == speeds[j - 8]; }
    }
    HasNot(items[8..], Servo(0));
  }

  // ---------------------------------------------------------------- a state that is lost

  /** One interval later only the first servo has moved. */
  function Moved(c: Config): MainState {
    Idle(c).(iteration := Plus(0, c.pInterval), servo := [1501] + Repeat(1500, 7))
  }

  lemma MovedFacts(c: Config)
    ensures Moved(c).Valid() && Moved(c).iteration == Plus(Idle(c).iteration, c.pInterval)
    ensures At(Moved(c), Servo(0)) == 1501
  {
    hide Repeat, Fits16, Fits14, Minus, Plus;
    IdleValid(c);
  }

  lemma MovedElsewhere(c: Config, f: Slot)
    requires f in {Vbat, Amperage, BaroAlt, SurfaceRaw, Rssi} || f.MagAdc?
    ensures At(Moved(c), f) == At(Idle(c), f)
  {
    hide Repeat;
  }

  lemma SteadyResidual(c: Config, d: FieldDef)
    requires d in Optional()
    ensures Residual(c, ItemOf(d, false), Moved(c), Idle(c), Idle(c)) == 0
  {
    OptionalSteady(d);
    MovedElsewhere(c, d.slot);
    hide At, Moved, Idle, Optional, Minus;
    SelfDifference(At(Idle(c), d.slot));
  }

  lemma {:induction false} ZeroResiduals(c: Config, rows: seq<FieldDef>, s: MainState, p: MainState)
    requires forall d :: d in rows ==> Residual(c, ItemOf(d, false), s, p, p) == 0
    ensures AllZero(Residuals(c, Select(c, rows, false), s, p, p))
  {
    hide Test, Residual;
    if rows != [] {
      assert rows[0] in rows;
      ZeroResiduals(c, rows[1..], s, p);
      SelectStep(c, rows, false);
    }
  }

  lemma OptionalBytes(c: Config)
    requires ServosRunOn(c)
    ensures PutPart(c, OptionalOn().part, false, Moved(c), Idle(c), Idle(c)) == [0]
  {
    hide Moved, Idle, Residual, PackGroup, Optional, Select, AllZero, Residuals;
    forall d | d in Optional()
      ensures Residual(c, ItemOf(d, false), Moved(c), Idle(c), Idle(c)) == 0
    {
      SteadyResidual(c, d);
    }
    ZeroResiduals(c, Optional(), Moved(c), Idle(c));
    OptionalGroup(c, false);
    ZeroGroup(Residuals(c, Select(c, Optional(), false), Moved(c), Idle(c), Idle(c)));
  }

  function ReadInterFrame(c: Config, s: MainState, p1: MainState, p2: MainState, rest: Bytes): Decoded {
    Decode(c, Select(c, Table(), false), InterBody(c, s, p1, p2) + rest, FrameOf(c, p1), FrameOf(c, p2), map[])
  }

  lemma FirstServoTold(c: Config, s: MainState)
    requires c.servos
    ensures Tells(FrameOf(c, s), s, Servo(0))
  {
    hide FrameOf, At, Table;
    ServoInTable();
    FrameTells(c, s, Row(Servo8, 0));
  }

  lemma {:induction false} FirstRow(a: Array, n: nat)
    requires n > 0
    ensures Row(a, 0) in Rows(a, n)
  {
    if n > 1 { FirstRow(a, n - 1); }
  }

  lemma ServoInTable()
    ensures Row(Servo8, 0) in Table()
  {
    hide AllRows, Row, Rows, TimeAndP, RestOfPid, Optional, Noisy;
    var d := Row(Servo8, 0);
    FirstRow(Servo8, 8);
    InPart(LastParts(), d);
    InRest(Tail().more, d);
    InRest(Tail(), d);
    InRest(OptionalOn().more, d);
    InRest(OptionalOn(), d);
    InRest(Layout().more.more.more.more, d);
    InRest(Layout().more.more.more, d);
    InRest(Layout().more.more, d);
    InRest(Layout().more, d);
    InRest(Layout(), d);
  }

  lemma InPart(parts: Parts, d: FieldDef)
    requires parts.Next? && d in parts.part.rows
    ensures d in AllRows(parts)
  {
  }

  lemma ServosLost(c: Config, rest: Bytes)
    requires c.Valid() && ServosRunOn(c)
    ensures ReadInterFrame(c, Moved(c), Idle(c), Idle(c), rest) != Frame(FrameOf(c, Moved(c)), rest)
  {
    hide FrameOf, Moved, Idle, At, Decode, Select, PutParts, AllRows, PutPart, OptionalOn, SizesFitTo, PartsShape,
      RowOk, Steady, Has, Layout, Test, OptionalCount, NoisyOn;
    var s, p, h := Moved(c), Idle(c), FrameOf(c, Idle(c));
    assert c.servos;
    InterRowsOk(c);
    LayoutShape(false);
    ReachesOptional(c);
    var now := SkipTo(c, Layout(), OptionalOn(), false, s, p, p, h, h, map[], rest);
    var tail := OptionalFirst(c, rest);
    RunOnFields(c);
    ReadSteady(c, Select(c, AllRows(OptionalOn()), false), tail, h, h, now, Servo(0));
    FirstServoTold(c, p);
    FirstServoTold(c, s);
    IdleServo(c, 0);
    MovedFacts(c);
  }

  lemma InterRowsOk(c: Config)
    ensures RowsOk(c, AllRows(Layout()), false, Moved(c), Idle(c), Idle(c), FrameOf(c, Idle(c)), FrameOf(c, Idle(c)))
  {
    hide AllRows, Test, RowOk, PartsShape, FrameOf, Tells, TableRow, Idle, Moved, Layout;
    var h := FrameOf(c, Idle(c));
    forall d | d in Table() && Test(c, d.condition) ensures RowOk(c, d, false, Moved(c), Idle(c), Idle(c), h, h) {
      LayoutShape(false);
      ShapedRows(Layout(), false, false, d);
      FrameTells(c, Idle(c), d);
      MovedFacts(c);
      InterRowOk(c, d, Moved(c), Idle(c), Idle(c), h, h);
    }
  }

  lemma OptionalFirst(c: Config, rest: Bytes) returns (tail: Bytes)
    requires ServosRunOn(c)
    ensures PutParts(c, OptionalOn(), false, Moved(c), Idle(c), Idle(c)) + rest == [0] + tail
  {
    hide Moved, Idle, PutPart, PutParts, ServosRunOn, Optional, Noisy, Tail;
    var s, p := Moved(c), Idle(c);
    var later := PutParts(c, OptionalOn().more, false, s, p, p);
    OptionalBytes(c);
    PutPartsHead(c, OptionalOn(), s, p);
    tail := later + rest;
    Regroup([0], later, rest);
  }

  lemma PutPartsHead(c: Config, parts: Parts, s: MainState, p: MainState)
    requires parts.Next?
    ensures PutParts(c, parts, false, s, p, p)
            == PutPart(c, parts.part, false, s, p, p) + PutParts(c, parts.more, false, s, p, p)
  {
    hide PutPart;
  }

  /** Every inter frame of a state one interval after the last is read back, given that the last two were. */
  ghost predicate IntersFollowed(c: Config) {
    forall s: MainState, p1: MainState, p2: MainState, rest ::
      s.Valid() && s.iteration == Plus(p1.iteration, c.pInterval)
      ==> ReadInterFrame(c, s, p1, p2, rest) == Frame(FrameOf(c, s), rest)
  }

  /** That is so unless the servos run on. */
  lemma InterExactly(c: Config)
    requires c.Valid()
    ensures IntersFollowed(c) <==> !ServosRunOn(c)
  {
    hide InterBody, FrameOf, Decode, Select, Table, ServosRunOn, Moved, Idle, Plus;
    if ServosRunOn(c) {
      MovedFacts(c);
      ServosLost(c, []);
      assert ReadInterFrame(c, Moved(c), Idle(c), Idle(c), []) != Frame(FrameOf(c, Moved(c)), []);
    } else {
      forall s: MainState, p1: MainState, p2: MainState, rest
        | s.Valid() && s.iteration == Plus(p1.iteration, c.pInterval)
        ensures ReadInterFrame(c, s, p1, p2, rest) == Frame(FrameOf(c, s), rest)
      {
        InterRoundTrip(c, s, p1, p2, rest);
      }
    }
  }
}
