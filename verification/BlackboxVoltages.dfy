/** Whole logs with any voltages: everything else is read back, and the voltage follows the last intra frame. */
module BlackboxVoltages {
  import opened Words
  import opened Outcomes
  import opened BlackboxEncoding
  import opened BlackboxFields
  import opened BlackboxFrames
  import opened BlackboxRoundTrip
  import opened BlackboxMainFrames
  import opened BlackboxReading
  import opened BlackboxLog
  import opened BlackboxExceptions
  import opened BlackboxSchedule
  import opened BlackboxLogger

  // ---------------------------------------------------------------- one frame

  /** The state with its voltage off by `e`, where voltages are logged. */
  function Shifted(c: Config, s: MainState, e: bv32): MainState {
    if c.vbat then s.(vbatLatest := Plus(s.vbatLatest, e)) else s
  }

  /** How far the voltage of an intra frame is off when it is read. */
  function ErrorOf(c: Config, s: MainState): bv32 { Minus(WrappedVoltage(c, s.vbatLatest), s.vbatLatest) }

  lemma MinusSelf(a: bv32, b: bv32)
    ensures Minus(a, b) == 0 <==> a == b
  {
    if Minus(a, b) == 0 {
      hide Plus, Minus;
      PlusMinus(b, a);
    }
  }

  lemma ErrorFacts(c: Config, s: MainState)
    ensures AsRead(c, s) == Shifted(c, s, ErrorOf(c, s))
    ensures c.vbat ==> (ErrorOf(c, s) == 0 <==> VoltageFits(c, s))
  {
    hide WrappedVoltage, Plus, Minus, Fits14;
    PlusMinus(s.vbatLatest, WrappedVoltage(c, s.vbatLatest));
    MinusSelf(WrappedVoltage(c, s.vbatLatest), s.vbatLatest);
    Wrapped(c, s.vbatLatest);
  }

  lemma ShiftedElsewhere(c: Config, s: MainState, e: bv32, f: Slot)
    ensures f != Vbat ==> At(Shifted(c, s, e), f) == At(s, f)
    ensures c.vbat ==> At(Shifted(c, s, e), Vbat) == Plus(s.vbatLatest, e)
    ensures At(s, Vbat) == s.vbatLatest
  {
    hide Plus;
  }

  lemma ShiftFacts(v: bv32, p: bv32, e: bv32)
    ensures (v + e) - (p + e) == v - p
    ensures v + e == v <==> e == 0
  {
  }

  lemma ShiftKeepsDifference(v: bv32, p: bv32, e: bv32)
    ensures Minus(Plus(v, e), Plus(p, e)) == Minus(v, p)
    ensures Plus(v, e) == v <==> e == 0
  {
    ShiftFacts(v, p, e);
  }

  /** The inter row of a voltage is its difference from the one before; no other row reads a voltage. */
  lemma ShiftedResidual(c: Config, d: FieldDef, s: MainState, p1: MainState, p2: MainState, e: bv32)
    requires TableRow(d, false) && (d.slot == Vbat ==> d == VBAT) && Test(c, d.condition)
    ensures Residual(c, ItemOf(d, false), Shifted(c, s, e), Shifted(c, p1, e), Shifted(c, p2, e))
         == Residual(c, ItemOf(d, false), s, p1, p2)
  {
    hide At, Shifted, Plus, Minus, HalfSum, Fits14;
    ShiftedElsewhere(c, s, e, d.slot);
    ShiftedElsewhere(c, p1, e, d.slot);
    ShiftedElsewhere(c, p2, e, d.slot);
    ShiftKeepsDifference(s.vbatLatest, p1.vbatLatest, e);
  }

  lemma VoltageRow(d: FieldDef)
    requires d in Table()
    ensures TableRow(d, false) && (d.slot == Vbat ==> d == VBAT)
  {
    hide AllRows, Layout, TableRow, Row;
    LayoutShape(true);
    LayoutShape(false);
    ShapedRows(Layout(), true, false, d);
    ShapedRows(Layout(), false, false, d);
    RowFacts(d);
  }

  /** An inter frame tells differences only: a history that is off throughout has the same bytes. */
  lemma SameInter(c: Config, s: MainState, p1: MainState, p2: MainState, e: bv32)
    ensures InterBody(c, Shifted(c, s, e), Shifted(c, p1, e), Shifted(c, p2, e)) == InterBody(c, s, p1, p2)
  {
    hide PutParts, Layout, Shifted, TableRow, AllRows, Residual, Test;
    forall d | d in Table() && Test(c, d.condition)
      ensures Residual(c, ItemOf(d, false), Shifted(c, s, e), Shifted(c, p1, e), Shifted(c, p2, e))
           == Residual(c, ItemOf(d, false), s, p1, p2)
    {
      VoltageRow(d);
      ShiftedResidual(c, d, s, p1, p2, e);
    }
    AlikeParts(c, Layout(), false, Shifted(c, s, e), Shifted(c, p1, e), Shifted(c, p2, e), s, p1, p2);
  }

  // ---------------------------------------------------------------- the log as it is read

  /** The state of the last intra frame at or before frame `i`. */
  function BaseOf(log: seq<Entry>, i: nat): MainState
    requires i < |log|
  {
    if log[i].Intra? || i == 0 then log[i].state else BaseOf(log, i - 1)
  }

  /** Frame `i` as it is read: its voltage is as far off as that of the last intra frame. */
  function ReadEntry(c: Config, log: seq<Entry>, i: nat): Entry
    requires i < |log|
  {
    var s := Shifted(c, log[i].state, ErrorOf(c, BaseOf(log, i)));
    if log[i].Intra? then Intra(s) else Inter(s)
  }

  function LogAsRead(c: Config, log: seq<Entry>): (r: seq<Entry>)
    ensures |r| == |log| && forall i :: 0 <= i < |log| ==> r[i] == ReadEntry(c, log, i)
  {
    seq(|log|, i requires 0 <= i < |log| => ReadEntry(c, log, i))
  }

  lemma {:induction false} BaseOfPrefix(log: seq<Entry>, n: nat, i: nat)
    requires i < n <= |log|
    ensures BaseOf(log[..n], i) == BaseOf(log, i)
  {
    if i > 0 { BaseOfPrefix(log, n, i - 1); }
  }

  lemma ReadPrefix(c: Config, log: seq<Entry>, n: nat)
    requires n <= |log|
    ensures LogAsRead(c, log)[..n] == LogAsRead(c, log[..n])
  {
    hide Shifted, ErrorOf;
    forall i | 0 <= i < n ensures ReadEntry(c, log, i) == ReadEntry(c, log[..n], i) { BaseOfPrefix(log, n, i); }
  }

  predicate StartsIntra(log: seq<Entry>) { log != [] ==> log[0].Intra? }

  /** The last two states of the history are off by the error of the last intra frame. */
  lemma ReadHistory(c: Config, log: seq<Entry>, p1: MainState, p2: MainState)
    requires StartsIntra(log) && log != []
    ensures (var e := ErrorOf(c, BaseOf(log, |log| - 1));
             Last(LogAsRead(c, log), p1) == Shifted(c, Last(log, p1), e)
             && LastButOne(LogAsRead(c, log), p1, p2) == Shifted(c, LastButOne(log, p1, p2), e))
  {
    hide Shifted, ErrorOf, LogAsRead, BaseOf, LastButOne, Last;
    var n, read := |log| - 1, LogAsRead(c, log);
    LastIs(log, p1);
    LastIs(read, p1);
    assert read[n] == ReadEntry(c, log, n);
    BaseStep(log, n);
    if log[n].Inter? {
      BeforeLast(log, p1, p2);
      BeforeLast(read, p1, p2);
      assert read[n - 1] == ReadEntry(c, log, n - 1);
    } else {
      IntraTwice(log, p1, p2);
      IntraTwice(read, p1, p2);
    }
  }

  lemma LastIs(log: seq<Entry>, p1: MainState)
    requires log != []
    ensures Last(log, p1) == log[|log| - 1].state
  {
  }

  lemma BaseStep(log: seq<Entry>, n: nat)
    requires n < |log| && log[0].Intra?
    ensures log[n].Intra? ==> BaseOf(log, n) == log[n].state
    ensures log[n].Inter? ==> n > 0 && BaseOf(log, n) == BaseOf(log, n - 1)
  {
  }

  lemma BeforeLast(log: seq<Entry>, p1: MainState, p2: MainState)
    requires |log| > 1 && log[|log| - 1].Inter?
    ensures LastButOne(log, p1, p2) == log[|log| - 2].state
  {
    assert log[..|log| - 1][|log| - 2] == log[|log| - 2];
  }

  lemma IntraTwice(log: seq<Entry>, p1: MainState, p2: MainState)
    requires log != [] && log[|log| - 1].Intra?
    ensures LastButOne(log, p1, p2) == log[|log| - 1].state
  {
  }

  lemma SameEntry(c: Config, log: seq<Entry>, p1: MainState, p2: MainState)
    requires c.Valid() && (c.motorEnabled ==> c.motorCount > 0) && StartsIntra(log) && log != []
    ensures (var n, read := |log| - 1, LogAsRead(c, log);
             EntryBytes(c, read[n], Last(read[..n], p1), LastButOne(read[..n], p1, p2))
             == EntryBytes(c, log[n], Last(log[..n], p1), LastButOne(log[..n], p1, p2)))
  {
    hide IntraBody, InterBody, Last, LastButOne, Shifted, ErrorOf, AsRead;
    var n := |log| - 1;
    ReadPrefix(c, log, n);
    if log[n].Intra? {
      ErrorFacts(c, log[n].state);
      SameIntra(c, log[n].state);
    } else {
      var before := log[..n];
      ReadHistory(c, before, p1, p2);
      BaseOfPrefix(log, n, n - 1);
      SameInter(c, log[n].state, Last(before, p1), LastButOne(before, p1, p2), ErrorOf(c, BaseOf(log, n)));
    }
  }

  lemma {:induction false} SameLog(c: Config, log: seq<Entry>, p1: MainState, p2: MainState)
    requires c.Valid() && (c.motorEnabled ==> c.motorCount > 0) && StartsIntra(log)
    ensures LogBytes(c, LogAsRead(c, log), p1, p2) == LogBytes(c, log, p1, p2)
    decreases |log|
  {
    hide EntryBytes, LogAsRead, Last, LastButOne, ReadEntry;
    if log != [] {
      var n := |log| - 1;
      SameLog(c, log[..n], p1, p2);
      ReadPrefix(c, log, n);
      SameEntry(c, log, p1, p2);
    }
  }

  // ---------------------------------------------------------------- the theorem

  /** The state before frame `i`. */
  function Previous(log: seq<Entry>, i: nat, previous: Option<MainState>): Option<MainState>
    requires i < |log|
  {
    if i == 0 then previous else Some(log[i - 1].state)
  }

  lemma {:induction false} LogOkAt(c: Config, log: seq<Entry>, previous: Option<MainState>)
    ensures LogOk(c, log, previous) <==> forall i :: 0 <= i < |log| ==> EntryOk(c, log[i], Previous(log, i, previous))
  {
    hide EntryOk;
    if log != [] {
      var more := log[1..];
      LogOkAt(c, more, Some(log[0].state));
      forall i | 0 <= i < |more| ensures Previous(more, i, Some(log[0].state)) == Previous(log, i + 1, previous) {}
      if forall i :: 0 <= i < |log| ==> EntryOk(c, log[i], Previous(log, i, previous)) {
        forall i | 0 <= i < |more| ensures EntryOk(c, more[i], Previous(more, i, Some(log[0].state))) {
          assert more[i] == log[i + 1] && EntryOk(c, log[i + 1], Previous(log, i + 1, previous));
        }
      }
      if LogOk(c, log, previous) {
        forall i | 0 <= i < |log| ensures EntryOk(c, log[i], Previous(log, i, previous)) {
          if i > 0 {
            assert log[i] == more[i - 1] && EntryOk(c, more[i - 1], Previous(more, i - 1, Some(log[0].state)));
          }
        }
      }
    }
  }

  /** The log starts with an intra frame and every inter frame comes one P interval after the frame before it; voltages
      may be what they are. */
  predicate InOrder(c: Config, log: seq<Entry>) { LogOk(c.(vbat := false), log, None) }

  lemma ShiftedOk(c: Config, s: MainState, e: bv32)
    requires s.Valid()
    ensures Shifted(c, s, e).Valid() && Shifted(c, s, e).iteration == s.iteration
  {
    hide Fits16, Plus;
  }

  lemma ReadEntryOk(c: Config, log: seq<Entry>, i: nat)
    requires i < |log| && log[i].state.Valid()
    requires EntryOk(c.(vbat := false), log[i], Previous(log, i, None))
    ensures EntryOk(c, ReadEntry(c, log, i), Previous(LogAsRead(c, log), i, None))
  {
    hide Shifted, ErrorOf, Plus, VoltageFits, AsRead;
    var s := log[i].state;
    ShiftedOk(c, s, ErrorOf(c, BaseOf(log, i)));
    if log[i].Intra? {
      AsReadFits(c, s);
      ErrorFacts(c, s);
    } else {
      assert LogAsRead(c, log)[i - 1] == ReadEntry(c, log, i - 1);
      IterationKept(c, log[i - 1].state, ErrorOf(c, BaseOf(log, i - 1)));
    }
  }

  lemma IterationKept(c: Config, s: MainState, e: bv32)
    ensures Shifted(c, s, e).iteration == s.iteration
  {
  }

  lemma ReadLogOk(c: Config, log: seq<Entry>)
    requires InOrder(c, log)
    ensures StartsIntra(log) && LogOk(c, LogAsRead(c, log), None)
  {
    hide EntryOk, ReadEntry, LogOk;
    var free := c.(vbat := false);
    LogOkAt(free, log, None);
    LogOkAt(c, LogAsRead(c, log), None);
    if log != [] { FirstIsIntra(free, log[0]); }
    forall i | 0 <= i < |log| ensures EntryOk(c, LogAsRead(c, log)[i], Previous(LogAsRead(c, log), i, None)) {
      EntryValid(free, log[i], Previous(log, i, None));
      ReadEntryOk(c, log, i);
    }
  }

  lemma FirstIsIntra(c: Config, e: Entry)
    requires EntryOk(c, e, None)
    ensures e.Intra?
  {
  }

  lemma EntryValid(c: Config, e: Entry, previous: Option<MainState>)
    requires EntryOk(c, e, previous)
    ensures e.state.Valid()
  {
  }

  /**
   * Any log in order is read to its end. Every field but the voltage is recovered in every frame, and the voltage of a
   * frame exactly when the voltage of the last intra frame fits its 14 bits.
   */
  lemma AnyLogReads(c: Config, log: seq<Entry>, p1: MainState, p2: MainState)
    requires Followed(c) && InOrder(c, log)
    ensures ReadLog(c, LogBytes(c, log, p1, p2), Nothing) == Some(FramesOf(c, LogAsRead(c, log)))
    ensures forall i, d :: 0 <= i < |log| && d in Table() && Test(c, d.condition) && d.slot != Vbat
                           ==> Tells(FramesOf(c, LogAsRead(c, log))[i], log[i].state, d.slot)
    ensures c.vbat ==> forall i :: 0 <= i < |log|
                           ==> (Tells(FramesOf(c, LogAsRead(c, log))[i], log[i].state, Vbat)
                                <==> VoltageFits(c, BaseOf(log, i)))
  {
    hide LogBytes, ReadLog, FramesOf, LogOk, Followed, FrameOf, Test, Table, Tells, VoltageFits, ReadEntry, StartsIntra,
      LogAsRead;
    ReadLogOk(c, log);
    FollowedMeans(c);
    SameLog(c, log, p1, p2);
    LogRoundTrip(c, LogAsRead(c, log), p1, p2);
    forall i, d | 0 <= i < |log| && d in Table() && Test(c, d.condition) && d.slot != Vbat
      ensures Tells(FramesOf(c, LogAsRead(c, log))[i], log[i].state, d.slot)
    {
      FramesAt(c, LogAsRead(c, log), i);
      FieldRead(c, log, i, d);
    }
    if c.vbat {
      forall i | 0 <= i < |log|
        ensures Tells(FramesOf(c, LogAsRead(c, log))[i], log[i].state, Vbat) <==> VoltageFits(c, BaseOf(log, i))
      {
        FramesAt(c, LogAsRead(c, log), i);
        VoltageRead(c, log, i);
      }
    }
  }

  lemma FollowedMeans(c: Config)
    requires Followed(c)
    ensures c.Valid() && (c.motorEnabled ==> c.motorCount > 0)
  {
  }

  lemma FieldRead(c: Config, log: seq<Entry>, i: nat, d: FieldDef)
    requires i < |log| && d in Table() && Test(c, d.condition) && d.slot != Vbat
    ensures Tells(FrameOf(c, LogAsRead(c, log)[i].state), log[i].state, d.slot)
  {
    hide Table, Test, FrameOf, Shifted, ErrorOf, At;
    FrameTells(c, LogAsRead(c, log)[i].state, d);
    ShiftedElsewhere(c, log[i].state, ErrorOf(c, BaseOf(log, i)), d.slot);
  }

  lemma VoltageRead(c: Config, log: seq<Entry>, i: nat)
    requires c.vbat && i < |log|
    ensures Tells(FrameOf(c, LogAsRead(c, log)[i].state), log[i].state, Vbat) <==> VoltageFits(c, BaseOf(log, i))
  {
    hide Table, FrameOf, Shifted, ErrorOf, At, Plus, VoltageFits, AsRead;
    var e := ErrorOf(c, BaseOf(log, i));
    VbatTold(c, LogAsRead(c, log)[i].state);
    ShiftedElsewhere(c, log[i].state, e, Vbat);
    ShiftKeepsDifference(log[i].state.vbatLatest, 0, e);
    ErrorFacts(c, BaseOf(log, i));
  }

  /** End to end with any voltages: whatever the logger wrote is read, and only voltages can be off, as said above. */
  lemma AnyWrittenReads(l: Logger)
    requires l.Valid() && Followed(l.c) && (forall k :: 0 <= k < |l.ticks| ==> l.ticks[k].state.Valid())
    ensures (var log := MainFrames(l.iInterval, l.pInterval, l.ticks);
             InOrder(l.c, log) && ReadLog(l.c, l.out.written, Nothing) == Some(FramesOf(l.c, LogAsRead(l.c, log))))
  {
    hide LogBytes, ReadLog, MainFrames, LogOk, Followed, Last, LastButOne, FramesOf, IntraDue;
    ScheduleOk(l.c.(vbat := false), l.iInterval, l.pInterval, l.ticks);
    AnyLogReads(l.c, l.log, l.garbage1, l.garbage2);
  }
}
