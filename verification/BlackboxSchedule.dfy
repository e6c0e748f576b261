/** Which iterations are logged and how: the modular schedule behind the counters of the firmware, with pauses. */
module BlackboxSchedule {
  import opened Words
  import opened Arithmetic
  import opened Outcomes
  import opened BlackboxFields
  import opened BlackboxFrames
  import opened BlackboxReading
  import opened BlackboxLog

  /** What one iteration brings: whether the logging switch is on, whether a pause is allowed, and the readings. */
  datatype Tick = Tick(active: bool, mayPause: bool, state: MainState)

  /** `n` increments of a 32-bit counter that starts at zero. */
  function Steps(n: nat): bv32 { if n == 0 then 0 else Plus(Steps(n - 1), 1) }

  lemma StepsNext(n: nat)
    ensures Steps(n + 1) == Plus(Steps(n), 1)
  {
    hide Plus;
  }

  lemma {:induction false} StepsAdd(a: nat, b: nat)
    ensures Steps(a + b) == Plus(Steps(a), Steps(b))
  {
    if b == 0 {
      PlusMinus(Steps(a), 0);
    } else {
      StepsAdd(a, b - 1);
      assert Steps(a + b) == Plus(Steps(a + b - 1), 1) && Steps(b) == Plus(Steps(b - 1), 1);
      hide Plus, Steps;
      PlusOne(Steps(a), Steps(b - 1));
    }
  }

  // ---------------------------------------------------------------- the schedule

  /** Whether logging is on after these iterations: it pauses when the switch goes off, and resumes only when an intra
      frame is due. */
  predicate Logging(i: nat, ticks: seq<Tick>)
    requires i > 0
  {
    if ticks == [] then true
    else
      var n := |ticks| - 1;
      if Logging(i, ticks[..n]) then ticks[n].active || !ticks[n].mayPause else ticks[n].active && n % i == 0
  }

  predicate IntraDue(i: nat, n: nat)
    requires i > 0
  {
    n % i == 0
  }

  predicate InterDue(i: nat, p: nat, n: nat)
    requires i > 0
  {
    n % i != 0 && p > 0 && (n % i) % p == 0
  }

  /** The readings of iteration `n`. */
  function Stamped(t: Tick, n: nat): MainState { t.state.(iteration := Steps(n)) }

  /** What is written in iteration `n` while logging. */
  function WrittenAt(i: nat, p: nat, t: Tick, n: nat): seq<Entry>
    requires i > 0
  {
    if IntraDue(i, n) then [Intra(Stamped(t, n))] else if InterDue(i, p, n) then [Inter(Stamped(t, n))] else []
  }

  /** The main frames of a run. */
  function MainFrames(i: nat, p: nat, ticks: seq<Tick>): seq<Entry>
    requires i > 0
  {
    if ticks == [] then []
    else
      var n := |ticks| - 1;
      MainFrames(i, p, ticks[..n]) + (if Logging(i, ticks) then WrittenAt(i, p, ticks[n], n) else [])
  }

  /** The position in the intra interval, and in the inter interval within it. */
  function Phase(i: nat, n: nat): (r: nat)
    requires i > 0
    ensures r < i
  {
    n % i
  }

  function PPhase(i: nat, p: nat, n: nat): (r: nat)
    requires i > 0
    ensures p > 0 ==> r < p
  {
    if p == 0 then 0 else (n % i) % p
  }

  /** The two counters advance without a division. */
  lemma CountersStep(i: nat, p: nat, n: nat)
    requires i > 0
    ensures Phase(i, n + 1) == if Phase(i, n) + 1 >= i then 0 else Phase(i, n) + 1
    ensures PPhase(i, p, n + 1)
         == if Phase(i, n) + 1 >= i || PPhase(i, p, n) + 1 >= p then 0 else PPhase(i, p, n) + 1
  {
    ModStep(n, i);
    if p > 0 {
      DivModIs(0, p, 0, 0);
      ModStep(n % i, p);
    }
  }

  // ---------------------------------------------------------------- every inter frame has its predecessor

  /** The iterations since the last frame, in the middle of an intra interval. */
  function Lag(i: nat, p: nat, n: nat): nat
    requires i > 0 && p > 0 && n % i != 0
  {
    (n % i - 1) % p + 1
  }

  lemma LagWithin(i: nat, p: nat, n: nat)
    requires i > 0 && p > 0 && n % i != 0
    ensures Lag(i, p, n) <= n && (InterDue(i, p, n) ==> Lag(i, p, n) == p)
  {
    ModStep(n % i - 1, p);
    ModBound(n % i - 1, p);
    ModBound(n, i);
  }

  lemma LagStep(i: nat, p: nat, n: nat)
    requires i > 0 && p > 0 && (n + 1) % i != 0
    ensures Lag(i, p, n + 1) == if IntraDue(i, n) || InterDue(i, p, n) then 1 else Lag(i, p, n) + 1
  {
    ModStep(n, i);
    if n % i == 0 {
      DivModIs(0, p, 0, 0);
    } else {
      ModStep(n % i - 1, p);
    }
  }

  /** In the middle of an intra interval, the last frame was written `Lag` iterations ago. */
  ghost predicate Following(i: nat, p: nat, ticks: seq<Tick>)
    requires i > 0
  {
    var n, log := |ticks|, MainFrames(i, p, ticks);
    Logging(i, ticks) && n % i != 0 && p > 0 ==>
      log != [] && Lag(i, p, n) <= n && log[|log| - 1].state.iteration == Steps(n - Lag(i, p, n))
  }

  lemma {:induction false} RunFollows(i: nat, p: nat, ticks: seq<Tick>)
    requires i > 0
    ensures Following(i, p, ticks)
  {
    if ticks != [] {
      var n := |ticks| - 1;
      var before := ticks[..n];
      RunFollows(i, p, before);
      ModStep(n, i);
      if Logging(i, ticks) && (n + 1) % i != 0 && p > 0 {
        LagStep(i, p, n);
        LagWithin(i, p, n + 1);
        hide Steps, Lag;
        if !IntraDue(i, n) && !InterDue(i, p, n) {
          assert Logging(i, before);
          assert MainFrames(i, p, ticks) == MainFrames(i, p, before) + [];
        }
      }
    } else {
      DivModIs(0, i, 0, 0);
    }
  }

  /** The readings of iteration `n`: where an intra frame is due their voltage has to fit. */
  predicate TickOk(c: Config, i: nat, t: Tick, n: nat)
    requires i > 0
  {
    t.state.Valid() && (IntraDue(i, n) ==> VoltageFits(c, t.state))
  }

  /** What is known before the next frame. */
  function LastOf(log: seq<Entry>): Option<MainState> { if log == [] then None else Some(log[|log| - 1].state) }

  lemma {:induction false} LogOkSnoc(c: Config, log: seq<Entry>, e: Entry, previous: Option<MainState>)
    requires LogOk(c, log, previous) && EntryOk(c, e, if log == [] then previous else LastOf(log))
    ensures LogOk(c, log + [e], previous)
  {
    hide EntryOk;
    if log == [] {
      assert log + [e] == [e] && [e][1..] == [];
    } else {
      assert (log + [e])[1..] == log[1..] + [e];
      LogOkSnoc(c, log[1..], e, Some(log[0].state));
    }
  }

  lemma StampedOk(c: Config, i: nat, t: Tick, n: nat)
    requires i > 0 && TickOk(c, i, t, n)
    ensures Stamped(t, n).Valid() && (IntraDue(i, n) ==> VoltageFits(c, Stamped(t, n)))
            && Stamped(t, n).iteration == Steps(n)
  {
    hide Fits16, Fits14, Minus, Steps;
  }

  /** Whatever is paused or resumed, the frames of a run can be read: it starts with an intra frame, and every inter
      frame comes exactly one P interval after the frame before it. */
  lemma {:induction false} ScheduleOk(c: Config, i: nat, p: nat, ticks: seq<Tick>)
    requires i > 0 && c.pInterval == Steps(p) && (forall k :: 0 <= k < |ticks| ==> TickOk(c, i, ticks[k], k))
    ensures LogOk(c, MainFrames(i, p, ticks), None)
  {
    hide TickOk, LogOk, Steps, Plus;
    if ticks == [] {
      EmptyLogOk(c);
    } else {
      var n := |ticks| - 1;
      var before := ticks[..n];
      var log := MainFrames(i, p, before);
      ScheduleOk(c, i, p, before);
      StampedOk(c, i, ticks[n], n);
      assert MainFrames(i, p, ticks) == log + (if Logging(i, ticks) then WrittenAt(i, p, ticks[n], n) else []);
      assert log + [] == log;
      if Logging(i, ticks) && !IntraDue(i, n) && InterDue(i, p, n) {
        assert Logging(i, before);
        hide MainFrames, Logging, VoltageFits;
        InterFollows(i, p, before);
        LogOkSnoc(c, log, Inter(Stamped(ticks[n], n)), None);
      } else if Logging(i, ticks) && IntraDue(i, n) {
        LogOkSnoc(c, log, Intra(Stamped(ticks[n], n)), None);
      }
    }
  }

  lemma EmptyLogOk(c: Config)
    ensures LogOk(c, [], None)
  {
  }

  /** An inter frame is due one P interval after the last frame. */
  lemma InterFollows(i: nat, p: nat, ticks: seq<Tick>)
    requires i > 0 && Logging(i, ticks) && InterDue(i, p, |ticks|)
    ensures var log := MainFrames(i, p, ticks);
            log != [] && Steps(|ticks|) == Plus(log[|log| - 1].state.iteration, Steps(p))
  {
    hide Steps, Plus, Lag, MainFrames, Logging;
    RunFollows(i, p, ticks);
    LagWithin(i, p, |ticks|);
    StepsAdd(|ticks| - p, p);
  }

  /** The first frame after a start or a resume is an intra frame. */
  lemma ResumesWithIntra(i: nat, p: nat, ticks: seq<Tick>)
    requires i > 0 && ticks != [] && Logging(i, ticks) && (|ticks| == 1 || !Logging(i, ticks[..|ticks| - 1]))
    ensures var n := |ticks| - 1;
            MainFrames(i, p, ticks) == MainFrames(i, p, ticks[..n]) + [Intra(Stamped(ticks[n], n))]
  {
    DivModIs(0, i, 0, 0);
  }
}
