/** The logger: a ring of three states, counters instead of divisions, and the frame writers. */
module BlackboxLogger {
  import opened Words
  import opened Arithmetic
  import opened Outcomes
  import opened BlackboxStream
  import opened BlackboxFields
  import opened BlackboxFrames
  import opened BlackboxRoundTrip
  import opened BlackboxMainFrames
  import opened BlackboxReading
  import opened BlackboxLog
  import opened BlackboxSchedule
  import opened BlackboxWriters
  import opened BlackboxInterWriter

  function NextSlot(slot: nat): nat { (slot + 1) % 3 }

  lemma NextSlots(slot: nat)
    requires slot < 3
    ensures var a := NextSlot(slot); a < 3 && NextSlot(a) < 3 && slot != a && slot != NextSlot(a) && a != NextSlot(a)
    ensures NextSlot(NextSlot(NextSlot(slot))) == slot
  {
  }

  /** Before the first iteration. */
  lemma NothingYet(c: Config, i: nat, p: nat, p1: MainState, p2: MainState)
    requires i > 0
    ensures Steps(0) == 0 && Phase(i, 0) == 0 && PPhase(i, p, 0) == 0 && Logging(i, []) && MainFrames(i, p, []) == []
    ensures LogBytes(c, [], p1, p2) == [] && Last([], p1) == p1 && LastButOne([], p1, p2) == p2
  {
    DivModIs(0, i, 0, 0);
    if p > 0 { DivModIs(0, p, 0, 0); }
  }

  class Logger {
    const c: Config
    /** `blackboxIInterval` and `blackboxPInterval`; a P interval of zero means intra frames only. */
    const iInterval: nat
    const pInterval: nat
    const out: LogStream
    const ring: array<MainState>

    /** The slots `blackboxHistory[0]`, `[1]` and `[2]` point to. */
    var current: nat
    var last: nat
    var lastButOne: nat

    var iteration: bv32
    var loopIndex: nat
    var pFrameIndex: nat
    var running: bool

    ghost var ticks: seq<Tick>
    ghost var log: seq<Entry>
    ghost const garbage1: MainState
    ghost const garbage2: MainState

    /** What never changes. */
    ghost predicate Fixed() {
      c.Valid() && 0 < iInterval < 0x8000 && pInterval < 0x80 && c.pInterval == Steps(pInterval) && ring.Length == 3
    }

    /** The ring holds the last two logged states, and the slot to be filled next is neither of them. */
    ghost predicate RingValid()
      requires ring.Length == 3
      reads `current, `last, `lastButOne, `log, ring
    {
      && current < 3 && last < 3 && lastButOne < 3
      && current != last && current != lastButOne
      && (log != [] ==> current == NextSlot(last) && (lastButOne == last || lastButOne == NextSlot(current)))
      && ring[last] == Last(log, garbage1) && ring[lastButOne] == LastButOne(log, garbage1, garbage2)
      && (log != [] ==> ring[last].Valid() && ring[lastButOne].Valid())
    }

    /** The counters are the iteration count modulo the intervals, and never leave 16 bits. */
    ghost predicate CountersValid()
      requires iInterval > 0
      reads `iteration, `loopIndex, `pFrameIndex, `running, `ticks
    {
      && iteration == Steps(|ticks|)
      && loopIndex == Phase(iInterval, |ticks|) < 0x8000
      && pFrameIndex == PPhase(iInterval, pInterval, |ticks|) < 0x80
      && running == Logging(iInterval, ticks)
    }

    /** What has been written is the frames of the schedule. */
    ghost predicate Valid()
      reads this, ring, out
    {
      && Fixed() && RingValid() && CountersValid()
      && log == MainFrames(iInterval, pInterval, ticks)
      && out.written == LogBytes(c, log, garbage1, garbage2)
    }

    /** `blackboxStart`, up to the first iteration in the running state. The contents of the ring do not matter. */
    constructor (config: Config, i: nat, p: nat, r0: MainState, r1: MainState, r2: MainState)
      requires config.Valid() && 0 < i < 0x8000 && p < 0x80 && config.pInterval == Steps(p)
      ensures Valid() && fresh(ring) && fresh(out) && c == config && iInterval == i && pInterval == p && ticks == []
    {
      hide LogBytes, MainFrames, Phase, PPhase, Logging, Last, LastButOne, Steps;
      c := config;
      iInterval := i;
      pInterval := p;
      out := new LogStream();
      ring := new MainState[] [r0, r1, r2];
      current, last, lastButOne := 0, 1, 2;
      iteration, loopIndex, pFrameIndex, running := 0, 0, 0, true;
      ticks, log := [], [];
      garbage1, garbage2 := r1, r2;
      new;
      NothingYet(config, i, p, r1, r2);
    }

    /** `writeIntraframe` */
    method WriteIntraframe()
      requires Fixed() && RingValid() && ring[current].Valid()
      requires out.written == LogBytes(c, log, garbage1, garbage2)
      modifies this`current, this`last, this`lastButOne, this`log, out
      ensures Fixed() && RingValid()
      ensures log == old(log) + [Intra(old(ring[current]))]
      ensures out.written == LogBytes(c, log, garbage1, garbage2)
    {
      hide IntraBody, LogBytes, NextSlot;
      NextSlots(current);
      ghost var s, before := ring[current], log;
      LogBytesIntra(c, log, s, garbage1, garbage2);
      out.WriteByte(INTRA_MARK);
      WriteIntraFields(out, c, ring[current]);
      last := current;
      lastButOne := current;
      current := NextSlot(current);
      log := log + [Intra(s)];
      assert log[..|log| - 1] == before;
    }

    /** `writeInterframe` */
    method WriteInterframe()
      requires Fixed() && RingValid() && ring[current].Valid() && log != []
      requires out.written == LogBytes(c, log, garbage1, garbage2)
      modifies this`current, this`last, this`lastButOne, this`log, out
      ensures Fixed() && RingValid()
      ensures log == old(log) + [Inter(old(ring[current]))]
      ensures out.written == LogBytes(c, log, garbage1, garbage2)
    {
      hide InterBody, LogBytes, NextSlot;
      NextSlots(current);
      NextSlots(last);
      ghost var s, before := ring[current], log;
      LogBytesInter(c, log, s, garbage1, garbage2);
      out.WriteByte(INTER_MARK);
      WriteInterFields(out, c, ring[current], ring[last], ring[lastButOne]);
      lastButOne := last;
      last := current;
      current := NextSlot(current);
      log := log + [Inter(s)];
      assert log[..|log| - 1] == before;
    }

    /** `blackboxShouldLogIFrame` */
    method ShouldLogIFrame() returns (due: bool)
      requires Fixed() && CountersValid()
      ensures due == IntraDue(iInterval, |ticks|)
    {
      due := loopIndex == 0;
    }

    /** `blackboxShouldLogPFrame`, asked when no intra frame is due. */
    method ShouldLogPFrame() returns (due: bool)
      requires Fixed() && CountersValid() && !IntraDue(iInterval, |ticks|)
      ensures due == InterDue(iInterval, pInterval, |ticks|)
    {
      due := pFrameIndex == 0 && pInterval != 0;
    }

    /** `loadMainState`: the readings go into the free slot. */
    method LoadMainState(reading: MainState)
      requires Fixed() && RingValid() && reading.Valid()
      modifies ring
      ensures RingValid() && ring[current] == reading.(iteration := iteration) && ring[current].Valid()
    {
      hide Last, LastButOne;
      ring[current] := reading.(iteration := iteration);
    }

    lemma IterationIs()
      requires iInterval > 0 && CountersValid()
      ensures iteration == Steps(|ticks|) && running == Logging(iInterval, ticks)
      ensures loopIndex == Phase(iInterval, |ticks|) && pFrameIndex == PPhase(iInterval, pInterval, |ticks|)
    {
      hide Steps, Phase, PPhase, Logging;
    }

    /** `blackboxLogIteration`, for the main frames. */
    method LogIteration(reading: MainState, ghost t: Tick)
      requires Fixed() && RingValid() && CountersValid() && reading.Valid() && t.state == reading
      requires log == MainFrames(iInterval, pInterval, ticks) && out.written == LogBytes(c, log, garbage1, garbage2)
      requires IntraDue(iInterval, |ticks|) || Logging(iInterval, ticks)
      modifies this`current, this`last, this`lastButOne, this`log, ring, out
      ensures Fixed() && RingValid() && CountersValid()
      ensures log == old(log) + WrittenAt(iInterval, pInterval, t, |ticks|)
              && out.written == LogBytes(c, log, garbage1, garbage2)
    {
      hide LogBytes, Last, LastButOne, Steps, MainFrames, Logging, Phase, PPhase, IntraDue, InterDue, Plus, RingValid,
        CountersValid;
      IterationIs();
      WrittenIs(iInterval, pInterval, t, |ticks|);
      hide WrittenAt;
      var intra := ShouldLogIFrame();
      if intra {
        LoadMainState(reading);
        WriteIntraframe();
      } else {
        var inter := ShouldLogPFrame();
        if inter {
          InterFollows(iInterval, pInterval, ticks);
          LoadMainState(reading);
          WriteInterframe();
        }
      }
    }

    /** `blackboxAdvanceIterationTimers` */
    method AdvanceIterationTimers(ghost t: Tick)
      requires Fixed() && running == Logging(iInterval, ticks + [t])
      requires iteration == Steps(|ticks|)
      requires loopIndex == Phase(iInterval, |ticks|) && pFrameIndex == PPhase(iInterval, pInterval, |ticks|)
      modifies this`iteration, this`loopIndex, this`pFrameIndex, this`ticks
      ensures CountersValid() && ticks == old(ticks) + [t]
    {
      hide Logging, Steps, Phase, PPhase, Plus;
      StepsNext(|ticks|);
      CountersStep(iInterval, pInterval, |ticks|);
      iteration := Plus(iteration, 1);
      loopIndex := loopIndex + 1;
      if loopIndex >= iInterval {
        loopIndex := 0;
        pFrameIndex := 0;
      } else {
        pFrameIndex := pFrameIndex + 1;
        if pFrameIndex >= pInterval {
          pFrameIndex := 0;
        }
      }
      ticks := ticks + [t];
    }

    /** The running and paused part of `blackboxUpdate`. */
    method Update(active: bool, mayPause: bool, reading: MainState)
      requires Valid() && reading.Valid()
      modifies this, ring, out
      ensures Valid() && ticks == old(ticks) + [Tick(active, mayPause, reading)]
    {
      hide LogBytes, Last, LastButOne, Steps, WrittenAt, Phase, PPhase, RingValid, CountersValid;
      IterationIs();
      ghost var t, before := Tick(active, mayPause, reading), ticks;
      LoggingStep(iInterval, pInterval, ticks, t);
      hide Logging, MainFrames;
      if running {
        if mayPause && !active {
          running := false;
        } else {
          LogIteration(reading, t);
        }
        AdvanceIterationTimers(t);
      } else {
        var due := ShouldLogIFrame();
        if active && due {
          LogIteration(reading, t);
          running := true;
        }
        AdvanceIterationTimers(t);
      }
    }
  }

  lemma WrittenIs(i: nat, p: nat, t: Tick, n: nat)
    requires i > 0
    ensures var s := t.state.(iteration := Steps(n));
      WrittenAt(i, p, t, n) == if IntraDue(i, n) then [Intra(s)] else if InterDue(i, p, n) then [Inter(s)] else []
  {
    hide IntraDue, InterDue, Steps;
  }

  /** One more iteration, by the schedule. */
  lemma LoggingStep(i: nat, p: nat, ticks: seq<Tick>, t: Tick)
    requires i > 0
    ensures Logging(i, ticks + [t])
            == if Logging(i, ticks) then t.active || !t.mayPause else t.active && IntraDue(i, |ticks|)
    ensures MainFrames(i, p, ticks + [t])
         == if Logging(i, ticks + [t]) then MainFrames(i, p, ticks) + WrittenAt(i, p, t, |ticks|)
            else MainFrames(i, p, ticks)
  {
    hide WrittenAt;
    assert (ticks + [t])[..|ticks|] == ticks;
    assert MainFrames(i, p, ticks) + [] == MainFrames(i, p, ticks);
  }

  /** Whatever was paused and resumed, what the logger has written is read back as the states it logged: the ring never
      gave up a state that was still needed, and every frame was written when the counters said so. */
  lemma WrittenIsRead(l: Logger)
    requires l.Valid() && Followed(l.c) && (forall k :: 0 <= k < |l.ticks| ==> TickOk(l.c, l.iInterval, l.ticks[k], k))
    ensures ReadLog(l.c, l.out.written, Nothing) == Some(FramesOf(l.c, MainFrames(l.iInterval, l.pInterval, l.ticks)))
  {
    hide LogBytes, ReadLog, MainFrames, LogOk, Followed, TickOk, Last, LastButOne, FramesOf;
    ScheduleOk(l.c, l.iInterval, l.pInterval, l.ticks);
    LogRoundTrip(l.c, l.log, l.garbage1, l.garbage2);
  }

  lemma LogBytesIntra(c: Config, log: seq<Entry>, s: MainState, p1: MainState, p2: MainState)
    ensures LogBytes(c, log + [Intra(s)], p1, p2) == LogBytes(c, log, p1, p2) + [INTRA_MARK] + IntraBody(c, s)
  {
    hide IntraBody;
    assert (log + [Intra(s)])[..|log|] == log;
    Regroup(LogBytes(c, log, p1, p2), [INTRA_MARK], IntraBody(c, s));
  }

  lemma LogBytesInter(c: Config, log: seq<Entry>, s: MainState, p1: MainState, p2: MainState)
    ensures LogBytes(c, log + [Inter(s)], p1, p2)
         == LogBytes(c, log, p1, p2) + [INTER_MARK] + InterBody(c, s, Last(log, p1), LastButOne(log, p1, p2))
  {
    hide InterBody;
    assert (log + [Inter(s)])[..|log|] == log;
    Regroup(LogBytes(c, log, p1, p2), [INTER_MARK], InterBody(c, s, Last(log, p1), LastButOne(log, p1, p2)));
  }
}
