/** Whole logs: any run of intra and inter frames is read back state by state. */
module BlackboxLog {
  import opened Words
  import opened Outcomes
  import opened BlackboxEncoding
  import opened BlackboxFields
  import opened BlackboxFrames
  import opened BlackboxRoundTrip
  import opened BlackboxMainFrames
  import opened BlackboxReading

  datatype Entry = Intra(state: MainState) | Inter(state: MainState)

  const INTRA_MARK: byte := 0x49
  const INTER_MARK: byte := 0x50

  /** One logged frame; `p1` and `p2` are the last two states of the history. */
  function EntryBytes(c: Config, e: Entry, p1: MainState, p2: MainState): Bytes {
    match e
    case Intra(s) => [INTRA_MARK] + IntraBody(c, s)
    case Inter(s) => [INTER_MARK] + InterBody(c, s, p1, p2)
  }

  // The history after a run of frames: an intra frame stands for both of the last two states.

  function Last(log: seq<Entry>, p1: MainState): MainState { if log == [] then p1 else log[|log| - 1].state }

  function LastButOne(log: seq<Entry>, p1: MainState, p2: MainState): MainState {
    if log == [] then p2
    else match log[|log| - 1]
      case Intra(s) => s
      case Inter(_) => Last(log[..|log| - 1], p1)
  }

  /** The bytes of a run of frames, in order. */
  function LogBytes(c: Config, log: seq<Entry>, p1: MainState, p2: MainState): Bytes {
    if log == [] then []
    else
      var before := log[..|log| - 1];
      LogBytes(c, before, p1, p2) + EntryBytes(c, log[|log| - 1], Last(before, p1), LastButOne(before, p1, p2))
  }

  // ---------------------------------------------------------------- the reader

  /** The frames read so far give the history, as in the writer. */
  datatype History = Nothing | After(h1: Values, h2: Values)

  function ReadLog(c: Config, s: Bytes, h: History): Option<seq<Values>>
    decreases |s|
  {
    if s == [] then Some([])
    else if s[0] == INTRA_MARK then
      match Decode(c, Select(c, Table(), true), s[1..], map[], map[], map[])
      case Bad => None
      case Frame(values, rest) =>
        if |rest| >= |s| then None else Prepend(values, ReadLog(c, rest, After(values, values)))
    else if s[0] == INTER_MARK && h.After? then
      match Decode(c, Select(c, Table(), false), s[1..], h.h1, h.h2, map[])
      case Bad => None
      case Frame(values, rest) => if |rest| >= |s| then None else Prepend(values, ReadLog(c, rest, After(values, h.h1)))
    else None
  }

  function Prepend(v: Values, more: Option<seq<Values>>): Option<seq<Values>> {
    match more case None => None case Some(vs) => Some([v] + vs)
  }

  // ---------------------------------------------------------------- the theorem

  /** What a frame needs of its state: 14 bits for the voltage in an intra frame; a known predecessor, one P interval
      earlier, for an inter frame. */
  predicate EntryOk(c: Config, e: Entry, previous: Option<MainState>) {
    && e.state.Valid()
    && (match e
        case Intra(s) => VoltageFits(c, s)
        case Inter(s) => previous.Some? && s.iteration == Plus(previous.value.iteration, c.pInterval))
  }

  /** The frames can be read: the first one is an intra frame, and every frame has what it needs. */
  predicate LogOk(c: Config, log: seq<Entry>, previous: Option<MainState>) {
    log == [] || (EntryOk(c, log[0], previous) && LogOk(c, log[1..], Some(log[0].state)))
  }

  /** The configurations every frame of which the reader can follow. */
  predicate Followed(c: Config) { c.Valid() && (c.motorEnabled ==> c.motorCount > 0) && !ServosRunOn(c) }

  function FramesOf(c: Config, log: seq<Entry>): (r: seq<Values>)
    ensures |r| == |log|
  {
    if log == [] then [] else [FrameOf(c, log[0].state)] + FramesOf(c, log[1..])
  }

  /** The bytes from the front: the first frame, then the rest with the history it leaves. */
  function BytesFrom(c: Config, log: seq<Entry>, p1: MainState, p2: MainState): Bytes {
    if log == [] then []
    else EntryBytes(c, log[0], p1, p2)
         + BytesFrom(c, log[1..], log[0].state, if log[0].Intra? then log[0].state else p1)
  }

  lemma {:induction false} BytesFromSnoc(c: Config, log: seq<Entry>, e: Entry, p1: MainState, p2: MainState)
    ensures BytesFrom(c, log + [e], p1, p2)
            == BytesFrom(c, log, p1, p2) + EntryBytes(c, e, Last(log, p1), LastButOne(log, p1, p2))
  {
    hide EntryBytes;
    if log == [] {
      assert log + [e] == [e] && [e][1..] == [];
    } else {
      var q1, q2 := log[0].state, if log[0].Intra? then log[0].state else p1;
      assert (log + [e])[1..] == log[1..] + [e];
      BytesFromSnoc(c, log[1..], e, q1, q2);
      HistoryOfRest(log, p1, p2);
    }
  }

  lemma HistoryOfRest(log: seq<Entry>, p1: MainState, p2: MainState)
    requires log != []
    ensures var q2 := if log[0].Intra? then log[0].state else p1;
      Last(log[1..], log[0].state) == Last(log, p1) && LastButOne(log[1..], log[0].state, q2) == LastButOne(log, p1, p2)
  {
    if |log| > 1 { assert log[1..][..|log| - 2] == log[..|log| - 1][1..]; }
  }

  lemma {:induction false} BytesEitherWay(c: Config, log: seq<Entry>, p1: MainState, p2: MainState)
    ensures LogBytes(c, log, p1, p2) == BytesFrom(c, log, p1, p2)
  {
    hide EntryBytes;
    if log != [] {
      var before, e := log[..|log| - 1], log[|log| - 1];
      assert log == before + [e];
      BytesEitherWay(c, before, p1, p2);
      BytesFromSnoc(c, before, e, p1, p2);
      hide LogBytes, BytesFrom, Last, LastButOne;
    }
  }

  lemma ReadIntra(c: Config, s: MainState, later: Bytes, h: History)
    requires Followed(c) && s.Valid() && VoltageFits(c, s)
    ensures ReadLog(c, [INTRA_MARK] + IntraBody(c, s) + later, h)
         == Prepend(FrameOf(c, s), ReadLog(c, later, After(FrameOf(c, s), FrameOf(c, s))))
  {
    var bytes := [INTRA_MARK] + IntraBody(c, s) + later;
    hide IntraBody, Decode, FrameOf, Table, Select, VoltageFits, ServosRunOn;
    IntraRoundTrip(c, s, map[], map[], later);
    assert bytes[1..] == IntraBody(c, s) + later && bytes[0] == INTRA_MARK && |later| < |bytes|;
  }

  lemma ReadInter(c: Config, s: MainState, p1: MainState, p2: MainState, later: Bytes)
    requires Followed(c) && s.Valid() && s.iteration == Plus(p1.iteration, c.pInterval)
    ensures ReadLog(c, [INTER_MARK] + InterBody(c, s, p1, p2) + later, After(FrameOf(c, p1), FrameOf(c, p2)))
         == Prepend(FrameOf(c, s), ReadLog(c, later, After(FrameOf(c, s), FrameOf(c, p1))))
  {
    var bytes := [INTER_MARK] + InterBody(c, s, p1, p2) + later;
    hide InterBody, Decode, FrameOf, Table, Select, ServosRunOn, Plus;
    InterRoundTrip(c, s, p1, p2, later);
    assert bytes[1..] == InterBody(c, s, p1, p2) + later && bytes[0] == INTER_MARK && |later| < |bytes|;
  }

  lemma {:induction false} ReadFrom(c: Config, log: seq<Entry>, p1: MainState, p2: MainState, h: History)
    requires Followed(c) && LogOk(c, log, if h.Nothing? then None else Some(p1))
    requires h.After? ==> h == After(FrameOf(c, p1), FrameOf(c, p2))
    ensures ReadLog(c, BytesFrom(c, log, p1, p2), h) == Some(FramesOf(c, log))
  {
    if log != [] {
      var e, s, more := log[0], log[0].state, log[1..];
      var q2 := if e.Intra? then s else p1;
      var later := BytesFrom(c, more, s, q2);
      assert EntryOk(c, e, if h.Nothing? then None else Some(p1)) && LogOk(c, more, Some(s));
      assert BytesFrom(c, log, p1, p2) == EntryBytes(c, e, p1, p2) + later;
      assert FramesOf(c, log) == [FrameOf(c, s)] + FramesOf(c, more);
      ReadFrom(c, more, s, q2, After(FrameOf(c, s), FrameOf(c, q2)));
      hide ReadLog, LogOk, BytesFrom, FramesOf, FrameOf, Followed, IntraBody, InterBody, VoltageFits, Plus;
      if e.Intra? {
        ReadIntra(c, s, later, h);
      } else {
        ReadInter(c, s, p1, p2, later);
      }
    }
  }

  /** The reader recovers every logged state, field by field, from the bytes of any run that starts with an intra frame.
      What stood in the history before makes no difference. */
  lemma LogRoundTrip(c: Config, log: seq<Entry>, p1: MainState, p2: MainState)
    requires Followed(c) && LogOk(c, log, None)
    ensures ReadLog(c, LogBytes(c, log, p1, p2), Nothing) == Some(FramesOf(c, log))
    ensures forall i, d ::
              0 <= i < |log| && d in Table() && Test(c, d.condition)
              ==> Tells(FramesOf(c, log)[i], log[i].state, d.slot)
  {
    hide LogBytes, BytesFrom, ReadLog, Followed, FrameOf, Test, Table, Tells, LogOk;
    BytesEitherWay(c, log, p1, p2);
    ReadFrom(c, log, p1, p2, Nothing);
    forall i, d | 0 <= i < |log| && d in Table() && Test(c, d.condition)
      ensures Tells(FramesOf(c, log)[i], log[i].state, d.slot)
    {
      FramesAt(c, log, i);
      FrameTells(c, log[i].state, d);
    }
  }

  lemma {:induction false} FramesAt(c: Config, log: seq<Entry>, i: nat)
    requires i < |log|
    ensures FramesOf(c, log)[i] == FrameOf(c, log[i].state)
  {
    hide FrameOf;
    if i > 0 { FramesAt(c, log[1..], i - 1); }
  }
}
