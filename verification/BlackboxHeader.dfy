/** The header printer that is called again and again with whatever budget there is. */
module BlackboxHeader {

  // ---------------------------------------------------------------- printing

  function Digit(d: nat): char { if d < 10 then "0123456789"[d] else '?' }

  /** `%d` of a number that is not negative. */
  function Digits(n: nat): (s: string)
    ensures s != []
  {
    if n < 10 then [Digit(n)] else Digits(n / 10) + [Digit(n % 10)]
  }

  function Decimal(v: int): (s: string)
    ensures s != []
  {
    if v < 0 then "-" + Digits(-v) else Digits(v)
  }

  lemma DigitsLength(n: nat)
    ensures |Digits(n)| == 1 <==> n < 10
    ensures |Digits(n)| <= 2 <==> n < 100
    ensures |Digits(n)| <= 3 <==> n < 1000
  {
    if n >= 10 {
      assert |Digits(n)| == |Digits(n / 10)| + 1;
      if n >= 100 {
        assert |Digits(n / 10)| == |Digits(n / 10 / 10)| + 1;
        if n >= 1000 { assert |Digits(n / 100)| == |Digits(n / 100 / 10)| + 1; assert n / 10 / 10 == n / 100; }
      }
    }
  }

  lemma DecimalLength(v: int)
    ensures |Decimal(v)| <= 2 <==> -10 < v < 100
    ensures |Decimal(v)| <= 3 <==> -100 < v < 1000
  {
    DigitsLength(if v < 0 then -v else v);
  }

  // ---------------------------------------------------------------- the ideal text

  /** A row of a field table; an index of -1 prints no brackets. */
  datatype Field = Field(name: string, index: int, values: seq<int>, enabled: bool)

  /** What has to be printed: the headings, how many of them belong to the main frame, the two frame characters. */
  datatype Job = Job(headings: seq<string>, mainCount: nat, mainChar: char, deltaChar: char, fields: seq<Field>)
  {
    predicate Valid() { forall f :: f in fields ==> |headings| <= |f.values| + 1 }
  }

  function Heading(j: Job, h: nat): string
    requires h < |j.headings|
  {
    "H Field " + [if h >= j.mainCount then j.deltaChar else j.mainChar] + " " + j.headings[h] + ":"
  }

  /** A field in line `h`, without the comma. */
  function Cell(j: Job, h: nat, f: Field): string {
    if h == 0 then f.name + (if f.index != -1 then "[" + Decimal(f.index) + "]" else "")
    else if h - 1 < |f.values| then Decimal(f.values[h - 1]) else ""
  }

  predicate AnyBefore(j: Job, n: nat)
    requires n <= |j.fields|
  {
    n > 0 && (j.fields[n - 1].enabled || AnyBefore(j, n - 1))
  }

  /** The enabled ones of the first `n` fields, with commas between them. */
  function Cells(j: Job, h: nat, n: nat): string
    requires n <= |j.fields|
  {
    if n == 0 then ""
    else if !j.fields[n - 1].enabled then Cells(j, h, n - 1)
    else Cells(j, h, n - 1) + (if AnyBefore(j, n - 1) then "," else "") + Cell(j, h, j.fields[n - 1])
  }

  /** The first `h` lines. */
  function Lines(j: Job, h: nat): string
    requires h <= |j.headings|
  {
    if h == 0 then "" else Lines(j, h - 1) + Line(j, h - 1)
  }

  function Line(j: Job, h: nat): string
    requires h < |j.headings|
  {
    Heading(j, h) + Cells(j, h, |j.fields|) + "\n"
  }

  function Text(j: Job): string { Lines(j, |j.headings|) }

  /** What is out when field `f` of line `h` is next; -1 stands for the heading. */
  function Progress(j: Job, h: nat, f: int): string
    requires h <= |j.headings| && -1 <= f <= |j.fields| && (h == |j.headings| ==> f == -1)
  {
    if f == -1 then Lines(j, h) else Lines(j, h) + Heading(j, h) + Cells(j, h, f)
  }

  predicate Prefix(a: string, b: string) { |a| <= |b| && a == b[..|a|] }

  lemma PrefixOfSum(a: string, b: string)
    ensures Prefix(a, a + b)
  {
  }

  lemma PrefixTrans(a: string, b: string, c: string)
    requires Prefix(a, b) && Prefix(b, c)
    ensures Prefix(a, c)
  {
  }

  lemma {:induction false} LinesPrefix(j: Job, h: nat, k: nat)
    requires h <= k <= |j.headings|
    ensures Prefix(Lines(j, h), Lines(j, k))
    decreases k - h
  {
    hide Line, Prefix;
    if h < k {
      LinesPrefix(j, h, k - 1);
      PrefixOfSum(Lines(j, k - 1), Line(j, k - 1));
      PrefixTrans(Lines(j, h), Lines(j, k - 1), Lines(j, k));
    } else {
      PrefixOfSum(Lines(j, h), "");
      assert Lines(j, h) + "" == Lines(j, h);
    }
  }

  lemma {:induction false} CellsPrefix(j: Job, h: nat, n: nat, m: nat)
    requires n <= m <= |j.fields|
    ensures Prefix(Cells(j, h, n), Cells(j, h, m))
    decreases m - n
  {
    hide Cell, Prefix;
    if n < m {
      CellsPrefix(j, h, n, m - 1);
      NextCells(j, h, m - 1);
      PrefixTrans(Cells(j, h, n), Cells(j, h, m - 1), Cells(j, h, m));
    } else {
      PrefixOfSum(Cells(j, h, n), "");
      assert Cells(j, h, n) + "" == Cells(j, h, n);
    }
  }

  lemma NextCells(j: Job, h: nat, n: nat)
    requires n < |j.fields|
    ensures Prefix(Cells(j, h, n), Cells(j, h, n + 1))
  {
    hide Cell;
    var a, b, c := Cells(j, h, n), if AnyBefore(j, n) then "," else "", Cell(j, h, j.fields[n]);
    assert (a + b) + c == a + (b + c);
    PrefixOfSum(a, b + c);
    assert a + "" == a;
    PrefixOfSum(a, "");
  }

  lemma PrefixAfter(a: string, b: string, c: string)
    requires Prefix(b, c)
    ensures Prefix(a + b, a + c)
  {
    assert (a + c)[..|a + b|] == a + c[..|b|];
  }

  /** Whatever is out is the beginning of the one text. */
  lemma ProgressPrefix(j: Job, h: nat, f: int)
    requires h <= |j.headings| && -1 <= f <= |j.fields| && (h == |j.headings| ==> f == -1)
    ensures Prefix(Progress(j, h, f), Text(j))
  {
    hide Prefix, Cells;
    LinesPrefix(j, h, |j.headings|);
    if f >= 0 {
      var front, cells, all := Lines(j, h) + Heading(j, h), Cells(j, h, f), Cells(j, h, |j.fields|);
      CellsPrefix(j, h, f, |j.fields|);
      PrefixAfter(front, cells, all);
      PrefixOfSum(front + all, "\n");
      WholeLine(j, h);
      LinesPrefix(j, h + 1, |j.headings|);
      PrefixTrans(front + cells, front + all, Lines(j, h + 1));
      PrefixTrans(front + cells, Lines(j, h + 1), Text(j));
    }
  }

  lemma WholeLine(j: Job, h: nat)
    requires h < |j.headings|
    ensures Lines(j, h + 1) == Lines(j, h) + Heading(j, h) + Cells(j, h, |j.fields|) + "\n"
  {
    hide Heading, Cells;
    var a, b, c := Lines(j, h), Heading(j, h), Cells(j, h, |j.fields|);
    assert (a + b) + c == a + (b + c);
    assert (a + (b + c)) + "\n" == a + ((b + c) + "\n");
  }

  // ---------------------------------------------------------------- the printer

  /** What is reserved for a field of line `h`: two digits are the most that is expected. */
  function Reserve(h: nat, f: Field): nat { if h == 0 then 1 + |f.name| + 2 + 2 else 1 + 2 }

  /** What it takes. */
  function Taken(j: Job, h: nat, f: Field, comma: bool): nat { (if comma then 1 else 0) + |Cell(j, h, f)| }

  predicate TwoDigits(v: int) { -10 < v < 100 }

  predicate AllTwoDigits(j: Job) {
    forall f :: f in j.fields ==> TwoDigits(f.index) && forall v :: v in f.values ==> TwoDigits(v)
  }

  /** After a comma, the reservation is enough exactly for numbers of at most two characters, and without one for
      three. */
  lemma ReserveExactly(j: Job, h: nat, f: Field, comma: bool)
    requires h == 0 || h - 1 < |f.values|
    ensures (var v := if h == 0 then f.index else f.values[h - 1];
             Taken(j, h, f, comma) <= Reserve(h, f) <==> if comma then -10 < v < 100 else -100 < v < 1000)
  {
    DecimalLength(if h == 0 then f.index else f.values[h - 1]);
  }

  lemma ReserveSuffices(j: Job, h: nat, f: Field, comma: bool)
    requires j.Valid() && h < |j.headings| && f in j.fields && AllTwoDigits(j)
    ensures Taken(j, h, f, comma) <= Reserve(h, f)
  {
    hide Cell;
    ReserveExactly(j, h, f, comma);
    assert TwoDigits(f.index) && (h > 0 ==> TwoDigits(f.values[h - 1]));
  }

  // ---------------------------------------------------------------- one call, and runs of calls

  /** How far the transmission is, and the budget left: `xmitState` and `blackboxHeaderBudget`. */
  datatype Place = Place(header: nat, field: int, budget: int)

  predicate PlaceOk(j: Job, p: Place) {
    p.header <= |j.headings| && -1 <= p.field <= |j.fields| && (p.header == |j.headings| ==> p.field == -1)
        && p.budget >= 0
  }

  /** After the heading of the line, if it still had to be sent and there was room for it. */
  function AfterHeading(j: Job, p: Place): (q: Place)
    requires PlaceOk(j, p) && p.header < |j.headings|
    ensures PlaceOk(j, q) && q.header == p.header && q.field >= p.field && q.budget <= p.budget
  {
    if p.field == -1 && 11 + |j.headings[p.header]| <= p.budget
    then Place(p.header, 0, p.budget - (11 + |j.headings[p.header]|)) else p
  }

  /** After the fields, up to the first enabled one there is no room for. */
  function AfterFields(j: Job, p: Place): (q: Place)
    requires PlaceOk(j, p) && p.field >= 0
    ensures PlaceOk(j, q) && q.header == p.header && q.field >= p.field && q.budget <= p.budget
            && (q.field == p.field ==> q == p)
    decreases |j.fields| - p.field
  {
    if p.field == |j.fields| then p
    else
      var f := j.fields[p.field];
      if !f.enabled then AfterFields(j, p.(field := p.field + 1))
      else if Reserve(p.header, f) > p.budget then p
      else AfterFields(j, Place(p.header, p.field + 1, p.budget - Reserve(p.header, f)))
  }

  /** After the end of the line, if it was reached and there was room for it. */
  function AfterLine(j: Job, p: Place): (q: Place)
    requires PlaceOk(j, p) && p.header < |j.headings|
    ensures PlaceOk(j, q) && q.budget <= p.budget
  {
    if p.field == |j.fields| && p.budget >= 1 then Place(p.header + 1, -1, p.budget - 1) else p
  }

  /** One call of `sendFieldDefinition`. */
  function AfterCall(j: Job, p: Place): (q: Place)
    requires PlaceOk(j, p)
    ensures PlaceOk(j, q)
  {
    if p.header == |j.headings| then p
    else
      var q := AfterHeading(j, p);
      if q.field == -1 then q else AfterLine(j, AfterFields(j, q))
  }

  const MAX_ACCUMULATED: int := 256
  const VIRTUAL_BUDGET: int := 1024 * 8

  /** What one iteration finds: the virtual device, or the free space of a device and the bytes granted per
      iteration. */
  datatype Round = Round(virtual: bool, freeSpace: nat, perIteration: nat)

  function Least(a: int, b: int): int { if a < b then a else b }

  /** `blackboxReplenishHeaderBudget` */
  function Replenished(budget: int, r: Round): int {
    if r.virtual then VIRTUAL_BUDGET else Least(Least(r.freeSpace, budget + r.perIteration), MAX_ACCUMULATED)
  }

  function AfterRound(j: Job, p: Place, r: Round): (q: Place)
    requires PlaceOk(j, p)
    ensures PlaceOk(j, q)
  {
    AfterCall(j, p.(budget := Replenished(p.budget, r)))
  }

  function AfterRounds(j: Job, p: Place, rounds: seq<Round>): (q: Place)
    requires PlaceOk(j, p)
    ensures PlaceOk(j, q)
    decreases |rounds|
  {
    if rounds == [] then p else AfterRounds(j, AfterRound(j, p, rounds[0]), rounds[1..])
  }

  /** The most that a round lets the budget be. */
  function Capacity(r: Round): int { if r.virtual then VIRTUAL_BUDGET else Least(r.freeSpace, MAX_ACCUMULATED) }

  /** So many bytes have room for any single piece: every heading, and every field that is enabled. */
  predicate Roomy(j: Job, bytes: int) {
    forall h :: 0 <= h < |j.headings| ==> LineFits(j, h, bytes)
  }

  predicate LineFits(j: Job, h: nat, bytes: int)
    requires h < |j.headings|
  {
    && 11 + |j.headings[h]| <= bytes
    && (forall i :: 0 <= i < |j.fields| ==> FieldFits(h, j.fields[i], bytes))
  }

  predicate FieldFits(h: nat, f: Field, bytes: int) { f.enabled ==> Reserve(h, f) <= bytes }

  /** How many places lie ahead, line by line. */
  function Ahead(j: Job, p: Place): int { (|j.headings| - p.header) * (|j.fields| + 2) - (p.field + 1) }

  lemma AheadFacts(j: Job, p: Place)
    requires PlaceOk(j, p)
    ensures Ahead(j, p) >= 0 && (Ahead(j, p) == 0 <==> p.header == |j.headings|)
    ensures Ahead(j, Place(p.header + 1, -1, p.budget)) == Ahead(j, p) - (|j.fields| + 1 - p.field)
  {
    var lines, width := |j.headings| - p.header, |j.fields| + 2;
    if lines > 0 { assert lines * width == (lines - 1) * width + width && (lines - 1) * width >= 0; }
  }

  /** A call with room for the next piece gets on; a call that does not get on keeps its budget. */
  lemma CallProgress(j: Job, p: Place)
    requires PlaceOk(j, p) && p.header < |j.headings|
    ensures (var q := AfterCall(j, p); q == p || Ahead(j, q) < Ahead(j, p))
    ensures Roomy(j, p.budget) ==> Ahead(j, AfterCall(j, p)) < Ahead(j, p)
  {
    hide LineFits;
    var a := AfterHeading(j, p);
    if Roomy(j, p.budget) { RoomForHeading(j, p.header, p.budget); }
    if a.field >= 0 {
      var b := AfterFields(j, a);
      if a.field == p.field && p.field < |j.fields| && Roomy(j, p.budget) { FirstFieldSent(j, a); }
      hide Ahead, Roomy, AfterFields;
      AheadFacts(j, b);
      SameLine(j, p, b);
    } else {
      hide Ahead;
    }
  }

  lemma RoomForHeading(j: Job, h: nat, bytes: int)
    requires h < |j.headings| && Roomy(j, bytes)
    ensures 11 + |j.headings[h]| <= bytes
  {
    assert LineFits(j, h, bytes);
  }

  lemma FirstFieldSent(j: Job, p: Place)
    requires PlaceOk(j, p) && p.header < |j.headings| && 0 <= p.field < |j.fields| && Roomy(j, p.budget)
    ensures AfterFields(j, p).field > p.field
  {
    assert LineFits(j, p.header, p.budget);
    assert FieldFits(p.header, j.fields[p.field], p.budget);
  }

  lemma SameLine(j: Job, p: Place, q: Place)
    requires p.header == q.header
    ensures Ahead(j, q) == Ahead(j, p) - (q.field - p.field)
  {
  }

  lemma RoomyMore(j: Job, few: int, bytes: int)
    requires Roomy(j, few) && few <= bytes
    ensures Roomy(j, bytes)
  {
    hide LineFits, Reserve;
    forall h | 0 <= h < |j.headings|
      ensures LineFits(j, h, bytes)
    {
      LineFitsMore(j, h, few, bytes);
    }
  }

  lemma LineFitsMore(j: Job, h: nat, few: int, bytes: int)
    requires h < |j.headings| && LineFits(j, h, few) && few <= bytes
    ensures LineFits(j, h, bytes)
  {
    hide Reserve;
    forall i | 0 <= i < |j.fields|
      ensures FieldFits(h, j.fields[i], bytes)
    {
      assert FieldFits(h, j.fields[i], few);
    }
  }

  /** The device has room for so many bytes, and something is granted. */
  predicate Draining(bytes: int, r: Round) { Capacity(r) >= bytes && (r.virtual || r.perIteration >= 1) }

  /** How many stretches there are, one after the other, in which the device drains for as many iterations as bytes are
      needed. */
  ghost function Chances(bytes: nat, rounds: seq<Round>): nat
    requires bytes >= 1
    decreases |rounds|
  {
    if |rounds| < bytes then 0
    else if forall r :: r in rounds[..bytes] ==> Draining(bytes, r) then 1 + Chances(bytes, rounds[bytes..])
    else Chances(bytes, rounds[1..])
  }

  /** No round leads back. */
  lemma RoundAhead(j: Job, p: Place, r: Round)
    requires PlaceOk(j, p)
    ensures Ahead(j, AfterRound(j, p, r)) <= Ahead(j, p)
  {
    hide AfterCall, Ahead, Roomy;
    var full := p.(budget := Replenished(p.budget, r));
    SameLine(j, p, full);
    if p.header < |j.headings| { CallProgress(j, full); } else { NothingAfterEnd(j, full); }
  }

  lemma NothingAfterEnd(j: Job, p: Place)
    requires PlaceOk(j, p) && p.header == |j.headings|
    ensures AfterCall(j, p) == p
  {
  }

  lemma {:induction false} RoundsAhead(j: Job, p: Place, rounds: seq<Round>)
    requires PlaceOk(j, p)
    ensures Ahead(j, AfterRounds(j, p, rounds)) <= Ahead(j, p)
    decreases |rounds|
  {
    hide AfterRound, Ahead;
    if rounds != [] {
      RoundAhead(j, p, rounds[0]);
      RoundsAhead(j, AfterRound(j, p, rounds[0]), rounds[1..]);
    }
  }

  /** A draining round gets on, unless the budget is still short; then it has grown. */
  lemma RoundProgress(j: Job, p: Place, bytes: nat, r: Round)
    requires PlaceOk(j, p) && p.header < |j.headings| && Roomy(j, bytes) && Draining(bytes, r)
    ensures (var q := AfterRound(j, p, r);
             Ahead(j, q) < Ahead(j, p)
                 || (q.header == p.header && Ahead(j, q) == Ahead(j, p) && p.budget < q.budget < bytes))
  {
    hide AfterCall, Ahead, Roomy;
    var full := p.(budget := Replenished(p.budget, r));
    SameLine(j, p, full);
    if full.budget >= bytes { RoomyMore(j, bytes, full.budget); }
    CallProgress(j, full);
  }

  /** One stretch is enough to get on. */
  lemma {:induction false} StretchProgress(j: Job, p: Place, bytes: nat, rounds: seq<Round>)
    requires PlaceOk(j, p) && p.header < |j.headings| && Roomy(j, bytes)
    requires (forall r :: r in rounds ==> Draining(bytes, r)) && |rounds| >= 1 && p.budget + |rounds| >= bytes
    ensures Ahead(j, AfterRounds(j, p, rounds)) < Ahead(j, p)
    decreases |rounds|
  {
    hide AfterRound, Ahead, Roomy, Draining;
    RoundProgress(j, p, bytes, rounds[0]);
    var q := AfterRound(j, p, rounds[0]);
    if Ahead(j, q) < Ahead(j, p) {
      RoundsAhead(j, q, rounds[1..]);
    } else {
      StretchProgress(j, q, bytes, rounds[1..]);
    }
  }

  lemma {:induction false} RoundsSplit(j: Job, p: Place, rounds: seq<Round>, n: nat)
    requires PlaceOk(j, p) && n <= |rounds|
    ensures AfterRounds(j, p, rounds) == AfterRounds(j, AfterRounds(j, p, rounds[..n]), rounds[n..])
    decreases n
  {
    hide AfterRound;
    if n > 0 {
      RoundsSplit(j, AfterRound(j, p, rounds[0]), rounds[1..], n - 1);
      assert rounds[..n][1..] == rounds[1..][..n - 1] && rounds[1..][n - 1..] == rounds[n..];
    }
  }

  /** Whatever else happens, as many stretches in which the device drains as there are places ahead end the
      transmission. */
  lemma {:induction false} TransmissionEnds(j: Job, p: Place, bytes: nat, rounds: seq<Round>)
    requires PlaceOk(j, p) && Roomy(j, bytes) && bytes >= 1 && Chances(bytes, rounds) >= Ahead(j, p)
    ensures AfterRounds(j, p, rounds).header == |j.headings|
    decreases |rounds|
  {
    hide AfterRound, Ahead, Roomy, Draining;
    AheadFacts(j, p);
    if p.header == |j.headings| {
      RoundsAhead(j, p, rounds);
      AheadFacts(j, AfterRounds(j, p, rounds));
    } else if forall r :: r in rounds[..bytes] ==> Draining(bytes, r) {
      StretchProgress(j, p, bytes, rounds[..bytes]);
      RoundsSplit(j, p, rounds, bytes);
      TransmissionEnds(j, AfterRounds(j, p, rounds[..bytes]), bytes, rounds[bytes..]);
    } else {
      RoundAhead(j, p, rounds[0]);
      TransmissionEnds(j, AfterRound(j, p, rounds[0]), bytes, rounds[1..]);
    }
  }

  // ---------------------------------------------------------------- when it cannot end

  /** All that lies behind a place fits into so many bytes. */
  ghost predicate Passed(j: Job, p: Place, bytes: int)
    requires PlaceOk(j, p)
  {
    && (forall h :: 0 <= h < p.header ==> LineFits(j, h, bytes))
    && (p.field >= 0 ==> 11 + |j.headings[p.header]| <= bytes
                         && forall i :: 0 <= i < p.field ==> FieldFits(p.header, j.fields[i], bytes))
  }

  lemma {:induction false} FieldsPassed(j: Job, p: Place, bytes: int)
    requires PlaceOk(j, p) && p.field >= 0 && p.budget <= bytes && Passed(j, p, bytes)
    ensures Passed(j, AfterFields(j, p), bytes)
    decreases |j.fields| - p.field
  {
    hide LineFits, Reserve;
    if p.field < |j.fields| {
      var f := j.fields[p.field];
      if !f.enabled {
        FieldsPassed(j, p.(field := p.field + 1), bytes);
      } else if Reserve(p.header, f) <= p.budget {
        FieldsPassed(j, Place(p.header, p.field + 1, p.budget - Reserve(p.header, f)), bytes);
      }
    }
  }

  lemma CallPassed(j: Job, p: Place, bytes: int)
    requires PlaceOk(j, p) && p.budget <= bytes && Passed(j, p, bytes)
    ensures Passed(j, AfterCall(j, p), bytes)
  {
    hide AfterFields, FieldFits;
    if p.header < |j.headings| {
      var q := AfterHeading(j, p);
      if q.field >= 0 { FieldsPassed(j, q, bytes); }
    }
  }

  lemma {:induction false} RoundsPassed(j: Job, p: Place, bytes: int, rounds: seq<Round>)
    requires PlaceOk(j, p) && Passed(j, p, bytes) && (forall r :: r in rounds ==> Capacity(r) <= bytes)
    ensures Passed(j, AfterRounds(j, p, rounds), bytes)
    decreases |rounds|
  {
    hide AfterCall;
    if rounds != [] {
      var r := rounds[0];
      assert r in rounds;
      CallPassed(j, p.(budget := Replenished(p.budget, r)), bytes);
      RoundsPassed(j, AfterRound(j, p, r), bytes, rounds[1..]);
    }
  }

  /** A transmission that ends has sent no piece larger than any of the rounds had room for. */
  lemma EndedIsRoomy(j: Job, budget: nat, bytes: int, rounds: seq<Round>)
    requires (forall r :: r in rounds ==> Capacity(r) <= bytes)
             && AfterRounds(j, Place(0, -1, budget), rounds).header == |j.headings|
    ensures Roomy(j, bytes)
  {
    hide AfterRounds;
    RoundsPassed(j, Place(0, -1, budget), bytes, rounds);
  }

  function Same(r: Round, n: nat): seq<Round> { seq(n, _ => r) }

  /** Where the device always drains, every `bytes` iterations are a stretch. */
  lemma {:induction false} DrainingChances(bytes: nat, rounds: seq<Round>, times: nat)
    requires bytes >= 1 && (forall r :: r in rounds ==> Draining(bytes, r)) && |rounds| >= times * bytes
    ensures Chances(bytes, rounds) >= times
    decreases times
  {
    hide Draining;
    if times > 0 {
      assert times * bytes == (times - 1) * bytes + bytes && (times - 1) * bytes >= 0;
      DrainingChances(bytes, rounds[bytes..], times - 1);
    }
  }

  /** On a device whose state stays the same, the transmission ends at some time exactly if it has room for every
      piece. */
  lemma EndsExactly(j: Job, budget: nat, r: Round)
    requires r.virtual || r.perIteration >= 1
    ensures (exists n: nat :: AfterRounds(j, Place(0, -1, budget), Same(r, n)).header == |j.headings|)
            <==> Roomy(j, Capacity(r))
    ensures Capacity(r) == if r.virtual then 8192 else if r.freeSpace < 256 then r.freeSpace else 256
  {
    hide Roomy, AfterRounds, Chances;
    var p := Place(0, -1, budget);
    if n: nat :| AfterRounds(j, p, Same(r, n)).header == |j.headings| {
      EndedIsRoomy(j, budget, Capacity(r), Same(r, n));
    }
    if Roomy(j, Capacity(r)) {
      AheadFacts(j, p);
      var n := Ahead(j, p) * Capacity(r);
      if j.headings == [] {
        assert Same(r, 0) == [] && AfterRounds(j, p, []).header == |j.headings|;
      } else {
        RoomForHeading(j, 0, Capacity(r));
        DrainingChances(Capacity(r), Same(r, n), Ahead(j, p));
        TransmissionEnds(j, p, Capacity(r), Same(r, n));
      }
    }
  }

  class HeaderPrinter {
    const job: Job
    /** `xmitState.headerIndex`, `xmitState.u.fieldIndex` and the comma flag. */
    var headerIndex: nat
    var fieldIndex: int
    var needComma: bool
    var budget: int
    var out: string

    /** The output is the text up to the place the indices point to. */
    ghost predicate Valid()
      reads this
    {
      && job.Valid()
      && headerIndex <= |job.headings| && -1 <= fieldIndex <= |job.fields|
      && (headerIndex == |job.headings| ==> fieldIndex == -1)
      && out == Progress(job, headerIndex, fieldIndex)
      && (fieldIndex >= 0 ==> needComma == AnyBefore(job, fieldIndex))
    }

    constructor (j: Job)
      requires j.Valid()
      ensures Valid() && job == j && out == "" && budget == 0 && headerIndex == 0 && fieldIndex == -1
    {
      job := j;
      headerIndex, fieldIndex, needComma, budget, out := 0, -1, false, 0, "";
    }

    ghost function Here(): Place
      reads this
    {
      Place(headerIndex, fieldIndex, budget)
    }

    /** `blackboxReplenishHeaderBudget` */
    method ReplenishHeaderBudget(r: Round)
      requires Valid()
      modifies `budget
      ensures Valid() && budget == Replenished(old(budget), r)
      ensures r.virtual ==> budget == 8192
      ensures !r.virtual ==> budget <= r.freeSpace && budget <= old(budget) + r.perIteration && budget <= 256
      ensures !r.virtual ==> budget == r.freeSpace || budget == old(budget) + r.perIteration || budget == 256
    {
      if r.virtual {
        budget := 1024 * 8;
        return;
      }
      var b := if r.freeSpace < budget + r.perIteration then r.freeSpace else budget + r.perIteration;
      budget := if b < MAX_ACCUMULATED then b else MAX_ACCUMULATED;
    }

    /** `blackboxDeviceReserveBufferSpace` */
    predicate Reserved(bytes: nat)
      reads this
    {
      bytes <= budget
    }

    /** One field, when there is room for it. */
    method PrintField(f: Field)
      requires Valid() && 0 <= fieldIndex < |job.fields| && f == job.fields[fieldIndex] && f.enabled
      requires Reserved(Reserve(headerIndex, f)) && headerIndex < |job.headings|
      modifies `budget, `needComma, `out
      ensures budget == old(budget) - Reserve(headerIndex, f) && needComma
      ensures out == Progress(job, headerIndex, fieldIndex + 1)
      ensures |out| == |old(out)| + Taken(job, headerIndex, f, old(needComma))
    {
      ghost var front, cells :=
          Lines(job, headerIndex) + Heading(job, headerIndex), Cells(job, headerIndex, fieldIndex);
      ghost var comma, cell := if needComma then "," else "", Cell(job, headerIndex, f);
      assert Cells(job, headerIndex, fieldIndex + 1) == cells + comma + cell;
      assert front + (cells + comma + cell) == front + cells + comma + cell;
      hide Lines, Heading, Cells, Cell, AnyBefore;
      budget := budget - Reserve(headerIndex, f);
      if needComma {
        out := out + ",";
      } else {
        needComma := true;
        assert front + cells + "" == front + cells;
      }
      out := out + Cell(job, headerIndex, f);
    }

    /** The heading of a line, when there is room for it. */
    method StartLine() returns (started: bool)
      requires Valid() && budget >= 0 && fieldIndex == -1 && headerIndex < |job.headings|
      modifies `fieldIndex, `needComma, `budget, `out
      ensures Valid() && started == (old(budget) >= 11 + |job.headings[headerIndex]|)
      ensures Here() == AfterHeading(job, old(Here())) && started == (fieldIndex == 0)
      ensures 0 <= budget <= old(budget) && |out| - |old(out)| == old(budget) - budget
    {
      hide Lines, Heading, Cells;
      HeadingLength(job, headerIndex);
      started := Reserved(11 + |job.headings[headerIndex]|);
      if started {
        budget := budget - |Heading(job, headerIndex)|;
        out := out + Heading(job, headerIndex);
        fieldIndex := fieldIndex + 1;
        needComma := false;
        FirstCell(job, headerIndex);
      }
    }

    /** The fields of a line, as long as there is room. */
    method PrintFields()
      requires Valid() && budget >= 0 && 0 <= fieldIndex && headerIndex < |job.headings|
      modifies `fieldIndex, `needComma, `budget, `out
      ensures Valid() && Here() == AfterFields(job, old(Here()))
      ensures AllTwoDigits(job) ==> |out| - |old(out)| <= old(budget) - budget
    {
      hide Progress, AllTwoDigits, Taken, Reserve, AnyBefore;
      while fieldIndex < |job.fields|
        invariant Valid() && 0 <= fieldIndex && budget >= 0
        invariant AfterFields(job, Here()) == AfterFields(job, old(Here()))
        invariant AllTwoDigits(job) ==> |out| - |old(out)| <= old(budget) - budget
        decreases |job.fields| - fieldIndex
      {
        var f := job.fields[fieldIndex];
        SkipField(job, headerIndex, fieldIndex);
        if f.enabled {
          if !Reserved(Reserve(headerIndex, f)) {
            return;
          }
          if AllTwoDigits(job) { ReserveSuffices(job, headerIndex, f, needComma); }
          PrintField(f);
        }
        fieldIndex := fieldIndex + 1;
      }
    }

    /** The end of a line, when there is room for it. */
    method EndLine()
      requires Valid() && budget >= 0 && fieldIndex == |job.fields| && headerIndex < |job.headings|
      modifies `headerIndex, `fieldIndex, `budget, `out
      ensures Valid() && Here() == AfterLine(job, old(Here()))
      ensures 0 <= budget <= old(budget) && |out| - |old(out)| == old(budget) - budget
    {
      hide Lines, Heading, Cells, AnyBefore;
      if Reserved(1) {
        budget := budget - 1;
        out := out + "\n";
        WholeLine(job, headerIndex);
        headerIndex := headerIndex + 1;
        fieldIndex := -1;
      }
    }

    /** `sendFieldDefinition`: sends as much as the budget allows, at most to the end of the line, and tells whether
        there is more to send. */
    method SendFieldDefinition() returns (more: bool)
      requires Valid() && budget >= 0
      modifies `headerIndex, `fieldIndex, `needComma, `budget, `out
      ensures Valid() && Prefix(out, Text(job)) && Prefix(old(out), out)
      ensures more <==> headerIndex < |job.headings|
      ensures !more ==> out == Text(job)
      ensures 0 <= budget <= old(budget)
      ensures AllTwoDigits(job) ==> |out| - |old(out)| <= old(budget) - budget
      ensures Here() == AfterCall(job, old(Here()))
    {
      hide Progress, AllTwoDigits, Prefix, AnyBefore, Reserve, AfterFields;
      if headerIndex < |job.headings| {
        var started := true;
        if fieldIndex == -1 {
          started := StartLine();
        }
        if started {
          PrintFields();
          if fieldIndex == |job.fields| {
            EndLine();
          }
        }
      }
      OutputGrows(job, old(headerIndex), old(fieldIndex), headerIndex, fieldIndex);
      return headerIndex < |job.headings|;
    }

    /** One iteration of the state that sends the field headers; what is left of the budget goes into the next. */
    method SendHeaders(r: Round) returns (more: bool)
      requires Valid() && budget >= 0
      modifies `headerIndex, `fieldIndex, `needComma, `budget, `out
      ensures Valid() && Here() == AfterRound(job, old(Here()), r) && Prefix(old(out), out)
      ensures (more <==> headerIndex < |job.headings|) && (!more ==> out == Text(job))
    {
      hide AfterCall, Progress, Prefix, AnyBefore;
      ReplenishHeaderBudget(r);
      more := SendFieldDefinition();
    }
  }

  /** Going on only adds to the output, which stays a beginning of the text. */
  lemma OutputGrows(j: Job, h: nat, f: int, h': nat, f': int)
    requires h <= |j.headings| && -1 <= f <= |j.fields| && (h == |j.headings| ==> f == -1)
    requires h' <= |j.headings| && -1 <= f' <= |j.fields| && (h' == |j.headings| ==> f' == -1)
    requires (h' == h && f' >= f) || (h' == h + 1 && f' == -1)
    ensures Prefix(Progress(j, h, f), Progress(j, h', f')) && Prefix(Progress(j, h', f'), Text(j))
    ensures h' == |j.headings| ==> Progress(j, h', f') == Text(j)
  {
    hide Lines, Heading, Cells, Prefix;
    ProgressPrefix(j, h', f');
    if h' == h + 1 {
      LineGrows(j, h, f);
    } else if h < |j.headings| {
      ProgressGrows(j, h, f, f');
    } else {
      PrefixSelf(Progress(j, h, f));
    }
  }

  lemma PrefixSelf(s: string)
    ensures Prefix(s, s)
  {
    assert s[..|s|] == s;
  }

  lemma HeadingLength(j: Job, h: nat)
    requires h < |j.headings|
    ensures |Heading(j, h)| == 11 + |j.headings[h]|
  {
  }

  lemma FirstCell(j: Job, h: nat)
    requires h < |j.headings|
    ensures Progress(j, h, 0) == Lines(j, h) + Heading(j, h) && !AnyBefore(j, 0)
  {
    hide Lines, Heading;
    assert Lines(j, h) + Heading(j, h) + "" == Lines(j, h) + Heading(j, h);
  }

  lemma SkipField(j: Job, h: nat, f: nat)
    requires f < |j.fields| && h < |j.headings|
    ensures !j.fields[f].enabled ==> Progress(j, h, f + 1) == Progress(j, h, f)
    ensures AnyBefore(j, f + 1) == (j.fields[f].enabled || AnyBefore(j, f))
  {
    hide Lines, Heading, Cell;
  }

  lemma ProgressGrows(j: Job, h: nat, f: int, g: int)
    requires h < |j.headings| && -1 <= f <= g <= |j.fields|
    ensures Prefix(Progress(j, h, f), Progress(j, h, g))
  {
    hide Lines, Heading, Cells, Prefix;
    if f == -1 {
      if g == -1 {
        PrefixSelf(Progress(j, h, f));
      } else {
        PrefixOfSum(Lines(j, h), Heading(j, h));
        PrefixOfSum(Lines(j, h) + Heading(j, h), Cells(j, h, g));
        PrefixTrans(Lines(j, h), Lines(j, h) + Heading(j, h), Progress(j, h, g));
      }
    } else {
      CellsPrefix(j, h, f, g);
      PrefixAfter(Lines(j, h) + Heading(j, h), Cells(j, h, f), Cells(j, h, g));
    }
  }

  lemma LineGrows(j: Job, h: nat, f: int)
    requires h < |j.headings| && -1 <= f <= |j.fields|
    ensures Prefix(Progress(j, h, f), Lines(j, h + 1))
  {
    hide Lines, Heading, Cells, Prefix;
    ProgressGrows(j, h, f, |j.fields|);
    WholeLine(j, h);
    PrefixOfSum(Progress(j, h, |j.fields|), "\n");
    PrefixTrans(Progress(j, h, f), Progress(j, h, |j.fields|), Lines(j, h + 1));
  }
}
