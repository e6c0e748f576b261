/** The header of the main frames announces exactly the fields the reader of the log is given. */
module BlackboxAnnouncement {
  import opened Outcomes
  import opened BlackboxFields
  import opened BlackboxRoundTrip
  import opened BlackboxHeader

  // ---------------------------------------------------------------- what is announced

  /** The name of a field, and its index where it has one. */
  function Name(f: Slot): string {
    match f
    case LoopIteration => "loopIteration" case Time => "time"
    case AxisP(_) => "axisP" case AxisI(_) => "axisI" case AxisD(_) => "axisD" case AxisF(_) => "axisF"
    case AxisS(_) => "axisS"
    case RcCommand(_) => "rcCommand" case Setpoint(_) => "setpoint"
    case Vbat => "vbatLatest" case Amperage => "amperageLatest" case MagAdc(_) => "magADC"
    case BaroAlt => "baroAlt" case SurfaceRaw => "surfaceRaw" case Rssi => "rssi"
    case GyroAdc(_) => "gyroADC" case GyroUnfilt(_) => "gyroUnfilt" case AccSmooth(_) => "accSmooth"
    case Quaternion(_) => "imuQuaternion" case Debug(_) => "debug"
    case Motor(_) => "motor" case Servo(_) => "servo" case Erpm(_) => "eRPM"
  }

  function Index(f: Slot): int {
    match f
    case AxisP(i) => i case AxisI(i) => i case AxisD(i) => i case AxisF(i) => i case AxisS(i) => i
    case RcCommand(i) => i case Setpoint(i) => i case MagAdc(i) => i
    case GyroAdc(i) => i case GyroUnfilt(i) => i case AccSmooth(i) => i case Quaternion(i) => i case Debug(i) => i
    case Motor(i) => i case Servo(i) => i case Erpm(i) => i
    case _ => -1
  }

  function SignedFlag(f: Slot): int {
    match f
    case LoopIteration => 0 case Time => 0 case RcCommand(i) => if i == 3 then 0 else 1
    case Vbat => 0 case Rssi => 0 case Motor(_) => 0 case Servo(_) => 0 case Erpm(_) => 0
    case _ => 1
  }

  /** `flightLogFieldPredictor_e` */
  function PredictorCode(p: Predictor): nat {
    match p
    case Zero => 0 case Previous => 1 case StraightLine => 2 case Average2 => 3 case MinMotor => 11
    case Motor0 => 5 case Increment => 6 case Center1500 => 8 case VbatRef => 9
  }

  /** `flightLogFieldEncoding_e` */
  function EncodingCode(e: Encoding): nat {
    match e
    case SignedVb => 0 case UnsignedVb => 1 case Neg14Bit => 3 case Tag8Svb => 6 case Tag2Of3 => 7 case Tag8Of4 => 8
    case Null => 9
  }

  function FieldFor(c: Config, d: FieldDef): Field {
    Field(Name(d.slot), Index(d.slot),
          [SignedFlag(d.slot), PredictorCode(d.iPredict), EncodingCode(d.iEncode), PredictorCode(d.pPredict),
           EncodingCode(d.pEncode)],
          Test(c, d.condition))
  }

  function FieldsFor(c: Config, rows: seq<FieldDef>): (r: seq<Field>)
    ensures |r| == |rows| && forall i :: 0 <= i < |rows| ==> r[i] == FieldFor(c, rows[i])
  {
    seq(|rows|, i requires 0 <= i < |rows| => FieldFor(c, rows[i]))
  }

  /** The job of the main field header. */
  function MainJob(c: Config, rows: seq<FieldDef>): Job {
    Job(["name", "signed", "predictor", "encoding", "predictor", "encoding"], 4, 'I', 'P', FieldsFor(c, rows))
  }

  // ---------------------------------------------------------------- reading text

  /** The pieces of a text between the separators. */
  function Split(s: string, sep: char): (r: seq<string>)
    ensures r != []
  {
    if s == "" then [""]
    else
      var before := Split(s[..|s| - 1], sep);
      if s[|s| - 1] == sep then before + [""] else before[..|before| - 1] + [before[|before| - 1] + [s[|s| - 1]]]
  }

  predicate Plain(s: string, sep: char) { forall i :: 0 <= i < |s| ==> s[i] != sep }

  /** The last piece goes on while there is no separator. */
  function Extended(pieces: seq<string>, t: string): seq<string>
    requires pieces != []
  {
    pieces[..|pieces| - 1] + [pieces[|pieces| - 1] + t]
  }

  lemma ExtendTwice(pieces: seq<string>, t: string, x: char)
    requires pieces != []
    ensures Extended(Extended(pieces, t), [x]) == Extended(pieces, t + [x])
  {
    assert (pieces[|pieces| - 1] + t) + [x] == pieces[|pieces| - 1] + (t + [x]);
  }

  lemma SplitNext(s: string, x: char, sep: char)
    ensures Split(s + [x], sep) == if x == sep then Split(s, sep) + [""] else Extended(Split(s, sep), [x])
  {
    assert (s + [x])[..|s|] == s;
  }

  lemma {:induction false} SplitPlain(s: string, t: string, sep: char)
    requires Plain(t, sep)
    ensures Split(s + t, sep) == Extended(Split(s, sep), t)
    decreases |t|
  {
    hide Split;
    if t == "" {
      assert s + t == s;
      var pieces := Split(s, sep);
      assert pieces[|pieces| - 1] + t == pieces[|pieces| - 1];
    } else {
      var u, x := t[..|t| - 1], t[|t| - 1];
      assert t == u + [x] && s + t == (s + u) + [x];
      SplitPlain(s, u, sep);
      SplitNext(s + u, x, sep);
      ExtendTwice(Split(s, sep), u, x);
    }
  }

  lemma SplitAt(s: string, sep: char)
    ensures Split(s + [sep], sep) == Split(s, sep) + [""]
  {
    SplitNext(s, sep, sep);
  }

  lemma PlainPlus(a: string, b: string, sep: char)
    requires Plain(a, sep) && Plain(b, sep)
    ensures Plain(a + b, sep)
  {
  }

  // ---------------------------------------------------------------- the lines come apart

  /** Nothing in the job looks like a separator. */
  ghost predicate Separable(j: Job) {
    && (forall h :: 0 <= h < |j.headings| ==> Plain(j.headings[h], ':') && Plain(j.headings[h], '\n'))
    && j.mainChar !in {':', '\n'} && j.deltaChar !in {':', '\n'}
    && (forall h: nat, f :: f in j.fields ==> CellPlain(j, h, f))
  }

  predicate CellPlain(j: Job, h: nat, f: Field) {
    Plain(Cell(j, h, f), ',') && Plain(Cell(j, h, f), ':') && Plain(Cell(j, h, f), '\n')
  }

  /** The cells of the enabled ones of the first `n` fields. */
  function Shown(j: Job, h: nat, n: nat): seq<string>
    requires n <= |j.fields|
  {
    if n == 0 then [] else Shown(j, h, n - 1) + if j.fields[n - 1].enabled then [Cell(j, h, j.fields[n - 1])] else []
  }

  lemma {:induction false} CellsSplit(j: Job, h: nat, n: nat)
    requires n <= |j.fields| && Separable(j)
    ensures Plain(Cells(j, h, n), ':') && Plain(Cells(j, h, n), '\n')
    ensures AnyBefore(j, n) ==> Split(Cells(j, h, n), ',') == Shown(j, h, n)
    ensures !AnyBefore(j, n) ==> Cells(j, h, n) == "" && Shown(j, h, n) == []
  {
    hide Cell;
    if n > 0 {
      CellsSplit(j, h, n - 1);
      if j.fields[n - 1].enabled { NextSplit(j, h, n - 1); }
    }
  }

  lemma NextSplit(j: Job, h: nat, n: nat)
    requires n < |j.fields| && Separable(j) && j.fields[n].enabled
    requires Plain(Cells(j, h, n), ':') && Plain(Cells(j, h, n), '\n')
    requires AnyBefore(j, n) ==> Split(Cells(j, h, n), ',') == Shown(j, h, n)
    requires !AnyBefore(j, n) ==> Cells(j, h, n) == "" && Shown(j, h, n) == []
    ensures Plain(Cells(j, h, n + 1), ':') && Plain(Cells(j, h, n + 1), '\n')
    ensures Split(Cells(j, h, n + 1), ',') == Shown(j, h, n + 1)
  {
    hide Cell;
    var cells, cell := Cells(j, h, n), Cell(j, h, j.fields[n]);
    assert j.fields[n] in j.fields && CellPlain(j, h, j.fields[n]);
    if AnyBefore(j, n) {
      SplitAt(cells, ',');
      SplitPlain(cells + ",", cell, ',');
      assert [','] == ",";
      assert (Shown(j, h, n) + [""])[..|Shown(j, h, n)|] == Shown(j, h, n) && "" + cell == cell;
      assert Cells(j, h, n + 1) == cells + "," + cell;
    } else {
      SplitPlain("", cell, ',');
      assert "" + cell == cell && "" + "" + cell == cell;
      assert Split("", ',') == [""] && [""][..0] == [];
    }
  }

  function LineText(j: Job, h: nat): string
    requires h < |j.headings|
  {
    Heading(j, h) + Cells(j, h, |j.fields|)
  }

  function LineTexts(j: Job, h: nat): (r: seq<string>)
    requires h <= |j.headings|
    ensures |r| == h && forall k :: 0 <= k < h ==> r[k] == LineText(j, k)
  {
    seq(h, k requires 0 <= k < h => LineText(j, k))
  }

  lemma HeadingPlain(j: Job, h: nat)
    requires h < |j.headings| && Separable(j)
    ensures Heading(j, h) == HeadingFront(j, h) + ":" && Plain(HeadingFront(j, h), ':') && Plain(Heading(j, h), '\n')
  {
    assert Plain("H Field ", ':') && Plain("H Field ", '\n');
  }

  function HeadingFront(j: Job, h: nat): string
    requires h < |j.headings|
  {
    "H Field " + [if h >= j.mainCount then j.deltaChar else j.mainChar] + " " + j.headings[h]
  }

  lemma {:induction false} LinesSplit(j: Job, h: nat)
    requires h <= |j.headings| && Separable(j)
    ensures Split(Lines(j, h), '\n') == LineTexts(j, h) + [""]
  {
    hide Cells, Heading, Separable, LineText, Lines, Split;
    if h > 0 {
      LinesSplit(j, h - 1);
      var line := LineText(j, h - 1);
      LinePlain(j, h - 1);
      LineEnds(j, h - 1);
      PieceAdded(Lines(j, h - 1), LineTexts(j, h - 1), line);
      assert LineTexts(j, h) == LineTexts(j, h - 1) + [line];
    } else {
      NoLines(j);
    }
  }

  lemma NoLines(j: Job)
    ensures Split(Lines(j, 0), '\n') == LineTexts(j, 0) + [""]
  {
    assert LineTexts(j, 0) == [];
  }

  lemma LinePlain(j: Job, h: nat)
    requires h < |j.headings| && Separable(j)
    ensures Plain(LineText(j, h), '\n')
  {
    hide Cells, Heading, Separable, Plain;
    CellsSplit(j, h, |j.fields|);
    HeadingPlain(j, h);
    PlainPlus(Heading(j, h), Cells(j, h, |j.fields|), '\n');
  }

  /** A line behind complete lines is one more piece. */
  lemma PieceAdded(text: string, lines: seq<string>, line: string)
    requires Split(text, '\n') == lines + [""] && Plain(line, '\n')
    ensures Split((text + line) + ['\n'], '\n') == (lines + [line]) + [""]
  {
    hide Split, Plain;
    SplitPlain(text, line, '\n');
    SplitAt(text + line, '\n');
    assert (lines + [""])[..|lines|] == lines && "" + line == line;
  }

  lemma LineEnds(j: Job, h: nat)
    requires h < |j.headings|
    ensures Lines(j, h + 1) == (Lines(j, h) + LineText(j, h)) + ['\n']
  {
    hide Heading, Cells;
    WholeLine(j, h);
    var a, b, d := Lines(j, h), Heading(j, h), Cells(j, h, |j.fields|);
    assert a + b + d == a + (b + d);
  }

  /** The cells of one line of a header. */
  function LineCells(line: string): seq<string> {
    var parts := Split(line, ':');
    if |parts| == 2 then Split(parts[1], ',') else []
  }

  lemma LineCellsAre(j: Job, h: nat)
    requires h < |j.headings| && Separable(j) && AnyBefore(j, |j.fields|)
    ensures LineCells(LineText(j, h)) == Shown(j, h, |j.fields|)
  {
    hide Cells, Heading, Separable, HeadingFront, Shown, AnyBefore;
    var front, cells := HeadingFront(j, h), Cells(j, h, |j.fields|);
    CellsSplit(j, h, |j.fields|);
    HeadingPlain(j, h);
    SplitPlain("", front, ':');
    assert Split("", ':') == [""] && [""][..0] == [] && "" + front == front;
    SplitAt(front, ':');
    assert front + ":" == front + [':'];
    SplitPlain(front + ":", cells, ':');
    assert "" + cells == cells;
    assert [front, ""][..1] == [front];
  }

  // ---------------------------------------------------------------- names and numbers come back

  function CharDigit(ch: char): nat { if '0' <= ch <= '9' then ch as nat - '0' as nat else 0 }

  function Number(s: string): nat { if s == "" then 0 else Number(s[..|s| - 1]) * 10 + CharDigit(s[|s| - 1]) }

  lemma DigitBack(d: nat)
    requires d < 10
    ensures CharDigit(Digit(d)) == d && Plain([Digit(d)], ',') && Plain([Digit(d)], ':') && Plain([Digit(d)], '\n')
            && Plain([Digit(d)], '[')
  {
    var ch := Digit(d);
    assert || (d == 0 && ch == '0') || (d == 1 && ch == '1') || (d == 2 && ch == '2') || (d == 3 && ch == '3')
           || (d == 4 && ch == '4') || (d == 5 && ch == '5') || (d == 6 && ch == '6') || (d == 7 && ch == '7')
           || (d == 8 && ch == '8') || (d == 9 && ch == '9');
  }

  lemma NumberNext(s: string, ch: char)
    ensures Number(s + [ch]) == Number(s) * 10 + CharDigit(ch)
  {
    assert (s + [ch])[..|s|] == s;
  }

  lemma SmallNumber(n: nat)
    requires n < 100
    ensures Number(Decimal(n)) == n && Plain(Decimal(n), ',') && Plain(Decimal(n), ':') && Plain(Decimal(n), '\n')
    ensures n < 10 ==> Decimal(n) == [Digit(n)]
  {
    hide Digit, Number, CharDigit;
    assert Number("") == 0 by { NoNumber(); }
    if n < 10 {
      DigitBack(n);
      NumberNext("", Digit(n));
      assert "" + [Digit(n)] == [Digit(n)] == Decimal(n);
    } else {
      var a, b := n / 10, n % 10;
      DigitBack(a);
      DigitBack(b);
      NumberNext("", Digit(a));
      NumberNext([Digit(a)], Digit(b));
      assert "" + [Digit(a)] == [Digit(a)];
      assert Digits(n / 10) == [Digit(a)];
      assert Decimal(n) == [Digit(a)] + [Digit(b)];
    }
  }

  lemma NoNumber()
    ensures Number("") == 0
  {
  }

  /** A field by its name and index, told apart by length and outer letters. */
  function SlotNamed(name: string, i: nat): Option<Slot> {
    if name == "" then None
    else
      var n, first, last := |name|, name[0], name[|name| - 1];
      if n == 13 then Some(if first == 'l' then LoopIteration else Quaternion(i))
      else if n == 4 then Some(if first == 't' then Time else if first == 'r' then Rssi else Erpm(i))
      else if n == 5 && first == 'a' then
        Some(if last == 'P' then AxisP(i) else if last == 'I' then AxisI(i) else if last == 'D' then AxisD(i)
             else if last == 'F' then AxisF(i) else AxisS(i))
      else if n == 5 then Some(if first == 'd' then Debug(i) else if first == 'm' then Motor(i) else Servo(i))
      else if n == 9 then Some(if first == 'r' then RcCommand(i) else AccSmooth(i))
      else if n == 8 then Some(Setpoint(i))
      else if n == 10 then Some(if first == 'v' then Vbat else if first == 's' then SurfaceRaw else GyroUnfilt(i))
      else if n == 14 then Some(Amperage)
      else if n == 6 then Some(MagAdc(i))
      else if n == 7 then Some(if first == 'b' then BaroAlt else GyroAdc(i))
      else None
  }

  /** A name as it stands in the header, with its index in brackets. */
  function SlotOf(cell: string): Option<Slot> {
    var parts := Split(cell, '[');
    if |parts| == 1 then SlotNamed(parts[0], 0)
    else if |parts| == 2 && parts[1] != "" then SlotNamed(parts[0], Number(parts[1][..|parts[1]| - 1]))
    else None
  }

  lemma LongNames(f: Slot)
    requires |Name(f)| >= 9
    ensures SlotNamed(Name(f), if Index(f) >= 0 then Index(f) else 0) == Some(f)
  {
  }

  lemma ShortNames(f: Slot)
    requires |Name(f)| < 9
    ensures SlotNamed(Name(f), if Index(f) >= 0 then Index(f) else 0) == Some(f)
  {
  }

  lemma PlainNames4(f: Slot)
    requires |Name(f)| == 4
    ensures Plain(Name(f), ',') && Plain(Name(f), ':') && Plain(Name(f), '\n') && Plain(Name(f), '[')
  {
  }

  lemma PlainNames5(f: Slot)
    requires |Name(f)| == 5
    ensures Plain(Name(f), ',') && Plain(Name(f), ':') && Plain(Name(f), '\n') && Plain(Name(f), '[')
  {
  }

  lemma PlainNames8(f: Slot)
    requires 6 <= |Name(f)| <= 8
    ensures Plain(Name(f), ',') && Plain(Name(f), ':') && Plain(Name(f), '\n') && Plain(Name(f), '[')
  {
  }

  lemma PlainNames10(f: Slot)
    requires 9 <= |Name(f)| <= 10
    ensures Plain(Name(f), ',') && Plain(Name(f), ':') && Plain(Name(f), '\n') && Plain(Name(f), '[')
  {
  }

  lemma PlainNames14(f: Slot)
    requires |Name(f)| > 10
    ensures Plain(Name(f), ',') && Plain(Name(f), ':') && Plain(Name(f), '\n') && Plain(Name(f), '[')
  {
  }

  lemma NameLength(f: Slot)
    ensures 4 <= |Name(f)| <= 14
  {
  }

  lemma NameBack(f: Slot)
    ensures SlotNamed(Name(f), if Index(f) >= 0 then Index(f) else 0) == Some(f)
    ensures Plain(Name(f), ',') && Plain(Name(f), ':') && Plain(Name(f), '\n') && Plain(Name(f), '[')
  {
    hide Name, SlotNamed, Plain, Index;
    NameLength(f);
    if |Name(f)| < 9 { ShortNames(f); } else { LongNames(f); }
    if |Name(f)| == 4 {
      PlainNames4(f);
    } else if |Name(f)| == 5 {
      PlainNames5(f);
    } else if |Name(f)| <= 8 {
      PlainNames8(f);
    } else if |Name(f)| <= 10 {
      PlainNames10(f);
    } else {
      PlainNames14(f);
    }
  }

  function SlotText(f: Slot): string { Name(f) + (if Index(f) != -1 then "[" + Decimal(Index(f)) + "]" else "") }

  lemma OnePiece(name: string)
    requires Plain(name, '[')
    ensures Split(name, '[') == [name]
  {
    SplitPlain("", name, '[');
    assert "" + name == name && Split("", '[') == [""] && [""][..0] == [];
  }

  lemma TwoPieces(name: string, tail: string)
    requires Plain(name, '[') && Plain(tail, '[')
    ensures Split((name + ['[']) + tail, '[') == [name, tail]
  {
    hide Split, Plain;
    OnePiece(name);
    SplitAt(name, '[');
    SplitPlain(name + ['['], tail, '[');
    assert [name, ""][..1] == [name] && "" + tail == tail;
  }

  lemma SlotBack(f: Slot)
    requires -1 <= Index(f) < 10
    ensures SlotOf(SlotText(f)) == Some(f)
    ensures Plain(SlotText(f), ',') && Plain(SlotText(f), ':') && Plain(SlotText(f), '\n')
  {
    hide Name, SlotNamed, Digit, Decimal, Split, Index;
    NameBack(f);
    var name, i := Name(f), Index(f);
    if i == -1 {
      OnePiece(name);
      assert SlotText(f) == name + "" == name;
    } else {
      SmallNumber(i);
      DigitBack(i);
      var tail := [Digit(i), ']'];
      assert SlotText(f) == (name + ['[']) + tail by { assert "[" + [Digit(i)] + "]" == ['['] + tail; }
      TwoPieces(name, tail);
      assert tail[..1] == [Digit(i)] == Decimal(i);
    }
  }

  function PredictorOf(code: nat): Option<Predictor> {
    if code == 0 then Some(Zero) else if code == 1 then Some(Previous) else if code == 2 then Some(StraightLine)
    else if code == 3 then Some(Average2) else if code == 11 then Some(MinMotor) else if code == 5 then Some(Motor0)
    else if code == 6 then Some(Increment) else if code == 8 then Some(Center1500)
    else if code == 9 then Some(VbatRef) else None
  }

  function EncodingOf(code: nat): Option<Encoding> {
    if code == 0 then Some(SignedVb) else if code == 1 then Some(UnsignedVb) else if code == 3 then Some(Neg14Bit)
    else if code == 6 then Some(Tag8Svb) else if code == 7 then Some(Tag2Of3) else if code == 8 then Some(Tag8Of4)
    else if code == 9 then Some(Null) else None
  }

  lemma CodesBack(p: Predictor, e: Encoding)
    ensures PredictorOf(PredictorCode(p)) == Some(p) && PredictorCode(p) < 100
    ensures EncodingOf(EncodingCode(e)) == Some(e) && EncodingCode(e) < 100
  {
  }

  // ---------------------------------------------------------------- the reader of the header

  function ItemRead(name: string, predictor: string, encoding: string): Option<Item> {
    match (SlotOf(name), PredictorOf(Number(predictor)), EncodingOf(Number(encoding)))
    case (Some(f), Some(p), Some(e)) => Some(Item(f, p, e))
    case _ => None
  }

  function ItemsRead(names: seq<string>, predictors: seq<string>, encodings: seq<string>): Option<seq<Item>>
    decreases |names|
  {
    if !(|names| == |predictors| == |encodings|) then None
    else if names == [] then Some([])
    else
      var n := |names| - 1;
      match (ItemsRead(names[..n], predictors[..n], encodings[..n]), ItemRead(names[n], predictors[n], encodings[n]))
      case (Some(items), Some(item)) => Some(items + [item])
      case _ => None
  }

  /** The fields of one kind of frame, read from the header alone. */
  function HeaderRead(text: string, intra: bool): Option<seq<Item>> {
    var lines := Split(text, '\n');
    if |lines| != 7 then None
    else ItemsRead(LineCells(lines[0]), LineCells(lines[if intra then 2 else 4]),
                   LineCells(lines[if intra then 3 else 5]))
  }

  // ---------------------------------------------------------------- the theorem

  predicate SmallIndex(d: FieldDef) { -1 <= Index(d.slot) < 10 }

  lemma CellOf(c: Config, rows: seq<FieldDef>, d: FieldDef, h: nat)
    requires SmallIndex(d) && h < 6
    ensures (var cell := Cell(MainJob(c, rows), h, FieldFor(c, d));
             cell == if h == 0 then SlotText(d.slot)
                     else Decimal([SignedFlag(d.slot), PredictorCode(d.iPredict), EncodingCode(d.iEncode),
                                   PredictorCode(d.pPredict), EncodingCode(d.pEncode)][h - 1]))
  {
    hide Decimal, Name;
  }

  lemma FieldCellPlain(c: Config, rows: seq<FieldDef>, d: FieldDef, h: nat)
    requires SmallIndex(d)
    ensures CellPlain(MainJob(c, rows), h, FieldFor(c, d))
  {
    hide Decimal, Name, SlotText, Cell;
    if h < 6 {
      CellOf(c, rows, d, h);
      SlotBack(d.slot);
      CodesBack(d.iPredict, d.iEncode);
      CodesBack(d.pPredict, d.pEncode);
      if h > 0 {
        SmallNumber([SignedFlag(d.slot), PredictorCode(d.iPredict), EncodingCode(d.iEncode),
                     PredictorCode(d.pPredict), EncodingCode(d.pEncode)][h - 1]);
      }
    } else {
      NoCell(c, rows, d, h);
    }
  }

  lemma NoCell(c: Config, rows: seq<FieldDef>, d: FieldDef, h: nat)
    requires h >= 6
    ensures Cell(MainJob(c, rows), h, FieldFor(c, d)) == ""
  {
  }

  lemma MainSeparable(c: Config, rows: seq<FieldDef>)
    requires forall d :: d in rows ==> SmallIndex(d)
    ensures Separable(MainJob(c, rows))
  {
    hide FieldFor, Cell, CellPlain, SmallIndex;
    var j := MainJob(c, rows);
    forall h: nat, f | f in j.fields ensures CellPlain(j, h, f) {
      var i :| 0 <= i < |rows| && f == FieldFor(c, rows[i]);
      FieldCellPlain(c, rows, rows[i], h);
    }
    HeadingsPlain(c, rows);
  }

  lemma HeadingsPlain(c: Config, rows: seq<FieldDef>)
    ensures (var j := MainJob(c, rows);
             forall h :: 0 <= h < |j.headings| ==> Plain(j.headings[h], ':') && Plain(j.headings[h], '\n'))
  {
  }

  /** What one kind of frame needs from the header, by line. */
  function FrameLine(intra: bool, which: nat): nat { if which == 0 then 0 else if intra then 1 + which else 3 + which }

  /** An enabled row comes back from its three cells. */
  lemma RowRead(c: Config, rows: seq<FieldDef>, d: FieldDef, intra: bool)
    requires SmallIndex(d)
    ensures (var j, f := MainJob(c, rows), FieldFor(c, d);
             ItemRead(Cell(j, 0, f), Cell(j, FrameLine(intra, 1), f), Cell(j, FrameLine(intra, 2), f))
                 == Some(ItemOf(d, intra)))
  {
    hide Decimal, Name, SlotText, Cell, SlotOf, Number, PredictorOf, EncodingOf, PredictorCode, EncodingCode, FieldFor,
      MainJob;
    CellOf(c, rows, d, 0);
    CellOf(c, rows, d, FrameLine(intra, 1));
    CellOf(c, rows, d, FrameLine(intra, 2));
    SlotBack(d.slot);
    CodesBack(d.iPredict, d.iEncode);
    CodesBack(d.pPredict, d.pEncode);
    SmallNumber(PredictorCode(ItemOf(d, intra).predict));
    SmallNumber(EncodingCode(ItemOf(d, intra).encode));
  }

  /** The three lines of cells a kind of frame is read from. */
  ghost predicate LinesRead(c: Config, rows: seq<FieldDef>, intra: bool, n: nat)
    requires n <= |rows|
  {
    var j := MainJob(c, rows);
    var names, predictors, encodings :=
        Shown(j, 0, n), Shown(j, FrameLine(intra, 1), n), Shown(j, FrameLine(intra, 2), n);
    |names| == |predictors| == |encodings|
        && ItemsRead(names, predictors, encodings) == Some(Select(c, rows[..n], intra))
  }

  lemma ItemsReadNext(names: seq<string>, predictors: seq<string>, encodings: seq<string>, x: string, y: string,
                      z: string)
    requires |names| == |predictors| == |encodings|
    ensures ItemsRead(names + [x], predictors + [y], encodings + [z])
         == match (ItemsRead(names, predictors, encodings), ItemRead(x, y, z))
            case (Some(items), Some(item)) => Some(items + [item])
            case _ => None
  {
    hide ItemRead;
    FrontOf(names, x);
    FrontOf(predictors, y);
    FrontOf(encodings, z);
  }

  lemma ShownNext(c: Config, rows: seq<FieldDef>, h: nat, n: nat)
    requires n < |rows|
    ensures (var j := MainJob(c, rows);
             Shown(j, h, n + 1)
             == Shown(j, h, n) + if Test(c, rows[n].condition) then [Cell(j, h, FieldFor(c, rows[n]))] else [])
  {
    hide Cell;
  }

  lemma SelectNext(c: Config, rows: seq<FieldDef>, intra: bool, n: nat)
    requires n < |rows|
    ensures Select(c, rows[..n + 1], intra)
         == Select(c, rows[..n], intra) + if Test(c, rows[n].condition) then [ItemOf(rows[n], intra)] else []
  {
    hide Select, Test;
    assert rows[..n + 1] == rows[..n] + [rows[n]];
    SelectAppend(c, rows[..n], [rows[n]], intra);
    OneRow(c, rows[n], intra);
  }

  lemma {:induction false} RowsRead(c: Config, rows: seq<FieldDef>, intra: bool, n: nat)
    requires n <= |rows| && forall d :: d in rows ==> SmallIndex(d)
    ensures LinesRead(c, rows, intra, n)
  {
    hide Cell, SmallIndex, Test, ItemRead, FrameLine, Shown, Select, ItemsRead, FieldFor;
    var j, predictors, encodings := MainJob(c, rows), FrameLine(intra, 1), FrameLine(intra, 2);
    if n > 0 {
      var m, d := n - 1, rows[n - 1];
      RowsRead(c, rows, intra, m);
      assert d in rows;
      ShownNext(c, rows, 0, m);
      ShownNext(c, rows, predictors, m);
      ShownNext(c, rows, encodings, m);
      SelectNext(c, rows, intra, m);
      RowRead(c, rows, d, intra);
      if Test(c, d.condition) {
        var f := FieldFor(c, d);
        ItemsReadNext(Shown(j, 0, m), Shown(j, predictors, m), Shown(j, encodings, m),
                      Cell(j, 0, f), Cell(j, predictors, f), Cell(j, encodings, f));
      } else {
        NothingAdded(Shown(j, 0, m));
        NothingAdded(Shown(j, predictors, m));
        NothingAdded(Shown(j, encodings, m));
        NothingAdded(Select(c, rows[..m], intra));
      }
    } else {
      NothingRead(c, rows, intra);
    }
  }

  lemma NothingAdded<T>(s: seq<T>)
    ensures s + [] == s
  {
  }

  lemma NothingRead(c: Config, rows: seq<FieldDef>, intra: bool)
    ensures LinesRead(c, rows, intra, 0)
  {
    assert rows[..0] == [];
  }

  lemma FrontOf(s: seq<string>, x: string)
    ensures (s + [x])[..|s|] == s && (s + [x])[|s|] == x
  {
  }

  lemma OneRow(c: Config, d: FieldDef, intra: bool)
    ensures Select(c, [d], intra) == if Test(c, d.condition) then [ItemOf(d, intra)] else []
  {
    hide Test;
    assert [d][1..] == [];
    EmptySelect(c, intra);
  }

  lemma {:induction false} SomeBefore(j: Job, n: nat, i: nat)
    requires i < n <= |j.fields| && j.fields[i].enabled
    ensures AnyBefore(j, n)
  {
    if i < n - 1 { SomeBefore(j, n - 1, i); }
  }

  /** Reading the header of any table with an enabled row gives its enabled rows, in order. */
  lemma AnnouncedIsRead(c: Config, rows: seq<FieldDef>, intra: bool)
    requires (forall d :: d in rows ==> SmallIndex(d)) && rows != [] && Test(c, rows[0].condition)
    ensures HeaderRead(Text(MainJob(c, rows)), intra) == Some(Select(c, rows, intra))
  {
    hide Cells, Heading, Split, LineCells, Shown, ItemsRead, Separable, Lines, LineText, Test, FieldFor, SmallIndex;
    var j := MainJob(c, rows);
    MainSeparable(c, rows);
    LinesSplit(j, 6);
    assert j.fields[0].enabled by { EnabledIs(c, rows[0]); }
    SomeBefore(j, |rows|, 0);
    LineCellsAre(j, 0);
    LineCellsAre(j, if intra then 2 else 4);
    LineCellsAre(j, if intra then 3 else 5);
    RowsRead(c, rows, intra, |rows|);
    assert rows[..|rows|] == rows;
  }

  lemma EnabledIs(c: Config, d: FieldDef)
    ensures FieldFor(c, d).enabled == Test(c, d.condition)
  {
  }

  lemma {:induction false} PartIndices(a: Array, n: nat)
    requires n <= 8
    ensures forall d :: d in Rows(a, n) ==> SmallIndex(d)
  {
    if n > 0 { PartIndices(a, n - 1); }
  }

  lemma TableIndices()
    ensures forall d :: d in Table() ==> SmallIndex(d)
  {
    hide Rows, SmallIndex;
    PartIndices(AxesP, 3);
    PartIndices(AxesI, 3);
    PartIndices(AxesD, 3);
    PartIndices(AxesF, 3);
    PartIndices(AxesS, 3);
    PartIndices(RcCommands4, 4);
    PartIndices(Setpoint4, 4);
    PartIndices(Mag3, 3);
    PartIndices(Gyro3, 3);
    PartIndices(GyroUnfilt3, 3);
    PartIndices(Acc3, 3);
    PartIndices(Quaternion3, 3);
    PartIndices(Debug8, 8);
    PartIndices(FirstMotor, 1);
    PartIndices(OtherMotors, 7);
    PartIndices(Servo8, 8);
    PartIndices(Erpm8, 8);
    SingleIndices();
    forall d | d in Table() ensures SmallIndex(d) { InSomePart(d); }
  }

  lemma SingleIndices()
    ensures SmallIndex(ITERATION) && SmallIndex(TIME) && SmallIndex(VBAT) && SmallIndex(AMPERAGE)
    ensures SmallIndex(BARO_ALT) && SmallIndex(SURFACE_RAW) && SmallIndex(RSSI)
  {
  }

  lemma InSomePart(d: FieldDef)
    requires d in Table()
    ensures || d in {ITERATION, TIME, VBAT, AMPERAGE, BARO_ALT, SURFACE_RAW, RSSI}
            || d in Rows(AxesP, 3) || d in Rows(AxesI, 3) || d in Rows(AxesD, 3) || d in Rows(AxesF, 3)
            || d in Rows(AxesS, 3)
            || d in Rows(RcCommands4, 4) || d in Rows(Setpoint4, 4) || d in Rows(Mag3, 3) || d in Rows(Gyro3, 3)
            || d in Rows(GyroUnfilt3, 3) || d in Rows(Acc3, 3) || d in Rows(Quaternion3, 3) || d in Rows(Debug8, 8)
            || d in Rows(FirstMotor, 1) || d in Rows(OtherMotors, 7) || d in Rows(Servo8, 8) || d in Rows(Erpm8, 8)
  {
    hide Rows;
  }

  /** The header that is sent for the main frames tells a reader the very fields the frames are read by. */
  lemma HeaderAnnouncesTable(c: Config, intra: bool)
    ensures HeaderRead(Text(MainJob(c, Table())), intra) == Some(Select(c, Table(), intra))
  {
    hide HeaderRead, Text, MainJob, Select, SmallIndex, AllRows;
    TableIndices();
    FirstRow(c);
    AnnouncedIsRead(c, Table(), intra);
  }

  lemma FirstRow(c: Config)
    ensures Table() != [] && Test(c, Table()[0].condition)
  {
    hide Rows, RestOfPid, Noisy, Optional, Tail;
    assert Table()[0] == Layout().part.rows[0] == ITERATION;
  }

  /** Its numbers are short, so the budget covers what is written. */
  lemma MainHeaderFits(c: Config)
    ensures (var j := MainJob(c, Table()); j.Valid() && AllTwoDigits(j) && forall f :: f in j.fields ==> |f.name| <= 14)
  {
    hide Table, SmallIndex;
    TableIndices();
    var j := MainJob(c, Table());
    forall f | f in j.fields
      ensures |j.headings| <= |f.values| + 1 && TwoDigits(f.index)
      ensures (forall v :: v in f.values ==> TwoDigits(v)) && |f.name| <= 14
    {
      var i :| 0 <= i < |Table()| && f == FieldFor(c, Table()[i]);
      ShortField(c, Table()[i]);
    }
  }

  /** The largest piece is the heading of a line of predictors. */
  lemma MainHeaderRoomy(c: Config, bytes: int)
    ensures Roomy(MainJob(c, Table()), bytes) <==> bytes >= 20
  {
    hide Table, FieldsFor;
    MainHeaderFits(c);
    hide AllTwoDigits;
    var j := MainJob(c, Table());
    assert |j.headings[2]| == 9;
    if Roomy(j, bytes) { RoomForHeading(j, 2, bytes); }
    if bytes >= 20 {
      forall h | 0 <= h < |j.headings|
        ensures LineFits(j, h, bytes)
      {
        forall i | 0 <= i < |j.fields|
          ensures FieldFits(h, j.fields[i], bytes)
        {
          assert j.fields[i] in j.fields;
        }
      }
    }
  }

  /** Wherever it stands, the main header is out once the device has drained often enough with room for 20 bytes. */
  lemma MainHeaderEnds(c: Config, p: Place, rounds: seq<Round>)
    requires PlaceOk(MainJob(c, Table()), p) && Chances(20, rounds) >= Ahead(MainJob(c, Table()), p)
    ensures AfterRounds(MainJob(c, Table()), p, rounds).header == 6
  {
    hide Table, AfterRounds, Chances, Ahead, Roomy, FieldsFor;
    MainHeaderRoomy(c, 20);
    TransmissionEnds(MainJob(c, Table()), p, 20, rounds);
  }

  /** On a device whose state stays the same, it is out at some time exactly if there is room for 20 bytes. */
  lemma MainHeaderEndsExactly(c: Config, budget: nat, r: Round)
    requires r.virtual || r.perIteration >= 1
    ensures (exists n: nat :: AfterRounds(MainJob(c, Table()), Place(0, -1, budget), Same(r, n)).header == 6)
            <==> Capacity(r) >= 20
  {
    hide Table, AfterRounds, Roomy, FieldsFor;
    MainHeaderRoomy(c, Capacity(r));
    EndsExactly(MainJob(c, Table()), budget, r);
  }

  lemma ShortField(c: Config, d: FieldDef)
    requires SmallIndex(d)
    ensures (var f := FieldFor(c, d);
             |f.values| == 5 && TwoDigits(f.index) && (forall v :: v in f.values ==> TwoDigits(v)) && |f.name| <= 14)
  {
    hide Test;
    CodesBack(d.iPredict, d.iEncode);
    CodesBack(d.pPredict, d.pEncode);
    hide PredictorCode, EncodingCode;
  }
}
