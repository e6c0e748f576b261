/** Whole frames: the bytes the intra and inter frame writers emit, and the theorem that the table-driven reader gets
    every enabled field of the state back. */
module BlackboxRoundTrip {
  import opened Words
  import opened BlackboxEncoding
  import opened BlackboxFields
  import opened BlackboxFrames

  // ---------------------------------------------------------------- what is written for consecutive rows

  function Fields(c: Config, part: Part, intra: bool): seq<Item> { Select(c, part.rows, intra) }

  function GroupOf(part: Part, intra: bool): Encoding { if intra then part.iGroup else part.pGroup }

  function PackGroup(e: Encoding, rs: seq<bv32>): Bytes { if GroupSize(e, |rs|) then Packed(e, rs) else [] }

  /** The enabled fields of these rows, one by one or as one group. */
  function PutPart(c: Config, part: Part, intra: bool, s: MainState, p1: MainState, p2: MainState): Bytes {
    if GroupOf(part, intra) == Null then Put(c, Fields(c, part, intra), s, p1, p2)
    else PackGroup(GroupOf(part, intra), Residuals(c, Fields(c, part, intra), s, p1, p2))
  }

  function PutParts(c: Config, parts: Parts, intra: bool, s: MainState, p1: MainState, p2: MainState): Bytes {
    if parts.End? then [] else PutPart(c, parts.part, intra, s, p1, p2) + PutParts(c, parts.more, intra, s, p1, p2)
  }

  // ---------------------------------------------------------------- selected fields

  /** The field survives, and the reader will make the writer's prediction unless that is the first motor of this
      frame. */
  predicate RowOk(c: Config, d: FieldDef, intra: bool, cur: MainState, p1: MainState, p2: MainState, h1: Values,
                  h2: Values) {
    var item := ItemOf(d, intra);
    && Sound(c, item, cur, p1, p2)
    && (item.predict == Motor0 || Predict(c, item, h1, h2, map[]) == Expected(c, item, cur, p1, p2))
  }

  predicate RowsOk(c: Config, rows: seq<FieldDef>, intra: bool, cur: MainState, p1: MainState, p2: MainState,
                   h1: Values, h2: Values) {
    forall d :: d in rows && Test(c, d.condition) ==> RowOk(c, d, intra, cur, p1, p2, h1, h2)
  }

  /** No enabled row is predicted by the first motor, or that motor has been read. */
  predicate MotorKnown(c: Config, rows: seq<FieldDef>, intra: bool, cur: MainState, now: Values) {
    (forall d :: d in rows && Test(c, d.condition) ==> ItemOf(d, intra).predict != Motor0) || Tells(now, cur, Motor(0))
  }

  lemma {:induction false} SelectOk(c: Config, rows: seq<FieldDef>, intra: bool, cur: MainState, p1: MainState,
                                    p2: MainState, h1: Values, h2: Values, now: Values)
    requires RowsOk(c, rows, intra, cur, p1, p2, h1, h2) && MotorKnown(c, rows, intra, cur, now)
    ensures AllSound(c, Select(c, rows, intra), cur, p1, p2)
    ensures Foreseen(c, Select(c, rows, intra), cur, p1, p2, h1, h2, now)
    decreases |rows|
  {
    hide Test, Sound, Predict, Expected, At, RowsOk, MotorKnown, Tells;
    if rows != [] {
      var items, item, more := Select(c, rows, intra), ItemOf(rows[0], intra), Select(c, rows[1..], intra);
      RowsOkParts(c, rows, intra, cur, p1, p2, h1, h2);
      if Test(c, rows[0].condition) {
        var next := now[item.slot := At(cur, item.slot)];
        assert items == [item] + more && items[1..] == more;
        MotorKnownParts(c, rows, intra, cur, now, next);
        Predicted(c, rows[0], intra, cur, p1, p2, h1, h2, now);
        SelectOk(c, rows[1..], intra, cur, p1, p2, h1, h2, next);
      } else {
        assert items == more;
        MotorKnownParts(c, rows, intra, cur, now, now);
        SelectOk(c, rows[1..], intra, cur, p1, p2, h1, h2, now);
      }
    }
  }

  lemma RowsOkParts(c: Config, rows: seq<FieldDef>, intra: bool, cur: MainState, p1: MainState, p2: MainState,
                    h1: Values, h2: Values)
    requires rows != [] && RowsOk(c, rows, intra, cur, p1, p2, h1, h2)
    ensures Test(c, rows[0].condition) ==> RowOk(c, rows[0], intra, cur, p1, p2, h1, h2)
    ensures RowsOk(c, rows[1..], intra, cur, p1, p2, h1, h2)
  {
    hide Test, RowOk;
    assert rows[0] in rows;
  }

  lemma MotorKnownParts(c: Config, rows: seq<FieldDef>, intra: bool, cur: MainState, now: Values, next: Values)
    requires rows != [] && MotorKnown(c, rows, intra, cur, now)
    requires next == now || next == now[ItemOf(rows[0], intra).slot := At(cur, ItemOf(rows[0], intra).slot)]
    ensures MotorKnown(c, rows[1..], intra, cur, next)
    ensures Test(c, rows[0].condition) && ItemOf(rows[0], intra).predict == Motor0 ==> Tells(now, cur, Motor(0))
  {
    hide Test;
    assert rows[0] in rows;
  }

  lemma Predicted(c: Config, d: FieldDef, intra: bool, cur: MainState, p1: MainState, p2: MainState, h1: Values,
                  h2: Values, now: Values)
    requires RowOk(c, d, intra, cur, p1, p2, h1, h2)
    requires ItemOf(d, intra).predict == Motor0 ==> Tells(now, cur, Motor(0))
    ensures Predict(c, ItemOf(d, intra), h1, h2, now) == Expected(c, ItemOf(d, intra), cur, p1, p2)
  {
    hide Plus, Minus, HalfSum, Sound, At;
  }

  lemma SelectStep(c: Config, rows: seq<FieldDef>, intra: bool)
    requires rows != []
    ensures var items, more := Select(c, rows, intra), Select(c, rows[1..], intra);
      if Test(c, rows[0].condition) then items != [] && items[0] == ItemOf(rows[0], intra) && items[1..] == more
      else items == more
  {
    hide Test;
  }

  /** The rows can be written the way the writers write them. */
  predicate Fitting(rows: seq<FieldDef>, intra: bool, group: Encoding) {
    forall d :: d in rows
        ==> if group == Null then Simple(ItemOf(d, intra).encode) else ItemOf(d, intra).encode == group
  }

  lemma {:induction false} SelectFitting(c: Config, rows: seq<FieldDef>, intra: bool, group: Encoding)
    requires Fitting(rows, intra, group)
    ensures |Select(c, rows, intra)| <= |rows|
    ensures if group == Null then AllSimple(Select(c, rows, intra)) else Uniform(Select(c, rows, intra), group)
  {
    hide Test;
    if rows != [] {
      assert rows[0] in rows;
      SelectFitting(c, rows[1..], intra, group);
      SelectStep(c, rows, intra);
    }
  }

  // ---------------------------------------------------------------- the frame so far

  lemma {:induction false} AddAllAppend(now: Values, a: seq<Item>, b: seq<Item>, cur: MainState)
    ensures AddAll(now, a + b, cur) == AddAll(AddAll(now, a, cur), b, cur)
    decreases |a|
  {
    hide At;
    if a == [] {
      assert a + b == b;
    } else {
      assert (a + b)[1..] == a[1..] + b;
      AddAllAppend(now[a[0].slot := At(cur, a[0].slot)], a[1..], b, cur);
    }
  }

  /** True values stay, and those of the added fields come. */
  lemma {:induction false} AddAllTells(now: Values, items: seq<Item>, cur: MainState, f: Slot)
    requires Tells(now, cur, f) || Has(items, f)
    ensures Tells(AddAll(now, items, cur), cur, f)
    decreases |items|
  {
    hide At;
    if items != [] {
      AddAllTells(now[items[0].slot := At(cur, items[0].slot)], items[1..], cur, f);
    }
  }

  // ---------------------------------------------------------------- part by part

  /** What the reader needs of the rows of one part, `later` being the fields after it. */
  predicate PartReads(c: Config, part: Part, later: seq<Item>, intra: bool, cur: MainState, p1: MainState,
                      p2: MainState, h1: Values, h2: Values, now: Values) {
    var e, n := GroupOf(part, intra), |Fields(c, part, intra)|;
    && RowsOk(c, part.rows, intra, cur, p1, p2, h1, h2) && MotorKnown(c, part.rows, intra, cur, now)
    && Fitting(part.rows, intra, e)
    && (e != Null ==> n == 0 || GroupSize(e, n))
    && (e == Tag8Svb && 0 < n < 8 ==> Breaks(later))
  }

  /** The reader does not run a group together with these fields. */
  predicate Breaks(later: seq<Item>) { later == [] || later[0].encode != Tag8Svb }

  predicate PartsRead(c: Config, parts: Parts, intra: bool, cur: MainState, p1: MainState, p2: MainState,
                      h1: Values, h2: Values, now: Values)
    decreases parts
  {
    parts.End? ||
    (&& PartReads(c, parts.part, Select(c, AllRows(parts.more), intra), intra, cur, p1, p2, h1, h2, now)
     && PartsRead(c, parts.more, intra, cur, p1, p2, h1, h2, AddAll(now, Fields(c, parts.part, intra), cur)))
  }

  lemma DecodePart(c: Config, part: Part, later: seq<Item>, intra: bool, cur: MainState, p1: MainState, p2: MainState,
                   h1: Values, h2: Values, now: Values, rest: Bytes)
    requires PartReads(c, part, later, intra, cur, p1, p2, h1, h2, now)
    ensures Decode(c, Fields(c, part, intra) + later, PutPart(c, part, intra, cur, p1, p2) + rest, h1, h2, now)
         == Decode(c, later, rest, h1, h2, AddAll(now, Fields(c, part, intra), cur))
  {
    hide RowsOk, MotorKnown, Fitting, Select, Decode, Put, Packed, AllSound, Foreseen, Uniform, AllSimple, Residuals;
    var e, items := GroupOf(part, intra), Fields(c, part, intra);
    SelectFitting(c, part.rows, intra, e);
    SelectOk(c, part.rows, intra, cur, p1, p2, h1, h2, now);
    if e == Null {
      hide AddAll;
      DecodeSimple(c, items, later, cur, p1, p2, h1, h2, now, rest);
    } else if GroupSize(e, |items|) {
      hide AddAll, GroupSize;
      DecodeGroup(c, items, e, later, cur, p1, p2, h1, h2, now, rest);
    } else {
      assert items + later == later && PutPart(c, part, intra, cur, p1, p2) + rest == rest;
    }
  }

  lemma Regroup<T>(a: seq<T>, b: seq<T>, c: seq<T>)
    ensures (a + b) + c == a + (b + c)
  {
  }

  /** The parts written one after the other are read back, in front of any following bytes. */
  lemma {:induction false} DecodeParts(c: Config, parts: Parts, intra: bool, cur: MainState, p1: MainState,
                                       p2: MainState, h1: Values, h2: Values, now: Values, rest: Bytes)
    requires PartsRead(c, parts, intra, cur, p1, p2, h1, h2, now)
    ensures var items := Select(c, AllRows(parts), intra);
      Decode(c, items, PutParts(c, parts, intra, cur, p1, p2) + rest, h1, h2, now)
          == Frame(AddAll(now, items, cur), rest)
    decreases parts
  {
    hide PartReads, Select, PutPart;
    if parts.End? {
      assert Select(c, [], intra) == [] by { EmptySelect(c, intra); }
      assert [] + rest == rest;
    } else {
      var part, more := parts.part, parts.more;
      var first, later := Fields(c, part, intra), Select(c, AllRows(more), intra);
      var bytes, after := PutPart(c, part, intra, cur, p1, p2), PutParts(c, more, intra, cur, p1, p2);
      hide Decode, AddAll, AllRows;
      assert AllRows(parts) == part.rows + AllRows(more) by { RowsStep(parts); }
      SelectAppend(c, part.rows, AllRows(more), intra);
      Regroup(bytes, after, rest);
      DecodePart(c, part, later, intra, cur, p1, p2, h1, h2, now, after + rest);
      DecodeParts(c, more, intra, cur, p1, p2, h1, h2, AddAll(now, first, cur), rest);
      AddAllAppend(now, first, later, cur);
    }
  }

  lemma EmptySelect(c: Config, intra: bool)
    ensures Select(c, [], intra) == []
  {
  }

  lemma RowsStep(parts: Parts)
    requires parts.Next?
    ensures AllRows(parts) == parts.part.rows + AllRows(parts.more)
  {
  }
}
