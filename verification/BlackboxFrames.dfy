/** The frames the writers emit, and the proof that the reader of `BlackboxFields` recovers every enabled field. */
module BlackboxFrames {
  import opened Words
  import opened BlackboxEncoding
  import opened BlackboxFields

  // ---------------------------------------------------------------- what a writer puts in the log

  /** The prediction as the writer sees it: `p1` and `p2` are the last two states. */
  function Expected(c: Config, item: Item, cur: MainState, p1: MainState, p2: MainState): bv32 {
    match item.predict
    case Zero => 0
    case Previous => At(p1, item.slot)
    case StraightLine => Minus(Plus(At(p1, item.slot), At(p1, item.slot)), At(p2, item.slot))
    case Average2 => HalfSum(At(p1, item.slot), At(p2, item.slot))
    case MinMotor => c.motorLow
    case Motor0 => At(cur, Motor(0))
    case Increment => Plus(At(p1, item.slot), c.pInterval)
    case Center1500 => 1500
    case VbatRef => c.vbatReference
  }

  function Difference(encode: Encoding, prediction: bv32, value: bv32): bv32 {
    if encode == Neg14Bit then LowBits14(Minus(prediction, value)) else Minus(value, prediction)
  }

  function Residual(c: Config, item: Item, cur: MainState, p1: MainState, p2: MainState): bv32 {
    Difference(item.encode, Expected(c, item, cur, p1, p2), At(cur, item.slot))
  }

  predicate Simple(e: Encoding) { e == UnsignedVb || e == SignedVb || e == Neg14Bit || e == Null }

  function PutOne(e: Encoding, residual: bv32): Bytes {
    match e
    case UnsignedVb => UnsignedVB(residual)
    case Neg14Bit => UnsignedVB(residual)
    case SignedVb => SignedVB(residual)
    case _ => []
  }

  /** Fields written one by one. */
  function Put(c: Config, items: seq<Item>, cur: MainState, p1: MainState, p2: MainState): Bytes {
    if items == [] then []
    else PutOne(items[0].encode, Residual(c, items[0], cur, p1, p2)) + Put(c, items[1..], cur, p1, p2)
  }

  function Residuals(c: Config, items: seq<Item>, cur: MainState, p1: MainState, p2: MainState): (rs: seq<bv32>)
    ensures |rs| == |items|
  {
    if items == [] then [] else [Residual(c, items[0], cur, p1, p2)] + Residuals(c, items[1..], cur, p1, p2)
  }

  // ---------------------------------------------------------------- what the reader makes of it

  /** The frame `now` with the true values of some fields added. */
  function AddAll(now: Values, items: seq<Item>, cur: MainState): Values
    decreases |items|
  {
    if items == [] then now else AddAll(now[items[0].slot := At(cur, items[0].slot)], items[1..], cur)
  }

  predicate Tells(h: Values, p: MainState, f: Slot) { f in h && h[f] == At(p, f) }

  /** The reader's prediction of each field will be the writer's. */
  predicate Foreseen(c: Config, items: seq<Item>, cur: MainState, p1: MainState, p2: MainState, h1: Values, h2: Values,
                     now: Values)
    decreases |items|
  {
    items == [] ||
    (&& Predict(c, items[0], h1, h2, now) == Expected(c, items[0], cur, p1, p2)
     && Foreseen(c, items[1..], cur, p1, p2, h1, h2, now[items[0].slot := At(cur, items[0].slot)]))
  }

  /** The value survives its encoding: 14 bits are enough for the voltage drop, 16 for a stick, and a field that is not
      written is the predicted one. */
  predicate Sound(c: Config, item: Item, cur: MainState, p1: MainState, p2: MainState) {
    match item.encode
    case Neg14Bit => Fits14(Minus(Expected(c, item, cur, p1, p2), At(cur, item.slot)))
    case Tag8Of4 => Fits16(At(cur, item.slot))
    case Null => At(cur, item.slot) == Expected(c, item, cur, p1, p2)
    case _ => true
  }

  predicate AllSound(c: Config, items: seq<Item>, cur: MainState, p1: MainState, p2: MainState) {
    items == [] || (Sound(c, items[0], cur, p1, p2) && AllSound(c, items[1..], cur, p1, p2))
  }

  predicate AllSimple(items: seq<Item>) { items == [] || (Simple(items[0].encode) && AllSimple(items[1..])) }

  // ---------------------------------------------------------------- one field

  lemma WrapFacts(x: bv32)
    ensures (x - (if x & 0xFFFF < 0x8000 then x & 0xFFFF else (x & 0xFFFF) | 0xFFFF_0000)) & 0xFFFF == 0
  {
  }

  lemma HighFacts(v: bv32, h: bv32)
    requires h & 0xFFFF == 0
    ensures (v - h) & 0xFFFF == v & 0xFFFF
  {
  }

  lemma MaskFacts(v: bv32)
    ensures (v & 0x3FFF) & 0x3FFF == v & 0x3FFF
  {
  }

  /** Wrapping to 16 bits takes away a multiple of 2^16. */
  lemma WrapTakesHigh(x: bv32)
    ensures LowBits16(Minus(x, Wrap16(x))) == 0
  {
    WrapFacts(x);
    assert Wrap16(x) == if x & 0xFFFF < 0x8000 then x & 0xFFFF else (x & 0xFFFF) | 0xFFFF_0000;
  }

  /** Multiples of 2^16 do not touch the low bits. */
  lemma HighChangesNothing(v: bv32, h: bv32)
    requires LowBits16(h) == 0
    ensures LowBits16(Minus(v, h)) == LowBits16(v)
  {
    HighFacts(v, h);
  }

  lemma SameLowBits16(p: bv32, v: bv32)
    ensures LowBits16(Plus(p, Wrap16(Minus(v, p)))) == LowBits16(v)
  {
    hide LowBits16, Plus, Minus, Wrap16;
    var x := Minus(v, p);
    PlusMinus(v, p);
    assert Minus(v, x) == p;
    MinusMinus(v, x, Wrap16(x));
    WrapTakesHigh(x);
    HighChangesNothing(v, Minus(x, Wrap16(x)));
  }

  lemma SameLowBits14(v: bv32)
    ensures LowBits14(LowBits14(v)) == LowBits14(v)
  {
    MaskFacts(v);
  }

  /** What arrives of a residual. */
  function Received(e: Encoding, r: bv32): bv32 { if e == Tag8Of4 then Wrap16(r) else if e == Null then 0 else r }

  lemma CorrectsWrapped(p: bv32, v: bv32)
    requires Fits16(v)
    ensures Wrap16(Plus(p, Wrap16(Minus(v, p)))) == v
  {
    hide LowBits16, Plus, Minus, Extend16, Fits16;
    SameLowBits16(p, v);
    Extended16(v);
  }

  lemma CorrectsNegated(p: bv32, v: bv32)
    requires Fits14(Minus(p, v))
    ensures Minus(p, Extend14(LowBits14(LowBits14(Minus(p, v))))) == v
  {
    hide LowBits14, Minus, Extend14, Fits14;
    SameLowBits14(Minus(p, v));
    Extended14(Minus(p, v));
    PlusMinus(p, v);
  }

  /** Adding what arrives to the prediction gives the field back. */
  lemma Corrects(c: Config, item: Item, cur: MainState, p1: MainState, p2: MainState)
    requires Sound(c, item, cur, p1, p2)
    ensures Correct(item.encode, Expected(c, item, cur, p1, p2), Received(item.encode, Residual(c, item, cur, p1, p2)))
         == At(cur, item.slot)
  {
    hide Expected, At, Wrap16, Fits16, Fits14, LowBits14, Extend14, Plus, Minus;
    var e, p, v := item.encode, Expected(c, item, cur, p1, p2), At(cur, item.slot);
    PlusMinus(p, v);
    if e == Tag8Of4 {
      CorrectsWrapped(p, v);
    } else if e == Neg14Bit {
      CorrectsNegated(p, v);
    }
  }

  // ---------------------------------------------------------------- fields written one by one

  lemma ReadsOne(e: Encoding, r: bv32, rest: Bytes)
    requires Simple(e)
    ensures ReadBlock(e, 1, PutOne(e, r) + rest) == GotList([Received(e, r)], rest)
  {
    hide UnsignedVB, SignedVB, ReadUnsigned, ReadSigned;
    UnsignedVBRoundTrip(r, rest);
    SignedVBRoundTrip(r, rest);
    assert [] + rest == rest;
  }

  lemma DecodeOne(c: Config, item: Item, items: seq<Item>, s: Bytes, v: bv32, rest: Bytes, h1: Values, h2: Values,
                  now: Values)
    requires Simple(item.encode) && items != [] && items[0] == item
    requires ReadBlock(item.encode, 1, s) == GotList([v], rest)
    ensures Decode(c, items, s, h1, h2, now)
         == Decode(c, items[1..], rest, h1, h2,
                   now[item.slot := Correct(item.encode, Predict(c, item, h1, h2, now), v)])
  {
    hide Predict, Correct, ReadBlock;
    assert BlockSize(items) == 1 && items[..1] == [item];
    hide BlockSize, Decode;
    DecodeBlock(c, items, 1, s, [v], rest, h1, h2, now);
    PlaceOne(c, item, v, h1, h2, now);
  }

  lemma PlaceOne(c: Config, item: Item, v: bv32, h1: Values, h2: Values, now: Values)
    ensures Place(c, [item], [v], h1, h2, now)
            == now[item.slot := Correct(item.encode, Predict(c, item, h1, h2, now), v)]
  {
    hide Predict, Correct;
    assert [item][1..] == [] && [v][1..] == [];
  }

  lemma DecodeBlock(c: Config, items: seq<Item>, n: nat, s: Bytes, vs: seq<bv32>, rest: Bytes, h1: Values, h2: Values,
                    now: Values)
    requires items != [] && n == BlockSize(items) == |vs| <= |items|
    requires ReadBlock(items[0].encode, n, s) == GotList(vs, rest)
    ensures Decode(c, items, s, h1, h2, now)
            == Decode(c, items[n..], rest, h1, h2, Place(c, items[..n], vs, h1, h2, now))
  {
    hide ReadBlock, Place, BlockSize;
  }

  /** Simple fields that are foreseen and sound are read back, whatever follows. */
  lemma {:induction false} DecodeSimple(c: Config, items: seq<Item>, later: seq<Item>, cur: MainState, p1: MainState,
                                        p2: MainState, h1: Values, h2: Values, now: Values, rest: Bytes)
    requires AllSimple(items) && AllSound(c, items, cur, p1, p2) && Foreseen(c, items, cur, p1, p2, h1, h2, now)
    ensures Decode(c, items + later, Put(c, items, cur, p1, p2) + rest, h1, h2, now)
         == Decode(c, later, rest, h1, h2, AddAll(now, items, cur))
    decreases |items|
  {
    hide Decode, Predict, Expected, At, Sound, PutOne, Residual, ReadBlock, Received, Correct;
    if items == [] {
      assert items + later == later && Put(c, items, cur, p1, p2) + rest == rest;
    } else {
      var item, more := items[0], items[1..];
      var r, v := Residual(c, item, cur, p1, p2), At(cur, item.slot);
      var after := Put(c, more, cur, p1, p2) + rest;
      assert Put(c, items, cur, p1, p2) + rest == PutOne(item.encode, r) + after;
      assert AddAll(now, items, cur) == AddAll(now[item.slot := v], more, cur);
      assert AllSound(c, more, cur, p1, p2) && Foreseen(c, more, cur, p1, p2, h1, h2, now[item.slot := v]);
      hide Put, AddAll, AllSound, Foreseen, AllSimple;
      ReadsOne(item.encode, r, after);
      Corrects(c, item, cur, p1, p2);
      DecodeOne(c, item, items + later, PutOne(item.encode, r) + after, Received(item.encode, r), after, h1, h2, now);
      assert (items + later)[1..] == more + later;
      DecodeSimple(c, more, later, cur, p1, p2, h1, h2, now[item.slot := v], rest);
    }
  }

  // ---------------------------------------------------------------- fields written as a group

  predicate Uniform(items: seq<Item>, e: Encoding) { items == [] || (items[0].encode == e && Uniform(items[1..], e)) }

  predicate GroupSize(e: Encoding, n: nat) {
    (e == Tag2Of3 && n == 3) || (e == Tag8Of4 && n == 4) || (e == Tag8Svb && n <= 8)
  }

  function Packed(e: Encoding, rs: seq<bv32>): Bytes
    requires GroupSize(e, |rs|)
  {
    if e == Tag2Of3 then Tag2_3S32(rs[0], rs[1], rs[2])
    else if e == Tag8Of4 then Tag8_4S16(rs[0], rs[1], rs[2], rs[3])
    else Tag8_8SVB(rs)
  }

  function ReceivedAll(e: Encoding, rs: seq<bv32>): (vs: seq<bv32>)
    ensures |vs| == |rs|
  {
    if rs == [] then [] else [Received(e, rs[0])] + ReceivedAll(e, rs[1..])
  }

  lemma {:induction false} ReceivedSame(e: Encoding, rs: seq<bv32>)
    requires e != Tag8Of4 && e != Null
    ensures ReceivedAll(e, rs) == rs
  {
    if rs != [] { ReceivedSame(e, rs[1..]); }
  }

  lemma {:induction false} ReceivedAt(e: Encoding, rs: seq<bv32>, i: nat)
    requires i < |rs|
    ensures ReceivedAll(e, rs)[i] == Received(e, rs[i])
  {
    hide Received;
    if i > 0 { ReceivedAt(e, rs[1..], i - 1); }
  }

  lemma ReceivedFour(rs: seq<bv32>)
    requires |rs| == 4
    ensures ReceivedAll(Tag8Of4, rs) == [Wrap16(rs[0]), Wrap16(rs[1]), Wrap16(rs[2]), Wrap16(rs[3])]
  {
    hide Wrap16, ReceivedAll;
    ReceivedAt(Tag8Of4, rs, 0);
    ReceivedAt(Tag8Of4, rs, 1);
    ReceivedAt(Tag8Of4, rs, 2);
    ReceivedAt(Tag8Of4, rs, 3);
  }

  lemma ReadsGroup(e: Encoding, rs: seq<bv32>, rest: Bytes)
    requires GroupSize(e, |rs|)
    ensures ReadBlock(e, |rs|, Packed(e, rs) + rest) == GotList(ReceivedAll(e, rs), rest)
  {
    hide Tag2_3S32, Tag8_4S16, Tag8_8SVB, ReadTag2_3S32, ReadTag8_4S16, ReadTag8_8SVB, ReceivedAll, Wrap16;
    if e == Tag2Of3 {
      Tag2_3S32RoundTrip(rs[0], rs[1], rs[2], rest);
      ReceivedSame(e, rs);
      assert rs == [rs[0], rs[1], rs[2]];
    } else if e == Tag8Of4 {
      Tag8_4S16RoundTrip(rs[0], rs[1], rs[2], rs[3], rest);
      ReceivedFour(rs);
    } else {
      Tag8_8SVBRoundTrip(rs, rest);
      ReceivedSame(e, rs);
    }
  }

  lemma {:induction false} PlaceAll(c: Config, items: seq<Item>, e: Encoding, cur: MainState, p1: MainState,
                                    p2: MainState, h1: Values, h2: Values, now: Values)
    requires Uniform(items, e) && AllSound(c, items, cur, p1, p2) && Foreseen(c, items, cur, p1, p2, h1, h2, now)
    ensures Place(c, items, ReceivedAll(e, Residuals(c, items, cur, p1, p2)), h1, h2, now) == AddAll(now, items, cur)
    decreases |items|
  {
    hide Predict, Expected, At, Sound, Residual, Received, Correct;
    if items != [] {
      var item, more, rs := items[0], items[1..], Residuals(c, items, cur, p1, p2);
      assert rs[0] == Residual(c, item, cur, p1, p2) && rs[1..] == Residuals(c, more, cur, p1, p2);
      var vs := ReceivedAll(e, rs);
      assert vs[0] == Received(e, rs[0]) && vs[1..] == ReceivedAll(e, rs[1..]);
      Corrects(c, item, cur, p1, p2);
      PlaceAll(c, more, e, cur, p1, p2, h1, h2, now[item.slot := At(cur, item.slot)]);
      hide ReceivedAll, Residuals;
    }
  }

  lemma {:induction false} RunOf(items: seq<Item>, later: seq<Item>, limit: nat)
    requires Uniform(items, Tag8Svb) && |items| <= limit
    requires |items| == limit || later == [] || later[0].encode != Tag8Svb
    ensures RunLength(items + later, limit) == |items|
  {
    if items == [] {
      assert items + later == later;
    } else {
      assert (items + later)[1..] == items[1..] + later;
      RunOf(items[1..], later, limit - 1);
    }
  }

  lemma GroupBlock(items: seq<Item>, e: Encoding, later: seq<Item>)
    requires items != [] && Uniform(items, e) && GroupSize(e, |items|)
    requires e == Tag8Svb && |items| < 8 ==> later == [] || later[0].encode != Tag8Svb
    ensures BlockSize(items + later) == |items|
  {
    if e == Tag8Svb {
      RunOf(items[1..], later, 7);
      assert (items + later)[1..] == items[1..] + later;
    }
  }

  /** A group that the reader does not run together with what follows is read back. */
  lemma DecodeGroup(c: Config, items: seq<Item>, e: Encoding, later: seq<Item>, cur: MainState, p1: MainState,
                    p2: MainState, h1: Values, h2: Values, now: Values, rest: Bytes)
    requires Uniform(items, e) && GroupSize(e, |items|)
    requires AllSound(c, items, cur, p1, p2) && Foreseen(c, items, cur, p1, p2, h1, h2, now)
    requires e == Tag8Svb && 0 < |items| < 8 ==> later == [] || later[0].encode != Tag8Svb
    ensures Decode(c, items + later, Packed(e, Residuals(c, items, cur, p1, p2)) + rest, h1, h2, now)
         == Decode(c, later, rest, h1, h2, AddAll(now, items, cur))
  {
    hide Decode, Predict, Expected, At, Sound, Residual, Received, Correct, AllSound, Foreseen, ReceivedAll, ReadBlock,
      Place;
    var rs := Residuals(c, items, cur, p1, p2);
    if items == [] {
      assert items + later == later && Packed(e, rs) + rest == rest;
    } else {
      hide Packed, Residuals, AddAll;
      GroupBlock(items, e, later);
      hide BlockSize, Uniform;
      ReadsGroup(e, rs, rest);
      PlaceAll(c, items, e, cur, p1, p2, h1, h2, now);
      assert (items + later)[..|items|] == items && (items + later)[|items|..] == later;
      DecodeBlock(c, items + later, |items|, Packed(e, rs) + rest, ReceivedAll(e, rs), rest, h1, h2, now);
    }
  }
}
