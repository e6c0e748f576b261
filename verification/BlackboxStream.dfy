/** The encoders as the firmware runs them: bytes go out one at a time while selectors and nibble buffers shift. Each
    method is held to the function of the same name in `BlackboxEncoding`. */
module BlackboxStream {
  import opened Words
  import opened BlackboxEncoding

  // ---------------------------------------------------------------- facts about the shifting variables

  function SignedVBs(values: seq<bv32>): Bytes {
    if values == [] then [] else SignedVBs(values[..|values| - 1]) + SignedVB(values[|values| - 1])
  }

  /** Two-bit classes shifted in from the last down to the `x`-th. */
  function Shifted(cs: seq<bv32>, x: nat): bv32
    requires x <= |cs|
    decreases |cs| - x
  {
    if x == |cs| then 0 else ShiftIn2(Shifted(cs, x + 1), cs[x])
  }

  lemma ShiftFacts(s: bv32, c: bv32)
    requires c < 4
    ensures s < 64 ==> ((s << 2) | c) >> 2 == s && ((s << 2) | c) & 3 == c
    ensures (0 << 2) | c < 4
    ensures s < 4 ==> (s << 2) | c < 16
    ensures s < 16 ==> (s << 2) | c < 64
  {
  }

  lemma ShiftedStep(cs: seq<bv32>, x: nat)
    requires x < |cs| <= 4 && cs[x] < 4 && Shifted(cs, x + 1) < 64
    ensures ShiftOut2(Shifted(cs, x)) == Shifted(cs, x + 1) && Class(Shifted(cs, x), 0) == cs[x]
  {
    ShiftFacts(Shifted(cs, x + 1), cs[x]);
    assert Shifted(cs, x) == ShiftIn2(Shifted(cs, x + 1), cs[x]);
    hide Shifted;
  }

  /** Selectors shifted in from the second on leave room for one more. */
  lemma ShiftedBound(cs: seq<bv32>, x: nat)
    requires |cs| <= 4 && (forall i :: 0 <= i < |cs| ==> cs[i] < 4)
    requires 1 <= x <= |cs|
    ensures x < 4 || |cs| < 4 ==> Shifted(cs, x) < 64
    ensures |cs| - x <= 2 ==> Shifted(cs, x) < 16
    ensures |cs| - x <= 1 ==> Shifted(cs, x) < 4
    ensures |cs| == x ==> Shifted(cs, x) == 0
    decreases |cs| - x
  {
    if x < |cs| {
      ShiftedBound(cs, x + 1);
      ShiftFacts(Shifted(cs, x + 1), cs[x]);
      var s, c := Shifted(cs, x + 1), cs[x];
      assert Shifted(cs, x) == ShiftIn2(s, c);
      hide Shifted;
    }
  }

  /** Shifting out gives the classes back one by one. */
  lemma NextClass(cs: seq<bv32>, x: nat)
    requires |cs| <= 4 && (forall i :: 0 <= i < |cs| ==> cs[i] < 4)
    requires x < |cs|
    ensures ShiftOut2(Shifted(cs, x)) == Shifted(cs, x + 1) && Class(Shifted(cs, x), 0) == cs[x]
  {
    hide Shifted, Class, ShiftOut2;
    ShiftedBound(cs, x + 1);
    ShiftedStep(cs, x);
  }

  function ByteClassList(values: seq<bv32>): (cs: seq<bv32>)
    requires |values| == 3
    ensures |cs| == 3
  {
    [ByteClass(values[0]), ByteClass(values[1]), ByteClass(values[2])]
  }

  function NibbleClassList(values: seq<bv32>): (cs: seq<bv32>)
    requires |values| == 4
    ensures |cs| == 4
  {
    [NibbleClass(values[0]), NibbleClass(values[1]), NibbleClass(values[2]), NibbleClass(values[3])]
  }

  lemma NextByteClass(values: seq<bv32>, x: nat)
    requires |values| == 3 && x < 3
    ensures var cs := ByteClassList(values);
      ShiftOut2(Shifted(cs, x)) == Shifted(cs, x + 1) && Class(Shifted(cs, x), 0) == ByteClass(values[x])
  {
    hide Shifted, ByteClass, Class, ShiftOut2;
    NextClass(ByteClassList(values), x);
  }

  lemma NextNibbleClass(values: seq<bv32>, x: nat)
    requires |values| == 4 && x < 4
    ensures var cs := NibbleClassList(values);
      ShiftOut2(Shifted(cs, x)) == Shifted(cs, x + 1) && Class(Shifted(cs, x), 0) == NibbleClass(values[x])
  {
    hide Shifted, NibbleClass, Class, ShiftOut2;
    NextClass(NibbleClassList(values), x);
  }

  lemma ShiftedThree(cs: seq<bv32>)
    requires |cs| == 3
    ensures Shifted(cs, 0) == ShiftIn2(ShiftIn2(ShiftIn2(0, cs[2]), cs[1]), cs[0])
  {
    hide ShiftIn2;
    assert Shifted(cs, 2) == ShiftIn2(Shifted(cs, 3), cs[2]);
  }

  lemma ShiftedFour(cs: seq<bv32>)
    requires |cs| == 4
    ensures Shifted(cs, 0) == ShiftIn2(ShiftIn2(ShiftIn2(ShiftIn2(0, cs[3]), cs[2]), cs[1]), cs[0])
  {
    hide ShiftIn2;
    assert Shifted(cs, 3) == ShiftIn2(Shifted(cs, 4), cs[3]);
    assert Shifted(cs, 2) == ShiftIn2(Shifted(cs, 3), cs[2]);
  }

  /** The widest of the first `x` values. */
  function Widest(values: seq<bv32>, x: nat): nat
    requires x <= |values|
  {
    if x == 0 then 0 else Wider(Widest(values, x - 1), Width3S32(values[x - 1]))
  }

  lemma WidestIsSelector(values: seq<bv32>)
    requires |values| == 3
    ensures Widest(values, 3) == Selector3S32(values[0], values[1], values[2]) <= 3
    ensures forall x :: 0 <= x < 3 && Width3S32(values[x]) == 3 ==> Selector3S32(values[0], values[1], values[2]) == 3
  {
    hide Fits2, Fits4, Fits6;
    assert Widest(values, 1) == Wider(0, Width3S32(values[0]));
    assert Widest(values, 2) == Wider(Widest(values, 1), Width3S32(values[1]));
    assert Widest(values, 3) == Wider(Widest(values, 2), Width3S32(values[2]));
  }

  lemma FitsFacts(v: bv32)
    ensures v < 2 || v >= 0xFFFF_FFFE ==> v < 8 || v >= 0xFFFF_FFF8
    ensures v < 8 || v >= 0xFFFF_FFF8 ==> v < 0x20 || v >= 0xFFFF_FFE0
  {
  }

  lemma WidthFits(v: bv32)
    ensures !Fits6(v) ==> Width3S32(v) == 3
    ensures Fits6(v) && !Fits4(v) ==> Width3S32(v) == 2
  {
    FitsFacts(v);
  }

  /** The bytes of the first `x` fields. */
  function FieldsUpTo(values: seq<bv32>, x: nat): Bytes
    requires x <= |values|
  {
    if x == 0 then [] else FieldsUpTo(values, x - 1) + FieldBytes(values[x - 1])
  }

  lemma NoFields(values: seq<bv32>)
    ensures FieldsUpTo(values, 0) == []
  {
  }

  lemma OneMoreField(values: seq<bv32>, x: nat)
    requires x < |values|
    ensures FieldsUpTo(values, x + 1) == FieldsUpTo(values, x) + FieldBytes(values[x])
  {
  }

  lemma FieldsOfThree(values: seq<bv32>)
    requires |values| == 3
    ensures FieldsUpTo(values, 3) == FieldBytes(values[0]) + (FieldBytes(values[1]) + FieldBytes(values[2]))
  {
    hide FieldBytes, FieldsUpTo;
    var a, b, c := FieldBytes(values[0]), FieldBytes(values[1]), FieldBytes(values[2]);
    NoFields(values);
    OneMoreField(values, 0);
    OneMoreField(values, 1);
    OneMoreField(values, 2);
    assert FieldsUpTo(values, 1) == a;
    Associate(a, b, c);
  }

  lemma Associate(a: Bytes, b: Bytes, c: Bytes)
    ensures a + b + c == a + (b + c)
  {
  }

  // ---------------------------------------------------------------- nibbles

  predicate Odd(ns: seq<bv4>) { |ns| % 2 == 1 }

  /** The nibbles that already form whole bytes. */
  function WholePart(ns: seq<bv4>): seq<bv4> { if Odd(ns) then ns[..|ns| - 1] else ns }

  /** The nibble waiting for its partner. */
  function Pending(ns: seq<bv4>): seq<bv4> { if Odd(ns) then [ns[|ns| - 1]] else [] }

  function WholeBytes(ns: seq<bv4>): Bytes { Pack(WholePart(ns)) }

  lemma Parity(a: seq<bv4>, b: seq<bv4>)
    ensures !Odd(a) ==> (Odd(a + b) <==> Odd(b))
    ensures Odd(a) ==> a != []
    ensures !Odd(WholePart(a)) && a == WholePart(a) + Pending(a)
  {
  }

  lemma WholeAppend(whole: seq<bv4>, tail: seq<bv4>)
    requires !Odd(whole)
    ensures WholePart(whole + tail) == whole + WholePart(tail) && Pending(whole + tail) == Pending(tail)
  {
    Parity(whole, tail);
    Parity(tail, []);
    hide Odd;
    if Odd(tail) {
      assert (whole + tail)[..|whole + tail| - 1] == whole + tail[..|tail| - 1];
    }
  }

  lemma PackPending(ns: seq<bv4>, more: seq<bv4>)
    ensures WholeBytes(ns + more) == WholeBytes(ns) + WholeBytes(Pending(ns) + more)
    ensures Pending(ns + more) == Pending(Pending(ns) + more)
    ensures Pack(ns) == WholeBytes(ns) + Pack(Pending(ns))
  {
    hide Pack, WholePart, Pending;
    var whole, tail := WholePart(ns), Pending(ns) + more;
    Parity(ns, []);
    WholeAppend(whole, tail);
    assert ns + more == whole + tail;
    Parity(tail, []);
    EvenIs(whole);
    hide Odd;
    PackAppend(whole, WholePart(tail));
    PackAppend(whole, Pending(ns));
  }

  lemma EvenIs(ns: seq<bv4>)
    requires !Odd(ns)
    ensures |ns| % 2 == 0
  {
  }

  /** The nibbles of the first `x` fields. */
  function NibblesUpTo(values: seq<bv32>, x: nat): seq<bv4>
    requires x <= |values|
  {
    if x == 0 then [] else NibblesUpTo(values, x - 1) + FieldNibbles(values[x - 1])
  }

  lemma NibblesOfFour(values: seq<bv32>)
    requires |values| == 4
    ensures NibblesUpTo(values, 4) == NibbleStream(values[0], values[1], values[2], values[3])
  {
    hide FieldNibbles;
    var a, b := FieldNibbles(values[0]), FieldNibbles(values[1]);
    var c, d := FieldNibbles(values[2]), FieldNibbles(values[3]);
    assert NibblesUpTo(values, 1) == a;
    assert NibblesUpTo(values, 2) == a + b;
    assert NibblesUpTo(values, 4) == a + b + c + d;
    hide NibblesUpTo;
    RegroupNibbles(a, b, c, d);
  }

  lemma RegroupNibbles(a: seq<bv4>, b: seq<bv4>, c: seq<bv4>, d: seq<bv4>)
    ensures a + b + c + d == a + (b + (c + d))
  {
  }

  /** The half-filled byte: its high nibble is known, its low nibble is zero. */
  function HighHalf(n: bv4): bv8 { Pair(n, 0) }

  /** `buffer | low`. */
  function Complete(buffer: bv8, low: bv4): bv8 { buffer | low as bv8 }

  lemma HalfFacts(high: bv4, low: bv4)
    ensures ((high as bv8 << 4) | 0 as bv4 as bv8) | low as bv8 == (high as bv8 << 4) | low as bv8
  {
  }

  lemma CompleteHalf(high: bv4, low: bv4)
    ensures Complete(HighHalf(high), low) == Pair(high, low)
  {
    HalfFacts(high, low);
  }

  /** The `i`-th nibble of a word, counted from the low end: `(value >> 4 * i) & 0x0F`. */
  function Nibble(v: bv32, i: nat): bv4 {
    match i case 0 => Low4(v) case 1 => Low4(v >> 4) case 2 => Low4(v >> 8) case _ => Low4(v >> 12)
  }

  /** `(uint8_t) (value >> 4 * i)`: two neighbouring nibbles. */
  function ByteAt(v: bv32, i: nat): bv8 {
    match i case 0 => Low8(v) case 1 => Low8(v >> 4) case _ => Low8(v >> 8)
  }

  lemma ByteAtFacts(v: bv32)
    ensures (v & 0xFF) as bv8 == (((v >> 4) & 0xF) as bv4 as bv8 << 4) | (v & 0xF) as bv4 as bv8
    ensures ((v >> 4) & 0xFF) as bv8 == (((v >> 8) & 0xF) as bv4 as bv8 << 4) | ((v >> 4) & 0xF) as bv4 as bv8
    ensures ((v >> 8) & 0xFF) as bv8 == (((v >> 12) & 0xF) as bv4 as bv8 << 4) | ((v >> 8) & 0xF) as bv4 as bv8
  {
  }

  lemma ByteAtPairs(v: bv32)
    ensures ByteAt(v, 0) == Pair(Nibble(v, 1), Nibble(v, 0))
    ensures ByteAt(v, 1) == Pair(Nibble(v, 2), Nibble(v, 1))
    ensures ByteAt(v, 2) == Pair(Nibble(v, 3), Nibble(v, 2))
  {
    ByteAtFacts(v);
  }

  lemma FieldNibblesAre(v: bv32)
    ensures FieldNibbles(v) ==
            if NibbleClass(v) == 0 then [] else if NibbleClass(v) == 1 then [Nibble(v, 0)]
            else if NibbleClass(v) == 2 then [Nibble(v, 1), Nibble(v, 0)]
            else [Nibble(v, 3), Nibble(v, 2), Nibble(v, 1), Nibble(v, 0)]
  {
    hide Low4, NibbleClass;
  }

  /** One to five nibbles: the whole bytes and what is left. */
  lemma WholeFew(a: bv4, b: bv4, c: bv4, d: bv4, e: bv4)
    ensures WholeBytes([a]) == [] && Pending([a]) == [a]
    ensures WholeBytes([a, b]) == [Pair(a, b)] && Pending([a, b]) == []
    ensures WholeBytes([a, b, c]) == [Pair(a, b)] && Pending([a, b, c]) == [c]
    ensures WholeBytes([a, b, c, d]) == [Pair(a, b), Pair(c, d)] && Pending([a, b, c, d]) == []
    ensures WholeBytes([a, b, c, d, e]) == [Pair(a, b), Pair(c, d)] && Pending([a, b, c, d, e]) == [e]
  {
    hide Pair;
    assert [a][..0] == [] && [a, b, c][..2] == [a, b] && [a, b, c, d, e][..4] == [a, b, c, d];
    assert Pack([a, b]) == [Pair(a, b)] by { assert [a, b][2..] == []; }
    assert Pack([a, b, c, d]) == [Pair(a, b)] + Pack([c, d]) by { assert [a, b, c, d][2..] == [c, d]; }
    assert Pack([c, d]) == [Pair(c, d)] by { assert [c, d][2..] == []; }
  }

  lemma PackPadded(n: bv4)
    ensures Pack([n]) == [HighHalf(n)] && Pack([]) == []
  {
    hide Pair;
  }

  lemma Leftover(ns: seq<bv4>)
    ensures Pending(ns) == [] ==> Pack(ns) == WholeBytes(ns)
    ensures Pending(ns) != [] ==> Pack(ns) == WholeBytes(ns) + [HighHalf(Pending(ns)[0])]
  {
    hide Pack, HighHalf, WholeBytes;
    PackPending(ns, []);
    PackPadded(if Pending(ns) == [] then 0 else Pending(ns)[0]);
  }

  lemma NothingMore(ns: seq<bv4>)
    ensures ns + [] == ns
  {
  }

  lemma NoNibbles(values: seq<bv32>)
    ensures NibblesUpTo(values, 0) == [] && WholeBytes([]) == [] && Pending([]) == []
  {
  }

  lemma MoreNibbles(values: seq<bv32>, x: nat)
    requires x < |values|
    ensures NibblesUpTo(values, x + 1) == NibblesUpTo(values, x) + FieldNibbles(values[x])
  {
  }

  lemma LeadOfThree(values: seq<bv32>)
    requires |values| == 3
    ensures Shifted(ByteClassList(values), 0) == ByteClasses(values[0], values[1], values[2])
  {
    hide ByteClass, ShiftIn2, Shifted;
    ShiftedThree(ByteClassList(values));
  }

  lemma LeadOfFour(values: seq<bv32>)
    requires |values| == 4
    ensures Shifted(NibbleClassList(values), 0) == NibbleClasses(values[0], values[1], values[2], values[3])
  {
    hide NibbleClass, ShiftIn2, Shifted;
    ShiftedFour(NibbleClassList(values));
  }

  // ---------------------------------------------------------------- marked fields

  lemma NoNonZeroFields()
    ensures NonZeroFields([]) == []
  {
  }

  lemma {:induction false} MoreNonZeroFields(vs: seq<bv32>, v: bv32)
    ensures NonZeroFields(vs + [v]) == NonZeroFields(vs) + (if v != 0 then SignedVB(v) else [])
  {
    hide SignedVB;
    if vs == [] {
      assert [] + [v] == [v] && [v][1..] == [];
    } else {
      assert (vs + [v])[1..] == vs[1..] + [v];
      MoreNonZeroFields(vs[1..], v);
    }
  }

  // ---------------------------------------------------------------- the stream

  /** The log device behind `blackboxWrite`. */
  class LogStream {
    var written: Bytes

    constructor ()
      ensures written == []
    {
      written := [];
    }

    /** `blackboxWrite`, with the conversion of its argument to `uint8_t`. */
    method Write(value: bv32)
      modifies this
      ensures written == old(written) + [Low8(value)]
    {
      written := written + [Low8(value)];
    }

    /** `blackboxWrite` of a byte. */
    method WriteByte(value: byte)
      modifies this
      ensures written == old(written) + [value]
    {
      written := written + [value];
    }

    method WriteUnsignedVB(value: bv32)
      modifies this
      ensures written == old(written) + UnsignedVB(value)
    {
      hide Low8;
      var v := value;
      while v > 127
        invariant written + UnsignedVB(v) == old(written) + UnsignedVB(value)
        decreases v
      {
        SizeStep(v);
        Write(v | 0x80);
        v := v >> 7;
      }
      Write(v);
    }

    method WriteSignedVB(value: bv32)
      modifies this
      ensures written == old(written) + SignedVB(value)
    {
      WriteUnsignedVB(ZigzagEncode(value));
    }

    method WriteSignedVBArray(values: seq<bv32>)
      modifies this
      ensures written == old(written) + SignedVBs(values)
    {
      hide SignedVB;
      for i := 0 to |values|
        invariant written == old(written) + SignedVBs(values[..i])
      {
        assert values[..i + 1][..i] == values[..i];
        WriteSignedVB(values[i]);
      }
      assert values[..|values|] == values;
    }

    method SelectWidth(values: seq<bv32>) returns (selector: nat)
      requires |values| == 3
      ensures selector == Selector3S32(values[0], values[1], values[2]) <= 3
    {
      hide Fits2, Fits4, Fits6;
      WidestIsSelector(values);
      hide Selector3S32;
      selector := 0;
      for x := 0 to 3
        invariant selector == Widest(values, x) < 3
      {
        WidthFits(values[x]);
        if !Fits6(values[x]) {
          return 3;
        }
        if !Fits4(values[x]) {
          if selector < 2 {
            selector := 2;
          }
        } else if !Fits2(values[x]) {
          if selector < 1 {
            selector := 1;
          }
        }
      }
    }

    method WriteTag2_3S32(values: seq<bv32>)
      requires |values| == 3
      modifies this
      ensures written == old(written) + Tag2_3S32(values[0], values[1], values[2])
    {
      hide Selector3S32, Low8, ByteClasses, FieldBytes, Lead2, Lead4, Next4, Lead6, LeadWide;
      var a, b, c := values[0], values[1], values[2];
      var selector := SelectWidth(values);
      if selector == 0 {
        WriteByte(Lead2(a, b, c));
      } else if selector == 1 {
        WriteByte(Lead4(a));
        WriteByte(Next4(b, c));
      } else if selector == 2 {
        WriteByte(Lead6(a));
        Write(b);
        Write(c);
      } else {
        WriteWideFields(values);
      }
    }

    method ByteSelectors(values: seq<bv32>) returns (selector2: bv32)
      requires |values| == 3
      ensures selector2 == Shifted(ByteClassList(values), 0)
    {
      hide Fits8, Fits16, Fits24, ShiftIn2;
      ghost var cs := ByteClassList(values);
      selector2 := 0;
      for x := 3 downto 0
        invariant selector2 == Shifted(cs, x)
      {
        if Fits8(values[x]) {
          selector2 := ShiftIn2(selector2, 0);
        } else if Fits16(values[x]) {
          selector2 := ShiftIn2(selector2, 1);
        } else if Fits24(values[x]) {
          selector2 := ShiftIn2(selector2, 2);
        } else {
          selector2 := ShiftIn2(selector2, 3);
        }
      }
    }

    /** A field in as many bytes as its selector says. */
    method WriteField(v: bv32, class': bv32)
      requires class' == ByteClass(v)
      modifies this
      ensures written == old(written) + FieldBytes(v)
    {
      hide Byte, ByteClass;
      WriteByte(Byte(v, 0));
      if class' == 0 { return; }
      WriteByte(Byte(v, 1));
      if class' == 1 { return; }
      WriteByte(Byte(v, 2));
      if class' == 2 { return; }
      WriteByte(Byte(v, 3));
    }

    method WriteWideFields(values: seq<bv32>)
      requires |values| == 3
      modifies this
      ensures written == old(written) + ([LeadWide(ByteClasses(values[0], values[1], values[2]))]
           + (FieldBytes(values[0]) + (FieldBytes(values[1]) + FieldBytes(values[2]))))
    {
      hide FieldBytes, ByteClass, ByteClasses, ByteClassList, Shifted, FieldsUpTo, LeadWide, Class, ShiftOut2, ShiftIn2;
      ghost var cs := ByteClassList(values);
      var selector2 := ByteSelectors(values);
      LeadOfThree(values);
      WriteByte(LeadWide(selector2));
      ghost var front := written;
      NoFields(values);
      for x := 0 to 3
        invariant selector2 == Shifted(cs, x)
        invariant written == front + FieldsUpTo(values, x)
      {
        NextByteClass(values, x);
        WriteField(values[x], Class(selector2, 0));
        OneMoreField(values, x);
        selector2 := ShiftOut2(selector2);
      }
      FieldsOfThree(values);
      Associate(old(written), [LeadWide(ByteClasses(values[0], values[1], values[2]))], FieldsUpTo(values, 3));
    }

    method NibbleSelectors(values: seq<bv32>) returns (selector: bv32)
      requires |values| == 4
      ensures selector == Shifted(NibbleClassList(values), 0)
    {
      hide Fits4, Fits8, ShiftIn2;
      ghost var cs := NibbleClassList(values);
      selector := 0;
      for x := 4 downto 0
        invariant selector == Shifted(cs, x)
      {
        if values[x] == 0 {
          selector := ShiftIn2(selector, 0);
        } else if Fits4(values[x]) {
          selector := ShiftIn2(selector, 1);
        } else if Fits8(values[x]) {
          selector := ShiftIn2(selector, 2);
        } else {
          selector := ShiftIn2(selector, 3);
        }
      }
    }

    /** One field of `Tag8_4S16`: `ns` are the nibbles so far, of which an odd last one waits in `buffer`. */
    method WriteNibbles(v: bv32, class': bv32, nibbleIndex: nat, buffer: bv8, ghost front: Bytes, ghost ns: seq<bv4>)
      returns (nibbleIndex': nat, buffer': bv8)
      requires class' == NibbleClass(v) && nibbleIndex == |Pending(ns)| <= 1
      requires nibbleIndex == 1 ==> buffer == HighHalf(Pending(ns)[0])
      requires written == front + WholeBytes(ns)
      modifies this
      ensures var ns' := ns + FieldNibbles(v);
        && nibbleIndex' == |Pending(ns')| <= 1
        && (nibbleIndex' == 1 ==> buffer' == HighHalf(Pending(ns')[0]))
        && written == front + WholeBytes(ns')
    {
      hide NibbleClass, FieldNibbles, Nibble, ByteAt, Pair, HighHalf, Complete, Pack, WholeBytes, Pending;
      nibbleIndex', buffer' := nibbleIndex, buffer;
      FieldNibblesAre(v);
      ByteAtPairs(v);
      PackPending(ns, FieldNibbles(v));
      ghost var w := if nibbleIndex == 1 then Pending(ns)[0] else 0;
      ghost var n3, n2, n1, n0 := Nibble(v, 3), Nibble(v, 2), Nibble(v, 1), Nibble(v, 0);
      assert Pending(ns) == if nibbleIndex == 1 then [w] else [];
      if class' == 0 {
        NothingMore(ns);
      } else if class' == 1 {
        if nibbleIndex == 0 {
          buffer' := HighHalf(Nibble(v, 0));
          nibbleIndex' := 1;
          WholeFew(n0, w, w, w, w);
          assert Pending(ns) + FieldNibbles(v) == [n0];
        } else {
          WriteByte(Complete(buffer, Nibble(v, 0)));
          nibbleIndex' := 0;
          CompleteHalf(w, n0);
          WholeFew(w, n0, w, w, w);
          assert Pending(ns) + FieldNibbles(v) == [w, n0];
        }
      } else if class' == 2 {
        if nibbleIndex == 0 {
          WriteByte(ByteAt(v, 0));
          WholeFew(n1, n0, w, w, w);
          assert Pending(ns) + FieldNibbles(v) == [n1, n0];
        } else {
          WriteByte(Complete(buffer, Nibble(v, 1)));
          buffer' := HighHalf(Nibble(v, 0));
          CompleteHalf(w, n1);
          WholeFew(w, n1, n0, w, w);
          assert Pending(ns) + FieldNibbles(v) == [w, n1, n0];
        }
      } else {
        if nibbleIndex == 0 {
          WriteByte(ByteAt(v, 2));
          WriteByte(ByteAt(v, 0));
          WholeFew(n3, n2, n1, n0, w);
          assert Pending(ns) + FieldNibbles(v) == [n3, n2, n1, n0];
        } else {
          WriteByte(Complete(buffer, Nibble(v, 3)));
          WriteByte(ByteAt(v, 1));
          buffer' := HighHalf(Nibble(v, 0));
          CompleteHalf(w, n3);
          WholeFew(w, n3, n2, n1, n0);
          assert Pending(ns) + FieldNibbles(v) == [w, n3, n2, n1, n0];
        }
      }
    }

    method WriteTag8_4S16(values: seq<bv32>)
      requires |values| == 4
      modifies this
      ensures written == old(written) + Tag8_4S16(values[0], values[1], values[2], values[3])
    {
      hide NibbleClass, NibbleClasses, NibbleClassList, NibbleStream, Pack, Shifted, NibblesUpTo, Low8;
      var selector := NibbleSelectors(values);
      LeadOfFour(values);
      Write(selector);
      WriteFourFields(values, selector);
      NibblesOfFour(values);
    }

    method WriteFourFields(values: seq<bv32>, selector: bv32)
      requires |values| == 4 && selector == Shifted(NibbleClassList(values), 0)
      modifies this
      ensures written == old(written) + Pack(NibblesUpTo(values, 4))
    {
      hide NibbleClass, NibbleClassList, FieldNibbles, HighHalf, Pack, WholeBytes, Pending, Shifted, ShiftIn2,
        ShiftOut2, Class, NibblesUpTo;
      ghost var front, cs := written, NibbleClassList(values);
      var nibbleIndex, buffer, selector := 0, 0, selector;
      NoNibbles(values);
      for x := 0 to 4
        invariant selector == Shifted(cs, x)
        invariant nibbleIndex == |Pending(NibblesUpTo(values, x))| <= 1
        invariant nibbleIndex == 1 ==> buffer == HighHalf(Pending(NibblesUpTo(values, x))[0])
        invariant written == front + WholeBytes(NibblesUpTo(values, x))
      {
        NextNibbleClass(values, x);
        nibbleIndex, buffer := WriteNibbles(values[x], Class(selector, 0), nibbleIndex, buffer, front,
                                            NibblesUpTo(values, x));
        MoreNibbles(values, x);
        selector := ShiftOut2(selector);
      }
      Leftover(NibblesUpTo(values, 4));
      if nibbleIndex == 1 {
        WriteByte(buffer);
      }
    }

    method NonZeroHeader(values: seq<bv32>) returns (header: bv8)
      ensures header == NonZeroBits(values)
    {
      hide ShiftIn;
      header := 0;
      for i := |values| downto 0
        invariant header == NonZeroBits(values[i..])
      {
        header := ShiftIn(header, values[i] != 0);
        assert values[i..][1..] == values[i + 1..];
      }
      assert values[0..] == values;
    }

    method WriteTag8_8SVB(values: seq<bv32>)
      modifies this
      ensures written == old(written) + Tag8_8SVB(values)
    {
      hide SignedVB, NonZeroBits, NonZeroFields, NonZeroField;
      if |values| > 0 {
        if |values| == 1 {
          WriteSignedVB(values[0]);
        } else {
          var header := NonZeroHeader(values);
          WriteByte(header);
          ghost var front := written;
          assert values[..0] == [];
          NoNonZeroFields();
          for i := 0 to |values|
            invariant written == front + NonZeroFields(values[..i])
          {
            if values[i] != 0 {
              WriteSignedVB(values[i]);
            }
            MoreNonZeroFields(values[..i], values[i]);
            assert values[..i + 1] == values[..i] + [values[i]];
          }
          assert values[..|values|] == values;
        }
      }
    }
  }
}
