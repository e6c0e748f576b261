/** Coordinates on the command line: decimal degrees in text, ten-millionths of a degree in 32 bits. */
module CliCoordinates {
  import opened Outcomes

  newtype int32 = x: int | -0x8000_0000 <= x < 0x8000_0000

  const INT32_MAX: int := 0x7FFF_FFFF

  /** A degree is this many units. */
  const UNITS: int := 10000000

  // ---------------------------------------------------------------- the grammar

  predicate IsDigit(c: char) { '0' <= c <= '9' }

  predicate AllDigits(s: string) { forall i :: 0 <= i < |s| ==> IsDigit(s[i]) }

  function DigitOf(c: char): (d: int)
    requires IsDigit(c)
    ensures 0 <= d <= 9
  {
    c as int - '0' as int
  }

  /** A number in its parts: the sign if one is written, the digits before the point, and those after it if there is
      one. */
  datatype Number = Number(sign: string, whole: string, fraction: Option<string>)

  predicate WellFormed(n: Number) {
    && (n.sign == "" || n.sign == "+" || n.sign == "-")
    && n.whole != "" && AllDigits(n.whole) && (n.fraction.Some? ==> AllDigits(n.fraction.value))
  }

  function Text(n: Number): string { n.sign + n.whole + if n.fraction.Some? then "." + n.fraction.value else "" }

  /** How many digits a text begins with. */
  function DigitRun(s: string): (k: nat)
    ensures k <= |s| && AllDigits(s[..k]) && (k < |s| ==> !IsDigit(s[k]))
  {
    if s != "" && IsDigit(s[0]) then 1 + DigitRun(s[1..]) else 0
  }

  lemma {:induction false} RunIs(s: string, k: nat)
    requires k <= |s| && AllDigits(s[..k]) && (k < |s| ==> !IsDigit(s[k]))
    ensures DigitRun(s) == k
  {
    if k > 0 {
      assert IsDigit(s[..k][0]);
      assert s[1..][..k - 1] == s[..k][1..];
      RunIs(s[1..], k - 1);
    }
  }

  function SignOf(s: string): (r: string)
    ensures |r| <= |s|
  {
    if s != "" && (s[0] == '-' || s[0] == '+') then s[..1] else ""
  }

  /** The parts of a text, if it is a number. */
  function Split(s: string): Option<Number> {
    var sign := SignOf(s);
    var rest := s[|sign|..];
    var k := DigitRun(rest);
    var tail := rest[k..];
    if k == 0 then None
    else if tail == "" then Some(Number(sign, rest[..k], None))
    else if tail[0] == '.' && DigitRun(tail[1..]) == |tail| - 1 then Some(Number(sign, rest[..k], Some(tail[1..])))
    else None
  }

  /** Splitting and writing out are inverse: a text splits exactly into the number it is the text of. */
  lemma SplitExactly(s: string, n: Number)
    ensures Split(s) == Some(n) <==> WellFormed(n) && Text(n) == s
  {
    hide DigitOf;
    if WellFormed(n) && Text(n) == s { SplitText(n); }
    if Split(s) == Some(n) { TextOfSplit(s, n); }
  }

  lemma SplitText(n: Number)
    requires WellFormed(n)
    ensures Split(Text(n)) == Some(n)
  {
    hide DigitRun, AllDigits;
    var tail := if n.fraction.Some? then "." + n.fraction.value else "";
    Parts(n.sign, n.whole, "", tail);
    SignBack(n, tail);
    WholeBack(n, tail);
    if n.fraction.Some? {
      assert tail[1..] == n.fraction.value;
      AllRun(n.fraction.value);
    }
  }

  lemma SignBack(n: Number, tail: string)
    requires WellFormed(n)
    ensures SignOf(n.sign + n.whole + tail) == n.sign && (n.sign + n.whole + tail)[|n.sign|..] == n.whole + tail
  {
    assert IsDigit(n.whole[0]);
    assert n.sign + n.whole + tail == n.sign + (n.whole + tail);
  }

  lemma WholeBack(n: Number, tail: string)
    requires WellFormed(n) && (tail == "" || !IsDigit(tail[0]))
    ensures (var rest := n.whole + tail;
             DigitRun(rest) == |n.whole| > 0 && rest[..|n.whole|] == n.whole && rest[|n.whole|..] == tail)
  {
    var rest := n.whole + tail;
    assert rest[..|n.whole|] == n.whole && rest[|n.whole|..] == tail;
    hide IsDigit, AllDigits;
    RunIs(rest, |n.whole|);
  }

  lemma AllRun(d: string)
    requires AllDigits(d)
    ensures DigitRun(d) == |d|
  {
    assert d[..|d|] == d;
    RunIs(d, |d|);
  }

  lemma TextOfSplit(s: string, n: Number)
    requires Split(s) == Some(n)
    ensures WellFormed(n) && Text(n) == s
  {
    hide DigitRun, IsDigit, AllDigits, SignOf;
    var sign := SignOf(s);
    var rest := s[|sign|..];
    var k := DigitRun(rest);
    SignIs(s);
    Joined(rest, k);
    if rest[k..] == "" {
      Parts(sign, rest[..k], "", "");
    } else {
      Fraction(rest[k..]);
      Parts(sign, rest[..k], ".", rest[k..][1..]);
    }
  }

  /** A tail of a point and digits only. */
  lemma Fraction(tail: string)
    requires tail != "" && tail[0] == '.' && DigitRun(tail[1..]) == |tail| - 1
    ensures AllDigits(tail[1..]) && tail == "." + tail[1..]
  {
    hide DigitRun;
    assert tail[1..][..|tail| - 1] == tail[1..];
  }

  lemma Parts(a: string, b: string, c: string, d: string)
    ensures a + (b + (c + d)) == a + b + (c + d)
    ensures b + "" == b && "" + "" == ""
  {
  }

  lemma SignIs(s: string)
    ensures s == SignOf(s) + s[|SignOf(s)|..] && (SignOf(s) == "" || SignOf(s) == "+" || SignOf(s) == "-")
  {
  }

  lemma Joined(s: string, k: nat)
    requires k <= |s|
    ensures s == s[..k] + s[k..]
  {
  }

  // ---------------------------------------------------------------- the value

  /** The number written by the digits. */
  function NumberOf(d: string): (r: int)
    requires AllDigits(d)
    ensures r >= 0
  {
    if d == "" then 0 else NumberOf(d[..|d| - 1]) * 10 + DigitOf(d[|d| - 1])
  }

  function PowerOfTen(k: nat): (r: int)
    ensures r >= 1
  {
    if k == 0 then 1 else 10 * PowerOfTen(k - 1)
  }

  /** The digits after the point that count: at most seven. */
  function Counting(f: string): (r: string)
    requires AllDigits(f)
    ensures AllDigits(r) && |r| <= 7
  {
    if |f| <= 7 then f else f[..7]
  }

  function FractionUnits(f: Option<string>): int
    requires f.Some? ==> AllDigits(f.value)
  {
    if f.None? then 0 else NumberOf(Counting(f.value)) * PowerOfTen(7 - |Counting(f.value)|)
  }

  /** The size of a number in units, truncated. */
  function Magnitude(n: Number): int
    requires WellFormed(n)
  {
    NumberOf(n.whole) * UNITS + FractionUnits(n.fraction)
  }

  /** The coordinate a text stands for, where it is a number that 32 bits can hold with either sign. */
  function Coordinate(s: string): Option<int> {
    match Split(s)
    case None => None
    case Some(n) =>
      SplitExactly(s, n);
      if Magnitude(n) > INT32_MAX then None else Some(if n.sign == "-" then -Magnitude(n) else Magnitude(n))
  }

  lemma {:induction false} PrefixIsSmaller(d: string, k: nat)
    requires AllDigits(d) && k <= |d|
    ensures AllDigits(d[..k]) && NumberOf(d[..k]) <= NumberOf(d)
    decreases |d|
  {
    if k < |d| {
      PrefixIsSmaller(d[..|d| - 1], k);
      assert d[..|d| - 1][..k] == d[..k];
    } else {
      assert d[..k] == d;
    }
  }

  lemma {:induction false} DigitsBound(d: string)
    requires AllDigits(d)
    ensures NumberOf(d) < PowerOfTen(|d|)
    decreases |d|
  {
    if d != "" { DigitsBound(d[..|d| - 1]); }
  }

  lemma {:induction false} PowersMultiply(a: nat, b: nat)
    ensures PowerOfTen(a) * PowerOfTen(b) == PowerOfTen(a + b)
  {
    if a > 0 {
      PowersMultiply(a - 1, b);
      Associate(PowerOfTen(a - 1), PowerOfTen(b));
    }
  }

  lemma Associate(x: int, y: int)
    ensures (10 * x) * y == 10 * (x * y)
  {
  }

  lemma SevenZeros()
    ensures PowerOfTen(7) == UNITS
  {
    assert PowerOfTen(1) == 10;
    assert PowerOfTen(2) == 100;
    assert PowerOfTen(3) == 1000;
    assert PowerOfTen(4) == 10000;
    assert PowerOfTen(5) == 100000;
    assert PowerOfTen(6) == 1000000;
  }

  lemma TenTimes(a: int, p: int, c: int)
    ensures (a * p + c) * 10 == a * (10 * p) + c * 10
  {
    assert a * (10 * p) == (a * p) * 10;
  }

  lemma {:induction false} NumberOfBoth(a: string, b: string)
    requires AllDigits(a) && AllDigits(b)
    ensures AllDigits(a + b) && NumberOf(a + b) == NumberOf(a) * PowerOfTen(|b|) + NumberOf(b)
    decreases |b|
  {
    hide IsDigit, DigitOf;
    if b == "" {
      assert a + b == a;
    } else {
      var c := b[..|b| - 1];
      NumberOfBoth(a, c);
      assert (a + b)[..|a + b| - 1] == a + c && (a + b)[|a + b| - 1] == b[|b| - 1];
      TenTimes(NumberOf(a), PowerOfTen(|c|), NumberOf(c));
    }
  }

  /** The number of a text without its point, and how many decimals it has. */
  function Unpointed(n: Number): (s: string)
    requires WellFormed(n)
    ensures AllDigits(s)
  {
    n.whole + if n.fraction.Some? then n.fraction.value else ""
  }

  function Decimals(n: Number): nat { if n.fraction.Some? then |n.fraction.value| else 0 }

  lemma Widen(w: int, c: int, p: int, q: int, u: int)
    requires p * q == u
    ensures (w * u + c * p) * q == (w * q + c) * u
  {
    assert c * p * q == c * u;
  }

  lemma Between(w: int, c: int, e: int, q: int, u: int)
    requires 0 <= e < q && u > 0
    ensures (w * u + c) * (u * q) <= (w * (u * q) + (c * q + e)) * u < (w * u + c + 1) * (u * q)
  {
    assert (w * (u * q) + (c * q + e)) * u == (w * u + c) * (u * q) + e * u;
    assert 0 <= e * u < q * u;
  }

  /** The magnitude is the value that is written, in ten-millionths, without what is less than one of them. */
  lemma MagnitudeIsTruncated(n: Number)
    requires WellFormed(n)
    ensures Magnitude(n) * PowerOfTen(Decimals(n)) <= NumberOf(Unpointed(n)) * 10000000
            < (Magnitude(n) + 1) * PowerOfTen(Decimals(n))
  {
    hide IsDigit, NumberOf;
    SevenZeros();
    var f := if n.fraction.Some? then n.fraction.value else "";
    var k := |f|;
    NumberOfBoth(n.whole, f);
    assert NumberOf("") == 0 by { NoDigits(); }
    if k <= 7 {
      PowersMultiply(7 - k, k);
      hide PowerOfTen;
      assert Magnitude(n) == NumberOf(n.whole) * UNITS + NumberOf(f) * PowerOfTen(7 - k);
      Widen(NumberOf(n.whole), NumberOf(f), PowerOfTen(7 - k), PowerOfTen(k), UNITS);
    } else {
      var c, e := f[..7], f[7..];
      assert f == c + e;
      NumberOfBoth(c, e);
      DigitsBound(e);
      PowersMultiply(7, k - 7);
      assert PowerOfTen(0) == 1;
      hide PowerOfTen;
      assert Magnitude(n) == NumberOf(n.whole) * UNITS + NumberOf(c);
      Between(NumberOf(n.whole), NumberOf(c), NumberOf(e), PowerOfTen(k - 7), UNITS);
    }
  }

  lemma NoDigits()
    ensures NumberOf("") == 0
  {
  }

  lemma Scale(a: int, b: int, p: int)
    requires a < b && p > 0
    ensures a * p < b * p
  {
  }

  /** The units after the point are fewer than a degree. */
  lemma FractionBound(f: string)
    requires AllDigits(f)
    ensures 0 <= FractionUnits(Some(f)) < UNITS
  {
    var c := Counting(f);
    DigitsBound(c);
    PowersMultiply(|c|, 7 - |c|);
    SevenZeros();
    Scale(NumberOf(c), PowerOfTen(|c|), PowerOfTen(7 - |c|));
    Scale(-1, NumberOf(c), PowerOfTen(7 - |c|));
  }

  // ---------------------------------------------------------------- parsing

  /** Digits before the point that do not fit make the whole number too large. */
  lemma TooLarge(n: Number)
    requires WellFormed(n) && NumberOf(n.whole) > INT32_MAX
    ensures Magnitude(n) > INT32_MAX
  {
    if n.fraction.Some? { FractionBound(n.fraction.value); }
  }

  lemma NextDigit(d: string, k: nat)
    requires k < |d| && AllDigits(d[..k]) && IsDigit(d[k])
    ensures AllDigits(d[..k + 1]) && NumberOf(d[..k + 1]) == NumberOf(d[..k]) * 10 + DigitOf(d[k])
  {
    assert d[..k + 1][..k] == d[..k];
  }

  /** The digits a text begins with, read as far as they fit; none when they do not. */
  method ReadWhole(s: string) returns (r: Option<int32>)
    ensures r.None? <==> NumberOf(s[..DigitRun(s)]) > INT32_MAX
    ensures r.Some? ==> r.value as int == NumberOf(s[..DigitRun(s)])
  {
    hide NumberOf;
    var value: int32 := 0;
    var i := 0;
    NumberOfNone();
    while i < |s| && IsDigit(s[i])
      invariant 0 <= i <= |s| && AllDigits(s[..i]) && 0 <= value && value as int == NumberOf(s[..i])
    {
      var digit := DigitOf(s[i]) as int32;
      NextDigit(s, i);
      if value > (0x7FFF_FFFF - digit) / 10 {
        RunAtLeast(s, i + 1);
        return None;
      }
      value := value * 10 + digit;
      i := i + 1;
    }
    RunIs(s, i);
    return Some(value);
  }

  lemma NumberOfNone()
    ensures NumberOf("") == 0
  {
  }

  lemma {:induction false} RunReaches(s: string, k: nat)
    requires k <= |s| && AllDigits(s[..k])
    ensures k <= DigitRun(s)
  {
    if k > 0 {
      assert IsDigit(s[..k][0]);
      assert s[1..][..k - 1] == s[..k][1..];
      RunReaches(s[1..], k - 1);
    }
  }

  lemma RunAtLeast(s: string, k: nat)
    requires k <= |s| && AllDigits(s[..k])
    ensures NumberOf(s[..k]) <= NumberOf(s[..DigitRun(s)])
  {
    var r := DigitRun(s);
    RunReaches(s, k);
    assert s[..r][..k] == s[..k];
    PrefixIsSmaller(s[..r], k);
  }

  /** Up to seven digits, scaled to units. Neither check for overflow can fire. */
  method ReadFraction(f: string) returns (units: int32, end: nat)
    ensures end == DigitRun(f) && units as int == FractionUnits(Some(f[..end])) && 0 <= units as int < UNITS
  {
    hide NumberOf, PowerOfTen;
    var value: int32, divisor: int32 := 0, 10000000;
    var digits := 0;
    NumberOfNone();
    SevenZeros();
    while digits < |f| && IsDigit(f[digits]) && digits < 7
      invariant 0 <= digits <= |f| && digits <= 7 && AllDigits(f[..digits])
      invariant 0 <= value && value as int == NumberOf(f[..digits])
      invariant divisor as int == PowerOfTen(7 - digits)
    {
      var digit := DigitOf(f[digits]) as int32;
      NextDigit(f, digits);
      DigitsBound(f[..digits + 1]);
      PowersAre(digits + 1);
      PowersAre(7 - digits);
      PowersAre(7 - digits - 1);
      assert value <= (0x7FFF_FFFF - digit) / 10;
      value := value * 10 + digit;
      divisor := divisor / 10;
      digits := digits + 1;
    }
    end := digits;
    while end < |f| && IsDigit(f[end])
      invariant digits <= end <= |f| && AllDigits(f[..end])
    {
      end := end + 1;
    }
    RunIs(f, end);
    assert Counting(f[..end]) == f[..digits];
    FractionBound(f[..end]);
    DigitsBound(f[..digits]);
    assert value <= 0x7FFF_FFFF / divisor by { FitsDivided(value as int, digits); }
    units := value * divisor;
  }

  lemma FitsDivided(a: int, digits: nat)
    requires digits <= 7 && 0 <= a < PowerOfTen(digits)
    ensures a <= INT32_MAX / PowerOfTen(7 - digits)
  {
    hide PowerOfTen;
    PowersAre(digits);
    PowersAre(7 - digits);
  }

  lemma PowersAre(k: nat)
    requires k <= 7
    ensures PowerOfTen(k) == if k == 0 then 1 else if k == 1 then 10 else if k == 2 then 100 else if k == 3 then 1000
                             else if k == 4 then 10000 else if k == 5 then 100000 else if k == 6 then 1000000
                             else 10000000
  {
    if k > 0 { PowersAre(k - 1); }
  }

  /**
   * `parseDecimalCoordinate`: exactly the numbers of the grammar whose truncated value fits are accepted, with that
   * value. All its arithmetic is done in `int32`, so no intermediate result leaves 32 bits.
   */
  method ParseDecimalCoordinate(s: string) returns (r: Option<int32>)
    ensures r.Some? <==> Coordinate(s).Some?
    ensures r.Some? ==> r.value as int == Coordinate(s).value
  {
    hide NumberOf, DigitRun, Counting, AllDigits, IsDigit, Text, PowerOfTen;
    var negative := false;
    var ptr := 0;
    if s != "" && s[0] == '-' {
      negative := true;
      ptr := 1;
    } else if s != "" && s[0] == '+' {
      ptr := 1;
    }
    var rest := s[ptr..];
    if rest == "" || !IsDigit(rest[0]) {
      NoRun(rest);
      return None;
    }
    SomeRun(rest);
    if Split(s).Some? { SplitExactly(s, Split(s).value); }
    var whole := ReadWhole(rest);
    var k := DigitRun(rest);
    if whole.None? {
      if Split(s).Some? { TooLarge(Split(s).value); }
      return None;
    }
    var integerPart := whole.value;
    var fractionalPart: int32 := 0;
    var tail := rest[k..];
    if tail != "" && tail[0] == '.' {
      var end;
      fractionalPart, end := ReadFraction(tail[1..]);
      if end != |tail| - 1 { return None; }
      assert tail[1..][..end] == tail[1..];
    } else if tail != "" {
      return None;
    }
    if integerPart > (0x7FFF_FFFF - fractionalPart) / 10000000 { return None; }
    var units := integerPart * 10000000 + fractionalPart;
    if negative { units := -units; }
    return Some(units);
  }

  lemma NoRun(s: string)
    requires s == "" || !IsDigit(s[0])
    ensures DigitRun(s) == 0
  {
  }

  lemma SomeRun(s: string)
    requires s != "" && IsDigit(s[0])
    ensures DigitRun(s) > 0
  {
  }

  // ---------------------------------------------------------------- printing

  function DigitChar(d: int): (c: char)
    requires 0 <= d <= 9
    ensures IsDigit(c) && DigitOf(c) == d
  {
    (d + '0' as int) as char
  }

  /** `%d` of a number that is not negative */
  function Decimal(n: nat): (s: string)
    ensures s != "" && AllDigits(s)
  {
    if n < 10 then [DigitChar(n)] else Decimal(n / 10) + [DigitChar(n % 10)]
  }

  function Zeros(k: nat): (s: string)
    ensures |s| == k && AllDigits(s)
  {
    if k == 0 then "" else Zeros(k - 1) + "0"
  }

  /** `%07d` of a number that is not negative */
  function Padded(n: nat): (s: string)
    ensures AllDigits(s)
  {
    if |Decimal(n)| < 7 then Zeros(7 - |Decimal(n)|) + Decimal(n) else Decimal(n)
  }

  function Formatted(v: int): string {
    var size := if v < 0 then -v else v;
    (if v < 0 then "-" else "") + Decimal(size / UNITS) + "." + Padded(size % UNITS)
  }

  /** `formatDecimalCoordinate`, with its own branch for the one number whose negation does not fit */
  method FormatDecimalCoordinate(value: int32) returns (s: string)
    ensures s == Formatted(value as int)
  {
    hide Decimal, Padded;
    var negative := value < 0;
    var integerPart: int32, fractionalPart: int32;
    if value == -0x8000_0000 {
      integerPart, fractionalPart := 214, 7483648;
    } else {
      var absValue := if negative then -value else value;
      integerPart, fractionalPart := absValue / 10000000, absValue % 10000000;
    }
    s := (if negative then "-" else "") + Decimal(integerPart as nat) + "." + Padded(fractionalPart as nat);
  }

  lemma {:induction false} DecimalIs(n: nat)
    ensures NumberOf(Decimal(n)) == n
  {
    if n < 10 {
      assert Decimal(n)[..0] == "";
    } else {
      DecimalIs(n / 10);
      assert Decimal(n)[..|Decimal(n)| - 1] == Decimal(n / 10);
    }
  }

  lemma {:induction false} DecimalLength(n: nat, k: nat)
    requires k > 0 && n < PowerOfTen(k)
    ensures |Decimal(n)| <= k
  {
    if n >= 10 { DecimalLength(n / 10, k - 1); }
  }

  lemma {:induction false} ZerosAdd(k: nat, d: string)
    requires AllDigits(d)
    ensures NumberOf(Zeros(k) + d) == NumberOf(d)
    decreases k + |d|
  {
    var t := Zeros(k) + d;
    if d != "" {
      assert t[..|t| - 1] == Zeros(k) + d[..|d| - 1];
      ZerosAdd(k, d[..|d| - 1]);
    } else if k > 0 {
      assert t == Zeros(k) && t[..|t| - 1] == Zeros(k - 1);
      assert Zeros(k - 1) + "" == Zeros(k - 1);
      ZerosAdd(k - 1, "");
    }
  }

  lemma PaddedIs(n: nat)
    requires n < UNITS
    ensures |Padded(n)| == 7 && NumberOf(Padded(n)) == n
  {
    SevenZeros();
    DecimalLength(n, 7);
    DecimalIs(n);
    ZerosAdd(7 - |Decimal(n)|, Decimal(n));
  }

  /** The parts of a printed coordinate, and their value. */
  lemma FormattedIs(v: int)
    ensures (var n := Number(if v < 0 then "-" else "", Decimal((if v < 0 then -v else v) / UNITS),
                             Some(Padded((if v < 0 then -v else v) % UNITS)));
             Split(Formatted(v)) == Some(n) && Magnitude(n) == if v < 0 then -v else v)
  {
    hide Decimal, Padded, NumberOf, Split;
    var size := if v < 0 then -v else v;
    var n := Number(if v < 0 then "-" else "", Decimal(size / UNITS), Some(Padded(size % UNITS)));
    assert Text(n) == Formatted(v);
    SplitExactly(Formatted(v), n);
    DecimalIs(size / UNITS);
    PaddedIs(size % UNITS);
    PowersAre(0);
  }

  lemma {:induction false} DecimalLeads(n: nat)
    ensures if n == 0 then Decimal(n) == "0" else Decimal(n)[0] != '0'
  {
    if n >= 10 { DecimalLeads(n / 10); }
  }

  /** How a coordinate is printed: a minus sign exactly for a negative one, no zeros in front, seven decimals, and as
      the number it is. */
  lemma PrintedShape(v: int)
    ensures Split(Formatted(v)).Some?
    ensures (var n := Split(Formatted(v)).value;
             && Formatted(v) == Text(n) && WellFormed(n) && n.sign == (if v < 0 then "-" else "")
             && (n.whole == "0" || n.whole[0] != '0') && n.fraction.Some? && |n.fraction.value| == 7
             && Magnitude(n) == if v < 0 then -v else v)
  {
    hide Decimal, Padded, Split, Formatted, Magnitude;
    FormattedIs(v);
    var size := if v < 0 then -v else v;
    DecimalLeads(size / UNITS);
    PaddedIs(size % UNITS);
    SplitExactly(Formatted(v), Split(Formatted(v)).value);
  }

  /** Printing and parsing give a coordinate back exactly when it is not the smallest 32-bit number, which is
      refused. */
  lemma PrintedIsParsed(v: int)
    requires -0x8000_0000 <= v < 0x8000_0000
    ensures Coordinate(Formatted(v)) == if v == -0x8000_0000 then None else Some(v)
  {
    hide Formatted, Split, Magnitude;
    FormattedIs(v);
  }
}
