/** The wrapping sequence tracker: the comparison of section 3.2 of RFC 1982 with SERIAL_BITS = 32, and what it means
    for a counter that does not wrap. */
module UartSequence {
  import opened Words
  import opened Arithmetic
  import opened Outcomes
  import opened UartFrame

  const MODULUS: nat := 0x1_0000_0000
  const HALF: nat := 0x8000_0000

  /** How far `n` is ahead of `previous` on the circle of 32-bit numbers. */
  function Delta(previous: nat, n: nat): (r: nat)
    ensures r < MODULUS
  {
    (n - previous) % MODULUS
  }

  /** The number on the circle. */
  function Circle(n: int): (r: nat)
    ensures r < MODULUS
  {
    n % MODULUS
  }

  /** The decision on a number of a type whose last accepted one is known, or not. */
  function Decide(previous: Option<nat>, n: nat): Option<RejectCode> {
    match previous
    case None => None
    case Some(p) => if Delta(p, n) == 0 then Some(Duplicate) else if Delta(p, n) >= HALF then Some(Reordered) else None
  }

  /** The three answers: the same number again; one behind by at most 2^31; and any other, which is ahead by less. */
  lemma DecideExactly(p: nat, n: nat)
    requires p < 0x1_0000_0000 && n < 0x1_0000_0000
    ensures Decide(Some(p), n) == Some(Duplicate) <==> n == p
    ensures Decide(Some(p), n) == Some(Reordered) <==> p - 0x8000_0000 <= n < p || n >= p + 0x8000_0000
    ensures Decide(Some(p), n) == None <==> p < n < p + 0x8000_0000 || n < p - 0x8000_0000
  {
    if n >= p { DivModIs(n - p, MODULUS, 0, n - p); } else { DivModIs(n - p, MODULUS, -1, n - p + MODULUS); }
  }

  // ---------------------------------------------------------------- runs of accepted numbers

  function LastOf(ns: seq<nat>): Option<nat> { if ns == [] then None else Some(ns[|ns| - 1]) }

  /** Numbers each of which was accepted after the ones before it. */
  predicate Accepted(ns: seq<nat>) {
    ns == [] || (Accepted(ns[..|ns| - 1]) && ns[|ns| - 1] < MODULUS
                 && Decide(LastOf(ns[..|ns| - 1]), ns[|ns| - 1]) == None)
  }

  /** The unbounded counter behind the accepted numbers. */
  function Lift(ns: seq<nat>): nat
    requires ns != []
  {
    if |ns| == 1 then ns[0] else Lift(ns[..|ns| - 1]) + Delta(ns[|ns| - 2], ns[|ns| - 1])
  }

  lemma DeltaAdds(u: nat, p: nat, n: nat)
    requires p == Circle(u) && n < MODULUS
    ensures Circle(u + Delta(p, n)) == n
  {
    var d := Delta(p, n);
    assert n - p == MODULUS * ((n - p) / MODULUS) + d;
    assert u == MODULUS * (u / MODULUS) + p;
    DivModIs(u + d, MODULUS, u / MODULUS - (n - p) / MODULUS, n);
  }

  /** The counter is congruent to the accepted number. */
  lemma {:induction false} LiftCongruent(ns: seq<nat>)
    requires ns != [] && Accepted(ns)
    ensures Circle(Lift(ns)) == ns[|ns| - 1]
  {
    if |ns| == 1 {
      DivModIs(ns[0], MODULUS, 0, ns[0]);
    } else {
      LiftCongruent(ns[..|ns| - 1]);
      DeltaAdds(Lift(ns[..|ns| - 1]), ns[|ns| - 2], ns[|ns| - 1]);
    }
  }

  /** It increases strictly. */
  lemma {:induction false} LiftIncreases(ns: seq<nat>, j: nat, k: nat)
    requires Accepted(ns) && 0 < j < k <= |ns|
    ensures Accepted(ns[..j]) && Accepted(ns[..k]) && Lift(ns[..j]) < Lift(ns[..k])
    decreases |ns|
  {
    if k < |ns| {
      LiftIncreases(ns[..|ns| - 1], j, k);
      assert ns[..|ns| - 1][..j] == ns[..j] && ns[..|ns| - 1][..k] == ns[..k];
    } else {
      assert ns[..k] == ns;
      if j < |ns| - 1 {
        LiftIncreases(ns[..|ns| - 1], j, |ns| - 1);
        assert ns[..|ns| - 1][..j] == ns[..j] && ns[..|ns| - 1][..|ns| - 1] == ns[..|ns| - 1];
      }
      hide Delta;
      assert Delta(ns[|ns| - 2], ns[|ns| - 1]) > 0;
    }
  }

  lemma {:induction false} PrefixAccepted(ns: seq<nat>, j: nat)
    requires Accepted(ns) && j <= |ns|
    ensures Accepted(ns[..j])
    decreases |ns|
  {
    if j < |ns| {
      PrefixAccepted(ns[..|ns| - 1], j);
      assert ns[..|ns| - 1][..j] == ns[..j];
    } else {
      assert ns[..j] == ns;
    }
  }

  lemma BehindFacts(u: nat, v: nat)
    requires v <= u
    ensures Delta(Circle(u), Circle(v)) == if Circle(u - v) == 0 then 0 else MODULUS - Circle(u - v)
  {
    var p, n, r := u % MODULUS, v % MODULUS, (u - v) % MODULUS;
    var a, b, c := u / MODULUS, v / MODULUS, (u - v) / MODULUS;
    assert u == MODULUS * a + p && v == MODULUS * b + n && u - v == MODULUS * c + r;
    assert n - p == MODULUS * (a - b - c) - r;
    if r == 0 {
      DivModIs(n - p, MODULUS, a - b - c, 0);
    } else {
      DivModIs(n - p, MODULUS, a - b - c - 1, MODULUS - r);
    }
  }

  /** A number that was accepted before is rejected exactly as long as the counter has advanced by at most 2^31 since,
      modulo the circle. */
  lemma ReplayRejected(ns: seq<nat>, j: nat)
    requires Accepted(ns) && 0 < j <= |ns|
    ensures Accepted(ns[..j]) && Lift(ns[..j]) <= Lift(ns)
    ensures Decide(LastOf(ns), ns[j - 1]) != None <==> Circle(Lift(ns) - Lift(ns[..j])) <= HALF
  {
    hide Delta, Lift, Accepted, Circle;
    PrefixAccepted(ns, j);
    if j < |ns| { LiftIncreases(ns, j, |ns|); }
    assert ns[..|ns|] == ns && ns[..j][j - 1] == ns[j - 1];
    LiftCongruent(ns);
    LiftCongruent(ns[..j]);
    BehindFacts(Lift(ns), Lift(ns[..j]));
  }

  // ---------------------------------------------------------------- the tracker

  datatype Sent = Sent(messageType: MessageType, number: nat)

  /** The numbers of one type. */
  function OfType(log: seq<Sent>, t: MessageType): seq<nat> {
    if log == [] then []
    else OfType(log[..|log| - 1], t) + (if log[|log| - 1].messageType == t then [log[|log| - 1].number] else [])
  }

  /** The map has the last accepted number of a type, if there is one. */
  predicate Consistent(last: map<MessageType, nat>, log: seq<Sent>, t: MessageType) {
    Accepted(OfType(log, t)) && LastOf(OfType(log, t)) == if t in last then Some(last[t]) else None
  }

  class SequenceTracker {
    var last: map<MessageType, nat>
    /** What has been accepted since the last reset. */
    ghost var log: seq<Sent>

    ghost predicate Valid()
      reads this
    {
      forall t :: Consistent(last, log, t)
    }

    constructor ()
      ensures Valid() && log == []
    {
      last, log := map[], [];
    }

    /** `accept`: a number is accepted by the last one of its own type; nothing changes when it is not. */
    method Accept(t: MessageType, sequence: nat) returns (r: Option<RejectCode>)
      requires Valid() && sequence < MODULUS
      modifies this
      ensures Valid()
      ensures r == Decide(LastOf(OfType(old(log), t)), sequence)
      ensures r.None? ==> log == old(log) + [Sent(t, sequence)]
      ensures r.Some? ==> log == old(log) && last == old(last)
    {
      hide Delta, Accepted, OfType;
      ghost var before, lasts := log, last;
      assert Consistent(last, log, t);
      if t in last {
        var delta := Delta(last[t], sequence);
        if delta == 0 {
          return Some(Duplicate);
        }
        if delta > HALF - 1 {
          return Some(Reordered);
        }
      }
      last := last[t := sequence];
      log := log + [Sent(t, sequence)];
      r := None;
      forall u ensures Consistent(last, log, u) {
        assert Consistent(lasts, before, u);
        OfTypeMore(before, t, sequence, u);
        if u == t { AcceptedMore(OfType(before, t), sequence); }
      }
    }

    /** `reset` */
    method Reset()
      modifies this
      ensures Valid() && log == []
    {
      last, log := map[], [];
    }
  }

  /** A number joins those of its own type; the numbers of the other types stay as they were. */
  lemma OfTypeMore(log: seq<Sent>, t: MessageType, n: nat, u: MessageType)
    ensures OfType(log + [Sent(t, n)], u) == if u == t then OfType(log, u) + [n] else OfType(log, u)
  {
    assert (log + [Sent(t, n)])[..|log|] == log;
    assert OfType(log, u) + [] == OfType(log, u);
  }

  lemma AcceptedMore(ns: seq<nat>, n: nat)
    requires Accepted(ns) && n < MODULUS && Decide(LastOf(ns), n) == None
    ensures Accepted(ns + [n])
  {
    hide Delta;
    assert (ns + [n])[..|ns|] == ns;
  }
}
